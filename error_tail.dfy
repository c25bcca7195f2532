/** The error monitor's reader: a rolling window over the last diagnostic lines
    and the keyword scan applied to it once the diagnostic stream closes. */
module ErrorTail {
  import opened Common
  import opened Text

  /** How many of the most recent lines the window keeps. */
  const WindowSize: nat := 5

  /** Substrings that mark a line as reporting a failure (case-sensitive). */
  const ErrorKeywords: seq<string> := ["Error", "failed", "cannot", "Invalid", "unable", "not found"]

  function Min(a: int, b: int): int {
    if a <= b then a else b
  }

  /** The window after reading `lines`: the last min(|lines|, 5) lines, stripped,
      in arrival order. */
  function Tail(lines: seq<string>): (w: seq<string>)
    ensures |w| <= WindowSize
  {
    var m := Min(|lines|, WindowSize);
    seq(m, i requires 0 <= i < m => Strip(lines[|lines| - m + i]))
  }

  /** Appending a line and dropping the oldest one when the window overflows
      moves the window on by one line. */
  lemma TailStep(lines: seq<string>, line: string)
    ensures var w := Tail(lines) + [Strip(line)];
      Tail(lines + [line]) == if |w| > WindowSize then w[1..] else w
  {
    var w := Tail(lines) + [Strip(line)];
    var all := lines + [line];
    var t := Tail(all);
    var v := if |w| > WindowSize then w[1..] else w;
    assert |t| == |v|;
    forall i | 0 <= i < |t| ensures t[i] == v[i] {
      if |w| > WindowSize {
        assert v[i] == w[i + 1];
      }
    }
  }

  /** Reads the diagnostic lines one by one, stripping each, appending it to the
      window and dropping the oldest line once the window is over its size. */
  method TailWindow(lines: seq<string>) returns (window: seq<string>)
    ensures window == Tail(lines)
  {
    window := [];
    var n := 0;
    while n < |lines|
      invariant 0 <= n <= |lines|
      invariant window == Tail(lines[..n])
    {
      TailStep(lines[..n], lines[n]);
      assert lines[..n] + [lines[n]] == lines[..n + 1];
      window := window + [Strip(lines[n])];
      if |window| > WindowSize {
        window := window[1..];
      }
      n := n + 1;
    }
    assert lines[..n] == lines;
  }

  /** The line contains one of the error keywords. */
  predicate HasKeyword(line: string) {
    exists k :: k in ErrorKeywords && Contains(line, k)
  }

  /** The window lines that contain a keyword, in window order. */
  function ErrorLines(window: seq<string>): (r: seq<string>)
    ensures |r| <= |window|
    ensures forall i :: 0 <= i < |r| ==> HasKeyword(r[i]) && r[i] in window
    decreases |window|
  {
    if window == [] then []
    else (if HasKeyword(window[0]) then [window[0]] else []) + ErrorLines(window[1..])
  }

  /** Every keyword line of the window is reported. */
  lemma {:induction false} ErrorLinesComplete(window: seq<string>)
    ensures forall line :: line in window && HasKeyword(line) ==> line in ErrorLines(window)
    decreases |window|
  {
    if window != [] {
      ErrorLinesComplete(window[1..]);
      forall line | line in window && HasKeyword(line)
        ensures line in ErrorLines(window)
      {
        if line != window[0] {
          assert line in window[1..];
        }
      }
    }
  }

  /** Scanning two pieces of a window and concatenating gives the scan of the
      whole window: the reported lines keep the window's order. */
  lemma {:induction false} ErrorLinesAppend(a: seq<string>, b: seq<string>)
    ensures ErrorLines(a + b) == ErrorLines(a) + ErrorLines(b)
    decreases |a|
  {
    if a == [] {
      assert a + b == b;
    } else {
      assert (a + b)[1..] == a[1..] + b;
      ErrorLinesAppend(a[1..], b);
    }
  }

  /** The outcome of the scan: the error message when some line matched. */
  function ErrorMessage(window: seq<string>): Option<string> {
    var errors := ErrorLines(window);
    if errors != [] then Some(Join("\n", errors)) else None
  }

  /** The scan reports an error exactly when some window line has a keyword. */
  lemma ErrorMessageIff(window: seq<string>)
    ensures ErrorMessage(window).Some? <==> exists line :: line in window && HasKeyword(line)
  {
    ErrorLinesComplete(window);
    if ErrorLines(window) != [] {
      assert ErrorLines(window)[0] in window;
    }
  }

  /** When no window line holds a line break (the reader splits at line breaks),
      splitting the message at "\n" gives back exactly the reported lines. */
  lemma ErrorMessageLines(window: seq<string>)
    requires forall i :: 0 <= i < |window| ==> '\n' !in window[i]
    requires ErrorMessage(window).Some?
    ensures Split(ErrorMessage(window).value, '\n') == ErrorLines(window)
  {
    var errors := ErrorLines(window);
    assert forall line :: line in window ==> '\n' !in line;
    assert forall i :: 0 <= i < |errors| ==> errors[i] in window;
    SplitJoin(errors, '\n');
  }
}
