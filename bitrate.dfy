/** The bandwidth monitor's line parser: the regular expression
    `bitrate=\s*(\d+\.?\d*)` searched in a diagnostic line, the captured text
    read as a number of kilobits per second, and its conversion to megabits per
    second rounded to two decimals. */
module Bitrate {
  import opened Common
  import opened Text

  /** The literal that starts a match. */
  const Marker: string := "bitrate="

  predicate IsDigit(c: char) {
    '0' <= c <= '9'
  }

  predicate AllDigits(s: string) {
    forall k :: 0 <= k < |s| ==> IsDigit(s[k])
  }

  predicate AllSpaces(s: string) {
    forall k :: 0 <= k < |s| ==> IsSpace(s[k])
  }

  /** The length of the longest run of digits starting at `i` (greedy `\d*`). */
  function DigitRun(s: string, i: nat): (n: nat)
    requires i <= |s|
    ensures i + n <= |s|
    ensures forall k :: i <= k < i + n ==> IsDigit(s[k])
    ensures i + n == |s| || !IsDigit(s[i + n])
    decreases |s| - i
  {
    if i < |s| && IsDigit(s[i]) then 1 + DigitRun(s, i + 1) else 0
  }

  /** The length of the longest run of whitespace starting at `i` (greedy `\s*`). */
  function SpaceRun(s: string, i: nat): (n: nat)
    requires i <= |s|
    ensures i + n <= |s|
    ensures forall k :: i <= k < i + n ==> IsSpace(s[k])
    ensures i + n == |s| || !IsSpace(s[i + n])
    decreases |s| - i
  {
    if i < |s| && IsSpace(s[i]) then 1 + SpaceRun(s, i + 1) else 0
  }

  /** The text the group `(\d+\.?\d*)` captures at offset `j`: at least one
      digit, then optionally a point and the digits after it, all greedy. */
  function NumberAt(s: string, j: nat): Option<string>
    requires j <= |s|
  {
    var n1 := DigitRun(s, j);
    if n1 == 0 then None
    else if j + n1 < |s| && s[j + n1] == '.' then Some(s[j..j + n1 + 1 + DigitRun(s, j + n1 + 1)])
    else Some(s[j..j + n1])
  }

  /** The match at offset `i` of a pattern made of the literal `m`, the longest
      run of whitespace, then the number; the result is the captured text. */
  function MatchAfter(s: string, i: nat, m: string): Option<string>
    requires i <= |s|
  {
    if StartsWith(s[i..], m) then NumberAt(s, i + |m| + SpaceRun(s, i + |m|))
    else None
  }

  /** The match of the bitrate pattern that starts at offset `i`, if any. */
  function MatchAt(s: string, i: nat): Option<string>
    requires i <= |s|
  {
    MatchAfter(s, i, Marker)
  }

  /** `re.search` from offset `i`: tries each offset from `i` on. */
  function SearchFrom(s: string, i: nat): Option<string>
    requires i <= |s|
    decreases |s| - i
  {
    if MatchAt(s, i).Some? then MatchAt(s, i)
    else if i == |s| then None
    else SearchFrom(s, i + 1)
  }

  /** The search finds nothing exactly when no offset from `i` on matches. */
  lemma {:induction false} SearchFromNone(s: string, i: nat)
    requires i <= |s|
    ensures SearchFrom(s, i).None? <==> forall j :: i <= j <= |s| ==> MatchAt(s, j).None?
    decreases |s| - i
  {
    if MatchAt(s, i).None? && i < |s| {
      SearchFromNone(s, i + 1);
    }
  }

  /** The search finds the match at `j` when no offset between `i` and `j` matches. */
  lemma {:induction false} SearchFromLeftmost(s: string, i: nat, j: nat)
    requires i <= j <= |s|
    requires MatchAt(s, j).Some?
    requires forall k :: i <= k < j ==> MatchAt(s, k).None?
    ensures SearchFrom(s, i) == MatchAt(s, j)
    decreases j - i
  {
    if i < j {
      SearchFromLeftmost(s, i + 1, j);
    }
  }

  /** `bitrate_pattern.search(line)`, giving the text of the captured group. */
  function Search(s: string): Option<string> {
    SearchFrom(s, 0)
  }

  /** The number a string of decimal digits denotes. */
  function DigitsValue(ds: string): nat
    requires AllDigits(ds)
    decreases |ds|
  {
    if ds == [] then 0
    else 10 * DigitsValue(ds[..|ds| - 1]) + ((ds[|ds| - 1] as int) - ('0' as int))
  }

  /** A decimal number `mantissa / 10^scale`. */
  datatype Decimal = Decimal(mantissa: nat, scale: nat)

  /** `float(text)` for the text the group captures: the leading digits, and when
      a point follows them, the digits after the point. */
  function DecimalOf(text: string): Decimal {
    var n1 := DigitRun(text, 0);
    if n1 < |text| && text[n1] == '.' then
      var n2 := DigitRun(text, n1 + 1);
      var ds := text[..n1] + text[n1 + 1..n1 + 1 + n2];
      assert AllDigits(ds) by {
        forall k | 0 <= k < |ds| ensures IsDigit(ds[k]) {
          if k >= n1 {
            assert ds[k] == text[k + 1];
          }
        }
      }
      Decimal(DigitsValue(ds), n2)
    else
      Decimal(DigitsValue(text[..n1]), 0)
  }

  /** The block `b` stands in `s` at offset `p`. */
  predicate At(s: string, p: nat, b: string) {
    p + |b| <= |s| && s[p..p + |b|] == b
  }

  lemma DigitRunOver(s: string, p: nat, b: string)
    requires At(s, p, b) && AllDigits(b)
    requires p + |b| == |s| || !IsDigit(s[p + |b|])
    ensures DigitRun(s, p) == |b|
  {
    forall k | p <= k < p + |b| ensures IsDigit(s[k]) {
      assert s[k] == s[p..p + |b|][k - p];
    }
  }

  lemma SpaceRunOver(s: string, p: nat, b: string)
    requires At(s, p, b) && AllSpaces(b)
    requires p + |b| == |s| || !IsSpace(s[p + |b|])
    ensures SpaceRun(s, p) == |b|
  {
    forall k | p <= k < p + |b| ensures IsSpace(s[k]) {
      assert s[k] == s[p..p + |b|][k - p];
    }
  }

  /** The text of a throughput field: its integer digits and, when there is one,
      a point and the digits after it. */
  function FieldText(whole: string, fraction: Option<string>): string {
    if fraction.Some? then whole + "." + fraction.value else whole
  }

  /** The number a throughput field denotes. */
  function FieldValue(whole: string, fraction: Option<string>): Decimal
    requires AllDigits(whole)
    requires fraction.Some? ==> AllDigits(fraction.value)
  {
    var f := fraction.GetOr("");
    assert AllDigits(whole + f);
    Decimal(DigitsValue(whole + f), |f|)
  }

  /** The number part of a field stands at offset `j`: the integer digits and
      optionally a point and more digits, followed by something that does not
      extend the number. */
  predicate NumberFieldAt(s: string, j: nat, whole: string, fraction: Option<string>) {
    var e := j + |whole| + (if fraction.Some? then 1 + |fraction.value| else 0);
    && At(s, j, whole) && AllDigits(whole) && whole != []
    && (fraction.Some? ==> At(s, j + |whole|, "." + fraction.value) && AllDigits(fraction.value))
    && (fraction.None? ==> j + |whole| == |s| || s[j + |whole|] != '.')
    && (e == |s| || (e < |s| && !IsDigit(s[e])))
  }

  /** A field stands at offset `i`: the literal `m`, whitespace, then the number
      part. With `m` the marker, this is how the transmission tool writes its
      throughput. */
  predicate FieldAt(s: string, i: nat, m: string, spaces: string, whole: string, fraction: Option<string>) {
    && At(s, i, m) && At(s, i + |m|, spaces) && AllSpaces(spaces)
    && NumberFieldAt(s, i + |m| + |spaces|, whole, fraction)
  }

  lemma NumberWithFraction(s: string, j: nat, whole: string, f: string)
    requires NumberFieldAt(s, j, whole, Some(f))
    ensures NumberAt(s, j) == Some(whole + "." + f)
  {
    var n1 := |whole|;
    DotThenDigits(s, j + n1, f);
    DigitRunOver(s, j, whole);
    DigitRunOver(s, j + n1 + 1, f);
    NumberFromRuns(s, j, n1, |f|);
    AtConcat(s, j, whole, "." + f);
    assert whole + "." + f == whole + ("." + f);
  }

  /** A point followed by `f`: the point, then `f` one place further. */
  lemma DotThenDigits(s: string, p: nat, f: string)
    requires At(s, p, "." + f)
    ensures p < |s| && s[p] == '.' && At(s, p + 1, f)
  {
    assert s[p] == s[p..p + 1 + |f|][0];
    assert s[p + 1..p + 1 + |f|] == s[p..p + 1 + |f|][1..];
  }

  /** Two blocks side by side form their concatenation. */
  lemma AtConcat(s: string, p: nat, a: string, b: string)
    requires At(s, p, a) && At(s, p + |a|, b)
    ensures At(s, p, a + b)
  {
    assert s[p..p + |a| + |b|] == s[p..p + |a|] + s[p + |a|..p + |a| + |b|];
  }

  /** What the group captures once the two digit runs around the point are known. */
  lemma NumberFromRuns(s: string, j: nat, n1: nat, n2: nat)
    requires j + n1 < |s| && DigitRun(s, j) == n1 && n1 > 0 && s[j + n1] == '.'
    requires DigitRun(s, j + n1 + 1) == n2
    ensures j + n1 + 1 + n2 <= |s| && NumberAt(s, j) == Some(s[j..j + n1 + 1 + n2])
  {
  }

  lemma NumberWithoutFraction(s: string, j: nat, whole: string)
    requires NumberFieldAt(s, j, whole, None)
    ensures NumberAt(s, j) == Some(whole)
  {
    DigitRunOver(s, j, whole);
  }

  /** The group captures the number part of a field. */
  lemma FieldNumber(s: string, j: nat, whole: string, fraction: Option<string>)
    requires NumberFieldAt(s, j, whole, fraction)
    ensures j <= |s| && NumberAt(s, j) == Some(FieldText(whole, fraction))
  {
    if fraction.Some? {
      NumberWithFraction(s, j, whole, fraction.value);
    } else {
      NumberWithoutFraction(s, j, whole);
    }
  }

  /** A number part starts with a digit. */
  lemma NumberFieldStart(s: string, j: nat, whole: string, fraction: Option<string>)
    requires NumberFieldAt(s, j, whole, fraction)
    ensures j < |s| && IsDigit(s[j])
  {
    assert s[j] == s[j..j + |whole|][0];
  }

  /** A literal `m` followed by the whitespace `spaces` and then something else:
      the prefix test passes and the greedy whitespace run is `spaces`. */
  lemma MarkerThenSpaces(s: string, i: nat, m: string, spaces: string)
    requires At(s, i, m) && At(s, i + |m|, spaces) && AllSpaces(spaces)
    requires i + |m| + |spaces| < |s| && !IsSpace(s[i + |m| + |spaces|])
    ensures StartsWith(s[i..], m) && SpaceRun(s, i + |m|) == |spaces|
  {
    assert s[i..][..|m|] == s[i..i + |m|];
    SpaceRunOver(s, i + |m|, spaces);
  }

  /** The pattern matches such a field where it starts and captures the field's
      number text. */
  lemma MatchField(s: string, i: nat, m: string, spaces: string, whole: string, fraction: Option<string>)
    requires FieldAt(s, i, m, spaces, whole, fraction)
    ensures MatchAfter(s, i, m) == Some(FieldText(whole, fraction))
  {
    var j := i + |m| + |spaces|;
    NumberFieldStart(s, j, whole, fraction);
    MarkerThenSpaces(s, i, m, spaces);
    FieldNumber(s, j, whole, fraction);
    MatchFromParts(s, i, m, |spaces|);
  }

  /** What the pattern captures once the literal and the whitespace are known. */
  lemma MatchFromParts(s: string, i: nat, m: string, k: nat)
    requires i + |m| + k <= |s|
    requires StartsWith(s[i..], m) && SpaceRun(s, i + |m|) == k
    ensures MatchAfter(s, i, m) == NumberAt(s, i + |m| + k)
  {
    MatchAfterUnfold(s, i, m);
  }

  lemma MatchAfterUnfold(s: string, i: nat, m: string)
    requires i + |m| <= |s| && StartsWith(s[i..], m)
    ensures MatchAfter(s, i, m) == NumberAt(s, i + |m| + SpaceRun(s, i + |m|))
  {
  }

  /** A field before which no match starts is what the search finds. */
  lemma SearchField(s: string, i: nat, spaces: string, whole: string, fraction: Option<string>)
    requires FieldAt(s, i, Marker, spaces, whole, fraction)
    requires forall k :: 0 <= k < i ==> MatchAt(s, k).None?
    ensures Search(s) == Some(FieldText(whole, fraction))
  {
    MatchField(s, i, Marker, spaces, whole, fraction);
    SearchFromLeftmost(s, 0, i);
  }

  /** Conversely, every match is a throughput field, and the pattern captures
      that field's number text. */
  lemma MatchIsField(s: string, i: nat)
    requires i <= |s| && MatchAt(s, i).Some?
    ensures exists spaces, whole, fraction ::
      FieldAt(s, i, Marker, spaces, whole, fraction) && MatchAt(s, i) == Some(FieldText(whole, fraction))
  {
    var m := Marker;
    MarkerFound(s, i, m);
    MatchAfterUnfold(s, i, m);
    var j := i + |m| + SpaceRun(s, i + |m|);
    SpacesFound(s, i + |m|);
    NumberIsField(s, j);
    var spaces, whole, fraction := s[i + |m|..j], WholeOf(s, j), FractionOf(s, j);
    assert FieldAt(s, i, m, spaces, whole, fraction);
  }

  lemma MarkerFound(s: string, i: nat, m: string)
    requires i <= |s| && StartsWith(s[i..], m)
    ensures At(s, i, m)
  {
    assert s[i..][..|m|] == s[i..i + |m|];
  }

  /** The greedy whitespace run is a block of whitespace. */
  lemma SpacesFound(s: string, p: nat)
    requires p <= |s|
    ensures At(s, p, s[p..p + SpaceRun(s, p)]) && AllSpaces(s[p..p + SpaceRun(s, p)])
  {
    var spaces := s[p..p + SpaceRun(s, p)];
    forall t | 0 <= t < |spaces| ensures IsSpace(spaces[t]) {
      assert spaces[t] == s[p + t];
    }
  }

  /** The greedy digit run is a block of digits. */
  lemma RunIsDigits(s: string, p: nat)
    requires p <= |s|
    ensures AllDigits(s[p..p + DigitRun(s, p)])
  {
    var ds := s[p..p + DigitRun(s, p)];
    forall t | 0 <= t < |ds| ensures IsDigit(ds[t]) {
      assert ds[t] == s[p + t];
    }
  }

  /** The integer digits the group captures at `j`. */
  function WholeOf(s: string, j: nat): string
    requires j <= |s|
  {
    s[j..j + DigitRun(s, j)]
  }

  /** The digits after the point the group captures at `j`, if a point follows. */
  function FractionOf(s: string, j: nat): Option<string>
    requires j <= |s|
  {
    var n1 := DigitRun(s, j);
    if j + n1 < |s| && s[j + n1] == '.' then Some(s[j + n1 + 1..j + n1 + 1 + DigitRun(s, j + n1 + 1)]) else None
  }

  /** Whatever the group captures is the number part of a field. */
  lemma NumberIsField(s: string, j: nat)
    requires j <= |s| && NumberAt(s, j).Some?
    ensures NumberFieldAt(s, j, WholeOf(s, j), FractionOf(s, j))
    ensures NumberAt(s, j) == Some(FieldText(WholeOf(s, j), FractionOf(s, j)))
  {
    var n1 := DigitRun(s, j);
    var whole := s[j..j + n1];
    assert WholeOf(s, j) == whole;
    if j + n1 < |s| && s[j + n1] == '.' {
      var n2 := DigitRun(s, j + n1 + 1);
      var f := s[j + n1 + 1..j + n1 + 1 + n2];
      assert FractionOf(s, j) == Some(f);
      PointField(s, j, n1, n2);
      PointCaptured(s, j, n1, n2);
      assert FieldText(whole, Some(f)) == whole + "." + f;
    } else {
      assert FractionOf(s, j) == None;
      NoPointField(s, j, n1);
      assert NumberAt(s, j) == Some(whole);
    }
  }

  /** Digits, a point and more digits, as the greedy runs find them, form a
      number part with a fraction. */
  lemma PointField(s: string, j: nat, n1: nat, n2: nat)
    requires j + n1 < |s| && DigitRun(s, j) == n1 && n1 > 0 && s[j + n1] == '.'
    requires DigitRun(s, j + n1 + 1) == n2
    ensures NumberFieldAt(s, j, s[j..j + n1], Some(s[j + n1 + 1..j + n1 + 1 + n2]))
  {
    RunIsDigits(s, j);
    RunIsDigits(s, j + n1 + 1);
    PointBlock(s, j + n1, n2);
  }

  /** What the group captures in that case. */
  lemma PointCaptured(s: string, j: nat, n1: nat, n2: nat)
    requires j + n1 < |s| && DigitRun(s, j) == n1 && n1 > 0 && s[j + n1] == '.'
    requires DigitRun(s, j + n1 + 1) == n2
    ensures NumberAt(s, j) == Some(s[j..j + n1] + "." + s[j + n1 + 1..j + n1 + 1 + n2])
  {
    NumberFromRuns(s, j, n1, n2);
    SliceAround(s, j, j + n1, j + n1 + 1 + n2);
  }

  /** Digits not followed by a point form a number part without a fraction. */
  lemma NoPointField(s: string, j: nat, n1: nat)
    requires j <= |s| && DigitRun(s, j) == n1 && n1 > 0
    requires !(j + n1 < |s| && s[j + n1] == '.')
    ensures NumberFieldAt(s, j, s[j..j + n1], None)
  {
    RunIsDigits(s, j);
  }

  /** A point at `p` followed by the block after it. */
  lemma PointBlock(s: string, p: nat, n: nat)
    requires p + 1 + n <= |s| && s[p] == '.'
    ensures At(s, p, "." + s[p + 1..p + 1 + n])
  {
    assert s[p..p + 1 + n] == [s[p]] + s[p + 1..p + 1 + n];
  }

  /** A slice is the slice before `p`, the point at `p` and the slice after it. */
  lemma SliceAround(s: string, a: nat, p: nat, e: nat)
    requires a <= p < e <= |s| && s[p] == '.'
    ensures s[a..e] == s[a..p] + "." + s[p + 1..e]
  {
    assert s[a..e] == s[a..p] + s[p..e];
    assert s[p..e] == [s[p]] + s[p + 1..e];
  }

  /** The search returns the match at its leftmost matching offset. */
  lemma {:induction false} SearchFromFound(s: string, i: nat)
    requires i <= |s| && SearchFrom(s, i).Some?
    ensures exists j :: i <= j <= |s| && SearchFrom(s, i) == MatchAt(s, j) && (forall k :: i <= k < j ==> MatchAt(s, k).None?)
    decreases |s| - i
  {
    if MatchAt(s, i).Some? {
      assert SearchFrom(s, i) == MatchAt(s, i);
    } else {
      SearchFromFound(s, i + 1);
      var j :| i + 1 <= j <= |s| && SearchFrom(s, i + 1) == MatchAt(s, j) && (forall k :: i + 1 <= k < j ==> MatchAt(s, k).None?);
      assert forall k :: i <= k < j ==> MatchAt(s, k).None?;
    }
  }

  /** `float()` reads the text of a field as the number the field denotes. */
  lemma DecimalOfField(whole: string, fraction: Option<string>)
    requires AllDigits(whole)
    requires fraction.Some? ==> AllDigits(fraction.value)
    ensures DecimalOf(FieldText(whole, fraction)) == FieldValue(whole, fraction)
  {
    var text := FieldText(whole, fraction);
    var n := |whole|;
    assert At(text, 0, whole);
    if fraction.Some? {
      var f := fraction.value;
      assert text[n] == '.';
      DigitRunOver(text, 0, whole);
      assert At(text, n + 1, f);
      DigitRunOver(text, n + 1, f);
      assert text[..n] + text[n + 1..n + 1 + |f|] == whole + f;
    } else {
      DigitRunOver(text, 0, whole);
      assert text[..n] == whole + "";
    }
  }

  function Pow10(k: nat): (p: nat)
    ensures p >= 1
  {
    if k == 0 then 1 else 10 * Pow10(k - 1)
  }

  /** `a / d` rounded to the nearest integer (a tie rounds up). */
  function RoundDiv(a: nat, d: nat): (q: nat)
    requires d >= 1
    ensures 2 * a - d <= 2 * q * d <= 2 * a + d
  {
    var q := (2 * a + d) / (2 * d);
    assert 2 * a + d == 2 * d * q + (2 * a + d) % (2 * d);
    assert 2 * q * d == 2 * d * q;
    q
  }

  /** `round(kbps / 1000, 2)` in hundredths of a megabit per second: the nearest
      integer to `kbps / 10`, that is to `mantissa / 10^(scale + 1)`. */
  function MbpsHundredths(kbps: Decimal): nat {
    RoundDiv(kbps.mantissa, Pow10(kbps.scale + 1))
  }

  /** The bandwidth a diagnostic line reports, in hundredths of Mbps: the line is
      stripped, searched, and the captured text read as kilobits per second. */
  function Reading(line: string): Option<nat> {
    match Search(Strip(line))
    case None => None
    case Some(text) => Some(MbpsHundredths(DecimalOf(text)))
  }

  /** A line whose first match is a throughput field reports that field's value,
      converted to Mbps and rounded. */
  lemma ReadingOfField(line: string, i: nat, spaces: string, whole: string, fraction: Option<string>)
    requires FieldAt(Strip(line), i, Marker, spaces, whole, fraction)
    requires forall k :: 0 <= k < i ==> MatchAt(Strip(line), k).None?
    ensures Reading(line) == Some(MbpsHundredths(FieldValue(whole, fraction)))
  {
    SearchField(Strip(line), i, spaces, whole, fraction);
    DecimalOfField(whole, fraction);
  }

  /** Every reading comes from the first throughput field of the stripped line:
      its value in kbps, divided by 1000 and rounded to hundredths. */
  lemma ReadingIsFirstField(line: string)
    requires Reading(line).Some?
    ensures exists i: nat, spaces, whole, fraction ::
      && FieldAt(Strip(line), i, Marker, spaces, whole, fraction)
      && (forall k :: 0 <= k < i ==> MatchAt(Strip(line), k).None?)
      && Reading(line) == Some(MbpsHundredths(FieldValue(whole, fraction)))
  {
    var s := Strip(line);
    SearchFromFound(s, 0);
    var i: nat :| i <= |s| && SearchFrom(s, 0) == MatchAt(s, i) && (forall k :: 0 <= k < i ==> MatchAt(s, k).None?);
    MatchIsField(s, i);
    var spaces, whole, fraction :|
      FieldAt(s, i, Marker, spaces, whole, fraction) && MatchAt(s, i) == Some(FieldText(whole, fraction));
    ReadingOfField(line, i, spaces, whole, fraction);
  }

  /** A line reports nothing exactly when the pattern matches nowhere in it. */
  lemma ReadingNone(line: string)
    ensures Reading(line).None? <==> forall j :: 0 <= j <= |Strip(line)| ==> MatchAt(Strip(line), j).None?
  {
    SearchFromNone(Strip(line), 0);
  }

  lemma Value2048()
    ensures FieldValue("2048", Some("0")) == Decimal(20480, 1)
  {
    assert "2048" + "0" == "20480";
    assert "20480"[..4] == "2048" && "2048"[..3] == "204" && "204"[..2] == "20" && "20"[..1] == "2";
    assert DigitsValue("2") == 2;
    assert DigitsValue("20") == 20;
    assert DigitsValue("204") == 204;
    assert DigitsValue("2048") == 2048;
  }

  lemma Line2048(line: string)
    requires line == "bitrate= 2048.0kbits/s"
    ensures Strip(line) == line
    ensures FieldAt(line, 0, Marker, " ", "2048", Some("0"))
  {
    Stripped2048(line);
    Field2048(line);
  }

  lemma Stripped2048(line: string)
    requires line == "bitrate= 2048.0kbits/s"
    ensures Strip(line) == line
  {
    assert LeadingSpaces(line) == 0 && TrailingSpaces(line) == 0;
  }

  lemma Field2048(line: string)
    requires line == "bitrate= 2048.0kbits/s"
    ensures FieldAt(line, 0, Marker, " ", "2048", Some("0"))
  {
    assert line[0..8] == Marker;
    assert line[8..9] == " ";
    assert line[9..13] == "2048";
    assert line[13..15] == ".0";
  }

  lemma Mbps2048()
    ensures MbpsHundredths(FieldValue("2048", Some("0"))) == 205
  {
    Value2048();
    assert Pow10(2) == 100;
  }

  /** A progress line reporting 2048.0 kbits/s records 2.05 Mbps. */
  lemma Reading2048()
    ensures Reading("bitrate= 2048.0kbits/s") == Some(205)
  {
    var line := "bitrate= 2048.0kbits/s";
    Line2048(line);
    ReadingOfField(line, 0, " ", "2048", Some("0"));
    Mbps2048();
  }
}
