/** The per-stream bandwidth table: destination -> latest reading, in hundredths
    of a megabit per second, and what a sequence of diagnostic lines does to it. */
module Bandwidth {
  import opened Common
  import opened Bitrate

  type Table = map<string, nat>

  /** Writes the reading `v` under every destination of `ds`, in order. */
  function SetAll(t: Table, ds: seq<string>, v: nat): (r: Table)
    ensures r.Keys == t.Keys + set d | d in ds
    ensures forall d :: d in ds ==> r[d] == v
    ensures forall k :: k in t && k !in ds ==> r[k] == t[k]
    decreases |ds|
  {
    if ds == [] then t else SetAll(t, ds[..|ds| - 1], v)[ds[|ds| - 1] := v]
  }

  /** One diagnostic line: a line with a reading overwrites every destination,
      any other line changes nothing. */
  function Observe(t: Table, ds: seq<string>, line: string): Table {
    match Reading(line)
    case None => t
    case Some(v) => SetAll(t, ds, v)
  }

  /** The lines in the order they are read. */
  function ObserveAll(t: Table, ds: seq<string>, lines: seq<string>): Table
    decreases |lines|
  {
    if lines == [] then t
    else Observe(ObserveAll(t, ds, lines[..|lines| - 1]), ds, lines[|lines| - 1])
  }

  /** Writing one more destination. */
  lemma SetAllSnoc(t: Table, ds: seq<string>, v: nat, i: nat)
    requires i < |ds|
    ensures SetAll(t, ds[..i + 1], v) == SetAll(t, ds[..i], v)[ds[i] := v]
  {
    assert ds[..i + 1][..i] == ds[..i];
  }

  /** Reading one more line. */
  lemma ObserveAllSnoc(t: Table, ds: seq<string>, lines: seq<string>, n: nat)
    requires n < |lines|
    ensures ObserveAll(t, ds, lines[..n + 1]) == Observe(ObserveAll(t, ds, lines[..n]), ds, lines[n])
  {
    assert lines[..n + 1][..n] == lines[..n];
  }

  /** The reading of the last line that has one. */
  function LastReading(lines: seq<string>): Option<nat>
    decreases |lines|
  {
    if lines == [] then None
    else if Reading(lines[|lines| - 1]).Some? then Reading(lines[|lines| - 1])
    else LastReading(lines[..|lines| - 1])
  }

  /** A later reading replaces an earlier one; nothing accumulates. */
  lemma SetAllOverwrites(t: Table, ds: seq<string>, v: nat, w: nat)
    ensures SetAll(SetAll(t, ds, v), ds, w) == SetAll(t, ds, w)
  {
    var a := SetAll(SetAll(t, ds, v), ds, w);
    var b := SetAll(t, ds, w);
    assert a.Keys == b.Keys;
    forall k | k in a ensures a[k] == b[k] {
    }
  }

  /** After the lines have been read, every destination holds the last reading and
      every other key its old value; without a reading the table is unchanged. */
  lemma {:induction false} ObserveAllIsLastReading(t: Table, ds: seq<string>, lines: seq<string>)
    ensures ObserveAll(t, ds, lines) ==
      match LastReading(lines)
      case None => t
      case Some(v) => SetAll(t, ds, v)
    decreases |lines|
  {
    if lines != [] {
      var front := lines[..|lines| - 1];
      ObserveAllIsLastReading(t, ds, front);
      if Reading(lines[|lines| - 1]).Some? && LastReading(front).Some? {
        SetAllOverwrites(t, ds, LastReading(front).value, Reading(lines[|lines| - 1]).value);
      }
    }
  }
}
