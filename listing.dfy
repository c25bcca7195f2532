/** The active-streams listing: which records it shows and the remaining
    duration it computes for each. */
module Listing {
  import opened Common
  import opened Records

  type StreamId = nat

  /** One listed stream. `file` is "Unknown" when the record has no file. */
  datatype Entry = Entry(id: StreamId, record: Record, remaining: int, file: string)

  /** The remaining duration shown for a record, given the stream's recorded start
      time (if any) and the current time. `None` is the lookup of a missing
      "remaining_duration" key, which fails the whole listing. */
  function Remaining(rec: Record, start: Option<int>, now: int): (r: Option<int>)
    ensures r.None? <==> rec.status == Streaming && start.Some? && rec.remaining.None?
    ensures r.Some? ==> r.value >= 0
    ensures r.Some? && start.Some? && now >= start.value && rec.remaining.Some? && rec.remaining.value >= 0 ==>
      r.value <= rec.remaining.value
    ensures rec.status != Streaming || start.None? ==> r == Some(0)
  {
    if rec.status == Streaming && start.Some? then
      match rec.remaining
      case None => None
      case Some(d) =>
        var left := d - (now - start.value);
        Some(if left > 0 then left else 0)
    else Some(0)
  }

  /** The remaining duration never grows as time passes. */
  lemma RemainingShrinks(rec: Record, start: Option<int>, now: int, later: int)
    requires now <= later
    requires Remaining(rec, start, now).Some?
    ensures Remaining(rec, start, later).Some?
    ensures Remaining(rec, start, later).value <= Remaining(rec, start, now).value
  {
  }

  function Lookup(m: map<StreamId, int>, id: StreamId): Option<int> {
    if id in m then Some(m[id]) else None
  }

  /** The listing over the ids in table order: stopped records are skipped, every
      other record is shown with its remaining duration. */
  function ListSpec(ids: seq<StreamId>, status: map<StreamId, Record>, startTime: map<StreamId, int>, now: int): Option<seq<Entry>>
    decreases |ids|
  {
    if ids == [] then Some([])
    else
      var id := ids[|ids| - 1];
      match ListSpec(ids[..|ids| - 1], status, startTime, now)
      case None => None
      case Some(es) =>
        if id !in status || status[id].status == StreamStopped then Some(es)
        else
          match Remaining(status[id], Lookup(startTime, id), now)
          case None => None
          case Some(r) => Some(es + [Entry(id, status[id], r, status[id].file.GetOr("Unknown"))])
  }

  /** The listing fails exactly when a listed stream is streaming, has a start time,
      and its record lacks the remaining duration. */
  predicate Unlistable(id: StreamId, status: map<StreamId, Record>, startTime: map<StreamId, int>) {
    id in status && status[id].status == Streaming && id in startTime && status[id].remaining.None?
  }

  lemma {:induction false} ListSpecFails(ids: seq<StreamId>, status: map<StreamId, Record>, startTime: map<StreamId, int>, now: int)
    ensures ListSpec(ids, status, startTime, now).None? <==> exists i :: 0 <= i < |ids| && Unlistable(ids[i], status, startTime)
    decreases |ids|
  {
    if ids != [] {
      var front := ids[..|ids| - 1];
      ListSpecFails(front, status, startTime, now);
      if exists i :: 0 <= i < |front| && Unlistable(front[i], status, startTime) {
        var i :| 0 <= i < |front| && Unlistable(front[i], status, startTime);
        assert Unlistable(ids[i], status, startTime);
      }
      if exists i :: 0 <= i < |ids| && Unlistable(ids[i], status, startTime) {
        var i :| 0 <= i < |ids| && Unlistable(ids[i], status, startTime);
        if i < |front| {
          assert Unlistable(front[i], status, startTime);
        }
      }
    }
  }

  /** The ids whose record is not stopped, in table order. */
  function Listed(ids: seq<StreamId>, status: map<StreamId, Record>): seq<StreamId>
    decreases |ids|
  {
    if ids == [] then []
    else
      var id := ids[|ids| - 1];
      Listed(ids[..|ids| - 1], status) + (if id in status && status[id].status != StreamStopped then [id] else [])
  }

  /** A successful listing shows exactly the ids whose record is not stopped, in
      table order, each with its own record and its remaining duration, which is
      at least 0. */
  lemma {:induction false} ListSpecShows(ids: seq<StreamId>, status: map<StreamId, Record>, startTime: map<StreamId, int>, now: int)
    requires ListSpec(ids, status, startTime, now).Some?
    ensures var es := ListSpec(ids, status, startTime, now).value;
      && |es| == |Listed(ids, status)|
      && (forall k :: 0 <= k < |es| ==>
            && es[k].id == Listed(ids, status)[k]
            && es[k].id in ids && es[k].id in status
            && es[k].record == status[es[k].id]
            && es[k].record.status != StreamStopped
            && Remaining(status[es[k].id], Lookup(startTime, es[k].id), now) == Some(es[k].remaining)
            && es[k].remaining >= 0)
      && (forall id :: id in ids && id in status && status[id].status != StreamStopped ==>
            exists k :: 0 <= k < |es| && es[k].id == id)
    decreases |ids|
  {
    if ids != [] {
      var front := ids[..|ids| - 1];
      ListSpecShows(front, status, startTime, now);
      var es := ListSpec(ids, status, startTime, now).value;
      var fs := ListSpec(front, status, startTime, now).value;
      assert forall k :: 0 <= k < |fs| ==> es[k] == fs[k];
      assert forall k :: 0 <= k < |fs| ==> Listed(ids, status)[k] == Listed(front, status)[k];
      forall id | id in ids && id in status && status[id].status != StreamStopped
        ensures exists k :: 0 <= k < |es| && es[k].id == id
      {
        if id == ids[|ids| - 1] {
          assert es[|es| - 1].id == id;
        } else {
          assert id in front;
          var k :| 0 <= k < |fs| && fs[k].id == id;
          assert es[k].id == id;
        }
      }
    }
  }
}
