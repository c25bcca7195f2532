/** The stream bookkeeping of the control plane: the tables keyed by stream id
    (`stream_status`, `active_streams`, `stream_bandwidth`, `stream_start_time`)
    and the operations that change them. */
module Orchestrator {
  import opened Common
  import opened Text
  import opened Records
  import opened Processes
  import opened ErrorTail
  import opened Bitrate
  import opened Bandwidth
  import opened Listing

  /** The errors the endpoints raise. */
  datatype ApiError =
    | NotFound        // 404: unknown stream id
    | MaxStreams      // 429: admission control
    | NoMediaFiles    // 400: no file given and none available
    | NoDestination   // 400: the record has no destination to stop
    | ServerError     // 500: an exception escaped the handler

  /** What a start request answers. */
  datatype StartReply = StartReply(id: StreamId, destinations: seq<string>, redundant: bool, file: string, scheduledStart: Option<int>)

  /** What a partial stop answers. */
  datatype PartialStopReply = OneSourceStopped(remaining: seq<string>) | WholeStreamStopped

  /** The file name a start request resolves: the named file when one is given
      (an empty name counts as none), otherwise one of the available objects. */
  function ResolveFile(file: Option<string>, available: seq<string>, pick: nat): (r: Option<string>)
    ensures r.None? <==> (file.None? || file.value == "") && available == []
    ensures r.Some? && file.Some? && file.value != "" ==> r.value == file.value
    ensures r.Some? && (file.None? || file.value == "") ==> r.value in available
  {
    if file.Some? && file.value != "" then file
    else if available == [] then None
    else Some(available[pick % |available|])
  }

  /** The record a start request writes: "Scheduled" with the request time as
      scheduled start when the start is delayed, otherwise "Downloading". */
  function InitialRecord(list: Destinations, duration: int, redundant: bool, file: string, startOffset: int, now: int): Record {
    Record(
      if startOffset > 0 then Scheduled else Downloading,
      Some(duration), Some(list),
      if startOffset > 0 then Some(now) else None,
      Some(redundant), Some(file), None)
  }

  /** The stop path removes the file it is given only when a non-empty path under
      the temporary directory names an existing file. */
  predicate TempFileGuard(path: Option<string>, tempDir: string) {
    path.Some? && path.value != "" && StartsWith(path.value, tempDir)
  }

  /** A base name never passes the guard when the temporary directory contains a
      '/', so a stop that is handed a record's "file" never removes it. */
  lemma BasenameNeverRemoved(path: string, tempDir: string)
    requires '/' in tempDir
    ensures !TempFileGuard(Some(Basename(path)), tempDir)
  {
  }

  /** Python's `list.remove(x)`: the first occurrence of `x` is dropped. */
  function IndexOf(xs: seq<string>, x: string): (k: nat)
    requires x in xs
    ensures k < |xs| && xs[k] == x
    ensures forall j :: 0 <= j < k ==> xs[j] != x
  {
    if xs[0] == x then 0 else 1 + IndexOf(xs[1..], x)
  }

  function RemoveFirst(xs: seq<string>, x: string): (r: seq<string>)
    requires x in xs
    ensures |r| == |xs| - 1
    ensures r == xs[..IndexOf(xs, x)] + xs[IndexOf(xs, x) + 1..]
    ensures multiset(r) == multiset(xs) - multiset{x}
  {
    var k := IndexOf(xs, x);
    assert xs == xs[..k] + [xs[k]] + xs[k + 1..];
    xs[..k] + xs[k + 1..]
  }

  /** The index of the first handle of `ps` whose process is still running. */
  function FirstRunning(ps: seq<Pid>, procs: map<Pid, ProcState>): (r: Option<nat>)
    ensures r.Some? ==> r.value < |ps| && ps[r.value] in procs && procs[ps[r.value]] == Running
    ensures r.Some? ==> forall j :: 0 <= j < r.value ==> ps[j] !in procs || procs[ps[j]] != Running
    ensures r.None? ==> forall j :: 0 <= j < |ps| ==> ps[j] !in procs || procs[ps[j]] != Running
    decreases |ps|
  {
    if ps == [] then None
    else if ps[0] in procs && procs[ps[0]] == Running then Some(0)
    else match FirstRunning(ps[1..], procs)
      case None => None
      case Some(k) => Some(k + 1)
  }

  class Streams {
    /** MAX_STREAMS */
    const maxStreams: int
    /** TEMP_DIR */
    const tempDir: string

    /** `stream_status` */
    var status: map<StreamId, Record>
    /** The insertion order of `stream_status`, which is the order it is listed in. */
    var order: seq<StreamId>
    /** `active_streams`: the process handles launched for each stream. */
    var active: map<StreamId, seq<Pid>>
    /** `stream_bandwidth` */
    var bandwidth: map<StreamId, Table>
    /** `stream_start_time` */
    var startTime: map<StreamId, int>
    /** The state of every process handle ever spawned. */
    var procs: map<Pid, ProcState>
    /** Stream ids and handles not handed out yet. */
    var nextId: StreamId
    var nextPid: Pid

    ghost predicate Valid()
      reads this
    {
      && (forall id :: id in status <==> id in order)
      && (forall i, j :: 0 <= i < j < |order| ==> order[i] != order[j])
      && (forall id :: id in status ==> id < nextId)
      && active.Keys <= status.Keys
      && startTime.Keys <= status.Keys
      && bandwidth.Keys <= status.Keys
      && (forall id, p :: id in active && p in active[id] ==> p in procs)
      && (forall p :: p in procs ==> p < nextPid)
    }

    constructor (maxStreams: int, tempDir: string)
      ensures Valid()
      ensures this.maxStreams == maxStreams && this.tempDir == tempDir
      ensures status == map[] && order == [] && active == map[] && bandwidth == map[]
      ensures startTime == map[] && procs == map[]
    {
      this.maxStreams := maxStreams;
      this.tempDir := tempDir;
      status := map[];
      order := [];
      active := map[];
      bandwidth := map[];
      startTime := map[];
      procs := map[];
      nextId := 0;
      nextPid := 0;
    }

    /** The process handles of a stream, none when it has no process set. */
    function ProcessSet(id: StreamId): seq<Pid>
      reads this
    {
      if id in active then active[id] else []
    }

    /** The destination list the record of `id` holds, if any. */
    function DestinationList(id: StreamId): set<Destinations>
      reads this
    {
      if id in status && status[id].destinations.Some? then {status[id].destinations.value} else {}
    }

    /** Adds a record under a fresh stream id, at the end of the listing order. */
    method Register(rec: Record) returns (id: StreamId)
      requires Valid()
      modifies this`status, this`order, this`nextId
      ensures Valid()
      ensures id !in old(status)
      ensures status == old(status)[id := rec]
      ensures order == old(order) + [id]
    {
      id := nextId;
      assert id !in order;
      nextId := nextId + 1;
      status := status[id := rec];
      order := order + [id];
      assert forall i :: 0 <= i < |order| - 1 ==> order[i] != id;
    }

    /** The `/start-stream` endpoint. `available` is what listing the storage bucket
        returns, `pick` the random choice among it, `now` the current time. The
        stream id comes from a counter. Acquisition is a later call to `Acquire`. */
    method Start(file: Option<string>, available: seq<string>, pick: nat, duration: int,
                 destinations: seq<string>, startOffset: int, redundant: bool, now: int)
      returns (r: Result<StartReply, ApiError>)
      requires Valid()
      modifies this`status, this`order, this`nextId
      ensures Valid()
      ensures r == Err(MaxStreams) <==> |active| >= maxStreams
      ensures r == Err(NoMediaFiles) <==>
        |active| < maxStreams && ResolveFile(file, available, pick).None?
      ensures r.Ok? <==> |active| < maxStreams && ResolveFile(file, available, pick).Some?
      ensures r.Err? ==> status == old(status) && order == old(order)
      ensures r.Ok? ==> r.value.id !in old(status) && r.value.id in status
      ensures r.Ok? ==>
        var id := r.value.id;
        var list := status[id].destinations;
        && list.Some? && fresh(list.value) && list.value.items == destinations
        && ResolveFile(file, available, pick) == Some(r.value.file)
        && status == old(status)[id := InitialRecord(list.value, duration, redundant, r.value.file, startOffset, now)]
        && order == old(order) + [id]
        && r.value == StartReply(id, destinations, redundant, r.value.file, status[id].scheduledStart)
    {
      if |active| >= maxStreams {
        return Err(MaxStreams);
      }
      var resolved := ResolveFile(file, available, pick);
      if resolved.None? {
        return Err(NoMediaFiles);
      }
      var list := new Destinations(destinations);
      var rec := InitialRecord(list, duration, redundant, resolved.value, startOffset, now);
      var id := Register(rec);
      r := Ok(StartReply(id, destinations, redundant, resolved.value, rec.scheduledStart));
    }

    /** The delayed start: the storage download has either produced a local path
        or failed. On success the caller goes on with `Launch`. */
    method Acquire(id: StreamId, downloaded: Option<string>)
      requires Valid() && id in status
      modifies this`status
      ensures Valid()
      ensures downloaded.None? ==>
        status == old(status)[id := old(status)[id].(status := DownloadFailed)]
      ensures downloaded.Some? ==>
        status == old(status)[id := old(status)[id].(status := Downloaded, file := Some(Basename(downloaded.value)))]
    {
      if downloaded.None? {
        status := status[id := status[id].(status := DownloadFailed)];
      } else {
        status := status[id := status[id].(status := Downloaded, file := Some(Basename(downloaded.value)))];
      }
    }

    /** Spawns one process per destination, each with a fresh handle. */
    method Spawn(n: nat) returns (pids: seq<Pid>)
      requires forall p :: p in procs ==> p < nextPid
      modifies this`procs, this`nextPid
      ensures forall p :: p in procs ==> p < nextPid
      ensures |pids| == n
      ensures forall i, j :: 0 <= i < j < |pids| ==> pids[i] != pids[j]
      ensures forall i :: 0 <= i < |pids| ==> pids[i] !in old(procs)
      ensures procs.Keys == old(procs).Keys + set p | p in pids
      ensures forall p :: p in pids ==> procs[p] == Running
      ensures forall p :: p in old(procs) ==> procs[p] == old(procs)[p]
    {
      pids := [];
      var i := 0;
      while i < n
        invariant 0 <= i <= n
        invariant |pids| == i
        invariant forall k :: 0 <= k < i ==> pids[k] == old(nextPid) + k
        invariant nextPid == old(nextPid) + i
        invariant procs.Keys == old(procs).Keys + set p | p in pids
        invariant forall p :: p in pids ==> procs[p] == Running
        invariant forall p :: p in old(procs) ==> procs[p] == old(procs)[p]
        invariant forall p :: p in procs ==> p < nextPid
      {
        var p := nextPid;
        nextPid := nextPid + 1;
        procs := procs[p := Running];
        pids := pids + [p];
        i := i + 1;
      }
    }

    /** Launches one transmission process per destination, marks the stream as
        streaming when there is at least one and records its process set and start
        time. The duration timer is a later call to `Stop`, the monitors later
        calls to `MonitorErrors` and `MonitorBandwidth`. */
    method Launch(id: StreamId, input: string, destinations: Destinations, now: int) returns (pids: seq<Pid>)
      requires Valid() && id in status
      modifies this`status, this`active, this`startTime, this`procs, this`nextPid
      ensures Valid()
      ensures |pids| == |destinations.items|
      ensures forall i, j :: 0 <= i < j < |pids| ==> pids[i] != pids[j]
      ensures forall i :: 0 <= i < |pids| ==> pids[i] !in old(procs)
      ensures procs.Keys == old(procs).Keys + set p | p in pids
      ensures forall p :: p in pids ==> procs[p] == Running
      ensures forall p :: p in old(procs) ==> procs[p] == old(procs)[p]
      ensures active == old(active)[id := pids]
      ensures startTime == old(startTime)[id := now]
      ensures status == old(status)[id := old(status)[id].(
        file := Some(Basename(input)),
        status := if destinations.items != [] then Streaming else old(status)[id].status)]
    {
      pids := Spawn(|destinations.items|);
      var rec := status[id].(file := Some(Basename(input)));
      if destinations.items != [] {
        rec := rec.(status := Streaming);
      }
      status := status[id := rec];
      active := active[id := pids];
      startTime := startTime[id := now];
    }

    /** Terminates each process of `ps` in turn, killing the ones that outlive the
        grace period. */
    method TerminateEach(ps: seq<Pid>, graceful: set<Pid>)
      modifies this`procs
      ensures procs == TerminateAll(old(procs), ps, graceful)
    {
      var i := 0;
      while i < |ps|
        invariant 0 <= i <= |ps|
        invariant procs == TerminateAll(old(procs), ps[..i], graceful)
      {
        assert ps[..i + 1][..i] == ps[..i];
        procs := Terminate(procs, ps[i], graceful);
        i := i + 1;
      }
      assert ps[..i] == ps;
    }

    /** `stop_ffmpeg_stream`: pops the stream's process set, terminates each process
        (killing it when it outlives the grace period), then updates the record
        unless it is exactly "Error". `graceful` holds the processes that exit
        within the grace period. `removeTemp` tells whether `filePath` is handed
        to the file system for removal (when it exists). */
    method Stop(id: StreamId, graceful: set<Pid>, filePath: Option<string>) returns (popped: seq<Pid>, removeTemp: bool)
      requires Valid()
      modifies this`status, this`active, this`procs
      ensures Valid()
      ensures popped == old(ProcessSet(id))
      ensures active == old(active) - {id}
      ensures procs == TerminateAll(old(procs), popped, graceful)
      ensures status == if id in old(status) then old(status)[id := AfterStop(old(status)[id])] else old(status)
      ensures removeTemp <==> TempFileGuard(filePath, tempDir)
    {
      popped := ProcessSet(id);
      active := active - {id};
      TerminateEach(popped, graceful);
      if id in status {
        status := status[id := AfterStop(status[id])];
      }
      removeTemp := filePath.Some? && filePath.value != "" && StartsWith(filePath.value, tempDir);
    }

    /** The `/stop-stream` endpoint. */
    method StopStream(id: StreamId, graceful: set<Pid>) returns (r: Result<StreamId, ApiError>)
      requires Valid()
      modifies this`status, this`active, this`procs
      ensures Valid()
      ensures r.Err? <==> id !in old(status)
      ensures r.Err? ==> r.error == NotFound && unchanged(this)
      ensures r.Ok? ==>
        && r.value == id
        && active == old(active) - {id}
        && procs == TerminateAll(old(procs), old(ProcessSet(id)), graceful)
        && status == old(status)[id := AfterStop(old(status)[id])]
    {
      if id !in status {
        return Err(NotFound);
      }
      var _, _ := Stop(id, graceful, None);
      r := Ok(id);
    }

    /** The `/stream-status` endpoint. */
    function StatusOf(id: StreamId): (r: Result<Record, ApiError>)
      reads this
      ensures r.Err? <==> id !in status
      ensures r.Err? ==> r.error == NotFound
      ensures r.Ok? ==> r.value == status[id]
    {
      if id in status then Ok(status[id]) else Err(NotFound)
    }

    /** `read_stderr`: reads the diagnostic lines into the window until the stream
        closes, then scans the window; on a keyword match the record becomes
        `{"status": "Error", "message": ...}` and the stream is stopped. */
    method MonitorErrors(id: StreamId, lines: seq<string>, graceful: set<Pid>)
      requires Valid() && id in status
      modifies this`status, this`active, this`procs
      ensures Valid()
      ensures ErrorMessage(Tail(lines)).None? ==> unchanged(this)
      ensures ErrorMessage(Tail(lines)).Some? ==>
        && status == old(status)[id := ErrorRecord(ErrorMessage(Tail(lines)).value)]
        && active == old(active) - {id}
        && procs == TerminateAll(old(procs), old(ProcessSet(id)), graceful)
    {
      var window := TailWindow(lines);
      var errors := ErrorLines(window);
      if errors != [] {
        status := status[id := ErrorRecord(Join("\n", errors))];
        var _, _ := Stop(id, graceful, None);
      }
    }

    /** One diagnostic line read by the bandwidth monitor: a reading is written
        under every destination currently in the list. */
    method ObserveLine(id: StreamId, destinations: Destinations, line: string)
      requires id in bandwidth
      modifies this`bandwidth
      ensures bandwidth == old(bandwidth)[id := Observe(old(bandwidth)[id], destinations.items, line)]
    {
      var reading := Reading(line);
      if reading.Some? {
        WriteAll(id, destinations.items, reading.value);
      }
    }

    /** Writes one reading under every destination of the stream. */
    method WriteAll(id: StreamId, ds: seq<string>, v: nat)
      requires id in bandwidth
      modifies this`bandwidth
      ensures bandwidth == old(bandwidth)[id := SetAll(old(bandwidth)[id], ds, v)]
    {
      var i := 0;
      while i < |ds|
        invariant 0 <= i <= |ds|
        invariant bandwidth == old(bandwidth)[id := SetAll(old(bandwidth)[id], ds[..i], v)]
      {
        SetAllSnoc(old(bandwidth)[id], ds, v, i);
        var t: Table := bandwidth[id][ds[i] := v];
        bandwidth := bandwidth[id := t];
        i := i + 1;
      }
      assert ds[..i] == ds;
    }

    /** Reads the diagnostic lines in order until the stream closes. */
    method ObserveLines(id: StreamId, destinations: Destinations, lines: seq<string>)
      requires id in bandwidth
      modifies this`bandwidth
      ensures bandwidth == old(bandwidth)[id := ObserveAll(old(bandwidth)[id], destinations.items, lines)]
    {
      ghost var before, t0, ds := bandwidth, bandwidth[id], destinations.items;
      var n := 0;
      while n < |lines|
        invariant 0 <= n <= |lines|
        invariant id in bandwidth && bandwidth == before[id := bandwidth[id]]
        invariant bandwidth[id] == ObserveAll(t0, ds, lines[..n])
      {
        ObserveAllSnoc(t0, ds, lines, n);
        ObserveLine(id, destinations, lines[n]);
        n := n + 1;
      }
      assert lines[..n] == lines;
    }

    /** `monitor_ffmpeg_bandwidth`: creates the stream's table when it has none,
        then reads the diagnostic lines until the stream closes. */
    method MonitorBandwidth(id: StreamId, destinations: Destinations, lines: seq<string>)
      requires Valid() && id in status
      modifies this`bandwidth
      ensures Valid()
      ensures bandwidth == old(bandwidth)[id := ObserveAll(
        if id in old(bandwidth) then old(bandwidth)[id] else map[], destinations.items, lines)]
    {
      if id !in bandwidth {
        bandwidth := bandwidth[id := map[]];
      }
      ObserveLines(id, destinations, lines);
    }

    /** Terminates the first still-running process of `ps` without the kill
        fallback; `timedOut` when it outlives the grace period (the wait raises). */
    method TerminateFirstRunning(ps: seq<Pid>, graceful: set<Pid>) returns (timedOut: bool)
      requires Valid()
      modifies this`procs
      ensures Valid()
      ensures match FirstRunning(ps, old(procs))
        case None => procs == old(procs) && !timedOut
        case Some(k) =>
          && timedOut == (ps[k] !in graceful)
          && procs == if timedOut then old(procs) else old(procs)[ps[k] := Exited]
    {
      timedOut := false;
      var i := 0;
      while i < |ps|
        invariant 0 <= i <= |ps|
        invariant forall j :: 0 <= j < i ==> ps[j] !in procs || procs[ps[j]] != Running
        invariant procs == old(procs)
      {
        if ps[i] in procs && procs[ps[i]] == Running {
          if ps[i] in graceful {
            procs := procs[ps[i] := Exited];
          } else {
            timedOut := true;
          }
          assert FirstRunning(ps, old(procs)) == Some(i) by {
            FirstRunningAt(ps, old(procs), i);
          }
          return;
        }
        i := i + 1;
      }
      FirstRunningNone(ps, old(procs));
    }

    /** The `/stop-random-source` endpoint. `pick` is the random choice among the
        destinations. A redundant stream with more than one destination loses one
        destination from its list (in place) and at most one running process;
        any other stream is stopped in full. */
    method StopRandomSource(id: StreamId, pick: nat, graceful: set<Pid>)
      returns (r: Result<PartialStopReply, ApiError>, removeTemp: bool)
      requires Valid()
      modifies this`status, this`active, this`procs, DestinationList(id)
      ensures Valid()
      ensures id !in old(status) ==> r == Err(NotFound) && !removeTemp && unchanged(this)
      ensures id in old(status) && (old(status[id].destinations).None? || old(status[id].destinations.value.items) == []) ==>
        && r == Err(NoDestination) && !removeTemp && unchanged(this)
        && (old(status[id].destinations).Some? ==> old(status[id].destinations.value).items == [])
      ensures id in old(status) && old(status[id].destinations).Some? ==>
        var list := old(status[id].destinations.value);
        var ds := old(list.items);
        ds != [] && old(status[id].redundant).GetOr(false) && |ds| > 1 ==>
          var target := ds[pick % |ds|];
          && list.items == RemoveFirst(ds, target)
          && status == old(status) && active == old(active) && !removeTemp
          && match FirstRunning(old(ProcessSet(id)), old(procs))
             case None => procs == old(procs) && r == Ok(OneSourceStopped(list.items))
             case Some(k) =>
               var p := old(ProcessSet(id))[k];
               if p in graceful then procs == old(procs)[p := Exited] && r == Ok(OneSourceStopped(list.items))
               else procs == old(procs) && r == Err(ServerError)
      ensures id in old(status) && old(status[id].destinations).Some? ==>
        var ds := old(status[id].destinations.value.items);
        ds != [] && !(old(status[id].redundant).GetOr(false) && |ds| > 1) ==>
          && r == Ok(WholeStreamStopped)
          && active == old(active) - {id}
          && procs == TerminateAll(old(procs), old(ProcessSet(id)), graceful)
          && status == old(status)[id := AfterStop(old(status)[id])]
          && old(status[id].destinations.value).items == ds
          && (removeTemp <==> TempFileGuard(old(status[id].file), tempDir))
    {
      removeTemp := false;
      if id !in status {
        return Err(NotFound), false;
      }
      var info := status[id];
      if info.destinations.None? || info.destinations.value.items == [] {
        return Err(NoDestination), false;
      }
      var list := info.destinations.value;
      var ds := list.items;
      if info.redundant.GetOr(false) && |ds| > 1 {
        var target := ds[pick % |ds|];
        list.items := RemoveFirst(ds, target);
        var timedOut := TerminateFirstRunning(ProcessSet(id), graceful);
        if timedOut {
          return Err(ServerError), false;
        }
        return Ok(OneSourceStopped(list.items)), false;
      }
      var popped;
      popped, removeTemp := Stop(id, graceful, info.file);
      r := Ok(WholeStreamStopped);
    }

    /** The `/active-streams` endpoint at time `now`. `None` is the failure of the
        whole listing on a record that lacks "remaining_duration". */
    method ListActive(now: int) returns (r: Option<seq<Entry>>)
      ensures r == ListSpec(order, status, startTime, now)
    {
      var es: seq<Entry> := [];
      var i := 0;
      while i < |order|
        invariant 0 <= i <= |order|
        invariant ListSpec(order[..i], status, startTime, now) == Some(es)
      {
        var id := order[i];
        assert order[..i + 1][..i] == order[..i];
        if id in status && status[id].status != StreamStopped {
          var rem := Remaining(status[id], Lookup(startTime, id), now);
          if rem.None? {
            ListSpecFails(order[..i + 1], status, startTime, now);
            ListSpecFails(order, status, startTime, now);
            assert Unlistable(order[..i + 1][i], status, startTime);
            return None;
          }
          es := es + [Entry(id, status[id], rem.value, status[id].file.GetOr("Unknown"))];
        }
        i := i + 1;
      }
      assert order[..i] == order;
      r := Some(es);
    }
  }

  lemma FirstRunningAt(ps: seq<Pid>, procs: map<Pid, ProcState>, i: nat)
    requires i < |ps| && ps[i] in procs && procs[ps[i]] == Running
    requires forall j :: 0 <= j < i ==> ps[j] !in procs || procs[ps[j]] != Running
    ensures FirstRunning(ps, procs) == Some(i)
  {
    var r := FirstRunning(ps, procs);
    if r.None? {
    } else if r.value < i {
    } else if r.value > i {
    }
  }

  lemma FirstRunningNone(ps: seq<Pid>, procs: map<Pid, ProcState>)
    requires forall j :: 0 <= j < |ps| ==> ps[j] !in procs || procs[ps[j]] != Running
    ensures FirstRunning(ps, procs).None?
  {
  }
}
