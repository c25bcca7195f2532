/** Sequences of calls on one `Streams` object, stating what the combination does. */
module Scenarios {
  import opened Common
  import opened Records
  import opened Processes
  import opened ErrorTail
  import opened Listing
  import opened Orchestrator

  /** Stopping a stream twice: the second stop pops no process set, terminates
      nothing and leaves the tables as the first stop left them. */
  method StopTwice(s: Streams, id: StreamId, graceful: set<Pid>) returns (first: seq<Pid>, second: seq<Pid>)
    requires s.Valid()
    modifies s`status, s`active, s`procs
    ensures s.Valid()
    ensures first == old(s.ProcessSet(id)) && second == []
    ensures s.active == old(s.active) - {id}
    ensures s.procs == TerminateAll(old(s.procs), first, graceful)
    ensures s.status == if id in old(s.status) then old(s.status)[id := AfterStop(old(s.status)[id])] else old(s.status)
  {
    var removed: bool;
    first, removed := s.Stop(id, graceful, None);
    ghost var procs := s.procs;
    second, removed := s.Stop(id, graceful, None);
    if id in old(s.status) {
      AfterStopIdempotent(old(s.status)[id]);
    }
    assert s.procs == procs;
  }

  /** An error reported by the diagnostic reader survives a later stop request:
      the record keeps "Error" and its message. */
  method ErrorThenStop(s: Streams, id: StreamId, lines: seq<string>, graceful: set<Pid>)
    returns (r: Result<StreamId, ApiError>)
    requires s.Valid() && id in s.status
    requires ErrorMessage(Tail(lines)).Some?
    modifies s`status, s`active, s`procs
    ensures s.Valid()
    ensures r == Ok(id)
    ensures id in s.status && s.status[id] == ErrorRecord(ErrorMessage(Tail(lines)).value)
    ensures id !in s.active
  {
    s.MonitorErrors(id, lines, graceful);
    r := s.StopStream(id, graceful);
  }

  /** A launched stream that is stopped in full through the partial-stop
      endpoint hands no file for removal: the record holds the input's base
      name, which does not start with a temporary directory containing a '/'. */
  method LaunchThenStopSource(s: Streams, id: StreamId, input: string, list: Destinations, now: int,
                              pick: nat, graceful: set<Pid>)
    returns (r: Result<PartialStopReply, ApiError>, removeTemp: bool)
    requires s.Valid() && id in s.status && '/' in s.tempDir
    requires s.status[id].destinations == Some(list) && list.items != []
    requires !(s.status[id].redundant.GetOr(false) && |list.items| > 1)
    modifies s, list
    ensures s.Valid()
    ensures r == Ok(WholeStreamStopped) && !removeTemp
    ensures id !in s.active
  {
    var pids := s.Launch(id, input, list, now);
    BasenameNeverRemoved(input, s.tempDir);
    r, removeTemp := s.StopRandomSource(id, pick, graceful);
  }

  /** The converse: a requested file name that starts with the temporary
      directory stays in the record until a successful acquisition or a launch
      replaces it. Stopping such a stream in full through the partial-stop
      endpoint, before the download or after a failed one, hands that name for
      removal, whatever it contains after the prefix. */
  method RequestedPathRemoved(s: Streams, file: string, available: seq<string>, pick: nat, duration: int,
                              destinations: seq<string>, startOffset: int, redundant: bool, now: int,
                              downloadFails: bool, graceful: set<Pid>)
    returns (r: Result<PartialStopReply, ApiError>, removeTemp: bool)
    requires s.Valid() && |s.active| < s.maxStreams
    requires TempFileGuard(Some(file), s.tempDir)
    requires destinations != [] && !(redundant && |destinations| > 1)
    modifies s
    ensures s.Valid()
    ensures r == Ok(WholeStreamStopped) && removeTemp
  {
    var started := s.Start(Some(file), available, pick, duration, destinations, startOffset, redundant, now);
    var id := started.value.id;
    if downloadFails {
      s.Acquire(id, None);
    }
    r, removeTemp := s.StopRandomSource(id, pick, graceful);
  }
}
