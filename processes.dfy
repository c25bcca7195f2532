/** Process handles and the terminate-wait-kill discipline of the stop path. */
module Processes {

  /** A process handle; the orchestrator keeps each handle's state in a table. */
  type Pid = nat

  /** Running, exited after the terminate signal within the grace period, or killed. */
  datatype ProcState = Running | Exited | Killed

  /** `terminate()`, `wait(timeout=5)`, then `kill()` on timeout. `graceful` says
      whether the process exits within the grace period; a process that is no
      longer running is not affected. */
  function Stopped(st: ProcState, graceful: bool): (r: ProcState)
    ensures r != Running
    ensures st != Running ==> r == st
    ensures st == Running ==> (r == Exited <==> graceful)
  {
    if st != Running then st
    else if graceful then Exited
    else Killed
  }

  /** Applies the discipline to one handle. */
  function Terminate(procs: map<Pid, ProcState>, p: Pid, graceful: set<Pid>): map<Pid, ProcState> {
    if p in procs then procs[p := Stopped(procs[p], p in graceful)] else procs
  }

  /** Applies the discipline to every handle of a process list, in order. */
  function TerminateAll(procs: map<Pid, ProcState>, ps: seq<Pid>, graceful: set<Pid>): (r: map<Pid, ProcState>)
    ensures r.Keys == procs.Keys
    ensures forall p :: p in procs ==>
      r[p] == if p in ps then Stopped(procs[p], p in graceful) else procs[p]
    decreases |ps|
  {
    if ps == [] then procs
    else Terminate(TerminateAll(procs, ps[..|ps| - 1], graceful), ps[|ps| - 1], graceful)
  }

  /** Running the discipline twice over the same list changes nothing more. */
  lemma TerminateAllIdempotent(procs: map<Pid, ProcState>, ps: seq<Pid>, graceful: set<Pid>)
    ensures TerminateAll(TerminateAll(procs, ps, graceful), ps, graceful) == TerminateAll(procs, ps, graceful)
  {
    var once := TerminateAll(procs, ps, graceful);
    var twice := TerminateAll(once, ps, graceful);
    assert forall p :: p in procs ==> twice[p] == once[p];
  }
}
