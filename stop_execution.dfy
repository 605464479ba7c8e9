/**
 * `stopWorkflowExecution`: the guarded transition a user triggers to stop a
 * running or pending execution, over an in-memory stand-in for the
 * execution, phase and log tables.
 *
 * The clock and the caller's identity are parameters. How the store orders
 * phases without a start time in `startedAt desc` is a parameter too; among
 * phases with the same start time the earliest in table order is taken.
 */
module StopExecution {
  import opened Common

  datatype Execution = Execution(workflowId: string, workflowOwner: string, status: string, completedAt: Option<int>)

  datatype Phase = Phase(id: string, executionId: string, status: string, startedAt: Option<int>, completedAt: Option<int>)

  datatype ExecLog = ExecLog(phaseId: string, message: string, logLevel: string, timestamp: int)

  const StopMessage: string := "\U{26D4} Execution stopped by user"

  /** The execution statuses a stop accepts. */
  predicate Stoppable(status: string) {
    status == "RUNNING" || status == "PENDING"
  }

  /** The phase statuses the stop turns into FAILED. */
  predicate Unfinished(status: string) {
    status == "RUNNING" || status == "PENDING" || status == "CREATED"
  }

  /** The `updateMany` rule for one phase. */
  function StopPhase(p: Phase, executionId: string, now: int): (r: Phase)
    ensures r.id == p.id && r.executionId == p.executionId && r.startedAt == p.startedAt
  {
    if p.executionId == executionId && Unfinished(p.status) then p.(status := "FAILED", completedAt := Some(now)) else p
  }

  /** Whether phase `a` comes before phase `b` in `startedAt desc` order. */
  predicate Before(a: Phase, b: Phase, nullsFirst: bool) {
    match (a.startedAt, b.startedAt)
    case (Some(x), Some(y)) => x > y
    case (None, Some(_)) => nullsFirst
    case (Some(_), None) => !nullsFirst
    case (None, None) => false
  }

  lemma BeforeTransitive(a: Phase, b: Phase, c: Phase, nullsFirst: bool)
    requires Before(a, b, nullsFirst) && Before(b, c, nullsFirst)
    ensures Before(a, c, nullsFirst)
  {
  }

  /** A FAILED phase of this execution. */
  predicate FailedOf(p: Phase, executionId: string) {
    p.executionId == executionId && p.status == "FAILED"
  }

  /**
   * The message a stop throws, checked in the source's order: no user, an
   * unknown execution, another owner's workflow, then a status other than
   * RUNNING and PENDING; none when the stop goes ahead.
   */
  function Refusal(executions: map<string, Execution>, userId: Option<string>, executionId: string): (r: Option<string>)
    ensures r.None? <==> (userId.Some? && userId.value != "" && executionId in executions
                          && executions[executionId].workflowOwner == userId.value
                          && Stoppable(executions[executionId].status))
  {
    if userId.None? || userId.value == "" then Some("Unauthorized")
    else if executionId !in executions then Some("Execution not found")
    else if executions[executionId].workflowOwner != userId.value then Some("Unauthorized")
    else if !Stoppable(executions[executionId].status) then Some("Cannot stop execution with status: " + executions[executionId].status)
    else None
  }

  /** The outcome of a stop: the thrown message, or `{success: true}`. */
  datatype Outcome = Thrown(message: string) | Stopped

  class Store {
    var executions: map<string, Execution>
    var phases: seq<Phase>
    var logs: seq<ExecLog>

    constructor(executions: map<string, Execution>, phases: seq<Phase>, logs: seq<ExecLog>)
      ensures this.executions == executions && this.phases == phases && this.logs == logs
    {
      this.executions := executions;
      this.phases := phases;
      this.logs := logs;
    }

    /**
     * `findFirst({status: 'FAILED'}, orderBy startedAt desc)` over this
     * execution's phases: a FAILED phase no other one comes before, or none
     * when there is no FAILED phase.
     */
    method LatestFailed(executionId: string, nullsFirst: bool) returns (r: Option<nat>)
      ensures r.Some? ==> r.value < |phases| && FailedOf(phases[r.value], executionId)
      ensures r.Some? ==> forall k :: 0 <= k < |phases| && FailedOf(phases[k], executionId) ==>
        !Before(phases[k], phases[r.value], nullsFirst)
      ensures r.None? ==> forall k :: 0 <= k < |phases| ==> !FailedOf(phases[k], executionId)
    {
      r := None;
      var i := 0;
      while i < |phases|
        invariant 0 <= i <= |phases|
        invariant r.Some? ==> r.value < i && FailedOf(phases[r.value], executionId)
        invariant r.Some? ==> forall k :: 0 <= k < i && FailedOf(phases[k], executionId) ==>
          !Before(phases[k], phases[r.value], nullsFirst)
        invariant r.None? ==> forall k :: 0 <= k < i ==> !FailedOf(phases[k], executionId)
      {
        if FailedOf(phases[i], executionId) {
          if r.None? || Before(phases[i], phases[r.value], nullsFirst) {
            if r.Some? {
              forall k | 0 <= k < i && FailedOf(phases[k], executionId)
                ensures !Before(phases[k], phases[i], nullsFirst)
              {
                if Before(phases[k], phases[i], nullsFirst) {
                  BeforeTransitive(phases[k], phases[i], phases[r.value], nullsFirst);
                }
              }
            }
            r := Some(i);
          }
        }
        i := i + 1;
      }
    }

    /** The phase `updateMany`: each phase of this execution that is RUNNING, PENDING or CREATED becomes FAILED. */
    method FailUnfinished(executionId: string, now: int)
      modifies this
      ensures |phases| == |old(phases)|
      ensures forall i :: 0 <= i < |phases| ==> phases[i] == StopPhase(old(phases)[i], executionId, now)
      ensures executions == old(executions) && logs == old(logs)
    {
      var i := 0;
      while i < |phases|
        invariant 0 <= i <= |phases| && |phases| == |old(phases)|
        invariant forall k :: 0 <= k < i ==> phases[k] == StopPhase(old(phases)[k], executionId, now)
        invariant forall k :: i <= k < |phases| ==> phases[k] == old(phases)[k]
        invariant executions == old(executions) && logs == old(logs)
      {
        phases := phases[i := StopPhase(phases[i], executionId, now)];
        i := i + 1;
      }
    }

    /**
     * `stopWorkflowExecution(executionId)`. It throws, changing nothing, for
     * a missing user, an unknown execution, a workflow owned by someone else
     * or a status other than RUNNING and PENDING. Otherwise the execution
     * becomes FAILED with `completedAt` set, the unfinished phases become
     * FAILED, and one stop log goes to the latest FAILED phase if there is one.
     */
    method Stop(userId: Option<string>, executionId: string, now: int, nullsFirst: bool) returns (r: Outcome)
      modifies this
      ensures Refusal(old(executions), userId, executionId).Some? ==>
        && r == Thrown(Refusal(old(executions), userId, executionId).value)
        && executions == old(executions) && phases == old(phases) && logs == old(logs)
      ensures Refusal(old(executions), userId, executionId).None? ==>
        && r == Stopped
        && executions == old(executions)[executionId := old(executions)[executionId].(status := "FAILED", completedAt := Some(now))]
        && |phases| == |old(phases)|
        && (forall i :: 0 <= i < |phases| ==> phases[i] == StopPhase(old(phases)[i], executionId, now))
      ensures Refusal(old(executions), userId, executionId).None? && logs == old(logs) ==>
        forall i :: 0 <= i < |phases| ==> !FailedOf(phases[i], executionId)
      ensures Refusal(old(executions), userId, executionId).None? && logs != old(logs) ==>
        exists i :: 0 <= i < |phases| && FailedOf(phases[i], executionId)
          && (forall k :: 0 <= k < |phases| && FailedOf(phases[k], executionId) ==> !Before(phases[k], phases[i], nullsFirst))
          && logs == old(logs) + [ExecLog(phases[i].id, StopMessage, "error", now)]
    {
      if userId.None? || userId.value == "" {
        return Thrown("Unauthorized");
      }
      if executionId !in executions {
        return Thrown("Execution not found");
      }
      var execution := executions[executionId];
      if execution.workflowOwner != userId.value {
        return Thrown("Unauthorized");
      }
      if !Stoppable(execution.status) {
        return Thrown("Cannot stop execution with status: " + execution.status);
      }
      executions := executions[executionId := execution.(status := "FAILED", completedAt := Some(now))];
      FailUnfinished(executionId, now);
      var latest := LatestFailed(executionId, nullsFirst);
      if latest.Some? {
        logs := logs + [ExecLog(phases[latest.value].id, StopMessage, "error", now)];
      }
      return Stopped;
    }
  }

  /** Exactly the unfinished phases of the stopped execution become FAILED; finished phases and other executions' phases keep their status. */
  lemma StopPhaseStatus(p: Phase, executionId: string, now: int)
    ensures StopPhase(p, executionId, now).status == "FAILED" <==>
      p.status == "FAILED" || (p.executionId == executionId && Unfinished(p.status))
    ensures p.status == "COMPLETED" || p.executionId != executionId ==> StopPhase(p, executionId, now) == p
  {
  }

  /** After a stop no phase of that execution is still running, pending or created. */
  lemma NothingLeftRunning(p: Phase, executionId: string, now: int)
    requires p.executionId == executionId
    ensures !Unfinished(StopPhase(p, executionId, now).status)
  {
  }
}
