/**
 What the two halves of a delivery reconcile do to the run, in terms of its times and its target alone:
 which phase a run ends in, when, and how long a waiting one waits.
 */
module DeliveryEffect {
  import opened Prelude
  import AgentRuns
  import opened DeliveryProtocol
  import opened DeliveryRuns
  import DF = DeliveryFaults

  const SECOND: int := AgentRuns.SECOND

  /* Times */

  /** Five minutes after the run was created; a run without a creation time is never that old. */
  function TimeoutAt(run: Run, now: Time): Time { (if run.createdAt.Some? then run.createdAt.value else now) + 300 * SECOND }

  /** The wallclock budget ends at `t`. */
  ghost predicate BudgetEndsAt(run: Run, t: Time) {
    run.budget.Wallclock? && run.status.startTime.Some? && t == run.status.startTime.value + run.budget.limit
  }

  /** It is too late for a request. */
  ghost predicate Late(run: Run, now: Time) {
    now >= TimeoutAt(run, now) || (exists t :: BudgetEndsAt(run, t) && now >= t)
  }

  /** The phase of a run that is too late: of the two reasons the one that came first, the budget if at once. */
  ghost predicate LatePhase(run: Run, now: Time, phase: Phase) {
    phase == if exists t :: BudgetEndsAt(run, t) && t <= TimeoutAt(run, now) then AgentRuns.BudgetExceeded else AgentRuns.Failed
  }

  /** How long a run of some age waits. */
  ghost predicate Pause(age: int, pause: int) {
    && (age < 5 * SECOND ==> pause == SECOND)
    && (5 * SECOND <= age < 30 * SECOND ==> pause == 2 * SECOND)
    && (30 * SECOND <= age < 120 * SECOND ==> pause == 5 * SECOND)
    && (120 * SECOND <= age ==> pause == 15 * SECOND)
  }

  function Age(run: Run, now: Time): int { if run.createdAt.Some? then now - run.createdAt.value else now }

  /* What becomes of the run */

  /** The status is patched, unless that fails; nothing else changes. */
  ghost predicate Patches(w: World, name: string, status: Status, fails: bool, requeue: Option<int>, step: Step)
    requires name in w.runs
  {
    step == if fails then Step(w, Outcome(None, true))
            else Step(World(w.runs[name := w.runs[name].(status := status)], w.agents, w.pods, w.secrets), Outcome(requeue, false))
  }

  /** The run ends in `phase`; a completion time that it has stays. */
  ghost predicate Ends(w: World, name: string, phase: Phase, now: Time, fails: bool, step: Step)
    requires name in w.runs
  {
    var s := w.runs[name].status;
    var completed := if s.completionTime.Some? then s.completionTime else Some(now);
    Patches(w, name, Status(phase, s.podName, s.startTime, completed, s.result), fails, None, step)
  }

  /** The run ends because it is too late. */
  ghost predicate EndsLate(w: World, name: string, now: Time, fails: bool, step: Step)
    requires name in w.runs
  {
    exists phase :: LatePhase(w.runs[name], now, phase) && Ends(w, name, phase, now, fails, step)
  }

  /** The run is pending and looked at again after a pause that fits its age. */
  ghost predicate Waits(w: World, name: string, now: Time, fails: bool, step: Step)
    requires name in w.runs
  {
    var s := w.runs[name].status;
    exists pause :: Pause(Age(w.runs[name], now), pause)
      && Patches(w, name, Status(AgentRuns.Pending, s.podName, s.startTime, None, s.result), fails, Some(pause), step)
  }

  /** What follows when there is no target to deliver to. */
  ghost predicate Untargeted(w: World, name: string, r: Resolution, now: Time, fails: bool, step: Step)
    requires name in w.runs
  {
    match r
    case Found(_) => false
    case Unavailable(_) => Waits(w, name, now, fails, step)
    case Misconfigured => Ends(w, name, AgentRuns.Failed, now, fails, step)
    case Failing => step == Step(w, Outcome(None, true))
  }

  lemma DeadlineIs(run: Run, now: Time)
    ensures now >= Deadline(run, now).0 <==> Late(run, now)
    ensures LatePhase(run, now, if Deadline(run, now).1 then AgentRuns.BudgetExceeded else AgentRuns.Failed)
  {
    if run.budget.Wallclock? && run.status.startTime.Some? {
      assert BudgetEndsAt(run, run.status.startTime.value + run.budget.limit);
    }
  }

  lemma PauseIs(run: Run, now: Time)
    ensures Pause(Age(run, now), BackoffFor(run, now))
  {
  }

  lemma EndingIs(w: World, name: string, now: Time, fails: bool)
    requires name in w.runs
    ensures forall phase :: Ends(w, name, phase, now, fails, Finishing(w, name, w.runs[name], phase, now, fails))
    ensures EndsLate(w, name, now, fails, Expiring(w, name, w.runs[name], now, fails))
    ensures Waits(w, name, now, fails, Waiting(w, name, w.runs[name], now, fails))
  {
    var run := w.runs[name];
    DeadlineIs(run, now);
    PauseIs(run, now);
    forall phase ensures Ends(w, name, phase, now, fails, Finishing(w, name, run, phase, now, fails)) { }
    hide Deadline, BackoffFor, LatePhase, Pause, Ends;
    assert Waits(w, name, now, fails, Waiting(w, name, run, now, fails)) by {
      assert Patches(w, name, Status(AgentRuns.Pending, run.status.podName, run.status.startTime, None, run.status.result), fails,
                     Some(BackoffFor(run, now)), Waiting(w, name, run, now, fails));
    }
  }

  lemma UntargetedIs(w: World, name: string, r: Resolution, now: Time, fails: bool)
    requires name in w.runs && !r.Found?
    ensures Untargeted(w, name, r, now, fails, NoTarget(w, name, w.runs[name], r, now, fails))
  {
    EndingIs(w, name, now, fails);
    hide Finishing, Waiting, Ends, Waits;
  }

  /* The second half */

  /** The target is still the one that the request went to. */
  ghost predicate SameAs(target: Target, r: Resolution) {
    r.Found? && target.pod.uid != "" && r.target.pod.uid == target.pod.uid && r.target.pod.name == target.pod.name
    && r.target.pod.ip == target.pod.ip && r.target.credential == target.credential
  }

  /** The response, once run and target are confirmed. */
  ghost predicate Responded(w: World, name: string, podName: string, a: After, step: Step)
    requires name in w.runs
  {
    match a.response
    case Answer(observation) =>
      var s := w.runs[name].status;
      var phase := if observation.failed then AgentRuns.Failed else AgentRuns.Succeeded;
      var completed := if s.completionTime.Some? then s.completionTime else Some(a.now);
      Patches(w, name, Status(phase, podName, s.startTime, completed, Some(observation)), a.patchFails, None, step)
    case Unusable => Ends(w, name, AgentRuns.Failed, a.now, a.patchFails, step)
    case Unreachable =>
      if Late(w.runs[name], a.now) then EndsLate(w, name, a.now, a.patchFails, step)
      else Waits(w, name, a.now, a.patchFails, step)
  }

  /** What comes of a response, whatever has changed since the request. */
  lemma FinishEffect(w: World, flight: Flight, a: After)
    ensures var step, name := Finish(w, flight, a), flight.name;
            if a.getFails then step == Step(w, Outcome(None, true))
            else if name !in w.runs || w.runs[name].uid != flight.uid || w.runs[name].status.phase.IsTerminal() then
              step == Step(w, Outcome(None, false))
            else
              var r := ResolveTarget(w, w.runs[name], a.confirmFault);
              if SameAs(flight.target, r) then Responded(w, name, r.target.pod.name, a, step)
              else if r.Found? then Waits(w, name, a.now, a.patchFails, step)
              else Untargeted(w, name, r, a.now, a.patchFails, step)
  {
    hide ResolveTarget, Finishing, Expiring, Waiting, NoTarget, Late, Ends, EndsLate, Waits, Deadline, Untargeted;
    var name := flight.name;
    if name in w.runs {
      var run := w.runs[name];
      var r := ResolveTarget(w, run, a.confirmFault);
      EndingIs(w, name, a.now, a.patchFails);
      DeadlineIs(run, a.now);
      if !r.Found? {
        UntargetedIs(w, name, r, a.now, a.patchFails);
      } else if !SameTarget(flight.target, r.target) {
        ChangedIs(w, name, a.now, a.patchFails);
      }
    }
  }

  lemma ChangedIs(w: World, name: string, now: Time, fails: bool)
    requires name in w.runs
    ensures Waits(w, name, now, fails, NoTarget(w, name, w.runs[name], Unavailable(TargetChanged), now, fails))
  {
    UntargetedIs(w, name, Unavailable(TargetChanged), now, fails);
    hide Waits, NoTarget;
  }

  /* The first half */

  /** The run as it is while a request is prepared. */
  function Running(run: Run, podName: string, now: Time): Run {
    run.(status := Status(AgentRuns.Running, podName,
                          if run.status.startTime.Some? then run.status.startTime else Some(now), None, run.status.result))
  }

  /** The cluster when the target is confirmed: anything may have changed but the run. */
  function Meanwhile(name: string, run: Run, others: World): World {
    World(others.runs[name := run], others.agents, others.pods, others.secrets)
  }

  /** What comes of the confirmation that precedes the request. */
  ghost predicate Confirms(w: World, name: string, target: Target, b: Before, begun: Begun)
    requires name in w.runs
  {
    var r := ResolveTarget(w, w.runs[name], b.confirmFault);
    if SameAs(target, r) then
      if Late(w.runs[name], b.confirmNow) then
        begun.Stopped? && EndsLate(w, name, b.confirmNow, b.patchFails, begun.step)
      else
        && begun.Sent? && begun.world == w && begun.flight.name == name && begun.flight.uid == w.runs[name].uid
        && begun.flight.target == r.target && IsDeadline(w.runs[name], b.confirmNow, begun.flight.deadline)
    else begun.Stopped? && if r.Found? then Waits(w, name, b.confirmNow, b.patchFails, begun.step)
                           else Untargeted(w, name, r, b.confirmNow, b.patchFails, begun.step)
  }

  /** The first of the two limits. */
  ghost predicate IsDeadline(run: Run, now: Time, t: Time) {
    && t <= TimeoutAt(run, now) && (forall e :: BudgetEndsAt(run, e) ==> t <= e)
    && (t == TimeoutAt(run, now) || BudgetEndsAt(run, t))
  }

  lemma ConfirmIs(w: World, name: string, target: Target, b: Before)
    requires name in w.runs
    ensures Confirms(w, name, target, b, Confirm(w, name, w.runs[name], target, b))
  {
    var run := w.runs[name];
    assert IsDeadline(run, b.confirmNow, Deadline(run, b.confirmNow).0) by {
      if run.budget.Wallclock? && run.status.startTime.Some? {
        assert BudgetEndsAt(run, run.status.startTime.value + run.budget.limit);
      }
    }
    hide ResolveTarget, Finishing, Expiring, Waiting, NoTarget, Late, Ends, EndsLate, Waits, Deadline, Untargeted, IsDeadline;
    var r := ResolveTarget(w, run, b.confirmFault);
    EndingIs(w, name, b.confirmNow, b.patchFails);
    DeadlineIs(run, b.confirmNow);
    if !r.Found? {
      UntargetedIs(w, name, r, b.confirmNow, b.patchFails);
    } else if !SameTarget(target, r.target) {
      ChangedIs(w, name, b.confirmNow, b.patchFails);
    }
  }

  /** What comes of a reconcile up to the request. */
  lemma BeginEffect(w: World, name: string, b: Before)
    ensures var begun := Begin(w, name, b);
            if name !in w.runs || w.runs[name].port.None? || w.runs[name].status.phase.IsTerminal() then
              begun == Stopped(Step(w, Outcome(None, false)))
            else
              var run := w.runs[name];
              if run.budget.InvalidBudget? then
                begun.Stopped? && Ends(w, name, AgentRuns.Failed, b.now, b.patchFails, begun.step)
              else if Late(run, b.now) then begun.Stopped? && EndsLate(w, name, b.now, b.patchFails, begun.step)
              else
                match ResolveTarget(w, run, b.resolveFault)
                case Found(target) =>
                  if b.runningPatchFails then begun == Stopped(Step(w, Outcome(None, true)))
                  else Confirms(Meanwhile(name, Running(run, target.pod.name, b.now), b.recast), name, target, b, begun)
                case other => begun.Stopped? && Untargeted(w, name, other, b.now, b.patchFails, begun.step)
  {
    if name in w.runs {
      var run := w.runs[name];
      EndingIs(w, name, b.now, b.patchFails);
      DeadlineIs(run, b.now);
      var r := ResolveTarget(w, run, b.resolveFault);
      if r.Found? {
        var running := Running(run, r.target.pod.name, b.now);
        ConfirmIs(Meanwhile(name, running, b.recast), name, r.target, b);
        assert run.(status := RunningStatus(run.status, r.target.pod.name, b.now)) == running;
        assert Recast(Put(w, name, run, running.status), name, b.recast) == Meanwhile(name, running, b.recast);
      } else {
        UntargetedIs(w, name, r, b.now, b.patchFails);
      }
    }
    hide ResolveTarget, Finishing, Expiring, Waiting, NoTarget, Late, Ends, EndsLate, Waits, Deadline, Untargeted, Confirms,
         Confirm, RunningStatus, Put, Recast;
  }

  /* The target */

  /** No object of the cluster is without a name or UID. */
  ghost predicate Named(w: World) { "" !in w.runs && "" !in w.agents && "" !in w.pods && "" !in w.secrets }

  /** A target is found exactly when there is one and no read fails. */
  lemma TargetFoundIff(w: World, run: Run, fault: ReadFault, t: Target)
    requires Named(w) && run.port.Some?
    ensures ResolveTarget(w, run, fault) == Found(t) <==> fault.NoFault? && IsTarget(w, run, t)
  {
    if ResolveTarget(w, run, fault).Found? { ResolvedIsTarget(w, run, fault); }
    hide PodReady;
  }

  /** The credential of the standing run cannot be used. */
  ghost predicate BadCredential(w: World, run: Run)
    requires DF.ReachesCredential(w, run)
  {
    var standing := w.runs[w.agents[run.agentRef].currentRunName];
    standing.uid == "" || (standing.uid in w.secrets && w.secrets[standing.uid].None?)
  }

  /**
   The configuration counts as wrong exactly when the run names no Agent, one that is not a Service or does
   not own it, or when there is a ready Pod but its credential is malformed or cannot be read.
   */
  lemma MisconfiguredIff(w: World, run: Run, fault: ReadFault)
    ensures ResolveTarget(w, run, fault).Misconfigured?
       <==> || run.agentRef == ""
            || (!fault.ReadFails? && run.agentRef in w.agents
                && (!w.agents[run.agentRef].isService || run.owner != w.agents[run.agentRef].uid))
            || (!fault.ReadFails? && DF.ReachesCredential(w, run) && (fault.SecretReadFails? || BadCredential(w, run)))
    ensures ResolveTarget(w, run, fault).Failing? <==> run.agentRef != "" && fault.ReadFails?
  {
    hide PodReady;
  }
}
