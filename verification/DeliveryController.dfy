/** The delivery reconcile as it runs: reads, patches and one request, against a cluster that moves on. */
module DeliveryController {
  import opened Prelude
  import AgentRuns
  import opened DeliveryProtocol

  class DeliveryReconciler {
    var world: World

    constructor (world: World)
      ensures this.world == world
    {
      this.world := world;
    }

    /** Patches the status of a run that was just read. */
    method Patch(name: string, run: Run, status: Status, fails: bool) returns (outcome: Outcome)
      modifies this
      ensures Step(world, outcome) == if fails then Step(old(world), ERROR) else Step(Put(old(world), name, run, status), DONE)
    {
      if fails {
        return ERROR;
      }
      world := Put(world, name, run, status);
      outcome := DONE;
    }

    method Transition(name: string, run: Run, phase: Phase, now: Time, fails: bool) returns (outcome: Outcome)
      requires phase.IsTerminal()
      modifies this
      ensures Step(world, outcome) == Finishing(old(world), name, run, phase, now, fails)
    {
      var status := run.status.(phase := phase);
      if status.completionTime.None? {
        status := status.(completionTime := Some(now));
      }
      outcome := Patch(name, run, status, fails);
    }

    method Expire(name: string, run: Run, now: Time, fails: bool) returns (outcome: Outcome)
      modifies this
      ensures Step(world, outcome) == Expiring(old(world), name, run, now, fails)
    {
      var (_, budget) := Deadline(run, now);
      if budget {
        outcome := Transition(name, run, AgentRuns.BudgetExceeded, now, fails);
      } else {
        outcome := Transition(name, run, AgentRuns.Failed, now, fails);
      }
    }

    method SetDeliveryWaiting(name: string, run: Run, now: Time, fails: bool) returns (outcome: Outcome)
      modifies this
      ensures Step(world, outcome) == Waiting(old(world), name, run, now, fails)
    {
      outcome := Patch(name, run, run.status.(phase := AgentRuns.Pending, completionTime := None), fails);
      if !fails {
        outcome := Outcome(Some(BackoffFor(run, now)), false);
      }
    }

    method SetDeliveryRunning(name: string, run: Run, podName: string, now: Time, fails: bool)
      returns (next: Run, outcome: Outcome)
      modifies this
      ensures next == run.(status := RunningStatus(run.status, podName, now))
      ensures Step(world, outcome) == if fails then Step(old(world), ERROR)
                                      else Step(Put(old(world), name, run, next.status), DONE)
    {
      var status := run.status.(phase := AgentRuns.Running, podName := podName);
      if status.startTime.None? {
        status := status.(startTime := Some(now));
      }
      status := status.(completionTime := None);
      next := run.(status := status);
      outcome := Patch(name, run, status, fails);
    }

    /** Without a target: the run waits, fails on its configuration, or the reconcile is repeated. */
    method GiveUp(name: string, run: Run, resolution: Resolution, now: Time, fails: bool) returns (outcome: Outcome)
      requires !resolution.Found?
      modifies this
      ensures Step(world, outcome) == NoTarget(old(world), name, run, resolution, now, fails)
    {
      match resolution {
        case Unavailable(_) => outcome := SetDeliveryWaiting(name, run, now, fails);
        case Misconfigured => outcome := Transition(name, run, AgentRuns.Failed, now, fails);
        case Failing => outcome := ERROR;
      }
    }

    /**
     One reconcile. The request is in flight while the cluster becomes `meanwhile`, whatever that is;
     when nothing is sent, `meanwhile` and `after` play no part.
     */
    method ReconcileDelivery(name: string, before: Before, meanwhile: World, after: After) returns (outcome: Outcome)
      modifies this
      ensures match Begin(old(world), name, before)
              case Stopped(step) => Step(world, outcome) == step
              case Sent(_, flight) => Step(world, outcome) == Finish(meanwhile, flight, after)
    {
      hide ResolveTarget, ConfirmTarget, Deadline, Finishing, Expiring, NoTarget, Waiting, BackoffFor, Put, RunningStatus;
      if name !in world.runs || world.runs[name].port.None? {
        return DONE;
      }
      var run := world.runs[name];
      if run.status.phase.IsTerminal() {
        return DONE;
      }
      if run.budget.InvalidBudget? {
        outcome := Transition(name, run, AgentRuns.Failed, before.now, before.patchFails);
        return;
      }
      var (deadline, _) := Deadline(run, before.now);
      if before.now >= deadline {
        outcome := Expire(name, run, before.now, before.patchFails);
        return;
      }
      var resolved := ResolveTarget(world, run, before.resolveFault);
      if !resolved.Found? {
        outcome := GiveUp(name, run, resolved, before.now, before.patchFails);
        return;
      }
      run, outcome := SetDeliveryRunning(name, run, resolved.target.pod.name, before.now, before.runningPatchFails);
      if before.runningPatchFails {
        return;
      }
      PutKeepsName(old(world), name, old(world).runs[name], run.status);
      world := Recast(world, name, before.recast);
      var confirmed := ConfirmTarget(world, run, resolved.target, before.confirmFault);
      if !confirmed.Found? {
        outcome := GiveUp(name, run, confirmed, before.confirmNow, before.patchFails);
        return;
      }
      var (requestDeadline, _) := Deadline(run, before.confirmNow);
      if before.confirmNow >= requestDeadline {
        outcome := Expire(name, run, before.confirmNow, before.patchFails);
        return;
      }
      var flight := Flight(name, run.uid, confirmed.target, requestDeadline);
      world := meanwhile;
      outcome := ApplyResponse(flight, after);
    }

    lemma PutKeepsName(w: World, name: string, run: Run, status: Status)
      ensures name in Put(w, name, run, status).runs
    {
    }

    /** Everything after the response: the run and the target are read again before anything is written. */
    method ApplyResponse(flight: Flight, after: After) returns (outcome: Outcome)
      modifies this
      ensures Step(world, outcome) == Finish(old(world), flight, after)
    {
      hide ResolveTarget, ConfirmTarget, Deadline, Finishing, Expiring, NoTarget, Waiting, BackoffFor;
      if after.getFails {
        return ERROR;
      }
      if flight.name !in world.runs {
        return DONE;
      }
      var run := world.runs[flight.name];
      if run.uid != flight.uid || run.status.phase.IsTerminal() {
        return DONE;
      }
      var confirmed := ConfirmTarget(world, run, flight.target, after.confirmFault);
      if !confirmed.Found? {
        outcome := GiveUp(flight.name, run, confirmed, after.now, after.patchFails);
        return;
      }
      match after.response {
        case Unusable =>
          outcome := Transition(flight.name, run, AgentRuns.Failed, after.now, after.patchFails);
        case Unreachable =>
          var (deadline, _) := Deadline(run, after.now);
          if after.now >= deadline {
            outcome := Expire(flight.name, run, after.now, after.patchFails);
            return;
          }
          outcome := SetDeliveryWaiting(flight.name, run, after.now, after.patchFails);
        case Answer(observation) =>
          var status := run.status.(
            phase := if observation.failed then AgentRuns.Failed else AgentRuns.Succeeded,
            result := Some(observation), podName := confirmed.target.pod.name);
          if status.completionTime.None? {
            status := status.(completionTime := Some(after.now));
          }
          outcome := Patch(flight.name, run, status, after.patchFails);
      }
    }
  }
}
