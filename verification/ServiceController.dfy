/** The Service reconciler as the controller runs it, on a cluster that it updates in place. */
module ServiceController {
  import opened Prelude
  import opened Decimal
  import opened Scheduler
  import opened AgentRuns
  import opened ServiceRunNames
  import opened ServiceProtocol

  datatype CreateReply = Created | AlreadyExists | CreateError

  class ServiceReconciler {
    const agent: Agent
    var runs: map<string, Run>
    var status: ServiceStatus
    var spec: Spec
    var now: Time
    ghost var minted: nat

    constructor (agent: Agent, w: World)
      ensures this.agent == agent && Cluster() == w
    {
      this.agent := agent;
      runs, status, spec, now := w.runs, w.status, w.spec, w.now;
      minted := w.minted;
    }

    ghost function Cluster(): World
      reads this
    {
      World(runs, status, spec, now, minted)
    }

    method Create(run: Run, write: Write) returns (reply: CreateReply)
      modifies this`runs, this`minted
      ensures reply.AlreadyExists? <==> !write.Rejected? && run.name in old(runs)
      ensures reply.Created? <==> write.Applied? && run.name !in old(runs)
      ensures Cluster() == if write.Rejected? || run.name in old(runs) then old(Cluster())
                           else CreateStanding(old(Cluster()), run)
    {
      if write.Rejected? {
        return CreateError;
      }
      if run.name in runs {
        return AlreadyExists;
      }
      runs := runs[run.name := run];
      minted := minted + 1;
      reply := if write.Lost? then CreateError else Created;
    }

    method Patch(next: ServiceStatus, write: Write, done: Outcome) returns (outcome: Outcome)
      modifies this`status
      ensures (Cluster(), outcome) == PatchStatus(old(Cluster()), next, write, done)
    {
      if !write.Rejected? {
        status := next;
      }
      outcome := if write.Applied? then done else Aborted;
    }

    method HandleAlreadyExists(name: string, f: Faults) returns (outcome: Outcome)
      requires name in runs
      ensures outcome == if !f.verifyFails && (f.vanished || (runs[name].owner == agent.uid && !runs[name].delivered))
                         then RequeueNow else Aborted
    {
      if f.verifyFails {
        return Aborted;
      }
      if f.vanished {
        return RequeueNow;
      }
      var existing := runs[name];
      var accepted := existing.owner == agent.uid;
      if accepted {
        accepted := !existing.delivered;
      }
      outcome := if accepted then RequeueNow else Aborted;
    }

    method Reconcile(listed: seq<Run>, f: Faults) returns (outcome: Outcome)
      requires DistinctNames(listed)
      modifies this
      ensures Reconciles(agent, old(Cluster()), listed, f, (Cluster(), outcome))
    {
      var observed := ObserveServiceRuns(agent, listed);
      outcome := ReconcileObserved(observed, f);
      assert IsTopTwo(agent, observed, listed);
    }

    method ReconcileObserved(observed: Observed, f: Faults) returns (outcome: Outcome)
      modifies this
      ensures (Cluster(), outcome) == Decide(agent, old(Cluster()), observed, f)
    {
      if f.listFails {
        return Aborted;
      }
      if !spec.hasGoal {
        outcome := Patch(StatusOf(observed).(reason := MissingGoal), f.patch, Idle);
        return;
      }
      var current := observed.current;
      if current.Some? && !current.value.phase.IsTerminal() {
        outcome := Patch(StatusOf(observed).(reason := RunActive), f.patch, Idle);
        return;
      }
      if current.Some? && current.value.phase.IsTerminal() && current.value.completedAt.Some? {
        var delay := BackoffDelay(spec.backoff, observed.maxSuffix - 1);
        var since := now - current.value.completedAt.value;
        if since < delay {
          outcome := Patch(StatusOf(observed).(reason := status.reason), f.patch, RequeueAfter(delay - since));
          return;
        }
      }
      if observed.maxSuffix == MAX_INT32 {
        return Aborted;
      }
      var nextSuffix := observed.maxSuffix + 1;
      var run := NewStanding(agent, nextSuffix, now);
      var reply := Create(run, f.create);
      if reply.CreateError? {
        return Aborted;
      }
      if reply.AlreadyExists? {
        outcome := HandleAlreadyExists(run.name, f);
        return;
      }
      var next := ServiceStatus(run.name, "", nextSuffix, nextSuffix - 1, Recasting);
      if current.Some? {
        next := next.(lastRunName := current.value.name);
      }
      outcome := Patch(next, f.patch, RequeueAfter(RECAST_POLL));
    }
  }
}
