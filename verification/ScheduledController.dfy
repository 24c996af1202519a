/** The Scheduled reconciler as the controller runs it: calls on a cluster that it updates in place. */
module ScheduledController {
  import opened Prelude
  import opened Decimal
  import opened Scheduler
  import opened Sorting
  import opened AgentRuns
  import opened ScheduledHistory
  import opened ScheduledProtocol

  datatype CreateReply = Created | AlreadyExists | CreateError

  datatype Verified = Verified(run: Run) | Missing | VerifyError

  class ScheduledReconciler {
    const agent: Agent
    var runs: map<string, Run>
    var status: AgentStatus
    var generation: nat
    var policy: Option<Policy>
    var now: Time
    var nanos: nat
    ghost var log: seq<Stamp>

    constructor (agent: Agent, w: World)
      ensures this.agent == agent && Cluster() == w
    {
      this.agent := agent;
      runs, status, generation, policy := w.runs, w.status, w.generation, w.policy;
      now, nanos := w.now, w.nanos;
      log := w.log;
    }

    ghost function Cluster(): World
      reads this
    {
      World(runs, status, generation, policy, now, nanos, log)
    }

    /* API calls */

    /** Delete; `applied` counts the deletes of this reconcile that have taken effect. */
    method Delete(name: string, applied: nat, stopAfter: Option<nat>) returns (ok: bool, applied': nat)
      modifies this`runs
      ensures stopAfter == Some(applied) ==> !ok && applied' == applied && runs == old(runs)
      ensures stopAfter != Some(applied) ==>
                applied' == applied + 1 && runs == old(runs) - {name} && ok == (stopAfter != Some(applied + 1))
    {
      if stopAfter == Some(applied) {
        return false, applied;
      }
      runs := runs - {name};
      applied' := applied + 1;
      ok := stopAfter != Some(applied');
    }

    method Create(run: Run, write: Write) returns (reply: CreateReply)
      requires run.slot.Some? && run.sequence.Some?
      modifies this`runs, this`log
      ensures reply.AlreadyExists? <==> !write.Rejected? && run.name in old(runs)
      ensures reply.Created? <==> write.Applied? && run.name !in old(runs)
      ensures Cluster() == if write.Rejected? || run.name in old(runs) then old(Cluster())
                           else CreateRun(old(Cluster()), run)
    {
      if write.Rejected? {
        return CreateError;
      }
      if run.name in runs {
        return AlreadyExists;
      }
      runs := runs[run.name := run];
      log := log + [Stamp(run.slot.value, run.sequence.value)];
      reply := if write.Lost? then CreateError else Created;
    }

    method Patch(next: AgentStatus, write: Write, done: Outcome) returns (outcome: Outcome)
      modifies this`status
      ensures (Cluster(), outcome) == PatchStatus(old(Cluster()), next, write, done)
    {
      if !write.Rejected? {
        status := next;
      }
      outcome := if write.Applied? then done else Aborted;
    }

    /* Pruning */

    method PruneGroup(group: seq<Run>, limit: nat, deleted: set<string>, applied: nat, stopAfter: Option<nat>)
      returns (ok: bool, deleted': set<string>, applied': nat)
      requires stopAfter.Some? ==> applied == 0 || applied < stopAfter.value
      modifies this`runs
      ensures var tail := Drop(Sort(Newer, group), limit);
              && ok == !(stopAfter.Some? && tail != [] && stopAfter.value <= applied + |tail|)
              && (ok ==> applied' == applied + |tail|)
              && (!ok ==> applied' == stopAfter.value)
              && applied <= applied' <= applied + |tail|
              && deleted' == deleted + Names(tail[..applied' - applied])
              && runs == old(runs) - Names(tail[..applied' - applied])
    {
      hide Sort, Filter, Names;
      var sorted := Sort(Newer, group);
      ghost var tail := Drop(sorted, limit);
      deleted', applied' := deleted, applied;
      ghost var all := runs;
      NoNames(all, deleted);
      var i := limit;
      while i < |sorted|
        invariant i - limit <= |tail| && (i < |sorted| || i - limit == |tail|)
        invariant applied' == applied + (i - limit)
        invariant stopAfter.Some? ==> applied' == 0 || applied' < stopAfter.value
        invariant deleted' == deleted + Names(tail[..i - limit])
        invariant runs == all - Names(tail[..i - limit])
      {
        NamesSnoc(tail, i - limit);
        RemoveOneMore(all, Names(tail[..i - limit]), sorted[i].name);
        ok, applied' := Delete(sorted[i].name, applied', stopAfter);
        if !ok && applied' == applied + (i - limit) {
          return;
        }
        deleted' := deleted' + {sorted[i].name};
        if !ok {
          return;
        }
        i := i + 1;
      }
      ok := true;
    }

    method PruneHistory(items: seq<Run>, seen: Observed, limits: Policy, stopAfter: Option<nat>)
      returns (ok: bool, observed: Observed)
      requires DistinctNames(items) && Ascending(ByName, items) && seen == Observe(items)
      modifies this`runs
      ensures var doomed := Doomed(items, limits.successLimit, limits.failedLimit);
              && ok == !PruneStops(stopAfter, doomed)
              && (!ok ==> runs == old(runs) - Names(doomed[..stopAfter.value]))
              && (ok ==>
                    && runs == old(runs) - Names(doomed)
                    && DistinctNames(Retained(items, Names(doomed)))
                    && var kept := Observe(Retained(items, Names(doomed)));
                       observed == kept.(maxCount := Max(seen.maxCount, kept.maxCount)))
    {
      observed := seen;
      var deleted;
      ok, deleted := PruneClasses(items, limits, stopAfter);
      if ok {
        observed := SummarizeRetained(items, deleted, seen);
      }
    }

    method PruneClasses(items: seq<Run>, limits: Policy, stopAfter: Option<nat>)
      returns (ok: bool, deleted: set<string>)
      modifies this`runs
      ensures var doomed := Doomed(items, limits.successLimit, limits.failedLimit);
              && ok == !PruneStops(stopAfter, doomed)
              && (!ok ==> runs == old(runs) - Names(doomed[..stopAfter.value]))
              && (ok ==> runs == old(runs) - Names(doomed) && deleted == Names(doomed))
    {
      hide Sort, Filter, Names, Drop;
      ghost var all := runs;
      ghost var first := Excess(IsSuccessful, items, limits.successLimit);
      ghost var second := Excess(IsFailed, items, limits.failedLimit);
      var successful, failed := Filter(IsSuccessful, items), Filter(IsFailed, items);
      var applied;
      ok, deleted, applied := PruneGroup(successful, limits.successLimit, {}, 0, stopAfter);
      if !ok {
        assert (first + second)[..applied] == first[..applied];
        return;
      }
      assert first[..applied] == first;
      ghost var before := applied;
      ok, deleted, applied := PruneGroup(failed, limits.failedLimit, deleted, applied, stopAfter);
      PruneBoth(all, first, second, applied - before);
      assert ok ==> (first + second)[..applied] == first + second;
    }

    /** The summary of what is left, with the greatest sequence seen before the prune. */
    method SummarizeRetained(items: seq<Run>, deleted: set<string>, seen: Observed) returns (observed: Observed)
      requires DistinctNames(items) && Ascending(ByName, items)
      ensures DistinctNames(Retained(items, deleted))
      ensures var kept := Observe(Retained(items, deleted));
              observed == kept.(maxCount := Max(seen.maxCount, kept.maxCount))
    {
      var retained := Retained(items, deleted);
      RetainedDistinct(items, deleted);
      FilterAscending((r: Run) => r.name !in deleted, items);
      observed := Summarize(retained);
      SummaryUnique(observed, Observe(retained), retained);
      if seen.maxCount > observed.maxCount {
        observed := observed.(maxCount := seen.maxCount);
      }
    }

    method VerifyScheduledRun(name: string, slot: Time, f: Faults) returns (verified: Verified)
      ensures verified == if f.verifyFails then VerifyError
                          else if f.vanished || name !in runs then Missing
                          else if runs[name].owner != agent.uid || runs[name].slot != Some(slot) then VerifyError
                          else Verified.Verified(runs[name])
    {
      if f.verifyFails {
        return VerifyError;
      }
      if f.vanished || name !in runs {
        return Missing;
      }
      var existing := runs[name];
      var accepted := existing.owner == agent.uid && existing.slot == Some(slot);
      verified := if accepted then Verified.Verified(existing) else VerifyError;
    }

    /* The reconcile */

    method Reconcile(listed: seq<Run>, f: Faults) returns (outcome: Outcome)
      requires Ready(agent, Cluster()) && DistinctNames(listed)
      modifies this
      ensures (Cluster(), outcome) == ScheduledProtocol.Reconcile(agent, old(Cluster()), listed, f)
    {
      if f.listFails {
        return Aborted;
      }
      SortByName(listed);
      var items := Sort(ByName, listed);
      var seen := Summarize(items);
      SummaryUnique(seen, Observe(items), items);
      if policy.None? {
        var status := BaseStatus(status, generation, seen);
        outcome := Patch(status.(reason := InvalidSchedule), f.patch, Idle);
        return;
      }
      var ok;
      ok, seen := PruneHistory(items, seen, policy.value, f.stopAfter);
      if !ok {
        return Aborted;
      }
      outcome := ReconcileSlot(seen, f);
    }

    method ReconcileSlot(seen: Observed, f: Faults) returns (outcome: Outcome)
      requires Ready(agent, Cluster()) && policy.Some?
      modifies this
      ensures (Cluster(), outcome) == DecideSlot(agent, old(Cluster()), old(policy.value), seen, f)
    {
      var policy := policy.value;
      var next := BaseStatus(status, generation, seen);
      if status.observedGeneration != generation || status.nextScheduleTime.None? {
        var at := policy.schedule(now);
        var reason := ScheduleUpdated;
        if status.observedGeneration == 0 {
          reason := ScheduleInitialized;
        }
        if policy.suspend {
          reason := Suspended;
        }
        outcome := Patch(next.(nextScheduleTime := Some(at), reason := reason), f.patch,
                         if policy.suspend then Idle else RequeueFor(now, at));
        return;
      }
      if policy.suspend {
        next := next.(nextScheduleTime := Some(policy.schedule(now)), reason := Suspended);
        outcome := Patch(next, f.patch, Idle);
        return;
      }
      outcome := ReconcileDue(seen, f);
    }

    method ReconcileDue(seen: Observed, f: Faults) returns (outcome: Outcome)
      requires Ready(agent, Cluster()) && policy.Some? && status.nextScheduleTime.Some?
      modifies this
      ensures (Cluster(), outcome) == DecideDue(agent, old(Cluster()), old(policy.value), seen, f)
    {
      var policy := policy.value;
      var due, at := LatestDue(policy.schedule, status.nextScheduleTime.value, now);
      LatestDueUnique(policy.schedule, status.nextScheduleTime.value, now, DuePair(due, at),
                      LatestDueOf(policy.schedule, status.nextScheduleTime.value, now));
      var next := BaseStatus(status, generation, seen).(nextScheduleTime := Some(at));
      if due.None? {
        outcome := Patch(next.(reason := WaitingForSchedule), f.patch, RequeueFor(now, at));
        return;
      }
      if Overdue(now, nanos, due.value, policy.startingDeadline) {
        outcome := Patch(next.(reason := MissedDeadline), f.patch, RequeueFor(now, at));
        return;
      }
      if due.value in seen.bySlot {
        next := RecoverStatus(next, seen.bySlot[due.value], due.value, seen.LatestDue());
        outcome := Patch(next.(reason := RunCreated), f.patch, RequeueFor(now, at));
        return;
      }
      if policy.forbid && seen.hasActive {
        outcome := Patch(next.(reason := OverlapSkipped), f.patch, RequeueFor(now, at));
        return;
      }
      if next.runsCreated == MAX_INT32 {
        return Aborted;
      }
      outcome := CreateSlotRun(next, due.value, seen.LatestDue(), RequeueFor(now, at), f);
    }

    method CreateSlotRun(status: AgentStatus, due: Time, latestRetained: Option<Time>, later: Outcome, f: Faults)
      returns (outcome: Outcome)
      requires Ready(agent, Cluster()) && due <= now
      modifies this
      ensures (Cluster(), outcome) == CreateForSlot(agent, old(Cluster()), status, due, latestRetained, later, f)
    {
      var next := status;
      var sequence := next.runsCreated + 1;
      var run := NewRun(agent, due, sequence, now);
      var reply := Create(run, f.create);
      if reply.CreateError? {
        return Aborted;
      }
      if reply.AlreadyExists? {
        var verified := VerifyScheduledRun(run.name, due, f);
        if verified.VerifyError? {
          return Aborted;
        }
        if verified.Missing? {
          return RequeueNow;
        }
        next := RecoverStatus(next, verified.run, due, latestRetained);
        if next.runsCreated < sequence {
          next := next.(runsCreated := sequence);
        }
        outcome := Patch(next.(reason := RunCreated), f.patch, later);
        return;
      }
      next := next.(runsCreated := sequence, lastRunName := run.name, lastScheduleTime := Some(due));
      outcome := Patch(next.(reason := RunCreated), f.patch, later);
    }
  }

  lemma NamesSnoc(runs: seq<Run>, k: nat)
    requires k < |runs|
    ensures Names(runs[..k + 1]) == Names(runs[..k]) + {runs[k].name}
  {
    assert runs[..k + 1] == runs[..k] + [runs[k]];
  }

  lemma NoNames(m: map<string, Run>, deleted: set<string>)
    ensures Names([]) == {} && deleted == deleted + Names([]) && m == m - Names([])
  {
  }

  lemma RemoveOneMore(m: map<string, Run>, gone: set<string>, name: string)
    ensures (m - gone) - {name} == m - (gone + {name})
  {
  }

  lemma PruneBoth(m: map<string, Run>, first: seq<Run>, second: seq<Run>, k: nat)
    requires k <= |second|
    ensures (first + second)[..|first| + k] == first + second[..k]
    ensures Names((first + second)[..|first| + k]) == Names(first) + Names(second[..k])
    ensures (m - Names(first)) - Names(second[..k]) == m - Names((first + second)[..|first| + k])
  {
    assert (first + second)[..|first| + k] == first + second[..k];
  }

  lemma {:induction false} FilterAscending(keep: Run -> bool, items: seq<Run>)
    requires Ascending(ByName, items)
    ensures Ascending(ByName, Filter(keep, items))
  {
    if items != [] {
      FilterAscending(keep, items[1..]);
      var rest := Filter(keep, items[1..]);
      forall j | 0 <= j < |rest| ensures ByName(items[0], rest[j]) {
        assert rest[j] in items[1..];
        var k :| 0 <= k < |items[1..]| && items[1..][k] == rest[j];
        assert items[k + 1] == rest[j];
      }
    }
  }
}
