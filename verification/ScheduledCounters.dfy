/**
 What holds in addition when every list is current: exact sequence numbers, at most one
 active run under Forbid, and a LastRunName that names the newest retained run.
 */
module ScheduledCounters {
  import opened Prelude
  import opened Decimal
  import opened Scheduler
  import opened Sorting
  import opened AgentRuns
  import opened ScheduledHistory
  import opened ScheduledProtocol
  import opened ScheduledRuns

  /** The i-th run ever created carries sequence i, and the status never runs ahead. */
  ghost predicate Counted(w: World) {
    && (forall i :: 0 <= i < |w.log| ==> w.log[i].sequence == i + 1)
    && w.status.runsCreated <= |w.log|
  }

  ghost predicate Active(a: Agent, w: World, name: string) {
    Owned(a, w, name) && !w.runs[name].phase.IsTerminal()
  }

  ghost predicate AtMostOneActive(a: Agent, w: World) {
    forall m, n :: Active(a, w, m) && Active(a, w, n) ==> m == n
  }

  /** `name` is the retained run with the newest slot, or empty when none is retained. */
  ghost predicate NamesNewest(a: Agent, w: World, name: string)
    requires Inv(a, w)
  {
    if Owned(a, w, name) then
      forall n :: Owned(a, w, n) ==> w.runs[n].slot.value <= w.runs[name].slot.value
    else
      name == "" && forall n :: !Owned(a, w, n)
  }

  /** What the observation of a current list says about the pruned cluster. */
  ghost predicate SeesAll(a: Agent, w: World, seen: Observed)
    requires Inv(a, w)
  {
    && seen.maxCount == |w.log|
    && (forall n :: Owned(a, w, n) ==> w.runs[n].slot.value in seen.bySlot)
    && (forall t :: t in seen.bySlot ==>
          Owned(a, w, seen.bySlot[t].name) && w.runs[seen.bySlot[t].name] == seen.bySlot[t] &&
          seen.bySlot[t].slot == Some(t))
    && (seen.hasActive <==> exists n :: Active(a, w, n))
    && NamesNewest(a, w, if seen.latest.Some? then seen.latest.value.name else "")
    && (seen.latest.Some? ==> Owned(a, w, seen.latest.value.name) &&
                              w.runs[seen.latest.value.name] == seen.latest.value)
    && (seen.latest.None? ==> forall n :: !Owned(a, w, n))
  }

  /** The newest slot's run carries the count of all runs. */
  lemma SequencesBounded(a: Agent, w: World, n: string)
    requires Inv(a, w) && Counted(w) && Owned(a, w, n)
    ensures 1 <= w.runs[n].sequence.value <= |w.log|
    ensures w.runs[n].slot.value == LastSlot(w.log) ==> w.runs[n].sequence.value == |w.log|
  {
    var r := w.runs[n];
    assert StaleCopy(a, w, r);
    var i :| 0 <= i < |w.log| && w.log[i] == Stamp(r.slot.value, r.sequence.value);
    if i < |w.log| - 1 { assert w.log[i].slot < w.log[|w.log| - 1].slot; }
  }

  lemma FreshIsStale(a: Agent, w: World, listed: seq<Run>)
    requires Inv(a, w) && FreshList(a, w, listed)
    ensures StaleList(a, w, listed)
  {
    forall r | r in listed ensures StaleCopy(a, w, r) {
      assert Owned(a, w, r.name);
    }
  }

  lemma FreshMaxCount(a: Agent, w: World, items: seq<Run>)
    requires Inv(a, w) && Counted(w) && FreshList(a, w, items)
    ensures Observe(items).maxCount == |w.log|
  {
    var o := Observe(items);
    forall r | r in items ensures r.sequence.Some? && r.sequence.value <= |w.log| {
      SequencesBounded(a, w, r.name);
    }
    if w.log != [] {
      var newest := a.SlotName(LastSlot(w.log));
      SequencesBounded(a, w, newest);
      assert w.runs[newest] in items;
    }
  }

  /** The cluster after a complete prune, and the list of what it kept. */
  lemma FreshAfterPrune(a: Agent, w: World, items: seq<Run>, doomed: seq<Run>)
    requires Inv(a, w) && FreshList(a, w, items)
    requires forall r :: r in doomed ==> r in items
    ensures FreshList(a, w.(runs := w.runs - Names(doomed)), Retained(items, Names(doomed)))
  {
    RetainedDistinct(items, Names(doomed));
    var w1 := w.(runs := w.runs - Names(doomed));
    forall r
      ensures r in Retained(items, Names(doomed)) <==> Owned(a, w1, r.name) && w1.runs[r.name] == r
    {
    }
  }

  lemma FreshSeesAll(a: Agent, w: World, kept: seq<Run>, seen: Observed)
    requires Inv(a, w) && Counted(w) && FreshList(a, w, kept)
    requires seen == Observe(kept).(maxCount := |w.log|)
    ensures SeesAll(a, w, seen)
  {
    var o := Observe(kept);
    forall n | Owned(a, w, n) ensures w.runs[n] in kept && w.runs[n].slot.Some? {
      assert StaleCopy(a, w, w.runs[n]);
      assert w.runs[n].name == n;
    }
    forall r | r in kept ensures Owned(a, w, r.name) && w.runs[r.name] == r { }
    if o.latest.Some? {
      forall n | Owned(a, w, n) ensures w.runs[n].slot.value <= o.latest.value.slot.value {
        assert !Supersedes(w.runs[n], o.latest);
      }
    }
    assert seen.hasActive <==> exists n :: Active(a, w, n) by {
      if n :| Active(a, w, n) { assert w.runs[n] in kept; }
      if seen.hasActive {
        var r :| r in kept && !r.phase.IsTerminal();
        assert Active(a, w, r.name);
      }
    }
  }

  /** The good end of a fresh reconcile that changed the status. */
  predicate StatusWritten(outcome: Outcome) { outcome.Idle? || outcome.RequeueAt? }

  /** What a reconcile step keeps of the counters, the Forbid policy and LastRunName. */
  ghost predicate Keeps(a: Agent, w: World, forbid: bool, result: (World, Outcome))
  {
    && Inv(a, result.0) && Counted(result.0)
    && (forbid && AtMostOneActive(a, w) ==> AtMostOneActive(a, result.0))
    && (StatusWritten(result.1) ==> NamesNewest(a, result.0, result.0.status.lastRunName))
  }

  lemma PatchCounts(a: Agent, w: World, forbid: bool, status: AgentStatus, patch: Write, done: Outcome)
    requires Inv(a, w) && Counted(w) && LooksAhead(w, status)
    requires status.runsCreated <= |w.log| && NamesNewest(a, w, status.lastRunName)
    ensures Keeps(a, w, forbid, PatchStatus(w, status, patch, done))
  {
    PatchKeepsInv(a, w, status, patch, done);
    var w' := PatchStatus(w, status, patch, done).0;
    assert forall n :: Active(a, w', n) <==> Active(a, w, n);
  }

  lemma PatchesCount(a: Agent, w: World, forbid: bool)
    requires Inv(a, w) && Counted(w)
    ensures forall status, patch, done {:trigger PatchStatus(w, status, patch, done)} ::
              LooksAhead(w, status) && status.runsCreated <= |w.log| && NamesNewest(a, w, status.lastRunName) ==>
                Keeps(a, w, forbid, PatchStatus(w, status, patch, done))
  {
    forall status, patch, done |
      LooksAhead(w, status) && status.runsCreated <= |w.log| && NamesNewest(a, w, status.lastRunName)
      ensures Keeps(a, w, forbid, PatchStatus(w, status, patch, done))
    {
      PatchCounts(a, w, forbid, status, patch, done);
    }
  }

  lemma BaseCounts(a: Agent, w: World, seen: Observed)
    requires Inv(a, w) && Counted(w) && SeesAll(a, w, seen)
    ensures var base := BaseStatus(w.status, w.generation, seen);
            base.runsCreated == |w.log| && NamesNewest(a, w, base.lastRunName)
  {
  }

  /** Recovering the status from the run of the due slot that the list shows. */
  lemma RecoverCounts(a: Agent, w: World, seen: Observed, status: AgentStatus, due: Time)
    requires Inv(a, w) && Counted(w) && SeesAll(a, w, seen) && due in seen.bySlot
    requires status.runsCreated == |w.log| && NamesNewest(a, w, status.lastRunName)
    ensures var found := RecoverStatus(status, seen.bySlot[due], due, seen.LatestDue());
            found.runsCreated == |w.log| && NamesNewest(a, w, found.lastRunName)
  {
    SequencesBounded(a, w, seen.bySlot[due].name);
  }

  lemma UnchangedKeeps(a: Agent, w: World, forbid: bool, outcome: Outcome)
    requires Inv(a, w) && Counted(w) && !StatusWritten(outcome)
    ensures Keeps(a, w, forbid, (w, outcome))
  {
  }

  lemma CreateCounts(a: Agent, w: World, seen: Observed, status: AgentStatus, due: Time, later: Outcome,
                     forbid: bool, f: Faults)
    requires AboutToCreate(a, w, status, due) && Counted(w) && SeesAll(a, w, seen)
    requires status.runsCreated == |w.log| && due !in seen.bySlot
    requires forbid ==> !seen.hasActive
    ensures Keeps(a, w, forbid, CreateForSlot(a, w, status, due, seen.LatestDue(), later, f))
  {
    UnchangedKeeps(a, w, forbid, Aborted);
    UnchangedKeeps(a, w, forbid, RequeueNow);
    if a.SlotName(due) in w.runs {
      CreateTakenOutcomes(a, w, seen, status, due, later, f);
      hide *;
    } else {
      var run := NewRun(a, due, status.runsCreated + 1, w.now);
      var w1 := CreateRun(w, run);
      CreatedCounts(a, w, seen, due, forbid);
      StillLooksAhead(w, w1, status, CreatedStatus(status, run, due));
      CreatedPatch(a, w, w1, forbid, CreatedStatus(status, run, due), f.patch, later);
      CreateFreeOutcomes(a, w, status, due, seen.LatestDue(), later, f);
      hide *;
    }
  }

  /** A taken name is never the Agent's own run for the slot: the list would have shown it. */
  lemma CreateTakenOutcomes(a: Agent, w: World, seen: Observed, status: AgentStatus, due: Time, later: Outcome,
                            f: Faults)
    requires Inv(a, w) && SeesAll(a, w, seen) && due <= w.now && due !in seen.bySlot
    requires a.SlotName(due) in w.runs
    ensures var result := CreateForSlot(a, w, status, due, seen.LatestDue(), later, f);
            result == (w, Aborted) || result == (w, RequeueNow)
  {
    var name := a.SlotName(due);
    if Owned(a, w, name) { assert w.runs[name].slot.value in seen.bySlot; }
    assert !(w.runs[name].owner == a.uid && w.runs[name].slot == Some(due));
    hide SeesAll, PatchStatus, Agent.SlotName, Cron, OwnedRunsStamped, LogPast, NextLeadsOn, NewestRetained;
  }

  /** The cluster right after the next run was created. */
  ghost predicate JustCreated(a: Agent, w: World, w1: World, forbid: bool, name: string) {
    && Inv(a, w1) && |w1.log| == |w.log| + 1
    && (forall i :: 0 <= i < |w1.log| ==> w1.log[i].sequence == i + 1)
    && w1.status == w.status
    && (forbid ==> AtMostOneActive(a, w1))
    && NamesNewest(a, w1, name)
  }

  lemma CreatedCounts(a: Agent, w: World, seen: Observed, due: Time, forbid: bool)
    requires Inv(a, w) && w.policy.Some? && w.status.observedGeneration == w.generation
    requires w.status.nextScheduleTime.Some? && due <= w.now
    requires LatestDueOf(w.policy.value.schedule, w.status.nextScheduleTime.value, w.now).due == Some(due)
    requires Counted(w) && SeesAll(a, w, seen) && a.SlotName(due) !in w.runs
    requires forbid ==> !seen.hasActive
    ensures JustCreated(a, w, CreateRun(w, NewRun(a, due, |w.log| + 1, w.now)), forbid, a.SlotName(due))
    ensures Keeps(a, w, forbid, (CreateRun(w, NewRun(a, due, |w.log| + 1, w.now)), Aborted))
  {
    var w1 := CreateRun(w, NewRun(a, due, |w.log| + 1, w.now));
    if w.log != [] { DueIsNotBehind(a, w, due); }
    if forbid { assert forall n :: !Active(a, w, n); }
    StampedNext(w, a, due);
    hide Inv, SeesAll, NamesNewest, Agent.SlotName, LatestDueOf, AtMostOneActive, LogGrows, Fires, CreateRun, NewRun;
    CreateOnceMore(a, w, due, |w.log| + 1);
    CreatedIsNewest(a, w, w1, due);
    if forbid { CreatedIsOnlyActive(a, w, due); }
  }

  lemma StampedNext(w: World, a: Agent, due: Time)
    requires Counted(w) && |a.hash(a.name)| >= HASH_LENGTH && due <= MAX_INT64
    ensures var w1 := CreateRun(w, NewRun(a, due, |w.log| + 1, w.now));
            && |w1.log| == |w.log| + 1 && w1.status == w.status && Counted(w1)
  {
    hide Agent.SlotName;
  }

  lemma CreatedIsNewest(a: Agent, w: World, w1: World, due: Time)
    requires Inv(a, w) && Inv(a, w1) && due <= w.now && a.SlotName(due) !in w.runs
    requires w1 == CreateRun(w, NewRun(a, due, |w.log| + 1, w.now))
    requires w.log != [] ==> LastSlot(w.log) <= due
    ensures NamesNewest(a, w1, a.SlotName(due))
  {
    var name := a.SlotName(due);
    forall n | Owned(a, w1, n) ensures w1.runs[n].slot.value <= due {
      if n != name {
        assert StaleCopy(a, w, w.runs[n]);
        StampIsPast(a, w, w.runs[n]);
      }
    }
  }

  lemma CreatedIsOnlyActive(a: Agent, w: World, due: Time)
    requires Ready(a, w) && due <= w.now && forall n :: !Active(a, w, n)
    ensures AtMostOneActive(a, CreateRun(w, NewRun(a, due, |w.log| + 1, w.now)))
  {
    var w1 := CreateRun(w, NewRun(a, due, |w.log| + 1, w.now));
    assert forall n :: n != a.SlotName(due) ==> (Active(a, w1, n) <==> Active(a, w, n));
  }

  lemma CreatedPatch(a: Agent, w: World, w1: World, forbid: bool, status: AgentStatus, patch: Write, done: Outcome)
    requires Counted(w) && JustCreated(a, w, w1, forbid, status.lastRunName)
    requires LooksAhead(w1, status) && status.runsCreated == |w1.log|
    ensures Keeps(a, w, forbid, PatchStatus(w1, status, patch, done))
  {
    PatchCounts(a, w1, forbid, status, patch, done);
  }

  /** A due slot that is within its deadline and not held back by the Forbid policy. */
  lemma DueCounts(a: Agent, w: World, seen: Observed, f: Faults)
    requires Inv(a, w) && Counted(w) && w.policy.Some? && SeesAll(a, w, seen)
    requires w.status.observedGeneration == w.generation && w.status.nextScheduleTime.Some?
    ensures var policy := w.policy.value;
            var pair := LatestDueOf(policy.schedule, w.status.nextScheduleTime.value, w.now);
            var status := BaseStatus(w.status, w.generation, seen).(nextScheduleTime := Some(pair.next));
            pair.due.Some? && pair.due.value !in seen.bySlot && (policy.forbid ==> !seen.hasActive) ==>
              Keeps(a, w, policy.forbid,
                    CreateForSlot(a, w, status, pair.due.value, seen.LatestDue(), RequeueFor(w.now, pair.next), f))
  {
    var policy := w.policy.value;
    BaseCounts(a, w, seen);
    var pair := LatestDueOf(policy.schedule, w.status.nextScheduleTime.value, w.now);
    var status := BaseStatus(w.status, w.generation, seen).(nextScheduleTime := Some(pair.next));
    if pair.due.Some? && pair.due.value !in seen.bySlot && (policy.forbid ==> !seen.hasActive) {
      assert AboutToCreate(a, w, status, pair.due.value);
      CreateCounts(a, w, seen, status, pair.due.value, RequeueFor(w.now, pair.next), policy.forbid, f);
    }
    hide Keeps, SeesAll, CreateForSlot;
  }

  /** The status of a due or waiting schedule before its reason is known. */
  ghost function DueStatus(w: World, seen: Observed): AgentStatus
    requires w.policy.Some? && Cron(w.policy.value.schedule) && w.status.nextScheduleTime.Some?
  {
    BaseStatus(w.status, w.generation, seen).(
      nextScheduleTime := Some(LatestDueOf(w.policy.value.schedule, w.status.nextScheduleTime.value, w.now).next))
  }

  /** The ways in which the slot decision ends, given the status it writes. */
  lemma DueOutcomes(a: Agent, w: World, seen: Observed, f: Faults)
    requires Ready(a, w) && w.policy.Some? && w.status.nextScheduleTime.Some?
    ensures var p, status := w.policy.value, DueStatus(w, seen);
            var pair := LatestDueOf(p.schedule, w.status.nextScheduleTime.value, w.now);
            var later, result := RequeueFor(w.now, pair.next), DecideDue(a, w, p, seen, f);
            || result == PatchStatus(w, status.(reason := WaitingForSchedule), f.patch, later)
            || result == PatchStatus(w, status.(reason := MissedDeadline), f.patch, later)
            || result == PatchStatus(w, status.(reason := OverlapSkipped), f.patch, later)
            || result == (w, Aborted)
            || (pair.due.Some? && pair.due.value in seen.bySlot
                && result == PatchStatus(w, RecoverStatus(status, seen.bySlot[pair.due.value], pair.due.value,
                                                          seen.LatestDue()).(reason := RunCreated), f.patch, later))
            || (pair.due.Some? && pair.due.value !in seen.bySlot && (p.forbid ==> !seen.hasActive)
                && result == CreateForSlot(a, w, status, pair.due.value, seen.LatestDue(), later, f))
  {
    hide PatchStatus, CreateForSlot, Observed.LatestDue, LaterOf, Overdue, BaseStatus, RequeueFor, RecoverStatus, LatestDueOf;
  }

  lemma DueStatusCounts(a: Agent, w: World, seen: Observed)
    requires Inv(a, w) && Counted(w) && w.policy.Some? && SeesAll(a, w, seen) && w.status.nextScheduleTime.Some?
    ensures var status := DueStatus(w, seen);
            LooksAhead(w, status) && status.runsCreated == |w.log| && NamesNewest(a, w, status.lastRunName)
  {
    BaseCounts(a, w, seen);
    hide SeesAll, NamesNewest, Counted;
  }

  lemma DecideDueCounts(a: Agent, w: World, seen: Observed, f: Faults)
    requires Inv(a, w) && Counted(w) && w.policy.Some? && SeesAll(a, w, seen)
    requires w.status.observedGeneration == w.generation && w.status.nextScheduleTime.Some?
    ensures Keeps(a, w, w.policy.value.forbid, DecideDue(a, w, w.policy.value, seen, f))
  {
    assert Ready(a, w);
    hide Inv, Keeps, SeesAll, PatchStatus, CreateForSlot, NamesNewest, Counted, Observed.LatestDue, LaterOf, Overdue,
         BaseStatus, RequeueFor, RecoverStatus, DecideDue;
    var policy, status := w.policy.value, DueStatus(w, seen);
    var pair := LatestDueOf(policy.schedule, w.status.nextScheduleTime.value, w.now);
    var later := RequeueFor(w.now, pair.next);
    DueOutcomes(a, w, seen, f);
    DueStatusCounts(a, w, seen);
    UnchangedKeeps(a, w, policy.forbid, Aborted);
    PatchCounts(a, w, policy.forbid, status.(reason := WaitingForSchedule), f.patch, later);
    PatchCounts(a, w, policy.forbid, status.(reason := MissedDeadline), f.patch, later);
    PatchCounts(a, w, policy.forbid, status.(reason := OverlapSkipped), f.patch, later);
    DueCounts(a, w, seen, f);
    if pair.due.Some? && pair.due.value in seen.bySlot {
      FoundCounts(a, w, seen, status, pair.due.value, policy.forbid, f.patch, later);
    }
  }

  lemma FoundCounts(a: Agent, w: World, seen: Observed, status: AgentStatus, due: Time, forbid: bool,
                    patch: Write, later: Outcome)
    requires Inv(a, w) && Counted(w) && SeesAll(a, w, seen) && due in seen.bySlot
    requires status.runsCreated == |w.log| && NamesNewest(a, w, status.lastRunName) && LooksAhead(w, status)
    ensures var found := RecoverStatus(status, seen.bySlot[due], due, seen.LatestDue());
            Keeps(a, w, forbid, PatchStatus(w, found.(reason := RunCreated), patch, later))
  {
    RecoverCounts(a, w, seen, status, due);
    var found := RecoverStatus(status, seen.bySlot[due], due, seen.LatestDue());
    PatchCounts(a, w, forbid, found.(reason := RunCreated), patch, later);
    hide *;
  }

  lemma DecideCounts(a: Agent, w: World, seen: Observed, f: Faults)
    requires Inv(a, w) && Counted(w) && w.policy.Some? && SeesAll(a, w, seen)
    ensures Keeps(a, w, w.policy.value.forbid, DecideSlot(a, w, w.policy.value, seen, f))
  {
    assert Ready(a, w);
    hide Inv, Keeps, SeesAll, PatchStatus, DecideDue, NamesNewest, Counted, Observed.LatestDue, LaterOf;
    BaseCounts(a, w, seen);
    PatchesCount(a, w, w.policy.value.forbid);
    if w.status.observedGeneration == w.generation && w.status.nextScheduleTime.Some? {
      DecideDueCounts(a, w, seen, f);
    }
  }

  lemma PrunedCounts(a: Agent, w: World, items: seq<Run>, policy: Policy)
    requires Inv(a, w) && Counted(w) && FreshList(a, w, items) && StaleList(a, w, items)
    requires policy.successLimit >= 1 && policy.failedLimit >= 1
    ensures var doomed := Doomed(items, policy.successLimit, policy.failedLimit);
            && Inv(a, w.(runs := w.runs - Names(doomed)))
            && DistinctNames(Retained(items, Names(doomed)))
            && SeesAll(a, w.(runs := w.runs - Names(doomed)),
                       Observe(Retained(items, Names(doomed))).(maxCount := |w.log|))
            && Observe(Retained(items, Names(doomed))).maxCount <= |w.log|
  {
    var doomed := Doomed(items, policy.successLimit, policy.failedLimit);
    if w.log != [] { NewestNotDoomed(a, w, items, policy.successLimit, policy.failedLimit); }
    DeleteKeepsInv(a, w, Names(doomed));
    forall r | r in doomed ensures r in items {
      DoomedAreOldTerminal(items, policy.successLimit, policy.failedLimit, r);
    }
    FreshAfterPrune(a, w, items, doomed);
    var w1 := w.(runs := w.runs - Names(doomed));
    var kept := Retained(items, Names(doomed));
    FreshMaxCount(a, w1, kept);
    FreshSeesAll(a, w1, kept, Observe(kept).(maxCount := |w.log|));
  }

  /** Deleting some of the runs of a cluster adds no active ones. */
  lemma DeletedKeeps(a: Agent, w: World, gone: set<string>, forbid: bool)
    requires Counted(w) && Inv(a, w.(runs := w.runs - gone))
    ensures Keeps(a, w, forbid, (w.(runs := w.runs - gone), Aborted))
  {
    var w1 := w.(runs := w.runs - gone);
    assert forall n :: Active(a, w1, n) ==> Active(a, w, n);
  }

  lemma KeepsFromPruned(a: Agent, w: World, gone: set<string>, forbid: bool, result: (World, Outcome))
    requires Keeps(a, w.(runs := w.runs - gone), forbid, result)
    ensures Keeps(a, w, forbid, result)
  {
    var w1 := w.(runs := w.runs - gone);
    assert forall n :: Active(a, w1, n) ==> Active(a, w, n);
  }

  lemma FreshReconcileCounts(a: Agent, w: World, listed: seq<Run>, f: Faults)
    requires Inv(a, w) && Counted(w) && FreshList(a, w, listed) && Positive(w.policy)
    ensures Keeps(a, w, w.policy.Some? && w.policy.value.forbid, Reconcile(a, w, listed, f))
  {
    SortByName(listed);
    var items := Sort(ByName, listed);
    FreshIsStale(a, w, items);
    FreshMaxCount(a, w, items);
    UnchangedKeeps(a, w, w.policy.Some? && w.policy.value.forbid, Aborted);
    if w.policy.None? {
      FreshSeesAll(a, w, items, Observe(items));
      BaseCounts(a, w, Observe(items));
      PatchesCount(a, w, false);
      hide Keeps, SeesAll, PatchStatus, NamesNewest, Inv;
    } else {
      FreshPruneStopped(a, w, items, f);
      FreshValidPolicy(a, w, items, f);
      hide Keeps, Inv, DecideSlot, Observe, Doomed;
    }
  }

  /** The decision after a prune, judged against the cluster before it. */
  lemma DecideAfterPrune(a: Agent, w: World, gone: set<string>, seen: Observed, f: Faults)
    requires Counted(w) && w.policy.Some?
    requires Inv(a, w.(runs := w.runs - gone)) && SeesAll(a, w.(runs := w.runs - gone), seen)
    ensures Keeps(a, w, w.policy.value.forbid, DecideSlot(a, w.(runs := w.runs - gone), w.policy.value, seen, f))
  {
    var w1 := w.(runs := w.runs - gone);
    assert Counted(w1);
    DecideCounts(a, w1, seen, f);
    KeepsFromPruned(a, w, gone, w.policy.value.forbid, DecideSlot(a, w1, w.policy.value, seen, f));
    hide *;
  }

  /** A complete prune and the decision after it. */
  lemma FreshValidPolicy(a: Agent, w: World, items: seq<Run>, f: Faults)
    requires Inv(a, w) && Counted(w) && FreshList(a, w, items) && StaleList(a, w, items)
    requires Positive(w.policy) && w.policy.Some?
    ensures var policy := w.policy.value;
            var doomed := Doomed(items, policy.successLimit, policy.failedLimit);
            && DistinctNames(Retained(items, Names(doomed)))
            && Observe(Retained(items, Names(doomed))).maxCount <= |w.log|
            && Keeps(a, w, policy.forbid,
                     DecideSlot(a, w.(runs := w.runs - Names(doomed)), policy,
                                Observe(Retained(items, Names(doomed))).(maxCount := |w.log|), f))
  {
    var policy := w.policy.value;
    var doomed := Doomed(items, policy.successLimit, policy.failedLimit);
    PrunedCounts(a, w, items, policy);
    var seen := Observe(Retained(items, Names(doomed))).(maxCount := |w.log|);
    DecideAfterPrune(a, w, Names(doomed), seen, f);
    hide *;
  }

  lemma FreshPruneStopped(a: Agent, w: World, items: seq<Run>, f: Faults)
    requires Inv(a, w) && Counted(w) && StaleList(a, w, items)
    requires Positive(w.policy) && w.policy.Some?
    ensures var policy := w.policy.value;
            var doomed := Doomed(items, policy.successLimit, policy.failedLimit);
            PruneStops(f.stopAfter, doomed) ==>
              Keeps(a, w, policy.forbid, (w.(runs := w.runs - Names(doomed[..f.stopAfter.value])), Aborted))
  {
    var policy := w.policy.value;
    var doomed := Doomed(items, policy.successLimit, policy.failedLimit);
    if PruneStops(f.stopAfter, doomed) {
      if w.log != [] { NewestNotDoomed(a, w, items, policy.successLimit, policy.failedLimit); }
      assert Names(doomed[..f.stopAfter.value]) <= Names(doomed);
      DeleteKeepsInv(a, w, Names(doomed[..f.stopAfter.value]));
      DeletedKeeps(a, w, Names(doomed[..f.stopAfter.value]), policy.forbid);
    }
  }

  /* Whole runs */

  ghost predicate FreshLists(a: Agent, ws: seq<World>, es: seq<Event>)
    requires |ws| == |es| + 1
  {
    forall i :: 0 <= i < |es| && es[i].ReconcileWith? ==> FreshList(a, ws[i], es[i].listed)
  }

  ghost predicate AlwaysForbids(ws: seq<World>) {
    forall i :: 0 <= i < |ws| && ws[i].policy.Some? ==> ws[i].policy.value.forbid
  }

  lemma FreshStep(a: Agent, w: World, e: Event)
    requires Inv(a, w) && Counted(w) && Enabled(a, w, e) && Positive(w.policy)
    requires e.ReconcileWith? ==> FreshList(a, w, e.listed)
    ensures Counted(Step(a, w, e))
    ensures AtMostOneActive(a, w) && (w.policy.Some? ==> w.policy.value.forbid) ==>
              AtMostOneActive(a, Step(a, w, e))
  {
    var w' := Step(a, w, e);
    if e.ReconcileWith? {
      FreshReconcileCounts(a, w, e.listed, e.faults);
      if w.policy.None? { FreshInvalidPolicy(a, w, e.listed, e.faults); }
      hide Reconcile, Inv, Counted, AtMostOneActive;
    } else {
      assert forall n :: Active(a, w', n) ==> Active(a, w, n);
    }
  }

  lemma FreshInvalidPolicy(a: Agent, w: World, listed: seq<Run>, f: Faults)
    requires Inv(a, w) && DistinctNames(listed) && w.policy.None?
    ensures AtMostOneActive(a, w) ==> AtMostOneActive(a, Reconcile(a, w, listed, f).0)
  {
    var w' := Reconcile(a, w, listed, f).0;
    assert forall n :: Active(a, w', n) ==> Active(a, w, n);
  }

  lemma {:induction false} ExecutionKeepsCounts(a: Agent, ws: seq<World>, es: seq<Event>)
    requires Execution(a, ws, es) && PositiveLimits(ws) && FreshLists(a, ws, es)
    ensures Counted(ws[|es|])
    ensures AlwaysForbids(ws) ==> AtMostOneActive(a, ws[|es|])
    decreases |es|
  {
    hide Step, Enabled;
    if es == [] {
      assert forall n :: !Active(a, ws[0], n);
    } else {
      var n := |es| - 1;
      ExecutionPrefix(a, ws, es);
      ExecutionKeepsCounts(a, ws[..|es|], es[..n]);
      ExecutionKeepsInv(a, ws[..|es|], es[..n]);
      FreshStep(a, ws[n], es[n]);
    }
  }

  /**
   Exact counting. With current lists and any failures between Create, Delete and status patch,
   the stamped sequences are 1, 2, 3, ... and the larger of the status counter and the greatest
   retained sequence is the number of runs ever created.
   */
  lemma CountsAreExact(a: Agent, ws: seq<World>, es: seq<Event>)
    requires Execution(a, ws, es) && PositiveLimits(ws) && FreshLists(a, ws, es)
    ensures var w := ws[|es|];
            && (forall i :: 0 <= i < |w.log| ==> w.log[i].sequence == i + 1)
            && w.status.runsCreated <= |w.log|
            && (forall n :: Owned(a, w, n) ==> w.runs[n].sequence.Some? && w.runs[n].sequence.value <= |w.log|)
            && (w.log != [] ==> exists n :: Owned(a, w, n) && w.runs[n].sequence == Some(|w.log|))
  {
    var w := ws[|es|];
    ExecutionKeepsInv(a, ws, es);
    ExecutionKeepsCounts(a, ws, es);
    forall n | Owned(a, w, n) ensures w.runs[n].sequence.Some? && w.runs[n].sequence.value <= |w.log| {
      SequencesBounded(a, w, n);
    }
    if w.log != [] {
      var newest := a.SlotName(LastSlot(w.log));
      SequencesBounded(a, w, newest);
      assert Owned(a, w, newest) && w.runs[newest].sequence == Some(|w.log|);
    }
  }

  /** Under a constant Forbid policy two of the Agent's runs are never active together. */
  lemma ForbidMeansOneActive(a: Agent, ws: seq<World>, es: seq<Event>)
    requires Execution(a, ws, es) && PositiveLimits(ws) && FreshLists(a, ws, es) && AlwaysForbids(ws)
    ensures AtMostOneActive(a, ws[|es|])
  {
    ExecutionKeepsCounts(a, ws, es);
  }

  /** A reconcile that ends well leaves LastRunName on the newest retained run. */
  lemma LastRunNameIsNewest(a: Agent, ws: seq<World>, es: seq<Event>)
    requires Execution(a, ws, es) && PositiveLimits(ws) && FreshLists(a, ws, es)
    requires es != [] && es[|es| - 1].ReconcileWith?
    requires var last := es[|es| - 1];
             Ready(a, ws[|es| - 1]) && DistinctNames(last.listed)
             && StatusWritten(Reconcile(a, ws[|es| - 1], last.listed, last.faults).1)
    ensures Inv(a, ws[|es|]) && NamesNewest(a, ws[|es|], ws[|es|].status.lastRunName)
  {
    var n := |es| - 1;
    ExecutionPrefix(a, ws, es);
    ExecutionKeepsInv(a, ws[..|es|], es[..n]);
    ExecutionKeepsCounts(a, ws[..|es|], es[..n]);
    FreshReconcileCounts(a, ws[n], es[n].listed, es[n].faults);
    assert ws[n + 1] == Step(a, ws[n], es[n]);
    hide Reconcile, Execution;
  }
}
