/**
 Slot uniqueness and exact counting need both history limits to be at least 1. With a limit of 0 the
 run of a slot whose status patch failed can finish and be pruned; the slot is then run again, and
 when the reconcile that pruned it gets no further, with the same sequence.
 */
module ScheduledLimits {
  import opened Prelude
  import opened Decimal
  import opened Scheduler
  import opened Sorting
  import opened AgentRuns
  import opened ScheduledHistory
  import opened ScheduledProtocol
  import opened ScheduledRuns
  import opened ScheduledCounters

  const NO_FAULTS := Faults(false, None, Applied, false, false, Applied)
  const CREATE_FAILS := Faults(false, None, Rejected, false, false, Applied)
  const PATCH_FAILS := Faults(false, None, Applied, false, false, Rejected)

  ghost predicate Schedulable(a: Agent, p: Policy) {
    && |a.hash(a.name)| >= HASH_LENGTH
    && Cron(p.schedule) && p.schedule(0) <= MAX_INT64
    && !p.suspend
  }

  /** The newly created Agent, before its first reconcile. */
  function Start(p: Policy): World {
    World(map[], AgentStatus(0, "", None, None, 0, Unset), 1, Some(p), 0, 0, [])
  }

  /** Slot of the first reconcile that creates a run. */
  function FirstSlot(p: Policy): Time { p.schedule(0) }

  function Waiting(p: Policy, now: Time): World {
    World(map[], AgentStatus(0, "", None, Some(FirstSlot(p)), 1, ScheduleInitialized), 1, Some(p), now, 0, [])
  }

  /** The cluster when the first slot's run has phase `phase` and its status patch was lost. */
  function WithRun(a: Agent, p: Policy, phase: Phase, completedAt: Option<Time>): World
    requires Schedulable(a, p)
  {
    var run := NewRun(a, FirstSlot(p), 1, FirstSlot(p)).(phase := phase, completedAt := completedAt);
    Waiting(p, FirstSlot(p)).(runs := map[run.name := run], log := [Stamp(FirstSlot(p), 1)])
  }

  /** The phase that the limit of 0 prunes. */
  function PrunedPhase(p: Policy): Phase { if p.successLimit == 0 then Succeeded else Failed }

  lemma NothingToSee()
    ensures DistinctNames([]) && Observe([]) == NOTHING
    ensures Sort(ByName, []) == []
    ensures forall s, f: nat :: Doomed([], s, f) == []
    ensures Retained([], {}) == [] && Names([]) == {}
  {
    SummaryUnique(Observe([]), NOTHING, []);
  }

  lemma DueNow(p: Policy)
    requires Cron(p.schedule)
    ensures LatestDueOf(p.schedule, FirstSlot(p), FirstSlot(p)) == DuePair(Some(FirstSlot(p)), p.schedule(FirstSlot(p)))
  {
  }

  lemma FirstReconcile(a: Agent, p: Policy)
    requires Schedulable(a, p)
    ensures Ready(a, Start(p)) && Reconcile(a, Start(p), [], NO_FAULTS).0 == Waiting(p, 0)
  {
    NothingToSee();
    assert Start(p).runs - {} == map[];
  }

  lemma CreatesRun(a: Agent, p: Policy)
    requires Schedulable(a, p)
    ensures Ready(a, Waiting(p, FirstSlot(p)))
    ensures Reconcile(a, Waiting(p, FirstSlot(p)), [], PATCH_FAILS).0 == WithRun(a, p, Requested, None)
  {
    NothingToSee();
    DueNow(p);
    assert Start(p).runs - {} == map[];
    var w := Waiting(p, FirstSlot(p));
    assert w.(runs := w.runs - {}) == w;
    CreateFreeOutcomes(a, w, BaseStatus(w.status, 1, NOTHING).(nextScheduleTime := Some(p.schedule(FirstSlot(p)))),
                       FirstSlot(p), None, RequeueFor(FirstSlot(p), p.schedule(FirstSlot(p))), PATCH_FAILS);
  }

  /** The finished run alone is what pruning deletes. */
  lemma PrunesRun(a: Agent, p: Policy, r: Run)
    requires p.successLimit == 0 || p.failedLimit == 0
    requires r.phase == PrunedPhase(p)
    ensures DistinctNames([r]) && Sort(ByName, [r]) == [r]
    ensures Doomed([r], p.successLimit, p.failedLimit) == [r]
    ensures Names([r]) == {r.name} && Retained([r], {r.name}) == []
  {
    assert [r][1..] == [];
    assert Filter(IsSuccessful, [r]) == if r.phase.Succeeded? then [r] else [];
    assert Filter(IsFailed, [r]) == if r.phase.Succeeded? then [] else [r];
    assert Sort(Newer, [r]) == [r];
  }

  /** The first run was pruned by a reconcile that then failed to create another. */
  function Forgotten(p: Policy): World {
    Waiting(p, FirstSlot(p)).(log := [Stamp(FirstSlot(p), 1)])
  }

  /** The finished run is pruned, its sequence still counts, and the slot is looked at again. */
  lemma PrunedThenDecides(a: Agent, p: Policy, f: Faults)
    requires Schedulable(a, p) && (p.successLimit == 0 || p.failedLimit == 0) && !f.listFails && f.stopAfter.None?
    ensures var w := WithRun(a, p, PrunedPhase(p), Some(FirstSlot(p)));
            var r := w.runs[a.SlotName(FirstSlot(p))];
            && Ready(a, w) && DistinctNames([r])
            && Reconcile(a, w, [r], f) == DecideSlot(a, Forgotten(p), p, NOTHING.(maxCount := 1), f)
  {
    hide DecideSlot, Observe;
    var w := WithRun(a, p, PrunedPhase(p), Some(FirstSlot(p)));
    var r := w.runs[a.SlotName(FirstSlot(p))];
    PrunesRun(a, p, r);
    NothingToSee();
    OneSequence(r);
    assert w.runs - {r.name} == map[];
    assert w.(runs := w.runs - {r.name}) == Forgotten(p);
  }

  lemma OneSequence(r: Run)
    requires r.sequence == Some(1) && DistinctNames([r])
    ensures Observe([r]).maxCount == 1
  {
    assert r in [r];
  }

  /** The slot is still due, and nothing is in the way of its run. */
  lemma DueDecides(a: Agent, p: Policy, seen: Observed, f: Faults)
    requires Schedulable(a, p) && seen == NOTHING.(maxCount := seen.maxCount) && seen.maxCount < MAX_INT32
    ensures var w := Forgotten(p);
            var next := p.schedule(FirstSlot(p));
            var base := BaseStatus(w.status, 1, seen).(nextScheduleTime := Some(next));
            && Ready(a, w)
            && DecideSlot(a, w, p, seen, f) ==
               CreateForSlot(a, w, base, FirstSlot(p), None, RequeueFor(FirstSlot(p), next), f)
  {
    DueNow(p);
    hide CreateForSlot, LatestDueOf;
  }

  lemma RunsSlotAgain(a: Agent, p: Policy)
    requires Schedulable(a, p) && (p.successLimit == 0 || p.failedLimit == 0)
    ensures var w := WithRun(a, p, PrunedPhase(p), Some(FirstSlot(p)));
            var r := w.runs[a.SlotName(FirstSlot(p))];
            && Ready(a, w) && DistinctNames([r])
            && |Reconcile(a, w, [r], NO_FAULTS).0.log| == 2
            && Reconcile(a, w, [r], NO_FAULTS).0.log[0].slot == Reconcile(a, w, [r], NO_FAULTS).0.log[1].slot
  {
    hide Reconcile, DecideSlot;
    PrunedThenDecides(a, p, NO_FAULTS);
    DueDecides(a, p, NOTHING.(maxCount := 1), NO_FAULTS);
    var next := p.schedule(FirstSlot(p));
    var base := BaseStatus(Forgotten(p).status, 1, NOTHING.(maxCount := 1)).(nextScheduleTime := Some(next));
    CreateFreeOutcomes(a, Forgotten(p), base, FirstSlot(p), None, RequeueFor(FirstSlot(p), next), NO_FAULTS);
    hide CreateForSlot;
  }

  /** `e` takes `w` to `next`. */
  ghost predicate Takes(a: Agent, w: World, e: Event, next: World) {
    Ready(a, w) && Enabled(a, w, e) && next == Step(a, w, e)
  }

  lemma FirstTakes(a: Agent, p: Policy)
    requires Schedulable(a, p)
    ensures Takes(a, Start(p), ReconcileWith([], NO_FAULTS), Waiting(p, 0))
    ensures Takes(a, Waiting(p, 0), Tick(FirstSlot(p), 0), Waiting(p, FirstSlot(p)))
    ensures Takes(a, Waiting(p, FirstSlot(p)), ReconcileWith([], PATCH_FAILS), WithRun(a, p, Requested, None))
  {
    FirstReconcile(a, p);
    CreatesRun(a, p);
    hide Reconcile;
  }

  lemma FinishTakes(a: Agent, p: Policy)
    requires Schedulable(a, p)
    ensures Takes(a, WithRun(a, p, Requested, None),
                  Progress(a.SlotName(FirstSlot(p)), PrunedPhase(p), Some(FirstSlot(p))),
                  WithRun(a, p, PrunedPhase(p), Some(FirstSlot(p))))
  {
    var before := WithRun(a, p, Requested, None);
    var after := WithRun(a, p, PrunedPhase(p), Some(FirstSlot(p)));
    var name := a.SlotName(FirstSlot(p));
    assert after.runs == before.runs[name := after.runs[name]];
  }

  lemma RepeatTakes(a: Agent, p: Policy)
    requires Schedulable(a, p) && (p.successLimit == 0 || p.failedLimit == 0)
    ensures var w := WithRun(a, p, PrunedPhase(p), Some(FirstSlot(p)));
            var e := ReconcileWith([w.runs[a.SlotName(FirstSlot(p))]], NO_FAULTS);
            Ready(a, w) && Enabled(a, w, e) && Takes(a, w, e, Step(a, w, e)) && !SlotsIncrease(Step(a, w, e).log)
            && Step(a, w, e).policy == Some(p)
  {
    RunsSlotAgain(a, p);
    var w := WithRun(a, p, PrunedPhase(p), Some(FirstSlot(p)));
    assert StaleCopy(a, w, w.runs[a.SlotName(FirstSlot(p))]) by {
      assert w.log[0] == Stamp(FirstSlot(p), 1);
    }
    PolicyConstant(a, w, [w.runs[a.SlotName(FirstSlot(p))]], NO_FAULTS);
    hide Reconcile;
  }

  lemma PolicyConstant(a: Agent, w: World, listed: seq<Run>, f: Faults)
    requires Ready(a, w) && DistinctNames(listed)
    ensures Reconcile(a, w, listed, f).0.policy == w.policy
  {
    SortByName(listed);
    var items := Sort(ByName, listed);
    if !f.listFails && w.policy.Some? {
      var doomed := Doomed(items, w.policy.value.successLimit, w.policy.value.failedLimit);
      RetainedDistinct(items, Names(doomed));
      var kept := Observe(Retained(items, Names(doomed)));
      DecideKeepsPolicy(a, w.(runs := w.runs - Names(doomed)),
                        kept.(maxCount := Max(Observe(items).maxCount, kept.maxCount)), f);
    }
    hide DecideSlot, Observe, Doomed, DistinctNames, Retained, Cron;
  }

  lemma DecideKeepsPolicy(a: Agent, w: World, seen: Observed, f: Faults)
    requires Ready(a, w) && w.policy.Some?
    ensures DecideSlot(a, w, w.policy.value, seen, f).0.policy == w.policy
  {
    hide CreateForSlot, Observed.LatestDue, LaterOf, LatestDueOf, Cron;
    forall status, due: Time, latest, later | due <= w.now
      ensures CreateForSlot(a, w, status, due, latest, later, f).0.policy == w.policy
    {
      CreateKeepsPolicy(a, w, status, due, latest, later, f);
    }
  }

  lemma CreateKeepsPolicy(a: Agent, w: World, status: AgentStatus, due: Time, latest: Option<Time>,
                          later: Outcome, f: Faults)
    requires Ready(a, w) && due <= w.now
    ensures CreateForSlot(a, w, status, due, latest, later, f).0.policy == w.policy
  {
    if a.SlotName(due) !in w.runs { CreateFreeOutcomes(a, w, status, due, latest, later, f); }
  }

  ghost predicate ConstantPolicy(ws: seq<World>, p: Policy) {
    forall i :: 0 <= i < |ws| ==> ws[i].policy == Some(p)
  }

  /** Some execution whose schedule is `p` throughout ends in `w`. */
  ghost predicate Reachable(a: Agent, p: Policy, w: World) {
    exists ws: seq<World>, es: seq<Event> ::
      Execution(a, ws, es) && ConstantPolicy(ws, p) && ws[|es|] == w
  }

  /** Even one in which every list shows the runs as they are. */
  ghost predicate ReachableFresh(a: Agent, p: Policy, w: World) {
    exists ws: seq<World>, es: seq<Event> ::
      Execution(a, ws, es) && ConstantPolicy(ws, p) && FreshLists(a, ws, es) && ws[|es|] == w
  }

  lemma FreshIsReachable(a: Agent, p: Policy, w: World)
    requires ReachableFresh(a, p, w)
    ensures Reachable(a, p, w)
  {
    hide Execution, FreshLists;
  }

  lemma ReachableStep(a: Agent, p: Policy, w: World, e: Event, next: World)
    requires ReachableFresh(a, p, w) && Takes(a, w, e, next) && next.policy == Some(p)
    requires e.ReconcileWith? ==> FreshList(a, w, e.listed)
    ensures ReachableFresh(a, p, next)
  {
    hide Step, Enabled, Ready, Initial, FreshList;
    var ws: seq<World>, es: seq<Event> :|
      Execution(a, ws, es) && ConstantPolicy(ws, p) && FreshLists(a, ws, es) && ws[|es|] == w;
    var ws', es' := ws + [next], es + [e];
    assert Execution(a, ws', es') && ConstantPolicy(ws', p) && ws'[|es'|] == next;
    assert FreshLists(a, ws', es') by {
      assert forall i :: 0 <= i < |es| ==> es'[i] == es[i] && ws'[i] == ws[i];
    }
  }

  lemma StartReachable(a: Agent, p: Policy)
    requires Schedulable(a, p)
    ensures ReachableFresh(a, p, Start(p))
  {
    assert Execution(a, [Start(p)], []) && ConstantPolicy([Start(p)], p) && FreshLists(a, [Start(p)], []);
  }

  lemma EmptyIsFresh(a: Agent, w: World)
    requires w.runs == map[]
    ensures FreshList(a, w, [])
  {
  }

  /** The list of the one run there is. */
  lemma LoneRunIsFresh(a: Agent, p: Policy, phase: Phase, completedAt: Option<Time>)
    requires Schedulable(a, p)
    ensures var w := WithRun(a, p, phase, completedAt); FreshList(a, w, [w.runs[a.SlotName(FirstSlot(p))]])
  {
    hide Agent.SlotName;
  }

  lemma RunReachable(a: Agent, p: Policy)
    requires Schedulable(a, p)
    ensures ReachableFresh(a, p, WithRun(a, p, PrunedPhase(p), Some(FirstSlot(p))))
  {
    hide Takes, ReachableFresh, Agent.SlotName, PrunedPhase, FreshList;
    var slot := FirstSlot(p);
    StartReachable(a, p);
    FirstTakes(a, p);
    FinishTakes(a, p);
    EmptyIsFresh(a, Start(p));
    EmptyIsFresh(a, Waiting(p, slot));
    ReachableStep(a, p, Start(p), ReconcileWith([], NO_FAULTS), Waiting(p, 0));
    ReachableStep(a, p, Waiting(p, 0), Tick(slot, 0), Waiting(p, slot));
    ReachableStep(a, p, Waiting(p, slot), ReconcileWith([], PATCH_FAILS), WithRun(a, p, Requested, None));
    ReachableStep(a, p, WithRun(a, p, Requested, None), Progress(a.SlotName(slot), PrunedPhase(p), Some(slot)),
                  WithRun(a, p, PrunedPhase(p), Some(slot)));
  }

  /** Initialise, create with a lost status, finish, prune, and the slot is run again. */
  lemma ZeroLimitRepeatsSlot(a: Agent, p: Policy) returns (w: World)
    requires Schedulable(a, p) && (p.successLimit == 0 || p.failedLimit == 0)
    ensures ReachableFresh(a, p, w) && !SlotsIncrease(w.log)
  {
    var finished := WithRun(a, p, PrunedPhase(p), Some(FirstSlot(p)));
    var last := ReconcileWith([finished.runs[a.SlotName(FirstSlot(p))]], NO_FAULTS);
    RunReachable(a, p);
    RepeatTakes(a, p);
    LoneRunIsFresh(a, p, PrunedPhase(p), Some(FirstSlot(p)));
    w := Step(a, finished, last);
    hide Takes, ReachableFresh, Step, Enabled, Agent.SlotName, PrunedPhase, SlotsIncrease, FreshList;
    ReachableStep(a, p, finished, last, w);
  }

  /** Exactly when a fixed, unsuspended schedule never runs a slot twice. */
  lemma UniqueIffLimitsPositive(a: Agent, p: Policy)
    requires Schedulable(a, p)
    ensures (forall w :: Reachable(a, p, w) ==> SlotsIncrease(w.log))
       <==> p.successLimit >= 1 && p.failedLimit >= 1
  {
    hide SlotsIncrease, Step, Enabled, Initial, ReachableFresh;
    if p.successLimit >= 1 && p.failedLimit >= 1 {
      forall w | Reachable(a, p, w) ensures SlotsIncrease(w.log) {
        var ws: seq<World>, es: seq<Event> :| Execution(a, ws, es) && ConstantPolicy(ws, p) && ws[|es|] == w;
        OneRunPerSlot(a, ws, es);
      }
    } else {
      var w := ZeroLimitRepeatsSlot(a, p);
      FreshIsReachable(a, p, w);
    }
  }

  /* Sequences */

  ghost predicate SequencesExact(log: seq<Stamp>) {
    forall i :: 0 <= i < |log| ==> log[i].sequence == i + 1
  }

  lemma PruneTakes(a: Agent, p: Policy)
    requires Schedulable(a, p) && (p.successLimit == 0 || p.failedLimit == 0)
    ensures var w := WithRun(a, p, PrunedPhase(p), Some(FirstSlot(p)));
            Takes(a, w, ReconcileWith([w.runs[a.SlotName(FirstSlot(p))]], CREATE_FAILS), Forgotten(p))
  {
    hide Reconcile, DecideSlot, Forgotten;
    var w := WithRun(a, p, PrunedPhase(p), Some(FirstSlot(p)));
    PrunedThenDecides(a, p, CREATE_FAILS);
    DueDecides(a, p, NOTHING.(maxCount := 1), CREATE_FAILS);
    assert StaleCopy(a, w, w.runs[a.SlotName(FirstSlot(p))]) by {
      assert w.log[0] == Stamp(FirstSlot(p), 1);
    }
  }

  lemma SameSequenceAgain(a: Agent, p: Policy)
    requires Schedulable(a, p)
    ensures Ready(a, Forgotten(p)) && Enabled(a, Forgotten(p), ReconcileWith([], NO_FAULTS))
    ensures var next := Step(a, Forgotten(p), ReconcileWith([], NO_FAULTS));
            next.log == [Stamp(FirstSlot(p), 1), Stamp(FirstSlot(p), 1)] && next.policy == Some(p)
  {
    hide DecideSlot;
    NothingToSee();
    var w := Forgotten(p);
    assert w.(runs := w.runs - {}) == w;
    DueDecides(a, p, NOTHING, NO_FAULTS);
    var next := p.schedule(FirstSlot(p));
    var base := BaseStatus(w.status, 1, NOTHING).(nextScheduleTime := Some(next));
    CreateFreeOutcomes(a, w, base, FirstSlot(p), None, RequeueFor(FirstSlot(p), next), NO_FAULTS);
    assert Reconcile(a, w, [], NO_FAULTS) == DecideSlot(a, w, p, NOTHING, NO_FAULTS);
    PolicyConstant(a, w, [], NO_FAULTS);
    hide CreateForSlot, Reconcile;
  }

  /** A lost status, a prune whose Create fails, and the next run is numbered 1 again. */
  lemma ZeroLimitRepeatsSequence(a: Agent, p: Policy) returns (w: World)
    requires Schedulable(a, p) && (p.successLimit == 0 || p.failedLimit == 0)
    ensures ReachableFresh(a, p, w) && !SequencesExact(w.log)
    ensures |w.log| == 2 && w.log[0].sequence == w.log[1].sequence == 1
  {
    RunReachable(a, p);
    PruneReaches(a, p);
    SameSequenceAgain(a, p);
    EmptyIsFresh(a, Forgotten(p));
    hide ReachableFresh, Step, Enabled, Ready, FreshList, FirstSlot, SequencesExact;
    w := Step(a, Forgotten(p), ReconcileWith([], NO_FAULTS));
    ReachableStep(a, p, Forgotten(p), ReconcileWith([], NO_FAULTS), w);
    TwoOnes(FirstSlot(p));
  }

  lemma TwoOnes(slot: Time)
    ensures !SequencesExact([Stamp(slot, 1), Stamp(slot, 1)])
  {
    var log := [Stamp(slot, 1), Stamp(slot, 1)];
    assert log[1].sequence == 1;
  }

  lemma PruneReaches(a: Agent, p: Policy)
    requires Schedulable(a, p) && (p.successLimit == 0 || p.failedLimit == 0)
    requires ReachableFresh(a, p, WithRun(a, p, PrunedPhase(p), Some(FirstSlot(p))))
    ensures ReachableFresh(a, p, Forgotten(p))
  {
    hide ReachableFresh, Takes, FreshList, WithRun, Agent.SlotName, PrunedPhase;
    LoneRunIsFresh(a, p, PrunedPhase(p), Some(FirstSlot(p)));
    PruneTakes(a, p);
    RunThere(a, p);
    var finished := WithRun(a, p, PrunedPhase(p), Some(FirstSlot(p)));
    ReachableStep(a, p, finished, ReconcileWith([finished.runs[a.SlotName(FirstSlot(p))]], CREATE_FAILS), Forgotten(p));
  }

  lemma RunThere(a: Agent, p: Policy)
    requires Schedulable(a, p)
    ensures |a.hash(a.name)| >= HASH_LENGTH && FirstSlot(p) <= MAX_INT64
    ensures a.SlotName(FirstSlot(p)) in WithRun(a, p, PrunedPhase(p), Some(FirstSlot(p))).runs
    ensures Forgotten(p).policy == Some(p)
  {
  }

  /** Exactly when, with current lists, a fixed, unsuspended schedule numbers its runs 1, 2, 3 and so on. */
  lemma CountedIffLimitsPositive(a: Agent, p: Policy)
    requires Schedulable(a, p)
    ensures (forall w :: ReachableFresh(a, p, w) ==> SequencesExact(w.log))
       <==> p.successLimit >= 1 && p.failedLimit >= 1
  {
    hide Step, Enabled, Initial, FreshList, SequencesExact;
    if p.successLimit >= 1 && p.failedLimit >= 1 {
      forall w | ReachableFresh(a, p, w) ensures SequencesExact(w.log) {
        var ws: seq<World>, es: seq<Event> :|
          Execution(a, ws, es) && ConstantPolicy(ws, p) && FreshLists(a, ws, es) && ws[|es|] == w;
        SequencesFromCounts(a, ws, es);
      }
    } else {
      var w := ZeroLimitRepeatsSequence(a, p);
    }
  }

  lemma SequencesFromCounts(a: Agent, ws: seq<World>, es: seq<Event>)
    requires Execution(a, ws, es) && PositiveLimits(ws) && FreshLists(a, ws, es)
    ensures SequencesExact(ws[|es|].log)
  {
    CountsAreExact(a, ws, es);
    hide Execution, FreshLists;
  }
}
