/** Whole runs of a Scheduled Agent: any interleaving of reconciles, progress, edits and time. */
module ScheduledRuns {
  import opened Prelude
  import opened Decimal
  import opened Scheduler
  import opened Sorting
  import opened AgentRuns
  import opened ScheduledHistory
  import opened ScheduledProtocol

  /**
   Everything that can happen between two looks at the cluster. `Progress` is the AgentRun
   controller at work: it never touches a terminal run. Runs of the Agent itself are only
   created and deleted by its reconciler; `ForeignCreate` and `ForeignDelete` are everyone else.
   */
  datatype Event =
    | ReconcileWith(listed: seq<Run>, faults: Faults)
    | Progress(name: string, phase: Phase, completedAt: Option<Time>)
    | Edit(policy: Option<Policy>)
    | Tick(now: Time, nanos: nat)
    | ForeignCreate(run: Run)
    | ForeignDelete(name: string)

  ghost predicate Owned(a: Agent, w: World, name: string) {
    name in w.runs && w.runs[name].owner == a.uid
  }

  /** A listed child is some earlier state of a run that this controller created. */
  ghost predicate StaleCopy(a: Agent, w: World, r: Run)
    requires Ready(a, w)
  {
    && r.owner == a.uid
    && r.slot.Some? && r.sequence.Some? && r.slot.value <= MAX_INT64
    && r.name == a.SlotName(r.slot.value)
    && Stamp(r.slot.value, r.sequence.value) in w.log
    && (r.phase.IsTerminal() && Owned(a, w, r.name) ==> w.runs[r.name].phase == r.phase)
  }

  ghost predicate StaleList(a: Agent, w: World, listed: seq<Run>)
    requires Ready(a, w)
  {
    DistinctNames(listed) && forall r :: r in listed ==> StaleCopy(a, w, r)
  }

  /** A list that shows exactly the Agent's runs as they are. */
  ghost predicate FreshList(a: Agent, w: World, listed: seq<Run>) {
    && DistinctNames(listed)
    && forall r :: r in listed <==> Owned(a, w, r.name) && w.runs[r.name] == r
  }

  ghost predicate Enabled(a: Agent, w: World, e: Event)
    requires Ready(a, w)
  {
    match e
    case ReconcileWith(listed, _) => StaleList(a, w, listed)
    case Progress(name, _, _) => name in w.runs && !w.runs[name].phase.IsTerminal()
    case Edit(policy) => policy.Some? ==> Cron(policy.value.schedule)
    case Tick(now, _) => w.now <= now <= MAX_INT64
    case ForeignCreate(run) => run.owner != a.uid && run.name !in w.runs
    case ForeignDelete(name) => name in w.runs && w.runs[name].owner != a.uid
  }

  ghost function Step(a: Agent, w: World, e: Event): World
    requires Ready(a, w) && Enabled(a, w, e)
  {
    match e
    case ReconcileWith(listed, faults) => Reconcile(a, w, listed, faults).0
    case Progress(name, phase, completedAt) =>
      w.(runs := w.runs[name := w.runs[name].(phase := phase, completedAt := completedAt)])
    case Edit(policy) => w.(generation := w.generation + 1, policy := policy)
    case Tick(now, nanos) => w.(now := now, nanos := nanos)
    case ForeignCreate(run) => w.(runs := w.runs[run.name := run])
    case ForeignDelete(name) => w.(runs := w.runs - {name})
  }

  ghost predicate Positive(policy: Option<Policy>) {
    policy.Some? ==> policy.value.successLimit >= 1 && policy.value.failedLimit >= 1
  }

  /** The cluster when the Agent is created. */
  ghost predicate Initial(a: Agent, w: World) {
    && Ready(a, w)
    && w.generation == 1
    && w.status == AgentStatus(0, "", None, None, 0, Unset)
    && w.log == []
    && forall n :: n in w.runs ==> w.runs[n].name == n && w.runs[n].owner != a.uid
  }

  /** `ws` is a run of the system driven by `es`. */
  ghost predicate Execution(a: Agent, ws: seq<World>, es: seq<Event>) {
    && |ws| == |es| + 1
    && Initial(a, ws[0])
    && forall i :: 0 <= i < |es| ==>
         Ready(a, ws[i]) && Enabled(a, ws[i], es[i]) && ws[i + 1] == Step(a, ws[i], es[i])
  }

  ghost predicate PositiveLimits(ws: seq<World>) {
    forall i :: 0 <= i < |ws| ==> Positive(ws[i].policy)
  }

  /* The invariant behind slot uniqueness */

  function LastSlot(log: seq<Stamp>): Time
    requires log != []
  {
    log[|log| - 1].slot
  }

  ghost predicate SlotsIncrease(log: seq<Stamp>) {
    forall i, j :: 0 <= i < j < |log| ==> log[i].slot < log[j].slot
  }

  ghost predicate OwnedRunsStamped(a: Agent, w: World)
    requires Ready(a, w)
  {
    forall n :: n in w.runs ==>
      && w.runs[n].name == n
      && (w.runs[n].owner == a.uid ==> StaleCopy(a, w, w.runs[n]))
  }

  ghost predicate LogPast(w: World) {
    SlotsIncrease(w.log) && forall i :: 0 <= i < |w.log| ==> w.log[i].slot <= w.now
  }

  /** The run of the newest slot is still in the cluster. */
  ghost predicate NewestRetained(a: Agent, w: World)
    requires Ready(a, w)
  {
    w.log != [] ==>
      && LastSlot(w.log) <= MAX_INT64
      && Owned(a, w, a.SlotName(LastSlot(w.log)))
      && w.runs[a.SlotName(LastSlot(w.log))].slot == Some(LastSlot(w.log))
  }

  /** The persisted next slot is past the newest run's slot, or still leads up to it. */
  ghost predicate NextLeadsOn(w: World) {
    w.log != [] && w.policy.Some? && Cron(w.policy.value.schedule) &&
    w.status.observedGeneration == w.generation && w.status.nextScheduleTime.Some? ==>
      var next := w.status.nextScheduleTime.value;
      next > LastSlot(w.log) || Fires(w.policy.value.schedule, next, LastSlot(w.log))
  }

  ghost predicate Inv(a: Agent, w: World) {
    && Ready(a, w)
    && w.status.observedGeneration <= w.generation
    && OwnedRunsStamped(a, w)
    && LogPast(w)
    && NewestRetained(a, w)
    && NextLeadsOn(w)
  }

  lemma InitialInv(a: Agent, w: World)
    requires Initial(a, w)
    ensures Inv(a, w)
  {
  }

  lemma SlotOfName(a: Agent, s: Time, t: Time)
    requires |a.hash(a.name)| >= HASH_LENGTH && s <= MAX_INT64 && t <= MAX_INT64
    requires a.SlotName(s) == a.SlotName(t)
    ensures s == t
  {
    RunNameDeterminesSlot(a.hash, a.name, s, a.name, t);
  }

  lemma StampIsPast(a: Agent, w: World, r: Run)
    requires Inv(a, w) && StaleCopy(a, w, r)
    ensures w.log != [] && r.slot.value <= LastSlot(w.log)
  {
    var i :| 0 <= i < |w.log| && w.log[i] == Stamp(r.slot.value, r.sequence.value);
    if i < |w.log| - 1 { assert w.log[i].slot < w.log[|w.log| - 1].slot; }
  }

  /** With both history limits at least 1, the newest run is never among those pruned. */
  lemma NewestNotDoomed(a: Agent, w: World, items: seq<Run>, successLimit: nat, failedLimit: nat)
    requires Inv(a, w) && StaleList(a, w, items) && successLimit >= 1 && failedLimit >= 1
    requires w.log != []
    ensures a.SlotName(LastSlot(w.log)) !in Names(Doomed(items, successLimit, failedLimit))
  {
    var newest := a.SlotName(LastSlot(w.log));
    forall r | r in Doomed(items, successLimit, failedLimit) ensures r.name != newest {
      DoomedAreOldTerminal(items, successLimit, failedLimit, r);
      var q :| q in items && Newer(q, r);
      StampIsPast(a, w, q);
      if r.name == newest {
        SlotOfName(a, r.slot.value, LastSlot(w.log));
        StrLessIrreflexive(r.name);
        assert false;
      }
    }
  }

  lemma DeleteKeepsInv(a: Agent, w: World, gone: set<string>)
    requires Inv(a, w)
    requires w.log != [] ==> a.SlotName(LastSlot(w.log)) !in gone
    ensures Inv(a, w.(runs := w.runs - gone))
  {
  }

  /** A status that records the present generation and, for a valid schedule, a future slot. */
  predicate LooksAhead(w: World, status: AgentStatus) {
    && status.observedGeneration == w.generation
    && (w.policy.Some? ==> status.nextScheduleTime.Some? && status.nextScheduleTime.value > w.now)
  }

  lemma PatchKeepsInv(a: Agent, w: World, status: AgentStatus, patch: Write, done: Outcome)
    requires Inv(a, w) && LooksAhead(w, status)
    ensures Inv(a, PatchStatus(w, status, patch, done).0)
    ensures PatchStatus(w, status, patch, done).0.log == w.log
  {
  }

  lemma PatchesKeepInv(a: Agent, w: World)
    requires Inv(a, w)
    ensures forall status, patch, done {:trigger PatchStatus(w, status, patch, done)} ::
              LooksAhead(w, status) ==>
                Inv(a, PatchStatus(w, status, patch, done).0) && PatchStatus(w, status, patch, done).0.log == w.log
  {
    forall status, patch, done | LooksAhead(w, status)
      ensures Inv(a, PatchStatus(w, status, patch, done).0) && PatchStatus(w, status, patch, done).0.log == w.log
    {
      PatchKeepsInv(a, w, status, patch, done);
    }
  }

  /** A run that the API server accepted for a due slot. */
  lemma CreateKeepsInv(a: Agent, w: World, due: Time, sequence: nat)
    requires Inv(a, w) && due <= w.now
    requires a.SlotName(due) !in w.runs
    requires w.policy.Some? && w.status.nextScheduleTime.Some?
    requires w.status.observedGeneration == w.generation
    requires Fires(w.policy.value.schedule, w.status.nextScheduleTime.value, due)
    requires w.log != [] ==> LastSlot(w.log) < due
    ensures Inv(a, CreateRun(w, NewRun(a, due, sequence, w.now)))
  {
    var run := NewRun(a, due, sequence, w.now);
    var w' := CreateRun(w, run);
    assert LastSlot(w'.log) == due;
    assert LogPast(w') by {
      forall i, j | 0 <= i < j < |w'.log| ensures w'.log[i].slot < w'.log[j].slot {
        if j == |w.log| {
          if i < |w.log| - 1 { assert w.log[i].slot < w.log[|w.log| - 1].slot; }
        }
      }
    }
    assert OwnedRunsStamped(a, w') by {
      assert Stamp(due, sequence) in w'.log;
      forall n | n in w'.runs && n != run.name && w'.runs[n].owner == a.uid
        ensures StaleCopy(a, w', w'.runs[n])
      {
        assert StaleCopy(a, w, w.runs[n]);
      }
    }
  }

  /** The due slot is no earlier than the newest run's; when equal, the name is taken. */
  lemma DueIsNotBehind(a: Agent, w: World, due: Time)
    requires Inv(a, w) && w.policy.Some? && w.status.observedGeneration == w.generation
    requires w.status.nextScheduleTime.Some? && w.log != []
    requires LatestDueOf(w.policy.value.schedule, w.status.nextScheduleTime.value, w.now).due == Some(due)
    ensures LastSlot(w.log) <= due
    ensures LastSlot(w.log) == due ==> a.SlotName(due) in w.runs
  {
    var next := w.status.nextScheduleTime.value;
    if next <= LastSlot(w.log) {
      LatestDueNotBefore(w.policy.value.schedule, next, w.now, LastSlot(w.log));
    }
  }

  /** What one reconcile may do to the log: nothing, or one Create of a later slot. */
  ghost predicate LogGrows(w: World, w': World) {
    w'.log == w.log ||
    (exists stamp :: w'.log == w.log + [stamp] && (w.log != [] ==> LastSlot(w.log) < stamp.slot))
  }

  lemma DecideKeepsInv(a: Agent, w: World, seen: Observed, f: Faults)
    requires Inv(a, w) && w.policy.Some?
    ensures var w' := DecideSlot(a, w, w.policy.value, seen, f).0;
            Inv(a, w') && LogGrows(w, w')
  {
    hide PatchStatus, CreateForSlot, LogPast, OwnedRunsStamped;
    PatchesKeepInv(a, w);
    assert Ready(a, w);
    hide Inv;
    var policy := w.policy.value;
    var base := BaseStatus(w.status, w.generation, seen);
    if w.status.observedGeneration == w.generation && w.status.nextScheduleTime.Some? && !policy.suspend {
      var pair := LatestDueOf(policy.schedule, w.status.nextScheduleTime.value, w.now);
      var status := base.(nextScheduleTime := Some(pair.next));
      if pair.due.Some? {
        assert AboutToCreate(a, w, status, pair.due.value);
        CreateForSlotKeepsInv(a, w, status, pair.due.value, seen.LatestDue(), RequeueFor(w.now, pair.next), f);
      }
    }
  }

  /** The facts that hold when the controller gets as far as a Create for slot `due`. */
  ghost predicate AboutToCreate(a: Agent, w: World, status: AgentStatus, due: Time) {
    && Inv(a, w) && w.policy.Some? && w.status.observedGeneration == w.generation
    && w.status.nextScheduleTime.Some? && due <= w.now
    && LatestDueOf(w.policy.value.schedule, w.status.nextScheduleTime.value, w.now).due == Some(due)
    && LooksAhead(w, status)
  }

  lemma CreateForSlotKeepsInv(a: Agent, w: World, status: AgentStatus, due: Time,
                              latestRetained: Option<Time>, later: Outcome, f: Faults)
    requires AboutToCreate(a, w, status, due)
    ensures var w' := CreateForSlot(a, w, status, due, latestRetained, later, f).0;
            Inv(a, w') && LogGrows(w, w')
  {
    if a.SlotName(due) in w.runs {
      CreateForTakenName(a, w, status, due, latestRetained, later, f);
    } else {
      CreateForFreeName(a, w, status, due, latestRetained, later, f);
    }
  }

  lemma CreateForTakenName(a: Agent, w: World, status: AgentStatus, due: Time,
                           latestRetained: Option<Time>, later: Outcome, f: Faults)
    requires AboutToCreate(a, w, status, due) && a.SlotName(due) in w.runs
    ensures var w' := CreateForSlot(a, w, status, due, latestRetained, later, f).0;
            Inv(a, w') && w'.log == w.log
  {
    PatchesKeepInv(a, w);
    hide Inv, PatchStatus, LatestDueOf, Cron;
  }

  /** The status that goes with a successful Create. */
  function CreatedStatus(status: AgentStatus, run: Run, due: Time): AgentStatus {
    status.(runsCreated := status.runsCreated + 1, lastRunName := run.name,
            lastScheduleTime := Some(due), reason := RunCreated)
  }

  /** The three ways a Create under a free name can end. */
  lemma CreateFreeOutcomes(a: Agent, w: World, status: AgentStatus, due: Time,
                           latestRetained: Option<Time>, later: Outcome, f: Faults)
    requires Ready(a, w) && due <= w.now && a.SlotName(due) !in w.runs
    ensures var run := NewRun(a, due, status.runsCreated + 1, w.now);
            var w1 := CreateRun(w, run);
            var result := CreateForSlot(a, w, status, due, latestRetained, later, f);
            result == (w, Aborted) || result == (w1, Aborted)
            || result == PatchStatus(w1, CreatedStatus(status, run, due), f.patch, later)
  {
    hide PatchStatus, Agent.SlotName, Cron;
  }

  lemma CreateForFreeName(a: Agent, w: World, status: AgentStatus, due: Time,
                          latestRetained: Option<Time>, later: Outcome, f: Faults)
    requires AboutToCreate(a, w, status, due) && a.SlotName(due) !in w.runs
    ensures var w' := CreateForSlot(a, w, status, due, latestRetained, later, f).0;
            Inv(a, w') && LogGrows(w, w')
  {
    var run := NewRun(a, due, status.runsCreated + 1, w.now);
    var w1 := CreateRun(w, run);
    CreateOnceMore(a, w, due, status.runsCreated + 1);
    StillLooksAhead(w, w1, status, CreatedStatus(status, run, due));
    PatchKeepsInv(a, w1, CreatedStatus(status, run, due), f.patch, later);
    CreateFreeOutcomes(a, w, status, due, latestRetained, later, f);
    hide Inv, LatestDueOf, PatchStatus, Agent.SlotName, CreateForSlot, CreateRun;
  }

  lemma StillLooksAhead(w: World, w1: World, status: AgentStatus, created: AgentStatus)
    requires LooksAhead(w, status)
    requires w1.policy == w.policy && w1.generation == w.generation && w1.now == w.now
    requires created.observedGeneration == status.observedGeneration
    requires created.nextScheduleTime == status.nextScheduleTime
    ensures LooksAhead(w1, created)
  {
  }

  lemma CreateOnceMore(a: Agent, w: World, due: Time, sequence: nat)
    requires Inv(a, w) && w.policy.Some? && w.status.observedGeneration == w.generation
    requires w.status.nextScheduleTime.Some?
    requires LatestDueOf(w.policy.value.schedule, w.status.nextScheduleTime.value, w.now).due == Some(due)
    requires a.SlotName(due) !in w.runs
    ensures var w' := CreateRun(w, NewRun(a, due, sequence, w.now));
            Inv(a, w') && w'.log == w.log + [Stamp(due, sequence)] && LogGrows(w, w')
  {
    if w.log != [] { DueIsNotBehind(a, w, due); }
    CreateKeepsInv(a, w, due, sequence);
    assert CreateRun(w, NewRun(a, due, sequence, w.now)).log == w.log + [Stamp(due, sequence)];
  }

  lemma ReconcileKeepsInv(a: Agent, w: World, listed: seq<Run>, f: Faults)
    requires Inv(a, w) && StaleList(a, w, listed) && Positive(w.policy)
    ensures var w' := Reconcile(a, w, listed, f).0;
            Inv(a, w') && LogGrows(w, w')
  {
    SortByName(listed);
    PatchesKeepInv(a, w);
    hide OwnedRunsStamped, LogPast, NewestRetained, NextLeadsOn, PatchStatus, DecideSlot, Doomed, Observe, Inv;
    var items := Sort(ByName, listed);
    if !f.listFails && w.policy.Some? {
      var policy := w.policy.value;
      var doomed := Doomed(items, policy.successLimit, policy.failedLimit);
      if w.log != [] { NewestNotDoomed(a, w, items, policy.successLimit, policy.failedLimit); }
      if PruneStops(f.stopAfter, doomed) {
        assert Names(doomed[..f.stopAfter.value]) <= Names(doomed);
        DeleteKeepsInv(a, w, Names(doomed[..f.stopAfter.value]));
      } else {
        DeleteKeepsInv(a, w, Names(doomed));
        RetainedDistinct(items, Names(doomed));
        var kept := Observe(Retained(items, Names(doomed)));
        var seen := kept.(maxCount := Max(Observe(items).maxCount, kept.maxCount));
        DecideKeepsInv(a, w.(runs := w.runs - Names(doomed)), seen, f);
      }
    }
  }

  lemma StepKeepsInv(a: Agent, w: World, e: Event)
    requires Inv(a, w) && Enabled(a, w, e) && Positive(w.policy)
    ensures Inv(a, Step(a, w, e)) && LogGrows(w, Step(a, w, e))
  {
    match e
    case ReconcileWith(listed, faults) => ReconcileKeepsInv(a, w, listed, faults);
    case Progress(name, phase, completedAt) =>
    case Edit(policy) =>
    case Tick(now, nanos) =>
    case ForeignCreate(run) =>
    case ForeignDelete(name) =>
  }

  lemma ExecutionPrefix(a: Agent, ws: seq<World>, es: seq<Event>)
    requires Execution(a, ws, es) && es != []
    ensures Execution(a, ws[..|es|], es[..|es| - 1])
  {
    hide Step, Enabled, Initial;
  }

  lemma {:induction false} ExecutionKeepsInv(a: Agent, ws: seq<World>, es: seq<Event>)
    requires Execution(a, ws, es) && PositiveLimits(ws)
    ensures Inv(a, ws[|es|])
    decreases |es|
  {
    hide Step, Inv, Enabled;
    if es == [] {
      InitialInv(a, ws[0]);
    } else {
      var n := |es| - 1;
      ExecutionPrefix(a, ws, es);
      ExecutionKeepsInv(a, ws[..|es|], es[..n]);
      StepKeepsInv(a, ws[n], es[n]);
    }
  }

  /**
   At most one run per cron slot. Over any execution, with children listed as stale as they
   come, writes that fail or report failure falsely, spec edits, pruning and foreign runs, the
   slots of the runs that were ever created strictly increase.
   */
  lemma OneRunPerSlot(a: Agent, ws: seq<World>, es: seq<Event>)
    requires Execution(a, ws, es) && PositiveLimits(ws)
    ensures SlotsIncrease(ws[|es|].log)
    ensures forall m, n ::
              (Owned(a, ws[|es|], m) && Owned(a, ws[|es|], n)
                && ws[|es|].runs[m].slot == ws[|es|].runs[n].slot) ==> m == n
  {
    ExecutionKeepsInv(a, ws, es);
  }

  /** `w'` still holds every run of the Agent that is not terminal, untouched. */
  ghost predicate SparesActive(a: Agent, w: World, w': World) {
    forall n :: Owned(a, w, n) && !w.runs[n].phase.IsTerminal() ==> n in w'.runs && w'.runs[n] == w.runs[n]
  }

  /** Whatever a reconcile deletes or overwrites, no active run of the Agent is among it. */
  lemma ReconcileSparesActive(a: Agent, w: World, listed: seq<Run>, f: Faults)
    requires Inv(a, w) && StaleList(a, w, listed)
    ensures SparesActive(a, w, Reconcile(a, w, listed, f).0)
  {
    SortByName(listed);
    var items := Sort(ByName, listed);
    if !f.listFails && w.policy.Some? {
      var policy := w.policy.value;
      var doomed := Doomed(items, policy.successLimit, policy.failedLimit);
      forall r | r in doomed && Owned(a, w, r.name) ensures w.runs[r.name].phase.IsTerminal() {
        DoomedAreOldTerminal(items, policy.successLimit, policy.failedLimit, r);
        assert StaleCopy(a, w, r);
      }
      if !PruneStops(f.stopAfter, doomed) {
        RetainedDistinct(items, Names(doomed));
        var kept := Observe(Retained(items, Names(doomed)));
        var seen := kept.(maxCount := Max(Observe(items).maxCount, kept.maxCount));
        DecideOnlyAdds(a, w.(runs := w.runs - Names(doomed)), seen, f);
      }
    }
    hide DecideSlot, Doomed, Observe, Inv, StaleCopy;
  }

  lemma DecideOnlyAdds(a: Agent, w: World, seen: Observed, f: Faults)
    requires Ready(a, w) && w.policy.Some?
    ensures var w' := DecideSlot(a, w, w.policy.value, seen, f).0;
            forall n :: n in w.runs ==> n in w'.runs && w'.runs[n] == w.runs[n]
  {
    hide CreateForSlot, Observed.LatestDue, LaterOf, LatestDueOf, Cron;
    forall status, due: Time, latest, later | due <= w.now
      ensures var w' := CreateForSlot(a, w, status, due, latest, later, f).0;
              forall n :: n in w.runs ==> n in w'.runs && w'.runs[n] == w.runs[n]
    {
      CreateOnlyAdds(a, w, status, due, latest, later, f);
    }
  }

  lemma CreateOnlyAdds(a: Agent, w: World, status: AgentStatus, due: Time, latest: Option<Time>,
                       later: Outcome, f: Faults)
    requires Ready(a, w) && due <= w.now
    ensures var w' := CreateForSlot(a, w, status, due, latest, later, f).0;
            forall n :: n in w.runs ==> n in w'.runs && w'.runs[n] == w.runs[n]
  {
    if a.SlotName(due) !in w.runs { CreateFreeOutcomes(a, w, status, due, latest, later, f); }
  }
}
