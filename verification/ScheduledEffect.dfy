/**
 What a Scheduled reconcile does, in terms of the spec, the status, the clock and the runs alone: when it
 creates a run and which, what it writes to the status, and when it comes back.
 */
module ScheduledEffect {
  import opened Prelude
  import opened Decimal
  import opened Scheduler
  import opened Sorting
  import opened AgentRuns
  import opened ScheduledHistory
  import opened ScheduledProtocol
  import opened ScheduledRuns

  const CALM := Faults(false, None, Applied, false, false, Applied)

  /** The list and the deletes of the reconcile succeed. */
  predicate Prunes(f: Faults) { !f.listFails && f.stopAfter.None? }

  /* What is kept of the listed runs */

  /** Too many newer runs of its class are listed. */
  ghost predicate Pruned(listed: seq<Run>, p: Policy, r: Run) {
    r in listed &&
    ((r.phase.Succeeded? && |set q | q in listed && q.phase.Succeeded? && Newer(q, r)| >= p.successLimit)
     || ((r.phase.Failed? || r.phase.BudgetExceeded?)
         && |set q | q in listed && (q.phase.Failed? || q.phase.BudgetExceeded?) && Newer(q, r)| >= p.failedLimit))
  }

  ghost predicate Kept(listed: seq<Run>, p: Policy, r: Run) { r in listed && !Pruned(listed, p, r) }

  ghost function PrunedNames(listed: seq<Run>, p: Policy): set<string> {
    set r | r in listed && Pruned(listed, p, r) :: r.name
  }

  /** `n` is the greatest of the counter in the status and the listed sequence numbers. */
  ghost predicate IsCount(w: World, listed: seq<Run>, n: nat) {
    && w.status.runsCreated <= n
    && (forall r :: r in listed && r.sequence.Some? ==> r.sequence.value <= n)
    && (n == w.status.runsCreated || exists r :: r in listed && r.sequence == Some(n))
  }

  /** `r` is the run of the newest slot among those kept, of equal ones that with the greatest name. */
  ghost predicate IsNewestKept(listed: seq<Run>, p: Policy, newest: Option<Run>) {
    && (newest.Some? ==> Kept(listed, p, newest.value) && newest.value.slot.Some?)
    && forall r :: Kept(listed, p, r) && r.slot.Some? ==>
         && newest.Some? && r.slot.value <= newest.value.slot.value
         && (r.slot == newest.value.slot ==> !StrLess(newest.value.name, r.name))
  }

  /* When a run is due */

  /** The reconciler has seen this generation of the spec and knows its next slot. */
  predicate Current(w: World) { w.status.observedGeneration == w.generation && w.status.nextScheduleTime.Some? }

  /** The last slot that has come, on the chain that starts at the next slot of the status. */
  ghost predicate DueSlot(w: World, p: Policy, due: Time)
    requires Cron(p.schedule)
  {
    && w.status.nextScheduleTime.Some? && Fires(p.schedule, w.status.nextScheduleTime.value, due)
    && due <= w.now < p.schedule(due)
  }

  /** Not later than the deadline, to the nanosecond. */
  predicate OnTime(w: World, p: Policy, due: Time) {
    (w.now - due) * SECOND + w.nanos <= p.startingDeadline * SECOND
  }

  ghost predicate SlotKept(listed: seq<Run>, p: Policy, slot: Time) {
    exists r :: Kept(listed, p, r) && r.slot == Some(slot)
  }

  ghost predicate SomeActive(listed: seq<Run>) { exists r :: r in listed && !r.phase.IsTerminal() }

  /** The slot is due, in time, without a run, and not held back by an active run. */
  ghost predicate Wanted(w: World, listed: seq<Run>, p: Policy, due: Time)
    requires Cron(p.schedule)
  {
    && Current(w) && !p.suspend && DueSlot(w, p, due) && OnTime(w, p, due)
    && !SlotKept(listed, p, due) && !(p.forbid && SomeActive(listed))
  }

  /** The name of the slot's run is taken by a run that is not pruned. */
  ghost predicate Taken(a: Agent, w: World, listed: seq<Run>, p: Policy, due: Time)
    requires Ready(a, w) && due <= w.now
  {
    a.SlotName(due) in w.runs && a.SlotName(due) !in PrunedNames(listed, p)
  }

  ghost predicate Creates(a: Agent, w: World, listed: seq<Run>, p: Policy, count: nat, due: Time)
    requires Ready(a, w) && Cron(p.schedule)
  {
    Wanted(w, listed, p, due) && count != MAX_INT32 && !Taken(a, w, listed, p, due)
  }

  lemma OneDueSlot(w: World, p: Policy, s: Time, t: Time)
    requires Cron(p.schedule) && DueSlot(w, p, s) && DueSlot(w, p, t)
    ensures s == t
  {
    LatestDueUnique(p.schedule, w.status.nextScheduleTime.value, w.now, DuePair(Some(s), p.schedule(s)),
                    DuePair(Some(t), p.schedule(t)));
  }

  /* The pruned history as the reconciler sees it */

  lemma DoomedIffPruned(listed: seq<Run>, items: seq<Run>, p: Policy, r: Run)
    requires DistinctNames(listed) && DistinctNames(items) && forall q :: q in items <==> q in listed
    ensures r in Doomed(items, p.successLimit, p.failedLimit) <==> Pruned(listed, p, r)
  {
    ExcessByRank(IsSuccessful, items, p.successLimit, r);
    ExcessByRank(IsFailed, items, p.failedLimit, r);
    assert NewerInClass(IsSuccessful, items, r) == set q | q in listed && q.phase.Succeeded? && Newer(q, r);
    assert NewerInClass(IsFailed, items, r)
        == set q | q in listed && (q.phase.Failed? || q.phase.BudgetExceeded?) && Newer(q, r);
    hide Excess, Newer;
  }

  /** What the reconciler knows after it has pruned. */
  ghost predicate Knows(listed: seq<Run>, p: Policy, seen: Observed) {
    && (forall t :: t in seen.bySlot <==> SlotKept(listed, p, t))
    && (forall t :: t in seen.bySlot ==> Kept(listed, p, seen.bySlot[t]) && seen.bySlot[t].slot == Some(t))
    && (forall t, r :: t in seen.bySlot && Kept(listed, p, r) && r.slot == Some(t) ==> !StrLess(seen.bySlot[t].name, r.name))
    && (seen.hasActive <==> SomeActive(listed))
    && IsMaxCount(seen.maxCount, listed)
    && IsNewestKept(listed, p, seen.latest)
  }

  /** The observation that the slot decision is given. */
  ghost function SeenAfterPrune(listed: seq<Run>, p: Policy): Observed
    requires DistinctNames(listed)
  {
    SortByName(listed);
    var items := Sort(ByName, listed);
    var doomed := Doomed(items, p.successLimit, p.failedLimit);
    RetainedDistinct(items, Names(doomed));
    var kept := Observe(Retained(items, Names(doomed)));
    kept.(maxCount := Max(Observe(items).maxCount, kept.maxCount))
  }

  lemma PrunedByName(listed: seq<Run>, p: Policy)
    requires DistinctNames(listed)
    ensures var items := Sort(ByName, listed);
            var doomed := Doomed(items, p.successLimit, p.failedLimit);
            && DistinctNames(items) && (forall r :: r in items <==> r in listed)
            && Names(doomed) == PrunedNames(listed, p)
            && forall r :: r in Retained(items, Names(doomed)) <==> Kept(listed, p, r)
  {
    SortByName(listed);
    var items := Sort(ByName, listed);
    var doomed := Doomed(items, p.successLimit, p.failedLimit);
    forall r ensures r in doomed <==> Pruned(listed, p, r) { DoomedIffPruned(listed, items, p, r); }
    hide Pruned, Doomed, Sort, Ascending;
    forall r | r in listed && r.name in Names(doomed) ensures r in doomed {
      var q :| q in doomed && q.name == r.name;
      assert Pruned(listed, p, q);
      InListed(listed, p, q);
      SameName(listed, q, r);
    }
    forall r | Pruned(listed, p, r) ensures r in listed { InListed(listed, p, r); }
  }

  lemma InListed(listed: seq<Run>, p: Policy, r: Run)
    requires Pruned(listed, p, r)
    ensures r in listed
  {
  }

  lemma SameName(listed: seq<Run>, q: Run, r: Run)
    requires DistinctNames(listed) && q in listed && r in listed && q.name == r.name
    ensures q == r
  {
  }

  lemma KnowsAfterPrune(listed: seq<Run>, p: Policy)
    requires DistinctNames(listed)
    ensures Knows(listed, p, SeenAfterPrune(listed, p))
  {
    PrunedByName(listed, p);
    var items := Sort(ByName, listed);
    var kept := Retained(items, Names(Doomed(items, p.successLimit, p.failedLimit)));
    RetainedDistinct(items, Names(Doomed(items, p.successLimit, p.failedLimit)));
    hide Doomed, Sort, Retained, Newer, Names, PrunedNames;
    KnowsFromKept(listed, p, Observe(items), Observe(kept), items, kept);
  }

  lemma KnowsFromKept(listed: seq<Run>, p: Policy, all: Observed, seen: Observed, items: seq<Run>, kept: seq<Run>)
    requires Summarizes(all, items) && Summarizes(seen, kept)
    requires forall r :: r in items <==> r in listed
    requires forall r :: r in kept <==> Kept(listed, p, r)
    ensures Knows(listed, p, seen.(maxCount := Max(all.maxCount, seen.maxCount)))
  {
    hide Kept, IsSlotMap, IsLatest, IsNewestKept, StrLess, IsMaxCount, SlotKept;
    KeptListed(listed, p);
    SlotsFromKept(listed, p, seen.bySlot, kept);
    CountOfAll(all.maxCount, seen.maxCount, listed, items, kept);
    NewestFromKept(listed, p, seen.latest, kept);
    assert forall r :: r in kept ==> r in listed;
  }

  lemma SlotsFromKept(listed: seq<Run>, p: Policy, bySlot: map<Time, Run>, kept: seq<Run>)
    requires IsSlotMap(bySlot, kept) && forall r :: r in kept <==> Kept(listed, p, r)
    ensures forall t :: t in bySlot <==> SlotKept(listed, p, t)
    ensures forall t :: t in bySlot ==> Kept(listed, p, bySlot[t]) && bySlot[t].slot == Some(t)
    ensures forall t, r :: t in bySlot && Kept(listed, p, r) && r.slot == Some(t) ==> !StrLess(bySlot[t].name, r.name)
  {
    hide Kept, StrLess;
    forall t ensures t in bySlot <==> SlotKept(listed, p, t) {
      if SlotKept(listed, p, t) {
        var r :| Kept(listed, p, r) && r.slot == Some(t);
        assert r in kept;
      }
      if t in bySlot { assert bySlot[t] in kept; }
    }
  }

  lemma NewestFromKept(listed: seq<Run>, p: Policy, latest: Option<Run>, kept: seq<Run>)
    requires IsLatest(latest, kept) && forall r :: r in kept <==> Kept(listed, p, r)
    ensures IsNewestKept(listed, p, latest)
  {
    hide Kept, StrLess;
  }

  lemma CountOfAll(all: nat, some: nat, listed: seq<Run>, items: seq<Run>, kept: seq<Run>)
    requires IsMaxCount(all, items) && IsMaxCount(some, kept)
    requires (forall r :: r in items <==> r in listed) && forall r :: r in kept ==> r in listed
    ensures IsMaxCount(Max(all, some), listed)
  {
  }

  lemma KeptListed(listed: seq<Run>, p: Policy)
    ensures forall r :: Kept(listed, p, r) ==> r in listed
    ensures forall r :: r in listed && !r.phase.IsTerminal() ==> Kept(listed, p, r)
  {
  }

  /* What the slot decision makes of it */

  lemma OverdueIff(w: World, p: Policy, due: Time)
    requires w.nanos < SECOND
    ensures Overdue(w.now, w.nanos, due, p.startingDeadline) <==> !OnTime(w, p, due)
  {
  }

  lemma DueSlotIs(w: World, p: Policy)
    requires Cron(p.schedule) && w.status.nextScheduleTime.Some?
    ensures var pair := LatestDueOf(p.schedule, w.status.nextScheduleTime.value, w.now);
            && (pair.due.Some? ==> DueSlot(w, p, pair.due.value))
            && forall t: Time :: DueSlot(w, p, t) ==> pair.due == Some(t)
  {
    var pair := LatestDueOf(p.schedule, w.status.nextScheduleTime.value, w.now);
    forall t: Time | DueSlot(w, p, t) ensures pair.due == Some(t) {
      if pair.due.Some? { OneDueSlot(w, p, pair.due.value, t); }
    }
  }

  /** Pruning, then the decision, of a reconcile whose list and deletes succeed. */
  lemma ReconcileUnfolds(a: Agent, w: World, listed: seq<Run>, p: Policy, f: Faults)
    requires Ready(a, w) && DistinctNames(listed) && w.policy == Some(p) && Prunes(f)
    ensures Reconcile(a, w, listed, f) ==
            DecideSlot(a, w.(runs := w.runs - PrunedNames(listed, p)), p, SeenAfterPrune(listed, p), f)
  {
    PrunedByName(listed, p);
    hide DecideSlot, Doomed, Sort, PrunedNames, Observe, Kept, Pruned;
  }

  lemma CountIs(w: World, listed: seq<Run>, count: nat, seen: Observed)
    requires IsCount(w, listed, count) && IsMaxCount(seen.maxCount, listed)
    ensures BaseStatus(w.status, w.generation, seen).runsCreated == count
  {
  }

  /* The status */

  /** The next slot that the status gets: on the chain while it is followed, else counted from now. */
  ghost predicate NextSlot(w: World, p: Policy, next: Time)
    requires Cron(p.schedule)
  {
    if Current(w) && !p.suspend then
      var first := w.status.nextScheduleTime.value;
      && Fires(p.schedule, first, next) && w.now < next
      && forall s: Time :: Fires(p.schedule, first, s) && w.now < s ==> next <= s
    else next == p.schedule(w.now)
  }

  /** The later of the two, where there are any. */
  predicate IsLaterOf(t: Option<Time>, a: Option<Time>, b: Option<Time>) {
    && (t == a || t == b)
    && (a.Some? ==> t.Some? && a.value <= t.value) && (b.Some? ==> t.Some? && b.value <= t.value)
  }

  /** Why there is no run yet, or that there is one. */
  ghost predicate ReasonFits(w: World, listed: seq<Run>, p: Policy, reason: Reason)
    requires Cron(p.schedule)
  {
    if p.suspend then reason.Suspended?
    else if !Current(w) then
      if w.status.observedGeneration == 0 then reason.ScheduleInitialized? else reason.ScheduleUpdated?
    else
      && ((forall due: Time :: !DueSlot(w, p, due)) ==> reason.WaitingForSchedule?)
      && forall due: Time :: DueSlot(w, p, due) ==>
           reason == if !OnTime(w, p, due) then MissedDeadline
                     else if SlotKept(listed, p, due) then RunCreated
                     else if p.forbid && SomeActive(listed) then OverlapSkipped
                     else RunCreated
  }

  /** What every status that the reconcile writes says about the schedule, and when it comes back. */
  ghost predicate Scheduled(w: World, p: Policy, status: AgentStatus, done: Outcome)
    requires Cron(p.schedule)
  {
    && status.observedGeneration == w.generation
    && status.nextScheduleTime.Some? && NextSlot(w, p, status.nextScheduleTime.value)
    && done == if p.suspend then Idle else RequeueAt(status.nextScheduleTime.value)
  }

  /** What the status says about the runs when none is created. */
  ghost predicate Summary(w: World, listed: seq<Run>, p: Policy, count: nat, status: AgentStatus) {
    && status.runsCreated == count
    && exists newest :: IsNewestKept(listed, p, newest)
         && status.lastRunName == (if newest.Some? then newest.value.name else "")
         && IsLaterOf(status.lastScheduleTime, w.status.lastScheduleTime, if newest.Some? then newest.value.slot else None)
  }

  lemma BaseSummary(w: World, listed: seq<Run>, p: Policy, count: nat, seen: Observed)
    requires Knows(listed, p, seen) && IsCount(w, listed, count)
    ensures Summary(w, listed, p, count, BaseStatus(w.status, w.generation, seen))
    ensures BaseStatus(w.status, w.generation, seen).runsCreated == count
    ensures BaseStatus(w.status, w.generation, seen).observedGeneration == w.generation
  {
    CountIs(w, listed, count, seen);
    hide IsCount, IsMaxCount, Kept, SlotKept, SomeActive;
    assert IsNewestKept(listed, p, seen.latest);
  }

  /** The newest run is at least as new as that of slot `due`, and is that run if the slots agree. */
  lemma NewestCovers(listed: seq<Run>, p: Policy, seen: Observed, due: Time)
    requires Knows(listed, p, seen) && due in seen.bySlot
    ensures seen.latest.Some? && seen.latest.value.slot.Some? && due <= seen.latest.value.slot.value
    ensures seen.latest.value.slot.value == due ==> seen.latest.value.name == seen.bySlot[due].name
    ensures seen.bySlot[due] in listed
  {
    hide Pruned, StrLess, IsMaxCount, SlotKept, SomeActive;
    var run, newest := seen.bySlot[due], seen.latest.value;
    assert Kept(listed, p, run) && run.slot == Some(due);
    if newest.slot.value == due { StrLessTotal(newest.name, run.name); }
  }

  /** Recovering from a listed run changes nothing: the newest run says as much. */
  lemma RecoverSummary(w: World, listed: seq<Run>, p: Policy, count: nat, seen: Observed, status: AgentStatus, due: Time)
    requires Knows(listed, p, seen) && IsCount(w, listed, count) && due in seen.bySlot
    requires status.runsCreated == count && status.lastRunName == BaseStatus(w.status, w.generation, seen).lastRunName
    requires status.lastScheduleTime == BaseStatus(w.status, w.generation, seen).lastScheduleTime
    ensures RecoverStatus(status, seen.bySlot[due], due, seen.LatestDue()) == status
  {
    NewestCovers(listed, p, seen, due);
    hide Knows, IsMaxCount;
    assert status.lastScheduleTime == LaterOf(w.status.lastScheduleTime, seen.latest.value.slot);
    var run := seen.bySlot[due];
    assert run.sequence.Some? ==> run.sequence.value <= count;
  }

  lemma NextIs(w: World, p: Policy, first: Time, pair: DuePair)
    requires Cron(p.schedule) && IsLatestDue(p.schedule, first, w.now, pair)
    ensures Fires(p.schedule, first, pair.next) && w.now < pair.next
    ensures forall s: Time :: Fires(p.schedule, first, s) && w.now < s ==> pair.next <= s
  {
    if pair.due.Some? {
      var due := pair.due.value;
      FiresStep(p.schedule, first, due);
      forall s: Time | Fires(p.schedule, first, s) && w.now < s ensures pair.next <= s {
        FiresComparable(p.schedule, first, due, s);
      }
    }
  }

  /** The status that leaves the runs as they are, for a reason. */
  ghost predicate Plain(w: World, listed: seq<Run>, p: Policy, count: nat, status: AgentStatus, done: Outcome)
    requires Cron(p.schedule)
  {
    Scheduled(w, p, status, done) && Summary(w, listed, p, count, status) && ReasonFits(w, listed, p, status.reason)
  }

  /** A change of the next slot or the reason leaves the summary as it is. */
  lemma SameSummary(w: World, listed: seq<Run>, p: Policy, count: nat, status: AgentStatus, next: Option<Time>, reason: Reason)
    requires Summary(w, listed, p, count, status)
    ensures Summary(w, listed, p, count, status.(nextScheduleTime := next, reason := reason))
  {
    hide IsNewestKept, IsLaterOf;
    var newest :| IsNewestKept(listed, p, newest)
         && status.lastRunName == (if newest.Some? then newest.value.name else "")
         && IsLaterOf(status.lastScheduleTime, w.status.lastScheduleTime, if newest.Some? then newest.value.slot else None);
  }

  lemma NotFollowed(a: Agent, w: World, w1: World, listed: seq<Run>, p: Policy, count: nat, seen: Observed, f: Faults)
    returns (status: AgentStatus, done: Outcome)
    requires Ready(a, w) && w.policy == Some(p) && w1 == w.(runs := w1.runs) && (!Current(w) || p.suspend)
    requires Knows(listed, p, seen) && IsCount(w, listed, count)
    ensures DecideSlot(a, w1, p, seen, f) == PatchStatus(w1, status, f.patch, done)
    ensures Plain(w, listed, p, count, status, done)
  {
    BaseSummary(w, listed, p, count, seen);
    var base := BaseStatus(w.status, w.generation, seen);
    var reason := if p.suspend then Suspended
                  else if w.status.observedGeneration == 0 then ScheduleInitialized else ScheduleUpdated;
    SameSummary(w, listed, p, count, base, Some(p.schedule(w.now)), reason);
    done := if p.suspend then Idle else RequeueAt(p.schedule(w.now));
    status := base.(nextScheduleTime := Some(p.schedule(w.now)), reason := reason);
    hide Summary, Knows, IsCount, PatchStatus, DueSlot, Wanted, IsNewestKept, LatestDueOf, DecideDue, Observed.LatestDue, LaterOf;
  }

  lemma NoSlotDue(a: Agent, w: World, w1: World, listed: seq<Run>, p: Policy, count: nat, seen: Observed, f: Faults)
    returns (status: AgentStatus, done: Outcome)
    requires Ready(a, w) && w.policy == Some(p) && w1 == w.(runs := w1.runs) && Current(w) && !p.suspend
    requires Knows(listed, p, seen) && IsCount(w, listed, count) && forall due: Time :: !DueSlot(w, p, due)
    ensures DecideSlot(a, w1, p, seen, f) == PatchStatus(w1, status, f.patch, done)
    ensures Plain(w, listed, p, count, status, done)
  {
    BaseSummary(w, listed, p, count, seen);
    DueSlotIs(w, p);
    var pair := LatestDueOf(p.schedule, w.status.nextScheduleTime.value, w.now);
    NextIs(w, p, w.status.nextScheduleTime.value, pair);
    var base := BaseStatus(w.status, w.generation, seen);
    SameSummary(w, listed, p, count, base, Some(pair.next), WaitingForSchedule);
    done := RequeueAt(pair.next);
    status := base.(nextScheduleTime := Some(pair.next), reason := WaitingForSchedule);
    hide Summary, Knows, IsCount, PatchStatus, DueSlot, Wanted, IsNewestKept, LatestDueOf, Observed.LatestDue, LaterOf, Cron,
         Fires;
  }

  lemma KnownSlot(listed: seq<Run>, p: Policy, seen: Observed, due: Time)
    requires Knows(listed, p, seen)
    ensures (due in seen.bySlot <==> SlotKept(listed, p, due)) && (seen.hasActive <==> SomeActive(listed))
  {
    hide SlotKept, SomeActive, Kept, IsNewestKept, IsMaxCount, StrLess;
  }

  lemma NotWanted(a: Agent, w: World, w1: World, listed: seq<Run>, p: Policy, count: nat, seen: Observed, f: Faults, due: Time)
    returns (status: AgentStatus, done: Outcome)
    requires Ready(a, w) && w.policy == Some(p) && w.nanos < SECOND && w1 == w.(runs := w1.runs) && Current(w) && !p.suspend
    requires Knows(listed, p, seen) && IsCount(w, listed, count) && DueSlot(w, p, due) && !Wanted(w, listed, p, due)
    ensures DecideSlot(a, w1, p, seen, f) == PatchStatus(w1, status, f.patch, done)
    ensures Plain(w, listed, p, count, status, done)
  {
    hide Summary, IsCount, PatchStatus, DueSlot, IsNewestKept, LatestDueOf, Observed.LatestDue, LaterOf, Fires, Overdue,
         OnTime, SlotKept, SomeActive, RecoverStatus, BaseStatus, CreateForSlot, Kept, IsMaxCount, Knows, IsLatestDue;
    BaseSummary(w, listed, p, count, seen);
    DueSlotIs(w, p);
    var pair := LatestDueOf(p.schedule, w.status.nextScheduleTime.value, w.now);
    NextIs(w, p, w.status.nextScheduleTime.value, pair);
    OverdueIff(w, p, due);
    var base := BaseStatus(w.status, w.generation, seen);
    var reason := if !OnTime(w, p, due) then MissedDeadline
                  else if SlotKept(listed, p, due) then RunCreated else OverlapSkipped;
    SameSummary(w, listed, p, count, base, Some(pair.next), reason);
    done := RequeueAt(pair.next);
    status := base.(nextScheduleTime := Some(pair.next), reason := reason);
    KnownSlot(listed, p, seen, due);
    if SlotKept(listed, p, due) {
      RecoverSummary(w, listed, p, count, seen, base.(nextScheduleTime := Some(pair.next)), due);
    }
  }

  /** A wanted run goes as far as the counter, the name and the calls let it. */
  lemma WantedGoesOn(a: Agent, w: World, w1: World, listed: seq<Run>, p: Policy, count: nat, seen: Observed, f: Faults, due: Time)
    returns (status: AgentStatus)
    requires Ready(a, w) && w.policy == Some(p) && w.nanos < SECOND && w1 == w.(runs := w1.runs)
    requires Knows(listed, p, seen) && IsCount(w, listed, count) && Wanted(w, listed, p, due)
    ensures DecideSlot(a, w1, p, seen, f) ==
            if count == MAX_INT32 then (w1, Aborted)
            else CreateForSlot(a, w1, status, due, seen.LatestDue(), RequeueAt(p.schedule(due)), f)
    ensures status == BaseStatus(w.status, w.generation, seen).(nextScheduleTime := Some(p.schedule(due)))
    ensures Summary(w, listed, p, count, BaseStatus(w.status, w.generation, seen))
    ensures status.runsCreated == count && status.observedGeneration == w.generation
  {
    BaseSummary(w, listed, p, count, seen);
    DueSlotIs(w, p);
    OverdueIff(w, p, due);
    var base := BaseStatus(w.status, w.generation, seen);
    CountIs(w, listed, count, seen);
    status := base.(nextScheduleTime := Some(p.schedule(due)));
    hide Summary, IsCount, PatchStatus, IsNewestKept, LatestDueOf, Observed.LatestDue, LaterOf, Cron, Fires, Overdue,
         OnTime, SlotKept, SomeActive, RecoverStatus, CreateForSlot, Kept, IsMaxCount;
  }

  /** The reconcile of a list, once it is clear that no call fails before the slot decision. */
  lemma Decided(a: Agent, w: World, listed: seq<Run>, p: Policy, f: Faults) returns (w1: World, seen: Observed)
    requires Ready(a, w) && DistinctNames(listed) && w.policy == Some(p) && Prunes(f)
    ensures w1 == w.(runs := w.runs - PrunedNames(listed, p)) && Knows(listed, p, seen)
    ensures Reconcile(a, w, listed, f) == DecideSlot(a, w1, p, seen, f)
  {
    ReconcileUnfolds(a, w, listed, p, f);
    KnowsAfterPrune(listed, p);
    w1, seen := w.(runs := w.runs - PrunedNames(listed, p)), SeenAfterPrune(listed, p);
    hide *;
  }

  /* The main results, for any list and any failures */

  /** What a status patch that fails, or only seems to, leaves of `done`. */
  ghost predicate Writes(before: World, status: AgentStatus, patch: Write, done: Outcome, result: (World, Outcome)) {
    && result.0 == (if patch.Rejected? then before else before.(status := status))
    && result.1 == (if patch.Applied? then done else Aborted)
  }

  lemma PatchWrites(before: World, status: AgentStatus, patch: Write, done: Outcome)
    ensures Writes(before, status, patch, done, PatchStatus(before, status, patch, done))
  {
  }

  /** The world with the run for slot `due`. */
  ghost function WithRun(a: Agent, w: World, listed: seq<Run>, p: Policy, count: nat, due: Time): World
    requires Ready(a, w) && due <= w.now
  {
    var run := Run(a.SlotName(due), a.uid, false, Some(due), Some(count + 1), Requested, w.now, None);
    w.(runs := (w.runs - PrunedNames(listed, p))[run.name := run], log := w.log + [Stamp(due, count + 1)])
  }

  /** The reconcile that creates the run of slot `due`. */
  lemma CreatedRun(a: Agent, w: World, listed: seq<Run>, p: Policy, count: nat, f: Faults, due: Time)
    requires Ready(a, w) && DistinctNames(listed) && w.policy == Some(p) && w.nanos < SECOND && IsCount(w, listed, count)
    requires Prunes(f) && Creates(a, w, listed, p, count, due)
    ensures var result := Reconcile(a, w, listed, f);
            var created := WithRun(a, w, listed, p, count, due);
            var status := AgentStatus(count + 1, a.SlotName(due), Some(due), Some(p.schedule(due)), w.generation, RunCreated);
            match f.create
            case Rejected => result == (w.(runs := w.runs - PrunedNames(listed, p)), Aborted)
            case Lost => result == (created, Aborted)
            case Applied => Writes(created, status, f.patch, RequeueAt(p.schedule(due)), result)
  {
    hide Reconcile, DecideSlot, Knows, IsCount, PrunedNames, Writes, CreateForSlot, BaseStatus, WithRun;
    var w1, seen := Decided(a, w, listed, p, f);
    var status := WantedGoesOn(a, w, w1, listed, p, count, seen, f, due);
    CreatedUnderFreeName(a, w, w1, listed, p, count, status, due, seen.LatestDue(), f);
  }

  lemma CreatedUnderFreeName(a: Agent, w: World, w1: World, listed: seq<Run>, p: Policy, count: nat, status: AgentStatus,
                             due: Time, latestRetained: Option<Time>, f: Faults)
    requires Ready(a, w) && due <= w.now && w1 == w.(runs := w.runs - PrunedNames(listed, p)) && a.SlotName(due) !in w1.runs
    requires status.runsCreated == count && status.nextScheduleTime == Some(p.schedule(due))
    requires status.observedGeneration == w.generation
    ensures var result := CreateForSlot(a, w1, status, due, latestRetained, RequeueAt(p.schedule(due)), f);
            var created := WithRun(a, w, listed, p, count, due);
            var written := AgentStatus(count + 1, a.SlotName(due), Some(due), Some(p.schedule(due)), w.generation, RunCreated);
            match f.create
            case Rejected => result == (w1, Aborted)
            case Lost => result == (created, Aborted)
            case Applied => Writes(created, written, f.patch, RequeueAt(p.schedule(due)), result)
  {
    hide PrunedNames, Agent.SlotName, Cron;
  }

  /** The slot's run belongs to the Agent, although the list did not show it. */
  predicate Unlisted(a: Agent, w: World, due: Time)
    requires Ready(a, w) && due <= w.now
  {
    && a.SlotName(due) in w.runs
    && w.runs[a.SlotName(due)].owner == a.uid && w.runs[a.SlotName(due)].slot == Some(due)
  }

  /** The status after a reconcile has found the slot's own run, which the list did not show. */
  ghost predicate Catches(w: World, listed: seq<Run>, p: Policy, count: nat, run: Run, due: Time, status: AgentStatus)
    requires Cron(p.schedule)
  {
    && status.nextScheduleTime == Some(p.schedule(due)) && status.observedGeneration == w.generation
    && status.reason.RunCreated?
    && status.runsCreated == (if run.sequence.Some? then Max(count + 1, run.sequence.value) else count + 1)
    && exists newest, before ::
         && IsNewestKept(listed, p, newest)
         && IsLaterOf(before, w.status.lastScheduleTime, if newest.Some? then newest.value.slot else None)
         && IsLaterOf(status.lastScheduleTime, before, Some(due))
         && status.lastRunName == if newest.None? || newest.value.slot.value <= due then run.name else newest.value.name
  }

  /** How a reconcile ends that wanted a run but met a taken name, or has used up the numbers. */
  ghost predicate EndsBlocked(a: Agent, w: World, listed: seq<Run>, p: Policy, count: nat, f: Faults, due: Time,
                              pruned: World, result: (World, Outcome))
    requires Ready(a, w) && due <= w.now && Cron(p.schedule)
  {
    if count == MAX_INT32 || f.create.Rejected? || f.verifyFails then result == (pruned, Aborted)
    else if f.vanished then result == (pruned, RequeueNow)
    else if !Unlisted(a, w, due) then result == (pruned, Aborted)
    else exists status :: Catches(w, listed, p, count, w.runs[a.SlotName(due)], due, status)
                          && Writes(pruned, status, f.patch, RequeueAt(p.schedule(due)), result)
  }

  /** A wanted run that cannot be created, because its name is taken or the numbers are used up. */
  lemma WantedButBlocked(a: Agent, w: World, listed: seq<Run>, p: Policy, count: nat, f: Faults, due: Time)
    requires Ready(a, w) && DistinctNames(listed) && w.policy == Some(p) && w.nanos < SECOND && IsCount(w, listed, count)
    requires Prunes(f) && Wanted(w, listed, p, due) && !Creates(a, w, listed, p, count, due)
    ensures EndsBlocked(a, w, listed, p, count, f, due, w.(runs := w.runs - PrunedNames(listed, p)), Reconcile(a, w, listed, f))
  {
    var w1, seen := Decided(a, w, listed, p, f);
    var status := WantedGoesOn(a, w, w1, listed, p, count, seen, f, due);
    if count == MAX_INT32 {
      hide Reconcile, DecideSlot, Knows, IsCount, Wanted, PrunedNames, Catches, Writes, BaseStatus, Unlisted;
    } else {
      BlockedCreate(a, w, w1, listed, p, count, seen, status, f, due);
      hide Reconcile, DecideSlot, IsCount, Wanted, PrunedNames, EndsBlocked, CreateForSlot, BaseStatus, Agent.SlotName;
    }
  }

  lemma BlockedCreate(a: Agent, w: World, w1: World, listed: seq<Run>, p: Policy, count: nat, seen: Observed,
                      status: AgentStatus, f: Faults, due: Time)
    requires Ready(a, w) && due <= w.now && Cron(p.schedule) && a.SlotName(due) in w1.runs && count != MAX_INT32
    requires w1 == w.(runs := w1.runs) && (forall n :: n in w1.runs ==> n in w.runs && w1.runs[n] == w.runs[n])
    requires IsNewestKept(listed, p, seen.latest) && Summary(w, listed, p, count, BaseStatus(w.status, w.generation, seen))
    requires status == BaseStatus(w.status, w.generation, seen).(nextScheduleTime := Some(p.schedule(due)))
    ensures EndsBlocked(a, w, listed, p, count, f, due, w1,
                        CreateForSlot(a, w1, status, due, seen.LatestDue(), RequeueAt(p.schedule(due)), f))
  {
    if !f.create.Rejected? && !f.verifyFails && !f.vanished && Unlisted(a, w, due) {
      var run := w.runs[a.SlotName(due)];
      var found := RecoverStatus(status, run, due, seen.LatestDue());
      var caught := found.(runsCreated := Max(found.runsCreated, status.runsCreated + 1), reason := RunCreated);
      CaughtUp(a, w, listed, p, count, seen, status, run, due, caught);
      PatchWrites(w1, caught, f.patch, RequeueAt(p.schedule(due)));
      assert CreateForSlot(a, w1, status, due, seen.LatestDue(), RequeueAt(p.schedule(due)), f)
          == PatchStatus(w1, caught, f.patch, RequeueAt(p.schedule(due)));
    }
    hide Catches, Writes, IsNewestKept, Summary, Agent.SlotName, Cron, RecoverStatus, BaseStatus;
  }

  lemma CaughtUp(a: Agent, w: World, listed: seq<Run>, p: Policy, count: nat, seen: Observed, status: AgentStatus,
                 run: Run, due: Time, caught: AgentStatus)
    requires Cron(p.schedule) && IsNewestKept(listed, p, seen.latest)
    requires Summary(w, listed, p, count, BaseStatus(w.status, w.generation, seen))
    requires status == BaseStatus(w.status, w.generation, seen).(nextScheduleTime := Some(p.schedule(due)))
    requires var found := RecoverStatus(status, run, due, seen.LatestDue());
             caught == found.(runsCreated := Max(found.runsCreated, status.runsCreated + 1), reason := RunCreated)
    ensures Catches(w, listed, p, count, run, due, caught)
  {
    hide Kept, StrLess;
    var newest, before := seen.latest, BaseStatus(w.status, w.generation, seen).lastScheduleTime;
    assert IsLaterOf(before, w.status.lastScheduleTime, if newest.Some? then newest.value.slot else None);
    assert IsLaterOf(caught.lastScheduleTime, before, Some(due));
    assert caught.lastRunName == if newest.None? || newest.value.slot.value <= due then run.name else newest.value.name;
  }

  /** A reconcile that wants no run: it prunes, writes its summary and the reason, and comes back at the next slot. */
  lemma NothingWanted(a: Agent, w: World, listed: seq<Run>, p: Policy, count: nat, f: Faults)
    requires Ready(a, w) && DistinctNames(listed) && w.policy == Some(p) && w.nanos < SECOND && IsCount(w, listed, count)
    requires Prunes(f) && forall due: Time :: !Wanted(w, listed, p, due)
    ensures exists status, done :: Plain(w, listed, p, count, status, done)
              && Writes(w.(runs := w.runs - PrunedNames(listed, p)), status, f.patch, done, Reconcile(a, w, listed, f))
  {
    var w1, seen := Decided(a, w, listed, p, f);
    var status, done;
    if !Current(w) || p.suspend {
      status, done := NotFollowed(a, w, w1, listed, p, count, seen, f);
    } else if due: Time :| DueSlot(w, p, due) {
      status, done := NotWanted(a, w, w1, listed, p, count, seen, f, due);
    } else {
      status, done := NoSlotDue(a, w, w1, listed, p, count, seen, f);
    }
    PatchWrites(w1, status, f.patch, done);
    hide Reconcile, DecideSlot, Knows, IsCount, Wanted, Cron, PrunedNames, Plain, DueSlot, Writes, PatchStatus;
  }

  /** A reconcile that fails before the slot decision has at most pruned. */
  lemma CutShort(a: Agent, w: World, listed: seq<Run>, f: Faults)
    requires Ready(a, w) && DistinctNames(listed)
    ensures f.listFails ==> Reconcile(a, w, listed, f) == (w, Aborted)
    ensures w.policy.Some? && !f.listFails ==>
              var (w', outcome) := Reconcile(a, w, listed, f);
              || (w', outcome) == Reconcile(a, w, listed, f.(stopAfter := None))
              || (f.stopAfter.Some? && outcome.Aborted?
                  && exists gone :: gone <= PrunedNames(listed, w.policy.value) && w' == w.(runs := w.runs - gone))
  {
    if w.policy.Some? && !f.listFails {
      var p := w.policy.value;
      PrunedByName(listed, p);
      var doomed := Doomed(Sort(ByName, listed), p.successLimit, p.failedLimit);
      hide Doomed, Sort, PrunedNames, Observe, Kept, Pruned, DecideSlot;
      if PruneStops(f.stopAfter, doomed) {
        assert Names(doomed[..f.stopAfter.value]) <= PrunedNames(listed, p);
      } else {
        SameDecision(a, w, listed, f);
      }
    }
  }

  lemma SameDecision(a: Agent, w: World, listed: seq<Run>, f: Faults)
    requires Ready(a, w) && DistinctNames(listed) && w.policy.Some?
    requires DistinctNames(Sort(ByName, listed)) && !f.listFails
    requires !PruneStops(f.stopAfter, Doomed(Sort(ByName, listed), w.policy.value.successLimit, w.policy.value.failedLimit))
    ensures Reconcile(a, w, listed, f) == Reconcile(a, w, listed, f.(stopAfter := None))
  {
    hide Doomed, Sort, PrunedNames, Observe, Kept, Pruned, PatchStatus, LatestDueOf, Overdue, BaseStatus, RecoverStatus;
  }

  /**
   Whatever fails, a reconcile creates no run but the one that is wanted; and one that gets as far as the
   API server creates it exactly when the schedule is followed, a slot is due, in time, without a run and not
   held back, the numbers are not used up and the name is free.
   */
  lemma CreatesIff(a: Agent, w: World, listed: seq<Run>, p: Policy, count: nat, f: Faults)
    requires Ready(a, w) && DistinctNames(listed) && w.policy == Some(p) && w.nanos < SECOND && IsCount(w, listed, count)
    ensures var w' := Reconcile(a, w, listed, f).0;
            && (w'.log != w.log ==>
                  exists due: Time :: Creates(a, w, listed, p, count, due) && w'.log == w.log + [Stamp(due, count + 1)])
            && (Prunes(f) && !f.create.Rejected? ==>
                  (w'.log != w.log <==> exists due: Time :: Creates(a, w, listed, p, count, due)))
  {
    if f.listFails {
      CutShort(a, w, listed, f);
    } else {
      CutShort(a, w, listed, f);
      CreatesPruned(a, w, listed, p, count, f.(stopAfter := None));
    }
    hide Reconcile, Creates, IsCount, Cron, PrunedNames;
  }

  lemma CreatesPruned(a: Agent, w: World, listed: seq<Run>, p: Policy, count: nat, f: Faults)
    requires Ready(a, w) && DistinctNames(listed) && w.policy == Some(p) && w.nanos < SECOND && IsCount(w, listed, count)
    requires Prunes(f)
    ensures var w' := Reconcile(a, w, listed, f).0;
            if exists due: Time :: Creates(a, w, listed, p, count, due) then
              (f.create.Rejected? && w'.log == w.log)
              || (exists due: Time :: Creates(a, w, listed, p, count, due) && w'.log == w.log + [Stamp(due, count + 1)])
            else w'.log == w.log
  {
    hide Reconcile, IsCount, Wanted, Cron, PrunedNames, Plain, DueSlot, Taken, Agent.SlotName, EndsBlocked;
    if due: Time :| Creates(a, w, listed, p, count, due) {
      CreatedRun(a, w, listed, p, count, f, due);
    } else if due: Time :| Wanted(w, listed, p, due) {
      WantedButBlocked(a, w, listed, p, count, f, due);
      BlockedKeepsLog(a, w, listed, p, count, f, due);
    } else {
      NothingWanted(a, w, listed, p, count, f);
    }
  }

  lemma BlockedKeepsLog(a: Agent, w: World, listed: seq<Run>, p: Policy, count: nat, f: Faults, due: Time)
    requires Ready(a, w) && Cron(p.schedule) && Wanted(w, listed, p, due)
    ensures forall pruned: World, result :: EndsBlocked(a, w, listed, p, count, f, due, pruned, result) ==> result.0.log == pruned.log
  {
    hide Catches, Unlisted;
  }

  /** An invalid schedule stops everything but the summary of the runs. */
  lemma InvalidScheduleIdles(a: Agent, w: World, listed: seq<Run>, f: Faults)
    requires Ready(a, w) && DistinctNames(listed) && w.policy.None? && !f.listFails
    ensures exists status :: Writes(w, status, f.patch, Idle, Reconcile(a, w, listed, f))
              && status.reason.InvalidSchedule? && status.observedGeneration == w.generation
              && status.nextScheduleTime == w.status.nextScheduleTime && IsCount(w, listed, status.runsCreated)
  {
    SortByName(listed);
    var items := Sort(ByName, listed);
    var status := BaseStatus(w.status, w.generation, Observe(items)).(reason := InvalidSchedule);
    PatchWrites(w, status, f.patch, Idle);
    assert Summarizes(Observe(items), items);
    hide Sort, Observe, PatchStatus, Writes;
    CountFromItems(w, listed, items, Observe(items));
  }

  lemma CountFromItems(w: World, listed: seq<Run>, items: seq<Run>, seen: Observed)
    requires IsMaxCount(seen.maxCount, items) && forall r :: r in items <==> r in listed
    ensures IsCount(w, listed, BaseStatus(w.status, w.generation, seen).runsCreated)
  {
  }

  /* Over whole executions */

  /** The schedule is invalid or suspended. */
  predicate Stopped(w: World) { w.policy.None? || w.policy.value.suspend }

  lemma StoppedStep(a: Agent, w: World, e: Event)
    requires Ready(a, w) && Enabled(a, w, e) && Stopped(w)
    ensures Step(a, w, e).log == w.log
  {
    if e.ReconcileWith? {
      StoppedReconcile(a, w, e.listed, e.faults);
    }
    hide Reconcile, StaleList, StaleCopy;
  }

  lemma StoppedReconcile(a: Agent, w: World, listed: seq<Run>, f: Faults)
    requires Ready(a, w) && DistinctNames(listed) && Stopped(w)
    ensures Reconcile(a, w, listed, f).0.log == w.log
  {
    hide Sort, Observe, Doomed, Retained, BaseStatus;
    SortByName(listed);
  }

  /** While its schedule is suspended or invalid, an Agent gets no run, whatever the lists show and whichever calls fail. */
  lemma {:induction false} SuspendedStaysQuiet(a: Agent, ws: seq<World>, es: seq<Event>, j: nat, k: nat)
    requires Execution(a, ws, es) && j <= k <= |es|
    requires forall i :: j <= i < k ==> Stopped(ws[i])
    ensures ws[k].log == ws[j].log
    decreases k
  {
    hide Step, Enabled, Initial;
    if j < k {
      SuspendedStaysQuiet(a, ws, es, j, k - 1);
      StoppedStep(a, ws[k - 1], es[k - 1]);
    }
  }
}
