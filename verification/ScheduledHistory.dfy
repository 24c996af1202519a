/** Summaries and pruning of a Scheduled Agent's children. */
module ScheduledHistory {
  import opened Prelude
  import opened Scheduler
  import opened Sorting
  import opened AgentRuns

  datatype Observed = Observed(
    bySlot: map<Time, Run>,
    latest: Option<Run>,
    maxCount: nat,
    hasActive: bool)
  {
    function LatestDue(): Option<Time> { if latest.None? then None else latest.value.slot }
  }

  const NOTHING := Observed(map[], None, 0, false)

  /** Whether `run` takes over as the newest-slot child. */
  predicate Supersedes(run: Run, latest: Option<Run>)
    requires run.slot.Some? && (latest.Some? ==> latest.value.slot.Some?)
  {
    latest.None? || run.slot.value > latest.value.slot.value ||
    (run.slot == latest.value.slot && StrLess(latest.value.name, run.name))
  }

  /** What a summary of `items` must say, whatever order the items were visited in. */
  ghost predicate Summarizes(o: Observed, items: seq<Run>) {
    && (o.hasActive <==> exists r :: r in items && !r.phase.IsTerminal())
    && IsMaxCount(o.maxCount, items)
    && IsSlotMap(o.bySlot, items)
    && IsLatest(o.latest, items)
  }

  ghost predicate IsMaxCount(n: nat, items: seq<Run>) {
    && (forall r :: r in items && r.sequence.Some? ==> r.sequence.value <= n)
    && (n > 0 ==> exists r :: r in items && r.sequence == Some(n))
  }

  ghost predicate IsSlotMap(m: map<Time, Run>, items: seq<Run>) {
    && (forall r :: r in items && r.slot.Some? ==> r.slot.value in m && !StrLess(m[r.slot.value].name, r.name))
    && (forall t :: t in m ==> m[t] in items && m[t].slot == Some(t))
  }

  ghost predicate IsLatest(latest: Option<Run>, items: seq<Run>) {
    && (latest.Some? ==> latest.value in items && latest.value.slot.Some?)
    && (forall r :: r in items && r.slot.Some? ==> latest.Some? && !Supersedes(r, latest))
  }

  /** Distinct names leave no choice: a set of items has one summary. */
  lemma SummaryUnique(a: Observed, b: Observed, items: seq<Run>)
    requires DistinctNames(items) && Summarizes(a, items) && Summarizes(b, items)
    ensures a == b
  {
    SlotMapUnique(a.bySlot, b.bySlot, items);
    if a.latest.Some? && b.latest.Some? {
      StrLessTotal(a.latest.value.name, b.latest.value.name);
    }
  }

  lemma {:induction false} SummaryExists(items: seq<Run>)
    requires DistinctNames(items) && Ascending(ByName, items)
    ensures exists o :: Summarizes(o, items)
  {
    if items == [] {
      assert Summarizes(NOTHING, items);
    } else {
      var last := |items| - 1;
      SummaryExists(items[..last]);
      var before :| Summarizes(before, items[..last]);
      var run := items[last];
      var more := run.sequence.Some? && run.sequence.value > before.maxCount;
      var o := Observed(
        if run.slot.Some? then before.bySlot[run.slot.value := run] else before.bySlot,
        if run.slot.Some? && Supersedes(run, before.latest) then Some(run) else before.latest,
        if more then run.sequence.value else before.maxCount,
        before.hasActive || !run.phase.IsTerminal());
      AbsorbKeepsSummary(before, o, items[..last], run);
      assert items == items[..last] + [run];
    }
  }

  /** Specification function: the one summary of a list with distinct names. */
  ghost function Observe(items: seq<Run>): (o: Observed)
    requires DistinctNames(items)
    ensures Summarizes(o, items)
  {
    SummaryExistsUnsorted(items);
    var o :| Summarizes(o, items);
    o
  }

  lemma SummaryExistsUnsorted(items: seq<Run>)
    requires DistinctNames(items)
    ensures exists o :: Summarizes(o, items)
  {
    SortByName(items);
    var sorted := Sort(ByName, items);
    SummaryExists(sorted);
    var o :| Summarizes(o, sorted);
    SameMembersSameSummary(o, sorted, items);
  }

  lemma SameMembersSameSummary(o: Observed, items: seq<Run>, others: seq<Run>)
    requires Summarizes(o, items) && forall r :: r in items <==> r in others
    ensures Summarizes(o, others)
  {
    assert IsMaxCount(o.maxCount, others);
    assert IsSlotMap(o.bySlot, others);
    assert IsLatest(o.latest, others);
  }

  lemma SortByName(items: seq<Run>)
    requires DistinctNames(items)
    ensures var s := Sort(ByName, items);
            DistinctNames(s) && Ascending(ByName, s) && (forall r :: r in s <==> r in items)
  {
    ByNameTotal(items);
    SortMembers(ByName, items);
    SortAscending(ByName, items);
    var s := Sort(ByName, items);
    forall i, j | 0 <= i < j < |s| ensures s[i].name != s[j].name {
      assert ByName(s[i], s[j]);
      StrLessIrreflexive(s[i].name);
    }
  }

  lemma SlotMapUnique(m: map<Time, Run>, n: map<Time, Run>, items: seq<Run>)
    requires DistinctNames(items) && IsSlotMap(m, items) && IsSlotMap(n, items)
    ensures m == n
  {
    forall t ensures t in m <==> t in n {
      if t in m { assert m[t] in items; }
      if t in n { assert n[t] in items; }
    }
    forall t | t in m ensures m[t] == n[t] {
      assert m[t] in items && n[t] in items;
      StrLessTotal(m[t].name, n[t].name);
    }
  }

  /** The summary the loop builds. The items must come in name order. */
  method Summarize(items: seq<Run>) returns (observed: Observed)
    requires DistinctNames(items) && Ascending(ByName, items)
    ensures Summarizes(observed, items)
  {
    var bySlot: map<Time, Run> := map[];
    var latest: Option<Run> := None;
    var maxCount: nat := 0;
    var hasActive := false;
    for i := 0 to |items|
      invariant Summarizes(Observed(bySlot, latest, maxCount, hasActive), items[..i])
    {
      ghost var before := Observed(bySlot, latest, maxCount, hasActive);
      var run := items[i];
      if !run.phase.IsTerminal() {
        hasActive := true;
      }
      if run.sequence.Some? && run.sequence.value > maxCount {
        maxCount := run.sequence.value;
      }
      if run.slot.Some? {
        bySlot := bySlot[run.slot.value := run];
        if Supersedes(run, latest) {
          latest := Some(run);
        }
      }
      assert items[..i + 1] == items[..i] + [run];
      AbsorbKeepsSummary(before, Observed(bySlot, latest, maxCount, hasActive), items[..i], run);
    }
    assert items[..|items|] == items;
    observed := Observed(bySlot, latest, maxCount, hasActive);
  }

  /** One more item, greater in name than all before it. */
  lemma AbsorbKeepsSummary(o: Observed, o': Observed, items: seq<Run>, run: Run)
    requires Summarizes(o, items)
    requires forall r :: r in items ==> ByName(r, run)
    requires o'.hasActive == (o.hasActive || !run.phase.IsTerminal())
    requires o'.maxCount ==
             if run.sequence.Some? && run.sequence.value > o.maxCount then run.sequence.value else o.maxCount
    requires o'.bySlot == if run.slot.Some? then o.bySlot[run.slot.value := run] else o.bySlot
    requires o'.latest == if run.slot.Some? && Supersedes(run, o.latest) then Some(run) else o.latest
    ensures Summarizes(o', items + [run])
  {
    var all := items + [run];
    assert forall r :: r in all <==> r in items || r == run;
    AbsorbCount(o.maxCount, o'.maxCount, items, run);
    AbsorbSlot(o.bySlot, o'.bySlot, items, run);
    AbsorbLatest(o.latest, o'.latest, items, run);
    assert o'.hasActive <==> exists r :: r in all && !r.phase.IsTerminal() by {
      assert run in all;
      assert forall r :: r in items ==> r in all;
    }
  }

  lemma AbsorbCount(n: nat, n': nat, items: seq<Run>, run: Run)
    requires IsMaxCount(n, items)
    requires n' == if run.sequence.Some? && run.sequence.value > n then run.sequence.value else n
    ensures IsMaxCount(n', items + [run])
  {
    assert run in items + [run];
    assert forall r :: r in items ==> r in items + [run];
  }

  lemma AbsorbSlot(m: map<Time, Run>, m': map<Time, Run>, items: seq<Run>, run: Run)
    requires IsSlotMap(m, items) && forall r :: r in items ==> ByName(r, run)
    requires m' == if run.slot.Some? then m[run.slot.value := run] else m
    ensures IsSlotMap(m', items + [run])
  {
    assert run in items + [run];
    StrLessIrreflexive(run.name);
    forall r | r in items ensures !StrLess(run.name, r.name) { StrLessAsymmetric(r.name, run.name); }
  }

  lemma AbsorbLatest(latest: Option<Run>, latest': Option<Run>, items: seq<Run>, run: Run)
    requires IsLatest(latest, items) && forall r :: r in items ==> ByName(r, run)
    requires latest' == if run.slot.Some? && Supersedes(run, latest) then Some(run) else latest
    ensures IsLatest(latest', items + [run])
  {
    assert run in items + [run];
    StrLessIrreflexive(run.name);
    forall r | r in items ensures !StrLess(run.name, r.name) { StrLessAsymmetric(r.name, run.name); }
  }

  /* Pruning */

  function SortTime(run: Run): Time {
    if run.slot.Some? then run.slot.value
    else if run.completedAt.Some? then run.completedAt.value
    else run.createdAt
  }

  /** The order that history limits count in: newest slot first, then greatest name. */
  predicate Newer(a: Run, b: Run) {
    SortTime(a) > SortTime(b) || (SortTime(a) == SortTime(b) && StrLess(b.name, a.name))
  }

  lemma NewerTotal(runs: seq<Run>)
    requires DistinctNames(runs)
    ensures TotalOn(Newer, runs) && Distinct(runs)
  {
    ByNameTotal(runs);
    forall x, y, z | x in runs && y in runs && z in runs && Newer(x, y) && Newer(y, z)
      ensures Newer(x, z)
    {
      if SortTime(x) == SortTime(z) { assert ByName(y, x) && ByName(z, y); }
    }
    forall x, y | x in runs && y in runs ensures Newer(x, y) || x == y || Newer(y, x) {
      assert ByName(x, y) || x == y || ByName(y, x);
    }
    forall x | x in runs ensures !Newer(x, x) { assert !ByName(x, x); }
  }

  predicate IsSuccessful(r: Run) { r.phase.Succeeded? }

  predicate IsFailed(r: Run) { r.phase.Failed? || r.phase.BudgetExceeded? }

  function Filter(keep: Run -> bool, runs: seq<Run>): (kept: seq<Run>)
    ensures forall r :: r in kept <==> r in runs && keep(r)
    ensures |kept| <= |runs|
  {
    if runs == [] then []
    else
      var rest := Filter(keep, runs[1..]);
      if keep(runs[0]) then [runs[0]] + rest else rest
  }

  lemma {:induction false} FilterDistinct(keep: Run -> bool, runs: seq<Run>)
    requires DistinctNames(runs)
    ensures DistinctNames(Filter(keep, runs))
  {
    if runs != [] {
      FilterDistinct(keep, runs[1..]);
      var rest := Filter(keep, runs[1..]);
      forall j | 0 <= j < |rest| ensures rest[j].name != runs[0].name {
        assert rest[j] in runs[1..];
      }
    }
  }

  /** The runs of one class beyond the newest `limit`, newest first: the deletion order. */
  function Excess(keep: Run -> bool, runs: seq<Run>, limit: nat): seq<Run> {
    Drop(Sort(Newer, Filter(keep, runs)), limit)
  }

  function Doomed(runs: seq<Run>, successLimit: nat, failedLimit: nat): seq<Run> {
    Excess(IsSuccessful, runs, successLimit) + Excess(IsFailed, runs, failedLimit)
  }

  lemma SortedClass(keep: Run -> bool, runs: seq<Run>)
    requires DistinctNames(runs)
    ensures var s := Sort(Newer, Filter(keep, runs));
            && TotalOn(Newer, s) && Distinct(s) && Ascending(Newer, s)
            && |s| == |Filter(keep, runs)|
            && forall r :: r in s <==> r in runs && keep(r)
  {
    var group := Filter(keep, runs);
    FilterDistinct(keep, runs);
    NewerTotal(group);
    SortMembers(Newer, group);
    SortAscending(Newer, group);
    var s := Sort(Newer, group);
    forall i, j | 0 <= i < j < |s| ensures s[i] != s[j] {
      assert Newer(s[i], s[j]);
      assert s[i] in group;
    }
  }

  /** The runs of a class that come before `r` in the history order. */
  ghost function NewerInClass(keep: Run -> bool, runs: seq<Run>, r: Run): set<Run> {
    set q | q in runs && keep(q) && Newer(q, r)
  }

  /** Exactly the runs of the class that at least `limit` newer runs of the class precede. */
  lemma ExcessByRank(keep: Run -> bool, runs: seq<Run>, limit: nat, r: Run)
    requires DistinctNames(runs)
    ensures r in Excess(keep, runs, limit)
       <==> r in runs && keep(r) && |NewerInClass(keep, runs, r)| >= limit
  {
    SortedClass(keep, runs);
    var s := Sort(Newer, Filter(keep, runs));
    DropByRank(Newer, s, limit, r);
    assert NewerInClass(keep, runs, r) == Before(Newer, s, r);
  }

  /** Pruning takes terminal runs of the list only, and never the newest run of all. */
  lemma DoomedAreOldTerminal(runs: seq<Run>, successLimit: nat, failedLimit: nat, r: Run)
    requires DistinctNames(runs) && r in Doomed(runs, successLimit, failedLimit)
    ensures r in runs && r.phase.IsTerminal()
    ensures successLimit > 0 && failedLimit > 0 ==> exists q :: q in runs && Newer(q, r)
  {
    if r in Excess(IsSuccessful, runs, successLimit) {
      ExcessOutranked(IsSuccessful, runs, successLimit, r);
    } else {
      ExcessOutranked(IsFailed, runs, failedLimit, r);
    }
  }

  lemma ExcessOutranked(keep: Run -> bool, runs: seq<Run>, limit: nat, r: Run)
    requires DistinctNames(runs) && r in Excess(keep, runs, limit)
    ensures r in runs && keep(r)
    ensures limit > 0 ==> exists q :: q in runs && Newer(q, r)
  {
    ExcessByRank(keep, runs, limit, r);
    if limit > 0 {
      var q :| q in NewerInClass(keep, runs, r);
      assert q in runs && Newer(q, r);
    }
  }

  /** The items that survive a prune, in the order they were listed. */
  function Retained(items: seq<Run>, deleted: set<string>): seq<Run> {
    Filter((r: Run) => r.name !in deleted, items)
  }

  function Names(runs: seq<Run>): set<string> { set r | r in runs :: r.name }

  /** One class after a prune: its newest `limit` runs and no others. */
  lemma SecondPruneClass(keep: Run -> bool, runs: seq<Run>, limit: nat, kept: seq<Run>)
    requires DistinctNames(runs) && DistinctNames(kept)
    requires forall r :: r in kept && keep(r) ==> r in runs && r !in Excess(keep, runs, limit)
    ensures Excess(keep, kept, limit) == []
  {
    if Excess(keep, kept, limit) != [] {
      var last := Excess(keep, kept, limit)[0];
      ExcessByRank(keep, kept, limit, last);
      ExcessByRank(keep, runs, limit, last);
      SubsetCount(NewerInClass(keep, kept, last), NewerInClass(keep, runs, last));
      assert false;
    }
  }

  lemma {:induction false} SubsetCount<T>(a: set<T>, b: set<T>)
    requires a <= b
    ensures |a| <= |b|
  {
    assert b == a + (b - a);
  }

  /** A second prune of what a prune left deletes nothing. */
  lemma PruneIdempotent(runs: seq<Run>, successLimit: nat, failedLimit: nat)
    requires DistinctNames(runs)
    ensures var kept := Retained(runs, Names(Doomed(runs, successLimit, failedLimit)));
            Doomed(kept, successLimit, failedLimit) == []
  {
    var doomed := Doomed(runs, successLimit, failedLimit);
    var kept := Retained(runs, Names(doomed));
    FilterDistinct((r: Run) => r.name !in Names(doomed), runs);
    assert forall r :: r in doomed ==> r.name in Names(doomed);
    assert forall r :: r in Excess(IsSuccessful, runs, successLimit) ==> r in doomed;
    assert forall r :: r in Excess(IsFailed, runs, failedLimit) ==> r in doomed;
    SecondPruneClass(IsSuccessful, runs, successLimit, kept);
    SecondPruneClass(IsFailed, runs, failedLimit, kept);
  }
}
