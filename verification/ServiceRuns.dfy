/**
 Whole runs of a Service Agent: never two live standing runs. Either of two regimes gives it:
 children that are listed as stale as they come but never deleted, or deletions at any time
 with lists that are current. Without both, it fails.
 */
module ServiceRuns {
  import opened Prelude
  import opened Decimal
  import opened Scheduler
  import opened AgentRuns
  import opened ServiceRunNames
  import opened ServiceProtocol

  /** `Progress` is the AgentRun controller: it never touches a terminal run. */
  datatype Event =
    | Reconcile(listed: seq<Run>, faults: Faults)
    | Progress(name: string, phase: Phase, completedAt: Option<Time>)
    | Edit(spec: Spec)
    | Tick(now: Time)
    | OtherCreate(run: Run)
    | Delete(name: string)

  /** Run `name` is a standing run of the Agent. */
  predicate Standing(a: Agent, w: World, name: string) {
    name in w.runs && w.runs[name].owner == a.uid && StandingSuffix(a, w.runs[name]).Some?
  }

  predicate Live(a: Agent, w: World, name: string) {
    Standing(a, w, name) && !w.runs[name].phase.IsTerminal()
  }

  ghost predicate AtMostOneLive(a: Agent, w: World) {
    forall m, n :: Live(a, w, m) && Live(a, w, n) ==> m == n
  }

  /** A listed child is some earlier state of a child; standing ones are still there. */
  ghost predicate StaleList(a: Agent, w: World, listed: seq<Run>) {
    && DistinctNames(listed)
    && forall r :: r in listed && StandingSuffix(a, r).Some? ==>
         Standing(a, w, r.name) && (r.phase.IsTerminal() ==> w.runs[r.name].phase == r.phase)
  }

  ghost predicate FreshList(a: Agent, w: World, listed: seq<Run>) {
    && DistinctNames(listed)
    && forall r :: r in listed <==> r.name in w.runs && w.runs[r.name] == r && r.owner == a.uid
  }

  ghost predicate Enabled(a: Agent, w: World, e: Event) {
    match e
    case Reconcile(listed, _) => DistinctNames(listed)
    case Progress(name, _, _) => name in w.runs && !w.runs[name].phase.IsTerminal()
    case Edit(_) => true
    case Tick(now) => w.now <= now
    case OtherCreate(run) =>
      run.name !in w.runs && (run.owner != a.uid || StandingSuffix(a, run).None?)
    case Delete(name) => name in w.runs
  }

  ghost predicate Step(a: Agent, w: World, e: Event, w': World) {
    Enabled(a, w, e) &&
    match e
    case Reconcile(listed, faults) => exists outcome :: Reconciles(a, w, listed, faults, (w', outcome))
    case Progress(name, phase, completedAt) =>
      w' == w.(runs := w.runs[name := w.runs[name].(phase := phase, completedAt := completedAt)])
    case Edit(spec) => w' == w.(spec := spec)
    case Tick(now) => w' == w.(now := now)
    case OtherCreate(run) => w' == w.(runs := w.runs[run.name := run])
    case Delete(name) => w' == w.(runs := w.runs - {name})
  }

  ghost predicate Initial(a: Agent, w: World) {
    w.minted == 0 && forall n :: n in w.runs ==> w.runs[n].name == n && !Standing(a, w, n)
  }

  ghost predicate Execution(a: Agent, ws: seq<World>, es: seq<Event>) {
    && |ws| == |es| + 1
    && Initial(a, ws[0])
    && forall i :: 0 <= i < |es| ==> Step(a, ws[i], es[i], ws[i + 1])
  }

  /** First regime: lists may be stale, standing runs are never deleted. */
  ghost predicate StaleButKept(a: Agent, ws: seq<World>, es: seq<Event>)
    requires |ws| == |es| + 1
  {
    forall i :: 0 <= i < |es| ==>
      && (es[i].Reconcile? ==> StaleList(a, ws[i], es[i].listed))
      && (es[i].Delete? ==> !Standing(a, ws[i], es[i].name))
  }

  /** Second regime: anything may be deleted, lists are current. */
  ghost predicate FreshLists(a: Agent, ws: seq<World>, es: seq<Event>)
    requires |ws| == |es| + 1
  {
    forall i :: 0 <= i < |es| && es[i].Reconcile? ==> FreshList(a, ws[i], es[i].listed)
  }

  ghost predicate NamesMatch(w: World) {
    forall n :: n in w.runs ==> w.runs[n].name == n
  }

  lemma ExecutionPrefix(a: Agent, ws: seq<World>, es: seq<Event>)
    requires Execution(a, ws, es) && es != []
    ensures Execution(a, ws[..|es|], es[..|es| - 1])
  {
    hide Step, Initial;
  }

  /* What any reconcile can do to the runs */

  /** `w'` is `w` with the standing run after the observed maximum added under a free name. */
  ghost predicate Mints(a: Agent, w: World, o: Observed, w': World) {
    var run := NewStanding(a, o.maxSuffix + 1, w.now);
    && o.maxSuffix < MAX_INT32
    && run.name !in w.runs && w'.runs == w.runs[run.name := run] && w'.minted == w.minted + 1
    && (o.current.Some? ==> o.current.value.phase.IsTerminal())
  }

  lemma DecideEffect(a: Agent, w: World, o: Observed, f: Faults)
    requires o.maxSuffix <= MAX_INT32
    ensures var w' := Decide(a, w, o, f).0;
            (w'.runs == w.runs && w'.minted == w.minted) || Mints(a, w, o, w')
  {
    hide StillBackingOff, BackoffOf, StatusOf;
  }

  lemma MaxSuffixFits(a: Agent, o: Observed, children: seq<Run>)
    requires IsTopTwo(a, o, children)
    ensures o.maxSuffix <= MAX_INT32
  {
    if o.current.Some? { SuffixInvertsMinting(a.name, o.current.value.name, o.maxSuffix); }
  }

  /** The new run is standing with its suffix, the others are what they were. */
  lemma MintedIsStanding(a: Agent, w: World, o: Observed, w': World)
    requires NamesMatch(w) && Mints(a, w, o, w')
    ensures NamesMatch(w')
    ensures Standing(a, w', MintedName(a.name, o.maxSuffix + 1))
    ensures StandingSuffix(a, w'.runs[MintedName(a.name, o.maxSuffix + 1)]) == Some(o.maxSuffix + 1)
    ensures !w'.runs[MintedName(a.name, o.maxSuffix + 1)].phase.IsTerminal()
    ensures forall n :: n != MintedName(a.name, o.maxSuffix + 1) ==>
              (Standing(a, w', n) <==> Standing(a, w, n)) && (n in w.runs ==> w'.runs[n] == w.runs[n])
  {
    SuffixInvertsMinting(a.name, MintedName(a.name, o.maxSuffix + 1), o.maxSuffix + 1);
  }

  lemma StandingName(a: Agent, w: World, n: string)
    requires NamesMatch(w) && Standing(a, w, n)
    ensures n == MintedName(a.name, StandingSuffix(a, w.runs[n]).value)
    ensures 1 <= StandingSuffix(a, w.runs[n]).value <= MAX_INT32
  {
    SuffixInvertsMinting(a.name, n, StandingSuffix(a, w.runs[n]).value);
  }

  /* First regime */

  /** The standing runs are exactly agent-1 .. agent-M, all but the last of them terminal. */
  ghost predicate Contiguous(a: Agent, w: World) {
    && NamesMatch(w)
    && w.minted <= MAX_INT32
    && (forall n :: Standing(a, w, n) ==> StandingSuffix(a, w.runs[n]).value <= w.minted)
    && (forall k :: 1 <= k <= w.minted ==> Standing(a, w, MintedName(a.name, k)))
    && (forall k :: 1 <= k < w.minted ==> w.runs[MintedName(a.name, k)].phase.IsTerminal())
  }

  /** A mint under a free name comes from an observation that reached the newest run. */
  lemma MintSawNewest(a: Agent, w: World, listed: seq<Run>, o: Observed, w': World)
    requires Contiguous(a, w) && StaleList(a, w, listed) && IsTopTwo(a, o, listed) && Mints(a, w, o, w')
    ensures o.maxSuffix == w.minted
    ensures w.minted > 0 ==> w.runs[MintedName(a.name, w.minted)].phase.IsTerminal()
  {
    assert !Standing(a, w, MintedName(a.name, o.maxSuffix + 1));
    if o.current.Some? {
      var r := o.current.value;
      SuffixInvertsMinting(a.name, r.name, o.maxSuffix);
      assert Standing(a, w, r.name);
      StandingName(a, w, r.name);
      MintedNameInjective(a.name, o.maxSuffix, a.name, StandingSuffix(a, w.runs[r.name]).value);
    }
  }

  lemma ReconcileContiguous(a: Agent, w: World, listed: seq<Run>, o: Observed, w': World)
    requires Contiguous(a, w) && StaleList(a, w, listed) && IsTopTwo(a, o, listed)
    requires (w'.runs == w.runs && w'.minted == w.minted) || Mints(a, w, o, w')
    ensures Contiguous(a, w')
  {
    if Mints(a, w, o, w') {
      MintSawNewest(a, w, listed, o, w');
      MintedIsStanding(a, w, o, w');
      forall k | 1 <= k <= w.minted
        ensures MintedName(a.name, k) != MintedName(a.name, w.minted + 1)
      {
        MintedNameInjective(a.name, k, a.name, w.minted + 1);
      }
      forall k | 1 <= k <= w.minted ensures Standing(a, w', MintedName(a.name, k)) {
        assert Standing(a, w, MintedName(a.name, k));
      }
    } else {
      assert forall n :: Standing(a, w', n) <==> Standing(a, w, n);
    }
  }

  lemma StepContiguous(a: Agent, w: World, e: Event, w': World)
    requires Contiguous(a, w) && Step(a, w, e, w')
    requires e.Reconcile? ==> StaleList(a, w, e.listed)
    requires e.Delete? ==> !Standing(a, w, e.name)
    ensures Contiguous(a, w')
  {
    match e
    case Reconcile(listed, faults) =>
      var outcome :| Reconciles(a, w, listed, faults, (w', outcome));
      var o :| IsTopTwo(a, o, listed) && (w', outcome) == Decide(a, w, o, faults);
      MaxSuffixFits(a, o, listed);
      DecideEffect(a, w, o, faults);
      ReconcileContiguous(a, w, listed, o, w');
    case Progress(name, _, _) => SameStanding(a, w, w');
    case Edit(_) => SameStanding(a, w, w');
    case Tick(_) => SameStanding(a, w, w');
    case OtherCreate(run) => SameStanding(a, w, w');
    case Delete(name) => SameStanding(a, w, w');
  }

  /** Steps that change no standing run, except perhaps a live one's progress. */
  lemma SameStanding(a: Agent, w: World, w': World)
    requires Contiguous(a, w) && w'.minted == w.minted && NamesMatch(w')
    requires forall n :: Standing(a, w', n) <==> Standing(a, w, n)
    requires forall n :: Standing(a, w, n) ==>
      (Standing(a, w', n) && w'.runs[n].delivered == w.runs[n].delivered && (w.runs[n].phase.IsTerminal() ==> w'.runs[n] == w.runs[n]))
    ensures Contiguous(a, w')
  {
    forall k | 1 <= k <= w.minted ensures Standing(a, w', MintedName(a.name, k)) {
      assert Standing(a, w, MintedName(a.name, k));
    }
  }

  lemma {:induction false} ExecutionContiguous(a: Agent, ws: seq<World>, es: seq<Event>)
    requires Execution(a, ws, es) && StaleButKept(a, ws, es)
    ensures Contiguous(a, ws[|es|])
    decreases |es|
  {
    if es == [] {
    } else {
      hide Step, Initial, Contiguous;
      var n := |es| - 1;
      ExecutionPrefix(a, ws, es);
      ExecutionContiguous(a, ws[..|es|], es[..n]);
      assert Step(a, ws[n], es[n], ws[n + 1]);
      StepContiguous(a, ws[n], es[n], ws[n + 1]);
    }
  }

  /**
   However stale the lists, a Service Agent whose standing runs are not deleted never has two
   live ones, and their names are agent-1 .. agent-M: a stale mint always meets a taken name.
   */
  lemma OneLiveRunDespiteStaleLists(a: Agent, ws: seq<World>, es: seq<Event>)
    requires Execution(a, ws, es) && StaleButKept(a, ws, es)
    ensures AtMostOneLive(a, ws[|es|])
    ensures forall n :: Standing(a, ws[|es|], n)
                   <==> exists k :: 1 <= k <= ws[|es|].minted && n == MintedName(a.name, k)
  {
    var w := ws[|es|];
    ExecutionContiguous(a, ws, es);
    forall n | Standing(a, w, n)
      ensures exists k :: 1 <= k <= w.minted && n == MintedName(a.name, k)
    {
      StandingName(a, w, n);
    }
    forall m, n | Live(a, w, m) && Live(a, w, n) ensures m == n {
      StandingName(a, w, m);
      StandingName(a, w, n);
    }
  }

  /* Second regime */

  /** At most one live run, and its suffix is the greatest. */
  ghost predicate LiveIsNewest(a: Agent, w: World) {
    && NamesMatch(w)
    && forall m, n :: Live(a, w, m) && Standing(a, w, n) ==>
         StandingSuffix(a, w.runs[n]).value <= StandingSuffix(a, w.runs[m]).value
  }

  lemma ReconcileLiveIsNewest(a: Agent, w: World, listed: seq<Run>, o: Observed, w': World)
    requires LiveIsNewest(a, w) && FreshList(a, w, listed) && IsTopTwo(a, o, listed)
    requires (w'.runs == w.runs && w'.minted == w.minted) || Mints(a, w, o, w')
    ensures LiveIsNewest(a, w')
  {
    if Mints(a, w, o, w') {
      MintedIsStanding(a, w, o, w');
      forall n | Standing(a, w, n) ensures StandingSuffix(a, w.runs[n]).value <= o.maxSuffix && !Live(a, w, n) {
        assert w.runs[n] in listed;
        var top := o.current.value;
        assert Standing(a, w, top.name);
        if StandingSuffix(a, w.runs[n]) == StandingSuffix(a, top) { SuffixDeterminesName(a, w.runs[n], top); }
      }
    } else {
      assert forall n :: Standing(a, w', n) <==> Standing(a, w, n);
    }
  }

  lemma OtherLiveIsNewest(a: Agent, w: World, e: Event, w': World)
    requires LiveIsNewest(a, w) && Step(a, w, e, w') && !e.Reconcile?
    ensures LiveIsNewest(a, w')
  {
    assert forall n :: Standing(a, w', n) ==> Standing(a, w, n) && w'.runs[n].name == w.runs[n].name;
    assert forall n :: Live(a, w', n) ==> Live(a, w, n);
  }

  lemma StepLiveIsNewest(a: Agent, w: World, e: Event, w': World)
    requires LiveIsNewest(a, w) && Step(a, w, e, w')
    requires e.Reconcile? ==> FreshList(a, w, e.listed)
    ensures LiveIsNewest(a, w')
  {
    if e.Reconcile? {
      var outcome :| Reconciles(a, w, e.listed, e.faults, (w', outcome));
      var o :| IsTopTwo(a, o, e.listed) && (w', outcome) == Decide(a, w, o, e.faults);
      MaxSuffixFits(a, o, e.listed);
      DecideEffect(a, w, o, e.faults);
      ReconcileLiveIsNewest(a, w, e.listed, o, w');
      hide LiveIsNewest, Decide, IsTopTwo;
    } else {
      OtherLiveIsNewest(a, w, e, w');
    }
  }

  lemma {:induction false} ExecutionLiveIsNewest(a: Agent, ws: seq<World>, es: seq<Event>)
    requires Execution(a, ws, es) && FreshLists(a, ws, es)
    ensures LiveIsNewest(a, ws[|es|])
    decreases |es|
  {
    if es == [] {
    } else {
      hide Step, Initial, LiveIsNewest;
      var n := |es| - 1;
      ExecutionPrefix(a, ws, es);
      ExecutionLiveIsNewest(a, ws[..|es|], es[..n]);
      assert Step(a, ws[n], es[n], ws[n + 1]);
      StepLiveIsNewest(a, ws[n], es[n], ws[n + 1]);
    }
  }

  /** With current lists no deletion, of any run at any time, leads to two live standing runs. */
  lemma OneLiveRunDespiteDeletions(a: Agent, ws: seq<World>, es: seq<Event>)
    requires Execution(a, ws, es) && FreshLists(a, ws, es)
    ensures AtMostOneLive(a, ws[|es|])
  {
    var w := ws[|es|];
    ExecutionLiveIsNewest(a, ws, es);
    forall m, n | Live(a, w, m) && Live(a, w, n) ensures m == n {
      StandingName(a, w, m);
      StandingName(a, w, n);
    }
  }

  /* Neither regime */

  const ANY_SPEC := Spec(true, None)
  const NO_FAULTS := Faults(false, Applied, false, false, Applied)

  /** Some execution whose lists are stale, but in which runs may be deleted, ends in `w`. */
  ghost predicate ReachableStale(a: Agent, w: World) {
    exists ws: seq<World>, es: seq<Event> ::
      && Execution(a, ws, es) && ws[|es|] == w
      && forall i :: 0 <= i < |es| && es[i].Reconcile? ==> StaleList(a, ws[i], es[i].listed)
  }

  lemma ReachableStep(a: Agent, w: World, e: Event, next: World)
    requires ReachableStale(a, w) && Step(a, w, e, next) && (e.Reconcile? ==> StaleList(a, w, e.listed))
    ensures ReachableStale(a, next)
  {
    hide Step, Initial, StaleList;
    var ws: seq<World>, es: seq<Event> :|
      && Execution(a, ws, es) && ws[|es|] == w
      && forall i :: 0 <= i < |es| && es[i].Reconcile? ==> StaleList(a, ws[i], es[i].listed);
    var ws', es' := ws + [next], es + [e];
    assert Execution(a, ws', es') && ws'[|es'|] == next;
    assert forall i :: 0 <= i < |es'| && es'[i].Reconcile? ==> StaleList(a, ws'[i], es'[i].listed);
  }

  function Start(): World { World(map[], ServiceStatus("", "", 0, 0, Unset), ANY_SPEC, 0, 0) }

  function FirstRun(a: Agent): Run { NewStanding(a, 1, 0) }

  function FailedRun(a: Agent): Run { FirstRun(a).(phase := Failed, completedAt := Some(0)) }

  function Minted(a: Agent): World {
    World(map[FirstRun(a).name := FirstRun(a)], ServiceStatus(FirstRun(a).name, "", 1, 0, Recasting), ANY_SPEC, 0, 1)
  }

  /** The first run has failed, and its backoff of five seconds is over. */
  function BackedOff(a: Agent): World {
    Minted(a).(runs := map[FirstRun(a).name := FailedRun(a)], now := 5)
  }

  function Recast(a: Agent): World {
    var second := NewStanding(a, 2, 5);
    World(map[FirstRun(a).name := FailedRun(a), second.name := second],
          ServiceStatus(second.name, FirstRun(a).name, 2, 1, Recasting), ANY_SPEC, 5, 2)
  }

  /** agent-2 is live; agent-1 was deleted after it failed. */
  function AfterDeletion(a: Agent): World {
    Recast(a).(runs := map[NewStanding(a, 2, 5).name := NewStanding(a, 2, 5)])
  }

  /** A reconcile that finds the name of its next run free creates it. */
  lemma MintStep(a: Agent, w: World, listed: seq<Run>, o: Observed)
    requires DistinctNames(listed) && IsTopTwo(a, o, listed) && Creates(a, w, o)
    ensures var run := NewStanding(a, o.maxSuffix + 1, w.now);
            var last := if o.current.Some? then o.current.value.name else "";
            var w' := World(w.runs[run.name := run], ServiceStatus(run.name, last, o.maxSuffix + 1, o.maxSuffix, Recasting),
                            w.spec, w.now, w.minted + 1);
            && Step(a, w, Reconcile(listed, NO_FAULTS), w') && w' == Decide(a, w, o, NO_FAULTS).0
  {
    hide IsTopTwo, StillBackingOff, MintedName;
    var result := Decide(a, w, o, NO_FAULTS);
    assert Reconciles(a, w, listed, NO_FAULTS, (result.0, result.1));
    assert (result.0, result.1) == result;
  }

  lemma NamesOfTwo(a: Agent)
    ensures MintedName(a.name, 1) != MintedName(a.name, 2)
    ensures ServiceRunSuffix(a.name, MintedName(a.name, 1)) == Some(1)
    ensures ServiceRunSuffix(a.name, MintedName(a.name, 2)) == Some(2)
  {
    MintedNameInjective(a.name, 1, a.name, 2);
    SuffixInvertsMinting(a.name, MintedName(a.name, 1), 1);
    SuffixInvertsMinting(a.name, MintedName(a.name, 2), 2);
  }

  lemma FirstBackoff()
    ensures BackoffOf(None, 0) == 5
  {
    assert Pow2(0) == 1;
  }

  lemma DeletionReachable(a: Agent)
    ensures ReachableStale(a, AfterDeletion(a))
  {
    hide MintedName, ServiceRunSuffix, ReachableStale, Reconciles, BackoffOf;
    NamesOfTwo(a);
    FirstBackoff();
    StartReachable(a);
    MintStep(a, Start(), [], Observed(None, None, 0));
    ReachableStep(a, Start(), Reconcile([], NO_FAULTS), Minted(a));
    var name := FirstRun(a).name;
    var failed := Minted(a).(runs := map[name := FailedRun(a)]);
    assert failed.runs == Minted(a).runs[name := FailedRun(a)];
    ReachableStep(a, Minted(a), Progress(name, Failed, Some(0)), failed);
    ReachableStep(a, failed, Tick(5), BackedOff(a));
    MintStep(a, BackedOff(a), [FailedRun(a)], Observed(Some(FailedRun(a)), None, 1));
    assert Recast(a).runs == BackedOff(a).runs[MintedName(a.name, 2) := NewStanding(a, 2, 5)];
    ReachableStep(a, BackedOff(a), Reconcile([FailedRun(a)], NO_FAULTS), Recast(a));
    assert AfterDeletion(a).runs == Recast(a).runs - {name};
    ReachableStep(a, Recast(a), Delete(name), AfterDeletion(a));
  }

  lemma StartReachable(a: Agent)
    ensures ReachableStale(a, Start())
  {
    assert Execution(a, [Start()], []);
  }

  /**
   Create, fail, recast, delete the old run, and a list that misses the live one mints the deleted name
   again: an execution with stale lists and a deletion that ends with two live runs.
   */
  lemma StaleListAfterDeletion(a: Agent) returns (w: World)
    ensures ReachableStale(a, w) && !AtMostOneLive(a, w)
    ensures AtMostOneLive(a, AfterDeletion(a)) && ReachableStale(a, AfterDeletion(a))
    ensures StaleList(a, AfterDeletion(a), []) && Step(a, AfterDeletion(a), Reconcile([], NO_FAULTS), w)
  {
    hide MintedName, ServiceRunSuffix, ReachableStale, Reconciles;
    NamesOfTwo(a);
    DeletionReachable(a);
    var before := AfterDeletion(a);
    MintStep(a, before, [], Observed(None, None, 0));
    w := Decide(a, before, Observed(None, None, 0), NO_FAULTS).0;
    ReachableStep(a, before, Reconcile([], NO_FAULTS), w);
    assert Live(a, w, MintedName(a.name, 1)) && Live(a, w, MintedName(a.name, 2));
  }

  /* Exactly when one reconcile keeps a single live run */

  /** The reconcile gets as far as creating a run under a free name. */
  predicate Creates(a: Agent, w: World, o: Observed) {
    && w.spec.hasGoal && (o.current.Some? ==> o.current.value.phase.IsTerminal()) && !StillBackingOff(w, o)
    && o.maxSuffix < MAX_INT32 && MintedName(a.name, o.maxSuffix + 1) !in w.runs
  }

  /**
   Whatever is listed: a reconcile in which no call fails keeps at most one live run exactly when none is
   live, or the list's newest standing run is shown live or still backing off, or the next name is taken
   or does not exist.
   */
  lemma OneLiveKeptIff(a: Agent, w: World, listed: seq<Run>, o: Observed)
    requires NamesMatch(w) && AtMostOneLive(a, w) && IsTopTwo(a, o, listed)
    ensures AtMostOneLive(a, Decide(a, w, o, NO_FAULTS).0) <==> !Creates(a, w, o) || forall n :: !Live(a, w, n)
  {
    MaxSuffixFits(a, o, listed);
    var w' := Decide(a, w, o, NO_FAULTS).0;
    if Creates(a, w, o) {
      CreateMints(a, w, o);
      MintedIsStanding(a, w, o, w');
      hide Decide, Mints, StandingSuffix, MintedName, IsTopTwo, StillBackingOff;
      var minted := MintedName(a.name, o.maxSuffix + 1);
      assert Live(a, w', minted) && !Live(a, w, minted);
      assert forall n :: n != minted ==> (Live(a, w', n) <==> Live(a, w, n));
    } else {
      NoCreateNoChange(a, w, o);
      hide Decide, Mints, StandingSuffix, MintedName, IsTopTwo, StillBackingOff;
      assert forall n :: Live(a, w', n) <==> Live(a, w, n);
    }
  }

  lemma CreateMints(a: Agent, w: World, o: Observed)
    requires Creates(a, w, o)
    ensures Mints(a, w, o, Decide(a, w, o, NO_FAULTS).0)
  {
    hide StillBackingOff, MintedName;
  }

  lemma NoCreateNoChange(a: Agent, w: World, o: Observed)
    requires !Creates(a, w, o) && o.maxSuffix <= MAX_INT32
    ensures Decide(a, w, o, NO_FAULTS).0.runs == w.runs
  {
    hide StillBackingOff, MintedName, BackoffOf, StatusOf;
  }

  /** In particular a list that shows the newest live run is enough, however stale it is otherwise. */
  lemma ShownLiveIsKept(a: Agent, w: World, listed: seq<Run>, o: Observed, r: Run)
    requires LiveIsNewest(a, w) && AtMostOneLive(a, w) && StaleList(a, w, listed) && IsTopTwo(a, o, listed)
    requires r in listed && Live(a, w, r.name) && StandingSuffix(a, r).Some?
    ensures AtMostOneLive(a, Decide(a, w, o, NO_FAULTS).0)
  {
    var top := o.current.value;
    assert Standing(a, w, top.name);
    SameSuffix(a, w, top);
    SameSuffix(a, w, r);
    SuffixDeterminesName(a, r, top);
    OneLiveKeptIff(a, w, listed, o);
    hide Decide, IsTopTwo, ServiceRunSuffix, StillBackingOff, MintedName;
    assert top == r;
  }

  /** A listed copy of a standing run has the suffix of the run. */
  lemma SameSuffix(a: Agent, w: World, r: Run)
    requires NamesMatch(w) && Standing(a, w, r.name) && StandingSuffix(a, r).Some?
    ensures StandingSuffix(a, r) == StandingSuffix(a, w.runs[r.name])
  {
    hide ServiceRunSuffix;
  }
}
