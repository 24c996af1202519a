/**
 What a Service reconcile does, in terms of the Agent's numbered runs alone: which run it creates, which
 runs the status names, and when it comes back.
 */
module ServiceEffect {
  import opened Prelude
  import opened Decimal
  import opened Scheduler
  import opened AgentRuns
  import opened ServiceRunNames
  import opened ServiceProtocol
  import opened ServiceRuns

  /* The numbered runs agent-1 .. agent-M */

  function NewestName(a: Agent, w: World): string { if w.minted == 0 then "" else MintedName(a.name, w.minted) }

  /** The newest run is active. */
  predicate NewestActive(a: Agent, w: World) {
    w.minted > 0 && NewestName(a, w) in w.runs && !w.runs[NewestName(a, w)].phase.IsTerminal()
  }

  /** When the newest run, which has ended, may be followed by another; None when at once. */
  function ReadyAt(a: Agent, w: World): Option<int> {
    if w.minted == 0 || NewestName(a, w) !in w.runs || w.runs[NewestName(a, w)].completedAt.None? then None
    else Some(w.runs[NewestName(a, w)].completedAt.value + BackoffOf(w.spec.backoff, w.minted - 1))
  }

  predicate BackingOff(a: Agent, w: World) { ReadyAt(a, w).Some? && w.now < ReadyAt(a, w).value }

  /** The status names the two newest runs and counts them. */
  predicate Names(a: Agent, status: ServiceStatus, minted: nat) {
    && status.currentRunName == (if minted == 0 then "" else MintedName(a.name, minted))
    && status.lastRunName == (if minted <= 1 then "" else MintedName(a.name, minted - 1))
    && status.runsCreated == minted
    && status.restarts == Max(0, minted - 1)
  }

  /** The observation of a current list. */
  lemma ObservedTopTwo(a: Agent, w: World, listed: seq<Run>, o: Observed)
    requires Contiguous(a, w) && FreshList(a, w, listed) && IsTopTwo(a, o, listed)
    ensures o.maxSuffix == w.minted
    ensures if w.minted == 0 then o.current.None?
            else NewestName(a, w) in w.runs && o.current == Some(w.runs[NewestName(a, w)])
    ensures if w.minted <= 1 then o.previous.None?
            else o.previous.Some? && o.previous.value.name == MintedName(a.name, w.minted - 1)
  {
    hide FreshList, Contiguous, MintedName, ServiceRunSuffix;
    ListedSuffixes(a, w, listed);
    NumberedTopTwo(a, w, listed, o);
  }

  /** The list holds runs with the suffixes 1 to `minted`, each once. */
  lemma NumberedTopTwo(a: Agent, w: World, listed: seq<Run>, o: Observed)
    requires IsTopTwo(a, o, listed)
    requires forall k :: 1 <= k <= w.minted ==>
              && MintedName(a.name, k) in w.runs && w.runs[MintedName(a.name, k)] in listed
              && StandingSuffix(a, w.runs[MintedName(a.name, k)]) == Some(k)
    requires forall r :: r in listed && StandingSuffix(a, r).Some? ==>
              var k := StandingSuffix(a, r).value;
              && 1 <= k <= w.minted && r.name == MintedName(a.name, k) && r == w.runs[MintedName(a.name, k)]
    ensures o.maxSuffix == w.minted
    ensures if w.minted == 0 then o.current.None?
            else NewestName(a, w) in w.runs && o.current == Some(w.runs[NewestName(a, w)])
    ensures if w.minted <= 1 then o.previous.None?
            else o.previous.Some? && o.previous.value.name == MintedName(a.name, w.minted - 1)
  {
    hide MintedName, StandingSuffix;
    if w.minted > 0 { assert StandingSuffix(a, w.runs[MintedName(a.name, w.minted)]) == Some(w.minted); }
    if w.minted > 1 { assert StandingSuffix(a, w.runs[MintedName(a.name, w.minted - 1)]) == Some(w.minted - 1); }
    if o.current.Some? { assert StandingSuffix(a, o.current.value) == Some(o.maxSuffix); }
    if o.previous.Some? { assert StandingSuffix(a, o.previous.value).Some?; }
  }

  /** The standing runs that a current list shows are the numbered ones. */
  lemma ListedSuffixes(a: Agent, w: World, listed: seq<Run>)
    requires Contiguous(a, w) && FreshList(a, w, listed)
    ensures forall k :: 1 <= k <= w.minted ==>
              && MintedName(a.name, k) in w.runs && w.runs[MintedName(a.name, k)] in listed
              && StandingSuffix(a, w.runs[MintedName(a.name, k)]) == Some(k)
    ensures forall r :: r in listed && StandingSuffix(a, r).Some? ==>
              var k := StandingSuffix(a, r).value;
              && 1 <= k <= w.minted && r.name == MintedName(a.name, k) && r == w.runs[MintedName(a.name, k)]
  {
    forall k | 1 <= k <= w.minted
      ensures MintedName(a.name, k) in w.runs && w.runs[MintedName(a.name, k)] in listed
      ensures StandingSuffix(a, w.runs[MintedName(a.name, k)]) == Some(k)
    {
      assert Standing(a, w, MintedName(a.name, k));
      SuffixInvertsMinting(a.name, MintedName(a.name, k), k);
    }
    forall r | r in listed && StandingSuffix(a, r).Some?
      ensures var k := StandingSuffix(a, r).value;
              && 1 <= k <= w.minted && r.name == MintedName(a.name, k) && r == w.runs[MintedName(a.name, k)]
    {
      assert Standing(a, w, r.name);
      StandingName(a, w, r.name);
    }
  }

  /* The main results */

  /** The result of a status patch. */
  predicate Writes(before: World, status: ServiceStatus, patch: Write, done: Outcome, result: (World, Outcome)) {
    && result.0 == (if patch.Rejected? then before else before.(status := status))
    && result.1 == (if patch.Applied? then done else Aborted)
  }

  /** The world with the next run. */
  function WithNext(a: Agent, w: World): World {
    var name := MintedName(a.name, w.minted + 1);
    w.(runs := w.runs[name := Run(name, a.uid, false, None, None, Requested, w.now, None)], minted := w.minted + 1)
  }

  /** What the reconcile of a current list comes to, case by case. */
  ghost predicate Effect(a: Agent, w: World, f: Faults, result: (World, Outcome)) {
    if f.listFails then result == (w, Aborted)
    else if !w.spec.hasGoal then
      exists status :: Names(a, status, w.minted) && status.reason.MissingGoal? && Writes(w, status, f.patch, Idle, result)
    else if NewestActive(a, w) then
      exists status :: Names(a, status, w.minted) && status.reason.RunActive? && Writes(w, status, f.patch, Idle, result)
    else if BackingOff(a, w) then
      exists status :: Names(a, status, w.minted) && status.reason == w.status.reason
                       && Writes(w, status, f.patch, RequeueAfter(ReadyAt(a, w).value - w.now), result)
    else if w.minted == MAX_INT32 || f.create.Rejected? then result == (w, Aborted)
    else if MintedName(a.name, w.minted + 1) in w.runs then
      result == (w, if f.vanished && !f.verifyFails then RequeueNow else Aborted)
    else if f.create.Lost? then result == (WithNext(a, w), Aborted)
    else
      exists status :: Names(a, status, w.minted + 1) && status.reason.Recasting?
                       && Writes(WithNext(a, w), status, f.patch, RequeueAfter(2), result)
  }

  lemma DecisionIs(a: Agent, w: World, o: Observed, f: Faults)
    requires w.minted <= MAX_INT32 && o.maxSuffix == w.minted
    requires if w.minted == 0 then o.current.None?
             else NewestName(a, w) in w.runs && o.current == Some(w.runs[NewestName(a, w)])
    requires NamesMatch(w)
    requires if w.minted <= 1 then o.previous.None?
             else o.previous.Some? && o.previous.value.name == MintedName(a.name, w.minted - 1)
    requires w.minted < MAX_INT32 && MintedName(a.name, w.minted + 1) in w.runs ==>
               var holder := w.runs[MintedName(a.name, w.minted + 1)]; !(holder.owner == a.uid && !holder.delivered)
    ensures Effect(a, w, f, Decide(a, w, o, f))
  {
    hide MintedName, BackoffOf;
    var result := Decide(a, w, o, f);
    assert Names(a, StatusOf(o), w.minted);
    if !f.listFails && !w.spec.hasGoal {
      assert Writes(w, StatusOf(o).(reason := MissingGoal), f.patch, Idle, result);
    } else if !f.listFails && NewestActive(a, w) {
      assert Writes(w, StatusOf(o).(reason := RunActive), f.patch, Idle, result);
    } else if !f.listFails && BackingOff(a, w) {
      assert Writes(w, StatusOf(o).(reason := w.status.reason), f.patch, RequeueAfter(ReadyAt(a, w).value - w.now), result);
    } else if !f.listFails {
      assert result == if o.maxSuffix == MAX_INT32 then (w, Aborted) else Mint(a, w, o, f);
      var name := MintedName(a.name, w.minted + 1);
      var status := ServiceStatus(name, NewestName(a, w), w.minted + 1, w.minted, Recasting);
      assert Names(a, status, w.minted + 1);
      if w.minted < MAX_INT32 && name !in w.runs && f.create.Applied? {
        assert Writes(WithNext(a, w), status, f.patch, RequeueAfter(2), result);
      }
    }
  }

  /** Nobody but the Agent's own run could be agent-(M + 1), and that does not exist. */
  lemma ContiguousFacts(a: Agent, w: World)
    requires Contiguous(a, w)
    ensures NamesMatch(w) && w.minted <= MAX_INT32
    ensures w.minted < MAX_INT32 && MintedName(a.name, w.minted + 1) in w.runs ==>
              var holder := w.runs[MintedName(a.name, w.minted + 1)]; !(holder.owner == a.uid && !holder.delivered)
  {
    if w.minted < MAX_INT32 {
      var name := MintedName(a.name, w.minted + 1);
      SuffixInvertsMinting(a.name, name, w.minted + 1);
      if name in w.runs && w.runs[name].owner == a.uid && !w.runs[name].delivered { assert Standing(a, w, name); }
    }
  }

  /** The reconcile of a current list, whichever calls fail. */
  lemma ReconcileEffect(a: Agent, w: World, listed: seq<Run>, f: Faults, result: (World, Outcome))
    requires Contiguous(a, w) && FreshList(a, w, listed) && Reconciles(a, w, listed, f, result)
    ensures Effect(a, w, f, result)
  {
    var o :| IsTopTwo(a, o, listed) && result == Decide(a, w, o, f);
    hide *;
    ContiguousFacts(a, w);
    ObservedTopTwo(a, w, listed, o);
    DecisionIs(a, w, o, f);
  }

  /** A list that misses the newest run at worst makes the reconcile meet the name of a run of its own, and come back. */
  lemma StaleMintRetries(a: Agent, w: World, listed: seq<Run>, o: Observed, f: Faults)
    requires Contiguous(a, w) && StaleList(a, w, listed) && IsTopTwo(a, o, listed) && o.maxSuffix < w.minted
    requires !f.listFails && w.spec.hasGoal && (o.current.Some? ==> o.current.value.phase.IsTerminal())
    requires !StillBackingOff(w, o)
    ensures Decide(a, w, o, f) == (w, if f.create.Rejected? || f.verifyFails then Aborted else RequeueNow)
  {
    assert Standing(a, w, MintedName(a.name, o.maxSuffix + 1));
    hide IsTopTwo, StaleList, Contiguous, StillBackingOff, MintedName, ServiceRunSuffix;
  }
}
