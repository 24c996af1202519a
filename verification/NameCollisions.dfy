/**
 Names of delivered runs against names of standing runs, across Agents: admission protects the names of
 the Agent that is invoked, and of no other.
 */
module NameCollisions {
  import opened Prelude
  import opened Decimal
  import opened ServiceRunNames
  import GT = GoalTemplate
  import RF = RunFactory
  import opened AgentRuns
  import SP = ServiceProtocol
  import SR = ServiceRuns
  import SE = ServiceEffect

  /** Some Service Agent of these can mint the name for a standing run. */
  ghost predicate Mintable(serviceAgents: set<string>, runName: string) {
    exists agentName, n :: agentName in serviceAgents && 1 <= n <= MAX_INT32 && runName == MintedName(agentName, n)
  }

  /**
   An admitted delivered run holds a name that one of the Service Agents can mint exactly when the name
   is reserved for an Agent other than the one it was admitted for.
   */
  lemma AdmittedNameMintableIff<E>(agent: RF.Agent<E>, invocation: RF.Invocation, serviceAgents: set<string>)
    requires agent.spec.mode.Service? && RF.GoalFor(agent, invocation).Ok?
    ensures Mintable(serviceAgents, invocation.name)
       <==> exists other :: other in serviceAgents && other != agent.name && IsReservedServiceRunName(other, invocation.name)
  {
    hide GT.Interpolated, IsReservedServiceRunName, MintedName;
    forall other ensures IsReservedServiceRunName(other, invocation.name)
                    <==> exists n :: 1 <= n <= MAX_INT32 && invocation.name == MintedName(other, n)
    {
      ReservedIffMintable(other, invocation.name);
    }
  }

  /** A delivered run of Agent `a`, with any other Agent's first standing name, is admitted. */
  lemma AdmittedUnderForeignName<E>(a: string, b: string, execution: E)
    requires a != "" && a != b
    ensures var agent := RF.Agent(a, "uid", "default", RF.AgentSpec(RF.Service, "goal", "template", Some(80), execution));
            var spec := RF.InvocationSpec(Some(a), None, "", "", "", "", false, false, false, false, false, false, false);
            var invocation := RF.Invocation(MintedName(b, 1), "default", "", [], map[], map[], spec);
            && RF.Refers(agent, invocation) && RF.Sparse(spec) && RF.GoalFor(agent, invocation).Ok?
            && Mintable({b}, invocation.name)
  {
    var agent := RF.Agent(a, "uid", "default", RF.AgentSpec(RF.Service, "goal", "template", Some(80), execution));
    var spec := RF.InvocationSpec(Some(a), None, "", "", "", "", false, false, false, false, false, false, false);
    var invocation := RF.Invocation(MintedName(b, 1), "default", "", [], map[], map[], spec);
    NotOwnName(a, b);
    PlainTemplate("template");
    RF.DeliveryAdmittedIff(agent, invocation);
    hide MintedName, RF.GoalFor, GT.Scan;
    assert b in {b} && invocation.name == MintedName(b, 1);
  }

  lemma NotOwnName(a: string, b: string)
    requires a != b
    ensures forall n :: 1 <= n <= MAX_INT32 ==> MintedName(b, 1) != MintedName(a, n)
  {
    forall n | 1 <= n <= MAX_INT32 ensures MintedName(b, 1) != MintedName(a, n) {
      MintedNameInjective(b, 1, a, n);
    }
    hide MintedName;
  }

  /** A template without a dollar is well formed and has no names. */
  lemma {:induction false} PlainTemplate(s: string)
    requires '$' !in s
    ensures GT.Scan(s).Some? && GT.Holes(GT.Scan(s).value) == {}
    decreases |s|
  {
    if s == "" {
      assert GT.Holes([]) == {};
    } else {
      assert s[0] in s;
      assert GT.FirstToken(s) == Some(GT.Literal(s[0]));
      assert forall c :: c in s[1..] ==> c in s;
      PlainTemplate(s[1..]);
      var ts := GT.Scan(s[1..]).value;
      assert GT.Scan(s) == Some([GT.Literal(s[0])] + ts);
      GT.HolesConcat([GT.Literal(s[0])], ts);
      assert GT.Holes([GT.Literal(s[0])]) == {};
    }
  }

  /* What a held name does to the Agent that must mint it */

  /** The name of the Agent's next standing run, given its runs agent-1 .. agent-M. */
  function NextName(b: SP.Agent, w: SP.World): string { MintedName(b.name, w.minted + 1) }

  predicate Held(b: SP.Agent, w: SP.World) { NextName(b, w) in w.runs }

  /** The newest standing run, if there is one, has ended and its backoff is over. */
  predicate Due(b: SP.Agent, w: SP.World) {
    w.spec.hasGoal && w.minted < MAX_INT32 && !SE.NewestActive(b, w) && !SE.BackingOff(b, w)
  }

  /**
   An undisturbed reconcile of a current list creates the next standing run exactly when one is due and
   nobody holds its name; otherwise it leaves the runs as they are.
   */
  lemma CreatesIffFree(b: SP.Agent, w: SP.World, listed: seq<Run>, w': SP.World)
    requires SR.Contiguous(b, w) && SR.FreshList(b, w, listed)
    requires SR.Step(b, w, SR.Reconcile(listed, SR.NO_FAULTS), w')
    ensures if Due(b, w) && !Held(b, w) then SR.Live(b, w', NextName(b, w)) && w'.minted == w.minted + 1
            else w'.runs == w.runs && w'.minted == w.minted
  {
    var outcome :| SP.Reconciles(b, w, listed, SR.NO_FAULTS, (w', outcome));
    hide *;
    SE.ReconcileEffect(b, w, listed, SR.NO_FAULTS, (w', outcome));
    SE.ContiguousFacts(b, w);
    EffectOnRuns(b, w, w', outcome);
  }

  lemma EffectOnRuns(b: SP.Agent, w: SP.World, w': SP.World, outcome: SP.Outcome)
    requires SE.Effect(b, w, SR.NO_FAULTS, (w', outcome)) && w.minted <= MAX_INT32
    ensures if Due(b, w) && !Held(b, w) then SR.Live(b, w', NextName(b, w)) && w'.minted == w.minted + 1
            else w'.runs == w.runs && w'.minted == w.minted
  {
    hide SE.Names, MintedName, ServiceRunSuffix, SE.BackingOff, SE.NewestActive;
    if w.minted < MAX_INT32 { SuffixInvertsMinting(b.name, NextName(b, w), w.minted + 1); }
  }

  /** From `w` to `w'` no standing run was added or removed, and none came back to life. */
  ghost predicate NothingNew(b: SP.Agent, w: SP.World, w': SP.World) {
    && w'.minted == w.minted
    && (forall n :: SR.Standing(b, w', n) <==> SR.Standing(b, w, n))
    && (forall n :: SR.Live(b, w', n) ==> SR.Live(b, w, n))
  }

  lemma HeldStep(b: SP.Agent, w: SP.World, e: SR.Event, w': SP.World)
    requires SR.Contiguous(b, w) && Held(b, w) && SR.Step(b, w, e, w')
    requires e.Reconcile? ==> SR.StaleList(b, w, e.listed)
    requires e.Delete? ==> !SR.Standing(b, w, e.name) && e.name != NextName(b, w)
    ensures NothingNew(b, w, w') && Held(b, w')
  {
    if e.Reconcile? {
      var outcome :| SP.Reconciles(b, w, e.listed, e.faults, (w', outcome));
      var o :| SP.IsTopTwo(b, o, e.listed) && (w', outcome) == SP.Decide(b, w, o, e.faults);
      hide *;
      HeldReconcile(b, w, e.listed, o, e.faults, w');
    } else {
      hide MintedName, SR.StaleList, SP.Decide, SP.IsTopTwo, SP.Reconciles, ServiceRunSuffix;
    }
  }

  lemma HeldReconcile(b: SP.Agent, w: SP.World, listed: seq<Run>, o: SP.Observed, f: SP.Faults, w': SP.World)
    requires SR.Contiguous(b, w) && Held(b, w) && SR.StaleList(b, w, listed) && SP.IsTopTwo(b, o, listed)
    requires w' == SP.Decide(b, w, o, f).0
    ensures NothingNew(b, w, w') && Held(b, w')
  {
    SR.MaxSuffixFits(b, o, listed);
    SR.DecideEffect(b, w, o, f);
    if SR.Mints(b, w, o, w') { SR.MintSawNewest(b, w, listed, o, w'); }
    hide SP.Decide, SP.IsTopTwo, MintedName, SR.Contiguous, SR.StaleList, ServiceRunSuffix;
  }

  /** Events that leave the run named `name` where it is. */
  predicate Spares(es: seq<SR.Event>, name: string) { forall i :: 0 <= i < |es| && es[i].Delete? ==> es[i].name != name }

  /**
   Once another run has the name of the next standing run, nothing that happens while it has it, with lists
   as stale as they come, creates a standing run of the Agent or makes another one live.
   */
  lemma {:induction false} HeldNameBlocksForGood(b: SP.Agent, ws: seq<SP.World>, es: seq<SR.Event>, j: nat, k: nat)
    requires SR.Execution(b, ws, es) && SR.StaleButKept(b, ws, es) && j <= k <= |es|
    requires Held(b, ws[j]) && Spares(es[j..k], NextName(b, ws[j]))
    ensures NothingNew(b, ws[j], ws[k]) && Held(b, ws[k])
    decreases k
  {
    hide SR.Step, SR.Initial, SR.Contiguous, Held, SR.StaleList, SR.Standing, SR.Live;
    if k > j {
      assert es[j..k][..k - 1 - j] == es[j..k - 1];
      assert es[j..k][k - 1 - j] == es[k - 1];
      HeldNameBlocksForGood(b, ws, es, j, k - 1);
      ContiguousAt(b, ws, es, k - 1);
      assert SR.Step(b, ws[k - 1], es[k - 1], ws[k]);
      HeldStep(b, ws[k - 1], es[k - 1], ws[k]);
    }
  }

  /** If the first name is taken at the start, the Agent never has a standing run while it is. */
  lemma NeverStarts(b: SP.Agent, ws: seq<SP.World>, es: seq<SR.Event>, run: Run)
    requires SR.Execution(b, ws, es) && SR.StaleButKept(b, ws, es)
    requires es != [] && es[0] == SR.OtherCreate(run) && run.name == MintedName(b.name, 1) && Spares(es, run.name)
    ensures forall n :: !SR.Standing(b, ws[|es|], n)
  {
    hide MintedName, SR.StaleList, SP.Reconciles, ServiceRunSuffix;
    assert SR.Step(b, ws[0], es[0], ws[1]);
    assert NextName(b, ws[1]) == run.name && Held(b, ws[1]);
    assert forall n :: !SR.Standing(b, ws[1], n);
    HeldNameBlocksForGood(b, ws, es, 1, |es|);
  }

  lemma ContiguousAt(b: SP.Agent, ws: seq<SP.World>, es: seq<SR.Event>, k: nat)
    requires SR.Execution(b, ws, es) && SR.StaleButKept(b, ws, es) && k <= |es|
    ensures SR.Contiguous(b, ws[k])
  {
    hide SR.Step, SR.Initial, SR.Contiguous, SR.StaleList, SR.Standing;
    SR.ExecutionContiguous(b, ws[..k + 1], es[..k]);
  }
}
