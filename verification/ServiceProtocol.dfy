/** One reconcile of a Service Agent: keep exactly one standing run alive. */
module ServiceProtocol {
  import opened Prelude
  import opened Decimal
  import opened Scheduler
  import opened AgentRuns
  import opened ServiceRunNames

  const DEFAULT_BACKOFF_INITIAL: nat := 5
  const DEFAULT_BACKOFF_MAX: nat := 60
  const RECAST_POLL: nat := 2

  /** spec.backoff; a value of 0 or less leaves the default. */
  datatype Backoff = Backoff(initialSeconds: int, maxSeconds: int)

  /** The parts of the Agent's spec that the Service reconciler reads. */
  datatype Spec = Spec(hasGoal: bool, backoff: Option<Backoff>)

  datatype Reason = Unset | MissingGoal | RunActive | Recasting

  datatype ServiceStatus = ServiceStatus(
    currentRunName: string,
    lastRunName: string,
    runsCreated: nat,
    restarts: nat,
    reason: Reason)

  datatype Agent = Agent(name: string, uid: Uid)

  /** `minted` counts the successful Creates of standing runs. Times are in seconds. */
  datatype World = World(runs: map<string, Run>, status: ServiceStatus, spec: Spec, now: Time, minted: nat)

  datatype Faults = Faults(listFails: bool, create: Write, verifyFails: bool, vanished: bool, patch: Write)

  datatype Outcome = Aborted | Idle | RequeueNow | RequeueAfter(delay: nat)

  /* Observation */

  datatype Observed = Observed(current: Option<Run>, previous: Option<Run>, maxSuffix: nat)

  /** The suffix of a standing run of the Agent; delivered runs and other names have none. */
  function StandingSuffix(a: Agent, r: Run): Option<nat> {
    if r.delivered then None else ServiceRunSuffix(a.name, r.name)
  }

  /** `o` names the standing runs with the two greatest suffixes among `children`. */
  ghost predicate IsTopTwo(a: Agent, o: Observed, children: seq<Run>) {
    && (if o.current.None? then o.maxSuffix == 0
        else o.current.value in children && StandingSuffix(a, o.current.value) == Some(o.maxSuffix))
    && (o.previous.Some? ==>
          && o.previous.value in children && StandingSuffix(a, o.previous.value).Some?
          && StandingSuffix(a, o.previous.value).value < o.maxSuffix)
    && forall r :: r in children && StandingSuffix(a, r).Some? ==>
         var n := StandingSuffix(a, r).value;
         && o.current.Some? && n <= o.maxSuffix
         && (n < o.maxSuffix ==> o.previous.Some? && n <= StandingSuffix(a, o.previous.value).value)
  }

  lemma SuffixDeterminesName(a: Agent, r: Run, q: Run)
    requires StandingSuffix(a, r).Some? && StandingSuffix(a, r) == StandingSuffix(a, q)
    ensures r.name == q.name
  {
    SuffixInvertsMinting(a.name, r.name, StandingSuffix(a, r).value);
    SuffixInvertsMinting(a.name, q.name, StandingSuffix(a, q).value);
  }

  /** Distinct names have distinct suffixes, so a list has one top pair. */
  lemma TopTwoUnique(a: Agent, o: Observed, p: Observed, children: seq<Run>)
    requires DistinctNames(children) && IsTopTwo(a, o, children) && IsTopTwo(a, p, children)
    ensures o == p
  {
    assert o.maxSuffix == p.maxSuffix;
    if o.current.Some? { SuffixDeterminesName(a, o.current.value, p.current.value); }
    if o.previous.Some? {
      assert StandingSuffix(a, o.previous.value) == StandingSuffix(a, p.previous.value);
      SuffixDeterminesName(a, o.previous.value, p.previous.value);
    }
  }

  lemma SkipKeepsTopTwo(a: Agent, o: Observed, children: seq<Run>, run: Run)
    requires IsTopTwo(a, o, children) && StandingSuffix(a, run).None?
    ensures IsTopTwo(a, o, children + [run])
  {
  }

  /** One more standing run, with a suffix of its own. */
  lemma TakeKeepsTopTwo(a: Agent, o: Observed, o': Observed, children: seq<Run>, run: Run)
    requires IsTopTwo(a, o, children) && StandingSuffix(a, run).Some?
    requires forall r :: r in children ==> r.name != run.name
    requires var n := StandingSuffix(a, run).value;
             o' == if n > o.maxSuffix then Observed(Some(run), o.current, n)
                   else if o.previous.None? || n > StandingSuffix(a, o.previous.value).value
                   then o.(previous := Some(run)) else o
    ensures IsTopTwo(a, o', children + [run])
  {
    SuffixInvertsMinting(a.name, run.name, StandingSuffix(a, run).value);
    forall r | r in children && StandingSuffix(a, r).Some? ensures StandingSuffix(a, r) != StandingSuffix(a, run) {
      if StandingSuffix(a, r) == StandingSuffix(a, run) { SuffixDeterminesName(a, r, run); }
    }
    var all := children + [run];
    assert forall r :: r in all <==> r in children || r == run;
    hide StandingSuffix;
  }

  method ObserveServiceRuns(a: Agent, children: seq<Run>) returns (observed: Observed)
    requires DistinctNames(children)
    ensures IsTopTwo(a, observed, children)
  {
    var current: Option<Run>, previous: Option<Run> := None, None;
    var maxSuffix: nat, previousSuffix: nat := 0, 0;
    for i := 0 to |children|
      invariant IsTopTwo(a, Observed(current, previous, maxSuffix), children[..i])
      invariant previousSuffix == if previous.Some? then StandingSuffix(a, previous.value).value else 0
    {
      var run := children[i];
      ghost var before := Observed(current, previous, maxSuffix);
      assert children[..i + 1] == children[..i] + [run];
      if run.delivered {
        SkipKeepsTopTwo(a, before, children[..i], run);
        continue;
      }
      var suffix := ServiceRunSuffix(a.name, run.name);
      if suffix.None? {
        SkipKeepsTopTwo(a, before, children[..i], run);
        continue;
      }
      if suffix.value > maxSuffix {
        previous := current;
        previousSuffix := maxSuffix;
        current := Some(run);
        maxSuffix := suffix.value;
      } else if suffix.value > previousSuffix {
        previous := Some(run);
        previousSuffix := suffix.value;
      }
      TakeKeepsTopTwo(a, before, Observed(current, previous, maxSuffix), children[..i], run);
    }
    assert children[..|children|] == children;
    observed := Observed(current, previous, maxSuffix);
  }

  function StatusOf(o: Observed): ServiceStatus {
    ServiceStatus(
      if o.current.Some? then o.current.value.name else "",
      if o.previous.Some? then o.previous.value.name else "",
      o.maxSuffix,
      if o.maxSuffix > 0 then o.maxSuffix - 1 else 0,
      Unset)
  }

  /* Backoff */

  function Pow2(n: nat): nat { if n == 0 then 1 else 2 * Pow2(n - 1) }

  function InitialSeconds(backoff: Option<Backoff>): nat {
    if backoff.Some? && backoff.value.initialSeconds > 0 then backoff.value.initialSeconds
    else DEFAULT_BACKOFF_INITIAL
  }

  function MaximumSeconds(backoff: Option<Backoff>): nat {
    if backoff.Some? && backoff.value.maxSeconds > 0 then backoff.value.maxSeconds
    else DEFAULT_BACKOFF_MAX
  }

  /** The closed form: the initial delay doubled once per restart after the first, capped. */
  function BackoffOf(backoff: Option<Backoff>, restarts: int): nat {
    Min(MaximumSeconds(backoff), InitialSeconds(backoff) * Pow2(Max(restarts, 1) - 1))
  }

  /** Once the doubling has reached the cap it stays there. */
  lemma {:induction false} CapReached(initial: nat, maximum: nat, done: nat, attempts: nat)
    requires done <= attempts && initial * Pow2(done) >= maximum
    ensures initial * Pow2(attempts) >= maximum
    decreases attempts
  {
    if done < attempts {
      CapReached(initial, maximum, done, attempts - 1);
      DoubleOnce(initial, attempts);
    }
  }

  lemma DoubleOnce(initial: nat, i: nat)
    requires i > 0
    ensures initial * Pow2(i) == 2 * (initial * Pow2(i - 1))
  {
    var p := Pow2(i - 1);
    assert initial * (2 * p) == 2 * (initial * p);
  }

  method BackoffDelay(backoff: Option<Backoff>, restarts: int) returns (delay: nat)
    ensures delay == BackoffOf(backoff, restarts)
  {
    var initial, maximum := DEFAULT_BACKOFF_INITIAL, DEFAULT_BACKOFF_MAX;
    if backoff.Some? {
      if backoff.value.initialSeconds > 0 {
        initial := backoff.value.initialSeconds;
      }
      if backoff.value.maxSeconds > 0 {
        maximum := backoff.value.maxSeconds;
      }
    }
    var attempt := if restarts < 1 then 1 else restarts;
    delay := initial;
    if delay >= maximum {
      CapReached(initial, maximum, 0, attempt - 1);
      return maximum;
    }
    var i := 1;
    while i < attempt
      invariant 1 <= i <= attempt
      invariant delay == initial * Pow2(i - 1) && delay < maximum
    {
      DoubleOnce(initial, i);
      if delay > maximum - delay {
        CapReached(initial, maximum, i, attempt - 1);
        return maximum;
      }
      delay := delay * 2;
      if delay >= maximum {
        CapReached(initial, maximum, i, attempt - 1);
        return maximum;
      }
      i := i + 1;
    }
  }

  /* The reconcile */

  function PatchStatus(w: World, status: ServiceStatus, patch: Write, done: Outcome): (World, Outcome) {
    match patch
    case Applied => (w.(status := status), done)
    case Rejected => (w, Aborted)
    case Lost => (w.(status := status), Aborted)
  }

  /** The standing run minted for suffix `n`. */
  function NewStanding(a: Agent, n: nat, now: Time): Run {
    Run(MintedName(a.name, n), a.uid, false, None, None, Requested, now, None)
  }

  function CreateStanding(w: World, run: Run): World {
    w.(runs := w.runs[run.name := run], minted := w.minted + 1)
  }

  predicate StillBackingOff(w: World, o: Observed) {
    && o.current.Some? && o.current.value.phase.IsTerminal() && o.current.value.completedAt.Some?
    && w.now - o.current.value.completedAt.value < BackoffOf(w.spec.backoff, o.maxSuffix - 1)
  }

  /** What the reconciler does with the observation `o`. */
  function Decide(a: Agent, w: World, o: Observed, f: Faults): (World, Outcome) {
    if f.listFails then (w, Aborted)
    else if !w.spec.hasGoal then
      PatchStatus(w, StatusOf(o).(reason := MissingGoal), f.patch, Idle)
    else if o.current.Some? && !o.current.value.phase.IsTerminal() then
      PatchStatus(w, StatusOf(o).(reason := RunActive), f.patch, Idle)
    else if StillBackingOff(w, o) then
      var wait := BackoffOf(w.spec.backoff, o.maxSuffix - 1) - (w.now - o.current.value.completedAt.value);
      PatchStatus(w, StatusOf(o).(reason := w.status.reason), f.patch, RequeueAfter(wait))
    else if o.maxSuffix == MAX_INT32 then (w, Aborted)
    else Mint(a, w, o, f)
  }

  function Mint(a: Agent, w: World, o: Observed, f: Faults): (World, Outcome) {
    var run := NewStanding(a, o.maxSuffix + 1, w.now);
    if f.create.Rejected? then (w, Aborted)
    else if run.name in w.runs then
      var existing := w.runs[run.name];
      if f.verifyFails then (w, Aborted)
      else if f.vanished || (existing.owner == a.uid && !existing.delivered) then (w, RequeueNow)
      else (w, Aborted)
    else if f.create.Lost? then (CreateStanding(w, run), Aborted)
    else
      var last := if o.current.Some? then o.current.value.name else "";
      var status := ServiceStatus(run.name, last, o.maxSuffix + 1, o.maxSuffix, Recasting);
      PatchStatus(CreateStanding(w, run), status, f.patch, RequeueAfter(RECAST_POLL))
  }

  /** The reconcile of a listed set of children; the observation is unique by TopTwoUnique. */
  ghost predicate Reconciles(a: Agent, w: World, listed: seq<Run>, f: Faults, result: (World, Outcome)) {
    exists o :: IsTopTwo(a, o, listed) && result == Decide(a, w, o, f)
  }
}
