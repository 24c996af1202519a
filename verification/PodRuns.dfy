/**
 Runs that have a Pod of their own: one reconcile as a step over the run's status and the Pods. Pods
 are read from a cache that may be out of date, except where the controller asks the API server.
 */
module PodRuns {
  import opened Prelude
  import AgentRuns

  type Time = AgentRuns.Nanos

  type Uid = string

  type Phase = AgentRuns.Phase

  type Budget = AgentRuns.Budget

  /** What the Pod's status amounts to. */
  datatype Observation = Observation(phase: Phase, startedAt: Option<Time>, output: Option<string>)

  datatype Pod = Pod(owner: Uid, running: bool, observed: Observation)

  datatype Status = Status(
    phase: Phase, podName: string, startTime: Option<Time>, completionTime: Option<Time>, output: Option<string>)

  /** The fixed part of a run; the two names are the one its Pod gets and the one it used to get. */
  datatype Spec = Spec(uid: Uid, defaultName: string, legacyName: string, budget: Budget, buildable: bool)

  datatype Cluster = Cluster(status: Status, pods: map<string, Pod>)

  datatype Call = GetPod | GetLegacy | GetLive | DeletePod | EnsureCredential | CreatePod | PatchStatus

  /** What one reconcile meets: the time, the cached Pods and the calls that fail. */
  datatype Reading = Reading(now: Time, cache: map<string, Pod>, failing: set<Call>)

  /** The next cluster, whether the reconcile has to be repeated, and when to look at the Pod again. */
  datatype Step = Step(cluster: Cluster, error: bool, requeueAfter: Option<int>)

  function Repeat(c: Cluster): Step { Step(c, true, None) }

  function Done(c: Cluster): Step { Step(c, false, None) }

  /** The Pod that a reconcile works on. */
  datatype Lookup = Unknown | Missing(name: string) | Read(name: string, pod: Pod)

  predicate WellNamed(spec: Spec) { spec.uid != "" && spec.defaultName != "" && spec.legacyName != "" }

  function FindPod(spec: Spec, c: Cluster, r: Reading): Lookup {
    var recorded := c.status.podName;
    var name := if recorded == "" then spec.defaultName else recorded;
    if GetPod in r.failing then Unknown
    else if name in r.cache then Read(name, r.cache[name])
    else if recorded == "" then FindLegacy(spec, name, r)
    else if GetLive in r.failing then Unknown
    else if name in c.pods then Read(name, c.pods[name])
    else Missing(name)
  }

  function FindLegacy(spec: Spec, name: string, r: Reading): Lookup {
    if spec.legacyName == name then Missing(name)
    else if GetLegacy in r.failing then Unknown
    else if spec.legacyName in r.cache && r.cache[spec.legacyName].owner == spec.uid then
      Read(spec.legacyName, r.cache[spec.legacyName])
    else Missing(name)
  }

  function Transition(c: Cluster, r: Reading, status: Status, phase: Phase): Step {
    if PatchStatus in r.failing then Repeat(c)
    else
      var completed := if !phase.IsTerminal() then None
                       else if status.completionTime.Some? then status.completionTime else Some(r.now);
      Done(c.(status := status.(phase := phase, completionTime := completed)))
  }

  function Reconcile(spec: Spec, c: Cluster, r: Reading): Step {
    if c.status.phase.IsTerminal() then
      if c.status.phase.BudgetExceeded? then DeleteExceeded(spec, c, r) else Done(c)
    else
      match FindPod(spec, c, r)
      case Unknown => Repeat(c)
      case Missing(name) =>
        if spec.budget.InvalidBudget? then Transition(c, r, c.status, AgentRuns.Failed)
        else CreateMissing(spec, c, r, name)
      case Read(name, pod) =>
        if pod.owner != spec.uid then
          Transition(c, r, c.status.(podName := name, output := None, startTime := None), AgentRuns.Failed)
        else if spec.budget.InvalidBudget? then
          if DeletePod in r.failing then Repeat(c)
          else Transition(c.(pods := c.pods - {name}), r, c.status.(podName := name), AgentRuns.Failed)
        else FollowPod(spec, c, r, name, pod)
  }

  /** Repeats the deletion that may have failed when the budget ran out; reads the Pod itself. */
  function DeleteExceeded(spec: Spec, c: Cluster, r: Reading): Step {
    var name := if c.status.podName == "" then spec.defaultName else c.status.podName;
    if GetLive in r.failing then Repeat(c)
    else if name !in c.pods || c.pods[name].owner != spec.uid then Done(c)
    else if DeletePod in r.failing then Repeat(c)
    else Done(c.(pods := c.pods - {name}))
  }

  function CreateMissing(spec: Spec, c: Cluster, r: Reading, name: string): Step {
    if c.status.podName != "" then Transition(c, r, c.status.(podName := name), AgentRuns.Failed)
    else if EnsureCredential in r.failing then Repeat(c)
    else if !spec.buildable then Transition(c, r, c.status, AgentRuns.Failed)
    else if CreatePod in r.failing then Repeat(c)
    else
      var created := if name in c.pods then c
                     else c.(pods := c.pods[name := Pod(spec.uid, false, Observation(AgentRuns.Pending, None, None))]);
      Transition(created, r, c.status.(podName := name), AgentRuns.Pending)
  }

  /** When the run counts as started for its wallclock budget. */
  function StartOf(status: Status, pod: Pod): Option<Time> {
    if pod.observed.startedAt.Some? then pod.observed.startedAt else status.startTime
  }

  predicate OverBudget(spec: Spec, status: Status, pod: Pod, now: Time) {
    && spec.budget.Wallclock? && pod.running && StartOf(status, pod).Some?
    && now - StartOf(status, pod).value > spec.budget.limit
  }

  /** When a Pod within its budget will have used it up, and a second more. */
  function BudgetCheck(spec: Spec, status: Status, pod: Pod, now: Time): Option<int> {
    if spec.budget.Wallclock? && pod.running && StartOf(status, pod).Some? then
      Some(spec.budget.limit - (now - StartOf(status, pod).value) + AgentRuns.SECOND)
    else None
  }

  function FollowPod(spec: Spec, c: Cluster, r: Reading, name: string, pod: Pod): Step {
    if OverBudget(spec, c.status, pod, r.now) then
      var exceeded := Transition(c, r, c.status.(podName := name, startTime := StartOf(c.status, pod)), AgentRuns.BudgetExceeded);
      if exceeded.error then exceeded
      else if DeletePod in r.failing then Repeat(exceeded.cluster)
      else Done(exceeded.cluster.(pods := c.pods - {name}))
    else
      var synchronised := Synchronise(c, r, name, pod);
      if synchronised.error then synchronised
      else synchronised.(requeueAfter := BudgetCheck(spec, c.status, pod, r.now))
  }

  function Synchronise(c: Cluster, r: Reading, name: string, pod: Pod): Step {
    if PatchStatus in r.failing then Repeat(c)
    else
      var phase, s := pod.observed.phase, c.status;
      Done(c.(status := Status(phase, name,
                               if s.startTime.None? && phase.Running? then
                                 (if pod.observed.startedAt.Some? then pod.observed.startedAt else Some(r.now))
                               else s.startTime,
                               if phase.IsTerminal() && s.completionTime.None? then Some(r.now) else s.completionTime,
                               if pod.observed.output.Some? then pod.observed.output else s.output)))
  }

  /* Histories: reconciles, and Pods that do as they like */

  datatype Event = Reconciles(reading: Reading) | PodsChange(pods: map<string, Pod>)

  function Take(spec: Spec, c: Cluster, e: Event): Cluster {
    match e
    case Reconciles(reading) => Reconcile(spec, c, reading).cluster
    case PodsChange(pods) => c.(pods := pods)
  }

  function After(spec: Spec, c: Cluster, events: seq<Event>): Cluster
    decreases |events|
  {
    if events == [] then c else After(spec, Take(spec, c, events[0]), events[1..])
  }

  /** A run is over exactly when it has a completion time. */
  predicate Consistent(s: Status) { s.phase.IsTerminal() <==> s.completionTime.Some? }

  lemma StepKeeps(spec: Spec, c: Cluster, e: Event)
    requires WellNamed(spec) && Consistent(c.status)
    ensures var t := Take(spec, c, e);
            && Consistent(t.status)
            && (c.status.phase.IsTerminal() ==> t.status == c.status)
            && (c.status.podName != "" ==> t.status.podName != "")
  {
    if e.Reconciles? { FoundName(spec, c, e.reading); }
    hide FindPod, OverBudget, StartOf, BudgetCheck;
  }

  lemma FoundName(spec: Spec, c: Cluster, r: Reading)
    ensures c.status.podName != "" ==>
              match FindPod(spec, c, r)
              case Unknown => true
              case Missing(name) => name == c.status.podName
              case Read(name, _) => name == c.status.podName
  {
  }

  /**
   Whatever the Pods do and whichever calls fail: a run that is over keeps its whole status, and a run
   is over exactly when it has a completion time.
   */
  lemma {:induction false} TerminalIsFinal(spec: Spec, c: Cluster, events: seq<Event>)
    requires WellNamed(spec) && Consistent(c.status)
    ensures var t := After(spec, c, events);
            && Consistent(t.status)
            && (c.status.phase.IsTerminal() ==> t.status == c.status)
            && (c.status.podName != "" ==> t.status.podName != "")
    decreases |events|
  {
    hide Take, Consistent;
    if events != [] {
      StepKeeps(spec, c, events[0]);
      TerminalIsFinal(spec, Take(spec, c, events[0]), events[1..]);
    }
  }

  /** Once its Pod is recorded a run never gets a second one: reconciles only remove Pods from then on. */
  lemma NoSecondPod(spec: Spec, c: Cluster, events: seq<Event>, reading: Reading)
    requires WellNamed(spec) && Consistent(c.status) && c.status.podName != ""
    ensures var t := After(spec, c, events);
            Reconcile(spec, t, reading).cluster.pods.Keys <= t.pods.Keys
  {
    TerminalIsFinal(spec, c, events);
    OnlyRemoves(spec, After(spec, c, events), reading);
    hide Reconcile;
  }

  lemma OnlyRemoves(spec: Spec, c: Cluster, r: Reading)
    requires c.status.podName != ""
    ensures Reconcile(spec, c, r).cluster.pods.Keys <= c.pods.Keys
  {
  }

  /** With an up-to-date cache no Pod is touched but the run's own, and at most one is created. */
  lemma OthersUntouched(spec: Spec, c: Cluster, r: Reading, name: string)
    requires r.cache == c.pods && name in c.pods && c.pods[name].owner != spec.uid
    ensures var t := Reconcile(spec, c, r).cluster; name in t.pods && t.pods[name] == c.pods[name]
  {
  }

  /**
   Exactly when a reconcile deletes a Pod of another owner: the cache shows a Pod of the run under that
   name, and the reconcile ends the run for its budget.
   */
  lemma ForeignPodDeletedIff(spec: Spec, c: Cluster, r: Reading, name: string)
    requires name in c.pods && c.pods[name].owner != spec.uid
    ensures name !in Reconcile(spec, c, r).cluster.pods
       <==> && !c.status.phase.IsTerminal() && DeletePod !in r.failing
            && FindPod(spec, c, r).Read? && FindPod(spec, c, r).name == name
            && name in r.cache && r.cache[name].owner == spec.uid && FindPod(spec, c, r).pod == r.cache[name]
            && (spec.budget.InvalidBudget?
                || (OverBudget(spec, c.status, r.cache[name], r.now) && PatchStatus !in r.failing))
  {
    ReadFromCacheOrLive(spec, c, r);
    hide FindPod, OverBudget, StartOf;
  }

  lemma ReadFromCacheOrLive(spec: Spec, c: Cluster, r: Reading)
    ensures FindPod(spec, c, r).Read? ==>
              var name, pod := FindPod(spec, c, r).name, FindPod(spec, c, r).pod;
              (name in r.cache && pod == r.cache[name]) || (name in c.pods && pod == c.pods[name])
  {
  }

  /** Such an input exists: the run's Pod was replaced by another of the same name. */
  lemma StaleCacheDeletesOther()
    ensures var own := Pod("run", true, Observation(AgentRuns.Running, Some(0), None));
            var other := Pod("other", true, Observation(AgentRuns.Running, Some(0), None));
            var spec := Spec("run", "pod", "old", AgentRuns.Wallclock(10), true);
            var c := Cluster(Status(AgentRuns.Running, "pod", Some(0), None, None), map["pod" := other]);
            "pod" !in Reconcile(spec, c, Reading(11, map["pod" := own], {})).cluster.pods
  {
  }

  /** The run's Pod is found running for longer than its budget, and the status can be patched. */
  predicate FoundOverBudget(spec: Spec, c: Cluster, r: Reading) {
    && !c.status.phase.IsTerminal() && PatchStatus !in r.failing
    && FindPod(spec, c, r).Read? && FindPod(spec, c, r).pod.owner == spec.uid && FindPod(spec, c, r).name != ""
    && spec.budget.Wallclock? && OverBudget(spec, c.status, FindPod(spec, c, r).pod, r.now)
  }

  lemma BudgetEnforced(spec: Spec, c: Cluster, r: Reading)
    requires FoundOverBudget(spec, c, r)
    ensures var t := Reconcile(spec, c, r).cluster;
            t.status.phase.BudgetExceeded? && t.status.podName == FindPod(spec, c, r).name && t.status.completionTime.Some?
  {
    hide FindPod, StartOf;
  }

  /**
   A run found over its wallclock budget is over for good. Whatever happens then, and whichever calls
   fail, any later reconcile without a failing call leaves no Pod of the run under its recorded name,
   and none of the reconciles has created one.
   */
  lemma BudgetExceededForGood(spec: Spec, c: Cluster, r: Reading, events: seq<Event>, calm: Reading)
    requires WellNamed(spec) && FoundOverBudget(spec, c, r) && calm.failing == {}
    ensures var found := Reconcile(spec, c, r).cluster;
            var t := After(spec, found, events);
            var last := Reconcile(spec, t, calm).cluster;
            && found.status.phase.BudgetExceeded? && last.status == t.status == found.status
            && (found.status.podName in last.pods ==> last.pods[found.status.podName].owner != spec.uid)
            && last.pods.Keys <= t.pods.Keys
            && forall name :: name in t.pods && t.pods[name].owner != spec.uid ==>
                 name in last.pods && last.pods[name] == t.pods[name]
  {
    BudgetEnforced(spec, c, r);
    var found := Reconcile(spec, c, r).cluster;
    TerminalIsFinal(spec, found, events);
    ExceededPodRemoved(spec, After(spec, found, events), calm);
    hide Reconcile, After, FoundOverBudget;
  }

  lemma ExceededPodRemoved(spec: Spec, c: Cluster, r: Reading)
    requires c.status.phase.BudgetExceeded? && c.status.podName != "" && r.failing == {}
    ensures var t := Reconcile(spec, c, r).cluster;
            && t.status == c.status && t.pods.Keys <= c.pods.Keys
            && (c.status.podName in t.pods ==> t.pods[c.status.podName].owner != spec.uid)
            && forall name :: name in c.pods && c.pods[name].owner != spec.uid ==> name in t.pods && t.pods[name] == c.pods[name]
  {
  }

  /* The controller as it runs */

  class PodReconciler {
    const spec: Spec
    var status: Status
    var pods: map<string, Pod>

    ghost function Now(): Cluster
      reads this
    {
      Cluster(status, pods)
    }

    constructor (spec: Spec, status: Status, pods: map<string, Pod>)
      ensures this.spec == spec && Now() == Cluster(status, pods)
    {
      this.spec, this.status, this.pods := spec, status, pods;
    }

    /** Patches a new phase along with other changes already made to `next`. */
    method TransitionRun(r: Reading, next: Status, phase: Phase) returns (error: bool)
      modifies this`status
      ensures Step(Now(), error, None) == Transition(old(Now()), r, next, phase)
    {
      if PatchStatus in r.failing {
        return true;
      }
      var updated := next.(phase := phase);
      if phase.IsTerminal() {
        if updated.completionTime.None? {
          updated := updated.(completionTime := Some(r.now));
        }
      } else {
        updated := updated.(completionTime := None);
      }
      status := updated;
      error := false;
    }

    method Remove(r: Reading, name: string) returns (error: bool)
      modifies this`pods
      ensures error <==> DeletePod in r.failing
      ensures pods == if error then old(pods) else old(pods) - {name}
    {
      error := DeletePod in r.failing;
      if !error {
        pods := pods - {name};
      }
    }

    method SyncPodObservation(r: Reading, name: string, pod: Pod) returns (error: bool)
      modifies this`status
      ensures Step(Now(), error, None) == Synchronise(old(Now()), r, name, pod)
    {
      if PatchStatus in r.failing {
        return true;
      }
      var observation := pod.observed;
      var next := status.(phase := observation.phase, podName := name);
      if observation.output.Some? {
        next := next.(output := observation.output);
      }
      if next.startTime.None? && observation.phase.Running? {
        next := next.(startTime := observation.startedAt);
        if next.startTime.None? {
          next := next.(startTime := Some(r.now));
        }
      }
      if observation.phase.IsTerminal() && next.completionTime.None? {
        next := next.(completionTime := Some(r.now));
      }
      status := next;
      error := false;
    }

    /** Ends the run and deletes its Pod when it has been running for longer than its budget. */
    method EnforceWallclock(r: Reading, name: string, pod: Pod) returns (error: bool, requeueAfter: Option<int>)
      requires pod.owner == spec.uid && !status.phase.IsTerminal()
      modifies this
      ensures if OverBudget(spec, old(status), pod, r.now) then
                Step(Now(), error, requeueAfter) == FollowPod(spec, old(Now()), r, name, pod)
                && (!error ==> status.phase.IsTerminal())
              else !error && Now() == old(Now()) && requeueAfter == BudgetCheck(spec, status, pod, r.now)
    {
      if !spec.budget.Wallclock? || !pod.running {
        return false, None;
      }
      var startedAt := pod.observed.startedAt;
      if startedAt.None? {
        startedAt := status.startTime;
      }
      if startedAt.None? {
        return false, None;
      }
      var elapsed := r.now - startedAt.value;
      if elapsed <= spec.budget.limit {
        return false, Some(spec.budget.limit - elapsed + AgentRuns.SECOND);
      }
      error := TransitionRun(r, status.(podName := name, startTime := startedAt), AgentRuns.BudgetExceeded);
      if error {
        return true, None;
      }
      error := Remove(r, name);
      requeueAfter := None;
    }

    method DeleteBudgetExceededPod(r: Reading) returns (error: bool)
      modifies this`pods
      ensures Step(Now(), error, None) == DeleteExceeded(spec, old(Now()), r)
    {
      var name := status.podName;
      if name == "" {
        name := spec.defaultName;
      }
      if GetLive in r.failing {
        return true;
      }
      if name !in pods || pods[name].owner != spec.uid {
        return false;
      }
      error := Remove(r, name);
    }

    method ReconcileMissingPod(r: Reading, name: string) returns (error: bool)
      modifies this
      ensures Step(Now(), error, None) == CreateMissing(spec, old(Now()), r, name)
    {
      if status.podName != "" {
        error := TransitionRun(r, status.(podName := name), AgentRuns.Failed);
        return;
      }
      if EnsureCredential in r.failing {
        return true;
      }
      if !spec.buildable {
        error := TransitionRun(r, status, AgentRuns.Failed);
        return;
      }
      if CreatePod in r.failing {
        return true;
      }
      if name !in pods {
        pods := pods[name := Pod(spec.uid, false, Observation(AgentRuns.Pending, None, None))];
      }
      error := TransitionRun(r, status.(podName := name), AgentRuns.Pending);
    }

    method ReconcileRun(r: Reading) returns (error: bool, requeueAfter: Option<int>)
      modifies this
      ensures Step(Now(), error, requeueAfter) == Reconcile(spec, old(Now()), r)
    {
      hide FindPod, Transition, CreateMissing, DeleteExceeded, Synchronise, OverBudget, BudgetCheck;
      requeueAfter := None;
      if status.phase.IsTerminal() {
        if status.phase.BudgetExceeded? {
          error := DeleteBudgetExceededPod(r);
        } else {
          error := false;
        }
        return;
      }
      match FindPod(spec, Cluster(status, pods), r) {
        case Unknown => error := true;
        case Missing(name) =>
          if spec.budget.InvalidBudget? {
            error := TransitionRun(r, status, AgentRuns.Failed);
          } else {
            error := ReconcileMissingPod(r, name);
          }
        case Read(name, pod) =>
          if pod.owner != spec.uid {
            error := TransitionRun(r, status.(podName := name, output := None, startTime := None), AgentRuns.Failed);
          } else if spec.budget.InvalidBudget? {
            error := Remove(r, name);
            if !error {
              error := TransitionRun(r, status.(podName := name), AgentRuns.Failed);
            }
          } else {
            error, requeueAfter := EnforceWallclock(r, name, pod);
            if !error && !status.phase.IsTerminal() {
              error := SyncPodObservation(r, name, pod);
              if error {
                requeueAfter := None;
              }
            }
          }
      }
    }
  }
}
