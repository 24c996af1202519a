/**
 What one reconcile of a run with a Pod of its own does, in terms of the Pods that the cache and the API
 server show, the budget and the clock: the status it writes, the Pod it creates or deletes, and when it looks again.
 */
module PodEffect {
  import opened Prelude
  import AgentRuns
  import opened PodRuns

  /* Which Pod it works on */

  function WantedName(spec: Spec, c: Cluster): string { if c.status.podName == "" then spec.defaultName else c.status.podName }

  /** The Pod is cached under the run's name or, when none is recorded, its own under the old name; or it is there. */
  predicate Finds(spec: Spec, c: Cluster, r: Reading, name: string, pod: Pod) {
    GetPod !in r.failing &&
    (|| (name == WantedName(spec, c) && name in r.cache && pod == r.cache[name])
     || (c.status.podName == "" && spec.defaultName !in r.cache && name == spec.legacyName != spec.defaultName
         && GetLegacy !in r.failing && name in r.cache && pod == r.cache[name] && pod.owner == spec.uid)
     || (c.status.podName == name != "" && name !in r.cache && GetLive !in r.failing && name in c.pods && pod == c.pods[name]))
  }

  /** There is no Pod under the run's name, as far as the reads go that have to be made. */
  predicate FindsNone(spec: Spec, c: Cluster, r: Reading) {
    && GetPod !in r.failing && WantedName(spec, c) !in r.cache
    && if c.status.podName == "" then
         spec.legacyName == spec.defaultName
         || (GetLegacy !in r.failing && !(spec.legacyName in r.cache && r.cache[spec.legacyName].owner == spec.uid))
       else GetLive !in r.failing && c.status.podName !in c.pods
  }

  lemma LookupIs(spec: Spec, c: Cluster, r: Reading)
    ensures match FindPod(spec, c, r)
            case Read(name, pod) => Finds(spec, c, r, name, pod)
            case Missing(name) => FindsNone(spec, c, r) && name == WantedName(spec, c)
            case Unknown => !FindsNone(spec, c, r)
    ensures forall name, pod :: Finds(spec, c, r, name, pod) ==> FindPod(spec, c, r) == Read(name, pod)
    ensures FindsNone(spec, c, r) ==> FindPod(spec, c, r).Missing?
  {
  }

  /* What becomes of the run */

  /** The step ends with a patch of the status, after `pods` have changed. */
  predicate Ends(c: Cluster, r: Reading, pods: map<string, Pod>, status: Status, requeue: Option<int>, step: Step) {
    step == if PatchStatus in r.failing then Step(Cluster(c.status, pods), true, None)
            else Step(Cluster(status, pods), false, requeue)
  }

  /** A run with no result of its own fails. */
  predicate Fails(c: Cluster, r: Reading, pods: map<string, Pod>, podName: string, step: Step) {
    var s := c.status;
    var completed := if s.completionTime.Some? then s.completionTime else Some(r.now);
    Ends(c, r, pods, Status(AgentRuns.Failed, podName, s.startTime, completed, s.output), None, step)
  }

  /** When the Pod or, failing that, the status says that it started. */
  predicate StartedAt(c: Cluster, pod: Pod, start: Time) {
    pod.observed.startedAt == Some(start) || (pod.observed.startedAt.None? && c.status.startTime == Some(start))
  }

  /** A Pod that still runs, `used` after its start. */
  predicate Using(spec: Spec, c: Cluster, r: Reading, pod: Pod, used: int) {
    spec.budget.Wallclock? && pod.running && StartedAt(c, pod, r.now - used)
  }

  /** The run exceeds its budget: first it ends, then the Pod goes. */
  predicate Exceeds(c: Cluster, r: Reading, name: string, start: Time, step: Step) {
    var s := c.status;
    var completed := if s.completionTime.Some? then s.completionTime else Some(r.now);
    var over := Status(AgentRuns.BudgetExceeded, name, Some(start), completed, s.output);
    step == if PatchStatus in r.failing then Step(c, true, None)
            else if DeletePod in r.failing then Step(Cluster(over, c.pods), true, None)
            else Step(Cluster(over, c.pods - {name}), false, None)
  }

  /** The status follows the Pod. */
  predicate Follows(c: Cluster, r: Reading, name: string, pod: Pod, status: Status) {
    var s, o := c.status, pod.observed;
    && status.phase == o.phase && status.podName == name
    && status.output == (if o.output.Some? then o.output else s.output)
    && (s.startTime.Some? || !o.phase.Running? ==> status.startTime == s.startTime)
    && (s.startTime.None? && o.phase.Running? ==>
          status.startTime == if o.startedAt.Some? then o.startedAt else Some(r.now))
    && (s.completionTime.Some? || !o.phase.IsTerminal() ==> status.completionTime == s.completionTime)
    && (s.completionTime.None? && o.phase.IsTerminal() ==> status.completionTime == Some(r.now))
  }

  /** The Pod is the run's own. */
  ghost predicate Accompanies(spec: Spec, c: Cluster, r: Reading, name: string, pod: Pod, step: Step) {
    if exists used :: Using(spec, c, r, pod, used) && used > spec.budget.limit then
      exists used :: Using(spec, c, r, pod, used) && Exceeds(c, r, name, r.now - used, step)
    else
      exists status, requeue ::
        && Follows(c, r, name, pod, status) && Ends(c, r, c.pods, status, requeue, step)
        && (requeue.None? <==> !exists used :: Using(spec, c, r, pod, used))
        && forall used :: Using(spec, c, r, pod, used) ==> requeue == Some(spec.budget.limit - used + AgentRuns.SECOND)
  }

  /** A Pod is created, or found to be there already, and recorded. */
  predicate Creates(spec: Spec, c: Cluster, r: Reading, step: Step) {
    var name := spec.defaultName;
    var created := if name in c.pods then c.pods
                   else c.pods[name := Pod(spec.uid, false, Observation(AgentRuns.Pending, None, None))];
    Ends(c, r, created, Status(AgentRuns.Pending, name, c.status.startTime, None, c.status.output), None, step)
  }

  /** What comes of a reconcile, whatever fails. */
  ghost predicate Effect(spec: Spec, c: Cluster, r: Reading, step: Step) {
    if c.status.phase.BudgetExceeded? then
      var name := WantedName(spec, c);
      if GetLive in r.failing then step == Step(c, true, None)
      else if name !in c.pods || c.pods[name].owner != spec.uid then step == Step(c, false, None)
      else if DeletePod in r.failing then step == Step(c, true, None)
      else step == Step(Cluster(c.status, c.pods - {name}), false, None)
    else if c.status.phase.IsTerminal() then step == Step(c, false, None)
    else if FindsNone(spec, c, r) then
      if spec.budget.InvalidBudget? || c.status.podName != "" then Fails(c, r, c.pods, c.status.podName, step)
      else if EnsureCredential in r.failing then step == Step(c, true, None)
      else if !spec.buildable then Fails(c, r, c.pods, "", step)
      else if CreatePod in r.failing then step == Step(c, true, None)
      else Creates(spec, c, r, step)
    else if name, pod :| Finds(spec, c, r, name, pod) then
      if pod.owner != spec.uid then
        var completed := if c.status.completionTime.Some? then c.status.completionTime else Some(r.now);
        Ends(c, r, c.pods, Status(AgentRuns.Failed, name, None, completed, None), None, step)
      else if spec.budget.InvalidBudget? then
        if DeletePod in r.failing then step == Step(c, true, None) else Fails(c, r, c.pods - {name}, name, step)
      else Accompanies(spec, c, r, name, pod, step)
    else step == Step(c, true, None)
  }

  lemma OwnPod(spec: Spec, c: Cluster, r: Reading, name: string, pod: Pod)
    ensures Accompanies(spec, c, r, name, pod, FollowPod(spec, c, r, name, pod))
  {
    var start := StartOf(c.status, pod);
    if spec.budget.Wallclock? && pod.running && start.Some? {
      var used := r.now - start.value;
      assert Using(spec, c, r, pod, used);
      if used > spec.budget.limit {
        assert Exceeds(c, r, name, r.now - used, FollowPod(spec, c, r, name, pod));
      } else {
        Following(spec, c, r, name, pod);
      }
    } else {
      assert forall used :: !Using(spec, c, r, pod, used);
      Following(spec, c, r, name, pod);
    }
  }

  lemma Following(spec: Spec, c: Cluster, r: Reading, name: string, pod: Pod)
    requires !OverBudget(spec, c.status, pod, r.now)
    requires forall used :: Using(spec, c, r, pod, used) ==> used <= spec.budget.limit
    ensures Accompanies(spec, c, r, name, pod, FollowPod(spec, c, r, name, pod))
  {
    var step := FollowPod(spec, c, r, name, pod);
    var calm := Synchronise(c, r.(failing := {}), name, pod).cluster.status;
    var requeue := BudgetCheck(spec, c.status, pod, r.now);
    Synchronised(c, r, name, pod);
    assert Follows(c, r, name, pod, calm) && Ends(c, r, c.pods, calm, requeue, step);
    if requeue.Some? { assert Using(spec, c, r, pod, r.now - StartOf(c.status, pod).value); }
  }

  lemma Synchronised(c: Cluster, r: Reading, name: string, pod: Pod)
    ensures var calm := Synchronise(c, r.(failing := {}), name, pod).cluster.status;
            && Follows(c, r, name, pod, calm)
            && Synchronise(c, r, name, pod) == if PatchStatus in r.failing then Repeat(c) else Done(c.(status := calm))
  {
  }

  /** The main result: for any cache, any Pods and any failures. */
  lemma ReconcileEffect(spec: Spec, c: Cluster, r: Reading)
    ensures Effect(spec, c, r, Reconcile(spec, c, r))
  {
    LookupIs(spec, c, r);
    var found := FindPod(spec, c, r);
    if found.Read? { OwnPod(spec, c, r, found.name, found.pod); }
    hide FindPod, Finds, FindsNone, FollowPod, Accompanies;
  }
}
