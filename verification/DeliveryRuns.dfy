/** What deliveries keep over any history: whose result is stored where, and how long they go on. */
module DeliveryRuns {
  import opened Prelude
  import AgentRuns
  import opened DeliveryProtocol

  /* Results */

  /** Storing a result is justified: the run is the one the request was for, and so is the Pod. */
  ghost predicate Justified(w: World, flight: Flight, a: After) {
    && flight.name in w.runs
    && var run := w.runs[flight.name];
       && run.uid == flight.uid && !run.status.phase.IsTerminal() && a.response.Answer?
       && exists target :: ResolveTarget(w, run, a.confirmFault) == Found(target) && SameTarget(flight.target, target)
  }

  /** Only the status of the run `name` may differ. */
  ghost predicate Frames(w: World, t: World, name: string) {
    && t.agents == w.agents && t.pods == w.pods && t.secrets == w.secrets && t.runs.Keys == w.runs.Keys
    && (forall n :: n in w.runs && n != name ==> t.runs[n] == w.runs[n])
    && (name in w.runs ==> t.runs[name] == w.runs[name].(status := t.runs[name].status))
  }

  /** What the steps of a delivery may do to the status of its own run, short of storing a result. */
  ghost predicate Advances(run: Run, next: Run) {
    && next == run.(status := next.status)
    && (run.status.phase.IsTerminal() ==> next == run)
    && (run.status.startTime.Some? ==> next.status.startTime == run.status.startTime)
  }

  /** `next` has the result: failed or succeeded as it says, and over since `now` or earlier. */
  predicate Stored(before: Status, next: Status, observation: Observation, now: Time) {
    && next.result == Some(observation)
    && (if observation.failed then next.phase.Failed? else next.phase.Succeeded?)
    && next.completionTime == (if before.completionTime.Some? then before.completionTime else Some(now))
    && next.startTime == before.startTime
  }

  lemma StatusPatches(w: World, name: string, run: Run, phase: Phase, now: Time, patchFails: bool)
    requires name in w.runs && w.runs[name] == run && !run.status.phase.IsTerminal()
    ensures var t := Finishing(w, name, run, phase, now, patchFails).world;
            Frames(w, t, name) && Advances(run, t.runs[name]) && t.runs[name].status.result == run.status.result
    ensures var t := Waiting(w, name, run, now, patchFails).world;
            Frames(w, t, name) && Advances(run, t.runs[name]) && t.runs[name].status.result == run.status.result
  {
    hide BackoffFor;
  }

  lemma NoTargetPatches(w: World, name: string, run: Run, r: Resolution, now: Time, patchFails: bool)
    requires name in w.runs && w.runs[name] == run && !run.status.phase.IsTerminal() && !r.Found?
    ensures var t := NoTarget(w, name, run, r, now, patchFails).world;
            Frames(w, t, name) && Advances(run, t.runs[name]) && t.runs[name].status.result == run.status.result
  {
    hide Finishing, Waiting;
    StatusPatches(w, name, run, AgentRuns.Failed, now, patchFails);
    SelfAdvances(run);
    Unframed(w, name);
  }

  lemma SelfAdvances(run: Run)
    ensures Advances(run, run)
  {
  }

  lemma Unframed(w: World, name: string)
    ensures Frames(w, w, name)
  {
  }

  lemma ConcludePatches(w: World, name: string, run: Run, target: Target, a: After)
    requires name in w.runs && w.runs[name] == run && !run.status.phase.IsTerminal()
    ensures var t := Conclude(w, name, run, target, a).world;
            && Frames(w, t, name) && Advances(run, t.runs[name])
            && if a.response.Answer? && !a.patchFails then
                 && Stored(run.status, t.runs[name].status, a.response.observation, a.now)
                 && t.runs[name].status.podName == target.pod.name
               else t.runs[name].status.result == run.status.result
  {
    hide Finishing, Waiting, Deadline, Frames, Advances, ResultStatus, Put;
    var overdue := if Deadline(run, a.now).1 then AgentRuns.BudgetExceeded else AgentRuns.Failed;
    StatusPatches(w, name, run, overdue, a.now, a.patchFails);
    StatusPatches(w, name, run, AgentRuns.Failed, a.now, a.patchFails);
    Unframed(w, name);
    SelfAdvances(run);
    if a.response.Answer? { ResultPatch(w, name, run, target.pod.name, a.response.observation, a.now); }
  }

  lemma ResultPatch(w: World, name: string, run: Run, podName: string, observation: Observation, now: Time)
    requires name in w.runs && w.runs[name] == run && !run.status.phase.IsTerminal()
    ensures var t := Put(w, name, run, ResultStatus(run.status, podName, observation, now));
            && Frames(w, t, name) && name in t.runs && Advances(run, t.runs[name])
            && Stored(run.status, t.runs[name].status, observation, now) && t.runs[name].status.podName == podName
  {
  }

  /**
   A result is stored exactly when it is justified and no call fails, and then with the Pod it came
   from and the phase that it tells; nothing but the status of the one run changes.
   */
  lemma ResultStoredIff(w: World, flight: Flight, a: After)
    ensures Frames(w, Finish(w, flight, a).world, flight.name)
    ensures flight.name in w.runs ==>
              var run, next := w.runs[flight.name], Finish(w, flight, a).world.runs[flight.name];
              && Advances(run, next)
              && if Justified(w, flight, a) && !a.getFails && !a.patchFails then
                   && Stored(run.status, next.status, a.response.observation, a.now)
                   && next.status.podName == flight.target.pod.name
                 else next.status.result == run.status.result
  {
    hide ResolveTarget, Conclude, NoTarget, Frames, Advances;
    Unframed(w, flight.name);
    if flight.name in w.runs {
      var run := w.runs[flight.name];
      SelfAdvances(run);
      var confirmed := ConfirmTarget(w, run, flight.target, a.confirmFault);
      if !run.status.phase.IsTerminal() {
        if confirmed.Found? {
          ConcludePatches(w, flight.name, run, confirmed.target, a);
        } else {
          NoTargetPatches(w, flight.name, run, confirmed, a.now, a.patchFails);
        }
      }
    }
  }

  /** Up to the request no result is written, and the run's own status advances. */
  lemma BeginAdvances(w: World, name: string, b: Before)
    requires name in w.runs
    ensures var t := match Begin(w, name, b) case Stopped(step) => step.world case Sent(world, _) => world;
            && name in t.runs && Advances(w.runs[name], t.runs[name])
            && t.runs[name].status.result == w.runs[name].status.result
  {
    hide ResolveTarget, Deadline, Finishing, NoTarget, Confirm, Advances, Frames;
    var run := w.runs[name];
    SelfAdvances(run);
    if !run.status.phase.IsTerminal() {
      var overdue := if Deadline(run, b.now).1 then AgentRuns.BudgetExceeded else AgentRuns.Failed;
      StatusPatches(w, name, run, overdue, b.now, b.patchFails);
      StatusPatches(w, name, run, AgentRuns.Failed, b.now, b.patchFails);
      FramesRun(w, name);
      var resolved := ResolveTarget(w, run, b.resolveFault);
      if resolved.Found? {
        var started := run.(status := RunningStatus(run.status, resolved.target.pod.name, b.now));
        StartedAdvances(run, resolved.target.pod.name, b.now);
        ConfirmAdvances(Recast(Put(w, name, run, started.status), name, b.recast), name, run, started, resolved.target, b);
      } else {
        NoTargetPatches(w, name, run, resolved, b.now, b.patchFails);
      }
    }
  }

  lemma FramesRun(w: World, name: string)
    ensures forall t: World :: Frames(w, t, name) && name in w.runs ==> name in t.runs
  {
  }

  lemma StartedAdvances(run: Run, podName: string, now: Time)
    requires !run.status.phase.IsTerminal()
    ensures var started := run.(status := RunningStatus(run.status, podName, now));
            && Advances(run, started) && started.status.result == run.status.result
            && !started.status.phase.IsTerminal() && started.status.startTime.Some?
  {
  }

  lemma AdvancesTransitive(run: Run, next: Run, last: Run)
    requires Advances(run, next) && Advances(next, last)
    ensures Advances(run, last)
  {
  }

  lemma ConfirmAdvances(w: World, name: string, run: Run, started: Run, target: Target, b: Before)
    requires name in w.runs && w.runs[name] == started && !started.status.phase.IsTerminal() && Advances(run, started)
    ensures var t := match Confirm(w, name, started, target, b) case Stopped(step) => step.world case Sent(world, _) => world;
            && name in t.runs && Advances(run, t.runs[name])
            && t.runs[name].status.result == started.status.result
  {
    hide ConfirmTarget, Deadline, Finishing, NoTarget, Advances, Frames;
    var overdue := if Deadline(started, b.confirmNow).1 then AgentRuns.BudgetExceeded else AgentRuns.Failed;
    StatusPatches(w, name, started, overdue, b.confirmNow, b.patchFails);
    FramesRun(w, name);
    var confirmed := ConfirmTarget(w, started, target, b.confirmFault);
    if !confirmed.Found? { NoTargetPatches(w, name, started, confirmed, b.confirmNow, b.patchFails); }
    var t := match Confirm(w, name, started, target, b) case Stopped(step) => step.world case Sent(world, _) => world;
    AdvancesTransitive(run, started, t.runs[name]);
  }

  /** The ready Pod and the credential of the running standing run of the Service Agent that owns `run`. */
  ghost predicate IsTarget(w: World, run: Run, t: Target) {
    exists agentName: string, standingName: string ::
      && run.agentRef == agentName && agentName in w.agents && standingName in w.runs
      && var agent, standing := w.agents[agentName], w.runs[standingName];
         && agent.isService && agent.uid == run.owner == standing.owner && agent.currentRunName == standingName
         && standing.status.phase.Running? && standing.port.None? && run.port.Some? && standing.runtimePort == run.port
         && standing.status.podName in w.pods && w.pods[standing.status.podName] == t.pod
         && t.pod.owner == standing.uid && PodReady(t.pod)
         && standing.uid in w.secrets && w.secrets[standing.uid] == Some(t.credential)
  }

  lemma ResolvedIsTarget(w: World, run: Run, fault: ReadFault)
    requires run.port.Some? && ResolveTarget(w, run, fault).Found?
    ensures IsTarget(w, run, ResolveTarget(w, run, fault).target)
  {
    assert run.agentRef in w.agents && w.agents[run.agentRef].currentRunName in w.runs;
    hide PodReady;
  }

  /**
   A request leaves on behalf of a run that is not over, before its deadline, and for the standing Pod of
   its own Agent as the cluster is at that moment.
   */
  lemma SentOnlyWhenConfirmed(w: World, name: string, b: Before)
    requires Begin(w, name, b).Sent?
    ensures var begun := Begin(w, name, b);
            && name in w.runs && begun.flight.name == name && begun.flight.uid == w.runs[name].uid
            && !w.runs[name].status.phase.IsTerminal() && w.runs[name].port.Some?
            && begun.flight.target.pod.uid != "" && IsTarget(begun.world, w.runs[name], begun.flight.target)
            && b.now < Deadline(w.runs[name], b.now).0 && b.confirmNow < begun.flight.deadline
  {
    hide Deadline, BackoffFor, ResolveTarget, IsTarget;
    var run := w.runs[name];
    var started := run.(status := RunningStatus(run.status, ResolveTarget(w, run, b.resolveFault).target.pod.name, b.now));
    ResolvedIsTarget(Begin(w, name, b).world, started, b.confirmFault);
    SameRunSameTarget(Begin(w, name, b).world, started, run, Begin(w, name, b).flight.target);
  }

  /** Only the specification of a run decides its target. */
  lemma SameRunSameTarget(w: World, run: Run, other: Run, t: Target)
    requires run.agentRef == other.agentRef && run.owner == other.owner && run.port == other.port
    ensures IsTarget(w, run, t) <==> IsTarget(w, other, t)
  {
  }

  /* Whole histories: any number of deliveries at once, and a cluster that changes in any way */

  datatype Event =
    | ClusterChanges(world: World)
    | Starts(name: string, before: Before)
    | Ends(flight: Flight, after: After)

  /** A stored result with the world it was stored in. */
  datatype Entry = Entry(flight: Flight, after: After, world: World)

  datatype State = State(world: World, flying: set<Flight>, sent: set<Flight>, stored: seq<Entry>)

  /** A request ends only once, and only if it was sent. */
  predicate Enabled(s: State, e: Event) {
    match e
    case Ends(flight, _) => flight in s.flying
    case _ => true
  }

  function Take(s: State, e: Event): State {
    match e
    case ClusterChanges(world) => s.(world := world)
    case Starts(name, before) =>
      (match Begin(s.world, name, before)
       case Stopped(step) => s.(world := step.world)
       case Sent(world, flight) => State(world, s.flying + {flight}, s.sent + {flight}, s.stored))
    case Ends(flight, after) =>
      var step := Finish(s.world, flight, after);
      State(step.world, s.flying - {flight}, s.sent,
            if Stores(s.world, step.world, flight) then s.stored + [Entry(flight, after, s.world)] else s.stored)
  }

  predicate Stores(before: World, after: World, flight: Flight) {
    && flight.name in before.runs && flight.name in after.runs
    && before.runs[flight.name].status.result != after.runs[flight.name].status.result
  }

  ghost predicate Inv(s: State) {
    && s.flying <= s.sent
    && forall i :: 0 <= i < |s.stored| ==>
         s.stored[i].flight in s.sent && Justified(s.stored[i].world, s.stored[i].flight, s.stored[i].after)
  }

  ghost predicate Reaches(s: State, events: seq<Event>, t: State)
    decreases |events|
  {
    if events == [] then t == s else Enabled(s, events[0]) && Reaches(Take(s, events[0]), events[1..], t)
  }

  lemma StepKeeps(s: State, e: Event)
    requires Inv(s) && Enabled(s, e)
    ensures Inv(Take(s, e))
  {
    hide Finish, Begin, Justified, Frames, Advances;
    if e.Ends? { ResultStoredIff(s.world, e.flight, e.after); }
  }

  /**
   In every history, a stored result belongs to a request that was sent; when it was stored, the run
   had the UID it was sent for and was not over, and the target was the one it was sent to.
   */
  lemma {:induction false} ResultsReachTheirRun(world: World, events: seq<Event>, t: State)
    requires Reaches(State(world, {}, {}, []), events, t)
    ensures forall i :: 0 <= i < |t.stored| ==>
              t.stored[i].flight in t.sent && Justified(t.stored[i].world, t.stored[i].flight, t.stored[i].after)
  {
    hide Justified, Take;
    ReachesKeeps(State(world, {}, {}, []), events, t);
  }

  lemma {:induction false} ReachesKeeps(s: State, events: seq<Event>, t: State)
    requires Inv(s) && Reaches(s, events, t)
    ensures Inv(t)
    decreases |events|
  {
    hide Inv, Take;
    if events != [] {
      StepKeeps(s, events[0]);
      ReachesKeeps(Take(s, events[0]), events[1..], t);
    }
  }

  /* A run that is over stays so; one that has started keeps its start */

  /** The effective deadline of a run never moves later. */
  lemma DeadlineNeverLater(run: Run, next: Run, now: Time, later: Time)
    requires Advances(run, next) && run.createdAt.Some?
    ensures Deadline(next, later).0 <= Deadline(run, now).0 <= run.createdAt.value + DELIVERY_TIMEOUT
    ensures run.status.startTime.Some? ==> Deadline(next, later) == Deadline(run, now)
  {
  }

  /** Others leave the run `name` alone; it may not be deleted, replaced or changed but by its own delivery. */
  ghost predicate KeepsRun(s: State, e: Event, name: string)
    requires name in s.world.runs
  {
    match e
    case ClusterChanges(world) => name in world.runs && world.runs[name] == s.world.runs[name]
    case Starts(other, before) =>
      other == name || (name in before.recast.runs && before.recast.runs[name] == s.world.runs[name])
    case Ends(_, _) => true
  }

  lemma TakeAdvances(s: State, e: Event, name: string)
    requires name in s.world.runs && KeepsRun(s, e, name)
    ensures name in Take(s, e).world.runs && Advances(s.world.runs[name], Take(s, e).world.runs[name])
  {
    SelfAdvances(s.world.runs[name]);
    match e
    case ClusterChanges(_) =>
    case Starts(other, before) =>
      if other == name {
        BeginAdvances(s.world, name, before);
      } else {
        BeginLeavesOthers(s.world, other, before, name);
      }
      hide Begin, Advances;
    case Ends(flight, after) =>
      ResultStoredIff(s.world, flight, after);
      hide Finish, Advances, Justified;
  }

  lemma BeginLeavesOthers(w: World, name: string, b: Before, other: string)
    requires other != name && other in w.runs && other in b.recast.runs && b.recast.runs[other] == w.runs[other]
    ensures var t := match Begin(w, name, b) case Stopped(step) => step.world case Sent(world, _) => world;
            other in t.runs && t.runs[other] == w.runs[other]
  {
    hide ResolveTarget, Deadline, Finishing, NoTarget, RunningStatus, Confirm;
    if name in w.runs {
      var run := w.runs[name];
      PatchesLeaveOthers(w, name, run, b.now, b.patchFails, other);
      var resolved := ResolveTarget(w, run, b.resolveFault);
      if resolved.Found? {
        var started := run.(status := RunningStatus(run.status, resolved.target.pod.name, b.now));
        ConfirmLeavesOthers(Recast(Put(w, name, run, started.status), name, b.recast), name, started, resolved.target, b, other);
      }
    }
  }

  lemma ConfirmLeavesOthers(w: World, name: string, run: Run, target: Target, b: Before, other: string)
    requires other != name && other in w.runs
    ensures var t := match Confirm(w, name, run, target, b) case Stopped(step) => step.world case Sent(world, _) => world;
            other in t.runs && t.runs[other] == w.runs[other]
  {
    hide ConfirmTarget, Deadline, Finishing, NoTarget;
    PatchesLeaveOthers(w, name, run, b.confirmNow, b.patchFails, other);
  }

  lemma PatchesLeaveOthers(w: World, name: string, run: Run, now: Time, patchFails: bool, other: string)
    requires other != name && other in w.runs
    ensures forall phase: Phase ::
              var t := Finishing(w, name, run, phase, now, patchFails).world; other in t.runs && t.runs[other] == w.runs[other]
    ensures forall r: Resolution :: !r.Found? ==>
              var t := NoTarget(w, name, run, r, now, patchFails).world; other in t.runs && t.runs[other] == w.runs[other]
  {
    hide BackoffFor;
  }

  ghost predicate KeepsRunAll(s: State, events: seq<Event>, name: string)
    decreases |events|
  {
    events != [] ==>
      name in s.world.runs && KeepsRun(s, events[0], name) && KeepsRunAll(Take(s, events[0]), events[1..], name)
  }

  function StartTime(s: State, name: string): Option<Time> {
    if name in s.world.runs then s.world.runs[name].status.startTime else None
  }

  /** How often the start time of the run is changed. */
  function StartWrites(s: State, events: seq<Event>, name: string): nat
    decreases |events|
  {
    if events == [] then 0
    else
      var next := Take(s, events[0]);
      (if StartTime(next, name) != StartTime(s, name) then 1 else 0) + StartWrites(next, events[1..], name)
  }

  /**
   Over any history that keeps the run, with any other deliveries and changes in between: once it is
   over nothing of it changes, its start time is written at most once, and its deadline never rises.
   */
  lemma {:induction false} HistoryAdvances(s: State, events: seq<Event>, t: State, name: string, now: Time, later: Time)
    requires Reaches(s, events, t) && KeepsRunAll(s, events, name) && name in s.world.runs
    ensures name in t.world.runs && Advances(s.world.runs[name], t.world.runs[name])
    ensures StartWrites(s, events, name) <= if s.world.runs[name].status.startTime.Some? then 0 else 1
    ensures s.world.runs[name].createdAt.Some? ==>
              Deadline(t.world.runs[name], later).0 <= Deadline(s.world.runs[name], now).0
    decreases |events|
  {
    hide Take, Deadline, Enabled, KeepsRun;
    if events == [] {
      SelfAdvances(s.world.runs[name]);
    } else {
      var next := Take(s, events[0]);
      TakeAdvances(s, events[0], name);
      HistoryAdvances(next, events[1..], t, name, now, later);
      AdvancesTransitive(s.world.runs[name], next.world.runs[name], t.world.runs[name]);
    }
    if s.world.runs[name].createdAt.Some? { DeadlineNeverLater(s.world.runs[name], t.world.runs[name], now, later); }
  }

  /** A reconcile at or after the timeout, or after the wallclock budget, whose patch succeeds leaves the run over. */
  lemma ExpiredIsOver(w: World, name: string, b: Before)
    requires name in w.runs && w.runs[name].port.Some? && w.runs[name].createdAt.Some? && !b.patchFails
    requires b.now >= Deadline(w.runs[name], b.now).0 || b.now >= w.runs[name].createdAt.value + DELIVERY_TIMEOUT
    ensures var begun := Begin(w, name, b);
            && begun.Stopped? && name in begun.step.world.runs && begun.step.outcome == DONE
            && begun.step.world.runs[name].status.phase.IsTerminal()
  {
    hide ResolveTarget, BackoffFor;
  }

  /**
   A delivery that is looked at once after its timeout, with a patch that succeeds, is over for good: its
   whole status stays what that reconcile made it, over any later history that keeps the run.
   */
  lemma TimedOutForGood(s: State, name: string, b: Before, events: seq<Event>, t: State)
    requires name in s.world.runs && s.world.runs[name].port.Some? && s.world.runs[name].createdAt.Some?
    requires b.now >= s.world.runs[name].createdAt.value + DELIVERY_TIMEOUT && !b.patchFails
    requires var after := Take(s, Starts(name, b)); Reaches(after, events, t) && KeepsRunAll(after, events, name)
    ensures var after := Take(s, Starts(name, b));
            && name in after.world.runs && after.world.runs[name].status.phase.IsTerminal()
            && name in t.world.runs && t.world.runs[name] == after.world.runs[name]
  {
    ExpiredIsOver(s.world, name, b);
    var after := Take(s, Starts(name, b));
    hide Begin, Reaches, KeepsRunAll, Finish;
    HistoryAdvances(after, events, t, name, 0, 0);
  }

  /* How often a delivery waits */

  /** Waiting calls for a start before the timeout, and asks to come back after the backoff. */
  lemma BeginWaits(w: World, name: string, b: Before)
    requires name in w.runs && w.runs[name].createdAt.Some? && b.now <= b.confirmNow
    requires Begin(w, name, b).Stopped? && Begin(w, name, b).step.outcome.requeueAfter.Some?
    ensures var created := w.runs[name].createdAt.value;
            && b.now < created + DELIVERY_TIMEOUT
            && Begin(w, name, b).step.outcome.requeueAfter in
               {Some(Backoff(b.now - created)), Some(Backoff(b.confirmNow - created))}
  {
    hide ResolveTarget, Backoff;
    DeadlineNeverLater(w.runs[name], w.runs[name], b.now, b.now);
  }

  lemma FinishWaits(w: World, flight: Flight, a: After)
    requires flight.name in w.runs && w.runs[flight.name].createdAt.Some?
    requires Finish(w, flight, a).outcome.requeueAfter.Some?
    ensures Finish(w, flight, a).outcome.requeueAfter == Some(Backoff(a.now - w.runs[flight.name].createdAt.value))
  {
    hide ResolveTarget, Backoff;
  }

  /** One reconcile: what it meets before the request, the cluster afterwards, and the rest. */
  datatype Attempt = Attempt(before: Before, meanwhile: World, after: After)

  function Attempted(w: World, name: string, t: Attempt): Step {
    match Begin(w, name, t.before)
    case Stopped(step) => step
    case Sent(_, flight) => Finish(t.meanwhile, flight, t.after)
  }

  /** When the reconcile ends. */
  function Ended(w: World, name: string, t: Attempt): Time {
    if Begin(w, name, t.before).Stopped? then t.before.confirmNow else t.after.now
  }

  predicate CreatedAt(w: World, name: string, created: Time) {
    name in w.runs && w.runs[name].createdAt == Some(created)
  }

  /** A reconcile of the run that was created at `created`, and that ends by asking to come back. */
  predicate WaitsOnce(w: World, name: string, t: Attempt, created: Time) {
    && CreatedAt(w, name, created) && (Begin(w, name, t.before).Sent? ==> CreatedAt(t.meanwhile, name, created))
    && created <= t.before.now <= t.before.confirmNow <= t.after.now
    && Attempted(w, name, t).outcome.requeueAfter.Some?
  }

  /**
   Reconciles of one run that all wait, each starting no earlier than the one before it asked for. In
   between, and while requests are in flight, the cluster may change in any way.
   */
  ghost predicate OnlyRequeued(ws: seq<World>, ts: seq<Attempt>, name: string, created: Time) {
    && |ws| == |ts|
    && (forall i :: 0 <= i < |ts| ==> WaitsOnce(ws[i], name, ts[i], created))
    && (forall i :: 0 < i < |ts| ==>
          ts[i].before.now >= Ended(ws[i - 1], name, ts[i - 1]) + RequeueOf(ws[i - 1], name, ts[i - 1]))
  }

  function RequeueOf(w: World, name: string, t: Attempt): int {
    if Attempted(w, name, t).outcome.requeueAfter.Some? then Attempted(w, name, t).outcome.requeueAfter.value else 0
  }

  /** A waiting reconcile seen from the run's creation: its start, and the instant its backoff is taken from. */
  datatype Wait = Wait(start: int, asked: int)

  ghost predicate IsWait(w: World, name: string, t: Attempt, created: Time, wait: Wait) {
    && wait.start == t.before.now - created && wait.start <= wait.asked <= Ended(w, name, t) - created
    && RequeueOf(w, name, t) == Backoff(wait.asked) && wait.start < DELIVERY_TIMEOUT
  }

  lemma WaitOf(w: World, name: string, t: Attempt, created: Time) returns (wait: Wait)
    requires WaitsOnce(w, name, t, created)
    ensures IsWait(w, name, t, created, wait)
  {
    hide Finish, Begin, Backoff, Deadline;
    var start := t.before.now - created;
    match Begin(w, name, t.before)
    case Stopped(step) =>
      BeginWaits(w, name, t.before);
      wait := Wait(start, if step.outcome.requeueAfter == Some(Backoff(start)) then start else t.before.confirmNow - created);
    case Sent(_, flight) =>
      SentOnlyWhenConfirmed(w, name, t.before);
      DeadlineNeverLater(w.runs[name], w.runs[name], t.before.now, t.before.now);
      SelfAdvances(w.runs[name]);
      FinishWaits(t.meanwhile, flight, t.after);
      wait := Wait(start, t.after.now - created);
  }

  /** Each starts within the timeout and not before the one before it asked for. */
  ghost predicate DrivenByRequeue(waits: seq<Wait>) {
    && (forall i :: 0 <= i < |waits| ==> 0 <= waits[i].start <= waits[i].asked && waits[i].start < DELIVERY_TIMEOUT)
    && (forall i :: 0 < i < |waits| ==> waits[i].start >= waits[i - 1].asked + Backoff(waits[i - 1].asked))
  }

  /** Reconciles driven by their own requeues give a sequence of waits driven in the same way. */
  lemma {:induction false} RequeuesDrive(ws: seq<World>, ts: seq<Attempt>, name: string, created: Time)
    returns (waits: seq<Wait>)
    requires OnlyRequeued(ws, ts, name, created)
    ensures |waits| == |ts| && DrivenByRequeue(waits)
    ensures forall i :: 0 <= i < |ts| ==> IsWait(ws[i], name, ts[i], created, waits[i])
    decreases |ts|
  {
    hide WaitsOnce, Backoff, Ended, RequeueOf;
    waits := [];
    if ts != [] {
      var n := |ts| - 1;
      var before := RequeuesDrive(ws[..n], ts[..n], name, created);
      assert WaitsOnce(ws[n], name, ts[n], created);
      var last := WaitOf(ws[n], name, ts[n], created);
      NotBeforeCreation(ws[n], name, ts[n], created);
      waits := before + [last];
    }
  }

  lemma NotBeforeCreation(w: World, name: string, t: Attempt, created: Time)
    requires WaitsOnce(w, name, t, created)
    ensures t.before.now >= created
  {
  }

  function CeilDiv(a: int, b: int): int
    requires b > 0
  {
    (a + b - 1) / b
  }

  /** How many waits can still follow, one that starts at `elapsed` included. */
  function Rank(elapsed: int): (r: int)
    requires elapsed >= 0
  {
    if elapsed >= 300 * AgentRuns.SECOND then 0
    else if elapsed >= 120 * AgentRuns.SECOND then CeilDiv(300 * AgentRuns.SECOND - elapsed, 15 * AgentRuns.SECOND)
    else if elapsed >= 30 * AgentRuns.SECOND then CeilDiv(120 * AgentRuns.SECOND - elapsed, 5 * AgentRuns.SECOND) + 12
    else if elapsed >= 5 * AgentRuns.SECOND then CeilDiv(30 * AgentRuns.SECOND - elapsed, 2 * AgentRuns.SECOND) + 30
    else CeilDiv(5 * AgentRuns.SECOND - elapsed, AgentRuns.SECOND) + 43
  }

  lemma RankDecreases(elapsed: int)
    requires 0 <= elapsed < DELIVERY_TIMEOUT
    ensures 1 <= Rank(elapsed) <= 48
    ensures Rank(elapsed + Backoff(elapsed)) <= Rank(elapsed) - 1
  {
    if elapsed < 30 * AgentRuns.SECOND {
      RankDecreasesEarly(elapsed);
    } else {
      RankDecreasesLate(elapsed);
    }
    hide Rank, Backoff;
  }

  lemma RankDecreasesEarly(elapsed: int)
    requires 0 <= elapsed < 30 * AgentRuns.SECOND
    ensures 1 <= Rank(elapsed) <= 48
    ensures Rank(elapsed + Backoff(elapsed)) <= Rank(elapsed) - 1
  {
  }

  lemma RankDecreasesLate(elapsed: int)
    requires 30 * AgentRuns.SECOND <= elapsed < DELIVERY_TIMEOUT
    ensures 1 <= Rank(elapsed) <= 48
    ensures Rank(elapsed + Backoff(elapsed)) <= Rank(elapsed) - 1
  {
  }

  lemma RankMonotone(a: int, b: int)
    requires 0 <= a <= b
    ensures 0 <= Rank(b) <= Rank(a)
  {
  }

  lemma {:induction false} WaitsWithinRank(waits: seq<Wait>)
    requires DrivenByRequeue(waits) && waits != []
    ensures |waits| <= Rank(waits[0].start)
  {
    hide Rank, Backoff;
    var first := waits[0];
    RankDecreases(first.start);
    if |waits| > 1 {
      var rest := waits[1..];
      assert DrivenByRequeue(rest) by {
        assert forall i :: 0 <= i < |rest| ==> rest[i] == waits[i + 1];
      }
      WaitsWithinRank(rest);
      BackoffPositive(first.asked);
      RankMonotone(first.start, first.asked);
      RankMonotone(first.asked + Backoff(first.asked), waits[1].start);
      if first.asked < DELIVERY_TIMEOUT { RankDecreases(first.asked); }
    }
  }

  lemma BackoffPositive(elapsed: int)
    ensures Backoff(elapsed) >= AgentRuns.SECOND
  {
  }

  lemma AtMost48(waits: seq<Wait>)
    requires DrivenByRequeue(waits)
    ensures |waits| <= 48
  {
    hide Rank, Backoff;
    if waits != [] {
      WaitsWithinRank(waits);
      RankDecreases(waits[0].start);
    }
  }

  /** A delivery driven only by its own requeues waits at most 48 times. */
  lemma AtMost48Waits(ws: seq<World>, ts: seq<Attempt>, name: string, created: Time)
    requires OnlyRequeued(ws, ts, name, created)
    ensures |ts| <= 48
  {
    var waits := RequeuesDrive(ws, ts, name, created);
    AtMost48(waits);
  }

  /** The k-th wait of a delivery whose reconciles take no time. */
  function Instant(k: nat): int {
    if k == 0 then 0 else Instant(k - 1) + Backoff(Instant(k - 1))
  }

  lemma {:induction false} Strides(k: nat, n: nat, stride: int)
    requires forall e :: Instant(k) <= e <= Instant(k) + (n - 1) * stride ==> Backoff(e) == stride
    requires stride > 0
    ensures Instant(k + n) == Instant(k) + n * stride
  {
    if n > 0 {
      assert n * stride == (n - 1) * stride + stride;
      assert (n - 1) * stride >= 0;
      assert (n - 1) * stride == (n - 2) * stride + stride;
      Strides(k, n - 1, stride);
      assert Backoff(Instant(k + n - 1)) == stride;
    }
  }

  lemma Origin()
    ensures Instant(0) == 0
  {
  }

  /** Nothing in a band but its own backoff. */
  lemma Bands()
    ensures forall e :: 0 <= e <= 4 * AgentRuns.SECOND ==> Backoff(e) == AgentRuns.SECOND
    ensures forall e :: 5 * AgentRuns.SECOND <= e <= 29 * AgentRuns.SECOND ==> Backoff(e) == 2 * AgentRuns.SECOND
    ensures forall e :: 31 * AgentRuns.SECOND <= e <= 116 * AgentRuns.SECOND ==> Backoff(e) == 5 * AgentRuns.SECOND
    ensures forall e :: 121 * AgentRuns.SECOND <= e <= 271 * AgentRuns.SECOND ==> Backoff(e) == 15 * AgentRuns.SECOND
  {
  }

  lemma LastInstant()
    ensures Instant(47) == 286 * AgentRuns.SECOND
  {
    hide Instant, Backoff;
    Origin();
    Bands();
    Strides(0, 5, AgentRuns.SECOND);
    Strides(5, 13, 2 * AgentRuns.SECOND);
    Strides(18, 18, 5 * AgentRuns.SECOND);
    Strides(36, 11, 15 * AgentRuns.SECOND);
  }

  lemma {:induction false} InstantsGrow(j: nat, k: nat)
    requires j <= k
    ensures 0 <= Instant(j) <= Instant(k)
    decreases k
  {
    hide Backoff;
    if 0 < k {
      BackoffPositive(Instant(k - 1));
      if j < k { InstantsGrow(j, k - 1); } else { InstantsGrow(j - 1, j - 1); }
    }
  }

  /** A run whose Agent is missing. */
  function Orphan(): World {
    var status := Status(AgentRuns.Pending, "", None, None, None);
    World(map["run" := Run("uid", "owner", "agent", Some(80), None, AgentRuns.NoBudget, Some(0), status)], map[], map[], map[])
  }

  /** A reconcile of it that takes no time. */
  function Look(k: nat): Attempt {
    Attempt(Before(Instant(k), Instant(k), NoFault, NoFault, false, false, Orphan()), Orphan(),
            After(Instant(k), Unreachable, false, NoFault, false))
  }

  lemma LookWaits(k: nat)
    requires 0 <= Instant(k) < DELIVERY_TIMEOUT
    ensures WaitsOnce(Orphan(), "run", Look(k), 0)
    ensures RequeueOf(Orphan(), "run", Look(k)) == Backoff(Instant(k)) && Ended(Orphan(), "run", Look(k)) == Instant(k)
    ensures Attempted(Orphan(), "run", Look(k)).world == Orphan()
  {
    hide Instant, Backoff;
    var w := Orphan();
    var run := w.runs["run"];
    assert ResolveTarget(w, run, NoFault) == Unavailable(TargetMissing);
    assert Begin(w, "run", Look(k).before) == Stopped(Waiting(w, "run", run, Instant(k), false));
    assert WaitingStatus(run.status) == run.status;
    assert w.runs["run" := run] == w.runs;
  }

  /** The bound is tight: a run that nobody changes, and whose Agent is missing, waits 48 times. */
  lemma Exactly48WaitsPossible()
    ensures exists ws: seq<World>, ts: seq<Attempt> ::
              && |ts| == 48 && OnlyRequeued(ws, ts, "run", 0)
              && forall i :: 0 < i < 48 ==> ws[i] == Attempted(ws[i - 1], "run", ts[i - 1]).world
  {
    hide Instant, Backoff, WaitsOnce, Attempted, Ended, RequeueOf, Orphan;
    var ws := seq(48, i requires 0 <= i < 48 => Orphan());
    var ts := seq(48, i requires 0 <= i < 48 => Look(i));
    LastInstant();
    forall i | 0 <= i < 48
      ensures WaitsOnce(ws[i], "run", ts[i], 0) && Attempted(ws[i], "run", ts[i]).world == Orphan()
      ensures RequeueOf(ws[i], "run", ts[i]) == Backoff(Instant(i)) && Ended(ws[i], "run", ts[i]) == Instant(i)
    {
      InstantsGrow(i, 47);
      LookWaits(i);
    }
    forall i | 0 < i < 48 ensures Instant(i) == Instant(i - 1) + Backoff(Instant(i - 1)) { NextInstant(i); }
    assert OnlyRequeued(ws, ts, "run", 0);
  }

  lemma NextInstant(k: nat)
    requires k > 0
    ensures Instant(k) == Instant(k - 1) + Backoff(Instant(k - 1))
  {
  }
}
