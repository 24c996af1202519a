/**
 Failing reads during a delivery. A read of an object that fails only repeats the reconcile; a read of
 the credential that fails counts as a malformed credential, and the run is failed for good.
 */
module DeliveryFaults {
  import opened Prelude
  import AgentRuns
  import opened DeliveryProtocol

  /** Resolution gets as far as the credential: there is a ready Pod of the right standing run. */
  predicate ReachesCredential(w: World, run: Run) {
    && run.agentRef != "" && run.agentRef in w.agents
    && var agent := w.agents[run.agentRef];
       && agent.isService && run.owner == agent.uid && agent.currentRunName != "" && agent.currentRunName in w.runs
       && var standing := w.runs[agent.currentRunName];
          && standing.owner == agent.uid && standing.port.None? && standing.status.phase.Running?
          && standing.status.podName != "" && standing.runtimePort.Some? && standing.runtimePort == run.port
          && standing.status.podName in w.pods
          && w.pods[standing.status.podName].owner == standing.uid && PodReady(w.pods[standing.status.podName])
  }

  /** A single fault makes a sound configuration look malformed exactly when it hits the credential. */
  lemma MisconfiguredByFault(w: World, run: Run, fault: ReadFault)
    requires !ResolveTarget(w, run, NoFault).Misconfigured?
    ensures ResolveTarget(w, run, fault).Misconfigured? <==> fault.SecretReadFails? && ReachesCredential(w, run)
    ensures fault.ReadFails? ==> ResolveTarget(w, run, fault) == Failing
    ensures fault.SecretReadFails? && !ReachesCredential(w, run) ==>
              ResolveTarget(w, run, fault) == ResolveTarget(w, run, NoFault)
    ensures ResolveTarget(w, run, NoFault).Found? ==> ReachesCredential(w, run)
  {
    hide PodReady;
  }

  /** The status of the delivered run itself plays no part in its resolution. */
  lemma OwnStatusIrrelevant(w: World, name: string, run: Run, status: Status, fault: ReadFault)
    requires name in w.runs && w.runs[name] == run && run.port.Some?
    ensures var next := run.(status := status);
            && ResolveTarget(Put(w, name, run, status), next, fault) == ResolveTarget(w, run, fault)
            && (ReachesCredential(Put(w, name, run, status), next) <==> ReachesCredential(w, run))
  {
    hide PodReady;
  }

  /** Nothing goes wrong before the request but, perhaps, reads. */
  predicate OnlyReadsFail(w: World, name: string, b: Before) {
    && name in w.runs && w.runs[name].port.Some? && !w.runs[name].status.phase.IsTerminal()
    && !w.runs[name].budget.InvalidBudget? && !b.runningPatchFails && !b.patchFails && b.now <= b.confirmNow
    && b.confirmNow < Deadline(w.runs[name].(status := RunningStatus(w.runs[name].status, "", b.now)), b.confirmNow).0
  }

  /** The run's Agent, standing run, Pod and credential stay what they are while the target is confirmed. */
  predicate Unchanged(w: World, b: Before) { b.recast == w }

  function StatusAfterBegin(w: World, name: string, b: Before): Phase
    requires name in w.runs
  {
    match Begin(w, name, b)
    case Stopped(step) => if name in step.world.runs then step.world.runs[name].status.phase else AgentRuns.Requested
    case Sent(world, _) => if name in world.runs then world.runs[name].status.phase else AgentRuns.Requested
  }

  /**
   Before the request: where nothing but reads can fail, the run is failed exactly when one of its two
   resolutions loses the read of the credential. Every other read fault leaves it unfinished.
   */
  lemma BeginFailsIff(w: World, name: string, b: Before)
    requires OnlyReadsFail(w, name, b) && Unchanged(w, b)
    requires !ResolveTarget(w, w.runs[name], NoFault).Misconfigured?
    ensures StatusAfterBegin(w, name, b).Failed?
       <==> && ReachesCredential(w, w.runs[name])
            && (b.resolveFault.SecretReadFails?
                || (&& b.resolveFault.NoFault? && ResolveTarget(w, w.runs[name], NoFault).Found?
                    && b.confirmFault.SecretReadFails?))
    ensures b.resolveFault.ReadFails? ==> Begin(w, name, b) == Stopped(Step(w, ERROR))
    ensures StatusAfterBegin(w, name, b).IsTerminal() ==> StatusAfterBegin(w, name, b).Failed?
  {
    hide ResolveTarget, ReachesCredential, Deadline, BackoffFor;
    var run := w.runs[name];
    MisconfiguredByFault(w, run, b.resolveFault);
    DeadlineAhead(w, name, b);
    var resolved := ResolveTarget(w, run, b.resolveFault);
    if resolved.Found? {
      FoundWithoutFault(w, run, b.resolveFault);
      ConfirmFailsIff(w, name, resolved.target, b);
    }
  }

  lemma FoundWithoutFault(w: World, run: Run, fault: ReadFault)
    requires !ResolveTarget(w, run, NoFault).Misconfigured? && ResolveTarget(w, run, fault).Found?
    ensures ResolveTarget(w, run, NoFault).Found? && fault.NoFault? && ReachesCredential(w, run)
  {
    MisconfiguredByFault(w, run, fault);
    FoundNeedsCredential(w, run, fault);
    hide ResolveTarget, ReachesCredential;
  }

  lemma FoundNeedsCredential(w: World, run: Run, fault: ReadFault)
    requires ResolveTarget(w, run, fault).Found?
    ensures fault.NoFault?
  {
  }

  /** The deadline that is still ahead when the target is confirmed was ahead before. */
  lemma DeadlineAhead(w: World, name: string, b: Before)
    requires OnlyReadsFail(w, name, b)
    ensures b.now < Deadline(w.runs[name], b.now).0
    ensures forall podName: string :: b.confirmNow <
              Deadline(w.runs[name].(status := RunningStatus(w.runs[name].status, podName, b.now)), b.confirmNow).0
  {
  }

  function Started(run: Run, podName: string, now: Time): Run {
    run.(status := RunningStatus(run.status, podName, now))
  }

  lemma ConfirmFailsIff(w: World, name: string, target: Target, b: Before)
    requires OnlyReadsFail(w, name, b) && Unchanged(w, b)
    requires ResolveTarget(w, w.runs[name], NoFault) == Found(target)
    ensures var started := Started(w.runs[name], target.pod.name, b.now);
            var current := Recast(Put(w, name, w.runs[name], started.status), name, b.recast);
            var begun := Confirm(current, name, started, target, b);
            && current.runs[name] == started
            && (match begun
                case Stopped(step) =>
                  && name in step.world.runs
                  && (step.world.runs[name].status.phase.Failed? <==> b.confirmFault.SecretReadFails?)
                  && (step.world.runs[name].status.phase.IsTerminal() ==> step.world.runs[name].status.phase.Failed?)
                case Sent(world, _) => world == current && !b.confirmFault.SecretReadFails?)
  {
    hide ResolveTarget, ReachesCredential, Deadline, BackoffFor, PodReady;
    var run := w.runs[name];
    var started := Started(run, target.pod.name, b.now);
    var put := Put(w, name, run, started.status);
    assert Recast(put, name, b.recast) == put;
    OwnStatusIrrelevant(w, name, run, started.status, b.confirmFault);
    OwnStatusIrrelevant(w, name, run, started.status, NoFault);
    MisconfiguredByFault(w, run, b.confirmFault);
    FoundReaches(w, run);
    DeadlineAhead(w, name, b);
  }

  lemma FoundReaches(w: World, run: Run)
    requires ResolveTarget(w, run, NoFault).Found?
    ensures ReachesCredential(w, run)
  {
    MisconfiguredByFault(w, run, NoFault);
  }

  /**
   After the response: a good answer for an unfinished run of the right UID, with no call failing but
   perhaps a read, is thrown away and the run failed exactly when the read of the credential fails.
   */
  lemma FinishFailsIff(w: World, flight: Flight, a: After)
    requires flight.name in w.runs && w.runs[flight.name].uid == flight.uid
    requires !w.runs[flight.name].status.phase.IsTerminal()
    requires !a.getFails && !a.patchFails && a.response.Answer? && !a.response.observation.failed
    requires !ResolveTarget(w, w.runs[flight.name], NoFault).Misconfigured?
    ensures var next := Finish(w, flight, a).world.runs;
            && flight.name in next
            && (next[flight.name].status.phase.Failed?
                <==> a.confirmFault.SecretReadFails? && ReachesCredential(w, w.runs[flight.name]))
            && (a.confirmFault.ReadFails? ==> Finish(w, flight, a) == Step(w, ERROR))
  {
    hide ResolveTarget, ReachesCredential, BackoffFor, Deadline;
    MisconfiguredByFault(w, w.runs[flight.name], a.confirmFault);
    LiveNotFailed(w.runs[flight.name].status.phase);
  }

  lemma LiveNotFailed(phase: Phase)
    requires !phase.IsTerminal()
    ensures !phase.Failed?
  {
  }

  /* Such an input */

  function ExampleRun(): Run {
    Run("run-uid", "agent-uid", "agent", Some(80), None, AgentRuns.NoBudget, Some(0),
        Status(AgentRuns.Pending, "", None, None, None))
  }

  function ExampleWorld(): World {
    var standing := Run("standing-uid", "agent-uid", "agent", None, Some(80), AgentRuns.NoBudget, Some(0),
                        Status(AgentRuns.Running, "pod", Some(0), None, None));
    World(map["run" := ExampleRun(), "agent-1" := standing], map["agent" := Agent("agent-uid", true, "agent-1")],
          map["pod" := Pod("pod-uid", "pod", "standing-uid", "10.0.0.1", false, true, true, Some(Container(true, true)))],
          map["standing-uid" := Some("credential")])
  }

  /** With everything in order, one failing read of the credential fails the run; other reads do not. */
  lemma CredentialReadFailsRun()
    ensures var w := ExampleWorld();
            var b := Before(AgentRuns.SECOND, AgentRuns.SECOND, SecretReadFails, NoFault, false, false, w);
            && ResolveTarget(w, w.runs["run"], NoFault).Found?
            && StatusAfterBegin(w, "run", b).Failed?
            && Begin(w, "run", b.(resolveFault := ReadFails)) == Stopped(Step(w, ERROR))
  {
    var w := ExampleWorld();
    var b := Before(AgentRuns.SECOND, AgentRuns.SECOND, SecretReadFails, NoFault, false, false, w);
    ExampleReaches();
    BeginFailsIff(w, "run", b);
    BeginFailsIff(w, "run", b.(resolveFault := ReadFails));
    hide Begin, ResolveTarget, ReachesCredential;
  }

  lemma ExampleReaches()
    ensures var w := ExampleWorld();
            && "run" in w.runs && w.runs["run"] == ExampleRun()
            && ReachesCredential(w, w.runs["run"]) && ResolveTarget(w, w.runs["run"], NoFault).Found?
  {
  }
}
