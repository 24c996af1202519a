/**
 Warm delivery of a run to a Service's standing Pod, as steps over the cluster: one step up to the
 request being sent, one from the response to the last status patch. In between anything may happen.
 */
module DeliveryProtocol {
  import opened Prelude
  import AgentRuns

  type Time = AgentRuns.Nanos

  type Uid = string

  const DELIVERY_TIMEOUT: int := 300 * AgentRuns.SECOND

  type Phase = AgentRuns.Phase

  /* The cluster */

  datatype Observation = Observation(failed: bool, text: string)

  datatype Status = Status(
    phase: Phase, podName: string, startTime: Option<Time>, completionTime: Option<Time>, result: Option<Observation>)

  type Budget = AgentRuns.Budget

  /** `port` is the delivery port of the run's own spec, `runtimePort` that of its runtime. */
  datatype Run = Run(
    uid: Uid, owner: Uid, agentRef: string, port: Option<int>, runtimePort: Option<int>, budget: Budget,
    createdAt: Option<Time>, status: Status)

  datatype Agent = Agent(uid: Uid, isService: bool, currentRunName: string)

  datatype Container = Container(ready: bool, running: bool)

  datatype Pod = Pod(
    uid: Uid, name: string, owner: Uid, ip: string, deleting: bool, running: bool, readyCondition: bool,
    runtime: Option<Container>)

  /** The credential Secret of a standing run, by the run's UID; None is a malformed one. */
  datatype World = World(
    runs: map<string, Run>, agents: map<string, Agent>, pods: map<string, Pod>, secrets: map<Uid, Option<string>>)

  /* The target of a delivery */

  datatype Target = Target(pod: Pod, credential: string)

  datatype Reason =
    | TargetMissing | WaitingForService | ServiceRecasting | TargetNotReady | TargetChanged | TargetUnreachable

  datatype Resolution = Found(target: Target) | Unavailable(reason: Reason) | Misconfigured | Failing

  /** An object read may fail, and so may the read of the credential. */
  datatype ReadFault = NoFault | ReadFails | SecretReadFails

  predicate PodReady(pod: Pod) {
    && !pod.deleting && pod.running && pod.ip != "" && pod.readyCondition
    && pod.runtime.Some? && pod.runtime.value.ready && pod.runtime.value.running
  }

  /** A failing read of the credential counts as a malformed one. */
  function LoadCredential(w: World, standing: Run, pod: Pod, fault: ReadFault): Resolution {
    if fault.SecretReadFails? || standing.uid == "" then Misconfigured
    else if standing.uid !in w.secrets then Unavailable(TargetNotReady)
    else if w.secrets[standing.uid].None? then Misconfigured
    else Found(Target(pod, w.secrets[standing.uid].value))
  }

  function ResolveTarget(w: World, run: Run, fault: ReadFault): Resolution {
    if run.agentRef == "" then Misconfigured
    else if fault.ReadFails? then Failing
    else if run.agentRef !in w.agents then Unavailable(TargetMissing)
    else
      var agent := w.agents[run.agentRef];
      if !agent.isService || run.owner != agent.uid then Misconfigured
      else if agent.currentRunName == "" then Unavailable(WaitingForService)
      else if agent.currentRunName !in w.runs then Unavailable(ServiceRecasting)
      else
        var standing := w.runs[agent.currentRunName];
        if standing.owner != agent.uid || standing.port.Some? || !standing.status.phase.Running?
           || standing.status.podName == "" then Unavailable(TargetNotReady)
        else if standing.runtimePort.None? || standing.runtimePort != run.port then Unavailable(ServiceRecasting)
        else if standing.status.podName !in w.pods then Unavailable(ServiceRecasting)
        else
          var pod := w.pods[standing.status.podName];
          if pod.owner != standing.uid || !PodReady(pod) then Unavailable(TargetNotReady)
          else LoadCredential(w, standing, pod, fault)
  }

  /** The same Pod, reachable at the same address, with the same credential. */
  predicate SameTarget(a: Target, b: Target) {
    && a.pod.uid != "" && a.pod.uid == b.pod.uid && a.pod.name == b.pod.name && a.pod.ip == b.pod.ip
    && a.credential == b.credential
  }

  function ConfirmTarget(w: World, run: Run, expected: Target, fault: ReadFault): Resolution {
    match ResolveTarget(w, run, fault)
    case Found(current) => if SameTarget(expected, current) then Found(current) else Unavailable(TargetChanged)
    case other => other
  }

  /* Time */

  /** The instant after which nothing is sent any more, and whether the wallclock budget sets it. */
  function Deadline(run: Run, now: Time): (Time, bool) {
    var timeout := if run.createdAt.Some? then run.createdAt.value + DELIVERY_TIMEOUT else now + DELIVERY_TIMEOUT;
    if !run.budget.Wallclock? || run.status.startTime.None? then (timeout, false)
    else
      var wallclock := run.status.startTime.value + run.budget.limit;
      if wallclock <= timeout then (wallclock, true) else (timeout, false)
  }

  function Backoff(elapsed: int): int {
    if elapsed >= 120 * AgentRuns.SECOND then 15 * AgentRuns.SECOND
    else if elapsed >= 30 * AgentRuns.SECOND then 5 * AgentRuns.SECOND
    else if elapsed >= 5 * AgentRuns.SECOND then 2 * AgentRuns.SECOND
    else AgentRuns.SECOND
  }

  /** The zero time stands for a missing creation timestamp. */
  function BackoffFor(run: Run, now: Time): int {
    Backoff(now - if run.createdAt.Some? then run.createdAt.value else 0)
  }

  /* Status patches */

  function Put(w: World, name: string, run: Run, status: Status): World {
    w.(runs := w.runs[name := run.(status := status)])
  }

  function Completed(status: Status, now: Time): Option<Time> {
    if status.completionTime.Some? then status.completionTime else Some(now)
  }

  function FinalStatus(status: Status, phase: Phase, now: Time): Status {
    status.(phase := phase, completionTime := Completed(status, now))
  }

  function WaitingStatus(status: Status): Status {
    status.(phase := AgentRuns.Pending, completionTime := None)
  }

  function RunningStatus(status: Status, podName: string, now: Time): Status {
    status.(phase := AgentRuns.Running, podName := podName, completionTime := None,
            startTime := if status.startTime.Some? then status.startTime else Some(now))
  }

  function ResultStatus(status: Status, podName: string, observation: Observation, now: Time): Status {
    status.(phase := if observation.failed then AgentRuns.Failed else AgentRuns.Succeeded, podName := podName,
            result := Some(observation), completionTime := Completed(status, now))
  }

  /** What a reconcile reports: when to come back, and whether a call failed. */
  datatype Outcome = Outcome(requeueAfter: Option<int>, error: bool)

  const DONE := Outcome(None, false)
  const ERROR := Outcome(None, true)

  /** A world and what the reconcile that led to it reports. */
  datatype Step = Step(world: World, outcome: Outcome)

  function Finishing(w: World, name: string, run: Run, phase: Phase, now: Time, patchFails: bool): Step {
    if patchFails then Step(w, ERROR) else Step(Put(w, name, run, FinalStatus(run.status, phase, now)), DONE)
  }

  function Expiring(w: World, name: string, run: Run, now: Time, patchFails: bool): Step {
    Finishing(w, name, run, if Deadline(run, now).1 then AgentRuns.BudgetExceeded else AgentRuns.Failed, now, patchFails)
  }

  function Waiting(w: World, name: string, run: Run, now: Time, patchFails: bool): Step {
    if patchFails then Step(w, ERROR)
    else Step(Put(w, name, run, WaitingStatus(run.status)), Outcome(Some(BackoffFor(run, now)), false))
  }

  /** When there is no target: wait, give up, or fail. */
  function NoTarget(w: World, name: string, run: Run, resolution: Resolution, now: Time, patchFails: bool): Step
    requires !resolution.Found?
  {
    match resolution
    case Unavailable(_) => Waiting(w, name, run, now, patchFails)
    case Misconfigured => Finishing(w, name, run, AgentRuns.Failed, now, patchFails)
    case Failing => Step(w, ERROR)
  }

  /* Up to the request */

  /** What the first half of a reconcile meets; `recast` is the rest of the cluster when it confirms its target. */
  datatype Before = Before(
    now: Time, confirmNow: Time, resolveFault: ReadFault, confirmFault: ReadFault,
    runningPatchFails: bool, patchFails: bool, recast: World)

  /** A request on its way. */
  datatype Flight = Flight(name: string, uid: Uid, target: Target, deadline: Time)

  datatype Begun = Stopped(step: Step) | Sent(world: World, flight: Flight)

  /** Everything but the run itself may have changed. */
  function Recast(w: World, name: string, recast: World): World
    requires name in w.runs
  {
    recast.(runs := recast.runs[name := w.runs[name]])
  }

  function Begin(w: World, name: string, b: Before): Begun {
    if name !in w.runs || w.runs[name].port.None? || w.runs[name].status.phase.IsTerminal() then Stopped(Step(w, DONE))
    else
      var run := w.runs[name];
      if run.budget.InvalidBudget? then Stopped(Finishing(w, name, run, AgentRuns.Failed, b.now, b.patchFails))
      else if b.now >= Deadline(run, b.now).0 then Stopped(Expiring(w, name, run, b.now, b.patchFails))
      else
        match ResolveTarget(w, run, b.resolveFault)
        case Found(target) =>
          if b.runningPatchFails then Stopped(Step(w, ERROR))
          else
            var started := run.(status := RunningStatus(run.status, target.pod.name, b.now));
            Confirm(Recast(Put(w, name, run, started.status), name, b.recast), name, started, target, b)
        case other => Stopped(NoTarget(w, name, run, other, b.now, b.patchFails))
  }

  function Confirm(w: World, name: string, run: Run, target: Target, b: Before): Begun {
    match ConfirmTarget(w, run, target, b.confirmFault)
    case Found(confirmed) =>
      if b.confirmNow >= Deadline(run, b.confirmNow).0 then Stopped(Expiring(w, name, run, b.confirmNow, b.patchFails))
      else Sent(w, Flight(name, run.uid, confirmed, Deadline(run, b.confirmNow).0))
    case other => Stopped(NoTarget(w, name, run, other, b.confirmNow, b.patchFails))
  }

  /* After the response */

  /** An authenticated envelope, an answer that cannot be used, or no answer at all. */
  datatype Response = Answer(observation: Observation) | Unusable | Unreachable

  datatype After = After(now: Time, response: Response, getFails: bool, confirmFault: ReadFault, patchFails: bool)

  function Finish(w: World, flight: Flight, a: After): Step {
    if a.getFails then Step(w, ERROR)
    else if flight.name !in w.runs then Step(w, DONE)
    else
      var run := w.runs[flight.name];
      if run.uid != flight.uid || run.status.phase.IsTerminal() then Step(w, DONE)
      else
        match ConfirmTarget(w, run, flight.target, a.confirmFault)
        case Found(target) => Conclude(w, flight.name, run, target, a)
        case other => NoTarget(w, flight.name, run, other, a.now, a.patchFails)
  }

  function Conclude(w: World, name: string, run: Run, target: Target, a: After): Step {
    match a.response
    case Answer(observation) =>
      if a.patchFails then Step(w, ERROR)
      else Step(Put(w, name, run, ResultStatus(run.status, target.pod.name, observation, a.now)), DONE)
    case Unusable => Finishing(w, name, run, AgentRuns.Failed, a.now, a.patchFails)
    case Unreachable =>
      if a.now >= Deadline(run, a.now).0 then Expiring(w, name, run, a.now, a.patchFails)
      else Waiting(w, name, run, a.now, a.patchFails)
  }
}
