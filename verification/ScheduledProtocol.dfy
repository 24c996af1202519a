/**
 One reconcile of a Scheduled Agent as a function of the cluster, the list it was given
 and the API failures it met. The controller class refines this function; the invariants
 over whole runs are proved about it.
 */
module ScheduledProtocol {
  import opened Prelude
  import opened Decimal
  import opened Scheduler
  import opened Sorting
  import opened AgentRuns
  import opened ScheduledHistory

  /** The parsed spec.schedule with API defaults applied. */
  datatype Policy = Policy(
    schedule: Schedule,
    forbid: bool,
    startingDeadline: nat,
    suspend: bool,
    successLimit: nat,
    failedLimit: nat)

  datatype Reason =
    | Unset | InvalidSchedule | ScheduleInitialized | ScheduleUpdated | Suspended
    | WaitingForSchedule | MissedDeadline | OverlapSkipped | RunCreated

  datatype AgentStatus = AgentStatus(
    runsCreated: nat,
    lastRunName: string,
    lastScheduleTime: Option<Time>,
    nextScheduleTime: Option<Time>,
    observedGeneration: nat,
    reason: Reason)

  /** What identifies the Agent; `hash` is the hex digest used for long names. */
  datatype Agent = Agent(name: string, uid: Uid, hash: string -> string) {
    function SlotName(slot: Time): string
      requires |hash(name)| >= HASH_LENGTH && slot <= MAX_INT64
    {
      RunName(hash, name, slot)
    }
  }

  /** What a successful Create stamped on the new run. */
  datatype Stamp = Stamp(slot: Time, sequence: nat)

  /**
   The AgentRuns of the namespace by name, the Agent's status, generation and parsed policy
   (None when the schedule is invalid), the clock (whole seconds and nanoseconds), and the log
   of all successful Creates.
   */
  datatype World = World(
    runs: map<string, Run>,
    status: AgentStatus,
    generation: nat,
    policy: Option<Policy>,
    now: Time,
    nanos: nat,
    log: seq<Stamp>)

  /**
   The failures of one reconcile. `stopAfter` ends pruning with an error once that many
   deletes have taken effect; `verify` and `vanished` concern the live re-read of a run
   whose name was already taken.
   */
  datatype Faults = Faults(
    listFails: bool,
    stopAfter: Option<nat>,
    create: Write,
    verifyFails: bool,
    vanished: bool,
    patch: Write)

  datatype Outcome = Aborted | Idle | RequeueNow | RequeueAt(at: Time)

  ghost predicate Ready(a: Agent, w: World) {
    && |a.hash(a.name)| >= HASH_LENGTH
    && w.now <= MAX_INT64
    && (w.policy.Some? ==> Cron(w.policy.value.schedule))
  }

  predicate PruneStops(stopAfter: Option<nat>, doomed: seq<Run>) {
    stopAfter.Some? && doomed != [] && stopAfter.value <= |doomed|
  }

  function BaseStatus(current: AgentStatus, generation: nat, seen: Observed): AgentStatus {
    AgentStatus(
      Max(current.runsCreated, seen.maxCount),
      if seen.latest.Some? then seen.latest.value.name else "",
      LaterOf(current.lastScheduleTime, seen.LatestDue()),
      current.nextScheduleTime,
      generation,
      Unset)
  }

  function LaterOf(a: Option<Time>, b: Option<Time>): Option<Time> {
    if b.None? || (a.Some? && b.value <= a.value) then a else b
  }

  function RecoverStatus(next: AgentStatus, run: Run, slot: Time, latestRetained: Option<Time>): AgentStatus {
    next.(
      runsCreated := if run.sequence.Some? then Max(next.runsCreated, run.sequence.value) else next.runsCreated,
      lastRunName :=
        if latestRetained.None? || latestRetained.value <= slot then run.name else next.lastRunName,
      lastScheduleTime := LaterOf(next.lastScheduleTime, Some(slot)))
  }

  /** Whether the clock is more than `deadline` seconds past the slot. */
  predicate Overdue(now: Time, nanos: nat, due: Time, deadline: nat) {
    now - due > deadline || (now - due == deadline && nanos > 0)
  }

  function RequeueFor(now: Time, next: Time): Outcome {
    if next <= now then RequeueNow else RequeueAt(next)
  }

  function PatchStatus(w: World, status: AgentStatus, patch: Write, done: Outcome): (World, Outcome) {
    match patch
    case Applied => (w.(status := status), done)
    case Rejected => (w, Aborted)
    case Lost => (w.(status := status), Aborted)
  }

  /** The run that the controller builds for a due slot. */
  function NewRun(a: Agent, slot: Time, sequence: nat, now: Time): Run
    requires |a.hash(a.name)| >= HASH_LENGTH && slot <= MAX_INT64
  {
    Run(a.SlotName(slot), a.uid, false, Some(slot), Some(sequence), Requested, now, None)
  }

  function CreateRun(w: World, run: Run): World
    requires run.slot.Some? && run.sequence.Some?
  {
    w.(runs := w.runs[run.name := run], log := w.log + [Stamp(run.slot.value, run.sequence.value)])
  }

  /** Listing, pruning, and then the slot decision. */
  ghost function Reconcile(a: Agent, w: World, listed: seq<Run>, f: Faults): (World, Outcome)
    requires Ready(a, w) && DistinctNames(listed)
  {
    if f.listFails then (w, Aborted)
    else
      SortByName(listed);
      var items := Sort(ByName, listed);
      match w.policy
      case None =>
        var status := BaseStatus(w.status, w.generation, Observe(items)).(reason := InvalidSchedule);
        PatchStatus(w, status, f.patch, Idle)
      case Some(policy) =>
        var doomed := Doomed(items, policy.successLimit, policy.failedLimit);
        if PruneStops(f.stopAfter, doomed) then
          (w.(runs := w.runs - Names(doomed[..f.stopAfter.value])), Aborted)
        else
          RetainedDistinct(items, Names(doomed));
          var kept := Observe(Retained(items, Names(doomed)));
          var seen := kept.(maxCount := Max(Observe(items).maxCount, kept.maxCount));
          DecideSlot(a, w.(runs := w.runs - Names(doomed)), policy, seen, f)
  }

  lemma RetainedDistinct(items: seq<Run>, deleted: set<string>)
    requires DistinctNames(items)
    ensures DistinctNames(Retained(items, deleted))
  {
    FilterDistinct((r: Run) => r.name !in deleted, items);
  }

  ghost function DecideSlot(a: Agent, w: World, policy: Policy, seen: Observed, f: Faults): (World, Outcome)
    requires Ready(a, w) && Cron(policy.schedule)
  {
    var base := BaseStatus(w.status, w.generation, seen);
    if w.status.observedGeneration != w.generation || w.status.nextScheduleTime.None? then
      var next := policy.schedule(w.now);
      var reason := if policy.suspend then Suspended
                    else if w.status.observedGeneration == 0 then ScheduleInitialized else ScheduleUpdated;
      PatchStatus(w, base.(nextScheduleTime := Some(next), reason := reason), f.patch,
                  if policy.suspend then Idle else RequeueFor(w.now, next))
    else if policy.suspend then
      var status := base.(nextScheduleTime := Some(policy.schedule(w.now)), reason := Suspended);
      PatchStatus(w, status, f.patch, Idle)
    else DecideDue(a, w, policy, seen, f)
  }

  /** The latest slot that is due, if any, and whether it still deserves a run. */
  ghost function DecideDue(a: Agent, w: World, policy: Policy, seen: Observed, f: Faults): (World, Outcome)
    requires Ready(a, w) && Cron(policy.schedule) && w.status.nextScheduleTime.Some?
  {
    var pair := LatestDueOf(policy.schedule, w.status.nextScheduleTime.value, w.now);
    var base := BaseStatus(w.status, w.generation, seen);
    var status := base.(nextScheduleTime := Some(pair.next));
    var later := RequeueFor(w.now, pair.next);
    if pair.due.None? then
      PatchStatus(w, status.(reason := WaitingForSchedule), f.patch, later)
    else
      var due := pair.due.value;
      if Overdue(w.now, w.nanos, due, policy.startingDeadline) then
        PatchStatus(w, status.(reason := MissedDeadline), f.patch, later)
      else if due in seen.bySlot then
        var found := RecoverStatus(status, seen.bySlot[due], due, seen.LatestDue());
        PatchStatus(w, found.(reason := RunCreated), f.patch, later)
      else if policy.forbid && seen.hasActive then
        PatchStatus(w, status.(reason := OverlapSkipped), f.patch, later)
      else if status.runsCreated == MAX_INT32 then (w, Aborted)
      else
        CreateForSlot(a, w, status, due, seen.LatestDue(), later, f)
  }

  ghost function CreateForSlot(a: Agent, w: World, status: AgentStatus, due: Time,
                               latestRetained: Option<Time>, later: Outcome, f: Faults): (World, Outcome)
    requires Ready(a, w) && due <= w.now
  {
    var run := NewRun(a, due, status.runsCreated + 1, w.now);
    if f.create.Rejected? then (w, Aborted)
    else if run.name in w.runs then
      var existing := w.runs[run.name];
      if f.verifyFails then (w, Aborted)
      else if f.vanished then (w, RequeueNow)
      else if existing.owner != a.uid || existing.slot != Some(due) then (w, Aborted)
      else
        var found := RecoverStatus(status, existing, due, latestRetained);
        var bumped := found.(runsCreated := Max(found.runsCreated, status.runsCreated + 1), reason := RunCreated);
        PatchStatus(w, bumped, f.patch, later)
    else if f.create.Lost? then (CreateRun(w, run), Aborted)
    else
      var created := status.(runsCreated := status.runsCreated + 1, lastRunName := run.name,
                             lastScheduleTime := Some(due), reason := RunCreated);
      PatchStatus(CreateRun(w, run), created, f.patch, later)
  }
}
