/** Resolving an invocation against its Agent: who may run, under which name and with which goal. */
module RunFactory {
  import opened Prelude
  import opened Decimal
  import opened ServiceRunNames
  import GT = GoalTemplate

  datatype Mode = Task | Service | OtherMode

  /** `execution` stands for provider, model, tools and the other fields copied as they are. */
  datatype AgentSpec<E> = AgentSpec(
    mode: Mode, goal: string, goalTemplate: string, deliveryPort: Option<int>, execution: E)

  datatype Agent<E> = Agent(name: string, uid: string, namespace: string, spec: AgentSpec<E>)

  /** A sparse invocation; the fields an Agent locks are recorded as present or absent. */
  datatype InvocationSpec = InvocationSpec(
    agentRef: Option<string>, parameters: Option<map<string, string>>,
    goal: string, provider: string, model: string, serviceAccountName: string,
    tools: bool, budget: bool, secretRef: bool, knowledge: bool, runtime: bool, env: bool, delivery: bool)

  datatype Invocation = Invocation(
    name: string, namespace: string, typeMeta: string, finalizers: seq<string>, labels: map<string, string>,
    annotations: map<string, string>, spec: InvocationSpec)

  datatype ResolvedRun<E> = ResolvedRun(
    name: string, namespace: string, owner: string, typeMeta: string, finalizers: seq<string>,
    labels: map<string, string>, annotations: map<string, string>,
    agentRef: string, goal: string, parameters: Option<map<string, string>>, deliveryPort: Option<int>, execution: E)

  datatype Problem =
    | MissingAgent | WrongMode | DeliveryDisabled | InvalidDelivery | ReservedName
    | ConflictingFields(fields: set<string>)
    | Goal(problem: GT.Problem)

  const AGENT_NAME_LABEL := "kontext.dev/agent"

  function LockedFields(s: InvocationSpec): set<string> {
    (if s.goal != "" then {"goal"} else {}) + (if s.provider != "" then {"provider"} else {})
    + (if s.model != "" then {"model"} else {}) + (if s.tools then {"tools"} else {})
    + (if s.budget then {"budget"} else {}) + (if s.secretRef then {"secretRef"} else {})
    + (if s.knowledge then {"knowledgeConfigMapRef"} else {})
    + (if s.serviceAccountName != "" then {"serviceAccountName"} else {})
    + (if s.runtime then {"runtime"} else {}) + (if s.env then {"env"} else {})
    + (if s.delivery then {"delivery"} else {})
  }

  /** Nothing is supplied that the Agent decides. */
  predicate Sparse(s: InvocationSpec) {
    && s.goal == "" && s.provider == "" && s.model == "" && s.serviceAccountName == ""
    && !s.tools && !s.budget && !s.secretRef && !s.knowledge && !s.runtime && !s.env && !s.delivery
  }

  lemma LockedIffNotSparse(s: InvocationSpec)
    ensures LockedFields(s) == {} <==> Sparse(s)
  {
    if LockedFields(s) == {} {
      assert s.goal == "" by { assert s.goal != "" ==> "goal" in LockedFields(s); }
      assert s.provider == "" by { assert s.provider != "" ==> "provider" in LockedFields(s); }
      assert s.model == "" by { assert s.model != "" ==> "model" in LockedFields(s); }
      assert !s.tools by { assert s.tools ==> "tools" in LockedFields(s); }
      assert !s.budget by { assert s.budget ==> "budget" in LockedFields(s); }
      assert !s.secretRef by { assert s.secretRef ==> "secretRef" in LockedFields(s); }
      assert !s.knowledge by { assert s.knowledge ==> "knowledgeConfigMapRef" in LockedFields(s); }
      assert s.serviceAccountName == "" by {
        assert s.serviceAccountName != "" ==> "serviceAccountName" in LockedFields(s);
      }
      assert !s.runtime by { assert s.runtime ==> "runtime" in LockedFields(s); }
      assert !s.env by { assert s.env ==> "env" in LockedFields(s); }
      assert !s.delivery by { assert s.delivery ==> "delivery" in LockedFields(s); }
    }
  }

  function OrEmpty(parameters: Option<map<string, string>>): map<string, string> {
    if parameters.Some? then parameters.value else map[]
  }

  /** A static goal takes no parameters at all, not even an empty map of them. */
  function ResolveTaskGoal<E>(spec: AgentSpec<E>, parameters: Option<map<string, string>>): Result<string, GT.Problem> {
    if (spec.goal != "") == (spec.goalTemplate != "") then Err(GT.InvalidTemplate)
    else if spec.goal != "" then
      if parameters.Some? then Err(GT.UnusedParameters(parameters.value.Keys)) else Ok(spec.goal)
    else GT.Interpolated(spec.goalTemplate, OrEmpty(parameters))
  }

  /** None is acceptance. */
  function ValidateTask<E>(agent: Option<Agent<E>>): Option<Problem> {
    if agent.None? then Some(MissingAgent)
    else if !agent.value.spec.mode.Task? then Some(WrongMode)
    else
      match ResolveTaskGoal(agent.value.spec, None)
      case Ok(_) => None
      case Err(MissingParameters(_)) => None
      case Err(problem) => Some(Goal(problem))
  }

  /** A Task Agent is accepted exactly when some parameters resolve its goal. */
  lemma AcceptedIffResolvable<E>(agent: Agent<E>)
    ensures ValidateTask(Some(agent)).None?
       <==> agent.spec.mode.Task?
            && exists parameters: Option<map<string, string>> :: ResolveTaskGoal(agent.spec, parameters).Ok?
  {
    hide GT.Interpolated, GT.Scan, GT.Holes;
    var spec := agent.spec;
    if spec.goal == "" && spec.goalTemplate != "" {
      TemplateOutcome(spec.goalTemplate);
      if GT.Scan(spec.goalTemplate).Some? {
        var names := GT.Holes(GT.Scan(spec.goalTemplate).value);
        var parameters := map name | name in names :: "";
        assert parameters.Keys == names;
        GT.InterpolatesIff(spec.goalTemplate, parameters);
        assert ResolveTaskGoal(spec, Some(parameters)).Ok?;
      }
      forall p: Option<map<string, string>> ensures ResolveTaskGoal(spec, p).Ok? ==> GT.Scan(spec.goalTemplate).Some? {
        GT.InterpolatesIff(spec.goalTemplate, OrEmpty(p));
      }
    } else if spec.goal != "" && spec.goalTemplate == "" {
      assert ResolveTaskGoal(spec, None).Ok?;
    }
  }

  lemma TemplateOutcome(template: string)
    ensures var r := GT.Interpolated(template, map[]);
            (r.Ok? || r.error.MissingParameters? <==> GT.Scan(template).Some?)
  {
    hide GT.Scan, GT.Holes, GT.Render;
  }

  /** The goal of an admitted delivery, in the order the original decides. */
  function DeliveryGoal<E>(agent: Agent<E>, invocation: Invocation): Result<string, Problem> {
    if agent.spec.deliveryPort.None? then Err(DeliveryDisabled)
    else if IsReservedServiceRunName(agent.name, invocation.name) then Err(ReservedName)
    else if !(1 <= agent.spec.deliveryPort.value <= 65535) then Err(InvalidDelivery)
    else if agent.spec.goal == "" || agent.spec.goalTemplate == "" then Err(Goal(GT.InvalidTemplate))
    else
      match GT.Interpolated(agent.spec.goalTemplate, OrEmpty(invocation.spec.parameters))
      case Ok(goal) => Ok(goal)
      case Err(problem) => Err(Goal(problem))
  }

  function GoalFor<E>(agent: Agent<E>, invocation: Invocation): Result<string, Problem> {
    match agent.spec.mode
    case Task =>
      (match ResolveTaskGoal(agent.spec, invocation.spec.parameters)
       case Ok(goal) => Ok(goal)
       case Err(problem) => Err(Goal(problem)))
    case Service => DeliveryGoal(agent, invocation)
    case OtherMode => Err(WrongMode)
  }

  predicate Refers<E>(agent: Agent<E>, invocation: Invocation) {
    && invocation.spec.agentRef == Some(agent.name) && agent.name != ""
    && (invocation.namespace == "" || invocation.namespace == agent.namespace)
  }

  /** The run that an admitted invocation becomes. */
  function ResolvedFrom<E>(agent: Agent<E>, invocation: Invocation, goal: string): ResolvedRun<E> {
    ResolvedRun(invocation.name, agent.namespace, agent.uid, invocation.typeMeta, invocation.finalizers,
                invocation.labels + map[AGENT_NAME_LABEL := agent.name],
                invocation.annotations, agent.name, goal, invocation.spec.parameters,
                if agent.spec.mode.Service? then agent.spec.deliveryPort else None, agent.spec.execution)
  }

  method ResolveInvocation<E>(agent: Option<Agent<E>>, invocation: Invocation)
    returns (r: Result<ResolvedRun<E>, Problem>)
    ensures (r.Ok? <==>
               && agent.Some? && Refers(agent.value, invocation) && Sparse(invocation.spec)
               && GoalFor(agent.value, invocation).Ok?)
    ensures r.Ok? ==> r.value == ResolvedFrom(agent.value, invocation, GoalFor(agent.value, invocation).value)
    ensures r.Err? && agent.Some? && Refers(agent.value, invocation) ==>
              r.error == if Sparse(invocation.spec) then GoalFor(agent.value, invocation).error
                         else ConflictingFields(LockedFields(invocation.spec))
    ensures agent.None? || !Refers(agent.value, invocation) ==> r == Err(MissingAgent)
  {
    hide GT.Interpolated, IsReservedServiceRunName;
    var referenceName := if invocation.spec.agentRef.Some? then invocation.spec.agentRef.value else "";
    if agent.None? || referenceName == "" || referenceName != agent.value.name
       || (invocation.namespace != "" && invocation.namespace != agent.value.namespace) {
      return Err(MissingAgent);
    }
    var fields := LockedFields(invocation.spec);
    LockedIffNotSparse(invocation.spec);
    if fields != {} {
      return Err(ConflictingFields(fields));
    }
    var delivery: Option<int> := None;
    var goal: string;
    match agent.value.spec.mode {
      case Task =>
        var resolved := ResolveTaskGoal(agent.value.spec, invocation.spec.parameters);
        if resolved.Err? {
          return Err(Goal(resolved.error));
        }
        goal := resolved.value;
      case Service =>
        if agent.value.spec.deliveryPort.None? {
          return Err(DeliveryDisabled);
        }
        if IsReservedServiceRunName(agent.value.name, invocation.name) {
          return Err(ReservedName);
        }
        var port := agent.value.spec.deliveryPort.value;
        if port < 1 || port > 65535 {
          return Err(InvalidDelivery);
        }
        if agent.value.spec.goal == "" || agent.value.spec.goalTemplate == "" {
          return Err(Goal(GT.InvalidTemplate));
        }
        var interpolated := GT.InterpolateGoal(agent.value.spec.goalTemplate, OrEmpty(invocation.spec.parameters));
        if interpolated.Err? {
          return Err(Goal(interpolated.error));
        }
        goal := interpolated.value;
        delivery := Some(port);
      case OtherMode =>
        return Err(WrongMode);
    }
    var labels := LabelledFor(agent.value.name, invocation.labels);
    r := Ok(ResolvedRun(invocation.name, agent.value.namespace, agent.value.uid, invocation.typeMeta,
                        invocation.finalizers, labels, invocation.annotations, agent.value.name, goal,
                        invocation.spec.parameters, delivery, agent.value.spec.execution));
  }

  /** The invocation's labels, added one by one, under the one that names the Agent. */
  method LabelledFor(agentName: string, extra: map<string, string>) returns (labels: map<string, string>)
    ensures labels == extra + map[AGENT_NAME_LABEL := agentName]
  {
    labels := map[AGENT_NAME_LABEL := agentName];
    var keys := extra.Keys;
    while keys != {}
      invariant keys <= extra.Keys
      invariant labels.Keys == (extra.Keys - keys) + {AGENT_NAME_LABEL}
      invariant forall k :: k in extra.Keys - keys ==> labels[k] == extra[k]
      decreases |keys|
    {
      var key :| key in keys;
      labels := labels[key := extra[key]];
      keys := keys - {key};
    }
    labels := labels[AGENT_NAME_LABEL := agentName];
  }

  /* What admission promises */

  /** A delivered run that is admitted never holds a name that the controller can mint for its own Agent. */
  lemma DeliveredNameNeverMinted<E>(agent: Agent<E>, invocation: Invocation, n: nat)
    requires agent.spec.mode.Service? && GoalFor(agent, invocation).Ok? && 1 <= n <= MAX_INT32
    ensures ResolvedFrom(agent, invocation, GoalFor(agent, invocation).value).name != MintedName(agent.name, n)
  {
    hide GT.Interpolated, IsReservedServiceRunName, MintedName;
    ReservedIffMintable(agent.name, invocation.name);
  }

  /** A Service invocation is admitted exactly when it can be delivered, is named freely and fits the template. */
  lemma DeliveryAdmittedIff<E>(agent: Agent<E>, invocation: Invocation)
    requires agent.spec.mode.Service?
    ensures GoalFor(agent, invocation).Ok?
       <==> && agent.spec.deliveryPort.Some? && 1 <= agent.spec.deliveryPort.value <= 65535
            && agent.spec.goal != "" && agent.spec.goalTemplate != ""
            && (forall n :: 1 <= n <= MAX_INT32 ==> invocation.name != MintedName(agent.name, n))
            && GT.Scan(agent.spec.goalTemplate).Some?
            && GT.Holes(GT.Scan(agent.spec.goalTemplate).value) == OrEmpty(invocation.spec.parameters).Keys
  {
    hide GT.Interpolated, IsReservedServiceRunName, MintedName, GT.Scan, GT.Holes;
    ReservedIffMintable(agent.name, invocation.name);
    GT.InterpolatesIff(agent.spec.goalTemplate, OrEmpty(invocation.spec.parameters));
  }

  /** A Task invocation is admitted exactly when the goal is static and nothing is passed, or the names agree. */
  lemma TaskAdmittedIff<E>(agent: Agent<E>, invocation: Invocation)
    requires agent.spec.mode.Task?
    ensures GoalFor(agent, invocation).Ok?
       <==> || (agent.spec.goal != "" && agent.spec.goalTemplate == "" && invocation.spec.parameters.None?)
            || (&& agent.spec.goal == "" && agent.spec.goalTemplate != ""
                && GT.Scan(agent.spec.goalTemplate).Some?
                && GT.Holes(GT.Scan(agent.spec.goalTemplate).value) == OrEmpty(invocation.spec.parameters).Keys)
  {
    hide GT.Interpolated, GT.Scan, GT.Holes;
    GT.InterpolatesIff(agent.spec.goalTemplate, OrEmpty(invocation.spec.parameters));
  }

  /** What an admitted run takes from the Agent, what from the invocation, and that it names its Agent whatever the labels say. */
  lemma ResolvedFields<E>(agent: Agent<E>, invocation: Invocation, goal: string)
    ensures var run := ResolvedFrom(agent, invocation, goal);
            && run.name == invocation.name && run.parameters == invocation.spec.parameters
            && run.typeMeta == invocation.typeMeta && run.finalizers == invocation.finalizers
            && run.annotations == invocation.annotations
            && run.namespace == agent.namespace && run.owner == agent.uid && run.agentRef == agent.name
            && run.execution == agent.spec.execution && run.goal == goal
            && (run.deliveryPort.Some? ==> agent.spec.mode.Service? && run.deliveryPort == agent.spec.deliveryPort)
            && (agent.spec.mode.Service? && agent.spec.deliveryPort.Some? ==> run.deliveryPort.Some?)
            && run.labels.Keys == invocation.labels.Keys + {"kontext.dev/agent"}
            && run.labels["kontext.dev/agent"] == agent.name
            && forall k :: k in invocation.labels && k != "kontext.dev/agent" ==> run.labels[k] == invocation.labels[k]
  {
  }

  /** The goal of an admitted run: the Agent's own, or its template with the parameters in the places of their names. */
  lemma GoalIs<E>(agent: Agent<E>, invocation: Invocation)
    requires GoalFor(agent, invocation).Ok?
    ensures var goal := GoalFor(agent, invocation).value;
            if agent.spec.mode.Task? && agent.spec.goal != "" then goal == agent.spec.goal
            else
              && GT.Scan(agent.spec.goalTemplate).Some?
              && GT.Holes(GT.Scan(agent.spec.goalTemplate).value) == OrEmpty(invocation.spec.parameters).Keys
              && goal == GT.Render(GT.Scan(agent.spec.goalTemplate).value, OrEmpty(invocation.spec.parameters))
  {
    hide GT.Scan, GT.Holes, GT.Render, IsReservedServiceRunName;
    GT.InterpolatesIff(agent.spec.goalTemplate, OrEmpty(invocation.spec.parameters));
  }

  /** Why an invocation of a Service is refused: the first of the reasons, in this order, that applies. */
  lemma DeliveryProblemIs<E>(agent: Agent<E>, invocation: Invocation)
    requires agent.spec.mode.Service? && GoalFor(agent, invocation).Err?
    ensures var problem := GoalFor(agent, invocation).error;
            if agent.spec.deliveryPort.None? then problem == DeliveryDisabled
            else if exists n :: 1 <= n <= MAX_INT32 && invocation.name == MintedName(agent.name, n) then problem == ReservedName
            else if agent.spec.deliveryPort.value < 1 || agent.spec.deliveryPort.value > 65535 then problem == InvalidDelivery
            else if agent.spec.goal == "" || agent.spec.goalTemplate == "" then problem == Goal(GT.InvalidTemplate)
            else TemplateProblem(agent.spec.goalTemplate, OrEmpty(invocation.spec.parameters), problem)
  {
    hide GT.Interpolated, IsReservedServiceRunName, MintedName;
    ReservedIffMintable(agent.name, invocation.name);
    if GT.Interpolated(agent.spec.goalTemplate, OrEmpty(invocation.spec.parameters)).Err? {
      TemplateProblemIs(agent.spec.goalTemplate, OrEmpty(invocation.spec.parameters));
    }
    hide TemplateProblem;
  }

  /** The template is malformed; or names are missing; or, with none missing, some are not used. */
  ghost predicate TemplateProblem(template: string, parameters: map<string, string>, problem: Problem) {
    match GT.Scan(template)
    case None => problem == Goal(GT.InvalidTemplate)
    case Some(tokens) =>
      var missing, unused := GT.Holes(tokens) - parameters.Keys, parameters.Keys - GT.Holes(tokens);
      if missing != {} then problem == Goal(GT.MissingParameters(missing))
      else unused != {} && problem == Goal(GT.UnusedParameters(unused))
  }

  lemma TemplateProblemIs(template: string, parameters: map<string, string>)
    requires GT.Interpolated(template, parameters).Err?
    ensures TemplateProblem(template, parameters, Goal(GT.Interpolated(template, parameters).error))
  {
    hide GT.Scan, GT.Holes, GT.Render;
  }

  /** Why an invocation of a Task is refused. */
  lemma TaskProblemIs<E>(agent: Agent<E>, invocation: Invocation)
    requires agent.spec.mode.Task? && GoalFor(agent, invocation).Err?
    ensures var problem, parameters := GoalFor(agent, invocation).error, invocation.spec.parameters;
            if (agent.spec.goal == "") == (agent.spec.goalTemplate == "") then problem == Goal(GT.InvalidTemplate)
            else if agent.spec.goal != "" then
              parameters.Some? && problem == Goal(GT.UnusedParameters(parameters.value.Keys))
            else TemplateProblem(agent.spec.goalTemplate, OrEmpty(parameters), problem)
  {
    hide GT.Interpolated, TemplateProblem;
    if agent.spec.goal == "" && agent.spec.goalTemplate != "" {
      TemplateProblemIs(agent.spec.goalTemplate, OrEmpty(invocation.spec.parameters));
    }
  }
}
