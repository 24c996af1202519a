/**
 The result envelope of an engine run, and whether it can be written at all: the summed usage of valid
 responses may break the rule on reasoning tokens, and then the run has no result.
 */
module EngineResult {
  import opened Prelude
  import opened Decimal
  import opened Bytes
  import opened JsonText
  import opened JsonNesting
  import RE = ResultEnvelope
  import RC = ResultCompact
  import opened RuntimeApi
  import opened EngineLimits
  import opened EngineLoop
  import opened EngineRuns

  /** What a result says beside the outcome of the loop. */
  datatype Metadata = Metadata(provider: bytes, model: bytes, startedAt: RE.Instant, completedAt: RE.Instant)

  function DefaultMediaType(): bytes { Ascii("text/plain") }

  /** A usage that reports nothing is left out. */
  function EnvelopeUsage(u: Usage): Option<RE.Usage> {
    if u == NO_USAGE then None else Some(RE.Usage(u.input, u.output, u.total, u.reasoning, None))
  }

  /** The envelope of a result; `describe` gives the texts of a failure. */
  function EnvelopeOf(r: RunResult, m: Metadata, describe: Code -> RE.ErrorInfo): RE.Envelope {
    RE.Envelope(
      RE.ApiVersion(),
      if r.failure.None? then RE.Succeeded() else RE.Failed(),
      if r.output.None? then None else Some(RE.Output(DefaultMediaType(), JsonString(r.output.value))),
      EnvelopeUsage(r.usage),
      Some(RE.Timing(Some(m.startedAt), Some(m.completedAt), Some((m.completedAt.nanos - m.startedAt.nanos) / 1_000_000), None)),
      Some(RE.Execution(m.provider, m.model, r.requestId, Some(r.turns), Some(r.toolCalls))),
      if r.failure.None? then None else Some(describe(r.failure.value)),
      [], [], None)
  }

  /** An instant that json.Marshal writes, as digits and punctuation. */
  predicate HasText(t: RE.Instant) { t.text.Some? && Bare(t.text.value) }

  /** The clock does not go back, shows a year that has four digits, and failures have messages. */
  ghost predicate Presentable(m: Metadata, describe: Code -> RE.ErrorInfo) {
    && m.startedAt.nanos <= m.completedAt.nanos && HasText(m.startedAt) && HasText(m.completedAt)
    && forall code :: !Blank(describe(code).message)
  }

  lemma MediaTypeVisible()
    ensures !Blank(DefaultMediaType())
  {
    var s := "text/plain";
    assert |s| == 10 && s[0] == 't';
    StartsVisible(Ascii(s));
    hide Blank;
  }

  lemma StringNotBlank(s: bytes)
    ensures !Blank(JsonString(s))
  {
    RE.StringVisible(s);
    StartsVisible(JsonString(s));
    hide Blank, JsonString;
  }

  /** Of a result with non-negative counts, the envelope is valid exactly when its usage keeps the rule. */
  lemma ValidIffRule(json: RE.JsonRules, r: RunResult, m: Metadata, describe: Code -> RE.ErrorInfo)
    requires RE.KnowsStrings(json) && Presentable(m, describe)
    requires OrZero(r.usage.input) >= 0 && OrZero(r.usage.output) >= 0
    requires OrZero(r.usage.total) >= 0 && OrZero(r.usage.reasoning) >= 0
    ensures RE.Validates(json, EnvelopeOf(r, m, describe)) <==> ReasoningRule(r.usage)
  {
    hide Blank, JsonString, RE.ApiVersion, RE.Succeeded, RE.Failed, RE.ValidOutput, RE.ValidUsage, DefaultMediaType,
         RE.KnowsStrings, ReasoningRule;
    RC.OutcomesDiffer();
    if r.output.Some? { TextIsValidOutput(json, r.output.value); }
    UsageValidIffRule(r.usage);
    var e := EnvelopeOf(r, m, describe);
    assert e.timing.Some? && RE.ValidTiming(e.timing.value) && e.execution.Some? && RE.ValidExecution(e.execution.value);
  }

  lemma TextIsValidOutput(json: RE.JsonRules, text: bytes)
    requires RE.KnowsStrings(json)
    ensures RE.ValidOutput(json, RE.Output(DefaultMediaType(), JsonString(text)))
  {
    hide Blank, JsonString, DefaultMediaType;
    MediaTypeVisible();
    StringNotBlank(text);
  }

  lemma UsageValidIffRule(u: Usage)
    requires OrZero(u.input) >= 0 && OrZero(u.output) >= 0 && OrZero(u.total) >= 0 && OrZero(u.reasoning) >= 0
    ensures var e := EnvelopeUsage(u);
            (e.Some? ==> RE.ValidUsage(e.value)) <==> ReasoningRule(u)
  {
  }

  lemma {:induction false} SummedNotNegative(usages: seq<Usage>)
    requires AllValid(usages)
    ensures var u := SummedUsage(usages);
            OrZero(u.input) >= 0 && OrZero(u.output) >= 0 && OrZero(u.total) >= 0 && OrZero(u.reasoning) >= 0
  {
    hide ValidUsage;
    if usages != [] {
      SummedNotNegative(usages[..|usages| - 1]);
      UsageNotNegative(usages[|usages| - 1]);
    }
  }

  /** The usage that a finished run reports. */
  lemma ReportedUsage(c: Config, env: Environment, fuel: nat)
    requires Stamps(env) && Run(c, env, fuel).Some?
    ensures var usages := Usages(Loop(c, env, NewState(c.goal), fuel).value.s.responses);
            AllValid(usages) && Run(c, env, fuel).value.usage == SummedUsage(usages)
  {
    NewIsReady(c);
    LoopKeeps(c, env, NewState(c.goal), fuel);
    hide Loop, RequestsKept, ToolsKept, AllValid, SummedUsage, Usages;
  }

  /**
   The result of a run is written exactly when the sum of its reported reasoning tokens is not above that
   of its output tokens, or one of the two was never reported; otherwise nothing is written, and the
   run's outcome is lost even if it was a success.
   */
  lemma ResultWrittenIff(c: Config, env: Environment, fuel: nat, json: RE.JsonRules, m: Metadata,
                         describe: Code -> RE.ErrorInfo, compacted: Result<bytes, RC.Problem>)
    requires Stamps(env) && Run(c, env, fuel).Some?
    requires RE.Sound(json) && RE.KnowsStrings(json) && Presentable(m, describe)
    requires |RE.Encode(json, EnvelopeOf(Run(c, env, fuel).value, m, describe))| <= MAX_INT64
    requires RC.IsCompaction(json, EnvelopeOf(Run(c, env, fuel).value, m, describe), RE.MAX_TERMINATION_MESSAGE, compacted)
    ensures var usages := Usages(Loop(c, env, NewState(c.goal), fuel).value.s.responses);
            && (compacted.Ok? <==> ReasoningRule(SummedUsage(usages)))
            && (compacted.Err? ==> compacted == Err(RC.InvalidEnvelope))
  {
    var usages := Usages(Loop(c, env, NewState(c.goal), fuel).value.s.responses);
    hide Loop, Run, Stamps, RE.Sound, RE.Encode, EnvelopeOf, RE.Validates, RE.KnowsStrings, Presentable, Usages, AllValid,
         RE.Clone, RC.NothingFits, RC.IsFirstFit, ReasoningRule, SummedUsage, RE.Encodable, RE.Decodes, RE.ValuesWithin,
         RE.PlainTexts;
    ReportedUsage(c, env, fuel);
    SummedNotNegative(usages);
    var e := EnvelopeOf(Run(c, env, fuel).value, m, describe);
    ValidIffRule(json, Run(c, env, fuel).value, m, describe);
    EnvelopeMarshals(Run(c, env, fuel).value, m, describe);
    if RE.Validates(json, e) { RC.TerminationMessageFitsByContents(json, e, compacted); }
  }

  /** Only validation can refuse the envelope of a result. */
  lemma EnvelopeMarshals(r: RunResult, m: Metadata, describe: Code -> RE.ErrorInfo)
    requires Presentable(m, describe)
    ensures var e := EnvelopeOf(r, m, describe);
            RE.Encodable(e) && RE.PlainTexts(e) && RE.ValuesWithin(e, MAX_DEPTH - 2)
  {
    hide JsonString, Bare, Nesting, Nests, Blank, DefaultMediaType, RE.ApiVersion, RE.Succeeded, RE.Failed;
    if r.output.Some? {
      StringNests(r.output.value);
      NestingOf(JsonString(r.output.value), 0);
    }
  }

  /* Such a run */

  function Spoken(usage: Usage, reason: StopReason): Response {
    Response(Message(Assistant, [TextBlock([0x78])]), usage, reason, [])
  }

  /** Five reasoning tokens without any output tokens, then one output token. */
  function TwoTurns(): Environment {
    Environment(
      (n, request) => Ok(if n == 0 then Spoken(Usage(None, None, None, Some(5)), PauseTurn)
                         else Spoken(Usage(None, Some(1), None, None), EndTurn)),
      (n, call: ToolCall) => Ok(ToolResult(call.id, call.name, [], false, [], false)), [], text => true, true)
  }

  const UNLIMITED := Limits(None, None, None, None, None)

  lemma SpokenValid(usage: Usage, reason: StopReason)
    requires ValidUsage(usage) && !reason.UnknownReason?
    ensures ValidResponse(text => true, Spoken(usage, reason)) && CallsIn(Spoken(usage, reason).message.content) == []
  {
    hide Blank, ValidUsage, CallsIn;
    StartsVisible([0x78]);
    NoCalls([0x78]);
  }

  lemma NoCalls(text: bytes)
    ensures CallsIn([TextBlock(text)]) == []
  {
    assert [TextBlock(text)][..0] == [] && CallsIn([]) == [];
  }

  /** It succeeds in two turns, with a usage that no envelope may carry. */
  lemma SuccessCannotBeWritten(goal: bytes)
    ensures var c := Config([], goal, UNLIMITED);
            && Stamps(TwoTurns()) && Run(c, TwoTurns(), 2).Some? && Run(c, TwoTurns(), 2).value.failure.None?
            && !ReasoningRule(Run(c, TwoTurns(), 2).value.usage)
  {
    hide CallsIn, TextOf, Blank, ValidBlock, GoalMessage;
    var c, env := Config([], goal, UNLIMITED), TwoTurns();
    var s := NewState(goal);
    var first := Spoken(Usage(None, None, None, Some(5)), PauseTurn);
    var second := Spoken(Usage(None, Some(1), None, None), EndTurn);
    SpokenValid(first.usage, PauseTurn);
    SpokenValid(second.usage, EndTurn);
    var turn := ProviderTurn(c, env, s);
    assert turn.Paused? && turn.s.turns == 1 && turn.s.usage == Usage(None, None, None, Some(5));
    var last := ProviderTurn(c, env, turn.s);
    assert last.Final? && last.result.failure.None? && last.result.usage == Usage(None, Some(1), None, Some(5));
    TwoTurnLoop(c, env, s, turn.s, last.s, last.result);
  }

  lemma TwoTurnLoop(c: Config, env: Environment, s: State, t: State, u: State, result: RunResult)
    requires ProviderTurn(c, env, s) == Paused(t) && ProviderTurn(c, env, t) == Final(u, result)
    ensures Loop(c, env, s, 2) == Some(Ending(u, result))
  {
    hide ProviderTurn;
    assert Loop(c, env, t, 1) == Some(Ending(u, result));
  }
}
