/** What every run of the engine keeps, whatever its provider and tools answer. */
module EngineRuns {
  import opened Prelude
  import opened Decimal
  import opened Bytes
  import opened RuntimeApi
  import opened EngineLimits
  import opened EngineLoop

  /* The transcript */

  /** A tool message that answers each call once, in order, under its id and name. */
  ghost predicate Answers(calls: seq<ToolCall>, m: Message) {
    && m.role.ToolRole? && |m.content| == |calls|
    && forall j :: 0 <= j < |calls| ==> AnswersCall(calls[j], m.content[j])
  }

  predicate AnswersCall(call: ToolCall, b: ContentBlock) {
    && b == ContentBlock(Answer, [], None, b.answer)
    && b.answer.Some? && b.answer.value.callId == call.id && b.answer.value.name == call.name
  }

  /** Each message that asks for tools is followed at once by their answers. */
  ghost predicate WellMatched(ms: seq<Message>) {
    && ms != [] && ms[0].role.User? && CallsIn(ms[0].content) == []
    && forall i :: 1 <= i < |ms| ==> InPlace(ms, i)
  }

  ghost predicate InPlace(ms: seq<Message>, i: nat)
    requires 1 <= i < |ms|
  {
    var calls, before := CallsIn(ms[i].content), CallsIn(ms[i - 1].content);
    if before != [] then Answers(before, ms[i])
    else ms[i].role.Assistant? && (calls != [] ==> i + 1 < |ms|)
  }

  /** Tools answer under the call's own id and name, as the registry makes sure of. */
  ghost predicate Stamps(env: Environment) {
    forall n, call :: env.execute(n, call).Ok? ==>
      env.execute(n, call).value.callId == call.id && env.execute(n, call).value.name == call.name
  }

  lemma {:induction false} NoCallsInAnswers(content: seq<ContentBlock>)
    requires forall j :: 0 <= j < |content| ==> content[j].kind.Answer?
    ensures CallsIn(content) == []
  {
    if content != [] { NoCallsInAnswers(content[..|content| - 1]); }
  }

  lemma AnswersCarryNoCalls(calls: seq<ToolCall>, m: Message)
    requires Answers(calls, m)
    ensures CallsIn(m.content) == []
  {
    forall j | 0 <= j < |m.content| ensures m.content[j].kind.Answer? { assert AnswersCall(calls[j], m.content[j]); }
    NoCallsInAnswers(m.content);
  }

  lemma {:induction false} LastHasNoCalls(ms: seq<Message>)
    requires WellMatched(ms)
    ensures CallsIn(ms[|ms| - 1].content) == []
  {
    var i := |ms| - 1;
    if i > 0 {
      assert InPlace(ms, i);
      if CallsIn(ms[i - 1].content) != [] { AnswersCarryNoCalls(CallsIn(ms[i - 1].content), ms[i]); }
    }
  }

  lemma MatchedAfterPlainMessage(ms: seq<Message>, m: Message)
    requires WellMatched(ms) && m.role.Assistant? && CallsIn(m.content) == []
    ensures WellMatched(ms + [m])
  {
    LastHasNoCalls(ms);
    var longer := ms + [m];
    forall i | 1 <= i < |longer| ensures InPlace(longer, i) {
      if i < |ms| { assert InPlace(ms, i); }
    }
  }

  lemma MatchedAfterBatch(ms: seq<Message>, m: Message, answers: Message)
    requires WellMatched(ms) && m.role.Assistant? && CallsIn(m.content) != [] && Answers(CallsIn(m.content), answers)
    ensures WellMatched(ms + [m] + [answers])
  {
    LastHasNoCalls(ms);
    var longer := ms + [m] + [answers];
    forall i | 1 <= i < |longer| ensures InPlace(longer, i) {
      if i < |ms| { assert InPlace(ms, i); }
    }
  }

  /* The account of a state */

  function Usages(responses: seq<Response>): seq<Usage> {
    seq(|responses|, i requires 0 <= i < |responses| => responses[i].usage)
  }

  /** Before the k-th request, the tokens consumed so far were within the budget. */
  ghost predicate WithinBudget(limits: Limits, s: State, k: nat)
    requires k < |s.requests| && k <= |s.responses|
  {
    var consumed := ConsumedTokens(Usages(s.responses[..k]));
    limits.tokenBudget.Some? ==>
      && consumed <= Max(0, limits.tokenBudget.value)
      && s.requests[k].maxTokens == Some(Max(1, limits.tokenBudget.value - consumed))
  }

  ghost predicate RequestsKept(c: Config, s: State) {
    && |s.responses| <= |s.requests| <= |s.responses| + 1
    && s.turns == |s.requests|
    && (c.limits.maxTurns.Some? ==> s.turns <= Max(0, c.limits.maxTurns.value))
    && (forall k :: 0 <= k < |s.requests| ==> WellMatched(s.requests[k].messages))
    && (forall k :: 0 <= k < |s.requests| ==> WithinBudget(c.limits, s, k))
  }

  ghost predicate TokensKept(s: State) {
    && AllValid(Usages(s.responses))
    && s.consumedTokens == ConsumedTokens(Usages(s.responses))
    && s.usage == SummedUsage(Usages(s.responses))
  }

  function TotalBytes(results: seq<ToolResult>): int {
    if results == [] then 0 else TotalBytes(results[..|results| - 1]) + |results[|results| - 1].content|
  }

  ghost predicate ToolsKept(c: Config, s: State) {
    && s.toolCalls == |s.executed| && |s.results| <= |s.executed| <= |s.results| + 1
    && (c.limits.maxToolCalls.Some? ==> s.toolCalls <= Max(0, c.limits.maxToolCalls.value))
    && (c.limits.maxToolResultBytes.Some? ==>
          forall i :: 0 <= i < |s.results| ==> |s.results[i].content| <= Max(0, c.limits.maxToolResultBytes.value))
    && s.totalToolOutputBytes == TotalBytes(s.results)
    && (c.limits.maxTotalToolOutputBytes.Some? ==>
          s.totalToolOutputBytes <= Max(0, c.limits.maxTotalToolOutputBytes.value))
    && (forall i :: 0 <= i < |s.results| ==>
          s.results[i].callId == s.executed[i].id && s.results[i].name == s.executed[i].name)
  }

  /** What holds whenever the loop goes round. */
  ghost predicate Kept(c: Config, s: State) {
    && RequestsKept(c, s) && TokensKept(s) && ToolsKept(c, s)
  }

  ghost predicate Ready(c: Config, s: State) {
    && Kept(c, s) && WellMatched(s.messages)
    && |s.responses| == |s.requests| && |s.results| == |s.executed|
    && (c.limits.tokenBudget.Some? ==> s.consumedTokens <= Max(0, c.limits.tokenBudget.value))
  }

  /* One turn */

  function Asked(c: Config, env: Environment, s: State): State {
    s.(turns := s.turns + 1, requests := s.requests + [NextRequest(c, env, s)])
  }

  lemma AskingKeeps(c: Config, env: Environment, s: State)
    requires Ready(c, s) && !Reached(c.limits.maxTurns, s.turns)
    ensures Kept(c, Asked(c, env, s))
  {
    hide WellMatched, TotalBytes, ConsumedTokens, SummedUsage, AllValid, Usages;
    var t := Asked(c, env, s);
    var n := |s.requests|;
    assert s.responses[..n] == s.responses;
    forall k | 0 <= k < |t.requests| ensures WithinBudget(c.limits, t, k) {
      if k < n { assert WithinBudget(c.limits, s, k); }
    }
    forall k | 0 <= k < |t.requests| ensures WellMatched(t.requests[k].messages) {
      if k < n { assert t.requests[k] == s.requests[k]; }
    }
  }

  lemma UsagesAppend(responses: seq<Response>, r: Response)
    ensures Usages(responses + [r]) == Usages(responses) + [r.usage]
  {
  }

  lemma AccountKeepsTokens(s: State, response: Response)
    requires TokensKept(s) && ValidUsage(response.usage)
    ensures TokensKept(Account(s, response))
  {
    UsagesAppend(s.responses, response);
    UsageNotNegative(response.usage);
    hide ValidUsage, Usages;
    var before := Usages(s.responses);
    var usages := before + [response.usage];
    assert usages[..|usages| - 1] == before;
  }

  lemma AccountKeeps(c: Config, s: State, response: Response)
    requires Kept(c, s) && ValidUsage(response.usage) && |s.requests| == |s.responses| + 1
    ensures Kept(c, Account(s, response))
  {
    AccountKeepsTokens(s, response);
    hide WellMatched, TotalBytes, TokensKept, ConsumedTokens, Usages, ValidUsage, AddUsage, Clamped;
    var t := Account(s, response);
    forall k | 0 <= k < |t.requests| ensures WithinBudget(c.limits, t, k) {
      assert WithinBudget(c.limits, s, k);
      assert t.responses[..k] == s.responses[..k];
    }
  }

  /** A batch waits for its tools: the transcript ends in the message that asks for them. */
  ghost predicate Waiting(c: Config, s: State, calls: seq<ToolCall>) {
    && Kept(c, s) && calls != [] && |s.responses| == |s.requests| && |s.results| == |s.executed|
    && (c.limits.tokenBudget.Some? ==> s.consumedTokens <= c.limits.tokenBudget.value)
    && |s.messages| > 0
    && var init, last := s.messages[..|s.messages| - 1], s.messages[|s.messages| - 1];
       WellMatched(init) && last.role.Assistant? && CallsIn(last.content) == calls
  }

  /** A result is a success exactly when it has an output and no failure, and then it is within budget. */
  ghost predicate Sound(c: Config, s: State, result: RunResult) {
    && (result.failure.None? <==> result.output.Some?)
    && (result.failure.None? ==> c.limits.tokenBudget.Some? ==> s.consumedTokens <= c.limits.tokenBudget.value)
    && (result.failure.None? ==> result.output.value != [])
    && result.usage == s.usage && result.turns == s.turns && result.toolCalls == s.toolCalls
  }

  lemma {:induction false} PlainTextNotEmpty(validJson: bytes -> bool, content: seq<ContentBlock>)
    requires content != [] && CallsIn(content) == []
    requires forall i :: 0 <= i < |content| ==> ValidBlock(validJson, content[i])
    ensures TextOf(content) != []
  {
    var n := |content| - 1;
    assert ValidBlock(validJson, content[n]);
    assert content[n].kind.Text? && !Blank(content[n].text);
    hide TrimSpace;
    NothingIsBlank();
  }

  lemma NothingIsBlank()
    ensures Blank([])
  {
  }

  ghost predicate TurnKept(c: Config, turn: Turn) {
    match turn
    case Paused(t) => Ready(c, t)
    case Batch(t, calls, _) => Waiting(c, t, calls)
    case Final(t, result) => Kept(c, t) && Sound(c, t, result) && result.failure.None?
    case Broken(t, result) => Kept(c, t) && Sound(c, t, result) && result.failure.Some?
  }

  lemma MessagesDoNotMatter(c: Config, s: State, messages: seq<Message>, requestId: bytes)
    requires Kept(c, s)
    ensures Kept(c, s.(messages := messages)) && Kept(c, s.(lastRequestId := requestId))
  {
    hide WellMatched, TotalBytes, ConsumedTokens, SummedUsage, AllValid, Usages;
    var t, u := s.(messages := messages), s.(lastRequestId := requestId);
    forall k | 0 <= k < |s.requests| ensures WithinBudget(c.limits, t, k) && WithinBudget(c.limits, u, k) {
      assert WithinBudget(c.limits, s, k);
    }
  }

  lemma AfterResponseKeeps(c: Config, env: Environment, s: State, response: Response)
    requires Kept(c, s) && WellMatched(s.messages) && ValidResponse(env.validJson, response)
    requires |s.responses| == |s.requests| && |s.results| == |s.executed|
    ensures TurnKept(c, AfterResponse(c, s, response))
  {
    hide Kept, WellMatched, CallsIn, TextOf, ValidBlock, ValidUsage, Answers, InPlace;
    var m := response.message;
    MessagesDoNotMatter(c, s, s.messages + [m], []);
    if CallsIn(m.content) == [] {
      MatchedAfterPlainMessage(s.messages, m);
      if response.stopReason.EndTurn? || response.stopReason.StopSequence? { FinalTextNotEmpty(env, response); }
    } else {
      assert (s.messages + [m])[..|s.messages|] == s.messages;
    }
  }

  lemma FinalTextNotEmpty(env: Environment, response: Response)
    requires ValidResponse(env.validJson, response) && CallsIn(response.message.content) == []
    requires response.stopReason.EndTurn? || response.stopReason.StopSequence?
    ensures TextOf(response.message.content) != []
  {
    hide CallsIn, TextOf, ValidBlock, ValidUsage;
    PlainTextNotEmpty(env.validJson, response.message.content);
  }

  lemma TurnKeeps(c: Config, env: Environment, s: State)
    requires Ready(c, s)
    ensures TurnKept(c, ProviderTurn(c, env, s))
  {
    if !Reached(c.limits.maxTurns, s.turns) {
      AskingKeeps(c, env, s);
      var asked := Asked(c, env, s);
      var reply := env.complete(s.turns, NextRequest(c, env, s));
      if reply.Ok? {
        MessagesDoNotMatter(c, asked, asked.messages, reply.value.requestId);
        var answered := asked.(lastRequestId := reply.value.requestId);
        if ValidResponse(env.validJson, reply.value) {
          AccountKeeps(c, answered, reply.value);
          AfterResponseKeeps(c, env, Account(answered, reply.value), reply.value);
        }
      }
    }
    hide RequestsKept, TokensKept, ToolsKept, WellMatched, AfterResponse, Account, ValidResponse, NormalizeError;
  }

  /* One tool batch */

  function Called(s: State, call: ToolCall): State {
    s.(toolCalls := s.toolCalls + 1, executed := s.executed + [call])
  }

  lemma CallingKeeps(c: Config, s: State, call: ToolCall)
    requires Kept(c, s) && |s.results| == |s.executed|
    requires c.limits.maxToolCalls.Some? ==> s.toolCalls + 1 <= c.limits.maxToolCalls.value
    ensures Kept(c, Called(s, call))
  {
    hide WellMatched, TokensKept, TotalBytes, ConsumedTokens, Usages;
    var t := Called(s, call);
    forall k | 0 <= k < |s.requests| ensures WithinBudget(c.limits, t, k) { assert WithinBudget(c.limits, s, k); }
    TokensUnchanged(s, t);
  }

  lemma TokensUnchanged(s: State, t: State)
    requires TokensKept(s) && t.responses == s.responses && t.usage == s.usage && t.consumedTokens == s.consumedTokens
    ensures TokensKept(t)
  {
  }

  lemma ReceivingKeepsTools(c: Config, s: State, result: ToolResult)
    requires ToolsKept(c, s) && |s.executed| == |s.results| + 1
    requires !Reached(c.limits.maxTotalToolOutputBytes, s.totalToolOutputBytes)
    requires result.callId == s.executed[|s.results|].id && result.name == s.executed[|s.results|].name
    ensures ToolsKept(c, Received(s, BoundedResult(c.limits, result, s.totalToolOutputBytes)))
  {
    hide BoundedResult;
    BoundedWithinLimits(c.limits, result, s.totalToolOutputBytes);
    var bounded := BoundedResult(c.limits, result, s.totalToolOutputBytes);
    assert (s.results + [bounded])[..|s.results|] == s.results;
  }

  lemma ReceivingKeeps(c: Config, s: State, result: ToolResult)
    requires Kept(c, s) && |s.executed| == |s.results| + 1
    requires !Reached(c.limits.maxTotalToolOutputBytes, s.totalToolOutputBytes)
    requires result.callId == s.executed[|s.results|].id && result.name == s.executed[|s.results|].name
    ensures Kept(c, Received(s, BoundedResult(c.limits, result, s.totalToolOutputBytes)))
  {
    ReceivingKeepsTools(c, s, result);
    hide WellMatched, TokensKept, ToolsKept, ConsumedTokens, Usages, BoundedResult, Reached;
    var t := Received(s, BoundedResult(c.limits, result, s.totalToolOutputBytes));
    forall k | 0 <= k < |s.requests| ensures WithinBudget(c.limits, t, k) { assert WithinBudget(c.limits, s, k); }
    TokensUnchanged(s, t);
  }

  ghost predicate BatchKept(c: Config, end: BatchEnd) {
    match end
    case Answered(t) => Ready(c, t)
    case Stopped(t, result) => Kept(c, t) && Sound(c, t, result) && result.failure.Some?
  }

  /** In the middle of a batch: the first `i` calls are answered. */
  ghost predicate Answering(c: Config, s: State, calls: seq<ToolCall>, i: nat, blocks: seq<ContentBlock>) {
    && Waiting(c, s, calls) && i <= |calls| && |blocks| == i
    && (forall j :: 0 <= j < i ==> AnswersCall(calls[j], blocks[j]))
    && (c.limits.maxToolCalls.Some? ==> s.toolCalls + |calls| - i <= c.limits.maxToolCalls.value)
  }

  lemma {:induction false} CallsKeep(c: Config, env: Environment, s: State, calls: seq<ToolCall>, i: nat,
                                     blocks: seq<ContentBlock>, requestId: bytes)
    requires Stamps(env) && Answering(c, s, calls, i, blocks)
    ensures BatchKept(c, ExecuteCalls(c, env, s, calls, i, blocks, requestId))
    decreases |calls| - i
  {
    hide Kept, WellMatched, CallsIn, BoundedResult, InPlace, Reached, NormalizeError, Stamps;
    if i == |calls| {
      AnsweredIsReady(c, s, calls, blocks);
    } else if !Reached(c.limits.maxTotalToolOutputBytes, s.totalToolOutputBytes) {
      CallKeeps(c, env, s, calls, i, blocks);
      var reply := env.execute(s.toolCalls, calls[i]);
      if reply.Ok? {
        var bounded := BoundedResult(c.limits, reply.value, s.totalToolOutputBytes);
        CallsKeep(c, env, Received(Called(s, calls[i]), bounded), calls, i + 1, blocks + [AnswerBlock(bounded)], requestId);
      }
    }
  }

  lemma AnsweredIsReady(c: Config, s: State, calls: seq<ToolCall>, blocks: seq<ContentBlock>)
    requires Answering(c, s, calls, |calls|, blocks)
    ensures Ready(c, s.(messages := s.messages + [Message(ToolRole, blocks)]))
  {
    hide Kept, WellMatched, CallsIn, InPlace, AnswersCall;
    var init, last := s.messages[..|s.messages| - 1], s.messages[|s.messages| - 1];
    var answers := Message(ToolRole, blocks);
    MatchedAfterBatch(init, last, answers);
    assert init + [last] == s.messages;
    MessagesDoNotMatter(c, s, s.messages + [answers], []);
  }

  lemma CallKeeps(c: Config, env: Environment, s: State, calls: seq<ToolCall>, i: nat, blocks: seq<ContentBlock>)
    requires Stamps(env) && Answering(c, s, calls, i, blocks) && i < |calls|
    requires !Reached(c.limits.maxTotalToolOutputBytes, s.totalToolOutputBytes)
    ensures Kept(c, Called(s, calls[i]))
    ensures var reply := env.execute(s.toolCalls, calls[i]);
            reply.Ok? ==>
              var bounded := BoundedResult(c.limits, reply.value, s.totalToolOutputBytes);
              Answering(c, Received(Called(s, calls[i]), bounded), calls, i + 1, blocks + [AnswerBlock(bounded)])
  {
    hide RequestsKept, TokensKept, ToolsKept, WellMatched, CallsIn, BoundedResult, InPlace;
    CountsOf(c, s);
    CallingKeeps(c, s, calls[i]);
    var reply := env.execute(s.toolCalls, calls[i]);
    if reply.Ok? {
      ReceivingKeeps(c, Called(s, calls[i]), reply.value);
      BoundedWithinLimits(c.limits, reply.value, s.totalToolOutputBytes);
    }
  }

  lemma CountsOf(c: Config, s: State)
    requires Kept(c, s)
    ensures s.toolCalls == |s.executed|
  {
  }

  lemma BatchKeeps(c: Config, env: Environment, s: State, calls: seq<ToolCall>, requestId: bytes)
    requires Stamps(env) && Waiting(c, s, calls)
    ensures BatchKept(c, ExecuteToolBatch(c, env, s, calls, requestId))
  {
    hide Kept, WellMatched, CallsIn, InPlace, Stamps, ExecuteCalls;
    var check := CheckBeforeToolBatch(c.limits, s.consumedTokens, s.turns, s.toolCalls, s.totalToolOutputBytes, |calls|);
    if check.None? { CallsKeep(c, env, s, calls, 0, [], requestId); }
  }

  /* Whole runs */

  lemma NewIsReady(c: Config)
    ensures Ready(c, NewState(c.goal))
  {
  }

  /** The state after `n` turns, or where the run ended before that; it is defined for runs that never end. */
  function AfterTurns(c: Config, env: Environment, s: State, n: nat): State
    decreases n
  {
    if n == 0 then s
    else
      match ProviderTurn(c, env, s)
      case Paused(t) => AfterTurns(c, env, t, n - 1)
      case Final(t, _) => t
      case Broken(t, _) => t
      case Batch(t, calls, requestId) =>
        match ExecuteToolBatch(c, env, t, calls, requestId)
        case Answered(u) => AfterTurns(c, env, u, n - 1)
        case Stopped(u, _) => u
  }

  /** A loop that ends does so in the state after as many turns. */
  lemma {:induction false} LoopEndsThere(c: Config, env: Environment, s: State, fuel: nat)
    ensures Loop(c, env, s, fuel).Some? ==> Loop(c, env, s, fuel).value.s == AfterTurns(c, env, s, fuel)
    decreases fuel
  {
    hide ProviderTurn, ExecuteToolBatch;
    if fuel > 0 {
      match ProviderTurn(c, env, s)
      case Paused(t) => LoopEndsThere(c, env, t, fuel - 1);
      case Batch(t, calls, requestId) =>
        var end := ExecuteToolBatch(c, env, t, calls, requestId);
        if end.Answered? { LoopEndsThere(c, env, end.s, fuel - 1); }
      case _ =>
    }
  }

  /** Everything is kept at every point of a run. */
  lemma {:induction false} TurnsKeep(c: Config, env: Environment, s: State, n: nat)
    requires Stamps(env) && Ready(c, s)
    ensures Kept(c, AfterTurns(c, env, s, n))
    decreases n
  {
    hide Kept, Waiting, Stamps, ProviderTurn, ExecuteToolBatch, Sound, WellMatched;
    if n > 0 {
      TurnKeeps(c, env, s);
      match ProviderTurn(c, env, s)
      case Paused(t) => TurnsKeep(c, env, t, n - 1);
      case Batch(t, calls, requestId) =>
        BatchKeeps(c, env, t, calls, requestId);
        var end := ExecuteToolBatch(c, env, t, calls, requestId);
        if end.Answered? { TurnsKeep(c, env, end.s, n - 1); }
      case _ =>
    }
  }

  /** The result of a run fits the state it ends in. */
  lemma {:induction false} LoopSound(c: Config, env: Environment, s: State, fuel: nat)
    requires Stamps(env) && Ready(c, s)
    ensures var end := Loop(c, env, s, fuel);
            end.Some? ==> Sound(c, end.value.s, end.value.result)
    decreases fuel
  {
    hide Kept, Ready, Waiting, Stamps, ProviderTurn, ExecuteToolBatch, Sound;
    if fuel > 0 {
      TurnKeeps(c, env, s);
      match ProviderTurn(c, env, s)
      case Paused(t) => LoopSound(c, env, t, fuel - 1);
      case Batch(t, calls, requestId) =>
        BatchKeeps(c, env, t, calls, requestId);
        var end := ExecuteToolBatch(c, env, t, calls, requestId);
        if end.Answered? { LoopSound(c, env, end.s, fuel - 1); }
      case _ =>
    }
  }

  /** Where a run ends everything is kept, and its result says so. */
  lemma LoopKeeps(c: Config, env: Environment, s: State, fuel: nat)
    requires Stamps(env) && Ready(c, s)
    ensures var end := Loop(c, env, s, fuel);
            end.Some? ==> Kept(c, end.value.s) && Sound(c, end.value.s, end.value.result)
  {
    hide *;
    LoopEndsThere(c, env, s, fuel);
    TurnsKeep(c, env, s, fuel);
    LoopSound(c, env, s, fuel);
  }

  /* The main results, for every environment whose tools stamp their results, after any number of turns */

  /**
   At every request that a run makes the transcript is well matched, the tokens consumed before it are
   within the budget, and what the provider may still produce is what is left of it.
   */
  lemma RequestsWellFormed(c: Config, env: Environment, n: nat, k: nat)
    requires Stamps(env) && k < |AfterTurns(c, env, NewState(c.goal), n).requests|
    ensures var s := AfterTurns(c, env, NewState(c.goal), n);
            && WellMatched(s.requests[k].messages)
            && k <= |s.responses| && AllValid(Usages(s.responses[..k]))
            && (c.limits.tokenBudget.Some? ==>
                  var consumed := Min(MAX_INT64, TrueTokens(Usages(s.responses[..k])));
                  && consumed <= Max(0, c.limits.tokenBudget.value)
                  && s.requests[k].maxTokens == Some(Max(1, c.limits.tokenBudget.value - consumed)))
  {
    hide *;
    NewIsReady(c);
    TurnsKeep(c, env, NewState(c.goal), n);
    RequestKept(c, AfterTurns(c, env, NewState(c.goal), n), k);
  }

  lemma RequestKept(c: Config, s: State, k: nat)
    requires Kept(c, s) && k < |s.requests|
    ensures WellMatched(s.requests[k].messages) && k <= |s.responses| && AllValid(Usages(s.responses[..k]))
    ensures c.limits.tokenBudget.Some? ==>
              var consumed := Min(MAX_INT64, TrueTokens(Usages(s.responses[..k])));
              && consumed <= Max(0, c.limits.tokenBudget.value)
              && s.requests[k].maxTokens == Some(Max(1, c.limits.tokenBudget.value - consumed))
  {
    hide WellMatched, ToolsKept, ConsumedTokens, TrueTokens, ValidUsage, SummedUsage;
    assert WithinBudget(c.limits, s, k);
    UsagesPrefix(s.responses, k);
    ConsumedIsTrueSum(Usages(s.responses[..k]));
    hide Usages;
  }

  lemma UsagesPrefix(responses: seq<Response>, k: nat)
    requires k <= |responses|
    ensures Usages(responses[..k]) == Usages(responses)[..k]
  {
  }

  /** The limits on turns, tool calls and tool output hold at every point of every run. */
  lemma LimitsHold(c: Config, env: Environment, n: nat)
    requires Stamps(env)
    ensures var s := AfterTurns(c, env, NewState(c.goal), n);
            && s.turns == |s.requests| && s.toolCalls == |s.executed| && |s.results| <= |s.executed|
            && (c.limits.maxTurns.Some? ==> |s.requests| <= Max(0, c.limits.maxTurns.value))
            && (c.limits.maxToolCalls.Some? ==> |s.executed| <= Max(0, c.limits.maxToolCalls.value))
            && (c.limits.maxToolResultBytes.Some? ==>
                  forall i :: 0 <= i < |s.results| ==>
                    |s.results[i].content| <= Max(0, c.limits.maxToolResultBytes.value))
            && (c.limits.maxTotalToolOutputBytes.Some? ==>
                  TotalBytes(s.results) <= Max(0, c.limits.maxTotalToolOutputBytes.value))
  {
    NewIsReady(c);
    TurnsKeep(c, env, NewState(c.goal), n);
    hide WellMatched, TokensKept, AfterTurns, TotalBytes, Sound, WithinBudget;
  }

  /**
   The tokens accounted are the true sum cut off at the largest int64; a success stays within a budget
   below that, and its summed usage is valid if reasoning is only reported along with output.
   */
  lemma TokensAccounted(c: Config, env: Environment, fuel: nat)
    requires Stamps(env) && Loop(c, env, NewState(c.goal), fuel).Some?
    ensures var end := Loop(c, env, NewState(c.goal), fuel).value;
            var usages := Usages(end.s.responses);
            && end.s.consumedTokens == Min(MAX_INT64, TrueTokens(usages))
            && (end.result.failure.None? && c.limits.tokenBudget.Some? && c.limits.tokenBudget.value < MAX_INT64 ==>
                  TrueTokens(usages) <= c.limits.tokenBudget.value)
            && end.result.usage == SummedUsage(usages)
            && (ReasoningWithOutput(usages) && end.result.usage.reasoning.Some? ==>
                  && end.result.usage.output.Some?
                  && end.result.usage.reasoning.value <= end.result.usage.output.value)
  {
    NewIsReady(c);
    LoopKeeps(c, env, NewState(c.goal), fuel);
    hide WellMatched, RequestsKept, ToolsKept, Loop, ConsumedTokens, TrueTokens, SummedUsage, ValidUsage, Usages,
         ReasoningWithOutput;
    var usages := Usages(Loop(c, env, NewState(c.goal), fuel).value.s.responses);
    ConsumedIsTrueSum(usages);
    if ReasoningWithOutput(usages) { SummedReasoningWithinOutput(usages); }
  }

  /** A run succeeds with a non-empty output or fails; closing the tools only ever adds a failure. */
  lemma ResultIsDecided(c: Config, env: Environment, fuel: nat)
    requires Stamps(env) && Run(c, env, fuel).Some?
    ensures var r := Run(c, env, fuel).value;
            var end := Loop(c, env, NewState(c.goal), fuel).value;
            && (r.failure.None? ==> r.output.Some? && r.output.value != [] && env.closes)
            && (end.result.failure.Some? ==> r == end.result)
            && (end.result.failure.None? ==>
                  && r.output == end.result.output
                  && r.failure == (if env.closes then None else Some(ToolCleanupFailed)))
  {
    NewIsReady(c);
    LoopKeeps(c, env, NewState(c.goal), fuel);
    hide Kept, Loop;
  }

  /* Termination */

  lemma {:induction false} TurnAdvances(c: Config, env: Environment, s: State)
    ensures match ProviderTurn(c, env, s)
            case Paused(t) => t.turns == s.turns + 1 && |t.requests| == |s.requests| + 1
            case Batch(t, _, _) => t.turns == s.turns + 1 && |t.requests| == |s.requests| + 1
            case _ => true
  {
    hide ValidResponse, CallsIn, TextOf;
  }

  lemma {:induction false} CallsKeepTurns(c: Config, env: Environment, s: State, calls: seq<ToolCall>, i: nat,
                                          blocks: seq<ContentBlock>, requestId: bytes)
    requires i <= |calls|
    ensures var t := ExecuteCalls(c, env, s, calls, i, blocks, requestId).s;
            t.turns == s.turns && t.requests == s.requests && t.responses == s.responses
    decreases |calls| - i
  {
    hide BoundedResult, NormalizeError, Reached;
    if i < |calls| {
      var reply := env.execute(s.toolCalls, calls[i]);
      if reply.Ok? {
        var bounded := BoundedResult(c.limits, reply.value, s.totalToolOutputBytes);
        CallsKeepTurns(c, env, Received(Called(s, calls[i]), bounded), calls, i + 1, blocks + [AnswerBlock(bounded)], requestId);
      }
    }
  }

  /** With a turn limit the loop ends within the turns that are left, whatever the environment does. */
  lemma {:induction false} TurnLimitEndsLoop(c: Config, env: Environment, s: State, fuel: nat)
    requires c.limits.maxTurns.Some? && fuel > Max(0, c.limits.maxTurns.value - s.turns)
    ensures Loop(c, env, s, fuel).Some?
    decreases fuel
  {
    hide ProviderTurn, ExecuteCalls;
    TurnAdvances(c, env, s);
    if s.turns >= c.limits.maxTurns.value { LimitBreaks(c, env, s); }
    match ProviderTurn(c, env, s)
    case Paused(t) => TurnLimitEndsLoop(c, env, t, fuel - 1);
    case Batch(t, calls, requestId) =>
      CallsKeepTurns(c, env, t, calls, 0, [], requestId);
      var end := ExecuteToolBatch(c, env, t, calls, requestId);
      if end.Answered? { TurnLimitEndsLoop(c, env, end.s, fuel - 1); }
    case _ =>
  }

  lemma LimitBreaks(c: Config, env: Environment, s: State)
    requires c.limits.maxTurns.Some? && s.turns >= c.limits.maxTurns.value
    ensures ProviderTurn(c, env, s).Broken?
  {
  }

  /** More fuel changes nothing once the loop has ended: the run does not depend on it. */
  lemma {:induction false} FuelIrrelevant(c: Config, env: Environment, s: State, fuel: nat, more: nat)
    requires fuel <= more && Loop(c, env, s, fuel).Some?
    ensures Loop(c, env, s, more) == Loop(c, env, s, fuel)
    decreases fuel
  {
    hide ProviderTurn, ExecuteToolBatch;
    match ProviderTurn(c, env, s)
    case Paused(t) => FuelIrrelevant(c, env, t, fuel - 1, more - 1);
    case Batch(t, calls, requestId) =>
      var end := ExecuteToolBatch(c, env, t, calls, requestId);
      if end.Answered? { FuelIrrelevant(c, env, end.s, fuel - 1, more - 1); }
    case _ =>
  }

  /** Without one it ends when the context does: from some request on the provider only reports errors. */
  lemma {:induction false} DeadlineEndsLoop(c: Config, env: Environment, s: State, deadline: nat, fuel: nat)
    requires forall n, request :: n >= deadline ==> env.complete(n, request).Err?
    requires fuel > Max(0, deadline - s.turns)
    ensures Loop(c, env, s, fuel).Some?
    decreases fuel
  {
    hide ProviderTurn, ExecuteCalls;
    TurnAdvances(c, env, s);
    if s.turns >= deadline { ErrorBreaks(c, env, s, deadline); }
    match ProviderTurn(c, env, s)
    case Paused(t) => DeadlineEndsLoop(c, env, t, deadline, fuel - 1);
    case Batch(t, calls, requestId) =>
      CallsKeepTurns(c, env, t, calls, 0, [], requestId);
      var end := ExecuteToolBatch(c, env, t, calls, requestId);
      if end.Answered? { DeadlineEndsLoop(c, env, end.s, deadline, fuel - 1); }
    case _ =>
  }

  lemma ErrorBreaks(c: Config, env: Environment, s: State, deadline: nat)
    requires forall n, request :: n >= deadline ==> env.complete(n, request).Err?
    requires s.turns >= deadline
    ensures ProviderTurn(c, env, s).Broken?
  {
    hide NormalizeError;
  }

  /* The conversation grows by what was said, and by nothing else */

  /** After the response `m` to a request with messages `a`, the next request has messages `b`. */
  ghost predicate Follows(a: seq<Message>, m: Message, b: seq<Message>) {
    if CallsIn(m.content) == [] then b == a + [m]
    else |b| == |a| + 2 && b[..|a| + 1] == a + [m]
  }

  ghost predicate Linked(c: Config, s: State) {
    && |s.requests| <= |s.responses| + 1
    && (s.requests != [] ==> s.requests[0].messages == [GoalMessage(c.goal)])
    && (forall k :: 0 < k < |s.requests| ==>
          Follows(s.requests[k - 1].messages, s.responses[k - 1].message, s.requests[k].messages))
  }

  /** What the next request will say. */
  ghost predicate Grown(c: Config, s: State) {
    && Linked(c, s) && |s.responses| == |s.requests|
    && (if s.requests == [] then s.messages == [GoalMessage(c.goal)]
        else Follows(s.requests[|s.requests| - 1].messages, s.responses[|s.responses| - 1].message, s.messages))
  }

  /** A batch has been asked for but not answered. */
  ghost predicate Halfway(c: Config, s: State) {
    && Linked(c, s) && |s.responses| == |s.requests| > 0
    && var m := s.responses[|s.responses| - 1].message;
       CallsIn(m.content) != [] && s.messages == s.requests[|s.requests| - 1].messages + [m]
  }

  lemma TurnLinks(c: Config, env: Environment, s: State)
    requires Grown(c, s)
    ensures match ProviderTurn(c, env, s)
            case Paused(t) => Grown(c, t)
            case Batch(t, _, _) => Halfway(c, t)
            case Final(t, _) => Linked(c, t)
            case Broken(t, _) => Linked(c, t)
  {
    hide ValidResponse, CallsIn, TextOf, NormalizeError, GoalMessage, Clamped, Follows;
    FollowsPlain();
    var request := NextRequest(c, env, s);
    if s.requests != [] { assert (s.requests + [request])[|s.requests|] == request; }
  }

  lemma FollowsPlain()
    ensures forall a: seq<Message>, m: Message :: CallsIn(m.content) == [] ==> Follows(a, m, a + [m])
  {
    hide CallsIn;
  }

  lemma {:induction false} CallsGrow(c: Config, env: Environment, s: State, calls: seq<ToolCall>, i: nat,
                                     blocks: seq<ContentBlock>, requestId: bytes)
    requires i <= |calls|
    ensures match ExecuteCalls(c, env, s, calls, i, blocks, requestId)
            case Answered(t) => |t.messages| == |s.messages| + 1 && t.messages[..|s.messages|] == s.messages
            case Stopped(t, _) => true
    decreases |calls| - i
  {
    hide BoundedResult, NormalizeError, Reached;
    if i < |calls| {
      var reply := env.execute(s.toolCalls, calls[i]);
      if reply.Ok? {
        var bounded := BoundedResult(c.limits, reply.value, s.totalToolOutputBytes);
        CallsGrow(c, env, Received(Called(s, calls[i]), bounded), calls, i + 1, blocks + [AnswerBlock(bounded)], requestId);
      }
    }
  }

  /** Each request repeats the one before it, the response to that, and the answers it asked for. */
  lemma ConversationLinked(c: Config, env: Environment, n: nat)
    ensures Linked(c, AfterTurns(c, env, NewState(c.goal), n))
  {
    TurnsLink(c, env, NewState(c.goal), n);
    hide AfterTurns, Linked;
  }

  lemma {:induction false} TurnsLink(c: Config, env: Environment, s: State, n: nat)
    requires Grown(c, s)
    ensures Linked(c, AfterTurns(c, env, s, n))
    decreases n
  {
    hide ProviderTurn, ExecuteCalls, CallsIn, GoalMessage;
    if n > 0 {
      TurnLinks(c, env, s);
      match ProviderTurn(c, env, s)
      case Paused(t) => TurnsLink(c, env, t, n - 1);
      case Batch(t, calls, requestId) =>
        CallsKeepTurns(c, env, t, calls, 0, [], requestId);
        CallsGrow(c, env, t, calls, 0, [], requestId);
        var end := ExecuteToolBatch(c, env, t, calls, requestId);
        if end.Answered? { TurnsLink(c, env, end.s, n - 1); }
      case _ =>
    }
  }
}
