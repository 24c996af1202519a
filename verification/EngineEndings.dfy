/**
 Why a run of the engine ends as it does, and what it says: the output of a success, and the cause of every
 failure, in terms of what the provider and the tools answered.
 */
module EngineEndings {
  import opened Prelude
  import opened Decimal
  import opened Bytes
  import opened RuntimeApi
  import opened EngineLimits
  import opened EngineLoop
  import opened EngineRuns

  /* The blocks of a message */

  /** The positions, in order, of all the blocks that `keep` selects. */
  ghost predicate Selects(content: seq<ContentBlock>, keep: ContentBlock -> bool, at: seq<nat>) {
    && (forall i :: 0 <= i < |at| ==> at[i] < |content| && keep(content[at[i]]))
    && (forall i, j :: 0 <= i < j < |at| ==> at[i] < at[j])
    && (forall k: nat :: k < |content| && keep(content[k]) ==> k in at)
  }

  /** The selected blocks. */
  function Pick(content: seq<ContentBlock>, at: seq<nat>): seq<ContentBlock>
    requires forall i :: 0 <= i < |at| ==> at[i] < |content|
  {
    seq(|at|, i requires 0 <= i < |at| => content[at[i]])
  }

  /** Those that `keep` selects of one block more. */
  function Next(content: seq<ContentBlock>, keep: ContentBlock -> bool, at: seq<nat>): seq<nat> {
    var n := |content| - 1;
    if n >= 0 && keep(content[n]) then at + [n] else at
  }

  lemma SelectsNext(content: seq<ContentBlock>, keep: ContentBlock -> bool, at: seq<nat>)
    requires content != [] && Selects(content[..|content| - 1], keep, at)
    ensures var n := |content| - 1;
            var at' := Next(content, keep, at);
            && Selects(content, keep, at') && (forall i :: 0 <= i < |at'| ==> at'[i] < |content|)
            && (forall i :: 0 <= i < |at| ==> at[i] < n)
            && Pick(content, at') == Pick(content[..n], at) + if keep(content[n]) then [content[n]] else []
  {
    var n := |content| - 1;
    var init, at' := content[..n], Next(content, keep, at);
    forall k: nat | k < |content| && keep(content[k]) ensures k in at' {
      if k < n { assert keep(init[k]); }
    }
  }

  predicate IsText(b: ContentBlock) { b.kind.Text? && !Blank(b.text) }

  predicate IsCall(b: ContentBlock) { b.kind.Call? && b.call.Some? }

  predicate IsAnswer(b: ContentBlock) { b.kind.Answer? && b.answer.Some? }

  predicate CallsOf(blocks: seq<ContentBlock>, calls: seq<ToolCall>) {
    |blocks| == |calls| && forall i :: 0 <= i < |calls| ==> blocks[i].call == Some(calls[i])
  }

  predicate AnswersOf(blocks: seq<ContentBlock>, answers: seq<ToolResult>) {
    |blocks| == |answers| && forall i :: 0 <= i < |answers| ==> blocks[i].answer == Some(answers[i])
  }

  /** The calls of a message are those of its call blocks, all of them and in order. */
  lemma {:induction false} CallsInOrder(content: seq<ContentBlock>) returns (at: seq<nat>)
    ensures Selects(content, IsCall, at) && (forall i :: 0 <= i < |at| ==> at[i] < |content|)
    ensures CallsOf(Pick(content, at), CallsIn(content))
  {
    at := [];
    if content != [] {
      at := CallsInOrder(content[..|content| - 1]);
      SelectsNext(content, IsCall, at);
      at := Next(content, IsCall, at);
    }
    hide Selects, Pick, Next;
  }

  lemma {:induction false} AnswersInOrder(content: seq<ContentBlock>) returns (at: seq<nat>)
    ensures Selects(content, IsAnswer, at) && (forall i :: 0 <= i < |at| ==> at[i] < |content|)
    ensures AnswersOf(Pick(content, at), AnswersIn(content))
  {
    at := [];
    if content != [] {
      at := AnswersInOrder(content[..|content| - 1]);
      SelectsNext(content, IsAnswer, at);
      at := Next(content, IsAnswer, at);
    }
    hide Selects, Pick, Next;
  }

  /** Where the i-th text starts when a newline stands between every two. */
  function Offset(blocks: seq<ContentBlock>, i: nat): nat
    requires i <= |blocks|
  {
    if i == 0 then 0 else Offset(blocks, i - 1) + |blocks[i - 1].text| + 1
  }

  /** The i-th text is in its place, and a newline in front of it if it is not the first. */
  predicate InItsPlace(blocks: seq<ContentBlock>, i: nat, out: bytes)
    requires i < |blocks|
  {
    var start := Offset(blocks, i);
    && start + |blocks[i].text| <= |out| && out[start..start + |blocks[i].text|] == blocks[i].text
    && (i > 0 ==> start > 0 && out[start - 1] == NEWLINE)
  }

  /** `out` is the texts with a newline between every two, and nothing else. */
  ghost predicate IsJoined(blocks: seq<ContentBlock>, out: bytes) {
    && (if blocks == [] then out == [] else |out| + 1 == Offset(blocks, |blocks|))
    && forall i :: 0 <= i < |blocks| ==> InItsPlace(blocks, i, out)
  }

  lemma {:induction false} OffsetPrefix(blocks: seq<ContentBlock>, b: ContentBlock, i: nat)
    requires i <= |blocks|
    ensures Offset(blocks + [b], i) == Offset(blocks, i)
  {
    if i > 0 { OffsetPrefix(blocks, b, i - 1); }
  }

  lemma PlaceKept(blocks: seq<ContentBlock>, b: ContentBlock, i: nat, out: bytes, more: bytes)
    requires i < |blocks| && InItsPlace(blocks, i, out)
    ensures InItsPlace(blocks + [b], i, out + more)
  {
    OffsetPrefix(blocks, b, i);
    hide Offset;
    var start, end := Offset(blocks, i), Offset(blocks, i) + |blocks[i].text|;
    assert (out + more)[start..end] == out[start..end];
  }

  lemma JoinsNext(blocks: seq<ContentBlock>, out: bytes, b: ContentBlock)
    requires IsJoined(blocks, out)
    ensures IsJoined(blocks + [b], if blocks == [] then b.text else out + [NEWLINE] + b.text)
  {
    var all, n := blocks + [b], |blocks|;
    var longer := if blocks == [] then b.text else out + [NEWLINE] + b.text;
    OffsetPrefix(blocks, b, n);
    LastPlace(all, n, if n == 0 then [] else out + [NEWLINE]);
    forall i | 0 <= i < n ensures InItsPlace(all, i, longer) {
      PlaceKept(blocks, b, i, out, [NEWLINE] + b.text);
      assert out + ([NEWLINE] + b.text) == longer;
    }
    hide InItsPlace;
  }

  lemma LastPlace(all: seq<ContentBlock>, n: nat, before: bytes)
    requires |all| == n + 1 && Offset(all, n) == |before| && (n > 0 ==> before != [] && before[|before| - 1] == NEWLINE)
    ensures InItsPlace(all, n, before + all[n].text)
  {
    hide Offset;
  }

  /** The text of a message: its non-blank texts, all of them and in order, with newlines between. */
  ghost predicate Says(content: seq<ContentBlock>, out: bytes) {
    exists at :: SaysAt(content, at, out)
  }

  ghost predicate SaysAt(content: seq<ContentBlock>, at: seq<nat>, out: bytes) {
    Selects(content, IsText, at) && (forall i :: 0 <= i < |at| ==> at[i] < |content|) && IsJoined(Pick(content, at), out)
  }

  lemma {:induction false} TextIsJoined(content: seq<ContentBlock>) returns (at: seq<nat>)
    ensures SaysAt(content, at, TextOf(content)) && (at == [] <==> TextOf(content) == [])
  {
    hide Blank, IsJoined, Selects, Pick;
    at := [];
    if content == [] {
      NothingSaid();
    } else {
      var n := |content| - 1;
      at := TextIsJoined(content[..n]);
      SelectsNext(content, IsText, at);
      if IsText(content[n]) {
        NothingIsBlank();
        PickedNone(content[..n], at);
        JoinsNext(Pick(content[..n], at), TextOf(content[..n]), content[n]);
      } else {
        assert Pick(content[..n], at) + [] == Pick(content[..n], at);
      }
      at := Next(content, IsText, at);
    }
  }

  lemma NothingSaid()
    ensures SaysAt([], [], [])
  {
  }

  lemma PickedNone(content: seq<ContentBlock>, at: seq<nat>)
    requires forall i :: 0 <= i < |at| ==> at[i] < |content|
    ensures Pick(content, at) == [] <==> at == []
  {
  }

  /* The last turn of a run */

  /** The run of which `u` is the last state to ask the provider ends in `end`. */
  predicate EndsAt(c: Config, env: Environment, u: State, end: Ending) {
    match ProviderTurn(c, env, u)
    case Paused(_) => false
    case Final(t, result) => end == Ending(t, result)
    case Broken(t, result) => end == Ending(t, result)
    case Batch(t, calls, requestId) => ExecuteToolBatch(c, env, t, calls, requestId) == Stopped(end.s, end.result)
  }

  /** The last request id is that of the last response. */
  predicate Tracks(s: State) {
    s.lastRequestId == if s.responses == [] then [] else s.responses[|s.responses| - 1].requestId
  }

  lemma TurnTracks(c: Config, env: Environment, s: State)
    requires Tracks(s)
    ensures match ProviderTurn(c, env, s)
            case Paused(t) => Tracks(t)
            case Batch(t, _, _) => Tracks(t)
            case _ => true
  {
    hide ValidResponse, CallsIn, TextOf, NormalizeError, AddUsage, Clamped;
  }

  lemma {:induction false} BatchTracks(c: Config, env: Environment, s: State, calls: seq<ToolCall>, i: nat,
                                       blocks: seq<ContentBlock>, requestId: bytes)
    requires i <= |calls|
    ensures ExecuteCalls(c, env, s, calls, i, blocks, requestId).s.lastRequestId == s.lastRequestId
    ensures ExecuteCalls(c, env, s, calls, i, blocks, requestId).s.responses == s.responses
    decreases |calls| - i
  {
    hide BoundedResult, NormalizeError, Reached;
    if i < |calls| {
      var reply := env.execute(s.toolCalls, calls[i]);
      if reply.Ok? {
        var bounded := BoundedResult(c.limits, reply.value, s.totalToolOutputBytes);
        BatchTracks(c, env, Received(EngineRuns.Called(s, calls[i]), bounded), calls, i + 1, blocks + [AnswerBlock(bounded)], requestId);
      }
    }
  }

  lemma {:induction false} LastTurn(c: Config, env: Environment, s: State, fuel: nat) returns (u: State)
    requires Stamps(env) && Ready(c, s) && Tracks(s) && Loop(c, env, s, fuel).Some?
    ensures Ready(c, u) && Tracks(u) && EndsAt(c, env, u, Loop(c, env, s, fuel).value)
    decreases fuel
  {
    hide Ready, Stamps, ProviderTurn, ExecuteCalls, Waiting, Sound, Kept;
    TurnKeeps(c, env, s);
    TurnTracks(c, env, s);
    u := s;
    match ProviderTurn(c, env, s)
    case Paused(t) => u := LastTurn(c, env, t, fuel - 1);
    case Batch(t, calls, requestId) =>
      BatchKeeps(c, env, t, calls, requestId);
      BatchTracks(c, env, t, calls, 0, [], requestId);
      var end := ExecuteToolBatch(c, env, t, calls, requestId);
      if end.Answered? { u := LastTurn(c, env, end.s, fuel - 1); }
    case _ =>
  }

  /* Causes */

  predicate NoCallBlocks(content: seq<ContentBlock>) { forall k :: 0 <= k < |content| ==> !IsCall(content[k]) }

  lemma NoCallsIff(content: seq<ContentBlock>)
    ensures CallsIn(content) == [] <==> NoCallBlocks(content)
  {
    var at := CallsInOrder(content);
    if at == [] {
      forall k: nat | k < |content| ensures !IsCall(content[k]) { assert k !in at; }
    } else {
      assert IsCall(content[at[0]]);
    }
    hide CallsIn;
  }

  /** Every request has been answered by an accepted response; this is the last of them. */
  predicate LastAnswered(s: State, response: Response) {
    0 < |s.requests| == |s.responses| && response == s.responses[|s.responses| - 1]
  }

  /** The last response asks for no tool and stops for this reason. */
  predicate StopsFor(s: State, response: Response, reasons: set<StopReason>) {
    LastAnswered(s, response) && NoCallBlocks(response.message.content) && response.stopReason in reasons
  }

  /** The number of tool calls that the last response asks for. */
  ghost predicate Wants(response: Response, n: nat) {
    exists at :: Selects(response.message.content, IsCall, at) && |at| == n
  }

  /** The configured limit that the run has reached. */
  ghost predicate LimitHit(c: Config, s: State, v: Violation) {
    match v
    case TurnLimit => c.limits.maxTurns.Some? && |s.requests| >= c.limits.maxTurns.value
    case TokenLimit => c.limits.tokenBudget.Some? && s.consumedTokens >= c.limits.tokenBudget.value
    case ToolCallLimit =>
      c.limits.maxToolCalls.Some? && exists response, n: nat :: LastAnswered(s, response) && Wants(response, n)
                                       && |s.executed| + n > c.limits.maxToolCalls.value
    case ToolOutputLimit =>
      c.limits.maxTotalToolOutputBytes.Some? && TotalBytes(s.results) >= c.limits.maxTotalToolOutputBytes.value
  }

  /** The provider failed to answer the last request, or a tool the last call. */
  predicate Reported(env: Environment, s: State, fault: Fault) {
    || (|s.requests| == |s.responses| + 1
        && env.complete(|s.requests| - 1, s.requests[|s.requests| - 1]) == Err(fault))
    || (|s.executed| == |s.results| + 1 && |s.requests| == |s.responses|
        && env.execute(|s.executed| - 1, s.executed[|s.executed| - 1]) == Err(fault))
  }

  /** The deadline comes before a cancellation, and both before what the error itself says. */
  predicate Classifies(fault: Fault, code: Code) {
    var late := fault.context.PastDeadline? || fault.error.DeadlineError?;
    var cancelled := fault.context.WasCancelled? || fault.error.CancelError?;
    && (code.DeadlineExceeded? <==> late)
    && (code.Cancelled? <==> cancelled && !late)
    && (!late && !cancelled ==>
          match fault.error
          case ProviderError(providerCode, _) => code == ProviderCode(providerCode)
          case ConfigurationError(own) => if own == [] then code.InvalidProviderConfiguration? else code == ConfigurationCode(own)
          case _ => code.ProviderFailed?)
  }

  /** The last response breaks the rules, or stops in a way that does not fit what it asks for. */
  predicate BadResponse(env: Environment, s: State) {
    || (|s.requests| == |s.responses| + 1
        && var reply := env.complete(|s.requests| - 1, s.requests[|s.requests| - 1]);
           reply.Ok? && !ValidResponse(env.validJson, reply.value))
    || (0 < |s.requests| == |s.responses|
        && var response := s.responses[|s.responses| - 1];
           NoCallBlocks(response.message.content) == response.stopReason.ToolUse?)
  }

  /** What a result says, and why it fails, by what was asked and answered. */
  ghost predicate Explained(c: Config, env: Environment, s: State, r: RunResult) {
    match r.failure
    case None =>
      exists response ::
        && StopsFor(s, response, {EndTurn, StopSequence}) && r.requestId == response.requestId
        && r.output.Some? && Says(response.message.content, r.output.value)
    case Some(code) =>
      r.output.None? &&
      match code
      case Limit(v) => LimitHit(c, s, v)
      case MaxTokensReached => exists response :: StopsFor(s, response, {MaxTokens})
      case ContentFiltered => exists response :: StopsFor(s, response, {ContentFilter})
      case ProviderRefusal => exists response :: StopsFor(s, response, {StopReason.Refusal})
      case ContextWindowExhausted => exists response :: StopsFor(s, response, {ContextWindowExceeded})
      case InvalidProviderResponse => BadResponse(env, s)
      case ToolCleanupFailed => false
      case _ => exists fault :: Reported(env, s, fault) && Classifies(fault, code)
  }

  lemma FaultExplained(fault: Fault)
    ensures Classifies(fault, NormalizeError(fault).0)
    ensures var code := NormalizeError(fault).0;
            !code.Limit? && !code.MaxTokensReached? && !code.ContentFiltered? && !code.ProviderRefusal?
            && !code.ContextWindowExhausted? && !code.InvalidProviderResponse? && !code.ToolCleanupFailed?
  {
  }

  /** The end of a turn that reached no answer, or whose answer ends the run. */
  lemma TurnExplained(c: Config, env: Environment, u: State)
    requires Ready(c, u) && Tracks(u)
    ensures match ProviderTurn(c, env, u)
            case Final(t, r) => Explained(c, env, t, r)
            case Broken(t, r) => Explained(c, env, t, r)
            case _ => true
  {
    hide Ready, ValidResponse, AfterResponse, Account, NormalizeError, Classifies, Tracks, Explained;
    var facts := ReadyCounts(c, u);
    if Reached(c.limits.maxTurns, u.turns) {
      TurnLimitExplained(c, env, u);
    } else {
      var request := NextRequest(c, env, u);
      var asked := u.(turns := u.turns + 1, requests := u.requests + [request]);
      match env.complete(u.turns, request)
      case Err(fault) => ProviderFaultExplained(c, env, asked, fault);
      case Ok(response) =>
        var answered := asked.(lastRequestId := response.requestId);
        if ValidResponse(env.validJson, response) {
          ValidUsageIn(env.validJson, response);
          AccountAnswers(answered, response);
          ResponseExplained(c, env, Account(answered, response), response);
        } else {
          InvalidExplained(c, env, answered, response);
        }
    }
  }

  lemma TurnLimitExplained(c: Config, env: Environment, u: State)
    requires Reached(c.limits.maxTurns, u.turns) && |u.requests| == u.turns
    ensures Explained(c, env, u, Fail(u, Limit(TurnLimit), u.lastRequestId))
  {
  }

  lemma ProviderFaultExplained(c: Config, env: Environment, s: State, fault: Fault)
    requires |s.requests| == |s.responses| + 1
    requires env.complete(|s.requests| - 1, s.requests[|s.requests| - 1]) == Err(fault)
    ensures Explained(c, env, s, Fail(s, NormalizeError(fault).0, NormalizeError(fault).1))
  {
    hide NormalizeError, Classifies;
    FaultExplained(fault);
    assert Reported(env, s, fault);
  }

  lemma InvalidExplained(c: Config, env: Environment, s: State, response: Response)
    requires |s.requests| == |s.responses| + 1
    requires env.complete(|s.requests| - 1, s.requests[|s.requests| - 1]) == Ok(response)
    requires !ValidResponse(env.validJson, response)
    ensures Explained(c, env, s, Fail(s, InvalidProviderResponse, response.requestId))
  {
    hide ValidResponse;
  }

  lemma ReadyCounts(c: Config, u: State) returns (ok: bool)
    requires Ready(c, u)
    ensures |u.responses| == |u.requests| == u.turns && |u.results| == |u.executed| == u.toolCalls
    ensures u.totalToolOutputBytes == TotalBytes(u.results)
  {
    ok := true;
  }

  lemma ResponseExplained(c: Config, env: Environment, s: State, response: Response)
    requires LastAnswered(s, response) && ValidResponse(env.validJson, response)
    ensures match AfterResponse(c, s, response)
            case Final(t, r) => Explained(c, env, t, r)
            case Broken(t, r) => Explained(c, env, t, r)
            case _ => true
  {
    hide TextOf, CallsIn, NoCallBlocks, ValidBlock, ValidUsage, Explained;
    NoCallsIff(response.message.content);
    var told := s.(messages := s.messages + [response.message]);
    if c.limits.tokenBudget.Some? && s.consumedTokens > c.limits.tokenBudget.value {
      BudgetExplained(c, env, s, response.requestId);
    } else if CallsIn(response.message.content) != [] {
      if !response.stopReason.ToolUse? { BadExplained(c, env, told, response); }
    } else if response.stopReason.EndTurn? || response.stopReason.StopSequence? {
      SuccessExplained(c, env, told, response);
    } else if !response.stopReason.PauseTurn? {
      StopExplained(c, env, told, response);
    }
  }

  lemma BudgetExplained(c: Config, env: Environment, s: State, requestId: bytes)
    requires c.limits.tokenBudget.Some? && s.consumedTokens > c.limits.tokenBudget.value
    ensures Explained(c, env, s, Fail(s, Limit(TokenLimit), requestId))
  {
  }

  lemma BadExplained(c: Config, env: Environment, s: State, response: Response)
    requires LastAnswered(s, response) && NoCallBlocks(response.message.content) == response.stopReason.ToolUse?
    ensures Explained(c, env, s, Fail(s, InvalidProviderResponse, response.requestId))
  {
    hide NoCallBlocks, ValidResponse;
  }

  lemma SuccessExplained(c: Config, env: Environment, s: State, response: Response)
    requires LastAnswered(s, response) && NoCallBlocks(response.message.content)
    requires response.stopReason.EndTurn? || response.stopReason.StopSequence?
    ensures Explained(c, env, s, Succeed(s, response.message, response.requestId))
  {
    hide NoCallBlocks, TextOf, SaysAt;
    var at := TextIsJoined(response.message.content);
    assert StopsFor(s, response, {EndTurn, StopSequence});
    assert Says(response.message.content, TextOf(response.message.content));
  }

  lemma StopExplained(c: Config, env: Environment, s: State, response: Response)
    requires LastAnswered(s, response) && NoCallBlocks(response.message.content) && !response.stopReason.UnknownReason?
    requires response.stopReason !in {EndTurn, StopSequence, PauseTurn}
    ensures Explained(c, env, s, Fail(s, TerminalStopFailure(response.stopReason), response.requestId))
  {
    hide NoCallBlocks, ValidResponse;
    assert StopsFor(s, response, {response.stopReason});
  }

  /* Tool batches */

  lemma BatchExplained(c: Config, env: Environment, s: State, calls: seq<ToolCall>, requestId: bytes, response: Response)
    requires Waiting(c, s, calls) && LastAnswered(s, response) && calls == CallsIn(response.message.content)
    ensures var end := ExecuteToolBatch(c, env, s, calls, requestId);
            end.Stopped? ==> Explained(c, env, end.s, end.result)
  {
    hide Explained, ExecuteCalls, Waiting, Kept;
    WaitingCounts(c, s, calls);
    var check := CheckBeforeToolBatch(c.limits, s.consumedTokens, s.turns, s.toolCalls, s.totalToolOutputBytes, |calls|);
    if check.Some? {
      CheckExplained(c, env, s, calls, requestId, response, check.value);
    } else {
      CallsExplained(c, env, s, calls, 0, [], requestId);
    }
  }

  lemma WaitingCounts(c: Config, s: State, calls: seq<ToolCall>)
    requires Waiting(c, s, calls)
    ensures |s.requests| == s.turns && |s.requests| == |s.responses| && |s.results| == |s.executed| == s.toolCalls
    ensures s.totalToolOutputBytes == TotalBytes(s.results)
  {
  }

  lemma CheckExplained(c: Config, env: Environment, s: State, calls: seq<ToolCall>, requestId: bytes, response: Response,
                       v: Violation)
    requires |s.requests| == s.turns && |s.executed| == s.toolCalls && s.totalToolOutputBytes == TotalBytes(s.results)
    requires LastAnswered(s, response) && calls == CallsIn(response.message.content)
    requires CheckBeforeToolBatch(c.limits, s.consumedTokens, s.turns, s.toolCalls, s.totalToolOutputBytes, |calls|) == Some(v)
    ensures Explained(c, env, s, Fail(s, Limit(v), requestId))
  {
    hide CallsIn, Selects, TotalBytes;
    var at := CallsInOrder(response.message.content);
    assert Wants(response, |calls|);
  }

  /** In the middle of a batch, all of the calls made so far answered. */
  lemma {:induction false} CallsExplained(c: Config, env: Environment, s: State, calls: seq<ToolCall>, i: nat,
                                          blocks: seq<ContentBlock>, requestId: bytes)
    requires i <= |calls| && |s.requests| == |s.responses| && |s.results| == |s.executed| == s.toolCalls
    requires s.totalToolOutputBytes == TotalBytes(s.results)
    ensures var end := ExecuteCalls(c, env, s, calls, i, blocks, requestId);
            end.Stopped? ==> Explained(c, env, end.s, end.result)
    decreases |calls| - i
  {
    hide BoundedResult, Explained, NormalizeError;
    if i < |calls| {
      if Reached(c.limits.maxTotalToolOutputBytes, s.totalToolOutputBytes) {
        OutputExplained(c, env, s, requestId);
      } else {
        var called := EngineRuns.Called(s, calls[i]);
        var reply := env.execute(s.toolCalls, calls[i]);
        if reply.Ok? {
          var bounded := BoundedResult(c.limits, reply.value, s.totalToolOutputBytes);
          assert (s.results + [bounded])[..|s.results|] == s.results;
          CallsExplained(c, env, Received(called, bounded), calls, i + 1, blocks + [AnswerBlock(bounded)], requestId);
        } else {
          ToolFaultExplained(c, env, called, reply.error, requestId);
        }
      }
    }
  }

  lemma OutputExplained(c: Config, env: Environment, s: State, requestId: bytes)
    requires Reached(c.limits.maxTotalToolOutputBytes, TotalBytes(s.results))
    ensures Explained(c, env, s, Fail(s, Limit(ToolOutputLimit), requestId))
  {
  }

  lemma ToolFaultExplained(c: Config, env: Environment, s: State, fault: Fault, requestId: bytes)
    requires |s.executed| == |s.results| + 1 && |s.requests| == |s.responses|
    requires env.execute(|s.executed| - 1, s.executed[|s.executed| - 1]) == Err(fault)
    ensures Explained(c, env, s, Fail(s, NormalizeError(fault).0, requestId))
  {
    hide NormalizeError, Classifies;
    FaultExplained(fault);
    assert Reported(env, s, fault);
  }

  /* The main result */

  lemma BatchOfTurn(c: Config, env: Environment, u: State)
    requires Ready(c, u)
    ensures match ProviderTurn(c, env, u)
            case Batch(t, calls, _) =>
              t.responses != [] && LastAnswered(t, t.responses[|t.responses| - 1])
              && calls == CallsIn(t.responses[|t.responses| - 1].message.content)
            case _ => true
  {
    hide Ready, ValidResponse, CallsIn, TextOf, NormalizeError, Account, AfterResponse;
    var facts := ReadyCounts(c, u);
    if !Reached(c.limits.maxTurns, u.turns) {
      var request := NextRequest(c, env, u);
      var reply := env.complete(u.turns, request);
      if reply.Ok? && ValidResponse(env.validJson, reply.value) {
        ValidUsageIn(env.validJson, reply.value);
        var asked := u.(turns := u.turns + 1, requests := u.requests + [request], lastRequestId := reply.value.requestId);
        AccountAnswers(asked, reply.value);
        BatchOfResponse(c, Account(asked, reply.value), reply.value);
      }
    }
  }

  lemma ValidUsageIn(validJson: bytes -> bool, response: Response)
    requires ValidResponse(validJson, response)
    ensures ValidUsage(response.usage)
  {
  }

  lemma AccountAnswers(s: State, response: Response)
    requires ValidUsage(response.usage) && |s.requests| == |s.responses| + 1
    ensures LastAnswered(Account(s, response), response)
  {
    hide AddUsage, Clamped, ValidUsage;
  }

  lemma BatchOfResponse(c: Config, s: State, response: Response)
    requires LastAnswered(s, response)
    ensures match AfterResponse(c, s, response)
            case Batch(t, calls, _) => LastAnswered(t, response) && calls == CallsIn(response.message.content)
            case _ => true
  {
    hide CallsIn, TextOf;
  }

  /**
   However the provider and the tools answer: a run that succeeds says the texts of the last response, which
   asks for no tool, and a run that fails has met the cause that its failure names.
   */
  lemma EveryEndingExplained(c: Config, env: Environment, fuel: nat)
    requires Stamps(env) && Loop(c, env, NewState(c.goal), fuel).Some?
    ensures var end := Loop(c, env, NewState(c.goal), fuel).value;
            Explained(c, env, end.s, end.result)
  {
    NewIsReady(c);
    var u := LastTurn(c, env, NewState(c.goal), fuel);
    TurnExplained(c, env, u);
    TurnKeeps(c, env, u);
    BatchOfTurn(c, env, u);
    match ProviderTurn(c, env, u)
    case Batch(t, calls, requestId) => BatchExplained(c, env, t, calls, requestId, t.responses[|t.responses| - 1]);
    case _ =>
    hide Ready, Stamps, ProviderTurn, ExecuteToolBatch, Loop, Explained;
  }

  /**
   The output of a run, which only a success has or one whose tools could not be closed: the non-blank texts
   of the last response, in order, with newlines between.
   */
  lemma OutputSays(c: Config, env: Environment, fuel: nat)
    requires Stamps(env) && Run(c, env, fuel).Some?
    ensures var r, s := Run(c, env, fuel).value, Loop(c, env, NewState(c.goal), fuel).value.s;
            && (r.failure.None? ==> r.output.Some?)
            && (r.output.Some? ==>
                  && (r.failure.None? || r.failure == Some(ToolCleanupFailed))
                  && exists response :: StopsFor(s, response, {EndTurn, StopSequence}) && Says(response.message.content, r.output.value))
  {
    EveryEndingExplained(c, env, fuel);
    hide Loop, Says, StopsFor, LimitHit, Reported, Classifies, BadResponse;
  }

  /* What the transcript carries from the provider to the tools and back */

  function AllCalls(ms: seq<Message>): seq<ToolCall> {
    if ms == [] then [] else AllCalls(ms[..|ms| - 1]) + CallsIn(ms[|ms| - 1].content)
  }

  function AllAnswers(ms: seq<Message>): seq<ToolResult> {
    if ms == [] then [] else AllAnswers(ms[..|ms| - 1]) + AnswersIn(ms[|ms| - 1].content)
  }

  lemma AllNext(ms: seq<Message>, m: Message)
    ensures AllCalls(ms + [m]) == AllCalls(ms) + CallsIn(m.content)
    ensures AllAnswers(ms + [m]) == AllAnswers(ms) + AnswersIn(m.content)
  {
    assert (ms + [m])[..|ms|] == ms;
    hide CallsIn, AnswersIn;
  }

  /** The k-th request is for the configured model and tools, and its answer is the one recorded. */
  predicate RequestRecorded(c: Config, env: Environment, s: State, k: nat)
    requires k < |s.requests|
  {
    && s.requests[k].model == c.model && s.requests[k].tools == env.definitions
    && (k < |s.responses| ==> env.complete(k, s.requests[k]) == Ok(s.responses[k]))
    && AllCalls(s.requests[k].messages) <= s.executed && AllAnswers(s.requests[k].messages) <= s.results
  }

  /** The i-th result is what the tool answered to the i-th call, bounded by what the limits left. */
  predicate ResultRecorded(c: Config, env: Environment, s: State, i: nat)
    requires i < |s.results| && i < |s.executed|
  {
    var reply := env.execute(i, s.executed[i]);
    reply.Ok? && s.results[i] == BoundedResult(c.limits, reply.value, TotalBytes(s.results[..i]))
  }

  ghost predicate Recorded(c: Config, env: Environment, s: State) {
    && |s.results| <= |s.executed|
    && (forall k :: 0 <= k < |s.requests| ==> RequestRecorded(c, env, s, k))
    && (forall i :: 0 <= i < |s.results| ==> ResultRecorded(c, env, s, i))
  }

  /** Between turns the transcript holds exactly the calls made and the results received. */
  ghost predicate Settled(c: Config, env: Environment, s: State) {
    && Recorded(c, env, s) && |s.responses| == |s.requests| == s.turns && |s.results| == |s.executed| == s.toolCalls
    && s.totalToolOutputBytes == TotalBytes(s.results)
    && AllCalls(s.messages) == s.executed && AllAnswers(s.messages) == s.results
  }

  /** In a batch: `calls` are still to be made, `blocks` hold the answers so far. */
  ghost predicate Underway(c: Config, env: Environment, s: State, calls: seq<ToolCall>, blocks: seq<ContentBlock>) {
    && Recorded(c, env, s) && |s.responses| == |s.requests| == s.turns && |s.results| == |s.executed| == s.toolCalls
    && s.totalToolOutputBytes == TotalBytes(s.results)
    && AllCalls(s.messages) == s.executed + calls && AllAnswers(s.messages) + AnswersIn(blocks) == s.results
    && CallsIn(blocks) == []
  }

  lemma Grows(c: Config, env: Environment, s: State, t: State)
    requires Recorded(c, env, s) && t.requests == s.requests && s.responses <= t.responses
    requires |s.responses| == |s.requests| || t.responses == s.responses
    requires s.executed <= t.executed && t.results == s.results && |t.results| <= |t.executed|
    ensures Recorded(c, env, t)
  {
    hide BoundedResult, AllCalls, AllAnswers, TotalBytes;
    forall k | 0 <= k < |t.requests| ensures RequestRecorded(c, env, t, k) { assert RequestRecorded(c, env, s, k); }
    forall i | 0 <= i < |t.results| ensures ResultRecorded(c, env, t, i) { assert ResultRecorded(c, env, s, i); }
  }

  lemma AskRecorded(c: Config, env: Environment, s: State)
    requires Settled(c, env, s)
    ensures Recorded(c, env, Asked(c, env, s))
  {
    hide BoundedResult, AllCalls, AllAnswers, TotalBytes;
    var t := Asked(c, env, s);
    forall k | 0 <= k < |t.requests| ensures RequestRecorded(c, env, t, k) {
      if k < |s.requests| { assert RequestRecorded(c, env, s, k); }
    }
    forall i | 0 <= i < |t.results| ensures ResultRecorded(c, env, t, i) { assert ResultRecorded(c, env, s, i); }
  }

  /** The provider's answer to the request just made. */
  lemma AnswerRecorded(c: Config, env: Environment, s: State, t: State, response: Response)
    requires Recorded(c, env, s) && |s.requests| == |s.responses| + 1
    requires env.complete(|s.requests| - 1, s.requests[|s.requests| - 1]) == Ok(response)
    requires t.requests == s.requests && t.responses == s.responses + [response]
    requires t.executed == s.executed && t.results == s.results
    ensures Recorded(c, env, t)
  {
    hide BoundedResult, AllCalls, AllAnswers, TotalBytes;
    forall k | 0 <= k < |t.requests| ensures RequestRecorded(c, env, t, k) { assert RequestRecorded(c, env, s, k); }
    forall i | 0 <= i < |t.results| ensures ResultRecorded(c, env, t, i) { assert ResultRecorded(c, env, s, i); }
  }

  lemma ResultReceived(c: Config, env: Environment, s: State, t: State, call: ToolCall, bounded: ToolResult)
    requires Recorded(c, env, s) && |s.results| == |s.executed| && |s.responses| == |s.requests|
    requires env.execute(|s.executed|, call).Ok?
    requires bounded == BoundedResult(c.limits, env.execute(|s.executed|, call).value, TotalBytes(s.results))
    requires t.requests == s.requests && t.responses == s.responses
    requires t.executed == s.executed + [call] && t.results == s.results + [bounded]
    ensures Recorded(c, env, t)
  {
    hide BoundedResult, AllCalls, AllAnswers, TotalBytes;
    forall k | 0 <= k < |t.requests| ensures RequestRecorded(c, env, t, k) { assert RequestRecorded(c, env, s, k); }
    forall i | 0 <= i < |t.results| ensures ResultRecorded(c, env, t, i) {
      if i < |s.results| {
        assert ResultRecorded(c, env, s, i);
        assert t.results[..i] == s.results[..i];
      } else {
        assert t.results[..i] == s.results;
      }
    }
  }

  lemma {:induction false} NoAnswersInResponse(validJson: bytes -> bool, content: seq<ContentBlock>)
    requires forall i :: 0 <= i < |content| ==> ValidBlock(validJson, content[i])
    ensures AnswersIn(content) == []
  {
    if content != [] {
      var n := |content| - 1;
      assert ValidBlock(validJson, content[n]);
      NoAnswersInResponse(validJson, content[..n]);
    }
    hide Blank;
  }

  lemma AnsweredTurn(c: Config, env: Environment, s: State, response: Response)
    requires Settled(c, env, s) && ValidResponse(env.validJson, response)
    requires env.complete(s.turns, NextRequest(c, env, s)) == Ok(response)
    ensures var t := Account(Asked(c, env, s).(lastRequestId := response.requestId), response);
            match AfterResponse(c, t, response)
            case Paused(u) => Settled(c, env, u)
            case Batch(u, calls, _) => Underway(c, env, u, calls, [])
            case Final(u, _) => Recorded(c, env, u)
            case Broken(u, _) => Recorded(c, env, u)
  {
    AnswersNothing(env.validJson, response);
    hide Settled, Underway, Recorded, CallsIn, TextOf, AnswersIn, ValidResponse, AddUsage, Clamped, TerminalStopFailure, ValidUsage;
    Accounted(c, env, s, response);
    ToldSettles(c, env, s, Account(Asked(c, env, s).(lastRequestId := response.requestId), response), response);
  }

  lemma AnswersNothing(validJson: bytes -> bool, response: Response)
    requires ValidResponse(validJson, response)
    ensures AnswersIn(response.message.content) == []
  {
    NoAnswersInResponse(validJson, response.message.content);
  }

  lemma Accounted(c: Config, env: Environment, s: State, response: Response)
    requires Settled(c, env, s) && ValidUsage(response.usage)
    requires env.complete(s.turns, NextRequest(c, env, s)) == Ok(response)
    ensures Recorded(c, env, Account(Asked(c, env, s).(lastRequestId := response.requestId), response))
  {
    hide AddUsage, Clamped, ValidUsage, AllCalls, AllAnswers, TotalBytes, RequestRecorded, ResultRecorded;
    AskRecorded(c, env, s);
    var asked := Asked(c, env, s).(lastRequestId := response.requestId);
    Grows(c, env, Asked(c, env, s), asked);
    AnswerRecorded(c, env, asked, Account(asked, response), response);
  }

  lemma ToldSettles(c: Config, env: Environment, s: State, t: State, response: Response)
    requires Settled(c, env, s) && Recorded(c, env, t) && AnswersIn(response.message.content) == []
    requires |t.requests| == |s.requests| + 1 == |t.responses| == t.turns && t.messages == s.messages
    requires t.executed == s.executed && t.results == s.results && t.toolCalls == s.toolCalls
    requires t.totalToolOutputBytes == s.totalToolOutputBytes
    ensures var told := t.(messages := t.messages + [response.message]);
            && Recorded(c, env, told) && Underway(c, env, told, CallsIn(response.message.content), [])
            && (CallsIn(response.message.content) == [] ==> Settled(c, env, told))
  {
    AllNext(s.messages, response.message);
    EmptyBlocks();
    hide CallsIn, AnswersIn, AllCalls, AllAnswers, TotalBytes, RequestRecorded, ResultRecorded;
    Grows(c, env, t, t.(messages := t.messages + [response.message]));
  }

  lemma EmptyBlocks()
    ensures AnswersIn([]) == [] && CallsIn([]) == []
  {
  }

  lemma TurnSettles(c: Config, env: Environment, s: State)
    requires Settled(c, env, s)
    ensures match ProviderTurn(c, env, s)
            case Paused(u) => Settled(c, env, u)
            case Batch(u, calls, _) => Underway(c, env, u, calls, [])
            case Final(u, _) => Recorded(c, env, u)
            case Broken(u, _) => Recorded(c, env, u)
  {
    hide ValidResponse, AfterResponse, NormalizeError, Account, RequestRecorded, ResultRecorded, AllCalls, AllAnswers, TotalBytes;
    if !Reached(c.limits.maxTurns, s.turns) {
      AskRecorded(c, env, s);
      var reply := env.complete(s.turns, NextRequest(c, env, s));
      if reply.Ok? {
        Grows(c, env, Asked(c, env, s), Asked(c, env, s).(lastRequestId := reply.value.requestId));
        if ValidResponse(env.validJson, reply.value) { AnsweredTurn(c, env, s, reply.value); }
      }
    }
  }

  lemma OneMoreAnswer(blocks: seq<ContentBlock>, result: ToolResult)
    ensures AnswersIn(blocks + [AnswerBlock(result)]) == AnswersIn(blocks) + [result]
    ensures CallsIn(blocks + [AnswerBlock(result)]) == CallsIn(blocks)
  {
    assert (blocks + [AnswerBlock(result)])[..|blocks|] == blocks;
  }

  lemma CallMade(c: Config, env: Environment, s: State, calls: seq<ToolCall>, blocks: seq<ContentBlock>)
    requires Underway(c, env, s, calls, blocks) && calls != [] && env.execute(s.toolCalls, calls[0]).Ok?
    ensures var bounded := BoundedResult(c.limits, env.execute(s.toolCalls, calls[0]).value, s.totalToolOutputBytes);
            Underway(c, env, Received(EngineRuns.Called(s, calls[0]), bounded), calls[1..], blocks + [AnswerBlock(bounded)])
  {
    var bounded := BoundedResult(c.limits, env.execute(s.toolCalls, calls[0]).value, s.totalToolOutputBytes);
    var t := Received(EngineRuns.Called(s, calls[0]), bounded);
    OneMoreAnswer(blocks, bounded);
    hide BoundedResult, AllCalls, AllAnswers, CallsIn, AnswersIn, RequestRecorded, ResultRecorded;
    ResultReceived(c, env, s, t, calls[0], bounded);
    assert (s.results + [bounded])[..|s.results|] == s.results;
    assert s.executed + calls == s.executed + [calls[0]] + calls[1..];
    assert AllAnswers(s.messages) + (AnswersIn(blocks) + [bounded]) == AllAnswers(s.messages) + AnswersIn(blocks) + [bounded];
  }

  lemma {:induction false} CallsSettle(c: Config, env: Environment, s: State, calls: seq<ToolCall>, i: nat,
                                       blocks: seq<ContentBlock>, requestId: bytes)
    requires i <= |calls| && Underway(c, env, s, calls[i..], blocks)
    ensures match ExecuteCalls(c, env, s, calls, i, blocks, requestId)
            case Answered(u) => Settled(c, env, u)
            case Stopped(u, _) => Recorded(c, env, u)
    decreases |calls| - i
  {
    hide BoundedResult, AllCalls, AllAnswers, CallsIn, AnswersIn, RequestRecorded, ResultRecorded, NormalizeError, TotalBytes;
    if i == |calls| {
      AllNext(s.messages, Message(ToolRole, blocks));
      Grows(c, env, s, s.(messages := s.messages + [Message(ToolRole, blocks)]));
    } else if !Reached(c.limits.maxTotalToolOutputBytes, s.totalToolOutputBytes) {
      var called := EngineRuns.Called(s, calls[i]);
      Grows(c, env, s, called);
      if env.execute(s.toolCalls, calls[i]).Ok? {
        assert calls[i..][0] == calls[i] && calls[i..][1..] == calls[i + 1..];
        CallMade(c, env, s, calls[i..], blocks);
        var bounded := BoundedResult(c.limits, env.execute(s.toolCalls, calls[i]).value, s.totalToolOutputBytes);
        CallsSettle(c, env, Received(called, bounded), calls, i + 1, blocks + [AnswerBlock(bounded)], requestId);
      }
    }
  }

  lemma {:induction false} TurnsRecord(c: Config, env: Environment, s: State, n: nat)
    requires Settled(c, env, s)
    ensures Recorded(c, env, AfterTurns(c, env, s, n))
    decreases n
  {
    hide Recorded, ProviderTurn, ExecuteCalls, Underway, AllCalls, AllAnswers, TotalBytes;
    if n > 0 {
      TurnSettles(c, env, s);
      match ProviderTurn(c, env, s)
      case Paused(t) => TurnsRecord(c, env, t, n - 1);
      case Batch(t, calls, requestId) =>
        assert calls[0..] == calls;
        CallsSettle(c, env, t, calls, 0, [], requestId);
        UnderwayRecorded(c, env, t, calls);
        var end := ExecuteToolBatch(c, env, t, calls, requestId);
        if end.Answered? { TurnsRecord(c, env, end.s, n - 1); }
      case _ =>
    }
  }

  lemma UnderwayRecorded(c: Config, env: Environment, s: State, calls: seq<ToolCall>)
    requires Underway(c, env, s, calls, [])
    ensures Recorded(c, env, s)
  {
  }

  lemma NewSettled(c: Config, env: Environment)
    ensures Settled(c, env, NewState(c.goal))
  {
    GoalIsPlain(c.goal);
    AllNext([], GoalMessage(c.goal));
    assert [] + [GoalMessage(c.goal)] == [GoalMessage(c.goal)];
    assert AllCalls([]) == [] && AllAnswers([]) == [];
  }

  lemma GoalIsPlain(goal: bytes)
    ensures CallsIn(GoalMessage(goal).content) == [] && AnswersIn(GoalMessage(goal).content) == []
  {
    var content := [TextBlock(goal)];
    assert content[..0] == [];
    EmptyBlocks();
  }

  /**
   After any number of turns: every request was for the configured model and tools; the responses recorded
   are the provider's; the calls made are those that responses asked for, in order; and each result that a
   request shows is what the tool answered to its call, bounded by what the limits left.
   */
  lemma ExchangeRecorded(c: Config, env: Environment, n: nat)
    ensures Recorded(c, env, AfterTurns(c, env, NewState(c.goal), n))
  {
    hide *;
    NewSettled(c, env);
    TurnsRecord(c, env, NewState(c.goal), n);
  }
}
