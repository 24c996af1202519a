/**
 The fake provider that plays back a configured sequence of tool calls. It checks what the engine
 sends back to it, and the two together always reach the end of the sequence.
 */
module FakeSequence {
  import opened Prelude
  import opened Decimal
  import opened Bytes
  import opened RuntimeApi
  import opened EngineLimits
  import opened EngineLoop
  import opened EngineRuns

  datatype Entry = Entry(name: bytes, arguments: bytes)

  /** The sequence, and the word counts, summary and request ids that the original computes from texts. */
  datatype Fake = Fake(
    sequence: seq<Entry>,
    inputWords: seq<Message> -> nat,
    words: bytes -> nat,
    summary: seq<ToolResult> -> bytes,
    requestId: bytes -> bytes)

  datatype Problem = SequenceMismatch | ToolUnavailable

  /** `%03d` */
  function Padded(n: nat): string {
    var digits := Dec(n);
    if |digits| == 1 then "00" + digits else if |digits| == 2 then "0" + digits else digits
  }

  function CallId(n: nat): bytes { Ascii("fake-tool-call-") + Ascii(Padded(n)) }

  /** The call for entry `i`, counting from 0. */
  function CallFor(sequence: seq<Entry>, i: nat): ToolCall
    requires i < |sequence|
  {
    ToolCall(CallId(i + 1), sequence[i].name, sequence[i].arguments)
  }

  /* What the transcript says has been answered */

  datatype Scan = Scan(pending: map<bytes, ToolCall>, calls: seq<ToolCall>, results: seq<ToolResult>)

  function AddCalls(pending: map<bytes, ToolCall>, calls: seq<ToolCall>): map<bytes, ToolCall> {
    if calls == [] then pending
    else
      var last := calls[|calls| - 1];
      AddCalls(pending, calls[..|calls| - 1])[last.id := last]
  }

  /** None when a result has no pending call. */
  function TakeResults(scan: Scan, results: seq<ToolResult>): Option<Scan> {
    if results == [] then Some(scan)
    else
      var last := results[|results| - 1];
      match TakeResults(scan, results[..|results| - 1])
      case None => None
      case Some(before) =>
        if last.callId !in before.pending then None
        else Some(Scan(before.pending - {last.callId}, before.calls + [before.pending[last.callId]],
                       before.results + [last]))
  }

  function ScanMessage(scan: Scan, m: Message): Option<Scan> {
    TakeResults(scan.(pending := AddCalls(scan.pending, CallsIn(m.content))), AnswersIn(m.content))
  }

  function ScanMessages(ms: seq<Message>): Option<Scan> {
    if ms == [] then Some(Scan(map[], [], []))
    else
      match ScanMessages(ms[..|ms| - 1])
      case None => None
      case Some(scan) => ScanMessage(scan, ms[|ms| - 1])
  }

  predicate Plays(sequence: seq<Entry>, scan: Scan, i: nat)
    requires i < |scan.results| == |scan.calls| && i < |sequence|
  {
    && scan.results[i].callId == CallId(i + 1) && scan.results[i].name == sequence[i].name
    && scan.calls[i] == CallFor(sequence, i)
  }

  predicate Accepts(sequence: seq<Entry>, scan: Scan) {
    && |scan.results| <= |sequence|
    && scan.pending == map[] && |scan.calls| == |scan.results|
    && forall i :: 0 <= i < |scan.results| ==> Plays(sequence, scan, i)
  }

  predicate IsExposed(tools: seq<ToolDefinition>, name: bytes) {
    exists i :: 0 <= i < |tools| && tools[i].name == name
  }

  /** The int64 that a count becomes, and that a sum of int64 becomes. */
  function Wrapped(n: int): Int64 { (n + MAX_INT64 + 1) % (2 * (MAX_INT64 + 1)) - MAX_INT64 - 1 }

  function CountedUsage(input: nat, output: nat): Usage {
    Usage(Some(Wrapped(input)), Some(Wrapped(output)), Some(Wrapped(input + output)), None)
  }

  function Closing(fake: Fake, results: seq<ToolResult>): bytes {
    Ascii("Fake provider completed tool sequence: ") + fake.summary(results)
  }

  function FinalResponse(fake: Fake, request: Request, results: seq<ToolResult>): Response {
    var text := Closing(fake, results);
    Response(Message(Assistant, [TextBlock(text)]), CountedUsage(fake.inputWords(request.messages), fake.words(text)),
             EndTurn, fake.requestId(request.model + [0] + text))
  }

  function CallText(next: Entry): bytes { next.name + [0x20] + next.arguments }

  function CallResponse(fake: Fake, request: Request, i: nat): Response
    requires i < |fake.sequence|
  {
    var next := fake.sequence[i];
    Response(Message(Assistant, [CallBlock(CallFor(fake.sequence, i))]),
             CountedUsage(fake.inputWords(request.messages), fake.words(CallText(next))),
             ToolUse, fake.requestId(request.model + [0] + Ascii(Dec(i + 1)) + [0] + next.name + [0] + next.arguments))
  }

  function Completion(fake: Fake, request: Request): Result<Response, Problem> {
    match ScanMessages(request.messages)
    case None => Err(SequenceMismatch)
    case Some(scan) =>
      if !Accepts(fake.sequence, scan) then Err(SequenceMismatch)
      else if |scan.results| == |fake.sequence| then Ok(FinalResponse(fake, request, scan.results))
      else if !IsExposed(request.tools, fake.sequence[|scan.results|].name) then Err(ToolUnavailable)
      else Ok(CallResponse(fake, request, |scan.results|))
  }

  /* The completion as the original computes it */

  lemma {:induction false} ScanStaysBroken(ms: seq<Message>, i: nat)
    requires i <= |ms| && ScanMessages(ms[..i]).None?
    ensures ScanMessages(ms).None?
  {
    if i == |ms| {
      assert ms[..i] == ms;
    } else {
      assert ms[..|ms| - 1][..i] == ms[..i];
      ScanStaysBroken(ms[..|ms| - 1], i);
    }
  }

  lemma {:induction false} TakingStaysBroken(scan: Scan, results: seq<ToolResult>, i: nat)
    requires i <= |results| && TakeResults(scan, results[..i]).None?
    ensures TakeResults(scan, results).None?
  {
    if i == |results| {
      assert results[..i] == results;
    } else {
      assert results[..|results| - 1][..i] == results[..i];
      TakingStaysBroken(scan, results[..|results| - 1], i);
    }
  }

  method ScanOne(scan: Scan, message: Message) returns (next: Option<Scan>)
    ensures next == ScanMessage(scan, message)
  {
    var pendingCalls := scan.pending;
    var asked := MessageToolCalls(message);
    for j := 0 to |asked|
      invariant pendingCalls == AddCalls(scan.pending, asked[..j])
    {
      assert asked[..j + 1][..j] == asked[..j];
      pendingCalls := pendingCalls[asked[j].id := asked[j]];
    }
    assert asked[..|asked|] == asked;
    ghost var underway := scan.(pending := pendingCalls);
    var calls, results := scan.calls, scan.results;
    var answers := MessageToolResults(message);
    for j := 0 to |answers|
      invariant TakeResults(underway, answers[..j]) == Some(Scan(pendingCalls, calls, results))
    {
      assert answers[..j + 1][..j] == answers[..j];
      if answers[j].callId !in pendingCalls {
        TakingStaysBroken(underway, answers, j + 1);
        return None;
      }
      calls, results := calls + [pendingCalls[answers[j].callId]], results + [answers[j]];
      pendingCalls := pendingCalls - {answers[j].callId};
    }
    assert answers[..|answers|] == answers;
    next := Some(Scan(pendingCalls, calls, results));
  }

  method Complete(fake: Fake, request: Request) returns (r: Result<Response, Problem>)
    ensures r == Completion(fake, request)
  {
    hide ScanMessage, CallFor, FinalResponse, CallResponse;
    var scan := Scan(map[], [], []);
    var ms := request.messages;
    for i := 0 to |ms|
      invariant ScanMessages(ms[..i]) == Some(scan)
    {
      assert ms[..i + 1][..i] == ms[..i];
      var next := ScanOne(scan, ms[i]);
      if next.None? {
        ScanStaysBroken(ms, i + 1);
        return Err(SequenceMismatch);
      }
      scan := next.value;
    }
    assert ms[..|ms|] == ms;
    if |scan.results| > |fake.sequence| || scan.pending != map[] || |scan.calls| != |scan.results| {
      return Err(SequenceMismatch);
    }
    for i := 0 to |scan.results|
      invariant forall j :: 0 <= j < i ==> Plays(fake.sequence, scan, j)
    {
      if !Plays(fake.sequence, scan, i) {
        return Err(SequenceMismatch);
      }
    }
    if |scan.results| == |fake.sequence| {
      return Ok(FinalResponse(fake, request, scan.results));
    }
    if !IsExposed(request.tools, fake.sequence[|scan.results|].name) {
      return Err(ToolUnavailable);
    }
    r := Ok(CallResponse(fake, request, |scan.results|));
  }

  /* The conversation between the two */

  function CallMessage(sequence: seq<Entry>, i: nat): Message
    requires i < |sequence|
  {
    Message(Assistant, [CallBlock(CallFor(sequence, i))])
  }

  function AnswerMessage(result: ToolResult): Message { Message(ToolRole, [AnswerBlock(result)]) }

  /** The transcript once the first calls have these results. */
  function Dialogue(goal: bytes, sequence: seq<Entry>, results: seq<ToolResult>): seq<Message>
    requires |results| <= |sequence|
  {
    if results == [] then [GoalMessage(goal)]
    else
      var n := |results| - 1;
      Dialogue(goal, sequence, results[..n]) + [CallMessage(sequence, n), AnswerMessage(results[n])]
  }

  /** Results that carry the ids and names of the first calls of the sequence. */
  ghost predicate InOrder(sequence: seq<Entry>, results: seq<ToolResult>) {
    && |results| <= |sequence|
    && forall i :: 0 <= i < |results| ==>
         results[i].callId == CallId(i + 1) && results[i].name == sequence[i].name
  }

  function Calls(sequence: seq<Entry>, n: nat): seq<ToolCall>
    requires n <= |sequence|
  {
    seq(n, i requires 0 <= i < n => CallFor(sequence, i))
  }

  lemma ScanPair(scan: Scan, sequence: seq<Entry>, i: nat, result: ToolResult)
    requires i < |sequence| && scan.pending == map[] && result.callId == CallId(i + 1)
    ensures ScanMessage(scan, CallMessage(sequence, i)) ==
            Some(scan.(pending := map[CallId(i + 1) := CallFor(sequence, i)]))
    ensures ScanMessage(scan.(pending := map[CallId(i + 1) := CallFor(sequence, i)]), AnswerMessage(result)) ==
            Some(Scan(map[], scan.calls + [CallFor(sequence, i)], scan.results + [result]))
  {
    hide CallId;
    var call := CallFor(sequence, i);
    OneCall(call);
    OneAnswer(result);
    var pending: map<bytes, ToolCall> := map[call.id := call];
    assert AddCalls(map[], [call]) == pending;
    assert AddCalls(pending, []) == pending;
    assert pending - {call.id} == map[];
    var underway := scan.(pending := pending);
    assert TakeResults(underway, []) == Some(underway);
    assert [result][..0] == [];
    assert TakeResults(underway, [result]) == Some(Scan(pending - {call.id}, scan.calls + [call], scan.results + [result]));
  }

  lemma OneCall(call: ToolCall)
    ensures CallsIn([CallBlock(call)]) == [call] && AnswersIn([CallBlock(call)]) == []
  {
    assert CallsIn([]) == [] && AnswersIn([]) == [];
    assert [CallBlock(call)][..0] == [];
  }

  lemma OneAnswer(result: ToolResult)
    ensures AnswersIn([AnswerBlock(result)]) == [result] && CallsIn([AnswerBlock(result)]) == []
  {
    assert CallsIn([]) == [] && AnswersIn([]) == [];
    assert [AnswerBlock(result)][..0] == [];
  }

  lemma {:induction false} ScanDialogue(goal: bytes, sequence: seq<Entry>, results: seq<ToolResult>)
    requires InOrder(sequence, results)
    ensures ScanMessages(Dialogue(goal, sequence, results)) == Some(Scan(map[], Calls(sequence, |results|), results))
  {
    hide CallId, CallFor, ScanMessage;
    if results == [] {
      GoalScans(goal);
    } else {
      var n := |results| - 1;
      ScanDialogue(goal, sequence, results[..n]);
      var before := Dialogue(goal, sequence, results[..n]);
      var scan := Scan(map[], Calls(sequence, n), results[..n]);
      ScanPair(scan, sequence, n, results[n]);
      var asked := before + [CallMessage(sequence, n)];
      assert asked[..|asked| - 1] == before;
      var all := before + [CallMessage(sequence, n), AnswerMessage(results[n])];
      assert all[..|all| - 1] == asked;
      assert Calls(sequence, n) + [CallFor(sequence, n)] == Calls(sequence, n + 1);
      assert results[..n] + [results[n]] == results;
    }
  }

  lemma GoalScans(goal: bytes)
    ensures ScanMessages([GoalMessage(goal)]) == Some(Scan(map[], [], []))
  {
    var m := GoalMessage(goal);
    assert [TextBlock(goal)][..0] == [] && CallsIn([]) == [] && AnswersIn([]) == [];
    assert CallsIn(m.content) == [] && AnswersIn(m.content) == [];
    assert [m][..0] == [];
    assert ScanMessages([]) == Some(Scan(map[], [], []));
  }

  lemma DialogueAccepted(sequence: seq<Entry>, results: seq<ToolResult>)
    requires InOrder(sequence, results)
    ensures Accepts(sequence, Scan(map[], Calls(sequence, |results|), results))
  {
    hide CallId;
  }

  /** The provider plays the next call, or closes the sequence. */
  lemma PlaysOn(fake: Fake, request: Request, goal: bytes, results: seq<ToolResult>)
    requires InOrder(fake.sequence, results)
    requires request.messages == Dialogue(goal, fake.sequence, results)
    requires forall i :: 0 <= i < |fake.sequence| ==> IsExposed(request.tools, fake.sequence[i].name)
    ensures Completion(fake, request) ==
            Ok(if |results| == |fake.sequence| then FinalResponse(fake, request, results)
               else CallResponse(fake, request, |results|))
  {
    ScanDialogue(goal, fake.sequence, results);
    DialogueAccepted(fake.sequence, results);
    hide Dialogue, ScanMessages, Accepts, FinalResponse, CallResponse, Calls, IsExposed, InOrder;
  }

  /* The engine accepts what the fake provider sends */

  lemma CallIdVisible(n: nat)
    ensures CallId(n) != [] && CallId(n)[0] == 0x66
  {
    var prefix := "fake-tool-call-";
    assert |prefix| == 15 && prefix[0] == 'f';
    hide Padded;
  }

  lemma ClosingVisible(fake: Fake, results: seq<ToolResult>)
    ensures Closing(fake, results) != [] && Closing(fake, results)[0] == 0x46
  {
    var prefix := "Fake provider completed tool sequence: ";
    assert |prefix| > 0 && prefix[0] == 'F';
  }

  lemma CountedValid(input: nat, output: nat)
    requires input + output <= MAX_INT64
    ensures ValidUsage(CountedUsage(input, output))
  {
    NotWrapped(input);
    NotWrapped(output);
    NotWrapped(input + output);
    hide Wrapped;
  }

  lemma NotWrapped(n: nat)
    requires n <= MAX_INT64
    ensures Wrapped(n) == n
  {
  }

  lemma CallResponseValid(fake: Fake, validJson: bytes -> bool, request: Request, i: nat)
    requires i < |fake.sequence| && fake.inputWords(request.messages) + fake.words(CallText(fake.sequence[i])) <= MAX_INT64
    requires !Blank(fake.sequence[i].name) && fake.sequence[i].arguments != [] && validJson(fake.sequence[i].arguments)
    ensures ValidResponse(validJson, CallResponse(fake, request, i))
    ensures CallsIn(CallResponse(fake, request, i).message.content) == [CallFor(fake.sequence, i)]
  {
    hide Blank, CallId, ValidUsage, CallsIn;
    CallIdVisible(i + 1);
    StartsVisible(CallId(i + 1));
    CountedValid(fake.inputWords(request.messages),
                 fake.words(CallText(fake.sequence[i])));
    OneCall(CallFor(fake.sequence, i));
  }

  lemma FinalResponseValid(fake: Fake, validJson: bytes -> bool, request: Request, results: seq<ToolResult>)
    requires fake.inputWords(request.messages) + fake.words(Closing(fake, results)) <= MAX_INT64
    ensures ValidResponse(validJson, FinalResponse(fake, request, results))
    ensures CallsIn(FinalResponse(fake, request, results).message.content) == []
  {
    hide Blank, Closing, ValidUsage;
    ClosingVisible(fake, results);
    StartsVisible(Closing(fake, results));
    CountedValid(fake.inputWords(request.messages), fake.words(Closing(fake, results)));
    assert [TextBlock(Closing(fake, results))][..0] == [] && CallsIn([]) == [];
  }

  /* The whole sequence */

  /** The engine is set up with the fake provider and tools that are exposed and answer; its limits are arbitrary. */
  ghost predicate Playable(fake: Fake, c: Config, env: Environment) {
    && Stamps(env)
    && (forall n, request :: env.complete(n, request) ==
         match Completion(fake, request)
         case Ok(response) => Ok(response)
         case Err(_) => Err(Fault(Live, OtherError)))
    && (forall n, call :: env.execute(n, call).Ok?)
    && (forall i :: 0 <= i < |fake.sequence| ==>
          && IsExposed(env.definitions, fake.sequence[i].name) && !Blank(fake.sequence[i].name)
          && fake.sequence[i].arguments != [] && env.validJson(fake.sequence[i].arguments))
  }

  /** The words of the transcript, and of what the fake provider says next, add up to an int64. */
  predicate Countable(fake: Fake, messages: seq<Message>, results: seq<ToolResult>) {
    var next := if |results| < |fake.sequence| then CallText(fake.sequence[|results|]) else Closing(fake, results);
    fake.inputWords(messages) + fake.words(next) <= MAX_INT64
  }

  /** From `s` on, after `k` answers, each transcript of the run that asks for the next response is countable. */
  ghost predicate StaysCountable(fake: Fake, c: Config, env: Environment, s: State, k: nat) {
    forall j: nat :: k + j <= |fake.sequence| && |AfterTurns(c, env, s, j).results| == k + j ==>
      Countable(fake, AfterTurns(c, env, s, j).messages, AfterTurns(c, env, s, j).results)
  }

  /** The limit is configured, and the run has reached it. */
  predicate Hit(limits: Limits, s: State, v: Violation) {
    match v
    case TurnLimit => Reached(limits.maxTurns, s.turns)
    case TokenLimit => Reached(limits.tokenBudget, s.consumedTokens)
    case ToolCallLimit => limits.maxToolCalls.Some? && s.toolCalls + 1 > limits.maxToolCalls.value
    case ToolOutputLimit => Reached(limits.maxTotalToolOutputBytes, s.totalToolOutputBytes)
  }

  /** The run is cut off by a limit that it has hit, with the first `k` calls of the sequence made. */
  ghost predicate CutOff(fake: Fake, c: Config, s: State, result: RunResult, k: nat) {
    && k <= |fake.sequence| && s.executed == Calls(fake.sequence, k) && s.toolCalls == k
    && exists v :: result.failure == Some(Limit(v)) && Hit(c.limits, s, v)
         && (v.TurnLimit? ==> s.turns <= |fake.sequence|) && (v.ToolCallLimit? || v.ToolOutputLimit? ==> k < |fake.sequence|)
  }

  /** The state after the first `k` calls of the sequence have been answered. */
  ghost predicate Played(fake: Fake, c: Config, s: State, k: nat) {
    && k <= |fake.sequence| && InOrder(fake.sequence, s.results) && |s.results| == k && s.turns == k && s.toolCalls == k
    && s.messages == Dialogue(c.goal, fake.sequence, s.results)
    && s.executed == Calls(fake.sequence, k) && |s.requests| == k
  }

  /** The state that the engine is in when it has been sent the call for entry `k`. */
  function Called(c: Config, env: Environment, s: State, response: Response): State
    requires ValidUsage(response.usage)
  {
    var asked := Asked(c, env, s).(lastRequestId := response.requestId);
    Account(asked, response).(messages := s.messages + [response.message])
  }

  lemma ResponseUsageValid(validJson: bytes -> bool, response: Response)
    requires ValidResponse(validJson, response)
    ensures ValidUsage(response.usage)
  {
  }

  /** The engine accepts the call and runs it, or stops at a limit on turns or tokens. */
  lemma TurnPlaysCall(fake: Fake, c: Config, env: Environment, s: State, k: nat)
    requires Playable(fake, c, env) && Played(fake, c, s, k) && k < |fake.sequence| && Countable(fake, s.messages, s.results)
    ensures var response := CallResponse(fake, NextRequest(c, env, s), k);
            && ValidUsage(response.usage)
            && match ProviderTurn(c, env, s)
               case Batch(t, calls, requestId) =>
                 t == Called(c, env, s, response) && calls == [CallFor(fake.sequence, k)] && requestId == response.requestId
               case Broken(t, result) => CutOff(fake, c, t, result, k)
               case _ => false
  {
    hide Completion, Stamps, CountedUsage, InOrder, Dialogue, Calls, CallResponse, ValidResponse, CallFor, CallsIn, Blank,
         IsExposed, TextOf, Account;
    var request := NextRequest(c, env, s);
    PlaysOn(fake, request, c.goal, s.results);
    CallResponseValid(fake, env.validJson, request, k);
    CallResponseShape(fake, request, k);
    var response := CallResponse(fake, request, k);
    ResponseUsageValid(env.validJson, response);
    assert env.complete(s.turns, request) == Ok(response);
    var answered := Asked(c, env, s).(lastRequestId := response.requestId);
    AccountShape(answered, response);
    if Reached(c.limits.maxTurns, s.turns) { assert Hit(c.limits, s, TurnLimit); }
    if c.limits.tokenBudget.Some? && Account(answered, response).consumedTokens > c.limits.tokenBudget.value {
      assert Hit(c.limits, Account(answered, response), TokenLimit);
    }
  }

  lemma CallResponseShape(fake: Fake, request: Request, i: nat)
    requires i < |fake.sequence|
    ensures var r := CallResponse(fake, request, i);
            r.stopReason == ToolUse && r.message == CallMessage(fake.sequence, i)
  {
  }

  lemma AccountShape(s: State, response: Response)
    requires ValidUsage(response.usage)
    ensures Account(s, response).messages == s.messages && Account(s, response).lastRequestId == s.lastRequestId
    ensures Account(s, response).executed == s.executed && Account(s, response).toolCalls == s.toolCalls
    ensures Account(s, response).turns == s.turns && Account(s, response).results == s.results
  {
  }

  /** The tool is called and its answer appended, or a limit is in the way of the call. */
  lemma BatchPlaysCall(fake: Fake, c: Config, env: Environment, s: State, k: nat)
    requires Playable(fake, c, env) && Played(fake, c, s, k) && k < |fake.sequence| && Countable(fake, s.messages, s.results)
    ensures var response := CallResponse(fake, NextRequest(c, env, s), k);
            && ValidUsage(response.usage)
            && var called := Called(c, env, s, response);
               match ExecuteToolBatch(c, env, called, [CallFor(fake.sequence, k)], response.requestId)
               case Answered(t) => Played(fake, c, t, k + 1)
               case Stopped(t, result) => CutOff(fake, c, t, result, k)
  {
    hide Completion, CountedUsage, InOrder, Dialogue, Calls, CallResponse, ValidUsage, CallFor, CallsIn, Blank,
         IsExposed, BoundedResult, Account, ExecuteCalls;
    var response := CallResponse(fake, NextRequest(c, env, s), k);
    TurnPlaysCall(fake, c, env, s, k);
    var called := Called(c, env, s, response);
    var call := CallFor(fake.sequence, k);
    CalledShape(c, env, s, response);
    CallResponseShape(fake, NextRequest(c, env, s), k);
    var check := CheckBeforeToolBatch(c.limits, called.consumedTokens, called.turns, called.toolCalls, called.totalToolOutputBytes, 1);
    if check.Some? {
      assert Hit(c.limits, called, check.value);
    } else {
      var result := env.execute(called.toolCalls, call).value;
      assert env.execute(called.toolCalls, call).Ok?;
      var bounded := BoundedResult(c.limits, result, called.totalToolOutputBytes);
      OneCallBatch(c, env, called, call, response.requestId);
      BoundedWithinLimits(c.limits, result, called.totalToolOutputBytes);
      NextPlayed(fake, c, s.results, bounded, k);
    }
  }

  lemma CalledShape(c: Config, env: Environment, s: State, response: Response)
    requires ValidUsage(response.usage)
    ensures var t := Called(c, env, s, response);
            && t.messages == s.messages + [response.message] && t.turns == s.turns + 1 && t.toolCalls == s.toolCalls
            && t.executed == s.executed && t.results == s.results && |t.requests| == |s.requests| + 1
  {
  }

  lemma OneCallBatch(c: Config, env: Environment, s: State, call: ToolCall, requestId: bytes)
    requires CheckBeforeToolBatch(c.limits, s.consumedTokens, s.turns, s.toolCalls, s.totalToolOutputBytes, 1).None?
    requires env.execute(s.toolCalls, call).Ok?
    ensures var bounded := BoundedResult(c.limits, env.execute(s.toolCalls, call).value, s.totalToolOutputBytes);
            var called := s.(toolCalls := s.toolCalls + 1, executed := s.executed + [call]);
            ExecuteToolBatch(c, env, s, [call], requestId) ==
            Answered(Received(called, bounded).(messages := s.messages + [AnswerMessage(bounded)]))
  {
    hide BoundedResult;
    var bounded := BoundedResult(c.limits, env.execute(s.toolCalls, call).value, s.totalToolOutputBytes);
    var called := s.(toolCalls := s.toolCalls + 1, executed := s.executed + [call]);
    assert [] + [AnswerBlock(bounded)] == [AnswerBlock(bounded)];
    assert ExecuteCalls(c, env, Received(called, bounded), [call], 1, [AnswerBlock(bounded)], requestId) ==
           Answered(Received(called, bounded).(messages := s.messages + [AnswerMessage(bounded)]));
  }

  lemma NextPlayed(fake: Fake, c: Config, results: seq<ToolResult>, bounded: ToolResult, k: nat)
    requires InOrder(fake.sequence, results) && |results| == k < |fake.sequence|
    requires bounded.callId == CallFor(fake.sequence, k).id && bounded.name == CallFor(fake.sequence, k).name
    ensures InOrder(fake.sequence, results + [bounded])
    ensures Dialogue(c.goal, fake.sequence, results + [bounded]) ==
            Dialogue(c.goal, fake.sequence, results) + [CallMessage(fake.sequence, k)] + [AnswerMessage(bounded)]
    ensures Calls(fake.sequence, k) + [CallFor(fake.sequence, k)] == Calls(fake.sequence, k + 1)
  {
    hide CallId;
    assert (results + [bounded])[..k] == results;
  }

  /** The run has succeeded after n + 1 turns, with each tool called once and in order. */
  ghost predicate Succeeds(fake: Fake, s: State, result: RunResult) {
    && result.failure.None? && result.output.Some? && s.turns == |fake.sequence| + 1
    && s.executed == Calls(fake.sequence, |fake.sequence|)
    && InOrder(fake.sequence, s.results) && |s.results| == |fake.sequence|
  }

  lemma TurnCloses(fake: Fake, c: Config, env: Environment, s: State)
    requires Playable(fake, c, env) && Played(fake, c, s, |fake.sequence|) && Countable(fake, s.messages, s.results)
    ensures match ProviderTurn(c, env, s)
            case Final(t, result) => Succeeds(fake, t, result)
            case Broken(t, result) => CutOff(fake, c, t, result, |fake.sequence|)
            case _ => false
  {
    hide Completion, Stamps, CountedUsage, InOrder, Dialogue, Calls, FinalResponse, ValidResponse, CallFor, CallsIn, Blank,
         IsExposed, TextOf, Account;
    var request := NextRequest(c, env, s);
    PlaysOn(fake, request, c.goal, s.results);
    FinalResponseValid(fake, env.validJson, request, s.results);
    FinalResponseShape(fake, request, s.results);
    var response := FinalResponse(fake, request, s.results);
    ResponseUsageValid(env.validJson, response);
    assert env.complete(s.turns, request) == Ok(response);
    var answered := Asked(c, env, s).(lastRequestId := response.requestId);
    AccountShape(answered, response);
    if Reached(c.limits.maxTurns, s.turns) { assert Hit(c.limits, s, TurnLimit); }
    if c.limits.tokenBudget.Some? && Account(answered, response).consumedTokens > c.limits.tokenBudget.value {
      assert Hit(c.limits, Account(answered, response), TokenLimit);
    }
  }

  lemma FinalResponseShape(fake: Fake, request: Request, results: seq<ToolResult>)
    ensures FinalResponse(fake, request, results).stopReason == EndTurn
  {
  }

  /** From any point of the sequence the loop needs no more than the turns that are left. */
  lemma {:induction false} PlaysToTheEnd(fake: Fake, c: Config, env: Environment, s: State, k: nat)
    requires Playable(fake, c, env) && Played(fake, c, s, k) && StaysCountable(fake, c, env, s, k)
    ensures var end := Loop(c, env, s, |fake.sequence| - k + 1);
            && end.Some?
            && (Succeeds(fake, end.value.s, end.value.result)
                || exists m :: CutOff(fake, c, end.value.s, end.value.result, m))
    decreases |fake.sequence| - k
  {
    hide Playable, InOrder, Dialogue, Calls, CallResponse, ProviderTurn, ExecuteToolBatch, CallFor, Called, CutOff, Succeeds,
         Countable, StaysCountable;
    CountableNow(fake, c, env, s, k);
    if k == |fake.sequence| {
      TurnCloses(fake, c, env, s);
    } else {
      TurnPlaysCall(fake, c, env, s, k);
      BatchPlaysCall(fake, c, env, s, k);
      var response := CallResponse(fake, NextRequest(c, env, s), k);
      var end := ExecuteToolBatch(c, env, Called(c, env, s, response), [CallFor(fake.sequence, k)], response.requestId);
      if ProviderTurn(c, env, s).Batch? && end.Answered? {
        CountableNext(fake, c, env, s, k, end.s);
        PlaysToTheEnd(fake, c, env, end.s, k + 1);
      }
    }
  }

  lemma CountableNow(fake: Fake, c: Config, env: Environment, s: State, k: nat)
    requires StaysCountable(fake, c, env, s, k) && Played(fake, c, s, k)
    ensures Countable(fake, s.messages, s.results)
  {
    hide Countable, InOrder, Dialogue, Calls;
    assert AfterTurns(c, env, s, 0) == s;
  }

  lemma CountableNext(fake: Fake, c: Config, env: Environment, s: State, k: nat, t: State)
    requires StaysCountable(fake, c, env, s, k)
    requires match ProviderTurn(c, env, s)
             case Batch(u, calls, requestId) => ExecuteToolBatch(c, env, u, calls, requestId) == Answered(t)
             case _ => false
    ensures StaysCountable(fake, c, env, t, k + 1)
  {
    hide Countable, ProviderTurn, ExecuteToolBatch;
    forall j: nat ensures AfterTurns(c, env, t, j) == AfterTurns(c, env, s, j + 1) { }
    hide AfterTurns;
    forall j: nat | k + 1 + j <= |fake.sequence| && |AfterTurns(c, env, t, j).results| == k + 1 + j
      ensures Countable(fake, AfterTurns(c, env, t, j).messages, AfterTurns(c, env, t, j).results)
    {
      assert AfterTurns(c, env, t, j) == AfterTurns(c, env, s, j + 1);
    }
  }

  /**
   Whatever the limits: a sequence of n exposed tools, without cancellation, ends within n + 1 turns. It
   succeeds after exactly n + 1 turns with each tool called once and in order, or it fails with a limit
   that it has hit, the calls made being the first ones of the sequence.
   */
  lemma SequenceEnds(fake: Fake, c: Config, env: Environment)
    requires Playable(fake, c, env) && StaysCountable(fake, c, env, NewState(c.goal), 0)
    ensures var end := Loop(c, env, NewState(c.goal), |fake.sequence| + 1);
            && end.Some?
            && (Succeeds(fake, end.value.s, end.value.result)
                <==> !exists m :: CutOff(fake, c, end.value.s, end.value.result, m))
  {
    hide Playable, StaysCountable, Loop, CallFor, GoalMessage;
    PlaysToTheEnd(fake, c, env, NewState(c.goal), 0);
  }

  /** So it succeeds if the limits on turns and calls leave room for it and no budget of tokens or bytes is hit. */
  lemma SequenceSucceeds(fake: Fake, c: Config, env: Environment)
    requires Playable(fake, c, env) && StaysCountable(fake, c, env, NewState(c.goal), 0)
    requires c.limits.maxTurns.Some? ==> c.limits.maxTurns.value > |fake.sequence|
    requires c.limits.maxToolCalls.Some? ==> c.limits.maxToolCalls.value >= |fake.sequence|
    ensures var end := Loop(c, env, NewState(c.goal), |fake.sequence| + 1);
            && end.Some?
            && (!Hit(c.limits, end.value.s, TokenLimit) && !Hit(c.limits, end.value.s, ToolOutputLimit) ==>
                  Succeeds(fake, end.value.s, end.value.result))
  {
    hide Playable, StaysCountable, Loop, Calls, GoalMessage, Succeeds;
    SequenceEnds(fake, c, env);
  }

  /** The hypotheses can be met, here by a sequence of one call. */
  lemma PlayableIsPossible(goal: bytes)
    ensures exists fake: Fake, c: Config, env: Environment :: 
              |fake.sequence| == 1 && Playable(fake, c, env) && StaysCountable(fake, c, env, NewState(c.goal), 0)
  {
    hide Completion, Blank, ScanMessages, AfterTurns;
    var name: bytes := [0x74];
    StartsVisible(name);
    var fake := Fake([Entry(name, [0x7B, 0x7D])], ms => 0, text => 0, results => [], text => text);
    var env := Environment(
      (n, request) => match Completion(fake, request)
                      case Ok(response) => Ok(response)
                      case Err(_) => Err(Fault(Live, OtherError)),
      (n, call: ToolCall) => Ok(ToolResult(call.id, call.name, [], false, [], false)),
      [ToolDefinition(name, [], [])], text => true, true);
    var c := Config([], goal, Limits(None, None, None, None, None));
    assert env.definitions[0].name == name;
    assert Playable(fake, c, env) && StaysCountable(fake, c, env, NewState(c.goal), 0);
  }
}
