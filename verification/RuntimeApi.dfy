/** What the reference engine exchanges with providers and tools, and what it accepts of a provider. */
module RuntimeApi {
  import opened Prelude
  import opened Decimal
  import opened Bytes

  type Int64 = x: int | -MAX_INT64 - 1 <= x <= MAX_INT64

  datatype Role = User | Assistant | ToolRole | UnknownRole

  datatype ContentType = Text | Call | Answer | UnknownContent

  datatype ToolDefinition = ToolDefinition(name: bytes, description: bytes, inputSchema: bytes)

  datatype ToolCall = ToolCall(id: bytes, name: bytes, arguments: bytes)

  datatype ToolResult = ToolResult(
    callId: bytes, name: bytes, content: bytes, isError: bool, errorCode: bytes, truncated: bool)

  datatype ContentBlock = ContentBlock(
    kind: ContentType, text: bytes, call: Option<ToolCall>, answer: Option<ToolResult>)

  datatype Message = Message(role: Role, content: seq<ContentBlock>)

  datatype Usage = Usage(
    input: Option<Int64>, output: Option<Int64>, total: Option<Int64>, reasoning: Option<Int64>)

  datatype StopReason =
    | EndTurn | MaxTokens | StopSequence | ToolUse | ContentFilter | PauseTurn | Refusal
    | ContextWindowExceeded | UnknownReason

  datatype Request = Request(
    model: bytes, messages: seq<Message>, maxTokens: Option<int>, tools: seq<ToolDefinition>)

  datatype Response = Response(message: Message, usage: Usage, stopReason: StopReason, requestId: bytes)

  function TextBlock(text: bytes): ContentBlock { ContentBlock(Text, text, None, None) }

  function CallBlock(call: ToolCall): ContentBlock { ContentBlock(Call, [], Some(call), None) }

  function AnswerBlock(answer: ToolResult): ContentBlock { ContentBlock(Answer, [], None, Some(answer)) }

  /* Validation */

  function OrZero(n: Option<Int64>): int { if n.Some? then n.value else 0 }

  function Metrics(u: Usage): seq<Option<Int64>> { [u.input, u.output, u.total, u.reasoning] }

  /** No metric is negative, the parts do not exceed the total, and their sum is an int64. */
  predicate ValidUsage(u: Usage) {
    && (forall i :: 0 <= i < 4 ==> OrZero(Metrics(u)[i]) >= 0)
    && OrZero(u.input) + OrZero(u.output) <= MAX_INT64
    && (u.total.Some? ==> OrZero(u.input) + OrZero(u.output) <= u.total.value)
    && (u.output.Some? && u.reasoning.Some? ==> u.reasoning.value <= u.output.value)
  }

  method ValidateUsage(usage: Usage) returns (ok: bool)
    ensures ok <==> ValidUsage(usage)
  {
    var metrics := Metrics(usage);
    for i := 0 to |metrics|
      invariant forall j :: 0 <= j < i ==> OrZero(metrics[j]) >= 0
    {
      if metrics[i].Some? && metrics[i].value < 0 {
        return false;
      }
    }
    assert OrZero(metrics[0]) >= 0 && OrZero(metrics[1]) >= 0 && OrZero(metrics[2]) >= 0;
    var measuredParts: Int64 := 0;
    if usage.input.Some? {
      measuredParts := measuredParts + usage.input.value;
    }
    if usage.output.Some? {
      if measuredParts > MAX_INT64 - usage.output.value {
        return false;
      }
      measuredParts := measuredParts + usage.output.value;
    }
    if usage.total.Some? && measuredParts > usage.total.value {
      return false;
    }
    ok := !(usage.output.Some? && usage.reasoning.Some? && usage.reasoning.value > usage.output.value);
  }

  predicate ValidBlock(validJson: bytes -> bool, b: ContentBlock) {
    match b.kind
    case Text => !Blank(b.text) && b.call.None? && b.answer.None?
    case Call =>
      && b.call.Some? && !Blank(b.call.value.id) && !Blank(b.call.value.name)
      && b.call.value.arguments != [] && validJson(b.call.value.arguments)
      && b.text == [] && b.answer.None?
    case Answer => false
    case UnknownContent => false
  }

  predicate ValidResponse(validJson: bytes -> bool, r: Response) {
    && r.message.role.Assistant?
    && (r.message.content == [] ==> r.stopReason in {ContentFilter, Refusal})
    && (forall i :: 0 <= i < |r.message.content| ==> ValidBlock(validJson, r.message.content[i]))
    && !r.stopReason.UnknownReason?
    && ValidUsage(r.usage)
  }

  method ValidateResponse(validJson: bytes -> bool, response: Response) returns (ok: bool)
    ensures ok <==> ValidResponse(validJson, response)
  {
    hide ValidBlock, ValidUsage;
    if !response.message.role.Assistant? {
      return false;
    }
    if response.message.content == [] && !response.stopReason.ContentFilter? && !response.stopReason.Refusal? {
      return false;
    }
    for i := 0 to |response.message.content|
      invariant forall j :: 0 <= j < i ==> ValidBlock(validJson, response.message.content[j])
    {
      if !ValidBlock(validJson, response.message.content[i]) {
        return false;
      }
    }
    if response.stopReason.UnknownReason? {
      return false;
    }
    ok := ValidateUsage(response.usage);
  }

  /* Contents of a message */

  function CallsIn(content: seq<ContentBlock>): seq<ToolCall> {
    if content == [] then []
    else
      var last := content[|content| - 1];
      CallsIn(content[..|content| - 1]) + if last.kind.Call? && last.call.Some? then [last.call.value] else []
  }

  function AnswersIn(content: seq<ContentBlock>): seq<ToolResult> {
    if content == [] then []
    else
      var last := content[|content| - 1];
      AnswersIn(content[..|content| - 1]) + if last.kind.Answer? && last.answer.Some? then [last.answer.value] else []
  }

  method MessageToolCalls(message: Message) returns (calls: seq<ToolCall>)
    ensures calls == CallsIn(message.content)
  {
    calls := [];
    var content := message.content;
    for i := 0 to |content|
      invariant calls == CallsIn(content[..i])
    {
      assert content[..i + 1][..i] == content[..i];
      if content[i].kind.Call? && content[i].call.Some? {
        calls := calls + [content[i].call.value];
      }
    }
    assert content[..|content|] == content;
  }

  method MessageToolResults(message: Message) returns (results: seq<ToolResult>)
    ensures results == AnswersIn(message.content)
  {
    results := [];
    var content := message.content;
    for i := 0 to |content|
      invariant results == AnswersIn(content[..i])
    {
      assert content[..i + 1][..i] == content[..i];
      if content[i].kind.Answer? && content[i].answer.Some? {
        results := results + [content[i].answer.value];
      }
    }
    assert content[..|content|] == content;
  }

  /** The non-blank texts of a message, one per line. */
  function TextOf(content: seq<ContentBlock>): bytes {
    if content == [] then []
    else
      var init, last := TextOf(content[..|content| - 1]), content[|content| - 1];
      if !(last.kind.Text? && !Blank(last.text)) then init
      else if init == [] then last.text
      else init + [NEWLINE] + last.text
  }
}
