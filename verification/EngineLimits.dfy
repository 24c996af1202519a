/** The budgets of an engine run, and the saturating account of the tokens it consumes. */
module EngineLimits {
  import opened Prelude
  import opened Decimal
  import opened Bytes
  import opened RuntimeApi
  import opened Utf8
  import opened ToolOutput

  /** None is no limit. */
  datatype Limits = Limits(
    tokenBudget: Option<Int64>,
    maxTurns: Option<Int64>,
    maxToolCalls: Option<Int64>,
    maxToolResultBytes: Option<Int64>,
    maxTotalToolOutputBytes: Option<Int64>)

  datatype Violation = TurnLimit | TokenLimit | ToolCallLimit | ToolOutputLimit

  predicate Reached(limit: Option<Int64>, value: int) { limit.Some? && value >= limit.value }

  predicate BatchExceeds(limit: Option<Int64>, consumed: int, requested: int) {
    limit.Some? && (limit.value - consumed < 0 || requested > limit.value - consumed)
  }

  /** At least one token is always asked for. */
  function RemainingTokenBudget(limits: Limits, consumed: int): Option<int> {
    if limits.tokenBudget.None? then None else Some(Max(1, limits.tokenBudget.value - consumed))
  }

  function CheckBeforeToolBatch(limits: Limits, consumed: int, turns: nat, toolCalls: nat, outputBytes: int,
                                requested: nat): Option<Violation> {
    if Reached(limits.tokenBudget, consumed) then Some(TokenLimit)
    else if Reached(limits.maxTurns, turns) then Some(TurnLimit)
    else if BatchExceeds(limits.maxToolCalls, toolCalls, requested) then Some(ToolCallLimit)
    else if Reached(limits.maxTotalToolOutputBytes, outputBytes) then Some(ToolOutputLimit)
    else None
  }

  /** What is left for one result of `size` bytes. */
  function OutputLimit(limits: Limits, size: nat, totalBytes: int): int {
    var own := if limits.maxToolResultBytes.Some? then Min(size, limits.maxToolResultBytes.value) else size;
    Max(0, if limits.maxTotalToolOutputBytes.Some? then Min(own, limits.maxTotalToolOutputBytes.value - totalBytes)
           else own)
  }

  function BoundedResult(limits: Limits, result: ToolResult, totalBytes: int): ToolResult {
    var (content, truncated) := Bounded(result.content, OutputLimit(limits, |result.content|, totalBytes));
    if truncated then result.(content := content, truncated := true) else result
  }

  method ApplyToolOutput(limits: Limits, result: ToolResult, totalBytes: int)
    returns (bounded: ToolResult, newTotal: int)
    ensures bounded == BoundedResult(limits, result, totalBytes)
    ensures newTotal == totalBytes + |bounded.content|
  {
    var maxBytes: int := |result.content|;
    if limits.maxToolResultBytes.Some? && limits.maxToolResultBytes.value < maxBytes {
      maxBytes := limits.maxToolResultBytes.value;
    }
    if limits.maxTotalToolOutputBytes.Some? {
      var remaining := limits.maxTotalToolOutputBytes.value - totalBytes;
      if remaining < maxBytes {
        maxBytes := remaining;
      }
    }
    if maxBytes < 0 {
      maxBytes := 0;
    }
    hide IsBound, Bounded;
    var content, truncated := Bound(result.content, maxBytes);
    BoundedIs(result.content, maxBytes, content, truncated);
    bounded := result;
    if truncated {
      bounded := bounded.(content := content, truncated := true);
    }
    newTotal := totalBytes + |bounded.content|;
  }

  lemma BoundedIs(value: bytes, limit: int, content: bytes, truncated: bool)
    requires IsBound(value, limit, content, truncated)
    ensures Bounded(value, limit) == (content, truncated)
  {
    var b := Bounded(value, limit);
    BoundUnique(value, limit, content, truncated, b.0, b.1);
  }

  /** A bounded result respects both limits, and keeps its identity. */
  lemma BoundedWithinLimits(limits: Limits, result: ToolResult, totalBytes: int)
    ensures var r := BoundedResult(limits, result, totalBytes);
            && (limits.maxToolResultBytes.Some? ==> |r.content| <= Max(0, limits.maxToolResultBytes.value))
            && (limits.maxTotalToolOutputBytes.Some? ==>
                  |r.content| <= Max(0, limits.maxTotalToolOutputBytes.value - totalBytes))
            && r.callId == result.callId && r.name == result.name
            && r.isError == result.isError && r.errorCode == result.errorCode
  {
    var limit := OutputLimit(limits, |result.content|, totalBytes);
    var b := Bounded(result.content, limit);
    BoundWithinLimit(result.content, limit, b.0, b.1);
    UntruncatedWithin(result.content, limit, b);
    hide IsBound, Bounded;
  }

  /** `room` is the least of the size and what the two limits leave, and not negative. */
  predicate IsRoom(limits: Limits, size: nat, totalBytes: int, room: nat) {
    var own := if limits.maxToolResultBytes.Some? then Max(0, limits.maxToolResultBytes.value) else size;
    var left := if limits.maxTotalToolOutputBytes.Some? then Max(0, limits.maxTotalToolOutputBytes.value - totalBytes) else size;
    room <= size && room <= own && room <= left && room in {size, own, left}
  }

  /** A result that fits is left alone; of another the content is bounded to the room there is, and flagged. */
  lemma BoundedToRoom(limits: Limits, result: ToolResult, totalBytes: int)
    ensures exists room: nat ::
              && IsRoom(limits, |result.content|, totalBytes, room)
              && var r := BoundedResult(limits, result, totalBytes);
                 if Valid(result.content) && room == |result.content| then r == result
                 else r.truncated && IsBound(result.content, room, r.content, true)
  {
    var limit := OutputLimit(limits, |result.content|, totalBytes);
    assert IsRoom(limits, |result.content|, totalBytes, limit);
    BoundTruncates(result.content, limit, Bounded(result.content, limit));
    hide IsBound, Bounded, IsRoom, OutputLimit, Valid;
  }

  lemma BoundTruncates(value: bytes, limit: int, b: (bytes, bool))
    requires IsBound(value, limit, b.0, b.1)
    ensures b.1 <==> !(Valid(value) && |value| <= limit)
    ensures !b.1 ==> b.0 == value
  {
  }

  lemma UntruncatedWithin(value: bytes, limit: int, b: (bytes, bool))
    requires IsBound(value, limit, b.0, b.1)
    ensures !b.1 ==> b.0 == value
  {
  }

  /* Tokens */

  function SaturatingAdd(left: Int64, right: Int64): (sum: Int64)
    ensures sum == Max(-MAX_INT64 - 1, Min(MAX_INT64, left + right))
  {
    if right > 0 && left > MAX_INT64 - right then MAX_INT64
    else if right < 0 && left < -MAX_INT64 - 1 - right then -MAX_INT64 - 1
    else left + right
  }

  /** What a response counts for: its total, or the sum of its parts when that is larger. */
  function TokensOf(u: Usage): int { Max(OrZero(u.total), OrZero(u.input) + OrZero(u.output)) }

  method MeasuredTokens(usage: Usage) returns (tokens: Int64)
    requires ValidUsage(usage)
    ensures tokens == TokensOf(usage) >= 0
  {
    hide ValidUsage;
    UsageNotNegative(usage);
    var measuredParts: Int64 := 0;
    if usage.input.Some? {
      measuredParts := SaturatingAdd(measuredParts, usage.input.value);
    }
    if usage.output.Some? {
      measuredParts := SaturatingAdd(measuredParts, usage.output.value);
    }
    if usage.total.Some? && usage.total.value > measuredParts {
      return usage.total.value;
    }
    tokens := measuredParts;
  }

  lemma UsageNotNegative(u: Usage)
    requires ValidUsage(u)
    ensures OrZero(u.input) >= 0 && OrZero(u.output) >= 0 && OrZero(u.total) >= 0 && OrZero(u.reasoning) >= 0
    ensures OrZero(u.input) + OrZero(u.output) <= MAX_INT64 && 0 <= TokensOf(u) <= MAX_INT64
  {
    var m := Metrics(u);
    assert OrZero(m[0]) >= 0 && OrZero(m[1]) >= 0 && OrZero(m[2]) >= 0 && OrZero(m[3]) >= 0;
  }

  function AddMetric(total: Option<Int64>, current: Option<Int64>): Option<Int64> {
    if current.None? then total
    else if total.None? then current
    else Some(SaturatingAdd(total.value, current.value))
  }

  function AddUsage(total: Usage, current: Usage): Usage {
    Usage(AddMetric(total.input, current.input), AddMetric(total.output, current.output),
          AddMetric(total.total, current.total), AddMetric(total.reasoning, current.reasoning))
  }

  const NO_USAGE := Usage(None, None, None, None)

  /* The account over a run */

  ghost predicate AllValid(usages: seq<Usage>) {
    forall i :: 0 <= i < |usages| ==> ValidUsage(usages[i])
  }

  /** The tokens of all responses, without a bound. */
  function TrueTokens(usages: seq<Usage>): int {
    if usages == [] then 0 else TrueTokens(usages[..|usages| - 1]) + TokensOf(usages[|usages| - 1])
  }

  function ConsumedTokens(usages: seq<Usage>): Int64 {
    if usages == [] then 0
    else
      var last := TokensOf(usages[|usages| - 1]);
      SaturatingAdd(ConsumedTokens(usages[..|usages| - 1]), if last > MAX_INT64 then MAX_INT64 else Max(0, last))
  }

  function SummedUsage(usages: seq<Usage>): Usage {
    if usages == [] then NO_USAGE else AddUsage(SummedUsage(usages[..|usages| - 1]), usages[|usages| - 1])
  }

  /** The saturating account is the true sum, cut off at the largest int64. */
  lemma {:induction false} ConsumedIsTrueSum(usages: seq<Usage>)
    requires AllValid(usages)
    ensures TrueTokens(usages) >= 0
    ensures ConsumedTokens(usages) == Min(MAX_INT64, TrueTokens(usages))
  {
    if usages != [] {
      ConsumedIsTrueSum(usages[..|usages| - 1]);
      UsageNotNegative(usages[|usages| - 1]);
    }
    hide ValidUsage;
  }

  function TrueSum(metrics: seq<Option<Int64>>): int {
    if metrics == [] then 0 else TrueSum(metrics[..|metrics| - 1]) + OrZero(metrics[|metrics| - 1])
  }

  /** None when nobody reports the metric, else the true sum of what is reported, cut off at the largest int64. */
  ghost predicate IsSum(total: Option<Int64>, metrics: seq<Option<Int64>>) {
    && (total.None? <==> forall i :: 0 <= i < |metrics| ==> metrics[i].None?)
    && TrueSum(metrics) >= 0
    && (total.Some? ==> total.value == Min(MAX_INT64, TrueSum(metrics)))
    && (total.None? ==> TrueSum(metrics) == 0)
  }

  lemma SumsNext(total: Option<Int64>, metrics: seq<Option<Int64>>, m: Option<Int64>)
    requires IsSum(total, metrics) && OrZero(m) >= 0
    ensures IsSum(AddMetric(total, m), metrics + [m])
  {
    var all := metrics + [m];
    assert all[..|metrics|] == metrics && all[|metrics|] == m;
    if AddMetric(total, m).None? {
      assert forall i :: 0 <= i < |all| ==> all[i].None?;
    } else if m.None? {
      var i :| 0 <= i < |metrics| && metrics[i].Some?;
      assert all[i].Some?;
    }
  }

  function InputOf(u: Usage): Option<Int64> { u.input }
  function OutputOf(u: Usage): Option<Int64> { u.output }
  function TotalOf(u: Usage): Option<Int64> { u.total }
  function ReasoningOf(u: Usage): Option<Int64> { u.reasoning }

  function Column(usages: seq<Usage>, metric: Usage -> Option<Int64>): seq<Option<Int64>> {
    seq(|usages|, i requires 0 <= i < |usages| => metric(usages[i]))
  }

  /** The summed usage has, of each metric, the true sum of what the responses report. */
  lemma {:induction false} UsageIsTrueSum(usages: seq<Usage>)
    requires AllValid(usages)
    ensures var u := SummedUsage(usages);
            && IsSum(u.input, Column(usages, InputOf)) && IsSum(u.output, Column(usages, OutputOf))
            && IsSum(u.total, Column(usages, TotalOf)) && IsSum(u.reasoning, Column(usages, ReasoningOf))
  {
    hide ValidUsage, IsSum, AddMetric;
    if usages == [] {
      NothingSummed();
      assert Column(usages, InputOf) == Column(usages, OutputOf) == Column(usages, TotalOf) == Column(usages, ReasoningOf) == [];
    } else {
      var n := |usages| - 1;
      UsageIsTrueSum(usages[..n]);
      UsageNotNegative(usages[n]);
      var last, sum := usages[n], SummedUsage(usages[..n]);
      ColumnNext(usages, InputOf);
      ColumnNext(usages, OutputOf);
      ColumnNext(usages, TotalOf);
      ColumnNext(usages, ReasoningOf);
      SumsNext(sum.input, Column(usages[..n], InputOf), last.input);
      SumsNext(sum.output, Column(usages[..n], OutputOf), last.output);
      SumsNext(sum.total, Column(usages[..n], TotalOf), last.total);
      SumsNext(sum.reasoning, Column(usages[..n], ReasoningOf), last.reasoning);
    }
  }

  lemma NothingSummed()
    ensures IsSum(None, [])
  {
  }

  lemma ColumnNext(usages: seq<Usage>, metric: Usage -> Option<Int64>)
    requires usages != []
    ensures Column(usages, metric) == Column(usages[..|usages| - 1], metric) + [metric(usages[|usages| - 1])]
  {
  }

  /** Whoever reports reasoning tokens reports output tokens too. */
  ghost predicate ReasoningWithOutput(usages: seq<Usage>) {
    forall i :: 0 <= i < |usages| && usages[i].reasoning.Some? ==> usages[i].output.Some?
  }

  /** The summed usage that a result carries passes the same reasoning rule as each response. */
  lemma {:induction false} SummedReasoningWithinOutput(usages: seq<Usage>)
    requires AllValid(usages) && ReasoningWithOutput(usages)
    ensures var u := SummedUsage(usages);
            && (u.reasoning.Some? ==> u.output.Some? && 0 <= u.reasoning.value <= u.output.value)
            && OrZero(u.output) >= 0
  {
    if usages != [] {
      var init, last := usages[..|usages| - 1], usages[|usages| - 1];
      assert forall i :: 0 <= i < |init| ==> init[i] == usages[i];
      SummedReasoningWithinOutput(init);
      UsageNotNegative(last);
      assert last.reasoning.Some? ==> last.output.Some?;
      assert last.reasoning.Some? && last.output.Some? ==> last.reasoning.value <= last.output.value;
    }
    hide ValidUsage;
  }

  /** The rule that a result envelope is held to. */
  predicate ReasoningRule(u: Usage) {
    u.output.Some? && u.reasoning.Some? ==> u.reasoning.value <= u.output.value
  }

  /** Which of the two metrics a response reports. */
  datatype Report = Report(output: bool, reasoning: bool)

  ghost predicate Matches(usages: seq<Usage>, pattern: seq<Report>) {
    && |usages| == |pattern|
    && forall i :: 0 <= i < |pattern| ==>
         (usages[i].output.Some? <==> pattern[i].output) && (usages[i].reasoning.Some? <==> pattern[i].reasoning)
  }

  ghost predicate JointReports(pattern: seq<Report>) {
    forall i :: 0 <= i < |pattern| && pattern[i].reasoning ==> pattern[i].output
  }

  ghost predicate NoOutputs(pattern: seq<Report>) { forall i :: 0 <= i < |pattern| ==> !pattern[i].output }

  /**
   Exactly which ways of reporting keep the summed usage of valid responses within the rule: whoever
   reports reasoning tokens reports output tokens too, or nobody reports output tokens at all.
   */
  lemma ReportsKeepRuleIff(pattern: seq<Report>)
    ensures (forall usages :: AllValid(usages) && Matches(usages, pattern) ==> ReasoningRule(SummedUsage(usages)))
       <==> JointReports(pattern) || NoOutputs(pattern)
  {
    hide AllValid, Matches, ReasoningRule;
    if JointReports(pattern) || NoOutputs(pattern) {
      forall usages | AllValid(usages) && Matches(usages, pattern) ensures ReasoningRule(SummedUsage(usages)) {
        ReportsKeepRule(usages, pattern);
      }
    } else {
      var i :| 0 <= i < |pattern| && pattern[i].reasoning && !pattern[i].output;
      var j :| 0 <= j < |pattern| && pattern[j].output;
      BreakingUsages(pattern, i, j);
      assert exists usages :: AllValid(usages) && Matches(usages, pattern) && !ReasoningRule(SummedUsage(usages)) by {
        assert !ReasoningRule(SummedUsage(Breaking(pattern, i)));
      }
    }
  }

  lemma ReportsKeepRule(usages: seq<Usage>, pattern: seq<Report>)
    requires AllValid(usages) && Matches(usages, pattern) && (JointReports(pattern) || NoOutputs(pattern))
    ensures ReasoningRule(SummedUsage(usages))
  {
    if NoOutputs(pattern) {
      NoOutputSummed(usages);
    } else {
      SummedReasoningWithinOutput(usages);
    }
    hide SummedUsage, ValidUsage;
  }

  lemma {:induction false} NoOutputSummed(usages: seq<Usage>)
    requires forall i :: 0 <= i < |usages| ==> usages[i].output.None?
    ensures SummedUsage(usages).output.None?
  {
    if usages != [] { NoOutputSummed(usages[..|usages| - 1]); }
  }

  /** Zero everywhere but for one reasoning token in response `i`. */
  function Breaking(pattern: seq<Report>, i: nat): seq<Usage> {
    seq(|pattern|, k requires 0 <= k < |pattern| =>
      Usage(None, if pattern[k].output then Some(0) else None, None,
            if pattern[k].reasoning then Some(if k == i then 1 else 0) else None))
  }

  lemma BreakingUsages(pattern: seq<Report>, i: nat, j: nat)
    requires i < |pattern| && pattern[i].reasoning && !pattern[i].output && j < |pattern| && pattern[j].output
    ensures AllValid(Breaking(pattern, i)) && Matches(Breaking(pattern, i), pattern)
    ensures !ReasoningRule(SummedUsage(Breaking(pattern, i)))
  {
    var usages := Breaking(pattern, i);
    forall k | 0 <= k < |usages| ensures ValidUsage(usages[k]) { ZeroUsageValid(pattern, i, k); }
    BreakingSum(pattern, i, |pattern|);
    assert usages[..|pattern|] == usages;
    hide SummedUsage, ValidUsage;
  }

  lemma ZeroUsageValid(pattern: seq<Report>, i: nat, k: nat)
    requires i < |pattern| && pattern[i].reasoning && !pattern[i].output && k < |pattern|
    ensures ValidUsage(Breaking(pattern, i)[k])
  {
  }

  lemma {:induction false} BreakingSum(pattern: seq<Report>, i: nat, n: nat)
    requires i < |pattern| && pattern[i].reasoning && n <= |pattern|
    ensures var u := SummedUsage(Breaking(pattern, i)[..n]);
            && (u.output.Some? <==> exists k :: 0 <= k < n && pattern[k].output)
            && OrZero(u.output) == 0
            && (i < n ==> u.reasoning == Some(1)) && (i >= n ==> OrZero(u.reasoning) == 0)
  {
    if n > 0 {
      BreakingSum(pattern, i, n - 1);
      assert Breaking(pattern, i)[..n][..n - 1] == Breaking(pattern, i)[..n - 1];
    }
  }
}
