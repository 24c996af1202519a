/**
 The contract between the producer of an envelope line and the reporter that captures it: whatever
 other output surrounds the line and however the stream is cut, the compacted envelope arrives whole.
 */
module StreamContract {
  import opened Prelude
  import opened Decimal
  import opened Bytes
  import opened JsonText
  import opened JsonNesting
  import opened ResultEnvelope
  import opened ResultCompact
  import opened ReporterCapture

  const SPACE: byte := 0x20

  function EnvelopeText(payload: bytes): bytes { EnvelopeLinePrefix() + [SPACE] + payload }

  datatype WriteProblem = NotCompacted(problem: Problem) | WriterFailed

  /**
   `output` adds the envelope line to `written`, or nothing when compaction has a problem. The line goes out
   in one call of the writer, which takes all of it, or reports an error after the first `failsAt` bytes.
   */
  ghost predicate AddsLine(written: bytes, compacted: Result<bytes, Problem>, failsAt: Option<nat>,
                           output: bytes, problem: Option<WriteProblem>) {
    match compacted
    case Err(error) => problem == Some(NotCompacted(error)) && output == written
    case Ok(payload) =>
      var line := EnvelopeText(payload) + [NEWLINE];
      match failsAt
      case None => problem.None? && output == written + line
      case Some(k) => problem == Some(WriterFailed) && output == written + line[..Min(k, |line|)]
  }

  method WriteEnvelopeLine(json: JsonRules, written: bytes, failsAt: Option<nat>, envelope: Envelope)
    returns (output: bytes, problem: Option<WriteProblem>)
    ensures exists compacted :: IsCompaction(json, envelope, MAX_TERMINATION_MESSAGE, compacted)
                                && AddsLine(written, compacted, failsAt, output, problem)
  {
    hide IsCompaction, EnvelopeLinePrefix;
    var compacted := Compact(json, envelope, MAX_TERMINATION_MESSAGE);
    if compacted.Err? {
      output, problem := written, Some(NotCompacted(compacted.error));
    } else {
      var line := EnvelopeLinePrefix() + [SPACE] + compacted.value + [NEWLINE];
      if failsAt.None? {
        output, problem := written + line, None;
      } else {
        output, problem := written + line[..Min(failsAt.value, |line|)], Some(WriterFailed);
      }
    }
    assert AddsLine(written, compacted, failsAt, output, problem);
  }

  /**
   A valid envelope is written as one whole line exactly when it can be encoded, can be decoded again, and
   the writer does not fail; without the first two, nothing is written.
   */
  lemma ValidEnvelopeWrittenIff(json: JsonRules, written: bytes, failsAt: Option<nat>, e: Envelope,
                                compacted: Result<bytes, Problem>, output: bytes, problem: Option<WriteProblem>)
    requires Sound(json) && Validates(json, e) && PlainTexts(e) && |Encode(json, e)| <= MAX_INT64
    requires IsCompaction(json, e, MAX_TERMINATION_MESSAGE, compacted)
    requires AddsLine(written, compacted, failsAt, output, problem)
    ensures problem.None? <==> Encodable(e) && ValuesWithin(e, MAX_DEPTH - 2) && failsAt.None?
    ensures problem.None? ==> AddsObjectLine(written, output)
    ensures !(Encodable(e) && ValuesWithin(e, MAX_DEPTH - 2)) ==> output == written
    ensures |output| <= |written| + 16 + MAX_TERMINATION_MESSAGE + 1
  {
    hide *;
    TerminationMessageFitsByContents(json, e, compacted);
    if compacted.Ok? { CompactedIsObjectLine(json, e, MAX_TERMINATION_MESSAGE, compacted); }
    AddedLine(written, compacted, failsAt, output, problem);
  }

  lemma AddedLine(written: bytes, compacted: Result<bytes, Problem>, failsAt: Option<nat>, output: bytes,
                  problem: Option<WriteProblem>)
    requires AddsLine(written, compacted, failsAt, output, problem)
    requires compacted.Ok? ==> IsObjectLine(compacted.value) && |compacted.value| <= MAX_TERMINATION_MESSAGE
    ensures problem.None? <==> compacted.Ok? && failsAt.None?
    ensures problem.None? ==> AddsObjectLine(written, output)
    ensures compacted.Err? ==> output == written
    ensures |output| <= |written| + 16 + MAX_TERMINATION_MESSAGE + 1
  {
    hide IsObjectLine, EnvelopeText, ExtractEnvelopePayload, TrimCarriageReturn, Blank;
    if compacted.Ok? { ExtractsPayload(compacted.value); }
  }

  ghost predicate AddsObjectLine(written: bytes, output: bytes) {
    exists payload :: IsObjectLine(payload) && output == written + (EnvelopeText(payload) + [NEWLINE])
  }

  /* The line of a payload */

  /** What Compact produces: one line holding one object. */
  ghost predicate IsObjectLine(payload: bytes) {
    && |payload| >= 2 && payload[0] == 0x7B && payload[|payload| - 1] == 0x7D
    && NEWLINE !in payload
  }

  lemma StagePlain(e: Envelope, originalBytes: nat, k: nat)
    requires k <= 5 && PlainTexts(e)
    ensures PlainTexts(Stage(e, originalBytes, k))
  {
    hide Ascii, ApiVersion, Failed, DetailsTruncated, TruncatedOutput, Bare, DollarsText, InstantText;
    if k > 0 { StagePlain(e, originalBytes, k - 1); }
  }

  lemma ClonePlain(json: JsonRules, e: Envelope)
    requires PlainTexts(e)
    ensures PlainTexts(Clone(json, e))
  {
    hide Bare, DollarsText, InstantText;
  }

  lemma EncodedIsObjectLine(json: JsonRules, e: Envelope)
    requires Sound(json) && Validates(json, e) && PlainTexts(e)
    ensures IsObjectLine(Encode(json, e))
  {
    EncodePrintable(json, e);
    EncodedAsObject(json, e);
    PrintableLine(Encode(json, e));
    hide Encode;
  }

  lemma PrintableLine(s: bytes)
    requires Printable(s)
    ensures NEWLINE !in s
  {
  }

  lemma CompactedIsObjectLine(json: JsonRules, e: Envelope, limit: int, r: Result<bytes, Problem>)
    requires Sound(json) && PlainTexts(e) && IsCompaction(json, e, limit, r) && r.Ok?
    ensures IsObjectLine(r.value) && |r.value| <= limit
  {
    hide Sound, Stage, Encode, Clone, Validates, PlainTexts, AdmitsLosses, LosesInOrder, Encodable, Decodes;
    if |Encode(json, e)| <= limit {
      EncodedIsObjectLine(json, e);
    } else {
      var clone, original := Clone(json, e), |Encode(json, e)|;
      var k :| IsFirstFit(json, clone, original, limit, k) && r.value == Encode(json, Stage(clone, original, k));
      StageRepresents(json, e, limit, k);
      ClonePlain(json, e);
      StagePlain(clone, original, k);
      EncodedIsObjectLine(json, Stage(clone, original, k));
    }
  }

  lemma PrefixShape()
    ensures var p := EnvelopeLinePrefix(); |p| == 15 && p[0] == 0x4B && p[14] == 0x3A && NEWLINE !in p
  {
    var s := "KONTEXT_RESULT:";
    assert |s| == 15 && s[0] == 'K' && s[14] == ':';
    forall i | 0 <= i < |s| ensures Ascii(s)[i] != NEWLINE {
      assert s[i] in s;
      assert '\n' !in s;
      assert s[i] as int != 10;
    }
  }

  /** A text between two visible ASCII characters is not trimmed. */
  lemma TrimSpaceKeeps(s: bytes)
    requires s != [] && 0x21 <= s[0] < 0x80 && 0x21 <= s[|s| - 1] < 0x80
    ensures TrimSpace(s) == s && !Blank(s)
  {
    TrimLeftKeeps(s);
    TrimRightKeeps(s);
    hide TrimLeft, TrimRight;
  }

  lemma ExtractsPayload(payload: bytes)
    requires IsObjectLine(payload)
    ensures ExtractEnvelopePayload(EnvelopeText(payload)) == Some(payload)
    ensures !Blank(EnvelopeText(payload)) && TrimCarriageReturn(EnvelopeText(payload)) == EnvelopeText(payload)
    ensures |EnvelopeText(payload)| == 16 + |payload| && NEWLINE !in EnvelopeText(payload)
  {
    PrefixShape();
    hide EnvelopeLinePrefix, TrimSpace, Blank;
    var text := EnvelopeText(payload);
    TrimSpaceKeeps(text);
    assert EnvelopeLinePrefix() <= text && text[15..] == [SPACE] + payload;
    TrimSpaceKeeps(payload);
    LeadingSpace(payload);
  }

  lemma LeadingSpace(payload: bytes)
    requires payload != [] && 0x21 <= payload[0] < 0x80
    ensures TrimSpace([SPACE] + payload) == TrimSpace(payload)
  {
    hide TrimRight;
    var t := [SPACE] + payload;
    assert SpaceLen(t) == 1 && t[1..] == payload;
    TrimLeftKeeps(payload);
    assert TrimLeft(t) == TrimLeft(t[1..]);
  }

  lemma EnvelopeLineKept(payload: bytes, maxBytes: nat)
    requires IsObjectLine(payload) && 16 + |payload| <= maxBytes
    ensures Payload(KontextEnvelope, EnvelopeText(payload), maxBytes) == Some(payload)
  {
    ExtractsPayload(payload);
    hide ExtractEnvelopePayload, EnvelopeText, Blank;
  }

  /* Lines without the prefix */

  /** The prefix survives in what follows it: trimming stops at its colon. */
  lemma {:induction false} TrimRightKeepsPrefix(p: bytes, s: bytes)
    requires p != [] && 0x21 <= p[|p| - 1] < 0x80 && p <= s
    ensures p <= TrimRight(s)
  {
    if SpaceLenAtEnd(s) > 0 {
      SpaceStaysBehind(p, s);
      TrimRightKeepsPrefix(p, s[..|s| - SpaceLenAtEnd(s)]);
    }
  }

  lemma SpaceInvisible(s: bytes, i: nat)
    requires |s| - SpaceLenAtEnd(s) <= i < |s|
    ensures !(0x21 <= s[i] < 0x80)
  {
    var n := SpaceLenAtEnd(s);
    var last := s[|s| - n..];
    assert SpaceLen(last) == n == |last|;
    assert s[i] == last[i - (|s| - n)];
  }

  lemma SpaceStaysBehind(p: bytes, s: bytes)
    requires p != [] && 0x21 <= p[|p| - 1] < 0x80 && p <= s
    ensures SpaceLenAtEnd(s) <= |s| - |p|
  {
    var n := SpaceLenAtEnd(s);
    if n > |s| - |p| {
      SpaceInvisible(s, |p| - 1);
    }
  }

  lemma {:induction false} TrimLeftOfLonger(a: bytes, b: bytes)
    requires SpaceLen(TrimLeft(a)) == 0 && TrimLeft(a) != [] && TrimLeft(a)[0] < 0x80
    ensures TrimLeft(a + b) == TrimLeft(a) + b
  {
    if SpaceLen(a) > 0 {
      SpaceLenPrefix(a, b);
      TrimLeftOfLonger(a[SpaceLen(a)..], b);
    }
  }

  /** A line whose beginning carries the prefix carries it. */
  lemma PrefixOfCut(a: bytes, b: bytes)
    requires ExtractEnvelopePayload(a).Some?
    ensures ExtractEnvelopePayload(a + b).Some?
  {
    PrefixShape();
    hide EnvelopeLinePrefix, TrimLeft, TrimRight;
    var p := EnvelopeLinePrefix();
    assert p <= TrimRight(TrimLeft(a)) <= TrimLeft(a);
    NoSpaceFirst(TrimLeft(a));
    assert TrimLeft(a)[0] == p[0];
    TrimLeftOfLonger(a, b);
    TrimRightKeepsPrefix(p, TrimLeft(a + b));
  }

  lemma NoPrefixNoPayload(text: bytes, maxBytes: nat)
    requires ExtractEnvelopePayload(text).None?
    ensures Payload(KontextEnvelope, text, maxBytes).None?
  {
    hide ExtractEnvelopePayload, Blank;
    var kept := Kept(text, maxBytes);
    assert text == kept + text[|kept|..];
    if ExtractEnvelopePayload(kept).Some? { PrefixOfCut(kept, text[|kept|..]); }
  }

  /** The complete lines, and the unfinished one, of a text that carries no envelope line. */
  ghost predicate WithoutEnvelopes(s: seq<Arrival>) {
    forall line :: line in Lines(Closed(s)) ==> ExtractEnvelopePayload(line.text).None?
  }

  /* The contract */

  lemma {:induction false} FoldSkips(maxBytes: nat, before: seq<Line>, after: seq<Line>)
    requires forall line :: line in after ==> ExtractEnvelopePayload(line.text).None?
    ensures Fold(KontextEnvelope, maxBytes, before + after) == Fold(KontextEnvelope, maxBytes, before)
  {
    hide ExtractEnvelopePayload, Payload;
    if after == [] {
      assert before + after == before;
    } else {
      var n := |after| - 1;
      assert (before + after)[..|before| + n] == before + after[..n];
      assert after[n] in after;
      NoPrefixNoPayload(after[n].text, maxBytes);
      FoldSkips(maxBytes, before, after[..n]);
    }
  }

  lemma Snoc<T>(s: seq<T>, t: seq<T>)
    requires t != []
    ensures (s + t)[..|s + t| - 1] == s + t[..|t| - 1] && (s + t)[|s + t| - 1] == t[|t| - 1]
  {
  }

  /** Lines of a stream that follows complete lines. */
  lemma {:induction false} LinesConcat(s: seq<Arrival>, t: seq<Arrival>)
    requires Rest(s) == []
    ensures Lines(s + t) == Lines(s) + Lines(t) && Rest(s + t) == Rest(t)
  {
    if t == [] {
      assert s + t == s;
    } else {
      var n := |t| - 1;
      LinesConcat(s, t[..n]);
      Snoc(s, t);
      var newLine := if t[n].value == NEWLINE then [Line(Rest(t[..n]), t[n].opens)] else [];
      Associative(Lines(s), Lines(t[..n]), newLine);
    }
  }

  lemma TerminatedLine(text: bytes, line: seq<Arrival>)
    requires NEWLINE !in text && Values(line) == text + [NEWLINE]
    ensures |line| == |text| + 1 && Lines(line) == [Line(text, line[|text|].opens)] && Rest(line) == []
  {
    hide Lines, Rest, Values;
    CutLine(text, line);
    var init := line[..|text|];
    OneLineBegun(init);
    OneNewline(init, line[|text|].opens);
    assert line == init + [line[|text|]];
  }

  lemma OneLineBegun(init: seq<Arrival>)
    requires NEWLINE !in Values(init)
    ensures Lines(init) == [] && Rest(init) == Values(init)
  {
    hide Values;
    NoNewline([], init);
    assert [] + init == init;
    assert Lines([]) == [] && Rest([]) == [];
  }

  lemma CutLine(text: bytes, line: seq<Arrival>)
    requires Values(line) == text + [NEWLINE]
    ensures |line| == |text| + 1 && Values(line[..|text|]) == text
    ensures line[|text|] == Arrival(NEWLINE, line[|text|].opens)
  {
    assert |line| == |Values(line)|;
    assert line[|text|].value == Values(line)[|text|];
    assert Values(line[..|text|]) == Values(line)[..|text|];
  }

  lemma Associative<T>(a: seq<T>, b: seq<T>, c: seq<T>)
    ensures a + (b + c) == a + b + c
  {
  }

  lemma ClosedConcat(s: seq<Arrival>, t: seq<Arrival>)
    requires Rest(s) == []
    ensures Closed(s + t) == s + Closed(t)
  {
    hide Lines, Rest;
    LinesConcat(s, t);
    Associative(s, t, [Arrival(NEWLINE, false)]);
  }

  /**
   Complete lines, the envelope line, then output without an envelope line, in any cut: a capture
   whose limit is above 4112 bytes reports exactly the bytes of Compact, untruncated.
   */
  lemma EnvelopeArrivesWhole(json: JsonRules, e: Envelope, payload: bytes, maxBytes: nat,
                             before: seq<Arrival>, line: seq<Arrival>, after: seq<Arrival>)
    requires Sound(json) && PlainTexts(e) && IsCompaction(json, e, MAX_TERMINATION_MESSAGE, Ok(payload))
    requires maxBytes > 4112
    requires Rest(before) == [] && WithoutEnvelopes(after)
    requires Values(line) == EnvelopeText(payload) + [NEWLINE]
    ensures Outcome(KontextEnvelope, maxBytes, before + line + after) ==
            CapturedResult(payload, true, false, 16 + |payload|)
  {
    CompactedIsObjectLine(json, e, MAX_TERMINATION_MESSAGE, Ok(payload));
    hide Sound, PlainTexts, IsCompaction, IsObjectLine, EnvelopeText, Values, Lines, Rest, Closed, Payload, Fold,
         ExtractEnvelopePayload, Truncated;
    CapturedWhole(payload, maxBytes, before, line, after);
  }

  lemma CapturedWhole(payload: bytes, maxBytes: nat, before: seq<Arrival>, line: seq<Arrival>, after: seq<Arrival>)
    requires IsObjectLine(payload) && 16 + |payload| < maxBytes
    requires Rest(before) == [] && WithoutEnvelopes(after)
    requires Values(line) == EnvelopeText(payload) + [NEWLINE]
    ensures Outcome(KontextEnvelope, maxBytes, before + line + after) ==
            CapturedResult(payload, true, false, 16 + |payload|)
  {
    hide IsObjectLine, EnvelopeText, Values, Lines, Rest, Closed, Payload, Fold, ExtractEnvelopePayload;
    ExtractsPayload(payload);
    var text := EnvelopeText(payload);
    TerminatedLine(text, line);
    var split := line[|text|].opens;
    LinesConcat(before, line);
    ClosedConcat(before + line, after);
    LinesConcat(before + line, Closed(after));
    FoldSkips(maxBytes, Lines(before + line), Lines(Closed(after)));
    EnvelopeLineKept(payload, maxBytes);
    FoldNext(KontextEnvelope, maxBytes, Lines(before), Line(EnvelopeText(payload), split));
  }

  /**
   The bound cannot be lowered to the length of the line: then the envelope still arrives whole, but
   is reported as truncated exactly when its newline came in a Write of its own.
   */
  lemma ExactLimitDependsOnCut(payload: bytes, opens: bool)
    requires IsObjectLine(payload)
    ensures var text := Arrivals(EnvelopeText(payload));
            Outcome(KontextEnvelope, 16 + |payload|, text + [Arrival(NEWLINE, opens)]) ==
            CapturedResult(payload, true, opens, 16 + |payload|)
  {
    ExtractsPayload(payload);
    EnvelopeLineKept(payload, 16 + |payload|);
    var text := EnvelopeText(payload);
    ArrivedLine(text, opens);
    TerminatedLine(text, Arrivals(text) + [Arrival(NEWLINE, opens)]);
    hide IsObjectLine, EnvelopeText, Values, Payload, Fold, ExtractEnvelopePayload, Arrivals, Lines, Rest;
    FoldNext(KontextEnvelope, 16 + |payload|, [], Line(text, opens));
    assert [] + [Line(text, opens)] == [Line(text, opens)];
  }

  lemma ArrivedLine(text: bytes, opens: bool)
    ensures |Arrivals(text)| == |text|
    ensures Values(Arrivals(text) + [Arrival(NEWLINE, opens)]) == text + [NEWLINE]
  {
  }
}
