/** Compaction of a result envelope to a byte limit: least status-relevant data goes first. */
module ResultCompact {
  import opened Prelude
  import opened Decimal
  import opened Bytes
  import opened Utf8
  import opened JsonText
  import opened JsonNesting
  import opened ResultEnvelope

  function TruncatedMediaType(): bytes { Ascii("application/vnd.kontext.truncated+json") }

  function DetailsTruncated(): bytes { Ascii("result error details truncated") }

  function TruncatedOutput(): Output { Output(TruncatedMediaType(), TruncatedValue()) }

  datatype Problem = BadLimit | InvalidEnvelope | NotEncodable | NotDecodable | DoesNotFit

  /* The stages, each applied to what the one before left */

  function WithRecord(e: Envelope, originalBytes: nat): Envelope {
    e.(truncation := Some(Truncation(originalBytes, false, false, false)))
  }

  function WithoutExtensions(e: Envelope): Envelope
    requires e.truncation.Some?
  {
    if e.extensions == [] then e
    else e.(extensions := [], truncation := Some(e.truncation.value.(extensionsTruncated := true)))
  }

  function WithoutArtifacts(e: Envelope): Envelope
    requires e.truncation.Some?
  {
    if e.artifacts == [] then e
    else e.(artifacts := [], truncation := Some(e.truncation.value.(artifactsTruncated := true)))
  }

  function WithoutOutput(e: Envelope): Envelope
    requires e.truncation.Some?
  {
    if e.output.None? then e
    else e.(output := Some(TruncatedOutput()), truncation := Some(e.truncation.value.(outputTruncated := true)))
  }

  function WithoutDetails(e: Envelope): Envelope {
    e.(error := if e.error.None? then None
                else Some(e.error.value.(code := [], message := DetailsTruncated())),
       execution := None, timing := None)
  }

  function Minimal(e: Envelope): Envelope {
    Envelope(ApiVersion(), e.outcome, None, None, None, None,
             if e.outcome == Failed() then Some(ErrorInfo([], DetailsTruncated(), None)) else None,
             [], [], e.truncation)
  }

  /** Stage 0 only records the truncation; stages 1 to 5 drop something more each. */
  function Stage(e: Envelope, originalBytes: nat, k: nat): (r: Envelope)
    requires k <= 5
    ensures r.truncation.Some?
  {
    if k == 0 then WithRecord(e, originalBytes)
    else
      var before := Stage(e, originalBytes, k - 1);
      if k == 1 then WithoutExtensions(before)
      else if k == 2 then WithoutArtifacts(before)
      else if k == 3 then WithoutOutput(before)
      else if k == 4 then WithoutDetails(before)
      else Minimal(before)
  }

  /** Stages 1 to 3 are tried only when there is something to drop. */
  predicate Tried(e: Envelope, k: nat) {
    if k == 1 then e.extensions != []
    else if k == 2 then e.artifacts != []
    else if k == 3 then e.output.Some?
    else k == 4 || k == 5
  }

  predicate MarshalsWithin(json: JsonRules, e: Envelope, limit: int) { Encodable(e) && |Encode(json, e)| <= limit }

  /** Each of the first `k` stages that is tried is too long. */
  ghost predicate NothingFits(json: JsonRules, e: Envelope, originalBytes: nat, limit: int, k: nat)
    requires k <= 5
  {
    forall j :: 1 <= j <= k && Tried(e, j) ==> !MarshalsWithin(json, Stage(e, originalBytes, j), limit)
  }

  /** `k` is the first stage that is tried and fits. */
  ghost predicate IsFirstFit(json: JsonRules, e: Envelope, originalBytes: nat, limit: int, k: nat) {
    && 1 <= k <= 5 && Tried(e, k) && MarshalsWithin(json, Stage(e, originalBytes, k), limit)
    && NothingFits(json, e, originalBytes, limit, k - 1)
  }

  /** The contract of Compact. */
  ghost predicate IsCompaction(json: JsonRules, e: Envelope, limit: int, r: Result<bytes, Problem>) {
    if limit <= 0 then r == Err(BadLimit)
    else if !Validates(json, e) then r == Err(InvalidEnvelope)
    else if !Encodable(e) then r == Err(NotEncodable)
    else
      var original := Encode(json, e);
      if |original| <= limit then r == Ok(original)
      else if !Decodes(json, e) then r == Err(NotDecodable)
      else
        var clone := Clone(json, e);
        match r
        case Ok(encoded) => exists k :: IsFirstFit(json, clone, |original|, limit, k)
                              && encoded == Encode(json, Stage(clone, |original|, k))
        case Err(problem) => problem == DoesNotFit && NothingFits(json, clone, |original|, limit, 5)
  }

  lemma NextStage(e: Envelope, originalBytes: nat, k: nat)
    requires k <= 5
    ensures if k == 0 then Stage(e, originalBytes, 0) == WithRecord(e, originalBytes)
            else
              var before := Stage(e, originalBytes, k - 1);
              Stage(e, originalBytes, k) ==
              if k == 1 then WithoutExtensions(before)
              else if k == 2 then WithoutArtifacts(before)
              else if k == 3 then WithoutOutput(before)
              else if k == 4 then WithoutDetails(before)
              else Minimal(before)
  {
    hide WithRecord, WithoutExtensions, WithoutArtifacts, WithoutOutput, WithoutDetails, Minimal;
  }

  /** Stage `k` was skipped, or was too long. */
  lemma Rejected(json: JsonRules, e: Envelope, originalBytes: nat, limit: int, k: nat)
    requires 1 <= k <= 5 && NothingFits(json, e, originalBytes, limit, k - 1)
    requires Tried(e, k) ==> !MarshalsWithin(json, Stage(e, originalBytes, k), limit)
    ensures NothingFits(json, e, originalBytes, limit, k)
  {
    hide MarshalsWithin, Stage, Tried;
  }

  lemma NothingTried(json: JsonRules, e: Envelope, originalBytes: nat, limit: int)
    ensures NothingFits(json, e, originalBytes, limit, 0)
  {
  }

  /** The envelope passes every test that comes before the stages. */
  predicate NeedsStages(json: JsonRules, e: Envelope, limit: int) {
    limit > 0 && Validates(json, e) && Encodable(e) && |Encode(json, e)| > limit && Decodes(json, e)
  }

  /** The ways out that choose no stage. */
  lemma NoStage(json: JsonRules, e: Envelope, limit: int)
    ensures limit <= 0 ==> IsCompaction(json, e, limit, Err(BadLimit))
    ensures limit > 0 && !Validates(json, e) ==> IsCompaction(json, e, limit, Err(InvalidEnvelope))
    ensures limit > 0 && Validates(json, e) && !Encodable(e) ==> IsCompaction(json, e, limit, Err(NotEncodable))
    ensures (limit > 0 && Validates(json, e) && MarshalsWithin(json, e, limit) ==>
               IsCompaction(json, e, limit, Ok(Encode(json, e))))
    ensures (limit > 0 && Validates(json, e) && Encodable(e) && |Encode(json, e)| > limit && !Decodes(json, e) ==>
               IsCompaction(json, e, limit, Err(NotDecodable)))
    ensures (NeedsStages(json, e, limit) && NothingFits(json, Clone(json, e), |Encode(json, e)|, limit, 5) ==>
               IsCompaction(json, e, limit, Err(DoesNotFit)))
  {
    hide Encode, Stage, IsFirstFit, Clone, Validates, NothingFits, Encodable, Decodes;
  }

  lemma Accepted(json: JsonRules, e: Envelope, limit: int, k: nat, encoded: bytes)
    requires NeedsStages(json, e, limit)
    requires IsFirstFit(json, Clone(json, e), |Encode(json, e)|, limit, k)
    requires encoded == Encode(json, Stage(Clone(json, e), |Encode(json, e)|, k))
    ensures IsCompaction(json, e, limit, Ok(encoded))
  {
    hide Encode, Stage, IsFirstFit, Clone, Validates, Encodable, Decodes;
  }

  method TryMarshal(json: JsonRules, envelope: Envelope, maxBytes: int) returns (encoded: bytes, ok: bool)
    ensures ok <==> MarshalsWithin(json, envelope, maxBytes)
    ensures ok ==> encoded == Encode(json, envelope)
  {
    hide Encode, Encodable;
    ok := Encodable(envelope);
    encoded := if ok then Encode(json, envelope) else [];
    ok := ok && |encoded| <= maxBytes;
  }

  /** Stages 4 and 5, on what the stages before left. */
  method CompactDetails(json: JsonRules, ghost envelope: Envelope, stripped: Envelope, originalBytes: nat, maxBytes: int)
    returns (r: Result<bytes, Problem>)
    requires NeedsStages(json, envelope, maxBytes) && originalBytes == |Encode(json, envelope)|
    requires NothingFits(json, Clone(json, envelope), originalBytes, maxBytes, 3)
    requires stripped == Stage(Clone(json, envelope), originalBytes, 3)
    ensures IsCompaction(json, envelope, maxBytes, r)
  {
    hide Encode, Clone, Validates, Encodable, Decodes, MarshalsWithin, TruncatedOutput, DetailsTruncated, ApiVersion, Failed,
         Stage, NothingFits, IsCompaction, NeedsStages;
    NoStage(json, envelope, maxBytes);
    var compacted := stripped;
    ghost var clone := Clone(json, envelope);
    NextStage(clone, originalBytes, 4);
    if compacted.error.Some? {
      compacted := compacted.(error := Some(compacted.error.value.(code := [], message := DetailsTruncated())));
    }
    compacted := compacted.(execution := None, timing := None);
    var encoded, ok := TryMarshal(json, compacted, maxBytes);
    assert compacted == Stage(clone, originalBytes, 4);
    NextStage(clone, originalBytes, 5);
    if ok {
      Accepted(json, envelope, maxBytes, 4, encoded);
      return Ok(encoded);
    }
    Rejected(json, clone, originalBytes, maxBytes, 4);
    var minimal := Envelope(ApiVersion(), compacted.outcome, None, None, None, None, None, [], [],
                            compacted.truncation);
    if minimal.outcome == Failed() {
      minimal := minimal.(error := Some(ErrorInfo([], DetailsTruncated(), None)));
    }
    encoded, ok := TryMarshal(json, minimal, maxBytes);
    assert minimal == Stage(clone, originalBytes, 5);
    if ok {
      Accepted(json, envelope, maxBytes, 5, encoded);
      return Ok(encoded);
    }
    Rejected(json, clone, originalBytes, maxBytes, 5);
    r := Err(DoesNotFit);
  }

  method Compact(json: JsonRules, envelope: Envelope, maxBytes: int) returns (r: Result<bytes, Problem>)
    ensures IsCompaction(json, envelope, maxBytes, r)
  {
    hide Encode, Clone, Validates, Encodable, Decodes, TruncatedOutput, DetailsTruncated, ApiVersion, Failed, Stage,
         NothingFits, IsCompaction;
    NoStage(json, envelope, maxBytes);
    if maxBytes <= 0 {
      return Err(BadLimit);
    }
    if !Validates(json, envelope) {
      return Err(InvalidEnvelope);
    }
    if !Encodable(envelope) {
      return Err(NotEncodable);
    }
    var original := Encode(json, envelope);
    if |original| <= maxBytes {
      return Ok(original);
    }
    if !Decodes(json, envelope) {
      return Err(NotDecodable);
    }
    assert NeedsStages(json, envelope, maxBytes);
    hide MarshalsWithin, NeedsStages;
    var compacted := Clone(json, envelope);
    ghost var clone := compacted;
    NothingTried(json, clone, |original|, maxBytes);
    compacted := compacted.(truncation := Some(Truncation(|original|, false, false, false)));
    NextStage(clone, |original|, 0);
    assert compacted == Stage(clone, |original|, 0);
    NextStage(clone, |original|, 1);
    var encoded, ok;
    if |compacted.extensions| > 0 {
      compacted := compacted.(extensions := [],
                              truncation := Some(compacted.truncation.value.(extensionsTruncated := true)));
      encoded, ok := TryMarshal(json, compacted, maxBytes);
      if ok {
        Accepted(json, envelope, maxBytes, 1, encoded);
        return Ok(encoded);
      }
    }
    assert compacted == Stage(clone, |original|, 1);
    Rejected(json, clone, |original|, maxBytes, 1);
    NextStage(clone, |original|, 2);
    if |compacted.artifacts| > 0 {
      compacted := compacted.(artifacts := [],
                              truncation := Some(compacted.truncation.value.(artifactsTruncated := true)));
      encoded, ok := TryMarshal(json, compacted, maxBytes);
      if ok {
        Accepted(json, envelope, maxBytes, 2, encoded);
        return Ok(encoded);
      }
    }
    assert compacted == Stage(clone, |original|, 2);
    Rejected(json, clone, |original|, maxBytes, 2);
    NextStage(clone, |original|, 3);
    if compacted.output.Some? {
      compacted := compacted.(output := Some(TruncatedOutput()),
                              truncation := Some(compacted.truncation.value.(outputTruncated := true)));
      encoded, ok := TryMarshal(json, compacted, maxBytes);
      if ok {
        Accepted(json, envelope, maxBytes, 3, encoded);
        return Ok(encoded);
      }
    }
    assert compacted == Stage(clone, |original|, 3);
    Rejected(json, clone, |original|, maxBytes, 3);
    r := CompactDetails(json, envelope, compacted, |original|, maxBytes);
  }

  lemma CompactionUnique(json: JsonRules, e: Envelope, limit: int, r: Result<bytes, Problem>, q: Result<bytes, Problem>)
    requires IsCompaction(json, e, limit, r) && IsCompaction(json, e, limit, q)
    ensures r == q
  {
    hide Encode, Clone, Validates, Encodable, Decodes, Stage, MarshalsWithin;
  }

  /* What is lost, and that it is said */

  /** `x` is `e` with losses that its truncation record admits. */
  ghost predicate AdmitsLosses(e: Envelope, x: Envelope, originalBytes: nat) {
    && x.outcome == e.outcome && x.truncation.Some? && x.truncation.value.originalBytes == originalBytes
    && (x.output == e.output
        || (x.truncation.value.outputTruncated && e.output.Some? && x.output in {Some(TruncatedOutput()), None}))
    && (x.artifacts == e.artifacts || (x.truncation.value.artifactsTruncated && x.artifacts == []))
    && (x.extensions == e.extensions || (x.truncation.value.extensionsTruncated && x.extensions == []))
    && (x.truncation.value.outputTruncated ==> e.output.Some?)
    && (x.truncation.value.artifactsTruncated ==> e.artifacts != [])
    && (x.truncation.value.extensionsTruncated ==> e.extensions != [])
  }

  /** Data goes in order: artifacts after extensions, output after artifacts, details last. */
  ghost predicate LosesInOrder(e: Envelope, x: Envelope) {
    && (x.artifacts != e.artifacts ==> x.extensions == [])
    && (x.output != e.output ==> x.extensions == [] && x.artifacts == [])
    && (x.error != e.error || x.execution != e.execution || x.timing != e.timing || x.usage != e.usage ==>
          x.extensions == [] && x.artifacts == [] && (e.output.Some? ==> x.output != e.output || e.output == Some(TruncatedOutput())))
  }

  lemma StageAdmitsLosses(e: Envelope, originalBytes: nat, k: nat)
    requires 1 <= k <= 5 && e.apiVersion == ApiVersion()
    ensures AdmitsLosses(e, Stage(e, originalBytes, k), originalBytes)
    ensures LosesInOrder(e, Stage(e, originalBytes, k))
  {
    hide *;
    if k <= 2 {
      EarlyAdmitsLosses(e, originalBytes, k);
    } else {
      LateAdmitsLosses(e, originalBytes, k);
    }
  }

  lemma EarlyAdmitsLosses(e: Envelope, originalBytes: nat, k: nat)
    requires 1 <= k <= 2
    ensures AdmitsLosses(e, Stage(e, originalBytes, k), originalBytes)
    ensures LosesInOrder(e, Stage(e, originalBytes, k))
  {
    hide TruncatedOutput, DetailsTruncated, ApiVersion, Failed, Minimal, WithoutDetails, WithoutOutput;
    var s1 := Stage(e, originalBytes, 1);
    assert Stage(e, originalBytes, 0) == WithRecord(e, originalBytes);
    assert s1 == WithoutExtensions(WithRecord(e, originalBytes));
  }

  /** Everything that stages 1 to 3 drop. */
  lemma ThirdStage(e: Envelope, originalBytes: nat)
    ensures Stage(e, originalBytes, 3) ==
            e.(extensions := [], artifacts := [],
               output := if e.output.None? then None else Some(TruncatedOutput()),
               truncation := Some(Truncation(originalBytes, e.output.Some?, e.artifacts != [], e.extensions != [])))
  {
    hide TruncatedOutput, DetailsTruncated, ApiVersion, Failed, Minimal, WithoutDetails;
    var s1 := Stage(e, originalBytes, 1);
    var s2 := Stage(e, originalBytes, 2);
    assert Stage(e, originalBytes, 0) == WithRecord(e, originalBytes);
    assert s1 == WithoutExtensions(WithRecord(e, originalBytes));
    assert s2 == WithoutArtifacts(s1);
  }

  lemma LateAdmitsLosses(e: Envelope, originalBytes: nat, k: nat)
    requires 3 <= k <= 5
    ensures AdmitsLosses(e, Stage(e, originalBytes, k), originalBytes)
    ensures LosesInOrder(e, Stage(e, originalBytes, k))
  {
    hide TruncatedOutput, DetailsTruncated, ApiVersion, Failed, WithoutOutput, WithoutArtifacts, WithoutExtensions;
    ThirdStage(e, originalBytes);
    var s4 := Stage(e, originalBytes, 4);
    assert s4 == WithoutDetails(Stage(e, originalBytes, 3));
  }

  lemma TruncatedOutputValid(json: JsonRules)
    requires Sound(json)
    ensures ValidOutput(json, TruncatedOutput())
    ensures !Blank(DetailsTruncated())
  {
    hide Ascii, TruncatedValue, Printable, Blank;
    AsciiNotBlank("application/vnd.kontext.truncated+json");
    AsciiNotBlank("result error details truncated");
    MarkerValid(json);
  }

  lemma MarkerValid(json: JsonRules)
    requires Sound(json)
    ensures json.valid(TruncatedValue()) && !Blank(TruncatedValue())
  {
    hide Ascii, TruncatedValue, Printable, Blank;
  }

  lemma ConstantLengths()
    ensures |ApiVersion()| == 27 && |Succeeded()| == 9 && |Failed()| == 6 && |DetailsTruncated()| == 30
    ensures |BoolText(true)| == 4
  {
    hide Ascii;
  }

  lemma AsciiNotBlank(s: string)
    requires s != [] && 0x21 <= s[0] as int < 0x80
    ensures !Blank(Ascii(s))
  {
    assert Ascii(s)[0] == s[0] as int;
    assert SpaceLen(Ascii(s)) == 0;
    BlankOnLeft(Ascii(s));
  }

  lemma OutcomesDiffer()
    ensures Succeeded() != Failed()
  {
    hide Ascii;
    ConstantLengths();
  }

  lemma DroppedListsValidate(json: JsonRules, e: Envelope)
    requires Validates(json, e) && e.truncation.Some?
    ensures Validates(json, WithoutExtensions(e)) && Validates(json, WithoutArtifacts(e))
  {
    hide Sound, ApiVersion, Succeeded, Failed, ValidOutput, ValidUsage, ValidTiming, ValidExecution, ValidArtifact,
         ValidExtension, Blank, DetailsTruncated, TruncatedOutput, Ascii;
  }

  lemma DroppedOutputValidates(json: JsonRules, e: Envelope)
    requires Validates(json, e) && e.truncation.Some? && ValidOutput(json, TruncatedOutput())
    ensures Validates(json, WithoutOutput(e))
  {
    hide Sound, ApiVersion, Succeeded, Failed, ValidOutput, ValidUsage, ValidTiming, ValidExecution, ValidArtifact,
         ValidExtension, Blank, DetailsTruncated, TruncatedOutput, Ascii;
  }

  lemma DroppedDetailsValidate(json: JsonRules, e: Envelope)
    requires Validates(json, e) && !Blank(DetailsTruncated())
    ensures Validates(json, WithoutDetails(e))
  {
    hide Sound, ApiVersion, Succeeded, Failed, ValidOutput, ValidUsage, ValidTiming, ValidExecution, ValidArtifact,
         ValidExtension, Blank, DetailsTruncated, TruncatedOutput, Ascii;
  }

  lemma MinimalValidates(json: JsonRules, e: Envelope)
    requires Validates(json, e) && !Blank(DetailsTruncated()) && Succeeded() != Failed()
    ensures Validates(json, Minimal(e))
  {
    hide Sound, ApiVersion, Succeeded, Failed, ValidOutput, ValidUsage, ValidTiming, ValidExecution, ValidArtifact,
         ValidExtension, Blank, DetailsTruncated, TruncatedOutput, Ascii;
  }

  /** Dropping the next piece of a valid envelope leaves a valid one. */
  lemma NextStageValidates(json: JsonRules, e: Envelope)
    requires Sound(json) && Validates(json, e) && e.truncation.Some?
    ensures Validates(json, WithoutExtensions(e)) && Validates(json, WithoutArtifacts(e))
    ensures Validates(json, WithoutOutput(e)) && Validates(json, WithoutDetails(e)) && Validates(json, Minimal(e))
  {
    hide *;
    TruncatedOutputValid(json);
    OutcomesDiffer();
    DroppedListsValidate(json, e);
    DroppedOutputValidates(json, e);
    DroppedDetailsValidate(json, e);
    MinimalValidates(json, e);
  }

  lemma RecordValidates(json: JsonRules, e: Envelope, originalBytes: nat)
    requires Validates(json, e)
    ensures Validates(json, WithRecord(e, originalBytes))
  {
    hide ApiVersion, Succeeded, Failed, ValidOutput, ValidUsage, ValidTiming, ValidExecution, ValidArtifact,
         ValidExtension, Blank, Ascii;
  }

  /** Every stage of a valid envelope is valid. */
  lemma {:induction false} StageValidates(json: JsonRules, e: Envelope, originalBytes: nat, k: nat)
    requires Sound(json) && Validates(json, e) && k <= 5
    ensures Validates(json, Stage(e, originalBytes, k))
  {
    hide Sound, Validates, WithRecord, WithoutExtensions, WithoutArtifacts, WithoutOutput, WithoutDetails, Minimal;
    if k == 0 {
      RecordValidates(json, e, originalBytes);
    } else {
      StageValidates(json, e, originalBytes, k - 1);
      NextStageValidates(json, Stage(e, originalBytes, k - 1));
    }
  }

  /* The minimal envelope always fits in a termination message */

  lemma MemberLength(name: string, value: bytes)
    ensures |Member(name, value)| <= 6 * |name| + 3 + |value|
  {
    EscapeLength(Ascii(name));
  }

  lemma JsonStringLength(s: bytes)
    ensures |JsonString(s)| <= 6 * |s| + 2
  {
    EscapeLength(s);
  }

  function Total(parts: seq<bytes>): nat {
    if parts == [] then 0 else |parts[0]| + 1 + Total(parts[1..])
  }

  lemma {:induction false} JoinLength(parts: seq<bytes>)
    ensures |Join(parts)| <= Total(parts)
  {
    if parts != [] { JoinLength(parts[1..]); }
  }

  lemma {:induction false} TotalConcat(a: seq<bytes>, b: seq<bytes>)
    ensures Total(a + b) == Total(a) + Total(b)
  {
    if a == [] {
      assert a + b == b;
    } else {
      TotalConcat(a[1..], b);
      assert (a + b)[1..] == a[1..] + b;
    }
  }

  lemma TotalOne(part: bytes)
    ensures Total([part]) == |part| + 1
  {
    assert [part][1..] == [];
  }

  lemma FlagLength(name: string, b: bool)
    ensures Total(OptFlag(name, b)) <= 6 * |name| + 8
  {
    hide Member, Total, BoolText;
    ConstantLengths();
    MemberLength(name, BoolText(true));
    if b { TotalOne(Member(name, BoolText(true))); } else { NothingTotal(); }
  }

  lemma TruncationLength(t: Truncation)
    requires t.originalBytes <= MAX_INT64
    ensures |EncodeTruncation(t)| <= 600
  {
    hide Member, Total, Join, OptFlag, IntText;
    DecLength64(t.originalBytes);
    IntTextLength(t.originalBytes);
    MemberLength("originalBytes", IntText(t.originalBytes));
    FlagLength("outputTruncated", t.outputTruncated);
    FlagLength("artifactsTruncated", t.artifactsTruncated);
    FlagLength("extensionsTruncated", t.extensionsTruncated);
    var one := [Member("originalBytes", IntText(t.originalBytes))];
    TotalOne(one[0]);
    var two := one + OptFlag("outputTruncated", t.outputTruncated);
    var three := two + OptFlag("artifactsTruncated", t.artifactsTruncated);
    TotalConcat(one, OptFlag("outputTruncated", t.outputTruncated));
    TotalConcat(two, OptFlag("artifactsTruncated", t.artifactsTruncated));
    TotalConcat(three, OptFlag("extensionsTruncated", t.extensionsTruncated));
    JoinLength(three + OptFlag("extensionsTruncated", t.extensionsTruncated));
  }

  lemma IntTextLength(n: nat)
    requires |Dec(n)| <= 19
    ensures |IntText(n)| <= 19
  {
  }

  lemma DetailsLength()
    ensures |EncodeError(ErrorInfo([], DetailsTruncated(), None))| <= 300
  {
    hide Member, Join, JsonString, Total, Ascii, DetailsTruncated;
    ConstantLengths();
    JsonStringLength(DetailsTruncated());
    MemberLength("message", JsonString(DetailsTruncated()));
    var one := [Member("message", JsonString(DetailsTruncated()))];
    TotalOne(one[0]);
    JoinLength(one);
    assert [] + one + [] == one;
  }

  lemma MinimalFits(json: JsonRules, e: Envelope)
    requires e.truncation.Some? && e.truncation.value.originalBytes <= MAX_INT64
    requires e.outcome == Succeeded() || e.outcome == Failed()
    ensures |Encode(json, Minimal(e))| <= MAX_TERMINATION_MESSAGE
  {
    ConstantLengths();
    hide Ascii, Member, Join, JsonString, Total, EncodeTruncation, EncodeError, ApiVersion, Succeeded, Failed, DetailsTruncated;
    JsonStringLength(ApiVersion());
    JsonStringLength(e.outcome);
    MemberLength("apiVersion", JsonString(ApiVersion()));
    MemberLength("outcome", JsonString(e.outcome));
    TruncationLength(e.truncation.value);
    MemberLength("truncation", EncodeTruncation(e.truncation.value));
    DetailsLength();
    MemberLength("error", EncodeError(ErrorInfo([], DetailsTruncated(), None)));
    var m := Minimal(e);
    var version, outcome := Member("apiVersion", JsonString(ApiVersion())), Member("outcome", JsonString(e.outcome));
    assert HeadMembers(json, m) == [version] + [outcome];
    TotalOne(version);
    TotalOne(outcome);
    TotalConcat([version], [outcome]);
    var error := if m.error.Some? then [Member("error", EncodeError(m.error.value))] else [];
    var truncation := [Member("truncation", EncodeTruncation(e.truncation.value))];
    assert TailMembers(json, m) == error + truncation;
    if m.error.Some? { TotalOne(error[0]); } else { NothingTotal(); }
    TotalOne(truncation[0]);
    TotalConcat(error, truncation);
    TotalConcat(HeadMembers(json, m), TailMembers(json, m));
    JoinLength(Members(json, m));
  }

  lemma NothingTotal()
    ensures Total([]) == 0
  {
  }

  /* The main results */

  /** The encoded envelope that a successful compaction returns. */
  ghost predicate Represents(json: JsonRules, e: Envelope, x: Envelope, encoded: bytes, limit: int) {
    && encoded == Encode(json, x) && MarshalsWithin(json, x, limit) && Validates(json, x)
    && (x == e || (AdmitsLosses(Clone(json, e), x, |Encode(json, e)|) && LosesInOrder(Clone(json, e), x)
                   && |Encode(json, e)| > limit))
  }

  /**
   What Compact returns encodes a valid envelope within the limit, with the same outcome; it is the
   input itself, or one whose truncation record admits every loss of output, artifacts and extensions.
   */
  lemma CompactIsHonest(json: JsonRules, e: Envelope, limit: int, r: Result<bytes, Problem>)
    requires Sound(json) && IsCompaction(json, e, limit, r) && r.Ok?
    ensures exists x :: Represents(json, e, x, r.value, limit) && x.outcome == e.outcome
  {
    hide Sound, Stage, Encode, Clone, AdmitsLosses, LosesInOrder, Validates, Encodable, Decodes;
    if |Encode(json, e)| <= limit {
      assert Represents(json, e, e, r.value, limit);
    } else {
      var k :| IsFirstFit(json, Clone(json, e), |Encode(json, e)|, limit, k)
            && r.value == Encode(json, Stage(Clone(json, e), |Encode(json, e)|, k));
      StageRepresents(json, e, limit, k);
    }
  }

  lemma StageRepresents(json: JsonRules, e: Envelope, limit: int, k: nat)
    requires Sound(json) && Validates(json, e) && |Encode(json, e)| > limit
    requires IsFirstFit(json, Clone(json, e), |Encode(json, e)|, limit, k)
    ensures var x := Stage(Clone(json, e), |Encode(json, e)|, k);
            Represents(json, e, x, Encode(json, x), limit) && x.outcome == e.outcome
  {
    hide Sound, Stage, Encode, Clone, AdmitsLosses, LosesInOrder, Validates, Tried, ApiVersion, MarshalsWithin;
    var clone := Clone(json, e);
    var original := |Encode(json, e)|;
    CloneValidates(json, e);
    CloneKeepsOutcome(json, e);
    ValidVersion(json, clone);
    StageValidates(json, clone, original, k);
    StageAdmitsLosses(clone, original, k);
    StageKeepsOutcome(clone, original, k);
  }

  lemma ValidVersion(json: JsonRules, e: Envelope)
    requires Validates(json, e)
    ensures e.apiVersion == ApiVersion()
  {
    hide Succeeded, Failed, ApiVersion;
  }

  lemma StageKeepsOutcome(e: Envelope, originalBytes: nat, k: nat)
    requires k <= 5
    ensures Stage(e, originalBytes, k).outcome == e.outcome
  {
    hide Ascii, ApiVersion, Failed, DetailsTruncated, TruncatedOutput;
    if k > 0 { StageKeepsOutcome(e, originalBytes, k - 1); }
  }

  /**
   With the limit of a termination message, compaction of a valid envelope fails exactly when the envelope
   cannot be encoded or cannot be decoded again; its length alone is never the reason.
   */
  lemma TerminationMessageFitsIff(json: JsonRules, e: Envelope, r: Result<bytes, Problem>)
    requires Sound(json) && Validates(json, e) && |Encode(json, e)| <= MAX_INT64
    requires IsCompaction(json, e, MAX_TERMINATION_MESSAGE, r)
    ensures r.Ok? <==> Encodable(e) && Decodes(json, e)
    ensures r.Err? ==> r.error == if Encodable(e) then NotDecodable else NotEncodable
  {
    hide Encode, Clone, Validates, Sound, NothingFits, IsFirstFit, Nesting, Encodable;
    if |Encode(json, e)| <= MAX_TERMINATION_MESSAGE {
      NestingWithinLength(Encode(json, e));
    } else {
      SomethingFits(json, e);
    }
  }

  /** The envelopes that always fit, by what they hold. */
  lemma TerminationMessageFitsByContents(json: JsonRules, e: Envelope, r: Result<bytes, Problem>)
    requires Sound(json) && Validates(json, e) && PlainTexts(e) && |Encode(json, e)| <= MAX_INT64
    requires IsCompaction(json, e, MAX_TERMINATION_MESSAGE, r)
    ensures r.Ok? <==> Encodable(e) && ValuesWithin(e, MAX_DEPTH - 2)
  {
    hide *;
    TerminationMessageFitsIff(json, e, r);
    DecodesIff(json, e);
  }

  lemma SomethingFits(json: JsonRules, e: Envelope)
    requires Sound(json) && Validates(json, e) && |Encode(json, e)| <= MAX_INT64
    ensures !NothingFits(json, Clone(json, e), |Encode(json, e)|, MAX_TERMINATION_MESSAGE, 5)
  {
    hide Encode, Clone, Validates, Minimal, Sound, Ascii, Succeeded, Failed, WithRecord, WithoutExtensions,
         WithoutArtifacts, WithoutOutput, WithoutDetails, Encodable;
    var clone := Clone(json, e);
    var before := Stage(clone, |Encode(json, e)|, 4);
    CloneValidates(json, e);
    StageValidates(json, clone, |Encode(json, e)|, 4);
    StageRecords(clone, |Encode(json, e)|, 4);
    ValidOutcome(json, before);
    MinimalFits(json, before);
    MinimalEncodable(before);
    assert Tried(clone, 5) && Stage(clone, |Encode(json, e)|, 5) == Minimal(before);
  }

  lemma MinimalEncodable(e: Envelope)
    ensures Encodable(Minimal(e))
  {
  }

  lemma ValidOutcome(json: JsonRules, e: Envelope)
    requires Validates(json, e)
    ensures e.outcome == Succeeded() || e.outcome == Failed()
  {
    hide Succeeded, Failed, ApiVersion;
  }

  lemma StageRecords(e: Envelope, originalBytes: nat, k: nat)
    requires k <= 5
    ensures Stage(e, originalBytes, k).truncation.value.originalBytes == originalBytes
  {
    hide Ascii, ApiVersion, Failed, DetailsTruncated, TruncatedOutput;
    if k > 0 { StageRecords(e, originalBytes, k - 1); }
  }

  /* What is left, and that it is as much as possible */

  /** The first `k` of extensions, artifacts, output, details and all but the outcome are gone. */
  function Reduced(e: Envelope, originalBytes: nat, k: nat): Envelope
    requires 1 <= k <= 5
  {
    var marker := Output(Ascii("application/vnd.kontext.truncated+json"), Ascii("{\"truncated\":true}"));
    var message := Ascii("result error details truncated");
    var record := Truncation(originalBytes, k >= 3 && e.output.Some?, k >= 2 && e.artifacts != [], e.extensions != []);
    if k == 5 then
      Envelope(ApiVersion(), e.outcome, None, None, None, None,
               if e.outcome == Failed() then Some(ErrorInfo([], message, None)) else None, [], [], Some(record))
    else
      e.(extensions := [], artifacts := if k >= 2 then [] else e.artifacts,
         output := if k >= 3 && e.output.Some? then Some(marker) else e.output,
         execution := if k == 4 then None else e.execution, timing := if k == 4 then None else e.timing,
         error := if k == 4 && e.error.Some? then Some(ErrorInfo([], message, e.error.value.retryable)) else e.error,
         truncation := Some(record))
  }

  /** There is something that the step from `k - 1` to `k` takes away. */
  predicate Reduces(e: Envelope, k: nat) {
    && 1 <= k <= 5 && (k == 1 ==> e.extensions != []) && (k == 2 ==> e.artifacts != []) && (k == 3 ==> e.output.Some?)
  }

  lemma MarkerText()
    ensures TruncatedValue() == Ascii("{\"truncated\":true}")
  {
    hide Ascii, Escape;
    NameIsPlain();
    assert "{" + "\"" + "truncated" + "\"" + ":" + "true" + "}" == "{\"truncated\":true}";
    AsciiJoins("truncated", "true");
  }

  lemma NameIsPlain()
    ensures JsonString(Ascii("truncated")) == [QUOTE] + Ascii("truncated") + [QUOTE]
  {
    var name := "truncated";
    assert |name| == 9;
    assert forall i :: 0 <= i < 9 ==> 'a' <= name[i] <= 'z';
    EscapeLetters(Ascii(name));
    hide Escape;
  }

  lemma AsciiJoins(name: string, value: string)
    ensures Ascii("{" + "\"" + name + "\"" + ":" + value + "}")
         == [0x7B] + (([QUOTE] + Ascii(name) + [QUOTE]) + [0x3A] + Ascii(value)) + [0x7D]
  {
  }

  lemma StageIsReduced(e: Envelope, originalBytes: nat, k: nat)
    requires 1 <= k <= 5
    ensures Stage(e, originalBytes, k) == Reduced(e, originalBytes, k)
  {
    MarkerText();
    hide TruncatedValue, Ascii, ApiVersion, Failed;
    if k <= 2 { EarlyStageIs(e, originalBytes, k); } else { LateStageIs(e, originalBytes, k); }
  }

  lemma EarlyStageIs(e: Envelope, originalBytes: nat, k: nat)
    requires 1 <= k <= 2
    ensures Stage(e, originalBytes, k) == Reduced(e, originalBytes, k)
  {
    hide TruncatedOutput, DetailsTruncated, ApiVersion, Failed, Minimal, WithoutDetails, WithoutOutput, Ascii;
    assert Stage(e, originalBytes, 0) == WithRecord(e, originalBytes);
    assert Stage(e, originalBytes, 1) == WithoutExtensions(WithRecord(e, originalBytes));
  }

  lemma LateStageIs(e: Envelope, originalBytes: nat, k: nat)
    requires 3 <= k <= 5 && TruncatedValue() == Ascii("{\"truncated\":true}")
    ensures Stage(e, originalBytes, k) == Reduced(e, originalBytes, k)
  {
    hide Ascii, ApiVersion, Failed, TruncatedValue, WithoutOutput, WithoutArtifacts, WithoutExtensions;
    ThirdStage(e, originalBytes);
    if k >= 4 { assert Stage(e, originalBytes, 4) == WithoutDetails(Stage(e, originalBytes, 3)); }
  }

  /** `k` takes something away and fits, and nothing before it does. */
  ghost predicate LeastReduction(json: JsonRules, copy: Envelope, n: nat, limit: int, k: nat) {
    && Reduces(copy, k) && MarshalsWithin(json, Reduced(copy, n, k), limit) && NoReductionFits(json, copy, n, limit, k - 1)
  }

  ghost predicate NoReductionFits(json: JsonRules, copy: Envelope, n: nat, limit: int, k: nat)
    requires k <= 5
  {
    forall j :: 1 <= j <= k && Reduces(copy, j) ==> !MarshalsWithin(json, Reduced(copy, n, j), limit)
  }

  lemma NothingFitsReduced(json: JsonRules, copy: Envelope, n: nat, limit: int, k: nat)
    requires k <= 5 && NothingFits(json, copy, n, limit, k)
    ensures NoReductionFits(json, copy, n, limit, k)
  {
    hide Stage, Reduced, MarshalsWithin;
    forall j | 1 <= j <= k && Reduces(copy, j) ensures !MarshalsWithin(json, Reduced(copy, n, j), limit) {
      StageIsReduced(copy, n, j);
      assert Tried(copy, j);
    }
  }

  lemma FirstFitReduces(json: JsonRules, copy: Envelope, n: nat, limit: int, k: nat)
    requires IsFirstFit(json, copy, n, limit, k)
    ensures LeastReduction(json, copy, n, limit, k) && Stage(copy, n, k) == Reduced(copy, n, k)
  {
    hide Stage, Reduced, MarshalsWithin, NothingFits, NoReductionFits;
    NothingFitsReduced(json, copy, n, limit, k - 1);
    StageIsReduced(copy, n, k);
  }

  /**
   When the envelope is too long, what is returned is its copy with as little taken away as fits: the first
   reduction that takes something away and fits; and there is a failure exactly when none does.
   */
  lemma LeastIsLost(json: JsonRules, e: Envelope, limit: int, r: Result<bytes, Problem>)
    requires NeedsStages(json, e, limit) && IsCompaction(json, e, limit, r)
    ensures var n, copy := |Encode(json, e)|, Clone(json, e);
            match r
            case Ok(encoded) => exists k :: LeastReduction(json, copy, n, limit, k) && encoded == Encode(json, Reduced(copy, n, k))
            case Err(problem) => problem == DoesNotFit && NoReductionFits(json, copy, n, limit, 5)
  {
    hide Stage, Reduced, Encode, Clone, Validates, Encodable, Decodes, LeastReduction, NoReductionFits, NothingFits,
         MarshalsWithin;
    var n, copy := |Encode(json, e)|, Clone(json, e);
    if r.Ok? {
      var k :| IsFirstFit(json, copy, n, limit, k) && r.value == Encode(json, Stage(copy, n, k));
      FirstFitReduces(json, copy, n, limit, k);
    } else {
      NothingFitsReduced(json, copy, n, limit, 5);
    }
  }

  /* An input for each failure */

  function WithUsage(dollars: Dollars): Envelope {
    Envelope(ApiVersion(), Succeeded(), None, Some(Usage(None, None, None, None, Some(dollars))), None, None, None, [], [],
             None)
  }

  /** Validation accepts a cost that is not a number, and then no limit is large enough. */
  lemma NotANumberFails(json: JsonRules, limit: int, r: Result<bytes, Problem>)
    requires limit > 0 && IsCompaction(json, WithUsage(NaN), limit, r)
    ensures Validates(json, WithUsage(NaN)) && r == Err(NotEncodable)
  {
    hide ApiVersion, Succeeded, Failed;
    OutcomesDiffer();
  }

  function WithOutput(value: bytes): Envelope {
    Envelope(ApiVersion(), Succeeded(), Some(Output(TruncatedMediaType(), value)), None, None, None, None, [], [], None)
  }

  /** An array nested 9999 deep is JSON, but its envelope is too deep to be copied. */
  lemma DeepOutputFails(json: JsonRules, r: Result<bytes, Problem>)
    requires Sound(json) && json.valid(Nested(MAX_DEPTH - 1)) && |Encode(json, WithOutput(Nested(MAX_DEPTH - 1)))| <= MAX_INT64
    requires IsCompaction(json, WithOutput(Nested(MAX_DEPTH - 1)), MAX_TERMINATION_MESSAGE, r)
    ensures Validates(json, WithOutput(Nested(MAX_DEPTH - 1))) && r == Err(NotDecodable)
  {
    var e := WithOutput(Nested(MAX_DEPTH - 1));
    DeepOutputValid(json);
    hide *;
    TerminationMessageFitsByContents(json, e, r);
    TerminationMessageFitsIff(json, e, r);
  }

  lemma DeepOutputValid(json: JsonRules)
    requires Sound(json) && json.valid(Nested(MAX_DEPTH - 1))
    ensures var e := WithOutput(Nested(MAX_DEPTH - 1));
            Validates(json, e) && PlainTexts(e) && Encodable(e) && !ValuesWithin(e, MAX_DEPTH - 2)
  {
    hide ApiVersion, Succeeded, Failed, Nested, Ascii, Blank, Nests, Nesting;
    OutcomesDiffer();
    TruncatedOutputValid(json);
    NestedNests(MAX_DEPTH - 1);
    NestingOf(Nested(MAX_DEPTH - 1), MAX_DEPTH - 1);
  }
}
