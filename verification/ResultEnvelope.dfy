/**
 The versioned result envelope: its fields, its validation, and its JSON encoding. Strings are
 byte strings; a JSON value is kept as its text, and the rules for such texts (which are valid,
 what compaction makes of them) are a parameter.
 */
module ResultEnvelope {
  import opened Prelude
  import opened Decimal
  import opened Bytes
  import opened Utf8
  import opened JsonText
  import opened JsonNesting

  datatype Output = Output(mediaType: bytes, value: bytes)

  /** A float64: a number with the text Go prints for it, or a value that has no encoding. */
  datatype Dollars = Finite(value: real, text: bytes) | NaN | PositiveInfinity | NegativeInfinity

  datatype Usage = Usage(
    inputTokens: Option<int>, outputTokens: Option<int>, totalTokens: Option<int>,
    reasoningTokens: Option<int>, dollars: Option<Dollars>)

  /** An instant with its RFC 3339 text; one outside the years 0 to 9999 has none. */
  datatype Instant = Instant(nanos: int, text: Option<bytes>)

  datatype Timing = Timing(
    startedAt: Option<Instant>, completedAt: Option<Instant>,
    durationMillis: Option<int>, providerLatencyMillis: Option<int>)

  datatype Execution = Execution(
    provider: bytes, model: bytes, requestId: bytes, turns: Option<int>, toolCalls: Option<int>)

  datatype ErrorInfo = ErrorInfo(code: bytes, message: bytes, retryable: Option<bool>)

  datatype Artifact = Artifact(name: bytes, uri: bytes, mediaType: bytes, digest: bytes)

  /** One entry of the extensions map; the map is the sequence of its entries in key order. */
  datatype Extension = Extension(name: bytes, value: bytes)

  datatype Truncation = Truncation(
    originalBytes: nat, outputTruncated: bool, artifactsTruncated: bool, extensionsTruncated: bool)

  datatype Envelope = Envelope(
    apiVersion: bytes,
    outcome: bytes,
    output: Option<Output>,
    usage: Option<Usage>,
    timing: Option<Timing>,
    execution: Option<Execution>,
    error: Option<ErrorInfo>,
    artifacts: seq<Artifact>,
    extensions: seq<Extension>,
    truncation: Option<Truncation>)

  function ApiVersion(): bytes { Ascii("kontext.dev/result/v1alpha1") }
  function Succeeded(): bytes { Ascii("Succeeded") }
  function Failed(): bytes { Ascii("Failed") }

  const MAX_TERMINATION_MESSAGE: nat := 4096
  const SLASH: byte := 0x2F

  /** Which texts are JSON, and what json.Marshal makes of an embedded one. */
  datatype JsonRules = JsonRules(valid: bytes -> bool, compact: bytes -> bytes)

  predicate Printable(s: bytes) { forall i :: 0 <= i < |s| ==> s[i] >= 0x20 }

  /** `{"truncated":true}` */
  function TruncatedValue(): bytes { [0x7B] + Member("truncated", Ascii("true")) + [0x7D] }

  ghost predicate Sound(json: JsonRules) {
    && (forall v :: json.valid(v) ==> json.valid(json.compact(v)) && Printable(json.compact(v)))
    && (forall v :: json.valid(v) ==> json.compact(json.compact(v)) == json.compact(v))
    && (forall v :: json.valid(v) ==> !Blank(v))
    && (forall v :: json.valid(v) ==> Nesting(v) <= MAX_DEPTH && Nests(json.compact(v), Nesting(v)))
    && json.valid(TruncatedValue())
  }

  /* Validation */

  /** Every string literal is JSON. */
  ghost predicate KnowsStrings(json: JsonRules) { forall s :: json.valid(JsonString(s)) }

  /** Such rules exist, for example those that take every visible line of text for JSON. */
  lemma SoundIsPossible()
    ensures exists json :: Sound(json) && KnowsStrings(json) && json.valid(Nested(MAX_DEPTH - 1))
  {
    var json := JsonRules(v => Printable(v) && !Blank(v) && Nesting(v) <= MAX_DEPTH && Nests(v, Nesting(v)), v => v);
    hide Member, Ascii, Printable, Blank, JsonString, Nests, Nesting, Nested;
    MarkerPlain();
    NestedPlain(MAX_DEPTH - 1);
    StartsVisible(Nested(MAX_DEPTH - 1));
    StartsVisible(TruncatedValue());
    forall s ensures json.valid(JsonString(s)) {
      JsonStringPlain(s);
      StringVisible(s);
      StartsVisible(JsonString(s));
    }
    assert Sound(json) && KnowsStrings(json);
  }

  lemma {:induction false} NestedPlain(n: nat)
    ensures Plain(Nested(n), n) && (n > 0 ==> Nested(n) != [] && Nested(n)[0] == OPEN_BRACKET)
  {
    hide Plain;
    if n == 0 {
      BarePlain([]);
    } else {
      NestedPlain(n - 1);
      assert Join([Nested(n - 1)]) == Nested(n - 1);
      BracketPlain(OPEN_BRACKET, [Nested(n - 1)], CLOSE_BRACKET, n - 1);
    }
  }

  lemma StringVisible(s: bytes)
    ensures JsonString(s) != [] && JsonString(s)[0] == QUOTE
  {
  }

  lemma MarkerPlain()
    ensures Plain(TruncatedValue(), 1) && TruncatedValue()[0] == 0x7B
  {
    hide Member, Plain;
    BoolPlain(true);
    AllOne("truncated", BoolText(true), 0);
    BracketPlain(0x7B, [Member("truncated", BoolText(true))], 0x7D, 0);
  }

  predicate NotNegative(n: Option<int>) { n.Some? ==> n.value >= 0 }

  /** NaN is not less than zero. */
  predicate Negative(d: Dollars) { d.NegativeInfinity? || (d.Finite? && d.value < 0.0) }

  predicate ValidUsage(u: Usage) {
    && NotNegative(u.inputTokens) && NotNegative(u.outputTokens)
    && NotNegative(u.totalTokens) && NotNegative(u.reasoningTokens)
    && (u.outputTokens.Some? && u.reasoningTokens.Some? ==> u.reasoningTokens.value <= u.outputTokens.value)
    && (u.dollars.Some? ==> !Negative(u.dollars.value))
  }

  predicate ValidTiming(t: Timing) {
    && NotNegative(t.durationMillis) && NotNegative(t.providerLatencyMillis)
    && (t.startedAt.Some? && t.completedAt.Some? ==> t.startedAt.value.nanos <= t.completedAt.value.nanos)
  }

  predicate ValidExecution(x: Execution) { NotNegative(x.turns) && NotNegative(x.toolCalls) }

  predicate ValidArtifact(a: Artifact) { !Blank(a.name) && !Blank(a.uri) }

  predicate ValidExtension(json: JsonRules, x: Extension) { SLASH in x.name && json.valid(x.value) }

  predicate ValidOutput(json: JsonRules, o: Output) {
    !Blank(o.mediaType) && !Blank(o.value) && json.valid(o.value)
  }

  predicate Validates(json: JsonRules, e: Envelope) {
    && e.apiVersion == ApiVersion()
    && (e.outcome == Succeeded() || e.outcome == Failed())
    && (e.output.Some? ==> ValidOutput(json, e.output.value))
    && (e.error.Some? ==> !Blank(e.error.value.message))
    && (e.outcome == Failed() ==> e.error.Some?)
    && (e.outcome == Succeeded() ==> e.error.None?)
    && (e.usage.Some? ==> ValidUsage(e.usage.value))
    && (e.timing.Some? ==> ValidTiming(e.timing.value))
    && (e.execution.Some? ==> ValidExecution(e.execution.value))
    && (forall i :: 0 <= i < |e.artifacts| ==> ValidArtifact(e.artifacts[i]))
    && (forall i :: 0 <= i < |e.extensions| ==> ValidExtension(json, e.extensions[i]))
  }

  /* Encoding */

  function IntText(n: int): bytes {
    if n < 0 then [0x2D] + Ascii(Dec(-n)) else Ascii(Dec(n))
  }

  function BoolText(b: bool): bytes { if b then Ascii("true") else Ascii("false") }

  function Member(name: string, value: bytes): bytes { JsonString(Ascii(name)) + [0x3A] + value }

  function Join(parts: seq<bytes>): bytes {
    if parts == [] then []
    else if |parts| == 1 then parts[0]
    else parts[0] + [0x2C] + Join(parts[1..])
  }

  function Object(members: seq<bytes>): bytes { [0x7B] + Join(members) + [0x7D] }

  function Array(elements: seq<bytes>): bytes { [0x5B] + Join(elements) + [0x5D] }

  /** A member that omitempty leaves out when there is no value. */
  function OptInt(name: string, n: Option<int>): seq<bytes> {
    if n.Some? then [Member(name, IntText(n.value))] else []
  }

  function OptText(name: string, s: bytes): seq<bytes> {
    if s == [] then [] else [Member(name, JsonString(s))]
  }

  function OptFlag(name: string, b: bool): seq<bytes> {
    if b then [Member(name, BoolText(true))] else []
  }

  function EncodeOutput(json: JsonRules, o: Output): bytes {
    Object([Member("mediaType", JsonString(o.mediaType)), Member("value", json.compact(o.value))])
  }

  /** Whether json.Marshal accepts the envelope: every number and every instant has a text. */
  predicate Encodable(e: Envelope) {
    && (e.usage.Some? && e.usage.value.dollars.Some? ==> e.usage.value.dollars.value.Finite?)
    && (e.timing.Some? && e.timing.value.startedAt.Some? ==> e.timing.value.startedAt.value.text.Some?)
    && (e.timing.Some? && e.timing.value.completedAt.Some? ==> e.timing.value.completedAt.value.text.Some?)
  }

  /** The text of an encodable number. */
  function DollarsText(d: Dollars): bytes { if d.Finite? then d.text else [] }

  /** The text of an encodable instant. */
  function InstantText(t: Instant): bytes { if t.text.Some? then t.text.value else [] }

  function EncodeUsage(u: Usage): bytes {
    Object(OptInt("inputTokens", u.inputTokens) + OptInt("outputTokens", u.outputTokens)
           + OptInt("totalTokens", u.totalTokens) + OptInt("reasoningTokens", u.reasoningTokens)
           + if u.dollars.Some? then [Member("dollars", DollarsText(u.dollars.value))] else [])
  }

  function OptInstant(name: string, t: Option<Instant>): seq<bytes> {
    if t.Some? then [Member(name, [QUOTE] + InstantText(t.value) + [QUOTE])] else []
  }

  function EncodeTiming(t: Timing): bytes {
    Object(OptInstant("startedAt", t.startedAt) + OptInstant("completedAt", t.completedAt)
           + OptInt("durationMillis", t.durationMillis)
           + OptInt("providerLatencyMillis", t.providerLatencyMillis))
  }

  function EncodeExecution(x: Execution): bytes {
    Object(OptText("provider", x.provider) + OptText("model", x.model) + OptText("requestId", x.requestId)
           + OptInt("turns", x.turns) + OptInt("toolCalls", x.toolCalls))
  }

  function EncodeError(e: ErrorInfo): bytes {
    Object(OptText("code", e.code) + [Member("message", JsonString(e.message))]
           + if e.retryable.Some? then [Member("retryable", BoolText(e.retryable.value))] else [])
  }

  function EncodeArtifact(a: Artifact): bytes {
    Object([Member("name", JsonString(a.name)), Member("uri", JsonString(a.uri))]
           + OptText("mediaType", a.mediaType) + OptText("digest", a.digest))
  }

  function EncodeArtifacts(artifacts: seq<Artifact>): seq<bytes> {
    if artifacts == [] then [] else [EncodeArtifact(artifacts[0])] + EncodeArtifacts(artifacts[1..])
  }

  function EncodeExtensions(json: JsonRules, extensions: seq<Extension>): seq<bytes> {
    if extensions == [] then []
    else [JsonString(extensions[0].name) + [0x3A] + json.compact(extensions[0].value)]
         + EncodeExtensions(json, extensions[1..])
  }

  function EncodeTruncation(t: Truncation): bytes {
    Object([Member("originalBytes", IntText(t.originalBytes))] + OptFlag("outputTruncated", t.outputTruncated)
           + OptFlag("artifactsTruncated", t.artifactsTruncated)
           + OptFlag("extensionsTruncated", t.extensionsTruncated))
  }

  function Members(json: JsonRules, e: Envelope): seq<bytes> { HeadMembers(json, e) + TailMembers(json, e) }

  function HeadMembers(json: JsonRules, e: Envelope): seq<bytes> {
    [Member("apiVersion", JsonString(e.apiVersion)), Member("outcome", JsonString(e.outcome))]
    + (if e.output.Some? then [Member("output", EncodeOutput(json, e.output.value))] else [])
    + (if e.usage.Some? then [Member("usage", EncodeUsage(e.usage.value))] else [])
    + (if e.timing.Some? then [Member("timing", EncodeTiming(e.timing.value))] else [])
  }

  function TailMembers(json: JsonRules, e: Envelope): seq<bytes> {
    (if e.execution.Some? then [Member("execution", EncodeExecution(e.execution.value))] else [])
    + (if e.error.Some? then [Member("error", EncodeError(e.error.value))] else [])
    + (if e.artifacts != [] then [Member("artifacts", Array(EncodeArtifacts(e.artifacts)))] else [])
    + (if e.extensions != [] then [Member("extensions", Object(EncodeExtensions(json, e.extensions)))] else [])
    + (if e.truncation.Some? then [Member("truncation", EncodeTruncation(e.truncation.value))] else [])
  }

  /** The encoding of an encodable envelope. */
  function Encode(json: JsonRules, e: Envelope): bytes { Object(Members(json, e)) }

  /** Whether json.Unmarshal accepts the encoding. */
  predicate Decodes(json: JsonRules, e: Envelope) { Nesting(Encode(json, e)) <= MAX_DEPTH }

  /** What decoding the encoding gives back: malformed UTF-8 replaced, embedded JSON compacted. */
  function Clone(json: JsonRules, e: Envelope): Envelope {
    e.(apiVersion := Sanitize(e.apiVersion),
       outcome := Sanitize(e.outcome),
       output := if e.output.None? then None
                 else Some(Output(Sanitize(e.output.value.mediaType), json.compact(e.output.value.value))),
       execution := if e.execution.None? then None
                    else Some(e.execution.value.(provider := Sanitize(e.execution.value.provider),
                                                 model := Sanitize(e.execution.value.model),
                                                 requestId := Sanitize(e.execution.value.requestId))),
       error := if e.error.None? then None
                else Some(e.error.value.(code := Sanitize(e.error.value.code),
                                         message := Sanitize(e.error.value.message))),
       artifacts := seq(|e.artifacts|, i requires 0 <= i < |e.artifacts| => CloneArtifact(e.artifacts[i])),
       extensions := LastOfEach(CloneExtensions(json, e.extensions)))
  }

  function CloneExtensions(json: JsonRules, xs: seq<Extension>): seq<Extension> {
    seq(|xs|, i requires 0 <= i < |xs| => CloneExtension(json, xs[i]))
  }

  /** Keys that became equal are merged: the last entry of a key stays. */
  function LastOfEach(xs: seq<Extension>): seq<Extension> {
    if xs == [] then []
    else if exists i :: 1 <= i < |xs| && xs[i].name == xs[0].name then LastOfEach(xs[1..])
    else [xs[0]] + LastOfEach(xs[1..])
  }

  function CloneArtifact(a: Artifact): Artifact {
    Artifact(Sanitize(a.name), Sanitize(a.uri), Sanitize(a.mediaType), Sanitize(a.digest))
  }

  function CloneExtension(json: JsonRules, x: Extension): Extension {
    Extension(Sanitize(x.name), json.compact(x.value))
  }

  lemma AsciiIsAscii(s: string)
    ensures forall i :: 0 <= i < |Ascii(s)| ==> Ascii(s)[i] < 0x80
  {
  }

  lemma {:induction false} SanitizedAscii(s: string)
    ensures Sanitize(Ascii(s)) == Ascii(s)
  {
    AsciiIsAscii(s);
    AsciiValid(Ascii(s));
    SanitizeValid(Ascii(s));
  }

  lemma SanitizedNotBlank(s: bytes)
    ensures Blank(Sanitize(s)) <==> Blank(s)
  {
    SanitizeBlank(s);
    BlankOnLeft(s);
    BlankOnLeft(Sanitize(s));
  }

  lemma ClonedArtifact(a: Artifact)
    requires ValidArtifact(a)
    ensures ValidArtifact(CloneArtifact(a))
  {
    SanitizedNotBlank(a.name);
    SanitizedNotBlank(a.uri);
  }

  lemma ClonedExtension(json: JsonRules, x: Extension)
    requires Sound(json) && ValidExtension(json, x)
    ensures ValidExtension(json, CloneExtension(json, x))
  {
    SanitizeKeepsAscii(x.name, SLASH);
  }

  lemma ClonedOutput(json: JsonRules, o: Output)
    requires Sound(json) && ValidOutput(json, o)
    ensures ValidOutput(json, Output(Sanitize(o.mediaType), json.compact(o.value)))
  {
    SanitizedNotBlank(o.mediaType);
  }

  lemma CloneKeepsOutcome(json: JsonRules, e: Envelope)
    requires Validates(json, e)
    ensures Clone(json, e).apiVersion == e.apiVersion && Clone(json, e).outcome == e.outcome
  {
    SanitizedAscii("kontext.dev/result/v1alpha1");
    SanitizedAscii("Succeeded");
    SanitizedAscii("Failed");
    hide Ascii, Sanitize, Sound, Blank;
  }

  predicate DistinctNames(xs: seq<Extension>) { forall i, j :: 0 <= i < j < |xs| ==> xs[i].name != xs[j].name }

  lemma {:induction false} LastOfEachKeeps(xs: seq<Extension>)
    ensures DistinctNames(LastOfEach(xs)) && forall x :: x in LastOfEach(xs) ==> x in xs
  {
    if xs != [] {
      LastOfEachKeeps(xs[1..]);
      var rest := LastOfEach(xs[1..]);
      if forall i :: 1 <= i < |xs| ==> xs[i].name != xs[0].name {
        forall j | 0 <= j < |rest| ensures rest[j].name != xs[0].name { assert rest[j] in xs[1..]; }
      }
    }
  }

  /** A copy of a valid envelope is valid, and names no extension twice. */
  lemma CloneValidates(json: JsonRules, e: Envelope)
    requires Sound(json) && Validates(json, e)
    ensures Validates(json, Clone(json, e)) && DistinctNames(Clone(json, e).extensions)
  {
    hide Ascii, Sanitize, Sound, Blank, ValidOutput, ValidArtifact, ValidExtension, LastOfEach;
    CloneKeepsOutcome(json, e);
    if e.output.Some? { ClonedOutput(json, e.output.value); }
    if e.error.Some? { SanitizedNotBlank(e.error.value.message); }
    forall i | 0 <= i < |e.artifacts| ensures ValidArtifact(Clone(json, e).artifacts[i]) {
      ClonedArtifact(e.artifacts[i]);
    }
    var clones := CloneExtensions(json, e.extensions);
    LastOfEachKeeps(clones);
    forall x | x in clones ensures ValidExtension(json, x) {
      var i :| 0 <= i < |clones| && clones[i] == x;
      ClonedExtension(json, e.extensions[i]);
    }
    forall i | 0 <= i < |Clone(json, e).extensions| ensures ValidExtension(json, Clone(json, e).extensions[i]) {
      assert Clone(json, e).extensions[i] in clones;
    }
  }

  /* The encoding as a line of text, and its depth */

  /** The texts that Go's formatters supply hold no control character, quote, backslash or bracket. */
  predicate PlainTexts(e: Envelope) {
    && (e.usage.Some? && e.usage.value.dollars.Some? ==> Bare(DollarsText(e.usage.value.dollars.value)))
    && (e.timing.Some? && e.timing.value.startedAt.Some? ==> Bare(InstantText(e.timing.value.startedAt.value)))
    && (e.timing.Some? && e.timing.value.completedAt.Some? ==> Bare(InstantText(e.timing.value.completedAt.value)))
  }

  /** No control characters, and brackets that close, nested at most `n` deep. */
  ghost predicate Plain(s: bytes, n: nat) { Printable(s) && Nesting(s) <= n && Nests(s, Nesting(s)) }

  ghost predicate AllPlain(parts: seq<bytes>, n: nat) {
    forall i :: 0 <= i < |parts| ==> Plain(parts[i], n)
  }

  lemma PlainConcat(a: bytes, b: bytes, n: nat)
    requires Plain(a, n) && Plain(b, n)
    ensures Plain(a + b, n) && Nesting(a + b) == Max(Nesting(a), Nesting(b))
  {
    hide Nests, Nesting;
    NestsConcat(a, Nesting(a), b, Nesting(b));
    NestingOf(a + b, Max(Nesting(a), Nesting(b)));
  }

  lemma BarePlain(s: bytes)
    requires Bare(s)
    ensures Plain(s, 0) && Plain([QUOTE] + s + [QUOTE], 0)
  {
    hide Nests, Nesting;
    BareNests(s);
    NestingOf(s, 0);
    NestingOf([QUOTE] + s + [QUOTE], 0);
  }

  lemma AsciiBare(s: string)
    requires forall i :: 0 <= i < |s| ==> 'a' <= s[i] <= 'z' || '0' <= s[i] <= '9'
    ensures Bare(Ascii(s))
  {
  }

  lemma JsonStringPlain(s: bytes)
    ensures Plain(JsonString(s), 0)
  {
    hide Nests, Nesting;
    EscapePrintable(s);
    forall i | 0 <= i < |Escape(s)| ensures Escape(s)[i] >= 0x20 { assert Escape(s)[i] in Escape(s); }
    StringNests(s);
    NestingOf(JsonString(s), 0);
  }

  lemma MemberPlain(name: string, value: bytes, n: nat)
    requires Plain(value, n)
    ensures Plain(Member(name, value), n) && Nesting(Member(name, value)) == Nesting(value)
  {
    EntryPlain(Ascii(name), value, n);
    hide Plain, JsonString, Nesting;
  }

  lemma EntryPlain(name: bytes, value: bytes, n: nat)
    requires Plain(value, n)
    ensures Plain(JsonString(name) + [0x3A] + value, n) && Nesting(JsonString(name) + [0x3A] + value) == Nesting(value)
  {
    hide JsonString, Nesting, Nests, Printable;
    JsonStringPlain(name);
    BarePlain([0x3A]);
    PlainConcat(JsonString(name), [0x3A], n);
    PlainConcat(JsonString(name) + [0x3A], value, n);
  }

  lemma NothingPlain(n: nat)
    ensures AllPlain([], n)
  {
  }

  lemma {:induction false} JoinPlain(parts: seq<bytes>, n: nat)
    requires AllPlain(parts, n)
    ensures Plain(Join(parts), n) && forall i :: 0 <= i < |parts| ==> Nesting(parts[i]) <= Nesting(Join(parts))
  {
    hide Nesting, Nests, Printable;
    BarePlain([]);
    BarePlain([0x2C]);
    if |parts| > 1 {
      JoinPlain(parts[1..], n);
      PlainConcat(parts[0], [0x2C], n);
      PlainConcat(parts[0] + [0x2C], Join(parts[1..]), n);
      assert forall i :: 1 <= i < |parts| ==> parts[i] == parts[1..][i - 1];
    }
  }

  lemma BracketPlain(begin: byte, parts: seq<bytes>, end: byte, n: nat)
    requires AllPlain(parts, n) && (begin == OPEN_BRACE || begin == OPEN_BRACKET)
    requires end == CLOSE_BRACE || end == CLOSE_BRACKET
    ensures Plain([begin] + Join(parts) + [end], n + 1)
    ensures forall i :: 0 <= i < |parts| ==> Nesting(parts[i]) < Nesting([begin] + Join(parts) + [end])
  {
    hide Nesting, Nests, Join;
    JoinPlain(parts, n);
    NestsBracket(begin, Join(parts), end, Nesting(Join(parts)));
    NestingOf([begin] + Join(parts) + [end], Nesting(Join(parts)) + 1);
  }

  lemma DecPlain(n: nat)
    ensures Bare(Ascii(Dec(n)))
  {
    DecDigits(n);
    AsciiBare(Dec(n));
  }

  lemma IntPlain(n: int)
    ensures Plain(IntText(n), 0)
  {
    hide Plain, Dec, Ascii;
    DecPlain(if n < 0 then -n else n);
    BarePlain(IntText(n));
  }

  lemma BoolPlain(b: bool)
    ensures Plain(BoolText(b), 0)
  {
    hide Plain;
    AsciiBare("true");
    AsciiBare("false");
    BarePlain(BoolText(b));
  }

  lemma AllConcat(a: seq<bytes>, b: seq<bytes>, n: nat)
    requires AllPlain(a, n) && AllPlain(b, n)
    ensures AllPlain(a + b, n)
  {
    hide Plain;
  }

  lemma AllDeeper(parts: seq<bytes>, m: nat, n: nat)
    requires AllPlain(parts, m) && m <= n
    ensures AllPlain(parts, n)
  {
    hide Printable, Nests, Nesting;
  }

  lemma AllOne(name: string, value: bytes, n: nat)
    requires Plain(value, n)
    ensures AllPlain([Member(name, value)], n) && AllPlain([], n)
  {
    MemberPlain(name, value, n);
    hide Plain, Member;
  }

  lemma OptIntPlain(name: string, n: Option<int>)
    ensures AllPlain(OptInt(name, n), 0)
  {
    if n.Some? {
      IntPlain(n.value);
      AllOne(name, IntText(n.value), 0);
    }
    hide Member, IntText, Plain;
  }

  lemma OptTextPlain(name: string, s: bytes)
    ensures AllPlain(OptText(name, s), 0)
  {
    JsonStringPlain(s);
    AllOne(name, JsonString(s), 0);
    hide Member, JsonString, AllPlain;
  }

  lemma OptFlagPlain(name: string, b: bool)
    ensures AllPlain(OptFlag(name, b), 0)
  {
    BoolPlain(true);
    AllOne(name, BoolText(true), 0);
    hide Member, BoolText, AllPlain;
  }

  lemma OptInstantPlain(name: string, t: Option<Instant>)
    requires t.Some? ==> Bare(InstantText(t.value))
    ensures AllPlain(OptInstant(name, t), 0)
  {
    NothingPlain(0);
    if t.Some? {
      BarePlain(InstantText(t.value));
      AllOne(name, [QUOTE] + InstantText(t.value) + [QUOTE], 0);
    }
    hide Member, AllPlain, Plain, Bare;
  }

  lemma CompactPlain(json: JsonRules, v: bytes)
    requires Sound(json) && json.valid(v)
    ensures Plain(json.compact(v), Nesting(v)) && Nesting(json.compact(v)) == Nesting(v)
  {
    hide Printable, TruncatedValue, Blank, Nests, Nesting;
    NestingOf(json.compact(v), Nesting(v));
  }

  /** What the text of an envelope needs to know of its parts. */
  lemma ValidParts(json: JsonRules, e: Envelope)
    requires Validates(json, e)
    ensures e.output.Some? ==> ValidOutput(json, e.output.value)
    ensures forall i :: 0 <= i < |e.extensions| ==> ValidExtension(json, e.extensions[i])
  {
    hide ApiVersion, Succeeded, Failed, ValidOutput, ValidExtension, Blank;
  }

  lemma OutputPlain(json: JsonRules, o: Output, n: nat)
    requires Sound(json) && ValidOutput(json, o) && Nesting(o.value) <= n
    ensures Plain(EncodeOutput(json, o), n + 1) && Nesting(o.value) < Nesting(EncodeOutput(json, o))
  {
    hide Printable, Nests, Nesting, Member, JsonString, Join, AllPlain, Sound, Blank;
    JsonStringPlain(o.mediaType);
    CompactPlain(json, o.value);
    AllOne("mediaType", JsonString(o.mediaType), n);
    AllOne("value", json.compact(o.value), n);
    MemberPlain("value", json.compact(o.value), n);
    var first, second := Member("mediaType", JsonString(o.mediaType)), Member("value", json.compact(o.value));
    AllConcat([first], [second], n);
    assert [first, second] == [first] + [second];
    BracketPlain(0x7B, [first, second], 0x7D, n);
    assert [first, second][1] == second;
  }

  lemma UsagePlain(u: Usage)
    requires u.dollars.Some? ==> Bare(DollarsText(u.dollars.value))
    ensures Plain(EncodeUsage(u), 1)
  {
    hide Plain, Member, IntText, Join, AllPlain, OptInt, Bare, DollarsText;
    OptIntPlain("inputTokens", u.inputTokens);
    OptIntPlain("outputTokens", u.outputTokens);
    OptIntPlain("totalTokens", u.totalTokens);
    OptIntPlain("reasoningTokens", u.reasoningTokens);
    var two := OptInt("inputTokens", u.inputTokens) + OptInt("outputTokens", u.outputTokens);
    var four := two + OptInt("totalTokens", u.totalTokens) + OptInt("reasoningTokens", u.reasoningTokens);
    AllConcat(OptInt("inputTokens", u.inputTokens), OptInt("outputTokens", u.outputTokens), 0);
    AllConcat(two, OptInt("totalTokens", u.totalTokens), 0);
    AllConcat(two + OptInt("totalTokens", u.totalTokens), OptInt("reasoningTokens", u.reasoningTokens), 0);
    var dollars := if u.dollars.Some? then [Member("dollars", DollarsText(u.dollars.value))] else [];
    NothingPlain(0);
    if u.dollars.Some? {
      BarePlain(DollarsText(u.dollars.value));
      AllOne("dollars", DollarsText(u.dollars.value), 0);
    }
    AllConcat(four, dollars, 0);
    BracketPlain(0x7B, four + dollars, 0x7D, 0);
  }

  lemma TimingPlain(t: Timing)
    requires t.startedAt.Some? ==> Bare(InstantText(t.startedAt.value))
    requires t.completedAt.Some? ==> Bare(InstantText(t.completedAt.value))
    ensures Plain(EncodeTiming(t), 1)
  {
    hide Plain, Member, Join, AllPlain, OptInt, OptInstant, Bare, InstantText;
    OptInstantPlain("startedAt", t.startedAt);
    OptInstantPlain("completedAt", t.completedAt);
    OptIntPlain("durationMillis", t.durationMillis);
    OptIntPlain("providerLatencyMillis", t.providerLatencyMillis);
    var two := OptInstant("startedAt", t.startedAt) + OptInstant("completedAt", t.completedAt);
    var three := two + OptInt("durationMillis", t.durationMillis);
    AllConcat(OptInstant("startedAt", t.startedAt), OptInstant("completedAt", t.completedAt), 0);
    AllConcat(two, OptInt("durationMillis", t.durationMillis), 0);
    AllConcat(three, OptInt("providerLatencyMillis", t.providerLatencyMillis), 0);
    BracketPlain(0x7B, three + OptInt("providerLatencyMillis", t.providerLatencyMillis), 0x7D, 0);
  }

  lemma ExecutionPlain(x: Execution)
    ensures Plain(EncodeExecution(x), 1)
  {
    hide Plain, Member, Join, AllPlain, OptInt, OptText;
    OptTextPlain("provider", x.provider);
    OptTextPlain("model", x.model);
    OptTextPlain("requestId", x.requestId);
    OptIntPlain("turns", x.turns);
    OptIntPlain("toolCalls", x.toolCalls);
    var two := OptText("provider", x.provider) + OptText("model", x.model);
    var three := two + OptText("requestId", x.requestId);
    var four := three + OptInt("turns", x.turns);
    AllConcat(OptText("provider", x.provider), OptText("model", x.model), 0);
    AllConcat(two, OptText("requestId", x.requestId), 0);
    AllConcat(three, OptInt("turns", x.turns), 0);
    AllConcat(four, OptInt("toolCalls", x.toolCalls), 0);
    BracketPlain(0x7B, four + OptInt("toolCalls", x.toolCalls), 0x7D, 0);
  }

  lemma ErrorPlain(e: ErrorInfo)
    ensures Plain(EncodeError(e), 1)
  {
    hide Plain, Member, Join, AllPlain, OptText, JsonString, BoolText;
    OptTextPlain("code", e.code);
    JsonStringPlain(e.message);
    AllOne("message", JsonString(e.message), 0);
    var two := OptText("code", e.code) + [Member("message", JsonString(e.message))];
    AllConcat(OptText("code", e.code), [Member("message", JsonString(e.message))], 0);
    var retryable := if e.retryable.Some? then [Member("retryable", BoolText(e.retryable.value))] else [];
    if e.retryable.Some? {
      BoolPlain(e.retryable.value);
      AllOne("retryable", BoolText(e.retryable.value), 0);
    }
    AllConcat(two, retryable, 0);
    BracketPlain(0x7B, two + retryable, 0x7D, 0);
  }

  lemma ArtifactPlain(a: Artifact)
    ensures Plain(EncodeArtifact(a), 1)
  {
    hide Plain, Member, Join, AllPlain, OptText, JsonString;
    JsonStringPlain(a.name);
    JsonStringPlain(a.uri);
    AllOne("name", JsonString(a.name), 0);
    AllOne("uri", JsonString(a.uri), 0);
    OptTextPlain("mediaType", a.mediaType);
    OptTextPlain("digest", a.digest);
    var name, uri := Member("name", JsonString(a.name)), Member("uri", JsonString(a.uri));
    AllConcat([name], [uri], 0);
    assert [name, uri] == [name] + [uri];
    AllConcat([name, uri], OptText("mediaType", a.mediaType), 0);
    AllConcat([name, uri] + OptText("mediaType", a.mediaType), OptText("digest", a.digest), 0);
    BracketPlain(0x7B, [name, uri] + OptText("mediaType", a.mediaType) + OptText("digest", a.digest), 0x7D, 0);
  }

  lemma {:induction false} ArtifactsPlain(artifacts: seq<Artifact>)
    ensures AllPlain(EncodeArtifacts(artifacts), 1)
  {
    if artifacts != [] {
      ArtifactPlain(artifacts[0]);
      ArtifactsPlain(artifacts[1..]);
    }
    hide Plain, EncodeArtifact;
  }

  /** The extensions whose values are nested at most `n` deep. */
  ghost predicate ExtensionsWithin(xs: seq<Extension>, n: nat) {
    forall i :: 0 <= i < |xs| ==> Nesting(xs[i].value) <= n
  }

  lemma {:induction false} ExtensionsPlain(json: JsonRules, xs: seq<Extension>, n: nat)
    requires Sound(json) && (forall i :: 0 <= i < |xs| ==> ValidExtension(json, xs[i])) && ExtensionsWithin(xs, n)
    ensures var parts := EncodeExtensions(json, xs);
            && AllPlain(parts, n) && |parts| == |xs|
            && forall i :: 0 <= i < |xs| ==> Nesting(parts[i]) == Nesting(xs[i].value)
  {
    hide Plain, JsonString, Sound, Nesting;
    if xs != [] {
      assert ValidExtension(json, xs[0]);
      ExtensionPlain(json, xs[0], n);
      ExtensionsPlain(json, xs[1..], n);
    }
  }

  lemma ExtensionPlain(json: JsonRules, x: Extension, n: nat)
    requires Sound(json) && ValidExtension(json, x) && Nesting(x.value) <= n
    ensures var part := JsonString(x.name) + [0x3A] + json.compact(x.value);
            Plain(part, n) && Nesting(part) == Nesting(x.value)
  {
    hide Printable, JsonString, Sound, Nesting, Nests;
    CompactPlain(json, x.value);
    EntryPlain(x.name, json.compact(x.value), n);
  }

  lemma TruncationPlain(t: Truncation)
    ensures Plain(EncodeTruncation(t), 1)
  {
    hide Plain, Member, Join, AllPlain, OptFlag, IntText;
    IntPlain(t.originalBytes);
    AllOne("originalBytes", IntText(t.originalBytes), 0);
    OptFlagPlain("outputTruncated", t.outputTruncated);
    OptFlagPlain("artifactsTruncated", t.artifactsTruncated);
    OptFlagPlain("extensionsTruncated", t.extensionsTruncated);
    var one := [Member("originalBytes", IntText(t.originalBytes))];
    var two := one + OptFlag("outputTruncated", t.outputTruncated);
    var three := two + OptFlag("artifactsTruncated", t.artifactsTruncated);
    AllConcat(one, OptFlag("outputTruncated", t.outputTruncated), 0);
    AllConcat(two, OptFlag("artifactsTruncated", t.artifactsTruncated), 0);
    AllConcat(three, OptFlag("extensionsTruncated", t.extensionsTruncated), 0);
    BracketPlain(0x7B, three + OptFlag("extensionsTruncated", t.extensionsTruncated), 0x7D, 0);
  }

  /** A member that is there or not. */
  lemma OptionalPlain(name: string, value: Option<bytes>, m: nat, n: nat)
    requires (value.Some? ==> Plain(value.value, m)) && m <= n
    ensures AllPlain(if value.Some? then [Member(name, value.value)] else [], n)
  {
    hide Plain, Member;
    NothingPlain(n);
    if value.Some? {
      AllOne(name, value.value, m);
      AllDeeper([Member(name, value.value)], m, n);
    }
  }

  lemma HeadPlain(json: JsonRules, e: Envelope, n: nat)
    requires Sound(json) && n >= 1 && PlainTexts(e)
    requires e.output.Some? ==> ValidOutput(json, e.output.value) && Nesting(e.output.value.value) <= n
    ensures AllPlain(HeadMembers(json, e), n + 1)
    ensures e.output.Some? ==> exists i :: 0 <= i < |HeadMembers(json, e)|
                                           && Nesting(e.output.value.value) < Nesting(HeadMembers(json, e)[i])
  {
    hide Plain, AllPlain, Join, Member, JsonString, EncodeOutput, EncodeUsage, EncodeTiming, Sound, ValidOutput, Bare,
         DollarsText, InstantText, Nesting;
    JsonStringPlain(e.apiVersion);
    JsonStringPlain(e.outcome);
    OptionalPlain("apiVersion", Some(JsonString(e.apiVersion)), 0, n + 1);
    OptionalPlain("outcome", Some(JsonString(e.outcome)), 0, n + 1);
    var version, outcome := Member("apiVersion", JsonString(e.apiVersion)), Member("outcome", JsonString(e.outcome));
    AllConcat([version], [outcome], n + 1);
    assert [version, outcome] == [version] + [outcome];
    if e.output.Some? { OutputPlain(json, e.output.value, n); }
    if e.usage.Some? { UsagePlain(e.usage.value); }
    if e.timing.Some? { TimingPlain(e.timing.value); }
    OptionalPlain("output", if e.output.Some? then Some(EncodeOutput(json, e.output.value)) else None, n + 1, n + 1);
    OptionalPlain("usage", if e.usage.Some? then Some(EncodeUsage(e.usage.value)) else None, 1, n + 1);
    OptionalPlain("timing", if e.timing.Some? then Some(EncodeTiming(e.timing.value)) else None, 1, n + 1);
    var output := if e.output.Some? then [Member("output", EncodeOutput(json, e.output.value))] else [];
    var usage := if e.usage.Some? then [Member("usage", EncodeUsage(e.usage.value))] else [];
    var timing := if e.timing.Some? then [Member("timing", EncodeTiming(e.timing.value))] else [];
    AllConcat([version, outcome], output, n + 1);
    AllConcat([version, outcome] + output, usage, n + 1);
    AllConcat([version, outcome] + output + usage, timing, n + 1);
    if e.output.Some? {
      MemberPlain("output", EncodeOutput(json, e.output.value), n + 1);
      assert HeadMembers(json, e)[2] == output[0];
    }
  }

  lemma TailPlain(json: JsonRules, e: Envelope, n: nat)
    requires Sound(json) && n >= 1 && ExtensionsWithin(e.extensions, n)
    requires forall i :: 0 <= i < |e.extensions| ==> ValidExtension(json, e.extensions[i])
    ensures AllPlain(TailMembers(json, e), n + 1)
    ensures forall k :: 0 <= k < |e.extensions| ==>
              exists i :: 0 <= i < |TailMembers(json, e)|
                          && Nesting(e.extensions[k].value) < Nesting(TailMembers(json, e)[i])
  {
    hide Plain, AllPlain, Join, Member, EncodeExecution, EncodeError, EncodeArtifacts, EncodeExtensions,
         EncodeTruncation, Array, Object, Sound, ValidExtension, Nesting, ExtensionsWithin;
    ArtifactsPlain(e.artifacts);
    ExtensionsPlain(json, e.extensions, n);
    var parts := EncodeExtensions(json, e.extensions);
    if e.execution.Some? { ExecutionPlain(e.execution.value); }
    if e.error.Some? { ErrorPlain(e.error.value); }
    if e.truncation.Some? { TruncationPlain(e.truncation.value); }
    ListPlain(EncodeArtifacts(e.artifacts), 1);
    ListPlain(parts, n);
    OptionalPlain("execution", if e.execution.Some? then Some(EncodeExecution(e.execution.value)) else None, 1, n + 1);
    OptionalPlain("error", if e.error.Some? then Some(EncodeError(e.error.value)) else None, 1, n + 1);
    OptionalPlain("artifacts", if e.artifacts != [] then Some(Array(EncodeArtifacts(e.artifacts))) else None, 2, n + 1);
    OptionalPlain("extensions", if e.extensions != [] then Some(Object(parts)) else None, n + 1, n + 1);
    OptionalPlain("truncation", if e.truncation.Some? then Some(EncodeTruncation(e.truncation.value)) else None, 1, n + 1);
    var execution := if e.execution.Some? then [Member("execution", EncodeExecution(e.execution.value))] else [];
    var error := if e.error.Some? then [Member("error", EncodeError(e.error.value))] else [];
    var artifacts := if e.artifacts != [] then [Member("artifacts", Array(EncodeArtifacts(e.artifacts)))] else [];
    var extensions := if e.extensions != [] then [Member("extensions", Object(parts))] else [];
    var truncation := if e.truncation.Some? then [Member("truncation", EncodeTruncation(e.truncation.value))] else [];
    AllConcat(execution, error, n + 1);
    AllConcat(execution + error, artifacts, n + 1);
    AllConcat(execution + error + artifacts, extensions, n + 1);
    AllConcat(execution + error + artifacts + extensions, truncation, n + 1);
    if e.extensions != [] {
      MemberPlain("extensions", Object(parts), n + 1);
      assert TailMembers(json, e)[|execution + error + artifacts|] == extensions[0];
    }
  }

  lemma ListPlain(parts: seq<bytes>, n: nat)
    requires AllPlain(parts, n)
    ensures Plain(Array(parts), n + 1) && Plain(Object(parts), n + 1)
    ensures forall i :: 0 <= i < |parts| ==> Nesting(parts[i]) < Nesting(Object(parts))
  {
    hide Plain, AllPlain, Join, Nesting;
    BracketPlain(0x5B, parts, 0x5D, n);
    BracketPlain(0x7B, parts, 0x7D, n);
  }

  /** Every value that the envelope carries is nested at most `n` deep. */
  ghost predicate ValuesWithin(e: Envelope, n: nat) {
    (e.output.Some? ==> Nesting(e.output.value.value) <= n) && ExtensionsWithin(e.extensions, n)
  }

  /** The encoding is two levels deeper than what it carries. */
  lemma EncodePlain(json: JsonRules, e: Envelope, n: nat)
    requires Sound(json) && Validates(json, e) && PlainTexts(e) && n >= 1 && ValuesWithin(e, n)
    ensures Plain(Encode(json, e), n + 2)
    ensures e.output.Some? ==> Nesting(e.output.value.value) + 2 <= Nesting(Encode(json, e))
    ensures forall k :: 0 <= k < |e.extensions| ==> Nesting(e.extensions[k].value) + 2 <= Nesting(Encode(json, e))
  {
    hide Plain, AllPlain, Join, HeadMembers, TailMembers, Sound, Validates, PlainTexts, Nesting, ValidExtension,
         ValidOutput;
    ValidParts(json, e);
    HeadPlain(json, e, n);
    TailPlain(json, e, n);
    var head, tail := HeadMembers(json, e), TailMembers(json, e);
    AllConcat(head, tail, n + 1);
    BracketPlain(0x7B, head + tail, 0x7D, n + 1);
    assert Encode(json, e) == [0x7B] + Join(head + tail) + [0x7D];
    assert forall i :: 0 <= i < |head| ==> head[i] == (head + tail)[i];
    assert forall i :: 0 <= i < |tail| ==> tail[i] == (head + tail)[|head| + i];
  }

  lemma ValuesWithinMaximum(json: JsonRules, e: Envelope)
    requires Sound(json) && Validates(json, e)
    ensures ValuesWithin(e, MAX_DEPTH)
  {
    hide Validates, Nesting, Nests, Blank, Printable, TruncatedValue;
    ValidParts(json, e);
    forall i | 0 <= i < |e.extensions| ensures Nesting(e.extensions[i].value) <= MAX_DEPTH {
      assert ValidExtension(json, e.extensions[i]);
    }
  }

  /** The encoding of a valid envelope is a single line without control characters. */
  lemma EncodePrintable(json: JsonRules, e: Envelope)
    requires Sound(json) && Validates(json, e) && PlainTexts(e)
    ensures Printable(Encode(json, e))
  {
    hide Printable, Encode, Sound, Validates, PlainTexts, Nesting, Nests, ValuesWithin;
    ValuesWithinMaximum(json, e);
    EncodePlain(json, e, MAX_DEPTH);
  }

  /** An envelope decodes exactly when no value it carries is nested deeper than two below the limit. */
  lemma DecodesIff(json: JsonRules, e: Envelope)
    requires Sound(json) && Validates(json, e) && PlainTexts(e)
    ensures Decodes(json, e) <==> ValuesWithin(e, MAX_DEPTH - 2)
  {
    hide Printable, Encode, Sound, Validates, PlainTexts, Nesting, Nests;
    ValuesWithinMaximum(json, e);
    EncodePlain(json, e, MAX_DEPTH);
    if ValuesWithin(e, MAX_DEPTH - 2) { EncodePlain(json, e, MAX_DEPTH - 2); }
  }

  /** The encoding of an envelope is one object: `{` first and `}` last. */
  lemma EncodedAsObject(json: JsonRules, e: Envelope)
    ensures var s := Encode(json, e); |s| >= 2 && s[0] == 0x7B && s[|s| - 1] == 0x7D
  {
    hide Members, Join;
  }
}
