/**
 The reporter's capture of a child's standard output: a bounded buffer for the line being read, and
 the last line that qualifies. What it reports is a function of the whole lines received.
 */
module ReporterCapture {
  import opened Prelude
  import opened Bytes

  datatype Format = LastLine | KontextEnvelope

  datatype CapturedResult = CapturedResult(data: bytes, found: bool, truncated: bool, originalBytes: nat)

  const NOTHING := CapturedResult([], false, false, 0)

  /** "KONTEXT_RESULT:" */
  function EnvelopeLinePrefix(): bytes { Ascii("KONTEXT_RESULT:") }

  function ExtractEnvelopePayload(line: bytes): Option<bytes> {
    var trimmed := TrimSpace(line);
    if EnvelopeLinePrefix() <= trimmed then Some(TrimSpace(trimmed[|EnvelopeLinePrefix()|..])) else None
  }

  /* The stream as the child wrote it */

  /** A byte received, and whether it was the first one of its Write. */
  datatype Arrival = Arrival(value: byte, opens: bool)

  /** A whole line without its newline, and whether that newline was the first byte of its Write. */
  datatype Line = Line(text: bytes, split: bool)

  function Arrivals(data: bytes): seq<Arrival> {
    seq(|data|, i requires 0 <= i < |data| => Arrival(data[i], i == 0))
  }

  function Values(s: seq<Arrival>): bytes {
    seq(|s|, i requires 0 <= i < |s| => s[i].value)
  }

  function Lines(s: seq<Arrival>): seq<Line> {
    if s == [] then []
    else
      var init, last := s[..|s| - 1], s[|s| - 1];
      if last.value == NEWLINE then Lines(init) + [Line(Rest(init), last.opens)] else Lines(init)
  }

  /** The line that has begun. */
  function Rest(s: seq<Arrival>): bytes {
    if s == [] || s[|s| - 1].value == NEWLINE then [] else Rest(s[..|s| - 1]) + [s[|s| - 1].value]
  }

  /* What a line contributes */

  function Head(s: bytes, n: nat): bytes { if n < |s| then s[..n] else s }

  /** The bytes of a line that were kept, without the carriage return. */
  function Kept(text: bytes, maxBytes: nat): bytes { TrimCarriageReturn(Head(text, maxBytes)) }

  function Payload(format: Format, text: bytes, maxBytes: nat): Option<bytes> {
    var line := Kept(text, maxBytes);
    if Blank(line) then None
    else if format.LastLine? then Some(line)
    else ExtractEnvelopePayload(line)
  }

  /** A line of exactly `maxBytes` counts as truncated too when its newline came on its own. */
  predicate Truncated(line: Line, maxBytes: nat) {
    |line.text| > maxBytes || (|line.text| == maxBytes && line.split)
  }

  /** The last line that qualifies. */
  function Fold(format: Format, maxBytes: nat, lines: seq<Line>): CapturedResult {
    if lines == [] then NOTHING
    else
      var line := lines[|lines| - 1];
      match Payload(format, line.text, maxBytes)
      case Some(data) => CapturedResult(data, true, Truncated(line, maxBytes), |line.text|)
      case None => Fold(format, maxBytes, lines[..|lines| - 1])
  }

  /** A line that the stream leaves without its newline counts as well. */
  function Closed(s: seq<Arrival>): seq<Arrival> {
    if Rest(s) == [] then s else s + [Arrival(NEWLINE, false)]
  }

  function Outcome(format: Format, maxBytes: nat, s: seq<Arrival>): CapturedResult {
    Fold(format, maxBytes, Lines(Closed(s)))
  }

  /* The machine */

  lemma {:induction false} NoNewline(s: seq<Arrival>, t: seq<Arrival>)
    requires NEWLINE !in Values(t)
    ensures Lines(s + t) == Lines(s) && Rest(s + t) == Rest(s) + Values(t)
  {
    if t == [] {
      assert s + t == s;
    } else {
      var n := |t| - 1;
      assert (s + t)[..|s + t| - 1] == s + t[..n];
      assert Values(t)[n] == t[n].value;
      assert Values(t) == Values(t[..n]) + [t[n].value];
      NoNewline(s, t[..n]);
    }
  }

  lemma OneNewline(s: seq<Arrival>, opens: bool)
    ensures Lines(s + [Arrival(NEWLINE, opens)]) == Lines(s) + [Line(Rest(s), opens)]
    ensures Rest(s + [Arrival(NEWLINE, opens)]) == []
  {
    var t := s + [Arrival(NEWLINE, opens)];
    assert t[..|t| - 1] == s;
  }

  lemma ArrivalsLength(data: bytes)
    ensures |Arrivals(data)| == |data|
  {
  }

  lemma WholeSlice<T>(start: seq<T>, s: seq<T>)
    ensures start + s[..0] == start && s[..|s|] == s
  {
  }

  lemma JoinSlices<T>(start: seq<T>, s: seq<T>, from: nat, to: nat)
    requires from <= to <= |s|
    ensures start + s[..from] + s[from..to] == start + s[..to]
  {
    assert s[..from] + s[from..to] == s[..to];
  }

  lemma BlankNothing()
    ensures Blank([])
  {
  }

  lemma FoldNext(format: Format, maxBytes: nat, lines: seq<Line>, line: Line)
    ensures Fold(format, maxBytes, lines + [line]) ==
            match Payload(format, line.text, maxBytes)
            case Some(data) => CapturedResult(data, true, Truncated(line, maxBytes), |line.text|)
            case None => Fold(format, maxBytes, lines)
  {
    hide Payload, Truncated;
    assert (lines + [line])[..|lines|] == lines;
  }

  lemma NoNewlineArrives(s: seq<Arrival>, data: bytes, from: nat, to: nat)
    requires from <= to <= |data| && NEWLINE !in data[from..to]
    ensures |Arrivals(data)| == |data|
    ensures Lines(s + Arrivals(data)[from..to]) == Lines(s)
    ensures Rest(s + Arrivals(data)[from..to]) == Rest(s) + data[from..to]
  {
    hide Lines, Rest;
    var t := Arrivals(data)[from..to];
    assert Values(t) == data[from..to];
    NoNewline(s, t);
  }

  lemma LineArrives(s: seq<Arrival>, data: bytes, from: nat, n: nat)
    requires from + n < |data| && NEWLINE !in data[from..][..n] && data[from + n] == NEWLINE
    ensures |Arrivals(data)| == |data|
    ensures var t := s + Arrivals(data)[from..from + n + 1];
            Lines(t) == Lines(s) + [Line(Rest(s) + data[from..][..n], from + n == 0)] && Rest(t) == []
  {
    hide Lines, Rest;
    assert data[from..][..n] == data[from..from + n];
    NoNewlineArrives(s, data, from, from + n);
    var t := Arrivals(data)[from..from + n];
    var last := Arrivals(data)[from + n];
    assert last == Arrival(NEWLINE, from + n == 0);
    OneNewline(s + t, last.opens);
    assert s + Arrivals(data)[from..from + n + 1] == s + t + [last];
  }

  /** An empty piece marks a full buffer, and arrives only when a newline opens its Write. */
  lemma FlagIsExact(line: Line, maxBytes: nat, text: bytes, piece: bytes, done: nat)
    requires line == Line(text + piece, done + |piece| == 0) && (done > 0 ==> text == [])
    requires Head(line.text, maxBytes) != []
    ensures |line.text| > maxBytes || (piece == [] && |text| == maxBytes) <==> Truncated(line, maxBytes)
  {
  }

  class Capture {
    const format: Format
    const maxBytes: nat

    var current: bytes
    var currentTotal: nat
    var currentTruncated: bool
    var lastLine: CapturedResult
    var candidate: CapturedResult

    /** Everything received so far. */
    ghost var received: seq<Arrival>

    /** The buffer against the line that has begun. */
    ghost predicate Holds(text: bytes)
      reads this
    {
      current == Head(text, maxBytes) && currentTotal == |text| && (currentTruncated <==> |text| > maxBytes)
    }

    ghost predicate Remembers(lines: seq<Line>)
      reads this
    {
      && lastLine == (if format.LastLine? then Fold(format, maxBytes, lines) else NOTHING)
      && candidate == (if format.KontextEnvelope? then Fold(format, maxBytes, lines) else NOTHING)
    }

    ghost predicate Valid()
      reads this
    {
      Holds(Rest(received)) && Remembers(Lines(received))
    }

    constructor (format: Format, maxBytes: nat)
      ensures Valid() && received == [] && this.format == format && this.maxBytes == maxBytes
    {
      this.format := format;
      this.maxBytes := maxBytes;
      current, currentTotal, currentTruncated := [], 0, false;
      lastLine, candidate := NOTHING, NOTHING;
      received := [];
    }

    /** `text` grows by `data`; an empty `data` marks a full buffer as truncated. */
    method AppendCurrent(data: bytes, ghost text: bytes)
      requires Holds(text)
      modifies this`current, this`currentTotal, this`currentTruncated
      ensures current == Head(text + data, maxBytes) && currentTotal == |text + data|
      ensures currentTruncated <==> |text + data| > maxBytes || (data == [] && |text| == maxBytes)
    {
      currentTotal := currentTotal + |data|;
      var remaining := maxBytes - |current|;
      if remaining <= 0 {
        currentTruncated := true;
        assert data != [] ==> |text + data| > maxBytes;
        assert Head(text + data, maxBytes) == Head(text, maxBytes);
        return;
      }
      assert text == current;
      if |data| > remaining {
        current := current + data[..remaining];
        currentTruncated := true;
        assert (text + data)[..maxBytes] == text + data[..remaining];
        return;
      }
      current := current + data;
    }

    method CompleteLine(ghost line: Line, ghost lines: seq<Line>)
      requires current == Head(line.text, maxBytes) && currentTotal == |line.text|
      requires current != [] ==> (currentTruncated <==> Truncated(line, maxBytes))
      requires Remembers(lines)
      modifies this`current, this`currentTotal, this`currentTruncated, this`lastLine, this`candidate
      ensures Holds([]) && Remembers(lines + [line])
    {
      FoldNext(format, maxBytes, lines, line);
      BlankNothing();
      hide Blank, EnvelopeLinePrefix, ExtractEnvelopePayload, Fold, Truncated;
      var text := TrimCarriageReturn(current);
      if !Blank(text) {
        match format {
          case LastLine =>
            lastLine := CapturedResult(text, true, currentTruncated, currentTotal);
          case KontextEnvelope =>
            var payload := ExtractEnvelopePayload(text);
            if payload.Some? {
              candidate := CapturedResult(payload.value, true, currentTruncated, currentTotal);
            }
        }
      }
      current, currentTotal, currentTruncated := [], 0, false;
    }

    method Write(data: bytes) returns (written: nat)
      requires Valid()
      modifies this
      ensures Valid() && written == |data|
      ensures received == old(received) + Arrivals(data)
    {
      hide *;
      written := |data|;
      var pending := data;
      ghost var start := received;
      ghost var done: nat := 0;
      ArrivalsLength(data);
      WholeSlice(start, Arrivals(data));
      while |pending| > 0
        invariant done <= |data| == |Arrivals(data)| && pending == data[done..]
        invariant done > 0 ==> Rest(received) == []
        invariant Valid() && received == start + Arrivals(data)[..done]
        decreases |pending|
      {
        var newline := IndexOf(pending, NEWLINE);
        if newline.None? {
          AppendTail(pending, data, done);
          JoinSlices(start, Arrivals(data), done, |data|);
          return;
        }
        AppendLine(pending, newline.value, data, done);
        ghost var next := done + newline.value + 1;
        JoinSlices(start, Arrivals(data), done, next);
        pending := pending[newline.value + 1..];
        done := next;
      }
    }

    /** The last piece of a Write, which has no newline. */
    method AppendTail(pending: bytes, ghost data: bytes, ghost done: nat)
      requires Valid() && done < |data| == |Arrivals(data)| && pending == data[done..] && NEWLINE !in pending
      modifies this
      ensures Valid() && received == old(received) + Arrivals(data)[done..|data|]
    {
      hide Lines, Rest, Values, Arrivals, Fold, Truncated, Head;
      assert pending == data[done..|data|];
      NoNewlineArrives(received, data, done, |data|);
      AppendCurrent(pending, Rest(received));
      received := received + Arrivals(data)[done..|data|];
    }

    /** One line of a Write, up to and with its newline. */
    method AppendLine(pending: bytes, n: nat, ghost data: bytes, ghost done: nat)
      requires Valid() && done < |data| == |Arrivals(data)| && pending == data[done..]
      requires n < |pending| && pending[n] == NEWLINE && NEWLINE !in pending[..n]
      requires done > 0 ==> Rest(received) == []
      modifies this
      ensures Valid() && Rest(received) == []
      ensures received == old(received) + Arrivals(data)[done..done + n + 1]
    {
      hide Lines, Rest, Values, Arrivals, Fold, Truncated, Head;
      ghost var text := Rest(received);
      LineArrives(received, data, done, n);
      AppendCurrent(pending[..n], text);
      ghost var line := Line(text + pending[..n], done + n == 0);
      if current != [] { FlagIsExact(line, maxBytes, text, pending[..n], done); }
      CompleteLine(line, Lines(received));
      received := received + Arrivals(data)[done..done + n + 1];
    }

    /** Closes an unfinished line; the state is then as if its newline had arrived. */
    method Result() returns (r: CapturedResult)
      requires Valid()
      modifies this
      ensures Valid() && received == Closed(old(received))
      ensures r == Outcome(format, maxBytes, old(received))
    {
      hide Lines, Rest, Fold;
      if currentTotal > 0 {
        OneNewline(received, false);
        CompleteLine(Line(Rest(received), false), Lines(received));
        received := received + [Arrival(NEWLINE, false)];
      }
      match format {
        case LastLine => r := lastLine;
        case KontextEnvelope => r := candidate;
      }
    }
  }

  /* How the stream was cut into writes */

  lemma {:induction false} SameTexts(s: seq<Arrival>, t: seq<Arrival>)
    requires Values(s) == Values(t)
    ensures Rest(s) == Rest(t) && |Lines(s)| == |Lines(t)|
    ensures forall i :: 0 <= i < |Lines(s)| ==> Lines(s)[i].text == Lines(t)[i].text
  {
    assert |s| == |Values(s)| == |t|;
    if s != [] {
      var n := |s| - 1;
      assert s[n].value == Values(s)[n] == t[n].value;
      assert Values(s[..n]) == Values(s)[..n] == Values(t[..n]);
      SameTexts(s[..n], t[..n]);
    }
  }

  lemma {:induction false} SameFold(format: Format, maxBytes: nat, a: seq<Line>, b: seq<Line>)
    requires |a| == |b| && forall i :: 0 <= i < |a| ==> a[i].text == b[i].text
    ensures var r, q := Fold(format, maxBytes, a), Fold(format, maxBytes, b);
            && r.(truncated := q.truncated) == q
            && (r.originalBytes != maxBytes ==> r == q && (r.found ==> (r.truncated <==> r.originalBytes > maxBytes)))
  {
    hide Payload;
    if a != [] {
      var n := |a| - 1;
      assert a[n].text == b[n].text;
      SameFold(format, maxBytes, a[..n], b[..n]);
    }
  }

  /**
   Cutting the same bytes into other writes changes at most the truncation flag, and that only when
   the reported line has exactly `maxBytes` bytes; otherwise the flag says whether it was longer.
   */
  lemma ChunkingIrrelevant(format: Format, maxBytes: nat, s: seq<Arrival>, t: seq<Arrival>)
    requires Values(s) == Values(t)
    ensures var r, q := Outcome(format, maxBytes, s), Outcome(format, maxBytes, t);
            && r.(truncated := q.truncated) == q
            && (r.originalBytes != maxBytes ==> r == q && (r.found ==> (r.truncated <==> r.originalBytes > maxBytes)))
  {
    SameTexts(s, t);
    SameClosed(s, t);
    SameTexts(Closed(s), Closed(t));
    hide Fold, Lines, Rest, Closed;
    SameFold(format, maxBytes, Lines(Closed(s)), Lines(Closed(t)));
  }

  lemma SameClosed(s: seq<Arrival>, t: seq<Arrival>)
    requires Values(s) == Values(t) && Rest(s) == Rest(t)
    ensures Values(Closed(s)) == Values(Closed(t))
  {
    var newline := [Arrival(NEWLINE, false)];
    assert Values(s + newline) == Values(s) + [NEWLINE] && Values(t + newline) == Values(t) + [NEWLINE];
  }

  /** Every byte in a Write of its own. */
  function Bytewise(data: bytes): seq<Arrival> {
    seq(|data|, i requires 0 <= i < |data| => Arrival(data[i], true))
  }

  lemma {:induction false} BytewiseSplits(s: seq<Arrival>)
    requires forall i :: 0 <= i < |s| ==> s[i].opens
    ensures forall i :: 0 <= i < |Lines(s)| ==> Lines(s)[i].split
  {
    if s != [] { BytewiseSplits(s[..|s| - 1]); }
  }

  lemma {:induction false} OneWriteKeepsTogether(s: seq<Arrival>)
    requires forall i :: 0 < i < |s| ==> !s[i].opens
    ensures forall i :: 0 <= i < |Lines(s)| && Lines(s)[i].split ==> Lines(s)[i].text == []
  {
    if s != [] { OneWriteKeepsTogether(s[..|s| - 1]); }
  }

  /** The position of the last line that qualifies. */
  function LastQualifying(format: Format, maxBytes: nat, lines: seq<Line>): (r: Option<nat>)
    ensures r.Some? ==> r.value < |lines|
  {
    if lines == [] then None
    else if Payload(format, lines[|lines| - 1].text, maxBytes).Some? then Some(|lines| - 1)
    else LastQualifying(format, maxBytes, lines[..|lines| - 1])
  }

  lemma {:induction false} LastQualifies(format: Format, maxBytes: nat, lines: seq<Line>)
    ensures var r := LastQualifying(format, maxBytes, lines);
            r.Some? ==> Payload(format, lines[r.value].text, maxBytes).Some?
  {
    hide Payload;
    if lines != [] { LastQualifies(format, maxBytes, lines[..|lines| - 1]); }
  }

  lemma {:induction false} FoldIsLastQualifying(format: Format, maxBytes: nat, lines: seq<Line>)
    ensures Fold(format, maxBytes, lines) ==
            match LastQualifying(format, maxBytes, lines)
            case None => NOTHING
            case Some(i) =>
              match Payload(format, lines[i].text, maxBytes)
              case Some(data) => CapturedResult(data, true, Truncated(lines[i], maxBytes), |lines[i].text|)
              case None => NOTHING
  {
    hide Payload, Truncated;
    if lines != [] && Payload(format, lines[|lines| - 1].text, maxBytes).None? {
      FoldIsLastQualifying(format, maxBytes, lines[..|lines| - 1]);
    }
  }

  lemma {:induction false} SameLastQualifying(format: Format, maxBytes: nat, a: seq<Line>, b: seq<Line>)
    requires |a| == |b| && forall i :: 0 <= i < |a| ==> a[i].text == b[i].text
    ensures LastQualifying(format, maxBytes, a) == LastQualifying(format, maxBytes, b)
  {
    hide Payload;
    if a != [] {
      var n := |a| - 1;
      assert a[n].text == b[n].text;
      SameLastQualifying(format, maxBytes, a[..n], b[..n]);
    }
  }

  lemma QualifyingNotEmpty(format: Format, maxBytes: nat, text: bytes)
    requires Payload(format, text, maxBytes).Some?
    ensures text != []
  {
    BlankNothing();
    hide Blank;
  }

  lemma ArrivalsOpen(data: bytes)
    ensures Values(Arrivals(data)) == data == Values(Bytewise(data))
    ensures forall i :: 0 < i < |Arrivals(data)| ==> !Arrivals(data)[i].opens
    ensures forall i :: 0 <= i < |Bytewise(data)| ==> Bytewise(data)[i].opens
  {
  }

  /** The lines of a stream that is closed: the whole ones, and the unfinished one if there is one. */
  lemma ClosedLines(s: seq<Arrival>)
    ensures Lines(Closed(s)) == Lines(s) + if Rest(s) == [] then [] else [Line(Rest(s), false)]
  {
    OneNewline(s, false);
    hide Lines, Rest;
  }

  /**
   What exactly depends on the cut. Of the lines of `data`, an unfinished one included, let the i-th be the
   last that qualifies. One Write of everything reports it as truncated when it is longer than `maxBytes`,
   one Write per byte also when it has exactly `maxBytes` bytes and a newline of its own; so the two differ
   in that case and in no other.
   */
  lemma FlagDependsOnChunks(format: Format, maxBytes: nat, data: bytes)
    requires maxBytes > 0
    ensures var lines := Lines(Closed(Arrivals(data)));
            var whole, single := Outcome(format, maxBytes, Arrivals(data)), Outcome(format, maxBytes, Bytewise(data));
            match LastQualifying(format, maxBytes, lines)
            case None => whole == single == NOTHING
            case Some(i) =>
              && (whole.truncated <==> |lines[i].text| > maxBytes)
              && (single.truncated <==> |lines[i].text| > maxBytes || (|lines[i].text| == maxBytes && i < |Lines(Arrivals(data))|))
              && (whole == single <==> !(|lines[i].text| == maxBytes && i < |Lines(Arrivals(data))|))
  {
    hide Fold, Lines, Rest, Values, Arrivals, Bytewise, Payload, Closed, LastQualifying;
    var a, b := Arrivals(data), Bytewise(data);
    ArrivalsOpen(data);
    ClosedLines(a);
    ClosedLines(b);
    SameTexts(a, b);
    SameClosed(a, b);
    SameTexts(Closed(a), Closed(b));
    BytewiseSplits(b);
    OneWriteKeepsTogether(a);
    FoldIsLastQualifying(format, maxBytes, Lines(Closed(a)));
    FoldIsLastQualifying(format, maxBytes, Lines(Closed(b)));
    SameLastQualifying(format, maxBytes, Lines(Closed(a)), Lines(Closed(b)));
    LastQualifies(format, maxBytes, Lines(Closed(a)));
    var q := LastQualifying(format, maxBytes, Lines(Closed(a)));
    if q.Some? { QualifyingNotEmpty(format, maxBytes, Lines(Closed(a))[q.value].text); }
  }

  /* What is reported, in terms of the stream */

  function Unlines(lines: seq<Line>): bytes {
    if lines == [] then [] else Unlines(lines[..|lines| - 1]) + lines[|lines| - 1].text + [NEWLINE]
  }

  /** The lines and the one that has begun are the stream. */
  lemma {:induction false} LinesRebuild(s: seq<Arrival>)
    ensures Unlines(Lines(s)) + Rest(s) == Values(s)
  {
    if s != [] {
      var init, last := s[..|s| - 1], s[|s| - 1];
      LinesRebuild(init);
      hide Values;
      ValuesNext(s);
      if last.value == NEWLINE {
        var lines := Lines(init) + [Line(Rest(init), last.opens)];
        assert lines[..|lines| - 1] == Lines(init);
        Join(Unlines(Lines(init)), Rest(init), NEWLINE);
      } else {
        Join(Unlines(Lines(init)), Rest(init), last.value);
      }
    }
  }

  lemma ValuesNext(s: seq<Arrival>)
    requires s != []
    ensures Values(s) == Values(s[..|s| - 1]) + [s[|s| - 1].value]
  {
  }

  lemma Join(a: bytes, b: bytes, c: byte)
    ensures a + (b + [c]) == a + b + [c] && a + b + [c] + [] == a + b + [c]
  {
  }

  /** And no newline is inside of any. */
  lemma {:induction false} NoNewlineInside(s: seq<Arrival>)
    ensures NEWLINE !in Rest(s) && forall i :: 0 <= i < |Lines(s)| ==> NEWLINE !in Lines(s)[i].text
  {
    if s != [] { NoNewlineInside(s[..|s| - 1]); }
  }

  /** `line` is what is kept of `text`: as much as fits, without a carriage return at the end. */
  predicate KeptOf(text: bytes, maxBytes: nat, line: bytes) {
    var fits := text[..Min(|text|, maxBytes)];
    fits == line + [CARRIAGE_RETURN] || (fits == line && (line == [] || line[|line| - 1] != CARRIAGE_RETURN))
  }

  /** Blanks, the prefix, blanks, `data` and blanks. */
  ghost predicate EnvelopeWith(line: bytes, data: bytes) {
    && TrimSpace(data) == data
    && exists before, between, after ::
         && Blank(before) && Blank(between) && Blank(after)
         && line == before + Ascii("KONTEXT_RESULT:") + between + data + after
  }

  /** What a line with this text contributes. */
  ghost predicate Contributes(format: Format, maxBytes: nat, text: bytes, data: bytes) {
    exists line :: KeptOf(text, maxBytes, line) && !Blank(line)
                   && match format case LastLine => data == line case KontextEnvelope => EnvelopeWith(line, data)
  }

  lemma ExtractedFrom(line: bytes)
    ensures var payload := ExtractEnvelopePayload(line); payload.Some? ==> EnvelopeWith(line, payload.value)
  {
    hide EnvelopeLinePrefix, Blank, TrimSpace, EnvelopeWith;
    var payload := ExtractEnvelopePayload(line);
    if payload.Some? {
      var prefix, trimmed := EnvelopeLinePrefix(), TrimSpace(line);
      var before, after := TrimSplits(line);
      var rest := trimmed[|prefix|..];
      var between, behind := TrimSplits(rest);
      ExtractedParts(line, prefix, before, between, payload.value, behind, after);
      TrimSpaceTwice(rest);
      BlankConcat(behind, after);
      IsEnvelopeWith(line, before, between, payload.value, behind + after);
    }
  }

  lemma ExtractedParts(line: bytes, prefix: bytes, before: bytes, between: bytes, data: bytes, behind: bytes, after: bytes)
    requires line == before + (prefix + (between + data + behind)) + after
    ensures line == before + prefix + between + data + (behind + after)
  {
  }

  lemma IsEnvelopeWith(line: bytes, before: bytes, between: bytes, data: bytes, after: bytes)
    requires TrimSpace(data) == data && Blank(before) && Blank(between) && Blank(after)
    requires line == before + EnvelopeLinePrefix() + between + data + after
    ensures EnvelopeWith(line, data)
  {
    hide Blank, TrimSpace, Ascii;
  }

  lemma BlankConcat(a: bytes, b: bytes)
    requires Blank(a) && Blank(b)
    ensures Blank(a + b)
  {
    BlankOnLeft(a);
    BlankOnLeft(b);
    BlankOnLeft(a + b);
    TrimLeftConcat(a, b);
    hide Blank;
  }

  lemma TrimSpaceTwice(s: bytes)
    ensures TrimSpace(TrimSpace(s)) == TrimSpace(s)
  {
    TrimLeftTwice(s);
    TrimRightTwice(TrimLeft(s));
    LeftOfRight(TrimLeft(s));
  }

  lemma {:induction false} TrimRightTwice(s: bytes)
    ensures TrimRight(TrimRight(s)) == TrimRight(s)
  {
    if SpaceLenAtEnd(s) > 0 { TrimRightTwice(s[..|s| - SpaceLenAtEnd(s)]); }
  }

  /** Trimming on the right exposes no space on the left. */
  lemma LeftOfRight(s: bytes)
    requires TrimLeft(s) == s
    ensures TrimLeft(TrimRight(s)) == TrimRight(s)
  {
    hide SpaceLen, TrimRight;
    var r := TrimRight(s);
    if SpaceLen(r) > 0 {
      assert s == r + s[|r|..];
      SpaceLenPrefix(r, s[|r|..]);
    }
  }

  lemma PayloadContributes(format: Format, text: bytes, maxBytes: nat)
    requires Payload(format, text, maxBytes).Some?
    ensures Contributes(format, maxBytes, text, Payload(format, text, maxBytes).value)
  {
    hide Blank, ExtractEnvelopePayload, EnvelopeWith;
    var line := Kept(text, maxBytes);
    assert KeptOf(text, maxBytes, line);
    ExtractedFrom(line);
  }

  /** A line that is blank, or has no envelope where one is asked for. */
  ghost predicate ContributesNothing(format: Format, maxBytes: nat, text: bytes) {
    exists line :: KeptOf(text, maxBytes, line) && (Blank(line) || (format.KontextEnvelope? && ExtractEnvelopePayload(line).None?))
  }

  lemma NothingContributed(format: Format, text: bytes, maxBytes: nat)
    requires Payload(format, text, maxBytes).None?
    ensures ContributesNothing(format, maxBytes, text)
  {
    hide Blank, ExtractEnvelopePayload;
    assert KeptOf(text, maxBytes, Kept(text, maxBytes));
  }

  /** The i-th line is the last to contribute, and this is what is reported of it. */
  ghost predicate ReportedOf(format: Format, maxBytes: nat, lines: seq<Line>, i: nat, r: CapturedResult) {
    && i < |lines| && r.found && Contributes(format, maxBytes, lines[i].text, r.data) && r.originalBytes == |lines[i].text|
    && (r.truncated <==> |lines[i].text| > maxBytes || (|lines[i].text| == maxBytes && lines[i].split))
    && forall j :: i < j < |lines| ==> ContributesNothing(format, maxBytes, lines[j].text)
  }

  /**
   What the capture reports of a stream: the contribution of the last line that makes one, an unfinished
   line included, with the length of that line and whether it was longer than what could be kept.
   */
  lemma OutcomeIs(format: Format, maxBytes: nat, s: seq<Arrival>)
    ensures var r, lines := Outcome(format, maxBytes, s), Lines(s) + if Rest(s) == [] then [] else [Line(Rest(s), false)];
            || (r == CapturedResult([], false, false, 0)
                && forall j :: 0 <= j < |lines| ==> ContributesNothing(format, maxBytes, lines[j].text))
            || exists i :: ReportedOf(format, maxBytes, lines, i, r)
  {
    hide Fold, Lines, Rest, Payload, Closed, LastQualifying, Contributes, ContributesNothing;
    ClosedLines(s);
    var lines := Lines(Closed(s));
    FoldIsLastQualifying(format, maxBytes, lines);
    LastQualifies(format, maxBytes, lines);
    var q := LastQualifying(format, maxBytes, lines);
    forall j | (if q.Some? then q.value < j else 0 <= j) && j < |lines| ensures ContributesNothing(format, maxBytes, lines[j].text) {
      NoneLater(format, maxBytes, lines, j);
      NothingContributed(format, lines[j].text, maxBytes);
    }
    if q.Some? {
      PayloadContributes(format, lines[q.value].text, maxBytes);
      assert ReportedOf(format, maxBytes, lines, q.value, Outcome(format, maxBytes, s));
    }
  }

  /** It is the last one: no later line qualifies. */
  lemma {:induction false} NoneLater(format: Format, maxBytes: nat, lines: seq<Line>, j: nat)
    requires j < |lines|
    requires match LastQualifying(format, maxBytes, lines) case None => true case Some(i) => i < j
    ensures Payload(format, lines[j].text, maxBytes).None?
  {
    hide Payload;
    if j < |lines| - 1 { NoneLater(format, maxBytes, lines[..|lines| - 1], j); }
  }
}
