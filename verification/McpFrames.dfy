/**
 The frames an MCP server writes to its standard output: only whole frames that are blank or JSON and
 within the limit are handed on, and nothing of the first bad frame.
 */
module McpFrames {
  import opened Prelude
  import opened Bytes

  /** How the source ends: properly, or with an error of its own. */
  datatype SourceEnd = Eof | Broken(code: int)

  datatype ReadError = EndOfFile | SourceError(code: int) | FrameLimitExceeded | InvalidFrame

  /** What a bufio.Reader says along with a fragment. */
  datatype SliceEnd = Delimited | BufferFull | Ended

  function Content(frame: bytes): bytes {
    if frame != [] && frame[|frame| - 1] == NEWLINE then frame[..|frame| - 1] else frame
  }

  predicate Good(validJson: bytes -> bool, limit: int, frame: bytes) {
    |Content(frame)| <= limit && (Blank(Content(frame)) || validJson(Content(frame)))
  }

  /** The first frame of a non-empty stream; an unfinished one counts as well. */
  function FirstFrame(s: bytes): (frame: bytes)
    requires s != []
    ensures frame != [] && frame <= s
  {
    match IndexOf(s, NEWLINE) case Some(i) => s[..i + 1] case None => s
  }

  predicate Finished(s: bytes) { NEWLINE in s }

  /** The good frames at the start of a stream. */
  function Deliverable(validJson: bytes -> bool, limit: int, end: SourceEnd, s: bytes): (d: bytes)
    ensures d <= s
    decreases |s|
  {
    if s == [] then []
    else
      var frame := FirstFrame(s);
      if !Good(validJson, limit, frame) || (!Finished(s) && end.Broken?) then []
      else
        var rest := Deliverable(validJson, limit, end, s[|frame|..]);
        PrefixJoins(s, frame, rest);
        frame + rest
  }

  lemma PrefixJoins(s: bytes, frame: bytes, rest: bytes)
    requires frame <= s && rest <= s[|frame|..]
    ensures frame + rest <= s
  {
  }

  /** The error that the stream ends in. */
  function FinalError(validJson: bytes -> bool, limit: int, end: SourceEnd, s: bytes): ReadError
    decreases |s|
  {
    if s == [] then EndError(end)
    else
      var frame := FirstFrame(s);
      if |Content(frame)| > limit then FrameLimitExceeded
      else if !Finished(s) && end.Broken? then EndError(end)
      else if !Good(validJson, limit, frame) then InvalidFrame
      else FinalError(validJson, limit, end, s[|frame|..])
  }

  function EndError(end: SourceEnd): ReadError {
    match end case Eof => EndOfFile case Broken(code) => SourceError(code)
  }

  /* The longest prefix of good frames */

  ghost predicate AllGood(validJson: bytes -> bool, limit: int, s: bytes)
    decreases |s|
  {
    s != [] ==> var frame := FirstFrame(s);
                Good(validJson, limit, frame) && AllGood(validJson, limit, s[|frame|..])
  }

  /** A prefix of the stream made of whole good frames. */
  ghost predicate GoodPrefix(validJson: bytes -> bool, limit: int, end: SourceEnd, s: bytes, q: bytes) {
    && q <= s && AllGood(validJson, limit, q)
    && (q != [] ==> q[|q| - 1] == NEWLINE || (q == s && end.Eof?))
  }

  lemma FirstOfPrefix(s: bytes, q: bytes)
    requires q <= s && q != [] && (q[|q| - 1] == NEWLINE || q == s)
    ensures FirstFrame(q) == FirstFrame(s)
  {
    if q != s {
      var i := |q| - 1;
      var first := IndexOf(q, NEWLINE).value;
      assert q[i] == NEWLINE;
      assert s[first] == q[first] && s[..first] == q[..first];
      FirstIndex(s, NEWLINE, first);
      assert q[..first + 1] == s[..first + 1];
    }
  }

  /** What is handed on is the longest prefix of whole good frames. */
  lemma DeliverableIsLongest(validJson: bytes -> bool, limit: int, end: SourceEnd, s: bytes)
    ensures GoodPrefix(validJson, limit, end, s, Deliverable(validJson, limit, end, s))
    ensures forall q :: GoodPrefix(validJson, limit, end, s, q) ==> q <= Deliverable(validJson, limit, end, s)
  {
    hide *;
    DeliverableIsGood(validJson, limit, end, s);
    forall q | GoodPrefix(validJson, limit, end, s, q) ensures q <= Deliverable(validJson, limit, end, s) {
      GoodIsDeliverable(validJson, limit, end, s, q);
    }
  }

  lemma {:induction false} DeliverableIsGood(validJson: bytes -> bool, limit: int, end: SourceEnd, s: bytes)
    ensures GoodPrefix(validJson, limit, end, s, Deliverable(validJson, limit, end, s))
    decreases |s|
  {
    hide Good, IndexOf, FirstFrame, Finished;
    if s != [] {
      var frame := FirstFrame(s);
      var rest := s[|frame|..];
      if Good(validJson, limit, frame) && (Finished(s) || end.Eof?) {
        DeliverableIsGood(validJson, limit, end, rest);
        FrameEnds(s);
        FrameThenRest(validJson, limit, end, s, frame, Deliverable(validJson, limit, end, rest));
      }
    }
  }

  lemma FrameThenRest(validJson: bytes -> bool, limit: int, end: SourceEnd, s: bytes, frame: bytes, tail: bytes)
    requires s != [] && frame == FirstFrame(s) && Good(validJson, limit, frame)
    requires if frame[|frame| - 1] == NEWLINE then true else frame == s && end.Eof?
    requires GoodPrefix(validJson, limit, end, s[|frame|..], tail)
    ensures GoodPrefix(validJson, limit, end, s, frame + tail)
  {
    hide Good, IndexOf, FirstFrame;
    var d := frame + tail;
    assert s == frame + s[|frame|..];
    if tail == [] { assert d == frame; } else { assert d[|d| - 1] == tail[|tail| - 1]; }
    assert d[|frame|..] == tail;
    FirstOfPrefix(s, d);
  }

  lemma {:induction false} GoodIsDeliverable(validJson: bytes -> bool, limit: int, end: SourceEnd, s: bytes, q: bytes)
    requires GoodPrefix(validJson, limit, end, s, q)
    ensures q <= Deliverable(validJson, limit, end, s)
    decreases |s|
  {
    hide Good, IndexOf, FirstFrame, Finished;
    if q != [] {
      var frame := FirstFrame(s);
      FirstOfPrefix(s, q);
      NoNewlineInPrefix(s, q);
      PrefixRest(validJson, limit, end, s, q);
      GoodIsDeliverable(validJson, limit, end, s[|frame|..], q[|frame|..]);
      assert q == frame + q[|frame|..];
    }
  }

  lemma FrameEnds(s: bytes)
    requires s != []
    ensures if Finished(s) then FirstFrame(s)[|FirstFrame(s)| - 1] == NEWLINE else FirstFrame(s) == s
  {
  }

  lemma NoNewlineInPrefix(s: bytes, q: bytes)
    requires q <= s && q != []
    ensures q[|q| - 1] == NEWLINE ==> Finished(s)
  {
    assert q[|q| - 1] == s[|q| - 1];
  }

  lemma PrefixRest(validJson: bytes -> bool, limit: int, end: SourceEnd, s: bytes, q: bytes)
    requires s != [] && q != [] && GoodPrefix(validJson, limit, end, s, q) && FirstFrame(q) == FirstFrame(s)
    ensures var frame := FirstFrame(s); GoodPrefix(validJson, limit, end, s[|frame|..], q[|frame|..])
  {
    hide Good, IndexOf;
    var frame := FirstFrame(s);
    var rest := q[|frame|..];
    if rest != [] { assert rest[|rest| - 1] == q[|q| - 1]; }
  }

  /* The same by the lines of the stream */

  /** The lines, each with its newline. */
  function Unlines(lines: seq<bytes>): bytes {
    if lines == [] then [] else lines[0] + [NEWLINE] + Unlines(lines[1..])
  }

  /** A line that may be handed on: blank, or JSON, and not too long. */
  predicate Passes(validJson: bytes -> bool, limit: int, line: bytes) {
    |line| <= limit && (Blank(line) || validJson(line))
  }

  /** Why a line may not be handed on. */
  function Objection(limit: int, line: bytes): ReadError { if |line| > limit then FrameLimitExceeded else InvalidFrame }

  lemma FirstLine(line: bytes, rest: bytes)
    requires NEWLINE !in line
    ensures var s := line + [NEWLINE] + rest;
            FirstFrame(s) == line + [NEWLINE] && Finished(s) && Content(FirstFrame(s)) == line && s[|line| + 1..] == rest
  {
    var s := line + [NEWLINE] + rest;
    assert s[|line|] == NEWLINE && s[..|line|] == line;
    FirstIndex(s, NEWLINE, |line|);
    assert s[..|line| + 1] == line + [NEWLINE];
    assert (line + [NEWLINE])[..|line|] == line;
  }

  /**
   Of complete lines followed by the beginning of one: if a line may not pass, those before the first such line
   are handed out, and then comes the objection to it. Otherwise all of them are, then the beginning if it may
   pass and the source ended properly, and then comes the objection to it or the end of the source.
   */
  lemma {:induction false} HandedOut(validJson: bytes -> bool, limit: int, end: SourceEnd, lines: seq<bytes>, tail: bytes, k: nat)
    requires NEWLINE !in tail && (forall i :: 0 <= i < |lines| ==> NEWLINE !in lines[i])
    requires k <= |lines| && (forall i :: 0 <= i < k ==> Passes(validJson, limit, lines[i]))
    requires k < |lines| ==> !Passes(validJson, limit, lines[k])
    ensures var s := Unlines(lines) + tail;
            var handed, error := Deliverable(validJson, limit, end, s), FinalError(validJson, limit, end, s);
            if k < |lines| then handed == Unlines(lines[..k]) && error == Objection(limit, lines[k])
            else if tail == [] then handed == Unlines(lines) && error == EndError(end)
            else if |tail| > limit then handed == Unlines(lines) && error == FrameLimitExceeded
            else if end.Broken? then handed == Unlines(lines) && error == SourceError(end.code)
            else if !Passes(validJson, limit, tail) then handed == Unlines(lines) && error == InvalidFrame
            else handed == Unlines(lines) + tail && error == EndOfFile
    decreases |lines|
  {
    hide Deliverable, FinalError, Passes;
    var s := Unlines(lines) + tail;
    if lines == [] {
      assert s == tail;
      TailIs(validJson, limit, end, tail);
    } else {
      var rest := Unlines(lines[1..]) + tail;
      assert s == lines[0] + [NEWLINE] + rest;
      LineThenRest(validJson, limit, end, lines[0], rest);
      if k == 0 {
        assert lines[..0] == [];
      } else {
        HandedOut(validJson, limit, end, lines[1..], tail, k - 1);
        assert lines[..k][0] == lines[0] && lines[..k][1..] == lines[1..][..k - 1];
      }
    }
  }

  lemma LineThenRest(validJson: bytes -> bool, limit: int, end: SourceEnd, line: bytes, rest: bytes)
    requires NEWLINE !in line
    ensures var s := line + [NEWLINE] + rest;
            if Passes(validJson, limit, line) then
              && Deliverable(validJson, limit, end, s) == line + [NEWLINE] + Deliverable(validJson, limit, end, rest)
              && FinalError(validJson, limit, end, s) == FinalError(validJson, limit, end, rest)
            else Deliverable(validJson, limit, end, s) == [] && FinalError(validJson, limit, end, s) == Objection(limit, line)
  {
    hide Blank, IndexOf;
    FirstLine(line, rest);
    hide FirstFrame, Finished, Content;
  }

  lemma TailIs(validJson: bytes -> bool, limit: int, end: SourceEnd, tail: bytes)
    requires NEWLINE !in tail
    ensures var handed, error := Deliverable(validJson, limit, end, tail), FinalError(validJson, limit, end, tail);
            if tail == [] then handed == [] && error == EndError(end)
            else if |tail| > limit then handed == [] && error == FrameLimitExceeded
            else if end.Broken? then handed == [] && error == SourceError(end.code)
            else if !Passes(validJson, limit, tail) then handed == [] && error == InvalidFrame
            else handed == tail && error == EndOfFile
  {
    hide Blank, IndexOf;
    if tail != [] {
      TailFrame(tail);
      hide FirstFrame, Finished, Content;
      assert Deliverable(validJson, limit, end, []) == [];
      assert FinalError(validJson, limit, end, []) == EndError(end);
    }
  }

  lemma TailFrame(tail: bytes)
    requires NEWLINE !in tail && tail != []
    ensures FirstFrame(tail) == tail && !Finished(tail) && Content(tail) == tail && tail[|tail|..] == []
  {
  }

  /* The reader */

  class LineValidatingReader {
    const validJson: bytes -> bool
    const limit: nat

    /** The source behind a buffer of `bufferSize` bytes. */
    const stream: bytes
    const end: SourceEnd
    const bufferSize: nat
    var position: nat

    var pending: bytes
    var offset: nat
    var afterPending: bool
    var failed: Option<ReadError>

    /** What Read has handed out. */
    ghost var delivered: bytes

    ghost function Goal(): bytes { Deliverable(validJson, limit, end, stream) }

    ghost function Last(): ReadError { FinalError(validJson, limit, end, stream) }

    /** What is delivered, pending and still to be read makes up the goal; a failure means it is reached. */
    ghost predicate Valid()
      reads this
    {
      && bufferSize > 0 && position <= |stream| && offset <= |pending|
      && (if failed.Some? then failed.value == Last() && delivered == Goal() && pending == [] && !afterPending
          else
            && delivered + pending[offset..] + Deliverable(validJson, limit, end, stream[position..]) == Goal()
            && FinalError(validJson, limit, end, stream[position..]) == Last()
            && (afterPending ==> position == |stream| && end.Eof?))
    }

    constructor (validJson: bytes -> bool, limit: nat, stream: bytes, end: SourceEnd, bufferSize: nat)
      requires bufferSize > 0
      ensures Valid() && delivered == []
      ensures this.validJson == validJson && this.limit == limit && this.stream == stream && this.end == end
    {
      this.validJson, this.limit, this.stream, this.end, this.bufferSize := validJson, limit, stream, end, bufferSize;
      position, pending, offset, afterPending, failed, delivered := 0, [], 0, false, None, [];
      new;
      assert stream[0..] == stream;
      assert [] + Goal() == Goal();
    }

    /**
     Hands out up to `size` bytes of the goal. An error comes only when all of it has been handed out,
     is the same at every later call, and tells how the stream ends.
     */
    method Read(size: nat) returns (data: bytes, error: Option<ReadError>)
      requires Valid()
      modifies this
      ensures Valid() && |data| <= size
      ensures delivered == old(delivered) + data && delivered <= Goal()
      ensures size == 0 ==> error.None?
      ensures error.Some? ==> data == [] && delivered == Goal() && error.value == Last()
      ensures error.None? && size > 0 ==> data != []
    {
      hide Deliverable, FinalError;
      DeliveredIsPrefix();
      if size == 0 {
        return [], None;
      }
      if offset == |pending| {
        NothingPending();
        pending, offset := [], 0;
        if afterPending {
          AtTheEnd();
          afterPending := false;
          return [], Some(EndOfFile);
        }
      }
      if failed.Some? {
        return [], failed;
      }
      if |pending| == 0 {
        var problem := LoadLine();
        if problem.Some? {
          failed := problem;
          return [], problem;
        }
      }
      var count := if size < |pending| - offset then size else |pending| - offset;
      data := pending[offset..offset + count];
      assert pending[offset..] == data + pending[offset + count..];
      Shift(delivered, data, pending[offset + count..], Deliverable(validJson, limit, end, stream[position..]));
      offset := offset + count;
      delivered := delivered + data;
      error := None;
    }

    lemma Shift(a: bytes, b: bytes, c: bytes, d: bytes)
      ensures a + (b + c) + d == (a + b) + c + d && a + b <= (a + b) + c + d
    {
    }

    lemma DeliveredIsPrefix()
      requires Valid()
      ensures delivered <= Goal()
    {
      hide Deliverable, FinalError;
    }

    lemma NothingPending()
      requires Valid() && offset == |pending|
      ensures failed.None? ==> delivered + Deliverable(validJson, limit, end, stream[position..]) == Goal()
    {
      hide Deliverable, FinalError;
      assert pending[offset..] == [];
      assert delivered + [] == delivered;
    }

    lemma AtTheEnd()
      requires Valid() && offset == |pending| && afterPending
      ensures delivered == Goal() && Last() == EndOfFile
    {
      NothingPending();
      assert stream[position..] == [];
    }

    /** A bufio.Reader's ReadSlice: up to the newline, a full buffer, or what the source had left. */
    method ReadSlice() returns (fragment: bytes, slice: SliceEnd)
      requires bufferSize > 0 && position <= |stream|
      modifies this`position
      ensures position == old(position) + |fragment| <= |stream| && fragment == stream[old(position)..position]
      ensures match slice
              case Delimited => fragment != [] && fragment[|fragment| - 1] == NEWLINE && NEWLINE !in fragment[..|fragment| - 1]
              case BufferFull => fragment != [] && NEWLINE !in fragment
              case Ended => NEWLINE !in fragment && position == |stream|
    {
      var rest := stream[position..];
      var window := if |rest| < bufferSize then rest else rest[..bufferSize];
      var newline := IndexOf(window, NEWLINE);
      if newline.Some? {
        fragment, slice := window[..newline.value + 1], Delimited;
      } else if |rest| >= bufferSize {
        fragment, slice := window, BufferFull;
      } else {
        fragment, slice := rest, Ended;
      }
      position := position + |fragment|;
    }

    /** What remains from `start` on is what is still owed to the caller. */
    ghost predicate Owed(start: nat)
      requires start <= |stream|
      reads this`delivered
    {
      && delivered + Deliverable(validJson, limit, end, stream[start..]) == Goal()
      && FinalError(validJson, limit, end, stream[start..]) == Last()
    }

    /** Adds the next fragment to the pending one, unless the frame is then too long. */
    method LoadFragment(ghost start: nat, lineBytes: nat) returns (total: nat, slice: SliceEnd, tooLong: bool)
      requires bufferSize > 0 && start <= position <= |stream| && pending == stream[start..position]
      requires NEWLINE !in pending && lineBytes == |pending|
      modifies this`position, this`pending
      ensures start <= position <= |stream| && old(position) <= position
      ensures var loaded := stream[start..position];
              && pending == (if tooLong then [] else loaded)
              && (tooLong <==> |Content(loaded)| > limit) && (loaded != [] ==> NEWLINE !in loaded[..|loaded| - 1])
              && match slice
                 case Delimited => loaded != [] && loaded[|loaded| - 1] == NEWLINE
                 case BufferFull => NEWLINE !in loaded && total == |loaded| && old(position) < position
                 case Ended => NEWLINE !in loaded && position == |stream|
    {
      hide IndexOf;
      var fragment;
      fragment, slice := ReadSlice();
      var contentBytes := |fragment|;
      if |fragment| > 0 && fragment[|fragment| - 1] == NEWLINE {
        contentBytes := contentBytes - 1;
      }
      total := lineBytes + contentBytes;
      ghost var loaded := pending + fragment;
      assert stream[start..position] == loaded;
      if loaded != [] && fragment != [] { assert loaded[..|loaded| - 1] == pending + fragment[..|fragment| - 1]; }
      tooLong := total > limit;
      if tooLong {
        pending := [];
      } else {
        pending := pending + fragment;
      }
    }

    /** Loads the next frame, or says why there is none. */
    method LoadLine() returns (problem: Option<ReadError>)
      requires Valid() && failed.None? && pending == [] && offset == 0 && !afterPending
      modifies this`position, this`pending, this`afterPending
      ensures position <= |stream| && offset <= |pending|
      ensures problem.None? ==> Valid() && pending != []
      ensures problem.Some? ==> problem.value == Last() && delivered == Goal() && pending == [] && !afterPending
    {
      hide Deliverable, FinalError, IndexOf, FirstFrame, Finished, Good, Content, Owed;
      ghost var start := position;
      NothingOwed();
      assert stream[start..start] == [];
      var lineBytes: nat := 0;
      while true
        invariant start <= position <= |stream| && pending == stream[start..position] && NEWLINE !in pending
        invariant lineBytes == |pending| && !afterPending && Owed(start)
        decreases |stream| - position
      {
        var slice, tooLong;
        lineBytes, slice, tooLong := LoadFragment(start, lineBytes);
        if tooLong {
          TooLong(start, stream[start..position]);
          return Some(FrameLimitExceeded);
        }
        match slice {
          case Delimited =>
            FrameFound(start, pending);
            problem := ValidatePendingLine(start);
            return;
          case BufferFull =>
          case Ended =>
            assert stream[start..] == pending;
            if end.Broken? {
              StreamBreaks(start);
              pending := [];
              return Some(SourceError(end.code));
            }
            if |pending| == 0 {
              StreamEnds(start);
              return Some(EndOfFile);
            }
            afterPending := true;
            FrameFound(start, pending);
            problem := ValidatePendingLine(start);
            return;
        }
      }
    }

    lemma NothingOwed()
      requires Valid() && failed.None? && pending == [] && offset == 0
      ensures Owed(position)
    {
      NothingPending();
      hide Deliverable, FinalError;
    }

    method ValidatePendingLine(ghost start: nat) returns (problem: Option<ReadError>)
      requires start < position <= |stream| && pending == stream[start..position] && offset == 0
      requires |Content(pending)| <= limit && FirstFrame(stream[start..]) == pending
      requires Finished(stream[start..]) || (end.Eof? && position == |stream|)
      requires afterPending ==> position == |stream| && end.Eof?
      requires bufferSize > 0 && failed.None?
      requires Owed(start)
      modifies this`pending, this`afterPending
      ensures problem.None? ==> Valid() && pending != []
      ensures problem.Some? ==> problem.value == Last() && delivered == Goal() && pending == [] && !afterPending
    {
      hide Blank, IndexOf, FirstFrame, Finished, Deliverable, FinalError, Good;
      FrameDecides(start, pending);
      ContentDecides(pending);
      var content := pending;
      if |content| > 0 && content[|content| - 1] == NEWLINE {
        content := content[..|content| - 1];
      }
      if Blank(content) {
        return None;
      }
      if !validJson(content) {
        pending := [];
        afterPending := false;
        return Some(InvalidFrame);
      }
      problem := None;
    }

    lemma ContentDecides(frame: bytes)
      requires |Content(frame)| <= limit
      ensures Good(validJson, limit, frame) <==> Blank(Content(frame)) || validJson(Content(frame))
    {
      hide Blank;
    }

    /** What is owed is the first frame and the rest, or nothing when it is bad. */
    lemma FrameDecides(start: nat, frame: bytes)
      requires start < position <= |stream| && frame == stream[start..position] == FirstFrame(stream[start..])
      requires |Content(frame)| <= limit && Owed(start)
      requires Finished(stream[start..]) || (end.Eof? && position == |stream|)
      ensures Good(validJson, limit, frame) ==>
                && delivered + frame[0..] + Deliverable(validJson, limit, end, stream[position..]) == Goal()
                && FinalError(validJson, limit, end, stream[position..]) == Last()
      ensures !Good(validJson, limit, frame) ==> delivered == Goal() && Last() == InvalidFrame
    {
      hide IndexOf, FirstFrame, Finished, Good, Content;
      var s := stream[start..];
      assert s[|frame|..] == stream[position..];
      Taken(delivered, frame, Deliverable(validJson, limit, end, stream[position..]));
      assert delivered + [] == delivered;
    }

    lemma Taken(a: bytes, b: bytes, c: bytes)
      ensures a + (b + c) == a + b[0..] + c
    {
    }

    /** The first frame is what was loaded up to its newline, or to the end of the stream. */
    lemma FrameFound(start: nat, frame: bytes)
      requires start + |frame| <= |stream| && frame == stream[start..start + |frame|] && frame != []
      requires NEWLINE !in frame[..|frame| - 1]
      requires frame[|frame| - 1] == NEWLINE || start + |frame| == |stream|
      ensures FirstFrame(stream[start..]) == frame
      ensures frame[|frame| - 1] == NEWLINE ==> Finished(stream[start..])
    {
      var s := stream[start..];
      assert s[..|frame|] == frame;
      if frame[|frame| - 1] == NEWLINE {
        FirstIndex(s, NEWLINE, |frame| - 1);
      } else {
        assert s == frame;
        assert frame == frame[..|frame| - 1] + [frame[|frame| - 1]];
      }
    }

    /** A frame whose beginning is too long is too long. */
    lemma TooLong(start: nat, beginning: bytes)
      requires start + |beginning| <= |stream| && beginning == stream[start..start + |beginning|]
      requires (beginning != [] ==> NEWLINE !in beginning[..|beginning| - 1]) && |Content(beginning)| > limit
      requires Owed(start)
      ensures delivered == Goal() && Last() == FrameLimitExceeded
    {
      var s := stream[start..];
      BeginningOfFrame(s, beginning);
      assert delivered + [] == delivered;
    }

    lemma BeginningOfFrame(s: bytes, beginning: bytes)
      requires beginning <= s && beginning != [] && NEWLINE !in beginning[..|beginning| - 1]
      ensures |Content(FirstFrame(s))| >= |Content(beginning)|
    {
      var n := |beginning| - 1;
      assert s[..n] == beginning[..n];
      IndexNotBefore(s, NEWLINE, n);
      if beginning[n] == NEWLINE { FirstIndex(s, NEWLINE, n); }
    }

    lemma StreamEnds(start: nat)
      requires start <= |stream| && stream[start..] == [] && end.Eof?
      requires Owed(start)
      ensures delivered == Goal() && Last() == EndOfFile
    {
      assert delivered + [] == delivered;
    }

    lemma StreamBreaks(start: nat)
      requires start <= |stream| && NEWLINE !in stream[start..] && end.Broken? && |Content(stream[start..])| <= limit
      requires Owed(start)
      ensures delivered == Goal() && Last() == SourceError(end.code)
    {
      assert delivered + [] == delivered;
    }
  }
}
