/**
 What an MCP server writes to its standard error, line by line and redacted: the output is a function
 of the bytes received, however they were cut into writes.
 */
module McpStderr {
  import opened Prelude
  import opened Bytes

  const MAX_LINE: nat := 65536

  /** "MCP stderr line omitted: too long\n" */
  function Omitted(): bytes { Ascii("MCP stderr line omitted: too long") + [NEWLINE] }

  /** The complete lines of a stream, each with its newline. */
  function Lines(s: bytes): seq<bytes> {
    if s == [] then []
    else
      var init, last := s[..|s| - 1], s[|s| - 1];
      if last == NEWLINE then Lines(init) + [Rest(init) + [NEWLINE]] else Lines(init)
  }

  /** The line that has begun. */
  function Rest(s: bytes): bytes {
    if s == [] || s[|s| - 1] == NEWLINE then [] else Rest(s[..|s| - 1]) + [s[|s| - 1]]
  }

  function Shown(clean: bytes -> bytes, line: bytes): bytes {
    if |line| > MAX_LINE then Omitted() else clean(line)
  }

  function AllShown(clean: bytes -> bytes, lines: seq<bytes>): seq<bytes> {
    seq(|lines|, i requires 0 <= i < |lines| => Shown(clean, lines[i]))
  }

  /** Each complete line, cleaned or replaced by one notice; a line too long already is replaced at once. */
  function Forwarded(clean: bytes -> bytes, s: bytes): seq<bytes> {
    AllShown(clean, Lines(s)) + if |Rest(s)| > MAX_LINE then [Omitted()] else []
  }

  lemma {:induction false} NoNewline(s: bytes, t: bytes)
    requires NEWLINE !in t
    ensures Lines(s + t) == Lines(s) && Rest(s + t) == Rest(s) + t
  {
    if t == [] {
      assert s + t == s;
    } else {
      var n := |t| - 1;
      assert (s + t)[..|s + t| - 1] == s + t[..n];
      assert t[..n] + [t[n]] == t;
      NoNewline(s, t[..n]);
    }
  }

  /** `part` is the rest of a line, with its newline. */
  lemma LineEnds(s: bytes, part: bytes)
    requires part != [] && part[|part| - 1] == NEWLINE && NEWLINE !in part[..|part| - 1]
    ensures Lines(s + part) == Lines(s) + [Rest(s) + part] && Rest(s + part) == []
  {
    hide Rest, Lines;
    var n := |part| - 1;
    NoNewline(s, part[..n]);
    OneMore(s + part[..n]);
    Regroup(s, part);
    Regroup(Rest(s), part);
  }

  lemma Regroup(s: bytes, part: bytes)
    requires part != []
    ensures s + part == s + part[..|part| - 1] + [part[|part| - 1]]
  {
  }

  lemma OneMore(s: bytes)
    ensures Lines(s + [NEWLINE]) == Lines(s) + [Rest(s) + [NEWLINE]] && Rest(s + [NEWLINE]) == []
  {
    assert (s + [NEWLINE])[..|s|] == s;
  }

  lemma ForwardedAfterLine(clean: bytes -> bytes, s: bytes, part: bytes)
    requires Lines(s + part) == Lines(s) + [Rest(s) + part] && Rest(s + part) == []
    ensures Forwarded(clean, s + part) ==
            if |Rest(s)| > MAX_LINE then Forwarded(clean, s) else Forwarded(clean, s) + [Shown(clean, Rest(s) + part)]
  {
    hide Lines, Rest, Omitted;
    assert AllShown(clean, Lines(s) + [Rest(s) + part]) == AllShown(clean, Lines(s)) + [Shown(clean, Rest(s) + part)];
  }

  lemma ForwardedAfterPart(clean: bytes -> bytes, s: bytes, part: bytes)
    requires Lines(s + part) == Lines(s) && Rest(s + part) == Rest(s) + part
    ensures Forwarded(clean, s + part) ==
            if |Rest(s)| <= MAX_LINE < |Rest(s) + part| then Forwarded(clean, s) + [Omitted()] else Forwarded(clean, s)
  {
    hide Lines, Rest, Omitted, Shown;
  }

  class RedactingLineWriter {
    const clean: bytes -> bytes

    /** What the sink was given, write by write. */
    var sink: seq<bytes>
    var buffer: bytes
    var discarding: bool
    ghost var received: bytes

    ghost predicate Valid()
      reads this
    {
      && sink == Forwarded(clean, received)
      && buffer == (if |Rest(received)| > MAX_LINE then [] else Rest(received))
      && (discarding <==> |Rest(received)| > MAX_LINE)
    }

    constructor (clean: bytes -> bytes)
      ensures Valid() && this.clean == clean && received == [] && sink == []
    {
      this.clean := clean;
      sink, buffer, discarding, received := [], [], false, [];
    }

    method Write(data: bytes) returns (written: nat)
      requires Valid()
      modifies this
      ensures Valid() && written == |data| && received == old(received) + data
      ensures old(sink) <= sink
    {
      hide Forwarded, Rest, Lines, IndexOf;
      written := |data|;
      var remaining := data;
      ghost var start := received;
      while |remaining| > 0
        invariant Valid() && received + remaining == start + data && old(sink) <= sink
        decreases |remaining|
      {
        var newline := IndexOf(remaining, NEWLINE);
        var part;
        if newline.None? {
          part, remaining := remaining, [];
        } else {
          part, remaining := remaining[..newline.value + 1], remaining[newline.value + 1..];
        }
        ghost var before := received;
        TakePart(part, newline.Some?);
        assert before + (part + remaining) == before + part + remaining;
      }
      assert received + [] == received;
    }

    /** One piece of a Write: the end of a line, or all that is left of the data. */
    method TakePart(part: bytes, ends: bool)
      requires Valid() && part != []
      requires if ends then part[|part| - 1] == NEWLINE && NEWLINE !in part[..|part| - 1] else NEWLINE !in part
      modifies this
      ensures Valid() && received == old(received) + part && old(sink) <= sink
    {
      hide Forwarded, Rest, Lines, Omitted;
      if ends {
        LineEnds(received, part);
        ForwardedAfterLine(clean, received, part);
      } else {
        NoNewline(received, part);
        ForwardedAfterPart(clean, received, part);
      }
      received := received + part;
      if discarding {
        if ends {
          discarding := false;
        }
        return;
      }
      if |buffer| + |part| > MAX_LINE {
        buffer := [];
        discarding := !ends;
        sink := sink + [Omitted()];
        return;
      }
      buffer := buffer + part;
      if ends {
        sink := sink + [clean(buffer)];
        buffer := [];
      }
    }
  }

  /** Joining the lines and the unfinished one gives the stream back: nothing is read twice or skipped. */
  lemma {:induction false} LinesPartition(s: bytes)
    ensures Concat(Lines(s)) + Rest(s) == s
  {
    if s != [] {
      var init := s[..|s| - 1];
      LinesPartition(init);
      assert s == init + [s[|s| - 1]];
      if s[|s| - 1] == NEWLINE {
        var lines := Lines(init);
        assert (lines + [Rest(init) + [NEWLINE]])[..|lines|] == lines;
        assert Concat(lines) + (Rest(init) + [NEWLINE]) == Concat(lines) + Rest(init) + [NEWLINE];
      } else {
        assert Concat(Lines(init)) + (Rest(init) + [s[|s| - 1]]) == Concat(Lines(init)) + Rest(init) + [s[|s| - 1]];
      }
    }
  }

  function Concat(parts: seq<bytes>): bytes {
    if parts == [] then [] else Concat(parts[..|parts| - 1]) + parts[|parts| - 1]
  }
}
