/** The byte bound that tool results are put under before a provider sees them. */
module ToolOutput {
  import opened Prelude
  import opened Bytes
  import opened Utf8
  import opened JsonText

  /** `{"partial":` */
  const PARTIAL_HEAD: bytes := [0x7B, 0x22, 0x70, 0x61, 0x72, 0x74, 0x69, 0x61, 0x6C, 0x22, 0x3A]

  /** `{"partial":""}` */
  const EMPTY_PARTIAL: bytes := PARTIAL_HEAD + [QUOTE, QUOTE, 0x7D]

  function Partial(prefix: bytes): bytes { PARTIAL_HEAD + JsonString(prefix) + [0x7D] }

  /** `p` is the longest valid prefix of `value` whose partial envelope fits in `limit` bytes. */
  ghost predicate IsLongestFitting(p: bytes, value: bytes, limit: int) {
    && p <= value && Valid(p) && |Partial(p)| <= limit
    && forall q :: q <= value && Valid(q) && |Partial(q)| <= limit ==> |q| <= |p|
  }

  /** The contract of Bound. */
  ghost predicate IsBound(value: bytes, limit: int, content: bytes, truncated: bool) {
    if Valid(value) && |value| <= limit then content == value && !truncated
    else
      truncated &&
      if limit <= 0 then content == []
      else if limit == 1 then content == [0x30]
      else if limit < |EMPTY_PARTIAL| then content == [0x7B, 0x7D]
      else exists p :: IsLongestFitting(p, value, limit) && content == Partial(p)
  }

  lemma PartialMonotone(p: bytes, q: bytes)
    requires Valid(p) && p <= q
    ensures |Partial(p)| <= |Partial(q)|
  {
    EscapeMonotone(p, q);
  }

  /** If the truncation at `middle` does not fit, no valid prefix of that size or more does. */
  lemma TooLongFrom(value: bytes, middle: nat, prefix: bytes, limit: int)
    requires IsTruncation(value, middle, prefix) && |Partial(prefix)| > limit
    ensures forall q :: q <= value && |q| >= middle && Valid(q) ==> |Partial(q)| > limit
  {
    forall q | q <= value && |q| >= middle && Valid(q) ensures |Partial(q)| > limit {
      assert prefix == value[..|prefix|] && q == value[..|q|];
      PartialMonotone(prefix, q);
    }
  }

  method Bound(value: bytes, maxBytes: int) returns (content: bytes, truncated: bool)
    ensures IsBound(value, maxBytes, content, truncated)
  {
    if Valid(value) && |value| <= maxBytes {
      return value, false;
    }
    if maxBytes <= 0 {
      return [], true;
    }
    if maxBytes == 1 {
      return [0x30], true;
    }
    if maxBytes < |EMPTY_PARTIAL| {
      return [0x7B, 0x7D], true;
    }
    hide Valid, Escape;
    var low, high := 0, |value|;
    var best := EMPTY_PARTIAL;
    ghost var longest: bytes := [];
    assert best == Partial([]);
    while low <= high
      invariant 0 <= low <= high + 1 <= |value| + 1
      invariant best == Partial(longest) && |best| <= maxBytes
      invariant longest <= value && Valid(longest)
      invariant forall q :: q <= value && |q| < low && Valid(q) ==> |q| <= |longest|
      invariant forall q :: q <= value && |q| > high && Valid(q) ==> |Partial(q)| > maxBytes
      decreases high - low
    {
      var middle := low + (high - low) / 2;
      var prefix := TruncateUTF8(value, middle);
      var encoded := Partial(prefix);
      if |encoded| <= maxBytes {
        best, longest := encoded, prefix;
        low := middle + 1;
        continue;
      }
      TooLongFrom(value, middle, prefix, maxBytes);
      high := middle - 1;
    }
    assert IsLongestFitting(longest, value, maxBytes);
    content, truncated := best, true;
  }

  /** The contract leaves one answer. */
  lemma BoundUnique(value: bytes, limit: int, c: bytes, t: bool, c': bytes, t': bool)
    requires IsBound(value, limit, c, t) && IsBound(value, limit, c', t')
    ensures c == c' && t == t'
  {
    if !(Valid(value) && |value| <= limit) && limit >= |EMPTY_PARTIAL| {
      var p :| IsLongestFitting(p, value, limit) && c == Partial(p);
      var q :| IsLongestFitting(q, value, limit) && c' == Partial(q);
      assert p == value[..|p|] && q == value[..|q|];
    }
  }

  lemma PartialValid(p: bytes)
    ensures Valid(Partial(p))
  {
    hide Valid, Escape;
    var open := PARTIAL_HEAD + [QUOTE];
    AsciiValid(open);
    AsciiValid([QUOTE, 0x7D]);
    EscapeValid(p);
    ValidConcat(Escape(p), [QUOTE, 0x7D]);
    ValidConcat(open, Escape(p) + [QUOTE, 0x7D]);
    assert Partial(p) == open + (Escape(p) + [QUOTE, 0x7D]);
  }

  /** The content is valid UTF-8 and never larger than the limit, or empty when that is negative. */
  lemma BoundWithinLimit(value: bytes, limit: int, content: bytes, truncated: bool)
    requires IsBound(value, limit, content, truncated)
    ensures |content| <= Max(0, limit) && Valid(content)
  {
    if truncated && limit >= |EMPTY_PARTIAL| {
      var p :| IsLongestFitting(p, value, limit) && content == Partial(p);
      PartialValid(p);
    } else if truncated {
      AsciiValid(content);
    }
  }

  /** Bounding again changes nothing; only a negative limit still reports truncation. */
  lemma BoundIdempotent(value: bytes, limit: int, c: bytes, t: bool, c': bytes, t': bool)
    requires IsBound(value, limit, c, t) && IsBound(c, limit, c', t')
    ensures c' == c && (t' <==> limit < 0)
  {
    BoundWithinLimit(value, limit, c, t);
  }

  /** A JSON object with the one member "partial", whose string `e` decodes to `p`. */
  ghost predicate Carries(content: bytes, e: bytes, p: bytes) {
    content == Ascii("{\"partial\":\"") + e + Ascii("\"}") && Unescape(e) == Some(p)
  }

  /**
   What a bounded value looks like: the value if it is valid and fits; otherwise nothing, the number 0, an
   empty object or, from 14 bytes on, an object that decodes to the longest valid prefix that fits in one.
   */
  lemma BoundSays(value: bytes, limit: int, content: bytes, truncated: bool)
    requires IsBound(value, limit, content, truncated)
    ensures truncated <==> !(Valid(value) && |value| <= limit)
    ensures if !truncated then content == value
            else if limit <= 0 then content == []
            else if limit == 1 then content == Ascii("0")
            else if limit < 14 then content == Ascii("{}")
            else exists e, p :: Carries(content, e, p) && p <= value && Valid(p)
                   && forall q :: q <= value && Valid(q) && |q| > |p| ==> 14 + |Escape(q)| > limit
  {
    PartialText();
    if truncated && limit >= 14 {
      var p :| IsLongestFitting(p, value, limit) && content == Partial(p);
      UnescapeEscape(p);
      SanitizeValid(p);
      PartialOf(p);
      assert Carries(content, Escape(p), p);
      forall q | q <= value && Valid(q) && |q| > |p| ensures 14 + |Escape(q)| > limit { PartialOf(q); }
    }
    hide Valid, Unescape, Escape, Partial;
  }

  lemma PartialText()
    ensures Ascii("{\"partial\":\"") == PARTIAL_HEAD + [QUOTE] && Ascii("\"}") == [QUOTE, 0x7D]
    ensures |EMPTY_PARTIAL| == 14 && Ascii("0") == [0x30] && Ascii("{}") == [0x7B, 0x7D]
  {
    var s := "{\"partial\":\"";
    assert |s| == 12 && s[0] == '{' && s[1] == '"' && s[2] == 'p' && s[3] == 'a' && s[4] == 'r' && s[5] == 't';
    assert s[6] == 'i' && s[7] == 'a' && s[8] == 'l' && s[9] == '"' && s[10] == ':' && s[11] == '"';
    assert |PARTIAL_HEAD| == 11;
    forall i | 0 <= i < 12 ensures Ascii(s)[i] == (PARTIAL_HEAD + [QUOTE])[i] {
      if i < 11 { assert (PARTIAL_HEAD + [QUOTE])[i] == PARTIAL_HEAD[i]; }
    }
    assert Ascii(s) == PARTIAL_HEAD + [QUOTE];
  }

  lemma PartialOf(p: bytes)
    ensures Partial(p) == Ascii("{\"partial\":\"") + Escape(p) + Ascii("\"}") && |Partial(p)| == 14 + |Escape(p)|
  {
    PartialText();
    hide Escape;
  }

  /* Bound as a function, for the components that use it */

  function LongestFitting(value: bytes, limit: int, n: nat): (p: bytes)
    requires n <= |value|
    ensures |p| <= n && p <= value
  {
    if n == 0 || (Valid(value[..n]) && |Partial(value[..n])| <= limit) then value[..n]
    else LongestFitting(value, limit, n - 1)
  }

  lemma {:induction false} LongestFittingIs(value: bytes, limit: int, n: nat)
    requires n <= |value| && limit >= |EMPTY_PARTIAL|
    requires forall q :: q <= value && |q| > n && Valid(q) ==> |Partial(q)| > limit
    ensures IsLongestFitting(LongestFitting(value, limit, n), value, limit)
  {
    hide Partial;
    if n == 0 {
      EmptyFits(limit);
    } else if !(Valid(value[..n]) && |Partial(value[..n])| <= limit) {
      forall q | q <= value && |q| > n - 1 && Valid(q) ensures |Partial(q)| > limit {
        assert q == value[..|q|];
      }
      LongestFittingIs(value, limit, n - 1);
    }
  }

  lemma EmptyFits(limit: int)
    requires limit >= |EMPTY_PARTIAL|
    ensures Valid([]) && |Partial([])| <= limit
  {
  }

  function Bounded(value: bytes, limit: int): (r: (bytes, bool))
    ensures IsBound(value, limit, r.0, r.1)
  {
    if Valid(value) && |value| <= limit then (value, false)
    else if limit <= 0 then ([], true)
    else if limit == 1 then ([0x30], true)
    else if limit < |EMPTY_PARTIAL| then ([0x7B, 0x7D], true)
    else
      LongestFittingIs(value, limit, |value|);
      (Partial(LongestFitting(value, limit, |value|)), true)
  }
}
