/** JSON strings as Go's encoding/json writes them: section 7 of RFC 8259 plus Go's extra escapes. */
module JsonText {
  import opened Prelude
  import opened Bytes
  import opened Utf8

  const QUOTE: byte := 0x22
  const BACKSLASH: byte := 0x5C

  function HexDigit(n: nat): byte
    requires n < 16
  {
    if n < 10 then 0x30 + n else 0x61 + (n - 10)
  }

  /** `\u00XX` for a control character or one of `<`, `>`, `&`. */
  function UnicodeEscape(b: byte): bytes {
    [BACKSLASH, 0x75, 0x30, 0x30, HexDigit(b / 16), HexDigit(b % 16)]
  }

  function EscapeAscii(b: byte): bytes {
    if b == QUOTE || b == BACKSLASH then [BACKSLASH, b]
    else if b == 8 then [BACKSLASH, 0x62]
    else if b == 12 then [BACKSLASH, 0x66]
    else if b == 10 then [BACKSLASH, 0x6E]
    else if b == 13 then [BACKSLASH, 0x72]
    else if b == 9 then [BACKSLASH, 0x74]
    else if b < 0x20 || b == 0x3C || b == 0x3E || b == 0x26 then UnicodeEscape(b)
    else [b]
  }

  /** One well-formed character; U+2028 and U+2029 are escaped, other non-ASCII is copied. */
  function EscapeRune(r: bytes): bytes
    requires |r| > 0
  {
    if |r| == 1 then EscapeAscii(r[0])
    else if r == [0xE2, 0x80, 0xA8] then [BACKSLASH, 0x75, 0x32, 0x30, 0x32, 0x38]
    else if r == [0xE2, 0x80, 0xA9] then [BACKSLASH, 0x75, 0x32, 0x30, 0x32, 0x39]
    else r
  }

  /** What stands in for a byte that is not part of a well-formed character. */
  const REPLACEMENT: bytes := [BACKSLASH, 0x75, 0x66, 0x66, 0x66, 0x64]

  function Escape(s: bytes): bytes {
    if s == [] then []
    else if RuneLen(s) == 0 then REPLACEMENT + Escape(s[1..])
    else EscapeRune(s[..RuneLen(s)]) + Escape(s[RuneLen(s)..])
  }

  function JsonString(s: bytes): bytes { [QUOTE] + Escape(s) + [QUOTE] }

  lemma {:induction false} EscapeConcat(a: bytes, b: bytes)
    requires Valid(a)
    ensures Escape(a + b) == Escape(a) + Escape(b)
  {
    if a == [] {
      assert a + b == b;
    } else {
      var n := RuneLen(a);
      RuneLenPrefix(a, b);
      EscapeConcat(a[n..], b);
      assert EscapeRune(a[..n]) + (Escape(a[n..]) + Escape(b)) == EscapeRune(a[..n]) + Escape(a[n..]) + Escape(b);
    }
  }

  /** The encoding of a longer valid text starts with that of a valid prefix. */
  lemma EscapeMonotone(a: bytes, b: bytes)
    requires Valid(a) && a <= b
    ensures Escape(a) <= Escape(b)
  {
    assert b == a + b[|a|..];
    EscapeConcat(a, b[|a|..]);
  }

  lemma EscapedRuneValid(s: bytes)
    requires RuneLen(s) > 0
    ensures Valid(EscapeRune(s[..RuneLen(s)]))
  {
    var r := s[..RuneLen(s)];
    var e := EscapeRune(r);
    if |r| == 1 || r == [0xE2, 0x80, 0xA8] || r == [0xE2, 0x80, 0xA9] {
      AsciiValid(e);
    } else {
      assert RuneLen(r) == |r|;
      assert r[|r|..] == [];
    }
  }

  /** Whatever the input, the encoding is valid UTF-8. */
  lemma {:induction false} EscapeValid(s: bytes)
    ensures Valid(Escape(s))
  {
    if s != [] {
      if RuneLen(s) == 0 {
        AsciiValid(REPLACEMENT);
        EscapeValid(s[1..]);
        ValidConcat(REPLACEMENT, Escape(s[1..]));
      } else {
        EscapedRuneValid(s);
        EscapeValid(s[RuneLen(s)..]);
        ValidConcat(EscapeRune(s[..RuneLen(s)]), Escape(s[RuneLen(s)..]));
      }
    }
  }

  /** No control character, and no bare quote, survives in the encoding. */
  lemma {:induction false} EscapePrintable(s: bytes)
    ensures forall b :: b in Escape(s) ==> b >= 0x20
  {
    if s != [] {
      var n := if RuneLen(s) == 0 then 1 else RuneLen(s);
      EscapePrintable(s[n..]);
      if RuneLen(s) > 0 {
        forall b | b in EscapeRune(s[..n]) ensures b >= 0x20 { }
      }
    }
  }

  /** Letters and digits stand for themselves. */
  lemma {:induction false} EscapeLetters(s: bytes)
    requires forall i :: 0 <= i < |s| ==> 0x30 <= s[i] <= 0x39 || 0x61 <= s[i] <= 0x7A
    ensures Escape(s) == s
  {
    if s != [] {
      EscapeLetters(s[1..]);
      LetterEscapes(s);
      hide RuneLen, EscapeRune;
      assert s == s[..1] + s[1..];
    }
  }

  lemma LetterEscapes(s: bytes)
    requires s != [] && (0x30 <= s[0] <= 0x39 || 0x61 <= s[0] <= 0x7A)
    ensures RuneLen(s) == 1 && EscapeRune(s[..1]) == s[..1]
  {
  }

  /* Decoding */

  function HexValue(b: byte): Option<nat> {
    if 0x30 <= b <= 0x39 then Some(b - 0x30)
    else if 0x61 <= b <= 0x66 then Some(b - 0x61 + 10)
    else if 0x41 <= b <= 0x46 then Some(b - 0x41 + 10)
    else None
  }

  /** The code unit of `\uXXXX`. */
  function CodeUnit(s: bytes): Option<nat>
    requires |s| == 4
  {
    var d := (HexValue(s[0]), HexValue(s[1]), HexValue(s[2]), HexValue(s[3]));
    if d.0.Some? && d.1.Some? && d.2.Some? && d.3.Some?
    then Some(d.0.value * 4096 + d.1.value * 256 + d.2.value * 16 + d.3.value)
    else None
  }

  /** UTF-8 of a code point below U+10000 that is not a surrogate. */
  function EncodeRune(c: nat): Option<bytes>
    requires c < 0x10000
  {
    if c < 0x80 then Some([c])
    else if c < 0x800 then Some([0xC0 + c / 64, 0x80 + c % 64])
    else if 0xD800 <= c <= 0xDFFF then None
    else Some([0xE0 + c / 4096, 0x80 + c / 64 % 64, 0x80 + c % 64])
  }

  function SimpleEscape(b: byte): Option<byte> {
    if b == QUOTE || b == BACKSLASH || b == 0x2F then Some(b)
    else if b == 0x62 then Some(8)
    else if b == 0x66 then Some(12)
    else if b == 0x6E then Some(10)
    else if b == 0x72 then Some(13)
    else if b == 0x74 then Some(9)
    else None
  }

  /** The text between the quotes of a JSON string, decoded; surrogate pairs are not. */
  function Unescape(s: bytes): Option<bytes> {
    if s == [] then Some([])
    else if s[0] == BACKSLASH then
      if |s| >= 6 && s[1] == 0x75 then
        match CodeUnit(s[2..6])
        case None => None
        case Some(c) => if c < 0x10000 then Prepend(EncodeRune(c), Unescape(s[6..])) else None
      else if |s| >= 2 && SimpleEscape(s[1]).Some? then
        Prepend(Some([SimpleEscape(s[1]).value]), Unescape(s[2..]))
      else None
    else if s[0] == QUOTE || s[0] < 0x20 then None
    else Prepend(Some([s[0]]), Unescape(s[1..]))
  }

  function Prepend(head: Option<bytes>, tail: Option<bytes>): Option<bytes> {
    if head.Some? && tail.Some? then Some(head.value + tail.value) else None
  }

  /** A byte that stands for itself. */
  lemma UnescapeOne(b: byte, rest: bytes)
    requires b >= 0x20 && b != QUOTE && b != BACKSLASH
    ensures Unescape([b] + rest) == Prepend(Some([b]), Unescape(rest))
  {
    assert ([b] + rest)[0] == b && ([b] + rest)[1..] == rest;
  }

  lemma PrependTwice(a: bytes, b: bytes, tail: Option<bytes>)
    ensures Prepend(Some(a), Prepend(Some(b), tail)) == Prepend(Some(a + b), tail) && Prepend(Some([]), tail) == tail
  {
    if tail.Some? {
      assert a + (b + tail.value) == a + b + tail.value;
      assert [] + tail.value == tail.value;
    }
  }

  lemma {:induction false} UnescapeHigh(s: bytes, rest: bytes)
    requires forall i :: 0 <= i < |s| ==> s[i] >= 0x80
    ensures Unescape(s + rest) == Prepend(Some(s), Unescape(rest))
  {
    hide Unescape, Prepend;
    if s == [] {
      assert s + rest == rest;
      PrependTwice([], [], Unescape(rest));
    } else {
      UnescapeHigh(s[1..], rest);
      UnescapeOne(s[0], s[1..] + rest);
      PrependTwice([s[0]], s[1..], Unescape(rest));
      assert s + rest == [s[0]] + (s[1..] + rest);
      assert s == [s[0]] + s[1..];
    }
  }

  lemma HexRoundTrip(b: byte)
    requires b < 0x80
    ensures CodeUnit([0x30, 0x30, HexDigit(b / 16), HexDigit(b % 16)]) == Some(b)
  {
  }

  lemma UnescapeAscii(b: byte, rest: bytes)
    requires b < 0x80
    ensures Unescape(EscapeAscii(b) + rest) == Prepend(Some([b]), Unescape(rest))
  {
    var e := EscapeAscii(b);
    var s := e + rest;
    if |e| == 6 {
      assert s[2..6] == [0x30, 0x30, HexDigit(b / 16), HexDigit(b % 16)] && s[6..] == rest;
      HexRoundTrip(b);
    } else if |e| == 2 {
      assert s[2..] == rest && s[1] == e[1] != 0x75;
    } else {
      assert s[1..] == rest;
    }
  }

  lemma UnescapeSeparator(last: byte, rest: bytes)
    requires last == 0x38 || last == 0x39
    ensures Unescape([BACKSLASH, 0x75, 0x32, 0x30, 0x32, last] + rest)
         == Prepend(Some([0xE2, 0x80, 0xA8 + (last - 0x38)]), Unescape(rest))
  {
    var s := [BACKSLASH, 0x75, 0x32, 0x30, 0x32, last] + rest;
    assert s[2..6] == [0x32, 0x30, 0x32, last] && s[6..] == rest;
    assert CodeUnit([0x32, 0x30, 0x32, last]) == Some(0x2028 + (last - 0x38));
    assert EncodeRune(0x2028 + (last - 0x38)) == Some([0xE2, 0x80, 0xA8 + (last - 0x38)]);
  }

  lemma UnescapeRune(r: bytes, rest: bytes)
    requires |r| > 0 && RuneLen(r) == |r|
    ensures Unescape(EscapeRune(r) + rest) == Prepend(Some(r), Unescape(rest))
  {
    if |r| == 1 {
      UnescapeAscii(r[0], rest);
      assert r == [r[0]];
    } else if r == [0xE2, 0x80, 0xA8] {
      UnescapeSeparator(0x38, rest);
    } else if r == [0xE2, 0x80, 0xA9] {
      UnescapeSeparator(0x39, rest);
    } else {
      assert EscapeRune(r) == r;
      UnescapeHigh(r, rest);
    }
    hide Unescape;
  }

  /** A text with U+FFFD for every byte that belongs to no well-formed character. */
  function Sanitize(s: bytes): bytes {
    if s == [] then []
    else if RuneLen(s) == 0 then [0xEF, 0xBF, 0xBD] + Sanitize(s[1..])
    else s[..RuneLen(s)] + Sanitize(s[RuneLen(s)..])
  }

  lemma {:induction false} SanitizeValid(s: bytes)
    requires Valid(s)
    ensures Sanitize(s) == s
  {
    if s != [] {
      SanitizeValid(s[RuneLen(s)..]);
      assert s == s[..RuneLen(s)] + s[RuneLen(s)..];
    }
  }

  lemma UnescapeReplacement(rest: bytes)
    ensures Unescape(REPLACEMENT + rest) == Prepend(Some([0xEF, 0xBF, 0xBD]), Unescape(rest))
  {
    var s := REPLACEMENT + rest;
    assert s[2..6] == [0x66, 0x66, 0x66, 0x64] && s[6..] == rest;
    assert CodeUnit([0x66, 0x66, 0x66, 0x64]) == Some(0xFFFD);
    assert EncodeRune(0xFFFD) == Some([0xEF, 0xBF, 0xBD]);
  }

  /** Decoding inverts encoding, up to the replacement of malformed bytes. */
  lemma {:induction false} UnescapeEscape(s: bytes)
    ensures Unescape(Escape(s)) == Some(Sanitize(s))
  {
    if s != [] {
      hide Unescape, EscapeRune;
      var n := RuneLen(s);
      if n == 0 {
        UnescapeEscape(s[1..]);
        UnescapeReplacement(Escape(s[1..]));
      } else {
        RuneAlone(s);
        UnescapeEscape(s[n..]);
        UnescapeRune(s[..n], Escape(s[n..]));
      }
    } else {
      assert Unescape([]) == Some([]);
    }
  }

  /** Replacing malformed bytes neither blanks a text nor makes a blank one visible. */
  lemma {:induction false} SanitizeBlank(s: bytes)
    ensures TrimLeft(Sanitize(s)) == [] <==> TrimLeft(s) == []
  {
    hide SpaceLen, RuneLen;
    if s != [] {
      if SpaceLen(s) > 0 {
        SpaceIsRune(s);
        var n := RuneLen(s);
        SanitizeBlank(s[n..]);
        SpaceLenPrefix(s[..n], Sanitize(s[n..]));
        assert (s[..n] + Sanitize(s[n..]))[n..] == Sanitize(s[n..]);
      } else {
        SanitizedVisible(s);
      }
    }
  }

  /** A white-space character is one well-formed character. */
  lemma SpaceIsRune(s: bytes)
    requires SpaceLen(s) > 0
    ensures RuneLen(s) == SpaceLen(s) == SpaceLen(s[..RuneLen(s)]) > 0
  {
  }

  lemma SanitizedVisible(s: bytes)
    requires s != [] && SpaceLen(s) == 0
    ensures Sanitize(s) != [] && SpaceLen(Sanitize(s)) == 0
  {
  }

  lemma {:induction false} SanitizeKeepsAscii(s: bytes, b: byte)
    requires b < 0x80 && b in s
    ensures b in Sanitize(s)
  {
    var n := if RuneLen(s) == 0 then 1 else RuneLen(s);
    if b in s[n..] {
      SanitizeKeepsAscii(s[n..], b);
    } else {
      assert b in s[..n] by { assert s == s[..n] + s[n..]; }
      assert RuneLen(s) > 0;
    }
  }

  lemma {:induction false} EscapeLength(s: bytes)
    ensures |Escape(s)| <= 6 * |s|
  {
    if s != [] { EscapeLength(s[if RuneLen(s) == 0 then 1 else RuneLen(s)..]); }
  }

  lemma RuneAlone(s: bytes)
    requires RuneLen(s) > 0
    ensures RuneLen(s[..RuneLen(s)]) == RuneLen(s)
  {
  }
}
