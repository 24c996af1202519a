/** Byte strings and the few operations of Go's `bytes` package that the model uses. */
module Bytes {
  import opened Prelude

  type byte = b: int | 0 <= b < 256

  type bytes = seq<byte>

  const NEWLINE: byte := 10
  const CARRIAGE_RETURN: byte := 13

  /** The bytes of an ASCII text. */
  function Ascii(s: string): (b: bytes)
    ensures |b| == |s|
  {
    seq(|s|, i requires 0 <= i < |s| => AsciiByte(s[i]))
  }

  function AsciiByte(c: char): byte { c as int % 128 }

  /** Length of the white-space character at the start of `s` (unicode.IsSpace), or 0. */
  function SpaceLen(s: bytes): (n: nat)
    ensures n <= |s|
  {
    if |s| >= 1 && (9 <= s[0] <= 13 || s[0] == 32) then 1
    else if |s| >= 2 && s[0] == 0xC2 && (s[1] == 0x85 || s[1] == 0xA0) then 2
    else if |s| >= 3 && IsWideSpace(s[0], s[1], s[2]) then 3
    else 0
  }

  /** U+1680, U+2000 to U+200A, U+2028, U+2029, U+202F, U+205F and U+3000. */
  predicate IsWideSpace(a: byte, b: byte, c: byte) {
    || (a == 0xE1 && b == 0x9A && c == 0x80)
    || (a == 0xE2 && b == 0x80 && (0x80 <= c <= 0x8A || c == 0xA8 || c == 0xA9 || c == 0xAF))
    || (a == 0xE2 && b == 0x81 && c == 0x9F)
    || (a == 0xE3 && b == 0x80 && c == 0x80)
  }

  /** Length of the white-space character at the end of `s`, or 0. */
  function SpaceLenAtEnd(s: bytes): (n: nat)
    ensures n <= |s|
  {
    if |s| >= 1 && SpaceLen(s[|s| - 1..]) == 1 then 1
    else if |s| >= 2 && SpaceLen(s[|s| - 2..]) == 2 then 2
    else if |s| >= 3 && SpaceLen(s[|s| - 3..]) == 3 then 3
    else 0
  }

  function TrimLeft(s: bytes): (r: bytes)
    ensures |r| <= |s| && r == s[|s| - |r|..]
  {
    if SpaceLen(s) == 0 then s else TrimLeft(s[SpaceLen(s)..])
  }

  function TrimRight(s: bytes): (r: bytes)
    ensures r <= s
  {
    if SpaceLenAtEnd(s) == 0 then s else TrimRight(s[..|s| - SpaceLenAtEnd(s)])
  }

  function TrimSpace(s: bytes): bytes { TrimRight(TrimLeft(s)) }

  predicate Blank(s: bytes) { TrimSpace(s) == [] }

  function TrimCarriageReturn(s: bytes): bytes {
    if s != [] && s[|s| - 1] == CARRIAGE_RETURN then s[..|s| - 1] else s
  }

  /* White space at either end */

  /** A leading space is recognised by its own bytes. */
  lemma SpaceLenPrefix(a: bytes, b: bytes)
    requires SpaceLen(a) > 0
    ensures SpaceLen(a + b) == SpaceLen(a) && (a + b)[SpaceLen(a)..] == a[SpaceLen(a)..] + b
  {
  }

  /** Text that is all space on the left leaves the rest to be trimmed. */
  lemma {:induction false} TrimLeftConcat(a: bytes, b: bytes)
    requires TrimLeft(a) == []
    ensures TrimLeft(a + b) == TrimLeft(b)
  {
    if a == [] {
      assert a + b == b;
    } else {
      assert SpaceLen(a) > 0;
      SpaceLenPrefix(a, b);
      TrimLeftConcat(a[SpaceLen(a)..], b);
    }
  }

  lemma SpaceAtEnd(s: bytes)
    requires SpaceLenAtEnd(s) > 0
    ensures TrimLeft(s[|s| - SpaceLenAtEnd(s)..]) == []
  {
    var last := s[|s| - SpaceLenAtEnd(s)..];
    assert SpaceLen(last) == |last| > 0;
    assert last[|last|..] == [];
  }

  lemma {:induction false} TrimRightAll(s: bytes)
    requires TrimRight(s) == []
    ensures TrimLeft(s) == []
  {
    hide SpaceLenAtEnd, SpaceLen;
    if s != [] {
      var n := SpaceLenAtEnd(s);
      var init, last := s[..|s| - n], s[|s| - n..];
      assert s == init + last;
      TrimRightAll(init);
      SpaceAtEnd(s);
      TrimLeftConcat(init, last);
    }
  }

  /** A text is blank exactly when trimming it on the left leaves nothing. */
  lemma BlankOnLeft(s: bytes)
    ensures Blank(s) <==> TrimLeft(s) == []
  {
    if Blank(s) {
      TrimRightAll(TrimLeft(s));
      TrimLeftTwice(s);
    }
  }

  lemma {:induction false} TrimLeftTwice(s: bytes)
    ensures TrimLeft(TrimLeft(s)) == TrimLeft(s)
  {
    if SpaceLen(s) > 0 { TrimLeftTwice(s[SpaceLen(s)..]); }
  }

  /** An ASCII character that is not a space ends no space character. */
  lemma NoSpaceAtEnd(s: bytes)
    requires s != [] && 0x21 <= s[|s| - 1] < 0x80
    ensures SpaceLenAtEnd(s) == 0
  {
    hide SpaceLen, SpaceLenAtEnd;
    EndsWithout(s, 1);
    if |s| >= 2 { EndsWithout(s, 2); }
    if |s| >= 3 { EndsWithout(s, 3); }
    DefinedBy(s);
  }

  lemma EndsWithout(s: bytes, n: nat)
    requires 1 <= n <= 3 && n <= |s| && 0x21 <= s[|s| - 1] < 0x80
    ensures SpaceLen(s[|s| - n..]) != n
  {
    var t := s[|s| - n..];
    assert t[n - 1] == s[|s| - 1];
  }

  lemma DefinedBy(s: bytes)
    requires |s| >= 1 && SpaceLen(s[|s| - 1..]) != 1
    requires |s| >= 2 ==> SpaceLen(s[|s| - 2..]) != 2
    requires |s| >= 3 ==> SpaceLen(s[|s| - 3..]) != 3
    ensures SpaceLenAtEnd(s) == 0
  {
    hide SpaceLen;
  }

  /** A text that ends in such a character keeps its end. */
  lemma TrimRightKeeps(s: bytes)
    requires s != [] && 0x21 <= s[|s| - 1] < 0x80
    ensures TrimRight(s) == s
  {
    NoSpaceAtEnd(s);
    hide SpaceLenAtEnd;
  }

  lemma TrimLeftKeeps(s: bytes)
    requires s != [] && 0x21 <= s[0] < 0x80
    ensures TrimLeft(s) == s
  {
    hide SpaceLen;
    NoSpaceFirst(s);
  }

  lemma NoSpaceFirst(s: bytes)
    requires s != [] && 0x21 <= s[0] < 0x80
    ensures SpaceLen(s) == 0
  {
  }

  /** A text that starts with such a character is not blank. */
  lemma StartsVisible(s: bytes)
    requires s != [] && 0x21 <= s[0] < 0x80
    ensures !Blank(s)
  {
    BlankOnLeft(s);
    TrimLeftKeeps(s);
    hide TrimLeft, TrimSpace, Blank;
  }

  /** A leading space is a space by itself. */
  lemma SpaceAlone(s: bytes)
    requires SpaceLen(s) > 0
    ensures SpaceLen(s[..SpaceLen(s)]) == SpaceLen(s)
  {
  }

  lemma SpaceTrims(s: bytes)
    requires SpaceLen(s) > 0
    ensures TrimLeft(s[..SpaceLen(s)]) == []
  {
    SpaceAlone(s);
    hide SpaceLen;
    var first := s[..SpaceLen(s)];
    assert first[SpaceLen(first)..] == [];
    assert TrimLeft(first) == TrimLeft(first[SpaceLen(first)..]);
    NothingToTrim();
  }

  lemma NothingToTrim()
    ensures TrimLeft([]) == []
  {
  }

  /** The space that TrimLeft takes away. */
  lemma {:induction false} TrimmedLeft(s: bytes) returns (space: bytes)
    ensures s == space + TrimLeft(s) && TrimLeft(space) == []
  {
    hide SpaceLen, SpaceLenAtEnd;
    var n := SpaceLen(s);
    if n == 0 {
      space := [];
      NothingToTrim();
    } else {
      space := TrimmedLeft(s[n..]);
      SpaceTrims(s);
      Regroup(s, n, space, TrimLeft(s[n..]));
      hide TrimLeft;
      TrimLeftConcat(s[..n], space);
      NothingToTrim();
      space := s[..n] + space;
    }
  }

  lemma Regroup(s: bytes, n: nat, a: bytes, b: bytes)
    requires n <= |s| && s[n..] == a + b
    ensures s == (s[..n] + a) + b
  {
  }

  /** The space that TrimRight takes away. */
  lemma {:induction false} TrimmedRight(s: bytes) returns (space: bytes)
    ensures s == TrimRight(s) + space && TrimLeft(space) == []
  {
    hide SpaceLen, SpaceLenAtEnd, TrimLeft;
    var n := SpaceLenAtEnd(s);
    NothingToTrim();
    if n == 0 {
      space := [];
    } else {
      var m := |s| - n;
      space := TrimmedRight(s[..m]);
      SpaceAtEnd(s);
      TrimLeftConcat(space, s[m..]);
      Regrouped(s, m, TrimRight(s[..m]), space);
      space := space + s[m..];
    }
  }

  lemma Regrouped(s: bytes, m: nat, a: bytes, b: bytes)
    requires m <= |s| && s[..m] == a + b
    ensures s == a + (b + s[m..])
  {
  }

  /** A text is what trimming leaves of it, with blanks around. */
  lemma TrimSplits(s: bytes) returns (before: bytes, after: bytes)
    ensures Blank(before) && Blank(after) && s == before + TrimSpace(s) + after
  {
    hide TrimLeft, TrimRight, Blank;
    before := TrimmedLeft(s);
    after := TrimmedRight(TrimLeft(s));
    BlankOnLeft(before);
    BlankOnLeft(after);
  }
}
