/** How deep the brackets of a JSON text are nested, as Go's encoding/json counts them against its limit. */
module JsonNesting {
  import opened Prelude
  import opened Bytes
  import opened Utf8
  import opened JsonText

  /** The greatest depth that decoding accepts. */
  const MAX_DEPTH: nat := 10000

  const OPEN_BRACE: byte := 0x7B
  const CLOSE_BRACE: byte := 0x7D
  const OPEN_BRACKET: byte := 0x5B
  const CLOSE_BRACKET: byte := 0x5D

  datatype Where = Outside | InString | AfterBackslash

  datatype Scan = Scan(at: Where, depth: int, deepest: int)

  predicate Opens(b: byte) { b == OPEN_BRACE || b == OPEN_BRACKET }

  predicate Closes(b: byte) { b == CLOSE_BRACE || b == CLOSE_BRACKET }

  function Step(p: Scan, b: byte): Scan {
    match p.at
    case AfterBackslash => p.(at := InString)
    case InString =>
      if b == BACKSLASH then p.(at := AfterBackslash) else if b == QUOTE then p.(at := Outside) else p
    case Outside =>
      if b == QUOTE then p.(at := InString)
      else if Opens(b) then Scan(Outside, p.depth + 1, Max(p.deepest, p.depth + 1))
      else if Closes(b) then p.(depth := p.depth - 1)
      else p
  }

  function After(p: Scan, s: bytes): (r: Scan)
    ensures r.deepest >= p.deepest
    decreases s
  {
    if s == [] then p else After(Step(p, s[0]), s[1..])
  }

  function Nesting(s: bytes): nat { After(Scan(Outside, 0, 0), s).deepest }

  /** Wherever `s` stands outside a string, it adds `n` levels and leaves the depth as it was. */
  ghost predicate Nests(s: bytes, n: nat) {
    forall depth: int, deepest: int :: depth <= deepest ==>
      After(Scan(Outside, depth, deepest), s) == Scan(Outside, depth, Max(deepest, depth + n))
  }

  lemma NestingOf(s: bytes, n: nat)
    requires Nests(s, n)
    ensures Nesting(s) == n
  {
    assert After(Scan(Outside, 0, 0), s) == Scan(Outside, 0, Max(0, 0 + n));
  }

  lemma {:induction false} AfterConcat(p: Scan, a: bytes, b: bytes)
    ensures After(p, a + b) == After(After(p, a), b)
    decreases a
  {
    if a == [] {
      assert a + b == b;
    } else {
      assert (a + b)[0] == a[0] && (a + b)[1..] == a[1..] + b;
      AfterConcat(Step(p, a[0]), a[1..], b);
    }
  }

  lemma AfterOne(p: Scan, b: byte)
    ensures After(p, [b]) == Step(p, b)
  {
    assert [b][1..] == [];
    assert After(Step(p, b), []) == Step(p, b);
  }

  lemma NestsConcat(a: bytes, m: nat, b: bytes, n: nat)
    requires Nests(a, m) && Nests(b, n)
    ensures Nests(a + b, Max(m, n))
  {
    forall depth: int, deepest: int | depth <= deepest
      ensures After(Scan(Outside, depth, deepest), a + b) == Scan(Outside, depth, Max(deepest, depth + Max(m, n)))
    {
      AfterConcat(Scan(Outside, depth, deepest), a, b);
      assert After(Scan(Outside, depth, deepest), a) == Scan(Outside, depth, Max(deepest, depth + m));
      assert After(Scan(Outside, depth, Max(deepest, depth + m)), b)
          == Scan(Outside, depth, Max(Max(deepest, depth + m), depth + n));
    }
  }

  /** `begin` and `end` around `s`. */
  lemma AfterAround(p: Scan, begin: byte, s: bytes, end: byte)
    ensures After(p, [begin] + s + [end]) == Step(After(Step(p, begin), s), end)
  {
    AfterConcat(p, [begin] + s, [end]);
    AfterConcat(p, [begin], s);
    AfterOne(p, begin);
    AfterOne(After(Step(p, begin), s), end);
  }

  lemma NestedAfter(s: bytes, n: nat, depth: int, deepest: int)
    requires Nests(s, n) && depth <= deepest
    ensures After(Scan(Outside, depth, deepest), s) == Scan(Outside, depth, Max(deepest, depth + n))
  {
    hide After;
  }

  lemma BracketAt(begin: byte, s: bytes, end: byte, n: nat, depth: int, deepest: int)
    requires Nests(s, n) && Opens(begin) && Closes(end) && depth <= deepest
    ensures After(Scan(Outside, depth, deepest), [begin] + s + [end]) == Scan(Outside, depth, Max(deepest, depth + (n + 1)))
  {
    hide After, Nests;
    AfterAround(Scan(Outside, depth, deepest), begin, s, end);
    NestedAfter(s, n, depth + 1, Max(deepest, depth + 1));
  }

  lemma NestsBracket(begin: byte, s: bytes, end: byte, n: nat)
    requires Nests(s, n) && Opens(begin) && Closes(end)
    ensures Nests([begin] + s + [end], n + 1)
  {
    hide After, Max;
    forall depth: int, deepest: int | depth <= deepest
      ensures After(Scan(Outside, depth, deepest), [begin] + s + [end]) == Scan(Outside, depth, Max(deepest, depth + (n + 1)))
    {
      BracketAt(begin, s, end, n, depth, deepest);
    }
  }

  /** Visible bytes that neither open nor close anything, and no quote or backslash. */
  predicate Bare(s: bytes) {
    forall i :: 0 <= i < |s| ==> s[i] >= 0x20 && s[i] != QUOTE && s[i] != BACKSLASH && !Opens(s[i]) && !Closes(s[i])
  }

  lemma {:induction false} BareStays(p: Scan, s: bytes)
    requires Bare(s) && !p.at.AfterBackslash?
    ensures After(p, s) == p
  {
    if s != [] { BareStays(p, s[1..]); }
  }

  lemma BareNests(s: bytes)
    requires Bare(s)
    ensures Nests(s, 0) && Nests([QUOTE] + s + [QUOTE], 0)
  {
    forall depth: int, deepest: int | depth <= deepest
      ensures After(Scan(Outside, depth, deepest), s) == Scan(Outside, depth, deepest)
      ensures After(Scan(Outside, depth, deepest), [QUOTE] + s + [QUOTE]) == Scan(Outside, depth, deepest)
    {
      BareStays(Scan(Outside, depth, deepest), s);
      BareStays(Scan(InString, depth, deepest), s);
      AfterAround(Scan(Outside, depth, deepest), QUOTE, s, QUOTE);
    }
  }

  /* Strings */

  lemma UnicodeStays(p: Scan, e: bytes)
    requires p.at.InString? && |e| == 6 && e[0] == BACKSLASH
    requires forall i :: 2 <= i < 6 ==> e[i] != QUOTE && e[i] != BACKSLASH
    ensures After(p, e) == p
  {
    assert e == [e[0]] + [e[1]] + [e[2]] + [e[3]] + [e[4]] + [e[5]];
    SimpleStays(p, e[1]);
    AfterConcat(p, [e[0], e[1]], e[2..]);
    assert e == [e[0], e[1]] + e[2..];
    PlainStays(p, e[2..]);
  }

  lemma SimpleStays(p: Scan, b: byte)
    requires p.at.InString?
    ensures After(p, [BACKSLASH, b]) == p
  {
    assert [BACKSLASH, b] == [BACKSLASH] + [b];
    AfterConcat(p, [BACKSLASH], [b]);
    AfterOne(p, BACKSLASH);
    AfterOne(p.(at := AfterBackslash), b);
  }

  lemma {:induction false} PlainStays(p: Scan, s: bytes)
    requires p.at.InString? && forall i :: 0 <= i < |s| ==> s[i] != QUOTE && s[i] != BACKSLASH
    ensures After(p, s) == p
  {
    if s != [] { PlainStays(p, s[1..]); }
  }

  /** An escaped character neither ends the string nor leaves a backslash open. */
  lemma RuneStays(p: Scan, s: bytes)
    requires p.at.InString? && RuneLen(s) > 0
    ensures After(p, EscapeRune(s[..RuneLen(s)])) == p
  {
    var e := EscapeRune(s[..RuneLen(s)]);
    if |e| == 2 && e[0] == BACKSLASH {
      SimpleStays(p, e[1]);
    } else if |e| == 6 {
      UnicodeStays(p, e);
    } else {
      PlainStays(p, e);
    }
  }

  lemma {:induction false} EscapeStays(p: Scan, s: bytes)
    requires p.at.InString?
    ensures After(p, Escape(s)) == p
  {
    if s != [] {
      if RuneLen(s) == 0 {
        UnicodeStays(p, REPLACEMENT);
        EscapeStays(p, s[1..]);
        AfterConcat(p, REPLACEMENT, Escape(s[1..]));
      } else {
        RuneStays(p, s);
        EscapeStays(p, s[RuneLen(s)..]);
        AfterConcat(p, EscapeRune(s[..RuneLen(s)]), Escape(s[RuneLen(s)..]));
      }
    }
  }

  lemma StringNests(s: bytes)
    ensures Nests(JsonString(s), 0)
  {
    forall depth: int, deepest: int | depth <= deepest
      ensures After(Scan(Outside, depth, deepest), JsonString(s)) == Scan(Outside, depth, deepest)
    {
      EscapeStays(Scan(InString, depth, deepest), s);
      AfterAround(Scan(Outside, depth, deepest), QUOTE, Escape(s), QUOTE);
    }
  }

  /* Depth needs length */

  lemma {:induction false} DeepestGrowth(p: Scan, s: bytes)
    requires p.depth <= p.deepest
    ensures After(p, s).deepest <= p.deepest + |s|
    decreases s
  {
    if s != [] { DeepestGrowth(Step(p, s[0]), s[1..]); }
  }

  lemma NestingWithinLength(s: bytes)
    ensures Nesting(s) <= |s|
  {
    DeepestGrowth(Scan(Outside, 0, 0), s);
  }

  /** `n` arrays, each the one element of the one before: `[[...]]`. */
  function Nested(n: nat): bytes {
    if n == 0 then [] else [OPEN_BRACKET] + Nested(n - 1) + [CLOSE_BRACKET]
  }

  lemma {:induction false} NestedNests(n: nat)
    ensures Nests(Nested(n), n) && |Nested(n)| == 2 * n
  {
    hide Nests;
    if n == 0 {
      BareNests([]);
    } else {
      NestedNests(n - 1);
      NestsBracket(OPEN_BRACKET, Nested(n - 1), CLOSE_BRACKET, n - 1);
    }
  }
}
