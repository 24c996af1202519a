/**
 Redaction of sensitive values in what MCP servers report: which of them can still occur in the result,
 and what becomes of those that span lines of standard error.
 */
module Redaction {
  import opened Prelude
  import opened Bytes
  import opened Utf8
  import opened JsonText
  import opened Sorting
  import opened McpStderr

  const OPEN: byte := 0x5B
  const CLOSE: byte := 0x5D
  const MAX_EXTERNAL_ERROR: nat := 4096

  /** "[REDACTED]" */
  const MARK: bytes := [OPEN, 0x52, 0x45, 0x44, 0x41, 0x43, 0x54, 0x45, 0x44, CLOSE]

  ghost predicate Occurs(f: bytes, s: bytes) { exists i :: 0 <= i <= |s| && f <= s[i..] }

  predicate Contains(s: bytes, f: bytes) {
    f <= s || (s != [] && Contains(s[1..], f))
  }

  lemma {:induction false} ContainsIffOccurs(s: bytes, f: bytes)
    ensures Contains(s, f) <==> Occurs(f, s)
  {
    if s == [] {
      assert s[0..] == s;
    } else {
      ContainsIffOccurs(s[1..], f);
      OccursNext(f, s[0], s[1..]);
      assert [s[0]] + s[1..] == s;
    }
  }

  /** strings.ReplaceAll with the mark: each leftmost occurrence, none overlapping the one before. */
  function ReplaceAll(s: bytes, f: bytes): bytes
    requires f != []
  {
    if s == [] then []
    else if f <= s then MARK + ReplaceAll(s[|f|..], f)
    else [s[0]] + ReplaceAll(s[1..], f)
  }

  /** Every form in turn. */
  function Replace(forms: seq<bytes>, s: bytes): bytes
    requires [] !in forms
  {
    if forms == [] then s else Replace(forms[1..], ReplaceAll(s, forms[0]))
  }

  method ReplaceForms(forms: seq<bytes>, value: bytes) returns (r: bytes)
    requires [] !in forms
    ensures r == Replace(forms, value)
  {
    r := value;
    for i := 0 to |forms|
      invariant Replace(forms[i..], r) == Replace(forms, value)
    {
      assert forms[i..][0] == forms[i] && forms[i..][1..] == forms[i + 1..];
      r := ReplaceAll(r, forms[i]);
    }
  }

  ghost predicate Sensitive(forms: seq<bytes>, s: bytes) { exists f :: f in forms && Occurs(f, s) }

  method ContainsSensitive(forms: seq<bytes>, value: bytes) returns (r: bool)
    ensures r <==> Sensitive(forms, value)
  {
    for i := 0 to |forms|
      invariant forall f :: f in forms[..i] ==> !Occurs(f, value)
    {
      ContainsIffOccurs(value, forms[i]);
      if Contains(value, forms[i]) {
        return true;
      }
      assert forms[..i + 1] == forms[..i] + [forms[i]];
    }
    assert forms[..|forms|] == forms;
    r := false;
  }

  /* Occurrences */

  lemma OccursNext(f: bytes, c: byte, s: bytes)
    ensures Occurs(f, [c] + s) <==> f <= [c] + s || Occurs(f, s)
  {
    var t := [c] + s;
    assert t[0..] == t;
    forall i | 0 <= i <= |s| ensures t[i + 1..] == s[i..] { }
    if Occurs(f, t) {
      var i :| 0 <= i <= |t| && f <= t[i..];
      if i > 0 { assert t[i - 1 + 1..] == s[i - 1..]; }
    }
    if Occurs(f, s) {
      var i :| 0 <= i <= |s| && f <= s[i..];
      assert f <= t[i + 1..];
    }
  }

  lemma OccursAfter(f: bytes, a: bytes, b: bytes)
    requires Occurs(f, b)
    ensures Occurs(f, a + b)
  {
    var i :| 0 <= i <= |b| && f <= b[i..];
    assert (a + b)[|a| + i..] == b[i..];
  }

  lemma NotAfter(f: bytes, a: bytes, b: bytes)
    requires !Occurs(f, a + b)
    ensures !Occurs(f, b)
  {
    if Occurs(f, b) { OccursAfter(f, a, b); }
  }

  lemma MembersOccur(f: bytes, s: bytes, b: byte)
    requires Occurs(f, s) && b in f
    ensures b in s
  {
    var i :| 0 <= i <= |s| && f <= s[i..];
    var k :| 0 <= k < |f| && f[k] == b;
    assert s[i..][k] == b && s[i + k] == b;
  }

  lemma OccursBefore(f: bytes, a: bytes, b: bytes)
    requires Occurs(f, a)
    ensures Occurs(f, a + b)
  {
    var i :| 0 <= i <= |a| && f <= a[i..];
    assert (a + b)[i..] == a[i..] + b;
  }

  lemma OccursWithin(f: bytes, g: bytes, s: bytes)
    requires Occurs(f, g) && Occurs(g, s)
    ensures Occurs(f, s)
  {
    var i :| 0 <= i <= |s| && g <= s[i..];
    var rest := s[i..];
    OccursBefore(f, g, rest[|g|..]);
    assert rest == g + rest[|g|..];
    OccursAfter(f, s[..i], rest);
    assert s == s[..i] + rest;
  }

  lemma OccursInItself(f: bytes)
    ensures Occurs(f, f)
  {
    assert f[0..] == f;
  }

  lemma ShorterHoldsNothing(f: bytes, s: bytes)
    requires Occurs(f, s)
    ensures |f| <= |s| && (|f| == |s| ==> f == s)
  {
    var i :| 0 <= i <= |s| && f <= s[i..];
    if |f| == |s| { assert s[0..] == s; }
  }

  /* What replacement leaves */

  predicate BracketFree(f: bytes) { OPEN !in f && CLOSE !in f }

  lemma CoversEndOfMark(f: bytes, t: bytes, i: nat)
    requires i < |MARK| < i + |f| && f <= (MARK + t)[i..]
    ensures CLOSE in f
  {
    assert f[9 - i] == (MARK + t)[i..][9 - i] == (MARK + t)[9] == CLOSE;
  }

  lemma CoversStartOfMark(p: bytes, t: bytes)
    requires p != [] && p <= MARK + t
    ensures OPEN in p
  {
    assert p[0] == MARK[0];
  }

  /** A form without brackets can only lie before, in, or after a mark. */
  lemma OccursBesideMark(f: bytes, t: bytes)
    requires BracketFree(f) && f != [] && Occurs(f, MARK + t)
    ensures Occurs(f, MARK) || Occurs(f, t)
  {
    var s := MARK + t;
    var i :| 0 <= i <= |s| && f <= s[i..];
    if i >= |MARK| {
      assert s[i..] == t[i - |MARK|..];
    } else if i + |f| <= |MARK| {
      assert s[i..][..|f|] == MARK[i..][..|f|];
      assert f <= MARK[i..];
    } else {
      CoversEndOfMark(f, t, i);
    }
  }

  /** What stands before the first mark was there. */
  lemma {:induction false} PrefixCopied(p: bytes, s: bytes, g: bytes)
    requires g != [] && BracketFree(p) && p <= ReplaceAll(s, g)
    ensures p <= s
  {
    if p != [] {
      if g <= s {
        CoversStartOfMark(p, ReplaceAll(s[|g|..], g));
      } else {
        var rest := ReplaceAll(s[1..], g);
        assert p[1..] <= rest;
        assert forall b :: b in p[1..] ==> b in p;
        PrefixCopied(p[1..], s[1..], g);
        assert p == [s[0]] + p[1..] && s == [s[0]] + s[1..];
      }
    }
  }

  /** A form that is replaced, or was not there, is not there afterwards. */
  lemma {:induction false} GoneAfter(f: bytes, s: bytes, g: bytes)
    requires g != [] && f != [] && BracketFree(f) && !Occurs(f, MARK)
    requires f == g || !Occurs(f, s)
    ensures !Occurs(f, ReplaceAll(s, g))
    decreases |s|
  {
    if s == [] {
    } else if g <= s {
      var rest := s[|g|..];
      assert s == s[..|g|] + rest;
      if f != g { NotAfter(f, s[..|g|], rest); }
      GoneAfter(f, rest, g);
      if Occurs(f, MARK + ReplaceAll(rest, g)) { OccursBesideMark(f, ReplaceAll(rest, g)); }
    } else {
      assert s == [s[0]] + s[1..];
      OccursNext(f, s[0], s[1..]);
      GoneAfter(f, s[1..], g);
      var out := ReplaceAll(s[1..], g);
      OccursNext(f, s[0], out);
      if f <= [s[0]] + out { PrefixCopied(f, s, g); }
    }
  }

  lemma {:induction false} GoneAfterAll(f: bytes, s: bytes, forms: seq<bytes>)
    requires [] !in forms && f != [] && BracketFree(f) && !Occurs(f, MARK)
    requires f in forms || !Occurs(f, s)
    ensures !Occurs(f, Replace(forms, s))
    decreases |forms|
  {
    if forms != [] {
      if f == forms[0] || !Occurs(f, s) { GoneAfter(f, s, forms[0]); }
      GoneAfterAll(f, ReplaceAll(s, forms[0]), forms[1..]);
    }
  }

  /* What replacement brings */

  lemma {:induction false} CopiedOrMarked(p: bytes, s: bytes, g: bytes)
    requires g != [] && p <= s
    ensures p <= ReplaceAll(s, g) || Occurs(MARK, ReplaceAll(s, g))
  {
    if s != [] && g <= s {
      OccursInItself(MARK);
      OccursBefore(MARK, MARK, ReplaceAll(s[|g|..], g));
    } else if p != [] {
      CopiedOrMarked(p[1..], s[1..], g);
      OccursNext(MARK, s[0], ReplaceAll(s[1..], g));
      assert p == [s[0]] + p[1..];
    }
  }

  lemma {:induction false} MarkStays(s: bytes, g: bytes)
    requires g != [] && Occurs(MARK, s)
    ensures Occurs(MARK, ReplaceAll(s, g))
    decreases |s|
  {
    if s == [] {
      ShorterHoldsNothing(MARK, s);
    } else if g <= s {
      OccursInItself(MARK);
      OccursBefore(MARK, MARK, ReplaceAll(s[|g|..], g));
    } else {
      assert s == [s[0]] + s[1..];
      OccursNext(MARK, s[0], s[1..]);
      OccursNext(MARK, s[0], ReplaceAll(s[1..], g));
      if MARK <= s {
        CopiedOrMarked(MARK, s, g);
      } else {
        MarkStays(s[1..], g);
      }
    }
  }

  lemma {:induction false} UnchangedOrMarked(s: bytes, g: bytes)
    requires g != []
    ensures Occurs(g, s) ==> Occurs(MARK, ReplaceAll(s, g))
    ensures !Occurs(g, s) ==> ReplaceAll(s, g) == s
    decreases |s|
  {
    if s == [] {
      if Occurs(g, s) { ShorterHoldsNothing(g, s); }
    } else if g <= s {
      OccursInItself(MARK);
      OccursBefore(MARK, MARK, ReplaceAll(s[|g|..], g));
      assert s[0..] == s;
    } else {
      assert s == [s[0]] + s[1..];
      OccursNext(g, s[0], s[1..]);
      UnchangedOrMarked(s[1..], g);
      OccursNext(MARK, s[0], ReplaceAll(s[1..], g));
    }
  }

  lemma {:induction false} MarkStaysForAll(s: bytes, forms: seq<bytes>)
    requires [] !in forms && Occurs(MARK, s)
    ensures Occurs(MARK, Replace(forms, s))
    decreases |forms|
  {
    if forms != [] {
      MarkStays(s, forms[0]);
      MarkStaysForAll(ReplaceAll(s, forms[0]), forms[1..]);
    }
  }

  /** Whatever the order of the forms: a value that contains one of them comes out with a mark. */
  lemma {:induction false} SensitiveIsMarked(s: bytes, forms: seq<bytes>)
    requires [] !in forms && Sensitive(forms, s)
    ensures Occurs(MARK, Replace(forms, s))
    decreases |forms|
  {
    var f :| f in forms && Occurs(f, s);
    UnchangedOrMarked(s, forms[0]);
    if Occurs(forms[0], s) {
      MarkStaysForAll(ReplaceAll(s, forms[0]), forms[1..]);
    } else {
      assert f in forms[1..];
      SensitiveIsMarked(s, forms[1..]);
    }
  }

  ghost predicate NeverLeft(f: bytes, forms: seq<bytes>)
    requires [] !in forms
  {
    forall s: bytes :: !Occurs(f, Replace(forms, s))
  }

  /** The exact condition, for a form without brackets: it is gone for good unless it is part of the mark. */
  lemma NeverLeftIff(f: bytes, forms: seq<bytes>)
    requires [] !in forms && f in forms && BracketFree(f)
    ensures NeverLeft(f, forms) <==> !Occurs(f, MARK)
  {
    if Occurs(f, MARK) {
      OccursInItself(f);
      assert Sensitive(forms, f);
      SensitiveIsMarked(f, forms);
      OccursWithin(f, MARK, Replace(forms, f));
    } else {
      forall s: bytes ensures !Occurs(f, Replace(forms, s)) { GoneAfterAll(f, s, forms); }
    }
  }

  predicate Safe(f: bytes) { f != [] && BracketFree(f) && !Contains(MARK, f) }

  predicate AllSafe(forms: seq<bytes>) { forall f :: f in forms ==> Safe(f) }

  lemma {:induction false} InsensitiveUnchanged(forms: seq<bytes>, s: bytes)
    requires [] !in forms && !Sensitive(forms, s)
    ensures Replace(forms, s) == s
  {
    if forms != [] {
      assert forms[0] in forms;
      UnchangedOrMarked(s, forms[0]);
      InsensitiveUnchanged(forms[1..], s);
    }
  }

  /** Replacing safe forms leaves nothing sensitive, and changes exactly what was. */
  lemma ReplacedIsClean(forms: seq<bytes>, s: bytes)
    requires AllSafe(forms)
    ensures !Sensitive(forms, Replace(forms, s))
    ensures Replace(forms, s) == s <==> !Sensitive(forms, s)
  {
    forall f | f in forms ensures !Occurs(f, Replace(forms, s)) {
      ContainsIffOccurs(MARK, f);
      GoneAfterAll(f, s, forms);
    }
    if !Sensitive(forms, s) { InsensitiveUnchanged(forms, s); }
  }

  /* The forms of the sensitive values */

  function TrimQuotesLeft(s: bytes): bytes {
    if s != [] && s[0] == QUOTE then TrimQuotesLeft(s[1..]) else s
  }

  function TrimQuotesRight(s: bytes): bytes {
    if s != [] && s[|s| - 1] == QUOTE then TrimQuotesRight(s[..|s| - 1]) else s
  }

  /** The value as it appears inside a JSON string; quotes at its ends are cut off. */
  function EscapedForm(value: bytes): bytes { TrimQuotesRight(TrimQuotesLeft(JsonString(value))) }

  ghost predicate LongestFirst(forms: seq<bytes>) { forall i, j :: 0 <= i < j < |forms| ==> |forms[i]| >= |forms[j]| }

  /** The forms of the values, and no others. */
  ghost predicate FormsOf(values: seq<bytes>, forms: seq<bytes>) {
    && (forall v :: v in values && v != [] ==> v in forms && EscapedForm(v) in forms)
    && (forall f :: f in forms ==> exists v :: v in values && v != [] && (f == v || f == EscapedForm(v)))
  }

  function Longer(a: bytes, b: bytes): bool { |a| > |b| }

  lemma {:induction false} InsertLongest(f: bytes, forms: seq<bytes>)
    requires LongestFirst(forms)
    ensures LongestFirst(Insert(Longer, f, forms))
    ensures forall g :: g in Insert(Longer, f, forms) ==> g == f || g in forms
  {
    if forms != [] && !Longer(f, forms[0]) {
      InsertLongest(f, forms[1..]);
      var rest := Insert(Longer, f, forms[1..]);
      forall j | 0 <= j < |rest| ensures |forms[0]| >= |rest[j]| {
        assert rest[j] in rest;
        if rest[j] != f {
          var k :| 0 <= k < |forms[1..]| && forms[1..][k] == rest[j];
          assert |forms[0]| >= |forms[k + 1]|;
        }
      }
    }
  }

  lemma {:induction false} SortLongest(forms: seq<bytes>)
    ensures LongestFirst(Sort(Longer, forms))
  {
    if forms != [] {
      SortLongest(forms[1..]);
      InsertLongest(forms[0], Sort(Longer, forms[1..]));
    }
  }

  method NewRedactor(values: seq<bytes>) returns (forms: seq<bytes>)
    ensures FormsOf(values, forms) && LongestFirst(forms) && [] !in forms
  {
    hide EscapedForm, Sort, LongestFirst;
    var cloned := Sort(Longer, values);
    SortMembers(Longer, values);
    forms := [];
    for i := 0 to |cloned|
      invariant FormsOf(cloned[..i], forms) && [] !in forms
    {
      assert cloned[..i + 1] == cloned[..i] + [cloned[i]];
      var sensitive := cloned[i];
      if sensitive == [] {
        continue;
      }
      ghost var before := forms;
      forms := forms + [sensitive];
      var escaped := EscapedForm(sensitive);
      EscapedNotEmpty(sensitive);
      if escaped != sensitive {
        forms := forms + [escaped];
      }
      FormsOfOneMore(cloned[..i], before, sensitive, forms);
    }
    assert cloned[..|cloned|] == cloned;
    SortMembers(Longer, forms);
    SortLongest(forms);
    forms := Sort(Longer, forms);
  }

  lemma FormsOfOneMore(values: seq<bytes>, before: seq<bytes>, v: bytes, forms: seq<bytes>)
    requires FormsOf(values, before) && v != []
    requires forms == before + [v] + if EscapedForm(v) == v then [] else [EscapedForm(v)]
    ensures FormsOf(values + [v], forms)
  {
    hide EscapedForm;
    forall f | f in forms ensures exists w :: w in values + [v] && w != [] && (f == w || f == EscapedForm(w)) {
      if f in before {
        var w :| w in values && w != [] && (f == w || f == EscapedForm(w));
        assert w in values + [v];
      } else {
        assert v in values + [v] && (f == v || f == EscapedForm(v));
      }
    }
  }

  lemma {:induction false} TrimLeftMembers(s: bytes)
    ensures forall b :: b in TrimQuotesLeft(s) ==> b in s
    ensures forall b :: b in s && b != QUOTE ==> b in TrimQuotesLeft(s)
  {
    if s != [] && s[0] == QUOTE { TrimLeftMembers(s[1..]); }
  }

  lemma {:induction false} TrimRightMembers(s: bytes)
    ensures forall b :: b in TrimQuotesRight(s) ==> b in s
    ensures forall b :: b in s && b != QUOTE ==> b in TrimQuotesRight(s)
  {
    if s != [] && s[|s| - 1] == QUOTE {
      TrimRightMembers(s[..|s| - 1]);
      assert s == s[..|s| - 1] + [QUOTE];
    }
  }

  /** Apart from quotes, the escaped form has the bytes of the encoding. */
  lemma EscapedMembers(v: bytes)
    ensures forall b :: b != QUOTE ==> (b in EscapedForm(v) <==> b in Escape(v))
  {
    TrimLeftMembers(JsonString(v));
    TrimRightMembers(TrimQuotesLeft(JsonString(v)));
    hide TrimQuotesLeft, TrimQuotesRight, Escape;
  }

  lemma EscapedRuneMembers(r: bytes)
    requires |r| > 0
    ensures OPEN in EscapeRune(r) ==> OPEN in r
    ensures CLOSE in EscapeRune(r) ==> CLOSE in r
    ensures BACKSLASH in EscapeRune(r) || (EscapeRune(r) == r && (|r| == 1 ==> r[0] != QUOTE))
  {
    if |r| == 1 { assert r[0] in r; }
  }

  /** Escaping brings in no bracket, and nothing at all if it brings in no backslash. */
  lemma {:induction false} EscapeBrings(v: bytes)
    ensures OPEN in Escape(v) ==> OPEN in v
    ensures CLOSE in Escape(v) ==> CLOSE in v
    ensures BACKSLASH in Escape(v) || (Escape(v) == v && QUOTE !in v)
  {
    if v != [] {
      var n := if RuneLen(v) == 0 then 1 else RuneLen(v);
      EscapeBrings(v[n..]);
      assert v == v[..n] + v[n..];
      if RuneLen(v) > 0 {
        EscapedRuneMembers(v[..n]);
        if n > 1 { RuneWithoutQuote(v); }
      } else {
        assert REPLACEMENT[0] == BACKSLASH;
      }
      hide EscapeRune, RuneLen;
    }
  }

  lemma RuneWithoutQuote(v: bytes)
    requires RuneLen(v) > 1
    ensures QUOTE !in v[..RuneLen(v)]
  {
  }

  lemma {:induction false} TrimsToItself(v: bytes)
    requires QUOTE !in v
    ensures TrimQuotesRight(TrimQuotesLeft([QUOTE] + v + [QUOTE])) == v
  {
    var s := [QUOTE] + v + [QUOTE];
    assert s[1..] == v + [QUOTE];
    if v == [] {
      assert TrimQuotesLeft(s[1..]) == TrimQuotesLeft(s[1..][1..]) == [];
    } else {
      assert (v + [QUOTE])[0] == v[0] && v[0] in v;
      assert TrimQuotesLeft(s) == v + [QUOTE];
      assert (v + [QUOTE])[..|v|] == v && v[|v| - 1] in v;
      assert TrimQuotesRight(v + [QUOTE]) == TrimQuotesRight(v) == v;
    }
  }

  lemma EscapedNotEmpty(v: bytes)
    requires v != []
    ensures EscapedForm(v) != []
  {
    EscapeBrings(v);
    EscapedMembers(v);
    if BACKSLASH in Escape(v) {
      assert BACKSLASH in EscapedForm(v);
    } else {
      TrimsToItself(v);
    }
    hide Escape, TrimQuotesLeft, TrimQuotesRight;
  }

  lemma NoBackslashInMark(f: bytes)
    requires BACKSLASH in f
    ensures !Contains(MARK, f)
  {
    ContainsIffOccurs(MARK, f);
    if Occurs(f, MARK) { MembersOccur(f, MARK, BACKSLASH); }
    hide Contains, Occurs;
  }

  /** With a value, its escaped form is safe: a form that differs from its value holds a backslash. */
  lemma EscapedIsSafe(v: bytes)
    requires Safe(v)
    ensures Safe(EscapedForm(v))
  {
    EscapedNotEmpty(v);
    EscapeBrings(v);
    EscapedMembers(v);
    hide Escape, TrimQuotesLeft, TrimQuotesRight, Contains;
    if BACKSLASH in Escape(v) {
      NoBackslashInMark(EscapedForm(v));
    } else {
      TrimsToItself(v);
    }
  }

  lemma FormsAreSafe(values: seq<bytes>, forms: seq<bytes>)
    requires FormsOf(values, forms) && forall v :: v in values && v != [] ==> Safe(v)
    ensures AllSafe(forms)
  {
    hide EscapedForm, Safe;
    forall f | f in forms ensures Safe(f) {
      var v :| v in values && v != [] && (f == v || f == EscapedForm(v));
      EscapedIsSafe(v);
    }
  }

  /** The longest form goes first, so that a value that is sensitive as a whole leaves nothing but the mark. */
  lemma {:induction false} WholeFormReplaced(forms: seq<bytes>, f: bytes)
    requires AllSafe(forms) && LongestFirst(forms) && f in forms
    ensures Replace(forms, f) == MARK
    decreases |forms|
  {
    var first := forms[0];
    assert first in forms && Safe(first);
    if first == f {
      assert f[|f|..] == [];
      assert ReplaceAll(f, f) == MARK + ReplaceAll([], f) == MARK;
      forall g | g in forms[1..] ensures !Occurs(g, MARK) {
        assert Safe(g);
        ContainsIffOccurs(MARK, g);
      }
      InsensitiveUnchanged(forms[1..], MARK);
    } else {
      assert f in forms[1..];
      var j :| 0 <= j < |forms| && forms[j] == f;
      assert |first| >= |forms[j]|;
      if Occurs(first, f) { ShorterHoldsNothing(first, f); }
      UnchangedOrMarked(f, first);
      WholeFormReplaced(forms[1..], f);
    }
  }

  /* Cleaning: replacement, then truncation */

  function LongestValid(s: bytes): bytes {
    if Valid(s) then s else LongestValid(s[..|s| - 1])
  }

  function Truncated(s: bytes, limit: nat): bytes { LongestValid(s[..Min(|s|, limit)]) }

  lemma {:induction false} LongestValidIs(s: bytes)
    ensures LongestValid(s) <= s && Valid(LongestValid(s))
    ensures forall q :: q <= s && Valid(q) ==> |q| <= |LongestValid(s)|
  {
    if !Valid(s) {
      LongestValidIs(s[..|s| - 1]);
      assert s[..|s|] == s;
      forall q | q <= s && Valid(q) ensures |q| <= |LongestValid(s)| {
        assert q == s[..|q|];
        assert q <= s[..|s| - 1];
      }
    }
  }

  lemma TruncatedIs(s: bytes, limit: nat)
    ensures IsTruncation(s, limit, Truncated(s, limit))
  {
    hide LongestValid, Valid;
    var cut := s[..Min(|s|, limit)];
    LongestValidIs(cut);
    assert forall q :: q <= s && |q| <= limit ==> q <= cut;
  }

  function Cleaned(forms: seq<bytes>, s: bytes): bytes
    requires [] !in forms
  {
    Truncated(Replace(forms, s), MAX_EXTERNAL_ERROR)
  }

  method Clean(forms: seq<bytes>, value: bytes) returns (r: bytes)
    requires [] !in forms
    ensures r == Cleaned(forms, value)
  {
    var replaced := ReplaceForms(forms, value);
    r := TruncateUTF8(replaced, MAX_EXTERNAL_ERROR);
    TruncatedIs(replaced, MAX_EXTERNAL_ERROR);
    TruncationUnique(replaced, MAX_EXTERNAL_ERROR, r, Truncated(replaced, MAX_EXTERNAL_ERROR));
  }

  /** No sensitive value without brackets that is not part of the mark, raw or escaped, is in a cleaned text. */
  lemma CleanedHidesValues(values: seq<bytes>, forms: seq<bytes>, v: bytes, s: bytes)
    requires FormsOf(values, forms) && [] !in forms && v in values && Safe(v)
    ensures !Occurs(v, Cleaned(forms, s)) && !Occurs(EscapedForm(v), Cleaned(forms, s))
    ensures |Cleaned(forms, s)| <= MAX_EXTERNAL_ERROR && Valid(Cleaned(forms, s))
  {
    hide EscapedForm, Replace, Truncated, Contains, Valid;
    var out := Replace(forms, s);
    TruncatedIs(out, MAX_EXTERNAL_ERROR);
    var r := Truncated(out, MAX_EXTERNAL_ERROR);
    assert out == r + out[|r|..];
    EscapedIsSafe(v);
    forall f | f in {v, EscapedForm(v)} ensures !Occurs(f, r) {
      ContainsIffOccurs(MARK, f);
      GoneAfterAll(f, s, forms);
      if Occurs(f, r) { OccursBefore(f, r, out[|r|..]); }
    }
  }

  /* Standard error, line by line */

  function Cleaner(forms: seq<bytes>): bytes -> bytes
    requires [] !in forms
  {
    s => Cleaned(forms, s)
  }

  /** Each write to the sink is the notice, or hides the value in both its forms. */
  lemma ForwardedHidesValues(values: seq<bytes>, forms: seq<bytes>, v: bytes, received: bytes, k: nat)
    requires FormsOf(values, forms) && [] !in forms && v in values && Safe(v)
    requires k < |Forwarded(Cleaner(forms), received)|
    ensures var sent := Forwarded(Cleaner(forms), received)[k];
            sent == Omitted() || (!Occurs(v, sent) && !Occurs(EscapedForm(v), sent))
  {
    hide EscapedForm, Cleaned, Occurs, Omitted, Safe, FormsOf;
    var lines := Lines(received);
    if k < |lines| && |lines[k]| <= MAX_LINE { CleanedHidesValues(values, forms, v, lines[k]); }
  }

  /** A newline before the last byte. */
  predicate SpansLines(f: bytes) { exists i :: 0 <= i < |f| - 1 && f[i] == NEWLINE }

  predicate OneLine(line: bytes) { !SpansLines(line) }

  lemma SpanningSpreads(f: bytes, s: bytes)
    requires SpansLines(f) && Occurs(f, s)
    ensures SpansLines(s)
  {
    var j :| 0 <= j < |f| - 1 && f[j] == NEWLINE;
    var i :| 0 <= i <= |s| && f <= s[i..];
    assert s[i..][j] == f[j] && s[i + j] == NEWLINE;
  }

  lemma SpanningNotInLine(f: bytes, line: bytes)
    requires SpansLines(f) && OneLine(line)
    ensures !Occurs(f, line)
  {
    if Occurs(f, line) { SpanningSpreads(f, line); }
    hide SpansLines, Occurs;
  }

  /** A line is replaced exactly when a form that fits on one line occurs in it; no other form has any effect. */
  lemma LineKeptIff(forms: seq<bytes>, line: bytes)
    requires AllSafe(forms) && OneLine(line)
    ensures Replace(forms, line) == line <==> forall f :: f in forms && !SpansLines(f) ==> !Occurs(f, line)
  {
    hide Safe, Replace, SpansLines, Occurs;
    ReplacedIsClean(forms, line);
    forall f | f in forms && SpansLines(f) ensures !Occurs(f, line) { SpanningNotInLine(f, line); }
  }

  lemma {:induction false} LinesAreLines(s: bytes)
    ensures forall line :: line in Lines(s) ==> OneLine(line)
    ensures NEWLINE !in Rest(s)
  {
    if s != [] { LinesAreLines(s[..|s| - 1]); }
  }

  lemma TruncationKeeps(s: bytes, limit: nat)
    requires |s| <= limit && Valid(s)
    ensures Truncated(s, limit) == s
  {
    assert s[..|s|] == s;
  }

  /** Values that span lines are forwarded as they came, if nothing else is to be replaced or cut. */
  lemma SpanningFormsPass(forms: seq<bytes>, received: bytes)
    requires [] !in forms && |Rest(received)| <= MAX_LINE
    requires forall line :: line in Lines(received) ==> |line| <= MAX_EXTERNAL_ERROR && Valid(line)
    requires forall f, line :: f in forms && line in Lines(received) ==> SpansLines(f) || !Occurs(f, line)
    ensures Concat(Forwarded(Cleaner(forms), received)) + Rest(received) == received
  {
    hide Lines, Rest, Occurs, SpansLines, Replace, Truncated, Valid, Omitted, Concat;
    var lines := Lines(received);
    LinesAreLines(received);
    forall i | 0 <= i < |lines| ensures Shown(Cleaner(forms), lines[i]) == lines[i] {
      var line := lines[i];
      assert line in lines;
      forall f | f in forms ensures !Occurs(f, line) {
        if SpansLines(f) { SpanningNotInLine(f, line); }
      }
      InsensitiveUnchanged(forms, line);
      TruncationKeeps(line, MAX_EXTERNAL_ERROR);
    }
    assert AllShown(Cleaner(forms), lines) == lines;
    assert Forwarded(Cleaner(forms), received) == lines + [] == lines;
    LinesPartition(received);
  }

  lemma TwoLineForms()
    ensures var v: bytes := [0x61, NEWLINE, 0x62];
            && v != [] && SpansLines(v) && EscapedForm(v) == [0x61, BACKSLASH, 0x6E, 0x62]
  {
    var v: bytes := [0x61, NEWLINE, 0x62];
    assert v[1] == NEWLINE;
    assert v[1..] == [NEWLINE, 0x62] && v[1..][1..] == [0x62] && v[1..][1..][1..] == [];
    assert Escape([0x62]) == [0x62] + Escape([]);
    assert Escape(v[1..]) == [BACKSLASH, 0x6E] + Escape(v[1..][1..]);
    assert Escape(v) == [0x61] + Escape(v[1..]) == [0x61, BACKSLASH, 0x6E, 0x62];
    TrimsToItself([0x61, BACKSLASH, 0x6E, 0x62]);
  }

  lemma TwoLines(s: bytes)
    requires s == [0x61, NEWLINE, 0x62, NEWLINE]
    ensures Lines(s) == [[0x61, NEWLINE], [0x62, NEWLINE]] && Rest(s) == []
  {
    var a: bytes, b: bytes := [0x61, NEWLINE], [0x62, NEWLINE];
    LineEnds([], a);
    LineEnds(a, b);
    assert [] + a == a && [] + b == b && a + b == s;
    assert Lines([]) == [] && Rest([]) == [];
    assert [a] + [b] == [a, b];
  }

  /** Such a value: two lines of one letter each. */
  lemma TwoLineValuePasses(forms: seq<bytes>)
    requires FormsOf([[0x61, NEWLINE, 0x62]], forms) && [] !in forms
    ensures Concat(Forwarded(Cleaner(forms), [0x61, NEWLINE, 0x62, NEWLINE])) == [0x61, NEWLINE, 0x62, NEWLINE]
  {
    hide Occurs, SpansLines, Replace, Truncated, Omitted, Concat, EscapedForm, Cleaned, Lines, Rest;
    var v: bytes := [0x61, NEWLINE, 0x62];
    var s: bytes := [0x61, NEWLINE, 0x62, NEWLINE];
    TwoLineForms();
    TwoLines(s);
    AsciiValid([0x61, NEWLINE]);
    AsciiValid([0x62, NEWLINE]);
    forall f, line | f in forms && line in Lines(s) ensures SpansLines(f) || !Occurs(f, line) {
      if Occurs(f, line) { ShorterHoldsNothing(f, line); }
    }
    hide Valid;
    SpanningFormsPass(forms, s);
    assert Concat(Forwarded(Cleaner(forms), s)) + [] == Concat(Forwarded(Cleaner(forms), s));
  }
}
