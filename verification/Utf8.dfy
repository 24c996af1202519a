/** Well-formed UTF-8 as section 4 of RFC 3629 defines it. */
module Utf8 {
  import opened Prelude
  import opened Bytes

  predicate Tail(b: byte) { 0x80 <= b <= 0xBF }

  /** Length of the well-formed character at the start of `s`, or 0. */
  function RuneLen(s: bytes): (n: nat)
    ensures n <= 4 && n <= |s|
  {
    if |s| >= 1 && s[0] <= 0x7F then 1
    else if |s| >= 2 && 0xC2 <= s[0] <= 0xDF && Tail(s[1]) then 2
    else if |s| >= 3 && SecondOfThree(s[0], s[1]) && Tail(s[2]) then 3
    else if |s| >= 4 && SecondOfFour(s[0], s[1]) && Tail(s[2]) && Tail(s[3]) then 4
    else 0
  }

  predicate SecondOfThree(a: byte, b: byte) {
    || (a == 0xE0 && 0xA0 <= b <= 0xBF)
    || (0xE1 <= a <= 0xEC && Tail(b))
    || (a == 0xED && 0x80 <= b <= 0x9F)
    || (0xEE <= a <= 0xEF && Tail(b))
  }

  predicate SecondOfFour(a: byte, b: byte) {
    || (a == 0xF0 && 0x90 <= b <= 0xBF)
    || (0xF1 <= a <= 0xF3 && Tail(b))
    || (a == 0xF4 && 0x80 <= b <= 0x8F)
  }

  predicate Valid(s: bytes) {
    s == [] || (RuneLen(s) > 0 && Valid(s[RuneLen(s)..]))
  }

  /** A character is recognised by its own bytes alone. */
  lemma RuneLenPrefix(a: bytes, b: bytes)
    requires RuneLen(a) > 0
    ensures RuneLen(a + b) == RuneLen(a) && (a + b)[..RuneLen(a)] == a[..RuneLen(a)]
    ensures (a + b)[RuneLen(a)..] == a[RuneLen(a)..] + b
  {
  }

  /** After a valid text, validity depends on the rest alone. */
  lemma {:induction false} ValidConcat(a: bytes, b: bytes)
    requires Valid(a)
    ensures Valid(a + b) <==> Valid(b)
  {
    if a == [] {
      assert a + b == b;
    } else {
      RuneLenPrefix(a, b);
      ValidConcat(a[RuneLen(a)..], b);
    }
  }

  lemma {:induction false} AsciiValid(s: bytes)
    requires forall i :: 0 <= i < |s| ==> s[i] <= 0x7F
    ensures Valid(s)
  {
    if s != [] { AsciiValid(s[1..]); }
  }

  /* The longest valid prefix within a byte limit */

  ghost predicate IsTruncation(value: bytes, limit: int, r: bytes) {
    && r <= value && |r| <= Max(0, limit) && Valid(r)
    && forall q :: q <= value && |q| <= limit && Valid(q) ==> |q| <= |r|
  }

  lemma TruncationUnique(value: bytes, limit: int, r: bytes, q: bytes)
    requires IsTruncation(value, limit, r) && IsTruncation(value, limit, q)
    ensures r == q
  {
    assert r == value[..|r|] && q == value[..|q|];
  }

  method TruncateUTF8(value: bytes, maxBytes: int) returns (r: bytes)
    ensures IsTruncation(value, maxBytes, r)
  {
    if maxBytes <= 0 {
      return [];
    }
    if |value| <= maxBytes && Valid(value) {
      return value;
    }
    var end := |value|;
    if end > maxBytes {
      end := maxBytes;
    }
    while end > 0 && !Valid(value[..end])
      invariant 0 <= end <= |value| && end <= maxBytes
      invariant forall q :: q <= value && |q| <= maxBytes && Valid(q) ==> |q| <= end
    {
      forall q | q <= value && |q| <= maxBytes && Valid(q) ensures |q| <= end - 1 {
        assert q == value[..|q|];
      }
      end := end - 1;
    }
    r := value[..end];
  }
}
