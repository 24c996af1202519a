/** Decimal integers as `strconv` and `fmt` print and parse them. */
module Decimal {
  import opened Prelude

  const MAX_INT32: int := 0x7FFF_FFFF
  const MAX_INT64: int := 0x7FFF_FFFF_FFFF_FFFF

  function Digit(d: nat): (c: char)
    requires d < 10
  {
    '0' + d as char
  }

  predicate IsDigit(c: char) { '0' <= c <= '9' }

  /** The canonical decimal form, as `%d` prints a non-negative integer. */
  function Dec(n: nat): string {
    if n < 10 then [Digit(n)] else Dec(n / 10) + [Digit(n % 10)]
  }

  /** The value of a non-empty digit string; leading zeros are accepted. */
  function ParseNat(s: string): Option<nat> {
    if s == [] || !IsDigit(s[|s| - 1]) then None
    else
      var d := (s[|s| - 1] - '0') as nat;
      if |s| == 1 then Some(d)
      else match ParseNat(s[..|s| - 1])
        case None => None
        case Some(v) => Some(10 * v + d)
  }

  /** `strconv.ParseInt(s, 10, 32)`: an optional sign, digits, and a range check. */
  function ParseInt32(s: string): Option<int> {
    if s == [] then None
    else
      var negative := s[0] == '-';
      var digits := if s[0] == '-' || s[0] == '+' then s[1..] else s;
      match ParseNat(digits)
      case None => None
      case Some(v) =>
        var signed: int := if negative then -(v as int) else v;
        if -MAX_INT32 - 1 <= signed <= MAX_INT32 then Some(signed) else None
  }

  lemma {:induction false} DecDigits(n: nat)
    ensures |Dec(n)| > 0
    ensures forall i :: 0 <= i < |Dec(n)| ==> IsDigit(Dec(n)[i])
  {
    if n >= 10 { DecDigits(n / 10); }
  }

  /** Parsing inverts printing. */
  lemma {:induction false} ParseDec(n: nat)
    ensures ParseNat(Dec(n)) == Some(n)
  {
    if n >= 10 {
      ParseDec(n / 10);
      DecDigits(n / 10);
      var s := Dec(n);
      assert s[..|s| - 1] == Dec(n / 10);
      assert s[|s| - 1] == Digit(n % 10);
    }
  }

  lemma DecInjective(m: nat, n: nat)
    requires Dec(m) == Dec(n)
    ensures m == n
  {
    ParseDec(m);
    ParseDec(n);
  }

  lemma ParseInt32Dec(n: nat)
    requires n <= MAX_INT32
    ensures ParseInt32(Dec(n)) == Some(n)
  {
    ParseDec(n);
    DecDigits(n);
    assert IsDigit(Dec(n)[0]);
  }

  lemma NoDashAfter(a: string, n: nat, i: nat)
    requires |a| < i < |a + "-" + Dec(n)|
    ensures (a + "-" + Dec(n))[i] != '-'
  {
    DecDigits(n);
    assert (a + "-" + Dec(n))[i] == Dec(n)[i - |a| - 1];
  }

  /** Digits that follow a '-' can be read back whatever stands before it. */
  lemma DashDecInjective(a: string, m: nat, b: string, n: nat)
    requires a + "-" + Dec(m) == b + "-" + Dec(n)
    ensures a == b && m == n
  {
    var s := a + "-" + Dec(m);
    var t := b + "-" + Dec(n);
    assert s[|a|] == '-' && t[|b|] == '-';
    if |a| < |b| {
      NoDashAfter(a, m, |b|);
      assert false;
    } else if |b| < |a| {
      NoDashAfter(b, n, |a|);
      assert false;
    }
    assert a == s[..|a|] == t[..|b|] == b;
    assert Dec(m) == s[|a| + 1..] == t[|b| + 1..] == Dec(n);
    DecInjective(m, n);
  }

  function Pow10(k: nat): nat { if k == 0 then 1 else 10 * Pow10(k - 1) }

  lemma {:induction false} DecLength(n: nat, k: nat)
    requires 0 < k && n < Pow10(k)
    ensures |Dec(n)| <= k
  {
    if n >= 10 {
      assert Pow10(1) == 10;
      DecLength(n / 10, k - 1);
    }
  }

  lemma DecLength64(n: nat)
    requires n <= MAX_INT64
    ensures |Dec(n)| <= 19
  {
    assert Pow10(4) == 10_000;
    assert Pow10(8) == 100_000_000;
    assert Pow10(12) == 1_000_000_000_000;
    assert Pow10(16) == 10_000_000_000_000_000;
    assert Pow10(19) == 10_000_000_000_000_000_000;
    DecLength(n, 19);
  }
}
