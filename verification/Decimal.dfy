/**
 Unsigned decimal numerals in ASCII digits, as `Number.prototype.toString` prints integers and
 `[1-9]\d*` matches them.
 */
module Decimal {
  import opened Utf16

  const ZERO: Unit := 0x30

  function PrintNat(n: nat): Text {
    if n < 10 then [ZERO + n] else PrintNat(n / 10) + [ZERO + n % 10]
  }

  predicate IsDigit(u: Unit) { ZERO <= u <= 0x39 }

  function DigitValue(u: Unit): nat
    requires IsDigit(u)
  {
    var d: int := u;
    d - 0x30
  }

  function Digits(t: Text): (n: nat)
    ensures n <= |t|
    ensures forall i :: 0 <= i < n ==> IsDigit(t[i])
    ensures n < |t| ==> !IsDigit(t[n])
  {
    if t == [] || !IsDigit(t[0]) then 0 else 1 + Digits(t[1..])
  }

  function DigitsValue(t: Text): nat
    requires forall i :: 0 <= i < |t| ==> IsDigit(t[i])
  {
    if t == [] then 0 else DigitsValue(t[..|t| - 1]) * 10 + DigitValue(t[|t| - 1])
  }

  lemma {:induction false} PrintNatDigits(n: nat)
    ensures |PrintNat(n)| > 0
    ensures forall i :: 0 <= i < |PrintNat(n)| ==> IsDigit(PrintNat(n)[i])
    ensures DigitsValue(PrintNat(n)) == n
    ensures |PrintNat(n)| > 1 ==> PrintNat(n)[0] != ZERO
  {
    if n < 10 {
      assert PrintNat(n)[..0] == [];
    } else {
      PrintNatDigits(n / 10);
      assert PrintNat(n)[..|PrintNat(n)| - 1] == PrintNat(n / 10);
      if |PrintNat(n / 10)| == 1 {
        assert n / 10 == DigitsValue(PrintNat(n / 10)[..0]) * 10 + DigitValue(PrintNat(n / 10)[0]);
      }
    }
  }

  lemma {:induction false} DigitsOfPrefix(ds: Text, rest: Text)
    requires forall i :: 0 <= i < |ds| ==> IsDigit(ds[i])
    requires rest == [] || !IsDigit(rest[0])
    ensures Digits(ds + rest) == |ds|
  {
    if ds == [] {
      assert ds + rest == rest;
    } else {
      DigitsOfPrefix(ds[1..], rest);
      assert (ds + rest)[1..] == ds[1..] + rest;
    }
  }

  predicate AllDigits(t: Text) {
    forall i :: 0 <= i < |t| ==> IsDigit(t[i])
  }

  lemma LastDigit(t: Text)
    requires AllDigits(t) && t != []
    ensures AllDigits(t[..|t| - 1])
    ensures DigitsValue(t) / 10 == DigitsValue(t[..|t| - 1]) && DigitsValue(t) % 10 == DigitValue(t[|t| - 1])
  {
  }

  /** A numeral without leading zeros is what its value prints as. */
  lemma {:induction false} PrintOfDigitsValue(t: Text)
    requires AllDigits(t) && t != [] && (|t| > 1 ==> t[0] != ZERO)
    ensures PrintNat(DigitsValue(t)) == t
    ensures DigitsValue(t) == 0 <==> t == [ZERO]
  {
    var front := t[..|t| - 1];
    LastDigit(t);
    assert t == front + [t[|t| - 1]];
    if front == [] {
      assert DigitsValue(front) == 0;
    } else {
      assert front[0] == t[0];
      PrintOfDigitsValue(front);
    }
  }

  function Pow10(k: nat): nat {
    if k == 0 then 1 else 10 * Pow10(k - 1)
  }

  lemma {:induction false} PrintNatLength(n: nat, k: nat)
    requires k >= 1 && n < Pow10(k)
    ensures |PrintNat(n)| <= k
  {
    if n >= 10 {
      assert Pow10(k) == 10 * Pow10(k - 1);
      assert Pow10(1) == 10 * Pow10(0) == 10;
      PrintNatLength(n / 10, k - 1);
    }
  }
}
