/** Numbers written out most significant digit first, in any base. */
module Digits {

  /** Every digit is below the base. */
  predicate InBase(ds: seq<nat>, base: nat) {
    forall i :: 0 <= i < |ds| ==> ds[i] < base
  }

  function Value(ds: seq<nat>, base: nat): nat {
    if ds == [] then 0 else Value(ds[..|ds| - 1], base) * base + ds[|ds| - 1]
  }

  function Pow(base: nat, k: nat): nat {
    if k == 0 then 1 else Pow(base, k - 1) * base
  }

  /** The last k digits of n. */
  function Digits(n: nat, base: nat, k: nat): (ds: seq<nat>)
    requires base > 0
    ensures |ds| == k && InBase(ds, base)
    decreases k, n
  {
    if k == 0 then [] else Digits(Quotient(n, base), base, k - 1) + [Remainder(n, base)]
  }

  function Quotient(n: nat, base: nat): (q: nat)
    requires base > 0
  {
    n / base
  }

  function Remainder(n: nat, base: nat): (r: nat)
    requires base > 0
    ensures r < base
  {
    n % base
  }

  lemma Division(n: nat, base: nat)
    requires base > 0
    ensures n == Quotient(n, base) * base + Remainder(n, base)
  {
  }

  lemma ValueSnoc(ds: seq<nat>, d: nat, base: nat)
    ensures Value(ds + [d], base) == Value(ds, base) * base + d
  {
    assert (ds + [d])[..|ds|] == ds;
  }

  lemma DivMod(q: nat, b: nat, r: nat)
    requires r < b
    ensures Quotient(q * b + r, b) == q && Remainder(q * b + r, b) == r
  {
    RemainderIs(q * b + r, q, b, r);
  }

  lemma MulGrows(k: nat, b: nat)
    requires k >= 1
    ensures k * b >= b
  {
  }

  /** Writing a value out gives the digits back. */
  lemma {:induction false} DigitsOfValue(ds: seq<nat>, base: nat)
    requires base > 0 && InBase(ds, base)
    ensures Digits(Value(ds, base), base, |ds|) == ds
  {
    if ds != [] {
      var front, d := ds[..|ds| - 1], ds[|ds| - 1];
      DigitsOfValue(front, base);
      DivMod(Value(front, base), base, d);
      assert ds == front + [d];
    }
  }

  lemma DigitsAre(ds: seq<nat>, n: nat, base: nat, k: nat)
    requires base > 0 && InBase(ds, base) && Value(ds, base) == n && k == |ds|
    ensures Digits(n, base, k) == ds
  {
    DigitsOfValue(ds, base);
  }

  lemma {:induction false} ValueBound(ds: seq<nat>, base: nat)
    requires base > 0 && InBase(ds, base)
    ensures Value(ds, base) < Pow(base, |ds|)
  {
    if ds != [] {
      ValueBound(ds[..|ds| - 1], base);
      BelowNext(Value(ds[..|ds| - 1], base), Pow(base, |ds| - 1), base, ds[|ds| - 1]);
    }
  }

  lemma BelowNext(v: nat, p: nat, base: nat, d: nat)
    requires v < p && d < base
    ensures v * base + d < p * base
  {
    MulMonotone(v + 1, p, base);
    assert (v + 1) * base == v * base + base;
  }

  lemma MulMonotone(a: nat, b: nat, c: nat)
    requires a <= b
    ensures a * c <= b * c
  {
    assert b * c == a * c + (b - a) * c;
  }

  lemma QuotientBelow(n: nat, base: nat, p: nat)
    requires base > 0 && n < p * base
    ensures Quotient(n, base) < p
  {
    Division(n, base);
    if Quotient(n, base) >= p {
      MulMonotone(p, Quotient(n, base), base);
    }
  }

  /** Enough digits spell the number exactly. */
  lemma {:induction false} ValueOfDigits(n: nat, base: nat, k: nat)
    requires base > 0 && n < Pow(base, k)
    ensures Value(Digits(n, base, k), base) == n
    decreases k, n
  {
    if k > 0 {
      QuotientBelow(n, base, Pow(base, k - 1));
      ValueOfDigits(Quotient(n, base), base, k - 1);
      LastDigit(n, base, k);
    }
  }

  lemma LastDigit(n: nat, base: nat, k: nat)
    requires base > 0 && k > 0
    requires Value(Digits(Quotient(n, base), base, k - 1), base) == Quotient(n, base)
    ensures Value(Digits(n, base, k), base) == n
  {
    Division(n, base);
    ValueSnoc(Digits(Quotient(n, base), base, k - 1), Remainder(n, base), base);
  }

  lemma {:induction false} DigitsInjective(m: nat, n: nat, base: nat, k: nat)
    requires base > 0 && m < Pow(base, k) && n < Pow(base, k)
    requires Digits(m, base, k) == Digits(n, base, k)
    ensures m == n
  {
    ValueOfDigits(m, base, k);
    ValueOfDigits(n, base, k);
  }

  /** A remainder is known by any quotient that leaves it. */
  lemma RemainderIs(x: int, q: int, b: int, r: int)
    requires 0 <= r < b && x == q * b + r
    ensures x / b == q && x % b == r
  {
    var d := q - x / b;
    assert x == (x / b) * b + x % b;
    assert d * b == q * b - (x / b) * b;
    if d >= 1 {
      MulMonotoneInt(1, d, b);
    } else if d <= -1 {
      MulMonotoneInt(d, -1, b);
    }
  }

  lemma MulMonotoneInt(a: int, b: int, c: int)
    requires a <= b && c >= 0
    ensures a * c <= b * c
  {
  }

  lemma MulAssoc(a: int, b: int, c: int)
    ensures (a * b) * c == a * (b * c)
  {
  }

  lemma MulDist(a: int, b: int, c: int)
    ensures (a + b) * c == a * c + b * c
  {
  }
}
