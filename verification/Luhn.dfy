/** The check digit on a pairing key: internal/auth/luhn.go.

    The doubled positions are those with the parity of the payload's length, so the
    last payload digit is not one of them. */
module Luhn {

  predicate IsDigit(c: char) {
    '0' <= c <= '9'
  }

  predicate AllDigits(s: string) {
    forall i :: 0 <= i < |s| ==> IsDigit(s[i])
  }

  function Val(c: char): (v: nat)
    requires IsDigit(c)
    ensures v <= 9
  {
    c as int - '0' as int
  }

  /** What a digit adds to the sum: its value, or when doubled the digit sum of twice it. */
  function Weight(c: char, doubled: bool): (w: nat)
    requires IsDigit(c)
    ensures w <= 9
  {
    if !doubled then Val(c) else if 2 * Val(c) > 9 then 2 * Val(c) - 9 else 2 * Val(c)
  }

  predicate Doubled(i: nat, n: nat) {
    i % 2 == n % 2
  }

  /** The sum over the first k digits of a payload of length n. */
  function Sum(s: string, n: nat, k: nat): nat
    requires AllDigits(s) && k <= |s|
  {
    if k == 0 then 0 else Sum(s, n, k - 1) + Weight(s[k - 1], Doubled(k - 1, n))
  }

  /** A number of at least two digits whose payload sum and last digit make a multiple of ten. */
  ghost predicate Valid(s: string) {
    |s| >= 2 && AllDigits(s) && Total(s) % 10 == 0
  }

  function Total(s: string): nat
    requires |s| >= 1 && AllDigits(s)
  {
    Sum(s, |s| - 1, |s| - 1) + Val(s[|s| - 1])
  }

  lemma {:induction false} SumPrefix(s: string, t: string, n: nat, k: nat)
    requires AllDigits(s) && AllDigits(t) && k <= |s| && k <= |t| && s[..k] == t[..k]
    ensures Sum(s, n, k) == Sum(t, n, k)
  {
    if k > 0 {
      assert s[..k][k - 1] == t[..k][k - 1];
      assert s[..k - 1] == s[..k][..k - 1] == t[..k - 1];
      SumPrefix(s, t, n, k - 1);
    }
  }

  lemma MakesTen(sum: nat, check: nat)
    requires check == (10 - sum % 10) % 10
    ensures check <= 9 && (sum + check) % 10 == 0
  {
  }

  /** The digit that brings the payload's sum to a multiple of ten. */
  method CheckDigit(digits: string) returns (c: char)
    requires AllDigits(digits)
    ensures IsDigit(c) && (Sum(digits, |digits|, |digits|) + Val(c)) % 10 == 0
  {
    var sum := 0;
    var parity := |digits| % 2;
    for i := 0 to |digits|
      invariant sum == Sum(digits, |digits|, i)
    {
      var d := Val(digits[i]);
      if i % 2 == parity {
        d := d * 2;
        if d > 9 {
          d := d - 9;
        }
      }
      sum := sum + d;
    }
    var check := (10 - sum % 10) % 10;
    MakesTen(sum, check);
    c := ('0' as int + check) as char;
  }

  method IsValid(digits: string) returns (ok: bool)
    ensures ok <==> Valid(digits)
  {
    if |digits| < 2 {
      return false;
    }
    for i := 0 to |digits|
      invariant forall j :: 0 <= j < i ==> IsDigit(digits[j])
    {
      if digits[i] < '0' || digits[i] > '9' {
        return false;
      }
    }
    var payload := digits[..|digits| - 1];
    var expected := CheckDigit(payload);
    SumPrefix(payload, digits, |payload|, |payload|);
    ok := digits[|digits| - 1] == expected;
  }

  lemma AppendedTotal(payload: string, c: char, s: string)
    requires |payload| >= 1 && AllDigits(payload) && IsDigit(c) && s == payload + [c]
    ensures AllDigits(s) && Total(s) == Sum(payload, |payload|, |payload|) + Val(c)
  {
    AllDigitsAppend(payload, c, s);
    SumPrefix(payload, s, |payload|, |payload|);
  }

  /** A digit appended to any payload makes a valid number exactly when it is the check digit. */
  lemma CheckDigitDecides(payload: string, c: char, s: string)
    requires |payload| >= 1 && AllDigits(payload) && IsDigit(c) && s == payload + [c]
    ensures Valid(s) <==> (Sum(payload, |payload|, |payload|) + Val(c)) % 10 == 0
  {
    AppendedTotal(payload, c, s);
  }

  /** And once one digit does, no other one does. */
  lemma CheckDigitUnique(payload: string, c: char, s: string, e: char, t: string)
    requires |payload| >= 1 && AllDigits(payload) && IsDigit(c) && IsDigit(e)
    requires s == payload + [c] && t == payload + [e] && Valid(s)
    ensures Valid(t) <==> e == c
  {
    AppendedTotal(payload, c, s);
    AppendedTotal(payload, e, t);
    OneOfTen(Sum(payload, |payload|, |payload|), Val(c), Val(e));
  }

  lemma OneOfTen(sum: nat, a: nat, b: nat)
    requires a <= 9 && b <= 9 && (sum + a) % 10 == 0
    ensures (sum + b) % 10 == 0 <==> a == b
  {
  }

  lemma AllDigitsAppend(payload: string, c: char, s: string)
    requires AllDigits(payload) && IsDigit(c) && s == payload + [c]
    ensures AllDigits(s) && |s| == |payload| + 1 && s[|payload|] == c
    ensures s[..|payload|] == payload[..|payload|]
  {
  }

  lemma {:induction false} SumChanged(s: string, i: nat, c: char, n: nat, k: nat)
    requires AllDigits(s) && i < |s| && IsDigit(c) && k <= |s|
    ensures Sum(s[i := c], n, k)
            == Sum(s, n, k) + if i < k then Weight(c, Doubled(i, n)) - Weight(s[i], Doubled(i, n)) else 0
  {
    if k > 0 {
      SumChanged(s, i, c, n, k - 1);
    }
  }

  lemma TotalChanged(s: string, i: nat, c: char)
    requires |s| >= 1 && AllDigits(s) && i < |s| && IsDigit(c)
    ensures var doubled := i < |s| - 1 && Doubled(i, |s| - 1);
      Total(s[i := c]) == Total(s) + Weight(c, doubled) - Weight(s[i], doubled)
  {
    SumChanged(s, i, c, |s| - 1, |s| - 1);
  }

  /** Different digits weigh differently, doubled or not, and never by a multiple of ten. */
  lemma WeightsDiffer(a: char, b: char, doubled: bool)
    requires IsDigit(a) && IsDigit(b) && a != b
    ensures (Weight(a, doubled) - Weight(b, doubled)) % 10 != 0
  {
    assert Val(a) != Val(b);
  }

  lemma Shift10(x: nat, y: nat, delta: int)
    requires x % 10 == 0 && y == x + delta
    ensures y % 10 == 0 <==> delta % 10 == 0
  {
  }

  /** Mistyping one digit, payload or check, is always caught. */
  lemma OneDigitCaught(s: string, i: nat, c: char)
    requires Valid(s) && i < |s| && IsDigit(c) && c != s[i]
    ensures !Valid(s[i := c])
  {
    var doubled := i < |s| - 1 && Doubled(i, |s| - 1);
    TotalChanged(s, i, c);
    WeightsDiffer(c, s[i], doubled);
    Shift10(Total(s), Total(s[i := c]), Weight(c, doubled) - Weight(s[i], doubled));
  }

  /** Two digits trading a doubled and an undoubled place. */
  lemma TradeWeights(a: char, b: char)
    requires IsDigit(a) && IsDigit(b)
    ensures (Weight(b, true) - Weight(a, true) + Weight(a, false) - Weight(b, false)) % 10 == 0
            <==> a == b || (a == '0' && b == '9') || (a == '9' && b == '0')
  {
    assert Val(a) == Val(b) <==> a == b;
  }

  lemma TotalSwapped(s: string, i: nat, doubled: bool)
    requires AllDigits(s) && i + 1 < |s| && doubled == (i + 1 < |s| - 1 && Doubled(i, |s| - 1))
    ensures var t := s[i := s[i + 1]][i + 1 := s[i]];
      Total(t) == Total(s) + if i + 2 == |s| then 0
        else if doubled then Weight(s[i + 1], true) - Weight(s[i], true) + Weight(s[i], false) - Weight(s[i + 1], false)
        else Weight(s[i + 1], false) - Weight(s[i], false) + Weight(s[i], true) - Weight(s[i + 1], true)
  {
    var n := |s| - 1;
    var u := s[i := s[i + 1]];
    TotalChanged(s, i, s[i + 1]);
    TotalChanged(u, i + 1, s[i]);
    assert Doubled(i, n) != Doubled(i + 1, n);
    assert i + 1 == n ==> !Doubled(i, n);
  }

  /** Swapping two neighbours is caught unless they are equal, or a 0 and a 9, or the
      last payload digit and the check digit: neither of those two is doubled. */
  lemma SwapCaught(s: string, i: nat)
    requires Valid(s) && i + 1 < |s|
    ensures Valid(s[i := s[i + 1]][i + 1 := s[i]]) <==>
      s[i] == s[i + 1] || (s[i] == '0' && s[i + 1] == '9') || (s[i] == '9' && s[i + 1] == '0') || i + 2 == |s|
  {
    var t := s[i := s[i + 1]][i + 1 := s[i]];
    var doubled := i + 1 < |s| - 1 && Doubled(i, |s| - 1);
    TotalSwapped(s, i, doubled);
    TradeWeights(s[i], s[i + 1]);
    TradeWeights(s[i + 1], s[i]);
    Shift10(Total(s), Total(t), Total(t) - Total(s));
  }
}
