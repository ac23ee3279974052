/** Positional notation: big-endian digits without leading zeros. */
module Radix {

  type Digits = seq<nat>

  predicate InBase(b: nat, ds: Digits) {
    forall i | 0 <= i < |ds| :: ds[i] < b
  }

  function Value(b: nat, ds: Digits): nat {
    if ds == [] then 0 else Value(b, ds[..|ds| - 1]) * b + ds[|ds| - 1]
  }

  /** The shortest notation of n; the empty one for zero. */
  function Notation(b: nat, n: nat): (ds: Digits)
    requires b >= 2
    ensures InBase(b, ds)
    decreases n
  {
    if n == 0 then []
    else
      Smaller(b, n);
      Notation(b, n / b) + [n % b]
  }

  predicate Normal(ds: Digits) {
    ds == [] || ds[0] != 0
  }

  function Power(b: nat, k: nat): nat {
    if k == 0 then 1 else b * Power(b, k - 1)
  }

  lemma Smaller(b: nat, n: nat)
    requires b >= 2 && n > 0
    ensures n / b < n
  {
    assert n == b * (n / b) + n % b;
  }

  lemma DivIdentity(b: nat, n: nat)
    requires b > 0
    ensures n / b * b + n % b == n && n % b < b
  {
  }

  lemma DivMod(b: nat, q: nat, r: nat)
    requires b > 0 && r < b
    ensures (q * b + r) / b == q && (q * b + r) % b == r
  {
    var n := q * b + r;
    assert n == b * (n / b) + n % b;
    if n / b > q { MulAtLeast(b, n / b, q + 1); }
    if n / b < q { MulAtLeast(b, q, n / b + 1); }
  }

  lemma MulAtLeast(b: nat, x: nat, y: nat)
    requires x >= y
    ensures b * x >= b * y
  {
  }

  lemma LastDigit(b: nat, n: nat)
    requires b >= 2
    ensures n > 0 ==> n / b < n && n % b < b && Notation(b, n) == Notation(b, n / b) + [n % b]
    ensures n == 0 ==> Notation(b, n) == []
  {
    if n > 0 { Smaller(b, n); }
  }

  /** Notation undoes Value up to leading zeros, and Value undoes Notation. */
  lemma {:induction false} ValueOfNotation(b: nat, n: nat)
    requires b >= 2
    ensures Value(b, Notation(b, n)) == n && Normal(Notation(b, n))
    decreases n
  {
    if n > 0 {
      Smaller(b, n);
      ValueOfNotation(b, n / b);
      var ds := Notation(b, n);
      assert ds[..|ds| - 1] == Notation(b, n / b);
      DivIdentity(b, n);
      if n / b == 0 { assert ds == [n % b]; }
    }
  }

  lemma {:induction false} PositiveValue(b: nat, ds: Digits)
    requires b >= 2 && InBase(b, ds) && ds != [] && ds[0] != 0
    ensures Value(b, ds) > 0
  {
    if |ds| > 1 {
      PositiveValue(b, ds[..|ds| - 1]);
      assert Value(b, ds[..|ds| - 1]) * b > 0;
    }
  }

  lemma {:induction false} NotationOfValue(b: nat, ds: Digits)
    requires b >= 2 && InBase(b, ds) && Normal(ds)
    ensures Notation(b, Value(b, ds)) == ds
    decreases |ds|
  {
    if ds != [] {
      var init := ds[..|ds| - 1];
      PositiveValue(b, ds);
      NotationOfValue(b, init);
      DivMod(b, Value(b, init), ds[|ds| - 1]);
      assert ds == init + [ds[|ds| - 1]];
    }
  }

  function Zeros(k: nat): Digits {
    seq(k, _ => 0)
  }

  lemma {:induction false} LeadingZeros(b: nat, k: nat, ds: Digits)
    ensures Value(b, Zeros(k) + ds) == Value(b, ds)
    decreases |ds|
  {
    var all := Zeros(k) + ds;
    if ds == [] {
      ZerosAreZero(b, k);
      assert all == Zeros(k);
    } else {
      LeadingZeros(b, k, ds[..|ds| - 1]);
      assert all[..|all| - 1] == Zeros(k) + ds[..|ds| - 1];
    }
  }

  lemma {:induction false} ZerosAreZero(b: nat, k: nat)
    ensures Value(b, Zeros(k)) == 0
  {
    if k > 0 {
      ZerosAreZero(b, k - 1);
      assert Zeros(k)[..k - 1] == Zeros(k - 1);
    }
  }

  function LeadingZeroCount(ds: Digits): (k: nat)
    ensures k <= |ds|
  {
    if ds == [] || ds[0] != 0 then 0 else 1 + LeadingZeroCount(ds[1..])
  }

  lemma {:induction false} LeadingZeroSplit(ds: Digits)
    ensures var k := LeadingZeroCount(ds); ds == Zeros(k) + ds[k..] && Normal(ds[k..])
  {
    if ds != [] && ds[0] == 0 {
      var tail := ds[1..];
      LeadingZeroSplit(tail);
      var k := LeadingZeroCount(tail);
      assert tail[k..] == ds[k + 1..];
      assert Zeros(k + 1) == [0] + Zeros(k);
      assert ds == [0] + tail == [0] + (Zeros(k) + tail[k..]) == ([0] + Zeros(k)) + tail[k..];
    }
  }

  lemma {:induction false} LeadingZeroCountUnique(k: nat, ds: Digits)
    requires Normal(ds)
    ensures LeadingZeroCount(Zeros(k) + ds) == k
  {
    var all := Zeros(k) + ds;
    if k == 0 {
      assert all == ds;
    } else {
      LeadingZeroCountUnique(k - 1, ds);
      assert all[1..] == Zeros(k - 1) + ds;
    }
  }

  // ---- Length and leading digits -----------------------------------------------------

  lemma {:induction false} PowerAdds(b: nat, j: nat, k: nat)
    ensures Power(b, j + k) == Power(b, j) * Power(b, k)
  {
    if j > 0 { PowerAdds(b, j - 1, k); MulAssociates(b, Power(b, j - 1), Power(b, k)); }
  }

  lemma MulAssociates(x: nat, y: nat, z: nat)
    ensures x * (y * z) == (x * y) * z
  {
  }

  lemma {:induction false} PowerPositive(b: nat, k: nat)
    requires b > 0
    ensures Power(b, k) > 0
  {
    if k > 0 { PowerPositive(b, k - 1); }
  }

  /** A number with leading part q > 0 over k more digits starts with q's digits. */
  lemma {:induction false} LeadingDigits(b: nat, q: nat, r: nat, k: nat)
    requires b >= 2 && q > 0 && r < Power(b, k)
    ensures var ds := Notation(b, q * Power(b, k) + r);
            |ds| == |Notation(b, q)| + k && ds[..|Notation(b, q)|] == Notation(b, q)
    decreases k
  {
    var n := q * Power(b, k) + r;
    if k == 0 {
      assert n == q;
      assert Notation(b, n)[..|Notation(b, q)|] == Notation(b, q);
    } else {
      var r' := r / b;
      assert r == r' * b + r % b;
      assert r' < Power(b, k - 1) by {
        if r' >= Power(b, k - 1) { MulAtLeast(b, r', Power(b, k - 1)); }
      }
      LeadingDigits(b, q, r', k - 1);
      var m := q * Power(b, k - 1) + r';
      Regroup(b, q, Power(b, k - 1), r', r % b);
      DivMod(b, m, r % b);
      PowerPositive(b, k);
      assert q * Power(b, k) > 0;
      assert Notation(b, n) == Notation(b, m) + [n % b];
      var t := |Notation(b, q)|;
      assert Notation(b, n)[..t] == Notation(b, m)[..t];
    }
  }

  lemma Regroup(b: nat, q: nat, p: nat, r: nat, d: nat)
    ensures q * (b * p) + (r * b + d) == (q * p + r) * b + d
  {
    assert q * (b * p) == (q * p) * b;
    assert (q * p + r) * b == (q * p) * b + r * b;
  }

  lemma {:induction false} ValueBound(b: nat, ds: Digits)
    requires b >= 1 && InBase(b, ds)
    ensures Value(b, ds) < Power(b, |ds|)
  {
    if ds != [] {
      ValueBound(b, ds[..|ds| - 1]);
      BoundStep(b, Value(b, ds[..|ds| - 1]), Power(b, |ds| - 1), ds[|ds| - 1]);
    }
  }

  lemma BoundStep(b: nat, v: nat, p: nat, d: nat)
    requires v < p && d < b
    ensures v * b + d < b * p
  {
    MulAtLeast(b, p, v + 1);
  }

  lemma {:induction false} ValueOfConcat(b: nat, xs: Digits, ys: Digits)
    ensures Value(b, xs + ys) == Value(b, xs) * Power(b, |ys|) + Value(b, ys)
    decreases |ys|
  {
    if ys == [] {
      assert xs + ys == xs;
    } else {
      var init := ys[..|ys| - 1];
      ValueOfConcat(b, xs, init);
      assert (xs + ys)[..|xs + ys| - 1] == xs + init;
      Regroup(b, Value(b, xs), Power(b, |ys| - 1), Value(b, init), ys[|ys| - 1]);
    }
  }
}
