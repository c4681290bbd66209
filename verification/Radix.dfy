/** Positional notation in any base, most significant digit first, and the change of
    base that keeps leading zeros: the arithmetic under Base58 and under decimal
    version numbers. */
module Radix {
  import opened ModArith

  ghost predicate Digits(ds: seq<nat>, base: nat)
  {
    forall i :: 0 <= i < |ds| ==> ds[i] < base
  }

  function FromDigits(ds: seq<nat>, base: nat): nat
  {
    if ds == [] then 0 else FromDigits(ds[..|ds| - 1], base) * base + ds[|ds| - 1]
  }

  /** The shortest notation; zero is the empty sequence. */
  function ToDigits(n: nat, base: nat): (ds: seq<nat>)
    requires base >= 2
    ensures Digits(ds, base)
    ensures ds != [] ==> ds[0] != 0
    ensures ds == [] <==> n == 0
  {
    if n == 0 then [] else
      DivSmaller(n, base);
      ToDigits(n / base, base) + [n % base]
  }

  lemma DivSmaller(n: nat, base: nat)
    requires n > 0 && base >= 2
    ensures 0 <= n / base < n
    ensures n / base == 0 ==> n % base != 0
  {
    var q := n / base;
    assert n == q * base + n % base;
    ScaleSign(-q, base);
    assert q >= n ==> q * base >= 2 * q;
  }

  function Zeros(k: nat): seq<nat>
  {
    seq(k, _ => 0)
  }

  function LeadingZeros(ds: seq<nat>): (k: nat)
    ensures k <= |ds|
    ensures forall i :: 0 <= i < k ==> ds[i] == 0
    ensures k < |ds| ==> ds[k] != 0
  {
    if ds != [] && ds[0] == 0 then 1 + LeadingZeros(ds[1..]) else 0
  }

  /** The same number in another base, with as many leading zeros as before. */
  function Rebase(ds: seq<nat>, from: nat, to: nat): seq<nat>
    requires to >= 2
  {
    Zeros(LeadingZeros(ds)) + ToDigits(FromDigits(ds, from), to)
  }

  lemma FromSnoc(ds: seq<nat>, d: nat, base: nat)
    ensures FromDigits(ds + [d], base) == FromDigits(ds, base) * base + d
  {
    assert (ds + [d])[..|ds|] == ds;
  }

  lemma {:induction false} FromToDigits(n: nat, base: nat)
    requires base >= 2
    ensures FromDigits(ToDigits(n, base), base) == n
  {
    if n != 0 {
      DivSmaller(n, base);
      var q, r := n / base, n % base;
      assert n == q * base + r;
      FromToDigits(q, base);
      FromSnoc(ToDigits(q, base), r, base);
      assert ToDigits(n, base) == ToDigits(q, base) + [r];
    }
  }

  lemma {:induction false} FromDigitsPositive(ds: seq<nat>, base: nat)
    requires base >= 2 && ds != [] && ds[0] != 0
    ensures FromDigits(ds, base) > 0
  {
    if |ds| > 1 {
      FromDigitsPositive(ds[..|ds| - 1], base);
    }
  }

  lemma {:induction false} ToFromDigits(ds: seq<nat>, base: nat)
    requires base >= 2 && Digits(ds, base)
    requires ds != [] ==> ds[0] != 0
    ensures ToDigits(FromDigits(ds, base), base) == ds
  {
    if ds != [] {
      var init, last := ds[..|ds| - 1], ds[|ds| - 1];
      ToFromDigits(init, base);
      FromDigitsPositive(ds, base);
      var n, q := FromDigits(ds, base), FromDigits(init, base);
      DivModUnique(n, q, last, base);
      assert ds == init + [last];
    }
  }

  lemma {:induction false} FromPaddedDigits(k: nat, ds: seq<nat>, base: nat)
    ensures FromDigits(Zeros(k) + ds, base) == FromDigits(ds, base)
  {
    var all := Zeros(k) + ds;
    if ds == [] {
      assert all == Zeros(k);
      if k != 0 {
        FromPaddedDigits(k - 1, [], base);
        assert all[..|all| - 1] == Zeros(k - 1) + [];
      }
    } else {
      assert all[..|all| - 1] == Zeros(k) + ds[..|ds| - 1];
      FromPaddedDigits(k, ds[..|ds| - 1], base);
    }
  }

  lemma {:induction false} LeadingZerosOfPadded(k: nat, ds: seq<nat>)
    requires ds != [] ==> ds[0] != 0
    ensures LeadingZeros(Zeros(k) + ds) == k
  {
    var all := Zeros(k) + ds;
    if k != 0 {
      assert all[1..] == Zeros(k - 1) + ds;
      LeadingZerosOfPadded(k - 1, ds);
    } else {
      assert all == ds;
    }
  }

  /** Changing base and back gives back every digit sequence, leading zeros included. */
  lemma {:induction false} RebaseRoundTrip(ds: seq<nat>, from: nat, to: nat)
    requires from >= 2 && to >= 2 && Digits(ds, from)
    ensures Digits(Rebase(ds, from, to), to)
    ensures Rebase(Rebase(ds, from, to), to, from) == ds
  {
    var k := LeadingZeros(ds);
    var rest := ds[k..];
    assert ds == Zeros(k) + rest;
    var n := FromDigits(ds, from);
    FromPaddedDigits(k, rest, from);
    ToFromDigits(rest, from);
    LeadingZerosOfPadded(k, ToDigits(n, to));
    FromPaddedDigits(k, ToDigits(n, to), to);
    FromToDigits(n, to);
  }

  /** The notation of n has k digits exactly when n lies between the two powers. */
  lemma {:induction false} DigitCount(n: nat, base: nat, k: nat)
    requires base >= 2
    ensures |ToDigits(n, base)| <= k <==> n < Pow(base, k)
  {
    PowPositive(base, k);
    if n != 0 && k != 0 {
      DivSmaller(n, base);
      DigitCount(n / base, base, k - 1);
      DivBelow(n, base, Pow(base, k - 1));
      PowStep(base, k);
    }
  }

  lemma DivBelow(n: nat, base: nat, m: nat)
    requires base > 0
    ensures n / base < m <==> n < m * base
  {
    assert n == (n / base) * base + n % base;
    ScaleLess(n / base, m, base, n % base);
  }

  lemma PowStep(base: nat, k: nat)
    requires k > 0
    ensures Pow(base, k) == Pow(base, k - 1) * base
  {
  }

  lemma {:induction false} FromDigitsBound(ds: seq<nat>, base: nat)
    requires base >= 2 && Digits(ds, base)
    ensures FromDigits(ds, base) < Pow(base, |ds|)
  {
    if ds != [] {
      var init := ds[..|ds| - 1];
      FromDigitsBound(init, base);
      ScaleLess(FromDigits(init, base), Pow(base, |init|), base, ds[|ds| - 1]);
    }
  }

  /** A leading digit d puts the value between d and d+1 times the power it stands for. */
  lemma {:induction false} FromDigitsLeading(ds: seq<nat>, base: nat)
    requires base >= 2 && ds != [] && Digits(ds, base)
    ensures var p := Pow(base, |ds| - 1);
            ds[0] * p <= FromDigits(ds, base) < (ds[0] + 1) * p
  {
    if |ds| == 1 {
      assert ds[..0] == [];
    } else {
      var init := ds[..|ds| - 1];
      FromDigitsLeading(init, base);
      var p := Pow(base, |init| - 1);
      PowStep(base, |init|);
      LeadingStep(ds[0], p, FromDigits(init, base), ds[|ds| - 1], base);
    }
  }

  lemma LeadingStep(d: nat, p: nat, v: nat, last: nat, base: nat)
    requires d * p <= v < (d + 1) * p && last < base
    ensures d * (p * base) <= v * base + last < (d + 1) * (p * base)
  {
    ScaleLess(v, (d + 1) * p, base, last);
    ScaleLess(v, d * p, base, last);
    assert (d * p) * base == d * (p * base);
    assert ((d + 1) * p) * base == (d + 1) * (p * base);
  }
}
