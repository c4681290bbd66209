/** Arithmetic modulo a prime, up to Fermat's little theorem.

    Congruence is stated through an explicit multiple, so that every step below is
    a rearrangement of products rather than a fact about `%`. */
module ModArith {

  function Pow(b: int, e: nat): int
  {
    if e == 0 then 1 else b * Pow(b, e - 1)
  }

  ghost predicate Multiple(n: int, p: int)
  {
    exists k: int :: n == k * p
  }

  ghost predicate Cong(a: int, b: int, p: int)
  {
    Multiple(a - b, p)
  }

  ghost predicate Prime(p: int)
  {
    2 <= p && forall d: int :: 2 <= d < p ==> !Multiple(p, d)
  }

  // ----- congruence -----

  lemma ModWitness(n: int, p: int) returns (q: int)
    requires p > 0
    ensures n == q * p + n % p && 0 <= n % p < p
  {
    q := n / p;
  }

  lemma SmallMultipleIsZero(k: int, p: int)
    requires p > 0 && -p < k * p < p
    ensures k == 0
  {
    assert k >= 1 ==> k * p >= p;
    assert k <= -1 ==> k * p <= -p;
  }

  /** The remainder is the only representative in [0, p). */
  lemma ModUnique(n: int, q: int, r: int, p: int)
    requires p > 0 && n == q * p + r && 0 <= r < p
    ensures n % p == r
  {
    var q' := ModWitness(n, p);
    assert (q' - q) * p == q' * p - q * p == r - n % p;
    SmallMultipleIsZero(q' - q, p);
  }

  lemma DivModUnique(n: int, q: int, r: int, p: int)
    requires p > 0 && n == q * p + r && 0 <= r < p
    ensures n / p == q && n % p == r
  {
    ModUnique(n, q, r, p);
    assert (n / p - q) * p == 0;
    SmallMultipleIsZero(n / p - q, p);
  }

  /** Appending a digit keeps the order of the numbers it is appended to. */
  lemma ScaleLess(q: int, m: int, p: int, r: int)
    requires 0 <= r < p
    ensures q < m <==> q * p + r < m * p
  {
    var d := m - q;
    assert m * p == q * p + d * p by { assert (q + d) * p == q * p + d * p; }
    ScaleSign(d, p);
  }

  lemma ScaleSign(d: int, p: int)
    requires p > 0
    ensures if d >= 1 then d * p >= p else d * p <= 0
  {
  }

  lemma CongMod(a: int, b: int, p: int)
    requires p > 0
    ensures Cong(a, b, p) <==> a % p == b % p
  {
    var qa := ModWitness(a, p);
    var qb := ModWitness(b, p);
    if Cong(a, b, p) {
      var k :| a - b == k * p;
      assert a == (qb + k) * p + b % p by { assert (qb + k) * p == qb * p + k * p; }
      ModUnique(a, qb + k, b % p, p);
    }
    if a % p == b % p {
      assert a - b == (qa - qb) * p by { assert (qa - qb) * p == qa * p - qb * p; }
    }
  }

  lemma CongSelfMod(a: int, p: int)
    requires p > 0
    ensures Cong(a, a % p, p) && Cong(a % p, a, p)
  {
    var q := ModWitness(a, p);
    assert a - a % p == q * p;
    assert a % p - a == (-q) * p by { assert (-q) * p == -(q * p); }
  }

  lemma CongTrans(a: int, b: int, c: int, p: int)
    requires Cong(a, b, p) && Cong(b, c, p)
    ensures Cong(a, c, p)
  {
    var k :| a - b == k * p;
    var l :| b - c == l * p;
    assert a - c == (k + l) * p by { assert (k + l) * p == k * p + l * p; }
  }

  lemma CongSym(a: int, b: int, p: int)
    requires Cong(a, b, p)
    ensures Cong(b, a, p)
  {
    var k :| a - b == k * p;
    assert b - a == (-k) * p by { assert (-k) * p == -(k * p); }
  }

  lemma CongMul(a: int, b: int, c: int, d: int, p: int)
    requires Cong(a, b, p) && Cong(c, d, p)
    ensures Cong(a * c, b * d, p)
  {
    var k :| a - b == k * p;
    var l :| c - d == l * p;
    var m := k * c + b * l;
    calc {
      a * c - b * d;
      (a - b) * c + b * (c - d);
      (k * p) * c + b * (l * p);
      (k * c) * p + (b * l) * p;
      m * p;
    }
  }

  lemma CongAdd(a: int, b: int, c: int, p: int)
    requires Cong(a, b, p)
    ensures Cong(a + c, b + c, p)
  {
    assert (a + c) - (b + c) == a - b;
  }

  lemma {:induction false} CongPow(a: int, b: int, e: nat, p: int)
    requires p > 0 && Cong(a, b, p)
    ensures Cong(Pow(a, e), Pow(b, e), p)
  {
    if e == 0 {
      assert 1 - 1 == 0 * p;
    } else {
      CongPow(a, b, e - 1, p);
      CongMul(a, b, Pow(a, e - 1), Pow(b, e - 1), p);
    }
  }

  // ----- powers -----

  lemma {:induction false} PowAdd(b: int, e: nat, f: nat)
    ensures Pow(b, e + f) == Pow(b, e) * Pow(b, f)
  {
    if e != 0 {
      PowAdd(b, e - 1, f);
      assert Pow(b, e + f) == b * (Pow(b, e - 1) * Pow(b, f));
    }
  }

  lemma {:induction false} PowMul(b: int, e: nat, f: nat)
    ensures e * f >= 0 && Pow(b, e * f) == Pow(Pow(b, e), f)
  {
    if f == 0 {
      assert e * f == 0;
    } else {
      PowMul(b, e, f - 1);
      assert e * f == e + e * (f - 1);
      PowAdd(b, e, e * (f - 1));
    }
  }

  lemma {:induction false} PowPositive(b: nat, e: nat)
    requires b > 0
    ensures Pow(b, e) > 0
  {
    if e != 0 {
      PowPositive(b, e - 1);
    }
  }

  // ----- Euclid's lemma -----

  lemma MultipleTimes(n: int, m: int, p: int)
    requires Multiple(n, p)
    ensures Multiple(m * n, p)
  {
    var k :| n == k * p;
    assert m * n == (m * k) * p;
  }

  /** A prime that divides a product and not the first factor divides the second:
      Euclid's algorithm on the first factor. */
  lemma {:induction false} EuclidBounded(p: int, a: int, b: int)
    requires Prime(p) && 0 < a < p && Multiple(a * b, p)
    ensures Multiple(b, p)
    decreases a
  {
    if a == 1 {
      assert a * b == b;
    } else {
      var q := ModWitness(p, a);
      var r := p % a;
      if r == 0 {
        assert Multiple(p, a);
        assert false;
      }
      var k :| a * b == k * p;
      ReducedProduct(p, a, b, q, r, k);
      EuclidBounded(p, r, b);
    }
  }

  lemma ReducedProduct(p: int, a: int, b: int, q: int, r: int, k: int)
    requires p == q * a + r && a * b == k * p
    ensures r * b == (b - q * k) * p
  {
    calc {
      r * b;
      (p - q * a) * b;
      p * b - q * (a * b);
      p * b - q * (k * p);
      (b - q * k) * p;
    }
  }

  lemma Euclid(p: int, a: int, b: int)
    requires Prime(p) && Multiple(a * b, p)
    ensures Multiple(a, p) || Multiple(b, p)
  {
    var r := a % p;
    var q := ModWitness(a, p);
    if r == 0 {
      assert a == q * p;
    } else {
      var k :| a * b == k * p;
      calc {
        r * b;
        (a - q * p) * b;
        a * b - q * p * b;
        k * p - (q * b) * p;
        (k - q * b) * p;
      }
      EuclidBounded(p, r, b);
    }
  }

  /** A factor coprime to p may be cancelled. */
  lemma CongCancel(a: int, b: int, c: int, p: int)
    requires Prime(p) && !Multiple(c, p) && Cong(c * a, c * b, p)
    ensures Cong(a, b, p)
  {
    assert c * (a - b) == c * a - c * b;
    Euclid(p, c, a - b);
  }

  lemma SmallIsNotMultiple(n: int, p: int)
    requires 0 < n < p
    ensures !Multiple(n, p)
  {
    if Multiple(n, p) {
      var k :| n == k * p;
      SmallMultipleIsZero(k, p);
    }
  }

  // ----- Fermat's little theorem -----

  function Product(s: seq<int>): int
  {
    if s == [] then 1 else s[0] * Product(s[1..])
  }

  /** The residues a*1, a*2, ..., a*n modulo p. */
  function Scaled(a: int, n: nat, p: int): (s: seq<int>)
    requires p > 0
    ensures |s| == n
    ensures forall i :: 0 <= i < n ==> s[i] == (a * (i + 1)) % p
  {
    seq(n, i => (a * (i + 1)) % p)
  }

  lemma {:induction false} ProductAppend(s: seq<int>, x: int)
    ensures Product(s + [x]) == Product(s) * x
  {
    if s == [] {
      assert s + [x] == [x];
    } else {
      assert (s + [x])[1..] == s[1..] + [x];
      ProductAppend(s[1..], x);
      assert s[0] * (Product(s[1..]) * x) == s[0] * Product(s[1..]) * x;
    }
  }

  lemma {:induction false} ProductSplit(s: seq<int>, i: nat)
    requires i < |s|
    ensures Product(s) == s[i] * Product(s[..i] + s[i + 1..])
  {
    var rest := s[..i] + s[i + 1..];
    if i == 0 {
      assert rest == s[1..];
    } else {
      ProductSplit(s[1..], i - 1);
      assert rest[0] == s[0];
      assert rest[1..] == s[1..][..i - 1] + s[1..][i..];
      assert s[0] * (s[i] * Product(rest[1..])) == s[i] * (s[0] * Product(rest[1..]));
    }
  }

  /** A product depends on the factors and not on their order. */
  lemma {:induction false} ProductOfPermutation(s: seq<int>, t: seq<int>)
    requires multiset(s) == multiset(t)
    ensures Product(s) == Product(t)
    decreases |s|
  {
    assert |multiset(s)| == |s| && |multiset(t)| == |t|;
    if s != [] {
      assert s[0] in multiset(t);
      var i :| 0 <= i < |t| && t[i] == s[0];
      var rest := t[..i] + t[i + 1..];
      assert t == t[..i] + [t[i]] + t[i + 1..];
      assert s == [s[0]] + s[1..];
      assert multiset(rest) == multiset(t) - multiset{s[0]};
      assert multiset(s[1..]) == multiset(s) - multiset{s[0]};
      ProductOfPermutation(s[1..], rest);
      ProductSplit(t, i);
    }
  }

  /** Distinct values taken from 1..n, n of them, are a rearrangement of 1..n. */
  lemma {:induction false} DistinctFillRange(s: seq<int>, n: nat)
    requires |s| == n
    requires forall i :: 0 <= i < n ==> 1 <= s[i] <= n
    requires forall i, j :: 0 <= i < j < n ==> s[i] != s[j]
    ensures multiset(s) == multiset(seq(n, i => i + 1))
  {
    var id := seq(n, i => i + 1);
    if n == 0 {
      assert s == id;
    } else {
      var at := IndexOfTop(s, n);
      RemovedIs(s, at, n);
      DistinctFillRange(s[..at] + s[at + 1..], n - 1);
      assert id == seq(n - 1, i => i + 1) + [n];
    }
  }

  /** Without the top value they are distinct values taken from 1..n-1. */
  lemma RemovedIs(s: seq<int>, at: nat, n: nat)
    requires |s| == n && at < n && s[at] == n
    requires forall i :: 0 <= i < n ==> 1 <= s[i] <= n
    requires forall i, j :: 0 <= i < j < n ==> s[i] != s[j]
    ensures var rest := s[..at] + s[at + 1..];
            && |rest| == n - 1 && (forall i :: 0 <= i < n - 1 ==> 1 <= rest[i] <= n - 1)
            && (forall i, j :: 0 <= i < j < n - 1 ==> rest[i] != rest[j])
            && multiset(s) == multiset(rest) + multiset{n}
  {
    var rest := s[..at] + s[at + 1..];
    assert s == s[..at] + [n] + s[at + 1..];
    assert forall i :: 0 <= i < n - 1 ==> rest[i] == if i < at then s[i] else s[i + 1];
  }

  /** n distinct values in 1..n reach n: otherwise they would fit in 1..n-1. */
  lemma IndexOfTop(s: seq<int>, n: nat) returns (at: nat)
    requires |s| == n > 0
    requires forall i :: 0 <= i < n ==> 1 <= s[i] <= n
    requires forall i, j :: 0 <= i < j < n ==> s[i] != s[j]
    ensures at < n && s[at] == n
  {
    if n !in s {
      Pigeonhole(s, n - 1);
    }
    at :| 0 <= at < n && s[at] == n;
  }

  lemma {:induction false} Pigeonhole(s: seq<int>, n: nat)
    requires |s| > n
    requires forall i :: 0 <= i < |s| ==> 1 <= s[i] <= n
    ensures exists i, j :: 0 <= i < j < |s| && s[i] == s[j]
  {
    var values := set x | x in s;
    UptoSize(n);
    assert values <= Upto(n);
    SubsetSize(values, Upto(n));
    if forall i, j :: 0 <= i < j < |s| ==> s[i] != s[j] {
      DistinctSize(s);
    }
  }

  ghost function Upto(n: nat): (r: set<int>)
    ensures forall x :: x in r <==> 1 <= x <= n
  {
    if n == 0 then {} else Upto(n - 1) + {n}
  }

  lemma {:induction false} UptoSize(n: nat)
    ensures |Upto(n)| == n
  {
    if n != 0 {
      UptoSize(n - 1);
    }
  }

  lemma {:induction false} SubsetSize(a: set<int>, b: set<int>)
    requires a <= b
    ensures |a| <= |b|
  {
    assert b == a + (b - a);
  }

  lemma {:induction false} DistinctSize(s: seq<int>)
    requires forall i, j :: 0 <= i < j < |s| ==> s[i] != s[j]
    ensures |set x | x in s| == |s|
  {
    if s == [] {
      assert (set x | x in s) == {};
    } else {
      var rest := s[1..];
      DistinctSize(rest);
      assert s == [s[0]] + rest;
      assert (set x | x in s) == {s[0]} + (set x | x in rest);
      assert s[0] !in rest;
    }
  }

  lemma ScaledPermutes(a: int, p: int)
    requires Prime(p) && !Multiple(a, p)
    ensures multiset(Scaled(a, p - 1, p)) == multiset(seq(p - 1, i => i + 1))
  {
    var s := Scaled(a, p - 1, p);
    forall i | 0 <= i < p - 1
      ensures 1 <= s[i] <= p - 1
    {
      var q := ModWitness(a * (i + 1), p);
      if s[i] == 0 {
        assert Multiple(a * (i + 1), p);
        Euclid(p, a, i + 1);
        SmallIsNotMultiple(i + 1, p);
      }
    }
    forall i, j | 0 <= i < j < p - 1
      ensures s[i] != s[j]
    {
      if s[i] == s[j] {
        CongMod(a * (j + 1), a * (i + 1), p);
        CongCancel(j + 1, i + 1, a, p);
        assert (j + 1) - (i + 1) == j - i;
        SmallIsNotMultiple(j - i, p);
      }
    }
    DistinctFillRange(s, p - 1);
  }

  /** The product of the scaled residues carries one factor a for each of them. */
  lemma {:induction false} ScaledProduct(a: int, n: nat, p: int)
    requires p > 0
    ensures Cong(Product(Scaled(a, n, p)), Pow(a, n) * Product(seq(n, i => i + 1)), p)
  {
    if n == 0 {
      assert 1 - 1 * 1 == 0 * p;
    } else {
      var id, shorter := seq(n, i => i + 1), seq(n - 1, i => i + 1);
      assert id == shorter + [n];
      ProductAppend(shorter, n);
      var s, t := Scaled(a, n, p), Scaled(a, n - 1, p);
      assert s == t + [(a * n) % p];
      ProductAppend(t, (a * n) % p);
      ScaledProduct(a, n - 1, p);
      CongSelfMod(a * n, p);
      var x := Pow(a, n - 1) * Product(shorter);
      CongMul(Product(t), x, (a * n) % p, a * n, p);
      Regroup(Pow(a, n - 1), Product(shorter), a, n);
    }
  }

  lemma Regroup(x: int, y: int, a: int, n: int)
    ensures (x * y) * (a * n) == (a * x) * (y * n)
  {
    assert (x * y) * (a * n) == ((x * y) * a) * n;
    assert (x * y) * a == (a * x) * y;
    assert ((a * x) * y) * n == (a * x) * (y * n);
  }

  lemma {:induction false} FactorialCoprime(p: int, n: nat)
    requires Prime(p) && n < p
    ensures !Multiple(Product(seq(n, i => i + 1)), p)
  {
    if n == 0 {
      SmallIsNotMultiple(1, p);
    } else {
      var id, shorter := seq(n, i => i + 1), seq(n - 1, i => i + 1);
      assert id == shorter + [n];
      ProductAppend(shorter, n);
      FactorialCoprime(p, n - 1);
      SmallIsNotMultiple(n, p);
      if Multiple(Product(id), p) {
        Euclid(p, Product(shorter), n);
      }
    }
  }

  /** Fermat's little theorem. */
  lemma Fermat(a: int, p: int)
    requires Prime(p) && !Multiple(a, p)
    ensures Cong(Pow(a, p - 1), 1, p)
  {
    var f := Product(seq(p - 1, i => i + 1));
    ScaledPermutes(a, p);
    ProductOfPermutation(Scaled(a, p - 1, p), seq(p - 1, i => i + 1));
    ScaledProduct(a, p - 1, p);
    FactorialCoprime(p, p - 1);
    CongSym(f, Pow(a, p - 1) * f, p);
    assert Pow(a, p - 1) * f == f * Pow(a, p - 1) && f == f * 1;
    CongCancel(Pow(a, p - 1), 1, f, p);
  }

  // ----- square roots -----

  /** Euler's criterion, the half that needs Fermat: for p = 3 mod 4 a square is
      recovered by raising to (p+1)/4. */
  lemma SquareRootOfSquare(c: int, y: int, p: int)
    requires Prime(p) && p % 4 == 3 && Cong(y * y, c, p)
    ensures var r := Pow(c, (p + 1) / 4); Cong(r * r, c, p)
  {
    var e := (p + 1) / 4;
    var r := Pow(c, e);
    assert 2 * e - 1 >= 0 && 2 * (2 * e - 1) == p - 1;
    PowAdd(c, e, e);
    PowAdd(c, 1, 2 * e - 1);
    assert Pow(c, 1) == c * Pow(c, 0) == c;
    assert r * r == c * Pow(c, 2 * e - 1);
    if Multiple(y, p) {
      MultipleTimes(y, y, p);
      CongSym(y * y, c, p);
      assert Cong(y * y, 0, p) by { assert y * y - 0 == y * y; }
      CongTrans(c, y * y, 0, p);
      assert Multiple(c, p) by { assert c - 0 == c; }
      MultipleTimes(c, Pow(c, 2 * e - 1) - 1, p);
      assert r * r - c == (Pow(c, 2 * e - 1) - 1) * c;
    } else {
      Fermat(y, p);
      assert Pow(y, 2) == y * (y * 1) by { assert Pow(y, 2) == y * Pow(y, 1); }
      PowMul(y, 2, 2 * e - 1);
      CongPow(y * y, c, 2 * e - 1, p);
      CongSym(Pow(y * y, 2 * e - 1), Pow(c, 2 * e - 1), p);
      CongTrans(Pow(c, 2 * e - 1), Pow(y, p - 1), 1, p);
      assert Cong(c, c, p) by { assert c - c == 0 * p; }
      CongMul(c, c, Pow(c, 2 * e - 1), 1, p);
    }
  }
}
