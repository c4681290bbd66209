/** The x-only public key test: is there a curve point with this x coordinate?

    big.Int.Exp(b, e, m) is b^e mod m. The field prime is a parameter; the facts used
    of it are that it is prime and 3 modulo 4. */
module XOnlyKey {
  import opened ModArith
  import opened Radix
  import opened Base58

  function ModExp(b: nat, e: nat, m: nat): nat
    requires m > 0
  {
    Pow(b, e) % m
  }

  /** lift_x of BIP 340: x is in the field and x^3 + 7 is a square there. */
  ghost predicate OnCurve(x: nat, p: nat)
    requires p > 0
  {
    x < p && exists y: nat :: y < p && (y * y) % p == (x * x * x + 7) % p
  }

  method IsValidXOnlyKey(encoded: seq<Byte>, p: nat) returns (ok: bool)
    requires Prime(p) && p % 4 == 3
    ensures ok <==> |encoded| == 32 && OnCurve(FromDigits(encoded, 256), p)
  {
    if |encoded| != 32 {
      return false;
    }
    var x := FromDigits(encoded, 256);
    if x >= p {
      return false;
    }
    var rightHandSide := ModExp(x, 3, p);
    rightHandSide := (rightHandSide + 7) % p;
    var exponent := p + 1;
    exponent := exponent / 4;
    var y := ModExp(rightHandSide, exponent, p);
    var ySquared := y * y;
    ySquared := ySquared % p;
    CurveTest(x, rightHandSide, y, p);
    return ySquared == rightHandSide;
  }

  lemma RightHandSide(x: nat, p: nat)
    requires p > 0
    ensures (ModExp(x, 3, p) + 7) % p == (x * x * x + 7) % p
  {
    assert Pow(x, 3) == x * (x * (x * 1)) by {
      assert Pow(x, 3) == x * Pow(x, 2) && Pow(x, 2) == x * Pow(x, 1) && Pow(x, 1) == x * Pow(x, 0);
    }
    assert x * (x * (x * 1)) == x * x * x;
    CongSelfMod(x * x * x, p);
    CongAdd((x * x * x) % p, x * x * x, 7, p);
    CongMod((x * x * x) % p + 7, x * x * x + 7, p);
  }

  /** The computed y squares to the right-hand side exactly when some y does. */
  lemma {:induction false} CurveTest(x: nat, rhs: nat, y: nat, p: nat)
    requires Prime(p) && p % 4 == 3 && x < p
    requires rhs == (ModExp(x, 3, p) + 7) % p
    requires y == ModExp(rhs, (p + 1) / 4, p)
    ensures (y * y) % p == rhs <==> OnCurve(x, p)
  {
    RightHandSide(x, p);
    if OnCurve(x, p) {
      var z: nat :| z < p && (z * z) % p == rhs;
      CongSelfMod(z * z, p);
      SquareRootOfSquare(rhs, z, p);
      var r := Pow(rhs, (p + 1) / 4);
      CongSelfMod(r, p);
      CongMul(y, r, y, r, p);
      CongTrans(y * y, r * r, rhs, p);
      CongMod(y * y, rhs, p);
      ModUnique(rhs, 0, rhs, p);
    }
  }
}
