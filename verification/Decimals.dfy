/** Numbers of a 64-bit int, in machine and in decimal. */
module Decimals {
  import opened Wrappers
  import opened Radix
  import opened Text

  const MAX_INT: int := 0x7FFF_FFFF_FFFF_FFFF

  predicate IsInt64(n: int) { -MAX_INT - 1 <= n <= MAX_INT }

  /** Two's complement arithmetic: the number an int64 holds after it was assigned n. */
  function Wrap(n: int): (r: int)
    ensures IsInt64(r) && (IsInt64(n) ==> r == n)
  {
    if IsInt64(n) then n else (n + MAX_INT + 1) % (2 * (MAX_INT + 1)) - MAX_INT - 1
  }

  predicate AllDigits(s: string)
  {
    forall i :: 0 <= i < |s| ==> IsDigit(s[i])
  }

  function DigitValue(c: char): nat
  {
    if IsDigit(c) then c as int - '0' as int else 0
  }

  function DigitValues(s: string): (ds: seq<nat>)
    ensures |ds| == |s| && forall i :: 0 <= i < |s| ==> ds[i] == DigitValue(s[i])
  {
    seq(|s|, i requires 0 <= i < |s| => DigitValue(s[i]))
  }

  /** strconv.Atoi: an optional sign, digits, and the range of a 64-bit int. */
  function Atoi(s: string): Option<int>
  {
    var digits := if s != "" && (s[0] == '+' || s[0] == '-') then s[1..] else s;
    if digits == "" || !AllDigits(digits) then None
    else
      var abs: int := FromDigits(DigitValues(digits), 10);
      var n := if s[0] == '-' then -abs else abs;
      if IsInt64(n) then Some(n) else None
  }

  function Decimal(n: nat): (s: string)
    ensures s != "" && AllDigits(s)
  {
    if n == 0 then "0"
    else
      var ds := ToDigits(n, 10);
      seq(|ds|, i requires 0 <= i < |ds| => (ds[i] + '0' as int) as char)
  }

  /** The %d verb. */
  function Itoa(n: int): string
  {
    if n < 0 then "-" + Decimal(-n) else Decimal(n)
  }

  lemma DecimalRoundTrip(n: nat)
    ensures FromDigits(DigitValues(Decimal(n)), 10) == n
  {
    var read := DigitValues(Decimal(n));
    if n == 0 {
      assert read == [0];
      assert FromDigits([0], 10) == FromDigits([], 10) * 10 + 0 by { assert [0][..0] == []; }
    } else {
      assert read == ToDigits(n, 10);
      FromToDigits(n, 10);
    }
  }

  lemma AtoiDigits(s: string, v: int)
    requires s != "" && AllDigits(s) && FromDigits(DigitValues(s), 10) == v
    ensures IsInt64(v) ==> Atoi(s) == Some(v)
    ensures IsInt64(-v) ==> Atoi("-" + s) == Some(-v)
  {
    assert IsDigit(s[0]);
    assert ("-" + s)[1..] == s;
  }

  lemma AtoiItoa(n: int)
    requires IsInt64(n)
    ensures Atoi(Itoa(n)) == Some(n)
    ensures forall i :: 0 <= i < |Itoa(n)| ==> IsDigit(Itoa(n)[i]) || (n < 0 && i == 0 && Itoa(n)[i] == '-')
  {
    var abs := if n < 0 then -n else n;
    DecimalRoundTrip(abs);
    AtoiDigits(Decimal(abs), abs);
  }
}
