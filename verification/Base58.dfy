/** Base58 as the simulator decodes it: accumulate a big integer, print it in bytes,
    put one zero byte in front for every leading '1'.

    A Go string is a sequence of bytes; here each `char` stands for one of them. */
module Base58 {
  import opened Wrappers
  import opened Radix

  type Byte = n: nat | n < 256

  /** The alphabet by runs of consecutive letters: no '0', 'I', 'O' or 'l'. */
  function AlphabetChar(d: nat): char
    requires d < 58
  {
    var code :=
      if d < 9 then '1' as int + d
      else if d < 17 then 'A' as int + (d - 9)
      else if d < 22 then 'J' as int + (d - 17)
      else if d < 33 then 'P' as int + (d - 22)
      else if d < 44 then 'a' as int + (d - 33)
      else 'm' as int + (d - 44);
    code as char
  }

  /** The alphabet as the source writes it. */
  lemma AlphabetAsWritten()
    ensures |Written()| == 58
    ensures forall d :: 0 <= d < 58 ==> Written()[d] == AlphabetChar(d)
  {
  }

  function Written(): string
  {
    "123456789" + "ABCDEFGH" + "JKLMN" + "PQRSTUVWXYZ" + "abcdefghijk" + "mnopqrstuvwxyz"
  }

  /** strings.IndexByte on the alphabet. */
  function DigitFrom(c: char, i: nat): (d: int)
    requires i <= 58
    ensures d == -1 || (i <= d < 58 && AlphabetChar(d) == c)
    ensures d == -1 ==> forall e :: i <= e < 58 ==> AlphabetChar(e) != c
    decreases 58 - i
  {
    if i == 58 then -1 else if AlphabetChar(i) == c then i else DigitFrom(c, i + 1)
  }

  function DigitOf(c: char): (d: int)
    ensures -1 <= d < 58
    ensures d >= 0 ==> AlphabetChar(d) == c
    ensures d == -1 ==> forall e :: 0 <= e < 58 ==> AlphabetChar(e) != c
  {
    DigitFrom(c, 0)
  }

  predicate OverAlphabet(s: string)
  {
    forall i :: 0 <= i < |s| ==> DigitOf(s[i]) >= 0
  }

  function DigitsOf(s: string): (ds: seq<nat>)
    requires OverAlphabet(s)
    ensures |ds| == |s| && Digits(ds, 58)
    ensures forall i :: 0 <= i < |s| ==> ds[i] == DigitOf(s[i])
  {
    seq(|s|, i requires 0 <= i < |s| => DigitOf(s[i]))
  }

  function CharsOf(ds: seq<nat>): (s: string)
    requires Digits(ds, 58)
    ensures |s| == |ds| && OverAlphabet(s)
    ensures forall i :: 0 <= i < |s| ==> s[i] == AlphabetChar(ds[i])
  {
    seq(|ds|, i requires 0 <= i < |ds| => AlphabetChar(ds[i]))
  }

  /** The reference encoder: the number in base 58, leading zero bytes kept as '1'. */
  function Encode(bytes: seq<Byte>): string
  {
    RebaseRoundTrip(bytes, 256, 58);
    CharsOf(Rebase(bytes, 256, 58))
  }

  ghost function Decode(encoded: string): Option<seq<Byte>>
  {
    if OverAlphabet(encoded) then
      RebaseRoundTrip(DigitsOf(encoded), 58, 256);
      var bytes: seq<Byte> := Rebase(DigitsOf(encoded), 58, 256);
      Some(bytes)
    else None
  }

  lemma Accumulate(encoded: string, i: nat)
    requires i < |encoded| && OverAlphabet(encoded[..i]) && DigitOf(encoded[i]) >= 0
    ensures OverAlphabet(encoded[..i + 1])
    ensures FromDigits(DigitsOf(encoded[..i + 1]), 58) == FromDigits(DigitsOf(encoded[..i]), 58) * 58 + DigitOf(encoded[i])
  {
    FromSnoc(DigitsOf(encoded[..i]), DigitOf(encoded[i]), 58);
    assert DigitsOf(encoded[..i + 1]) == DigitsOf(encoded[..i]) + [DigitOf(encoded[i])];
  }

  method DecodeBase58(encoded: string) returns (r: Option<seq<Byte>>)
    ensures r == Decode(encoded)
  {
    var value: nat := 0;
    for i := 0 to |encoded|
      invariant OverAlphabet(encoded[..i])
      invariant value == FromDigits(DigitsOf(encoded[..i]), 58)
    {
      var digit := DigitOf(encoded[i]);
      if digit < 0 {
        return None;
      }
      Accumulate(encoded, i);
      value := value * 58;
      value := value + digit;
    }
    assert encoded[..|encoded|] == encoded;
    ghost var digits := DigitsOf(encoded);
    var decoded := ToDigits(value, 256);
    var leadingZeroes := 0;
    while leadingZeroes < |encoded| && encoded[leadingZeroes] == AlphabetChar(0)
      invariant leadingZeroes <= LeadingZeros(digits)
    {
      leadingZeroes := leadingZeroes + 1;
    }
    Rebased(encoded, value, leadingZeroes);
    var result: seq<Byte> := Zeros(leadingZeroes) + decoded;
    r := Some(result);
  }

  lemma Rebased(encoded: string, value: nat, zeroes: nat)
    requires OverAlphabet(encoded) && value == FromDigits(DigitsOf(encoded), 58) && zeroes == LeadingZeros(DigitsOf(encoded))
    ensures Digits(Zeros(zeroes) + ToDigits(value, 256), 256)
    ensures Decode(encoded) == Some(Zeros(zeroes) + ToDigits(value, 256))
  {
    RebaseRoundTrip(DigitsOf(encoded), 58, 256);
  }

  /** No character stands for two digits. */
  lemma DigitOfChar(d: nat)
    requires d < 58
    ensures DigitOf(AlphabetChar(d)) == d
  {
  }

  lemma CharsDigitsInverse(s: string, ds: seq<nat>)
    requires Digits(ds, 58)
    ensures DigitsOf(CharsOf(ds)) == ds
    ensures OverAlphabet(s) ==> CharsOf(DigitsOf(s)) == s
  {
    forall i | 0 <= i < |ds|
      ensures DigitOf(CharsOf(ds)[i]) == ds[i]
    {
      DigitOfChar(ds[i]);
    }
  }

  // ----- decoding and encoding are inverse bijections -----

  /** Every byte string is what its encoding decodes to. */
  lemma {:induction false} DecodeEncode(bytes: seq<Byte>)
    ensures Decode(Encode(bytes)) == Some(bytes)
  {
    RebaseRoundTrip(bytes, 256, 58);
    CharsDigitsInverse("", Rebase(bytes, 256, 58));
  }

  /** Every string over the alphabet decodes, and to bytes that encode back to it; every
      other string is refused. */
  lemma {:induction false} EncodeDecode(encoded: string)
    ensures Decode(encoded).Some? <==> OverAlphabet(encoded)
    ensures Decode(encoded).Some? ==> Encode(Decode(encoded).value) == encoded
  {
    if OverAlphabet(encoded) {
      RebaseRoundTrip(DigitsOf(encoded), 58, 256);
      CharsDigitsInverse(encoded, []);
    }
  }
}
