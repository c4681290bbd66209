/** Validation of a Stratum V2 authority key: exactly the Base58Check forms of the
    32-byte x coordinates on the curve, under version bytes 1, 0.

    SHA-256 is a parameter: any function from byte strings to 32 bytes. */
module AuthorityKey {
  import opened Wrappers
  import opened ModArith
  import opened Radix
  import opened Base58
  import opened XOnlyKey

  ghost predicate IsHash(sha256: seq<Byte> -> seq<Byte>)
  {
    forall m: seq<Byte> :: |sha256(m)| == 32
  }

  /** Version, key and the first four bytes of the double hash of both. */
  function KeyBytes(x: seq<Byte>, sha256: seq<Byte> -> seq<Byte>): seq<Byte>
    requires |sha256(sha256([1, 0] + x))| == 32
  {
    [1, 0] + x + sha256(sha256([1, 0] + x))[..4]
  }

  ghost predicate IsAuthorityKey(key: string, sha256: seq<Byte> -> seq<Byte>, p: nat)
    requires p > 0 && IsHash(sha256)
  {
    exists x: seq<Byte> ::
      |x| == 32 && OnCurve(FromDigits(x, 256), p) && key == Encode(KeyBytes(x, sha256))
  }

  /** `sv2` and `loopback` stand for the parsed scheme and host of the pool URL, `key` for
      the key with surrounding white space removed. */
  method ValidateAuthorityKey(sv2: bool, loopback: bool, key: string, sha256: seq<Byte> -> seq<Byte>, p: nat)
      returns (ok: bool)
    requires IsHash(sha256) && Prime(p) && p % 4 == 3
    ensures ok <==> !sv2 || (if key == "" then loopback else IsAuthorityKey(key, sha256, p))
  {
    if !sv2 {
      return true;
    }
    if key == "" {
      return loopback;
    }
    KeyLength(key, sha256, p);
    if |key| != 51 {
      return false;
    }
    KeyDecodes(key, sha256, p);
    var r := DecodeBase58(key);
    if r.None? || |r.value| != 38 {
      return false;
    }
    var decoded := r.value;
    var payload, checksum := decoded[..34], decoded[34..];
    var firstHash := sha256(payload);
    var secondHash := sha256(firstHash);
    var onCurve := IsValidXOnlyKey(payload[2..], p);
    ok := payload[0] == 1 && payload[1] == 0 && checksum == secondHash[..4] && onCurve;
    assert payload[2..] == decoded[2..34];
    if ok {
      DecodedKey(key, decoded, sha256, p);
    }
  }

  /** Bytes that pass every check are those of an authority key. */
  lemma DecodedKey(key: string, d: seq<Byte>, sha256: seq<Byte> -> seq<Byte>, p: nat)
    requires p > 0 && IsHash(sha256) && Decode(key) == Some(d) && |d| == 38
    requires d[0] == 1 && d[1] == 0 && d[34..] == sha256(sha256(d[..34]))[..4] && OnCurve(FromDigits(d[2..34], 256), p)
    ensures IsAuthorityKey(key, sha256, p)
  {
    EncodeDecode(key);
    var x := d[2..34];
    assert d[..34] == [1, 0] + x;
    assert d == KeyBytes(x, sha256);
  }

  /** What the decoder finds in an authority key. */
  lemma {:induction false} KeyDecodes(key: string, sha256: seq<Byte> -> seq<Byte>, p: nat)
    requires p > 0 && IsHash(sha256)
    ensures IsAuthorityKey(key, sha256, p) ==>
      && Decode(key).Some? && |Decode(key).value| == 38
      && var d := Decode(key).value;
         && d[0] == 1 && d[1] == 0 && d[34..] == sha256(sha256(d[..34]))[..4]
         && OnCurve(FromDigits(d[2..34], 256), p)
  {
    if IsAuthorityKey(key, sha256, p) {
      var x: seq<Byte> :|
        |x| == 32 && OnCurve(FromDigits(x, 256), p) && key == Encode(KeyBytes(x, sha256));
      var d := KeyBytes(x, sha256);
      DecodeEncode(d);
      assert d[..34] == [1, 0] + x;
      assert d[2..34] == x;
    }
  }

  // ----- the length precheck -----

  lemma PowersOf58()
    ensures Pow(58, 50) == 14838830640714294999983396511843381888381117770762056659674968992599706869653743415066624
    ensures Pow(58, 51) == 860652177161429109999036997686916149526104830704199286261148201570782998439917118073864192
  {
    assert Pow(58, 1) == 58 && Pow(58, 2) == 3364;
    PowAdd(58, 2, 2);
    PowAdd(58, 4, 1);
    PowAdd(58, 5, 5);
    PowAdd(58, 10, 10);
    PowAdd(58, 20, 20);
    PowAdd(58, 40, 10);
    PowAdd(58, 50, 1);
  }

  lemma PowersOf256()
    ensures Pow(256, 37) == 127314748520905380391777855525586135065716774604121015664758778084648831235208544136462336
  {
    assert Pow(256, 1) == 256 && Pow(256, 2) == 65536;
    PowAdd(256, 2, 2);
    PowAdd(256, 4, 4);
    PowAdd(256, 8, 8);
    PowAdd(256, 16, 16);
    PowAdd(256, 32, 4);
    PowAdd(256, 36, 1);
  }

  /** 38 bytes that start with 1 always print as 51 characters. */
  lemma {:induction false} FiftyOneCharacters(bytes: seq<Byte>)
    requires |bytes| == 38 && bytes[0] == 1
    ensures |Encode(bytes)| == 51
  {
    var n := FromDigits(bytes, 256);
    FromDigitsLeading(bytes, 256);
    PowersOf58();
    PowersOf256();
    DigitCount(n, 58, 50);
    DigitCount(n, 58, 51);
    RebaseRoundTrip(bytes, 256, 58);
    assert Zeros(0) + ToDigits(n, 58) == ToDigits(n, 58);
  }

  /** So the length test in front of the decoder refuses nothing the rest would accept. */
  lemma {:induction false} KeyLength(key: string, sha256: seq<Byte> -> seq<Byte>, p: nat)
    requires p > 0 && IsHash(sha256)
    ensures IsAuthorityKey(key, sha256, p) ==> |key| == 51
  {
    if IsAuthorityKey(key, sha256, p) {
      var x: seq<Byte> :|
        |x| == 32 && OnCurve(FromDigits(x, 256), p) && key == Encode(KeyBytes(x, sha256));
      FiftyOneCharacters(KeyBytes(x, sha256));
    }
  }

  /** Two different x coordinates never share a key. */
  lemma {:induction false} KeysAreDistinct(x: seq<Byte>, y: seq<Byte>, sha256: seq<Byte> -> seq<Byte>)
    requires IsHash(sha256) && |x| == |y| == 32
    requires Encode(KeyBytes(x, sha256)) == Encode(KeyBytes(y, sha256))
    ensures x == y
  {
    DecodeEncode(KeyBytes(x, sha256));
    DecodeEncode(KeyBytes(y, sha256));
    assert x == KeyBytes(x, sha256)[2..34] == KeyBytes(y, sha256)[2..34] == y;
  }
}
