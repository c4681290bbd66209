/** Is the miner that answers at an address the one that was paired there? */
module Identity {

  predicate IsHex(c: char)
  {
    '0' <= c <= '9' || 'a' <= c <= 'f' || 'A' <= c <= 'F'
  }

  function Lower(c: char): char
  {
    if 'A' <= c <= 'Z' then (c as int + 32) as char else c
  }

  /** Lowercase hex digits only. */
  function NormalizeMac(mac: string): string
  {
    if mac == "" then ""
    else if IsHex(mac[0]) then [Lower(mac[0])] + NormalizeMac(mac[1..])
    else NormalizeMac(mac[1..])
  }

  datatype Identity = Identity(model: string, serial: string, mac: string)

  datatype Verdict = Accepted | ModelMismatch | SerialMismatch | MacMismatch | Unverified

  function VerifyIdentity(expected: Identity, actual: Identity): Verdict
  {
    if expected.model != "" && actual.model != "" && actual.model != expected.model then ModelMismatch
    else if expected.serial != "" && actual.serial != "" && actual.serial != expected.serial then SerialMismatch
    else
      var expectedMac, actualMac := NormalizeMac(expected.mac), NormalizeMac(actual.mac);
      if expectedMac != "" && actualMac != "" && actualMac != expectedMac then MacMismatch
      else
        var serialVerified := expected.serial != "" && actual.serial != "" && actual.serial == expected.serial;
        var macVerified := expectedMac != "" && actualMac != "" && actualMac == expectedMac;
        if !serialVerified && !macVerified then
          if expected.serial == "" && expected.mac == "" then Accepted else Unverified
        else Accepted
  }

  // ----- what acceptance means -----

  /** Two values conflict when both are known and differ. */
  predicate Conflict(a: string, b: string)
  {
    a != "" && b != "" && a != b
  }

  predicate Agree(a: string, b: string)
  {
    a != "" && a == b
  }

  predicate StrongMatch(expected: Identity, actual: Identity)
  {
    Agree(expected.serial, actual.serial) || Agree(NormalizeMac(expected.mac), NormalizeMac(actual.mac))
  }

  predicate Conflicting(expected: Identity, actual: Identity)
  {
    || Conflict(expected.model, actual.model)
    || Conflict(expected.serial, actual.serial)
    || Conflict(NormalizeMac(expected.mac), NormalizeMac(actual.mac))
  }

  /** With a serial number or MAC on record, acceptance takes one of them to match and
      nothing to conflict; without either, only a conflict is refused. */
  lemma AcceptedExactly(expected: Identity, actual: Identity)
    ensures VerifyIdentity(expected, actual) == Accepted <==>
      && !Conflicting(expected, actual)
      && (expected.serial != "" || expected.mac != "" ==> StrongMatch(expected, actual))
  {
  }

  // ----- the spelling of a MAC does not matter -----

  /** The same hex digits in the same order, whatever their case and whatever separators
      stand between them. */
  ghost predicate SameMac(a: string, b: string)
    decreases |a| + |b|
  {
    if a != "" && !IsHex(a[0]) then SameMac(a[1..], b)
    else if b != "" && !IsHex(b[0]) then SameMac(a, b[1..])
    else if a == "" || b == "" then a == b
    else Lower(a[0]) == Lower(b[0]) && SameMac(a[1..], b[1..])
  }

  lemma {:induction false} SameMacNormalizes(a: string, b: string)
    ensures SameMac(a, b) <==> NormalizeMac(a) == NormalizeMac(b)
    decreases |a| + |b|
  {
    if a != "" && !IsHex(a[0]) {
      SameMacNormalizes(a[1..], b);
    } else if b != "" && !IsHex(b[0]) {
      SameMacNormalizes(a, b[1..]);
    } else if a != "" && b != "" {
      SameMacNormalizes(a[1..], b[1..]);
      var x, y := NormalizeMac(a), NormalizeMac(b);
      assert x[1..] == NormalizeMac(a[1..]) && y[1..] == NormalizeMac(b[1..]);
      assert x == y <==> x[0] == y[0] && x[1..] == y[1..] by {
        assert x == [x[0]] + x[1..] && y == [y[0]] + y[1..];
      }
    }
  }

  /** Respelling either MAC leaves the verdict alone, as long as a recorded MAC stays
      recorded. */
  lemma SpellingDoesNotMatter(expected: Identity, actual: Identity, expectedMac: string, actualMac: string)
    requires SameMac(expected.mac, expectedMac) && SameMac(actual.mac, actualMac)
    requires expected.mac == "" <==> expectedMac == ""
    ensures VerifyIdentity(expected.(mac := expectedMac), actual.(mac := actualMac)) == VerifyIdentity(expected, actual)
  {
    SameMacNormalizes(expected.mac, expectedMac);
    SameMacNormalizes(actual.mac, actualMac);
  }

  /** The condition is needed: a record whose MAC is separators only counts as a record. */
  lemma SeparatorsOnlyStillCount(actual: Identity)
    ensures VerifyIdentity(Identity("", "", ""), actual) == Accepted
    ensures SameMac("", ":") && VerifyIdentity(Identity("", "", ":"), actual) == Unverified
  {
    assert ":"[1..] == "";
  }
}
