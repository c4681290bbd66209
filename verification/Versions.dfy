/** Firmware version strings and the bump that stands for a downloaded update. */
module Versions {
  import opened Wrappers
  import opened Decimals
  import opened Text

  const DEFAULT_VERSION: string := "1.8.0"
  const DEFAULT_NEXT_VERSION: string := "1.8.1"

  function Parse(version: string): (r: Option<(int, int, int)>)
    ensures r.Some? ==> IsInt64(r.value.0) && IsInt64(r.value.1) && IsInt64(r.value.2)
  {
    var parts := Split(version, '.');
    if |parts| != 3 then None
    else
      var major, minor, patch := Atoi(parts[0]), Atoi(parts[1]), Atoi(parts[2]);
      if major.None? || minor.None? || patch.None? then None
      else Some((major.value, minor.value, patch.value))
  }

  function Print(major: int, minor: int, patch: int): (s: string)
    ensures s != ""
  {
    Itoa(major) + "." + Itoa(minor) + "." + Itoa(patch)
  }

  /** The patch number goes up by one; text that is no version gives a fixed one. */
  function Bump(parsed: Option<(int, int, int)>): (next: string)
    ensures next != ""
  {
    match parsed
    case None => DEFAULT_NEXT_VERSION
    case Some((major, minor, patch)) => Print(major, minor, Wrap(patch + 1))
  }

  function NextFirmwareVersion(current: string): (next: string)
    ensures next != ""
  {
    Bump(Parse(current))
  }

  lemma BumpParses(a: int, b: int, c: int)
    requires IsInt64(a) && IsInt64(b)
    ensures Parse(Bump(Some((a, b, c)))) == Some((a, b, Wrap(c + 1)))
  {
    ParsePrinted(a, b, Wrap(c + 1));
  }

  /** The bumped version parses to the same release with the patch number one higher,
      except that the largest patch number wraps around. */
  lemma {:induction false} NextVersionParses(current: string, a: int, b: int, c: int)
    requires Parse(current) == Some((a, b, c))
    ensures Parse(NextFirmwareVersion(current)) == Some((a, b, Wrap(c + 1)))
  {
    BumpParses(a, b, c);
  }

  lemma {:induction false} ParsePrinted(a: int, b: int, c: int)
    requires IsInt64(a) && IsInt64(b) && IsInt64(c)
    ensures Parse(Print(a, b, c)) == Some((a, b, c))
  {
    AtoiItoa(a);
    AtoiItoa(b);
    AtoiItoa(c);
    ParseParts(Itoa(a), Itoa(b), Itoa(c), a, b, c);
  }

  lemma ParseParts(x: string, y: string, z: string, a: int, b: int, c: int)
    requires Atoi(x) == Some(a) && Atoi(y) == Some(b) && Atoi(z) == Some(c)
    requires forall i :: 0 <= i < |x| ==> x[i] != '.'
    requires forall i :: 0 <= i < |y| ==> y[i] != '.'
    requires forall i :: 0 <= i < |z| ==> z[i] != '.'
    ensures Parse(x + "." + y + "." + z) == Some((a, b, c))
  {
    ThreeParts(x, y, z);
  }

  lemma ThreeParts(a: string, b: string, c: string)
    requires forall i :: 0 <= i < |a| ==> a[i] != '.'
    requires forall i :: 0 <= i < |b| ==> b[i] != '.'
    requires forall i :: 0 <= i < |c| ==> c[i] != '.'
    ensures Split(a + "." + b + "." + c, '.') == [a, b, c]
  {
    var tail := b + "." + c;
    assert a + "." + b + "." + c == a + "." + tail;
    SplitJoined(a, tail, '.');
    SplitJoined(b, c, '.');
    SplitSingle(c, '.');
  }
}
