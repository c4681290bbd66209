/** The client's chunk loop against the server's session, in 64-bit arithmetic. */
module UploadClient {
  import opened Wrappers
  import opened Decimals
  import opened ContentRange
  import opened Upload
  import opened ModArith

  class UploadSession {
    const expectedSize: int
    var receivedBytes: int
    var staged: seq<Byte>

    ghost function State(): Session
      reads this
    {
      Session(expectedSize, receivedBytes, staged)
    }

    constructor (fileSize: int)
      requires fileSize > 0
      ensures State() == Session(fileSize, 0, []) && Sound(State())
    {
      expectedSize, receivedBytes, staged := fileSize, 0, [];
    }

    method Chunk(range: Option<(int, int, int)>, body: seq<Byte>, broken: bool) returns (ok: bool)
      requires Sound(State()) && (range.Some? ==> 0 <= range.value.0 <= range.value.1 < range.value.2)
      modifies this
      ensures var r := Request(range, body, broken);
              State() == Put(old(State()), r) && ok == Accepts(old(State()), r) && Sound(State())
    {
      PutKeeps(State(), Request(range, body, broken));
      if range.None? {
        return false;
      }
      var (start, end, total) := range.value;
      if total != expectedSize || start != receivedBytes {
        return false;
      }
      var chunkSize := end - start + 1;
      var written := if |body| <= chunkSize then body else body[..chunkSize];
      staged := WriteAt(staged, start, written);
      if broken || |written| != chunkSize {
        return false;
      }
      receivedBytes := receivedBytes + |written|;
      return true;
    }
  }

  // ----- how many chunks -----

  function Chunks(size: nat, chunk: nat): nat
    requires chunk > 0
  {
    (size + chunk - 1) / chunk
  }

  /** The sums of the loop stay within 64 bits. */
  predicate Fits(size: nat, chunk: nat)
    requires chunk > 0
  {
    Chunks(size, chunk) * chunk <= MAX_INT
  }

  lemma ChunksBound(size: nat, chunk: nat, i: nat)
    requires chunk > 0
    ensures i * chunk < size <==> i < Chunks(size, chunk)
  {
    var n := Chunks(size, chunk);
    assert n * chunk <= size + chunk - 1 < (n + 1) * chunk;
    if i < n {
      ScaleAtMost(i, n - 1, chunk);
      assert (n - 1) * chunk == n * chunk - chunk;
    } else {
      ScaleAtMost(n, i, chunk);
      assert (n + 1) * chunk == n * chunk + chunk;
    }
  }

  lemma ScaleAtMost(a: nat, b: nat, k: nat)
    requires a <= b
    ensures a * k <= b * k
  {
  }

  function Min(a: int, b: int): int { if a <= b then a else b }

  // ----- reading a section and counting -----

  ghost predicate Increasing(reports: seq<int>, last: int)
  {
    && (forall i, j :: 0 <= i < j < |reports| ==> reports[i] < reports[j])
    && (reports == [] ==> last == 0)
    && (reports != [] ==> reports[|reports| - 1] == last && reports[0] > 0)
  }

  /** Reads a section of the file piece by piece, as the transport asks for it, and reports the
      bytes read so far in the whole file. */
  method ReadSection(content: seq<Byte>, start: nat, length: nat, take: nat -> nat, before: seq<int>)
    returns (body: seq<Byte>, reports: seq<int>)
    requires start <= |content| && Increasing(before, start)
    ensures var end := Min(start + length, |content|); body == content[start..end] && Increasing(reports, end)
    ensures before <= reports
  {
    var end := Min(start + length, |content|);
    var at := start;
    body, reports := [], before;
    while at < end
      invariant start <= at <= end && body == content[start..at] && Increasing(reports, at) && before <= reports
    {
      var n := if take(at) == 0 then 1 else Min(take(at), end - at);
      body := body + content[at..at + n];
      at := at + n;
      reports := reports + [at];
    }
  }

  /** The request that the loop makes of a section is taken by a session that has come this far,
      unless the end of the section is out of range. */
  lemma ChunkRequest(content: seq<Byte>, s: Session, chunk: nat, end: int, r: Request)
    requires HoldsPrefix(content, s) && s.received < |content| <= MAX_INT && 0 < chunk <= MAX_INT
    requires end == Min(Wrap(s.received + chunk), |content|)
    requires var last := Wrap(end - 1);
             r.range == if s.received <= last < |content| then Some((s.received, last, |content|)) else None
    requires s.received + chunk <= MAX_INT ==> r.body == content[s.received..end]
    ensures Accepts(s, r) <==> s.received + chunk <= MAX_INT && !r.broken
    ensures Accepts(s, r) ==> Wanted(s, r) == end - s.received && Honest(content, r)
  {
    WrapSum(s.received, chunk);
  }

  /** The range goes to the server as text. */
  method Announce(start: nat, last: int, size: int) returns (range: Option<(int, int, int)>)
    requires IsInt64(start) && IsInt64(last) && IsInt64(size)
    ensures range == if start <= last < size then Some((start as int, last, size)) else None
  {
    ParsePrinted(start, last, size);
    range := Parse(Print(start, last, size));
  }

  /** One round of the loop, with the arithmetic of the machine. */
  method SendChunk(content: seq<Byte>, start: nat, chunk: nat, take: nat -> nat, broken: bool,
                   before: seq<int>, session: UploadSession)
    returns (ok: bool, reports: seq<int>)
    requires start < |content| <= MAX_INT && 0 < chunk <= MAX_INT && Increasing(before, start)
    requires HoldsPrefix(content, session.State()) && session.receivedBytes == start
    modifies session
    ensures ok <==> start + chunk <= MAX_INT && !broken
    ensures ok ==> var end := Min(start + chunk, |content|);
                   session.receivedBytes == end && HoldsPrefix(content, session.State()) && Increasing(reports, end)
    ensures before <= reports
  {
    var end := Min(Wrap(start + chunk), |content|);
    var length := Wrap(end - start);
    WrapSum(start, chunk);
    var body;
    body, reports := ReadSection(content, start, length, take, before);
    var range := Announce(start, Wrap(end - 1), |content|);
    ghost var s, r := session.State(), Request(range, body, broken);
    ChunkRequest(content, s, chunk, end, r);
    ok := session.Chunk(range, body, broken);
    if ok {
      HonestStep(content, s, r);
    }
  }

  /** A sum of two non-negative numbers beyond the range comes out negative; the length
      computed from it does not. */
  lemma WrapSum(a: nat, b: nat)
    requires a <= MAX_INT && b <= MAX_INT
    ensures a + b <= MAX_INT ==> Wrap(a + b) == a + b
    ensures a + b > MAX_INT ==> Wrap(a + b) == a + b - 2 * (MAX_INT + 1) < 0 && Wrap(Wrap(a + b) - a) == b
    ensures a + b > MAX_INT ==> Wrap(Wrap(a + b) - 1) < 0 || Wrap(Wrap(a + b) - 1) == MAX_INT
  {
  }

  /** The whole upload: it goes through exactly if no transfer breaks and no sum leaves the range
      of the machine, and then the server holds the file. */
  method UploadChunked(content: seq<Byte>, chunk: nat, take: nat -> nat, broken: nat -> bool)
    returns (ok: bool, session: UploadSession, reports: seq<int>, n: nat)
    requires 0 < chunk < |content| <= MAX_INT
    ensures ok <==> Fits(|content|, chunk) && forall i :: 0 <= i < Chunks(|content|, chunk) ==> !broken(i)
    ensures ok ==> session.State() == Session(|content|, |content|, content) && n == Chunks(|content|, chunk)
    ensures ok ==> Increasing(reports, |content|)
  {
    session := new UploadSession(|content|);
    var start := 0;
    reports, n := [], 0;
    while start < |content|
      invariant start == n * chunk <= MAX_INT && n <= Chunks(|content|, chunk)
      invariant session.receivedBytes == Min(start, |content|) && Increasing(reports, Min(start, |content|))
      invariant fresh(session) && HoldsPrefix(content, session.State())
      invariant forall i :: 0 <= i < n ==> !broken(i)
      decreases |content| - start
    {
      ChunksBound(|content|, chunk, n);
      ChunksBound(|content|, chunk, n + 1);
      assert (n + 1) * chunk == start + chunk;
      ok, reports := SendChunk(content, start, chunk, take, broken(n), reports, session);
      if !ok {
        if start + chunk > MAX_INT {
          ScaleAtMost(n + 1, Chunks(|content|, chunk), chunk);
        }
        return;
      }
      start := Wrap(start + chunk);
      n := n + 1;
    }
    ChunksBound(|content|, chunk, n);
    WholePrefix(content, session.State());
    ok := true;
  }

  // ----- the progress line -----

  /** Go's division, which cuts the fraction off. */
  function Quotient(a: int, b: int): int
    requires b > 0
  {
    if a >= 0 then a / b else -((-a) / b)
  }

  function Percent(sent: int, total: int): int
    requires total > 0
  {
    Quotient(Wrap(sent * 100), total)
  }

  lemma PercentGrows(a: nat, b: nat, total: nat)
    requires 0 < total && a <= b <= total && total * 100 <= MAX_INT
    ensures 0 <= Percent(a, total) <= Percent(b, total) <= 100
  {
    PercentIs(a, total);
    PercentIs(b, total);
    DivGrows(a * 100, b * 100, total);
    DivGrows(b * 100, total * 100, total);
    WholeIsHundred(total);
  }

  lemma PercentIs(sent: nat, total: nat)
    requires total > 0 && sent * 100 <= MAX_INT
    ensures Percent(sent, total) == (sent * 100) / total >= 0
  {
  }

  lemma DivGrows(a: nat, b: nat, d: nat)
    requires a <= b && d > 0
    ensures a / d <= b / d
  {
    var p, q := a / d, b / d;
    assert a == p * d + a % d && b == q * d + b % d;
    if q < p {
      ScaleAtMost(q + 1, p, d);
    }
  }

  lemma WholeIsHundred(total: nat)
    requires total > 0
    ensures (total * 100) / total == 100
  {
    DivModUnique(total * 100, 100, 0, total);
  }

  /** The line ends at 100 exactly if a hundred times the size is still in range. */
  lemma HundredExactly(total: nat)
    requires 0 < total <= MAX_INT
    ensures Percent(total, total) == 100 <==> total * 100 <= MAX_INT
  {
    WholeIsHundred(total);
    var w := Wrap(total * 100);
    if total * 100 > MAX_INT && w >= 0 {
      assert w == (w / total) * total + w % total;
      assert w / total >= 100 ==> w >= total * 100 by {
        if w / total >= 100 { ScaleAtMost(100, w / total, total); }
      }
    }
  }

  /** The percentages printed for the reports of an upload. */
  method PrintProgress(reports: seq<int>, total: nat) returns (printed: seq<int>)
    requires 0 < total <= MAX_INT && Increasing(reports, total)
    ensures forall i :: 0 < i < |printed| ==> printed[i - 1] != printed[i]
    ensures total * 100 <= MAX_INT ==> forall i, j :: 0 <= i < j < |printed| ==> 0 <= printed[i] < printed[j]
    ensures printed != [] && printed[|printed| - 1] == 100 <==> total * 100 <= MAX_INT
  {
    var lastPercent := -1;
    printed := [];
    for k := 0 to |reports|
      invariant lastPercent == if printed == [] then -1 else printed[|printed| - 1]
      invariant lastPercent == if k == 0 then -1 else Percent(reports[k - 1], total)
      invariant forall i :: 0 < i < |printed| ==> printed[i - 1] != printed[i]
      invariant total * 100 <= MAX_INT ==> forall i :: 0 <= i < |printed| ==> 0 <= printed[i] <= lastPercent
      invariant total * 100 <= MAX_INT ==> forall i, j :: 0 <= i < j < |printed| ==> printed[i] < printed[j]
    {
      if total * 100 <= MAX_INT {
        PercentGrows(if k > 0 then reports[k - 1] else 0, reports[k], total);
      }
      var percent := Percent(reports[k], total);
      if percent != lastPercent {
        lastPercent := percent;
        printed := printed + [percent];
      }
    }
    HundredExactly(total);
  }
}
