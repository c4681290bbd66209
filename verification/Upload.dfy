/** The chunked firmware upload: the session on the server and the client's loop. */
module Upload {
  import opened Wrappers

  type Byte = bv8

  // ----- the session -----

  /** The staged file holds the received bytes and whatever later requests that failed left
      behind them. */
  datatype Session = Session(expected: int, received: int, file: seq<Byte>)

  /** The range is what the header says, if it can be read; body is what arrived of the
      request, and broken says that the transfer failed after it. */
  datatype Request = Request(range: Option<(int, int, int)>, body: seq<Byte>, broken: bool)

  predicate Sound(s: Session)
  {
    0 <= s.received <= |s.file| <= s.expected
  }

  function WriteAt(file: seq<Byte>, at: nat, data: seq<Byte>): seq<Byte>
    requires at <= |file|
  {
    file[..at] + data + if at + |data| <= |file| then file[at + |data|..] else []
  }

  /** What a request asks for, if the session takes it at this point. */
  function Wanted(s: Session, r: Request): (n: nat)
    ensures n > 0 ==> s.received + n <= s.expected
  {
    if r.range.None? then 0
    else
      var (start, end, total) := r.range.value;
      if start <= end < total == s.expected && start == s.received then end - start + 1 else 0
  }

  function Written(s: Session, r: Request): seq<Byte>
  {
    if |r.body| <= Wanted(s, r) then r.body else r.body[..Wanted(s, r)]
  }

  predicate Accepts(s: Session, r: Request)
  {
    Wanted(s, r) > 0 && !r.broken && |r.body| >= Wanted(s, r)
  }

  function Put(s: Session, r: Request): Session
    requires Sound(s)
  {
    if Wanted(s, r) == 0 then s
    else s.(file := WriteAt(s.file, s.received, Written(s, r)),
            received := if Accepts(s, r) then s.received + Wanted(s, r) else s.received)
  }

  /** The session is published only when every byte came in. */
  predicate Completes(s: Session) { s.received == s.expected }

  lemma PutKeeps(s: Session, r: Request)
    requires Sound(s)
    ensures var t := Put(s, r);
            && Sound(t) && t.expected == s.expected && s.received <= t.received
            && t.file[..s.received] == s.file[..s.received]
            && t.file[s.received..t.received] == if Accepts(s, r) then Written(s, r) else []
  {
  }

  // ----- every sequence of requests -----

  function Serve(expected: int, rs: seq<Request>): (s: Session)
    requires expected > 0
    ensures Sound(s) && s.expected == expected
    decreases |rs|
  {
    if rs == [] then Session(expected, 0, [])
    else
      var before := Serve(expected, rs[..|rs| - 1]);
      PutKeeps(before, rs[|rs| - 1]);
      Put(before, rs[|rs| - 1])
  }

  /** The bytes of the accepted requests, in the order in which they came. */
  ghost function Taken(expected: int, rs: seq<Request>): seq<Byte>
    requires expected > 0
    decreases |rs|
  {
    if rs == [] then []
    else
      var before, last := rs[..|rs| - 1], rs[|rs| - 1];
      var s := Serve(expected, before);
      if Accepts(s, last) then Taken(expected, before) + Written(s, last) else Taken(expected, before)
  }

  /** The received part is made of the accepted requests and of nothing else. */
  lemma {:induction false} ReceivedIsTaken(expected: int, rs: seq<Request>)
    requires expected > 0
    ensures var s := Serve(expected, rs); s.file[..s.received] == Taken(expected, rs)
    decreases |rs|
  {
    if rs != [] {
      var before := rs[..|rs| - 1];
      ReceivedIsTaken(expected, before);
      var s, t := Serve(expected, before), Serve(expected, rs);
      PutKeeps(s, rs[|rs| - 1]);
      assert t.file[..t.received] == t.file[..s.received] + t.file[s.received..t.received];
    }
  }

  lemma {:induction false} CompleteIsTaken(expected: int, rs: seq<Request>)
    requires expected > 0 && Completes(Serve(expected, rs))
    ensures Serve(expected, rs).file == Taken(expected, rs) && |Taken(expected, rs)| == expected
  {
    ReceivedIsTaken(expected, rs);
    var s := Serve(expected, rs);
    assert s.file[..s.received] == s.file;
  }

  /** A request that carries a part of the content, whole or cut short, for the range it names. */
  ghost predicate Honest(content: seq<Byte>, r: Request)
  {
    r.range.Some? ==>
      var (start, end, total) := r.range.value;
      0 <= start <= end < total == |content| ==> r.body <= content[start..end + 1]
  }

  ghost predicate HoldsPrefix(content: seq<Byte>, s: Session)
  {
    Sound(s) && s.expected == |content| && s.file[..s.received] == content[..s.received]
  }

  lemma HonestStep(content: seq<Byte>, s: Session, r: Request)
    requires HoldsPrefix(content, s) && Honest(content, r)
    ensures HoldsPrefix(content, Put(s, r))
  {
    var t := Put(s, r);
    PutKeeps(s, r);
    if Accepts(s, r) {
      HonestPart(content, s, r);
    }
    assert t.file[..t.received] == t.file[..s.received] + t.file[s.received..t.received];
    assert content[..t.received] == content[..s.received] + content[s.received..t.received];
  }

  lemma {:induction false} HonestRequests(content: seq<Byte>, rs: seq<Request>)
    requires content != [] && forall i :: 0 <= i < |rs| ==> Honest(content, rs[i])
    ensures HoldsPrefix(content, Serve(|content|, rs))
    decreases |rs|
  {
    if rs != [] {
      HonestRequests(content, rs[..|rs| - 1]);
      HonestStep(content, Serve(|content|, rs[..|rs| - 1]), rs[|rs| - 1]);
    }
  }

  /** Lost, repeated, reordered and truncated requests do no harm: what is published is the
      content. */
  lemma {:induction false} HonestUpload(content: seq<Byte>, rs: seq<Request>)
    requires content != [] && forall i :: 0 <= i < |rs| ==> Honest(content, rs[i])
    requires Completes(Serve(|content|, rs))
    ensures Serve(|content|, rs).file == content
  {
    HonestRequests(content, rs);
    WholePrefix(content, Serve(|content|, rs));
  }

  lemma WholePrefix(content: seq<Byte>, s: Session)
    requires HoldsPrefix(content, s) && Completes(s)
    ensures s.file == content
  {
    assert s.file[..s.received] == s.file && content[..s.received] == content;
  }

  lemma HonestPart(content: seq<Byte>, s: Session, r: Request)
    requires Sound(s) && s.expected == |content| && Honest(content, r) && Accepts(s, r)
    ensures Written(s, r) == content[s.received..s.received + Wanted(s, r)]
  {
  }
}
