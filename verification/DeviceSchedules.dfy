/** Operations run step by step on purpose: runs from a new device that go wrong, and the curtail
    that runs alone. */
module DeviceSchedules {
  import opened Wrappers
  import opened Identity
  import opened Snapshots
  import opened DeviceRuns
  import opened DeviceEpisodes
  import opened DeviceRestore
  import Curtailment

  // ----- an operation's ordinary steps -----

  /** The next ordinary step of operation i, at pc, on a device that is otherwise d. */
  function Next(d: Device, i: nat, kind: Kind, pc: Pc): (Device, Pc)
  {
    match pc
    case Entry => (if kind == Curtail then d.(cache := None) else d, EntryPc(d, kind))
    case LookUp => (d, if d.cache.Some? then AfterRead(kind, d.cache.value) else Connecting(Telemetry))
    case Connecting(goal) => (d.(holder := Some(i)), Holding(goal))
    case Holding(Telemetry) => (d, Sampled(Sample(d.epoch, d.mining)))
    case Holding(Command(s)) => (Change(d, Target(kind)).(top := d.epoch + 1), Effective(d.epoch + 1, s))
    case Sampled(s) => (d.(cache := Some(s)), Cached(s))
    case Cached(s) => (d.(holder := None), AfterRead(kind, s))
    case Effective(e, s) => (d.(holder := None), Released(e, s))
    case Released(e, s) => (Note(d, kind, s), Noted(e))
    case Noted(e) => (d.(cache := None), Cleared(e))
    case Cleared(e) => (d.(committed := if e > d.committed then e else d.committed), Succeeded(e))
    case _ => (d, pc)
  }

  function AfterRead(kind: Kind, s: Sample): Pc
  {
    if kind == Read then Answered(s) else Connecting(Command(s))
  }

  predicate Goes(d: Device, i: nat, kind: Kind, pc: Pc)
  {
    && i < |d.ops| && d.ops[i].kind == kind
    && !Over(pc) && !pc.Dropping? && !pc.Dropped? && !pc.Skipping? && !pc.SkipNoted?
    && (pc.Connecting? ==> d.holder.None? && d.slot.Some?)
  }

  lemma EarlyNextIs(info: Identity, d: Device, i: nat, kind: Kind, pc: Pc)
    requires Goes(d, i, kind, pc) && (pc.Entry? || pc.LookUp? || pc.Connecting? || pc.Holding?)
    ensures var (d', pc') := Next(d, i, kind, pc); AdvanceStep(info, Put(d, i, pc), i, Proceed) == Put(d', i, pc')
  {
  }

  lemma NextIs(info: Identity, d: Device, i: nat, kind: Kind, pc: Pc)
    requires Goes(d, i, kind, pc)
    ensures var (d', pc') := Next(d, i, kind, pc); AdvanceStep(info, Put(d, i, pc), i, Proceed) == Put(d', i, pc')
  {
    if pc.Entry? || pc.LookUp? || pc.Connecting? || pc.Holding? {
      EarlyNextIs(info, d, i, kind, pc);
    }
  }

  lemma EpisodeSnoc(info: Identity, pre: seq<Action>, post: seq<Action>, a: Action)
    requires Episode(info, pre, post) && InEpisode(Run(info, pre + post), a)
    ensures Episode(info, pre, post + [a])
  {
    assert (post + [a])[..|post|] == post;
  }

  lemma RunMore(info: Identity, pre: seq<Action>, post: seq<Action>, a: Action)
    ensures Run(info, pre + (post + [a])) == Step(info, Run(info, pre + post), a)
  {
    RunLast(info, pre, post + [a]);
    assert (post + [a])[..|post|] == post;
  }

  /** A curtail's steps stay in an episode. */
  lemma Move(info: Identity, pre: seq<Action>, post: seq<Action>, d: Device, i: nat, kind: Kind, pc: Pc)
    returns (post': seq<Action>)
    requires Goes(d, i, kind, pc) && Run(info, pre + post) == Put(d, i, pc)
    ensures var (d', pc') := Next(d, i, kind, pc); i < |d'.ops| && Run(info, pre + post') == Put(d', i, pc')
    ensures kind == Curtail && Episode(info, pre, post) ==> Episode(info, pre, post')
  {
    post' := post + [Advance(i, Proceed)];
    RunMore(info, pre, post, Advance(i, Proceed));
    NextIs(info, d, i, kind, pc);
    if kind == Curtail && Episode(info, pre, post) {
      EpisodeSnoc(info, pre, post, Advance(i, Proceed));
    }
  }

  function Iterate(d: Device, i: nat, kind: Kind, pc: Pc, n: nat): (Device, Pc)
  {
    if n == 0 then (d, pc)
    else
      var (d', pc') := Iterate(d, i, kind, pc, n - 1);
      Next(d', i, kind, pc')
  }

  predicate GoesOn(d: Device, i: nat, kind: Kind, pc: Pc, n: nat)
  {
    n > 0 ==>
      && GoesOn(d, i, kind, pc, n - 1)
      && Goes(Iterate(d, i, kind, pc, n - 1).0, i, kind, Iterate(d, i, kind, pc, n - 1).1)
  }

  lemma {:induction false} Steps(info: Identity, pre: seq<Action>, post: seq<Action>, d: Device, i: nat, kind: Kind, pc: Pc,
                                 n: nat) returns (post': seq<Action>)
    requires i < |d.ops| && GoesOn(d, i, kind, pc, n) && Run(info, pre + post) == Put(d, i, pc)
    ensures var (d', pc') := Iterate(d, i, kind, pc, n); i < |d'.ops| && Run(info, pre + post') == Put(d', i, pc')
    ensures kind == Curtail && Episode(info, pre, post) ==> Episode(info, pre, post')
  {
    if n == 0 {
      post' := post;
    } else {
      post' := Steps(info, pre, post, d, i, kind, pc, n - 1);
      post' := Move(info, pre, post', Iterate(d, i, kind, pc, n - 1).0, i, kind, Iterate(d, i, kind, pc, n - 1).1);
    }
  }

  // ----- a curtail up to its pause, and from there -----

  /** Curtail i has sampled the miner and paused it; the record is still to be made. */
  function Paused(d: Device, i: nat): Device
    requires i < |d.ops|
  {
    var s, e := Sample(d.epoch, d.mining), d.epoch + 1;
    Put(d.(cache := Some(s), epoch := e, mining := false, top := e), i, Released(e, s))
  }

  lemma SixSteps(d: Device, i: nat)
    requires Goes(d, i, Curtail, Entry) && d.holder.None? && d.slot.Some?
    ensures var s := Sample(d.epoch, d.mining);
            && GoesOn(d, i, Curtail, Entry, 6)
            && Iterate(d, i, Curtail, Entry, 6) == (d.(cache := Some(s)), Connecting(Command(s)))
  {
    var s, d0 := Sample(d.epoch, d.mining), d.(cache := None);
    var d1 := d0.(holder := Some(i));
    assert Iterate(d, i, Curtail, Entry, 1) == (d0, LookUp) && GoesOn(d, i, Curtail, Entry, 1);
    assert Iterate(d, i, Curtail, Entry, 2) == (d0, Connecting(Telemetry)) && GoesOn(d, i, Curtail, Entry, 2);
    assert Iterate(d, i, Curtail, Entry, 3) == (d1, Holding(Telemetry)) && GoesOn(d, i, Curtail, Entry, 3);
    assert Iterate(d, i, Curtail, Entry, 4) == (d1, Sampled(s)) && GoesOn(d, i, Curtail, Entry, 4);
    assert Iterate(d, i, Curtail, Entry, 5) == (d1.(cache := Some(s)), Cached(s)) && GoesOn(d, i, Curtail, Entry, 5);
  }

  /** A command from the free connection to its release. */
  lemma CommandSteps(d: Device, i: nat, kind: Kind, s: Sample)
    requires Goes(d, i, kind, Connecting(Command(s)))
    ensures var pc, e := Connecting(Command(s)), d.epoch + 1;
            && GoesOn(d, i, kind, pc, 3)
            && Iterate(d, i, kind, pc, 3) == (d.(epoch := e, mining := Target(kind), top := e), Released(e, s))
  {
    var pc, e, d1 := Connecting(Command(s)), d.epoch + 1, d.(holder := Some(i));
    var d2 := d1.(epoch := e, mining := Target(kind), top := e);
    assert Iterate(d, i, kind, pc, 1) == (d1, Holding(Command(s))) && GoesOn(d, i, kind, pc, 1);
    assert Iterate(d, i, kind, pc, 2) == (d2, Effective(e, s)) && GoesOn(d, i, kind, pc, 2);
  }

  /** Operation i, at the free connection, sends its command. */
  function Commanded(d: Device, i: nat, kind: Kind, s: Sample): Device
    requires i < |d.ops|
  {
    var e := d.epoch + 1;
    Put(d.(epoch := e, mining := Target(kind), top := e), i, Released(e, s))
  }

  lemma RunCommanded(info: Identity, pre: seq<Action>, post: seq<Action>, d: Device, i: nat, kind: Kind, s: Sample)
    returns (post': seq<Action>)
    requires Goes(d, i, kind, Connecting(Command(s))) && Run(info, pre + post) == Put(d, i, Connecting(Command(s)))
    ensures Run(info, pre + post') == Commanded(d, i, kind, s)
    ensures kind == Curtail && Episode(info, pre, post) ==> Episode(info, pre, post')
  {
    CommandSteps(d, i, kind, s);
    post' := Steps(info, pre, post, d, i, kind, Connecting(Command(s)), 3);
  }

  lemma RunSampled(info: Identity, pre: seq<Action>, post: seq<Action>, d: Device, i: nat) returns (post': seq<Action>)
    requires Goes(d, i, Curtail, Entry) && d.ops[i].pc.Entry? && d.holder.None? && d.slot.Some?
    requires Run(info, pre + post) == d
    ensures var s := Sample(d.epoch, d.mining);
            Run(info, pre + post') == Put(d.(cache := Some(s)), i, Connecting(Command(s)))
    ensures Episode(info, pre, post) ==> Episode(info, pre, post')
  {
    assert Put(d, i, Entry) == d;
    SixSteps(d, i);
    post' := Steps(info, pre, post, d, i, Curtail, Entry, 6);
  }

  /** Curtail i runs up to its pause. */
  lemma RunPaused(info: Identity, pre: seq<Action>, post: seq<Action>, d: Device, i: nat) returns (post': seq<Action>)
    requires Goes(d, i, Curtail, Entry) && d.ops[i].pc.Entry? && d.holder.None? && d.slot.Some?
    requires Run(info, pre + post) == d
    ensures Run(info, pre + post') == Paused(d, i)
    ensures Episode(info, pre, post) ==> Episode(info, pre, post')
  {
    var s := Sample(d.epoch, d.mining);
    post' := RunSampled(info, pre, post, d, i);
    post' := RunCommanded(info, pre, post', d.(cache := Some(s)), i, Curtail, s);
  }

  /** Operation i has made or cleared the record, cleared the cache and returned. */
  function Returned(d: Device, i: nat): Device
    requires i < |d.ops| && d.ops[i].pc.Released?
  {
    var op := d.ops[i];
    var e := op.pc.effect;
    var noted := Note(d, op.kind, op.pc.seen);
    Put(noted.(cache := None, committed := if e > d.committed then e else d.committed), i, Succeeded(e))
  }

  lemma ThreeSteps(d: Device, i: nat, kind: Kind, pc: Pc)
    requires Goes(d, i, kind, pc) && pc.Released? && d.ops[i].pc == pc
    ensures GoesOn(d, i, kind, pc, 3) && Put(Iterate(d, i, kind, pc, 3).0, i, Iterate(d, i, kind, pc, 3).1) == Returned(d, i)
  {
    var n := Note(d, kind, pc.seen);
    assert Iterate(d, i, kind, pc, 1) == (n, Noted(pc.effect)) && GoesOn(d, i, kind, pc, 1);
    assert Iterate(d, i, kind, pc, 2) == (n.(cache := None), Cleared(pc.effect)) && GoesOn(d, i, kind, pc, 2);
  }

  lemma RunReturned(info: Identity, pre: seq<Action>, post: seq<Action>, d: Device, i: nat) returns (post': seq<Action>)
    requires i < |d.ops| && d.ops[i].pc.Released? && Run(info, pre + post) == d
    ensures Run(info, pre + post') == Returned(d, i)
    ensures d.ops[i].kind == Curtail && Episode(info, pre, post) ==> Episode(info, pre, post')
  {
    var kind, pc := d.ops[i].kind, d.ops[i].pc;
    assert Put(d, i, pc) == d;
    ThreeSteps(d, i, kind, pc);
    post' := Steps(info, pre, post, d, i, kind, pc, 3);
  }

  // ----- a quiet device with a connection -----

  lemma Then(info: Identity, acts: seq<Action>, a: Action) returns (acts': seq<Action>)
    ensures Run(info, acts') == Step(info, Run(info, acts), a)
  {
    acts' := acts + [a];
    RunSnoc(info, acts, a);
  }

  lemma ReadSteps(d: Device, mining: bool)
    requires d == Change(NEW_DEVICE, mining).(ops := [Op(Read, Entry, 0)])
    ensures GoesOn(d, 0, Read, Entry, 2) && Iterate(d, 0, Read, Entry, 2) == (d, Connecting(Telemetry))
  {
    assert Iterate(d, 0, Read, Entry, 1) == (d, LookUp) && GoesOn(d, 0, Read, Entry, 1);
  }

  lemma AnswerSteps(d: Device)
    requires Goes(d, 0, Read, Connecting(Telemetry))
    ensures var s, pc := Sample(d.epoch, d.mining), Connecting(Telemetry);
            GoesOn(d, 0, Read, pc, 4) && Iterate(d, 0, Read, pc, 4) == (d.(cache := Some(s)), Answered(s))
  {
    var s, pc, d1 := Sample(d.epoch, d.mining), Connecting(Telemetry), d.(holder := Some(0));
    assert Iterate(d, 0, Read, pc, 1) == (d1, Holding(Telemetry)) && GoesOn(d, 0, Read, pc, 1);
    assert Iterate(d, 0, Read, pc, 2) == (d1, Sampled(s)) && GoesOn(d, 0, Read, pc, 2);
    assert Iterate(d, 0, Read, pc, 3) == (d1.(cache := Some(s)), Cached(s)) && GoesOn(d, 0, Read, pc, 3);
  }

  ghost predicate Ready(d: Device, mining: bool)
  {
    Quiet(d) && d.holder.None? && d.slot.Some? && d.snapshot == Unknown && d.noted.None? && d.mining == mining
  }

  /** A read on a new device makes the connection and returns. */
  lemma Connects(info: Identity, answer: Identity, mining: bool) returns (acts: seq<Action>)
    requires Allowed(info, answer)
    ensures Ready(Run(info, acts), mining)
  {
    var d := Change(NEW_DEVICE, mining).(ops := [Op(Read, Entry, 0)]);
    acts := Then(info, [], Disturb(mining));
    acts := Then(info, acts, Call(Read));
    assert Run(info, acts) == d == Put(d, 0, Entry) && acts + [] == acts;
    ReadSteps(d, mining);
    var more := Steps(info, acts, [], d, 0, Read, Entry, 2);
    acts := Then(info, acts + more, Advance(0, Give(answer)));
    acts := ReadAnswers(info, acts, d.(slot := Some(answer)));
  }

  lemma ReadAnswers(info: Identity, acts: seq<Action>, d: Device) returns (acts': seq<Action>)
    requires Goes(d, 0, Read, Connecting(Telemetry)) && |d.ops| == 1 && d.snapshot == Unknown && d.noted.None?
    requires Run(info, acts) == Put(d, 0, Connecting(Telemetry))
    ensures Ready(Run(info, acts'), d.mining)
  {
    assert acts + [] == acts;
    AnswerSteps(d);
    var more := Steps(info, acts, [], d, 0, Read, Connecting(Telemetry), 4);
    acts' := acts + more;
  }

  function Called(d: Device, kind: Kind): Device
  {
    d.(ops := d.ops + [Op(kind, Entry, d.committed)])
  }

  // ----- two curtails that overlap -----

  /** The second of two curtails overtakes the first. */
  lemma Overtakes(info: Identity, pre: seq<Action>, post: seq<Action>, d: Device, i: nat, j: nat)
    returns (post': seq<Action>)
    requires Goes(d, i, Curtail, Entry) && Goes(d, j, Curtail, Entry) && i != j && d.holder.None? && d.slot.Some?
    requires d.ops[i].pc.Entry? && d.ops[j].pc.Entry? && Episode(info, pre, post) && Run(info, pre + post) == d
    ensures Episode(info, pre, post')
    ensures Run(info, pre + post') == Returned(Returned(Paused(Paused(d, i), j), j), i)
  {
    post' := RunPaused(info, pre, post, d, i);
    post' := RunPaused(info, pre, post', Paused(d, i), j);
    post' := RunReturned(info, pre, post', Paused(Paused(d, i), j), j);
    post' := RunReturned(info, pre, post', Returned(Paused(Paused(d, i), j), j), i);
  }

  ghost predicate BothReturned(d: Device, d': Device)
  {
    && Quiet(d') && |d'.ops| == |d.ops| + 2
    && d'.ops[|d.ops|].pc.Succeeded? && d'.ops[|d.ops| + 1].pc.Succeeded?
  }

  lemma OvertakenIs(d: Device, mining: bool)
    requires Ready(d, mining)
    ensures var i, j := |d.ops|, |d.ops| + 1;
            var d' := Returned(Returned(Paused(Paused(Called(Called(d, Curtail), Curtail), i), j), j), i);
            BothReturned(d, d') && d'.snapshot == WasNotMining && !d'.mining
  {
  }

  /** The calls of two curtails. */
  lemma CallsBoth(info: Identity, pre: seq<Action>) returns (post: seq<Action>)
    ensures Episode(info, pre, post) && Run(info, pre + post) == Called(Called(Run(info, pre), Curtail), Curtail)
  {
    post := [Call(Curtail)];
    assert pre + [] == pre && [] + post == post;
    RunMore(info, pre, [], Call(Curtail));
    EpisodeSnoc(info, pre, [], Call(Curtail));
    RunMore(info, pre, post, Call(Curtail));
    EpisodeSnoc(info, pre, post, Call(Curtail));
    post := post + [Call(Curtail)];
  }

  /** From a new device: a run to a quiet device that mines, and an episode of two overlapping
      curtails that both succeed and record that it was idle. */
  lemma OverlappingCurtailsForget(info: Identity, answer: Identity) returns (pre: seq<Action>, post: seq<Action>)
    requires Allowed(info, answer)
    ensures Ready(Run(info, pre), true) && Episode(info, pre, post)
    ensures var d' := Run(info, pre + post);
            BothReturned(Run(info, pre), d') && d'.snapshot == WasNotMining && !d'.mining
  {
    pre := Connects(info, answer, true);
    post := CallsBoth(info, pre);
    var d := Run(info, pre);
    post := Overtakes(info, pre, post, Called(Called(d, Curtail), Curtail), |d.ops|, |d.ops| + 1);
    OvertakenIs(d, true);
  }

  // ----- an uncurtail that overlaps a curtail -----

  /** Uncurtail u has found nothing on record and resumed the miner; the clearing is still to come. */
  function Resumed(d: Device, u: nat): Device
    requires u < |d.ops|
  {
    var e := d.epoch + 1;
    Put(d.(epoch := e, mining := true, top := e), u, Released(e, NOTHING))
  }

  lemma RunResumed(info: Identity, acts: seq<Action>, d: Device, u: nat) returns (acts': seq<Action>)
    requires Goes(d, u, Uncurtail, Entry) && d.ops[u].pc.Entry? && d.holder.None? && d.slot.Some? && d.snapshot == Unknown
    requires Run(info, acts) == d
    ensures Run(info, acts') == Resumed(d, u)
  {
    assert Put(d, u, Entry) == d && acts + [] == acts;
    var more := Move(info, acts, [], d, u, Uncurtail, Entry);
    more := RunCommanded(info, acts, more, d, u, Uncurtail, NOTHING);
    acts' := acts + more;
  }

  function Overlapped(d: Device): Device
  {
    var i, u := |d.ops|, |d.ops| + 1;
    Returned(Returned(Resumed(Called(Paused(Called(d, Curtail), i), Uncurtail), u), u), i)
  }

  lemma OverlappedIs(d: Device)
    requires Ready(d, false)
    ensures BothReturned(d, Overlapped(d)) && Overlapped(d).mining && Overlapped(d).snapshot == WasNotMining
  {
  }

  lemma RunOverlap(info: Identity, acts: seq<Action>, d: Device) returns (acts': seq<Action>)
    requires Ready(d, false) && Run(info, acts) == d
    ensures Run(info, acts') == Called(Paused(Called(d, Curtail), |d.ops|), Uncurtail)
  {
    acts' := Then(info, acts, Call(Curtail));
    assert acts' + [] == acts';
    var more := RunPaused(info, acts', [], Called(d, Curtail), |d.ops|);
    acts' := Then(info, acts' + more, Call(Uncurtail));
  }

  lemma RunOverlapped(info: Identity, acts: seq<Action>, d: Device) returns (acts': seq<Action>)
    requires Ready(d, false) && Run(info, acts) == d
    ensures Run(info, acts') == Overlapped(d)
  {
    var i, u := |d.ops|, |d.ops| + 1;
    var d2 := Called(Paused(Called(d, Curtail), i), Uncurtail);
    acts' := RunOverlap(info, acts, d);
    acts' := RunResumed(info, acts', d2, u);
    assert acts' + [] == acts';
    var more := RunReturned(info, acts', [], Resumed(d2, u), u);
    more := RunReturned(info, acts', more, Returned(Resumed(d2, u), u), i);
    acts' := acts' + more;
  }

  /** From a new device: a curtail of an idle miner pauses it, an uncurtail resumes it, clears the
      record and returns, and then the curtail records that it was idle and returns. The device is
      quiet, the miner mines, and the record says idle. */
  lemma RecordOutlivesUncurtail(info: Identity, answer: Identity) returns (acts: seq<Action>)
    requires Allowed(info, answer)
    ensures var d := Run(info, acts);
            && Quiet(d) && d.mining && d.snapshot == WasNotMining && |d.ops| > 1
            && d.ops[|d.ops| - 2].kind == Curtail && d.ops[|d.ops| - 2].pc.Succeeded?
            && d.ops[|d.ops| - 1].kind == Uncurtail && d.ops[|d.ops| - 1].pc.Succeeded?
  {
    acts := Connects(info, answer, false);
    var d := Run(info, acts);
    acts := RunOverlapped(info, acts, d);
    OverlappedIs(d);
    OverlappedKinds(d);
  }

  lemma OverlappedKinds(d: Device)
    ensures var ops := Overlapped(d).ops;
            |ops| == |d.ops| + 2 && ops[|d.ops|].kind == Curtail && ops[|d.ops| + 1].kind == Uncurtail
  {
  }

  // ----- a curtail that runs alone -----

  /** Where curtail i is, alone on a device that was d0, as far as the whole operation knows. */
  predicate CurtailsAlone(m: Curtailment.Miner, now: Curtailment.Miner, pc: Pc)
  {
    var blank, read := m.(cache := None), m.(cache := Some(m.mining));
    match pc
    case Entry => now == m
    case LookUp => now == blank
    case Connecting(Telemetry) => now == blank
    case Holding(Telemetry) => now == blank
    case Sampled(s) => now == blank && s.mining == m.mining
    case Cached(s) => now == read && s.mining == m.mining
    case Connecting(Command(s)) => now == read && s.mining == m.mining
    case Holding(Command(s)) => now == read && s.mining == m.mining
    case Dropping => now == blank
    case Dropped => now == blank
    case Effective(_, s) => now == read.(mining := false) && s.mining == m.mining
    case Released(_, s) => now == read.(mining := false) && s.mining == m.mining
    case Noted(_) => now == read.(mining := false, snapshot := Recorded(m.snapshot, m.mining))
    case Cleared(_) => now == Curtailment.CurtailFull(m, Curtailment.Answers, Curtailment.Done).0
    case Succeeded(_) => now == Curtailment.CurtailFull(m, Curtailment.Answers, Curtailment.Done).0
    case Failed => now == blank || now == read || now == read.(mining := false)
    case _ => false
  }

  lemma AloneEarly(info: Identity, m: Curtailment.Miner, d: Device, i: nat, c: Choice)
    requires i < |d.ops| && d.ops[i].kind == Curtail && CurtailsAlone(m, Alone(d), d.ops[i].pc)
    requires var pc := d.ops[i].pc; pc.Entry? || pc.LookUp? || pc.Connecting? || pc.Holding?
    ensures var d' := AdvanceStep(info, d, i, c);
            i < |d'.ops| && d'.ops[i].kind == Curtail && CurtailsAlone(m, Alone(d'), d'.ops[i].pc)
  {
  }

  lemma AloneStep(info: Identity, m: Curtailment.Miner, d: Device, i: nat, c: Choice)
    requires i < |d.ops| && d.ops[i].kind == Curtail && CurtailsAlone(m, Alone(d), d.ops[i].pc)
    ensures var d' := AdvanceStep(info, d, i, c);
            i < |d'.ops| && d'.ops[i].kind == Curtail && CurtailsAlone(m, Alone(d'), d'.ops[i].pc)
  {
    var pc := d.ops[i].pc;
    if pc.Entry? || pc.LookUp? || pc.Connecting? || pc.Holding? {
      AloneEarly(info, m, d, i, c);
    }
  }

  lemma {:induction false} AloneRun(info: Identity, acts: seq<Action>, more: seq<Action>, i: nat)
    requires i < |Run(info, acts).ops| && Run(info, acts).ops[i].kind == Curtail && Run(info, acts).ops[i].pc.Entry?
    requires forall k :: 0 <= k < |more| ==> more[k].Advance? && more[k].op == i
    ensures var m, d := Alone(Run(info, acts)), Run(info, acts + more);
            i < |d.ops| && d.ops[i].kind == Curtail && CurtailsAlone(m, Alone(d), d.ops[i].pc)
    decreases |more|
  {
    if more == [] {
      assert acts + more == acts;
    } else {
      AloneRun(info, acts, more[..|more| - 1], i);
      RunLast(info, acts, more);
      AloneStep(info, Alone(Run(info, acts)), Run(info, acts + more[..|more| - 1]), i, more[|more| - 1].choice);
    }
  }

  /** However its steps turn out, a curtail that runs alone and returns has done what the whole
      operation does for some contact and some reply. */
  lemma {:induction false} CurtailAlone(info: Identity, acts: seq<Action>, more: seq<Action>, i: nat)
    returns (contact: Curtailment.Contact, reply: Curtailment.Reply)
    requires i < |Run(info, acts).ops| && Run(info, acts).ops[i].kind == Curtail && Run(info, acts).ops[i].pc.Entry?
    requires forall k :: 0 <= k < |more| ==> more[k].Advance? && more[k].op == i
    requires i < |Run(info, acts + more).ops| && Over(Run(info, acts + more).ops[i].pc)
    ensures var d := Run(info, acts + more);
            (Alone(d), d.ops[i].pc.Succeeded?) == Curtailment.CurtailFull(Alone(Run(info, acts)), contact, reply)
  {
    AloneRun(info, acts, more, i);
    var m, d := Alone(Run(info, acts)), Run(info, acts + more);
    contact, reply := Curtailment.Answers, Curtailment.Done;
    if d.ops[i].pc.Failed? {
      reply := Curtailment.Fails(Alone(d) != m.(cache := Some(m.mining)));
      if Alone(d) == m.(cache := None) {
        contact := Curtailment.Silent;
      }
    }
  }

  // ----- and every outcome happens -----

  lemma StepsThen(info: Identity, acts: seq<Action>, d: Device, i: nat, pc: Pc, n: nat, c: Choice)
    returns (acts': seq<Action>)
    requires i < |d.ops| && GoesOn(d, i, Curtail, pc, n) && Run(info, acts) == Put(d, i, pc)
    ensures var (d', pc') := Iterate(d, i, Curtail, pc, n);
            i < |d'.ops| && Run(info, acts') == AdvanceStep(info, Put(d', i, pc'), i, c)
  {
    assert acts + [] == acts;
    var more := Steps(info, acts, [], d, i, Curtail, pc, n);
    acts' := Then(info, acts + more, Advance(i, c));
  }

  ghost predicate Ends(info: Identity, acts: seq<Action>, i: nat, now: Curtailment.Miner, ok: bool)
  {
    var d := Run(info, acts);
    i < |d.ops| && Over(d.ops[i].pc) && d.ops[i].pc.Succeeded? == ok && Alone(d) == now
  }

  predicate Starts(d: Device, i: nat)
  {
    Goes(d, i, Curtail, Entry) && d.ops[i].pc.Entry? && d.holder.None? && d.slot.Some?
  }

  lemma FewSteps(d: Device, i: nat)
    requires Starts(d, i)
    ensures GoesOn(d, i, Curtail, Entry, 3)
    ensures Iterate(d, i, Curtail, Entry, 2) == (d.(cache := None), Connecting(Telemetry))
    ensures Iterate(d, i, Curtail, Entry, 3) == (d.(cache := None, holder := Some(i)), Holding(Telemetry))
  {
    assert Iterate(d, i, Curtail, Entry, 1) == (d.(cache := None), LookUp) && GoesOn(d, i, Curtail, Entry, 1);
    assert GoesOn(d, i, Curtail, Entry, 2);
  }

  lemma EndsUnreachable(info: Identity, acts: seq<Action>, d: Device, i: nat) returns (acts': seq<Action>)
    requires Starts(d, i) && Run(info, acts) == d
    ensures Ends(info, acts', i, Alone(d).(cache := None), false)
  {
    assert Put(d, i, Entry) == d;
    FewSteps(d, i);
    acts' := StepsThen(info, acts, d, i, Entry, 2, Fail(false));
  }

  lemma EndsSilent(info: Identity, acts: seq<Action>, d: Device, i: nat) returns (acts': seq<Action>)
    requires Starts(d, i) && Run(info, acts) == d
    ensures Ends(info, acts', i, Alone(d).(cache := None), false)
  {
    assert Put(d, i, Entry) == d;
    FewSteps(d, i);
    acts' := StepsThen(info, acts, d, i, Entry, 3, Fail(false));
    var blank := d.(cache := None);
    assert Run(info, acts') == Put(blank, i, Dropping);
    acts' := Then(info, acts', Advance(i, Proceed));
    assert Run(info, acts') == Put(blank.(slot := None), i, Dropped);
    acts' := Then(info, acts', Advance(i, Proceed));
  }

  lemma EndsRefused(info: Identity, acts: seq<Action>, d: Device, i: nat, effect: bool) returns (acts': seq<Action>)
    requires Starts(d, i) && Run(info, acts) == d
    ensures var read := Alone(d).(cache := Some(d.mining));
            Ends(info, acts', i, if effect then read.(mining := false) else read, false)
  {
    var s := Sample(d.epoch, d.mining);
    var d1 := d.(cache := Some(s));
    assert acts + [] == acts;
    var more := RunSampled(info, acts, [], d, i);
    more := Move(info, acts, more, d1, i, Curtail, Connecting(Command(s)));
    RefusedIs(info, d1.(holder := Some(i)), i, s, effect);
    acts' := Then(info, acts + more, Advance(i, Fail(effect)));
  }

  lemma RefusedIs(info: Identity, d: Device, i: nat, s: Sample, effect: bool)
    requires i < |d.ops| && d.ops[i].kind == Curtail
    ensures var d' := AdvanceStep(info, Put(d, i, Holding(Command(s))), i, Fail(effect));
            && i < |d'.ops| && d'.ops[i].pc.Failed?
            && Alone(d') == if effect then Alone(d).(mining := false) else Alone(d)
  {
  }

  lemma EndsDone(info: Identity, acts: seq<Action>, d: Device, i: nat) returns (acts': seq<Action>)
    requires Starts(d, i) && Run(info, acts) == d
    ensures Ends(info, acts', i, Curtailment.CurtailFull(Alone(d), Curtailment.Answers, Curtailment.Done).0, true)
  {
    assert acts + [] == acts;
    var more := RunPaused(info, acts, [], d, i);
    more := RunReturned(info, acts, more, Paused(d, i), i);
    acts' := acts + more;
  }

  /** Conversely each contact and reply is what some run of the curtail alone does. */
  lemma CurtailReaches(info: Identity, acts: seq<Action>, i: nat, contact: Curtailment.Contact, reply: Curtailment.Reply)
    returns (acts': seq<Action>)
    requires Starts(Run(info, acts), i)
    ensures var (m, ok) := Curtailment.CurtailFull(Alone(Run(info, acts)), contact, reply); Ends(info, acts', i, m, ok)
  {
    var d := Run(info, acts);
    if contact == Curtailment.Unreachable {
      acts' := EndsUnreachable(info, acts, d, i);
    } else if contact == Curtailment.Silent {
      acts' := EndsSilent(info, acts, d, i);
    } else if reply == Curtailment.Done {
      acts' := EndsDone(info, acts, d, i);
    } else {
      acts' := EndsRefused(info, acts, d, i, reply.effect);
    }
  }
}
