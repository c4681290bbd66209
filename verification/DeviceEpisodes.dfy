/** What a full curtailment records when operations interleave in any order: exactly when the
    miner is put back as it was. */
module DeviceEpisodes {
  import opened Wrappers
  import opened Identity
  import opened Snapshots
  import opened DeviceRuns

  // ----- an episode -----

  ghost predicate Quiet(d: Device)
  {
    forall i :: 0 <= i < |d.ops| ==> Over(d.ops[i].pc)
  }

  predicate OpIs(d: Device, i: nat, kind: Kind)
  {
    i < |d.ops| && d.ops[i].kind == kind
  }

  /** The operation is about to send its command, and the command takes effect. */
  predicate Commands(d: Device, a: Action)
  {
    match a
    case Advance(i, c) => i < |d.ops| && d.ops[i].pc.Holding? && d.ops[i].pc.goal.Command? && (!c.Fail? || c.effect)
    case Cancel(i, effect) => i < |d.ops| && d.ops[i].pc.Holding? && d.ops[i].pc.goal.Command? && effect
    case _ => false
  }

  /** Reads, curtails and uncurtails, with whatever fails or is dropped; but no uncurtail reaches
      the miner or clears the record, and nothing else changes the miner. */
  predicate InEpisode(d: Device, a: Action)
  {
    match a
    case Call(kind) => kind != Start && kind != Stop
    case Advance(i, _) => OpIs(d, i, Uncurtail) ==> !Commands(d, a) && !d.ops[i].pc.Skipping?
    case Cancel(i, _) => OpIs(d, i, Uncurtail) ==> !Commands(d, a)
    case Disturb(_) => false
    case Close => true
  }

  ghost predicate Episode(info: Identity, pre: seq<Action>, post: seq<Action>)
    decreases |post|
  {
    post != [] ==>
      var before := post[..|post| - 1];
      Episode(info, pre, before) && InEpisode(Run(info, pre + before), post[|post| - 1])
  }

  /** An operation takes a sample of the miner. */
  predicate TakesSample(d: Device, a: Action)
  {
    a.Advance? && a.op < |d.ops| && d.ops[a.op].pc == Holding(Telemetry) && !a.choice.Fail?
  }

  ghost function TakenAfter(d: Device, a: Action, taken: set<Sample>): set<Sample>
  {
    if TakesSample(d, a) then taken + {Sample(d.epoch, d.mining)} else taken
  }

  /** The samples taken in an episode. */
  ghost function Samples(info: Identity, pre: seq<Action>, post: seq<Action>): set<Sample>
    decreases |post|
  {
    if post == [] then {}
    else
      var before := post[..|post| - 1];
      TakenAfter(Run(info, pre + before), post[|post| - 1], Samples(info, pre, before))
  }

  /** How many pauses have taken effect in an episode. */
  ghost function Pauses(info: Identity, pre: seq<Action>, post: seq<Action>): nat
    decreases |post|
  {
    if post == [] then 0
    else
      var before := post[..|post| - 1];
      Pauses(info, pre, before) + if Commands(Run(info, pre + before), post[|post| - 1]) then 1 else 0
  }

  // ----- the invariant of an episode -----

  /** The miner mined when the episode began, or not, and its first pause is for good. */
  predicate Fits(d0: Device, epoch: nat, mining: bool)
  {
    d0.epoch <= epoch && mining == (d0.mining && epoch == d0.epoch)
  }

  ghost predicate AllFit(d0: Device, d: Device, taken: set<Sample>)
  {
    forall s :: s in taken ==> Fits(d0, s.epoch, s.mining) && s.epoch <= d.epoch
  }

  ghost predicate OpFits(d0: Device, d: Device, taken: set<Sample>, op: Op)
  {
    && op.kind != Start && op.kind != Stop
    && (op.kind == Curtail && !op.pc.Entry? && !Over(op.pc) && d.cache.Some? ==> d.cache.value in taken)
    && match op.pc
       case Sampled(s) => s in taken
       case Cached(s) => s in taken
       case Connecting(Command(s)) => op.kind != Read && (op.kind == Curtail ==> s in taken)
       case Holding(Command(s)) => op.kind != Read && (op.kind == Curtail ==> s in taken)
       case Effective(_, s) => op.kind == Curtail && s in taken && d.epoch > d0.epoch
       case Released(_, s) => op.kind == Curtail && s in taken && d.epoch > d0.epoch
       case Noted(_) => op.kind == Curtail
       case Cleared(_) => op.kind == Curtail
       case LookUp => op.kind != Uncurtail
       case SkipNoted => false
       case Skipping => op.kind == Uncurtail
       case _ => true
  }

  ghost predicate EpisodeInv(d0: Device, d: Device, taken: set<Sample>)
  {
    && |d0.ops| <= |d.ops| && (forall i :: 0 <= i < |d0.ops| ==> Over(d.ops[i].pc))
    && (forall i :: |d0.ops| <= i < |d.ops| ==> OpFits(d0, d, taken, d.ops[i]))
    && Fits(d0, d.epoch, d.mining) && AllFit(d0, d, taken)
    && d.snapshot == SnapshotOf(d.noted)
    && (d0.noted.Some? ==> d.noted == d0.noted)
    && (d0.noted.None? && d.noted.Some? ==> d.noted.value in taken && d.epoch > d0.epoch)
  }

  // ----- steps keep it -----

  lemma FitsPut(d0: Device, d: Device, taken: set<Sample>, i: nat, pc: Pc)
    requires EpisodeInv(d0, d, taken) && |d0.ops| <= i < |d.ops| && OpFits(d0, d, taken, d.ops[i].(pc := pc))
    ensures EpisodeInv(d0, Put(d, i, pc), taken)
  {
  }

  /** The slot, its lock, the cache and what is committed may change around the operations. */
  lemma FitsAround(d0: Device, d: Device, d': Device, taken: set<Sample>)
    requires EpisodeInv(d0, d, taken) && d'.ops == d.ops && d'.epoch == d.epoch && d'.mining == d.mining
    requires d'.snapshot == d.snapshot && d'.noted == d.noted
    requires d'.cache == d.cache || d'.cache.None? || d'.cache.value in taken
    ensures EpisodeInv(d0, d', taken)
  {
  }

  lemma FitsChange(d0: Device, d: Device, taken: set<Sample>)
    requires EpisodeInv(d0, d, taken)
    ensures EpisodeInv(d0, Change(d, false), taken) && Change(d, false).epoch > d0.epoch
  {
  }

  lemma FitsTaken(d0: Device, d: Device, taken: set<Sample>)
    requires EpisodeInv(d0, d, taken)
    ensures EpisodeInv(d0, d, taken + {Sample(d.epoch, d.mining)})
  {
    var more := taken + {Sample(d.epoch, d.mining)};
    forall i | |d0.ops| <= i < |d.ops|
      ensures OpFits(d0, d, more, d.ops[i])
    {
      assert OpFits(d0, d, taken, d.ops[i]);
    }
  }

  lemma FitsEntry(d0: Device, d: Device, taken: set<Sample>, i: nat)
    requires EpisodeInv(d0, d, taken) && |d0.ops| <= i < |d.ops| && d.ops[i].pc.Entry?
    ensures EpisodeInv(d0, EntryStep(d, i), taken)
  {
    var d' := if d.ops[i].kind == Curtail then d.(cache := None) else d;
    assert OpFits(d0, d, taken, d.ops[i]);
    FitsAround(d0, d, d', taken);
    FitsPut(d0, d', taken, i, EntryStep(d, i).ops[i].pc);
  }

  lemma FitsLookUp(d0: Device, d: Device, taken: set<Sample>, i: nat, c: Choice)
    requires EpisodeInv(d0, d, taken) && |d0.ops| <= i < |d.ops| && d.ops[i].pc.LookUp?
    ensures EpisodeInv(d0, LookUpStep(d, i, c), taken)
  {
    assert OpFits(d0, d, taken, d.ops[i]);
    FitsPut(d0, d, taken, i, LookUpStep(d, i, c).ops[i].pc);
  }

  lemma FitsConnecting(info: Identity, d0: Device, d: Device, taken: set<Sample>, i: nat, c: Choice)
    requires EpisodeInv(d0, d, taken) && |d0.ops| <= i < |d.ops| && d.ops[i].pc.Connecting?
    ensures EpisodeInv(d0, ConnectingStep(info, d, i, d.ops[i].pc.goal, c), taken)
  {
    var d' := ConnectingStep(info, d, i, d.ops[i].pc.goal, c);
    var around := d.(slot := d'.slot, holder := d'.holder);
    assert OpFits(d0, d, taken, d.ops[i]);
    FitsAround(d0, d, around, taken);
    FitsPut(d0, around, taken, i, d'.ops[i].pc);
  }

  lemma FitsReading(d0: Device, d: Device, taken: set<Sample>, i: nat, c: Choice)
    requires EpisodeInv(d0, d, taken) && |d0.ops| <= i < |d.ops| && d.ops[i].pc == Holding(Telemetry)
    ensures EpisodeInv(d0, ReadingStep(d, i, c), if c.Fail? then taken else taken + {Sample(d.epoch, d.mining)})
  {
    assert OpFits(d0, d, taken, d.ops[i]);
    if c.Fail? {
      FitsAround(d0, d, Free(d), taken);
      FitsPut(d0, Free(d), taken, i, Dropping);
    } else {
      FitsTaken(d0, d, taken);
      FitsPut(d0, d, taken + {Sample(d.epoch, d.mining)}, i, Sampled(Sample(d.epoch, d.mining)));
    }
  }

  lemma FitsCommand(d0: Device, d: Device, taken: set<Sample>, i: nat, c: Choice)
    requires EpisodeInv(d0, d, taken) && |d0.ops| <= i < |d.ops| && d.ops[i].pc.Holding? && d.ops[i].pc.goal.Command?
    requires InEpisode(d, Advance(i, c))
    ensures EpisodeInv(d0, CommandStep(d, i, d.ops[i].pc.goal.seen, c), taken)
  {
    assert OpFits(d0, d, taken, d.ops[i]);
    var d1 := if Commands(d, Advance(i, c)) then Change(d, false) else d;
    FitsChange(d0, d, taken);
    var d2 := if c.Fail? then Free(d1) else d1.(top := d1.epoch);
    FitsAround(d0, d1, d2, taken);
    FitsPut(d0, d2, taken, i, CommandStep(d, i, d.ops[i].pc.goal.seen, c).ops[i].pc);
  }

  lemma FitsRead(info: Identity, d0: Device, d: Device, taken: set<Sample>, i: nat)
    requires EpisodeInv(d0, d, taken) && |d0.ops| <= i < |d.ops|
    requires var pc := d.ops[i].pc; pc.Sampled? || pc.Cached? || pc.Dropping? || pc.Dropped?
    ensures EpisodeInv(d0, AdvanceStep(info, d, i, Proceed), taken)
  {
    var d' := AdvanceStep(info, d, i, Proceed);
    var around := d.(slot := d'.slot, holder := d'.holder, cache := d'.cache);
    assert OpFits(d0, d, taken, d.ops[i]);
    FitsAround(d0, d, around, taken);
    FitsPut(d0, around, taken, i, d'.ops[i].pc);
  }

  lemma FitsNoting(d0: Device, d: Device, taken: set<Sample>, i: nat)
    requires EpisodeInv(d0, d, taken) && |d0.ops| <= i < |d.ops| && d.ops[i].pc.Released?
    ensures EpisodeInv(d0, Note(d, d.ops[i].kind, d.ops[i].pc.seen), taken)
  {
    assert OpFits(d0, d, taken, d.ops[i]);
    var d' := Note(d, d.ops[i].kind, d.ops[i].pc.seen);
    forall k | |d0.ops| <= k < |d.ops|
      ensures OpFits(d0, d', taken, d.ops[k])
    {
      assert OpFits(d0, d, taken, d.ops[k]);
    }
  }

  lemma FitsTail(info: Identity, d0: Device, d: Device, taken: set<Sample>, i: nat)
    requires EpisodeInv(d0, d, taken) && |d0.ops| <= i < |d.ops|
    requires var pc := d.ops[i].pc; pc.Effective? || pc.Released? || pc.Noted? || pc.Cleared?
    ensures EpisodeInv(d0, AdvanceStep(info, d, i, Proceed), taken)
  {
    var pc, d' := d.ops[i].pc, AdvanceStep(info, d, i, Proceed);
    assert OpFits(d0, d, taken, d.ops[i]);
    if pc.Released? {
      FitsNoting(d0, d, taken, i);
      FitsPut(d0, Note(d, d.ops[i].kind, pc.seen), taken, i, d'.ops[i].pc);
    } else {
      var around := d.(holder := d'.holder, cache := d'.cache, committed := d'.committed);
      FitsAround(d0, d, around, taken);
      FitsPut(d0, around, taken, i, d'.ops[i].pc);
    }
  }

  /** The steps up to the command. */
  lemma FitsBefore(info: Identity, d0: Device, d: Device, taken: set<Sample>, i: nat, c: Choice)
    requires EpisodeInv(d0, d, taken) && |d0.ops| <= i < |d.ops| && InEpisode(d, Advance(i, c))
    requires var pc := d.ops[i].pc; pc.Entry? || pc.LookUp? || pc.Connecting? || pc.Holding?
    ensures EpisodeInv(d0, AdvanceStep(info, d, i, c), TakenAfter(d, Advance(i, c), taken))
  {
    match d.ops[i].pc
    case Entry => FitsEntry(d0, d, taken, i);
    case LookUp => FitsLookUp(d0, d, taken, i, c);
    case Connecting(_) => FitsConnecting(info, d0, d, taken, i, c);
    case Holding(goal) =>
      if goal == Telemetry {
        FitsReading(d0, d, taken, i, c);
      } else {
        FitsCommand(d0, d, taken, i, c);
      }
  }

  predicate NotAfterRead(pc: Pc)
  {
    Over(pc) || pc.Effective? || pc.Released? || pc.Noted? || pc.Cleared? || pc.Skipping? || pc.SkipNoted?
  }

  lemma FitsAfter(info: Identity, d0: Device, d: Device, taken: set<Sample>, i: nat, c: Choice)
    requires EpisodeInv(d0, d, taken) && |d0.ops| <= i < |d.ops| && InEpisode(d, Advance(i, c))
    requires var pc := d.ops[i].pc; !(pc.Entry? || pc.LookUp? || pc.Connecting? || pc.Holding?)
    ensures EpisodeInv(d0, AdvanceStep(info, d, i, c), taken)
  {
    var pc := d.ops[i].pc;
    assert OpFits(d0, d, taken, d.ops[i]);
    if pc.Effective? || pc.Released? || pc.Noted? || pc.Cleared? {
      FitsTail(info, d0, d, taken, i);
    } else if !NotAfterRead(pc) {
      FitsRead(info, d0, d, taken, i);
    }
  }

  lemma FitsAdvance(info: Identity, d0: Device, d: Device, taken: set<Sample>, i: nat, c: Choice)
    requires EpisodeInv(d0, d, taken) && |d0.ops| <= i < |d.ops| && InEpisode(d, Advance(i, c))
    ensures EpisodeInv(d0, AdvanceStep(info, d, i, c), TakenAfter(d, Advance(i, c), taken))
  {
    var pc := d.ops[i].pc;
    if pc.Entry? || pc.LookUp? || pc.Connecting? || pc.Holding? {
      FitsBefore(info, d0, d, taken, i, c);
    } else {
      FitsAfter(info, d0, d, taken, i, c);
    }
  }

  lemma FitsCancel(d0: Device, d: Device, taken: set<Sample>, i: nat, effect: bool)
    requires EpisodeInv(d0, d, taken) && |d0.ops| <= i < |d.ops| && InEpisode(d, Cancel(i, effect))
    ensures EpisodeInv(d0, CancelStep(d, i, effect), taken)
  {
    assert OpFits(d0, d, taken, d.ops[i]);
    var d1 := if Commands(d, Cancel(i, effect)) then Change(d, false) else d;
    FitsChange(d0, d, taken);
    if !Over(d.ops[i].pc) {
      var d2 := if Holds(d.ops[i].pc) then Free(d1) else d1;
      FitsAround(d0, d1, d2, taken);
      FitsPut(d0, d2, taken, i, Failed);
    }
  }

  lemma FitsCall(d0: Device, d: Device, taken: set<Sample>, kind: Kind)
    requires EpisodeInv(d0, d, taken) && kind != Start && kind != Stop
    ensures EpisodeInv(d0, d.(ops := d.ops + [Op(kind, Entry, d.committed)]), taken)
  {
    var d' := d.(ops := d.ops + [Op(kind, Entry, d.committed)]);
    forall i | |d0.ops| <= i < |d'.ops|
      ensures OpFits(d0, d', taken, d'.ops[i])
    {
      if i < |d.ops| {
        assert OpFits(d0, d, taken, d.ops[i]);
      }
    }
  }

  lemma FitsStep(info: Identity, d0: Device, d: Device, taken: set<Sample>, a: Action)
    requires EpisodeInv(d0, d, taken) && InEpisode(d, a)
    ensures EpisodeInv(d0, Step(info, d, a), TakenAfter(d, a, taken))
  {
    match a
    case Call(kind) => FitsCall(d0, d, taken, kind);
    case Advance(i, c) => if |d0.ops| <= i < |d.ops| { FitsAdvance(info, d0, d, taken, i, c); }
    case Cancel(i, effect) => if |d0.ops| <= i < |d.ops| { FitsCancel(d0, d, taken, i, effect); }
    case Close => FitsAround(d0, d, Step(info, d, Close), taken);
  }

  lemma StartFits(info: Identity, d: Device)
    requires Inv(info, d) && Quiet(d)
    ensures EpisodeInv(d, d, {})
  {
  }

  lemma EpisodeMore(info: Identity, pre: seq<Action>, post: seq<Action>, d0: Device)
    requires post != [] && Episode(info, pre, post)
    requires var before := post[..|post| - 1]; EpisodeInv(d0, Run(info, pre + before), Samples(info, pre, before))
    ensures EpisodeInv(d0, Run(info, pre + post), Samples(info, pre, post))
  {
    var before, last := post[..|post| - 1], post[|post| - 1];
    RunLast(info, pre, post);
    FitsStep(info, d0, Run(info, pre + before), Samples(info, pre, before), last);
  }

  lemma EpisodeStart(info: Identity, pre: seq<Action>)
    requires Quiet(Run(info, pre))
    ensures EpisodeInv(Run(info, pre), Run(info, pre), {})
  {
    InvRun(info, pre);
    StartFits(info, Run(info, pre));
  }

  lemma {:induction false} EpisodeRun(info: Identity, pre: seq<Action>, post: seq<Action>)
    requires Quiet(Run(info, pre)) && Episode(info, pre, post)
    ensures EpisodeInv(Run(info, pre), Run(info, pre + post), Samples(info, pre, post))
    decreases |post|
  {
    if post == [] {
      assert pre + post == pre;
      EpisodeStart(info, pre);
    } else {
      EpisodeRun(info, pre, post[..|post| - 1]);
      EpisodeMore(info, pre, post, Run(info, pre));
    }
  }

  // ----- what the samples stand for -----

  lemma AdvanceEpoch(info: Identity, d: Device, i: nat, c: Choice)
    requires i < |d.ops|
    ensures AdvanceStep(info, d, i, c).epoch == d.epoch + if Commands(d, Advance(i, c)) then 1 else 0
  {
  }

  lemma PauseStep(info: Identity, d: Device, a: Action)
    requires !a.Disturb?
    ensures Step(info, d, a).epoch == d.epoch + if Commands(d, a) then 1 else 0
  {
    match a
    case Advance(i, c) => if i < |d.ops| { AdvanceEpoch(info, d, i, c); }
    case _ =>
  }

  lemma RunLast(info: Identity, pre: seq<Action>, post: seq<Action>)
    requires post != []
    ensures Run(info, pre + post) == Step(info, Run(info, pre + post[..|post| - 1]), post[|post| - 1])
  {
    assert pre + post == (pre + post[..|post| - 1]) + [post[|post| - 1]];
    RunSnoc(info, pre + post[..|post| - 1], post[|post| - 1]);
  }

  lemma LastPause(info: Identity, pre: seq<Action>, post: seq<Action>)
    requires post != [] && !post[|post| - 1].Disturb?
    ensures var d := Run(info, pre + post[..|post| - 1]);
            Run(info, pre + post).epoch == d.epoch + if Commands(d, post[|post| - 1]) then 1 else 0
  {
    RunLast(info, pre, post);
    PauseStep(info, Run(info, pre + post[..|post| - 1]), post[|post| - 1]);
  }

  lemma {:induction false} EpisodeCalm(info: Identity, pre: seq<Action>, post: seq<Action>)
    requires Episode(info, pre, post)
    ensures forall i :: 0 <= i < |post| ==> !post[i].Disturb?
    decreases |post|
  {
    if post != [] {
      EpisodeCalm(info, pre, post[..|post| - 1]);
    }
  }

  /** In an episode the count of the miner's changes is the count of its pauses. */
  lemma {:induction false} EpochCountsPauses(info: Identity, pre: seq<Action>, post: seq<Action>)
    requires forall i :: 0 <= i < |post| ==> !post[i].Disturb?
    ensures Run(info, pre + post).epoch == Run(info, pre).epoch + Pauses(info, pre, post)
    decreases |post|
  {
    if post == [] {
      assert pre + post == pre;
    } else {
      EpochCountsPauses(info, pre, post[..|post| - 1]);
      LastPause(info, pre, post);
    }
  }

  /** A sample was taken by some action, of the miner as it was then. */
  lemma {:induction false} SampleTaken(info: Identity, pre: seq<Action>, post: seq<Action>, s: Sample) returns (n: nat)
    requires s in Samples(info, pre, post)
    ensures n < |post|
    ensures var d := Run(info, pre + post[..n]); TakesSample(d, post[n]) && s == Sample(d.epoch, d.mining)
    decreases |post|
  {
    var before := post[..|post| - 1];
    if s in Samples(info, pre, before) {
      n := SampleTaken(info, pre, before, s);
      assert before[..n] == post[..n];
    } else {
      n := |post| - 1;
    }
  }

  // ----- what is on record -----

  lemma NothingNoted(info: Identity, acts: seq<Action>)
    ensures Run(info, acts).noted.None? <==> Run(info, acts).snapshot == Unknown
  {
    InvRun(info, acts);
  }

  lemma RecordIs(d0: Device, d: Device, taken: set<Sample>)
    requires EpisodeInv(d0, d, taken) && d0.noted.None? && d.snapshot != Unknown
    ensures d.noted.Some? && d.noted.value in taken && !d.mining
    ensures d.snapshot == FromMiningStatus(d0.mining) <==> !d0.mining || d.noted.value.epoch == d0.epoch
  {
    assert Fits(d0, d.noted.value.epoch, d.noted.value.mining);
  }

  /** Whatever operations overlap, the record says what the miner did when the episode began,
      exactly if it was idle then or the sample on record was taken, by action n, before any
      pause took effect. */
  lemma {:induction false} RecordedExactly(info: Identity, pre: seq<Action>, post: seq<Action>) returns (n: nat)
    requires Quiet(Run(info, pre)) && Run(info, pre).snapshot == Unknown && Episode(info, pre, post)
    requires Run(info, pre + post).snapshot != Unknown
    ensures n < |post| && TakesSample(Run(info, pre + post[..n]), post[n])
    ensures var d0, d := Run(info, pre), Run(info, pre + post);
            && d.noted == Some(Sample(Run(info, pre + post[..n]).epoch, Run(info, pre + post[..n]).mining))
            && (d.snapshot == FromMiningStatus(d0.mining) <==> !d0.mining || Pauses(info, pre, post[..n]) == 0)
  {
    EpisodeRun(info, pre, post);
    var d0, d := Run(info, pre), Run(info, pre + post);
    NothingNoted(info, pre);
    RecordIs(d0, d, Samples(info, pre, post));
    n := SampleTaken(info, pre, post, d.noted.value);
    EpisodeCalm(info, pre, post);
    EpochCountsPauses(info, pre, post[..n]);
  }

  // ----- one curtail at a time -----

  /** No curtail starts while another is open, none is dropped between its pause and its record,
      and no pause that fails takes effect. */
  predicate InTurn(d: Device, a: Action)
  {
    match a
    case Call(kind) => kind == Curtail ==> forall i :: 0 <= i < |d.ops| && d.ops[i].kind == Curtail ==> Over(d.ops[i].pc)
    case Advance(_, c) => c != Fail(true)
    case Cancel(i, effect) => !effect && !(i < |d.ops| && (d.ops[i].pc.Effective? || d.ops[i].pc.Released?))
    case _ => true
  }

  ghost predicate Serialized(info: Identity, pre: seq<Action>, post: seq<Action>)
    decreases |post|
  {
    post != [] ==>
      var before := post[..|post| - 1];
      Serialized(info, pre, before) && InTurn(Run(info, pre + before), post[|post| - 1])
  }

  predicate Pausing(pc: Pc) { pc.Effective? || pc.Released? }

  /** Until something is on record, a pause belongs to the one open curtail, which saw the miner
      before it. */
  ghost predicate TurnInv(d0: Device, d: Device)
  {
    && (forall i, j :: 0 <= i < j < |d.ops| && d.ops[i].kind == Curtail && d.ops[j].kind == Curtail ==>
          Over(d.ops[i].pc) || Over(d.ops[j].pc))
    && (d.noted.Some? ==> d.noted.value.epoch == d0.epoch)
    && (d.noted.None? ==>
          && (d.epoch > d0.epoch ==> exists i :: 0 <= i < |d.ops| && Pausing(d.ops[i].pc))
          && (forall i :: 0 <= i < |d.ops| && Pausing(d.ops[i].pc) ==>
                d.ops[i].kind == Curtail && d.ops[i].pc.seen.epoch == d0.epoch))
  }

  /** Operation i moves on, the others stay, and neither miner nor record change. */
  ghost predicate OnlyMoves(d: Device, d': Device, i: nat)
    requires i < |d.ops|
  {
    && d'.noted == d.noted && d'.epoch == d.epoch && |d'.ops| == |d.ops|
    && (forall k :: 0 <= k < |d.ops| && k != i ==> d'.ops[k] == d.ops[k])
    && d'.ops[i].kind == d.ops[i].kind && (Over(d.ops[i].pc) ==> Over(d'.ops[i].pc))
  }

  lemma TurnMoves(d0: Device, d: Device, d': Device, i: nat)
    requires TurnInv(d0, d) && i < |d.ops| && OnlyMoves(d, d', i)
    requires Pausing(d'.ops[i].pc) <==> Pausing(d.ops[i].pc)
    requires Pausing(d.ops[i].pc) ==> d'.ops[i].pc.seen == d.ops[i].pc.seen
    ensures TurnInv(d0, d')
  {
    if d'.noted.None? && d'.epoch > d0.epoch {
      var k :| 0 <= k < |d.ops| && Pausing(d.ops[k].pc);
      assert Pausing(d'.ops[k].pc);
    }
  }

  predicate Ordinary(pc: Pc)
  {
    !(pc.Holding? && pc.goal.Command?) && !Pausing(pc) && !pc.Skipping?
  }

  lemma EarlyMoves(info: Identity, d: Device, i: nat, c: Choice)
    requires i < |d.ops| && (d.ops[i].pc.Entry? || d.ops[i].pc.LookUp? || d.ops[i].pc.Connecting?)
    ensures var d' := AdvanceStep(info, d, i, c); OnlyMoves(d, d', i) && !Pausing(d'.ops[i].pc)
  {
  }

  lemma OrdinaryMoves(info: Identity, d: Device, i: nat, c: Choice)
    requires i < |d.ops| && Ordinary(d.ops[i].pc)
    ensures var d' := AdvanceStep(info, d, i, c); OnlyMoves(d, d', i) && !Pausing(d'.ops[i].pc)
  {
    if d.ops[i].pc.Entry? || d.ops[i].pc.LookUp? || d.ops[i].pc.Connecting? {
      EarlyMoves(info, d, i, c);
    } else if d.ops[i].pc.Holding? {
      SampleMoves(info, d, i, c);
    }
  }

  lemma SampleMoves(info: Identity, d: Device, i: nat, c: Choice)
    requires i < |d.ops| && d.ops[i].pc == Holding(Telemetry)
    ensures var d' := AdvanceStep(info, d, i, c); OnlyMoves(d, d', i) && !Pausing(d'.ops[i].pc)
  {
  }

  lemma TurnCommand(d0: Device, d: Device, taken: set<Sample>, i: nat, c: Choice)
    requires TurnInv(d0, d) && EpisodeInv(d0, d, taken) && |d0.ops| <= i < |d.ops|
    requires d.ops[i].pc.Holding? && d.ops[i].pc.goal.Command?
    requires InEpisode(d, Advance(i, c)) && c != Fail(true)
    ensures TurnInv(d0, CommandStep(d, i, d.ops[i].pc.goal.seen, c))
  {
    var seen, d' := d.ops[i].pc.goal.seen, CommandStep(d, i, d.ops[i].pc.goal.seen, c);
    assert OpFits(d0, d, taken, d.ops[i]);
    if c.Fail? {
      assert OnlyMoves(d, d', i);
      TurnMoves(d0, d, d', i);
    } else {
      assert Fits(d0, seen.epoch, seen.mining) && seen.epoch <= d.epoch;
      assert Pausing(d'.ops[i].pc) && d'.ops[i].pc.seen == seen;
      assert d.noted.None? ==> d.epoch == d0.epoch;
    }
  }

  lemma TurnPausing(info: Identity, d0: Device, d: Device, i: nat)
    requires TurnInv(d0, d) && i < |d.ops| && Pausing(d.ops[i].pc) && d.ops[i].kind == Curtail
    requires d.snapshot == SnapshotOf(d.noted)
    ensures TurnInv(d0, AdvanceStep(info, d, i, Proceed))
  {
    var d' := AdvanceStep(info, d, i, Proceed);
    if d.ops[i].pc.Effective? {
      assert OnlyMoves(d, d', i);
      TurnMoves(d0, d, d', i);
    }
  }

  lemma TurnAdvance(info: Identity, d0: Device, d: Device, taken: set<Sample>, i: nat, c: Choice)
    requires TurnInv(d0, d) && EpisodeInv(d0, d, taken) && i < |d.ops|
    requires InEpisode(d, Advance(i, c)) && c != Fail(true)
    ensures TurnInv(d0, AdvanceStep(info, d, i, c))
  {
    var pc := d.ops[i].pc;
    if Ordinary(pc) {
      OrdinaryMoves(info, d, i, c);
      TurnMoves(d0, d, AdvanceStep(info, d, i, c), i);
    } else if i >= |d0.ops| {
      TurnLate(info, d0, d, taken, i, c);
    }
  }

  lemma TurnLate(info: Identity, d0: Device, d: Device, taken: set<Sample>, i: nat, c: Choice)
    requires TurnInv(d0, d) && EpisodeInv(d0, d, taken) && |d0.ops| <= i < |d.ops| && !Ordinary(d.ops[i].pc)
    requires InEpisode(d, Advance(i, c)) && c != Fail(true)
    ensures TurnInv(d0, AdvanceStep(info, d, i, c))
  {
    assert OpFits(d0, d, taken, d.ops[i]);
    if d.ops[i].pc.Holding? {
      TurnCommand(d0, d, taken, i, c);
    } else if Pausing(d.ops[i].pc) {
      TurnPausing(info, d0, d, i);
    }
  }

  lemma TurnStep(info: Identity, d0: Device, d: Device, taken: set<Sample>, a: Action)
    requires TurnInv(d0, d) && EpisodeInv(d0, d, taken) && InEpisode(d, a) && InTurn(d, a)
    ensures TurnInv(d0, Step(info, d, a))
  {
    match a
    case Call(kind) => TurnCall(d0, d, kind);
    case Advance(i, c) => if i < |d.ops| { TurnAdvance(info, d0, d, taken, i, c); }
    case Cancel(i, effect) =>
      if i < |d.ops| {
        assert OnlyMoves(d, CancelStep(d, i, effect), i);
        TurnMoves(d0, d, CancelStep(d, i, effect), i);
      }
    case Close =>
  }

  lemma TurnCall(d0: Device, d: Device, kind: Kind)
    requires TurnInv(d0, d) && InTurn(d, Call(kind))
    ensures TurnInv(d0, d.(ops := d.ops + [Op(kind, Entry, d.committed)]))
  {
    var d' := d.(ops := d.ops + [Op(kind, Entry, d.committed)]);
    assert forall i :: 0 <= i < |d.ops| ==> d'.ops[i] == d.ops[i];
    if d'.noted.None? && d'.epoch > d0.epoch {
      var k :| 0 <= k < |d.ops| && Pausing(d.ops[k].pc);
      assert Pausing(d'.ops[k].pc);
    }
  }

  lemma {:induction false} TurnRun(info: Identity, pre: seq<Action>, post: seq<Action>)
    requires Quiet(Run(info, pre)) && Run(info, pre).snapshot == Unknown
    requires Episode(info, pre, post) && Serialized(info, pre, post)
    ensures TurnInv(Run(info, pre), Run(info, pre + post))
    decreases |post|
  {
    if post == [] {
      assert pre + post == pre;
      InvRun(info, pre);
    } else {
      var before, last := post[..|post| - 1], post[|post| - 1];
      TurnRun(info, pre, before);
      EpisodeRun(info, pre, before);
      RunLast(info, pre, post);
      TurnStep(info, Run(info, pre), Run(info, pre + before), Samples(info, pre, before), last);
    }
  }

  /** So with one curtail at a time the record is right. */
  lemma {:induction false} SerializedRecord(info: Identity, pre: seq<Action>, post: seq<Action>)
    requires Quiet(Run(info, pre)) && Run(info, pre).snapshot == Unknown
    requires Episode(info, pre, post) && Serialized(info, pre, post)
    requires Run(info, pre + post).snapshot != Unknown
    ensures Run(info, pre + post).snapshot == FromMiningStatus(Run(info, pre).mining)
  {
    EpisodeRun(info, pre, post);
    TurnRun(info, pre, post);
    NothingNoted(info, pre);
    RecordIs(Run(info, pre), Run(info, pre + post), Samples(info, pre, post));
  }
}
