/** The uncurtail that ends an episode: exactly when it puts the miner back as it was. */
module DeviceRestore {
  import opened Wrappers
  import opened Identity
  import opened Snapshots
  import opened DeviceRuns
  import opened DeviceEpisodes
  import Curtailment

  // ----- an uncurtail on a device with no other command open -----

  /** Reads may run beside uncurtail u; its command does not fail with effect, and nothing else
      changes the miner. */
  predicate Beside(a: Action, u: nat)
  {
    match a
    case Call(kind) => kind == Read
    case Advance(i, c) => i == u ==> c != Fail(true)
    case Cancel(i, effect) => i == u ==> !effect
    case Disturb(_) => false
    case Close => true
  }

  predicate Reading(op: Op)
  {
    && op.kind == Read
    && match op.pc
       case Connecting(goal) => goal == Telemetry
       case Holding(goal) => goal == Telemetry
       case Effective(_, _) => false
       case Released(_, _) => false
       case Noted(_) => false
       case Cleared(_) => false
       case Skipping => false
       case SkipNoted => false
       case _ => true
  }

  /** Where uncurtail u is, given the record it found. */
  predicate Uncurtails(d1: Device, d: Device, op: Op)
  {
    var resume := ShouldResume(d1.snapshot);
    && op.kind == Uncurtail
    && match op.pc
       case Entry => d.mining == d1.mining && d.snapshot == d1.snapshot
       case Connecting(goal) => goal.Command? && resume
       case Holding(goal) => goal.Command? && resume
       case Effective(_, _) => resume && d.mining
       case Released(_, _) => resume && d.mining
       case Noted(_) => resume && d.mining
       case Cleared(_) => resume && d.mining
       case Succeeded(_) => resume && d.mining
       case Skipping => !resume && d.mining == d1.mining
       case SkipNoted => !resume && d.mining == d1.mining
       case Skipped => !resume && d.mining == d1.mining
       case Failed => true
       case _ => false
  }

  ghost predicate TailInv(d1: Device, d: Device, u: nat)
  {
    && u < |d.ops| && Uncurtails(d1, d, d.ops[u])
    && (forall i :: 0 <= i < u ==> Over(d.ops[i].pc))
    && (forall i :: u < i < |d.ops| ==> Reading(d.ops[i]))
  }

  lemma UncurtailMoves(info: Identity, d1: Device, d: Device, u: nat, c: Choice)
    requires u < |d.ops| && Uncurtails(d1, d, d.ops[u]) && c != Fail(true)
    ensures var d' := AdvanceStep(info, d, u, c);
            && Uncurtails(d1, d', d'.ops[u]) && |d'.ops| == |d.ops|
            && forall k :: 0 <= k < |d.ops| && k != u ==> d'.ops[k] == d.ops[k]
  {
  }

  lemma OverStays(info: Identity, d: Device, i: nat, c: Choice)
    requires i < |d.ops| && Over(d.ops[i].pc)
    ensures AdvanceStep(info, d, i, c) == d
  {
  }

  ghost predicate ReadsOn(d: Device, d': Device, i: nat)
    requires i < |d.ops|
  {
    && d'.mining == d.mining && d'.snapshot == d.snapshot && |d'.ops| == |d.ops| && Reading(d'.ops[i])
    && forall k :: 0 <= k < |d.ops| && k != i ==> d'.ops[k] == d.ops[k]
  }

  lemma ReadStarts(info: Identity, d: Device, i: nat, c: Choice)
    requires i < |d.ops| && Reading(d.ops[i]) && (d.ops[i].pc.Entry? || d.ops[i].pc.LookUp? || d.ops[i].pc.Connecting?)
    ensures ReadsOn(d, AdvanceStep(info, d, i, c), i)
  {
  }

  lemma ReadMoves(info: Identity, d: Device, i: nat, c: Choice)
    requires i < |d.ops| && Reading(d.ops[i])
    ensures ReadsOn(d, AdvanceStep(info, d, i, c), i)
  {
    if d.ops[i].pc.Entry? || d.ops[i].pc.LookUp? || d.ops[i].pc.Connecting? {
      ReadStarts(info, d, i, c);
    }
  }

  lemma TailCancel(d1: Device, d: Device, u: nat, i: nat, effect: bool)
    requires TailInv(d1, d, u) && i < |d.ops| && (i == u ==> !effect)
    ensures TailInv(d1, CancelStep(d, i, effect), u)
  {
    assert i > u ==> Reading(d.ops[i]);
    assert i < u ==> Over(d.ops[i].pc);
  }

  lemma TailStep(info: Identity, d1: Device, d: Device, u: nat, a: Action)
    requires TailInv(d1, d, u) && Beside(a, u)
    ensures TailInv(d1, Step(info, d, a), u)
  {
    match a
    case Call(kind) =>
    case Advance(i, c) =>
      if i == u {
        UncurtailMoves(info, d1, d, u, c);
      } else if i < u {
        OverStays(info, d, i, c);
      } else if i < |d.ops| {
        ReadMoves(info, d, i, c);
      }
    case Cancel(i, effect) => if i < |d.ops| { TailCancel(d1, d, u, i, effect); }
    case Close =>
  }

  lemma {:induction false} TailRun(info: Identity, base: seq<Action>, more: seq<Action>, d1: Device, u: nat)
    requires TailInv(d1, Run(info, base), u) && forall k :: 0 <= k < |more| ==> Beside(more[k], u)
    ensures TailInv(d1, Run(info, base + more), u)
    decreases |more|
  {
    if more == [] {
      assert base + more == base;
    } else {
      TailRun(info, base, more[..|more| - 1], d1, u);
      RunLast(info, base, more);
      TailStep(info, d1, Run(info, base + more[..|more| - 1]), u, more[|more| - 1]);
    }
  }

  lemma UncurtailCalled(info: Identity, acts: seq<Action>)
    requires Quiet(Run(info, acts))
    ensures TailInv(Run(info, acts), Run(info, acts + [Call(Uncurtail)]), |Run(info, acts).ops|)
  {
    RunSnoc(info, acts, Call(Uncurtail));
  }

  /** After an episode in which something was recorded, an uncurtail that returns success leaves
      the miner as it was when the episode began, exactly if it was idle then or the sample on
      record was taken, by action n, before any pause took effect. */
  lemma {:induction false} RestoredExactly(info: Identity, pre: seq<Action>, post: seq<Action>, more: seq<Action>)
    returns (n: nat)
    requires Quiet(Run(info, pre)) && Run(info, pre).snapshot == Unknown && Episode(info, pre, post)
    requires Quiet(Run(info, pre + post)) && Run(info, pre + post).snapshot != Unknown
    requires forall k :: 0 <= k < |more| ==> Beside(more[k], |Run(info, pre + post).ops|)
    requires var pc := UncurtailAt(info, pre + post, more); pc.Succeeded? || pc.Skipped?
    ensures n < |post| && TakesSample(Run(info, pre + post[..n]), post[n])
    ensures Run(info, pre + post).noted
            == Some(Sample(Run(info, pre + post[..n]).epoch, Run(info, pre + post[..n]).mining))
    ensures Run(info, pre + post + [Call(Uncurtail)] + more).mining == Run(info, pre).mining
            <==> !Run(info, pre).mining || Pauses(info, pre, post[..n]) == 0
  {
    var d0, d1 := Run(info, pre), Run(info, pre + post);
    n := RecordedExactly(info, pre, post);
    EpisodeRun(info, pre, post);
    NothingNoted(info, pre);
    RecordIs(d0, d1, Samples(info, pre, post));
    UncurtailCalled(info, pre + post);
    TailRun(info, pre + post + [Call(Uncurtail)], more, d1, |d1.ops|);
  }

  /** What became of the uncurtail called after these actions. */
  ghost function UncurtailAt(info: Identity, acts: seq<Action>, more: seq<Action>): Pc
    requires Quiet(Run(info, acts)) && forall k :: 0 <= k < |more| ==> Beside(more[k], |Run(info, acts).ops|)
  {
    UncurtailCalled(info, acts);
    TailRun(info, acts + [Call(Uncurtail)], more, Run(info, acts), |Run(info, acts).ops|);
    Run(info, acts + [Call(Uncurtail)] + more).ops[|Run(info, acts).ops|].pc
  }

  /** An uncurtail that returns success, with at most reads beside it, leaves the miner as the whole
      operation does. */
  lemma UncurtailAlone(info: Identity, acts: seq<Action>, more: seq<Action>)
    requires Quiet(Run(info, acts)) && forall k :: 0 <= k < |more| ==> Beside(more[k], |Run(info, acts).ops|)
    requires var pc := UncurtailAt(info, acts, more); pc.Succeeded? || pc.Skipped?
    ensures Run(info, acts + [Call(Uncurtail)] + more).mining
            == Curtailment.UncurtailFull(Alone(Run(info, acts)), Curtailment.Done).0.mining
  {
    UncurtailCalled(info, acts);
    TailRun(info, acts + [Call(Uncurtail)], more, Run(info, acts), |Run(info, acts).ops|);
  }

  /** What Curtailment knows of a device. */
  function Alone(d: Device): Curtailment.Miner
  {
    Curtailment.Miner(d.mining, if d.cache.Some? then Some(d.cache.value.mining) else None, d.snapshot)
  }

  /** With one curtail at a time the uncurtail puts the miner back as it was. */
  lemma {:induction false} SerializedRestores(info: Identity, pre: seq<Action>, post: seq<Action>, more: seq<Action>)
    requires Quiet(Run(info, pre)) && Run(info, pre).snapshot == Unknown
    requires Episode(info, pre, post) && Serialized(info, pre, post)
    requires Quiet(Run(info, pre + post)) && Run(info, pre + post).snapshot != Unknown
    requires forall k :: 0 <= k < |more| ==> Beside(more[k], |Run(info, pre + post).ops|)
    requires var pc := UncurtailAt(info, pre + post, more); pc.Succeeded? || pc.Skipped?
    ensures Run(info, pre + post + [Call(Uncurtail)] + more).mining == Run(info, pre).mining
  {
    SerializedRecord(info, pre, post);
    EpisodeRun(info, pre, post);
    NothingNoted(info, pre);
    RecordIs(Run(info, pre), Run(info, pre + post), Samples(info, pre, post));
    UncurtailAlone(info, pre + post, more);
  }

  // ----- an episode that starts with a record -----

  lemma RecordKept(d0: Device, d: Device, taken: set<Sample>)
    requires EpisodeInv(d0, d, taken) && d0.noted.Some? && d0.snapshot == SnapshotOf(d0.noted)
    ensures d.snapshot == d0.snapshot && (d.mining <==> d0.mining && d.epoch == d0.epoch)
  {
  }

  /** An episode that starts with something on record, such as what outlived an uncurtail, is put
      right by that: the miner ends up as it was exactly if the record says what it did, or it was
      mining, the record says idle, and no pause took effect. */
  lemma {:induction false} RestoredFromRecord(info: Identity, pre: seq<Action>, post: seq<Action>, more: seq<Action>)
    requires Quiet(Run(info, pre)) && Run(info, pre).snapshot != Unknown && Episode(info, pre, post)
    requires Quiet(Run(info, pre + post))
    requires forall k :: 0 <= k < |more| ==> Beside(more[k], |Run(info, pre + post).ops|)
    requires var pc := UncurtailAt(info, pre + post, more); pc.Succeeded? || pc.Skipped?
    ensures Run(info, pre + post + [Call(Uncurtail)] + more).mining == Run(info, pre).mining
            <==> Run(info, pre).snapshot == FromMiningStatus(Run(info, pre).mining)
                 || (Run(info, pre).mining && Pauses(info, pre, post) == 0)
  {
    InvRun(info, pre);
    EpisodeRun(info, pre, post);
    RecordKept(Run(info, pre), Run(info, pre + post), Samples(info, pre, post));
    EpisodeCalm(info, pre, post);
    EpochCountsPauses(info, pre, post);
    UncurtailAlone(info, pre + post, more);
  }

  // ----- an uncurtail beside open curtails -----

  /** Whatever is still open, an uncurtail that takes its first step at the end of an episode
      decides to leave the miner as it was when the episode began exactly if nothing is on record
      and it was mining; or something is, and it was idle or the sample on record was taken, by
      action n, before any pause took effect. */
  lemma {:induction false} DecidesExactly(info: Identity, pre: seq<Action>, post: seq<Action>, u: nat, c: Choice)
    returns (n: nat)
    requires Quiet(Run(info, pre)) && Run(info, pre).snapshot == Unknown && Episode(info, pre, post)
    requires var d := Run(info, pre + post); u < |d.ops| && d.ops[u].kind == Uncurtail && d.ops[u].pc.Entry?
    ensures var d0, d := Run(info, pre), Run(info, pre + post);
            var resumes := !AdvanceStep(info, d, u, c).ops[u].pc.Skipping?;
            && (d.snapshot == Unknown ==> resumes)
            && (d.snapshot != Unknown ==>
                  && n < |post| && TakesSample(Run(info, pre + post[..n]), post[n])
                  && d.noted == Some(Sample(Run(info, pre + post[..n]).epoch, Run(info, pre + post[..n]).mining))
                  && (resumes == d0.mining <==> !d0.mining || Pauses(info, pre, post[..n]) == 0))
  {
    n := 0;
    if Run(info, pre + post).snapshot != Unknown {
      n := RecordedExactly(info, pre, post);
    }
  }
}
