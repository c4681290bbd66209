/** Curtail and uncurtail one operation at a time: is the miner put back as it was?

    `mining` is the miner itself. What the network and the miner do is a parameter of each
    call; a command that fails may have taken effect all the same. */
module Curtailment {
  import opened Wrappers
  import opened Snapshots

  /** Reading telemetry: no connection at all, connected but no answer, or an answer. */
  datatype Contact = Unreachable | Silent | Answers

  /** A command: carried out and confirmed, or failed, with or without effect. */
  datatype Reply = Done | Fails(effect: bool)

  datatype Miner = Miner(mining: bool, cache: Option<bool>, snapshot: Snapshot)

  datatype Op =
    | Look(recent: bool, contact: Contact)
    | Curtail(contact: Contact, reply: Reply)
    | Uncurtail(reply: Reply)
    | StartMining(reply: Reply)
    | StopMining(reply: Reply)

  function GetData(m: Miner, recent: bool, contact: Contact): (Miner, Option<bool>)
  {
    if m.cache.Some? && recent then (m, m.cache)
    else match contact
      case Unreachable => (m, None)
      case Silent => (m.(cache := None), None)
      case Answers => (m.(cache := Some(m.mining)), Some(m.mining))
  }

  /** Send pause or resume. */
  function Command(m: Miner, target: bool, reply: Reply): Miner
  {
    if reply == Done || reply.effect then m.(mining := target) else m
  }

  function CurtailFull(m: Miner, contact: Contact, reply: Reply): (Miner, bool)
  {
    var (m1, was) := GetData(m.(cache := None), true, contact);
    if was.None? then (m1, false)
    else
      var m2 := Command(m1, false, reply);
      if reply != Done then (m2, false)
      else (m2.(snapshot := Recorded(m2.snapshot, was.value), cache := None), true)
  }

  function UncurtailFull(m: Miner, reply: Reply): (Miner, bool)
  {
    if !ShouldResume(m.snapshot) then (m.(snapshot := Unknown, cache := None), true)
    else
      var m1 := Command(m, true, reply);
      if reply != Done then (m1, false) else (m1.(snapshot := Unknown, cache := None), true)
  }

  function SetMining(m: Miner, target: bool, reply: Reply): (Miner, bool)
  {
    var m1 := Command(m, target, reply);
    if reply != Done then (m1, false) else (m1.(snapshot := Unknown, cache := None), true)
  }

  function Apply(m: Miner, op: Op): (Miner, bool)
  {
    match op
    case Look(recent, contact) => var (m', r) := GetData(m, recent, contact); (m', r.Some?)
    case Curtail(contact, reply) => CurtailFull(m, contact, reply)
    case Uncurtail(reply) => UncurtailFull(m, reply)
    case StartMining(reply) => SetMining(m, true, reply)
    case StopMining(reply) => SetMining(m, false, reply)
  }

  function Run(m: Miner, ops: seq<Op>): Miner
  {
    if ops == [] then m else Apply(Run(m, ops[..|ops| - 1]), ops[|ops| - 1]).0
  }

  predicate SucceedsAt(m: Miner, ops: seq<Op>, i: nat)
    requires i < |ops|
  {
    Apply(Run(m, ops[..i]), ops[i]).1
  }

  // ----- the source's form -----

  class AsicRsDevice {
    var mining: bool
    var cache: Option<bool>
    var snapshot: Snapshot

    ghost function Value(): Miner
      reads this
    {
      Miner(mining, cache, snapshot)
    }

    method Get(recent: bool, contact: Contact) returns (r: Option<bool>)
      modifies this`cache
      ensures (Value(), r) == GetData(old(Value()), recent, contact)
    {
      if cache.Some? && recent {
        return cache;
      }
      if contact == Unreachable {
        return None;
      }
      if contact == Silent {
        cache := None;
        return None;
      }
      var data := mining;
      cache := Some(data);
      return Some(data);
    }

    method Send(target: bool, reply: Reply) returns (ok: bool)
      modifies this`mining
      ensures Value() == Command(old(Value()), target, reply)
      ensures ok == (reply == Done)
    {
      if reply == Done || reply.effect {
        mining := target;
      }
      return reply == Done;
    }

    method StartMining(reply: Reply) returns (ok: bool)
      modifies this
      ensures (Value(), ok) == SetMining(old(Value()), true, reply)
    {
      ok := Send(true, reply);
      if !ok {
        return;
      }
      snapshot := Unknown;
      cache := None;
    }

    method StopMining(reply: Reply) returns (ok: bool)
      modifies this
      ensures (Value(), ok) == SetMining(old(Value()), false, reply)
    {
      ok := Send(false, reply);
      if !ok {
        return;
      }
      snapshot := Unknown;
      cache := None;
    }

    method Curtail(contact: Contact, reply: Reply) returns (ok: bool)
      modifies this
      ensures (Value(), ok) == CurtailFull(old(Value()), contact, reply)
    {
      cache := None;
      var was := Get(true, contact);
      if was.None? {
        return false;
      }
      ok := Send(false, reply);
      if !ok {
        return;
      }
      if snapshot == Unknown {
        snapshot := FromMiningStatus(was.value);
      }
      cache := None;
    }

    method Uncurtail(reply: Reply) returns (ok: bool)
      modifies this
      ensures (Value(), ok) == UncurtailFull(old(Value()), reply)
    {
      var decision := RestoreDecision(snapshot);
      var shouldResume := if decision.Some? then decision.value else true;
      if !shouldResume {
        snapshot := Unknown;
        cache := None;
        return true;
      }
      ok := Send(true, reply);
      if !ok {
        return;
      }
      snapshot := Unknown;
      cache := None;
    }
  }

  // ----- an episode -----

  /** From a device with nothing on record: reads, curtails, and other commands that fail. */
  ghost predicate Episode(m: Miner, ops: seq<Op>)
  {
    && m.snapshot == Unknown
    && forall i :: 0 <= i < |ops| ==> ops[i].Look? || ops[i].Curtail? || !SucceedsAt(m, ops, i)
  }

  ghost predicate FirstCurtail(m: Miner, ops: seq<Op>, first: nat)
  {
    && first < |ops| && ops[first].Curtail? && SucceedsAt(m, ops, first)
    && forall i :: 0 <= i < first && ops[i].Curtail? ==> !SucceedsAt(m, ops, i)
  }

  lemma RunSnoc(m: Miner, ops: seq<Op>, k: nat)
    requires k < |ops|
    ensures Run(m, ops[..k + 1]) == Apply(Run(m, ops[..k]), ops[k]).0
  {
    assert ops[..k + 1][..k] == ops[..k];
  }

  /** What a command that fails nevertheless sets the miner to. */
  function EffectOf(op: Op): Option<bool>
  {
    match op
    case Curtail(Answers, Fails(true)) => Some(false)
    case Uncurtail(Fails(true)) => Some(true)
    case StartMining(Fails(true)) => Some(true)
    case StopMining(Fails(true)) => Some(false)
    case _ => None
  }

  /** The last of the first k operations with such an effect. */
  function LastEffect(ops: seq<Op>, k: nat): Option<bool>
    requires k <= |ops|
  {
    if k == 0 then None
    else if EffectOf(ops[k - 1]).Some? then EffectOf(ops[k - 1])
    else LastEffect(ops, k - 1)
  }

  /** A read or a failed command, with nothing on record. */
  lemma UneventfulStep(m: Miner, op: Op)
    requires m.snapshot == Unknown && (op.Look? || !Apply(m, op).1)
    ensures Apply(m, op).0.snapshot == Unknown
    ensures Apply(m, op).0.mining == if EffectOf(op).Some? then EffectOf(op).value else m.mining
  {
  }

  /** The first curtail that succeeds records what the miner was doing, and pauses it. */
  lemma FirstRecords(m: Miner, op: Op)
    requires m.snapshot == Unknown && op.Curtail? && Apply(m, op).1
    ensures Apply(m, op).0.snapshot == FromMiningStatus(m.mining) && !Apply(m, op).0.mining
  {
  }

  ghost predicate Keeps(m: Miner, op: Op)
  {
    op.Look? || op.Curtail? || !Apply(m, op).1
  }

  lemma EpisodeOp(m: Miner, ops: seq<Op>, i: nat)
    requires Episode(m, ops) && i < |ops|
    ensures Keeps(Run(m, ops[..i]), ops[i])
  {
    assert !ops[i].Look? && !ops[i].Curtail? ==> !SucceedsAt(m, ops, i);
  }

  /** Whether a failed start has set an idle miner going that nothing has paused since. */
  predicate RestartedBy(op: Op, before: bool)
  {
    match op
    case StartMining(Fails(true)) => true
    case StopMining(Fails(true)) => false
    case Curtail(Answers, Done) => false
    case Curtail(Answers, Fails(true)) => false
    case _ => before
  }

  predicate Restarted(ops: seq<Op>, first: nat, k: nat)
    requires k <= |ops|
  {
    k > first + 1 && RestartedBy(ops[k - 1], Restarted(ops, first, k - 1))
  }

  /** Once something is on record it stands. */
  lemma RecordKept(m: Miner, op: Op, was: bool, restarted: bool)
    requires m.snapshot == FromMiningStatus(was) && (!was ==> m.mining == restarted) && Keeps(m, op)
    ensures Apply(m, op).0.snapshot == FromMiningStatus(was)
    ensures !was ==> Apply(m, op).0.mining == RestartedBy(op, restarted)
  {
  }

  /** Before the first curtail succeeds nothing is recorded, and only failed commands that
      took effect have changed the miner. */
  lemma {:induction false} BeforeFirst(m: Miner, ops: seq<Op>, first: nat, k: nat)
    requires Episode(m, ops) && FirstCurtail(m, ops, first) && k <= first
    ensures Run(m, ops[..k]).snapshot == Unknown
    ensures Run(m, ops[..k]).mining == if LastEffect(ops, k).Some? then LastEffect(ops, k).value else m.mining
  {
    if k != 0 {
      BeforeFirst(m, ops, first, k - 1);
      RunSnoc(m, ops, k - 1);
      assert !ops[k - 1].Look? ==> !SucceedsAt(m, ops, k - 1);
      UneventfulStep(Run(m, ops[..k - 1]), ops[k - 1]);
    }
  }

  /** From then on the record stands, and a miner that was idle mines only after a failed start. */
  lemma {:induction false} AfterFirst(m: Miner, ops: seq<Op>, first: nat, k: nat)
    requires Episode(m, ops) && FirstCurtail(m, ops, first) && first < k <= |ops|
    ensures var was := Run(m, ops[..first]).mining;
            && Run(m, ops[..k]).snapshot == FromMiningStatus(was)
            && (!was ==> Run(m, ops[..k]).mining == Restarted(ops, first, k))
  {
    RunSnoc(m, ops, k - 1);
    if k == first + 1 {
      BeforeFirst(m, ops, first, first);
      assert SucceedsAt(m, ops, first);
      FirstRecords(Run(m, ops[..first]), ops[first]);
    } else {
      AfterFirst(m, ops, first, k - 1);
      EpisodeOp(m, ops, k - 1);
      RecordKept(Run(m, ops[..k - 1]), ops[k - 1], Run(m, ops[..first]).mining, Restarted(ops, first, k - 1));
    }
  }

  /** After any number of curtails, the first uncurtail that succeeds leaves the miner as it
      was just before the first curtail that succeeded, whatever failed in between; exactly
      unless it was idle and a failed start has set it going since. */
  lemma {:induction false} UncurtailRestores(m: Miner, ops: seq<Op>, first: nat, reply: Reply)
    requires Episode(m, ops) && FirstCurtail(m, ops, first)
    requires UncurtailFull(Run(m, ops), reply).1
    ensures var was := Run(m, ops[..first]).mining;
            UncurtailFull(Run(m, ops), reply).0.mining == was <==> was || !Restarted(ops, first, |ops|)
  {
    AfterFirst(m, ops, first, |ops|);
    assert ops[..|ops|] == ops;
  }

  /** The miner ends up as it was when the episode began exactly if it was mining then just when it
      was mining at that curtail, as the last failed command with effect had left it, or a failed
      start has set it going since. */
  lemma {:induction false} RestoredExactly(m: Miner, ops: seq<Op>, first: nat, reply: Reply)
    requires Episode(m, ops) && FirstCurtail(m, ops, first)
    requires UncurtailFull(Run(m, ops), reply).1
    ensures var was := if LastEffect(ops, first).Some? then LastEffect(ops, first).value else m.mining;
            UncurtailFull(Run(m, ops), reply).0.mining == m.mining
            <==> m.mining == (was || Restarted(ops, first, |ops|))
  {
    UncurtailRestores(m, ops, first, reply);
    BeforeFirst(m, ops, first, first);
  }

  /** A start or stop that succeeds ends an episode and begins the next: what it set the miner to
      is what the first uncurtail afterwards restores, under the same condition. */
  lemma {:induction false} RestoresWhatWasSet(m: Miner, target: bool, ops: seq<Op>, first: nat, reply: Reply)
    requires var m0 := SetMining(m, target, Done).0;
             Episode(m0, ops) && FirstCurtail(m0, ops, first) && UncurtailFull(Run(m0, ops), reply).1
    ensures var m0 := SetMining(m, target, Done).0;
            var was := if LastEffect(ops, first).Some? then LastEffect(ops, first).value else target;
            UncurtailFull(Run(m0, ops), reply).0.mining == target <==> target == (was || Restarted(ops, first, |ops|))
  {
    RestoredExactly(SetMining(m, target, Done).0, ops, first, reply);
  }

  /** A pause that works but times out, and a retry: the miner stays idle afterwards. */
  lemma TimedOutPauseIsForgotten(m: Miner)
    requires m.snapshot == Unknown && m.mining
    ensures var m1 := CurtailFull(m, Answers, Fails(true)).0;
            var m2 := CurtailFull(m1, Answers, Done).0;
            forall reply :: UncurtailFull(m2, reply).1 && !UncurtailFull(m2, reply).0.mining
  {
  }
}
