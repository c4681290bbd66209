/** Every interleaving of telemetry reads and control operations on one device.

    The connection slot and the telemetry cache each have a lock. An operation is a program
    counter; a step takes one operation across one await point. The miner itself counts the
    changes it has gone through: a sample carries the count at which it was taken, a command
    the count it brought about. A command that failed may still take effect, then or later;
    that is a step of its own. */
module DeviceRuns {
  import opened Wrappers
  import opened Identity
  import opened Snapshots

  datatype Sample = Sample(epoch: nat, mining: bool)

  datatype Kind = Read | Start | Stop | Curtail | Uncurtail

  /** What an operation wants the connection for; a command carries what it saw before. */
  datatype Goal = Telemetry | Command(seen: Sample)

  const NOTHING: Sample := Sample(0, false)

  datatype Pc =
    | Entry                                    // called, nothing done
    | LookUp                                   // about to look into the cache
    | Connecting(goal: Goal)                   // wants the connection
    | Holding(goal: Goal)                      // holds the connection
    | Sampled(sample: Sample)                  // holds it, telemetry in hand
    | Cached(sample: Sample)                   // holds it, telemetry stored
    | Dropping                                 // read failed, about to drop the connection
    | Dropped                                  // connection dropped, cache still to clear
    | Effective(effect: nat, seen: Sample)     // holds it, command accepted
    | Released(effect: nat, seen: Sample)      // gave it back
    | Noted(effect: nat)                       // snapshot recorded or cleared
    | Cleared(effect: nat)                     // cache cleared
    | Failed                                   // returned an error or was dropped
    | Answered(sample: Sample)                 // a read returned this
    | Succeeded(effect: nat)                   // a command returned success
    | Skipping                                 // uncurtail found nothing to resume
    | SkipNoted                                // and has cleared the snapshot
    | Skipped                                  // and returned success without a command

  /** `floor` is the newest effect among the commands that had returned success when the
      operation was called. */
  datatype Op = Op(kind: Kind, pc: Pc, floor: nat)

  datatype Device = Device(
    slot: Option<Identity>,      // who answers on the stored connection
    holder: Option<nat>,         // which operation holds it
    cache: Option<Sample>,
    snapshot: Snapshot,
    noted: Option<Sample>,       // history: the sample that the snapshot was taken from
    epoch: nat,
    mining: bool,
    top: nat,                    // newest effect of a command accepted while holding the connection
    committed: nat,              // newest effect of a command that has returned success
    ops: seq<Op>)

  datatype Choice =
    | Proceed                    // the ordinary next step
    | Stale                      // the cached sample is too old
    | Give(answer: Identity)     // a new connection was made, by someone with this identity
    | Fail(effect: bool)         // the step fails; `effect`: the miner changed all the same

  datatype Action =
    | Call(kind: Kind)
    | Advance(op: nat, choice: Choice)
    | Cancel(op: nat, effect: bool) // the caller drops the operation; `effect` as above
    | Disturb(mining: bool)      // the miner changes outside the commands that succeed
    | Close

  const NEW_DEVICE: Device := Device(None, None, None, Unknown, None, 0, false, 0, 0, [])

  predicate Allowed(info: Identity, answer: Identity)
  {
    (info.model == "" && info.serial == "" && info.mac == "") || VerifyIdentity(info, answer) == Accepted
  }

  /** The state a command asks for. */
  predicate Target(kind: Kind)
  {
    kind == Start || kind == Uncurtail
  }

  function SnapshotOf(noted: Option<Sample>): Snapshot
  {
    if noted.None? then Unknown else FromMiningStatus(noted.value.mining)
  }

  /** A curtail records what it saw unless something is recorded; any other command clears. */
  function Note(d: Device, kind: Kind, seen: Sample): Device
  {
    if kind == Curtail then
      d.(snapshot := Recorded(d.snapshot, seen.mining), noted := if d.snapshot == Unknown then Some(seen) else d.noted)
    else d.(snapshot := Unknown, noted := None)
  }

  /** No operation is added or becomes another, and nothing committed is forgotten. */
  ghost predicate Kept(d: Device, d': Device)
  {
    && |d'.ops| == |d.ops| && d.committed <= d'.committed
    && forall k :: 0 <= k < |d.ops| ==> d'.ops[k].kind == d.ops[k].kind && d'.ops[k].floor == d.ops[k].floor
  }

  function Put(d: Device, i: nat, pc: Pc): (d': Device)
    requires i < |d.ops|
    ensures Kept(d, d')
  {
    d.(ops := d.ops[i := d.ops[i].(pc := pc)])
  }

  function Free(d: Device): Device
  {
    d.(holder := None)
  }

  function Change(d: Device, mining: bool): Device
  {
    d.(epoch := d.epoch + 1, mining := mining)
  }

  /** Where an operation goes first. */
  function EntryPc(d: Device, kind: Kind): Pc
  {
    match kind
    case Read => LookUp
    case Curtail => LookUp
    case Uncurtail => if ShouldResume(d.snapshot) then Connecting(Command(NOTHING)) else Skipping
    case _ => Connecting(Command(NOTHING))
  }

  /** A curtail clears the cache before it reads. */
  function EntryStep(d: Device, i: nat): (d': Device)
    requires i < |d.ops|
    ensures Kept(d, d')
  {
    var kind := d.ops[i].kind;
    Put(if kind == Curtail then d.(cache := None) else d, i, EntryPc(d, kind))
  }

  /** The read part of an operation is over. */
  function ReadOver(d: Device, i: nat, s: Sample): (d': Device)
    requires i < |d.ops|
    ensures Kept(d, d')
  {
    if d.ops[i].kind == Read then Put(d, i, Answered(s)) else Put(d, i, Connecting(Command(s)))
  }

  function LookUpStep(d: Device, i: nat, c: Choice): (d': Device)
    requires i < |d.ops|
    ensures Kept(d, d')
  {
    if d.cache.Some? && c == Proceed then ReadOver(d, i, d.cache.value) else Put(d, i, Connecting(Telemetry))
  }

  function ConnectingStep(info: Identity, d: Device, i: nat, goal: Goal, c: Choice): (d': Device)
    requires i < |d.ops|
    ensures Kept(d, d')
  {
    match c
    case Fail(_) => Put(d, i, Failed)
    case Give(answer) => if d.holder.None? && Allowed(info, answer) then d.(slot := Some(answer)) else d
    case _ =>
      if d.holder.Some? then d
      else if d.slot.None? then Put(d, i, Failed)
      else Put(d.(holder := Some(i)), i, Holding(goal))
  }

  function ReadingStep(d: Device, i: nat, c: Choice): (d': Device)
    requires i < |d.ops|
    ensures Kept(d, d')
  {
    if c.Fail? then Put(Free(d), i, Dropping) else Put(d, i, Sampled(Sample(d.epoch, d.mining)))
  }

  function CommandStep(d: Device, i: nat, seen: Sample, c: Choice): (d': Device)
    requires i < |d.ops|
    ensures Kept(d, d')
  {
    var target := Target(d.ops[i].kind);
    if c.Fail? then Put(Free(if c.effect then Change(d, target) else d), i, Failed)
    else
      var changed := Change(d, target);
      Put(changed.(top := changed.epoch), i, Effective(changed.epoch, seen))
  }

  function DroppingStep(d: Device, i: nat): (d': Device)
    requires i < |d.ops|
    ensures Kept(d, d')
  {
    if d.holder.Some? then d else Put(d.(slot := None), i, Dropped)
  }

  function AdvanceStep(info: Identity, d: Device, i: nat, c: Choice): (d': Device)
    requires i < |d.ops|
    ensures Kept(d, d')
  {
    var op := d.ops[i];
    match op.pc
    case Entry => EntryStep(d, i)
    case LookUp => LookUpStep(d, i, c)
    case Connecting(goal) => ConnectingStep(info, d, i, goal, c)
    case Holding(goal) => if goal == Telemetry then ReadingStep(d, i, c) else CommandStep(d, i, goal.seen, c)
    case Sampled(s) => Put(d.(cache := Some(s)), i, Cached(s))
    case Cached(s) => ReadOver(Free(d), i, s)
    case Dropping => DroppingStep(d, i)
    case Dropped => Put(d.(cache := None), i, Failed)
    case Effective(e, seen) => Put(Free(d), i, Released(e, seen))
    case Released(e, seen) => Put(Note(d, op.kind, seen), i, Noted(e))
    case Noted(e) => Put(d.(cache := None), i, Cleared(e))
    case Cleared(e) => Put(d.(committed := if e > d.committed then e else d.committed), i, Succeeded(e))
    case Skipping => Put(d.(snapshot := Unknown, noted := None), i, SkipNoted)
    case SkipNoted => Put(d.(cache := None), i, Skipped)
    case _ => d
  }

  predicate Holds(pc: Pc)
  {
    pc.Holding? || pc.Sampled? || pc.Cached? || pc.Effective?
  }

  /** Returned, or dropped. */
  predicate Over(pc: Pc)
  {
    pc.Failed? || pc.Answered? || pc.Succeeded? || pc.Skipped?
  }

  /** An operation can be dropped wherever it waits: it gives the connection back and takes no
      further step. A command on its way may take effect all the same. */
  function CancelStep(d: Device, i: nat, effect: bool): (d': Device)
    requires i < |d.ops|
    ensures Kept(d, d')
  {
    var op := d.ops[i];
    if Over(op.pc) then d
    else
      var commanding := op.pc.Holding? && op.pc.goal.Command?;
      var changed := if effect && commanding then Change(d, Target(op.kind)) else d;
      Put(if Holds(op.pc) then Free(changed) else changed, i, Failed)
  }

  function Step(info: Identity, d: Device, a: Action): Device
  {
    match a
    case Call(kind) => d.(ops := d.ops + [Op(kind, Entry, d.committed)])
    case Advance(i, c) => if i < |d.ops| then AdvanceStep(info, d, i, c) else d
    case Cancel(i, effect) => if i < |d.ops| then CancelStep(d, i, effect) else d
    case Disturb(mining) => Change(d, mining)
    case Close => if d.holder.Some? then d else d.(slot := None)
  }

  function Run(info: Identity, acts: seq<Action>): Device
  {
    if acts == [] then NEW_DEVICE else Step(info, Run(info, acts[..|acts| - 1]), acts[|acts| - 1])
  }

  lemma RunSnoc(info: Identity, acts: seq<Action>, a: Action)
    ensures Run(info, acts + [a]) == Step(info, Run(info, acts), a)
  {
    assert (acts + [a])[..|acts|] == acts;
  }

  // ----- the invariant -----

  /** What holds of one operation, given the shared state. The telemetry in hand of whoever
      holds the connection is newer than every accepted command: they needed it too. */
  predicate OpInv(d: Device, op: Op)
  {
    && op.floor <= d.committed
    && match op.pc
       case Sampled(s) => d.top <= s.epoch
       case Cached(s) => d.top <= s.epoch
       case Effective(e, _) => e <= d.top
       case Released(e, _) => e <= d.top
       case Noted(e) => e <= d.top
       case Cleared(e) => e <= d.top && (d.cache.Some? ==> e <= d.cache.value.epoch)
       case Succeeded(e) => e <= d.committed
       case Answered(s) => op.floor <= s.epoch
       case _ => true
  }

  ghost predicate OneHolder(d: Device)
  {
    forall i :: 0 <= i < |d.ops| ==> (Holds(d.ops[i].pc) <==> d.holder == Some(i))
  }

  ghost predicate Shared(info: Identity, d: Device)
  {
    && d.committed <= d.top <= d.epoch
    && (d.cache.Some? ==> d.committed <= d.cache.value.epoch)
    && (d.slot.Some? ==> Allowed(info, d.slot.value))
    && d.snapshot == SnapshotOf(d.noted)
    && (d.holder.Some? ==> d.holder.value < |d.ops|)
  }

  ghost predicate Inv(info: Identity, d: Device)
  {
    Shared(info, d) && OneHolder(d) && forall i :: 0 <= i < |d.ops| ==> OpInv(d, d.ops[i])
  }

  // ----- steps keep the invariant -----

  /** Moving one operation between points that agree on who holds the connection. */
  lemma InvPut(info: Identity, d: Device, i: nat, pc: Pc)
    requires Inv(info, d) && i < |d.ops|
    requires Holds(pc) == Holds(d.ops[i].pc) && OpInv(d, d.ops[i].(pc := pc))
    ensures Inv(info, Put(d, i, pc))
  {
  }

  lemma InvClearCache(info: Identity, d: Device)
    requires Inv(info, d)
    ensures Inv(info, d.(cache := None))
  {
  }

  lemma InvEntry(info: Identity, d: Device, i: nat)
    requires Inv(info, d) && i < |d.ops| && d.ops[i].pc.Entry?
    ensures Inv(info, EntryStep(d, i))
  {
    assert OpInv(d, d.ops[i]);
    if d.ops[i].kind == Curtail {
      InvClearCache(info, d);
      InvPut(info, d.(cache := None), i, LookUp);
    } else {
      InvPut(info, d, i, EntryPc(d, d.ops[i].kind));
    }
  }

  lemma InvLookUp(info: Identity, d: Device, i: nat, c: Choice)
    requires Inv(info, d) && i < |d.ops| && d.ops[i].pc.LookUp?
    ensures Inv(info, LookUpStep(d, i, c))
  {
    InvPut(info, d, i, LookUpStep(d, i, c).ops[i].pc);
  }

  lemma InvTakes(info: Identity, d: Device, i: nat, goal: Goal)
    requires Inv(info, d) && i < |d.ops| && d.ops[i].pc.Connecting? && d.holder.None?
    ensures Inv(info, Put(d.(holder := Some(i)), i, Holding(goal)))
  {
    assert OpInv(d, d.ops[i]);
  }

  lemma InvConnecting(info: Identity, d: Device, i: nat, c: Choice)
    requires Inv(info, d) && i < |d.ops| && d.ops[i].pc.Connecting?
    ensures Inv(info, ConnectingStep(info, d, i, d.ops[i].pc.goal, c))
  {
    assert OpInv(d, d.ops[i]);
    InvPut(info, d, i, Failed);
    if !c.Fail? && !c.Give? && d.holder.None? && d.slot.Some? {
      InvTakes(info, d, i, d.ops[i].pc.goal);
    }
  }

  lemma InvReading(info: Identity, d: Device, i: nat, c: Choice)
    requires Inv(info, d) && i < |d.ops| && d.ops[i].pc.Holding?
    ensures Inv(info, ReadingStep(d, i, c))
  {
  }

  lemma InvFreed(info: Identity, d: Device, i: nat, pc: Pc)
    requires Inv(info, d) && i < |d.ops| && Holds(d.ops[i].pc) && !Holds(pc) && OpInv(d, d.ops[i].(pc := pc))
    ensures Inv(info, Put(Free(d), i, pc))
  {
  }

  lemma InvChange(info: Identity, d: Device, mining: bool)
    requires Inv(info, d)
    ensures Inv(info, Change(d, mining))
  {
  }

  lemma InvAccepted(info: Identity, d: Device, i: nat, mining: bool, seen: Sample)
    requires Inv(info, d) && i < |d.ops| && d.ops[i].pc.Holding?
    ensures var e := d.epoch + 1; Inv(info, Put(Change(d, mining).(top := e), i, Effective(e, seen)))
  {
  }

  lemma InvCommand(info: Identity, d: Device, i: nat, seen: Sample, c: Choice)
    requires Inv(info, d) && i < |d.ops| && d.ops[i].pc.Holding?
    ensures Inv(info, CommandStep(d, i, seen, c))
  {
    var target := Target(d.ops[i].kind);
    assert OpInv(d, d.ops[i]);
    if c.Fail? {
      InvChange(info, d, target);
      InvFreed(info, if c.effect then Change(d, target) else d, i, Failed);
    } else {
      InvAccepted(info, d, i, target, seen);
    }
  }

  lemma InvSampled(info: Identity, d: Device, i: nat)
    requires Inv(info, d) && i < |d.ops| && d.ops[i].pc.Sampled?
    ensures var s := d.ops[i].pc.sample; Inv(info, Put(d.(cache := Some(s)), i, Cached(s)))
  {
    var s := d.ops[i].pc.sample;
    assert OpInv(d, d.ops[i]);
    assert Inv(info, d.(cache := Some(s)));
    InvPut(info, d.(cache := Some(s)), i, Cached(s));
  }

  lemma InvCached(info: Identity, d: Device, i: nat)
    requires Inv(info, d) && i < |d.ops| && d.ops[i].pc.Cached?
    ensures Inv(info, ReadOver(Free(d), i, d.ops[i].pc.sample))
  {
    assert OpInv(d, d.ops[i]);
    InvFreed(info, d, i, ReadOver(Free(d), i, d.ops[i].pc.sample).ops[i].pc);
  }

  lemma InvDropping(info: Identity, d: Device, i: nat)
    requires Inv(info, d) && i < |d.ops| && (d.ops[i].pc.Dropping? || d.ops[i].pc.Dropped?)
    ensures Inv(info, AdvanceStep(info, d, i, Proceed))
  {
    if d.ops[i].pc.Dropped? {
      InvClearCache(info, d);
      InvPut(info, d.(cache := None), i, Failed);
    }
  }

  lemma InvSkipping(info: Identity, d: Device, i: nat)
    requires Inv(info, d) && i < |d.ops| && (d.ops[i].pc.Skipping? || d.ops[i].pc.SkipNoted?)
    ensures Inv(info, AdvanceStep(info, d, i, Proceed))
  {
    if d.ops[i].pc.SkipNoted? {
      InvClearCache(info, d);
      InvPut(info, d.(cache := None), i, Skipped);
    }
  }

  lemma InvNote(info: Identity, d: Device, kind: Kind, seen: Sample)
    requires Inv(info, d)
    ensures Inv(info, Note(d, kind, seen))
  {
  }

  lemma InvReleasing(info: Identity, d: Device, i: nat)
    requires Inv(info, d) && i < |d.ops| && d.ops[i].pc.Effective?
    ensures Inv(info, AdvanceStep(info, d, i, Proceed))
  {
  }

  lemma InvNoting(info: Identity, d: Device, i: nat)
    requires Inv(info, d) && i < |d.ops| && (d.ops[i].pc.Released? || d.ops[i].pc.Noted?)
    ensures Inv(info, AdvanceStep(info, d, i, Proceed))
  {
    var op := d.ops[i];
    assert OpInv(d, op);
    if op.pc.Released? {
      InvNote(info, d, op.kind, op.pc.seen);
      InvPut(info, Note(d, op.kind, op.pc.seen), i, Noted(op.pc.effect));
    } else {
      InvClearCache(info, d);
      InvPut(info, d.(cache := None), i, Cleared(op.pc.effect));
    }
  }

  lemma InvReturning(info: Identity, d: Device, i: nat)
    requires Inv(info, d) && i < |d.ops| && d.ops[i].pc.Cleared?
    ensures Inv(info, AdvanceStep(info, d, i, Proceed))
  {
    assert OpInv(d, d.ops[i]);
  }

  lemma InvAdvance(info: Identity, d: Device, i: nat, c: Choice)
    requires Inv(info, d) && i < |d.ops|
    ensures Inv(info, AdvanceStep(info, d, i, c))
  {
    match d.ops[i].pc
    case Entry => InvEntry(info, d, i);
    case LookUp => InvLookUp(info, d, i, c);
    case Connecting(_) => InvConnecting(info, d, i, c);
    case Holding(goal) =>
      if goal == Telemetry {
        InvReading(info, d, i, c);
      } else {
        InvCommand(info, d, i, goal.seen, c);
      }
    case Sampled(_) => InvSampled(info, d, i);
    case Cached(_) => InvCached(info, d, i);
    case Dropping => InvDropping(info, d, i);
    case Dropped => InvDropping(info, d, i);
    case Failed =>
    case Answered(_) =>
    case Succeeded(_) =>
    case Skipping => InvSkipping(info, d, i);
    case SkipNoted => InvSkipping(info, d, i);
    case Skipped =>
    case Effective(_, _) => InvReleasing(info, d, i);
    case Released(_, _) => InvNoting(info, d, i);
    case Noted(_) => InvNoting(info, d, i);
    case Cleared(_) => InvReturning(info, d, i);
  }

  lemma InvCancel(info: Identity, d: Device, i: nat, effect: bool)
    requires Inv(info, d) && i < |d.ops|
    ensures Inv(info, CancelStep(d, i, effect))
  {
  }

  lemma InvStep(info: Identity, d: Device, a: Action)
    requires Inv(info, d)
    ensures Inv(info, Step(info, d, a))
  {
    match a
    case Advance(i, c) =>
      if i < |d.ops| {
        InvAdvance(info, d, i, c);
      }
    case Cancel(i, effect) =>
      if i < |d.ops| {
        InvCancel(info, d, i, effect);
      }
    case _ =>
  }

  lemma {:induction false} InvRun(info: Identity, acts: seq<Action>)
    ensures Inv(info, Run(info, acts))
  {
    if acts != [] {
      var init, last := acts[..|acts| - 1], acts[|acts| - 1];
      InvRun(info, init);
      InvStep(info, Run(info, init), last);
    }
  }

  // ----- no read returns a sample older than a command that had returned -----

  /** Operations called after a command returned success know at least its effect. */
  ghost predicate CalledSince(d: Device, from: nat, e: nat)
  {
    && from <= |d.ops| && e <= d.committed
    && forall i :: from <= i < |d.ops| ==> e <= d.ops[i].floor
  }

  lemma CalledSinceStep(info: Identity, d: Device, a: Action, from: nat, e: nat)
    requires CalledSince(d, from, e)
    ensures CalledSince(Step(info, d, a), from, e)
  {
    assert a.Advance? && a.op < |d.ops| ==> Kept(d, AdvanceStep(info, d, a.op, a.choice));
    assert a.Cancel? && a.op < |d.ops| ==> Kept(d, CancelStep(d, a.op, a.effect));
  }

  lemma {:induction false} CalledSinceRun(info: Identity, pre: seq<Action>, post: seq<Action>, e: nat)
    requires e <= Run(info, pre).committed
    ensures CalledSince(Run(info, pre + post), |Run(info, pre).ops|, e)
  {
    if post == [] {
      assert pre + post == pre;
    } else {
      var init, last := post[..|post| - 1], post[|post| - 1];
      CalledSinceRun(info, pre, init, e);
      assert pre + post == (pre + init) + [last];
      RunSnoc(info, pre + init, last);
      CalledSinceStep(info, Run(info, pre + init), last, |Run(info, pre).ops|, e);
    }
  }

  /** Once command c has returned success, no operation r called after that ever answers with
      a sample taken before c took effect, whatever else runs in between. */
  lemma {:induction false} NoStaleAnswer(info: Identity, pre: seq<Action>, post: seq<Action>, c: nat, r: nat)
    requires c < |Run(info, pre).ops| && Run(info, pre).ops[c].pc.Succeeded?
    requires |Run(info, pre).ops| <= r < |Run(info, pre + post).ops|
    requires Run(info, pre + post).ops[r].pc.Answered?
    ensures Run(info, pre).ops[c].pc.effect <= Run(info, pre + post).ops[r].pc.sample.epoch
  {
    InvRun(info, pre);
    assert OpInv(Run(info, pre), Run(info, pre).ops[c]);
    CalledSinceRun(info, pre, post, Run(info, pre).ops[c].pc.effect);
    InvRun(info, pre + post);
    assert OpInv(Run(info, pre + post), Run(info, pre + post).ops[r]);
  }

  // ----- a stored connection was verified -----

  /** With a serial number or MAC on record, whoever answers on a stored connection reported
      one of them and nothing that conflicts. */
  lemma {:induction false} StoredConnectionIsVerified(info: Identity, acts: seq<Action>)
    requires info.serial != "" || info.mac != ""
    ensures var slot := Run(info, acts).slot;
            slot.Some? ==> StrongMatch(info, slot.value) && !Conflicting(info, slot.value)
  {
    InvRun(info, acts);
  }

  /** One operation at a time holds the connection. */
  lemma {:induction false} ConnectionIsExclusive(info: Identity, acts: seq<Action>, i: nat, j: nat)
    requires i < |Run(info, acts).ops| && j < |Run(info, acts).ops|
    requires Holds(Run(info, acts).ops[i].pc) && Holds(Run(info, acts).ops[j].pc)
    ensures i == j
  {
    InvRun(info, acts);
  }
}
