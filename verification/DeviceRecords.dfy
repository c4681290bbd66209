/** What is on record in every run, whatever operations overlap: which curtail made the record,
    whether it outlived an uncurtail, and what the next uncurtail makes of it. */
module DeviceRecords {
  import opened Wrappers
  import opened Identity
  import opened Snapshots
  import opened DeviceRuns

  /** An action is the step in which a curtail records, or one that clears the record. */
  datatype Mark = Record(seen: Sample) | Clear | Nothing

  predicate Moves(d: Device, a: Action, i: nat)
  {
    a.Advance? && a.op == i < |d.ops|
  }

  function MarkOf(d: Device, a: Action): Mark
  {
    if a.Advance? && a.op < |d.ops| then
      var op := d.ops[a.op];
      if op.pc.Skipping? then Clear
      else if op.pc.Released? then if op.kind == Curtail then Record(op.pc.seen) else Clear
      else Nothing
    else Nothing
  }

  ghost function Story(info: Identity, acts: seq<Action>): (marks: seq<Mark>)
    ensures |marks| == |acts|
  {
    if acts == [] then []
    else
      var before := acts[..|acts| - 1];
      Story(info, before) + [MarkOf(Run(info, before), acts[|acts| - 1])]
  }

  lemma {:induction false} StoryAt(info: Identity, acts: seq<Action>, k: nat)
    requires k < |acts|
    ensures Story(info, acts)[k] == MarkOf(Run(info, acts[..k]), acts[k])
  {
    if k < |acts| - 1 {
      StoryAt(info, acts[..|acts| - 1], k);
      assert acts[..|acts| - 1][..k] == acts[..k];
    }
  }

  // ----- which record is left -----

  /** The first record since the last clearing. */
  ghost function Survivor(marks: seq<Mark>): (k: Option<nat>)
    ensures k.Some? ==> k.value < |marks| && marks[k.value].Record?
  {
    if marks == [] then None
    else
      var n := |marks| - 1;
      var before := Survivor(marks[..n]);
      if marks[n].Clear? then None
      else if before.None? && marks[n].Record? then Some(n) else before
  }

  /** Nothing is cleared after mark k. */
  ghost predicate Stands(marks: seq<Mark>, k: nat)
  {
    forall j :: k < j < |marks| ==> !marks[j].Clear?
  }

  lemma {:induction false} SurvivorIs(marks: seq<Mark>)
    ensures Survivor(marks).Some? <==> exists k :: 0 <= k < |marks| && marks[k].Record? && Stands(marks, k)
    ensures Survivor(marks).Some? ==> Stands(marks, Survivor(marks).value)
  {
    if marks != [] {
      var n := |marks| - 1;
      var before := marks[..n];
      SurvivorIs(before);
      assert forall k :: 0 <= k < n && Stands(marks, k) ==> Stands(before, k);
      assert forall k :: 0 <= k < n && Stands(before, k) && !marks[n].Clear? ==> Stands(marks, k);
    }
  }

  /** Every record before it was cleared in between. */
  lemma {:induction false} SurvivorIsFirst(marks: seq<Mark>, j: nat)
    requires Survivor(marks).Some? && j < Survivor(marks).value && marks[j].Record?
    ensures exists c :: j < c < Survivor(marks).value && marks[c].Clear?
  {
    var n, k := |marks| - 1, Survivor(marks).value;
    var before := marks[..n];
    if k < n {
      SurvivorIsFirst(before, j);
      var c :| j < c < k && before[c].Clear?;
      assert marks[c].Clear?;
    } else {
      SurvivorIs(before);
      assert !Stands(before, j);
      var c :| j < c < n && before[c].Clear?;
      assert marks[c].Clear?;
    }
  }

  predicate Early(pc: Pc) { pc.Entry? || pc.LookUp? || pc.Connecting? || pc.Holding? }

  lemma EarlyNote(info: Identity, d: Device, i: nat, c: Choice)
    requires i < |d.ops| && Early(d.ops[i].pc)
    ensures AdvanceStep(info, d, i, c).noted == d.noted
  {
  }

  lemma NoteStep(info: Identity, d: Device, i: nat, c: Choice)
    requires i < |d.ops| && d.snapshot == SnapshotOf(d.noted)
    ensures AdvanceStep(info, d, i, c).noted
            == match MarkOf(d, Advance(i, c))
               case Clear => None
               case Record(seen) => if d.noted.None? then Some(seen) else d.noted
               case Nothing => d.noted
  {
    if Early(d.ops[i].pc) {
      EarlyNote(info, d, i, c);
    }
  }

  lemma NotedIs(info: Identity, d: Device, a: Action)
    requires d.snapshot == SnapshotOf(d.noted)
    ensures Step(info, d, a).noted
            == match MarkOf(d, a)
               case Clear => None
               case Record(seen) => if d.noted.None? then Some(seen) else d.noted
               case Nothing => d.noted
  {
    match a
    case Advance(i, c) => if i < |d.ops| { NoteStep(info, d, i, c); }
    case _ =>
  }

  ghost function SeenAt(marks: seq<Mark>, k: Option<nat>): Option<Sample>
    requires k.Some? ==> k.value < |marks| && marks[k.value].Record?
  {
    if k.None? then None else Some(marks[k.value].seen)
  }

  lemma {:induction false} NotedSurvives(info: Identity, acts: seq<Action>)
    ensures Run(info, acts).noted == SeenAt(Story(info, acts), Survivor(Story(info, acts)))
  {
    if acts != [] {
      var before, marks := acts[..|acts| - 1], Story(info, acts);
      NotedSurvives(info, before);
      InvRun(info, before);
      NotedIs(info, Run(info, before), acts[|acts| - 1]);
      assert marks[..|before|] == Story(info, before);
    }
  }

  // ----- every run -----

  /** Action k is the step in which a curtail records what it saw, if nothing is on record. */
  ghost predicate RecordsAt(info: Identity, acts: seq<Action>, k: nat)
    requires k < |acts|
  {
    var d, a := Run(info, acts[..k]), acts[k];
    a.Advance? && a.op < |d.ops| && d.ops[a.op].kind == Curtail && d.ops[a.op].pc.Released?
  }

  /** Action c is the step in which a start, stop or uncurtail clears the record. */
  ghost predicate ClearsAt(info: Identity, acts: seq<Action>, c: nat)
    requires c < |acts|
  {
    var d, a := Run(info, acts[..c]), acts[c];
    && a.Advance? && a.op < |d.ops|
    && (d.ops[a.op].pc.Skipping? || (d.ops[a.op].pc.Released? && d.ops[a.op].kind != Curtail))
  }

  lemma MarkAt(info: Identity, acts: seq<Action>, k: nat)
    requires k < |acts|
    ensures RecordsAt(info, acts, k) <==> Story(info, acts)[k].Record?
    ensures ClearsAt(info, acts, k) <==> Story(info, acts)[k].Clear?
  {
    StoryAt(info, acts, k);
  }

  ghost predicate StandsSince(info: Identity, acts: seq<Action>, k: nat)
  {
    forall j :: k < j < |acts| ==> !ClearsAt(info, acts, j)
  }

  lemma StandsIs(info: Identity, acts: seq<Action>, k: nat)
    ensures StandsSince(info, acts, k) <==> Stands(Story(info, acts), k)
  {
    forall j | k < j < |acts|
      ensures ClearsAt(info, acts, j) <==> Story(info, acts)[j].Clear?
    {
      MarkAt(info, acts, j);
    }
  }

  /** In every run something is on record exactly if some curtail made its record after the last
      clearing. */
  lemma {:induction false} OnRecordExactly(info: Identity, acts: seq<Action>)
    ensures Run(info, acts).snapshot != Unknown
            <==> exists k :: 0 <= k < |acts| && RecordsAt(info, acts, k) && StandsSince(info, acts, k)
  {
    var marks := Story(info, acts);
    InvRun(info, acts);
    NotedSurvives(info, acts);
    SurvivorIs(marks);
    forall k | 0 <= k < |acts|
      ensures RecordsAt(info, acts, k) && StandsSince(info, acts, k) <==> marks[k].Record? && Stands(marks, k)
    {
      MarkAt(info, acts, k);
      StandsIs(info, acts, k);
    }
  }

  /** So the record of a curtail outlives the last uncurtail, start or stop, which cleared the
      record at action c, exactly if it was made after that. */
  lemma {:induction false} OutlivesExactly(info: Identity, acts: seq<Action>, c: nat)
    requires c < |acts| && ClearsAt(info, acts, c) && StandsSince(info, acts, c)
    ensures Run(info, acts).snapshot != Unknown <==> exists k :: c < k < |acts| && RecordsAt(info, acts, k)
  {
    OnRecordExactly(info, acts);
    if Run(info, acts).snapshot != Unknown {
      var k :| 0 <= k < |acts| && RecordsAt(info, acts, k) && StandsSince(info, acts, k);
      MarkAt(info, acts, c);
      assert k >= c;
      MarkAt(info, acts, k);
    } else if k :| c < k < |acts| && RecordsAt(info, acts, k) {
      assert StandsSince(info, acts, k);
    }
  }

  /** And what is on record is what the first curtail to record since then saw, at action k. */
  lemma {:induction false} RecordCameFrom(info: Identity, acts: seq<Action>) returns (k: nat)
    requires Run(info, acts).snapshot != Unknown
    ensures k < |acts| && RecordsAt(info, acts, k) && StandsSince(info, acts, k)
    ensures forall j :: 0 <= j < k && RecordsAt(info, acts, j) ==> exists c :: j < c < k && ClearsAt(info, acts, c)
    ensures var d := Run(info, acts[..k]);
            && acts[k].Advance? && acts[k].op < |d.ops| && d.ops[acts[k].op].pc.Released?
            && Run(info, acts).noted == Some(d.ops[acts[k].op].pc.seen)
            && Run(info, acts).snapshot == FromMiningStatus(d.ops[acts[k].op].pc.seen.mining)
  {
    var marks := Story(info, acts);
    InvRun(info, acts);
    NotedSurvives(info, acts);
    k := Survivor(marks).value;
    SurvivorIs(marks);
    MarkAt(info, acts, k);
    StandsIs(info, acts, k);
    StoryAt(info, acts, k);
    forall j | 0 <= j < k && RecordsAt(info, acts, j)
      ensures exists c :: j < c < k && ClearsAt(info, acts, c)
    {
      MarkAt(info, acts, j);
      SurvivorIsFirst(marks, j);
      var c :| j < c < k && marks[c].Clear?;
      MarkAt(info, acts, c);
    }
  }

  // ----- what an uncurtail makes of it -----

  predicate Skips(pc: Pc) { pc.Skipping? || pc.SkipNoted? || pc.Skipped? }

  /** Past its first step and not failed. */
  predicate UnderWay(pc: Pc) { !pc.Entry? && !pc.Failed? }

  lemma SkipEntry(d: Device, i: nat)
    requires i < |d.ops| && d.ops[i].kind == Uncurtail
    ensures Skips(EntryStep(d, i).ops[i].pc) <==> !ShouldResume(d.snapshot)
  {
  }

  lemma SkipLate(info: Identity, d: Device, i: nat, c: Choice)
    requires i < |d.ops| && !Early(d.ops[i].pc)
    ensures Skips(AdvanceStep(info, d, i, c).ops[i].pc) <==> Skips(d.ops[i].pc)
    ensures d.ops[i].pc.Failed? ==> AdvanceStep(info, d, i, c).ops[i].pc.Failed?
  {
  }

  lemma SkipEarly(info: Identity, d: Device, i: nat, c: Choice)
    requires i < |d.ops| && Early(d.ops[i].pc) && !d.ops[i].pc.Entry?
    ensures !Skips(AdvanceStep(info, d, i, c).ops[i].pc)
  {
  }

  lemma SkipAdvance(info: Identity, d: Device, i: nat, c: Choice)
    requires i < |d.ops| && d.ops[i].kind == Uncurtail && UnderWay(AdvanceStep(info, d, i, c).ops[i].pc)
    ensures var pc := AdvanceStep(info, d, i, c).ops[i].pc;
            Skips(pc) <==> if d.ops[i].pc.Entry? then !ShouldResume(d.snapshot) else Skips(d.ops[i].pc)
    ensures !d.ops[i].pc.Failed?
  {
    if d.ops[i].pc.Entry? {
      SkipEntry(d, i);
    } else if Early(d.ops[i].pc) {
      SkipEarly(info, d, i, c);
    } else {
      SkipLate(info, d, i, c);
    }
  }

  lemma OthersStay(info: Identity, d: Device, a: Action, i: nat)
    requires i < |d.ops| && !Moves(d, a, i) && UnderWay(Step(info, d, a).ops[i].pc)
    ensures Step(info, d, a).ops[i] == d.ops[i]
  {
    match a
    case Advance(j, c) => if j < |d.ops| { AdvanceLeaves(info, d, j, c, i); }
    case _ =>
  }

  lemma EarlyLeaves(info: Identity, d: Device, j: nat, c: Choice, i: nat)
    requires j < |d.ops| && i < |d.ops| && i != j && Early(d.ops[j].pc) && !d.ops[j].pc.Holding?
    ensures AdvanceStep(info, d, j, c).ops[i] == d.ops[i]
  {
  }

  lemma HoldingLeaves(info: Identity, d: Device, j: nat, c: Choice, i: nat)
    requires j < |d.ops| && i < |d.ops| && i != j && d.ops[j].pc.Holding?
    ensures AdvanceStep(info, d, j, c).ops[i] == d.ops[i]
  {
  }

  lemma AdvanceLeaves(info: Identity, d: Device, j: nat, c: Choice, i: nat)
    requires j < |d.ops| && i < |d.ops| && i != j
    ensures AdvanceStep(info, d, j, c).ops[i] == d.ops[i]
  {
    if d.ops[j].pc.Holding? {
      HoldingLeaves(info, d, j, c, i);
    } else if Early(d.ops[j].pc) {
      EarlyLeaves(info, d, j, c, i);
    }
  }

  lemma WasCalled(info: Identity, d: Device, a: Action, i: nat)
    requires i < |Step(info, d, a).ops| && UnderWay(Step(info, d, a).ops[i].pc)
    ensures i < |d.ops| && Step(info, d, a).ops[i].kind == d.ops[i].kind
  {
  }

  /** Whatever runs beside it, an uncurtail that is not dropped and does not fail skips the command
      exactly if the record said idle at its first step, action e. */
  lemma {:induction false} SkipsExactly(info: Identity, acts: seq<Action>, u: nat) returns (e: nat)
    requires u < |Run(info, acts).ops| && Run(info, acts).ops[u].kind == Uncurtail && UnderWay(Run(info, acts).ops[u].pc)
    ensures e < |acts| && Moves(Run(info, acts[..e]), acts[e], u) && Run(info, acts[..e]).ops[u].pc.Entry?
    ensures Skips(Run(info, acts).ops[u].pc) <==> Run(info, acts[..e]).snapshot == WasNotMining
  {
    var before, last := acts[..|acts| - 1], acts[|acts| - 1];
    var d := Run(info, before);
    WasCalled(info, d, last, u);
    if Moves(d, last, u) {
      SkipAdvance(info, d, u, last.choice);
    } else {
      OthersStay(info, d, last, u);
    }
    if Moves(d, last, u) && d.ops[u].pc.Entry? {
      e := |before|;
    } else {
      e := SkipsExactly(info, before, u);
      assert before[..e] == acts[..e];
    }
  }
}
