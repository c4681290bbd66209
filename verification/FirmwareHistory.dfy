/** What a whole run did: which updates it began, which it completed, which versions it
    came to run, and how many failures were asked for. */
module FirmwareHistory {
  import opened Versions
  import opened Firmware
  import opened FirmwareRuns

  datatype Update = Update(version: string, outcome: Outcome)

  datatype History = History(
    begun: map<nat, Update>,       // every update begun, by its sequence number
    completed: multiset<nat>,      // one entry for each time an install completed
    promoted: seq<nat>,            // the updates whose version came to run, in order
    errors: nat,                   // updates that ended in error
    armed: nat)                    // requests that armed error or attention

  const NOTHING: History := History(map[], multiset{}, [], 0, 0)

  function Bad(o: Outcome): nat
  {
    if o == Failure || o == Attention then 1 else 0
  }

  /** What is read off one action: the states before and after it. */
  function Record(h: History, before: Fw, a: Action, after: Fw): History
  {
    var begins := a != RebootRig && before.sequence != after.sequence;
    var completes := before.status == Installing && (after.status == Installed || after.status == Error);
    History(
      if begins then h.begun[after.sequence := Update(after.staged, after.outcome)] else h.begun,
      if completes then h.completed + multiset{before.sequence} else h.completed,
      if a == RebootRig && before.status == Installed then h.promoted + [before.sequence] else h.promoted,
      if completes && after.status == Error then h.errors + 1 else h.errors,
      if a.ArmOutcome? then h.armed + Bad(a.outcome) else h.armed)
  }

  function Log(acts: seq<Action>): History
  {
    if acts == [] then NOTHING
    else
      var init, last := acts[..|acts| - 1], acts[|acts| - 1];
      Record(Log(init), Run(init).fw, last, Run(acts).fw)
  }

  /** The version running after the first k promotions. */
  function VersionAfter(h: History, k: nat): string
    requires k <= |h.promoted|
  {
    if k == 0 then DEFAULT_VERSION
    else if h.promoted[k - 1] in h.begun then h.begun[h.promoted[k - 1]].version
    else ""
  }

  /** The lifecycle fields describe the newest update. */
  ghost predicate NewestIsBegun(fw: Fw, h: History)
  {
    && (forall n :: n in h.begun ==> n <= fw.sequence)
    && (!fw.status.Unset? && !fw.status.Current? ==>
          fw.sequence in h.begun && h.begun[fw.sequence] == Update(fw.staged, fw.outcome))
  }

  /** No update is completed twice, and one in progress not at all so far. */
  ghost predicate CompletedOnce(fw: Fw, h: History)
  {
    && (forall n :: n in h.completed ==> n <= fw.sequence && h.completed[n] == 1)
    && (InProgress(fw.status) ==> fw.sequence !in h.completed)
  }

  /** Promotions are distinct successful updates, oldest first. */
  ghost predicate PromotedInOrder(fw: Fw, h: History)
  {
    && (forall i :: 0 <= i < |h.promoted| ==>
          && h.promoted[i] < fw.sequence
          && h.promoted[i] in h.begun && h.begun[h.promoted[i]].outcome == Success)
    && (forall i, j :: 0 <= i < j < |h.promoted| ==> h.promoted[i] < h.promoted[j])
  }

  predicate VersionsFollow(fw: Fw, h: History)
  {
    var k := |h.promoted|;
    && fw.current == VersionAfter(h, k)
    && fw.previous == if k == 0 then "" else VersionAfter(h, k - 1)
  }

  /** Every error was armed, and armed outcomes still to come are accounted for. */
  predicate ErrorsArmed(fw: Fw, h: History)
  {
    h.errors + Bad(fw.next) + (if InProgress(fw.status) then Bad(fw.outcome) else 0) <= h.armed
  }

  ghost predicate HistoryInv(fw: Fw, h: History)
  {
    NewestIsBegun(fw, h) && CompletedOnce(fw, h) && PromotedInOrder(fw, h) && VersionsFollow(fw, h)
    && ErrorsArmed(fw, h)
  }

  // ----- what one action can do to the firmware state -----

  /** The only ways an action can change the firmware state. */
  predicate Effect(fw: Fw, a: Action, fw': Fw)
  {
    || fw' == fw
    || (a == RebootRig && fw' == Reboot(fw))
    || (a.ArmOutcome? && fw' == Arm(fw, a.outcome))
    || (a.Wake? && fw.status == Downloading && fw' == fw.(status := Downloaded))
    || (!a.RebootRig? && fw.status == Downloaded && fw' == fw.(status := Installing))
    || (a.Wake? && fw.status == Installing && fw' == CompleteInstall(fw, fw.sequence) && fw'.status != Installing)
    || (a == Wake(RebootWait) && fw' == FinishReboot(fw))
    || Begins(fw, a, fw')
  }

  predicate Begins(fw: Fw, a: Action, fw': Fw)
  {
    && (a.PostUpdate? || a.EndUpload?) && !UpdatePending(fw.status)
    && (fw'.status == Downloading || fw'.status == Downloaded)
    && fw' == Begin(fw, fw'.status, fw'.staged)
  }

  lemma PostEffect(rig: Rig)
    requires FieldsAgree(rig.fw)
    ensures Effect(rig.fw, PostUpdate, Step(rig, PostUpdate).fw)
  {
  }

  lemma WakeEffect(rig: Rig, r: Routine)
    ensures Effect(rig.fw, Wake(r), Step(rig, Wake(r)).fw)
  {
  }

  lemma StepEffect(rig: Rig, a: Action)
    requires FieldsAgree(rig.fw)
    ensures Effect(rig.fw, a, Step(rig, a).fw)
    ensures a.ArmOutcome? && a.outcome == Unknown ==> Step(rig, a).fw == rig.fw
    ensures a.ArmOutcome? && a.outcome != Unknown ==> Step(rig, a).fw == Arm(rig.fw, a.outcome)
    ensures a == RebootRig ==> Step(rig, a).fw == Reboot(rig.fw)
  {
    match a
    case PostUpdate => PostEffect(rig);
    case Wake(r) => WakeEffect(rig, r);
    case _ =>
  }

  // ----- the history keeps its invariant -----

  lemma KeepArm(fw: Fw, h: History, o: Outcome)
    requires HistoryInv(fw, h)
    ensures HistoryInv(Arm(fw, o), Record(h, fw, ArmOutcome(o), Arm(fw, o)))
  {
  }

  lemma KeepReboot(fw: Fw, h: History)
    requires HistoryInv(fw, h) && FieldsAgree(fw)
    ensures HistoryInv(Reboot(fw), Record(h, fw, RebootRig, Reboot(fw)))
  {
    var h' := Record(h, fw, RebootRig, Reboot(fw));
    var k := |h.promoted|;
    assert h'.begun == h.begun;
    assert forall i :: 0 <= i <= k ==> VersionAfter(h', i) == VersionAfter(h, i);
  }

  lemma KeepBegin(fw: Fw, h: History, a: Action, fw': Fw)
    requires HistoryInv(fw, h) && FieldsAgree(fw) && Begins(fw, a, fw')
    ensures HistoryInv(fw', Record(h, fw, a, fw'))
  {
    var h' := Record(h, fw, a, fw');
    assert h'.promoted == h.promoted && h'.completed == h.completed;
    assert forall i :: 0 <= i <= |h.promoted| ==> VersionAfter(h', i) == VersionAfter(h, i);
  }

  lemma KeepComplete(fw: Fw, h: History, a: Action, fw': Fw)
    requires HistoryInv(fw, h) && a.Wake? && fw.status == Installing
    requires fw' == CompleteInstall(fw, fw.sequence) && fw'.status != Installing
    ensures HistoryInv(fw', Record(h, fw, a, fw'))
  {
    var h' := Record(h, fw, a, fw');
    assert h'.promoted == h.promoted && h'.begun == h.begun;
    assert forall i :: 0 <= i <= |h.promoted| ==> VersionAfter(h', i) == VersionAfter(h, i);
  }

  lemma KeepQuiet(fw: Fw, h: History, a: Action, fw': Fw)
    requires HistoryInv(fw, h) && FieldsAgree(fw) && Effect(fw, a, fw') && !Begins(fw, a, fw')
    requires !a.RebootRig? && !a.ArmOutcome? && !(a.Wake? && fw.status == Installing && fw'.status != Installing)
    ensures HistoryInv(fw', Record(h, fw, a, fw'))
  {
    assert Record(h, fw, a, fw') == h;
  }

  lemma KeepStep(fw: Fw, h: History, a: Action, fw': Fw)
    requires HistoryInv(fw, h) && FieldsAgree(fw) && Effect(fw, a, fw')
    requires a.ArmOutcome? && a.outcome == Unknown ==> fw' == fw
    requires a.ArmOutcome? && a.outcome != Unknown ==> fw' == Arm(fw, a.outcome)
    requires a == RebootRig ==> fw' == Reboot(fw)
    ensures HistoryInv(fw', Record(h, fw, a, fw'))
  {
    if a == RebootRig {
      KeepReboot(fw, h);
    } else if a.ArmOutcome? {
      KeepArm(fw, h, a.outcome);
    } else if Begins(fw, a, fw') {
      KeepBegin(fw, h, a, fw');
    } else if a.Wake? && fw.status == Installing && fw'.status != Installing {
      KeepComplete(fw, h, a, fw');
    } else {
      KeepQuiet(fw, h, a, fw');
    }
  }

  lemma {:induction false} HistoryRun(acts: seq<Action>)
    ensures HistoryInv(Run(acts).fw, Log(acts))
  {
    if acts != [] {
      var init, last := acts[..|acts| - 1], acts[|acts| - 1];
      HistoryRun(init);
      InvRun(init);
      StepEffect(Run(init), last);
      KeepStep(Run(init).fw, Log(init), last, Run(acts).fw);
    }
  }

  // ----- what every run did -----

  /** The rig runs the version of its last promoted update and remembers the one before;
      promoted updates are distinct, in order, and had outcome success. */
  lemma {:induction false} RunningVersionHistory(acts: seq<Action>)
    ensures VersionsFollow(Run(acts).fw, Log(acts)) && PromotedInOrder(Run(acts).fw, Log(acts))
  {
    HistoryRun(acts);
  }

  /** The running version changes only when a reboot finds an installed update. */
  lemma {:induction false} VersionChangesOnlyByReboot(acts: seq<Action>, a: Action)
    requires Run(acts + [a]).fw.current != Run(acts).fw.current
    ensures a == RebootRig && Run(acts).fw.status == Installed && Run(acts).fw.outcome == Success
    ensures Run(acts + [a]).fw.current == Run(acts).fw.staged
    ensures Run(acts + [a]).fw.previous == Run(acts).fw.current
  {
    InvRun(acts);
    RunSnoc(acts, a);
    StepEffect(Run(acts), a);
    EffectOnVersion(Run(acts).fw, a, Run(acts + [a]).fw);
  }

  lemma EffectOnVersion(fw: Fw, a: Action, fw': Fw)
    requires Effect(fw, a, fw') && FieldsAgree(fw) && fw'.current != fw.current
    ensures a == RebootRig && fw.status == Installed && fw.outcome == Success
    ensures fw'.current == fw.staged && fw'.previous == fw.current
  {
  }

  /** No update completes twice. */
  lemma {:induction false} NoUpdateCompletesTwice(acts: seq<Action>, n: nat)
    ensures Log(acts).completed[n] <= 1
    ensures Run(acts).fw.sequence == n && InProgress(Run(acts).fw.status) ==> Log(acts).completed[n] == 0
  {
    HistoryRun(acts);
  }

  /** Updates that end in error never outnumber the requests that armed one. */
  lemma {:induction false} ErrorsWereArmed(acts: seq<Action>)
    ensures Log(acts).errors <= Log(acts).armed
  {
    HistoryRun(acts);
  }
}
