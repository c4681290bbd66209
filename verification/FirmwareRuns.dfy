/** Every interleaving of the update, upload and reboot requests with the background
    routines they start.

    A run is any sequence of actions. An action is one locked region; an action that
    cannot happen (a routine wakes that is not pending) leaves the rig as it is. */
module FirmwareRuns {
  import opened Wrappers
  import opened Versions
  import opened Firmware

  /** A background routine that is asleep and will enter a locked region later. */
  datatype Routine =
    | DownloadWait(sequence: nat)   // before downloading -> downloaded
    | StageWait(sequence: nat)      // before downloaded -> installing
    | InstallWait(sequence: nat)    // before installing -> installed or error
    | RebootWait                    // before the rig is back online

  /** `uploads` are the PUT requests between their two checks, by the version in the file. */
  datatype Rig = Rig(fw: Fw, pending: multiset<Routine>, uploads: multiset<Option<string>>)

  datatype Action =
    | PostUpdate
    | StartUpload(explicit: Option<string>)
    | DropUpload(explicit: Option<string>)
    | EndUpload(explicit: Option<string>)
    | Wake(routine: Routine)
    | RebootRig
    | ArmOutcome(outcome: Outcome)

  const START: Rig := Rig(NEW_RIG, multiset{}, multiset{})

  function Started(reply: Reply): multiset<Routine>
  {
    match reply
    case Refused => multiset{}
    case RunDownload(n) => multiset{DownloadWait(n)}
    case RunStage(n) => multiset{StageWait(n)}
    case RunInstall(n) => multiset{InstallWait(n)}
  }

  /** A version read from a file name or its content is never empty. */
  predicate Readable(explicit: Option<string>)
  {
    explicit.Some? ==> explicit.value != ""
  }

  function WakeStep(rig: Rig, r: Routine): Rig
    requires r in rig.pending
  {
    var fw, rest := rig.fw, rig.pending - multiset{r};
    match r
    case DownloadWait(n) =>
      rig.(fw := Transition(fw, n, Downloading, Downloaded),
           pending := if Live(fw, n, Downloading) then rest + multiset{StageWait(n)} else rest)
    case StageWait(n) =>
      rig.(fw := Transition(fw, n, Downloaded, Installing),
           pending := if Live(fw, n, Downloaded) then rest + multiset{InstallWait(n)} else rest)
    case InstallWait(n) => rig.(fw := CompleteInstall(fw, n), pending := rest)
    case RebootWait => rig.(fw := FinishReboot(fw), pending := rest)
  }

  function UploadStep(rig: Rig, explicit: Option<string>): Rig
    requires explicit in rig.uploads
  {
    var (fw', reply) := FinishUpload(rig.fw, explicit);
    Rig(fw', rig.pending + Started(reply), rig.uploads - multiset{explicit})
  }

  function Step(rig: Rig, a: Action): Rig
  {
    match a
    case PostUpdate =>
      var (fw', reply) := Post(rig.fw);
      rig.(fw := fw', pending := rig.pending + Started(reply))
    case StartUpload(explicit) =>
      if UploadAllowed(rig.fw) && Readable(explicit) then rig.(uploads := rig.uploads + multiset{explicit})
      else rig
    case DropUpload(explicit) => rig.(uploads := rig.uploads - multiset{explicit})
    case EndUpload(explicit) => if explicit in rig.uploads then UploadStep(rig, explicit) else rig
    case Wake(r) => if r in rig.pending then WakeStep(rig, r) else rig
    case RebootRig => rig.(fw := Reboot(rig.fw), pending := rig.pending + multiset{RebootWait})
    case ArmOutcome(o) => if o == Unknown then rig else rig.(fw := Arm(rig.fw, o))
  }

  function Run(acts: seq<Action>): Rig
  {
    if acts == [] then START else Step(Run(acts[..|acts| - 1]), acts[|acts| - 1])
  }

  lemma RunSnoc(acts: seq<Action>, a: Action)
    ensures Run(acts + [a]) == Step(Run(acts), a)
  {
    assert (acts + [a])[..|acts|] == acts;
  }

  // ----- the invariant -----

  predicate InProgress(status: Status)
  {
    status.Downloading? || status.Downloaded? || status.Installing?
  }

  /** The one routine that can move an update in progress. */
  function Driver(fw: Fw): Routine
    requires InProgress(fw.status)
  {
    match fw.status
    case Downloading => DownloadWait(fw.sequence)
    case Downloaded => StageWait(fw.sequence)
    case _ => InstallWait(fw.sequence)
  }

  predicate NotNewer(r: Routine, sequence: nat)
  {
    match r
    case DownloadWait(n) => n <= sequence
    case StageWait(n) => n <= sequence
    case InstallWait(n) => n <= sequence
    case RebootWait => true
  }

  ghost predicate NoneNewer(rig: Rig)
  {
    && (forall r :: r in rig.pending ==> NotNewer(r, rig.fw.sequence))
    && (forall v :: v in rig.uploads ==> Readable(v))
  }

  /** How many routines of the newest lifecycle sit at each point. A POST may overtake the
      stage routine, which then stays behind as a sleeper that can no longer act. */
  ghost predicate Sleepers(fw: Fw, pending: multiset<Routine>)
  {
    var d, s, i := pending[DownloadWait(fw.sequence)], pending[StageWait(fw.sequence)],
                   pending[InstallWait(fw.sequence)];
    match fw.status
    case Downloading => d == 1 && s == 0 && i == 0
    case Downloaded => d == 0 && s == 1 && i == 0
    case Installing => d == 0 && s <= 1 && i == 1
    case Installed => d == 0 && i == 0
    case Error => d == 0 && i == 0
    case _ => d == 0 && s == 0 && i == 0
  }

  predicate FieldsAgree(fw: Fw)
  {
    && fw.next != Unknown
    && if fw.status.Unset? || fw.status.Current? then fw.staged == "" && fw.outcome == Unknown
       else
         && fw.staged != "" && fw.outcome != Unknown && fw.sequence > 0
         && (fw.status.Installed? ==> fw.outcome == Success)
         && (fw.status.Error? ==> fw.outcome != Success)
  }

  ghost predicate Inv(rig: Rig)
  {
    && NoneNewer(rig)
    && Sleepers(rig.fw, rig.pending)
    && FieldsAgree(rig.fw)
    && (rig.fw.rebooting ==> rig.fw.status == Current && RebootWait in rig.pending)
  }

  /** A lifecycle begins with a fresh number, so no older routine belongs to it. */
  lemma InvBegin(rig: Rig, status: Status, version: string, started: Routine)
    requires Inv(rig) && !rig.fw.rebooting && version != ""
    requires || (status == Downloading && started == DownloadWait(rig.fw.sequence + 1))
             || (status == Downloaded && started == StageWait(rig.fw.sequence + 1))
    ensures Inv(rig.(fw := Begin(rig.fw, status, version), pending := rig.pending + multiset{started}))
  {
    var n := rig.fw.sequence + 1;
    assert !NotNewer(DownloadWait(n), n - 1) && !NotNewer(StageWait(n), n - 1) && !NotNewer(InstallWait(n), n - 1);
  }

  lemma InvPost(rig: Rig)
    requires Inv(rig)
    ensures Inv(Step(rig, PostUpdate))
  {
    if !rig.fw.rebooting && !UpdatePending(rig.fw.status) {
      InvBegin(rig, Downloading, NextFirmwareVersion(RunningVersion(rig.fw)), DownloadWait(rig.fw.sequence + 1));
    }
  }

  lemma InvUpload(rig: Rig, explicit: Option<string>)
    requires Inv(rig) && explicit in rig.uploads
    ensures Inv(UploadStep(rig, explicit))
  {
    if UploadAllowed(rig.fw) {
      InvBegin(rig, Downloaded, UploadedVersion(rig.fw, explicit), StageWait(rig.fw.sequence + 1));
    }
  }

  /** A routine that is no longer live only disappears. */
  lemma InvGone(rig: Rig, r: Routine)
    requires Inv(rig) && r in rig.pending && r != RebootWait
    requires InProgress(rig.fw.status) ==> r != Driver(rig.fw)
    ensures Inv(rig.(pending := rig.pending - multiset{r}))
  {
  }

  lemma InvDownloaded(rig: Rig)
    requires Inv(rig) && rig.fw.status.Downloading?
    ensures var r := DownloadWait(rig.fw.sequence); r in rig.pending && Inv(WakeStep(rig, r))
  {
    assert NotNewer(StageWait(rig.fw.sequence), rig.fw.sequence);
  }

  lemma InvStaged(rig: Rig)
    requires Inv(rig) && rig.fw.status.Downloaded?
    ensures var r := StageWait(rig.fw.sequence); r in rig.pending && Inv(WakeStep(rig, r))
  {
    assert NotNewer(InstallWait(rig.fw.sequence), rig.fw.sequence);
  }

  lemma InvCompleted(rig: Rig)
    requires Inv(rig) && rig.fw.status.Installing?
    ensures var r := InstallWait(rig.fw.sequence); r in rig.pending && Inv(WakeStep(rig, r))
  {
  }

  lemma InvDrive(rig: Rig)
    requires Inv(rig) && InProgress(rig.fw.status)
    ensures Driver(rig.fw) in rig.pending && Inv(WakeStep(rig, Driver(rig.fw)))
  {
    match rig.fw.status {
      case Downloading => InvDownloaded(rig);
      case Downloaded => InvStaged(rig);
      case _ => InvCompleted(rig);
    }
  }

  lemma InvWake(rig: Rig, r: Routine)
    requires Inv(rig) && r in rig.pending
    ensures Inv(WakeStep(rig, r))
  {
    if r == RebootWait {
      InvOnline(rig);
    } else if InProgress(rig.fw.status) && r == Driver(rig.fw) {
      InvDrive(rig);
    } else {
      StaleWake(rig, r);
      InvGone(rig, r);
    }
  }

  lemma InvOnline(rig: Rig)
    requires Inv(rig) && RebootWait in rig.pending
    ensures Inv(WakeStep(rig, RebootWait))
  {
  }

  /** A routine that does not drive an update does nothing when it wakes. */
  lemma StaleWake(rig: Rig, r: Routine)
    requires r in rig.pending && r != RebootWait && (InProgress(rig.fw.status) ==> r != Driver(rig.fw))
    ensures WakeStep(rig, r) == rig.(pending := rig.pending - multiset{r})
  {
  }

  lemma InvReboot(rig: Rig)
    requires Inv(rig)
    ensures Inv(Step(rig, RebootRig))
  {
    var n := rig.fw.sequence + 1;
    assert !NotNewer(DownloadWait(n), n - 1) && !NotNewer(StageWait(n), n - 1) && !NotNewer(InstallWait(n), n - 1);
  }

  lemma InvStep(rig: Rig, a: Action)
    requires Inv(rig)
    ensures Inv(Step(rig, a))
  {
    match a
    case Wake(r) =>
      if r in rig.pending {
        InvWake(rig, r);
      }
    case EndUpload(v) =>
      if v in rig.uploads {
        InvUpload(rig, v);
      }
    case PostUpdate => InvPost(rig);
    case RebootRig => InvReboot(rig);
    case _ => InvQuiet(rig, a);
  }

  lemma InvQuiet(rig: Rig, a: Action)
    requires Inv(rig) && (a.StartUpload? || a.DropUpload? || a.ArmOutcome?)
    ensures Inv(Step(rig, a))
  {
  }

  lemma {:induction false} InvRun(acts: seq<Action>)
    ensures Inv(Run(acts))
  {
    if acts != [] {
      InvRun(acts[..|acts| - 1]);
      InvStep(Run(acts[..|acts| - 1]), acts[|acts| - 1]);
    }
  }

  // ----- no update is stuck, none is driven by two routines -----

  predicate Lifecycle(r: Routine)
  {
    !r.RebootWait?
  }

  /** A pending lifecycle routine that would change the firmware state if it woke now. */
  predicate Able(rig: Rig, r: Routine)
  {
    r in rig.pending && Lifecycle(r) && Step(rig, Wake(r)).fw != rig.fw
  }

  /** In every reachable state an update in progress has exactly one pending routine that can
      move it on, pending once; every other lifecycle routine is powerless. With nothing in
      progress all of them are. */
  lemma {:induction false} ExactlyOneDriver(acts: seq<Action>, r: Routine)
    ensures var rig := Run(acts);
            && (InProgress(rig.fw.status) ==>
                  rig.pending[Driver(rig.fw)] == 1 && (Able(rig, r) <==> r == Driver(rig.fw)))
            && (!InProgress(rig.fw.status) ==> !Able(rig, r))
  {
    InvRun(acts);
    OneDriver(Run(acts), r);
  }

  lemma OneDriver(rig: Rig, r: Routine)
    requires Inv(rig)
    ensures InProgress(rig.fw.status) ==> rig.pending[Driver(rig.fw)] == 1 && (Able(rig, r) <==> r == Driver(rig.fw))
    ensures !InProgress(rig.fw.status) ==> !Able(rig, r)
  {
    if InProgress(rig.fw.status) {
      DriverMoves(rig);
    }
  }

  lemma DriverMoves(rig: Rig)
    requires Inv(rig) && InProgress(rig.fw.status)
    ensures Able(rig, Driver(rig.fw))
    ensures var fw' := Step(rig, Wake(Driver(rig.fw))).fw;
            match rig.fw.status
            case Downloading => fw' == rig.fw.(status := Downloaded)
            case Downloaded => fw' == rig.fw.(status := Installing)
            case _ => fw'.status == if rig.fw.outcome == Success then Installed else Error
  {
  }

  /** The two repairs POST makes before installing a downloaded image are never needed. */
  lemma {:induction false} PostNeverRepairs(acts: seq<Action>)
    ensures Run(acts).fw.status == Downloaded ==>
      Post(Run(acts).fw).0 == Run(acts).fw.(status := Installing)
  {
    InvRun(acts);
  }

  // ----- left alone, the rig comes to rest -----

  /** What is left to do: each step of a routine or an upload uses some of it up. */
  function Work(rig: Rig): nat
  {
    4 * |rig.uploads| + 2 * |rig.pending|
    + if rig.fw.status == Downloading then 2 else if rig.fw.status == Downloaded then 1 else 0
  }

  /** An action that is not a new request and does happen. */
  predicate Continues(rig: Rig, a: Action)
  {
    (a.Wake? && a.routine in rig.pending) || (a.EndUpload? && a.explicit in rig.uploads)
  }

  lemma ContinuingUsesUp(rig: Rig, a: Action)
    requires Continues(rig, a)
    ensures Work(Step(rig, a)) < Work(rig)
  {
    if a.Wake? {
      WakeUsesUp(rig, a.routine);
    } else {
      UploadUsesUp(rig, a.explicit);
    }
  }

  lemma WakeUsesUp(rig: Rig, r: Routine)
    requires r in rig.pending
    ensures Work(WakeStep(rig, r)) < Work(rig)
  {
    var rest := rig.pending - multiset{r};
    assert |rest| == |rig.pending| - 1;
  }

  lemma UploadUsesUp(rig: Rig, v: Option<string>)
    requires v in rig.uploads
    ensures Work(UploadStep(rig, v)) < Work(rig)
  {
    assert |rig.uploads - multiset{v}| == |rig.uploads| - 1;
    var reply := FinishUpload(rig.fw, v).1;
    assert |rig.pending + Started(reply)| <= |rig.pending| + 1;
  }

  ghost predicate AllContinue(acts: seq<Action>, more: seq<Action>)
  {
    forall i :: 0 <= i < |more| ==> Continues(Run(acts + more[..i]), more[i])
  }

  lemma WorkStep(acts: seq<Action>, more: seq<Action>, i: nat)
    requires i < |more| && Continues(Run(acts + more[..i]), more[i])
    ensures Work(Run(acts + more[..i + 1])) < Work(Run(acts + more[..i]))
  {
    assert acts + more[..i + 1] == (acts + more[..i]) + [more[i]];
    RunSnoc(acts + more[..i], more[i]);
    ContinuingUsesUp(Run(acts + more[..i]), more[i]);
  }

  lemma {:induction false} Descends(ws: seq<nat>)
    requires ws != [] && forall i :: 0 < i < |ws| ==> ws[i] < ws[i - 1]
    ensures |ws| - 1 <= ws[0]
  {
    if |ws| > 1 {
      Descends(ws[1..]);
    }
  }

  lemma {:induction false} WorkBound(acts: seq<Action>, more: seq<Action>)
    requires AllContinue(acts, more)
    ensures |more| <= Work(Run(acts))
  {
    var ws := seq(|more| + 1, i requires 0 <= i <= |more| => Work(Run(acts + more[..i])));
    forall i | 0 < i < |ws|
      ensures ws[i] < ws[i - 1]
    {
      WorkStep(acts, more, i - 1);
    }
    Descends(ws);
    assert acts + more[..0] == acts;
  }

  /** Whatever the order in which routines wake and uploads end, a bounded number of them
      does, and once none is left no update is in progress and the rig is online. */
  lemma {:induction false} ComesToRest(acts: seq<Action>, more: seq<Action>)
    requires AllContinue(acts, more)
    ensures |more| <= Work(Run(acts))
    ensures var rig := Run(acts + more);
            rig.pending == multiset{} ==> !InProgress(rig.fw.status) && !rig.fw.rebooting
  {
    WorkBound(acts, more);
    InvRun(acts + more);
  }

  // ----- reboot is a fence -----

  lemma {:induction false} SequenceGrows(pre: seq<Action>, post: seq<Action>)
    ensures Run(pre).fw.sequence <= Run(pre + post).fw.sequence
  {
    if post == [] {
      assert pre + post == pre;
    } else {
      var init := post[..|post| - 1];
      assert (pre + post)[..|pre + post| - 1] == pre + init;
      SequenceGrows(pre, init);
      StepGrows(Run(pre + init), post[|post| - 1]);
    }
  }

  lemma StepGrows(rig: Rig, a: Action)
    ensures rig.fw.sequence <= Step(rig, a).fw.sequence
  {
    match a
    case PostUpdate => PostGrows(rig.fw);
    case EndUpload(explicit) => UploadGrows(rig.fw, explicit);
    case Wake(r) => if r in rig.pending { WakeGrows(rig, r); }
    case _ =>
  }

  lemma PostGrows(fw: Fw)
    ensures fw.sequence <= Post(fw).0.sequence
  {
  }

  lemma UploadGrows(fw: Fw, explicit: Option<string>)
    ensures fw.sequence <= FinishUpload(fw, explicit).0.sequence
  {
  }

  lemma WakeGrows(rig: Rig, r: Routine)
    requires r in rig.pending
    ensures rig.fw.sequence <= WakeStep(rig, r).fw.sequence
  {
  }

  ghost predicate Powerless(rig: Rig, n: nat)
  {
    !Able(rig, DownloadWait(n)) && !Able(rig, StageWait(n)) && !Able(rig, InstallWait(n))
  }

  lemma OlderIsPowerless(rig: Rig, n: nat)
    requires n < rig.fw.sequence
    ensures Powerless(rig, n)
  {
  }

  lemma NewerThanFence(pre: seq<Action>, post: seq<Action>)
    ensures Run(pre).fw.sequence < Run(pre + [RebootRig] + post).fw.sequence
  {
    ThenNewer(pre);
    SequenceGrows(pre + [RebootRig], post);
  }

  lemma ThenNewer(acts: seq<Action>)
    ensures Run(acts).fw.sequence < Run(acts + [RebootRig]).fw.sequence
  {
    RunSnoc(acts, RebootRig);
    RebootAdvances(Run(acts));
  }

  lemma RebootAdvances(rig: Rig)
    ensures rig.fw.sequence < Step(rig, RebootRig).fw.sequence
    ensures Step(rig, RebootRig).pending == rig.pending + multiset{RebootWait}
  {
  }

  /** Nothing a lifecycle that was pending before a reboot does later, at whatever point it
      has got to and however long after, changes the firmware state. */
  lemma {:induction false} RebootFence(pre: seq<Action>, post: seq<Action>, r: Routine)
    requires r in Run(pre).pending && Lifecycle(r)
    ensures Powerless(Run(pre + [RebootRig] + post), r.sequence)
  {
    InvRun(pre);
    assert NotNewer(r, Run(pre).fw.sequence);
    NewerThanFence(pre, post);
    OlderIsPowerless(Run(pre + [RebootRig] + post), r.sequence);
  }

  /** While the rig reboots nothing is staged and its completion is pending. */
  lemma {:induction false} RebootingIsIdle(acts: seq<Action>)
    ensures var rig := Run(acts);
            rig.fw.rebooting ==> rig.fw.status == Current && rig.fw.staged == "" && RebootWait in rig.pending
  {
    InvRun(acts);
  }

  /** The rig is offline after a reboot exactly until some reboot completion wakes, be it the
      completion of this reboot or of one before it. */
  lemma {:induction false} OfflineExactly(pre: seq<Action>, post: seq<Action>)
    requires RebootRig !in post
    ensures Run(pre + [RebootRig] + post).fw.rebooting <==> Wake(RebootWait) !in post
  {
    var acts := pre + [RebootRig] + post;
    if post == [] {
      assert acts == pre + [RebootRig];
      RunSnoc(pre, RebootRig);
    } else {
      var init, last := post[..|post| - 1], post[|post| - 1];
      assert post == init + [last];
      assert acts == (pre + [RebootRig] + init) + [last];
      OfflineExactly(pre, init);
      InvRun(pre + [RebootRig] + init);
      RunSnoc(pre + [RebootRig] + init, last);
      StepOffline(Run(pre + [RebootRig] + init), last);
    }
  }

  lemma StepOffline(rig: Rig, a: Action)
    requires rig.fw.rebooting ==> RebootWait in rig.pending
    requires a != RebootRig
    ensures Step(rig, a).fw.rebooting <==> rig.fw.rebooting && a != Wake(RebootWait)
  {
    match a
    case Wake(r) =>
      if r in rig.pending {
        match r
        case RebootWait =>
        case _ => assert WakeStep(rig, r).fw.rebooting == rig.fw.rebooting;
      }
    case _ =>
  }

  lemma ThenReboot(acts: seq<Action>)
    ensures Run(acts + [RebootRig]).pending == Run(acts).pending + multiset{RebootWait}
  {
    RunSnoc(acts, RebootRig);
    RebootAdvances(Run(acts));
  }

  lemma OnlineStep(rig: Rig)
    requires RebootWait in rig.pending
    ensures var rig' := Step(rig, Wake(RebootWait));
            !rig'.fw.rebooting && rig'.pending == rig.pending - multiset{RebootWait}
  {
  }

  lemma ThenOnline(acts: seq<Action>)
    requires RebootWait in Run(acts).pending
    ensures var rig := Run(acts + [Wake(RebootWait)]);
            !rig.fw.rebooting && rig.pending == Run(acts).pending - multiset{RebootWait}
  {
    RunSnoc(acts, Wake(RebootWait));
    OnlineStep(Run(acts));
  }

  /** So a second reboot can be cut short by the completion of the first. */
  lemma {:induction false} RebootCutShort(acts: seq<Action>)
    ensures var rig := Run(acts + [RebootRig] + [RebootRig] + [Wake(RebootWait)]);
            !rig.fw.rebooting && RebootWait in rig.pending
  {
    ThenReboot(acts);
    ThenReboot(acts + [RebootRig]);
    ThenOnline(acts + [RebootRig] + [RebootRig]);
  }

  // ----- an upload is not fenced -----

  lemma UploadTakes(rig: Rig, v: Option<string>)
    requires v in rig.uploads
    ensures var fw' := Step(rig, EndUpload(v)).fw;
            && (fw' != rig.fw <==> UploadAllowed(rig.fw))
            && (fw' != rig.fw ==> fw'.status == Downloaded && fw'.staged == UploadedVersion(rig.fw, v)
                                  && fw'.sequence == rig.fw.sequence + 1)
  {
  }

  /** The fence does not hold back the upload requests: one that was open at a reboot, and still
      is, begins a new update when it ends, exactly if the rig is back online by then with no
      update pending. */
  lemma {:induction false} UploadAcrossReboot(pre: seq<Action>, post: seq<Action>, v: Option<string>)
    requires v in Run(pre).uploads && v in Run(pre + [RebootRig] + post).uploads
    ensures var rig := Run(pre + [RebootRig] + post);
            var fw' := Step(rig, EndUpload(v)).fw;
            && (fw' != rig.fw <==> !rig.fw.rebooting && !UpdatePending(rig.fw.status))
            && (fw' != rig.fw ==> fw'.status == Downloaded && fw'.staged == UploadedVersion(rig.fw, v)
                                  && fw'.sequence == rig.fw.sequence + 1 > Run(pre).fw.sequence + 1)
            && (RebootRig !in post ==>
                  (fw' != rig.fw <==> Wake(RebootWait) in post && !UpdatePending(rig.fw.status)))
  {
    UploadTakes(Run(pre + [RebootRig] + post), v);
    NewerThanFence(pre, post);
    if RebootRig !in post {
      OfflineExactly(pre, post);
    }
  }

  lemma UploadOverReboot(rig: Rig, v: Option<string>)
    requires UploadAllowed(rig.fw) && Readable(v)
    ensures var rig' := Step(Step(Step(Step(rig, StartUpload(v)), RebootRig), Wake(RebootWait)), EndUpload(v));
            rig'.fw.status == Downloaded && rig'.fw.sequence == rig.fw.sequence + 2
  {
    var r2 := Step(Step(rig, StartUpload(v)), RebootRig);
    assert RebootWait in r2.pending && v in r2.uploads;
    var r3 := Step(r2, Wake(RebootWait));
    assert r3.fw == FinishReboot(r2.fw) && r3.uploads == r2.uploads;
    UploadTakes(r3, v);
  }

  /** That does happen: whenever an upload may start, a reboot may pass between its two checks. */
  lemma {:induction false} UploadOutlivesReboot(acts: seq<Action>, v: Option<string>)
    requires UploadAllowed(Run(acts).fw) && Readable(v)
    ensures var rig := Run(acts + [StartUpload(v)] + [RebootRig] + [Wake(RebootWait)] + [EndUpload(v)]);
            rig.fw.status == Downloaded && rig.fw.sequence == Run(acts).fw.sequence + 2
  {
    RunSnoc(acts, StartUpload(v));
    RunSnoc(acts + [StartUpload(v)], RebootRig);
    RunSnoc(acts + [StartUpload(v)] + [RebootRig], Wake(RebootWait));
    RunSnoc(acts + [StartUpload(v)] + [RebootRig] + [Wake(RebootWait)], EndUpload(v));
    UploadOverReboot(Run(acts), v);
  }
}
