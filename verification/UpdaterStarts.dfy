/** Exactly when the copies of one request start its operation at most once, and what it takes
    to start it again. */
module UpdaterStarts {
  import opened Updater
  import opened UpdaterRuns

  /** What an action is to the operation of request a. */
  datatype Mark =
    | Start            // a copy of the request arrives and is admitted
    | Copy             // a copy arrives and starts nothing
    | Failure          // the operation fails or is interrupted
    | Displacement     // another operation takes its place
    | Nothing

  predicate Arrives(s: System, act: Action)
  {
    (act.Answered? && s.client.Trying?) || (act.Late? && s.late > 0)
  }

  function MarkOf(s: System, a: Request, act: Action): Mark
  {
    if Arrives(s, act) then if Admits(s.m, a, act.trouble) then Start else Copy
    else match act
      case Others(r, trouble) =>
        if r.id != a.id && IsCurrent(s.m, a) && Admits(s.m, r, trouble) then Displacement else Nothing
      case Updater(w) =>
        if IsCurrent(s.m, a) && Working(s.m) && Do(s.m, w).operation.value.phase == Failed then Failure else Nothing
      case _ => Nothing
  }

  ghost function Story(m: Manager, a: Request, acts: seq<Action>): (marks: seq<Mark>)
    ensures |marks| == |acts|
  {
    if acts == [] then []
    else
      var before := acts[..|acts| - 1];
      Story(m, a, before) + [MarkOf(Run(m, a, before), a, acts[|acts| - 1])]
  }

  lemma {:induction false} StoryAt(m: Manager, a: Request, acts: seq<Action>, k: nat)
    requires k < |acts|
    ensures Story(m, a, acts)[k] == MarkOf(Run(m, a, acts[..k]), a, acts[k])
  {
    if k < |acts| - 1 {
      StoryAt(m, a, acts[..|acts| - 1], k);
      assert acts[..|acts| - 1][..k] == acts[..k];
    }
  }

  // ----- at most once -----

  function Starts(marks: seq<Mark>): nat
  {
    if marks == [] then 0 else Starts(marks[..|marks| - 1]) + if marks[|marks| - 1].Start? then 1 else 0
  }

  lemma StartsStep(s: System, a: Request, act: Action)
    ensures Step(s, a, act).starts == s.starts + if MarkOf(s, a, act).Start? then 1 else 0
  {
  }

  lemma {:induction false} StartsAreCounted(m: Manager, a: Request, acts: seq<Action>)
    ensures Run(m, a, acts).starts == Starts(Story(m, a, acts))
  {
    if acts != [] {
      var before := acts[..|acts| - 1];
      StartsAreCounted(m, a, before);
      StartsStep(Run(m, a, before), a, acts[|acts| - 1]);
      assert Story(m, a, acts)[..|before|] == Story(m, a, before);
    }
  }

  lemma {:induction false} NoneOrOne(marks: seq<Mark>)
    ensures Starts(marks) == 0 <==> forall i :: 0 <= i < |marks| ==> !marks[i].Start?
    ensures Starts(marks) <= 1 <==> forall i, k :: 0 <= i < k < |marks| ==> !(marks[i].Start? && marks[k].Start?)
  {
    if marks != [] {
      var before := marks[..|marks| - 1];
      NoneOrOne(before);
      assert forall i :: 0 <= i < |before| ==> before[i] == marks[i];
    }
  }

  /** Action k is a copy of the request that reaches the updater. */
  ghost predicate ArrivesAt(m: Manager, a: Request, acts: seq<Action>, k: nat)
    requires k < |acts|
  {
    Arrives(Run(m, a, acts[..k]), acts[k])
  }

  /** An arriving copy starts nothing when the updater holds the operation, is not idle, runs its
      release or a newer one, or refuses for another reason. */
  ghost predicate FindsNoStart(m: Manager, a: Request, acts: seq<Action>, k: nat)
    requires k < |acts| && ArrivesAt(m, a, acts, k)
  {
    var u := Run(m, a, acts[..k]).m;
    IsCurrent(u, a) || !Idle(u) || a.target <= u.installed || acts[k].trouble
  }

  ghost predicate StartsAt(m: Manager, a: Request, acts: seq<Action>, k: nat)
    requires k < |acts|
  {
    ArrivesAt(m, a, acts, k) && !FindsNoStart(m, a, acts, k)
  }

  lemma OnlyOnce(m: Manager, a: Request, acts: seq<Action>, i: nat, k: nat)
    requires Run(m, a, acts).starts <= 1 && i < k < |acts| && StartsAt(m, a, acts, i)
    ensures !StartsAt(m, a, acts, k)
  {
    StartsAreCounted(m, a, acts);
    NoneOrOne(Story(m, a, acts));
    StartAt(m, a, acts, i);
    StartAt(m, a, acts, k);
  }

  lemma TwoStarts(m: Manager, a: Request, acts: seq<Action>) returns (i: nat, k: nat)
    requires Run(m, a, acts).starts > 1
    ensures i < k < |acts| && StartsAt(m, a, acts, i) && StartsAt(m, a, acts, k)
  {
    StartsAreCounted(m, a, acts);
    NoneOrOne(Story(m, a, acts));
    i, k :| 0 <= i < k < |acts| && Story(m, a, acts)[i].Start? && Story(m, a, acts)[k].Start?;
    StartAt(m, a, acts, i);
    StartAt(m, a, acts, k);
  }

  /** All copies of a request together start one operation at most, exactly if every copy that
      arrives after one that started it finds no start. */
  lemma {:induction false} AtMostOnceExactly(m: Manager, a: Request, acts: seq<Action>)
    ensures Run(m, a, acts).starts <= 1 <==> LaterCopiesFindNoStart(m, a, acts)
  {
    if Run(m, a, acts).starts <= 1 {
      forall i, k | 0 <= i < k < |acts| && StartsAt(m, a, acts, i) && ArrivesAt(m, a, acts, k)
        ensures FindsNoStart(m, a, acts, k)
      {
        OnlyOnce(m, a, acts, i, k);
      }
    } else {
      var i, k := TwoStarts(m, a, acts);
    }
  }

  ghost predicate LaterCopiesFindNoStart(m: Manager, a: Request, acts: seq<Action>)
  {
    forall i, k :: 0 <= i < k < |acts| && StartsAt(m, a, acts, i) && ArrivesAt(m, a, acts, k) ==>
      FindsNoStart(m, a, acts, k)
  }

  lemma StartAt(m: Manager, a: Request, acts: seq<Action>, k: nat)
    requires k < |acts|
    ensures Story(m, a, acts)[k].Start? <==> StartsAt(m, a, acts, k)
  {
    StoryAt(m, a, acts, k);
  }

  // ----- what it takes to start again -----

  /** Since action i the operation failed. */
  ghost predicate HasFailed(marks: seq<Mark>, i: nat)
  {
    |marks| > i + 1 && (marks[|marks| - 1].Failure? || HasFailed(marks[..|marks| - 1], i))
  }

  /** Since action i it failed and another took its place. */
  ghost predicate WasReplaced(marks: seq<Mark>, i: nat)
  {
    |marks| > i + 1 &&
      var before := marks[..|marks| - 1];
      (WasReplaced(before, i) || (HasFailed(before, i) && marks[|marks| - 1].Displacement?))
  }

  /** Where the operation is since it was started: failure is on record if it has failed. */
  ghost predicate Since(s: System, a: Request, failed: bool, replaced: bool)
  {
    || replaced || s.succeeded
    || (IsCurrent(s.m, a) && (s.m.operation.value.phase == Failed ==> failed))
  }

  lemma SinceStart(s: System, a: Request, act: Action)
    requires MarkOf(s, a, act).Start?
    ensures Since(Step(s, a, act), a, false, false)
  {
  }

  lemma SinceStep(s: System, a: Request, act: Action, f: bool, r: bool)
    requires Inv(s, a) && Since(s, a, f, r)
    ensures var k := MarkOf(s, a, act); Since(Step(s, a, act), a, f || k.Failure?, r || (f && k.Displacement?))
  {
  }

  lemma {:induction false} SinceRun(m: Manager, a: Request, acts: seq<Action>, i: nat)
    requires Initial(m, a) && i < |acts| && Story(m, a, acts)[i].Start?
    ensures Since(Run(m, a, acts), a, HasFailed(Story(m, a, acts), i), WasReplaced(Story(m, a, acts), i))
  {
    var before, last := acts[..|acts| - 1], acts[|acts| - 1];
    var marks, story := Story(m, a, before), Story(m, a, acts);
    assert story[..|before|] == marks;
    if |acts| == i + 1 {
      SinceStart(Run(m, a, before), a, last);
    } else {
      SinceRun(m, a, before, i);
      InvRun(m, a, before);
      SinceStep(Run(m, a, before), a, last, HasFailed(marks, i), WasReplaced(marks, i));
    }
  }

  lemma {:induction false} FailedAt(marks: seq<Mark>, i: nat) returns (f: nat)
    requires HasFailed(marks, i)
    ensures i < f < |marks| && marks[f].Failure?
  {
    if marks[|marks| - 1].Failure? {
      f := |marks| - 1;
    } else {
      f := FailedAt(marks[..|marks| - 1], i);
    }
  }

  lemma {:induction false} ReplacedAt(marks: seq<Mark>, i: nat) returns (f: nat, j: nat)
    requires WasReplaced(marks, i)
    ensures i < f < j < |marks| && marks[f].Failure? && marks[j].Displacement?
  {
    var before := marks[..|marks| - 1];
    if WasReplaced(before, i) {
      f, j := ReplacedAt(before, i);
    } else {
      f := FailedAt(before, i);
      j := |marks| - 1;
    }
  }

  /** Between two starts of one operation it failed or was interrupted, and then another one was
      admitted in its place; and it had not succeeded. */
  lemma {:induction false} SecondStartTakes(m: Manager, a: Request, acts: seq<Action>, i: nat, k: nat)
    returns (f: nat, j: nat)
    requires Initial(m, a) && i < k < |acts| && Story(m, a, acts)[i].Start? && Story(m, a, acts)[k].Start?
    ensures i < f < j < k && Story(m, a, acts)[f].Failure? && Story(m, a, acts)[j].Displacement?
    ensures !Run(m, a, acts[..k]).succeeded
  {
    var before := acts[..k];
    StoryBefore(m, a, acts, k);
    SinceRun(m, a, before, i);
    InvRun(m, a, before);
    StoryAt(m, a, acts, k);
    FloorIsInstalled(Run(m, a, before).m);
    f, j := ReplacedAt(Story(m, a, before), i);
  }

  lemma {:induction false} StoryBefore(m: Manager, a: Request, acts: seq<Action>, k: nat)
    requires k <= |acts|
    ensures Story(m, a, acts[..k]) == Story(m, a, acts)[..k]
  {
    if k < |acts| {
      StoryBefore(m, a, acts[..|acts| - 1], k);
      assert acts[..|acts| - 1][..k] == acts[..k];
    } else {
      assert acts[..k] == acts;
    }
  }
}
