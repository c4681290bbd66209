/** Every run of one client's update against the updater, with other clients, late requests,
    lost replies, shutdowns and restarts. */
module UpdaterRuns {
  import opened Updater

  datatype Action =
    | Unsent(reply: Reply)                    // the attempt fails before it is sent
    | Answered(trouble: bool)                 // the request arrives and its answer comes back
    | Unanswered(reply: Reply)                // the request is sent and no usable answer comes back
    | Late(trouble: bool)                     // an unanswered request arrives
    | Expire                                  // the client stops waiting
    | Poll                                    // the client reads the status
    | Others(request: Request, trouble: bool) // another client's request arrives
    | Updater(work: Work)

  /** late counts the unanswered requests that may still arrive; starts, displaced and
      succeeded record how often the updater admitted the operation, how often another one
      took its place, and whether it succeeded. */
  datatype System = System(m: Manager, client: Client, late: nat, starts: nat, displaced: nat, succeeded: bool)

  /** Its id is new to the updater. */
  predicate Initial(m: Manager, a: Request)
  {
    Sane(m) && !IsCurrent(m, a)
  }

  function Deliver(s: System, a: Request, r: Request, trouble: bool): System
  {
    s.(m := Trigger(s.m, r, trouble).0,
       starts := s.starts + (if r == a && Admits(s.m, r, trouble) then 1 else 0),
       displaced := s.displaced + (if r != a && Admits(s.m, r, trouble) && IsCurrent(s.m, a) then 1 else 0))
  }

  function ReplyTo(answer: Answer): Reply
  {
    match answer
    case Accepted(op) => Ok(op)
    case Rejected => Http
  }

  function Step(s: System, a: Request, act: Action): System
  {
    match act
    case Unsent(reply) =>
      if s.client.Trying? && (reply == Unavailable || reply == Other)
      then s.(client := React(s.client.ambiguous, reply)) else s
    case Answered(trouble) =>
      if s.client.Trying? then
        Deliver(s, a, a, trouble).(client := React(s.client.ambiguous, ReplyTo(Trigger(s.m, a, trouble).1)))
      else s
    case Unanswered(reply) =>
      if s.client.Trying? && (reply == Transport || reply == Protocol)
      then s.(client := React(s.client.ambiguous, reply), late := s.late + 1) else s
    case Late(trouble) => if s.late > 0 then Deliver(s, a, a, trouble).(late := s.late - 1) else s
    case Expire =>
      if s.client.Trying? then s.(client := GaveUp(s.client.ambiguous))
      else if s.client.Following? then s.(client := GaveUp(true)) else s
    case Poll => if s.client.Following? then s.(client := Observe(s.m, a)) else s
    case Others(r, trouble) => if r.id != a.id then Deliver(s, a, r, trouble) else s
    case Updater(w) =>
      s.(m := Do(s.m, w), succeeded := s.succeeded || (IsCurrent(s.m, a) && Do(s.m, w).operation.value.phase == Succeeded))
  }

  function Run(m: Manager, a: Request, acts: seq<Action>): System
    decreases |acts|
  {
    if acts == [] then System(m, Trying(false), 0, 0, 0, false)
    else Step(Run(m, a, acts[..|acts| - 1]), a, acts[|acts| - 1])
  }

  // ----- what every run keeps -----

  /** The client was told for certain that nothing happened. */
  predicate Definite(c: Client)
  {
    c.Refused? || c.Unreachable? || c == GaveUp(false)
  }

  ghost predicate Inv(s: System, a: Request)
  {
    && Sane(s.m)
    && (IsCurrent(s.m, a) ==> s.m.operation.value.request == a)
    && s.starts == s.displaced + (if IsCurrent(s.m, a) then 1 else 0)
    && (Definite(s.client) || s.client == Trying(false) ==> s.late == 0 && s.starts == 0)
    && (IsCurrent(s.m, a) && s.m.operation.value.phase == Succeeded ==> s.succeeded)
    && (s.client.Done? ==> s.succeeded)
    && (s.succeeded ==> a.target <= Floor(s.m))
  }

  lemma DeliverKeeps(s: System, a: Request, r: Request, trouble: bool)
    requires Inv(s, a) && (r == a || r.id != a.id)
    ensures var t := Deliver(s, a, r, trouble);
            && Sane(t.m)
            && (IsCurrent(t.m, a) ==> t.m.operation.value.request == a)
            && t.starts == t.displaced + (if IsCurrent(t.m, a) then 1 else 0)
            && (IsCurrent(t.m, a) && t.m.operation.value.phase == Succeeded ==> t.succeeded)
            && (t.succeeded ==> a.target <= Floor(t.m))
            && (r != a ==> t.starts == s.starts)
            && (s.succeeded ==> t.starts == s.starts)
  {
    TriggerKeeps(s.m, r, trouble);
  }

  lemma WorkStep(s: System, a: Request, w: Work)
    requires Inv(s, a)
    ensures Inv(Step(s, a, Updater(w)), a)
  {
    WorkKeeps(s.m, w);
    assert IsCurrent(Do(s.m, w), a) == IsCurrent(s.m, a);
  }

  lemma ClientStep(s: System, a: Request, act: Action)
    requires Inv(s, a) && (act.Unsent? || act.Unanswered? || act.Expire? || act.Poll?)
    ensures Inv(Step(s, a, act), a)
  {
  }

  lemma RequestStep(s: System, a: Request, act: Action)
    requires Inv(s, a) && (act.Answered? || act.Late? || act.Others?)
    ensures Inv(Step(s, a, act), a)
  {
    match act
    case Answered(trouble) => if s.client.Trying? { DeliverKeeps(s, a, a, trouble); }
    case Late(trouble) => if s.late > 0 { DeliverKeeps(s, a, a, trouble); }
    case Others(r, trouble) => if r.id != a.id { DeliverKeeps(s, a, r, trouble); }
    case _ =>
  }

  lemma InvStep(s: System, a: Request, act: Action)
    requires Inv(s, a)
    ensures Inv(Step(s, a, act), a)
  {
    match act
    case Updater(w) => WorkStep(s, a, w);
    case Unsent(_) => ClientStep(s, a, act);
    case Unanswered(_) => ClientStep(s, a, act);
    case Expire => ClientStep(s, a, act);
    case Poll => ClientStep(s, a, act);
    case _ => RequestStep(s, a, act);
  }

  lemma {:induction false} InvRun(m: Manager, a: Request, acts: seq<Action>)
    requires Initial(m, a)
    ensures Inv(Run(m, a, acts), a)
    decreases |acts|
  {
    if acts != [] {
      InvRun(m, a, acts[..|acts| - 1]);
      InvStep(Run(m, a, acts[..|acts| - 1]), a, acts[|acts| - 1]);
    }
  }

  // ----- whole runs -----

  lemma DefiniteStep(s: System, a: Request, act: Action)
    requires Inv(s, a) && Definite(s.client)
    ensures Step(s, a, act).client == s.client && Step(s, a, act).starts == 0
  {
  }

  /** A definite refusal, an unreachable updater or an unambiguous timeout mean that the
      operation was not started and never will be. */
  lemma {:induction false} DefiniteMeansNever(m: Manager, a: Request, acts: seq<Action>, more: seq<Action>)
    requires Initial(m, a) && Definite(Run(m, a, acts).client)
    ensures Run(m, a, acts + more).starts == 0 && Run(m, a, acts + more).client == Run(m, a, acts).client
    decreases |more|
  {
    if more == [] {
      assert acts + more == acts;
      InvRun(m, a, acts);
    } else {
      var before := more[..|more| - 1];
      DefiniteMeansNever(m, a, acts, before);
      InvRun(m, a, acts + before);
      RunSnoc(m, a, acts, more);
      DefiniteStep(Run(m, a, acts + before), a, more[|more| - 1]);
    }
  }

  lemma {:induction false} AloneIsNotDisplaced(m: Manager, a: Request, acts: seq<Action>)
    requires Initial(m, a) && forall i :: 0 <= i < |acts| ==> !acts[i].Others?
    ensures Run(m, a, acts).displaced == 0
    decreases |acts|
  {
    if acts != [] {
      AloneIsNotDisplaced(m, a, acts[..|acts| - 1]);
    }
  }

  /** Without other clients all attempts together start one operation at most. */
  lemma {:induction false} AtMostOnceAlone(m: Manager, a: Request, acts: seq<Action>)
    requires Initial(m, a) && forall i :: 0 <= i < |acts| ==> !acts[i].Others?
    ensures Run(m, a, acts).starts <= 1
  {
    AloneIsNotDisplaced(m, a, acts);
    InvRun(m, a, acts);
  }

  lemma SuccessStep(s: System, a: Request, act: Action)
    requires Inv(s, a) && s.succeeded
    ensures Step(s, a, act).succeeded && Step(s, a, act).starts == s.starts
  {
  }

  lemma RunSnoc(m: Manager, a: Request, acts: seq<Action>, more: seq<Action>)
    requires more != []
    ensures Run(m, a, acts + more) == Step(Run(m, a, acts + more[..|more| - 1]), a, more[|more| - 1])
  {
    assert (acts + more)[..|acts + more| - 1] == acts + more[..|more| - 1];
  }

  lemma {:induction false} SuccessStays(m: Manager, a: Request, acts: seq<Action>, more: seq<Action>)
    requires Initial(m, a) && Run(m, a, acts).succeeded
    ensures var s := Run(m, a, acts + more); s.succeeded && s.starts == Run(m, a, acts).starts
    decreases |more|
  {
    if more == [] {
      assert acts + more == acts;
    } else {
      var before := more[..|more| - 1];
      SuccessStays(m, a, acts, before);
      InvRun(m, a, acts + before);
      RunSnoc(m, a, acts, more);
      SuccessStep(Run(m, a, acts + before), a, more[|more| - 1]);
    }
  }

  /** An operation that succeeded is not started again, by whatever request arrives late, and
      its release or a newer one stays installed. */
  lemma {:induction false} NeverAgainAfterSuccess(m: Manager, a: Request, acts: seq<Action>, more: seq<Action>)
    requires Initial(m, a) && Run(m, a, acts).succeeded
    ensures var s := Run(m, a, acts + more); s.starts == Run(m, a, acts).starts && a.target <= s.m.installed
  {
    SuccessStays(m, a, acts, more);
    InvRun(m, a, acts + more);
    FloorIsInstalled(Run(m, a, acts + more).m);
  }

  lemma FloorIsInstalled(m: Manager)
    requires Sane(m)
    ensures Floor(m) <= m.installed
  {
  }

  /** The client reports success only when its operation has succeeded; from then on its
      release or a newer one is installed. */
  lemma {:induction false} SuccessMeansInstalled(m: Manager, a: Request, acts: seq<Action>, more: seq<Action>)
    requires Initial(m, a) && Run(m, a, acts).client.Done?
    ensures Run(m, a, acts).succeeded && Run(m, a, acts).starts > 0
    ensures a.target <= Run(m, a, acts + more).m.installed
  {
    InvRun(m, a, acts);
    NeverAgainAfterSuccess(m, a, acts, more);
    SuccessWasStarted(m, a, acts);
  }

  lemma {:induction false} SuccessWasStarted(m: Manager, a: Request, acts: seq<Action>)
    requires Initial(m, a) && Run(m, a, acts).succeeded
    ensures Run(m, a, acts).starts > 0
    decreases |acts|
  {
    if acts != [] {
      var before := acts[..|acts| - 1];
      InvRun(m, a, before);
      if Run(m, a, before).succeeded {
        SuccessWasStarted(m, a, before);
      }
    }
  }

  /** Starting twice can happen to every client of an idle updater: the reply is lost, the operation fails,
      another client's operation fails too, and the next attempt is admitted as new. */
  lemma {:induction false} TwiceAfterLostReply(m: Manager, a: Request, b: Request) returns (acts: seq<Action>)
    requires Initial(m, a) && Idle(m) && !IsCurrent(m, b) && b.id != a.id
    requires m.installed < a.target && m.installed < b.target
    ensures Run(m, a, acts).starts == 2 && Run(m, a, acts).client.Following?
  {
    var s := Run(m, a, []);
    acts, s := Then(m, a, [], s, Unanswered(Transport));
    acts, s := Then(m, a, acts, s, Late(false));
    acts, s := ThenFails(m, a, acts, s);
    acts, s := Then(m, a, acts, s, Others(b, false));
    acts, s := ThenFails(m, a, acts, s);
    acts, s := Then(m, a, acts, s, Answered(false));
  }

  lemma Then(m: Manager, a: Request, acts: seq<Action>, s: System, act: Action) returns (acts': seq<Action>, s': System)
    requires Run(m, a, acts) == s
    ensures Run(m, a, acts') == s' == Step(s, a, act)
  {
    acts' := acts + [act];
    assert acts'[..|acts|] == acts;
    s' := Run(m, a, acts');
  }

  lemma ThenFails(m: Manager, a: Request, acts: seq<Action>, s: System) returns (acts': seq<Action>, s': System)
    requires Run(m, a, acts) == s && s.m.running && Working(s.m)
    ensures Run(m, a, acts') == s' == s.(m := Abort(s.m, false, false).(running := false))
  {
    acts', s' := Then(m, a, acts, s, Updater(Fail(false, false)));
    acts', s' := Then(m, a, acts', s', Updater(Finish));
  }
}
