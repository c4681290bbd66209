/** The locate light and the timer that turns it off.

    A request runs two locked regions: it switches the light and takes a number, and later
    replaces or stops the timer. In between other requests and timers may run. A timer that
    has expired can no longer be stopped; its callback waits for the lock. */
module Locate {
  import opened Wrappers

  /** A request between its two regions: its number, and whether it asked for a timer. */
  datatype Request = Request(sequence: nat, timed: bool)

  datatype Light = Light(
    active: bool,
    sequence: nat,
    armed: Option<nat>,            // the timer the stored cancel function would stop
    expired: multiset<nat>,        // timers whose callback is waiting
    requests: multiset<Request>,
    latestTimed: bool,             // history: did the newest request ask for a timer?
    settledLast: nat)              // history: the request whose second region ran last

  datatype Action =
    | Switch(enable: bool, timed: bool)
    | Settle(request: Request)
    | Expire
    | Callback(sequence: nat)

  const OFF: Light := Light(false, 0, None, multiset{}, multiset{}, false, 0)

  function ClearIfSequence(l: Light, n: nat): Light
  {
    if l.sequence != n then l else l.(active := false, sequence := l.sequence + 1)
  }

  function Step(l: Light, a: Action): Light
  {
    match a
    case Switch(enable, timed) =>
      var n, wants := l.sequence + 1, enable && timed;
      l.(active := enable, sequence := n, requests := l.requests + multiset{Request(n, wants)}, latestTimed := wants)
    case Settle(r) =>
      if r !in l.requests then l
      else l.(requests := l.requests - multiset{r}, settledLast := r.sequence,
              armed := if r.timed then Some(r.sequence) else None)
    case Expire =>
      if l.armed.None? then l else l.(armed := None, expired := l.expired + multiset{l.armed.value})
    case Callback(n) =>
      if n !in l.expired then l else ClearIfSequence(l.(expired := l.expired - multiset{n}), n)
  }

  function Run(acts: seq<Action>): Light
  {
    if acts == [] then OFF else Step(Run(acts[..|acts| - 1]), acts[|acts| - 1])
  }

  lemma RunSnoc(acts: seq<Action>, a: Action)
    ensures Run(acts + [a]) == Step(Run(acts), a)
  {
    assert (acts + [a])[..|acts|] == acts;
  }

  // ----- safety: a timer never turns off a newer locate -----

  lemma StepGrows(l: Light, a: Action)
    ensures l.sequence <= Step(l, a).sequence
  {
  }

  lemma {:induction false} SequenceGrows(pre: seq<Action>, post: seq<Action>)
    ensures Run(pre).sequence <= Run(pre + post).sequence
  {
    if post == [] {
      assert pre + post == pre;
    } else {
      var init, last := post[..|post| - 1], post[|post| - 1];
      assert pre + post == (pre + init) + [last];
      SequenceGrows(pre, init);
      RunSnoc(pre + init, last);
      StepGrows(Run(pre + init), last);
    }
  }

  /** After a request, at any later time and in any state, the callback of a timer set by an
      earlier request leaves the light as it is. */
  lemma {:induction false} OldTimerIsHarmless(pre: seq<Action>, enable: bool, timed: bool, post: seq<Action>, n: nat)
    requires n <= Run(pre).sequence
    ensures var l := Run(pre + [Switch(enable, timed)] + post);
            var l' := Step(l, Callback(n));
            l'.active == l.active && l'.sequence == l.sequence
  {
    RunSnoc(pre, Switch(enable, timed));
    SequenceGrows(pre + [Switch(enable, timed)], post);
  }

  /** Whatever turns the light off is a request, or the timer of the newest request. */
  lemma OnlyNewestTimerClears(l: Light, a: Action)
    requires l.active && !Step(l, a).active
    ensures (a.Switch? && !a.enable) || (a == Callback(l.sequence) && l.sequence in l.expired)
  {
  }

  // ----- the two locked methods in place -----

  class LocateState {
    var active: bool
    var sequence: nat

    /** These two fields as the state of the light has them. */
    ghost predicate Shows(l: Light)
      reads this
    {
      l.active == active && l.sequence == sequence
    }

    method SetLocateActive(enable: bool) returns (n: nat)
      modifies this
      ensures n == sequence
      ensures forall l, timed :: old(Shows(l)) ==> Shows(Step(l, Switch(enable, timed)))
    {
      active := enable;
      sequence := sequence + 1;
      return sequence;
    }

    method ClearLocateActiveIfSequence(n: nat)
      modifies this
      ensures forall l :: old(Shows(l)) ==> Shows(ClearIfSequence(l, n))
    {
      if sequence != n {
        return;
      }
      active := false;
      sequence := sequence + 1;
    }
  }

  // ----- liveness: when a timed locate still has its timer -----

  ghost predicate Inv(l: Light)
  {
    && l.settledLast <= l.sequence
    && (forall r :: r in l.requests ==> r.sequence <= l.sequence)
    && (forall r :: r in l.requests && r.sequence == l.sequence ==> r.timed == l.latestTimed)
    && (l.armed.Some? ==> l.armed.value == l.settledLast)
    && (l.settledLast == l.sequence && l.active && l.latestTimed ==>
          l.armed == Some(l.sequence) || l.sequence in l.expired)
  }

  lemma InvSettle(l: Light, r: Request)
    requires Inv(l) && r in l.requests
    ensures Inv(Step(l, Settle(r)))
  {
  }

  lemma InvTimer(l: Light, a: Action)
    requires Inv(l) && (a.Expire? || a.Callback?)
    ensures Inv(Step(l, a))
  {
  }

  lemma InvSwitch(l: Light, enable: bool, timed: bool)
    requires Inv(l)
    ensures Inv(Step(l, Switch(enable, timed)))
  {
  }

  lemma InvStep(l: Light, a: Action)
    requires Inv(l)
    ensures Inv(Step(l, a))
  {
    match a
    case Switch(enable, timed) => InvSwitch(l, enable, timed);
    case Settle(r) => if r in l.requests { InvSettle(l, r); }
    case _ => InvTimer(l, a);
  }

  lemma {:induction false} InvRun(acts: seq<Action>)
    ensures Inv(Run(acts))
  {
    if acts != [] {
      InvRun(acts[..|acts| - 1]);
      InvStep(Run(acts[..|acts| - 1]), acts[|acts| - 1]);
    }
  }

  /** Some timer is left that will turn the light off. */
  predicate WillClear(l: Light)
  {
    l.armed == Some(l.sequence) || l.sequence in l.expired
  }

  /** The same by the history of the light. */
  lemma TimerByHistory(l: Light)
    requires Inv(l) && l.active && l.latestTimed && l.settledLast == l.sequence
    ensures WillClear(l)
  {
  }

  // ----- whether a timed locate has lost its timer, read off the actions -----

  /** Action j is the second region of a request. */
  ghost predicate SettlesAt(acts: seq<Action>, j: nat)
    requires j < |acts|
  {
    acts[j].Settle? && acts[j].request in Run(acts[..j]).requests
  }

  /** A timer expires after action i. */
  ghost predicate ExpiresAfter(acts: seq<Action>, i: nat)
  {
    |acts| > i + 1 && (acts[|acts| - 1].Expire? || ExpiresAfter(acts[..|acts| - 1], i))
  }

  /** Which actions are the second region of a request. */
  ghost function Settles(acts: seq<Action>): (marks: seq<bool>)
    ensures |marks| == |acts|
  {
    if acts == [] then []
    else
      var before, last := acts[..|acts| - 1], acts[|acts| - 1];
      Settles(before) + [last.Settle? && last.request in Run(before).requests]
  }

  lemma {:induction false} SettlesIs(acts: seq<Action>, j: nat)
    requires j < |acts|
    ensures Settles(acts)[j] <==> SettlesAt(acts, j)
  {
    if j < |acts| - 1 {
      SettlesIs(acts[..|acts| - 1], j);
      assert acts[..|acts| - 1][..j] == acts[..j];
    }
  }

  /** After action i no marked action comes before a timer expires. */
  ghost predicate Undisturbed(marks: seq<bool>, acts: seq<Action>, i: nat)
    requires |marks| == |acts|
  {
    |acts| > i + 1 ==>
      var n := |acts| - 1;
      Undisturbed(marks[..n], acts[..n], i) && (marks[n] ==> ExpiresAfter(acts[..n], i))
  }

  /** A timer expires between actions i and j. */
  ghost predicate ExpiredBy(acts: seq<Action>, i: nat, j: nat)
    requires j <= |acts|
  {
    exists k :: i < k < j && acts[k].Expire?
  }

  lemma {:induction false} ExpiresAfterIs(acts: seq<Action>, i: nat)
    ensures ExpiresAfter(acts, i) <==> ExpiredBy(acts, i, |acts|)
  {
    if |acts| > i + 1 {
      ExpiresAfterIs(acts[..|acts| - 1], i);
    }
  }

  lemma {:induction false} UndisturbedIs(marks: seq<bool>, acts: seq<Action>, i: nat)
    requires |marks| == |acts|
    ensures Undisturbed(marks, acts, i)
            <==> forall j :: i < j < |acts| && marks[j] ==> ExpiredBy(acts, i, j)
    decreases |acts|
  {
    if |acts| > i + 1 {
      var n := |acts| - 1;
      UndisturbedIs(marks[..n], acts[..n], i);
      ExpiresAfterIs(acts[..n], i);
      forall j | 0 <= j <= n
        ensures ExpiredBy(acts[..n], i, j) == ExpiredBy(acts, i, j)
      {
        ExpiredByBefore(acts, n, i, j);
      }
    }
  }

  lemma ExpiredByBefore(acts: seq<Action>, n: nat, i: nat, j: nat)
    requires j <= n <= |acts|
    ensures ExpiredBy(acts[..n], i, j) == ExpiredBy(acts, i, j)
  {
    assert forall k :: 0 <= k < n ==> acts[..n][k] == acts[k];
  }

  /** Numbers are used once: a request that is open has no timer yet. */
  ghost predicate Numbered(l: Light)
  {
    && (l.armed.Some? ==> l.armed.value <= l.sequence) && (forall n :: n in l.expired ==> n <= l.sequence)
    && (forall r :: r in l.requests ==>
          l.requests[r] == 1 && r.sequence <= l.sequence && r.sequence !in l.expired && l.armed != Some(r.sequence))
    && (forall r, s :: r in l.requests && s in l.requests && r.sequence == s.sequence ==> r == s)
  }

  lemma NumberedSwitch(l: Light, enable: bool, timed: bool)
    requires Numbered(l)
    ensures Numbered(Step(l, Switch(enable, timed)))
  {
    var r := Request(l.sequence + 1, enable && timed);
    assert r !in l.requests;
  }

  lemma NumberedSettle(l: Light, r: Request)
    requires Numbered(l) && r in l.requests
    ensures Numbered(Step(l, Settle(r)))
    ensures forall s :: s in Step(l, Settle(r)).requests ==> s.sequence != r.sequence
  {
    assert (l.requests - multiset{r})[r] == 0;
  }

  lemma NumberedTimer(l: Light, a: Action)
    requires Numbered(l) && (a.Expire? || a.Callback?)
    ensures Numbered(Step(l, a))
  {
  }

  lemma {:induction false} NumberedRun(acts: seq<Action>)
    ensures Numbered(Run(acts))
  {
    if acts != [] {
      var l := Run(acts[..|acts| - 1]);
      NumberedRun(acts[..|acts| - 1]);
      match acts[|acts| - 1]
      case Switch(enable, timed) => NumberedSwitch(l, enable, timed);
      case Settle(r) => if r in l.requests { NumberedSettle(l, r); }
      case a => NumberedTimer(l, a);
    }
  }

  /** Where the timer of request n is, while n stays the newest number. */
  ghost predicate TimerIs(l: Light, n: nat, undisturbed: bool, expired: bool)
  {
    && (forall r :: r in l.requests ==> r.sequence != n)
    && (undisturbed && !expired ==> l.armed == Some(n) && n !in l.expired)
    && (undisturbed && expired ==> n in l.expired)
    && (!undisturbed ==> l.armed != Some(n) && n !in l.expired)
  }

  lemma TimerStep(l: Light, a: Action, n: nat, u: bool, e: bool)
    requires TimerIs(l, n, u, e) && l.sequence == n == Step(l, a).sequence
    ensures TimerIs(Step(l, a), n, u && (a.Settle? && a.request in l.requests ==> e), e || a.Expire?)
  {
    match a
    case Settle(r) => TimerSettle(l, r, n, u, e);
    case Callback(k) => TimerCallback(l, k, n, u, e);
    case _ =>
  }

  lemma TimerSettle(l: Light, r: Request, n: nat, u: bool, e: bool)
    requires TimerIs(l, n, u, e)
    ensures TimerIs(Step(l, Settle(r)), n, u && (r in l.requests ==> e), e)
  {
  }

  lemma TimerCallback(l: Light, k: nat, n: nat, u: bool, e: bool)
    requires TimerIs(l, n, u, e) && l.sequence == n == Step(l, Callback(k)).sequence
    ensures TimerIs(Step(l, Callback(k)), n, u, e)
  {
  }

  lemma SettleSetsTimer(l: Light, r: Request)
    requires Numbered(l) && r in l.requests && r.timed
    ensures TimerIs(Step(l, Settle(r)), r.sequence, true, false) && r.sequence <= l.sequence
  {
    NumberedSettle(l, r);
  }

  /** While n is the newest number. */
  ghost predicate TimerKnown(l: Light, n: nat, u: bool, e: bool)
  {
    n <= l.sequence && (l.sequence == n ==> TimerIs(l, n, u, e))
  }

  lemma TimerAfter(l: Light, a: Action, n: nat, u: bool, e: bool)
    requires TimerKnown(l, n, u, e)
    ensures TimerKnown(Step(l, a), n, u && (a.Settle? && a.request in l.requests ==> e), e || a.Expire?)
  {
    StepGrows(l, a);
    if Step(l, a).sequence == n {
      TimerStep(l, a, n, u, e);
    }
  }

  lemma SetIsKnown(l: Light, r: Request)
    requires Numbered(l) && r in l.requests && r.timed
    ensures TimerKnown(Step(l, Settle(r)), r.sequence, true, false)
  {
    SettleSetsTimer(l, r);
    StepGrows(l, Settle(r));
  }

  lemma TimerSet(acts: seq<Action>, r: Request)
    requires r in Run(acts).requests && r.timed
    ensures TimerKnown(Step(Run(acts), Settle(r)), r.sequence, true, false)
  {
    NumberedRun(acts);
    SetIsKnown(Run(acts), r);
  }

  lemma TimerMore(acts: seq<Action>, i: nat, n: nat)
    requires |acts| > i + 1
    requires var before := acts[..|acts| - 1];
             TimerKnown(Run(before), n, Undisturbed(Settles(before), before, i), ExpiresAfter(before, i))
    ensures TimerKnown(Run(acts), n, Undisturbed(Settles(acts), acts, i), ExpiresAfter(acts, i))
  {
    var before := acts[..|acts| - 1];
    var l, a, u, e := Run(before), acts[|acts| - 1], Undisturbed(Settles(before), before, i), ExpiresAfter(before, i);
    TimerAfter(l, a, n, u, e);
    assert Settles(acts)[..|before|] == Settles(before);
    assert Undisturbed(Settles(acts), acts, i) == (u && (a.Settle? && a.request in l.requests ==> e));
    assert ExpiresAfter(acts, i) == (e || a.Expire?);
    assert Run(acts) == Step(l, a);
  }

  lemma {:induction false} TimerSince(acts: seq<Action>, i: nat, n: nat)
    requires i < |acts| && SettlesAt(acts, i) && acts[i].request == Request(n, true)
    ensures TimerKnown(Run(acts), n, Undisturbed(Settles(acts), acts, i), ExpiresAfter(acts, i))
  {
    if |acts| == i + 1 {
      TimerSet(acts[..i], acts[i].request);
    } else {
      assert acts[..|acts| - 1][..i] == acts[..i];
      TimerSince(acts[..|acts| - 1], i, n);
      TimerMore(acts, i, n);
    }
  }

  ghost function Newest(l: Light): Request { Request(l.sequence, l.latestTimed) }

  ghost predicate Settled(acts: seq<Action>, r: Request)
  {
    exists i :: 0 <= i < |acts| && Settles(acts)[i] && acts[i] == Settle(r)
  }

  lemma SettledMore(acts: seq<Action>, r: Request)
    requires acts != []
    ensures Settled(acts[..|acts| - 1], r) ==> Settled(acts, r)
  {
    var before := acts[..|acts| - 1];
    assert Settles(acts)[..|before|] == Settles(before);
    if Settled(before, r) {
      var i :| 0 <= i < |before| && Settles(before)[i] && before[i] == Settle(r);
      assert Settles(acts)[i] && acts[i] == Settle(r);
    }
  }

  lemma NewestStep(l: Light, a: Action)
    requires Step(l, a).active
    ensures var l' := Step(l, a);
            || Newest(l') in l'.requests
            || (Newest(l') == Newest(l) && l.active && (a == Settle(Newest(l)) || Newest(l) !in l.requests))
  {
  }

  /** The request that lit the light is open or has run its second region. */
  lemma {:induction false} NewestOpenOrSettled(acts: seq<Action>)
    requires Run(acts).active
    ensures Newest(Run(acts)) in Run(acts).requests || Settled(acts, Newest(Run(acts)))
  {
    var before, last := acts[..|acts| - 1], acts[|acts| - 1];
    var l := Run(before);
    NewestStep(l, last);
    SettledMore(acts, Newest(l));
    if Newest(Run(acts)) !in Run(acts).requests {
      NewestOpenOrSettled(before);
      assert last == Settle(Newest(l)) && Newest(l) in l.requests ==> Settles(acts)[|before|];
    }
  }

  /** So with no request open there is such an action for every lit timed locate. */
  lemma {:induction false} SettledAction(acts: seq<Action>) returns (i: nat)
    requires Run(acts).active && Run(acts).latestTimed && Run(acts).requests == multiset{}
    ensures i < |acts| && SettlesAt(acts, i) && acts[i].request == Request(Run(acts).sequence, true)
  {
    NewestOpenOrSettled(acts);
    i :| 0 <= i < |acts| && Settles(acts)[i] && acts[i] == Settle(Newest(Run(acts)));
    SettlesIs(acts, i);
  }

  /** A lit timed locate still has its timer exactly if, after its own second region, no other
      request ran its second region before the timer expired. */
  lemma {:induction false} TimerLeftExactly(acts: seq<Action>, i: nat)
    requires Run(acts).active && i < |acts|
    requires SettlesAt(acts, i) && acts[i].request == Request(Run(acts).sequence, true)
    ensures WillClear(Run(acts))
            <==> forall j :: i < j < |acts| && SettlesAt(acts, j) ==> ExpiredBy(acts, i, j)
  {
    TimerSince(acts, i, Run(acts).sequence);
    UndisturbedIs(Settles(acts), acts, i);
    forall j | i < j < |acts|
      ensures Settles(acts)[j] <==> SettlesAt(acts, j)
    {
      SettlesIs(acts, j);
    }
  }

  /** No request starts while another is between its two regions. */
  ghost predicate Serialized(acts: seq<Action>)
  {
    forall i :: 0 <= i < |acts| && acts[i].Switch? ==> Run(acts[..i]).requests == multiset{}
  }

  ghost predicate InTurn(l: Light)
  {
    && (forall n :: n in l.expired ==> n <= l.sequence)
    && (l.armed.Some? ==> l.armed.value == l.settledLast)
    && l.settledLast <= l.sequence
    && if |l.requests| == 0 then l.active ==> l.settledLast == l.sequence
       else
         && |l.requests| == 1 && Request(l.sequence, l.latestTimed) in l.requests
         && l.settledLast < l.sequence && l.sequence !in l.expired
  }

  lemma InTurnSettle(l: Light, r: Request)
    requires InTurn(l) && r in l.requests
    ensures InTurn(Step(l, Settle(r)))
  {
    var q := Request(l.sequence, l.latestTimed);
    assert |l.requests - multiset{q}| == 0;
    assert r != q ==> r in l.requests - multiset{q};
  }

  lemma InTurnExpire(l: Light)
    requires InTurn(l)
    ensures InTurn(Step(l, Expire))
  {
  }

  lemma InTurnCallback(l: Light, n: nat)
    requires InTurn(l)
    ensures InTurn(Step(l, Callback(n)))
  {
  }

  lemma InTurnSwitch(l: Light, enable: bool, timed: bool)
    requires InTurn(l) && l.requests == multiset{}
    ensures InTurn(Step(l, Switch(enable, timed)))
  {
    assert |Step(l, Switch(enable, timed)).requests| == 1;
  }

  lemma InTurnStep(l: Light, a: Action)
    requires InTurn(l) && (a.Switch? ==> l.requests == multiset{})
    ensures InTurn(Step(l, a))
  {
    match a
    case Settle(r) =>
      if r in l.requests {
        InTurnSettle(l, r);
      }
    case Expire => InTurnExpire(l);
    case Callback(n) => InTurnCallback(l, n);
    case Switch(enable, timed) => InTurnSwitch(l, enable, timed);
  }

  lemma {:induction false} InTurnRun(acts: seq<Action>)
    requires Serialized(acts)
    ensures InTurn(Run(acts))
  {
    if acts != [] {
      var init, last := acts[..|acts| - 1], acts[|acts| - 1];
      assert forall i :: 0 <= i < |init| ==> init[..i] == acts[..i];
      InTurnRun(init);
      InTurnStep(Run(init), last);
    }
  }

  /** With requests in turn, a timed locate is never left on without its timer. */
  lemma {:induction false} SerializedTimerIsLeft(acts: seq<Action>)
    requires Serialized(acts)
    requires Run(acts).active && Run(acts).latestTimed && Run(acts).requests == multiset{}
    ensures WillClear(Run(acts))
  {
    InTurnRun(acts);
    assert |Run(acts).requests| == 0;
    InvRun(acts);
    TimerByHistory(Run(acts));
  }

  /** Two overlapping timed requests can leave the light on with no timer at all. */
  lemma {:induction false} OverlapLosesTimer() returns (acts: seq<Action>)
    ensures var l := Run(acts); l.active && l.latestTimed && l.requests == multiset{} && !WillClear(l)
  {
    var on, first, second := Switch(true, true), Request(1, true), Request(2, true);
    acts := [];
    var l;
    acts, l := Then(acts, Run([]), on);
    acts, l := Then(acts, l, on);
    assert l.requests == multiset{first, second};
    acts, l := Then(acts, l, Settle(second));
    assert l.requests == multiset{first};
    acts, l := Then(acts, l, Settle(first));
    assert l.requests == multiset{};
  }

  lemma Then(acts: seq<Action>, l: Light, a: Action) returns (acts': seq<Action>, l': Light)
    requires Run(acts) == l
    ensures Run(acts') == l' == Step(l, a)
  {
    acts' := acts + [a];
    RunSnoc(acts, a);
    l' := Run(acts');
  }
}
