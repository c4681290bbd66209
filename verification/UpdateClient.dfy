/** The two loops of the update client, over the replies they get. */
module UpdateClient {
  import opened Wrappers
  import opened Updater

  // ----- asking -----

  predicate Ambiguous(reply: Reply) { reply.Transport? || reply.Protocol? }

  predicate Definite(reply: Reply) { reply.Unavailable? || reply.Http? }

  /** No reply before n ends the loop. */
  ghost predicate Undecided(replies: seq<Reply>, n: nat)
    requires n <= |replies|
  {
    forall i :: 0 <= i < n ==> !replies[i].Ok? && (Definite(replies[i]) ==> exists j :: 0 <= j < i && Ambiguous(replies[j]))
  }

  /** Where a run of attempts with these replies has the client. */
  ghost function Asked(replies: seq<Reply>): Client
  {
    if replies == [] then Trying(false)
    else
      var before := Asked(replies[..|replies| - 1]);
      if before.Trying? then React(before.ambiguous, replies[|replies| - 1]) else before
  }

  /** Asks until a reply settles the matter or the time is over, which it is after the last of
      the replies. One ambiguous reply makes every later refusal inconclusive. */
  method TriggerUpdate(replies: seq<Reply>) returns (c: Client, n: nat)
    requires replies != []
    ensures 0 < n <= |replies| && Undecided(replies, n - 1)
    ensures replies[n - 1].Ok? ==> c == Settle(replies[n - 1].operation.phase)
    ensures Definite(replies[n - 1]) && (forall j :: 0 <= j < n - 1 ==> !Ambiguous(replies[j])) ==>
              c == if replies[n - 1].Http? then Refused else Unreachable
    ensures c.Refused? || c.Unreachable? ==> Definite(replies[n - 1]) && forall j :: 0 <= j < n - 1 ==> replies[j].Other?
    ensures c.GaveUp? <==> Undecided(replies, n)
    ensures c.GaveUp? ==> n == |replies| && (c.ambiguous <==> exists j :: 0 <= j < n && Ambiguous(replies[j]))
    ensures !c.Trying? && Asked(replies[..n]) == if c.GaveUp? then Trying(c.ambiguous) else c
  {
    var ambiguous := false;
    n := 0;
    while n < |replies|
      invariant 0 <= n <= |replies| && Undecided(replies, n)
      invariant ambiguous <==> exists j :: 0 <= j < n && Ambiguous(replies[j])
      invariant Asked(replies[..n]) == Trying(ambiguous)
    {
      var reply := replies[n];
      assert replies[..n + 1][..n] == replies[..n];
      n := n + 1;
      if reply.Ok? {
        return Settle(reply.operation.phase), n;
      }
      if Ambiguous(reply) {
        ambiguous := true;
      }
      if !ambiguous {
        if reply.Unavailable? {
          return Unreachable, n;
        }
        if reply.Http? {
          return Refused, n;
        }
      }
    }
    return GaveUp(ambiguous), n;
  }

  // ----- following -----

  datatype Status = Error(at: nat) | Read(operation: Option<Operation>)

  datatype Verdict = Success | Failure | Vanished | Silent | Stopped

  predicate Names(status: Status, a: Request)
  {
    && status.Read? && status.operation.Some?
    && status.operation.value.request.id == a.id && status.operation.value.request.target == a.target
  }

  /** The phases the client saw, in order. */
  ghost function Seen(a: Request, first: Phase, polls: seq<Status>): (phases: seq<Phase>)
    ensures phases != []
  {
    if polls == [] then [first]
    else
      var last := polls[|polls| - 1];
      var before := Seen(a, first, polls[..|polls| - 1]);
      if Names(last, a) then before + [last.operation.value.phase] else before
  }

  ghost function Last(phases: seq<Phase>): Phase
    requires phases != []
  {
    phases[|phases| - 1]
  }

  /** When the polls began to fail that have failed since without a break. */
  ghost function Since(polls: seq<Status>): Option<nat>
  {
    if polls == [] || polls[|polls| - 1].Read? then None
    else
      var before := Since(polls[..|polls| - 1]);
      if before.Some? then before else Some(polls[|polls| - 1].at)
  }

  ghost predicate SilentAfter(polls: seq<Status>, timeout: nat)
  {
    Since(polls).Some? && Since(polls).value + timeout <= polls[|polls| - 1].at
  }

  lemma SinceStep(polls: seq<Status>, n: nat)
    requires n < |polls|
    ensures Since(polls[..n + 1]) == if polls[n].Read? then None
                                     else if Since(polls[..n]).Some? then Since(polls[..n]) else Some(polls[n].at)
  {
    assert polls[..n + 1][..n] == polls[..n];
  }

  lemma SeenStep(a: Request, first: Phase, polls: seq<Status>, n: nat)
    requires n < |polls|
    ensures var before := Seen(a, first, polls[..n]);
            Seen(a, first, polls[..n + 1])
            == if Names(polls[n], a) then before + [polls[n].operation.value.phase] else before
  {
    assert polls[..n + 1][..n] == polls[..n];
  }

  /** Polls the status of an accepted operation until it is over, is another one, or is out of
      reach for too long. */
  method Follow(a: Request, first: Phase, polls: seq<Status>, timeout: nat)
    returns (verdict: Verdict, n: nat, ghost phases: seq<Phase>)
    ensures n <= |polls| && phases == Seen(a, first, polls[..n])
    ensures verdict.Success? <==> Last(phases) == Succeeded
    ensures verdict.Failure? <==> Last(phases) == Failed
    ensures verdict.Vanished? <==> n > 0 && polls[n - 1].Read? && !Names(polls[n - 1], a)
    ensures verdict.Silent? <==> SilentAfter(polls[..n], timeout)
    ensures verdict.Stopped? ==> n == |polls|
    ensures forall i :: 0 <= i < n - 1 ==> polls[i].Error? || Names(polls[i], a)
    ensures forall i :: 0 <= i < n ==> !SilentAfter(polls[..i], timeout)
    ensures forall k :: 0 <= k < |phases| - 1 ==> !phases[k].Terminal()
  {
    var phase := first;
    var since: Option<nat> := None;
    phases := [first];
    n := 0;
    while true
      invariant n <= |polls|
      invariant phases == Seen(a, first, polls[..n]) && phase == Last(phases)
      invariant since == Since(polls[..n])
      invariant forall i :: 0 <= i < n ==> polls[i].Error? || Names(polls[i], a)
      invariant forall i :: 0 <= i <= n ==> !SilentAfter(polls[..i], timeout)
      invariant forall k :: 0 <= k < |phases| - 1 ==> !phases[k].Terminal()
      decreases |polls| - n
    {
      if phase.Terminal() {
        return (if phase == Failed then Failure else Success), n, phases;
      }
      if n == |polls| {
        return Stopped, n, phases;
      }
      var status := polls[n];
      SeenStep(a, first, polls, n);
      SinceStep(polls, n);
      n := n + 1;
      if status.Error? {
        if since.None? {
          since := Some(status.at);
        }
        if status.at >= since.value + timeout {
          return Silent, n, phases;
        }
      } else {
        since := None;
        if !Names(status, a) {
          return Vanished, n, phases;
        }
        phase := status.operation.value.phase;
        phases := phases + [phase];
      }
    }
  }
}
