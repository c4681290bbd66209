/** The host updater and the client that triggers an update on it.

    The updater remembers one operation, the last it admitted, and answers a repeated
    request for that operation without starting it again. The client repeats its request
    until an answer settles it. */
module Updater {
  import opened Wrappers

  /** Releases are numbered in their order. */
  datatype Request = Request(id: nat, target: nat, complete: bool)

  datatype Phase = Queued | Downloading | Verifying | Staging | Preflight | Activating | Succeeded | Failed {
    predicate Terminal() { this == Succeeded || this == Failed }
  }

  datatype Operation = Operation(request: Request, phase: Phase, recoveryPending: bool)

  /** installed is the deployed release, previous the one it replaced. */
  datatype Manager = Manager(operation: Option<Operation>, running: bool, closing: bool, installed: nat, previous: nat)

  predicate IsCurrent(m: Manager, r: Request)
  {
    m.operation.Some? && m.operation.value.request.id == r.id
  }

  predicate Idle(m: Manager)
  {
    && !m.running && !m.closing
    && (m.operation.Some? ==> m.operation.value.phase.Terminal() && !m.operation.value.recoveryPending)
  }

  /** `trouble` stands for the grounds of refusal that do not depend on this state: a malformed
      request, a wrong deployment mode, a pending activation marker, an unreadable host, a
      failure to persist. */
  predicate Admits(m: Manager, r: Request, trouble: bool)
  {
    !trouble && !IsCurrent(m, r) && Idle(m) && m.installed < r.target
  }

  datatype Answer = Accepted(operation: Operation) | Rejected

  function Trigger(m: Manager, r: Request, trouble: bool): (Manager, Answer)
  {
    if IsCurrent(m, r) && m.operation.value.request == r && !trouble then (m, Accepted(m.operation.value))
    else if Admits(m, r, trouble) then
      var op := Operation(r, Queued, false);
      (m.(operation := Some(op), running := true), Accepted(op))
    else (m, Rejected)
  }

  /** What the worker, a shutdown and a restart do to the updater. */
  datatype Work =
    | Advance(phase: Phase)
    | Install
    | Succeed(close: bool)
    | Fail(recovery: bool, restore: bool)
    | Finish
    | Close
    | Restart(recovery: bool, restore: bool)
    | Recovered

  predicate Working(m: Manager)
  {
    m.operation.Some? && !m.operation.value.phase.Terminal()
  }

  function Target(m: Manager): nat
    requires m.operation.Some?
  {
    m.operation.value.request.target
  }

  /** The operation fails; the deployment it had already swapped in may be swapped out again. */
  function Abort(m: Manager, recovery: bool, restore: bool): Manager
    requires Working(m)
  {
    m.(operation := Some(m.operation.value.(phase := Failed, recoveryPending := recovery)),
       installed := if restore && m.installed == Target(m) then m.previous else m.installed)
  }

  function Do(m: Manager, w: Work): Manager
  {
    match w
    case Advance(phase) =>
      if m.running && Working(m) && !phase.Terminal() then m.(operation := Some(m.operation.value.(phase := phase))) else m
    case Install =>
      if m.running && Working(m) && m.installed < Target(m) then m.(installed := Target(m), previous := m.installed) else m
    case Succeed(close) =>
      if m.running && Working(m) && m.installed == Target(m)
      then m.(operation := Some(m.operation.value.(phase := Succeeded)), closing := m.closing || close) else m
    case Fail(recovery, restore) =>
      if m.running && Working(m) then Abort(m, recovery, restore) else m
    case Finish => m.(running := false)
    case Close => m.(closing := true)
    case Restart(recovery, restore) =>
      var stopped := m.(running := false, closing := false);
      if Working(m) then Abort(stopped, recovery, restore) else stopped
    case Recovered =>
      if m.operation.Some? then m.(operation := Some(m.operation.value.(recoveryPending := false))) else m
  }

  /** A worker belongs to the current operation, and an operation under way has either not
      been deployed yet or has replaced an older release. */
  predicate Sane(m: Manager)
  {
    && (m.running ==> m.operation.Some?)
    && (Working(m) ==> m.installed < Target(m) || (m.installed == Target(m) && m.previous < Target(m)))
  }

  /** The release that stays deployed whatever becomes of the current operation. */
  function Floor(m: Manager): nat
  {
    if Working(m) && m.installed == Target(m) then m.previous else m.installed
  }

  lemma TriggerKeeps(m: Manager, r: Request, trouble: bool)
    requires Sane(m)
    ensures var (n, _) := Trigger(m, r, trouble); Sane(n) && Floor(m) <= Floor(n)
  {
  }

  lemma WorkKeeps(m: Manager, w: Work)
    requires Sane(m)
    ensures Sane(Do(m, w)) && Floor(m) <= Floor(Do(m, w))
  {
  }

  // ----- the client -----

  datatype Reply = Ok(operation: Operation) | Transport | Protocol | Unavailable | Http | Other

  datatype Client =
    | Trying(ambiguous: bool)
    | Following
    | Refused
    | Unreachable
    | GaveUp(ambiguous: bool)
    | Done
    | Broken
    | Lost

  function Settle(phase: Phase): Client
  {
    if phase == Succeeded then Done else if phase == Failed then Broken else Following
  }

  /** What one reply to the request means to a client that has seen an ambiguous one before
      or not. */
  function React(ambiguous: bool, reply: Reply): Client
  {
    match reply
    case Ok(op) => Settle(op.phase)
    case Transport => Trying(true)
    case Protocol => Trying(true)
    case Unavailable => if ambiguous then Trying(true) else Unreachable
    case Http => if ambiguous then Trying(true) else Refused
    case Other => Trying(ambiguous)
  }

  function Observe(m: Manager, r: Request): Client
  {
    if m.operation.None? || m.operation.value.request.id != r.id || m.operation.value.request.target != r.target then Lost
    else Settle(m.operation.value.phase)
  }
}
