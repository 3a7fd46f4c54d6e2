/** The private deployment state: an intent journal, a hash-chained ledger of
    completed rollouts and a receipt naming the active release.

    Every operation is a function from the durable state to either a refusal or
    the list of durable states it passes through, one per atomic write. A crash
    after any write leaves the state at that position of the list. */
module DeploymentState {
  import opened Text
  import opened Release

  const MAX_LEDGER_EVENTS := 100_000

  type Digest = s: string | IsLowerHex(s, 64) witness seq(64, _ => '0')

  datatype Operation = Deployment | Rollback
  datatype Phase = Prepared | InitialBootstrapVerified

  datatype Event = Event(
    sequence: int, operation: Operation, attemptId: string, completedAt: int,
    baseRelease: Option<Identity>, release: Identity, previousRelease: Option<Identity>,
    previousEvent: Option<Digest>)

  /** Bytes of a ledger file: the canonical encoding of an event, or anything else. */
  datatype Raw = Canonical(event: Event) | Other(bytes: string)

  /** SHA-256, left abstract: no collision-freedom is assumed of it. */
  type Hasher = Raw -> Digest

  datatype Binding =
    | V1
    | V2(op: Operation)
    | V3(op: Operation, attemptId: string)
    | V4(op: Operation, attemptId: string, sequence: int, eventSha: Digest)

  datatype Receipt = Receipt(
    binding: Binding, completedAt: int, release: Identity, previousRelease: Option<Identity>)

  /** `rollout` is absent in the first journal schema. */
  datatype Attempt = Attempt(
    rollout: Option<Phase>, operation: Operation, attemptId: string, startedAt: int,
    baseRelease: Option<Identity>, target: Identity)

  datatype Disk = Disk(receipt: Option<Receipt>, pending: Option<Attempt>, ledger: seq<Event>)

  datatype Handle = Handle(
    attemptId: string, operation: Operation, initialDeployment: bool, phase: Phase, alreadyCompleted: bool)

  datatype Error =
    | InvalidIdentity | InvalidState | InterruptedAttemptExists | ResumeMismatch | ReceiptChanged
    | NotAuthorized | NothingToResume | InvalidAttempt | AttemptUnavailable | AttemptChanged
    | UncommittedEvent | InvalidEvent | WriteFailed

  datatype Result<+T> = Ok(value: T) | Err(error: Error)

  predicate ValidAttemptId(id: string) { IsLowerHex(id, 32) }

  predicate ValidReceipt(r: Receipt) {
    && (r.binding.V3? || r.binding.V4? ==> ValidAttemptId(r.binding.attemptId))
    && (r.binding.V4? ==> 1 <= r.binding.sequence <= MAX_LEDGER_EVENTS)
    && ValidIdentity(r.release) && ValidOptional(r.previousRelease)
    && r.previousRelease != Some(r.release)
  }

  predicate ValidAttempt(p: Attempt) {
    && ValidAttemptId(p.attemptId) && ValidIdentity(p.target) && ValidOptional(p.baseRelease)
    && (p.rollout == Some(InitialBootstrapVerified) ==> p.baseRelease.None? && p.operation == Deployment)
  }

  function RolloutPhase(p: Attempt): Phase {
    if p.rollout.Some? then p.rollout.value else Prepared
  }

  predicate ValidEvent(e: Event) {
    && 1 <= e.sequence <= MAX_LEDGER_EVENTS
    && ValidAttemptId(e.attemptId) && ValidIdentity(e.release)
    && ValidOptional(e.baseRelease) && ValidOptional(e.previousRelease)
    && e.previousRelease != Some(e.release)
  }

  function Sha(h: Hasher, e: Event): Digest { h(Canonical(e)) }

  predicate ChainOk(h: Hasher, e: Event, prior: Option<Event>)
    requires ValidEvent(e) && (prior.Some? ==> ValidEvent(prior.value))
  {
    match prior
    case None => e.sequence == 1 && e.previousEvent.None?
    case Some(p) =>
      && e.sequence == p.sequence + 1
      && e.previousEvent == Some(Sha(h, p))
      && e.baseRelease == Some(p.release)
      && e.previousRelease == (if e.release == p.release then p.previousRelease else Some(p.release))
      && (if e.operation == Rollback then Some(e.release) == p.previousRelease
          else e.release == p.release || Newer(VersionOf(e.release), VersionOf(p.release)))
  }

  function Head(ledger: seq<Event>): Option<Event> {
    if ledger == [] then None else Some(ledger[|ledger| - 1])
  }

  function Penultimate(ledger: seq<Event>): Option<Event> {
    if |ledger| < 2 then None else Some(ledger[|ledger| - 2])
  }

  predicate Numbered(ledger: seq<Event>) {
    forall i :: 0 <= i < |ledger| ==> ValidEvent(ledger[i]) && ledger[i].sequence == i + 1
  }

  /** Event `i` extends the chain that ends before it. */
  predicate ChainedAt(h: Hasher, ledger: seq<Event>, i: nat)
    requires Numbered(ledger) && i < |ledger|
  {
    ChainOk(h, ledger[i], if i == 0 then None else Some(ledger[i - 1]))
  }

  /** What reading the ledger directory accepts. */
  predicate ValidLedger(h: Hasher, ledger: seq<Event>) {
    |ledger| <= MAX_LEDGER_EVENTS && Numbered(ledger) &&
    forall i :: 0 <= i < |ledger| ==> ChainedAt(h, ledger, i)
  }

  function ReceiptFromEvent(h: Hasher, e: Event): Receipt {
    Receipt(V4(e.operation, e.attemptId, e.sequence, Sha(h, e)), e.completedAt, e.release, e.previousRelease)
  }

  predicate ReceiptMatches(h: Hasher, receipt: Option<Receipt>, e: Event) {
    receipt == Some(ReceiptFromEvent(h, e))
  }

  predicate PendingMatches(p: Attempt, e: Event) {
    p.attemptId == e.attemptId && p.operation == e.operation &&
    p.baseRelease == e.baseRelease && p.target == e.release
  }

  function Active(receipt: Option<Receipt>): Option<Identity> {
    if receipt.None? then None else Some(receipt.value.release)
  }

  predicate IsV4(receipt: Option<Receipt>) { receipt.Some? && receipt.value.binding.V4? }

  /** A receipt of the third schema already committed this journal. */
  predicate LegacyCommitted(receipt: Option<Receipt>, p: Attempt) {
    && receipt.Some? && receipt.value.binding.V3?
    && receipt.value.binding.attemptId == p.attemptId && receipt.value.binding.op == p.operation
    && receipt.value.release == p.target
    && (p.baseRelease == Some(receipt.value.release) || p.baseRelease == receipt.value.previousRelease)
  }

  /** The three durable objects agree, or disagree only as a crash inside a commit leaves them. */
  predicate Consistent(h: Hasher, d: Disk) {
    match Head(d.ledger)
    case None =>
      && !IsV4(d.receipt)
      && (d.pending.Some? ==>
            d.pending.value.baseRelease == Active(d.receipt) || LegacyCommitted(d.receipt, d.pending.value))
    case Some(head) =>
      if ReceiptMatches(h, d.receipt, head) then
        d.pending.Some? ==>
          if d.pending.value.attemptId == head.attemptId then PendingMatches(d.pending.value, head)
          else d.pending.value.baseRelease == Active(d.receipt)
      else
        && d.pending.Some? && PendingMatches(d.pending.value, head)
        && (if Penultimate(d.ledger).None? then !IsV4(d.receipt)
            else ReceiptMatches(h, d.receipt, Penultimate(d.ledger).value))
        && Active(d.receipt) == head.baseRelease
  }

  /** Exactly what the next lock acquisition checks before it yields the state. */
  predicate Accepted(h: Hasher, d: Disk) {
    && (d.receipt.Some? ==> ValidReceipt(d.receipt.value))
    && (d.pending.Some? ==> ValidAttempt(d.pending.value))
    && ValidLedger(h, d.ledger)
    && Consistent(h, d)
  }

  /** A deployment needs the active release or a newer version; a rollback needs the release before. */
  predicate Authorized(current: Option<Receipt>, target: Identity, op: Operation)
    requires ValidIdentity(target) && (current.Some? ==> ValidReceipt(current.value))
  {
    match current
    case None => op == Deployment
    case Some(r) =>
      if op == Rollback then r.previousRelease == Some(target)
      else target == r.release || Newer(VersionOf(target), VersionOf(r.release))
  }

  function OperationOf(rollback: bool): Operation { if rollback then Rollback else Deployment }

  /** A receipt that already carries this attempt, whatever the ledger says. */
  predicate ReceiptCarries(receipt: Option<Receipt>, p: Attempt) {
    && receipt.Some? && (receipt.value.binding.V3? || receipt.value.binding.V4?)
    && receipt.value.binding.attemptId == p.attemptId && receipt.value.binding.op == p.operation
    && receipt.value.release == p.target
  }

  datatype Opening = Opening(handle: Handle, writes: seq<Disk>)

  predicate Committed(d: Disk) {
    d.pending.Some? && d.ledger != [] && Head(d.ledger).value.attemptId == d.pending.value.attemptId
  }

  /** Bind the receipt to the head, then clear the journal. */
  function FinishWrites(h: Hasher, d: Disk): seq<Disk>
    requires d.ledger != []
  {
    var bound := d.(receipt := Some(ReceiptFromEvent(h, Head(d.ledger).value)));
    (if d.receipt == bound.receipt then [] else [bound]) + [bound.(pending := None)]
  }

  function HandleOf(p: Attempt, completed: bool): Handle {
    Handle(p.attemptId, p.operation, p.baseRelease.None?, RolloutPhase(p), completed)
  }

  function PrepareAttempt(h: Hasher, d: Disk, id: Identity, rollback: bool, resume: bool,
                          startedAt: int, freshId: string): Result<Opening>
  {
    var op := OperationOf(rollback);
    if !ValidIdentity(id) then Err(InvalidIdentity)
    else if !Accepted(h, d) then Err(InvalidState)
    else match d.pending
      case Some(p) =>
        if !resume then Err(InterruptedAttemptExists)
        else if p.target != id || p.operation != op then Err(ResumeMismatch)
        else if Committed(d) then Ok(Opening(HandleOf(p, true), FinishWrites(h, d)))
        else if ReceiptCarries(d.receipt, p) then Ok(Opening(HandleOf(p, true), [d.(pending := None)]))
        else if p.baseRelease != Active(d.receipt) then Err(ReceiptChanged)
        else if !Authorized(d.receipt, id, op) then Err(NotAuthorized)
        else Ok(Opening(HandleOf(p, false), []))
      case None =>
        var p := Attempt(Some(Prepared), op, freshId, startedAt, Active(d.receipt), id);
        if resume then Err(NothingToResume)
        else if !Authorized(d.receipt, id, op) then Err(NotAuthorized)
        else if !ValidAttempt(p) then Err(InvalidAttempt)
        else Ok(Opening(HandleOf(p, false), [d.(pending := Some(p))]))
  }

  function MarkBootstrapVerified(h: Hasher, d: Disk, id: Identity, handle: Handle): Result<seq<Disk>> {
    if !ValidIdentity(id) then Err(InvalidIdentity)
    else if d.pending.None? then Err(AttemptUnavailable)
    else
      var p := d.pending.value;
      if p.attemptId != handle.attemptId || p.operation != Deployment || p.target != id || p.baseRelease.Some?
      then Err(AttemptChanged)
      else if !Accepted(h, d) then Err(InvalidState)
      else if d.receipt.Some? then Err(ReceiptChanged)
      else if RolloutPhase(p) == InitialBootstrapVerified then Ok([])
      else Ok([d.(pending := Some(p.(rollout := Some(InitialBootstrapVerified))))])
  }

  function NextEvent(h: Hasher, d: Disk, id: Identity, op: Operation, attemptId: string, completedAt: int): Event {
    var previous :=
      if d.receipt.None? then None
      else if d.receipt.value.release == id then d.receipt.value.previousRelease
      else Some(d.receipt.value.release);
    var head := Head(d.ledger);
    Event(if head.None? then 1 else head.value.sequence + 1, op, attemptId, completedAt,
          Active(d.receipt), id, previous, if head.None? then None else Some(Sha(h, head.value)))
  }

  /** Append one event, then bind the receipt to it. */
  function RecordSuccess(h: Hasher, d: Disk, id: Identity, op: Operation, attemptId: string, completedAt: int)
    : Result<seq<Disk>>
  {
    if !ValidIdentity(id) then Err(InvalidIdentity)
    else if !ValidAttemptId(attemptId) then Err(InvalidAttempt)
    else if !Accepted(h, d) then Err(InvalidState)
    else if d.ledger != [] && !ReceiptMatches(h, d.receipt, Head(d.ledger).value) then Err(UncommittedEvent)
    else if !Authorized(d.receipt, id, op) then Err(NotAuthorized)
    else if d.pending.Some? &&
            (d.pending.value.attemptId != attemptId || d.pending.value.operation != op ||
             d.pending.value.baseRelease != Active(d.receipt) || d.pending.value.target != id)
    then Err(AttemptChanged)
    else
      var e := NextEvent(h, d, id, op, attemptId, completedAt);
      if !ValidEvent(e) || !ChainOk(h, e, Head(d.ledger)) then Err(InvalidEvent)
      else
        var appended := d.(ledger := d.ledger + [e]);
        Ok([appended, appended.(receipt := Some(ReceiptFromEvent(h, e)))])
  }

  function CompleteAttempt(h: Hasher, d: Disk, id: Identity, handle: Handle, completedAt: int): Result<seq<Disk>> {
    if !ValidIdentity(id) then Err(InvalidIdentity)
    else if d.pending.None? then Err(AttemptUnavailable)
    else if d.pending.value.attemptId != handle.attemptId || d.pending.value.operation != handle.operation ||
            d.pending.value.target != id then Err(AttemptChanged)
    else if !Accepted(h, d) then Err(InvalidState)
    else if d.pending.value.baseRelease != Active(d.receipt) then Err(ReceiptChanged)
    else match RecordSuccess(h, d, id, handle.operation, handle.attemptId, completedAt)
      case Err(e) => Err(e)
      case Ok(writes) => Ok(writes + [Last(d, writes).(pending := None)])
  }

  /** The durable state once every write of a list has happened. */
  function Last(d: Disk, writes: seq<Disk>): Disk {
    if writes == [] then d else writes[|writes| - 1]
  }
}
