/** The state directory held under its exclusive lock. Each method mirrors one
    public operation and is proved against the function that specifies it. */
module LockedState {
  import opened Text
  import opened Release
  import opened DeploymentState
  import opened DeploymentSafety

  /** A write that fails once `after` others have succeeded: before it replaces its
      file, or after it when the directory cannot be flushed. */
  datatype Failure = Failure(after: nat, lands: bool)

  /** Whether one of the next `m` writes fails; none does without a failure. */
  predicate Raises(f: Option<Failure>, m: nat) { f.Some? && f.value.after < m }

  /** How many of the next `m` writes reach the disk. */
  function Landing(f: Option<Failure>, m: nat): nat {
    if Raises(f, m) then f.value.after + (if f.value.lands then 1 else 0) else m
  }

  /** What still waits to fail. A medium that has failed carries out nothing more. */
  function Left(f: Option<Failure>, m: nat): Option<Failure> {
    if f.None? then None
    else if Raises(f, m) then BROKEN
    else Some(Failure(f.value.after - m, f.value.lands))
  }

  const BROKEN := Some(Failure(0, false))

  /** The state directory, the write that fails on it, if any, and the durable
      states it went through. */
  datatype Medium = Medium(disk: Disk, failure: Option<Failure>, log: seq<Disk>)

  /** The medium after these writes, as far as it carried them out. */
  function Carry(m: Medium, ws: seq<Disk>): Medium {
    var landed := ws[..Landing(m.failure, |ws|)];
    Medium(Last(m.disk, landed), Left(m.failure, |ws|), m.log + landed)
  }

  lemma CarryNothing(m: Medium)
    ensures Carry(m, []) == m && !Raises(m.failure, 0)
  {
    assert m.log + [] == m.log;
  }

  /** Writing in two goes is writing at once, unless the first go already failed. */
  lemma CarryConcat(m: Medium, a: seq<Disk>, b: seq<Disk>)
    ensures !Raises(m.failure, |a|) ==>
              && Carry(Carry(m, a), b) == Carry(m, a + b)
              && (Raises(m.failure, |a + b|) <==> Raises(Carry(m, a).failure, |b|))
    ensures Raises(m.failure, |a|) ==> Carry(m, a + b) == Carry(m, a) && Raises(m.failure, |a + b|)
  {
    var whole := (a + b)[..Landing(m.failure, |a + b|)];
    if Raises(m.failure, |a|) {
      assert whole == a[..Landing(m.failure, |a|)];
    } else {
      assert a[..Landing(m.failure, |a|)] == a;
      assert whole == a + b[..Landing(Carry(m, a).failure, |b|)];
      assert m.log + whole == (m.log + a) + b[..Landing(Carry(m, a).failure, |b|)];
    }
  }

  lemma AllLand(m: Medium, ws: seq<Disk>)
    ensures !Raises(m.failure, |ws|) ==> Carry(m, ws).disk == Last(m.disk, ws)
  {
    assert !Raises(m.failure, |ws|) ==> ws[..Landing(m.failure, |ws|)] == ws;
  }

  lemma RecordKeepsJournal(h: Hasher, d: Disk, id: Identity, op: Operation, attemptId: string, at: int)
    requires DeploymentState.RecordSuccess(h, d, id, op, attemptId, at).Ok?
    ensures Last(d, DeploymentState.RecordSuccess(h, d, id, op, attemptId, at).value).pending == d.pending
  {
    hide Accepted, Authorized, ValidIdentity;
  }

  lemma OneWriteLands(m: Medium, d: Disk)
    ensures !Raises(m.failure, 1) ==> Carry(m, [d]).disk == d
  {
  }

  /** Every state a medium has just gone through is one of those written. */
  lemma CarriedAreGood(h: Hasher, m: Medium, ws: seq<Disk>)
    requires forall i :: 0 <= i < |ws| ==> Good(h, ws[i])
    ensures m.log <= Carry(m, ws).log
    ensures forall i :: |m.log| <= i < |Carry(m, ws).log| ==> Good(h, Carry(m, ws).log[i])
  {
    hide Good;
  }

  class LockedDeploymentState {
    const hash: Hasher
    var receipt: Option<Receipt>
    var attempt: Option<Attempt>
    var ledger: seq<Event>
    /** The write that the file system will fail, if any. */
    var failure: Option<Failure>
    /** The durable state after each atomic write since the lock was taken. */
    ghost var writes: seq<Disk>

    function State(): Disk
      reads this
    {
      Disk(receipt, attempt, ledger)
    }

    ghost function Now(): Medium
      reads this
    {
      Medium(State(), failure, writes)
    }

    constructor (h: Hasher, d: Disk, f: Option<Failure>)
      ensures hash == h && Now() == Medium(d, f, [])
    {
      hash, receipt, attempt, ledger, failure, writes := h, d.receipt, d.pending, d.ledger, f, [];
    }

    /** The account of one write that has replaced its file. */
    method Flush() returns (ok: bool)
      requires failure != BROKEN
      modifies this
      ensures State() == old(State()) && writes == old(writes) + [State()]
      ensures failure == Left(old(failure), 1) && ok == !Raises(old(failure), 1)
    {
      writes := writes + [State()];
      ok := true;
      if failure.Some? {
        if failure.value.after == 0 {
          failure, ok := BROKEN, false;
        } else {
          failure := Some(failure.value.(after := failure.value.after - 1));
        }
      }
    }

    method WriteReceipt(r: Receipt) returns (ok: bool)
      modifies this
      ensures Now() == Carry(old(Now()), [old(State()).(receipt := Some(r))]) && ok == !Raises(old(failure), 1)
    {
      if failure == BROKEN { return false; }
      receipt := Some(r);
      ok := Flush();
    }

    method WriteAttempt(p: Attempt) returns (ok: bool)
      modifies this
      ensures Now() == Carry(old(Now()), [old(State()).(pending := Some(p))]) && ok == !Raises(old(failure), 1)
    {
      if failure == BROKEN { return false; }
      attempt := Some(p);
      ok := Flush();
    }

    method WriteLedgerEvent(e: Event) returns (ok: bool)
      modifies this
      ensures Now() == Carry(old(Now()), [old(State()).(ledger := old(ledger) + [e])]) &&
              ok == !Raises(old(failure), 1)
    {
      if failure == BROKEN { return false; }
      ledger := ledger + [e];
      ok := Flush();
    }

    method ClearAttempt() returns (ok: bool)
      requires attempt.Some?
      modifies this
      ensures Now() == Carry(old(Now()), [old(State()).(pending := None)]) && ok == !Raises(old(failure), 1)
    {
      if failure == BROKEN { return false; }
      attempt := None;
      ok := Flush();
    }

    /** Bind the receipt to the head, if it is not bound yet, and clear the journal. */
    method FinishAttempt() returns (ok: bool)
      requires attempt.Some? && ledger != []
      modifies this
      ensures var ws := FinishWrites(hash, old(State()));
              Now() == Carry(old(Now()), ws) && ok == !Raises(old(failure), |ws|)
    {
      hide Carry, Raises;
      ghost var start := Now();
      var bound := ReceiptFromEvent(hash, ledger[|ledger| - 1]);
      ghost var ws := FinishWrites(hash, State());
      if receipt != Some(bound) {
        assert ws == [ws[0]] + [ws[1]];
        CarryConcat(start, [ws[0]], [ws[1]]);
        OneWriteLands(start, ws[0]);
        ok := WriteReceipt(bound);
        if !ok { return; }
      } else {
        assert ws == [State().(pending := None)];
      }
      ok := ClearAttempt();
    }

    /** Open a new rollout attempt, or resume exactly the pending one. */
    method PrepareAttempt(id: Identity, rollback: bool, resume: bool, startedAt: int, freshId: string)
      returns (r: Result<Handle>)
      modifies this
      ensures match DeploymentState.PrepareAttempt(hash, old(State()), id, rollback, resume, startedAt, freshId)
              case Err(e) => r == Err(e) && Now() == old(Now())
              case Ok(opening) =>
                && r == (if Raises(old(failure), |opening.writes|) then Err(WriteFailed) else Ok(opening.handle))
                && Now() == Carry(old(Now()), opening.writes)
      ensures old(Good(hash, State()) && (attempt.None? ==> Fresh(State(), freshId))) ==>
                forall i :: |old(writes)| <= i < |writes| ==> Good(hash, writes[i])
    {
      hide ReleaseVersion, IsLowerHex, Newer, ValidLedger, ValidIdentity, Consistent, Fresh, Good, Carry, Raises,
           FinishWrites;
      ghost var d := State();
      ghost var spec := DeploymentState.PrepareAttempt(hash, d, id, rollback, resume, startedAt, freshId);
      if Good(hash, d) && (attempt.None? ==> Fresh(d, freshId)) && spec.Ok? {
        PrepareIsSafe(hash, d, id, rollback, resume, startedAt, freshId);
        CarriedAreGood(hash, Now(), spec.value.writes);
      }
      CarryNothing(Now());
      var op := OperationOf(rollback);
      var ok;
      if !ValidIdentity(id) { return Err(InvalidIdentity); }
      if !Accepted(hash, State()) { return Err(InvalidState); }
      if attempt.Some? {
        var pending := attempt.value;
        if !resume { return Err(InterruptedAttemptExists); }
        if pending.target != id || pending.operation != op { return Err(ResumeMismatch); }
        if ledger != [] && ledger[|ledger| - 1].attemptId == pending.attemptId {
          ok := FinishAttempt();
          return if ok then Ok(HandleOf(pending, true)) else Err(WriteFailed);
        }
        if ReceiptCarries(receipt, pending) {
          ok := ClearAttempt();
          return if ok then Ok(HandleOf(pending, true)) else Err(WriteFailed);
        }
        if pending.baseRelease != Active(receipt) { return Err(ReceiptChanged); }
        if !Authorized(receipt, id, op) { return Err(NotAuthorized); }
        return Ok(HandleOf(pending, false));
      }
      if resume { return Err(NothingToResume); }
      if !Authorized(receipt, id, op) { return Err(NotAuthorized); }
      var p := Attempt(Some(Prepared), op, freshId, startedAt, Active(receipt), id);
      if !ValidAttempt(p) { return Err(InvalidAttempt); }
      ok := WriteAttempt(p);
      return if ok then Ok(HandleOf(p, false)) else Err(WriteFailed);
    }

    /** Journal that the empty-volume gate of an initial rollout has passed. */
    method MarkInitialBootstrapVerified(id: Identity, handle: Handle) returns (r: Result<()>)
      modifies this
      ensures match MarkBootstrapVerified(hash, old(State()), id, handle)
              case Err(e) => r == Err(e) && Now() == old(Now())
              case Ok(ws) =>
                && r == (if Raises(old(failure), |ws|) then Err(WriteFailed) else Ok(()))
                && Now() == Carry(old(Now()), ws)
    {
      hide ReleaseVersion, IsLowerHex, Newer, ValidLedger, Carry, Raises;
      CarryNothing(Now());
      if !ValidIdentity(id) { return Err(InvalidIdentity); }
      if attempt.None? { return Err(AttemptUnavailable); }
      var p := attempt.value;
      if p.attemptId != handle.attemptId || p.operation != Deployment || p.target != id || p.baseRelease.Some? {
        return Err(AttemptChanged);
      }
      if !Accepted(hash, State()) { return Err(InvalidState); }
      if receipt.Some? { return Err(ReceiptChanged); }
      if RolloutPhase(p) != InitialBootstrapVerified {
        var ok := WriteAttempt(p.(rollout := Some(InitialBootstrapVerified)));
        if !ok { return Err(WriteFailed); }
      }
      return Ok(());
    }

    /** Write the event, then the receipt that names it. */
    method RecordSuccess(id: Identity, op: Operation, attemptId: string, completedAt: int) returns (r: Result<()>)
      modifies this
      ensures match DeploymentState.RecordSuccess(hash, old(State()), id, op, attemptId, completedAt)
              case Err(e) => r == Err(e) && Now() == old(Now())
              case Ok(ws) =>
                && r == (if Raises(old(failure), |ws|) then Err(WriteFailed) else Ok(()))
                && Now() == Carry(old(Now()), ws)
    {
      hide ReleaseVersion, IsLowerHex, Newer, Consistent, Carry, Raises, ValidIdentity, ValidAttemptId;
      ghost var start := Now();
      if !ValidIdentity(id) { return Err(InvalidIdentity); }
      if !ValidAttemptId(attemptId) { return Err(InvalidAttempt); }
      if !Accepted(hash, State()) { return Err(InvalidState); }
      var head := Head(ledger);
      if head.Some? && !ReceiptMatches(hash, receipt, head.value) { return Err(UncommittedEvent); }
      if !Authorized(receipt, id, op) { return Err(NotAuthorized); }
      if attempt.Some? && (attempt.value.attemptId != attemptId || attempt.value.operation != op ||
                           attempt.value.baseRelease != Active(receipt) || attempt.value.target != id) {
        return Err(AttemptChanged);
      }
      var e := NextEvent(hash, State(), id, op, attemptId, completedAt);
      if !ValidEvent(e) || !ChainOk(hash, e, head) { return Err(InvalidEvent); }
      ghost var appended := State().(ledger := ledger + [e]);
      ghost var bound := appended.(receipt := Some(ReceiptFromEvent(hash, e)));
      assert [appended] + [bound] == [appended, bound];
      CarryConcat(start, [appended], [bound]);
      OneWriteLands(start, appended);
      var ok := WriteLedgerEvent(e);
      if !ok { return Err(WriteFailed); }
      ok := WriteReceipt(ReceiptFromEvent(hash, e));
      return if ok then Ok(()) else Err(WriteFailed);
    }

    /** Record the event and the receipt of an attempt whose rollout passed, and
        only then give up its journal. */
    method CompleteAttempt(id: Identity, handle: Handle, completedAt: int) returns (r: Result<()>)
      modifies this
      ensures match DeploymentState.CompleteAttempt(hash, old(State()), id, handle, completedAt)
              case Err(e) => r == Err(e) && Now() == old(Now())
              case Ok(ws) =>
                && r == (if Raises(old(failure), |ws|) then Err(WriteFailed) else Ok(()))
                && Now() == Carry(old(Now()), ws)
      ensures old(Open(hash, State()) && Holds(attempt.value, id, handle)) ==>
                && (r.Ok? <==> |old(ledger)| < MAX_LEDGER_EVENTS && !Raises(old(failure), 3))
                && forall i :: |old(writes)| <= i < |writes| ==> Good(hash, writes[i])
    {
      hide ReleaseVersion, IsLowerHex, Newer, Good, ValidIdentity, Carry, Raises, DeploymentState.RecordSuccess,
           Accepted;
      ghost var start := Now();
      ghost var spec := DeploymentState.CompleteAttempt(hash, State(), id, handle, completedAt);
      if Open(hash, State()) && Holds(attempt.value, id, handle) {
        CompleteIsSafe(hash, State(), id, handle, completedAt);
        if spec.Ok? { CarriedAreGood(hash, start, spec.value); }
      }
      if !ValidIdentity(id) { return Err(InvalidIdentity); }
      if attempt.None? { return Err(AttemptUnavailable); }
      if attempt.value.attemptId != handle.attemptId || attempt.value.operation != handle.operation ||
         attempt.value.target != id {
        return Err(AttemptChanged);
      }
      if !Accepted(hash, State()) { return Err(InvalidState); }
      if attempt.value.baseRelease != Active(receipt) { return Err(ReceiptChanged); }
      ghost var recorded := DeploymentState.RecordSuccess(hash, State(), id, handle.operation, handle.attemptId,
                                                          completedAt);
      if recorded.Ok? {
        CarryConcat(start, recorded.value, [Last(State(), recorded.value).(pending := None)]);
        AllLand(start, recorded.value);
        RecordKeepsJournal(hash, State(), id, handle.operation, handle.attemptId, completedAt);
      }
      r := RecordSuccess(id, handle.operation, handle.attemptId, completedAt);
      if r.Ok? {
        var ok := ClearAttempt();
        if !ok { r := Err(WriteFailed); }
      }
    }
  }
}
