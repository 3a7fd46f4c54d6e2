/** What every operation on the deployment state keeps, write by write. */
module DeploymentSafety {
  import opened Text
  import opened Release
  import opened DeploymentState

  predicate Unused(ledger: seq<Event>, id: string) {
    forall i :: 0 <= i < |ledger| ==> ledger[i].attemptId != id
  }

  predicate DistinctAttempts(ledger: seq<Event>) {
    forall i, j :: 0 <= i < j < |ledger| ==> ledger[i].attemptId != ledger[j].attemptId
  }

  function ReceiptAttempt(receipt: Option<Receipt>): Option<string> {
    if receipt.Some? && (receipt.value.binding.V3? || receipt.value.binding.V4?)
    then Some(receipt.value.binding.attemptId) else None
  }

  /** A random attempt id that no durable record uses yet. */
  predicate Fresh(d: Disk, id: string) { Unused(d.ledger, id) && ReceiptAttempt(d.receipt) != Some(id) }

  /** The journal still waits for its event, and its rollout is still authorised. */
  predicate Open(h: Hasher, d: Disk) {
    && Accepted(h, d) && DistinctAttempts(d.ledger) && d.pending.Some?
    && Fresh(d, d.pending.value.attemptId)
    && d.pending.value.baseRelease == Active(d.receipt)
    && Authorized(d.receipt, d.pending.value.target, d.pending.value.operation)
  }

  /** The invariant: an accepted state whose journal, if any, is waiting or already committed. */
  predicate Good(h: Hasher, d: Disk) {
    && Accepted(h, d) && DistinctAttempts(d.ledger)
    && (d.pending.None? || Committed(d) || Open(h, d))
  }

  /** Start states: any accepted state without a journal in which no attempt id
      repeats; in particular nothing at all, or a receipt of an older schema. */
  lemma JournalFreeStatesAreGood(h: Hasher, d: Disk)
    requires d.pending.None?
    requires (Accepted(h, d) && DistinctAttempts(d.ledger)) ||
             (d.ledger == [] && (d.receipt.Some? ==> ValidReceipt(d.receipt.value) && !IsV4(d.receipt)))
    ensures Good(h, d)
  {
    if d.ledger == [] { assert Accepted(h, d); }
  }

  /** A journal left behind by an older release whose receipt already committed
      it: resuming it exactly clears the journal and nothing else. */
  lemma LegacyJournalIsCleared(h: Hasher, d: Disk, rollback: bool, at: int, freshId: string)
    requires Accepted(h, d) && d.ledger == [] && d.pending.Some? && LegacyCommitted(d.receipt, d.pending.value)
    requires d.pending.value.operation == OperationOf(rollback)
    ensures var r := PrepareAttempt(h, d, d.pending.value.target, rollback, true, at, freshId);
            r.Ok? && r.value.handle.alreadyCompleted && r.value.writes == [d.(pending := None)]
            && Good(h, d.(pending := None))
  {
    hide ReleaseVersion, IsLowerHex, Newer;
  }

  /** Authorisation refines chain validation: the event recorded after
      `Authorized` succeeds is refused only for want of a sequence number. */
  lemma AuthorizedEventChains(h: Hasher, d: Disk, id: Identity, op: Operation, attemptId: string, at: int)
    requires Accepted(h, d) && ValidIdentity(id) && ValidAttemptId(attemptId)
    requires d.ledger == [] || ReceiptMatches(h, d.receipt, Head(d.ledger).value)
    requires Authorized(d.receipt, id, op)
    ensures var e := NextEvent(h, d, id, op, attemptId, at);
            && (ValidEvent(e) <==> |d.ledger| < MAX_LEDGER_EVENTS)
            && (ValidEvent(e) ==> ChainOk(h, e, Head(d.ledger)) && ValidLedger(h, d.ledger + [e]))
  {
    hide ReleaseVersion, IsLowerHex;
    var e := NextEvent(h, d, id, op, attemptId, at);
    assert e.sequence == |d.ledger| + 1;
    if |d.ledger| < MAX_LEDGER_EVENTS { AppendKeepsChain(h, d.ledger, e); }
  }

  lemma AppendKeepsChain(h: Hasher, ledger: seq<Event>, e: Event)
    requires ValidLedger(h, ledger) && |ledger| < MAX_LEDGER_EVENTS
    requires ValidEvent(e) && e.sequence == |ledger| + 1 && ChainOk(h, e, Head(ledger))
    ensures ValidLedger(h, ledger + [e])
  {
    hide ValidEvent, VersionOf, Newer;
    var l := ledger + [e];
    assert Numbered(l);
    forall i | 0 <= i < |l|
      ensures ChainedAt(h, l, i)
    {
      if i < |ledger| { assert ChainedAt(h, ledger, i); }
    }
  }

  /** Opening or resuming an attempt, one write at a time. */
  lemma PrepareIsSafe(h: Hasher, d: Disk, id: Identity, rollback: bool, resume: bool, at: int, freshId: string)
    requires Good(h, d) && (d.pending.None? ==> Fresh(d, freshId))
    ensures var r := PrepareAttempt(h, d, id, rollback, resume, at, freshId);
            r.Ok? ==>
              && (forall i :: 0 <= i < |r.value.writes| ==>
                  Good(h, r.value.writes[i]) && r.value.writes[i].ledger == d.ledger)
              && var d' := Last(d, r.value.writes);
                 if r.value.handle.alreadyCompleted then d'.pending.None?
                 else && Open(h, d') && d'.receipt == d.receipt && ValidIdentity(id)
                      && d'.pending.value.target == id && d'.pending.value.operation == OperationOf(rollback)
                      && r.value.handle == HandleOf(d'.pending.value, false)
  {
    hide ReleaseVersion, IsLowerHex, Newer;
    var r := PrepareAttempt(h, d, id, rollback, resume, at, freshId);
    if r.Ok? && d.pending.Some? && Committed(d) {
      CommittedFinishes(h, d);
    }
  }

  /** The state a committed attempt settles in. */
  function Settled(h: Hasher, d: Disk): Disk
    requires d.ledger != []
  {
    Disk(Some(ReceiptFromEvent(h, Head(d.ledger).value)), None, d.ledger)
  }

  /** Finishing a committed attempt passes only through states that finish the same way. */
  lemma CommittedFinishes(h: Hasher, d: Disk)
    requires Good(h, d) && Committed(d)
    ensures var ws := FinishWrites(h, d);
            && 1 <= |ws| <= 2 && ws[|ws| - 1] == Settled(h, d)
            && (|ws| == 2 ==>
                  Committed(ws[0]) && Settled(h, ws[0]) == Settled(h, d) && FinishWrites(h, ws[0]) == ws[1..])
            && (forall i :: 0 <= i < |ws| ==> Good(h, ws[i]) && ws[i].ledger == d.ledger)
  {
    hide ReleaseVersion, IsLowerHex, Newer;
    var ws := FinishWrites(h, d);
    var head := Head(d.ledger).value;
    assert ValidEvent(head) && ValidReceipt(ReceiptFromEvent(h, head));
    var bound := d.(receipt := Some(ReceiptFromEvent(h, head)));
    assert Accepted(h, bound) && Committed(bound);
    assert Accepted(h, bound.(pending := None));
  }

  lemma MarkIsSafe(h: Hasher, d: Disk, id: Identity, handle: Handle)
    requires Open(h, d)
    ensures var r := MarkBootstrapVerified(h, d, id, handle);
            r.Ok? ==>
              && |r.value| <= 1
              && var d' := Last(d, r.value);
                 Open(h, d') && Good(h, d') && RolloutPhase(d'.pending.value) == InitialBootstrapVerified &&
                 d' == d.(pending := d'.pending) &&
                 d'.pending.value == d.pending.value.(rollout := d'.pending.value.rollout)
  {
  }

  /** The handle returned for this journal, presented with its release. */
  predicate Holds(p: Attempt, id: Identity, handle: Handle) {
    p.target == id && p.attemptId == handle.attemptId && p.operation == handle.operation
  }

  /** An open attempt completes exactly when the ledger still has a free
      sequence number, in three writes: event, receipt, journal. A crash after
      the event or the receipt resumes to the very state the uncrashed call
      reaches, and so does a crash during that resume. */
  lemma CompleteIsSafe(h: Hasher, d: Disk, id: Identity, handle: Handle, at: int)
    requires Open(h, d) && Holds(d.pending.value, id, handle)
    ensures var r := CompleteAttempt(h, d, id, handle, at);
            && (r.Ok? <==> |d.ledger| < MAX_LEDGER_EVENTS)
            && (r.Ok? ==>
                  && |r.value| == 3
                  && (forall i :: 0 <= i < 3 ==>
                        Good(h, r.value[i]) &&
                        r.value[i].ledger == d.ledger + [NextEvent(h, d, id, handle.operation, handle.attemptId, at)])
                  && r.value[0] == d.(ledger := r.value[0].ledger) && Committed(r.value[0]) &&
                     FinishWrites(h, r.value[0]) == r.value[1..]
                  && Committed(r.value[1]) && FinishWrites(h, r.value[1]) == r.value[2..]
                  && r.value[2].pending.None? && r.value[2] == Settled(h, r.value[0]))
  {
    hide ReleaseVersion, IsLowerHex, Newer;
    var p := d.pending.value;
    assert d.ledger == [] || ReceiptMatches(h, d.receipt, Head(d.ledger).value);
    AuthorizedEventChains(h, d, id, p.operation, p.attemptId, at);
    var e := NextEvent(h, d, id, p.operation, p.attemptId, at);
    if |d.ledger| < MAX_LEDGER_EVENTS {
      var d1 := d.(ledger := d.ledger + [e]);
      AppendedIsGood(h, d, e);
      CommittedFinishes(h, d1);
      var d2 := d1.(receipt := Some(ReceiptFromEvent(h, e)));
      assert d1.receipt != d2.receipt;
      assert FinishWrites(h, d1) == [d2, d2.(pending := None)];
      assert CompleteAttempt(h, d, id, handle, at).value == [d1, d2, d2.(pending := None)];
    }
  }

  lemma AppendedIsGood(h: Hasher, d: Disk, e: Event)
    requires Open(h, d) && ValidLedger(h, d.ledger + [e]) && PendingMatches(d.pending.value, e)
    requires d.ledger == [] || ReceiptMatches(h, d.receipt, Head(d.ledger).value)
    ensures Good(h, d.(ledger := d.ledger + [e])) && Committed(d.(ledger := d.ledger + [e]))
  {
    var d1 := d.(ledger := d.ledger + [e]);
    assert Head(d1.ledger) == Some(e);
    assert d.ledger != [] ==> Penultimate(d1.ledger) == Head(d.ledger);
  }

  /** Active and previous release never carry the same version. */
  predicate DistinctVersions(release: Identity, previous: Option<Identity>)
    requires ValidIdentity(release) && ValidOptional(previous)
  {
    previous.Some? ==> VersionOf(previous.value) != VersionOf(release)
  }

  /** The chain keeps versions apart: if the first event does, so does every event. */
  lemma {:induction false} ChainKeepsVersionsApart(h: Hasher, ledger: seq<Event>, i: nat)
    requires ValidLedger(h, ledger) && i < |ledger|
    requires DistinctVersions(ledger[0].release, ledger[0].previousRelease)
    ensures DistinctVersions(ledger[i].release, ledger[i].previousRelease)
  {
    hide ReleaseVersion, IsLowerHex;
    if i > 0 {
      ChainKeepsVersionsApart(h, ledger, i - 1);
      assert ChainedAt(h, ledger, i);
    }
  }

  /** Every receipt that an accepted state can show beside such a ledger. */
  lemma AcceptedVersionsDiffer(h: Hasher, d: Disk)
    requires Accepted(h, d) && d.receipt.Some?
    requires d.ledger != [] && d.ledger[0].previousRelease.None?
    requires |d.ledger| > 1 || ReceiptMatches(h, d.receipt, d.ledger[0])
    ensures DistinctVersions(d.receipt.value.release, d.receipt.value.previousRelease)
  {
    hide ReleaseVersion, IsLowerHex, Newer;
    ChainKeepsVersionsApart(h, d.ledger, |d.ledger| - 1);
    if |d.ledger| > 1 { ChainKeepsVersionsApart(h, d.ledger, |d.ledger| - 2); }
  }

  predicate Collision(h: Hasher, e: Event, f: Event) { e != f && Sha(h, e) == Sha(h, f) }

  lemma PrefixIsValid(h: Hasher, ledger: seq<Event>, n: nat)
    requires ValidLedger(h, ledger) && n <= |ledger|
    ensures ValidLedger(h, ledger[..n])
  {
    forall i | 0 <= i < n ensures ChainedAt(h, ledger[..n], i) {
      assert ChainedAt(h, ledger, i);
    }
  }

  lemma LinkAt(h: Hasher, ledger: seq<Event>, i: nat)
    requires ValidLedger(h, ledger) && i < |ledger|
    ensures ledger[i].sequence == i + 1
    ensures i > 0 ==> ledger[i].previousEvent == Some(Sha(h, ledger[i - 1]))
  {
    hide ValidEvent, VersionOf, Newer;
    assert ChainedAt(h, ledger, i);
  }

  /** Hash-chain binding: the head digest determines every event, up to an
      explicit collision of the hash. */
  lemma {:induction false} HeadDigestBindsLedger(h: Hasher, a: seq<Event>, b: seq<Event>)
    requires ValidLedger(h, a) && ValidLedger(h, b) && a != [] && b != []
    requires Sha(h, a[|a| - 1]) == Sha(h, b[|b| - 1])
    ensures a == b || exists i, j :: 0 <= i < |a| && 0 <= j < |b| && Collision(h, a[i], b[j])
  {
    hide ValidLedger, Sha;
    var m, n := |a| - 1, |b| - 1;
    if a[m] != b[n] {
      assert Collision(h, a[m], b[n]);
    } else {
      LinkAt(h, a, m);
      LinkAt(h, b, n);
      assert a == a[..m] + [a[m]] && b == b[..n] + [b[n]];
      if m > 0 {
        PrefixIsValid(h, a, m);
        PrefixIsValid(h, b, n);
        HeadDigestBindsLedger(h, a[..m], b[..n]);
        if a[..m] != b[..n] {
          var i, j :| 0 <= i < m && 0 <= j < n && Collision(h, a[..m][i], b[..n][j]);
          assert Collision(h, a[i], b[j]);
        }
      }
    }
  }

  /** Without a journal the receipt pins the whole ledger: any other ledger
      beside the same receipt is rejected, up to a collision. */
  lemma ReceiptPinsLedger(h: Hasher, receipt: Option<Receipt>, a: seq<Event>, b: seq<Event>)
    requires Accepted(h, Disk(receipt, None, a)) && Accepted(h, Disk(receipt, None, b))
    ensures a == b || exists i, j :: 0 <= i < |a| && 0 <= j < |b| && Collision(h, a[i], b[j])
  {
    hide ValidEvent, VersionOf, Newer;
    if a != [] {
      assert ReceiptMatches(h, receipt, a[|a| - 1]) && ReceiptMatches(h, receipt, b[|b| - 1]);
      HeadDigestBindsLedger(h, a, b);
    }
  }
}
