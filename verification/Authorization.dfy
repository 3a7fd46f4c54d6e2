/** What the deployment state lets happen: when an attempt opens, resumes, is
    checkpointed and completes, and what that means for the versions released. */
module Authorization {
  import opened Text
  import opened Release
  import opened DeploymentState
  import opened DeploymentSafety
  import opened RolloutDriver
  import opened RolloutHistory

  /** Lexicographic comparison of the three numbers. */
  predicate AtLeast(v: Version, w: Version) {
    v.major > w.major || (v.major == w.major && (v.minor > w.minor || (v.minor == w.minor && v.patch >= w.patch)))
  }

  /** Without a journal an attempt opens exactly for a valid release and a valid id,
      without the resume flag, when it rolls back to the release before the active
      one, deploys the very release that is active or one with a larger triple, or
      deploys onto nothing. */
  lemma OpeningIsExact(h: Hasher, d: Disk, id: Identity, rollback: bool, resume: bool, at: int, freshId: string)
    requires Accepted(h, d) && d.pending.None?
    ensures PrepareAttempt(h, d, id, rollback, resume, at, freshId).Ok? <==>
              && ValidIdentity(id) && IsLowerHex(freshId, 32) && !resume
              && match d.receipt
                 case None => !rollback
                 case Some(r) =>
                   if rollback then r.previousRelease == Some(id)
                   else
                     id == r.release ||
                     var v, w := ReleaseVersion(id.tag).value, ReleaseVersion(r.release.tag).value;
                     v.major > w.major || (v.major == w.major && v.minor > w.minor) ||
                     (v.major == w.major && v.minor == w.minor && v.patch > w.patch)
  {
    hide ReleaseVersion, IsLowerHex, ValidLedger, Consistent;
  }

  /** What an opening journals and hands back. */
  lemma OpeningJournals(h: Hasher, d: Disk, id: Identity, rollback: bool, resume: bool, at: int, freshId: string)
    requires d.pending.None? && PrepareAttempt(h, d, id, rollback, resume, at, freshId).Ok?
    ensures var r := PrepareAttempt(h, d, id, rollback, resume, at, freshId).value;
            var op := if rollback then Rollback else Deployment;
            var base := if d.receipt.None? then None else Some(d.receipt.value.release);
            && r.handle == Handle(freshId, op, d.receipt.None?, Prepared, false)
            && r.writes == [Disk(d.receipt, Some(Attempt(Some(Prepared), op, freshId, at, base, id)), d.ledger)]
  {
    hide Accepted, Authorized, ValidAttempt;
  }

  /** With a journal, exactly the resume of the same release and operation goes on. */
  lemma ResumeIsExact(h: Hasher, d: Disk, id: Identity, rollback: bool, resume: bool, at: int, freshId: string)
    requires Good(h, d) && d.pending.Some?
    ensures PrepareAttempt(h, d, id, rollback, resume, at, freshId).Ok? <==>
              resume && id == d.pending.value.target &&
              d.pending.value.operation == (if rollback then Rollback else Deployment)
  {
    hide ReleaseVersion, IsLowerHex, ValidLedger, Newer;
  }

  /** In whatever accepted state it is found, the exact resume counts as completed
      if its event heads the ledger or the receipt carries its id, operation and
      release; otherwise it goes on if the active release has not changed and the
      target is still authorised. */
  lemma AcceptedResumeIsExact(h: Hasher, d: Disk, id: Identity, rollback: bool, at: int, freshId: string)
    requires Accepted(h, d) && d.pending.Some? && id == d.pending.value.target
    requires d.pending.value.operation == if rollback then Rollback else Deployment
    ensures var r := PrepareAttempt(h, d, id, rollback, true, at, freshId);
            var p := d.pending.value;
            var heads := d.ledger != [] && d.ledger[|d.ledger| - 1].attemptId == p.attemptId;
            var carried :=
              d.receipt.Some? &&
              match d.receipt.value.binding
              case V3(op, attempt) => (op, attempt, d.receipt.value.release) == (p.operation, p.attemptId, p.target)
              case V4(op, attempt, _, _) => (op, attempt, d.receipt.value.release) ==
                (p.operation, p.attemptId, p.target)
              case _ => false;
            var active := if d.receipt.None? then None else Some(d.receipt.value.release);
            && (r.Ok? <==> heads || carried || (p.baseRelease == active && Authorized(d.receipt, id, p.operation)))
            && (r.Ok? ==> (r.value.handle.alreadyCompleted <==> heads || carried))
  {
    hide ValidLedger, Consistent, ReleaseVersion, IsLowerHex, Newer, ValidReceipt, Authorized;
  }

  /** A checkpoint is accepted exactly for the journaled first deployment, with its
      own handle, while nothing is active. */
  lemma MarkingIsExact(h: Hasher, d: Disk, id: Identity, handle: Handle)
    requires Good(h, d)
    ensures MarkBootstrapVerified(h, d, id, handle).Ok? <==>
              && d.pending.Some? && d.receipt.None? && d.pending.value.baseRelease.None?
              && d.pending.value.operation == Deployment && d.pending.value.target == id
              && d.pending.value.attemptId == handle.attemptId
  {
    hide ReleaseVersion, IsLowerHex, ValidLedger, Consistent;
  }

  /** A completion is accepted exactly for the journaled attempt, presented with its
      own release, operation and id, while a sequence number is left: when the
      attempt is open, or when it redeploys the active release and only its journal
      is left of a completion that died. In the second case its event is recorded
      again, so that each attempt is recorded once is a property of the driver,
      which never completes a finished attempt. */
  lemma CompletionIsExact(h: Hasher, d: Disk, id: Identity, handle: Handle, at: int)
    requires Good(h, d)
    ensures CompleteAttempt(h, d, id, handle, at).Ok? <==>
              && d.pending.Some? && |d.ledger| < 100_000
              && d.pending.value.target == id && d.pending.value.operation == handle.operation
              && d.pending.value.attemptId == handle.attemptId
              && (Open(h, d) ||
                  (Committed(d) && ReceiptMatches(h, d.receipt, Head(d.ledger).value) &&
                   d.pending.value.baseRelease == Some(id) && handle.operation == Deployment))
  {
    hide ReleaseVersion, IsLowerHex, Newer, ValidLedger;
    if d.pending.Some? && Holds(d.pending.value, id, handle) && Open(h, d) {
      CompleteIsSafe(h, d, id, handle, at);
    } else if d.pending.Some? && Holds(d.pending.value, id, handle) && Committed(d) &&
              ReceiptMatches(h, d.receipt, Head(d.ledger).value) && d.pending.value.baseRelease == Some(id) &&
              handle.operation == Deployment {
      RedeployIsAuthorized(h, d);
      AuthorizedEventChains(h, d, id, d.pending.value.operation, d.pending.value.attemptId, at);
    }
  }

  lemma RedeployIsAuthorized(h: Hasher, d: Disk)
    requires Good(h, d) && Committed(d) && ReceiptMatches(h, d.receipt, Head(d.ledger).value)
    requires d.pending.value.baseRelease == Some(d.pending.value.target) && d.pending.value.operation == Deployment
    ensures Authorized(d.receipt, d.pending.value.target, d.pending.value.operation)
    ensures ValidIdentity(d.pending.value.target) && ValidAttemptId(d.pending.value.attemptId)
  {
    hide ReleaseVersion, IsLowerHex, Newer, ValidLedger;
  }

  /** Each event continues the one before it: same release line, versions upwards
      unless it is a rollback, and then exactly to the release before. */
  lemma EventsContinue(h: Hasher, l: seq<Event>, i: nat)
    requires ValidLedger(h, l) && 0 < i < |l|
    ensures var p, e := l[i - 1], l[i];
            && ValidIdentity(e.release) && ValidIdentity(p.release)
            && e.sequence == i + 1 && e.previousEvent == Some(h(Canonical(p))) && e.baseRelease == Some(p.release)
            && e.previousRelease == (if e.release == p.release then p.previousRelease else Some(p.release))
            && (e.operation == Rollback ==> p.previousRelease == Some(e.release))
            && (e.operation == Deployment ==>
                  AtLeast(VersionOf(e.release), VersionOf(p.release)) &&
                  (VersionOf(e.release) == VersionOf(p.release) ==> e.release == p.release))
  {
    hide ReleaseVersion, IsLowerHex;
    assert ChainedAt(h, l, i);
  }

  /** In a stretch of events without a rollback the released versions never go down. */
  lemma {:induction false} VersionsNeverGoDown(h: Hasher, l: seq<Event>, i: nat, j: nat)
    requires ValidLedger(h, l) && i <= j < |l|
    requires forall k :: i < k <= j ==> l[k].operation == Deployment
    ensures ValidIdentity(l[i].release) && ValidIdentity(l[j].release)
    ensures AtLeast(VersionOf(l[j].release), VersionOf(l[i].release))
  {
    hide ReleaseVersion, IsLowerHex, ChainedAt;
    if i < j {
      VersionsNeverGoDown(h, l, i, j - 1);
      EventsContinue(h, l, j);
    }
  }

  /** The same of every state any run reaches: after the active release when it
      starts, each deployment the run records is at least as new as the one before. */
  lemma RunsNeverGoDown(h: Hasher, d: Disk, run: seq<Session>, n: nat, i: nat, j: nat)
    requires (Good(h, d) || Superseded(h, d)) && FreshIds(h, d, run) && n <= |History(h, d, run)|
    requires i <= j < |After(d, History(h, d, run)[..n]).ledger|
    requires forall k :: i < k <= j ==> After(d, History(h, d, run)[..n]).ledger[k].operation == Deployment
    ensures var l := After(d, History(h, d, run)[..n]).ledger;
            && ValidIdentity(l[i].release) && ValidIdentity(l[j].release)
            && AtLeast(VersionOf(l[j].release), VersionOf(l[i].release))
  {
    hide Good, Superseded, FreshIds, History, After, ReleaseVersion, IsLowerHex;
    CrashSafety(h, d, run, n, n);
    VersionsNeverGoDown(h, After(d, History(h, d, run)[..n]).ledger, i, j);
  }

  // ----- the states a lock acquisition accepts

  /** The receipt is that of the last event, or of an older schema beside an empty ledger. */
  predicate Bound(h: Hasher, receipt: Option<Receipt>, ledger: seq<Event>) {
    if ledger == [] then receipt.Some? ==> !receipt.value.binding.V4?
    else
      var e := ledger[|ledger| - 1];
      receipt == Some(Receipt(V4(e.operation, e.attemptId, e.sequence, h(Canonical(e))), e.completedAt, e.release,
                              e.previousRelease))
  }

  /** The journal is that of this event. */
  predicate JournalOf(p: Attempt, e: Event) {
    p.attemptId == e.attemptId && p.operation == e.operation && p.target == e.release && p.baseRelease == e.baseRelease
  }

  /** The three objects are consistent exactly in the states the protocol stops in:
      no attempt; an attempt waiting on the active release; its event written but
      not bound; bound but not cleared; or a journal an older receipt carries. */
  lemma StagesAreExact(h: Hasher, d: Disk)
    ensures Consistent(h, d) <==>
              var l, n := d.ledger, |d.ledger| - 1;
              if d.pending.None? then Bound(h, d.receipt, l)
              else
                var p := d.pending.value;
                var active := if d.receipt.None? then None else Some(d.receipt.value.release);
                || (Bound(h, d.receipt, l) && p.baseRelease == active && (l == [] || p.attemptId != l[n].attemptId))
                || (l != [] && Bound(h, d.receipt, l) && JournalOf(p, l[n]))
                || (l != [] && Bound(h, d.receipt, l[..n]) && !Bound(h, d.receipt, l) && JournalOf(p, l[n]) &&
                    l[n].baseRelease == active)
                || (l == [] && d.receipt.Some? && d.receipt.value.binding.V3? &&
                    var r := d.receipt.value;
                    r.binding.attemptId == p.attemptId && r.binding.op == p.operation && r.release == p.target &&
                    (p.baseRelease == Some(r.release) || p.baseRelease == r.previousRelease))
  {
    var l := d.ledger;
    if l != [] { assert |l[..|l| - 1]| > 0 ==> l[..|l| - 1][|l| - 2] == l[|l| - 2]; }
  }

  // ----- the records themselves

  /** A journal is in order exactly when its id and releases are, and it carries a
      checkpoint only for a deployment onto nothing. */
  lemma JournalIsExact(p: Attempt)
    ensures ValidAttempt(p) <==>
              && |p.attemptId| == 32 && (forall k :: 0 <= k < 32 ==> p.attemptId[k] in "0123456789abcdef")
              && ValidIdentity(p.target)
              && match p.baseRelease
                 case Some(base) => ValidIdentity(base) && p.rollout != Some(InitialBootstrapVerified)
                 case None => p.operation == Rollback ==> p.rollout != Some(InitialBootstrapVerified)
  {
    hide ValidIdentity;
    forall c ensures IsLowerHexChar(c) <==> c in "0123456789abcdef" { CharactersAreExact(c); }
  }

  /** A receipt is in order exactly when its releases are and differ, and it names
      the id and the sequence number its schema calls for. */
  lemma ReceiptIsExact(r: Receipt)
    ensures ValidReceipt(r) <==>
              && ValidIdentity(r.release)
              && (r.previousRelease.Some? ==>
                    ValidIdentity(r.previousRelease.value) && r.previousRelease.value != r.release)
              && match r.binding
                 case V1 => true
                 case V2(_) => true
                 case V3(_, id) => IsLowerHex(id, 32)
                 case V4(_, id, sequence, _) => IsLowerHex(id, 32) && 1 <= sequence <= 100_000
  {
    hide ValidIdentity, IsLowerHex;
  }

  /** An event is in order exactly when its id, its number and its releases are, and
      the release before it is another one. */
  lemma EventIsExact(e: Event)
    ensures ValidEvent(e) <==>
              && 1 <= e.sequence <= 100_000 && IsLowerHex(e.attemptId, 32) && ValidIdentity(e.release)
              && (e.baseRelease.Some? ==> ValidIdentity(e.baseRelease.value))
              && (e.previousRelease.Some? ==>
                    ValidIdentity(e.previousRelease.value) && e.previousRelease.value != e.release)
  {
    hide ValidIdentity, IsLowerHex;
  }
}
