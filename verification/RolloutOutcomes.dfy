/** What whole runs of the release driver achieve: no attempt is stuck, an event
    needs one complete rollout, rollbacks swap, versions stay apart. */
module RolloutOutcomes {
  import opened Text
  import opened Release
  import opened DeploymentState
  import opened DeploymentSafety
  import opened RolloutDriver
  import opened RolloutHistory

  /** A successful opening hands over to the rollout of the journaled attempt. */
  lemma Opened(h: Hasher, d: Disk, v: Invocation)
    requires Good(h, d) && (d.pending.None? ==> Fresh(d, v.freshId)) && v.gatesPass
    requires var r := PrepareAttempt(h, d, v.identity, v.rollback, v.resume, v.startedAt, v.freshId);
             r.Ok? && !r.value.handle.alreadyCompleted
    ensures var opening := PrepareAttempt(h, d, v.identity, v.rollback, v.resume, v.startedAt, v.freshId).value;
            var d1 := Last(d, opening.writes);
            var steps := RolloutSteps(opening.handle.initialDeployment,
                                      opening.handle.phase == InitialBootstrapVerified);
            && steps.Some? && AtStep(h, d1, v, opening.handle, steps.value, 0)
            && d1.ledger == d.ledger && d1.receipt == d.receipt
            && Effects(h, d, v) == Writes(opening.writes) + RolloutEffects(h, d1, v, opening.handle)
            && (forall i :: 0 <= i < |opening.writes| ==> opening.writes[i].ledger == d.ledger)
  {
    hide PrepareAttempt, RolloutSteps, RolloutEffects, Consistent, ValidLedger, Authorized, ValidIdentity;
    PrepareIsSafe(h, d, v.identity, v.rollback, v.resume, v.startedAt, v.freshId);
    var opening := PrepareAttempt(h, d, v.identity, v.rollback, v.resume, v.startedAt, v.freshId).value;
    StepsExist(h, Last(d, opening.writes), opening.handle);
  }

  lemma OpenPasses(h: Hasher, d: Disk, v: Invocation)
    requires Good(h, d) && (d.pending.None? ==> Fresh(d, v.freshId)) && AllPass(v)
    requires var r := PrepareAttempt(h, d, v.identity, v.rollback, v.resume, v.startedAt, v.freshId);
             r.Ok? && !r.value.handle.alreadyCompleted
    ensures var handle := PrepareAttempt(h, d, v.identity, v.rollback, v.resume, v.startedAt, v.freshId).value.handle;
            var e := NextEvent(h, d, v.identity, handle.operation, handle.attemptId, v.completedAt);
            var d' := After(d, Effects(h, d, v));
            && (|d.ledger| < MAX_LEDGER_EVENTS ==> d' == Disk(Some(ReceiptFromEvent(h, e)), None, d.ledger + [e]))
            && (|d.ledger| >= MAX_LEDGER_EVENTS ==> d'.pending.Some? && d'.ledger == d.ledger)
  {
    hide PrepareAttempt, RolloutSteps, StepEffects, Good, AtStep, Effects, After, Fresh, Accepted;
    Opened(h, d, v);
    var opening := PrepareAttempt(h, d, v.identity, v.rollback, v.resume, v.startedAt, v.freshId).value;
    var handle, d1 := opening.handle, Last(d, opening.writes);
    var steps := RolloutSteps(handle.initialDeployment, handle.phase == InitialBootstrapVerified).value;
    RolloutLength(handle.initialDeployment, handle.phase == InitialBootstrapVerified);
    StepsComplete(h, d1, v, handle, steps, 0);
    AfterWrites(d, opening.writes);
    AfterConcat(d, Writes(opening.writes), RolloutEffects(h, d1, v, handle));
  }

  /** What a passing invocation records: one event and one receipt with its release,
      its operation, its completion time, the id journaled, the next sequence
      number, the release before, and the digests that chain and bind them. */
  lemma PassingRecords(h: Hasher, d: Disk, v: Invocation)
    requires Good(h, d) && (d.pending.None? ==> Fresh(d, v.freshId)) && AllPass(v) && |d.ledger| < MAX_LEDGER_EVENTS
    requires var r := PrepareAttempt(h, d, v.identity, v.rollback, v.resume, v.startedAt, v.freshId);
             r.Ok? && !r.value.handle.alreadyCompleted
    ensures var d' := After(d, Effects(h, d, v));
            var op := if v.rollback then Rollback else Deployment;
            var id := if d.pending.Some? then d.pending.value.attemptId else v.freshId;
            var active := if d.receipt.None? then None else Some(d.receipt.value.release);
            var before := if active != Some(v.identity) then active else d.receipt.value.previousRelease;
            var link := if d.ledger == [] then None else Some(h(Canonical(d.ledger[|d.ledger| - 1])));
            var e := Event(|d.ledger| + 1, op, id, v.completedAt, active, v.identity, before, link);
            && d'.ledger == d.ledger + [e] && d'.pending.None?
            && d'.receipt ==
               Some(Receipt(V4(op, id, |d.ledger| + 1, h(Canonical(e))), v.completedAt, v.identity, before))
  {
    hide Effects, After, AllPass, ReleaseVersion, IsLowerHex, Newer, Fresh, Authorized, ValidReceipt, ValidAttempt,
         ValidIdentity, Consistent, FinishWrites, ReceiptCarries;
    OpenPasses(h, d, v);
    PrepareIsSafe(h, d, v.identity, v.rollback, v.resume, v.startedAt, v.freshId);
    assert d.ledger != [] ==> d.ledger[|d.ledger| - 1].sequence == |d.ledger|;
  }

  /** A verified checkpoint is only ever journaled for an initial deployment. */
  lemma StepsExist(h: Hasher, d: Disk, handle: Handle)
    requires Open(h, d) && handle == HandleOf(d.pending.value, false)
    ensures RolloutSteps(handle.initialDeployment, handle.phase == InitialBootstrapVerified).Some?
  {
    hide ValidLedger, Consistent, Authorized, ReleaseVersion;
  }

  /** No stuck attempt: resuming with the exact identity and operation, when
      everything passes, clears the journal exactly if the event is already
      there or the ledger can still take it; a committed attempt settles as the
      uncrashed run would have. */
  lemma ResumeSettles(h: Hasher, d: Disk, v: Invocation)
    requires Good(h, d) && d.pending.Some? && AllPass(v)
    requires v.resume && v.identity == d.pending.value.target && OperationOf(v.rollback) == d.pending.value.operation
    ensures var d' := After(d, Effects(h, d, v));
            && (d'.pending.None? <==> Committed(d) || |d.ledger| < MAX_LEDGER_EVENTS)
            && (Committed(d) ==> d' == Settled(h, d))
            && (!Committed(d) && |d.ledger| < MAX_LEDGER_EVENTS ==>
                  |d'.ledger| == |d.ledger| + 1 && d'.ledger[|d.ledger|].attemptId == d.pending.value.attemptId &&
                  d' == Settled(h, d'))
  {
    ResumeIsAuthorized(h, d, v);
    if Committed(d) {
      ResumeFinishes(h, d, v);
    } else {
      OpenPasses(h, d, v);
      hide PrepareAttempt, Effects, Good, After;
    }
  }

  lemma ResumeFinishes(h: Hasher, d: Disk, v: Invocation)
    requires Good(h, d) && Committed(d) && v.gatesPass
    requires v.resume && v.identity == d.pending.value.target && OperationOf(v.rollback) == d.pending.value.operation
    ensures After(d, Effects(h, d, v)) == Settled(h, d)
  {
    hide PrepareAttempt, RolloutEffects, FinishWrites, ValidLedger, Consistent, Authorized;
    ResumeIsAuthorized(h, d, v);
    CommittedFinishes(h, d);
    AfterWrites(d, FinishWrites(h, d));
    assert Effects(h, d, v) == Writes(FinishWrites(h, d));
  }

  lemma ResumeIsAuthorized(h: Hasher, d: Disk, v: Invocation)
    requires Good(h, d) && d.pending.Some?
    requires v.resume && v.identity == d.pending.value.target && OperationOf(v.rollback) == d.pending.value.operation
    ensures var r := PrepareAttempt(h, d, v.identity, v.rollback, v.resume, v.startedAt, v.freshId);
            r.Ok? && r.value.handle == HandleOf(d.pending.value, Committed(d)) &&
            r.value.writes == if Committed(d) then FinishWrites(h, d) else []
  {
    hide ReleaseVersion, IsLowerHex, Newer, ValidLedger;
  }

  /** A completed rollback swaps the active and the previous release. */
  lemma RollbackSwaps(h: Hasher, d: Disk, v: Invocation)
    requires Good(h, d) && d.pending.None? && Fresh(d, v.freshId) && ValidAttemptId(v.freshId) && AllPass(v)
    requires v.rollback && !v.resume && |d.ledger| < MAX_LEDGER_EVENTS
    requires d.receipt.Some? && d.receipt.value.previousRelease == Some(v.identity)
    ensures var d' := After(d, Effects(h, d, v));
            && Good(h, d') && d'.pending.None? && d'.receipt.Some? && |d'.ledger| == |d.ledger| + 1
            && d'.receipt.value.release == v.identity
            && d'.receipt.value.previousRelease == Some(d.receipt.value.release)
  {
    hide ReleaseVersion, IsLowerHex, Newer, ValidLedger, StepEffects;
    assert PrepareAttempt(h, d, v.identity, v.rollback, v.resume, v.startedAt, v.freshId).Ok?;
    OpenPasses(h, d, v);
    InvocationIsLegal(h, d, v);
    LegalState(h, None, d, Effects(h, d, v));
  }

  /** Two consecutive rollbacks restore the same active and previous release. */
  lemma TwoRollbacksRestore(h: Hasher, d: Disk, v: Invocation, w: Invocation)
    requires Good(h, d) && d.pending.None? && Fresh(d, v.freshId) && ValidAttemptId(v.freshId) && AllPass(v)
    requires v.rollback && !v.resume && |d.ledger| + 1 < MAX_LEDGER_EVENTS
    requires d.receipt.Some? && d.receipt.value.previousRelease == Some(v.identity)
    requires var d1 := After(d, Effects(h, d, v)); Fresh(d1, w.freshId)
    requires ValidAttemptId(w.freshId) && AllPass(w) && w.rollback && !w.resume && w.identity == d.receipt.value.release
    ensures var d1 := After(d, Effects(h, d, v));
            var d2 := After(d1, Effects(h, d1, w));
            && d2.receipt.Some? && d2.receipt.value.release == d.receipt.value.release
            && d2.receipt.value.previousRelease == d.receipt.value.previousRelease
  {
    hide Effects, After, Good, Fresh, AllPass;
    RollbackSwaps(h, d, v);
    RollbackSwaps(h, After(d, Effects(h, d, v)), w);
  }

  // ----- an event needs one complete rollout

  /** What an invocation did outside the state directory, in order. */
  function Actions(es: seq<Effect>): seq<Effect> {
    if es == [] then [] else (if es[0].Wrote? then [] else [es[0]]) + Actions(es[1..])
  }

  lemma ActionsUnfold(es: seq<Effect>)
    ensures Actions(es) == if es == [] then [] else (if es[0].Wrote? then [] else [es[0]]) + Actions(es[1..])
  {
  }

  lemma {:induction false} ActionsConcat(a: seq<Effect>, b: seq<Effect>)
    ensures Actions(a + b) == Actions(a) + Actions(b)
  {
    hide Actions;
    ActionsUnfold(a);
    if a == [] {
      assert a + b == b;
    } else {
      ActionsConcat(a[1..], b);
      ActionsUnfold(a + b);
      assert (a + b)[1..] == a[1..] + b && (a + b)[0] == a[0];
      var first := if a[0].Wrote? then [] else [a[0]];
      assert first + (Actions(a[1..]) + Actions(b)) == (first + Actions(a[1..])) + Actions(b);
    }
  }

  lemma {:induction false} WritesAreNoActions(es: seq<Effect>)
    requires forall i :: 0 <= i < |es| ==> es[i].Wrote?
    ensures Actions(es) == []
  {
    if es != [] { WritesAreNoActions(es[1..]); }
  }

  /** These commands in order, each of them passing. */
  function Passing(id: string, steps: seq<Step>): (es: seq<Effect>)
    ensures |es| == |steps| && forall i :: 0 <= i < |steps| ==> es[i] == Ran(id, steps[i], true)
  {
    seq(|steps|, i requires 0 <= i < |steps| => Ran(id, steps[i], true))
  }

  predicate PassedFrom(es: seq<Effect>, id: string, steps: seq<Step>, k: nat)
    requires k <= |steps|
  {
    Actions(es) == Passing(id, steps[k..]) + [Smoked(id, true)]
  }

  /** All that was done outside is one rollout of this kind: its commands in order
      and then the smoke check, everything passing, all for this attempt. */
  predicate FullRollout(es: seq<Effect>, id: string, initial: bool) {
    exists verified :: RolloutSteps(initial, verified).Some? &&
                       PassedFrom(es, id, RolloutSteps(initial, verified).value, 0)
  }

  predicate Grown(d: Disk, e: Effect) { e.Wrote? && e.disk.ledger != d.ledger }

  /** `e` wrote a ledger with exactly one more event, of this attempt and kind. */
  predicate GrownBy(d: Disk, e: Effect, id: string, initial: bool) {
    && e.Wrote? && |e.disk.ledger| == |d.ledger| + 1 && d.ledger <= e.disk.ledger
    && e.disk.ledger[|d.ledger|].attemptId == id && e.disk.ledger[|d.ledger|].baseRelease.None? == initial
  }

  lemma {:induction false} GrowthInSteps(h: Hasher, d: Disk, v: Invocation, handle: Handle, steps: seq<Step>, k: nat,
                                         i: nat)
    requires k <= |steps|
    requires AtStep(h, d, v, handle, steps, k)
    requires i < |StepEffects(h, d, v, handle, steps, k)|
    requires Grown(d, StepEffects(h, d, v, handle, steps, k)[i])
    ensures var es := StepEffects(h, d, v, handle, steps, k);
            PassedFrom(es[..i], handle.attemptId, steps, k) &&
              GrownBy(d, es[i], handle.attemptId, handle.initialDeployment)
    decreases |steps| - k
  {
    hide AtStep, RolloutSteps, CommandEffects, CommandPasses, ClosingEffects, After, PassedFrom, StepEffects,
         Actions, Passing, LegalFrom, Grown, GrownBy;
    StepUnfolds(h, d, v, handle, steps, k);
    var es := StepEffects(h, d, v, handle, steps, k);
    if k == |steps| {
      GrowthInClosing(h, d, v, handle, steps, k, i);
      PassedNothing(es[..i], handle.attemptId, steps);
    } else {
      var first := CommandEffects(h, d, v, handle, steps[k], k < v.passing);
      CommandDoesNotGrow(h, d, v, handle, steps, k, k < v.passing);
      CommandIsLegal(h, None, d, v, handle, steps, k, k < v.passing);
      var rest := StepEffects(h, After(d, first), v, handle, steps, k + 1);
      GrownLater(d, first, rest, es, i);
      SameLedger(d, After(d, first), es[i], handle.attemptId, handle.initialDeployment);
      GrowthInSteps(h, After(d, first), v, handle, steps, k + 1, i - |first|);
      PassedOneMore(first, rest[..i - |first|], handle.attemptId, steps, k);
    }
  }

  lemma SameLedger(d: Disk, x: Disk, e: Effect, id: string, initial: bool)
    requires d.ledger == x.ledger
    ensures (Grown(d, e) <==> Grown(x, e)) && (GrownBy(d, e, id, initial) <==> GrownBy(x, e, id, initial))
  {
  }

  /** If the first effects add nothing to the ledger, a growth lies in the rest. */
  lemma GrownLater(d: Disk, first: seq<Effect>, rest: seq<Effect>, es: seq<Effect>, i: nat)
    requires (es == first || es == first + rest) && i < |es| && Grown(d, es[i])
    requires forall j :: 0 <= j < |first| ==> !Grown(d, first[j])
    ensures |first| <= i && es == first + rest && es[i] == rest[i - |first|] && es[..i] == first + rest[..i - |first|]
  {
    hide Grown;
  }

  lemma StepUnfolds(h: Hasher, d: Disk, v: Invocation, handle: Handle, steps: seq<Step>, k: nat)
    requires k <= |steps|
    ensures k == |steps| ==> StepEffects(h, d, v, handle, steps, k) == ClosingEffects(h, d, v, handle)
    ensures k < |steps| ==>
              var first := CommandEffects(h, d, v, handle, steps[k], k < v.passing);
              StepEffects(h, d, v, handle, steps, k) ==
              if CommandPasses(h, d, v, handle, steps[k], k < v.passing)
              then first + StepEffects(h, After(d, first), v, handle, steps, k + 1) else first
  {
  }

  lemma PassedNothing(es: seq<Effect>, id: string, steps: seq<Step>)
    requires Actions(es) == [Smoked(id, true)]
    ensures PassedFrom(es, id, steps, |steps|)
  {
    assert Passing(id, steps[|steps|..]) == [];
  }

  lemma PassedOneMore(first: seq<Effect>, rest: seq<Effect>, id: string, steps: seq<Step>, k: nat)
    requires k < |steps| && PassedFrom(rest, id, steps, k + 1) && Actions(first) == [Ran(id, steps[k], true)]
    ensures PassedFrom(first + rest, id, steps, k)
  {
    ActionsConcat(first, rest);
    assert Passing(id, steps[k..]) == [Ran(id, steps[k], true)] + Passing(id, steps[k + 1..]);
  }

  lemma CommandDoesNotGrow(h: Hasher, d: Disk, v: Invocation, handle: Handle, steps: seq<Step>, k: nat, passes: bool)
    requires k < |steps|
    requires AtStep(h, d, v, handle, steps, k)
    ensures var step := steps[k];
            var es := CommandEffects(h, d, v, handle, step, passes);
            && (forall i :: 0 <= i < |es| ==> !Grown(d, es[i])) && After(d, es).ledger == d.ledger
            && Actions(es) == [Ran(handle.attemptId, step, passes)] &&
               (CommandPasses(h, d, v, handle, step, passes) ==> passes)
  {
    hide RolloutSteps, ValidLedger, ValidReceipt, Consistent, ReleaseVersion;
    var step := steps[k];
    var ran := Ran(handle.attemptId, step, passes);
    AfterThen(d, ran, []);
    assert [ran] + Writes([]) == [ran];
    var r := MarkBootstrapVerified(h, d, v.identity, handle);
    if r.Ok? { AfterThen(d, ran, r.value); }
    var es := CommandEffects(h, d, v, handle, step, passes);
    WritesAreNoActions(es[1..]);
  }

  lemma GrowthInClosing(h: Hasher, d: Disk, v: Invocation, handle: Handle, steps: seq<Step>, k: nat, i: nat)
    requires AtStep(h, d, v, handle, steps, k) && i < |ClosingEffects(h, d, v, handle)| &&
             Grown(d, ClosingEffects(h, d, v, handle)[i])
    ensures var es := ClosingEffects(h, d, v, handle);
            Actions(es[..i]) == [Smoked(handle.attemptId, true)] &&
              GrownBy(d, es[i], handle.attemptId, handle.initialDeployment)
  {
    hide CompleteAttempt, Good, Accepted, Authorized, FinishWrites;
    CompleteIsSafe(h, d, v.identity, handle, v.completedAt);
    var es := ClosingEffects(h, d, v, handle);
    assert i > 0 && es[0] == Smoked(handle.attemptId, true) && es[..i][0] == es[0];
    WritesAreNoActions(es[..i][1..]);
    var ws := CompleteAttempt(h, d, v.identity, handle, v.completedAt).value;
    assert es[i] == Wrote(ws[i - 1]);
  }

  /** The ledger grows in an invocation only after every command of its rollout
      and the smoke check passed in that same invocation, for that attempt. */
  lemma GrowthNeedsFullRollout(h: Hasher, d: Disk, v: Invocation, i: nat)
    requires Good(h, d) && (d.pending.None? ==> Fresh(d, v.freshId))
    requires i < |Effects(h, d, v)| && Grown(d, Effects(h, d, v)[i])
    ensures exists id, initial ::
              FullRollout(Effects(h, d, v)[..i], id, initial) && GrownBy(d, Effects(h, d, v)[i], id, initial)
  {
    hide PrepareAttempt, RolloutSteps, StepEffects, Good, AtStep, PassedFrom, FullRollout, Effects, Fresh, Accepted;
    GrowthComesAfterOpening(h, d, v, i);
    Opened(h, d, v);
    var opening := PrepareAttempt(h, d, v.identity, v.rollback, v.resume, v.startedAt, v.freshId).value;
    var handle, d1, n := opening.handle, Last(d, opening.writes), |opening.writes|;
    var rest := RolloutEffects(h, d1, v, handle);
    var verified := handle.phase == InitialBootstrapVerified;
    var steps := RolloutSteps(handle.initialDeployment, verified).value;
    var es := Effects(h, d, v);
    assert es[i] == rest[i - n];
    GrowthInSteps(h, d1, v, handle, steps, 0, i - n);
    assert es[..i] == Writes(opening.writes) + rest[..i - n];
    PassedIsFull(Writes(opening.writes), rest[..i - n], handle.attemptId, handle.initialDeployment, verified);
  }

  lemma GrowthComesAfterOpening(h: Hasher, d: Disk, v: Invocation, i: nat)
    requires Good(h, d) && (d.pending.None? ==> Fresh(d, v.freshId))
    requires i < |Effects(h, d, v)| && Grown(d, Effects(h, d, v)[i])
    ensures var r := PrepareAttempt(h, d, v.identity, v.rollback, v.resume, v.startedAt, v.freshId);
            r.Ok? && !r.value.handle.alreadyCompleted && v.gatesPass && i >= |r.value.writes|
  {
    hide PrepareAttempt, RolloutEffects, Good, Open, Fresh, Accepted;
    PrepareIsSafe(h, d, v.identity, v.rollback, v.resume, v.startedAt, v.freshId);
    var ws := PrepareAttempt(h, d, v.identity, v.rollback, v.resume, v.startedAt, v.freshId).value.writes;
  }

  lemma PassedIsFull(first: seq<Effect>, rest: seq<Effect>, id: string, initial: bool, verified: bool)
    requires RolloutSteps(initial, verified).Some? && PassedFrom(rest, id, RolloutSteps(initial, verified).value, 0)
    requires forall i :: 0 <= i < |first| ==> first[i].Wrote?
    ensures FullRollout(first + rest, id, initial)
  {
    hide RolloutSteps;
    ActionsConcat(first, rest);
    WritesAreNoActions(first);
    assert PassedFrom(first + rest, id, RolloutSteps(initial, verified).value, 0);
  }

  lemma {:induction false} GrowthHasAWrite(d: Disk, es: seq<Effect>)
    requires After(d, es).ledger != d.ledger
    ensures exists i :: 0 <= i < |es| && Grown(d, es[i]) && es[i].disk == After(d, es)
  {
    if es != [] {
      var n := |es| - 1;
      if es[n].Wrote? {
        assert Grown(d, es[n]);
      } else {
        GrowthHasAWrite(d, es[..n]);
        var i :| 0 <= i < n && Grown(d, es[..n][i]) && es[..n][i].disk == After(d, es[..n]);
        assert Grown(d, es[i]);
      }
    }
  }

  /** These effects begin with one full rollout of the event's attempt, of the
      kind its base release calls for. */
  predicate BeginsWith(es: seq<Effect>, e: Event) {
    exists i :: 0 <= i <= |es| && FullRollout(es[..i], e.attemptId, e.baseRelease.None?)
  }

  /** Session `q` of the run, as far as it got, begins with the rollout behind this event. */
  predicate Backs(h: Hasher, d: Disk, run: seq<Session>, q: nat, e: Event)
    requires q < |run|
  {
    BeginsWith(Truncated(Effects(h, After(d, History(h, d, run[..q])), run[q].v), run[q].cut), e)
  }

  lemma LastSession(h: Hasher, d: Disk, run: seq<Session>)
    requires Good(h, d) && FreshIds(h, d, run) && run != []
    ensures var last, start := run[|run| - 1], After(d, History(h, d, run[..|run| - 1]));
            var done := Truncated(Effects(h, start, last.v), last.cut);
            && FreshIds(h, d, run[..|run| - 1])
            && Good(h, start) && (start.pending.None? ==> Fresh(start, last.v.freshId))
            && After(d, History(h, d, run)) == After(start, done)
            && start.ledger <= After(start, done).ledger
  {
    hide Good, LegalFrom, Effects, After, Fresh;
    var rest, last := run[..|run| - 1], run[|run| - 1];
    var before := History(h, d, rest);
    var start := After(d, before);
    var es := Effects(h, start, last.v);
    HistoryIsLegal(h, d, rest);
    LegalState(h, None, d, before);
    AfterConcat(d, before, Truncated(es, last.cut));
    InvocationIsLegal(h, start, last.v);
    if last.cut < |es| { LegalPrefix(h, None, start, es, last.cut); }
    LegalState(h, None, start, Truncated(es, last.cut));
  }

  lemma RunIsNotEmpty(h: Hasher, d: Disk, run: seq<Session>, m: nat)
    requires |d.ledger| <= m < |After(d, History(h, d, run)).ledger|
    ensures run != []
  {
  }

  lemma GrownSession(h: Hasher, start: Disk, v: Invocation, cut: nat, m: nat)
    requires Good(h, start) && (start.pending.None? ==> Fresh(start, v.freshId))
    requires |start.ledger| <= m < |After(start, Truncated(Effects(h, start, v), cut)).ledger|
    ensures var done := Truncated(Effects(h, start, v), cut);
            BeginsWith(done, After(start, done).ledger[m])
  {
    hide Good, Effects, FullRollout, Fresh;
    var es := Effects(h, start, v);
    var done := Truncated(es, cut);
    GrowthHasAWrite(start, done);
    var i :| 0 <= i < |done| && Grown(start, done[i]) && done[i].disk == After(start, done);
    GrowthNeedsFullRollout(h, start, v, i);
    var id, initial :| FullRollout(es[..i], id, initial) && GrownBy(start, es[i], id, initial);
    assert es[..i] == done[..i];
  }

  /** Over a whole run: each event the run added is backed by one single
      invocation in which everything passed for that attempt. */
  lemma {:induction false} EveryEventWasRolledOut(h: Hasher, d: Disk, run: seq<Session>, m: nat)
    requires Good(h, d) && FreshIds(h, d, run)
    requires |d.ledger| <= m < |After(d, History(h, d, run)).ledger|
    ensures exists q :: 0 <= q < |run| && Backs(h, d, run, q, After(d, History(h, d, run)).ledger[m])
  {
    hide Good, Effects, BeginsWith, Fresh, FreshIds, Truncated;
    RunIsNotEmpty(h, d, run, m);
    hide After, History;
    var n := |run| - 1;
    LastSession(h, d, run);
    var start, final := After(d, History(h, d, run[..n])), After(d, History(h, d, run));
    if m < |start.ledger| {
      EveryEventWasRolledOut(h, d, run[..n], m);
      var q :| 0 <= q < n && Backs(h, d, run[..n], q, start.ledger[m]);
      assert run[..n][..q] == run[..q];
      assert start.ledger[m] == final.ledger[m] && Backs(h, d, run, q, final.ledger[m]);
    } else {
      GrownSession(h, start, run[n].v, run[n].cut, m);
      assert Backs(h, d, run, n, final.ledger[m]);
    }
  }

  // ----- versions from an empty start

  const EMPTY := Disk(None, None, [])

  /** A first rollout does reach the checkpoint after which no fresh bootstrap runs. */
  lemma FirstRolloutIsCheckpointed(h: Hasher, v: Invocation)
    requires ValidIdentity(v.identity) && ValidAttemptId(v.freshId) && !v.rollback && !v.resume
    requires v.gatesPass && v.environmentValid && v.passing > 5
    ensures exists m :: CheckpointAt(Effects(h, EMPTY, v), m, v.freshId)
    ensures History(h, EMPTY, [Session(v, |Effects(h, EMPTY, v)|)]) == Effects(h, EMPTY, v)
    ensures FreshIds(h, EMPTY, [Session(v, |Effects(h, EMPTY, v)|)])
  {
    var es := Effects(h, EMPTY, v);
    var run := [Session(v, |es|)];
    assert Accepted(h, EMPTY) && Fresh(EMPTY, v.freshId);
    hide AtStep, RolloutSteps, StepEffects, Effects, Accepted;
    assert run[..0] == [] && History(h, EMPTY, []) == [] && After(EMPTY, []) == EMPTY;
    assert History(h, EMPTY, run) == [] + Truncated(es, |es|);
    Opened(h, EMPTY, v);
    var opening := PrepareAttempt(h, EMPTY, v.identity, v.rollback, v.resume, v.startedAt, v.freshId).value;
    var handle, d1 := opening.handle, Last(EMPTY, opening.writes);
    var steps := RolloutSteps(handle.initialDeployment, handle.phase == InitialBootstrapVerified).value;
    CheckpointIsReached(h, d1, v, handle, steps, 0);
    var rest := StepEffects(h, d1, v, handle, steps, 0);
    var m :| CheckpointAt(rest, m, handle.attemptId);
    CheckpointShifts(Writes(opening.writes), rest, m, handle.attemptId);
  }

  /** The first event of a run that starts empty has no previous release. */
  predicate RootedInNothing(d: Disk) {
    if d.ledger == [] then d.receipt.None?
    else d.ledger[0].previousRelease.None? && (|d.ledger| == 1 ==> d.receipt.None? || IsV4(d.receipt))
  }

  lemma {:induction false} HistoryIsRooted(h: Hasher, d: Disk, last: Option<Effect>, es: seq<Effect>)
    requires Good(h, d) && RootedInNothing(d) && LegalFrom(h, last, d, es)
    ensures RootedInNothing(After(d, es))
    decreases |es|
  {
    hide Good, Legal, RootedInNothing;
    if es != [] {
      RootedStep(h, last, d, es[0]);
      LegalKeepsGood(h, last, d, es[0]);
      assert es[..1] == [es[0]] && es == es[..1] + es[1..];
      HistoryIsRooted(h, After(d, es[..1]), Some(es[0]), es[1..]);
      AfterConcat(d, es[..1], es[1..]);
    }
  }

  lemma RootedStep(h: Hasher, last: Option<Effect>, d: Disk, e: Effect)
    requires Good(h, d) && RootedInNothing(d) && Legal(h, last, d, e)
    ensures RootedInNothing(After(d, [e]))
  {
    hide Accepted, Authorized;
    assert [e][..0] == [];
  }

  /** From an empty start the active and the previous release never carry the
      same version, hence never the same tag, in any state any run reaches. */
  lemma VersionsNeverEqual(h: Hasher, run: seq<Session>, n: nat)
    requires FreshIds(h, EMPTY, run) && n <= |History(h, EMPTY, run)|
    ensures var d := After(EMPTY, History(h, EMPTY, run)[..n]);
            && Accepted(h, d)
            && (d.receipt.Some? ==> DistinctVersions(d.receipt.value.release, d.receipt.value.previousRelease))
  {
    hide LegalFrom, After, History, ReleaseVersion, IsLowerHex, Newer;
    JournalFreeStatesAreGood(h, EMPTY);
    var es := History(h, EMPTY, run);
    HistoryIsLegal(h, EMPTY, run);
    LegalPrefix(h, None, EMPTY, es, n);
    LegalState(h, None, EMPTY, es[..n]);
    HistoryIsRooted(h, EMPTY, None, es[..n]);
    var d := After(EMPTY, es[..n]);
    if d.receipt.Some? { AcceptedVersionsDiffer(h, d); }
  }
}
