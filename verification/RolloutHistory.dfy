/** Whole histories of the release driver: any sequence of invocations, each cut
    short by a crash anywhere, over one state directory. */
module RolloutHistory {
  import opened Text
  import opened Release
  import opened DeploymentState
  import opened DeploymentSafety
  import opened LockedState
  import opened RolloutDriver

  // ----- the protocol, one effect at a time

  predicate Activates(s: Step) { s == InitialActivation || s == OperationalActivation }

  predicate Opens(d: Disk, x: Disk) {
    && d.pending.None? && x.pending.Some? && x == d.(pending := x.pending)
    && Fresh(d, x.pending.value.attemptId) && RolloutPhase(x.pending.value) == Prepared
  }

  predicate Marks(h: Hasher, last: Option<Effect>, d: Disk, x: Disk) {
    && Open(h, d)
    && x == d.(pending := Some(d.pending.value.(rollout := Some(InitialBootstrapVerified))))
    && last == Some(Ran(d.pending.value.attemptId, BootstrapFresh, true))
  }

  predicate Appends(h: Hasher, d: Disk, x: Disk) {
    && Open(h, d) && x == d.(ledger := x.ledger) && |x.ledger| == |d.ledger| + 1 && d.ledger <= x.ledger
    && x.ledger[|d.ledger|].attemptId == d.pending.value.attemptId
    && (d.receipt.None? ==> x.ledger[|d.ledger|].previousRelease.None?)
  }

  predicate Binds(h: Hasher, d: Disk, x: Disk) {
    Committed(d) && x == d.(receipt := Some(ReceiptFromEvent(h, Head(d.ledger).value)))
  }

  predicate Clears(h: Hasher, d: Disk, x: Disk) {
    Committed(d) && ReceiptMatches(h, d.receipt, Head(d.ledger).value) && x == d.(pending := None)
  }

  /** What may happen next in durable state `d`, given the effect just before. */
  predicate Legal(h: Hasher, last: Option<Effect>, d: Disk, e: Effect) {
    match e
    case Ran(id, step, _) =>
      && Open(h, d) && d.pending.value.attemptId == id
      && (step == BootstrapFresh ==> d.pending.value.baseRelease.None? && RolloutPhase(d.pending.value) == Prepared)
      && (Activates(step) ==> RolloutPhase(d.pending.value) == InitialBootstrapVerified)
    case Smoked(id, _) => Open(h, d) && d.pending.value.attemptId == id
    case Wrote(x) =>
      Good(h, x) &&
      (Opens(d, x) || Marks(h, last, d, x) || Appends(h, d, x) || Binds(h, d, x) || Clears(h, d, x))
  }

  predicate LegalFrom(h: Hasher, last: Option<Effect>, d: Disk, es: seq<Effect>)
    decreases |es|
  {
    es == [] || (Legal(h, last, d, es[0]) && LegalFrom(h, Some(es[0]), After(d, es[..1]), es[1..]))
  }

  function LastOf(last: Option<Effect>, es: seq<Effect>): Option<Effect> {
    if es == [] then last else Some(es[|es| - 1])
  }

  lemma LegalNothing(h: Hasher, d: Disk)
    ensures LegalFrom(h, None, d, [])
  {
  }

  lemma {:induction false} LegalConcat(h: Hasher, last: Option<Effect>, d: Disk, a: seq<Effect>, b: seq<Effect>)
    requires LegalFrom(h, last, d, a) && LegalFrom(h, LastOf(last, a), After(d, a), b)
    ensures LegalFrom(h, last, d, a + b)
    decreases |a|
  {
    hide Legal;
    if a == [] {
      assert a + b == b;
    } else {
      assert a == a[..1] + a[1..];
      AfterConcat(d, a[..1], a[1..]);
      LegalConcat(h, Some(a[0]), After(d, a[..1]), a[1..], b);
      assert (a + b)[..1] == a[..1] && (a + b)[1..] == a[1..] + b;
    }
  }

  lemma {:induction false} LegalPrefix(h: Hasher, last: Option<Effect>, d: Disk, es: seq<Effect>, n: nat)
    requires LegalFrom(h, last, d, es) && n <= |es|
    ensures LegalFrom(h, last, d, es[..n])
    decreases n
  {
    hide Legal;
    if n > 0 {
      LegalPrefix(h, Some(es[0]), After(d, es[..1]), es[1..], n - 1);
      assert es[..n][..1] == es[..1] && es[..n][1..] == es[1..][..n - 1];
    }
  }

  lemma LegalForgetsLast(h: Hasher, last: Option<Effect>, d: Disk, es: seq<Effect>)
    requires LegalFrom(h, None, d, es)
    ensures LegalFrom(h, last, d, es)
  {
    hide Good, Open;
  }

  /** One legal effect keeps the durable state good. */
  lemma LegalKeepsGood(h: Hasher, last: Option<Effect>, d: Disk, e: Effect)
    requires Good(h, d) && Legal(h, last, d, e)
    ensures Good(h, After(d, [e])) && d.ledger <= After(d, [e]).ledger
  {
    hide Good, Open;
    assert [e][..0] == [];
  }

  // ----- an invocation follows the protocol

  lemma StepPositions(initial: bool, verified: bool, k: nat)
    requires RolloutSteps(initial, verified).Some? && k < |RolloutSteps(initial, verified).value|
    ensures var s := RolloutSteps(initial, verified).value[k];
            && (s == BootstrapFresh <==> initial && !verified && k == 4)
            && (Activates(s) ==> initial && k > 4)
  {
  }

  /** The journal agrees with the handle, and its phase with the position reached. */
  predicate AtStep(h: Hasher, d: Disk, v: Invocation, handle: Handle, steps: seq<Step>, k: nat) {
    && RolloutSteps(handle.initialDeployment, handle.phase == InitialBootstrapVerified) == Some(steps) && k <= |steps|
    && Open(h, d) && d.pending.value.target == v.identity && ValidIdentity(v.identity)
    && d.pending.value.attemptId == handle.attemptId && d.pending.value.operation == handle.operation
    && handle.initialDeployment == d.pending.value.baseRelease.None?
    && (handle.initialDeployment ==>
          RolloutPhase(d.pending.value) ==
          if handle.phase == InitialBootstrapVerified || k > 4 then InitialBootstrapVerified else Prepared)
  }

  lemma WritesAreLegal(h: Hasher, last: Option<Effect>, d: Disk, ws: seq<Disk>)
    requires |ws| > 0 && Legal(h, last, d, Wrote(ws[0])) && LegalFrom(h, Some(Wrote(ws[0])), ws[0], Writes(ws[1..]))
    ensures LegalFrom(h, last, d, Writes(ws))
  {
    hide Legal;
    assert Writes(ws)[1..] == Writes(ws[1..]);
  }

  lemma FinishIsLegal(h: Hasher, last: Option<Effect>, d: Disk)
    requires Good(h, d) && Committed(d)
    ensures LegalFrom(h, last, d, Writes(FinishWrites(h, d)))
  {
    CommittedFinishes(h, d);
    hide Good, Open;
    var ws := FinishWrites(h, d);
    var final := ws[|ws| - 1];
    if |ws| == 2 {
      WritesAreLegal(h, Some(Wrote(ws[0])), ws[0], ws[1..]);
      WritesAreLegal(h, last, d, ws);
    } else {
      WritesAreLegal(h, last, d, ws);
    }
  }

  lemma CommandIsLegal(h: Hasher, last: Option<Effect>, d: Disk, v: Invocation, handle: Handle, steps: seq<Step>,
                       k: nat, passes: bool)
    requires k < |steps|
    requires AtStep(h, d, v, handle, steps, k)
    ensures var step := steps[k];
            var es := CommandEffects(h, d, v, handle, step, passes);
            && LegalFrom(h, last, d, es)
            && (CommandPasses(h, d, v, handle, step, passes) ==> AtStep(h, After(d, es), v, handle, steps, k + 1))
  {
    hide Good, Open, RolloutSteps, Authorized;
    StepPositions(handle.initialDeployment, handle.phase == InitialBootstrapVerified, k);
    var step := steps[k];
    var ran := Ran(handle.attemptId, step, passes);
    assert Legal(h, last, d, ran);
    assert After(d, [ran]) == d by { AfterThen(d, ran, []); assert [ran] + Writes([]) == [ran]; }
    var marked := MarkBootstrapVerified(h, d, v.identity, handle);
    var es := CommandEffects(h, d, v, handle, step, passes);
    assert es[..1] == [ran];
    if passes && HasCheckpoint(step) && marked.Ok? {
      MarkIsSafe(h, d, v.identity, handle);
      AfterThen(d, ran, marked.value);
      assert marked.value == [Last(d, marked.value)];
      assert Legal(h, Some(ran), d, Wrote(marked.value[0]));
      WritesAreLegal(h, Some(ran), d, marked.value);
      assert es[1..] == Writes(marked.value);
    } else {
      assert es == [ran] && es[1..] == [];
    }
  }

  lemma ClosingIsLegal(h: Hasher, last: Option<Effect>, d: Disk, v: Invocation, handle: Handle, steps: seq<Step>,
                       k: nat)
    requires AtStep(h, d, v, handle, steps, k)
    ensures LegalFrom(h, last, d, ClosingEffects(h, d, v, handle))
  {
    hide Good, Authorized;
    var smoked := Smoked(handle.attemptId, v.smokePasses);
    var es := ClosingEffects(h, d, v, handle);
    assert After(d, [smoked]) == d by { AfterThen(d, smoked, []); assert [smoked] + Writes([]) == [smoked]; }
    assert es[..1] == [smoked];
    var r := CompleteAttempt(h, d, v.identity, handle, v.completedAt);
    if v.smokePasses && r.Ok? {
      CompleteLegally(h, Some(smoked), d, v.identity, handle, v.completedAt);
      assert es[1..] == Writes(r.value);
    } else {
      assert es == [smoked] && es[1..] == [];
    }
  }

  lemma CompleteLegally(h: Hasher, last: Option<Effect>, d: Disk, id: Identity, handle: Handle, at: int)
    requires Open(h, d) && d.pending.value.target == id
    requires d.pending.value.attemptId == handle.attemptId && d.pending.value.operation == handle.operation
    requires CompleteAttempt(h, d, id, handle, at).Ok?
    ensures LegalFrom(h, last, d, Writes(CompleteAttempt(h, d, id, handle, at).value))
  {
    hide Good, Open, CompleteAttempt;
    CompleteIsSafe(h, d, id, handle, at);
    var ws := CompleteAttempt(h, d, id, handle, at).value;
    FinishIsLegal(h, Some(Wrote(ws[0])), ws[0]);
    WritesAreLegal(h, last, d, ws);
  }

  lemma {:induction false} StepsAreLegal(h: Hasher, last: Option<Effect>, d: Disk, v: Invocation, handle: Handle,
                                         steps: seq<Step>, k: nat)
    requires k <= |steps|
    requires AtStep(h, d, v, handle, steps, k)
    ensures LegalFrom(h, last, d, StepEffects(h, d, v, handle, steps, k))
    decreases |steps| - k
  {
    hide AtStep, RolloutSteps, CommandEffects, CommandPasses, ClosingEffects, LegalFrom, After;
    if k == |steps| {
      ClosingIsLegal(h, last, d, v, handle, steps, k);
    } else {
      var es := CommandEffects(h, d, v, handle, steps[k], k < v.passing);
      CommandIsLegal(h, last, d, v, handle, steps, k, k < v.passing);
      if CommandPasses(h, d, v, handle, steps[k], k < v.passing) {
        StepsAreLegal(h, LastOf(last, es), After(d, es), v, handle, steps, k + 1);
        LegalConcat(h, last, d, es, StepEffects(h, After(d, es), v, handle, steps, k + 1));
      }
    }
  }

  /** Every invocation on a good state, with a fresh random id, is a legal history. */
  lemma InvocationIsLegal(h: Hasher, d: Disk, v: Invocation)
    requires Good(h, d) && (d.pending.None? ==> Fresh(d, v.freshId))
    ensures LegalFrom(h, None, d, Effects(h, d, v))
  {
    hide Consistent, ValidReceipt, ValidAttempt, ValidLedger, Authorized, ReleaseVersion, IsLowerHex, Fresh,
         ValidIdentity;
    var r := PrepareAttempt(h, d, v.identity, v.rollback, v.resume, v.startedAt, v.freshId);
    PrepareIsSafe(h, d, v.identity, v.rollback, v.resume, v.startedAt, v.freshId);
    if Effects(h, d, v) != [] && r.Ok? {
      OpeningIsLegal(h, d, v);
      var ws, d' := r.value.writes, Last(d, r.value.writes);
      AfterWrites(d, ws);
      if r.value.handle.alreadyCompleted {
        assert Effects(h, d, v) == Writes(ws);
      } else {
        var handle := r.value.handle;
        var steps := RolloutSteps(handle.initialDeployment, handle.phase == InitialBootstrapVerified);
        if v.environmentValid && steps.Some? {
          assert AtStep(h, d', v, handle, steps.value, 0);
          hide AtStep, StepEffects, LegalFrom, Good, PrepareAttempt, RolloutSteps;
          StepsAreLegal(h, LastOf(None, Writes(ws)), d', v, handle, steps.value, 0);
          LegalConcat(h, None, d, Writes(ws), RolloutEffects(h, d', v, handle));
        } else {
          assert Effects(h, d, v) == Writes(ws);
        }
      }
    }
  }

  lemma OpeningIsLegal(h: Hasher, d: Disk, v: Invocation)
    requires Good(h, d) && (d.pending.None? ==> Fresh(d, v.freshId))
    requires PrepareAttempt(h, d, v.identity, v.rollback, v.resume, v.startedAt, v.freshId).Ok?
    ensures LegalFrom(h, None, d, Writes(
              PrepareAttempt(h, d, v.identity, v.rollback, v.resume, v.startedAt, v.freshId).value.writes))
  {
    hide ReleaseVersion, IsLowerHex, Newer;
    PrepareIsSafe(h, d, v.identity, v.rollback, v.resume, v.startedAt, v.freshId);
    var ws := PrepareAttempt(h, d, v.identity, v.rollback, v.resume, v.startedAt, v.freshId).value.writes;
    if d.pending.None? {
      assert ws[1..] == [] && Opens(d, ws[0]);
      WritesAreLegal(h, None, d, ws);
    } else if Committed(d) {
      FinishIsLegal(h, None, d);
    } else {
      assert ws == [];
    }
  }

  // ----- runs

  /** One invocation, cut after `cut` effects (or not at all when `cut` is large). */
  datatype Session = Session(v: Invocation, cut: nat)

  function Truncated(es: seq<Effect>, n: nat): seq<Effect> { if n < |es| then es[..n] else es }

  /** Everything that happened in a run, in order. */
  function History(h: Hasher, d: Disk, run: seq<Session>): seq<Effect> {
    if run == [] then []
    else
      var before := History(h, d, run[..|run| - 1]);
      var last := run[|run| - 1];
      before + Truncated(Effects(h, After(d, before), last.v), last.cut)
  }

  /** Attempt ids drawn for new attempts are never drawn twice. */
  predicate FreshIds(h: Hasher, d: Disk, run: seq<Session>) {
    run == [] ||
    var start := After(d, History(h, d, run[..|run| - 1]));
    FreshIds(h, d, run[..|run| - 1]) && (start.pending.None? ==> Fresh(start, run[|run| - 1].v.freshId))
  }

  lemma {:induction false} LegalState(h: Hasher, last: Option<Effect>, d: Disk, es: seq<Effect>)
    requires Good(h, d) && LegalFrom(h, last, d, es)
    ensures Good(h, After(d, es)) && d.ledger <= After(d, es).ledger
    decreases |es|
  {
    hide Good, Legal;
    if es != [] {
      LegalKeepsGood(h, last, d, es[0]);
      assert es[..1] == [es[0]] && es == es[..1] + es[1..];
      LegalState(h, Some(es[0]), After(d, es[..1]), es[1..]);
      AfterConcat(d, es[..1], es[1..]);
    }
  }

  lemma {:induction false} HistoryIsLegal(h: Hasher, d: Disk, run: seq<Session>)
    requires Good(h, d) && FreshIds(h, d, run)
    ensures LegalFrom(h, None, d, History(h, d, run))
  {
    hide Good, LegalFrom, Effects, After;
    if run == [] {
      LegalNothing(h, d);
    } else {
      var rest, last := run[..|run| - 1], run[|run| - 1];
      var before := History(h, d, rest);
      HistoryIsLegal(h, d, rest);
      LegalState(h, None, d, before);
      SessionExtends(h, d, before, last);
    }
  }

  /** A journal that a receipt of the third schema already carries: accepted at the
      next lock acquisition, although no rollout of its attempt may go on. */
  predicate Superseded(h: Hasher, d: Disk) {
    Accepted(h, d) && d.ledger == [] && d.pending.Some? && LegacyCommitted(d.receipt, d.pending.value)
  }

  lemma SupersededIsSafe(h: Hasher, d: Disk)
    requires Superseded(h, d)
    ensures !Good(h, d) && Good(h, d.(pending := None))
  {
    hide ReleaseVersion, IsLowerHex, Newer;
  }

  /** Nothing is done from there but to clear that journal, and clearing it leaves a good state. */
  lemma SupersededIsCleared(h: Hasher, d: Disk, v: Invocation)
    requires Superseded(h, d)
    ensures Effects(h, d, v) == [] || Effects(h, d, v) == [Wrote(d.(pending := None))]
    ensures Effects(h, d, v) != [] <==>
              && v.gatesPass && v.resume && v.identity == d.pending.value.target
              && OperationOf(v.rollback) == d.pending.value.operation
  {
    hide ReleaseVersion, IsLowerHex, Newer, RolloutEffects;
  }

  /** A run from such a state does nothing at all, or first clears the journal and
      is a legal history from there. */
  lemma {:induction false} SupersededHistory(h: Hasher, d: Disk, run: seq<Session>)
    requires Superseded(h, d) && FreshIds(h, d, run)
    ensures var es, cleared := History(h, d, run), d.(pending := None);
            es == [] || (es[0] == Wrote(cleared) && LegalFrom(h, None, cleared, es[1..]))
  {
    hide Superseded, Good, LegalFrom, Effects, After, Truncated, Fresh;
    if run != [] {
      var rest, last, cleared := run[..|run| - 1], run[|run| - 1], d.(pending := None);
      var before := History(h, d, rest);
      var done := Truncated(Effects(h, After(d, before), last.v), last.cut);
      SupersededHistory(h, d, rest);
      SupersededIsSafe(h, d);
      if before == [] {
        AfterNothing(d);
        FirstSession(h, d, last);
        assert before + done == done;
      } else {
        AfterFirst(d, cleared, before);
        LegalState(h, None, cleared, before[1..]);
        SessionExtends(h, cleared, before[1..], last);
        TailOfConcat(before, done);
      }
    }
  }

  lemma TailOfConcat(a: seq<Effect>, b: seq<Effect>)
    requires a != []
    ensures (a + b)[0] == a[0] && (a + b)[1..] == a[1..] + b
  {
  }

  lemma FirstSession(h: Hasher, d: Disk, s: Session)
    requires Superseded(h, d)
    ensures var es, cleared := Truncated(Effects(h, d, s.v), s.cut), d.(pending := None);
            es == [] || (es[0] == Wrote(cleared) && LegalFrom(h, None, cleared, es[1..]))
  {
    hide Superseded, Effects, LegalFrom;
    SupersededIsCleared(h, d, s.v);
    LegalNothing(h, d.(pending := None));
    var es := Truncated(Effects(h, d, s.v), s.cut);
    assert es == [] || es == [Wrote(d.(pending := None))];
    assert es != [] ==> es[1..] == [];
  }

  lemma AfterNothing(d: Disk)
    ensures After(d, []) == d
  {
  }

  lemma AfterFirst(d: Disk, x: Disk, es: seq<Effect>)
    requires es != [] && es[0] == Wrote(x)
    ensures After(d, es) == After(x, es[1..])
  {
    assert es == [es[0]] + es[1..];
    AfterConcat(d, [es[0]], es[1..]);
  }

  /** One more session, cut anywhere, keeps a history legal. */
  lemma SessionExtends(h: Hasher, d: Disk, before: seq<Effect>, last: Session)
    requires Good(h, d) && LegalFrom(h, None, d, before) && Good(h, After(d, before))
    requires After(d, before).pending.None? ==> Fresh(After(d, before), last.v.freshId)
    ensures LegalFrom(h, None, d, before + Truncated(Effects(h, After(d, before), last.v), last.cut))
  {
    hide Good, LegalFrom, Effects, After, Fresh;
    var start := After(d, before);
    var es := Effects(h, start, last.v);
    InvocationIsLegal(h, start, last.v);
    if last.cut < |es| { LegalPrefix(h, None, start, es, last.cut); }
    LegalForgetsLast(h, LastOf(None, before), start, Truncated(es, last.cut));
    LegalConcat(h, None, d, before, Truncated(es, last.cut));
  }

  /** Crash safety. In any run from a good state, or from one whose journal an older
      receipt carries, with a crash after any effect of any invocation, every
      durable state on the way passes the validation made at the next lock
      acquisition; no attempt id is ever committed twice; and the ledger only
      grows by appending. */
  lemma CrashSafety(h: Hasher, d: Disk, run: seq<Session>, m: nat, n: nat)
    requires (Good(h, d) || Superseded(h, d)) && FreshIds(h, d, run) && m <= n <= |History(h, d, run)|
    ensures var past := History(h, d, run)[..n];
            && Accepted(h, After(d, past))
            && DistinctAttempts(After(d, past).ledger)
            && After(d, History(h, d, run)[..m]).ledger <= After(d, past).ledger
  {
    hide LegalFrom, After, History, Accepted;
    var es := History(h, d, run);
    if Good(h, d) {
      HistoryIsLegal(h, d, run);
      PrefixesAreSafe(h, d, es, m, n);
    } else {
      SupersededHistory(h, d, run);
      AfterNothing(d);
      assert es[..0] == [];
      if n > 0 {
        var cleared := d.(pending := None);
        SupersededIsSafe(h, d);
        PrefixesAreSafe(h, cleared, es[1..], if m > 0 then m - 1 else 0, n - 1);
        AfterFirst(d, cleared, es[..n]);
        assert es[..n][1..] == es[1..][..n - 1];
        if m > 0 {
          AfterFirst(d, cleared, es[..m]);
          assert es[..m][1..] == es[1..][..m - 1];
        }
      }
    }
  }

  /** What a legal history keeps at any two points of it. */
  lemma PrefixesAreSafe(h: Hasher, d: Disk, es: seq<Effect>, m: nat, n: nat)
    requires Good(h, d) && LegalFrom(h, None, d, es) && m <= n <= |es|
    ensures Accepted(h, After(d, es[..n])) && DistinctAttempts(After(d, es[..n]).ledger)
    ensures After(d, es[..m]).ledger <= After(d, es[..n]).ledger
  {
    hide LegalFrom, After, Accepted;
    LegalPrefix(h, None, d, es, n);
    LegalState(h, None, d, es[..n]);
    LegalPrefix(h, None, d, es, m);
    LegalState(h, None, d, es[..m]);
    LegalSuffix(h, None, d, es[..n], m);
    assert es[..n][..m] == es[..m] && es[..n] == es[..m] + es[..n][m..];
    LegalState(h, LastOf(None, es[..m]), After(d, es[..m]), es[..n][m..]);
    AfterConcat(d, es[..m], es[..n][m..]);
  }

  lemma {:induction false} LegalSuffix(h: Hasher, last: Option<Effect>, d: Disk, es: seq<Effect>, n: nat)
    requires LegalFrom(h, last, d, es) && n <= |es|
    ensures LegalFrom(h, LastOf(last, es[..n]), After(d, es[..n]), es[n..])
    decreases n
  {
    hide Legal;
    if n == 0 {
      assert es[0..] == es && es[..0] == [];
    } else {
      LegalSuffix(h, Some(es[0]), After(d, es[..1]), es[1..], n - 1);
      assert es[1..][n - 1..] == es[n..];
      assert es[..n] == es[..1] + es[1..][..n - 1];
      AfterConcat(d, es[..1], es[1..][..n - 1]);
    }
  }

  /** The effect at any position is one the protocol allows in the state reached there. */
  lemma LegalAt(h: Hasher, d: Disk, es: seq<Effect>, n: nat)
    requires LegalFrom(h, None, d, es) && n < |es|
    ensures Legal(h, LastOf(None, es[..n]), After(d, es[..n]), es[n])
  {
    hide Legal;
    LegalSuffix(h, None, d, es, n);
  }

  // ----- the initial bootstrap gate

  predicate Verified(d: Disk, id: string) {
    d.pending.Some? && d.pending.value.attemptId == id && RolloutPhase(d.pending.value) == InitialBootstrapVerified
  }

  /** A journaled checkpoint stays visible: in the journal of its attempt, or in the ledger once committed. */
  predicate Remembered(d: Disk, id: string) {
    Verified(d, id) || (!Unused(d.ledger, id) && (d.pending.None? || d.pending.value.attemptId != id))
  }

  predicate Bootstrapped(d: Disk, es: seq<Effect>) {
    && (d.pending.Some? && RolloutPhase(d.pending.value) == InitialBootstrapVerified ==>
          Ran(d.pending.value.attemptId, BootstrapFresh, true) in es)
    && (forall i :: 0 <= i < |es| && es[i].Wrote? && es[i].disk.pending.Some? &&
                    Verified(es[i].disk, es[i].disk.pending.value.attemptId) ==>
          Remembered(d, es[i].disk.pending.value.attemptId))
  }

  lemma {:induction false} HistoryIsBootstrapped(h: Hasher, d: Disk, es: seq<Effect>)
    requires Good(h, d) && d.pending.None? && LegalFrom(h, None, d, es)
    ensures Bootstrapped(After(d, es), es)
    decreases |es|
  {
    hide Good, Legal, LegalFrom;
    if es != [] {
      var n := |es| - 1;
      var front := es[..n];
      LegalPrefix(h, None, d, es, n);
      HistoryIsBootstrapped(h, d, front);
      LegalAt(h, d, es, n);
      LegalState(h, None, d, front);
      EffectIsBootstrapped(h, LastOf(None, front), After(d, front), front, es[n]);
      assert es == front + [es[n]];
      AfterConcat(d, front, [es[n]]);
    }
  }

  lemma EffectIsBootstrapped(h: Hasher, last: Option<Effect>, d: Disk, es: seq<Effect>, e: Effect)
    requires Good(h, d) && Bootstrapped(d, es) && Legal(h, last, d, e) && last == LastOf(None, es)
    ensures Bootstrapped(After(d, [e]), es + [e])
  {
    hide Accepted, Authorized;
    var d', all := After(d, [e]), es + [e];
    assert [e][..0] == [];
    assert forall x :: x in es ==> x in all;
    forall i | 0 <= i < |all| && all[i].Wrote? && all[i].disk.pending.Some? &&
               Verified(all[i].disk, all[i].disk.pending.value.attemptId)
      ensures Remembered(d', all[i].disk.pending.value.attemptId)
    {
      var id := all[i].disk.pending.value.attemptId;
      if i < |es| {
        assert all[i] == es[i];
        assert Remembered(d, id);
        RememberedStays(h, last, d, e, id);
      }
    }
  }

  lemma RememberedStays(h: Hasher, last: Option<Effect>, d: Disk, e: Effect, id: string)
    requires Good(h, d) && Legal(h, last, d, e) && Remembered(d, id)
    ensures Remembered(After(d, [e]), id)
  {
    hide Accepted, Authorized;
    assert [e][..0] == [];
    LegalKeepsGood(h, last, d, e);
    var d' := After(d, [e]);
    if !Unused(d.ledger, id) {
      var i :| 0 <= i < |d.ledger| && d.ledger[i].attemptId == id;
      assert d'.ledger[i].attemptId == id;
    }
  }

  /** Across all invocations of a run that starts without a journal, no initial
      activation runs before a fresh bootstrap of the same attempt succeeded. */
  lemma ActivationFollowsBootstrap(h: Hasher, d: Disk, run: seq<Session>, n: nat)
    requires Good(h, d) && d.pending.None? && FreshIds(h, d, run)
    requires n < |History(h, d, run)| && History(h, d, run)[n].Ran? && Activates(History(h, d, run)[n].step)
    ensures Ran(History(h, d, run)[n].attemptId, BootstrapFresh, true) in History(h, d, run)[..n]
  {
    hide Accepted, Authorized, LegalFrom, History, After;
    var es := History(h, d, run);
    HistoryIsLegal(h, d, run);
    LegalPrefix(h, None, d, es, n);
    HistoryIsBootstrapped(h, d, es[..n]);
    LegalAt(h, d, es, n);
  }

  /** An active release, or a journaled checkpoint: there is no empty volume to verify any more. */
  predicate PastBootstrap(d: Disk) {
    d.receipt.Some? || (d.pending.Some? && RolloutPhase(d.pending.value) == InitialBootstrapVerified)
  }

  lemma PastBootstrapStays(h: Hasher, last: Option<Effect>, d: Disk, e: Effect)
    requires Good(h, d) && PastBootstrap(d) && Legal(h, last, d, e)
    ensures PastBootstrap(After(d, [e])) && !(e.Ran? && e.step == BootstrapFresh)
  {
    hide ValidLedger, ValidReceipt, ValidAttempt, Authorized;
    assert [e][..0] == [];
  }

  lemma {:induction false} NoFreshBootstrap(h: Hasher, last: Option<Effect>, d: Disk, es: seq<Effect>, n: nat)
    requires Good(h, d) && PastBootstrap(d) && LegalFrom(h, last, d, es) && n < |es|
    ensures !(es[n].Ran? && es[n].step == BootstrapFresh)
    decreases n
  {
    hide Good, Legal, PastBootstrap;
    PastBootstrapStays(h, last, d, es[0]);
    LegalKeepsGood(h, last, d, es[0]);
    if n > 0 {
      assert es[..1] == [es[0]];
      NoFreshBootstrap(h, Some(es[0]), After(d, es[..1]), es[1..], n - 1);
    }
  }

  /** Once a checkpoint has been journaled, no fresh bootstrap of any attempt runs
      again, in this invocation or a later one. */
  lemma FreshBootstrapNeverReruns(h: Hasher, d: Disk, run: seq<Session>, m: nat, n: nat)
    requires Good(h, d) && FreshIds(h, d, run) && m < n < |History(h, d, run)|
    requires History(h, d, run)[m].Wrote? && PastBootstrap(History(h, d, run)[m].disk)
    ensures !(History(h, d, run)[n].Ran? && History(h, d, run)[n].step == BootstrapFresh)
  {
    hide Good, LegalFrom, History, PastBootstrap, FreshIds;
    var es := History(h, d, run);
    HistoryIsLegal(h, d, run);
    LegalPrefix(h, None, d, es, m + 1);
    LegalState(h, None, d, es[..m + 1]);
    LegalSuffix(h, None, d, es, m + 1);
    assert es[m + 1..][n - m - 1] == es[n];
    NoFreshBootstrap(h, LastOf(None, es[..m + 1]), es[m].disk, es[m + 1..], n - m - 1);
  }

  /** Effect `m` journals the checkpoint and the initial activation comes next. */
  predicate CheckpointAt(es: seq<Effect>, m: nat, id: string) {
    && m + 1 < |es| && es[m].Wrote? && PastBootstrap(es[m].disk) && es[m].disk.receipt.None?
    && es[m + 1] == Ran(id, InitialActivation, true)
  }

  /** The checkpoint is reached: an initial rollout whose commands pass up to the
      fresh bootstrap journals it, and goes on from there. */
  lemma {:induction false} CheckpointIsReached(h: Hasher, d: Disk, v: Invocation, handle: Handle, steps: seq<Step>,
                                               k: nat)
    requires k <= 4 && AtStep(h, d, v, handle, steps, k) && v.passing > 5
    requires handle.initialDeployment && handle.phase == Prepared
    ensures exists m :: CheckpointAt(StepEffects(h, d, v, handle, steps, k), m, handle.attemptId)
    decreases 4 - k
  {
    hide RolloutSteps, AtStep, StepEffects, CommandEffects, CommandPasses, After, CheckpointAt, LegalFrom, NextEvent,
         Open;
    InitialLength(h, d, v, handle, steps, k);
    var first := CommandEffects(h, d, v, handle, steps[k], true);
    var rest := StepEffects(h, After(d, first), v, handle, steps, k + 1);
    CommandCompletes(h, d, v, handle, steps, k);
    CommandIsLegal(h, None, d, v, handle, steps, k, true);
    StepGoesOn(h, d, v, handle, steps, k);
    if k < 4 {
      CheckpointIsReached(h, After(d, first), v, handle, steps, k + 1);
      var m :| CheckpointAt(rest, m, handle.attemptId);
      CheckpointShifts(first, rest, m, handle.attemptId);
    } else {
      FreshBootstrapMarks(h, d, v, handle, steps);
    }
  }

  lemma InitialLength(h: Hasher, d: Disk, v: Invocation, handle: Handle, steps: seq<Step>, k: nat)
    requires AtStep(h, d, v, handle, steps, k) && handle.initialDeployment
    ensures |steps| == LONGEST_ROLLOUT
  {
    hide Open;
  }

  lemma CheckpointShifts(first: seq<Effect>, rest: seq<Effect>, m: nat, id: string)
    requires CheckpointAt(rest, m, id)
    ensures CheckpointAt(first + rest, |first| + m, id)
  {
    hide PastBootstrap;
  }

  lemma StepGoesOn(h: Hasher, d: Disk, v: Invocation, handle: Handle, steps: seq<Step>, k: nat)
    requires k < |steps| && k < v.passing && CommandPasses(h, d, v, handle, steps[k], true)
    ensures var first := CommandEffects(h, d, v, handle, steps[k], true);
            StepEffects(h, d, v, handle, steps, k) == first + StepEffects(h, After(d, first), v, handle, steps, k + 1)
  {
    hide After, CommandEffects, CommandPasses;
  }

  /** The fresh bootstrap and its checkpoint, and the activation that follows. */
  lemma FreshBootstrapMarks(h: Hasher, d: Disk, v: Invocation, handle: Handle, steps: seq<Step>)
    requires 5 < |steps| && AtStep(h, d, v, handle, steps, 4) && v.passing > 5
    requires handle.initialDeployment && handle.phase == Prepared
    ensures var first := CommandEffects(h, d, v, handle, steps[4], true);
            CheckpointAt(first + StepEffects(h, After(d, first), v, handle, steps, 5), 1, handle.attemptId)
  {
    hide ValidLedger, ValidReceipt, Consistent, Authorized, After, ReleaseVersion, IsLowerHex, MarkBootstrapVerified;
    var first := CommandEffects(h, d, v, handle, steps[4], true);
    CommandCompletes(h, d, v, handle, steps, 4);
    MarkWrites(h, d, v.identity, handle);
    var marked := MarkBootstrapVerified(h, d, v.identity, handle).value;
    assert first == [Ran(handle.attemptId, BootstrapFresh, true), Wrote(marked[0])];
    ActivationFollows(h, After(d, first), v, handle, steps);
  }

  lemma ActivationFollows(h: Hasher, d: Disk, v: Invocation, handle: Handle, steps: seq<Step>)
    requires 5 < |steps| && RolloutSteps(true, false) == Some(steps) && v.passing > 5
    ensures var rest := StepEffects(h, d, v, handle, steps, 5);
            rest != [] && rest[0] == Ran(handle.attemptId, InitialActivation, true)
  {
    hide After, MarkBootstrapVerified;
  }

  lemma MarkWrites(h: Hasher, d: Disk, id: Identity, handle: Handle)
    requires Open(h, d) && d.pending.value.baseRelease.None? && RolloutPhase(d.pending.value) == Prepared
    ensures var r := MarkBootstrapVerified(h, d, id, handle);
            r.Ok? ==> |r.value| == 1 && PastBootstrap(r.value[0]) && r.value[0].receipt.None?
  {
    hide ValidLedger, ValidReceipt, Consistent, Authorized;
  }

  // ----- the commit point

  /** After the event is written, the next effect leaves a state that settles
      identically, or is that settled state. */
  lemma CommitPoint(h: Hasher, last: Option<Effect>, d: Disk, e: Effect)
    requires Good(h, d) && Committed(d) && Legal(h, last, d, e)
    ensures var d' := After(d, [e]);
            d' == Settled(h, d) || (Committed(d') && Settled(h, d') == Settled(h, d) && d'.ledger == d.ledger)
  {
    hide Accepted, Authorized;
    assert [e][..0] == [];
  }

  /** Still on the way to this settled state, with nothing else recorded. */
  predicate Settling(h: Hasher, d: Disk, settled: Disk) {
    Committed(d) && Settled(h, d) == settled && d.ledger == settled.ledger
  }

  /** Every continuation of a committed attempt is still settling, or has passed
      through exactly the settled state. */
  lemma {:induction false} CommittedSettles(h: Hasher, last: Option<Effect>, d: Disk, es: seq<Effect>)
    requires Good(h, d) && Committed(d) && LegalFrom(h, last, d, es)
    ensures Settling(h, After(d, es), Settled(h, d)) || exists k :: 0 < k <= |es| && After(d, es[..k]) == Settled(h, d)
    decreases |es|
  {
    hide Good, Legal, Settled;
    if es == [] {
      NothingSettles(h, d);
    } else {
      var d', rest := After(d, es[..1]), es[1..];
      assert es[..1] == [es[0]] && es == es[..1] + rest;
      CommitPoint(h, last, d, es[0]);
      if d' != Settled(h, d) {
        LegalKeepsGood(h, last, d, es[0]);
        CommittedSettles(h, Some(es[0]), d', rest);
        AfterConcat(d, es[..1], rest);
        if !Settling(h, After(d, es), Settled(h, d)) {
          var k :| 0 < k <= |rest| && After(d', rest[..k]) == Settled(h, d);
          assert es[..k + 1] == es[..1] + rest[..k];
          AfterConcat(d, es[..1], rest[..k]);
        }
      }
    }
  }

  lemma NothingSettles(h: Hasher, d: Disk)
    requires Committed(d)
    ensures Settling(h, After(d, []), Settled(h, d))
  {
  }

  /** Crash equivalence: let a completion die after its event or its receipt was
      written. Whatever run of invocations follows, crashed or not, the state is
      on the way to the very state the uncrashed completion reaches, or the run
      has passed through it. */
  lemma CrashedCompletionSettles(h: Hasher, d: Disk, id: Identity, handle: Handle, at: int, i: nat,
                                 run: seq<Session>, n: nat)
    requires Open(h, d) && Holds(d.pending.value, id, handle) && CompleteAttempt(h, d, id, handle, at).Ok? && i < 2
    requires var crashed := CompleteAttempt(h, d, id, handle, at).value[i];
             FreshIds(h, crashed, run) && n <= |History(h, crashed, run)|
    ensures var ws := CompleteAttempt(h, d, id, handle, at).value;
            var es := History(h, ws[i], run);
            |ws| == 3 &&
            (Settling(h, After(ws[i], es[..n]), ws[2]) || exists k :: 0 < k <= n && After(ws[i], es[..k]) == ws[2])
  {
    hide Good, Open, LegalFrom, History, After, CompleteAttempt, FreshIds;
    CompleteIsSafe(h, d, id, handle, at);
    var ws := CompleteAttempt(h, d, id, handle, at).value;
    var es := History(h, ws[i], run);
    HistoryIsLegal(h, ws[i], run);
    LegalPrefix(h, None, ws[i], es, n);
    CommittedSettles(h, None, ws[i], es[..n]);
    assert forall k :: 0 < k <= n ==> es[..n][..k] == es[..k];
  }

  // ----- the full ledger

  /** An open attempt over a full ledger stays exactly that under every legal effect. */
  predicate Blocked(h: Hasher, d: Disk, ledger: seq<Event>, id: string) {
    Open(h, d) && |d.ledger| == MAX_LEDGER_EVENTS && d.ledger == ledger && d.pending.value.attemptId == id
  }

  lemma BlockedStays(h: Hasher, last: Option<Effect>, d: Disk, e: Effect, ledger: seq<Event>, id: string)
    requires Good(h, d) && Blocked(h, d, ledger, id) && Legal(h, last, d, e)
    ensures Blocked(h, After(d, [e]), ledger, id)
  {
    hide Authorized, ReleaseVersion, IsLowerHex;
    assert [e][..0] == [];
  }

  lemma {:induction false} BlockedForever(h: Hasher, last: Option<Effect>, d: Disk, es: seq<Effect>,
                                          ledger: seq<Event>, id: string)
    requires Good(h, d) && Blocked(h, d, ledger, id) && LegalFrom(h, last, d, es)
    ensures Blocked(h, After(d, es), ledger, id)
    decreases |es|
  {
    hide Good, Blocked, Legal;
    if es != [] {
      assert es[..1] == [es[0]] && es == es[..1] + es[1..];
      BlockedStays(h, last, d, es[0], ledger, id);
      LegalKeepsGood(h, last, d, es[0]);
      BlockedForever(h, Some(es[0]), After(d, es[..1]), es[1..], ledger, id);
      AfterConcat(d, es[..1], es[1..]);
    }
  }

  /** Over a full ledger an open attempt never ends: whatever invocations follow,
      the journal stays open for the same attempt and the ledger as it is. */
  lemma FullLedgerNeverClears(h: Hasher, d: Disk, run: seq<Session>, n: nat)
    requires Open(h, d) && |d.ledger| == MAX_LEDGER_EVENTS && FreshIds(h, d, run) && n <= |History(h, d, run)|
    ensures Blocked(h, After(d, History(h, d, run)[..n]), d.ledger, d.pending.value.attemptId)
  {
    hide LegalFrom, History, After, Accepted, Authorized, FreshIds;
    var es := History(h, d, run);
    HistoryIsLegal(h, d, run);
    LegalPrefix(h, None, d, es, n);
    BlockedForever(h, None, d, es[..n], d.ledger, d.pending.value.attemptId);
  }

  /** A write that fails is a crash: what an invocation does until then is one of
      the cuts a run may make, so all that is said of runs covers it. The cut is
      right before the failing write, or right behind it. */
  lemma FailedWriteIsACrash(h: Hasher, d: Disk, v: Invocation, f: Option<Failure>)
    ensures var es := Effects(h, d, v);
            History(h, d, [Session(v, |Reached(es, f)|)]) == Reached(es, f)
    ensures var es, n := Effects(h, d, v), |Reached(Effects(h, d, v), f)|;
            Raises(f, WriteCount(es)) ==>
              if f.value.lands then 0 < n <= |es| && es[n - 1].Wrote? else n < |es| && es[n].Wrote?
  {
    hide Effects, Reached, WriteCount, Raises;
    var es := Effects(h, d, v);
    ReachedIsPrefix(es, f);
    var run := [Session(v, |Reached(es, f)|)];
    assert run[..0] == [] && History(h, d, []) == [] && After(d, []) == d;
    assert History(h, d, run) == [] + Truncated(es, |Reached(es, f)|);
    if Raises(f, WriteCount(es)) { var n := FailureStopsAt(es, f); }
  }

  /** A wrong bundle, a wrong operation or a missing resume flag changes nothing,
      and neither does a resume without a journal. */
  lemma RefusedInvocation(h: Hasher, d: Disk, v: Invocation)
    requires if d.pending.Some?
             then !v.resume || v.identity != d.pending.value.target ||
               OperationOf(v.rollback) != d.pending.value.operation
             else v.resume
    ensures Effects(h, d, v) == [] && After(d, Effects(h, d, v)) == d
  {
  }

  // ----- uninterrupted invocations

  /** Every gate, command and check passes. */
  predicate AllPass(v: Invocation) {
    v.gatesPass && v.environmentValid && v.smokePasses && v.passing >= LONGEST_ROLLOUT
  }

  const LONGEST_ROLLOUT := 16

  lemma RolloutLength(initial: bool, verified: bool)
    requires RolloutSteps(initial, verified).Some?
    ensures |RolloutSteps(initial, verified).value| == if initial then LONGEST_ROLLOUT else 14
  {
  }

  lemma {:induction false} StepsComplete(h: Hasher, d: Disk, v: Invocation, handle: Handle, steps: seq<Step>, k: nat)
    requires k <= |steps|
    requires AtStep(h, d, v, handle, steps, k) && v.smokePasses && v.passing >= |steps|
    ensures var d' := After(d, StepEffects(h, d, v, handle, steps, k));
            var e := NextEvent(h, d, v.identity, handle.operation, handle.attemptId, v.completedAt);
            && (|d.ledger| < MAX_LEDGER_EVENTS ==> d' == Disk(Some(ReceiptFromEvent(h, e)), None, d.ledger + [e]))
            && (|d.ledger| >= MAX_LEDGER_EVENTS ==> d'.pending.Some? && d'.ledger == d.ledger)
    decreases |steps| - k
  {
    hide AtStep, RolloutSteps, CommandEffects, CommandPasses, ClosingEffects, After;
    if k == |steps| {
      ClosingCompletes(h, d, v, handle, steps, k);
    } else {
      var es := CommandEffects(h, d, v, handle, steps[k], true);
      CommandIsLegal(h, None, d, v, handle, steps, k, true);
      CommandCompletes(h, d, v, handle, steps, k);
      StepsComplete(h, After(d, es), v, handle, steps, k + 1);
      AfterConcat(d, es, StepEffects(h, After(d, es), v, handle, steps, k + 1));
    }
  }

  lemma CommandCompletes(h: Hasher, d: Disk, v: Invocation, handle: Handle, steps: seq<Step>, k: nat)
    requires k < |steps|
    requires AtStep(h, d, v, handle, steps, k)
    ensures var step := steps[k];
            var d' := After(d, CommandEffects(h, d, v, handle, step, true));
            CommandPasses(h, d, v, handle, step, true) && d'.receipt == d.receipt && d'.ledger == d.ledger
  {
    hide RolloutSteps, ValidLedger, ValidReceipt, Consistent, ReleaseVersion;
    StepPositions(handle.initialDeployment, handle.phase == InitialBootstrapVerified, k);
    var step := steps[k];
    var ran := Ran(handle.attemptId, step, true);
    AfterThen(d, ran, []);
    assert [ran] + Writes([]) == [ran];
    if step == BootstrapFresh {
      AfterThen(d, ran, MarkBootstrapVerified(h, d, v.identity, handle).value);
    }
  }

  lemma ClosingCompletes(h: Hasher, d: Disk, v: Invocation, handle: Handle, steps: seq<Step>, k: nat)
    requires AtStep(h, d, v, handle, steps, k) && v.smokePasses && v.passing >= |steps|
    ensures var d' := After(d, ClosingEffects(h, d, v, handle));
            var e := NextEvent(h, d, v.identity, handle.operation, handle.attemptId, v.completedAt);
            && (|d.ledger| < MAX_LEDGER_EVENTS ==> d' == Disk(Some(ReceiptFromEvent(h, e)), None, d.ledger + [e]))
            && (|d.ledger| >= MAX_LEDGER_EVENTS ==> d'.pending.Some? && d'.ledger == d.ledger)
  {
    hide CompleteAttempt, Good, Accepted, Authorized, After;
    CompleteIsSafe(h, d, v.identity, handle, v.completedAt);
    var smoked := Smoked(handle.attemptId, v.smokePasses);
    var r := CompleteAttempt(h, d, v.identity, handle, v.completedAt);
    AfterThen(d, smoked, []);
    assert [smoked] + Writes([]) == [smoked];
    if r.Ok? {
      AfterThen(d, smoked, r.value);
      assert ClosingEffects(h, d, v, handle) == [smoked] + Writes(r.value);
    } else {
      assert ClosingEffects(h, d, v, handle) == [smoked];
    }
  }
}
