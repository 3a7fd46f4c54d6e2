/** The release driver: verify, journal, roll out step by step, commit.
    An invocation is modelled by its effects in order: rollout commands, the
    smoke check and durable writes. A crash cuts that list anywhere. */
module RolloutDriver {
  import opened Text
  import opened Release
  import opened DeploymentState
  import opened DeploymentSafety
  import opened LockedState

  datatype Step =
    | ComposeConfiguration | ContainerPreflight | AlertmanagerConfiguration | ImagePull
    | BootstrapFresh | BootstrapResumed | InitialActivation | InitialBackup | InitialRestoreDrill
    | InitialMigrationVerification | OperationalActivation
    | PreRolloutBackup | PreRolloutRestoreDrill | MigrationRehearsal | ServiceActivation
    | PostActivationBackup | PostActivationRestoreDrill | ExternalRecoveryPoint | RecoveryExporterActivation
    | MonitoringSmoke | NotificationDrill

  const COMMON := [ComposeConfiguration, ContainerPreflight, AlertmanagerConfiguration]
  const CLOSING := [PostActivationBackup, PostActivationRestoreDrill, ExternalRecoveryPoint,
                    RecoveryExporterActivation, MonitoringSmoke, NotificationDrill]

  /** The ordered commands of a rollout; a checkpoint without an initial deployment is refused. */
  function RolloutSteps(initial: bool, verified: bool): Option<seq<Step>> {
    if verified && !initial then None
    else if initial then
      Some(COMMON +
           [ImagePull, if verified then BootstrapResumed else BootstrapFresh, InitialActivation, InitialBackup,
            InitialRestoreDrill, InitialMigrationVerification, OperationalActivation] + CLOSING)
    else
      Some(COMMON + [PreRolloutBackup, PreRolloutRestoreDrill, ImagePull, MigrationRehearsal, ServiceActivation] +
           CLOSING)
  }

  /** Only the fresh bootstrap rehearsal carries a checkpoint. */
  predicate HasCheckpoint(s: Step) { s == BootstrapFresh }

  /** What the outside world answers to one invocation: the bundle and directory
      gates, the environment check, how many commands pass, the smoke check, the
      clock and the random attempt id. */
  datatype Invocation = Invocation(
    identity: Identity, rollback: bool, resume: bool, gatesPass: bool, environmentValid: bool,
    passing: nat, smokePasses: bool, startedAt: int, freshId: string, completedAt: int)

  datatype Effect =
    | Ran(attemptId: string, step: Step, ok: bool)
    | Smoked(attemptId: string, ok: bool)
    | Wrote(disk: Disk)

  function Writes(ws: seq<Disk>): (es: seq<Effect>)
    ensures |es| == |ws| && forall i :: 0 <= i < |ws| ==> es[i] == Wrote(ws[i])
  {
    seq(|ws|, i requires 0 <= i < |ws| => Wrote(ws[i]))
  }

  /** The durable state after some effects. */
  function After(d: Disk, es: seq<Effect>): Disk {
    if es == [] then d
    else if es[|es| - 1].Wrote? then es[|es| - 1].disk
    else After(d, es[..|es| - 1])
  }

  /** One command and the checkpoint it carries. */
  function CommandEffects(h: Hasher, d: Disk, v: Invocation, handle: Handle, step: Step, passes: bool): seq<Effect> {
    [Ran(handle.attemptId, step, passes)] +
    if !passes || !HasCheckpoint(step) then []
    else match MarkBootstrapVerified(h, d, v.identity, handle)
      case Err(_) => []
      case Ok(ws) => Writes(ws)
  }

  predicate CommandPasses(h: Hasher, d: Disk, v: Invocation, handle: Handle, step: Step, passes: bool) {
    passes && (HasCheckpoint(step) ==> MarkBootstrapVerified(h, d, v.identity, handle).Ok?)
  }

  /** The smoke check and, after it, the commit. */
  function ClosingEffects(h: Hasher, d: Disk, v: Invocation, handle: Handle): seq<Effect> {
    [Smoked(handle.attemptId, v.smokePasses)] +
    if !v.smokePasses then []
    else match CompleteAttempt(h, d, v.identity, handle, v.completedAt)
      case Err(_) => []
      case Ok(ws) => Writes(ws)
  }

  /** Commands from position `k` on, then the closing. */
  function StepEffects(h: Hasher, d: Disk, v: Invocation, handle: Handle, steps: seq<Step>, k: nat): seq<Effect>
    requires k <= |steps|
    decreases |steps| - k
  {
    if k == |steps| then ClosingEffects(h, d, v, handle)
    else
      var es := CommandEffects(h, d, v, handle, steps[k], k < v.passing);
      if CommandPasses(h, d, v, handle, steps[k], k < v.passing)
      then es + StepEffects(h, After(d, es), v, handle, steps, k + 1)
      else es
  }

  function RolloutEffects(h: Hasher, d: Disk, v: Invocation, handle: Handle): seq<Effect> {
    match RolloutSteps(handle.initialDeployment, handle.phase == InitialBootstrapVerified)
    case None => []
    case Some(steps) => if v.environmentValid then StepEffects(h, d, v, handle, steps, 0) else []
  }

  /** Everything one invocation does when it is not interrupted. */
  function Effects(h: Hasher, d: Disk, v: Invocation): seq<Effect> {
    if !Accepted(h, d) || !v.gatesPass then []
    else match PrepareAttempt(h, d, v.identity, v.rollback, v.resume, v.startedAt, v.freshId)
      case Err(_) => []
      case Ok(opening) =>
        Writes(opening.writes) +
        if opening.handle.alreadyCompleted then []
        else RolloutEffects(h, Last(d, opening.writes), v, opening.handle)
  }

  lemma {:induction false} AfterConcat(d: Disk, a: seq<Effect>, b: seq<Effect>)
    ensures After(d, a + b) == After(After(d, a), b)
  {
    if b == [] {
      assert a + b == a;
    } else {
      assert (a + b)[..|a + b| - 1] == a + b[..|b| - 1];
      AfterConcat(d, a, b[..|b| - 1]);
    }
  }

  lemma AfterThen(d: Disk, e: Effect, ws: seq<Disk>)
    requires !e.Wrote?
    ensures After(d, [e] + Writes(ws)) == Last(d, ws)
  {
    var es := [e] + Writes(ws);
    if ws == [] { assert es[..0] == []; } else { assert es[|es| - 1] == Wrote(ws[|ws| - 1]); }
  }

  lemma AfterWrites(d: Disk, ws: seq<Disk>)
    ensures After(d, Writes(ws)) == Last(d, ws)
  {
  }

  /** What an operation that did not refuse leaves of the journal. */
  lemma JournalAfter(h: Hasher, d: Disk, v: Invocation, handle: Handle)
    ensures var r := PrepareAttempt(h, d, v.identity, v.rollback, v.resume, v.startedAt, v.freshId);
            r.Ok? ==> (r.value.handle.alreadyCompleted <==> Last(d, r.value.writes).pending.None?)
    ensures var r := MarkBootstrapVerified(h, d, v.identity, handle); r.Ok? ==> Last(d, r.value).pending.Some?
    ensures var r := CompleteAttempt(h, d, v.identity, handle, v.completedAt); r.Ok? ==> Last(d, r.value).pending.None?
  {
    hide Accepted, Authorized, RecordSuccess, ValidIdentity, ReceiptCarries, ValidAttempt, Active, Sha;
  }

  // ----- writes that fail

  function WriteCount(es: seq<Effect>): nat {
    if es == [] then 0 else (if es[0].Wrote? then 1 else 0) + WriteCount(es[1..])
  }

  /** What is left of these effects when the medium fails a write: it stops before
      that write, or right after it when it failed although it had landed. */
  function Reached(es: seq<Effect>, f: Option<Failure>): seq<Effect> {
    if es == [] || f.None? then es
    else if !es[0].Wrote? then [es[0]] + Reached(es[1..], f)
    else if f.value.after == 0 then if f.value.lands then [es[0]] else []
    else [es[0]] + Reached(es[1..], OneLess(f))
  }

  function OneLess(f: Option<Failure>): Option<Failure> {
    if f.Some? && f.value.after > 0 then Some(Failure(f.value.after - 1, f.value.lands)) else f
  }

  /** A failing write ends an invocation as a crash at that point would. */
  lemma {:induction false} ReachedIsPrefix(es: seq<Effect>, f: Option<Failure>)
    ensures f.None? ==> Reached(es, f) == es
    ensures Reached(es, f) <= es && (!Raises(f, WriteCount(es)) ==> Reached(es, f) == es)
    decreases |es|
  {
    if es != [] && f.Some? {
      assert es == [es[0]] + es[1..];
      if !es[0].Wrote? {
        ReachedIsPrefix(es[1..], f);
      } else if f.value.after > 0 {
        ReachedIsPrefix(es[1..], OneLess(f));
      }
    }
  }

  /** The write that fails is the one that as many others precede, and it is kept
      exactly when it landed. */
  lemma {:induction false} FailureStopsAt(es: seq<Effect>, f: Option<Failure>) returns (n: nat)
    requires Raises(f, WriteCount(es))
    ensures n < |es| && es[n].Wrote? && WriteCount(es[..n]) == f.value.after
    ensures Reached(es, f) == es[..if f.value.lands then n + 1 else n]
    decreases |es|
  {
    var rest := es[1..];
    if es[0].Wrote? && f.value.after == 0 {
      n := 0;
    } else {
      var k := FailureStopsAt(rest, if es[0].Wrote? then OneLess(f) else f);
      n := k + 1;
      assert es[..n] == [es[0]] + rest[..k] && es[..n + 1] == [es[0]] + rest[..k + 1];
      ReachedCons(es[0], rest[..k], None);
    }
  }

  lemma {:induction false} CountUpTo(es: seq<Effect>, n: nat)
    requires n < |es| && es[n].Wrote?
    ensures WriteCount(es[..n]) < WriteCount(es)
    ensures forall m: nat :: m < |es| && es[m].Wrote? && WriteCount(es[..m]) == WriteCount(es[..n]) ==> m == n
    decreases |es|
  {
    var rest := es[1..];
    forall m: nat | 0 < m <= |es|
      ensures WriteCount(es[..m]) == (if es[0].Wrote? then 1 else 0) + WriteCount(rest[..m - 1])
    {
      assert es[..m] == [es[0]] + rest[..m - 1];
      ReachedCons(es[0], rest[..m - 1], None);
    }
    if n > 0 { CountUpTo(rest, n - 1); }
    forall m: nat | m < |es| && es[m].Wrote? && WriteCount(es[..m]) == WriteCount(es[..n]) ensures m == n {
      if 0 < m && 0 < n { assert rest[m - 1] == es[m]; }
    }
  }

  /** This failure leaves exactly `cut` of the effects. */
  predicate FailsTo(es: seq<Effect>, f: Option<Failure>, cut: seq<Effect>) {
    Raises(f, WriteCount(es)) && Reached(es, f) == cut
  }

  /** `cut` ends right before or right after the write at position `n`. */
  predicate StopsAt(es: seq<Effect>, n: nat, cut: seq<Effect>) {
    n < |es| && es[n].Wrote? && (cut == es[..n] || cut == es[..n + 1])
  }

  /** The failures are exactly the stops before and right after a write: each write
      of an invocation can fail, landed or not, and nothing else is cut off. */
  lemma FailuresAreExact(es: seq<Effect>, cut: seq<Effect>)
    ensures (exists f :: FailsTo(es, f, cut)) <==> (exists n: nat :: StopsAt(es, n, cut))
  {
    hide FailsTo, StopsAt;
    if f :| FailsTo(es, f, cut) {
      var n := FailureStops(es, f, cut);
    } else if n: nat :| StopsAt(es, n, cut) {
      var f := StopFails(es, n, cut);
    }
  }

  lemma FailureStops(es: seq<Effect>, f: Option<Failure>, cut: seq<Effect>) returns (n: nat)
    requires FailsTo(es, f, cut)
    ensures StopsAt(es, n, cut)
  {
    hide Reached, WriteCount, Raises;
    n := FailureStopsAt(es, f);
  }

  lemma StopFails(es: seq<Effect>, n: nat, cut: seq<Effect>) returns (f: Option<Failure>)
    requires StopsAt(es, n, cut)
    ensures FailsTo(es, f, cut)
  {
    hide Reached, WriteCount, Raises;
    var lands := cut == es[..n + 1];
    EveryWriteCanFail(es, n, lands);
    f := Some(Failure(WriteCount(es[..n]), lands));
  }

  /** Whichever write of an invocation it is, it can fail before or after it lands. */
  lemma EveryWriteCanFail(es: seq<Effect>, n: nat, lands: bool)
    requires n < |es| && es[n].Wrote?
    ensures var f := Some(Failure(WriteCount(es[..n]), lands));
            Raises(f, WriteCount(es)) && Reached(es, f) == es[..if lands then n + 1 else n]
  {
    hide Reached, WriteCount;
    var f := Some(Failure(WriteCount(es[..n]), lands));
    CountUpTo(es, n);
    var m := FailureStopsAt(es, f);
  }

  lemma ReachedCons(e: Effect, es: seq<Effect>, f: Option<Failure>)
    ensures WriteCount([e] + es) == (if e.Wrote? then 1 else 0) + WriteCount(es)
    ensures Reached([e] + es, f) ==
            if f.None? then [e] + es
            else if !e.Wrote? then [e] + Reached(es, f)
            else if f.value.after > 0 then [e] + Reached(es, OneLess(f))
            else if f.value.lands then [e] else []
  {
    assert ([e] + es)[1..] == es;
  }

  /** Effects in two goes, as `CarryConcat` has it of writes. */
  lemma {:induction false} ReachedConcat(a: seq<Effect>, b: seq<Effect>, f: Option<Failure>)
    ensures WriteCount(a + b) == WriteCount(a) + WriteCount(b)
    ensures Reached(a + b, f) ==
            if Raises(f, WriteCount(a)) then Reached(a, f) else a + Reached(b, Left(f, WriteCount(a)))
    decreases |a|
  {
    hide Reached, WriteCount, Raises, Left;
    if a == [] {
      assert a + b == b && WriteCount(a) == 0 by { NoWrites(); }
      OneFewer(f, false, 0);
      NothingLost(f);
    } else {
      var e, rest := a[0], a[1..];
      assert a == [e] + rest && a + b == [e] + (rest + b);
      ReachedCons(e, rest, f);
      ReachedCons(e, rest + b, f);
      var g := if e.Wrote? then OneLess(f) else f;
      ReachedConcat(rest, b, g);
      OneFewer(f, e.Wrote?, WriteCount(rest));
      assert [e] + (rest + Reached(b, Left(g, WriteCount(rest)))) == a + Reached(b, Left(g, WriteCount(rest)));
      if f.None? {
        ReachedIsPrefix(b, f);
        assert [e] + (rest + b) == a + b;
      }
    }
  }

  /** The medium after one effect, and after the others. */
  lemma OneFewer(f: Option<Failure>, wrote: bool, m: nat)
    ensures var g := if wrote then OneLess(f) else f;
            var n := (if wrote then 1 else 0) + m;
            && (Raises(f, n) <==> (wrote && f.Some? && f.value.after == 0) || Raises(g, m))
            && (!Raises(f, n) ==> Left(g, m) == Left(f, n))
            && (f.None? ==> !Raises(f, n) && Left(f, n).None?)
  {
  }

  lemma NoWrites()
    ensures WriteCount([]) == 0
  {
  }

  /** Writes alone are cut as the medium carries them out. */
  lemma {:induction false} ReachedWrites(ws: seq<Disk>, f: Option<Failure>)
    ensures WriteCount(Writes(ws)) == |ws| && Reached(Writes(ws), f) == Writes(ws[..Landing(f, |ws|)])
    decreases |ws|
  {
    if ws != [] {
      var rest := Writes(ws[1..]);
      assert Writes(ws) == [Wrote(ws[0])] + rest;
      ReachedCons(Wrote(ws[0]), rest, f);
      ReachedWrites(ws[1..], OneLess(f));
      assert ws == [ws[0]] + ws[1..];
    }
  }

  /** One check followed by the writes it allows, on a medium that may fail. */
  lemma CheckThenWrites(m: Medium, e: Effect, ws: seq<Disk>)
    requires !e.Wrote?
    ensures var es := [e] + Writes(ws);
            && WriteCount(es) == |ws| && Carry(m, ws).failure == Left(m.failure, |ws|)
            && Reached(es, m.failure) == [e] + Writes(ws[..Landing(m.failure, |ws|)])
            && After(m.disk, Reached(es, m.failure)) == Carry(m, ws).disk
  {
    hide Reached, WriteCount, After;
    ReachedCons(e, Writes(ws), m.failure);
    ReachedWrites(ws, m.failure);
    AfterThen(m.disk, e, ws[..Landing(m.failure, |ws|)]);
    if m.failure.None? { assert ws[..|ws|] == ws; }
  }

  lemma CheckAlone(m: Medium, e: Effect)
    requires !e.Wrote?
    ensures Reached([e], m.failure) == [e] && WriteCount([e]) == 0 && After(m.disk, [e]) == m.disk
    ensures Left(m.failure, 0) == m.failure && !Raises(m.failure, 0)
  {
    CheckThenWrites(m, e, []);
    assert [e] + Writes([]) == [e];
  }

  /** However far it gets, marking leaves a journal. */
  lemma MarkingKeepsJournal(h: Hasher, m: Medium, id: Identity, handle: Handle)
    requires MarkBootstrapVerified(h, m.disk, id, handle).Ok?
    ensures Carry(m, MarkBootstrapVerified(h, m.disk, id, handle).value).disk.pending.Some?
  {
    hide Accepted, ValidIdentity;
  }

  // ----- the driver itself

  method RunCommand(state: LockedDeploymentState, v: Invocation, handle: Handle, step: Step, passes: bool)
    returns (ok: bool, ghost es: seq<Effect>)
    modifies state
    ensures var spec := CommandEffects(state.hash, old(state.State()), v, handle, step, passes);
            && es == Reached(spec, old(state.failure)) &&
               state.failure == Left(old(state.failure), WriteCount(spec))
            && (ok <==> CommandPasses(state.hash, old(state.State()), v, handle, step, passes) &&
                        !Raises(old(state.failure), WriteCount(spec)))
    ensures state.State() == After(old(state.State()), es)
    ensures old(state.attempt).Some? ==> state.attempt.Some?
  {
    hide MarkBootstrapVerified, After, Reached, Carry, Raises, WriteCount;
    ghost var m := state.Now();
    es := [Ran(handle.attemptId, step, passes)];
    CheckAlone(m, es[0]);
    assert es + [] == es;
    ok := passes;
    if passes && HasCheckpoint(step) {
      ghost var marked := MarkBootstrapVerified(state.hash, m.disk, v.identity, handle);
      var r := state.MarkInitialBootstrapVerified(v.identity, handle);
      ok := r.Ok?;
      if marked.Ok? {
        CheckThenWrites(m, es[0], marked.value);
        MarkingKeepsJournal(state.hash, m, v.identity, handle);
        es := Reached(es + Writes(marked.value), m.failure);
      }
    }
  }

  method Close(state: LockedDeploymentState, v: Invocation, handle: Handle) returns (ok: bool, ghost es: seq<Effect>)
    modifies state
    ensures var spec := ClosingEffects(state.hash, old(state.State()), v, handle);
            && es == Reached(spec, old(state.failure)) &&
               state.failure == Left(old(state.failure), WriteCount(spec))
            && (old(state.attempt).Some? ==>
                  (ok <==> state.attempt.None? && !Raises(old(state.failure), WriteCount(spec))))
    ensures state.State() == After(old(state.State()), es)
  {
    hide CompleteAttempt, After, Good, Open, Reached, Carry, Raises, WriteCount;
    ghost var m := state.Now();
    JournalAfter(state.hash, m.disk, v, handle);
    es := [Smoked(handle.attemptId, v.smokePasses)];
    CheckAlone(m, es[0]);
    assert es + [] == es;
    if !v.smokePasses { return false, es; }
    ghost var completed := DeploymentState.CompleteAttempt(state.hash, m.disk, v.identity, handle, v.completedAt);
    var r := state.CompleteAttempt(v.identity, handle, v.completedAt);
    ok := r.Ok?;
    if completed.Ok? {
      CheckThenWrites(m, es[0], completed.value);
      AllLand(m, completed.value);
      es := Reached(es + Writes(completed.value), m.failure);
    }
  }

  /** Run the commands in order, recording the checkpoint and committing at the
      end. A failed command, check or write ends it there. */
  method RunGuardedRollout(state: LockedDeploymentState, v: Invocation, handle: Handle)
    returns (ok: bool, ghost es: seq<Effect>)
    modifies state
    ensures var spec := RolloutEffects(state.hash, old(state.State()), v, handle);
            && es == Reached(spec, old(state.failure))
            && (old(state.attempt).Some? ==>
                  (ok <==> state.attempt.None? && !Raises(old(state.failure), WriteCount(spec))))
    ensures state.State() == After(old(state.State()), es)
  {
    hide CommandEffects, CommandPasses, ClosingEffects, RolloutSteps, Reached, WriteCount, After, Raises, Left;
    es := [];
    ghost var d, f := state.State(), state.failure;
    NothingDone(d, f);
    var steps := RolloutSteps(handle.initialDeployment, handle.phase == InitialBootstrapVerified);
    if steps.None? || !v.environmentValid { return false, es; }
    ghost var more, rest;
    var k := 0;
    while k < |steps.value|
      invariant k <= |steps.value| && state.State() == After(d, es)
      invariant d.pending.Some? ==> state.attempt.Some?
      invariant !Raises(f, WriteCount(es)) && state.failure == Left(f, WriteCount(es))
      invariant StepEffects(state.hash, d, v, handle, steps.value, 0)
             == es + StepEffects(state.hash, state.State(), v, handle, steps.value, k)
    {
      ghost var spec := CommandEffects(state.hash, state.State(), v, handle, steps.value[k], k < v.passing);
      rest := if CommandPasses(state.hash, state.State(), v, handle, steps.value[k], k < v.passing)
              then StepEffects(state.hash, After(state.State(), spec), v, handle, steps.value, k + 1) else [];
      TwoGoes(es, spec, rest, f);
      ok, more := RunCommand(state, v, handle, steps.value[k], k < v.passing);
      AfterConcat(d, es, more);
      ReachedIsPrefix(spec, Left(f, WriteCount(es)));
      if !ok {
        es := es + more;
        return;
      }
      es := es + spec;
      k := k + 1;
    }
    ghost var spec := ClosingEffects(state.hash, state.State(), v, handle);
    TwoGoes(es, spec, [], f);
    ok, more := Close(state, v, handle);
    AfterConcat(d, es, more);
    es := es + more;
  }

  /** Two portions of effects after some that went well. */
  lemma TwoGoes(done: seq<Effect>, spec: seq<Effect>, rest: seq<Effect>, f: Option<Failure>)
    requires !Raises(f, WriteCount(done))
    ensures var g := Left(f, WriteCount(done));
            && (Raises(g, WriteCount(spec)) ==>
                  Reached(done + (spec + rest), f) == done + Reached(spec, g) &&
                    Raises(f, WriteCount(done + (spec + rest))))
            && Reached(done + spec, f) == done + Reached(spec, g)
            && (Raises(f, WriteCount(done + spec)) <==> Raises(g, WriteCount(spec)))
            && (!Raises(g, WriteCount(spec)) ==> Left(f, WriteCount(done + spec)) == Left(g, WriteCount(spec)))
            && done + (spec + rest) == (done + spec) + rest && spec + [] == spec
  {
    hide Reached, WriteCount;
    ReachedConcat(done, spec, f);
    ReachedConcat(done, spec + rest, f);
    ReachedConcat(spec, rest, Left(f, WriteCount(done)));
  }

  lemma NothingLost(f: Option<Failure>)
    ensures !Raises(f, 0) && Left(f, 0) == f
  {
  }

  lemma NothingDone(d: Disk, f: Option<Failure>)
    ensures After(d, []) == d && WriteCount([]) == 0 && Reached([], f) == [] && Left(f, 0) == f
    ensures forall g :: !Raises(g, 0)
  {
  }

  /** One serialized invocation under the lock. What it does is what `Effects`
      says, up to the first write that fails. It reports success exactly when an
      attempt was opened or resumed, no write failed and no journal is left. */
  method VerifyAndDeploy(state: LockedDeploymentState, v: Invocation) returns (ok: bool, ghost es: seq<Effect>)
    modifies state
    ensures es == Reached(Effects(state.hash, old(state.State()), v), old(state.failure))
    ensures state.State() == After(old(state.State()), es)
    ensures ok <==>
              && old(Accepted(state.hash, state.State())) && v.gatesPass && state.attempt.None?
              && !Raises(old(state.failure), WriteCount(Effects(state.hash, old(state.State()), v)))
              && old(PrepareAttempt(state.hash, state.State(), v.identity, v.rollback, v.resume, v.startedAt,
                                    v.freshId)).Ok?
  {
    hide Accepted, PrepareAttempt, RolloutEffects, Reached, WriteCount, After, Raises, Left, Carry;
    es := [];
    ghost var m := state.Now();
    NothingDone(m.disk, m.failure);
    if !Accepted(state.hash, state.State()) || !v.gatesPass { return false, es; }
    ghost var spec := PrepareAttempt(state.hash, m.disk, v.identity, v.rollback, v.resume, v.startedAt, v.freshId);
    var handle := state.PrepareAttempt(v.identity, v.rollback, v.resume, v.startedAt, v.freshId);
    if spec.Ok? {
      ghost var ws, given := spec.value.writes, spec.value.handle;
      JournalAfter(state.hash, m.disk, v, given);
      OpeningThen(m, ws, if given.alreadyCompleted then [] else RolloutEffects(state.hash, Last(m.disk, ws), v, given));
      es := Reached(Writes(ws), m.failure);
    }
    if handle.Err? { return false, es; }
    if handle.value.alreadyCompleted { return true, es; }
    ghost var rest;
    ok, rest := RunGuardedRollout(state, v, handle.value);
    AfterConcat(m.disk, es, rest);
    es := es + rest;
  }

  /** The opening's writes and whatever follows them. */
  lemma OpeningThen(m: Medium, ws: seq<Disk>, after: seq<Effect>)
    ensures After(m.disk, Reached(Writes(ws), m.failure)) == Carry(m, ws).disk
    ensures !Raises(m.failure, |ws|) ==>
              && Carry(m, ws).disk == Last(m.disk, ws)
              && Reached(Writes(ws) + after, m.failure) ==
                 Reached(Writes(ws), m.failure) + Reached(after, Carry(m, ws).failure)
              && (Raises(m.failure, WriteCount(Writes(ws) + after)) <==>
                  Raises(Carry(m, ws).failure, WriteCount(after)))
    ensures Raises(m.failure, |ws|) ==>
              && Reached(Writes(ws) + after, m.failure) == Reached(Writes(ws), m.failure)
              && Raises(m.failure, WriteCount(Writes(ws) + after))
    ensures Writes(ws) + [] == Writes(ws)
  {
    hide Reached, WriteCount, After;
    ReachedWrites(ws, m.failure);
    AfterWrites(m.disk, ws[..Landing(m.failure, |ws|)]);
    ReachedConcat(Writes(ws), after, m.failure);
    ReachedIsPrefix(Writes(ws), m.failure);
    AllLand(m, ws);
  }
}
