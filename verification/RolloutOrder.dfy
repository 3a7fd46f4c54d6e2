/** What an invocation has run by the time it activates anything: the order of the
    commands, stated of whole runs and command by command. */
module RolloutOrder {
  import opened Text
  import opened Release
  import opened DeploymentState
  import opened DeploymentSafety
  import opened RolloutDriver
  import opened RolloutHistory
  import opened RolloutOutcomes

  function AttemptOf(e: Effect): string
    requires !e.Wrote?
  {
    e.attemptId
  }

  /** By `e`, the action after those of `before`, the commands `steps` of its attempt
      have been run up to it, all passing. */
  predicate Follows(before: seq<Effect>, e: Effect, steps: seq<Step>, m: nat) {
    && m <= |steps| && !e.Wrote? && before == Passing(AttemptOf(e), steps[..m])
    && (if m < |steps| then e.Ran? && e.step == steps[m] else e.Smoked?)
  }

  /** The action at `n` of a rollout from step `k` on comes right after the passing
      commands from `k` to it. */
  lemma {:induction false} ActionInSteps(
    h: Hasher, d: Disk, v: Invocation, handle: Handle, steps: seq<Step>, k: nat, n: nat) returns (m: nat)
    requires k <= |steps| && n < |StepEffects(h, d, v, handle, steps, k)|
    requires !StepEffects(h, d, v, handle, steps, k)[n].Wrote?
    ensures var es := StepEffects(h, d, v, handle, steps, k);
            && k <= m <= |steps| && Actions(es[..n]) == Passing(handle.attemptId, steps[k..m])
            && (if m < |steps| then es[n] == Ran(handle.attemptId, steps[m], m < v.passing)
                else es[n] == Smoked(handle.attemptId, v.smokePasses))
    decreases |steps| - k
  {
    hide StepEffects, Actions, After, MarkBootstrapVerified, CompleteAttempt;
    StepUnfolds(h, d, v, handle, steps, k);
    NoActions();
    var es := StepEffects(h, d, v, handle, steps, k);
    if n == 0 {
      m := k;
      assert steps[k..k] == [] && es[..0] == [];
    } else {
      var first := CommandEffects(h, d, v, handle, steps[k], k < v.passing);
      var rest := StepEffects(h, After(d, first), v, handle, steps, k + 1);
      OneAction(first);
      assert es == first + rest && n >= |first|;
      m := ActionInSteps(h, After(d, first), v, handle, steps, k + 1, n - |first|);
      assert es[..n] == first + rest[..n - |first|];
      ActionsConcat(first, rest[..n - |first|]);
      assert Passing(handle.attemptId, steps[k..m]) == [first[0]] + Passing(handle.attemptId, steps[k + 1..m]);
    }
  }

  lemma NoActions()
    ensures Actions([]) == []
  {
  }

  lemma OneAction(es: seq<Effect>)
    requires es != [] && !es[0].Wrote? && forall i :: 1 <= i < |es| ==> es[i].Wrote?
    ensures Actions(es) == [es[0]]
  {
    WritesAreNoActions(es[1..]);
  }

  /** An upgrade: backed up, drilled and rehearsed before any service changes. */
  const UPGRADE := [ComposeConfiguration, ContainerPreflight, AlertmanagerConfiguration,
                    PreRolloutBackup, PreRolloutRestoreDrill, ImagePull, MigrationRehearsal, ServiceActivation,
                    PostActivationBackup, PostActivationRestoreDrill, ExternalRecoveryPoint,
                    RecoveryExporterActivation, MonitoringSmoke, NotificationDrill]

  /** A first deployment: the empty volume verified before anything is activated. */
  function FirstDeployment(bootstrap: Step): seq<Step> {
    [ComposeConfiguration, ContainerPreflight, AlertmanagerConfiguration, ImagePull, bootstrap, InitialActivation,
     InitialBackup, InitialRestoreDrill, InitialMigrationVerification, OperationalActivation,
     PostActivationBackup, PostActivationRestoreDrill, ExternalRecoveryPoint,
     RecoveryExporterActivation, MonitoringSmoke, NotificationDrill]
  }

  /** The journal a session starts from carries the checkpoint; a journal of the
      first schema, which has no phase, does not. */
  predicate Checkpointed(d: Disk) { d.pending.Some? && d.pending.value.rollout == Some(InitialBootstrapVerified) }

  /** The commands a session on this state is due to run. */
  function Due(d: Disk): seq<Step> {
    if d.receipt.Some? then UPGRADE
    else FirstDeployment(if Checkpointed(d) then BootstrapResumed else BootstrapFresh)
  }

  /** Every command or check of an invocation comes right after the commands due
      before it, each of which passed. */
  lemma ActionIsDue(h: Hasher, d: Disk, v: Invocation, n: nat) returns (m: nat)
    requires Good(h, d) && (d.pending.None? ==> Fresh(d, v.freshId))
    requires n < |Effects(h, d, v)| && !Effects(h, d, v)[n].Wrote?
    ensures var es := Effects(h, d, v); Follows(Actions(es[..n]), es[n], Due(d), m)
    ensures var es := Effects(h, d, v);
            if m < |Due(d)| then es[n] == Ran(AttemptOf(es[n]), Due(d)[m], m < v.passing)
            else es[n] == Smoked(AttemptOf(es[n]), v.smokePasses)
  {
    hide PrepareAttempt, RolloutEffects, StepEffects, Effects, Good, Fresh, Actions, AtStep, RolloutSteps;
    var es := Effects(h, d, v);
    ActionComesAfterOpening(h, d, v, n);
    Opened(h, d, v);
    var opening := PrepareAttempt(h, d, v.identity, v.rollback, v.resume, v.startedAt, v.freshId).value;
    var handle, d1, k := opening.handle, Last(d, opening.writes), |opening.writes|;
    var steps := RolloutSteps(handle.initialDeployment, handle.phase == InitialBootstrapVerified).value;
    StepsAreDue(h, d, v);
    RolloutIsSteps(h, d1, v, handle, n - k);
    var rest := RolloutEffects(h, d1, v, handle);
    m := ActionInSteps(h, d1, v, handle, steps, 0, n - k);
    assert es[n] == rest[n - k] && es[..n] == Writes(opening.writes) + rest[..n - k];
    ActionsConcat(Writes(opening.writes), rest[..n - k]);
    WritesAreNoActions(Writes(opening.writes));
    assert steps[0..m] == steps[..m];
  }

  lemma ActionComesAfterOpening(h: Hasher, d: Disk, v: Invocation, n: nat)
    requires n < |Effects(h, d, v)| && !Effects(h, d, v)[n].Wrote?
    ensures var r := PrepareAttempt(h, d, v.identity, v.rollback, v.resume, v.startedAt, v.freshId);
            r.Ok? && !r.value.handle.alreadyCompleted && v.gatesPass && n >= |r.value.writes|
  {
    hide PrepareAttempt, RolloutEffects, Accepted;
  }

  lemma RolloutIsSteps(h: Hasher, d: Disk, v: Invocation, handle: Handle, n: nat)
    requires n < |RolloutEffects(h, d, v, handle)|
    ensures var steps := RolloutSteps(handle.initialDeployment, handle.phase == InitialBootstrapVerified);
            steps.Some? && RolloutEffects(h, d, v, handle) == StepEffects(h, d, v, handle, steps.value, 0)
  {
    hide StepEffects, RolloutSteps;
  }

  lemma StepsAreDue(h: Hasher, d: Disk, v: Invocation)
    requires Good(h, d) && (d.pending.None? ==> Fresh(d, v.freshId))
    requires var r := PrepareAttempt(h, d, v.identity, v.rollback, v.resume, v.startedAt, v.freshId);
             r.Ok? && !r.value.handle.alreadyCompleted
    ensures var handle := PrepareAttempt(h, d, v.identity, v.rollback, v.resume, v.startedAt, v.freshId).value.handle;
            RolloutSteps(handle.initialDeployment, handle.phase == InitialBootstrapVerified) == Some(Due(d))
  {
    hide ValidLedger, ReleaseVersion, IsLowerHex, Newer, RolloutSteps;
    PrepareIsSafe(h, d, v.identity, v.rollback, v.resume, v.startedAt, v.freshId);
    var r := PrepareAttempt(h, d, v.identity, v.rollback, v.resume, v.startedAt, v.freshId);
    var handle := r.value.handle;
    assert handle.initialDeployment == d.receipt.None?;
    assert d.receipt.None? ==> (handle.phase == InitialBootstrapVerified <==> Checkpointed(d));
    assert d.receipt.Some? ==> handle.phase == Prepared;
    StepLists();
  }

  lemma StepLists()
    ensures RolloutSteps(false, false) == Some(UPGRADE)
    ensures RolloutSteps(true, false) == Some(FirstDeployment(BootstrapFresh))
    ensures RolloutSteps(true, true) == Some(FirstDeployment(BootstrapResumed))
  {
    assert RolloutSteps(false, false).value == UPGRADE;
    assert RolloutSteps(true, false).value == FirstDeployment(BootstrapFresh);
    assert RolloutSteps(true, true).value == FirstDeployment(BootstrapResumed);
  }

  // ----- whole runs

  /** Session `i` of the run did the effect at `n`, and began at `start`. */
  predicate InSession(h: Hasher, d: Disk, run: seq<Session>, i: nat, start: nat, n: nat) {
    && i < |run| && start == |History(h, d, run[..i])| <= n < |History(h, d, run[..i + 1])|
    && |History(h, d, run[..i + 1])| <= |History(h, d, run)|
  }

  lemma {:induction false} SessionOf(h: Hasher, d: Disk, run: seq<Session>, n: nat) returns (i: nat, start: nat)
    requires n < |History(h, d, run)|
    ensures InSession(h, d, run, i, start, n)
    ensures History(h, d, run)[..start] == History(h, d, run[..i])
    ensures var es := Effects(h, After(d, History(h, d, run[..i])), run[i].v);
            && n - start < |es| && History(h, d, run)[n] == es[n - start]
            && History(h, d, run)[start..n] == es[..n - start]
  {
    hide Effects, After, History;
    var k := |run| - 1;
    HistoryUnfolds(h, d, run);
    var before := History(h, d, run[..k]);
    var done := Truncated(Effects(h, After(d, before), run[k].v), run[k].cut);
    assert run[..k + 1] == run;
    if n >= |before| {
      i, start := k, |before|;
      LaterPart(before, done, n);
    } else {
      i, start := SessionOf(h, d, run[..k], n);
      assert run[..k][..i] == run[..i] && run[..k][..i + 1] == run[..i + 1];
      EarlierPart(before, done, start, n);
    }
  }

  lemma HistoryUnfolds(h: Hasher, d: Disk, run: seq<Session>)
    ensures run == [] ==> History(h, d, run) == []
    ensures run != [] ==>
              var before := History(h, d, run[..|run| - 1]);
              var last := run[|run| - 1];
              History(h, d, run) == before + Truncated(Effects(h, After(d, before), last.v), last.cut)
  {
    hide Effects, After, Truncated;
  }

  lemma LaterPart(a: seq<Effect>, b: seq<Effect>, n: nat)
    requires |a| <= n < |a + b|
    ensures (a + b)[n] == b[n - |a|] && (a + b)[|a|..n] == b[..n - |a|] && (a + b)[..|a|] == a
  {
  }

  lemma EarlierPart(a: seq<Effect>, b: seq<Effect>, start: nat, n: nat)
    requires start <= n < |a|
    ensures (a + b)[n] == a[n] && (a + b)[start..n] == a[start..n] && (a + b)[..start] == a[..start]
  {
  }

  lemma {:induction false} FreshUpTo(h: Hasher, d: Disk, run: seq<Session>, i: nat)
    requires FreshIds(h, d, run) && i < |run|
    ensures FreshIds(h, d, run[..i])
    ensures var start := After(d, History(h, d, run[..i])); start.pending.None? ==> Fresh(start, run[i].v.freshId)
    decreases |run|
  {
    hide History, After, Fresh;
    if i < |run| - 1 {
      FreshUpTo(h, d, run[..|run| - 1], i);
      assert run[..|run| - 1][..i] == run[..i];
    }
  }

  /** In any run, every command and check comes right after the commands due before
      it in its session, all passing in that same session and attempt. */
  lemma ActionIsDueInRun(h: Hasher, d: Disk, run: seq<Session>, n: nat) returns (i: nat, start: nat, m: nat)
    requires Good(h, d) && FreshIds(h, d, run)
    requires n < |History(h, d, run)| && !History(h, d, run)[n].Wrote?
    ensures InSession(h, d, run, i, start, n)
    ensures var es := History(h, d, run); Follows(Actions(es[start..n]), es[n], Due(After(d, es[..start])), m)
  {
    hide Good, Effects, After, History, Follows, LegalFrom, Due, Actions, Fresh;
    i, start := SessionOf(h, d, run, n);
    FreshUpTo(h, d, run, i);
    var d0 := After(d, History(h, d, run[..i]));
    HistoryIsLegal(h, d, run[..i]);
    LegalState(h, None, d, History(h, d, run[..i]));
    m := ActionIsDue(h, d0, run[i].v, n - start);
  }

  /** From `start` to `n` exactly these commands ran, in this order, all passing for
      the attempt of the effect at `n`. */
  predicate Preceded(es: seq<Effect>, start: nat, n: nat, steps: seq<Step>) {
    start <= n < |es| && !es[n].Wrote? && Actions(es[start..n]) == Passing(AttemptOf(es[n]), steps)
  }

  /** No service of an active release changes before its database was backed up,
      the backup restored, the images pulled and the migration rehearsed, in the
      same session. */
  lemma ServiceActivationOrder(h: Hasher, d: Disk, run: seq<Session>, n: nat) returns (i: nat, start: nat)
    requires Good(h, d) && FreshIds(h, d, run) && n < |History(h, d, run)|
    requires History(h, d, run)[n].Ran? && History(h, d, run)[n].step == ServiceActivation
    ensures InSession(h, d, run, i, start, n)
    ensures Preceded(History(h, d, run), start, n,
                     [ComposeConfiguration, ContainerPreflight, AlertmanagerConfiguration,
                      PreRolloutBackup, PreRolloutRestoreDrill, ImagePull, MigrationRehearsal])
  {
    hide Good, FreshIds, History, Actions;
    var m;
    i, start, m := ActionIsDueInRun(h, d, run, n);
    var d0 := After(d, History(h, d, run)[..start]);
    DuePositions(d0, m);
    assert Due(d0)[..m] == [ComposeConfiguration, ContainerPreflight, AlertmanagerConfiguration,
                            PreRolloutBackup, PreRolloutRestoreDrill, ImagePull, MigrationRehearsal];
  }

  /** Where the activations stand. */
  lemma DuePositions(d: Disk, m: nat)
    requires m < |Due(d)|
    ensures Due(d)[m] == ServiceActivation ==> m == 7 && d.receipt.Some?
    ensures Due(d)[m] == InitialActivation ==> m == 5 && d.receipt.None?
    ensures Due(d)[m] == OperationalActivation ==> m == 9 && d.receipt.None?
  {
  }

  /** The first deployment is activated with an empty or verified volume only: by
      the fresh bootstrap, unless the journal the session found carries the
      checkpoint. */
  lemma InitialActivationOrder(h: Hasher, d: Disk, run: seq<Session>, n: nat) returns (i: nat, start: nat)
    requires Good(h, d) && FreshIds(h, d, run) && n < |History(h, d, run)|
    requires History(h, d, run)[n].Ran? && History(h, d, run)[n].step == InitialActivation
    ensures InSession(h, d, run, i, start, n)
    ensures Preceded(History(h, d, run), start, n,
                     [ComposeConfiguration, ContainerPreflight, AlertmanagerConfiguration, ImagePull,
                      if Checkpointed(After(d, History(h, d, run)[..start])) then BootstrapResumed else BootstrapFresh])
  {
    hide Good, FreshIds, History, Actions;
    var m;
    i, start, m := ActionIsDueInRun(h, d, run, n);
    var d0 := After(d, History(h, d, run)[..start]);
    DuePositions(d0, m);
    assert Due(d0)[..m] == [ComposeConfiguration, ContainerPreflight, AlertmanagerConfiguration, ImagePull,
                            if Checkpointed(d0) then BootstrapResumed else BootstrapFresh];
  }

  /** It goes operational only once its backup was taken and restored and its
      migration verified. */
  lemma OperationalActivationOrder(h: Hasher, d: Disk, run: seq<Session>, n: nat) returns (i: nat, start: nat)
    requires Good(h, d) && FreshIds(h, d, run) && n < |History(h, d, run)|
    requires History(h, d, run)[n].Ran? && History(h, d, run)[n].step == OperationalActivation
    ensures InSession(h, d, run, i, start, n)
    ensures Preceded(History(h, d, run), start, n,
                     [ComposeConfiguration, ContainerPreflight, AlertmanagerConfiguration, ImagePull,
                      if Checkpointed(After(d, History(h, d, run)[..start])) then BootstrapResumed else BootstrapFresh,
                      InitialActivation, InitialBackup, InitialRestoreDrill, InitialMigrationVerification])
  {
    hide Good, FreshIds, History, Actions;
    var m;
    i, start, m := ActionIsDueInRun(h, d, run, n);
    var d0 := After(d, History(h, d, run)[..start]);
    DuePositions(d0, m);
    assert Due(d0)[..m] ==
           [ComposeConfiguration, ContainerPreflight, AlertmanagerConfiguration, ImagePull,
            if Checkpointed(d0) then BootstrapResumed else BootstrapFresh,
            InitialActivation, InitialBackup, InitialRestoreDrill, InitialMigrationVerification];
  }

  const CLOSED := [PostActivationBackup, PostActivationRestoreDrill, ExternalRecoveryPoint, RecoveryExporterActivation,
                   MonitoringSmoke, NotificationDrill]

  /** The closing commands come after the activation, in this order, and the smoke
      check after all of them: the session has run the whole rollout of its kind. */
  lemma SmokeComesLast(h: Hasher, d: Disk, run: seq<Session>, n: nat) returns (i: nat, start: nat)
    requires Good(h, d) && FreshIds(h, d, run) && n < |History(h, d, run)| && History(h, d, run)[n].Smoked?
    ensures InSession(h, d, run, i, start, n)
    ensures var d0 := After(d, History(h, d, run)[..start]);
            Preceded(History(h, d, run), start, n,
                     (if d0.receipt.Some? then
                        [ComposeConfiguration, ContainerPreflight, AlertmanagerConfiguration, PreRolloutBackup,
                         PreRolloutRestoreDrill, ImagePull, MigrationRehearsal, ServiceActivation]
                      else
                        [ComposeConfiguration, ContainerPreflight, AlertmanagerConfiguration, ImagePull,
                         if Checkpointed(d0) then BootstrapResumed else BootstrapFresh, InitialActivation,
                         InitialBackup, InitialRestoreDrill, InitialMigrationVerification, OperationalActivation]) +
                     CLOSED)
  {
    hide Good, FreshIds, History, Actions;
    var m;
    i, start, m := ActionIsDueInRun(h, d, run, n);
    var d0 := After(d, History(h, d, run)[..start]);
    assert m == |Due(d0)| && Due(d0)[..m] == Due(d0);
  }

  /** A closing command comes after the activation of its session. */
  lemma ClosingComesAfterActivation(h: Hasher, d: Disk, run: seq<Session>, n: nat) returns (i: nat, start: nat, a: nat)
    requires Good(h, d) && FreshIds(h, d, run) && n < |History(h, d, run)|
    requires History(h, d, run)[n].Ran? && History(h, d, run)[n].step in CLOSED
    ensures InSession(h, d, run, i, start, n) && start <= a < n
    ensures var es := History(h, d, run);
            var id := es[n].attemptId;
            es[a] == Ran(id, ServiceActivation, true) || es[a] == Ran(id, OperationalActivation, true)
  {
    hide Good, FreshIds, History, Actions;
    var m;
    i, start, m := ActionIsDueInRun(h, d, run, n);
    var es, d0 := History(h, d, run), After(d, History(h, d, run)[..start]);
    var k := ClosingPosition(d0, m);
    hide Due, Follows, After;
    var j := DoneBefore(es[start..n], es[n], Due(d0), m, k);
    a := start + j;
  }

  lemma DoneBefore(es: seq<Effect>, e: Effect, steps: seq<Step>, m: nat, k: nat) returns (j: nat)
    requires Follows(Actions(es), e, steps, m) && k < m
    ensures m <= |steps| && !e.Wrote? && j < |es| && es[j] == Ran(AttemptOf(e), steps[k], true)
  {
    hide Actions;
    assert Actions(es)[k] == Ran(AttemptOf(e), steps[k], true);
    j := ActionIsThere(es, Ran(AttemptOf(e), steps[k], true));
  }

  lemma ClosingPosition(d: Disk, m: nat) returns (k: nat)
    requires m < |Due(d)| && Due(d)[m] in CLOSED
    ensures k < m && (Due(d)[k] == ServiceActivation || Due(d)[k] == OperationalActivation)
  {
    k := if d.receipt.Some? then 7 else 9;
  }

  lemma {:induction false} ActionIsThere(es: seq<Effect>, e: Effect) returns (j: nat)
    requires e in Actions(es)
    ensures j < |es| && es[j] == e
    decreases |es|
  {
    if es[0] == e {
      j := 0;
    } else {
      j := ActionIsThere(es[1..], e);
      j := j + 1;
    }
  }
}
