/** The recovery-point directory under its lock, updated entry by entry. */
module RecoveryDirectory {
  import opened Text
  import opened RecoveryPoint
  import opened RecoveryCreation

  class Directory {
    const tools: Tools
    var points: seq<Entry>
    var health: Option<Health>
    var staging: Option<StagingDirectory>
    /** The durable state after each write. */
    ghost var states: seq<Root>

    function State(): Root
      reads this
    {
      Root(points, health, staging)
    }

    constructor (t: Tools, root: Root)
      ensures tools == t && State() == root && states == []
    {
      tools, points, health, staging, states := t, root.points, root.health, root.staging, [];
    }

    method WritePoints(es: seq<Entry>)
      modifies this
      ensures State() == old(State()).(points := es) && states == old(states) + [State()]
    {
      points := es;
      states := states + [State()];
    }

    method WriteStaging(d: Option<StagingDirectory>)
      modifies this
      ensures State() == old(State()).(staging := d) && states == old(states) + [State()]
    {
      staging := d;
      states := states + [State()];
    }

    /** Refuse a creation whose retention could not be completed: each point it
        will expire has to verify now. */
    method PreflightRetention(retention: nat) returns (ok: bool)
      requires retention >= 2
      ensures ok == AllVerified(tools, Expiring(points, retention))
    {
      hide Verified;
      var expiring := Expiring(points, retention);
      for k := 0 to |expiring|
        invariant AllVerified(tools, expiring[..k])
      {
        if !Verified(tools, expiring[k].point) { return false; }
      }
      assert expiring[..|expiring|] == expiring;
      ok := true;
    }

    /** Three unlinks and an rmdir, up to the first that fails. */
    method RemovePoint(name: string, p: Point, allowed: Option<nat>) returns (ok: bool)
      modifies this
      ensures ok <==> allowed.None? || allowed.value >= 4
      ensures var all := RemovalStates(old(State()), name, p);
              var steps := if ok then all else all[..allowed.value];
              State() == LastRoot(old(State()), steps) && states == old(states) + steps
    {
      var before := points;
      ok := false;
      if allowed == Some(0) { return; }
      WritePoints(SetPoint(before, name, p.(manifest := None)));
      if allowed == Some(1) { return; }
      WritePoints(SetPoint(before, name, p.(manifest := None, database := None)));
      if allowed == Some(2) { return; }
      WritePoints(SetPoint(before, name, EMPTY_POINT));
      if allowed == Some(3) { return; }
      WritePoints(Without(before, name));
      ok := true;
    }

    /** Remove everything but the protected point and the newest others that fit;
        `fails` calls go well before one does not, when it is given. */
    method ApplyRetention(retention: nat, protectedName: string, fails: Option<nat>) returns (ok: bool)
      requires retention >= 2
      modifies this
      ensures old(Lookup(points, protectedName)).None? ==> !ok && State() == old(State()) && states == old(states)
      ensures old(Lookup(points, protectedName)).Some? ==>
                var run := Hindered(Retain(tools, old(State()), Expired(old(points), retention, protectedName)), fails);
                ok == run.ok && State() == LastRoot(old(State()), run.states) && states == old(states) + run.states
    {
      hide Verified, Lookup, Newest, Without, Names, Keep, Retain, RemovalStates, LastRoot, Hindered;
      NothingYet(State(), states);
      if Lookup(points, protectedName).None? { return false; }
      var sorted := Newest(points);
      var remaining := Without(sorted, protectedName);
      var newest := if |remaining| < retention then remaining else remaining[..retention - 1];
      var retained := {protectedName} + Names(newest);
      ghost var root, logged := State(), states;
      ghost var run := Retain(tools, root, Keep(sorted, retained));
      ghost var done: seq<Root> := [];
      var left: Option<nat> := fails;
      assert sorted[0..] == sorted;
      var k := 0;
      while k < |sorted|
        invariant k <= |sorted| && State() == LastRoot(root, done) && states == logged + done
        invariant fails.None? <==> left.None?
        invariant left.Some? ==> left.value + |done| == fails.value
        invariant var rest := Retain(tools, State(), Keep(sorted[k..], retained));
                  run == Run(done + rest.states, rest.ok)
      {
        var expired := sorted[k];
        KeepStep(sorted, k, retained);
        if expired.name !in retained {
          RetainStep(tools, State(), expired, Keep(sorted[k + 1..], retained));
          var p := Lookup(points, expired.name);
          assert done + [] == done;
          HinderedDone(Run(done, false), fails);
          if p.None? || !Verified(tools, p.value) { return false; }
          ghost var steps := RemovalStates(State(), expired.name, p.value);
          DoneStep(root, done, steps, Retain(tools, steps[3], Keep(sorted[k + 1..], retained)).states, logged);
          ghost var rest := Retain(tools, steps[3], Keep(sorted[k + 1..], retained)).states;
          if left.Some? && left.value < 4 {
            PartStep(root, done, steps, rest, logged, left.value);
            HinderedInside(run, fails, done, steps, rest, left.value);
          }
          ok := RemovePoint(expired.name, p.value, left);
          if !ok { return; }
          done := done + steps;
          if left.Some? { left := Some(left.value - 4); }
        }
        k := k + 1;
      }
      NothingExpired(tools, State(), retained);
      assert sorted[k..] == [] && done + [] == done;
      HinderedDone(run, fails);
      ok := left != Some(0);
    }

    /** The clean-up of a creation that failed before its rename. */
    method RemoveStaging(q: Request)
      requires staging.Some?
      modifies this
      ensures var steps := Removal(old(State()), old(staging).value, q.cleanups);
              State() == LastRoot(old(State()), steps) && states == old(states) + steps
      ensures staging.None? <==> q.cleanups >= 4 && !old(staging).value.temporary
    {
      var d := staging.value;
      if q.cleanups == 0 { return; }
      d := d.(point := d.point.(manifest := None));
      WriteStaging(Some(d));
      if q.cleanups == 1 { return; }
      d := d.(point := d.point.(database := None));
      WriteStaging(Some(d));
      if q.cleanups == 2 { return; }
      d := d.(point := EMPTY_POINT);
      WriteStaging(Some(d));
      if q.cleanups == 3 || d.temporary { return; }
      WriteStaging(None);
    }

    /** Write the files one by one, up to the first failure. */
    method WriteFiles(q: Request) returns (r: Option<Point>)
      requires Ready(tools, State(), q)
      modifies this
      ensures var spec := Written(tools, old(State()), q);
              r == spec.point && State() == LastRoot(old(State()), spec.states) && states == old(states) + spec.states
    {
      hide Verified, Safe, ValidRoot, DeploymentOf, AllVerified, NewManifest, Expiring;
      var dep := DeploymentOf(State(), q).value;
      if !q.created { return None; }
      WriteStaging(Some(StagingDirectory(EMPTY_POINT, false)));
      if !q.deploymentWritten { return None; }
      WriteStaging(Some(StagingDirectory(Point(None, None, Some(dep)), false)));
      match q.restoration
      case RestoreRaised(copy, temporary) =>
        WriteStaging(Some(StagingDirectory(Point(None, copy, Some(dep)), temporary)));
        r := None;
      case Restored(db) =>
        WriteStaging(Some(StagingDirectory(Point(None, Some(db), Some(dep)), false)));
        if !q.sourceFresh || !RestoreUsable(tools, q) || !q.manifestWritten { return None; }
        var p := Point(Some(NewManifest(tools, q, dep, db)), Some(db), Some(dep));
        WriteStaging(Some(StagingDirectory(p, false)));
        r := if q.renamed then Some(p) else None;
    }

    /** Build the point in the staging directory; a failure cleans up, and what the
        clean-up cannot remove stays. */
    method StagePoint(q: Request) returns (r: Option<Point>)
      requires Ready(tools, State(), q)
      modifies this
      ensures var spec := Stage(tools, old(State()), q);
              r == spec.point && State() == LastRoot(old(State()), spec.states) && states == old(states) + spec.states
      ensures r.None? ==> (staging.None? <==> !q.created || (q.cleanups >= 4 && !LeavesTemporary(q)))
    {
      hide Ready, Written, Removal, LeavesTemporary;
      ghost var root := State();
      WrittenStates(tools, root, q);
      if Stage(tools, root, q).point.None? { StagingIsCleared(tools, root, q); }
      r := WriteFiles(q);
      if r.None? && q.created {
        RemovalIgnoresStaging(root, State(), q);
        RemoveStaging(q);
      }
    }

    /** Check, stage, publish: one creation under the lock. */
    method CreateRecoveryPoint(q: Request) returns (ok: bool)
      requires q.name !in Names(points)
      modifies this
      ensures var run := Create(tools, old(State()), q);
              ok == run.ok && State() == LastRoot(old(State()), run.states) && states == old(states) + run.states
      ensures old(Safe(tools, State())) ==> forall i :: |old(states)| <= i < |states| ==> Safe(tools, states[i])
    {
      hide Verified, Safe, Stage, Ready, Names, Publish;
      ghost var root := State();
      if Safe(tools, root) { CreationIsSafe(tools, root, q); }
      if !Ready(tools, State(), q) { return false; }
      ReadyHasNoStaging(tools, root, q);
      var staged := StagePoint(q);
      if staged.None? { return false; }
      StageStates(tools, root, q);
      ok := PublishPoint(q, staged.value);
      SameListing(tools, root, LastRoot(root, Stage(tools, root, q).states), q, staged.value);
    }

    /** Rename the staged point, verify it, move the record to it, prune. */
    method PublishPoint(q: Request, p: Point) returns (ok: bool)
      requires q.name !in Names(points) && q.retention >= 2 && p.manifest.Some?
      modifies this
      ensures var run := Publish(tools, old(State()), q, p);
              ok == run.ok && State() == LastRoot(old(State()), run.states) && states == old(states) + run.states
    {
      hide Verified, Matches, Retain, Expired, Listed, Lookup, Safe, Names, NewHealth, Hindered;
      ListedLookup(points, Entry(q.name, q.mtime, p), q.listedAt, q.name);
      points, staging := Listed(points, Entry(q.name, q.mtime, p), q.listedAt), None;
      states := states + [State()];
      if !q.flushed || !Verified(tools, p) || q.record.NotRecorded? { return false; }
      health := Some(NewHealth(tools, q, p.manifest.value));
      states := states + [State()];
      if q.record.RecordedThenRaised? { return false; }
      ok := ApplyRetention(q.retention, q.name, q.retentionFails);
      ok := ok && Safe(tools, State());
    }
  }

  /** Publishing does not depend on what staging looked like. */
  lemma SameListing(t: Tools, root: Root, last: Root, q: Request, p: Point)
    requires last == root.(staging := last.staging) && q.retention >= 2 && p.manifest.Some?
    ensures Publish(t, last, q, p) == Publish(t, root, q, p)
    ensures Publish(t, root, q, p).states != []
  {
    hide Verified, Retain, Expired, Safe;
  }

  lemma RemovalIgnoresStaging(root: Root, last: Root, q: Request)
    requires last.staging.Some? && last == root.(staging := last.staging)
    ensures Removal(last, last.staging.value, q.cleanups) == Removal(root, last.staging.value, q.cleanups)
  {
  }

  lemma NothingYet(root: Root, logged: seq<Root>)
    ensures LastRoot(root, []) == root && logged + [] == logged
  {
  }

  lemma DoneStep(root: Root, done: seq<Root>, steps: seq<Root>, rest: seq<Root>, logged: seq<Root>)
    requires steps != []
    ensures LastRoot(root, done + steps) == steps[|steps| - 1] == LastRoot(LastRoot(root, done), steps)
    ensures (done + steps) + rest == done + (steps + rest) && logged + (done + steps) == (logged + done) + steps
  {
  }

  lemma HinderedDone(run: Run, fails: Option<nat>)
    requires fails.Some? ==> fails.value >= |run.states|
    ensures Hindered(run, fails) == Run(run.states, run.ok && fails != Some(|run.states|))
  {
  }

  lemma HinderedInside(run: Run, fails: Option<nat>, done: seq<Root>, steps: seq<Root>, rest: seq<Root>, k: nat)
    requires run.states == done + (steps + rest) && fails == Some(|done| + k) && k <= |steps|
    ensures Hindered(run, fails) == Run(done + steps[..k], false)
  {
    PartStep(EMPTY_ROOT, done, steps, rest, [], k);
  }

  const EMPTY_ROOT := Root([], None, None)

  /** A removal that stops after `k` of its steps. */
  lemma PartStep(root: Root, done: seq<Root>, steps: seq<Root>, rest: seq<Root>, logged: seq<Root>, k: nat)
    requires k <= |steps|
    ensures LastRoot(root, done + steps[..k]) == LastRoot(LastRoot(root, done), steps[..k])
    ensures (done + (steps + rest))[..|done| + k] == done + steps[..k]
    ensures logged + (done + steps[..k]) == (logged + done) + steps[..k]
    ensures k == |steps| ==> steps[..k] == steps
  {
  }

  lemma KeepStep(es: seq<Entry>, k: nat, retained: set<string>)
    requires k < |es|
    ensures Keep(es[k..], retained) ==
            if es[k].name in retained then Keep(es[k + 1..], retained) else [es[k]] + Keep(es[k + 1..], retained)
  {
    assert es[k..][1..] == es[k + 1..];
  }

  lemma RetainStep(t: Tools, root: Root, e: Entry, rest: seq<Entry>)
    ensures var p := Lookup(root.points, e.name);
            Retain(t, root, [e] + rest) ==
            if p.None? || !Verified(t, p.value) then Run([], false)
            else
              var states := RemovalStates(root, e.name, p.value);
              var run := Retain(t, states[3], rest);
              Run(states + run.states, run.ok)
  {
    assert ([e] + rest)[1..] == rest;
  }

  lemma NothingExpired(t: Tools, root: Root, retained: set<string>)
    ensures Retain(t, root, Keep([], retained)) == Run([], true)
  {
  }

  lemma ReadyHasNoStaging(t: Tools, root: Root, q: Request)
    requires Ready(t, root, q)
    ensures root.staging.None?
  {
  }

  // ----- any number of creations

  /** A creation and the number of its writes that happened before a crash. */
  datatype Session = Session(request: Request, cut: nat)

  function AfterSession(t: Tools, root: Root, s: Session): Root {
    var states := Create(t, root, s.request).states;
    LastRoot(root, if s.cut < |states| then states[..s.cut] else states)
  }

  function AfterRun(t: Tools, root: Root, run: seq<Session>): Root
    decreases |run|
  {
    if run == [] then root else AfterRun(t, AfterSession(t, root, run[0]), run[1..])
  }

  /** Random point names never collide with an existing entry. */
  predicate FreshNames(t: Tools, root: Root, run: seq<Session>)
    decreases |run|
  {
    run == [] ||
    (run[0].request.name !in Names(root.points) && FreshNames(t, AfterSession(t, root, run[0]), run[1..]))
  }

  /** Over any run of creations, each cut anywhere, the pointer stays safe. */
  lemma {:induction false} PointerStaysSafe(t: Tools, root: Root, run: seq<Session>)
    requires Safe(t, root) && FreshNames(t, root, run)
    ensures Safe(t, AfterRun(t, root, run))
    decreases |run|
  {
    hide Create, Safe;
    if run != [] {
      CreationIsSafe(t, root, run[0].request);
      PointerStaysSafe(t, AfterSession(t, root, run[0]), run[1..]);
    }
  }

  /** A staging directory left behind, by a crash or by a failed clean-up, makes
      every later creation refuse before it writes anything. */
  lemma {:induction false} StrandedStagingRefuses(t: Tools, root: Root, run: seq<Session>)
    requires root.staging.Some?
    ensures AfterRun(t, root, run) == root
    ensures run != [] ==> Create(t, root, run[0].request) == Run([], false)
    decreases |run|
  {
    if run != [] { StrandedStagingRefuses(t, root, run[1..]); }
  }
}
