/** Creating a recovery point: every durable state on the way, whatever fails. */
module RecoveryCreation {
  import opened Text
  import opened RecoveryPoint

  /** How restoring the backup into the staging directory ends: with a verified
      copy, or raising, with a copy or a temporary left in the directory. */
  datatype Restoration = Restored(database: string) | RestoreRaised(copy: Option<string>, temporary: bool)

  /** How replacing the health record ends: flushing its directory can still fail. */
  datatype RecordWrite = Recorded | NotRecorded | RecordedThenRaised

  /** One creation and what the outside answers: the manifest to embed (or the one
      of the current point), the restore, which writes and flushes succeed, and how many
      of the clean-up and of the retention calls do. */
  datatype Request = Request(
    retention: nat, name: string, createdAt: string, mtime: int, listedAt: nat, deployment: Option<string>,
    created: bool, deploymentWritten: bool, restoration: Restoration, sourceFresh: bool, manifestWritten: bool,
    renamed: bool, cleanups: nat, flushed: bool, record: RecordWrite, retentionFails: Option<nat>)

  function DeploymentOf(root: Root, q: Request): Option<string> {
    if q.deployment.Some? then q.deployment
    else if root.health.None? then None
    else match Lookup(root.points, root.health.value.name)
      case None => None
      case Some(p) => p.deployment
  }

  function NewManifest(t: Tools, q: Request, dep: string, db: string): Manifest
    requires t.decode(dep).Some? && t.revisionOf(db).Some?
  {
    var (tag, commit) := t.decode(dep).value;
    Manifest(q.createdAt, Release(tag, commit, t.sha(dep)), t.sha(dep), |db|, t.sha(db), t.revisionOf(db).value)
  }

  function NewHealth(t: Tools, q: Request, m: Manifest): Health {
    Health(q.name, q.createdAt, t.manifestSha(m), m.databaseSha, m.release)
  }

  /** Checks made before anything is written. */
  predicate Ready(t: Tools, root: Root, q: Request) {
    && 2 <= q.retention <= 365 && ValidRoot(t, root) && AllVerified(t, Expiring(root.points, q.retention))
    && DeploymentOf(root, q).Some? && DeploymentOf(root, q).value != "" && t.decode(DeploymentOf(root, q).value).Some?
  }

  predicate RestoreUsable(t: Tools, q: Request) {
    && q.restoration.Restored? && t.revisionOf(q.restoration.database).Some?
    && 1 <= |q.restoration.database| <= MAX_DATABASE_BYTES
  }

  /** Staging, file by file. */
  function Staged(root: Root, p: Point): Root { root.(staging := Some(StagingDirectory(p, false))) }

  /** The clean-up: three unlinks and the rmdir, which a left temporary defeats.
      It stops silently at the first call that fails. */
  function Removal(root: Root, d: StagingDirectory, allowed: nat): (states: seq<Root>)
    ensures |states| <= 4
  {
    var a := d.(point := d.point.(manifest := None));
    var b := a.(point := a.point.(database := None));
    var c := b.(point := EMPTY_POINT);
    var all := [root.(staging := Some(a)), root.(staging := Some(b)), root.(staging := Some(c))] +
               if d.temporary then [] else [root.(staging := None)];
    if allowed < |all| then all[..allowed] else all
  }

  /** The directory is gone exactly when every call succeeded and the restore had
      left no temporary in it. */
  lemma RemovalIsExact(root: Root, last: Root, allowed: nat)
    requires last.staging.Some?
    ensures LastRoot(last, Removal(root, last.staging.value, allowed)).staging.None? <==>
              allowed >= 4 && !last.staging.value.temporary
  {
  }

  function Published(root: Root, q: Request, p: Point): Root {
    Root(Listed(root.points, Entry(q.name, q.mtime, p), q.listedAt), root.health, None)
  }

  /** What staging passes through, and the staged point if all went well. */
  datatype Staging = Staging(states: seq<Root>, point: Option<Point>)

  /** The files in the order they are written, up to the first failure. */
  function Written(t: Tools, root: Root, q: Request): Staging
    requires Ready(t, root, q)
  {
    var dep := DeploymentOf(root, q).value;
    var s1, s2 := Staged(root, EMPTY_POINT), Staged(root, Point(None, None, Some(dep)));
    if !q.created then Staging([], None)
    else if !q.deploymentWritten then Staging([s1], None)
    else match q.restoration
      case RestoreRaised(copy, temporary) =>
        Staging([s1, s2, root.(staging := Some(StagingDirectory(Point(None, copy, Some(dep)), temporary)))], None)
      case Restored(db) =>
        var s3 := Staged(root, Point(None, Some(db), Some(dep)));
        if !q.sourceFresh || !RestoreUsable(t, q) || !q.manifestWritten then Staging([s1, s2, s3], None)
        else
          var p := Point(Some(NewManifest(t, q, dep, db)), Some(db), Some(dep));
          Staging([s1, s2, s3, Staged(root, p)], if q.renamed then Some(p) else None)
  }

  predicate LeavesTemporary(q: Request) {
    q.deploymentWritten && q.restoration.RestoreRaised? && q.restoration.temporary
  }

  lemma WrittenStates(t: Tools, root: Root, q: Request)
    requires Ready(t, root, q)
    ensures var w := Written(t, root, q);
            && (forall i :: 0 <= i < |w.states| ==>
                  w.states[i] == root.(staging := w.states[i].staging) && w.states[i].staging.Some?)
            && (w.states == [] <==> !q.created) && (w.point.Some? ==> w.point.value.manifest.Some? && q.retention >= 2)
            && (w.states != [] ==> w.states[|w.states| - 1].staging.value.temporary == LeavesTemporary(q))
  {
    hide ValidRoot, AllVerified, Expiring, RestoreUsable, NewManifest, DeploymentOf;
  }

  /** A failure before the rename starts the clean-up. */
  function Stage(t: Tools, root: Root, q: Request): Staging
    requires Ready(t, root, q)
  {
    var w := Written(t, root, q);
    WrittenStates(t, root, q);
    if w.point.Some? || w.states == [] then w
    else Staging(w.states + Removal(root, w.states[|w.states| - 1].staging.value, q.cleanups), None)
  }

  lemma StageStates(t: Tools, root: Root, q: Request)
    requires Ready(t, root, q)
    ensures var r := Stage(t, root, q);
            && (forall i :: 0 <= i < |r.states| ==> r.states[i] == root.(staging := r.states[i].staging))
            && (r.point.Some? ==> r.point.value.manifest.Some? && q.retention >= 2)
  {
    hide Written, Ready;
    WrittenStates(t, root, q);
  }

  /** A creation that did not get to the rename leaves no staging directory exactly
      when it made none, or its clean-up succeeded and the restore left no temporary. */
  lemma StagingIsCleared(t: Tools, root: Root, q: Request)
    requires Ready(t, root, q) && Stage(t, root, q).point.None?
    ensures root.staging.None?
    ensures LastRoot(root, Stage(t, root, q).states).staging.None? <==>
            !q.created || (q.cleanups >= 4 && !LeavesTemporary(q))
  {
    assert root.staging.None?;
    hide Written, Ready, Removal, LeavesTemporary;
    WrittenStates(t, root, q);
    var w := Written(t, root, q);
    if w.states != [] {
      var last := w.states[|w.states| - 1];
      RemovalIsExact(root, last, q.cleanups);
    }
  }

  /** Rename, verify, move the record, prune. A failure leaves the published point. */
  function Publish(t: Tools, root: Root, q: Request, p: Point): Run
    requires q.retention >= 2 && p.manifest.Some?
  {
    var s5 := Published(root, q, p);
    var s6 := s5.(health := Some(NewHealth(t, q, p.manifest.value)));
    if !q.flushed || !Verified(t, p) || q.record.NotRecorded? then Run([s5], false)
    else if q.record.RecordedThenRaised? then Run([s5, s6], false)
    else
      var run := Hindered(Retain(t, s6, Expired(s6.points, q.retention, q.name)), q.retentionFails);
      Run([s5, s6] + run.states, run.ok && Safe(t, LastRoot(s6, run.states)))
  }

  /** Every durable state of one creation. */
  function Create(t: Tools, root: Root, q: Request): Run {
    if !Ready(t, root, q) then Run([], false)
    else
      var staging := Stage(t, root, q);
      if staging.point.None? then Run(staging.states, false)
      else
        var run := Publish(t, root, q, staging.point.value);
        Run(staging.states + run.states, run.ok)
  }

  lemma ListedLookup(es: seq<Entry>, e: Entry, at: nat, name: string)
    requires e.name !in Names(es)
    ensures name != e.name ==> Lookup(Listed(es, e, at), name) == Lookup(es, name)
    ensures Lookup(Listed(es, e, at), e.name) == Some(e.point)
  {
    if name != e.name {
      ListedWithout(es, e, at);
      OthersStay(Listed(es, e, at), e.name, e.point, name);
    }
    var k := if at <= |es| then at else |es|;
    assert Listed(es, e, at) == es[..k] + ([e] + es[k..]);
    LookupSkips(es[..k], e, es[k..]);
  }

  lemma {:induction false} LookupSkips(a: seq<Entry>, e: Entry, b: seq<Entry>)
    requires forall i :: 0 <= i < |a| ==> a[i].name != e.name
    ensures Lookup(a + ([e] + b), e.name) == Some(e.point)
  {
    if a != [] {
      LookupSkips(a[1..], e, b);
      assert (a + ([e] + b))[1..] == a[1..] + ([e] + b);
    } else {
      assert a + ([e] + b) == [e] + b;
    }
  }

  /** The point just built matches its manifest and its record. */
  lemma NewPointVerifies(t: Tools, q: Request, dep: string)
    requires dep != "" && t.decode(dep).Some? && RestoreUsable(t, q)
    ensures var m := NewManifest(t, q, dep, q.restoration.database);
            Verified(t, Point(Some(m), Some(q.restoration.database), Some(dep))) && Matches(t, NewHealth(t, q, m), m)
  {
    var (tag, commit) := t.decode(dep).value;
    assert t.decode(dep) == Some((tag, commit));
  }

  lemma {:induction false} KeepSubset(es: seq<Entry>, retained: set<string>, name: string)
    requires name in retained
    ensures name !in Names(Keep(es, retained))
  {
    if es != [] {
      KeepSubset(es[1..], retained, name);
      if es[0].name !in retained { ConsNames(es[0], Keep(es[1..], retained)); }
    }
  }

  /** Pointer safety. At every crash point of a creation, whatever fails, an
      existing health record names a complete, matching point, and retention never
      removes the point it names. */
  lemma CreationIsSafe(t: Tools, root: Root, q: Request)
    requires Safe(t, root) && q.name !in Names(root.points)
    ensures AllSafe(t, Create(t, root, q).states)
  {
    hide Verified, Matches, Expired, Retain, AllVerified, Expiring, Listed, Lookup, Ready, Publish;
    if Ready(t, root, q) {
      var staging := Stage(t, root, q);
      StageStates(t, root, q);
      assert AllSafe(t, staging.states);
      if staging.point.Some? {
        ReadyDeployment(t, root, q);
        NewPointVerifies(t, q, DeploymentOf(root, q).value);
        PublicationIsSafe(t, root, q, staging.point.value);
        SafeConcat(t, staging.states, Publish(t, root, q, staging.point.value).states);
      }
    }
  }

  lemma ReadyDeployment(t: Tools, root: Root, q: Request)
    requires Ready(t, root, q)
    ensures q.retention >= 2 && DeploymentOf(root, q).Some? && DeploymentOf(root, q).value != ""
    ensures t.decode(DeploymentOf(root, q).value).Some?
  {
  }

  lemma PublicationIsSafe(t: Tools, root: Root, q: Request, p: Point)
    requires Safe(t, root) && q.name !in Names(root.points) && q.retention >= 2
    requires Verified(t, p) && p.manifest.Some? && Matches(t, NewHealth(t, q, p.manifest.value), p.manifest.value)
    ensures AllSafe(t, Publish(t, root, q, p).states)
  {
    hide Verified, Matches, Expired, Retain, Listed, Lookup;
    var s5 := Published(root, q, p);
    ListedLookup(root.points, Entry(q.name, q.mtime, p), q.listedAt,
                 if root.health.Some? then root.health.value.name else "");
    LookupNames(root);
    assert Safe(t, s5);
    var s6 := s5.(health := Some(NewHealth(t, q, p.manifest.value)));
    assert Safe(t, s6);
    ExpiredSparesProtected(s6.points, q.retention, q.name);
    RetentionIsSafe(t, s6, Expired(s6.points, q.retention, q.name));
    SafeConcat(t, [s5, s6], Hindered(Retain(t, s6, Expired(s6.points, q.retention, q.name)), q.retentionFails).states);
  }

  lemma LookupNames(root: Root)
    ensures root.health.Some? && Lookup(root.points, root.health.value.name).Some? ==>
            root.health.value.name in Names(root.points)
  {
    if root.health.Some? { LookupIsNamed(root.points, root.health.value.name); }
  }

  lemma {:induction false} LookupIsNamed(es: seq<Entry>, name: string)
    ensures Lookup(es, name).Some? <==> name in Names(es)
  {
    if es != [] {
      assert es == [es[0]] + es[1..];
      ConsNames(es[0], es[1..]);
      LookupIsNamed(es[1..], name);
    }
  }

  lemma ExpiredSparesProtected(es: seq<Entry>, retention: nat, name: string)
    requires retention >= 2
    ensures name !in Names(Expired(es, retention, name))
  {
    var remaining := Without(Newest(es), name);
    var kept := if |remaining| < retention then remaining else remaining[..retention - 1];
    KeepSubset(Newest(es), {name} + Names(kept), name);
  }

  // ----- success

  lemma {:induction false} LookupOwn(es: seq<Entry>, i: nat)
    requires DistinctNames(es) && i < |es|
    ensures Lookup(es, es[i].name) == Some(es[i].point)
  {
    assert es == [es[0]] + es[1..];
    ConsNames(es[0], es[1..]);
    if i > 0 { LookupOwn(es[1..], i - 1); }
  }

  lemma {:induction false} InsertLookup(e: Entry, es: seq<Entry>, name: string)
    requires e.name !in Names(es)
    ensures Lookup(Insert(e, es), name) == if name == e.name then Some(e.point) else Lookup(es, name)
  {
    if es == [] || e.mtime >= es[0].mtime {
      assert ([e] + es)[1..] == es;
    } else {
      assert es == [es[0]] + es[1..];
      ConsNames(es[0], es[1..]);
      InsertLookup(e, es[1..], name);
    }
  }

  lemma {:induction false} SortLookup(es: seq<Entry>, name: string)
    requires DistinctNames(es)
    ensures Lookup(Newest(es), name) == Lookup(es, name)
  {
    if es != [] {
      assert es == [es[0]] + es[1..];
      ConsNames(es[0], es[1..]);
      SortKeepsNames(es[1..]);
      SortLookup(es[1..], name);
      InsertLookup(es[0], Newest(es[1..]), name);
    }
  }

  lemma {:induction false} DropOne(es: seq<Entry>, name: string)
    requires DistinctNames(es)
    ensures var w := Without(es, name);
            DistinctNames(w) && Names(w) == Names(es) - {name} && |w| == |es| - if name in Names(es) then 1 else 0
  {
    if es != [] {
      assert es == [es[0]] + es[1..];
      ConsNames(es[0], es[1..]);
      DropOne(es[1..], name);
      if es[0].name != name { ConsNames(es[0], Without(es[1..], name)); }
    }
  }

  lemma {:induction false} DropMany(es: seq<Entry>, gone: seq<Entry>)
    requires DistinctNames(es) && DistinctNames(gone) && Names(gone) <= Names(es)
    ensures var w := WithoutAll(es, gone);
            |w| == |es| - |gone| && Names(w) == Names(es) - Names(gone) && DistinctNames(w)
    decreases |gone|
  {
    if gone != [] {
      assert gone == [gone[0]] + gone[1..];
      ConsNames(gone[0], gone[1..]);
      DropOne(es, gone[0].name);
      DropMany(Without(es, gone[0].name), gone[1..]);
    }
  }

  lemma TailNames(es: seq<Entry>, n: nat)
    requires DistinctNames(es) && n <= |es|
    ensures DistinctNames(es[n..]) && Names(es[n..]) <= Names(es)
  {
    forall i, j | 0 <= i < j < |es[n..]| ensures es[n..][i].name != es[n..][j].name {
      assert es[n..][i] == es[n + i] && es[n..][j] == es[n + j];
    }
    forall x | x in Names(es[n..]) ensures x in Names(es) {
      var i :| 0 <= i < |es[n..]| && es[n..][i].name == x;
      assert es[n + i].name == x;
    }
  }

  lemma ExpiringShape(es: seq<Entry>, retention: nat)
    requires retention >= 2 && DistinctNames(es)
    ensures var gone := Expiring(es, retention);
            && DistinctNames(gone) && Names(gone) <= Names(es)
            && |gone| == (if |es| < retention then 0 else |es| + 1 - retention)
            && forall i :: 0 <= i < |gone| ==> Lookup(es, gone[i].name) == Some(gone[i].point)
  {
    hide Lookup;
    var s, gone := Newest(es), Expiring(es, retention);
    SortKeepsNames(es);
    if |s| >= retention {
      TailNames(s, retention - 1);
      forall i | 0 <= i < |gone| ensures Lookup(es, gone[i].name) == Some(gone[i].point) {
        assert gone[i] == s[retention - 1 + i];
        LookupOwn(s, retention - 1 + i);
        SortLookup(es, gone[i].name);
      }
    }
  }

  /** Every write before retention succeeds. */
  predicate AllWrites(q: Request) {
    && q.created && q.deploymentWritten && q.sourceFresh && q.manifestWritten && q.renamed && q.flushed
    && q.record.Recorded?
  }

  /** Retention makes four calls for each point it removes and flushes once. */
  predicate RetentionRuns(root: Root, q: Request)
    requires q.retention >= 2
  {
    q.retentionFails.Some? ==> q.retentionFails.value > 4 * |Expiring(root.points, q.retention)|
  }

  /** The manifest file a creation embeds: the one it is given, or else that of the
      point the record names. */
  predicate Embeds(root: Root, q: Request, text: string) {
    if q.deployment.Some? then text == q.deployment.value
    else
      root.health.Some? && Lookup(root.points, root.health.value.name).Some? &&
      Lookup(root.points, root.health.value.name).value.deployment == Some(text)
  }

  /** What has to hold before anything is written. */
  lemma ReadyIsExact(t: Tools, root: Root, q: Request)
    ensures Ready(t, root, q) <==>
              && 2 <= q.retention <= 365 && root.staging.None? && Safe(t, root)
              && (forall i :: 0 <= i < |root.points| ==>
                    var p := root.points[i].point;
                    p.manifest.Some? && p.database.Some? && p.deployment.Some? && p.database.value != "" &&
                    p.deployment.value != "")
              && (forall i :: q.retention - 1 <= i < |root.points| ==> Verified(t, Newest(root.points)[i].point))
              && exists text :: Embeds(root, q, text) && text != "" && t.decode(text).Some?
  {
    hide Verified, Safe, Newest, Embeds, AllVerified, Expiring, DeploymentOf;
    if q.retention >= 2 { ExpiringVerify(t, root.points, q.retention); }
    forall text: string ensures Embeds(root, q, text) <==> DeploymentOf(root, q) == Some(text) {
      EmbedsIsDeployment(root, q, text);
    }
    if DeploymentOf(root, q).Some? { assert Embeds(root, q, DeploymentOf(root, q).value); }
  }

  lemma EmbedsIsDeployment(root: Root, q: Request, text: string)
    ensures Embeds(root, q, text) <==> DeploymentOf(root, q) == Some(text)
  {
    hide Lookup;
  }

  lemma ExpiringVerify(t: Tools, es: seq<Entry>, retention: nat)
    requires retention >= 2
    ensures AllVerified(t, Expiring(es, retention)) <==>
              forall i :: retention - 1 <= i < |es| ==> Verified(t, Newest(es)[i].point)
  {
    hide Verified, Newest;
    var sorted, gone := Newest(es), Expiring(es, retention);
    assert forall i :: 0 <= i < |gone| ==> gone[i] == sorted[retention - 1 + i];
    if AllVerified(t, gone) {
      forall i | retention - 1 <= i < |es| ensures Verified(t, sorted[i].point) {
        assert gone[i - (retention - 1)] == sorted[i];
      }
    } else {
      var i :| 0 <= i < |gone| && !Verified(t, gone[i].point);
      var k := retention - 1 + i;
      assert Newest(es)[k] == gone[i] && k < |es|;
      assert !Verified(t, Newest(es)[k].point);
    }
  }

  lemma {:induction false} OthersSurvive(es: seq<Entry>, gone: seq<Entry>, name: string)
    requires name !in Names(gone)
    ensures Lookup(WithoutAll(es, gone), name) == Lookup(es, name)
    decreases |gone|
  {
    if gone != [] {
      assert gone == [gone[0]] + gone[1..];
      ConsNames(gone[0], gone[1..]);
      OthersStay(es, gone[0].name, EMPTY_POINT, name);
      OthersSurvive(Without(es, gone[0].name), gone[1..], name);
    }
  }

  /** What a successful creation publishes: under its name a point with the restored
      database and the manifest file it was given, or else that of the point the
      record named before; a manifest and a record of exactly these, with the tag and
      commit that file decodes to. */
  lemma CreationPublishes(t: Tools, root: Root, q: Request, text: string)
    requires DistinctNames(root.points) && q.name !in Names(root.points)
    requires Create(t, root, q).ok && Embeds(root, q, text)
    ensures t.decode(text).Some? && q.restoration.Restored? && t.revisionOf(q.restoration.database).Some?
    ensures var final := LastRoot(root, Create(t, root, q).states);
            var (tag, commit) := t.decode(text).value;
            var db := q.restoration.database;
            var release := Release(tag, commit, t.sha(text));
            var m := Manifest(q.createdAt, release, t.sha(text), |db|, t.sha(db), t.revisionOf(db).value);
            && Lookup(final.points, q.name) == Some(Point(Some(m), Some(db), Some(text)))
            && final.health == Some(Health(q.name, q.createdAt, t.manifestSha(m), t.sha(db), release))
  {
    hide Verified, Matches, Retain, Expired, Expiring, Listed, Lookup, AllVerified, WithoutAll, Hindered,
         ValidRoot, Safe;
    CreationSucceeds(t, root, q);
    assert DeploymentOf(root, q) == Some(text);
    var m := NewManifest(t, q, text, q.restoration.database);
    var e := Entry(q.name, q.mtime, Point(Some(m), Some(q.restoration.database), Some(text)));
    var s6 := Published(root, q, e.point).(health := Some(NewHealth(t, q, m)));
    ReadyIsSafe(t, root, q);
    NewPointVerifies(t, q, text);
    RetentionRemoves(t, root, q, e, s6);
    CreationIsSafe(t, root, q);
    FinalState(t, root, q, s6);
    ListedLookup(root.points, e, q.listedAt, q.name);
  }

  /** A creation succeeds exactly when the checks pass, the restore is usable and
      no call fails: nothing else can go wrong. Then min(retention, previous count
      + 1) points remain, the deleted ones are exactly those preflight verified,
      and the record names the new point. */
  lemma CreationSucceeds(t: Tools, root: Root, q: Request)
    requires DistinctNames(root.points) && q.name !in Names(root.points)
    ensures Create(t, root, q).ok <==>
              && Ready(t, root, q) && q.restoration.Restored? && t.revisionOf(q.restoration.database).Some?
              && 1 <= |q.restoration.database| <= 1_099_511_627_776 && AllWrites(q) && RetentionRuns(root, q)
    ensures var final := LastRoot(root, Create(t, root, q).states);
            Create(t, root, q).ok ==>
              && |final.points| == (if q.retention < |root.points| + 1 then q.retention else |root.points| + 1)
              && Names(final.points) == Names(root.points) + {q.name} - Names(Expiring(root.points, q.retention))
              && final.health.Some? && final.health.value.name == q.name && final.staging.None?
              && ValidPointer(t, final)
  {
    hide Verified, Matches, Retain, Expired, Expiring, Listed, Lookup, AllVerified, WithoutAll, Hindered,
         ValidRoot, Safe;
    if Ready(t, root, q) && RestoreUsable(t, q) && AllWrites(q) {
      var dep := DeploymentOf(root, q).value;
      var m := NewManifest(t, q, dep, q.restoration.database);
      var e := Entry(q.name, q.mtime, Point(Some(m), Some(q.restoration.database), Some(dep)));
      var s6 := Published(root, q, e.point).(health := Some(NewHealth(t, q, m)));
      ReadyIsSafe(t, root, q);
      NewPointVerifies(t, q, dep);
      RetentionRemoves(t, root, q, e, s6);
      CreationIsSafe(t, root, q);
      FinalState(t, root, q, s6);
    }
  }

  lemma ReadyIsSafe(t: Tools, root: Root, q: Request)
    requires Ready(t, root, q)
    ensures Safe(t, root) && AllVerified(t, Expiring(root.points, q.retention))
  {
    hide Safe;
  }

  /** After publication retention, unhindered, removes what preflight verified. */
  lemma RetentionRemoves(t: Tools, root: Root, q: Request, e: Entry, s6: Root)
    requires q.retention >= 2 && AllVerified(t, Expiring(root.points, q.retention))
    requires DistinctNames(root.points) && e.name == q.name && q.name !in Names(root.points)
    requires s6.points == Listed(root.points, e, q.listedAt)
    ensures var gone := Expiring(root.points, q.retention);
            var run := Retain(t, s6, Expired(s6.points, q.retention, q.name));
            var final := LastRoot(s6, run.states);
            && run.ok && |run.states| == 4 * |gone| && final == s6.(points := final.points)
            && Lookup(final.points, q.name) == Lookup(s6.points, q.name)
            && |final.points| == (if q.retention < |root.points| + 1 then q.retention else |root.points| + 1)
            && Names(final.points) == Names(root.points) + {q.name} - Names(gone)
  {
    hide Verified, Retain, Expired, Expiring, Listed, Lookup, AllVerified, WithoutAll;
    var gone := Expiring(root.points, q.retention);
    ExpiredWereExpiring(root.points, e, q.listedAt, q.retention);
    ExpiringShape(root.points, q.retention);
    forall i | 0 <= i < |gone| ensures Lookup(s6.points, gone[i].name) == Some(gone[i].point) {
      assert gone[i].name in Names(gone);
      ListedLookup(root.points, e, q.listedAt, gone[i].name);
    }
    RetentionCompletes(t, s6, gone);
    ListedNames(root.points, e, q.listedAt);
    DropMany(s6.points, gone);
    OthersSurvive(s6.points, gone, q.name);
  }

  lemma FinalState(t: Tools, root: Root, q: Request, s6: Root)
    requires Ready(t, root, q) && RestoreUsable(t, q) && AllWrites(q)
    requires var dep := DeploymentOf(root, q).value;
             var m := NewManifest(t, q, dep, q.restoration.database);
             var p := Point(Some(m), Some(q.restoration.database), Some(dep));
             Verified(t, p) && s6 == Published(root, q, p).(health := Some(NewHealth(t, q, m)))
    requires AllSafe(t, Create(t, root, q).states)
    requires var run := Retain(t, s6, Expired(s6.points, q.retention, q.name));
             run.ok && |run.states| == 4 * |Expiring(root.points, q.retention)|
    ensures var run := Retain(t, s6, Expired(s6.points, q.retention, q.name));
            && (Create(t, root, q).ok <==> RetentionRuns(root, q))
            && (RetentionRuns(root, q) ==> LastRoot(root, Create(t, root, q).states) == LastRoot(s6, run.states))
    ensures Safe(t, LastRoot(root, Create(t, root, q).states))
  {
    hide Verified, Matches, Retain, Expired, Expiring, Listed, Lookup, Safe;
    var run := Hindered(Retain(t, s6, Expired(s6.points, q.retention, q.name)), q.retentionFails);
    var states := Create(t, root, q).states;
    assert states[|states| - 1] == LastRoot(s6, run.states);
  }

  lemma ListedNames(es: seq<Entry>, e: Entry, at: nat)
    requires DistinctNames(es) && e.name !in Names(es)
    ensures var l := Listed(es, e, at); DistinctNames(l) && Names(l) == Names(es) + {e.name} && |l| == |es| + 1
  {
    var l := Listed(es, e, at);
    var k := if at <= |es| then at else |es|;
    assert l == es[..k] + [e] + es[k..];
    assert forall i :: 0 <= i < |l| ==> l[i] == if i < k then es[i] else if i == k then e else es[i - 1];
    forall x ensures x in Names(l) <==> x in Names(es) || x == e.name {
      if x in Names(es) {
        var i :| 0 <= i < |es| && es[i].name == x;
        assert l[if i < k then i else i + 1].name == x;
      }
      if x == e.name { assert l[k].name == x; }
    }
    forall i, j | 0 <= i < j < |l| ensures l[i].name != l[j].name {
      assert i != k ==> l[i].name in Names(es);
      assert j != k ==> l[j].name in Names(es);
    }
  }

  /** The record exists and is safe to follow. */
  predicate ValidPointer(t: Tools, root: Root) { root.health.Some? && Safe(t, root) }
}
