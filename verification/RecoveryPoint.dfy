/** External recovery points: staged, published by rename, pointed to by an
    atomic health record, and pruned by a retention policy that never touches
    the point the record names. */
module RecoveryPoint {
  import opened Text

  datatype Release = Release(tag: string, sourceCommit: string, manifestSha: string)

  datatype Manifest = Manifest(createdAt: string, release: Release, deploymentSha: string, size: nat,
                               databaseSha: string, revision: string)

  /** The three files of a point; a file may be missing while it is being written or removed. */
  datatype Point = Point(manifest: Option<Manifest>, database: Option<string>, deployment: Option<string>)

  const EMPTY_POINT := Point(None, None, None)

  datatype Entry = Entry(name: string, mtime: int, point: Point)

  datatype Health = Health(name: string, createdAt: string, manifestSha: string, databaseSha: string, release: Release)

  /** A point being built, and the temporary a failed restore may leave beside it. */
  datatype StagingDirectory = StagingDirectory(point: Point, temporary: bool)

  /** The destination directory: published points in listing order, the health
      record, and a staging directory while one exists. */
  datatype Root = Root(points: seq<Entry>, health: Option<Health>, staging: Option<StagingDirectory>)

  /** Digests, the SQLite check and the deployment-manifest parser. */
  datatype Tools = Tools(sha: string -> string, manifestSha: Manifest -> string, revisionOf: string -> Option<string>,
                         decode: string -> Option<(string, string)>)

  const MAX_DATABASE_BYTES := 1024 * 1024 * 1024 * 1024

  predicate Complete(p: Point) {
    p.manifest.Some? && p.database.Some? && p.deployment.Some? && p.database.value != "" && p.deployment.value != ""
  }

  /** A self-contained point whose files match its manifest. */
  predicate Verified(t: Tools, p: Point) {
    && Complete(p)
    && var m, db, dep := p.manifest.value, p.database.value, p.deployment.value;
       && 1 <= m.size <= MAX_DATABASE_BYTES
       && t.decode(dep) == Some((m.release.tag, m.release.sourceCommit))
       && t.sha(dep) == m.release.manifestSha && t.sha(dep) == m.deploymentSha
       && |db| == m.size && t.sha(db) == m.databaseSha && t.revisionOf(db) == Some(m.revision)
  }

  function Lookup(es: seq<Entry>, name: string): Option<Point> {
    if es == [] then None else if es[0].name == name then Some(es[0].point) else Lookup(es[1..], name)
  }

  predicate Matches(t: Tools, h: Health, m: Manifest) {
    h.release == m.release && h.databaseSha == m.databaseSha && h.manifestSha == t.manifestSha(m) &&
      h.createdAt == m.createdAt
  }

  /** The record names a complete, matching point. */
  predicate Points(t: Tools, es: seq<Entry>, h: Health) {
    var p := Lookup(es, h.name);
    p.Some? && Verified(t, p.value) && Matches(t, h, p.value.manifest.value)
  }

  /** The latest pointer is safe to follow. */
  predicate Safe(t: Tools, root: Root) { root.health.Some? ==> Points(t, root.points, root.health.value) }

  predicate DistinctNames(es: seq<Entry>) { forall i, j :: 0 <= i < j < |es| ==> es[i].name != es[j].name }

  /** No foreign or unfinished entry, every point of the right shape, the record sound. */
  predicate ValidRoot(t: Tools, root: Root) {
    root.staging.None? && (forall i :: 0 <= i < |root.points| ==> Complete(root.points[i].point)) && Safe(t, root)
  }

  predicate Collides<A(==), B(==)>(f: A -> B, a: A, b: A) { a != b && f(a) == f(b) }

  /** A record pins the whole point: whatever stands under its name and passes is
      the same manifest, database and deployment file, or exhibits a collision. */
  lemma RecordPinsPoint(t: Tools, h: Health, p: Point, q: Point)
    requires Verified(t, p) && Matches(t, h, p.manifest.value)
    requires Verified(t, q) && Matches(t, h, q.manifest.value)
    ensures p == q || Collides(t.manifestSha, p.manifest.value, q.manifest.value)
                   || Collides(t.sha, p.database.value, q.database.value)
                   || Collides(t.sha, p.deployment.value, q.deployment.value)
    ensures h.databaseSha == t.sha(p.database.value) && h.release.manifestSha == t.sha(p.deployment.value)
    ensures t.decode(p.deployment.value) == Some((h.release.tag, h.release.sourceCommit))
    ensures h.createdAt == p.manifest.value.createdAt && p.manifest.value.deploymentSha == t.sha(p.deployment.value)
    ensures p.database.value != "" && p.deployment.value != "" && |p.database.value| <= 1_099_511_627_776
    ensures |p.database.value| == p.manifest.value.size
    ensures t.revisionOf(p.database.value) == Some(p.manifest.value.revision)
  {
  }

  // ----- retention

  function Insert(e: Entry, es: seq<Entry>): (r: seq<Entry>)
    ensures |r| == |es| + 1
  {
    if es == [] || e.mtime >= es[0].mtime then [e] + es else [es[0]] + Insert(e, es[1..])
  }

  /** Newest first; entries of equal age keep their listing order. */
  function Newest(es: seq<Entry>): (r: seq<Entry>)
    ensures |r| == |es|
  {
    if es == [] then [] else Insert(es[0], Newest(es[1..]))
  }

  function Without(es: seq<Entry>, name: string): (r: seq<Entry>)
    ensures |r| <= |es|
  {
    if es == [] then [] else if es[0].name == name then Without(es[1..], name) else [es[0]] + Without(es[1..], name)
  }

  /** Points that the next publication will have to remove. */
  function Expiring(es: seq<Entry>, retention: nat): seq<Entry>
    requires retention >= 2
  {
    var sorted := Newest(es);
    if |sorted| < retention then [] else sorted[retention - 1..]
  }

  predicate AllVerified(t: Tools, es: seq<Entry>) { forall i :: 0 <= i < |es| ==> Verified(t, es[i].point) }

  function Names(es: seq<Entry>): set<string> { set i | 0 <= i < |es| :: es[i].name }

  /** What retention removes, in removal order: everything but the protected point
      and the newest others that fit. */
  function Expired(es: seq<Entry>, retention: nat, protectedName: string): seq<Entry>
    requires retention >= 2
  {
    var sorted := Newest(es);
    var remaining := Without(sorted, protectedName);
    Keep(sorted, {protectedName} + Names(if |remaining| < retention then remaining else remaining[..retention - 1]))
  }

  /** Entries whose name is not among those retained. */
  function Keep(es: seq<Entry>, retained: set<string>): seq<Entry> {
    if es == [] then []
    else if es[0].name in retained then Keep(es[1..], retained)
    else [es[0]] + Keep(es[1..], retained)
  }

  lemma {:induction false} InsertWithout(e: Entry, es: seq<Entry>, name: string)
    ensures Without(Insert(e, es), name) == if e.name == name then Without(es, name) else Insert(e, Without(es, name))
    requires Descending(es)
  {
    if es != [] && e.mtime < es[0].mtime {
      InsertWithout(e, es[1..], name);
      assert Insert(e, es)[1..] == Insert(e, es[1..]);
    } else {
      assert ([e] + es)[1..] == es;
      WithoutDescends(es, name);
      if es != [] { HeadOfWithout(es, name); }
    }
  }

  predicate Descending(es: seq<Entry>) { forall i, j :: 0 <= i < j < |es| ==> es[i].mtime >= es[j].mtime }

  lemma HeadOfWithout(es: seq<Entry>, name: string)
    requires Descending(es) && es != []
    ensures var w := Without(es, name); w != [] ==> w[0].mtime <= es[0].mtime
  {
    if es[0].name == name && |es| > 1 { HeadOfWithout(es[1..], name); }
  }

  lemma {:induction false} WithoutDescends(es: seq<Entry>, name: string)
    requires Descending(es)
    ensures Descending(Without(es, name))
  {
    if es != [] {
      WithoutDescends(es[1..], name);
      if |es| > 1 { HeadOfWithout(es[1..], name); }
    }
  }

  lemma {:induction false} NewestDescends(es: seq<Entry>)
    ensures Descending(Newest(es))
  {
    if es != [] {
      NewestDescends(es[1..]);
      InsertDescends(es[0], Newest(es[1..]));
    }
  }

  lemma {:induction false} InsertDescends(e: Entry, es: seq<Entry>)
    requires Descending(es)
    ensures Descending(Insert(e, es)) &&
            Insert(e, es)[0].mtime == (if es == [] || e.mtime >= es[0].mtime then e.mtime else es[0].mtime)
  {
    if es != [] && e.mtime < es[0].mtime {
      InsertDescends(e, es[1..]);
    }
  }

  /** Dropping one name commutes with sorting. */
  lemma {:induction false} SortWithout(es: seq<Entry>, name: string)
    ensures Without(Newest(es), name) == Newest(Without(es, name))
  {
    if es != [] {
      SortWithout(es[1..], name);
      NewestDescends(es[1..]);
      InsertWithout(es[0], Newest(es[1..]), name);
    }
  }

  /** The entries of one age, in order. */
  function OfAge(es: seq<Entry>, mtime: int): seq<Entry> {
    if es == [] then [] else (if es[0].mtime == mtime then [es[0]] else []) + OfAge(es[1..], mtime)
  }

  lemma {:induction false} InsertKeepsAges(e: Entry, es: seq<Entry>, mtime: int)
    requires Descending(es)
    ensures OfAge(Insert(e, es), mtime) == (if e.mtime == mtime then [e] else []) + OfAge(es, mtime)
  {
    if es != [] && e.mtime < es[0].mtime {
      InsertKeepsAges(e, es[1..], mtime);
      assert Insert(e, es)[1..] == Insert(e, es[1..]);
      if e.mtime == mtime { assert es[0].mtime != mtime; }
    } else {
      assert ([e] + es)[1..] == es;
    }
  }

  /** Newest first, and entries of the same age keep their listing order. */
  lemma {:induction false} NewestIsStable(es: seq<Entry>, mtime: int)
    ensures Descending(Newest(es)) && OfAge(Newest(es), mtime) == OfAge(es, mtime)
  {
    if es != [] {
      NewestIsStable(es[1..], mtime);
      NewestDescends(es[1..]);
      NewestDescends(es);
      InsertKeepsAges(es[0], Newest(es[1..]), mtime);
    }
  }

  lemma WithoutCons(e: Entry, es: seq<Entry>, name: string)
    ensures Without([e] + es, name) == if e.name == name then Without(es, name) else [e] + Without(es, name)
  {
    assert ([e] + es)[1..] == es;
  }

  lemma {:induction false} WithoutConcat(a: seq<Entry>, b: seq<Entry>, name: string)
    ensures Without(a + b, name) == Without(a, name) + Without(b, name)
  {
    hide Without;
    if a == [] {
      assert a + b == b && Without(a, name) == [];
    } else {
      assert a + b == [a[0]] + (a[1..] + b) && a == [a[0]] + a[1..];
      WithoutConcat(a[1..], b, name);
      WithoutCons(a[0], a[1..] + b, name);
      WithoutCons(a[0], a[1..], name);
      assert [a[0]] + (Without(a[1..], name) + Without(b, name)) == ([a[0]] + Without(a[1..], name)) + Without(b, name);
    }
  }

  lemma {:induction false} NothingToDrop(es: seq<Entry>, name: string)
    requires name !in Names(es)
    ensures Without(es, name) == es
  {
    if es != [] {
      assert es[0].name in Names(es);
      assert forall i :: 0 <= i < |es[1..]| ==> es[1..][i].name == es[i + 1].name;
      NothingToDrop(es[1..], name);
    }
  }

  /** The listing with a new entry somewhere in it. */
  function Listed(es: seq<Entry>, e: Entry, at: nat): seq<Entry> {
    if at <= |es| then es[..at] + [e] + es[at..] else es + [e]
  }

  lemma ListedWithout(es: seq<Entry>, e: Entry, at: nat)
    requires e.name !in Names(es)
    ensures Without(Listed(es, e, at), e.name) == es
  {
    var k := if at <= |es| then at else |es|;
    var a, b := es[..k], es[k..];
    assert Listed(es, e, at) == a + ([e] + b) && es == a + b;
    NothingToDrop(es, e.name);
    WithoutConcat(a, [e] + b, e.name);
    WithoutConcat([e], b, e.name);
    WithoutConcat(a, b, e.name);
  }

  lemma {:induction false} InsertKeepsNames(e: Entry, es: seq<Entry>)
    requires DistinctNames(es) && e.name !in Names(es)
    ensures DistinctNames(Insert(e, es)) && Names(Insert(e, es)) == Names(es) + {e.name}
  {
    if es == [] || e.mtime >= es[0].mtime {
      ConsNames(e, es);
    } else {
      ConsNames(es[0], es[1..]);
      assert es == [es[0]] + es[1..];
      InsertKeepsNames(e, es[1..]);
      ConsNames(es[0], Insert(e, es[1..]));
    }
  }

  lemma ConsNames(e: Entry, es: seq<Entry>)
    ensures Names([e] + es) == {e.name} + Names(es)
    ensures DistinctNames([e] + es) <==> DistinctNames(es) && e.name !in Names(es)
  {
    var all := [e] + es;
    forall n ensures n in Names(all) <==> n == e.name || n in Names(es) {
      if n in Names(es) { var i :| 0 <= i < |es| && es[i].name == n; assert all[i + 1].name == n; }
      if n == e.name { assert all[0].name == n; }
    }
    if DistinctNames(all) {
      forall i, j | 0 <= i < j < |es| ensures es[i].name != es[j].name {
        assert all[i + 1] == es[i] && all[j + 1] == es[j];
      }
      forall i | 0 <= i < |es| ensures es[i].name != e.name { assert all[i + 1] == es[i] && all[0] == e; }
    } else if DistinctNames(es) {
      var i, j :| 0 <= i < j < |all| && all[i].name == all[j].name;
      assert all[j] == es[j - 1];
      assert i == 0;
    }
  }

  lemma {:induction false} SortKeepsNames(es: seq<Entry>)
    requires DistinctNames(es)
    ensures DistinctNames(Newest(es)) && Names(Newest(es)) == Names(es)
  {
    if es != [] {
      assert es == [es[0]] + es[1..];
      ConsNames(es[0], es[1..]);
      SortKeepsNames(es[1..]);
      InsertKeepsNames(es[0], Newest(es[1..]));
    }
  }

  lemma {:induction false} KeepIgnores(es: seq<Entry>, name: string, retained: set<string>)
    ensures Keep(es, {name} + retained) == Keep(Without(es, name), retained)
  {
    if es != [] { KeepIgnores(es[1..], name, retained); }
  }

  lemma {:induction false} KeepSplit(a: seq<Entry>, b: seq<Entry>, retained: set<string>)
    requires (forall i :: 0 <= i < |a| ==> a[i].name in retained) && forall i :: 0 <= i < |b| ==> b[i].name !in retained
    ensures Keep(a + b, retained) == b
    decreases |a| + |b|
  {
    if a != [] {
      assert (a + b)[1..] == a[1..] + b;
      KeepSplit(a[1..], b, retained);
    } else if b != [] {
      assert a + b == b && [] + b[1..] == b[1..];
      KeepSplit([], b[1..], retained);
    }
  }

  lemma KeepTail(es: seq<Entry>, n: nat)
    requires DistinctNames(es) && n <= |es|
    ensures Keep(es, Names(es[..n])) == es[n..]
  {
    var a, b := es[..n], es[n..];
    assert es == a + b;
    forall i | 0 <= i < |b| ensures b[i].name !in Names(a) {
      assert b[i] == es[n + i];
    }
    KeepSplit(a, b, Names(a));
  }

  /** Retention after publishing removes exactly the points that preflight
      verified before, in the same order, wherever the new entry is listed. */
  lemma ExpiredWereExpiring(es: seq<Entry>, e: Entry, at: nat, retention: nat)
    requires retention >= 2 && DistinctNames(es) && e.name !in Names(es)
    ensures Expired(Listed(es, e, at), retention, e.name) == Expiring(es, retention)
  {
    var listed, s := Listed(es, e, at), Newest(es);
    ListedWithout(es, e, at);
    SortWithout(listed, e.name);
    SortKeepsNames(es);
    var kept := if |s| < retention then s else s[..retention - 1];
    KeepIgnores(Newest(listed), e.name, Names(kept));
    var n := if |s| < retention then |s| else retention - 1;
    assert kept == s[..n] && s[|s|..] == [];
    KeepTail(s, n);
  }

  // ----- removing points

  function SetPoint(es: seq<Entry>, name: string, p: Point): seq<Entry> {
    if es == [] then [] else (if es[0].name == name then [es[0].(point := p)] else [es[0]]) + SetPoint(es[1..], name, p)
  }

  lemma {:induction false} OthersStay(es: seq<Entry>, name: string, p: Point, other: string)
    requires other != name
    ensures Lookup(SetPoint(es, name, p), other) == Lookup(es, other) == Lookup(Without(es, name), other)
  {
    if es != [] {
      OthersStay(es[1..], name, p, other);
      assert SetPoint(es, name, p)[1..] == SetPoint(es[1..], name, p);
    }
  }

  /** The three unlinks and the rmdir. */
  function RemovalStates(root: Root, name: string, p: Point): (r: seq<Root>)
    ensures |r| == 4
  {
    [root.(points := SetPoint(root.points, name, p.(manifest := None))),
     root.(points := SetPoint(root.points, name, p.(manifest := None, database := None))),
     root.(points := SetPoint(root.points, name, EMPTY_POINT)),
     root.(points := Without(root.points, name))]
  }

  /** The states passed through, and whether the operation returned normally. */
  datatype Run = Run(states: seq<Root>, ok: bool)

  function LastRoot(root: Root, states: seq<Root>): Root { if states == [] then root else states[|states| - 1] }

  /** Remove these points one by one, verifying each first. */
  function Retain(t: Tools, root: Root, expired: seq<Entry>): Run
    decreases |expired|
  {
    if expired == [] then Run([], true)
    else
      var p := Lookup(root.points, expired[0].name);
      if p.None? || !Verified(t, p.value) then Run([], false)
      else
        var states := RemovalStates(root, expired[0].name, p.value);
        var rest := Retain(t, states[3], expired[1..]);
        Run(states + rest.states, rest.ok)
  }

  /** A run in which a call fails after `f` others: an unlink, an rmdir, or at the
      end the flush of the directory. */
  function Hindered(run: Run, f: Option<nat>): Run {
    if f.Some? && f.value <= |run.states| then Run(run.states[..f.value], false) else run
  }

  predicate AllSafe(t: Tools, states: seq<Root>) { forall i :: 0 <= i < |states| ==> Safe(t, states[i]) }

  lemma SafeConcat(t: Tools, a: seq<Root>, b: seq<Root>)
    requires AllSafe(t, a) && AllSafe(t, b)
    ensures AllSafe(t, a + b)
  {
    hide Safe;
  }

  lemma RemovalIsSafe(t: Tools, root: Root, name: string, p: Point)
    requires Safe(t, root) && (root.health.Some? ==> root.health.value.name != name)
    ensures AllSafe(t, RemovalStates(root, name, p))
  {
    hide Verified, Matches;
    if root.health.Some? {
      var other := root.health.value.name;
      OthersStay(root.points, name, p.(manifest := None), other);
      OthersStay(root.points, name, p.(manifest := None, database := None), other);
      OthersStay(root.points, name, EMPTY_POINT, other);
    }
  }

  /** No state of a retention run, finished or not, loses the named point. */
  lemma {:induction false} RetentionIsSafe(t: Tools, root: Root, expired: seq<Entry>)
    requires Safe(t, root) && (root.health.Some? ==> root.health.value.name !in Names(expired))
    ensures AllSafe(t, Retain(t, root, expired).states)
    decreases |expired|
  {
    hide Safe, Verified;
    if expired != [] {
      var p := Lookup(root.points, expired[0].name);
      assert expired == [expired[0]] + expired[1..];
      ConsNames(expired[0], expired[1..]);
      if p.Some? && Verified(t, p.value) {
        var states := RemovalStates(root, expired[0].name, p.value);
        RemovalIsSafe(t, root, expired[0].name, p.value);
        RetentionIsSafe(t, states[3], expired[1..]);
        SafeConcat(t, states, Retain(t, states[3], expired[1..]).states);
      }
    }
  }

  /** Without every name of a list. */
  function WithoutAll(es: seq<Entry>, gone: seq<Entry>): seq<Entry>
    decreases |gone|
  {
    if gone == [] then es else WithoutAll(Without(es, gone[0].name), gone[1..])
  }

  predicate Holds(es: seq<Entry>, some: seq<Entry>) {
    forall i :: 0 <= i < |some| ==> Lookup(es, some[i].name) == Some(some[i].point)
  }

  /** When the listed points are there and verify, retention runs to the end and
      removes exactly them. */
  lemma {:induction false} RetentionCompletes(t: Tools, root: Root, expired: seq<Entry>)
    requires AllVerified(t, expired) && DistinctNames(expired) && Holds(root.points, expired)
    ensures var run := Retain(t, root, expired);
            && run.ok && LastRoot(root, run.states) == root.(points := WithoutAll(root.points, expired))
            && |run.states| == 4 * |expired|
    decreases |expired|
  {
    hide Verified;
    if expired != [] {
      var e, rest := expired[0], expired[1..];
      assert expired == [e] + rest;
      ConsNames(e, rest);
      var next := RemovalStates(root, e.name, e.point)[3];
      forall i | 0 <= i < |rest| ensures Lookup(next.points, rest[i].name) == Some(rest[i].point) {
        assert expired[i + 1] == rest[i] && rest[i].name in Names(rest);
        OthersStay(root.points, e.name, e.point, rest[i].name);
      }
      RetentionCompletes(t, next, rest);
    }
  }
}
