/** The first traversal: a bounded summary of an untrusted trace, accepted exactly
    when the recursive tree satisfies every bound. */
module TracePreview {
  import opened Text
  import opened ProviderValues
  import opened TraceModel

  predicate Readable(vs: seq<Visit>) {
    forall i :: 0 <= i < |vs| ==> ReadNode(vs[i].node).Some? && vs[i].depth <= MAX_DEPTH
  }

  function FactsAt(vs: seq<Visit>, i: nat): Facts
    requires Readable(vs) && i < |vs|
  {
    ReadNode(vs[i].node).value
  }

  predicate DistinctHashes(vs: seq<Visit>)
    requires Readable(vs)
  {
    forall i, j :: 0 <= i < j < |vs| ==> FactsAt(vs, i).hash != FactsAt(vs, j).hash
  }

  /** No two transactions share an account and a logical time. */
  predicate DistinctCoordinates(vs: seq<Visit>)
    requires Readable(vs)
  {
    forall i, j :: 0 <= i < j < |vs| ==>
      (FactsAt(vs, i).account, FactsAt(vs, i).lt) != (FactsAt(vs, j).account, FactsAt(vs, j).lt)
  }

  function OutCount(vs: seq<Visit>): nat {
    if vs == [] then 0 else OutCount(vs[..|vs| - 1]) + |OutMessages(vs[|vs| - 1].node)|
  }

  function InternalIn(ms: seq<RawMessage>): (n: nat)
    ensures n <= |ms|
  {
    if ms == [] then 0
    else InternalIn(ms[..|ms| - 1]) +
         if ms[|ms| - 1].Message? && ms[|ms| - 1].msgType == Str("int_msg") then 1 else 0
  }

  function PendingInternal(vs: seq<Visit>): (n: nat)
    ensures n <= OutCount(vs)
  {
    if vs == [] then 0 else PendingInternal(vs[..|vs| - 1]) + InternalIn(OutMessages(vs[|vs| - 1].node))
  }

  function Succeeded(vs: seq<Visit>): (n: nat)
    requires Readable(vs)
    ensures n <= |vs|
  {
    if vs == [] then 0 else Succeeded(vs[..|vs| - 1]) + if FactsAt(vs, |vs| - 1).success then 1 else 0
  }

  function Aborted(vs: seq<Visit>): (n: nat)
    requires Readable(vs)
    ensures n <= |vs|
  {
    if vs == [] then 0 else Aborted(vs[..|vs| - 1]) + if FactsAt(vs, |vs| - 1).aborted then 1 else 0
  }

  function Hashes(vs: seq<Visit>): set<string>
    requires Readable(vs)
  {
    set i | 0 <= i < |vs| :: FactsAt(vs, i).hash
  }

  function Coordinates(vs: seq<Visit>): set<(string, string)>
    requires Readable(vs)
  {
    set i | 0 <= i < |vs| :: (FactsAt(vs, i).account, FactsAt(vs, i).lt)
  }

  function Accounts(vs: seq<Visit>): set<string>
    requires Readable(vs)
  {
    set i | 0 <= i < |vs| :: FactsAt(vs, i).account
  }

  function Deepest(vs: seq<Visit>): nat {
    if vs == [] then 0
    else var d := Deepest(vs[..|vs| - 1]); if vs[|vs| - 1].depth > d then vs[|vs| - 1].depth else d
  }

  /** The anchored transaction, by its canonical hash. */
  function Anchor(vs: seq<Visit>, requested: string): Option<Facts>
    requires Readable(vs)
  {
    if vs == [] then None
    else if FactsAt(vs, |vs| - 1).hash == requested then Some(FactsAt(vs, |vs| - 1))
    else Anchor(vs[..|vs| - 1], requested)
  }

  /** Everything the traversal requires of the nodes seen so far. */
  predicate GoodSoFar(vs: seq<Visit>) {
    Readable(vs) && |vs| <= MAX_NODES && DistinctHashes(vs) && DistinctCoordinates(vs) &&
      OutCount(vs) <= MAX_OUT_MESSAGES
  }

  /** A trace the preview accepts. */
  predicate Acceptable(payload: RawNode, requested: string) {
    IsLowerHex(requested, 64) && GoodSoFar(Tree(payload)) && requested in Hashes(Tree(payload))
  }

  datatype State = PendingTrace | FinalizedTrace

  datatype Summary = Summary(
    rootHash: string, transactionCount: nat, maxDepth: nat, outMessageCount: nat, pendingInternalMessageCount: nat,
    successfulCount: nat, failedCount: nat, abortedCount: nat, uniqueAccountCount: nat)

  datatype Preview = Preview(state: State, anchor: Facts, summary: Summary)

  /** The summary as closed forms over the recursive preorder. */
  function PreviewOf(payload: RawNode, requested: string): Preview
    requires Acceptable(payload, requested)
  {
    var vs := Tree(payload);
    AnchorExists(vs, requested);
    Preview(if PendingInternal(vs) > 0 then PendingTrace else FinalizedTrace, Anchor(vs, requested).value,
            Summary(FactsAt(vs, 0).hash, |vs|, Deepest(vs), OutCount(vs), PendingInternal(vs), Succeeded(vs),
                    |vs| - Succeeded(vs), Aborted(vs), |Accounts(vs)|))
  }

  lemma {:induction false} PrefixIsGood(vs: seq<Visit>, n: nat)
    requires GoodSoFar(vs) && n <= |vs|
    ensures GoodSoFar(vs[..n])
    decreases |vs| - n
  {
    hide GoodSoFar;
    if n < |vs| {
      PrefixIsGood(vs, n + 1);
      PrefixOnceMore(vs[..n + 1]);
      assert vs[..n + 1][..n] == vs[..n];
    } else {
      assert vs[..n] == vs;
    }
  }

  lemma PrefixOnceMore(vs: seq<Visit>)
    requires GoodSoFar(vs) && vs != []
    ensures GoodSoFar(vs[..|vs| - 1])
  {
    hide ReadNode;
    var front := vs[..|vs| - 1];
    assert Readable(front);
    assert forall i :: 0 <= i < |front| ==> FactsAt(front, i) == FactsAt(vs, i);
  }

  // ----- the traversal

  /** The counters and sets of the loop. */
  datatype Tally = Tally(
    rootHash: Option<string>, count: nat, maxDepth: nat, outCount: nat, pendingInternal: nat,
    succeeded: nat, failed: nat, aborted: nat, accounts: set<string>,
    seenHashes: set<string>, seenCoordinates: map<(string, string), string>, anchor: Option<Facts>)

  /** The tally as closed forms over the nodes done. */
  ghost predicate Tallies(t: Tally, vs: seq<Visit>, requested: string)
    requires Readable(vs)
  {
    && t.rootHash == (if vs == [] then None else Some(FactsAt(vs, 0).hash))
    && t.count == |vs| && t.maxDepth == Deepest(vs) && t.outCount == OutCount(vs)
    && t.pendingInternal == PendingInternal(vs)
    && t.succeeded == Succeeded(vs) && t.failed == |vs| - Succeeded(vs) && t.aborted == Aborted(vs)
    && t.accounts == Accounts(vs) && t.seenHashes == Hashes(vs) && t.seenCoordinates.Keys == Coordinates(vs)
    && t.seenCoordinates.Values <= Hashes(vs)
    && t.anchor == Anchor(vs, requested)
  }

  method CountInternal(ms: seq<RawMessage>) returns (n: nat)
    requires forall i :: 0 <= i < |ms| ==> ms[i].Message?
    ensures n == InternalIn(ms)
  {
    n := 0;
    for i := 0 to |ms|
      invariant n == InternalIn(ms[..i])
    {
      assert ms[..i + 1][..i] == ms[..i];
      if ms[i].msgType == Str("int_msg") { n := n + 1; }
    }
    assert ms[..|ms|] == ms;
  }

  /** The updates of one iteration. */
  function Add(t: Tally, depth: nat, f: Facts, out: nat, internal: nat, requested: string): Tally {
    Tally(if t.rootHash.None? then Some(f.hash) else t.rootHash, t.count + 1,
          if depth > t.maxDepth then depth else t.maxDepth,
          t.outCount + out, t.pendingInternal + internal,
          t.succeeded + (if f.success then 1 else 0), t.failed + (if f.success then 0 else 1),
          t.aborted + (if f.aborted then 1 else 0), t.accounts + {f.account}, t.seenHashes + {f.hash},
          t.seenCoordinates[(f.account, f.lt) := f.hash], if f.hash == requested then Some(f) else t.anchor)
  }

  /** The duplicate tests of the loop. */
  predicate Repeats(t: Tally, f: Facts) {
    f.hash in t.seenHashes ||
    ((f.account, f.lt) in t.seenCoordinates && t.seenCoordinates[(f.account, f.lt)] != f.hash)
  }

  lemma Extended(vs: seq<Visit>, v: Visit)
    requires Readable(vs) && ReadNode(v.node).Some? && v.depth <= MAX_DEPTH
    ensures Readable(vs + [v]) && FactsAt(vs + [v], |vs|) == ReadNode(v.node).value
    ensures forall i :: 0 <= i < |vs| ==> FactsAt(vs + [v], i) == FactsAt(vs, i)
    ensures (vs + [v])[..|vs|] == vs
  {
    hide ReadNode;
  }

  lemma AddTallies(t: Tally, vs: seq<Visit>, v: Visit, requested: string)
    requires Readable(vs) && Tallies(t, vs, requested) && ReadNode(v.node).Some? && v.depth <= MAX_DEPTH
    requires !Repeats(t, ReadNode(v.node).value)
    ensures Readable(vs + [v])
    ensures Tallies(Add(t, v.depth, ReadNode(v.node).value, |OutMessages(v.node)|, InternalIn(OutMessages(v.node)),
                        requested),
                    vs + [v], requested)
  {
    hide ReadNode, InternalIn, OutMessages, Readable, FactsAt, Hashes, Coordinates, Accounts;
    Extended(vs, v);
    var f := ReadNode(v.node).value;
    HashesExtend(vs, v);
    CoordinatesExtend(vs, v);
    AccountsExtend(vs, v);
    var t' := Add(t, v.depth, f, |OutMessages(v.node)|, InternalIn(OutMessages(v.node)), requested);
    assert t'.seenCoordinates.Keys == Coordinates(vs) + {(f.account, f.lt)};
    assert t'.seenCoordinates.Values <= t.seenCoordinates.Values + {f.hash};
  }

  lemma HashesExtend(vs: seq<Visit>, v: Visit)
    requires Readable(vs) && ReadNode(v.node).Some? && v.depth <= MAX_DEPTH
    ensures Readable(vs + [v])
    ensures var f := ReadNode(v.node).value; Hashes(vs + [v]) == Hashes(vs) + {f.hash}
  {
    hide ReadNode, Readable, FactsAt;
    Extended(vs, v);
    var f, all := ReadNode(v.node).value, vs + [v];
    forall x ensures x in Hashes(all) <==> x in Hashes(vs) + {f.hash} {
      if x in Hashes(vs) {
        var i :| 0 <= i < |vs| && FactsAt(vs, i).hash == x;
        assert FactsAt(all, i).hash == x;
      }
    }
  }

  lemma CoordinatesExtend(vs: seq<Visit>, v: Visit)
    requires Readable(vs) && ReadNode(v.node).Some? && v.depth <= MAX_DEPTH
    ensures Readable(vs + [v])
    ensures var f := ReadNode(v.node).value; Coordinates(vs + [v]) == Coordinates(vs) + {(f.account, f.lt)}
  {
    hide ReadNode, Readable, FactsAt;
    Extended(vs, v);
    var f, all := ReadNode(v.node).value, vs + [v];
    forall x ensures x in Coordinates(all) <==> x in Coordinates(vs) + {(f.account, f.lt)} {
      if x in Coordinates(vs) {
        var i :| 0 <= i < |vs| && (FactsAt(vs, i).account, FactsAt(vs, i).lt) == x;
        assert (FactsAt(all, i).account, FactsAt(all, i).lt) == x;
      }
    }
  }

  lemma AccountsExtend(vs: seq<Visit>, v: Visit)
    requires Readable(vs) && ReadNode(v.node).Some? && v.depth <= MAX_DEPTH
    ensures Readable(vs + [v])
    ensures var f := ReadNode(v.node).value; Accounts(vs + [v]) == Accounts(vs) + {f.account}
  {
    hide ReadNode, Readable, FactsAt;
    Extended(vs, v);
    var f, all := ReadNode(v.node).value, vs + [v];
    forall x ensures x in Accounts(all) <==> x in Accounts(vs) + {f.account} {
      if x in Accounts(vs) {
        var i :| 0 <= i < |vs| && FactsAt(vs, i).account == x;
        assert FactsAt(all, i).account == x;
      }
    }
  }

  /** The duplicate tests fire exactly on a repeated hash or coordinate. */
  lemma RepeatsExactly(t: Tally, vs: seq<Visit>, v: Visit, requested: string)
    requires GoodSoFar(vs) && Tallies(t, vs, requested) && ReadNode(v.node).Some? && v.depth <= MAX_DEPTH
    ensures Readable(vs + [v])
    ensures Repeats(t, ReadNode(v.node).value) <==> !(DistinctHashes(vs + [v]) && DistinctCoordinates(vs + [v]))
  {
    hide ReadNode, Readable, FactsAt, OutCount, PendingInternal, Succeeded, Aborted, Anchor, Deepest;
    Extended(vs, v);
    var f, all := ReadNode(v.node).value, vs + [v];
    if f.hash in t.seenHashes {
      var i :| 0 <= i < |vs| && FactsAt(vs, i).hash == f.hash;
      assert FactsAt(all, i).hash == FactsAt(all, |vs|).hash;
    } else if (f.account, f.lt) in t.seenCoordinates {
      assert t.seenCoordinates[(f.account, f.lt)] in t.seenCoordinates.Values;
      var i :| 0 <= i < |vs| && (FactsAt(vs, i).account, FactsAt(vs, i).lt) == (f.account, f.lt);
      assert (FactsAt(all, i).account, FactsAt(all, i).lt) == (FactsAt(all, |vs|).account, FactsAt(all, |vs|).lt);
    } else {
      forall i, j | 0 <= i < j < |all|
        ensures FactsAt(all, i).hash != FactsAt(all, j).hash
        ensures (FactsAt(all, i).account, FactsAt(all, i).lt) != (FactsAt(all, j).account, FactsAt(all, j).lt)
      {
        if j == |vs| {
          assert FactsAt(vs, i).hash in Hashes(vs);
          assert (FactsAt(vs, i).account, FactsAt(vs, i).lt) in Coordinates(vs);
        }
      }
    }
  }

  lemma FrontIsReadable(vs: seq<Visit>)
    requires Readable(vs) && vs != []
    ensures Readable(vs[..|vs| - 1]) && vs[|vs| - 1].depth <= MAX_DEPTH
    ensures ReadNode(vs[|vs| - 1].node) == Some(FactsAt(vs, |vs| - 1))
  {
    hide ReadNode;
  }

  lemma {:induction false} AnchorExists(vs: seq<Visit>, requested: string)
    requires Readable(vs)
    ensures Anchor(vs, requested).Some? <==> requested in Hashes(vs)
  {
    hide ReadNode, Readable, FactsAt, Coordinates, Accounts;
    if vs != [] {
      var n := |vs| - 1;
      FrontIsReadable(vs);
      assert vs == vs[..n] + [vs[n]];
      AnchorExists(vs[..n], requested);
      HashesExtend(vs[..n], vs[n]);
    }
  }

  // ----- the explicit stack

  /** The stack of the code, seen as frames that also know their parent. */
  ghost predicate Mirrors(stack: seq<(RawNode, nat)>, frames: seq<Visit>) {
    |stack| == |frames| && forall i :: 0 <= i < |stack| ==> stack[i] == (frames[i].node, frames[i].depth)
  }

  /** From position `n` on, the preorder is what these frames have pending. */
  ghost predicate At(all: seq<Visit>, n: nat, frames: seq<Visit>) {
    n <= |all| && all[n..] == Pending(frames, n)
  }

  lemma DropStep(all: seq<Visit>, n: nat, rest: seq<Visit>)
    requires n <= |all| && all[n..] == rest && rest != []
    ensures |all| == n + |rest| && all[n] == rest[0] && all[n + 1..] == rest[1..]
  {
  }

  lemma FirstPending(frames: seq<Visit>, index: nat)
    requires frames != []
    ensures Pending(frames, index)[0] == frames[|frames| - 1]
  {
    hide Preorder, Pending;
    PendingUnfolds(frames, index);
  }

  /** One iteration of any traversal: the top is the next visit, and what its
      children leave pending is the rest. */
  lemma Advance(all: seq<Visit>, n: nat, frames: seq<Visit>)
    requires frames != [] && At(all, n, frames)
    ensures var top := frames[|frames| - 1];
            var next := Pushed(frames[..|frames| - 1], Children(top.node), top.depth + 1, n);
            |all| >= n + |frames| && all[n] == top && At(all, n + 1, next)
  {
    hide Pending, Pushed, Children;
    var top := frames[|frames| - 1];
    var next := Pushed(frames[..|frames| - 1], Children(top.node), top.depth + 1, n);
    FirstPending(frames, n);
    DropStep(all, n, Pending(frames, n));
    PopAndPush(frames, n);
    assert Pending(frames, n)[1..] == Pending(next, n + 1);
  }

  /** A violated bound on the node just popped condemns the whole tree. */
  lemma Condemns(payload: RawNode, requested: string, n: nat)
    requires n < |Tree(payload)| && !GoodSoFar(Tree(payload)[..n + 1])
    ensures !Acceptable(payload, requested)
  {
    hide GoodSoFar, Tree;
    if Acceptable(payload, requested) { PrefixIsGood(Tree(payload), n + 1); }
  }

  method PushChildren(stack: seq<(RawNode, nat)>, children: seq<RawNode>, depth: nat, ghost frames: seq<Visit>,
                      ghost parent: nat)
    returns (r: seq<(RawNode, nat)>)
    requires Mirrors(stack, frames)
    ensures Mirrors(r, Pushed(frames, children, depth, parent))
  {
    r := stack;
    var k := |children|;
    while k > 0
      invariant 0 <= k <= |children| && Mirrors(r, Pushed(frames, children[k..], depth, parent))
    {
      k := k - 1;
      assert children[k..][1..] == children[k + 1..];
      r := r + [(children[k], depth)];
    }
    assert children[0..] == children;
  }

  lemma GoodAfter(t: Tally, done: seq<Visit>, v: Visit, requested: string)
    requires GoodSoFar(done) && Tallies(t, done, requested)
    ensures GoodSoFar(done + [v]) <==>
              v.depth <= MAX_DEPTH && t.count < MAX_NODES && ReadNode(v.node).Some? &&
                !Repeats(t, ReadNode(v.node).value) &&
              t.outCount + |OutMessages(v.node)| <= MAX_OUT_MESSAGES
  {
    hide ReadNode, OutMessages;
    var all := done + [v];
    assert all[|done|] == v && all[..|done|] == done;
    if v.depth <= MAX_DEPTH && ReadNode(v.node).Some? {
      Extended(done, v);
      RepeatsExactly(t, done, v, requested);
    }
  }

  /** Traverse, count and bound an untrusted trace. It is accepted exactly when
      the recursive tree is; the early node-limit test never rejects a tree of at
      most 256 nodes and the stack never outgrows that bound. */
  method NormalizePreview(payload: RawNode, requested: string) returns (r: Option<Preview>, ghost peak: nat)
    ensures r.Some? <==> Acceptable(payload, requested)
    ensures r.Some? ==> r.value == PreviewOf(payload, requested)
    ensures peak <= MAX_NODES
  {
    hide ReadNode, At, Preorder, GoodSoFar, Tallies, Repeats, Add, Pushed, Children, OutMessages, Readable,
         InternalIn, Hashes, Anchor, Pending, IsLowerHex;
    peak := 0;
    r := None;
    if !IsLowerHex(requested, 64) { return; }
    ghost var vs := Tree(payload);
    var stack := [(payload, 0)];
    ghost var frames, n := [Visit(payload, 0, None)], 0;
    var tally := Tally(None, 0, 0, 0, 0, 0, 0, 0, {}, {}, map[], None);
    Start(payload, requested);
    peak := 1;
    while stack != []
      invariant n <= |vs| && Mirrors(stack, frames) && At(vs, n, frames)
      invariant GoodSoFar(vs[..n]) && Readable(vs[..n]) && Tallies(tally, vs[..n], requested)
      invariant tally.count == n && n + |stack| <= MAX_NODES && peak <= MAX_NODES
      decreases MAX_NODES - n
    {
      ghost var top := frames[|frames| - 1];
      Advance(vs, n, frames);
      var (node, depth) := stack[|stack| - 1];
      stack := stack[..|stack| - 1];
      frames := frames[..|frames| - 1];
      assert vs[..n + 1] == vs[..n] + [top];
      GoodAfter(tally, vs[..n], top, requested);
      var facts := ReadNode(node);
      if depth > MAX_DEPTH || tally.count + 1 > MAX_NODES || facts.None? || Repeats(tally, facts.value) ||
         tally.outCount + |OutMessages(node)| > MAX_OUT_MESSAGES {
        Condemns(payload, requested, n);
        return;
      }
      MessagesAreObjects(node);
      var internal := CountInternal(OutMessages(node));
      var children := Children(node);
      if tally.count + 1 + |stack| + |children| > MAX_NODES {
        TooManyNodes(payload, requested, n + 1, Pushed(frames, children, depth + 1, n));
        return;
      }
      AddTallies(tally, vs[..n], top, requested);
      stack := PushChildren(stack, children, depth + 1, frames, n);
      frames := Pushed(frames, children, depth + 1, n);
      tally := Add(tally, depth, facts.value, |OutMessages(node)|, internal, requested);
      n := n + 1;
      CountOfTally(tally, vs[..n], requested);
      if |stack| > peak { peak := |stack|; }
    }
    NothingPending(vs, n);
    assert vs[..n] == vs;
    AnchorExists(vs, requested);
    r := Finish(tally, vs, payload, requested);
  }

  lemma Start(payload: RawNode, requested: string)
    ensures At(Tree(payload), 0, [Visit(payload, 0, None)])
    ensures Tree(payload)[..0] == [] && GoodSoFar([]) && Readable([])
    ensures Tallies(Tally(None, 0, 0, 0, 0, 0, 0, 0, {}, {}, map[], None), [], requested)
  {
    hide Preorder, ReadNode;
    var frames := [Visit(payload, 0, None)];
    assert frames[..0] == [];
    PendingUnfolds(frames, 0);
  }

  lemma NothingPending(all: seq<Visit>, n: nat)
    requires At(all, n, [])
    ensures n == |all|
  {
  }

  lemma MessagesAreObjects(n: RawNode)
    requires ReadNode(n).Some?
    ensures forall i :: 0 <= i < |OutMessages(n)| ==> OutMessages(n)[i].Message?
  {
  }

  lemma CountOfTally(t: Tally, vs: seq<Visit>, requested: string)
    requires Readable(vs) && Tallies(t, vs, requested)
    ensures t.count == |vs|
  {
  }

  lemma TooManyNodes(payload: RawNode, requested: string, n: nat, frames: seq<Visit>)
    requires At(Tree(payload), n, frames) && n + |frames| > MAX_NODES
    ensures !Acceptable(payload, requested)
  {
    hide Preorder, Pending;
    assert |Tree(payload)| == n + |Tree(payload)[n..]|;
  }

  method Finish(t: Tally, ghost vs: seq<Visit>, ghost payload: RawNode, requested: string) returns (r: Option<Preview>)
    requires vs == Tree(payload) && GoodSoFar(vs) && Tallies(t, vs, requested)
    requires Anchor(vs, requested).Some? <==> requested in Hashes(vs)
    requires IsLowerHex(requested, 64)
    ensures r.Some? <==> Acceptable(payload, requested)
    ensures r.Some? ==> r.value == PreviewOf(payload, requested)
  {
    hide ReadNode, Preorder, OutCount, PendingInternal, Succeeded, Aborted, Deepest, Anchor;
    if t.anchor.None? { return None; }
    r := Some(Preview(if t.pendingInternal > 0 then PendingTrace else FinalizedTrace, t.anchor.value,
                      Summary(t.rootHash.value, t.count, t.maxDepth, t.outCount, t.pendingInternal,
                              t.succeeded, t.failed, t.aborted, |t.accounts|)));
  }
}
