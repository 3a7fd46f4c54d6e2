/** What an accepted trace guarantees: the tree is recoverable from the stored
    rows, the counts satisfy the response schemas and the rows the unique indexes. */
module TraceProperties {
  import opened Text
  import opened ProviderValues
  import opened TraceModel
  import opened TracePreview
  import opened TracePersisted
  import opened TraceEvidence

  // ----- rebuilding the tree

  datatype FactTree = FactTree(facts: Facts, children: seq<FactTree>)

  /** A stored entry: its depth and what was kept of its transaction. */
  datatype Entry = Entry(depth: nat, facts: Facts)

  /** The transaction tree that the provider sent. */
  function Image(n: RawNode): FactTree
    decreases n, 1
  {
    FactTree(if ReadNode(n).Some? then ReadNode(n).value else Facts("", "", "", 0, false, false),
             if n.Node? && n.children.Items? then Images(n.children.items) else [])
  }

  function Images(ns: seq<RawNode>): seq<FactTree>
    decreases ns, 0
  {
    if ns == [] then [] else [Image(ns[0])] + Images(ns[1..])
  }

  function EntryOf(v: Visit): Entry {
    Entry(v.depth, if ReadNode(v.node).Some? then ReadNode(v.node).value else Facts("", "", "", 0, false, false))
  }

  function Entries(vs: seq<Visit>): (r: seq<Entry>)
    ensures |r| == |vs| && forall i :: 0 <= i < |vs| ==> r[i] == EntryOf(vs[i])
  {
    seq(|vs|, i requires 0 <= i < |vs| => EntryOf(vs[i]))
  }

  /** Read consecutive trees at `depth` off the front of a depth-annotated list. */
  function Rebuild(es: seq<Entry>, depth: nat): (r: (seq<FactTree>, seq<Entry>))
    ensures |r.1| <= |es|
    decreases |es|
  {
    if es == [] || es[0].depth != depth then ([], es)
    else
      var (children, rest) := Rebuild(es[1..], depth + 1);
      var (siblings, tail) := Rebuild(rest, depth);
      ([FactTree(es[0].facts, children)] + siblings, tail)
  }

  /** The next entry, if any, is no deeper than `depth`. */
  predicate Shallow(es: seq<Entry>, depth: nat) { es != [] ==> es[0].depth <= depth }

  lemma {:induction false} RebuildForest(ns: seq<RawNode>, depth: nat, parent: nat, index: nat, tail: seq<Entry>)
    requires tail != [] ==> tail[0].depth < depth
    ensures Rebuild(Entries(Forest(ns, depth, parent, index)) + tail, depth) == (Images(ns), tail)
    decreases ns, 0
  {
    hide ReadNode, Preorder, Image, EntryOf, Forest, Rebuild;
    if ns == [] {
      EmptyForest(depth, parent, index);
      assert Entries(Forest(ns, depth, parent, index)) + tail == tail;
      NoTreeHere(tail, depth);
    } else {
      var first := Preorder(ns[0], depth, Some(parent), index);
      var rest := Forest(ns[1..], depth, parent, index + |first|);
      ForestUnfolds(ns, depth, parent, index);
      RebuildForest(ns[1..], depth, parent, index + |first|, tail);
      assert Entries(first + rest) + tail == Entries(first) + (Entries(rest) + tail);
      ForestHead(ns[1..], depth, parent, index + |first|);
      RebuildTree(ns[0], depth, Some(parent), index, Entries(rest) + tail);
    }
  }

  lemma NoTreeHere(tail: seq<Entry>, depth: nat)
    requires tail != [] ==> tail[0].depth < depth
    ensures Rebuild(tail, depth) == ([], tail)
  {
  }

  lemma ForestHead(ns: seq<RawNode>, depth: nat, parent: nat, index: nat)
    ensures var vs := Forest(ns, depth, parent, index); vs != [] ==> EntryOf(vs[0]).depth == depth
  {
  }

  lemma {:induction false} RebuildTree(n: RawNode, depth: nat, parent: Option<nat>, index: nat, rest: seq<Entry>)
    requires Shallow(rest, depth)
    ensures Rebuild(Entries(Preorder(n, depth, parent, index)) + rest, depth) ==
            ([Image(n)] + Rebuild(rest, depth).0, Rebuild(rest, depth).1)
    decreases n, 1
  {
    hide ReadNode, Forest;
    var top := Visit(n, depth, parent);
    if n.Node? && n.children.Items? {
      var below := Forest(n.children.items, depth + 1, index, index + 1);
      RebuildForest(n.children.items, depth + 1, index, index + 1, rest);
      assert Entries([top] + below) + rest == [EntryOf(top)] + (Entries(below) + rest);
      RebuildOne(EntryOf(top), Entries(below) + rest, depth, Images(n.children.items), rest);
    } else {
      assert Entries([top]) + rest == [EntryOf(top)] + rest;
      RebuildOne(EntryOf(top), rest, depth, [], rest);
    }
  }

  lemma RebuildOne(e: Entry, below: seq<Entry>, depth: nat, children: seq<FactTree>, rest: seq<Entry>)
    requires e.depth == depth && Rebuild(below, depth + 1) == (children, rest)
    ensures Rebuild([e] + below, depth) == ([FactTree(e.facts, children)] + Rebuild(rest, depth).0,
                                            Rebuild(rest, depth).1)
  {
    assert ([e] + below)[1..] == below;
  }

  /** Depth and facts of the stored rows. */
  function Stored(rows: seq<Row>): seq<Entry> {
    seq(|rows|, i requires 0 <= i < |rows| => Entry(rows[i].depth, rows[i].facts))
  }

  /** Flattening loses nothing: the provider's transaction tree is rebuilt from the stored rows. */
  lemma TreeIsRecoverable(payload: RawNode, requested: string, network: string)
    requires Persistable(payload, requested, network)
    ensures Rebuild(Stored(RowsOf(payload, requested, network)), 0) == ([Image(payload)], [])
  {
    hide ReadNode, Preorder, RowAt, Image, Rebuild, Readable;
    var rows, vs := RowsOf(payload, requested, network), Tree(payload);
    forall i | 0 <= i < |rows| ensures Stored(rows)[i] == EntryOf(vs[i]) {
      RowShape(vs, rows, network, i);
      Visited(vs, i);
    }
    assert Stored(rows) == Entries(vs) + [];
    NoTreeHere([], 0);
    RebuildTree(payload, 0, None, 0, []);
    assert [Image(payload)] + [] == [Image(payload)];
  }

  // ----- response schemas

  /** Bounds and coherence of a preview summary. */
  predicate PreviewSchema(s: Summary) {
    && IsLowerHex(s.rootHash, 64)
    && 1 <= s.transactionCount <= 256 && s.maxDepth <= 32 && s.outMessageCount <= 2048
    && s.pendingInternalMessageCount <= 2048 && 1 <= s.uniqueAccountCount <= 256
    && s.successfulCount + s.failedCount == s.transactionCount
    && s.abortedCount <= s.transactionCount && s.uniqueAccountCount <= s.transactionCount
    && s.pendingInternalMessageCount <= s.outMessageCount
    && (s.transactionCount > 1 ==> s.maxDepth > 0)
  }

  /** Bounds and coherence of a persisted summary. */
  predicate PersistedSchema(s: PersistedSummary) {
    var c, p := s.counts, s.preview;
    && IsLowerHex(p.rootHash, 64)
    && 1 <= p.transactionCount <= 256 && p.maxDepth <= 32 && s.messageCount <= 2304
    && c.rootInbound <= 1 && c.childInternal <= 255 && c.remainingOut <= 2048
    && c.internal <= 2304 && c.externalIn <= 2304 && c.externalOut <= 2304 && 1 <= p.uniqueAccountCount <= 256
    && c.childInternal == p.transactionCount - 1
    && c.rootInbound + c.childInternal + c.remainingOut == s.messageCount
    && c.internal + c.externalIn + c.externalOut == s.messageCount
    && p.successfulCount + p.failedCount == p.transactionCount
    && p.abortedCount <= p.transactionCount && p.uniqueAccountCount <= p.transactionCount
    && (p.transactionCount > 1 ==> p.maxDepth > 0)
  }

  lemma {:induction false} AccountsAtMost(vs: seq<Visit>)
    requires Readable(vs)
    ensures |Accounts(vs)| <= |vs| && (vs != [] ==> |Accounts(vs)| >= 1)
  {
    hide ReadNode;
    if vs != [] {
      var n := |vs| - 1;
      assert vs == vs[..n] + [vs[n]];
      AccountsAtMost(vs[..n]);
      AccountsExtend(vs[..n], vs[n]);
    }
  }

  lemma {:induction false} DeepestBounds(vs: seq<Visit>, i: nat)
    requires i < |vs|
    ensures vs[i].depth <= Deepest(vs)
    ensures (forall j :: 0 <= j < |vs| ==> vs[j].depth <= MAX_DEPTH) ==> Deepest(vs) <= MAX_DEPTH
  {
    var n := |vs| - 1;
    if i < n { DeepestBounds(vs[..n], i); } else if n > 0 { DeepestBounds(vs[..n], 0); }
  }

  /** Every accepted preview satisfies the response schema. */
  lemma PreviewFitsSchema(payload: RawNode, requested: string)
    requires Acceptable(payload, requested)
    ensures PreviewSchema(PreviewOf(payload, requested).summary)
  {
    hide ReadNode, Preorder, OutCount, PendingInternal, Anchor, Deepest, Succeeded, Aborted, Accounts;
    var vs := Tree(payload);
    AccountsAtMost(vs);
    DeepestBounds(vs, 0);
    FactsAreHex(vs, 0);
    if |vs| > 1 {
      ParentsComeFirst(payload, 1);
      DeepestBounds(vs, 1);
    }
  }

  lemma FactsAreHex(vs: seq<Visit>, i: nat)
    requires Readable(vs) && i < |vs|
    ensures IsLowerHex(FactsAt(vs, i).hash, 64)
  {
  }

  /** Every accepted graph satisfies the response schema. */
  lemma GraphFitsSchema(payload: RawNode, requested: string, network: string)
    requires Persistable(payload, requested, network)
    ensures PersistedSchema(GraphOf(payload, requested, network).summary)
  {
    hide ReadNode, Preorder, RowAt, CountsOf, Readable, OutCount, PendingInternal, Anchor, Deepest, Accounts;
    var rows, vs := RowsOf(payload, requested, network), Tree(payload);
    PreviewFitsSchema(payload, requested);
    PrefixCounts(payload, rows, network);
    TypesCoverRoles(rows);
    assert vs[..|rows|] == vs;
  }

  // ----- unique indexes

  /** Capture and preorder index, capture and hash, capture and coordinate; node, role and ordinal. */
  predicate UniqueIndexes(rows: seq<Row>) {
    && (forall i, j :: 0 <= i < j < |rows| ==>
          && rows[i].index != rows[j].index
          && rows[i].facts.hash != rows[j].facts.hash
          && (rows[i].facts.account, rows[i].facts.lt) != (rows[j].facts.account, rows[j].facts.lt))
    && (forall i :: 0 <= i < |rows| ==> UniqueMessages(MessagesOf(rows[i])))
  }

  predicate UniqueMessages(ms: seq<Msg>) {
    forall i, j :: 0 <= i < j < |ms| ==> (ms[i].role, ms[i].ordinal) != (ms[j].role, ms[j].ordinal)
  }

  /** The stored rows never violate a unique index. */
  lemma RowsAreUnique(payload: RawNode, requested: string, network: string)
    requires Persistable(payload, requested, network)
    ensures UniqueIndexes(RowsOf(payload, requested, network))
  {
    hide ReadNode, Preorder, RowAt, Readable, OutCount, FactsAt;
    var rows, vs := RowsOf(payload, requested, network), Tree(payload);
    forall i | 0 <= i < |rows|
      ensures rows[i].index == i && rows[i].facts == FactsAt(vs, i) && UniqueMessages(MessagesOf(rows[i]))
    {
      RowShape(vs, rows, network, i);
    }
  }

  // ----- finalized traces

  lemma {:induction false} NoInternalLeft(ms: seq<RawMessage>, j: nat)
    requires InternalIn(ms) == 0 && j < |ms| && ms[j].Message?
    ensures ms[j].msgType != Str("int_msg")
  {
    var n := |ms| - 1;
    if j < n { NoInternalLeft(ms[..n], j); }
  }

  lemma {:induction false} AllOfKind(ms: seq<Msg>, kind: MessageType)
    ensures (forall j :: 0 <= j < |ms| ==> ms[j].kind == kind) ==> OfKind(ms, kind) == |ms|
    ensures (forall j :: 0 <= j < |ms| ==> ms[j].kind != kind) ==> OfKind(ms, kind) == 0
  {
    if ms != [] { AllOfKind(ms[..|ms| - 1], kind); }
  }

  lemma {:induction false} KindsConcat(a: seq<Msg>, b: seq<Msg>, kind: MessageType)
    ensures OfKind(a + b, kind) == OfKind(a, kind) + OfKind(b, kind)
  {
    if b == [] {
      assert a + b == a;
    } else {
      assert (a + b)[..|a + b| - 1] == a + b[..|b| - 1];
      KindsConcat(a, b[..|b| - 1], kind);
    }
  }

  lemma {:induction false} FinalizedCounts(payload: RawNode, rows: seq<Row>, network: string)
    requires RowsFor(Tree(payload), rows, network) && PendingInternal(Tree(payload)[..|rows|]) == 0
    ensures CountsOf(rows).externalOut == CountsOf(rows).remainingOut
  {
    hide RowAt, OfKind, Readable, Preorder, OutMessages, InternalIn, Tree;
    if rows != [] {
      var n, vs := |rows| - 1, Tree(payload);
      FewerRows(vs, rows, network, n);
      assert vs[..|rows|][..n] == vs[..n] && vs[..|rows|][n] == vs[n];
      FinalizedCounts(payload, rows[..n], network);
      FinalizedRow(vs, rows, network, n);
    }
  }

  lemma FinalizedRow(vs: seq<Visit>, rows: seq<Row>, network: string, i: nat)
    requires RowsFor(vs, rows, network) && i < |rows| && InternalIn(OutMessages(vs[i].node)) == 0
    ensures RowCounts(rows[i]).externalOut == RowCounts(rows[i]).remainingOut
  {
    hide RowAt, OfKind, Readable, OutMessages, InternalIn;
    RowShape(vs, rows, network, i);
    var row := rows[i];
    var incoming := if row.inMessage.Some? then [row.inMessage.value] else [];
    forall j | 0 <= j < |row.outMessages| ensures row.outMessages[j].kind == ExternalOut {
      NoInternalLeft(OutMessages(vs[i].node), j);
    }
    AllOfKind(row.outMessages, ExternalOut);
    AllOfKind(incoming, ExternalOut);
    KindsConcat(incoming, row.outMessages, ExternalOut);
  }

  /** A finalized trace leaves only external messages outgoing. */
  lemma FinalizedLeavesOnlyExternal(payload: RawNode, requested: string, network: string)
    requires Persistable(payload, requested, network)
    requires GraphOf(payload, requested, network).state == FinalizedTrace
    ensures var c := GraphOf(payload, requested, network).summary.counts; c.externalOut == c.remainingOut
  {
    hide ReadNode, Preorder, RowAt, CountsOf, Readable, OutCount, Anchor, Deepest, Accounts;
    var rows, vs := RowsOf(payload, requested, network), Tree(payload);
    assert vs[..|rows|] == vs;
    FinalizedCounts(payload, rows, network);
  }
}
