/** The persisted graph: an explicit-stack traversal of the same tree, proved
    against the recursive preorder. */
module TraceEvidence {
  import opened Text
  import opened ProviderValues
  import opened TraceModel
  import opened TracePreview
  import opened TracePersisted

  // ----- the end-of-pass guards

  lemma {:induction false} KindsCover(ms: seq<Msg>)
    ensures OfKind(ms, Internal) + OfKind(ms, ExternalIn) + OfKind(ms, ExternalOut) == |ms|
  {
    if ms != [] { KindsCover(ms[..|ms| - 1]); }
  }

  /** Counting by type and counting by role cover the same messages. */
  lemma {:induction false} TypesCoverRoles(rows: seq<Row>)
    ensures var c := CountsOf(rows); c.internal + c.externalIn + c.externalOut == Total(c)
  {
    hide OfKind;
    if rows != [] {
      TypesCoverRoles(rows[..|rows| - 1]);
      KindsCover(MessagesOf(rows[|rows| - 1]));
    }
  }

  /** The rows correspond to the first visits of the tree. */
  ghost predicate RowsFor(vs: seq<Visit>, rows: seq<Row>, network: string) {
    Readable(vs) && |rows| <= |vs| && forall i :: 0 <= i < |rows| ==> Some(rows[i]) == RowAt(vs, i, network)
  }

  /** A row keeps the place of its visit and one record per message. */
  lemma RowShape(vs: seq<Visit>, rows: seq<Row>, network: string, i: nat)
    requires RowsFor(vs, rows, network) && i < |rows|
    ensures var row := rows[i];
            && row.index == i && row.parent == vs[i].parent && row.depth == vs[i].depth && row.facts == FactsAt(vs, i)
            && |row.outMessages| == |OutMessages(vs[i].node)|
            && (row.parent.Some? ==> row.inMessage.Some? && row.inMessage.value.kind == Internal)
            && (row.parent.None? && row.inMessage.Some? ==> row.inMessage.value.kind != ExternalOut)
            && (forall j :: 0 <= j < |row.outMessages| ==>
                  row.outMessages[j].kind != ExternalIn && row.outMessages[j].ordinal == j &&
                    row.outMessages[j].role == RemainingOutbound &&
                  OutMessages(vs[i].node)[j].Message? &&
                  ParseMessageType(OutMessages(vs[i].node)[j].msgType) == Some(row.outMessages[j].kind))
            && (row.inMessage.Some? ==>
                  row.inMessage.value.role != RemainingOutbound && row.inMessage.value.ordinal == 0)
  {
    hide NormalizeMessage, ReadNode;
    assert Some(rows[i]) == RowAt(vs, i, network);
  }

  lemma {:induction false} PrefixCounts(payload: RawNode, rows: seq<Row>, network: string)
    requires RowsFor(Tree(payload), rows, network)
    ensures var c := CountsOf(rows);
            && c.rootInbound <= 1 && c.childInternal == (if rows == [] then 0 else |rows| - 1)
            && c.remainingOut == OutCount(Tree(payload)[..|rows|])
  {
    hide RowAt, OfKind, Readable, Preorder, OutMessages;
    if rows != [] {
      var n, vs := |rows| - 1, Tree(payload);
      assert rows[..n] <= rows;
      FewerRows(vs, rows, network, n);
      PrefixCounts(payload, rows[..n], network);
      RowShape(vs, rows, network, n);
      if n > 0 { ParentsComeFirst(payload, n); }
      assert vs[..|rows|][..n] == vs[..n];
    }
  }

  lemma FewerRows(vs: seq<Visit>, rows: seq<Row>, network: string, n: nat)
    requires RowsFor(vs, rows, network) && n <= |rows|
    ensures RowsFor(vs, rows[..n], network)
  {
  }

  /** The message cap, the child count and the type sum hold by construction. */
  lemma GuardsNeverFire(payload: RawNode, requested: string, network: string)
    requires Persistable(payload, requested, network)
    ensures var rows := RowsOf(payload, requested, network);
            var c := CountsOf(rows);
            && Total(c) <= MAX_PERSISTED_MESSAGES && c.childInternal == |rows| - 1
            && c.internal + c.externalIn + c.externalOut == Total(c)
  {
    hide RowAt, Preorder, Readable, CountsOf;
    var rows, vs := RowsOf(payload, requested, network), Tree(payload);
    PrefixCounts(payload, rows, network);
    TypesCoverRoles(rows);
    assert vs[..|rows|] == vs;
  }

  /** The stored graph as closed forms over the recursive preorder. */
  function GraphOf(payload: RawNode, requested: string, network: string): Persisted
    requires Persistable(payload, requested, network)
  {
    var rows, p := RowsOf(payload, requested, network), PreviewOf(payload, requested);
    Persisted(p.state, p.anchor, PersistedSummary(CountsOf(rows), Total(CountsOf(rows)), p.summary), rows)
  }

  // ----- the second traversal

  type Entry = (RawNode, Option<nat>, Option<string>, nat)

  /** The stack of the code: each entry also carries the account of its parent. */
  ghost predicate Carries(stack: seq<Entry>, frames: seq<Visit>, vs: seq<Visit>, n: nat)
    requires Readable(vs) && n <= |vs|
  {
    && |stack| == |frames|
    && forall i :: 0 <= i < |stack| ==>
         && (frames[i].parent.Some? ==> frames[i].parent.value < n)
         && stack[i] == (frames[i].node, frames[i].parent,
                         if frames[i].parent.Some? then Some(FactsAt(vs, frames[i].parent.value).account) else None,
                         frames[i].depth)
  }

  method PushEntries(stack: seq<Entry>, children: seq<RawNode>, index: nat, account: string, depth: nat,
                     ghost frames: seq<Visit>, ghost vs: seq<Visit>)
    returns (r: seq<Entry>)
    requires Readable(vs) && index < |vs| && FactsAt(vs, index).account == account &&
             Carries(stack, frames, vs, index + 1)
    ensures |r| == |stack| + |children| && Carries(r, Pushed(frames, children, depth, index), vs, index + 1)
  {
    hide Readable;
    r := stack;
    var k := |children|;
    while k > 0
      invariant 0 <= k <= |children| && |r| == |stack| + |children| - k
      invariant Carries(r, Pushed(frames, children[k..], depth, index), vs, index + 1)
    {
      k := k - 1;
      assert children[k..][1..] == children[k + 1..];
      r := r + [(children[k], Some(index), Some(account), depth)];
    }
    assert children[0..] == children;
  }

  /** One popped entry is the next visit, with its parent's account. */
  lemma EntryIsNext(vs: seq<Visit>, n: nat, stack: seq<Entry>, frames: seq<Visit>)
    requires Readable(vs) && frames != [] && n < |vs| && vs[n] == frames[|frames| - 1] && Carries(stack, frames, vs, n)
    ensures var (node, parent, account, depth) := stack[|stack| - 1];
            && vs[n] == Visit(node, depth, parent) && ParentAccount(vs, n) == account
            && Carries(stack[..|stack| - 1], frames[..|frames| - 1], vs, n + 1)
  {
    hide Readable;
  }

  /** The loop: rows and counts of the whole preorder, or nothing at the first unsound row. */
  method CollectRows(payload: RawNode, network: string, root: string) returns (r: Option<seq<Row>>, counts: Counts)
    requires Readable(Tree(payload)) && SupportedNetwork(network)
    requires FactsAt(Tree(payload), 0).hash == root && IsLowerHex(root, 64)
    ensures r.Some? <==> forall i :: 0 <= i < |Tree(payload)| ==> RowAt(Tree(payload), i, network).Some?
    ensures r.Some? ==>
              |r.value| == |Tree(payload)| && RowsFor(Tree(payload), r.value, network) && counts == CountsOf(r.value)
  {
    hide ReadNode, At, Preorder, RowFor, RowAt, Pushed, CountsOf, RowCounts, Plus, NoLaterKey, Readable,
         OutMessages, Children, IsLowerHex, SupportedNetwork, Carries, FactsAt;
    ghost var vs := Tree(payload);
    var stack: seq<Entry> := [(payload, None, None, 0)];
    ghost var frames := [Visit(payload, 0, None)];
    var nodes: seq<Row>, keys: set<string> := [], {};
    counts := Counts(0, 0, 0, 0, 0, 0);
    StartRows(payload, network, root);
    while stack != []
      invariant |stack| == |frames| && |nodes| <= |vs| && At(vs, |nodes|, frames)
      invariant Carries(stack, frames, vs, |nodes|)
      invariant RowsFor(vs, nodes, network) && NoLaterKey(keys, network, root, |nodes|)
      invariant counts == CountsOf(nodes)
      decreases |vs| - |nodes|
    {
      var index := |nodes|;
      Advance(vs, index, frames);
      EntryIsNext(vs, index, stack, frames);
      var (node, parent, parentAccount, depth) := stack[|stack| - 1];
      stack := stack[..|stack| - 1];
      frames := frames[..|frames| - 1];
      RowIsNext(vs, index, network, root, parentAccount);
      var row;
      row, keys := PersistNode(Visit(node, depth, parent), index, parentAccount, network, root, keys);
      if row.None? { return None, counts; }
      stack := PushEntries(stack, Children(node), index, row.value.facts.account, depth + 1, frames, vs);
      frames := Pushed(frames, Children(node), depth + 1, index);
      CountOneMore(nodes, row.value);
      counts := Plus(counts, RowCounts(row.value));
      nodes := nodes + [row.value];
    }
    NothingPending(vs, |nodes|);
    r := Some(nodes);
  }

  /** Flatten a previewed trace into rows. The three guards after the loop are
      part of the code and are shown never to fire. */
  method NormalizePersisted(payload: RawNode, requested: string, network: string) returns (r: Option<Persisted>)
    ensures r.Some? <==> Persistable(payload, requested, network)
    ensures r.Some? ==> r.value == GraphOf(payload, requested, network)
  {
    hide ReadNode, Preorder, GoodSoFar, RowAt, CountsOf, Readable, PreviewOf, IsLowerHex, SupportedNetwork, FactsAt;
    var preview, _ := NormalizePreview(payload, requested);
    if preview.None? || !SupportedNetwork(network) { return None; }
    PreviewFacts(payload, requested);
    var rows, counts := CollectRows(payload, network, preview.value.summary.rootHash);
    if rows.None? { return None; }
    var nodes := rows.value;
    assert nodes == RowsOf(payload, requested, network);
    GuardsNeverFire(payload, requested, network);
    var total := Total(counts);
    if total > MAX_PERSISTED_MESSAGES || counts.childInternal != |nodes| - 1 ||
       counts.internal + counts.externalIn + counts.externalOut != total {
      return None;
    }
    r := Some(Persisted(preview.value.state, preview.value.anchor,
                        PersistedSummary(counts, total, preview.value.summary), nodes));
  }

  lemma PreviewFacts(payload: RawNode, requested: string)
    requires Acceptable(payload, requested)
    ensures Readable(Tree(payload)) && PreviewOf(payload, requested).summary.rootHash == FactsAt(Tree(payload), 0).hash
    ensures IsLowerHex(FactsAt(Tree(payload), 0).hash, 64)
  {
    hide Preorder, OutCount, PendingInternal, Anchor;
  }

  lemma StartRows(payload: RawNode, network: string, root: string)
    requires Readable(Tree(payload))
    ensures At(Tree(payload), 0, [Visit(payload, 0, None)]) && NoLaterKey({}, network, root, 0)
    ensures RowsFor(Tree(payload), [], network) && CountsOf([]) == Counts(0, 0, 0, 0, 0, 0)
    ensures Carries([(payload, None, None, 0)], [Visit(payload, 0, None)], Tree(payload), 0)
  {
    hide ReadNode, Readable;
    Start(payload, "");
  }

  lemma Visited(vs: seq<Visit>, i: nat)
    requires Readable(vs) && i < |vs|
    ensures ReadNode(vs[i].node).Some? && FactsAt(vs, i) == ReadNode(vs[i].node).value
  {
    hide ReadNode;
  }

  lemma RowIsNext(vs: seq<Visit>, i: nat, network: string, root: string, parentAccount: Option<string>)
    requires Readable(vs) && i < |vs| && ParentAccount(vs, i) == parentAccount && FactsAt(vs, 0).hash == root
    ensures ReadNode(vs[i].node).Some? && RowAt(vs, i, network) == RowFor(vs[i], i, parentAccount, network, root)
    ensures RowAt(vs, i, network).Some? ==> RowAt(vs, i, network).value.facts == FactsAt(vs, i)
  {
    hide ReadNode, NormalizeMessage;
  }

  lemma CountOneMore(rows: seq<Row>, row: Row)
    ensures CountsOf(rows + [row]) == Plus(CountsOf(rows), RowCounts(row))
  {
    hide RowCounts, Plus;
    assert (rows + [row])[..|rows|] == rows;
  }
}
