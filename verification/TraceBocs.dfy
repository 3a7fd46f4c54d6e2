/** The third traversal: transaction bytes in the same order as the stored nodes. */
module TraceBocs {
  import opened Text
  import opened ProviderValues
  import opened TraceModel
  import opened TracePreview
  import opened TracePersisted
  import opened TraceEvidence

  const MAX_BOC_BYTES := 1024 * 1024
  const MAX_TOTAL_BOC_BYTES := 8 * 1024 * 1024

  datatype Boc = Boc(index: nat, hash: string, hex: string, bytes: nat)

  /** Non-empty hex with an even number of digits, at most one mebibyte of bytes. */
  function ReadBoc(n: RawNode): Option<string> {
    if n.Node? && n.transaction.Transaction? && n.transaction.raw.Str? &&
       var raw := n.transaction.raw.s;
       raw != "" && |raw| % 2 == 0 && IsHex(raw, |raw|) && |raw| / 2 <= MAX_BOC_BYTES
    then Some(n.transaction.raw.s) else None
  }

  predicate BocsReadable(vs: seq<Visit>) { forall i :: 0 <= i < |vs| ==> ReadBoc(vs[i].node).Some? }

  function TotalBytes(vs: seq<Visit>): nat
    requires BocsReadable(vs)
  {
    if vs == [] then 0 else TotalBytes(vs[..|vs| - 1]) + |ReadBoc(vs[|vs| - 1].node).value| / 2
  }

  predicate BocsFit(vs: seq<Visit>) { BocsReadable(vs) && TotalBytes(vs) <= MAX_TOTAL_BOC_BYTES }

  /** Row `i` carries the bytes of node `i` and the hash stored for node `i`. */
  ghost predicate BocRows(vs: seq<Visit>, bocs: seq<Boc>)
    requires Readable(vs)
  {
    |bocs| <= |vs| && forall i :: 0 <= i < |bocs| ==>
      ReadBoc(vs[i].node).Some? &&
      var raw := ReadBoc(vs[i].node).value;
      bocs[i] == Boc(i, FactsAt(vs, i).hash, Lower(raw), |raw| / 2)
  }

  /** The raw text of a transaction, wherever there is one. */
  function RawText(n: RawNode): Option<string> {
    if n.Node? && n.transaction.Transaction? && n.transaction.raw.Str? then Some(n.transaction.raw.s) else None
  }

  /** Hex of whole bytes, at least one and at most a mebibyte. */
  predicate RawFits(n: RawNode) {
    && RawText(n).Some?
    && var raw := RawText(n).value;
       1 <= |raw| <= 2 * 1_048_576 && |raw| % 2 == 0 && forall k :: 0 <= k < |raw| ==> IsHexChar(raw[k])
  }

  /** Half the digits of all raw texts. */
  function RawBytes(vs: seq<Visit>): nat {
    if vs == [] then 0
    else
      var raw := RawText(vs[|vs| - 1].node);
      RawBytes(vs[..|vs| - 1]) + if raw.Some? then |raw.value| / 2 else 0
  }

  lemma BocIsReadExactly(n: RawNode)
    ensures ReadBoc(n).Some? <==> RawFits(n)
    ensures ReadBoc(n).Some? ==> ReadBoc(n) == RawText(n)
  {
    hide IsHexChar;
  }

  lemma {:induction false} BytesAreHalves(vs: seq<Visit>)
    requires BocsReadable(vs)
    ensures TotalBytes(vs) == RawBytes(vs)
  {
    hide ReadBoc, RawText, RawFits;
    if vs != [] {
      var n := |vs| - 1;
      BytesAreHalves(vs[..n]);
      BocIsReadExactly(vs[n].node);
    }
  }

  /** All transaction bytes are acceptable exactly when each raw text fits and their
      sum is at most eight mebibytes. */
  lemma BocsFitExactly(vs: seq<Visit>)
    ensures BocsFit(vs) <==> (forall i :: 0 <= i < |vs| ==> RawFits(vs[i].node)) && RawBytes(vs) <= 8 * 1_048_576
  {
    hide ReadBoc, RawFits;
    forall i | 0 <= i < |vs| ensures ReadBoc(vs[i].node).Some? <==> RawFits(vs[i].node) {
      BocIsReadExactly(vs[i].node);
    }
    if BocsReadable(vs) { BytesAreHalves(vs); }
  }

  /** Row `i` holds the lower-cased raw text of node `i` and half its length. */
  lemma BocRowsMean(vs: seq<Visit>, bocs: seq<Boc>, i: nat)
    requires Readable(vs) && BocRows(vs, bocs) && i < |bocs|
    ensures RawText(vs[i].node).Some?
    ensures var raw := RawText(vs[i].node).value; bocs[i] == Boc(i, FactsAt(vs, i).hash, Lower(raw), |raw| / 2)
  {
    hide ReadNode, ReadBoc, RawText, RawFits;
    BocIsReadExactly(vs[i].node);
  }

  datatype BocTrace = BocTrace(trace: Persisted, bocs: seq<Boc>, totalBytes: nat)

  lemma {:induction false} PrefixFits(vs: seq<Visit>, n: nat)
    requires BocsFit(vs) && n <= |vs|
    ensures BocsFit(vs[..n])
    decreases |vs| - n
  {
    hide ReadBoc;
    if n < |vs| {
      PrefixFits(vs, n + 1);
      assert vs[..n + 1][..n] == vs[..n];
    } else {
      assert vs[..n] == vs;
    }
  }

  lemma OneMoreBoc(vs: seq<Visit>, n: nat)
    requires n < |vs| && BocsReadable(vs[..n]) && ReadBoc(vs[n].node).Some?
    ensures BocsReadable(vs[..n + 1])
    ensures TotalBytes(vs[..n + 1]) == TotalBytes(vs[..n]) + |ReadBoc(vs[n].node).value| / 2
  {
    hide ReadBoc;
    assert vs[..n + 1][..n] == vs[..n];
  }

  method PushNodes(stack: seq<RawNode>, children: seq<RawNode>, depth: nat, ghost frames: seq<Visit>, ghost parent: nat)
    returns (r: seq<RawNode>)
    requires |stack| == |frames| && forall i :: 0 <= i < |stack| ==> stack[i] == frames[i].node
    ensures var pushed := Pushed(frames, children, depth, parent);
            |r| == |pushed| && forall i :: 0 <= i < |r| ==> r[i] == pushed[i].node
  {
    r := stack;
    var k := |children|;
    while k > 0
      invariant 0 <= k <= |children|
      invariant var pushed := Pushed(frames, children[k..], depth, parent);
                |r| == |pushed| && forall i :: 0 <= i < |r| ==> r[i] == pushed[i].node
    {
      k := k - 1;
      assert children[k..][1..] == children[k + 1..];
      r := r + [children[k]];
    }
    assert children[0..] == children;
  }

  /** The loop: one row per node of the preorder, or nothing at the first text that does not fit. */
  method CollectBocs(payload: RawNode, nodes: seq<Row>) returns (r: Option<seq<Boc>>, total: nat)
    requires Readable(Tree(payload)) && |nodes| == |Tree(payload)|
    requires forall i :: 0 <= i < |nodes| ==> nodes[i].facts == FactsAt(Tree(payload), i)
    ensures r.Some? <==> BocsFit(Tree(payload))
    ensures r.Some? ==>
              |r.value| == |Tree(payload)| && BocRows(Tree(payload), r.value) && total == TotalBytes(Tree(payload))
  {
    hide ReadNode, ReadBoc, At, Preorder, Pushed, Readable, Children, TotalBytes, Tree, FactsAt, Lower;
    r := None;
    ghost var vs := Tree(payload);
    var stack := [payload];
    ghost var frames := [Visit(payload, 0, None)];
    var bocs: seq<Boc> := [];
    total := 0;
    StartBocs(payload);
    while stack != []
      invariant |bocs| <= |vs| && At(vs, |bocs|, frames)
      invariant |stack| == |frames| && forall i :: 0 <= i < |stack| ==> stack[i] == frames[i].node
      invariant BocRows(vs, bocs) && BocsFit(vs[..|bocs|]) && total == TotalBytes(vs[..|bocs|])
      decreases |vs| - |bocs|
    {
      var index := |bocs|;
      ghost var depth := frames[|frames| - 1].depth;
      Advance(vs, index, frames);
      var node := stack[|stack| - 1];
      stack := stack[..|stack| - 1];
      frames := frames[..|frames| - 1];
      var raw := ReadBoc(node);
      if raw.None? {
        BadBoc(vs, index);
        return;
      }
      OneMoreBoc(vs, index);
      total := total + |raw.value| / 2;
      if total > MAX_TOTAL_BOC_BYTES {
        BadBoc(vs, index);
        return;
      }
      bocs := bocs + [Boc(index, nodes[index].facts.hash, Lower(raw.value), |raw.value| / 2)];
      var children := Children(node);
      stack := PushNodes(stack, children, 0, frames, index);
      SameNodes(frames, children, 0, depth + 1, index);
      frames := Pushed(frames, children, depth + 1, index);
    }
    NothingPending(vs, |bocs|);
    assert vs[..|bocs|] == vs;
    r := Some(bocs);
  }

  /** Row `i` carries the raw text of node `i` in lower case, half its length and
      the hash stored for the node; a trace is accepted exactly when its graph is
      and every raw text and their sum fit. */
  method NormalizeBocs(payload: RawNode, requested: string, network: string) returns (r: Option<BocTrace>)
    ensures r.Some? <==>
              && Persistable(payload, requested, network)
              && (forall i :: 0 <= i < |Tree(payload)| ==> RawFits(Tree(payload)[i].node))
              && RawBytes(Tree(payload)) <= 8 * 1_048_576
    ensures r.Some? ==>
              && r.value.trace == GraphOf(payload, requested, network)
              && |r.value.bocs| == |Tree(payload)| && r.value.totalBytes == RawBytes(Tree(payload))
    ensures r.Some? ==>
              forall i :: 0 <= i < |r.value.bocs| ==>
                RawText(Tree(payload)[i].node).Some? &&
                var raw := RawText(Tree(payload)[i].node).value;
                r.value.bocs[i] == Boc(i, r.value.trace.nodes[i].facts.hash, Lower(raw), |raw| / 2)
  {
    hide ReadNode, ReadBoc, Preorder, GoodSoFar, RowAt, CountsOf, Readable, PreviewOf, TotalBytes, RawBytes, RawFits,
         Persistable, RowsOf, Tree, FactsAt, Lower, GraphOf, RawText, BocsFit, BocRows;
    BocsFitExactly(Tree(payload));
    var trace := NormalizePersisted(payload, requested, network);
    if trace.None? { return None; }
    StoredNodes(payload, requested, network);
    var bocs, total := CollectBocs(payload, trace.value.nodes);
    if bocs.None? || |bocs.value| != trace.value.summary.preview.transactionCount { return None; }
    FitMeansReadable(Tree(payload));
    BytesAreHalves(Tree(payload));
    forall i | 0 <= i < |bocs.value|
      ensures RawText(Tree(payload)[i].node).Some?
      ensures var raw := RawText(Tree(payload)[i].node).value;
              bocs.value[i] == Boc(i, trace.value.nodes[i].facts.hash, Lower(raw), |raw| / 2)
    {
      BocRowsMean(Tree(payload), bocs.value, i);
    }
    r := Some(BocTrace(trace.value, bocs.value, total));
  }

  lemma FitMeansReadable(vs: seq<Visit>)
    requires BocsFit(vs)
    ensures BocsReadable(vs)
  {
  }

  lemma {:induction false} SameNodes(frames: seq<Visit>, ns: seq<RawNode>, d: nat, e: nat, parent: nat)
    ensures var a, b := Pushed(frames, ns, d, parent), Pushed(frames, ns, e, parent);
            |a| == |b| && forall i :: 0 <= i < |a| ==> a[i].node == b[i].node
    decreases |ns|
  {
    if ns != [] { SameNodes(frames, ns[1..], d, e, parent); }
  }

  lemma BadBoc(vs: seq<Visit>, n: nat)
    requires n < |vs| && !BocsFit(vs[..n + 1])
    ensures !BocsFit(vs)
  {
    hide ReadBoc;
    if BocsFit(vs) { PrefixFits(vs, n + 1); }
  }

  lemma StartBocs(payload: RawNode)
    ensures At(Tree(payload), 0, [Visit(payload, 0, None)])
    ensures Tree(payload)[..0] == [] && BocsFit([]) && TotalBytes([]) == 0
  {
    hide Preorder, ReadNode;
    Start(payload, "");
  }

  /** The stored nodes: one per visit, with the visit's hash. */
  lemma StoredNodes(payload: RawNode, requested: string, network: string)
    requires Persistable(payload, requested, network)
    ensures var p := GraphOf(payload, requested, network);
            && Readable(Tree(payload)) && |p.nodes| == |Tree(payload)| == p.summary.preview.transactionCount
            && forall i :: 0 <= i < |p.nodes| ==> p.nodes[i].facts == FactsAt(Tree(payload), i)
  {
    hide Preorder, RowAt, ReadNode, CountsOf, OutCount, PendingInternal, Anchor;
    var rows := RowsOf(payload, requested, network);
    forall i | 0 <= i < |rows| ensures rows[i].facts == FactsAt(Tree(payload), i) {
      RowShape(Tree(payload), rows, network, i);
    }
  }
}
