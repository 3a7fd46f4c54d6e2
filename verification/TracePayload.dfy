/** The three traversals in terms of the payload: which nodes and messages are
    kept, which edge each child needs, what the counts and the state mean. */
module TracePayload {
  import opened Text
  import opened ProviderValues
  import opened TraceModel
  import opened TracePreview
  import opened TracePersisted
  import opened TraceEvidence

  // ----- one node

  /** A node is read exactly when each of its fields is in order. */
  lemma NodeIsReadExactly(n: RawNode)
    ensures ReadNode(n).Some? <==>
              && n.Node? && n.emulated in {Missing, Boolean(false)}
              && n.interfaces.Items? && |n.interfaces.items| <= 128
              && (forall i :: 0 <= i < |n.interfaces.items| ==>
                    var f := n.interfaces.items[i];
                    f.Str? && 1 <= |f.s| <= 128 && !IsSpace(f.s[0]) && !IsSpace(f.s[|f.s| - 1]))
              && n.transaction.Transaction?
              && var t := n.transaction;
                 && t.hash.Str? && IsHex(t.hash.s, 64) && StrictLogicalTime(t.lt).Some?
                 && CanonicalAccount(t.account).Some?
                 && t.utime.Integer? && 0 <= t.utime.n <= 9_223_372_036_854_775_807
                 && t.success.Boolean? && t.aborted.Boolean?
                 && t.outMsgs.Items?
                 && (forall j :: 0 <= j < |t.outMsgs.items| ==>
                       t.outMsgs.items[j].Message? &&
                       t.outMsgs.items[j].msgType in {Str("int_msg"), Str("ext_in_msg"), Str("ext_out_msg")})
                 && (n.children.Absent? ||
                     (n.children.Items? && forall j :: 0 <= j < |n.children.items| ==> n.children.items[j].Node?))
    ensures ReadNode(n).Some? ==> OutMessages(n) == n.transaction.outMsgs.items
    ensures ReadNode(n).Some? ==> Children(n) == if n.children.Items? then n.children.items else []
  {
    hide IsHex, StrictLogicalTime, CanonicalAccount;
  }

  /** A trace is accepted exactly within these bounds: 256 nodes, depth 32, 2048
      outgoing messages, no hash and no account and time twice, and the requested
      hash among its transactions. */
  lemma AcceptanceIsExact(payload: RawNode, requested: string)
    ensures Acceptable(payload, requested) <==>
              var vs := Tree(payload);
              && IsLowerHex(requested, 64) && |vs| <= 256 && OutCount(vs) <= 2048
              && (forall i :: 0 <= i < |vs| ==> ReadNode(vs[i].node).Some? && vs[i].depth <= 32)
              && (forall i, j :: 0 <= i < j < |vs| ==>
                    var a, b := ReadNode(vs[i].node).value, ReadNode(vs[j].node).value;
                    a.hash != b.hash && (a.account != b.account || a.lt != b.lt))
              && exists i :: 0 <= i < |vs| && ReadNode(vs[i].node).value.hash == requested
  {
    hide ReadNode, Preorder, OutCount, IsLowerHex;
    var vs := Tree(payload);
    if Readable(vs) {
      assert forall i :: 0 <= i < |vs| ==> FactsAt(vs, i) == ReadNode(vs[i].node).value;
    }
  }

  // ----- the summary

  /** The visits that have this property. */
  ghost function Where(vs: seq<Visit>, p: RawTransaction -> bool): set<nat> {
    set i: nat | i < |vs| && vs[i].node.Node? && p(vs[i].node.transaction)
  }

  lemma WhereExtends(vs: seq<Visit>, p: RawTransaction -> bool)
    requires vs != []
    ensures var n := |vs| - 1;
            |Where(vs, p)| == |Where(vs[..n], p)| + if vs[n].node.Node? && p(vs[n].node.transaction) then 1 else 0
  {
    var n := |vs| - 1;
    var last: set<nat> := if vs[n].node.Node? && p(vs[n].node.transaction) then {n} else {};
    assert Where(vs, p) == Where(vs[..n], p) + last;
  }

  function Succeeds(t: RawTransaction): bool { t.Transaction? && t.success == Boolean(true) }

  function Aborts(t: RawTransaction): bool { t.Transaction? && t.aborted == Boolean(true) }

  lemma {:induction false} FlagsCounted(vs: seq<Visit>)
    requires Readable(vs)
    ensures Succeeded(vs) == |Where(vs, Succeeds)| && Aborted(vs) == |Where(vs, Aborts)|
  {
    hide ReadNode, Readable, FactsAt;
    if vs == [] {
      assert Where(vs, Succeeds) == {} && Where(vs, Aborts) == {};
    } else {
      FrontIsReadable(vs);
      FlagsCounted(vs[..|vs| - 1]);
      WhereExtends(vs, Succeeds);
      WhereExtends(vs, Aborts);
    }
  }

  lemma {:induction false} DeepestIsReached(vs: seq<Visit>)
    requires vs != []
    ensures exists i :: 0 <= i < |vs| && vs[i].depth == Deepest(vs)
    ensures forall i :: 0 <= i < |vs| ==> vs[i].depth <= Deepest(vs)
  {
    var n := |vs| - 1;
    if n == 0 {
      assert Deepest(vs[..0]) == 0 && vs[0].depth == Deepest(vs);
    } else {
      DeepestIsReached(vs[..n]);
      var i :| 0 <= i < n && vs[..n][i].depth == Deepest(vs[..n]);
      assert vs[if vs[n].depth > Deepest(vs[..n]) then n else i].depth == Deepest(vs);
      assert forall k :: 0 <= k < n ==> vs[k] == vs[..n][k];
    }
  }

  lemma {:induction false} AnchorIsRequested(vs: seq<Visit>, requested: string)
    requires Readable(vs) && Anchor(vs, requested).Some?
    ensures exists i :: 0 <= i < |vs| && ReadNode(vs[i].node) == Anchor(vs, requested) &&
                        Anchor(vs, requested).value.hash == requested
  {
    hide ReadNode;
    var n := |vs| - 1;
    if FactsAt(vs, n).hash == requested {
      assert ReadNode(vs[n].node) == Anchor(vs, requested);
    } else {
      AnchorIsRequested(vs[..n], requested);
      var i :| 0 <= i < n && ReadNode(vs[..n][i].node) == Anchor(vs, requested);
      assert vs[i] == vs[..n][i];
    }
  }

  lemma AccountsMean(vs: seq<Visit>)
    requires Readable(vs)
    ensures Accounts(vs) == set i | 0 <= i < |vs| :: CanonicalAccount(vs[i].node.transaction.account).value
  {
    hide CanonicalAccount;
    assert forall i :: 0 <= i < |vs| ==>
             CanonicalAccount(vs[i].node.transaction.account) == Some(FactsAt(vs, i).account);
    var all := set i | 0 <= i < |vs| :: CanonicalAccount(vs[i].node.transaction.account).value;
    forall x | x in all ensures x in Accounts(vs) {
      var i :| 0 <= i < |vs| && CanonicalAccount(vs[i].node.transaction.account).value == x;
      assert FactsAt(vs, i).account == x;
    }
    forall x | x in Accounts(vs) ensures x in all {
      var i :| 0 <= i < |vs| && FactsAt(vs, i).account == x;
      assert CanonicalAccount(vs[i].node.transaction.account).value == x;
    }
  }

  /** What the numbers of a preview are about. */
  lemma SummaryMeans(payload: RawNode, requested: string)
    requires Acceptable(payload, requested)
    ensures payload.Node? && payload.transaction.Transaction?
    ensures var p, vs := PreviewOf(payload, requested), Tree(payload);
            && p.summary.transactionCount == |vs|
            && p.summary.successfulCount == |Where(vs, Succeeds)|
            && p.summary.failedCount == |vs| - |Where(vs, Succeeds)|
            && p.summary.abortedCount == |Where(vs, Aborts)|
            && (exists i :: 0 <= i < |vs| && vs[i].depth == p.summary.maxDepth)
            && (forall i :: 0 <= i < |vs| ==> vs[i].depth <= p.summary.maxDepth)
            && Some(p.summary.rootHash) == CanonicalHash(payload.transaction.hash)
            && (exists i :: 0 <= i < |vs| && ReadNode(vs[i].node) == Some(p.anchor)) && p.anchor.hash == requested
            && p.summary.uniqueAccountCount ==
               |set i | 0 <= i < |vs| :: CanonicalAccount(vs[i].node.transaction.account).value|
  {
    hide ReadNode, Preorder, Deepest, Succeeded, Aborted, OutCount, PendingInternal, Anchor, CanonicalAccount;
    var vs := Tree(payload);
    FlagsCounted(vs);
    DeepestIsReached(vs);
    AnchorExists(vs, requested);
    AnchorIsRequested(vs, requested);
    AccountsMean(vs);
  }

  lemma {:induction false} InternalFound(ms: seq<RawMessage>)
    requires forall j :: 0 <= j < |ms| ==> ms[j].Message?
    ensures InternalIn(ms) > 0 <==> exists j :: 0 <= j < |ms| && ms[j].msgType == Str("int_msg")
  {
    if ms != [] {
      var n := |ms| - 1;
      InternalFound(ms[..n]);
      assert forall j :: 0 <= j < n ==> ms[j] == ms[..n][j];
    }
  }

  /** Node `i` sends an internal message that no child has received. */
  predicate SendsInternal(vs: seq<Visit>, i: nat)
    requires i < |vs|
  {
    && vs[i].node.Node? && vs[i].node.transaction.Transaction? && vs[i].node.transaction.outMsgs.Items?
    && var ms := vs[i].node.transaction.outMsgs.items;
       exists j :: 0 <= j < |ms| && ms[j].Message? && ms[j].msgType == Str("int_msg")
  }

  predicate AnySends(vs: seq<Visit>) { exists i :: 0 <= i < |vs| && SendsInternal(vs, i) }

  lemma AnySendsUnfolds(vs: seq<Visit>)
    requires vs != []
    ensures var n := |vs| - 1; AnySends(vs) <==> AnySends(vs[..n]) || SendsInternal(vs, n)
  {
    var n := |vs| - 1;
    assert forall i :: 0 <= i < n ==> SendsInternal(vs, i) == SendsInternal(vs[..n], i);
  }

  lemma {:induction false} PendingFound(vs: seq<Visit>)
    requires Readable(vs)
    ensures PendingInternal(vs) > 0 <==> AnySends(vs)
  {
    hide ReadNode, InternalIn, OutMessages, Readable, AnySends;
    if vs != [] {
      var n := |vs| - 1;
      FrontIsReadable(vs);
      PendingFound(vs[..n]);
      NodeIsReadExactly(vs[n].node);
      InternalFound(OutMessages(vs[n].node));
      AnySendsUnfolds(vs);
    } else {
      NothingSends();
    }
  }

  lemma NothingSends()
    ensures !AnySends([])
  {
  }

  /** A trace is pending exactly while some node still sends an internal message. */
  lemma PendingMeans(payload: RawNode, requested: string)
    requires Acceptable(payload, requested)
    ensures PreviewOf(payload, requested).state == PendingTrace <==>
              exists i :: 0 <= i < |Tree(payload)| && SendsInternal(Tree(payload), i)
    ensures PreviewOf(payload, requested).state == FinalizedTrace <==>
              forall i :: 0 <= i < |Tree(payload)| ==> !SendsInternal(Tree(payload), i)
  {
    hide ReadNode, Preorder, PendingInternal, SendsInternal;
    PendingFound(Tree(payload));
  }

  // ----- one message

  /** A message is kept exactly when its fields read and its endpoints fit its type. */
  lemma MessageIsKeptExactly(m: RawMessage, network: string, root: string, index: nat, role: Role, ordinal: nat)
    ensures NormalizeMessage(m, network, root, index, role, ordinal).Some? <==>
              && m.Message? && m.hash.Str? && IsHex(m.hash.s, 64)
              && (|| (m.msgType == Str("int_msg") &&
                      CanonicalAccount(m.source).Some? && CanonicalAccount(m.destination).Some?)
                  || (m.msgType == Str("ext_in_msg") && m.source.NoAccount? && CanonicalAccount(m.destination).Some?)
                  || (m.msgType == Str("ext_out_msg") && CanonicalAccount(m.source).Some? && m.destination.NoAccount?))
              && StrictNonnegative(m.createdLt).Some?
              && m.createdAt.Integer? && 0 <= m.createdAt.n <= 9_223_372_036_854_775_807
              && StrictNonnegative(m.value).Some? && StrictNonnegative(m.fwdFee).Some?
              && StrictNonnegative(m.ihrFee).Some? && StrictNonnegative(m.importFee).Some?
              && m.ihrDisabled.Boolean? && m.bounce.Boolean? && m.bounced.Boolean?
  {
    hide IsHex, StrictNonnegative, ObservationKey;
    assert m.Message? && m.source.NoAccount? ==> CanonicalAccount(m.source).None?;
    assert m.Message? && m.destination.NoAccount? ==> CanonicalAccount(m.destination).None?;
    hide CanonicalAccount;
  }

  /** The type, endpoints and key kept, in terms of the payload. */
  lemma KeptMessage(m: RawMessage, network: string, root: string, index: nat, role: Role, ordinal: nat)
    requires NormalizeMessage(m, network, root, index, role, ordinal).Some?
    ensures var k := NormalizeMessage(m, network, root, index, role, ordinal).value;
            && (k.kind == Internal <==> m.msgType == Str("int_msg"))
            && (k.kind == ExternalIn <==> m.msgType == Str("ext_in_msg"))
            && (k.kind == ExternalOut <==> m.msgType == Str("ext_out_msg"))
            && k.source == CanonicalAccount(m.source) && k.destination == CanonicalAccount(m.destination)
            && m.hash.Str? && k.hash == Lower(m.hash.s)
  {
    hide IsHex, StrictNonnegative, ObservationKey;
    assert m.source.NoAccount? ==> CanonicalAccount(m.source).None?;
    assert m.destination.NoAccount? ==> CanonicalAccount(m.destination).None?;
    hide CanonicalAccount;
  }

  /** An observation key, spelled out. */
  lemma KeyText(network: string, root: string, index: nat, role: Role, ordinal: nat, hash: string)
    ensures ObservationKey(network, root, index, role, ordinal, hash) ==
            "tonapi_trace_message_obs_v1" + "|" + (network + "|" + (root + "|" + (Decimal(index) + "|" +
              ((match role
                case RootInbound => "root_inbound"
                case ChildInbound => "child_inbound"
                case RemainingOutbound => "remaining_outbound") + "|" + (Decimal(ordinal) + "|" + hash)))))
  {
    hide Decimal, Join;
    var p := KeyParts(network, root, index, role, ordinal, hash);
    JoinOne(hash);
    var tail := [p[5]] + [hash];
    JoinCons(p[5], [hash]);
    JoinCons(p[4], tail);
    JoinCons(p[3], [p[4]] + tail);
    JoinCons(p[2], [p[3]] + ([p[4]] + tail));
    JoinCons(p[1], [p[2]] + ([p[3]] + ([p[4]] + tail)));
    JoinCons(p[0], [p[1]] + ([p[2]] + ([p[3]] + ([p[4]] + tail))));
    assert p == [p[0]] + ([p[1]] + ([p[2]] + ([p[3]] + ([p[4]] + tail))));
  }

  lemma JoinOne(a: string)
    ensures Join([a]) == a
  {
  }

  lemma JoinCons(a: string, rest: seq<string>)
    requires rest != []
    ensures Join([a] + rest) == a + "|" + Join(rest)
  {
    assert ([a] + rest)[1..] == rest;
  }

  // ----- one row

  /** A message kept in this role and with this ordinal. */
  function Kept(m: RawMessage, network: string, root: string, index: nat, role: Role, ordinal: nat): Option<Msg> {
    NormalizeMessage(m, network, root, index, role, ordinal)
  }

  /** A visited node has a row exactly when its messages are kept, none of the
      outgoing ones comes from outside, and it was reached as it should be: the root
      by no outgoing message, a child by an internal one from its parent's account
      to its own. */
  lemma RowIsKeptExactly(vs: seq<Visit>, i: nat, network: string)
    requires Readable(vs) && i < |vs| && (vs[i].parent.Some? ==> vs[i].parent.value < |vs|)
    ensures RowAt(vs, i, network).Some? <==>
              var t, root := vs[i].node.transaction, ReadNode(vs[0].node).value.hash;
              && (match (t.inMsg, vs[i].parent)
                  case (None, p) => p.None?
                  case (Some(m), None) =>
                    Kept(m, network, root, i, RootInbound, 0).Some? && m.msgType != Str("ext_out_msg")
                  case (Some(m), Some(p)) =>
                    && Kept(m, network, root, i, ChildInbound, 0).Some? && m.msgType == Str("int_msg")
                    && CanonicalAccount(m.source) == CanonicalAccount(vs[p].node.transaction.account)
                    && CanonicalAccount(m.destination) == CanonicalAccount(t.account))
              && forall j :: 0 <= j < |t.outMsgs.items| ==>
                   && Kept(t.outMsgs.items[j], network, root, i, RemainingOutbound, j).Some?
                   && t.outMsgs.items[j].msgType != Str("ext_in_msg")
  {
    hide ReadNode, NormalizeMessage, CanonicalAccount, InMessage, OutMessagesFit;
    Visited(vs, i);
    Visited(vs, 0);
    NodeIsReadExactly(vs[i].node);
    if vs[i].parent.Some? { Visited(vs, vs[i].parent.value); }
    var root := FactsAt(vs, 0).hash;
    InIsKeptExactly(vs[i], i, ParentAccount(vs, i), FactsAt(vs, i).account, network, root);
    OutsAreKeptExactly(OutMessages(vs[i].node), network, root, i);
  }

  lemma InIsKeptExactly(v: Visit, index: nat, parentAccount: Option<string>, account: string, network: string,
                        root: string)
    requires v.node.Node? && v.node.transaction.Transaction?
    ensures InMessage(v, index, parentAccount, account, network, root).Some? <==>
              match (v.node.transaction.inMsg, v.parent)
              case (None, p) => p.None?
              case (Some(m), None) =>
                Kept(m, network, root, index, RootInbound, 0).Some? && m.msgType != Str("ext_out_msg")
              case (Some(m), Some(_)) =>
                && Kept(m, network, root, index, ChildInbound, 0).Some? && m.msgType == Str("int_msg")
                && CanonicalAccount(m.source) == parentAccount && CanonicalAccount(m.destination) == Some(account)
  {
    hide NormalizeMessage, CanonicalAccount, ObservationKey;
    var t := v.node.transaction;
    if t.inMsg.Some? {
      var role := if v.parent.None? then RootInbound else ChildInbound;
      if Kept(t.inMsg.value, network, root, index, role, 0).Some? {
        KeptMessage(t.inMsg.value, network, root, index, role, 0);
      }
    }
  }

  lemma OutsAreKeptExactly(ms: seq<RawMessage>, network: string, root: string, index: nat)
    ensures OutMessagesFit(ms, network, root, index) <==>
              forall j :: 0 <= j < |ms| ==>
                Kept(ms[j], network, root, index, RemainingOutbound, j).Some? && ms[j].msgType != Str("ext_in_msg")
  {
    hide NormalizeMessage, CanonicalAccount, ObservationKey;
    forall j | 0 <= j < |ms|
      ensures OutMessage(ms, j, network, root, index).Some? <==>
                Kept(ms[j], network, root, index, RemainingOutbound, j).Some? && ms[j].msgType != Str("ext_in_msg")
    {
      if Kept(ms[j], network, root, index, RemainingOutbound, j).Some? {
        KeptMessage(ms[j], network, root, index, RemainingOutbound, j);
      }
    }
  }

  /** Every stored row but the first was reached along its edge: by an internal
      message from the account of its parent's row to its own. */
  lemma EdgesAreFollowed(payload: RawNode, requested: string, network: string, i: nat)
    requires Persistable(payload, requested, network) && 0 < i < |RowsOf(payload, requested, network)|
    ensures var rows := RowsOf(payload, requested, network);
            && rows[i].parent.Some? && rows[i].parent.value < i && rows[i].inMessage.Some?
            && rows[i].inMessage.value.kind == Internal
            && rows[i].inMessage.value.source == Some(rows[rows[i].parent.value].facts.account)
            && rows[i].inMessage.value.destination == Some(rows[i].facts.account)
  {
    hide ReadNode, NormalizeMessage, Preorder, RowAt, OutCount;
    var rows, vs := RowsOf(payload, requested, network), Tree(payload);
    ParentsComeFirst(payload, i);
    var p := vs[i].parent.value;
    RowShape(vs, rows, network, i);
    RowShape(vs, rows, network, p);
    EdgeAt(vs, rows, network, i);
  }

  lemma EdgeAt(vs: seq<Visit>, rows: seq<Row>, network: string, i: nat)
    requires RowsFor(vs, rows, network) && i < |rows| && vs[i].parent.Some? && vs[i].parent.value < |vs|
    ensures rows[i].inMessage.Some?
    ensures rows[i].inMessage.value.source == Some(FactsAt(vs, vs[i].parent.value).account)
    ensures rows[i].inMessage.value.destination == Some(FactsAt(vs, i).account)
  {
    hide NormalizeMessage, ReadNode;
    assert Some(rows[i]) == RowAt(vs, i, network);
  }

  /** A trace is kept as evidence exactly on the two networks, when it is accepted
      and each of its nodes has a row. */
  lemma EvidenceIsExact(payload: RawNode, requested: string, network: string)
    ensures Persistable(payload, requested, network) <==>
              && Acceptable(payload, requested) && network in {"ton-mainnet", "ton-testnet"}
              && forall i :: 0 <= i < |Tree(payload)| ==> RowAt(Tree(payload), i, network).Some?
  {
    hide RowAt, Preorder, ReadNode, OutCount;
  }

  // ----- the counts

  function Kinds(ms: seq<Msg>): (ks: seq<MessageType>)
    ensures |ks| == |ms| && forall j :: 0 <= j < |ms| ==> ks[j] == ms[j].kind
  {
    seq(|ms|, j requires 0 <= j < |ms| => ms[j].kind)
  }

  /** The types of all stored messages, row by row. */
  function AllKinds(rows: seq<Row>): seq<MessageType> {
    if rows == [] then [] else AllKinds(rows[..|rows| - 1]) + Kinds(MessagesOf(rows[|rows| - 1]))
  }

  lemma {:induction false} KindCounted(ms: seq<Msg>, kind: MessageType)
    ensures OfKind(ms, kind) == multiset(Kinds(ms))[kind]
  {
    if ms != [] {
      var n := |ms| - 1;
      KindCounted(ms[..n], kind);
      assert Kinds(ms) == Kinds(ms[..n]) + [ms[n].kind];
    }
  }

  /** Each count is the number of stored messages of its type. */
  lemma {:induction false} TypeCountsMean(rows: seq<Row>)
    ensures var c, all := CountsOf(rows), multiset(AllKinds(rows));
            c.internal == all[Internal] && c.externalIn == all[ExternalIn] && c.externalOut == all[ExternalOut]
  {
    hide OfKind;
    if rows != [] {
      var n := |rows| - 1;
      TypeCountsMean(rows[..n]);
      var ms := MessagesOf(rows[n]);
      KindCounted(ms, Internal);
      KindCounted(ms, ExternalIn);
      KindCounted(ms, ExternalOut);
      assert multiset(AllKinds(rows)) == multiset(AllKinds(rows[..n])) + multiset(Kinds(ms));
    }
  }
}
