/** Low-level traces: the untrusted transaction tree, the strict reading of one
    node, and the recursive preorder against which the explicit-stack
    traversals are proved. */
module TraceModel {
  import opened Text
  import opened ProviderValues

  const MAX_NODES := 256
  const MAX_DEPTH := 32
  const MAX_OUT_MESSAGES := 2048
  const MAX_PERSISTED_MESSAGES := MAX_NODES + MAX_OUT_MESSAGES
  const MAX_INTERFACES := 128
  const MAX_INTERFACE_LENGTH := 128

  datatype RawMessage =
    | NotAMessage
    | Message(hash: Scalar, msgType: Scalar, source: RawAccount, destination: RawAccount,
              createdLt: Scalar, createdAt: Scalar, value: Scalar, fwdFee: Scalar, ihrFee: Scalar,
              importFee: Scalar, ihrDisabled: Scalar, bounce: Scalar, bounced: Scalar)

  datatype RawTransaction =
    | NoTransaction
    | Transaction(hash: Scalar, lt: Scalar, account: RawAccount, utime: Scalar, success: Scalar, aborted: Scalar,
                  inMsg: Option<RawMessage>, outMsgs: RawList<RawMessage>, raw: Scalar)

  datatype RawNode =
    | NotANode
    | Node(emulated: Scalar, interfaces: RawList<Scalar>, transaction: RawTransaction, children: RawList<RawNode>)

  datatype MessageType = Internal | ExternalIn | ExternalOut

  function ParseMessageType(v: Scalar): Option<MessageType> {
    if v == Str("int_msg") then Some(Internal)
    else if v == Str("ext_in_msg") then Some(ExternalIn)
    else if v == Str("ext_out_msg") then Some(ExternalOut)
    else None
  }

  predicate ValidInterface(v: Scalar) {
    v.Str? && 0 < |v.s| <= MAX_INTERFACE_LENGTH && !IsSpace(v.s[0]) && !IsSpace(v.s[|v.s| - 1])
  }

  predicate ValidInterfaces(l: RawList<Scalar>) {
    l.Items? && |l.items| <= MAX_INTERFACES && forall i :: 0 <= i < |l.items| ==> ValidInterface(l.items[i])
  }

  predicate ValidOutMessages(l: RawList<RawMessage>) {
    l.Items? && forall i :: 0 <= i < |l.items| ==> l.items[i].Message? && ParseMessageType(l.items[i].msgType).Some?
  }

  predicate ValidChildren(l: RawList<RawNode>) {
    l.Absent? || (l.Items? && forall i :: 0 <= i < |l.items| ==> l.items[i].Node?)
  }

  /** What one iteration of the preview keeps of a node. */
  datatype Facts = Facts(hash: string, lt: string, account: string, utime: int, success: bool, aborted: bool)

  /** Every check the preview makes on a single node, without its place in the tree. */
  function ReadNode(n: RawNode): (r: Option<Facts>)
    ensures r.Some? ==>
              && n.Node? && (n.emulated == Missing || n.emulated == Boolean(false)) && ValidInterfaces(n.interfaces)
              && n.transaction.Transaction? && ValidOutMessages(n.transaction.outMsgs) && ValidChildren(n.children)
    ensures r.Some? ==> IsLowerHex(r.value.hash, 64) && IsLogicalTime(r.value.lt)
    ensures r.Some? ==>
              var t, f := n.transaction, r.value;
              && CanonicalHash(t.hash) == Some(f.hash) && CanonicalAccount(t.account) == Some(f.account)
              && t.utime == Integer(f.utime) && 0 <= f.utime <= MAX_SIGNED_64
              && t.success == Boolean(f.success) && t.aborted == Boolean(f.aborted)
  {
    if n.NotANode? || !(n.emulated == Missing || n.emulated == Boolean(false)) || !ValidInterfaces(n.interfaces) ||
       n.transaction.NoTransaction?
    then None
    else
      var t := n.transaction;
      var hash, lt, account := CanonicalHash(t.hash), StrictLogicalTime(t.lt), CanonicalAccount(t.account);
      if hash.None? || lt.None? || account.None? || !t.utime.Integer? || !(0 <= t.utime.n <= MAX_SIGNED_64) ||
         !t.success.Boolean? || !t.aborted.Boolean? || !ValidOutMessages(t.outMsgs) || !ValidChildren(n.children)
      then None
      else Some(Facts(hash.value, lt.value, account.value, t.utime.n, t.success.b, t.aborted.b))
  }

  function Children(n: RawNode): seq<RawNode> {
    if n.Node? && n.children.Items? then n.children.items else []
  }

  function OutMessages(n: RawNode): seq<RawMessage> {
    if n.Node? && n.transaction.Transaction? && n.transaction.outMsgs.Items? then n.transaction.outMsgs.items else []
  }

  // ----- recursive preorder

  /** A node with its depth and the preorder index of its parent. */
  datatype Visit = Visit(node: RawNode, depth: nat, parent: Option<nat>)

  /** The nodes below and including `n`, which has preorder index `index`. */
  function Preorder(n: RawNode, depth: nat, parent: Option<nat>, index: nat): (vs: seq<Visit>)
    ensures |vs| > 0 && vs[0] == Visit(n, depth, parent)
    decreases n, 1
  {
    [Visit(n, depth, parent)] +
    (if n.Node? && n.children.Items? then Forest(n.children.items, depth + 1, index, index + 1) else [])
  }

  function Forest(ns: seq<RawNode>, depth: nat, parent: nat, index: nat): (vs: seq<Visit>)
    ensures |vs| >= |ns|
    decreases ns, 0
  {
    if ns == [] then []
    else
      var first := Preorder(ns[0], depth, Some(parent), index);
      first + Forest(ns[1..], depth, parent, index + |first|)
  }

  function Tree(payload: RawNode): seq<Visit> { Preorder(payload, 0, None, 0) }

  lemma PreorderUnfolds(n: RawNode, depth: nat, parent: Option<nat>, index: nat)
    ensures Preorder(n, depth, parent, index) ==
            [Visit(n, depth, parent)] + Forest(Children(n), depth + 1, index, index + 1)
  {
  }

  /** Entry `i` of a list whose first entry has preorder index `start` lies one
      level below an earlier entry of the list and is one of its children. */
  predicate Below(vs: seq<Visit>, start: nat, i: nat)
    requires i < |vs|
  {
    && vs[i].parent.Some? && start <= vs[i].parent.value < start + i
    && var p := vs[vs[i].parent.value - start];
       vs[i].depth == p.depth + 1 && vs[i].node in Children(p.node)
  }

  /** `Below` survives when other entries are put before and after. */
  lemma BelowShifts(a: seq<Visit>, vs: seq<Visit>, b: seq<Visit>, start: nat, i: nat)
    requires i < |vs| && Below(vs, start + |a|, i)
    ensures Below(a + vs + b, start, |a| + i)
  {
    var all := a + vs + b;
    assert all[|a| + i] == vs[i];
    assert all[vs[i].parent.value - start] == vs[vs[i].parent.value - start - |a|];
  }

  lemma {:induction false} PreorderEntry(n: RawNode, depth: nat, parent: Option<nat>, index: nat, i: nat)
    requires 1 <= i < |Preorder(n, depth, parent, index)|
    ensures Below(Preorder(n, depth, parent, index), index, i)
    decreases n, 1
  {
    hide Below, Forest;
    var ns := n.children.items;
    var top, below := [Visit(n, depth, parent)], Forest(ns, depth + 1, index, index + 1);
    ForestEntry(ns, depth + 1, index, index + 1, i - 1);
    assert Preorder(n, depth, parent, index) == top + below + [];
    if Below(below, index + 1, i - 1) {
      BelowShifts(top, below, [], index, i - 1);
    } else {
      RootIsBelow(n, depth, parent, index, below, i);
    }
  }

  lemma RootIsBelow(n: RawNode, depth: nat, parent: Option<nat>, index: nat, below: seq<Visit>, i: nat)
    requires 1 <= i <= |below| && n.Node? && n.children.Items?
    requires below[i - 1].parent == Some(index) && below[i - 1].depth == depth + 1 &&
             below[i - 1].node in n.children.items
    ensures Below([Visit(n, depth, parent)] + below + [], index, i)
  {
  }

  /** An entry of a forest is one of its roots, or below an earlier entry. */
  lemma {:induction false} ForestEntry(ns: seq<RawNode>, depth: nat, parent: nat, index: nat, i: nat)
    requires i < |Forest(ns, depth, parent, index)|
    ensures var vs := Forest(ns, depth, parent, index);
            Below(vs, index, i) || (vs[i].parent == Some(parent) && vs[i].depth == depth && vs[i].node in ns)
    decreases ns, 0
  {
    hide Below, Preorder;
    var first := Preorder(ns[0], depth, Some(parent), index);
    var rest := Forest(ns[1..], depth, parent, index + |first|);
    assert Forest(ns, depth, parent, index) == [] + first + rest == first + rest + [];
    if 0 < i < |first| {
      PreorderEntry(ns[0], depth, Some(parent), index, i);
      BelowShifts([], first, rest, index, i);
    } else if i >= |first| {
      ForestEntry(ns[1..], depth, parent, index + |first|, i - |first|);
      if Below(rest, index + |first|, i - |first|) {
        BelowShifts(first, rest, [], index, i - |first|);
      }
    }
  }

  /** In the preorder of a whole tree every entry but the first has a parent
      before it, one level up, of which it is a child. */
  lemma ParentsComeFirst(payload: RawNode, i: nat)
    requires 1 <= i < |Tree(payload)|
    ensures var vs := Tree(payload);
            && vs[i].parent.Some? && vs[i].parent.value < i
            && vs[i].depth == vs[vs[i].parent.value].depth + 1
            && vs[i].node in Children(vs[vs[i].parent.value].node)
  {
    hide Preorder;
    PreorderEntry(payload, 0, None, 0, i);
  }

  // ----- explicit stacks

  /** What a stack of pending nodes still has to visit; its top is the last element. */
  function Pending(stack: seq<Visit>, index: nat): (vs: seq<Visit>)
    ensures |vs| >= |stack|
  {
    if stack == [] then []
    else
      var top := stack[|stack| - 1];
      var first := Preorder(top.node, top.depth, top.parent, index);
      first + Pending(stack[..|stack| - 1], index + |first|)
  }

  /** Children pushed in reverse, so that the first child ends on top. */
  function Pushed(stack: seq<Visit>, ns: seq<RawNode>, depth: nat, parent: nat): (r: seq<Visit>)
    ensures |r| == |stack| + |ns|
  {
    if ns == [] then stack else Pushed(stack, ns[1..], depth, parent) + [Visit(ns[0], depth, Some(parent))]
  }

  lemma PendingUnfolds(stack: seq<Visit>, index: nat)
    requires stack != []
    ensures var top := stack[|stack| - 1];
            var first := Preorder(top.node, top.depth, top.parent, index);
            Pending(stack, index) == first + Pending(stack[..|stack| - 1], index + |first|)
  {
    hide Preorder;
  }

  lemma ForestUnfolds(ns: seq<RawNode>, depth: nat, parent: nat, index: nat)
    requires ns != []
    ensures var first := Preorder(ns[0], depth, Some(parent), index);
            Forest(ns, depth, parent, index) == first + Forest(ns[1..], depth, parent, index + |first|)
  {
    hide Preorder;
  }

  lemma EmptyForest(depth: nat, parent: nat, index: nat)
    ensures Forest([], depth, parent, index) == []
  {
  }

  lemma {:induction false} PendingOfPushed(stack: seq<Visit>, ns: seq<RawNode>, depth: nat, parent: nat, index: nat)
    ensures Pending(Pushed(stack, ns, depth, parent), index) ==
            Forest(ns, depth, parent, index) + Pending(stack, index + |Forest(ns, depth, parent, index)|)
    decreases |ns|
  {
    hide Preorder, Pending, Forest;
    if ns == [] {
      EmptyForest(depth, parent, index);
    } else {
      var pushed := Pushed(stack, ns, depth, parent);
      var first := Preorder(ns[0], depth, Some(parent), index);
      var rest := Forest(ns[1..], depth, parent, index + |first|);
      assert pushed[..|pushed| - 1] == Pushed(stack, ns[1..], depth, parent);
      PendingUnfolds(pushed, index);
      ForestUnfolds(ns, depth, parent, index);
      PendingOfPushed(stack, ns[1..], depth, parent, index + |first|);
      var tail := Pending(stack, index + |first| + |rest|);
      assert first + (rest + tail) == (first + rest) + tail;
    }
  }

  /** The step shared by every traversal: popping the top and pushing its
      children moves exactly one visit from pending to done. */
  lemma PopAndPush(stack: seq<Visit>, index: nat)
    requires stack != []
    ensures var top := stack[|stack| - 1];
            var stack' := Pushed(stack[..|stack| - 1], Children(top.node), top.depth + 1, index);
            Pending(stack, index) == [top] + Pending(stack', index + 1)
  {
    hide Preorder, Forest, Pushed, Pending, Children;
    var top, rest := stack[|stack| - 1], stack[..|stack| - 1];
    var below := Forest(Children(top.node), top.depth + 1, index, index + 1);
    PendingUnfolds(stack, index);
    PreorderUnfolds(top.node, top.depth, top.parent, index);
    PendingOfPushed(rest, Children(top.node), top.depth + 1, index, index + 1);
    assert ([top] + below) + Pending(rest, index + 1 + |below|) == [top] + (below + Pending(rest, index + 1 + |below|));
  }
}
