/** The second traversal: the transaction and message graph kept as evidence. */
module TracePersisted {
  import opened Text
  import opened ProviderValues
  import opened TraceModel
  import opened TracePreview

  const OBSERVATION_VERSION := "tonapi_trace_message_obs_v1"

  predicate SupportedNetwork(network: string) { network == "ton-mainnet" || network == "ton-testnet" }

  datatype Role = RootInbound | ChildInbound | RemainingOutbound

  function RoleText(role: Role): string {
    match role
    case RootInbound => "root_inbound"
    case ChildInbound => "child_inbound"
    case RemainingOutbound => "remaining_outbound"
  }

  datatype Msg = Msg(
    role: Role, ordinal: nat, hash: string, kind: MessageType, source: Option<string>, destination: Option<string>,
    createdLt: string, unixTime: int, value: string, forwardFee: string, ihrFee: string, importFee: string,
    ihrDisabled: bool, bounce: bool, bounced: bool, key: string)

  /** One stored transaction node with its messages. */
  datatype Row = Row(index: nat, parent: Option<nat>, depth: nat, facts: Facts, inMessage: Option<Msg>,
                     outMessages: seq<Msg>)

  // ----- observation keys

  function Join(parts: seq<string>): string
    requires parts != []
  {
    if |parts| == 1 then parts[0] else parts[0] + ['|'] + Join(parts[1..])
  }

  lemma {:induction false} JoinIsInjective(a: seq<string>, b: seq<string>)
    requires |a| == |b| > 0 && Join(a) == Join(b)
    requires forall i :: 0 <= i < |a| ==> '|' !in a[i] && '|' !in b[i]
    ensures a == b
  {
    if |a| > 1 {
      SplitUnique(a[0], Join(a[1..]), b[0], Join(b[1..]), '|');
      JoinIsInjective(a[1..], b[1..]);
      assert a == [a[0]] + a[1..] && b == [b[0]] + b[1..];
    }
  }

  function KeyParts(network: string, root: string, index: nat, role: Role, ordinal: nat, hash: string): seq<string> {
    [OBSERVATION_VERSION, network, root, Decimal(index), RoleText(role), Decimal(ordinal), hash]
  }

  function ObservationKey(network: string, root: string, index: nat, role: Role, ordinal: nat, hash: string): string {
    Join(KeyParts(network, root, index, role, ordinal, hash))
  }

  lemma PartsAreClean(network: string, root: string, index: nat, role: Role, ordinal: nat, hash: string)
    requires SupportedNetwork(network) && IsLowerHex(root, 64) && IsLowerHex(hash, 64)
    ensures forall i :: 0 <= i < 7 ==> '|' !in KeyParts(network, root, index, role, ordinal, hash)[i]
  {
    hide Decimal, Value;
    DecimalRoundTrip(index);
    DecimalRoundTrip(ordinal);
    DigitsHaveNo(Decimal(index), '|');
    DigitsHaveNo(Decimal(ordinal), '|');
  }

  /** A key determines the node, the role and the ordinal it was made for. */
  lemma KeyIsInjective(network: string, root: string, i: nat, r: Role, o: nat, g: string, i': nat, r': Role, o': nat,
                       g': string)
    requires SupportedNetwork(network) && IsLowerHex(root, 64) && IsLowerHex(g, 64) && IsLowerHex(g', 64)
    requires ObservationKey(network, root, i, r, o, g) == ObservationKey(network, root, i', r', o', g')
    ensures i == i' && r == r' && o == o' && g == g'
  {
    hide Join, IsLowerHex, SupportedNetwork, Decimal;
    var a, b := KeyParts(network, root, i, r, o, g), KeyParts(network, root, i', r', o', g');
    PartsAreClean(network, root, i, r, o, g);
    PartsAreClean(network, root, i', r', o', g');
    JoinIsInjective(a, b);
    assert a[3] == b[3] && a[4] == b[4] && a[5] == b[5] && a[6] == b[6];
    DecimalRoundTrip(i);
    DecimalRoundTrip(i');
    DecimalRoundTrip(o);
    DecimalRoundTrip(o');
    RolesDiffer(r, r');
  }

  lemma RolesDiffer(r: Role, r': Role)
    ensures RoleText(r) == RoleText(r') <==> r == r'
  {
    assert RoleText(RootInbound)[0] == 'r' && |RoleText(RootInbound)| == 12;
    assert RoleText(ChildInbound)[0] == 'c';
    assert RoleText(RemainingOutbound)[0] == 'r' && |RoleText(RemainingOutbound)| == 18;
  }

  // ----- one message

  /** An account that may be absent: `Some(None)` is absent, `None` is malformed. */
  function OptionalAccount(a: RawAccount): Option<Option<string>> {
    if a.NoAccount? then Some(None)
    else match CanonicalAccount(a)
      case None => None
      case Some(c) => Some(Some(c))
  }

  predicate EndpointsFit(kind: MessageType, source: Option<string>, destination: Option<string>) {
    match kind
    case Internal => source.Some? && destination.Some?
    case ExternalIn => source.None? && destination.Some?
    case ExternalOut => source.Some? && destination.None?
  }

  /** Every check on one message and the record kept of it. */
  function NormalizeMessage(m: RawMessage, network: string, root: string, index: nat, role: Role,
                            ordinal: nat): (r: Option<Msg>)
    ensures r.Some? ==> r.value.role == role && r.value.ordinal == ordinal && IsLowerHex(r.value.hash, 64)
    ensures r.Some? ==> r.value.key == ObservationKey(network, root, index, role, ordinal, r.value.hash)
    ensures r.Some? ==> 0 <= r.value.unixTime <= MAX_SIGNED_64
    ensures r.Some? ==> m.Message? && ParseMessageType(m.msgType) == Some(r.value.kind)
    ensures r.Some? ==> EndpointsFit(r.value.kind, r.value.source, r.value.destination)
    ensures r.Some? ==>
              && OptionalAccount(m.source) == Some(r.value.source) &&
                 OptionalAccount(m.destination) == Some(r.value.destination)
              && StrictNonnegative(m.createdLt) == Some(r.value.createdLt) && m.createdAt == Integer(r.value.unixTime)
              && StrictNonnegative(m.value) == Some(r.value.value) &&
                 StrictNonnegative(m.fwdFee) == Some(r.value.forwardFee)
              && StrictNonnegative(m.ihrFee) == Some(r.value.ihrFee) &&
                 StrictNonnegative(m.importFee) == Some(r.value.importFee)
              && m.ihrDisabled == Boolean(r.value.ihrDisabled) && m.bounce == Boolean(r.value.bounce)
              && m.bounced == Boolean(r.value.bounced)
  {
    if m.NotAMessage? then None
    else
      var hash, kind := CanonicalHash(m.hash), ParseMessageType(m.msgType);
      var source, destination := OptionalAccount(m.source), OptionalAccount(m.destination);
      var lt := StrictNonnegative(m.createdLt);
      var value, fwd, ihr, imp :=
        StrictNonnegative(m.value), StrictNonnegative(m.fwdFee), StrictNonnegative(m.ihrFee),
          StrictNonnegative(m.importFee);
      if hash.None? || kind.None? || source.None? || destination.None? ||
         !EndpointsFit(kind.value, source.value, destination.value) || lt.None? ||
         !m.createdAt.Integer? || !(0 <= m.createdAt.n <= MAX_SIGNED_64) ||
         value.None? || fwd.None? || ihr.None? || imp.None? ||
         !m.ihrDisabled.Boolean? || !m.bounce.Boolean? || !m.bounced.Boolean?
      then None
      else Some(Msg(role, ordinal, hash.value, kind.value, source.value, destination.value, lt.value, m.createdAt.n,
                    value.value, fwd.value, ihr.value, imp.value, m.ihrDisabled.b, m.bounce.b, m.bounced.b,
                    ObservationKey(network, root, index, role, ordinal, hash.value)))
  }

  // ----- one node

  /** The incoming message: a child must be reached by an internal message along
      the edge from its parent's account to its own. */
  function InMessage(v: Visit, index: nat, parentAccount: Option<string>, account: string, network: string,
                     root: string)
    : Option<Option<Msg>>
    requires v.node.Node? && v.node.transaction.Transaction?
  {
    match v.node.transaction.inMsg
    case None => if v.parent.Some? then None else Some(None)
    case Some(m) =>
      match NormalizeMessage(m, network, root, index, if v.parent.None? then RootInbound else ChildInbound, 0)
      case None => None
      case Some(msg) =>
        if v.parent.None? then if msg.kind == ExternalOut then None else Some(Some(msg))
        else if msg.kind != Internal || msg.source != parentAccount || msg.destination != Some(account) then None
        else Some(Some(msg))
  }

  function OutMessage(ms: seq<RawMessage>, j: nat, network: string, root: string, index: nat): Option<Msg>
    requires j < |ms|
  {
    var m := NormalizeMessage(ms[j], network, root, index, RemainingOutbound, j);
    if m.Some? && m.value.kind == ExternalIn then None else m
  }

  predicate OutMessagesFit(ms: seq<RawMessage>, network: string, root: string, index: nat) {
    forall j :: 0 <= j < |ms| ==> OutMessage(ms, j, network, root, index).Some?
  }

  function OutRecords(ms: seq<RawMessage>, network: string, root: string, index: nat): (r: seq<Msg>)
    requires OutMessagesFit(ms, network, root, index)
    ensures |r| == |ms| && forall j :: 0 <= j < |ms| ==> Some(r[j]) == OutMessage(ms, j, network, root, index)
  {
    seq(|ms|, j requires 0 <= j < |ms| => OutMessage(ms, j, network, root, index).value)
  }

  /** The row kept for one visited node, if all its messages are sound. */
  function RowFor(v: Visit, index: nat, parentAccount: Option<string>, network: string, root: string): Option<Row>
    requires ReadNode(v.node).Some?
  {
    var f := ReadNode(v.node).value;
    var ms := OutMessages(v.node);
    match InMessage(v, index, parentAccount, f.account, network, root)
    case None => None
    case Some(incoming) =>
      if !OutMessagesFit(ms, network, root, index) then None
      else Some(Row(index, v.parent, v.depth, f, incoming, OutRecords(ms, network, root, index)))
  }

  /** The account of the parent, which was visited earlier. */
  function ParentAccount(vs: seq<Visit>, i: nat): Option<string>
    requires Readable(vs) && i < |vs|
  {
    if vs[i].parent.Some? && vs[i].parent.value < |vs| then Some(FactsAt(vs, vs[i].parent.value).account) else None
  }

  function RowAt(vs: seq<Visit>, i: nat, network: string): Option<Row>
    requires Readable(vs) && i < |vs|
  {
    RowFor(vs[i], i, ParentAccount(vs, i), network, FactsAt(vs, 0).hash)
  }

  /** A trace the second traversal accepts: previewable, on a supported network, every row sound. */
  predicate Persistable(payload: RawNode, requested: string, network: string) {
    && Acceptable(payload, requested) && SupportedNetwork(network)
    && forall i :: 0 <= i < |Tree(payload)| ==> RowAt(Tree(payload), i, network).Some?
  }

  function RowsOf(payload: RawNode, requested: string, network: string): (rows: seq<Row>)
    requires Persistable(payload, requested, network)
    ensures |rows| == |Tree(payload)|
    ensures forall i :: 0 <= i < |rows| ==> Some(rows[i]) == RowAt(Tree(payload), i, network)
  {
    seq(|Tree(payload)|, i requires 0 <= i < |Tree(payload)| => RowAt(Tree(payload), i, network).value)
  }

  // ----- counts

  function MessagesOf(row: Row): seq<Msg> {
    (if row.inMessage.Some? then [row.inMessage.value] else []) + row.outMessages
  }

  function OfKind(ms: seq<Msg>, kind: MessageType): (n: nat)
    ensures n <= |ms|
  {
    if ms == [] then 0 else OfKind(ms[..|ms| - 1], kind) + if ms[|ms| - 1].kind == kind then 1 else 0
  }

  datatype Counts = Counts(rootInbound: nat, childInternal: nat, remainingOut: nat, internal: nat, externalIn: nat,
                           externalOut: nat)

  function RowCounts(row: Row): Counts {
    var ms := MessagesOf(row);
    Counts(if row.inMessage.Some? && row.parent.None? then 1 else 0,
           if row.inMessage.Some? && row.parent.Some? then 1 else 0,
           |row.outMessages|, OfKind(ms, Internal), OfKind(ms, ExternalIn), OfKind(ms, ExternalOut))
  }

  function Plus(a: Counts, b: Counts): Counts {
    Counts(a.rootInbound + b.rootInbound, a.childInternal + b.childInternal, a.remainingOut + b.remainingOut,
           a.internal + b.internal, a.externalIn + b.externalIn, a.externalOut + b.externalOut)
  }

  function CountsOf(rows: seq<Row>): Counts {
    if rows == [] then Counts(0, 0, 0, 0, 0, 0) else Plus(CountsOf(rows[..|rows| - 1]), RowCounts(rows[|rows| - 1]))
  }

  function Total(c: Counts): nat { c.rootInbound + c.childInternal + c.remainingOut }

  datatype PersistedSummary = PersistedSummary(counts: Counts, messageCount: nat, preview: Summary)

  datatype Persisted = Persisted(state: State, anchor: Facts, summary: PersistedSummary, nodes: seq<Row>)

  // ----- the traversal

  /** No key of node `index` or later is among `keys`. */
  ghost predicate NoLaterKey(keys: set<string>, network: string, root: string, index: nat) {
    forall i: nat, role: Role, ordinal: nat, hash: string ::
      index <= i && IsLowerHex(hash, 64) ==> ObservationKey(network, root, i, role, ordinal, hash) !in keys
  }

  /** No outgoing key of node `index` from ordinal `from` on is among `keys`. */
  ghost predicate NoOutKey(keys: set<string>, network: string, root: string, index: nat, from: nat) {
    forall ordinal: nat, hash: string ::
      from <= ordinal && IsLowerHex(hash, 64) ==>
        ObservationKey(network, root, index, RemainingOutbound, ordinal, hash) !in keys
  }

  lemma KeyAdded(keys: set<string>, network: string, root: string, index: nat, role: Role, ordinal: nat, hash: string)
    requires SupportedNetwork(network) && IsLowerHex(root, 64) && IsLowerHex(hash, 64)
    requires NoLaterKey(keys, network, root, index + 1)
    ensures NoLaterKey(keys + {ObservationKey(network, root, index, role, ordinal, hash)}, network, root, index + 1)
  {
    hide ObservationKey, IsLowerHex;
    var key := ObservationKey(network, root, index, role, ordinal, hash);
    forall i: nat, r: Role, o: nat, g: string | index + 1 <= i && IsLowerHex(g, 64)
      ensures ObservationKey(network, root, i, r, o, g) !in keys + {key}
    {
      if ObservationKey(network, root, i, r, o, g) == key {
        KeyIsInjective(network, root, i, r, o, g, index, role, ordinal, hash);
      }
    }
  }

  lemma OutKeyAdded(keys: set<string>, network: string, root: string, index: nat, role: Role, ordinal: nat,
                    hash: string, from: nat)
    requires SupportedNetwork(network) && IsLowerHex(root, 64) && IsLowerHex(hash, 64)
    requires NoOutKey(keys, network, root, index, from) && (role == RemainingOutbound ==> ordinal < from)
    ensures NoOutKey(keys + {ObservationKey(network, root, index, role, ordinal, hash)}, network, root, index, from)
  {
    hide ObservationKey, IsLowerHex;
    var key := ObservationKey(network, root, index, role, ordinal, hash);
    forall o: nat, g: string | from <= o && IsLowerHex(g, 64)
      ensures ObservationKey(network, root, index, RemainingOutbound, o, g) !in keys + {key}
    {
      if ObservationKey(network, root, index, RemainingOutbound, o, g) == key {
        KeyIsInjective(network, root, index, RemainingOutbound, o, g, index, role, ordinal, hash);
      }
    }
  }

  /** The inner loop over remaining outgoing messages. Its duplicate-key test is
      part of the code and is shown never to fire. */
  method CollectOut(ms: seq<RawMessage>, network: string, root: string, index: nat, keys: set<string>)
    returns (r: Option<seq<Msg>>, keys': set<string>)
    requires SupportedNetwork(network) && IsLowerHex(root, 64)
    requires NoOutKey(keys, network, root, index, 0) && NoLaterKey(keys, network, root, index + 1)
    ensures r.Some? <==> OutMessagesFit(ms, network, root, index)
    ensures r.Some? ==> r.value == OutRecords(ms, network, root, index)
    ensures NoLaterKey(keys', network, root, index + 1)
  {
    hide NoLaterKey, NoOutKey, IsLowerHex, ObservationKey, OutMessage, SupportedNetwork;
    keys' := keys;
    var out: seq<Msg> := [];
    for j := 0 to |ms|
      invariant |out| == j && forall k :: 0 <= k < j ==> Some(out[k]) == OutMessage(ms, k, network, root, index)
      invariant NoOutKey(keys', network, root, index, j) && NoLaterKey(keys', network, root, index + 1)
    {
      var m := OutMessage(ms, j, network, root, index);
      if m.None? { return None, keys'; }
      OutKeyIsNew(keys', ms, j, network, root, index);
      if m.value.key in keys' { return None, keys'; }
      OutKeyAdded(keys', network, root, index, RemainingOutbound, j, m.value.hash, j + 1);
      KeyAdded(keys', network, root, index, RemainingOutbound, j, m.value.hash);
      keys' := keys' + {m.value.key};
      out := out + [m.value];
    }
    r := Some(out);
  }

  lemma OutKeyIsNew(keys: set<string>, ms: seq<RawMessage>, j: nat, network: string, root: string, index: nat)
    requires j < |ms| && OutMessage(ms, j, network, root, index).Some? && NoOutKey(keys, network, root, index, j)
    ensures var m := OutMessage(ms, j, network, root, index).value;
            IsLowerHex(m.hash, 64) && m.key == ObservationKey(network, root, index, RemainingOutbound, j, m.hash) &&
              m.key !in keys
    ensures NoOutKey(keys, network, root, index, j + 1)
  {
    hide NormalizeMessage, IsLowerHex, ObservationKey;
  }

  lemma NarrowKeys(keys: set<string>, network: string, root: string, index: nat)
    requires NoLaterKey(keys, network, root, index)
    ensures NoLaterKey(keys, network, root, index + 1) && NoOutKey(keys, network, root, index, 0)
  {
    hide ObservationKey, IsLowerHex;
  }

  /** One iteration: the incoming message, the outgoing ones, the row. */
  method PersistNode(v: Visit, index: nat, parentAccount: Option<string>, network: string, root: string,
                     keys: set<string>)
    returns (r: Option<Row>, keys': set<string>)
    requires ReadNode(v.node).Some? && SupportedNetwork(network) && IsLowerHex(root, 64)
    requires NoLaterKey(keys, network, root, index)
    ensures r == RowFor(v, index, parentAccount, network, root)
    ensures NoLaterKey(keys', network, root, index + 1)
  {
    hide NormalizeMessage, NoLaterKey, NoOutKey, IsLowerHex, ObservationKey, OutMessagesFit, OutMessages;
    keys' := keys;
    NarrowKeys(keys, network, root, index);
    var f := ReadNode(v.node).value;
    var incoming := InMessage(v, index, parentAccount, f.account, network, root);
    if incoming.None? { return None, keys'; }
    if incoming.value.Some? {
      var msg := incoming.value.value;
      KeyIsNew(keys', network, root, index, msg.role, msg.ordinal, msg.hash);
      if msg.key in keys' { return None, keys'; }
      OutKeyAdded(keys', network, root, index, msg.role, msg.ordinal, msg.hash, 0);
      KeyAdded(keys', network, root, index, msg.role, msg.ordinal, msg.hash);
      keys' := keys' + {msg.key};
    }
    var out: Option<seq<Msg>>;
    out, keys' := CollectOut(OutMessages(v.node), network, root, index, keys');
    if out.None? { return None, keys'; }
    r := Some(Row(index, v.parent, v.depth, f, incoming.value, out.value));
  }

  lemma KeyIsNew(keys: set<string>, network: string, root: string, index: nat, role: Role, ordinal: nat, hash: string)
    requires NoLaterKey(keys, network, root, index) && IsLowerHex(hash, 64)
    ensures ObservationKey(network, root, index, role, ordinal, hash) !in keys
  {
    hide ObservationKey, IsLowerHex;
  }
}
