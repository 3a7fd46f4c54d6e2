/** The ledger as a directory of files: sorted zero-padded names, digests in the
    names, canonical contents. Reading it accepts exactly the directories that
    hold one valid ledger, and appending is atomic under a crash. */
module LedgerDirectory {
  import opened Text
  import opened Release
  import opened DeploymentState
  import DeploymentSafety

  type Directory = map<string, Raw>

  datatype Snapshot = Snapshot(eventCount: nat, previous: Option<Event>, head: Option<Event>)

  lemma SequenceFits()
    ensures MAX_LEDGER_EVENTS < Pow10(20)
  {
    assert Pow10(6) == 1_000_000;
    assert Pow10(20) >= Pow10(6) by {
      var k := 6;
      while k < 20
        invariant 6 <= k <= 20 && Pow10(k) >= Pow10(6)
      {
        k := k + 1;
      }
    }
  }

  /** `{sequence:020d}-{digest}.json` */
  function EventName(h: Hasher, e: Event): string
    requires ValidEvent(e)
  {
    SequenceFits();
    Padded(e.sequence, 20) + ("-" + Sha(h, e) + ".json")
  }

  /** The file-name pattern: twenty digits, a dash, sixty-four hex digits, `.json`. */
  function MatchName(name: string): Option<(nat, string)> {
    if |name| == 90 && AllDigits(name[..20]) && name[20] == '-' && IsLowerHex(name[21..85], 64) && name[85..] == ".json"
    then Some((Value(name[..20]), name[21..85])) else None
  }

  lemma NameOfEvent(h: Hasher, e: Event)
    requires ValidEvent(e)
    ensures MatchName(EventName(h, e)) == Some((e.sequence, Sha(h, e)))
  {
    hide Padded, Value, Pow10, ValidIdentity;
    SequenceFits();
    var name := EventName(h, e);
    PaddedValue(e.sequence, 20);
    assert name[..20] == Padded(e.sequence, 20);
    assert name[20..] == "-" + Sha(h, e) + ".json";
    assert name[21..85] == name[20..][1..65] == Sha(h, e);
    assert name[85..] == name[20..][65..] == ".json";
  }

  lemma EventOfName(h: Hasher, name: string, e: Event)
    requires ValidEvent(e) && MatchName(name) == Some((e.sequence, Sha(h, e)))
    ensures name == EventName(h, e)
  {
    hide Padded, Value, Pow10, ValidIdentity;
    SequenceFits();
    PaddedValue(e.sequence, 20);
    SameWidthSameValue(name[..20], Padded(e.sequence, 20));
    assert name == name[..20] + [name[20]] + name[21..85] + name[85..];
  }

  function Names(h: Hasher, ledger: seq<Event>): (names: seq<string>)
    requires Numbered(ledger)
    ensures |names| == |ledger| && forall i :: 0 <= i < |ledger| ==> names[i] == EventName(h, ledger[i])
  {
    seq(|ledger|, i requires 0 <= i < |ledger| => EventName(h, ledger[i]))
  }

  /** The directory's files are exactly the events of this ledger. */
  ghost predicate Holds(h: Hasher, dir: Directory, ledger: seq<Event>) {
    && ValidLedger(h, ledger)
    && (forall name :: name in dir <==> name in Names(h, ledger))
    && (forall i :: 0 <= i < |ledger| ==> dir[Names(h, ledger)[i]] == Canonical(ledger[i]))
  }

  ghost predicate Sorted(names: seq<string>) {
    forall i, j :: 0 <= i < j < |names| ==> Before(names[i], names[j])
  }

  lemma NamesAreSorted(h: Hasher, ledger: seq<Event>)
    requires Numbered(ledger)
    ensures Sorted(Names(h, ledger))
  {
    hide Padded, ValidIdentity, IsLowerHex;
    forall i, j | 0 <= i < j < |ledger| ensures Before(Names(h, ledger)[i], Names(h, ledger)[j]) {
      SequenceFits();
      PaddedOrder(i + 1, j + 1, 20, "-" + Sha(h, ledger[i]) + ".json", "-" + Sha(h, ledger[j]) + ".json");
    }
  }

  lemma {:induction false} SortedIsUnique(a: seq<string>, b: seq<string>)
    requires Sorted(a) && Sorted(b) && forall x :: x in a <==> x in b
    ensures a == b
  {
    hide Before;
    HasMember(a);
    HasMember(b);
    if a != [] && b != [] {
      LeastIsFirst(a, b[0]);
      LeastIsFirst(b, a[0]);
      if a[0] != b[0] { BeforeIsStrict(a[0], b[0]); }
      forall x ensures x in a[1..] <==> x in b[1..] {
        TailMembers(a, x);
        TailMembers(b, x);
      }
      SortedIsUnique(a[1..], b[1..]);
      assert a == [a[0]] + a[1..] && b == [b[0]] + b[1..];
    }
  }

  lemma HasMember(a: seq<string>)
    ensures a != [] ==> exists x :: x in a
  {
    if a != [] { assert a[0] in a; }
  }

  lemma LeastIsFirst(a: seq<string>, x: string)
    requires Sorted(a) && x in a
    ensures x == a[0] || Before(a[0], x)
  {
  }

  lemma TailMembers(a: seq<string>, x: string)
    requires Sorted(a) && a != []
    ensures x in a[1..] <==> x in a && x != a[0]
  {
    hide Before;
    if x in a[1..] {
      var i :| 0 <= i < |a[1..]| && a[1..][i] == x;
      BeforeIsStrict(a[0], a[i + 1]);
    }
  }

  function Insert(names: seq<string>, x: string): seq<string> {
    if names == [] then [x]
    else if Before(x, names[0]) then [x] + names
    else [names[0]] + Insert(names[1..], x)
  }

  lemma {:induction false} InsertSorts(names: seq<string>, x: string)
    requires Sorted(names) && x !in names
    ensures Sorted(Insert(names, x)) && forall y :: y in Insert(names, x) <==> y in names || y == x
  {
    hide Before;
    var r := Insert(names, x);
    if names == [] {
    } else if Before(x, names[0]) {
      assert r == [x] + names && r[1..] == names;
      forall j | 1 <= j < |r| ensures Before(r[0], r[j]) {
        if j > 1 { BeforeIsTransitive(x, names[0], names[j - 1]); }
      }
      SortedCons(x, names);
    } else {
      InsertSorts(names[1..], x);
      BeforeIsTotal(x, names[0]);
      forall y | y in Insert(names[1..], x) ensures Before(names[0], y) {
        assert y in names[1..] || y == x;
      }
      SortedCons(names[0], Insert(names[1..], x));
      assert names == [names[0]] + names[1..];
    }
  }

  lemma SortedCons(x: string, names: seq<string>)
    requires Sorted(names) && forall y :: y in names ==> Before(x, y)
    ensures Sorted([x] + names)
  {
    var r := [x] + names;
    forall i, j | 0 <= i < j < |r| ensures Before(r[i], r[j]) {
      if i == 0 { assert r[j] in names; } else { assert r[i] == names[i - 1] && r[j] == names[j - 1]; }
    }
  }

  method SortNames(keys: set<string>) returns (names: seq<string>)
    ensures Sorted(names) && forall x :: x in names <==> x in keys
  {
    names := [];
    var rest := keys;
    while rest != {}
      invariant rest <= keys && Sorted(names)
      invariant forall x :: x in names <==> x in keys && x !in rest
    {
      var x :| x in rest;
      InsertSorts(names, x);
      names := Insert(names, x);
      rest := rest - {x};
    }
  }

  /** The checks made on one directory entry; `k` is its zero-based position. */
  function ReadEntry(h: Hasher, name: string, raw: Raw, k: nat, prior: Option<Event>): (r: Option<Event>)
    requires prior.Some? ==> ValidEvent(prior.value)
  {
    match MatchName(name)
    case None => None
    case Some((sequence, digest)) =>
      if sequence != k + 1 || h(raw) != digest || raw.Other? || !ValidEvent(raw.event) ||
         raw.event.sequence != k + 1 || !ChainOk(h, raw.event, prior)
      then None else Some(raw.event)
  }

  /** A directory that holds a ledger lists its files in sequence order. */
  lemma HeldNames(h: Hasher, dir: Directory, ledger: seq<Event>, names: seq<string>)
    requires Holds(h, dir, ledger) && Sorted(names) && forall x :: x in names <==> x in dir
    ensures names == Names(h, ledger)
  {
    hide ValidEvent, Before;
    NamesAreSorted(h, ledger);
    SortedIsUnique(names, Names(h, ledger));
  }

  /** A directory holds at most one ledger. */
  lemma DirectoryDeterminesLedger(h: Hasher, dir: Directory, a: seq<Event>, b: seq<Event>)
    requires Holds(h, dir, a) && Holds(h, dir, b)
    ensures a == b
  {
    hide ValidEvent, Before, EventName;
    NamesAreSorted(h, a);
    HeldNames(h, dir, b, Names(h, a));
    assert forall i :: 0 <= i < |a| ==> a[i] == dir[Names(h, a)[i]].event;
  }

  lemma HeldEntry(h: Hasher, dir: Directory, ledger: seq<Event>, k: nat)
    requires Holds(h, dir, ledger) && k < |ledger|
    ensures ReadEntry(h, Names(h, ledger)[k], dir[Names(h, ledger)[k]], k, if k == 0 then None else Some(ledger[k - 1]))
            == Some(ledger[k])
  {
    hide VersionOf, EventName, MatchName;
    NameOfEvent(h, ledger[k]);
    assert ChainedAt(h, ledger, k);
  }

  /** The first `k` sorted entries have been read as this ledger. */
  ghost predicate ReadSoFar(h: Hasher, dir: Directory, names: seq<string>, k: nat, ledger: seq<Event>)
    requires k <= |names| && forall x :: x in names <==> x in dir
  {
    && |ledger| == k && ValidLedger(h, ledger) && Names(h, ledger) == names[..k]
    && forall i :: 0 <= i < k ==> dir[names[i]] == Canonical(ledger[i])
  }

  lemma BadEntryRejects(h: Hasher, dir: Directory, names: seq<string>, k: nat, ledger: seq<Event>, l: seq<Event>)
    requires Sorted(names) && (forall x :: x in names <==> x in dir) && k < |names|
    requires ReadSoFar(h, dir, names, k, ledger)
    requires ReadEntry(h, names[k], dir[names[k]], k, Head(ledger)).None?
    ensures !Holds(h, dir, l)
  {
    hide ReadEntry, ValidEvent, Before;
    if Holds(h, dir, l) {
      HeldNames(h, dir, l, names);
      HeldEntry(h, dir, l, k);
    }
  }

  lemma AllRead(h: Hasher, dir: Directory, names: seq<string>, ledger: seq<Event>)
    requires (forall x :: x in names <==> x in dir) && ReadSoFar(h, dir, names, |names|, ledger)
    ensures Holds(h, dir, ledger)
  {
    hide ValidEvent;
    assert names[..|names|] == names;
  }

  lemma GoodEntryExtends(h: Hasher, dir: Directory, names: seq<string>, k: nat, ledger: seq<Event>, e: Event)
    requires (forall x :: x in names <==> x in dir) && k < |names| <= MAX_LEDGER_EVENTS
    requires ReadSoFar(h, dir, names, k, ledger)
    requires ReadEntry(h, names[k], dir[names[k]], k, Head(ledger)) == Some(e)
    ensures ReadSoFar(h, dir, names, k + 1, ledger + [e])
    ensures Head(ledger + [e]) == Some(e) && Penultimate(ledger + [e]) == Head(ledger)
  {
    hide ValidEvent, ValidLedger, ReadEntry;
    EntryExtends(h, ledger, names[k], dir[names[k]], e);
    assert names[..k + 1] == names[..k] + [names[k]];
  }

  /** Reading succeeds on exactly the directories that hold a valid ledger, and
      returns that ledger's length, head and penultimate event. */
  method ReadLedger(h: Hasher, dir: Directory) returns (r: Result<Snapshot>, ghost ledger: seq<Event>)
    ensures r.Ok? ==> Holds(h, dir, ledger) && r.value == Snapshot(|ledger|, Penultimate(ledger), Head(ledger))
    ensures r.Err? ==> forall l :: !Holds(h, dir, l)
  {
    hide Holds, ReadEntry, ChainedAt, ValidEvent;
    ledger := [];
    var names := SortNames(dir.Keys);
    if |names| > MAX_LEDGER_EVENTS {
      forall l ensures !Holds(h, dir, l) { TooManyEntries(h, dir, l, names); }
      return Err(InvalidState), ledger;
    }
    var prior: Option<Event>, penultimate: Option<Event> := None, None;
    for k := 0 to |names|
      invariant ReadSoFar(h, dir, names, k, ledger)
      invariant prior == Head(ledger) && penultimate == Penultimate(ledger)
    {
      assert prior.Some? ==> prior.value == ledger[k - 1];
      var entry := ReadEntry(h, names[k], dir[names[k]], k, prior);
      if entry.None? {
        forall l ensures !Holds(h, dir, l) { BadEntryRejects(h, dir, names, k, ledger, l); }
        return Err(InvalidState), ledger;
      }
      GoodEntryExtends(h, dir, names, k, ledger, entry.value);
      ledger := ledger + [entry.value];
      penultimate := prior;
      prior := entry;
    }
    AllRead(h, dir, names, ledger);
    r := Ok(Snapshot(|names|, penultimate, prior));
  }

  lemma TooManyEntries(h: Hasher, dir: Directory, l: seq<Event>, names: seq<string>)
    requires Sorted(names) && (forall x :: x in names <==> x in dir) && |names| > MAX_LEDGER_EVENTS
    ensures !Holds(h, dir, l)
  {
    if Holds(h, dir, l) { HeldNames(h, dir, l, names); }
  }

  lemma EntryExtends(h: Hasher, ledger: seq<Event>, name: string, raw: Raw, e: Event)
    requires ValidLedger(h, ledger) && |ledger| < MAX_LEDGER_EVENTS
    requires ReadEntry(h, name, raw, |ledger|, Head(ledger)) == Some(e)
    ensures ValidLedger(h, ledger + [e]) && Names(h, ledger + [e]) == Names(h, ledger) + [name] && raw == Canonical(e)
  {
    EventOfName(h, name, e);
    Extend(h, ledger, e);
  }

  lemma Extend(h: Hasher, ledger: seq<Event>, e: Event)
    requires ValidLedger(h, ledger) && |ledger| < MAX_LEDGER_EVENTS
    requires ValidEvent(e) && e.sequence == |ledger| + 1 && ChainOk(h, e, Head(ledger))
    ensures ValidLedger(h, ledger + [e]) && Names(h, ledger + [e]) == Names(h, ledger) + [EventName(h, e)]
  {
    hide ValidEvent, VersionOf, Newer, EventName;
    DeploymentSafety.AppendKeepsChain(h, ledger, e);
  }

  /** The state directory while an event is being written: stray temporaries
      live beside the ledger directory, never inside it. */
  datatype Files = Files(temporaries: map<string, Raw>, ledger: Option<Directory>)

  function Entries(fs: Files): Directory { if fs.ledger.Some? then fs.ledger.value else map[] }

  /** Every durable state of one append: directory creation, exclusive create of
      the temporary, its content on the way and complete, and the rename. */
  function AppendStates(h: Hasher, fs: Files, e: Event, temporary: string, partial: seq<Raw>): Option<seq<Files>>
    requires ValidEvent(e)
  {
    var name := EventName(h, e);
    if name in Entries(fs) then None
    else
      var made := fs.(ledger := Some(Entries(fs)));
      Some([made] +
           seq(|partial|,
               i requires 0 <= i < |partial| => made.(temporaries := fs.temporaries[temporary := partial[i]])) +
           [made.(temporaries := fs.temporaries[temporary := Canonical(e)]),
            Files(fs.temporaries - {temporary}, Some(Entries(fs)[name := Canonical(e)]))])
  }

  /** A crash anywhere inside the append leaves the old ledger, or the old
      ledger plus the event once the rename has happened; nothing in between. */
  lemma AppendIsAtomic(h: Hasher, fs: Files, ledger: seq<Event>, e: Event, temporary: string, partial: seq<Raw>)
    requires Holds(h, Entries(fs), ledger) && |ledger| < MAX_LEDGER_EVENTS
    requires ValidEvent(e) && e.sequence == |ledger| + 1 && ChainOk(h, e, Head(ledger))
    ensures var states := AppendStates(h, fs, e, temporary, partial);
            && states.Some?
            && (forall i :: 0 <= i < |states.value| - 1 ==> Holds(h, Entries(states.value[i]), ledger))
            && Holds(h, Entries(states.value[|states.value| - 1]), ledger + [e])
            && states.value[|states.value| - 1].temporaries == fs.temporaries - {temporary}
            && (forall i :: 0 <= i < |states.value| ==>
                  states.value[i].temporaries - {temporary} == fs.temporaries - {temporary})
  {
    hide ValidEvent, VersionOf, Newer, EventName, MatchName, Before;
    Extend(h, ledger, e);
    NameIsNew(h, ledger, e);
    var dir, l, name := Entries(fs), ledger + [e], EventName(h, e);
    var after := dir[name := Canonical(e)];
    assert Names(h, l) == Names(h, ledger) + [name];
    forall i | 0 <= i < |l| ensures after[Names(h, l)[i]] == Canonical(l[i]) {
      if i < |ledger| { assert Names(h, ledger)[i] in dir; }
    }
    assert Holds(h, after, l);
  }

  lemma NameIsNew(h: Hasher, ledger: seq<Event>, e: Event)
    requires Numbered(ledger) && ValidEvent(e) && e.sequence == |ledger| + 1
    ensures EventName(h, e) !in Names(h, ledger)
  {
    hide EventName, MatchName;
    NameOfEvent(h, e);
    forall i | 0 <= i < |ledger| ensures Names(h, ledger)[i] != EventName(h, e) {
      NameOfEvent(h, ledger[i]);
    }
  }
}
