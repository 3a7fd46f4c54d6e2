/** Provider history pages: each is bounded and strictly descending below its
    request cursor, and its next cursor is its smallest logical time. */
module CursorPages {
  import opened Text
  import opened ProviderValues

  const MAX_TRANSACTION_LIMIT := 1000
  const MAX_EVENT_LIMIT := 100
  const MAX_EVENT_DATE := 2114380800

  datatype Page = Page(before: Option<string>, times: seq<string>, next: Option<string>)

  /** The cursor of a request: absent, or a strict logical time. */
  function RequestCursor(v: Scalar): Option<Option<string>> {
    if v == Null then Some(None)
    else match StrictLogicalTime(v)
      case None => None
      case Some(t) => Some(Some(t))
  }

  function ReadTimes(rows: seq<Scalar>): (r: Option<seq<string>>)
    ensures r.Some? ==> |r.value| == |rows|
    ensures r.Some? ==> forall i :: 0 <= i < |rows| ==> StrictLogicalTime(rows[i]) == Some(r.value[i])
    ensures r.None? ==> exists i :: 0 <= i < |rows| && StrictLogicalTime(rows[i]).None?
  {
    if rows == [] then Some([])
    else
      var n := |rows| - 1;
      match (ReadTimes(rows[..n]), StrictLogicalTime(rows[n]))
      case (Some(front), Some(last)) => Some(front + [last])
      case _ => None
  }

  predicate AllTimes(times: seq<string>) { forall i :: 0 <= i < |times| ==> IsLogicalTime(times[i]) }

  function TimeOf(s: string): nat
    requires IsLogicalTime(s)
  {
    Value(s)
  }

  function Ints(times: seq<string>): (r: seq<nat>)
    requires AllTimes(times)
    ensures |r| == |times| && forall i :: 0 <= i < |r| ==> r[i] == TimeOf(times[i])
  {
    seq(|times|, i requires 0 <= i < |times| => TimeOf(times[i]))
  }

  /** Each number is smaller than the one just before it. */
  predicate StepsDown(ns: seq<nat>) { forall i :: 0 < i < |ns| ==> ns[i - 1] > ns[i] }

  predicate Descending(ns: seq<nat>) { forall i, j :: 0 <= i < j < |ns| ==> ns[i] > ns[j] }

  function Max(ns: seq<nat>): nat
    requires ns != []
  {
    if |ns| == 1 then ns[0] else var m := Max(ns[..|ns| - 1]); if ns[|ns| - 1] > m then ns[|ns| - 1] else m
  }

  function Min(ns: seq<nat>): nat
    requires ns != []
  {
    if |ns| == 1 then ns[0] else var m := Min(ns[..|ns| - 1]); if ns[|ns| - 1] < m then ns[|ns| - 1] else m
  }

  lemma {:induction false} DescendingExtremes(ns: seq<nat>)
    requires StepsDown(ns) && ns != []
    ensures Descending(ns) && Max(ns) == ns[0] && Min(ns) == ns[|ns| - 1]
  {
    if |ns| > 1 {
      var front := ns[..|ns| - 1];
      DescendingExtremes(front);
      assert ns[|ns| - 2] == front[|front| - 1];
    }
  }

  predicate BelowCursor(before: Option<string>, ns: seq<nat>)
    requires before.Some? ==> IsLogicalTime(before.value)
  {
    before.Some? && ns != [] ==> Max(ns) < TimeOf(before.value)
  }

  /** The checked fields of one transaction in a response. */
  datatype RawRow = NotARow | Row(hash: Scalar, lt: Scalar, totalFees: Scalar)

  predicate ValidRow(r: RawRow) {
    r.Row? && CanonicalHash(r.hash).Some? &&
      (r.totalFees == Missing || r.totalFees == Null || StrictNonnegative(r.totalFees).Some?)
  }

  /** The logical-time fields; a malformed row has none. */
  function RowTimes(rows: seq<RawRow>): (r: seq<Scalar>)
    ensures |r| == |rows| && forall i :: 0 <= i < |rows| ==> r[i] == if ValidRow(rows[i]) then rows[i].lt else Missing
  {
    seq(|rows|, i requires 0 <= i < |rows| => if ValidRow(rows[i]) then rows[i].lt else Missing)
  }

  /** One page of account transactions, read from a response. */
  function TransactionPage(limit: int, before: Scalar, rows: seq<RawRow>): Option<Page> {
    var cursor, times := RequestCursor(before), ReadTimes(RowTimes(rows));
    if !(1 <= limit <= MAX_TRANSACTION_LIMIT) || cursor.None? || times.None? || |rows| > limit then None
    else
      var ns := Ints(times.value);
      if !StepsDown(ns) || !BelowCursor(cursor.value, ns) then None
      else Some(Page(cursor.value, times.value, if ns == [] then None else Some(Decimal(Min(ns)))))
  }

  datatype RawAction = NotAnAction | Action(kind: Scalar)

  datatype RawEvent =
    | NotAnEvent
    | Event(id: Scalar, lt: Scalar, timestamp: Scalar, actions: RawList<RawAction>, inProgress: Scalar)

  /** An action has a type that is not blank. */
  predicate ValidAction(a: RawAction) {
    a.Action? && a.kind.Str? && exists i :: 0 <= i < |a.kind.s| && !IsSpace(a.kind.s[i])
  }

  predicate ValidActions(l: RawList<RawAction>) {
    l.Items? && forall i :: 0 <= i < |l.items| ==> ValidAction(l.items[i])
  }

  function EventDate(v: Scalar): Option<int> {
    if v.Integer? && 0 <= v.n <= MAX_EVENT_DATE then Some(v.n)
    else if v.Str? && IsNumeral(v.s) && Value(v.s) <= MAX_EVENT_DATE then Some(Value(v.s))
    else None
  }

  predicate ValidEvent(e: RawEvent) {
    && e.Event? && CanonicalHash(e.id).Some? && StrictLogicalTime(e.lt).Some? && EventDate(e.timestamp).Some?
    && ValidActions(e.actions) && e.inProgress.Boolean?
  }

  predicate ValidEvents(es: seq<RawEvent>) {
    && (forall i :: 0 <= i < |es| ==> ValidEvent(es[i]))
    && (forall i, j :: 0 <= i < j < |es| ==> CanonicalHash(es[i].id) != CanonicalHash(es[j].id))
    && (forall i :: 0 < i < |es| ==> EventDate(es[i - 1].timestamp).value >= EventDate(es[i].timestamp).value)
  }

  function EventTimes(es: seq<RawEvent>): (r: seq<Scalar>)
    ensures |r| == |es| && forall i :: 0 <= i < |es| ==> r[i] == if es[i].Event? then es[i].lt else Missing
  {
    seq(|es|, i requires 0 <= i < |es| => if es[i].Event? then es[i].lt else Missing)
  }

  /** A date is a number of the range, or its canonical decimal. */
  lemma DateIsExact(v: Scalar, n: int)
    ensures EventDate(v) == Some(n) <==> 0 <= n <= 2_114_380_800 && (v == Integer(n) || v == Str(Decimal(n)))
  {
    hide Value, Decimal;
    if v.Str? && IsNumeral(v.s) { NumeralRoundTrip(v.s); }
    if n >= 0 { DecimalRoundTrip(n); }
  }

  /** A window is refused exactly for a bound that is there but no date, or when it
      starts after it ends; a window of one moment is fine. */
  lemma WindowIsExact(start: Scalar, end: Scalar)
    ensures ValidWindow(start, end) <==>
              match (EventDate(start), EventDate(end))
              case (Some(a), Some(b)) => a <= b
              case (Some(_), None) => end == Null
              case (None, Some(_)) => start == Null
              case (None, None) => start == Null && end == Null
  {
    hide Value;
  }

  /** An event has a canonical id, a time and a date in range, and actions whose
      types are not blank. */
  lemma EventIsExact(e: RawEvent)
    ensures ValidEvent(e) <==>
              && e.Event? && e.id.Str? && IsHex(e.id.s, 64) && StrictLogicalTime(e.lt).Some?
              && EventDate(e.timestamp).Some? && e.inProgress.Boolean? && e.actions.Items?
              && forall k :: 0 <= k < |e.actions.items| ==>
                   var a := e.actions.items[k];
                   a.Action? && a.kind.Str? && exists c :: c in a.kind.s && !IsSpace(c)
    ensures ValidEvent(e) ==> CanonicalHash(e.id) == Some(Lower(e.id.s))
  {
    hide IsHex, StrictLogicalTime, EventDate, IsSpace, ValidActions;
    if e.Event? { ActionsAreExact(e.actions); }
  }

  /** The events of a page are valid one by one, no id occurs twice whatever its
      case, and the dates never go up. */
  lemma EventsAreExact(es: seq<RawEvent>)
    ensures ValidEvents(es) <==>
              && (forall i :: 0 <= i < |es| ==> ValidEvent(es[i]))
              && (forall i, j :: 0 <= i < j < |es| ==> Lower(es[i].id.s) != Lower(es[j].id.s))
              && (forall i, j :: 0 <= i < j < |es| ==>
                    EventDate(es[i].timestamp).value >= EventDate(es[j].timestamp).value)
  {
    hide ValidEvent, EventDate, CanonicalHash;
    forall i | 0 <= i < |es|
      ensures ValidEvent(es[i]) ==> es[i].Event? && es[i].id.Str? && CanonicalHash(es[i].id) == Some(Lower(es[i].id.s))
    {
      EventIsExact(es[i]);
    }
    if ValidEvents(es) { DatesGoDown(es); }
  }

  lemma ActionsAreExact(l: RawList<RawAction>)
    ensures ValidActions(l) <==>
              l.Items? &&
              forall k :: 0 <= k < |l.items| ==>
                var a := l.items[k];
                a.Action? && a.kind.Str? && exists c :: c in a.kind.s && !IsSpace(c)
  {
    hide IsSpace;
    if l.Items? {
      forall k | 0 <= k < |l.items| && l.items[k].Action? && l.items[k].kind.Str?
        ensures ValidAction(l.items[k]) <==> exists c :: c in l.items[k].kind.s && !IsSpace(c)
      {
        var s := l.items[k].kind.s;
        if c :| c in s && !IsSpace(c) { var i :| 0 <= i < |s| && s[i] == c; }
      }
    }
  }

  lemma DatesGoDown(es: seq<RawEvent>)
    requires ValidEvents(es)
    ensures forall i, j :: 0 <= i < j < |es| ==> EventDate(es[i].timestamp).value >= EventDate(es[j].timestamp).value
  {
    hide EventDate, StrictLogicalTime, CanonicalHash, ValidActions;
    forall i, j | 0 <= i < j < |es| ensures EventDate(es[i].timestamp).value >= EventDate(es[j].timestamp).value {
      DateBelow(es, i, j);
    }
  }

  lemma {:induction false} DateBelow(es: seq<RawEvent>, i: nat, j: nat)
    requires ValidEvents(es) && i < j < |es|
    ensures EventDate(es[i].timestamp).value >= EventDate(es[j].timestamp).value
    decreases j
  {
    hide EventDate, StrictLogicalTime, CanonicalHash, ValidActions;
    if i < j - 1 { DateBelow(es, i, j - 1); }
  }

  predicate TerminalZero(v: Scalar) { v == Null || v == Integer(0) || v == Str("0") }

  /** The dates a request may ask for: each absent or in range, and in order. */
  predicate ValidWindow(start: Scalar, end: Scalar) {
    && (start == Null || EventDate(start).Some?) && (end == Null || EventDate(end).Some?)
    && (EventDate(start).Some? && EventDate(end).Some? ==> EventDate(start).value <= EventDate(end).value)
  }

  /** One page of account events; the provider states its own next cursor. */
  function EventPage(limit: int, before: Scalar, start: Scalar, end: Scalar, es: seq<RawEvent>, nextFrom: Scalar)
    : Option<Page>
  {
    var cursor := RequestCursor(before);
    var times := ReadTimes(EventTimes(es));
    if !(1 <= limit <= MAX_EVENT_LIMIT) || cursor.None? || !ValidWindow(start, end) ||
       nextFrom == Missing || !ValidEvents(es) || times.None? || |es| > limit
    then None
    else
      var next := if es == [] && TerminalZero(nextFrom) then Some(None)
                  else if StrictLogicalTime(nextFrom).None? then None
                  else Some(StrictLogicalTime(nextFrom));
      var ns := Ints(times.value);
      if next.None? || !StepsDown(ns) || !BelowCursor(cursor.value, ns) ||
         (es != [] && next.value != Some(Decimal(Min(ns)))) || (es == [] && next.value.Some?)
      then None
      else Some(Page(cursor.value, times.value, next.value))
  }

  /** What a reader may rely on: strictly descending times below the cursor, and
      the last of them, verbatim, as the next cursor. */
  predicate Sound(p: Page) {
    && (p.before.Some? ==> IsLogicalTime(p.before.value)) && AllTimes(p.times) && Descending(Ints(p.times))
    && (p.before.Some? ==> forall i :: 0 <= i < |p.times| ==> TimeOf(p.times[i]) < TimeOf(p.before.value))
    && p.next == (if p.times == [] then None else Some(p.times[|p.times| - 1]))
  }

  lemma SoundPage(before: Option<string>, times: seq<string>, next: Option<string>)
    requires (before.Some? ==> IsLogicalTime(before.value)) && AllTimes(times)
    requires StepsDown(Ints(times)) && BelowCursor(before, Ints(times))
    requires next == (if times == [] then None else Some(Decimal(Min(Ints(times)))))
    ensures Sound(Page(before, times, next))
  {
    hide Value, Decimal, Max, Min;
    var ns := Ints(times);
    if times != [] {
      DescendingExtremes(ns);
      NumeralRoundTrip(times[|times| - 1]);
      assert forall i :: 0 <= i < |times| ==> ns[i] <= ns[0];
    }
  }

  lemma TransactionPagesAreSound(limit: int, before: Scalar, rows: seq<RawRow>)
    requires TransactionPage(limit, before, rows).Some?
    ensures Sound(TransactionPage(limit, before, rows).value) &&
            |TransactionPage(limit, before, rows).value.times| == |rows| <= limit
    ensures 1 <= limit <= 1000 && (before == Null || StrictLogicalTime(before).Some?)
    ensures var p := TransactionPage(limit, before, rows).value;
            && p.before == (if before == Null then None else StrictLogicalTime(before))
            && forall i :: 0 <= i < |rows| ==>
                 && rows[i].Row? && StrictLogicalTime(rows[i].lt) == Some(p.times[i])
                 && rows[i].hash.Str? && IsHex(rows[i].hash.s, 64)
                 && (rows[i].totalFees in {Missing, Null} || StrictNonnegative(rows[i].totalFees).Some?)
  {
    hide Value, Decimal, Max, Min, ValidRow;
    TimedRowsAreValid(rows);
    forall i | 0 <= i < |rows| ensures ValidRow(rows[i]) <==> RowFits(rows[i]) { RowIsExact(rows[i]); }
    var p := TransactionPage(limit, before, rows).value;
    SoundPage(p.before, p.times, p.next);
  }

  /** A row with a canonical hash and fees that are absent or a number. */
  predicate RowFits(r: RawRow) {
    r.Row? && r.hash.Str? && IsHex(r.hash.s, 64) &&
    (r.totalFees in {Missing, Null} || StrictNonnegative(r.totalFees).Some?)
  }

  lemma RowIsExact(r: RawRow)
    ensures ValidRow(r) <==> RowFits(r)
  {
    hide IsHex, StrictNonnegative;
  }

  lemma TimedRowsAreValid(rows: seq<RawRow>)
    requires ReadTimes(RowTimes(rows)).Some?
    ensures forall i :: 0 <= i < |rows| ==> ValidRow(rows[i])
  {
    hide ReadTimes, ValidRow, IsLogicalTime;
    assert forall i :: 0 <= i < |rows| ==> StrictLogicalTime(RowTimes(rows)[i]).Some?;
  }

  function CursorText(c: Option<string>): Scalar { if c.None? then Null else Str(c.value) }

  /** These fields are the page's times, verbatim. */
  predicate Spells(fields: seq<Scalar>, times: seq<string>) {
    |fields| == |times| && forall i :: 0 <= i < |times| ==> fields[i] == Str(times[i])
  }

  /** Conversely, every response of valid rows within the limit whose times make
      a sound page is accepted as that page. */
  lemma SoundPagesAreAccepted(limit: int, p: Page, rows: seq<RawRow>)
    requires Sound(p) && |p.times| <= limit && 1 <= limit <= 1000
    requires |rows| == |p.times| && forall i :: 0 <= i < |rows| ==> RowFits(rows[i]) && rows[i].lt == Str(p.times[i])
    ensures TransactionPage(limit, CursorText(p.before), rows) == Some(p)
  {
    hide TimeOf, IsLogicalTime, Decimal, Max, Min, ReadTimes, StrictLogicalTime, ValidRow, RowFits;
    forall i | 0 <= i < |rows| ensures ValidRow(rows[i]) { RowIsExact(rows[i]); }
    if p.before.Some? { ReadCursor(p.before.value); }
    ReadTimesOf(RowTimes(rows), p.times);
    PageBounds(p);
  }

  /** The same of events, when the response also names the last time as its next cursor. */
  lemma SoundEventPagesAreAccepted(
    limit: int, p: Page, start: Scalar, end: Scalar, es: seq<RawEvent>, nextFrom: Scalar)
    requires Sound(p) && |p.times| <= limit && 1 <= limit <= 100
    requires ValidWindow(start, end) && ValidEvents(es) && Spells(EventTimes(es), p.times)
    requires if p.next.Some? then nextFrom == Str(p.next.value) else nextFrom in {Null, Integer(0), Str("0")}
    ensures EventPage(limit, CursorText(p.before), start, end, es, nextFrom) == Some(p)
  {
    hide TimeOf, IsLogicalTime, Decimal, Max, Min, ReadTimes, StrictLogicalTime, ValidEvents, ValidWindow;
    if p.before.Some? { ReadCursor(p.before.value); }
    ReadTimesOf(EventTimes(es), p.times);
    PageBounds(p);
    if p.next.Some? { ReadCursor(p.next.value); }
  }

  lemma ReadCursor(t: string)
    requires IsLogicalTime(t)
    ensures StrictLogicalTime(Str(t)) == Some(t)
  {
    StrictTextIsExact(t);
  }

  /** The tests on numbers that a sound page passes. */
  lemma PageBounds(p: Page)
    requires Sound(p)
    ensures StepsDown(Ints(p.times)) && BelowCursor(p.before, Ints(p.times))
    ensures p.next == if p.times == [] then None else Some(Decimal(Min(Ints(p.times))))
  {
    hide TimeOf, IsLogicalTime, Decimal, Max, Min;
    var ns := Ints(p.times);
    assert StepsDown(ns);
    if p.times != [] {
      DescendingExtremes(ns);
      LastIsDecimal(p.times);
    }
  }

  lemma LastIsDecimal(times: seq<string>)
    requires AllTimes(times) && times != []
    ensures Decimal(Ints(times)[|times| - 1]) == times[|times| - 1]
  {
    hide Value, Decimal;
    NumeralRoundTrip(times[|times| - 1]);
  }

  lemma ReadTimesOf(fields: seq<Scalar>, times: seq<string>)
    requires AllTimes(times) && Spells(fields, times)
    ensures ReadTimes(fields) == Some(times)
  {
    hide ReadTimes, StrictLogicalTime, IsLogicalTime;
    forall i | 0 <= i < |times| ensures StrictLogicalTime(fields[i]) == Some(times[i]) { ReadCursor(times[i]); }
    var r := ReadTimes(fields);
    assert r.Some? ==> forall i :: 0 <= i < |times| ==> r.value[i] == times[i];
    assert r.Some? ==> r.value == times;
  }

  lemma EventPagesAreSound(
    limit: int, before: Scalar, start: Scalar, end: Scalar, es: seq<RawEvent>, nextFrom: Scalar)
    requires EventPage(limit, before, start, end, es, nextFrom).Some?
    ensures var p := EventPage(limit, before, start, end, es, nextFrom).value; Sound(p) && |p.times| == |es| <= limit
    ensures ValidEvents(es) && ValidWindow(start, end) && 1 <= limit <= 100
    ensures var p := EventPage(limit, before, start, end, es, nextFrom).value;
            && (if p.next.Some? then StrictLogicalTime(nextFrom) == p.next
                else nextFrom in {Null, Integer(0), Str("0")})
            && (before == Null || StrictLogicalTime(before).Some?)
            && p.before == (if before == Null then None else StrictLogicalTime(before))
            && forall i :: 0 <= i < |es| ==> es[i].Event? && StrictLogicalTime(es[i].lt) == Some(p.times[i])
  {
    hide Value, Decimal, Max, Min, ValidEvents, ValidWindow;
    var p := EventPage(limit, before, start, end, es, nextFrom).value;
    SoundPage(p.before, p.times, p.next);
  }

  /** Each request uses the previous page's next cursor. */
  predicate Chained(pages: seq<Page>) {
    && (forall i :: 0 <= i < |pages| ==> Sound(pages[i]))
    && (forall i :: 0 < i < |pages| ==> Follows(pages, i))
  }

  predicate Follows(pages: seq<Page>, i: nat)
    requires 0 < i < |pages|
  {
    pages[i - 1].next.Some? && pages[i].before == pages[i - 1].next
  }

  function AllRows(pages: seq<Page>): seq<string> {
    if pages == [] then [] else AllRows(pages[..|pages| - 1]) + pages[|pages| - 1].times
  }

  lemma DescendingConcat(a: seq<nat>, b: seq<nat>)
    requires Descending(a) && Descending(b)
    requires a != [] ==> forall j :: 0 <= j < |b| ==> b[j] < a[|a| - 1]
    ensures Descending(a + b)
  {
    var c := a + b;
    forall i, j | 0 <= i < j < |c| ensures c[i] > c[j] {
      if i < |a| <= j { assert a[i] >= a[|a| - 1]; }
    }
  }

  lemma NothingDescends()
    ensures AllTimes([]) && Descending(Ints([]))
  {
  }

  predicate AllBelow(ns: seq<nat>, bound: nat) { forall i :: 0 <= i < |ns| ==> ns[i] < bound }

  lemma ConcatInts(a: seq<string>, b: seq<string>)
    requires AllTimes(a) && AllTimes(b)
    ensures AllTimes(a + b) && Ints(a + b) == Ints(a) + Ints(b)
  {
    hide IsLogicalTime;
  }

  lemma ChainFront(pages: seq<Page>)
    requires Chained(pages) && pages != []
    ensures Chained(pages[..|pages| - 1]) && Sound(pages[|pages| - 1])
    ensures |pages| > 1 ==> Follows(pages, |pages| - 1)
  {
    hide Sound;
    var front := pages[..|pages| - 1];
    forall i | 0 < i < |front| ensures Follows(front, i) { assert Follows(pages, i); }
  }

  /** The last page of a run brings smaller times, below what came before. */
  lemma LastPageBelow(p: Page, bound: nat)
    requires Sound(p) && p.before.Some? && TimeOf(p.before.value) <= bound
    ensures AllBelow(Ints(p.times), bound)
  {
    hide Value, IsNumeral;
  }

  /** Concatenating any run of chained pages gives strictly descending logical
      times, all below the first cursor: nothing repeats and nothing is out of
      order. */
  lemma {:induction false} ChainDescends(pages: seq<Page>)
    requires Chained(pages)
    ensures AllTimes(AllRows(pages)) && Descending(Ints(AllRows(pages)))
    ensures pages != [] && pages[0].before.Some? ==>
              IsLogicalTime(pages[0].before.value) && AllBelow(Ints(AllRows(pages)), TimeOf(pages[0].before.value))
    ensures pages != [] && pages[|pages| - 1].next.Some? ==>
              AllRows(pages) != [] && AllRows(pages)[|AllRows(pages)| - 1] == pages[|pages| - 1].next.value
  {
    hide TimeOf, IsLogicalTime, Descending, Chained;
    if pages == [] {
      NothingDescends();
    } else {
      var n := |pages| - 1;
      var front, last := pages[..n], pages[n];
      var rows := AllRows(front);
      ChainFront(pages);
      ChainDescends(front);
      ConcatInts(rows, last.times);
      if n == 0 {
        assert rows == [] && rows + last.times == last.times;
      } else {
        assert front[|front| - 1] == pages[n - 1] && front[0] == pages[0];
        var low := rows[|rows| - 1];
        assert last.before == Some(low) && Ints(rows)[|rows| - 1] == TimeOf(low);
        LastPageBelow(last, TimeOf(low));
        DescendingConcat(Ints(rows), Ints(last.times));
        if pages[0].before.Some? {
          var top := TimeOf(pages[0].before.value);
          assert Ints(rows)[|rows| - 1] < top;
          LastPageBelow(last, top);
        }
      }
    }
  }

  lemma {:induction false} DescendingIsShort(ns: seq<nat>, bound: nat)
    requires Descending(ns) && forall i :: 0 <= i < |ns| ==> 1 <= ns[i] < bound
    ensures ns != [] ==> |ns| < bound
    decreases |ns|
  {
    if |ns| > 1 {
      var tail := ns[1..];
      assert forall i :: 0 <= i < |tail| ==> 1 <= tail[i] < ns[0];
      DescendingIsShort(tail, ns[0]);
    }
  }

  lemma {:induction false} EveryPageAddsARow(pages: seq<Page>)
    requires Chained(pages)
    ensures |pages| <= |AllRows(pages)| + 1
    ensures pages != [] && pages[|pages| - 1].times != [] ==> |pages| <= |AllRows(pages)|
  {
    hide Chained, AllTimes, Descending;
    if pages != [] {
      var n := |pages| - 1;
      ChainFront(pages);
      EveryPageAddsARow(pages[..n]);
      if n > 0 {
        ChainFront(pages[..n]);
        assert pages[..n][n - 1] == pages[n - 1];
      }
    }
  }

  lemma FirstIsSound(pages: seq<Page>)
    requires Chained(pages) && pages != []
    ensures Sound(pages[0])
  {
  }

  /** Such a run is finite: it has fewer rows than the first cursor, and at most
      one page more than rows. */
  lemma ChainIsFinite(pages: seq<Page>)
    requires Chained(pages) && pages != []
    ensures var bound := if pages[0].before.Some? then TimeOf(pages[0].before.value) else MAX_LOGICAL_TIME + 1;
            |AllRows(pages)| < bound && |pages| <= bound
  {
    hide Chained, Descending, Value;
    ChainDescends(pages);
    EveryPageAddsARow(pages);
    FirstIsSound(pages);
    var bound := if pages[0].before.Some? then TimeOf(pages[0].before.value) else MAX_LOGICAL_TIME + 1;
    DescendingIsShort(Ints(AllRows(pages)), bound);
  }
}
