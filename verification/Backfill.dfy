/** Backfill progress, continuation receipts and outcomes: over any chained run of
    accepted outcomes the page account telescopes. */
module Backfill {
  import opened Text
  import opened CheckpointChain

  /** The page reached, and the checkpoint that reached it. */
  datatype Frontier = Frontier(checkpointId: string, page: string)

  datatype Stream = Stream(
    provider: string, streamKey: string, rootCheckpoint: string, tip: Checkpoint, revisionCount: int,
    initialPages: int, initialSucceeded: int,
    continuationRevisions: int, continuationPages: int, continuationSucceeded: int, pageCount: int, pagesSucceeded: int,
    resumeState: ResumeState, nextPage: Option<int>, blocker: Option<string>, rootFrontier: Option<Frontier>,
    currentFrontier: Option<Frontier>, frontierAdvanced: bool)

  predicate ValidStream(s: Stream) {
    && s.tip.provider == s.provider && s.tip.streamKey == s.streamKey && s.tip.resumeState == s.resumeState
    && 1 <= s.revisionCount <= 100 && s.revisionCount == s.continuationRevisions + 1
    && 0 <= s.initialSucceeded <= s.initialPages && 0 <= s.continuationSucceeded <= s.continuationPages
    && s.pageCount == s.initialPages + s.continuationPages
    && s.pagesSucceeded == s.initialSucceeded + s.continuationSucceeded
    && (s.resumeState == Ready <==> s.nextPage.Some?) && (s.resumeState == Blocked <==> s.blocker.Some?)
    && (s.rootFrontier.None? <==> s.initialSucceeded == 0) && (s.currentFrontier.None? <==> s.pagesSucceeded == 0)
    && (s.rootFrontier.Some? ==> s.rootFrontier.value.checkpointId == s.rootCheckpoint)
    && s.frontierAdvanced ==
       (s.rootFrontier.Some? && s.currentFrontier.Some? && s.rootFrontier.value.page != s.currentFrontier.value.page)
  }

  datatype Totals = Totals(
    streams: int, ready: int, complete: int, blocked: int, revisions: int, continuationRevisions: int,
    pages: int, succeeded: int, continuationPages: int, continuationSucceeded: int, observed: int, advanced: int)

  function One(b: bool): int { if b then 1 else 0 }

  function Add(t: Totals, s: Stream): Totals {
    Totals(t.streams + 1, t.ready + One(s.resumeState == Ready), t.complete + One(s.resumeState == Complete),
           t.blocked + One(s.resumeState == Blocked), t.revisions + s.revisionCount,
           t.continuationRevisions + s.continuationRevisions, t.pages + s.pageCount, t.succeeded + s.pagesSucceeded,
           t.continuationPages + s.continuationPages, t.continuationSucceeded + s.continuationSucceeded,
           t.observed + One(s.currentFrontier.Some?), t.advanced + One(s.frontierAdvanced))
  }

  /** The aggregate that the streams of a document imply. */
  function TotalsOf(ss: seq<Stream>): Totals {
    if ss == [] then Totals(0, 0, 0, 0, 0, 0, 0, 0, 0, 0, 0, 0) else Add(TotalsOf(ss[..|ss| - 1]), ss[|ss| - 1])
  }

  datatype Progress = Progress(publicId: string, caseId: string, cutoff: Option<string>, totals: Totals,
                               streams: seq<Stream>)

  function StreamName(s: Stream): string { s.provider + ['\0'] + s.streamKey }

  /** The progress document and its descriptor, which repeats the aggregate. */
  predicate ValidProgress(p: Progress) {
    && |p.streams| <= 32 && (forall i :: 0 <= i < |p.streams| ==> ValidStream(p.streams[i]))
    && p.totals == TotalsOf(p.streams)
    && (forall i, j :: 0 <= i < j < |p.streams| ==> Before(StreamName(p.streams[i]), StreamName(p.streams[j])))
    && (p.cutoff.None? <==> p.streams == [])
    && (p.cutoff.Some? ==> exists i :: 0 <= i < |p.streams| && p.streams[i].tip.publicId == p.cutoff.value)
  }

  datatype ReceiptInput = ReceiptInput(
    checkpoint: Checkpoint, revisionCount: int, pageCount: int, pagesSucceeded: int, nextPage: int, budget: int,
    scheduleId: string)

  datatype ReceiptOutput = ReceiptOutput(
    checkpoint: Checkpoint, revisionCount: int, pageCount: int, pagesSucceeded: int, resumeState: ResumeState,
    nextPage: Option<int>, blocker: Option<string>)

  datatype ReceiptTransition = ReceiptTransition(pageDelta: int, succeededDelta: int, budgetConsumed: int,
                                                 budgetRemaining: int)

  datatype Receipt = Receipt(publicId: string, caseId: string, syncId: string, input: ReceiptInput,
                             output: ReceiptOutput, transition: ReceiptTransition)

  /** The continuation receipt, third version: identities, deltas and the page budget. */
  predicate ValidReceipt(r: Receipt) {
    var i, o, t := r.input, r.output, r.transition;
    && i.checkpoint.resumeState == Ready && 0 <= i.pagesSucceeded <= i.pageCount && 1 <= i.revisionCount <= 99 &&
       i.nextPage >= 1
    && 1 <= i.budget <= 10
    && o.checkpoint.resumeState == o.resumeState && 0 <= o.pagesSucceeded <= o.pageCount
    && (o.resumeState == Ready <==> o.nextPage.Some?) && (o.resumeState == Blocked <==> o.blocker.Some?)
    && i.checkpoint.provider == o.checkpoint.provider && i.checkpoint.streamKey == o.checkpoint.streamKey
    && i.checkpoint.contractVersion == o.checkpoint.contractVersion
    && o.checkpoint.sourceSync == r.syncId && i.checkpoint.publicId != o.checkpoint.publicId
    && o.revisionCount == i.revisionCount + 1
    && t.pageDelta >= 0 && t.pageDelta == o.pageCount - i.pageCount
    && t.succeededDelta >= 0 && t.succeededDelta == o.pagesSucceeded - i.pagesSucceeded
    && 0 <= t.budgetConsumed <= 10 && 0 <= t.budgetRemaining <= 10
    && t.budgetConsumed == t.pageDelta && t.succeededDelta <= t.budgetConsumed
    && t.budgetConsumed + t.budgetRemaining == i.budget
  }

  datatype Selection = Selection(provider: string, streamKey: string, checkpointId: string)

  datatype Schedule = Schedule(publicId: string, caseId: string, ready: bool, progressId: string,
                               cutoff: Option<string>, selection: Option<Selection>)

  datatype Transition = Transition(
    provider: string, streamKey: string, inputCheckpoint: string, outputCheckpoint: string, before: ResumeState,
    after: ResumeState,
    revisionDelta: int, pageDelta: int, succeededDelta: int, continuationRevisionDelta: int, continuationPageDelta: int,
    continuationSucceededDelta: int, readyDelta: int, completeDelta: int, blockedDelta: int, frontierChanged: bool)

  datatype Verdict = Advanced | Completed | Stopped | NoProgress

  datatype Outcome = Outcome(
    caseId: string, syncId: string, schedule: Schedule, input: Progress, receipt: Receipt, output: Progress,
    verdict: Verdict, transition: Transition)

  function FindStream(ss: seq<Stream>, provider: string, streamKey: string): Option<Stream> {
    if ss == [] then None
    else if ss[0].provider == provider && ss[0].streamKey == streamKey then Some(ss[0])
    else FindStream(ss[1..], provider, streamKey)
  }

  /** The transition that the two progress documents imply for the selected stream. */
  function ExpectedTransition(o: Outcome): Option<Transition> {
    if o.schedule.selection.None? then None
    else
      var sel, b, a := o.schedule.selection.value, o.input.totals, o.output.totals;
      match (FindStream(o.input.streams, sel.provider, sel.streamKey),
             FindStream(o.output.streams, sel.provider, sel.streamKey))
      case (Some(before), Some(after)) =>
        Some(Transition(sel.provider, sel.streamKey, sel.checkpointId, after.tip.publicId, before.resumeState,
                        after.resumeState,
                        a.revisions - b.revisions, a.pages - b.pages, a.succeeded - b.succeeded,
                        a.continuationRevisions - b.continuationRevisions, a.continuationPages - b.continuationPages,
                        a.continuationSucceeded - b.continuationSucceeded, a.ready - b.ready, a.complete - b.complete,
                        a.blocked - b.blocked, before.currentFrontier != after.currentFrontier))
      case _ => None
  }

  function ExpectedVerdict(t: Transition): Verdict {
    if t.after == Complete then Completed else if t.after == Blocked then Stopped
    else if t.succeededDelta > 0 then Advanced else NoProgress
  }

  /** The outcome validator. */
  predicate ValidOutcome(o: Outcome) {
    var t := o.transition;
    && ValidProgress(o.input) && ValidProgress(o.output) && ValidReceipt(o.receipt)
    && t.before == Ready && t.revisionDelta == 1 && t.continuationRevisionDelta == 1
    && 0 <= t.pageDelta <= 10 && 0 <= t.succeededDelta <= 10
    && 0 <= t.continuationPageDelta <= 10 && 0 <= t.continuationSucceededDelta <= 10
    && o.caseId == o.input.caseId == o.output.caseId && o.caseId == o.schedule.caseId == o.receipt.caseId
    && o.syncId == o.receipt.syncId
    && o.schedule.ready && o.schedule.progressId == o.input.publicId && o.schedule.cutoff == o.input.cutoff
    && o.receipt.input.scheduleId == o.schedule.publicId
    && o.output.cutoff == Some(o.receipt.output.checkpoint.publicId)
    && o.receipt.transition.pageDelta == t.pageDelta && o.receipt.transition.succeededDelta == t.succeededDelta
    && ExpectedTransition(o) == Some(t)
    && o.verdict == ExpectedVerdict(t)
  }

  // ----- the account

  /** Every stream is in exactly one state. */
  lemma {:induction false} StatesCoverStreams(ss: seq<Stream>)
    ensures var t := TotalsOf(ss); t.streams == |ss| && t.ready + t.complete + t.blocked == t.streams
  {
    if ss != [] { StatesCoverStreams(ss[..|ss| - 1]); }
  }

  lemma {:induction false} RevisionsCount(ss: seq<Stream>)
    requires forall i :: 0 <= i < |ss| ==> ValidStream(ss[i])
    ensures var t := TotalsOf(ss); t.revisions == t.continuationRevisions + |ss| && |ss| <= t.revisions <= 100 * |ss|
    ensures var t := TotalsOf(ss); 0 <= t.succeeded <= t.pages && 0 <= t.continuationSucceeded <= t.continuationPages
  {
    if ss != [] { RevisionsCount(ss[..|ss| - 1]); }
  }

  /** One outcome adds one revision and keeps the number of streams: it gains at
      most what its receipt's budget allows. */
  lemma OutcomeAccount(o: Outcome)
    requires ValidOutcome(o)
    ensures o.output.totals.succeeded - o.input.totals.succeeded == o.transition.succeededDelta
    ensures 0 <= o.transition.succeededDelta <= o.transition.pageDelta <= o.receipt.input.budget
    ensures o.output.totals.revisions == o.input.totals.revisions + 1
    ensures o.output.totals.streams == o.input.totals.streams
    ensures o.transition.readyDelta + o.transition.completeDelta + o.transition.blockedDelta == 0
  {
    StatesCoverStreams(o.input.streams);
    StatesCoverStreams(o.output.streams);
    RevisionsCount(o.input.streams);
    RevisionsCount(o.output.streams);
  }

  /** Each output progress is the next input progress. */
  predicate ChainedRun(os: seq<Outcome>) {
    (forall i :: 0 <= i < |os| ==> ValidOutcome(os[i])) && (forall i :: 0 < i < |os| ==> FollowsOn(os, i))
  }

  predicate FollowsOn(os: seq<Outcome>, i: nat)
    requires 0 < i < |os|
  {
    os[i].input == os[i - 1].output
  }

  function Gained(os: seq<Outcome>): int {
    if os == [] then 0 else Gained(os[..|os| - 1]) + os[|os| - 1].transition.succeededDelta
  }

  function Fetched(os: seq<Outcome>): int {
    if os == [] then 0 else Fetched(os[..|os| - 1]) + os[|os| - 1].transition.pageDelta
  }

  function Budgets(os: seq<Outcome>): int {
    if os == [] then 0 else Budgets(os[..|os| - 1]) + os[|os| - 1].receipt.input.budget
  }

  /** The account telescopes: pages gained are last minus first, never more than
      pages fetched, which never exceed the budgets; each outcome adds exactly one
      revision; and the set of streams never grows or shrinks. */
  lemma {:induction false} AccountTelescopes(os: seq<Outcome>)
    requires ChainedRun(os) && os != []
    ensures var first, last := os[0].input.totals, os[|os| - 1].output.totals;
            && Gained(os) == last.succeeded - first.succeeded && Fetched(os) == last.pages - first.pages
            && 0 <= Gained(os) <= Fetched(os) <= Budgets(os)
            && last.revisions - first.revisions == |os| && last.streams == first.streams
            && (last.ready - first.ready) + (last.complete - first.complete) + (last.blocked - first.blocked) == 0
  {
    hide ValidOutcome, TotalsOf;
    var n := |os| - 1;
    LastOutcome(os);
    OutcomeAccount(os[n]);
    OutcomeStates(os[n]);
    if n > 0 {
      AccountTelescopes(os[..n]);
      assert os[..n][0] == os[0] && os[..n][n - 1] == os[n - 1];
    } else {
      assert os[..0] == [] && Gained(os[..0]) == 0 && Fetched(os[..0]) == 0 && Budgets(os[..0]) == 0;
    }
  }

  lemma OutcomeStates(o: Outcome)
    requires ValidOutcome(o)
    ensures var b, a := o.input.totals, o.output.totals;
            && a.ready + a.complete + a.blocked == a.streams && b.ready + b.complete + b.blocked == b.streams
            && a.pages - b.pages == o.transition.pageDelta
  {
    StatesCoverStreams(o.input.streams);
    StatesCoverStreams(o.output.streams);
  }

  lemma LastOutcome(os: seq<Outcome>)
    requires ChainedRun(os) && os != []
    ensures ValidOutcome(os[|os| - 1]) && ChainedRun(os[..|os| - 1])
    ensures |os| > 1 ==> FollowsOn(os, |os| - 1)
  {
    hide ValidOutcome;
    var front := os[..|os| - 1];
    forall i | 0 < i < |front| ensures FollowsOn(front, i) { assert FollowsOn(os, i); }
  }

  /** Because each stream holds at most a hundred revisions, a chained run is
      bounded by the room left for revisions. */
  lemma RunIsBounded(os: seq<Outcome>)
    requires ChainedRun(os) && os != []
    ensures |os| <= 100 * |os[0].input.streams| - os[0].input.totals.revisions
    ensures |os| <= 3168
  {
    AccountTelescopes(os);
    LastOutcome(os);
    hide TotalsOf;
    var last := os[|os| - 1].output;
    RevisionsCount(last.streams);
    RevisionsCount(os[0].input.streams);
    StatesCoverStreams(last.streams);
    StatesCoverStreams(os[0].input.streams);
  }
}
