/** What an accepted backfill outcome says about its streams: which one moved, what
    each number counts, and what the verdict means. */
module BackfillOutcomes {
  import opened Text
  import opened CheckpointChain
  import opened Backfill

  // ----- the aggregate

  ghost function InState(ss: seq<Stream>, state: ResumeState): set<nat> {
    set i: nat | i < |ss| && ss[i].resumeState == state
  }

  lemma InStateExtends(ss: seq<Stream>, state: ResumeState)
    requires ss != []
    ensures var n := |ss| - 1; |InState(ss, state)| == |InState(ss[..n], state)| + One(ss[n].resumeState == state)
  {
    var n := |ss| - 1;
    assert InState(ss, state) == InState(ss[..n], state) + if ss[n].resumeState == state then {n} else {};
  }

  /** The fields of a stream that the aggregate adds up. */
  datatype Field =
    | Revisions | Pages | Succeeded | ContinuationRevisions | ContinuationPages | ContinuationSucceeded
    | Observed | HasAdvanced

  function Get(s: Stream, f: Field): int {
    match f
    case Revisions => s.revisionCount
    case Pages => s.pageCount
    case Succeeded => s.pagesSucceeded
    case ContinuationRevisions => s.continuationRevisions
    case ContinuationPages => s.continuationPages
    case ContinuationSucceeded => s.continuationSucceeded
    case Observed => if s.currentFrontier.Some? then 1 else 0
    case HasAdvanced => if s.frontierAdvanced then 1 else 0
  }

  function Sum(ss: seq<Stream>, f: Field): int { if ss == [] then 0 else Get(ss[0], f) + Sum(ss[1..], f) }

  lemma {:induction false} SumExtends(ss: seq<Stream>, s: Stream, f: Field)
    ensures Sum(ss + [s], f) == Sum(ss, f) + Get(s, f)
  {
    hide Get;
    if ss == [] {
      assert ss + [s] == [s] && [s][1..] == [];
    } else {
      SumExtends(ss[1..], s, f);
      assert (ss + [s])[1..] == ss[1..] + [s];
    }
  }

  /** Each number of the aggregate is a count or a sum over the streams. */
  lemma {:induction false} TotalsMean(ss: seq<Stream>)
    ensures var t := TotalsOf(ss);
            && t.streams == |ss| && t.ready == |InState(ss, Ready)| && t.complete == |InState(ss, Complete)|
            && t.blocked == |InState(ss, Blocked)|
            && t.revisions == Sum(ss, Revisions) && t.pages == Sum(ss, Pages) && t.succeeded == Sum(ss, Succeeded)
            && t.continuationRevisions == Sum(ss, ContinuationRevisions)
            && t.continuationPages == Sum(ss, ContinuationPages)
            && t.continuationSucceeded == Sum(ss, ContinuationSucceeded)
            && t.observed == Sum(ss, Observed) && t.advanced == Sum(ss, HasAdvanced)
  {
    hide Sum, InState;
    if ss == [] {
      NoStreams();
    } else {
      var n := |ss| - 1;
      TotalsMean(ss[..n]);
      assert ss == ss[..n] + [ss[n]];
      InStateExtends(ss, Ready);
      InStateExtends(ss, Complete);
      InStateExtends(ss, Blocked);
      forall f ensures Sum(ss, f) == Sum(ss[..n], f) + Get(ss[n], f) { SumExtends(ss[..n], ss[n], f); }
    }
  }

  lemma NoStreams()
    ensures forall state :: InState([], state) == {}
    ensures forall f :: Sum([], f) == 0
  {
  }

  // ----- one outcome

  lemma {:induction false} StreamIsFound(ss: seq<Stream>, provider: string, streamKey: string) returns (i: nat)
    requires FindStream(ss, provider, streamKey).Some?
    ensures i < |ss| && ss[i].provider == provider && ss[i].streamKey == streamKey
    ensures FindStream(ss, provider, streamKey) == Some(ss[i])
    decreases |ss|
  {
    if ss[0].provider == provider && ss[0].streamKey == streamKey {
      i := 0;
    } else {
      i := StreamIsFound(ss[1..], provider, streamKey);
      i := i + 1;
    }
  }

  /** An accepted outcome is about the stream the schedule selected: it was ready;
      the transition records its states and tips and the change of every total; and
      the verdict is completed or stopped exactly when the stream is complete or
      blocked afterwards, and otherwise advanced exactly when pages were gained. */
  lemma OutcomeMeans(o: Outcome) returns (i: nat, j: nat)
    requires ValidOutcome(o)
    ensures i < |o.input.streams| && j < |o.output.streams| && o.schedule.selection.Some?
    ensures var sel, t := o.schedule.selection.value, o.transition;
            var before, after := o.input.streams[i], o.output.streams[j];
            && before.provider == sel.provider == after.provider && before.streamKey == sel.streamKey == after.streamKey
            && before.resumeState == Ready
            && t.provider == sel.provider && t.streamKey == sel.streamKey && t.inputCheckpoint == sel.checkpointId
            && t.outputCheckpoint == after.tip.publicId && t.before == Ready && t.after == after.resumeState
            && t.frontierChanged == (before.currentFrontier != after.currentFrontier)
    ensures var b, a, t := o.input.totals, o.output.totals, o.transition;
            && a.ready == b.ready + t.readyDelta && a.complete == b.complete + t.completeDelta
            && a.blocked == b.blocked + t.blockedDelta
            && a.revisions == b.revisions + 1 && a.continuationRevisions == b.continuationRevisions + 1
            && a.pages == b.pages + t.pageDelta && a.succeeded == b.succeeded + t.succeededDelta
            && a.continuationPages == b.continuationPages + t.continuationPageDelta
            && a.continuationSucceeded == b.continuationSucceeded + t.continuationSucceededDelta
    ensures var state, gained := o.output.streams[j].resumeState, o.output.totals.succeeded - o.input.totals.succeeded;
            && (o.verdict == Completed <==> state == Complete)
            && (o.verdict == Stopped <==> state == Blocked)
            && (o.verdict == Advanced <==> state == Ready && gained > 0)
            && (o.verdict == NoProgress <==> state == Ready && gained == 0)
  {
    hide ValidProgress, ValidReceipt;
    var sel := o.schedule.selection.value;
    i := StreamIsFound(o.input.streams, sel.provider, sel.streamKey);
    j := StreamIsFound(o.output.streams, sel.provider, sel.streamKey);
  }

  /** A receipt fixes its own account: with the same input and output there is only
      one transition, it spends one page of budget per page fetched, and what was
      gained was fetched. */
  lemma ReceiptFixesTransition(r: Receipt, s: Receipt)
    requires ValidReceipt(r) && ValidReceipt(s) && r.input == s.input && r.output == s.output
    ensures r.transition == s.transition
    ensures var i, o, t := r.input, r.output, r.transition;
            && o.pageCount == i.pageCount + t.pageDelta && o.pagesSucceeded == i.pagesSucceeded + t.succeededDelta
            && 0 <= t.succeededDelta <= t.pageDelta <= i.budget <= 10
            && t.budgetConsumed == t.pageDelta && t.budgetRemaining == i.budget - t.pageDelta
            && o.revisionCount == i.revisionCount + 1 && i.checkpoint.resumeState == Ready
            && o.checkpoint.streamKey == i.checkpoint.streamKey && o.checkpoint.provider == i.checkpoint.provider
            && o.checkpoint.sourceSync == r.syncId && o.checkpoint.publicId != i.checkpoint.publicId
            && (o.nextPage.Some? <==> o.checkpoint.resumeState == Ready)
            && (o.blocker.Some? <==> o.checkpoint.resumeState == Blocked)
  {
  }

  /** A receipt is valid exactly when its output is its ready input moved on by some
      pages within the budget, to another checkpoint of the same stream. */
  lemma ReceiptIsExact(r: Receipt)
    ensures ValidReceipt(r) <==>
              var i, tip, p, s := r.input, r.output.checkpoint, r.transition.pageDelta, r.transition.succeededDelta;
              && i.checkpoint.resumeState == Ready && i.nextPage >= 1 && 1 <= i.revisionCount <= 99
              && 0 <= i.pagesSucceeded <= i.pageCount && 1 <= i.budget <= 10 && 0 <= s <= p <= i.budget
              && r.transition == ReceiptTransition(p, s, p, i.budget - p)
              && r.output == ReceiptOutput(tip, i.revisionCount + 1, i.pageCount + p, i.pagesSucceeded + s,
                                           tip.resumeState, r.output.nextPage, r.output.blocker)
              && tip == Checkpoint(tip.publicId, i.checkpoint.provider, i.checkpoint.streamKey,
                                   i.checkpoint.contractVersion, r.syncId, tip.resumeState)
              && tip.publicId != i.checkpoint.publicId
              && match tip.resumeState
                 case Ready => r.output.nextPage.Some? && r.output.blocker.None?
                 case Complete => r.output.nextPage.None? && r.output.blocker.None?
                 case Blocked => r.output.nextPage.None? && r.output.blocker.Some?
  {
  }

  /** A stream is valid exactly when its totals are its root plus its continuation,
      its tip is of the same stream and state, and its frontiers are there as soon
      as a page succeeded. */
  lemma StreamIsExact(s: Stream)
    ensures ValidStream(s) <==>
              && 0 <= s.continuationRevisions <= 99 && s.revisionCount == 1 + s.continuationRevisions
              && 0 <= s.initialSucceeded <= s.initialPages && 0 <= s.continuationSucceeded <= s.continuationPages
              && s.pageCount - s.initialPages == s.continuationPages
              && s.pagesSucceeded - s.initialSucceeded == s.continuationSucceeded
              && (s.tip.provider, s.tip.streamKey, s.tip.resumeState) == (s.provider, s.streamKey, s.resumeState)
              && (match s.resumeState
                  case Ready => s.nextPage.Some? && s.blocker.None?
                  case Complete => s.nextPage.None? && s.blocker.None?
                  case Blocked => s.nextPage.None? && s.blocker.Some?)
              && (if s.initialSucceeded > 0 then
                    && s.rootFrontier.Some? && s.rootFrontier.value.checkpointId == s.rootCheckpoint
                    && s.currentFrontier.Some?
                    && s.frontierAdvanced == (s.rootFrontier.value.page != s.currentFrontier.value.page)
                  else
                    && s.rootFrontier.None? && !s.frontierAdvanced
                    && (s.currentFrontier.Some? <==> s.pagesSucceeded > 0))
  {
  }

  /** A progress document is valid exactly when its streams are, in strict order of
      their names, with the totals they imply and, unless there are none, a cut-off
      that is the tip of one of them. */
  lemma ProgressIsExact(p: Progress)
    ensures ValidProgress(p) <==>
              && |p.streams| <= 32 && (forall i :: 0 <= i < |p.streams| ==> ValidStream(p.streams[i]))
              && p.totals == TotalsOf(p.streams)
              && (forall i :: 0 < i < |p.streams| ==>
                    Before(StreamName(p.streams[i - 1]), StreamName(p.streams[i])))
              && match p.cutoff
                 case None => p.streams == []
                 case Some(c) => exists i :: 0 <= i < |p.streams| && p.streams[i].tip.publicId == c
  {
    hide ValidStream, TotalsOf, Before, StreamName;
    if forall i :: 0 < i < |p.streams| ==> Before(StreamName(p.streams[i - 1]), StreamName(p.streams[i])) {
      forall i, j | 0 <= i < j < |p.streams| ensures Before(StreamName(p.streams[i]), StreamName(p.streams[j])) {
        NamesGoUp(p.streams, i, j);
      }
    }
  }

  lemma {:induction false} NamesGoUp(ss: seq<Stream>, i: nat, j: nat)
    requires i < j < |ss| && forall k :: 0 < k < |ss| ==> Before(StreamName(ss[k - 1]), StreamName(ss[k]))
    ensures Before(StreamName(ss[i]), StreamName(ss[j]))
    decreases j
  {
    hide Before, StreamName;
    if i < j - 1 {
      NamesGoUp(ss, i, j - 1);
      BeforeIsTransitive(StreamName(ss[i]), StreamName(ss[j - 1]), StreamName(ss[j]));
    }
  }

  /** An outcome is valid exactly when its three documents are, they belong to one
      case, sync and schedule, and its transition and verdict are those of the
      stream selected, which was ready and gained one revision. */
  lemma OutcomeIsExact(o: Outcome)
    ensures ValidOutcome(o) <==>
              var b, a, t := o.input.totals, o.output.totals, o.transition;
              && ValidProgress(o.input) && ValidProgress(o.output) && ValidReceipt(o.receipt)
              && o.input.caseId == o.caseId && o.output.caseId == o.caseId && o.schedule.caseId == o.caseId
              && o.receipt.caseId == o.caseId
              && o.receipt.syncId == o.syncId && o.receipt.input.scheduleId == o.schedule.publicId
              && o.schedule.ready && o.schedule.progressId == o.input.publicId && o.schedule.cutoff == o.input.cutoff
              && o.output.cutoff == Some(o.receipt.output.checkpoint.publicId)
              && o.schedule.selection.Some?
              && var sel := o.schedule.selection.value;
                 var before := FindStream(o.input.streams, sel.provider, sel.streamKey);
                 var after := FindStream(o.output.streams, sel.provider, sel.streamKey);
                 && before.Some? && after.Some? && before.value.resumeState == Ready
                 && t == Transition(sel.provider, sel.streamKey, sel.checkpointId, after.value.tip.publicId, Ready,
                                    after.value.resumeState, 1, a.pages - b.pages, a.succeeded - b.succeeded, 1,
                                    a.continuationPages - b.continuationPages,
                                    a.continuationSucceeded - b.continuationSucceeded, a.ready - b.ready,
                                    a.complete - b.complete, a.blocked - b.blocked,
                                    before.value.currentFrontier != after.value.currentFrontier)
                 && a.revisions == b.revisions + 1 && a.continuationRevisions == b.continuationRevisions + 1
                 && 0 <= t.continuationPageDelta <= 10 && 0 <= t.continuationSucceededDelta <= 10
                 && (t.pageDelta, t.succeededDelta) ==
                    (o.receipt.transition.pageDelta, o.receipt.transition.succeededDelta)
                 && o.verdict == match after.value.resumeState
                                 case Complete => Completed
                                 case Blocked => Stopped
                                 case Ready => if a.succeeded > b.succeeded then Advanced else NoProgress
  {
    hide ValidProgress, FindStream;
  }
}
