/** Checkpoint chains: a root acquisition followed by resume revisions. The
    document validator accepts exactly the chains built one append at a time. */
module CheckpointChain {
  import opened Text

  datatype Mode = Bounded | Incremental | Resume
  datatype ResumeState = Ready | Complete | Blocked

  datatype Checkpoint = Checkpoint(
    publicId: string, provider: string, streamKey: string, contractVersion: string, sourceSync: string,
    resumeState: ResumeState)

  datatype Revision = Revision(
    ordinal: int, checkpoint: Checkpoint, mode: Mode, base: Option<string>, parent: Option<string>,
    manifestId: string, manifestHash: string, continuation: Option<int>, pageCount: int, pagesSucceeded: int)

  datatype Aggregate = Aggregate(revisionCount: int, pageCount: int, pagesSucceeded: int)

  datatype Document = Document(
    tipId: string, provider: string, streamKey: string, contractVersion: string, rootMode: Mode,
    rootBase: Option<string>,
    currentState: ResumeState, nextPage: Option<int>, aggregate: Aggregate, revisions: seq<Revision>)

  const MAX_REVISIONS := 100

  predicate ValidRevision(r: Revision) {
    && 0 <= r.ordinal < MAX_REVISIONS && 0 <= r.pagesSucceeded <= r.pageCount
    && (r.continuation.Some? ==> r.continuation.value >= 1)
    && (r.checkpoint.resumeState == Ready <==> r.continuation.Some?)
    && r.manifestId == "smf_" + r.manifestHash
  }

  function SumPages(rs: seq<Revision>): int {
    if rs == [] then 0 else SumPages(rs[..|rs| - 1]) + rs[|rs| - 1].pageCount
  }

  function SumSucceeded(rs: seq<Revision>): int {
    if rs == [] then 0 else SumSucceeded(rs[..|rs| - 1]) + rs[|rs| - 1].pagesSucceeded
  }

  /** The checks made on one revision inside the chain loop. */
  predicate Linked(d: Document, i: nat)
    requires i < |d.revisions|
  {
    var r := d.revisions[i];
    && r.ordinal == i && r.checkpoint.provider == d.provider && r.checkpoint.streamKey == d.streamKey
    && r.checkpoint.contractVersion == d.contractVersion
    && (i > 0 ==>
          var p := d.revisions[i - 1];
          r.mode == Resume && r.parent == Some(p.checkpoint.publicId) && r.base == Some(p.checkpoint.sourceSync))
  }

  /** The document validator. */
  predicate ValidChain(d: Document) {
    && 1 <= |d.revisions| <= MAX_REVISIONS && d.rootMode != Resume
    && (forall i :: 0 <= i < |d.revisions| ==> ValidRevision(d.revisions[i]))
    && d.aggregate.revisionCount == |d.revisions|
    && d.aggregate.pageCount == SumPages(d.revisions) && d.aggregate.pagesSucceeded == SumSucceeded(d.revisions)
    && d.aggregate.pagesSucceeded <= d.aggregate.pageCount
    && (var root, tip := d.revisions[0], d.revisions[|d.revisions| - 1];
       && root.ordinal == 0 && root.mode == d.rootMode && root.base == d.rootBase && root.parent.None?
       && (root.mode == Bounded <==> root.base.None?)
       && tip.checkpoint.publicId == d.tipId && tip.checkpoint.resumeState == d.currentState &&
          tip.continuation == d.nextPage)
    && (forall i :: 0 <= i < |d.revisions| ==> Linked(d, i))
  }

  /** A chain of one revision: a bounded or incremental root. */
  function Start(r: Revision): Option<Document> {
    if ValidRevision(r) && r.ordinal == 0 && r.mode != Resume && r.parent.None? && (r.mode == Bounded <==> r.base.None?)
    then Some(Document(r.checkpoint.publicId, r.checkpoint.provider, r.checkpoint.streamKey,
                       r.checkpoint.contractVersion,
                       r.mode, r.base, r.checkpoint.resumeState, r.continuation,
                       Aggregate(1, r.pageCount, r.pagesSucceeded), [r]))
    else None
  }

  /** One resume revision on top of the current tip. */
  function Append(d: Document, r: Revision): Option<Document>
    requires d.revisions != []
  {
    var tip := d.revisions[|d.revisions| - 1].checkpoint;
    if ValidRevision(r) && r.ordinal == |d.revisions| && r.mode == Resume &&
       r.parent == Some(tip.publicId) && r.base == Some(tip.sourceSync) &&
       r.checkpoint.provider == d.provider && r.checkpoint.streamKey == d.streamKey &&
       r.checkpoint.contractVersion == d.contractVersion
    then Some(d.(tipId := r.checkpoint.publicId, currentState := r.checkpoint.resumeState, nextPage := r.continuation,
                 aggregate := Aggregate(d.aggregate.revisionCount + 1, d.aggregate.pageCount + r.pageCount,
                                        d.aggregate.pagesSucceeded + r.pagesSucceeded),
                 revisions := d.revisions + [r]))
    else None
  }

  /** The chain obtained by starting from the first revision and appending the others in turn. */
  function Build(rs: seq<Revision>): (d: Option<Document>)
    requires rs != []
    ensures d.Some? ==> d.value.revisions == rs
  {
    if |rs| == 1 then Start(rs[0])
    else match Build(rs[..|rs| - 1])
      case None => None
      case Some(d) => assert rs == rs[..|rs| - 1] + [rs[|rs| - 1]]; Append(d, rs[|rs| - 1])
  }

  /** The same document with its last revision taken off. */
  function Shorter(d: Document): Document
    requires |d.revisions| > 1
  {
    var n := |d.revisions| - 1;
    var tip, last := d.revisions[n - 1], d.revisions[n];
    d.(tipId := tip.checkpoint.publicId, currentState := tip.checkpoint.resumeState, nextPage := tip.continuation,
       aggregate := Aggregate(d.aggregate.revisionCount - 1, d.aggregate.pageCount - last.pageCount,
                              d.aggregate.pagesSucceeded - last.pagesSucceeded),
       revisions := d.revisions[..n])
  }

  lemma {:induction false} SumsOrdered(rs: seq<Revision>)
    requires forall i :: 0 <= i < |rs| ==> ValidRevision(rs[i])
    ensures 0 <= SumSucceeded(rs) <= SumPages(rs)
  {
    if rs != [] { SumsOrdered(rs[..|rs| - 1]); }
  }

  /** Removing the last revision of a valid chain leaves a valid chain, to which
      it can be appended again. */
  lemma ShorterIsValid(d: Document)
    requires ValidChain(d) && |d.revisions| > 1
    ensures ValidChain(Shorter(d)) && Append(Shorter(d), d.revisions[|d.revisions| - 1]) == Some(d)
  {
    var n, s := |d.revisions| - 1, Shorter(d);
    SumsOrdered(s.revisions);
    forall i | 0 <= i < n ensures Linked(s, i) { assert Linked(d, i); }
    assert Linked(d, n);
    assert d.revisions == s.revisions + [d.revisions[n]];
  }

  /** Appending to a valid chain gives a valid chain, while there is room. */
  lemma AppendIsValid(d: Document, r: Revision)
    requires ValidChain(d) && Append(d, r).Some?
    ensures ValidChain(Append(d, r).value)
    ensures Append(d, r).value.aggregate.pageCount == d.aggregate.pageCount + r.pageCount
    ensures Append(d, r).value.aggregate.pagesSucceeded == d.aggregate.pagesSucceeded + r.pagesSucceeded
    ensures Append(d, r).value.aggregate.revisionCount == d.aggregate.revisionCount + 1
  {
    var e := Append(d, r).value;
    assert e.revisions[..|d.revisions|] == d.revisions;
    forall i | 0 <= i < |e.revisions| ensures Linked(e, i) {
      if i < |d.revisions| { assert Linked(d, i); }
    }
  }

  /** The validator accepts a document if and only if it is the chain built
      inductively from its own revisions. */
  lemma {:induction false} ValidIffBuilt(d: Document)
    ensures ValidChain(d) <==> d.revisions != [] && Build(d.revisions) == Some(d)
    decreases |d.revisions|
  {
    var rs := d.revisions;
    if |rs| == 1 {
      RootOnly(d);
    } else if |rs| > 1 {
      var n := |rs| - 1;
      if ValidChain(d) {
        ShorterIsValid(d);
        ValidIffBuilt(Shorter(d));
      }
      if Build(rs) == Some(d) {
        var front := Build(rs[..n]).value;
        ValidIffBuilt(front);
        AppendIsValid(front, rs[n]);
      }
    }
  }

  lemma RootOnly(d: Document)
    requires |d.revisions| == 1
    ensures ValidChain(d) <==> Start(d.revisions[0]) == Some(d)
  {
    var r := d.revisions[0];
    assert d.revisions == [r] && d.revisions[..0] == [];
    assert SumPages(d.revisions) == r.pageCount && SumSucceeded(d.revisions) == r.pagesSucceeded;
    assert ValidChain(d) || Start(r) == Some(d) ==> Linked(d, 0);
  }

  /** Every non-empty prefix of a valid chain's revisions is itself the revisions
      of a valid chain. */
  lemma {:induction false} PrefixesAreChains(d: Document, k: nat)
    requires ValidChain(d) && 1 <= k <= |d.revisions|
    ensures Build(d.revisions[..k]).Some? && ValidChain(Build(d.revisions[..k]).value)
    decreases |d.revisions|
  {
    var n := |d.revisions|;
    if k == n {
      ValidIffBuilt(d);
      assert d.revisions[..k] == d.revisions;
    } else {
      ShorterIsValid(d);
      PrefixesAreChains(Shorter(d), k);
      assert Shorter(d).revisions[..k] == d.revisions[..k];
    }
  }

  /** The tip decides: a next page is named exactly while the chain is ready, the
      root alone is not a resume, and every revision is rooted in the one before. */
  lemma TipDecides(d: Document, i: nat)
    requires ValidChain(d) && i < |d.revisions|
    ensures var tip, r := d.revisions[|d.revisions| - 1], d.revisions[i];
            && d.currentState == tip.checkpoint.resumeState && d.tipId == tip.checkpoint.publicId
            && d.nextPage == tip.continuation && (d.nextPage.Some? <==> d.currentState == Ready)
            && (d.nextPage.Some? ==> d.nextPage.value >= 1)
            && r.ordinal == i && (r.mode == Resume <==> i > 0) && (r.parent.Some? <==> i > 0)
            && (i > 0 ==> r.parent == Some(d.revisions[i - 1].checkpoint.publicId) &&
                          r.base == Some(d.revisions[i - 1].checkpoint.sourceSync))
            && (i == 0 ==> (r.base.None? <==> r.mode == Bounded))
            && r.checkpoint.provider == d.provider && r.checkpoint.streamKey == d.streamKey
            && r.checkpoint.contractVersion == d.contractVersion
            && 0 <= r.pagesSucceeded <= r.pageCount && r.manifestId == "smf_" + r.manifestHash
            && (r.continuation.Some? <==> r.checkpoint.resumeState == Ready)
    ensures |d.revisions| <= 100
  {
    assert Linked(d, i);
  }

  /** A revision is in order exactly when it is one of the first hundred, its counts
      fit, its manifest is named by its hash, and it names a next page while ready. */
  lemma RevisionIsExact(r: Revision)
    ensures ValidRevision(r) <==>
              && 0 <= r.ordinal <= 99 && 0 <= r.pagesSucceeded <= r.pageCount
              && r.manifestId == "smf_" + r.manifestHash
              && match r.checkpoint.resumeState
                 case Ready => r.continuation.Some? && r.continuation.value >= 1
                 case Complete => r.continuation.None?
                 case Blocked => r.continuation.None?
  {
  }
}
