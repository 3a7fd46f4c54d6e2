/** A state in which the ledger has no free sequence number left: the exception
    in `ResumeSettles` is real. */
module FullLedger {
  import opened Text
  import opened Release
  import opened DeploymentState
  import opened DeploymentSafety
  import opened RolloutDriver
  import opened RolloutHistory
  import opened RolloutOutcomes

  function SampleRelease(): Identity {
    Identity(TagOf(Version(0, 0, 0)), seq(40, _ => '0'), seq(64, _ => '0'))
  }

  lemma SampleReleaseIsValid()
    ensures ValidIdentity(SampleRelease())
  {
    hide ReleaseVersion, TagOf;
    VersionOfTag(Version(0, 0, 0));
  }

  lemma IdsFit(n: nat)
    requires n <= MAX_LEDGER_EVENTS + 1
    ensures n < Pow10(32)
  {
    assert Pow10(6) == 1_000_000;
    var k := 6;
    while k < 32
      invariant 6 <= k <= 32 && Pow10(k) >= Pow10(6)
    {
      k := k + 1;
    }
  }

  function SampleId(n: nat): string
    requires n <= MAX_LEDGER_EVENTS + 1
  {
    IdsFit(n);
    Padded(n, 32)
  }

  lemma SampleIdsDiffer(m: nat, n: nat)
    requires m < n <= MAX_LEDGER_EVENTS + 1
    ensures SampleId(m) != SampleId(n)
  {
    hide Padded, Pow10, Value;
    IdsFit(m);
    IdsFit(n);
    PaddedValue(m, 32);
    PaddedValue(n, 32);
  }

  function SampleEvent(h: Hasher, n: nat, prior: Option<Event>): Event
    requires n <= MAX_LEDGER_EVENTS
  {
    Event(n, Deployment, SampleId(n), 0, if prior.None? then None else Some(SampleRelease()), SampleRelease(), None,
          if prior.None? then None else Some(Sha(h, prior.value)))
  }

  lemma SampleEventIsValid(h: Hasher, n: nat, prior: Option<Event>)
    requires 1 <= n <= MAX_LEDGER_EVENTS
    ensures ValidEvent(SampleEvent(h, n, prior))
  {
    hide ReleaseVersion, Padded, Pow10, SampleRelease;
    SampleReleaseIsValid();
    IdsFit(n);
  }

  /** A ledger of `n` redeployments of one release. */
  function SampleLedger(h: Hasher, n: nat): (l: seq<Event>)
    requires n <= MAX_LEDGER_EVENTS
    ensures |l| == n && forall i :: 0 <= i < n ==> l[i].attemptId == SampleId(i + 1) && l[i].release == SampleRelease()
    ensures forall i :: 0 <= i < n ==> l[i].previousRelease.None?
  {
    if n == 0 then [] else SampleLedger(h, n - 1) + [SampleEvent(h, n, Head(SampleLedger(h, n - 1)))]
  }

  lemma {:induction false} SampleLedgerIsValid(h: Hasher, n: nat)
    requires n <= MAX_LEDGER_EVENTS
    ensures ValidLedger(h, SampleLedger(h, n))
  {
    hide ValidEvent, SampleId, SampleRelease, Newer, VersionOf;
    if n > 0 {
      var l := SampleLedger(h, n - 1);
      SampleLedgerIsValid(h, n - 1);
      var e := SampleEvent(h, n, Head(l));
      SampleEventIsValid(h, n, Head(l));
      assert ChainOk(h, e, Head(l));
      AppendKeepsChain(h, l, e);
    }
  }

  /** The hundred-thousandth event is committed and one more redeployment is journaled. */
  function FullState(h: Hasher): Disk {
    var l := SampleLedger(h, MAX_LEDGER_EVENTS);
    Disk(Some(ReceiptFromEvent(h, l[MAX_LEDGER_EVENTS - 1])),
         Some(Attempt(Some(Prepared), Deployment, SampleId(MAX_LEDGER_EVENTS + 1), 0, Some(SampleRelease()),
                      SampleRelease())),
         l)
  }

  lemma FullStateIsOpen(h: Hasher)
    ensures Open(h, FullState(h)) && |FullState(h).ledger| == MAX_LEDGER_EVENTS
  {
    hide SampleLedger, SampleRelease, SampleId, ReleaseVersion, Newer;
    var d := FullState(h);
    SampleLedgerIsValid(h, MAX_LEDGER_EVENTS);
    SampleReleaseIsValid();
    forall m: nat, n: nat | m < n <= MAX_LEDGER_EVENTS + 1 ensures SampleId(m) != SampleId(n) {
      SampleIdsDiffer(m, n);
    }
    assert ValidAttemptId(SampleId(MAX_LEDGER_EVENTS + 1)) by { SampleIdIsValid(MAX_LEDGER_EVENTS + 1); }
    assert DistinctAttempts(d.ledger);
    assert Fresh(d, d.pending.value.attemptId);
    assert Accepted(h, d);
  }

  lemma SampleIdIsValid(n: nat)
    requires n <= MAX_LEDGER_EVENTS + 1
    ensures ValidAttemptId(SampleId(n))
  {
    hide Padded, Pow10;
    IdsFit(n);
  }

  /** From this state no run of invocations, crashed or not, ever ends the attempt. */
  lemma FullStateNeverClears(h: Hasher, run: seq<Session>, n: nat)
    requires FreshIds(h, FullState(h), run) && n <= |History(h, FullState(h), run)|
    ensures var d := After(FullState(h), History(h, FullState(h), run)[..n]);
            d.pending.Some? && d.ledger == FullState(h).ledger
  {
    hide SampleLedger, History, After, SampleRelease, Accepted, Authorized, FreshIds;
    FullStateIsOpen(h);
    FullLedgerNeverClears(h, FullState(h), run, n);
  }

  /** In this state the exact resume of the journaled attempt, with everything
      passing, leaves the journal in place. */
  lemma FullLedgerBlocks(h: Hasher, v: Invocation)
    requires AllPass(v) && v.resume && v.identity == SampleRelease() && !v.rollback
    ensures Good(h, FullState(h)) && After(FullState(h), Effects(h, FullState(h), v)).pending.Some?
  {
    hide SampleLedger, Effects, After, SampleRelease, Accepted, Authorized;
    FullStateIsOpen(h);
    ResumeSettles(h, FullState(h), v);
  }
}
