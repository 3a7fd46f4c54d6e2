/** Raw account addresses `workchain:hex`: the backend canonicaliser and the
    frontend check, which accepts exactly its fixed points. */
module AccountAddress {
  import opened Text

  const MIN_WORKCHAIN := -0x8000_0000
  const MAX_WORKCHAIN := 0x7FFF_FFFF

  /** `0|[1-9][0-9]*|-[1-9][0-9]*` */
  predicate IsWorkchain(w: string) {
    IsNumeral(w) || (w != "" && w[0] == '-' && IsNumeral(w[1..]) && w[1] != '0')
  }

  /** `int(w, 10)` */
  function WorkchainValue(w: string): int
    requires IsWorkchain(w)
  {
    if IsNumeral(w) then Value(w) else 0 - Value(w[1..])
  }

  /** `str(n)` */
  function WorkchainText(n: int): string {
    if n >= 0 then Decimal(n) else "-" + Decimal(-n)
  }

  /** The two groups of the address pattern. */
  predicate IsRawAddress(s: string) {
    var c := Cut(s, ':');
    c.Some? && IsWorkchain(c.value.0) && IsHex(c.value.1, 64)
  }

  function Canonical(s: string): Option<string> {
    if !IsRawAddress(s) then None
    else
      var (w, hex) := Cut(s, ':').value;
      if MIN_WORKCHAIN <= WorkchainValue(w) <= MAX_WORKCHAIN
      then Some(WorkchainText(WorkchainValue(w)) + ":" + Lower(hex)) else None
  }

  /** `0|[1-9][0-9]{0,9}|-[1-9][0-9]{0,9}`, the bounded form used by the frontend. */
  predicate IsShortWorkchain(w: string) {
    IsWorkchain(w) && |w| <= if w[0] == '-' then 11 else 10
  }

  /** The frontend's check. */
  predicate IsCanonicalRawTonAddress(s: string) {
    var c := Cut(s, ':');
    c.Some? && IsShortWorkchain(c.value.0) && IsLowerHex(c.value.1, 64) &&
    MIN_WORKCHAIN <= WorkchainValue(c.value.0) <= MAX_WORKCHAIN
  }

  lemma WorkchainRoundTrip(w: string)
    requires IsWorkchain(w)
    ensures WorkchainText(WorkchainValue(w)) == w && ':' !in w
  {
    hide Value, Decimal;
    if IsNumeral(w) {
      NumeralRoundTrip(w);
      DigitsHaveNo(w, ':');
    } else {
      NumeralRoundTrip(w[1..]);
      DigitsHaveNo(w[1..], ':');
      assert w == "-" + w[1..];
    }
  }

  /** An int32 numeral never needs more than ten digits, so bounding the digits loses nothing. */
  lemma Int32NumeralIsShort(w: string)
    requires IsWorkchain(w) && MIN_WORKCHAIN <= WorkchainValue(w) <= MAX_WORKCHAIN
    ensures IsShortWorkchain(w)
  {
    hide Value;
    var digits := if IsNumeral(w) then w else w[1..];
    assert Pow10(5) == 100_000;
    assert Pow10(10) == 10_000_000_000;
    if |digits| > 10 {
      NumeralLowerBound(digits);
      PowersGrow(10, |digits| - 1);
    }
  }

  lemma {:induction false} PowersGrow(m: nat, n: nat)
    requires m <= n
    ensures Pow10(m) <= Pow10(n)
  {
    if m < n { PowersGrow(m, n - 1); }
  }

  lemma CanonicalParts(s: string)
    requires Canonical(s).Some?
    ensures var (w, hex) := Cut(s, ':').value;
            && Canonical(s).value == w + ":" + Lower(hex)
            && Cut(Canonical(s).value, ':') == Some((w, Lower(hex))) && IsLowerHex(Lower(hex), 64)
  {
    hide Cut, Value, Decimal, WorkchainText, WorkchainValue;
    var (w, hex) := Cut(s, ':').value;
    WorkchainRoundTrip(w);
    LowerOfHex(hex, 64);
    CutJoined(w, Lower(hex), ':');
  }

  /** Canonicalising twice is canonicalising once. */
  lemma CanonicalIsIdempotent(s: string)
    requires Canonical(s).Some?
    ensures Canonical(Canonical(s).value) == Canonical(s)
  {
    hide Cut, Value, Decimal, WorkchainText, WorkchainValue, IsWorkchain, Lower;
    var (w, hex) := Cut(s, ':').value;
    CanonicalParts(s);
    LowerOfHex(Lower(hex), 64);
    WorkchainRoundTrip(w);
    assert IsHex(Lower(hex), 64);
  }

  /** The addresses accepted are exactly a decimal int32, a colon and sixty-four hex
      digits; the digits are lower-cased and nothing else changes. */
  lemma CanonicalIsExact(s: string, t: string)
    ensures Canonical(s) == Some(t) <==>
              exists n: int, hex: string ::
                && -2_147_483_648 <= n <= 2_147_483_647 && IsHex(hex, 64)
                && s == WorkchainText(n) + ":" + hex && t == WorkchainText(n) + ":" + Lower(hex)
  {
    hide Cut, Value, Decimal, WorkchainText, WorkchainValue, IsWorkchain, Lower, IsHex;
    if Canonical(s) == Some(t) {
      var (w, hex) := Cut(s, ':').value;
      WorkchainRoundTrip(w);
      var n := WorkchainValue(w);
      assert s == WorkchainText(n) + ":" + hex && t == WorkchainText(n) + ":" + Lower(hex);
    }
    if n: int, hex: string :|
        && -2_147_483_648 <= n <= 2_147_483_647 && IsHex(hex, 64)
        && s == WorkchainText(n) + ":" + hex && t == WorkchainText(n) + ":" + Lower(hex) {
      TextOfWorkchain(n);
      CutJoined(WorkchainText(n), hex, ':');
    }
  }

  lemma TextOfWorkchain(n: int)
    ensures IsWorkchain(WorkchainText(n)) && WorkchainValue(WorkchainText(n)) == n && ':' !in WorkchainText(n)
  {
    hide Value, Decimal;
    var digits := Decimal(if n >= 0 then n else -n);
    DecimalRoundTrip(if n >= 0 then n else -n);
    DigitsHaveNo(digits, ':');
    if n < 0 {
      var w := WorkchainText(n);
      assert w[1..] == digits;
    }
  }

  /** Two addresses merge exactly when their workchains are the same number and
      their account ids the same hex digits, case aside. */
  lemma CanonicalMergesExactly(s: string, t: string)
    requires Canonical(s).Some? && Canonical(t).Some?
    ensures var (w, hex) := Cut(s, ':').value;
            var (x, hex') := Cut(t, ':').value;
            Canonical(s) == Canonical(t) <==> WorkchainValue(w) == WorkchainValue(x) && Lower(hex) == Lower(hex')
  {
    hide Cut, Value, Decimal, WorkchainText, WorkchainValue, IsWorkchain;
    var (w, hex) := Cut(s, ':').value;
    var (x, hex') := Cut(t, ':').value;
    CanonicalParts(s);
    CanonicalParts(t);
    WorkchainRoundTrip(w);
    WorkchainRoundTrip(x);
  }

  /** The frontend accepts a string if and only if the backend leaves it unchanged. */
  lemma FrontendAcceptsFixedPoints(s: string)
    ensures IsCanonicalRawTonAddress(s) <==> Canonical(s) == Some(s)
  {
    hide Cut, Value, Decimal, WorkchainText, WorkchainValue, IsWorkchain, IsShortWorkchain, Lower;
    if IsRawAddress(s) {
      var (w, hex) := Cut(s, ':').value;
      LowerOfHex(hex, 64);
      WorkchainRoundTrip(w);
      assert s == w + ":" + hex;
      if MIN_WORKCHAIN <= WorkchainValue(w) <= MAX_WORKCHAIN {
        Int32NumeralIsShort(w);
        SameTail(w + ":", hex, Lower(hex));
      }
    } else if IsCanonicalRawTonAddress(s) {
      ShortIsWorkchain(Cut(s, ':').value.0);
    }
  }

  lemma ShortIsWorkchain(w: string)
    requires IsShortWorkchain(w)
    ensures IsWorkchain(w)
  {
  }

  lemma SameTail(a: string, x: string, y: string)
    ensures a + x == a + y <==> x == y
  {
    assert (a + x)[|a|..] == x && (a + y)[|a|..] == y;
  }
}
