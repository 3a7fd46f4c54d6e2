/** Strings as the system writes them: decimal numerals, hexadecimal digests and
    the lower-casing applied to both. Numerals stay concrete because version
    tags, ledger file names, observation keys, cursors and workchains all rely
    on a numeral and its value determining each other. */
module Text {

  datatype Option<+T> = None | Some(value: T)

  predicate IsDigit(c: char) { '0' <= c <= '9' }

  predicate AllDigits(s: string) { forall i :: 0 <= i < |s| ==> IsDigit(s[i]) }

  function DigitValue(c: char): nat
    requires IsDigit(c)
  {
    c as int - '0' as int
  }

  function DigitChar(d: nat): (c: char)
    requires d < 10
    ensures IsDigit(c) && DigitValue(c) == d
  {
    ('0' as int + d) as char
  }

  /** The value of a digit string, leading zeros allowed. */
  function Value(s: string): nat
    requires AllDigits(s)
  {
    if s == "" then 0 else Value(s[..|s| - 1]) * 10 + DigitValue(s[|s| - 1])
  }

  /** Canonical decimal numeral: `0` or a numeral without a leading zero. */
  predicate IsNumeral(s: string) { AllDigits(s) && |s| > 0 && (|s| == 1 || s[0] != '0') }

  /** `str(n)` for a non-negative integer. */
  function Decimal(n: nat): string {
    if n < 10 then [DigitChar(n)] else Decimal(n / 10) + [DigitChar(n % 10)]
  }

  lemma {:induction false} DecimalRoundTrip(n: nat)
    ensures IsNumeral(Decimal(n)) && Value(Decimal(n)) == n
    ensures Decimal(n)[0] == '0' <==> n == 0
  {
    if n < 10 {
      assert Decimal(n)[..0] == "";
    } else {
      DecimalRoundTrip(n / 10);
      assert Decimal(n)[..|Decimal(n)| - 1] == Decimal(n / 10);
    }
  }

  lemma {:induction false} NumeralRoundTrip(s: string)
    requires IsNumeral(s)
    ensures Decimal(Value(s)) == s
    ensures Value(s) == 0 <==> s[0] == '0'
  {
    var front, last := s[..|s| - 1], s[|s| - 1];
    assert s == front + [last];
    if |s| == 1 {
      assert front == "";
    } else {
      NumeralRoundTrip(front);
      assert Value(s) == Value(front) * 10 + DigitValue(last);
    }
  }

  /** Fixed-width numerals: the value fixes the string. */
  lemma {:induction false} SameWidthSameValue(s: string, t: string)
    requires AllDigits(s) && AllDigits(t) && |s| == |t| && Value(s) == Value(t)
    ensures s == t
  {
    if s != "" {
      SameWidthSameValue(s[..|s| - 1], t[..|t| - 1]);
      assert s == s[..|s| - 1] + [s[|s| - 1]] && t == t[..|t| - 1] + [t[|t| - 1]];
    }
  }

  function Pow10(k: nat): (p: nat)
    ensures p > 0
  {
    if k == 0 then 1 else 10 * Pow10(k - 1)
  }

  lemma {:induction false} ValueBound(s: string)
    requires AllDigits(s)
    ensures Value(s) < Pow10(|s|)
  {
    if s != "" { ValueBound(s[..|s| - 1]); }
  }

  lemma {:induction false} NumeralLowerBound(s: string)
    requires IsNumeral(s) && |s| > 1
    ensures Value(s) >= Pow10(|s| - 1)
  {
    var front := s[..|s| - 1];
    if |s| == 2 {
      assert front[..0] == "" && Value(front) >= 1;
    } else {
      NumeralLowerBound(front);
    }
  }

  /** `f"{n:0{width}d}"` for a number that fits the width. */
  function Padded(n: nat, width: nat): (s: string)
    requires n < Pow10(width)
    ensures |s| == width && AllDigits(s)
  {
    if width == 0 then "" else Padded(n / 10, width - 1) + [DigitChar(n % 10)]
  }

  lemma {:induction false} PaddedValue(n: nat, width: nat)
    requires n < Pow10(width)
    ensures Value(Padded(n, width)) == n
  {
    if width > 0 {
      PaddedValue(n / 10, width - 1);
      assert Padded(n, width)[..width - 1] == Padded(n / 10, width - 1);
    }
  }

  /** Lexicographic order on strings, as `sorted` uses it on file names. */
  predicate Before(s: string, t: string) {
    if s == "" then t != ""
    else t != "" && (s[0] < t[0] || (s[0] == t[0] && Before(s[1..], t[1..])))
  }

  lemma {:induction false} BeforeAtFirstDifference(s: string, t: string, k: nat)
    requires k < |s| && k < |t| && s[..k] == t[..k] && s[k] < t[k]
    ensures Before(s, t)
  {
    if k > 0 {
      assert s[0] == s[..k][0] && t[0] == t[..k][0];
      assert s[1..][..k - 1] == s[..k][1..] && t[1..][..k - 1] == t[..k][1..];
      BeforeAtFirstDifference(s[1..], t[1..], k - 1);
    }
  }

  lemma {:induction false} BeforeIsStrict(s: string, t: string)
    requires Before(s, t)
    ensures s != t && !Before(t, s)
  {
    if s != "" && s[0] == t[0] { BeforeIsStrict(s[1..], t[1..]); }
  }

  lemma {:induction false} BeforeIsTransitive(s: string, t: string, u: string)
    requires Before(s, t) && Before(t, u)
    ensures Before(s, u)
  {
    if s != "" && s[0] == t[0] && t[0] == u[0] { BeforeIsTransitive(s[1..], t[1..], u[1..]); }
  }

  lemma {:induction false} BeforeIsTotal(s: string, t: string)
    ensures s == t || Before(s, t) || Before(t, s)
  {
    if s != "" && t != "" && s[0] == t[0] {
      BeforeIsTotal(s[1..], t[1..]);
      assert s == [s[0]] + s[1..] && t == [t[0]] + t[1..];
    }
  }

  /** Numerically smaller fixed-width numerals sort first, whatever follows them. */
  lemma {:induction false} PaddedOrder(m: nat, n: nat, width: nat, a: string, b: string)
    requires m < n < Pow10(width)
    ensures Before(Padded(m, width) + a, Padded(n, width) + b)
  {
    var s, t := Padded(m, width), Padded(n, width);
    if m / 10 < n / 10 {
      PaddedOrder(m / 10, n / 10, width - 1, [DigitChar(m % 10)] + a, [DigitChar(n % 10)] + b);
      assert s + a == Padded(m / 10, width - 1) + ([DigitChar(m % 10)] + a);
      assert t + b == Padded(n / 10, width - 1) + ([DigitChar(n % 10)] + b);
    } else {
      assert m / 10 == n / 10;
      assert (s + a)[..width - 1] == Padded(m / 10, width - 1) == (t + b)[..width - 1];
      BeforeAtFirstDifference(s + a, t + b, width - 1);
    }
  }

  predicate IsLowerHexChar(c: char) { IsDigit(c) || 'a' <= c <= 'f' }

  predicate IsHexChar(c: char) { IsLowerHexChar(c) || 'A' <= c <= 'F' }

  /** The characters, one by one. */
  lemma CharactersAreExact(c: char)
    ensures IsDigit(c) <==> c in "0123456789"
    ensures IsLowerHexChar(c) <==> c in "0123456789abcdef"
    ensures IsHexChar(c) <==> c in "0123456789abcdefABCDEF"
  {
  }

  /** `[0-9a-f]{n}` */
  predicate IsLowerHex(s: string, n: nat) { |s| == n && forall i :: 0 <= i < |s| ==> IsLowerHexChar(s[i]) }

  /** `[0-9a-fA-F]{n}` */
  predicate IsHex(s: string, n: nat) { |s| == n && forall i :: 0 <= i < |s| ==> IsHexChar(s[i]) }

  function LowerChar(c: char): char {
    if 'A' <= c <= 'Z' then (c as int + 32) as char else c
  }

  /** `s.lower()` on ASCII text. */
  function Lower(s: string): (r: string)
    ensures |r| == |s| && forall i :: 0 <= i < |s| ==> r[i] == LowerChar(s[i])
  {
    seq(|s|, i requires 0 <= i < |s| => LowerChar(s[i]))
  }

  lemma LowerOfHex(s: string, n: nat)
    requires IsHex(s, n)
    ensures IsLowerHex(Lower(s), n)
    ensures Lower(s) == s <==> IsLowerHex(s, n)
  {
    if IsLowerHex(s, n) { assert forall i :: 0 <= i < |s| ==> Lower(s)[i] == s[i]; }
  }

  /** The separator splits a string at its first occurrence in one way only. */
  lemma {:induction false} SplitUnique(a: string, x: string, b: string, y: string, sep: char)
    requires sep !in a && sep !in b && a + [sep] + x == b + [sep] + y
    ensures a == b && x == y
  {
    var u, v := a + [sep] + x, b + [sep] + y;
    assert u[|a|] == sep && v[|b|] == sep;
    assert a == u[..|a|] && b == v[..|b|] && x == u[|a| + 1..] && y == v[|b| + 1..];
  }

  /** Cut a string at its first `c`. */
  function Cut(s: string, c: char): (r: Option<(string, string)>)
    ensures r.Some? ==> c !in r.value.0 && s == r.value.0 + [c] + r.value.1
    ensures r.None? ==> c !in s
  {
    if s == "" then None
    else if s[0] == c then Some(("", s[1..]))
    else match Cut(s[1..], c)
      case None => None
      case Some((a, x)) => Some(([s[0]] + a, x))
  }

  lemma CutJoined(a: string, x: string, c: char)
    requires c !in a
    ensures Cut(a + [c] + x, c) == Some((a, x))
  {
    hide Cut;
    var s := a + [c] + x;
    assert s[|a|] == c;
    var r := Cut(s, c).value;
    SplitUnique(r.0, r.1, a, x, c);
  }

  lemma DigitsHaveNo(s: string, c: char)
    requires AllDigits(s) && !IsDigit(c)
    ensures c !in s
  {
  }
}
