/** Scalars of an untrusted provider response and the strict readings of them. */
module ProviderValues {
  import opened Text
  import AccountAddress

  const MAX_LOGICAL_TIME := 0xFFFF_FFFF_FFFF_FFFF
  const MAX_SIGNED_64 := 0x7FFF_FFFF_FFFF_FFFF

  /** One field of a JSON object; `Compound` stands for a list or an object. */
  datatype Scalar = Missing | Null | Boolean(b: bool) | Integer(n: int) | Str(s: string) | Compound

  /** A field that should hold a list. */
  datatype RawList<T> = Absent | NotAList | Items(items: seq<T>)

  /** What `str.strip` takes for white space. */
  predicate IsSpace(c: char) {
    var n := c as int;
    || 0x9 <= n <= 0xD || 0x1C <= n <= 0x20 || n == 0x85 || n == 0xA0 || n == 0x1680 || 0x2000 <= n <= 0x200A
    || n == 0x2028 || n == 0x2029 || n == 0x202F || n == 0x205F || n == 0x3000
  }

  /** An account field: absent or null, not an object, or an object with an address. */
  datatype RawAccount = NoAccount | NotAnAccount | Account(address: Scalar)

  /** A canonical decimal in the uint64 range, without zero. */
  predicate IsLogicalTime(s: string) { IsNumeral(s) && 1 <= Value(s) <= MAX_LOGICAL_TIME }

  function StrictLogicalTime(v: Scalar): (r: Option<string>)
    ensures r.Some? ==> IsLogicalTime(r.value)
    ensures r.Some? ==> (v.Str? && r.value == v.s) || (v.Integer? && Value(r.value) == v.n)
  {
    match v
    case Integer(n) =>
      if 1 <= n <= MAX_LOGICAL_TIME then DecimalRoundTrip(n); Some(Decimal(n)) else None
    case Str(s) =>
      if IsNumeral(s) && s[0] != '0' && |s| <= 20 && Value(s) <= MAX_LOGICAL_TIME
      then NumeralRoundTrip(s); Some(s) else None
    case _ => None
  }

  function StrictNonnegative(v: Scalar): (r: Option<string>)
    ensures r.Some? ==> IsNumeral(r.value) && Value(r.value) <= MAX_LOGICAL_TIME
    ensures r.Some? ==> (v.Str? && r.value == v.s) || (v.Integer? && Value(r.value) == v.n)
  {
    match v
    case Integer(n) => if 0 <= n <= MAX_LOGICAL_TIME then DecimalRoundTrip(n); Some(Decimal(n)) else None
    case Str(s) =>
      if s == "0" then Some(s)
      else if IsNumeral(s) && s[0] != '0' && |s| <= 20 && Value(s) <= MAX_LOGICAL_TIME then Some(s) else None
    case _ => None
  }

  /** Reading what was printed: a cursor survives a round trip as an integer or as text. */
  lemma LogicalTimeRoundTrip(n: nat)
    requires 1 <= n <= MAX_LOGICAL_TIME
    ensures StrictLogicalTime(Integer(n)) == Some(Decimal(n)) == StrictLogicalTime(Str(Decimal(n)))
    ensures IsLogicalTime(Decimal(n)) && Value(Decimal(n)) == n
  {
    hide Value, Decimal;
    DecimalRoundTrip(n);
    Uint64NumeralIsShort(Decimal(n));
  }

  /** As text, exactly the canonical decimals of the uint64 range are accepted. */
  lemma StrictTextIsExact(s: string)
    ensures StrictLogicalTime(Str(s)).Some? <==> IsLogicalTime(s)
    ensures StrictNonnegative(Str(s)).Some? <==> s == "0" || IsLogicalTime(s)
  {
    hide Decimal;
    if IsLogicalTime(s) {
      Uint64NumeralIsShort(s);
      NumeralRoundTrip(s);
    } else if IsNumeral(s) {
      NumeralRoundTrip(s);
    }
  }

  /** As a number, exactly those of the uint64 range are accepted. */
  lemma StrictNumberIsExact(n: int)
    ensures StrictLogicalTime(Integer(n)).Some? <==> 1 <= n <= 18_446_744_073_709_551_615
    ensures StrictNonnegative(Integer(n)).Some? <==> 0 <= n <= 18_446_744_073_709_551_615
    ensures StrictNonnegative(Integer(n)).Some? ==> StrictNonnegative(Integer(n)) == Some(Decimal(n))
  {
    hide Decimal, Value;
  }

  /** White space, character by character. */
  lemma SpaceIsExact(c: char)
    ensures IsSpace(c) <==>
              c as int in {9, 10, 11, 12, 13, 28, 29, 30, 31, 32, 133, 160, 5760, 8192, 8193, 8194, 8195, 8196, 8197,
                           8198, 8199, 8200, 8201, 8202, 8232, 8233, 8239, 8287, 12288}
  {
  }

  /** An account is read from the address of an object, as the canonical address. */
  lemma AccountIsExact(a: RawAccount, t: string)
    ensures CanonicalAccount(a) == Some(t) <==>
              exists s :: a == Account(Str(s)) && AccountAddress.Canonical(s) == Some(t)
  {
    hide AccountAddress.Canonical;
    if a.Account? && a.address.Str? { assert a == Account(Str(a.address.s)); }
  }

  /** A hash is sixty-four hex digits, kept in lower case. */
  lemma HashIsExact(v: Scalar, t: string)
    ensures CanonicalHash(v) == Some(t) <==>
              && v.Str? && |v.s| == 64 && (forall k :: 0 <= k < 64 ==> v.s[k] in "0123456789abcdefABCDEF")
              && t == Lower(v.s)
  {
    if v.Str? {
      forall k | 0 <= k < |v.s| ensures IsHexChar(v.s[k]) <==> v.s[k] in "0123456789abcdefABCDEF" {
        CharactersAreExact(v.s[k]);
      }
    }
  }

  /** Bounding a numeral to twenty digits loses no uint64 value. */
  lemma Uint64NumeralIsShort(s: string)
    requires IsNumeral(s) && Value(s) <= MAX_LOGICAL_TIME
    ensures |s| <= 20
  {
    hide Value;
    assert Pow10(5) == 100_000;
    assert Pow10(10) == 10_000_000_000;
    assert Pow10(15) == 1_000_000_000_000_000;
    assert Pow10(20) == 100_000_000_000_000_000_000;
    if |s| > 20 {
      NumeralLowerBound(s);
      AccountAddress.PowersGrow(20, |s| - 1);
    }
  }

  function CanonicalAccount(a: RawAccount): Option<string> {
    if a.Account? && a.address.Str? then AccountAddress.Canonical(a.address.s) else None
  }

  /** A 32-byte hash in hex, lower-cased. */
  function CanonicalHash(v: Scalar): (r: Option<string>)
    ensures r.Some? ==> IsLowerHex(r.value, 64)
  {
    if v.Str? && IsHex(v.s, 64) then LowerOfHex(v.s, 64); Some(Lower(v.s)) else None
  }
}
