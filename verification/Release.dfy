/** Release identities and the version order that authorises deployments.
    A tag is `vX.Y.Z` (section 2 of Semantic Versioning 2.0.0, without
    pre-release or build parts); tags compare by section 11 on the triple. */
module Release {
  import opened Text

  datatype Version = Version(major: nat, minor: nat, patch: nat)

  datatype Identity = Identity(tag: string, sourceCommit: string, manifestSha256: string)

  /** The three groups matched by the tag pattern, as integers. */
  function ReleaseVersion(tag: string): Option<Version> {
    if tag == "" || tag[0] != 'v' then None
    else match Cut(tag[1..], '.')
      case None => None
      case Some((major, rest)) =>
        match Cut(rest, '.')
        case None => None
        case Some((minor, patch)) =>
          if IsNumeral(major) && IsNumeral(minor) && IsNumeral(patch)
          then Some(Version(Value(major), Value(minor), Value(patch)))
          else None
  }

  function TagOf(v: Version): string {
    "v" + Decimal(v.major) + "." + Decimal(v.minor) + "." + Decimal(v.patch)
  }

  predicate ValidTag(tag: string) { ReleaseVersion(tag).Some? }

  /** Canonical tags and version triples are in bijection: parsing what was printed ... */
  lemma VersionOfTag(v: Version)
    ensures ReleaseVersion(TagOf(v)) == Some(v)
  {
    hide Value, Decimal, Cut;
    var a, b, c := Decimal(v.major), Decimal(v.minor), Decimal(v.patch);
    DecimalRoundTrip(v.major);
    DecimalRoundTrip(v.minor);
    DecimalRoundTrip(v.patch);
    DigitsHaveNo(a, '.');
    DigitsHaveNo(b, '.');
    var rest := b + ['.'] + c;
    assert TagOf(v)[1..] == a + ['.'] + rest;
    CutJoined(a, rest, '.');
    CutJoined(b, c, '.');
  }

  /** ... and printing what was parsed. */
  lemma TagOfVersion(tag: string)
    requires ValidTag(tag)
    ensures TagOf(ReleaseVersion(tag).value) == tag
  {
    hide Value, Decimal, Cut;
    var (major, rest) := Cut(tag[1..], '.').value;
    var (minor, patch) := Cut(rest, '.').value;
    NumeralRoundTrip(major);
    NumeralRoundTrip(minor);
    NumeralRoundTrip(patch);
    assert tag == "v" + tag[1..];
    assert "v" + (major + ['.'] + (minor + ['.'] + patch)) == "v" + major + "." + minor + "." + patch;
  }

  /** Version precedence: strictly newer. */
  predicate Newer(v: Version, w: Version) {
    v.major > w.major ||
    (v.major == w.major && (v.minor > w.minor || (v.minor == w.minor && v.patch > w.patch)))
  }

  /** A larger major is newer whatever follows; then the minor decides; then the patch. */
  lemma NewerByFirstDifference(v: Version, w: Version)
    ensures v.major > w.major ==> Newer(v, w)
    ensures v.major == w.major && v.minor > w.minor ==> Newer(v, w)
    ensures v.major == w.major && v.minor == w.minor && v.patch > w.patch ==> Newer(v, w)
  {
  }

  /** Precedence is a strict total order. */
  lemma NewerIsStrictTotalOrder(u: Version, v: Version, w: Version)
    ensures !(Newer(v, w) && Newer(w, v))
    ensures Newer(u, v) && Newer(v, w) ==> Newer(u, w)
    ensures v != w ==> Newer(v, w) || Newer(w, v)
  {
  }

  /** The triple read as one number in a base above all its parts. */
  function Rank(v: Version, base: nat): nat { (v.major * base + v.minor) * base + v.patch }

  lemma LessTimes(a: nat, b: nat, base: nat)
    requires a < b
    ensures a * base + base <= b * base
  {
    assert (b - a - 1) * base >= 0;
    assert b * base == a * base + base + (b - a - 1) * base;
  }

  lemma RankGrows(v: Version, w: Version, base: nat)
    requires w.minor < base && w.patch < base && Newer(v, w)
    ensures Rank(v, base) > Rank(w, base)
  {
    var a, b := v.major * base + v.minor, w.major * base + w.minor;
    if v.major > w.major { LessTimes(w.major, v.major, base); }
    if a > b { LessTimes(b, a, base); }
  }

  /** Newer means numerically larger, in any base above the minor and the patch. */
  lemma NewerIsNumeric(v: Version, w: Version, base: nat)
    requires v.minor < base && v.patch < base && w.minor < base && w.patch < base
    ensures Newer(v, w) <==> Rank(v, base) > Rank(w, base)
  {
    if Newer(v, w) {
      RankGrows(v, w, base);
    } else if v != w {
      RankGrows(w, v, base);
    }
  }

  predicate ValidIdentity(id: Identity) {
    ValidTag(id.tag) && IsLowerHex(id.sourceCommit, 40) && IsLowerHex(id.manifestSha256, 64)
  }

  predicate ValidOptional(id: Option<Identity>) { id.Some? ==> ValidIdentity(id.value) }

  function VersionOf(id: Identity): Version
    requires ValidIdentity(id)
  {
    ReleaseVersion(id.tag).value
  }

  /** An identity is the tag of some version triple with two digests in lower-case
      hex: a commit of forty digits and a manifest of sixty-four. */
  lemma IdentityIsExact(id: Identity)
    ensures ValidIdentity(id) <==>
              && (exists v :: id.tag == TagOf(v))
              && |id.sourceCommit| == 40 && (forall k :: 0 <= k < 40 ==> id.sourceCommit[k] in "0123456789abcdef")
              && |id.manifestSha256| == 64 && (forall k :: 0 <= k < 64 ==> id.manifestSha256[k] in "0123456789abcdef")
  {
    hide ReleaseVersion, TagOf;
    if ValidTag(id.tag) { TagOfVersion(id.tag); }
    if v :| id.tag == TagOf(v) { VersionOfTag(v); }
    forall c ensures IsLowerHexChar(c) <==> c in "0123456789abcdef" { CharactersAreExact(c); }
  }
}
