/** Protocol versions of `acp/version.go`: parsing, printing, order and negotiation. */
module Versions {
  import opened Wrappers
  import opened Decimals

  datatype ProtocolVersion = ProtocolVersion(major: Int64, minor: Int64, patch: Int64)

  /** The dynamic type of the argument of `ParseVersion`. A float carries its value already
      converted by `int(x)`, which Go leaves to the platform outside the integer range. */
  datatype Input = Float64(truncated: Int64) | Integer(n: Int64) | Text(s: string) | OtherType

  /** Reads up to three parts, stopping at the first that is not a number. */
  function ParseSemanticVersion(parts: seq<string>): ProtocolVersion {
    if |parts| == 0 then ProtocolVersion(0, 0, 0)
    else match Atoi(parts[0])
      case None => ProtocolVersion(0, 0, 0)
      case Some(major) =>
        if |parts| <= 1 then ProtocolVersion(major, 0, 0)
        else match Atoi(parts[1])
          case None => ProtocolVersion(major, 0, 0)
          case Some(minor) =>
            if |parts| <= 2 then ProtocolVersion(major, minor, 0)
            else match Atoi(parts[2])
              case None => ProtocolVersion(major, minor, 0)
              case Some(patch) => ProtocolVersion(major, minor, patch)
  }

  function ParseVersion(v: Input): Result<ProtocolVersion, string> {
    match v
    case Float64(n) => Ok(ProtocolVersion(n, 0, 0))
    case Integer(n) => Ok(ProtocolVersion(n, 0, 0))
    case Text(s) =>
      var parts := Split(s);
      if |parts| == 1 then
        match Atoi(parts[0])
        case Some(major) => Ok(ProtocolVersion(major, 0, 0))
        case None => Ok(ProtocolVersion(0, 0, 0))
      else Ok(ParseSemanticVersion(parts))
    case OtherType => Err("invalid version format")
  }

  function ToString(v: ProtocolVersion): string {
    if v.minor == 0 && v.patch == 0 then Itoa(v.major)
    else if v.patch == 0 then Itoa(v.major) + "." + Itoa(v.minor)
    else Itoa(v.major) + "." + Itoa(v.minor) + "." + Itoa(v.patch)
  }

  /** Numbers are majors, whatever their type; nothing but numbers and strings is a version. */
  lemma NumbersAreMajors(n: Int64)
    ensures ParseVersion(Integer(n)) == Ok(ProtocolVersion(n, 0, 0))
    ensures ParseVersion(Float64(n)) == Ok(ProtocolVersion(n, 0, 0))
    ensures ParseVersion(OtherType).Err?
  {
  }

  function OrZero(n: Option<Int64>): Int64 {
    if n.Some? then n.value else 0
  }

  /** Of a string, each of the first three parts between the dots is read as a number, up to the first
      that is none; whatever is not read is zero. */
  lemma StringsAreReadInParts(s: string)
    ensures var parts := Split(s);
            var major := Atoi(parts[0]);
            var minor := if major.Some? && |parts| > 1 then Atoi(parts[1]) else None;
            var patch := if minor.Some? && |parts| > 2 then Atoi(parts[2]) else None;
            ParseVersion(Text(s)) == Ok(ProtocolVersion(OrZero(major), OrZero(minor), OrZero(patch)))
  {
  }

  // ---- Printing and parsing ----

  lemma PartsOfToString(v: ProtocolVersion)
    ensures Split(ToString(v)) == if v.minor == 0 && v.patch == 0 then [Itoa(v.major)]
                                  else if v.patch == 0 then [Itoa(v.major), Itoa(v.minor)]
                                  else [Itoa(v.major), Itoa(v.minor), Itoa(v.patch)]
  {
    AtoiOfItoa(v.major);
    AtoiOfItoa(v.minor);
    AtoiOfItoa(v.patch);
    if v.minor == 0 && v.patch == 0 {
      SplitAtFirstDot(Itoa(v.major), "");
    } else if v.patch == 0 {
      SplitTwo(Itoa(v.major), Itoa(v.minor));
    } else {
      SplitThree(Itoa(v.major), Itoa(v.minor), Itoa(v.patch));
    }
  }

  /** Parsing undoes printing for every triple of machine integers. */
  lemma ParseOfToString(v: ProtocolVersion)
    ensures ParseVersion(Text(ToString(v))) == Ok(v)
  {
    PartsOfToString(v);
    AtoiOfItoa(v.major);
    AtoiOfItoa(v.minor);
    AtoiOfItoa(v.patch);
    var parts := Split(ToString(v));
    assert |parts| > 1 ==> ParseSemanticVersion(parts) == v;
  }

  /** Different versions print differently. */
  lemma ToStringIsInjective(v: ProtocolVersion, w: ProtocolVersion)
    requires ToString(v) == ToString(w)
    ensures v == w
  {
    ParseOfToString(v);
    ParseOfToString(w);
  }

  /** Every string parses, and what it parses to survives printing and parsing again. */
  lemma ParsePrintParse(s: string)
    ensures ParseVersion(Text(s)).Ok?
    ensures ParseVersion(Text(ToString(ParseVersion(Text(s)).value))) == ParseVersion(Text(s))
  {
    ParseOfToString(ParseVersion(Text(s)).value);
  }

  // ---- Order and compatibility ----

  function Compare(v: ProtocolVersion, w: ProtocolVersion): int {
    if v.major < w.major then -1
    else if v.major > w.major then 1
    else if v.minor < w.minor then -1
    else if v.minor > w.minor then 1
    else if v.patch < w.patch then -1
    else if v.patch > w.patch then 1
    else 0
  }

  /** One version is newer if its major is larger, or the majors agree and its minor is, or both agree and
      its patch is. */
  predicate Newer(v: ProtocolVersion, w: ProtocolVersion) {
    || v.major > w.major
    || (v.major == w.major && v.minor > w.minor)
    || (v.major == w.major && v.minor == w.minor && v.patch > w.patch)
  }

  lemma CompareSaysNewer(v: ProtocolVersion, w: ProtocolVersion)
    ensures Compare(v, w) == 1 <==> Newer(v, w)
    ensures Compare(v, w) == -1 <==> Newer(w, v)
    ensures Compare(v, w) in {-1, 0, 1}
  {
  }

  /** A total order whose equivalence is equality. */
  lemma CompareIsTotalOrder(u: ProtocolVersion, v: ProtocolVersion, w: ProtocolVersion)
    ensures Compare(u, v) == -Compare(v, u)
    ensures Compare(u, v) == 0 <==> u == v
    ensures Compare(u, v) >= 0 && Compare(v, w) >= 0 ==> Compare(u, w) >= 0
  {
  }

  /** `None` is the nil pointer. The last two branches of the source are kept: the patch comparison
      is never reached with equal minors. */
  predicate IsCompatible(v: Option<ProtocolVersion>, other: Option<ProtocolVersion>) {
    if v.None? || other.None? then false
    else if v.value.major != other.value.major then false
    else if v.value.minor >= other.value.minor then true
    else if v.value.minor == other.value.minor then v.value.patch >= other.value.patch
    else false
  }

  predicate Serves(supported: ProtocolVersion, requested: ProtocolVersion) {
    supported.major == requested.major && supported.minor >= requested.minor
  }

  /** Compatibility ignores the patch, in both versions, against the comment in the source. */
  lemma CompatibilityIgnoresPatch(v: ProtocolVersion, other: ProtocolVersion)
    ensures IsCompatible(Some(v), Some(other)) <==> Serves(v, other)
  {
  }

  // ---- Negotiation ----

  /** What a negotiation over the versions `supported` must return for a parsed request. */
  predicate Negotiated(supported: set<ProtocolVersion>, requested: ProtocolVersion,
                       r: Result<ProtocolVersion, string>)
  {
    && (r.Ok? <==> exists v <- supported :: Serves(v, requested))
    && (r.Ok? ==> r.value in supported && Serves(r.value, requested))
    && (requested in supported ==> r == Ok(requested))
    && (r.Ok? && requested !in supported ==>
          forall v <- supported | Serves(v, requested) ::
            v.minor < r.value.minor || (v.minor == r.value.minor && v.patch <= r.value.patch))
  }

  /** The requirement determines the version, so the order of the list cannot matter. */
  lemma NegotiationIsDetermined(supported: set<ProtocolVersion>, requested: ProtocolVersion,
                                r: Result<ProtocolVersion, string>, r': Result<ProtocolVersion, string>)
    requires Negotiated(supported, requested, r) && Negotiated(supported, requested, r')
    ensures r.Ok? <==> r'.Ok?
    ensures r.Ok? ==> r.value == r'.value
  {
  }

  /** `api.ACPProtocolVersion` */
  const ACP_PROTOCOL_VERSION: Int64 := 1

  class VersionNegotiator {
    var supported: seq<ProtocolVersion>
    var preferred: ProtocolVersion
    var current: Option<ProtocolVersion>

    /** In every reachable state the supported versions are pairwise distinct, and the current
        version, once there is one, is among them. */
    ghost predicate Valid()
      reads this
    {
      && (forall i, j :: 0 <= i < j < |supported| ==> supported[i] != supported[j])
      && (current.Some? ==> current.value in supported)
    }

    ghost function Supported(): set<ProtocolVersion>
      reads this
    {
      set v <- supported
    }

    constructor ()
      ensures Valid() && current.None?
      ensures Supported() == {ProtocolVersion(1, 0, 0), ProtocolVersion(0, 0, 0)}
              && preferred == ProtocolVersion(1, 0, 0)
    {
      var currentVersion := ProtocolVersion(ACP_PROTOCOL_VERSION, 0, 0);
      supported := [currentVersion, ProtocolVersion(0, 0, 0)];
      preferred := currentVersion;
      current := None;
    }

    method AddSupported(version: ProtocolVersion)
      requires Valid()
      modifies this`supported
      ensures Valid() && Supported() == old(Supported()) + {version}
      ensures old(supported) <= supported
    {
      for i := 0 to |supported|
        invariant supported == old(supported) && version !in supported[..i]
      {
        if Compare(supported[i], version) == 0 {
          return;
        }
      }
      supported := supported + [version];
    }

    method SetPreferred(version: ProtocolVersion)
      requires Valid()
      modifies this`preferred
      ensures Valid() && preferred == version
    {
      preferred := version;
    }

    /** An unparseable request fails; failure leaves the negotiator as it was. */
    method Negotiate(clientVersion: Input) returns (r: Result<ProtocolVersion, string>)
      requires Valid()
      modifies this`current
      ensures Valid()
      ensures ParseVersion(clientVersion).Err? ==> r.Err?
      ensures ParseVersion(clientVersion).Ok? ==> Negotiated(Supported(), ParseVersion(clientVersion).value, r)
      ensures current == if r.Ok? then Some(r.value) else old(current)
    {
      var parse := ParseVersion(clientVersion);
      if parse.Err? {
        return Err("failed to parse client version");
      }
      var parsed := parse.value;
      for i := 0 to |supported|
        invariant current == old(current) && parsed !in supported[..i]
      {
        if Compare(supported[i], parsed) == 0 {
          assert parsed in Supported() && Serves(parsed, parsed);
          current := Some(parsed);
          return Ok(parsed);
        }
      }
      var bestMatch: Option<ProtocolVersion> := None;
      for i := 0 to |supported|
        invariant current == old(current)
        invariant bestMatch.None? ==> forall v <- supported[..i] :: !Serves(v, parsed)
        invariant bestMatch.Some? ==>
                    && bestMatch.value in supported[..i] && Serves(bestMatch.value, parsed)
                    && forall v <- supported[..i] | Serves(v, parsed) :: Compare(bestMatch.value, v) >= 0
      {
        if IsCompatible(Some(supported[i]), Some(parsed)) {
          if bestMatch.None? || Compare(supported[i], bestMatch.value) > 0 {
            bestMatch := Some(supported[i]);
          }
        }
      }
      if bestMatch.Some? {
        current := bestMatch;
        return Ok(bestMatch.value);
      }
      return Err("no compatible version found");
    }
  }
}
