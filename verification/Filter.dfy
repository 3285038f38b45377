/** The filter decisions: sentinel-terminated scans of the policy arrays, then category and trust rules. */
module Filter {
  import opened Bytes
  import opened PolicyArrays

  /** The slot array a classification request leaves behind, and the trust level it reports. */
  datatype Classification = Classification(categories: seq<Str>, trust: int)

  /** Destination of a packet as the filter looks at it: everything that is not IPv4 takes the IPv6 branch. */
  datatype Dest = To4(a4: nat) | To6(a6: Str)

  /** "unknown", the category of a target the classifier knows nothing about. */
  const UNKNOWN: Str := [117, 110, 107, 110, 111, 119, 110]

  /** The three sentinels that end a list. */
  predicate NoName(s: Str) { s == [] }
  predicate NoIp4(a: nat) { a == 0 }
  predicate NoIp6(a: Str) { a == [] || a[0] == NUL }

  /** `x` occurs in `slots` before the first sentinel. */
  ghost predicate Listed<T>(slots: seq<T>, stop: T -> bool, x: T) {
    exists i :: 0 <= i < |slots| && slots[i] == x && forall j | 0 <= j <= i :: !stop(slots[j])
  }

  method Scan<T(==)>(slots: seq<T>, stop: T -> bool, x: T) returns (found: bool)
    ensures found <==> Listed(slots, stop, x)
  {
    var i := 0;
    while i < |slots|
      invariant 0 <= i <= |slots|
      invariant forall j | 0 <= j < i :: !stop(slots[j]) && slots[j] != x
    {
      if stop(slots[i]) {
        break;
      }
      if slots[i] == x {
        return true;
      }
      i := i + 1;
    }
    return false;
  }

  /** No classified slot equals a locked slot, unused slots included. */
  ghost predicate SlotsDisjoint(got: seq<Str>, locked: seq<Str>) {
    forall i, j | 0 <= i < |got| && 0 <= j < |locked| :: got[i] != locked[j]
  }

  method CheckCategories(got: seq<Str>, locked: seq<Str>) returns (ok: bool)
    ensures ok <==> SlotsDisjoint(got, locked)
  {
    for i := 0 to |got|
      invariant SlotsDisjoint(got[..i], locked)
    {
      for j := 0 to |locked|
        invariant forall k | 0 <= k < j :: got[i] != locked[k]
      {
        if got[i] == locked[j] {
          return false;
        }
      }
    }
    assert got[..|got|] == got;
    return true;
  }

  /** Every slot with a trust level that names a classified category is reached by the reported trust. */
  ghost predicate LevelsReached(c: Classification, levels: seq<Level>) {
    forall i, j | 0 <= i < |levels| && 0 <= j < |c.categories| ::
      c.categories[j] == levels[i].category ==> c.trust >= levels[i].trust
  }

  method CheckLevels(c: Classification, levels: seq<Level>) returns (ok: bool)
    ensures ok <==> LevelsReached(c, levels)
  {
    for i := 0 to |levels|
      invariant LevelsReached(c, levels[..i])
    {
      for j := 0 to |c.categories|
        invariant forall k | 0 <= k < j :: c.categories[k] == levels[i].category ==> c.trust >= levels[i].trust
      {
        if c.categories[j] == levels[i].category && c.trust < levels[i].trust {
          assert !LevelsReached(c, levels);
          return false;
        }
      }
    }
    assert levels[..|levels|] == levels;
    return true;
  }

  predicate Unclassified(c: Classification) {
    c.trust == 0 && c.categories != [] && c.categories[0] == UNKNOWN
  }

  /** The category and trust rules. */
  ghost predicate ClassSends(c: Classification, p: BasePolicy) {
    Unclassified(c)
    || (SlotsDisjoint(c.categories, p.locked) && c.trust >= p.minTrustLevel && LevelsReached(c, p.levels))
  }

  method CheckClass(c: Classification, p: BasePolicy) returns (send: bool)
    ensures send <==> ClassSends(c, p)
  {
    if c.trust == 0 && c.categories != [] && c.categories[0] == UNKNOWN {
      return true;
    }
    var ok := CheckCategories(c.categories, p.locked);
    if !ok {
      return false;
    }
    if c.trust < p.minTrustLevel {
      return false;
    }
    send := CheckLevels(c, p.levels);
  }

  /** Blocked names are dropped even when they are also allowed. */
  ghost predicate DomainSends(c: Classification, p: BasePolicy, domain: Str) {
    !Listed(p.blockDomains, NoName, domain) && (Listed(p.allowDomains, NoName, domain) || ClassSends(c, p))
  }

  method FilterByDomain(c: Classification, p: BasePolicy, domain: Str) returns (send: bool)
    ensures send <==> DomainSends(c, p, domain)
  {
    var listed := Scan(p.blockDomains, NoName, domain);
    if listed {
      return false;
    }
    listed := Scan(p.allowDomains, NoName, domain);
    if listed {
      return true;
    }
    send := CheckClass(c, p);
  }

  ghost predicate IpBlocked(p: BasePolicy, d: Dest) {
    match d
    case To4(a) => Listed(p.blockIp4, NoIp4, a)
    case To6(a) => Listed(p.blockIp6, NoIp6, a)
  }

  ghost predicate IpAllowed(p: BasePolicy, d: Dest) {
    match d
    case To4(a) => Listed(p.allowIp4, NoIp4, a)
    case To6(a) => Listed(p.allowIp6, NoIp6, a)
  }

  ghost predicate IpSends(c: Classification, p: BasePolicy, d: Dest) {
    !IpBlocked(p, d) && (IpAllowed(p, d) || ClassSends(c, p))
  }

  method FilterByIp(c: Classification, p: BasePolicy, d: Dest) returns (send: bool)
    ensures send <==> IpSends(c, p, d)
  {
    var listed: bool;
    match d {
      case To4(a) => listed := Scan(p.blockIp4, NoIp4, a);
      case To6(a) => listed := Scan(p.blockIp6, NoIp6, a);
    }
    if listed {
      return false;
    }
    match d {
      case To4(a) => listed := Scan(p.allowIp4, NoIp4, a);
      case To6(a) => listed := Scan(p.allowIp6, NoIp6, a);
    }
    if listed {
      return true;
    }
    send := CheckClass(c, p);
  }
}
