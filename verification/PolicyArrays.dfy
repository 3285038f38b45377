/** The worker's copy of its policy: fixed-size arrays filled from the policy message, zero where nothing is. */
module PolicyArrays {
  import opened Bytes
  import opened PolicyMerge

  const MAX_CATEGORIES: nat := 100
  const MAX_CATEGORIES_BY_TRUST_LVL: nat := 64
  const MAX_DOMAINS: nat := 64
  const MAX_IP: nat := 1024
  const CATEGORY_MAX_LEN: nat := 64
  const IP6_LEN: nat := 16

  const ZERO_IP6: Str := Fill(NUL, IP6_LEN)

  datatype Level = Level(category: Str, trust: int)

  /** What `inet_pton` makes of a list entry. */
  datatype Ip = V4(a4: nat) | V6(a6: Str) | NotIp

  /** A copy of the arrays, as the packet loop takes one per iteration. Strings are C strings. */
  datatype BasePolicy = BasePolicy(
    locked: seq<Str>,
    levels: seq<Level>,
    ttlIp: I32,
    ttlDomain: I32,
    blockDomains: seq<Str>,
    allowDomains: seq<Str>,
    blockIp4: seq<nat>,
    allowIp4: seq<nat>,
    blockIp6: seq<Str>,
    allowIp6: seq<Str>,
    minTrustLevel: I32)

  /** `items` in order, cut at `cap` or padded with `zero` up to it. */
  function Slots<T>(items: seq<T>, cap: nat, zero: T): (r: seq<T>)
    ensures |r| == cap
  {
    seq(cap, i requires 0 <= i < cap => if i < |items| then items[i] else zero)
  }

  function ClipAll(items: seq<Str>, size: nat): (r: seq<Str>)
    requires size > 0
  {
    seq(|items|, i requires 0 <= i < |items| => Clipped(items[i], size))
  }

  function AsV4(ip: Ip): (r: seq<nat>) {
    if ip.V4? then [ip.a4] else []
  }

  function AsV6(ip: Ip): (r: seq<Str>) {
    if ip.V6? then [ip.a6] else []
  }

  function V4s(items: seq<Str>, parse: Str -> Ip): (r: seq<nat>) {
    if items == [] then []
    else AsV4(parse(items[0])) + V4s(items[1..], parse)
  }

  function V6s(items: seq<Str>, parse: Str -> Ip): (r: seq<Str>) {
    if items == [] then []
    else AsV6(parse(items[0])) + V6s(items[1..], parse)
  }

  /** The trust levels in the order `order` in which the message's map yields them. */
  function Levels(levels: map<Str, int>, order: seq<Str>): (r: seq<Level>)
    requires forall k | k in order :: k in levels
  {
    seq(|order|, i requires 0 <= i < |order| => Level(Clipped(order[i], CATEGORY_MAX_LEN), levels[order[i]]))
  }

  ghost predicate Enumerates(order: seq<Str>, levels: map<Str, int>) {
    && (forall k :: k in order <==> k in levels)
    && (forall i, j | 0 <= i < j < |order| :: order[i] != order[j])
  }

  /** Categories and domains are copied without a bound check; these are the policies whose lists stay inside. */
  predicate FitsArrays(p: WorkerPolicy) {
    && |p.blockCategories| <= MAX_CATEGORIES
    && |p.blockDomains| <= MAX_DOMAINS
    && |p.allowDomains| <= MAX_DOMAINS
  }

  function Loaded(p: WorkerPolicy, order: seq<Str>, parse: Str -> Ip): (b: BasePolicy)
    requires forall k | k in order :: k in p.blockByTrust
  {
    BasePolicy(
      Slots(ClipAll(p.blockCategories, CATEGORY_MAX_LEN), MAX_CATEGORIES, []),
      Slots(Levels(p.blockByTrust, order), MAX_CATEGORIES_BY_TRUST_LVL, Level([], 0)),
      p.ttlIp,
      p.ttlDomain,
      Slots(ClipAll(p.blockDomains, DOMAIN_MAX_LEN), MAX_DOMAINS, []),
      Slots(ClipAll(p.allowDomains, DOMAIN_MAX_LEN), MAX_DOMAINS, []),
      Slots(V4s(p.blockIps, parse), MAX_IP, 0),
      Slots(V4s(p.allowIps, parse), MAX_IP, 0),
      Slots(V6s(p.blockIps, parse), MAX_IP, ZERO_IP6),
      Slots(V6s(p.allowIps, parse), MAX_IP, ZERO_IP6),
      p.minTrustLevel)
  }

  /** The sizes of the arrays. */
  lemma LoadedSizes(p: WorkerPolicy, order: seq<Str>, parse: Str -> Ip)
    requires Enumerates(order, p.blockByTrust)
    ensures var b := Loaded(p, order, parse);
            && |b.locked| == 100 && |b.levels| == 64
            && |b.blockDomains| == 64 && |b.allowDomains| == 64
            && |b.blockIp4| == 1024 && |b.allowIp4| == 1024 && |b.blockIp6| == 1024 && |b.allowIp6| == 1024
    ensures FitsArrays(p) <==> |p.blockCategories| <= 100 && |p.blockDomains| <= 64 && |p.allowDomains| <= 64
  {
    hide Slots, ClipAll, Levels, V4s, V6s;
  }

  /** A string without zero octets survives a category field up to 63 octets, and a domain field up to 259. */
  lemma FieldSizes(s: Str)
    requires NUL !in s
    ensures Clipped(s, CATEGORY_MAX_LEN) == s <==> |s| <= 63
    ensures Clipped(s, DOMAIN_MAX_LEN) == s <==> |s| <= 259
  {
    CStrOfPlain(s);
  }

  class PolicyStore {
    const locked: array<Str>
    const levels: array<Level>
    const blockDomains: array<Str>
    const allowDomains: array<Str>
    const blockIp4: array<nat>
    const allowIp4: array<nat>
    const blockIp6: array<Str>
    const allowIp6: array<Str>
    var ttlIp: I32
    var ttlDomain: I32
    var minTrustLevel: I32

    constructor ()
      ensures Valid() && fresh(Arrays())
    {
      locked := new Str[MAX_CATEGORIES];
      levels := new Level[MAX_CATEGORIES_BY_TRUST_LVL](_ => Level([], 0));
      blockDomains := new Str[MAX_DOMAINS];
      allowDomains := new Str[MAX_DOMAINS];
      blockIp4 := new nat[MAX_IP];
      allowIp4 := new nat[MAX_IP];
      blockIp6 := new Str[MAX_IP];
      allowIp6 := new Str[MAX_IP];
    }

    function Arrays(): set<object> {
      {locked as object, levels as object, blockDomains as object, allowDomains as object,
       blockIp4 as object, allowIp4 as object, blockIp6 as object, allowIp6 as object}
    }

    ghost predicate Valid() {
      && locked.Length == MAX_CATEGORIES && levels.Length == MAX_CATEGORIES_BY_TRUST_LVL
      && blockDomains.Length == MAX_DOMAINS && allowDomains.Length == MAX_DOMAINS
      && blockIp4.Length == allowIp4.Length == blockIp6.Length == allowIp6.Length == MAX_IP
      && blockIp4 != allowIp4
      && blockDomains != locked && allowDomains != locked && blockIp6 != locked && allowIp6 != locked
      && blockDomains != allowDomains && blockDomains != blockIp6 && blockDomains != allowIp6
      && allowDomains != blockIp6 && allowDomains != allowIp6 && blockIp6 != allowIp6
    }

    function Snapshot(): (b: BasePolicy)
      reads this, Arrays()
    {
      BasePolicy(locked[..], levels[..], ttlIp, ttlDomain, blockDomains[..], allowDomains[..],
                 blockIp4[..], allowIp4[..], blockIp6[..], allowIp6[..], minTrustLevel)
    }

    /** Stops at the first write outside an array, from which on the program's behaviour is undefined: `inside` says
        whether there was none. */
    method Load(p: WorkerPolicy, order: seq<Str>, parse: Str -> Ip) returns (inside: bool)
      requires Valid() && Enumerates(order, p.blockByTrust)
      modifies this, Arrays()
      ensures inside <==> FitsArrays(p)
      ensures inside ==> Snapshot() == Loaded(p, order, parse)
    {
      inside := FillStrings(locked, p.blockCategories, CATEGORY_MAX_LEN);
      if !inside { return; }
      FillLevels(levels, p.blockByTrust, order);
      inside := FillStrings(blockDomains, p.blockDomains, DOMAIN_MAX_LEN);
      if !inside { return; }
      inside := FillStrings(allowDomains, p.allowDomains, DOMAIN_MAX_LEN);
      if !inside { return; }
      FillIps(blockIp4, blockIp6, p.blockIps, parse);
      FillIps(allowIp4, allowIp6, p.allowIps, parse);
      minTrustLevel := p.minTrustLevel;
      ttlIp := p.ttlIp;
      ttlDomain := p.ttlDomain;
    }
  }

  method Zero<T>(a: array<T>, zero: T)
    modifies a
    ensures a[..] == Slots([], a.Length, zero)
  {
    for i := 0 to a.Length
      invariant forall j | 0 <= j < i :: a[j] == zero
    {
      a[i] := zero;
    }
  }

  /** Copies without a bound check. */
  method FillStrings(dst: array<Str>, items: seq<Str>, size: nat) returns (inside: bool)
    requires size > 0
    modifies dst
    ensures inside <==> |items| <= dst.Length
    ensures inside ==> dst[..] == Slots(ClipAll(items, size), dst.Length, [])
  {
    Zero(dst, []);
    for i := 0 to |items|
      invariant i <= dst.Length
      invariant dst[..] == Slots(ClipAll(items[..i], size), dst.Length, [])
    {
      if i == dst.Length {
        return false;
      }
      dst[i] := Clipped(items[i], size);
      assert forall j | 0 <= j < dst.Length :: dst[..][j] == Slots(ClipAll(items[..i + 1], size), dst.Length, [])[j];
    }
    assert items[..|items|] == items;
    inside := true;
  }

  method FillLevels(dst: array<Level>, levels: map<Str, int>, order: seq<Str>)
    requires forall k | k in order :: k in levels
    modifies dst
    ensures dst[..] == Slots(Levels(levels, order), dst.Length, Level([], 0))
  {
    Zero(dst, Level([], 0));
    var idx := 0;
    while idx < |order|
      invariant idx <= |order| && idx <= dst.Length
      invariant dst[..] == Slots(Levels(levels, order[..idx]), dst.Length, Level([], 0))
    {
      if idx >= dst.Length {
        break;
      }
      dst[idx] := Level(Clipped(order[idx], CATEGORY_MAX_LEN), levels[order[idx]]);
      idx := idx + 1;
      assert forall j | 0 <= j < dst.Length ::
          dst[..][j] == Slots(Levels(levels, order[..idx]), dst.Length, Level([], 0))[j];
    }
    assert forall j | 0 <= j < dst.Length :: dst[..][j] == Slots(Levels(levels, order), dst.Length, Level([], 0))[j];
  }

  /** Each address goes to the next free slot of its family; addresses beyond the last slot are ignored. */
  method FillIps(dst4: array<nat>, dst6: array<Str>, items: seq<Str>, parse: Str -> Ip)
    modifies dst4, dst6
    ensures dst4[..] == Slots(V4s(items, parse), dst4.Length, 0)
    ensures dst6[..] == Slots(V6s(items, parse), dst6.Length, ZERO_IP6)
  {
    Zero(dst4, 0);
    Zero(dst6, ZERO_IP6);
    var idx4, idx6 := 0, 0;
    for i := 0 to |items|
      invariant idx4 == if |V4s(items[..i], parse)| <= dst4.Length then |V4s(items[..i], parse)| else dst4.Length
      invariant idx6 == if |V6s(items[..i], parse)| <= dst6.Length then |V6s(items[..i], parse)| else dst6.Length
      invariant dst4[..] == Slots(V4s(items[..i], parse), dst4.Length, 0)
      invariant dst6[..] == Slots(V6s(items[..i], parse), dst6.Length, ZERO_IP6)
    {
      FamiliesSnoc(items[..i], items[i], parse);
      assert items[..i + 1] == items[..i] + [items[i]];
      match parse(items[i])
      case V4(a) =>
        if idx4 < dst4.Length {
          dst4[idx4] := a;
          idx4 := idx4 + 1;
        }
        SlotsSnoc(V4s(items[..i], parse), a, dst4.Length, 0);
      case V6(a) =>
        if idx6 < dst6.Length {
          dst6[idx6] := a;
          idx6 := idx6 + 1;
        }
        SlotsSnoc(V6s(items[..i], parse), a, dst6.Length, ZERO_IP6);
      case NotIp =>
    }
    assert items[..|items|] == items;
  }

  lemma SlotsSnoc<T>(items: seq<T>, x: T, cap: nat, zero: T)
    ensures Slots(items + [x], cap, zero) ==
            if |items| < cap then Slots(items, cap, zero)[|items| := x] else Slots(items, cap, zero)
  {
  }

  lemma {:induction false} FamiliesSnoc(items: seq<Str>, s: Str, parse: Str -> Ip)
    ensures V4s(items + [s], parse) == V4s(items, parse) + AsV4(parse(s))
    ensures V6s(items + [s], parse) == V6s(items, parse) + AsV6(parse(s))
  {
    FamiliesConcat(items, [s], parse);
  }

  lemma {:induction false} FamiliesConcat(a: seq<Str>, b: seq<Str>, parse: Str -> Ip)
    ensures V4s(a + b, parse) == V4s(a, parse) + V4s(b, parse)
    ensures V6s(a + b, parse) == V6s(a, parse) + V6s(b, parse)
  {
    if a == [] {
      assert a + b == b;
    } else {
      assert (a + b)[1..] == a[1..] + b;
      FamiliesConcat(a[1..], b, parse);
      var ip := parse(a[0]);
      assert AsV4(ip) + (V4s(a[1..], parse) + V4s(b, parse)) == AsV4(ip) + V4s(a[1..], parse) + V4s(b, parse);
      assert AsV6(ip) + (V6s(a[1..], parse) + V6s(b, parse)) == AsV6(ip) + V6s(a[1..], parse) + V6s(b, parse);
    }
  }

  lemma {:induction false} FamilyMembers(items: seq<Str>, parse: Str -> Ip)
    ensures forall a :: a in V4s(items, parse) <==> exists s | s in items :: parse(s) == V4(a)
    ensures forall a :: a in V6s(items, parse) <==> exists s | s in items :: parse(s) == V6(a)
  {
    if items == [] {
    } else {
      FamilyMembers(items[1..], parse);
      assert items == [items[0]] + items[1..];
      assert forall s :: s in items <==> s == items[0] || s in items[1..];
    }
  }
}
