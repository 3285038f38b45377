/** When a filter section makes a worker stricter: exactly when the merged policy drops everything that the global rules
    alone drop. */
module Strictness {
  import opened Bytes
  import opened Options
  import opened PolicyMerge
  import opened PolicyArrays
  import opened Filter
  import opened ListScan
  import opened PolicyMeaning

  /** Comparing two loaded policies **/

  /** Whatever a level slot drops, the policy drops too: it locks the category, asks more of every target, or has a
      level for the category that is at least as high. */
  ghost predicate Covered(l: Level, q: BasePolicy) {
    || l.category in q.locked
    || l.trust <= q.minTrustLevel
    || exists m :: m in q.levels && m.category == l.category && m.trust >= l.trust
  }

  ghost predicate Covers(p: BasePolicy, q: BasePolicy) {
    && q.minTrustLevel >= p.minTrustLevel
    && (forall x | x in p.locked :: x in q.locked)
    && (forall l | l in p.levels :: Covered(l, q))
  }

  lemma CoveredSends(p: BasePolicy, q: BasePolicy, c: Classification)
    requires Covers(p, q) && ClassSends(c, q)
    ensures ClassSends(c, p)
  {
    DisjointMembers(c.categories, p.locked);
    DisjointMembers(c.categories, q.locked);
    ReachedMembers(c, p.levels);
    ReachedMembers(c, q.levels);
  }

  /** Some one-octet name from `[a]` on is not among few names. */
  lemma {:induction false} FreshName(names: seq<Str>, a: nat) returns (b: Byte)
    requires 0 < a && |names| + a < 256
    ensures a <= b && [b] !in names
    decreases |names|
  {
    if [a] !in names {
      b := a;
    } else {
      var i :| 0 <= i < |names| && names[i] == [a];
      var rest := names[..i] + names[i + 1..];
      b := FreshName(rest, a + 1);
      assert forall x | x in names :: x == [a] || x in rest;
    }
  }

  ghost function Categories(levels: seq<Level>): (r: seq<Str>)
    ensures |r| == |levels|
    ensures forall i | 0 <= i < |levels| :: r[i] == levels[i].category
  {
    seq(|levels|, i requires 0 <= i < |levels| => levels[i].category)
  }

  /** A name that is neither locked nor has a level. */
  ghost predicate Unused(a: Byte, q: BasePolicy) {
    [a] !in q.locked && forall l | l in q.levels :: l.category != [a]
  }

  lemma FreshCategory(q: BasePolicy) returns (a: Byte)
    requires |q.locked| + |q.levels| < 255
    ensures Unused(a, q)
  {
    a := FreshName(q.locked + Categories(q.levels), 1);
    forall l | l in q.levels
      ensures l.category != [a]
    {
      var i :| 0 <= i < |q.levels| && q.levels[i] == l;
      assert Categories(q.levels)[i] in q.locked + Categories(q.levels);
    }
  }

  /** A full slot array that holds `x` after a harmless first name. */
  function Mixed(a: Byte, x: Str, trust: int): (c: Classification)
    ensures |c.categories| == MAX_CATEGORIES && !Unclassified(c)
    ensures forall cat :: cat in c.categories <==> cat == [a] || cat == x
  {
    var c := Classification([[a]] + Fill(x, MAX_CATEGORIES - 1), trust);
    assert c.categories[1] == x && c.categories[0] == [a];
    c
  }

  lemma MixedSends(q: BasePolicy, a: Byte, x: Str, trust: int)
    requires Unused(a, q) && x !in q.locked && trust >= q.minTrustLevel
    requires forall l | l in q.levels && l.category == x :: trust >= l.trust
    ensures ClassSends(Mixed(a, x, trust), q)
  {
    DisjointMembers(Mixed(a, x, trust).categories, q.locked);
    ReachedMembers(Mixed(a, x, trust), q.levels);
  }

  function Highest(levels: seq<Level>, least: int): (t: int)
    ensures t >= least && forall l | l in levels :: t >= l.trust
  {
    if levels == [] then least
    else
      var t := Highest(levels[1..], least);
      assert levels == [levels[0]] + levels[1..];
      if t >= levels[0].trust then t else levels[0].trust
  }

  /** A policy that covers less sends something the other drops. */
  lemma LaxWitness(p: BasePolicy, q: BasePolicy) returns (c: Classification)
    requires !Covers(p, q) && |q.locked| + |q.levels| < 255
    ensures |c.categories| == MAX_CATEGORIES && ClassSends(c, q) && !ClassSends(c, p)
  {
    var a := FreshCategory(q);
    if q.minTrustLevel < p.minTrustLevel {
      c := Mixed(a, [a], q.minTrustLevel);
      MixedSends(q, a, [a], q.minTrustLevel);
    } else if x :| x in p.locked && x !in q.locked {
      var trust := Highest(q.levels, q.minTrustLevel);
      c := Mixed(a, x, trust);
      MixedSends(q, a, x, trust);
      DisjointMembers(c.categories, p.locked);
    } else {
      var l :| l in p.levels && !Covered(l, q);
      c := Mixed(a, l.category, l.trust - 1);
      MixedSends(q, a, l.category, l.trust - 1);
      ReachedMembers(c, p.levels);
    }
  }

  /** For any two policies as the worker can hold them: one drops, by its categories and levels, every classification
      the other drops if and only if it covers the other. */
  lemma ClassStricterExactly(p: BasePolicy, q: BasePolicy)
    requires |q.locked| == MAX_CATEGORIES && |q.levels| == MAX_CATEGORIES_BY_TRUST_LVL
    ensures (forall c: Classification | |c.categories| == MAX_CATEGORIES :: ClassSends(c, q) ==> ClassSends(c, p))
            <==> Covers(p, q)
  {
    if Covers(p, q) {
      forall c | ClassSends(c, q)
        ensures ClassSends(c, p)
      {
        CoveredSends(p, q, c);
      }
    } else {
      var c := LaxWitness(p, q);
    }
  }

  /** Sections **/

  /** What the worker would load without its section, and what it loads with it. */
  function Alone(cfg: Config, order: seq<Str>, parse: Str -> Ip): (p: BasePolicy)
    requires forall k | k in order :: k in cfg.global.blockByTrust
    ensures |p.locked| == MAX_CATEGORIES && |p.levels| == MAX_CATEGORIES_BY_TRUST_LVL
  {
    Loaded(MergeRules(cfg.global, NO_RULES, 0, None), order, parse)
  }

  function Merged(cfg: Config, id: nat, order: seq<Str>, parse: Str -> Ip): (p: BasePolicy)
    requires forall k | k in order :: k in PolicyFor(cfg, 0, id).blockByTrust
    ensures |p.locked| == MAX_CATEGORIES && |p.levels| == MAX_CATEGORIES_BY_TRUST_LVL
  {
    Loaded(PolicyFor(cfg, 0, id), order, parse)
  }

  lemma NoMore(g: seq<Str>)
    ensures MergeList(g, []) == g
  {
  }

  lemma AloneFields(cfg: Config, order: seq<Str>, parse: Str -> Ip)
    requires Enumerates(order, cfg.global.blockByTrust)
    ensures var g, p := cfg.global, Alone(cfg, order, parse);
            && p.locked == Slots(ClipAll(g.blockCategories, CATEGORY_MAX_LEN), MAX_CATEGORIES, [])
            && p.levels == Slots(Levels(g.blockByTrust, order), MAX_CATEGORIES_BY_TRUST_LVL, Level([], 0))
            && p.minTrustLevel == Setting(g.minTrustLevel, None)
            && p.blockDomains == Slots(ClipAll(g.blockDomains, DOMAIN_MAX_LEN), MAX_DOMAINS, [])
            && p.allowDomains == Slots(ClipAll(g.allowDomains, DOMAIN_MAX_LEN), MAX_DOMAINS, [])
            && p.blockIp4 == Slots(V4s(g.blockIps, parse), MAX_IP, 0)
            && p.blockIp6 == Slots(V6s(g.blockIps, parse), MAX_IP, ZERO_IP6)
            && p.allowIp4 == Slots(V4s(g.allowIps, parse), MAX_IP, 0)
            && p.allowIp6 == Slots(V6s(g.allowIps, parse), MAX_IP, ZERO_IP6)
  {
    hide Slots, ClipAll, V4s, V6s, Absent, MergeList;
    NoMore(cfg.global.blockCategories);
    NoMore(cfg.global.blockDomains);
    NoMore(cfg.global.allowDomains);
    NoMore(cfg.global.blockIps);
    NoMore(cfg.global.allowIps);
    assert cfg.global.blockByTrust + map[] == cfg.global.blockByTrust;
  }

  lemma MergedFields(cfg: Config, id: nat, order: seq<Str>, parse: Str -> Ip)
    requires Enumerates(order, PolicyFor(cfg, 0, id).blockByTrust)
    ensures var g, f, p := cfg.global, Section(cfg, id), Merged(cfg, id, order, parse);
            && p.locked ==
               Slots(ClipAll(MergeList(g.blockCategories, f.blockCategories), CATEGORY_MAX_LEN), MAX_CATEGORIES, [])
            && p.levels ==
               Slots(Levels(g.blockByTrust + f.blockByTrust, order), MAX_CATEGORIES_BY_TRUST_LVL, Level([], 0))
            && p.minTrustLevel == Setting(g.minTrustLevel, f.minTrustLevel)
            && p.blockDomains ==
               Slots(ClipAll(MergeList(g.blockDomains, f.blockDomains), DOMAIN_MAX_LEN), MAX_DOMAINS, [])
            && p.allowDomains ==
               Slots(ClipAll(MergeList(g.allowDomains, f.allowDomains), DOMAIN_MAX_LEN), MAX_DOMAINS, [])
            && p.blockIp4 == Slots(V4s(MergeList(g.blockIps, f.blockIps), parse), MAX_IP, 0)
            && p.blockIp6 == Slots(V6s(MergeList(g.blockIps, f.blockIps), parse), MAX_IP, ZERO_IP6)
            && p.allowIp4 == Slots(V4s(MergeList(g.allowIps, f.allowIps), parse), MAX_IP, 0)
            && p.allowIp6 == Slots(V6s(MergeList(g.allowIps, f.allowIps), parse), MAX_IP, ZERO_IP6)
  {
    hide Slots, ClipAll, V4s, V6s, Absent, MergeList;
  }

  ghost predicate Orders(cfg: Config, id: nat, order0: seq<Str>, order1: seq<Str>) {
    Enumerates(order0, cfg.global.blockByTrust) && Enumerates(order1, PolicyFor(cfg, 0, id).blockByTrust)
  }

  /** These are what a worker without and with its section loads under every version. */
  lemma LoadedUnderAnyVersion(cfg: Config, version: nat, id: nat, order0: seq<Str>, order1: seq<Str>, parse: Str -> Ip)
    requires Orders(cfg, id, order0, order1)
    ensures var p, q := PolicyFor(cfg.(filters := map[]), version, id), PolicyFor(cfg, version, id);
            && (forall k | k in order0 :: k in p.blockByTrust) && (forall k | k in order1 :: k in q.blockByTrust)
            && Loaded(p, order0, parse) == Alone(cfg, order0, parse)
            && Loaded(q, order1, parse) == Merged(cfg, id, order1, parse)
  {
  }

  /** The merged policy drops everything the global rules alone drop. */
  ghost predicate Stricter(alone: BasePolicy, merged: BasePolicy) {
    forall c: Classification | |c.categories| == MAX_CATEGORIES ::
      && (forall domain :: DomainSends(c, merged, domain) ==> DomainSends(c, alone, domain))
      && (forall d :: IpSends(c, merged, d) ==> IpSends(c, alone, d))
  }

  ghost predicate AddsNoAllows(cfg: Config, id: nat) {
    Section(cfg, id).allowDomains == [] && Section(cfg, id).allowIps == []
  }

  lemma ListedGrows<T>(items: seq<T>, more: seq<T>, cap: nat, zero: T, stop: T -> bool, x: T)
    requires stop(zero)
    requires Listed(Slots(items, cap, zero), stop, x)
    ensures Listed(Slots(items + more, cap, zero), stop, x)
  {
    var i :| 0 <= i < cap && Slots(items, cap, zero)[i] == x
             && forall j | 0 <= j <= i :: !stop(Slots(items, cap, zero)[j]);
    assert Slots(items + more, cap, zero)[i] == x;
    assert forall j | 0 <= j <= i :: Slots(items + more, cap, zero)[j] == Slots(items, cap, zero)[j];
  }

  lemma ClipConcat(a: seq<Str>, b: seq<Str>, size: nat)
    requires size > 0
    ensures ClipAll(a + b, size) == ClipAll(a, size) + ClipAll(b, size)
  {
  }

  lemma BlockListsGrow(cfg: Config, id: nat, order0: seq<Str>, order1: seq<Str>, parse: Str -> Ip)
    requires Orders(cfg, id, order0, order1)
    ensures var alone, merged := Alone(cfg, order0, parse), Merged(cfg, id, order1, parse);
            && (forall domain :: Listed(alone.blockDomains, NoName, domain) ==>
                                 Listed(merged.blockDomains, NoName, domain))
            && (forall d :: IpBlocked(alone, d) ==> IpBlocked(merged, d))
  {
    hide Alone, Merged, Listed, Slots, ClipAll, V4s, V6s, Absent;
    AloneFields(cfg, order0, parse);
    MergedFields(cfg, id, order1, parse);
    DomainsGrow(cfg.global.blockDomains, Section(cfg, id).blockDomains);
    AddressesGrow(cfg.global.blockIps, Section(cfg, id).blockIps, parse);
  }

  lemma DomainsGrow(g: seq<Str>, f: seq<Str>)
    ensures forall domain :: Listed(Slots(ClipAll(g, DOMAIN_MAX_LEN), MAX_DOMAINS, []), NoName, domain) ==>
                             Listed(Slots(ClipAll(MergeList(g, f), DOMAIN_MAX_LEN), MAX_DOMAINS, []), NoName, domain)
  {
    hide Listed, Slots, ClipAll, Absent;
    ClipConcat(g, Absent(f, g), DOMAIN_MAX_LEN);
    forall domain | Listed(Slots(ClipAll(g, DOMAIN_MAX_LEN), MAX_DOMAINS, []), NoName, domain)
      ensures Listed(Slots(ClipAll(MergeList(g, f), DOMAIN_MAX_LEN), MAX_DOMAINS, []), NoName, domain)
    {
      ListedGrows(ClipAll(g, DOMAIN_MAX_LEN), ClipAll(Absent(f, g), DOMAIN_MAX_LEN), MAX_DOMAINS, [], NoName, domain);
    }
  }

  lemma AddressesGrow(g: seq<Str>, f: seq<Str>, parse: Str -> Ip)
    ensures forall a: nat :: Listed(Slots(V4s(g, parse), MAX_IP, 0), NoIp4, a) ==>
                             Listed(Slots(V4s(MergeList(g, f), parse), MAX_IP, 0), NoIp4, a)
    ensures forall a :: Listed(Slots(V6s(g, parse), MAX_IP, ZERO_IP6), NoIp6, a) ==>
                        Listed(Slots(V6s(MergeList(g, f), parse), MAX_IP, ZERO_IP6), NoIp6, a)
  {
    hide Listed, Slots, V4s, V6s, Absent;
    var extra := Absent(f, g);
    FamiliesConcat(g, extra, parse);
    forall a: nat | Listed(Slots(V4s(g, parse), MAX_IP, 0), NoIp4, a)
      ensures Listed(Slots(V4s(MergeList(g, f), parse), MAX_IP, 0), NoIp4, a)
    {
      ListedGrows(V4s(g, parse), V4s(extra, parse), MAX_IP, 0, NoIp4, a);
    }
    forall a | Listed(Slots(V6s(g, parse), MAX_IP, ZERO_IP6), NoIp6, a)
      ensures Listed(Slots(V6s(MergeList(g, f), parse), MAX_IP, ZERO_IP6), NoIp6, a)
    {
      ListedGrows(V6s(g, parse), V6s(extra, parse), MAX_IP, ZERO_IP6, NoIp6, a);
    }
  }

  lemma SameAllows(cfg: Config, id: nat, order0: seq<Str>, order1: seq<Str>, parse: Str -> Ip)
    requires Orders(cfg, id, order0, order1) && AddsNoAllows(cfg, id)
    ensures var alone, merged := Alone(cfg, order0, parse), Merged(cfg, id, order1, parse);
            && merged.allowDomains == alone.allowDomains
            && merged.allowIp4 == alone.allowIp4 && merged.allowIp6 == alone.allowIp6
            && |merged.blockDomains| == |merged.allowDomains| == MAX_DOMAINS
  {
    hide Alone, Merged, Slots, ClipAll, V4s, V6s, MergeList;
    AloneFields(cfg, order0, parse);
    MergedFields(cfg, id, order1, parse);
    NoMore(cfg.global.allowDomains);
    NoMore(cfg.global.allowIps);
  }

  /** A section that adds no allow entries makes its worker stricter if and only if the merged arrays cover the global
      ones: for every configuration, with any number of levels and addresses, and all iteration orders. */
  lemma SectionStricterExactly(cfg: Config, id: nat, order0: seq<Str>, order1: seq<Str>, parse: Str -> Ip)
    requires Orders(cfg, id, order0, order1) && AddsNoAllows(cfg, id)
    ensures Stricter(Alone(cfg, order0, parse), Merged(cfg, id, order1, parse))
            <==> Covers(Alone(cfg, order0, parse), Merged(cfg, id, order1, parse))
  {
    hide Alone, Merged, Covers, ClassSends, Listed;
    var alone, merged := Alone(cfg, order0, parse), Merged(cfg, id, order1, parse);
    BlockListsGrow(cfg, id, order0, order1, parse);
    SameAllows(cfg, id, order0, order1, parse);
    ClassStricterExactly(alone, merged);
    if Stricter(alone, merged) {
      var a := FreshName(merged.blockDomains + merged.allowDomains, 1);
      UnlistedName(merged.blockDomains, [a]);
      UnlistedName(merged.allowDomains, [a]);
      forall c: Classification | |c.categories| == MAX_CATEGORIES && ClassSends(c, merged)
        ensures ClassSends(c, alone)
      {
        assert DomainSends(c, merged, [a]);
        assert DomainSends(c, alone, [a]);
      }
    }
  }

  lemma UnlistedName(slots: seq<Str>, x: Str)
    requires x !in slots
    ensures !Listed(slots, NoName, x)
  {
  }

  /** The condition on the configuration **/

  /** The empty name, which an unused category slot locks, stays locked if it was. */
  ghost predicate KeepsEmptyName(g: seq<Str>, merged: seq<Str>) {
    |g| == MAX_CATEGORIES || |merged| < MAX_CATEGORIES || [] in ClipAll(merged, CATEGORY_MAX_LEN)
  }

  lemma LockedKeptExactly(g: seq<Str>, f: seq<Str>)
    requires |MergeList(g, f)| <= MAX_CATEGORIES
    ensures (forall x | x in Slots(ClipAll(g, CATEGORY_MAX_LEN), MAX_CATEGORIES, []) ::
               x in Slots(ClipAll(MergeList(g, f), CATEGORY_MAX_LEN), MAX_CATEGORIES, []))
            <==> KeepsEmptyName(g, MergeList(g, f))
  {
    var m := MergeList(g, f);
    ClipConcat(g, Absent(f, g), CATEGORY_MAX_LEN);
    forall x
      ensures x in Slots(ClipAll(g, CATEGORY_MAX_LEN), MAX_CATEGORIES, [])
              <==> x in ClipAll(g, CATEGORY_MAX_LEN) || (x == [] && |g| < MAX_CATEGORIES)
      ensures x in Slots(ClipAll(m, CATEGORY_MAX_LEN), MAX_CATEGORIES, [])
              <==> x in ClipAll(m, CATEGORY_MAX_LEN) || (x == [] && |m| < MAX_CATEGORIES)
    {
      SlotMember(ClipAll(g, CATEGORY_MAX_LEN), MAX_CATEGORIES, [], x);
      SlotMember(ClipAll(m, CATEGORY_MAX_LEN), MAX_CATEGORIES, [], x);
    }
  }

  /** Level 0 of the empty name, which an unused level slot asks for, stays in force if it was. */
  ghost predicate KeepsEmptyLevel(g: map<Str, int>, merged: map<Str, int>, q: BasePolicy) {
    || |g| == MAX_CATEGORIES_BY_TRUST_LVL || |merged| < MAX_CATEGORIES_BY_TRUST_LVL
    || [] in q.locked || q.minTrustLevel >= 0
    || exists k :: k in merged && Clipped(k, CATEGORY_MAX_LEN) == [] && merged[k] >= 0
  }

  lemma LevelsCoveredExactly(g: map<Str, int>, f: map<Str, int>, order0: seq<Str>, order1: seq<Str>, q: BasePolicy)
    requires Enumerates(order0, g) && Enumerates(order1, g + f) && |g + f| <= MAX_CATEGORIES_BY_TRUST_LVL
    requires forall k | k in f && k in g :: f[k] >= g[k]
    requires q.levels == Slots(Levels(g + f, order1), MAX_CATEGORIES_BY_TRUST_LVL, Level([], 0))
    ensures (forall l | l in Slots(Levels(g, order0), MAX_CATEGORIES_BY_TRUST_LVL, Level([], 0)) :: Covered(l, q))
            <==> KeepsEmptyLevel(g, g + f, q)
  {
    var slots := Slots(Levels(g, order0), MAX_CATEGORIES_BY_TRUST_LVL, Level([], 0));
    FewerKeys(g, f);
    if KeepsEmptyLevel(g, g + f, q) {
      forall l | l in slots
        ensures Covered(l, q)
      {
        LevelCovered(g, f, order0, order1, q, l);
      }
    }
    if forall l | l in slots :: Covered(l, q) {
      LevelSlot(g, order0, Level([], 0));
      if |g| < MAX_CATEGORIES_BY_TRUST_LVL {
        EmptyLevelCovered(g + f, order1, q);
      }
    }
  }

  lemma LevelCovered(g: map<Str, int>, f: map<Str, int>, order0: seq<Str>, order1: seq<Str>, q: BasePolicy, l: Level)
    requires Enumerates(order0, g) && Enumerates(order1, g + f) && |g| <= |g + f| <= MAX_CATEGORIES_BY_TRUST_LVL
    requires forall k | k in f && k in g :: f[k] >= g[k]
    requires q.levels == Slots(Levels(g + f, order1), MAX_CATEGORIES_BY_TRUST_LVL, Level([], 0))
    requires KeepsEmptyLevel(g, g + f, q)
    requires l in Slots(Levels(g, order0), MAX_CATEGORIES_BY_TRUST_LVL, Level([], 0))
    ensures Covered(l, q)
  {
    hide Slots, Levels, Clipped;
    LevelSlot(g, order0, l);
    if k :| k in g && l == Level(Clipped(k, CATEGORY_MAX_LEN), g[k]) {
      var m := Level(Clipped(k, CATEGORY_MAX_LEN), (g + f)[k]);
      LevelSlot(g + f, order1, m);
      assert m in q.levels;
    } else {
      LevelSlot(g + f, order1, l);
      if k :| k in g + f && Clipped(k, CATEGORY_MAX_LEN) == [] && (g + f)[k] >= 0 {
        LevelSlot(g + f, order1, Level([], (g + f)[k]));
        assert Level([], (g + f)[k]) in q.levels;
      }
    }
  }

  lemma EmptyLevelCovered(levels: map<Str, int>, order: seq<Str>, q: BasePolicy)
    requires Enumerates(order, levels) && |levels| <= MAX_CATEGORIES_BY_TRUST_LVL
    requires q.levels == Slots(Levels(levels, order), MAX_CATEGORIES_BY_TRUST_LVL, Level([], 0))
    requires Covered(Level([], 0), q)
    ensures KeepsEmptyLevel(map[], levels, q)
  {
    if [] !in q.locked && q.minTrustLevel < 0 {
      var m :| m in q.levels && m.category == [] && m.trust >= 0;
      LevelSlot(levels, order, m);
    }
  }

  lemma FewerKeys(g: map<Str, int>, f: map<Str, int>)
    ensures |g| <= |g + f|
  {
    SubsetSize(g.Keys, (g + f).Keys);
  }

  lemma {:induction false} SubsetSize<T>(a: set<T>, b: set<T>)
    requires a <= b
    ensures |a| <= |b|
  {
    if a == {} {
    } else {
      var x :| x in a;
      SubsetSize(a - {x}, b - {x});
    }
  }

  /** A section that only blocks more. */
  ghost predicate OnlyBlocks(cfg: Config, id: nat) {
    var g, f := cfg.global, Section(cfg, id);
    && AddsNoAllows(cfg, id)
    && Setting(g.minTrustLevel, f.minTrustLevel) >= Setting(g.minTrustLevel, None)
    && (forall k | k in f.blockByTrust && k in g.blockByTrust :: f.blockByTrust[k] >= g.blockByTrust[k])
  }

  /** What has to be kept, read off the configuration. */
  ghost predicate KeepsEmpty(cfg: Config, id: nat, q: BasePolicy) {
    var g, p := cfg.global, PolicyFor(cfg, 0, id);
    && KeepsEmptyName(g.blockCategories, p.blockCategories)
    && KeepsEmptyLevel(g.blockByTrust, p.blockByTrust, q)
  }

  /** A section that only blocks more, of a policy that fits, makes its worker stricter if and only if it does not use
      up the last unused slot of the categories or the levels while nothing else keeps the empty name out. */
  lemma OnlyBlocksStricterExactly(cfg: Config, id: nat, order0: seq<Str>, order1: seq<Str>, parse: Str -> Ip)
    requires Orders(cfg, id, order0, order1) && OnlyBlocks(cfg, id)
    requires |PolicyFor(cfg, 0, id).blockCategories| <= MAX_CATEGORIES
    requires |PolicyFor(cfg, 0, id).blockByTrust| <= MAX_CATEGORIES_BY_TRUST_LVL
    ensures Stricter(Alone(cfg, order0, parse), Merged(cfg, id, order1, parse))
            <==> KeepsEmpty(cfg, id, Merged(cfg, id, order1, parse))
  {
    hide Alone, Merged, Stricter, Slots, ClipAll, KeepsEmptyName, KeepsEmptyLevel, MergeList, Covered;
    var g, f := cfg.global, Section(cfg, id);
    SectionStricterExactly(cfg, id, order0, order1, parse);
    AloneFields(cfg, order0, parse);
    MergedFields(cfg, id, order1, parse);
    LockedKeptExactly(g.blockCategories, f.blockCategories);
    LevelsCoveredExactly(g.blockByTrust, f.blockByTrust, order0, order1, Merged(cfg, id, order1, parse));
  }

  /** One unused slot in each array is enough; then it holds for classifications with any number of slots. */
  lemma SectionIsStricter(cfg: Config, id: nat, order0: seq<Str>, order1: seq<Str>, parse: Str -> Ip,
                          c: Classification, domain: Str, d: Dest)
    requires Orders(cfg, id, order0, order1) && OnlyBlocks(cfg, id)
    requires |PolicyFor(cfg, 0, id).blockCategories| < MAX_CATEGORIES
    requires |PolicyFor(cfg, 0, id).blockByTrust| < MAX_CATEGORIES_BY_TRUST_LVL
    ensures var alone, merged := Alone(cfg, order0, parse), Merged(cfg, id, order1, parse);
            && (DomainSends(c, merged, domain) ==> DomainSends(c, alone, domain))
            && (IpSends(c, merged, d) ==> IpSends(c, alone, d))
  {
    hide Alone, Merged, Covers, ClassSends, Listed, Stricter;
    var alone, merged := Alone(cfg, order0, parse), Merged(cfg, id, order1, parse);
    OnlyBlocksStricterExactly(cfg, id, order0, order1, parse);
    SectionStricterExactly(cfg, id, order0, order1, parse);
    BlockListsGrow(cfg, id, order0, order1, parse);
    SameAllows(cfg, id, order0, order1, parse);
    if ClassSends(c, merged) {
      CoveredSends(alone, merged, c);
    }
  }

  /** A slot array that holds nothing. */
  const NOTHING_KNOWN := Classification(Fill([], MAX_CATEGORIES), 0)

  /** Without it the section can be laxer: one whose only category fills the array stops the empty name from being
      locked, so a classification that leaves its slots empty is sent although the global rules alone drop it. */
  lemma FullArrayIsLaxer(cfg: Config, id: nat, parse: Str -> Ip, name: Str)
    requires Storable(name, CATEGORY_MAX_LEN - 1)
    requires cfg.global == NO_RULES.(blockCategories := Fill(name, MAX_CATEGORIES - 1))
    requires Section(cfg, id) == NO_RULES.(blockCategories := [name + [1]])
    ensures OnlyBlocks(cfg, id) && Orders(cfg, id, [], [])
    ensures FitsArrays(PolicyFor(cfg, 0, id))
    ensures ClassSends(NOTHING_KNOWN, Merged(cfg, id, [], parse))
    ensures !ClassSends(NOTHING_KNOWN, Alone(cfg, [], parse))
  {
    var g, f := cfg.global, Section(cfg, id);
    assert Absent(f.blockCategories, g.blockCategories) == [name + [1]];
    LockedSlots(g, NO_RULES, NOTHING_KNOWN, parse);
    LockedSlots(g, f, NOTHING_KNOWN, parse);
    assert NOTHING_KNOWN.categories[0] == [];
    assert [] in NOTHING_KNOWN.categories && Locked(g, NO_RULES, []);
    assert forall s | s in g.blockCategories :: s == name;
    assert forall cat | cat in NOTHING_KNOWN.categories :: cat == [];
  }
}
