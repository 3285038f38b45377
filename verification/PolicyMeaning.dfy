/** What the three stages merge, load and scan amount to: a verdict on the rules of the configuration itself. */
module PolicyMeaning {
  import opened Bytes
  import opened Options
  import opened PolicyMerge
  import opened PolicyArrays
  import opened Filter
  import opened ListScan

  /** Verdict on the rules **/

  /** The names locked by either rule set, plus the empty name while the array has an unused slot. */
  ghost predicate Locked(g: Rules, f: Rules, category: Str) {
    || category in g.blockCategories || category in f.blockCategories
    || (category == [] && |MergeList(g.blockCategories, f.blockCategories)| < MAX_CATEGORIES)
  }

  /** The level a category needs: the filter's over the global one; an unused slot asks level 0 of the empty name. */
  ghost predicate Reaches(g: Rules, f: Rules, category: Str, trust: int) {
    var levels := g.blockByTrust + f.blockByTrust;
    && (category in levels ==> trust >= levels[category])
    && (category == [] && |levels| < MAX_CATEGORIES_BY_TRUST_LVL ==> trust >= 0)
  }

  /** The section's minimum counts if it gives one, else the global one, else zero. */
  ghost predicate MeetsMinimum(g: Rules, f: Rules, trust: int) {
    match f.minTrustLevel
    case Some(m) => trust >= m
    case None =>
      match g.minTrustLevel
      case Some(m) => trust >= m
      case None => trust >= 0
  }

  /** The classifier's answer for a target it knows nothing about: trust 0 and the first category "unknown". */
  ghost predicate NothingKnown(c: Classification) {
    c.trust == 0 && c.categories != [] && c.categories[0] == [117, 110, 107, 110, 111, 119, 110]
  }

  ghost predicate RulesSendClass(g: Rules, f: Rules, c: Classification) {
    || NothingKnown(c)
    || (&& MeetsMinimum(g, f, c.trust)
        && forall cat | cat in c.categories :: !Locked(g, f, cat) && Reaches(g, f, cat, c.trust))
  }

  ghost predicate RulesSendDomain(g: Rules, f: Rules, c: Classification, domain: Str) {
    && domain !in g.blockDomains && domain !in f.blockDomains
    && (domain in g.allowDomains || domain in f.allowDomains || RulesSendClass(g, f, c))
  }

  function AsIp(d: Dest): (ip: Ip) {
    match d
    case To4(a) => V4(a)
    case To6(a) => V6(a)
  }

  ghost predicate Names(items: seq<Str>, d: Dest, parse: Str -> Ip) {
    exists s | s in items :: parse(s) == AsIp(d)
  }

  ghost predicate RulesSendIp(g: Rules, f: Rules, c: Classification, d: Dest, parse: Str -> Ip) {
    && !Names(g.blockIps, d, parse) && !Names(f.blockIps, d, parse)
    && (Names(g.allowIps, d, parse) || Names(f.allowIps, d, parse) || RulesSendClass(g, f, c))
  }

  /** Well-formed rules **/

  /** An address that is not a sentinel. */
  ghost predicate Visibles(items: seq<Str>, parse: Str -> Ip) {
    forall s | s in items :: match parse(s)
                             case V4(a) => a != 0
                             case V6(a) => a != [] && a[0] != 0
                             case NotIp => true
  }

  ghost predicate WellFormed(r: Rules, parse: Str -> Ip) {
    && (forall s | s in r.blockCategories :: Storable(s, CATEGORY_MAX_LEN))
    && (forall s | s in r.blockByTrust :: Storable(s, CATEGORY_MAX_LEN))
    && (forall s | s in r.blockDomains :: Storable(s, DOMAIN_MAX_LEN))
    && (forall s | s in r.allowDomains :: Storable(s, DOMAIN_MAX_LEN))
    && Visibles(r.blockIps, parse) && Visibles(r.allowIps, parse)
  }

  /** The merged policy fits the worker's arrays, addresses and trust levels included. */
  ghost predicate WithinCapacity(p: WorkerPolicy, parse: Str -> Ip) {
    && FitsArrays(p)
    && |p.blockByTrust| <= MAX_CATEGORIES_BY_TRUST_LVL
    && |V4s(p.blockIps, parse)| <= MAX_IP && |V4s(p.allowIps, parse)| <= MAX_IP
    && |V6s(p.blockIps, parse)| <= MAX_IP && |V6s(p.allowIps, parse)| <= MAX_IP
  }

  /** Meaning preservation **/

  lemma ListedDomain(g: seq<Str>, f: seq<Str>, domain: Str)
    requires |MergeList(g, f)| <= MAX_DOMAINS
    requires forall s | s in g || s in f :: Storable(s, DOMAIN_MAX_LEN)
    ensures Listed(Slots(ClipAll(MergeList(g, f), DOMAIN_MAX_LEN), MAX_DOMAINS, []), NoName, domain)
            <==> domain in g || domain in f
  {
    MergeListContents(g, f);
    ClipKeeps(MergeList(g, f), DOMAIN_MAX_LEN);
    assert forall i | 0 <= i < |MergeList(g, f)| :: MergeList(g, f)[i] in MergeList(g, f);
    ListedInSlots(MergeList(g, f), MAX_DOMAINS, [], NoName, domain);
  }

  lemma ListedIp(g: seq<Str>, f: seq<Str>, d: Dest, parse: Str -> Ip)
    requires Visibles(g, parse) && Visibles(f, parse)
    requires |V4s(MergeList(g, f), parse)| <= MAX_IP && |V6s(MergeList(g, f), parse)| <= MAX_IP
    ensures (match d
             case To4(a) => Listed(Slots(V4s(MergeList(g, f), parse), MAX_IP, 0), NoIp4, a)
             case To6(a) => Listed(Slots(V6s(MergeList(g, f), parse), MAX_IP, ZERO_IP6), NoIp6, a))
            <==> Names(g, d, parse) || Names(f, d, parse)
  {
    var items := MergeList(g, f);
    MergeListContents(g, f);
    FamilyMembers(items, parse);
    assert Names(items, d, parse) <==> Names(g, d, parse) || Names(f, d, parse);
    match d
    case To4(a) =>
      forall i | 0 <= i < |V4s(items, parse)| ensures !NoIp4(V4s(items, parse)[i]) {
        var s :| s in items && parse(s) == V4(V4s(items, parse)[i]);
      }
      ListedInSlots(V4s(items, parse), MAX_IP, 0, NoIp4, a);
    case To6(a) =>
      forall i | 0 <= i < |V6s(items, parse)| ensures !NoIp6(V6s(items, parse)[i]) {
        var s :| s in items && parse(s) == V6(V6s(items, parse)[i]);
      }
      ListedInSlots(V6s(items, parse), MAX_IP, ZERO_IP6, NoIp6, a);
  }

  lemma LockedSlots(g: Rules, f: Rules, c: Classification, parse: Str -> Ip)
    requires WellFormed(g, parse) && WellFormed(f, parse)
    requires |MergeList(g.blockCategories, f.blockCategories)| <= MAX_CATEGORIES
    ensures var locked :=
              Slots(ClipAll(MergeList(g.blockCategories, f.blockCategories), CATEGORY_MAX_LEN), MAX_CATEGORIES, []);
            SlotsDisjoint(c.categories, locked) <==> forall cat | cat in c.categories :: !Locked(g, f, cat)
  {
    var items := MergeList(g.blockCategories, f.blockCategories);
    MergeListContents(g.blockCategories, f.blockCategories);
    ClipKeeps(items, CATEGORY_MAX_LEN);
    var locked := Slots(items, MAX_CATEGORIES, []);
    forall cat ensures cat in locked <==> Locked(g, f, cat) {
      SlotMember(items, MAX_CATEGORIES, [], cat);
    }
    DisjointMembers(c.categories, locked);
  }

  lemma DisjointMembers(got: seq<Str>, locked: seq<Str>)
    ensures SlotsDisjoint(got, locked) <==> forall cat | cat in got :: cat !in locked
  {
    if SlotsDisjoint(got, locked) {
      forall cat | cat in got ensures cat !in locked {
        var i :| 0 <= i < |got| && got[i] == cat;
      }
    } else {
      var i, j :| 0 <= i < |got| && 0 <= j < |locked| && got[i] == locked[j];
      assert got[i] in got && got[i] in locked;
    }
  }

  lemma ReachedMembers(c: Classification, slots: seq<Level>)
    ensures LevelsReached(c, slots) <==> forall l | l in slots && l.category in c.categories :: c.trust >= l.trust
  {
    if LevelsReached(c, slots) {
      forall l | l in slots && l.category in c.categories ensures c.trust >= l.trust {
        var i :| 0 <= i < |slots| && slots[i] == l;
        var j :| 0 <= j < |c.categories| && c.categories[j] == l.category;
      }
    } else {
      var i, j :| 0 <= i < |slots| && 0 <= j < |c.categories| && c.categories[j] == slots[i].category
                  && c.trust < slots[i].trust;
      assert slots[i] in slots && c.categories[j] in c.categories;
    }
  }

  lemma {:induction false} OrderSize(order: seq<Str>, keys: set<Str>)
    requires forall k :: k in order <==> k in keys
    requires forall i, j | 0 <= i < j < |order| :: order[i] != order[j]
    ensures |order| == |keys|
  {
    if order == [] {
      assert keys == {};
    } else {
      var k, rest := order[0], order[1..];
      assert order == [k] + rest;
      assert k !in rest;
      OrderSize(rest, keys - {k});
    }
  }

  /** A slot holding level `t` of category `cat`, however the map was iterated. */
  lemma LevelSlot(levels: map<Str, int>, order: seq<Str>, l: Level)
    requires Enumerates(order, levels) && |levels| <= MAX_CATEGORIES_BY_TRUST_LVL
    ensures l in Slots(Levels(levels, order), MAX_CATEGORIES_BY_TRUST_LVL, Level([], 0))
            <==> (exists k | k in levels :: l == Level(Clipped(k, CATEGORY_MAX_LEN), levels[k]))
                 || (l == Level([], 0) && |levels| < MAX_CATEGORIES_BY_TRUST_LVL)
  {
    OrderSize(order, levels.Keys);
    SlotMember(Levels(levels, order), MAX_CATEGORIES_BY_TRUST_LVL, Level([], 0), l);
    if l in Levels(levels, order) {
      var i :| 0 <= i < |order| && Levels(levels, order)[i] == l;
      assert order[i] in levels;
    }
    if exists k | k in levels :: l == Level(Clipped(k, CATEGORY_MAX_LEN), levels[k]) {
      var k :| k in levels && l == Level(Clipped(k, CATEGORY_MAX_LEN), levels[k]);
      var i :| 0 <= i < |order| && order[i] == k;
      assert Levels(levels, order)[i] == l;
    }
  }

  lemma LevelSlots(g: Rules, f: Rules, order: seq<Str>, c: Classification, parse: Str -> Ip)
    requires WellFormed(g, parse) && WellFormed(f, parse)
    requires Enumerates(order, g.blockByTrust + f.blockByTrust)
    requires |g.blockByTrust + f.blockByTrust| <= MAX_CATEGORIES_BY_TRUST_LVL
    ensures var levels := Levels(g.blockByTrust + f.blockByTrust, order);
            var slots := Slots(levels, MAX_CATEGORIES_BY_TRUST_LVL, Level([], 0));
            LevelsReached(c, slots) <==> forall cat | cat in c.categories :: Reaches(g, f, cat, c.trust)
  {
    var levels := g.blockByTrust + f.blockByTrust;
    var slots := Slots(Levels(levels, order), MAX_CATEGORIES_BY_TRUST_LVL, Level([], 0));
    ReachedMembers(c, slots);
    forall k | k in levels ensures Clipped(k, CATEGORY_MAX_LEN) == k {
      CStrOfPlain(k);
    }
    if LevelsReached(c, slots) {
      forall cat | cat in c.categories ensures Reaches(g, f, cat, c.trust) {
        if cat in levels {
          LevelSlot(levels, order, Level(cat, levels[cat]));
        }
        LevelSlot(levels, order, Level([], 0));
      }
    }
    if forall cat | cat in c.categories :: Reaches(g, f, cat, c.trust) {
      forall l | l in slots && l.category in c.categories ensures c.trust >= l.trust {
        LevelSlot(levels, order, l);
        assert Reaches(g, f, l.category, c.trust);
      }
    }
  }

  /** Merging, loading and scanning a well-formed configuration decides every domain as its rules read,
      whatever order the trust levels were iterated in. */
  lemma DomainMeaning(cfg: Config, version: nat, id: nat, order: seq<Str>, parse: Str -> Ip,
                      c: Classification, domain: Str)
    requires WellFormed(cfg.global, parse) && WellFormed(Section(cfg, id), parse)
    requires WithinCapacity(PolicyFor(cfg, version, id), parse)
    requires Enumerates(order, PolicyFor(cfg, version, id).blockByTrust)
    ensures DomainSends(c, Loaded(PolicyFor(cfg, version, id), order, parse), domain)
            <==> RulesSendDomain(cfg.global, Section(cfg, id), c, domain)
  {
    var g, f := cfg.global, Section(cfg, id);
    ListedDomain(g.blockDomains, f.blockDomains, domain);
    ListedDomain(g.allowDomains, f.allowDomains, domain);
    ClassMeaning(cfg, version, id, order, parse, c);
  }

  /** The same for destination addresses of both families. */
  lemma IpMeaning(cfg: Config, version: nat, id: nat, order: seq<Str>, parse: Str -> Ip, c: Classification, d: Dest)
    requires WellFormed(cfg.global, parse) && WellFormed(Section(cfg, id), parse)
    requires WithinCapacity(PolicyFor(cfg, version, id), parse)
    requires Enumerates(order, PolicyFor(cfg, version, id).blockByTrust)
    ensures IpSends(c, Loaded(PolicyFor(cfg, version, id), order, parse), d)
            <==> RulesSendIp(cfg.global, Section(cfg, id), c, d, parse)
  {
    var g, f := cfg.global, Section(cfg, id);
    ListedIp(g.blockIps, f.blockIps, d, parse);
    ListedIp(g.allowIps, f.allowIps, d, parse);
    ClassMeaning(cfg, version, id, order, parse, c);
  }

  lemma ClassMeaning(cfg: Config, version: nat, id: nat, order: seq<Str>, parse: Str -> Ip, c: Classification)
    requires WellFormed(cfg.global, parse) && WellFormed(Section(cfg, id), parse)
    requires WithinCapacity(PolicyFor(cfg, version, id), parse)
    requires Enumerates(order, PolicyFor(cfg, version, id).blockByTrust)
    ensures ClassSends(c, Loaded(PolicyFor(cfg, version, id), order, parse))
            <==> RulesSendClass(cfg.global, Section(cfg, id), c)
  {
    hide Slots, ClipAll, Levels, SlotsDisjoint, LevelsReached, Locked, Reaches, MergeList, V4s, V6s, WellFormed;
    LockedSlots(cfg.global, Section(cfg, id), c, parse);
    LevelSlots(cfg.global, Section(cfg, id), order, c, parse);
  }
}
