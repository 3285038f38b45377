/** The controller's policy manager: one TOML configuration holds global rules and one optional section per filter;
    the policy of a worker is the global rules with its own section merged in. */
module PolicyMerge {
  import opened Bytes
  import opened Options

  /** Settings the controller does not know. Not every TOML value has a counterpart in the policy message. */
  datatype Value = Convertible(text: Str) | Unconvertible
  type Extra = map<Str, Value>

  datatype Rules = Rules(
    blockCategories: seq<Str>,
    blockByTrust: map<Str, int>,
    blockDomains: seq<Str>,
    allowDomains: seq<Str>,
    blockIps: seq<Str>,
    allowIps: seq<Str>,
    minTrustLevel: Option<I32>,
    ttlIp: Option<I32>,
    ttlDomain: Option<I32>,
    extra: Extra)

  /** Filter sections are found by worker id. */
  datatype Config = Config(global: Rules, filters: map<nat, Rules>)

  datatype WorkerPolicy = WorkerPolicy(
    blockCategories: seq<Str>,
    blockByTrust: map<Str, int>,
    blockDomains: seq<Str>,
    allowDomains: seq<Str>,
    blockIps: seq<Str>,
    allowIps: seq<Str>,
    minTrustLevel: I32,
    ttlIp: I32,
    ttlDomain: I32,
    configVersion: nat,
    extra: Option<Extra>)

  const NO_RULES := Rules([], map[], [], [], [], [], None, None, None, map[])
  const EMPTY_CONFIG := Config(NO_RULES, map[])

  /** The section of a worker that has none adds nothing. */
  function Section(c: Config, id: nat): (r: Rules) {
    if id in c.filters then c.filters[id] else NO_RULES
  }

  /** The items of `extra` that do not occur in `have`, in their order. */
  function Absent(extra: seq<Str>, have: seq<Str>): (r: seq<Str>) {
    if extra == [] then []
    else (if extra[0] in have then [] else [extra[0]]) + Absent(extra[1..], have)
  }

  function MergeList(global: seq<Str>, filter: seq<Str>): (r: seq<Str>) {
    global + Absent(filter, global)
  }

  /** A setting of the section wins over the global one; zero when neither gives it. */
  function Setting(global: Option<I32>, filter: Option<I32>): (r: I32) {
    if filter.Some? then filter.value else if global.Some? then global.value else 0
  }

  /** All of the settings, or none if one of them cannot be converted. */
  function Converted(e: Extra): (r: Option<Extra>) {
    if e == map[] || Unconvertible in e.Values then None else Some(e)
  }

  function MergeRules(g: Rules, f: Rules, version: nat, extra: Option<Extra>): (p: WorkerPolicy) {
    WorkerPolicy(
      MergeList(g.blockCategories, f.blockCategories),
      g.blockByTrust + f.blockByTrust,
      MergeList(g.blockDomains, f.blockDomains),
      MergeList(g.allowDomains, f.allowDomains),
      MergeList(g.blockIps, f.blockIps),
      MergeList(g.allowIps, f.allowIps),
      Setting(g.minTrustLevel, f.minTrustLevel),
      Setting(g.ttlIp, f.ttlIp),
      Setting(g.ttlDomain, f.ttlDomain),
      version,
      extra)
  }

  /** Unknown settings, global ones included, only reach a worker that has a section. */
  function ExtraFor(c: Config, id: nat): (r: Option<Extra>) {
    if id !in c.filters then None
    else Converted(if c.filters[id].extra != map[] then c.filters[id].extra else c.global.extra)
  }

  function PolicyFor(c: Config, version: nat, id: nat): (p: WorkerPolicy) {
    MergeRules(c.global, Section(c, id), version, ExtraFor(c, id))
  }

  /** What a worker gets **/

  /** The section's value if it gives one, else the global one if there is one, else zero. */
  ghost predicate Prefers(value: I32, section: Option<I32>, global: Option<I32>) {
    match section
    case Some(v) => value == v
    case None =>
      match global
      case Some(v) => value == v
      case None => value == 0
  }

  /** The worker's own section, and nobody else's, wins over the global settings; unknown settings come from the section
      or else from the global rules, and only to a worker that has a section. */
  lemma PolicySettings(c: Config, version: nat, id: nat)
    ensures var p, g := PolicyFor(c, version, id), c.global;
            && p.configVersion == version
            && (id in c.filters ==>
                  var f := c.filters[id];
                  && Prefers(p.minTrustLevel, f.minTrustLevel, g.minTrustLevel)
                  && Prefers(p.ttlIp, f.ttlIp, g.ttlIp)
                  && Prefers(p.ttlDomain, f.ttlDomain, g.ttlDomain)
                  && forall e: Extra :: p.extra == Some(e) <==>
                                 && e != map[] && (forall k | k in e :: e[k].Convertible?)
                                 && e == if f.extra != map[] then f.extra else g.extra)
            && (id !in c.filters ==>
                  && Prefers(p.minTrustLevel, None, g.minTrustLevel)
                  && Prefers(p.ttlIp, None, g.ttlIp)
                  && Prefers(p.ttlDomain, None, g.ttlDomain)
                  && p.extra == None)
  {
    if id in c.filters {
      var e := if c.filters[id].extra != map[] then c.filters[id].extra else c.global.extra;
      if k :| k in e && e[k] == Unconvertible {
        assert Unconvertible in e.Values;
      }
    }
  }

  /** Every list and the levels hold what the global rules or the worker's own section hold; a level of the section
      wins. */
  lemma PolicyLists(c: Config, version: nat, id: nat)
    ensures var p, g := PolicyFor(c, version, id), c.global;
            && (id in c.filters ==>
                  var f := c.filters[id];
                  && Unites(p.blockCategories, g.blockCategories, f.blockCategories)
                  && Unites(p.blockDomains, g.blockDomains, f.blockDomains)
                  && Unites(p.allowDomains, g.allowDomains, f.allowDomains)
                  && Unites(p.blockIps, g.blockIps, f.blockIps)
                  && Unites(p.allowIps, g.allowIps, f.allowIps)
                  && (forall k :: k in p.blockByTrust <==> k in g.blockByTrust || k in f.blockByTrust)
                  && (forall k | k in p.blockByTrust ::
                        p.blockByTrust[k] == if k in f.blockByTrust then f.blockByTrust[k] else g.blockByTrust[k]))
            && (id !in c.filters ==>
                  && p.blockCategories == g.blockCategories && p.blockByTrust == g.blockByTrust
                  && p.blockDomains == g.blockDomains && p.allowDomains == g.allowDomains
                  && p.blockIps == g.blockIps && p.allowIps == g.allowIps)
  {
    var g, f := c.global, Section(c, id);
    MergeListContents(g.blockCategories, f.blockCategories);
    MergeListContents(g.blockDomains, f.blockDomains);
    MergeListContents(g.allowDomains, f.allowDomains);
    MergeListContents(g.blockIps, f.blockIps);
    MergeListContents(g.allowIps, f.allowIps);
  }

  ghost predicate Unites(merged: seq<Str>, global: seq<Str>, filter: seq<Str>) {
    global <= merged && forall x :: x in merged <==> x in global || x in filter
  }

  /** Merge algebra **/

  /** Merging never loses or reorders global items, and adds each filter item as often as the filter lists it,
      unless it is already global. */
  lemma {:induction false} MergeListContents(global: seq<Str>, filter: seq<Str>)
    ensures global <= MergeList(global, filter)
    ensures forall x :: x in MergeList(global, filter) <==> x in global || x in filter
    ensures forall x :: multiset(Absent(filter, global))[x] == if x in global then 0 else multiset(filter)[x]
  {
    if filter == [] {
    } else {
      MergeListContents(global, filter[1..]);
      assert filter == [filter[0]] + filter[1..];
    }
  }

  /** The added items keep the filter's order: taking what is absent distributes over concatenation. */
  lemma {:induction false} AbsentConcat(a: seq<Str>, b: seq<Str>, have: seq<Str>)
    ensures Absent(a + b, have) == Absent(a, have) + Absent(b, have)
  {
    if a == [] {
      assert a + b == b;
    } else {
      assert (a + b)[1..] == a[1..] + b;
      AbsentConcat(a[1..], b, have);
    }
  }

  lemma {:induction false} AbsentOfKnown(extra: seq<Str>, have: seq<Str>)
    requires forall x | x in extra :: x in have
    ensures Absent(extra, have) == []
  {
    if extra == [] {
    } else {
      AbsentOfKnown(extra[1..], have);
    }
  }

  lemma MergeListTwice(global: seq<Str>, filter: seq<Str>)
    ensures MergeList(MergeList(global, filter), filter) == MergeList(global, filter)
  {
    MergeListContents(global, filter);
    AbsentOfKnown(filter, MergeList(global, filter));
  }

  /** A worker policy read as rules again. */
  function AsRules(p: WorkerPolicy): (r: Rules) {
    Rules(p.blockCategories, p.blockByTrust, p.blockDomains, p.allowDomains, p.blockIps, p.allowIps,
          Some(p.minTrustLevel), Some(p.ttlIp), Some(p.ttlDomain),
          if p.extra.Some? then p.extra.value else map[])
  }

  /** Merging the same section into the merged policy adds nothing, for every configuration and worker. */
  lemma RemergeAddsNothing(c: Config, version: nat, id: nat)
    ensures var p := PolicyFor(c, version, id);
            PolicyFor(c.(global := AsRules(p)), version, id) == p
  {
    var g, f := c.global, Section(c, id);
    MergeListTwice(g.blockCategories, f.blockCategories);
    MergeListTwice(g.blockDomains, f.blockDomains);
    MergeListTwice(g.allowDomains, f.allowDomains);
    MergeListTwice(g.blockIps, f.blockIps);
    MergeListTwice(g.allowIps, f.allowIps);
  }
}
