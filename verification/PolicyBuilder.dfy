/** The controller's policy manager on the heap: configuration and policies hold slices and maps that could be shared,
    and the policy handed out shares none of them with the stored configuration. */
module PolicyBuilder {
  import opened Bytes
  import opened Options
  import opened PolicyMerge

  /** A prefix of an array; the rest of the array is spare capacity. */
  datatype Slice = Slice(arr: array<Str>, len: nat) {
    predicate Valid() {
      len <= arr.Length
    }

    function Items(): (s: seq<Str>)
      requires Valid()
      reads arr
    {
      arr[..len]
    }
  }

  /** A map that is passed by reference. */
  class LevelMap {
    var m: map<Str, int>

    constructor ()
      ensures m == map[]
    {
      m := map[];
    }
  }

  datatype RulesRef = RulesRef(
    blockCategories: Slice,
    blockByTrust: LevelMap,
    blockDomains: Slice,
    allowDomains: Slice,
    blockIps: Slice,
    allowIps: Slice,
    minTrustLevel: Option<I32>,
    ttlIp: Option<I32>,
    ttlDomain: Option<I32>,
    extra: Extra)
  {
    predicate Valid() {
      blockCategories.Valid() && blockDomains.Valid() && allowDomains.Valid() && blockIps.Valid() && allowIps.Valid()
    }

    function Owned(): set<object> {
      {blockCategories.arr as object, blockByTrust as object, blockDomains.arr as object, allowDomains.arr as object,
       blockIps.arr as object, allowIps.arr as object}
    }

    ghost function View(): Rules
      requires Valid()
      reads Owned()
    {
      Rules(blockCategories.Items(), blockByTrust.m, blockDomains.Items(), allowDomains.Items(), blockIps.Items(),
            allowIps.Items(), minTrustLevel, ttlIp, ttlDomain, extra)
    }
  }

  datatype ConfigRef = ConfigRef(global: RulesRef, filters: map<nat, RulesRef>) {
    predicate Valid() {
      global.Valid() && forall id | id in filters :: filters[id].Valid()
    }

    ghost function Owned(): set<object> {
      global.Owned() + set id, o | id in filters && o in filters[id].Owned() :: o
    }

    ghost function View(): Config
      requires Valid()
      reads Owned()
    {
      Config(global.View(), map id | id in filters :: filters[id].View())
    }
  }

  datatype PolicyRef = PolicyRef(
    blockCategories: Slice,
    blockByTrust: LevelMap,
    blockDomains: Slice,
    allowDomains: Slice,
    blockIps: Slice,
    allowIps: Slice,
    minTrustLevel: I32,
    ttlIp: I32,
    ttlDomain: I32,
    configVersion: nat,
    extra: Option<Extra>)
  {
    predicate Valid() {
      blockCategories.Valid() && blockDomains.Valid() && allowDomains.Valid() && blockIps.Valid() && allowIps.Valid()
    }

    function Owned(): set<object> {
      {blockCategories.arr as object, blockByTrust as object, blockDomains.arr as object, allowDomains.arr as object,
       blockIps.arr as object, allowIps.arr as object}
    }

    /** What the policy marshals to. */
    function View(): WorkerPolicy
      requires Valid()
      reads Owned()
    {
      WorkerPolicy(blockCategories.Items(), blockByTrust.m, blockDomains.Items(), allowDomains.Items(),
                   blockIps.Items(), allowIps.Items(), minTrustLevel, ttlIp, ttlDomain, configVersion, extra)
    }
  }

  /** Slices and maps **/

  method EmptySlice() returns (s: Slice)
    ensures s.Valid() && fresh(s.arr) && s.Items() == []
  {
    var a := new Str[0];
    s := Slice(a, 0);
  }

  /** A copy with no spare capacity. */
  method CopyOf(s: Slice) returns (t: Slice)
    requires s.Valid()
    ensures t.Valid() && fresh(t.arr) && t.Items() == s.Items()
  {
    var a := new Str[s.len];
    for i := 0 to s.len
      invariant a[..i] == s.arr[..i]
    {
      a[i] := s.arr[i];
    }
    t := Slice(a, s.len);
  }

  /** Writes into the spare capacity if there is some, and moves to a larger array otherwise. */
  method Append(s: Slice, x: Str) returns (t: Slice)
    requires s.Valid()
    modifies s.arr
    ensures t.Valid() && (t.arr == s.arr || fresh(t.arr))
    ensures t.Items() == old(s.Items()) + [x]
  {
    if s.len < s.arr.Length {
      s.arr[s.len] := x;
      t := Slice(s.arr, s.len + 1);
    } else {
      var a := new Str[2 * s.len + 1];
      for i := 0 to s.len
        invariant a[..i] == s.arr[..i]
        invariant s.arr[..] == old(s.arr[..])
      {
        a[i] := s.arr[i];
      }
      a[s.len] := x;
      t := Slice(a, s.len + 1);
    }
  }

  /** Appends what `filter` adds; membership is looked up in the items that were there before. */
  method AppendAbsent(to: Slice, filter: Slice) returns (t: Slice)
    requires to.Valid() && filter.Valid() && to.arr != filter.arr
    modifies to.arr
    ensures t.Valid() && (t.arr == to.arr || fresh(t.arr))
    ensures t.Items() == MergeList(old(to.Items()), old(filter.Items()))
  {
    t := to;
    ghost var global, items := to.Items(), filter.Items();
    if filter.len > 0 {
      var existing: set<Str> := {};
      for i := 0 to to.len
        invariant forall x :: x in existing <==> x in global[..i]
      {
        existing := existing + {to.arr[i]};
      }
      assert global[..to.len] == global;
      assert items[0..] == items;
      for i := 0 to filter.len
        invariant t.Valid() && t.arr != filter.arr && (t.arr == to.arr || fresh(t.arr))
        invariant filter.Items() == items
        invariant t.Items() + Absent(items[i..], global) == MergeList(global, items)
      {
        assert items[i..][1..] == items[i + 1..];
        if filter.arr[i] !in existing {
          t := Append(t, filter.arr[i]);
        }
      }
    }
  }

  /** Assigns every pair of `from`, in whatever order the map yields them. */
  method Override(to: LevelMap, from: LevelMap)
    requires to != from
    modifies to
    ensures to.m == old(to.m) + from.m
  {
    var rest := from.m.Keys;
    while rest != {}
      invariant rest <= from.m.Keys
      invariant to.m == old(to.m) + (map k | k in from.m.Keys - rest :: from.m[k])
    {
      var k :| k in rest;
      to.m := to.m[k := from.m[k]];
      rest := rest - {k};
    }
  }

  method MergedCopy(global: Slice, filter: Slice) returns (t: Slice)
    requires global.Valid() && filter.Valid()
    ensures t.Valid() && fresh(t.arr) && t.Items() == MergeList(global.Items(), filter.Items())
  {
    t := CopyOf(global);
    t := AppendAbsent(t, filter);
  }

  method MergedLevels(global: LevelMap, filter: Option<LevelMap>) returns (t: LevelMap)
    ensures fresh(t) && t.m == global.m + if filter.Some? then filter.value.m else map[]
  {
    t := new LevelMap();
    Override(t, global);
    if filter.Some? {
      Override(t, filter.value);
    }
  }

  /** The global setting is put in first, then the section's over it. */
  method Chosen(global: Option<I32>, filter: Option<I32>) returns (v: I32)
    ensures v == Setting(global, filter)
  {
    v := 0;
    if global.Some? { v := global.value; }
    if filter.Some? { v := filter.value; }
  }

  /** The manager **/

  class PolicyManager {
    var config: ConfigRef
    var version: nat

    constructor ()
      ensures config.Valid() && fresh(config.Owned()) && config.View() == EMPTY_CONFIG && version == 0
    {
      var a := EmptySlice();
      var levels := new LevelMap();
      var b := EmptySlice();
      var c := EmptySlice();
      var d := EmptySlice();
      var e := EmptySlice();
      config, version := ConfigRef(RulesRef(a, levels, b, c, d, e, None, None, None, map[]), map[]), 0;
    }

    /** Everything the policy refers to is its own: it shares no slice and no map with the stored configuration, which
        stays as it is. */
    method GetWorkerPolicy(id: nat) returns (p: PolicyRef)
      requires config.Valid()
      ensures p.Valid() && fresh(p.Owned())
      ensures config == old(config) && config.View() == old(config.View())
      ensures p.View() == PolicyFor(config.View(), version, id)
    {
      hide MergeRules, Converted;
      if id in config.filters {
        var g, f := config.global, config.filters[id];
        p := MergedPolicy(g, f, version, Converted(if f.extra != map[] then f.extra else g.extra));
      } else {
        p := CopiedPolicy(config.global, version);
      }
    }

    /** `parsed` is what the TOML parser made of the new configuration; a failed parse changes nothing. */
    method UpdateConfig(parsed: Option<ConfigRef>) returns (ok: bool)
      modifies this
      ensures ok == parsed.Some?
      ensures ok ==> config == parsed.value && version == old(version) + 1
      ensures !ok ==> config == old(config) && version == old(version)
    {
      ok := parsed.Some?;
      if ok {
        config := parsed.value;
        version := version + 1;
      }
    }
  }

  /** The global rules alone. */
  method CopiedPolicy(g: RulesRef, version: nat) returns (p: PolicyRef)
    requires g.Valid()
    ensures p.Valid() && fresh(p.Owned())
    ensures p.View() == MergeRules(g.View(), NO_RULES, version, None)
  {
    var blockCategories := CopyOf(g.blockCategories);
    var blockByTrust := MergedLevels(g.blockByTrust, None);
    var blockDomains := CopyOf(g.blockDomains);
    var allowDomains := CopyOf(g.allowDomains);
    var blockIps := CopyOf(g.blockIps);
    var allowIps := CopyOf(g.allowIps);
    var minTrustLevel := Chosen(g.minTrustLevel, None);
    var ttlIp := Chosen(g.ttlIp, None);
    var ttlDomain := Chosen(g.ttlDomain, None);
    p := PolicyRef(blockCategories, blockByTrust, blockDomains, allowDomains, blockIps, allowIps,
                   minTrustLevel, ttlIp, ttlDomain, version, None);
  }

  /** The global rules with a section merged in. */
  method MergedPolicy(g: RulesRef, f: RulesRef, version: nat, extra: Option<Extra>) returns (p: PolicyRef)
    requires g.Valid() && f.Valid()
    ensures p.Valid() && fresh(p.Owned())
    ensures p.View() == MergeRules(g.View(), f.View(), version, extra)
  {
    hide MergeList;
    var blockCategories := MergedCopy(g.blockCategories, f.blockCategories);
    var blockByTrust := MergedLevels(g.blockByTrust, Some(f.blockByTrust));
    var blockDomains := MergedCopy(g.blockDomains, f.blockDomains);
    var allowDomains := MergedCopy(g.allowDomains, f.allowDomains);
    var blockIps := MergedCopy(g.blockIps, f.blockIps);
    var allowIps := MergedCopy(g.allowIps, f.allowIps);
    var minTrustLevel := Chosen(g.minTrustLevel, f.minTrustLevel);
    var ttlIp := Chosen(g.ttlIp, f.ttlIp);
    var ttlDomain := Chosen(g.ttlDomain, f.ttlDomain);
    p := PolicyRef(blockCategories, blockByTrust, blockDomains, allowDomains, blockIps, allowIps,
                   minTrustLevel, ttlIp, ttlDomain, version, extra);
  }
}
