/** The decision caches. The domain cache and the address cache follow the same protocol, so one model serves both:
    a hash table from keys to decision nodes on an explicit heap, where a node owns the block holding its key copy.
    Every operation on the table runs under the cache's spinlock. */
module NodeCache {
  import opened Bytes
  import opened Expiry

  type Ptr = nat

  /** Table keys: the zero-padded domain field, or an address. */
  datatype Key = DomainKey(buf: Str) | Ip4Key(a4: nat) | Ip6Key(a6: Str)

  /** `keyBlock` is the block the node's copy of `key` was allocated in. */
  datatype Node = Node(key: Key, keyBlock: Ptr, send: bool, trust: I32, timestamp: U64, ttl: U32)

  /** `nodes` and `keyBlocks` are the live blocks; `freed` counts every call that freed a block; `abandoned` are live
      nodes no table refers to any more. Blocks are numbered in the order they are allocated. */
  datatype Cache = Cache(
    table: map<Key, Ptr>,
    nodes: map<Ptr, Node>,
    keyBlocks: set<Ptr>,
    next: Ptr,
    freed: multiset<Ptr>,
    abandoned: set<Ptr>)

  const EMPTY_CACHE := Cache(map[], map[], {}, 0, multiset{}, {})

  /** Invariants **/

  /** Every live node owns a live key block of its own. */
  ghost predicate OwnsKeys(c: Cache) {
    && (forall p | p in c.nodes :: c.nodes[p].keyBlock in c.keyBlocks)
    && (forall p, q | p in c.nodes && q in c.nodes && p != q :: c.nodes[p].keyBlock != c.nodes[q].keyBlock)
  }

  /** Table entries are live and lie under their own key, so no two are the same node. */
  ghost predicate TableLive(c: Cache) {
    forall k | k in c.table :: c.table[k] in c.nodes && c.nodes[c.table[k]].key == k
  }

  /** A live node is either the table's entry for its key, or abandoned. */
  ghost predicate Partitioned(c: Cache) {
    && c.abandoned <= c.nodes.Keys
    && (forall p | p in c.nodes ::
          p in c.abandoned <==> !(c.nodes[p].key in c.table && c.table[c.nodes[p].key] == p))
  }

  /** No block is freed twice, and no freed block is live. */
  ghost predicate FreedOnce(c: Cache) {
    && (forall p :: c.freed[p] <= 1)
    && (forall p | p in c.freed :: p < c.next && p !in c.nodes && p !in c.keyBlocks)
    && (forall p | p in c.nodes :: p < c.next && p !in c.keyBlocks)
    && (forall p | p in c.keyBlocks :: p < c.next)
  }

  /** Allocated blocks are freed, or belong to a table entry, or were abandoned; node and key go together. */
  ghost predicate Accounted(c: Cache) {
    && |c.keyBlocks| == |c.nodes.Keys| == |c.table.Keys| + |c.abandoned|
    && c.next == |c.freed| + 2 * (|c.table.Keys| + |c.abandoned|)
  }

  ghost predicate Ok(c: Cache) {
    OwnsKeys(c) && TableLive(c) && Partitioned(c) && FreedOnce(c) && Accounted(c)
  }

  /** Operations **/

  /** How storing a node can end: out of memory for the node, for the key, refused by the table, or stored. */
  datatype StoreOutcome = NoNode | NoKey | Refused | Stored

  /** What a node is filled with. */
  datatype Decision = Decision(send: bool, trust: I32, timestamp: U64, ttl: U32)

  /** Allocates a node and a key block, and enters them unless one of the steps fails; what was allocated before a
      failure is freed. An entry that was under the key stays allocated but is no longer referred to. */
  function Store(c: Cache, key: Key, d: Decision, o: StoreOutcome): (c': Cache) {
    match o
    case NoNode => c
    case NoKey => c.(next := c.next + 1, freed := c.freed + multiset{c.next})
    case Refused => c.(next := c.next + 2, freed := c.freed + multiset{c.next, c.next + 1})
    case Stored =>
      Cache(c.table[key := c.next],
            c.nodes[c.next := Node(key, c.next + 1, d.send, d.trust, d.timestamp, d.ttl)],
            c.keyBlocks + {c.next + 1},
            c.next + 2,
            c.freed,
            if key in c.table then c.abandoned + {c.table[key]} else c.abandoned)
  }

  datatype Found = Hit(node: Ptr) | Miss | Failed

  /** Frees the node under `key` with its key block. */
  function Evict(c: Cache, key: Key): (c': Cache)
    requires key in c.table && c.table[key] in c.nodes
  {
    var p := c.table[key];
    var kb := c.nodes[p].keyBlock;
    c.(table := c.table - {key}, nodes := c.nodes - {p}, keyBlocks := c.keyBlocks - {kb},
       freed := c.freed + multiset{p, kb})
  }

  /** Looks a key up. An expired entry counts as a miss and is evicted, unless deleting it from the table fails.
      `failing` means the table reported an error other than a missing key. */
  function Lookup(c: Cache, key: Key, now: U64, hz: U64, failing: bool, deletes: bool): (r: (Cache, Found))
    requires hz > 0 && Ok(c)
  {
    if failing then (c, Failed)
    else if key !in c.table then (c, Miss)
    else
      var p := c.table[key];
      if !Expired(now, c.nodes[p].timestamp, c.nodes[p].ttl, hz) then (c, Hit(p))
      else if deletes then (Evict(c, key), Miss)
      else (c, Miss)
  }

  /** Resetting the table forgets its entries without freeing them. */
  function Clear(c: Cache): (c': Cache) {
    c.(table := map[], abandoned := c.nodes.Keys)
  }

  /** Freeing the cache frees the entries with their keys, one after the other. */
  ghost function FreeAll(c: Cache): (c': Cache)
    requires TableLive(c)
    decreases |c.table.Keys|
  {
    if c.table.Keys == {} then c
    else
      var k :| k in c.table.Keys;
      assert Evict(c, k).table.Keys == c.table.Keys - {k};
      EvictKeepsLive(c, k);
      FreeAll(Evict(c, k))
  }

  /** The invariants hold after every operation **/

  lemma OkIsLive(c: Cache)
    requires Ok(c)
    ensures TableLive(c)
  {
  }

  lemma StoreOk(c: Cache, key: Key, d: Decision, o: StoreOutcome)
    requires Ok(c)
    ensures Ok(Store(c, key, d, o))
  {
    hide OwnsKeys, FreedOnce, TableLive, Partitioned, Accounted, Store;
    if !o.Stored? {
      FailedStoreOk(c, key, d, o);
    } else {
      NextIsFresh(c);
      EntryIsNotAbandoned(c, key);
      StoredOwns(c, key, d);
      StoredFreedOnce(c, key, d);
      StoredTable(c, key, d);
      StoredCounts(c, key, d);
    }
  }

  lemma FailedStoreOk(c: Cache, key: Key, d: Decision, o: StoreOutcome)
    requires Ok(c) && !o.Stored?
    ensures Ok(Store(c, key, d, o))
  {
    hide FreedOnce, Accounted, Store;
    FailedStoreFrees(c, key, d, o);
    FailedStoreKeeps(c, key, d, o);
  }

  lemma FailedStoreFrees(c: Cache, key: Key, d: Decision, o: StoreOutcome)
    requires FreedOnce(c) && Accounted(c) && !o.Stored?
    ensures FreedOnce(Store(c, key, d, o)) && Accounted(Store(c, key, d, o))
  {
  }

  lemma FailedStoreKeeps(c: Cache, key: Key, d: Decision, o: StoreOutcome)
    requires !o.Stored?
    ensures var s := Store(c, key, d, o);
            s.table == c.table && s.nodes == c.nodes && s.keyBlocks == c.keyBlocks && s.abandoned == c.abandoned
  {
  }

  lemma EntryIsNotAbandoned(c: Cache, key: Key)
    requires TableLive(c) && Partitioned(c)
    ensures key in c.table ==> c.table[key] !in c.abandoned
  {
    assert key in c.table ==> c.nodes[c.table[key]].key == key;
  }

  lemma StoredOwns(c: Cache, key: Key, d: Decision)
    requires OwnsKeys(c) && FreedOnce(c)
    ensures OwnsKeys(Store(c, key, d, Stored))
  {
  }

  lemma StoredFreedOnce(c: Cache, key: Key, d: Decision)
    requires FreedOnce(c)
    ensures FreedOnce(Store(c, key, d, Stored))
  {
  }

  lemma StoredTable(c: Cache, key: Key, d: Decision)
    requires TableLive(c) && Partitioned(c) && c.next !in c.nodes
    ensures TableLive(Store(c, key, d, Stored)) && Partitioned(Store(c, key, d, Stored))
  {
    var c' := Store(c, key, d, Stored);
    assert forall p | p in c.nodes :: c'.nodes[p] == c.nodes[p];
  }

  lemma StoredCounts(c: Cache, key: Key, d: Decision)
    requires Accounted(c)
    requires c.next !in c.nodes && c.next + 1 !in c.keyBlocks
    requires key in c.table ==> c.table[key] !in c.abandoned
    ensures Accounted(Store(c, key, d, Stored))
  {
    SizeOfUpdate(c.nodes, c.next, Node(key, c.next + 1, d.send, d.trust, d.timestamp, d.ttl));
    SizeOfUpdate(c.table, key, c.next);
  }

  lemma SizeOfUpdate<K, V>(m: map<K, V>, k: K, v: V)
    ensures |m[k := v].Keys| == |m.Keys| + if k in m then 0 else 1
  {
    assert m[k := v].Keys == m.Keys + {k};
  }

  lemma SizeOfRemoval<K, V>(m: map<K, V>, k: K)
    requires k in m
    ensures |(m - {k}).Keys| == |m.Keys| - 1
  {
    assert (m - {k}).Keys == m.Keys - {k};
  }

  lemma EvictOk(c: Cache, key: Key)
    requires Ok(c) && key in c.table
    ensures Ok(Evict(c, key))
  {
    EvictOwns(c, key);
    EvictKeepsLive(c, key);
    EvictPartitions(c, key);
    EvictCounts(c, key);
  }

  lemma EvictOwns(c: Cache, key: Key)
    requires OwnsKeys(c) && FreedOnce(c) && key in c.table && c.table[key] in c.nodes
    ensures OwnsKeys(Evict(c, key)) && FreedOnce(Evict(c, key))
  {
  }

  lemma EvictKeepsLive(c: Cache, key: Key)
    requires TableLive(c) && key in c.table
    ensures TableLive(Evict(c, key))
  {
    assert c.nodes[c.table[key]].key == key;
  }

  lemma EvictPartitions(c: Cache, key: Key)
    requires TableLive(c) && Partitioned(c) && key in c.table
    ensures Partitioned(Evict(c, key))
  {
    assert c.nodes[c.table[key]].key == key;
  }

  lemma EvictCounts(c: Cache, key: Key)
    requires Accounted(c) && key in c.table && c.table[key] in c.nodes
    requires c.nodes[c.table[key]].keyBlock in c.keyBlocks
    ensures Accounted(Evict(c, key))
  {
    SizeOfRemoval(c.nodes, c.table[key]);
    SizeOfRemoval(c.table, key);
  }

  lemma LookupOk(c: Cache, key: Key, now: U64, hz: U64, failing: bool, deletes: bool)
    requires hz > 0 && Ok(c)
    ensures var (c', found) := Lookup(c, key, now, hz, failing, deletes);
            && Ok(c') && (!found.Miss? ==> c' == c)
            && (found.Hit? ==> found.node in c.nodes && c.nodes[found.node].key == key)
  {
    if !failing && key in c.table {
      var n := c.nodes[c.table[key]];
      if Expired(now, n.timestamp, n.ttl, hz) && deletes {
        EvictOk(c, key);
      }
    }
  }

  ghost predicate OthersKept(c: Cache, c': Cache, key: Key) {
    forall k | k != key :: (k in c'.table <==> k in c.table) && (k in c.table ==> c'.table[k] == c.table[k])
  }

  /** What a lookup answers: the entry under the key, as long as it is younger than its time to live, modulo 2^64. */
  lemma LookupExact(c: Cache, key: Key, now: U64, hz: U64, failing: bool, deletes: bool)
    requires hz > 0 && Ok(c)
    ensures var (c', found) := Lookup(c, key, now, hz, failing, deletes);
            && (found.Failed? <==> failing)
            && (key !in c.table ==> !found.Hit?)
            && (!failing && key in c.table ==>
                  var n := c.nodes[c.table[key]];
                  var age := if now >= n.timestamp then now - n.timestamp else TWO64 - (n.timestamp - now);
                  found == if age < n.ttl * hz then Hit(c.table[key]) else Miss)
            && OthersKept(c, c', key)
            && (found.Miss? && deletes ==> key !in c'.table)
  {
    hide Partitioned, FreedOnce, Accounted, OwnsKeys;
    if !failing && key in c.table {
      var n := c.nodes[c.table[key]];
      ExpiryExact(now, n.timestamp, n.ttl, hz);
    }
  }

  /** A decision that was stored is found again until it expires, and no other key is affected. */
  lemma StoreThenLookup(c: Cache, key: Key, d: Decision, now: U64, hz: U64, deletes: bool)
    requires hz > 0 && Ok(c)
    ensures Ok(Store(c, key, d, Stored))
    ensures var c' := Store(c, key, d, Stored);
            var found := Lookup(c', key, now, hz, false, deletes).1;
            && (found.Hit? <==> !Expired(now, d.timestamp, d.ttl, hz))
            && (found.Hit? ==>
                  var n := c'.nodes[found.node]; n.send == d.send && n.trust == d.trust && n.key == key)
            && OthersKept(c, c', key)
  {
    hide Ok, Expired;
    StoreOk(c, key, d, Stored);
  }

  /** A store that fails leaves every answer as it was. */
  lemma FailedStoreChangesNothing(c: Cache, key: Key, d: Decision, o: StoreOutcome, k: Key, now: U64, hz: U64)
    requires hz > 0 && Ok(c) && !o.Stored?
    ensures Ok(Store(c, key, d, o))
    ensures Lookup(Store(c, key, d, o), k, now, hz, false, false).1 == Lookup(c, k, now, hz, false, false).1
  {
    hide Ok, Expired;
    StoreOk(c, key, d, o);
  }

  /** After a clear every node that was live still is: a pointer obtained before it can still be used. */
  lemma ClearOk(c: Cache)
    requires Ok(c)
    ensures Ok(Clear(c)) && Clear(c).nodes == c.nodes
  {
  }

  /** Freeing the cache leaves only what had been abandoned. */
  lemma {:induction false} FreeAllOk(c: Cache)
    requires Ok(c)
    ensures Ok(FreeAll(c)) && FreeAll(c).table == map[]
    ensures FreeAll(c).nodes.Keys == FreeAll(c).abandoned == c.abandoned
    decreases |c.table.Keys|
  {
    hide Accounted;
    if c.table.Keys == {} {
      NothingEntered(c);
    } else {
      var k :| k in c.table.Keys && FreeAll(c) == FreeAll(Evict(c, k));
      EvictOk(c, k);
      SizeOfRemoval(c.table, k);
      FreeAllOk(Evict(c, k));
    }
  }

  lemma NothingEntered(c: Cache)
    requires Partitioned(c) && c.table.Keys == {}
    ensures c.table == map[] && c.nodes.Keys == c.abandoned
  {
  }

  /** In the source's form **/

  /** One cache with its part of the heap. The environment decides which allocations, insertions and deletions fail. */
  class CacheObject {
    var c: Cache

    constructor ()
      ensures c == EMPTY_CACHE
    {
      c := EMPTY_CACHE;
    }

    method AllocNode(key: Key, d: Decision) returns (p: Ptr)
      modifies this
      ensures p == old(c.next)
      ensures c == old(c).(nodes := old(c.nodes)[p := Node(key, p + 1, d.send, d.trust, d.timestamp, d.ttl)],
                           next := p + 1)
    {
      p := c.next;
      c := c.(nodes := c.nodes[p := Node(key, p + 1, d.send, d.trust, d.timestamp, d.ttl)], next := p + 1);
    }

    method AllocKey() returns (p: Ptr)
      modifies this
      ensures p == old(c.next)
      ensures c == old(c).(keyBlocks := old(c.keyBlocks) + {p}, next := p + 1)
    {
      p := c.next;
      c := c.(keyBlocks := c.keyBlocks + {p}, next := p + 1);
    }

    method FreeNode(p: Ptr)
      requires p in c.nodes
      modifies this
      ensures c == old(c).(nodes := old(c.nodes) - {p}, freed := old(c.freed) + multiset{p})
    {
      c := c.(nodes := c.nodes - {p}, freed := c.freed + multiset{p});
    }

    method FreeKey(p: Ptr)
      requires p in c.keyBlocks
      modifies this
      ensures c == old(c).(keyBlocks := old(c.keyBlocks) - {p}, freed := old(c.freed) + multiset{p})
    {
      c := c.(keyBlocks := c.keyBlocks - {p}, freed := c.freed + multiset{p});
    }

    /** Allocation of a node, then the cache's own add operation. */
    method Add(key: Key, d: Decision, o: StoreOutcome)
      requires Ok(c)
      modifies this
      ensures c == Store(old(c), key, d, o)
    {
      hide Ok;
      NextIsFresh(c);
      if o.NoNode? {
        return;
      }
      ghost var nodes := c.nodes;
      var p := AllocNode(key, d);
      UpdateThenRemove(nodes, p, c.nodes[p]);
      AddNode(key, p, o);
    }

    /** Adds an allocated node under a copy of the key, or frees what it has of both. */
    method AddNode(key: Key, p: Ptr, o: StoreOutcome)
      requires p in c.nodes && c.next !in c.keyBlocks && !o.NoNode?
      modifies this
      ensures c == match o
                   case NoKey => old(c).(nodes := old(c.nodes) - {p}, freed := old(c.freed) + multiset{p})
                   case Refused =>
                     old(c).(nodes := old(c.nodes) - {p}, next := old(c.next) + 1,
                             freed := old(c.freed) + multiset{old(c.next), p})
                   case Stored =>
                     old(c).(keyBlocks := old(c.keyBlocks) + {old(c.next)}, next := old(c.next) + 1,
                             table := old(c.table)[key := p],
                             abandoned := if key in old(c.table) then old(c.abandoned) + {old(c.table)[key]}
                                          else old(c.abandoned))
    {
      if o.NoKey? {
        FreeNode(p);
        return;
      }
      var kb := AllocKey();
      if o.Refused? {
        FreeKey(kb);
        FreeNode(p);
        assert old(c.keyBlocks) + {kb} - {kb} == old(c.keyBlocks);
        return;
      }
      Enter(key, p);
    }

    /** Puts a node into the table; a node that was there under the same key is no longer referred to. */
    method Enter(key: Key, p: Ptr)
      modifies this
      ensures c == old(c).(table := old(c.table)[key := p],
                           abandoned := if key in old(c.table) then old(c.abandoned) + {old(c.table)[key]}
                                        else old(c.abandoned))
    {
      if key in c.table {
        c := c.(abandoned := c.abandoned + {c.table[key]});
      }
      c := c.(table := c.table[key := p]);
    }

    method Find(key: Key, now: U64, hz: U64, failing: bool, deletes: bool) returns (found: Found)
      requires hz > 0 && Ok(c)
      modifies this
      ensures (c, found) == Lookup(old(c), key, now, hz, failing, deletes)
    {
      if failing {
        return Failed;
      }
      if key !in c.table {
        return Miss;
      }
      var p := c.table[key];
      if AgeSeconds(now, c.nodes[p].timestamp, hz) < c.nodes[p].ttl {
        return Hit(p);
      }
      if deletes {
        Release(key);
      }
      return Miss;
    }

    /** Takes an entry out of the table and frees its key and node. */
    method Release(key: Key)
      requires key in c.table && c.table[key] in c.nodes && c.nodes[c.table[key]].keyBlock in c.keyBlocks
      modifies this
      ensures c == Evict(old(c), key)
    {
      var p := c.table[key];
      c := c.(table := c.table - {key});
      FreeKey(c.nodes[p].keyBlock);
      FreeNode(p);
    }

    method Reset()
      modifies this
      ensures c == Clear(old(c))
    {
      c := c.(table := map[], abandoned := c.nodes.Keys);
    }

    /** Visits the entries in whatever order the table yields them. */
    method Destroy()
      requires Ok(c)
      modifies this
      ensures Ok(c) && c.table == map[] && c.abandoned == old(c.abandoned) && c.nodes.Keys == c.abandoned
      ensures forall p | p in old(c.nodes) && p !in c.abandoned :: c.freed[p] == 1
      ensures forall p | p in old(c.nodes) && p !in c.abandoned :: c.freed[old(c.nodes[p].keyBlock)] == 1
    {
      ghost var c0 := c;
      while c.table.Keys != {}
        invariant Ok(c) && FreesFrom(c0, c)
        decreases |c.table.Keys|
      {
        var k :| k in c.table.Keys;
        EvictOk(c, k);
        SizeOfRemoval(c.table, k);
        EvictFrees(c0, c, k);
        Release(k);
      }
      NothingEntered(c);
    }
  }

  lemma NextIsFresh(c: Cache)
    requires Ok(c)
    ensures c.next !in c.nodes && c.next !in c.keyBlocks && c.next + 1 !in c.keyBlocks
  {
  }

  lemma UpdateThenRemove<K, V>(m: map<K, V>, k: K, v: V)
    requires k !in m
    ensures m[k := v] - {k} == m
  {
  }

  /** `c` was reached from `c0` by freeing entries: what is gone from the heap is freed, with its key. */
  ghost predicate FreesFrom(c0: Cache, c: Cache) {
    && c.abandoned == c0.abandoned
    && (forall p | p in c.nodes :: p in c0.nodes && c.nodes[p] == c0.nodes[p])
    && (forall p | p in c0.nodes && p !in c.nodes :: p in c.freed && c0.nodes[p].keyBlock in c.freed)
  }

  lemma EvictFrees(c0: Cache, c: Cache, key: Key)
    requires FreesFrom(c0, c) && key in c.table && c.table[key] in c.nodes
    ensures FreesFrom(c0, Evict(c, key))
  {
  }
}
