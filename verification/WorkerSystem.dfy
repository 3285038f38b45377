/** The packet loop and the policy thread, interleaved. Each action is what one thread does without the other being able
    to see it half done: a region under the policy mutex or a cache spinlock, or work on local data. */
module WorkerSystem {
  import opened Bytes
  import opened Options
  import opened Expiry
  import opened PolicyArrays
  import opened Filter
  import opened NodeCache
  import opened CacheKeys
  import opened Pipeline

  /** Policies are numbered in the order they are applied; number 0 is the one in force when the loop starts. */
  datatype Snapshot = Snapshot(policy: BasePolicy, gen: nat)

  datatype Loop =
    | Idle
    | Ready(snap: Snapshot)
    | Holding(snap: Snapshot, key: Key, node: Ptr)
    | Missed(snap: Snapshot, key: Key)
    | Storing(snap: Snapshot, key: Key, send: bool)
    | Stopped

  /** The policy mutex: open, or held by a policy thread that has written the policy, or has also cleared the address
      cache. Clearing the domain cache is the last thing it does before it lets go. */
  datatype Mutex = Open | Written | IpCleared

  /** Where a node comes from: the database, or a decision under a numbered policy in a numbered iteration. */
  datatype Origin = Loaded | Decided(gen: nat, iter: nat)

  datatype Emitted = Emitted(key: Key, send: bool)

  /** `interrupted` is the iteration that was in progress when the current policy was written, if one was. */
  datatype Sys = Sys(
    policies: seq<BasePolicy>,
    mutex: Mutex,
    loop: Loop,
    iter: nat,
    interrupted: Option<nat>,
    caches: Caches,
    dnsOrigin: map<Ptr, Origin>,
    ipOrigin: map<Ptr, Origin>,
    out: seq<Emitted>)

  datatype Act =
    | TakeSnapshot
    | LookUp(key: Key, now: U64, failing: bool, deletes: bool)
    | UseHit
    | DecideMiss(answer: Option<Classification>)
    | StoreMiss(later: U64, outcome: StoreOutcome)
    | EndIteration
    | WritePolicy(policy: BasePolicy)
    | ClearIp
    | ClearDns
    | Shutdown

  ghost predicate ValidKey(k: Key) {
    k.DomainKey? ==> DomainField(k.buf)
  }

  ghost predicate Enabled(s: Sys, a: Act) {
    match a
    case TakeSnapshot => s.loop.Idle? && s.mutex.Open?
    case LookUp(key, _, _, _) => s.loop.Ready? && ValidKey(key)
    case UseHit => s.loop.Holding?
    case DecideMiss(_) => s.loop.Missed?
    case StoreMiss(_, _) => s.loop.Storing?
    case EndIteration => s.loop.Ready?
    case WritePolicy(_) => s.mutex.Open? && !s.loop.Stopped?
    case ClearIp => s.mutex.Written?
    case ClearDns => s.mutex.IpCleared?
    case Shutdown => s.loop.Idle? && s.mutex.Open?
  }

  function Gen(s: Sys): (g: int) {
    |s.policies| - 1
  }

  /** A node the loop has found and not used yet is live. */
  ghost predicate HeldLive(s: Sys) {
    s.loop.Holding? ==> s.loop.node in Pick(s.caches, s.loop.key).nodes
  }

  predicate InIteration(l: Loop) {
    !l.Idle? && !l.Stopped?
  }

  /** What every action relies on: caches in order, at least one policy, and a live held node. */
  ghost predicate Sound(s: Sys) {
    && CachesOk(s.caches) && |s.policies| > 0 && HeldLive(s)
    && (InIteration(s.loop) ==> LoopPolicy(s.loop.snap.policy))
  }

  /** After a lookup that left the key's cache as `c`. */
  function LookedUp(s: Sys, key: Key, c: Cache, found: Found): (t: Sys)
    requires s.loop.Ready?
  {
    s.(caches := Put(s.caches, key, c),
       loop := match found
               case Hit(n) => Holding(s.loop.snap, key, n)
               case Miss => Missed(s.loop.snap, key)
               case Failed => s.loop)
  }

  ghost function Next(s: Sys, a: Act, hz: U64): Sys
    requires Sound(s) && Enabled(s, a) && hz > 0
  {
    hide Ok, Lookup, Store, Verdict;
    match a
    case TakeSnapshot =>
      s.(loop := Ready(Snapshot(WithDefaults(s.policies[Gen(s)]), Gen(s))), iter := s.iter + 1)
    case LookUp(key, now, failing, deletes) =>
      var (c, found) := Lookup(Pick(s.caches, key), key, now, hz, failing, deletes);
      LookedUp(s, key, c, found)
    case UseHit =>
      s.(loop := Ready(s.loop.snap),
         out := s.out + [Emitted(s.loop.key, Pick(s.caches, s.loop.key).nodes[s.loop.node].send)])
    case DecideMiss(answer) =>
      var send := Verdict(s.loop.snap.policy, s.loop.key, answer);
      s.(loop := Storing(s.loop.snap, s.loop.key, send), out := s.out + [Emitted(s.loop.key, send)])
    case StoreMiss(later, outcome) =>
      var k, p := s.loop.key, Pick(s.caches, s.loop.key).next;
      var d := Decision(s.loop.send, 0, later, TtlFor(s.loop.snap.policy, k));
      var o := Decided(s.loop.snap.gen, s.iter);
      var s' := s.(loop := Ready(s.loop.snap),
                   caches := Put(s.caches, k, Store(Pick(s.caches, k), StoredKey(k), d, outcome)));
      if k.DomainKey? then s'.(dnsOrigin := s.dnsOrigin[p := o]) else s'.(ipOrigin := s.ipOrigin[p := o])
    case EndIteration =>
      s.(loop := Idle)
    case WritePolicy(policy) =>
      s.(policies := s.policies + [policy], mutex := Written,
         interrupted := if s.loop.Idle? then None else Some(s.iter))
    case ClearIp =>
      s.(caches := s.caches.(ip := Clear(s.caches.ip)), mutex := IpCleared)
    case ClearDns =>
      s.(caches := s.caches.(dns := Clear(s.caches.dns)), mutex := Open)
    case Shutdown =>
      OkIsLive(s.caches.dns);
      OkIsLive(s.caches.ip);
      s.(caches := Caches(FreeAll(s.caches.dns), FreeAll(s.caches.ip)), loop := Stopped)
  }

  /** Soundness: the heap and the held node, under every interleaving **/

  lemma NextSound(s: Sys, a: Act, hz: U64)
    requires Sound(s) && Enabled(s, a) && hz > 0
    ensures Sound(Next(s, a, hz))
  {
    hide Ok, Verdict;
    match a
    case LookUp(key, now, failing, deletes) => LookupOk(Pick(s.caches, key), key, now, hz, failing, deletes);
    case StoreMiss(later, outcome) =>
      var k := s.loop.key;
      StoreOk(Pick(s.caches, k), StoredKey(k), Decision(s.loop.send, 0, later, TtlFor(s.loop.snap.policy, k)), outcome);
    case ClearIp => ClearOk(s.caches.ip);
    case ClearDns => ClearOk(s.caches.dns);
    case Shutdown =>
      FreeAllOk(s.caches.dns);
      FreeAllOk(s.caches.ip);
    case _ =>
  }

  /** Provenance: which policy an entry was decided under **/

  function Origins(s: Sys, k: Key): (o: map<Ptr, Origin>) {
    if k.DomainKey? then s.dnsOrigin else s.ipOrigin
  }

  /** Every live node has a recorded origin, not in the future. */
  ghost predicate Traced(c: Cache, o: map<Ptr, Origin>, gen: int, iter: nat) {
    forall p | p in c.nodes :: p in o && (o[p].Decided? ==> o[p].gen <= gen && o[p].iter <= iter)
  }

  /** Decided under the current policy, or in the interrupted iteration; loaded entries survive no policy update. */
  ghost predicate UpToDate(o: Origin, gen: int, interrupted: Option<nat>) {
    match o
    case Loaded => gen == 0
    case Decided(g, i) => g == gen || interrupted == Some(i)
  }

  ghost predicate TableUpToDate(c: Cache, o: map<Ptr, Origin>, gen: int, interrupted: Option<nat>) {
    forall k | k in c.table :: c.table[k] in o && UpToDate(o[c.table[k]], gen, interrupted)
  }

  /** The loop's copy is the policy of its number, which is the current one unless this iteration was interrupted. */
  ghost predicate SnapUpToDate(s: Sys)
    requires |s.policies| > 0
  {
    InIteration(s.loop) ==>
      var snap := s.loop.snap;
      && snap.gen <= Gen(s)
      && snap.policy == WithDefaults(s.policies[snap.gen])
      && (snap.gen == Gen(s) || s.interrupted == Some(s.iter))
  }

  /** A held node is as up to date as a table entry, unless a policy was written since it was found. */
  ghost predicate HeldUpToDate(s: Sys) {
    s.loop.Holding? ==>
      var o := Origins(s, s.loop.key);
      s.loop.node in o && (UpToDate(o[s.loop.node], Gen(s), s.interrupted) || s.interrupted == Some(s.iter))
  }

  ghost predicate Provenance(s: Sys)
    requires |s.policies| > 0
  {
    && Traced(s.caches.dns, s.dnsOrigin, Gen(s), s.iter)
    && Traced(s.caches.ip, s.ipOrigin, Gen(s), s.iter)
    && (s.mutex.Open? ==> TableUpToDate(s.caches.dns, s.dnsOrigin, Gen(s), s.interrupted))
    && (!s.mutex.Written? ==> TableUpToDate(s.caches.ip, s.ipOrigin, Gen(s), s.interrupted))
    && (s.interrupted.Some? ==> s.interrupted.value <= s.iter)
    && SnapUpToDate(s) && HeldUpToDate(s)
    && (InIteration(s.loop) && !s.mutex.Open? ==> s.interrupted == Some(s.iter))
  }

  ghost predicate Inv(s: Sys) {
    Sound(s) && Provenance(s)
  }

  /** The loop is about to start: nothing decided in this run yet, whatever the database held. */
  ghost predicate Init(s: Sys) {
    && CachesOk(s.caches) && |s.policies| == 1 && s.mutex.Open? && s.loop.Idle? && s.interrupted.None? && s.out == []
    && (forall p | p in s.caches.dns.nodes :: p in s.dnsOrigin && s.dnsOrigin[p] == Loaded)
    && (forall p | p in s.caches.ip.nodes :: p in s.ipOrigin && s.ipOrigin[p] == Loaded)
  }

  lemma InitInv(s: Sys)
    requires Init(s)
    ensures Inv(s)
  {
    TableNodesLive(s.caches.dns);
    TableNodesLive(s.caches.ip);
  }

  lemma TableNodesLive(c: Cache)
    requires Ok(c)
    ensures forall k | k in c.table :: c.table[k] in c.nodes
  {
  }

  /** A lookup only takes entries and nodes away. */
  lemma LookupShrinks(c: Cache, key: Key, now: U64, hz: U64, failing: bool, deletes: bool)
    requires hz > 0 && Ok(c)
    ensures Shrinks(c, Lookup(c, key, now, hz, failing, deletes).0)
  {
  }

  /** A hit is the table's entry. */
  lemma HitIsEntry(c: Cache, key: Key, now: U64, hz: U64, failing: bool, deletes: bool)
    requires hz > 0 && Ok(c)
    ensures var found := Lookup(c, key, now, hz, failing, deletes).1;
            found.Hit? ==> key in c.table && c.table[key] == found.node
  {
  }

  /** Storing leaves every other node and entry as it is. */
  lemma StoreAdds(c: Cache, key: Key, d: Decision, o: StoreOutcome)
    requires Ok(c)
    ensures var c' := Store(c, key, d, o);
            && c.next !in c.nodes
            && (forall p | p in c'.nodes && p != c.next :: p in c.nodes && c'.nodes[p] == c.nodes[p])
            && (forall k | k in c'.table && c'.table[k] != c.next :: k in c.table && c'.table[k] == c.table[k])
            && (c.next in c'.nodes ==>
                  c'.nodes[c.next] == Node(key, c.next + 1, d.send, d.trust, d.timestamp, d.ttl))
  {
    hide Ok;
    NextIsFresh(c);
  }

  lemma NextInv(s: Sys, a: Act, hz: U64)
    requires Inv(s) && Enabled(s, a) && hz > 0
    ensures Inv(Next(s, a, hz))
  {
    hide Sound, Provenance;
    SoundIsSound(s);
    NextSound(s, a, hz);
    match a
    case LookUp(key, now, failing, deletes) => LookUpProvenance(s, key, now, failing, deletes, hz);
    case StoreMiss(later, outcome) => StoreProvenance(s, later, outcome, hz);
    case WritePolicy(policy) => WriteProvenance(s, policy, hz);
    case Shutdown => ShutdownProvenance(s, hz);
    case _ => OtherProvenance(s, a, hz);
  }

  lemma SoundIsSound(s: Sys)
    requires Sound(s)
    ensures |s.policies| > 0
  {
  }

  lemma OtherProvenance(s: Sys, a: Act, hz: U64)
    requires Inv(s) && Enabled(s, a) && hz > 0
    requires !a.LookUp? && !a.StoreMiss? && !a.WritePolicy? && !a.Shutdown?
    ensures Provenance(Next(s, a, hz))
  {
    hide Ok, Verdict;
  }

  ghost predicate Shrinks(c: Cache, c': Cache) {
    && (forall k | k in c'.table :: k in c.table && c'.table[k] == c.table[k])
    && (forall p | p in c'.nodes :: p in c.nodes && c'.nodes[p] == c.nodes[p])
  }

  lemma ShrunkStaysTraced(c: Cache, c': Cache, o: map<Ptr, Origin>, gen: int, iter: nat, interrupted: Option<nat>)
    requires Shrinks(c, c') && Traced(c, o, gen, iter)
    ensures Traced(c', o, gen, iter)
    ensures TableUpToDate(c, o, gen, interrupted) ==> TableUpToDate(c', o, gen, interrupted)
  {
  }

  lemma LookUpProvenance(s: Sys, key: Key, now: U64, failing: bool, deletes: bool, hz: U64)
    requires Inv(s) && s.loop.Ready? && ValidKey(key) && hz > 0
    ensures Provenance(Next(s, LookUp(key, now, failing, deletes), hz))
  {
    hide Ok, Lookup, Provenance, Shrinks;
    var c := Pick(s.caches, key);
    LookupShrinks(c, key, now, hz, failing, deletes);
    HitIsEntry(c, key, now, hz, failing, deletes);
    var (c', found) := Lookup(c, key, now, hz, failing, deletes);
    FoundProvenance(s, key, c', found);
  }

  lemma FoundProvenance(s: Sys, key: Key, c: Cache, found: Found)
    requires Inv(s) && s.loop.Ready? && Shrinks(Pick(s.caches, key), c)
    requires found.Hit? ==> key in Pick(s.caches, key).table && Pick(s.caches, key).table[key] == found.node
    ensures Provenance(LookedUp(s, key, c, found))
  {
    hide Ok, Traced, TableUpToDate, Shrinks, UpToDate, WithDefaults;
    ShrunkStaysTraced(Pick(s.caches, key), c, Origins(s, key), Gen(s), s.iter, s.interrupted);
    if found.Hit? {
      EntryIsUpToDate(s, key);
    }
  }

  /** An entry found while a policy thread holds the mutex belongs to an interrupted iteration. */
  lemma EntryIsUpToDate(s: Sys, key: Key)
    requires Inv(s) && s.loop.Ready? && key in Pick(s.caches, key).table
    ensures var p, o := Pick(s.caches, key).table[key], Origins(s, key);
            p in o && (UpToDate(o[p], Gen(s), s.interrupted) || s.interrupted == Some(s.iter))
  {
    hide Ok, SnapUpToDate, HeldUpToDate, HeldLive, LoopPolicy;
    TableNodesLive(Pick(s.caches, key));
  }

  /** The node stored last gets its origin. */
  lemma StoredStaysTraced(c: Cache, key: Key, d: Decision, outcome: StoreOutcome, o: map<Ptr, Origin>, gen: int,
                          iter: nat, interrupted: Option<nat>, at: Origin)
    requires Ok(c) && Traced(c, o, gen, iter)
    requires at.Decided? && at.gen <= gen && at.iter <= iter
    ensures Traced(Store(c, key, d, outcome), o[c.next := at], gen, iter)
    ensures TableUpToDate(c, o, gen, interrupted) && UpToDate(at, gen, interrupted)
            ==> TableUpToDate(Store(c, key, d, outcome), o[c.next := at], gen, interrupted)
  {
    hide Ok, Store;
    StoreAdds(c, key, d, outcome);
    TableNodesLive(c);
  }

  lemma StoreProvenance(s: Sys, later: U64, outcome: StoreOutcome, hz: U64)
    requires Inv(s) && s.loop.Storing? && hz > 0
    ensures Provenance(Next(s, StoreMiss(later, outcome), hz))
  {
    hide Ok, Store, Traced, TableUpToDate;
    var k := s.loop.key;
    StoredStaysTraced(Pick(s.caches, k), StoredKey(k),
                      Decision(s.loop.send, 0, later, TtlFor(s.loop.snap.policy, k)), outcome,
                      Origins(s, k), Gen(s), s.iter, s.interrupted, Decided(s.loop.snap.gen, s.iter));
  }

  lemma WriteProvenance(s: Sys, policy: BasePolicy, hz: U64)
    requires Inv(s) && s.mutex.Open? && !s.loop.Stopped? && hz > 0
    ensures Provenance(Next(s, WritePolicy(policy), hz))
  {
    hide Ok;
  }

  lemma FreedStaysTraced(c: Cache, o: map<Ptr, Origin>, gen: int, iter: nat, interrupted: Option<nat>)
    requires Ok(c) && TableLive(c) && Traced(c, o, gen, iter)
    ensures Traced(FreeAll(c), o, gen, iter) && TableUpToDate(FreeAll(c), o, gen, interrupted)
  {
    hide Ok, FreeAll;
    FreeAllOk(c);
    FreeAllShrinks(c);
  }

  lemma ShutdownProvenance(s: Sys, hz: U64)
    requires Inv(s) && s.loop.Idle? && s.mutex.Open? && hz > 0
    ensures Provenance(Next(s, Shutdown, hz))
  {
    hide Ok, FreeAll, Traced, TableUpToDate;
    OkIsLive(s.caches.dns);
    OkIsLive(s.caches.ip);
    FreedStaysTraced(s.caches.dns, s.dnsOrigin, Gen(s), s.iter, s.interrupted);
    FreedStaysTraced(s.caches.ip, s.ipOrigin, Gen(s), s.iter, s.interrupted);
  }

  lemma {:induction false} FreeAllShrinks(c: Cache)
    requires Ok(c)
    ensures forall p | p in FreeAll(c).nodes :: p in c.nodes && FreeAll(c).nodes[p] == c.nodes[p]
    decreases |c.table.Keys|
  {
    if c.table.Keys != {} {
      var k :| k in c.table.Keys && FreeAll(c) == FreeAll(Evict(c, k));
      EvictOk(c, k);
      SizeOfRemoval(c.table, k);
      FreeAllShrinks(Evict(c, k));
    }
  }

  /** Runs **/

  ghost predicate Runs(s: Sys, acts: seq<Act>, hz: U64)
    requires Inv(s) && hz > 0
    decreases acts
  {
    acts != [] ==> Enabled(s, acts[0]) && (NextInv(s, acts[0], hz); Runs(Next(s, acts[0], hz), acts[1..], hz))
  }

  ghost function Exec(s: Sys, acts: seq<Act>, hz: U64): Sys
    requires Inv(s) && hz > 0 && Runs(s, acts, hz)
    decreases acts
  {
    if acts == [] then s
    else
      NextInv(s, acts[0], hz);
      Exec(Next(s, acts[0], hz), acts[1..], hz)
  }

  lemma {:induction false} ExecInv(s: Sys, acts: seq<Act>, hz: U64)
    requires Inv(s) && hz > 0 && Runs(s, acts, hz)
    ensures Inv(Exec(s, acts, hz))
    decreases acts
  {
    if acts == [] {
    } else {
      NextInv(s, acts[0], hz);
      ExecInv(Next(s, acts[0], hz), acts[1..], hz);
    }
  }

  /** What the history variables record **/

  function PoliciesOf(acts: seq<Act>): (policies: seq<BasePolicy>) {
    if acts == [] then [] else (if acts[0].WritePolicy? then [acts[0].policy] else []) + PoliciesOf(acts[1..])
  }

  function Iterations(acts: seq<Act>): (n: nat) {
    if acts == [] then 0 else (if acts[0].TakeSnapshot? then 1 else 0) + Iterations(acts[1..])
  }

  /** Policies are numbered as they are written and iterations as they begin; the last write notes the iteration in
      progress; a snapshot has the number of the latest policy; and a node that is stored gets the number of the
      snapshot it was decided under and of the iteration. Nothing else changes any of these. */
  lemma StepRecords(s: Sys, a: Act, hz: U64)
    requires Sound(s) && Enabled(s, a) && hz > 0
    ensures var t := Next(s, a, hz);
            && t.policies == s.policies + PoliciesOf([a]) && t.iter == s.iter + Iterations([a])
            && (a.WritePolicy? ==> t.interrupted == if InIteration(s.loop) then Some(s.iter) else None)
            && (!a.WritePolicy? ==> t.interrupted == s.interrupted)
            && (a.TakeSnapshot? ==> t.loop.Ready? && t.loop.snap.gen == |s.policies| - 1)
            && (!a.TakeSnapshot? && InIteration(t.loop) ==> InIteration(s.loop) && t.loop.snap == s.loop.snap)
            && (!a.StoreMiss? ==> t.dnsOrigin == s.dnsOrigin && t.ipOrigin == s.ipOrigin)
            && (a.StoreMiss? ==>
                  var k, p := s.loop.key, Pick(s.caches, s.loop.key).next;
                  && Origins(t, k) == Origins(s, k)[p := Decided(s.loop.snap.gen, s.iter)]
                  && (if k.DomainKey? then t.ipOrigin == s.ipOrigin else t.dnsOrigin == s.dnsOrigin)
                  && (a.outcome.Stored? ==>
                        StoredKey(k) in Pick(t.caches, k).table && Pick(t.caches, k).table[StoredKey(k)] == p))
  {
    hide Ok, Verdict, Lookup, StoredKey;
    assert [a][1..] == [];
  }

  lemma {:induction false} ExecRecords(s: Sys, acts: seq<Act>, hz: U64)
    requires Inv(s) && hz > 0 && Runs(s, acts, hz)
    ensures var t := Exec(s, acts, hz);
            && t.policies == s.policies + PoliciesOf(acts) && t.iter == s.iter + Iterations(acts)
            && (PoliciesOf(acts) == [] ==> t.interrupted == s.interrupted)
    decreases acts
  {
    hide Sound, Provenance, Next, Enabled, PoliciesOf, Iterations;
    ActsSplit(acts);
    if acts == [] {
    } else {
      var a := acts[0];
      NextInv(s, a, hz);
      StepRecordsRun(s, a, hz);
      ExecRecords(Next(s, a, hz), acts[1..], hz);
      Regroup(s.policies, PoliciesOf([a]), PoliciesOf(acts[1..]));
    }
  }

  lemma ActsSplit(acts: seq<Act>)
    ensures acts == [] ==> PoliciesOf(acts) == [] && Iterations(acts) == 0
    ensures acts != [] ==> PoliciesOf(acts) == PoliciesOf([acts[0]]) + PoliciesOf(acts[1..])
    ensures acts != [] ==> Iterations(acts) == Iterations([acts[0]]) + Iterations(acts[1..])
  {
    if acts != [] {
      assert [acts[0]][1..] == [];
    }
  }

  lemma StepRecordsRun(s: Sys, a: Act, hz: U64)
    requires Inv(s) && Enabled(s, a) && hz > 0
    ensures var t := Next(s, a, hz);
            && t.policies == s.policies + PoliciesOf([a]) && t.iter == s.iter + Iterations([a])
            && (PoliciesOf([a]) == [] ==> t.interrupted == s.interrupted)
  {
    hide Next, Enabled, Sound;
    StepRecords(s, a, hz);
  }

  lemma Regroup(a: seq<BasePolicy>, b: seq<BasePolicy>, c: seq<BasePolicy>)
    ensures a + b + c == a + (b + c)
  {
  }

  /** So over every run the interrupted iteration is the one in progress, if one was, at the last write. */
  lemma LastWriteInterrupts(s: Sys, policy: BasePolicy, acts: seq<Act>, hz: U64)
    requires Inv(s) && hz > 0 && Runs(s, [WritePolicy(policy)] + acts, hz) && PoliciesOf(acts) == []
    ensures Exec(s, [WritePolicy(policy)] + acts, hz).interrupted == if InIteration(s.loop) then Some(s.iter) else None
  {
    hide Sound, Provenance;
    var all := [WritePolicy(policy)] + acts;
    assert all[1..] == acts;
    NextInv(s, all[0], hz);
    ExecRecords(Next(s, all[0], hz), acts, hz);
  }

  /** Under every interleaving, whenever the mutex is free, an entry decided in this run under a policy other than the
      current one was added by the one iteration in progress when the current policy was written, and an entry that came
      from the database has seen no update at all. */
  lemma StaleEntriesAreOfOneIteration(s: Sys, acts: seq<Act>, hz: U64, k: Key)
    requires Init(s) && Inv(s) && hz > 0 && Runs(s, acts, hz)
    ensures var t := Exec(s, acts, hz);
            var c, o := Pick(t.caches, k), Origins(t, k);
            t.mutex.Open? && k in c.table ==>
              && c.table[k] in o
              && (o[c.table[k]].Loaded? ==> |t.policies| == 1)
              && (o[c.table[k]].Decided? && o[c.table[k]].gen != Gen(t) ==> t.interrupted == Some(o[c.table[k]].iter))
  {
    ExecInv(s, acts, hz);
  }

  /** Under every interleaving, table entries are live, distinct and accounted for, no block was freed twice, and the
      node the loop holds is live, also when its cache was cleared in between. */
  lemma HeapIsSafeInEveryRun(s: Sys, acts: seq<Act>, hz: U64)
    requires Init(s) && Inv(s) && hz > 0 && Runs(s, acts, hz)
    ensures var t := Exec(s, acts, hz);
            Ok(t.caches.dns) && Ok(t.caches.ip) && HeldLive(t)
  {
    ExecInv(s, acts, hz);
  }

  /** Against a loop without caches **/

  /** What the classifier is asked about. */
  datatype Target = Name(text: Str) | Address(dest: Dest)

  function TargetOf(k: Key): (t: Target) {
    match k
    case DomainKey(buf) => Name(CStr(buf))
    case Ip4Key(a) => Address(To4(a))
    case Ip6Key(a) => Address(To6(a))
  }

  type Classifier = Target -> Option<Classification>

  ghost predicate Decides(p: BasePolicy, k: Key, cl: Classifier) {
    Verdict(p, k, cl(TargetOf(k)))
  }

  /** The copied key stands for the same target, so it gets the same verdict. */
  lemma StoredKeyDecides(p: BasePolicy, k: Key, cl: Classifier)
    requires ValidKey(k)
    ensures Decides(p, StoredKey(k), cl) == Decides(p, k, cl)
  {
    if k.DomainKey? {
      PaddedSpells(k.buf);
      FieldIsNotClipped(k.buf);
    }
  }

  /** Every decided node says what the filter says under the policy it was decided with. */
  ghost predicate NodesRight(c: Cache, o: map<Ptr, Origin>, policies: seq<BasePolicy>, cl: Classifier) {
    forall p | p in c.nodes && p in o && o[p].Decided? && 0 <= o[p].gen < |policies| ::
      c.nodes[p].send == Decides(policies[o[p].gen], c.nodes[p].key, cl)
  }

  /** The classifier answers by its one function. */
  ghost predicate Answered(s: Sys, a: Act, cl: Classifier) {
    a.DecideMiss? && s.loop.Missed? ==> a.answer == cl(TargetOf(s.loop.key))
  }

  /** Besides, updates come only between iterations. */
  ghost predicate Quiet(s: Sys, a: Act, cl: Classifier) {
    Answered(s, a, cl) && (a.WritePolicy? ==> s.loop.Idle?)
  }

  ghost predicate AllDecided(o: map<Ptr, Origin>) {
    forall p | p in o :: o[p].Decided?
  }

  lemma DefaultsDecideAlike(p: BasePolicy, k: Key, cl: Classifier)
    ensures Decides(WithDefaults(p), k, cl) == Decides(p, k, cl)
  {
    hide Listed, SlotsDisjoint, LevelsReached;
  }

  lemma ShrunkStaysRight(c: Cache, c': Cache, o: map<Ptr, Origin>, policies: seq<BasePolicy>, cl: Classifier)
    requires Shrinks(c, c') && NodesRight(c, o, policies, cl)
    ensures NodesRight(c', o, policies, cl)
  {
    hide Decides;
  }

  lemma StoredStaysRight(c: Cache, key: Key, d: Decision, outcome: StoreOutcome, o: map<Ptr, Origin>,
                         policies: seq<BasePolicy>, cl: Classifier, at: Origin)
    requires Ok(c) && NodesRight(c, o, policies, cl)
    requires at.Decided? && at.gen < |policies| && d.send == Decides(policies[at.gen], key, cl)
    ensures NodesRight(Store(c, key, d, outcome), o[c.next := at], policies, cl)
  {
    hide Ok, Store, Decides;
    StoreAdds(c, key, d, outcome);
  }

  lemma MorePoliciesStayRight(c: Cache, o: map<Ptr, Origin>, policies: seq<BasePolicy>, p: BasePolicy, iter: nat,
                              cl: Classifier)
    requires NodesRight(c, o, policies, cl) && Traced(c, o, |policies| - 1, iter)
    ensures NodesRight(c, o, policies + [p], cl)
  {
    hide Decides;
    assert forall g | 0 <= g < |policies| :: (policies + [p])[g] == policies[g];
  }

  /** With a classifier that is a function, every decision in the caches or on its way there is the filter's. */
  ghost predicate Right(s: Sys, cl: Classifier) {
    && NodesRight(s.caches.dns, s.dnsOrigin, s.policies, cl)
    && NodesRight(s.caches.ip, s.ipOrigin, s.policies, cl)
    && (s.loop.Holding? ==>
          var c := Pick(s.caches, s.loop.key);
          s.loop.node in c.nodes && c.nodes[s.loop.node].key == s.loop.key)
    && (s.loop.Missed? || s.loop.Storing? ==> ValidKey(s.loop.key))
    && (s.loop.Storing? ==> s.loop.send == Decides(s.loop.snap.policy, s.loop.key, cl))
  }

  /** No iteration was interrupted, and nothing came from the database. */
  ghost predicate Undisturbed(s: Sys) {
    && s.interrupted.None?
    && AllDecided(s.dnsOrigin) && AllDecided(s.ipOrigin)
    && (InIteration(s.loop) ==> s.mutex.Open?)
  }

  ghost predicate QuietInv(s: Sys, cl: Classifier) {
    Inv(s) && Right(s, cl) && Undisturbed(s)
  }

  lemma NextRight(s: Sys, a: Act, hz: U64, cl: Classifier)
    requires Inv(s) && Right(s, cl) && Enabled(s, a) && Answered(s, a, cl) && hz > 0
    ensures Right(Next(s, a, hz), cl)
  {
    hide Sound, Provenance, Right;
    match a
    case LookUp(key, now, failing, deletes) => LookUpRight(s, key, now, failing, deletes, hz, cl);
    case StoreMiss(later, outcome) => StoreRight(s, later, outcome, hz, cl);
    case WritePolicy(policy) => WriteRight(s, policy, hz, cl);
    case Shutdown => ShutdownRight(s, hz, cl);
    case _ => OtherRight(s, a, hz, cl);
  }

  lemma QuietNext(s: Sys, a: Act, hz: U64, cl: Classifier)
    requires QuietInv(s, cl) && Enabled(s, a) && Quiet(s, a, cl) && hz > 0
    ensures QuietInv(Next(s, a, hz), cl)
  {
    hide Ok, Provenance, Right, Store, Lookup, Verdict;
    NextInv(s, a, hz);
    NextRight(s, a, hz, cl);
  }

  lemma OtherRight(s: Sys, a: Act, hz: U64, cl: Classifier)
    requires Inv(s) && Right(s, cl) && Enabled(s, a) && Answered(s, a, cl) && hz > 0
    requires !a.LookUp? && !a.StoreMiss? && !a.WritePolicy? && !a.Shutdown?
    ensures Right(Next(s, a, hz), cl)
  {
    hide Ok, Verdict, Provenance;
  }

  lemma LookUpRight(s: Sys, key: Key, now: U64, failing: bool, deletes: bool, hz: U64, cl: Classifier)
    requires Inv(s) && Right(s, cl) && s.loop.Ready? && ValidKey(key) && hz > 0
    ensures Right(Next(s, LookUp(key, now, failing, deletes), hz), cl)
  {
    hide Ok, Lookup, Provenance, NodesRight, Shrinks;
    var c := Pick(s.caches, key);
    LookupShrinks(c, key, now, hz, failing, deletes);
    LookupOk(c, key, now, hz, failing, deletes);
    ShrunkStaysRight(c, Lookup(c, key, now, hz, failing, deletes).0, Origins(s, key), s.policies, cl);
  }

  lemma StoreRight(s: Sys, later: U64, outcome: StoreOutcome, hz: U64, cl: Classifier)
    requires Inv(s) && Right(s, cl) && s.loop.Storing? && hz > 0
    ensures Right(Next(s, StoreMiss(later, outcome), hz), cl)
  {
    hide Ok, Store, NodesRight, Decides, Traced, TableUpToDate;
    var k, snap := s.loop.key, s.loop.snap;
    StoredKeyDecides(s.policies[snap.gen], k, cl);
    DefaultsDecideAlike(s.policies[snap.gen], k, cl);
    StoredStaysRight(Pick(s.caches, k), StoredKey(k), Decision(s.loop.send, 0, later, TtlFor(snap.policy, k)), outcome,
                     Origins(s, k), s.policies, cl, Decided(snap.gen, s.iter));
  }

  lemma WriteRight(s: Sys, policy: BasePolicy, hz: U64, cl: Classifier)
    requires Inv(s) && Right(s, cl) && s.mutex.Open? && !s.loop.Stopped? && hz > 0
    ensures Right(Next(s, WritePolicy(policy), hz), cl)
  {
    hide Ok, NodesRight, Traced, TableUpToDate;
    MorePoliciesStayRight(s.caches.dns, s.dnsOrigin, s.policies, policy, s.iter, cl);
    MorePoliciesStayRight(s.caches.ip, s.ipOrigin, s.policies, policy, s.iter, cl);
  }

  lemma ShutdownRight(s: Sys, hz: U64, cl: Classifier)
    requires Inv(s) && Right(s, cl) && s.loop.Idle? && s.mutex.Open? && hz > 0
    ensures Right(Next(s, Shutdown, hz), cl)
  {
    hide Ok, Provenance, Decides;
    FreeAllShrinks(s.caches.dns);
    FreeAllShrinks(s.caches.ip);
  }

  /** What a hit says is what the filter says under the loop's copy of the policy. */
  lemma HitIsRight(s: Sys, cl: Classifier)
    requires QuietInv(s, cl) && s.loop.Holding?
    ensures Pick(s.caches, s.loop.key).nodes[s.loop.node].send == Decides(s.loop.snap.policy, s.loop.key, cl)
  {
    hide Ok, Decides;
    DefaultsDecideAlike(s.policies[Gen(s)], s.loop.key, cl);
  }

  /** The same without any restriction on updates: what a hit says was decided under the current policy, unless the node
      is of the interrupted iteration, or this very iteration was interrupted after the lookup. */
  lemma HitIsBoundedlyStale(s: Sys, cl: Classifier)
    requires Inv(s) && Right(s, cl) && s.loop.Holding?
    ensures HeldLive(s) && s.loop.node in Origins(s, s.loop.key)
    ensures var n, o := Pick(s.caches, s.loop.key).nodes[s.loop.node], Origins(s, s.loop.key)[s.loop.node];
            o.Decided? ==>
              && o.gen <= Gen(s) && n.send == Decides(s.policies[o.gen], s.loop.key, cl)
              && (o.gen == Gen(s) || s.interrupted == Some(o.iter) || s.interrupted == Some(s.iter))
  {
    hide Ok, Decides, TableUpToDate;
  }

  ghost predicate AnsweredRun(s: Sys, acts: seq<Act>, hz: U64, cl: Classifier)
    requires Inv(s) && hz > 0 && Runs(s, acts, hz)
    decreases acts
  {
    acts != [] ==>
      Answered(s, acts[0], cl) && (NextInv(s, acts[0], hz); AnsweredRun(Next(s, acts[0], hz), acts[1..], hz, cl))
  }

  lemma {:induction false} ExecRight(s: Sys, acts: seq<Act>, hz: U64, cl: Classifier)
    requires Inv(s) && Right(s, cl) && hz > 0 && Runs(s, acts, hz) && AnsweredRun(s, acts, hz, cl)
    ensures Right(Exec(s, acts, hz), cl) && Inv(Exec(s, acts, hz))
    decreases acts
  {
    hide Right, Sound, Provenance;
    if acts == [] {
    } else {
      NextInv(s, acts[0], hz);
      NextRight(s, acts[0], hz, cl);
      ExecRight(Next(s, acts[0], hz), acts[1..], hz, cl);
    }
  }

  /** Under every interleaving, the verdict of a hit is the filter's under a policy that was in force no earlier than
      the last interruption allows. */
  lemma StalenessIsBounded(s: Sys, acts: seq<Act>, hz: U64, cl: Classifier)
    requires Init(s) && Inv(s) && hz > 0 && Runs(s, acts, hz) && AnsweredRun(s, acts, hz, cl)
    ensures var t := Exec(s, acts, hz);
            t.loop.Holding? ==>
              && HeldLive(t) && t.loop.node in Origins(t, t.loop.key)
              && var n, o := Pick(t.caches, t.loop.key).nodes[t.loop.node], Origins(t, t.loop.key)[t.loop.node];
                 o.Decided? ==>
                   && 0 <= o.gen < |t.policies| && n.send == Decides(t.policies[o.gen], t.loop.key, cl)
                   && (o.gen == Gen(t) || t.interrupted == Some(o.iter) || t.interrupted == Some(t.iter))
  {
    InitIsRight(s, cl);
    ExecRight(s, acts, hz, cl);
    if Exec(s, acts, hz).loop.Holding? {
      HitIsBoundedlyStale(Exec(s, acts, hz), cl);
    }
  }

  lemma InitIsRight(s: Sys, cl: Classifier)
    requires Init(s)
    ensures Right(s, cl)
  {
  }

  ghost predicate QuietRun(s: Sys, acts: seq<Act>, hz: U64, cl: Classifier)
    requires Inv(s) && hz > 0 && Runs(s, acts, hz)
    decreases acts
  {
    acts != [] ==>
      Quiet(s, acts[0], cl) && (NextInv(s, acts[0], hz); QuietRun(Next(s, acts[0], hz), acts[1..], hz, cl))
  }

  /** What a loop without caches makes of the same events: it knows the policy in force and its own copy of it, and
      decides every packet by the filter. A packet whose lookup fails gets no verdict. */
  ghost function Uncached(policy: BasePolicy, snap: BasePolicy, acts: seq<Act>, cl: Classifier): seq<Emitted>
    decreases acts
  {
    if acts == [] then []
    else
      match acts[0]
      case TakeSnapshot => Uncached(policy, WithDefaults(policy), acts[1..], cl)
      case LookUp(key, _, failing, _) =>
        (if failing then [] else [Emitted(key, Decides(snap, key, cl))]) + Uncached(policy, snap, acts[1..], cl)
      case WritePolicy(p) => Uncached(p, snap, acts[1..], cl)
      case _ => Uncached(policy, snap, acts[1..], cl)
  }

  /** What was emitted, and the filter's verdict on the packet in hand if it has none yet. */
  ghost function Due(s: Sys, cl: Classifier): seq<Emitted> {
    if s.loop.Holding? || s.loop.Missed?
    then s.out + [Emitted(s.loop.key, Decides(s.loop.snap.policy, s.loop.key, cl))]
    else s.out
  }

  /** A step only adds verdicts by looking packets up, and then the filter's. */
  lemma StepDue(s: Sys, a: Act, hz: U64, cl: Classifier)
    requires QuietInv(s, cl) && Enabled(s, a) && Quiet(s, a, cl) && hz > 0
    ensures Due(Next(s, a, hz), cl) == Due(s, cl) +
            if a.LookUp? && !a.failing then [Emitted(a.key, Decides(s.loop.snap.policy, a.key, cl))] else []
  {
    hide Ok, Store, Verdict, Traced, TableUpToDate, NodesRight;
    if a.UseHit? {
      HitIsRight(s, cl);
    }
  }

  /** The loop's copy stays what it is until the next snapshot. */
  lemma StepSnapshot(s: Sys, a: Act, hz: U64)
    requires Inv(s) && Enabled(s, a) && hz > 0
    ensures var t := Next(s, a, hz);
            && |t.policies| > 0
            && t.policies[Gen(t)] == (if a.WritePolicy? then a.policy else s.policies[Gen(s)])
            && (InIteration(t.loop) ==>
                  t.loop.snap.policy ==
                  if a.TakeSnapshot? then WithDefaults(s.policies[Gen(s)]) else s.loop.snap.policy)
            && (InIteration(t.loop) && !a.TakeSnapshot? ==> InIteration(s.loop))
  {
    hide Ok, Store, Verdict, Provenance;
  }

  /** When policies are only applied between iterations, nothing comes from the database and the classifier is one
      function of the target, the loop with caches gives every packet exactly the verdict, in exactly the order, that
      the loop without caches gives it: for every packet sequence, clock, policy history, and failure of allocation,
      insertion or deletion. */
  lemma {:induction false} CachedLoopEqualsUncached(s: Sys, snap: BasePolicy, acts: seq<Act>, hz: U64, cl: Classifier)
    requires QuietInv(s, cl) && hz > 0 && Runs(s, acts, hz) && QuietRun(s, acts, hz, cl)
    requires InIteration(s.loop) ==> snap == s.loop.snap.policy
    ensures |s.policies| > 0
    ensures Due(Exec(s, acts, hz), cl) == Due(s, cl) + Uncached(s.policies[Gen(s)], snap, acts, cl)
    decreases acts
  {
    hide Sound, Provenance, Right, Due, Decides, Next, Quiet, Undisturbed;
    SoundIsSound(s);
    if acts == [] {
    } else {
      var a := acts[0];
      var t := Next(s, a, hz);
      QuietNext(s, a, hz, cl);
      StepDue(s, a, hz, cl);
      StepSnapshot(s, a, hz);
      var copy := if a.TakeSnapshot? then WithDefaults(s.policies[Gen(s)]) else snap;
      CachedLoopEqualsUncached(t, copy, acts[1..], hz, cl);
    }
  }

  /** The actions of one packet with nothing in between. */
  ghost function OnePacket(s: Sys, key: Key, e: Env, hz: U64): (t: Sys)
    requires Sound(s) && s.loop.Ready? && ValidKey(key) && hz > 0
  {
    hide Ok, Store, Verdict, Expired;
    NextSound(s, LookUp(key, e.now, e.failing, e.deletes), hz);
    var u := Next(s, LookUp(key, e.now, e.failing, e.deletes), hz);
    if u.loop.Holding? then Next(u, UseHit, hz)
    else if u.loop.Missed? then
      NextSound(u, DecideMiss(e.answer), hz);
      Next(Next(u, DecideMiss(e.answer), hz), StoreMiss(e.later, e.outcome), hz)
    else u
  }

  /** They do what the packet loop does with one packet. */
  lemma PacketIsDecide(s: Sys, key: Key, e: Env, hz: U64)
    requires Sound(s) && s.loop.Ready? && ValidKey(key) && hz > 0
    ensures var t := OnePacket(s, key, e, hz);
            var (c, a) := Decide(s.caches, s.loop.snap.policy, key, e, hz);
            && t.caches == c && t.loop == s.loop
            && t.out == s.out + if a.Fail? then [] else [Emitted(key, a.Send?)]
  {
    hide Ok, Store, Verdict, Expired;
    NextSound(s, LookUp(key, e.now, e.failing, e.deletes), hz);
    var u := Next(s, LookUp(key, e.now, e.failing, e.deletes), hz);
    if u.loop.Missed? {
      NextSound(u, DecideMiss(e.answer), hz);
    }
  }

  /** Empty caches at the start satisfy what the refinement asks for. */
  lemma EmptyStartIsQuiet(s: Sys, cl: Classifier)
    requires Init(s) && s.caches == Caches(EMPTY_CACHE, EMPTY_CACHE) && s.dnsOrigin == map[] && s.ipOrigin == map[]
    ensures QuietInv(s, cl)
  {
    InitInv(s);
  }
}
