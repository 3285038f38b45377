/** The domain cache from one start of the worker to the next: it is loaded, used by the packet loop under any
    interleaving, saved, and loaded again. */
module Restarts {
  import opened Bytes
  import opened Options
  import opened Expiry
  import opened NodeCache
  import opened CacheKeys
  import opened Pipeline
  import Save = CachePersistence
  import Worker = WorkerSystem

  lemma StoreKeepsDomains(c: Cache, key: Key, d: Decision, o: StoreOutcome)
    requires Ok(c) && Save.DomainCache(c) && key.DomainKey? && StoredKey(key) == key
    ensures Save.DomainCache(Store(c, key, d, o))
  {
    hide Ok, StoredKey;
    StoreOk(c, key, d, o);
    OkIsLive(Store(c, key, d, o));
  }

  lemma ShrinkKeepsDomains(c: Cache, c': Cache)
    requires Save.DomainCache(c) && Ok(c') && Worker.Shrinks(c, c')
    ensures Save.DomainCache(c')
  {
    hide StoredKey;
  }

  ghost predicate DomainRead(r: Save.Read) {
    r.key.DomainKey? && StoredKey(r.key) == r.key
  }

  lemma LoadRowDomains(c: Cache, r: Save.Read, now: U64, hz: U64, o: StoreOutcome)
    requires hz > 0 && Ok(c) && Save.DomainCache(c) && DomainRead(r)
    ensures Save.DomainCache(Save.LoadRow(c, r, now, hz, o))
  {
    hide Ok, Store, StoredKey, Save.DomainCache;
    StoreKeepsDomains(c, r.key, r.d, o);
  }

  lemma {:induction false} LoadDomains(c: Cache, rows: seq<Save.Read>, now: U64, hz: U64, o: nat -> StoreOutcome)
    requires hz > 0 && Ok(c) && Save.DomainCache(c)
    requires forall i | 0 <= i < |rows| :: DomainRead(rows[i])
    ensures Save.DomainCache(Save.Load(c, rows, now, hz, o))
  {
    hide Ok, DomainRead, Save.DomainCache, Save.LoadRow;
    if rows == [] {
    } else {
      var n := |rows| - 1;
      LoadDomains(c, rows[..n], now, hz, o);
      Save.LoadOkAlways(c, rows[..n], now, hz, o);
      LoadRowDomains(Save.Load(c, rows[..n], now, hz, o), rows[n], now, hz, o(n));
    }
  }

  /** Loading rows of a valid database gives a cache of stored domain keys, whatever fails. */
  lemma LoadedDomains(c: Cache, rows: seq<(Str, Save.Row)>, now: U64, hz: U64, o: nat -> StoreOutcome)
    requires hz > 0 && Ok(c) && Save.DomainCache(c)
    requires forall i | 0 <= i < |rows| :: Save.ValidText(rows[i].0)
    ensures Save.DomainCache(Save.Load(c, Save.ReadAll(rows), now, hz, o))
  {
    hide Ok, Save.DomainCache, Save.Load, Save.ValidText, StoredKey;
    forall i | 0 <= i < |rows|
      ensures DomainRead(Save.ReadAll(rows)[i])
    {
      Save.TextRoundTrip(rows[i].0);
    }
    LoadDomains(c, Save.ReadAll(rows), now, hz, o);
  }

  /** So does every step of the worker. */
  lemma NextDomains(s: Worker.Sys, a: Worker.Act, hz: U64)
    requires Worker.Inv(s) && Worker.Enabled(s, a) && hz > 0 && Save.DomainCache(s.caches.dns)
    ensures Save.DomainCache(Worker.Next(s, a, hz).caches.dns)
  {
    hide Ok, Lookup, Store, Verdict, StoredKey, Worker.Shrinks, Worker.Provenance, Save.DomainCache;
    Worker.NextInv(s, a, hz);
    match a
    case LookUp(key, now, failing, deletes) =>
      var c := Pick(s.caches, key);
      Worker.LookupShrinks(c, key, now, hz, failing, deletes);
      if key.DomainKey? {
        LookupOk(c, key, now, hz, failing, deletes);
        ShrinkKeepsDomains(c, Lookup(c, key, now, hz, failing, deletes).0);
      }
    case StoreMiss(later, outcome) =>
      var k, snap := s.loop.key, s.loop.snap;
      StoredKeyTwice(k);
      if k.DomainKey? {
        StoredIsDomain(k);
        StoreKeepsDomains(s.caches.dns, StoredKey(k), Decision(s.loop.send, 0, later, TtlFor(snap.policy, k)), outcome);
      }
    case ClearDns => EmptyIsDomains(Clear(s.caches.dns));
    case Shutdown =>
      OkIsLive(s.caches.dns);
      FreeAllOk(s.caches.dns);
      EmptyIsDomains(FreeAll(s.caches.dns));
    case _ =>
  }

  lemma StoredIsDomain(k: Key)
    requires k.DomainKey?
    ensures StoredKey(k).DomainKey?
  {
  }

  lemma EmptyIsDomains(c: Cache)
    requires c.table == map[]
    ensures Save.DomainCache(c)
  {
  }

  lemma {:induction false} ExecDomains(s: Worker.Sys, acts: seq<Worker.Act>, hz: U64)
    requires Worker.Inv(s) && hz > 0 && Worker.Runs(s, acts, hz) && Save.DomainCache(s.caches.dns)
    ensures Save.DomainCache(Worker.Exec(s, acts, hz).caches.dns)
    decreases acts
  {
    hide Worker.Sound, Worker.Provenance, Save.DomainCache, Worker.Next, Worker.Enabled;
    if acts == [] {
    } else {
      Worker.NextInv(s, acts[0], hz);
      NextDomains(s, acts[0], hz);
      ExecDomains(Worker.Next(s, acts[0], hz), acts[1..], hz);
    }
  }

  /** A whole life of the domain cache. The worker starts with what it could load from a valid database, runs under any
      interleaving, saves, and starts again: every key then answers what the cache held at the save, or else what the
      older database had, unless it has expired; and the database is valid again. */
  lemma RestartRestores(db: Save.Db, rows: seq<(Str, Save.Row)>, start: U64, o: nat -> StoreOutcome,
                        s: Worker.Sys, acts: seq<Worker.Act>, hz: U64,
                        keys: seq<Key>, later: seq<(Str, Save.Row)>, now: U64, key: Key)
    requires hz > 0 && Save.ValidDb(db) && Save.Enumerates(rows, db)
    requires Worker.Init(s) && s.caches.dns == Save.Load(EMPTY_CACHE, Save.ReadAll(rows), start, hz, o)
    requires Worker.Inv(s) && Worker.Runs(s, acts, hz)
    requires Save.Lists(keys, Worker.Exec(s, acts, hz).caches.dns)
    ensures Save.DomainCache(Worker.Exec(s, acts, hz).caches.dns)
    ensures var c := Worker.Exec(s, acts, hz).caches.dns;
            && Save.ValidDb(Save.Saved(db, c, keys))
            && (Save.Enumerates(later, Save.Saved(db, c, keys)) ==>
                  var again := Save.Reloaded(Save.ReadAll(later), now, hz);
                  && TableLive(again)
                  && Save.Held(again, key)
                     == Save.Unexpired(if key in c.table then Save.Held(c, key) else Save.Recorded(db, key), now, hz))
  {
    hide Ok, Worker.Inv, Worker.Runs, Worker.Exec, Save.DomainCache, Save.Load, Save.Saved, Save.Held, Save.Recorded;
    EmptyIsOk();
    EmptyIsDomains(EMPTY_CACHE);
    LoadedDomains(EMPTY_CACHE, rows, start, hz, o);
    ExecDomains(s, acts, hz);
    var c := Worker.Exec(s, acts, hz).caches.dns;
    Save.SavedRecords(db, c, keys, key);
    if Save.Enumerates(later, Save.Saved(db, c, keys)) {
      Save.SaveThenLoad(db, c, keys, later, now, hz, key);
    }
  }

  lemma EmptyIsOk()
    ensures Ok(EMPTY_CACHE)
  {
  }
}
