/** Saving the domain cache to its database table, and loading the table when the worker starts. */
module CachePersistence {
  import opened Bytes
  import opened Options
  import opened Expiry
  import opened NodeCache
  import opened CacheKeys

  /** A row of the main table; the domain text is its primary key. */
  datatype Row = Row(send: I32, trust: I32, timestamp: I64, ttl: I32)

  type Db = map<Str, Row>

  /** The signed casts **/

  function ToI64(x: U64): (r: I64) { if x >= TWO63 then x - TWO64 else x }
  function ToI32(x: U32): (r: I32) { if x >= 0x8000_0000 then x - TWO32 else x }
  function FromI64(x: I64): (r: U64) { x % TWO64 }
  function FromI32(x: I32): (r: U32) { x % TWO32 }

  function ToRow(d: Decision): (r: Row) {
    Row(if d.send then 1 else 0, d.trust, ToI64(d.timestamp), ToI32(d.ttl))
  }

  function FromRow(r: Row): (d: Decision) {
    Decision(r.send != 0, r.trust, FromI64(r.timestamp), FromI32(r.ttl))
  }

  /** A row shows the decision as 1 or 0, the trust level as it is, and timestamp and time to live modulo 2^64 and 2^32;
      reading it gives the decision back. */
  lemma RowRoundTrip(d: Decision)
    ensures FromRow(ToRow(d)) == d
    ensures var r := ToRow(d);
            && r.send in {0, 1} && (r.send == 1 <==> d.send) && r.trust == d.trust
            && (r.timestamp == d.timestamp || r.timestamp == d.timestamp - TWO64)
            && (r.ttl == d.ttl || r.ttl == d.ttl - TWO32)
  {
  }

  /** Any row is read as sending unless its decision is 0, with timestamp and time to live taken as unsigned. */
  lemma RowRead(r: Row)
    ensures var d := FromRow(r);
            && (d.send <==> r.send != 0) && d.trust == r.trust
            && d.timestamp == (if r.timestamp < 0 then r.timestamp + TWO64 else r.timestamp)
            && d.ttl == (if r.ttl < 0 then r.ttl + TWO32 else r.ttl)
  {
  }

  /** Texts and keys **/

  ghost predicate ValidText(t: Str) {
    NUL !in t && |t| < DOMAIN_MAX_LEN
  }

  ghost predicate ValidDb(db: Db) {
    forall t | t in db :: ValidText(t)
  }

  function TextOf(key: Key): (t: Str)
    requires key.DomainKey?
    ensures ValidText(t)
  {
    Clipped(key.buf, DOMAIN_MAX_LEN)
  }

  function KeyFor(t: Str): (key: Key) {
    DomainKey(Padded(t))
  }

  /** The table holds stored domain keys only. */
  ghost predicate DomainCache(c: Cache) {
    TableLive(c) && forall k | k in c.table :: k.DomainKey? && StoredKey(k) == k
  }

  lemma TextRoundTrip(t: Str)
    requires ValidText(t)
    ensures TextOf(KeyFor(t)) == t && StoredKey(KeyFor(t)) == KeyFor(t)
  {
    CStrOfPlain(t);
    PaddedSpells(t);
  }

  lemma KeyRoundTrip(k: Key)
    requires k.DomainKey? && StoredKey(k) == k
    ensures KeyFor(TextOf(k)) == k
  {
    CStrOfPlain(TextOf(k));
  }

  /** Saving **/

  function DecisionOf(n: Node): (d: Decision) {
    Decision(n.send, n.trust, n.timestamp, n.ttl)
  }

  /** The table's keys, in some order. */
  ghost predicate Lists(keys: seq<Key>, c: Cache) {
    && (forall k :: k in keys <==> k in c.table)
    && |keys| == |c.table.Keys|
  }

  /** The database after one `INSERT OR REPLACE` for each of `keys`. */
  ghost function Saved(db: Db, c: Cache, keys: seq<Key>): Db
    requires DomainCache(c) && forall k | k in keys :: k in c.table
  {
    if keys == [] then db
    else
      var k, rest := keys[|keys| - 1], keys[..|keys| - 1];
      Saved(db, c, rest)[TextOf(k) := ToRow(DecisionOf(c.nodes[c.table[k]]))]
  }

  /** Takes a snapshot of the table, in whatever order it yields its entries, then writes it row by row. */
  method SaveAll(c: Cache, db: Db) returns (saved: Db, records: nat, keys: seq<Key>)
    requires DomainCache(c)
    ensures Lists(keys, c) && records == |c.table.Keys| && saved == Saved(db, c, keys)
  {
    hide StoredKey, TextOf, ToRow;
    keys := Snapshot(c);
    saved, records := db, 0;
    while records < |keys|
      invariant records <= |keys|
      invariant saved == Saved(db, c, keys[..records])
    {
      var k := keys[records];
      assert keys[..records + 1][..records] == keys[..records];
      assert k in keys;
      saved := saved[TextOf(k) := ToRow(DecisionOf(c.nodes[c.table[k]]))];
      records := records + 1;
    }
    assert keys[..records] == keys;
  }

  method Snapshot(c: Cache) returns (keys: seq<Key>)
    ensures Lists(keys, c)
  {
    keys := [];
    var rest := c.table.Keys;
    while rest != {}
      invariant rest <= c.table.Keys
      invariant forall k :: k in keys <==> k in c.table.Keys && k !in rest
      invariant |keys| + |rest| == |c.table.Keys|
    {
      var k :| k in rest;
      keys := keys + [k];
      rest := rest - {k};
    }
  }

  /** Loading **/

  datatype LoadResult = LoadOk | LoadExpired | LoadError

  /** A row as the loader parsed it. */
  datatype Read = Read(key: Key, d: Decision)

  function ReadRow(row: (Str, Row)): (r: Read) {
    Read(KeyFor(row.0), FromRow(row.1))
  }

  function ReadAll(rows: seq<(Str, Row)>): (r: seq<Read>)
    ensures |r| == |rows|
    ensures forall i | 0 <= i < |rows| :: r[i] == ReadRow(rows[i])
  {
    seq(|rows|, i requires 0 <= i < |rows| => ReadRow(rows[i]))
  }

  ghost function LoadRow(c: Cache, r: Read, now: U64, hz: U64, o: StoreOutcome): Cache
    requires hz > 0
  {
    if Expired(now, r.d.timestamp, r.d.ttl, hz) then c else Store(c, r.key, r.d, o)
  }

  ghost function Outcome(r: Read, now: U64, hz: U64, o: StoreOutcome): LoadResult
    requires hz > 0
  {
    if Expired(now, r.d.timestamp, r.d.ttl, hz) then LoadExpired else if o.Stored? then LoadOk else LoadError
  }

  /** The cache after loading `rows` in order; `o(i)` says how storing row `i` ends. */
  ghost function Load(c: Cache, rows: seq<Read>, now: U64, hz: U64, o: nat -> StoreOutcome): Cache
    requires hz > 0
  {
    if rows == [] then c
    else
      var n := |rows| - 1;
      LoadRow(Load(c, rows[..n], now, hz, o), rows[n], now, hz, o(n))
  }

  /** How many rows end with `result`. */
  ghost function Count(rows: seq<Read>, now: U64, hz: U64, o: nat -> StoreOutcome, result: LoadResult): nat
    requires hz > 0
  {
    if rows == [] then 0
    else
      var n := |rows| - 1;
      Count(rows[..n], now, hz, o, result) + if Outcome(rows[n], now, hz, o(n)) == result then 1 else 0
  }

  /** Loads every row that has not expired, and counts how the rows ended. */
  method LoadAll(cache: CacheObject, rows: seq<(Str, Row)>, now: U64, hz: U64, o: nat -> StoreOutcome)
    returns (loaded: nat, expired: nat, errors: nat)
    requires hz > 0 && Ok(cache.c)
    modifies cache
    ensures cache.c == Load(old(cache.c), ReadAll(rows), now, hz, o)
    ensures loaded == Count(ReadAll(rows), now, hz, o, LoadOk)
    ensures expired == Count(ReadAll(rows), now, hz, o, LoadExpired)
    ensures errors == Count(ReadAll(rows), now, hz, o, LoadError)
    ensures loaded + expired + errors == |rows|
  {
    hide Ok, LoadRow, Outcome, ReadRow;
    ghost var parsed := ReadAll(rows);
    loaded, expired, errors := 0, 0, 0;
    for i := 0 to |rows|
      invariant cache.c == Load(old(cache.c), parsed[..i], now, hz, o)
      invariant loaded == Count(parsed[..i], now, hz, o, LoadOk)
      invariant expired == Count(parsed[..i], now, hz, o, LoadExpired)
      invariant errors == Count(parsed[..i], now, hz, o, LoadError)
      invariant loaded + expired + errors == i
    {
      assert parsed[..i + 1][..i] == parsed[..i];
      LoadOkAlways(old(cache.c), parsed[..i], now, hz, o);
      var result := LoadOne(cache, rows[i], now, hz, o(i));
      match result
      case LoadOk => loaded := loaded + 1;
      case LoadExpired => expired := expired + 1;
      case LoadError => errors := errors + 1;
    }
    assert parsed[..|rows|] == parsed;
  }

  method LoadOne(cache: CacheObject, row: (Str, Row), now: U64, hz: U64, o: StoreOutcome) returns (result: LoadResult)
    requires hz > 0 && Ok(cache.c)
    modifies cache
    ensures cache.c == LoadRow(old(cache.c), ReadRow(row), now, hz, o)
    ensures result == Outcome(ReadRow(row), now, hz, o)
  {
    var r := ReadRow(row);
    if AgeSeconds(now, r.d.timestamp, hz) >= r.d.ttl {
      return LoadExpired;
    }
    cache.Add(r.key, r.d, o);
    return if o.Stored? then LoadOk else LoadError;
  }

  /** What the outcome of a row tells: loaded means that its key now answers with its decision; otherwise the table is
      as it was, and the row was either too old or could not be stored. */
  lemma OutcomeTells(c: Cache, r: Read, now: U64, hz: U64, o: StoreOutcome)
    requires hz > 0 && Ok(c)
    ensures var c', result := LoadRow(c, r, now, hz, o), Outcome(r, now, hz, o);
            var age := if now >= r.d.timestamp then now - r.d.timestamp else TWO64 - (r.d.timestamp - now);
            && (result == LoadExpired <==> age >= r.d.ttl * hz)
            && (result == LoadOk ==>
                  r.key in c'.table && c'.table[r.key] in c'.nodes && DecisionOf(c'.nodes[c'.table[r.key]]) == r.d)
            && (result != LoadOk ==> c'.table == c.table)
            && (result == LoadError ==> !o.Stored?)
  {
    hide Ok, Expired;
    ExpiryExact(now, r.d.timestamp, r.d.ttl, hz);
  }

  /** Loading keeps the heap in order, however storing the rows ends. */
  lemma {:induction false} LoadOkAlways(c: Cache, rows: seq<Read>, now: U64, hz: U64, o: nat -> StoreOutcome)
    requires hz > 0 && Ok(c)
    ensures Ok(Load(c, rows, now, hz, o))
  {
    if rows == [] {
    } else {
      var n := |rows| - 1;
      LoadOkAlways(c, rows[..n], now, hz, o);
      StoreOk(Load(c, rows[..n], now, hz, o), rows[n].key, rows[n].d, o(n));
    }
  }

  /** Save, then load **/

  /** What the cache answers for a key, timing aside. */
  ghost function Held(c: Cache, key: Key): Option<Decision>
    requires TableLive(c)
  {
    if key in c.table then Some(DecisionOf(c.nodes[c.table[key]])) else None
  }

  /** What the database records for a key. */
  ghost function Recorded(db: Db, key: Key): Option<Decision> {
    if key.DomainKey? && StoredKey(key) == key && TextOf(key) in db then Some(FromRow(db[TextOf(key)])) else None
  }

  ghost function Unexpired(d: Option<Decision>, now: U64, hz: U64): Option<Decision>
    requires hz > 0
  {
    if d.Some? && !Expired(now, d.value.timestamp, d.value.ttl, hz) then d else None
  }

  /** Rows in the order the database yields them. */
  ghost predicate Enumerates(rows: seq<(Str, Row)>, db: Db) {
    && (forall i | 0 <= i < |rows| :: rows[i].0 in db && rows[i].1 == db[rows[i].0])
    && (forall i, j | 0 <= i < j < |rows| :: rows[i].0 != rows[j].0)
    && (forall t | t in db :: exists i | 0 <= i < |rows| :: rows[i].0 == t)
  }

  /** The decision read last for a key. */
  ghost function Among(rows: seq<Read>, key: Key): Option<Decision> {
    if rows == [] then None
    else
      var n := |rows| - 1;
      if rows[n].key == key then Some(rows[n].d) else Among(rows[..n], key)
  }

  ghost predicate DistinctKeys(rows: seq<Read>) {
    forall i, j | 0 <= i < j < |rows| :: rows[i].key != rows[j].key
  }

  function NoFailure(i: nat): (o: StoreOutcome) { Stored }

  ghost function Reloaded(rows: seq<Read>, now: U64, hz: U64): Cache
    requires hz > 0
  {
    Load(EMPTY_CACHE, rows, now, hz, NoFailure)
  }

  lemma ReloadedOk(rows: seq<Read>, now: U64, hz: U64)
    requires hz > 0
    ensures Ok(Reloaded(rows, now, hz)) && Reloaded(rows, now, hz).next !in Reloaded(rows, now, hz).nodes
  {
    LoadOkAlways(EMPTY_CACHE, rows, now, hz, NoFailure);
  }

  /** With no failures, a fresh cache holds exactly the unexpired rows. */
  lemma {:induction false} ReloadedHolds(rows: seq<Read>, now: U64, hz: U64, key: Key)
    requires hz > 0 && DistinctKeys(rows)
    ensures TableLive(Reloaded(rows, now, hz))
    ensures Held(Reloaded(rows, now, hz), key) == Unexpired(Among(rows, key), now, hz)
  {
    ReloadedOk(rows, now, hz);
    if rows == [] {
    } else {
      var n := |rows| - 1;
      var r, was := rows[n], Reloaded(rows[..n], now, hz);
      ReloadedOk(rows[..n], now, hz);
      ReloadedHolds(rows[..n], now, hz, key);
      if r.key == key {
        NotAmong(rows[..n], key);
      }
      if !Expired(now, r.d.timestamp, r.d.ttl, hz) {
        assert Reloaded(rows, now, hz) == Store(was, r.key, r.d, Stored);
        StoreHeld(was, r.key, r.d, key);
      }
    }
  }

  lemma StoreHeld(c: Cache, k: Key, d: Decision, key: Key)
    requires TableLive(c) && c.next !in c.nodes && TableLive(Store(c, k, d, Stored))
    ensures Held(Store(c, k, d, Stored), key) == if key == k then Some(d) else Held(c, key)
  {
  }

  lemma {:induction false} NotAmong(rows: seq<Read>, key: Key)
    requires forall i | 0 <= i < |rows| :: rows[i].key != key
    ensures Among(rows, key) == None
  {
    if rows == [] {
    } else {
      NotAmong(rows[..|rows| - 1], key);
    }
  }

  lemma {:induction false} AmongAt(rows: seq<Read>, i: nat)
    requires i < |rows| && DistinctKeys(rows)
    ensures Among(rows, rows[i].key) == Some(rows[i].d)
  {
    if i < |rows| - 1 {
      AmongAt(rows[..|rows| - 1], i);
    }
  }

  lemma EnumeratedKeysDiffer(rows: seq<(Str, Row)>, db: Db)
    requires ValidDb(db) && Enumerates(rows, db)
    ensures DistinctKeys(ReadAll(rows))
  {
    forall i, j | 0 <= i < j < |rows| ensures KeyFor(rows[i].0) != KeyFor(rows[j].0) {
      TextRoundTrip(rows[i].0);
      TextRoundTrip(rows[j].0);
    }
  }

  lemma AmongIsRecorded(rows: seq<(Str, Row)>, db: Db, key: Key)
    requires ValidDb(db) && Enumerates(rows, db)
    ensures Among(ReadAll(rows), key) == Recorded(db, key)
  {
    EnumeratedKeysDiffer(rows, db);
    if key.DomainKey? && StoredKey(key) == key && TextOf(key) in db {
      KeyRoundTrip(key);
      var i :| 0 <= i < |rows| && rows[i].0 == TextOf(key);
      AmongAt(ReadAll(rows), i);
    } else {
      forall i | 0 <= i < |rows| ensures ReadAll(rows)[i].key != key {
        TextRoundTrip(rows[i].0);
      }
      NotAmong(ReadAll(rows), key);
    }
  }

  /** One `INSERT OR REPLACE` changes what is recorded for its key and nothing else. */
  lemma InsertRecords(db: Db, k: Key, d: Decision, key: Key)
    requires ValidDb(db) && k.DomainKey? && StoredKey(k) == k
    ensures ValidDb(db[TextOf(k) := ToRow(d)])
    ensures Recorded(db[TextOf(k) := ToRow(d)], key) == if key == k then Some(d) else Recorded(db, key)
  {
    hide StoredKey, TextOf, ToRow, FromRow;
    KeyRoundTrip(k);
    RowRoundTrip(d);
    if key.DomainKey? && StoredKey(key) == key {
      KeyRoundTrip(key);
    }
  }

  lemma {:induction false} SavedRecords(db: Db, c: Cache, keys: seq<Key>, key: Key)
    requires DomainCache(c) && ValidDb(db)
    requires forall k | k in keys :: k in c.table
    ensures ValidDb(Saved(db, c, keys))
    ensures Recorded(Saved(db, c, keys), key) == if key in keys then Held(c, key) else Recorded(db, key)
  {
    hide Recorded, ValidDb, TextOf, ToRow, StoredKey;
    if keys == [] {
    } else {
      var n := |keys| - 1;
      var k := keys[n];
      SavedRecords(db, c, keys[..n], key);
      InsertRecords(Saved(db, c, keys[..n]), k, DecisionOf(c.nodes[c.table[k]]), key);
      assert keys == keys[..n] + [k];
    }
  }

  /** Saving a cache over an older database and loading the result later, with any iteration order on both sides,
      restores for every key what the cache held, or else what the older database had, unless it has expired. */
  lemma SaveThenLoad(db: Db, c: Cache, keys: seq<Key>, rows: seq<(Str, Row)>, now: U64, hz: U64, key: Key)
    requires DomainCache(c) && ValidDb(db) && hz > 0 && Lists(keys, c)
    requires Enumerates(rows, Saved(db, c, keys))
    ensures TableLive(Reloaded(ReadAll(rows), now, hz))
    ensures Held(Reloaded(ReadAll(rows), now, hz), key)
            == Unexpired(if key in c.table then Held(c, key) else Recorded(db, key), now, hz)
  {
    SavedRecords(db, c, keys, key);
    EnumeratedKeysDiffer(rows, Saved(db, c, keys));
    AmongIsRecorded(rows, Saved(db, c, keys), key);
    ReloadedHolds(ReadAll(rows), now, hz, key);
  }
}
