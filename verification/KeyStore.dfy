/** API keys, their positive cache and the throttled last-used writes: the Store object of store.go. */
module KeyStore {
  import opened Common

  const KEY_CACHE_TTL: int := 30 * SECOND
  const LAST_USED_MIN_INTERVAL: int := 60 * SECOND
  const KEY_PREFIX: string := "sk-gap-"

  /** A bcrypt hash matches exactly the plaintext it was made from. */
  datatype BcryptHash = BcryptHash(of: string, salt: nat)

  datatype APIKey = APIKey(
    id: string, name: string, keyHash: BcryptHash, keyLookup: string, keyPrefix: string,
    rateLimitRPS: Option<real>, enabled: bool, createdAt: Time, lastUsedAt: Option<Time>, revokedAt: Option<Time>)

  datatype CacheEntry = CacheEntry(key: APIKey, expiresAt: Time, lastUsed: Time)

  datatype StoreError = Unauthorized | NotFound | DbFailed | NoRandomness | HashFailed

  predicate Live(row: APIKey) {
    row.enabled && row.revokedAt.None?
  }

  /** Equal but for the last use. */
  predicate SameKey(a: APIKey, b: APIKey) {
    a.(lastUsedAt := None) == b.(lastUsedAt := None)
  }

  function DisplayPrefix(plaintext: string): string {
    if |plaintext| < |KEY_PREFIX| + 12 then plaintext else plaintext[..|KEY_PREFIX| + 12] + "\U{2026}"
  }

  /** f is injective: some g takes it back. */
  ghost predicate Injective(f: string -> string) {
    exists g: string -> string :: Undoes(g, f)
  }

  ghost predicate Undoes(g: string -> string, f: string -> string) {
    forall a :: g(f(a)) == a
  }

  /** The check without a cache: some live row has this lookup value and this hash. */
  predicate UncachedAccepts(lookup: string -> string, db: map<string, APIKey>, plaintext: string, id: string) {
    && plaintext != "" && id in db && Live(db[id])
    && db[id].keyLookup == lookup(plaintext) && db[id].keyHash.of == plaintext
  }

  /** The row is the plaintext's, and neither disabled nor revoked. */
  predicate HasKey(db: map<string, APIKey>, plaintext: string, id: string) {
    id in db && db[id].keyHash.of == plaintext && db[id].enabled && db[id].revokedAt.None?
  }

  lemma UncachedAcceptsIs(lookup: string -> string, db: map<string, APIKey>, plaintext: string, id: string)
    requires RowsOk(lookup, db)
    ensures UncachedAccepts(lookup, db, plaintext, id) <==> HasKey(db, plaintext, id)
  {
  }

  /** `key` is the accepted row, stamped with this use. */
  predicate Accepted(lookup: string -> string, db: map<string, APIKey>, plaintext: string, key: APIKey, at: Time) {
    UncachedAccepts(lookup, db, plaintext, key.id) && SameKey(key, db[key.id]) && key.lastUsedAt == Some(at)
  }

  /** Rows are what CreateKey makes, later disabled or not; id and lookup value are unique. */
  ghost predicate RowsOk(lookup: string -> string, db: map<string, APIKey>) {
    && (forall id | id in db :: db[id].id == id && db[id].keyLookup == lookup(db[id].keyHash.of) && db[id].keyHash.of != "")
    && (forall id, jd | id in db && jd in db && db[id].keyLookup == db[jd].keyLookup :: id == jd)
  }

  /** A cached key is a live row under its lookup value, and its entry dates from its last write. */
  predicate EntryOk(db: map<string, APIKey>, lh: string, ent: CacheEntry) {
    && ent.key.keyLookup == lh && ent.key.id in db && Live(db[ent.key.id]) && SameKey(ent.key, db[ent.key.id])
    && 0 < ent.lastUsed == ent.expiresAt - KEY_CACHE_TTL
  }

  ghost predicate CacheOk(db: map<string, APIKey>, cache: map<string, CacheEntry>) {
    forall lh | lh in cache :: EntryOk(db, lh, cache[lh])
  }

  /** The table and the cache without the entries of one key. */
  ghost predicate Purged(cache: map<string, CacheEntry>, id: string, left: map<string, CacheEntry>) {
    && (forall lh :: lh in left <==> lh in cache && cache[lh].key.id != id)
    && (forall lh | lh in left :: left[lh] == cache[lh])
  }

  function Disabled(db: map<string, APIKey>, id: string, at: Time): map<string, APIKey>
    requires id in db
  {
    db[id := db[id].(enabled := false, revokedAt := Some(at))]
  }

  lemma RevokeKeepsOk(lookup: string -> string, db: map<string, APIKey>, cache: map<string, CacheEntry>, id: string,
                      at: Time, left: map<string, CacheEntry>)
    requires RowsOk(lookup, db) && CacheOk(db, cache) && id in db && Purged(cache, id, left)
    ensures RowsOk(lookup, Disabled(db, id, at)) && CacheOk(Disabled(db, id, at), left)
  {
  }

  function Flushed(db: map<string, APIKey>, id: string, at: Time): map<string, APIKey>
    requires id in db
  {
    db[id := db[id].(lastUsedAt := Some(at))]
  }

  lemma FlushKeepsOk(lookup: string -> string, db: map<string, APIKey>, cache: map<string, CacheEntry>, id: string, at: Time)
    requires RowsOk(lookup, db) && CacheOk(db, cache) && id in db
    ensures RowsOk(lookup, Flushed(db, id, at)) && CacheOk(Flushed(db, id, at), cache)
  {
  }

  lemma CreateKeepsOk(lookup: string -> string, db: map<string, APIKey>, cache: map<string, CacheEntry>, rec: APIKey)
    requires RowsOk(lookup, db) && CacheOk(db, cache) && rec.id !in db
    requires rec.keyLookup == lookup(rec.keyHash.of) && rec.keyHash.of != ""
    requires forall jd | jd in db :: db[jd].keyLookup != rec.keyLookup
    ensures RowsOk(lookup, db[rec.id := rec]) && CacheOk(db[rec.id := rec], cache)
  {
  }

  lemma PutKeepsOk(db: map<string, APIKey>, cache: map<string, CacheEntry>, rec: APIKey, at: Time)
    requires CacheOk(db, cache) && rec.id in db && db[rec.id] == rec && Live(rec) && at > 0
    ensures CacheOk(db, cache[rec.keyLookup := CacheEntry(rec, at + KEY_CACHE_TTL, at)])
  {
  }

  /** The lookup value being injective, a cached row is the row of this plaintext. */
  lemma HitIsAccepted(lookup: string -> string, db: map<string, APIKey>, plaintext: string, ent: CacheEntry)
    requires Injective(lookup) && RowsOk(lookup, db) && plaintext != "" && EntryOk(db, lookup(plaintext), ent)
    ensures UncachedAccepts(lookup, db, plaintext, ent.key.id)
  {
  }

  // ---- spacing of the last-used writes ----

  /** Until a write at `at` is more than a TTL old, its key is cached with that date or revoked. */
  predicate Recorded(db: map<string, APIKey>, cache: map<string, CacheEntry>, now: Time, id: string, at: Time) {
    && at <= now && id in db
    && (now > at + KEY_CACHE_TTL || !Live(db[id]) ||
        (db[id].keyLookup in cache && cache[db[id].keyLookup].expiresAt == at + KEY_CACHE_TTL))
  }

  ghost predicate Spaced(db: map<string, APIKey>, cache: map<string, CacheEntry>, now: Time, writes: seq<(string, Time)>) {
    && (forall i, j | 0 <= i < j < |writes| && writes[i].0 == writes[j].0 :: writes[j].1 > writes[i].1 + KEY_CACHE_TTL)
    && (forall i {:trigger Recorded(db, cache, now, writes[i].0, writes[i].1)} | 0 <= i < |writes| ::
          Recorded(db, cache, now, writes[i].0, writes[i].1))
    && (forall lh {:trigger Scheduled(writes, cache[lh])} | lh in cache :: Scheduled(writes, cache[lh]))
  }

  /** The entry dates from a write that was scheduled. */
  predicate Scheduled(writes: seq<(string, Time)>, ent: CacheEntry) {
    (ent.key.id, ent.lastUsed) in writes
  }

  predicate NewestWrite(writes: seq<(string, Time)>, id: string, w: Time) {
    (id, w) in writes && forall i | 0 <= i < |writes| && writes[i].0 == id :: writes[i].1 <= w
  }

  /** The cache answers for a key exactly until its newest write is a TTL old. */
  lemma HitIff(lookup: string -> string, db: map<string, APIKey>, cache: map<string, CacheEntry>, now: Time,
               writes: seq<(string, Time)>, plaintext: string, id: string, w: Time)
    requires Injective(lookup) && RowsOk(lookup, db) && CacheOk(db, cache) && Spaced(db, cache, now, writes)
    requires UncachedAccepts(lookup, db, plaintext, id) && NewestWrite(writes, id, w)
    ensures var lh := lookup(plaintext);
            lh in cache && now <= cache[lh].expiresAt <==> now <= w + KEY_CACHE_TTL
  {
    var lh := lookup(plaintext);
    var i :| 0 <= i < |writes| && writes[i] == (id, w);
    assert Recorded(db, cache, now, writes[i].0, writes[i].1);
    if lh in cache {
      HitIsAccepted(lookup, db, plaintext, cache[lh]);
      OneIdPerPlaintext(lookup, db, plaintext, id, cache[lh].key.id);
      assert Scheduled(writes, cache[lh]);
    }
  }

  /** A miss that puts the key back: the write it schedules is far from the earlier ones. */
  lemma PutKeepsSpaced(lookup: string -> string, db: map<string, APIKey>, cache: map<string, CacheEntry>, now: Time,
                       writes: seq<(string, Time)>, rec: APIKey)
    requires Spaced(db, cache, now, writes) && RowsOk(lookup, db)
    requires rec.id in db && db[rec.id] == rec && Live(rec)
    requires rec.keyLookup in cache ==> now > cache[rec.keyLookup].expiresAt
    ensures Spaced(db, cache[rec.keyLookup := CacheEntry(rec, now + KEY_CACHE_TTL, now)], now, writes + [(rec.id, now)])
  {
    var put := cache[rec.keyLookup := CacheEntry(rec, now + KEY_CACHE_TTL, now)];
    forall i | 0 <= i < |writes| ensures Recorded(db, put, now, writes[i].0, writes[i].1) {
      assert Recorded(db, cache, now, writes[i].0, writes[i].1);
    }
    forall i | 0 <= i < |writes| && writes[i].0 == rec.id ensures now > writes[i].1 + KEY_CACHE_TTL {
      assert Recorded(db, cache, now, writes[i].0, writes[i].1);
    }
    forall lh | lh in put ensures Scheduled(writes + [(rec.id, now)], put[lh]) {
      assert lh != rec.keyLookup ==> Scheduled(writes, cache[lh]);
      assert (writes + [(rec.id, now)])[|writes|] == (rec.id, now);
    }
  }

  /** Dropping an expired entry, or all those of a key that is being revoked. */
  lemma DropKeepsSpaced(db: map<string, APIKey>, cache: map<string, CacheEntry>, now: Time, writes: seq<(string, Time)>,
                        after: map<string, APIKey>, left: map<string, CacheEntry>)
    requires Spaced(db, cache, now, writes)
    requires db.Keys == after.Keys && forall id | id in db :: after[id].keyLookup == db[id].keyLookup && (Live(after[id]) ==> Live(db[id]))
    requires forall lh | lh in left :: lh in cache && left[lh] == cache[lh]
    requires forall lh | lh in cache && lh !in left ::
               now > cache[lh].expiresAt || forall id | id in after && after[id].keyLookup == lh :: !Live(after[id])
    ensures Spaced(after, left, now, writes)
  {
    forall i | 0 <= i < |writes| ensures Recorded(after, left, now, writes[i].0, writes[i].1) {
      assert Recorded(db, cache, now, writes[i].0, writes[i].1);
    }
    forall lh | lh in left ensures Scheduled(writes, left[lh]) {
      assert Scheduled(writes, cache[lh]);
    }
  }

  lemma RevokeKeepsSpaced(lookup: string -> string, db: map<string, APIKey>, cache: map<string, CacheEntry>, id: string,
                          now: Time, writes: seq<(string, Time)>, left: map<string, CacheEntry>)
    requires Spaced(db, cache, now, writes) && RowsOk(lookup, db) && CacheOk(db, cache) && id in db && Purged(cache, id, left)
    ensures Spaced(Disabled(db, id, now), left, now, writes)
  {
    var after := Disabled(db, id, now);
    forall lh | lh in cache && lh !in left
      ensures forall jd | jd in after && after[jd].keyLookup == lh :: !Live(after[jd])
    {
      assert EntryOk(db, lh, cache[lh]);
    }
    DropKeepsSpaced(db, cache, now, writes, after, left);
  }

  lemma PutAfterDrop(cache: map<string, CacheEntry>, lh: string, ent: CacheEntry)
    ensures (cache - {lh})[lh := ent] == cache[lh := ent]
  {
  }

  class Store {
    const lookupHash: string -> string

    var db: map<string, APIKey>
    var cache: map<string, CacheEntry>
    var now: Time
    var writes: seq<(string, Time)>  // last_used_at updates scheduled, in order

    ghost predicate Valid()
      reads this
    {
      Injective(lookupHash) && now > 0 && RowsOk(lookupHash, db) && CacheOk(db, cache)
    }

    ghost predicate WritesSpaced()
      reads this
    {
      Spaced(db, cache, now, writes)
    }

    predicate Hit(lh: string, at: Time)
      reads this
    {
      lh in cache && at <= cache[lh].expiresAt
    }

    constructor (lookupHash: string -> string, db: map<string, APIKey>, now: Time)
      ensures this.lookupHash == lookupHash && this.db == db && this.now == now && cache == map[] && writes == []
      ensures Injective(lookupHash) && now > 0 && RowsOk(lookupHash, db) ==> Valid() && WritesSpaced()
    {
      this.lookupHash, this.db, this.now := lookupHash, db, now;
      cache, writes := map[], [];
    }

    method Sleep(d: nat)
      requires Valid()
      modifies this`now
      ensures Valid() && now == old(now) + d
      ensures old(WritesSpaced()) ==> WritesSpaced()
    {
      if WritesSpaced() {
        forall i | 0 <= i < |writes| ensures Recorded(db, cache, now + d, writes[i].0, writes[i].1) {
          assert Recorded(db, cache, now, writes[i].0, writes[i].1);
        }
      }
      now := now + d;
    }

    /** Both random strings, the hash and the insert may fail; a clash of id or lookup value fails the insert. */
    method CreateKey(random: Option<string>, salt: Option<nat>, id: Option<string>, dbOk: bool, name: string, rps: Option<real>)
      returns (r: Result<(APIKey, string), StoreError>)
      requires Valid()
      modifies this`db
      ensures Valid()
      ensures r.Ok? <==> random.Some? && salt.Some? && id.Some? && dbOk && id.value !in old(db) &&
                         forall jd | jd in old(db) :: old(db)[jd].keyLookup != lookupHash(KEY_PREFIX + random.value)
      ensures r.Ok? ==> r.value.1 == KEY_PREFIX + random.value && db == old(db)[id.value := r.value.0]
                        && UncachedAccepts(lookupHash, db, r.value.1, id.value)
      ensures r.Ok? ==> var key := r.value.0;
                        && key.id == id.value && key.name == name && key.rateLimitRPS == rps && key.enabled
                        && key.createdAt == now && key.lastUsedAt == None && key.revokedAt == None
                        && key.keyHash == BcryptHash(r.value.1, salt.value) && key.keyLookup == lookupHash(r.value.1)
                        && key.keyPrefix == if |r.value.1| < 19 then r.value.1 else r.value.1[..19] + ['\U{2026}']
      ensures r.Err? ==> db == old(db)
      ensures r == Err(DbFailed) ==> random.Some? && salt.Some? && id.Some?
      ensures old(WritesSpaced()) ==> WritesSpaced()
    {
      if random.None? {
        return Err(NoRandomness);
      }
      var plaintext := KEY_PREFIX + random.value;
      if salt.None? {
        return Err(HashFailed);
      }
      if id.None? {
        return Err(NoRandomness);
      }
      var rec := APIKey(id.value, name, BcryptHash(plaintext, salt.value), lookupHash(plaintext), DisplayPrefix(plaintext),
                        rps, true, now, None, None);
      // primary key and unique index on key_lookup
      if !dbOk || rec.id in db || exists jd | jd in db :: db[jd].keyLookup == rec.keyLookup {
        return Err(DbFailed);
      }
      CreateKeepsOk(lookupHash, db, cache, rec);
      db := db[rec.id := rec];
      if old(WritesSpaced()) {
        forall i | 0 <= i < |writes| ensures Recorded(db, cache, now, writes[i].0, writes[i].1) {
          assert Recorded(old(db), cache, now, writes[i].0, writes[i].1);
        }
      }
      return Ok((rec, plaintext));
    }

    /** The update and then the purge of this store's cache. */
    method RevokeKey(id: string, dbOk: bool) returns (err: Option<StoreError>)
      requires Valid()
      modifies this`db, this`cache
      ensures Valid()
      ensures err == if !dbOk then Some(DbFailed) else if id in old(db) && old(db)[id].revokedAt.None? then None else Some(NotFound)
      ensures err.None? ==> db == Disabled(old(db), id, now) && Purged(old(cache), id, cache)
      ensures err.None? ==> !db[id].enabled && db[id].revokedAt == Some(now) &&
                            db[id].(enabled := true, revokedAt := None) == old(db)[id].(enabled := true) &&
                            forall jd | jd != id :: (jd in db <==> jd in old(db)) && (jd in db ==> db[jd] == old(db)[jd])
      ensures err.None? || err == Some(NotFound) ==> forall plaintext :: !UncachedAccepts(lookupHash, db, plaintext, id)
      ensures err.Some? ==> db == old(db) && cache == old(cache)
      ensures old(WritesSpaced()) ==> WritesSpaced()
    {
      if !dbOk {
        return Some(DbFailed);
      }
      if id !in db || db[id].revokedAt.Some? {
        return Some(NotFound);
      }
      db := Disabled(db, id, now);
      InvalidateCacheByID(id);
      RevokeKeepsOk(lookupHash, old(db), old(cache), id, now, cache);
      if old(WritesSpaced()) {
        RevokeKeepsSpaced(lookupHash, old(db), old(cache), id, now, writes, cache);
      }
      return None;
    }

    method InvalidateCacheByID(id: string)
      modifies this`cache
      ensures Purged(old(cache), id, cache)
    {
      var todo := cache.Keys;
      while todo != {}
        invariant todo <= old(cache).Keys
        invariant forall lh :: lh in cache <==> lh in old(cache) && (lh in todo || old(cache)[lh].key.id != id)
        invariant forall lh | lh in cache :: cache[lh] == old(cache)[lh]
      {
        var lh :| lh in todo;
        todo := todo - {lh};
        if lh in cache && cache[lh].key.id == id {
          cache := cache - {lh};
        }
      }
    }

    method CacheGet(lh: string) returns (ent: Option<CacheEntry>)
      requires Valid()
      modifies this`cache
      ensures Valid() && (ent.Some? ==> EntryOk(db, lh, ent.value))
      ensures old(WritesSpaced()) ==> WritesSpaced()
      ensures ent == if old(Hit(lh, now)) then Some(old(cache)[lh]) else None
      ensures cache == if ent.None? then old(cache) - {lh} else old(cache)
    {
      if lh !in cache {
        assert cache - {lh} == cache;
        return None;
      }
      assert EntryOk(db, lh, cache[lh]);
      if now > cache[lh].expiresAt {
        cache := cache - {lh};
        if old(WritesSpaced()) {
          DropKeepsSpaced(db, old(cache), now, writes, db, cache);
        }
        return None;
      }
      return Some(cache[lh]);
    }

    method CachePut(lh: string, rec: APIKey, at: Time)
      modifies this`cache
      ensures cache == old(cache)[lh := CacheEntry(rec, at + KEY_CACHE_TTL, 0)]
    {
      cache := cache[lh := CacheEntry(rec, at + KEY_CACHE_TTL, 0)];
    }

    method TouchLastUsed(lh: string, id: string, at: Time)
      modifies this`cache, this`writes
      ensures
        if lh in old(cache) && (old(cache)[lh].lastUsed == 0 || at - old(cache)[lh].lastUsed >= LAST_USED_MIN_INTERVAL)
        then cache == old(cache)[lh := old(cache)[lh].(lastUsed := at)] && writes == old(writes) + [(id, at)]
        else cache == old(cache) && writes == old(writes)
    {
      if lh !in cache {
        return;
      }
      if cache[lh].lastUsed != 0 && at - cache[lh].lastUsed < LAST_USED_MIN_INTERVAL {
        return;
      }
      cache := cache[lh := cache[lh].(lastUsed := at)];
      writes := writes + [(id, at)];
    }

    /** A scheduled update reaches the database. */
    method FlushLastUsed(id: string, at: Time)
      requires Valid()
      modifies this`db
      ensures Valid() && db.Keys == old(db).Keys
      ensures forall jd | jd in db :: db[jd] == if jd == id then old(db)[jd].(lastUsedAt := Some(at)) else old(db)[jd]
      ensures old(WritesSpaced()) ==> WritesSpaced()
    {
      if id in db {
        FlushKeepsOk(lookupHash, db, cache, id, at);
        if WritesSpaced() {
          forall i | 0 <= i < |writes| ensures Recorded(Flushed(db, id, at), cache, now, writes[i].0, writes[i].1) {
            assert Recorded(db, cache, now, writes[i].0, writes[i].1);
          }
        }
        db := Flushed(db, id, at);
      }
    }

    /** The row the SELECT by lookup value finds. */
    method FindLive(lh: string) returns (rec: Option<APIKey>)
      requires Valid()
      ensures rec.Some? ==> rec.value.id in db && db[rec.value.id] == rec.value && Live(rec.value) && rec.value.keyLookup == lh
      ensures rec.None? ==> forall id | id in db && Live(db[id]) :: db[id].keyLookup != lh
    {
      var todo := db.Keys;
      while todo != {}
        invariant todo <= db.Keys
        invariant forall id | id in db.Keys - todo && Live(db[id]) :: db[id].keyLookup != lh
      {
        var id :| id in todo;
        todo := todo - {id};
        if Live(db[id]) && db[id].keyLookup == lh {
          return Some(db[id]);
        }
      }
      return None;
    }

    /** The path of a hit: the throttle is never due, so nothing is written. */
    method ServeHit(plaintext: string, lh: string, at: Time) returns (r: Result<APIKey, StoreError>)
      requires Valid() && lh == lookupHash(plaintext) && plaintext != "" && at <= now && Hit(lh, now)
      modifies this`cache, this`writes
      ensures r.Ok? && Accepted(lookupHash, db, plaintext, r.value, at)
      ensures cache == old(cache) && writes == old(writes)
    {
      var ent := cache[lh];
      assert EntryOk(db, lh, ent);
      HitIsAccepted(lookupHash, db, plaintext, ent);
      TouchLastUsed(lh, ent.key.id, at);
      return Ok(ent.key.(lastUsedAt := Some(at)));
    }

    /** A validated key goes to the cache, and its use is written. */
    method Remember(lh: string, rec: APIKey, at: Time)
      requires Valid() && lh == rec.keyLookup && lh !in cache && 0 < at <= now
      requires rec.id in db && db[rec.id] == rec && Live(rec)
      modifies this`cache, this`writes
      ensures Valid()
      ensures cache == old(cache)[lh := CacheEntry(rec, at + KEY_CACHE_TTL, at)] && writes == old(writes) + [(rec.id, at)]
      ensures at == now && old(WritesSpaced()) ==> WritesSpaced()
    {
      PutKeepsOk(db, cache, rec, at);
      CachePut(lh, rec, at);
      TouchLastUsed(lh, rec.id, at);
      assert cache == old(cache)[lh := CacheEntry(rec, at + KEY_CACHE_TTL, at)];
      if at == now && old(WritesSpaced()) {
        PutKeepsSpaced(lookupHash, db, old(cache), now, old(writes), rec);
      }
    }

    /** The path of a miss: row, bcrypt, cache, throttled write. */
    method ValidateUncached(plaintext: string, lh: string, at: Time, dbOk: bool) returns (r: Result<APIKey, StoreError>)
      requires Valid() && lh == lookupHash(plaintext) && plaintext != "" && 0 < at <= now
      requires lh !in cache
      modifies this`cache, this`writes
      ensures Valid()
      ensures r.Ok? ==> Accepted(lookupHash, db, plaintext, r.value, at)
      ensures r == Err(Unauthorized) ==> forall id :: !UncachedAccepts(lookupHash, db, plaintext, id)
      ensures r.Err? ==> r.error == if dbOk then Unauthorized else DbFailed
      ensures if r.Ok?
              then cache == old(cache)[lh := CacheEntry(db[r.value.id], at + KEY_CACHE_TTL, at)]
                   && writes == old(writes) + [(r.value.id, at)]
              else cache == old(cache) && writes == old(writes)
      ensures at == now && old(WritesSpaced()) ==> WritesSpaced()
    {
      if !dbOk {
        return Err(DbFailed);
      }
      var rec := FindLive(lh);
      if rec.None? || rec.value.keyHash.of != plaintext {
        return Err(Unauthorized);
      }
      Remember(lh, rec.value, at);
      return Ok(rec.value.(lastUsedAt := Some(at)));
    }

    /** Accepts exactly the plaintexts the uncached check accepts, with the same key, although a hit skips
        both the row and bcrypt; only a miss writes to the cache and schedules a last-used write. `at` is the
        reading of the clock at the start, `now` the one that decides whether an entry has expired. */
    method ValidatePlaintext(plaintext: string, at: Time, dbOk: bool) returns (r: Result<APIKey, StoreError>)
      requires Valid() && 0 < at <= now
      modifies this`cache, this`writes
      ensures Valid()
      ensures r.Ok? ==> Accepted(lookupHash, db, plaintext, r.value, at)
      ensures r == Err(Unauthorized) ==> forall id :: !UncachedAccepts(lookupHash, db, plaintext, id)
      // the same in the row's own fields
      ensures r.Ok? ==> HasKey(db, plaintext, r.value.id) && r.value == db[r.value.id].(lastUsedAt := Some(at))
      ensures r == Err(Unauthorized) && plaintext != "" ==>
                forall id :: !HasKey(db, plaintext, id)
      ensures r.Err? ==> r.error == if plaintext == "" || dbOk then Unauthorized else DbFailed
      ensures old(Hit(lookupHash(plaintext), now)) && plaintext != "" ==>
                r.Ok? && cache == old(cache) && writes == old(writes)
      ensures r.Ok? && !old(Hit(lookupHash(plaintext), now)) ==>
                && cache == old(cache)[lookupHash(plaintext) := CacheEntry(db[r.value.id], at + KEY_CACHE_TTL, at)]
                && writes == old(writes) + [(r.value.id, at)]
      ensures r.Err? ==> cache == (if plaintext == "" then old(cache) else old(cache) - {lookupHash(plaintext)})
                         && writes == old(writes)
      ensures at == now && old(WritesSpaced()) ==> WritesSpaced()
    {
      if plaintext == "" {
        return Err(Unauthorized);
      }
      var lh := lookupHash(plaintext);
      var ent := CacheGet(lh);
      if ent.Some? {
        r := ServeHit(plaintext, lh, at);
        return;
      }
      r := ValidateUncached(plaintext, lh, at, dbOk);
      if r.Ok? {
        PutAfterDrop(old(cache), lh, CacheEntry(db[r.value.id], at + KEY_CACHE_TTL, at));
      } else {
        forall id ensures UncachedAccepts(lookupHash, db, plaintext, id) <==> HasKey(db, plaintext, id) {
          UncachedAcceptsIs(lookupHash, db, plaintext, id);
        }
      }
    }
  }

  /** The 60 s throttle never decides: a key whose newest last-used write is at w is written again by a use at
      `now` exactly when now > w + 30 s, so within the 60 s interval exactly when w + 30 s < now < w + 60 s. */
  method UseAgain(s: Store, plaintext: string, id: string, w: Time) returns (written: bool)
    requires s.Valid() && s.WritesSpaced() && UncachedAccepts(s.lookupHash, s.db, plaintext, id)
    requires NewestWrite(s.writes, id, w)
    modifies s`cache, s`writes
    ensures s.Valid() && s.WritesSpaced()
    ensures s.writes == if written then old(s.writes) + [(id, s.now)] else old(s.writes)
    ensures written <==> s.now > w + KEY_CACHE_TTL
    ensures written && s.now < w + LAST_USED_MIN_INTERVAL <==> w + KEY_CACHE_TTL < s.now < w + LAST_USED_MIN_INTERVAL
  {
    var before := |s.writes|;
    HitIff(s.lookupHash, s.db, s.cache, s.now, s.writes, plaintext, id, w);
    var r := s.ValidatePlaintext(plaintext, s.now, true);
    assert r != Err(Unauthorized);
    OneIdPerPlaintext(s.lookupHash, s.db, plaintext, id, r.value.id);
    written := |s.writes| > before;
  }

  method Use(s: Store, plaintext: string, id: string)
    requires s.Valid() && UncachedAccepts(s.lookupHash, s.db, plaintext, id)
    modifies s`cache, s`writes
    ensures s.Valid()
    ensures var lh := s.lookupHash(plaintext);
            if old(s.Hit(lh, s.now)) then s.cache == old(s.cache) && s.writes == old(s.writes)
            else lh in s.cache && s.cache[lh].expiresAt == s.now + KEY_CACHE_TTL && s.writes == old(s.writes) + [(id, s.now)]
  {
    var r := s.ValidatePlaintext(plaintext, s.now, true);
    assert r != Err(Unauthorized);
    OneIdPerPlaintext(s.lookupHash, s.db, plaintext, id, r.value.id);
  }

  /** The use of a key d after it was cached is written exactly when d exceeds the cache lifetime. */
  method UseLater(s: Store, plaintext: string, id: string, d: nat)
    requires s.Valid() && UncachedAccepts(s.lookupHash, s.db, plaintext, id)
    requires var lh := s.lookupHash(plaintext); lh in s.cache && s.cache[lh].expiresAt == s.now + KEY_CACHE_TTL
    modifies s
    ensures s.writes == if d > KEY_CACHE_TTL then old(s.writes) + [(id, old(s.now) + d)] else old(s.writes)
  {
    s.Sleep(d);
    assert s.Hit(s.lookupHash(plaintext), s.now) <==> d <= KEY_CACHE_TTL;
    Use(s, plaintext, id);
  }

  /** Two uses of an uncached key d apart: the second is written too exactly when d exceeds the cache lifetime. */
  method UseTwice(s: Store, plaintext: string, id: string, d: nat)
    requires s.Valid() && UncachedAccepts(s.lookupHash, s.db, plaintext, id)
    requires !s.Hit(s.lookupHash(plaintext), s.now)
    modifies s
    ensures var once := old(s.writes) + [(id, old(s.now))];
            s.writes == if d > KEY_CACHE_TTL then once + [(id, old(s.now) + d)] else once
  {
    Use(s, plaintext, id);
    UseLater(s, plaintext, id, d);
  }

  lemma OneIdPerPlaintext(lookup: string -> string, db: map<string, APIKey>, plaintext: string, id: string, jd: string)
    requires RowsOk(lookup, db) && UncachedAccepts(lookup, db, plaintext, id) && UncachedAccepts(lookup, db, plaintext, jd)
    ensures id == jd
  {
  }
}
