/** cache.py's RetrievalCache: organisation-scoped keys over Redis, with the LRU cache as fallback. */
module RetrievalCaches {
  import opened Options
  import opened LruCaches
  import opened Texts

  // ---------- Keys ----------

  function OrgPrefix(org: int): string {
    Field("org=", org, '|', "")
  }

  /** The key of an already stripped and lower-cased query. */
  function Key(query: string, org: int, topK: int): string {
    Field("org=", org, '|', Field("topk=", topK, '|', "q=" + query))
  }

  /** The key determines the organisation, the result count and the query. */
  lemma KeyInjective(q1: string, o1: int, k1: int, q2: string, o2: int, k2: int)
    requires Key(q1, o1, k1) == Key(q2, o2, k2)
    ensures q1 == q2 && o1 == o2 && k1 == k2
  {
    FieldInjective("org=", o1, o2, '|', Field("topk=", k1, '|', "q=" + q1), Field("topk=", k2, '|', "q=" + q2));
    FieldInjective("topk=", k1, k2, '|', "q=" + q1, "q=" + q2);
    DropFront("q=", q1, q2);
  }

  /** A key starts with an organisation's prefix exactly when it is that organisation's: org 1 is not org 10. */
  lemma OrgPrefixIsExact(q: string, org: int, topK: int, other: int)
    ensures StartsWith(Key(q, org, topK), OrgPrefix(other)) <==> org == other
  {
    PrefixOfField("org=", org, other, '|', Field("topk=", topK, '|', "q=" + q));
  }

  // ---------- Looking up ----------

  datatype Row<V> = Row(value: V, ts: int)

  /** A value written under a key at a time. */
  datatype Write<V> = Write(key: string, value: V, ts: int)

  /** What a lookup finds: Redis first, where a row lives ttl seconds, then memory, where it counts for ttl seconds. */
  function Found<V>(redis: map<string, Row<V>>, memory: map<string, Row<V>>, key: string, now: int, ttl: nat,
                    redisUp: bool): Option<V>
  {
    if redisUp && key in redis && now < redis[key].ts + ttl then Some(redis[key].value)
    else if key in memory && now - memory[key].ts <= ttl then Some(memory[key].value)
    else None
  }

  /** What a lookup finds after a set, within the time to live. With Redis in the same state both times it is the value.
      One set without Redis is hidden, once Redis is back, by a live older row there; and one set in Redis is not found
      without it, where memory answers as before. */
  lemma SettingIsSeen<V>(redis: map<string, Row<V>>, memory: map<string, Row<V>>, redis': map<string, Row<V>>,
                         memory': map<string, Row<V>>, key: string, value: V, setAt: int, now: int, ttl: nat,
                         upAtSet: bool, upAtGet: bool)
    requires if upAtSet then redis' == redis[key := Row(value, setAt)] && memory' == memory
             else redis' == redis && key in memory' && memory'[key] == Row(value, setAt)
    requires setAt <= now < setAt + ttl
    ensures upAtSet == upAtGet ==> Found(redis', memory', key, now, ttl, upAtGet) == Some(value)
    ensures !upAtSet && upAtGet ==>
              Found(redis', memory', key, now, ttl, upAtGet)
              == if key in redis && now < redis[key].ts + ttl then Some(redis[key].value) else Some(value)
    ensures upAtSet && !upAtGet ==>
              Found(redis', memory', key, now, ttl, upAtGet) == Found(redis, memory, key, now, ttl, false)
  {
  }

  /** The rows of all other organisations. */
  ghost predicate ClearedOf<V>(rows: map<string, Row<V>>, rows': map<string, Row<V>>, org: int) {
    && (forall q, o, k {:trigger Key(q, o, k)} :: Key(q, o, k) in rows' <==> Key(q, o, k) in rows && o != org)
    && forall k :: k in rows' ==> k in rows && rows'[k] == rows[k]
  }

  /** After an organisation was cleared in both stores nothing is found for it, and everything else as before; with
      Redis out of reach during the clearing, what Redis held is found again once it is back, and nothing else. */
  lemma ClearingIsSeen<V>(redis: map<string, Row<V>>, memory: map<string, Row<V>>, redis': map<string, Row<V>>,
                          memory': map<string, Row<V>>, org: int, cleared: bool,
                          query: string, o: int, topK: int, now: int, ttl: nat, redisUp: bool)
    requires ClearedOf(memory, memory', org)
    requires if cleared then ClearedOf(redis, redis', org) else redis' == redis
    ensures var key := Key(query, o, topK);
            Found(redis', memory', key, now, ttl, redisUp)
            == if o != org then Found(redis, memory, key, now, ttl, redisUp)
               else if cleared then None
               else Found(redis, map[], key, now, ttl, redisUp)
  {
    var key := Key(query, o, topK);
    assert key in memory' <==> key in memory && o != org;
    if cleared {
      assert key in redis' <==> key in redis && o != org;
    }
  }

  // ---------- The stores ----------

  /** What all instances of the cache share: the bounded memory of the process and the Redis server. */
  class Stores<V> {
    const memory: BoundedLRUCache<Row<V>>
    var redis: map<string, Row<V>>
    /** Everything any instance ever set. */
    ghost var writes: set<Write<V>>

    ghost predicate Valid()
      reads this, memory
    {
      memory.Valid() && AllWritten(memory.data, writes) && AllWritten(redis, writes)
    }

    constructor (maxSize: int)
      ensures Valid() && fresh(memory) && writes == {}
    {
      memory := new BoundedLRUCache<Row<V>>(maxSize);
      redis, writes := map[], {};
    }
  }

  ghost predicate AllWritten<V>(rows: map<string, Row<V>>, writes: set<Write<V>>) {
    forall k :: k in rows ==> Write(k, rows[k].value, rows[k].ts) in writes
  }

  lemma FoundWasWritten<V>(redis: map<string, Row<V>>, memory: map<string, Row<V>>, writes: set<Write<V>>,
                                 key: string, now: int, ttl: nat, redisUp: bool)
    requires AllWritten(redis, writes) && AllWritten(memory, writes)
    ensures var r := Found(redis, memory, key, now, ttl, redisUp);
            r.Some? ==> exists w :: w in writes && w.key == key && w.value == r.value && now - w.ts <= ttl
  {
    if redisUp && key in redis && now < redis[key].ts + ttl {
      assert Write(key, redis[key].value, redis[key].ts) in writes;
    } else if key in memory {
      assert Write(key, memory[key].value, memory[key].ts) in writes;
    }
  }

  // ---------- The cache ----------

  class RetrievalCache<V> {
    const stores: Stores<V>
    const ttl: nat

    constructor (stores: Stores<V>, ttlSeconds: int)
      ensures this.stores == stores && ttl == if ttlSeconds >= 1 then ttlSeconds else 1
    {
      this.stores := stores;
      ttl := if ttlSeconds >= 1 then ttlSeconds else 1;
    }

    /** Returns what the stores hold for the organisation, result count and query; an outdated row leaves memory. */
    method Get(query: string, org: int, topK: int, now: int, redisUp: bool) returns (r: Option<V>)
      requires stores.Valid()
      modifies stores.memory
      ensures stores.Valid()
      ensures r == Found(stores.redis, old(stores.memory.data), Key(query, org, topK), now, ttl, redisUp)
      ensures r.Some? ==> exists w :: w in stores.writes && w.key == Key(query, org, topK) && w.value == r.value
                                      && now - w.ts <= ttl
      ensures r.Some? ==> stores.memory.data == old(stores.memory.data)
      ensures r.None? ==> stores.memory.data == old(stores.memory.data) - {Key(query, org, topK)}
    {
      var key := Key(query, org, topK);
      FoundWasWritten(stores.redis, stores.memory.data, stores.writes, key, now, ttl, redisUp);
      if redisUp && key in stores.redis && now < stores.redis[key].ts + ttl {
        return Some(stores.redis[key].value);
      }
      var row := stores.memory.Get(key);
      if row.None? {
        assert stores.memory.data - {key} == stores.memory.data;
        return None;
      }
      if now - row.value.ts > ttl {
        var popped := stores.memory.Pop(key);
        return None;
      }
      r := Some(row.value.value);
    }

    /** Written to Redis when it is up, and to memory otherwise. */
    method Set(query: string, org: int, topK: int, value: V, now: int, redisUp: bool)
      requires stores.Valid()
      modifies stores, stores.memory
      ensures stores.Valid() && stores.writes == old(stores.writes) + {Write(Key(query, org, topK), value, now)}
      ensures redisUp ==> stores.redis == old(stores.redis)[Key(query, org, topK) := Row(value, now)]
                          && stores.memory.data == old(stores.memory.data)
      ensures !redisUp ==> stores.redis == old(stores.redis) && Key(query, org, topK) in stores.memory.data
                           && stores.memory.data[Key(query, org, topK)] == Row(value, now)
    {
      var key := Key(query, org, topK);
      stores.writes := stores.writes + {Write(key, value, now)};
      if redisUp {
        stores.redis := stores.redis[key := Row(value, now)];
      } else {
        stores.memory.Set(key, Row(value, now));
        NewestIsKept(After(stores.memory.run.before, stores.memory.maxSize), key, Row(value, now),
            stores.memory.maxSize);
      }
    }

    /** Drops the rows of one organisation and no others: in memory always, in Redis when it is up. Any instance will
        do, for all share the stores. */
    method ClearForOrg(org: int, redisUp: bool)
      requires stores.Valid()
      modifies stores`redis, stores.memory
      ensures stores.Valid() && ClearedOf(old(stores.memory.data), stores.memory.data, org)
      ensures if redisUp then ClearedOf(old(stores.redis), stores.redis, org) else stores.redis == old(stores.redis)
    {
      stores.memory.ClearMatching(OrgPrefix(org));
      if redisUp {
        stores.redis := map k | k in stores.redis && !StartsWith(k, OrgPrefix(org)) :: stores.redis[k];
      }
      forall q, o, k {:trigger Key(q, o, k)} ensures StartsWith(Key(q, o, k), OrgPrefix(org)) <==> o == org {
        OrgPrefixIsExact(q, o, k, org);
      }
    }
  }

  /** The entry just set survives the eviction it may cause, and the others keep their values. */
  lemma NewestIsKept<V>(e: Entries<V>, k: string, v: V, size: nat)
    requires size >= 1
    ensures k in Step(e, Op.Set(k, v), size).data && Step(e, Op.Set(k, v), size).data[k] == v
    ensures forall x :: x in Step(e, Op.Set(k, v), size).data && x != k ==>
              x in e.data && Step(e, Op.Set(k, v), size).data[x] == e.data[x]
  {
    var touched := TouchKey(e.keys, k);
    var keys := Newest(touched, size);
    assert touched[|touched| - 1] == k;
    assert keys[|keys| - 1] == k;
  }
}
