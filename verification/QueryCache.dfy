/** The two-tier query cache of one process: a local map in front of Redis. Times in seconds. */
module QueryCache {
  import opened Options
  import opened Redis

  datatype CacheTtl = Short | Medium | Long
  {
    function Seconds(): (s: nat)
      ensures s >= 60
    {
      match this
      case Short => 60
      case Medium => 300
      case Long => 900
    }
  }

  /** The text that is hashed into the key: query and parameters with nothing between them. */
  function KeyText(query: string, params: seq<string>): string
    decreases |params|
  {
    if params == [] then query else KeyText(query + params[0], params[1..])
  }

  function Concat(texts: seq<string>): string { if texts == [] then "" else texts[0] + Concat(texts[1..]) }

  lemma {:induction false} KeyTextIsConcat(query: string, params: seq<string>)
    ensures KeyText(query, params) == query + Concat(params)
    decreases |params|
  {
    if params == [] {
      assert query + "" == query;
    } else {
      KeyTextIsConcat(query + params[0], params[1..]);
      assert query + params[0] + Concat(params[1..]) == query + (params[0] + Concat(params[1..]));
    }
  }

  /** Two requests share their cached result exactly when their whole texts are equal, wherever the text is cut
      into query and parameters. */
  lemma SameKeyForSameText(query: string, params: seq<string>, query': string, params': seq<string>)
    ensures KeyText(query, params) == KeyText(query', params') <==> query + Concat(params) == query' + Concat(params')
  {
    KeyTextIsConcat(query, params);
    KeyTextIsConcat(query', params');
  }

  datatype LocalEntry = LocalEntry(value: string, expiresAt: int)

  type LocalTier = map<string, LocalEntry>

  // ---------------------------------------------------------------- what a get and a set do

  /** A cached text that cannot be deserialised fails the get. */
  datatype Reply = Hit(text: string) | Miss | Failed

  predicate Fresh(local: LocalTier, now: int, key: string) { key in local && now < local[key].expiresAt }

  /** The text found: a fresh local entry alone, then Redis, if it can be reached. */
  function CachedText(local: LocalTier, store: Store<string>, now: int, key: string, redisUp: bool): Option<string> {
    if Fresh(local, now, key) then Some(local[key].value)
    else if redisUp && Live(store, now, key) then Some(store[key].value)
    else None
  }

  function GetReply(local: LocalTier, store: Store<string>, now: int, key: string, redisUp: bool, parses: string -> bool): Reply {
    var text := CachedText(local, store, now, key, redisUp);
    if text.None? then (if redisUp then Miss else Failed)
    else if parses(text.value) then Hit(text.value)
    else Failed
  }

  /** An answer from Redis is kept locally for 60 seconds, however long Redis keeps it; an expired local entry is
      dropped. */
  function LocalAfterGet(local: LocalTier, store: Store<string>, now: int, key: string, redisUp: bool): LocalTier {
    if Fresh(local, now, key) then local
    else if redisUp && Live(store, now, key) then local[key := LocalEntry(store[key].value, now + 60)]
    else local - {key}
  }

  function LocalAfterSet(local: LocalTier, now: int, key: string, value: string, ttl: CacheTtl): LocalTier {
    local[key := LocalEntry(value, now + ttl.Seconds())]
  }

  /** `reached` counts the Redis commands that got through: none, the SET, or the SET and the EXPIRE. A set that
      loses its EXPIRE leaves an entry that does not expire. */
  function StoreAfterSet(store: Store<string>, now: int, key: string, value: string, ttl: CacheTtl, reached: nat): Store<string> {
    if reached == 0 then store
    else if reached == 1 then store[key := Entry(value, None)]
    else store[key := Entry(value, Some(now + ttl.Seconds()))]
  }

  class Process {
    var local: LocalTier
    const redis: Server<string>

    constructor (redis: Server<string>)
      ensures this.redis == redis && local == map[]
    {
      this.redis := redis;
      local := map[];
    }

    method Get(query: string, params: seq<string>, redisUp: bool, parses: string -> bool) returns (reply: Reply)
      modifies this`local
      ensures reply == GetReply(old(local), redis.store, redis.now, KeyText(query, params), redisUp, parses)
      ensures forall v, until :: Found(old(local), KeyText(query, params)) == Some(LocalEntry(v, until)) && redis.now < until ==>
        reply == if parses(v) then Hit(v) else Failed
      ensures KeyText(query, params) !in old(local) && !Live(redis.store, redis.now, KeyText(query, params)) ==>
        reply == if redisUp then Miss else Failed
      ensures local == LocalAfterGet(old(local), redis.store, redis.now, KeyText(query, params), redisUp)
    {
      var key := KeyText(query, params);
      if key in local {
        if redis.now < local[key].expiresAt {
          return if parses(local[key].value) then Hit(local[key].value) else Failed;
        }
        local := local - {key};
      }
      assert local == old(local) - {key};
      if !redisUp {
        return Failed;
      }
      var cached := redis.Get(key);
      if cached.None? {
        return Miss;
      }
      local := local[key := LocalEntry(cached.value, redis.now + 60)];
      reply := if parses(cached.value) then Hit(cached.value) else Failed;
    }

    method Set(query: string, params: seq<string>, result: string, ttl: CacheTtl, reached: nat) returns (ok: bool)
      modifies this`local, redis`store
      ensures ok <==> reached >= 2
      ensures local == LocalAfterSet(old(local), redis.now, KeyText(query, params), result, ttl)
      ensures redis.store == StoreAfterSet(old(redis.store), redis.now, KeyText(query, params), result, ttl, reached)
    {
      var key := KeyText(query, params);
      local := local[key := LocalEntry(result, redis.now + ttl.Seconds())];
      if reached == 0 {
        return false;
      }
      redis.Set(key, result);
      if reached == 1 {
        return false;
      }
      redis.Expire(key, ttl.Seconds());
      ok := true;
    }
  }

  // ---------------------------------------------------------------- a set, and a get after it

  /** How long a cached result lives, in seconds. */
  function Lifetime(ttl: CacheTtl): nat {
    match ttl
    case Short => 60
    case Medium => 300
    case Long => 900
  }

  /** Some time after a set, a get of the same text by the same process gives the value set, exactly until its TTL
      has passed; then, with Redis up and both commands of the set having got through, there is nothing. */
  method SetThenGet(process: Process, query: string, params: seq<string>, query': string, params': seq<string>,
                    value: string, ttl: CacheTtl, reached: nat, wait: nat, redisUp: bool, parses: string -> bool)
    returns (reply: Reply)
    requires query + Concat(params) == query' + Concat(params')
    modifies process, process.redis
    ensures wait < Lifetime(ttl) ==> reply == if parses(value) then Hit(value) else Failed
    ensures wait >= Lifetime(ttl) && redisUp && reached >= 2 ==> reply == Miss
    ensures wait >= Lifetime(ttl) && !redisUp ==> reply == Failed
  {
    SameKeyForSameText(query, params, query', params');
    var _ := process.Set(query, params, value, ttl, reached);
    process.redis.Sleep(wait);
    reply := process.Get(query', params', redisUp, parses);
  }

  /** So does a get by another process that has nothing of its own, through Redis. A set whose EXPIRE was lost is
      still there after its TTL. */
  method SetThenGetElsewhere(process: Process, other: Process, query: string, params: seq<string>, query': string,
                             params': seq<string>, value: string, ttl: CacheTtl, reached: nat, wait: nat, parses: string -> bool)
    returns (reply: Reply)
    requires query + Concat(params) == query' + Concat(params')
    requires other != process && other.redis == process.redis && KeyText(query, params) !in other.local
    modifies process, other, process.redis
    ensures reached >= 2 && wait < Lifetime(ttl) ==> reply == if parses(value) then Hit(value) else Failed
    ensures reached >= 2 && wait >= Lifetime(ttl) ==> reply == Miss
    ensures reached == 1 ==> reply == if parses(value) then Hit(value) else Failed
    ensures reached == 0 && KeyText(query, params) !in old(process.redis.store) ==> reply == Miss
  {
    SameKeyForSameText(query, params, query', params');
    var _ := process.Set(query, params, value, ttl, reached);
    process.redis.Sleep(wait);
    reply := other.Get(query', params', true, parses);
  }

  /** A get that was answered from Redis is answered locally for 60 seconds more, even without Redis. */
  method GetThenGet(process: Process, query: string, params: seq<string>, wait: nat, parses: string -> bool)
    returns (first: Reply, second: Reply)
    requires KeyText(query, params) !in process.local
    modifies process, process.redis
    ensures first.Hit? ==> Live(old(process.redis.store), old(process.redis.now), KeyText(query, params))
    ensures first.Hit? ==> first.text == old(process.redis.store)[KeyText(query, params)].value
    ensures first.Hit? ==> second == if wait < 60 then first else Failed
  {
    first := process.Get(query, params, true, parses);
    process.redis.Sleep(wait);
    second := process.Get(query, params, false, parses);
  }
}
