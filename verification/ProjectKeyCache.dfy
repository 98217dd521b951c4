/** `validate_project_key_cached`: a project key's hash resolves to a project id, through a cache that keeps
    good answers for 300 seconds and bad ones for 60. */
module ProjectKeyCache {
  import opened Options
  import opened Redis
  import RT = ReadThrough

  const VALID_TTL: nat := 300
  const INVALID_TTL: nat := 60

  function TtlOf(answer: Option<string>): nat { if answer.Some? then VALID_TTL else INVALID_TTL }

  function Policy(lag: nat): RT.Config<Option<string>> { RT.Config(TtlOf, lag) }

  function CacheKey(hash: string): string { "project_key:" + hash }

  /** What `SELECT project_id FROM project_keys` says about an unexpired key. */
  function Lookup(db: map<string, string>, hash: string): Option<string> {
    if hash in db then Some(db[hash]) else None
  }

  /** The text cached for an answer. */
  function Encode(answer: Option<string>): string { if answer.None? then "INVALID" else answer.value }

  /** What a cached text means; anything but the marker and a UUID is ignored and counts as a miss. */
  function Decode(text: string, isUuid: string -> bool): Option<Option<string>> {
    if text == "INVALID" then Some(None)
    else if isUuid(text) then Some(Some(text))
    else None
  }

  /** The answer the cache gives, if any. */
  function CachedAnswer(store: Store<string>, now: int, hash: string, isUuid: string -> bool): Option<Option<string>> {
    if Live(store, now, CacheKey(hash)) then Decode(store[CacheKey(hash)].value, isUuid) else None
  }

  /** `Unavailable` is the internal error: no cache connection, or the database could not be asked. */
  datatype Reply = Answer(project: Option<string>) | Unavailable

  /** What worked: getting a cache connection, reading the cache, asking the database, writing the cache. */
  datatype Working = Working(connect: bool, read: bool, query: bool, write: bool)

  function Remembered(store: Store<string>, now: int, hash: string, answer: Option<string>): Store<string> {
    store[CacheKey(hash) := Entry(Encode(answer), Some(now + TtlOf(answer)))]
  }

  /** What a lookup with nothing else going on replies and leaves in the cache. */
  function Looked(store: Store<string>, now: int, db: map<string, string>, hash: string, isUuid: string -> bool, up: Working)
    : (Reply, Store<string>)
  {
    var hit := if up.connect && up.read then CachedAnswer(store, now, hash, isUuid) else None;
    if hit.Some? then (Answer(hit.value), store)
    else if !up.connect || !up.query then (Unavailable, store)
    else (Answer(Lookup(db, hash)), if up.write then Remembered(store, now, hash, Lookup(db, hash)) else store)
  }

  method Validate(redis: Server<string>, db: map<string, string>, hash: string, isUuid: string -> bool, up: Working)
    returns (reply: Reply)
    modifies redis`store
    ensures (reply, redis.store) == Looked(old(redis.store), redis.now, db, hash, isUuid, up)
    ensures var key := "project_key:" + hash;
      && (up.connect && up.query && key !in old(redis.store) ==>
            && reply == Answer(if hash in db then Some(db[hash]) else None)
            && (up.write && hash in db ==> redis.store == old(redis.store)[key := Entry(db[hash], Some(redis.now + 300))])
            && (up.write && hash !in db ==> redis.store == old(redis.store)[key := Entry("INVALID", Some(redis.now + 60))]))
      && (up.connect && up.read && Live(old(redis.store), redis.now, key) ==> var text := old(redis.store)[key].value;
            && (text == "INVALID" ==> reply == Answer(None))
            && (text != "INVALID" && isUuid(text) ==> reply == Answer(Some(text))))
    ensures up == Working(true, true, true, true) && (forall h :: h in db ==> db[h] != "INVALID" && isUuid(db[h])) ==>
      reply.Answer? && CachedAnswer(redis.store, redis.now, hash, isUuid) == Some(reply.project)
  {
    var key := CacheKey(hash);
    if !up.connect {
      return Unavailable;
    }
    var cached: Option<string> := None;
    if up.read {
      cached := redis.Get(key);
    }
    if cached.Some? {
      if cached.value == "INVALID" {
        return Answer(None);
      }
      if isUuid(cached.value) {
        return Answer(cached);
      }
    }
    if !up.query {
      return Unavailable;
    }
    if hash in db {
      if up.write {
        redis.SetEx(key, db[hash], VALID_TTL);
      }
      reply := Answer(Some(db[hash]));
    } else {
      if up.write {
        redis.SetEx(key, "INVALID", INVALID_TTL);
      }
      reply := Answer(None);
    }
  }

  /** `invalidate_project_key_cache`. */
  method Invalidate(redis: Server<string>, hash: string)
    modifies redis`store
    ensures redis.store == old(redis.store) - {CacheKey(hash)}
  {
    var _ := redis.Del(CacheKey(hash));
  }

  /** A lookup after an invalidation with nothing in flight gives the current answer or none, whatever was cached. */
  method ValidateAfterInvalidate(redis: Server<string>, db: map<string, string>, hash: string, isUuid: string -> bool, up: Working)
    returns (reply: Reply)
    modifies redis`store
    ensures reply == if up.connect && up.query then Answer(Lookup(db, hash)) else Unavailable
  {
    Invalidate(redis, hash);
    reply := Validate(redis, db, hash, isUuid, up);
  }

  // ---------------------------------------------------------------- overlapping lookups

  /** An accepted key was the database's answer at some moment in the last 300 + lag seconds. */
  lemma AcceptedKeyWasValid(lag: nat, states: seq<RT.State<string, Option<string>>>,
                            steps: seq<RT.Step<string, Option<string>>>, n: nat, hash: string, project: string)
    requires RT.Behaviour(Policy(lag), states, steps)
    requires n < |steps| && RT.Answer(states[n], steps[n]) == Some((hash, Some(project)))
    ensures exists j: nat :: j <= n && RT.WasAnswer(states, j, hash, Some(project)) && states[n].now - states[j].now <= 300 + lag
  {
    RT.AnswersAreRecent(Policy(lag), states, steps, n, hash, Some(project));
    var j: nat :| j <= n && RT.WasAnswer(states, j, hash, Some(project))
                  && states[n].now - VALID_TTL - lag <= states[j].now;
    assert states[n].now - states[j].now <= 300 + lag;
  }

  /** A rejection was the database's answer at some moment in the last 60 + lag seconds. */
  lemma RejectedKeyWasInvalid(lag: nat, states: seq<RT.State<string, Option<string>>>,
                              steps: seq<RT.Step<string, Option<string>>>, n: nat, hash: string)
    requires RT.Behaviour(Policy(lag), states, steps)
    requires n < |steps| && RT.Answer(states[n], steps[n]) == Some((hash, None))
    ensures exists j: nat :: j <= n && RT.WasAnswer(states, j, hash, None) && states[n].now - states[j].now <= 60 + lag
  {
    RT.AnswersAreRecent(Policy(lag), states, steps, n, hash, None);
    var j: nat :| j <= n && RT.WasAnswer(states, j, hash, None)
                  && states[n].now - INVALID_TTL - lag <= states[j].now;
    assert states[n].now - states[j].now <= 60 + lag;
  }

  type State = RT.State<string, Option<string>>
  type Step = RT.Step<string, Option<string>>

  /** Redis holds the texts of the answers cached in `s`, and those texts are read back as the answers. */
  ghost predicate Mirrors(store: Store<string>, s: State, isUuid: string -> bool) {
    forall hash :: Mirrored(store, s, isUuid, hash)
  }

  ghost predicate Mirrored(store: Store<string>, s: State, isUuid: string -> bool, hash: string) {
    && (CacheKey(hash) in store <==> hash in s.cache)
    && (hash in s.cache ==>
          && store[CacheKey(hash)] == Entry(Encode(s.cache[hash].answer), Some(s.cache[hash].expiry))
          && Decode(Encode(s.cache[hash].answer), isUuid) == Some(s.cache[hash].answer))
  }

  lemma CacheKeysDiffer(h: string, hash: string)
    ensures CacheKey(h) == CacheKey(hash) ==> h == hash
  {
    var prefix := "project_key:";
    assert CacheKey(h)[|prefix|..] == h && CacheKey(hash)[|prefix|..] == hash;
  }

  lemma RememberedMirrors(store: Store<string>, s: State, t: State, isUuid: string -> bool, hash: string, answer: Option<string>)
    requires Mirrors(store, s, isUuid) && Decode(Encode(answer), isUuid) == Some(answer)
    requires t.cache == s.cache[hash := RT.Cached(answer, s.now + TtlOf(answer))]
    ensures Mirrors(Remembered(store, s.now, hash, answer), t, isUuid)
  {
    forall h
      ensures Mirrored(Remembered(store, s.now, hash, answer), t, isUuid, h)
    {
      assert Mirrored(store, s, isUuid, h);
      CacheKeysDiffer(h, hash);
    }
  }

  /** An undisturbed lookup whose commands get through as far as `up` says is a run of that system: a hit, a read
      and a write, a read and a reply, or nothing. The run ends with the cache that `Validate` leaves, and its last
      step gives the answer that `Validate` gives. */
  lemma LookupIsARun(lag: nat, store: Store<string>, s: State, db: map<string, string>, hash: string,
                     isUuid: string -> bool, up: Working, id: nat)
    returns (steps: seq<Step>, mid: State, t: State)
    requires Mirrors(store, s, isUuid) && id !in s.flights && (forall h :: s.db(h) == Lookup(db, h))
    requires forall h :: h in db ==> db[h] != "INVALID" && isUuid(db[h])
    ensures RT.Leads(Policy(lag), s, steps, t)
    ensures var (reply, store') := Looked(store, s.now, db, hash, isUuid, up);
      && Mirrors(store', t, isUuid)
      && (reply.Answer? ==> steps != [] && RT.Answer(mid, steps[|steps| - 1]) == Some((hash, reply.project)))
      && (reply.Unavailable? ==> steps == [])
    ensures steps != [] ==> RT.Enabled(Policy(lag), mid, steps[|steps| - 1]) && t == RT.Next(Policy(lag), mid, steps[|steps| - 1])
  {
    var cfg := Policy(lag);
    assert Mirrored(store, s, isUuid, hash);
    var hit := if up.connect && up.read then CachedAnswer(store, s.now, hash, isUuid) else None;
    if hit.Some? {
      steps, mid, t := [RT.Hit(hash)], s, s;
      assert RT.Leads(cfg, RT.Next(cfg, s, RT.Hit(hash)), [], s);
    } else if !up.connect || !up.query {
      steps, mid, t := [], s, s;
    } else {
      mid := RT.Next(cfg, s, RT.Read(id, hash));
      var last: Step := if up.write then RT.Write(id) else RT.Reply(id);
      t := RT.Next(cfg, mid, last);
      steps := [RT.Read(id, hash), last];
      assert steps[1..] == [last];
      assert RT.Leads(cfg, mid, [last], t);
      if up.write {
        RememberedMirrors(store, s, t, isUuid, hash, Lookup(db, hash));
      } else {
        assert forall h :: Mirrored(store, s, isUuid, h) ==> Mirrored(store, t, isUuid, h);
      }
    }
  }
}
