/** The token-guarded billing lock: two Lua scripts, and every interleaving of clients that run them. */
module BillingLock {
  import opened Options
  import opened Redis

  // ---------------------------------------------------------------- the scripts

  /** What the acquire script leaves in Redis. */
  function Acquired(store: Store<string>, now: int, key: string, token: string, ttl: int): Store<string> {
    if Live(store, now, key) then store else store[key := Entry(token, Some(now + ttl))]
  }

  /** What the release script leaves in Redis. */
  function Released(store: Store<string>, now: int, key: string, token: string): Store<string> {
    if Live(store, now, key) && store[key].value == token then store - {key} else store
  }

  /** SET NX EX; Redis refuses an expiry of zero, which reaches the caller as an error. */
  method AcquireScript(redis: Server<string>, key: string, token: string, ttl: nat) returns (reply: Option<int>)
    modifies redis`store
    ensures ttl == 0 ==> reply.None? && redis.store == old(redis.store)
    ensures ttl > 0 ==> reply == Some(if Live(old(redis.store), redis.now, key) then 0 else 1)
    ensures ttl > 0 ==> redis.store == Acquired(old(redis.store), redis.now, key, token, ttl)
  {
    if ttl == 0 {
      return None;
    }
    var holder := redis.Get(key);
    if holder.Some? {
      return Some(0);
    }
    redis.SetEx(key, token, ttl);
    reply := Some(1);
  }

  method ReleaseScript(redis: Server<string>, key: string, token: string) returns (reply: int)
    modifies redis`store
    ensures redis.store == Released(old(redis.store), redis.now, key, token)
    ensures reply == if Live(old(redis.store), redis.now, key) && old(redis.store)[key].value == token then 1 else 0
  {
    var holder := redis.Get(key);
    if holder == Some(token) {
      reply := redis.Del(key);
    } else {
      reply := 0;
    }
  }

  // ---------------------------------------------------------------- all runs of all clients

  /** A successful acquire script. `seen` is false when the client only saw a timeout, so that no guard
      exists for it. `given` becomes true when the guard is released or dropped. */
  datatype Grant = Grant(key: string, token: string, at: int, ttl: nat, seen: bool, given: bool)

  datatype World = World(now: int, store: Store<string>, grants: seq<Grant>, tokens: set<string>)

  /** A crash is a client that takes no further step. A release script may run late, never, or more
      than once: `release` runs it and the drop that follows runs it again. */
  datatype Step =
    | Acquire(key: string, token: string, ttl: nat, seen: bool)
    | GiveUp(i: nat)
    | RunRelease(i: nat)
    | Tick(elapsed: nat)

  predicate Enabled(w: World, step: Step) {
    match step
    case Acquire(_, token, _, _) => token !in w.tokens
    case GiveUp(i) => i < |w.grants| && w.grants[i].seen && !w.grants[i].given
    case RunRelease(i) => i < |w.grants| && w.grants[i].given
    case Tick(_) => true
  }

  function Next(w: World, step: Step): World
    requires Enabled(w, step)
  {
    match step
    case Acquire(key, token, ttl, seen) =>
      if ttl == 0 || Live(w.store, w.now, key) then w.(tokens := w.tokens + {token})
      else World(w.now, Acquired(w.store, w.now, key, token, ttl),
                 w.grants + [Grant(key, token, w.now, ttl, seen, false)], w.tokens + {token})
    case GiveUp(i) => w.(grants := w.grants[i := w.grants[i].(given := true)])
    case RunRelease(i) => w.(store := Released(w.store, w.now, w.grants[i].key, w.grants[i].token))
    case Tick(elapsed) => w.(now := w.now + elapsed)
  }

  function Start(now: int): World { World(now, map[], [], {}) }

  ghost predicate Run(from: World, steps: seq<Step>, to: World)
    decreases |steps|
  {
    if steps == [] then from == to
    else Enabled(from, steps[0]) && Run(Next(from, steps[0]), steps[1..], to)
  }

  ghost predicate Reachable(w: World) {
    exists start: int, steps: seq<Step> :: Run(Start(start), steps, w)
  }

  /** A grant that is not yet given up and is younger than its TTL. */
  predicate Holding(w: World, i: nat)
    requires i < |w.grants|
  {
    !w.grants[i].given && w.now < w.grants[i].at + w.grants[i].ttl
  }

  ghost predicate Wrote(w: World, i: nat, key: string)
    requires key in w.store
  {
    i < |w.grants| && w.grants[i].key == key
    && w.store[key] == Entry(w.grants[i].token, Some(w.grants[i].at + w.grants[i].ttl))
  }

  ghost predicate Sound(w: World) {
    && (forall i :: 0 <= i < |w.grants| ==> w.grants[i].token in w.tokens && w.grants[i].at <= w.now)
    && (forall i, j :: 0 <= i < j < |w.grants| ==> w.grants[i].token != w.grants[j].token)
    && (forall i :: 0 <= i < |w.grants| && Holding(w, i) ==>
          w.grants[i].key in w.store && Wrote(w, i, w.grants[i].key))
    && (forall key :: key in w.store ==> exists i: nat :: Wrote(w, i, key))
  }

  lemma WroteStays(w: World, v: World, i: nat, key: string)
    requires key in w.store && Wrote(w, i, key) && key in v.store && v.store[key] == w.store[key]
    requires i < |v.grants| && v.grants[i].(given := true) == w.grants[i].(given := true)
    ensures Wrote(v, i, key)
  {
  }

  lemma GrantKeepsSound(w: World, key: string, token: string, ttl: nat, seen: bool)
    requires Sound(w) && token !in w.tokens && !Live(w.store, w.now, key) && ttl > 0
    ensures Sound(Next(w, Acquire(key, token, ttl, seen)))
  {
    var v := Next(w, Acquire(key, token, ttl, seen));
    var n := |w.grants|;
    assert forall i :: 0 <= i < n ==> v.grants[i] == w.grants[i];
    forall k | k in v.store
      ensures exists i: nat :: Wrote(v, i, k)
    {
      if k == key {
        assert Wrote(v, n, k);
      } else {
        var i: nat :| Wrote(w, i, k);
        WroteStays(w, v, i, k);
      }
    }
    forall i | 0 <= i < |v.grants| && Holding(v, i)
      ensures v.grants[i].key in v.store && Wrote(v, i, v.grants[i].key)
    {
      if i < n {
        assert Holding(w, i) && w.grants[i].key != key;
        WroteStays(w, v, i, w.grants[i].key);
      }
    }
  }

  /** Steps that make no grant: Redis only loses entries, and no holder's entry is among them. */
  lemma LosingEntriesKeepsSound(w: World, v: World)
    requires Sound(w) && w.now <= v.now && w.tokens <= v.tokens && |v.grants| == |w.grants|
    requires forall i :: 0 <= i < |w.grants| ==>
      v.grants[i] == w.grants[i] || v.grants[i] == w.grants[i].(given := true)
    requires forall key :: key in v.store ==> key in w.store && v.store[key] == w.store[key]
    requires forall i :: 0 <= i < |v.grants| && Holding(v, i) && Holding(w, i) ==> v.grants[i].key in v.store
    ensures Sound(v)
  {
    forall key | key in v.store
      ensures exists i: nat :: Wrote(v, i, key)
    {
      var i: nat :| Wrote(w, i, key);
      WroteStays(w, v, i, key);
    }
    forall i | 0 <= i < |v.grants| && Holding(v, i)
      ensures v.grants[i].key in v.store && Wrote(v, i, v.grants[i].key)
    {
      assert Holding(w, i);
    }
  }

  lemma StepKeepsSound(w: World, step: Step)
    requires Sound(w) && Enabled(w, step)
    ensures Sound(Next(w, step))
  {
    if step.Acquire? && step.ttl > 0 && !Live(w.store, w.now, step.key) {
      GrantKeepsSound(w, step.key, step.token, step.ttl, step.seen);
    } else {
      LosingEntriesKeepsSound(w, Next(w, step));
    }
  }

  lemma {:induction false} RunKeepsSound(from: World, steps: seq<Step>, to: World)
    requires Sound(from) && Run(from, steps, to)
    ensures Sound(to)
    decreases |steps|
  {
    if steps != [] {
      StepKeepsSound(from, steps[0]);
      RunKeepsSound(Next(from, steps[0]), steps[1..], to);
    }
  }

  lemma ReachableIsSound(w: World)
    requires Reachable(w)
    ensures Sound(w)
  {
    var start: int, steps: seq<Step> :| Run(Start(start), steps, w);
    RunKeepsSound(Start(start), steps, w);
  }

  /** No reachable world has two holders of one lock key. */
  lemma MutualExclusion(w: World, i: nat, j: nat)
    requires Reachable(w)
    requires i < |w.grants| && j < |w.grants|
    requires w.grants[i].key == w.grants[j].key && Holding(w, i) && Holding(w, j)
    ensures i == j
  {
    ReachableIsSound(w);
    assert Wrote(w, i, w.grants[i].key) && Wrote(w, j, w.grants[j].key);
    assert w.grants[i].token == w.grants[j].token;
  }

  /** However late and however often the release of grant `i` runs, what any other grant wrote stays. */
  lemma StaleReleaseIsHarmless(w: World, i: nat, j: nat)
    requires Reachable(w) && Enabled(w, RunRelease(i))
    requires j < |w.grants| && j != i && w.grants[j].key in w.store && Wrote(w, j, w.grants[j].key)
    ensures w.grants[j].key in Next(w, RunRelease(i)).store
    ensures Next(w, RunRelease(i)).store[w.grants[j].key] == w.store[w.grants[j].key]
  {
    ReachableIsSound(w);
  }

  /** A release that does remove a key removes the releaser's own grant, and a second run of it is a no-op. */
  lemma ReleaseTwiceIsReleaseOnce(w: World, i: nat)
    requires Reachable(w) && Enabled(w, RunRelease(i))
    ensures var v := Next(w, RunRelease(i)); Enabled(v, RunRelease(i)) && Next(v, RunRelease(i)) == v
    ensures forall key :: key in w.store && key !in Next(w, RunRelease(i)).store ==> Wrote(w, i, key)
  {
    ReachableIsSound(w);
    forall key | key in w.store && key !in Next(w, RunRelease(i)).store
      ensures Wrote(w, i, key)
    {
      var j: nat :| Wrote(w, j, key);
      assert j == i;
    }
  }

  /** An acquire is refused exactly when some grant of the key, seen by its client or not, is still in
      Redis; that grant is under its TTL, so it blocks for at most `ttl` seconds after it was made. */
  lemma RefusedOnlyWithinTtl(w: World, key: string)
    requires Reachable(w)
    ensures Live(w.store, w.now, key)
       <==> exists i: nat :: key in w.store && Wrote(w, i, key) && w.now < w.grants[i].at + w.grants[i].ttl
    ensures (forall i :: 0 <= i < |w.grants| && w.grants[i].key == key ==> w.grants[i].at + w.grants[i].ttl <= w.now)
            ==> !Live(w.store, w.now, key)
  {
    ReachableIsSound(w);
    if key in w.store {
      var i: nat :| Wrote(w, i, key);
      assert w.grants[i].key == key;
    }
  }
}
