/** `acquire_billing_lock_with_retry`: bounded attempts with doubling, capped sleeps. Times in milliseconds. */
module LockRetry {
  import opened Options
  import opened Redis
  import opened BillingLock

  /** `Ok(DistributedLock)` or one of the two `LockError`s. */
  datatype Outcome = Locked(token: string) | AlreadyLocked | RedisError

  function Pow2(k: nat): nat { if k == 0 then 1 else 2 * Pow2(k - 1) }

  function Min(a: nat, b: nat): nat { if a <= b then a else b }

  /** The sleep between attempt `k` and attempt `k + 1`, counting attempts from 0. */
  function Backoff(delay: nat, k: nat): nat {
    if k == 0 then delay else Min(Backoff(delay, k - 1) * 2, delay * 8)
  }

  lemma Distribute(a: nat, b: nat, c: nat)
    ensures (a + b) * c == a * c + b * c
  {
  }

  lemma {:induction false} BackoffClosedForm(delay: nat, k: nat)
    ensures Backoff(delay, k) == Min(Pow2(k), 8) * delay
  {
    if k > 0 {
      BackoffClosedForm(delay, k - 1);
      var m := Min(Pow2(k - 1), 8);
      Distribute(m, m, delay);
      if m <= 4 {
        Distribute(2 * m, 8 - 2 * m, delay);
      } else {
        Distribute(8, 2 * m - 8, delay);
      }
    }
  }

  /** The first `n` sleeps of the loop. */
  function Sleeps(delay: nat, n: nat): (sleeps: seq<nat>)
    ensures |sleeps| == n
    ensures forall k :: 0 <= k < n ==> sleeps[k] == Backoff(delay, k)
  {
    if n == 0 then [] else Sleeps(delay, n - 1) + [Backoff(delay, n - 1)]
  }

  function TotalBackoff(delay: nat, n: nat): nat {
    if n == 0 then 0 else TotalBackoff(delay, n - 1) + Backoff(delay, n - 1)
  }

  lemma {:induction false} Pow2AtLeast8(k: nat)
    requires k >= 3
    ensures Pow2(k) >= 8
  {
    if k == 3 {
      assert Pow2(3) == 2 * Pow2(2) == 4 * Pow2(1) == 8 * Pow2(0);
    } else {
      Pow2AtLeast8(k - 1);
    }
  }

  /** All sleeps of n retries, in units of the first. */
  function Units(n: nat): nat { if n == 0 then 0 else Units(n - 1) + Min(Pow2(n - 1), 8) }

  lemma {:induction false} TotalBackoffInUnits(delay: nat, n: nat)
    ensures TotalBackoff(delay, n) == Units(n) * delay
  {
    if n > 0 {
      TotalBackoffInUnits(delay, n - 1);
      BackoffClosedForm(delay, n - 1);
      Distribute(Units(n - 1), Min(Pow2(n - 1), 8), delay);
    }
  }

  /** The doubling stops after three sleeps: n retries wait 2^n - 1 units up to n = 4, then 8 more each. */
  lemma {:induction false} UnitsClosedForm(n: nat)
    ensures n <= 4 ==> Units(n) == Pow2(n) - 1
    ensures n >= 4 ==> Units(n) == 8 * n - 17
  {
    if n > 0 {
      UnitsClosedForm(n - 1);
      if n > 4 {
        Pow2AtLeast8(n - 1);
      } else {
        assert Pow2(0) == 1 && Pow2(1) == 2 && Pow2(2) == 4 && Pow2(3) == 8;
      }
    }
  }

  /** What happens around the loop. `faults(k)`: attempt `k` cannot reach Redis. `late(k)`: how much longer
      than its sleep round `k` takes. `freed(k)`: the other holder's release script runs in round `k`. */
  datatype Surroundings = Surroundings(faults: nat -> bool, late: nat -> nat, freed: nat -> bool)

  /** Redis and the clock at the first attempt, with everything that can change them before a later one. */
  datatype Scene = Scene(store: Store<string>, start: int, delay: nat, env: Surroundings, key: string, other: string)
  {
    /** When attempt `k` reaches Redis. */
    function AttemptAt(k: nat): int {
      if k == 0 then start else AttemptAt(k - 1) + Backoff(delay, k - 1) + env.late(k - 1)
    }

    /** Redis as attempt `k` finds it after `k` refusals. */
    function StoreAt(k: nat): Store<string> {
      if k == 0 then store
      else if env.freed(k - 1) then Released(StoreAt(k - 1), AttemptAt(k), key, other)
      else StoreAt(k - 1)
    }

    predicate HeldAt(k: nat) { Live(StoreAt(k), AttemptAt(k), key) }

    predicate FreedBefore(k: nat) { exists i: nat :: i < k && env.freed(i) }

    lemma {:induction false} AttemptNotEarly(k: nat)
      ensures AttemptAt(k) >= start + TotalBackoff(delay, k)
    {
      if k > 0 {
        AttemptNotEarly(k - 1);
      }
    }

    lemma {:induction false} AttemptsInOrder(k: nat, n: nat)
      requires k <= n
      ensures AttemptAt(k) <= AttemptAt(n)
    {
      if k < n {
        AttemptsInOrder(k, n - 1);
      }
    }

    /** With one other holder, attempt `k` finds the lock held exactly when that holder's entry has not
        expired and its release has not run. */
    lemma {:induction false} HeldUntilExpiryOrRelease(expiry: int, k: nat)
      requires key in store && store[key] == Entry(other, Some(expiry))
      ensures key in StoreAt(k) ==> StoreAt(k)[key] == Entry(other, Some(expiry))
      ensures !FreedBefore(k) ==> key in StoreAt(k)
      ensures HeldAt(k) <==> AttemptAt(k) < expiry && !FreedBefore(k)
    {
      if k > 0 {
        HeldUntilExpiryOrRelease(expiry, k - 1);
        assert FreedBefore(k) <==> FreedBefore(k - 1) || env.freed(k - 1);
        assert AttemptAt(k) >= AttemptAt(k - 1);
      }
    }
  }

  /** The loop. The statement after it, which returns an error in the source, is never reached. `ttl` is in
      milliseconds, as the clock is here: 1000 times the source's `ttl_seconds`. */
  method AcquireWithRetry(redis: Server<string>, key: string, other: string, tokens: nat -> string, ttl: nat,
                          maxRetries: nat, retryDelay: nat, env: Surroundings)
    returns (r: Outcome, waits: seq<nat>)
    modifies redis
    ensures |waits| <= maxRetries
    ensures waits == Sleeps(retryDelay, |waits|)
    ensures var scene := old(Scene(redis.store, redis.now, retryDelay, env, key, other));
      && redis.now == scene.AttemptAt(|waits|)
      && (forall k: nat :: k < |waits| ==> !env.faults(k) && scene.HeldAt(k))
      && (r.Locked? ==> !scene.HeldAt(|waits|))
      && (r.AlreadyLocked? ==> |waits| == maxRetries && scene.HeldAt(maxRetries))
    ensures r.RedisError? <==> env.faults(|waits|) || ttl == 0
    ensures r.Locked? ==>
      r.token == tokens(|waits|) && key in redis.store && redis.store[key] == Entry(r.token, Some(redis.now + ttl))
  {
    ghost var scene := Scene(redis.store, redis.now, retryDelay, env, key, other);
    var delay := retryDelay;
    var maxDelay := retryDelay * 8;
    var attempt := 0;
    waits := [];
    while attempt <= maxRetries
      invariant attempt == |waits| <= maxRetries
      invariant delay == Backoff(retryDelay, attempt)
      invariant waits == Sleeps(retryDelay, attempt)
      invariant redis.now == scene.AttemptAt(attempt) && redis.store == scene.StoreAt(attempt)
      invariant forall k: nat :: k < attempt ==> !env.faults(k) && scene.HeldAt(k)
      invariant attempt > 0 ==> ttl > 0
      decreases maxRetries - attempt
    {
      var reply: Option<int> := None;
      if !env.faults(attempt) {
        reply := AcquireScript(redis, key, tokens(attempt), ttl);
      }
      if reply.None? {
        return RedisError, waits;
      } else if reply.value == 1 {
        return Locked(tokens(attempt)), waits;
      } else if attempt < maxRetries {
        waits := waits + [delay];
        redis.Sleep(delay + env.late(attempt));
        if env.freed(attempt) {
          var _ := ReleaseScript(redis, key, other);
        }
        delay := Min(delay * 2, maxDelay);
        attempt := attempt + 1;
      } else {
        return AlreadyLocked, waits;
      }
    }
    assert false;
  }

  /** One other holder, no faults: the loop succeeds whenever its sleeps reach that holder's expiry, and
      fails only if the holder outlives the last attempt without releasing. */
  method AcquireAgainstOneHolder(redis: Server<string>, key: string, other: string, tokens: nat -> string, ttl: nat,
                                 maxRetries: nat, retryDelay: nat, env: Surroundings, ghost expiry: int)
    returns (r: Outcome)
    requires key in redis.store && redis.store[key] == Entry(other, Some(expiry))
    requires ttl > 0 && forall k: nat :: !env.faults(k)
    modifies redis
    ensures var scene := old(Scene(redis.store, redis.now, retryDelay, env, key, other));
      r.Locked? <==> expiry <= scene.AttemptAt(maxRetries) || scene.FreedBefore(maxRetries)
    ensures expiry <= old(redis.now) + TotalBackoff(retryDelay, maxRetries) ==> r.Locked?
    ensures !r.RedisError?
  {
    ghost var scene := Scene(redis.store, redis.now, retryDelay, env, key, other);
    var waits;
    r, waits := AcquireWithRetry(redis, key, other, tokens, ttl, maxRetries, retryDelay, env);
    assert !env.faults(|waits|);
    scene.HeldUntilExpiryOrRelease(expiry, |waits|);
    scene.HeldUntilExpiryOrRelease(expiry, maxRetries);
    scene.AttemptsInOrder(|waits|, maxRetries);
    scene.AttemptNotEarly(maxRetries);
  }
}
