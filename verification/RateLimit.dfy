/** The fixed-window counters: the two Lua scripts, and the verdicts drawn from what they return.
    Times in seconds. */
module RateLimit {
  import opened Options
  import opened Redis

  const MINUTE: int := 60
  const HOUR: int := 3600

  /** The counter a script leaves behind: one more than the live count, in the live window; a fresh window
      starts when there is none, or when the key was found without an expiry. */
  function Touched(store: Store<int>, now: int, key: string, window: int): Entry<int> {
    if !Live(store, now, key) then Entry(1, Some(now + window))
    else if store[key].expiry.None? then Entry(store[key].value + 1, Some(now + window))
    else Entry(store[key].value + 1, store[key].expiry)
  }

  function Touch(store: Store<int>, now: int, key: string, window: int): Store<int> {
    store[key := Touched(store, now, key, window)]
  }

  /** INCR keeps the expiry of a live key; an absent key starts at zero without one. */
  function Increased(store: Store<int>, now: int, key: string): Store<int> {
    store[key := if Live(store, now, key) then Entry(store[key].value + 1, store[key].expiry) else Entry(1, None)]
  }

  method Incr(redis: Server<int>, key: string) returns (current: int)
    modifies redis`store
    ensures redis.store == Increased(old(redis.store), redis.now, key)
    ensures current == redis.store[key].value
  {
    var value := redis.Get(key);
    if value.Some? {
      current := value.value + 1;
      redis.store := redis.store[key := Entry(current, redis.store[key].expiry)];
    } else {
      current := 1;
      redis.store := redis.store[key := Entry(1, None)];
    }
  }

  /** INCR, and EXPIRE if there is no expiry then. */
  lemma TouchInTwo(store: Store<int>, now: int, key: string, window: int)
    ensures var s := Increased(store, now, key);
      && Live(s, now, key)
      && Touch(store, now, key, window) == if s[key].expiry.None? then Expired(s, now, key, window) else s
  {
  }

  /** The single-window script. */
  method AtomicIncr(redis: Server<int>, key: string, window: int) returns (current: int, ttl: int)
    requires window > 0
    modifies redis`store
    ensures redis.store == Touch(old(redis.store), redis.now, key, window)
    ensures current == redis.store[key].value
    ensures redis.store[key].expiry == Some(redis.now + ttl) && ttl > 0
  {
    current := Incr(redis, key);
    ttl := redis.Ttl(key);
    if ttl == -1 {
      redis.Expire(key, window);
      ttl := window;
    }
  }

  /** The dual-window script leaves what two single-window scripts leave when run back to back. */
  method DualWindowIncr(redis: Server<int>, minKey: string, hourKey: string)
    returns (minCurrent: int, minTtl: int, hourCurrent: int, hourTtl: int)
    requires minKey != hourKey
    modifies redis`store
    ensures redis.store == Touch(Touch(old(redis.store), redis.now, minKey, 60), redis.now, hourKey, 3600)
    ensures minCurrent == redis.store[minKey].value && hourCurrent == redis.store[hourKey].value
    ensures redis.store[minKey].expiry == Some(redis.now + minTtl) && minTtl > 0
    ensures redis.store[hourKey].expiry == Some(redis.now + hourTtl) && hourTtl > 0
  {
    TouchInTwo(redis.store, redis.now, minKey, MINUTE);
    minCurrent := Incr(redis, minKey);
    minTtl := redis.Ttl(minKey);
    if minTtl == -1 {
      redis.Expire(minKey, MINUTE);
      minTtl := MINUTE;
    }
    ghost var between := redis.store;
    assert between == Touch(old(redis.store), redis.now, minKey, MINUTE);
    TouchInTwo(between, redis.now, hourKey, HOUR);
    hourCurrent := Incr(redis, hourKey);
    hourTtl := redis.Ttl(hourKey);
    if hourTtl == -1 {
      redis.Expire(hourKey, HOUR);
      hourTtl := HOUR;
    }
    assert redis.store == Touch(between, redis.now, hourKey, HOUR);
  }

  /** On distinct keys the order of the two halves does not matter. */
  lemma TouchesCommute(store: Store<int>, now: int, a: string, wa: int, b: string, wb: int)
    requires a != b
    ensures Touch(Touch(store, now, a, wa), now, b, wb) == Touch(Touch(store, now, b, wb), now, a, wa)
  {
    assert Touch(Touch(store, now, a, wa), now, b, wb).Keys == Touch(Touch(store, now, b, wb), now, a, wa).Keys;
  }

  // ---------------------------------------------------------------- verdicts

  datatype Info = Info(current: int, limit: int, resetAt: int, dropped: int)

  /** `Unavailable` is the internal error: no verdict. */
  datatype Verdict = Allowed(info: Info) | Exceeded(info: Info) | Unavailable

  /** How far a check gets: no connection or a script that does not run; a script that runs although its client
      sees only a timeout; or an answer. */
  datatype Reach = NotRun | RunUnseen | Answered

  function Judge(current: int, limit: int, resetAt: int): Verdict {
    if current > limit then Exceeded(Info(current, limit, resetAt, current - limit))
    else Allowed(Info(current, limit, resetAt, 0))
  }

  /** `check_authenticated_rate_limit` and its gateway, ingestion and project-usage twins, which differ in keys
      and limits only. The fallback reset times of the source cannot occur: every TTL returned is positive. A
      request whose script ran counts, answered or not. */
  method CheckDualWindow(redis: Server<int>, minKey: string, hourKey: string, minLimit: int, hourLimit: int, reach: Reach)
    returns (verdict: Verdict)
    requires minKey != hourKey
    modifies redis`store
    ensures redis.store == if reach.NotRun? then old(redis.store)
                           else Touch(Touch(old(redis.store), redis.now, minKey, 60), redis.now, hourKey, 3600)
    ensures verdict.Unavailable? <==> !reach.Answered?
    ensures reach.Answered? ==>
      && (verdict.Allowed? <==> redis.store[minKey].value <= minLimit && redis.store[hourKey].value <= hourLimit)
      && var judged := if redis.store[minKey].value > minLimit || verdict.Allowed? then minKey else hourKey;
         && verdict.info.current == redis.store[judged].value
         && verdict.info.limit == (if judged == minKey then minLimit else hourLimit)
         && redis.store[judged].expiry == Some(verdict.info.resetAt)
    ensures verdict.Exceeded? ==> verdict.info.dropped == verdict.info.current - verdict.info.limit > 0
    ensures verdict.Allowed? ==> verdict.info.dropped == 0 && verdict.info.current <= verdict.info.limit
  {
    if reach.NotRun? {
      return Unavailable;
    }
    var minCurrent, minTtl, hourCurrent, hourTtl := DualWindowIncr(redis, minKey, hourKey);
    if reach.RunUnseen? {
      return Unavailable;
    }
    var current, limit, resetAt;
    if minCurrent > minLimit {
      current, limit, resetAt := minCurrent, minLimit, redis.now + (if minTtl > 0 then minTtl else 60);
    } else if hourCurrent > hourLimit {
      current, limit, resetAt := hourCurrent, hourLimit, redis.now + (if hourTtl > 0 then hourTtl else 3600);
    } else {
      current, limit, resetAt := minCurrent, minLimit, redis.now + (if minTtl > 0 then minTtl else 60);
    }
    verdict := Judge(current, limit, resetAt);
  }

  /** `check_org_hourly_rate_limit`. */
  method CheckOrgHourly(redis: Server<int>, key: string, limit: int, reach: Reach) returns (verdict: Verdict)
    modifies redis`store
    ensures redis.store == if reach.NotRun? then old(redis.store) else Touch(old(redis.store), redis.now, key, 3600)
    ensures verdict.Unavailable? <==> !reach.Answered?
    ensures reach.Answered? ==>
      && (verdict.Allowed? <==> redis.store[key].value <= limit)
      && verdict.info.current == redis.store[key].value && verdict.info.limit == limit
      && redis.store[key].expiry == Some(verdict.info.resetAt)
      && verdict.info.dropped == if verdict.Allowed? then 0 else redis.store[key].value - limit
  {
    if reach.NotRun? {
      return Unavailable;
    }
    var current, ttl := AtomicIncr(redis, key, HOUR);
    if reach.RunUnseen? {
      return Unavailable;
    }
    verdict := Judge(current, limit, redis.now + (if ttl > 0 then ttl else 3600));
  }

  const I32_MAX: int := 2147483647

  /** `limit_per_minute.saturating_mul(60)` on 32-bit integers. */
  function HourlyUsageLimit(perMinute: int): int {
    if perMinute * 60 > I32_MAX then I32_MAX
    else if perMinute * 60 < -I32_MAX - 1 then -I32_MAX - 1
    else perMinute * 60
  }
}
