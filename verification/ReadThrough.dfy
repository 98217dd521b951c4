/** A read-through cache over a changing database, with lookups that overlap each other, changes and
    invalidations. Behaviours are sequences of states, so "was the answer at some moment" means what it says. */
module ReadThrough {
  import opened Options
  import opened Redis

  /** `ttl(a)`: for how long answer `a` is cached, 0 meaning not at all. `lag`: the longest time between a
      lookup's database read and its cache write or reply. */
  datatype Config<!A> = Config(ttl: A -> nat, lag: nat)

  datatype Cached<+A> = Cached(answer: A, expiry: int)

  /** A lookup that missed and has read the database: its cache write can still come, even after its reply. */
  datatype InFlight<+K, +A> = InFlight(key: K, answer: A, readAt: int)

  datatype State<!K, !A> = State(now: int, db: K -> A, cache: map<K, Cached<A>>, flights: map<nat, InFlight<K, A>>)

  datatype Step<!K, !A> =
    | Tick(elapsed: nat)
    | Change(db: K -> A)
    | Read(id: nat, key: K)     // a cache miss, or a cache that could not be read
    | Write(id: nat)            // caches the answer and replies
    | Reply(id: nat)            // replies without waiting for the cache write, which may land later or never
    | Hit(key: K)               // replies from the cache
    | Invalidate(key: K)
    | Evict(key: K)

  predicate Enabled<K, A>(cfg: Config<A>, s: State<K, A>, step: Step<K, A>) {
    match step
    case Read(id, _) => id !in s.flights
    case Write(id) => id in s.flights && s.now <= s.flights[id].readAt + cfg.lag
    case Reply(id) => id in s.flights && s.now <= s.flights[id].readAt + cfg.lag
    case Hit(key) => key in s.cache && s.now < s.cache[key].expiry
    case _ => true
  }

  function Next<K, A>(cfg: Config<A>, s: State<K, A>, step: Step<K, A>): State<K, A>
    requires Enabled(cfg, s, step)
  {
    match step
    case Tick(elapsed) => s.(now := s.now + elapsed)
    case Change(db) => s.(db := db)
    case Read(id, key) => s.(flights := s.flights[id := InFlight(key, s.db(key), s.now)])
    case Write(id) =>
      var f := s.flights[id];
      State(s.now, s.db,
            if cfg.ttl(f.answer) == 0 then s.cache else s.cache[f.key := Cached(f.answer, s.now + cfg.ttl(f.answer))],
            s.flights - {id})
    case Reply(_) => s
    case Hit(_) => s
    case Invalidate(key) => s.(cache := s.cache - {key})
    case Evict(key) => s.(cache := s.cache - {key})
  }

  /** The key and answer a step hands to its caller. */
  function Answer<K, A>(s: State<K, A>, step: Step<K, A>): Option<(K, A)> {
    match step
    case Write(id) => if id in s.flights then Some((s.flights[id].key, s.flights[id].answer)) else None
    case Reply(id) => if id in s.flights then Some((s.flights[id].key, s.flights[id].answer)) else None
    case Hit(key) => if key in s.cache then Some((key, s.cache[key].answer)) else None
    case _ => None
  }

  ghost predicate Behaviour<K, A>(cfg: Config<A>, states: seq<State<K, A>>, steps: seq<Step<K, A>>) {
    && |states| == |steps| + 1
    && states[0].cache == map[] && states[0].flights == map[]
    && forall i :: 0 <= i < |steps| ==> Enabled(cfg, states[i], steps[i]) && states[i + 1] == Next(cfg, states[i], steps[i])
  }

  /** `steps` can be taken one after the other from `s`, ending in `t`. */
  ghost predicate Leads<K, A>(cfg: Config<A>, s: State<K, A>, steps: seq<Step<K, A>>, t: State<K, A>)
    decreases |steps|
  {
    if steps == [] then s == t
    else Enabled(cfg, s, steps[0]) && Leads(cfg, Next(cfg, s, steps[0]), steps[1..], t)
  }

  lemma {:induction false} LeadsOn<K, A>(cfg: Config<A>, s: State<K, A>, xs: seq<Step<K, A>>, t: State<K, A>, ys: seq<Step<K, A>>, u: State<K, A>)
    requires Leads(cfg, s, xs, t) && Leads(cfg, t, ys, u)
    ensures Leads(cfg, s, xs + ys, u)
    decreases |xs|
  {
    if xs == [] {
      assert xs + ys == ys;
    } else {
      LeadsOn(cfg, Next(cfg, s, xs[0]), xs[1..], t, ys, u);
      assert (xs + ys)[1..] == xs[1..] + ys;
    }
  }

  ghost predicate WasAnswer<K, A>(states: seq<State<K, A>>, j: nat, key: K, answer: A) {
    j < |states| && states[j].db(key) == answer
  }

  /** At some moment no earlier than `since`, up to state `n`, the database's answer for `key` was `answer`. */
  ghost predicate AnswerSince<K, A>(states: seq<State<K, A>>, n: nat, key: K, answer: A, since: int) {
    exists j: nat :: j <= n && WasAnswer(states, j, key, answer) && since <= states[j].now
  }

  ghost predicate CacheIsRecent<K(!new), A>(cfg: Config<A>, states: seq<State<K, A>>, n: nat)
    requires n < |states|
  {
    forall k :: k in states[n].cache ==>
      var c := states[n].cache[k]; AnswerSince(states, n, k, c.answer, c.expiry - cfg.ttl(c.answer) - cfg.lag)
  }

  ghost predicate FlightsAreRecent<K, A>(states: seq<State<K, A>>, n: nat)
    requires n < |states|
  {
    forall id :: id in states[n].flights ==>
      var f := states[n].flights[id]; AnswerSince(states, n, f.key, f.answer, f.readAt)
  }

  lemma Later<K, A>(states: seq<State<K, A>>, n: nat, m: nat, key: K, answer: A, since: int, since': int)
    requires AnswerSince(states, n, key, answer, since) && n <= m && since' <= since
    ensures AnswerSince(states, m, key, answer, since')
  {
    var j: nat :| j <= n && WasAnswer(states, j, key, answer) && since <= states[j].now;
    assert j <= m && WasAnswer(states, j, key, answer) && since' <= states[j].now;
  }

  lemma {:induction false} AllRecent<K(!new), A>(cfg: Config<A>, states: seq<State<K, A>>, steps: seq<Step<K, A>>, n: nat)
    requires Behaviour(cfg, states, steps) && n < |states|
    ensures CacheIsRecent(cfg, states, n) && FlightsAreRecent(states, n)
  {
    if n > 0 {
      AllRecent(cfg, states, steps, n - 1);
      var s, t, step := states[n - 1], states[n], steps[n - 1];
      assert t == Next(cfg, s, step);
      forall id | id in t.flights
        ensures var f := t.flights[id]; AnswerSince(states, n, f.key, f.answer, f.readAt)
      {
        var f := t.flights[id];
        if id in s.flights && s.flights[id] == f {
          Later(states, n - 1, n, f.key, f.answer, f.readAt, f.readAt);
        } else {
          assert WasAnswer(states, n - 1, f.key, f.answer);
        }
      }
      forall k | k in t.cache
        ensures var c := t.cache[k]; AnswerSince(states, n, k, c.answer, c.expiry - cfg.ttl(c.answer) - cfg.lag)
      {
        var c := t.cache[k];
        var since := c.expiry - cfg.ttl(c.answer) - cfg.lag;
        if k in s.cache && s.cache[k] == c {
          Later(states, n - 1, n, k, c.answer, since, since);
        } else {
          var f := s.flights[step.id];
          Later(states, n - 1, n, f.key, f.answer, f.readAt, since);
        }
      }
    }
  }

  /** Every answer handed out was the database's answer no longer ago than its TTL plus the lag. */
  lemma AnswersAreRecent<K(!new), A>(cfg: Config<A>, states: seq<State<K, A>>, steps: seq<Step<K, A>>, n: nat, key: K, answer: A)
    requires Behaviour(cfg, states, steps) && n < |steps| && Answer(states[n], steps[n]) == Some((key, answer))
    ensures AnswerSince(states, n, key, answer, states[n].now - cfg.ttl(answer) - cfg.lag)
  {
    AllRecent(cfg, states, steps, n);
    if steps[n].Hit? {
      var c := states[n].cache[key];
      Later(states, n, n, key, answer, c.expiry - cfg.ttl(answer) - cfg.lag, states[n].now - cfg.ttl(answer) - cfg.lag);
    } else {
      var f := states[n].flights[steps[n].id];
      Later(states, n, n, key, answer, f.readAt, states[n].now - cfg.ttl(answer) - cfg.lag);
    }
  }

  // ---------------------------------------------------------------- invalidation

  /** The cache write of a lookup of `key` can still land. */
  predicate CanLand<K(==), A>(cfg: Config<A>, s: State<K, A>, key: K, id: nat) {
    && id in s.flights && s.flights[id].key == key
    && s.now <= s.flights[id].readAt + cfg.lag && cfg.ttl(s.flights[id].answer) > 0
  }

  /** After an invalidation with no write of the key to come, the cache has nothing for it until the next lookup
      of that key, which therefore reads the database. */
  lemma {:induction false} NextLookupReadsDatabase<K, A>(
      cfg: Config<A>, states: seq<State<K, A>>, steps: seq<Step<K, A>>, key: K, n: nat, m: nat)
    requires Behaviour(cfg, states, steps) && n < m < |states| && steps[n] == Invalidate(key)
    requires forall id :: !CanLand(cfg, states[n], key, id)
    requires forall i :: n < i < m ==> !(steps[i].Read? && steps[i].key == key)
    ensures key !in states[m].cache
    ensures forall id :: !CanLand(cfg, states[m], key, id)
  {
    if n + 1 < m {
      NextLookupReadsDatabase(cfg, states, steps, key, n, m - 1);
    }
    var s, t := states[m - 1], states[m];
    assert t == Next(cfg, s, steps[m - 1]);
    forall id
      ensures !CanLand(cfg, t, key, id)
    {
      assert !CanLand(cfg, s, key, id);
    }
    if steps[m - 1].Write? {
      assert !CanLand(cfg, s, key, steps[m - 1].id);
    }
  }

  /** A lookup of `key` in flight whose answer is no longer the database's and could still be cached. */
  predicate StaleFlight<K, A(==)>(cfg: Config<A>, s: State<K, A>, key: K, id: nat) {
    CanLand(cfg, s, key, id) && s.flights[id].answer != s.db(key)
  }

  /** Without such a lookup an invalidation sticks: until the database changes again, whatever is cached for
      the key is the database's answer. */
  lemma {:induction false} InvalidationSticks<K, A>(
      cfg: Config<A>, states: seq<State<K, A>>, steps: seq<Step<K, A>>, key: K, n: nat, m: nat)
    requires Behaviour(cfg, states, steps) && n < m < |states| && steps[n] == Invalidate(key)
    requires forall id :: !StaleFlight(cfg, states[n], key, id)
    requires forall i :: n < i < m ==> !steps[i].Change?
    ensures states[m].db == states[n].db
    ensures key in states[m].cache ==> states[m].cache[key].answer == states[m].db(key)
    ensures forall id :: !StaleFlight(cfg, states[m], key, id)
  {
    if n + 1 < m {
      InvalidationSticks(cfg, states, steps, key, n, m - 1);
    }
    var s, t := states[m - 1], states[m];
    assert t == Next(cfg, s, steps[m - 1]);
    forall id
      ensures !StaleFlight(cfg, t, key, id)
    {
      assert !StaleFlight(cfg, s, key, id);
    }
    if steps[m - 1].Write? {
      assert !StaleFlight(cfg, s, key, steps[m - 1].id);
    }
  }

  /** With such a lookup it does not: the lookup's own write brings the outdated answer back. */
  lemma StaleFlightUndoesInvalidation<K, A>(cfg: Config<A>, s: State<K, A>, key: K, id: nat)
    requires StaleFlight(cfg, s, key, id)
    ensures var t := Next(cfg, s, Invalidate(key));
      Enabled(cfg, t, Write(id))
      && var u := Next(cfg, t, Write(id));
         Enabled(cfg, u, Hit(key)) && u.cache[key].answer != u.db(key)
  {
  }
}
