/** Many processes, with every command of every set and get a step of its own. */
module QueryCacheRuns {
  import opened Options
  import opened Redis
  import QueryCache

  /** A `set_cached_query` call: when it filled its local tier, when its SET and its EXPIRE ran, which set's value
      that EXPIRE ran on, and whether the call ended early, so that its remaining commands never come. */
  datatype SetOp = SetOp(key: string, value: string, ttl: QueryCache.CacheTtl, at: int,
                         storedAt: Option<int>, timedAt: Option<int>, timed: Option<nat>, gone: bool)

  /** A cached copy remembers the set that wrote it. */
  datatype Remote = Remote(value: string, writer: nat, expiry: Option<int>)
  datatype Local = Local(value: string, writer: nat, expiry: int)

  /** A get that has read Redis and not yet filled its local tier. */
  datatype Fetched = Fetched(process: nat, key: string, value: string, writer: nat, at: int)

  datatype State = State(now: int, redis: map<string, Remote>, local: map<(nat, string), Local>,
                         sets: seq<SetOp>, fetches: map<nat, Fetched>)

  /** `lag`: the longest time between reading Redis and filling the local tier. `strict`: no set sends its SET
      while the EXPIRE of another set of the same key can still come. */
  datatype Config = Config(lag: nat, strict: bool)

  datatype Step =
    | Tick(elapsed: nat)
    | BeginSet(process: nat, key: string, value: string, ttl: QueryCache.CacheTtl)
    | StoreSet(i: nat)
    | TimeSet(i: nat)
    | Abandon(i: nat)         // a command of the set failed, or its client died
    | LocalHit(process: nat, key: string)
    | Fetch(id: nat, process: nat, key: string)
    | Populate(id: nat)
    | EvictLocal(process: nat, key: string)
    | EvictRemote(key: string)

  predicate RemoteLive(s: State, key: string) {
    key in s.redis && (s.redis[key].expiry.Some? ==> s.now < s.redis[key].expiry.value)
  }

  /** Between SET and EXPIRE, with the EXPIRE still to come. */
  predicate Open(s: State, i: nat) {
    i < |s.sets| && s.sets[i].storedAt.Some? && s.sets[i].timedAt.None? && !s.sets[i].gone
  }

  /** Before its SET. */
  predicate Unstored(s: State, i: nat) { i < |s.sets| && s.sets[i].storedAt.None? && !s.sets[i].gone }

  predicate Enabled(cfg: Config, s: State, step: Step) {
    match step
    case StoreSet(i) =>
      Unstored(s, i)
      && (cfg.strict ==> forall j: nat :: j < |s.sets| && s.sets[j].key == s.sets[i].key ==> !Open(s, j))
    case TimeSet(i) => Open(s, i)
    case Abandon(i) => i < |s.sets| && s.sets[i].timedAt.None?
    case LocalHit(process, key) => (process, key) in s.local && s.now < s.local[(process, key)].expiry
    case Fetch(id, _, key) => id !in s.fetches && RemoteLive(s, key)
    case Populate(id) => id in s.fetches && s.now <= s.fetches[id].at + cfg.lag
    case _ => true
  }

  function Next(cfg: Config, s: State, step: Step): State
    requires Enabled(cfg, s, step)
  {
    match step
    case Tick(elapsed) => s.(now := s.now + elapsed)
    case BeginSet(process, key, value, ttl) =>
      s.(local := s.local[(process, key) := Local(value, |s.sets|, s.now + ttl.Seconds())],
         sets := s.sets + [SetOp(key, value, ttl, s.now, None, None, None, false)])
    case StoreSet(i) =>
      s.(redis := s.redis[s.sets[i].key := Remote(s.sets[i].value, i, None)],
         sets := s.sets[i := s.sets[i].(storedAt := Some(s.now))])
    case TimeSet(i) =>
      var key := s.sets[i].key;
      s.(redis := if RemoteLive(s, key) then s.redis[key := s.redis[key].(expiry := Some(s.now + s.sets[i].ttl.Seconds()))]
                  else s.redis,
         sets := s.sets[i := s.sets[i].(timedAt := Some(s.now),
                                        timed := if RemoteLive(s, key) then Some(s.redis[key].writer) else None)])
    case Abandon(i) => s.(sets := s.sets[i := s.sets[i].(gone := true)])
    case LocalHit(_, _) => s
    case Fetch(id, process, key) =>
      s.(fetches := s.fetches[id := Fetched(process, key, s.redis[key].value, s.redis[key].writer, s.now)])
    case Populate(id) =>
      var f := s.fetches[id];
      s.(local := s.local[(f.process, f.key) := Local(f.value, f.writer, s.now + 60)], fetches := s.fetches - {id})
    case EvictLocal(process, key) => s.(local := s.local - {(process, key)})
    case EvictRemote(key) => s.(redis := s.redis - {key})
  }

  /** What a step returns to a reader: the key it asked for, the value, and the set that wrote it. */
  function ReadBy(s: State, step: Step): Option<(string, string, nat)> {
    match step
    case LocalHit(process, key) =>
      if (process, key) in s.local then Some((key, s.local[(process, key)].value, s.local[(process, key)].writer)) else None
    case Populate(id) =>
      if id in s.fetches then Some((s.fetches[id].key, s.fetches[id].value, s.fetches[id].writer)) else None
    case _ => None
  }

  function Start(now: int): State { State(now, map[], map[], [], map[]) }

  ghost predicate Run(cfg: Config, from: State, steps: seq<Step>, to: State)
    decreases |steps|
  {
    if steps == [] then from == to
    else Enabled(cfg, from, steps[0]) && Run(cfg, Next(cfg, from, steps[0]), steps[1..], to)
  }

  ghost predicate Reachable(cfg: Config, s: State) {
    exists start: int, steps: seq<Step> :: Run(cfg, Start(start), steps, s)
  }

  // ---------------------------------------------------------------- undisturbed calls

  /** Redis and the local tier of a process, without the record of who wrote what. */
  function RedisView(s: State): Store<string> { map key | key in s.redis :: Entry(s.redis[key].value, s.redis[key].expiry) }

  function LocalView(s: State, process: nat, key: string): Option<QueryCache.LocalEntry> {
    var at := (process, key);
    if at in s.local then Some(QueryCache.LocalEntry(s.local[at].value, s.local[at].expiry)) else None
  }

  ghost predicate Shows(s: State, process: nat, local: QueryCache.LocalTier) {
    forall key :: Found(local, key) == LocalView(s, process, key)
  }

  lemma RunThen(cfg: Config, from: State, step: Step, rest: seq<Step>, to: State)
    requires Enabled(cfg, from, step) && Run(cfg, Next(cfg, from, step), rest, to)
    ensures Run(cfg, from, [step] + rest, to)
  {
    assert ([step] + rest)[1..] == rest;
  }

  lemma RunTwo(cfg: Config, s: State, a: Step, b: Step)
    requires Enabled(cfg, s, a) && Enabled(cfg, Next(cfg, s, a), b)
    ensures Run(cfg, s, [a, b], Next(cfg, Next(cfg, s, a), b))
  {
    var t := Next(cfg, s, a);
    var u := Next(cfg, t, b);
    RunThen(cfg, t, b, [], u);
    RunThen(cfg, s, a, [b], u);
    assert [b] + [] == [b] && [a] + [b] == [a, b];
  }

  /** The steps of a set of which `reached` Redis commands get through. */
  function StepsOfSet(i: nat, process: nat, key: string, value: string, ttl: QueryCache.CacheTtl, reached: nat): seq<Step> {
    [BeginSet(process, key, value, ttl)] +
      if reached == 0 then [Abandon(i)] else [StoreSet(i), if reached == 1 then Abandon(i) else TimeSet(i)]
  }

  /** The SET of a set, followed by its EXPIRE or by nothing more. */
  lemma StoreSteps(cfg: Config, s: State, i: nat, reached: nat)
    requires Enabled(cfg, s, StoreSet(i)) && s.sets[i].timedAt.None? && reached > 0
    ensures var last := if reached == 1 then Abandon(i) else TimeSet(i); var t := Next(cfg, s, StoreSet(i));
      && Enabled(cfg, t, last)
      && var u, op := Next(cfg, t, last), s.sets[i];
         u.local == s.local && RedisView(u) == QueryCache.StoreAfterSet(RedisView(s), s.now, op.key, op.value, op.ttl, reached)
  {
    var last := if reached == 1 then Abandon(i) else TimeSet(i);
    var t, op := Next(cfg, s, StoreSet(i)), s.sets[i];
    var u := Next(cfg, t, last);
    assert u.redis == s.redis[op.key := Remote(op.value, i, if reached == 1 then None else Some(s.now + op.ttl.Seconds()))];
    assert RedisView(u).Keys == RedisView(s).Keys + {op.key};
  }

  lemma BeginShows(cfg: Config, s: State, process: nat, key: string, value: string, ttl: QueryCache.CacheTtl, local: QueryCache.LocalTier)
    requires Shows(s, process, local)
    ensures Shows(Next(cfg, s, BeginSet(process, key, value, ttl)), process, QueryCache.LocalAfterSet(local, s.now, key, value, ttl))
  {
    var t := Next(cfg, s, BeginSet(process, key, value, ttl));
    forall k
      ensures Found(QueryCache.LocalAfterSet(local, s.now, key, value, ttl), k) == LocalView(t, process, k)
    {
      assert Found(local, k) == LocalView(s, process, k);
    }
  }

  /** An undisturbed set, with any of its failures, leaves what `Process.Set` leaves, and the other processes alone. */
  lemma SetIsItsSteps(cfg: Config, s: State, process: nat, key: string, value: string, ttl: QueryCache.CacheTtl,
                      reached: nat, local: QueryCache.LocalTier)
    returns (u: State)
    requires Shows(s, process, local) && forall j: nat :: Open(s, j) ==> s.sets[j].key != key
    ensures Run(cfg, s, StepsOfSet(|s.sets|, process, key, value, ttl, reached), u)
    ensures Shows(u, process, QueryCache.LocalAfterSet(local, s.now, key, value, ttl))
    ensures RedisView(u) == QueryCache.StoreAfterSet(RedisView(s), s.now, key, value, ttl, reached)
    ensures forall p: nat, k :: p != process ==> LocalView(u, p, k) == LocalView(s, p, k)
  {
    var n, begin := |s.sets|, BeginSet(process, key, value, ttl);
    var t := Next(cfg, s, begin);
    BeginShows(cfg, s, process, key, value, ttl, local);
    if reached == 0 {
      u := Next(cfg, t, Abandon(n));
      RunTwo(cfg, s, begin, Abandon(n));
      assert StepsOfSet(n, process, key, value, ttl, reached) == [begin, Abandon(n)];
    } else {
      NoneOpen(cfg, s, process, key, value, ttl);
      StoreSteps(cfg, t, n, reached);
      var last := if reached == 1 then Abandon(n) else TimeSet(n);
      u := Next(cfg, Next(cfg, t, StoreSet(n)), last);
      RunTwo(cfg, t, StoreSet(n), last);
      RunThen(cfg, s, begin, [StoreSet(n), last], u);
    }
    assert u.local == t.local;
    assert forall k :: LocalView(u, process, k) == LocalView(t, process, k);
  }

  lemma NoneOpen(cfg: Config, s: State, process: nat, key: string, value: string, ttl: QueryCache.CacheTtl)
    requires forall j: nat :: Open(s, j) ==> s.sets[j].key != key
    ensures Enabled(cfg, Next(cfg, s, BeginSet(process, key, value, ttl)), StoreSet(|s.sets|))
  {
    var t := Next(cfg, s, BeginSet(process, key, value, ttl));
    forall j: nat | j < |t.sets| && t.sets[j].key == key
      ensures !Open(t, j)
    {
      assert j < |s.sets| ==> !Open(s, j);
    }
  }

  function ReadText(s: State, step: Step): Option<string> {
    var read := ReadBy(s, step);
    if read.Some? then Some(read.value.1) else None
  }

  /** An undisturbed get leaves what `Process.Get` leaves, and the text it finds, if any, is the one its last step
      reads; `mid` is the state before that step. */
  lemma GetIsItsSteps(cfg: Config, s: State, id: nat, process: nat, key: string, redisUp: bool, local: QueryCache.LocalTier)
    returns (steps: seq<Step>, mid: State, u: State)
    requires Shows(s, process, local) && id !in s.fetches
    ensures Run(cfg, s, steps, u) && RedisView(u) == RedisView(s)
    ensures Shows(u, process, QueryCache.LocalAfterGet(local, RedisView(s), s.now, key, redisUp))
    ensures forall p: nat, k :: p != process ==> LocalView(u, p, k) == LocalView(s, p, k)
    ensures steps != [] && Enabled(cfg, mid, steps[|steps| - 1]) && u == Next(cfg, mid, steps[|steps| - 1])
    ensures ReadText(mid, steps[|steps| - 1]) == QueryCache.CachedText(local, RedisView(s), s.now, key, redisUp)
  {
    assert Found(local, key) == LocalView(s, process, key);
    if QueryCache.Fresh(local, s.now, key) {
      steps, mid, u := [LocalHit(process, key)], s, s;
      RunThen(cfg, s, LocalHit(process, key), [], s);
    } else if redisUp && RemoteLive(s, key) {
      mid, u := FetchAndFill(cfg, s, id, process, key, local);
      steps := [Fetch(id, process, key), Populate(id)];
    } else {
      steps, mid, u := [EvictLocal(process, key)], s, Next(cfg, s, EvictLocal(process, key));
      RunThen(cfg, s, EvictLocal(process, key), [], u);
      DroppedShows(s, u, process, key, local);
    }
  }

  /** So what a get replies is what that step reads. */
  lemma ReplyIsRead(local: QueryCache.LocalTier, store: Store<string>, now: int, key: string, redisUp: bool,
                    parses: string -> bool, mid: State, last: Step)
    requires ReadText(mid, last) == QueryCache.CachedText(local, store, now, key, redisUp)
    ensures var reply := QueryCache.GetReply(local, store, now, key, redisUp, parses);
      && (reply.Hit? ==> ReadText(mid, last) == Some(reply.text))
      && (reply.Miss? ==> ReadText(mid, last) == None)
  {
  }

  lemma FetchAndFill(cfg: Config, s: State, id: nat, process: nat, key: string, local: QueryCache.LocalTier) returns (mid: State, u: State)
    requires Shows(s, process, local) && id !in s.fetches && RemoteLive(s, key)
    ensures Run(cfg, s, [Fetch(id, process, key), Populate(id)], u) && u.redis == s.redis
    ensures Enabled(cfg, mid, Populate(id)) && u == Next(cfg, mid, Populate(id))
    ensures ReadBy(mid, Populate(id)) == Some((key, s.redis[key].value, s.redis[key].writer))
    ensures Shows(u, process, local[key := QueryCache.LocalEntry(s.redis[key].value, s.now + 60)])
    ensures forall p: nat, k :: p != process ==> LocalView(u, p, k) == LocalView(s, p, k)
  {
    mid := Next(cfg, s, Fetch(id, process, key));
    u := Next(cfg, mid, Populate(id));
    RunTwo(cfg, s, Fetch(id, process, key), Populate(id));
    FilledShows(s, u, process, key, s.redis[key].value, s.redis[key].writer, s.now + 60, local);
  }

  lemma FilledShows(s: State, u: State, process: nat, key: string, value: string, writer: nat, expiry: int, local: QueryCache.LocalTier)
    requires Shows(s, process, local) && u.local == s.local[(process, key) := Local(value, writer, expiry)]
    ensures Shows(u, process, local[key := QueryCache.LocalEntry(value, expiry)])
  {
    forall k
      ensures Found(local[key := QueryCache.LocalEntry(value, expiry)], k) == LocalView(u, process, k)
    {
      assert Found(local, k) == LocalView(s, process, k);
    }
  }

  lemma DroppedShows(s: State, u: State, process: nat, key: string, local: QueryCache.LocalTier)
    requires Shows(s, process, local) && u.local == s.local - {(process, key)}
    ensures Shows(u, process, local - {key})
  {
    forall k
      ensures Found(local - {key}, k) == LocalView(u, process, k)
    {
      assert Found(local, k) == LocalView(s, process, k);
    }
  }

  // ---------------------------------------------------------------- what every step keeps

  /** `i` is a set of `key` with that value. */
  ghost predicate Writes(s: State, i: nat, key: string, value: string) {
    i < |s.sets| && s.sets[i].key == key && s.sets[i].value == value
  }

  /** The EXPIRE of set `j` has run and is that of set `i` itself or ran on its value. */
  ghost predicate Times(s: State, i: nat, j: nat) {
    i < |s.sets| && j < |s.sets| && s.sets[j].timedAt.Some? && (j == i || s.sets[j].timed == Some(i))
  }

  function Deadline(s: State, j: nat): int
    requires j < |s.sets| && s.sets[j].timedAt.Some?
  {
    s.sets[j].timedAt.value + s.sets[j].ttl.Seconds()
  }

  /** `when` is at most `slack` after the deadline that such an EXPIRE set. */
  ghost predicate Within(s: State, i: nat, when: int, slack: int) {
    exists j: nat :: Times(s, i, j) && when <= Deadline(s, j) + slack
  }

  ghost predicate RemoteOk(cfg: Config, s: State, key: string)
    requires key in s.redis
  {
    var e := s.redis[key];
    && Writes(s, e.writer, key, e.value) && s.sets[e.writer].storedAt.Some? && s.sets[e.writer].storedAt.value <= s.now
    && (s.sets[e.writer].timedAt.Some? ==> e.expiry.Some?)
    && (e.expiry.Some? ==> Within(s, e.writer, e.expiry.value, 0))
  }

  ghost predicate FetchOk(cfg: Config, s: State, id: nat)
    requires id in s.fetches
  {
    var f := s.fetches[id];
    && Writes(s, f.writer, f.key, f.value) && s.sets[f.writer].storedAt.Some? && f.at <= s.now
    && (s.sets[f.writer].timedAt.Some? ==> Within(s, f.writer, f.at, 0))
  }

  ghost predicate LocalOk(cfg: Config, s: State, at: (nat, string))
    requires at in s.local
  {
    var l := s.local[at];
    && Writes(s, l.writer, at.1, l.value)
    && (l.expiry <= s.now + 60 || l.expiry <= s.sets[l.writer].at + s.sets[l.writer].ttl.Seconds())
    && (s.sets[l.writer].timedAt.Some? ==> Within(s, l.writer, l.expiry, 60 + cfg.lag))
  }

  ghost predicate SetOk(s: State, i: nat)
    requires i < |s.sets|
  {
    && s.sets[i].at <= s.now
    && (s.sets[i].storedAt.Some? ==> s.sets[i].at <= s.sets[i].storedAt.value <= s.now)
    && (s.sets[i].timedAt.Some? ==> s.sets[i].storedAt.Some? && s.sets[i].storedAt.value <= s.sets[i].timedAt.value <= s.now)
  }

  ghost predicate Sound(cfg: Config, s: State) {
    && (forall i :: 0 <= i < |s.sets| ==> SetOk(s, i))
    && (forall key :: key in s.redis ==> RemoteOk(cfg, s, key))
    && (forall id :: id in s.fetches ==> FetchOk(cfg, s, id))
    && (forall at :: at in s.local ==> LocalOk(cfg, s, at))
    && (cfg.strict ==> OwnExpires(s))
  }

  /** An EXPIRE that can still come would run on its own set's value, and so did those that came. */
  ghost predicate OwnExpires(s: State) {
    && (forall i: nat :: Open(s, i) && s.sets[i].key in s.redis ==> s.redis[s.sets[i].key].writer == i)
    && (forall j :: 0 <= j < |s.sets| && s.sets[j].timed.Some? ==> s.sets[j].timed == Some(j))
  }

  /** Set records only gain their two times, and may give up. */
  ghost predicate Evolves(s: State, t: State) {
    && s.now <= t.now && |s.sets| <= |t.sets|
    && forall i :: 0 <= i < |s.sets| ==>
         && t.sets[i].key == s.sets[i].key && t.sets[i].value == s.sets[i].value
         && t.sets[i].ttl == s.sets[i].ttl && t.sets[i].at == s.sets[i].at
         && (s.sets[i].storedAt.Some? ==> t.sets[i].storedAt == s.sets[i].storedAt)
         && (s.sets[i].timedAt.Some? ==> t.sets[i].timedAt == s.sets[i].timedAt && t.sets[i].timed == s.sets[i].timed)
  }

  lemma StepEvolves(cfg: Config, s: State, step: Step)
    requires Enabled(cfg, s, step)
    ensures Evolves(s, Next(cfg, s, step))
    ensures !step.TimeSet? ==> forall i :: 0 <= i < |s.sets| ==> Next(cfg, s, step).sets[i].timedAt == s.sets[i].timedAt
  {
  }

  lemma WithinLater(s: State, t: State, i: nat, when: int, slack: int)
    requires Evolves(s, t) && Within(s, i, when, slack)
    ensures Within(t, i, when, slack)
  {
    var j: nat :| Times(s, i, j) && when <= Deadline(s, j) + slack;
    assert Times(t, i, j) && when <= Deadline(t, j) + slack;
  }

  lemma TimedNow(cfg: Config, s: State, t: State, i: nat, w: nat, when: int, slack: int)
    requires Enabled(cfg, s, TimeSet(i)) && t == Next(cfg, s, TimeSet(i))
    requires w < |s.sets| && (w == i || (RemoteLive(s, s.sets[i].key) && s.redis[s.sets[i].key].writer == w))
    requires when <= s.now + s.sets[i].ttl.Seconds() + slack
    ensures Within(t, w, when, slack)
  {
    assert Times(t, w, i) && when <= Deadline(t, i) + slack;
  }

  lemma RemoteTimed(cfg: Config, s: State, i: nat, key: string)
    requires Sound(cfg, s) && Enabled(cfg, s, TimeSet(i)) && key in s.redis
    ensures RemoteOk(cfg, Next(cfg, s, TimeSet(i)), key)
  {
    var t := Next(cfg, s, TimeSet(i));
    assert RemoteOk(cfg, s, key);
    var w := s.redis[key].writer;
    if key == s.sets[i].key && RemoteLive(s, key) {
      TimedNow(cfg, s, t, i, w, t.redis[key].expiry.value, 0);
    } else if s.redis[key].expiry.Some? {
      WithinLater(s, t, w, s.redis[key].expiry.value, 0);
    }
  }

  lemma RemoteStays(cfg: Config, s: State, step: Step, key: string)
    requires Sound(cfg, s) && Enabled(cfg, s, step) && key in Next(cfg, s, step).redis
    ensures RemoteOk(cfg, Next(cfg, s, step), key)
  {
    var t := Next(cfg, s, step);
    if step.TimeSet? {
      RemoteTimed(cfg, s, step.i, key);
    } else if step.StoreSet? && key == s.sets[step.i].key {
      assert SetOk(s, step.i);
    } else {
      assert RemoteOk(cfg, s, key) && t.redis[key] == s.redis[key];
      StepEvolves(cfg, s, step);
      if s.redis[key].expiry.Some? {
        WithinLater(s, t, s.redis[key].writer, s.redis[key].expiry.value, 0);
      }
    }
  }

  lemma FetchStays(cfg: Config, s: State, step: Step, id: nat)
    requires Sound(cfg, s) && Enabled(cfg, s, step) && id in Next(cfg, s, step).fetches
    ensures FetchOk(cfg, Next(cfg, s, step), id)
  {
    var t := Next(cfg, s, step);
    var f := t.fetches[id];
    StepEvolves(cfg, s, step);
    if step.Fetch? && id == step.id {
      assert RemoteOk(cfg, s, f.key);
      if s.sets[f.writer].timedAt.Some? {
        WithinLater(s, t, f.writer, s.redis[f.key].expiry.value, 0);
      }
    } else {
      assert FetchOk(cfg, s, id);
      if s.sets[f.writer].timedAt.Some? {
        WithinLater(s, t, f.writer, f.at, 0);
      } else if step.TimeSet? && f.writer == step.i {
        TimedNow(cfg, s, t, step.i, f.writer, f.at, 0);
      }
    }
  }

  lemma LocalPopulated(cfg: Config, s: State, id: nat)
    requires Sound(cfg, s) && Enabled(cfg, s, Populate(id))
    ensures LocalOk(cfg, Next(cfg, s, Populate(id)), (s.fetches[id].process, s.fetches[id].key))
  {
    var t, f := Next(cfg, s, Populate(id)), s.fetches[id];
    assert FetchOk(cfg, s, id);
    if s.sets[f.writer].timedAt.Some? {
      var j: nat :| Times(s, f.writer, j) && f.at <= Deadline(s, j);
      assert Times(t, f.writer, j) && s.now + 60 <= Deadline(t, j) + 60 + cfg.lag;
    }
  }

  lemma LocalKept(cfg: Config, s: State, t: State, at: (nat, string))
    requires Evolves(s, t) && at in s.local && LocalOk(cfg, s, at) && at in t.local && t.local[at] == s.local[at]
    requires var w := s.local[at].writer; w < |t.sets| && (t.sets[w].timedAt.Some? ==> s.sets[w].timedAt.Some?)
    ensures LocalOk(cfg, t, at)
  {
    var l := s.local[at];
    if s.sets[l.writer].timedAt.Some? {
      WithinLater(s, t, l.writer, l.expiry, 60 + cfg.lag);
    }
  }

  lemma LocalTimed(cfg: Config, s: State, i: nat, at: (nat, string))
    requires Sound(cfg, s) && Enabled(cfg, s, TimeSet(i)) && at in s.local
    ensures LocalOk(cfg, Next(cfg, s, TimeSet(i)), at)
  {
    var t, l := Next(cfg, s, TimeSet(i)), s.local[at];
    assert LocalOk(cfg, s, at) && SetOk(s, i);
    if l.writer == i {
      TimedNow(cfg, s, t, i, i, l.expiry, 60 + cfg.lag);
    } else {
      LocalKept(cfg, s, t, at);
    }
  }

  lemma LocalStays(cfg: Config, s: State, step: Step, at: (nat, string))
    requires Sound(cfg, s) && Enabled(cfg, s, step) && at in Next(cfg, s, step).local
    ensures LocalOk(cfg, Next(cfg, s, step), at)
  {
    if step.BeginSet? && at == (step.process, step.key) {
    } else if step.Populate? && at == (s.fetches[step.id].process, s.fetches[step.id].key) {
      LocalPopulated(cfg, s, step.id);
    } else if step.TimeSet? {
      LocalTimed(cfg, s, step.i, at);
    } else {
      assert LocalOk(cfg, s, at);
      StepEvolves(cfg, s, step);
      LocalKept(cfg, s, Next(cfg, s, step), at);
    }
  }

  lemma StepKeepsSound(cfg: Config, s: State, step: Step)
    requires Sound(cfg, s) && Enabled(cfg, s, step)
    ensures Sound(cfg, Next(cfg, s, step))
  {
    var t := Next(cfg, s, step);
    forall i | 0 <= i < |t.sets|
      ensures SetOk(t, i)
    {
      assert i < |s.sets| ==> SetOk(s, i);
    }
    forall key | key in t.redis
      ensures RemoteOk(cfg, t, key)
    {
      RemoteStays(cfg, s, step, key);
    }
    forall id | id in t.fetches
      ensures FetchOk(cfg, t, id)
    {
      FetchStays(cfg, s, step, id);
    }
    forall at | at in t.local
      ensures LocalOk(cfg, t, at)
    {
      LocalStays(cfg, s, step, at);
    }
    if cfg.strict {
      OwnExpiresStay(cfg, s, step);
    }
  }

  lemma OwnExpiresStay(cfg: Config, s: State, step: Step)
    requires cfg.strict && Sound(cfg, s) && Enabled(cfg, s, step)
    ensures OwnExpires(Next(cfg, s, step))
  {
    var t := Next(cfg, s, step);
    forall i: nat | Open(t, i) && t.sets[i].key in t.redis
      ensures t.redis[t.sets[i].key].writer == i
    {
      assert step.StoreSet? && i != step.i && s.sets[step.i].key == s.sets[i].key ==> Open(s, i);
    }
  }

  lemma {:induction false} RunKeepsSound(cfg: Config, from: State, steps: seq<Step>, to: State)
    requires Sound(cfg, from) && Run(cfg, from, steps, to)
    ensures Sound(cfg, to)
    decreases |steps|
  {
    if steps != [] {
      StepKeepsSound(cfg, from, steps[0]);
      RunKeepsSound(cfg, Next(cfg, from, steps[0]), steps[1..], to);
    }
  }

  lemma ReachableIsSound(cfg: Config, s: State)
    requires Reachable(cfg, s)
    ensures Sound(cfg, s)
  {
    var start: int, steps: seq<Step> :| Run(cfg, Start(start), steps, s);
    RunKeepsSound(cfg, Start(start), steps, s);
  }

  // ---------------------------------------------------------------- what a reader gets

  /** Set `i` is timed by its own EXPIRE only. */
  ghost predicate TimedAlone(s: State, i: nat) { forall j: nat :: Times(s, i, j) ==> j == i }

  /** Whatever a reader gets was written by a set of the key it asked for. If that set's EXPIRE has run, the read is
      at most 60 seconds and the lag after the deadline set by that EXPIRE or by another one that ran on the set's
      value. If there is no other one, and so always with `strict` sets, it is within the set's own TTL plus that. */
  lemma ReadsAreRecent(cfg: Config, s: State, step: Step, key: string, value: string, i: nat)
    requires Reachable(cfg, s) && Enabled(cfg, s, step) && ReadBy(s, step) == Some((key, value, i))
    ensures Writes(s, i, key, value)
    ensures s.sets[i].timedAt.Some? ==> Within(s, i, s.now, 60 + cfg.lag)
    ensures s.sets[i].timedAt.Some? && TimedAlone(s, i) ==>
      s.now - s.sets[i].timedAt.value <= s.sets[i].ttl.Seconds() + 60 + cfg.lag
    ensures cfg.strict ==> TimedAlone(s, i)
  {
    ReachableIsSound(cfg, s);
    if step.LocalHit? {
      assert LocalOk(cfg, s, (step.process, step.key));
    } else {
      assert FetchOk(cfg, s, step.id);
    }
    if s.sets[i].timedAt.Some? {
      var when, slack := if step.LocalHit? then s.local[(step.process, step.key)].expiry else s.fetches[step.id].at,
                         if step.LocalHit? then 60 + cfg.lag else 0;
      var j: nat :| Times(s, i, j) && when <= Deadline(s, j) + slack;
      assert Times(s, i, j) && s.now <= Deadline(s, j) + 60 + cfg.lag;
    }
  }

  // ---------------------------------------------------------------- why `strict` is needed

  /** Set `i` stores its value and times it, and all but the last second of its TTL passes. */
  lemma StoreAndWait(s: State, i: nat) returns (steps: seq<Step>, c: State)
    requires Unstored(s, i) && s.sets[i].timedAt.None?
    ensures Run(Config(0, false), s, steps, c)
    ensures c.now == s.now + s.sets[i].ttl.Seconds() - 1 && c.fetches == s.fetches
    ensures c.sets == s.sets[i := s.sets[i].(storedAt := Some(s.now), timedAt := Some(s.now), timed := Some(i))]
    ensures c.redis == s.redis[s.sets[i].key := Remote(s.sets[i].value, i, Some(c.now + 1))]
  {
    var cfg, wait := Config(0, false), Tick(s.sets[i].ttl.Seconds() - 1);
    var a := Next(cfg, s, StoreSet(i));
    var b := Next(cfg, a, TimeSet(i));
    c := Next(cfg, b, wait);
    RunThen(cfg, b, wait, [], c);
    RunThen(cfg, a, TimeSet(i), [wait], c);
    steps := [TimeSet(i)] + [wait];
    RunThen(cfg, s, StoreSet(i), steps, c);
    steps := [StoreSet(i)] + steps;
  }

  /** A late EXPIRE of set `j`, and all but the last second of its TTL. */
  lemma TimeAndWait(c: State, j: nat) returns (steps: seq<Step>, u: State)
    requires Open(c, j) && RemoteLive(c, c.sets[j].key)
    ensures Run(Config(0, false), c, steps, u)
    ensures u.now == c.now + c.sets[j].ttl.Seconds() - 1 && u.fetches == c.fetches
    ensures u.sets == c.sets[j := c.sets[j].(timedAt := Some(c.now), timed := Some(c.redis[c.sets[j].key].writer))]
    ensures u.redis == c.redis[c.sets[j].key := c.redis[c.sets[j].key].(expiry := Some(u.now + 1))]
  {
    var cfg, wait := Config(0, false), Tick(c.sets[j].ttl.Seconds() - 1);
    var d := Next(cfg, c, TimeSet(j));
    u := Next(cfg, d, wait);
    RunThen(cfg, d, wait, [], u);
    RunThen(cfg, c, TimeSet(j), [wait], u);
    steps := [TimeSet(j)] + [wait];
  }

  /** Set `j` is between SET and EXPIRE when set `i` of the same key stores its value: `i`'s EXPIRE runs, then
      `j`'s late EXPIRE prolongs the value of `i` just before its deadline. */
  lemma LateExpireProlongs(s: State, i: nat, j: nat) returns (steps: seq<Step>, u: State)
    requires Open(s, j) && Unstored(s, i) && s.sets[i].timedAt.None?
    requires s.sets[j].key == s.sets[i].key
    ensures Run(Config(0, false), s, steps, u)
    ensures i < |u.sets| && u.sets[i].ttl == s.sets[i].ttl && u.sets[i].timedAt == Some(s.now)
    ensures s.sets[i].key in u.redis && u.redis[s.sets[i].key].value == s.sets[i].value && u.redis[s.sets[i].key].writer == i
    ensures u.redis[s.sets[i].key].expiry == Some(u.now + 1)
    ensures u.now == s.now + s.sets[i].ttl.Seconds() + s.sets[j].ttl.Seconds() - 2
    ensures u.fetches == s.fetches && u.sets[i].key == s.sets[i].key && u.sets[i].value == s.sets[i].value
  {
    var first, c := StoreAndWait(s, i);
    assert c.sets[j] == s.sets[j];
    var second, u' := TimeAndWait(c, j);
    u := u';
    assert u.sets[i] == c.sets[i];
    RunOn(Config(0, false), s, first, c, second, u);
    steps := first + second;
  }

  /** A value Redis still holds for one second can be read locally for 59 seconds more. */
  lemma LocalCopyOutlives(u: State, key: string, process: nat) returns (steps: seq<Step>, v: State)
    requires key in u.redis && u.redis[key].expiry == Some(u.now + 1)
    ensures Run(Config(0, false), u, steps, v) && v.now == u.now + 59 && v.sets == u.sets
    ensures Enabled(Config(0, false), v, LocalHit(process, key))
    ensures ReadBy(v, LocalHit(process, key)) == Some((key, u.redis[key].value, u.redis[key].writer))
  {
    var cfg := Config(0, false);
    var id := FreshId(u.fetches.Keys);
    var a := Next(cfg, u, Fetch(id, process, key));
    var b := Next(cfg, a, Populate(id));
    v := Next(cfg, b, Tick(59));
    RunThen(cfg, b, Tick(59), [], v);
    RunThen(cfg, a, Populate(id), [Tick(59)], v);
    steps := [Populate(id)] + [Tick(59)];
    RunThen(cfg, u, Fetch(id, process, key), steps, v);
    steps := [Fetch(id, process, key)] + steps;
  }

  lemma {:induction false} FreshId(used: set<nat>) returns (id: nat)
    ensures forall k :: k in used ==> k < id
  {
    id := 0;
    if k :| k in used {
      var rest := FreshId(used - {k});
      id := rest + k + 1;
      assert forall m :: m in used ==> m == k || m in used - {k};
    }
  }

  lemma {:induction false} RunOn(cfg: Config, a: State, first: seq<Step>, b: State, second: seq<Step>, c: State)
    requires Run(cfg, a, first, b) && Run(cfg, b, second, c)
    ensures Run(cfg, a, first + second, c)
    decreases |first|
  {
    if first == [] {
      assert first + second == second;
    } else {
      RunOn(cfg, Next(cfg, a, first[0]), first[1..], b, second, c);
      assert (first + second)[1..] == first[1..] + second;
    }
  }

  /** So in every state where a strict system would hold back the SET of `i`, a system that does not can go on
      to return the value of `i` more than its TTL plus 60 seconds after its own EXPIRE, with no lag at all. */
  lemma OverlappingSetsBreakTheBound(s: State, i: nat, j: nat, process: nat)
    requires Reachable(Config(0, false), s) && Overlap(s, i, j)
    ensures exists steps: seq<Step>, v: State :: Run(Config(0, false), s, steps, v) && ReadTooLate(v, i, process)
    ensures exists v: State :: Reachable(Config(0, false), v) && ReadTooLate(v, i, process)
  {
    var cfg := Config(0, false);
    ReachableIsSound(cfg, s);
    assert SetOk(s, i);
    var first, u := LateExpireProlongs(s, i, j);
    var second, v := LocalCopyOutlives(u, s.sets[i].key, process);
    RunOn(cfg, s, first, u, second, v);
    assert ReadTooLate(v, i, process);
    var start: int, before: seq<Step> :| Run(cfg, Start(start), before, s);
    RunOn(cfg, Start(start), before, s, first + second, v);
  }

  /** Set `i` is about to store while the EXPIRE of set `j` of the same key can still come. */
  predicate Overlap(s: State, i: nat, j: nat) { Open(s, j) && Unstored(s, i) && s.sets[j].key == s.sets[i].key }

  /** The process can read the value of set `i` more than its TTL plus 60 seconds after its EXPIRE. */
  ghost predicate ReadTooLate(v: State, i: nat, process: nat) {
    && i < |v.sets| && v.sets[i].timedAt.Some?
    && var op := v.sets[i]; var read := LocalHit(process, op.key);
       && Enabled(Config(0, false), v, read) && ReadBy(v, read) == Some((op.key, op.value, i))
       && v.now - op.timedAt.value > op.ttl.Seconds() + 60
  }

  /** Such a state needs two sets of one key and no more. */
  lemma OverlapHappens(key: string, first: string, second: string, ttl: QueryCache.CacheTtl) returns (s: State)
    ensures Reachable(Config(0, false), s) && Overlap(s, 1, 0)
    ensures s.sets[0].value == first && s.sets[1].value == second
  {
    var cfg := Config(0, false);
    var a := Next(cfg, Start(0), BeginSet(0, key, first, ttl));
    var b := Next(cfg, a, BeginSet(0, key, second, ttl));
    s := Next(cfg, b, StoreSet(0));
    RunTwo(cfg, a, BeginSet(0, key, second, ttl), StoreSet(0));
    RunThen(cfg, Start(0), BeginSet(0, key, first, ttl), [BeginSet(0, key, second, ttl), StoreSet(0)], s);
  }
}
