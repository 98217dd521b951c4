/** Provider API keys of a project, resolved one at a time (`get_key`) or many at once (`get_keys_batch`),
    through a cache of 60 seconds. */
module ProviderKeys {
  import opened Options
  import RT = ReadThrough
  import Providers

  const TTL: nat := 60

  datatype CachedKey = CachedKey(key: string, isPlatform: bool, expiresAt: int)

  datatype ResolvedKey = ResolvedKey(key: string, isPlatform: bool, baseUrl: Option<string>)

  /** The rows of `project_settings`, by project and setting. */
  type Settings = map<(string, string), string>

  type Cache = map<(string, string), CachedKey>

  function Members<T>(xs: seq<T>): set<T> { set x | x in xs }

  function StripPrefix(s: string, prefix: string): Option<string> {
    if |prefix| <= |s| && s[..|prefix|] == prefix then Some(s[|prefix|..]) else None
  }

  function StripSuffix(s: string, suffix: string): Option<string> {
    if |suffix| <= |s| && s[|s| - |suffix|..] == suffix then Some(s[..|s| - |suffix|]) else None
  }

  const PREFIX := "gateway_"
  const SUFFIX := "_api_key"

  function SettingKey(name: string): string { PREFIX + name + SUFFIX }

  function ProviderName(setting: string): Option<string> {
    var rest := StripPrefix(setting, PREFIX);
    if rest.None? then None else StripSuffix(rest.value, SUFFIX)
  }

  lemma SettingNamesProvider(name: string)
    ensures ProviderName(SettingKey(name)) == Some(name)
  {
    assert SettingKey(name)[|PREFIX|..] == name + SUFFIX;
  }

  /** What does not change while keys are resolved. */
  datatype Gateway<!P(!new)> = Gateway(
    name: P -> string, parse: string -> Option<P>, dedicated: P,
    decrypt: string -> Option<string>, creditsEnabled: bool, defaultKeys: map<P, string>)
  {
    /** `parse` undoes `name`. */
    ghost predicate WellNamed() {
      && (forall p :: parse(name(p)) == Some(p))
      && (forall s :: parse(s).Some? ==> name(parse(s).value) == s)
    }

    function Slot(project: string, p: P): (string, string) { (project, name(p)) }

    predicate Cached(cache: Cache, now: int, project: string, p: P) {
      Slot(project, p) in cache && cache[Slot(project, p)].expiresAt > now
    }

    function FromCache(cache: Cache, now: int, project: string, p: P): Option<ResolvedKey> {
      if Cached(cache, now, project, p)
      then var c := cache[Slot(project, p)]; Some(ResolvedKey(c.key, c.isPlatform, None))
      else None
    }

    function Stored(db: Settings, project: string, p: P): Option<string> {
      Found(db, (project, SettingKey(name(p))))
    }

    function BaseUrl(db: Settings, project: string, p: P): Option<string> {
      Found(db, (project, "gateway_" + name(p) + "_base_url"))
    }

    /** The project's own key: stored and readable. */
    function OwnKey(db: Settings, project: string, p: P): Option<string> {
      var stored := Stored(db, project, p);
      if stored.None? then None else decrypt(stored.value)
    }

    function PlatformKey(p: P): Option<ResolvedKey> {
      if creditsEnabled && p in defaultKeys then Some(ResolvedKey(defaultKeys[p], true, None)) else None
    }

    /** What one lookup gives when the database answers. */
    function Single(cache: Cache, db: Settings, now: int, project: string, p: P): Option<ResolvedKey> {
      if Cached(cache, now, project, p) then FromCache(cache, now, project, p)
      else
        var url := if p == dedicated then BaseUrl(db, project, p) else None;
        var own := OwnKey(db, project, p);
        if own.Some? then Some(ResolvedKey(own.value, false, url))
        else if Stored(db, project, p).Some? then None
        else if p != dedicated then PlatformKey(p)
        else if url.Some? then Some(ResolvedKey("", false, url)) else None
    }

    /** What the batch gives for one of its providers. */
    function Batched(cache: Cache, db: Settings, now: int, project: string, p: P): Option<ResolvedKey> {
      if Cached(cache, now, project, p) then FromCache(cache, now, project, p)
      else
        var own := OwnKey(db, project, p);
        if own.Some? then Some(ResolvedKey(own.value, false, None)) else PlatformKey(p)
    }

    /** What a batch with an answer from the database gives for `p` and leaves in its slot. */
    predicate BatchGives(cache: Cache, db: Settings, now: int, later: int, project: string, p: P,
                         r: Option<ResolvedKey>, cache': Cache)
    {
      var slot, row := (project, name(p)), (project, "gateway_" + name(p) + "_api_key");
      if slot in cache && cache[slot].expiresAt > now then
        r == Some(ResolvedKey(cache[slot].key, cache[slot].isPlatform, None)) && Found(cache', slot) == Some(cache[slot])
      else if row in db && decrypt(db[row]).Some? then
        && r == Some(ResolvedKey(decrypt(db[row]).value, false, None))
        && Found(cache', slot) == Some(CachedKey(decrypt(db[row]).value, false, later + 60))
      else
        && Found(cache', slot) == Found(cache, slot)
        && r == if creditsEnabled && p in defaultKeys then Some(ResolvedKey(defaultKeys[p], true, None)) else None
    }

    lemma AllGive(cache: Cache, db: Settings, now: int, later: int, project: string, providers: seq<P>,
                  result: map<P, ResolvedKey>, cache': Cache)
      requires WellNamed() && AllBatched(cache, db, now, project, providers, result)
      requires CacheWith(cache, db, later + TTL, project, Missing(cache, now, project, Members(providers)), cache')
      ensures forall p :: p in providers ==> BatchGives(cache, db, now, later, project, p, Found(result, p), cache')
    {
      forall p | p in providers
        ensures BatchGives(cache, db, now, later, project, p, Found(result, p), cache')
      {
        var slot := Slot(project, p);
        assert parse(slot.1) == Some(p);
        assert Found(result, p) == Batched(cache, db, now, project, p);
        assert Found(cache', slot) == EntryWith(cache, db, later + TTL, project, Missing(cache, now, project, Members(providers)), slot);
      }
    }

    ghost predicate AllBatched(cache: Cache, db: Settings, now: int, project: string, providers: seq<P>, result: map<P, ResolvedKey>) {
      forall p :: Found(result, p) == if p in providers then Batched(cache, db, now, project, p) else None
    }

    function Missing(cache: Cache, now: int, project: string, ps: set<P>): set<P> {
      set p | p in ps && !Cached(cache, now, project, p)
    }

    /** The cache entry for `slot` once the own keys of `ps` are cached, every other slot being as it was. */
    function EntryWith(cache: Cache, db: Settings, expiresAt: int, project: string, ps: set<P>, slot: (string, string))
      : Option<CachedKey>
    {
      var p := parse(slot.1);
      if slot.0 == project && p.Some? && p.value in ps && OwnKey(db, project, p.value).Some?
      then Some(CachedKey(OwnKey(db, project, p.value).value, false, expiresAt))
      else Found(cache, slot)
    }

    ghost predicate CacheWith(cache: Cache, db: Settings, expiresAt: int, project: string, ps: set<P>, cache': Cache) {
      forall slot :: Found(cache', slot) == EntryWith(cache, db, expiresAt, project, ps, slot)
    }

    /** The result for `p` once the own keys of `ps` are added to `found`. */
    function ResultWith(found: map<P, ResolvedKey>, db: Settings, project: string, ps: set<P>, p: P): Option<ResolvedKey> {
      if p in ps && OwnKey(db, project, p).Some?
      then Some(ResolvedKey(OwnKey(db, project, p).value, false, None))
      else Found(found, p)
    }

    ghost predicate ResultsWith(found: map<P, ResolvedKey>, db: Settings, project: string, ps: set<P>, result: map<P, ResolvedKey>) {
      forall p :: Found(result, p) == ResultWith(found, db, project, ps, p)
    }

    /** Caching one more own key. */
    lemma CacheOneMore(cache: Cache, db: Settings, expiresAt: int, project: string, ps: set<P>, cache': Cache, p: P)
      requires WellNamed() && CacheWith(cache, db, expiresAt, project, ps, cache')
      ensures var own := OwnKey(db, project, p);
        CacheWith(cache, db, expiresAt, project, ps + {p},
                  if own.None? then cache' else cache'[Slot(project, p) := CachedKey(own.value, false, expiresAt)])
    {
      var own := OwnKey(db, project, p);
      var cache2 := if own.None? then cache' else cache'[Slot(project, p) := CachedKey(own.value, false, expiresAt)];
      forall slot
        ensures Found(cache2, slot) == EntryWith(cache, db, expiresAt, project, ps + {p}, slot)
      {
        assert Found(cache', slot) == EntryWith(cache, db, expiresAt, project, ps, slot);
        if slot == Slot(project, p) {
          assert parse(slot.1) == Some(p);
        }
      }
    }

    lemma ResultOneMore(found: map<P, ResolvedKey>, db: Settings, project: string, ps: set<P>, result: map<P, ResolvedKey>, p: P)
      requires ResultsWith(found, db, project, ps, result)
      ensures var own := OwnKey(db, project, p);
        ResultsWith(found, db, project, ps + {p},
                    if own.None? then result else result[p := ResolvedKey(own.value, false, None)])
    {
      var own := OwnKey(db, project, p);
      var result2 := if own.None? then result else result[p := ResolvedKey(own.value, false, None)];
      forall q
        ensures Found(result2, q) == ResultWith(found, db, project, ps + {p}, q)
      {
        assert Found(result, q) == ResultWith(found, db, project, ps, q);
      }
    }

    /** A provider without an own key makes no difference. */
    lemma AllTaken(cache: Cache, db: Settings, expiresAt: int, project: string, ps: set<P>, all: set<P>, cache': Cache,
                   found: map<P, ResolvedKey>, result: map<P, ResolvedKey>)
      requires CacheWith(cache, db, expiresAt, project, ps, cache') && ResultsWith(found, db, project, ps, result)
      requires ps <= all
      requires forall p :: p in all && OwnKey(db, project, p).Some? ==> p in ps
      ensures CacheWith(cache, db, expiresAt, project, all, cache') && ResultsWith(found, db, project, all, result)
    {
      forall p
        ensures Found(result, p) == ResultWith(found, db, project, all, p)
      {
        assert Found(result, p) == ResultWith(found, db, project, ps, p);
      }
      forall slot
        ensures Found(cache', slot) == EntryWith(cache, db, expiresAt, project, all, slot)
      {
        assert Found(cache', slot) == EntryWith(cache, db, expiresAt, project, ps, slot);
      }
    }
  }

  /** The answer to the batch query: the rows of the project with one of `keys`, in any order. */
  ghost predicate Selects(db: Settings, project: string, keys: seq<string>, rows: seq<(string, string)>) {
    && (forall i :: 0 <= i < |rows| ==> rows[i].0 in keys && Found(db, (project, rows[i].0)) == Some(rows[i].1))
    && (forall k :: k in keys && (project, k) in db ==> exists i :: 0 <= i < |rows| && rows[i].0 == k)
  }

  class KeyStore<P(==,!new)> {
    const gateway: Gateway<P>
    var cache: Cache

    /** The cache never holds a platform key. */
    ghost predicate Valid() reads this {
      gateway.WellNamed() && forall slot :: slot in cache ==> !cache[slot].isPlatform
    }

    constructor (gateway: Gateway<P>)
      requires gateway.WellNamed()
      ensures Valid() && this.gateway == gateway && cache == map[]
    {
      this.gateway := gateway;
      cache := map[];
    }

    /** `now` and `later` are the readings of the clock before and after the queries; `keyUp` and `urlUp` say
        whether each query got an answer. */
    method GetKey(db: Settings, keyUp: bool, urlUp: bool, now: int, later: int, project: string, p: P)
      returns (r: Option<ResolvedKey>)
      requires Valid()
      modifies this`cache
      ensures Valid()
      ensures var c := old(cache); var asked := !gateway.Cached(c, now, project, p);
        var up := !asked || (keyUp && (p == gateway.dedicated ==> urlUp));
        && (up ==> r == gateway.Single(c, db, now, project, p))
        && (up ==> gateway.CacheWith(c, db, later + TTL, project, gateway.Missing(c, now, project, {p}), cache))
        && (!up ==> r == None && cache == c)
      ensures var slot, row := (project, gateway.name(p)), (project, "gateway_" + gateway.name(p) + "_api_key");
        var url := (project, "gateway_" + gateway.name(p) + "_base_url");
        var hit := slot in old(cache) && old(cache)[slot].expiresAt > now;
        && (hit ==> r == Some(ResolvedKey(old(cache)[slot].key, old(cache)[slot].isPlatform, None)) && cache == old(cache))
        && (!hit && keyUp && (p == gateway.dedicated ==> urlUp) ==>
              if row in db then
                var k := gateway.decrypt(db[row]);
                if k.None? then r == None && cache == old(cache)
                else r == Some(ResolvedKey(k.value, false, if p == gateway.dedicated then Found(db, url) else None))
                     && cache == old(cache)[slot := CachedKey(k.value, false, later + 60)]
              else
                && cache == old(cache)
                && r == if p == gateway.dedicated then (if url in db then Some(ResolvedKey("", false, Some(db[url]))) else None)
                        else if gateway.creditsEnabled && p in gateway.defaultKeys then Some(ResolvedKey(gateway.defaultKeys[p], true, None))
                        else None)
    {
      var slot := gateway.Slot(project, p);
      if slot in cache && cache[slot].expiresAt > now {
        return Some(ResolvedKey(cache[slot].key, cache[slot].isPlatform, None));
      }
      if !keyUp {
        return None;
      }
      var key := Found(db, (project, SettingKey(gateway.name(p))));
      var baseUrl: Option<string> := None;
      if p == gateway.dedicated {
        if !urlUp {
          return None;
        }
        baseUrl := Found(db, (project, "gateway_" + gateway.name(p) + "_base_url"));
      }
      if key.Some? {
        var decrypted := gateway.decrypt(key.value);
        if decrypted.None? {
          return None;
        }
        cache := cache[slot := CachedKey(decrypted.value, false, later + TTL)];
        r := Some(ResolvedKey(decrypted.value, false, baseUrl));
      } else if p == gateway.dedicated {
        r := if baseUrl.Some? then Some(ResolvedKey("", false, baseUrl)) else None;
      } else if gateway.creditsEnabled && p in gateway.defaultKeys {
        r := Some(ResolvedKey(gateway.defaultKeys[p], true, None));
      } else {
        r := None;
      }
    }

    /** The first loop: the providers answered from the cache and the ones that are missing. */
    method SplitCached(now: int, project: string, providers: seq<P>) returns (result: map<P, ResolvedKey>, missing: seq<P>)
      ensures forall p :: Found(result, p) == if p in providers then gateway.FromCache(cache, now, project, p) else None
      ensures forall p :: p in missing <==> p in providers && !gateway.Cached(cache, now, project, p)
    {
      result, missing := map[], [];
      for i := 0 to |providers|
        invariant forall p :: Found(result, p) == if p in providers[..i] then gateway.FromCache(cache, now, project, p) else None
        invariant forall p :: p in missing <==> p in providers[..i] && !gateway.Cached(cache, now, project, p)
      {
        var p := providers[i];
        assert providers[..i + 1] == providers[..i] + [p];
        var slot := gateway.Slot(project, p);
        if slot in cache && cache[slot].expiresAt > now {
          result := result[p := ResolvedKey(cache[slot].key, cache[slot].isPlatform, None)];
        } else {
          missing := missing + [p];
        }
      }
      assert providers[..|providers|] == providers;
    }

    ghost predicate IsRow(db: Settings, project: string, missing: set<P>, row: (string, string), p: P) {
      p in missing && row.0 == SettingKey(gateway.name(p)) && gateway.Stored(db, project, p) == Some(row.1)
    }

    /** The rows are those of the missing providers that have one. */
    ghost predicate RowsOf(db: Settings, project: string, missing: set<P>, rows: seq<(string, string)>) {
      && (forall i :: 0 <= i < |rows| ==> HasOwner(db, project, missing, rows[i]))
      && (forall p :: p in missing && gateway.Stored(db, project, p).Some? ==> HasRow(db, project, missing, rows, p))
    }

    ghost predicate HasOwner(db: Settings, project: string, missing: set<P>, row: (string, string)) {
      exists p :: IsRow(db, project, missing, row, p)
    }

    ghost predicate HasRow(db: Settings, project: string, missing: set<P>, rows: seq<(string, string)>, p: P) {
      exists i :: 0 <= i < |rows| && IsRow(db, project, missing, rows[i], p)
    }

    /** One row of the second loop. */
    method TakeRow(ghost db: Settings, ghost missing: set<P>, ghost q: P, row: (string, string), project: string,
                   expiresAt: int, found: map<P, ResolvedKey>)
      returns (result: map<P, ResolvedKey>)
      requires Valid() && IsRow(db, project, missing, row, q)
      modifies this`cache
      ensures Valid()
      ensures var own := gateway.OwnKey(db, project, q);
        if own.None? then cache == old(cache) && result == found
        else cache == old(cache)[gateway.Slot(project, q) := CachedKey(own.value, false, expiresAt)]
             && result == found[q := ResolvedKey(own.value, false, None)]
    {
      result := found;
      var (setting, value) := row;
      SettingNamesProvider(gateway.name(q));
      var name := ProviderName(setting);
      if name.Some? {
        var p := gateway.parse(name.value);
        if p.Some? {
          var decrypted := gateway.decrypt(value);
          if decrypted.Some? {
            cache := cache[gateway.Slot(project, p.value) := CachedKey(decrypted.value, false, expiresAt)];
            result := result[p.value := ResolvedKey(decrypted.value, false, None)];
          }
        }
      }
    }

    /** The second loop: every row is decrypted, cached and added to the result. */
    method TakeRows(ghost db: Settings, ghost missing: set<P>, rows: seq<(string, string)>, project: string,
                    expiresAt: int, found: map<P, ResolvedKey>)
      returns (result: map<P, ResolvedKey>)
      requires Valid() && RowsOf(db, project, missing, rows)
      modifies this`cache
      ensures Valid()
      ensures gateway.CacheWith(old(cache), db, expiresAt, project, missing, cache)
      ensures gateway.ResultsWith(found, db, project, missing, result)
    {
      result := found;
      ghost var seen: set<P> := {};
      for i := 0 to |rows|
        invariant Valid()
        invariant seen <= missing
        invariant forall j, p :: 0 <= j < i && IsRow(db, project, missing, rows[j], p) ==> p in seen
        invariant gateway.CacheWith(old(cache), db, expiresAt, project, seen, cache)
        invariant gateway.ResultsWith(found, db, project, seen, result)
      {
        assert HasOwner(db, project, missing, rows[i]);
        ghost var q :| IsRow(db, project, missing, rows[i], q);
        SameSetting(rows[i].0, q);
        gateway.CacheOneMore(old(cache), db, expiresAt, project, seen, cache, q);
        gateway.ResultOneMore(found, db, project, seen, result, q);
        result := TakeRow(db, missing, q, rows[i], project, expiresAt, result);
        seen := seen + {q};
      }
      forall p | p in missing && gateway.OwnKey(db, project, p).Some?
        ensures p in seen
      {
        assert HasRow(db, project, missing, rows, p);
      }
      gateway.AllTaken(old(cache), db, expiresAt, project, seen, missing, cache, found, result);
    }

    function WithDefault(missing: seq<P>, found: map<P, ResolvedKey>, p: P): Option<ResolvedKey> {
      if p in missing && p !in found then gateway.PlatformKey(p) else Found(found, p)
    }

    /** The last loop: platform keys for the providers still without one. */
    method AddDefaults(missing: seq<P>, found: map<P, ResolvedKey>) returns (result: map<P, ResolvedKey>)
      ensures forall p :: Found(result, p) == WithDefault(missing, found, p)
    {
      result := found;
      if gateway.creditsEnabled {
        for i := 0 to |missing|
          invariant forall p :: Found(result, p) == WithDefault(missing[..i], found, p)
        {
          var p := missing[i];
          assert missing[..i + 1] == missing[..i] + [p];
          ghost var before := result;
          if p !in result && p in gateway.defaultKeys {
            result := result[p := ResolvedKey(gateway.defaultKeys[p], true, None)];
          }
          forall q
            ensures Found(result, q) == WithDefault(missing[..i + 1], found, q)
          {
            assert Found(before, q) == WithDefault(missing[..i], found, q);
            assert Found(before, p) == WithDefault(missing[..i], found, p);
          }
        }
        assert missing[..|missing|] == missing;
      }
    }

    /** `fetch` is the batch query, `up` whether it gets an answer; None is the error. */
    method GetKeysBatch(ghost db: Settings, fetch: seq<string> -> seq<(string, string)>, up: bool, now: int, later: int,
                        project: string, providers: seq<P>)
      returns (r: Option<map<P, ResolvedKey>>)
      requires Valid()
      requires forall keys :: Selects(db, project, keys, fetch(keys))
      modifies this`cache
      ensures Valid()
      ensures var missing := gateway.Missing(old(cache), now, project, Members(providers));
        if missing == {} then r.Some? && cache == old(cache)
        else if !up then r == None && cache == old(cache)
        else r.Some? && gateway.CacheWith(old(cache), db, later + TTL, project, missing, cache)
      ensures r.Some? ==> gateway.AllBatched(old(cache), db, now, project, providers, r.value)
      ensures r.Some? ==> forall p :: p in providers ==> gateway.BatchGives(old(cache), db, now, later, project, p, Found(r.value, p), cache)
    {
      if providers == [] {
        return Some(map[]);
      }
      var result, missing := SplitCached(now, project, providers);
      ghost var gone := gateway.Missing(cache, now, project, Members(providers));
      assert forall p :: p in gone <==> p in missing;
      if missing == [] {
        gateway.AllGive(cache, db, now, later, project, providers, result, cache);
        return Some(result);
      }
      assert missing[0] in gone;
      if !up {
        return None;
      }
      var keys := seq(|missing|, i requires 0 <= i < |missing| => SettingKey(gateway.name(missing[i])));
      var rows := fetch(keys);
      RowsOfMissing(db, project, missing, gone, keys, rows);
      var own := TakeRows(db, gone, rows, project, later + TTL, result);
      var all := AddDefaults(missing, own);
      Combined(old(cache), db, now, project, providers, missing, gone, result, own, all);
      r := Some(all);
      gateway.AllGive(old(cache), db, now, later, project, providers, all, cache);
    }

    /** What the three loops add up to. */
    lemma Combined(cache0: Cache, db: Settings, now: int, project: string, providers: seq<P>, missing: seq<P>, gone: set<P>,
                   cached: map<P, ResolvedKey>, own: map<P, ResolvedKey>, all: map<P, ResolvedKey>)
      requires forall p :: Found(cached, p) == if p in providers then gateway.FromCache(cache0, now, project, p) else None
      requires forall p :: p in missing <==> p in providers && !gateway.Cached(cache0, now, project, p)
      requires forall p :: p in gone <==> p in missing
      requires gateway.ResultsWith(cached, db, project, gone, own)
      requires forall p :: Found(all, p) == WithDefault(missing, own, p)
      ensures gateway.AllBatched(cache0, db, now, project, providers, all)
    {
      forall p
        ensures Found(all, p) == if p in providers then gateway.Batched(cache0, db, now, project, p) else None
      {
        assert Found(all, p) == WithDefault(missing, own, p);
        assert Found(own, p) == gateway.ResultWith(cached, db, project, gone, p);
        assert Found(cached, p) == if p in providers then gateway.FromCache(cache0, now, project, p) else None;
      }
    }

    lemma RowsOfMissing(db: Settings, project: string, missing: seq<P>, gone: set<P>, keys: seq<string>, rows: seq<(string, string)>)
      requires |keys| == |missing| && forall i :: 0 <= i < |keys| ==> keys[i] == SettingKey(gateway.name(missing[i]))
      requires Selects(db, project, keys, rows) && forall p :: p in gone <==> p in missing
      ensures RowsOf(db, project, gone, rows)
    {
      forall i | 0 <= i < |rows|
        ensures HasOwner(db, project, gone, rows[i])
      {
        var k :| 0 <= k < |keys| && keys[k] == rows[i].0;
        assert IsRow(db, project, gone, rows[i], missing[k]);
      }
      forall p | p in gone && gateway.Stored(db, project, p).Some?
        ensures HasRow(db, project, gone, rows, p)
      {
        var k :| 0 <= k < |missing| && missing[k] == p;
        assert keys[k] in keys;
        var i :| 0 <= i < |rows| && rows[i].0 == keys[k];
        assert IsRow(db, project, gone, rows[i], p);
      }
    }

    lemma SameSetting(setting: string, q: P)
      requires Valid() && setting == SettingKey(gateway.name(q))
      ensures forall p :: setting == SettingKey(gateway.name(p)) ==> p == q
    {
      forall p | setting == SettingKey(gateway.name(p))
        ensures p == q
      {
        SettingNamesProvider(gateway.name(p));
        SettingNamesProvider(gateway.name(q));
        assert gateway.parse(gateway.name(p)) == Some(p);
        assert gateway.parse(gateway.name(q)) == Some(q);
      }
    }
  }

  // ---------------------------------------------------------------- batch against single

  /** A lookup of `p` that both ways answer alike: nothing to say about a base URL, and no platform key standing
      in for a stored key that cannot be read. */
  predicate Plain<P(!new)>(g: Gateway<P>, cache: Cache, db: Settings, now: int, project: string, p: P) {
    var stored, url := g.Stored(db, project, p), g.BaseUrl(db, project, p);
    || g.Cached(cache, now, project, p)
    || (stored.Some? && g.decrypt(stored.value).Some? && (p == g.dedicated ==> url.None?))
    || (stored.Some? && g.decrypt(stored.value).None? && !(g.creditsEnabled && p in g.defaultKeys))
    || (stored.None? && (p == g.dedicated ==> url.None? && !(g.creditsEnabled && p in g.defaultKeys)))
  }

  lemma BatchAgreesWithSingle<P(!new)>(g: Gateway<P>, cache: Cache, db: Settings, now: int, project: string, p: P)
    ensures g.Single(cache, db, now, project, p) == g.Batched(cache, db, now, project, p) <==> Plain(g, cache, db, now, project, p)
  {
  }

  /** Single lookups of `providers` one after the other at one instant: `caches` are the caches between them. */
  ghost predicate InTurn<P(!new)>(g: Gateway<P>, db: Settings, now: int, project: string, providers: seq<P>, caches: seq<Cache>) {
    && |caches| == |providers| + 1
    && forall i :: 0 <= i < |providers| ==>
         g.CacheWith(caches[i], db, now + TTL, project, g.Missing(caches[i], now, project, {providers[i]}), caches[i + 1])
  }

  /** One batch leaves the cache that single lookups in turn leave. */
  lemma {:induction false} BatchCachesWhatSinglesCache<P(!new)>(
      g: Gateway<P>, db: Settings, now: int, project: string, providers: seq<P>, caches: seq<Cache>, n: nat)
    requires g.WellNamed() && InTurn(g, db, now, project, providers, caches) && n <= |providers|
    ensures g.CacheWith(caches[0], db, now + TTL, project, g.Missing(caches[0], now, project, Members(providers[..n])), caches[n])
  {
    if n > 0 {
      BatchCachesWhatSinglesCache(g, db, now, project, providers, caches, n - 1);
      var p := providers[n - 1];
      var before := Members(providers[..n - 1]);
      var after := Members(providers[..n]);
      assert providers[..n] == providers[..n - 1] + [p];
      assert after == before + {p};
      OneMoreInTurn(g, db, now, project, before, p, caches[0], caches[n - 1], caches[n]);
    }
  }

  lemma OneMoreInTurn<P(!new)>(g: Gateway<P>, db: Settings, now: int, project: string, before: set<P>, p: P, c0: Cache, c1: Cache, c2: Cache)
    requires g.WellNamed()
    requires g.CacheWith(c0, db, now + TTL, project, g.Missing(c0, now, project, before), c1)
    requires g.CacheWith(c1, db, now + TTL, project, g.Missing(c1, now, project, {p}), c2)
    ensures g.CacheWith(c0, db, now + TTL, project, g.Missing(c0, now, project, before + {p}), c2)
  {
    var m0, m1, m2 := g.Missing(c0, now, project, before), g.Missing(c1, now, project, {p}), g.Missing(c0, now, project, before + {p});
    var slotP := g.Slot(project, p);
    assert g.parse(slotP.1) == Some(p);
    assert Found(c1, slotP) == g.EntryWith(c0, db, now + TTL, project, m0, slotP);
    forall slot
      ensures Found(c2, slot) == g.EntryWith(c0, db, now + TTL, project, m2, slot)
    {
      assert Found(c1, slot) == g.EntryWith(c0, db, now + TTL, project, m0, slot);
      assert Found(c2, slot) == g.EntryWith(c1, db, now + TTL, project, m1, slot);
    }
  }

  /** And it gives what they give. A repeated provider is answered from the cache the second time. */
  lemma BatchAgreesWithSinglesInTurn<P(!new)>(
      g: Gateway<P>, db: Settings, now: int, project: string, providers: seq<P>, caches: seq<Cache>, n: nat)
    requires g.WellNamed() && InTurn(g, db, now, project, providers, caches) && n < |providers|
    ensures Plain(g, caches[0], db, now, project, providers[n]) ==>
      g.Single(caches[n], db, now, project, providers[n]) == g.Batched(caches[0], db, now, project, providers[n])
    ensures providers[n] !in providers[..n] && !Plain(g, caches[0], db, now, project, providers[n]) ==>
      g.Single(caches[n], db, now, project, providers[n]) != g.Batched(caches[0], db, now, project, providers[n])
  {
    var p := providers[n];
    var slot := g.Slot(project, p);
    BatchCachesWhatSinglesCache(g, db, now, project, providers, caches, n);
    var gone := g.Missing(caches[0], now, project, Members(providers[..n]));
    assert g.parse(slot.1) == Some(p);
    assert Found(caches[n], slot) == g.EntryWith(caches[0], db, now + TTL, project, gone, slot);
    BatchAgreesWithSingle(g, caches[0], db, now, project, p);
  }

  // ---------------------------------------------------------------- saving a key

  /** `encrypt` is undone by the gateway's decryption. */
  ghost predicate Undone<P(!new)>(g: Gateway<P>, encrypt: string -> string) { forall k :: g.decrypt(encrypt(k)) == Some(k) }

  /** The settings with a key saved for `p`, encrypted. */
  function Saved<P(!new)>(g: Gateway<P>, encrypt: string -> string, db: Settings, project: string, p: P, key: string): Settings {
    db[(project, "gateway_" + g.name(p) + "_api_key") := encrypt(key)]
  }

  /** A key saved for a provider is the key a lookup gives, as the project's own, and what it caches for 60 seconds. */
  method SaveThenGetKey<P(!new)>(store: KeyStore<P>, encrypt: string -> string, db: Settings, now: int, later: int,
                                 project: string, p: P, key: string)
    returns (r: Option<ResolvedKey>)
    requires store.Valid() && Undone(store.gateway, encrypt) && (project, store.gateway.name(p)) !in store.cache
    modifies store`cache
    ensures r.Some? && r.value.key == key && !r.value.isPlatform
    ensures store.cache == old(store.cache)[(project, store.gateway.name(p)) := CachedKey(key, false, later + 60)]
  {
    r := store.GetKey(Saved(store.gateway, encrypt, db, project, p, key), true, true, now, later, project, p);
  }

  /** And what a batch gives and caches, among whatever other providers. */
  method SaveThenGetBatch<P(!new)>(store: KeyStore<P>, encrypt: string -> string, ghost db: Settings,
                                   fetch: seq<string> -> seq<(string, string)>, now: int, later: int, project: string,
                                   providers: seq<P>, p: P, key: string)
    returns (r: Option<map<P, ResolvedKey>>)
    requires store.Valid() && Undone(store.gateway, encrypt) && (project, store.gateway.name(p)) !in store.cache
    requires forall keys :: Selects(Saved(store.gateway, encrypt, db, project, p, key), project, keys, fetch(keys))
    requires p in providers
    modifies store`cache
    ensures r.Some? && p in r.value && r.value[p] == ResolvedKey(key, false, None)
    ensures Found(store.cache, (project, store.gateway.name(p))) == Some(CachedKey(key, false, later + 60))
  {
    ghost var saved := Saved(store.gateway, encrypt, db, project, p, key);
    ghost var before := store.cache;
    r := store.GetKeysBatch(saved, fetch, true, now, later, project, providers);
    assert store.gateway.BatchGives(before, saved, now, later, project, p, Found(r.value, p), store.cache);
  }

  // ---------------------------------------------------------------- freshness over runs

  /** Own keys are cached for 60 seconds and the lack of one is not cached. */
  function TtlOf(own: Option<string>): nat { if own.Some? then TTL else 0 }

  function Policy(lag: nat): RT.Config<Option<string>> { RT.Config(TtlOf, lag) }

  /** However lookups, key changes and evictions interleave, an own key handed out was the stored one at some
      moment in the last 60 seconds plus the lag of a lookup. */
  lemma OwnKeyIsRecent(lag: nat, states: seq<RT.State<(string, string), Option<string>>>,
                       steps: seq<RT.Step<(string, string), Option<string>>>, n: nat, slot: (string, string), key: string)
    requires RT.Behaviour(Policy(lag), states, steps)
    requires n < |steps| && RT.Answer(states[n], steps[n]) == Some((slot, Some(key)))
    ensures exists j: nat :: j <= n && RT.WasAnswer(states, j, slot, Some(key)) && states[n].now - states[j].now <= 60 + lag
  {
    RT.AnswersAreRecent(Policy(lag), states, steps, n, slot, Some(key));
    var j: nat :| j <= n && RT.WasAnswer(states, j, slot, Some(key)) && states[n].now - TTL - lag <= states[j].now;
    assert states[n].now - states[j].now <= 60 + lag;
  }

  /** A cache without platform keys, as that run system sees it. */
  function View(cache: Cache): map<(string, string), RT.Cached<Option<string>>> {
    map slot | slot in cache :: RT.Cached(Some(cache[slot].key), cache[slot].expiresAt)
  }

  /** The database as it sees it. */
  function OwnKeys<P(!new)>(g: Gateway<P>, db: Settings): ((string, string)) -> Option<string> {
    (slot: (string, string)) => var p := g.parse(slot.1); if p.Some? then g.OwnKey(db, slot.0, p.value) else None
  }

  type State = RT.State<(string, string), Option<string>>
  type Step = RT.Step<(string, string), Option<string>>

  /** `cache` with the own keys of `ps` cached one after the other. */
  function WithOwn<P(!new)>(g: Gateway<P>, cache: Cache, db: Settings, expiresAt: int, project: string, ps: seq<P>): Cache
    decreases |ps|
  {
    if ps == [] then cache
    else
      var own := g.OwnKey(db, project, ps[0]);
      var cache' := if own.None? then cache else cache[g.Slot(project, ps[0]) := CachedKey(own.value, false, expiresAt)];
      WithOwn(g, cache', db, expiresAt, project, ps[1..])
  }

  lemma {:induction false} WithOwnIsCacheWith<P(!new)>(
      g: Gateway<P>, cache0: Cache, db: Settings, expiresAt: int, project: string, done: set<P>, cache: Cache, ps: seq<P>, all: set<P>)
    requires g.WellNamed() && g.CacheWith(cache0, db, expiresAt, project, done, cache)
    requires all == done + Members(ps)
    ensures g.CacheWith(cache0, db, expiresAt, project, all, WithOwn(g, cache, db, expiresAt, project, ps))
    decreases |ps|
  {
    if ps == [] {
      assert all == done;
    } else {
      g.CacheOneMore(cache0, db, expiresAt, project, done, cache, ps[0]);
      var own := g.OwnKey(db, project, ps[0]);
      var cache' := if own.None? then cache else cache[g.Slot(project, ps[0]) := CachedKey(own.value, false, expiresAt)];
      assert ps == [ps[0]] + ps[1..];
      assert all == done + {ps[0]} + Members(ps[1..]);
      WithOwnIsCacheWith(g, cache0, db, expiresAt, project, done + {ps[0]}, cache', ps[1..], all);
    }
  }

  lemma CacheWithIsUnique<P(!new)>(g: Gateway<P>, cache: Cache, db: Settings, expiresAt: int, project: string, ps: set<P>, c1: Cache, c2: Cache)
    requires g.CacheWith(cache, db, expiresAt, project, ps, c1) && g.CacheWith(cache, db, expiresAt, project, ps, c2)
    ensures c1 == c2
  {
    forall slot
      ensures Found(c1, slot) == Found(c2, slot)
    {
      assert Found(c1, slot) == g.EntryWith(cache, db, expiresAt, project, ps, slot);
    }
    assert forall slot :: slot in c1 ==> Found(c1, slot) == Found(c2, slot);
    assert forall slot :: slot in c2 ==> Found(c1, slot) == Found(c2, slot);
  }

  /** Flight `first + i` carries the own key of `ps[i]`. */
  ghost predicate Flying<P(!new)>(g: Gateway<P>, db: Settings, project: string, ps: seq<P>, s: State, first: nat, readAt: int) {
    forall i :: 0 <= i < |ps| ==> Carries(g, db, project, ps[i], s, first + i, readAt)
  }

  predicate Carries<P(!new)>(g: Gateway<P>, db: Settings, project: string, p: P, s: State, id: nat, readAt: int) {
    id in s.flights && s.flights[id] == RT.InFlight(g.Slot(project, p), g.OwnKey(db, project, p), readAt)
  }

  lemma {:induction false} ReadAll<P(!new)>(g: Gateway<P>, lag: nat, s: State, db: Settings, project: string, ps: seq<P>, first: nat)
    returns (steps: seq<Step>, t: State)
    requires g.WellNamed() && s.db == OwnKeys(g, db) && forall id :: id >= first ==> id !in s.flights
    ensures RT.Leads(Policy(lag), s, steps, t) && t.cache == s.cache && t.now == s.now && t.db == s.db
    ensures Flying(g, db, project, ps, t, first, s.now)
    ensures forall id :: id in t.flights <==> id in s.flights || first <= id < first + |ps|
    decreases |ps|
  {
    if ps == [] {
      steps, t := [], s;
    } else {
      var n := |ps| - 1;
      var slot := g.Slot(project, ps[n]);
      var before, u := ReadAll(g, lag, s, db, project, ps[..n], first);
      var step := RT.Read(first + n, slot);
      t := RT.Next(Policy(lag), u, step);
      steps := before + [step];
      assert g.parse(slot.1) == Some(ps[n]);
      assert RT.Leads(Policy(lag), u, [step], t);
      RT.LeadsOn(Policy(lag), s, before, u, [step], t);
      forall i | 0 <= i < |ps|
        ensures Carries(g, db, project, ps[i], t, first + i, s.now)
      {
        assert i < n ==> Carries(g, db, project, ps[..n][i], u, first + i, s.now);
      }
    }
  }

  lemma {:induction false} WriteAll<P(!new)>(
      g: Gateway<P>, lag: nat, s: State, cache: Cache, db: Settings, project: string, ps: seq<P>, first: nat, readAt: int)
    returns (steps: seq<Step>, t: State)
    requires s.cache == View(cache) && s.now <= readAt + lag && Flying(g, db, project, ps, s, first, readAt)
    ensures RT.Leads(Policy(lag), s, steps, t)
    ensures t.cache == View(WithOwn(g, cache, db, s.now + TTL, project, ps)) && t.now == s.now
    decreases |ps|
  {
    if ps == [] {
      steps, t := [], s;
    } else {
      var own := g.OwnKey(db, project, ps[0]);
      var cache' := if own.None? then cache else cache[g.Slot(project, ps[0]) := CachedKey(own.value, false, s.now + TTL)];
      assert Carries(g, db, project, ps[0], s, first + 0, readAt);
      var step := RT.Write(first);
      var u := RT.Next(Policy(lag), s, step);
      assert u.cache == View(cache');
      forall i | 0 <= i < |ps[1..]|
        ensures Carries(g, db, project, ps[1..][i], u, first + 1 + i, readAt)
      {
        assert Carries(g, db, project, ps[i + 1], s, first + (i + 1), readAt);
      }
      var rest, v := WriteAll(g, lag, u, cache', db, project, ps[1..], first + 1, readAt);
      steps, t := [step] + rest, v;
      assert steps[1..] == rest;
    }
  }

  lemma CacheWithIsWithOwn<P(!new)>(g: Gateway<P>, cache: Cache, db: Settings, expiresAt: int, project: string, ps: seq<P>, cache': Cache)
    requires g.WellNamed() && g.CacheWith(cache, db, expiresAt, project, Members(ps), cache')
    ensures cache' == WithOwn(g, cache, db, expiresAt, project, ps)
  {
    WithOwnIsCacheWith(g, cache, db, expiresAt, project, {}, cache, ps, Members(ps));
    CacheWithIsUnique(g, cache, db, expiresAt, project, Members(ps), cache', WithOwn(g, cache, db, expiresAt, project, ps));
  }

  lemma ReadAllThenWait<P(!new)>(g: Gateway<P>, lag: nat, s: State, db: Settings, project: string, ps: seq<P>, first: nat, elapsed: nat)
    returns (steps: seq<Step>, t: State)
    requires g.WellNamed() && s.db == OwnKeys(g, db) && forall id :: id >= first ==> id !in s.flights
    ensures RT.Leads(Policy(lag), s, steps, t) && t.cache == s.cache && t.now == s.now + elapsed
    ensures Flying(g, db, project, ps, t, first, s.now)
  {
    var asks, u := ReadAll(g, lag, s, db, project, ps, first);
    var tick: Step := RT.Tick(elapsed);
    t := RT.Next(Policy(lag), u, tick);
    assert RT.Leads(Policy(lag), u, [tick], t);
    RT.LeadsOn(Policy(lag), s, asks, u, [tick], t);
    steps := asks + [tick];
    forall i | 0 <= i < |ps|
      ensures Carries(g, db, project, ps[i], t, first + i, s.now)
    {
      assert Carries(g, db, project, ps[i], u, first + i, s.now);
    }
  }

  /** What a batch does to the cache is a run of that system: reads of the missing providers, time up to the
      second clock reading, and one write each. So its answers and its cache entries are recent too. */
  lemma BatchIsARun<P(!new)>(g: Gateway<P>, lag: nat, s: State, cache: Cache, db: Settings, elapsed: nat, project: string,
                             missing: seq<P>, cache': Cache, first: nat)
    returns (steps: seq<Step>, t: State)
    requires g.WellNamed() && s.db == OwnKeys(g, db) && s.cache == View(cache) && elapsed <= lag
    requires forall id :: id >= first ==> id !in s.flights
    requires g.CacheWith(cache, db, s.now + elapsed + TTL, project, Members(missing), cache')
    ensures RT.Leads(Policy(lag), s, steps, t) && t.cache == View(cache') && t.now == s.now + elapsed
  {
    var asks, u := ReadAllThenWait(g, lag, s, db, project, missing, first, elapsed);
    var writes, v := WriteAll(g, lag, u, cache, db, project, missing, first, s.now);
    RT.LeadsOn(Policy(lag), s, asks, u, writes, v);
    CacheWithIsWithOwn(g, cache, db, u.now + TTL, project, missing, cache');
    steps, t := asks + writes, v;
  }

  /** The gateway with its own provider names. */
  function Reiver(decrypt: string -> Option<string>, creditsEnabled: bool, defaultKeys: map<Providers.Provider, string>)
    : Gateway<Providers.Provider>
  {
    Gateway(Providers.AsStr, Providers.Parse, Providers.ThetaDedicated, decrypt, creditsEnabled, defaultKeys)
  }

  lemma ReiverIsWellNamed(decrypt: string -> Option<string>, creditsEnabled: bool, defaultKeys: map<Providers.Provider, string>)
    ensures Reiver(decrypt, creditsEnabled, defaultKeys).WellNamed()
  {
    forall p
      ensures Providers.Parse(Providers.AsStr(p)) == Some(p)
    {
      Providers.ParseAsStr(p, Providers.AsStr(p));
    }
    forall s | Providers.Parse(s).Some?
      ensures Providers.AsStr(Providers.Parse(s).value) == s
    {
      Providers.ParseAsStr(Providers.Parse(s).value, s);
    }
  }
}
