/** Redis as the Rust code sees it: keys holding a value and an optional expiry, read against a clock.
    An entry whose expiry has been reached is absent for every command. */
module Redis {
  import opened Options

  datatype Entry<+V> = Entry(value: V, expiry: Option<int>)

  type Store<V> = map<string, Entry<V>>

  predicate Live<V>(store: Store<V>, now: int, key: string) {
    key in store && (store[key].expiry.Some? ==> now < store[key].expiry.value)
  }

  /** EXPIRE: restarts the lifetime of a live key and leaves every other key alone. */
  function Expired<V>(store: Store<V>, now: int, key: string, seconds: int): Store<V> {
    if Live(store, now, key)
    then store[key := Entry(store[key].value, Some(now + seconds))]
    else store
  }

  class Server<V(==)> {
    var store: Store<V>
    var now: int

    constructor (start: int)
      ensures store == map[] && now == start
    {
      store := map[];
      now := start;
    }

    method Get(key: string) returns (value: Option<V>)
      ensures value.Some? <==> Live(store, now, key)
      ensures value.Some? ==> value.value == store[key].value
    {
      if key in store {
        var entry := store[key];
        if entry.expiry.None? || now < entry.expiry.value {
          return Some(entry.value);
        }
      }
      value := None;
    }

    /** TTL: -2 for an absent key, -1 for a key without expiry, else the remaining seconds. */
    method Ttl(key: string) returns (ttl: int)
      ensures !Live(store, now, key) ==> ttl == -2
      ensures Live(store, now, key) && store[key].expiry.None? ==> ttl == -1
      ensures Live(store, now, key) && store[key].expiry.Some? ==> ttl == store[key].expiry.value - now > 0
    {
      var value := Get(key);
      ttl := if value.None? then -2
             else if store[key].expiry.None? then -1
             else store[key].expiry.value - now;
    }

    method Expire(key: string, seconds: int)
      requires seconds > 0
      modifies this`store
      ensures store == Expired(old(store), now, key, seconds)
    {
      var value := Get(key);
      if value.Some? {
        store := store[key := Entry(value.value, Some(now + seconds))];
      }
    }

    /** SET without options: replaces the value and forgets any expiry. */
    method Set(key: string, value: V)
      modifies this`store
      ensures store == old(store)[key := Entry(value, None)]
    {
      store := store[key := Entry(value, None)];
    }

    /** SET with EX. */
    method SetEx(key: string, value: V, seconds: int)
      requires seconds > 0
      modifies this`store
      ensures store == old(store)[key := Entry(value, Some(now + seconds))]
    {
      store := store[key := Entry(value, Some(now + seconds))];
    }

    method Del(key: string) returns (removed: int)
      modifies this`store
      ensures store == old(store) - {key}
      ensures removed == if Live(old(store), now, key) then 1 else 0
    {
      var value := Get(key);
      removed := if value.Some? then 1 else 0;
      store := store - {key};
    }

    method Sleep(elapsed: nat)
      modifies this`now
      ensures now == old(now) + elapsed
    {
      now := now + elapsed;
    }
  }
}
