/**
 The in-memory session cache (crates/brightstaff/src/session_cache/memory.rs): time-to-live on top
 of a least-recently-used order, with a background sweep. The `lru` crate is modelled concretely,
 as the list of entries from most to least recently used.
 */
module SessionCache {
  import opened Wrappers
  import opened Collections

  type Key = string

  datatype CachedRoute = CachedRoute(modelName: string, routeName: Option<string>)

  datatype Entry = Entry(key: Key, route: CachedRoute, insertedAt: int, ttl: nat)

  /** `inserted_at.elapsed()`, which saturates at zero. */
  function Age(e: Entry, now: int): nat {
    if now < e.insertedAt then 0 else now - e.insertedAt
  }

  predicate Fresh(e: Entry, now: int) {
    Age(e, now) < e.ttl
  }

  // ----- the capacity -----

  const MAX_SESSION_ENTRIES: nat := 10_000

  /** `init_session_cache`, then `MemorySessionCache::new`. */
  function Capacity(configured: Option<nat>): (cap: nat)
    ensures 1 <= cap <= 10_000
    ensures configured.Some? && 1 <= configured.value <= 10_000 ==> cap == configured.value
  {
    var wanted := if configured.Some? then configured.value else MAX_SESSION_ENTRIES;
    var clamped := if wanted < MAX_SESSION_ENTRIES then wanted else MAX_SESSION_ENTRIES;
    if clamped == 0 then 10_000 else clamped
  }

  // ----- the recency list -----

  /** The position of `k`, or |es|. */
  function Index(es: seq<Entry>, k: Key): (i: nat)
    ensures i <= |es|
    ensures i < |es| ==> es[i].key == k
    ensures forall j :: 0 <= j < i ==> es[j].key != k
  {
    if es == [] || es[0].key == k then 0 else 1 + Index(es[1..], k)
  }

  predicate Has(es: seq<Entry>, k: Key) {
    Index(es, k) < |es|
  }

  /** The list without the entry for `k`. */
  function Pop(es: seq<Entry>, k: Key): seq<Entry> {
    var i := Index(es, k);
    if i < |es| then es[..i] + es[i + 1..] else es
  }

  function Lookup(es: seq<Entry>, k: Key): Entry
    requires Has(es, k)
  {
    es[Index(es, k)]
  }

  /** A lookup moves the entry to the front, fresh or not. */
  function Touch(es: seq<Entry>, k: Key): seq<Entry> {
    if Has(es, k) then [Lookup(es, k)] + Pop(es, k) else es
  }

  function Answer(es: seq<Entry>, k: Key, now: int): Option<CachedRoute> {
    if Has(es, k) && Fresh(Lookup(es, k), now) then Some(Lookup(es, k).route) else None
  }

  /** Insert or update at the front; a new key in a full list pushes the last entry out. */
  function Insert(es: seq<Entry>, cap: nat, e: Entry): seq<Entry> {
    if Has(es, e.key) then [e] + Pop(es, e.key)
    else if |es| >= cap && es != [] then [e] + es[..|es| - 1]
    else [e] + es
  }

  /** The entries that have not expired, in order. */
  function Swept(es: seq<Entry>, now: int): seq<Entry> {
    if es == [] then []
    else (if Fresh(es[0], now) then [es[0]] else []) + Swept(es[1..], now)
  }

  ghost predicate DistinctKeys(es: seq<Entry>) {
    forall i, j :: 0 <= i < j < |es| ==> es[i].key != es[j].key
  }

  datatype Event =
    | Get(key: Key, now: int)
    | Put(key: Key, route: CachedRoute, ttl: nat, now: int)
    | Remove(key: Key)
    | Sweep(now: int)

  function Step(es: seq<Entry>, cap: nat, ev: Event): seq<Entry> {
    match ev
    case Get(k, _) => Touch(es, k)
    case Put(k, route, ttl, now) => Insert(es, cap, Entry(k, route, now, ttl))
    case Remove(k) => Pop(es, k)
    case Sweep(now) => Swept(es, now)
  }

  function Run(es: seq<Entry>, cap: nat, evs: seq<Event>): seq<Entry>
    decreases |evs|
  {
    if evs == [] then es else Run(Step(es, cap, evs[0]), cap, evs[1..])
  }

  // ----- the cache -----

  class MemorySessionCache {
    const capacity: nat
    var store: seq<Entry>

    ghost predicate Valid()
      reads this
    {
      capacity >= 1 && |store| <= capacity && DistinctKeys(store)
    }

    constructor (maxEntries: nat)
      ensures Valid() && store == []
      ensures capacity == if maxEntries == 0 then 10_000 else maxEntries
    {
      capacity := if maxEntries == 0 then 10_000 else maxEntries;
      store := [];
    }

    method Get(key: Key, now: int) returns (route: Option<CachedRoute>)
      requires Valid()
      modifies this
      ensures Valid() && store == Step(old(store), capacity, Event.Get(key, now))
      ensures route == Answer(old(store), key, now)
      ensures forall e :: e in old(store) && e.key == key ==>
          route == if e.ttl > 0 && now < e.insertedAt + e.ttl then Some(e.route) else None
      ensures (forall e :: e in old(store) ==> e.key != key) ==> route == None
    {
      StepKeeps(store, capacity, Event.Get(key, now));
      route := None;
      var i := Index(store, key);
      if i < |store| {
        var e := store[i];
        store := [e] + (store[..i] + store[i + 1..]);
        if Age(e, now) < e.ttl {
          route := Some(e.route);
        }
      }
    }

    method Put(key: Key, route: CachedRoute, ttl: nat, now: int)
      requires Valid()
      modifies this
      ensures Valid() && store == Step(old(store), capacity, Event.Put(key, route, ttl, now))
    {
      StepKeeps(store, capacity, Event.Put(key, route, ttl, now));
      var e := Entry(key, route, now, ttl);
      var i := Index(store, key);
      if i < |store| {
        store := [e] + (store[..i] + store[i + 1..]);
      } else {
        if |store| == capacity {
          store := store[..|store| - 1];
        }
        store := [e] + store;
      }
    }

    method Remove(key: Key)
      requires Valid()
      modifies this
      ensures Valid() && store == Step(old(store), capacity, Event.Remove(key))
    {
      StepKeeps(store, capacity, Event.Remove(key));
      store := Pop(store, key);
    }

    /** The sweep: collect the expired keys, then remove each. */
    method EvictExpired(now: int)
      requires Valid()
      modifies this
      ensures Valid() && store == Step(old(store), capacity, Event.Sweep(now))
      ensures forall e :: e in store <==> e in old(store) && e.ttl > 0 && now < e.insertedAt + e.ttl
    {
      StepKeeps(store, capacity, Event.Sweep(now));
      SweptKeeps(store, now);
      var expired := ExpiredKeys(store, now);
      PopExpired(store, now);
      assert expired[0..] == expired;
      for i := 0 to |expired|
        invariant PopAll(store, expired[i..]) == Swept(old(store), now)
      {
        assert expired[i..][0] == expired[i] && expired[i..][1..] == expired[i + 1..];
        store := Pop(store, expired[i]);
      }
    }
  }

  /** The keys of the expired entries, in list order. */
  function ExpiredKeys(es: seq<Entry>, now: int): seq<Key> {
    if es == [] then []
    else (if Fresh(es[0], now) then [] else [es[0].key]) + ExpiredKeys(es[1..], now)
  }

  function PopAll(es: seq<Entry>, keys: seq<Key>): seq<Entry>
    decreases |keys|
  {
    if keys == [] then es else PopAll(Pop(es, keys[0]), keys[1..])
  }

  lemma {:induction false} ExpiredHere(es: seq<Entry>, now: int, k: Key)
    requires k in ExpiredKeys(es, now)
    ensures exists j :: 0 <= j < |es| && es[j].key == k
  {
    if k in ExpiredKeys(es[1..], now) {
      ExpiredHere(es[1..], now, k);
      var j :| 0 <= j < |es[1..]| && es[1..][j].key == k;
      assert es[j + 1].key == k;
    } else {
      assert es[0].key == k;
    }
  }

  lemma {:induction false} PopAllCons(e: Entry, rest: seq<Entry>, keys: seq<Key>)
    requires e.key !in keys
    ensures PopAll([e] + rest, keys) == [e] + PopAll(rest, keys)
    decreases |keys|
  {
    if keys != [] {
      assert keys[0] in keys && ([e] + rest)[1..] == rest;
      PopCons([e] + rest, keys[0]);
      PopAllCons(e, Pop(rest, keys[0]), keys[1..]);
    }
  }

  lemma {:induction false} ExpiredLater(es: seq<Entry>, now: int)
    requires DistinctKeys(es) && es != []
    ensures es[0].key !in ExpiredKeys(es[1..], now)
  {
    if es[0].key in ExpiredKeys(es[1..], now) {
      ExpiredHere(es[1..], now, es[0].key);
    }
  }

  lemma {:induction false} ExpiredCons(es: seq<Entry>, now: int)
    requires es != []
    ensures var keys, swept := ExpiredKeys(es[1..], now), Swept(es[1..], now);
            if Fresh(es[0], now) then ExpiredKeys(es, now) == keys && Swept(es, now) == [es[0]] + swept
            else ExpiredKeys(es, now) == [es[0].key] + keys && Swept(es, now) == swept
  {
  }

  lemma {:induction false} PopFirst(es: seq<Entry>, keys: seq<Key>)
    requires es != []
    ensures PopAll(es, [es[0].key] + keys) == PopAll(es[1..], keys)
  {
    PopCons(es, es[0].key);
    assert ([es[0].key] + keys)[1..] == keys;
  }

  /** Removing the expired keys one by one leaves what has not expired. */
  lemma {:induction false} PopExpired(es: seq<Entry>, now: int)
    requires DistinctKeys(es)
    ensures PopAll(es, ExpiredKeys(es, now)) == Swept(es, now)
  {
    if es != [] {
      var rest, keys := es[1..], ExpiredKeys(es[1..], now);
      PopExpired(rest, now);
      ExpiredCons(es, now);
      if Fresh(es[0], now) {
        ExpiredLater(es, now);
        PopAllCons(es[0], rest, keys);
        assert es == [es[0]] + rest;
      } else {
        PopFirst(es, keys);
      }
    }
  }

  // ----- list facts -----

  lemma {:induction false} IndexUnique(es: seq<Entry>, i: nat)
    requires DistinctKeys(es) && i < |es|
    ensures Index(es, es[i].key) == i
  {
  }

  lemma {:induction false} DropMembers(es: seq<Entry>, i: nat, e: Entry)
    requires DistinctKeys(es) && i < |es|
    ensures e in es[..i] + es[i + 1..] <==> e in es && e.key != es[i].key
  {
    var p := es[..i] + es[i + 1..];
    if e in es && e.key != es[i].key {
      var j :| 0 <= j < |es| && es[j] == e;
      assert p[if j < i then j else j - 1] == e;
    }
  }

  lemma {:induction false} DropDistinct(es: seq<Entry>, i: nat)
    requires DistinctKeys(es) && i < |es|
    ensures DistinctKeys(es[..i] + es[i + 1..])
  {
    var p := es[..i] + es[i + 1..];
    assert forall j :: 0 <= j < |p| ==> p[j] == es[if j < i then j else j + 1];
  }

  lemma {:induction false} PopKeeps(es: seq<Entry>, k: Key)
    requires DistinctKeys(es)
    ensures DistinctKeys(Pop(es, k)) && |Pop(es, k)| == if Has(es, k) then |es| - 1 else |es|
    ensures forall e :: e in Pop(es, k) <==> e in es && e.key != k
  {
    var i := Index(es, k);
    if i < |es| {
      DropDistinct(es, i);
      forall e ensures e in Pop(es, k) <==> e in es && e.key != k { DropMembers(es, i, e); }
    } else {
      forall e | e in es ensures e.key != k {
        var j :| 0 <= j < |es| && es[j] == e;
      }
    }
  }

  lemma {:induction false} SweptKeeps(es: seq<Entry>, now: int)
    requires DistinctKeys(es)
    ensures DistinctKeys(Swept(es, now)) && |Swept(es, now)| <= |es|
    ensures forall e :: e in Swept(es, now) <==> e in es && Fresh(e, now)
  {
    if es != [] {
      assert es == [es[0]] + es[1..];
      SweptKeeps(es[1..], now);
      forall e | e in Swept(es[1..], now) ensures e.key != es[0].key {
        var j :| 0 <= j < |es[1..]| && es[1..][j] == e;
      }
    }
  }

  lemma {:induction false} FrontKeeps(e: Entry, es: seq<Entry>)
    requires DistinctKeys(es) && forall f :: f in es ==> f.key != e.key
    ensures DistinctKeys([e] + es)
  {
  }

  lemma {:induction false} TouchKeeps(es: seq<Entry>, k: Key)
    requires DistinctKeys(es)
    ensures DistinctKeys(Touch(es, k)) && |Touch(es, k)| == |es|
  {
    PopKeeps(es, k);
    if Has(es, k) { FrontKeeps(Lookup(es, k), Pop(es, k)); }
  }

  lemma {:induction false} InsertKeeps(es: seq<Entry>, cap: nat, e: Entry)
    requires DistinctKeys(es) && |es| <= cap && cap >= 1
    ensures DistinctKeys(Insert(es, cap, e)) && |Insert(es, cap, e)| <= cap
  {
    PopKeeps(es, e.key);
    if Has(es, e.key) {
      FrontKeeps(e, Pop(es, e.key));
    } else {
      FrontKeeps(e, es);
      if es != [] { FrontKeeps(e, es[..|es| - 1]); }
    }
  }

  /** Distinct keys and the capacity are kept by every operation. */
  lemma {:induction false} StepKeeps(es: seq<Entry>, cap: nat, ev: Event)
    requires DistinctKeys(es) && |es| <= cap && cap >= 1
    ensures DistinctKeys(Step(es, cap, ev)) && |Step(es, cap, ev)| <= cap
  {
    match ev
    case Get(k, _) => TouchKeeps(es, k);
    case Put(k, route, ttl, now) => InsertKeeps(es, cap, Entry(k, route, now, ttl));
    case Remove(k) => PopKeeps(es, k);
    case Sweep(now) => SweptKeeps(es, now);
  }

  lemma {:induction false} PopCons(es: seq<Entry>, k: Key)
    requires es != []
    ensures Pop(es, k) == if es[0].key == k then es[1..] else [es[0]] + Pop(es[1..], k)
  {
    var i := Index(es, k);
    if i == 0 {
      assert es[..0] + es[1..] == es[1..];
    } else if i < |es| {
      DropCons(es, i);
    } else {
      assert es == [es[0]] + es[1..];
    }
  }

  /** Removing an expired entry does not change what the sweep leaves. */
  lemma {:induction false} SweptPop(es: seq<Entry>, k: Key, now: int)
    requires forall e :: e in es && e.key == k ==> !Fresh(e, now)
    ensures Swept(Pop(es, k), now) == Swept(es, now)
  {
    if es != [] {
      PopCons(es, k);
      if es[0].key == k {
        assert es[0] in es;
      } else {
        SweptPop(es[1..], k, now);
        assert ([es[0]] + Pop(es[1..], k))[1..] == Pop(es[1..], k);
      }
    }
  }
}
