/**
 Whole runs of the session cache (crates/brightstaff/src/session_cache/memory.rs), against an
 unbounded timed map that keeps the latest put of every key until it is removed.
 */
module CacheRuns {
  import opened Wrappers
  import opened Collections
  import opened SessionCache

  // ----- the reference -----

  type Table = map<Key, Entry>

  function RefStep(m: Table, ev: Event): Table {
    match ev
    case Get(_, _) => m
    case Put(k, route, ttl, now) => m[k := Entry(k, route, now, ttl)]
    case Remove(k) => m - {k}
    case Sweep(_) => m
  }

  function RefRun(m: Table, evs: seq<Event>): Table
    decreases |evs|
  {
    if evs == [] then m else RefRun(RefStep(m, evs[0]), evs[1..])
  }

  function RefAnswer(m: Table, k: Key, now: int): Option<CachedRoute> {
    if k in m && Fresh(m[k], now) then Some(m[k].route) else None
  }

  // ----- membership facts -----

  lemma {:induction false} HasEntry(es: seq<Entry>, e: Entry)
    requires DistinctKeys(es) && e in es
    ensures Has(es, e.key) && Lookup(es, e.key) == e
  {
    var i :| 0 <= i < |es| && es[i] == e;
    IndexUnique(es, i);
  }

  lemma {:induction false} LookupIn(es: seq<Entry>, k: Key)
    requires Has(es, k)
    ensures Lookup(es, k) in es && Lookup(es, k).key == k
  {
  }

  /** The entries after an operation. */
  lemma {:induction false} StepEntries(es: seq<Entry>, cap: nat, ev: Event)
    requires DistinctKeys(es) && |es| <= cap && cap >= 1
    ensures forall e :: e in Step(es, cap, ev) ==>
      e in es || (ev.Put? && e == Entry(ev.key, ev.route, ev.now, ev.ttl))
    ensures ev.Put? ==> forall e :: e in Step(es, cap, ev) && e.key == ev.key ==>
        e == Entry(ev.key, ev.route, ev.now, ev.ttl)
    ensures ev.Remove? ==> forall e :: e in Step(es, cap, ev) ==> e.key != ev.key
  {
    match ev
    case Get(k, _) => PopKeeps(es, k);
    case Put(k, route, ttl, now) => PopKeeps(es, k);
    case Remove(k) => PopKeeps(es, k);
    case Sweep(now) => SweptKeeps(es, now);
  }

  // ----- soundness -----

  /** Every cached entry is the reference's. */
  ghost predicate Backed(es: seq<Entry>, m: Table) {
    forall e :: e in es ==> e.key in m && m[e.key] == e
  }

  lemma {:induction false} RunBacked(es: seq<Entry>, m: Table, cap: nat, evs: seq<Event>)
    requires DistinctKeys(es) && |es| <= cap && cap >= 1 && Backed(es, m)
    ensures DistinctKeys(Run(es, cap, evs)) && |Run(es, cap, evs)| <= cap
    ensures Backed(Run(es, cap, evs), RefRun(m, evs))
    decreases |evs|
  {
    if evs != [] {
      StepKeeps(es, cap, evs[0]);
      StepEntries(es, cap, evs[0]);
      RunBacked(Step(es, cap, evs[0]), RefStep(m, evs[0]), cap, evs[1..]);
    }
  }

  /** A hit is what the unbounded timed map returns, and the cache never outgrows its capacity. */
  lemma {:induction false} HitsAreSound(cap: nat, evs: seq<Event>, k: Key, now: int)
    requires cap >= 1
    ensures |Run([], cap, evs)| <= cap
    ensures Answer(Run([], cap, evs), k, now).Some?
      ==> Answer(Run([], cap, evs), k, now) == RefAnswer(RefRun(map[], evs), k, now)
  {
    RunBacked([], map[], cap, evs);
    var es := Run([], cap, evs);
    if Has(es, k) { LookupIn(es, k); }
  }

  // ----- enough room -----

  function PutKeys(evs: seq<Event>): set<Key> {
    set ev | ev in evs && ev.Put? :: ev.key
  }

  ghost predicate SweepsBy(evs: seq<Event>, now: int) {
    forall ev :: ev in evs && ev.Sweep? ==> ev.now <= now
  }

  /** The cache has every entry of the reference that is still fresh at `now`. */
  ghost predicate Complete(es: seq<Entry>, m: Table, now: int) {
    forall k :: k in m && Fresh(m[k], now) ==> m[k].key == k && m[k] in es
  }

  ghost function Keys(es: seq<Entry>): set<Key> {
    set e | e in es :: e.key
  }

  lemma {:induction false} KeysSize(es: seq<Entry>)
    requires DistinctKeys(es)
    ensures |Keys(es)| == |es|
  {
    if es != [] {
      var n := |es| - 1;
      KeysSize(es[..n]);
      assert es == es[..n] + [es[n]];
      assert Keys(es) == Keys(es[..n]) + {es[n].key};
    }
  }

  lemma {:induction false} NoPushOut(es: seq<Entry>, cap: nat, k: Key, keys: set<Key>)
    requires DistinctKeys(es) && Keys(es) <= keys && k in keys && |keys| <= cap && !Has(es, k)
    ensures |es| < cap
  {
    forall e | e in es ensures e.key != k { HasEntry(es, e); }
    KeysSize(es);
    SubsetSize(Keys(es) + {k}, keys);
  }

  lemma {:induction false} CompleteStep(es: seq<Entry>, m: Table, cap: nat, ev: Event, now: int)
    requires DistinctKeys(es) && |es| <= cap && cap >= 1 && Complete(es, m, now)
    requires ev.Sweep? ==> ev.now <= now
    requires ev.Put? && !Has(es, ev.key) ==> |es| < cap
    ensures Complete(Step(es, cap, ev), RefStep(m, ev), now)
  {
    var t, n := Step(es, cap, ev), RefStep(m, ev);
    forall k | k in n && Fresh(n[k], now) ensures n[k].key == k && n[k] in t {
      match ev
      case Get(j, _) => PopKeeps(es, j); if k == j { HasEntry(es, m[k]); }
      case Put(j, route, ttl, at) => PopKeeps(es, j);
      case Remove(j) => PopKeeps(es, j);
      case Sweep(at) => SweptKeeps(es, at);
    }
  }

  lemma {:induction false} RunComplete(es: seq<Entry>, m: Table, cap: nat, evs: seq<Event>, keys: set<Key>, now: int)
    requires DistinctKeys(es) && |es| <= cap && cap >= 1
    requires Complete(es, m, now) && SweepsBy(evs, now)
    requires Keys(es) + PutKeys(evs) <= keys && |keys| <= cap
    ensures Complete(Run(es, cap, evs), RefRun(m, evs), now)
    decreases |evs|
  {
    if evs != [] {
      var ev := evs[0];
      assert ev in evs;
      if ev.Put? && !Has(es, ev.key) {
        assert ev.key in PutKeys(evs);
        NoPushOut(es, cap, ev.key, keys);
      }
      StepKeeps(es, cap, ev);
      StepEntries(es, cap, ev);
      CompleteStep(es, m, cap, ev, now);
      assert PutKeys(evs[1..]) <= PutKeys(evs) by {
        forall x | x in evs[1..] ensures x in evs {}
      }
      assert ev.Put? ==> ev.key in PutKeys(evs);
      RunComplete(Step(es, cap, ev), RefStep(m, ev), cap, evs[1..], keys, now);
    }
  }

  /** With no more distinct keys than the capacity, the cache answers like the unbounded timed map. */
  lemma {:induction false} UnboundedWhenItFits(cap: nat, evs: seq<Event>, k: Key, now: int)
    requires cap >= 1 && |PutKeys(evs)| <= cap && SweepsBy(evs, now)
    ensures Answer(Run([], cap, evs), k, now) == RefAnswer(RefRun(map[], evs), k, now)
  {
    HitsAreSound(cap, evs, k, now);
    RunComplete([], map[], cap, evs, PutKeys(evs), now);
    RunBacked([], map[], cap, evs);
    var es, m := Run([], cap, evs), RefRun(map[], evs);
    if k in m && Fresh(m[k], now) {
      HasEntry(es, m[k]);
    }
  }
}
