/**
 Which entries of the session cache survive: the least-recently-used order pushes a key out exactly
 when as many other keys as the cache holds were touched after it, and the background sweep is
 invisible to lookups.
 */
module CacheRetention {
  import opened Wrappers
  import opened Collections
  import opened SessionCache
  import opened CacheRuns

  /** The key that an operation puts, or looks up while it is present. */
  function TouchedBy(es: seq<Entry>, ev: Event): set<Key> {
    match ev
    case Get(k, _) => if Has(es, k) then {k} else {}
    case Put(k, _, _, _) => {k}
    case _ => {}
  }

  /** The keys touched during a run. */
  function Touched(es: seq<Entry>, cap: nat, evs: seq<Event>): set<Key>
    decreases |evs|
  {
    if evs == [] then {} else TouchedBy(es, evs[0]) + Touched(Step(es, cap, evs[0]), cap, evs[1..])
  }

  /** No operation of the run is on `k`. */
  ghost predicate LeavesAlone(evs: seq<Event>, k: Key) {
    forall ev :: ev in evs && !ev.Sweep? ==> ev.key != k
  }

  // ----- one operation -----

  lemma {:induction false} PopAround(a: seq<Entry>, e: Entry, b: seq<Entry>, j: Key)
      returns (a': seq<Entry>, b': seq<Entry>)
    requires j != e.key && DistinctKeys(a + ([e] + b))
    ensures Pop(a + ([e] + b), j) == a' + ([e] + b') && Keys(a') == Keys(a) - {j}
  {
    var i := Index(a + ([e] + b), j);
    if i < |a| {
      a', b' := a[..i] + a[i + 1..], b;
      PopBefore(a, [e] + b, j);
    } else {
      a', b' := a, if i < |a| + 1 + |b| then b[..i - |a| - 1] + b[i - |a|..] else b;
      AllOthers(a, [e] + b, j);
      PopBehind(a, e, b, j);
    }
  }

  lemma {:induction false} PopBehind(a: seq<Entry>, e: Entry, b: seq<Entry>, j: Key)
    requires j != e.key && Index(a + ([e] + b), j) >= |a|
    ensures var i := Index(a + ([e] + b), j);
            i > |a| && Pop(a + ([e] + b), j) == a + ([e] + if i < |a| + 1 + |b| then b[..i - |a| - 1] + b[i - |a|..]
                else b)
  {
    var es := a + ([e] + b);
    var i := Index(es, j);
    assert es[|a|] == e;
    if i < |es| {
      assert es[..i] + es[i + 1..] == a + ([e] + (b[..i - |a| - 1] + b[i - |a|..]));
    }
  }

  lemma {:induction false} PopBefore(a: seq<Entry>, d: seq<Entry>, j: Key)
    requires DistinctKeys(a + d) && Index(a + d, j) < |a|
    ensures var i := Index(a + d, j); var a' := a[..i] + a[i + 1..];
            Pop(a + d, j) == a' + d && Keys(a') == Keys(a) - {j}
  {
    var es := a + d;
    var i := Index(es, j);
    assert es[i] == a[i];
    forall n | 0 <= n < |a| && n != i ensures a[n].key != a[i].key {
      assert a[n] == es[n];
    }
    KeysWithout(a, i);
    assert es[..i] + es[i + 1..] == (a[..i] + a[i + 1..]) + d;
  }

  lemma {:induction false} AllOthers(a: seq<Entry>, d: seq<Entry>, j: Key)
    requires Index(a + d, j) >= |a|
    ensures Keys(a) == Keys(a) - {j}
  {
    forall x | x in a ensures x.key != j {
      var n :| 0 <= n < |a| && a[n] == x;
      assert (a + d)[n] == x;
    }
  }

  lemma {:induction false} KeysWithout(a: seq<Entry>, i: nat)
    requires i < |a| && forall n :: 0 <= n < |a| && n != i ==> a[n].key != a[i].key
    ensures Keys(a[..i] + a[i + 1..]) == Keys(a) - {a[i].key}
  {
    var r := a[..i] + a[i + 1..];
    forall x | x in a && x.key != a[i].key ensures x in r {
      var n :| 0 <= n < |a| && a[n] == x;
      assert r[if n < i then n else n - 1] == x;
    }
    forall x | x in r ensures x in a && x.key != a[i].key {
      var n :| 0 <= n < |r| && r[n] == x;
      assert a[if n < i then n else n + 1] == x;
    }
  }

  lemma {:induction false} SweptConcat(a: seq<Entry>, b: seq<Entry>, now: int)
    ensures Swept(a + b, now) == Swept(a, now) + Swept(b, now)
  {
    if a == [] {
      assert a + b == b;
    } else {
      assert (a + b)[1..] == a[1..] + b;
      SweptConcat(a[1..], b, now);
    }
  }

  lemma {:induction false} FrontKeys(x: Entry, a: seq<Entry>)
    ensures Keys([x] + a) == {x.key} + Keys(a)
  {
  }

  /** The key is pushed out: the list is full, the key is last, and a new key is put. */
  ghost predicate PushesOut(es: seq<Entry>, cap: nat, ev: Event, b: seq<Entry>) {
    ev.Put? && !Has(es, ev.key) && |es| == cap && b == []
  }

  /** One operation on another key, seen from an entry that is still fresh. */
  lemma {:induction false} StepAround(a: seq<Entry>, e: Entry, b: seq<Entry>, cap: nat, ev: Event)
      returns (a': seq<Entry>, b': seq<Entry>)
    requires var es := a + ([e] + b); DistinctKeys(es) && |es| <= cap && !PushesOut(es, cap, ev, b)
    requires if ev.Sweep? then Fresh(e, ev.now) else ev.key != e.key
    ensures Step(a + ([e] + b), cap, ev) == a' + ([e] + b')
    ensures Keys(a') <= Keys(a) + TouchedBy(a + ([e] + b), ev)
    ensures ev.Get? || ev.Put? ==> Keys(a') == Keys(a) + TouchedBy(a + ([e] + b), ev)
  {
    var es := a + ([e] + b);
    a', b' := a, b;
    match ev
    case Sweep(now) => a', b' := SweepAround(a, e, b, now);
    case Remove(j) => a', b' := PopAround(a, e, b, j);
    case Get(j, _) => if Has(es, j) { a', b' := FrontAround(a, e, b, Lookup(es, j)); }
    case Put(j, route, ttl, now) =>
      var x := Entry(j, route, now, ttl);
      if Has(es, j) {
        a', b' := FrontAround(a, e, b, x);
      } else {
        a', b' := NewAround(a, e, b, cap, x);
      }
  }

  lemma {:induction false} SweepAround(a: seq<Entry>, e: Entry, b: seq<Entry>, now: int)
      returns (a': seq<Entry>, b': seq<Entry>)
    requires Fresh(e, now)
    ensures Swept(a + ([e] + b), now) == a' + ([e] + b') && Keys(a') <= Keys(a)
  {
    SweptConcat(a, [e] + b, now);
    assert ([e] + b)[1..] == b;
    a', b' := Swept(a, now), Swept(b, now);
    SweptSubset(a, now);
  }

  /** A present key moves to the front. */
  lemma {:induction false} FrontAround(a: seq<Entry>, e: Entry, b: seq<Entry>, x: Entry)
      returns (a': seq<Entry>, b': seq<Entry>)
    requires x.key != e.key && DistinctKeys(a + ([e] + b))
    ensures [x] + Pop(a + ([e] + b), x.key) == a' + ([e] + b') && Keys(a') == Keys(a) + {x.key}
  {
    a', b' := PopAround(a, e, b, x.key);
    FrontKeys(x, a');
    assert [x] + (a' + ([e] + b')) == ([x] + a') + ([e] + b');
    a' := [x] + a';
  }

  /** A new key at the front may push the last entry out, which is not `e`. */
  lemma {:induction false} NewAround(a: seq<Entry>, e: Entry, b: seq<Entry>, cap: nat, x: Entry)
      returns (a': seq<Entry>, b': seq<Entry>)
    requires var es := a + ([e] + b); !Has(es, x.key) && |es| <= cap && (|es| == cap ==> b != [])
    ensures Insert(a + ([e] + b), cap, x) == a' + ([e] + b') && Keys(a') == Keys(a) + {x.key}
  {
    var es := a + ([e] + b);
    b' := if |es| >= cap then b[..|b| - 1] else b;
    if |es| >= cap { assert es[..|es| - 1] == a + ([e] + b'); }
    FrontKeys(x, a);
    assert [x] + (a + ([e] + b')) == ([x] + a) + ([e] + b');
    a' := [x] + a;
  }

  lemma {:induction false} SweptSubset(es: seq<Entry>, now: int)
    ensures forall e :: e in Swept(es, now) ==> e in es
  {
    if es != [] {
      SweptSubset(es[1..], now);
      assert es == [es[0]] + es[1..];
    }
  }

  // ----- retention -----

  lemma {:induction false} PushOutTouches(a: seq<Entry>, e: Entry, cap: nat, ev: Event, touched: set<Key>)
    requires var es := a + ([e] + []); DistinctKeys(es) && PushesOut(es, cap, ev, [])
    requires TouchedBy(a + ([e] + []), ev) <= touched
    ensures |Keys(a) + touched| >= cap
  {
    var es := a + ([e] + []);
    assert DistinctKeys(a) by {
      forall i, j | 0 <= i < j < |a| ensures a[i].key != a[j].key { assert es[i] == a[i] && es[j] == a[j]; }
    }
    KeysSize(a);
    forall x | x in a ensures x.key != ev.key {
      assert x in es;
      HasEntry(es, x);
    }
    SubsetSize(Keys(a) + {ev.key}, Keys(a) + touched);
  }

  /** While fewer keys than the capacity are ahead of it or touched, a fresh entry stays. */
  lemma {:induction false} Retained(a: seq<Entry>, e: Entry, b: seq<Entry>, cap: nat, evs: seq<Event>)
    requires var es := a + ([e] + b); DistinctKeys(es) && |es| <= cap && cap >= 1
    requires forall ev :: ev in evs ==> if ev.Sweep? then Fresh(e, ev.now) else ev.key != e.key
    requires |Keys(a) + Touched(a + ([e] + b), cap, evs)| < cap
    ensures e in Run(a + ([e] + b), cap, evs)
    decreases |evs|
  {
    var es := a + ([e] + b);
    if evs == [] {
      assert es[|a|] == e;
    } else {
      var ev := evs[0];
      assert ev in evs;
      var touched := Touched(es, cap, evs);
      if PushesOut(es, cap, ev, b) {
        PushOutTouches(a, e, cap, ev, touched);
      }
      StepKeeps(es, cap, ev);
      var a', b' := StepAround(a, e, b, cap, ev);
      SubsetSize(Keys(a') + Touched(a' + ([e] + b'), cap, evs[1..]), Keys(a) + touched);
      assert forall x :: x in evs[1..] ==> x in evs;
      Retained(a', e, b', cap, evs[1..]);
    }
  }

  /** The operation puts `k`, or looks it up while it is present. */
  predicate Touches(es: seq<Entry>, ev: Event, k: Key) {
    (ev.Put? || ev.Get?) && ev.key == k && (ev.Get? ==> Has(es, k))
  }

  lemma {:induction false} TouchedFirst(es: seq<Entry>, cap: nat, ev: Event, k: Key)
    requires DistinctKeys(es) && |es| <= cap && cap >= 1 && Touches(es, ev, k)
    ensures var t := Step(es, cap, ev);
            && t != [] && t[0].key == k && t == [] + ([t[0]] + t[1..])
            && DistinctKeys(t) && |t| <= cap && Has(t, k) && Lookup(t, k) == t[0]
            && (ev.Put? ==> t[0] == Entry(k, ev.route, ev.now, ev.ttl))
            && (ev.Get? ==> t[0] == Lookup(es, k))
  {
    StepKeeps(es, cap, ev);
  }

  /**
   After any history, a key that was put or found keeps answering while it is fresh, not removed,
   and fewer other keys than the capacity were put or found since; sweeps may come at any time.
   */
  lemma {:induction false} LruRetention(cap: nat, before: seq<Event>, touch: Event, since: seq<Event>, k: Key, now: int)
    requires cap >= 1 && Touches(Run([], cap, before), touch, k)
    requires LeavesAlone(since, k) && SweepsBy(since, now)
    requires |Touched(Step(Run([], cap, before), cap, touch), cap, since)| < cap
    ensures var t := Step(Run([], cap, before), cap, touch);
            && t != [] && t[0].key == k
            && (Fresh(t[0], now) ==> Answer(Run(t, cap, since), k, now) == Some(t[0].route))
  {
    RunBacked([], map[], cap, before);
    var es := Run([], cap, before);
    TouchedFirst(es, cap, touch, k);
    var t := Step(es, cap, touch);
    if Fresh(t[0], now) {
      assert Keys([]) + Touched(t, cap, since) == Touched(t, cap, since);
      Retained([], t[0], t[1..], cap, since);
      RunDistinct(t, cap, since);
      HasEntry(Run(t, cap, since), t[0]);
    }
  }

  lemma {:induction false} RunDistinct(es: seq<Entry>, cap: nat, evs: seq<Event>)
    requires DistinctKeys(es) && |es| <= cap && cap >= 1
    ensures DistinctKeys(Run(es, cap, evs)) && |Run(es, cap, evs)| <= cap
    decreases |evs|
  {
    if evs != [] {
      StepKeeps(es, cap, evs[0]);
      RunDistinct(Step(es, cap, evs[0]), cap, evs[1..]);
    }
  }

  // ----- eviction is exact -----

  /** Only puts and lookups, of other keys. */
  ghost predicate OnlyTouches(evs: seq<Event>, k: Key) {
    forall ev :: ev in evs ==> (ev.Get? || ev.Put?) && ev.key != k
  }

  lemma {:induction false} StaysOut(es: seq<Entry>, cap: nat, evs: seq<Event>, k: Key)
    requires DistinctKeys(es) && |es| <= cap && cap >= 1
    requires OnlyTouches(evs, k) && forall e :: e in es ==> e.key != k
    ensures !Has(Run(es, cap, evs), k)
    decreases |evs|
  {
    if evs == [] {
      if Has(es, k) { LookupIn(es, k); }
    } else {
      assert evs[0] in evs;
      StepKeeps(es, cap, evs[0]);
      StepEntries(es, cap, evs[0]);
      assert forall x :: x in evs[1..] ==> x in evs;
      StaysOut(Step(es, cap, evs[0]), cap, evs[1..], k);
    }
  }

  /** A key that is still there has exactly the keys touched since ahead of it. */
  lemma {:induction false} AheadExactly(a: seq<Entry>, e: Entry, b: seq<Entry>, cap: nat, evs: seq<Event>)
    requires var es := a + ([e] + b); DistinctKeys(es) && |es| <= cap && cap >= 1
    requires OnlyTouches(evs, e.key)
    ensures Has(Run(a + ([e] + b), cap, evs), e.key)
      ==> |Keys(a) + Touched(a + ([e] + b), cap, evs)| < cap
    decreases |evs|
  {
    var es := a + ([e] + b);
    if evs == [] {
      assert Keys(a) + Touched(es, cap, evs) == Keys(a);
      forall i, j | 0 <= i < j < |a| ensures a[i].key != a[j].key { assert es[i] == a[i] && es[j] == a[j]; }
      KeysSize(a);
    } else {
      var ev := evs[0];
      assert ev in evs;
      assert forall x :: x in evs[1..] ==> x in evs;
      StepKeeps(es, cap, ev);
      if PushesOut(es, cap, ev, b) {
        PushedOut(a, e, cap, ev);
        StaysOut(Step(es, cap, ev), cap, evs[1..], e.key);
      } else {
        var a', b' := StepAround(a, e, b, cap, ev);
        AheadExactly(a', e, b', cap, evs[1..]);
        assert Keys(a) + Touched(es, cap, evs) == Keys(a') + Touched(Step(es, cap, ev), cap, evs[1..]);
      }
    }
  }

  lemma {:induction false} PushedOut(a: seq<Entry>, e: Entry, cap: nat, ev: Event)
    requires var es := a + ([e] + []); DistinctKeys(es) && PushesOut(es, cap, ev, [])
    requires ev.key != e.key
    ensures forall x :: x in Step(a + ([e] + []), cap, ev) ==> x.key != e.key
  {
    var es := a + ([e] + []);
    assert es[|a|] == e && es[..|es| - 1] == a;
    forall x | x in a ensures x.key != e.key {
      var n :| 0 <= n < |a| && a[n] == x;
      assert es[n] == x;
    }
  }

  /**
   With puts and lookups only, a touched key is still there iff fewer other keys than the capacity
   were touched since.
   */
  lemma {:induction false} LruEvictionIff(cap: nat, before: seq<Event>, touch: Event, since: seq<Event>, k: Key)
    requires cap >= 1 && Touches(Run([], cap, before), touch, k) && OnlyTouches(since, k)
    ensures var t := Step(Run([], cap, before), cap, touch);
            Has(Run(t, cap, since), k) <==> |Touched(t, cap, since)| < cap
  {
    RunBacked([], map[], cap, before);
    var es := Run([], cap, before);
    TouchedFirst(es, cap, touch, k);
    var t := Step(es, cap, touch);
    assert Keys([]) + Touched(t, cap, since) == Touched(t, cap, since);
    AheadExactly([], t[0], t[1..], cap, since);
    if |Touched(t, cap, since)| < cap {
      Retained([], t[0], t[1..], cap, since);
      RunDistinct(t, cap, since);
      HasEntry(Run(t, cap, since), t[0]);
    }
  }

  // ----- sweeps are invisible -----

  lemma {:induction false} SweptTwice(es: seq<Entry>, t: int, now: int)
    requires t <= now
    ensures Swept(Swept(es, t), now) == Swept(es, now) == Swept(Swept(es, now), t)
  {
    if es != [] {
      SweptTwice(es[1..], t, now);
      assert ([es[0]] + Swept(es[1..], t))[1..] == Swept(es[1..], t);
      assert ([es[0]] + Swept(es[1..], now))[1..] == Swept(es[1..], now);
      assert [] + Swept(es[1..], t) == Swept(es[1..], t) && [] + Swept(es[1..], now) == Swept(es[1..], now);
    }
  }

  /** Looking up a key in the swept list. */
  lemma {:induction false} SweptLookup(es: seq<Entry>, k: Key, t: int)
    requires DistinctKeys(es)
    ensures Has(Swept(es, t), k) <==> Has(es, k) && Fresh(Lookup(es, k), t)
    ensures Has(Swept(es, t), k) ==> Lookup(Swept(es, t), k) == Lookup(es, k)
  {
    SweptKeeps(es, t);
    if Has(es, k) {
      LookupIn(es, k);
      if Fresh(Lookup(es, k), t) {
        HasEntry(Swept(es, t), Lookup(es, k));
      }
    }
    if Has(Swept(es, t), k) {
      LookupIn(Swept(es, t), k);
      HasEntry(es, Lookup(Swept(es, t), k));
    }
  }

  lemma {:induction false} SweptCons(x: Entry, rest: seq<Entry>, t: int)
    ensures Swept([x] + rest, t) == (if Fresh(x, t) then [x] + Swept(rest, t) else Swept(rest, t))
  {
    assert ([x] + rest)[1..] == rest;
    assert [] + Swept(rest, t) == Swept(rest, t);
  }

  lemma {:induction false} SweptAbsent(es: seq<Entry>, k: Key, t: int)
    requires DistinctKeys(es) && es != [] && es[0].key == k
    ensures Pop(Swept(es[1..], t), k) == Swept(es[1..], t)
  {
    var s := Swept(es[1..], t);
    SweptKeeps(es[1..], t);
    if Has(s, k) {
      LookupIn(s, k);
    }
  }

  lemma {:induction false} PopSwept(es: seq<Entry>, k: Key, t: int)
    requires DistinctKeys(es)
    ensures Pop(Swept(es, t), k) == Swept(Pop(es, k), t)
  {
    if es != [] {
      var x, rest := es[0], es[1..];
      assert es == [x] + rest;
      SweptCons(x, rest, t);
      PopCons(es, k);
      if Fresh(x, t) {
        assert ([x] + Swept(rest, t))[1..] == Swept(rest, t);
        PopCons([x] + Swept(rest, t), k);
      }
      if x.key == k {
        SweptAbsent(es, k, t);
      } else {
        PopSwept(rest, k, t);
        SweptCons(x, Pop(rest, k), t);
      }
    }
  }

  /** A step commutes with an earlier sweep, unless it puts. */
  lemma {:induction false} StepSwept(es: seq<Entry>, cap: nat, ev: Event, t: int)
    requires DistinctKeys(es) && !ev.Put?
    requires ev.Sweep? ==> t <= ev.now
    ensures Step(Swept(es, t), cap, ev) == Swept(Step(es, cap, ev), t)
  {
    match ev
    case Sweep(now) => SweptTwice(es, t, now);
    case Remove(k) => PopSwept(es, k, t);
    case Get(k, _) =>
      SweptLookup(es, k, t);
      PopSwept(es, k, t);
      if Has(es, k) {
        var r := [Lookup(es, k)] + Pop(es, k);
        assert r[1..] == Pop(es, k);
        if !Fresh(Lookup(es, k), t) {
          assert [] + Swept(Pop(es, k), t) == Swept(Pop(es, k), t);
          forall e | e in es && e.key == k ensures !Fresh(e, t) { HasEntry(es, e); }
          SweptPop(es, k, t);
        }
      }
  }

  /** A sweep changes no answer at or after its time, until the next put. */
  lemma {:induction false} SweepInvisible(es: seq<Entry>, cap: nat, evs: seq<Event>, t: int, k: Key, now: int)
    requires DistinctKeys(es) && |es| <= cap && cap >= 1 && t <= now
    requires forall ev :: ev in evs ==> !ev.Put? && (ev.Sweep? ==> t <= ev.now)
    ensures Answer(Run(Swept(es, t), cap, evs), k, now) == Answer(Run(es, cap, evs), k, now)
    decreases |evs|
  {
    if evs == [] {
      SweptLookup(es, k, t);
    } else {
      assert evs[0] in evs;
      StepSwept(es, cap, evs[0], t);
      StepKeeps(es, cap, evs[0]);
      assert forall x :: x in evs[1..] ==> x in evs;
      SweepInvisible(Step(es, cap, evs[0]), cap, evs[1..], t, k, now);
    }
  }
}
