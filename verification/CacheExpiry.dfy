/** When entries expire, in the clock readings of the calls (crates/brightstaff/src/session_cache/memory.rs). */
module CacheExpiry {
  import opened Wrappers
  import opened SessionCache
  import opened CacheRuns

  /** `evs[i]` is the last put of `k`. */
  ghost predicate LastPutAt(evs: seq<Event>, i: nat, k: Key) {
    && i < |evs| && evs[i].Put? && evs[i].key == k
    && forall j :: i < j < |evs| ==> !(evs[j].Put? && evs[j].key == k)
  }

  /** The entry has been there for less than its time to live. */
  lemma {:induction false} FreshIff(e: Entry, now: int)
    ensures Fresh(e, now) <==> e.ttl > 0 && now < e.insertedAt + e.ttl
  {
  }

  // ----- the reference, by its last put -----

  lemma {:induction false} RefSplit(m: Table, a: seq<Event>, b: seq<Event>)
    ensures RefRun(m, a + b) == RefRun(RefRun(m, a), b)
    decreases |a|
  {
    if a == [] {
      assert a + b == b;
    } else {
      assert (a + b)[1..] == a[1..] + b && (a + b)[0] == a[0];
      RefSplit(RefStep(m, a[0]), a[1..], b);
    }
  }

  lemma {:induction false} RefQuiet(m: Table, evs: seq<Event>, k: Key)
    requires forall j :: 0 <= j < |evs| ==> !(evs[j].Put? && evs[j].key == k)
    ensures k in RefRun(m, evs) ==> k in m && RefRun(m, evs)[k] == m[k]
    ensures k in m && (forall j :: 0 <= j < |evs| ==> !(evs[j].Remove? && evs[j].key == k)) ==> k in RefRun(m, evs)
    decreases |evs|
  {
    if evs != [] {
      RefQuiet(RefStep(m, evs[0]), evs[1..], k);
      assert forall j :: 0 <= j < |evs[1..]| ==> evs[1..][j] == evs[j + 1];
    }
  }

  /** The last put decides what the reference holds, unless the key was removed since. */
  lemma {:induction false} RefLast(evs: seq<Event>, i: nat, k: Key)
    requires LastPutAt(evs, i, k)
    ensures var m, p := RefRun(map[], evs), evs[i];
            && (k in m ==> m[k] == Entry(k, p.route, p.now, p.ttl))
            && ((forall j :: i < j < |evs| ==> !(evs[j].Remove? && evs[j].key == k)) ==> k in m)
  {
    var a, b := evs[..i + 1], evs[i + 1..];
    assert evs == a + b && a == evs[..i] + [evs[i]];
    RefSplit(map[], a, b);
    RefSplit(map[], evs[..i], [evs[i]]);
    var n := RefRun(map[], evs[..i]);
    assert [evs[i]][1..] == [] && RefRun(n, [evs[i]]) == RefStep(n, evs[i]);
    forall j | 0 <= j < |b| ensures b[j] == evs[i + 1 + j] {}
    RefQuiet(RefRun(map[], a), b, k);
  }

  // ----- expiry -----

  /** From the end of its time to live on a key misses, until it is put again. */
  lemma {:induction false} MissesWhenExpired(cap: nat, evs: seq<Event>, i: nat, k: Key, now: int)
    requires cap >= 1 && LastPutAt(evs, i, k) && now >= evs[i].now + evs[i].ttl
    ensures Answer(Run([], cap, evs), k, now) == None
  {
    HitsAreSound(cap, evs, k, now);
    RefLast(evs, i, k);
    if k in RefRun(map[], evs) { FreshIff(RefRun(map[], evs)[k], now); }
  }

  /** A sweep at such a time leaves no entry for it. */
  lemma {:induction false} SweptWhenExpired(cap: nat, evs: seq<Event>, i: nat, k: Key, now: int)
    requires cap >= 1 && LastPutAt(evs, i, k) && now >= evs[i].now + evs[i].ttl
    ensures forall e :: e in Step(Run([], cap, evs), cap, Sweep(now)) ==> e.key != k
  {
    var es := Run([], cap, evs);
    RunBacked([], map[], cap, evs);
    SweptKeeps(es, now);
    RefLast(evs, i, k);
    forall e | e in Swept(es, now) ensures e.key != k {
      if e.key == k { FreshIff(e, now); }
    }
  }

  /** A sweep leaves exactly the entries whose time to live has not passed. */
  lemma {:induction false} SweepIff(cap: nat, evs: seq<Event>, now: int)
    requires cap >= 1
    ensures forall e :: e in Step(Run([], cap, evs), cap, Sweep(now))
                   <==> e in Run([], cap, evs) && e.ttl > 0 && now < e.insertedAt + e.ttl
  {
    RunBacked([], map[], cap, evs);
    SweptKeeps(Run([], cap, evs), now);
    forall e ensures Fresh(e, now) <==> e.ttl > 0 && now < e.insertedAt + e.ttl { FreshIff(e, now); }
  }

  /**
   With no more distinct keys than the capacity: a key answers with the route of its last put, unless it
   was removed since, exactly as long as its time to live has not passed.
   */
  lemma {:induction false} AnswersUntilExpired(cap: nat, evs: seq<Event>, i: nat, k: Key, now: int)
    requires cap >= 1 && |PutKeys(evs)| <= cap && SweepsBy(evs, now) && LastPutAt(evs, i, k)
    requires forall j :: i < j < |evs| ==> !(evs[j].Remove? && evs[j].key == k)
    ensures Answer(Run([], cap, evs), k, now)
         == if evs[i].ttl > 0 && now < evs[i].now + evs[i].ttl then Some(evs[i].route) else None
  {
    UnboundedWhenItFits(cap, evs, k, now);
    RefLast(evs, i, k);
    FreshIff(RefRun(map[], evs)[k], now);
  }

  /** A hit gives the route of the last put, within its time to live. */
  lemma {:induction false} HitIsLastPut(cap: nat, evs: seq<Event>, i: nat, k: Key, now: int)
    requires cap >= 1 && LastPutAt(evs, i, k) && Answer(Run([], cap, evs), k, now).Some?
    ensures Answer(Run([], cap, evs), k, now) == Some(evs[i].route)
    ensures evs[i].ttl > 0 && now < evs[i].now + evs[i].ttl
  {
    HitsAreSound(cap, evs, k, now);
    RefLast(evs, i, k);
    FreshIff(RefRun(map[], evs)[k], now);
  }

  /** A key that was never put misses. */
  lemma {:induction false} NeverPutMisses(cap: nat, evs: seq<Event>, k: Key, now: int)
    requires cap >= 1 && forall j :: 0 <= j < |evs| ==> !(evs[j].Put? && evs[j].key == k)
    ensures Answer(Run([], cap, evs), k, now) == None
  {
    HitsAreSound(cap, evs, k, now);
    RefQuiet(map[], evs, k);
  }
}
