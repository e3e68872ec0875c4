/**
 What every run of the trace store keeps, whatever is delivered: the number of groups is bounded,
 no group lists a named span twice, and the oldest group is the least recently touched one.
 */
module TraceInvariant {
  import opened Collections
  import opened Traces

  // ----- the number of groups -----

  ghost predicate Bounded(s: State) {
    |s.order| <= if s.max == 0 then 1 else s.max
  }

  lemma {:induction false} IngestBounded(s: State, e: Event)
    requires Keyed(s) && Bounded(s)
    ensures Bounded(Ingest(s, e)) && Ingest(s, e).max == s.max
  {
    var k := Choose(s, e);
    var t := Take(s, e);
    assert Keyed(t);
    OpenKeyed(t, k);
    if k in t.spans { WithoutLists(t.order, t.spans.Keys, k); }
    PlaceOrder(Open(t, k), k, e.span);
  }

  /** Placing a span removes at most the one group that waited for it. */
  lemma {:induction false} PlaceOrder(s: State, k: Key, sp: Span)
    requires Keyed(s) && k in s.spans
    ensures Place(s, k, sp).max == s.max
    ensures var o := Place(s, k, sp).order;
            o == s.order || exists other :: other in s.order && other != k && o == Without(s.order, other)
    ensures |Place(s, k, sp).order| <= |s.order|
  {
    RecordKeyed(s, k, sp);
    var r := Record(s, k, sp);
    if sp.id != "" && sp.id in r.waiting {
      var other := r.waiting[sp.id];
      if other != k && other in r.spans {
        WithoutLists(s.order, s.spans.Keys, other);
      }
    }
  }

  // ----- the spans of one group -----

  /** Named spans are listed once, and the group has seen them. */
  ghost predicate TidyGroup(spans: seq<Span>, seen: set<Id>) {
    && (forall i :: 0 <= i < |spans| && spans[i].id != "" ==> spans[i].id in seen)
    && (forall i, j :: 0 <= i < j < |spans| && spans[i].id != "" ==> spans[i].id != spans[j].id)
  }

  ghost predicate Tidy(s: State) {
    s.seen.Keys == s.spans.Keys && forall k :: k in s.spans ==> TidyGroup(s.spans[k], s.seen[k])
  }

  lemma {:induction false} TidySnoc(spans: seq<Span>, seen: set<Id>, sp: Span)
    requires TidyGroup(spans, seen) && (sp.id == "" || sp.id !in seen)
    ensures TidyGroup(spans + [sp], seen + {sp.id})
    ensures sp.id == "" ==> TidyGroup(spans + [sp], seen)
  {
  }

  lemma {:induction false} AppendUnseenTidy(dst: seq<Span>, seen: set<Id>, src: seq<Span>)
    requires TidyGroup(dst, seen)
    ensures TidyGroup(AppendUnseen(dst, seen, src).0, AppendUnseen(dst, seen, src).1)
    decreases src
  {
    if src != [] {
      var sp := src[0];
      if sp.id != "" && sp.id !in seen {
        TidySnoc(dst, seen, sp);
        AppendUnseenTidy(dst + [sp], seen + {sp.id}, src[1..]);
      } else {
        AppendUnseenTidy(dst, seen, src[1..]);
      }
    }
  }

  lemma {:induction false} OpenTidy(s: State, k: Key)
    requires Keyed(s) && Tidy(s)
    ensures Tidy(Open(s, k))
  {
    var t := if Evicts(s, k) then Evict(s) else s;
    assert Tidy(t);
  }

  lemma {:induction false} PlaceTidy(s: State, k: Key, sp: Span)
    requires Keyed(s) && Tidy(s) && k in s.spans
    ensures Tidy(Place(s, k, sp))
  {
    if sp.id == "" || sp.id !in s.seen[k] {
      RecordKeyed(s, k, sp);
      TidySnoc(s.spans[k], s.seen[k], sp);
      var r := Record(s, k, sp);
      assert TidyGroup(r.spans[k], r.seen[k]);
      assert Tidy(r);
      if sp.id != "" && sp.id in r.waiting {
        MergeTidy(r.(waiting := r.waiting - {sp.id}), r.waiting[sp.id], k);
      }
    }
  }

  lemma {:induction false} MergeTidy(s: State, src: Key, dst: Key)
    requires Keyed(s) && Tidy(s) && dst in s.spans
    ensures Tidy(Merge(s, src, dst))
  {
    if src != dst && src in s.spans {
      AppendUnseenTidy(s.spans[dst], s.seen[dst], s.spans[src]);
      var m := Merge(s, src, dst);
      assert m.spans.Keys == s.spans.Keys - {src} == m.seen.Keys;
      assert TidyGroup(m.spans[dst], m.seen[dst]);
    }
  }

  lemma {:induction false} IngestTidy(s: State, e: Event)
    requires Keyed(s) && Tidy(s)
    ensures Tidy(Ingest(s, e))
  {
    var k := Choose(s, e);
    var t := Take(s, e);
    assert Keyed(t) && Tidy(t);
    OpenKeyed(t, k);
    OpenTidy(t, k);
    PlaceTidy(Open(t, k), k, e.span);
  }

  // ----- recency -----

  /** The group each event of a run is put into. */
  ghost function Touched(s: State, es: seq<Event>): (hist: seq<Key>)
    requires Keyed(s)
    ensures |hist| == |es|
  {
    if es == [] then []
    else Touched(s, es[..|es| - 1]) + [Choose(Run(s, es[..|es| - 1]), es[|es| - 1])]
  }

  ghost predicate ByRecency(order: seq<Key>, hist: seq<Key>) {
    && (forall k :: k in order ==> 0 <= LastIndexOf(hist, k))
    && (forall i, j :: 0 <= i < j < |order| ==> LastIndexOf(hist, order[i]) < LastIndexOf(hist, order[j]))
  }

  lemma {:induction false} WithoutByRecency(order: seq<Key>, hist: seq<Key>, k: Key)
    requires ByRecency(order, hist) && k in order
    ensures ByRecency(Without(order, k), hist)
  {
    var i := WithoutSplit(order, k);
  }

  lemma {:induction false} TouchByRecency(order: seq<Key>, hist: seq<Key>, k: Key)
    requires ByRecency(order, hist) && k !in order
    ensures ByRecency(order + [k], hist + [k])
  {
    var h := hist + [k];
    assert h[..|h| - 1] == hist;
    forall x | x in order ensures LastIndexOf(h, x) == LastIndexOf(hist, x) {
      assert x != k;
    }
  }

  lemma {:induction false} OpenByRecency(s: State, k: Key, hist: seq<Key>)
    requires Keyed(s) && ByRecency(s.order, hist)
    ensures ByRecency(Open(s, k).order, hist + [k])
  {
    if k in s.spans {
      WithoutByRecency(s.order, hist, k);
      WithoutLists(s.order, s.spans.Keys, k);
      assert k !in Without(s.order, k);
      TouchByRecency(Without(s.order, k), hist, k);
    } else {
      var t := if Evicts(s, k) then Evict(s) else s;
      EvictKeyed(s);
      TouchByRecency(t.order, hist, k);
    }
  }

  lemma {:induction false} IngestByRecency(s: State, e: Event, hist: seq<Key>)
    requires Keyed(s) && ByRecency(s.order, hist)
    ensures ByRecency(Ingest(s, e).order, hist + [Choose(s, e)])
  {
    var k := Choose(s, e);
    var t := Take(s, e);
    assert Keyed(t);
    OpenByRecency(t, k, hist);
    OpenKeyed(t, k);
    PlaceOrder(Open(t, k), k, e.span);
    var o := Open(t, k).order;
    forall other | other in o ensures ByRecency(Without(o, other), hist + [k]) {
      WithoutByRecency(o, hist + [k], other);
    }
  }

  // ----- every run -----

  /** All of the above, after any sequence of deliveries to an empty store. */
  lemma {:induction false} RunInvariant(max: nat, es: seq<Event>)
    ensures var s := Run(Empty(max), es);
            && Keyed(s) && s.max == max && Bounded(s) && Tidy(s)
            && ByRecency(s.order, Touched(Empty(max), es))
    decreases |es|
  {
    if es != [] {
      var init, e := es[..|es| - 1], es[|es| - 1];
      RunInvariant(max, init);
      var s := Run(Empty(max), init);
      IngestKeyed(s, e);
      IngestBounded(s, e);
      IngestTidy(s, e);
      IngestByRecency(s, e, Touched(Empty(max), init));
    }
  }

  /** A delivery that needs room removes the group that was touched longest ago, and only that one. */
  lemma {:induction false} EvictsLeastRecent(max: nat, es: seq<Event>, e: Event)
    requires var s := Run(Empty(max), es); s.order != [] && Evicts(s, Choose(s, e))
    ensures var s, hist := Run(Empty(max), es), Touched(Empty(max), es);
            var victim := s.order[0];
            && (forall k :: k in s.spans && k != victim ==> LastIndexOf(hist, victim) < LastIndexOf(hist, k))
            && victim in s.spans && victim !in Ingest(s, e).spans
            && Open(Take(s, e), Choose(s, e)).spans.Keys == s.spans.Keys - {victim} + {Choose(s, e)}
  {
    RunInvariant(max, es);
    var s, hist := Run(Empty(max), es), Touched(Empty(max), es);
    var victim, k := s.order[0], Choose(s, e);
    forall x | x in s.spans && x != victim ensures LastIndexOf(hist, victim) < LastIndexOf(hist, x) {
      var j :| 0 <= j < |s.order| && s.order[j] == x;
    }
    EvictionStep(s, e);
  }

  lemma {:induction false} EvictionStep(s: State, e: Event)
    requires Keyed(s) && s.order != [] && Evicts(s, Choose(s, e))
    ensures s.order[0] in s.spans && s.order[0] !in Ingest(s, e).spans
    ensures Open(Take(s, e), Choose(s, e)).spans.Keys == s.spans.Keys - {s.order[0]} + {Choose(s, e)}
  {
    var t, k := Take(s, e), Choose(s, e);
    assert Keyed(t) && Evicts(t, k);
    OpenKeyed(t, k);
    EvictKeys(t);
    assert AddGroup(Evict(t), k).spans.Keys == Evict(t).spans.Keys + {k};
    PlaceKeys(Open(t, k), k, e.span);
  }

  lemma {:induction false} EvictKeys(s: State)
    requires Keyed(s) && s.order != []
    ensures Evict(s).spans.Keys == s.spans.Keys - {s.order[0]}
  {
  }

  lemma {:induction false} PlaceKeys(s: State, k: Key, sp: Span)
    requires Keyed(s) && k in s.spans
    ensures Place(s, k, sp).spans.Keys <= s.spans.Keys
  {
    RecordKeyed(s, k, sp);
    assert Record(s, k, sp).spans.Keys == s.spans.Keys;
  }
}
