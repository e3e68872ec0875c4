/**
 Spans stay with their parents. The runs here deliver each span once, under a non-empty id, and
 evict nothing; "every stored span is in the group of its stored parent" is then decided by one
 condition on each arrival.
 */
module TraceGrouping {
  import opened Collections
  import opened Traces
  import opened TraceInvariant

  ghost predicate InGroup(spans: map<Key, seq<Span>>, sp: Span, k: Key) {
    k in spans && sp in spans[k]
  }

  ghost predicate Listed(s: State, sp: Span, k: Key) {
    InGroup(s.spans, sp, k)
  }

  /** Every stored span is in the group of its stored parent. */
  ghost predicate Grouped(s: State) {
    forall c, p, i, j :: Listed(s, c, i) && Listed(s, p, j) && c.parent != "" && c.parent == p.id ==> i == j
  }

  /** The groups that the arrival of `e` unites: the one it is put into and the one that waited for it. */
  ghost function United(s: State, e: Event): set<Key> {
    {Choose(s, e)} + if e.span.id in s.waiting then {s.waiting[e.span.id]} else {}
  }

  /** The span does not fit into its group any more; it is indexed but not stored. */
  ghost predicate Dropped(s: State, e: Event) {
    var k := Choose(s, e);
    k in s.spans && |s.spans[k]| >= MAX_SPANS_PER_TRACE
  }

  /** All stored children of the arriving span are in the groups its arrival unites. */
  ghost predicate ChildrenFound(s: State, e: Event) {
    forall c, i :: Listed(s, c, i) && c.parent == e.span.id ==> i in United(s, e)
  }

  // ----- what the dictionaries mean in such a run -----

  ghost predicate GroupOk(k: Key, spans: seq<Span>, seen: set<Id>, groupOf: map<Id, Key>) {
    && (forall sp :: sp in spans ==> sp.id != "" && sp.id in groupOf && groupOf[sp.id] == k)
    && (forall id :: id in seen ==> id in groupOf && groupOf[id] == k)
  }

  ghost predicate Indexed(s: State) {
    s.seen.Keys == s.spans.Keys && forall k :: k in s.spans ==> GroupOk(k, s.spans[k], s.seen[k], s.groupOf)
  }

  /** Only undelivered parents are waited for, by live groups. */
  ghost predicate Waits(s: State, delivered: set<Id>, pending: Id) {
    "" !in s.waiting
    && forall p :: p in s.waiting ==> (p !in delivered || p == pending) && s.waiting[p] in s.spans
  }

  ghost predicate OnWire(s: State, wire: set<Key>) {
    s.spans.Keys <= wire && s.groupOf.Values <= wire
  }

  /** `delivered` are the ids so far, `wire` the wire trace ids; `pending` was delivered just now. */
  ghost predicate Track(s: State, delivered: set<Id>, wire: set<Key>, pending: Id) {
    && Keyed(s) && Tidy(s) && Indexed(s) && Waits(s, delivered, pending) && OnWire(s, wire)
    && s.groupOf.Keys == delivered && "" !in delivered
  }

  lemma {:induction false} ListsSize(order: seq<Key>, keys: set<Key>)
    requires Lists(order, keys)
    ensures |order| == |keys|
    decreases |order|
  {
    if order == [] {
      assert keys == {};
    } else {
      var n := |order| - 1;
      assert forall k :: k in order <==> k == order[n] || k in order[..n];
      ListsSize(order[..n], keys - {order[n]});
    }
  }

  lemma {:induction false} NoEviction(s: State, delivered: set<Id>, wire: set<Key>, k: Key)
    requires Track(s, delivered, wire, "") && k in wire && |wire| <= s.max
    ensures !Evicts(s, k)
  {
    ListsSize(s.order, s.spans.Keys);
    if k !in s.spans {
      SubsetSize(s.spans.Keys + {k}, wire);
    }
  }

  lemma {:induction false} OpenTrack(s: State, delivered: set<Id>, wire: set<Key>, k: Key)
    requires Track(s, delivered, wire, "") && k in wire && !Evicts(s, k)
    ensures Track(Open(s, k), delivered, wire, "") && k in Open(s, k).spans
    ensures Open(s, k).spans == (if k in s.spans then s.spans else s.spans[k := []])
  {
    OpenKeyed(s, k);
    OpenTidy(s, k);
    var t := Open(s, k);
    assert Indexed(t) by {
      forall i | i in t.spans ensures GroupOk(i, t.spans[i], t.seen[i], t.groupOf) {
        if i in s.spans { assert GroupOk(i, s.spans[i], s.seen[i], s.groupOf); }
      }
    }
  }

  lemma {:induction false} RecordedGroupOk(s: State, k: Key, sp: Span, i: Key)
    requires Indexed(s) && k in s.spans && i in s.spans && sp.id != "" && sp.id !in s.groupOf
    ensures var groupOf := s.groupOf[sp.id := k];
            if i == k then GroupOk(k, s.spans[k], s.seen[k] + {sp.id}, groupOf)
                        && GroupOk(k, s.spans[k] + [sp], s.seen[k] + {sp.id}, groupOf)
            else GroupOk(i, s.spans[i], s.seen[i], groupOf)
  {
    assert GroupOk(i, s.spans[i], s.seen[i], s.groupOf);
  }

  lemma {:induction false} RecordIndexed(s: State, k: Key, sp: Span)
    requires Keyed(s) && Tidy(s) && Indexed(s) && k in s.spans
    requires sp.id != "" && sp.id !in s.groupOf
    ensures Keyed(Record(s, k, sp)) && Tidy(Record(s, k, sp)) && Indexed(Record(s, k, sp))
  {
    RecordKeyed(s, k, sp);
    RecordTidy(s, k, sp);
    var r := Record(s, k, sp);
    forall i | i in r.spans ensures GroupOk(i, r.spans[i], r.seen[i], r.groupOf) {
      RecordedGroupOk(s, k, sp, i);
    }
  }

  lemma {:induction false} RecordTidy(s: State, k: Key, sp: Span)
    requires Keyed(s) && Tidy(s) && Indexed(s) && k in s.spans
    requires sp.id != "" && sp.id !in s.groupOf
    ensures Tidy(Record(s, k, sp))
  {
    var r := Record(s, k, sp);
    assert GroupOk(k, s.spans[k], s.seen[k], s.groupOf);
    TidySnoc(s.spans[k], s.seen[k], sp);
    assert TidyGroup(r.spans[k], r.seen[k]);
  }

  lemma {:induction false} RecordTrack(s: State, delivered: set<Id>, wire: set<Key>, k: Key, sp: Span)
    requires Track(s, delivered, wire, "") && k in s.spans
    requires sp.id != "" && sp.id !in delivered
    ensures Track(Record(s, k, sp), delivered + {sp.id}, wire, sp.id)
  {
    RecordIndexed(s, k, sp);
    RecordWaits(s, delivered, wire, k, sp);
  }

  lemma {:induction false} RecordWaits(s: State, delivered: set<Id>, wire: set<Key>, k: Key, sp: Span)
    requires Waits(s, delivered, "") && OnWire(s, wire) && s.groupOf.Keys == delivered
    requires k in s.spans && k in s.seen && sp.id != ""
    ensures Waits(Record(s, k, sp), delivered + {sp.id}, sp.id) && OnWire(Record(s, k, sp), wire)
    ensures Record(s, k, sp).groupOf.Keys == delivered + {sp.id}
  {
    var r := Record(s, k, sp);
    assert r.spans.Keys == s.spans.Keys && r.groupOf.Keys == delivered + {sp.id};
  }

  // ----- merging -----

  /** Nothing is lost in a merge: the source spans are appended to the destination. */
  lemma {:induction false} AppendAll(dst: seq<Span>, seen: set<Id>, src: seq<Span>)
    requires forall sp :: sp in src ==> sp.id != "" && sp.id !in seen
    requires forall i, j :: 0 <= i < j < |src| ==> src[i].id != src[j].id
    ensures AppendUnseen(dst, seen, src) == (dst + src, seen + Ids(src))
    decreases src
  {
    if src == [] {
      assert dst + src == dst && seen + Ids(src) == seen;
    } else {
      var sp, rest := src[0], src[1..];
      assert src == [sp] + rest && sp in src;
      forall x | x in rest ensures x.id != "" && x.id !in seen + {sp.id} {
        var j :| 0 <= j < |rest| && rest[j] == x;
        assert src[j + 1] == x && x in src;
      }
      AppendAll(dst + [sp], seen + {sp.id}, rest);
      AppendOne(dst, seen, sp, rest);
    }
  }

  lemma {:induction false} AppendOne(dst: seq<Span>, seen: set<Id>, sp: Span, rest: seq<Span>)
    ensures dst + [sp] + rest == dst + ([sp] + rest)
    ensures seen + {sp.id} + Ids(rest) == seen + Ids([sp] + rest)
  {
    assert Ids([sp] + rest) == {sp.id} + Ids(rest);
  }

  lemma {:induction false} MergeSpansOf(s: State, src: Key, dst: Key)
    requires Keyed(s) && Tidy(s) && Indexed(s)
    requires src in s.spans && dst in s.spans && src != dst
    ensures Merge(s, src, dst).spans == (s.spans - {src})[dst := s.spans[dst] + s.spans[src]]
    ensures Merge(s, src, dst).seen == (s.seen - {src})[dst := s.seen[dst] + Ids(s.spans[src])]
  {
    assert GroupOk(src, s.spans[src], s.seen[src], s.groupOf);
    assert GroupOk(dst, s.spans[dst], s.seen[dst], s.groupOf);
    assert TidyGroup(s.spans[src], s.seen[src]);
    AppendAll(s.spans[dst], s.seen[dst], s.spans[src]);
  }

  lemma {:induction false} MergedGroupOk(s: State, src: Key, dst: Key, i: Key)
    requires Indexed(s) && src in s.spans && dst in s.spans && src != dst && i in s.spans && i != src
    ensures var moved, all := Ids(s.spans[src]) + s.seen[src], s.spans[dst] + s.spans[src];
            var groupOf := Assign(s.groupOf, moved, dst);
            if i == dst then GroupOk(i, all, s.seen[dst] + Ids(s.spans[src]), groupOf)
            else GroupOk(i, s.spans[i], s.seen[i], groupOf)
  {
    assert GroupOk(src, s.spans[src], s.seen[src], s.groupOf);
    assert GroupOk(i, s.spans[i], s.seen[i], s.groupOf);
  }

  lemma {:induction false} MergeIndexed(s: State, src: Key, dst: Key)
    requires Keyed(s) && Tidy(s) && Indexed(s)
    requires src in s.spans && dst in s.spans && src != dst
    ensures Indexed(Merge(s, src, dst))
  {
    MergeSpansOf(s, src, dst);
    var m := Merge(s, src, dst);
    assert m.groupOf == Assign(s.groupOf, Ids(s.spans[src]) + s.seen[src], dst);
    assert m.spans.Keys == s.spans.Keys - {src} == m.seen.Keys;
    forall i | i in m.spans ensures GroupOk(i, m.spans[i], m.seen[i], m.groupOf) {
      MergedGroupOk(s, src, dst, i);
    }
  }

  lemma {:induction false} MergeTrack(s: State, delivered: set<Id>, wire: set<Key>, src: Key, dst: Key)
    requires Track(s, delivered, wire, "")
    requires src in s.spans && dst in s.spans && src != dst
    ensures Track(Merge(s, src, dst), delivered, wire, "")
  {
    MergeKeyed(s, src, dst);
    MergeTidy(s, src, dst);
    MergeIndexed(s, src, dst);
    MergeWaits(s, delivered, src, dst);
    var m := Merge(s, src, dst);
    var moved := Ids(s.spans[src]) + s.seen[src];
    assert m.groupOf == Assign(s.groupOf, moved, dst);
    assert m.groupOf.Keys == delivered by {
      assert GroupOk(src, s.spans[src], s.seen[src], s.groupOf);
    }
  }

  lemma {:induction false} MergeWaits(s: State, delivered: set<Id>, src: Key, dst: Key)
    requires s.seen.Keys == s.spans.Keys && Waits(s, delivered, "")
    requires src in s.spans && dst in s.spans && src != dst
    ensures Waits(Merge(s, src, dst), delivered, "")
    ensures Merge(s, src, dst).spans.Keys == s.spans.Keys - {src}
    ensures Merge(s, src, dst).groupOf.Values <= s.groupOf.Values + {dst}
  {
    var m := Merge(s, src, dst);
    assert m.waiting == Redirect(s.waiting, src, dst);
    assert m.spans.Keys == s.spans.Keys - {src};
    assert m.groupOf == Assign(s.groupOf, Ids(s.spans[src]) + s.seen[src], dst);
  }

  // ----- one arrival -----

  /** Where the spans of group `i` are after the arrival of `e`. */
  ghost function Moved(s: State, e: Event, i: Key): Key {
    if i in United(s, e) then Choose(s, e) else i
  }

  /** A parent that has arrived is waited for no longer. */
  lemma {:induction false} Unwait(s: State, delivered: set<Id>, wire: set<Key>, pending: Id, id: Id)
    requires Track(s, delivered, wire, pending) && (pending == "" || pending == id)
    ensures Track(s.(waiting := s.waiting - {id}), delivered, wire, "")
  {
    var t := s.(waiting := s.waiting - {id});
    assert Keyed(t) && Tidy(t) && Indexed(t);
    assert Waits(t, delivered, "") && OnWire(t, wire);
  }

  lemma {:induction false} TakeTrack(s: State, delivered: set<Id>, wire: set<Key>, e: Event)
    requires Track(s, delivered, wire, "")
    ensures Track(Take(s, e), delivered, wire, "")
    ensures Take(s, e).spans == s.spans && Take(s, e).groupOf == s.groupOf
  {
    if ByChild(s, e.span) { Unwait(s, delivered, wire, "", e.span.id); }
  }

  lemma {:induction false} ChooseOnWire(s: State, delivered: set<Id>, wire: set<Key>, e: Event)
    requires Track(s, delivered, wire, "") && e.traceId in wire
    ensures Choose(s, e) in wire
  {
    if ByParent(s, e.span) {
      assert s.groupOf[e.span.parent] in s.groupOf.Values;
    }
  }

  /** The groups after the span is recorded, before any merge. */
  ghost function Stored(spans: map<Key, seq<Span>>, k: Key, sp: Span): map<Key, seq<Span>> {
    var group := if k in spans then spans[k] else [];
    spans[k := if |group| < MAX_SPANS_PER_TRACE then group + [sp] else group]
  }

  lemma {:induction false} RecordFresh(t: State, delivered: set<Id>, wire: set<Key>, k: Key, sp: Span)
      returns (r: State)
    requires Track(t, delivered, wire, "") && k in wire && !Evicts(t, k)
    requires sp.id != "" && sp.id !in delivered
    ensures Keyed(Open(t, k)) && k in Open(t, k).spans && k in r.spans && r.seen.Keys == r.spans.Keys
    ensures r == Record(Open(t, k), k, sp) && sp.id !in Open(t, k).seen[k]
    ensures Track(r, delivered + {sp.id}, wire, sp.id) && r.max == t.max
    ensures r.spans == Stored(t.spans, k, sp)
    ensures sp.id in r.waiting <==> sp.id in t.waiting
    ensures sp.id in r.waiting ==> r.waiting[sp.id] == t.waiting[sp.id]
  {
    OpenTrack(t, delivered, wire, k);
    var o := Open(t, k);
    NotSeen(o, k, sp.id);
    RecordTrack(o, delivered, wire, k, sp);
    r := Record(o, k, sp);
    RecordFacts(t, o, k, sp);
  }

  lemma {:induction false} NotSeen(s: State, k: Key, id: Id)
    requires Indexed(s) && k in s.spans && id !in s.groupOf
    ensures id !in s.seen[k]
  {
    assert GroupOk(k, s.spans[k], s.seen[k], s.groupOf);
  }

  lemma {:induction false} RecordFacts(t: State, o: State, k: Key, sp: Span)
    requires o.waiting == t.waiting && o.max == t.max && k in o.spans && k in o.seen
    requires o.spans == (if k in t.spans then t.spans else t.spans[k := []])
    requires sp.id != ""
    ensures var r := Record(o, k, sp);
            && r.max == t.max
            && r.spans == Stored(t.spans, k, sp)
            && (sp.id in r.waiting <==> sp.id in t.waiting)
            && (sp.id in r.waiting ==> r.waiting[sp.id] == t.waiting[sp.id])
  {
  }

  /** The groups after group `src`, if any, is merged into `k`. */
  ghost function Fused(spans: map<Key, seq<Span>>, src: Key, k: Key): map<Key, seq<Span>>
    requires src in spans && k in spans
  {
    if src == k then spans else (spans - {src})[k := spans[k] + spans[src]]
  }

  lemma {:induction false} JoinTrack(r: State, delivered: set<Id>, wire: set<Key>, k: Key, id: Id)
    requires Track(r, delivered, wire, id) && k in r.spans && id in delivered
    ensures Track(Join(r, k, id), delivered, wire, "") && Join(r, k, id).max == r.max
    ensures id in r.waiting ==> Join(r, k, id).spans == Fused(r.spans, r.waiting[id], k)
    ensures id !in r.waiting ==> Join(r, k, id).spans == r.spans
  {
    if id in r.waiting {
      var src := r.waiting[id];
      var w := r.(waiting := r.waiting - {id});
      Unwait(r, delivered, wire, id, id);
      if src != k {
        MergeTrack(w, delivered, wire, src, k);
        MergeSpansOf(w, src, k);
      }
    }
  }

  lemma {:induction false} PlaceIsJoin(o: State, k: Key, sp: Span)
    requires Keyed(o) && k in o.spans && sp.id !in o.seen[k]
    ensures Record(o, k, sp).seen.Keys == Record(o, k, sp).spans.Keys && k in Record(o, k, sp).spans
    ensures Place(o, k, sp) == Join(Record(o, k, sp), k, sp.id)
  {
    RecordKeyed(o, k, sp);
  }

  ghost predicate AwaitedLive(s: State, e: Event) {
    e.span.id in s.waiting ==> s.waiting[e.span.id] in s.spans
  }

  /** The groups after an arrival. */
  ghost function After(s: State, e: Event): map<Key, seq<Span>>
    requires AwaitedLive(s, e)
  {
    var k, id := Choose(s, e), e.span.id;
    var stored := Stored(s.spans, k, e.span);
    if id in s.waiting then Fused(stored, s.waiting[id], k) else stored
  }

  /** A new span arrives, and nothing is evicted for it. */
  ghost predicate Arrives(s: State, delivered: set<Id>, wire: set<Key>, e: Event) {
    && Track(s, delivered, wire, "") && Choose(s, e) in wire && !Evicts(s, Choose(s, e))
    && e.span.id != "" && e.span.id !in delivered
  }

  lemma {:induction false} Arrival(s: State, delivered: set<Id>, wire: set<Key>, e: Event)
    requires Arrives(s, delivered, wire, e)
    ensures Track(Ingest(s, e), delivered + {e.span.id}, wire, "") && Ingest(s, e).max == s.max
    ensures AwaitedLive(s, e) && Ingest(s, e).spans == After(s, e)
  {
    var k, t, sp := Choose(s, e), Take(s, e), e.span;
    TakeTrack(s, delivered, wire, e);
    var r := RecordFresh(t, delivered, wire, k, sp);
    PlaceIsJoin(Open(t, k), k, sp);
    JoinTrack(r, delivered + {sp.id}, wire, k, sp.id);
    TakeWaiting(s, e);
  }

  lemma {:induction false} TakeWaiting(s: State, e: Event)
    requires e.span.id != ""
    ensures var id := e.span.id;
            id in s.waiting ==> if ByChild(s, e.span) then s.waiting[id] == Choose(s, e) && id !in Take(s, e).waiting
                                else id in Take(s, e).waiting && Take(s, e).waiting[id] == s.waiting[id]
    ensures e.span.id !in s.waiting ==> e.span.id !in Take(s, e).waiting
  {
  }

  // ----- the grouping theorem for one arrival -----

  lemma {:induction false} StoredHolds(spans: map<Key, seq<Span>>, k: Key, sp: Span, x: Span, i: Key)
    ensures InGroup(Stored(spans, k, sp), x, i)
      <==> InGroup(spans, x, i) || (x == sp && i == k && !(k in spans && |spans[k]| >= MAX_SPANS_PER_TRACE))
  {
  }

  lemma {:induction false} FusedHolds(spans: map<Key, seq<Span>>, src: Key, k: Key, x: Span, i: Key)
    requires src in spans && k in spans
    ensures InGroup(spans, x, i) ==> InGroup(Fused(spans, src, k), x, if i == src then k else i)
    ensures InGroup(Fused(spans, src, k), x, i) ==>
        (InGroup(spans, x, i) && (i == src ==> i == k)) || (i == k && InGroup(spans, x, src))
  {
  }

  ghost predicate ListedOrNew(s: State, e: Event, x: Span, i: Key) {
    Listed(s, x, i) || (x == e.span && i == Choose(s, e) && !Dropped(s, e))
  }

  /** A span stored before, or arriving, moves with its group. */
  lemma {:induction false} StaysListed(s: State, e: Event, x: Span, i: Key)
    requires AwaitedLive(s, e) && ListedOrNew(s, e, x, i)
    ensures InGroup(After(s, e), x, Moved(s, e, i))
  {
    var k, id := Choose(s, e), e.span.id;
    StoredHolds(s.spans, k, e.span, x, i);
    if id in s.waiting {
      FusedHolds(Stored(s.spans, k, e.span), s.waiting[id], k, x, i);
    }
  }

  /** A span stored afterwards is the new one, or was stored in a group that moved there. */
  lemma {:induction false} WasListed(s: State, e: Event, x: Span, j: Key) returns (i: Key)
    requires AwaitedLive(s, e) && InGroup(After(s, e), x, j)
    ensures ListedOrNew(s, e, x, i) && j == Moved(s, e, i)
  {
    var k, id := Choose(s, e), e.span.id;
    var stored := Stored(s.spans, k, e.span);
    i := j;
    if id in s.waiting {
      var src := s.waiting[id];
      FusedHolds(stored, src, k, x, j);
      if !InGroup(stored, x, j) || (j == src && j != k) { i := src; }
    }
    StoredHolds(s.spans, k, e.span, x, i);
  }

  lemma {:induction false} ListedIndexed(s: State, x: Span, i: Key)
    requires Indexed(s) && Listed(s, x, i)
    ensures x.id != "" && x.id in s.groupOf && s.groupOf[x.id] == i
  {
    assert GroupOk(i, s.spans[i], s.seen[i], s.groupOf);
  }

  /** Parent and child end up together. */
  lemma {:induction false} Together(s: State, e: Event, c: Span, i: Key, p: Span, j: Key)
    requires Indexed(s) && Grouped(s) && e.span.id != "" && e.span.id !in s.groupOf
    requires Dropped(s, e) || ChildrenFound(s, e)
    requires ListedOrNew(s, e, c, i) && ListedOrNew(s, e, p, j)
    requires c.parent != "" && c.parent == p.id
    ensures Moved(s, e, i) == Moved(s, e, j)
  {
    if Listed(s, p, j) {
      ListedIndexed(s, p, j);
      if !Listed(s, c, i) {
        assert ByParent(s, e.span) && Choose(s, e) == j;
      }
    } else {
      assert j == Choose(s, e) && p.id == e.span.id;
      if Listed(s, c, i) {
        assert i in United(s, e);
      }
    }
  }

  /**
   One arrival keeps spans with their parents exactly when all stored children of the new span are
   in the groups that its arrival unites, or the span is not stored at all.
   */
  lemma {:induction false} ArrivalGroupedIff(s: State, delivered: set<Id>, wire: set<Key>, e: Event)
    requires Arrives(s, delivered, wire, e)
    requires Grouped(s)
    ensures Grouped(Ingest(s, e)) <==> Dropped(s, e) || ChildrenFound(s, e)
  {
    Arrival(s, delivered, wire, e);
    if Dropped(s, e) || ChildrenFound(s, e) {
      ArrivalGrouped(s, e, Ingest(s, e));
    } else if Grouped(Ingest(s, e)) {
      ArrivalSplits(s, e, Ingest(s, e));
    }
  }

  lemma {:induction false} ArrivalGrouped(s: State, e: Event, t: State)
    requires Indexed(s) && Grouped(s) && e.span.id != "" && e.span.id !in s.groupOf
    requires AwaitedLive(s, e) && t.spans == After(s, e)
    requires Dropped(s, e) || ChildrenFound(s, e)
    ensures Grouped(t)
  {
    forall c, p, i, j | Listed(t, c, i) && Listed(t, p, j) && c.parent != "" && c.parent == p.id ensures i == j {
      var ci := WasListed(s, e, c, i);
      var pj := WasListed(s, e, p, j);
      Together(s, e, c, ci, p, pj);
    }
  }

  lemma {:induction false} ArrivalSplits(s: State, e: Event, t: State)
    requires AwaitedLive(s, e) && t.spans == After(s, e) && e.span.id != ""
    requires Grouped(t) && !Dropped(s, e)
    ensures ChildrenFound(s, e)
  {
    var k := Choose(s, e);
    StaysListed(s, e, e.span, k);
    forall c, i | Listed(s, c, i) && c.parent == e.span.id ensures i in United(s, e) {
      StaysListed(s, e, c, i);
      assert Listed(t, c, Moved(s, e, i)) && Listed(t, e.span, k);
    }
  }
}
