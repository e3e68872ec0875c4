/** The grouping property over whole runs of the trace store. */
module TraceRuns {
  import opened Traces
  import opened TraceInvariant
  import opened TraceGrouping

  ghost function WireIds(es: seq<Event>): set<Key> {
    set e | e in es :: e.traceId
  }

  /** The ids of the first `n` spans. */
  ghost function Delivered(es: seq<Event>, n: nat): set<Id>
    requires n <= |es|
  {
    if n == 0 then {} else Delivered(es, n - 1) + {es[n - 1].span.id}
  }

  /** Every span is delivered once, under a non-empty id. */
  ghost predicate OnceEach(es: seq<Event>) {
    && (forall e :: e in es ==> e.span.id != "")
    && (forall i, j :: 0 <= i < j < |es| ==> es[i].span.id != es[j].span.id)
  }

  // ----- runs -----

  /** The `n`th event takes the store from `ss[n]` to `ss[n + 1]`. */
  ghost predicate Steps(es: seq<Event>, ss: seq<State>, n: nat)
    requires n < |es| && n + 1 < |ss|
  {
    Keyed(ss[n]) && ss[n + 1] == Ingest(ss[n], es[n])
  }

  /** `ss[n]` is the store after the first `n` deliveries, from an empty store on. */
  ghost predicate History(es: seq<Event>, ss: seq<State>) {
    && |ss| == |es| + 1 && ss[0] == Empty(ss[0].max)
    && forall n: nat :: n < |es| ==> Steps(es, ss, n)
  }

  lemma {:induction false} RunNext(start: State, es: seq<Event>, n: nat, s: State)
    requires Keyed(start) && n < |es| && s == Run(start, es[..n])
    ensures Run(start, es[..n + 1]) == Ingest(s, es[n])
  {
    RunStep(start, es, n);
  }

  /** There is exactly one: the runs of the store. */
  lemma {:induction false} HistoryIsRun(es: seq<Event>, ss: seq<State>, n: nat)
    requires History(es, ss) && n <= |es|
    ensures ss[n] == Run(Empty(ss[0].max), es[..n])
  {
    if n == 0 {
      assert es[..0] == [];
    } else {
      HistoryIsRun(es, ss, n - 1);
      assert Steps(es, ss, n - 1);
      RunNext(Empty(ss[0].max), es, n - 1, ss[n - 1]);
    }
  }

  lemma {:induction false} HistoryExists(max: nat, es: seq<Event>) returns (ss: seq<State>)
    ensures History(es, ss) && ss[0].max == max && Keyed(ss[|es|])
  {
    if es == [] {
      ss := [Empty(max)];
    } else {
      var before := HistoryExists(max, es[..|es| - 1]);
      ss := HistoryMore(es, before);
    }
  }

  lemma {:induction false} HistoryMore(es: seq<Event>, before: seq<State>) returns (ss: seq<State>)
    requires es != [] && History(es[..|es| - 1], before) && Keyed(before[|es| - 1])
    ensures History(es, ss) && ss[0] == before[0] && Keyed(ss[|es|])
  {
    var n := |es| - 1;
    var t := Ingest(before[n], es[n]);
    IngestKeyed(before[n], es[n]);
    ss := before + [t];
    forall m: nat | m < |es| ensures Steps(es, ss, m) {
      StepKept(es, before, t, m);
    }
  }

  lemma {:induction false} StepKept(es: seq<Event>, before: seq<State>, t: State, m: nat)
    requires es != [] && m < |es| && |before| == |es| && Keyed(before[|es| - 1])
    requires m < |es| - 1 ==> Steps(es[..|es| - 1], before, m)
    requires t == Ingest(before[|es| - 1], es[|es| - 1])
    ensures Steps(es, before + [t], m)
  {
    var ss := before + [t];
    assert ss[m] == before[m];
    if m < |es| - 1 {
      assert ss[m + 1] == before[m + 1] && es[..|es| - 1][m] == es[m];
    }
  }

  /** The deliveries the grouping results are about: every span once, and nothing is evicted. */
  ghost predicate Deliveries(es: seq<Event>, ss: seq<State>) {
    && History(es, ss) && OnceEach(es)
    && forall n: nat :: n < |es| ==> Roomy(ss[n], es[n])
  }

  /** The arrival evicts nothing. */
  ghost predicate Roomy(s: State, e: Event) {
    !Evicts(s, Choose(s, e))
  }

  lemma {:induction false} DeliveredIs(es: seq<Event>, n: nat, id: Id)
    requires n <= |es|
    ensures id in Delivered(es, n) <==> exists m: nat :: m < n && es[m].span.id == id
  {
    if n > 0 { DeliveredIs(es, n - 1, id); }
  }

  lemma {:induction false} NewSpan(es: seq<Event>, n: nat)
    requires OnceEach(es) && n < |es|
    ensures es[n].span.id !in Delivered(es, n) && es[n].span.id != "" && es[n].traceId in WireIds(es)
  {
    DeliveredIs(es, n, es[n].span.id);
    assert es[n] in es;
  }

  lemma {:induction false} EmptyTrack(max: nat, wire: set<Key>)
    ensures Track(Empty(max), {}, wire, "")
  {
  }

  /** The first `n` arrivals evict nothing. */
  ghost predicate RoomyUntil(es: seq<Event>, ss: seq<State>, n: nat)
    requires n <= |es| < |ss|
  {
    forall m: nat :: m < n ==> Roomy(ss[m], es[m])
  }

  /** The invariant of a run, after `n` arrivals. */
  ghost predicate Tracked(es: seq<Event>, ss: seq<State>, n: nat)
    requires n <= |es| < |ss|
  {
    Track(ss[n], Delivered(es, n), WireIds(es), "") && ss[n].max == ss[0].max
  }

  lemma {:induction false} TrackedStart(es: seq<Event>, ss: seq<State>)
    requires History(es, ss)
    ensures Tracked(es, ss, 0)
  {
    EmptyTrack(ss[0].max, WireIds(es));
  }

  lemma {:induction false} TrackedNext(es: seq<Event>, ss: seq<State>, k: nat, n: nat)
    requires History(es, ss) && OnceEach(es) && k < n <= |es| && RoomyUntil(es, ss, n) && Tracked(es, ss, k)
    ensures Tracked(es, ss, k + 1)
  {
    NewSpan(es, k);
    assert Roomy(ss[k], es[k]);
    TrackStep(es, ss, k, WireIds(es));
  }

  /** It holds for as long as nothing is evicted. */
  lemma {:induction false} StaysTracked(es: seq<Event>, ss: seq<State>, k: nat, n: nat)
    requires History(es, ss) && OnceEach(es) && k <= n <= |es| && RoomyUntil(es, ss, n) && Tracked(es, ss, k)
    ensures Tracked(es, ss, n)
    decreases n - k
  {
    if k < n {
      TrackedNext(es, ss, k, n);
      StaysTracked(es, ss, k + 1, n);
    }
  }

  lemma {:induction false} PrefixTrack(es: seq<Event>, ss: seq<State>, n: nat)
    requires History(es, ss) && OnceEach(es) && n <= |es| && RoomyUntil(es, ss, n)
    ensures Track(ss[n], Delivered(es, n), WireIds(es), "") && ss[n].max == ss[0].max
  {
    TrackedStart(es, ss);
    StaysTracked(es, ss, 0, n);
  }

  lemma {:induction false} TrackStep(es: seq<Event>, ss: seq<State>, n: nat, wire: set<Key>)
    requires History(es, ss) && OnceEach(es) && n < |es| && Roomy(ss[n], es[n])
    requires Track(ss[n], Delivered(es, n), wire, "") && ss[n].max == ss[0].max
    requires es[n].traceId in wire || Choose(ss[n], es[n]) in wire
    ensures Track(ss[n + 1], Delivered(es, n + 1), wire, "") && ss[n + 1].max == ss[0].max
  {
    NewSpan(es, n);
    assert Steps(es, ss, n);
    if es[n].traceId in wire { ChooseOnWire(ss[n], Delivered(es, n), wire, es[n]); }
    Arrival(ss[n], Delivered(es, n), wire, es[n]);
  }

  lemma {:induction false} RunTrack(es: seq<Event>, ss: seq<State>, n: nat)
    requires Deliveries(es, ss) && n <= |es|
    ensures Track(ss[n], Delivered(es, n), WireIds(es), "") && ss[n].max == ss[0].max
    ensures n < |es| ==> Choose(ss[n], es[n]) in WireIds(es)
  {
    PrefixTrack(es, ss, n);
    if n < |es| {
      NewSpan(es, n);
      ChooseOnWire(ss[n], Delivered(es, n), WireIds(es), es[n]);
    }
  }

  /** A store with a group for every wire trace id never evicts. */
  lemma {:induction false} RoomForAll(es: seq<Event>, ss: seq<State>)
    requires History(es, ss) && OnceEach(es) && |WireIds(es)| <= ss[0].max
    ensures Deliveries(es, ss)
  {
    forall n: nat | n < |es| ensures Roomy(ss[n], es[n]) { RoomUpTo(es, ss, n + 1); }
  }

  lemma {:induction false} RoomUpTo(es: seq<Event>, ss: seq<State>, n: nat)
    requires History(es, ss) && OnceEach(es) && |WireIds(es)| <= ss[0].max && n <= |es|
    ensures RoomyUntil(es, ss, n)
  {
    if n > 0 {
      RoomUpTo(es, ss, n - 1);
      RoomNext(es, ss, n - 1);
    }
  }

  lemma {:induction false} RoomNext(es: seq<Event>, ss: seq<State>, n: nat)
    requires History(es, ss) && OnceEach(es) && |WireIds(es)| <= ss[0].max && n < |es| && RoomyUntil(es, ss, n)
    ensures Roomy(ss[n], es[n])
  {
    PrefixTrack(es, ss, n);
    NewSpan(es, n);
    ChooseOnWire(ss[n], Delivered(es, n), WireIds(es), es[n]);
    NoEviction(ss[n], Delivered(es, n), WireIds(es), Choose(ss[n], es[n]));
  }

  /** One tree, delivered parents first. */
  ghost predicate OneTree(es: seq<Event>) {
    forall n :: 0 < n < |es| ==> es[n].span.parent in Delivered(es, n)
  }

  /** One tree delivered parents first needs a single group, under however many wire trace ids it comes. */
  lemma {:induction false} OneTreeFits(es: seq<Event>, ss: seq<State>)
    requires History(es, ss) && OnceEach(es) && OneTree(es) && ss[0].max >= 1
    ensures Deliveries(es, ss)
    ensures es != [] ==> ss[|es|].spans.Keys == {es[0].traceId}
  {
    forall n: nat | n < |es| ensures Roomy(ss[n], es[n]) { OneGroup(es, ss, n); }
    if es != [] { OneGroup(es, ss, |es|); }
  }

  lemma {:induction false} OneGroup(es: seq<Event>, ss: seq<State>, n: nat)
    requires History(es, ss) && OnceEach(es) && OneTree(es) && ss[0].max >= 1 && es != [] && n <= |es|
    ensures Track(ss[n], Delivered(es, n), {es[0].traceId}, "") && ss[n].max == ss[0].max
    ensures n > 0 ==> ss[n].spans.Keys == {es[0].traceId}
    ensures n < |es| ==> Roomy(ss[n], es[n]) && Choose(ss[n], es[n]) == es[0].traceId
  {
    var wire := {es[0].traceId};
    if n == 0 {
      EmptyTrack(ss[0].max, wire);
    } else {
      OneGroup(es, ss, n - 1);
      TrackStep(es, ss, n - 1, wire);
      GroupChosen(es, ss, n - 1, wire);
      if n < |es| { TreeChooses(ss[n], Delivered(es, n), es[n], es[0].traceId); }
    }
  }

  lemma {:induction false} GroupChosen(es: seq<Event>, ss: seq<State>, n: nat, wire: set<Key>)
    requires History(es, ss) && OnceEach(es) && n < |es| && Roomy(ss[n], es[n])
    requires Track(ss[n], Delivered(es, n), wire, "") && wire == {Choose(ss[n], es[n])}
    ensures ss[n + 1].spans.Keys == wire
  {
    var s, e := ss[n], es[n];
    NewSpan(es, n);
    assert Steps(es, ss, n);
    Arrival(s, Delivered(es, n), wire, e);
    assert Choose(s, e) in After(s, e);
  }

  lemma {:induction false} TreeChooses(s: State, delivered: set<Id>, e: Event, k: Key)
    requires Track(s, delivered, {k}, "") && e.span.parent in delivered && s.spans.Keys == {k}
    ensures Choose(s, e) == k && Roomy(s, e)
  {
    assert s.groupOf[e.span.parent] in s.groupOf.Values;
  }

  /** The `n`th arrival of a run. */
  lemma {:induction false} ArrivesAt(es: seq<Event>, ss: seq<State>, n: nat) returns (s: State, e: Event)
    requires Deliveries(es, ss) && n < |es|
    ensures s == ss[n] && e == es[n] && Steps(es, ss, n)
    ensures Arrives(s, Delivered(es, n), WireIds(es), e)
    ensures Delivered(es, n + 1) == Delivered(es, n) + {e.span.id}
  {
    s, e := ss[n], es[n];
    RunTrack(es, ss, n);
    assert Roomy(s, e) && Steps(es, ss, n);
    NewSpan(es, n);
  }

  lemma {:induction false} ArrivesFacts(s: State, delivered: set<Id>, wire: set<Key>, e: Event)
    requires Arrives(s, delivered, wire, e)
    ensures Indexed(s) && s.groupOf.Keys == delivered && e.span.id != "" && e.span.id !in delivered
    ensures Ingest(s, e).groupOf.Keys == delivered + {e.span.id}
  {
    Arrival(s, delivered, wire, e);
  }

  /** What one delivery of a run does to the groups. */
  lemma {:induction false} RunArrival(es: seq<Event>, ss: seq<State>, n: nat)
    requires Deliveries(es, ss) && n < |es|
    ensures var s, e := ss[n], es[n];
            && AwaitedLive(s, e) && ss[n + 1].spans == After(s, e)
            && Indexed(s) && s.groupOf.Keys == Delivered(es, n)
            && ss[n + 1].groupOf.Keys == s.groupOf.Keys + {e.span.id}
            && e.span.id != "" && e.span.id !in s.groupOf
  {
    var s, e := ArrivesAt(es, ss, n);
    Arrival(s, Delivered(es, n), WireIds(es), e);
    ArrivesFacts(s, Delivered(es, n), WireIds(es), e);
  }

  // ----- the grouping theorem -----

  /** The span is not stored, or its arrival unites the groups of all its stored children. */
  ghost predicate GoodArrival(s: State, e: Event) {
    Dropped(s, e) || ChildrenFound(s, e)
  }

  lemma {:induction false} StepGroupedIff(es: seq<Event>, ss: seq<State>, n: nat)
    requires Deliveries(es, ss) && n < |es| && Grouped(ss[n])
    ensures Grouped(ss[n + 1]) <==> GoodArrival(ss[n], es[n])
  {
    var s, e := ArrivesAt(es, ss, n);
    ArrivalGroupedIff(s, Delivered(es, n), WireIds(es), e);
  }

  lemma {:induction false} GoodArrivalsGroup(es: seq<Event>, ss: seq<State>, n: nat)
    requires Deliveries(es, ss) && n <= |es|
    requires forall m: nat :: m < n ==> GoodArrival(ss[m], es[m])
    ensures Grouped(ss[n])
  {
    if n > 0 {
      GoodArrivalsGroup(es, ss, n - 1);
      StepGroupedIff(es, ss, n - 1);
      assert GoodArrival(ss[n - 1], es[n - 1]);
    }
  }

  /** At every moment each stored span is with its stored parent iff every arrival finds its children. */
  lemma {:induction false} GroupedThroughoutIff(es: seq<Event>, ss: seq<State>)
    requires Deliveries(es, ss)
    ensures (forall n: nat :: n <= |es| ==> Grouped(ss[n]))
       <==> (forall n: nat :: n < |es| ==> GoodArrival(ss[n], es[n]))
  {
    if forall n: nat :: n <= |es| ==> Grouped(ss[n]) {
      forall n: nat | n < |es| ensures GoodArrival(ss[n], es[n]) {
        StepGroupedIff(es, ss, n);
      }
    } else if forall n: nat :: n < |es| ==> GoodArrival(ss[n], es[n]) {
      forall n: nat | n <= |es| ensures Grouped(ss[n]) {
        GoodArrivalsGroup(es, ss, n);
      }
    }
  }

  // ----- parents first -----

  lemma {:induction false} EmptyAtStart(es: seq<Event>, ss: seq<State>, x: Span, i: Key)
    requires History(es, ss)
    ensures !Listed(ss[0], x, i)
  {
  }

  lemma {:induction false} WasListedBefore(es: seq<Event>, ss: seq<State>, n: nat, x: Span, i: Key) returns (j: Key)
    requires Deliveries(es, ss) && n < |es| && Listed(ss[n + 1], x, i)
    ensures Listed(ss[n], x, j) || x == es[n].span
  {
    RunArrival(es, ss, n);
    j := WasListed(ss[n], es[n], x, i);
  }

  /** Only delivered spans are stored. */
  lemma {:induction false} ListedDelivered(es: seq<Event>, ss: seq<State>, n: nat, x: Span, i: Key) returns (m: nat)
    requires Deliveries(es, ss) && n <= |es| && Listed(ss[n], x, i)
    ensures m < n && es[m].span == x
  {
    if n == 0 {
      EmptyAtStart(es, ss, x, i);
    } else {
      var j := WasListedBefore(es, ss, n - 1, x, i);
      if Listed(ss[n - 1], x, j) {
        m := ListedDelivered(es, ss, n - 1, x, j);
      } else {
        m := n - 1;
      }
    }
  }

  /** No span is delivered before a parent that is delivered at all. */
  ghost predicate ParentsFirst(es: seq<Event>) {
    forall i, j :: 0 <= i < j < |es| ==> es[i].span.parent != es[j].span.id
  }

  /** Delivering parents first groups any forest, whatever the wire trace ids. */
  lemma {:induction false} ParentsFirstGroups(es: seq<Event>, ss: seq<State>, n: nat)
    requires Deliveries(es, ss) && ParentsFirst(es) && n <= |es|
    ensures Grouped(ss[n])
  {
    forall m: nat | m < n ensures GoodArrival(ss[m], es[m]) {
      forall c, i | Listed(ss[m], c, i) && c.parent == es[m].span.id ensures false {
        var d := ListedDelivered(es, ss, m, c, i);
      }
    }
    GoodArrivalsGroup(es, ss, n);
  }

  // ----- any order, when no waiting parent is bound to two groups -----

  /** The arrival records its missing parent, which another group is already waiting for. */
  ghost predicate Rebinds(s: State, e: Event) {
    var p := e.span.parent;
    Records(s, e) && p in s.waiting && s.waiting[p] != Choose(s, e)
  }

  ghost predicate Records(s: State, e: Event) {
    e.span.parent != "" && e.span.parent !in s.groupOf && e.span.parent != e.span.id
  }

  /** Every stored span with a missing parent is in the group recorded for that parent. */
  ghost predicate Bound(s: State) {
    forall c, i :: Listed(s, c, i) && c.parent != "" && c.parent !in s.groupOf
      ==> c.parent in s.waiting && s.waiting[c.parent] == i
  }

  ghost function WaitingAfter(s: State, e: Event): map<Id, Key> {
    var k := Choose(s, e);
    var m := if Records(s, e) then s.waiting[e.span.parent := k] else s.waiting;
    map p | p in m && p != e.span.id :: Moved(s, e, m[p])
  }

  /** Which parents are waited for after an arrival, and by which groups. */
  lemma {:induction false} ArrivalWaiting(s: State, delivered: set<Id>, wire: set<Key>, e: Event)
    requires Arrives(s, delivered, wire, e)
    ensures Ingest(s, e).waiting == WaitingAfter(s, e)
  {
    var k, t, sp := Choose(s, e), Take(s, e), e.span;
    TakeTrack(s, delivered, wire, e);
    var r := RecordFresh(t, delivered, wire, k, sp);
    PlaceIsJoin(Open(t, k), k, sp);
    RecordWaiting(t, k, sp);
    JoinWaiting(r, k, sp.id);
    WaitingSteps(s, e, r.waiting);
  }

  lemma {:induction false} RecordWaiting(t: State, k: Key, sp: Span)
    requires Keyed(t) && !Evicts(t, k) && k in Open(t, k).spans && k in Open(t, k).seen && sp.id != ""
    ensures Record(Open(t, k), k, sp).waiting
         == if sp.parent != "" && sp.parent !in t.groupOf && sp.parent != sp.id then t.waiting[sp.parent := k]
             else t.waiting
  {
  }

  /** The waiting parents after the merge that an arrival may cause. */
  ghost function Released(m: map<Id, Key>, k: Key, id: Id): map<Id, Key> {
    if id in m then Redirect(m - {id}, m[id], k) else m
  }

  lemma {:induction false} JoinWaiting(r: State, k: Key, id: Id)
    requires r.seen.Keys == r.spans.Keys && k in r.spans && id != ""
    requires id in r.waiting ==> r.waiting[id] in r.spans
    ensures Join(r, k, id).waiting == Released(r.waiting, k, id)
  {
    if id in r.waiting {
      var w := r.(waiting := r.waiting - {id});
      var src := r.waiting[id];
      if src == k {
        assert Redirect(w.waiting, src, k) == w.waiting;
      }
    }
  }

  lemma {:induction false} WaitingSteps(s: State, e: Event, m: map<Id, Key>)
    requires e.span.id != ""
    requires var t := Take(s, e).waiting;
             m == if Records(s, e) then t[e.span.parent := Choose(s, e)] else t
    ensures Released(m, Choose(s, e), e.span.id) == WaitingAfter(s, e)
  {
    var id, k := e.span.id, Choose(s, e);
    TakeWaiting(s, e);
    if id in s.waiting && !ByChild(s, e.span) {
      assert United(s, e) == {k, s.waiting[id]};
    } else {
      assert United(s, e) == {k};
    }
  }

  lemma {:induction false} RunWaiting(es: seq<Event>, ss: seq<State>, n: nat)
    requires Deliveries(es, ss) && n < |es|
    ensures ss[n + 1].waiting == WaitingAfter(ss[n], es[n])
  {
    var s, e := ArrivesAt(es, ss, n);
    ArrivalWaiting(s, Delivered(es, n), WireIds(es), e);
  }

  lemma {:induction false} BoundAfter(s: State, e: Event, t: State)
    requires AwaitedLive(s, e) && t.spans == After(s, e) && t.waiting == WaitingAfter(s, e)
    requires t.groupOf.Keys == s.groupOf.Keys + {e.span.id}
    requires Bound(s) && !Rebinds(s, e)
    ensures Bound(t)
  {
    forall c, j | Listed(t, c, j) && c.parent != "" && c.parent !in t.groupOf
      ensures c.parent in t.waiting && t.waiting[c.parent] == j
    {
      var i := WasListed(s, e, c, j);
      if Listed(s, c, i) {
        assert s.waiting[c.parent] == i;
      } else {
        assert Records(s, e);
      }
    }
  }

  lemma {:induction false} BoundFindsChildren(s: State, delivered: set<Id>, e: Event)
    requires Bound(s) && s.groupOf.Keys == delivered && e.span.id != "" && e.span.id !in delivered
    ensures ChildrenFound(s, e)
  {
  }

  /** No arrival of the run binds a waiting parent to a second group. */
  ghost predicate NeverRebinds(es: seq<Event>, ss: seq<State>)
    requires |es| < |ss|
  {
    forall n: nat :: n < |es| ==> !Rebinds(ss[n], es[n])
  }

  lemma {:induction false} NoRebind(es: seq<Event>, ss: seq<State>, n: nat)
    requires |es| < |ss| && NeverRebinds(es, ss) && n < |es|
    ensures !Rebinds(ss[n], es[n])
  {
  }

  lemma {:induction false} BoundStep(es: seq<Event>, ss: seq<State>, n: nat)
    requires Deliveries(es, ss) && n < |es| && !Rebinds(ss[n], es[n]) && Bound(ss[n])
    ensures Bound(ss[n + 1])
  {
    RunArrival(es, ss, n);
    RunWaiting(es, ss, n);
    BoundAfter(ss[n], es[n], ss[n + 1]);
  }

  lemma {:induction false} NeverRebindsBound(es: seq<Event>, ss: seq<State>, n: nat)
    requires Deliveries(es, ss) && NeverRebinds(es, ss) && n <= |es|
    ensures Bound(ss[n])
  {
    if n > 0 {
      NeverRebindsBound(es, ss, n - 1);
      NoRebind(es, ss, n - 1);
      BoundStep(es, ss, n - 1);
    }
  }

  /** Without a rebinding, spans stay with their parents in any arrival order. */
  lemma {:induction false} NeverRebindsGroups(es: seq<Event>, ss: seq<State>, n: nat)
    requires Deliveries(es, ss) && NeverRebinds(es, ss) && n <= |es|
    ensures Grouped(ss[n])
  {
    forall m: nat | m < n ensures GoodArrival(ss[m], es[m]) {
      NeverRebindsBound(es, ss, m);
      RunArrival(es, ss, m);
      BoundFindsChildren(ss[m], Delivered(es, m), es[m]);
    }
    GoodArrivalsGroup(es, ss, n);
  }

  // ----- chains in any order -----

  /** No parent has two children. */
  ghost predicate OnlyChildren(es: seq<Event>) {
    forall i, j :: 0 <= i < j < |es| && es[i].span.parent != "" ==> es[i].span.parent != es[j].span.parent
  }

  lemma {:induction false} WaitingFrom(es: seq<Event>, ss: seq<State>, n: nat, p: Id) returns (m: nat)
    requires Deliveries(es, ss) && n <= |es| && p in ss[n].waiting
    ensures m < n && es[m].span.parent == p
  {
    if n == 0 {
      NoneWaitingAtStart(es, ss, p);
    } else {
      WasWaiting(es, ss, n - 1, p);
      if p in ss[n - 1].waiting {
        m := WaitingFrom(es, ss, n - 1, p);
      } else {
        m := n - 1;
      }
    }
  }

  lemma {:induction false} WasWaiting(es: seq<Event>, ss: seq<State>, n: nat, p: Id)
    requires Deliveries(es, ss) && n < |es| && p in ss[n + 1].waiting
    ensures p in ss[n].waiting || p == es[n].span.parent
  {
    RunWaiting(es, ss, n);
  }

  lemma {:induction false} NoneWaitingAtStart(es: seq<Event>, ss: seq<State>, p: Id)
    requires History(es, ss)
    ensures p !in ss[0].waiting
  {
  }

  /** Chains are grouped in every arrival order, whatever the wire trace ids. */
  lemma {:induction false} OnlyChildrenGroups(es: seq<Event>, ss: seq<State>, n: nat)
    requires Deliveries(es, ss) && OnlyChildren(es) && n <= |es|
    ensures Grouped(ss[n])
  {
    forall m: nat | m < |es| ensures !Rebinds(ss[m], es[m]) {
      if es[m].span.parent in ss[m].waiting && es[m].span.parent != "" {
        var d := WaitingFrom(es, ss, m, es[m].span.parent);
      }
    }
    NeverRebindsGroups(es, ss, n);
  }

  // ----- nothing is lost -----

  /**
   A delivered span is stored iff its group had room when it arrived; it is then in exactly one
   group for good, the one its id is indexed under.
   */
  lemma {:induction false} StoredIff(es: seq<Event>, ss: seq<State>, n: nat, m: nat)
    requires Deliveries(es, ss) && m < n <= |es|
    ensures var s, sp := ss[n], es[m].span;
            && sp.id in s.groupOf
            && (forall i :: Listed(s, sp, i) ==> i == s.groupOf[sp.id])
            && (Listed(s, sp, s.groupOf[sp.id]) <==> !Dropped(ss[m], es[m]))
  {
    RunTrack(es, ss, n);
    var t, sp := ss[n], es[m].span;
    DeliveredIs(es, n, sp.id);
    forall j | Listed(t, sp, j) ensures j == t.groupOf[sp.id] { ListedIndexed(t, sp, j); }
    if !Dropped(ss[m], es[m]) {
      var i := StoredSomewhere(es, ss, n, m);
    } else {
      NeverStored(es, ss, n, m, sp);
    }
  }

  lemma {:induction false} StoredSomewhere(es: seq<Event>, ss: seq<State>, n: nat, m: nat) returns (i: Key)
    requires Deliveries(es, ss) && m < n <= |es| && !Dropped(ss[m], es[m])
    ensures Listed(ss[n], es[m].span, i)
  {
    if m < n - 1 {
      i := StoredSomewhere(es, ss, n - 1, m);
    } else {
      i := Choose(ss[m], es[m]);
    }
    i := ListedNext(es, ss, n - 1, es[m].span, i);
  }

  lemma {:induction false} ListedNext(es: seq<Event>, ss: seq<State>, n: nat, x: Span, i: Key) returns (j: Key)
    requires Deliveries(es, ss) && n < |es| && ListedOrNew(ss[n], es[n], x, i)
    ensures Listed(ss[n + 1], x, j)
  {
    RunArrival(es, ss, n);
    StaysListed(ss[n], es[n], x, i);
    j := Moved(ss[n], es[n], i);
  }

  ghost predicate Absent(s: State, x: Span) {
    forall i :: !Listed(s, x, i)
  }

  /** A span that is not stored, and does not arrive or arrives without finding room, is not stored. */
  lemma {:induction false} AbsentNext(es: seq<Event>, ss: seq<State>, n: nat, x: Span)
    requires Deliveries(es, ss) && n < |es| && Absent(ss[n], x)
    requires x != es[n].span || Dropped(ss[n], es[n])
    ensures Absent(ss[n + 1], x)
  {
    var t := ss[n + 1];
    forall i ensures !Listed(t, x, i) {
      if Listed(t, x, i) { var j := WasListedNew(es, ss, n, x, i); }
    }
  }

  lemma {:induction false} NeverStored(es: seq<Event>, ss: seq<State>, n: nat, m: nat, x: Span)
    requires Deliveries(es, ss) && m < n <= |es| && x == es[m].span && Dropped(ss[m], es[m])
    ensures Absent(ss[n], x)
  {
    if m < n - 1 {
      NeverStored(es, ss, n - 1, m, x);
      assert x != es[n - 1].span;
    } else {
      forall i ensures !Listed(ss[m], x, i) { NotYetListed(es, ss, m, i); }
    }
    AbsentNext(es, ss, n - 1, x);
  }

  lemma {:induction false} NotYetListed(es: seq<Event>, ss: seq<State>, n: nat, i: Key)
    requires Deliveries(es, ss) && n < |es|
    ensures !Listed(ss[n], es[n].span, i)
  {
    RunArrival(es, ss, n);
    if Listed(ss[n], es[n].span, i) { ListedIndexed(ss[n], es[n].span, i); }
  }

  lemma {:induction false} WasListedNew(es: seq<Event>, ss: seq<State>, n: nat, x: Span, i: Key) returns (j: Key)
    requires Deliveries(es, ss) && n < |es| && Listed(ss[n + 1], x, i)
    ensures ListedOrNew(ss[n], es[n], x, j)
  {
    RunArrival(es, ss, n);
    j := WasListed(ss[n], es[n], x, i);
  }

  lemma {:induction false} DeliveredSize(es: seq<Event>, n: nat)
    requires n <= |es|
    ensures |Delivered(es, n)| <= n
  {
    if n > 0 { DeliveredSize(es, n - 1); }
  }

  lemma {:induction false} GroupSize(spans: seq<Span>, ids: set<Id>)
    requires forall sp :: sp in spans ==> sp.id in ids
    requires forall i, j :: 0 <= i < j < |spans| ==> spans[i].id != spans[j].id
    ensures |spans| <= |ids|
    decreases |spans|
  {
    if spans != [] {
      var n := |spans| - 1;
      assert spans[n] in spans;
      GroupSize(spans[..n], ids - {spans[n].id});
    }
  }

  lemma {:induction false} NotDropped(s: State, delivered: set<Id>, wire: set<Key>, e: Event)
    requires Track(s, delivered, wire, "") && |delivered| < MAX_SPANS_PER_TRACE
    ensures !Dropped(s, e)
  {
    var k := Choose(s, e);
    if k in s.spans {
      assert GroupOk(k, s.spans[k], s.seen[k], s.groupOf);
      assert TidyGroup(s.spans[k], s.seen[k]);
      forall i, j | 0 <= i < j < |s.spans[k]| ensures s.spans[k][i].id != s.spans[k][j].id {
        assert s.spans[k][i] in s.spans[k];
      }
      GroupSize(s.spans[k], delivered);
    }
  }

  /** So nothing is dropped among the first spans up to the cap, however they are grouped. */
  lemma {:induction false} NothingLost(es: seq<Event>, ss: seq<State>, n: nat)
    requires Deliveries(es, ss) && n < |es| && n < MAX_SPANS_PER_TRACE
    ensures !Dropped(ss[n], es[n])
  {
    RunTrack(es, ss, n);
    DeliveredSize(es, n);
    NotDropped(ss[n], Delivered(es, n), WireIds(es), es[n]);
  }

  // ----- connected spans -----

  /** Consecutive stored spans of the path are parent and child, in either direction. */
  ghost predicate Connected(s: State, path: seq<Span>) {
    && (forall sp :: sp in path ==> exists k :: Listed(s, sp, k))
    && forall i :: 0 <= i < |path| - 1 ==> Linked(path[i], path[i + 1]) || Linked(path[i + 1], path[i])
  }

  ghost predicate Linked(c: Span, p: Span) {
    c.parent != "" && c.parent == p.id
  }

  /** All connected spans are under one trace group. */
  lemma {:induction false} ConnectedTogether(s: State, path: seq<Span>, i: Key, j: Key)
    requires Indexed(s) && Grouped(s) && path != [] && Connected(s, path)
    requires Listed(s, path[0], i) && Listed(s, path[|path| - 1], j)
    ensures i == j
    decreases |path|
  {
    if |path| == 1 {
      ListedIndexed(s, path[0], i);
      ListedIndexed(s, path[0], j);
    } else {
      assert path[1] in path;
      var k :| Listed(s, path[1], k);
      assert Linked(path[0], path[1]) || Linked(path[1], path[0]);
      assert i == k;
      forall sp | sp in path[1..] ensures exists g :: Listed(s, sp, g) { assert sp in path; }
      ConnectedTogether(s, path[1..], k, j);
    }
  }

  // ----- two children waiting for one parent -----

  /** Two siblings under different wire ids, then their parent. */
  ghost predicate Siblings(es: seq<Event>) {
    && |es| == 3 && es[0].traceId != es[1].traceId
    && es[0].span.parent == es[1].span.parent == es[2].span.id
    && es[2].span.parent !in {es[0].span.id, es[1].span.id}
  }

  /** The bookkeeping of a span whose parent is missing and that nobody waits for. */
  lemma {:induction false} OrphanAfter(s: State, e: Event)
    requires Records(s, e) && e.span.id !in s.waiting
    ensures Choose(s, e) == e.traceId
    ensures AwaitedLive(s, e) && After(s, e) == Stored(s.spans, e.traceId, e.span)
    ensures WaitingAfter(s, e) == s.waiting[e.span.parent := e.traceId]
  {
    assert United(s, e) == {e.traceId};
  }

  lemma {:induction false} OrphanArrival(es: seq<Event>, ss: seq<State>, n: nat)
    requires Deliveries(es, ss) && n < |es|
    requires Records(ss[n], es[n]) && es[n].span.id !in ss[n].waiting
    ensures var s, e, t := ss[n], es[n], ss[n + 1];
            && t.spans == Stored(s.spans, e.traceId, e.span)
            && t.waiting == s.waiting[e.span.parent := e.traceId]
            && t.groupOf.Keys == s.groupOf.Keys + {e.span.id}
  {
    RunArrival(es, ss, n);
    RunWaiting(es, ss, n);
    OrphanAfter(ss[n], es[n]);
  }

  lemma {:induction false} StoredNew(spans: map<Key, seq<Span>>, k: Key, sp: Span)
    requires k !in spans
    ensures Stored(spans, k, sp) == spans[k := [sp]]
  {
    assert [] + [sp] == [sp];
  }

  lemma {:induction false} FirstWaits(es: seq<Event>, ss: seq<State>)
    requires Deliveries(es, ss) && Siblings(es)
    ensures var s, a := ss[1], es[0];
            && s.spans == map[a.traceId := [a.span]] && s.waiting == map[a.span.parent := a.traceId]
            && s.groupOf.Keys == {a.span.id}
  {
    assert es[2] in es;
    OrphanArrival(es, ss, 0);
    StoredNew(map[], es[0].traceId, es[0].span);
  }

  lemma {:induction false} SiblingsWait(es: seq<Event>, ss: seq<State>)
    requires Deliveries(es, ss) && Siblings(es)
    ensures var s, a, b := ss[2], es[0], es[1];
            && s.spans == map[a.traceId := [a.span]][b.traceId := [b.span]]
            && s.waiting == map[a.span.parent := a.traceId][a.span.parent := b.traceId]
            && s.groupOf.Keys == {a.span.id} + {b.span.id}
  {
    assert es[2] in es;
    FirstWaits(es, ss);
    OrphanArrival(es, ss, 1);
    StoredNew(ss[1].spans, es[1].traceId, es[1].span);
  }

  /** The first sibling is left behind: the store does not group every delivery. */
  lemma {:induction false} SiblingsSplit(es: seq<Event>, ss: seq<State>)
    requires Deliveries(es, ss) && Siblings(es)
    ensures !Grouped(ss[3])
  {
    SiblingsWait(es, ss);
    RunArrival(es, ss, 2);
    SiblingLeft(ss[2], es[0], es[1], es[2], ss[3]);
  }

  lemma {:induction false} SiblingLeft(s: State, a: Event, b: Event, p: Event, t: State)
    requires s.spans == map[a.traceId := [a.span]][b.traceId := [b.span]] && a.traceId != b.traceId
    requires p.span.id in s.waiting && s.waiting[p.span.id] == b.traceId
    requires p.span.parent !in s.groupOf && p.span.id != "" && a.span.parent == p.span.id
    requires AwaitedLive(s, p) && t.spans == After(s, p)
    ensures !Grouped(t)
  {
    assert United(s, p) == {b.traceId} && !Dropped(s, p);
    StaysListed(s, p, a.span, a.traceId);
    StaysListed(s, p, p.span, b.traceId);
    assert Listed(t, a.span, a.traceId) && Listed(t, p.span, b.traceId);
  }

  /** The family of split siblings is not empty. */
  lemma {:induction false} SiblingsExist()
    ensures exists es, ss :: Deliveries(es, ss) && Siblings(es)
  {
    var es := [Event("t1", Span("a", "p", "")), Event("t2", Span("b", "p", "")), Event("t3", Span("p", "", ""))];
    assert es[0] in es && es[1] in es && es[2] in es;
    var ss := HistoryExists(|WireIds(es)|, es);
    RoomForAll(es, ss);
    assert Siblings(es);
  }
}
