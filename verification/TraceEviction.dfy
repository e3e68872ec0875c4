/**
 What an eviction leaves behind, and what becomes of spans whose parent is gone
 (cli/planoai/trace_cmd.py, `_evict_oldest`). Spans may be delivered any number of times.
 */
module TraceEviction {
  import opened Wrappers
  import opened Collections
  import opened Traces
  import opened TraceInvariant
  import opened TraceRuns

  // ----- the indexes after an eviction -----

  /** A span with this id is listed in the group. */
  ghost predicate ListsId(s: State, k: Key, id: Id) {
    k in s.spans && exists i :: 0 <= i < |s.spans[k]| && s.spans[k][i].id == id
  }

  /** The span is the awaited parent of a group that it is put into, which uses the entry up. */
  predicate UsesUp(s: State, sp: Span, id: Id) {
    id == sp.id && id != "" && (sp.parent == "" || sp.parent !in s.groupOf)
  }

  /**
   A delivery that needs room: when the new group has been opened, nothing that the oldest group listed
   is indexed or waited for, every other entry is as it was, and the other groups are untouched.
   */
  lemma {:induction false} EvictionClears(max: nat, es: seq<Event>, e: Event)
    requires var s := Run(Empty(max), es); s.order != [] && Evicts(s, Choose(s, e))
    ensures var s := Run(Empty(max), es);
            s.order[0] in s.spans && Cleared(s, Open(Take(s, e), Choose(s, e)), s.order[0], Choose(s, e), e.span)
  {
    OpeningClears(Run(Empty(max), es), e);
  }

  lemma {:induction false} OpeningClears(s: State, e: Event)
    requires Keyed(s) && s.order != [] && Evicts(s, Choose(s, e))
    ensures s.order[0] in s.spans
    ensures Cleared(s, Open(Take(s, e), Choose(s, e)), s.order[0], Choose(s, e), e.span)
  {
    var k, victim := Choose(s, e), s.order[0];
    var t := Opened(s, e);
    var ids := Ids(s.spans[victim]);
    forall id ensures MapGet(t.groupOf, id) == Unless(ListsId(s, victim, id), MapGet(s.groupOf, id)) {
      IdsAre(s.spans[victim], id);
      assert id in ids <==> ListsId(s, victim, id);
    }
    forall id
      ensures MapGet(t.waiting, id) == Unless(ListsId(s, victim, id) || UsesUp(s, e.span, id), MapGet(s.waiting, id))
    {
      IdsAre(s.spans[victim], id);
      assert id in ids <==> ListsId(s, victim, id);
      TakenFrom(s, e, id);
    }
  }

  lemma {:induction false} TakenFrom(s: State, e: Event, id: Id)
    ensures MapGet(Take(s, e).waiting, id) == Unless(UsesUp(s, e.span, id), MapGet(s.waiting, id))
  {
  }

  /** The state in which the new group has been opened. */
  lemma {:induction false} Opened(s: State, e: Event) returns (t: State)
    requires Keyed(s) && s.order != [] && Evicts(s, Choose(s, e))
    ensures s.order[0] in s.spans && t == Open(Take(s, e), Choose(s, e))
    ensures t.groupOf == s.groupOf - Ids(s.spans[s.order[0]])
    ensures t.waiting == Take(s, e).waiting - Ids(s.spans[s.order[0]])
    ensures t.spans == (s.spans - {s.order[0]})[Choose(s, e) := []]
  {
    assert Keyed(Take(s, e)) && Evicts(Take(s, e), Choose(s, e));
    t := Open(Take(s, e), Choose(s, e));
  }

  /** From `s` to `t` the group `victim` has made room for `k`, which `sp` is to be put into. */
  ghost predicate Cleared(s: State, t: State, victim: Key, k: Key, sp: Span) {
    && (forall id :: MapGet(t.groupOf, id) == Unless(ListsId(s, victim, id), MapGet(s.groupOf, id)))
    && (forall id :: MapGet(t.waiting, id)
                  == Unless(ListsId(s, victim, id) || UsesUp(s, sp, id), MapGet(s.waiting, id)))
    && (forall j :: MapGet(t.spans, j) == if j == k then Some([]) else Unless(j == victim, MapGet(s.spans, j)))
  }

  function Unless<T>(gone: bool, v: Option<T>): Option<T> {
    if gone then None else v
  }

  lemma {:induction false} IdsAre(spans: seq<Span>, id: Id)
    ensures id in Ids(spans) <==> exists i :: 0 <= i < |spans| && spans[i].id == id
  {
    if i :| 0 <= i < |spans| && spans[i].id == id { assert spans[i] in spans; }
  }

  // ----- a parent that is gone -----

  /** The store knows nothing of this id: it is not indexed, and no group has seen it. */
  ghost predicate Unknown(s: State, id: Id) {
    && id !in s.groupOf
    && (forall k :: k in s.seen ==> id !in s.seen[k])
    && forall k, i :: k in s.spans && 0 <= i < |s.spans[k]| ==> s.spans[k][i].id != id
  }

  lemma {:induction false} OpenUnknown(s: State, k: Key, id: Id)
    requires Keyed(s) && Unknown(s, id)
    ensures Unknown(Open(s, k), id)
  {
  }

  lemma {:induction false} RecordUnknown(s: State, k: Key, sp: Span, id: Id)
    requires Keyed(s) && k in s.spans && Unknown(s, id) && sp.id != id
    ensures Unknown(Record(s, k, sp), id)
  {
  }

  lemma {:induction false} AppendUnknown(dst: seq<Span>, seen: set<Id>, src: seq<Span>, id: Id)
    requires id !in seen && (forall sp :: sp in dst ==> sp.id != id) && forall sp :: sp in src ==> sp.id != id
    ensures var (spans, ids) := AppendUnseen(dst, seen, src); id !in ids && forall sp :: sp in spans ==> sp.id != id
    decreases src
  {
    if src != [] {
      assert src[0] in src;
      AppendUnknown(dst + [src[0]], seen + {src[0].id}, src[1..], id);
      AppendUnknown(dst, seen, src[1..], id);
    }
  }

  lemma {:induction false} MergeUnknown(s: State, src: Key, dst: Key, id: Id)
    requires Keyed(s) && dst in s.spans && Unknown(s, id)
    ensures Unknown(Merge(s, src, dst), id)
  {
    if src != dst && src in s.spans {
      AppendUnknown(s.spans[dst], s.seen[dst], s.spans[src], id);
      var t := Merge(s, src, dst);
      assert id !in Ids(s.spans[src]) + s.seen[src];
      forall k, i | k in t.spans && 0 <= i < |t.spans[k]| ensures t.spans[k][i].id != id {
        if k == dst { assert t.spans[k][i] in t.spans[k]; }
      }
    }
  }

  lemma {:induction false} PlaceUnknown(s: State, k: Key, sp: Span, id: Id)
    requires Keyed(s) && k in s.spans && Unknown(s, id) && sp.id != id
    ensures Unknown(Place(s, k, sp), id)
  {
    if sp.id == "" || sp.id !in s.seen[k] {
      RecordKeyed(s, k, sp);
      RecordUnknown(s, k, sp, id);
      var r := Record(s, k, sp);
      if sp.id != "" && sp.id in r.waiting {
        MergeUnknown(r.(waiting := r.waiting - {sp.id}), r.waiting[sp.id], k, id);
      }
    }
  }

  /** It stays so until the span is delivered. */
  lemma {:induction false} IngestUnknown(s: State, e: Event, id: Id)
    requires Keyed(s) && Unknown(s, id) && e.span.id != id
    ensures Unknown(Ingest(s, e), id)
  {
    var k, t := Choose(s, e), Take(s, e);
    assert Keyed(t) && Unknown(t, id);
    OpenKeyed(t, k);
    OpenUnknown(t, k, id);
    PlaceUnknown(Open(t, k), k, e.span, id);
  }

  /** Only this group knows the id, and lists it. */
  ghost predicate OnlyIn(s: State, k: Key, id: Id) {
    && ListsId(s, k, id)
    && (forall j :: j in s.spans && j != k ==> !ListsId(s, j, id))
    && (forall j :: j in s.seen && j != k ==> id !in s.seen[j])
  }

  lemma {:induction false} OpenedUnknown(s: State, k: Key, id: Id)
    requires Keyed(s) && s.order != [] && Evicts(s, k) && OnlyIn(s, s.order[0], id)
    ensures Unknown(Open(s, k), id)
  {
    var u := Open(s, k);
    IdsAre(s.spans[s.order[0]], id);
    forall j, i | j in u.spans && 0 <= i < |u.spans[j]| ensures u.spans[j][i].id != id {
      assert j in s.spans && !ListsId(s, j, id);
    }
  }

  /** The delivery that evicts the one group that knows this id makes it unknown. */
  lemma {:induction false} EvictedUnknown(s: State, e: Event, id: Id)
    requires Keyed(s) && s.order != [] && Evicts(s, Choose(s, e)) && OnlyIn(s, s.order[0], id) && e.span.id != id
    ensures Unknown(Ingest(s, e), id)
  {
    var k, t := Choose(s, e), Take(s, e);
    assert Keyed(t) && Evicts(t, k);
    assert ListsId(t, t.order[0], id) && forall j :: ListsId(t, j, id) == ListsId(s, j, id);
    OpenKeyed(t, k);
    OpenedUnknown(t, k, id);
    PlaceUnknown(Open(t, k), k, e.span, id);
  }

  lemma {:induction false} StaysUnknown(es: seq<Event>, ss: seq<State>, m: nat, n: nat, id: Id)
    requires History(es, ss) && m <= n <= |es| && Unknown(ss[m], id)
    requires forall j :: m <= j < n ==> es[j].span.id != id
    ensures Unknown(ss[n], id)
  {
    if m < n {
      StaysUnknown(es, ss, m, n - 1, id);
      assert Steps(es, ss, n - 1);
      IngestUnknown(ss[n - 1], es[n - 1], id);
    }
  }

  /** The one group that knew this id was evicted at `m`, and the span has not been delivered since. */
  ghost predicate GoneSince(es: seq<Event>, ss: seq<State>, m: nat, n: nat, id: Id)
    requires m < n <= |es| && |ss| == |es| + 1
  {
    && ss[m].order != [] && Evicts(ss[m], Choose(ss[m], es[m])) && OnlyIn(ss[m], ss[m].order[0], id)
    && forall j :: m <= j < n ==> es[j].span.id != id
  }

  lemma {:induction false} GoneIsUnknown(es: seq<Event>, ss: seq<State>, m: nat, n: nat, id: Id)
    requires History(es, ss) && m < n <= |es| && GoneSince(es, ss, m, n, id)
    ensures Unknown(ss[n], id)
  {
    assert Steps(es, ss, m);
    EvictedUnknown(ss[m], es[m], id);
    StaysUnknown(es, ss, m + 1, n, id);
  }

  /**
   A span that comes after the one group that knew its parent was evicted, and that no group waits for,
   is put into the group of its own wire trace id.
   */
  lemma {:induction false} OrphanStartsOver(es: seq<Event>, ss: seq<State>, m: nat, n: nat)
    requires History(es, ss) && m < n < |es| && GoneSince(es, ss, m, n, es[n].span.parent)
    requires es[n].span.id !in ss[n].waiting
    ensures Choose(ss[n], es[n]) == es[n].traceId
    ensures es[n].traceId in ss[n + 1].spans
    ensures es[n].traceId !in ss[n].spans ==> ss[n + 1].spans[es[n].traceId] == [es[n].span]
  {
    GoneIsUnknown(es, ss, m, n, es[n].span.parent);
    assert Steps(es, ss, n);
    FreshGroup(ss[n], es[n]);
  }

  lemma {:induction false} NotAwaited(s: State, k: Key, sp: Span)
    requires Keyed(s) && k in s.spans && sp.id !in s.waiting
    ensures sp.id != "" ==> sp.id !in Record(s, k, sp).waiting
  {
  }

  lemma {:induction false} PlaceUnawaited(s: State, k: Key, sp: Span)
    requires Keyed(s) && k in s.spans && sp.id !in s.waiting
    ensures Place(s, k, sp) == if sp.id != "" && sp.id in s.seen[k] then s else Record(s, k, sp)
  {
    NotAwaited(s, k, sp);
  }

  lemma {:induction false} OpenWaits(s: State, k: Key)
    requires Keyed(s)
    ensures Open(s, k).waiting.Keys <= s.waiting.Keys
    ensures k !in s.spans ==> k in Open(s, k).spans && Open(s, k).spans[k] == [] && Open(s, k).seen[k] == {}
  {
  }

  /** What no parent or child is known of goes into the group of its own wire trace id. */
  lemma {:induction false} FreshGroup(s: State, e: Event)
    requires Keyed(s) && (e.span.parent == "" || e.span.parent !in s.groupOf) && e.span.id !in s.waiting
    ensures Choose(s, e) == e.traceId && e.traceId in Ingest(s, e).spans
    ensures e.traceId !in s.spans ==> Ingest(s, e).spans[e.traceId] == [e.span]
  {
    var k := e.traceId;
    OpenKeyed(s, k);
    OpenWaits(s, k);
    PlaceUnawaited(Open(s, k), k, e.span);
    RecordKeyed(Open(s, k), k, e.span);
    assert [] + [e.span] == [e.span];
  }

  lemma {:induction false} FirstDelivered(max: nat, e: Event)
    requires e.span.parent == "" && e.span.id != "" && max > 0
    ensures Ingest(Empty(max), e)
         == State(max, [e.traceId], map[e.traceId := [e.span]], map[e.traceId := {e.span.id}],
                  map[e.span.id := e.traceId], map[])
  {
    assert [] + [e.traceId] == [e.traceId] && [] + [e.span] == [e.span] && {} + {e.span.id} == {e.span.id};
    var u := Open(Empty(max), e.traceId);
    assert u.spans == map[e.traceId := []] && u.seen == map[e.traceId := {}] && u.groupOf == map[];
  }

  lemma {:induction false} RootsWaitForNothing(s: State, e: Event)
    requires Keyed(s) && s.waiting == map[] && e.span.parent == ""
    ensures Ingest(s, e).waiting == map[]
  {
    OpenKeyed(s, e.traceId);
    OpenWaits(s, e.traceId);
    assert Open(s, e.traceId).waiting == map[];
  }

  /** The store of a single delivery makes room for one under another wire trace id. */
  lemma {:induction false} SecondEvicts(s: State, first: Event, e: Event)
    requires Keyed(s) && s == Ingest(Empty(1), first) && first.span.parent == "" && first.span.id != ""
    requires e.span.parent == "" && e.traceId != first.traceId
    ensures s.order != [] && Evicts(s, Choose(s, e)) && OnlyIn(s, s.order[0], first.span.id) && s.waiting == map[]
  {
    FirstDelivered(1, first);
    assert s.spans[first.traceId][0] == first.span;
  }

  /** With room for one group: the parent is gone when its child arrives, and the child starts a group. */
  lemma {:induction false} ChildOfGone(es: seq<Event>, ss: seq<State>)
    requires History(es, ss) && ss[0].max == 1 && |es| == 3
    requires es[0].span.parent == "" && es[0].span.id != "" && es[1].span.parent == ""
    requires es[1].traceId != es[0].traceId && es[1].span.id != es[0].span.id && es[2].span.parent == es[0].span.id
    ensures Choose(ss[2], es[2]) == es[2].traceId
  {
    assert Steps(es, ss, 0) && Steps(es, ss, 1);
    SecondEvicts(ss[1], es[0], es[1]);
    RootsWaitForNothing(ss[1], es[1]);
    assert GoneSince(es, ss, 1, 2, es[0].span.id);
    OrphanStartsOver(es, ss, 1, 2);
  }

  lemma {:induction false} OrphanExists() returns (es: seq<Event>, ss: seq<State>)
    ensures es == [Event("a", Span("1", "", "")), Event("b", Span("2", "", "")), Event("c", Span("3", "1", ""))]
    ensures History(es, ss) && ss[0].max == 1 && Choose(ss[2], es[2]) == "c"
  {
    es := [Event("a", Span("1", "", "")), Event("b", Span("2", "", "")), Event("c", Span("3", "1", ""))];
    ss := HistoryExists(1, es);
    ChildOfGone(es, ss);
  }
}
