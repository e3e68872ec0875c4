/**
 The in-memory trace store of the CLI (cli/planoai/trace_cmd.py, `_TraceStore`).

 A span names its parent. Spans of one logical trace may arrive under different wire trace ids and
 in any order; the store is to keep every span in the group of its parent.
 */
module Traces {
  import opened Collections

  type Key = string
  type Id = string

  /** `body` stands for everything in a span that the store does not look at. */
  datatype Span = Span(id: Id, parent: Id, body: string)

  const MAX_SPANS_PER_TRACE: nat := 500

  /**
   The store's dictionaries. `order` and `spans` together are the OrderedDict of groups: `order`
   is its key order, oldest first.
   */
  datatype State = State(
    max: nat,
    order: seq<Key>,
    spans: map<Key, seq<Span>>,
    seen: map<Key, set<Id>>,
    groupOf: map<Id, Key>,
    waiting: map<Id, Key>)

  function Empty(max: nat): State {
    State(max, [], map[], map[], map[], map[])
  }

  function Ids(spans: seq<Span>): set<Id> {
    set sp | sp in spans :: sp.id
  }

  /** `order` with the entry `k` taken out. */
  function Without(order: seq<Key>, k: Key): seq<Key> {
    if order == [] then []
    else if order[0] == k then order[1..]
    else [order[0]] + Without(order[1..], k)
  }

  ghost predicate Lists(order: seq<Key>, keys: set<Key>) {
    Distinct(order) && forall k :: k in order <==> k in keys
  }

  /** The dictionaries that share the group keys agree on them. */
  ghost predicate Keyed(s: State) {
    Lists(s.order, s.spans.Keys) && s.seen.Keys == s.spans.Keys
  }

  // ----- the operations, as functions on the dictionaries -----

  function Evict(s: State): State
    requires s.order != [] ==> s.order[0] in s.spans
  {
    if s.order == [] then s
    else
      var k := s.order[0];
      var ids := Ids(s.spans[k]);
      s.(order := s.order[1..], spans := s.spans - {k}, seen := s.seen - {k},
         groupOf := s.groupOf - ids, waiting := s.waiting - ids)
  }

  /** Spans of a merged group that the destination has not seen, appended in order. */
  function AppendUnseen(dst: seq<Span>, seen: set<Id>, src: seq<Span>): (seq<Span>, set<Id>)
    decreases src
  {
    if src == [] then (dst, seen)
    else
      var sp := src[0];
      if sp.id != "" && sp.id !in seen
      then AppendUnseen(dst + [sp], seen + {sp.id}, src[1..])
      else AppendUnseen(dst, seen, src[1..])
  }

  function Redirect(m: map<Id, Key>, src: Key, dst: Key): map<Id, Key> {
    map p | p in m :: if m[p] == src then dst else m[p]
  }

  function Assign(m: map<Id, Key>, ids: set<Id>, k: Key): map<Id, Key> {
    map id | id in m.Keys + ids :: if id in ids then k else m[id]
  }

  function Merge(s: State, src: Key, dst: Key): State
    requires s.seen.Keys == s.spans.Keys && dst in s.spans
  {
    if src == dst || src !in s.spans then s
    else
      var (spans, seen) := AppendUnseen(s.spans[dst], s.seen[dst], s.spans[src]);
      s.(order := Without(s.order, src),
         spans := (s.spans - {src})[dst := spans],
         seen := (s.seen - {src})[dst := seen],
         groupOf := Assign(s.groupOf, Ids(s.spans[src]) + s.seen[src], dst),
         waiting := Redirect(s.waiting, src, dst))
  }

  datatype Event = Event(traceId: Key, span: Span)

  /** The group joins through its parent. */
  predicate ByParent(s: State, sp: Span) {
    sp.parent != "" && sp.parent in s.groupOf
  }

  /** The span is the awaited parent of an existing group, which it joins. */
  predicate ByChild(s: State, sp: Span) {
    !ByParent(s, sp) && sp.id != "" && sp.id in s.waiting
  }

  /** The group an arriving span is put into. */
  function Choose(s: State, e: Event): Key {
    if ByParent(s, e.span) then s.groupOf[e.span.parent]
    else if ByChild(s, e.span) then s.waiting[e.span.id]
    else e.traceId
  }

  function Take(s: State, e: Event): State {
    if ByChild(s, e.span) then s.(waiting := s.waiting - {e.span.id}) else s
  }

  predicate Evicts(s: State, k: Key) {
    k !in s.spans && |s.order| >= s.max
  }

  /** The group `k` exists and is the youngest. */
  function Open(s: State, k: Key): State
    requires s.order != [] ==> s.order[0] in s.spans
  {
    if k in s.spans then s.(order := Without(s.order, k) + [k])
    else AddGroup(if Evicts(s, k) then Evict(s) else s, k)
  }

  function AddGroup(s: State, k: Key): State {
    s.(order := s.order + [k], spans := s.spans[k := []], seen := s.seen[k := {}])
  }

  function Record(s: State, k: Key, sp: Span): State
    requires k in s.spans && k in s.seen
  {
    var groupOf := if sp.id != "" then s.groupOf[sp.id := k] else s.groupOf;
    s.(seen := if sp.id != "" then s.seen[k := s.seen[k] + {sp.id}] else s.seen,
       groupOf := groupOf,
       spans := if |s.spans[k]| < MAX_SPANS_PER_TRACE then s.spans[k := s.spans[k] + [sp]] else s.spans,
       waiting := if sp.parent != "" && sp.parent !in groupOf then s.waiting[sp.parent := k] else s.waiting)
  }

  /** A group that waited for `id` is merged into `k`. */
  function Join(s: State, k: Key, id: Id): State
    requires s.seen.Keys == s.spans.Keys && k in s.spans
  {
    if id != "" && id in s.waiting
    then Merge(s.(waiting := s.waiting - {id}), s.waiting[id], k)
    else s
  }

  /** Insert `sp` into the open group `k`, unless that group has seen it. */
  function Place(s: State, k: Key, sp: Span): State
    requires Keyed(s) && k in s.spans
  {
    if sp.id != "" && sp.id in s.seen[k] then s
    else
      RecordKeyed(s, k, sp);
      Join(Record(s, k, sp), k, sp.id)
  }

  /** One span of `merge_spans`. */
  function Ingest(s: State, e: Event): State
    requires Keyed(s)
  {
    var k := Choose(s, e);
    var t := Take(s, e);
    assert Keyed(t);
    OpenKeyed(t, k);
    Place(Open(t, k), k, e.span)
  }

  // ----- the key dictionaries stay in step -----

  lemma {:induction false} WithoutSplit(order: seq<Key>, k: Key) returns (i: nat)
    requires k in order
    ensures i < |order| && order[i] == k && Without(order, k) == order[..i] + order[i + 1..]
  {
    if order[0] == k {
      i := 0;
      assert order[..0] + order[1..] == order[1..];
    } else {
      var j := WithoutSplit(order[1..], k);
      i := j + 1;
      DropCons(order, i);
    }
  }

  lemma {:induction false} WithoutMembers(order: seq<Key>, k: Key, x: Key)
    requires Distinct(order) && k in order
    ensures x in Without(order, k) <==> x in order && x != k
  {
    var i := WithoutSplit(order, k);
    var o := order[..i] + order[i + 1..];
    if x in order && x != k {
      var j :| 0 <= j < |order| && order[j] == x;
      assert o[if j < i then j else j - 1] == x;
    }
  }

  lemma {:induction false} WithoutDistinct(order: seq<Key>, k: Key)
    requires Distinct(order) && k in order
    ensures Distinct(Without(order, k)) && |Without(order, k)| == |order| - 1
  {
    var i := WithoutSplit(order, k);
    var o := order[..i] + order[i + 1..];
    assert forall j :: 0 <= j < |o| ==> o[j] == order[if j < i then j else j + 1];
  }

  lemma {:induction false} WithoutLists(order: seq<Key>, keys: set<Key>, k: Key)
    requires Lists(order, keys) && k in keys
    ensures Lists(Without(order, k), keys - {k}) && |Without(order, k)| == |order| - 1
  {
    WithoutDistinct(order, k);
    forall x ensures x in Without(order, k) <==> x in keys - {k} { WithoutMembers(order, k, x); }
  }

  lemma {:induction false} EvictKeyed(s: State)
    requires Keyed(s)
    ensures Keyed(Evict(s))
  {
    if s.order != [] {
      var keys := s.spans.Keys;
      assert forall k :: k in s.order <==> k == s.order[0] || k in s.order[1..];
      assert Lists(s.order[1..], keys - {s.order[0]});
      assert (s.spans - {s.order[0]}).Keys == keys - {s.order[0]};
    }
  }

  lemma {:induction false} AppendLists(order: seq<Key>, keys: set<Key>, k: Key)
    requires Lists(order, keys) && k !in keys
    ensures Lists(order + [k], keys + {k})
  {
  }

  lemma {:induction false} OpenExistingKeyed(s: State, k: Key)
    requires Keyed(s) && k in s.spans
    ensures Keyed(Open(s, k))
  {
    var keys := s.spans.Keys;
    WithoutLists(s.order, keys, k);
    AppendLists(Without(s.order, k), keys - {k}, k);
    assert keys - {k} + {k} == keys;
  }

  lemma {:induction false} AddGroupKeyed(s: State, k: Key)
    requires Keyed(s) && k !in s.spans
    ensures Keyed(AddGroup(s, k))
  {
    AppendLists(s.order, s.spans.Keys, k);
    assert AddGroup(s, k).spans.Keys == s.spans.Keys + {k};
  }

  lemma {:induction false} OpenKeyed(s: State, k: Key)
    requires Keyed(s)
    ensures Keyed(Open(s, k)) && k in Open(s, k).spans
  {
    if k in s.spans {
      OpenExistingKeyed(s, k);
    } else {
      EvictKeyed(s);
      AddGroupKeyed(if Evicts(s, k) then Evict(s) else s, k);
    }
  }

  lemma {:induction false} MergeKeyed(s: State, src: Key, dst: Key)
    requires Keyed(s) && dst in s.spans
    ensures Keyed(Merge(s, src, dst))
  {
    if src != dst && src in s.spans {
      WithoutLists(s.order, s.spans.Keys, src);
      assert Merge(s, src, dst).spans.Keys == s.spans.Keys - {src};
    }
  }

  lemma {:induction false} RecordKeyed(s: State, k: Key, sp: Span)
    requires Keyed(s) && k in s.spans
    ensures Keyed(Record(s, k, sp)) && Record(s, k, sp).order == s.order && k in Record(s, k, sp).spans
  {
    var t := Record(s, k, sp);
    assert t.spans.Keys == s.spans.Keys && t.seen.Keys == s.seen.Keys;
  }

  lemma {:induction false} JoinKeyed(s: State, k: Key, id: Id)
    requires Keyed(s) && k in s.spans
    ensures Keyed(Join(s, k, id))
  {
    if id != "" && id in s.waiting {
      MergeKeyed(s.(waiting := s.waiting - {id}), s.waiting[id], k);
    }
  }

  lemma {:induction false} IngestKeyed(s: State, e: Event)
    requires Keyed(s)
    ensures Keyed(Ingest(s, e))
  {
    var k := Choose(s, e);
    var t := Take(s, e);
    assert Keyed(t);
    OpenKeyed(t, k);
    PlaceKeyed(Open(t, k), k, e.span);
  }

  lemma {:induction false} PlaceKeyed(s: State, k: Key, sp: Span)
    requires Keyed(s) && k in s.spans
    ensures Keyed(Place(s, k, sp))
  {
    RecordKeyed(s, k, sp);
    JoinKeyed(Record(s, k, sp), k, sp.id);
  }

  // ----- runs -----

  /** The store after `es`, starting from `s`. */
  function Run(s: State, es: seq<Event>): (t: State)
    requires Keyed(s)
    ensures Keyed(t)
  {
    if es == [] then s
    else
      var t := Run(s, es[..|es| - 1]);
      IngestKeyed(t, es[|es| - 1]);
      Ingest(t, es[|es| - 1])
  }

  lemma {:induction false} RunStep(s: State, es: seq<Event>, n: nat)
    requires Keyed(s) && n < |es|
    ensures Run(s, es[..n + 1]) == Ingest(Run(s, es[..n]), es[n])
  {
    assert es[..n + 1][..n] == es[..n];
  }

  /** The spans of one `merge_spans` call, each with the wire trace id of the call. */
  function Batch(traceId: Key, spans: seq<Span>): seq<Event> {
    seq(|spans|, i requires 0 <= i < |spans| => Event(traceId, spans[i]))
  }

  // ----- the store -----

  class TraceStore {
    const maxTraces: nat
    var order: seq<Key>
    var traces: map<Key, seq<Span>>
    var seenSpans: map<Key, set<Id>>
    var spanToGroup: map<Id, Key>
    var parentToGroup: map<Id, Key>

    ghost function View(): State
      reads this
    {
      State(maxTraces, order, traces, seenSpans, spanToGroup, parentToGroup)
    }

    constructor (maxTraces: nat)
      ensures View() == Empty(maxTraces)
    {
      this.maxTraces := maxTraces;
      order, traces, seenSpans, spanToGroup, parentToGroup := [], map[], map[], map[], map[];
    }

    method EvictOldest()
      requires Keyed(View())
      modifies this
      ensures View() == Evict(old(View()))
      ensures old(order) != [] ==>
          traces == old(traces) - {old(order[0])} && seenSpans == old(seenSpans) - {old(order[0])}
      ensures old(order) != [] ==> forall sp :: sp in old(traces[order[0]]) ==>
          sp.id !in spanToGroup && sp.id !in parentToGroup
    {
      if order == [] {
        return;
      }
      var oldestId := order[0];
      var oldest := traces[oldestId];
      order, traces, seenSpans := order[1..], traces - {oldestId}, seenSpans - {oldestId};
      for i := 0 to |oldest|
        invariant order == old(order)[1..] && traces == old(traces) - {oldestId}
        invariant seenSpans == old(seenSpans) - {oldestId}
        invariant spanToGroup == old(spanToGroup) - Ids(oldest[..i])
        invariant parentToGroup == old(parentToGroup) - Ids(oldest[..i])
      {
        SubtractSnoc(old(spanToGroup), oldest, i);
        SubtractSnoc(old(parentToGroup), oldest, i);
        spanToGroup := spanToGroup - {oldest[i].id};
        parentToGroup := parentToGroup - {oldest[i].id};
      }
      assert oldest[..|oldest|] == oldest;
    }

    method MergeGroups(srcKey: Key, dstKey: Key)
      requires seenSpans.Keys == traces.Keys && dstKey in traces
      modifies this
      ensures View() == Merge(old(View()), srcKey, dstKey)
    {
      if srcKey == dstKey || srcKey !in traces {
        return;
      }
      var src := traces[srcKey];
      order, traces := Without(order, srcKey), traces - {srcKey};
      var dstSeen := seenSpans[dstKey];
      var srcSeen := seenSpans[srcKey];
      seenSpans := seenSpans - {srcKey};
      MoveSpans(src, dstKey);
      Reassign(srcSeen, dstKey);
      RedirectWaiting(srcKey, dstKey);
      AssignTwice(old(spanToGroup), Ids(src), srcSeen, dstKey);
    }

    /** The loop over the spans of the source group. */
    method MoveSpans(src: seq<Span>, dstKey: Key)
      requires dstKey in traces && dstKey in seenSpans
      modifies this`traces, this`seenSpans, this`spanToGroup
      ensures traces == old(traces)[dstKey := AppendUnseen(old(traces[dstKey]), old(seenSpans[dstKey]), src).0]
      ensures seenSpans == old(seenSpans)[dstKey := AppendUnseen(old(traces[dstKey]), old(seenSpans[dstKey]), src).1]
      ensures spanToGroup == Assign(old(spanToGroup), Ids(src), dstKey)
    {
      ghost var goal := AppendUnseen(traces[dstKey], seenSpans[dstKey], src);
      assert src[0..] == src;
      for i := 0 to |src|
        invariant dstKey in traces && traces == old(traces)[dstKey := traces[dstKey]]
        invariant dstKey in seenSpans && seenSpans == old(seenSpans)[dstKey := seenSpans[dstKey]]
        invariant AppendUnseen(traces[dstKey], seenSpans[dstKey], src[i..]) == goal
        invariant spanToGroup == Assign(old(spanToGroup), Ids(src[..i]), dstKey)
      {
        var sid := src[i].id;
        assert src[i..][1..] == src[i + 1..];
        if sid != "" && sid !in seenSpans[dstKey] {
          traces := traces[dstKey := traces[dstKey] + [src[i]]];
          seenSpans := seenSpans[dstKey := seenSpans[dstKey] + {sid}];
        }
        AssignSnoc(old(spanToGroup), src, i, dstKey);
        spanToGroup := spanToGroup[sid := dstKey];
      }
      assert src[..|src|] == src;
    }

    /** The loop over the seen ids of the source group. */
    method Reassign(ids: set<Id>, dstKey: Key)
      modifies this`spanToGroup
      ensures spanToGroup == Assign(old(spanToGroup), ids, dstKey)
    {
      var rest := ids;
      while rest != {}
        invariant rest <= ids
        invariant spanToGroup == Assign(old(spanToGroup), ids - rest, dstKey)
      {
        var sid :| sid in rest;
        spanToGroup := spanToGroup[sid := dstKey];
        rest := rest - {sid};
      }
    }

    /** The loop that redirects waiting parents from the source to the destination. */
    method RedirectWaiting(srcKey: Key, dstKey: Key)
      requires srcKey != dstKey
      modifies this`parentToGroup
      ensures parentToGroup == Redirect(old(parentToGroup), srcKey, dstKey)
    {
      var rest := parentToGroup.Keys;
      while rest != {}
        invariant rest <= parentToGroup.Keys == old(parentToGroup).Keys
        invariant forall p :: p in rest ==> parentToGroup[p] == old(parentToGroup)[p]
        invariant forall p :: p in parentToGroup.Keys - rest ==>
            parentToGroup[p] == Redirect(old(parentToGroup), srcKey, dstKey)[p]
      {
        var pid :| pid in rest;
        if parentToGroup[pid] == srcKey {
          parentToGroup := parentToGroup[pid := dstKey];
        }
        rest := rest - {pid};
      }
    }

    /** The body of the loop of `merge_spans`. */
    method MergeSpan(traceId: Key, span: Span)
      requires Keyed(View())
      modifies this
      ensures View() == Ingest(old(View()), Event(traceId, span))
    {
      ghost var s0, e := View(), Event(traceId, span);
      var groupKey := traceId;
      if span.parent != "" && span.parent in spanToGroup {
        groupKey := spanToGroup[span.parent];
      } else if span.id != "" && span.id in parentToGroup {
        groupKey := parentToGroup[span.id];
        parentToGroup := parentToGroup - {span.id};
      }
      assert groupKey == Choose(s0, e) && View() == Take(s0, e);
      OpenGroup(groupKey);
      OpenKeyed(Take(s0, e), groupKey);
      InsertSpan(groupKey, span);
    }

    method OpenGroup(groupKey: Key)
      requires Keyed(View())
      modifies this
      ensures View() == Open(old(View()), groupKey)
    {
      if groupKey !in traces {
        if |order| >= maxTraces {
          EvictOldest();
        }
        order, traces := order + [groupKey], traces[groupKey := []];
        seenSpans := seenSpans[groupKey := {}];
      } else {
        order := Without(order, groupKey) + [groupKey];
      }
    }

    method InsertSpan(groupKey: Key, span: Span)
      requires Keyed(View()) && groupKey in traces
      modifies this
      ensures View() == Place(old(View()), groupKey, span)
    {
      if span.id != "" && span.id in seenSpans[groupKey] {
        return;
      }
      RecordKeyed(View(), groupKey, span);
      if span.id != "" {
        seenSpans := seenSpans[groupKey := seenSpans[groupKey] + {span.id}];
        spanToGroup := spanToGroup[span.id := groupKey];
      }
      if |traces[groupKey]| < MAX_SPANS_PER_TRACE {
        traces := traces[groupKey := traces[groupKey] + [span]];
      }
      if span.parent != "" && span.parent !in spanToGroup {
        parentToGroup := parentToGroup[span.parent := groupKey];
      }
      assert View() == Record(old(View()), groupKey, span);
      if span.id != "" && span.id in parentToGroup {
        var other := parentToGroup[span.id];
        parentToGroup := parentToGroup - {span.id};
        if other != groupKey && other in traces {
          MergeGroups(other, groupKey);
        }
      }
    }

    method MergeSpans(traceId: Key, spans: seq<Span>)
      requires Keyed(View())
      modifies this
      ensures Keyed(View())
      ensures View() == Run(old(View()), Batch(traceId, spans))
    {
      ghost var es := Batch(traceId, spans);
      for i := 0 to |spans|
        invariant Keyed(View()) && View() == Run(old(View()), es[..i])
      {
        RunStep(old(View()), es, i);
        IngestKeyed(View(), es[i]);
        MergeSpan(traceId, spans[i]);
      }
      assert es[..|spans|] == es;
    }

    /** The groups, youngest first. */
    method Snapshot() returns (groups: seq<seq<Span>>)
      requires Keyed(View())
      ensures |groups| == |order|
      ensures forall i :: 0 <= i < |order| ==> groups[i] == traces[order[|order| - 1 - i]]
    {
      var keys, values := order, traces;
      groups := seq(|keys|, i requires 0 <= i < |keys| && (forall k :: k in keys ==> k in values) =>
        values[keys[|keys| - 1 - i]]);
    }
  }

  // ----- facts about the loops -----

  lemma {:induction false} AssignSnoc(m: map<Id, Key>, spans: seq<Span>, i: nat, k: Key)
    requires i < |spans|
    ensures Assign(m, Ids(spans[..i]), k)[spans[i].id := k] == Assign(m, Ids(spans[..i + 1]), k)
  {
    IdsSnoc(spans, i);
  }

  lemma {:induction false} SubtractSnoc(m: map<Id, Key>, spans: seq<Span>, i: nat)
    requires i < |spans|
    ensures m - Ids(spans[..i]) - {spans[i].id} == m - Ids(spans[..i + 1])
  {
    IdsSnoc(spans, i);
  }

  lemma {:induction false} AssignTwice(m: map<Id, Key>, a: set<Id>, b: set<Id>, k: Key)
    ensures Assign(Assign(m, a, k), b, k) == Assign(m, a + b, k)
  {
  }

  lemma {:induction false} IdsSnoc(spans: seq<Span>, i: nat)
    requires i < |spans|
    ensures Ids(spans[..i + 1]) == Ids(spans[..i]) + {spans[i].id}
  {
    assert spans[..i + 1] == spans[..i] + [spans[i]];
  }
}
