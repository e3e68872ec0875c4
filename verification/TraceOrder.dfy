/** In which order a trace group lists its spans (cli/planoai/trace_cmd.py, `merge_spans` and `_merge_groups`). */
module TraceOrder {
  import opened Collections
  import opened Traces
  import opened TraceInvariant

  // ----- what a merge appends -----

  /** The source span at `j` is new to the destination: it has a name that neither it nor the source has before. */
  ghost predicate NewAt(seen: set<Id>, src: seq<Span>, j: nat) {
    && j < |src| && src[j].id != "" && src[j].id !in seen
    && forall i :: 0 <= i < j ==> src[i].id != src[j].id
  }

  /** `more` are the new spans of the source, in its order; `at` is where they are. */
  ghost predicate PicksNew(seen: set<Id>, src: seq<Span>, more: seq<Span>, at: seq<nat>) {
    && |at| == |more|
    && (forall i, j :: 0 <= i < j < |at| ==> at[i] < at[j])
    && (forall i :: 0 <= i < |at| ==> at[i] < |src| && more[i] == src[at[i]])
    && (forall j: nat :: j in at <==> NewAt(seen, src, j))
  }

  lemma {:induction false} AppendSnoc(dst: seq<Span>, seen: set<Id>, src: seq<Span>, sp: Span)
    ensures var (spans, ids) := AppendUnseen(dst, seen, src);
            AppendUnseen(dst, seen, src + [sp])
            == if sp.id != "" && sp.id !in ids then (spans + [sp], ids + {sp.id}) else (spans, ids)
    decreases src
  {
    if src == [] {
      assert [sp][1..] == [] && src + [sp] == [sp];
    } else {
      var x := src[0];
      assert (src + [sp])[0] == x && (src + [sp])[1..] == src[1..] + [sp];
      if x.id != "" && x.id !in seen {
        AppendSnoc(dst + [x], seen + {x.id}, src[1..], sp);
      } else {
        AppendSnoc(dst, seen, src[1..], sp);
      }
    }
  }

  /** The ids seen after the merge: those before, and the named ones of the source. */
  lemma {:induction false} AppendIds(dst: seq<Span>, seen: set<Id>, src: seq<Span>, id: Id)
    ensures id in AppendUnseen(dst, seen, src).1
       <==> id in seen || (id != "" && exists i :: 0 <= i < |src| && src[i].id == id)
  {
    if src != [] {
      var n := |src| - 1;
      assert src == src[..n] + [src[n]];
      AppendSnoc(dst, seen, src[..n], src[n]);
      AppendIds(dst, seen, src[..n], id);
    }
  }

  lemma {:induction false} NewEarlier(seen: set<Id>, src: seq<Span>, j: nat)
    requires src != [] && j < |src| - 1
    ensures NewAt(seen, src, j) <==> NewAt(seen, src[..|src| - 1], j)
  {
  }

  lemma {:induction false} NewLast(dst: seq<Span>, seen: set<Id>, src: seq<Span>)
    requires src != []
    ensures var n := |src| - 1;
            NewAt(seen, src, n) <==> src[n].id != "" && src[n].id !in AppendUnseen(dst, seen, src[..n]).1
  {
    var n := |src| - 1;
    AppendIds(dst, seen, src[..n], src[n].id);
  }

  lemma {:induction false} PicksMore(seen: set<Id>, src: seq<Span>, more: seq<Span>, at: seq<nat>)
    requires src != [] && PicksNew(seen, src[..|src| - 1], more, at)
    ensures var n := |src| - 1;
            if NewAt(seen, src, n) then PicksNew(seen, src, more + [src[n]], at + [n])
            else PicksNew(seen, src, more, at)
  {
    var n := |src| - 1;
    var all := if NewAt(seen, src, n) then at + [n] else at;
    forall j: nat ensures j in all <==> NewAt(seen, src, j) {
      if j < n { NewEarlier(seen, src, j); }
      assert j in at <==> NewAt(seen, src[..n], j);
    }
  }

  /** A merge appends the new spans of the source, in their order, behind those of the destination. */
  lemma {:induction false} AppendIs(dst: seq<Span>, seen: set<Id>, src: seq<Span>)
      returns (more: seq<Span>, at: seq<nat>)
    ensures AppendUnseen(dst, seen, src).0 == dst + more && PicksNew(seen, src, more, at)
  {
    if src == [] {
      more, at := [], [];
      assert dst + [] == dst;
    } else {
      var n := |src| - 1;
      assert src == src[..n] + [src[n]];
      var before, places := AppendIs(dst, seen, src[..n]);
      AppendSnoc(dst, seen, src[..n], src[n]);
      NewLast(dst, seen, src);
      PicksMore(seen, src, before, places);
      if NewAt(seen, src, n) {
        more, at := before + [src[n]], places + [n];
        Associates(dst, before, [src[n]]);
      } else {
        more, at := before, places;
      }
    }
  }

  // ----- what an arrival appends -----

  /** The spans of a group, none when it does not exist. */
  function SpansOf(s: State, k: Key): seq<Span> {
    if k in s.spans then s.spans[k] else []
  }

  lemma {:induction false} RecordSpans(s: State, k: Key, sp: Span)
    requires Keyed(s) && k in s.spans
    ensures var r := Record(s, k, sp);
            && r.spans[k] == s.spans[k] + (if |s.spans[k]| < 500 then [sp] else [])
            && (forall j :: j in s.spans && j != k ==> r.spans[j] == s.spans[j])
            && r.seen[k] == if sp.id != "" then s.seen[k] + {sp.id} else s.seen[k]
  {
    assert s.spans[k] + [] == s.spans[k];
  }

  /**
   A span that its group has not seen goes behind the spans the group has, unless those are 500; behind
   it go the new spans of a group that waited for it, in their order.
   */
  lemma {:induction false} ArrivalAppends(s: State, k: Key, sp: Span) returns (more: seq<Span>, at: seq<nat>, src: Key)
    requires Keyed(s) && k in s.spans && (sp.id == "" || sp.id !in s.seen[k])
    ensures k in Place(s, k, sp).spans
    ensures Place(s, k, sp).spans[k] == s.spans[k] + (if |s.spans[k]| < 500 then [sp] else []) + more
    ensures more == []
         || (src != k && src in s.spans && PicksNew(s.seen[k] + {sp.id}, s.spans[src], more, at))
  {
    RecordKeyed(s, k, sp);
    RecordSpans(s, k, sp);
    var r := Record(s, k, sp);
    more, at, src := [], [], k;
    assert r.spans[k] + [] == r.spans[k];
    if sp.id != "" && sp.id in r.waiting && r.waiting[sp.id] != k && r.waiting[sp.id] in r.spans {
      src := r.waiting[sp.id];
      more, at := AppendIs(r.spans[k], r.seen[k], r.spans[src]);
    }
  }

  /** Over a whole delivery: the list of the chosen group grows at its end, and it is at most created. */
  lemma {:induction false} DeliveryAppends(s: State, e: Event) returns (more: seq<Span>)
    requires Keyed(s) && (e.span.id == "" || Choose(s, e) !in s.seen || e.span.id !in s.seen[Choose(s, e)])
    ensures Choose(s, e) in Ingest(s, e).spans
    ensures Ingest(s, e).spans[Choose(s, e)]
         == SpansOf(s, Choose(s, e)) + (if |SpansOf(s, Choose(s, e))| < 500 then [e.span] else []) + more
  {
    var k, t := Choose(s, e), Take(s, e);
    assert Keyed(t);
    OpenKeyed(t, k);
    OpenSpans(t, k);
    var at, src;
    more, at, src := ArrivalAppends(Open(t, k), k, e.span);
  }

  lemma {:induction false} OpenSpans(s: State, k: Key)
    requires Keyed(s)
    ensures k in Open(s, k).spans && Open(s, k).spans[k] == SpansOf(s, k)
    ensures k in Open(s, k).seen && Open(s, k).seen[k] == if k in s.seen then s.seen[k] else {}
  {
    OpenKeyed(s, k);
  }

  /** A group that has 500 spans takes no further one by arrival. */
  lemma {:induction false} FullGroupDrops(s: State, e: Event)
    requires Keyed(s) && e.span.id !in s.waiting && |SpansOf(s, Choose(s, e))| >= 500
    requires e.span.id == "" || e.span.id !in s.seen[Choose(s, e)]
    ensures Ingest(s, e).spans == s.spans
  {
    var k, t := Choose(s, e), Take(s, e);
    assert Keyed(t) && k in t.spans;
    OpenKeyed(t, k);
    OpenSpans(t, k);
    RecordKeyed(Open(t, k), k, e.span);
    var r := Record(Open(t, k), k, e.span);
    assert r.spans == s.spans;
    assert e.span.id != "" ==> e.span.id !in r.waiting;
  }
}
