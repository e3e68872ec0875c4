/**
 The per-request mapping and buffer store (demos/filter_chains/pii_anonymizer/store.py). Requests
 are interleaved; each is restored as if it were alone, until its mapping expires.
 */
module PiiStore {
  import opened Collections
  import opened Strings
  import opened PiiReplace
  import opened PiiStream

  const MAPPING_TTL_SECONDS: int := 300

  /** The module dictionaries. Times are in seconds. */
  datatype State = State(mappings: map<string, (Mapping, int)>, buffers: map<string, string>)

  function Expired(s: State, now: int): set<string> {
    set k | k in s.mappings && now - s.mappings[k].1 > MAPPING_TTL_SECONDS
  }

  function CleanedUp(s: State, now: int): State {
    State(s.mappings - Expired(s, now), s.buffers - Expired(s, now))
  }

  function BufferOf(s: State, id: string): string {
    if id in s.buffers then s.buffers[id] else ""
  }

  function WithBuffer(s: State, id: string, buffer: string): State {
    s.(buffers := if buffer != [] then s.buffers[id := buffer] else s.buffers - {id})
  }

  /** A request stores its mapping, or restores one chunk of its stream. */
  datatype Event =
    | Store(id: string, mapping: Mapping, now: int, stamp: int)
    | Chunk(id: string, content: string, mapping: Mapping)

  function Step(s: State, e: Event): State {
    match e
    case Store(id, mapping, now, stamp) =>
      var t := CleanedUp(s, now);
      t.(mappings := t.mappings[id := (mapping, stamp)])
    case Chunk(id, content, mapping) =>
      WithBuffer(s, id, Deanonymized(mapping, BufferOf(s, id) + content).1)
  }

  /** The text a chunk event returns. */
  function Output(s: State, e: Event): string
    requires e.Chunk?
  {
    Deanonymized(e.mapping, BufferOf(s, e.id) + e.content).0
  }

  class MappingStore {
    var mappings: map<string, (Mapping, int)>
    var buffers: map<string, string>

    ghost function View(): State
      reads this
    {
      State(mappings, buffers)
    }

    constructor ()
      ensures View() == State(map[], map[])
    {
      mappings, buffers := map[], map[];
    }

    method CleanupExpired(now: int)
      modifies this
      ensures View() == CleanedUp(old(View()), now)
      ensures forall id :: id in mappings <==> id in old(mappings) && now - old(mappings)[id].1 <= 300
    {
      var expired := set k | k in mappings && now - mappings[k].1 > MAPPING_TTL_SECONDS;
      var rest := expired;
      while rest != {}
        invariant rest <= expired
        invariant mappings == old(mappings) - (expired - rest)
        invariant buffers == old(buffers) - (expired - rest)
      {
        var k :| k in rest;
        mappings, buffers, rest := mappings - {k}, buffers - {k}, rest - {k};
      }
    }

    /** `now` and `stamp` are the two clock readings of the call. */
    method StoreMapping(id: string, mapping: Mapping, now: int, stamp: int)
      modifies this
      ensures View() == Step(old(View()), Store(id, mapping, now, stamp))
    {
      CleanupExpired(now);
      mappings := mappings[id := (mapping, stamp)];
    }

    method RestoreStreaming(id: string, content: string, mapping: Mapping) returns (restored: string)
      modifies this
      ensures restored == Output(old(View()), Chunk(id, content, mapping))
      ensures View() == Step(old(View()), Chunk(id, content, mapping))
    {
      var buffer := if id in buffers then buffers[id] else "";
      var remaining;
      restored, remaining := DeanonymizeText(content, mapping, buffer);
      assert (restored, remaining) == Deanonymized(mapping, BufferOf(View(), id) + content);
      if remaining != [] {
        buffers := buffers[id := remaining];
      } else {
        buffers := buffers - {id};
      }
    }
  }

  // ----- interleaved requests -----

  function Chunks(es: seq<Event>, id: string): seq<string> {
    if es == [] then []
    else (if es[0].Chunk? && es[0].id == id then [es[0].content] else []) + Chunks(es[1..], id)
  }

  /** Everything request `id` is sent in a run. */
  function Received(s: State, es: seq<Event>, id: string): string
    decreases |es|
  {
    if es == [] then []
    else (if es[0].Chunk? && es[0].id == id then Output(s, es[0]) else []) + Received(Step(s, es[0]), es[1..], id)
  }

  function Run(s: State, es: seq<Event>): State
    decreases |es|
  {
    if es == [] then s else Run(Step(s, es[0]), es[1..])
  }

  /** Every chunk of the request comes with the mapping `m`, and no cleanup finds its mapping expired. */
  ghost predicate Served(s: State, es: seq<Event>, id: string, m: Mapping)
    decreases |es|
  {
    es == [] ||
    (&& (es[0].Chunk? && es[0].id == id ==> es[0].mapping == m)
     && (es[0].Store? ==> id !in Expired(s, es[0].now))
     && Served(Step(s, es[0]), es[1..], id, m))
  }

  lemma {:induction false} OwnChunk(s: State, e: Event, m: Mapping)
    requires e.Chunk? && e.mapping == m
    ensures (Output(s, e), BufferOf(Step(s, e), e.id)) == Deanonymized(m, BufferOf(s, e.id) + e.content)
  {
  }

  lemma {:induction false} OtherStep(s: State, e: Event, id: string)
    requires (e.Chunk? ==> e.id != id) && (e.Store? ==> id !in Expired(s, e.now))
    ensures BufferOf(Step(s, e), id) == BufferOf(s, id)
  {
  }

  lemma {:induction false} StreamCons(m: Mapping, content: string, rest: seq<string>, buffer: string)
    ensures var (restored, remaining) := Deanonymized(m, buffer + content);
            Stream(m, [content] + rest, buffer)
            == (restored + Stream(m, rest, remaining).0, Stream(m, rest, remaining).1)
  {
    assert ([content] + rest)[1..] == rest;
  }

  /** The request is sent, and its buffer is left, as a stream of its own. */
  ghost predicate Alone(s: State, es: seq<Event>, id: string, m: Mapping) {
    var (restored, remaining) := Stream(m, Chunks(es, id), BufferOf(s, id));
    restored == Received(s, es, id) && remaining == BufferOf(Run(s, es), id)
  }

  lemma {:induction false} AloneOwn(s: State, es: seq<Event>, id: string, m: Mapping)
    requires es != [] && es[0].Chunk? && es[0].id == id && es[0].mapping == m
    requires Alone(Step(s, es[0]), es[1..], id, m)
    ensures Alone(s, es, id, m)
  {
    var e, rest := es[0], Chunks(es[1..], id);
    OwnChunk(s, e, m);
    StreamCons(m, e.content, rest, BufferOf(s, id));
    assert Chunks(es, id) == [e.content] + rest;
  }

  lemma {:induction false} AloneOther(s: State, es: seq<Event>, id: string, m: Mapping)
    requires es != [] && (es[0].Chunk? ==> es[0].id != id) && (es[0].Store? ==> id !in Expired(s, es[0].now))
    requires Alone(Step(s, es[0]), es[1..], id, m)
    ensures Alone(s, es, id, m)
  {
    OtherStep(s, es[0], id);
    var rest, received := Chunks(es[1..], id), Received(Step(s, es[0]), es[1..], id);
    assert [] + rest == rest && [] + received == received;
    assert Chunks(es, id) == rest && Received(s, es, id) == received;
  }

  /** Other requests do not matter: the request is restored as a stream of its own. */
  lemma {:induction false} Isolated(s: State, es: seq<Event>, id: string, m: Mapping)
    requires Served(s, es, id, m)
    ensures Stream(m, Chunks(es, id), BufferOf(s, id)) == (Received(s, es, id), BufferOf(Run(s, es), id))
  {
    IsAlone(s, es, id, m);
  }

  lemma {:induction false} IsAlone(s: State, es: seq<Event>, id: string, m: Mapping)
    requires Served(s, es, id, m)
    ensures Alone(s, es, id, m)
    decreases |es|
  {
    if es != [] {
      IsAlone(Step(s, es[0]), es[1..], id, m);
      if es[0].Chunk? && es[0].id == id { AloneOwn(s, es, id, m); } else { AloneOther(s, es, id, m); }
    }
  }

  /**
   Any interleaving and any chunking of a request gives what one call on its whole text gives: the
   same output and the same text still held back.
   */
  lemma {:induction false} StreamedAsWhole(s: State, es: seq<Event>, id: string, m: Mapping)
    requires Served(s, es, id, m) && id !in s.buffers
    requires ShapedMapping(m) && NoCreation(m)
    ensures Deanonymized(m, Concat(Chunks(es, id))) == (Received(s, es, id), BufferOf(Run(s, es), id))
  {
    Isolated(s, es, id, m);
    HoldEmptyText(m);
    StreamIsWhole(m, Chunks(es, id), []);
    assert [] + Concat(Chunks(es, id)) == Concat(Chunks(es, id));
  }

  // ----- in time -----

  /** A cleanup leaves exactly the mappings of the last 300 seconds; a buffer goes with its mapping. */
  lemma {:induction false} CleanupIff(s: State, now: int, id: string)
    ensures id in CleanedUp(s, now).mappings <==> id in s.mappings && now - s.mappings[id].1 <= 300
    ensures id in CleanedUp(s, now).buffers
       <==> id in s.buffers && (id !in s.mappings || now - s.mappings[id].1 <= 300)
  {
  }

  /** The request stores nothing more, its chunks come with its mapping, and no store comes after `until`. */
  ghost predicate Timely(es: seq<Event>, id: string, m: Mapping, until: int) {
    forall e :: e in es ==>
      if e.Store? then e.id != id && e.now <= until else e.id == id ==> e.mapping == m
  }

  lemma {:induction false} TimelyServed(s: State, es: seq<Event>, id: string, m: Mapping, until: int)
    requires Timely(es, id, m, until) && id in s.mappings && until <= s.mappings[id].1 + 300
    ensures Served(s, es, id, m)
    decreases |es|
  {
    if es != [] {
      var e, t := es[0], Step(s, es[0]);
      assert e in es && forall x :: x in es[1..] ==> x in es;
      if e.Store? { CleanupIff(s, e.now, id); }
      assert id in t.mappings && t.mappings[id] == s.mappings[id];
      TimelyServed(t, es[1..], id, m, until);
    }
  }

  /**
   A request that stores its mapping, and whose chunks come before any store that is more than 300
   seconds later, gets what one call on its whole text gives, whatever other requests do in between.
   */
  lemma {:induction false} StoredThenStreamed(s: State, id: string, m: Mapping, now: int, stamp: int, es: seq<Event>)
    requires ShapedMapping(m) && NoCreation(m) && id !in s.buffers && Timely(es, id, m, stamp + 300)
    ensures var t := Step(s, Store(id, m, now, stamp));
            Deanonymized(m, Concat(Chunks(es, id))) == (Received(t, es, id), BufferOf(Run(t, es), id))
  {
    var t := Step(s, Store(id, m, now, stamp));
    TimelyServed(t, es, id, m, stamp + 300);
    StreamedAsWhole(t, es, id, m);
  }
}
