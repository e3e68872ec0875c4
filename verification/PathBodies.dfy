/** The body of a POST: on what it depends, and what becomes of a default (crates/prompt_gateway/src/tools.rs). */
module PathBodies {
  import opened Wrappers
  import opened Strings
  import opened Collections
  import opened PercentEncoding
  import opened UrlJoin
  import opened PathTemplate
  import opened Tools
  import opened PathQuery
  import opened PathRequests

  // ----- maps of pairs -----

  function LastValue(ps: seq<Pair>, k: string): Option<string> {
    if ps == [] then None
    else if ps[|ps| - 1].0 == k then Some(ps[|ps| - 1].1)
    else LastValue(ps[..|ps| - 1], k)
  }

  function OrElse(a: Option<string>, b: Option<string>): Option<string> {
    if a.Some? then a else b
  }

  lemma {:induction false} PutAllLookup(m: map<string, string>, ps: seq<Pair>, k: string)
    ensures MapGet(PutAll(m, ps), k) == OrElse(LastValue(ps, k), MapGet(m, k))
    decreases |ps|
  {
    if ps != [] {
      var n := |ps| - 1;
      PutAllLookup(m, ps[..n], k);
      assert ps == ps[..n] + [ps[n]];
      PutAllSplit(m, ps[..n], [ps[n]]);
      assert [ps[n]][1..] == [];
    }
  }

  lemma {:induction false} LastValueConcat(a: seq<Pair>, b: seq<Pair>, k: string)
    ensures LastValue(a + b, k) == OrElse(LastValue(b, k), LastValue(a, k))
    decreases |b|
  {
    if b == [] {
      assert a + b == a;
    } else {
      var n := |b| - 1;
      assert (a + b)[..|a + b| - 1] == a + b[..n];
      LastValueConcat(a, b[..n], k);
    }
  }

  lemma {:induction false} MapsEqual(a: map<string, string>, b: map<string, string>)
    requires forall k :: MapGet(a, k) == MapGet(b, k)
    ensures a == b
  {
    forall k ensures k in a <==> k in b { assert MapGet(a, k) == MapGet(b, k); }
    forall k | k in a ensures a[k] == b[k] { assert MapGet(a, k) == MapGet(b, k); }
  }

  // ----- the appended pairs, whatever the iteration order -----

  function EncodedParams(params: map<string, string>, replaced: set<string>): map<string, string> {
    map k | k in params && k !in replaced :: Encode(params[k])
  }

  /** Putting the pairs of a map, in any order, is overriding by the map. */
  lemma {:induction false} PutOverrides(before: map<string, string>, ps: seq<Pair>, m: map<string, string>)
    requires forall i, j :: 0 <= i < j < |ps| ==> ps[i].0 != ps[j].0
    requires forall p :: p in ps <==> p.0 in m && p.1 == m[p.0]
    ensures PutAll(before, ps) == before + m
  {
    var all := PutAll(before, ps);
    PutDistinct(before, ps);
    forall k ensures MapGet(all, k) == MapGet(before + m, k) {
      if k in m { assert (k, m[k]) in ps; }
    }
    MapsEqual(all, before + m);
  }

  /** The parameters that are not in the path, and the defaults. */
  function QueryMap(params: map<string, string>, declared: seq<Parameter>, replaced: set<string>): map<string, string> {
    PutAll(EncodedParams(params, replaced), Defaults(declared, replaced + params.Keys))
  }

  /** The map of the appended pairs does not depend on the iteration order. */
  lemma {:induction false} QueryMapIs(order: seq<string>, params: map<string, string>, declared: seq<Parameter>,
      replaced: set<string>)
    requires Iterates(order, params)
    ensures PutAll(map[], QueryPairs(order, params, declared, replaced)) == QueryMap(params, declared, replaced)
  {
    PutAllSplit(map[], Remaining(order, params, replaced), Defaults(declared, replaced + params.Keys));
    RemainingExactly(order, params, replaced);
    PutOverrides(map[], Remaining(order, params, replaced), EncodedParams(params, replaced));
    assert map[] + EncodedParams(params, replaced) == EncodedParams(params, replaced);
  }

  /** What is put again changes nothing. */
  lemma {:induction false} PutAgain(ps: seq<Pair>)
    ensures PutAll(PutAll(map[], ps), ps) == PutAll(map[], ps)
  {
    forall k ensures MapGet(PutAll(PutAll(map[], ps), ps), k) == MapGet(PutAll(map[], ps), k) {
      PutAllLookup(PutAll(map[], ps), ps, k);
      PutAllLookup(map[], ps, k);
    }
    MapsEqual(PutAll(PutAll(map[], ps), ps), PutAll(map[], ps));
  }

  /**
   With names and defaults of unreserved characters, splitting the query recovers exactly the pairs
   that were appended, and the body of a POST is the parameters that are not in the path and the
   defaults.
   */
  lemma {:induction false} UnreservedTemplate(lib: Library, tokens: seq<Token>, params: Option<map<string, Value>>,
      order: seq<string>, declared: seq<Parameter>)
    requires WellFormed(tokens) && NoQuestion(tokens) && Holes(tokens) <= FilterToolParams(params).Keys
    requires UnreservedNames(FilterToolParams(params), declared) && Iterates(order, FilterToolParams(params))
    requires TameUrl(Expand(tokens, FilterToolParams(params)))
    ensures var ps, holes := FilterToolParams(params), Holes(tokens);
            var path, pairs := JoinedPath(lib, Expand(tokens, ps)), QueryPairs(order, ps, declared, holes);
            && ComputeRequest(lib, Template(tokens), params, order, declared, POST)
                == Built(Request(path, Some(QueryMap(ps, declared, holes))))
            && ComputeRequest(lib, Template(tokens), params, order, declared, GET)
                == Built(Request(path + "?" + JoinPairs(pairs), None))
            && (pairs != [] ==> ParsePairs(SplitOn(JoinPairs(pairs), '&')) == Some(pairs))
  {
    var ps, holes := FilterToolParams(params), Holes(tokens);
    var pairs := QueryPairs(order, ps, declared, holes);
    UnreservedTame(ps, declared);
    UnreservedSent(order, ps, declared, holes);
    SentSeparable(order, ps, declared, holes);
    PlainTemplate(lib, tokens, params, order, declared);
    QueryMapIs(order, ps, declared, holes);
    PutAgain(pairs);
  }

  // ----- what a pair puts into the body -----

  /** What the pieces of one pair say, as the URL has it. */
  function Puts(p: Pair): seq<Pair> {
    var read := ParsePairs(SplitOn(KeyValue(EscapedPair(p)), '&'));
    if read.Some? then read.value else []
  }

  function AllPuts(pairs: seq<Pair>): seq<Pair> {
    if pairs == [] then [] else Puts(pairs[0]) + AllPuts(pairs[1..])
  }

  lemma {:induction false} PiecesPut(pairs: seq<Pair>)
    requires ParsePairs(PiecesOf(EscapedPairs(pairs))).Some?
    ensures ParsePairs(PiecesOf(EscapedPairs(pairs))) == Some(AllPuts(pairs))
  {
    if pairs != [] {
      var es := EscapedPairs(pairs);
      assert es[1..] == EscapedPairs(pairs[1..]);
      ParsePairsConcat(SplitOn(KeyValue(es[0]), '&'), PiecesOf(es[1..]));
      PiecesPut(pairs[1..]);
    }
  }

  lemma {:induction false} AllPutsConcat(a: seq<Pair>, b: seq<Pair>)
    ensures AllPuts(a + b) == AllPuts(a) + AllPuts(b)
  {
    if a == [] {
      assert a + b == b;
    } else {
      assert (a + b)[1..] == a[1..] + b;
      AllPutsConcat(a[1..], b);
      Associates(Puts(a[0]), AllPuts(a[1..]), AllPuts(b));
    }
  }

  lemma {:induction false} SeparablePuts(p: Pair)
    requires Separable(p.0) && Separable(p.1)
    ensures Puts(p) == [EscapedPair(p)]
  {
    SeparableEscaped(p.0);
    SeparableEscaped(p.1);
    var e := EscapedPair(p);
    ParseOne(e.0, e.1);
    SplitOnNone(KeyValue(e), '&');
    assert [KeyValue(e)][1..] == [] && ParsePairs([]) == Some([]) && ParsePair(KeyValue(e)) == Some(e);
  }

  /** The body of a POST that does not panic. */
  function BodyPut(pairs: seq<Pair>, own: seq<Pair>): map<string, string> {
    PutAll(PutAll(PutAll(map[], pairs), own), AllPuts(pairs))
  }

  /** The outcome of a POST, with the body apart. */
  lemma {:induction false} OutcomePut(lib: Library, tokens: seq<Token>, params: map<string, string>,
      order: seq<string>, declared: seq<Parameter>)
    requires Iterates(order, params) && FirstMissing(tokens, params).None? && !PostPanics(tokens, params, declared)
    ensures var url, pairs := Expand(tokens, params), QueryPairs(order, params, declared, Holes(tokens));
            var own := ParsePairs(OwnPieces(url, NoPairs(params, declared, Holes(tokens))));
            && own.Some?
            && PostOutcome(lib, tokens, params, order, declared)
               == Built(Request(JoinedPath(lib, BeforeQuery(url)), Some(BodyPut(pairs, own.value))))
  {
    var url, pairs := Expand(tokens, params), QueryPairs(order, params, declared, Holes(tokens));
    var pieces := OwnPieces(url, pairs == []);
    OutcomePanicsIff(lib, tokens, params, order, declared);
    NoPairsIff(order, params, declared, Holes(tokens));
    ParsePairsConcat(pieces, PiecesOf(EscapedPairs(pairs)));
    PiecesPut(pairs);
    PutAllSplit(PutAll(map[], pairs), ParsePairs(pieces).value, AllPuts(pairs));
  }

  /** The body, key by key: the defaults first, then the parameters, then what does not depend on their order. */
  lemma {:induction false} BodyLookup(order: seq<string>, params: map<string, string>, declared: seq<Parameter>,
      holes: set<string>, own: seq<Pair>, q: string)
    requires Iterates(order, params)
    ensures MapGet(BodyPut(QueryPairs(order, params, declared, holes), own), q)
         == OrElse(LastValue(AllPuts(Defaults(declared, holes + params.Keys)), q),
                   OrElse(LastValue(AllPuts(Remaining(order, params, holes)), q),
                          MapGet(PutAll(QueryMap(params, declared, holes), own), q)))
  {
    var rem, defs := Remaining(order, params, holes), Defaults(declared, holes + params.Keys);
    QueryMapIs(order, params, declared, holes);
    AllPutsConcat(rem, defs);
    PutAllLookup(PutAll(QueryMap(params, declared, holes), own), AllPuts(rem) + AllPuts(defs), q);
    LastValueConcat(AllPuts(rem), AllPuts(defs), q);
  }

  // ----- when the iteration order matters -----

  /** What a parameter that is not in the path puts under a key. */
  ghost function ValueAt(params: map<string, string>, k: string, q: string): Option<string>
    requires k in params
  {
    LastValue(Puts((k, Encode(params[k]))), q)
  }

  /** Two parameters outside the path put different values under a key that no default overrides. */
  ghost predicate Clash(params: map<string, string>, declared: seq<Parameter>, holes: set<string>, j: string,
      k: string, q: string)
  {
    && j in params && j !in holes && k in params && k !in holes
    && ValueAt(params, j, q).Some? && ValueAt(params, k, q).Some? && ValueAt(params, j, q) != ValueAt(params, k, q)
    && LastValue(AllPuts(Defaults(declared, holes + params.Keys)), q).None?
  }

  lemma {:induction false} LastPutFrom(pairs: seq<Pair>, q: string)
    ensures LastValue(AllPuts(pairs), q).Some? ==>
        exists p :: p in pairs && LastValue(Puts(p), q) == LastValue(AllPuts(pairs), q)
    ensures LastValue(AllPuts(pairs), q).None? ==> forall p :: p in pairs ==> LastValue(Puts(p), q).None?
  {
    if pairs != [] {
      assert pairs == [pairs[0]] + pairs[1..];
      LastPutFrom(pairs[1..], q);
      LastValueConcat(Puts(pairs[0]), AllPuts(pairs[1..]), q);
    }
  }

  lemma {:induction false} RemainingPuts(order: seq<string>, params: map<string, string>, holes: set<string>, q: string)
    requires Iterates(order, params)
    ensures var v := LastValue(AllPuts(Remaining(order, params, holes)), q);
            && (v.Some? ==> exists k :: k in params && k !in holes && ValueAt(params, k, q) == v)
            && (v.None? ==> forall k :: k in params && k !in holes ==> ValueAt(params, k, q).None?)
  {
    var rem := Remaining(order, params, holes);
    RemainingExactly(order, params, holes);
    LastPutFrom(rem, q);
    var v := LastValue(AllPuts(rem), q);
    if v.Some? {
      var p :| p in rem && LastValue(Puts(p), q) == v;
      assert p == (p.0, Encode(params[p.0]));
      assert ValueAt(params, p.0, q) == v;
    } else {
      forall k | k in params && k !in holes ensures ValueAt(params, k, q).None? {
        assert (k, Encode(params[k])) in rem;
      }
    }
  }

  lemma {:induction false} SameBody(a: seq<string>, b: seq<string>, params: map<string, string>,
      declared: seq<Parameter>, holes: set<string>, own: seq<Pair>)
    requires Iterates(a, params) && Iterates(b, params)
    requires forall j, k, q :: !Clash(params, declared, holes, j, k, q)
    ensures BodyPut(QueryPairs(a, params, declared, holes), own) == BodyPut(QueryPairs(b, params, declared, holes), own)
  {
    var x := BodyPut(QueryPairs(a, params, declared, holes), own);
    var y := BodyPut(QueryPairs(b, params, declared, holes), own);
    forall q ensures MapGet(x, q) == MapGet(y, q) {
      BodyLookup(a, params, declared, holes, own, q);
      BodyLookup(b, params, declared, holes, own, q);
      if LastValue(AllPuts(Defaults(declared, holes + params.Keys)), q).None? {
        SamePuts(a, b, params, declared, holes, q);
      }
    }
    MapsEqual(x, y);
  }

  lemma {:induction false} SamePuts(a: seq<string>, b: seq<string>, params: map<string, string>,
      declared: seq<Parameter>, holes: set<string>, q: string)
    requires Iterates(a, params) && Iterates(b, params)
    requires forall j, k :: !Clash(params, declared, holes, j, k, q)
    requires LastValue(AllPuts(Defaults(declared, holes + params.Keys)), q).None?
    ensures LastValue(AllPuts(Remaining(a, params, holes)), q) == LastValue(AllPuts(Remaining(b, params, holes)), q)
  {
    RemainingPuts(a, params, holes, q);
    RemainingPuts(b, params, holes, q);
    var u, v := LastValue(AllPuts(Remaining(a, params, holes)), q), LastValue(AllPuts(Remaining(b, params, holes)), q);
    if u.Some? && v.Some? {
      var j :| j in params && j !in holes && ValueAt(params, j, q) == u;
      var k :| k in params && k !in holes && ValueAt(params, k, q) == v;
      assert !Clash(params, declared, holes, j, k, q);
    }
  }

  /** The names of a set, in some order. */
  lemma {:induction false} Listing(names: set<string>) returns (order: seq<string>)
    ensures forall k :: k in order <==> k in names
    ensures forall i, j :: 0 <= i < j < |order| ==> order[i] != order[j]
  {
    order := [];
    if names != {} {
      var k :| k in names;
      var rest := Listing(names - {k});
      order := [k] + rest;
    }
  }

  /** An iteration that comes to a given name last. */
  lemma {:induction false} EndingIn(params: map<string, string>, k: string) returns (order: seq<string>)
    requires k in params
    ensures Iterates(order + [k], params)
  {
    order := Listing(params.Keys - {k});
  }

  lemma {:induction false} RemainingLast(order: seq<string>, params: map<string, string>, holes: set<string>, k: string)
    requires (forall x :: x in order + [k] ==> x in params) && k in params && k !in holes
    ensures Remaining(order + [k], params, holes) == Remaining(order, params, holes) + [(k, Encode(params[k]))]
  {
    if order == [] {
      assert order + [k] == [k] && [k][1..] == [];
    } else {
      assert (order + [k])[1..] == order[1..] + [k] && (order + [k])[0] == order[0];
      RemainingLast(order[1..], params, holes, k);
      var p := if order[0] in holes then [] else [(order[0], Encode(params[order[0]]))];
      Associates(p, Remaining(order[1..], params, holes), [(k, Encode(params[k]))]);
    }
  }

  /** Of the parameters that put something under a key, the one that comes last is in the body. */
  lemma {:induction false} LastIsInBody(order: seq<string>, params: map<string, string>, declared: seq<Parameter>,
      holes: set<string>, own: seq<Pair>, k: string, q: string)
    requires Iterates(order + [k], params) && k in params && k !in holes && ValueAt(params, k, q).Some?
    requires LastValue(AllPuts(Defaults(declared, holes + params.Keys)), q).None?
    ensures MapGet(BodyPut(QueryPairs(order + [k], params, declared, holes), own), q) == ValueAt(params, k, q)
  {
    var p, rem := (k, Encode(params[k])), Remaining(order, params, holes);
    BodyLookup(order + [k], params, declared, holes, own, q);
    RemainingLast(order, params, holes, k);
    AllPutsConcat(rem, [p]);
    assert [p][1..] == [] && Puts(p) + [] == Puts(p);
    LastValueConcat(AllPuts(rem), Puts(p), q);
  }

  /** The outcome of a POST is the same for every iteration order. */
  ghost predicate OrderFree(lib: Library, path: string, params: Option<map<string, Value>>, declared: seq<Parameter>) {
    forall a, b :: Iterates(a, FilterToolParams(params)) && Iterates(b, FilterToolParams(params)) ==>
      ComputeRequest(lib, path, params, a, declared, POST) == ComputeRequest(lib, path, params, b, declared, POST)
  }

  /**
   The outcome of a POST depends on the iteration order of the hash map iff it is a request, and two
   parameters outside the path put different values under a key that no default overrides.
   */
  lemma {:induction false} OrderMattersIff(lib: Library, tokens: seq<Token>, params: Option<map<string, Value>>,
      declared: seq<Parameter>)
    requires Tame(tokens, FilterToolParams(params), declared)
    ensures OrderFree(lib, Template(tokens), params, declared)
       <==> (var ps, holes := FilterToolParams(params), Holes(tokens);
             !(holes <= ps.Keys) || PostPanics(tokens, ps, declared)
             || forall j, k, q :: !Clash(ps, declared, holes, j, k, q))
  {
    var ps, holes := FilterToolParams(params), Holes(tokens);
    MissingIff(tokens, ps);
    if holes <= ps.Keys && !PostPanics(tokens, ps, declared) {
      if j, k, q :| Clash(ps, declared, holes, j, k, q) {
        ClashShows(lib, tokens, params, declared, j, k, q);
      } else {
        forall a, b | Iterates(a, ps) && Iterates(b, ps)
          ensures ComputeRequest(lib, Template(tokens), params, a, declared, POST)
               == ComputeRequest(lib, Template(tokens), params, b, declared, POST)
        {
          SameOutcome(lib, tokens, params, a, b, declared);
        }
      }
    } else {
      forall a, b | Iterates(a, ps) && Iterates(b, ps)
        ensures ComputeRequest(lib, Template(tokens), params, a, declared, POST)
             == ComputeRequest(lib, Template(tokens), params, b, declared, POST)
      {
        PostExactly(lib, tokens, params, a, declared);
        PostExactly(lib, tokens, params, b, declared);
        OutcomePanicsIff(lib, tokens, ps, a, declared);
        OutcomePanicsIff(lib, tokens, ps, b, declared);
      }
    }
  }

  /** What the template's own query puts. */
  function OwnPuts(url: string, nothing: bool): seq<Pair> {
    var own := ParsePairs(OwnPieces(url, nothing));
    if own.Some? then own.value else []
  }

  /** A POST that is built. */
  lemma {:induction false} PostBody(lib: Library, tokens: seq<Token>, params: Option<map<string, Value>>,
      order: seq<string>, declared: seq<Parameter>)
    requires Tame(tokens, FilterToolParams(params), declared) && Iterates(order, FilterToolParams(params))
    requires Holes(tokens) <= FilterToolParams(params).Keys
    requires !PostPanics(tokens, FilterToolParams(params), declared)
    ensures var ps, holes := FilterToolParams(params), Holes(tokens);
            var url := Expand(tokens, ps);
            ComputeRequest(lib, Template(tokens), params, order, declared, POST)
            == Built(Request(JoinedPath(lib, BeforeQuery(url)),
                Some(BodyPut(QueryPairs(order, ps, declared, holes), OwnPuts(url, NoPairs(ps, declared, holes))))))
  {
    MissingIff(tokens, FilterToolParams(params));
    PostExactly(lib, tokens, params, order, declared);
    OutcomePut(lib, tokens, FilterToolParams(params), order, declared);
  }

  lemma {:induction false} SameOutcome(lib: Library, tokens: seq<Token>, params: Option<map<string, Value>>,
      a: seq<string>, b: seq<string>, declared: seq<Parameter>)
    requires Tame(tokens, FilterToolParams(params), declared)
    requires Iterates(a, FilterToolParams(params)) && Iterates(b, FilterToolParams(params))
    requires Holes(tokens) <= FilterToolParams(params).Keys
    requires !PostPanics(tokens, FilterToolParams(params), declared)
    requires forall j, k, q :: !Clash(FilterToolParams(params), declared, Holes(tokens), j, k, q)
    ensures ComputeRequest(lib, Template(tokens), params, a, declared, POST)
         == ComputeRequest(lib, Template(tokens), params, b, declared, POST)
  {
    var ps, holes := FilterToolParams(params), Holes(tokens);
    PostBody(lib, tokens, params, a, declared);
    PostBody(lib, tokens, params, b, declared);
    SameBody(a, b, ps, declared, holes, OwnPuts(Expand(tokens, ps), NoPairs(ps, declared, holes)));
  }

  /** With a clash, two iterations give two bodies. */
  lemma {:induction false} ClashShows(lib: Library, tokens: seq<Token>, params: Option<map<string, Value>>,
      declared: seq<Parameter>, j: string, k: string, q: string)
    requires Tame(tokens, FilterToolParams(params), declared)
    requires Holes(tokens) <= FilterToolParams(params).Keys
    requires !PostPanics(tokens, FilterToolParams(params), declared)
    requires Clash(FilterToolParams(params), declared, Holes(tokens), j, k, q)
    ensures !OrderFree(lib, Template(tokens), params, declared)
  {
    var a := BodyEndingIn(lib, tokens, params, declared, j, q);
    var b := BodyEndingIn(lib, tokens, params, declared, k, q);
  }

  /** An iteration whose body has what a given parameter puts under a key. */
  lemma {:induction false} BodyEndingIn(lib: Library, tokens: seq<Token>, params: Option<map<string, Value>>,
      declared: seq<Parameter>, k: string, q: string) returns (order: seq<string>)
    requires Tame(tokens, FilterToolParams(params), declared)
    requires Holes(tokens) <= FilterToolParams(params).Keys
    requires !PostPanics(tokens, FilterToolParams(params), declared)
    requires var ps, holes := FilterToolParams(params), Holes(tokens);
             && k in ps && k !in holes && ValueAt(ps, k, q).Some?
             && LastValue(AllPuts(Defaults(declared, holes + ps.Keys)), q).None?
    ensures Iterates(order, FilterToolParams(params))
    ensures var r := ComputeRequest(lib, Template(tokens), params, order, declared, POST);
            && r.Built? && r.request.body.Some?
            && MapGet(r.request.body.value, q) == ValueAt(FilterToolParams(params), k, q)
  {
    var ps, holes := FilterToolParams(params), Holes(tokens);
    var before := EndingIn(ps, k);
    order := before + [k];
    PostBody(lib, tokens, params, order, declared);
    LastIsInBody(before, ps, declared, holes, OwnPuts(Expand(tokens, ps), NoPairs(ps, declared, holes)), k, q);
  }

  /** For names that the separators do not cut, names clash that are escaped alike. */
  lemma {:induction false} ClashIff(params: map<string, string>, declared: seq<Parameter>, holes: set<string>,
      j: string, k: string, q: string)
    requires SeparableNames(params, declared)
    ensures Clash(params, declared, holes, j, k, q)
       <==> (&& j in params && j !in holes && k in params && k !in holes
             && Escaped(InQuery, j) == q == Escaped(InQuery, k) && Encode(params[j]) != Encode(params[k])
             && forall d :: d in declared && d.default.Some? && d.name !in holes + params.Keys ==>
                    Escaped(InQuery, d.name) != q)
  {
    if j in params && j !in holes && k in params && k !in holes {
      SeparableValueAt(params, j, q);
      SeparableValueAt(params, k, q);
      DefaultsOverride(params, declared, holes, q);
    }
  }

  lemma {:induction false} SeparableValueAt(params: map<string, string>, k: string, q: string)
    requires k in params && Separable(k)
    ensures ValueAt(params, k, q) == if Escaped(InQuery, k) == q then Some(Encode(params[k])) else None
  {
    EncodeClean(params[k]);
    SeparablePuts((k, Encode(params[k])));
    EscapedInert(InQuery, params[k]);
    InertStays(InQuery, Encode(params[k]));
    var e := EscapedPair((k, Encode(params[k])));
    assert LastValue([e][..0], q).None?;
  }

  lemma {:induction false} DefaultsOverride(params: map<string, string>, declared: seq<Parameter>, holes: set<string>,
      q: string)
    requires SeparableNames(params, declared)
    ensures LastValue(AllPuts(Defaults(declared, holes + params.Keys)), q).None?
       <==> forall d :: d in declared && d.default.Some? && d.name !in holes + params.Keys ==>
                Escaped(InQuery, d.name) != q
  {
    var defs := Defaults(declared, holes + params.Keys);
    DefaultsExactly(declared, holes + params.Keys);
    LastPutFrom(defs, q);
    forall p | p in defs ensures LastValue(Puts(p), q).None? <==> Escaped(InQuery, p.0) != q {
      assert Parameter(p.0, Some(p.1)) in declared;
      SeparablePuts(p);
      assert LastValue([EscapedPair(p)][..0], q).None?;
    }
    if LastValue(AllPuts(defs), q).None? {
      forall d | d in declared && d.default.Some? && d.name !in holes + params.Keys
        ensures Escaped(InQuery, d.name) != q
      {
        assert d == Parameter(d.name, Some(d.default.value)) && (d.name, d.default.value) in defs;
      }
    }
  }
}
