/**
 Requests whose body depends on the iteration order of a hash map, or does not hold a default as it
 was declared (crates/common/src/path.rs, crates/prompt_gateway/src/tools.rs).
 */
module PathDefaults {
  import opened Wrappers
  import opened Strings
  import opened PercentEncoding
  import opened UrlJoin
  import opened PathTemplate
  import opened Tools
  import opened PathQuery
  import opened PathRequests
  import opened PathBodies

  // ----- names that are escaped alike -----

  /** The parameters outside the path stay apart when their names are escaped. */
  ghost predicate DistinctEscapes(params: map<string, string>, holes: set<string>) {
    forall j, k :: j in params && j !in holes && k in params && k !in holes &&
        Escaped(InQuery, j) == Escaped(InQuery, k)
      ==> j == k
  }

  /** Names outside the path that are escaped differently never clash. */
  lemma {:induction false} PostOrderIrrelevant(lib: Library, tokens: seq<Token>, params: Option<map<string, Value>>,
      declared: seq<Parameter>)
    requires Tame(tokens, FilterToolParams(params), declared) && SeparableNames(FilterToolParams(params), declared)
    requires DistinctEscapes(FilterToolParams(params), Holes(tokens))
    ensures OrderFree(lib, Template(tokens), params, declared)
  {
    forall j, k, q ensures !Clash(FilterToolParams(params), declared, Holes(tokens), j, k, q) {
      ClashIff(FilterToolParams(params), declared, Holes(tokens), j, k, q);
    }
    OrderMattersIff(lib, tokens, params, declared);
  }

  lemma {:induction false} SeparableNeverPanics(tokens: seq<Token>, params: map<string, string>,
      declared: seq<Parameter>)
    requires SeparableNames(params, declared) && '?' !in Expand(tokens, params)
    ensures !PostPanics(tokens, params, declared)
  {
    forall p | Sends(params, declared, Holes(tokens), p) ensures !Lacks(KeyValue(p)) {
      if p.0 in params { EncodeClean(params[p.0]); }
      assert KeyValue(p)[|p.0|] == '=';
      LacksWhole(KeyValue(p));
    }
  }

  lemma {:induction false} SpaceEscaped(a: string, b: string)
    requires Inert(InQuery, a) && Inert(InQuery, b)
    ensures Escaped(InQuery, a + " " + b) == a + "%20" + b
  {
    InertStays(InQuery, a);
    InertStays(InQuery, b);
    EscapedAppend(InQuery, a + " ", b);
    EscapedAppend(InQuery, a, " ");
    OneSpace();
  }

  lemma {:induction false} OneSpace()
    ensures Escaped(InQuery, " ") == "%20"
  {
    var bs := Utf8(' ');
    assert bs == [0x20] && bs[1..] == [];
    assert EscapeAll([]) == [] && Escape(0x20) == "%20";
    assert EscapeAll(bs) == "%20" && " "[1..] == "" && "%20" + "" == "%20";
  }

  lemma {:induction false} TwoClean(params: map<string, string>, j: string, k: string)
    requires params.Keys == {j, k} && AllClean(j) && AllClean(k) && Separable(j) && Separable(k)
    ensures CleanNames(params, []) && SeparableNames(params, [])
  {
  }

  /** Two parameters that are escaped alike, and sent with different values, show the order. */
  lemma {:induction false} EscapedAlike(lib: Library, path: string, params: Option<map<string, Value>>, j: string,
      k: string)
    requires PlainPath(path) && FilterToolParams(params).Keys == {j, k}
    requires AllClean(j) && AllClean(k) && Separable(j) && Separable(k)
    requires Escaped(InQuery, j) == Escaped(InQuery, k)
    requires Encode(FilterToolParams(params)[j]) != Encode(FilterToolParams(params)[k])
    ensures !OrderFree(lib, path, params, [])
  {
    var ps := FilterToolParams(params);
    TwoClean(ps, j, k);
    var tokens := PlainPathTame(path, ps, []);
    SeparableNeverPanics(tokens, ps, []);
    ClashIff(ps, [], Holes(tokens), j, k, Escaped(InQuery, k));
    assert Clash(ps, [], Holes(tokens), j, k, Escaped(InQuery, k));
    OrderMattersIff(lib, tokens, params, []);
  }

  lemma {:induction false} SpacedClean()
    ensures AllClean("a b") && AllClean("a%20b") && Separable("a b") && Separable("a%20b")
  {
  }

  lemma {:induction false} SpacedEscaped()
    ensures Escaped(InQuery, "a b") == "a%20b"
  {
    SpaceEscaped("a", "b");
    assert "a" + " " + "b" == "a b";
    assert "a" + "%20" + "b" == "a%20b";
  }

  lemma {:induction false} EscapeStays()
    ensures Escaped(InQuery, "a%20b") == "a%20b" != "a b"
  {
    assert "a b"[1] != "a%20b"[1];
    InertStays(InQuery, "a%20b");
  }

  lemma {:induction false} OneTwo()
    ensures Encode("1") != Encode("2")
  {
    InertStays(Component, "1");
    InertStays(Component, "2");
    assert "1"[0] != "2"[0];
  }

  lemma {:induction false} TwoStrings(params: Option<map<string, Value>>, j: string, k: string, u: string, v: string)
    requires j != k && params == Some(map[j := String(u), k := String(v)])
    ensures FilterToolParams(params) == map[j := u, k := v]
  {
  }

  /** "a b" and "a%20b" are such names: the body depends on which of them the hash map gives last. */
  lemma {:induction false} OrderMatters(lib: Library) returns (path: string, params: Option<map<string, Value>>)
    ensures path == "/x" && params == Some(map["a b" := String("1"), "a%20b" := String("2")])
    ensures !OrderFree(lib, path, params, [])
  {
    path, params := "/x", Some(map["a b" := String("1"), "a%20b" := String("2")]);
    PlainX();
    SpacedClean();
    SpacedEscaped();
    EscapeStays();
    OneTwo();
    TwoStrings(params, "a b", "a%20b", "1", "2");
    EscapedAlike(lib, path, params, "a b", "a%20b");
  }

  // ----- what becomes of a default -----

  /** The last declared parameter has this name and this default. */
  predicate Last(declared: seq<Parameter>, name: string, value: string) {
    declared != [] && declared[|declared| - 1] == Parameter(name, Some(value))
  }

  lemma {:induction false} DefaultsLast(declared: seq<Parameter>, name: string, value: string, supplied: set<string>)
    requires Last(declared, name, value) && name !in supplied
    ensures Defaults(declared, supplied) == Defaults(declared[..|declared| - 1], supplied) + [(name, value)]
  {
    var n := |declared| - 1;
    if n > 0 {
      DefaultsLast(declared[1..], name, value, supplied);
      assert declared[1..][..n - 1] == declared[..n][1..];
    }
  }

  lemma {:induction false} EscapedSameIff(es: EscapeSet, s: string)
    requires !es.Component?
    ensures Escaped(es, s) == s <==> Inert(es, s)
  {
    EscapedInert(es, s);
    if Inert(es, s) { InertStays(es, s); }
  }

  /** Under its name a pair puts a value without separators: its own, escaped, if that has none. */
  lemma {:induction false} PutsUnder(name: string, value: string)
    requires Separable(name) && Inert(InQuery, name) && !Lacks(KeyValue((name, value)))
    ensures var v := LastValue(Puts((name, value)), name);
            v.Some? && Separable(v.value) && (Separable(value) ==> v.value == Escaped(InQuery, value))
  {
    var p := (name, value);
    var pieces := SplitOn(KeyValue(EscapedPair(p)), '&');
    EscapedKeyValue(p);
    EscapedLacks(KeyValue(p));
    ParsePairsNone(pieces);
    InertStays(InQuery, name);
    ParsedEach(pieces);
    FirstPiece(name, Escaped(InQuery, value));
    KeyFirst(name, Escaped(InQuery, value)[..IndexOf(Escaped(InQuery, value), '&')]);
    ValuesSeparable(KeyValue(EscapedPair(p)), name);
    if Separable(value) {
      SeparablePuts(p);
      assert LastValue([EscapedPair(p)], name) == Some(Escaped(InQuery, value));
    }
  }

  lemma {:induction false} KeyFirst(name: string, a: string)
    requires '=' !in name
    ensures ParsePair(name + "=" + a).Some? && ParsePair(name + "=" + a).value.0 == name
  {
    assert name + "=" + a == name + (['='] + a);
    SplitOnFirst(name, '=', a);
  }

  lemma {:induction false} FirstPiece(name: string, value: string)
    requires '&' !in name
    ensures SplitOn(KeyValue((name, value)), '&')[0] == name + "=" + value[..IndexOf(value, '&')]
  {
    IndexOfFirst(value, '&');
    var i := IndexOf(value, '&');
    var a := value[..i];
    assert '&' !in name + "=" + a;
    if i == |value| {
      SplitOnNone(KeyValue((name, value)), '&');
      assert a == value;
    } else {
      CutAt(value, '&', i);
      assert KeyValue((name, value)) == (name + "=" + a) + (['&'] + value[i + 1..]);
      SplitOnFirst(name + "=" + a, '&', value[i + 1..]);
    }
  }

  lemma {:induction false} ValuesSeparable(s: string, k: string)
    requires ParsePairs(SplitOn(s, '&')).Some?
    ensures var ps := ParsePairs(SplitOn(s, '&')).value;
            && (LastValue(ps, k).Some? ==> Separable(LastValue(ps, k).value))
            && (ps != [] && ps[0].0 == k ==> LastValue(ps, k).Some?)
  {
    var pieces := SplitOn(s, '&');
    var ps := ParsePairs(pieces).value;
    SplitOnParts(s, '&');
    ParsedEach(pieces);
    forall i | 0 <= i < |ps| ensures Separable(ps[i].1) {
      assert pieces[i] in pieces;
      ParsedParts(pieces[i]);
    }
    LastValueAmong(ps, k);
  }

  lemma {:induction false} LastValueAmong(ps: seq<Pair>, k: string)
    ensures LastValue(ps, k).Some? ==> exists i :: 0 <= i < |ps| && ps[i] == (k, LastValue(ps, k).value)
    ensures LastValue(ps, k).None? ==> forall i :: 0 <= i < |ps| ==> ps[i].0 != k
  {
    if ps != [] && ps[|ps| - 1].0 != k {
      LastValueAmong(ps[..|ps| - 1], k);
      if LastValue(ps, k).Some? {
        var i :| 0 <= i < |ps| - 1 && ps[..|ps| - 1][i] == (k, LastValue(ps, k).value);
        assert ps[i] == (k, LastValue(ps, k).value);
      }
    }
  }

  /** The last default decides what is under its name. */
  lemma {:induction false} LastDefault(order: seq<string>, params: map<string, string>, declared: seq<Parameter>,
      name: string, value: string, holes: set<string>, own: seq<Pair>)
    requires Iterates(order, params) && name !in params && name !in holes && Last(declared, name, value)
    requires LastValue(Puts((name, value)), name).Some?
    ensures MapGet(BodyPut(QueryPairs(order, params, declared, holes), own), name)
         == LastValue(Puts((name, value)), name)
  {
    var before := Defaults(declared[..|declared| - 1], holes + params.Keys);
    BodyLookup(order, params, declared, holes, own, name);
    DefaultsLast(declared, name, value, holes + params.Keys);
    AllPutsConcat(before, [(name, value)]);
    assert [(name, value)][1..] == [] && Puts((name, value)) + [] == Puts((name, value));
    LastValueConcat(AllPuts(before), Puts((name, value)), name);
  }

  lemma {:induction false} DefaultSent(tokens: seq<Token>, params: map<string, string>, declared: seq<Parameter>,
      name: string, value: string)
    requires !PostPanics(tokens, params, declared) && Parameter(name, Some(value)) in declared
    requires Holes(tokens) <= params.Keys && name !in params
    ensures !Lacks(KeyValue((name, value)))
  {
    assert Sends(params, declared, Holes(tokens), (name, value));
  }

  /**
   The last declared default, if its parameter was not supplied, is in the body as it was declared iff
   the URL has nothing in it to escape, and no separator is in it.
   */
  lemma {:induction false} DefaultKeptIff(lib: Library, tokens: seq<Token>, params: Option<map<string, Value>>,
      order: seq<string>, declared: seq<Parameter>, name: string, value: string)
    requires Tame(tokens, FilterToolParams(params), declared) && !PostPanics(tokens, FilterToolParams(params), declared)
    requires Iterates(order, FilterToolParams(params)) && Holes(tokens) <= FilterToolParams(params).Keys
    requires Last(declared, name, value) && name !in FilterToolParams(params)
    requires Separable(name) && Inert(InQuery, name)
    ensures var r := ComputeRequest(lib, Template(tokens), params, order, declared, POST);
            && r.Built? && r.request.body.Some? && name in r.request.body.value
            && (r.request.body.value[name] == value <==> Inert(InQuery, value) && Separable(value))
            && (Separable(value) ==> r.request.body.value[name] == Escaped(InQuery, value))
  {
    var ps, holes := FilterToolParams(params), Holes(tokens);
    PostBody(lib, tokens, params, order, declared);
    DefaultSent(tokens, ps, declared, name, value);
    PutsUnder(name, value);
    LastDefault(order, ps, declared, name, value, holes, OwnPuts(Expand(tokens, ps), NoPairs(ps, declared, holes)));
    EscapedSameIff(InQuery, value);
  }

  lemma {:induction false} CityClean()
    ensures CleanValue("New York") && Separable("New York") && AllUnreserved("city")
    ensures Inert(InQuery, "New") && Inert(InQuery, "York")
  {
    assert "New York"[7] == 'k';
  }

  lemma {:induction false} CityEscaped()
    ensures Escaped(InQuery, "New York") == "New%20York"
  {
    CityClean();
    SpaceEscaped("New", "York");
    assert "New" + " " + "York" == "New York";
    assert "New" + "%20" + "York" == "New%20York";
  }

  lemma {:induction false} OneClean(params: map<string, string>, declared: seq<Parameter>, name: string, value: string)
    requires AllClean(name) && Separable(name) && CleanValue(value) && Separable(value)
    requires params.Keys == {} && declared == [Parameter(name, Some(value))]
    ensures CleanNames(params, declared) && SeparableNames(params, declared)
  {
  }

  /** A POST without parameters, to a path without placeholders, with one default. */
  lemma {:induction false} OneDefault(lib: Library, path: string, params: Option<map<string, Value>>,
      order: seq<string>, declared: seq<Parameter>, name: string, value: string)
    requires PlainPath(path) && AllUnreserved(name) && CleanValue(value) && Separable(value)
    requires FilterToolParams(params).Keys == {} && order == [] && declared == [Parameter(name, Some(value))]
    ensures var r := ComputeRequest(lib, path, params, order, declared, POST);
            r.Built? && r.request.body.Some? && MapGet(r.request.body.value, name) == Some(Escaped(InQuery, value))
  {
    var ps := FilterToolParams(params);
    UnreservedStays(name);
    OneClean(ps, declared, name, value);
    var tokens := PlainPathTame(path, ps, declared);
    SeparableNeverPanics(tokens, ps, declared);
    DefaultKeptIff(lib, tokens, params, order, declared, name, value);
  }

  /** "New York" is not. */
  lemma {:induction false} DefaultEscaped(lib: Library) returns (path: string, declared: seq<Parameter>)
    ensures path == "/x" && declared == [Parameter("city", Some("New York"))]
    ensures var r := ComputeRequest(lib, path, None, [], declared, POST);
            r.Built? && r.request.body.Some? && MapGet(r.request.body.value, "city") == Some("New%20York")
  {
    path, declared := "/x", [Parameter("city", Some("New York"))];
    PlainX();
    CityClean();
    CityEscaped();
    OneDefault(lib, path, None, [], declared, "city", "New York");
  }
}
