/** The requests that reach developer endpoints, end to end (crates/prompt_gateway/src/tools.rs). */
module PathRequests {
  import opened Wrappers
  import opened Strings
  import opened Collections
  import opened PercentEncoding
  import opened UrlJoin
  import opened PathTemplate
  import opened Tools
  import opened PathQuery

  // ----- what is required of names, defaults and template -----

  ghost predicate AllClean(s: string) {
    forall c :: c in s ==> Clean(c)
  }

  ghost predicate CleanValue(v: string) {
    AllClean(v) && (v != [] ==> !Trims(v[|v| - 1]))
  }

  /** Names and defaults of which the URL parser strips nothing, and that begin no fragment. */
  ghost predicate CleanNames(params: map<string, string>, declared: seq<Parameter>) {
    && (forall k :: k in params ==> AllClean(k))
    && (forall d :: d in declared ==> AllClean(d.name) && (d.default.Some? ==> CleanValue(d.default.value)))
  }

  /** An expanded template that the URL parser takes whole, as a path of this host, with or without a query. */
  ghost predicate TameUrl(url: string) {
    Kept(url) && '#' !in url && !Foreign(url)
  }

  ghost predicate Tame(tokens: seq<Token>, params: map<string, string>, declared: seq<Parameter>) {
    && WellFormed(tokens) && CleanNames(params, declared)
    && (FirstMissing(tokens, params).None? ==> TameUrl(Expand(tokens, params)))
  }

  lemma {:induction false} EncodeClean(s: string)
    ensures CleanValue(Encode(s)) && Separable(Encode(s)) && '?' !in Encode(s)
  {
    EscapedChars(Component, s);
    var t := Encode(s);
    assert t != [] ==> t[|t| - 1] in t;
  }

  // ----- what the query consists of -----

  /** The pair is sent: a tool parameter that is not in the path, encoded, or a default that was not supplied. */
  ghost predicate Sends(params: map<string, string>, declared: seq<Parameter>, holes: set<string>, p: Pair) {
    || (p.0 in params && p.0 !in holes && p.1 == Encode(params[p.0]))
    || (p.0 !in params && p.0 !in holes && Parameter(p.0, Some(p.1)) in declared)
  }

  lemma {:induction false} PairsAreSent(order: seq<string>, params: map<string, string>, declared: seq<Parameter>,
      holes: set<string>)
    requires Iterates(order, params)
    ensures forall p :: p in QueryPairs(order, params, declared, holes) <==> Sends(params, declared, holes, p)
  {
    RemainingExactly(order, params, holes);
    DefaultsExactly(declared, holes + params.Keys);
  }

  lemma {:induction false} SentClean(order: seq<string>, params: map<string, string>, declared: seq<Parameter>,
      holes: set<string>)
    requires Iterates(order, params) && CleanNames(params, declared)
    ensures CleanPairs(QueryPairs(order, params, declared, holes))
  {
    PairsAreSent(order, params, declared, holes);
    forall p | p in QueryPairs(order, params, declared, holes) ensures CleanPair(p) {
      if p.0 in params { EncodeClean(params[p.0]); }
    }
  }

  /** Every parameter is in the path, and no default is added. */
  predicate NoPairs(params: map<string, string>, declared: seq<Parameter>, holes: set<string>) {
    params.Keys <= holes && Defaults(declared, holes + params.Keys) == []
  }

  lemma {:induction false} NothingRemains(order: seq<string>, params: map<string, string>, replaced: set<string>)
    requires forall k :: k in order ==> k in params
    ensures Remaining(order, params, replaced) == [] <==> forall k :: k in order ==> k in replaced
  {
    if order != [] {
      assert order == [order[0]] + order[1..];
      NothingRemains(order[1..], params, replaced);
    }
  }

  lemma {:induction false} NoPairsIff(order: seq<string>, params: map<string, string>, declared: seq<Parameter>,
      holes: set<string>)
    requires Iterates(order, params)
    ensures QueryPairs(order, params, declared, holes) == [] <==> NoPairs(params, declared, holes)
  {
    NothingRemains(order, params, holes);
  }

  // ----- the outcome of a POST -----

  /** The pieces of the query of its own that the joined template has; none when the whole query is empty. */
  function OwnPieces(url: string, nothing: bool): seq<string> {
    if '?' !in url || (Static(url) == [] && nothing) then [] else SplitOn(Escaped(InQuery, Static(url)), '&')
  }

  /**
   The outcome of a POST in terms of template, parameters and declarations: the body is the appended
   pairs, overridden by what the pieces of the query say.
   */
  function PostOutcome(lib: Library, tokens: seq<Token>, params: map<string, string>, order: seq<string>,
      declared: seq<Parameter>): Outcome
    requires forall k :: k in order ==> k in params
  {
    if FirstMissing(tokens, params).Some? then Failed(MissingValue(FirstMissing(tokens, params).value))
    else
      var url, pairs := Expand(tokens, params), QueryPairs(order, params, declared, Holes(tokens));
      var read := ParsePairs(OwnPieces(url, pairs == []) + PiecesOf(EscapedPairs(pairs)));
      if read.None? then Panic
      else
        Built(Request(JoinedPath(lib, BeforeQuery(url)), Some(PutAll(PutAll(map[], pairs), read.value))))
  }

  /** The request before its body is read back. */
  lemma {:induction false} Replaces(lib: Library, tokens: seq<Token>, params: map<string, string>, order: seq<string>,
      declared: seq<Parameter>)
    requires Tame(tokens, params, declared) && Iterates(order, params) && FirstMissing(tokens, params).None?
    ensures var url, pairs := Expand(tokens, params), QueryPairs(order, params, declared, Holes(tokens));
            ReplaceParams(lib, Template(tokens), order, params, declared)
            == Ok(Replaced(JoinedPath(lib, BeforeQuery(url)),
                PrintedQuery(EscapedOf(StaticOf(url)), EscapedPairs(pairs)), PutAll(map[], pairs)))
  {
    TemplateExpands(tokens, params);
    var url, pairs := Expand(tokens, params), QueryPairs(order, params, declared, Holes(tokens));
    SentClean(order, params, declared, Holes(tokens));
    JoinedUrl(lib, url, pairs);
    EscapedPrinted(StaticOf(url), pairs);
  }

  lemma {:induction false} PrintedEmptyIff(fixed: Option<string>, pairs: seq<Pair>)
    ensures PrintedQuery(fixed, pairs) == [] <==> pairs == [] && (fixed.Some? ==> fixed.value == [])
  {
    if pairs != [] {
      var kv := KeyValue(pairs[0]);
      assert kv[|pairs[0].0|] == '=' && JoinPairs(pairs) != [];
    }
  }

  /** Reading the printed query back is putting what its pieces say. */
  lemma {:induction false} QueryRead(url: string, pairs: seq<Pair>, extra: map<string, string>)
    ensures var read := ParsePairs(OwnPieces(url, pairs == []) + PiecesOf(EscapedPairs(pairs)));
            ReadBack(PrintedQuery(EscapedOf(StaticOf(url)), EscapedPairs(pairs)), extra)
            == if read.None? then None else Some(PutAll(extra, read.value))
  {
    var fixed, es := EscapedOf(StaticOf(url)), EscapedPairs(pairs);
    PrintedEmptyIff(fixed, es);
    EscapedNotEmpty(InQuery, Static(url));
    if PrintedQuery(fixed, es) == [] {
      assert OwnPieces(url, pairs == []) + PiecesOf(es) == [];
    } else {
      SplitPrinted(fixed, es);
    }
  }

  /** A POST is exactly this, for whatever template, parameters and defaults of which nothing is stripped. */
  lemma {:induction false} PostExactly(lib: Library, tokens: seq<Token>, params: Option<map<string, Value>>,
      order: seq<string>, declared: seq<Parameter>)
    requires Tame(tokens, FilterToolParams(params), declared) && Iterates(order, FilterToolParams(params))
    ensures ComputeRequest(lib, Template(tokens), params, order, declared, POST)
        == PostOutcome(lib, tokens, FilterToolParams(params), order, declared)
  {
    var ps := FilterToolParams(params);
    TemplateExpands(tokens, ps);
    if FirstMissing(tokens, ps).None? {
      var url, pairs := Expand(tokens, ps), QueryPairs(order, ps, declared, Holes(tokens));
      Replaces(lib, tokens, ps, order, declared);
      QueryRead(url, pairs, PutAll(map[], pairs));
    }
  }

  // ----- when it panics -----

  /** A piece of the text has no '='. */
  ghost predicate Lacks(s: string) {
    exists piece :: piece in SplitOn(s, '&') && '=' !in piece
  }

  lemma {:induction false} ParsePairNone(piece: string)
    ensures ParsePair(piece).None? <==> '=' !in piece
  {
    IndexOfFirst(piece, '=');
  }

  lemma {:induction false} ParsePairsNone(pieces: seq<string>)
    ensures ParsePairs(pieces).None? <==> exists piece :: piece in pieces && '=' !in piece
  {
    if pieces != [] {
      assert pieces == [pieces[0]] + pieces[1..];
      ParsePairNone(pieces[0]);
      ParsePairsNone(pieces[1..]);
    }
  }

  lemma {:induction false} LacksFirst(a: string, b: string)
    requires '&' !in a
    ensures Lacks(a + (['&'] + b)) <==> '=' !in a || Lacks(b)
  {
    SplitOnFirst(a, '&', b);
    var pieces := SplitOn(b, '&');
    assert a in [a] + pieces && forall piece :: piece in pieces ==> piece in [a] + pieces;
  }

  lemma {:induction false} LacksWhole(a: string)
    requires '&' !in a
    ensures Lacks(a) <==> '=' !in a
  {
    SplitOnNone(a, '&');
    assert a in [a];
  }

  lemma {:induction false} EscapedLacks(s: string)
    ensures Lacks(Escaped(InQuery, s)) <==> Lacks(s)
    decreases |s|
  {
    IndexOfFirst(s, '&');
    var i := IndexOf(s, '&');
    var a := s[..i];
    EscapedHas(InQuery, a, '&');
    EscapedHas(InQuery, a, '=');
    if i == |s| {
      assert a == s;
      LacksWhole(s);
      LacksWhole(Escaped(InQuery, s));
    } else {
      var b := s[i + 1..];
      CutAt(s, '&', i);
      EscapedAppend(InQuery, a, ['&'] + b);
      EscapedAppend(InQuery, "&", b);
      InertStays(InQuery, "&");
      LacksFirst(a, b);
      LacksFirst(Escaped(InQuery, a), Escaped(InQuery, b));
      EscapedLacks(b);
    }
  }

  lemma {:induction false} PiecesLack(pairs: seq<Pair>)
    ensures (exists piece :: piece in PiecesOf(EscapedPairs(pairs)) && '=' !in piece)
       <==> exists p :: p in pairs && Lacks(KeyValue(p))
  {
    if pairs != [] {
      var p, rest := pairs[0], pairs[1..];
      assert pairs == [p] + rest && EscapedPairs(pairs)[1..] == EscapedPairs(rest);
      PiecesLack(rest);
      EscapedKeyValue(p);
      EscapedLacks(KeyValue(p));
    }
  }

  /** The template has a query of its own, or a pair is appended behind an empty one, and a piece of it lacks '='. */
  ghost predicate OwnLacks(url: string, nothing: bool) {
    '?' in url && !(Static(url) == [] && nothing) && Lacks(Static(url))
  }

  lemma {:induction false} OwnPiecesLack(url: string, nothing: bool)
    ensures (exists piece :: piece in OwnPieces(url, nothing) && '=' !in piece) <==> OwnLacks(url, nothing)
  {
    EscapedLacks(Static(url));
  }

  /** The placeholders have values, and a piece of the query has no '='. */
  ghost predicate PostPanics(tokens: seq<Token>, params: map<string, string>, declared: seq<Parameter>) {
    var url, holes := Expand(tokens, params), Holes(tokens);
    && holes <= params.Keys
    && ((exists p :: Sends(params, declared, holes, p) && Lacks(KeyValue(p)))
        || OwnLacks(url, NoPairs(params, declared, holes)))
  }

  lemma {:induction false} OutcomePanicsIff(lib: Library, tokens: seq<Token>, params: map<string, string>,
      order: seq<string>, declared: seq<Parameter>)
    requires Iterates(order, params)
    ensures PostOutcome(lib, tokens, params, order, declared).Panic? <==> PostPanics(tokens, params, declared)
  {
    var url, pairs := Expand(tokens, params), QueryPairs(order, params, declared, Holes(tokens));
    var own, sent := OwnPieces(url, pairs == []), PiecesOf(EscapedPairs(pairs));
    MissingIff(tokens, params);
    PairsAreSent(order, params, declared, Holes(tokens));
    NoPairsIff(order, params, declared, Holes(tokens));
    ParsePairsNone(own + sent);
    OwnPiecesLack(url, pairs == []);
    PiecesLack(pairs);
  }

  /**
   A POST panics iff the template expands and a piece of the query lacks '=': of a pair that is sent,
   where names and defaults are not encoded, or of the query that the template has itself.
   */
  lemma {:induction false} PostPanicsIff(lib: Library, tokens: seq<Token>, params: Option<map<string, Value>>,
      order: seq<string>, declared: seq<Parameter>)
    requires Tame(tokens, FilterToolParams(params), declared) && Iterates(order, FilterToolParams(params))
    ensures ComputeRequest(lib, Template(tokens), params, order, declared, POST).Panic?
       <==> PostPanics(tokens, FilterToolParams(params), declared)
  {
    PostExactly(lib, tokens, params, order, declared);
    OutcomePanicsIff(lib, tokens, FilterToolParams(params), order, declared);
  }

  lemma {:induction false} LiteralTemplate(path: string, params: map<string, string>)
    ensures Template([Lit(path)]) == path && Holes([Lit(path)]) == {} && FirstMissing([Lit(path)], params).None?
    ensures Expand([Lit(path)], params) == path
  {
    assert [Lit(path)][1..] == [] && path + [] == path;
  }

  /** A path without placeholders and without anything to escape. */
  ghost predicate PlainPath(path: string) {
    path != [] && path[0] == '/' && (|path| > 1 ==> path[1] != '/') && AllUnreservedOrSlash(path)
  }

  lemma {:induction false} PlainPathTame(path: string, params: map<string, string>, declared: seq<Parameter>)
      returns (tokens: seq<Token>)
    requires PlainPath(path) && CleanNames(params, declared)
    ensures Tame(tokens, params, declared) && '?' !in path && BeforeQuery(path) == path
    ensures Template(tokens) == path && Holes(tokens) == {} && Expand(tokens, params) == path
  {
    tokens := [Lit(path)];
    LiteralTemplate(path, params);
    IndexOfFirst(path, '?');
    assert path[..|path|] == path && path[|path| - 1] in path && (|path| > 1 ==> path[1] in path);
  }

  ghost predicate AllUnreservedOrSlash(s: string) {
    forall c :: c in s ==> Unreserved(c) || c == '/'
  }

  /** A default with a piece that lacks '=' makes every POST without its parameter panic. */
  lemma {:induction false} DefaultPanics(lib: Library, path: string, d: Parameter)
    requires PlainPath(path)
    requires AllClean(d.name) && d.default.Some? && CleanValue(d.default.value)
    requires Lacks(d.name + "=" + d.default.value)
    ensures ComputeRequest(lib, path, None, [], [d], POST) == Panic
  {
    var tokens := PlainPathTame(path, map[], [d]);
    assert Sends(map[], [d], {}, (d.name, d.default.value));
    PostPanicsIff(lib, tokens, None, [], [d]);
  }

  /** Such a default is "R&D": its second half is a piece without '='. */
  lemma {:induction false} AmpersandPanics(lib: Library) returns (path: string, d: Parameter)
    ensures path == "/x" && d == Parameter("dept", Some("R&D"))
    ensures ComputeRequest(lib, path, None, [], [d], POST) == Panic
  {
    path, d := "/x", Parameter("dept", Some("R&D"));
    PlainX();
    HalvesLack();
    DefaultPanics(lib, path, d);
  }

  lemma {:induction false} PlainX()
    ensures PlainPath("/x")
  {
    assert "/x"[1] == 'x';
  }

  lemma {:induction false} HalvesLack()
    ensures AllClean("dept") && CleanValue("R&D") && Lacks("dept" + "=" + "R&D")
  {
    assert "R&D"[2] == 'D';
    assert "dept" + "=" + "R&D" == "dept=R" + (['&'] + "D");
    LacksFirst("dept=R", "D");
    LacksWhole("D");
  }

  // ----- names and defaults that the separators do not cut -----

  /**
   The body of a POST: the appended pairs, then what the query of the template itself says, then the
   appended pairs once more, as the URL has them.
   */
  function BodyOf(pairs: seq<Pair>, own: seq<Pair>): map<string, string> {
    PutAll(PutAll(PutAll(map[], pairs), own), EscapedPairs(pairs))
  }

  lemma {:induction false} SeparableRead(own: seq<string>, pairs: seq<Pair>)
    requires SeparablePairs(pairs)
    ensures ParsePairs(own + PiecesOf(EscapedPairs(pairs)))
         == if ParsePairs(own).None? then None else Some(ParsePairs(own).value + EscapedPairs(pairs))
  {
    EscapedSeparable(pairs);
    ParsePieces(EscapedPairs(pairs));
    ParsePairsConcat(own, PiecesOf(EscapedPairs(pairs)));
  }

  ghost predicate SeparableNames(params: map<string, string>, declared: seq<Parameter>) {
    && (forall k :: k in params ==> Separable(k))
    && (forall d :: d in declared ==> Separable(d.name) && (d.default.Some? ==> Separable(d.default.value)))
  }

  lemma {:induction false} SentSeparable(order: seq<string>, params: map<string, string>, declared: seq<Parameter>,
      holes: set<string>)
    requires Iterates(order, params) && SeparableNames(params, declared)
    ensures SeparablePairs(QueryPairs(order, params, declared, holes))
  {
    PairsAreSent(order, params, declared, holes);
    forall p | p in QueryPairs(order, params, declared, holes) ensures Separable(p.0) && Separable(p.1) {
      if p.0 in params { EncodeClean(params[p.0]); }
    }
  }

  /** Then only the template's own query can make the unwrap fail, and the body is this. */
  lemma {:induction false} PostSeparable(lib: Library, tokens: seq<Token>, params: Option<map<string, Value>>,
      order: seq<string>, declared: seq<Parameter>)
    requires Tame(tokens, FilterToolParams(params), declared) && Iterates(order, FilterToolParams(params))
    requires SeparableNames(FilterToolParams(params), declared)
    requires Holes(tokens) <= FilterToolParams(params).Keys
    ensures var ps := FilterToolParams(params);
            var url, pairs := Expand(tokens, ps), QueryPairs(order, ps, declared, Holes(tokens));
            var own := ParsePairs(OwnPieces(url, pairs == []));
            ComputeRequest(lib, Template(tokens), params, order, declared, POST)
            == if own.None? then Panic
               else Built(Request(JoinedPath(lib, BeforeQuery(url)), Some(BodyOf(pairs, own.value))))
  {
    var ps := FilterToolParams(params);
    var url, pairs := Expand(tokens, ps), QueryPairs(order, ps, declared, Holes(tokens));
    MissingIff(tokens, ps);
    PostExactly(lib, tokens, params, order, declared);
    SentSeparable(order, ps, declared, Holes(tokens));
    SeparableRead(OwnPieces(url, pairs == []), pairs);
    var own := ParsePairs(OwnPieces(url, pairs == []));
    if own.Some? { PutAllSplit(PutAll(map[], pairs), own.value, EscapedPairs(pairs)); }
  }

  // ----- templates without a query -----

  /** The literals of the template have no '?'. */
  ghost predicate NoQuestion(tokens: seq<Token>) {
    forall t :: t in tokens && t.Lit? ==> '?' !in t.text
  }

  lemma {:induction false} ExpandNoQuestion(tokens: seq<Token>, params: map<string, string>)
    requires NoQuestion(tokens)
    ensures '?' !in Expand(tokens, params) && BeforeQuery(Expand(tokens, params)) == Expand(tokens, params)
  {
    if tokens != [] {
      assert tokens[0] in tokens && forall t :: t in tokens[1..] ==> t in tokens;
      ExpandNoQuestion(tokens[1..], params);
      if tokens[0].Hole? && tokens[0].name in params { EncodeClean(params[tokens[0].name]); }
    }
    var url := Expand(tokens, params);
    IndexOfFirst(url, '?');
    assert url[..|url|] == url;
  }

  lemma {:induction false} EscapedSeparableIff(pairs: seq<Pair>)
    ensures SeparablePairs(EscapedPairs(pairs)) <==> SeparablePairs(pairs)
  {
    var es := EscapedPairs(pairs);
    if SeparablePairs(es) {
      forall p | p in pairs ensures Separable(p.0) && Separable(p.1) {
        var i :| 0 <= i < |pairs| && pairs[i] == p;
        assert es[i] in es;
        SeparableEscaped(p.0);
        SeparableEscaped(p.1);
      }
    } else if SeparablePairs(pairs) {
      EscapedSeparable(pairs);
    }
  }

  lemma {:induction false} SeparableEscaped(s: string)
    ensures Separable(Escaped(InQuery, s)) <==> Separable(s)
  {
    EscapedHas(InQuery, s, '&');
    EscapedHas(InQuery, s, '=');
  }

  /**
   For a template without a query of its own: the query of a GET reads back as exactly the pairs that
   were appended, as the URL has them, iff no separator is in any of them; then a POST does not panic.
   */
  lemma {:induction false} PlainTemplate(lib: Library, tokens: seq<Token>, params: Option<map<string, Value>>,
      order: seq<string>, declared: seq<Parameter>)
    requires Tame(tokens, FilterToolParams(params), declared) && NoQuestion(tokens)
    requires Iterates(order, FilterToolParams(params)) && Holes(tokens) <= FilterToolParams(params).Keys
    ensures var ps := FilterToolParams(params);
            var path, pairs := JoinedPath(lib, Expand(tokens, ps)), QueryPairs(order, ps, declared, Holes(tokens));
            && ComputeRequest(lib, Template(tokens), params, order, declared, GET)
                == Built(Request(path + "?" + JoinPairs(EscapedPairs(pairs)), None))
            && (pairs != [] ==>
                (ParsePairs(SplitOn(JoinPairs(EscapedPairs(pairs)), '&')) == Some(EscapedPairs(pairs))
                 <==> SeparablePairs(pairs)))
            && (SeparablePairs(pairs) ==>
                ComputeRequest(lib, Template(tokens), params, order, declared, POST)
                == Built(Request(path, Some(BodyOf(pairs, [])))))
  {
    var ps := FilterToolParams(params);
    var url, pairs := Expand(tokens, ps), QueryPairs(order, ps, declared, Holes(tokens));
    TemplateExpands(tokens, ps);
    ExpandNoQuestion(tokens, ps);
    Replaces(lib, tokens, ps, order, declared);
    if pairs != [] { PrintParseIff(EscapedPairs(pairs)); }
    EscapedSeparableIff(pairs);
    PostExactly(lib, tokens, params, order, declared);
    if SeparablePairs(pairs) {
      SeparableRead([], pairs);
      PutAllSplit(PutAll(map[], pairs), [], EscapedPairs(pairs));
    }
  }

  // ----- names and defaults of unreserved characters -----

  ghost predicate AllUnreserved(s: string) {
    forall c :: c in s ==> Unreserved(c)
  }

  ghost predicate UnreservedNames(params: map<string, string>, declared: seq<Parameter>) {
    && (forall k :: k in params ==> AllUnreserved(k))
    && (forall d :: d in declared ==> AllUnreserved(d.name) && (d.default.Some? ==> AllUnreserved(d.default.value)))
  }

  lemma {:induction false} UnreservedTame(params: map<string, string>, declared: seq<Parameter>)
    requires UnreservedNames(params, declared)
    ensures CleanNames(params, declared) && SeparableNames(params, declared)
  {
    forall k | k in params ensures AllClean(k) && Separable(k) { UnreservedStays(k); }
    forall d | d in declared
      ensures AllClean(d.name) && Separable(d.name)
      ensures d.default.Some? ==> CleanValue(d.default.value) && Separable(d.default.value)
    {
      UnreservedStays(d.name);
      if d.default.Some? { UnreservedStays(d.default.value); }
    }
  }

  lemma {:induction false} UnreservedStays(s: string)
    requires AllUnreserved(s)
    ensures CleanValue(s) && Separable(s) && Inert(InQuery, s) && Escaped(InQuery, s) == s
  {
    InertStays(InQuery, s);
    assert s != [] ==> s[|s| - 1] in s;
  }

  lemma {:induction false} UnreservedPairs(pairs: seq<Pair>)
    requires forall p :: p in pairs ==> Escaped(InQuery, p.0) == p.0 && Escaped(InQuery, p.1) == p.1
    ensures EscapedPairs(pairs) == pairs
  {
    forall i | 0 <= i < |pairs| ensures EscapedPairs(pairs)[i] == pairs[i] { assert pairs[i] in pairs; }
  }

  lemma {:induction false} UnreservedSent(order: seq<string>, params: map<string, string>, declared: seq<Parameter>,
      holes: set<string>)
    requires Iterates(order, params) && UnreservedNames(params, declared)
    ensures var pairs := QueryPairs(order, params, declared, holes); EscapedPairs(pairs) == pairs
  {
    var pairs := QueryPairs(order, params, declared, holes);
    PairsAreSent(order, params, declared, holes);
    forall p | p in pairs ensures Escaped(InQuery, p.0) == p.0 && Escaped(InQuery, p.1) == p.1 {
      if p.0 in params {
        UnreservedStays(p.0);
        EscapedInert(InQuery, params[p.0]);
        InertStays(InQuery, p.1);
      } else {
        assert Parameter(p.0, Some(p.1)) in declared;
        UnreservedStays(p.0);
        UnreservedStays(p.1);
      }
    }
    UnreservedPairs(pairs);
  }
}
