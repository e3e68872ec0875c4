/** The path of a request and the template it was expanded from (crates/common/src/path.rs:66-73). */
module PathExpansion {
  import opened Wrappers
  import opened Strings
  import opened PercentEncoding
  import opened UrlJoin
  import opened PathTemplate
  import opened Tools
  import opened PathQuery
  import opened PathRequests

  // ----- when the path is the expanded template -----

  /** Literals that a path has as they are. */
  ghost predicate PathLiterals(lib: Library, tokens: seq<Token>) {
    forall t :: t in tokens && t.Lit? ==> Inert(InPath(lib.escapesCaret), t.text) && '\\' !in t.text
  }

  lemma {:induction false} ExpandedChars(lib: Library, tokens: seq<Token>, params: map<string, string>)
    requires PathLiterals(lib, tokens)
    ensures Inert(InPath(lib.escapesCaret), Expand(tokens, params)) && '\\' !in Expand(tokens, params) &&
        '?' !in Expand(tokens, params)
  {
    if tokens != [] {
      assert tokens[0] in tokens && forall t :: t in tokens[1..] ==> t in tokens;
      ExpandedChars(lib, tokens[1..], params);
      if tokens[0].Hole? && tokens[0].name in params {
        var v := params[tokens[0].name];
        EscapedInert(InPath(lib.escapesCaret), v);
        EscapedChars(Component, v);
      }
    }
  }

  /** A url without a query that is joined with pairs behind it. */
  lemma {:induction false} JoinedWith(url: string, pairs: seq<Pair>)
    requires Kept(url) && '#' !in url && '?' !in url && CleanPairs(pairs)
    ensures var full := AppendPairs(url, pairs);
            && Stripped(full) == full && '#' !in full && BeforeQuery(full) == url && IndexOf(full, '?') == |url|
            && HasScheme(full) == HasScheme(url) && HasAuthority(full) == HasAuthority(url)
  {
    var full := AppendPairs(url, pairs);
    AppendedKept(url, pairs);
    KeptStays(full);
    UrlParts(url, pairs);
    IndexOfFirst(url, '?');
    assert url[..|url|] == url && |BeforeQuery(full)| == IndexOf(full, '?');
  }

  /** Of a text that needs no escaping: the joined path is the text iff it is canonical and has no authority. */
  lemma {:induction false} ExpansionKept(lib: Library, url: string, pairs: seq<Pair>)
    requires Lawful(lib) && Inert(InPath(lib.escapesCaret), url) && CleanPairs(pairs)
    ensures var r := Join(lib, AppendPairs(url, pairs));
            r.Ok? && r.value.0 == url <==> Canonical(lib, url) && !HasAuthority(url)
  {
    var full := AppendPairs(url, pairs);
    InertPlain(lib, url);
    InertKept(lib, url);
    JoinedWith(url, pairs);
    if HasScheme(full) {
      assert !Canonical(lib, url);
    } else if HasAuthority(full) {
      if lib.authority(full).Ok? { AuthorityShortens(lib, full, lib.authority(full).value); }
    } else {
      NoFragment(lib, full);
      if Canonical(lib, url) { CanonicalKept(lib, url); } else { JoinedPathCanonical(lib, url); }
    }
  }

  lemma {:induction false} InertKept(lib: Library, p: string)
    requires Inert(InPath(lib.escapesCaret), p)
    ensures Kept(p)
  {
    forall c | c in p ensures !Drops(c) && !Trims(c) {}
  }

  /**
   The path of a request is the expanded template iff that begins with one slash, and none of its
   segments is a dot segment. Parameters decide on both: an empty one can leave two slashes in front,
   and '.' is an unreserved character.
   */
  lemma {:induction false} PathIsExpansionIff(lib: Library, tokens: seq<Token>, params: map<string, string>,
      order: seq<string>, declared: seq<Parameter>)
    requires Lawful(lib) && WellFormed(tokens) && PathLiterals(lib, tokens)
    requires CleanNames(params, declared) && Iterates(order, params) && Holes(tokens) <= params.Keys
    ensures var url, r := Expand(tokens, params), ReplaceParams(lib, Template(tokens), order, params, declared);
            r.Ok? && r.value.path == url
            <==> && url != [] && url[0] == '/' && (|url| > 1 ==> url[1] != '/')
                 && forall seg :: seg in Segments(url[1..]) ==> !Dots(seg)
  {
    var url, pairs := Expand(tokens, params), QueryPairs(order, params, declared, Holes(tokens));
    TemplateExpands(tokens, params);
    ExpandedChars(lib, tokens, params);
    SentClean(order, params, declared, Holes(tokens));
    ExpansionKept(lib, url, pairs);
    if |url| > 1 { assert url[1] in url; }
  }

  // ----- a parameter ".." -----

  /** A path with a ".." in the middle. */
  function DotsBetween(a: string, b: string): string {
    "/" + a + "/" + (".." + ("/" + b))
  }

  lemma {:induction false} DotsBetweenJoins(lib: Library, a: string, b: string)
    requires Settled(InPath(lib.escapesCaret), a) && Settled(InPath(lib.escapesCaret), b)
    ensures JoinedPath(lib, DotsBetween(a, b)) == "/" + b
  {
    var segs := [a, "..", b];
    assert segs[1..] == ["..", b] && ["..", b][1..] == [b];
    assert JoinSegments(["..", b]) == ".." + (['/'] + b);
    assert JoinSegments(segs) == a + (['/'] + (".." + (['/'] + b)));
    assert DotsBetween(a, b) == ['/'] + JoinSegments(segs);
    DotsRemoved(lib, a, b);
  }

  /** Every parameter in the path, and no query. */
  lemma {:induction false} ReplacesPathOnly(lib: Library, tokens: seq<Token>, params: map<string, string>,
      order: seq<string>, url: string)
    requires Tame(tokens, params, []) && Iterates(order, params) && FirstMissing(tokens, params).None? &&
        params.Keys <= Holes(tokens)
    requires url == Expand(tokens, params) && '?' !in url
    ensures ReplaceParams(lib, Template(tokens), order, params, [])
        == Ok(Replaced(JoinedPath(lib, BeforeQuery(url)), [], map[]))
  {
    Replaces(lib, tokens, params, order, []);
    NoPairsIff(order, params, [], Holes(tokens));
  }

  lemma {:induction false} DotsExpand(a: string, name: string, b: string)
    ensures var tokens, ps := [Lit("/" + a + "/"), Hole(name), Lit("/" + b)], map[name := ".."];
            && Expand(tokens, ps) == DotsBetween(a, b) && Holes(tokens) == {name} && FirstMissing(tokens, ps).None?
  {
    InertStays(Component, "..");
    ExpandThree("/" + a + "/", name, "/" + b, map[name := ".."]);
  }

  lemma {:induction false} DotsReplaced(lib: Library, tokens: seq<Token>, params: map<string, string>, a: string,
      name: string, b: string)
    requires Settled(InPath(lib.escapesCaret), a) && Settled(InPath(lib.escapesCaret), b)
    requires tokens == [Lit("/" + a + "/"), Hole(name), Lit("/" + b)] && WellFormed(tokens) && AllUnreserved(name)
    requires TameUrl(DotsBetween(a, b)) && '?' !in DotsBetween(a, b) && params == map[name := ".."]
    ensures Iterates([name], params)
    ensures ReplaceParams(lib, Template(tokens), [name], params, []) == Ok(Replaced("/" + b, [], map[]))
  {
    DotsExpand(a, name, b);
    UnreservedTame(params, []);
    ReplacesPathOnly(lib, tokens, params, [name], DotsBetween(a, b));
    IndexOfFirst(DotsBetween(a, b), '?');
    assert DotsBetween(a, b)[..|DotsBetween(a, b)|] == DotsBetween(a, b);
    DotsBetweenJoins(lib, a, b);
  }

  /** A parameter ".." between two slashes takes the segment before it out of the path. */
  lemma {:induction false} DotsInPath(lib: Library, a: string, name: string, b: string)
    requires Settled(InPath(lib.escapesCaret), a) && Settled(InPath(lib.escapesCaret), b)
    requires NoBraces(a) && NoBraces(name) && NoBraces(b) && AllUnreserved(name)
    requires TameUrl(DotsBetween(a, b)) && '?' !in DotsBetween(a, b)
    ensures ComputeRequest(lib, Template([Lit("/" + a + "/"), Hole(name), Lit("/" + b)]),
        Some(map[name := String("..")]), [name], [], GET)
         == Built(Request("/" + b + "?", None))
  {
    var params := Some(map[name := String("..")]);
    assert FilterToolParams(params) == map[name := ".."];
    TokensWellFormed(a, name, b);
    DotsReplaced(lib, [Lit("/" + a + "/"), Hole(name), Lit("/" + b)], FilterToolParams(params), a, name, b);
    assert "/" + b + "?" + [] == "/" + b + "?";
  }

  lemma {:induction false} TokensWellFormed(a: string, name: string, b: string)
    requires NoBraces(a) && NoBraces(name) && NoBraces(b)
    ensures WellFormed([Lit("/" + a + "/"), Hole(name), Lit("/" + b)])
  {
  }

  /** Such templates exist: "/u/{id}/x". */
  lemma {:induction false} DotsExist(lib: Library)
    ensures ComputeRequest(lib, Template([Lit("/u/"), Hole("id"), Lit("/x")]), Some(map["id" := String("..")]),
        ["id"], [], GET)
         == Built(Request("/x?", None))
  {
    var url := DotsBetween("u", "x");
    assert |url| == 7 && url[0] == '/' && url[1] == 'u' && url[6] == 'x';
    assert forall c :: c in url ==> c == '/' || c == 'u' || c == '.' || c == 'x';
    assert "/" + "u" + "/" == "/u/" && "/" + "x" == "/x" && "/x" + "?" == "/x?";
    DotsInPath(lib, "u", "id", "x");
  }

  lemma {:induction false} ExpandThree(a: string, name: string, b: string, params: map<string, string>)
    requires name in params
    ensures var tokens := [Lit(a), Hole(name), Lit(b)];
            && Expand(tokens, params) == a + (Encode(params[name]) + b) && Holes(tokens) == {name} &&
                FirstMissing(tokens, params).None?
  {
    var tokens := [Lit(a), Hole(name), Lit(b)];
    assert tokens[1..] == [Hole(name), Lit(b)] && tokens[1..][1..] == [Lit(b)] && [Lit(b)][1..] == [];
    assert Expand([Lit(b)], params) == b + [] == b;
    assert Holes([Lit(b)]) == {} && FirstMissing([Lit(b)], params).None?;
  }

  // ----- an empty parameter -----

  lemma {:induction false} HostUrl(host: string, rest: string)
    requires PlainHost(host) && (rest == [] || rest[0] == '/') && AllUnreservedOrSlash(rest)
    ensures var url := WithAuthority(host, rest);
            && Stripped(url) == url && !HasScheme(url) && HasAuthority(url) && |url| >= 2 + |host|
            && url[2 + |host|..] == rest
  {
    var url := WithAuthority(host, rest);
    forall c | c in url ensures Unreserved(c) || c == '/' {
      assert c in "//" || c in host || c in rest;
    }
    assert url[|url| - 1] in url && url[0] == '/' && url[1] == '/';
    KeptStays(url);
  }

  lemma {:induction false} RestJoined(lib: Library, rest: string)
    requires AllUnreservedOrSlash(rest)
    ensures PathAndQuery(lib, rest) == (JoinedPath(lib, rest), [])
  {
    IndexOfFirst(rest, '?');
    IndexOfFirst(rest, '#');
    assert rest[..|rest|] == rest;
  }

  /** A template that begins with a parameter, when that is empty. */
  lemma {:induction false} EmptyExpands(name: string, host: string, rest: string, tokens: seq<Token>,
      params: map<string, string>)
    requires tokens == [Lit("/"), Hole(name), Lit("/" + host + rest)] && params == map[name := ""]
    ensures Expand(tokens, params) == WithAuthority(host, rest) && Holes(tokens) == {name}
    ensures FirstMissing(tokens, params).None?
  {
    ExpandThree("/", name, "/" + host + rest, params);
    SlashesMeet(host, rest);
  }

  lemma {:induction false} SlashesMeet(host: string, rest: string)
    ensures "/" + (Encode("") + ("/" + host + rest)) == WithAuthority(host, rest)
  {
    var tail := "/" + host + rest;
    assert Encode("") == [];
    assert [] + tail == tail;
    assert "/" + "/" == "//";
    assert "/" + tail == "/" + "/" + host + rest;
  }

  lemma {:induction false} HostJoined(lib: Library, host: string, rest: string)
    requires Lawful(lib) && PlainHost(host) && (rest == [] || rest[0] == '/') && AllUnreservedOrSlash(rest)
    ensures Join(lib, WithAuthority(host, rest)) == Ok((JoinedPath(lib, rest), []))
  {
    HostUrl(host, rest);
    RestJoined(lib, rest);
  }

  lemma {:induction false} NothingAppended(lib: Library, tokens: seq<Token>, params: map<string, string>, name: string)
    requires WellFormed(tokens) && params.Keys == {name} == Holes(tokens)
    ensures Iterates([name], params)
    ensures ReplaceParams(lib, Template(tokens), [name], params, []) == SplitUrl(lib, Expand(tokens, params), map[])
  {
    TemplateExpands(tokens, params);
    NoPairsIff([name], params, [], Holes(tokens));
  }

  /** An empty parameter between the first two slashes makes the next segment a host: the path loses both. */
  lemma {:induction false} EmptyTakesHost(lib: Library, name: string, host: string, rest: string,
      params: Option<map<string, Value>>, tokens: seq<Token>)
    requires Lawful(lib) && PlainHost(host) && (rest == [] || rest[0] == '/') && AllUnreservedOrSlash(rest)
    requires tokens == [Lit("/"), Hole(name), Lit("/" + host + rest)] && WellFormed(tokens)
    requires FilterToolParams(params) == map[name := ""]
    ensures ComputeRequest(lib, Template(tokens), params, [name], [], GET)
         == Built(Request(JoinedPath(lib, rest) + "?", None))
  {
    var ps := FilterToolParams(params);
    EmptyExpands(name, host, rest, tokens, ps);
    NothingAppended(lib, tokens, ps, name);
    HostJoined(lib, host, rest);
    assert JoinedPath(lib, rest) + "?" + [] == JoinedPath(lib, rest) + "?";
  }

  /** In "/{id}/x" an empty id gives "/". */
  lemma {:induction false} EmptyExists(lib: Library) returns (path: string, params: Option<map<string, Value>>)
    requires Lawful(lib)
    ensures path == "/{id}/x" && params == Some(map["id" := String("")])
    ensures ComputeRequest(lib, path, params, ["id"], [], GET) == Built(Request("/?", None))
  {
    var tokens := [Lit("/"), Hole("id"), Lit("/" + "x" + "")];
    params := Some(map["id" := String("")]);
    path := Template(tokens);
    TemplateIs(tokens);
    assert FilterToolParams(params) == map["id" := ""];
    EmptyTakesHost(lib, "id", "x", "", params, tokens);
    assert JoinedPath(lib, "") == "/" && "/" + "?" == "/?";
  }

  lemma {:induction false} TemplateIs(tokens: seq<Token>)
    requires tokens == [Lit("/"), Hole("id"), Lit("/" + "x" + "")]
    ensures Template(tokens) == "/{id}/x" && WellFormed(tokens)
  {
    assert "/" + "x" + "" == "/x";
    assert tokens[1..] == [Hole("id"), Lit("/x")] && tokens[1..][1..] == [Lit("/x")] && [Lit("/x")][1..] == [];
    assert Template([Lit("/x")]) == "/x" + [] == "/x";
    assert Template(tokens[1..]) == ['{'] + ("id" + ['}']) + "/x" == "{id}/x";
    assert "/" + "{id}/x" == "/{id}/x";
  }
}
