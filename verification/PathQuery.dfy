/**
 What a path template expands to, and that the query the gateway prints is read back as the pairs
 that went in (crates/common/src/path.rs, crates/prompt_gateway/src/tools.rs).
 */
module PathQuery {
  import opened Wrappers
  import opened Collections
  import opened Strings
  import opened PercentEncoding
  import opened UrlJoin
  import opened PathTemplate
  import opened Tools

  // ----- the scanner -----

  datatype Token = Lit(text: string) | Hole(name: string)

  predicate NoBraces(s: string) {
    '{' !in s && '}' !in s
  }

  ghost predicate WellFormed(tokens: seq<Token>) {
    forall t :: t in tokens ==> NoBraces(if t.Lit? then t.text else t.name)
  }

  function Template(tokens: seq<Token>): string {
    if tokens == [] then []
    else (if tokens[0].Lit? then tokens[0].text else ['{'] + (tokens[0].name + ['}'])) + Template(tokens[1..])
  }

  /** The first placeholder without a value. */
  function FirstMissing(tokens: seq<Token>, params: map<string, string>): Option<string> {
    if tokens == [] then None
    else if tokens[0].Hole? && tokens[0].name !in params then Some(tokens[0].name)
    else FirstMissing(tokens[1..], params)
  }

  function Expand(tokens: seq<Token>, params: map<string, string>): string {
    if tokens == [] then []
    else
      (if tokens[0].Lit? then tokens[0].text
       else if tokens[0].name in params then Encode(params[tokens[0].name]) else [])
      + Expand(tokens[1..], params)
  }

  function Holes(tokens: seq<Token>): set<string> {
    if tokens == [] then {} else (if tokens[0].Hole? then {tokens[0].name} else {}) + Holes(tokens[1..])
  }

  lemma {:induction false} ScanLiteral(s: Scan, lit: string, rest: string, params: map<string, string>)
    requires !s.inParam && NoBraces(lit)
    ensures ScanFrom(s, lit + rest, params) == ScanFrom(s.(done := s.done.(text := s.done.text + lit)), rest, params)
    decreases |lit|
  {
    if lit == [] {
      assert lit + rest == rest && s.done.text + lit == s.done.text;
    } else {
      var c, t := lit[0], lit + rest;
      assert c in lit && t[0] == c && t[1..] == lit[1..] + rest;
      var u := s.(done := s.done.(text := s.done.text + [c]));
      ScanLiteral(u, lit[1..], rest, params);
      assert s.done.text + [c] + lit[1..] == s.done.text + lit;
    }
  }

  lemma {:induction false} ScanName(s: Scan, name: string, rest: string, params: map<string, string>)
    requires s.inParam && NoBraces(name)
    ensures ScanFrom(s, name + rest, params) == ScanFrom(s.(current := s.current + name), rest, params)
    decreases |name|
  {
    if name == [] {
      assert name + rest == rest && s.current + name == s.current;
    } else {
      var c, t := name[0], name + rest;
      assert c in name && t[0] == c && t[1..] == name[1..] + rest;
      ScanName(s.(current := s.current + [c]), name[1..], rest, params);
      assert s.current + [c] + name[1..] == s.current + name;
    }
  }

  lemma {:induction false} ScanHole(s: Scan, name: string, rest: string, params: map<string, string>)
    requires !s.inParam && s.current == [] && NoBraces(name)
    ensures ScanFrom(s, ['{'] + (name + ['}']) + rest, params)
         == if name in params
            then ScanFrom(Scan(Scanned(s.done.text + Encode(params[name]), s.done.replaced + {name}), [], false),
                rest, params)
            else Err(MissingValue(name))
  {
    var t := ['{'] + (name + ['}']) + rest;
    assert t[0] == '{' && t[1..] == name + (['}'] + rest);
    var u := s.(inParam := true);
    ScanName(u, name, ['}'] + rest, params);
    assert [] + name == name;
    assert (['}'] + rest)[1..] == rest;
  }

  /** The scan, token by token. */
  function ScannedTokens(d: Scanned, tokens: seq<Token>, params: map<string, string>): Result<Scan, string> {
    if FirstMissing(tokens, params).Some? then Err(MissingValue(FirstMissing(tokens, params).value))
    else Ok(Scan(Scanned(d.text + Expand(tokens, params), d.replaced + Holes(tokens)), [], false))
  }

  lemma {:induction false} ScannedLit(d: Scanned, t: Token, rest: seq<Token>, params: map<string, string>)
    requires t.Lit?
    ensures ScannedTokens(d, [t] + rest, params) == ScannedTokens(d.(text := d.text + t.text), rest, params)
  {
    assert ([t] + rest)[1..] == rest;
    assert d.text + t.text + Expand(rest, params) == d.text + (t.text + Expand(rest, params));
    assert {} + Holes(rest) == Holes(rest);
  }

  lemma {:induction false} HoleCons(t: Token, rest: seq<Token>, params: map<string, string>)
    requires t.Hole?
    ensures FirstMissing([t] + rest, params)
         == if t.name !in params then Some(t.name) else FirstMissing(rest, params)
    ensures t.name in params ==> Expand([t] + rest, params) == Encode(params[t.name]) + Expand(rest, params)
    ensures Holes([t] + rest) == {t.name} + Holes(rest)
  {
    assert ([t] + rest)[1..] == rest;
  }

  lemma {:induction false} ScannedHole(d: Scanned, t: Token, rest: seq<Token>, params: map<string, string>)
    requires t.Hole?
    ensures ScannedTokens(d, [t] + rest, params)
         == if t.name in params
            then ScannedTokens(Scanned(d.text + Encode(params[t.name]), d.replaced + {t.name}), rest, params)
            else Err(MissingValue(t.name))
  {
    HoleCons(t, rest, params);
    if t.name in params {
      Associates(d.text, Encode(params[t.name]), Expand(rest, params));
      assert d.replaced + {t.name} + Holes(rest) == d.replaced + ({t.name} + Holes(rest));
    }
  }

  lemma {:induction false} ScanTokens(d: Scanned, tokens: seq<Token>, params: map<string, string>)
    requires WellFormed(tokens)
    ensures ScanFrom(Scan(d, [], false), Template(tokens), params) == ScannedTokens(d, tokens, params)
    decreases tokens
  {
    if tokens == [] {
      assert d.text + [] == d.text && d.replaced + {} == d.replaced;
    } else {
      var t, rest := tokens[0], tokens[1..];
      assert t in tokens && tokens == [t] + rest;
      if t.Lit? {
        ScanLiteral(Scan(d, [], false), t.text, Template(rest), params);
        ScanTokens(d.(text := d.text + t.text), rest, params);
        ScannedLit(d, t, rest, params);
      } else {
        ScanHole(Scan(d, [], false), t.name, Template(rest), params);
        ScannedHole(d, t, rest, params);
        if t.name in params {
          ScanTokens(Scanned(d.text + Encode(params[t.name]), d.replaced + {t.name}), rest, params);
        }
      }
    }
  }

  /**
   A well-formed template expands to its literals and encoded values in order, and fails iff some
   placeholder has no value, naming the first one.
   */
  lemma {:induction false} TemplateExpands(tokens: seq<Token>, params: map<string, string>)
    requires WellFormed(tokens)
    ensures ScanFrom(START, Template(tokens), params)
         == if FirstMissing(tokens, params).Some? then Err(MissingValue(FirstMissing(tokens, params).value))
            else Ok(Scan(Scanned(Expand(tokens, params), Holes(tokens)), [], false))
    ensures FirstMissing(tokens, params).None? <==> Holes(tokens) <= params.Keys
  {
    ScanTokens(START.done, tokens, params);
    assert [] + Expand(tokens, params) == Expand(tokens, params) && {} + Holes(tokens) == Holes(tokens);
    MissingIff(tokens, params);
  }

  lemma {:induction false} MissingIff(tokens: seq<Token>, params: map<string, string>)
    ensures FirstMissing(tokens, params).None? <==> Holes(tokens) <= params.Keys
  {
    if tokens != [] { MissingIff(tokens[1..], params); }
  }

  // ----- the pairs -----

  /** Each tool parameter that no placeholder used is in exactly one pair, encoded; no other is. */
  lemma {:induction false} RemainingExactly(order: seq<string>, params: map<string, string>, replaced: set<string>)
    requires forall k :: k in order ==> k in params
    requires forall i, j :: 0 <= i < j < |order| ==> order[i] != order[j]
    ensures var ps := Remaining(order, params, replaced);
            && (forall p :: p in ps <==> p.0 in order && p.0 !in replaced && p.1 == Encode(params[p.0]))
            && (forall i, j :: 0 <= i < j < |ps| ==> ps[i].0 != ps[j].0)
  {
    if order != [] {
      assert order == [order[0]] + order[1..];
      RemainingExactly(order[1..], params, replaced);
      var rest := Remaining(order[1..], params, replaced);
      forall p | p in rest ensures p.0 != order[0] {
        var i :| 0 <= i < |order[1..]| && order[1..][i] == p.0;
      }
    }
  }

  /** A pair is a default iff some declared parameter that was not supplied has it. */
  lemma {:induction false} DefaultsExactly(declared: seq<Parameter>, supplied: set<string>)
    ensures forall p :: p in Defaults(declared, supplied) <==> p.0 !in supplied && Parameter(p.0, Some(p.1)) in declared
  {
    if declared != [] {
      assert declared == [declared[0]] + declared[1..];
      DefaultsExactly(declared[1..], supplied);
    }
  }

  /** No parameter is both in a placeholder and in the query, or both supplied and defaulted. */
  lemma {:induction false} PlacedOnce(order: seq<string>, params: map<string, string>, declared: seq<Parameter>,
      replaced: set<string>)
    requires Iterates(order, params)
    ensures forall p :: p in QueryPairs(order, params, declared, replaced) ==> p.0 !in replaced
    ensures forall k :: k in params.Keys - replaced ==>
        (k, Encode(params[k])) in QueryPairs(order, params, declared, replaced)
    ensures forall p :: p in QueryPairs(order, params, declared, replaced) && p.0 in params ==>
        p.1 == Encode(params[p.0])
    ensures forall d :: d in declared && d.default.Some? && d.name !in replaced + params.Keys ==>
      (d.name, d.default.value) in QueryPairs(order, params, declared, replaced)
  {
    RemainingExactly(order, params, replaced);
    DefaultsExactly(declared, replaced + params.Keys);
  }

  /** The map of the remaining parameters does not depend on the iteration order. */
  lemma {:induction false} PutDistinct(m: map<string, string>, ps: seq<Pair>)
    requires forall i, j :: 0 <= i < j < |ps| ==> ps[i].0 != ps[j].0
    ensures PutAll(m, ps).Keys == m.Keys + set p | p in ps :: p.0
    ensures forall p :: p in ps ==> PutAll(m, ps)[p.0] == p.1
    ensures forall k :: k in m && (forall p :: p in ps ==> p.0 != k) ==> PutAll(m, ps)[k] == m[k]
    decreases |ps|
  {
    if ps != [] {
      var p, rest := ps[0], ps[1..];
      assert ps == [p] + rest;
      PutDistinct(m[p.0 := p.1], rest);
      forall q | q in rest ensures q.0 != p.0 {
        var i :| 0 <= i < |rest| && rest[i] == q;
      }
    }
  }

  // ----- printing the query -----

  function JoinPairs(pairs: seq<Pair>): string {
    if pairs == [] then []
    else pairs[0].0 + "=" + pairs[0].1 + (if |pairs| == 1 then [] else "&" + JoinPairs(pairs[1..]))
  }

  lemma {:induction false} AppendPairOpens(url: string, p: Pair)
    ensures '?' in AppendPair(url, p)
  {
    if '?' !in url {
      assert AppendPair(url, p)[|url|] == '?';
    } else {
      var i :| 0 <= i < |url| && url[i] == '?';
      assert AppendPair(url, p)[i] == '?';
    }
  }

  /** All pairs end up behind one '?' or behind what follows it, joined by '&'. */
  lemma {:induction false} AppendPairsPrints(url: string, pairs: seq<Pair>)
    requires pairs != []
    ensures AppendPairs(url, pairs) == url + (if '?' in url then "&" else "?") + JoinPairs(pairs)
    decreases |pairs|
  {
    var p, rest := pairs[0], pairs[1..];
    var next := AppendPair(url, p);
    AppendPairOpens(url, p);
    var sep := if '?' in url then "&" else "?";
    var kv := p.0 + "=" + p.1;
    assert next == url + sep + kv;
    if rest == [] {
      assert kv + [] == kv;
    } else {
      AppendPairsPrints(next, rest);
      assert url + sep + kv + "&" + JoinPairs(rest) == url + sep + (kv + ("&" + JoinPairs(rest)));
    }
  }

  /** The query of its own that a url has. */
  function StaticOf(url: string): Option<string> {
    if '?' in url then Some(Static(url)) else None
  }

  /** A query with pairs appended. */
  function PrintedQuery(fixed: Option<string>, pairs: seq<Pair>): string {
    if fixed.None? then JoinPairs(pairs)
    else if pairs == [] then fixed.value
    else fixed.value + "&" + JoinPairs(pairs)
  }

  lemma {:induction false} UrlParts(url: string, pairs: seq<Pair>)
    ensures BeforeQuery(AppendPairs(url, pairs)) == BeforeQuery(url)
    ensures Static(AppendPairs(url, pairs)) == PrintedQuery(StaticOf(url), pairs)
  {
    IndexOfFirst(url, '?');
    if pairs != [] {
      AppendPairsPrints(url, pairs);
      if '?' in url { FixedParts(url, JoinPairs(pairs)); } else { PlainParts(url, JoinPairs(pairs)); }
    }
  }

  lemma {:induction false} FixedParts(url: string, j: string)
    requires '?' in url
    ensures BeforeQuery(url + "&" + j) == BeforeQuery(url) && Static(url + "&" + j) == Static(url) + "&" + j
  {
    IndexOfFirst(url, '?');
    var i, full := IndexOf(url, '?'), url + "&" + j;
    assert full == url[..i] + (['?'] + (url[i + 1..] + "&" + j));
    IndexOfAfter(url[..i], '?', url[i + 1..] + "&" + j);
    assert full[..i] == url[..i] && full[i + 1..] == url[i + 1..] + "&" + j;
  }

  lemma {:induction false} PlainParts(url: string, j: string)
    requires '?' !in url
    ensures BeforeQuery(url + "?" + j) == BeforeQuery(url) && Static(url + "?" + j) == j
  {
    IndexOfFirst(url, '?');
    var full := url + "?" + j;
    assert full == url + (['?'] + j);
    IndexOfAfter(url, '?', j);
    assert url[..|url|] == url && full[..|url|] == url && full[|url| + 1..] == j;
  }

  // ----- the query as the URL has it -----

  predicate Clean(c: char) {
    !Drops(c) && c != '#'
  }

  /** Names and values that leave no trace in a URL but themselves: nothing is stripped, and no fragment begins. */
  ghost predicate CleanPair(p: Pair) {
    && (forall c :: c in p.0 ==> Clean(c)) && (forall c :: c in p.1 ==> Clean(c))
    && (p.1 != [] ==> !Trims(p.1[|p.1| - 1]))
  }

  ghost predicate CleanPairs(pairs: seq<Pair>) {
    forall p :: p in pairs ==> CleanPair(p)
  }

  lemma {:induction false} JoinPairsClean(pairs: seq<Pair>)
    requires pairs != [] && CleanPairs(pairs)
    ensures var j := JoinPairs(pairs);
            j != [] && !Trims(j[|j| - 1]) && forall c :: c in j ==> Clean(c)
  {
    var p := pairs[0];
    assert p in pairs;
    var kv := p.0 + "=" + p.1;
    assert kv[|kv| - 1] == if p.1 == [] then '=' else p.1[|p.1| - 1];
    if |pairs| > 1 {
      assert forall q :: q in pairs[1..] ==> q in pairs;
      JoinPairsClean(pairs[1..]);
    } else {
      assert kv + [] == kv;
    }
  }

  lemma {:induction false} KeptMore(url: string, tail: string)
    requires Kept(url) && '#' !in url && tail != [] && forall c :: c in tail ==> Clean(c)
    requires !Trims(tail[0]) && !Trims(tail[|tail| - 1])
    ensures Kept(url + tail) && '#' !in url + tail
  {
    var full := url + tail;
    assert full[|full| - 1] == tail[|tail| - 1] && full[0] == if url == [] then tail[0] else url[0];
  }

  lemma {:induction false} ForeignMore(url: string, tail: string)
    requires tail != [] && ('?' in url || tail[0] == '?')
    ensures HasScheme(url + tail) == HasScheme(url) && HasAuthority(url + tail) == HasAuthority(url)
  {
    if '?' in url {
      IndexOfFirst(url, '?');
      var i := IndexOf(url, '?');
      assert url == url[..i] + url[i..];
      Associates(url[..i], url[i..], tail);
      ForeignBefore(url[..i], url[i..]);
      ForeignBefore(url[..i], url[i..] + tail);
    } else {
      ForeignBefore(url, tail);
    }
  }

  /** What is appended to a url, separator included. */
  function Tail(url: string, pairs: seq<Pair>): string {
    (if '?' in url then "&" else "?") + JoinPairs(pairs)
  }

  lemma {:induction false} AppendsTail(url: string, pairs: seq<Pair>)
    requires pairs != []
    ensures AppendPairs(url, pairs) == url + Tail(url, pairs)
  {
    AppendPairsPrints(url, pairs);
    Associates(url, if '?' in url then "&" else "?", JoinPairs(pairs));
  }

  lemma {:induction false} TailClean(url: string, pairs: seq<Pair>)
    requires pairs != [] && CleanPairs(pairs)
    ensures var tail := Tail(url, pairs);
            && tail != [] && (forall c :: c in tail ==> Clean(c)) && !Trims(tail[0]) && !Trims(tail[|tail| - 1])
            && ('?' in url || tail[0] == '?')
  {
    JoinPairsClean(pairs);
    var j, tail := JoinPairs(pairs), Tail(url, pairs);
    assert tail[|tail| - 1] == j[|j| - 1];
  }

  lemma {:induction false} AppendedKept(url: string, pairs: seq<Pair>)
    requires Kept(url) && '#' !in url && CleanPairs(pairs)
    ensures var full := AppendPairs(url, pairs);
            && Kept(full) && '#' !in full
            && HasScheme(full) == HasScheme(url) && HasAuthority(full) == HasAuthority(url)
  {
    if pairs != [] {
      AppendsTail(url, pairs);
      TailClean(url, pairs);
      KeptMore(url, Tail(url, pairs));
      ForeignMore(url, Tail(url, pairs));
    }
  }

  /** The joined URL of an expanded template with its pairs. */
  lemma {:induction false} JoinedUrl(lib: Library, url: string, pairs: seq<Pair>)
    requires Kept(url) && '#' !in url && !Foreign(url) && CleanPairs(pairs)
    ensures Join(lib, AppendPairs(url, pairs))
         == Ok((JoinedPath(lib, BeforeQuery(url)), Escaped(InQuery, PrintedQuery(StaticOf(url), pairs))))
  {
    var full := AppendPairs(url, pairs);
    AppendedKept(url, pairs);
    KeptStays(full);
    IndexOfFirst(full, '#');
    assert full[..|full|] == full;
    UrlParts(url, pairs);
  }

  function EscapedPair(p: Pair): Pair {
    (Escaped(InQuery, p.0), Escaped(InQuery, p.1))
  }

  function EscapedPairs(pairs: seq<Pair>): (r: seq<Pair>)
    ensures |r| == |pairs| && forall i :: 0 <= i < |r| ==> r[i] == EscapedPair(pairs[i])
  {
    if pairs == [] then [] else [EscapedPair(pairs[0])] + EscapedPairs(pairs[1..])
  }

  /** How a pair is written. */
  function KeyValue(p: Pair): string {
    p.0 + "=" + p.1
  }

  lemma {:induction false} EscapedKeyValue(p: Pair)
    ensures Escaped(InQuery, KeyValue(p)) == KeyValue(EscapedPair(p))
  {
    EscapedAppend(InQuery, p.0 + "=", p.1);
    EscapedAppend(InQuery, p.0, "=");
    InertStays(InQuery, "=");
  }

  /** Escaping a printed query is printing escaped pairs. */
  lemma {:induction false} EscapedJoin(pairs: seq<Pair>)
    ensures Escaped(InQuery, JoinPairs(pairs)) == JoinPairs(EscapedPairs(pairs))
  {
    if pairs != [] {
      var p, es := pairs[0], EscapedPairs(pairs);
      assert es[0] == EscapedPair(p) && es[1..] == EscapedPairs(pairs[1..]);
      var rest := if |pairs| == 1 then [] else "&" + JoinPairs(pairs[1..]);
      EscapedKeyValue(p);
      EscapedAppend(InQuery, p.0 + "=" + p.1, rest);
      if |pairs| > 1 {
        EscapedJoin(pairs[1..]);
        EscapedAppend(InQuery, "&", JoinPairs(pairs[1..]));
        InertStays(InQuery, "&");
      }
    }
  }

  function EscapedOf(fixed: Option<string>): Option<string> {
    if fixed.Some? then Some(Escaped(InQuery, fixed.value)) else None
  }

  lemma {:induction false} EscapedPrinted(fixed: Option<string>, pairs: seq<Pair>)
    ensures Escaped(InQuery, PrintedQuery(fixed, pairs)) == PrintedQuery(EscapedOf(fixed), EscapedPairs(pairs))
  {
    EscapedJoin(pairs);
    if fixed.Some? && pairs != [] {
      EscapedAppend(InQuery, fixed.value + "&", JoinPairs(pairs));
      EscapedAppend(InQuery, fixed.value, "&");
      InertStays(InQuery, "&");
    }
  }

  // ----- reading it back -----

  /** Text that neither separator cuts. */
  predicate Separable(s: string) {
    '&' !in s && '=' !in s
  }

  ghost predicate SeparablePairs(pairs: seq<Pair>) {
    forall p :: p in pairs ==> Separable(p.0) && Separable(p.1)
  }

  lemma {:induction false} SplitOnJoinStep(u: string, c: char, v: string, b: string)
    requires c !in u && SplitOn(v + ([c] + b), c) == SplitOn(v, c) + SplitOn(b, c)
    ensures SplitOn(u + ([c] + v) + ([c] + b), c) == SplitOn(u + ([c] + v), c) + SplitOn(b, c)
  {
    var w, sv, sb := v + ([c] + b), SplitOn(v, c), SplitOn(b, c);
    SplitOnFirst(u, c, v);
    SplitOnFirst(u, c, w);
    Associates(u, [c] + v, [c] + b);
    Associates([c], v, [c] + b);
    Associates([u], sv, sb);
  }

  lemma {:induction false} CutAt(a: string, c: char, i: nat)
    requires i < |a| && a[i] == c
    ensures a == a[..i] + ([c] + a[i + 1..])
  {
  }

  lemma {:induction false} SplitOnJoin(a: string, c: char, b: string)
    ensures SplitOn(a + ([c] + b), c) == SplitOn(a, c) + SplitOn(b, c)
    decreases |a|
  {
    IndexOfFirst(a, c);
    var i := IndexOf(a, c);
    if i == |a| {
      SplitOnNone(a, c);
      SplitOnFirst(a, c, b);
    } else {
      CutAt(a, c, i);
      SplitOnJoin(a[i + 1..], c, b);
      SplitOnJoinStep(a[..i], c, a[i + 1..], b);
    }
  }

  /** The pieces that a printed query is split into. */
  function PiecesOf(pairs: seq<Pair>): seq<string> {
    if pairs == [] then [] else SplitOn(KeyValue(pairs[0]), '&') + PiecesOf(pairs[1..])
  }

  lemma {:induction false} SplitJoined(pairs: seq<Pair>)
    requires pairs != []
    ensures SplitOn(JoinPairs(pairs), '&') == PiecesOf(pairs)
  {
    var kv, rest := KeyValue(pairs[0]), pairs[1..];
    if rest == [] {
      assert kv + [] == kv && SplitOn(kv, '&') + [] == SplitOn(kv, '&');
    } else {
      SplitJoined(rest);
      assert JoinPairs(pairs) == kv + (['&'] + JoinPairs(rest));
      SplitOnJoin(kv, '&', JoinPairs(rest));
    }
  }

  /** The pieces of a printed query: those of the fixed part and then those of the pairs. */
  lemma {:induction false} SplitPrinted(fixed: Option<string>, pairs: seq<Pair>)
    requires fixed.Some? || pairs != []
    ensures SplitOn(PrintedQuery(fixed, pairs), '&')
         == (if fixed.Some? then SplitOn(fixed.value, '&') else []) + PiecesOf(pairs)
  {
    if pairs != [] { SplitJoined(pairs); }
    if fixed.None? {
      assert [] + PiecesOf(pairs) == PiecesOf(pairs);
    } else if pairs == [] {
      assert SplitOn(fixed.value, '&') + [] == SplitOn(fixed.value, '&');
    } else {
      Associates(fixed.value, ['&'], JoinPairs(pairs));
      SplitOnJoin(fixed.value, '&', JoinPairs(pairs));
    }
  }

  lemma {:induction false} ParseOne(k: string, v: string)
    requires Separable(k) && Separable(v)
    ensures ParsePair(k + "=" + v) == Some((k, v)) && '&' !in k + "=" + v
  {
    assert k + "=" + v == k + (['='] + v);
    SplitOnFirst(k, '=', v);
    SplitOnNone(v, '=');
  }

  lemma {:induction false} ParsePairsConcat(a: seq<string>, b: seq<string>)
    ensures ParsePairs(a + b)
         == if ParsePairs(a).None? || ParsePairs(b).None? then None else Some(ParsePairs(a).value + ParsePairs(b).value)
  {
    if a == [] {
      assert a + b == b;
      if ParsePairs(b).Some? { assert [] + ParsePairs(b).value == ParsePairs(b).value; }
    } else {
      assert (a + b)[1..] == a[1..] + b;
      ParsePairsConcat(a[1..], b);
      if ParsePairs(a).Some? && ParsePairs(b).Some? {
        var f := [ParsePair(a[0]).value];
        assert f + (ParsePairs(a[1..]).value + ParsePairs(b).value)
            == f + ParsePairs(a[1..]).value + ParsePairs(b).value;
      }
    }
  }

  /** Pairs that the separators do not cut are parsed as they are. */
  lemma {:induction false} ParsePieces(pairs: seq<Pair>)
    requires SeparablePairs(pairs)
    ensures ParsePairs(PiecesOf(pairs)) == Some(pairs)
  {
    if pairs != [] {
      var p, rest := pairs[0], pairs[1..];
      assert p in pairs && pairs == [p] + rest;
      ParseOne(p.0, p.1);
      ParsePieces(rest);
      SplitOnNone(KeyValue(p), '&');
      assert ([KeyValue(p)] + PiecesOf(rest))[1..] == PiecesOf(rest);
    }
  }

  lemma {:induction false} SplitOnParts(s: string, c: char)
    ensures forall part :: part in SplitOn(s, c) ==> c !in part
    ensures c in s <==> |SplitOn(s, c)| > 1
    decreases |s|
  {
    IndexOfFirst(s, c);
    var i := IndexOf(s, c);
    if i < |s| { SplitOnParts(s[i + 1..], c); }
  }

  lemma {:induction false} PiecesCount(pairs: seq<Pair>)
    ensures |PiecesOf(pairs)| >= |pairs|
    ensures |PiecesOf(pairs)| == |pairs| ==> forall i :: 0 <= i < |pairs| ==> PiecesOf(pairs)[i] == KeyValue(pairs[i])
    ensures |PiecesOf(pairs)| == |pairs| ==> forall i :: 0 <= i < |pairs| ==> '&' !in KeyValue(pairs[i])
  {
    if pairs != [] {
      var kv := KeyValue(pairs[0]);
      PiecesCount(pairs[1..]);
      SplitOnParts(kv, '&');
      if |PiecesOf(pairs)| == |pairs| { SplitOnNone(kv, '&'); }
    }
  }

  lemma {:induction false} ParsedEach(pieces: seq<string>)
    requires ParsePairs(pieces).Some?
    ensures |ParsePairs(pieces).value| == |pieces|
    ensures forall i :: 0 <= i < |pieces| ==> ParsePair(pieces[i]) == Some(ParsePairs(pieces).value[i])
  {
    if pieces != [] { ParsedEach(pieces[1..]); }
  }

  lemma {:induction false} ParsedParts(piece: string)
    requires ParsePair(piece).Some?
    ensures var p := ParsePair(piece).value;
            && '=' !in p.0 && '=' !in p.1
            && ('&' !in piece ==> '&' !in p.0 && '&' !in p.1)
  {
    SplitOnParts(piece, '=');
    var parts := SplitOn(piece, '=');
    assert parts[0] in parts && parts[1] in parts;
    SplitOnInside(piece, '=');
  }

  lemma {:induction false} SplitOnInside(s: string, c: char)
    ensures forall part, d :: part in SplitOn(s, c) && d in part ==> d in s
    decreases |s|
  {
    var i := IndexOf(s, c);
    if i < |s| { SplitOnInside(s[i + 1..], c); }
  }

  /** A printed query reads back as the pairs iff none of them contains a separator. */
  lemma {:induction false} PrintParseIff(pairs: seq<Pair>)
    requires pairs != []
    ensures ParsePairs(SplitOn(JoinPairs(pairs), '&')) == Some(pairs) <==> SeparablePairs(pairs)
  {
    SplitJoined(pairs);
    var pieces := PiecesOf(pairs);
    if SeparablePairs(pairs) {
      ParsePieces(pairs);
    } else if ParsePairs(pieces) == Some(pairs) {
      ParsedEach(pieces);
      PiecesCount(pairs);
      forall p | p in pairs ensures Separable(p.0) && Separable(p.1) {
        var i :| 0 <= i < |pairs| && pairs[i] == p;
        assert pieces[i] == KeyValue(p) && ParsePair(pieces[i]) == Some(p);
        ParsedParts(pieces[i]);
      }
    }
  }

  /** Escaping keeps texts separable. */
  lemma {:induction false} EscapedSeparable(pairs: seq<Pair>)
    requires SeparablePairs(pairs)
    ensures SeparablePairs(EscapedPairs(pairs))
  {
    var es := EscapedPairs(pairs);
    forall e | e in es ensures Separable(e.0) && Separable(e.1) {
      var i :| 0 <= i < |es| && es[i] == e;
      assert pairs[i] in pairs;
      EscapedHas(InQuery, pairs[i].0, '&');
      EscapedHas(InQuery, pairs[i].0, '=');
      EscapedHas(InQuery, pairs[i].1, '&');
      EscapedHas(InQuery, pairs[i].1, '=');
    }
  }

  // ----- what becomes a parameter, and what a piece says -----

  /** Strings, numbers and booleans are parameters, as they print; other values are not. */
  lemma {:induction false} ParametersAre(params: map<string, Value>, k: string)
    ensures MapGet(FilterToolParams(Some(params)), k)
         == if k !in params then None
            else
              match params[k]
              case String(s) => Some(s)
              case Number(text) => Some(text)
              case Bool(b) => Some(if b then "true" else "false")
              case _ => None
    ensures FilterToolParams(None) == map[]
  {
  }

  /** Of a piece with several '=' the second part is the value. */
  lemma {:induction false} ParsedPiece(k: string, v: string, rest: string)
    requires '=' !in k && '=' !in v
    ensures ParsePair(k + (['='] + v)) == Some((k, v))
    ensures ParsePair(k + (['='] + (v + (['='] + rest)))) == Some((k, v))
  {
    SplitOnFirst(k, '=', v);
    SplitOnNone(v, '=');
    SplitOnFirst(k, '=', v + (['='] + rest));
    SplitOnFirst(v, '=', rest);
  }
}
