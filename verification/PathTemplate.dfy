/**
 Path templates of developer endpoints (crates/common/src/path.rs): `{name}` is replaced by the
 percent-encoded tool parameter, the other parameters and the defaults go into the query.
 */
module PathTemplate {
  import opened Wrappers
  import opened Strings
  import opened PercentEncoding
  import opened UrlJoin

  // ----- the scanner -----

  datatype Scanned = Scanned(text: string, replaced: set<string>)

  /** The state of the character loop. */
  datatype Scan = Scan(done: Scanned, current: string, inParam: bool)

  function MissingValue(name: string): string {
    "Missing value for parameter `" + name + "`"
  }

  function ScanChar(s: Scan, c: char, params: map<string, string>): Result<Scan, string> {
    if c == '{' then Ok(s.(inParam := true))
    else if c == '}' then
      if s.current in params
      then Ok(Scan(Scanned(s.done.text + Encode(params[s.current]), s.done.replaced + {s.current}), [], false))
      else Err(MissingValue(s.current))
    else if s.inParam then Ok(s.(current := s.current + [c]))
    else Ok(s.(done := s.done.(text := s.done.text + [c])))
  }

  function ScanFrom(s: Scan, path: string, params: map<string, string>): Result<Scan, string>
    decreases |path|
  {
    if path == [] then Ok(s)
    else
      match ScanChar(s, path[0], params)
      case Err(e) => Err(e)
      case Ok(t) => ScanFrom(t, path[1..], params)
  }

  const START: Scan := Scan(Scanned([], {}), [], false)

  // ----- the query -----

  /** A parameter that the prompt target declares. */
  datatype Parameter = Parameter(name: string, default: Option<string>)

  type Pair = (string, string)

  function AppendPair(url: string, p: Pair): string {
    url + (if '?' in url then "&" else "?") + (p.0 + "=" + p.1)
  }

  function AppendPairs(url: string, pairs: seq<Pair>): string
    decreases |pairs|
  {
    if pairs == [] then url else AppendPairs(AppendPair(url, pairs[0]), pairs[1..])
  }

  /** The tool parameters that no placeholder used, in iteration order, encoded. */
  function Remaining(order: seq<string>, params: map<string, string>, replaced: set<string>): seq<Pair>
    requires forall k :: k in order ==> k in params
  {
    if order == [] then []
    else
      assert order[0] in order;
      (if order[0] in replaced then [] else [(order[0], Encode(params[order[0]]))])
          + Remaining(order[1..], params, replaced)
  }

  /** The declared defaults of the parameters that were not supplied. */
  function Defaults(declared: seq<Parameter>, supplied: set<string>): seq<Pair> {
    if declared == [] then []
    else
      (if declared[0].name in supplied || declared[0].default.None? then []
          else [(declared[0].name, declared[0].default.value)])
      + Defaults(declared[1..], supplied)
  }

  function PutAll(m: map<string, string>, pairs: seq<Pair>): map<string, string>
    decreases |pairs|
  {
    if pairs == [] then m else PutAll(m[pairs[0].0 := pairs[0].1], pairs[1..])
  }

  /** `order` is the iteration order of the hash map `params`. */
  ghost predicate Iterates(order: seq<string>, params: map<string, string>) {
    && (forall k :: k in order <==> k in params)
    && (forall i, j :: 0 <= i < j < |order| ==> order[i] != order[j])
  }

  /** The pairs that go into the query. */
  function QueryPairs(order: seq<string>, params: map<string, string>, declared: seq<Parameter>,
      replaced: set<string>): seq<Pair>
    requires forall k :: k in order ==> k in params
  {
    Remaining(order, params, replaced) + Defaults(declared, replaced + params.Keys)
  }

  datatype Replaced = Replaced(path: string, query: string, params: map<string, string>)

  /** The url as it was put together, joined. */
  function SplitUrl(lib: Library, url: string, params: map<string, string>): Result<Replaced, string> {
    match Join(lib, url)
    case Err(e) => Err(e)
    case Ok((path, query)) => Ok(Replaced(path, query, params))
  }

  /** `replace_params_in_path` */
  function ReplaceParams(lib: Library, path: string, order: seq<string>, params: map<string, string>,
      declared: seq<Parameter>)
    : Result<Replaced, string>
    requires forall k :: k in order ==> k in params
  {
    match ScanFrom(START, path, params)
    case Err(e) => Err(e)
    case Ok(s) =>
      var pairs := QueryPairs(order, params, declared, s.done.replaced);
      SplitUrl(lib, AppendPairs(s.done.text, pairs), PutAll(map[], pairs))
  }

  method ScanPath(path: string, params: map<string, string>) returns (r: Result<Scanned, string>)
    ensures r == match ScanFrom(START, path, params) case Err(e) => Err(e) case Ok(s) => Ok(s.done)
  {
    var text, current, replaced, inParam := "", "", {}, false;
    assert path[0..] == path;
    for i := 0 to |path|
      invariant ScanFrom(Scan(Scanned(text, replaced), current, inParam), path[i..], params)
          == ScanFrom(START, path, params)
    {
      var c := path[i];
      assert path[i..][0] == c && path[i..][1..] == path[i + 1..];
      if c == '{' {
        inParam := true;
      } else if c == '}' {
        inParam := false;
        if current !in params {
          return Err(MissingValue(current));
        }
        text := text + Encode(params[current]);
        replaced := replaced + {current};
        current := "";
      } else if inParam {
        current := current + [c];
      } else {
        text := text + [c];
      }
    }
    return Ok(Scanned(text, replaced));
  }

  method ReplaceParamsInPath(lib: Library, path: string, order: seq<string>, params: map<string, string>,
      declared: seq<Parameter>)
    returns (r: Result<Replaced, string>)
    requires Iterates(order, params)
    ensures r == ReplaceParams(lib, path, order, params, declared)
  {
    var scanned := ScanPath(path, params);
    if scanned.Err? {
      return Err(scanned.error);
    }
    var url, replaced := scanned.value.text, scanned.value.replaced;
    var extra: map<string, string> := map[];
    url, replaced, extra := AddRemaining(url, replaced, order, params);
    url, extra := AddDefaults(url, replaced, extra, declared);
    ghost var first := Remaining(order, params, scanned.value.replaced);
    ghost var second := Defaults(declared, scanned.value.replaced + params.Keys);
    AppendPairsSplit(scanned.value.text, first, second);
    PutAllSplit(map[], first, second);
    return SplitUrl(lib, url, extra);
  }

  /** What is still to be appended to a url, and put into a map, gives the same in the end. */
  ghost predicate Leads(url: string, m: map<string, string>, rest: seq<Pair>, full: string, all: map<string, string>) {
    AppendPairs(url, rest) == full && PutAll(m, rest) == all
  }

  lemma {:induction false} LeadsOn(url: string, m: map<string, string>, p: Pair, rest: seq<Pair>, full: string,
      all: map<string, string>)
    requires Leads(url, m, [p] + rest, full, all)
    ensures Leads(AppendPair(url, p), m[p.0 := p.1], rest, full, all)
  {
    StepPair(url, m, p, rest);
  }

  /** The first `i` names have been visited, and the rest of them leads to the result. */
  ghost predicate Visiting(order: seq<string>, params: map<string, string>, used: set<string>, i: nat, url: string,
      replaced: set<string>, extra: map<string, string>, full: string, all: map<string, string>)
  {
    && i <= |order| && Iterates(order, params) && replaced == used + Visited(order, i)
    && Leads(url, extra, Remaining(order[i..], params, used), full, all)
  }

  lemma {:induction false} VisitOne(order: seq<string>, params: map<string, string>, used: set<string>, i: nat,
      url: string, replaced: set<string>, extra: map<string, string>, full: string, all: map<string, string>)
    requires Visiting(order, params, used, i, url, replaced, extra, full, all) && i < |order|
    ensures order[i] in params
    ensures order[i] in replaced ==> Visiting(order, params, used, i + 1, url, replaced, extra, full, all)
    ensures order[i] !in replaced ==>
      var p := (order[i], Encode(params[order[i]]));
      Visiting(order, params, used, i + 1, AppendPair(url, p), replaced + {p.0}, extra[p.0 := p.1], full, all)
  {
    VisitNext(order, params, i);
    RemainingCons(order, params, used, i);
    assert replaced + {order[i]} == used + Visited(order, i + 1);
    if order[i] in replaced {
      assert replaced + {order[i]} == replaced;
    } else {
      LeadsOn(url, extra, (order[i], Encode(params[order[i]])), Remaining(order[i + 1..], params, used), full, all);
    }
  }

  lemma {:induction false} VisitStart(order: seq<string>, params: map<string, string>, used: set<string>, start: string,
      extra: map<string, string>)
    requires Iterates(order, params)
    ensures Visiting(order, params, used, 0, start, used, extra, AppendPairs(start, Remaining(order, params, used)),
        PutAll(extra, Remaining(order, params, used)))
  {
    assert order[0..] == order && used + Visited(order, 0) == used;
  }

  lemma {:induction false} VisitEnd(order: seq<string>, params: map<string, string>, used: set<string>, url: string,
      replaced: set<string>, extra: map<string, string>, full: string, all: map<string, string>)
    requires Visiting(order, params, used, |order|, url, replaced, extra, full, all)
    ensures url == full && extra == all && replaced == used + params.Keys
  {
    VisitedAll(order, params);
    assert order[|order|..] == [];
  }

  /** The loop over the remaining tool parameters. */
  method AddRemaining(start: string, used: set<string>, order: seq<string>, params: map<string, string>)
    returns (url: string, replaced: set<string>, extra: map<string, string>)
    requires Iterates(order, params)
    ensures url == AppendPairs(start, Remaining(order, params, used))
    ensures extra == PutAll(map[], Remaining(order, params, used))
    ensures replaced == used + params.Keys
  {
    url, replaced, extra := start, used, map[];
    ghost var full := AppendPairs(start, Remaining(order, params, used));
    ghost var all := PutAll(extra, Remaining(order, params, used));
    VisitStart(order, params, used, start, extra);
    for i := 0 to |order|
      invariant Visiting(order, params, used, i, url, replaced, extra, full, all)
    {
      VisitOne(order, params, used, i, url, replaced, extra, full, all);
      var name := order[i];
      if name !in replaced {
        var value := Encode(params[name]);
        url, extra := AppendPair(url, (name, value)), extra[name := value];
        replaced := replaced + {name};
      }
    }
    VisitEnd(order, params, used, url, replaced, extra, full, all);
  }

  lemma {:induction false} RemainingCons(order: seq<string>, params: map<string, string>, used: set<string>, i: nat)
    requires (forall k :: k in order ==> k in params) && i < |order|
    ensures order[i] in params
    ensures Remaining(order[i..], params, used)
         == if order[i] in used then Remaining(order[i + 1..], params, used)
            else [(order[i], Encode(params[order[i]]))] + Remaining(order[i + 1..], params, used)
  {
    assert order[i] in order && order[i..][0] == order[i] && order[i..][1..] == order[i + 1..];
    assert [] + Remaining(order[i + 1..], params, used) == Remaining(order[i + 1..], params, used);
  }

  function Visited(order: seq<string>, n: nat): set<string>
    requires n <= |order|
  {
    set k | k in order[..n]
  }

  lemma {:induction false} VisitNext(order: seq<string>, params: map<string, string>, i: nat)
    requires Iterates(order, params) && i < |order|
    ensures Visited(order, i + 1) == Visited(order, i) + {order[i]} && order[i] !in Visited(order, i)
  {
    assert order[..i + 1] == order[..i] + [order[i]];
  }

  lemma {:induction false} VisitedAll(order: seq<string>, params: map<string, string>)
    requires Iterates(order, params)
    ensures Visited(order, |order|) == params.Keys
  {
    assert order[..|order|] == order;
  }

  /** The loop over the declared parameters. */
  method AddDefaults(start: string, supplied: set<string>, before: map<string, string>, declared: seq<Parameter>)
    returns (url: string, extra: map<string, string>)
    ensures url == AppendPairs(start, Defaults(declared, supplied))
    ensures extra == PutAll(before, Defaults(declared, supplied))
  {
    url, extra := start, before;
    assert declared[0..] == declared;
    ghost var full := AppendPairs(start, Defaults(declared, supplied));
    ghost var all := PutAll(before, Defaults(declared, supplied));
    for i := 0 to |declared|
      invariant Leads(url, extra, Defaults(declared[i..], supplied), full, all)
    {
      var param := declared[i];
      assert declared[i..][0] == param && declared[i..][1..] == declared[i + 1..];
      if param.name !in supplied && param.default.Some? {
        var p := (param.name, param.default.value);
        LeadsOn(url, extra, p, Defaults(declared[i + 1..], supplied), full, all);
        url, extra := AppendPair(url, p), extra[p.0 := p.1];
      } else {
        assert [] + Defaults(declared[i + 1..], supplied) == Defaults(declared[i + 1..], supplied);
      }
    }
  }

  lemma {:induction false} StepPair(url: string, m: map<string, string>, p: Pair, rest: seq<Pair>)
    ensures AppendPairs(url, [p] + rest) == AppendPairs(AppendPair(url, p), rest)
    ensures PutAll(m, [p] + rest) == PutAll(m[p.0 := p.1], rest)
  {
    assert ([p] + rest)[1..] == rest;
  }

  lemma {:induction false} AppendPairsSplit(url: string, a: seq<Pair>, b: seq<Pair>)
    ensures AppendPairs(url, a + b) == AppendPairs(AppendPairs(url, a), b)
    decreases |a|
  {
    if a == [] {
      assert a + b == b;
    } else {
      assert (a + b)[1..] == a[1..] + b;
      AppendPairsSplit(AppendPair(url, a[0]), a[1..], b);
    }
  }

  lemma {:induction false} PutAllSplit(m: map<string, string>, a: seq<Pair>, b: seq<Pair>)
    ensures PutAll(m, a + b) == PutAll(PutAll(m, a), b)
    decreases |a|
  {
    if a == [] {
      assert a + b == b;
    } else {
      assert (a + b)[1..] == a[1..] + b;
      PutAllSplit(m[a[0].0 := a[0].1], a[1..], b);
    }
  }
}
