/** The request to a developer endpoint (crates/prompt_gateway/src/tools.rs): its path, and for POST its body. */
module Tools {
  import opened Wrappers
  import opened Strings
  import opened UrlJoin
  import opened PathTemplate

  /** A YAML value; `text` is how a number prints. */
  datatype Value = Null | Bool(b: bool) | Number(text: string) | String(s: string) | Sequence | Mapping | Tagged

  predicate Simple(v: Value) {
    v.Number? || v.String? || v.Bool?
  }

  function Show(v: Value): string
    requires Simple(v)
  {
    match v
    case Number(text) => text
    case String(s) => s
    case Bool(b) => if b then "true" else "false"
  }

  /** `filter_tool_params`: only strings, numbers and booleans are parameters. */
  function FilterToolParams(params: Option<map<string, Value>>): map<string, string> {
    if params.None? then map[]
    else map k | k in params.value && Simple(params.value[k]) :: Show(params.value[k])
  }

  datatype HttpMethod = GET | POST

  datatype Request = Request(path: string, body: Option<map<string, string>>)

  /** `Panic` is a failed `unwrap`. */
  datatype Outcome = Built(request: Request) | Failed(why: string) | Panic

  /** Key and value of one piece; without a second part the `unwrap` panics. */
  function ParsePair(piece: string): Option<Pair> {
    var parts := SplitOn(piece, '=');
    if |parts| < 2 then None else Some((parts[0], parts[1]))
  }

  function ParsePairs(pieces: seq<string>): Option<seq<Pair>> {
    if pieces == [] then Some([])
    else
      var first, rest := ParsePair(pieces[0]), ParsePairs(pieces[1..]);
      if first.None? || rest.None? then None else Some([first.value] + rest.value)
  }

  /** The query read back into the body map. */
  function ReadBack(query: string, extra: map<string, string>): Option<map<string, string>> {
    if query == [] then Some(extra)
    else
      var pairs := ParsePairs(SplitOn(query, '&'));
      if pairs.None? then None else Some(PutAll(extra, pairs.value))
  }

  /** `compute_request_path_body` */
  function ComputeRequest(lib: Library, path: string, params: Option<map<string, Value>>, order: seq<string>,
      declared: seq<Parameter>, verb: HttpMethod): Outcome
    requires forall k :: k in order ==> k in FilterToolParams(params)
  {
    match ReplaceParams(lib, path, order, FilterToolParams(params), declared)
    case Err(e) => Failed(e)
    case Ok(r) =>
      match verb
      case GET => Built(Request(r.path + "?" + r.query, None))
      case POST =>
        var body := ReadBack(r.query, r.params);
        if body.None? then Panic else Built(Request(r.path, body))
  }

  method ComputeRequestPathBody(lib: Library, path: string, params: Option<map<string, Value>>, order: seq<string>,
      declared: seq<Parameter>, verb: HttpMethod)
    returns (r: Outcome)
    requires Iterates(order, FilterToolParams(params))
    ensures r == ComputeRequest(lib, path, params, order, declared, verb)
  {
    var replaced := ReplaceParamsInPath(lib, path, order, FilterToolParams(params), declared);
    if replaced.Err? {
      return Failed(replaced.error);
    }
    var Replaced(pathWithParams, query, extra) := replaced.value;
    if verb.GET? {
      return Built(Request(pathWithParams + "?" + query, None));
    }
    var body := extra;
    if query != [] {
      var pieces := SplitOn(query, '&');
      assert pieces[0..] == pieces;
      ghost var all := ParsePairs(pieces);
      for i := 0 to |pieces|
        invariant all.None? <==> ParsePairs(pieces[i..]).None?
        invariant all.Some? ==> PutAll(body, ParsePairs(pieces[i..]).value) == PutAll(extra, all.value)
      {
        assert pieces[i..][0] == pieces[i] && pieces[i..][1..] == pieces[i + 1..];
        var parts := SplitOn(pieces[i], '=');
        if |parts| < 2 {
          return Panic;
        }
        if ParsePairs(pieces[i + 1..]).Some? {
          StepPair("", body, (parts[0], parts[1]), ParsePairs(pieces[i + 1..]).value);
        }
        body := body[parts[0] := parts[1]];
      }
    }
    return Built(Request(pathWithParams, Some(body)));
  }
}
