/**
 From the tool call of the model to the developer's endpoint: when the gateway panics over a request,
 in terms of the endpoint's path, its parameters and the arguments of the call
 (crates/prompt_gateway/src/stream_context.rs:370-475, tools.rs and crates/common/src/path.rs).
 */
module PromptRequests {
  import opened Wrappers
  import opened PromptGateway
  import opened PromptProtocol
  import opened PromptTraps
  import T = Tools
  import PT = PathTemplate
  import PQ = PathQuery
  import PR = PathRequests
  import UJ = UrlJoin

  /** The model calls this target, and the gateway passes the call on itself. */
  predicate CallsTool(cfg: Config, input: ResponseInput, name: string) {
    && Delivered(input) && input.body.text.Some? && input.body.parsed.Some? && !cfg.useAgentOrchestrator
    && var r := input.body.parsed.value;
       r.choices != [] && HasToolCalls(r.choices[0].toolCalls) && r.choices[0].toolCalls.value[0].name == name
  }

  /** The target has an endpoint with this path, and expanded with these arguments it is taken whole. */
  ghost predicate Reaches(cfg: Config, name: string, tokens: seq<PQ.Token>, arguments: Arguments) {
    && name in cfg.targets && cfg.targets[name].endpoint.Some?
    && GetOr(cfg.targets[name].endpoint.value.path, "/") == PQ.Template(tokens)
    && PR.Tame(tokens, T.FilterToolParams(arguments.values), GetOr(cfg.targets[name].parameters, []))
  }

  /** A POST whose query has a piece without '='. */
  ghost predicate BadPost(target: PromptTarget, tokens: seq<PQ.Token>, arguments: Arguments)
    requires target.endpoint.Some?
  {
    && GetOr(target.endpoint.value.verb, T.GET) == T.POST
    && PR.PostPanics(tokens, T.FilterToolParams(arguments.values), GetOr(target.parameters, []))
  }

  lemma {:induction false} UncallableIff(cfg: Config, name: string, tokens: seq<PQ.Token>, arguments: Arguments)
    requires Reaches(cfg, name, tokens, arguments)
    ensures Uncallable(cfg, name, arguments) <==> BadPost(cfg.targets[name], tokens, arguments)
  {
    var target := cfg.targets[name];
    if GetOr(target.endpoint.value.verb, T.GET) == T.POST {
      PR.PostPanicsIff(cfg.library, tokens, arguments.values, arguments.order, GetOr(target.parameters, []));
    }
  }

  /** The first call of a request, and the model's answer to it. */
  lemma {:induction false} FirstCall(cfg: Config, input: RequestInput, first: Response)
    requires ValidConfig(cfg) && Starts(input) && first.token == input.dispatch.value
    ensures var o := OnRequestBody(NewStream(), true, input).0;
            && o.Next? && Inv(cfg, o.s) && first.token in o.s.callouts
            && o.s.callouts[first.token].handler.ArchFC?
            && Responses(o.s, cfg, [first]) == OnCallResponse(o.s, cfg, first.token, first.input)
  {
    RequestBodyStarts(cfg, input);
    LastResponse(cfg, OnRequestBody(NewStream(), true, input).0.s, first);
  }

  /**
   A run in which the model calls a tool panics at once iff the endpoint takes a POST, the placeholders
   of its path have arguments, and a piece of the query has no '='.
   */
  lemma {:induction false} ToolCallRunTrapsIff(cfg: Config, input: RequestInput, first: Response, name: string,
      tokens: seq<PQ.Token>)
    requires ValidConfig(cfg) && Starts(input) && first.token == input.dispatch.value
    requires CallsTool(cfg, first.input, name) && Reaches(cfg, name, tokens, first.input.arguments)
    ensures OnRequestBody(NewStream(), true, input).0.Next?
    ensures Responses(OnRequestBody(NewStream(), true, input).0.s, cfg, [first]).Trap?
       <==> BadPost(cfg.targets[name], tokens, first.input.arguments)
  {
    FirstCall(cfg, input, first);
    var s := OnRequestBody(NewStream(), true, input).0.s;
    CallbackTrapsIff(cfg, s, first.token, first.input);
    UncallableIff(cfg, name, tokens, first.input.arguments);
  }

  /** Such a run: the default "R&D" of a parameter that the model leaves out. */
  lemma {:induction false} DefaultTrapExists(lib: UJ.Library)
      returns (cfg: Config, input: RequestInput, first: Response, tokens: seq<PQ.Token>)
    ensures ValidConfig(cfg) && Starts(input) && first.token == input.dispatch.value
    ensures CallsTool(cfg, first.input, "t") && Reaches(cfg, "t", tokens, first.input.arguments)
    ensures cfg.targets["t"].parameters == Some([PT.Parameter("dept", Some("R&D"))])
    ensures OnRequestBody(NewStream(), true, input).0.Next?
    ensures Responses(OnRequestBody(NewStream(), true, input).0.s, cfg, [first]).Trap?
  {
    var declared := [PT.Parameter("dept", Some("R&D"))];
    var target := PromptTarget("t", None, Some(Endpoint("endpoint", Some("/x"), Some(T.POST))), Some(declared), None,
        None);
    cfg := Config(map["t" := target], ["t"], None, false, lib);
    var request := ChatRequest("m", [Text(USER_ROLE, "hi")], false);
    input := RequestInput(1, true, Some(request), true, true, Some(1));
    var call := Message(ASSISTANT_ROLE, None, Some([ToolCall("c", "t", "{}")]));
    first := Response(1, ResponseInput(None, RawBody(Some("{}"), Some(ChatResponse([call], "m", None))),
        RawArguments(Some(map[]), []), true, None));
    tokens := DefaultLacks(T.FilterToolParams(first.input.arguments.values), declared);
    ToolCallRunTrapsIff(cfg, input, first, "t", tokens);
  }

  lemma {:induction false} DefaultLacks(params: map<string, string>, declared: seq<PT.Parameter>)
      returns (tokens: seq<PQ.Token>)
    requires params.Keys == {} && declared == [PT.Parameter("dept", Some("R&D"))]
    ensures PQ.Template(tokens) == "/x" && PR.Tame(tokens, params, declared)
    ensures PR.PostPanics(tokens, params, declared)
  {
    PR.PlainX();
    PR.HalvesLack();
    tokens := PR.PlainPathTame("/x", params, declared);
    assert PT.Parameter("dept", Some("R&D")) in declared;
    assert PR.Sends(params, declared, {}, ("dept", "R&D")) && PQ.KeyValue(("dept", "R&D")) == "dept" + "=" + "R&D";
  }
}
