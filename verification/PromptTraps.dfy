/**
 When a run of the call-out protocol panics, exactly: one condition for the response callback as a
 whole, lifted to the runs from the request body on (crates/prompt_gateway/src/context.rs,
 stream_context.rs, http_context.rs).
 */
module PromptTraps {
  import opened Wrappers
  import opened PromptGateway
  import opened PromptProtocol
  import UJ = UrlJoin

  /** The response is handed to its handler: its status, if there is one, is a success. */
  predicate Delivered(input: ResponseInput) {
    input.status.Some? ==> input.status.value.Code? && Success(input.status.value.code)
  }

  /** A model response that the gateway cannot act on. */
  ghost predicate ArchFcTraps(cfg: Config, input: ResponseInput)
    requires ValidConfig(cfg)
  {
    || input.body.text.None?
    || (input.body.parsed.Some? &&
        var r := input.body.parsed.value;
        if !IntentMatched(r) then
          FindDefault(cfg, cfg.order).Some? && FindDefault(cfg, cfg.order).value.endpoint.None?
        else
          HasToolCalls(r.choices[0].toolCalls) && !cfg.useAgentOrchestrator &&
          Uncallable(cfg, r.choices[0].toolCalls.value[0].name, input.arguments))
  }

  /** An answer of the default target that the gateway cannot use. */
  ghost predicate DefaultTargetTraps(cfg: Config, streaming: bool, target: string, request: ChatRequest,
      input: ResponseInput)
    requires target in cfg.targets && request.messages != []
  {
    var dispatch := cfg.targets[target].autoLlmDispatch != Some(false);
    || input.body.text.None?
    || (input.body.parsed.Some? && (dispatch || streaming) &&
        (AnswerMissing(input.body.parsed.value)
         || (dispatch && request.messages[|request.messages| - 1].content.None?)))
  }

  /** The condition under which the response callback panics. */
  ghost predicate TrapsOn(cfg: Config, s: Stream, ctx: CallContext, input: ResponseInput)
    requires ValidConfig(cfg) && ContextOk(cfg, s, ctx)
  {
    if !Delivered(input) then input.status.value.Unparsable? || input.body.text.None?
    else
      match ctx.handler
      case ArchFC => ArchFcTraps(cfg, input)
      case FunctionCall => input.body.text.None?
      case DefaultTarget =>
        ctx.request.messages != [] && DefaultTargetTraps(cfg, s.streaming, ctx.targetName.value, ctx.request, input)
  }

  lemma {:induction false} WaitsOk(cfg: Config, s: Stream, token: nat)
    requires Inv(cfg, s) && token in s.callouts
    ensures ContextOk(cfg, s, s.callouts[token]) && s.callouts[token].request.messages != []
  {
    TakeOut(cfg, s, token);
  }

  /** The response callback panics iff its call is unknown, or its condition holds. */
  lemma {:induction false} CallbackTrapsIff(cfg: Config, s: Stream, token: nat, input: ResponseInput)
    requires ValidConfig(cfg) && Inv(cfg, s)
    ensures token in s.callouts ==> ContextOk(cfg, s, s.callouts[token])
    ensures OnCallResponse(s, cfg, token, input).Trap?
       <==> token !in s.callouts || TrapsOn(cfg, s, s.callouts[token], input)
  {
    if token in s.callouts {
      WaitsOk(cfg, s, token);
      var ctx, t := s.callouts[token], TakenOut(s, token);
      if Delivered(input) { HandlerTrapsIff(cfg, t, ctx, input); }
    }
  }

  lemma {:induction false} HandlerTrapsIff(cfg: Config, t: Stream, ctx: CallContext, input: ResponseInput)
    requires ValidConfig(cfg) && ContextOk(cfg, t, ctx) && Delivered(input)
    ensures Handle(t, cfg, ctx, input).Trap? <==> TrapsOn(cfg, t, ctx, input)
  {
    match ctx.handler
    case ArchFC => ArchFcTrapsIff(cfg, t, ctx, input);
    case FunctionCall => ApiCallTrapsIff(cfg, t, ctx, input);
    case DefaultTarget => DefaultTargetTrapsIff(cfg, t, ctx, input);
  }

  // ----- runs -----

  /** The `n`th response of a run panics, after the others did not. */
  ghost predicate TrapsAt(cfg: Config, start: Stream, rs: seq<Response>, n: nat)
    requires ValidConfig(cfg) && n < |rs|
  {
    var o := Responses(start, cfg, rs[..n]);
    && o.Next?
    && (rs[n].token in o.s.callouts ==>
        && ContextOk(cfg, o.s, o.s.callouts[rs[n].token])
        && TrapsOn(cfg, o.s, o.s.callouts[rs[n].token], rs[n].input))
  }

  /** A run from the request body on panics iff one of its responses does. */
  lemma {:induction false} RunTrapsIff(cfg: Config, input: RequestInput, rs: seq<Response>)
    requires ValidConfig(cfg)
    requires OnRequestBody(NewStream(), true, input).1.Pause? && OnRequestBody(NewStream(), true, input).0.Next?
    ensures var start := OnRequestBody(NewStream(), true, input).0.s;
            Responses(start, cfg, rs).Trap? <==> exists n: nat :: n < |rs| && TrapsAt(cfg, start, rs, n)
  {
    RequestBodyStarts(cfg, input);
    var start := OnRequestBody(NewStream(), true, input).0.s;
    if Responses(start, cfg, rs).Trap? {
      var n := FirstTrap(cfg, start, rs);
    } else if n: nat :| n < |rs| && TrapsAt(cfg, start, rs, n) {
      TrapStays(cfg, start, rs, n);
    }
  }

  lemma {:induction false} TrapsAtFirst(cfg: Config, s: Stream, rs: seq<Response>)
    requires ValidConfig(cfg) && Inv(cfg, s) && rs != []
    requires OnCallResponse(s, cfg, rs[0].token, rs[0].input).Trap?
    ensures TrapsAt(cfg, s, rs, 0)
  {
    CallbackTrapsIff(cfg, s, rs[0].token, rs[0].input);
    assert rs[..0] == [];
  }

  lemma {:induction false} TrapsAtLater(cfg: Config, s: Stream, rs: seq<Response>, t: Stream, m: nat)
    requires ValidConfig(cfg) && rs != [] && OnCallResponse(s, cfg, rs[0].token, rs[0].input) == Next(t)
    requires m < |rs| - 1 && TrapsAt(cfg, t, rs[1..], m)
    ensures TrapsAt(cfg, s, rs, m + 1)
  {
    var front := rs[..m + 1];
    assert front[0] == rs[0] && front[1..] == rs[1..][..m];
  }

  lemma {:induction false} FirstTrap(cfg: Config, s: Stream, rs: seq<Response>) returns (n: nat)
    requires ValidConfig(cfg) && Inv(cfg, s) && Responses(s, cfg, rs).Trap?
    ensures n < |rs| && TrapsAt(cfg, s, rs, n)
    decreases |rs|
  {
    var o := ResponseStep(cfg, s, rs[0].token, rs[0].input);
    if o.Trap? {
      TrapsAtFirst(cfg, s, rs);
      n := 0;
    } else {
      var m := FirstTrap(cfg, o.s, rs[1..]);
      TrapsAtLater(cfg, s, rs, o.s, m);
      n := m + 1;
    }
  }

  lemma {:induction false} TrapStays(cfg: Config, s: Stream, rs: seq<Response>, n: nat)
    requires ValidConfig(cfg) && Inv(cfg, s) && n < |rs| && TrapsAt(cfg, s, rs, n)
    ensures Responses(s, cfg, rs).Trap?
    decreases n
  {
    CallbackTrapsIff(cfg, s, rs[0].token, rs[0].input);
    var o := ResponseStep(cfg, s, rs[0].token, rs[0].input);
    if n == 0 {
      assert rs[..0] == [];
    } else {
      assert rs[..n] == [rs[0]] + rs[1..][..n - 1] && rs[..n][1..] == rs[1..][..n - 1];
      TrapStays(cfg, o.s, rs[1..], n - 1);
    }
  }

  // ----- a run that the documentation does not foresee -----

  /** A request body that starts a call to the function-calling model. */
  predicate Starts(input: RequestInput) {
    && input.size > 0 && input.readable && input.parsed.Some? && input.archStateOk && input.serializable
    && LastUserPrompt(input.parsed.value.messages).Some? &&
        LastUserPrompt(input.parsed.value.messages).value.content.Some?
    && input.dispatch.Some?
  }

  /** The model sees no intent, and the default target, which is to be followed by the upstream model, can be called. */
  predicate GoesToDefault(cfg: Config, input: ResponseInput)
    requires forall n :: n in cfg.order ==> n in cfg.targets
  {
    var d := FindDefault(cfg, cfg.order);
    && Delivered(input) && input.body.text.Some? && input.body.parsed.Some? && !IntentMatched(input.body.parsed.value)
    && d.Some? && d.value.endpoint.Some? && input.dispatch.Some?
    && d.value.name in cfg.targets && cfg.targets[d.value.name].autoLlmDispatch != Some(false)
  }

  /** The default target answers as it should. */
  predicate Answers(input: ResponseInput) {
    Delivered(input) && input.body.text.Some? && input.body.parsed.Some? && !AnswerMissing(input.body.parsed.value)
  }

  /**
   Every response is as it should be, and still the run panics, iff the last message of the request
   has no content: such a message may follow the user message that the gateway looked at.
   */
  lemma {:induction false} DefaultTargetRunTrapsIff(cfg: Config, input: RequestInput, first: Response, second: Response)
    requires ValidConfig(cfg) && Starts(input) && GoesToDefault(cfg, first.input) && Answers(second.input)
    requires first.token == input.dispatch.value && second.token == first.input.dispatch.value
    ensures OnRequestBody(NewStream(), true, input).0.Next? && input.parsed.value.messages != []
    ensures var messages := input.parsed.value.messages;
            Responses(OnRequestBody(NewStream(), true, input).0.s, cfg, [first, second]).Trap?
            <==> messages[|messages| - 1].content.None?
  {
    var request := input.parsed.value;
    var ctx := CallContext(ArchFC, None, request, Some("arch_internal"), Some("/function_calling"));
    var s := OnRequestBody(NewStream(), true, input).0.s;
    RequestBodyStarts(cfg, input);
    assert s.callouts == map[first.token := ctx];
    var t := FirstAnswered(cfg, s, ctx, first);
    TwoResponses(cfg, s, first, second, t);
    CallbackTrapsIff(cfg, t, second.token, second.input);
  }

  lemma {:induction false} LastResponse(cfg: Config, t: Stream, last: Response)
    requires ValidConfig(cfg)
    ensures Responses(t, cfg, [last]) == OnCallResponse(t, cfg, last.token, last.input)
  {
    assert [last][1..] == [];
  }

  lemma {:induction false} TwoResponses(cfg: Config, s: Stream, first: Response, second: Response, t: Stream)
    requires ValidConfig(cfg) && OnCallResponse(s, cfg, first.token, first.input) == Next(t)
    ensures Responses(s, cfg, [first, second]) == OnCallResponse(t, cfg, second.token, second.input)
  {
    assert [first, second][1..] == [second];
    LastResponse(cfg, t, second);
  }

  lemma {:induction false} FirstAnswered(cfg: Config, s: Stream, ctx: CallContext, first: Response) returns (t: Stream)
    requires ValidConfig(cfg) && Inv(cfg, s) && GoesToDefault(cfg, first.input)
    requires s.callouts == map[first.token := ctx] && ctx.handler.ArchFC?
    ensures OnCallResponse(s, cfg, first.token, first.input) == Next(t) && Inv(cfg, t)
    ensures first.input.dispatch.value in t.callouts
    ensures t.callouts[first.input.dispatch.value]
         == ctx.(handler := DefaultTarget, targetName := Some(FindDefault(cfg, cfg.order).value.name))
  {
    var o := ResponseStep(cfg, s, first.token, first.input);
    CallbackTrapsIff(cfg, s, first.token, first.input);
    t := o.s;
  }

  /** There are such runs that panic. */
  lemma {:induction false} DefaultTargetTrapExists(lib: UJ.Library)
      returns (cfg: Config, input: RequestInput, first: Response, second: Response)
    ensures ValidConfig(cfg) && Starts(input) && GoesToDefault(cfg, first.input) && Answers(second.input)
    ensures OnRequestBody(NewStream(), true, input).0.Next?
    ensures Responses(OnRequestBody(NewStream(), true, input).0.s, cfg, [first, second]).Trap?
  {
    var target := PromptTarget("d", Some(true), Some(Endpoint("endpoint", None, None)), None, None, None);
    cfg := Config(map["d" := target], ["d"], None, false, lib);
    var request := ChatRequest("m", [Text(USER_ROLE, "hi"), Message(ASSISTANT_ROLE, None, None)], false);
    input := RequestInput(1, true, Some(request), true, true, Some(1));
    var none: Arguments := RawArguments(None, []);
    first := Response(1, ResponseInput(None, RawBody(Some("{}"), Some(ChatResponse([], "m", None))), none, true,
        Some(2)));
    var answer := ChatResponse([Text(ASSISTANT_ROLE, "hello")], "m", None);
    second := Response(2, ResponseInput(None, RawBody(Some("{}"), Some(answer)), none, true, None));
    assert request.messages[..1] == [Text(USER_ROLE, "hi")];
    assert LastUserPrompt(request.messages) == Some(Text(USER_ROLE, "hi"));
    assert FindDefault(cfg, cfg.order) == Some(target);
    DefaultTargetRunTrapsIff(cfg, input, first, second);
  }
}
