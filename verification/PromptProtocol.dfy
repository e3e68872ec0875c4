/**
 What every trap-free run of the call-out protocol keeps: one outstanding call or one settlement,
 an exact call gauge, and at most two calls per request. The traps are characterised exactly.
 */
module PromptProtocol {
  import opened Wrappers
  import opened PromptGateway

  function Settlements(actions: seq<Action>): nat {
    if actions == [] then 0
    else
      var last := actions[|actions| - 1];
      Settlements(actions[..|actions| - 1]) + (if last.Resume? || last.Send? then 1 else 0)
  }

  function Dispatches(actions: seq<Action>): nat {
    if actions == [] then 0
    else Dispatches(actions[..|actions| - 1]) + (if actions[|actions| - 1].Dispatch? then 1 else 0)
  }

  lemma {:induction false} DoCounts(s: Stream, a: Action)
    ensures Settlements(Do(s, a).actions) == Settlements(s.actions) + if a.Resume? || a.Send? then 1 else 0
    ensures Dispatches(Do(s, a).actions) == Dispatches(s.actions) + if a.Dispatch? then 1 else 0
  {
    var t := s.actions + [a];
    assert t[..|t| - 1] == s.actions;
  }

  /** The context of an outstanding call. */
  ghost predicate ContextOk(cfg: Config, s: Stream, ctx: CallContext) {
    && s.request == Some(ctx.request) && ctx.cluster.Some? && ctx.path.Some?
    && LastUserPrompt(ctx.request.messages).Some? && LastUserPrompt(ctx.request.messages).value.content.Some?
    && (ctx.handler.FunctionCall? || ctx.handler.DefaultTarget? ==>
        ctx.targetName.Some? && ctx.targetName.value in cfg.targets)
    && (ctx.handler.FunctionCall? ==> HasToolCalls(s.toolCalls))
  }

  /** One call is outstanding and nothing is settled. */
  ghost predicate Waiting(cfg: Config, s: Stream) {
    && s.active == 1 && Settlements(s.actions) == 0
    && exists id :: s.callouts.Keys == {id} && ContextOk(cfg, s, s.callouts[id])
  }

  /** No call is outstanding and the request was resumed or answered, once. */
  ghost predicate Settled(s: Stream) {
    s.callouts == map[] && s.active == 0 && Settlements(s.actions) == 1
  }

  /** How many responses may still arrive. */
  ghost function Rank(s: Stream): nat {
    if s.callouts == map[] then 0
    else if exists id :: id in s.callouts && s.callouts[id].handler.ArchFC? then 2
    else 1
  }

  /** The calls so far and those still possible are at most two. */
  ghost predicate FewCalls(s: Stream) {
    Dispatches(s.actions) + (if Rank(s) == 0 then 0 else Rank(s) - 1) <= 2
  }

  ghost predicate Inv(cfg: Config, s: Stream) {
    (Waiting(cfg, s) || Settled(s)) && FewCalls(s)
  }

  // ----- the ways a callback can end -----

  /** Neither a call nor a settlement. */
  ghost predicate Free(s: Stream) {
    s.callouts == map[] && s.active == 0 && Settlements(s.actions) == 0
  }

  lemma {:induction false} SendSettles(s: Stream, status: nat, reply: Reply)
    requires Free(s)
    ensures var t := Do(s, Send(status, reply));
            Settled(t) && Rank(t) == 0 && Dispatches(t.actions) == Dispatches(s.actions)
  {
    DoCounts(s, Send(status, reply));
  }

  lemma {:induction false} ResumeSettles(s: Stream, request: ChatRequest)
    requires Free(s)
    ensures var t := Do(Do(s, SetBody(request)), Resume);
            Settled(t) && Rank(t) == 0 && Dispatches(t.actions) == Dispatches(s.actions)
  {
    DoCounts(s, SetBody(request));
    DoCounts(Do(s, SetBody(request)), Resume);
  }

  lemma {:induction false} CallWaits(cfg: Config, s: Stream, call: Call, ctx: CallContext, id: nat)
    requires Free(s) && ContextOk(cfg, s, ctx)
    ensures var t := HttpCall(s, call, ctx, Some(id));
            && Waiting(cfg, t) && Dispatches(t.actions) == Dispatches(s.actions) + 1
            && Rank(t) == if ctx.handler.ArchFC? then 2 else 1
  {
    var t := HttpCall(s, call, ctx, Some(id));
    DoCounts(s.(callouts := s.callouts[id := ctx], active := s.active + 1), Dispatch(id, call));
    assert t.callouts == map[id := ctx] && t.callouts[id] == ctx;
    assert t.callouts.Keys == {id} && ContextOk(cfg, t, t.callouts[id]);
  }

  /** A refused call is answered, an accepted one is waited for. */
  lemma {:induction false} CallOrRefuseEnds(cfg: Config, s: Stream, call: Call, ctx: CallContext,
      dispatch: Option<nat>, status: nat)
    requires Free(s) && ContextOk(cfg, s, ctx)
    requires Dispatches(s.actions) + (if ctx.handler.ArchFC? then 2 else 1) <= 2
    ensures var o := CallOrRefuse(s, call, ctx, dispatch, status);
            o.Next? && Inv(cfg, o.s) && Rank(o.s) <= if ctx.handler.ArchFC? then 2 else 1
  {
    if dispatch.Some? {
      CallWaits(cfg, s, call, ctx, dispatch.value);
    } else {
      SendSettles(s, status, ErrorText);
    }
  }

  // ----- the end of the request body -----

  lemma {:induction false} ErrorStarts(cfg: Config, u: Stream, status: nat)
    requires Free(u) && u.actions == []
    ensures Inv(cfg, Do(u, Send(status, ErrorText)))
  {
    SendSettles(u, status, ErrorText);
  }

  /** The first call of a request with a user message. */
  lemma {:induction false} PromptStarts(cfg: Config, request: ChatRequest, input: RequestInput)
    requires LastUserPrompt(request.messages).Some? && LastUserPrompt(request.messages).value.content.Some?
    ensures var u := NewStream().(streaming := request.stream, request := Some(request));
            var ctx := CallContext(ArchFC, None, request, Some("arch_internal"), Some("/function_calling"));
            var o := CallOrRefuse(u, FunctionCalling(request), ctx, input.dispatch, 500);
            o.Next? && Inv(cfg, o.s)
  {
    var u := NewStream().(streaming := request.stream, request := Some(request));
    var ctx := CallContext(ArchFC, None, request, Some("arch_internal"), Some("/function_calling"));
    CallOrRefuseEnds(cfg, u, FunctionCalling(request), ctx, input.dispatch, 500);
  }

  lemma {:induction false} ParsedBodyStarts(cfg: Config, input: RequestInput)
    requires input.size > 0 && input.readable && input.parsed.Some? && input.archStateOk
    ensures var (o, v) := OnRequestBody(NewStream(), true, input);
            && o.Next?
            && (v.Pause? ==> Inv(cfg, o.s))
            && (v.Continue? ==> o.s.callouts == map[] && o.s.active == 0 && o.s.actions == [])
  {
    var request := input.parsed.value;
    var prompt := LastUserPrompt(request.messages);
    if prompt.Some? && input.serializable && prompt.value.content.Some? {
      PromptStarts(cfg, request, input);
    } else {
      ErrorStarts(cfg, NewStream().(streaming := request.stream, request := Some(request)), 500);
    }
  }

  /** A paused request is waiting for its first call or already answered; otherwise nothing was done. */
  lemma {:induction false} RequestBodyStarts(cfg: Config, input: RequestInput)
    ensures var (o, v) := OnRequestBody(NewStream(), true, input);
            && (v.Pause? && o.Next? ==> Inv(cfg, o.s))
            && (v.Continue? ==> o.Next? && o.s.callouts == map[] && o.s.active == 0 && o.s.actions == [])
  {
    if input.size > 0 && input.readable && input.parsed.Some? && input.archStateOk {
      ParsedBodyStarts(cfg, input);
    } else {
      ErrorStarts(cfg, NewStream(), if input.readable then 400 else 500);
    }
  }

  // ----- one response -----

  lemma {:induction false} TakeOut(cfg: Config, s: Stream, token: nat)
    requires Inv(cfg, s) && token in s.callouts
    ensures Free(TakenOut(s, token)) && ContextOk(cfg, TakenOut(s, token), s.callouts[token])
    ensures Rank(s) == if s.callouts[token].handler.ArchFC? then 2 else 1
    ensures Dispatches(s.actions) + Rank(s) <= 3
  {
    assert Waiting(cfg, s);
    var id :| s.callouts.Keys == {id} && ContextOk(cfg, s, s.callouts[id]);
    assert token in s.callouts.Keys;
    assert token == id;
    assert s.callouts - {token} == map[];
  }

  lemma {:induction false} DefaultIsTarget(cfg: Config, order: seq<string>)
    requires ValidConfig(cfg) && forall n :: n in order ==> n in cfg.targets
    ensures FindDefault(cfg, order).Some? ==> FindDefault(cfg, order).value.name in cfg.targets
  {
    if order != [] {
      assert order[0] in order;
      DefaultIsTarget(cfg, order[1..]);
    }
  }

  /** What a handler may leave behind. */
  ghost predicate Ends(cfg: Config, o: Outcome, rank: nat) {
    o.Next? ==> Inv(cfg, o.s) && Rank(o.s) < rank
  }

  lemma {:induction false} ArchFcEnds(cfg: Config, s: Stream, ctx: CallContext, input: ResponseInput)
    requires ValidConfig(cfg) && Free(s) && ContextOk(cfg, s, ctx) && Dispatches(s.actions) <= 1
    ensures Ends(cfg, ArchFcResponse(s, cfg, ctx, input), 2)
  {
    if input.body.text.Some? {
      if input.body.parsed.None? {
        SendSettles(s, 500, ErrorText);
      } else {
        var r := input.body.parsed.value;
        var t := s.(archFcResponse := ModelResponse(r));
        if !IntentMatched(r) {
          NoIntentEnds(cfg, t, ctx, input);
        } else {
          ToolCallEnds(cfg, t.(toolCalls := r.choices[0].toolCalls), ctx, input, r);
        }
      }
    }
  }

  lemma {:induction false} NoIntentEnds(cfg: Config, s: Stream, ctx: CallContext, input: ResponseInput)
    requires ValidConfig(cfg) && Free(s) && ContextOk(cfg, s, ctx) && Dispatches(s.actions) <= 1
    ensures Ends(cfg, NoIntent(s, cfg, ctx, input), 2)
  {
    DefaultIsTarget(cfg, cfg.order);
    match FindDefault(cfg, cfg.order)
    case Some(target) =>
      if target.endpoint.Some? {
        CallOrRefuseEnds(cfg, s, DefaultTargetCall(target.endpoint.value, ctx.request.messages),
            ctx.(handler := DefaultTarget, targetName := Some(target.name)), input.dispatch, 400);
      }
    case None =>
      var messages := SystemMessages(cfg.systemPrompt) + FilterOutArchMessages(ctx.request.messages);
      ResumeSettles(s, ChatRequest(s.request.value.model, messages, ctx.request.stream));
  }

  lemma {:induction false} ToolCallEnds(cfg: Config, u: Stream, ctx: CallContext, input: ResponseInput, r: ChatResponse)
    requires Free(u) && ContextOk(cfg, u, ctx.(handler := ArchFC)) && Dispatches(u.actions) <= 1
    requires r.choices != [] && input.body.text.Some? && u.toolCalls == r.choices[0].toolCalls
    ensures !HasToolCalls(u.toolCalls) ==> Ends(cfg, AskUser(u, r, input.body.text.value), 2)
    ensures HasToolCalls(u.toolCalls) ==>
      var named := ctx.(targetName := Some(u.toolCalls.value[0].name));
      && Ends(cfg, ResumeWith(u, ChatRequest(ctx.request.model, ConstructLlmMessages(cfg, named),
          ctx.request.stream)), 2)
      && Ends(cfg, ScheduleApiCall(u, cfg, named, input), 2)
  {
    if HasToolCalls(u.toolCalls) {
      var name := u.toolCalls.value[0].name;
      var named := ctx.(targetName := Some(name));
      ResumeSettles(u, ChatRequest(ctx.request.model, ConstructLlmMessages(cfg, named), ctx.request.stream));
      SendSettles(u, 400, ErrorText);
      if name in cfg.targets && cfg.targets[name].endpoint.Some? {
        var computed := DeveloperRequest(cfg, cfg.targets[name], input.arguments);
        if computed.Built? {
          var endpoint := cfg.targets[name].endpoint.value;
          CallOrRefuseEnds(cfg, u, DeveloperCall(endpoint, computed.request),
              DeveloperContext(named, endpoint, computed.request),
              input.dispatch, 400);
        }
      }
    } else {
      AskUserEnds(cfg, u, r, input.body.text.value);
    }
  }

  lemma {:induction false} AskUserEnds(cfg: Config, u: Stream, r: ChatResponse, text: string)
    requires Free(u) && r.choices != [] && Dispatches(u.actions) <= 1
    ensures Ends(cfg, AskUser(u, r, text), 2)
  {
    var o := AskUser(u, r, text);
    if o.Next? {
      var reply := o.s.actions[|o.s.actions| - 1].reply;
      SendSettles(u.(toolCalls := None), 200, reply);
    }
  }

  lemma {:induction false} ApiCallEnds(cfg: Config, s: Stream, ctx: CallContext, input: ResponseInput)
    requires Free(s) && Dispatches(s.actions) <= 2
    ensures Ends(cfg, ApiCallResponse(s, cfg, ctx, input), 1)
  {
    if input.status.Some? && input.status.value.Code? {
      SendSettles(s, input.status.value.code, ErrorText);
    }
    if input.body.text.Some? && ctx.targetName.Some? && ctx.targetName.value in cfg.targets {
      ApiAnswerEnds(cfg, s.(toolCallResponse := input.body.text), ctx, input, input.body.text.value);
    }
  }

  lemma {:induction false} ApiAnswerEnds(cfg: Config, t: Stream, ctx: CallContext, input: ResponseInput, text: string)
    requires Free(t) && Dispatches(t.actions) <= 2
    requires ctx.targetName.Some? && ctx.targetName.value in cfg.targets
    ensures Ends(cfg, ApiCallAnswer(t, cfg, ctx, input, text), 1)
  {
    var messages := ConstructLlmMessages(cfg, ctx);
    if messages == [] {
      SendSettles(t, 500, ErrorText);
    } else if cfg.targets[ctx.targetName.value].autoLlmDispatch == Some(false) {
      SendSettles(t, 200, ApiReply(t.streaming, text));
    } else if messages[|messages| - 1].content.Some? {
      SendSettles(t, 500, ErrorText);
      ResumeSettles(t, ChatRequest(ctx.request.model, WithContext(messages, text), ctx.request.stream));
    }
  }

  lemma {:induction false} DefaultReplyEnds(cfg: Config, s: Stream, input: ResponseInput)
    requires Free(s) && Dispatches(s.actions) <= 2
    ensures Ends(cfg, DefaultTargetReply(s, input), 1)
  {
    var o := DefaultTargetReply(s, input);
    if o.Next? {
      var last := o.s.actions[|o.s.actions| - 1];
      SendSettles(s, last.status, last.reply);
    }
  }

  lemma {:induction false} DefaultTargetEnds(cfg: Config, s: Stream, ctx: CallContext, input: ResponseInput)
    requires Free(s) && Dispatches(s.actions) <= 2
    ensures Ends(cfg, DefaultTargetResponse(s, cfg, ctx, input), 1)
  {
    if ctx.targetName.Some? && ctx.targetName.value in cfg.targets {
      var target := cfg.targets[ctx.targetName.value];
      if target.autoLlmDispatch == Some(false) {
        DefaultReplyEnds(cfg, s, input);
      } else if input.body.parsed.None? {
        SendSettles(s, 500, ErrorText);
      } else {
        DispatchEnds(cfg, s, ctx, target.systemPrompt, input.body.parsed.value);
      }
    }
  }

  lemma {:induction false} DispatchEnds(cfg: Config, s: Stream, ctx: CallContext, prompt: Option<string>,
      r: ChatResponse)
    requires Free(s) && Dispatches(s.actions) <= 2
    ensures var messages := SystemMessages(prompt) + ctx.request.messages;
            !AnswerMissing(r) && s.request.Some? && messages != [] && messages[|messages| - 1].content.Some? ==>
              var extended := WithContext(messages, r.choices[0].content.value);
              Ends(cfg, ResumeWith(s, ChatRequest(s.request.value.model, extended, ctx.request.stream)), 1)
  {
    var messages := SystemMessages(prompt) + ctx.request.messages;
    if !AnswerMissing(r) && s.request.Some? && messages != [] && messages[|messages| - 1].content.Some? {
      var extended := WithContext(messages, r.choices[0].content.value);
      ResumeSettles(s, ChatRequest(s.request.value.model, extended, ctx.request.stream));
    }
  }

  lemma {:induction false} HandleEnds(cfg: Config, t: Stream, ctx: CallContext, input: ResponseInput)
    requires ValidConfig(cfg) && Free(t) && ContextOk(cfg, t, ctx)
    requires Dispatches(t.actions) <= if ctx.handler.ArchFC? then 1 else 2
    ensures Ends(cfg, Handle(t, cfg, ctx, input), if ctx.handler.ArchFC? then 2 else 1)
  {
    match ctx.handler
    case ArchFC => ArchFcEnds(cfg, t, ctx, input);
    case FunctionCall => ApiCallEnds(cfg, t, ctx, input);
    case DefaultTarget => DefaultTargetEnds(cfg, t, ctx, input);
  }

  /** The outcome of a response, once its call is taken out of the table. */
  lemma {:induction false} ResponseIs(cfg: Config, s: Stream, token: nat, input: ResponseInput) returns (o: Outcome)
    requires ValidConfig(cfg) && token in s.callouts
    ensures o == OnCallResponse(s, cfg, token, input)
    ensures var ctx, t := s.callouts[token], TakenOut(s, token);
            || o == Trap
            || (input.status.Some? && input.status.value.Code? && o == SendError(t, input.status.value.code))
            || o == Handle(t, cfg, ctx, input)
  {
    o := OnCallResponse(s, cfg, token, input);
  }

  /** Every response that does not trap keeps the invariant and brings the request closer to its end. */
  lemma {:induction false} ResponseStep(cfg: Config, s: Stream, token: nat, input: ResponseInput) returns (o: Outcome)
    requires ValidConfig(cfg) && Inv(cfg, s)
    ensures o == OnCallResponse(s, cfg, token, input) && Ends(cfg, o, Rank(s))
  {
    if token in s.callouts {
      TakeOut(cfg, s, token);
      var ctx, t := s.callouts[token], TakenOut(s, token);
      o := ResponseIs(cfg, s, token, input);
      if o != Trap {
        if input.status.Some? && input.status.value.Code? && o == SendError(t, input.status.value.code) {
          SendSettles(t, input.status.value.code, ErrorText);
        } else {
          HandleEnds(cfg, t, ctx, input);
        }
      }
    } else {
      o := Trap;
    }
  }

  // ----- whole runs -----

  datatype Response = Response(token: nat, input: ResponseInput)

  /** The responses that arrive for one request, until one traps. */
  function Responses(s: Stream, cfg: Config, rs: seq<Response>): Outcome
    requires forall n :: n in cfg.order ==> n in cfg.targets
    decreases |rs|
  {
    if rs == [] then Next(s)
    else
      match OnCallResponse(s, cfg, rs[0].token, rs[0].input)
      case Trap => Trap
      case Next(t) => Responses(t, cfg, rs[1..])
  }

  lemma {:induction false} RunKeeps(s: Stream, cfg: Config, rs: seq<Response>)
    requires ValidConfig(cfg) && Inv(cfg, s)
    ensures var o := Responses(s, cfg, rs);
            o.Next? ==> Inv(cfg, o.s) && Rank(o.s) + |rs| <= Rank(s)
    decreases |rs|
  {
    if rs != [] {
      var o := ResponseStep(cfg, s, rs[0].token, rs[0].input);
      if o.Next? { RunKeeps(o.s, cfg, rs[1..]); }
    }
  }

  /**
   From the end of the request body on: after any responses that did not trap, a paused request has
   one call out and no settlement, or no call out and one settlement; at most two calls were made,
   and the call gauge is the size of the call table.
   */
  lemma {:induction false} SettledExactlyOnce(cfg: Config, input: RequestInput, rs: seq<Response>)
    requires ValidConfig(cfg)
    requires OnRequestBody(NewStream(), true, input).1.Pause? && OnRequestBody(NewStream(), true, input).0.Next?
    ensures var o := Responses(OnRequestBody(NewStream(), true, input).0.s, cfg, rs);
            o.Next? ==>
              && |o.s.callouts| + Settlements(o.s.actions) == 1
              && o.s.active == |o.s.callouts|
              && Dispatches(o.s.actions) <= 2 && |rs| <= 2
  {
    RequestBodyStarts(cfg, input);
    var s := OnRequestBody(NewStream(), true, input).0.s;
    RunKeeps(s, cfg, rs);
    var o := Responses(s, cfg, rs);
    if o.Next? && Waiting(cfg, o.s) {
      var id :| o.s.callouts.Keys == {id};
      assert |o.s.callouts| == |o.s.callouts.Keys| == 1;
    }
  }

  // ----- the traps, exactly -----

  /** The developer endpoint of a tool call cannot be called at all. */
  ghost predicate Uncallable(cfg: Config, name: string, arguments: Arguments) {
    || name !in cfg.targets || cfg.targets[name].endpoint.None?
    || DeveloperRequest(cfg, cfg.targets[name], arguments).Panic?
  }

  /**
   The model's response traps iff it is not text, or there is no intent and the default target has
   no endpoint, or its tool call names no callable target. In particular the indexing of `choices`
   and of `tool_calls`, and the unwrapping of the message content, never fail.
   */
  lemma {:induction false} ArchFcTrapsIff(cfg: Config, s: Stream, ctx: CallContext, input: ResponseInput)
    requires ValidConfig(cfg) && ContextOk(cfg, s, ctx)
    ensures ArchFcResponse(s, cfg, ctx, input).Trap? <==>
      (|| input.body.text.None?
       || (input.body.parsed.Some? &&
           var r := input.body.parsed.value;
           if !IntentMatched(r) then
             FindDefault(cfg, cfg.order).Some? && FindDefault(cfg, cfg.order).value.endpoint.None?
           else
             HasToolCalls(r.choices[0].toolCalls) && !cfg.useAgentOrchestrator &&
             Uncallable(cfg, r.choices[0].toolCalls.value[0].name, input.arguments)))
  {
  }

  /** No message that is kept for the upstream model is without content. */
  lemma {:induction false} FilteredHaveContent(messages: seq<Message>)
    ensures forall m :: m in FilterOutArchMessages(messages) ==>
        m.content.Some? && m.role != TOOL_ROLE && !HasToolCalls(m.toolCalls)
  {
    if messages != [] { FilteredHaveContent(messages[1..]); }
  }

  lemma {:induction false} ConstructedHaveContent(cfg: Config, ctx: CallContext)
    ensures forall m :: m in ConstructLlmMessages(cfg, ctx) ==> m.content.Some?
  {
    FilteredHaveContent(ctx.request.messages);
  }

  /** The developer's response traps iff it is not text, when it was delivered as a success. */
  lemma {:induction false} ApiCallTrapsIff(cfg: Config, s: Stream, ctx: CallContext, input: ResponseInput)
    requires ContextOk(cfg, s, ctx) && ctx.handler.FunctionCall?
    requires input.status.Some? ==> input.status.value.Code?
    ensures ApiCallResponse(s, cfg, ctx, input).Trap? <==> input.body.text.None?
  {
    ConstructedHaveContent(cfg, ctx);
    var messages := ConstructLlmMessages(cfg, ctx);
    if messages != [] { assert messages[|messages| - 1] in messages; }
  }

  predicate AnswerMissing(r: ChatResponse) {
    r.choices == [] || r.choices[0].content.None?
  }

  /**
   The default target's response traps iff it is not text, or it parses and is needed but holds no
   answer, or the last message of the request has no content to extend.
   */
  lemma {:induction false} DefaultTargetTrapsIff(cfg: Config, s: Stream, ctx: CallContext, input: ResponseInput)
    requires ContextOk(cfg, s, ctx) && ctx.handler.DefaultTarget?
    ensures DefaultTargetResponse(s, cfg, ctx, input).Trap? <==>
      var dispatch := cfg.targets[ctx.targetName.value].autoLlmDispatch != Some(false);
      var last := ctx.request.messages[|ctx.request.messages| - 1];
      || input.body.text.None?
      || (input.body.parsed.Some? && (dispatch || s.streaming) &&
          (AnswerMissing(input.body.parsed.value) || (dispatch && last.content.None?)))
  {
    var messages := ctx.request.messages;
    assert messages != [];
    var sys := SystemMessages(cfg.targets[ctx.targetName.value].systemPrompt);
    assert (sys + messages)[|sys + messages| - 1] == messages[|messages| - 1];
  }

  // ----- what is sent upstream -----

  ghost predicate MessagesHaveContent(messages: seq<Message>) {
    forall m :: m in messages ==> m.content.Some?
  }

  ghost predicate AllHaveContent(actions: seq<Action>) {
    forall a :: a in actions && a.SetBody? ==> MessagesHaveContent(a.request.messages)
  }

  lemma {:induction false} DoContent(s: Stream, a: Action)
    requires AllHaveContent(s.actions) && (a.SetBody? ==> MessagesHaveContent(a.request.messages))
    ensures AllHaveContent(Do(s, a).actions)
  {
  }

  lemma {:induction false} ResumeContent(s: Stream, request: ChatRequest)
    requires AllHaveContent(s.actions) && MessagesHaveContent(request.messages)
    ensures AllHaveContent(Do(Do(s, SetBody(request)), Resume).actions)
  {
    DoContent(s, SetBody(request));
    DoContent(Do(s, SetBody(request)), Resume);
  }

  ghost predicate SendsContent(o: Outcome) {
    o.Next? ==> AllHaveContent(o.s.actions)
  }

  lemma {:induction false} NoIntentContent(cfg: Config, s: Stream, ctx: CallContext, input: ResponseInput)
    requires ValidConfig(cfg) && AllHaveContent(s.actions)
    ensures SendsContent(NoIntent(s, cfg, ctx, input))
  {
    FilteredHaveContent(ctx.request.messages);
    if s.request.Some? {
      var messages := SystemMessages(cfg.systemPrompt) + FilterOutArchMessages(ctx.request.messages);
      ResumeContent(s, ChatRequest(s.request.value.model, messages, ctx.request.stream));
    }
  }

  lemma {:induction false} ErrorContent(s: Stream, status: nat)
    requires AllHaveContent(s.actions)
    ensures SendsContent(SendError(s, status))
  {
    DoContent(s, Send(status, ErrorText));
  }

  lemma {:induction false} CallContent(s: Stream, call: Call, ctx: CallContext, dispatch: Option<nat>, status: nat)
    requires AllHaveContent(s.actions)
    ensures SendsContent(CallOrRefuse(s, call, ctx, dispatch, status))
  {
    ErrorContent(s, status);
    if dispatch.Some? {
      DoContent(s.(callouts := s.callouts[dispatch.value := ctx], active := s.active + 1),
          Dispatch(dispatch.value, call));
    }
  }

  lemma {:induction false} ScheduleContent(cfg: Config, s: Stream, ctx: CallContext, input: ResponseInput)
    requires AllHaveContent(s.actions)
    ensures SendsContent(ScheduleApiCall(s, cfg, ctx, input))
  {
    ErrorContent(s, 400);
    if HasToolCalls(s.toolCalls) && s.toolCalls.value[0].name in cfg.targets {
      var target := cfg.targets[s.toolCalls.value[0].name];
      if target.endpoint.Some? {
        var computed := DeveloperRequest(cfg, target, input.arguments);
        if computed.Built? {
          CallContent(s, DeveloperCall(target.endpoint.value, computed.request),
              DeveloperContext(ctx, target.endpoint.value, computed.request), input.dispatch, 400);
        }
      }
    }
  }

  lemma {:induction false} AskContent(s: Stream, r: ChatResponse, text: string)
    requires AllHaveContent(s.actions) && r.choices != []
    ensures SendsContent(AskUser(s, r, text))
  {
    var t := s.(toolCalls := None);
    if AskUser(s, r, text).Next? {
      DoContent(t, AskUser(s, r, text).s.actions[|s.actions|]);
    }
  }

  lemma {:induction false} ToolCallContent(cfg: Config, u: Stream, ctx: CallContext, input: ResponseInput)
    requires AllHaveContent(u.actions)
    ensures SendsContent(ResumeWith(u, ChatRequest(ctx.request.model, ConstructLlmMessages(cfg, ctx),
        ctx.request.stream)))
    ensures SendsContent(ScheduleApiCall(u, cfg, ctx, input))
  {
    ConstructedHaveContent(cfg, ctx);
    ResumeContent(u, ChatRequest(ctx.request.model, ConstructLlmMessages(cfg, ctx), ctx.request.stream));
    ScheduleContent(cfg, u, ctx, input);
  }

  lemma {:induction false} ArchFcContent(cfg: Config, s: Stream, ctx: CallContext, input: ResponseInput)
    requires ValidConfig(cfg) && AllHaveContent(s.actions)
    ensures SendsContent(ArchFcResponse(s, cfg, ctx, input))
  {
    ErrorContent(s, 500);
    if input.body.text.Some? && input.body.parsed.Some? {
      var r := input.body.parsed.value;
      var t := s.(archFcResponse := ModelResponse(r));
      NoIntentContent(cfg, t, ctx, input);
      if IntentMatched(r) {
        var u := t.(toolCalls := r.choices[0].toolCalls);
        AskContent(u, r, input.body.text.value);
        if HasToolCalls(u.toolCalls) {
          ToolCallContent(cfg, u, ctx.(targetName := Some(u.toolCalls.value[0].name)), input);
        }
      }
    }
  }

  lemma {:induction false} ApiCallContent(cfg: Config, s: Stream, ctx: CallContext, input: ResponseInput)
    requires AllHaveContent(s.actions)
    ensures SendsContent(ApiCallResponse(s, cfg, ctx, input))
  {
    ConstructedHaveContent(cfg, ctx);
    var messages := ConstructLlmMessages(cfg, ctx);
    if messages != [] && input.body.text.Some? {
      assert messages[|messages| - 1] in messages;
      var t := s.(toolCallResponse := input.body.text);
      ResumeContent(t, ChatRequest(ctx.request.model, WithContext(messages, input.body.text.value),
          ctx.request.stream));
    }
  }

  /** Unless the default target answers, every message sent upstream has content. */
  lemma {:induction false} UpstreamHasContent(cfg: Config, s: Stream, ctx: CallContext, input: ResponseInput)
    requires ValidConfig(cfg) && !ctx.handler.DefaultTarget? && AllHaveContent(s.actions)
    ensures Handle(s, cfg, ctx, input).Next? ==> AllHaveContent(Handle(s, cfg, ctx, input).s.actions)
  {
    if ctx.handler.ArchFC? {
      ArchFcContent(cfg, s, ctx, input);
    } else {
      ApiCallContent(cfg, s, ctx, input);
    }
  }
}
