/**
 What the gateway sends, written out: the two calls of a request, the conversation that goes upstream
 with the developer's or the default target's answer in it, and the replies to the user
 (crates/prompt_gateway/src/http_context.rs, stream_context.rs).
 */
module PromptUpstream {
  import opened Wrappers
  import opened PromptGateway
  import opened PromptProtocol
  import T = Tools

  // ----- the messages that are kept -----

  /** A message with content that is no tool message and has no tool calls. */
  predicate Kept(m: Message) {
    m.content.Some? && m.role != "tool" && (m.toolCalls.None? || m.toolCalls.value == [])
  }

  /** `kept` are the kept messages, in their order; `at` is where they are. */
  ghost predicate Picks(all: seq<Message>, kept: seq<Message>, at: seq<nat>) {
    && |at| == |kept|
    && (forall i, j :: 0 <= i < j < |at| ==> at[i] < at[j])
    && (forall i :: 0 <= i < |at| ==> at[i] < |all| && kept[i] == all[at[i]])
    && (forall k: nat :: k in at <==> k < |all| && Kept(all[k]))
  }

  function Later(at: seq<nat>): (r: seq<nat>)
    ensures |r| == |at| && forall i :: 0 <= i < |r| ==> r[i] == at[i] + 1
  {
    seq(|at|, i requires 0 <= i < |at| => at[i] + 1)
  }

  lemma {:induction false} LaterMembers(at: seq<nat>, k: nat)
    ensures k in Later(at) <==> k > 0 && k - 1 in at
  {
    var r := Later(at);
    if k > 0 && k - 1 in at {
      var i :| 0 <= i < |at| && at[i] == k - 1;
      assert r[i] == k;
    }
    if k in r {
      var i :| 0 <= i < |r| && r[i] == k;
      assert at[i] == k - 1;
    }
  }

  lemma {:induction false} KeptLater(all: seq<Message>, kept: seq<Message>, at: seq<nat>, k: nat)
    requires all != [] && Picks(all[1..], kept, at)
    ensures k > 0 ==> (k - 1 in at <==> k < |all| && Kept(all[k]))
  {
    if k > 0 { assert k - 1 in at <==> k - 1 < |all[1..]| && Kept(all[1..][k - 1]); }
  }

  lemma {:induction false} PicksSkip(all: seq<Message>, kept: seq<Message>, at: seq<nat>)
    requires all != [] && !Kept(all[0]) && Picks(all[1..], kept, at)
    ensures Picks(all, kept, Later(at))
  {
    forall k: nat ensures k in Later(at) <==> k < |all| && Kept(all[k]) {
      LaterMembers(at, k);
      KeptLater(all, kept, at, k);
    }
    forall i | 0 <= i < |at| ensures Later(at)[i] < |all| && kept[i] == all[Later(at)[i]] {
      assert kept[i] == all[1..][at[i]];
    }
  }

  lemma {:induction false} FirstIncreasing(at: seq<nat>)
    requires forall i, j :: 0 <= i < j < |at| ==> at[i] < at[j]
    ensures var b := [0] + Later(at); forall i, j :: 0 <= i < j < |b| ==> b[i] < b[j]
  {
    var b := [0] + Later(at);
    forall i, j | 0 <= i < j < |b| ensures b[i] < b[j] {
      assert b[j] == at[j - 1] + 1;
      if i > 0 { assert b[i] == at[i - 1] + 1; }
    }
  }

  lemma {:induction false} FirstMembers(at: seq<nat>, k: nat)
    ensures k in [0] + Later(at) <==> k == 0 || k - 1 in at
  {
    LaterMembers(at, k);
  }

  lemma {:induction false} FirstPlaces(all: seq<Message>, kept: seq<Message>, at: seq<nat>)
    requires all != [] && |at| == |kept|
    requires forall i :: 0 <= i < |at| ==> at[i] < |all[1..]| && kept[i] == all[1..][at[i]]
    ensures var b, more := [0] + Later(at), [all[0]] + kept;
            |b| == |more| && forall i :: 0 <= i < |b| ==> b[i] < |all| && more[i] == all[b[i]]
  {
    var b, more := [0] + Later(at), [all[0]] + kept;
    forall i | 0 <= i < |b| ensures b[i] < |all| && more[i] == all[b[i]] {
      if i > 0 { assert b[i] == at[i - 1] + 1 && kept[i - 1] == all[1..][at[i - 1]]; }
    }
  }

  lemma {:induction false} PicksFirst(all: seq<Message>, kept: seq<Message>, at: seq<nat>)
    requires all != [] && Kept(all[0]) && Picks(all[1..], kept, at)
    ensures Picks(all, [all[0]] + kept, [0] + Later(at))
  {
    FirstIncreasing(at);
    FirstPlaces(all, kept, at);
    forall k: nat ensures k in [0] + Later(at) <==> k < |all| && Kept(all[k]) {
      FirstMembers(at, k);
      KeptLater(all, kept, at, k);
    }
  }

  /** The filter keeps exactly these. */
  lemma {:induction false} FilterPicks(all: seq<Message>) returns (at: seq<nat>)
    ensures Picks(all, FilterOutArchMessages(all), at)
  {
    if all == [] {
      at := [];
    } else {
      var later := FilterPicks(all[1..]);
      if Kept(all[0]) {
        PicksFirst(all, FilterOutArchMessages(all[1..]), later);
        at := [0] + Later(later);
      } else {
        PicksSkip(all, FilterOutArchMessages(all[1..]), later);
        assert [] + FilterOutArchMessages(all[1..]) == FilterOutArchMessages(all[1..]);
        at := Later(later);
      }
    }
  }

  /** The system prompt in front, if there is one. */
  function SystemFirst(prompt: Option<string>): seq<Message> {
    if prompt.Some? then [Message("system", prompt, None)] else []
  }

  function Either(a: Option<string>, b: Option<string>): Option<string> {
    if a.Some? then a else b
  }

  /** The conversation with an answer behind its last message. */
  function Answered(messages: seq<Message>, answer: string): seq<Message>
    requires messages != [] && messages[|messages| - 1].content.Some?
  {
    var n := |messages| - 1;
    messages[..n] + [Message("user", Some(messages[n].content.value + "\ncontext: " + answer), None)]
  }

  // ----- the first call -----

  /** The last user message is at `i`, and has content. */
  ghost predicate PromptAt(messages: seq<Message>, i: nat) {
    && i < |messages| && messages[i].role == "user" && messages[i].content.Some?
    && forall j :: i < j < |messages| ==> messages[j].role != "user"
  }

  lemma {:induction false} LastUserPromptIs(messages: seq<Message>, i: nat)
    requires i < |messages| && messages[i].role == "user"
    requires forall j :: i < j < |messages| ==> messages[j].role != "user"
    ensures LastUserPrompt(messages) == Some(messages[i])
  {
    if i < |messages| - 1 { LastUserPromptIs(messages[..|messages| - 1], i); }
  }

  /** The request reaches the gateway, and its call to the model gets the id `d`. */
  ghost predicate Arrives(input: RequestInput, request: ChatRequest, d: nat) {
    && input.size > 0 && input.readable && input.parsed == Some(request) && input.archStateOk && input.serializable
    && input.dispatch == Some(d) && exists i: nat :: PromptAt(request.messages, i)
  }

  function ModelCall(request: ChatRequest): Call {
    Call("bright_staff", "/function_calling", T.POST, Conversation(request.messages))
  }

  function ModelContext(request: ChatRequest): CallContext {
    CallContext(ArchFC, None, request, Some("arch_internal"), Some("/function_calling"))
  }

  function Asked(request: ChatRequest, d: nat): Stream {
    Stream(map[d := ModelContext(request)], 1, None, None, None, request.stream, Some(request),
           [Dispatch(d, ModelCall(request))])
  }

  /** The whole conversation goes to the function-calling model. */
  lemma {:induction false} ModelIsAsked(input: RequestInput, request: ChatRequest, d: nat)
    requires Arrives(input, request, d)
    ensures OnRequestBody(NewStream(), true, input) == (Next(Asked(request, d)), Pause)
  {
    var i: nat :| PromptAt(request.messages, i);
    LastUserPromptIs(request.messages, i);
    assert map[][d := ModelContext(request)] == map[d := ModelContext(request)];
    assert [] + [Dispatch(d, ModelCall(request))] == [Dispatch(d, ModelCall(request))];
  }

  // ----- the model's answer -----

  /** A response that came through, with this text; a chat response if `parsed` says so. */
  predicate Comes(input: ResponseInput, text: string, parsed: Option<ChatResponse>) {
    && (input.status.None? || (input.status.value.Code? && 200 <= input.status.value.code < 300))
    && input.body.text == Some(text) && input.body.parsed == parsed
  }

  predicate CallsTool(r: ChatResponse, name: string) {
    && r.choices != [] && r.choices[0].toolCalls.Some? && r.choices[0].toolCalls.value != []
    && r.choices[0].toolCalls.value[0].name == name
  }

  predicate SaysNothing(r: ChatResponse) {
    r.choices == [] || ((r.choices[0].content.None? || r.choices[0].content.value == "")
                        && (r.choices[0].toolCalls.None? || r.choices[0].toolCalls.value == []))
  }

  predicate SaysOnly(r: ChatResponse, text: string) {
    && r.choices != [] && r.choices[0].content == Some(text) && text != ""
    && (r.choices[0].toolCalls.None? || r.choices[0].toolCalls.value == [])
  }

  /** What the model says about its own answer. */
  function Remark(r: ChatResponse): Option<string> {
    if r.metadata.Some? then MapGet(r.metadata.value, "x-arch-fc-model-response") else None
  }

  function Took(request: ChatRequest, d: nat, r: ChatResponse, calls: Option<seq<ToolCall>>): Stream {
    Stream(map[], 0, calls, Remark(r), None, request.stream, Some(request), [Dispatch(d, ModelCall(request))])
  }

  lemma {:induction false} ModelAnswers(cfg: Config, request: ChatRequest, d: nat, input: ResponseInput, text: string,
      r: ChatResponse)
    requires ValidConfig(cfg) && Comes(input, text, Some(r))
    ensures OnCallResponse(Asked(request, d), cfg, d, input)
         == if SaysNothing(r) then NoIntent(Took(request, d, r, None), cfg, ModelContext(request), input)
            else
              var t := Took(request, d, r, r.choices[0].toolCalls);
              if r.choices[0].toolCalls.None? || r.choices[0].toolCalls.value == [] then AskUser(t, r, text)
              else
                var named := ModelContext(request).(targetName := Some(r.choices[0].toolCalls.value[0].name));
                if cfg.useAgentOrchestrator then
                  ResumeWith(t, ChatRequest(request.model, ConstructLlmMessages(cfg, named), request.stream))
                else ScheduleApiCall(t, cfg, named, input)
  {
    assert Asked(request, d).callouts - {d} == map[];
    var t := TakenOut(Asked(request, d), d);
    assert t.(archFcResponse := ModelResponse(r)) == Took(request, d, r, None);
  }

  // ----- the developer's answer -----

  function DeveloperAsk(endpoint: Endpoint, request: T.Request): Call {
    Call(endpoint.name, request.path, GetOr(endpoint.verb, T.GET), Fields(request.body))
  }

  function ToolAsked(request: ChatRequest, d: nat, r: ChatResponse, name: string, endpoint: Endpoint, call: T.Request,
      e: nat): Stream
    requires CallsTool(r, name)
  {
    Stream(map[e := CallContext(FunctionCall, Some(name), request, Some(endpoint.name), Some(call.path))], 1,
           r.choices[0].toolCalls, Remark(r), None, request.stream, Some(request),
           [Dispatch(d, ModelCall(request)), Dispatch(e, DeveloperAsk(endpoint, call))])
  }

  lemma {:induction false} Scheduled(cfg: Config, t: Stream, ctx: CallContext, input: ResponseInput, name: string,
      call: T.Request)
    requires t.toolCalls.Some? && t.toolCalls.value != [] && t.toolCalls.value[0].name == name
    requires name in cfg.targets && cfg.targets[name].endpoint.Some?
    requires DeveloperRequest(cfg, cfg.targets[name], input.arguments) == T.Built(call)
    ensures var endpoint := cfg.targets[name].endpoint.value;
            ScheduleApiCall(t, cfg, ctx, input)
            == CallOrRefuse(t, DeveloperCall(endpoint, call), DeveloperContext(ctx, endpoint, call), input.dispatch,
                   400)
  {
  }

  lemma {:induction false} ToolCalled(request: ChatRequest, d: nat, r: ChatResponse, name: string, endpoint: Endpoint,
      call: T.Request, e: nat)
    requires CallsTool(r, name)
    ensures CallOrRefuse(Took(request, d, r, r.choices[0].toolCalls), DeveloperCall(endpoint, call),
        DeveloperContext(ModelContext(request).(targetName := Some(name)), endpoint, call), Some(e), 400)
         == Next(ToolAsked(request, d, r, name, endpoint, call, e))
  {
    var ctx := CallContext(FunctionCall, Some(name), request, Some(endpoint.name), Some(call.path));
    assert map[][e := ctx] == map[e := ctx];
  }

  /** The tool that the model calls is asked at its endpoint, by the computed path and body. */
  lemma {:induction false} ToolIsAsked(cfg: Config, request: ChatRequest, d: nat, input: ResponseInput, text: string,
      r: ChatResponse, name: string, call: T.Request, e: nat)
    requires ValidConfig(cfg) && Comes(input, text, Some(r)) && CallsTool(r, name) && !cfg.useAgentOrchestrator
    requires name in cfg.targets && cfg.targets[name].endpoint.Some? && input.dispatch == Some(e)
    requires DeveloperRequest(cfg, cfg.targets[name], input.arguments) == T.Built(call)
    ensures OnCallResponse(Asked(request, d), cfg, d, input)
         == Next(ToolAsked(request, d, r, name, cfg.targets[name].endpoint.value, call, e))
  {
    ModelAnswers(cfg, request, d, input, text, r);
    Scheduled(cfg, Took(request, d, r, r.choices[0].toolCalls), ModelContext(request).(targetName := Some(name)), input,
        name, call);
    ToolCalled(request, d, r, name, cfg.targets[name].endpoint.value, call, e);
  }

  /** What the conversation is when a target's answer, or the orchestrator's request, goes upstream. */
  ghost predicate Conversed(cfg: Config, name: string, request: ChatRequest, messages: seq<Message>,
      kept: seq<Message>, at: seq<nat>)
    requires name in cfg.targets
  {
    && Picks(request.messages, kept, at)
    && messages == SystemFirst(Either(cfg.targets[name].systemPrompt, cfg.systemPrompt)) + kept
  }

  lemma {:induction false} ConstructedIs(cfg: Config, ctx: CallContext, name: string)
      returns (kept: seq<Message>, at: seq<nat>)
    requires name in cfg.targets && ctx.targetName == Some(name)
    ensures Conversed(cfg, name, ctx.request, ConstructLlmMessages(cfg, ctx), kept, at)
    ensures forall m :: m in ConstructLlmMessages(cfg, ctx) ==> m.content.Some?
  {
    kept := FilterOutArchMessages(ctx.request.messages);
    at := FilterPicks(ctx.request.messages);
    ConstructedHaveContent(cfg, ctx);
  }

  /** The actions after the developer's answer: nothing to say, a direct reply, or a resumed request. */
  function AfterAnswer(target: PromptTarget, request: ChatRequest, messages: seq<Message>, text: string): seq<Action>
    requires messages != [] ==> messages[|messages| - 1].content.Some?
  {
    if messages == [] then [Send(500, ErrorText)]
    else if target.autoLlmDispatch == Some(false) then
      [Send(200, if request.stream
                 then Events([StreamChunk(None, Some("assistant"), Some("Arch-Function")),
                              StreamChunk(Some(text), None, Some("Arch-Function"))])
                 else Passthrough(text))]
    else [SetBody(ChatRequest(request.model, Answered(messages, text), request.stream)), Resume]
  }

  lemma {:induction false} AppendTwo(s: Stream, a: Action, b: Action)
    ensures Do(Do(s, a), b).actions == s.actions + [a, b]
  {
  }

  lemma {:induction false} ContextAppended(messages: seq<Message>, text: string)
    requires messages != [] && messages[|messages| - 1].content.Some?
    ensures WithContext(messages, text) == Answered(messages, text)
  {
  }

  lemma {:induction false} AnswerActions(cfg: Config, u: Stream, ctx: CallContext, name: string, input: ResponseInput,
      text: string)
    requires ctx.targetName == Some(name) && name in cfg.targets && input.serializable
    requires u.streaming == ctx.request.stream
    requires var messages := ConstructLlmMessages(cfg, ctx);
             messages != [] ==> messages[|messages| - 1].content.Some?
    ensures var o := ApiCallAnswer(u, cfg, ctx, input, text);
            && o.Next?
            && o.s.actions
               == u.actions + AfterAnswer(cfg.targets[name], ctx.request, ConstructLlmMessages(cfg, ctx), text)
  {
    var messages := ConstructLlmMessages(cfg, ctx);
    if messages != [] && cfg.targets[name].autoLlmDispatch != Some(false) {
      ContextAppended(messages, text);
      AppendTwo(u, SetBody(ChatRequest(ctx.request.model, Answered(messages, text), ctx.request.stream)), Resume);
    }
  }

  lemma {:induction false} ToolHandled(cfg: Config, s: Stream, e: nat, name: string, input: ResponseInput, text: string)
    requires ValidConfig(cfg) && e in s.callouts && s.callouts[e].handler.FunctionCall?
    requires s.callouts[e].targetName == Some(name) && name in cfg.targets
    requires (input.status.None? || input.status == Some(Code(200))) && input.body.text == Some(text)
    ensures OnCallResponse(s, cfg, e, input)
         == ApiCallAnswer(TakenOut(s, e).(toolCallResponse := Some(text)), cfg, s.callouts[e], input, text)
  {
  }

  /** The developer's answer: what is done with it, in terms of the conversation and the text. */
  lemma {:induction false} ToolAnswered(cfg: Config, request: ChatRequest, d: nat, r: ChatResponse, name: string,
      call: T.Request, e: nat, input: ResponseInput, text: string) returns (messages: seq<Message>,
      kept: seq<Message>, at: seq<nat>, t: Stream)
    requires ValidConfig(cfg) && CallsTool(r, name) && name in cfg.targets && cfg.targets[name].endpoint.Some?
    requires (input.status.None? || input.status == Some(Code(200))) && input.body.text == Some(text)
    requires input.serializable
    ensures Conversed(cfg, name, request, messages, kept, at)
    ensures messages != [] ==> messages[|messages| - 1].content.Some?
    ensures var s := ToolAsked(request, d, r, name, cfg.targets[name].endpoint.value, call, e);
            && OnCallResponse(s, cfg, e, input) == Next(t)
            && t.actions == s.actions + AfterAnswer(cfg.targets[name], request, messages, text)
  {
    var s := ToolAsked(request, d, r, name, cfg.targets[name].endpoint.value, call, e);
    var ctx := s.callouts[e];
    messages := ConstructLlmMessages(cfg, ctx);
    kept, at := ConstructedIs(cfg, ctx, name);
    if messages != [] { assert messages[|messages| - 1] in messages; }
    var u := TakenOut(s, e).(toolCallResponse := Some(text));
    ToolHandled(cfg, s, e, name, input, text);
    AnswerActions(cfg, u, ctx, name, input, text);
    t := ApiCallAnswer(u, cfg, ctx, input, text).s;
  }

  // ----- whole runs -----

  lemma {:induction false} RunOfTwo(cfg: Config, s: Stream, first: Response, second: Response, t: Stream)
    requires ValidConfig(cfg) && OnCallResponse(s, cfg, first.token, first.input) == Next(t)
    ensures Responses(s, cfg, [first, second]) == OnCallResponse(t, cfg, second.token, second.input)
    ensures Responses(s, cfg, [first]) == Next(t)
  {
    assert [first, second][1..] == [second] && [first][1..] == [] && [second][1..] == [];
    assert Responses(t, cfg, [second]) == OnCallResponse(t, cfg, second.token, second.input);
  }

  /**
   The model calls a tool and the developer answers: what the gateway has asked of the host in the end.
   The whole conversation went to the model, the computed request to the endpoint, and upstream goes
   the system prompt, the kept messages, and the answer behind the last of them.
   */
  lemma {:induction false} ToolRun(cfg: Config, input: RequestInput, request: ChatRequest, d: nat, first: Response,
      said: string, r: ChatResponse, name: string, call: T.Request, e: nat, second: Response, text: string)
      returns (messages: seq<Message>, kept: seq<Message>, at: seq<nat>, t: Stream)
    requires ValidConfig(cfg) && Arrives(input, request, d)
    requires first.token == d && Comes(first.input, said, Some(r)) && CallsTool(r, name) && !cfg.useAgentOrchestrator
    requires name in cfg.targets && cfg.targets[name].endpoint.Some? && first.input.dispatch == Some(e)
    requires DeveloperRequest(cfg, cfg.targets[name], first.input.arguments) == T.Built(call)
    requires second.token == e && second.input.body.text == Some(text) && second.input.serializable
    requires second.input.status.None? || second.input.status == Some(Code(200))
    ensures Conversed(cfg, name, request, messages, kept, at)
    ensures messages != [] ==> messages[|messages| - 1].content.Some?
    ensures OnRequestBody(NewStream(), true, input).0.Next?
    ensures Responses(OnRequestBody(NewStream(), true, input).0.s, cfg, [first, second]) == Next(t)
    ensures t.actions
         == [Dispatch(d, Call("bright_staff", "/function_calling", T.POST, Conversation(request.messages))),
             Dispatch(e, DeveloperAsk(cfg.targets[name].endpoint.value, call))]
          + AfterAnswer(cfg.targets[name], request, messages, text)
  {
    ModelIsAsked(input, request, d);
    ToolIsAsked(cfg, request, d, first.input, said, r, name, call, e);
    messages, kept, at, t := ToolAnswered(cfg, request, d, r, name, call, e, second.input, text);
    RunOfTwo(cfg, Asked(request, d), first, second,
        ToolAsked(request, d, r, name, cfg.targets[name].endpoint.value, call, e));
  }

  /** With an orchestrator the request goes upstream at once, with the system prompt of the named target. */
  lemma {:induction false} OrchestratedRun(cfg: Config, input: RequestInput, request: ChatRequest, d: nat,
      first: Response, said: string, r: ChatResponse, name: string)
      returns (messages: seq<Message>, kept: seq<Message>, at: seq<nat>, t: Stream)
    requires ValidConfig(cfg) && Arrives(input, request, d) && cfg.useAgentOrchestrator && name in cfg.targets
    requires first.token == d && Comes(first.input, said, Some(r)) && CallsTool(r, name)
    ensures Conversed(cfg, name, request, messages, kept, at)
    ensures OnRequestBody(NewStream(), true, input).0.Next?
    ensures Responses(OnRequestBody(NewStream(), true, input).0.s, cfg, [first]) == Next(t)
    ensures t.actions == [Dispatch(d, ModelCall(request)),
                          SetBody(ChatRequest(request.model, messages, request.stream)), Resume]
  {
    ModelIsAsked(input, request, d);
    ModelAnswers(cfg, request, d, first.input, said, r);
    var named := ModelContext(request).(targetName := Some(name));
    messages := ConstructLlmMessages(cfg, named);
    kept, at := ConstructedIs(cfg, named, name);
    var u := Took(request, d, r, r.choices[0].toolCalls);
    t := ResumeWith(u, ChatRequest(request.model, messages, request.stream)).s;
    AppendTwo(u, SetBody(ChatRequest(request.model, messages, request.stream)), Resume);
    RunOfTwo(cfg, Asked(request, d), first, first, t);
  }

  /** The model has only something to say: it goes to the user. */
  lemma {:induction false} AskingRun(cfg: Config, input: RequestInput, request: ChatRequest, d: nat, first: Response,
      said: string, r: ChatResponse, text: string) returns (t: Stream)
    requires ValidConfig(cfg) && Arrives(input, request, d)
    requires first.token == d && Comes(first.input, said, Some(r)) && SaysOnly(r, text)
    ensures OnRequestBody(NewStream(), true, input).0.Next?
    ensures Responses(OnRequestBody(NewStream(), true, input).0.s, cfg, [first]) == Next(t)
    ensures t.actions == [Dispatch(d, ModelCall(request)),
                          Send(200, if request.stream
                                    then Events([StreamChunk(Remark(r), Some("assistant"), Some("Arch-Function")),
                                                 StreamChunk(Some(text), None, Some("Arch-Function-Chat"))])
                                    else Passthrough(said))]
  {
    ModelIsAsked(input, request, d);
    ModelAnswers(cfg, request, d, first.input, said, r);
    var u := Took(request, d, r, r.choices[0].toolCalls);
    t := AskUser(u, r, said).s;
    assert ARCH_FC_MODEL_NAME + "-Chat" == "Arch-Function-Chat";
    assert |t.actions| == 2 && t.actions[..1] == u.actions;
    RunOfTwo(cfg, Asked(request, d), first, first, t);
  }

  // ----- without an intent -----

  /** The first target, in hash map order, that is marked default. */
  ghost predicate DefaultAt(cfg: Config, k: nat)
    requires ValidConfig(cfg)
  {
    && k < |cfg.order| && cfg.targets[cfg.order[k]].default == Some(true)
    && forall j :: 0 <= j < k ==> cfg.targets[cfg.order[j]].default != Some(true)
  }

  lemma {:induction false} FindDefaultIs(cfg: Config, order: seq<string>, k: nat)
    requires forall n :: n in order ==> n in cfg.targets
    requires k <= |order| && forall j :: 0 <= j < k ==> cfg.targets[order[j]].default != Some(true)
    requires k < |order| ==> cfg.targets[order[k]].default == Some(true)
    ensures FindDefault(cfg, order) == if k < |order| then Some(cfg.targets[order[k]]) else None
  {
    if order != [] {
      assert order[0] in order;
      if k > 0 { FindDefaultIs(cfg, order[1..], k - 1); }
    }
  }

  /** Without a default target the request goes upstream, with the gateway's system prompt. */
  lemma {:induction false} NoIntentRun(cfg: Config, input: RequestInput, request: ChatRequest, d: nat, first: Response,
      said: string, r: ChatResponse) returns (kept: seq<Message>, at: seq<nat>, t: Stream)
    requires ValidConfig(cfg) && Arrives(input, request, d)
    requires first.token == d && Comes(first.input, said, Some(r)) && SaysNothing(r)
    requires forall j :: 0 <= j < |cfg.order| ==> cfg.targets[cfg.order[j]].default != Some(true)
    ensures Picks(request.messages, kept, at)
    ensures OnRequestBody(NewStream(), true, input).0.Next?
    ensures Responses(OnRequestBody(NewStream(), true, input).0.s, cfg, [first]) == Next(t)
    ensures t.actions == [Dispatch(d, ModelCall(request)),
                          SetBody(ChatRequest(request.model, SystemFirst(cfg.systemPrompt) + kept, request.stream)),
                          Resume]
  {
    ModelIsAsked(input, request, d);
    ModelAnswers(cfg, request, d, first.input, said, r);
    FindDefaultIs(cfg, cfg.order, |cfg.order|);
    kept := FilterOutArchMessages(request.messages);
    at := FilterPicks(request.messages);
    var u, upstream := Took(request, d, r, None), ChatRequest(request.model, SystemFirst(cfg.systemPrompt) + kept,
        request.stream);
    t := ResumeWith(u, upstream).s;
    AppendTwo(u, SetBody(upstream), Resume);
    RunOfTwo(cfg, Asked(request, d), first, first, t);
  }

  function DefaultAsk(endpoint: Endpoint, messages: seq<Message>): Call {
    Call(endpoint.name, GetOr(endpoint.path, "/"), T.POST, Conversation(messages))
  }

  function DefaultAsked(request: ChatRequest, d: nat, r: ChatResponse, target: PromptTarget, e: nat): Stream
    requires target.endpoint.Some?
  {
    Stream(map[e := CallContext(DefaultTarget, Some(target.name), request, Some("arch_internal"),
                                Some("/function_calling"))],
           1, None, Remark(r), None, request.stream, Some(request),
           [Dispatch(d, ModelCall(request)), Dispatch(e, DefaultAsk(target.endpoint.value, request.messages))])
  }

  /** The default target gets the whole conversation. */
  lemma {:induction false} DefaultIsAsked(cfg: Config, request: ChatRequest, d: nat, input: ResponseInput, said: string,
      r: ChatResponse, k: nat, e: nat)
    requires ValidConfig(cfg) && Comes(input, said, Some(r)) && SaysNothing(r) && DefaultAt(cfg, k)
    requires cfg.targets[cfg.order[k]].endpoint.Some? && input.dispatch == Some(e)
    ensures OnCallResponse(Asked(request, d), cfg, d, input)
         == Next(DefaultAsked(request, d, r, cfg.targets[cfg.order[k]], e))
  {
    ModelAnswers(cfg, request, d, input, said, r);
    FindDefaultIs(cfg, cfg.order, k);
    assert map[][e := ModelContext(request).(handler := DefaultTarget,
        targetName := Some(cfg.targets[cfg.order[k]].name))]
        == DefaultAsked(request, d, r, cfg.targets[cfg.order[k]], e).callouts;
  }

  /** The actions after the default target's answer. */
  function AfterDefault(target: PromptTarget, request: ChatRequest, text: string, r: ChatResponse): seq<Action>
    requires r.choices != [] && r.choices[0].content.Some?
    requires request.messages != [] && request.messages[|request.messages| - 1].content.Some?
  {
    if target.autoLlmDispatch == Some(false) then
      [Send(200, if request.stream
                 then Events([StreamChunk(None, Some("assistant"), Some(r.model)),
                              StreamChunk(r.choices[0].content, None, Some(r.model))])
                 else Passthrough(text))]
    else
      [SetBody(ChatRequest(request.model,
                           Answered(SystemFirst(target.systemPrompt) + request.messages, r.choices[0].content.value),
                           request.stream)),
       Resume]
  }

  lemma {:induction false} DefaultAnswered(cfg: Config, request: ChatRequest, d: nat, r: ChatResponse, k: nat, e: nat,
      input: ResponseInput, text: string, answer: ChatResponse) returns (t: Stream)
    requires ValidConfig(cfg) && DefaultAt(cfg, k) && cfg.targets[cfg.order[k]].endpoint.Some?
    requires Comes(input, text, Some(answer)) && answer.choices != [] && answer.choices[0].content.Some?
    requires request.messages != [] && request.messages[|request.messages| - 1].content.Some?
    ensures var s := DefaultAsked(request, d, r, cfg.targets[cfg.order[k]], e);
            && OnCallResponse(s, cfg, e, input) == Next(t)
            && t.actions == s.actions + AfterDefault(cfg.targets[cfg.order[k]], request, text, answer)
  {
    var target := cfg.targets[cfg.order[k]];
    assert cfg.order[k] in cfg.targets && target.name in cfg.targets && cfg.targets[target.name] == target;
    var s := DefaultAsked(request, d, r, target, e);
    var u := TakenOut(s, e);
    t := DefaultTargetResponse(u, cfg, s.callouts[e], input).s;
    var messages := SystemFirst(target.systemPrompt) + request.messages;
    ContextAppended(messages, answer.choices[0].content.value);
    AppendTwo(u, SetBody(ChatRequest(request.model, Answered(messages, answer.choices[0].content.value),
        request.stream)), Resume);
  }

  /** A request without an intent, by way of the default target. */
  lemma {:induction false} DefaultRun(cfg: Config, input: RequestInput, request: ChatRequest, d: nat, first: Response,
      said: string, r: ChatResponse, k: nat, e: nat, second: Response, text: string, answer: ChatResponse)
      returns (t: Stream)
    requires ValidConfig(cfg) && Arrives(input, request, d) && first.token == d
    requires Comes(first.input, said, Some(r)) && SaysNothing(r) && DefaultAt(cfg, k)
    requires cfg.targets[cfg.order[k]].endpoint.Some? && first.input.dispatch == Some(e)
    requires second.token == e && Comes(second.input, text, Some(answer))
    requires answer.choices != [] && answer.choices[0].content.Some?
    requires request.messages != [] && request.messages[|request.messages| - 1].content.Some?
    ensures OnRequestBody(NewStream(), true, input).0.Next?
    ensures Responses(OnRequestBody(NewStream(), true, input).0.s, cfg, [first, second]) == Next(t)
    ensures t.actions
         == [Dispatch(d, Call("bright_staff", "/function_calling", T.POST, Conversation(request.messages))),
             Dispatch(e, DefaultAsk(cfg.targets[cfg.order[k]].endpoint.value, request.messages))]
          + AfterDefault(cfg.targets[cfg.order[k]], request, text, answer)
  {
    ModelIsAsked(input, request, d);
    DefaultIsAsked(cfg, request, d, first.input, said, r, k, e);
    t := DefaultAnswered(cfg, request, d, r, k, e, second.input, text, answer);
    RunOfTwo(cfg, Asked(request, d), first, second, DefaultAsked(request, d, r, cfg.targets[cfg.order[k]], e));
  }

  // ----- failed calls -----

  /** A response whose status is no success is passed on by its status, and nothing goes upstream. */
  lemma {:induction false} FailurePassedOn(cfg: Config, s: Stream, token: nat, input: ResponseInput, code: nat)
    requires ValidConfig(cfg) && Inv(cfg, s) && token in s.callouts && input.body.text.Some?
    requires input.status == Some(Code(code)) && !(200 <= code < 300)
    ensures var o := OnCallResponse(s, cfg, token, input);
            o.Next? && o.s.actions == s.actions + [Send(code, ErrorText)] && o.s.callouts == s.callouts - {token}
  {
    TakeOut(cfg, s, token);
  }

  // ----- requests that are not processed -----

  /** A request body that cannot be read, or does not parse, is answered. */
  lemma {:induction false} BodyRefused(input: RequestInput)
    requires input.size > 0 && (!input.readable || input.parsed.None?)
    ensures var o := OnRequestBody(NewStream(), true, input);
            o.1.Pause? && o.0.Next? && o.0.s.actions == [Send(if input.readable then 400 else 500, ErrorText)]
  {
    assert [] + [Send(500, ErrorText)] == [Send(500, ErrorText)];
    assert [] + [Send(400, ErrorText)] == [Send(400, ErrorText)];
  }

  /** Without a user message the request goes on as it is. */
  lemma {:induction false} NoPromptContinues(input: RequestInput, request: ChatRequest)
    requires input.size > 0 && input.readable && input.parsed == Some(request) && input.archStateOk
    requires forall i :: 0 <= i < |request.messages| ==> request.messages[i].role != "user"
    ensures var o := OnRequestBody(NewStream(), true, input);
            o.1.Continue? && o.0.Next? && o.0.s.actions == [] && o.0.s.callouts == map[]
  {
    NoUserPrompt(request.messages);
  }

  lemma {:induction false} NoUserPrompt(messages: seq<Message>)
    requires forall i :: 0 <= i < |messages| ==> messages[i].role != "user"
    ensures LastUserPrompt(messages) == None
  {
    if messages != [] { NoUserPrompt(messages[..|messages| - 1]); }
  }

  /** A first call that the host refuses is answered with 500. */
  lemma {:induction false} ModelCallRefused(input: RequestInput, request: ChatRequest, i: nat)
    requires input.size > 0 && input.readable && input.parsed == Some(request) && input.archStateOk
    requires PromptAt(request.messages, i) && (!input.serializable || input.dispatch.None?)
    ensures var o := OnRequestBody(NewStream(), true, input);
            o.1.Pause? && o.0.Next? && o.0.s.actions == [Send(500, ErrorText)] && o.0.s.callouts == map[]
  {
    LastUserPromptIs(request.messages, i);
    assert [] + [Send(500, ErrorText)] == [Send(500, ErrorText)];
  }

  /** A model response that is text but no chat response is answered with 500. */
  lemma {:induction false} UnreadableModel(cfg: Config, request: ChatRequest, d: nat, input: ResponseInput,
      text: string)
    requires ValidConfig(cfg) && Comes(input, text, None)
    ensures var o := OnCallResponse(Asked(request, d), cfg, d, input);
            o.Next? && o.s.actions == [Dispatch(d, ModelCall(request)), Send(500, ErrorText)]
  {
    var t := TakenOut(Asked(request, d), d);
    assert t.actions + [Send(500, ErrorText)] == [Dispatch(d, ModelCall(request)), Send(500, ErrorText)];
  }

  /** A developer call whose path cannot be computed, or that the host refuses, is answered with 400. */
  lemma {:induction false} ToolCallRefused(cfg: Config, request: ChatRequest, d: nat, input: ResponseInput,
      text: string, r: ChatResponse, name: string)
    requires ValidConfig(cfg) && Comes(input, text, Some(r)) && CallsTool(r, name) && !cfg.useAgentOrchestrator
    requires name in cfg.targets && cfg.targets[name].endpoint.Some?
    requires var computed := DeveloperRequest(cfg, cfg.targets[name], input.arguments);
             computed.Failed? || (computed.Built? && input.dispatch.None?)
    ensures var o := OnCallResponse(Asked(request, d), cfg, d, input);
            o.Next? && o.s.actions == [Dispatch(d, ModelCall(request)), Send(400, ErrorText)] && o.s.callouts == map[]
  {
    ModelAnswers(cfg, request, d, input, text, r);
    var t := Took(request, d, r, r.choices[0].toolCalls);
    ScheduleRefused(cfg, t, ModelContext(request).(targetName := Some(name)), input, name);
    assert t.actions + [Send(400, ErrorText)] == [Dispatch(d, ModelCall(request)), Send(400, ErrorText)];
  }

  lemma {:induction false} ScheduleRefused(cfg: Config, t: Stream, ctx: CallContext, input: ResponseInput, name: string)
    requires t.toolCalls.Some? && t.toolCalls.value != [] && t.toolCalls.value[0].name == name
    requires name in cfg.targets && cfg.targets[name].endpoint.Some?
    requires var computed := DeveloperRequest(cfg, cfg.targets[name], input.arguments);
             computed.Failed? || (computed.Built? && input.dispatch.None?)
    ensures ScheduleApiCall(t, cfg, ctx, input) == Next(Do(t, Send(400, ErrorText)))
  {
  }
}
