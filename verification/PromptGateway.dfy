/**
 The prompt gateway's call-out protocol: a paused request is driven by asynchronous call-outs
 (first the function-calling model, then a developer endpoint or the default target) until it is
 resumed or answered (crates/prompt_gateway/src/http_context.rs, context.rs, stream_context.rs and
 crates/common/src/http.rs).

 What the host and the JSON parser decide is part of the input of each step. A Rust panic is the
 outcome `Trap`.
 */
module PromptGateway {
  import opened Wrappers
  import T = Tools
  import PT = PathTemplate
  import UJ = UrlJoin

  const SYSTEM_ROLE := "system"
  const USER_ROLE := "user"
  const TOOL_ROLE := "tool"
  const ASSISTANT_ROLE := "assistant"
  const ARCH_FC_MODEL_NAME := "Arch-Function"
  const MODEL_SERVER_NAME := "bright_staff"
  const X_ARCH_FC_MODEL_RESPONSE := "x-arch-fc-model-response"

  datatype ToolCall = ToolCall(id: string, name: string, arguments: string)

  /** `content` is the text that the content displays as. */
  datatype Message = Message(role: string, content: Option<string>, toolCalls: Option<seq<ToolCall>>)

  datatype ChatRequest = ChatRequest(model: string, messages: seq<Message>, stream: bool)

  datatype ChatResponse = ChatResponse(choices: seq<Message>, model: string, metadata: Option<map<string, string>>)

  /** A response body: its text when it is UTF-8, and what it parses to when it is a chat response. */
  datatype RawBody = RawBody(text: Option<string>, parsed: Option<ChatResponse>)
  type Body = b: RawBody | b.parsed.Some? ==> b.text.Some? witness RawBody(None, None)

  datatype Endpoint = Endpoint(name: string, path: Option<string>, verb: Option<T.HttpMethod>)

  datatype PromptTarget = PromptTarget(
    name: string,
    default: Option<bool>,
    endpoint: Option<Endpoint>,
    parameters: Option<seq<PT.Parameter>>,
    systemPrompt: Option<string>,
    autoLlmDispatch: Option<bool>)

  /** `order` is the iteration order of the `prompt_targets` hash map. */
  datatype Config = Config(
    targets: map<string, PromptTarget>,
    order: seq<string>,
    systemPrompt: Option<string>,
    useAgentOrchestrator: bool,
    library: UJ.Library)

  ghost predicate ValidConfig(cfg: Config) {
    && (forall n :: n in cfg.order <==> n in cfg.targets)
    && (forall n :: n in cfg.targets ==> cfg.targets[n].name == n)
  }

  datatype Handler = ArchFC | FunctionCall | DefaultTarget

  datatype CallContext = CallContext(
    handler: Handler,
    targetName: Option<string>,
    request: ChatRequest,
    cluster: Option<string>,
    path: Option<string>)

  /** An event of a server-sent stream, as `ChatCompletionStreamResponse::new` builds it. */
  datatype StreamChunk = StreamChunk(content: Option<string>, role: Option<string>, model: Option<string>)

  datatype Reply = ErrorText | Passthrough(text: string) | Events(chunks: seq<StreamChunk>)

  /** What a call carries: the messages of a conversation, or the body of a developer call. */
  datatype Payload = Conversation(messages: seq<Message>) | Fields(fields: Option<map<string, string>>)

  datatype Call = Call(host: string, path: string, verb: T.HttpMethod, payload: Payload)

  /** What the gateway asks the host to do. */
  datatype Action =
    | Dispatch(id: nat, call: Call)
    | SetBody(request: ChatRequest)
    | Resume
    | Send(status: nat, reply: Reply)

  /** The fields of a stream context; `active` is what it has added to the call gauge. */
  datatype Stream = Stream(
    callouts: map<nat, CallContext>,
    active: int,
    toolCalls: Option<seq<ToolCall>>,
    archFcResponse: Option<string>,
    toolCallResponse: Option<string>,
    streaming: bool,
    request: Option<ChatRequest>,
    actions: seq<Action>)

  function NewStream(): Stream {
    Stream(map[], 0, None, None, None, false, None, [])
  }

  datatype Outcome = Trap | Next(s: Stream)

  // ----- small steps -----

  function Do(s: Stream, a: Action): Stream {
    s.(actions := s.actions + [a])
  }

  function SendError(s: Stream, status: nat): Outcome {
    Next(Do(s, Send(status, ErrorText)))
  }

  /** `http_call`: the host accepts the call and gives it an id, or refuses. */
  function HttpCall(s: Stream, call: Call, ctx: CallContext, dispatch: Option<nat>): Stream {
    match dispatch
    case None => s
    case Some(id) => Do(s.(callouts := s.callouts[id := ctx], active := s.active + 1), Dispatch(id, call))
  }

  function CallOrRefuse(s: Stream, call: Call, ctx: CallContext, dispatch: Option<nat>, status: nat): Outcome {
    if dispatch.Some? then Next(HttpCall(s, call, ctx, dispatch)) else SendError(s, status)
  }

  function ResumeWith(s: Stream, request: ChatRequest): Outcome {
    Next(Do(Do(s, SetBody(request)), Resume))
  }

  function Text(role: string, text: string): Message {
    Message(role, Some(text), None)
  }

  function SystemMessages(prompt: Option<string>): seq<Message> {
    if prompt.Some? then [Text(SYSTEM_ROLE, prompt.value)] else []
  }

  predicate HasToolCalls(calls: Option<seq<ToolCall>>) {
    calls.Some? && calls.value != []
  }

  predicate ArchMessage(m: Message) {
    m.role == TOOL_ROLE || m.content.None? || HasToolCalls(m.toolCalls)
  }

  function FilterOutArchMessages(messages: seq<Message>): seq<Message> {
    if messages == [] then []
    else (if ArchMessage(messages[0]) then [] else [messages[0]]) + FilterOutArchMessages(messages[1..])
  }

  function TargetSystemPrompt(cfg: Config, name: Option<string>): Option<string> {
    if name.Some? && name.value in cfg.targets && cfg.targets[name.value].systemPrompt.Some?
    then cfg.targets[name.value].systemPrompt
    else cfg.systemPrompt
  }

  function ConstructLlmMessages(cfg: Config, ctx: CallContext): seq<Message> {
    SystemMessages(TargetSystemPrompt(cfg, ctx.targetName)) + FilterOutArchMessages(ctx.request.messages)
  }

  predicate IntentMatched(r: ChatResponse) {
    r.choices != [] &&
    ((r.choices[0].content.Some? && r.choices[0].content.value != "") || HasToolCalls(r.choices[0].toolCalls))
  }

  /** The first target, in hash map order, that is marked default. */
  function FindDefault(cfg: Config, order: seq<string>): Option<PromptTarget>
    requires forall n :: n in order ==> n in cfg.targets
  {
    if order == [] then None
    else
      assert order[0] in order;
      if cfg.targets[order[0]].default == Some(true) then Some(cfg.targets[order[0]])
      else FindDefault(cfg, order[1..])
  }

  function ModelResponse(r: ChatResponse): Option<string> {
    if r.metadata.Some? && X_ARCH_FC_MODEL_RESPONSE in r.metadata.value
    then Some(r.metadata.value[X_ARCH_FC_MODEL_RESPONSE])
    else None
  }

  // ----- the request body -----

  /** What the host and the parser make of the request body. */
  datatype RequestInput = RequestInput(
    size: nat,
    readable: bool,
    parsed: Option<ChatRequest>,
    archStateOk: bool,
    serializable: bool,
    dispatch: Option<nat>)

  datatype Verdict = Continue | Pause

  /** The last user message. */
  function LastUserPrompt(messages: seq<Message>): Option<Message> {
    if messages == [] then None
    else if messages[|messages| - 1].role == USER_ROLE then Some(messages[|messages| - 1])
    else LastUserPrompt(messages[..|messages| - 1])
  }

  /** The call to the function-calling model. */
  function FunctionCalling(request: ChatRequest): Call {
    Call(MODEL_SERVER_NAME, "/function_calling", T.POST, Conversation(request.messages))
  }

  function OnRequestBody(s: Stream, endOfStream: bool, input: RequestInput): (Outcome, Verdict) {
    if !endOfStream then (Next(s), Pause)
    else if input.size == 0 then (Next(s), Continue)
    else if !input.readable then (SendError(s, 500), Pause)
    else if input.parsed.None? then (SendError(s, 400), Pause)
    else if !input.archStateOk then (Trap, Pause)
    else
      var request := input.parsed.value;
      var t := s.(streaming := request.stream);
      var prompt := LastUserPrompt(request.messages);
      if prompt.None? then (Next(t), Continue)
      else
        var u := t.(request := Some(request));
        if !input.serializable then (SendError(u, 500), Pause)
        else if prompt.value.content.None? then (SendError(u, 500), Pause)
        else
          var ctx := CallContext(ArchFC, None, request, Some("arch_internal"), Some("/function_calling"));
          (CallOrRefuse(u, FunctionCalling(request), ctx, input.dispatch, 500), Pause)
  }

  // ----- the responses -----

  /** The `:status` header of a response, when it is present: a status code, or text that is none. */
  datatype Status = Code(code: nat) | Unparsable

  /** What the arguments of a tool call parse to, and the iteration order of those that are parameters. */
  datatype RawArguments = RawArguments(values: Option<map<string, T.Value>>, order: seq<string>)
  type Arguments = a: RawArguments | PT.Iterates(a.order, T.FilterToolParams(a.values)) witness RawArguments(None, [])

  /** `arguments` belongs to the first tool call in the body. */
  datatype ResponseInput = ResponseInput(
    status: Option<Status>,
    body: Body,
    arguments: Arguments,
    serializable: bool,
    dispatch: Option<nat>)

  predicate Success(code: nat) {
    200 <= code < 300
  }

  /** The path and body of a developer call. */
  function DeveloperRequest(cfg: Config, target: PromptTarget, arguments: Arguments): T.Outcome
    requires target.endpoint.Some?
  {
    var endpoint := target.endpoint.value;
    T.ComputeRequest(cfg.library, GetOr(endpoint.path, "/"), arguments.values, arguments.order,
        GetOr(target.parameters, []), GetOr(endpoint.verb, T.GET))
  }

  function ScheduleApiCall(s: Stream, cfg: Config, ctx: CallContext, input: ResponseInput): Outcome {
    if !HasToolCalls(s.toolCalls) then Trap
    else
      var name := s.toolCalls.value[0].name;
      if name !in cfg.targets || cfg.targets[name].endpoint.None? then Trap
      else
        match DeveloperRequest(cfg, cfg.targets[name], input.arguments)
        case Panic => Trap
        case Failed(_) => SendError(s, 400)
        case Built(request) =>
          var endpoint := cfg.targets[name].endpoint.value;
          CallOrRefuse(s, DeveloperCall(endpoint, request), DeveloperContext(ctx, endpoint, request), input.dispatch,
              400)
  }

  function DeveloperContext(ctx: CallContext, endpoint: Endpoint, request: T.Request): CallContext {
    ctx.(handler := FunctionCall, cluster := Some(endpoint.name), path := Some(request.path))
  }

  function DeveloperCall(endpoint: Endpoint, request: T.Request): Call {
    Call(endpoint.name, request.path, GetOr(endpoint.verb, T.GET), Fields(request.body))
  }

  function DefaultTargetCall(endpoint: Endpoint, messages: seq<Message>): Call {
    Call(endpoint.name, GetOr(endpoint.path, "/"), T.POST, Conversation(messages))
  }

  function NoIntent(s: Stream, cfg: Config, ctx: CallContext, input: ResponseInput): Outcome
    requires forall n :: n in cfg.order ==> n in cfg.targets
  {
    match FindDefault(cfg, cfg.order)
    case Some(target) =>
      if target.endpoint.None? then Trap
      else
        CallOrRefuse(s, DefaultTargetCall(target.endpoint.value, ctx.request.messages),
            ctx.(handler := DefaultTarget, targetName := Some(target.name)), input.dispatch, 400)
    case None =>
      if s.request.None? then Trap
      else
        var messages := SystemMessages(cfg.systemPrompt) + FilterOutArchMessages(ctx.request.messages);
        ResumeWith(s, ChatRequest(s.request.value.model, messages, ctx.request.stream))
  }

  /** The model answered without a tool call: its message goes back to the user. */
  function AskUser(s: Stream, r: ChatResponse, text: string): Outcome
    requires r.choices != []
  {
    if s.streaming then
      if r.choices[0].content.None? then Trap
      else
        var chunks := [StreamChunk(s.archFcResponse, Some(ASSISTANT_ROLE), Some(ARCH_FC_MODEL_NAME)),
                       StreamChunk(r.choices[0].content, None, Some(ARCH_FC_MODEL_NAME + "-Chat"))];
        Next(Do(s.(toolCalls := None), Send(200, Events(chunks))))
    else Next(Do(s.(toolCalls := None), Send(200, Passthrough(text))))
  }

  function ArchFcResponse(s: Stream, cfg: Config, ctx: CallContext, input: ResponseInput): Outcome
    requires forall n :: n in cfg.order ==> n in cfg.targets
  {
    if input.body.text.None? then Trap
    else if input.body.parsed.None? then SendError(s, 500)
    else
      var r := input.body.parsed.value;
      var t := s.(archFcResponse := ModelResponse(r));
      if !IntentMatched(r) then NoIntent(t, cfg, ctx, input)
      else if r.choices == [] then Trap
      else
        var u := t.(toolCalls := r.choices[0].toolCalls);
        if !HasToolCalls(u.toolCalls) then AskUser(u, r, input.body.text.value)
        else
          var named := ctx.(targetName := Some(u.toolCalls.value[0].name));
          if cfg.useAgentOrchestrator then
            ResumeWith(u, ChatRequest(ctx.request.model, ConstructLlmMessages(cfg, named), ctx.request.stream))
          else ScheduleApiCall(u, cfg, named, input)
  }

  /** The developer's answer, sent back as it is. */
  function ApiReply(streaming: bool, text: string): Reply {
    if streaming
    then Events([StreamChunk(None, Some(ASSISTANT_ROLE), Some(ARCH_FC_MODEL_NAME)),
                 StreamChunk(Some(text), None, Some(ARCH_FC_MODEL_NAME))])
    else Passthrough(text)
  }

  /** The messages with the last one extended by the answer as context. */
  function WithContext(messages: seq<Message>, answer: string): seq<Message>
    requires messages != [] && messages[|messages| - 1].content.Some?
  {
    var prompt := messages[|messages| - 1].content.value + "\ncontext: " + answer;
    messages[..|messages| - 1] + [Text(USER_ROLE, prompt)]
  }

  function ApiCallResponse(s: Stream, cfg: Config, ctx: CallContext, input: ResponseInput): Outcome {
    if ctx.targetName.None? || ctx.targetName.value !in cfg.targets then Trap
    else if input.status.Some? && input.status.value != Code(200) then
      if ctx.cluster.None? || ctx.path.None? || input.body.text.None? || input.status.value.Unparsable? then Trap
      else SendError(s, input.status.value.code)
    else if input.body.text.None? then Trap
    else
      ApiCallAnswer(s.(toolCallResponse := input.body.text), cfg, ctx, input, input.body.text.value)
  }

  function ApiCallAnswer(t: Stream, cfg: Config, ctx: CallContext, input: ResponseInput, text: string): Outcome
    requires ctx.targetName.Some? && ctx.targetName.value in cfg.targets
  {
    var messages := ConstructLlmMessages(cfg, ctx);
    if messages == [] then SendError(t, 500)
    else if cfg.targets[ctx.targetName.value].autoLlmDispatch == Some(false) then
      Next(Do(t, Send(200, ApiReply(t.streaming, text))))
    else if messages[|messages| - 1].content.None? then Trap
    else if !input.serializable then SendError(t, 500)
    else ResumeWith(t, ChatRequest(ctx.request.model, WithContext(messages, text), ctx.request.stream))
  }

  function DefaultTargetReply(s: Stream, input: ResponseInput): Outcome {
    if !s.streaming then
      if input.body.text.None? then Trap else Next(Do(s, Send(200, Passthrough(input.body.text.value))))
    else if input.body.text.None? then Trap
    else if input.body.parsed.None? then SendError(s, 500)
    else
      var r := input.body.parsed.value;
      if r.choices == [] || r.choices[0].content.None? then Trap
      else
        Next(Do(s, Send(200, Events([StreamChunk(None, Some(ASSISTANT_ROLE), Some(r.model)),
                                     StreamChunk(r.choices[0].content, None, Some(r.model))]))))
  }

  function DefaultTargetResponse(s: Stream, cfg: Config, ctx: CallContext, input: ResponseInput): Outcome {
    if ctx.targetName.None? || ctx.targetName.value !in cfg.targets then Trap
    else if cfg.targets[ctx.targetName.value].autoLlmDispatch == Some(false) then DefaultTargetReply(s, input)
    else if input.body.text.None? then Trap
    else if input.body.parsed.None? then SendError(s, 500)
    else
      var r := input.body.parsed.value;
      var messages := SystemMessages(cfg.targets[ctx.targetName.value].systemPrompt) + ctx.request.messages;
      if r.choices == [] || r.choices[0].content.None? then Trap
      else if messages == [] || messages[|messages| - 1].content.None? || s.request.None? then Trap
      else
        ResumeWith(s, ChatRequest(s.request.value.model, WithContext(messages, r.choices[0].content.value),
            ctx.request.stream))
  }

  function Handle(s: Stream, cfg: Config, ctx: CallContext, input: ResponseInput): Outcome
    requires forall n :: n in cfg.order ==> n in cfg.targets
  {
    match ctx.handler
    case ArchFC => ArchFcResponse(s, cfg, ctx, input)
    case FunctionCall => ApiCallResponse(s, cfg, ctx, input)
    case DefaultTarget => DefaultTargetResponse(s, cfg, ctx, input)
  }

  /** The stream once the answered call is taken out of the table. */
  function TakenOut(s: Stream, token: nat): Stream {
    s.(callouts := s.callouts - {token}, active := s.active - 1)
  }

  /** A status that is no success is passed on; otherwise the handler acts. */
  function Respond(t: Stream, cfg: Config, ctx: CallContext, input: ResponseInput): Outcome
    requires forall n :: n in cfg.order ==> n in cfg.targets
  {
    if input.status.Some? && input.status.value.Unparsable? then Trap
    else if input.status.Some? && !Success(input.status.value.code) then
      if ctx.cluster.None? || ctx.path.None? || input.body.text.None? then Trap
      else SendError(t, input.status.value.code)
    else Handle(t, cfg, ctx, input)
  }

  /** `on_http_call_response` */
  function OnCallResponse(s: Stream, cfg: Config, token: nat, input: ResponseInput): Outcome
    requires forall n :: n in cfg.order ==> n in cfg.targets
  {
    if token !in s.callouts then Trap else Respond(TakenOut(s, token), cfg, s.callouts[token], input)
  }
}
