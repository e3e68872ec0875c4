/**
 The stream context as the gateway keeps it: an object whose callbacks update its fields, its call
 table and the gauge it shares with the other requests. Each callback is proved to do what the step
 functions of PromptGateway say. A callback that returns `trapped` has panicked.
 */
module PromptContext {
  import opened Wrappers
  import PG = PromptGateway
  import T = Tools
  import PR = PromptResponse

  /** The `active_http_calls` metric. */
  class Gauge {
    var value: int

    constructor ()
      ensures value == 0
    {
      value := 0;
    }

    method Increment(offset: int)
      modifies this
      ensures value == old(value) + offset
    {
      value := value + offset;
    }
  }

  class StreamContext {
    const cfg: PG.Config
    const metrics: Gauge
    var callouts: map<nat, PG.CallContext>
    var toolCalls: Option<seq<PG.ToolCall>>
    var archFcResponse: Option<string>
    var toolCallResponse: Option<string>
    var streamingResponse: bool
    var chatCompletionsRequest: Option<PG.ChatRequest>
    /** The host calls made so far. */
    var host: seq<PG.Action>
    /** What this request has added to the gauge. */
    ghost var added: int

    ghost function View(): PG.Stream
      reads this
    {
      PG.Stream(callouts, added, toolCalls, archFcResponse, toolCallResponse, streamingResponse,
          chatCompletionsRequest, host)
    }

    ghost predicate Configured() {
      PG.ValidConfig(cfg)
    }

    constructor (cfg: PG.Config, metrics: Gauge)
      requires PG.ValidConfig(cfg)
      ensures View() == PG.NewStream() && Configured() && this.cfg == cfg && this.metrics == metrics
    {
      this.cfg, this.metrics := cfg, metrics;
      callouts, toolCalls, archFcResponse, toolCallResponse := map[], None, None, None;
      streamingResponse, chatCompletionsRequest, host, added := false, None, [], 0;
    }

    method Ask(action: PG.Action)
      modifies this`host
      ensures View() == PG.Do(old(View()), action)
    {
      host := host + [action];
    }

    method SendServerError(status: nat)
      modifies this`host
      ensures PG.Next(View()) == PG.SendError(old(View()), status)
    {
      Ask(PG.Send(status, PG.ErrorText));
    }

    method ResumeWith(request: PG.ChatRequest)
      modifies this`host
      ensures PG.Next(View()) == PG.ResumeWith(old(View()), request)
    {
      Ask(PG.SetBody(request));
      Ask(PG.Resume);
    }

    /** `http_call` and `add_call_context`. */
    method HttpCall(call: PG.Call, ctx: PG.CallContext, dispatch: Option<nat>) returns (ok: bool)
      modifies this, metrics
      ensures View() == PG.HttpCall(old(View()), call, ctx, dispatch) && ok == dispatch.Some?
      ensures metrics.value - added == old(metrics.value - added)
    {
      ok := dispatch.Some?;
      if ok {
        callouts := callouts[dispatch.value := ctx];
        metrics.Increment(1);
        added := added + 1;
        Ask(PG.Dispatch(dispatch.value, call));
      }
    }

    method CallOrRefuse(call: PG.Call, ctx: PG.CallContext, dispatch: Option<nat>, status: nat)
      modifies this, metrics
      ensures PG.Next(View()) == PG.CallOrRefuse(old(View()), call, ctx, dispatch, status)
      ensures metrics.value - added == old(metrics.value - added)
    {
      var ok := HttpCall(call, ctx, dispatch);
      if !ok {
        SendServerError(status);
      }
    }

    method OnHttpRequestBody(endOfStream: bool, input: PG.RequestInput) returns (trapped: bool, verdict: PG.Verdict)
      modifies this, metrics
      ensures PG.OnRequestBody(old(View()), endOfStream, input)
          == (if trapped then PG.Trap else PG.Next(View()), verdict)
      ensures metrics.value - added == old(metrics.value - added)
    {
      trapped, verdict := false, PG.Pause;
      if !endOfStream {
        return;
      }
      if input.size == 0 {
        verdict := PG.Continue;
        return;
      }
      if !input.readable {
        SendServerError(500);
        return;
      }
      if input.parsed.None? {
        SendServerError(400);
        return;
      }
      if !input.archStateOk {
        trapped := true;
        return;
      }
      var request := input.parsed.value;
      streamingResponse := request.stream;
      var prompt := PG.LastUserPrompt(request.messages);
      if prompt.None? {
        verdict := PG.Continue;
        return;
      }
      chatCompletionsRequest := Some(request);
      if !input.serializable || prompt.value.content.None? {
        SendServerError(500);
        return;
      }
      CallOrRefuse(PG.Call(PG.MODEL_SERVER_NAME, "/function_calling", T.POST, PG.Conversation(request.messages)),
          PG.CallContext(PG.ArchFC, None, request, Some("arch_internal"), Some("/function_calling")),
          input.dispatch, 500);
    }

    method OnHttpCallResponse(token: nat, input: PG.ResponseInput) returns (trapped: bool)
      requires Configured()
      modifies this, metrics
      ensures PG.OnCallResponse(old(View()), cfg, token, input) == if trapped then PG.Trap else PG.Next(View())
      ensures metrics.value - added == old(metrics.value - added)
    {
      if token !in callouts {
        return true;
      }
      var ctx := TakeOut(token);
      trapped := Respond(ctx, input);
    }

    /** The call leaves the table and the gauge. */
    method TakeOut(token: nat) returns (ctx: PG.CallContext)
      requires token in callouts
      modifies this, metrics
      ensures View() == PG.TakenOut(old(View()), token) && ctx == old(callouts[token])
      ensures metrics.value - added == old(metrics.value - added)
    {
      ctx := callouts[token];
      callouts := callouts - {token};
      metrics.Increment(-1);
      added := added - 1;
    }

    method Respond(ctx: PG.CallContext, input: PG.ResponseInput) returns (trapped: bool)
      requires Configured()
      modifies this, metrics
      ensures PG.Respond(old(View()), cfg, ctx, input) == if trapped then PG.Trap else PG.Next(View())
      ensures metrics.value - added == old(metrics.value - added)
    {
      if input.status.Some? {
        if input.status.value.Unparsable? {
          return true;
        }
        if !PG.Success(input.status.value.code) {
          if ctx.cluster.None? || ctx.path.None? || input.body.text.None? {
            return true;
          }
          SendServerError(input.status.value.code);
          return false;
        }
      }
      trapped := HandleResponse(ctx, input);
    }

    /** The dispatch on the handler type. */
    method HandleResponse(ctx: PG.CallContext, input: PG.ResponseInput) returns (trapped: bool)
      requires Configured()
      modifies this, metrics
      ensures PG.Handle(old(View()), cfg, ctx, input) == if trapped then PG.Trap else PG.Next(View())
      ensures metrics.value - added == old(metrics.value - added)
    {
      match ctx.handler
      case ArchFC => trapped := ArchFcResponseHandler(ctx, input);
      case FunctionCall => trapped := ApiCallResponseHandler(ctx, input);
      case DefaultTarget => trapped := DefaultTargetHandler(ctx, input);
    }

    method ArchFcResponseHandler(ctx: PG.CallContext, input: PG.ResponseInput) returns (trapped: bool)
      requires Configured()
      modifies this, metrics
      ensures PG.ArchFcResponse(old(View()), cfg, ctx, input) == if trapped then PG.Trap else PG.Next(View())
      ensures metrics.value - added == old(metrics.value - added)
    {
      if input.body.text.None? {
        return true;
      }
      if input.body.parsed.None? {
        SendServerError(500);
        return false;
      }
      var response := input.body.parsed.value;
      archFcResponse := PG.ModelResponse(response);
      if !PG.IntentMatched(response) {
        trapped := ForwardWithoutIntent(ctx, input);
        return;
      }
      toolCalls := response.choices[0].toolCalls;
      if !PG.HasToolCalls(toolCalls) {
        trapped := AskUser(response, input.body.text.value);
        return;
      }
      var named := ctx.(targetName := Some(toolCalls.value[0].name));
      if cfg.useAgentOrchestrator {
        ResumeWith(PG.ChatRequest(ctx.request.model, PG.ConstructLlmMessages(cfg, named), ctx.request.stream));
        return false;
      }
      trapped := ScheduleApiCallRequest(named, input);
    }

    /** The branch of `arch_fc_response_handler` without a matched intent. */
    method ForwardWithoutIntent(ctx: PG.CallContext, input: PG.ResponseInput) returns (trapped: bool)
      requires Configured()
      modifies this, metrics
      ensures PG.NoIntent(old(View()), cfg, ctx, input) == if trapped then PG.Trap else PG.Next(View())
      ensures metrics.value - added == old(metrics.value - added)
    {
      var target := PG.FindDefault(cfg, cfg.order);
      if target.Some? {
        if target.value.endpoint.None? {
          return true;
        }
        var endpoint := target.value.endpoint.value;
        CallOrRefuse(PG.Call(endpoint.name, GetOr(endpoint.path, "/"), T.POST, PG.Conversation(ctx.request.messages)),
            ctx.(handler := PG.DefaultTarget, targetName := Some(target.value.name)), input.dispatch, 400);
        return false;
      }
      if chatCompletionsRequest.None? {
        return true;
      }
      var messages := PG.SystemMessages(cfg.systemPrompt) + PG.FilterOutArchMessages(ctx.request.messages);
      ResumeWith(PG.ChatRequest(chatCompletionsRequest.value.model, messages, ctx.request.stream));
      return false;
    }

    /** The branch of `arch_fc_response_handler` without a tool call. */
    method AskUser(response: PG.ChatResponse, text: string) returns (trapped: bool)
      requires response.choices != []
      modifies this
      ensures PG.AskUser(old(View()), response, text) == if trapped then PG.Trap else PG.Next(View())
      ensures added == old(added)
    {
      var reply := PG.Passthrough(text);
      if streamingResponse {
        var content := response.choices[0].content;
        if content.None? {
          return true;
        }
        reply := PG.Events([PG.StreamChunk(archFcResponse, Some(PG.ASSISTANT_ROLE), Some(PG.ARCH_FC_MODEL_NAME)),
                            PG.StreamChunk(content, None, Some(PG.ARCH_FC_MODEL_NAME + "-Chat"))]);
      }
      toolCalls := None;
      Ask(PG.Send(200, reply));
      return false;
    }

    method ScheduleApiCallRequest(ctx: PG.CallContext, input: PG.ResponseInput) returns (trapped: bool)
      modifies this, metrics
      ensures PG.ScheduleApiCall(old(View()), cfg, ctx, input) == if trapped then PG.Trap else PG.Next(View())
      ensures metrics.value - added == old(metrics.value - added)
    {
      if !PG.HasToolCalls(toolCalls) {
        return true;
      }
      var name := toolCalls.value[0].name;
      if name !in cfg.targets || cfg.targets[name].endpoint.None? {
        return true;
      }
      var target := cfg.targets[name];
      var endpoint := target.endpoint.value;
      var computed := T.ComputeRequestPathBody(cfg.library, GetOr(endpoint.path, "/"), input.arguments.values,
          input.arguments.order, GetOr(target.parameters, []), GetOr(endpoint.verb, T.GET));
      if computed.Panic? {
        return true;
      }
      if computed.Failed? {
        SendServerError(400);
        return false;
      }
      var verb := GetOr(endpoint.verb, T.GET);
      CallOrRefuse(PG.Call(endpoint.name, computed.request.path, verb, PG.Fields(computed.request.body)),
          PG.DeveloperContext(ctx, endpoint, computed.request), input.dispatch, 400);
      return false;
    }

    method ApiCallResponseHandler(ctx: PG.CallContext, input: PG.ResponseInput) returns (trapped: bool)
      modifies this
      ensures PG.ApiCallResponse(old(View()), cfg, ctx, input) == if trapped then PG.Trap else PG.Next(View())
      ensures added == old(added)
    {
      if ctx.targetName.None? || ctx.targetName.value !in cfg.targets || input.body.text.None? {
        return true;
      }
      if input.status.Some? && input.status.value != PG.Code(200) {
        if ctx.cluster.None? || ctx.path.None? || input.status.value.Unparsable? {
          return true;
        }
        SendServerError(input.status.value.code);
        return false;
      }
      toolCallResponse := input.body.text;
      trapped := SendApiAnswer(ctx, input, input.body.text.value);
    }

    method SendApiAnswer(ctx: PG.CallContext, input: PG.ResponseInput, text: string) returns (trapped: bool)
      requires ctx.targetName.Some? && ctx.targetName.value in cfg.targets
      modifies this`host
      ensures PG.ApiCallAnswer(old(View()), cfg, ctx, input, text) == if trapped then PG.Trap else PG.Next(View())
    {
      trapped := false;
      var messages := PG.ConstructLlmMessages(cfg, ctx);
      if messages == [] {
        SendServerError(500);
      } else if cfg.targets[ctx.targetName.value].autoLlmDispatch == Some(false) {
        Ask(PG.Send(200, PG.ApiReply(streamingResponse, text)));
      } else if messages[|messages| - 1].content.None? {
        trapped := true;
      } else if !input.serializable {
        SendServerError(500);
      } else {
        ResumeWith(PG.ChatRequest(ctx.request.model, PG.WithContext(messages, text), ctx.request.stream));
      }
    }

    method DefaultTargetHandler(ctx: PG.CallContext, input: PG.ResponseInput) returns (trapped: bool)
      modifies this`host
      ensures PG.DefaultTargetResponse(old(View()), cfg, ctx, input) == if trapped then PG.Trap else PG.Next(View())
    {
      if ctx.targetName.None? || ctx.targetName.value !in cfg.targets {
        return true;
      }
      var target := cfg.targets[ctx.targetName.value];
      if target.autoLlmDispatch == Some(false) {
        trapped := ReplyFromDefaultTarget(input);
        return;
      }
      if input.body.text.None? {
        return true;
      }
      if input.body.parsed.None? {
        SendServerError(500);
        return false;
      }
      var response := input.body.parsed.value;
      var messages := PG.SystemMessages(target.systemPrompt) + ctx.request.messages;
      if response.choices == [] || response.choices[0].content.None?
         || messages == [] || messages[|messages| - 1].content.None? || chatCompletionsRequest.None? {
        return true;
      }
      ResumeWith(PG.ChatRequest(chatCompletionsRequest.value.model,
                                PG.WithContext(messages, response.choices[0].content.value), ctx.request.stream));
      return false;
    }

    /** The branch of `default_target_handler` that answers the client directly. */
    method ReplyFromDefaultTarget(input: PG.ResponseInput) returns (trapped: bool)
      modifies this`host
      ensures PG.DefaultTargetReply(old(View()), input) == if trapped then PG.Trap else PG.Next(View())
    {
      if input.body.text.None? {
        return true;
      }
      if !streamingResponse {
        Ask(PG.Send(200, PG.Passthrough(input.body.text.value)));
        return false;
      }
      if input.body.parsed.None? {
        SendServerError(500);
        return false;
      }
      var response := input.body.parsed.value;
      if response.choices == [] || response.choices[0].content.None? {
        return true;
      }
      Ask(PG.Send(200, PG.Events([PG.StreamChunk(None, Some(PG.ASSISTANT_ROLE), Some(response.model)),
                                  PG.StreamChunk(response.choices[0].content, None, Some(response.model))])));
      return false;
    }

    /** The streaming branch of `on_http_response_body` for a chat completion; `body` is what the client gets. */
    method OnStreamedResponseBody(chunk: PR.BodyChunk, json: PG.StreamChunk -> string) returns (body: string)
      modifies this`toolCalls
      ensures (View(), body) == PR.OnResponseBody(old(View()), chunk, json)
    {
      body := chunk.data;
      if chunk.endOfStream && chunk.data == "" {
        return;
      }
      if !chunk.readable || !chunk.utf8 {
        return;
      }
      if PG.HasToolCalls(toolCalls) {
        var chunks := [PG.StreamChunk(archFcResponse, Some(PG.ASSISTANT_ROLE), Some(PG.ARCH_FC_MODEL_NAME)),
                       PG.StreamChunk(toolCallResponse, Some(PG.TOOL_ROLE), Some(PG.ARCH_FC_MODEL_NAME))];
        body := PR.ServerEvents(chunks, json) + chunk.data;
        toolCalls := None;
      }
    }
  }
}
