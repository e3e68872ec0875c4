/**
 The gauge that all requests share (crates/common/src/http.rs): whatever the interleaving of their
 callbacks, it is the number of calls that are out.
 */
module PromptGauge {
  import opened Wrappers
  import opened PromptGateway
  import opened PromptProtocol

  /** A request, and whether the end of its body was seen. */
  datatype Request = Request(stream: Stream, ended: bool)

  datatype World = World(requests: seq<Request>, gauge: int)

  datatype Callback =
    | Open
    | Body(i: nat, endOfStream: bool, input: RequestInput)
    | Answer(i: nat, token: nat, response: ResponseInput)

  /** A callback of request `i` leaves its stream in `t` and moves the gauge by what it adds to its own count. */
  function Left(w: World, i: nat, t: Stream, ended: bool): World
    requires i < |w.requests|
  {
    World(w.requests[i := Request(t, ended)], w.gauge + t.active - w.requests[i].stream.active)
  }

  /** One callback; None when it does not apply or panics. */
  function Step(cfg: Config, w: World, c: Callback): Option<World>
    requires forall n :: n in cfg.order ==> n in cfg.targets
  {
    match c
    case Open => Some(World(w.requests + [Request(NewStream(), false)], w.gauge))
    case Body(i, endOfStream, input) =>
      if i >= |w.requests| || w.requests[i].ended then None
      else
        var o := OnRequestBody(w.requests[i].stream, endOfStream, input).0;
        if o.Trap? then None else Some(Left(w, i, o.s, endOfStream))
    case Answer(i, token, input) =>
      if i >= |w.requests| then None
      else
        var o := OnCallResponse(w.requests[i].stream, cfg, token, input);
        if o.Trap? then None else Some(Left(w, i, o.s, w.requests[i].ended))
  }

  function Run(cfg: Config, w: World, cs: seq<Callback>): Option<World>
    requires forall n :: n in cfg.order ==> n in cfg.targets
    decreases |cs|
  {
    if cs == [] then Some(w)
    else
      var next := Step(cfg, w, cs[0]);
      if next.None? then None else Run(cfg, next.value, cs[1..])
  }

  function TotalCalls(requests: seq<Request>): nat {
    if requests == [] then 0 else |requests[0].stream.callouts| + TotalCalls(requests[1..])
  }

  function TotalActive(requests: seq<Request>): int {
    if requests == [] then 0 else requests[0].stream.active + TotalActive(requests[1..])
  }

  /** A request has not ended its body, was passed on untouched, or is in the protocol. */
  ghost predicate RequestOk(cfg: Config, r: Request) {
    if !r.ended then r.stream == NewStream()
    else Inv(cfg, r.stream) || (r.stream.callouts == map[] && r.stream.active == 0)
  }

  ghost predicate WorldOk(cfg: Config, w: World) {
    && (forall i :: 0 <= i < |w.requests| ==> RequestOk(cfg, w.requests[i]))
    && w.gauge == TotalActive(w.requests)
  }

  lemma {:induction false} ActiveMoves(requests: seq<Request>, i: nat, r: Request)
    requires i < |requests|
    ensures TotalActive(requests[i := r]) == TotalActive(requests) + r.stream.active - requests[i].stream.active
  {
    if i == 0 {
      assert requests[i := r][1..] == requests[1..];
    } else {
      assert requests[i := r][1..] == requests[1..][i - 1 := r];
      ActiveMoves(requests[1..], i - 1, r);
    }
  }

  lemma {:induction false} ActiveMore(requests: seq<Request>, r: Request)
    ensures TotalActive(requests + [r]) == TotalActive(requests) + r.stream.active
  {
    if requests == [] {
      assert requests + [r] == [r];
    } else {
      assert (requests + [r])[1..] == requests[1..] + [r];
      ActiveMore(requests[1..], r);
    }
  }

  lemma {:induction false} BodyKeeps(cfg: Config, r: Request, endOfStream: bool, input: RequestInput)
    requires RequestOk(cfg, r) && !r.ended && OnRequestBody(r.stream, endOfStream, input).0.Next?
    ensures RequestOk(cfg, Request(OnRequestBody(r.stream, endOfStream, input).0.s, endOfStream))
  {
    RequestBodyStarts(cfg, input);
  }

  lemma {:induction false} AnswerKeeps(cfg: Config, r: Request, token: nat, input: ResponseInput)
    requires ValidConfig(cfg) && RequestOk(cfg, r) && OnCallResponse(r.stream, cfg, token, input).Next?
    ensures RequestOk(cfg, Request(OnCallResponse(r.stream, cfg, token, input).s, r.ended))
  {
    assert token in r.stream.callouts;
    var o := ResponseStep(cfg, r.stream, token, input);
  }

  lemma {:induction false} LeftKeeps(cfg: Config, w: World, i: nat, t: Stream, ended: bool)
    requires WorldOk(cfg, w) && i < |w.requests| && RequestOk(cfg, Request(t, ended))
    ensures WorldOk(cfg, Left(w, i, t, ended))
  {
    ActiveMoves(w.requests, i, Request(t, ended));
  }

  lemma {:induction false} StepKeeps(cfg: Config, w: World, c: Callback)
    requires ValidConfig(cfg) && WorldOk(cfg, w) && Step(cfg, w, c).Some?
    ensures WorldOk(cfg, Step(cfg, w, c).value)
  {
    match c
    case Open => ActiveMore(w.requests, Request(NewStream(), false));
    case Body(i, endOfStream, input) =>
      BodyKeeps(cfg, w.requests[i], endOfStream, input);
      LeftKeeps(cfg, w, i, OnRequestBody(w.requests[i].stream, endOfStream, input).0.s, endOfStream);
    case Answer(i, token, input) =>
      AnswerKeeps(cfg, w.requests[i], token, input);
      LeftKeeps(cfg, w, i, OnCallResponse(w.requests[i].stream, cfg, token, input).s, w.requests[i].ended);
  }

  lemma {:induction false} RunKeepsWorld(cfg: Config, w: World, cs: seq<Callback>)
    requires ValidConfig(cfg) && WorldOk(cfg, w) && Run(cfg, w, cs).Some?
    ensures WorldOk(cfg, Run(cfg, w, cs).value)
    decreases |cs|
  {
    if cs != [] {
      StepKeeps(cfg, w, cs[0]);
      RunKeepsWorld(cfg, Step(cfg, w, cs[0]).value, cs[1..]);
    }
  }

  lemma {:induction false} OwnCalls(cfg: Config, r: Request)
    requires RequestOk(cfg, r)
    ensures r.stream.active == |r.stream.callouts| <= 1
  {
    if r.ended && Inv(cfg, r.stream) && Waiting(cfg, r.stream) {
      var id :| r.stream.callouts.Keys == {id};
      assert |r.stream.callouts| == |r.stream.callouts.Keys| == 1;
    }
  }

  lemma {:induction false} ActiveIsCalls(cfg: Config, requests: seq<Request>)
    requires forall i :: 0 <= i < |requests| ==> RequestOk(cfg, requests[i])
    ensures TotalActive(requests) == TotalCalls(requests)
  {
    if requests != [] {
      OwnCalls(cfg, requests[0]);
      ActiveIsCalls(cfg, requests[1..]);
    }
  }

  /** After any interleaving of callbacks that did not panic, the gauge is the number of calls in all tables. */
  lemma {:induction false} GaugeCountsCalls(cfg: Config, cs: seq<Callback>)
    requires ValidConfig(cfg) && Run(cfg, World([], 0), cs).Some?
    ensures var w := Run(cfg, World([], 0), cs).value; w.gauge == TotalCalls(w.requests) <= |w.requests|
  {
    RunKeepsWorld(cfg, World([], 0), cs);
    var w := Run(cfg, World([], 0), cs).value;
    ActiveIsCalls(cfg, w.requests);
    AtMostOneEach(cfg, w.requests);
  }

  lemma {:induction false} AtMostOneEach(cfg: Config, requests: seq<Request>)
    requires forall i :: 0 <= i < |requests| ==> RequestOk(cfg, requests[i])
    ensures TotalCalls(requests) <= |requests|
  {
    if requests != [] {
      OwnCalls(cfg, requests[0]);
      AtMostOneEach(cfg, requests[1..]);
    }
  }
}
