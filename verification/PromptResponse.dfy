/**
 The upstream response on its way to the client (`on_http_response_body` in
 crates/prompt_gateway/src/http_context.rs): when the request went through a tool call, a streamed
 response is preceded by two server-sent events that tell the client so.
 */
module PromptResponse {
  import opened Wrappers
  import opened Collections
  import opened PromptGateway

  /** A delivered piece of the body; `data` are its bytes. */
  datatype BodyChunk = BodyChunk(data: string, readable: bool, utf8: bool, endOfStream: bool)

  /** `to_server_events`, for a given serializer of events. */
  function ServerEvents(chunks: seq<StreamChunk>, json: StreamChunk -> string): string {
    if chunks == [] then ""
    else "data: " + json(chunks[0]) + "\n\n" + ServerEvents(chunks[1..], json)
  }

  function Preamble(s: Stream, json: StreamChunk -> string): string {
    ServerEvents([StreamChunk(s.archFcResponse, Some(ASSISTANT_ROLE), Some(ARCH_FC_MODEL_NAME)),
                  StreamChunk(s.toolCallResponse, Some(TOOL_ROLE), Some(ARCH_FC_MODEL_NAME))], json)
  }

  /** The callback looks at the chunk at all. */
  predicate Seen(c: BodyChunk) {
    !(c.endOfStream && c.data == "") && c.readable && c.utf8
  }

  /** A streamed chat completion: the new state, and what the client gets for the chunk. */
  function OnResponseBody(s: Stream, c: BodyChunk, json: StreamChunk -> string): (Stream, string) {
    if Seen(c) && HasToolCalls(s.toolCalls)
    then (s.(toolCalls := None), Preamble(s, json) + c.data)
    else (s, c.data)
  }

  /** Everything the client gets. */
  function ClientBody(s: Stream, chunks: seq<BodyChunk>, json: StreamChunk -> string): string
    decreases |chunks|
  {
    if chunks == [] then ""
    else
      var (t, out) := OnResponseBody(s, chunks[0], json);
      out + ClientBody(t, chunks[1..], json)
  }

  function Upstream(chunks: seq<BodyChunk>): string {
    if chunks == [] then "" else chunks[0].data + Upstream(chunks[1..])
  }

  /** The first chunk the callback looks at, or |chunks|. */
  function FirstSeen(chunks: seq<BodyChunk>): (n: nat)
    ensures n <= |chunks|
  {
    if chunks == [] || Seen(chunks[0]) then 0 else 1 + FirstSeen(chunks[1..])
  }

  lemma {:induction false} PassThrough(s: Stream, chunks: seq<BodyChunk>, json: StreamChunk -> string)
    requires !HasToolCalls(s.toolCalls)
    ensures ClientBody(s, chunks, json) == Upstream(chunks)
    decreases |chunks|
  {
    if chunks != [] { PassThrough(s, chunks[1..], json); }
  }

  lemma {:induction false} UpstreamFirst(c: BodyChunk, rest: seq<BodyChunk>)
    ensures Upstream([c] + rest) == c.data + Upstream(rest)
  {
    assert ([c] + rest)[1..] == rest;
  }

  /** The first chunk is not looked at. */
  lemma {:induction false} PreambleLater(preamble: string, chunks: seq<BodyChunk>, n: nat, body: string)
    requires 0 < n <= |chunks|
    requires body == Upstream(chunks[1..][..n - 1]) + (preamble + Upstream(chunks[1..][n - 1..]))
    ensures chunks[0].data + body == Upstream(chunks[..n]) + (preamble + Upstream(chunks[n..]))
  {
    var c, rest := chunks[0], chunks[1..];
    UpstreamFirst(c, rest[..n - 1]);
    assert chunks[..n] == [c] + rest[..n - 1] && chunks[n..] == rest[n - 1..];
    Associates(c.data, Upstream(rest[..n - 1]), preamble + Upstream(chunks[n..]));
  }

  /**
   With tool calls pending, the client gets the upstream bytes unchanged and the preamble exactly
   once, in front of the first chunk that is seen; when none is, it gets the upstream bytes alone.
   */
  lemma {:induction false} PreambleOnce(s: Stream, chunks: seq<BodyChunk>, json: StreamChunk -> string)
    requires HasToolCalls(s.toolCalls)
    ensures var n := FirstSeen(chunks);
            ClientBody(s, chunks, json)
              == if n == |chunks| then Upstream(chunks)
                 else Upstream(chunks[..n]) + (Preamble(s, json) + Upstream(chunks[n..]))
    decreases |chunks|
  {
    if chunks != [] {
      var c, rest := chunks[0], chunks[1..];
      if Seen(c) {
        PassThrough(s.(toolCalls := None), rest, json);
        assert chunks[..0] == [] && chunks[0..] == chunks;
        Associates(Preamble(s, json), c.data, Upstream(rest));
      } else {
        PreambleOnce(s, rest, json);
        if FirstSeen(rest) < |rest| {
          PreambleLater(Preamble(s, json), chunks, FirstSeen(chunks), ClientBody(s, rest, json));
        }
      }
    }
  }

  /** For readable UTF-8 chunks the client body does not depend on how the response is cut. */
  lemma {:induction false} PreambleThenUpstream(s: Stream, chunks: seq<BodyChunk>, json: StreamChunk -> string)
    requires HasToolCalls(s.toolCalls) && chunks != [] && forall c :: c in chunks ==> Seen(c)
    ensures ClientBody(s, chunks, json) == Preamble(s, json) + Upstream(chunks)
  {
    assert chunks[0] in chunks;
    PreambleOnce(s, chunks, json);
    assert chunks[..0] == [] && chunks[0..] == chunks;
    assert "" + (Preamble(s, json) + Upstream(chunks)) == Preamble(s, json) + Upstream(chunks);
  }

  /** One server-sent event. */
  function EventText(json: StreamChunk -> string, chunk: StreamChunk): string {
    "data: " + json(chunk) + "\n\n"
  }

  /**
   Written out: the model's remark comes from the assistant, the developer's answer from the tool, and
   then the upstream bytes.
   */
  lemma {:induction false} ClientReads(s: Stream, chunks: seq<BodyChunk>, json: StreamChunk -> string)
    requires s.toolCalls.Some? && s.toolCalls.value != [] && chunks != []
    requires forall c :: c in chunks ==> c.readable && c.utf8 && (c.endOfStream ==> c.data != "")
    ensures ClientBody(s, chunks, json)
         == EventText(json, StreamChunk(s.archFcResponse, Some("assistant"), Some("Arch-Function")))
          + EventText(json, StreamChunk(s.toolCallResponse, Some("tool"), Some("Arch-Function")))
          + Upstream(chunks)
  {
    PreambleThenUpstream(s, chunks, json);
    var a := StreamChunk(s.archFcResponse, Some("assistant"), Some("Arch-Function"));
    var b := StreamChunk(s.toolCallResponse, Some("tool"), Some("Arch-Function"));
    assert [a, b][1..] == [b] && [b][1..] == [];
    assert ServerEvents([b], json) == EventText(json, b) + "" == EventText(json, b);
  }
}
