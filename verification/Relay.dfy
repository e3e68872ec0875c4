/**
 The task that relays an upstream response to the client over a bounded channel
 (crates/brightstaff/src/streaming.rs), as a machine whose steps are those of the task, of the
 output filters it awaits, and of the client that reads the channel.
 */
module Relay {
  import opened Wrappers
  import opened Strings
  import opened Usage
  import opened StreamProcessor

  const STREAM_BUFFER_SIZE: nat := 16

  datatype FilterResult = Passed(data: Bytes) | ClientError | FilterError

  /** A chunk the processor was offered, with what the output filters made of it, if there are any. */
  datatype Offered = Offered(chunk: Bytes, result: Option<FilterResult>)

  /** A filter that fails leaves the chunk as it came. */
  function Image(o: Offered): Bytes {
    if o.result.Some? && o.result.value.Passed? then o.result.value.data else o.chunk
  }

  datatype Call = OnFirstBytes(now: int) | OnChunk(data: Bytes) | OnError | OnComplete

  /** Where the task stands: pulling from upstream, awaiting the filters or room in the channel, or done. */
  datatype Phase = Pulling | Filtering(chunk: Bytes) | Sending(data: Bytes) | Finished

  /** The last three fields record what happened so far. */
  datatype State<P> = State(
    p: P, isFirst: bool, phase: Phase,
    channel: seq<Bytes>, received: seq<Bytes>, open: bool,
    arrived: seq<(Bytes, int)>, offered: seq<Offered>, calls: seq<Call>)

  function Init<P>(p: P): State<P> {
    State(p, true, Pulling, [], [], true, [], [], [])
  }

  datatype Event =
    | Next(chunk: Bytes, now: int)
    | NextFails
    | NextEnds
    | Filtered(result: FilterResult)
    | Sent
    | SendFails
    | Receive
    | Drop

  function Apply<P>(proc: Processor<P>, p: P, call: Call): P {
    match call
    case OnFirstBytes(now) => proc.first(p, now)
    case OnChunk(data) => proc.process(p, data).0
    case OnError => proc.error(p)
    case OnComplete => proc.complete(p)
  }

  function Called<P>(proc: Processor<P>, s: State<P>, call: Call): State<P> {
    s.(p := Apply(proc, s.p, call), calls := s.calls + [call])
  }

  function Finish<P>(proc: Processor<P>, s: State<P>): State<P> {
    Called(proc, s, OnComplete).(phase := Finished)
  }

  function Offer<P>(proc: Processor<P>, s: State<P>, o: Offered): State<P> {
    var t := Called(proc, s, OnChunk(Image(o))).(offered := s.offered + [o]);
    match proc.process(s.p, Image(o)).1
    case Emit(data) => t.(phase := Sending(data))
    case Skip => t.(phase := Pulling)
    case Fail => Finish(proc, Called(proc, t, OnError))
  }

  function Arrive<P>(proc: Processor<P>, s: State<P>, chunk: Bytes, now: int): State<P> {
    var t := if s.isFirst then Called(proc, s, OnFirstBytes(now)) else s;
    t.(isFirst := false, arrived := s.arrived + [(chunk, now)])
  }

  /** One step; None when the event is not enabled. `filtering` tells whether there is an output filter chain. */
  function Step<P>(proc: Processor<P>, filtering: bool, s: State<P>, event: Event): Option<State<P>> {
    match event
    case Next(chunk, now) =>
      if !s.phase.Pulling? then None
      else if filtering then Some(Arrive(proc, s, chunk, now).(phase := Filtering(chunk)))
      else Some(Offer(proc, Arrive(proc, s, chunk, now), Offered(chunk, None)))
    case NextFails => if s.phase.Pulling? then Some(Finish(proc, Called(proc, s, OnError))) else None
    case NextEnds => if s.phase.Pulling? then Some(Finish(proc, s)) else None
    case Filtered(result) =>
      if s.phase.Filtering? then Some(Offer(proc, s, Offered(s.phase.chunk, Some(result)))) else None
    case Sent =>
      if s.phase.Sending? && s.open && |s.channel| < STREAM_BUFFER_SIZE
      then Some(s.(channel := s.channel + [s.phase.data], phase := Pulling)) else None
    case SendFails => if s.phase.Sending? && !s.open then Some(Finish(proc, s)) else None
    case Receive =>
      if s.open && s.channel != [] then Some(s.(received := s.received + [s.channel[0]], channel := s.channel[1..]))
          else None
    case Drop => if s.open then Some(s.(open := false, channel := [])) else None
  }

  function Run<P>(proc: Processor<P>, filtering: bool, s: State<P>, events: seq<Event>): Option<State<P>>
    decreases |events|
  {
    if events == [] then Some(s)
    else
      var t := Step(proc, filtering, s, events[0]);
      if t.None? then None else Run(proc, filtering, t.value, events[1..])
  }

  // ----- what the recorded calls stand for -----

  function Replay<P>(proc: Processor<P>, p: P, calls: seq<Call>): P {
    if calls == [] then p else Apply(proc, Replay(proc, p, calls[..|calls| - 1]), calls[|calls| - 1])
  }

  function Output<P>(proc: Processor<P>, p: P, call: Call): seq<Bytes> {
    if call.OnChunk? && proc.process(p, call.data).1.Emit? then [proc.process(p, call.data).1.data] else []
  }

  /** The chunks that the processor passed on. */
  function Emitted<P>(proc: Processor<P>, p: P, calls: seq<Call>): seq<Bytes> {
    if calls == [] then []
    else
      var before := calls[..|calls| - 1];
      Emitted(proc, p, before) + Output(proc, Replay(proc, p, before), calls[|calls| - 1])
  }

  function InHand(phase: Phase): seq<Bytes> {
    if phase.Sending? then [phase.data] else []
  }

  function Opening(arrived: seq<(Bytes, int)>): seq<Call> {
    if arrived == [] then [] else [OnFirstBytes(arrived[0].1)]
  }

  function Offerings(offered: seq<Offered>): (calls: seq<Call>)
    ensures |calls| == |offered|
    ensures forall i :: 0 <= i < |calls| ==> calls[i] == OnChunk(Image(offered[i]))
  {
    if offered == [] then [] else Offerings(offered[..|offered| - 1]) + [OnChunk(Image(offered[|offered| - 1]))]
  }

  function ArrivedChunks(arrived: seq<(Bytes, int)>): (chunks: seq<Bytes>)
    ensures |chunks| == |arrived|
    ensures forall i :: 0 <= i < |chunks| ==> chunks[i] == arrived[i].0
  {
    seq(|arrived|, i requires 0 <= i < |arrived| => arrived[i].0)
  }

  function OfferedChunks(offered: seq<Offered>): (chunks: seq<Bytes>)
    ensures |chunks| == |offered|
    ensures forall i :: 0 <= i < |chunks| ==> chunks[i] == offered[i].chunk
  {
    seq(|offered|, i requires 0 <= i < |offered| => offered[i].chunk)
  }

  // ----- the invariant -----

  /** What the client has, the channel holds and the task holds is what the processor passed on, in order. */
  ghost predicate Delivered(open: bool, received: seq<Bytes>, channel: seq<Bytes>, hand: seq<Bytes>,
      emitted: seq<Bytes>) {
    if open then received + channel + hand == emitted else channel == [] && received <= emitted
  }

  /** The calls are: first bytes once, then one per chunk offered, then the end of the run, exactly once. */
  ghost predicate Orderly(arrived: seq<(Bytes, int)>, offered: seq<Offered>, phase: Phase, calls: seq<Call>) {
    var body := Opening(arrived) + Offerings(offered);
    if phase.Finished? then calls == body + [OnComplete] || calls == body + [OnError] + [OnComplete] else calls == body
  }

  /** Every chunk that arrived was offered, in order, but for the one at the filters. */
  ghost predicate AllOffered(filtering: bool, arrived: seq<(Bytes, int)>, offered: seq<Offered>, phase: Phase) {
    && ArrivedChunks(arrived) == OfferedChunks(offered) + (if phase.Filtering? then [phase.chunk] else [])
    && (forall o :: o in offered ==> o.result.Some? == filtering)
    && (phase.Filtering? ==> filtering)
  }

  ghost predicate Invariant<P>(proc: Processor<P>, filtering: bool, p: P, s: State<P>) {
    && |s.channel| <= STREAM_BUFFER_SIZE
    && s.p == Replay(proc, p, s.calls)
    && Delivered(s.open, s.received, s.channel, InHand(s.phase), Emitted(proc, p, s.calls))
    && s.isFirst == (s.arrived == [])
    && AllOffered(filtering, s.arrived, s.offered, s.phase)
    && Orderly(s.arrived, s.offered, s.phase, s.calls)
  }

  lemma {:induction false} ReplayLast<P>(proc: Processor<P>, p: P, calls: seq<Call>, call: Call)
    ensures Replay(proc, p, calls + [call]) == Apply(proc, Replay(proc, p, calls), call)
    ensures Emitted(proc, p, calls + [call]) == Emitted(proc, p, calls) + Output(proc, Replay(proc, p, calls), call)
  {
    assert (calls + [call])[..|calls|] == calls;
  }

  /** The processor part of the invariant, for any sequence of calls that was made. */
  ghost predicate Tracks<P>(proc: Processor<P>, p: P, s: State<P>, emitted: seq<Bytes>) {
    s.p == Replay(proc, p, s.calls) && Emitted(proc, p, s.calls) == emitted
  }

  lemma {:induction false} CalledTracks<P>(proc: Processor<P>, p: P, s: State<P>, emitted: seq<Bytes>, call: Call)
    requires Tracks(proc, p, s, emitted)
    ensures Tracks(proc, p, Called(proc, s, call), emitted + Output(proc, s.p, call))
  {
    ReplayLast(proc, p, s.calls, call);
  }

  lemma {:induction false} QuietTracks<P>(proc: Processor<P>, p: P, s: State<P>, emitted: seq<Bytes>, call: Call)
    requires Tracks(proc, p, s, emitted) && !call.OnChunk?
    ensures Tracks(proc, p, Called(proc, s, call), emitted)
  {
    CalledTracks(proc, p, s, emitted, call);
    assert emitted + [] == emitted;
  }

  lemma {:induction false} ArriveTracks<P>(proc: Processor<P>, p: P, s: State<P>, emitted: seq<Bytes>, chunk: Bytes,
      now: int)
    requires Tracks(proc, p, s, emitted)
    ensures Tracks(proc, p, Arrive(proc, s, chunk, now), emitted)
  {
    if s.isFirst { QuietTracks(proc, p, s, emitted, OnFirstBytes(now)); }
  }

  lemma {:induction false} OfferTracks<P>(proc: Processor<P>, p: P, s: State<P>, emitted: seq<Bytes>, o: Offered)
    requires Tracks(proc, p, s, emitted)
    ensures var t := Offer(proc, s, o); Tracks(proc, p, t, emitted + InHand(t.phase))
  {
    var call := OnChunk(Image(o));
    CalledTracks(proc, p, s, emitted, call);
    if proc.process(s.p, Image(o)).1.Fail? {
      assert emitted + [] == emitted;
      FailTracks(proc, p, Called(proc, s, call).(offered := s.offered + [o]), emitted);
    }
  }

  lemma {:induction false} FailTracks<P>(proc: Processor<P>, p: P, s: State<P>, emitted: seq<Bytes>)
    requires Tracks(proc, p, s, emitted)
    ensures Tracks(proc, p, Finish(proc, Called(proc, s, OnError)), emitted)
  {
    QuietTracks(proc, p, s, emitted, OnError);
    QuietTracks(proc, p, Called(proc, s, OnError), emitted, OnComplete);
  }

  lemma {:induction false} FinishOrderly<P>(proc: Processor<P>, s: State<P>, failed: bool)
    requires !s.phase.Finished? && Orderly(s.arrived, s.offered, s.phase, s.calls)
    ensures var t := Finish(proc, if failed then Called(proc, s, OnError) else s);
            Orderly(s.arrived, s.offered, t.phase, t.calls)
  {
  }

  lemma {:induction false} OfferingsMore(arrived: seq<(Bytes, int)>, offered: seq<Offered>, o: Offered)
    ensures Opening(arrived) + Offerings(offered + [o]) == Opening(arrived) + Offerings(offered) + [OnChunk(Image(o))]
  {
    assert (offered + [o])[..|offered|] == offered;
  }

  lemma {:induction false} OrderlyMore(arrived: seq<(Bytes, int)>, offered: seq<Offered>, phase: Phase,
      calls: seq<Call>, o: Offered, after: Phase)
    requires !phase.Finished? && !after.Finished? && Orderly(arrived, offered, phase, calls)
    ensures Orderly(arrived, offered + [o], after, calls + [OnChunk(Image(o))])
  {
    OfferingsMore(arrived, offered, o);
    assert calls == Opening(arrived) + Offerings(offered);
  }

  lemma {:induction false} OfferOrderly<P>(proc: Processor<P>, s: State<P>, o: Offered)
    requires !s.phase.Finished? && Orderly(s.arrived, s.offered, s.phase, s.calls)
    ensures var t := Offer(proc, s, o); Orderly(s.arrived, t.offered, t.phase, t.calls)
  {
    var out := proc.process(s.p, Image(o)).1;
    OrderlyMore(s.arrived, s.offered, s.phase, s.calls, o, if out.Emit? then Sending(out.data) else s.phase);
    OrderlyMore(s.arrived, s.offered, s.phase, s.calls, o, Pulling);
    if out.Fail? {
      FinishOrderly(proc, Called(proc, s, OnChunk(Image(o))).(offered := s.offered + [o]), true);
    }
  }

  lemma {:induction false} ArriveOrderly<P>(proc: Processor<P>, s: State<P>, chunk: Bytes, now: int)
    requires s.phase.Pulling? && s.isFirst == (s.arrived == []) && (s.arrived == [] ==> s.offered == [])
    requires Orderly(s.arrived, s.offered, s.phase, s.calls)
    ensures var t := Arrive(proc, s, chunk, now); Orderly(t.arrived, s.offered, s.phase, t.calls)
  {
    var t := Arrive(proc, s, chunk, now);
    assert s.calls == Opening(s.arrived) + Offerings(s.offered);
    assert Opening(t.arrived) == if s.isFirst then [OnFirstBytes(now)] else Opening(s.arrived);
    assert t.calls == Opening(t.arrived) + Offerings(s.offered);
  }

  lemma {:induction false} DeliveredMore(open: bool, received: seq<Bytes>, channel: seq<Bytes>, hand: seq<Bytes>,
      emitted: seq<Bytes>)
    requires Delivered(open, received, channel, [], emitted)
    ensures Delivered(open, received, channel, hand, emitted + hand)
  {
    assert received + channel + [] == received + channel;
  }

  lemma {:induction false} AllOfferedMore(filtering: bool, arrived: seq<(Bytes, int)>, offered: seq<Offered>,
      phase: Phase, o: Offered, after: Phase)
    requires !after.Filtering? && o.result.Some? == filtering
    requires forall o :: o in offered ==> o.result.Some? == filtering
    requires ArrivedChunks(arrived) == OfferedChunks(offered) + [o.chunk]
    ensures AllOffered(filtering, arrived, offered + [o], after)
  {
    assert OfferedChunks(offered + [o]) + [] == OfferedChunks(offered) + [o.chunk];
  }
}
