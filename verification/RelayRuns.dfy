/**
 What every run of the relay keeps, and what the client and the metrics see of it
 (crates/brightstaff/src/streaming.rs).
 */
module RelayRuns {
  import opened Wrappers
  import opened Strings
  import opened Usage
  import opened StreamProcessor
  import opened Relay

  // ----- every step keeps the invariant -----

  /** The invariant while the task holds a chunk that it has not offered yet. */
  ghost predicate Ready<P>(proc: Processor<P>, filtering: bool, p: P, s: State<P>, chunk: Bytes) {
    && !s.phase.Finished? && !s.phase.Sending? && |s.channel| <= STREAM_BUFFER_SIZE
    && s.p == Replay(proc, p, s.calls) && s.isFirst == (s.arrived == [])
    && Delivered(s.open, s.received, s.channel, [], Emitted(proc, p, s.calls))
    && Orderly(s.arrived, s.offered, s.phase, s.calls)
    && (forall o :: o in s.offered ==> o.result.Some? == filtering)
    && ArrivedChunks(s.arrived) == OfferedChunks(s.offered) + [chunk]
  }

  /** The invariant again, with the chunks passed on so far named. */
  ghost predicate InvariantWith<P>(proc: Processor<P>, filtering: bool, p: P, s: State<P>, emitted: seq<Bytes>) {
    && |s.channel| <= STREAM_BUFFER_SIZE && Tracks(proc, p, s, emitted) && s.isFirst == (s.arrived == [])
    && Delivered(s.open, s.received, s.channel, InHand(s.phase), emitted)
    && AllOffered(filtering, s.arrived, s.offered, s.phase) && Orderly(s.arrived, s.offered, s.phase, s.calls)
  }

  lemma {:induction false} InvariantFrom<P>(proc: Processor<P>, filtering: bool, p: P, s: State<P>, emitted: seq<Bytes>)
    requires InvariantWith(proc, filtering, p, s, emitted)
    ensures Invariant(proc, filtering, p, s)
  {
  }

  /** What an offer leaves as it was. */
  lemma {:induction false} OfferFields<P>(proc: Processor<P>, s: State<P>, o: Offered)
    ensures var t := Offer(proc, s, o);
            && t.open == s.open && t.received == s.received && t.channel == s.channel && t.isFirst == s.isFirst
            && t.arrived == s.arrived && t.offered == s.offered + [o] && !t.phase.Filtering?
  {
  }

  lemma {:induction false} OfferKeeps<P>(proc: Processor<P>, filtering: bool, p: P, s: State<P>, o: Offered)
    requires Ready(proc, filtering, p, s, o.chunk) && o.result.Some? == filtering
    ensures Invariant(proc, filtering, p, Offer(proc, s, o))
  {
    var t, emitted := Offer(proc, s, o), Emitted(proc, p, s.calls);
    OfferFields(proc, s, o);
    OfferTracks(proc, p, s, emitted, o);
    OfferOrderly(proc, s, o);
    DeliveredMore(s.open, s.received, s.channel, InHand(t.phase), emitted);
    AllOfferedMore(filtering, s.arrived, s.offered, s.phase, o, t.phase);
    InvariantFrom(proc, filtering, p, t, emitted + InHand(t.phase));
  }

  /** What an arrival leaves as it was. */
  lemma {:induction false} ArriveFields<P>(proc: Processor<P>, s: State<P>, chunk: Bytes, now: int)
    ensures var t := Arrive(proc, s, chunk, now);
            && t.open == s.open && t.received == s.received && t.channel == s.channel && t.phase == s.phase
            && t.arrived == s.arrived + [(chunk, now)] && t.offered == s.offered && !t.isFirst
  {
  }

  lemma {:induction false} ReadyFrom<P>(proc: Processor<P>, filtering: bool, p: P, s: State<P>, chunk: Bytes,
      emitted: seq<Bytes>)
    requires s.phase.Pulling? && |s.channel| <= STREAM_BUFFER_SIZE && s.isFirst == (s.arrived == [])
    requires Tracks(proc, p, s, emitted) && Delivered(s.open, s.received, s.channel, [], emitted)
    requires Orderly(s.arrived, s.offered, s.phase, s.calls)
    requires forall o :: o in s.offered ==> o.result.Some? == filtering
    requires ArrivedChunks(s.arrived) == OfferedChunks(s.offered) + [chunk]
    ensures Ready(proc, filtering, p, s, chunk)
  {
  }

  lemma {:induction false} ArriveReady<P>(proc: Processor<P>, filtering: bool, p: P, s: State<P>, chunk: Bytes,
      now: int)
    requires Invariant(proc, filtering, p, s) && s.phase.Pulling?
    ensures Ready(proc, filtering, p, Arrive(proc, s, chunk, now), chunk)
  {
    var emitted := Emitted(proc, p, s.calls);
    ArriveFields(proc, s, chunk, now);
    ArriveTracks(proc, p, s, emitted, chunk, now);
    NothingOffered(s.arrived, s.offered);
    ArriveOrderly(proc, s, chunk, now);
    MoreArrived(s.arrived, s.offered, chunk, now);
    ReadyFrom(proc, filtering, p, Arrive(proc, s, chunk, now), chunk, emitted);
  }

  lemma {:induction false} NothingOffered(arrived: seq<(Bytes, int)>, offered: seq<Offered>)
    requires ArrivedChunks(arrived) == OfferedChunks(offered) + []
    ensures arrived == [] ==> offered == []
  {
    assert |ArrivedChunks(arrived)| == |OfferedChunks(offered)|;
  }

  lemma {:induction false} MoreArrived(arrived: seq<(Bytes, int)>, offered: seq<Offered>, chunk: Bytes, now: int)
    requires ArrivedChunks(arrived) == OfferedChunks(offered) + []
    ensures ArrivedChunks(arrived + [(chunk, now)]) == OfferedChunks(offered) + [chunk]
  {
  }

  lemma {:induction false} NextKeeps<P>(proc: Processor<P>, filtering: bool, p: P, s: State<P>, chunk: Bytes, now: int)
    requires Invariant(proc, filtering, p, s) && s.phase.Pulling?
    ensures Invariant(proc, filtering, p, Step(proc, filtering, s, Next(chunk, now)).value)
  {
    ArriveReady(proc, filtering, p, s, chunk, now);
    if !filtering { OfferKeeps(proc, filtering, p, Arrive(proc, s, chunk, now), Offered(chunk, None)); }
  }

  /** What the end of a run leaves as it was. */
  lemma {:induction false} FinishFields<P>(proc: Processor<P>, s: State<P>)
    ensures var t := Finish(proc, s);
            && t.open == s.open && t.received == s.received && t.channel == s.channel && t.isFirst == s.isFirst
            && t.arrived == s.arrived && t.offered == s.offered && t.phase.Finished?
  {
  }

  lemma {:induction false} EndKeeps<P>(proc: Processor<P>, filtering: bool, p: P, s: State<P>)
    requires Invariant(proc, filtering, p, s) && (s.phase.Pulling? || (s.phase.Sending? && !s.open))
    ensures Invariant(proc, filtering, p, Finish(proc, s))
  {
    FinishFields(proc, s);
    QuietTracks(proc, p, s, Emitted(proc, p, s.calls), OnComplete);
    FinishOrderly(proc, s, false);
  }

  lemma {:induction false} FailKeeps<P>(proc: Processor<P>, filtering: bool, p: P, s: State<P>)
    requires Invariant(proc, filtering, p, s) && s.phase.Pulling?
    ensures Invariant(proc, filtering, p, Finish(proc, Called(proc, s, OnError)))
  {
    FailTracks(proc, p, s, Emitted(proc, p, s.calls));
    FinishOrderly(proc, s, true);
  }

  lemma {:induction false} ReceiveKeeps(received: seq<Bytes>, channel: seq<Bytes>, hand: seq<Bytes>,
      emitted: seq<Bytes>)
    requires channel != [] && Delivered(true, received, channel, hand, emitted)
    ensures Delivered(true, received + [channel[0]], channel[1..], hand, emitted)
  {
    assert received + channel == received + [channel[0]] + channel[1..];
  }

  lemma {:induction false} SentKeeps(received: seq<Bytes>, channel: seq<Bytes>, data: Bytes, emitted: seq<Bytes>)
    requires Delivered(true, received, channel, [data], emitted)
    ensures Delivered(true, received, channel + [data], [], emitted)
  {
    assert received + (channel + [data]) + [] == received + channel + [data];
  }

  lemma {:induction false} DropKeeps(received: seq<Bytes>, channel: seq<Bytes>, hand: seq<Bytes>, emitted: seq<Bytes>)
    requires Delivered(true, received, channel, hand, emitted)
    ensures Delivered(false, received, [], hand, emitted)
  {
  }

  /** Only channel, client and phase change, and a chunk in hand at most goes into the channel. */
  lemma {:induction false} ChannelKeeps<P>(proc: Processor<P>, filtering: bool, p: P, s: State<P>, t: State<P>)
    requires Invariant(proc, filtering, p, s) && |t.channel| <= STREAM_BUFFER_SIZE
    requires t == s.(open := t.open, received := t.received, channel := t.channel, phase := t.phase)
    requires t.phase == s.phase || (s.phase.Sending? && t.phase.Pulling?)
    requires Delivered(t.open, t.received, t.channel, InHand(t.phase), Emitted(proc, p, s.calls))
    ensures Invariant(proc, filtering, p, t)
  {
  }

  /** The steps of the channel, written out. */
  lemma {:induction false} ChannelSteps<P>(proc: Processor<P>, filtering: bool, s: State<P>)
    ensures Step(proc, filtering, s, Drop).Some? ==> Step(proc, filtering, s, Drop).value == Dropped(s)
    ensures Step(proc, filtering, s, Receive).Some? ==>
        s.channel != [] && Step(proc, filtering, s, Receive).value == Taken(s)
    ensures Step(proc, filtering, s, Sent).Some? ==>
        s.phase.Sending? && Step(proc, filtering, s, Sent).value == Queued(s)
  {
  }

  function Dropped<P>(s: State<P>): State<P> {
    s.(open := false, channel := [])
  }

  function Taken<P>(s: State<P>): State<P>
    requires s.channel != []
  {
    s.(received := s.received + [s.channel[0]], channel := s.channel[1..])
  }

  function Queued<P>(s: State<P>): State<P>
    requires s.phase.Sending?
  {
    s.(channel := s.channel + [s.phase.data], phase := Pulling)
  }

  lemma {:induction false} SentStep<P>(proc: Processor<P>, filtering: bool, p: P, s: State<P>)
    requires Invariant(proc, filtering, p, s) && Step(proc, filtering, s, Sent).Some?
    ensures Invariant(proc, filtering, p, Step(proc, filtering, s, Sent).value)
  {
    ChannelSteps(proc, filtering, s);
    SentKeeps(s.received, s.channel, s.phase.data, Emitted(proc, p, s.calls));
    ChannelKeeps(proc, filtering, p, s, Queued(s));
  }

  lemma {:induction false} ReceiveStep<P>(proc: Processor<P>, filtering: bool, p: P, s: State<P>)
    requires Invariant(proc, filtering, p, s) && Step(proc, filtering, s, Receive).Some?
    ensures Invariant(proc, filtering, p, Step(proc, filtering, s, Receive).value)
  {
    ChannelSteps(proc, filtering, s);
    ReceiveKeeps(s.received, s.channel, InHand(s.phase), Emitted(proc, p, s.calls));
    ChannelKeeps(proc, filtering, p, s, Taken(s));
  }

  lemma {:induction false} DropStep<P>(proc: Processor<P>, filtering: bool, p: P, s: State<P>)
    requires Invariant(proc, filtering, p, s) && Step(proc, filtering, s, Drop).Some?
    ensures Invariant(proc, filtering, p, Step(proc, filtering, s, Drop).value)
  {
    ChannelSteps(proc, filtering, s);
    DropKeeps(s.received, s.channel, InHand(s.phase), Emitted(proc, p, s.calls));
    ChannelKeeps(proc, filtering, p, s, Dropped(s));
  }

  lemma {:induction false} StepKeeps<P>(proc: Processor<P>, filtering: bool, p: P, s: State<P>, event: Event)
    requires Invariant(proc, filtering, p, s) && Step(proc, filtering, s, event).Some?
    ensures Invariant(proc, filtering, p, Step(proc, filtering, s, event).value)
  {
    match event
    case Next(chunk, now) => NextKeeps(proc, filtering, p, s, chunk, now);
    case NextFails => FailKeeps(proc, filtering, p, s);
    case NextEnds => EndKeeps(proc, filtering, p, s);
    case Filtered(result) => OfferKeeps(proc, filtering, p, s, Offered(s.phase.chunk, Some(result)));
    case SendFails => EndKeeps(proc, filtering, p, s);
    case Sent => SentStep(proc, filtering, p, s);
    case Receive => ReceiveStep(proc, filtering, p, s);
    case Drop => DropStep(proc, filtering, p, s);
  }

  /** Relay safety: from the start of the task, whatever the schedule of task, filters and client. */
  lemma {:induction false} RunKeeps<P>(proc: Processor<P>, filtering: bool, p: P, s: State<P>, events: seq<Event>)
    requires Invariant(proc, filtering, p, s) && Run(proc, filtering, s, events).Some?
    ensures Invariant(proc, filtering, p, Run(proc, filtering, s, events).value)
    decreases |events|
  {
    if events != [] {
      StepKeeps(proc, filtering, p, s, events[0]);
      RunKeeps(proc, filtering, p, Step(proc, filtering, s, events[0]).value, events[1..]);
    }
  }

  lemma {:induction false} RelaySafety<P>(proc: Processor<P>, filtering: bool, p: P, events: seq<Event>)
    requires Run(proc, filtering, Init(p), events).Some?
    ensures Invariant(proc, filtering, p, Run(proc, filtering, Init(p), events).value)
    ensures |Run(proc, filtering, Init(p), events).value.channel| <= 16
  {
    RunKeeps(proc, filtering, p, Init(p), events);
  }

  // ----- the callbacks -----

  /**
   The first bytes are announced at most once and before every chunk; the end of the run is announced
   by every finished run, last and once, and by no other; an error at most once, just before it.
   */
  lemma {:induction false} CallbackOrder<P>(proc: Processor<P>, filtering: bool, p: P, s: State<P>)
    requires Invariant(proc, filtering, p, s)
    ensures forall i :: 0 <= i < |s.calls| && s.calls[i].OnFirstBytes? ==> i == 0
    ensures forall i :: 0 <= i < |s.calls| && s.calls[i].OnChunk? ==> i > 0 && s.calls[0].OnFirstBytes?
    ensures forall i :: 0 <= i < |s.calls| && s.calls[i].OnComplete? ==> s.phase.Finished? && i == |s.calls| - 1
    ensures forall i :: 0 <= i < |s.calls| && s.calls[i].OnError? ==> s.phase.Finished? && i == |s.calls| - 2
    ensures s.phase.Finished? ==> s.calls != [] && s.calls[|s.calls| - 1].OnComplete?
  {
    assert s.offered != [] ==> |ArrivedChunks(s.arrived)| > 0;
    CallPositions(Opening(s.arrived), Offerings(s.offered), s.calls);
  }

  lemma {:induction false} CallPositions(opening: seq<Call>, body: seq<Call>, calls: seq<Call>)
    requires |opening| <= 1 && (opening != [] ==> opening[0].OnFirstBytes?)
    requires forall i :: 0 <= i < |body| ==> body[i].OnChunk?
    requires body != [] ==> opening != []
    requires calls == opening + body || calls == opening + body + [OnComplete] ||
        calls == opening + body + [OnError] + [OnComplete]
    ensures forall i :: 0 <= i < |calls| && calls[i].OnFirstBytes? ==> i == 0
    ensures forall i :: 0 <= i < |calls| && calls[i].OnChunk? ==> i > 0 && calls[0].OnFirstBytes?
    ensures forall i :: 0 <= i < |calls| && calls[i].OnComplete? ==> calls != opening + body && i == |calls| - 1
    ensures forall i :: 0 <= i < |calls| && calls[i].OnError? ==> calls != opening + body && i == |calls| - 2
  {
    var n := |opening + body|;
    forall i | 0 <= i < |calls|
      ensures calls[i] == if i < |opening| then opening[i] else if i < n then body[i - |opening|]
                          else if i == |calls| - 1 then OnComplete else OnError
    {
    }
  }

  // ----- progress -----

  /**
   The relay is never wedged: a chunk in hand can be sent at once, or after one receive, or the task
   finishes because the client is gone.
   */
  lemma {:induction false} NeverWedged<P>(proc: Processor<P>, filtering: bool, s: State<P>)
    requires |s.channel| <= STREAM_BUFFER_SIZE && s.phase.Sending?
    ensures Run(proc, filtering, s, if !s.open then [SendFails] else if |s.channel| < STREAM_BUFFER_SIZE then [Sent]
        else [Receive, Sent]).Some?
    ensures s.open && |s.channel| < 16 ==> Step(proc, filtering, s, Sent).Some?
  {
    assert [Receive, Sent][1..] == [Sent];
    if s.open && |s.channel| == STREAM_BUFFER_SIZE {
      var t := Step(proc, filtering, s, Receive).value;
      assert Run(proc, filtering, t, [Sent]).Some?;
    }
  }
}
