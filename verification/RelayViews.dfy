/**
 What the client receives and what the metrics say, for the observing processor
 (crates/brightstaff/src/streaming.rs).
 */
module RelayViews {
  import opened Wrappers
  import opened Collections
  import opened Strings
  import opened Usage
  import opened StreamProcessor
  import opened Relay
  import opened RelayRuns

  function Images(offered: seq<Offered>): (images: seq<Bytes>)
    ensures |images| == |offered|
    ensures forall i :: 0 <= i < |images| ==> images[i] == Image(offered[i])
  {
    seq(|offered|, i requires 0 <= i < |offered| => Image(offered[i]))
  }

  /** The part of a response that is kept for usage extraction. */
  function Kept(all: Bytes): Bytes {
    all[..Min(|all|, USAGE_BUFFER_MAX)]
  }

  lemma {:induction false} KeepMore(all: Bytes, chunk: Bytes)
    ensures Kept(all + chunk)
         == if |Kept(all)| < USAGE_BUFFER_MAX then Kept(all) + chunk[..Min(|chunk|, USAGE_BUFFER_MAX - |Kept(all)|)]
             else Kept(all)
  {
  }

  /** The processor's state before the end of the run, from the chunks it saw alone. */
  function Watching(start: int, metered: bool, arrived: seq<(Bytes, int)>, images: seq<Bytes>): Observed {
    var all := Concat(images);
    Observed(start, metered, |all|, |images|, if arrived == [] then None
        else Some(arrived[0].1 - start), Kept(all), false, [], None)
  }

  lemma {:induction false} WatchMore(start: int, metered: bool, arrived: seq<(Bytes, int)>, images: seq<Bytes>,
      chunk: Bytes)
    ensures Observe(Watching(start, metered, arrived, images), chunk)
        == Watching(start, metered, arrived, images + [chunk])
  {
    ConcatMore(images, chunk);
    KeepMore(Concat(images), chunk);
  }

  lemma {:induction false} ObservedChunk(parsers: Parsers, p: Observed, calls: seq<Call>, chunk: Bytes)
    ensures var proc := Observing(parsers);
            && Replay(proc, p, calls + [OnChunk(chunk)]) == Observe(Replay(proc, p, calls), chunk)
            && Emitted(proc, p, calls + [OnChunk(chunk)]) == Emitted(proc, p, calls) + [chunk]
  {
    ReplayLast(Observing(parsers), p, calls, OnChunk(chunk));
  }

  lemma {:induction false} ObservedOpening(parsers: Parsers, start: int, metered: bool, arrived: seq<(Bytes, int)>)
    ensures Replay(Observing(parsers), Starting(start, metered), Opening(arrived))
        == Watching(start, metered, arrived, [])
    ensures Emitted(Observing(parsers), Starting(start, metered), Opening(arrived)) == []
  {
    if arrived != [] {
      var call := OnFirstBytes(arrived[0].1);
      assert [] + [call] == Opening(arrived);
      ReplayLast(Observing(parsers), Starting(start, metered), [], call);
    }
  }

  lemma {:induction false} ImagesMore(offered: seq<Offered>, o: Offered)
    ensures Images(offered + [o]) == Images(offered) + [Image(o)]
  {
  }

  /** What the calls before the end amount to: the state depends on the images alone, and all are passed on. */
  ghost predicate Watches(parsers: Parsers, start: int, metered: bool, arrived: seq<(Bytes, int)>, images: seq<Bytes>,
      calls: seq<Call>) {
    && Replay(Observing(parsers), Starting(start, metered), calls) == Watching(start, metered, arrived, images)
    && Emitted(Observing(parsers), Starting(start, metered), calls) == images
  }

  lemma {:induction false} WatchesMore(parsers: Parsers, start: int, metered: bool, arrived: seq<(Bytes, int)>,
      images: seq<Bytes>, calls: seq<Call>, chunk: Bytes)
    requires Watches(parsers, start, metered, arrived, images, calls)
    ensures Watches(parsers, start, metered, arrived, images + [chunk], calls + [OnChunk(chunk)])
  {
    ObservedChunk(parsers, Starting(start, metered), calls, chunk);
    WatchMore(start, metered, arrived, images, chunk);
  }

  lemma {:induction false} ObservedBody(parsers: Parsers, start: int, metered: bool, arrived: seq<(Bytes, int)>,
      offered: seq<Offered>)
    ensures Watches(parsers, start, metered, arrived, Images(offered), Opening(arrived) + Offerings(offered))
    decreases |offered|
  {
    if offered == [] {
      assert Opening(arrived) + Offerings(offered) == Opening(arrived);
      ObservedOpening(parsers, start, metered, arrived);
    } else {
      var n := |offered| - 1;
      var rest, o := offered[..n], offered[n];
      assert offered == rest + [o];
      ObservedBody(parsers, start, metered, arrived, rest);
      WatchesMore(parsers, start, metered, arrived, Images(rest), Opening(arrived) + Offerings(rest), Image(o));
      OfferingsMore(arrived, rest, o);
      ImagesMore(rest, o);
    }
  }

  lemma {:induction false} ReplayEnd<P>(proc: Processor<P>, p: P, body: seq<Call>)
    ensures Replay(proc, p, body + [OnComplete]) == proc.complete(Replay(proc, p, body))
    ensures Emitted(proc, p, body + [OnComplete]) == Emitted(proc, p, body)
    ensures Replay(proc, p, body + [OnError]) == proc.error(Replay(proc, p, body))
    ensures Emitted(proc, p, body + [OnError]) == Emitted(proc, p, body)
  {
    ReplayLast(proc, p, body, OnComplete);
    ReplayLast(proc, p, body, OnError);
    assert Emitted(proc, p, body) + [] == Emitted(proc, p, body);
  }

  lemma {:induction false} ObservedEnd(parsers: Parsers, start: int, metered: bool, body: seq<Call>, failed: bool)
    ensures var proc, p := Observing(parsers), Starting(start, metered);
            var before := Replay(proc, p, body);
            var calls := if failed then body + [OnError] + [OnComplete] else body + [OnComplete];
            && Replay(proc, p, calls) == Completing(parsers, if failed then Failing(before) else before)
            && Emitted(proc, p, calls) == Emitted(proc, p, body)
  {
    ReplayEnd(Observing(parsers), Starting(start, metered), body);
    ReplayEnd(Observing(parsers), Starting(start, metered), body + [OnError]);
  }

  ghost predicate Reachable(parsers: Parsers, filtering: bool, start: int, metered: bool, s: State<Observed>) {
    Invariant(Observing(parsers), filtering, Starting(start, metered), s)
  }

  /** The state of a run from the bytes observed alone; a finished run reported them, and twice if it failed. */
  function Accounts(parsers: Parsers, start: int, metered: bool, arrived: seq<(Bytes, int)>, images: seq<Bytes>,
      finished: bool, failed: bool): Observed {
    var o := Watching(start, metered, arrived, images);
    if !finished then o
    else o.(reported := Some(Extract(parsers, Kept(Concat(images)))), buffer := [], metricsRecorded := metered,
            records := if !metered then [] else if failed then [StreamError, Completed] else [Completed])
  }

  lemma {:induction false} EndOfWatching(parsers: Parsers, start: int, metered: bool, arrived: seq<(Bytes, int)>,
      images: seq<Bytes>, failed: bool)
    ensures var o := Watching(start, metered, arrived, images);
            Completing(parsers, if failed then Failing(o) else o)
                == Accounts(parsers, start, metered, arrived, images, true, failed)
  {
  }

  lemma {:induction false} AccountsOfEnd(parsers: Parsers, start: int, metered: bool, arrived: seq<(Bytes, int)>,
      images: seq<Bytes>, body: seq<Call>, failed: bool)
    requires Watches(parsers, start, metered, arrived, images, body)
    ensures var calls := if failed then body + [OnError] + [OnComplete] else body + [OnComplete];
            && Replay(Observing(parsers), Starting(start, metered), calls)
                == Accounts(parsers, start, metered, arrived, images, true, failed)
            && Emitted(Observing(parsers), Starting(start, metered), calls) == images
  {
    EndOfWatching(parsers, start, metered, arrived, images, failed);
    ObservedEnd(parsers, start, metered, body, failed);
  }

  lemma {:induction false} OrderlyAccounts(parsers: Parsers, start: int, metered: bool, arrived: seq<(Bytes, int)>,
      offered: seq<Offered>, phase: Phase, calls: seq<Call>)
    requires Orderly(arrived, offered, phase, calls)
    ensures Replay(Observing(parsers), Starting(start, metered), calls)
         == Accounts(parsers, start, metered, arrived, Images(offered), phase.Finished?, OnError in calls)
    ensures Emitted(Observing(parsers), Starting(start, metered), calls) == Images(offered)
  {
    var body := Opening(arrived) + Offerings(offered);
    ObservedBody(parsers, start, metered, arrived, offered);
    if phase.Finished? {
      ErrorIn(body, calls);
      AccountsOfEnd(parsers, start, metered, arrived, Images(offered), body, OnError in calls);
    }
  }

  /**
   The accounts of a run depend on the bytes observed alone: the total, the count, the time of the
   first bytes, the buffer, which holds the first 2 MiB observed and is released at the end, the
   usage, which is that of those bytes, and the upstream metrics, of which a run that failed records
   two.
   */
  lemma {:induction false} Accounting(parsers: Parsers, filtering: bool, start: int, metered: bool, s: State<Observed>)
    requires Reachable(parsers, filtering, start, metered, s)
    ensures s.p == Accounts(parsers, start, metered, s.arrived, Images(s.offered), s.phase.Finished?,
        OnError in s.calls)
    ensures Emitted(Observing(parsers), Starting(start, metered), s.calls) == Images(s.offered)
  {
    OrderlyAccounts(parsers, start, metered, s.arrived, s.offered, s.phase, s.calls);
  }

  lemma {:induction false} ErrorIn(body: seq<Call>, calls: seq<Call>)
    requires OnError !in body && (calls == body + [OnComplete] || calls == body + [OnError] + [OnComplete])
    ensures OnError in calls <==> calls == body + [OnError] + [OnComplete]
  {
    if calls == body + [OnError] + [OnComplete] { assert calls[|body|] == OnError; }
  }

  /** How the upstream cuts its response into chunks does not change the usage or the size that is reported. */
  lemma {:induction false} UsageIgnoresChunking(parsers: Parsers, start: int, metered: bool, s: State<Observed>,
      t: State<Observed>, a: bool, b: bool)
    requires Reachable(parsers, a, start, metered, s) && Reachable(parsers, b, start, metered, t)
    requires s.phase.Finished? && t.phase.Finished?
    requires Concat(Images(s.offered)) == Concat(Images(t.offered))
    ensures s.p.reported == t.p.reported && s.p.totalBytes == t.p.totalBytes
  {
    Accounting(parsers, a, start, metered, s);
    Accounting(parsers, b, start, metered, t);
  }

  /** A finished run reports the usage of the first 2 MiB that it observed. */
  lemma {:induction false} ReportsFirstBytes(parsers: Parsers, filtering: bool, start: int, metered: bool,
      s: State<Observed>)
    requires Reachable(parsers, filtering, start, metered, s) && s.phase.Finished?
    ensures var all := Concat(Images(s.offered));
            && s.p.reported == Some(Extract(parsers, if |all| <= 2_097_152 then all else all[..2_097_152]))
            && s.p.totalBytes == |all| && s.p.chunkCount == |s.offered| && s.p.buffer == []
  {
    Accounting(parsers, filtering, start, metered, s);
    var all := Concat(Images(s.offered));
    assert all[..|all|] == all;
  }

  /** Without filters the client gets the chunks of the upstream, unchanged and in order. */
  lemma {:induction false} Transparent(parsers: Parsers, start: int, metered: bool, s: State<Observed>)
    requires Reachable(parsers, false, start, metered, s)
    ensures s.received <= ArrivedChunks(s.arrived)
    ensures s.open ==> s.received + s.channel + InHand(s.phase) == ArrivedChunks(s.arrived)
    ensures s.open && s.phase.Finished? && s.channel == [] ==> s.received == ArrivedChunks(s.arrived)
  {
    Accounting(parsers, false, start, metered, s);
    assert Images(s.offered) == OfferedChunks(s.offered);
    assert ArrivedChunks(s.arrived) == OfferedChunks(s.offered);
  }

  /** With filters it gets each chunk as they made it, and as it came where they failed. */
  lemma {:induction false} FilteredInOrder(parsers: Parsers, start: int, metered: bool, s: State<Observed>)
    requires Reachable(parsers, true, start, metered, s)
    ensures s.received <= Images(s.offered)
    ensures s.open && s.phase.Finished? && s.channel == [] ==>
        s.received == Images(s.offered) && |s.offered| == |s.arrived|
    ensures |s.offered| <= |s.arrived|
    ensures forall i :: 0 <= i < |s.offered| ==>
        Images(s.offered)[i] == Image(Offered(s.arrived[i].0, s.offered[i].result))
    ensures forall i :: 0 <= i < |s.offered| ==>
        s.offered[i].result.Some? && Images(s.offered)[i]
            == match s.offered[i].result.value
               case Passed(data) => data
               case _ => s.arrived[i].0
  {
    Accounting(parsers, true, start, metered, s);
    FilteredImages(s.arrived, s.offered, if s.phase.Filtering? then [s.phase.chunk] else []);
  }

  lemma {:induction false} FilteredImages(arrived: seq<(Bytes, int)>, offered: seq<Offered>, held: seq<Bytes>)
    requires ArrivedChunks(arrived) == OfferedChunks(offered) + held
    ensures |arrived| == |offered| + |held|
    ensures forall i :: 0 <= i < |offered| ==> Images(offered)[i] == Image(Offered(arrived[i].0, offered[i].result))
  {
    var chunks := ArrivedChunks(arrived);
    assert |chunks| == |OfferedChunks(offered)| + |held|;
    forall i | 0 <= i < |offered| ensures arrived[i].0 == offered[i].chunk {
      assert chunks[i] == OfferedChunks(offered)[i];
    }
  }

  // ----- the task as written -----

  datatype Item = Item(chunk: Bytes, now: int, result: Option<FilterResult>)

  function Processed(item: Item): Bytes {
    Image(Offered(item.chunk, item.result))
  }

  function ProcessedOf(items: seq<Item>, n: nat): seq<Bytes>
    requires n <= |items|
  {
    if n == 0 then [] else ProcessedOf(items, n - 1) + [Processed(items[n - 1])]
  }

  /** The processor after the first n items. */
  function After(p: Observed, items: seq<Item>, n: nat): Observed
    requires n <= |items|
  {
    if n == 0 then p
    else
      var before := After(p, items, n - 1);
      Observe(if n == 1 then FirstToken(before, items[0].now) else before, Processed(items[n - 1]))
  }

  /** One chunk on its way from the upstream through the filters to the processor. */
  method Handle(item: Item, isFirst: bool, processor: ObservableStreamProcessor) returns (processed: Bytes)
    modifies processor
    ensures processed == Processed(item)
    ensures processor.View() == Observe(if isFirst then FirstToken(old(processor.View()), item.now)
        else old(processor.View()), processed)
  {
    if isFirst { processor.OnFirstBytes(item.now); }
    var out := processor.ProcessChunk(Processed(item));
    processed := out.data;
  }

  /**
   The loop of the task, over an upstream that yields these items and then ends, or fails if it is
   `broken`, against a client that takes `accepts` chunks and then goes away; `handled` chunks were
   offered to the processor.
   */
  method CreateStreamingResponse(upstream: seq<Item>, broken: bool, processor: ObservableStreamProcessor, accepts: nat)
    returns (sent: seq<Bytes>, handled: nat)
    modifies processor
    ensures handled == Min(|upstream|, accepts + 1)
    ensures sent == ProcessedOf(upstream, Min(handled, accepts))
    ensures var v := After(old(processor.View()), upstream, handled);
            processor.View() == Completing(processor.parsers, if broken && |upstream| <= accepts then Failing(v) else v)
  {
    var isFirst, gone, failed := true, false, false;
    sent, handled := [], 0;
    ghost var p := processor.View();
    while (handled < |upstream| || broken) && !gone && !failed
      invariant handled <= |upstream| && isFirst == (handled == 0)
      invariant var v := After(p, upstream, handled); processor.View() == if failed then Failing(v) else v
      invariant sent == ProcessedOf(upstream, Min(handled, accepts))
      invariant handled == if gone then accepts + 1 else |sent|
      invariant !gone ==> handled <= accepts
      invariant failed ==> broken && !gone && handled == |upstream|
      decreases |upstream| - handled, if failed then 0 else 1
    {
      if handled == |upstream| {
        processor.OnError();
        failed := true;
      } else {
        var processed := Handle(upstream[handled], isFirst, processor);
        isFirst := false;
        if |sent| == accepts { gone := true; } else { sent := sent + [processed]; }
        handled := handled + 1;
      }
    }
    processor.OnComplete();
  }

  function ArrivedOf(items: seq<Item>): seq<(Bytes, int)> {
    seq(|items|, i requires 0 <= i < |items| => (items[i].chunk, items[i].now))
  }

  /** The next item arrives. */
  lemma {:induction false} WatchArrival(start: int, metered: bool, items: seq<Item>, n: nat)
    requires 0 < n <= |items|
    ensures var before := Watching(start, metered, ArrivedOf(items[..n - 1]), ProcessedOf(items, n - 1));
            Watching(start, metered, ArrivedOf(items[..n]), ProcessedOf(items, n - 1))
            == if n == 1 then FirstToken(before, items[0].now) else before
  {
    assert ArrivedOf(items[..n])[0] == (items[0].chunk, items[0].now);
    if n > 1 { assert ArrivedOf(items[..n - 1])[0] == (items[0].chunk, items[0].now); }
  }

  lemma {:induction false} AfterIsWatching(start: int, metered: bool, items: seq<Item>, n: nat)
    requires n <= |items|
    ensures After(Starting(start, metered), items, n)
        == Watching(start, metered, ArrivedOf(items[..n]), ProcessedOf(items, n))
  {
    if n > 0 {
      AfterIsWatching(start, metered, items, n - 1);
      WatchArrival(start, metered, items, n);
      WatchMore(start, metered, ArrivedOf(items[..n]), ProcessedOf(items, n - 1), Processed(items[n - 1]));
    }
  }

  /** The loop leaves the processor with the accounts that every schedule of the machine arrives at. */
  lemma {:induction false} LoopAccounts(parsers: Parsers, start: int, metered: bool, items: seq<Item>, n: nat,
      failed: bool)
    requires n <= |items|
    ensures var v := After(Starting(start, metered), items, n);
            Completing(parsers, if failed then Failing(v) else v)
            == Accounts(parsers, start, metered, ArrivedOf(items[..n]), ProcessedOf(items, n), true, failed)
  {
    AfterIsWatching(start, metered, items, n);
    EndOfWatching(parsers, start, metered, ArrivedOf(items[..n]), ProcessedOf(items, n), failed);
  }
}
