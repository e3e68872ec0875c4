/** The processor that observes a stream while it passes (crates/brightstaff/src/streaming.rs). */
module StreamProcessor {
  import opened Wrappers
  import opened Collections
  import opened Strings
  import opened Usage

  const USAGE_BUFFER_MAX: nat := 2 * 1024 * 1024

  /** What a processor does with a chunk: passes bytes on, drops it, or fails. */
  datatype Outcome = Emit(data: Bytes) | Skip | Fail

  /** The callbacks of a processor with state P; `now` is the clock at the first bytes. */
  datatype Processor<!P> = Processor(
    process: (P, Bytes) -> (P, Outcome),
    first: (P, int) -> P,
    error: P -> P,
    complete: P -> P)

  /** Outcome class of one recorded upstream metric. */
  datatype Recorded = Completed | StreamError

  /** State of the observing processor; `records` and `reported` are the metrics and span attributes it emitted. */
  datatype Observed = Observed(
    start: int,
    metered: bool,
    totalBytes: nat,
    chunkCount: nat,
    firstToken: Option<int>,
    buffer: Bytes,
    metricsRecorded: bool,
    records: seq<Recorded>,
    reported: Option<ExtractedUsage>)

  function Starting(start: int, metered: bool): Observed {
    Observed(start, metered, 0, 0, None, [], false, [], None)
  }

  function Observe(o: Observed, chunk: Bytes): Observed {
    var o := o.(totalBytes := o.totalBytes + |chunk|, chunkCount := o.chunkCount + 1);
    if |o.buffer| < USAGE_BUFFER_MAX
    then o.(buffer := o.buffer + chunk[..Min(|chunk|, USAGE_BUFFER_MAX - |o.buffer|)])
    else o
  }

  function FirstToken(o: Observed, now: int): Observed {
    if o.firstToken.None? then o.(firstToken := Some(now - o.start)) else o
  }

  function Failing(o: Observed): Observed {
    if o.metered && !o.metricsRecorded then o.(records := o.records + [StreamError], metricsRecorded := true) else o
  }

  function Completing(parsers: Parsers, o: Observed): Observed {
    var o := o.(reported := Some(Extract(parsers, o.buffer)), buffer := []);
    if o.metered then o.(records := o.records + [Completed], metricsRecorded := true) else o
  }

  function Observing(parsers: Parsers): Processor<Observed> {
    Processor(
      (o: Observed, chunk: Bytes) => (Observe(o, chunk), Emit(chunk)),
      FirstToken,
      Failing,
      (o: Observed) => Completing(parsers, o))
  }

  class ObservableStreamProcessor {
    const parsers: Parsers
    const start: int
    const metered: bool
    var totalBytes: nat
    var chunkCount: nat
    var firstToken: Option<int>
    var buffer: Bytes
    var metricsRecorded: bool
    var records: seq<Recorded>
    var reported: Option<ExtractedUsage>

    function View(): Observed
      reads this
    {
      Observed(start, metered, totalBytes, chunkCount, firstToken, buffer, metricsRecorded, records, reported)
    }

    constructor (parsers: Parsers, start: int, metered: bool)
      ensures View() == Starting(start, metered) && this.parsers == parsers
    {
      this.parsers, this.start, this.metered := parsers, start, metered;
      totalBytes, chunkCount, firstToken, buffer := 0, 0, None, [];
      metricsRecorded, records, reported := false, [], None;
    }

    method ProcessChunk(chunk: Bytes) returns (out: Outcome)
      modifies this
      ensures out == Emit(chunk) && View() == Observe(old(View()), chunk)
    {
      totalBytes := totalBytes + |chunk|;
      chunkCount := chunkCount + 1;
      if |buffer| < USAGE_BUFFER_MAX {
        var remaining := USAGE_BUFFER_MAX - |buffer|;
        var take := Min(|chunk|, remaining);
        buffer := buffer + chunk[..take];
      }
      out := Emit(chunk);
    }

    method OnFirstBytes(now: int)
      modifies this
      ensures View() == FirstToken(old(View()), now)
    {
      if firstToken == None { firstToken := Some(now - start); }
    }

    method OnError()
      modifies this
      ensures View() == Failing(old(View()))
    {
      if metered && !metricsRecorded {
        records := records + [StreamError];
        metricsRecorded := true;
      }
    }

    method OnComplete()
      modifies this
      ensures View() == Completing(parsers, old(View()))
    {
      var usage := ExtractUsageFromBytes(parsers, buffer);
      if metered {
        records := records + [Completed];
        metricsRecorded := true;
      }
      reported := Some(usage);
      buffer := [];
    }
  }
}
