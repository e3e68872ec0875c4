/**
 How much a configured limit lets through (crates/common/src/ratelimit.rs), when the cell of the
 limiter library is the token bucket that its quotas describe: it holds n tokens, and n more flow in
 per period.
 */
module DailyLimits {
  import opened Wrappers
  import opened Collections
  import opened RateLimit

  /** Seconds. */
  function Period(q: Quota): (p: nat)
    ensures p > 0
  {
    match q
    case PerSecond(_) => 1
    case PerMinute(_) => 60
    case PerHour(_) => 3600
  }

  /** What was left at the last charge, in tokens times the period, so that the inflow per second is whole. */
  datatype Cell = Full | Left(level: nat, at: int)

  function Level(q: Quota, c: Cell, now: int): nat {
    var size := q.n * Period(q);
    match c
    case Full => size
    case Left(level, at) => if now <= at then Min(size, level) else Min(size, level + q.n * (now - at))
  }

  function Charge(q: Quota, c: Cell, tokens: nat, now: int): (Cell, bool) {
    var level := Level(q, c, now);
    if tokens * Period(q) <= level then (Left(level - tokens * Period(q), now), true) else (c, false)
  }

  const TokenBucket: Solo<Cell> := Solo((q: Quota) => Full, Charge)

  /** The tokens of the calls that pass. */
  function Admitted(calls: seq<Call>, decisions: seq<bool>): nat
    requires |calls| == |decisions|
  {
    if calls == [] then 0 else (if decisions[0] then calls[0].tokens else 0) + Admitted(calls[1..], decisions[1..])
  }

  lemma {:induction false} RunLength(q: Quota, c: Cell, calls: seq<Call>)
    ensures |SoloRun(TokenBucket, q, c, calls)| == |calls|
    decreases |calls|
  {
    if calls != [] { RunLength(q, Charge(q, c, calls[0].tokens, calls[0].now).0, calls[1..]); }
  }

  function Passed(q: Quota, c: Cell, calls: seq<Call>): nat {
    RunLength(q, c, calls);
    Admitted(calls, SoloRun(TokenBucket, q, c, calls))
  }

  lemma {:induction false} PassedCons(q: Quota, c: Cell, calls: seq<Call>)
    requires calls != []
    ensures var (next, ok) := Charge(q, c, calls[0].tokens, calls[0].now);
            Passed(q, c, calls) == (if ok then calls[0].tokens else 0) + Passed(q, next, calls[1..])
  {
    var (next, ok) := Charge(q, c, calls[0].tokens, calls[0].now);
    RunLength(q, next, calls[1..]);
    assert SoloRun(TokenBucket, q, c, calls)[1..] == SoloRun(TokenBucket, q, next, calls[1..]);
  }

  /** The calls are made in order, from `start` to `end`. */
  ghost predicate Within(calls: seq<Call>, start: int, end: int) {
    if calls == [] then start <= end else start <= calls[0].now && Within(calls[1..], calls[0].now, end)
  }

  lemma {:induction false} Times(n: nat, a: int, b: int)
    ensures n * (a + b) == n * a + n * b
  {
  }

  lemma {:induction false} TimesMore(n: nat, a: int, b: int)
    requires a <= b
    ensures n * a <= n * b
  {
  }

  lemma {:induction false} LevelFlows(q: Quota, c: Cell, start: int, now: int)
    requires start <= now
    ensures Level(q, c, now) <= Level(q, c, start) + q.n * (now - start)
  {
    TimesMore(q.n, 0, now - start);
    if c.Left? && start >= c.at {
      Times(q.n, start - c.at, now - start);
    } else if c.Left? && now > c.at {
      TimesMore(q.n, now - c.at, now - start);
    }
  }

  lemma {:induction false} ChargeTakes(q: Quota, c: Cell, tokens: nat, now: int)
    ensures var (next, ok) := Charge(q, c, tokens, now);
            Level(q, next, now) + (if ok then tokens * Period(q) else 0) <= Level(q, c, now)
  {
  }

  /** What passes between two moments is at most what the cell held and what flowed in. */
  lemma {:induction false} PassedAtMost(q: Quota, c: Cell, calls: seq<Call>, start: int, end: int)
    requires Within(calls, start, end)
    ensures start <= end
    ensures Passed(q, c, calls) * Period(q) <= Level(q, c, start) + q.n * (end - start)
    decreases |calls|
  {
    if calls == [] {
      TimesMore(q.n, 0, end - start);
    } else {
      var now, tokens := calls[0].now, calls[0].tokens;
      var (next, ok) := Charge(q, c, tokens, now);
      PassedAtMost(q, next, calls[1..], now, end);
      PassedCons(q, c, calls);
      ChargeTakes(q, c, tokens, now);
      LevelFlows(q, c, start, now);
      Times(q.n, now - start, end - now);
      Times(Period(q), if ok then tokens else 0, Passed(q, next, calls[1..]));
    }
  }

  /** The most that a full cell can pass within a duration: its size, and what flows in. */
  function Most(q: Quota, duration: nat): nat {
    q.n + q.n * duration / Period(q)
  }

  lemma {:induction false} QuotientAtLeast(a: nat, x: nat, p: nat)
    requires p > 0 && a * p <= x
    ensures a <= x / p
  {
    assert x == p * (x / p) + x % p;
    if a > x / p { TimesMore(p, x / p + 1, a); }
  }

  lemma {:induction false} QuotientMore(n: nat, x: nat, p: nat)
    requires p > 0
    ensures (n * p + x) / p == n + x / p
  {
    var k := n + x / p;
    assert x == p * (x / p) + x % p;
    Times(p, n, x / p);
    QuotientAtLeast(k, n * p + x, p);
    var j := (n * p + x) / p;
    assert n * p + x == p * j + (n * p + x) % p;
    if j > k {
      TimesMore(p, k + 1, j);
      Times(p, k, 1);
    }
  }

  lemma {:induction false} QuotientBound(a: nat, n: nat, x: nat, p: nat)
    requires p > 0 && a * p <= n * p + x
    ensures a <= n + x / p
  {
    QuotientAtLeast(a, n * p + x, p);
    QuotientMore(n, x, p);
  }

  lemma {:induction false} FullPassesAtMost(q: Quota, calls: seq<Call>, start: int, duration: nat)
    requires Within(calls, start, start + duration)
    ensures Passed(q, Full, calls) <= Most(q, duration)
  {
    PassedAtMost(q, Full, calls, start, start + duration);
    assert Level(q, Full, start) == q.n * Period(q) && start + duration - start == duration;
    QuotientBound(Passed(q, Full, calls), q.n, q.n * duration, Period(q));
  }

  // ----- the bound is reached -----

  /** All tokens of the quota at once, and again after each period, and what has flowed in at the end. */
  function Greedy(q: Quota, start: int, duration: nat): seq<Call>
    decreases duration
  {
    var p := Period(q);
    [Call("", "", "", q.n, start)]
    + if duration < p then [Call("", "", "", q.n * duration / p, start + duration)]
      else Greedy(q, start + p, duration - p)
  }

  lemma {:induction false} MostCons(q: Quota, duration: nat)
    requires duration >= Period(q)
    ensures Most(q, duration) == q.n + Most(q, duration - Period(q))
  {
    Times(q.n, Period(q), duration - Period(q));
    QuotientMore(q.n, q.n * (duration - Period(q)), Period(q));
  }

  /** What has flowed in since the cell was emptied can be taken. */
  lemma {:induction false} RestPasses(q: Quota, start: int, duration: nat)
    requires duration < Period(q)
    ensures Passed(q, Left(0, start), [Call("", "", "", q.n * duration / Period(q), start + duration)])
         == q.n * duration / Period(q)
  {
    var p := Period(q);
    var last := Call("", "", "", q.n * duration / p, start + duration);
    TimesMore(q.n, duration, p);
    assert q.n * duration == p * (q.n * duration / p) + q.n * duration % p;
    PassedCons(q, Left(0, start), [last]);
    assert [last][1..] == [];
  }

  lemma {:induction false} GreedyPasses(q: Quota, c: Cell, start: int, duration: nat)
    requires Level(q, c, start) == q.n * Period(q)
    ensures Passed(q, c, Greedy(q, start, duration)) == Most(q, duration)
    ensures Within(Greedy(q, start, duration), start, start + duration)
    decreases duration
  {
    var calls, p := Greedy(q, start, duration), Period(q);
    PassedCons(q, c, calls);
    if duration < p {
      RestPasses(q, start, duration);
      assert calls[1..] == [Call("", "", "", q.n * duration / p, start + duration)] && calls[1..][1..] == [];
    } else {
      assert calls[1..] == Greedy(q, start + p, duration - p);
      GreedyPasses(q, Left(0, start), start + p, duration - p);
      MostCons(q, duration);
      WithinStarts(calls[1..], start, p, start + duration);
    }
  }

  lemma {:induction false} WithinStarts(calls: seq<Call>, start: int, p: nat, end: int)
    requires Within(calls, start + p, end)
    ensures Within(calls, start, end)
  {
  }

  /** Over any duration from a full cell: the most that passes, exactly. */
  lemma {:induction false} MostThatPasses(q: Quota, start: int, duration: nat, most: nat)
    ensures (forall calls :: Within(calls, start, start + duration) ==> Passed(q, Full, calls) <= most)
       <==> Most(q, duration) <= most
  {
    GreedyPasses(q, Full, start, duration);
    if Most(q, duration) <= most {
      forall calls | Within(calls, start, start + duration) ensures Passed(q, Full, calls) <= most {
        FullPassesAtMost(q, calls, start, duration);
      }
    }
  }

  // ----- configured limits -----

  /** The most that passes in this many seconds under a limit, from a full cell. */
  function MostOf(limit: Limit, seconds: nat): nat
    requires limit.tokens > 0
  {
    match limit.unit
    case Second => limit.tokens + limit.tokens * seconds
    case Minute => limit.tokens + limit.tokens * seconds / 60
    case Hour => limit.tokens + limit.tokens * seconds / 3600
    case Day => if limit.tokens < 24 then 1 + seconds / 3600
                else limit.tokens / 24 + limit.tokens / 24 * seconds / 3600
  }

  /** A limit per second, minute or hour is its burst and its rate; one per day is an hourly one. */
  lemma {:induction false} LimitInTime(limit: Limit, start: int, seconds: nat, most: nat)
    requires limit.tokens > 0
    ensures (forall calls :: Within(calls, start, start + seconds) ==> Passed(GetQuota(limit), Full, calls) <= most)
       <==> MostOf(limit, seconds) <= most
  {
    MostThatPasses(GetQuota(limit), start, seconds, most);
  }

  // ----- daily limits -----

  /** At most the limit passes from `start` on, with both end points. */
  ghost predicate Keeps(limit: Limit, start: int, duration: nat)
    requires limit.tokens > 0
  {
    forall calls :: Within(calls, start, start + duration) ==> Passed(GetQuota(limit), Full, calls) <= limit.tokens
  }

  /**
   A daily limit becomes an hourly quota. It is kept over every day of 86400 seconds that starts with
   a full cell iff it has at least one token per hour, and its remainder and one more cover the burst;
   so 48 tokens a day let 49 pass, and no limit from 600 tokens on is kept.
   */
  lemma {:induction false} DailyLimitIff(limit: Limit, start: int)
    requires limit.unit.Day? && limit.tokens > 0
    ensures Keeps(limit, start, 24 * 3600 - 1) <==> limit.tokens >= 24 && limit.tokens / 24 <= limit.tokens % 24 + 1
  {
    var n := GetQuota(limit).n;
    MostThatPasses(GetQuota(limit), start, 24 * 3600 - 1, limit.tokens);
    assert limit.tokens == 24 * (limit.tokens / 24) + limit.tokens % 24;
    DayFlow(n);
  }

  lemma {:induction false} DayFlow(n: nat)
    requires n > 0
    ensures 24 * n - 1 - n / 3600 <= n * (24 * 3600 - 1) / 3600 <= 24 * n - 1
  {
    assert n * (24 * 3600 - 1) == 3600 * (24 * n) - n;
  }

  /** Over 24 hours with both end points the remainder has to cover the burst: the limit of 24 is not kept. */
  lemma {:induction false} ClosedDayIff(limit: Limit, start: int)
    requires limit.unit.Day? && limit.tokens > 0
    ensures Keeps(limit, start, 24 * 3600) <==> limit.tokens >= 24 && limit.tokens / 24 <= limit.tokens % 24
  {
    var n := GetQuota(limit).n;
    MostThatPasses(GetQuota(limit), start, 24 * 3600, limit.tokens);
    assert n * (24 * 3600) == 3600 * (24 * n);
  }

  /** The cell of a configured bucket is such a cell: end to end, from the configuration to what passes. */
  lemma {:induction false} ConfiguredDay(configs: seq<Ratelimit>, store: Store<Cell>, calls: seq<Call>, b: Bucket,
      start: int, duration: nat)
    requires Build(map[], configs) == Some(store) && FirstLimit(configs, b.model, b.selector).Some?
    requires Within(CallsFor(store, calls, Some(b)), start, start + duration)
    ensures var mine := CallsFor(store, calls, Some(b));
            && |Decisions(TokenBucket, store, calls, Some(b))| == |mine|
            && Admitted(mine, Decisions(TokenBucket, store, calls, Some(b)))
               <= Most(FirstLimit(configs, b.model, b.selector).value, duration)
  {
    var quota, mine := FirstLimit(configs, b.model, b.selector).value, CallsFor(store, calls, Some(b));
    ConfiguredLimits(TokenBucket, configs, store, calls, b);
    RunLength(quota, Full, mine);
    FullPassesAtMost(quota, mine, start, duration);
  }
}
