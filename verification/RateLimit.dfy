/** Token rate limits per provider and request header (crates/common/src/ratelimit.rs). */
module RateLimit {
  import opened Wrappers

  /** A selector; without a value it stands for every value of its key. */
  datatype Header = Header(key: string, value: Option<string>)

  datatype TimeUnit = Second | Minute | Hour | Day
  datatype Limit = Limit(tokens: nat, unit: TimeUnit)
  datatype Ratelimit = Ratelimit(model: string, selector: Header, limit: Limit)

  datatype Quota = PerSecond(n: nat) | PerMinute(n: nat) | PerHour(n: nat)

  /** The limiter library: the state of a cell that was never charged, and the charge of one cell. */
  datatype Solo<!L> = Solo(initial: Quota -> L, charge: (Quota, L, nat, int) -> (L, bool))

  /** A keyed limiter: one cell per key, created when first charged. */
  datatype Keyed<L> = Keyed(quota: Quota, cells: map<string, L>)

  type Store<L> = map<string, map<Header, Keyed<L>>>

  /** One check: the provider, the header the request carries, the tokens used, and the time. */
  datatype Call = Call(provider: string, key: string, value: string, tokens: nat, now: int)

  datatype Error = ExceededLimit(provider: string, key: string, value: string, tokens: nat)

  /** The cell that a call charges: the limits of a model, the selector, and the key within. */
  datatype Bucket = Bucket(model: string, selector: Header, key: string)

  function GetQuota(limit: Limit): Quota {
    match limit.unit
    case Second => PerSecond(limit.tokens)
    case Minute => PerMinute(limit.tokens)
    case Hour => PerHour(limit.tokens)
    case Day => PerHour(if limit.tokens / 24 < 1 then 1 else limit.tokens / 24)
  }

  // ----- building -----

  function Add<L>(store: Store<L>, config: Ratelimit): Store<L> {
    var limit := Keyed(GetQuota(config.limit), map[]);
    if config.model !in store then store[config.model := map[config.selector := limit]]
    else if config.selector in store[config.model] then store
    else store[config.model := store[config.model][config.selector := limit]]
  }

  /** None when a limit has no tokens, which panics. */
  function Build<L>(store: Store<L>, configs: seq<Ratelimit>): Option<Store<L>>
    decreases |configs|
  {
    if configs == [] then Some(store)
    else if configs[0].limit.tokens == 0 then None
    else Build(Add(store, configs[0]), configs[1..])
  }

  /** The quota that a selector of a model has. */
  function QuotaIn<L>(store: Store<L>, model: string, selector: Header): Option<Quota> {
    if model in store && selector in store[model] then Some(store[model][selector].quota) else None
  }

  /** The first limit configured for a selector of a model. */
  function FirstLimit(configs: seq<Ratelimit>, model: string, selector: Header): Option<Quota> {
    if configs == [] then None
    else if configs[0].model == model && configs[0].selector == selector then Some(GetQuota(configs[0].limit))
    else FirstLimit(configs[1..], model, selector)
  }

  // ----- checking -----

  function CellIn<L>(solo: Solo<L>, keyed: Keyed<L>, key: string): L {
    if key in keyed.cells then keyed.cells[key] else solo.initial(keyed.quota)
  }

  function CheckKey<L>(solo: Solo<L>, keyed: Keyed<L>, key: string, tokens: nat, now: int): (Keyed<L>, bool) {
    var (cell, ok) := solo.charge(keyed.quota, CellIn(solo, keyed, key), tokens, now);
    (keyed.(cells := keyed.cells[key := cell]), ok)
  }

  /**
   The bucket of a call: that of the specific selector, else the one of the header value under the
   generic selector.
   */
  function BucketOf<L>(store: Store<L>, call: Call): Option<Bucket> {
    if call.provider !in store then None
    else if Header(call.key, Some(call.value)) in store[call.provider]
    then Some(Bucket(call.provider, Header(call.key, Some(call.value)), ""))
    else if Header(call.key, None) in store[call.provider]
    then Some(Bucket(call.provider, Header(call.key, None), call.value))
    else None
  }

  predicate Has<L>(store: Store<L>, b: Bucket) {
    b.model in store && b.selector in store[b.model]
  }

  function Check<L>(solo: Solo<L>, store: Store<L>, call: Call): (Store<L>, bool) {
    var b := BucketOf(store, call);
    if b.None? then (store, true)
    else
      var limits := store[b.value.model];
      var (limit, ok) := CheckKey(solo, limits[b.value.selector], b.value.key, call.tokens, call.now);
      (store[b.value.model := limits[b.value.selector := limit]], ok)
  }

  class RatelimitMap<!L> {
    const solo: Solo<L>
    var datastore: Store<L>

    constructor (solo: Solo<L>)
      ensures this.solo == solo && datastore == map[]
    {
      this.solo, datastore := solo, map[];
    }

    /** Fills an empty map; `built` is false when a limit without tokens panics. */
    method New(configs: seq<Ratelimit>) returns (built: bool)
      requires datastore == map[]
      modifies this
      ensures built == Build<L>(map[], configs).Some?
      ensures built ==> datastore == Build(map[], configs).value
    {
      for i := 0 to |configs|
        invariant Build<L>(map[], configs) == Build(datastore, configs[i..])
      {
        var config := configs[i];
        if config.limit.tokens == 0 { return false; }
        var limit := Keyed(GetQuota(config.limit), map[]);
        if config.model in datastore {
          var limits := datastore[config.model];
          if config.selector !in limits {
            datastore := datastore[config.model := limits[config.selector := limit]];
          }
        } else {
          datastore := datastore[config.model := map[config.selector := limit]];
        }
      }
      built := true;
    }

    method CheckLimit(provider: string, key: string, value: string, tokens: nat, now: int)
        returns (r: Result<(), Error>)
      modifies this
      ensures datastore == Check(solo, old(datastore), Call(provider, key, value, tokens, now)).0
      ensures r == if Check(solo, old(datastore), Call(provider, key, value, tokens, now)).1 then Ok(())
          else Err(ExceededLimit(provider, key, value, tokens))
    {
      if provider !in datastore { return Ok(()); }
      var limits := datastore[provider];
      var selector, limitKey := Header(key, Some(value)), "";
      if selector !in limits {
        selector, limitKey := Header(key, None), value;
        if selector !in limits { return Ok(()); }
      }
      var (limit, ok) := CheckKey(solo, limits[selector], limitKey, tokens, now);
      datastore := datastore[provider := limits[selector := limit]];
      r := if ok then Ok(()) else Err(ExceededLimit(provider, key, value, tokens));
    }
  }

  // ----- what is built -----

  lemma {:induction false} QuotaAdded<L>(store: Store<L>, config: Ratelimit, model: string, selector: Header)
    ensures QuotaIn(Add(store, config), model, selector)
         == if QuotaIn(store, model, selector).Some? then QuotaIn(store, model, selector)
            else if config.model == model && config.selector == selector then Some(GetQuota(config.limit)) else None
  {
  }

  lemma {:induction false} QuotaBuilt<L>(store: Store<L>, configs: seq<Ratelimit>, model: string, selector: Header)
    requires Build(store, configs).Some?
    ensures QuotaIn(Build(store, configs).value, model, selector)
         == if QuotaIn(store, model, selector).Some? then QuotaIn(store, model, selector)
             else FirstLimit(configs, model, selector)
    decreases |configs|
  {
    if configs != [] {
      QuotaAdded(store, configs[0], model, selector);
      QuotaBuilt(Add(store, configs[0]), configs[1..], model, selector);
    }
  }

  ghost predicate Uncharged<L>(store: Store<L>) {
    forall model, selector :: model in store && selector in store[model] ==> store[model][selector].cells == map[]
  }

  lemma {:induction false} BuiltUncharged<L>(store: Store<L>, configs: seq<Ratelimit>)
    requires Uncharged(store) && Build(store, configs).Some?
    ensures Uncharged(Build(store, configs).value)
    decreases |configs|
  {
    if configs != [] { BuiltUncharged(Add(store, configs[0]), configs[1..]); }
  }

  /** Building panics iff some limit, even a duplicate that would be skipped, has no tokens. */
  lemma {:induction false} BuildPanicsIff<L>(store: Store<L>, configs: seq<Ratelimit>)
    ensures Build(store, configs).None? <==> exists config :: config in configs && config.limit.tokens == 0
    decreases |configs|
  {
    if configs != [] {
      assert configs == [configs[0]] + configs[1..];
      if configs[0].limit.tokens != 0 { BuildPanicsIff(Add(store, configs[0]), configs[1..]); }
    }
  }

  // ----- isolation -----

  function Cell<L>(solo: Solo<L>, store: Store<L>, b: Bucket): L
    requires Has(store, b)
  {
    CellIn(solo, store[b.model][b.selector], b.key)
  }

  /**
   The decisions of a run, in order, of the calls that fall into one bucket; None selects the calls
   that fall into no bucket.
   */
  function Decisions<L>(solo: Solo<L>, store: Store<L>, calls: seq<Call>, b: Option<Bucket>): seq<bool>
    decreases |calls|
  {
    if calls == [] then []
    else
      var (next, ok) := Check(solo, store, calls[0]);
      (if BucketOf(store, calls[0]) == b then [ok] else []) + Decisions(solo, next, calls[1..], b)
  }

  function After<L>(solo: Solo<L>, store: Store<L>, calls: seq<Call>): Store<L>
    decreases |calls|
  {
    if calls == [] then store else After(solo, Check(solo, store, calls[0]).0, calls[1..])
  }

  /** The calls for one bucket, going by what is configured alone. */
  function CallsFor<L>(store: Store<L>, calls: seq<Call>, b: Option<Bucket>): seq<Call> {
    if calls == [] then []
    else (if BucketOf(store, calls[0]) == b then [calls[0]] else []) + CallsFor(store, calls[1..], b)
  }

  /** A limiter with a single cell. */
  function SoloRun<L>(solo: Solo<L>, quota: Quota, cell: L, calls: seq<Call>): seq<bool>
    decreases |calls|
  {
    if calls == [] then []
    else
      var (next, ok) := solo.charge(quota, cell, calls[0].tokens, calls[0].now);
      [ok] + SoloRun(solo, quota, next, calls[1..])
  }

  /** A check charges its own bucket and changes nothing else: no other cell, no quota, no selector. */
  lemma {:induction false} CheckCharges<L>(solo: Solo<L>, store: Store<L>, call: Call, b: Bucket)
    requires Has(store, b)
    ensures var (next, ok) := Check(solo, store, call);
            && Has(next, b) && next[b.model][b.selector].quota == store[b.model][b.selector].quota
            && Cell(solo, next, b)
                 == if BucketOf(store, call) == Some(b)
                    then solo.charge(store[b.model][b.selector].quota, Cell(solo, store, b), call.tokens, call.now).0
                    else Cell(solo, store, b)
  {
  }

  lemma {:induction false} SameSelectors<L>(solo: Solo<L>, store: Store<L>, call: Call)
    ensures var next := Check(solo, store, call).0;
            && next.Keys == store.Keys
            && forall model :: model in store ==> next[model].Keys == store[model].Keys
  {
  }

  lemma {:induction false} SameBuckets<L>(a: Store<L>, b: Store<L>, calls: seq<Call>, bucket: Option<Bucket>)
    requires a.Keys == b.Keys && forall model :: model in a ==> a[model].Keys == b[model].Keys
    ensures CallsFor(a, calls, bucket) == CallsFor(b, calls, bucket)
  {
    if calls != [] {
      assert BucketOf(a, calls[0]) == BucketOf(b, calls[0]);
      SameBuckets(a, b, calls[1..], bucket);
    }
  }

  /**
   Over any timed run the decisions for a bucket are those of a single cell that sees only the calls
   for that bucket.
   */
  lemma {:induction false} Isolation<L>(solo: Solo<L>, store: Store<L>, calls: seq<Call>, b: Bucket)
    requires Has(store, b)
    ensures Decisions(solo, store, calls, Some(b))
         == SoloRun(solo, store[b.model][b.selector].quota, Cell(solo, store, b), CallsFor(store, calls, Some(b)))
    decreases |calls|
  {
    if calls != [] {
      var next := Check(solo, store, calls[0]).0;
      CheckCharges(solo, store, calls[0], b);
      SameSelectors(solo, store, calls[0]);
      SameBuckets(store, next, calls[1..], Some(b));
      Isolation(solo, next, calls[1..], b);
      var rest := CallsFor(store, calls[1..], Some(b));
      if BucketOf(store, calls[0]) == Some(b) {
        assert ([calls[0]] + rest)[1..] == rest;
      } else {
        assert [] + rest == rest;
      }
    }
  }

  /** Calls that match no selector always pass. */
  lemma {:induction false} UnmatchedPass<L>(solo: Solo<L>, store: Store<L>, calls: seq<Call>)
    ensures forall ok :: ok in Decisions(solo, store, calls, None) ==> ok
    decreases |calls|
  {
    if calls != [] { UnmatchedPass(solo, Check(solo, store, calls[0]).0, calls[1..]); }
  }

  /** The bucket of a call in terms of the configuration. */
  lemma {:induction false} BucketConfigured<L>(configs: seq<Ratelimit>, store: Store<L>, call: Call)
    requires Build(map[], configs) == Some(store)
    ensures var specific, generic := Header(call.key, Some(call.value)), Header(call.key, None);
            BucketOf(store, call)
            == if FirstLimit(configs, call.provider, specific).Some? then Some(Bucket(call.provider, specific, ""))
               else if FirstLimit(configs, call.provider, generic).Some?
                   then Some(Bucket(call.provider, generic, call.value))
               else None
  {
    QuotaBuilt<L>(map[], configs, call.provider, Header(call.key, Some(call.value)));
    QuotaBuilt<L>(map[], configs, call.provider, Header(call.key, None));
  }

  /**
   End to end: over any run from start-up, the decisions for a bucket are those of a fresh limiter
   with the first quota configured for its selector, fed the calls for that bucket.
   */
  lemma {:induction false} ConfiguredLimits<L>(solo: Solo<L>, configs: seq<Ratelimit>, store: Store<L>,
      calls: seq<Call>, b: Bucket)
    requires Build(map[], configs) == Some(store) && FirstLimit(configs, b.model, b.selector).Some?
    ensures var quota := FirstLimit(configs, b.model, b.selector).value;
            Decisions(solo, store, calls, Some(b)) == SoloRun(solo, quota, solo.initial(quota), CallsFor(store, calls,
                Some(b)))
  {
    QuotaBuilt<L>(map[], configs, b.model, b.selector);
    BuiltUncharged<L>(map[], configs);
    Isolation(solo, store, calls, b);
  }
}
