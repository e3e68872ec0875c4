/** What a lookup in the provider index says about the configuration list (crates/common/src/llm_providers.rs). */
module ProviderLookup {
  import opened Wrappers
  import opened Collections
  import opened Strings
  import opened LlmProviders

  // ----- which configurations are accepted -----

  ghost predicate OneDefault(config: seq<Provider>) {
    forall i, j :: 0 <= i < j < |config| ==> !(config[i].default == Some(true) && config[j].default == Some(true))
  }

  ghost predicate DistinctSpecific(config: seq<Provider>) {
    forall i, j :: 0 <= i < j < |config| && !IsWildcard(config[i]) && !IsWildcard(config[j]) ==>
        config[i].name != config[j].name
  }

  ghost function SpecificNames(config: seq<Provider>): set<string> {
    set e | e in config && !IsWildcard(e) :: e.name
  }

  lemma {:induction false} SpecificNamesMore(config: seq<Provider>, c: Provider)
    ensures SpecificNames(config + [c]) == SpecificNames(config) + if IsWildcard(c) then {} else {c.name}
  {
  }

  lemma {:induction false} BuildNames(config: seq<Provider>, excl: map<string, set<string>>, catalogue: Catalogue)
    requires Build(config, excl, catalogue).Ok?
    ensures Build(config, excl, catalogue).value.names == SpecificNames(config)
    decreases |config|
  {
    if config != [] {
      var n := |config| - 1;
      BuildNames(config[..n], excl, catalogue);
      SpecificNamesMore(config[..n], config[n]);
      assert config == config[..n] + [config[n]];
    }
  }

  ghost predicate IsDefaultOf(config: seq<Provider>, d: Option<Provider>) {
    && (d.Some? <==> exists e :: e in config && e.default == Some(true))
    && (d.Some? ==> d.value in config && d.value.default == Some(true))
  }

  lemma {:induction false} DefaultMore(config: seq<Provider>, d: Option<Provider>, c: Provider)
    requires IsDefaultOf(config, d) && !(c.default == Some(true) && d.Some?)
    ensures IsDefaultOf(config + [c], if c.default == Some(true) then Some(c) else d)
  {
    assert forall e :: e in config + [c] <==> e in config || e == c;
  }

  lemma {:induction false} BuildMore(config: seq<Provider>, excl: map<string, set<string>>, catalogue: Catalogue)
      returns (d: Option<Provider>)
    requires config != [] && Build(config, excl, catalogue).Ok?
    ensures var n := |config| - 1;
            && Build(config[..n], excl, catalogue).Ok? && d == Build(config[..n], excl, catalogue).value.index.default
            && !(config[n].default == Some(true) && d.Some?)
            && Build(config, excl, catalogue).value.index.default == if config[n].default == Some(true)
                then Some(config[n]) else d
  {
    d := Build(config[..|config| - 1], excl, catalogue).value.index.default;
  }

  lemma {:induction false} BuildDefault(config: seq<Provider>, excl: map<string, set<string>>, catalogue: Catalogue)
    requires Build(config, excl, catalogue).Ok?
    ensures IsDefaultOf(config, Build(config, excl, catalogue).value.index.default)
    decreases |config|
  {
    if config != [] {
      var n := |config| - 1;
      var d := BuildMore(config, excl, catalogue);
      BuildDefault(config[..n], excl, catalogue);
      DefaultMore(config[..n], d, config[n]);
      assert config == config[..n] + [config[n]];
    }
  }

  lemma {:induction false} BuildAcceptsIff(config: seq<Provider>, excl: map<string, set<string>>, catalogue: Catalogue)
    ensures Build(config, excl, catalogue).Ok? <==> OneDefault(config) && DistinctSpecific(config)
    decreases |config|
  {
    if config != [] {
      var n := |config| - 1;
      BuildAcceptsIff(config[..n], excl, catalogue);
      assert config == config[..n] + [config[n]];
      AcceptStep(config[..n], config[n]);
      if Build(config[..n], excl, catalogue).Ok? {
        BuildNames(config[..n], excl, catalogue);
        BuildDefault(config[..n], excl, catalogue);
      }
    }
  }

  lemma {:induction false} AcceptStep(config: seq<Provider>, c: Provider)
    ensures OneDefault(config + [c]) <==>
      OneDefault(config) && !(c.default == Some(true) && exists e :: e in config && e.default == Some(true))
    ensures DistinctSpecific(config + [c]) <==>
      DistinctSpecific(config) && (IsWildcard(c) || c.name !in SpecificNames(config))
  {
    var all := config + [c];
    assert forall i :: 0 <= i < |config| ==> all[i] == config[i];
    if OneDefault(all) && c.default == Some(true) {
      forall e | e in config ensures e.default != Some(true) {
        var i :| 0 <= i < |config| && config[i] == e;
        assert all[i] == e && all[|config|] == c;
      }
    }
    if DistinctSpecific(all) && !IsWildcard(c) {
      forall e | e in config && !IsWildcard(e) ensures e.name != c.name {
        var i :| 0 <= i < |config| && config[i] == e;
        assert all[i] == e && all[|config|] == c;
      }
    }
  }

  /**
   A configuration is accepted iff it is not empty, has at most one default, and no two specific
   entries share a name.
   */
  lemma {:induction false} AcceptedIff(config: seq<Provider>, catalogue: Catalogue)
    ensures TryFrom(config, catalogue).Ok? <==> config != [] && OneDefault(config) && DistinctSpecific(config)
  {
    BuildAcceptsIff(config, Exclusions(config), catalogue);
  }

  // ----- the last writer -----

  /** What the last insertion under `k` writes. */
  function LastOf(ps: seq<(string, Provider)>, k: string): Option<Provider> {
    if ps == [] then None
    else if ps[|ps| - 1].0 == k then Some(ps[|ps| - 1].1)
    else LastOf(ps[..|ps| - 1], k)
  }

  lemma {:induction false} LastOfCons(p: (string, Provider), ps: seq<(string, Provider)>, k: string)
    ensures LastOf([p] + ps, k) == if LastOf(ps, k).Some? then LastOf(ps, k) else if p.0 == k then Some(p.1) else None
  {
    var all := [p] + ps;
    if ps != [] {
      assert all[..|all| - 1] == [p] + ps[..|ps| - 1];
      LastOfCons(p, ps[..|ps| - 1], k);
    }
  }

  lemma {:induction false} InsertAllLookup(m: map<string, Provider>, ps: seq<(string, Provider)>, k: string)
    ensures MapGet(InsertAll(m, ps), k) == if LastOf(ps, k).Some? then LastOf(ps, k) else MapGet(m, k)
    decreases ps
  {
    if ps != [] {
      InsertAllLookup(m[ps[0].0 := ps[0].1], ps[1..], k);
      assert ps == [ps[0]] + ps[1..];
      LastOfCons(ps[0], ps[1..], k);
    }
  }

  /** What entry `p` of the configuration writes under `k`. */
  function Writes(p: Provider, excl: map<string, set<string>>, catalogue: Catalogue, k: string): Option<Provider> {
    LastOf(Insertions(p, excl, catalogue), k)
  }

  /** What the last entry that writes under `k` writes. */
  function LastWriter(config: seq<Provider>, excl: map<string, set<string>>, catalogue: Catalogue,
      k: string): Option<Provider> {
    if config == [] then None
    else
      var n := |config| - 1;
      var w := Writes(config[n], excl, catalogue, k);
      if w.Some? then w else LastWriter(config[..n], excl, catalogue, k)
  }

  function LastWildcard(config: seq<Provider>, prefix: string): Option<Provider> {
    if config == [] then None
    else
      var n := |config| - 1;
      if IsWildcard(config[n]) && WildcardPrefix(config[n]) == prefix then Some(config[n])
          else LastWildcard(config[..n], prefix)
  }

  lemma {:induction false} BuildLookup(config: seq<Provider>, excl: map<string, set<string>>, catalogue: Catalogue,
      k: string)
    requires Build(config, excl, catalogue).Ok?
    ensures var ix := Build(config, excl, catalogue).value.index;
            && MapGet(ix.providers, k) == LastWriter(config, excl, catalogue, k)
            && MapGet(ix.wildcards, k) == LastWildcard(config, k)
    decreases |config|
  {
    if config != [] {
      var n := |config| - 1;
      BuildLookup(config[..n], excl, catalogue, k);
      var ix := Build(config[..n], excl, catalogue).value.index;
      InsertAllLookup(ix.providers, Insertions(config[n], excl, catalogue), k);
    }
  }

  /** In an accepted configuration every key belongs to the last entry that writes it. */
  lemma {:induction false} LastWriterWins(config: seq<Provider>, catalogue: Catalogue, k: string)
    requires TryFrom(config, catalogue).Ok?
    ensures var ix := TryFrom(config, catalogue).value;
            && MapGet(ix.providers, k) == LastWriter(config, Exclusions(config), catalogue, k)
            && MapGet(ix.wildcards, k) == LastWildcard(config, k)
  {
    BuildLookup(config, Exclusions(config), catalogue, k);
  }

  // ----- order does not matter without collisions -----

  ghost predicate SharedKey(p: Provider, q: Provider, excl: map<string, set<string>>, catalogue: Catalogue) {
    exists k :: Writes(p, excl, catalogue, k).Some? && Writes(q, excl, catalogue, k).Some?
  }

  predicate SamePrefix(p: Provider, q: Provider) {
    IsWildcard(p) && IsWildcard(q) && WildcardPrefix(p) == WildcardPrefix(q)
  }

  /** No two different entries write the same key or are wildcards for the same prefix. */
  ghost predicate NoCollisions(config: seq<Provider>, catalogue: Catalogue) {
    forall p, q :: p in config && q in config && p != q ==>
      !SharedKey(p, q, Exclusions(config), catalogue) && !SamePrefix(p, q)
  }

  /** A unique writer is the last one. */
  lemma {:induction false} UniqueWriter(config: seq<Provider>, excl: map<string, set<string>>, catalogue: Catalogue,
      k: string, p: Provider)
    requires p in config && Writes(p, excl, catalogue, k).Some?
    requires forall q :: q in config && q != p ==> Writes(q, excl, catalogue, k).None?
    ensures LastWriter(config, excl, catalogue, k) == Writes(p, excl, catalogue, k)
    decreases |config|
  {
    var n := |config| - 1;
    assert config == config[..n] + [config[n]];
    if config[n] != p {
      assert config[n] in config;
      UniqueWriter(config[..n], excl, catalogue, k, p);
    }
  }

  lemma {:induction false} SomeWriter(config: seq<Provider>, excl: map<string, set<string>>, catalogue: Catalogue,
      k: string)
    ensures LastWriter(config, excl, catalogue, k).Some? <==>
        exists p :: p in config && Writes(p, excl, catalogue, k).Some?
    decreases |config|
  {
    if config != [] {
      var n := |config| - 1;
      assert config == config[..n] + [config[n]];
      SomeWriter(config[..n], excl, catalogue, k);
    }
  }

  lemma {:induction false} UniqueWildcard(config: seq<Provider>, prefix: string, p: Provider)
    requires p in config && IsWildcard(p) && WildcardPrefix(p) == prefix
    requires forall q :: q in config && q != p ==> !(IsWildcard(q) && WildcardPrefix(q) == prefix)
    ensures LastWildcard(config, prefix) == Some(p)
    decreases |config|
  {
    var n := |config| - 1;
    assert config == config[..n] + [config[n]];
    if config[n] != p { UniqueWildcard(config[..n], prefix, p); }
  }

  lemma {:induction false} SomeWildcard(config: seq<Provider>, prefix: string)
    ensures LastWildcard(config, prefix).Some? <==>
        exists p :: p in config && IsWildcard(p) && WildcardPrefix(p) == prefix
    decreases |config|
  {
    if config != [] {
      var n := |config| - 1;
      assert config == config[..n] + [config[n]];
      SomeWildcard(config[..n], prefix);
    }
  }

  /** The exclusions, and so the insertions of an entry, depend only on the set of entries. */
  lemma {:induction false} SameInsertions(a: seq<Provider>, b: seq<Provider>, catalogue: Catalogue, p: Provider)
    requires forall e :: e in a <==> e in b
    ensures Insertions(p, Exclusions(a), catalogue) == Insertions(p, Exclusions(b), catalogue)
  {
    var prefix := WildcardPrefix(p);
    forall m ensures m in ExcludedFor(Exclusions(a), prefix) <==> m in ExcludedFor(Exclusions(b), prefix) {
      ExcludedIff(a, prefix, m);
      ExcludedIff(b, prefix, m);
    }
    assert ExcludedFor(Exclusions(a), prefix) == ExcludedFor(Exclusions(b), prefix);
  }

  lemma {:induction false} SameLastWriter(a: seq<Provider>, b: seq<Provider>, catalogue: Catalogue, k: string)
    requires (forall e :: e in a <==> e in b) && NoCollisions(a, catalogue)
    ensures LastWriter(a, Exclusions(a), catalogue, k) == LastWriter(b, Exclusions(b), catalogue, k)
  {
    var xa, xb := Exclusions(a), Exclusions(b);
    forall p ensures Writes(p, xa, catalogue, k) == Writes(p, xb, catalogue, k) {
      SameInsertions(a, b, catalogue, p);
    }
    SomeWriter(a, xa, catalogue, k);
    SomeWriter(b, xb, catalogue, k);
    if p :| p in a && Writes(p, xa, catalogue, k).Some? {
      OnlyWriter(a, catalogue, k, p);
      UniqueWriter(a, xa, catalogue, k, p);
      UniqueWriter(b, xb, catalogue, k, p);
    }
  }

  lemma {:induction false} OnlyWriter(a: seq<Provider>, catalogue: Catalogue, k: string, p: Provider)
    requires NoCollisions(a, catalogue) && p in a && Writes(p, Exclusions(a), catalogue, k).Some?
    ensures forall q :: q in a && q != p ==> Writes(q, Exclusions(a), catalogue, k).None?
  {
    forall q | q in a && q != p ensures Writes(q, Exclusions(a), catalogue, k).None? {
      assert !SharedKey(p, q, Exclusions(a), catalogue);
    }
  }

  lemma {:induction false} SameLastWildcard(a: seq<Provider>, b: seq<Provider>, catalogue: Catalogue, k: string)
    requires (forall e :: e in a <==> e in b) && NoCollisions(a, catalogue)
    ensures LastWildcard(a, k) == LastWildcard(b, k)
  {
    SomeWildcard(a, k);
    SomeWildcard(b, k);
    if p :| p in a && IsWildcard(p) && WildcardPrefix(p) == k {
      assert forall q :: q in a && q != p ==> !SamePrefix(p, q);
      UniqueWildcard(a, k, p);
      UniqueWildcard(b, k, p);
    }
  }

  lemma {:induction false} ReorderedDefaults(a: seq<Provider>, b: seq<Provider>)
    requires multiset(a) == multiset(b) && OneDefault(b)
    ensures OneDefault(a)
  {
    forall i, j | 0 <= i < j < |a| ensures !(a[i].default == Some(true) && a[j].default == Some(true)) {
      var p, q := Counterparts(a, b, i, j);
    }
  }

  lemma {:induction false} ReorderedNames(a: seq<Provider>, b: seq<Provider>)
    requires multiset(a) == multiset(b) && DistinctSpecific(b)
    ensures DistinctSpecific(a)
  {
    forall i, j | 0 <= i < j < |a| && !IsWildcard(a[i]) && !IsWildcard(a[j]) ensures a[i].name != a[j].name {
      var p, q := Counterparts(a, b, i, j);
    }
  }

  /** Whether a configuration is accepted does not depend on its order. */
  lemma {:induction false} AcceptanceIgnoresOrder(a: seq<Provider>, b: seq<Provider>, catalogue: Catalogue)
    requires multiset(a) == multiset(b)
    ensures TryFrom(a, catalogue).Ok? <==> TryFrom(b, catalogue).Ok?
  {
    AcceptedIff(a, catalogue);
    AcceptedIff(b, catalogue);
    assert |a| == |multiset(a)| == |multiset(b)| == |b|;
    if OneDefault(b) { ReorderedDefaults(a, b); }
    if OneDefault(a) { ReorderedDefaults(b, a); }
    if DistinctSpecific(b) { ReorderedNames(a, b); }
    if DistinctSpecific(a) { ReorderedNames(b, a); }
  }

  /** Without collisions, any reordering of the configuration answers every lookup alike. */
  lemma {:induction false} OrderIrrelevant(a: seq<Provider>, b: seq<Provider>, catalogue: Catalogue, name: string)
    requires multiset(a) == multiset(b) && NoCollisions(a, catalogue) && TryFrom(a, catalogue).Ok?
    ensures TryFrom(b, catalogue).Ok?
    ensures Get(TryFrom(a, catalogue).value, name) == Get(TryFrom(b, catalogue).value, name)
    ensures TryFrom(a, catalogue).value.default == TryFrom(b, catalogue).value.default
  {
    AcceptanceIgnoresOrder(a, b, catalogue);
    SameEntries(a, b);
    var ia, ib := TryFrom(a, catalogue).value, TryFrom(b, catalogue).value;
    forall k
      ensures MapGet(ia.providers, k) == MapGet(ib.providers, k)
      ensures MapGet(ia.wildcards, k) == MapGet(ib.wildcards, k)
    {
      SameLastWriter(a, b, catalogue, k);
      SameLastWildcard(a, b, catalogue, k);
      LastWriterWins(a, catalogue, k);
      LastWriterWins(b, catalogue, k);
    }
    SameGet(ia, ib, name);
    SameDefault(a, b, catalogue);
  }

  lemma {:induction false} SameEntries(a: seq<Provider>, b: seq<Provider>)
    requires multiset(a) == multiset(b)
    ensures forall e :: e in a <==> e in b
  {
    forall e ensures e in a <==> e in b {
      assert e in a <==> e in multiset(a);
      assert e in b <==> e in multiset(b);
    }
  }

  lemma {:induction false} SameGet(ia: Index, ib: Index, name: string)
    requires forall k :: MapGet(ia.providers, k) == MapGet(ib.providers, k)
    requires forall k :: MapGet(ia.wildcards, k) == MapGet(ib.wildcards, k)
    ensures Get(ia, name) == Get(ib, name)
  {
    assert MapGet(ia.providers, name) == MapGet(ib.providers, name);
    var split := SplitOnce(name);
    if split.Some? {
      assert MapGet(ia.providers, split.value.1) == MapGet(ib.providers, split.value.1);
      assert MapGet(ia.wildcards, split.value.0) == MapGet(ib.wildcards, split.value.0);
    }
  }

  lemma {:induction false} SameDefault(a: seq<Provider>, b: seq<Provider>, catalogue: Catalogue)
    requires (forall e :: e in a <==> e in b) && TryFrom(a, catalogue).Ok? && TryFrom(b, catalogue).Ok?
    ensures TryFrom(a, catalogue).value.default == TryFrom(b, catalogue).value.default
  {
    BuildAcceptsIff(a, Exclusions(a), catalogue);
    BuildDefault(a, Exclusions(a), catalogue);
    BuildDefault(b, Exclusions(b), catalogue);
    var da, db := TryFrom(a, catalogue).value.default, TryFrom(b, catalogue).value.default;
    if da.Some? && db.Some? {
      var i :| 0 <= i < |a| && a[i] == da.value;
      var j :| 0 <= j < |a| && a[j] == db.value;
      assert i == j;
    }
  }

  // ----- a specific entry beats the wildcard of its provider -----

  ghost predicate SlashFree(catalogue: Catalogue) {
    forall prefix :: catalogue(prefix).Some? ==> forall m :: m in catalogue(prefix).value ==> '/' !in m
  }

  lemma {:induction false} ExpansionMisses(p: Provider, models: seq<string>, excluded: set<string>, name: string)
    requires SplitOnce(name).Some? && (WildcardPrefix(p) == SplitOnce(name).value.0 ==>
        SplitOnce(name).value.1 in excluded)
    requires forall m :: m in models ==> '/' !in m
    requires '/' !in WildcardPrefix(p)
    ensures LastOf(Expansion(p, models, excluded), name).None?
  {
    ExpansionWrites(p, models, excluded, name);
    forall m | m in models && m !in excluded ensures !KeyOf(WildcardPrefix(p), m, name) {
      SplitOfExpanded(WildcardPrefix(p), m);
      IndexOfFirst(m, '/');
    }
  }

  lemma {:induction false} SplitOfExpanded(prefix: string, m: string)
    requires '/' !in prefix
    ensures SplitOnce(prefix + "/" + m) == Some((prefix, m))
  {
    IndexOfAfter(prefix, '/', m);
    assert prefix + (['/'] + m) == prefix + "/" + m;
  }

  /**
   With catalogues of slash-free models, a specific entry "p/m" answers for its name whatever
   wildcards there are and wherever they stand, unless another specific entry writes that key.
   */
  lemma {:induction false} SpecificWins(config: seq<Provider>, catalogue: Catalogue, s: Provider)
    requires TryFrom(config, catalogue).Ok? && SlashFree(catalogue)
    requires s in config && !IsWildcard(s) && SplitOnce(s.name).Some?
    requires forall w :: w in config && IsWildcard(w) ==> '/' !in WildcardPrefix(w)
    requires forall q :: q in config && q != s && !IsWildcard(q) ==> q.model != Some(s.name)
    ensures Get(TryFrom(config, catalogue).value, s.name) == Some(s)
  {
    var excl := Exclusions(config);
    var (prefix, model) := SplitOnce(s.name).value;
    ExcludedIff(config, prefix, model);
    forall q | q in config && q != s ensures Writes(q, excl, catalogue, s.name).None? {
      if IsWildcard(q) {
        var models := catalogue(WildcardPrefix(q));
        if models.Some? {
          ExpansionMisses(q, models.value, ExcludedFor(excl, WildcardPrefix(q)), s.name);
        }
      } else {
        OtherSpecific(config, catalogue, s, q);
        SpecificWrites(q, excl, catalogue, s.name);
      }
    }
    SpecificWrites(s, excl, catalogue, s.name);
    UniqueWriter(config, excl, catalogue, s.name, s);
    LastWriterWins(config, catalogue, s.name);
  }

  lemma {:induction false} SpecificWrites(p: Provider, excl: map<string, set<string>>, catalogue: Catalogue, k: string)
    requires !IsWildcard(p)
    ensures Writes(p, excl, catalogue, k) == if k == p.name || p.model == Some(k) then Some(p) else None
  {
    var one := (p.name, p);
    var rest := if p.model.Some? then [(p.model.value, p)] else [];
    LastOfCons(one, rest, k);
    if p.model.Some? {
      LastOfCons((p.model.value, p), [], k);
      assert [(p.model.value, p)] + [] == [(p.model.value, p)];
    }
  }

  lemma {:induction false} OtherSpecific(config: seq<Provider>, catalogue: Catalogue, s: Provider, q: Provider)
    requires TryFrom(config, catalogue).Ok? && s in config && q in config && q != s && !IsWildcard(s) && !IsWildcard(q)
    ensures q.name != s.name
  {
    AcceptedIff(config, catalogue);
    var i :| 0 <= i < |config| && config[i] == s;
    var j :| 0 <= j < |config| && config[j] == q;
  }

  // ----- which names are found -----

  ghost predicate Written(config: seq<Provider>, catalogue: Catalogue, k: string) {
    exists p :: p in config && Writes(p, Exclusions(config), catalogue, k).Some?
  }

  ghost predicate HasWildcard(config: seq<Provider>, prefix: string) {
    exists w :: w in config && IsWildcard(w) && WildcardPrefix(w) == prefix
  }

  /**
   A name is found iff an entry writes it, or it has a slash and an entry writes what follows or is
   a wildcard for what precedes.
   */
  lemma {:induction false} FoundIff(config: seq<Provider>, catalogue: Catalogue, name: string)
    requires TryFrom(config, catalogue).Ok?
    ensures Get(TryFrom(config, catalogue).value, name).Some?
       <==> || Written(config, catalogue, name)
            || (SplitOnce(name).Some? &&
                (Written(config, catalogue, SplitOnce(name).value.1) || HasWildcard(config, SplitOnce(name).value.0)))
  {
    KeyWritten(config, catalogue, name);
    if SplitOnce(name).Some? {
      KeyWritten(config, catalogue, SplitOnce(name).value.1);
      PrefixKnown(config, catalogue, SplitOnce(name).value.0);
    }
  }

  lemma {:induction false} KeyWritten(config: seq<Provider>, catalogue: Catalogue, k: string)
    requires TryFrom(config, catalogue).Ok?
    ensures k in TryFrom(config, catalogue).value.providers <==> Written(config, catalogue, k)
  {
    LastWriterWins(config, catalogue, k);
    SomeWriter(config, Exclusions(config), catalogue, k);
  }

  lemma {:induction false} PrefixKnown(config: seq<Provider>, catalogue: Catalogue, prefix: string)
    requires TryFrom(config, catalogue).Ok?
    ensures prefix in TryFrom(config, catalogue).value.wildcards <==> HasWildcard(config, prefix)
  {
    LastWriterWins(config, catalogue, prefix);
    SomeWildcard(config, prefix);
  }

  /**
   A wildcard catches every model of its prefix; one that no entry writes is answered by the
   wildcard itself, asked for that model.
   */
  lemma {:induction false} WildcardCatchesAll(config: seq<Provider>, catalogue: Catalogue, w: Provider, m: string)
    requires TryFrom(config, catalogue).Ok? && w in config && IsWildcard(w) && '/' !in WildcardPrefix(w)
    ensures var name, ix := WildcardPrefix(w) + "/" + m, TryFrom(config, catalogue).value;
            && Get(ix, name).Some?
            && (!Written(config, catalogue, name) && !Written(config, catalogue, m) &&
                (forall v :: v in config && v != w && IsWildcard(v) ==> WildcardPrefix(v) != WildcardPrefix(w))
                ==> Get(ix, name) == Some(w.(model := Some(m))))
  {
    var prefix := WildcardPrefix(w);
    var name := prefix + "/" + m;
    SplitOfExpanded(prefix, m);
    FoundIff(config, catalogue, name);
    KeyWritten(config, catalogue, name);
    KeyWritten(config, catalogue, m);
    LastWriterWins(config, catalogue, prefix);
    if forall v :: v in config && v != w && IsWildcard(v) ==> WildcardPrefix(v) != prefix {
      UniqueWildcard(config, prefix, w);
    }
  }

  // ----- where order does matter -----

  /** A specific entry of the configuration is named for this model. */
  ghost predicate SpecificFor(config: seq<Provider>, prefix: string, m: string) {
    exists e :: e in config && !IsWildcard(e) && SplitOnce(e.name) == Some((prefix, m))
  }

  /** The keys of an entry: its name and model, or the models of its catalogue that no specific entry is named for. */
  ghost predicate WritesKey(config: seq<Provider>, catalogue: Catalogue, p: Provider, k: string) {
    if IsWildcard(p) then
      var prefix := WildcardPrefix(p);
      && catalogue(prefix).Some?
      && exists m :: m in catalogue(prefix).value && !SpecificFor(config, prefix, m) && KeyOf(prefix, m, k)
    else k == p.name || p.model == Some(k)
  }

  predicate KeyOf(prefix: string, m: string, k: string) {
    k == m || k == prefix + "/" + m
  }

  lemma {:induction false} ExpansionFirst(p: Provider, models: seq<string>, excluded: set<string>, k: string)
    requires models != []
    ensures var m, later := models[0], LastOf(Expansion(p, models[1..], excluded), k);
            LastOf(Expansion(p, models, excluded), k)
            == if later.Some? then later
               else if m !in excluded && KeyOf(WildcardPrefix(p), m, k) then Some(Expanded(p, m)) else None
  {
    var m, rest := models[0], Expansion(p, models[1..], excluded);
    if m in excluded {
      assert [] + rest == rest;
    } else {
      var one, two := (WildcardPrefix(p) + "/" + m, Expanded(p, m)), (m, Expanded(p, m));
      assert [one, two] + rest == [one] + ([two] + rest);
      LastOfCons(two, rest, k);
      LastOfCons(one, [two] + rest, k);
    }
  }

  ghost predicate ExpandsTo(models: seq<string>, excluded: set<string>, prefix: string, k: string) {
    exists m :: m in models && m !in excluded && KeyOf(prefix, m, k)
  }

  lemma {:induction false} ExpansionWrites(p: Provider, models: seq<string>, excluded: set<string>, k: string)
    ensures LastOf(Expansion(p, models, excluded), k).Some? <==> ExpandsTo(models, excluded, WildcardPrefix(p), k)
  {
    if models != [] {
      assert models == [models[0]] + models[1..];
      ExpansionFirst(p, models, excluded, k);
      ExpansionWrites(p, models[1..], excluded, k);
    }
  }

  lemma {:induction false} ExpansionValue(p: Provider, models: seq<string>, excluded: set<string>, k: string)
      returns (m: string)
    requires LastOf(Expansion(p, models, excluded), k).Some?
    ensures m in models && m !in excluded && KeyOf(WildcardPrefix(p), m, k)
    ensures LastOf(Expansion(p, models, excluded), k) == Some(Expanded(p, m))
  {
    ExpansionFirst(p, models, excluded, k);
    if LastOf(Expansion(p, models[1..], excluded), k).Some? {
      m := ExpansionValue(p, models[1..], excluded, k);
    } else {
      m := models[0];
    }
  }

  lemma {:induction false} WritesIff(config: seq<Provider>, catalogue: Catalogue, p: Provider, k: string)
    ensures Writes(p, Exclusions(config), catalogue, k).Some? <==> WritesKey(config, catalogue, p, k)
  {
    var excl, prefix := Exclusions(config), WildcardPrefix(p);
    if !IsWildcard(p) {
      SpecificWrites(p, excl, catalogue, k);
    } else if catalogue(prefix).Some? {
      ExpansionWrites(p, catalogue(prefix).value, ExcludedFor(excl, prefix), k);
      forall m ensures m in ExcludedFor(excl, prefix) <==> SpecificFor(config, prefix, m) {
        ExcludedIff(config, prefix, m);
      }
    }
  }

  /** Only prefixes without a slash name a provider with a catalogue. */
  ghost predicate KnownPrefixes(catalogue: Catalogue) {
    forall prefix :: catalogue(prefix).Some? ==> '/' !in prefix
  }

  /** A later entry never writes a specific entry itself. */
  lemma {:induction false} WritesAnother(config: seq<Provider>, catalogue: Catalogue, i: nat, j: nat, k: string)
    requires TryFrom(config, catalogue).Ok? && KnownPrefixes(catalogue)
    requires i < j < |config| && !IsWildcard(config[i])
    ensures Writes(config[j], Exclusions(config), catalogue, k) != Some(config[i])
  {
    var excl, prefix := Exclusions(config), WildcardPrefix(config[j]);
    if !IsWildcard(config[j]) {
      AcceptedIff(config, catalogue);
      SpecificWrites(config[j], excl, catalogue, k);
    } else if catalogue(prefix).Some? && Writes(config[j], excl, catalogue, k).Some? {
      var m := ExpansionValue(config[j], catalogue(prefix).value, ExcludedFor(excl, prefix), k);
      SplitOfExpanded(prefix, m);
      ExcludedIff(config, prefix, m);
      assert config[i] in config;
    }
  }

  /** What each entry writes under `k`. */
  ghost function AllWrites(config: seq<Provider>, excl: map<string, set<string>>, catalogue: Catalogue,
      k: string): (ws: seq<Option<Provider>>)
    ensures |ws| == |config| && forall i :: 0 <= i < |ws| ==> ws[i] == Writes(config[i], excl, catalogue, k)
  {
    seq(|config|, i requires 0 <= i < |config| => Writes(config[i], excl, catalogue, k))
  }

  lemma {:induction false} LastWriterIs(config: seq<Provider>, excl: map<string, set<string>>, catalogue: Catalogue,
      k: string)
    ensures LastWriter(config, excl, catalogue, k) == LastSome(AllWrites(config, excl, catalogue, k))
    decreases |config|
  {
    if config != [] {
      var n := |config| - 1;
      LastWriterIs(config[..n], excl, catalogue, k);
      assert AllWrites(config, excl, catalogue, k)[..n] == AllWrites(config[..n], excl, catalogue, k);
    }
  }

  /** The key of an entry stays its own iff no later entry writes the key, provided none writes that very entry. */
  lemma {:induction false} LastSomeKept<T>(ws: seq<Option<T>>, i: nat)
    requires i < |ws| && ws[i].Some? && forall j :: i < j < |ws| ==> ws[j] != ws[i]
    ensures LastSome(ws) == ws[i] <==> forall j :: i < j < |ws| ==> ws[j].None?
  {
    LastSomeIs(ws, i);
    var j := LastSomeAt(ws);
  }

  lemma {:induction false} GetLastWritten(config: seq<Provider>, catalogue: Catalogue, k: string,
      ws: seq<Option<Provider>>)
    requires TryFrom(config, catalogue).Ok? && ws == AllWrites(config, Exclusions(config), catalogue, k) &&
        LastSome(ws).Some?
    ensures Get(TryFrom(config, catalogue).value, k) == LastSome(ws)
  {
    LastWriterWins(config, catalogue, k);
    LastWriterIs(config, Exclusions(config), catalogue, k);
  }

  lemma {:induction false} LaterWrites(config: seq<Provider>, catalogue: Catalogue, i: nat, k: string,
      ws: seq<Option<Provider>>)
    requires TryFrom(config, catalogue).Ok? && KnownPrefixes(catalogue)
    requires ws == AllWrites(config, Exclusions(config), catalogue, k)
    requires i < |config| && !IsWildcard(config[i]) && WritesKey(config, catalogue, config[i], k)
    ensures ws[i] == Some(config[i])
    ensures forall j :: i < j < |ws| ==> ws[j] != ws[i]
    ensures (forall j :: i < j < |ws| ==> ws[j].None?) <==>
        forall j :: i < j < |config| ==> !WritesKey(config, catalogue, config[j], k)
  {
    SpecificWrites(config[i], Exclusions(config), catalogue, k);
    forall j | i < j < |ws| ensures ws[j] != ws[i] { WritesAnother(config, catalogue, i, j, k); }
    forall j | i < j < |ws| ensures ws[j].Some? <==> WritesKey(config, catalogue, config[j], k) {
      WritesIff(config, catalogue, config[j], k);
    }
  }

  /**
   A specific entry keeps a key that it writes, its name or its model, iff no later entry writes the
   key: no later specific entry with this name or model, and no later wildcard whose catalogue has
   it, unless a specific entry is named for that model.
   */
  lemma {:induction false} KeepsKeyIff(config: seq<Provider>, catalogue: Catalogue, i: nat, k: string)
    requires TryFrom(config, catalogue).Ok? && KnownPrefixes(catalogue)
    requires i < |config| && !IsWildcard(config[i]) && WritesKey(config, catalogue, config[i], k)
    ensures Get(TryFrom(config, catalogue).value, k) == Some(config[i])
       <==> forall j :: i < j < |config| ==> !WritesKey(config, catalogue, config[j], k)
  {
    var ws := AllWrites(config, Exclusions(config), catalogue, k);
    LaterWrites(config, catalogue, i, k, ws);
    LastSomeIs(ws, i);
    LastSomeKept(ws, i);
    GetLastWritten(config, catalogue, k, ws);
  }

  /**
   The bare model name of a specific entry is taken over by a wildcard that stands later, and not
   by one that stands earlier: specific entries do not take precedence for every key they write.
   */
  lemma {:induction false} BareNamesCollide(s: Provider, w: Provider, catalogue: Catalogue, m: string)
    requires !IsWildcard(s) && s.model == Some(m) && '/' !in s.name && s.default.None?
    requires IsWildcard(w) && catalogue(WildcardPrefix(w)) == Some([m]) && w.default.None?
    ensures TryFrom([s, w], catalogue).Ok? && TryFrom([w, s], catalogue).Ok?
    ensures Get(TryFrom([w, s], catalogue).value, m) == Some(s)
    ensures Get(TryFrom([s, w], catalogue).value, m) == Some(Expanded(w, m))
    ensures Expanded(w, m) != s
  {
    AcceptedIff([s, w], catalogue);
    AcceptedIff([w, s], catalogue);
    WildcardWritesBare([s, w], s, w, catalogue, m);
    LastAnswers([s], w, catalogue, m, Some(Expanded(w, m)));
    SpecificWrites(s, Exclusions([w, s]), catalogue, m);
    LastAnswers([w], s, catalogue, m, Some(s));
    assert [w] + [s] == [w, s] && [s] + [w] == [s, w];
    assert Expanded(w, m).name[|WildcardPrefix(w)|] == '/';
  }

  /** The last entry answers for a key that it writes. */
  lemma {:induction false} LastAnswers(init: seq<Provider>, last: Provider, catalogue: Catalogue, k: string,
      written: Option<Provider>)
    ensures TryFrom(init + [last], catalogue).Ok? && written.Some?
      && Writes(last, Exclusions(init + [last]), catalogue, k) == written
      ==> Get(TryFrom(init + [last], catalogue).value, k) == written
  {
    var config := init + [last];
    if TryFrom(config, catalogue).Ok? {
      LastWriterWins(config, catalogue, k);
    }
  }

  lemma {:induction false} WildcardWritesBare(config: seq<Provider>, s: Provider, w: Provider, catalogue: Catalogue,
      m: string)
    requires config == [s, w] && !IsWildcard(s) && IsWildcard(w) && '/' !in s.name
    requires catalogue(WildcardPrefix(w)) == Some([m])
    ensures Writes(w, Exclusions(config), catalogue, m) == Some(Expanded(w, m))
  {
    var excluded := ExcludedFor(Exclusions(config), WildcardPrefix(w));
    ExcludedIff(config, WildcardPrefix(w), m);
    IndexOfFirst(s.name, '/');
    assert SplitOnce(s.name).None?;
    assert m !in excluded;
    var e := Expanded(w, m);
    assert [m][1..] == [];
    assert Expansion(w, [m], excluded) == [(WildcardPrefix(w) + "/" + m, e), (m, e)] + [];
  }

  // ----- the provider that a wildcard stands in with -----

  /** The model of the catalogue that no specific entry is named for, under one of its two keys and no other's. */
  ghost predicate StandsIn(config: seq<Provider>, catalogue: Catalogue, w: Provider, m: string, k: string) {
    var prefix := WildcardPrefix(w);
    && IsWildcard(w) && catalogue(prefix).Some? && m in catalogue(prefix).value
    && !SpecificFor(config, prefix, m) && (k == m || k == prefix + "/" + m)
    && forall o :: o in catalogue(prefix).value && o != m ==> o != k && prefix + "/" + o != k
  }

  lemma {:induction false} WildcardWrites(config: seq<Provider>, catalogue: Catalogue, w: Provider, m: string,
      k: string)
    requires StandsIn(config, catalogue, w, m, k)
    ensures Writes(w, Exclusions(config), catalogue, k).Some?
    ensures var p := Writes(w, Exclusions(config), catalogue, k).value;
            p.model == Some(m) && p.name == WildcardPrefix(w) + "/" + m && p.default == w.default && p.rest == w.rest
  {
    var prefix, excl := WildcardPrefix(w), Exclusions(config);
    WritesIff(config, catalogue, w, k);
    assert KeyOf(prefix, m, k);
    assert WritesKey(config, catalogue, w, k);
    var o := ExpansionValue(w, catalogue(prefix).value, ExcludedFor(excl, prefix), k);
  }

  /**
   Asked for a model of a wildcard's catalogue, with or without the prefix, the index answers with the
   settings of the wildcard under the model's own name, if no later entry writes that key.
   */
  lemma {:induction false} WildcardStandsIn(config: seq<Provider>, catalogue: Catalogue, i: nat, m: string, k: string)
    requires TryFrom(config, catalogue).Ok? && i < |config| && StandsIn(config, catalogue, config[i], m, k)
    requires forall j :: i < j < |config| ==> !WritesKey(config, catalogue, config[j], k)
    ensures var w, found := config[i], Get(TryFrom(config, catalogue).value, k);
            found == Some(Provider(WildcardPrefix(w) + "/" + m, Some(m), w.default, w.rest))
  {
    var ws := AllWrites(config, Exclusions(config), catalogue, k);
    WildcardWrites(config, catalogue, config[i], m, k);
    forall j | i < j < |ws| ensures ws[j].None? { WritesIff(config, catalogue, config[j], k); }
    LastSomeIs(ws, i);
    GetLastWritten(config, catalogue, k, ws);
  }

  /** A wildcard is named by its prefix, a slash and a star. */
  lemma {:induction false} PrefixOfName(p: Provider, prefix: string)
    requires p.name == prefix + "/*" && '*' !in prefix
    ensures WildcardPrefix(p) == prefix
  {
    var n := |prefix|;
    assert |p.name| - |"/*"| == n && p.name[..n] == prefix && p.name[n..] == "/*";
    assert TrimEnd(p.name, "/*") == TrimEnd(prefix, "/*");
    NoStarAtEnd(prefix, "/*");
    NoStarAtEnd(prefix, "*");
  }

  lemma {:induction false} NoStarAtEnd(s: string, t: string)
    requires '*' !in s && t != [] && t[|t| - 1] == '*'
    ensures TrimEnd(s, t) == s
  {
    assert |t| <= |s| ==> s[|s| - |t|..][|t| - 1] == s[|s| - 1];
  }

  /** A single wildcard, asked for a model of its catalogue. */
  lemma {:induction false} OneWildcard(w: Provider, prefix: string, m: string, catalogue: Catalogue)
    requires w.name == prefix + "/*" && w.model == Some(prefix + "/*") && '*' !in prefix
    requires catalogue(prefix) == Some([m])
    ensures TryFrom([w], catalogue).Ok?
    ensures Get(TryFrom([w], catalogue).value, m) == Some(Provider(prefix + "/" + m, Some(m), w.default, w.rest))
    ensures Get(TryFrom([w], catalogue).value, prefix + "/" + m)
         == Some(Provider(prefix + "/" + m, Some(m), w.default, w.rest))
  {
    var model := w.model.value;
    assert model[|model| - 2..] == "/*";
    PrefixOfName(w, prefix);
    AcceptedIff([w], catalogue);
    WildcardStandsIn([w], catalogue, 0, m, m);
    WildcardStandsIn([w], catalogue, 0, m, prefix + "/" + m);
  }

  /** A wildcard's model is a star, alone or behind a slash. */
  lemma {:induction false} WildcardIff(p: Provider)
    ensures IsWildcard(p) <==> p.model == Some("*") || exists a :: p.model == Some(a + "/*")
  {
    if p.model.Some? {
      var m := p.model.value;
      forall a | m == a + "/*" ensures EndsWith(m, "/*") {
        assert |m| - |"/*"| == |a| && m[|a|..] == "/*";
      }
      if EndsWith(m, "/*") { assert m == m[..|m| - |"/*"|] + "/*"; }
    }
  }
}
