/**
 The provider index (crates/common/src/llm_providers.rs): a two-pass build that expands wildcard
 entries to the models of a catalogue, except those that are configured specifically.
 */
module LlmProviders {
  import opened Wrappers
  import opened Strings

  /** `rest` stands for the settings that the index does not look at. */
  datatype Provider = Provider(name: string, model: Option<string>, default: Option<bool>, rest: string)

  /** The models known for a provider prefix; None when the prefix names no provider. */
  type Catalogue = string -> Option<seq<string>>

  datatype Error = EmptySource | MoreThanOneDefault | DuplicateName(name: string)

  datatype Index = Index(
    providers: map<string, Provider>,
    default: Option<Provider>,
    wildcards: map<string, Provider>)

  // ----- names -----

  predicate EndsWith(s: string, t: string) {
    |t| <= |s| && s[|s| - |t|..] == t
  }

  /** The model is "*" or ends with a slash and a star. */
  predicate IsWildcard(p: Provider) {
    p.model.Some? && (p.model.value == "*" || EndsWith(p.model.value, "/*"))
  }

  /** Rust's `trim_end_matches`, for a non-empty pattern. */
  function TrimEnd(s: string, t: string): string
    requires t != []
    decreases |s|
  {
    if EndsWith(s, t) then TrimEnd(s[..|s| - |t|], t) else s
  }

  function WildcardPrefix(p: Provider): string {
    TrimEnd(TrimEnd(p.name, "/*"), "*")
  }

  /** `split_once('/')` */
  function SplitOnce(name: string): Option<(string, string)> {
    var i := IndexOf(name, '/');
    if i < |name| then Some((name[..i], name[i + 1..])) else None
  }

  lemma {:induction false} SplitJoins(name: string)
    ensures SplitOnce(name).Some? ==> SplitOnce(name).value.0 + "/" + SplitOnce(name).value.1 == name
  {
  }

  // ----- the first pass -----

  /** The specific models of each provider prefix. */
  function Exclusions(config: seq<Provider>): map<string, set<string>> {
    if config == [] then map[]
    else
      var n := |config| - 1;
      var m := Exclusions(config[..n]);
      var split := SplitOnce(config[n].name);
      if IsWildcard(config[n]) || split.None? then m
      else m[split.value.0 := ExcludedFor(m, split.value.0) + {split.value.1}]
  }

  function ExcludedFor(m: map<string, set<string>>, prefix: string): set<string> {
    if prefix in m then m[prefix] else {}
  }

  /** A model is excluded iff some specific entry is named for it. */
  lemma {:induction false} ExcludedIff(config: seq<Provider>, prefix: string, model: string)
    ensures model in ExcludedFor(Exclusions(config), prefix)
      <==> exists e :: e in config && !IsWildcard(e) && SplitOnce(e.name) == Some((prefix, model))
  {
    if config != [] {
      var n := |config| - 1;
      assert config == config[..n] + [config[n]];
      ExcludedIff(config[..n], prefix, model);
    }
  }

  // ----- what one entry adds -----

  /** The provider that a wildcard entry stands in for a model. */
  function Expanded(p: Provider, model: string): Provider {
    p.(model := Some(model), name := WildcardPrefix(p) + "/" + model)
  }

  /** One pair of insertions for each model that is not excluded. */
  function Expansion(p: Provider, models: seq<string>, excluded: set<string>): seq<(string, Provider)> {
    if models == [] then []
    else
      var m := models[0];
      (if m in excluded then []
       else [(WildcardPrefix(p) + "/" + m, Expanded(p, m)), (m, Expanded(p, m))])
      + Expansion(p, models[1..], excluded)
  }

  /** The insertions into `providers` that an entry makes, in order. */
  function Insertions(p: Provider, excl: map<string, set<string>>, catalogue: Catalogue): seq<(string, Provider)> {
    if IsWildcard(p) then
      var models := catalogue(WildcardPrefix(p));
      if models.None? then [] else Expansion(p, models.value, ExcludedFor(excl, WildcardPrefix(p)))
    else [(p.name, p)] + if p.model.Some? then [(p.model.value, p)] else []
  }

  function InsertAll(m: map<string, Provider>, ps: seq<(string, Provider)>): map<string, Provider>
    decreases ps
  {
    if ps == [] then m else InsertAll(m[ps[0].0 := ps[0].1], ps[1..])
  }

  // ----- the second pass -----

  datatype Building = Building(index: Index, names: set<string>)

  function AddEntry(b: Building, p: Provider, excl: map<string, set<string>>, catalogue: Catalogue)
      : Result<Building, Error>
  {
    if p.default == Some(true) && b.index.default.Some? then Err(MoreThanOneDefault)
    else
      var default := if p.default == Some(true) then Some(p) else b.index.default;
      var providers := InsertAll(b.index.providers, Insertions(p, excl, catalogue));
      if IsWildcard(p) then
        Ok(Building(Index(providers, default, b.index.wildcards[WildcardPrefix(p) := p]), b.names))
      else if p.name in b.names then Err(DuplicateName(p.name))
      else Ok(Building(Index(providers, default, b.index.wildcards), b.names + {p.name}))
  }

  function Build(config: seq<Provider>, excl: map<string, set<string>>, catalogue: Catalogue): Result<Building, Error> {
    if config == [] then Ok(Building(Index(map[], None, map[]), {}))
    else
      var n := |config| - 1;
      match Build(config[..n], excl, catalogue)
      case Err(e) => Err(e)
      case Ok(b) => AddEntry(b, config[n], excl, catalogue)
  }

  /** `LlmProviders::try_from` */
  function TryFrom(config: seq<Provider>, catalogue: Catalogue): Result<Index, Error> {
    if config == [] then Err(EmptySource)
    else
      match Build(config, Exclusions(config), catalogue)
      case Err(e) => Err(e)
      case Ok(b) => Ok(b.index)
  }

  method CollectExclusions(config: seq<Provider>) returns (excl: map<string, set<string>>)
    ensures excl == Exclusions(config)
  {
    excl := map[];
    for i := 0 to |config|
      invariant excl == Exclusions(config[..i])
    {
      assert config[..i + 1][..i] == config[..i];
      if !IsWildcard(config[i]) {
        var split := SplitOnce(config[i].name);
        if split.Some? {
          excl := excl[split.value.0 := ExcludedFor(excl, split.value.0) + {split.value.1}];
        }
      }
    }
    assert config[..|config|] == config;
  }

  /** The loop over the models of one wildcard entry. */
  method ExpandWildcard(providers: map<string, Provider>, p: Provider, models: seq<string>, excluded: set<string>)
    returns (filled: map<string, Provider>)
    ensures filled == InsertAll(providers, Expansion(p, models, excluded))
  {
    filled := providers;
    assert models[0..] == models;
    for i := 0 to |models|
      invariant InsertAll(filled, Expansion(p, models[i..], excluded))
          == InsertAll(providers, Expansion(p, models, excluded))
    {
      var model := models[i];
      assert models[i..][1..] == models[i + 1..];
      ghost var rest := Expansion(p, models[i + 1..], excluded);
      if model !in excluded {
        var fullId := WildcardPrefix(p) + "/" + model;
        InsertTwo(filled, fullId, model, Expanded(p, model), rest);
        filled := filled[fullId := Expanded(p, model)];
        filled := filled[model := Expanded(p, model)];
      } else {
        assert [] + rest == rest;
      }
    }
  }

  lemma {:induction false} InsertTwo(m: map<string, Provider>, a: string, b: string, p: Provider,
      rest: seq<(string, Provider)>)
    ensures InsertAll(m, [(a, p), (b, p)] + rest) == InsertAll(m[a := p][b := p], rest)
  {
    var ps := [(a, p), (b, p)] + rest;
    assert ps[1..] == [(b, p)] + rest && ps[1..][1..] == rest;
  }

  /** The insertions of one entry. */
  method FillIn(providers: map<string, Provider>, p: Provider, excl: map<string, set<string>>, catalogue: Catalogue)
    returns (filled: map<string, Provider>)
    ensures filled == InsertAll(providers, Insertions(p, excl, catalogue))
  {
    filled := providers;
    if IsWildcard(p) {
      var models := catalogue(WildcardPrefix(p));
      if models.Some? {
        filled := ExpandWildcard(providers, p, models.value, ExcludedFor(excl, WildcardPrefix(p)));
      }
    } else {
      InsertSpecific(providers, p);
      filled := filled[p.name := p];
      if p.model.Some? {
        filled := filled[p.model.value := p];
      }
    }
  }

  method TryFromConfig(config: seq<Provider>, catalogue: Catalogue) returns (r: Result<Index, Error>)
    ensures r == TryFrom(config, catalogue)
  {
    if config == [] {
      return Err(EmptySource);
    }
    var excl := CollectExclusions(config);
    var providers: map<string, Provider> := map[];
    var default: Option<Provider> := None;
    var wildcards: map<string, Provider> := map[];
    var names: set<string> := {};
    for i := 0 to |config|
      invariant Build(config[..i], excl, catalogue) == Ok(Building(Index(providers, default, wildcards), names))
    {
      var p := config[i];
      assert config[..i + 1][..i] == config[..i];
      BuildPrefix(config, i + 1, excl, catalogue);
      if p.default == Some(true) {
        if default.Some? {
          return Err(MoreThanOneDefault);
        }
        default := Some(p);
      }
      if IsWildcard(p) {
        wildcards := wildcards[WildcardPrefix(p) := p];
      } else {
        if p.name in names {
          return Err(DuplicateName(p.name));
        }
        names := names + {p.name};
      }
      providers := FillIn(providers, p, excl, catalogue);
    }
    assert config[..|config|] == config;
    return Ok(Index(providers, default, wildcards));
  }

  lemma {:induction false} InsertSpecific(m: map<string, Provider>, p: Provider)
    ensures InsertAll(m, [(p.name, p)] + if p.model.Some? then [(p.model.value, p)] else [])
         == if p.model.Some? then m[p.name := p][p.model.value := p] else m[p.name := p]
  {
    if p.model.Some? {
      InsertTwo(m, p.name, p.model.value, p, []);
      assert [(p.name, p)] + [(p.model.value, p)] == [(p.name, p), (p.model.value, p)] + [];
    } else {
      assert ([(p.name, p)] + [])[1..] == [];
    }
  }

  /** An error met early is the result. */
  lemma {:induction false} BuildPrefix(config: seq<Provider>, n: nat, excl: map<string, set<string>>,
      catalogue: Catalogue)
    requires n <= |config|
    ensures Build(config[..n], excl, catalogue).Err? ==>
        Build(config, excl, catalogue) == Build(config[..n], excl, catalogue)
    decreases |config|
  {
    if n == |config| {
      assert config[..n] == config;
    } else {
      var k := |config| - 1;
      BuildPrefix(config[..k], n, excl, catalogue);
      assert config[..k][..n] == config[..n];
    }
  }

  // ----- lookups -----

  /** `get`: the exact name, the name after the first slash, or a wildcard for the prefix. */
  function Get(ix: Index, name: string): Option<Provider> {
    if name in ix.providers then Some(ix.providers[name])
    else
      var split := SplitOnce(name);
      if split.None? then None
      else if split.value.1 in ix.providers then Some(ix.providers[split.value.1])
      else if split.value.0 in ix.wildcards then Some(ix.wildcards[split.value.0].(model := Some(split.value.1)))
      else None
  }

  method GetProvider(ix: Index, name: string) returns (r: Option<Provider>)
    ensures r == Get(ix, name)
  {
    if name in ix.providers {
      return Some(ix.providers[name]);
    }
    var split := SplitOnce(name);
    if split.Some? {
      var (prefix, model) := split.value;
      // The source looks up prefix + "/" + model here: the name again, by SplitJoins.
      if model in ix.providers {
        return Some(ix.providers[model]);
      }
      if prefix in ix.wildcards {
        return Some(ix.wildcards[prefix].(model := Some(model)));
      }
    }
    return None;
  }
}
