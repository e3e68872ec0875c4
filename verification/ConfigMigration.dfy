/**
 Lifting the routing preferences of v0.3.0 configurations from their model providers to the top
 level (cli/planoai/config_generator.py).
 */
module ConfigMigration {
  import opened Wrappers
  import opened Strings
  import opened Versions

  datatype Preference = Preference(name: Option<string>, description: Option<string>)

  /** `preferences` is None when the key is absent; a key without a value counts as an empty list. */
  datatype Provider = Provider(model: Option<string>, preferences: Option<seq<Preference>>)

  /** A top-level preference. */
  datatype Entry = Entry(name: Option<string>, description: string, models: seq<string>)

  datatype Config = Config(version: Option<string>, providers: Option<seq<Provider>>, preferences: Option<seq<Entry>>)

  const V040 := Version(0, 4, 0)
  const MIGRATED := "v0.4.0"

  function OrEmpty<T>(s: Option<seq<T>>): seq<T> {
    if s.Some? then s.value else []
  }

  predicate Current(version: Option<string>) {
    VersionOf(OrEmpty(version)).AtLeast(V040)
  }

  /** A provider whose inline preferences are looked at. */
  predicate Inline(provider: Provider) {
    OrEmpty(provider.preferences) != [] && OrEmpty(provider.model) != []
  }

  predicate Wildcard(model: string) {
    '/' in model && var parts := SplitOn(model, '/'); Strip(parts[|parts| - 1]) == "*"
  }

  /** The model that the migration refuses. */
  function Refused(providers: seq<Provider>): Option<string> {
    if providers == [] then None
    else if Inline(providers[0]) && Wildcard(providers[0].model.value) then Some(providers[0].model.value)
    else Refused(providers[1..])
  }

  // ----- what is lifted -----

  /** One inline preference with the model that owns it. */
  datatype Mention = Mention(name: string, description: string, model: string)

  function MentionOf(pref: Preference, model: string): seq<Mention> {
    if OrEmpty(pref.name) == [] then [] else [Mention(pref.name.value, OrEmpty(pref.description), model)]
  }

  function MentionsIn(prefs: seq<Preference>, model: string): seq<Mention> {
    if prefs == [] then [] else MentionsIn(prefs[..|prefs| - 1], model) + MentionOf(prefs[|prefs| - 1], model)
  }

  function MentionsOf(p: Provider): seq<Mention> {
    if Inline(p) then MentionsIn(p.preferences.value, p.model.value) else []
  }

  /** All inline preferences in declaration order. */
  function Mentions(providers: seq<Provider>): seq<Mention> {
    if providers == [] then []
    else
      var p := providers[|providers| - 1];
      Mentions(providers[..|providers| - 1]) + MentionsOf(p)
  }

  function IndexOfName(entries: seq<Entry>, name: string): (i: nat)
    ensures i <= |entries|
    ensures i < |entries| ==> entries[i].name == Some(name)
  {
    if entries == [] || entries[0].name == Some(name) then 0 else 1 + IndexOfName(entries[1..], name)
  }

  function AddModel(entry: Entry, model: string): Entry {
    if model in entry.models then entry else entry.(models := entry.models + [model])
  }

  /** One more mention in the table under construction. */
  function AddMention(migrated: seq<Entry>, m: Mention): seq<Entry> {
    var i := IndexOfName(migrated, m.name);
    if i == |migrated| then migrated + [Entry(Some(m.name), m.description, [m.model])]
    else migrated[i := AddModel(migrated[i], m.model)]
  }

  function Collected(mentions: seq<Mention>): seq<Entry> {
    if mentions == [] then [] else AddMention(Collected(mentions[..|mentions| - 1]), mentions[|mentions| - 1])
  }

  function EntryNames(entries: seq<Entry>): set<Option<string>> {
    set e | e in entries :: e.name
  }

  /** The entries whose names are not taken. */
  function Fresh(entries: seq<Entry>, taken: set<Option<string>>): seq<Entry> {
    if entries == [] then []
    else
      var last := entries[|entries| - 1];
      Fresh(entries[..|entries| - 1], taken) + (if last.name in taken then [] else [last])
  }

  function Stripped(providers: seq<Provider>): (r: seq<Provider>)
    ensures |r| == |providers|
    ensures forall i :: 0 <= i < |r| ==> r[i] == Provider(providers[i].model, None)
  {
    seq(|providers|, i requires 0 <= i < |providers| => Provider(providers[i].model, None))
  }

  /** The migration; the second component is the model named by the exception. */
  function Migrate(c: Config): (Config, Option<string>) {
    if Current(c.version) then (c, None)
    else
      var d, providers := c.(version := Some(MIGRATED)), OrEmpty(c.providers);
      if Refused(providers).Some? then (d, Refused(providers))
      else
        var migrated := Collected(Mentions(providers));
        if migrated == [] then (d, None)
        else
          var existing := OrEmpty(c.preferences);
          (Config(d.version, Some(Stripped(providers)), Some(existing + Fresh(migrated, EntryNames(existing)))), None)
  }

  class ConfigYaml {
    var version: Option<string>
    var providers: Option<seq<Provider>>
    var preferences: Option<seq<Entry>>

    function View(): Config
      reads this
    {
      Config(version, providers, preferences)
    }

    constructor (c: Config)
      ensures View() == c
    {
      version, providers, preferences := c.version, c.providers, c.preferences;
    }

    method MigrateInlineRoutingPreferences() returns (refused: Option<string>)
      modifies this
      ensures (View(), refused) == Migrate(old(View()))
    {
      var current := VersionTuple(OrEmpty(version));
      if current.AtLeast(V040) { return None; }
      version := Some(MIGRATED);
      if OrEmpty(providers) == [] { return None; }
      var migrated;
      migrated, refused := Collect(providers.value);
      if refused.Some? || migrated == [] { return; }

      DeleteInline();
      var merged := Merge(OrEmpty(preferences), migrated);
      preferences := Some(merged);
    }

    method DeleteInline()
      requires providers.Some?
      modifies this
      ensures View() == old(View()).(providers := Some(Stripped(old(providers.value))))
    {
      ghost var were := providers.value;
      var i := 0;
      while i < |providers.value|
        invariant providers.Some? && |providers.value| == |were| && i <= |were|
        invariant forall k :: 0 <= k < |were| ==>
            providers.value[k] == if k < i then Provider(were[k].model, None) else were[k]
        invariant version == old(version) && preferences == old(preferences)
      {
        providers := Some(providers.value[i := providers.value[i].(preferences := None)]);
        i := i + 1;
      }
      assert providers.value == Stripped(were);
    }
  }

  method Merge(existing: seq<Entry>, migrated: seq<Entry>) returns (merged: seq<Entry>)
    ensures merged == existing + Fresh(migrated, EntryNames(existing))
  {
    var names := EntryNames(existing);
    merged := existing;
    for k := 0 to |migrated|
      invariant merged == existing + Fresh(migrated[..k], names)
    {
      assert migrated[..k + 1][..k] == migrated[..k];
      if migrated[k].name !in names { merged := merged + [migrated[k]]; }
    }
    assert migrated[..|migrated|] == migrated;
  }

  /** The body of the inner loop; a preference without a name is skipped. */
  method AddPreference(table: seq<Entry>, pref: Preference, model: string) returns (migrated: seq<Entry>)
    ensures migrated == if OrEmpty(pref.name) == [] then table
                        else AddMention(table, Mention(pref.name.value, OrEmpty(pref.description), model))
  {
    migrated := table;
    if OrEmpty(pref.name) == [] { return; }
    var at := IndexOfName(migrated, pref.name.value);
    if at < |migrated| {
      if model !in migrated[at].models {
        migrated := migrated[at := migrated[at].(models := migrated[at].models + [model])];
      }
    } else {
      migrated := migrated + [Entry(pref.name, OrEmpty(pref.description), [model])];
    }
  }

  lemma {:induction false} CollectedPreference(mentions: seq<Mention>, pref: Preference, model: string)
    ensures Collected(mentions + MentionOf(pref, model))
         == if OrEmpty(pref.name) == [] then Collected(mentions)
            else AddMention(Collected(mentions), Mention(pref.name.value, OrEmpty(pref.description), model))
  {
    if OrEmpty(pref.name) == [] {
      assert mentions + [] == mentions;
    } else {
      CollectedMore(mentions, Mention(pref.name.value, OrEmpty(pref.description), model));
    }
  }

  /** The loop over the inline preferences of one provider. */
  method CollectFrom(table: seq<Entry>, prefs: seq<Preference>, model: string, ghost before: seq<Mention>)
      returns (migrated: seq<Entry>)
    requires table == Collected(before)
    ensures migrated == Collected(before + MentionsIn(prefs, model))
  {
    migrated := table;
    assert before + [] == before;
    for j := 0 to |prefs|
      invariant migrated == Collected(before + MentionsIn(prefs[..j], model))
    {
      MentionsMore(before, prefs, j, model);
      CollectedPreference(before + MentionsIn(prefs[..j], model), prefs[j], model);
      migrated := AddPreference(migrated, prefs[j], model);
    }
    assert prefs[..|prefs|] == prefs;
  }

  lemma {:induction false} MentionsMore(before: seq<Mention>, prefs: seq<Preference>, j: nat, model: string)
    requires j < |prefs|
    ensures before + MentionsIn(prefs[..j + 1], model)
        == before + MentionsIn(prefs[..j], model) + MentionOf(prefs[j], model)
  {
    assert prefs[..j + 1][..j] == prefs[..j];
  }

  lemma {:induction false} MentionsUpTo(providers: seq<Provider>, i: nat)
    requires i < |providers|
    ensures Mentions(providers[..i + 1])
         == if Inline(providers[i])
            then Mentions(providers[..i])
               + MentionsIn(providers[i].preferences.value, providers[i].model.value)
            else Mentions(providers[..i])
  {
    assert providers[..i + 1][..i] == providers[..i];
  }

  lemma {:induction false} RefusedFrom(providers: seq<Provider>, i: nat)
    requires i < |providers|
    ensures Refused(providers[i..])
         == if Inline(providers[i]) && Wildcard(providers[i].model.value) then providers[i].model
            else Refused(providers[i + 1..])
  {
    assert providers[i..][1..] == providers[i + 1..];
  }

  /** The nested loops over the providers and their inline preferences. */
  method Collect(providers: seq<Provider>) returns (migrated: seq<Entry>, refused: Option<string>)
    ensures refused == Refused(providers)
    ensures refused.None? ==> migrated == Collected(Mentions(providers))
  {
    migrated, refused := [], None;
    for i := 0 to |providers|
      invariant migrated == Collected(Mentions(providers[..i]))
      invariant Refused(providers) == Refused(providers[i..])
    {
      var p := providers[i];
      MentionsUpTo(providers, i);
      RefusedFrom(providers, i);
      if !Inline(p) { continue; }
      if Wildcard(p.model.value) { return migrated, p.model; }
      migrated := CollectFrom(migrated, p.preferences.value, p.model.value, Mentions(providers[..i]));
    }
    assert providers[..|providers|] == providers;
  }

  lemma {:induction false} CollectedMore(mentions: seq<Mention>, m: Mention)
    ensures Collected(mentions + [m]) == AddMention(Collected(mentions), m)
  {
    assert (mentions + [m])[..|mentions|] == mentions;
  }
}
