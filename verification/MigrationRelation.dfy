/** What the migration of routing preferences preserves (cli/planoai/config_generator.py). */
module MigrationRelation {
  import opened Wrappers
  import opened Collections
  import opened Strings
  import opened Versions
  import opened ConfigMigration

  // ----- the distinct elements in order of first occurrence -----

  function Dedup(s: seq<string>): seq<string> {
    if s == [] then []
    else
      var before, x := Dedup(s[..|s| - 1]), s[|s| - 1];
      if x in before then before else before + [x]
  }

  /** The first index of x, or |s|. */
  function FirstAt(s: seq<string>, x: string): (i: nat)
    ensures i <= |s|
  {
    if s == [] then 0
    else
      var i := FirstAt(s[..|s| - 1], x);
      if i < |s| - 1 || s[|s| - 1] == x then i else |s|
  }

  lemma {:induction false} FirstAtIs(s: seq<string>, x: string)
    ensures FirstAt(s, x) < |s| ==> s[FirstAt(s, x)] == x
    ensures forall i :: 0 <= i < FirstAt(s, x) ==> s[i] != x
  {
    if s != [] { FirstAtIs(s[..|s| - 1], x); }
  }

  lemma {:induction false} DedupMembers(s: seq<string>)
    ensures forall x :: x in Dedup(s) <==> x in s
    ensures Distinct(Dedup(s))
  {
    if s != [] {
      assert s == s[..|s| - 1] + [s[|s| - 1]];
      DedupMembers(s[..|s| - 1]);
    }
  }

  lemma {:induction false} DedupOrder(s: seq<string>, i: nat, j: nat)
    requires i < j < |Dedup(s)|
    ensures FirstAt(s, Dedup(s)[i]) < FirstAt(s, Dedup(s)[j]) < |s|
    decreases |s|
  {
    var t, x := s[..|s| - 1], s[|s| - 1];
    var before := Dedup(t);
    DedupMembers(t);
    FirstAtIs(t, before[i]);
    assert before[i] in t;
    if j < |before| {
      DedupOrder(t, i, j);
    } else {
      FirstAtIs(t, x);
    }
  }

  // ----- the table that is lifted -----

  function NamesOf(mentions: seq<Mention>): seq<string> {
    if mentions == [] then [] else NamesOf(mentions[..|mentions| - 1]) + [mentions[|mentions| - 1].name]
  }

  /** The models that declare a name inline, in declaration order. */
  function ModelsFor(mentions: seq<Mention>, name: string): seq<string> {
    if mentions == [] then []
    else
      var m := mentions[|mentions| - 1];
      ModelsFor(mentions[..|mentions| - 1], name) + (if m.name == name then [m.model] else [])
  }

  /** The description of the first mention of a name. */
  function DescriptionFor(mentions: seq<Mention>, name: string): string {
    if mentions == [] then []
    else if mentions[0].name == name then mentions[0].description
    else DescriptionFor(mentions[1..], name)
  }

  function EntryFor(mentions: seq<Mention>, name: string): Entry {
    Entry(Some(name), DescriptionFor(mentions, name), Dedup(ModelsFor(mentions, name)))
  }

  /** A table holds one entry per name, in this order. */
  ghost predicate Lists(entries: seq<Entry>, mentions: seq<Mention>, names: seq<string>) {
    && |entries| == |names|
    && forall i :: 0 <= i < |names| ==> entries[i] == EntryFor(mentions, names[i])
  }

  lemma {:induction false} DescriptionMore(mentions: seq<Mention>, m: Mention, name: string)
    ensures DescriptionFor(mentions + [m], name)
         == if name in NamesOf(mentions) then DescriptionFor(mentions, name)
            else if m.name == name then m.description
            else []
    decreases |mentions|
  {
    if mentions == [] {
      assert mentions + [m] == [m];
    } else {
      assert (mentions + [m])[1..] == mentions[1..] + [m];
      DescriptionMore(mentions[1..], m, name);
      NamesFirst(mentions);
    }
  }

  lemma {:induction false} NamesFirst(mentions: seq<Mention>)
    requires mentions != []
    ensures NamesOf(mentions) == [mentions[0].name] + NamesOf(mentions[1..])
  {
    var n := |mentions| - 1;
    if n > 0 {
      NamesFirst(mentions[..n]);
      assert mentions[..n][1..] == mentions[1..][..n - 1];
    }
  }

  lemma {:induction false} NoModels(mentions: seq<Mention>, name: string)
    requires name !in NamesOf(mentions)
    ensures ModelsFor(mentions, name) == []
  {
    if mentions != [] { NoModels(mentions[..|mentions| - 1], name); }
  }

  lemma {:induction false} DedupMore(s: seq<string>, x: string)
    ensures Dedup(s + [x]) == if x in Dedup(s) then Dedup(s) else Dedup(s) + [x]
  {
    assert (s + [x])[..|s|] == s;
  }

  lemma {:induction false} ModelsMore(mentions: seq<Mention>, m: Mention, name: string)
    ensures var models := ModelsFor(mentions, name);
            ModelsFor(mentions + [m], name) == if m.name == name then models + [m.model] else models
  {
    assert (mentions + [m])[..|mentions|] == mentions;
    assert ModelsFor(mentions, name) + [] == ModelsFor(mentions, name);
  }

  lemma {:induction false} NamesMore(mentions: seq<Mention>, m: Mention)
    ensures NamesOf(mentions + [m]) == NamesOf(mentions) + [m.name]
  {
    assert (mentions + [m])[..|mentions|] == mentions;
  }

  lemma {:induction false} EntryMore(mentions: seq<Mention>, m: Mention, name: string)
    requires name in NamesOf(mentions)
    ensures EntryFor(mentions + [m], name)
         == if m.name == name then AddModel(EntryFor(mentions, name), m.model) else EntryFor(mentions, name)
  {
    DescriptionMore(mentions, m, name);
    ModelsMore(mentions, m, name);
    DedupMore(ModelsFor(mentions, name), m.model);
  }

  lemma {:induction false} EntryNew(mentions: seq<Mention>, m: Mention)
    requires m.name !in NamesOf(mentions)
    ensures EntryFor(mentions + [m], m.name) == Entry(Some(m.name), m.description, [m.model])
  {
    DescriptionMore(mentions, m, m.name);
    ModelsMore(mentions, m, m.name);
    NoModels(mentions, m.name);
    DedupMore([], m.model);
  }

  lemma {:induction false} IndexOfNameFirst(entries: seq<Entry>, name: string, i: nat)
    requires i < |entries| && entries[i].name == Some(name)
    requires forall j :: 0 <= j < i ==> entries[j].name != Some(name)
    ensures IndexOfName(entries, name) == i
  {
    if i > 0 { IndexOfNameFirst(entries[1..], name, i - 1); }
  }

  lemma {:induction false} IndexOfNameNone(entries: seq<Entry>, name: string)
    requires forall e :: e in entries ==> e.name != Some(name)
    ensures IndexOfName(entries, name) == |entries|
  {
    if entries != [] {
      assert entries[0] in entries;
      IndexOfNameNone(entries[1..], name);
    }
  }

  lemma {:induction false} EntriesMore(migrated: seq<Entry>, mentions: seq<Mention>, m: Mention, names: seq<string>)
    requires Lists(migrated, mentions, names) && forall name :: name in names ==> name in NamesOf(mentions)
    ensures forall i :: 0 <= i < |names| ==>
      EntryFor(mentions + [m], names[i]) == if names[i] == m.name then AddModel(migrated[i], m.model) else migrated[i]
  {
    forall i | 0 <= i < |names|
      ensures EntryFor(mentions + [m], names[i]) == if names[i] == m.name then AddModel(migrated[i], m.model)
          else migrated[i]
    {
      assert names[i] in names;
      EntryMore(mentions, m, names[i]);
    }
  }

  lemma {:induction false} AddKnown(migrated: seq<Entry>, mentions: seq<Mention>, m: Mention, names: seq<string>,
      i: nat)
    requires Lists(migrated, mentions, names) && i < |names| && names[i] == m.name
    requires forall name :: name in names ==> name in NamesOf(mentions)
    requires Distinct(names)
    ensures Lists(AddMention(migrated, m), mentions + [m], names)
  {
    EntriesMore(migrated, mentions, m, names);
    IndexOfNameFirst(migrated, m.name, i);
  }

  lemma {:induction false} AddNew(migrated: seq<Entry>, mentions: seq<Mention>, m: Mention, names: seq<string>)
    requires Lists(migrated, mentions, names) && m.name !in names && m.name !in NamesOf(mentions)
    requires forall name :: name in names ==> name in NamesOf(mentions)
    ensures Lists(AddMention(migrated, m), mentions + [m], names + [m.name])
  {
    EntriesMore(migrated, mentions, m, names);
    forall e | e in migrated ensures e.name != Some(m.name) {
      var i :| 0 <= i < |migrated| && migrated[i] == e;
      assert names[i] in names;
    }
    IndexOfNameNone(migrated, m.name);
    EntryNew(mentions, m);
  }

  lemma {:induction false} AddToList(migrated: seq<Entry>, mentions: seq<Mention>, m: Mention, names: seq<string>)
    requires Lists(migrated, mentions, names) && Distinct(names)
    requires forall name :: name in names <==> name in NamesOf(mentions)
    ensures Lists(AddMention(migrated, m), mentions + [m], if m.name in names then names else names + [m.name])
  {
    if m.name in names {
      var i :| 0 <= i < |names| && names[i] == m.name;
      AddKnown(migrated, mentions, m, names, i);
    } else {
      AddNew(migrated, mentions, m, names);
    }
  }

  lemma {:induction false} AddMentionLists(migrated: seq<Entry>, mentions: seq<Mention>, m: Mention)
    requires Lists(migrated, mentions, Dedup(NamesOf(mentions)))
    ensures Lists(AddMention(migrated, m), mentions + [m], Dedup(NamesOf(mentions + [m])))
  {
    NamesMore(mentions, m);
    DedupMore(NamesOf(mentions), m.name);
    DedupMembers(NamesOf(mentions));
    AddToList(migrated, mentions, m, Dedup(NamesOf(mentions)));
  }

  /**
   The table has one entry per inline name, in order of first occurrence, with the description of
   its first mention and the distinct models that declare it, in declaration order.
   */
  lemma {:induction false} CollectedLists(mentions: seq<Mention>)
    ensures Lists(Collected(mentions), mentions, Dedup(NamesOf(mentions)))
  {
    if mentions != [] {
      var n := |mentions| - 1;
      assert mentions == mentions[..n] + [mentions[n]];
      CollectedLists(mentions[..n]);
      AddMentionLists(Collected(mentions[..n]), mentions[..n], mentions[n]);
    }
  }

  /** Of two entries of the table, the first one's name was mentioned first. */
  lemma {:induction false} NamesInOrder(mentions: seq<Mention>, i: nat, j: nat)
    requires i < j < |Collected(mentions)|
    ensures var names, a, b := NamesOf(mentions), Collected(mentions)[i].name, Collected(mentions)[j].name;
            a.Some? && b.Some? && FirstAt(names, a.value) < FirstAt(names, b.value) < |names|
  {
    CollectedLists(mentions);
    DedupOrder(NamesOf(mentions), i, j);
  }

  /** Of two models of an entry, the first one was the first to declare its name. */
  lemma {:induction false} ModelsInOrder(mentions: seq<Mention>, i: nat, p: nat, q: nat)
    requires i < |Collected(mentions)| && p < q < |Collected(mentions)[i].models|
    ensures var e := Collected(mentions)[i];
            e.name.Some? &&
            var owners := ModelsFor(mentions, e.name.value);
            FirstAt(owners, e.models[p]) < FirstAt(owners, e.models[q]) < |owners|
  {
    CollectedLists(mentions);
    DedupOrder(ModelsFor(mentions, Collected(mentions)[i].name.value), p, q);
  }

  // ----- the migrated configuration -----

  function FreshNames(names: seq<string>, taken: set<Option<string>>): seq<string> {
    if names == [] then []
    else
      var last := names[|names| - 1];
      FreshNames(names[..|names| - 1], taken) + (if Some(last) in taken then [] else [last])
  }

  lemma {:induction false} ListsFront(entries: seq<Entry>, mentions: seq<Mention>, names: seq<string>)
    requires Lists(entries, mentions, names) && names != []
    ensures var n := |names| - 1;
            && Lists(entries[..n], mentions, names[..n])
            && entries[n] == EntryFor(mentions, names[n]) && entries[n].name == Some(names[n])
  {
  }

  lemma {:induction false} ListsMore(entries: seq<Entry>, mentions: seq<Mention>, names: seq<string>, name: string)
    requires Lists(entries, mentions, names)
    ensures Lists(entries + [EntryFor(mentions, name)], mentions, names + [name])
  {
  }

  lemma {:induction false} FreshLists(entries: seq<Entry>, mentions: seq<Mention>, names: seq<string>,
      taken: set<Option<string>>)
    requires Lists(entries, mentions, names)
    ensures Lists(Fresh(entries, taken), mentions, FreshNames(names, taken))
  {
    if names != [] {
      var n := |names| - 1;
      ListsFront(entries, mentions, names);
      FreshLists(entries[..n], mentions, names[..n], taken);
      var added, kept := Fresh(entries[..n], taken), FreshNames(names[..n], taken);
      if Some(names[n]) in taken {
        assert added + [] == added && kept + [] == kept;
      } else {
        ListsMore(added, mentions, kept, names[n]);
      }
    }
  }

  lemma {:induction false} FreshNamesMembers(names: seq<string>, taken: set<Option<string>>)
    requires Distinct(names)
    ensures forall x :: x in FreshNames(names, taken) <==> x in names && Some(x) !in taken
    ensures Distinct(FreshNames(names, taken))
  {
    if names != [] {
      var n := |names| - 1;
      FreshNamesMembers(names[..n], taken);
      assert names == names[..n] + [names[n]];
      assert names[n] !in names[..n];
      DistinctMore(FreshNames(names[..n], taken), names[n]);
    }
  }

  lemma {:induction false} DistinctMore(r: seq<string>, x: string)
    requires x !in r && Distinct(r)
    ensures Distinct(r + [x]) && r + [] == r
  {
  }

  /** The names that the migration adds to the top level, in order. */
  function AddedNames(c: Config): seq<string> {
    FreshNames(Dedup(NamesOf(Mentions(OrEmpty(c.providers)))), EntryNames(OrEmpty(c.preferences)))
  }

  /** Something is lifted: the version is old, nothing is refused and some inline preference has a name. */
  predicate Lifts(c: Config) {
    !Current(c.version) && Refused(OrEmpty(c.providers)).None? && Mentions(OrEmpty(c.providers)) != []
  }

  /**
   The outcome of the migration, for every configuration: the entries that were there stay an
   unchanged prefix, then comes one entry per inline name that is not taken; the inline lists
   disappear. When nothing is lifted at most the version changes.
   */
  lemma {:induction false} MigratesExactly(c: Config)
    ensures var d, existing := Migrate(c).0, OrEmpty(c.preferences);
            if !Lifts(c) then d == if Current(c.version) then c else c.(version := Some(MIGRATED))
            else
              && d.version == Some(MIGRATED) && d.providers == Some(Stripped(OrEmpty(c.providers)))
              && existing <= OrEmpty(d.preferences)
              && Lists(OrEmpty(d.preferences)[|existing|..], Mentions(OrEmpty(c.providers)), AddedNames(c))
    ensures Migrate(c).1 == if Current(c.version) then None else Refused(OrEmpty(c.providers))
  {
    var mentions := Mentions(OrEmpty(c.providers));
    CollectedLists(mentions);
    CollectedEmptyIff(mentions);
    FreshLists(Collected(mentions), mentions, Dedup(NamesOf(mentions)), EntryNames(OrEmpty(c.preferences)));
  }

  lemma {:induction false} CollectedEmptyIff(mentions: seq<Mention>)
    ensures Collected(mentions) == [] <==> mentions == []
  {
    if mentions != [] { assert |AddMention(Collected(mentions[..|mentions| - 1]), mentions[|mentions| - 1])| > 0; }
  }

  // ----- the relation between names and models -----

  /** A provider declares this name for this model, inline. */
  ghost predicate Declares(provider: Provider, name: string, model: string) {
    && Inline(provider) && provider.model == Some(model) && name != []
    && exists pref :: pref in provider.preferences.value && pref.name == Some(name)
  }

  ghost predicate Declared(providers: seq<Provider>, name: string, model: string) {
    exists provider :: provider in providers && Declares(provider, name, model)
  }

  /** The top level relates this name to this model. */
  ghost predicate Routed(entries: seq<Entry>, name: string, model: string) {
    exists e :: e in entries && e.name == Some(name) && model in e.models
  }

  lemma {:induction false} MentionsInAre(prefs: seq<Preference>, model: string, name: string)
    ensures (exists m :: m in MentionsIn(prefs, model) && m.name == name)
       <==> name != [] && exists pref :: pref in prefs && pref.name == Some(name)
    ensures forall m :: m in MentionsIn(prefs, model) ==> m.model == model
  {
    if prefs != [] {
      var n := |prefs| - 1;
      assert prefs == prefs[..n] + [prefs[n]];
      MentionsInAre(prefs[..n], model, name);
      if prefs[n].name == Some(name) && name != [] {
        assert MentionOf(prefs[n], model)[0].name == name;
      }
    }
  }

  ghost predicate Mentioned(mentions: seq<Mention>, name: string, model: string) {
    exists m :: m in mentions && m.name == name && m.model == model
  }

  lemma {:induction false} MentionedIn(provider: Provider, name: string, model: string)
    ensures Mentioned(MentionsOf(provider), name, model)
       <==> Declares(provider, name, model)
  {
    if Inline(provider) { MentionsInAre(provider.preferences.value, provider.model.value, name); }
  }

  lemma {:induction false} MentionedConcat(a: seq<Mention>, b: seq<Mention>, name: string, model: string)
    ensures Mentioned(a + b, name, model) <==> Mentioned(a, name, model) || Mentioned(b, name, model)
  {
    if Mentioned(a, name, model) {
      var m :| m in a && m.name == name && m.model == model;
      assert m in a + b;
    }
    if Mentioned(b, name, model) {
      var m :| m in b && m.name == name && m.model == model;
      assert m in a + b;
    }
  }

  lemma {:induction false} MentionedIffDeclared(providers: seq<Provider>, name: string, model: string)
    ensures Mentioned(Mentions(providers), name, model) <==> Declared(providers, name, model)
  {
    if providers != [] {
      var n := |providers| - 1;
      var p := providers[n];
      MentionedIffDeclared(providers[..n], name, model);
      MentionedIn(p, name, model);
      MentionedConcat(Mentions(providers[..n]), MentionsOf(p), name, model);
      assert providers == providers[..n] + [p];
    }
  }

  lemma {:induction false} ModelsForMembers(mentions: seq<Mention>, name: string, model: string)
    ensures model in ModelsFor(mentions, name) <==> Mentioned(mentions, name, model)
    ensures Mentioned(mentions, name, model) ==> name in NamesOf(mentions)
  {
    if mentions != [] {
      var n := |mentions| - 1;
      ModelsForMembers(mentions[..n], name, model);
      assert mentions == mentions[..n] + [mentions[n]];
      MentionedConcat(mentions[..n], [mentions[n]], name, model);
    }
  }

  lemma {:induction false} RoutedConcat(a: seq<Entry>, b: seq<Entry>, name: string, model: string)
    ensures Routed(a + b, name, model) <==> Routed(a, name, model) || Routed(b, name, model)
  {
    if Routed(a, name, model) {
      var e :| e in a && e.name == Some(name) && model in e.models;
      assert e in a + b;
    }
    if Routed(b, name, model) {
      var e :| e in b && e.name == Some(name) && model in e.models;
      assert e in a + b;
    }
  }

  lemma {:induction false} RoutedLists(entries: seq<Entry>, mentions: seq<Mention>, names: seq<string>, name: string,
      model: string)
    requires Lists(entries, mentions, names)
    ensures Routed(entries, name, model) <==> name in names && Mentioned(mentions, name, model)
  {
    DedupMembers(ModelsFor(mentions, name));
    ModelsForMembers(mentions, name, model);
    if name in names {
      var i :| 0 <= i < |names| && names[i] == name;
      assert entries[i] == EntryFor(mentions, name) && entries[i] in entries;
    }
  }

  /**
   The migrated top level relates a name to a model iff it did before, or the pair was declared inline
   under a name that was not taken.
   */
  lemma {:induction false} RelationAfter(c: Config, name: string, model: string)
    requires Lifts(c)
    ensures Routed(OrEmpty(Migrate(c).0.preferences), name, model)
       <==> || Routed(OrEmpty(c.preferences), name, model)
            || (Some(name) !in EntryNames(OrEmpty(c.preferences)) && Declared(OrEmpty(c.providers), name, model))
  {
    var existing, mentions := OrEmpty(c.preferences), Mentions(OrEmpty(c.providers));
    var all, names := OrEmpty(Migrate(c).0.preferences), Dedup(NamesOf(mentions));
    MigratesExactly(c);
    assert all == existing + all[|existing|..];
    RoutedConcat(existing, all[|existing|..], name, model);
    DedupMembers(NamesOf(mentions));
    FreshNamesMembers(names, EntryNames(existing));
    RoutedLists(all[|existing|..], mentions, AddedNames(c), name, model);
    ModelsForMembers(mentions, name, model);
    MentionedIffDeclared(OrEmpty(c.providers), name, model);
  }

  /** A pair that was declared inline is lost iff the top level already had its name without this model. */
  lemma {:induction false} PairLostIff(c: Config, name: string, model: string)
    requires Lifts(c) && Declared(OrEmpty(c.providers), name, model)
    ensures !Routed(OrEmpty(Migrate(c).0.preferences), name, model)
       <==> Some(name) in EntryNames(OrEmpty(c.preferences)) && !Routed(OrEmpty(c.preferences), name, model)
  {
    RelationAfter(c, name, model);
  }

  // ----- refusal, repetition, and the gate -----

  /** A configuration is refused iff a provider with inline preferences has a wildcard model. */
  lemma {:induction false} RefusedIff(providers: seq<Provider>)
    ensures Refused(providers).Some? <==> exists p :: p in providers && Inline(p) && Wildcard(p.model.value)
  {
    if providers != [] {
      assert providers == [providers[0]] + providers[1..];
      RefusedIff(providers[1..]);
    }
  }

  /** The version a migration writes passes the gate. */
  lemma {:induction false} MigratedIsCurrent()
    ensures Current(Some(MIGRATED))
  {
    assert Decimal(0) == "0" && Decimal(4) == "4";
    assert MIGRATED == ['v'] + Core(V040) + [];
    VersionRoundTrip(V040, []);
  }

  /** A second run changes nothing and raises nothing, even after a run that was refused. */
  lemma {:induction false} SecondRunIsNoOp(c: Config)
    ensures Migrate(Migrate(c).0) == (Migrate(c).0, None)
  {
    MigratedIsCurrent();
  }

  /** A configuration is left alone iff its version, whatever its suffix, is at least 0.4.0. */
  lemma {:induction false} CurrentIff(v: Version, suffix: string)
    requires v.major >= 0 && v.minor >= 0 && v.patch >= 0 && Suffix(suffix)
    ensures Current(Some(['v'] + Core(v) + suffix)) <==> v.AtLeast(V040)
  {
    VersionRoundTrip(v, suffix);
  }
}
