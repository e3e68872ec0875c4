/**
 Every match is hidden (demos/filter_chains/pii_anonymizer/pii.py): which matches are accepted, under
 which placeholders, and that none of them is left in the text.
 */
module PiiCoverage {
  import opened Collections
  import opened Strings
  import opened PiiReplace
  import opened PiiAnonymize
  import opened PiiNested
  import opened PiiRoundTrip

  // ----- the accepted matches, by a definition of their own -----

  /** A match that overlaps none of these, unless it extends past it on both sides. */
  ghost predicate Clear(taken: seq<Match>, c: Match) {
    forall x :: x in taken ==> Apart(ExtentOf(x), ExtentOf(c)) || Engulfs(ExtentOf(c), ExtentOf(x))
  }

  /** The matches that are clear of those taken before them. */
  ghost function Taken(found: seq<Match>): seq<Match> {
    if found == [] then []
    else
      var n := |found| - 1;
      var before := Taken(found[..n]);
      if Clear(before, found[n]) then before + [found[n]] else before
  }

  ghost function Extents(taken: seq<Match>): (s: seq<Extent>)
    ensures |s| == |taken| && forall i :: 0 <= i < |s| ==> s[i] == ExtentOf(taken[i])
  {
    seq(|taken|, i requires 0 <= i < |taken| => ExtentOf(taken[i]))
  }

  function OfKind(taken: seq<Match>, kind: PiiType): nat {
    if taken == [] then 0
    else OfKind(taken[..|taken| - 1], kind) + (if taken[|taken| - 1].kind == kind then 1 else 0)
  }

  /** Each type counts its own placeholders from 0. */
  ghost function EntryOf(text: string, taken: seq<Match>, i: nat): Entry
    requires Matches(text, taken) && i < |taken|
  {
    assert taken[i] in taken;
    Entry(Placeholder(taken[i].kind, OfKind(taken[..i], taken[i].kind)), text[taken[i].start..taken[i].end])
  }

  lemma {:induction false} TakenFound(found: seq<Match>)
    ensures forall x :: x in Taken(found) ==> x in found
  {
    if found != [] {
      var n := |found| - 1;
      TakenFound(found[..n]);
      assert found == found[..n] + [found[n]];
    }
  }

  /** The overlap test refuses exactly what is not clear. */
  lemma {:induction false} BlockedIff(taken: seq<Match>, c: Match)
    requires c.start < c.end && forall x :: x in taken ==> x.start < x.end
    ensures Blocked(Extents(taken), c) <==> !Clear(taken, c)
  {
    var spans := Extents(taken);
    if Clear(taken, c) {
      forall i | 0 <= i < |spans|
        ensures !(spans[i].start <= c.start < spans[i].end || spans[i].start < c.end <= spans[i].end)
      {
        assert taken[i] in taken;
      }
    } else {
      var x :| x in taken && !Apart(ExtentOf(x), ExtentOf(c)) && !Engulfs(ExtentOf(c), ExtentOf(x));
      var i :| 0 <= i < |taken| && taken[i] == x;
      assert spans[i] == ExtentOf(x);
    }
  }

  ghost predicate Entered(text: string, m: Mapping, taken: seq<Match>)
    requires Matches(text, taken)
  {
    |m| == |taken| && forall i :: 0 <= i < |taken| ==> m[i] == EntryOf(text, taken, i)
  }

  /** The loop over the matches has accepted these matches. */
  ghost predicate Holds(text: string, a: Accepted, taken: seq<Match>)
    requires Matches(text, taken)
  {
    && a.spans == Extents(taken) && Entered(text, a.mapping, taken)
    && forall kind :: Count(a.counters, kind) == OfKind(taken, kind)
  }

  lemma {:induction false} CountersOn(a: Accepted, taken: seq<Match>, c: Match, counters: map<PiiType, nat>)
    requires forall kind :: Count(a.counters, kind) == OfKind(taken, kind)
    requires counters == a.counters[c.kind := Count(a.counters, c.kind) + 1]
    ensures forall kind :: Count(counters, kind) == OfKind(taken + [c], kind)
  {
    var all := taken + [c];
    assert all[..|taken|] == taken;
    forall kind ensures Count(counters, kind) == OfKind(all, kind) {
      assert Count(a.counters, kind) == OfKind(taken, kind);
    }
  }

  lemma {:induction false} EntryEarlier(text: string, taken: seq<Match>, c: Match, i: nat)
    requires Matches(text, taken + [c]) && Matches(text, taken) && i < |taken|
    ensures EntryOf(text, taken + [c], i) == EntryOf(text, taken, i)
  {
    assert (taken + [c])[..i] == taken[..i];
  }

  lemma {:induction false} EntryLast(text: string, taken: seq<Match>, c: Match)
    requires Matches(text, taken + [c])
    ensures c.start < c.end <= |text|
    ensures EntryOf(text, taken + [c], |taken|)
         == Entry(Placeholder(c.kind, OfKind(taken, c.kind)), text[c.start..c.end])
  {
    assert (taken + [c])[..|taken|] == taken && c in taken + [c];
  }

  lemma {:induction false} ExtentsMore(taken: seq<Match>, c: Match)
    ensures Extents(taken + [c]) == Extents(taken) + [ExtentOf(c)]
  {
  }

  lemma {:induction false} EntriesOn(text: string, m: Mapping, taken: seq<Match>, c: Match)
    requires Matches(text, taken + [c]) && Matches(text, taken) && Entered(text, m, taken)
    ensures Entered(text, m + [EntryOf(text, taken + [c], |taken|)], taken + [c])
  {
    var all := taken + [c];
    var b := m + [EntryOf(text, all, |taken|)];
    forall i | 0 <= i < |all| ensures b[i] == EntryOf(text, all, i) {
      if i < |taken| { EntryEarlier(text, taken, c, i); }
    }
  }

  function NextEntry(text: string, a: Accepted, c: Match): Entry
    requires c.start < c.end <= |text|
  {
    Entry(Placeholder(c.kind, Count(a.counters, c.kind)), text[c.start..c.end])
  }

  function Next(text: string, a: Accepted, c: Match): Accepted
    requires c.start < c.end <= |text|
  {
    Accepted(a.spans + [ExtentOf(c)], a.counters[c.kind := Count(a.counters, c.kind) + 1],
             a.mapping + [NextEntry(text, a, c)])
  }

  lemma {:induction false} NextIs(text: string, a: Accepted, c: Match)
    requires c.start < c.end <= |text| && Consistent(text, a) && !Blocked(a.spans, c)
    ensures AcceptOne(text, a, c) == Next(text, a, c)
  {
    NextAccepted(text, a, c);
  }

  lemma {:induction false} HoldsNext(text: string, a: Accepted, taken: seq<Match>, c: Match)
    requires Matches(text, taken + [c]) && Matches(text, taken) && Holds(text, a, taken)
    requires c.start < c.end <= |text|
    ensures Holds(text, Next(text, a, c), taken + [c])
  {
    EntryLast(text, taken, c);
    ExtentsMore(taken, c);
    CountersOn(a, taken, c, Next(text, a, c).counters);
    assert Count(a.counters, c.kind) == OfKind(taken, c.kind);
    EntriesOn(text, a.mapping, taken, c);
  }

  lemma {:induction false} HoldsOn(text: string, a: Accepted, taken: seq<Match>, c: Match)
    requires Matches(text, taken + [c]) && Matches(text, taken) && Holds(text, a, taken) && Consistent(text, a)
    requires c.start < c.end <= |text|
    ensures Holds(text, AcceptOne(text, a, c), if Clear(taken, c) then taken + [c] else taken)
  {
    BlockedIff(taken, c);
    if Clear(taken, c) {
      NextIs(text, a, c);
      HoldsNext(text, a, taken, c);
    }
  }

  /**
   The accepted spans are those of the matches that are clear of the ones taken before, and the mapping
   has one entry for each: its text, under its type and the number of earlier ones of that type.
   */
  lemma {:induction false} AcceptIs(text: string, found: seq<Match>)
    requires Matches(text, found)
    ensures Matches(text, Taken(found)) && Holds(text, Accept(text, found), Taken(found))
  {
    TakenFound(found);
    if found != [] {
      var n := |found| - 1;
      TakenFound(found[..n]);
      AcceptIs(text, found[..n]);
      AcceptConsistent(text, found[..n]);
      MatchesMore(text, found);
      HoldsOn(text, Accept(text, found[..n]), Taken(found[..n]), found[n]);
    }
  }

  lemma {:induction false} MatchesMore(text: string, found: seq<Match>)
    requires Matches(text, found) && found != []
    ensures Matches(text, Taken(found[..|found| - 1]) + [found[|found| - 1]])
  {
    TakenFound(found[..|found| - 1]);
  }

  // ----- every match is covered -----

  /** Every match shares a character with an accepted span: its own, or one that kept it out. */
  lemma {:induction false} EveryMatchCovered(text: string, found: seq<Match>, c: Match)
    requires Matches(text, found) && c in found
    ensures ExtentOf(c) in Accept(text, found).spans
         || exists x :: x in Accept(text, found).spans && !Apart(x, ExtentOf(c))
  {
    AcceptIs(text, found);
    TakenCovers(found, c);
    if c in Taken(found) {
      var i :| 0 <= i < |Taken(found)| && Taken(found)[i] == c;
      assert Accept(text, found).spans[i] == ExtentOf(c);
    } else {
      var x :| x in Taken(found) && !Apart(ExtentOf(x), ExtentOf(c));
      var i :| 0 <= i < |Taken(found)| && Taken(found)[i] == x;
      assert Accept(text, found).spans[i] == ExtentOf(x);
    }
  }

  lemma {:induction false} TakenCovers(found: seq<Match>, c: Match)
    requires c in found
    ensures c in Taken(found) || exists x :: x in Taken(found) && !Apart(ExtentOf(x), ExtentOf(c))
  {
    var n := |found| - 1;
    assert found == found[..n] + [found[n]];
    if c in found[..n] {
      TakenCovers(found[..n], c);
      assert forall x :: x in Taken(found[..n]) ==> x in Taken(found);
    }
  }

  /** Matches that are apart from each other are all accepted, in order. */
  lemma {:induction false} ApartAllTaken(text: string, found: seq<Match>)
    requires Matches(text, found)
    requires forall i, j :: 0 <= i < j < |found| ==> Apart(ExtentOf(found[i]), ExtentOf(found[j]))
    ensures Accept(text, found).spans == Extents(found)
  {
    TakenAll(found);
    AcceptIs(text, found);
  }

  lemma {:induction false} TakenAll(found: seq<Match>)
    requires forall i, j :: 0 <= i < j < |found| ==> Apart(ExtentOf(found[i]), ExtentOf(found[j]))
    ensures Taken(found) == found
  {
    if found != [] {
      var n := |found| - 1;
      TakenAll(found[..n]);
      assert found == found[..n] + [found[n]];
      forall x | x in found[..n] ensures Apart(ExtentOf(x), ExtentOf(found[n])) {
        var i :| 0 <= i < n && found[i] == x;
      }
    }
  }

  // ----- nothing is left in the text -----

  /** Where the gaps between the spans are. */
  function GapExtents(spans: seq<Extent>, b: nat): (gaps: seq<Extent>)
    ensures gaps != []
  {
    if spans == [] then [Extent(0, b)] else [Extent(spans[0].end, b)] + GapExtents(spans[1..], spans[0].start)
  }

  lemma {:induction false} GapsAreThere(text: string, spans: seq<Extent>, b: nat)
    requires Below(spans, b) && b <= |text|
    ensures var gaps, there := Gaps(text, spans, b), GapExtents(spans, b);
            && |gaps| == |there|
            && forall i :: 0 <= i < |gaps| ==> there[i].start <= there[i].end <= b
                                               && gaps[i] == text[there[i].start..there[i].end]
    decreases spans
  {
    if spans != [] { GapsAreThere(text, spans[1..], spans[0].start); }
  }

  lemma {:induction false} GapsApart(spans: seq<Extent>, b: nat, x: Extent, g: Extent)
    requires Below(spans, b) && x in spans && g in GapExtents(spans, b)
    ensures x.end <= g.start || g.end <= x.start
    decreases spans
  {
    var later := GapExtents(spans[1..], spans[0].start);
    BelowMembers(spans, b, x);
    if x == spans[0] {
      if g in later { GapsWithin(spans[1..], spans[0].start, g); }
    } else if g in later {
      GapsApart(spans[1..], spans[0].start, x, g);
    } else {
      BelowMembers(spans[1..], spans[0].start, x);
    }
  }

  lemma {:induction false} BelowMembers(spans: seq<Extent>, b: nat, x: Extent)
    requires Below(spans, b) && x in spans
    ensures x.start < x.end <= b
    decreases spans
  {
    if x != spans[0] { BelowMembers(spans[1..], spans[0].start, x); }
  }

  lemma {:induction false} GapsWithin(spans: seq<Extent>, b: nat, g: Extent)
    requires Below(spans, b) && g in GapExtents(spans, b)
    ensures g.end <= b
    decreases spans
  {
    if spans != [] && g in GapExtents(spans[1..], spans[0].start) { GapsWithin(spans[1..], spans[0].start, g); }
  }

  lemma {:induction false} OuterMore(s: seq<Extent>, y: Extent)
    requires s != [] && y in Outermost(s[1..])
    ensures y in Outermost(s)
  {
    OutermostCons(s);
  }

  /** Every span is an outer one, or inside one. */
  lemma {:induction false} OuterAround(s: seq<Extent>, x: Extent) returns (y: Extent)
    requires x in s
    ensures y in Outermost(s) && y.start <= x.start && x.end <= y.end
    decreases |s|
  {
    if x in s[1..] {
      y := OuterAround(s[1..], x);
      OuterMore(s, y);
    } else if Inside(x, s[1..]) {
      var z :| z in s[1..] && Engulfs(z, x);
      y := OuterAround(s[1..], z);
      OuterMore(s, y);
    } else {
      assert s == [s[0]] + s[1..];
      OutermostCons(s);
      y := x;
    }
  }

  lemma {:induction false} OuterBelow(text: string, found: seq<Match>)
    requires Matches(text, found)
    ensures Below(OuterSpans(text, found), |text|)
  {
    var a := Accept(text, found);
    AcceptConsistent(text, found);
    SortedLaminar(text, found);
    forall x | x in SortDescending(a.spans) ensures x.start < x.end <= |text| {
      assert x in multiset(SortDescending(a.spans));
      assert x in a.spans;
      var i :| 0 <= i < |a.spans| && a.spans[i] == x;
    }
    OutermostBelow(SortDescending(a.spans), |text|);
  }

  lemma {:induction false} AcceptedOverlaps(text: string, found: seq<Match>, c: Match) returns (x: Extent)
    requires Matches(text, found) && c in found
    ensures x in Accept(text, found).spans && x.start < c.end && c.start < x.end
  {
    EveryMatchCovered(text, found, c);
    if ExtentOf(c) in Accept(text, found).spans {
      x := ExtentOf(c);
    } else {
      x :| x in Accept(text, found).spans && !Apart(x, ExtentOf(c));
    }
  }

  /** Every match overlaps an outer span. */
  lemma {:induction false} OuterOverlaps(text: string, found: seq<Match>, c: Match) returns (y: Extent)
    requires Matches(text, found) && c in found
    ensures y in OuterSpans(text, found) && y.start < c.end && c.start < y.end
  {
    var x := AcceptedOverlaps(text, found, c);
    var s := SortDescending(Accept(text, found).spans);
    assert x in multiset(s);
    y := OuterAround(s, x);
  }

  /** No match lies wholly in the text that is left between the outer spans. */
  lemma {:induction false} NothingLeft(text: string, found: seq<Match>, c: Match)
    requires Matches(text, found) && c in found
    ensures Below(OuterSpans(text, found), |text|)
    ensures forall g :: g in GapExtents(OuterSpans(text, found), |text|) ==> !(g.start <= c.start && c.end <= g.end)
    ensures var gaps, there := Gaps(text, OuterSpans(text, found), |text|), GapExtents(OuterSpans(text, found), |text|);
            && |gaps| == |there|
            && forall i :: 0 <= i < |gaps| ==> there[i].start <= there[i].end <= |text|
                                               && gaps[i] == text[there[i].start..there[i].end]
  {
    OuterBelow(text, found);
    GapsAreThere(text, OuterSpans(text, found), |text|);
    var y := OuterOverlaps(text, found, c);
    forall g | g in GapExtents(OuterSpans(text, found), |text|) ensures !(g.start <= c.start && c.end <= g.end) {
      GapsApart(OuterSpans(text, found), |text|, y, g);
    }
  }

  // ----- the anonymized text, written out -----

  /** Gaps with marks between them, both from right to left. */
  function Alternate(gaps: seq<string>, marks: seq<string>): string
    requires |gaps| == |marks| + 1
  {
    if marks == [] then gaps[0] else Alternate(gaps[1..], marks[1..]) + (marks[0] + gaps[0])
  }

  ghost function Marks(text: string, m: Mapping, spans: seq<Extent>): (marks: seq<string>)
    requires Known(text, m, spans)
    ensures |marks| == |spans|
    ensures forall i :: 0 <= i < |spans| ==>
      exists e :: e in m && e.original == text[spans[i].start..spans[i].end] && marks[i] == e.placeholder
  {
    if spans == [] then []
    else
      assert spans[0] in spans;
      [EntryFor(m, text[spans[0].start..spans[0].end]).placeholder] + Marks(text, m, spans[1..])
  }

  lemma {:induction false} GapsCount(text: string, spans: seq<Extent>, b: nat)
    requires Below(spans, b) && b <= |text|
    ensures |Gaps(text, spans, b)| == |spans| + 1
    decreases spans
  {
    if spans != [] { GapsCount(text, spans[1..], spans[0].start); }
  }

  lemma {:induction false} WeaveAlternates(text: string, m: Mapping, spans: seq<Extent>, b: nat)
    requires Below(spans, b) && b <= |text| && Known(text, m, spans)
    ensures |Gaps(text, spans, b)| == |spans| + 1
    ensures Render(Weave(text, m, spans, b), m) == Alternate(Gaps(text, spans, b), Marks(text, m, spans))
    decreases spans
  {
    GapsCount(text, spans, b);
    if spans != [] {
      assert spans[0] in spans;
      var marks := Marks(text, m, spans);
      WeaveAlternates(text, m, spans[1..], spans[0].start);
      assert marks[1..] == Marks(text, m, spans[1..]);
    }
  }

  lemma {:induction false} SpliceAlternates(text: string, m: Mapping, spans: seq<Extent>)
    requires Below(spans, |text|) && Known(text, m, spans)
    ensures |Gaps(text, spans, |text|)| == |spans| + 1
    ensures Splice(text, m, spans, text) == Alternate(Gaps(text, spans, |text|), Marks(text, m, spans))
  {
    WeaveAlternates(text, m, spans, |text|);
    SpliceWeaves(text, m, spans, |text|, []);
    assert text[..|text|] + [] == text;
    var w := Render(Weave(text, m, spans, |text|), m);
    assert w + [] == w;
  }

  /**
   The anonymized text is the gaps between the outer spans, with a placeholder of its original in the
   place of each span.
   */
  lemma {:induction false} AnonymizedReads(text: string, found: seq<Match>)
    requires Matches(text, found) && InnersFit(text, found)
    ensures var m, outer := Accept(text, found).mapping, OuterSpans(text, found);
            && Below(outer, |text|) && Known(text, m, outer) && |Gaps(text, outer, |text|)| == |outer| + 1
            && Anonymized(text, found) == Alternate(Gaps(text, outer, |text|), Marks(text, m, outer))
  {
    OuterSpansSuffice(text, found);
    SpliceAlternates(text, Accept(text, found).mapping, OuterSpans(text, found));
  }

  /** Two matches that are apart, written out. */
  lemma {:induction false} TwoApart(text: string, c: Match, d: Match)
    requires c.start < c.end <= d.start < d.end <= |text| && text[c.start..c.end] != text[d.start..d.end]
    ensures Matches(text, [c, d])
    ensures Anonymized(text, [c, d])
         == text[..c.start] + (Placeholder(c.kind, 0) + text[c.end..d.start])
          + (Placeholder(d.kind, if d.kind == c.kind then 1 else 0) + text[d.end..])
  {
    var found, x, y := [c, d], ExtentOf(c), ExtentOf(d);
    ApartAllTaken(text, found);
    TwoEntries(text, c, d);
    assert Accept(text, found).spans == [x, y];
    SortedUp(x, y);
    AnonymizedAs(text, found, Accept(text, found).mapping, [y, x]);
    CutApart(text, Accept(text, found).mapping, c, d);
  }

  lemma {:induction false} TwoEntries(text: string, c: Match, d: Match)
    requires c.start < c.end <= d.start < d.end <= |text|
    ensures Matches(text, [c, d])
    ensures Accept(text, [c, d]).mapping
         == [Entry(Placeholder(c.kind, 0), text[c.start..c.end]),
             Entry(Placeholder(d.kind, if d.kind == c.kind then 1 else 0), text[d.start..d.end])]
  {
    var found := [c, d];
    TakenAll(found);
    AcceptIs(text, found);
    assert found[..0] == [] && found[..1] == [c] && [c][..0] == [];
    assert EntryOf(text, found, 0) == Entry(Placeholder(c.kind, 0), text[c.start..c.end]);
    assert OfKind([c], d.kind) == if d.kind == c.kind then 1 else 0;
  }

  lemma {:induction false} SortedUp(x: Extent, y: Extent)
    requires x.start < y.start
    ensures SortDescending([x, y]) == [y, x]
  {
    assert [x, y][1..] == [y] && [y][1..] == [] && SortDescending([y]) == [y];
    assert InsertDescending(x, [y]) == [y] + InsertDescending(x, []);
  }

  lemma {:induction false} CutBehind(text: string, x: Extent, y: Extent, q: string)
    requires x.start < x.end <= y.start < y.end <= |text|
    ensures var r := Cut(text, y, q);
            |r| >= x.end && r[..x.start] == text[..x.start] && r[x.end..] == text[x.end..y.start] + (q + text[y.end..])
  {
  }

  lemma {:induction false} CutApart(text: string, m: Mapping, c: Match, d: Match)
    requires c.start < c.end <= d.start < d.end <= |text| && text[c.start..c.end] != text[d.start..d.end]
    requires |m| == 2 && m[0].original == text[c.start..c.end] && m[1].original == text[d.start..d.end]
    requires Known(text, m, [ExtentOf(d), ExtentOf(c)])
    ensures Splice(text, m, [ExtentOf(d), ExtentOf(c)], text)
         == text[..c.start] + (m[0].placeholder + text[c.end..d.start]) + (m[1].placeholder + text[d.end..])
  {
    var x, y := ExtentOf(c), ExtentOf(d);
    SpliceTwo(text, m, y, x);
    FirstEntry(m, text[c.start..c.end]);
    SecondEntry(m, text[d.start..d.end]);
    CutBehind(text, x, y, m[1].placeholder);
    Associates(text[..c.start] + m[0].placeholder, text[c.end..d.start], m[1].placeholder + text[d.end..]);
    Associates(text[..c.start], m[0].placeholder, text[c.end..d.start]);
  }

  lemma {:induction false} EmailMarks()
    ensures Placeholder(EMAIL, 0) == "[EMAIL_0]"
    ensures Placeholder(EMAIL, 1) == "[EMAIL_1]"
  {
    assert Decimal(0) == ['0'] && Decimal(1) == ['1'];
    assert "_" + ['0'] == "_0" && "_" + ['1'] == "_1";
    assert "EMAIL" + "_0" == "EMAIL_0";
    assert "EMAIL" + "_1" == "EMAIL_1";
    assert "[" + "EMAIL_0" + "]" == "[EMAIL_0]";
    assert "[" + "EMAIL_1" + "]" == "[EMAIL_1]";
  }

  lemma {:induction false} MarksJoined(a: string, b: string)
    ensures "" + (a + " ") + (b + "") == a + " " + b
  {
  }

  /** The pieces of a text with two addresses. */
  lemma {:induction false} AddressPieces(text: string)
    requires text == "a@b.co c@d.co"
    ensures |text| == 13 && text[0..6] != text[7..13]
    ensures text[..0] == "" && text[6..7] == " " && text[13..] == ""
  {
    assert text[0..6][0] == 'a' && text[7..13][0] == 'c';
  }

  /** Two addresses, both hidden. */
  lemma {:induction false} TwoAddresses() returns (text: string, found: seq<Match>)
    ensures text == "a@b.co c@d.co" && found == [Match(EMAIL, 0, 6), Match(EMAIL, 7, 13)] && Matches(text, found)
    ensures Anonymized(text, found) == "[EMAIL_0]" + " " + "[EMAIL_1]"
  {
    text, found := "a@b.co c@d.co", [Match(EMAIL, 0, 6), Match(EMAIL, 7, 13)];
    AddressPieces(text);
    TwoApart(text, Match(EMAIL, 0, 6), Match(EMAIL, 7, 13));
    EmailMarks();
    MarksJoined(Placeholder(EMAIL, 0), Placeholder(EMAIL, 1));
  }
}
