/**
 Spans inside other spans (demos/filter_chains/pii_anonymizer/pii.py). The overlap test lets a match
 pass that extends past an accepted span on both sides. Cutting both out goes wrong, unless the inner
 piece is as long as its placeholder.
 */
module PiiNested {
  import opened Collections
  import opened Strings
  import opened PiiReplace
  import opened PiiStream
  import opened PiiAnonymize

  /** Descending disjoint extents below `b`. */
  ghost predicate Below(spans: seq<Extent>, b: nat) {
    spans == [] || (spans[0].start < spans[0].end <= b && Below(spans[1..], spans[0].start))
  }

  // ----- sorted spans -----

  ghost predicate Descending(s: seq<Extent>) {
    forall i, j :: 0 <= i < j < |s| ==> s[i].start >= s[j].start
  }

  lemma {:induction false} InsertMembers(x: Extent, s: seq<Extent>, y: Extent)
    requires y in InsertDescending(x, s)
    ensures y == x || y in s
  {
    if s != [] && !Above(x, s[0]) && y != s[0] { InsertMembers(x, s[1..], y); }
  }

  lemma {:induction false} DescendsFrom(x: Extent, s: seq<Extent>)
    requires Descending(s) && forall y :: y in s ==> x.start >= y.start
    ensures Descending([x] + s)
  {
    var t := [x] + s;
    forall i, j | 0 <= i < j < |t| ensures t[i].start >= t[j].start {
      assert t[j] == s[j - 1] && s[j - 1] in s;
      if i > 0 { assert t[i] == s[i - 1]; }
    }
  }

  lemma {:induction false} DescendsTail(s: seq<Extent>)
    requires Descending(s) && s != []
    ensures Descending(s[1..]) && forall y :: y in s ==> s[0].start >= y.start
  {
  }

  lemma {:induction false} InsertDescends(x: Extent, s: seq<Extent>)
    requires Descending(s)
    ensures Descending(InsertDescending(x, s))
  {
    if s != [] { DescendsTail(s); }
    if s == [] || Above(x, s[0]) {
      DescendsFrom(x, s);
    } else {
      InsertDescends(x, s[1..]);
      var r := InsertDescending(x, s[1..]);
      forall y | y in r ensures s[0].start >= y.start {
        InsertMembers(x, s[1..], y);
      }
      DescendsFrom(s[0], r);
    }
  }

  lemma {:induction false} SortDescends(s: seq<Extent>)
    ensures Descending(SortDescending(s))
  {
    if s != [] {
      SortDescends(s[1..]);
      InsertDescends(s[0], SortDescending(s[1..]));
    }
  }

  /** Of two spans, the one further on in the list ends before the other, or extends past it. */
  ghost predicate Laminar(s: seq<Extent>) {
    forall i, j :: 0 <= i < j < |s| ==> s[j].end <= s[i].start || Engulfs(s[j], s[i])
  }

  lemma {:induction false} SortedLaminar(text: string, found: seq<Match>)
    requires Matches(text, found)
    ensures Laminar(SortDescending(Accept(text, found).spans))
  {
    var spans := Accept(text, found).spans;
    var r := SortDescending(spans);
    SortDescends(spans);
    AcceptConsistent(text, found);
    forall i, j | 0 <= i < j < |r| ensures r[j].end <= r[i].start || Engulfs(r[j], r[i]) {
      var p, q := Counterparts(r, spans, i, j);
      if p < q { ApartOrEngulfs(text, found, p, q); } else { ApartOrEngulfs(text, found, q, p); }
    }
  }

  // ----- the spans that are inside no other -----

  ghost predicate Inside(x: Extent, s: seq<Extent>) {
    exists y :: y in s && Engulfs(y, x)
  }

  ghost function Outermost(s: seq<Extent>): seq<Extent> {
    if s == [] then []
    else (if Inside(s[0], s[1..]) then [] else [s[0]]) + Outermost(s[1..])
  }

  ghost function OuterSpans(text: string, found: seq<Match>): seq<Extent>
    requires Matches(text, found)
  {
    Outermost(SortDescending(Accept(text, found).spans))
  }

  lemma {:induction false} OutermostBelow(s: seq<Extent>, b: nat)
    requires Laminar(s) && forall x :: x in s ==> x.start < x.end <= b
    ensures Below(Outermost(s), b)
    decreases |s|
  {
    if s != [] {
      assert s[0] in s;
      if Inside(s[0], s[1..]) {
        OutermostBelow(s[1..], b);
        assert [] + Outermost(s[1..]) == Outermost(s[1..]);
      } else {
        forall y | y in s[1..] ensures y.start < y.end <= s[0].start {
          var k :| 0 <= k < |s[1..]| && s[1..][k] == y;
          assert y == s[k + 1] && y in s;
        }
        OutermostBelow(s[1..], s[0].start);
        assert ([s[0]] + Outermost(s[1..]))[1..] == Outermost(s[1..]);
      }
    }
  }

  // ----- inner pieces as long as their placeholders -----

  ghost predicate Fits(text: string, m: Mapping, x: Extent) {
    && x.start < x.end <= |text|
    && (exists i :: 0 <= i < |m| && m[i].original == text[x.start..x.end])
    && |EntryFor(m, text[x.start..x.end]).placeholder| == x.end - x.start
  }

  /** Every accepted span inside another one is as long as its placeholder. */
  ghost predicate InnersFit(text: string, found: seq<Match>)
    requires Matches(text, found)
  {
    var a := Accept(text, found);
    forall x, y :: x in a.spans && y in a.spans && Engulfs(y, x) ==> Fits(text, a.mapping, x)
  }

  lemma {:induction false} ApartNotInside(spans: seq<Extent>, x: Extent, y: Extent)
    requires AllApart(spans) && x in spans && y in spans && x.start < x.end && y.start < y.end
    ensures !Engulfs(y, x)
  {
    var i :| 0 <= i < |spans| && spans[i] == x;
    var j :| 0 <= j < |spans| && spans[j] == y;
    if i < j { assert Apart(spans[i], spans[j]); }
    if j < i { assert Apart(spans[j], spans[i]); }
  }

  /** Disjoint spans in particular. */
  lemma {:induction false} ApartFits(text: string, found: seq<Match>)
    requires Matches(text, found) && AllApart(Accept(text, found).spans)
    ensures InnersFit(text, found)
  {
    var a := Accept(text, found);
    AcceptConsistent(text, found);
    forall x, y | x in a.spans && y in a.spans ensures !Engulfs(y, x) { ApartNotInside(a.spans, x, y); }
  }

  ghost predicate InnersFitIn(text: string, m: Mapping, s: seq<Extent>) {
    forall x, y :: x in s && y in s && Engulfs(y, x) ==> Fits(text, m, x)
  }

  /** The two texts differ at most from b to c. */
  ghost predicate SameOutside(r: string, t: string, b: nat, c: nat) {
    |r| == |t| && b <= c <= |r| && r[..b] == t[..b] && r[c..] == t[c..]
  }

  function Cut(r: string, x: Extent, p: string): string {
    Upto(r, x.start) + p + From(r, x.end)
  }

  lemma {:induction false} CutFits(r: string, x: Extent, p: string)
    requires x.start < x.end <= |r| && |p| == x.end - x.start
    ensures SameOutside(Cut(r, x, p), r, x.start, x.end)
  {
  }

  lemma {:induction false} CutBoth(r: string, t: string, b: nat, c: nat, x: Extent, p: string)
    requires SameOutside(r, t, b, c) && x.start < x.end <= |r| && |p| == x.end - x.start
    ensures SameOutside(Cut(r, x, p), Cut(t, x, p), b, c)
  {
    var u, v := Cut(r, x, p), Cut(t, x, p);
    forall k | 0 <= k < |r| && (k < b || k >= c) ensures u[k] == v[k] {
      assert k < b ==> r[k] == r[..b][k] && t[k] == t[..b][k];
      assert k >= c ==> r[k] == r[c..][k - c] && t[k] == t[c..][k - c];
    }
  }

  lemma {:induction false} CutAcross(r: string, t: string, b: nat, c: nat, x: Extent, p: string)
    requires SameOutside(r, t, b, c) && x.start <= b && c <= x.end <= |r|
    ensures Cut(r, x, p) == Cut(t, x, p)
  {
    assert r[..x.start] == r[..b][..x.start] && t[..x.start] == t[..b][..x.start];
    assert r[x.end..] == r[c..][x.end - c..] && t[x.end..] == t[c..][x.end - c..];
  }

  /** The first span is inside one that ends behind where it starts. */
  lemma {:induction false} FirstInside(text: string, m: Mapping, s: seq<Extent>, o: Extent)
    requires Laminar(s) && InnersFitIn(text, m, s) && o in s && s[0] != o && s[0].start < o.end
    ensures s[0] in s && o in s[1..] && Fits(text, m, s[0])
  {
    var k :| 0 <= k < |s| && s[k] == o;
    assert s[k].end <= s[0].start || Engulfs(s[k], s[0]);
    assert s[1..][k - 1] == o;
  }

  lemma {:induction false} RestLaminar(text: string, m: Mapping, s: seq<Extent>)
    requires Known(text, m, s) && Laminar(s) && InnersFitIn(text, m, s) && s != []
    ensures Known(text, m, s[1..]) && Laminar(s[1..]) && InnersFitIn(text, m, s[1..])
    ensures forall y :: y in s[1..] ==> y in s
  {
  }

  /** What differs only inside a span that is still to be cut out makes no difference. */
  lemma {:induction false} DifferenceVanishes(text: string, m: Mapping, s: seq<Extent>, r: string, t: string, b: nat,
      c: nat, o: Extent)
    requires Known(text, m, s) && Laminar(s) && InnersFitIn(text, m, s) && SameOutside(r, t, b, c) && b < c
    requires o in s && o.start < b && c < o.end <= |r| && forall y :: y in s ==> y.start <= b
    ensures Splice(text, m, s, r) == Splice(text, m, s, t)
    decreases |s|
  {
    var y := s[0];
    assert y in s;
    var p := EntryFor(m, text[y.start..y.end]).placeholder;
    if y == o {
      CutAcross(r, t, b, c, y, p);
    } else {
      FirstInside(text, m, s, o);
      CutBoth(r, t, b, c, y, p);
      RestLaminar(text, m, s);
      DifferenceVanishes(text, m, s[1..], Cut(r, y, p), Cut(t, y, p), b, c, o);
    }
  }

  ghost function PlaceholderOf(text: string, m: Mapping, x: Extent): string
    requires Known(text, m, [x])
  {
    assert x in [x];
    EntryFor(m, text[x.start..x.end]).placeholder
  }

  lemma {:induction false} SpliceCons(text: string, m: Mapping, s: seq<Extent>, r: string)
    requires s != [] && Known(text, m, s)
    ensures Known(text, m, [s[0]]) && Known(text, m, s[1..])
    ensures Splice(text, m, s, r) == Splice(text, m, s[1..], Cut(r, s[0], PlaceholderOf(text, m, s[0])))
  {
    assert s[0] in s && forall y :: y in s[1..] ==> y in s;
  }

  /** Spans to be cut out of a text that is long enough. */
  ghost predicate Cuttable(text: string, m: Mapping, s: seq<Extent>, r: string) {
    && Known(text, m, s) && Laminar(s) && Descending(s) && InnersFitIn(text, m, s)
    && forall x :: x in s ==> x.end <= |r|
  }

  lemma {:induction false} CuttableRest(text: string, m: Mapping, s: seq<Extent>, r: string, u: string)
    requires s != [] && Cuttable(text, m, s, r)
    requires |u| == |r| || (!Inside(s[0], s[1..]) && |u| >= s[0].start)
    ensures Cuttable(text, m, s[1..], u) && s[0].start < s[0].end <= |r|
  {
    assert s[0] in s && forall y :: y in s[1..] ==> y in s;
    if |u| != |r| { RestEndsBefore(s); }
  }

  lemma {:induction false} SpliceInner(text: string, m: Mapping, s: seq<Extent>, r: string)
    requires s != [] && Cuttable(text, m, s, r) && Inside(s[0], s[1..])
    ensures Known(text, m, s[1..]) && Splice(text, m, s, r) == Splice(text, m, s[1..], r)
  {
    var x, rest := s[0], s[1..];
    SpliceCons(text, m, s, r);
    CuttableRest(text, m, s, r, r);
    var o :| o in rest && Engulfs(o, x);
    assert x in s && o in s;
    assert Fits(text, m, x);
    var p := PlaceholderOf(text, m, x);
    CutFits(r, x, p);
    RestStartsBefore(s);
    DifferenceVanishes(text, m, rest, Cut(r, x, p), r, x.start, x.end, o);
  }

  lemma {:induction false} CutLength(r: string, x: Extent, p: string)
    requires x.start <= |r|
    ensures |Cut(r, x, p)| >= x.start
  {
  }

  lemma {:induction false} OutermostCons(s: seq<Extent>)
    requires s != []
    ensures Outermost(s) == if Inside(s[0], s[1..]) then Outermost(s[1..]) else [s[0]] + Outermost(s[1..])
  {
  }

  lemma {:induction false} KnownCons(text: string, m: Mapping, s: seq<Extent>, rest: seq<Extent>)
    requires s != [] && Known(text, m, s) && Known(text, m, rest)
    ensures Known(text, m, [s[0]] + rest)
  {
    assert s[0] in s;
  }

  /** Then cutting out all spans is cutting out those that are inside no other. */
  lemma {:induction false} SpliceOutermost(text: string, m: Mapping, s: seq<Extent>, r: string)
    requires Cuttable(text, m, s, r)
    ensures Known(text, m, Outermost(s))
    ensures Splice(text, m, s, r) == Splice(text, m, Outermost(s), r)
    decreases |s|, 1
  {
    if s != [] {
      OutermostCons(s);
      if Inside(s[0], s[1..]) {
        SpliceInner(text, m, s, r);
        CuttableRest(text, m, s, r, r);
        SpliceOutermost(text, m, s[1..], r);
      } else {
        SpliceOuter(text, m, s, r);
      }
    }
  }

  lemma {:induction false} SpliceOuter(text: string, m: Mapping, s: seq<Extent>, r: string)
    requires s != [] && Cuttable(text, m, s, r) && !Inside(s[0], s[1..])
    ensures Known(text, m, Outermost(s))
    ensures Splice(text, m, s, r) == Splice(text, m, Outermost(s), r)
    decreases |s|, 0
  {
    SpliceCons(text, m, s, r);
    var u := Cut(r, s[0], PlaceholderOf(text, m, s[0]));
    CuttableRest(text, m, s, r, r);
    CutLength(r, s[0], PlaceholderOf(text, m, s[0]));
    CuttableRest(text, m, s, r, u);
    SpliceOutermost(text, m, s[1..], u);
    var outer := Outermost(s[1..]);
    OutermostCons(s);
    KnownCons(text, m, s, outer);
    SpliceCons(text, m, [s[0]] + outer, r);
    assert ([s[0]] + outer)[1..] == outer;
  }

  lemma {:induction false} RestStartsBefore(s: seq<Extent>)
    requires s != [] && Descending(s)
    ensures forall y :: y in s[1..] ==> y.start <= s[0].start
  {
    forall y | y in s[1..] ensures y.start <= s[0].start {
      var k :| 0 <= k < |s[1..]| && s[1..][k] == y;
      assert s[k + 1] == y;
    }
  }

  lemma {:induction false} RestEndsBefore(s: seq<Extent>)
    requires s != [] && Laminar(s) && !Inside(s[0], s[1..])
    ensures forall y :: y in s[1..] ==> y.end <= s[0].start
  {
    forall y | y in s[1..] ensures y.end <= s[0].start {
      var k :| 0 <= k < |s[1..]| && s[1..][k] == y;
      assert s[k + 1] == y;
    }
  }

  /** The anonymized text of spans whose inner ones fit is that of the outer ones alone. */
  lemma {:induction false} OuterSpansSuffice(text: string, found: seq<Match>)
    requires Matches(text, found) && InnersFit(text, found)
    ensures var m, outer := Accept(text, found).mapping, OuterSpans(text, found);
            Known(text, m, outer) && Below(outer, |text|) && Anonymized(text, found) == Splice(text, m, outer, text)
  {
    var a := Accept(text, found);
    var s := SortDescending(a.spans);
    AcceptConsistent(text, found);
    AcceptedKnown(text, a);
    SortedLaminar(text, found);
    SortDescends(a.spans);
    forall x | x in s ensures x in a.spans { assert x in multiset(s); }
    SpliceOutermost(text, a.mapping, s, text);
    OutermostBelow(s, |text|);
  }

  // ----- one match inside another, exactly -----

  /** A text with two matches, the second around the first. */
  ghost predicate OneInside(text: string, found: seq<Match>) {
    && Matches(text, found) && |found| == 2 && Engulfs(ExtentOf(found[1]), ExtentOf(found[0]))
  }

  lemma {:induction false} FirstAccepted(text: string, c: Match)
    requires c.start < c.end <= |text|
    ensures Accept(text, [c]) == Accepted([ExtentOf(c)], map[c.kind := 1], [Entry(Placeholder(c.kind, 0),
        text[c.start..c.end])])
  {
    assert [c][..0] == [];
    assert Accept(text, []) == Accepted([], map[], []);
  }

  lemma {:induction false} BothAccepted(text: string, found: seq<Match>) returns (m: Mapping, q: string)
    requires OneInside(text, found)
    ensures Accept(text, found).spans == [ExtentOf(found[0]), ExtentOf(found[1])] && m == Accept(text, found).mapping
    ensures m == [Entry(Placeholder(found[0].kind, 0), text[found[0].start..found[0].end]),
        Entry(q, text[found[1].start..found[1].end])]
    ensures Shaped(Placeholder(found[0].kind, 0)) && Shaped(q) && Placeholder(found[0].kind, 0) != q
  {
    var c, d := found[0], found[1];
    var idx := if d.kind == c.kind then 1 else 0;
    q, m := Placeholder(d.kind, idx), Accept(text, found).mapping;
    TwoAccepted(text, c, d);
    assert found == [c, d];
    PlaceholderShaped(c.kind, 0);
    PlaceholderShaped(d.kind, idx);
    if q == Placeholder(c.kind, 0) { PlaceholderInjective(d.kind, idx, c.kind, 0); }
  }

  lemma {:induction false} AcceptBoth(text: string, c: Match, d: Match)
    requires c.start < c.end <= |text| && d.start < d.end <= |text|
    ensures Accept(text, [c, d]) == AcceptOne(text, Accept(text, [c]), d)
  {
    assert [c, d][..1] == [c];
  }

  /** What accepting one match, not blocked, adds. */
  lemma {:induction false} NextAccepted(text: string, a: Accepted, d: Match)
    requires d.start < d.end <= |text| && Consistent(text, a) && !Blocked(a.spans, d)
    ensures AcceptOne(text, a, d).spans == a.spans + [ExtentOf(d)]
    ensures AcceptOne(text, a, d).mapping
         == a.mapping + [Entry(Placeholder(d.kind, Count(a.counters, d.kind)), text[d.start..d.end])]
  {
    AcceptOneConsistent(text, a, d);
  }

  lemma {:induction false} NotBlockedInside(x: Extent, d: Match)
    requires Engulfs(ExtentOf(d), x)
    ensures !Blocked([x], d)
  {
  }

  lemma {:induction false} NextMapping(text: string, a: Accepted, x: Extent, e: Entry, kind: PiiType, d: Match)
    requires a == Accepted([x], map[kind := 1], [e]) && Consistent(text, a)
    requires d.start < d.end <= |text| && Engulfs(ExtentOf(d), x)
    ensures AcceptOne(text, a, d).spans == [x, ExtentOf(d)]
    ensures AcceptOne(text, a, d).mapping
         == [e, Entry(Placeholder(d.kind, if d.kind == kind then 1 else 0), text[d.start..d.end])]
  {
    NotBlockedInside(x, d);
    NextAccepted(text, a, d);
    assert Count(a.counters, d.kind) == if d.kind == kind then 1 else 0;
  }

  lemma {:induction false} TwoAccepted(text: string, c: Match, d: Match)
    requires c.start < c.end <= |text| && d.start < d.end <= |text| && Engulfs(ExtentOf(d), ExtentOf(c))
    ensures var a := Accept(text, [c, d]);
            && a.spans == [ExtentOf(c), ExtentOf(d)]
            && a.mapping == [Entry(Placeholder(c.kind, 0), text[c.start..c.end]),
                             Entry(Placeholder(d.kind, if d.kind == c.kind then 1 else 0), text[d.start..d.end])]
  {
    AcceptBoth(text, c, d);
    FirstAccepted(text, c);
    AcceptConsistent(text, [c]);
    NextMapping(text, Accept(text, [c]), ExtentOf(c), Entry(Placeholder(c.kind, 0), text[c.start..c.end]), c.kind, d);
  }

  /** The text behind the outer piece once the inner one is cut out, as the outer cut sees it. */
  function Tail(text: string, c: Extent, p: string, end: nat): string {
    From(Cut(text, c, p), end)
  }

  lemma {:induction false} SortedTwo(x: Extent, y: Extent)
    requires x.start > y.start
    ensures SortDescending([x, y]) == [x, y]
  {
    assert [x, y][1..] == [y] && [y][1..] == [];
    assert SortDescending([y]) == [y];
  }

  lemma {:induction false} FirstEntry(m: Mapping, v: string)
    requires m != [] && m[0].original == v
    ensures EntryFor(m, v) == m[0]
  {
  }

  lemma {:induction false} SecondEntry(m: Mapping, v: string)
    requires |m| == 2 && m[0].original != v && m[1].original == v
    ensures EntryFor(m, v) == m[1]
  {
    FirstEntry(m[1..], v);
  }

  lemma {:induction false} SpliceTwo(text: string, m: Mapping, x: Extent, y: Extent)
    requires Known(text, m, [x, y])
    ensures Known(text, m, [x]) && Known(text, m, [y])
    ensures Splice(text, m, [x, y], text) == Cut(Cut(text, x, PlaceholderOf(text, m, x)), y, PlaceholderOf(text, m, y))
  {
    assert [x, y][1..] == [y] && [y][1..] == [];
    SpliceCons(text, m, [x, y], text);
    SpliceCons(text, m, [y], Cut(text, x, PlaceholderOf(text, m, x)));
  }

  lemma {:induction false} AnonymizedAs(text: string, found: seq<Match>, m: Mapping, s: seq<Extent>)
    requires Matches(text, found) && m == Accept(text, found).mapping && s == SortDescending(Accept(text, found).spans)
    ensures Known(text, m, s) && Anonymized(text, found) == Splice(text, m, s, text)
  {
    AcceptConsistent(text, found);
    AcceptedKnown(text, Accept(text, found));
  }

  lemma {:induction false} CutFront(text: string, x: Extent, y: Extent, p: string, q: string)
    requires y.start <= x.start <= |text|
    ensures Cut(Cut(text, x, p), y, q) == text[..y.start] + q + Tail(text, x, p, y.end)
  {
    assert Cut(text, x, p)[..y.start] == text[..y.start];
  }

  /** Cutting out a span and then one around it, which have the two entries of the mapping. */
  lemma {:induction false} CutTwo(text: string, m: Mapping, x: Extent, y: Extent, p: string, q: string)
    requires Known(text, m, [x, y]) && y.start <= x.start < x.end <= |text| && y.start < y.end <= |text|
    requires |m| == 2 && m[0] == Entry(p, text[x.start..x.end]) && m[1] == Entry(q, text[y.start..y.end])
    requires |text[x.start..x.end]| != |text[y.start..y.end]|
    ensures Splice(text, m, [x, y], text) == text[..y.start] + q + Tail(text, x, p, y.end)
  {
    SpliceTwo(text, m, x, y);
    FirstEntry(m, text[x.start..x.end]);
    SecondEntry(m, text[y.start..y.end]);
    CutFront(text, x, y, p, q);
  }

  lemma {:induction false} OneInsideSpliced(text: string, found: seq<Match>, m: Mapping, x: Extent, y: Extent)
    requires OneInside(text, found) && m == Accept(text, found).mapping && Accept(text, found).spans == [x, y]
    requires x.start > y.start
    ensures Known(text, m, [x, y]) && Anonymized(text, found) == Splice(text, m, [x, y], text)
  {
    SortedTwo(x, y);
    AnonymizedAs(text, found, m, [x, y]);
  }

  lemma {:induction false} EngulfedLength(text: string, x: Extent, y: Extent)
    requires x.start < x.end <= |text| && y.start < y.end <= |text| && Engulfs(y, x)
    ensures y.start < x.start && |text[x.start..x.end]| < |text[y.start..y.end]|
  {
  }

  lemma {:induction false} OneInsideCut(text: string, found: seq<Match>, m: Mapping, x: Extent, y: Extent, p: string,
      q: string)
    requires OneInside(text, found) && m == Accept(text, found).mapping && Accept(text, found).spans == [x, y]
    requires x.start < x.end <= |text| && y.start < y.end <= |text| && Engulfs(y, x)
    requires |m| == 2 && m[0] == Entry(p, text[x.start..x.end]) && m[1] == Entry(q, text[y.start..y.end])
    ensures Anonymized(text, found) == text[..y.start] + q + Tail(text, x, p, y.end)
  {
    EngulfedLength(text, x, y);
    OneInsideSpliced(text, found, m, x, y);
    CutTwo(text, m, x, y, p, q);
  }

  lemma {:induction false} CutAtIndex(text: string, c: Extent, p: string, k: nat)
    requires c.start < c.end <= |text| && c.start <= k < |Cut(text, c, p)|
    ensures k < c.start + |p| ==> Cut(text, c, p)[k] == p[k - c.start]
    ensures k >= c.start + |p| ==> Cut(text, c, p)[k] == text[k - |p| + (c.end - c.start)]
  {
  }

  lemma {:induction false} TailPlain(text: string, c: Extent, p: string, end: nat)
    requires Plain(text) && Shaped(p) && c.start < c.end < end <= |text|
    ensures '[' !in Tail(text, c, p, end)
  {
    ShapedTail(p);
    var r := Cut(text, c, p);
    forall k | end <= k < |r| ensures r[k] != '[' {
      CutAtIndex(text, c, p, k);
      if k < c.start + |p| {
        assert p[k - c.start] == p[1..][k - c.start - 1];
        assert p[1..][k - c.start - 1] in p[1..];
      } else {
        assert text[k - |p| + (c.end - c.start)] in text;
      }
    }
  }

  lemma {:induction false} ReplaceAllTwo(m: Mapping, s: string)
    requires |m| == 2
    ensures ReplaceAll(m, s) == Replace(Replace(s, m[0].placeholder, m[0].original), m[1].placeholder, m[1].original)
  {
    assert m[1..] == [m[1]] && [m[1]][1..] == [];
    assert forall t :: ReplaceAll([], t) == t;
    assert forall t :: ReplaceAll([m[1]], t) == Replace(t, m[1].placeholder, m[1].original);
  }

  lemma {:induction false} OneInsideReplaced(m: Mapping, a: string, tail: string)
    requires |m| == 2 && ShapedMapping(m) && '[' !in a && '[' !in tail
    ensures ReplaceAll(m, a + (m[1].placeholder + tail)) == a + (m[1].original + tail)
  {
    var p, q := m[0].placeholder, m[1].placeholder;
    assert m[0] in m && m[1] in m;
    ReplaceAllTwo(m, a + (q + tail));
    ReplaceOver(a, q + tail, p, m[0].original);
    ReplaceMiss(q, tail, p, m[0].original);
    ReplacePlain(tail, p, m[0].original);
    ReplaceOver(a, q + tail, q, m[1].original);
    ReplaceHit(q, tail, m[1].original);
    ReplacePlain(tail, q, m[1].original);
  }

  /** What comes back is the text up to the end of the outer piece, and then that tail. */
  lemma {:induction false} OneInsideRestored(m: Mapping, a: string, tail: string)
    requires |m| == 2 && ShapedMapping(m) && '[' !in a && '[' !in tail
    ensures Deanonymized(m, a + (m[1].placeholder + tail)) == (a + (m[1].original + tail), [])
  {
    var s := a + (m[1].placeholder + tail);
    assert m[1] in m;
    HoldClosed(m, a, m[1].placeholder, tail);
    assert s + [] == s;
    BodyIs(m, s, s);
    OneInsideReplaced(m, a, tail);
  }

  lemma {:induction false} TailIsRest(text: string, c: Extent, p: string, end: nat)
    requires c.start < c.end < end <= |text|
    ensures Tail(text, c, p, end) == text[end..]
       <==> |p| == c.end - c.start || (|p| < c.end - c.start && end == |text|)
  {
    var r := Cut(text, c, p);
    assert |r| == |text| + |p| - (c.end - c.start);
    if |p| == c.end - c.start { CutFits(text, c, p); }
  }

  /**
   One match inside another: a bracket-free text comes back iff the inner piece is as long as its
   placeholder, or is longer and nothing follows the outer piece. Otherwise text is lost, or a piece
   of the cut-out text is left over.
   */
  lemma {:induction false} OneInsideIff(text: string, found: seq<Match>)
    requires OneInside(text, found) && Plain(text)
    ensures var c, d := found[0], found[1];
            var hidden := |Placeholder(c.kind, 0)|;
            Deanonymized(Accept(text, found).mapping, Anonymized(text, found)) == (text, [])
            <==> hidden == c.end - c.start || (hidden < c.end - c.start && d.end == |text|)
  {
    var c, d := ExtentOf(found[0]), ExtentOf(found[1]);
    var m, q := BothAccepted(text, found);
    var p := Placeholder(found[0].kind, 0);
    var a, tail := text[..d.start], Tail(text, c, p, d.end);
    OneInsideCut(text, found, m, c, d, p, q);
    TailPlain(text, c, p, d.end);
    Associates(a, q, tail);
    PlainPiece(text, c);
    PlainPiece(text, d);
    OneInsideRestored(m, a, tail);
    TailIsRest(text, c, p, d.end);
    SplitText(text, d, tail);
  }

  lemma {:induction false} PlainPiece(text: string, x: Extent)
    requires Plain(text) && x.start < x.end <= |text|
    ensures Plain(text[x.start..x.end]) && '[' !in text[..x.start]
  {
  }

  lemma {:induction false} SplitText(text: string, d: Extent, tail: string)
    requires d.start < d.end <= |text|
    ensures text[..d.start] + (text[d.start..d.end] + tail) == text <==> tail == text[d.end..]
  {
    var front := text[..d.start] + (text[d.start..d.end] + tail);
    assert front[d.end..] == tail;
    assert text == text[..d.start] + (text[d.start..d.end] + text[d.end..]);
  }

  /** A social security number inside an email address: the text does not come back. */
  lemma {:induction false} NumberInAddress() returns (text: string, found: seq<Match>)
    ensures Matches(text, found) && Plain(text)
    ensures text == "a.123-45-6789@x.com hello" && found == [Match(SSN, 2, 13), Match(EMAIL, 0, 19)]
    ensures Deanonymized(Accept(text, found).mapping, Anonymized(text, found)) != (text, [])
  {
    text, found := "a.123-45-6789@x.com hello", [Match(SSN, 2, 13), Match(EMAIL, 0, 19)];
    assert Decimal(0) == "0" && |Placeholder(SSN, 0)| == 7;
    OneInsideIff(text, found);
  }
}
