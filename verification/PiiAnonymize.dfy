/**
 `anonymize_text` (demos/filter_chains/pii_anonymizer/pii.py): which matches are accepted, the
 placeholders they get, and the text with the accepted spans cut out from right to left. The
 regular expressions are not part of the model: their matches, in the order the code visits them,
 are the input.
 */
module PiiAnonymize {
  import opened Strings
  import opened PiiReplace

  datatype PiiType = SSN | CREDIT_CARD | EMAIL | PHONE
  {
    function Name(): string {
      match this
      case SSN => "SSN"
      case CREDIT_CARD => "CREDIT_CARD"
      case EMAIL => "EMAIL"
      case PHONE => "PHONE"
    }
  }

  /** A regular expression match, `text[start:end]`. */
  datatype Match = Match(kind: PiiType, start: nat, end: nat)

  datatype Extent = Extent(start: nat, end: nat)

  /** Matches are non-empty pieces of the text. */
  ghost predicate Matches(text: string, found: seq<Match>) {
    forall c :: c in found ==> c.start < c.end <= |text|
  }

  // ----- placeholders -----

  /** f"[{pii_type}_{idx}]" */
  function Placeholder(kind: PiiType, idx: nat): string {
    "[" + (kind.Name() + ("_" + Decimal(idx))) + "]"
  }

  lemma {:induction false} PlaceholderShaped(kind: PiiType, idx: nat)
    ensures Shaped(Placeholder(kind, idx))
  {
    var p := Placeholder(kind, idx);
    DecimalDigits(idx);
    assert p[1..|p| - 1] == kind.Name() + ("_" + Decimal(idx));
    assert Plain(kind.Name());
  }

  lemma {:induction false} PlaceholderInjective(k: PiiType, i: nat, l: PiiType, j: nat)
    requires Placeholder(k, i) == Placeholder(l, j)
    ensures k == l && i == j
  {
    var a, b := k.Name() + ("_" + Decimal(i)), l.Name() + ("_" + Decimal(j));
    Unbracket(a);
    Unbracket(b);
    assert a[0] == k.Name()[0] && b[0] == l.Name()[0];
    var u, v := "_" + Decimal(i), "_" + Decimal(j);
    assert a[|k.Name()|..] == u && b[|l.Name()|..] == v;
    assert u[1..] == Decimal(i) && v[1..] == Decimal(j);
    DecimalInjective(i, j);
  }

  lemma {:induction false} Unbracket(a: string)
    ensures ("[" + a + "]")[1..|a| + 1] == a
  {
  }

  // ----- accepting matches -----

  /** The overlap test of the loop: either end of the match lies in an accepted span. */
  predicate Blocked(spans: seq<Extent>, c: Match) {
    exists i :: 0 <= i < |spans| && (spans[i].start <= c.start < spans[i].end || spans[i].start < c.end <= spans[i].end)
  }

  /** `mapping[k] = v` on a dict in insertion order. */
  function Put(m: Mapping, k: string, v: string): Mapping {
    if m == [] then [Entry(k, v)]
    else if m[0].placeholder == k then [Entry(k, v)] + m[1..]
    else [m[0]] + Put(m[1..], k, v)
  }

  datatype Accepted = Accepted(spans: seq<Extent>, counters: map<PiiType, nat>, mapping: Mapping)

  function Count(counters: map<PiiType, nat>, kind: PiiType): nat {
    if kind in counters then counters[kind] else 0
  }

  function AcceptOne(text: string, a: Accepted, c: Match): Accepted
    requires c.start < c.end <= |text|
  {
    if Blocked(a.spans, c) then a
    else
      var idx := Count(a.counters, c.kind);
      Accepted(a.spans + [Extent(c.start, c.end)],
               a.counters[c.kind := idx + 1],
               Put(a.mapping, Placeholder(c.kind, idx), text[c.start..c.end]))
  }

  function Accept(text: string, found: seq<Match>): Accepted
    requires forall c :: c in found ==> c.start < c.end <= |text|
  {
    if found == [] then Accepted([], map[], [])
    else
      var n := |found| - 1;
      AcceptOne(text, Accept(text, found[..n]), found[n])
  }

  ghost predicate Numbered(e: Entry, counters: map<PiiType, nat>) {
    exists kind, idx: nat :: idx < Count(counters, kind) && e.placeholder == Placeholder(kind, idx)
  }

  /** The dict has one entry per accepted span, under distinct placeholders. */
  ghost predicate Consistent(text: string, a: Accepted) {
    && |a.mapping| == |a.spans|
    && (forall i :: 0 <= i < |a.spans| ==>
         a.spans[i].start < a.spans[i].end <= |text| &&
         a.mapping[i].original == text[a.spans[i].start..a.spans[i].end])
    && (forall e :: e in a.mapping ==> Numbered(e, a.counters))
    && (forall i, j :: 0 <= i < j < |a.mapping| ==> a.mapping[i].placeholder != a.mapping[j].placeholder)
  }

  lemma {:induction false} PutFresh(m: Mapping, k: string, v: string)
    requires forall e :: e in m ==> e.placeholder != k
    ensures Put(m, k, v) == m + [Entry(k, v)]
  {
    if m != [] {
      assert m[0] in m;
      PutFresh(m[1..], k, v);
      assert m == [m[0]] + m[1..];
    }
  }

  lemma {:induction false} NumberedGrows(e: Entry, counters: map<PiiType, nat>, kind: PiiType)
    requires Numbered(e, counters)
    ensures Numbered(e, counters[kind := Count(counters, kind) + 1])
  {
    var k, i: nat :| i < Count(counters, k) && e.placeholder == Placeholder(k, i);
    assert i < Count(counters[kind := Count(counters, kind) + 1], k);
  }

  lemma {:induction false} AcceptOneConsistent(text: string, a: Accepted, c: Match)
    requires c.start < c.end <= |text| && Consistent(text, a)
    ensures Consistent(text, AcceptOne(text, a, c))
    ensures !Blocked(a.spans, c) ==>
      AcceptOne(text, a, c).mapping
        == a.mapping + [Entry(Placeholder(c.kind, Count(a.counters, c.kind)), text[c.start..c.end])]
  {
    if !Blocked(a.spans, c) {
      var idx := Count(a.counters, c.kind);
      var k, v := Placeholder(c.kind, idx), text[c.start..c.end];
      forall e | e in a.mapping ensures e.placeholder != k {
        var l, j: nat :| j < Count(a.counters, l) && e.placeholder == Placeholder(l, j);
        if e.placeholder == k { PlaceholderInjective(l, j, c.kind, idx); }
      }
      PutFresh(a.mapping, k, v);
      var b := AcceptOne(text, a, c);
      forall e | e in b.mapping ensures Numbered(e, b.counters) {
        if e in a.mapping {
          NumberedGrows(e, a.counters, c.kind);
        } else {
          assert idx < Count(b.counters, c.kind);
        }
      }
    }
  }

  lemma {:induction false} AcceptConsistent(text: string, found: seq<Match>)
    requires Matches(text, found)
    ensures Consistent(text, Accept(text, found))
  {
    if found != [] {
      var n := |found| - 1;
      AcceptConsistent(text, found[..n]);
      AcceptOneConsistent(text, Accept(text, found[..n]), found[n]);
    }
  }

  // ----- disjoint spans -----

  predicate Apart(a: Extent, b: Extent) {
    a.end <= b.start || b.end <= a.start
  }

  ghost predicate AllApart(spans: seq<Extent>) {
    forall i, j :: 0 <= i < j < |spans| ==> Apart(spans[i], spans[j])
  }

  /** `b` extends past `a` on both sides. */
  predicate Engulfs(b: Extent, a: Extent) {
    b.start < a.start && a.end < b.end
  }

  /** Of two accepted spans, the later one is apart from the earlier one or extends past it on both sides. */
  lemma {:induction false} ApartOrEngulfs(text: string, found: seq<Match>, i: nat, j: nat)
    requires Matches(text, found) && i < j < |Accept(text, found).spans|
    ensures var s := Accept(text, found).spans; Apart(s[i], s[j]) != Engulfs(s[j], s[i])
  {
    var n := |found| - 1;
    var a, s := Accept(text, found[..n]), Accept(text, found).spans;
    AcceptConsistent(text, found);
    if j < |a.spans| {
      assert s[i] == a.spans[i] && s[j] == a.spans[j];
      ApartOrEngulfs(text, found[..n], i, j);
    } else {
      assert s[i] == a.spans[i] && !Blocked(a.spans, found[n]);
    }
  }

  function ExtentOf(c: Match): Extent {
    Extent(c.start, c.end)
  }

  /** The `n`th match is blocked by what was accepted before it, or extends past none of it. */
  ghost predicate Harmless(text: string, found: seq<Match>, n: nat)
    requires Matches(text, found) && n < |found|
  {
    var before := Accept(text, found[..n]).spans;
    Blocked(before, found[n]) || forall x :: x in before ==> !Engulfs(ExtentOf(found[n]), x)
  }

  lemma {:induction false} ApartMore(spans: seq<Extent>, y: Extent)
    ensures AllApart(spans + [y]) <==> AllApart(spans) && forall x :: x in spans ==> Apart(x, y)
  {
    var all := spans + [y];
    if AllApart(all) {
      forall i, j | 0 <= i < j < |spans| ensures Apart(spans[i], spans[j]) { assert Apart(all[i], all[j]); }
      forall x | x in spans ensures Apart(x, y) {
        var i :| 0 <= i < |spans| && spans[i] == x;
        assert Apart(all[i], all[|spans|]);
      }
    }
  }

  /** A match that is not blocked is apart from an accepted span, or extends past it on both sides. */
  lemma {:induction false} UnblockedApart(spans: seq<Extent>, c: Match, x: Extent)
    requires !Blocked(spans, c) && x in spans && c.start < c.end && x.start < x.end
    ensures Apart(x, ExtentOf(c)) != Engulfs(ExtentOf(c), x)
  {
  }

  /**
   The overlap test yields disjoint spans iff, at every match that is not blocked by what was
   accepted before it, the match extends past none of it on both sides.
   */
  lemma {:induction false} AcceptedApartIff(text: string, found: seq<Match>)
    requires Matches(text, found)
    ensures AllApart(Accept(text, found).spans) <==> forall n: nat :: n < |found| ==> Harmless(text, found, n)
  {
    if found != [] {
      var n := |found| - 1;
      AcceptedApartIff(text, found[..n]);
      HarmlessBefore(text, found);
      LastHarmless(text, found);
    }
  }

  lemma {:induction false} HarmlessBefore(text: string, found: seq<Match>)
    requires Matches(text, found) && found != []
    ensures var n := |found| - 1;
            (forall m: nat :: m < n ==> Harmless(text, found, m)) <==>
                forall m: nat :: m < n ==> Harmless(text, found[..n], m)
  {
    var n := |found| - 1;
    forall m: nat | m < n ensures Harmless(text, found, m) <==> Harmless(text, found[..n], m) {
      assert found[..n][..m] == found[..m];
    }
  }

  lemma {:induction false} LastHarmless(text: string, found: seq<Match>)
    requires Matches(text, found) && found != []
    ensures var n := |found| - 1;
            AllApart(Accept(text, found).spans) <==>
                AllApart(Accept(text, found[..n]).spans) && Harmless(text, found, n)
  {
    var n := |found| - 1;
    var before, c := Accept(text, found[..n]).spans, found[n];
    if !Blocked(before, c) {
      ApartMore(before, ExtentOf(c));
      AcceptConsistent(text, found[..n]);
      forall x | x in before ensures Apart(x, ExtentOf(c)) != Engulfs(ExtentOf(c), x) { UnblockedApart(before, c, x); }
    }
  }

  lemma {:induction false} SpanFound(text: string, found: seq<Match>, x: Extent)
    requires Matches(text, found) && x in Accept(text, found).spans
    ensures exists i :: 0 <= i < |found| && x == ExtentOf(found[i])
  {
    var n := |found| - 1;
    if x in Accept(text, found[..n]).spans {
      SpanFound(text, found[..n], x);
      var i :| 0 <= i < n && x == ExtentOf(found[..n][i]);
      assert x == ExtentOf(found[i]);
    } else {
      assert x == ExtentOf(found[n]);
    }
  }

  /** In particular when no match extends past one that was found before it. */
  lemma {:induction false} ApartWhenNoneNested(text: string, found: seq<Match>)
    requires Matches(text, found)
    requires forall i, j :: 0 <= i < j < |found| ==> !Engulfs(ExtentOf(found[j]), ExtentOf(found[i]))
    ensures AllApart(Accept(text, found).spans)
  {
    AcceptedApartIff(text, found);
    forall n: nat | n < |found| ensures Harmless(text, found, n) {
      forall x | x in Accept(text, found[..n]).spans ensures !Engulfs(ExtentOf(found[n]), x) {
        SpanFound(text, found[..n], x);
        var i :| 0 <= i < n && x == ExtentOf(found[..n][i]);
        assert found[..n][i] == found[i];
      }
    }
  }

  // ----- cutting the spans out -----

  /** Python's tuple order. */
  predicate Above(a: Extent, b: Extent) {
    a.start > b.start || (a.start == b.start && a.end >= b.end)
  }

  function InsertDescending(x: Extent, s: seq<Extent>): seq<Extent> {
    if s == [] || Above(x, s[0]) then [x] + s else [s[0]] + InsertDescending(x, s[1..])
  }

  /** `spans.sort(reverse=True)`: descending, the same extents. */
  function SortDescending(s: seq<Extent>): (r: seq<Extent>)
    ensures multiset(r) == multiset(s)
  {
    if s == [] then []
    else
      var r := SortDescending(s[1..]);
      InsertPermutes(s[0], r);
      assert s == [s[0]] + s[1..];
      InsertDescending(s[0], r)
  }

  lemma {:induction false} InsertPermutes(x: Extent, s: seq<Extent>)
    ensures multiset(InsertDescending(x, s)) == multiset(s) + multiset{x}
  {
    if s != [] && !Above(x, s[0]) {
      InsertPermutes(x, s[1..]);
      assert s == [s[0]] + s[1..];
    }
  }

  /** The placeholder of the first entry whose original is `v`. */
  function EntryFor(m: Mapping, v: string): (e: Entry)
    requires exists i :: 0 <= i < |m| && m[i].original == v
    ensures e in m && e.original == v
  {
    if m[0].original == v then m[0]
    else
      assert exists i :: 0 <= i < |m[1..]| && m[1..][i].original == v by {
        var i :| 0 <= i < |m| && m[i].original == v;
        assert m[1..][i - 1] == m[i];
      }
      EntryFor(m[1..], v)
  }

  /** Every extent is a piece of the text that the mapping has an entry for. */
  ghost predicate Known(text: string, m: Mapping, spans: seq<Extent>) {
    forall x :: x in spans ==>
      x.start < x.end <= |text| && exists i :: 0 <= i < |m| && m[i].original == text[x.start..x.end]
  }

  /** Python's `r[:i]` and `r[i:]`, which clamp. */
  function Upto(r: string, i: nat): string { if i <= |r| then r[..i] else r }
  function From(r: string, i: nat): string { if i <= |r| then r[i..] else [] }

  function Splice(text: string, m: Mapping, spans: seq<Extent>, result: string): string
    requires Known(text, m, spans)
  {
    if spans == [] then result
    else
      var x := spans[0];
      assert x in spans;
      Splice(text, m, spans[1..], Upto(result, x.start) + EntryFor(m, text[x.start..x.end]).placeholder
          + From(result, x.end))
  }

  lemma {:induction false} AcceptedKnown(text: string, a: Accepted)
    requires Consistent(text, a)
    ensures Known(text, a.mapping, SortDescending(a.spans))
  {
    forall x | x in SortDescending(a.spans)
      ensures x.start < x.end <= |text|
      ensures exists i :: 0 <= i < |a.mapping| && a.mapping[i].original == text[x.start..x.end]
    {
      assert x in multiset(SortDescending(a.spans));
      assert x in a.spans;
      var i :| 0 <= i < |a.spans| && a.spans[i] == x;
      assert a.mapping[i].original == text[x.start..x.end];
    }
  }

  /** The anonymized text. */
  function Anonymized(text: string, found: seq<Match>): string
    requires forall c :: c in found ==> c.start < c.end <= |text|
  {
    AcceptConsistent(text, found);
    AcceptedKnown(text, Accept(text, found));
    Splice(text, Accept(text, found).mapping, SortDescending(Accept(text, found).spans), text)
  }

  method AnonymizeText(text: string, found: seq<Match>) returns (result: string, mapping: Mapping)
    requires forall c :: c in found ==> c.start < c.end <= |text|
    ensures result == Anonymized(text, found)
    ensures mapping == Accept(text, found).mapping
  {
    var matchedSpans;
    matchedSpans, mapping := AcceptMatches(text, found);
    AcceptConsistent(text, found);
    AcceptedKnown(text, Accept(text, found));
    result := CutOut(text, mapping, SortDescending(matchedSpans));
  }

  /** The loop over the matches. */
  method AcceptMatches(text: string, found: seq<Match>) returns (matchedSpans: seq<Extent>, mapping: Mapping)
    requires forall c :: c in found ==> c.start < c.end <= |text|
    ensures matchedSpans == Accept(text, found).spans && mapping == Accept(text, found).mapping
  {
    mapping, matchedSpans := [], [];
    var counters: map<PiiType, nat> := map[];
    for i := 0 to |found|
      invariant Accepted(matchedSpans, counters, mapping) == Accept(text, found[..i])
    {
      var c := found[i];
      assert found[..i + 1][..i] == found[..i];
      if !Blocked(matchedSpans, c) {
        matchedSpans := matchedSpans + [Extent(c.start, c.end)];
        var idx := Count(counters, c.kind);
        counters := counters[c.kind := idx + 1];
        mapping := Put(mapping, Placeholder(c.kind, idx), text[c.start..c.end]);
      }
    }
    assert found[..|found|] == found;
  }

  /** The right-to-left replacement loop. */
  method CutOut(text: string, mapping: Mapping, spans: seq<Extent>) returns (result: string)
    requires Known(text, mapping, spans)
    ensures result == Splice(text, mapping, spans, text)
  {
    result := text;
    assert spans[0..] == spans;
    for i := 0 to |spans|
      invariant Known(text, mapping, spans[i..])
      invariant Splice(text, mapping, spans[i..], result) == Splice(text, mapping, spans, text)
    {
      SpliceNext(text, mapping, spans, i, result);
      var x := spans[i];
      var placeholder := EntryFor(mapping, text[x.start..x.end]).placeholder;
      result := Upto(result, x.start) + placeholder + From(result, x.end);
    }
  }

  lemma {:induction false} SpliceNext(text: string, mapping: Mapping, spans: seq<Extent>, i: nat, result: string)
    requires i < |spans| && Known(text, mapping, spans[i..])
    ensures Known(text, mapping, spans[i + 1..]) && Known(text, mapping, [spans[i]])
    ensures var x := spans[i];
            assert x in [spans[i]];
            Splice(text, mapping, spans[i..], result)
            == Splice(text, mapping, spans[i + 1..],
                      Upto(result, x.start) + EntryFor(mapping, text[x.start..x.end]).placeholder + From(result, x.end))
  {
    assert spans[i..][1..] == spans[i + 1..] && spans[i] in spans[i..];
  }
}
