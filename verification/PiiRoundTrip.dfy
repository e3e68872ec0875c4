/** De-anonymizing an anonymized text (demos/filter_chains/pii_anonymizer/pii.py) gives the text back. */
module PiiRoundTrip {
  import opened Collections
  import opened Strings
  import opened PiiReplace
  import opened PiiStream
  import opened PiiAnonymize
  import opened PiiNested

  /** A text as gaps and mapped pieces between them. */
  datatype Woven = Gap(text: string) | Snoc(init: Woven, entry: Entry, gap: string)

  function Shown(e: Entry, pending: Mapping): string {
    if e in pending then e.placeholder else e.original
  }

  /** The text with the placeholders of `pending` shown and the other pieces restored. */
  function Render(w: Woven, pending: Mapping): string {
    match w
    case Gap(t) => t
    case Snoc(init, e, gap) => Render(init, pending) + (Shown(e, pending) + gap)
  }

  ghost predicate Uses(w: Woven, m: Mapping) {
    match w
    case Gap(_) => true
    case Snoc(init, e, _) => e in m && Uses(init, m)
  }

  ghost predicate PlainGaps(w: Woven) {
    match w
    case Gap(t) => Plain(t)
    case Snoc(init, _, gap) => Plain(gap) && PlainGaps(init)
  }

  // ----- the anonymized text, woven -----

  function Weave(text: string, m: Mapping, spans: seq<Extent>, b: nat): Woven
    requires Below(spans, b) && b <= |text| && Known(text, m, spans)
    decreases spans
  {
    if spans == [] then Gap(text[..b])
    else
      var x := spans[0];
      assert x in spans;
      Snoc(Weave(text, m, spans[1..], x.start), EntryFor(m, text[x.start..x.end]), text[x.end..b])
  }

  lemma {:induction false} WeaveUses(text: string, m: Mapping, spans: seq<Extent>, b: nat)
    requires Below(spans, b) && b <= |text| && Known(text, m, spans)
    ensures Uses(Weave(text, m, spans, b), m)
    ensures Plain(text) ==> PlainGaps(Weave(text, m, spans, b))
    decreases spans
  {
    if spans != [] {
      assert spans[0] in spans;
      WeaveUses(text, m, spans[1..], spans[0].start);
    }
  }

  /** Restoring every piece gives the text back. */
  lemma {:induction false} WeaveText(text: string, m: Mapping, spans: seq<Extent>, b: nat)
    requires Below(spans, b) && b <= |text| && Known(text, m, spans)
    ensures Render(Weave(text, m, spans, b), []) == text[..b]
    decreases spans
  {
    if spans != [] {
      var x := spans[0];
      assert x in spans;
      WeaveText(text, m, spans[1..], x.start);
      assert text[..x.start] + (text[x.start..x.end] + text[x.end..b]) == text[..b];
    }
  }

  /** The right-to-left loop weaves the placeholders in. */
  lemma {:induction false} SpliceWeaves(text: string, m: Mapping, spans: seq<Extent>, b: nat, tail: string)
    requires Below(spans, b) && b <= |text| && Known(text, m, spans)
    ensures Splice(text, m, spans, text[..b] + tail) == Render(Weave(text, m, spans, b), m) + tail
    decreases spans
  {
    if spans != [] {
      var x := spans[0];
      assert x in spans;
      var p := EntryFor(m, text[x.start..x.end]).placeholder;
      CutPiece(text, x, b, p, tail);
      SpliceWeaves(text, m, spans[1..], x.start, p + text[x.end..b] + tail);
      Associates(Render(Weave(text, m, spans[1..], x.start), m), p + text[x.end..b], tail);
    }
  }

  lemma {:induction false} CutPiece(text: string, x: Extent, b: nat, p: string, tail: string)
    requires x.start < x.end <= b <= |text|
    ensures var r := text[..b] + tail;
            Upto(r, x.start) + p + From(r, x.end) == text[..x.start] + (p + text[x.end..b] + tail)
  {
    var r := text[..b] + tail;
    assert r[..x.start] == text[..x.start];
    assert r[x.end..] == text[x.end..b] + tail;
  }

  // ----- restoring a text without brackets -----

  ghost predicate PlainPieces(w: Woven) {
    match w
    case Gap(t) => Plain(t)
    case Snoc(init, e, gap) => Plain(e.original) && Plain(gap) && PlainPieces(init)
  }

  lemma {:induction false} UsesPlain(w: Woven, m: Mapping)
    requires ShapedMapping(m) && Uses(w, m) && PlainGaps(w)
    ensures PlainPieces(w)
  {
    if w.Snoc? { UsesPlain(w.init, m); }
  }

  /** In a woven text every '[' is closed, so nothing is held back. */
  lemma {:induction false} HoldWoven(m: Mapping, w: Woven, pending: Mapping)
    requires ShapedMapping(m) && PlainPieces(w) && forall e :: e in pending ==> Shaped(e.placeholder)
    ensures Hold(m, Render(w, pending)) == []
  {
    match w
    case Gap(t) => HoldUnopened(m, t);
    case Snoc(init, e, gap) =>
      var a := Render(init, pending);
      if e in pending {
        HoldClosed(m, a, e.placeholder, gap);
      } else {
        HoldWoven(m, init, pending);
        var c := e.original + gap;
        HoldChain(m, a, c);
        assert [] + c == c;
        HoldUnopened(m, c);
      }
  }

  /** Replacing distributes over a clean cut. */
  lemma {:induction false} ReplaceCut(e: Entry, a: string, d: string)
    requires ShapedMapping([e]) && CleanCut([e], a, d)
    ensures var (p, r) := (e.placeholder, e.original);
            Replace(a + d, p, r) == Replace(a, p, r) + Replace(d, p, r)
  {
    SubstituteCut([e], a, d);
    ReplaceIsSubstitute(e, a + d);
    ReplaceIsSubstitute(e, a);
    ReplaceIsSubstitute(e, d);
  }

  lemma {:induction false} ReplaceIsSubstitute(e: Entry, s: string)
    requires ShapedMapping([e])
    ensures Replace(s, e.placeholder, e.original) == Substitute([e], s)
  {
    ReplaceAllIsSubstitute([e], s);
    assert [e][1..] == [];
  }

  /** Replacing one entry restores its pieces and keeps the others. */
  lemma {:induction false} ReplaceWoven(w: Woven, m: Mapping)
    requires ShapedMapping(m) && m != [] && PlainPieces(w)
    ensures Replace(Render(w, m), m[0].placeholder, m[0].original) == Render(w, m[1..])
  {
    var e0 := m[0];
    var p, r := e0.placeholder, e0.original;
    assert e0 in m;
    match w
    case Gap(t) => ReplacePlain(t, p, r);
    case Snoc(init, e, gap) =>
      var a, d := Render(init, m), Shown(e, m) + gap;
      HoldWoven([e0], init, m);
      Unheld(e0, a);
      assert CleanCut([e0], a, d) by {
        if e in m { assert d[0] == e.placeholder[0]; } else { BodyCut([e0], a, d); }
      }
      ReplaceCut(e0, a, d);
      ReplaceWoven(init, m);
      ReplacePiece(e, gap, m);
  }

  lemma {:induction false} Unheld(e: Entry, a: string)
    requires Hold([e], a) == []
    ensures Body([e], a) == a
  {
  }

  /** How a piece is shown before and after the first entry is replaced. */
  lemma {:induction false} ShownNext(e: Entry, m: Mapping)
    requires ShapedMapping(m) && m != []
    ensures Shown(e, m) == if e in m then e.placeholder else e.original
    ensures Shown(e, m[1..]) == if e in m && e != m[0] then e.placeholder else e.original
    ensures e in m ==> Shaped(e.placeholder) && (e != m[0] ==> e.placeholder != m[0].placeholder)
  {
    assert m == [m[0]] + m[1..];
    if e in m && e != m[0] {
      var i :| 0 <= i < |m| && m[i] == e;
    }
  }

  lemma {:induction false} ReplacePiece(e: Entry, gap: string, m: Mapping)
    requires ShapedMapping(m) && m != [] && Plain(gap) && Plain(e.original)
    ensures Replace(Shown(e, m) + gap, m[0].placeholder, m[0].original) == Shown(e, m[1..]) + gap
  {
    var p, r := m[0].placeholder, m[0].original;
    assert m[0] in m;
    ReplacePlain(gap, p, r);
    ShownNext(e, m);
    if e == m[0] {
      ReplaceHit(p, gap, r);
    } else if e in m {
      ReplaceMiss(e.placeholder, gap, p, r);
    } else {
      ReplacePlain(e.original + gap, p, r);
    }
  }

  /** The whole loop restores every piece. */
  lemma {:induction false} ReplaceAllWoven(w: Woven, m: Mapping)
    requires ShapedMapping(m) && PlainPieces(w)
    ensures ReplaceAll(m, Render(w, m)) == Render(w, [])
  {
    if m != [] {
      ReplaceWoven(w, m);
      TailShaped(m);
      ReplaceAllWoven(w, m[1..]);
    }
  }

  /** The mapping of accepted bracket-free matches. */
  lemma {:induction false} AcceptedShaped(text: string, found: seq<Match>)
    requires Matches(text, found) && forall c :: c in found ==> Plain(text[c.start..c.end])
    ensures ShapedMapping(Accept(text, found).mapping)
  {
    var a := Accept(text, found);
    AcceptConsistent(text, found);
    forall e | e in a.mapping ensures Shaped(e.placeholder) && Plain(e.original) {
      var kind, idx: nat :| idx < Count(a.counters, kind) && e.placeholder == Placeholder(kind, idx);
      PlaceholderShaped(kind, idx);
      var i :| 0 <= i < |a.mapping| && a.mapping[i] == e;
      SpanFound(text, found, a.spans[i]);
    }
  }

  /**
   De-anonymizing gives a bracket-free text back, with nothing left in the buffer, if the spans are
   disjoint, or if those inside another one are as long as their placeholders.
   */
  lemma {:induction false} RoundTrip(text: string, found: seq<Match>)
    requires Matches(text, found) && Plain(text) && InnersFit(text, found)
    ensures Deanonymized(Accept(text, found).mapping, Anonymized(text, found)) == (text, [])
  {
    var m := Accept(text, found).mapping;
    AcceptedShaped(text, found);
    var w := AnonymizedGaps(text, found);
    UsesPlain(w, m);
    HoldWoven(m, w, m);
    assert Body(m, Render(w, m)) == Render(w, m);
    ReplaceAllWoven(w, m);
  }

  // ----- texts with brackets of their own -----

  /** The text outside the accepted spans, from right to left. */
  function Gaps(text: string, spans: seq<Extent>, b: nat): (gaps: seq<string>)
    requires Below(spans, b) && b <= |text|
    ensures gaps != []
    decreases spans
  {
    if spans == [] then [text[..b]]
    else [text[spans[0].end..b]] + Gaps(text, spans[1..], spans[0].start)
  }

  ghost predicate FreeOf(m: Mapping, s: string) {
    forall e :: e in m ==> !Contains(s, e.placeholder)
  }

  /** The woven text with every gap substituted as well. */
  function Restored(w: Woven, m: Mapping): string
    requires forall e :: e in m ==> e.placeholder != []
  {
    match w
    case Gap(t) => Substitute(m, t)
    case Snoc(init, e, gap) => Restored(init, m) + (e.original + Substitute(m, gap))
  }

  lemma {:induction false} SubstituteWoven(w: Woven, m: Mapping)
    requires ShapedMapping(m) && Uses(w, m)
    ensures Substitute(m, Render(w, m)) == Restored(w, m)
  {
    match w
    case Gap(t) =>
    case Snoc(init, e, gap) =>
      var a, d := Render(init, m), e.placeholder + gap;
      var i :| 0 <= i < |m| && m[i] == e;
      assert d[0] == e.placeholder[0] == '[';
      SubstituteCut(m, a, d);
      SubstituteHit(m, i, gap);
      SubstituteWoven(init, m);
  }

  function Opens(s: string): nat {
    if s == [] then 0 else (if s[0] == '[' then 1 else 0) + Opens(s[1..])
  }

  lemma {:induction false} OpensAdds(a: string, b: string)
    ensures Opens(a + b) == Opens(a) + Opens(b)
  {
    if a == [] {
      assert a + b == b;
    } else {
      assert (a + b)[1..] == a[1..] + b;
      OpensAdds(a[1..], b);
    }
  }

  lemma {:induction false} OpensPlain(s: string)
    requires '[' !in s
    ensures Opens(s) == 0
  {
    if s != [] {
      assert s[0] in s;
      OpensPlain(s[1..]);
    }
  }

  /** Substitution changes the text only by removing brackets. */
  lemma {:induction false} SubstituteOpens(m: Mapping, s: string)
    requires ShapedMapping(m)
    ensures Opens(Substitute(m, s)) <= Opens(s)
    ensures Opens(Substitute(m, s)) == Opens(s) ==> Substitute(m, s) == s
    decreases |s|
  {
    if s != [] {
      var i := Starting(m, s);
      if i < |m| {
        HitLosesBracket(m, s, i);
        SubstituteOpens(m, s[|m[i].placeholder|..]);
      } else {
        SubstituteOpens(m, s[1..]);
        OpensAdds([s[0]], Substitute(m, s[1..]));
        assert s == [s[0]] + s[1..];
        OpensAdds([s[0]], s[1..]);
      }
    }
  }

  lemma {:induction false} HitLosesBracket(m: Mapping, s: string, i: nat)
    requires ShapedMapping(m) && s != [] && i < |m| && i == Starting(m, s)
    ensures var rest := s[|m[i].placeholder|..];
            && Opens(s) == 1 + Opens(rest)
            && Opens(Substitute(m, s)) == Opens(Substitute(m, rest))
  {
    assert m[i] in m;
    var p, r := m[i].placeholder, m[i].original;
    var rest := s[|p|..];
    ShapedTail(p);
    assert s == p + rest;
    OpensAdds(p, rest);
    OpensPlain(p[1..]);
    OpensPlain(r);
    OpensAdds(r, Substitute(m, rest));
  }

  /** A text is left alone iff it contains no placeholder. */
  lemma {:induction false} FixedIffFree(m: Mapping, s: string)
    requires ShapedMapping(m)
    ensures Substitute(m, s) == s <==> FreeOf(m, s)
  {
    if FreeOf(m, s) {
      FreeFixed(m, s);
    } else {
      var e, i: nat :| e in m && OccursAt(s, e.placeholder, i);
      OccursShrinks(m, s, e, i);
    }
  }

  lemma {:induction false} FreeFixed(m: Mapping, s: string)
    requires ShapedMapping(m) && FreeOf(m, s)
    ensures Substitute(m, s) == s
  {
    if s != [] {
      var i := Starting(m, s);
      assert s[0..] == s;
      assert i == |m| by {
        if i < |m| { assert m[i] in m && OccursAt(s, m[i].placeholder, 0); }
      }
      forall e | e in m ensures !Contains(s[1..], e.placeholder) {
        if Contains(s[1..], e.placeholder) {
          var j: nat :| OccursAt(s[1..], e.placeholder, j);
          assert s[1..][j..] == s[j + 1..];
          assert OccursAt(s, e.placeholder, j + 1);
        }
      }
      FreeFixed(m, s[1..]);
    }
  }

  lemma {:induction false} OccursShrinks(m: Mapping, s: string, e: Entry, i: nat)
    requires ShapedMapping(m) && e in m && OccursAt(s, e.placeholder, i)
    ensures Opens(Substitute(m, s)) < Opens(s)
    decreases |s|
  {
    assert s != [];
    var k := Starting(m, s);
    if k < |m| {
      HitLosesBracket(m, s, k);
      SubstituteOpens(m, s[|m[k].placeholder|..]);
    } else {
      if i == 0 {
        assert s[0..] == s;
        var j :| 0 <= j < |m| && m[j] == e;
        StartingComplete(m, s, j);
      }
      assert s[1..][i - 1..] == s[i..];
      OccursShrinks(m, s[1..], e, i - 1);
      OpensAdds([s[0]], Substitute(m, s[1..]));
      assert s == [s[0]] + s[1..];
      OpensAdds([s[0]], s[1..]);
    }
  }

  function GapsOf(w: Woven): (gaps: seq<string>)
    ensures gaps != []
  {
    match w
    case Gap(t) => [t]
    case Snoc(init, _, gap) => [gap] + GapsOf(init)
  }

  lemma {:induction false} WeaveGaps(text: string, m: Mapping, spans: seq<Extent>, b: nat)
    requires Below(spans, b) && b <= |text| && Known(text, m, spans)
    ensures GapsOf(Weave(text, m, spans, b)) == Gaps(text, spans, b)
    decreases spans
  {
    if spans != [] {
      assert spans[0] in spans;
      WeaveGaps(text, m, spans[1..], spans[0].start);
    }
  }

  ghost predicate AllFree(m: Mapping, gaps: seq<string>) {
    forall g :: g in gaps ==> FreeOf(m, g)
  }

  lemma {:induction false} RestoredOpens(w: Woven, m: Mapping)
    requires ShapedMapping(m) && Uses(w, m)
    ensures Opens(Restored(w, m)) <= Opens(Render(w, []))
    ensures AllFree(m, GapsOf(w)) ==> Restored(w, m) == Render(w, [])
    ensures !AllFree(m, GapsOf(w)) ==> Opens(Restored(w, m)) < Opens(Render(w, []))
  {
    var gap := GapsOf(w)[0];
    FixedIffFree(m, gap);
    SubstituteOpens(m, gap);
    if w.Snoc? {
      RestoredOpens(w.init, m);
      var o := w.entry.original;
      OpensAdds(o, Substitute(m, gap));
      OpensAdds(o, gap);
      OpensAdds(Restored(w.init, m), o + Substitute(m, gap));
      OpensAdds(Render(w.init, []), o + gap);
      assert AllFree(m, GapsOf(w)) <==> FreeOf(m, gap) && AllFree(m, GapsOf(w.init)) by {
        assert forall g :: g in GapsOf(w) <==> g == gap || g in GapsOf(w.init);
      }
    }
  }

  lemma {:induction false} HoldPastClosed(m: Mapping, a: string, p: string, gap: string)
    requires ShapedMapping(m) && Shaped(p)
    ensures Hold(m, a + p + gap) == Hold(m, gap)
  {
    assert p + [] == p;
    HoldClosed(m, a, p, []);
    HoldReaches(m, a + p, gap);
    HoldOfSuffix(m, a + p, gap);
  }

  /** What is held back at the end of a woven text is what its last gap would hold back. */
  lemma {:induction false} HoldLastGap(w: Woven, m: Mapping)
    requires ShapedMapping(m) && Uses(w, m)
    ensures Hold(m, Render(w, m)) == Hold(m, GapsOf(w)[0])
  {
    if w.Snoc? {
      HoldPastClosed(m, Render(w.init, m), w.entry.placeholder, w.gap);
      Associates(Render(w.init, m), w.entry.placeholder, w.gap);
    }
  }

  /** The woven form, with its gaps: those between the spans that are inside no other. */
  lemma {:induction false} AnonymizedGaps(text: string, found: seq<Match>) returns (w: Woven)
    requires Matches(text, found) && InnersFit(text, found)
    ensures Below(OuterSpans(text, found), |text|)
    ensures Plain(text) ==> PlainGaps(w)
    ensures var a := Accept(text, found);
            && Uses(w, a.mapping) && GapsOf(w) == Gaps(text, OuterSpans(text, found), |text|)
            && Render(w, a.mapping) == Anonymized(text, found) && Render(w, []) == text
  {
    var m, spans := Accept(text, found).mapping, OuterSpans(text, found);
    OuterSpansSuffice(text, found);
    w := Weave(text, m, spans, |text|);
    WeaveUses(text, m, spans, |text|);
    WeaveText(text, m, spans, |text|);
    WeaveGaps(text, m, spans, |text|);
    assert text[..|text|] == text && text + [] == text && Render(w, m) + [] == Render(w, m);
    SpliceWeaves(text, m, spans, |text|, []);
  }

  lemma {:induction false} WovenIff(w: Woven, m: Mapping, s: string, text: string)
    requires ShapedMapping(m) && NoCreation(m) && Uses(w, m) && s == Render(w, m) && text == Render(w, [])
    ensures Deanonymized(m, s) == (text, []) <==> AllFree(m, GapsOf(w)) && Hold(m, GapsOf(w)[0]) == []
  {
    HoldLastGap(w, m);
    if Hold(m, s) == [] {
      assert s + [] == s;
      BodyIs(m, s, s);
      ReplaceAllIsSubstitute(m, s);
      SubstituteWoven(w, m);
      RestoredOpens(w, m);
    }
  }

  /**
   Any text comes back iff, outside its accepted spans, it contains none of its own placeholders
   and does not end with the start of one.
   */
  lemma {:induction false} RoundTripIff(text: string, found: seq<Match>)
    requires Matches(text, found) && (forall c :: c in found ==> Plain(text[c.start..c.end]))
    requires InnersFit(text, found) && NoCreation(Accept(text, found).mapping)
    ensures Below(OuterSpans(text, found), |text|)
    ensures var m, gaps := Accept(text, found).mapping, Gaps(text, OuterSpans(text, found), |text|);
            Deanonymized(m, Anonymized(text, found)) == (text, []) <==> AllFree(m, gaps) && Hold(m, gaps[0]) == []
  {
    AcceptedShaped(text, found);
    var w := AnonymizedGaps(text, found);
    WovenIff(w, Accept(text, found).mapping, Anonymized(text, found), text);
  }
}
