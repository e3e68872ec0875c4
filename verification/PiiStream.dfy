/**
 `deanonymize_text` with its hold-back buffer (pii.py), folded over the chunks of a stream the way
 `restore_streaming` does (store.py). How the text is cut into chunks makes no difference exactly
 when no original can complete a later placeholder.
 */
module PiiStream {
  import opened Collections
  import opened Strings
  import opened PiiReplace

  /** `t` is a proper, non-empty start of a known placeholder. */
  predicate Partial(m: Mapping, t: string) {
    t != [] && exists e :: e in m && |t| < |e.placeholder| && t <= e.placeholder
  }

  /** The tail of the text that is held back. */
  function Hold(m: Mapping, s: string): (h: string)
    ensures |h| <= |s| && s[|s| - |h|..] == h
  {
    var i := LastIndexOf(s, '[');
    if i != -1 && ']' !in s[i..] && Partial(m, s[i..]) then s[i..] else []
  }

  function Body(m: Mapping, s: string): string {
    s[..|s| - |Hold(m, s)|]
  }

  /** The result of `deanonymize_text`: the restored text and the new buffer. */
  function Deanonymized(m: Mapping, s: string): (string, string) {
    (ReplaceAll(m, Body(m, s)), Hold(m, s))
  }

  method DeanonymizeText(text: string, mapping: Mapping, buffer: string) returns (restored: string, remaining: string)
    ensures (restored, remaining) == Deanonymized(mapping, buffer + text)
  {
    var combined := buffer + text;
    var prefixes := PrefixSet(mapping);
    remaining := "";
    var lastBracket := LastIndexOf(combined, '[');
    if lastBracket != -1 && ']' !in combined[lastBracket..] {
      var tail := combined[lastBracket..];
      if tail in prefixes {
        remaining := tail;
        combined := combined[..lastBracket];
      }
    }
    assert combined == Body(mapping, buffer + text);
    for i := 0 to |mapping|
      invariant ReplaceAll(mapping[i..], combined) == ReplaceAll(mapping, Body(mapping, buffer + text))
    {
      assert mapping[i..][1..] == mapping[i + 1..];
      combined := Replace(combined, mapping[i].placeholder, mapping[i].original);
    }
    restored := combined;
  }

  /** The prefix set that `deanonymize_text` builds. */
  method PrefixSet(mapping: Mapping) returns (prefixes: set<string>)
    ensures forall t :: t in prefixes <==> Partial(mapping, t)
  {
    prefixes := {};
    for k := 0 to |mapping|
      invariant forall t :: t in prefixes <==> Partial(mapping[..k], t)
    {
      var p := mapping[k].placeholder;
      ghost var before := prefixes;
      for i := 1 to (if |p| == 0 then 1 else |p|)
        invariant forall t :: t in prefixes <==> t in before || (0 < |t| < i && |t| < |p| && t <= p)
      {
        prefixes := prefixes + {p[..i]};
        assert forall t :: |t| == i && t <= p <==> t == p[..i];
      }
      assert mapping[..k + 1] == mapping[..k] + [mapping[k]];
    }
    assert mapping[..|mapping|] == mapping;
  }

  // ----- what is held back -----

  lemma {:induction false} HoldSplit(m: Mapping, s: string)
    ensures s == Body(m, s) + Hold(m, s)
    ensures Hold(m, s) != [] ==> Hold(m, s)[0] == '[' && '[' !in Hold(m, s)[1..] && Partial(m, Hold(m, s))
  {
    LastIndexOfLast(s, '[');
    var i := LastIndexOf(s, '[');
    if Hold(m, s) != [] {
      assert s[i..][1..] == s[i + 1..];
    }
  }

  /** A partial placeholder at the end of the text is what is held back. */
  lemma {:induction false} PartialTail(m: Mapping, s: string, i: nat)
    requires ShapedMapping(m) && i < |s| && Partial(m, s[i..])
    ensures Hold(m, s) == s[i..]
  {
    var t := s[i..];
    var e :| e in m && |t| < |e.placeholder| && t <= e.placeholder;
    var p := e.placeholder;
    ShapedTail(p);
    assert t[0] == p[0] == '[';
    assert t == p[..|p| - 1][..|t|] && ']' !in t;
    assert t[1..] == p[1..][..|t| - 1] && '[' !in t[1..];
    assert s[i + 1..] == t[1..];
    LastIndexOfUnique(s, '[', i);
  }

  lemma {:induction false} HoldEmptyText(m: Mapping)
    ensures Hold(m, []) == [] && Body(m, []) == []
  {
  }

  lemma {:induction false} HoldClosed(m: Mapping, x: string, p: string, y: string)
    requires Shaped(p) && '[' !in y
    ensures Hold(m, x + (p + y)) == []
  {
    var s := x + (p + y);
    ShapedTail(p);
    assert s[|x|] == '[' && s[|x| + 1..] == p[1..] + y;
    LastIndexOfUnique(s, '[', |x|);
    assert s[|x|..] == p + y && p[|p| - 1] in p;
  }

  lemma {:induction false} HoldUnopened(m: Mapping, y: string)
    requires '[' !in y
    ensures Hold(m, y) == []
  {
    LastIndexOfLast(y, '[');
  }

  lemma {:induction false} HoldIdempotent(m: Mapping, s: string)
    requires ShapedMapping(m)
    ensures Hold(m, Hold(m, s)) == Hold(m, s)
  {
    var h := Hold(m, s);
    if h != [] {
      HoldSplit(m, s);
      assert h[0..] == h;
      PartialTail(m, h, 0);
    }
  }

  /** What is held after more text depends only on what was held and the new text. */
  lemma {:induction false} HoldChain(m: Mapping, s: string, c: string)
    requires ShapedMapping(m)
    ensures Hold(m, s + c) == Hold(m, Hold(m, s) + c)
  {
    HoldReaches(m, s, c);
    HoldOfTail(m, Body(m, s), Hold(m, s), s, c);
  }

  lemma {:induction false} HoldOfTail(m: Mapping, a: string, h: string, s: string, c: string)
    requires ShapedMapping(m) && a == Body(m, s) && h == Hold(m, s) && |Hold(m, s + c)| <= |h + c|
    ensures Hold(m, s + c) == Hold(m, h + c)
  {
    BodyThenHold(m, s);
    Associates(a, h, c);
    HoldOfSuffix(m, a, h + c);
  }

  lemma {:induction false} BodyThenHold(m: Mapping, s: string)
    ensures s == Body(m, s) + Hold(m, s)
  {
  }

  lemma {:induction false} HoldIsPartial(m: Mapping, s: string)
    requires Hold(m, s) != []
    ensures Partial(m, Hold(m, s))
  {
  }

  lemma {:induction false} PartialSuffix(m: Mapping, a: string, t: string, i: nat, k: string)
    requires ShapedMapping(m) && i < |t| && k == t[i..] && Partial(m, k)
    ensures Hold(m, t) == k && Hold(m, a + t) == k
  {
    assert (a + t)[|a| + i..] == k;
    PartialTail(m, t, i);
    PartialTail(m, a + t, |a| + i);
  }

  lemma {:induction false} HeldInSuffix(m: Mapping, a: string, t: string, k: string)
    requires ShapedMapping(m) && k == Hold(m, a + t) && k != [] && |k| <= |t|
    ensures Hold(m, t) == k
  {
    HoldIsPartial(m, a + t);
    SuffixOfSuffix(a, t, |k|);
    PartialSuffix(m, a, t, |t| - |k|, k);
  }

  lemma {:induction false} HeldBySuffix(m: Mapping, a: string, t: string, h: string)
    requires ShapedMapping(m) && h == Hold(m, t) && h != []
    ensures Hold(m, a + t) == h
  {
    HoldIsPartial(m, t);
    PartialSuffix(m, a, t, |t| - |h|, h);
  }

  /** A held tail that lies within a suffix is held by the suffix. */
  lemma {:induction false} HoldOfSuffix(m: Mapping, a: string, t: string)
    requires ShapedMapping(m)
    ensures |Hold(m, a + t)| <= |t| ==> Hold(m, a + t) == Hold(m, t)
  {
    var k, h := Hold(m, a + t), Hold(m, t);
    if k != [] && |k| <= |t| {
      HeldInSuffix(m, a, t, k);
    } else if h != [] {
      HeldBySuffix(m, a, t, h);
    }
  }

  lemma {:induction false} SuffixOfSuffix(a: string, t: string, n: nat)
    requires n <= |t|
    ensures (a + t)[|a + t| - n..] == t[|t| - n..]
  {
  }

  lemma {:induction false} PartialPrefix(m: Mapping, t: string, c: string)
    requires Partial(m, t + c) && t != []
    ensures Partial(m, t)
  {
    var e :| e in m && |t + c| < |e.placeholder| && t + c <= e.placeholder;
    assert t <= t + c;
  }

  /** A held tail that reaches back over a chunk boundary was held at the boundary. */
  lemma {:induction false} HoldReaches(m: Mapping, s: string, c: string)
    requires ShapedMapping(m)
    ensures |Hold(m, s + c)| <= |Hold(m, s)| + |c|
  {
    var k := |Hold(m, s + c)|;
    if k > |c| {
      var i := |s + c| - k;
      HoldIsPartial(m, s + c);
      DropAppend(s, c, i);
      PartialPrefix(m, s[i..], c);
      PartialTail(m, s, i);
    }
  }

  // ----- cutting the text at a held tail -----

  /** No placeholder reaches over the cut between `a` and `d`. */
  ghost predicate CleanCut(m: Mapping, a: string, d: string) {
    d == [] || d[0] == '[' || forall i: nat :: i < |a| ==> !Partial(m, a[i..])
  }

  lemma {:induction false} CleanCutStep(m: Mapping, a: string, d: string, n: nat)
    requires CleanCut(m, a, d) && n <= |a|
    ensures CleanCut(m, a[n..], d)
  {
    if d != [] && d[0] != '[' {
      forall i: nat | i < |a[n..]| ensures !Partial(m, a[n..][i..]) {
        assert a[n..][i..] == a[n + i..];
      }
    }
  }

  /** Across a clean cut a placeholder is wholly on the left. */
  lemma {:induction false} NoStraddle(m: Mapping, a: string, d: string, i: nat)
    requires ShapedMapping(m) && CleanCut(m, a, d) && a != [] && i < |m| && m[i].placeholder <= a + d
    ensures m[i].placeholder <= a
  {
    var p := m[i].placeholder;
    assert m[i] in m;
    ShapedTail(p);
    if |a| < |p| {
      assert p[1..][|a| - 1] == p[|a|] != '[';
      assert a == p[..|a|];
      assert a[0..] == a;
      assert Partial(m, a);
    }
  }

  lemma {:induction false} CutHit(m: Mapping, a: string, d: string, i: nat)
    requires ShapedMapping(m) && CleanCut(m, a, d) && a != [] && i < |m| && m[i].placeholder <= a + d
    ensures var n := |m[i].placeholder|;
            && 0 < n <= |a| && CleanCut(m, a[n..], d)
            && Substitute(m, a + d) == m[i].original + Substitute(m, a[n..] + d)
            && Substitute(m, a) == m[i].original + Substitute(m, a[n..])
  {
    var p := m[i].placeholder;
    assert m[i] in m;
    NoStraddle(m, a, d, i);
    CleanCutStep(m, a, d, |p|);
    DropAppend(a, d, |p|);
    assert a + d == p + (a[|p|..] + d) && a == p + a[|p|..];
    SubstituteHit(m, i, a[|p|..] + d);
    SubstituteHit(m, i, a[|p|..]);
  }

  lemma {:induction false} CutSkip(m: Mapping, a: string, d: string)
    requires ShapedMapping(m) && CleanCut(m, a, d) && a != [] && Starting(m, a + d) == |m|
    ensures CleanCut(m, a[1..], d)
    ensures Substitute(m, a + d) == [a[0]] + Substitute(m, a[1..] + d)
    ensures Substitute(m, a) == [a[0]] + Substitute(m, a[1..])
  {
    var j := Starting(m, a);
    if j < |m| { StartingComplete(m, a + d, j); }
    CleanCutStep(m, a, d, 1);
    DropAppend(a, d, 1);
    SubstituteSkip(m, a + d);
    SubstituteSkip(m, a);
  }

  lemma {:induction false} SubstituteCut(m: Mapping, a: string, d: string)
    requires ShapedMapping(m) && CleanCut(m, a, d)
    ensures Substitute(m, a + d) == Substitute(m, a) + Substitute(m, d)
    decreases |a|
  {
    if a == [] {
      assert a + d == d;
    } else {
      var i := Starting(m, a + d);
      var n := if i < |m| then |m[i].placeholder| else 1;
      var first := if i < |m| then m[i].original else [a[0]];
      if i < |m| { CutHit(m, a, d, i); } else { CutSkip(m, a, d); }
      SubstituteCut(m, a[n..], d);
      Associates(first, Substitute(m, a[n..]), Substitute(m, d));
    }
  }

  /** The text before the held tail is cut cleanly from the tail and whatever follows. */
  lemma {:induction false} BodyCut(m: Mapping, s: string, d: string)
    requires ShapedMapping(m) && (Hold(m, s) != [] ==> d == [] || d[0] == '[')
    ensures CleanCut(m, Body(m, s), d)
  {
    if Hold(m, s) == [] {
      assert Body(m, s) == s;
      forall i: nat | i < |s| ensures !Partial(m, s[i..]) {
        if Partial(m, s[i..]) { PartialTail(m, s, i); }
      }
    }
  }

  // ----- streams -----

  /** The restored chunks of a stream put together, and the buffer left at its end. */
  function Stream(m: Mapping, chunks: seq<string>, buffer: string): (string, string) {
    if chunks == [] then ([], buffer)
    else
      var (restored, remaining) := Deanonymized(m, buffer + chunks[0]);
      var (tail, last) := Stream(m, chunks[1..], remaining);
      (restored + tail, last)
  }

  /** One chunk, and then the rest in one piece. */
  lemma {:induction false} OneChunk(m: Mapping, s: string, rest: string)
    requires ShapedMapping(m) && NoCreation(m)
    ensures Deanonymized(m, s + rest)
         == (Deanonymized(m, s).0 + Deanonymized(m, Hold(m, s) + rest).0, Deanonymized(m, Hold(m, s) + rest).1)
  {
    var a, d := Body(m, s), Body(m, Hold(m, s) + rest);
    HoldChain(m, s, rest);
    BodyChain(m, s, rest);
    SubstituteCut(m, a, d);
    ReplaceAllIsSubstitute(m, a + d);
    ReplaceAllIsSubstitute(m, a);
    ReplaceAllIsSubstitute(m, d);
  }

  lemma {:induction false} BodyChain(m: Mapping, s: string, rest: string)
    requires ShapedMapping(m)
    ensures var d := Body(m, Hold(m, s) + rest);
            Body(m, s + rest) == Body(m, s) + d && CleanCut(m, Body(m, s), d)
  {
    var h, a := Hold(m, s), Body(m, s);
    var t := h + rest;
    var d := Body(m, t);
    HoldSplit(m, s);
    HoldSplit(m, t);
    HoldChain(m, s, rest);
    Associates(a, h, rest);
    Associates(a, d, Hold(m, t));
    BodyIs(m, s + rest, a + d);
    if h != [] && d != [] { assert d[0] == t[0] == h[0]; }
    BodyCut(m, s, d);
  }

  lemma {:induction false} BodyIs(m: Mapping, s: string, b: string)
    requires s == b + Hold(m, s)
    ensures Body(m, s) == b
  {
  }

  /** The stream gives the output and the buffer of one call on the whole. */
  ghost predicate Whole(m: Mapping, chunks: seq<string>, buffer: string) {
    Stream(m, chunks, buffer) == Deanonymized(m, buffer + Concat(chunks))
  }

  lemma {:induction false} HeldWhole(m: Mapping, s: string)
    requires Hold(m, s) == s
    ensures Deanonymized(m, s) == (ReplaceAll(m, []), s)
  {
    assert s[..0] == [];
  }

  lemma {:induction false} NoChunks(m: Mapping, buffer: string)
    ensures Stream(m, [], buffer) == ([], buffer) && buffer + Concat([]) == buffer
  {
  }

  lemma {:induction false} WholeEnds(m: Mapping, buffer: string)
    requires Deanonymized(m, buffer) == ([], buffer)
    ensures Whole(m, [], buffer)
  {
    NoChunks(m, buffer);
  }

  lemma {:induction false} WholeContinues(m: Mapping, chunks: seq<string>, buffer: string, s: string, rest: string)
    requires chunks != [] && s == buffer + chunks[0] && rest == Concat(chunks[1..])
    requires Whole(m, chunks[1..], Hold(m, s))
    requires Deanonymized(m, s + rest) == (Deanonymized(m, s).0 + Deanonymized(m, Hold(m, s) + rest).0,
        Deanonymized(m, Hold(m, s) + rest).1)
    ensures Whole(m, chunks, buffer)
  {
    Associates(buffer, chunks[0], rest);
  }

  /** Chunking makes no difference, whatever the chunks. */
  lemma {:induction false} StreamIsWhole(m: Mapping, chunks: seq<string>, buffer: string)
    requires ShapedMapping(m) && NoCreation(m) && Hold(m, buffer) == buffer
    ensures Whole(m, chunks, buffer)
  {
    if chunks == [] {
      HeldWhole(m, buffer);
      ReplaceAllPlain(m, []);
      WholeEnds(m, buffer);
    } else {
      var s, rest := buffer + chunks[0], Concat(chunks[1..]);
      HoldIdempotent(m, s);
      StreamIsWhole(m, chunks[1..], Hold(m, s));
      OneChunk(m, s, rest);
      WholeContinues(m, chunks, buffer, s, rest);
    }
  }
}
