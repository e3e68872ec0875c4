/**
 The text side of the PII anonymizer (demos/filter_chains/pii_anonymizer/pii.py): restoring
 placeholders with `str.replace`, one mapping entry after the other, and holding back a placeholder
 that a chunk boundary may have cut.
 */
module PiiReplace {
  import opened Collections
  import opened Strings

  datatype Entry = Entry(placeholder: string, original: string)

  /** A Python dict from placeholders to originals, in insertion order. */
  type Mapping = seq<Entry>

  /** Python's `s.replace(p, r)`. */
  function Replace(s: string, p: string, r: string): string
    decreases |s|
  {
    if p == [] then r + (if s == [] then [] else [s[0]] + Replace(s[1..], p, r))
    else if s == [] then []
    else if p <= s then r + Replace(s[|p|..], p, r)
    else [s[0]] + Replace(s[1..], p, r)
  }

  /** The replacement loop over `mapping.items()`. */
  function ReplaceAll(m: Mapping, s: string): string {
    if m == [] then s else ReplaceAll(m[1..], Replace(s, m[0].placeholder, m[0].original))
  }

  // ----- shapes -----

  /** No square brackets. */
  predicate Plain(s: string) {
    '[' !in s && ']' !in s
  }

  /** '[' first and nowhere else, ']' last and nowhere else. */
  predicate Shaped(p: string) {
    |p| >= 2 && p[0] == '[' && p[|p| - 1] == ']' && Plain(p[1..|p| - 1])
  }

  ghost predicate ShapedMapping(m: Mapping) {
    && (forall e :: e in m ==> Shaped(e.placeholder) && Plain(e.original))
    && (forall i, j :: 0 <= i < j < |m| ==> m[i].placeholder != m[j].placeholder)
  }

  lemma {:induction false} ShapedTail(p: string)
    requires Shaped(p)
    ensures p == ['['] + p[1..] && '[' !in p[1..] && ']' in p[1..]
    ensures p == p[..|p| - 1] + [']'] && ']' !in p[..|p| - 1]
  {
    assert p[1..] == p[1..|p| - 1] + [']'];
    assert p[..|p| - 1] == ['['] + p[1..|p| - 1];
  }

  /** At most one placeholder starts a given string. */
  lemma {:induction false} PrefixUnique(p: string, q: string, s: string)
    requires Shaped(p) && Shaped(q) && p <= s && q <= s
    ensures p == q
  {
    ShapedTail(p);
    ShapedTail(q);
  }

  lemma {:induction false} PrefixOpens(p: string, s: string)
    requires Shaped(p) && p <= s
    ensures s != [] && s[0] == '['
  {
  }

  // ----- replacing -----

  /** Where `p` does not start, one character is copied. */
  lemma {:induction false} ReplaceSkip(c: char, s: string, p: string, r: string)
    requires p != [] && !(p <= [c] + s)
    ensures Replace([c] + s, p, r) == [c] + Replace(s, p, r)
  {
    assert ([c] + s)[1..] == s;
  }

  /** A stretch without '[' is copied. */
  lemma {:induction false} ReplaceOver(a: string, s: string, p: string, r: string)
    requires '[' !in a && Shaped(p)
    ensures Replace(a + s, p, r) == a + Replace(s, p, r)
  {
    if a == [] {
      assert a + s == s;
    } else {
      assert a[0] in a;
      ConsAppend(a, s);
      ReplaceSkip(a[0], a[1..] + s, p, r);
      ReplaceOver(a[1..], s, p, r);
      ConsAppend(a, Replace(s, p, r));
    }
  }

  lemma {:induction false} ReplaceHit(p: string, s: string, r: string)
    requires Shaped(p)
    ensures Replace(p + s, p, r) == r + Replace(s, p, r)
  {
    assert (p + s)[|p|..] == s;
  }

  /** What opens with '[' and has no '[' after that is copied if `p` does not start it. */
  lemma {:induction false} ReplaceOpened(q: string, s: string, p: string, r: string)
    requires q != [] && '[' !in q[1..] && Shaped(p) && !(p <= q + s)
    ensures Replace(q + s, p, r) == q + Replace(s, p, r)
  {
    ConsAppend(q, s);
    ReplaceSkip(q[0], q[1..] + s, p, r);
    ReplaceOver(q[1..], s, p, r);
    ConsAppend(q, Replace(s, p, r));
  }

  /** Another placeholder is copied. */
  lemma {:induction false} ReplaceMiss(q: string, s: string, p: string, r: string)
    requires Shaped(p) && Shaped(q) && p != q
    ensures Replace(q + s, p, r) == q + Replace(s, p, r)
  {
    var t := q + s;
    assert q <= t;
    if p <= t { PrefixUnique(p, q, t); }
    ShapedTail(q);
    ReplaceOpened(q, s, p, r);
  }

  lemma {:induction false} ReplacePlain(s: string, p: string, r: string)
    requires '[' !in s && Shaped(p)
    ensures Replace(s, p, r) == s
  {
    ReplaceOver(s, [], p, r);
    assert s + [] == s;
  }

  lemma {:induction false} ReplaceAllPlain(m: Mapping, s: string)
    requires (forall e :: e in m ==> Shaped(e.placeholder)) && '[' !in s
    ensures ReplaceAll(m, s) == s
  {
    if m != [] {
      ReplacePlain(s, m[0].placeholder, m[0].original);
      ReplaceAllPlain(m[1..], s);
    }
  }

  // ----- the simultaneous reading -----

  /** The entry whose placeholder starts `s`, or |m|. */
  function Starting(m: Mapping, s: string): (i: nat)
    ensures i <= |m|
    ensures i < |m| ==> m[i].placeholder <= s
  {
    if m == [] || m[0].placeholder <= s then 0 else 1 + Starting(m[1..], s)
  }

  /** Every placeholder of the text replaced at once, left to right: the reference meaning. */
  function Substitute(m: Mapping, s: string): string
    requires forall e :: e in m ==> e.placeholder != []
    decreases |s|
  {
    if s == [] then []
    else
      var i := Starting(m, s);
      if i < |m| then
        assert m[i] in m;
        m[i].original + Substitute(m, s[|m[i].placeholder|..])
      else [s[0]] + Substitute(m, s[1..])
  }

  lemma {:induction false} StartingComplete(m: Mapping, s: string, i: nat)
    requires i < |m| && m[i].placeholder <= s
    ensures Starting(m, s) <= i
  {
    if !(m[0].placeholder <= s) {
      StartingComplete(m[1..], s, i - 1);
    }
  }

  lemma {:induction false} StartingUnique(m: Mapping, s: string, i: nat)
    requires ShapedMapping(m) && i < |m| && m[i].placeholder <= s
    ensures Starting(m, s) == i
  {
    StartingComplete(m, s, i);
    var j := Starting(m, s);
    assert m[i] in m && m[j] in m;
    PrefixUnique(m[i].placeholder, m[j].placeholder, s);
  }

  /** Where no placeholder starts, one character is copied. */
  lemma {:induction false} SubstituteSkip(m: Mapping, s: string)
    requires ShapedMapping(m) && s != [] && Starting(m, s) == |m|
    ensures Substitute(m, s) == [s[0]] + Substitute(m, s[1..])
  {
  }

  lemma {:induction false} NothingStarts(m: Mapping, s: string)
    requires ShapedMapping(m) && s != [] && s[0] != '['
    ensures Starting(m, s) == |m|
  {
    var i := Starting(m, s);
    if i < |m| {
      assert m[i] in m;
      PrefixOpens(m[i].placeholder, s);
    }
  }

  lemma {:induction false} SubstituteOver(m: Mapping, a: string, s: string)
    requires ShapedMapping(m) && '[' !in a
    ensures Substitute(m, a + s) == a + Substitute(m, s)
  {
    if a == [] {
      assert a + s == s;
    } else {
      assert a[0] in a;
      NothingStarts(m, a + s);
      SubstituteSkip(m, a + s);
      DropAppend(a, s, 1);
      SubstituteOver(m, a[1..], s);
      ConsAppend(a, Substitute(m, s));
    }
  }

  lemma {:induction false} SubstituteHit(m: Mapping, i: nat, s: string)
    requires ShapedMapping(m) && i < |m|
    ensures Substitute(m, m[i].placeholder + s) == m[i].original + Substitute(m, s)
  {
    var p := m[i].placeholder;
    assert m[i] in m && p <= p + s;
    StartingUnique(m, p + s, i);
    assert (p + s)[|p|..] == s;
  }

  // ----- the loop does what the simultaneous reading says -----

  /** No original can complete a placeholder that is replaced after it. */
  ghost predicate NoCreation(m: Mapping) {
    forall i, j :: 0 <= i < j < |m| ==> !Contains(m[j].placeholder, m[i].original)
  }

  lemma {:induction false} InsertedHides(t: string, r: string, w: string)
    requires Plain(r) && t != [] && t[|t| - 1] == ']' && !OccursAt(t, r, 0)
    ensures !(t <= r + w)
  {
    assert t[0..] == t;
    if |t| < |r| {
      assert r[|t| - 1] in r;
      assert (r + w)[|t| - 1] != t[|t| - 1];
    }
  }

  lemma {:induction false} AbsentTail(t: string, r: string)
    requires t != [] && !Contains(t, r)
    ensures !Contains(t[1..], r)
  {
    if Contains(t[1..], r) {
      var i: nat :| OccursAt(t[1..], r, i);
      assert t[1..][i..] == t[i + 1..];
      assert OccursAt(t, r, i + 1);
    }
  }

  lemma {:induction false} PrefixCons(t: string, u: string)
    requires t != [] && u != []
    ensures t <= u <==> t[0] == u[0] && t[1..] <= u[1..]
  {
    if t[0] == u[0] && t[1..] <= u[1..] {
      assert t == [t[0]] + t[1..] && u == [u[0]] + u[1..];
    }
  }

  /** A suffix of a placeholder that appears after a replacement was there before it. */
  lemma {:induction false} NotCreated(t: string, u: string, p: string, r: string)
    requires Shaped(p) && Plain(r) && t != [] && t[|t| - 1] == ']' && !Contains(t, r)
    requires t <= Replace(u, p, r)
    ensures t <= u
    decreases |u|
  {
    if u != [] && p <= u {
      assert !OccursAt(t, r, 0);
      InsertedHides(t, r, Replace(u[|p|..], p, r));
    } else if u != [] {
      var w := Replace(u[1..], p, r);
      assert ([u[0]] + w)[1..] == w;
      PrefixCons(t, [u[0]] + w);
      PrefixCons(t, u);
      if t[1..] != [] {
        AbsentTail(t, r);
        NotCreated(t[1..], u[1..], p, r);
      }
    }
  }

  /** A placeholder `q` starts the text after replacing `p` only where it started it before. */
  lemma {:induction false} NoNewStart(q: string, s: string, p: string, r: string)
    requires Shaped(p) && Shaped(q) && Plain(r) && !Contains(q, r)
    requires s != [] && !(p <= s) && q <= [s[0]] + Replace(s[1..], p, r)
    ensures q <= s
  {
    var w := Replace(s[1..], p, r);
    assert ([s[0]] + w)[1..] == w;
    PrefixCons(q, [s[0]] + w);
    PrefixCons(q, s);
    AbsentTail(q, r);
    NotCreated(q[1..], s[1..], p, r);
  }

  lemma {:induction false} PrefixAbsent(m: Mapping, s: string, i: nat)
    requires i < |m| && Starting(m, s) == |m|
    ensures !(m[i].placeholder <= s)
  {
    if m[i].placeholder <= s { StartingComplete(m, s, i); }
  }

  /** Nothing starts the text: nothing starts it after the first entry is replaced behind its first character. */
  lemma {:induction false} NothingNew(m: Mapping, s: string)
    requires ShapedMapping(m) && m != [] && NoCreation(m) && s != [] && Starting(m, s) == |m|
    ensures ShapedMapping(m[1..])
    ensures Starting(m[1..], [s[0]] + Replace(s[1..], m[0].placeholder, m[0].original)) == |m[1..]|
  {
    TailShaped(m);
    var p, r, rest := m[0].placeholder, m[0].original, m[1..];
    var v := [s[0]] + Replace(s[1..], p, r);
    var j := Starting(rest, v);
    if j < |rest| {
      var q := m[j + 1].placeholder;
      assert rest[j] == m[j + 1] && m[j + 1] in m && m[0] in m && !Contains(q, r);
      PrefixAbsent(m, s, 0);
      NoNewStart(q, s, p, r);
      StartingComplete(m, s, j + 1);
    }
  }

  /** The text begins with the first placeholder. */
  lemma {:induction false} FirstStarts(m: Mapping, s: string)
    requires ShapedMapping(m) && m != [] && m[0].placeholder <= s
    ensures ShapedMapping(m[1..]) && s != []
    ensures var (p, r, u) := (m[0].placeholder, m[0].original, s[|m[0].placeholder|..]);
            && Substitute(m[1..], Replace(s, p, r)) == r + Substitute(m[1..], Replace(u, p, r))
            && Substitute(m, s) == r + Substitute(m, u)
  {
    TailShaped(m);
    assert m[0] in m;
    var p, r := m[0].placeholder, m[0].original;
    SubstituteOver(m[1..], r, Replace(s[|p|..], p, r));
  }

  /** The text begins with another placeholder. */
  lemma {:induction false} OtherStarts(m: Mapping, u: string, i: nat)
    requires ShapedMapping(m) && 0 < i < |m|
    ensures ShapedMapping(m[1..])
    ensures Substitute(m[1..], Replace(m[i].placeholder + u, m[0].placeholder, m[0].original))
         == m[i].original + Substitute(m[1..], Replace(u, m[0].placeholder, m[0].original))
  {
    TailShaped(m);
    assert m[1..][i - 1] == m[i];
    ReplaceBehind(m, u, i);
    SubstituteHit(m[1..], i - 1, Replace(u, m[0].placeholder, m[0].original));
  }

  lemma {:induction false} ReplaceBehind(m: Mapping, u: string, i: nat)
    requires ShapedMapping(m) && 0 < i < |m|
    ensures m[i].placeholder != []
    ensures var (q, p, r) := (m[i].placeholder, m[0].placeholder, m[0].original);
            Replace(q + u, p, r) == q + Replace(u, p, r)
  {
    assert m[i] in m && m[0] in m;
    ReplaceMiss(m[i].placeholder, u, m[0].placeholder, m[0].original);
  }

  /** The text begins with no placeholder. */
  lemma {:induction false} NoneStarts(m: Mapping, s: string)
    requires ShapedMapping(m) && m != [] && NoCreation(m) && s != [] && Starting(m, s) == |m|
    ensures ShapedMapping(m[1..])
    ensures var (p, r) := (m[0].placeholder, m[0].original);
            && Substitute(m[1..], Replace(s, p, r)) == [s[0]] + Substitute(m[1..], Replace(s[1..], p, r))
            && Substitute(m, s) == [s[0]] + Substitute(m, s[1..])
  {
    TailShaped(m);
    assert m[0] in m;
    PrefixAbsent(m, s, 0);
    var w := Replace(s[1..], m[0].placeholder, m[0].original);
    NothingNew(m, s);
    SubstituteSkip(m[1..], [s[0]] + w);
    assert ([s[0]] + w)[1..] == w;
  }

  /** Replacing the first entry and then substituting the others is substituting all of them. */
  lemma {:induction false} ReplaceThenSubstitute(m: Mapping, s: string)
    requires ShapedMapping(m) && m != [] && NoCreation(m)
    ensures ShapedMapping(m[1..])
    ensures Substitute(m[1..], Replace(s, m[0].placeholder, m[0].original)) == Substitute(m, s)
    decreases |s|
  {
    TailShaped(m);
    if s != [] {
      var i := Starting(m, s);
      if m[0].placeholder <= s {
        FirstStarts(m, s);
        assert m[0] in m;
        ReplaceThenSubstitute(m, s[|m[0].placeholder|..]);
      } else if i < |m| {
        assert m[i] in m && m[i].placeholder <= s;
        var u := s[|m[i].placeholder|..];
        assert s == m[i].placeholder + u;
        OtherStarts(m, u, i);
        SubstituteHit(m, i, u);
        ReplaceThenSubstitute(m, u);
      } else {
        NoneStarts(m, s);
        ReplaceThenSubstitute(m, s[1..]);
      }
    }
  }

  lemma {:induction false} TailShaped(m: Mapping)
    requires ShapedMapping(m) && m != []
    ensures ShapedMapping(m[1..])
    ensures NoCreation(m) ==> NoCreation(m[1..])
  {
    assert forall e :: e in m[1..] ==> e in m;
    if NoCreation(m) {
      forall i, j | 0 <= i < j < |m[1..]| ensures !Contains(m[1..][j].placeholder, m[1..][i].original) {
        assert !Contains(m[j + 1].placeholder, m[i + 1].original);
      }
    }
  }

  /** The loop of replacements is the simultaneous substitution. */
  lemma {:induction false} ReplaceAllIsSubstitute(m: Mapping, s: string)
    requires ShapedMapping(m) && NoCreation(m)
    ensures ReplaceAll(m, s) == Substitute(m, s)
  {
    if m == [] {
      SubstituteNothing(s);
    } else {
      TailShaped(m);
      ReplaceAllIsSubstitute(m[1..], Replace(s, m[0].placeholder, m[0].original));
      ReplaceThenSubstitute(m, s);
    }
  }

  lemma {:induction false} SubstituteNothing(s: string)
    ensures Substitute([], s) == s
  {
    if s != [] { SubstituteNothing(s[1..]); }
  }
}
