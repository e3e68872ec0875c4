/**
 When chunking matters: if an original can complete a later placeholder, some text restores
 differently in two chunks than in one. With PiiStream this makes the condition exact.
 */
module PiiChunking {
  import opened Collections
  import opened Strings
  import opened PiiReplace
  import opened PiiStream

  /** An opened and never closed piece of text. */
  predicate Stub(x: string) {
    x != [] && x[0] == '[' && Plain(x[1..])
  }

  lemma {:induction false} StubNotStart(x: string, s: string, p: string)
    requires Stub(x) && (s == [] || s[0] == '[') && Shaped(p)
    ensures !(p <= x + s)
  {
    var t := x + s;
    ShapedTail(p);
    if |p| <= |x| {
      assert x[1..][|p| - 2] == t[|p| - 1] != ']';
    } else if |p| <= |t| {
      assert p[1..][|x| - 1] == p[|x|] != t[|x|];
    }
  }

  /** A stub before another '[' is copied. */
  lemma {:induction false} ReplaceStub(x: string, s: string, p: string, r: string)
    requires Stub(x) && (s == [] || s[0] == '[') && Shaped(p)
    ensures Replace(x + s, p, r) == x + Replace(s, p, r)
  {
    StubNotStart(x, s, p);
    ReplaceOpened(x, s, p, r);
  }

  lemma {:induction false} StubFixed(m: Mapping, z: string)
    requires (forall e :: e in m ==> Shaped(e.placeholder)) && Stub(z)
    ensures ReplaceAll(m, z) == z
  {
    if m != [] {
      assert z + [] == z;
      ReplaceStub(z, [], m[0].placeholder, m[0].original);
      StubFixed(m[1..], z);
    }
  }

  /** A placeholder that no entry of `m` is for, after a stub and before closed text, stays. */
  lemma {:induction false} OthersKeep(m: Mapping, x: string, q: string, y: string)
    requires forall e :: e in m ==> Shaped(e.placeholder) && e.placeholder != q
    requires (x == [] || Stub(x)) && Shaped(q) && '[' !in y
    ensures ReplaceAll(m, x + (q + y)) == x + (q + y)
  {
    if m != [] {
      assert m[0] in m;
      var p, r := m[0].placeholder, m[0].original;
      ReplaceMiss(q, y, p, r);
      ReplacePlain(y, p, r);
      if x == [] {
        assert x + (q + y) == q + y;
      } else {
        ReplaceStub(x, q + y, p, r);
      }
      OthersKeep(m[1..], x, q, y);
    }
  }

  lemma {:induction false} ReplaceAllSplit(a: Mapping, b: Mapping, s: string)
    ensures ReplaceAll(a + b, s) == ReplaceAll(b, ReplaceAll(a, s))
  {
    if a == [] {
      assert a + b == b;
    } else {
      assert (a + b)[1..] == a[1..] + b;
      ReplaceAllSplit(a[1..], b, Replace(s, a[0].placeholder, a[0].original));
    }
  }

  lemma {:induction false} HitFirst(m: Mapping, x: string, y: string)
    requires m != [] && Shaped(m[0].placeholder) && Stub(x) && '[' !in y
    ensures ReplaceAll(m, x + (m[0].placeholder + y)) == ReplaceAll(m[1..], x + (m[0].original + y))
  {
    var p, r := m[0].placeholder, m[0].original;
    ReplaceHit(p, y, r);
    ReplacePlain(y, p, r);
    ReplaceStub(x, p + y, p, r);
  }

  /** Entry `i` turns stub + its placeholder + y into stub + its original + y. */
  lemma {:induction false} HitInPlace(m: Mapping, i: nat, x: string, y: string)
    requires ShapedMapping(m) && i < |m| && Stub(x) && '[' !in y
    ensures ReplaceAll(m, x + (m[i].placeholder + y)) == ReplaceAll(m[i + 1..], x + (m[i].original + y))
  {
    var p := m[i].placeholder;
    assert m == m[..i] + m[i..] && m[i] in m;
    forall e | e in m[..i] ensures Shaped(e.placeholder) && e.placeholder != p { assert e in m; }
    OthersKeep(m[..i], x, p, y);
    ReplaceAllSplit(m[..i], m[i..], x + (p + y));
    HitFirst(m[i..], x, y);
    assert m[i..][1..] == m[i + 1..];
  }

  lemma {:induction false} OthersKeepAlone(m: Mapping, q: string)
    requires (forall e :: e in m ==> Shaped(e.placeholder) && e.placeholder != q) && Shaped(q)
    ensures ReplaceAll(m, q) == q
  {
    OthersKeep(m, [], q, []);
    assert [] + (q + []) == q;
  }

  lemma {:induction false} ReplaceAlone(p: string, r: string)
    requires Shaped(p)
    ensures Replace(p, p, r) == r
  {
    ReplaceHit(p, [], r);
    assert p + [] == p && r + [] == r;
  }

  /** A placeholder alone becomes its original. */
  lemma {:induction false} HitAlone(m: Mapping, j: nat)
    requires ShapedMapping(m) && j < |m|
    ensures ReplaceAll(m, m[j].placeholder) == m[j].original
  {
    var q, r := m[j].placeholder, m[j].original;
    var rest := [m[j]] + m[j + 1..];
    assert m == m[..j] + rest && m[j] in m && rest[1..] == m[j + 1..];
    ReplaceAllSplit(m[..j], rest, q);
    forall e | e in m[..j] ensures Shaped(e.placeholder) && e.placeholder != q { assert e in m; }
    OthersKeepAlone(m[..j], q);
    ReplaceAlone(q, r);
    forall e | e in m[j + 1..] ensures Shaped(e.placeholder) { assert e in m; }
    ReplaceAllPlain(m[j + 1..], r);
  }

  /** A plain string occurs in a placeholder strictly between its brackets. */
  lemma {:induction false} InsideBrackets(q: string, r: string) returns (k: nat)
    requires Shaped(q) && Plain(r) && Contains(q, r)
    ensures 1 <= k <= |q| - 1 - |r| && q[k..k + |r|] == r
  {
    k :| OccursAt(q, r, k);
    if r == [] {
      k := 1;
    } else {
      assert r[0] in r && r[|r| - 1] in r;
      assert q[k..][0] == r[0] && q[k..][|r| - 1] == r[|r| - 1];
      assert q[k..][..|r|] == q[k..k + |r|];
    }
  }

  /** An occurrence of a plain string in a placeholder leaves a stub before it and a closing rest. */
  lemma {:induction false} InsideShaped(q: string, r: string) returns (x: string, y: string)
    requires Shaped(q) && Plain(r) && Contains(q, r)
    ensures q == x + (r + y) && Stub(x) && '[' !in y && Stub(x + r)
  {
    ShapedTail(q);
    var k := InsideBrackets(q, r);
    x, y := q[..k], q[k + |r|..];
    CutInside(q, k, |r|);
  }

  lemma {:induction false} CutInside(q: string, k: nat, n: nat)
    requires Shaped(q) && 1 <= k <= |q| - 1 - n
    ensures Stub(q[..k]) && Stub(q[..k] + q[k..k + n]) && '[' !in q[k + n..]
    ensures q == q[..k] + (q[k..k + n] + q[k + n..])
  {
    ShapedTail(q);
    var plain := q[1..|q| - 1];
    assert q[..k][1..] == plain[..k - 1];
    assert q[..k] + q[k..k + n] == q[..k + n] && q[..k + n][1..] == plain[..k + n - 1];
    assert q[k + n..] == q[1..][k + n - 1..];
  }

  lemma {:induction false} StreamCons(m: Mapping, c: string, rest: seq<string>, buffer: string)
    ensures Stream(m, [c] + rest, buffer)
         == (var (r, k) := Deanonymized(m, buffer + c); var (t, l) := Stream(m, rest, k); (r + t, l))
    ensures Concat([c] + rest) == c + Concat(rest)
  {
    assert ([c] + rest)[1..] == rest;
  }

  /** Two chunks that leave nothing in the buffer. */
  lemma {:induction false} StreamTwo(m: Mapping, a: string, b: string, a': string, b': string)
    requires Deanonymized(m, a) == (a', []) && Deanonymized(m, b) == (b', [])
    ensures Stream(m, [a] + ([b] + []), []) == (a' + b', []) && Concat([a] + ([b] + [])) == a + b
  {
    StreamCons(m, a, [b] + [], []);
    StreamCons(m, b, [], []);
    assert [] + a == a && [] + b == b && b' + [] == b' && b + [] == b;
  }

  lemma {:induction false} Unheld(m: Mapping, s: string)
    requires Hold(m, s) == []
    ensures Deanonymized(m, s) == (ReplaceAll(m, s), [])
  {
    assert s + [] == s;
    BodyIs(m, s, s);
  }

  /** The first chunk ends with the whole placeholder, which is restored. */
  lemma {:induction false} FirstChunk(m: Mapping, i: nat, x: string)
    requires ShapedMapping(m) && i < |m| && Stub(x) && Stub(x + m[i].original)
    ensures Deanonymized(m, x + m[i].placeholder) == (x + m[i].original, [])
  {
    assert m[i] in m;
    var p, r := m[i].placeholder, m[i].original;
    assert p + [] == p && r + [] == r;
    HoldClosed(m, x, p, []);
    Unheld(m, x + p);
    HitInPlace(m, i, x, []);
    forall e | e in m[i + 1..] ensures Shaped(e.placeholder) { assert e in m; }
    StubFixed(m[i + 1..], x + r);
  }

  /** The second chunk has no '[' and is copied. */
  lemma {:induction false} SecondChunk(m: Mapping, y: string)
    requires ShapedMapping(m) && '[' !in y
    ensures Deanonymized(m, y) == (y, [])
  {
    HoldUnopened(m, y);
    Unheld(m, y);
    ReplaceAllPlain(m, y);
  }

  lemma {:induction false} HitAmongLater(m: Mapping, n: nat, j: nat)
    requires ShapedMapping(m) && n <= j < |m|
    ensures ReplaceAll(m[n..], m[j].placeholder) == m[j].original
  {
    SuffixShaped(m, n);
    assert m[n..][j - n] == m[j];
    HitAlone(m[n..], j - n);
  }

  lemma {:induction false} Completed(m: Mapping, i: nat, j: nat, x: string, y: string)
    requires ShapedMapping(m) && i < j < |m| && Stub(x) && '[' !in y
    requires m[j].placeholder == x + (m[i].original + y)
    ensures ReplaceAll(m, x + (m[i].placeholder + y)) == m[j].original
  {
    HitInPlace(m, i, x, y);
    HitAmongLater(m, i + 1, j);
  }

  /** In one call the restored text completes placeholder `j`, which is then replaced. */
  lemma {:induction false} OneCall(m: Mapping, i: nat, j: nat, x: string, y: string)
    requires ShapedMapping(m) && i < j < |m| && Stub(x) && '[' !in y
    requires m[j].placeholder == x + (m[i].original + y)
    ensures Deanonymized(m, x + (m[i].placeholder + y)) == (m[j].original, [])
  {
    assert m[i] in m;
    HoldClosed(m, x, m[i].placeholder, y);
    Unheld(m, x + (m[i].placeholder + y));
    Completed(m, i, j, x, y);
  }

  lemma {:induction false} SuffixShaped(m: Mapping, n: nat)
    requires ShapedMapping(m) && n <= |m|
    ensures ShapedMapping(m[n..])
  {
    assert forall e :: e in m[n..] ==> e in m;
  }

  /** The two chunks give the placeholder back, the one call restores it. */
  lemma {:induction false} Disagree(m: Mapping, i: nat, j: nat, x: string, y: string, chunks: seq<string>)
    requires ShapedMapping(m) && i < j < |m| && Stub(x) && '[' !in y && Stub(x + m[i].original)
    requires m[j].placeholder == x + (m[i].original + y)
    requires chunks == [x + m[i].placeholder] + ([y] + [])
    ensures Stream(m, chunks, []).0 == m[j].placeholder
    ensures Deanonymized(m, Concat(chunks)).0 == m[j].original
  {
    var p, r := m[i].placeholder, m[i].original;
    FirstChunk(m, i, x);
    SecondChunk(m, y);
    StreamTwo(m, x + p, y, x + r, y);
    OneCall(m, i, j, x, y);
    Associates(x, p, y);
    Associates(x, r, y);
  }

  lemma {:induction false} OriginalDiffers(m: Mapping, j: nat)
    requires ShapedMapping(m) && j < |m|
    ensures m[j].original != m[j].placeholder
  {
    assert m[j] in m;
    var q := m[j].placeholder;
    assert q[0] in q;
  }

  /** If an original can complete a later placeholder, two chunks and one call disagree on some text. */
  lemma {:induction false} ChunkingMatters(m: Mapping, i: nat, j: nat) returns (chunks: seq<string>)
    requires ShapedMapping(m) && i < j < |m| && Contains(m[j].placeholder, m[i].original)
    ensures Stream(m, chunks, []) != Deanonymized(m, Concat(chunks))
  {
    assert m[i] in m && m[j] in m;
    var x, y := InsideShaped(m[j].placeholder, m[i].original);
    chunks := [x + m[i].placeholder] + ([y] + []);
    Disagree(m, i, j, x, y, chunks);
    OriginalDiffers(m, j);
  }

  /** Chunking never matters iff no original can complete a placeholder that is replaced after it. */
  lemma {:induction false} ChunkInvariantIff(m: Mapping)
    requires ShapedMapping(m)
    ensures (forall chunks :: Stream(m, chunks, []) == Deanonymized(m, Concat(chunks))) <==> NoCreation(m)
  {
    if NoCreation(m) {
      forall chunks ensures Stream(m, chunks, []) == Deanonymized(m, Concat(chunks)) {
        HoldEmptyText(m);
        StreamIsWhole(m, chunks, []);
        assert [] + Concat(chunks) == Concat(chunks);
      }
    } else {
      var i, j :| 0 <= i < j < |m| && Contains(m[j].placeholder, m[i].original);
      var chunks := ChunkingMatters(m, i, j);
    }
  }
}
