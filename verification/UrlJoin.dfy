/**
 `Url::parse("http://dummy.com").join(s)`, its path and its query (crates/common/src/path.rs:66-71),
 by section 4.4 of the URL Living Standard. Where the authority of a reference ends, and what becomes
 of a reference with a scheme, is left to the library.
 */
module UrlJoin {
  import opened Wrappers
  import opened Collections
  import opened Strings
  import opened PercentEncoding

  /**
   Where the path begins in a reference with an authority that the library accepts; path and query of
   a reference with a scheme; whether '^' is escaped in paths.
   */
  datatype Library = Library(
    authority: string -> Result<nat, string>,
    scheme: string -> Result<(string, string), string>,
    escapesCaret: bool)

  // ----- what is stripped -----

  /** C0 controls and the space. */
  predicate Trims(c: char) {
    c as int <= 0x20
  }

  predicate Drops(c: char) {
    c == '\t' || c == '\n' || c == '\r'
  }

  function TrimmedStart(s: string): string {
    if s != [] && Trims(s[0]) then TrimmedStart(s[1..]) else s
  }

  function TrimmedEnd(s: string): string {
    if s != [] && Trims(s[|s| - 1]) then TrimmedEnd(s[..|s| - 1]) else s
  }

  function Dropped(s: string): string {
    if s == [] then [] else (if Drops(s[0]) then [] else [s[0]]) + Dropped(s[1..])
  }

  function Stripped(s: string): string {
    Dropped(TrimmedEnd(TrimmedStart(s)))
  }

  /** Nothing of this text is stripped. */
  ghost predicate Kept(s: string) {
    && (forall c :: c in s ==> !Drops(c))
    && (s != [] ==> !Trims(s[0]) && !Trims(s[|s| - 1]))
  }

  lemma {:induction false} NothingDropped(s: string)
    requires forall c :: c in s ==> !Drops(c)
    ensures Dropped(s) == s
  {
    if s != [] {
      assert s[0] in s;
      NothingDropped(s[1..]);
      assert s == [s[0]] + s[1..];
    }
  }

  lemma {:induction false} KeptStays(s: string)
    requires Kept(s)
    ensures Stripped(s) == s
  {
    NothingDropped(s);
  }

  // ----- foreign references -----

  predicate IsAlpha(c: char) {
    'a' <= c <= 'z' || 'A' <= c <= 'Z'
  }

  predicate SchemeChar(c: char) {
    IsAlpha(c) || '0' <= c <= '9' || c == '+' || c == '-' || c == '.'
  }

  predicate SchemeEnds(s: string) {
    s != [] && (s[0] == ':' || (SchemeChar(s[0]) && SchemeEnds(s[1..])))
  }

  predicate IsSlash(c: char) {
    c == '/' || c == '\\'
  }

  predicate HasScheme(s: string) {
    s != [] && IsAlpha(s[0]) && SchemeEnds(s[1..])
  }

  predicate HasAuthority(s: string) {
    |s| >= 2 && IsSlash(s[0]) && IsSlash(s[1])
  }

  predicate Foreign(s: string) {
    HasScheme(s) || HasAuthority(s)
  }

  lemma {:induction false} SchemeEndsBefore(a: string, b: string)
    requires b != [] && b[0] == '?'
    ensures SchemeEnds(a + b) == SchemeEnds(a)
  {
    if a == [] {
      assert a + b == b;
    } else {
      ConsAppend(a, b);
      assert (a + b)[1..] == a[1..] + b;
      SchemeEndsBefore(a[1..], b);
    }
  }

  /** What follows a '?' does not make a reference foreign. */
  lemma {:induction false} ForeignBefore(a: string, b: string)
    requires b != [] && b[0] == '?'
    ensures HasScheme(a + b) == HasScheme(a) && HasAuthority(a + b) == HasAuthority(a)
  {
    if a == [] {
      assert a + b == b;
    } else {
      assert (a + b)[0] == a[0] && (a + b)[1..] == a[1..] + b;
      SchemeEndsBefore(a[1..], b);
      assert |a| >= 2 ==> (a + b)[1] == a[1];
      assert |a| == 1 ==> (a + b)[1] == '?';
    }
  }

  // ----- what the library does -----

  /** A host of lower-case letters. */
  ghost predicate PlainHost(host: string) {
    host != [] && forall c :: c in host ==> 'a' <= c <= 'z'
  }

  function WithAuthority(host: string, rest: string): string {
    "//" + host + rest
  }

  /**
   An authority is not empty and ends before the query; a host of letters is one. Nothing that has a
   scheme is its own path.
   */
  ghost predicate Lawful(lib: Library) {
    && (forall s :: HasAuthority(s) && lib.authority(s).Ok? ==> 3 <= lib.authority(s).value <= IndexOf(s, '?'))
    && (forall host, rest :: PlainHost(host) && (rest == [] || rest[0] == '/') ==>
          lib.authority(WithAuthority(host, rest)) == Ok(2 + |host|))
    && (forall s :: HasScheme(Stripped(s)) && lib.scheme(Stripped(s)).Ok? ==>
          lib.scheme(Stripped(s)).value.0 != s && lib.scheme(Stripped(s)).value.0 != BeforeQuery(s))
  }

  // ----- the path -----

  /** The segments between slashes of either kind. */
  function Segments(s: string): (segs: seq<string>)
    ensures segs != []
  {
    if s == [] then [[]]
    else
      var rest := Segments(s[1..]);
      if IsSlash(s[0]) then [[]] + rest else [[s[0]] + rest[0]] + rest[1..]
  }

  function JoinSegments(segs: seq<string>): string
    requires segs != []
  {
    if |segs| == 1 then segs[0] else segs[0] + (['/'] + JoinSegments(segs[1..]))
  }

  /** "%2e" in either case counts as a dot. */
  predicate EncodedDot(seg: string) {
    seg == "%2e" || seg == "%2E"
  }

  predicate SingleDot(seg: string) {
    seg == "." || EncodedDot(seg)
  }

  predicate DoubleDot(seg: string) {
    || (seg != [] && seg[0] == '.' && SingleDot(seg[1..]))
    || (|seg| >= 3 && SingleDot(seg[..3]) && SingleDot(seg[3..]))
  }

  predicate Dots(seg: string) {
    SingleDot(seg) || DoubleDot(seg)
  }

  /** The segments of the path after one more. */
  function After(es: EscapeSet, done: seq<string>, seg: string): seq<string> {
    if DoubleDot(seg) then if done == [] then [] else done[..|done| - 1]
    else if SingleDot(seg) then done
    else done + [Escaped(es, seg)]
  }

  /** Dot segments are resolved, the others escaped. */
  function Resolve(es: EscapeSet, done: seq<string>, segs: seq<string>): (r: seq<string>)
    requires segs != []
    ensures r != []
    decreases |segs|
  {
    var seg := segs[0];
    var next := After(es, done, seg);
    if |segs| > 1 then Resolve(es, next, segs[1..])
    else if Dots(seg) then next + [[]]
    else next
  }

  function JoinedPath(lib: Library, p: string): string {
    if p == [] then "/"
    else ['/'] + JoinSegments(Resolve(InPath(lib.escapesCaret), [], Segments(if IsSlash(p[0]) then p[1..] else p)))
  }

  /** The text before the first '?'. */
  function BeforeQuery(s: string): string {
    s[..IndexOf(s, '?')]
  }

  /** The text after the first '?'; empty when there is none. */
  function Static(s: string): string {
    var i := IndexOf(s, '?');
    if i < |s| then s[i + 1..] else []
  }

  /** Path and query of what follows scheme and authority. */
  function PathAndQuery(lib: Library, s: string): (string, string) {
    var u := s[..IndexOf(s, '#')];
    (JoinedPath(lib, BeforeQuery(u)), Escaped(InQuery, Static(u)))
  }

  /** Path and query of the joined URL. */
  function Join(lib: Library, s: string): Result<(string, string), string> {
    var t := Stripped(s);
    if HasScheme(t) then lib.scheme(t)
    else if HasAuthority(t) then
      match lib.authority(t)
      case Err(e) => Err(e)
      case Ok(n) => Ok(PathAndQuery(lib, t[Min(n, |t|)..]))
    else Ok(PathAndQuery(lib, t))
  }

  // ----- when the path is kept -----

  /** A segment as it stands in a joined path. */
  ghost predicate Settled(es: EscapeSet, seg: string) {
    !Dots(seg) && Inert(es, seg) && forall c :: c in seg ==> !IsSlash(c)
  }

  ghost predicate AllSettled(es: EscapeSet, segs: seq<string>) {
    forall seg :: seg in segs ==> Settled(es, seg)
  }

  lemma {:induction false} SegmentsNoSlash(s: string)
    ensures forall seg :: seg in Segments(s) ==> forall c :: c in seg ==> !IsSlash(c) && c in s
  {
    if s != [] {
      SegmentsNoSlash(s[1..]);
      var rest := Segments(s[1..]);
      assert rest[0] in rest && forall seg :: seg in rest[1..] ==> seg in rest;
    }
  }

  lemma {:induction false} SegmentsOf(seg: string)
    requires forall c :: c in seg ==> !IsSlash(c)
    ensures Segments(seg) == [seg]
  {
    if seg != [] {
      assert seg[0] in seg;
      SegmentsOf(seg[1..]);
      assert seg == [seg[0]] + seg[1..];
    }
  }

  lemma {:induction false} SegmentsFirst(seg: string, s: string)
    requires forall c :: c in seg ==> !IsSlash(c)
    ensures Segments(seg + (['/'] + s)) == [seg] + Segments(s)
  {
    var t := seg + (['/'] + s);
    if seg == [] {
      assert t[0] == '/' && t[1..] == s;
    } else {
      assert seg[0] in seg && t[1..] == seg[1..] + (['/'] + s);
      SegmentsFirst(seg[1..], s);
      assert seg == [seg[0]] + seg[1..];
    }
  }

  lemma {:induction false} SegmentsJoined(segs: seq<string>)
    requires segs != [] && forall seg :: seg in segs ==> forall c :: c in seg ==> !IsSlash(c)
    ensures Segments(JoinSegments(segs)) == segs
  {
    assert segs[0] in segs;
    if |segs| == 1 {
      SegmentsOf(segs[0]);
    } else {
      assert forall seg :: seg in segs[1..] ==> seg in segs;
      SegmentsJoined(segs[1..]);
      SegmentsFirst(segs[0], JoinSegments(segs[1..]));
    }
  }

  lemma {:induction false} JoinedSegments(s: string)
    requires '\\' !in s
    ensures JoinSegments(Segments(s)) == s
  {
    if s != [] {
      assert s[0] in s && s == [s[0]] + s[1..];
      JoinedSegments(s[1..]);
      var rest := Segments(s[1..]);
      if IsSlash(s[0]) {
        assert ([[]] + rest)[1..] == rest;
      } else {
        assert ([[s[0]] + rest[0]] + rest[1..])[1..] == rest[1..];
        FirstLonger(s[0], rest);
      }
    }
  }

  lemma {:induction false} FirstLonger(c: char, segs: seq<string>)
    requires segs != []
    ensures JoinSegments([[c] + segs[0]] + segs[1..]) == [c] + JoinSegments(segs)
  {
    var all := [[c] + segs[0]] + segs[1..];
    if |segs| > 1 {
      assert all[1..] == segs[1..];
      Associates([c], segs[0], ['/'] + JoinSegments(segs[1..]));
    }
  }

  /** Dots, each written in one of the ways that count as one. */
  predicate DotLike(t: string)
    decreases |t|
  {
    || t == []
    || (t[0] == '.' && DotLike(t[1..]))
    || (|t| >= 3 && EncodedDot(t[..3]) && DotLike(t[3..]))
  }

  lemma {:induction false} DotsAreDotLike(t: string)
    requires Dots(t)
    ensures DotLike(t)
  {
    assert DotLike([]);
    SingleIsDotLike(t);
    if t[0] == '.' {
      SingleIsDotLike(t[1..]);
    } else if |t| > 3 {
      SingleIsDotLike(t[3..]);
    }
  }

  lemma {:induction false} SingleIsDotLike(t: string)
    ensures SingleDot(t) ==> DotLike(t)
  {
    if t == "." {
      assert t[1..] == [];
    } else if SingleDot(t) {
      assert t[..3] == t && t[3..] == [];
    }
  }

  lemma {:induction false} EscapedHead(es: EscapeSet, s: string)
    requires s != []
    ensures var t := Escaped(es, s);
            if Escapes(es, s[0]) then |t| >= 3 && t[..3] == Escape(Utf8(s[0])[0])
            else t[0] == s[0] && t[1..] == Escaped(es, s[1..])
  {
    var t := Escaped(es, s);
    if Escapes(es, s[0]) {
      var bs := Utf8(s[0]);
      Associates(Escape(bs[0]), EscapeAll(bs[1..]), Escaped(es, s[1..]));
      assert t == Escape(bs[0]) + (EscapeAll(bs[1..]) + Escaped(es, s[1..]));
    }
  }

  lemma {:induction false} NoEscapedDot(es: EscapeSet, c: char)
    requires es.InPath? && Escapes(es, c)
    ensures !EncodedDot(Escape(Utf8(c)[0]))
  {
    var b := Utf8(c)[0] as int;
    assert b != 0x2E;
    HexRoundTrip(b / 16);
    HexRoundTrip(b % 16);
  }

  lemma {:induction false} InertSplit(es: EscapeSet, s: string, n: nat)
    requires n <= |s| && Inert(es, s[..n]) && Inert(es, s[n..])
    ensures Inert(es, s)
  {
    assert s == s[..n] + s[n..];
  }

  lemma {:induction false} DotLikeHead(t: string)
    requires t != [] && DotLike(t)
    ensures (t[0] == '.' && DotLike(t[1..])) || (|t| >= 3 && EncodedDot(t[..3]) && DotLike(t[3..]))
  {
  }

  lemma {:induction false} EscapeNoDots(es: EscapeSet, s: string)
    requires es.InPath? && s != [] && Escapes(es, s[0])
    ensures !DotLike(Escaped(es, s))
  {
    var t := Escaped(es, s);
    EscapedHead(es, s);
    NoEscapedDot(es, s[0]);
    assert t[0] == t[..3][0] == '%';
    if DotLike(t) { DotLikeHead(t); }
  }

  lemma {:induction false} OneMore(es: EscapeSet, s: string)
    requires s != [] && !Escapes(es, s[0])
    ensures Inert(es, s[..1]) && Escaped(es, s)[1..] == Escaped(es, s[1..])
  {
    EscapedHead(es, s);
  }

  lemma {:induction false} PlainDot(es: EscapeSet, s: string)
    requires s != [] && !Escapes(es, s[0]) && DotLike(Escaped(es, s)[1..])
    ensures Inert(es, s[..1]) && DotLike(Escaped(es, s[1..]))
  {
    OneMore(es, s);
  }

  lemma {:induction false} WrittenDot(es: EscapeSet, s: string)
    requires es.InPath? && s != [] && !Escapes(es, s[0]) && |Escaped(es, s)| >= 3
    requires EncodedDot(Escaped(es, s)[..3]) && DotLike(Escaped(es, s)[3..])
    ensures |s| >= 3 && Inert(es, s[..3]) && DotLike(Escaped(es, s[3..]))
  {
    TwoMore(es, s);
  }

  /** The first dot of what is escaped to dots, as it is written. */
  lemma {:induction false} FirstDot(es: EscapeSet, s: string) returns (n: nat)
    requires es.InPath? && s != [] && DotLike(Escaped(es, s))
    ensures 0 < n <= |s| && Inert(es, s[..n]) && DotLike(Escaped(es, s[n..]))
  {
    if Escapes(es, s[0]) {
      EscapeNoDots(es, s);
    } else {
      EscapedNotEmpty(es, s);
      DotLikeHead(Escaped(es, s));
      if Escaped(es, s)[0] == '.' && DotLike(Escaped(es, s)[1..]) {
        PlainDot(es, s);
        return 1;
      } else {
        WrittenDot(es, s);
        return 3;
      }
    }
  }

  /** Escaping does not make dots. */
  lemma {:induction false} DotLikeIsInert(es: EscapeSet, s: string)
    requires es.InPath? && DotLike(Escaped(es, s))
    ensures Inert(es, s)
    decreases |s|
  {
    if s != [] {
      var n := FirstDot(es, s);
      DotLikeIsInert(es, s[n..]);
      InertSplit(es, s, n);
    }
  }

  lemma {:induction false} TwoMore(es: EscapeSet, s: string)
    requires es.InPath? && s != [] && !Escapes(es, s[0]) && |Escaped(es, s)| >= 3
    requires EncodedDot(Escaped(es, s)[..3])
    ensures |s| >= 3 && Inert(es, s[..3]) && Escaped(es, s)[3..] == Escaped(es, s[3..])
  {
    var t := Escaped(es, s);
    assert t[0] == t[..3][0] && t[1] == t[..3][1] && t[2] == t[..3][2];
    EscapedHead(es, s);
    EscapedHead(es, s[1..]);
    assert t[1..][1..] == t[2..] && s[1..][1..] == s[2..];
    assert Escaped(es, s[1..])[0] == '2';
    EscapedHead(es, s[2..]);
    assert t[2..][1..] == t[3..] && s[2..][1..] == s[3..];
  }

  lemma {:induction false} EscapedSettled(es: EscapeSet, seg: string)
    requires es.InPath? && !Dots(seg) && forall c :: c in seg ==> !IsSlash(c)
    ensures Settled(es, Escaped(es, seg))
  {
    EscapedChars(es, seg);
    EscapedInert(es, seg);
    if Dots(Escaped(es, seg)) {
      DotsAreDotLike(Escaped(es, seg));
      DotLikeIsInert(es, seg);
      InertStays(es, seg);
    }
  }

  lemma {:induction false} ResolveSettles(es: EscapeSet, done: seq<string>, segs: seq<string>)
    requires es.InPath? && segs != [] && AllSettled(es, done)
    requires forall seg :: seg in segs ==> forall c :: c in seg ==> !IsSlash(c)
    ensures AllSettled(es, Resolve(es, done, segs))
    decreases |segs|
  {
    var seg := segs[0];
    assert seg in segs;
    if !Dots(seg) { EscapedSettled(es, seg); }
    var next := After(es, done, seg);
    assert AllSettled(es, next);
    if |segs| > 1 {
      assert forall x :: x in segs[1..] ==> x in segs;
      ResolveSettles(es, next, segs[1..]);
    }
  }

  lemma {:induction false} ResolveKeeps(es: EscapeSet, done: seq<string>, segs: seq<string>)
    requires segs != [] && AllSettled(es, segs)
    ensures Resolve(es, done, segs) == done + segs
    decreases |segs|
  {
    assert segs[0] in segs;
    InertStays(es, segs[0]);
    if |segs| > 1 {
      assert forall x :: x in segs[1..] ==> x in segs;
      ResolveKeeps(es, done + [segs[0]], segs[1..]);
      assert segs == [segs[0]] + segs[1..];
      Associates(done, [segs[0]], segs[1..]);
    } else {
      assert segs == [segs[0]];
    }
  }

  /** The path is written out in full: one leading slash, no backslash, nothing to escape, no dot segment. */
  ghost predicate Canonical(lib: Library, p: string) {
    && p != [] && p[0] == '/' && '\\' !in p && Inert(InPath(lib.escapesCaret), p)
    && forall seg :: seg in Segments(p[1..]) ==> !Dots(seg)
  }

  lemma {:induction false} CanonicalKept(lib: Library, p: string)
    requires Canonical(lib, p)
    ensures JoinedPath(lib, p) == p
  {
    var es, segs := InPath(lib.escapesCaret), Segments(p[1..]);
    SegmentsNoSlash(p[1..]);
    forall seg | seg in segs ensures Settled(es, seg) {
      assert forall c :: c in seg ==> c in p;
    }
    ResolveKeeps(es, [], segs);
    assert [] + segs == segs && '\\' !in p[1..];
    JoinedSegments(p[1..]);
    assert p == ['/'] + p[1..];
  }

  lemma {:induction false} JoinedPathCanonical(lib: Library, p: string)
    ensures Canonical(lib, JoinedPath(lib, p))
  {
    var es := InPath(lib.escapesCaret);
    if p == [] {
      SegmentsOf([]);
      assert "/"[1..] == [];
    } else {
      var segs := Segments(if IsSlash(p[0]) then p[1..] else p);
      SegmentsNoSlash(if IsSlash(p[0]) then p[1..] else p);
      ResolveSettles(es, [], segs);
      SettledCanonical(lib, Resolve(es, [], segs));
    }
  }

  lemma {:induction false} SettledCanonical(lib: Library, segs: seq<string>)
    requires segs != [] && AllSettled(InPath(lib.escapesCaret), segs)
    ensures Canonical(lib, ['/'] + JoinSegments(segs))
  {
    var p := ['/'] + JoinSegments(segs);
    assert p[1..] == JoinSegments(segs);
    SegmentsJoined(segs);
    JoinedChars(InPath(lib.escapesCaret), segs);
  }

  lemma {:induction false} JoinedChars(es: EscapeSet, segs: seq<string>)
    requires es.InPath? && segs != [] && AllSettled(es, segs)
    ensures Inert(es, JoinSegments(segs)) && '\\' !in JoinSegments(segs)
  {
    assert segs[0] in segs && Settled(es, segs[0]);
    if |segs| > 1 {
      assert forall seg :: seg in segs[1..] ==> seg in segs;
      JoinedChars(es, segs[1..]);
    }
  }

  // ----- how long a joined path is -----

  function TotalLength(segs: seq<string>): nat {
    if segs == [] then 0 else |segs[0]| + 1 + TotalLength(segs[1..])
  }

  lemma {:induction false} TotalAppend(a: seq<string>, b: seq<string>)
    ensures TotalLength(a + b) == TotalLength(a) + TotalLength(b)
  {
    if a == [] {
      assert a + b == b;
    } else {
      assert (a + b)[1..] == a[1..] + b;
      TotalAppend(a[1..], b);
    }
  }

  lemma {:induction false} JoinedLength(segs: seq<string>)
    requires segs != []
    ensures |JoinSegments(segs)| + 1 == TotalLength(segs)
  {
    if |segs| > 1 { JoinedLength(segs[1..]); }
  }

  lemma {:induction false} SegmentsLength(s: string)
    ensures TotalLength(Segments(s)) == |s| + 1
  {
    if s != [] {
      SegmentsLength(s[1..]);
      var rest := Segments(s[1..]);
      if IsSlash(s[0]) {
        assert ([[]] + rest)[1..] == rest;
      } else {
        assert ([[s[0]] + rest[0]] + rest[1..])[1..] == rest[1..];
      }
    }
  }

  lemma {:induction false} AfterLength(es: EscapeSet, done: seq<string>, seg: string)
    requires Inert(es, seg)
    ensures TotalLength(After(es, done, seg)) <= TotalLength(done) + (if Dots(seg) then 0 else |seg| + 1)
  {
    if DoubleDot(seg) {
      if done != [] {
        var n := |done| - 1;
        assert done == done[..n] + [done[n]];
        TotalAppend(done[..n], [done[n]]);
      }
    } else if !SingleDot(seg) {
      InertStays(es, seg);
      TotalAppend(done, [seg]);
      assert [seg][1..] == [];
    }
  }

  lemma {:induction false} ResolveLength(es: EscapeSet, done: seq<string>, segs: seq<string>)
    requires segs != [] && forall seg :: seg in segs ==> Inert(es, seg)
    ensures TotalLength(Resolve(es, done, segs)) <= TotalLength(done) + TotalLength(segs)
    decreases |segs|
  {
    assert segs[0] in segs;
    var next := After(es, done, segs[0]);
    AfterLength(es, done, segs[0]);
    if |segs| > 1 {
      assert forall x :: x in segs[1..] ==> x in segs;
      ResolveLength(es, next, segs[1..]);
    } else {
      var none: seq<string> := [[]];
      TotalAppend(next, none);
      assert none[1..] == [];
    }
  }

  /** Of a text with nothing to escape the path is at most one character longer. */
  lemma {:induction false} JoinedPathLength(lib: Library, p: string)
    requires Inert(InPath(lib.escapesCaret), p)
    ensures |JoinedPath(lib, p)| <= |p| + 1
  {
    if p != [] {
      var es, q := InPath(lib.escapesCaret), if IsSlash(p[0]) then p[1..] else p;
      assert forall c :: c in q ==> c in p;
      SegmentsNoSlash(q);
      assert forall seg :: seg in Segments(q) ==> Inert(es, seg);
      ResolveLength(es, [], Segments(q));
      SegmentsLength(q);
      JoinedLength(Resolve(es, [], Segments(q)));
    }
  }

  // ----- when the join keeps a path -----

  ghost predicate PathKept(lib: Library, p: string) {
    Join(lib, p).Ok? && Join(lib, p).value.0 == p
  }

  /** In a text that is written out in full nothing is stripped, and no query or fragment begins. */
  lemma {:induction false} InertPlain(lib: Library, p: string)
    requires Inert(InPath(lib.escapesCaret), p)
    ensures Stripped(p) == p && BeforeQuery(p) == p && IndexOf(p, '?') == |p| && '#' !in p && '?' !in p
  {
    forall c | c in p ensures !Drops(c) && !Trims(c) && c != '#' && c != '?' {}
    KeptStays(p);
    IndexOfFirst(p, '?');
    assert p[..|p|] == p;
  }

  lemma {:induction false} NoFragment(lib: Library, p: string)
    requires '#' !in p
    ensures PathAndQuery(lib, p).0 == JoinedPath(lib, BeforeQuery(p))
  {
    IndexOfFirst(p, '#');
    assert p[..|p|] == p;
  }

  /** Whatever is joined, its path is written out in full, unless it has a scheme. */
  lemma {:induction false} JoinedCanonical(lib: Library, s: string)
    requires !HasScheme(Stripped(s)) && Join(lib, s).Ok?
    ensures Canonical(lib, Join(lib, s).value.0)
  {
    var t := Stripped(s);
    var rest := if HasAuthority(t) then t[Min(lib.authority(t).value, |t|)..] else t;
    JoinedPathCanonical(lib, BeforeQuery(rest[..IndexOf(rest, '#')]));
  }

  lemma {:induction false} IndexOfDrop(s: string, c: char, n: nat)
    requires n <= IndexOf(s, c)
    ensures IndexOf(s[n..], c) == IndexOf(s, c) - n
  {
    if n > 0 {
      IndexOfDrop(s[1..], c, n - 1);
      assert s[1..][n - 1..] == s[n..];
    } else {
      assert s[0..] == s;
    }
  }

  /** What follows an authority is shorter than what is before the query. */
  lemma {:induction false} AuthorityShortens(lib: Library, s: string, n: nat)
    requires Inert(InPath(lib.escapesCaret), BeforeQuery(s)) && '#' !in s && 3 <= n <= IndexOf(s, '?')
    ensures |PathAndQuery(lib, s[n..]).0| < |BeforeQuery(s)|
  {
    IndexOfDrop(s, '?', n);
    var q := BeforeQuery(s[n..]);
    assert q == BeforeQuery(s)[n..];
    assert forall c :: c in q ==> c in BeforeQuery(s);
    NoFragment(lib, s[n..]);
    JoinedPathLength(lib, q);
  }

  /** A text is kept as a path iff it is written out in full, and has no authority, "//", in front. */
  lemma {:induction false} PathKeptIff(lib: Library, p: string)
    requires Lawful(lib)
    ensures PathKept(lib, p) <==> Canonical(lib, p) && !HasAuthority(p)
  {
    var t := Stripped(p);
    if Canonical(lib, p) {
      InertPlain(lib, p);
      NoFragment(lib, p);
      CanonicalKept(lib, p);
      if HasAuthority(p) && lib.authority(p).Ok? { AuthorityShortens(lib, p, lib.authority(p).value); }
    } else if PathKept(lib, p) {
      assert !HasScheme(t);
      JoinedCanonical(lib, p);
    }
  }

  lemma {:induction false} AfterDots(es: EscapeSet, done: seq<string>)
    ensures After(es, done, "..") == if done == [] then [] else done[..|done| - 1]
  {
    assert ".."[1..] == ".";
  }

  lemma {:induction false} AfterSettled(es: EscapeSet, done: seq<string>, seg: string)
    requires Settled(es, seg)
    ensures After(es, done, seg) == done + [seg]
  {
    InertStays(es, seg);
  }

  /** A ".." takes itself and the segment before it out of the path. */
  lemma {:induction false} DotsRemoved(lib: Library, a: string, b: string)
    requires Settled(InPath(lib.escapesCaret), a) && Settled(InPath(lib.escapesCaret), b)
    ensures JoinedPath(lib, ['/'] + JoinSegments([a, "..", b])) == ['/'] + b
  {
    var es, segs := InPath(lib.escapesCaret), [a, "..", b];
    SegmentsJoined(segs);
    assert (['/'] + JoinSegments(segs))[1..] == JoinSegments(segs);
    AfterSettled(es, [], a);
    AfterDots(es, [a]);
    AfterSettled(es, [], b);
    assert segs[1..] == ["..", b] && ["..", b][1..] == [b];
    ResolveStep(es, [], segs);
    ResolveStep(es, [a], ["..", b]);
    ResolveStep(es, [], [b]);
  }

  lemma {:induction false} ResolveStep(es: EscapeSet, done: seq<string>, segs: seq<string>)
    requires segs != []
    ensures var seg := segs[0];
            var next := After(es, done, seg);
            Resolve(es, done, segs)
            == if |segs| > 1 then Resolve(es, next, segs[1..]) else if Dots(seg) then next + [[]] else next
  {
  }
}
