/** The version strings of configuration files (`_version_tuple` in cli/planoai/config_generator.py). */
module Versions {
  import opened Wrappers
  import opened Strings

  datatype Version = Version(major: int, minor: int, patch: int)
  {
    predicate AtLeast(v: Version) {
      major > v.major || (major == v.major && (minor > v.minor || (minor == v.minor && patch >= v.patch)))
    }
  }

  // ----- Python's string functions -----

  predicate IsPySpace(c: char) {
    IsSpace(c) || 0x1C <= c as int <= 0x1F
  }

  function StripStart(s: string): string {
    if s != [] && IsPySpace(s[0]) then StripStart(s[1..]) else s
  }

  function StripEnd(s: string): string {
    if s != [] && IsPySpace(s[|s| - 1]) then StripEnd(s[..|s| - 1]) else s
  }

  /** `s.strip()` */
  function Strip(s: string): string {
    StripEnd(StripStart(s))
  }

  /** Digits with single underscores between them. */
  function DigitsValue(t: string): Option<nat>
    decreases |t|
  {
    var n := |t| - 1;
    if t == [] || !IsDigit(t[n]) then None
    else
      var d := t[n] as int - '0' as int;
      if n == 0 then Some(d)
      else
        var rest := DigitsValue(if t[n - 1] == '_' then t[..n - 1] else t[..n]);
        if rest.None? then None else Some(10 * rest.value + d)
  }

  /** `int(s)`, None for a ValueError. */
  function PyInt(s: string): Option<int> {
    var t := Strip(s);
    if t != [] && (t[0] == '+' || t[0] == '-') then
      var v := DigitsValue(t[1..]);
      if v.None? then None else Some(if t[0] == '-' then 0 - v.value else v.value as int)
    else
      var v := DigitsValue(t);
      if v.None? then None else Some(v.value)
  }

  /** `s.lstrip("vV")` */
  function StripV(s: string): string {
    if s != [] && (s[0] == 'v' || s[0] == 'V') then StripV(s[1..]) else s
  }

  // ----- `_version_tuple` -----

  function Part(parts: seq<string>, i: nat): int {
    if i < |parts| && PyInt(parts[i]).Some? then PyInt(parts[i]).value else 0
  }

  function VersionOf(s: string): Version {
    var stripped := StripV(Strip(s));
    if stripped == [] then Version(0, 0, 0)
    else
      var parts := SplitOn(stripped[..IndexOf(stripped, '-')], '.');
      Version(Part(parts, 0), Part(parts, 1), Part(parts, 2))
  }

  /** The loop over the parts. */
  method VersionTuple(s: string) returns (v: Version)
    ensures v == VersionOf(s)
  {
    var stripped := StripV(Strip(s));
    if stripped == [] { return Version(0, 0, 0); }
    var parts := SplitOn(stripped[..IndexOf(stripped, '-')], '.');
    var out: seq<int> := [];
    var n := if |parts| < 3 then |parts| else 3;
    for i := 0 to n
      invariant |out| == i
      invariant forall k :: 0 <= k < i ==> out[k] == Part(parts, k)
    {
      var value := PyInt(parts[i]);
      out := out + [if value.Some? then value.value else 0];
    }
    while |out| < 3
      invariant n <= |out| <= 3
      invariant forall k :: 0 <= k < |out| ==> out[k] == Part(parts, k)
    {
      out := out + [0];
    }
    v := Version(out[0], out[1], out[2]);
  }

  // ----- reading back what was written -----

  lemma {:induction false} DigitsOfDecimal(n: nat)
    ensures DigitsValue(Decimal(n)) == Some(n)
  {
    var t := Decimal(n);
    var k := |t| - 1;
    if n >= 10 {
      DigitsOfDecimal(n / 10);
      DecimalDigits(n / 10);
      assert t[..k] == Decimal(n / 10);
      assert t[k - 1] == Decimal(n / 10)[k - 1];
      assert t[k - 1] in Decimal(n / 10);
    }
  }

  /** Nothing is stripped from a text without white space at its ends. */
  lemma {:induction false} StripNothing(t: string)
    requires t != [] && !IsPySpace(t[0]) && !IsPySpace(t[|t| - 1])
    ensures Strip(t) == t
  {
  }

  lemma {:induction false} DecimalEnds(n: nat)
    ensures IsDigit(Decimal(n)[0]) && IsDigit(Decimal(n)[|Decimal(n)| - 1])
    ensures '.' !in Decimal(n) && '-' !in Decimal(n)
  {
    DecimalDigits(n);
    assert Decimal(n)[0] in Decimal(n) && Decimal(n)[|Decimal(n)| - 1] in Decimal(n);
  }

  lemma {:induction false} IntOfDecimal(n: nat)
    ensures PyInt(Decimal(n)) == Some(n)
  {
    DecimalEnds(n);
    DigitsOfDecimal(n);
    StripNothing(Decimal(n));
  }

  function Core(v: Version): string
    requires v.major >= 0 && v.minor >= 0 && v.patch >= 0
  {
    Decimal(v.major) + (['.'] + (Decimal(v.minor) + (['.'] + Decimal(v.patch))))
  }

  lemma {:induction false} SplitCore(v: Version)
    requires v.major >= 0 && v.minor >= 0 && v.patch >= 0
    ensures SplitOn(Core(v), '.') == [Decimal(v.major), Decimal(v.minor), Decimal(v.patch)]
  {
    DecimalEnds(v.major);
    DecimalEnds(v.minor);
    DecimalEnds(v.patch);
    SplitOnFirst(Decimal(v.major), '.', Decimal(v.minor) + (['.'] + Decimal(v.patch)));
    SplitOnFirst(Decimal(v.minor), '.', Decimal(v.patch));
    SplitOnNone(Decimal(v.patch), '.');
  }

  lemma {:induction false} CoreEnds(v: Version)
    requires v.major >= 0 && v.minor >= 0 && v.patch >= 0
    ensures IsDigit(Core(v)[0]) && IsDigit(Core(v)[|Core(v)| - 1]) && '-' !in Core(v)
  {
    DecimalEnds(v.major);
    DecimalEnds(v.minor);
    DecimalEnds(v.patch);
    assert Core(v)[0] == Decimal(v.major)[0];
    assert Core(v)[|Core(v)| - 1] == Decimal(v.patch)[|Decimal(v.patch)| - 1];
  }

  lemma {:induction false} StripEndKeeps(a: string, b: string)
    requires b != [] && !IsPySpace(b[0])
    ensures StripEnd(b) != [] && StripEnd(b)[0] == b[0] && StripEnd(a + b) == a + StripEnd(b)
    decreases |b|
  {
    var n := |b| - 1;
    assert (a + b)[|a + b| - 1] == b[n];
    if IsPySpace(b[n]) {
      assert (a + b)[..|a + b| - 1] == a + b[..n];
      StripEndKeeps(a, b[..n]);
    }
  }

  /** A pre-release or build suffix begins with '-'. */
  predicate Suffix(s: string) {
    s == [] || s[0] == '-'
  }

  lemma {:induction false} SuffixStripped(core: string, suffix: string)
    requires core != [] && IsDigit(core[0]) && IsDigit(core[|core| - 1]) && Suffix(suffix)
    ensures exists rest :: Suffix(rest) && StripV(Strip(['v'] + core + suffix)) == core + rest
  {
    var t := ['v'] + core;
    if suffix == [] {
      assert t + suffix == t;
      StripNothing(t);
      assert t[1..] == core && core + [] == core;
      assert Suffix([]) && StripV(Strip(t)) == core + [];
    } else {
      StripEndKeeps(t, suffix);
      var rest := StripEnd(suffix);
      assert StripStart(t + suffix) == t + suffix;
      assert (t + rest)[1..] == core + rest;
      assert StripV(Strip(t + suffix)) == core + rest;
    }
  }

  lemma {:induction false} CutSuffix(core: string, rest: string)
    requires '-' !in core && Suffix(rest)
    ensures (core + rest)[..IndexOf(core + rest, '-')] == core
  {
    if rest == [] {
      assert core + rest == core;
      IndexOfFirst(core, '-');
    } else {
      assert core + rest == core + (['-'] + rest[1..]);
      IndexOfAfter(core, '-', rest[1..]);
    }
  }

  /** Every version, with or without a suffix, is read back as it was written. */
  lemma {:induction false} VersionRoundTrip(v: Version, suffix: string)
    requires v.major >= 0 && v.minor >= 0 && v.patch >= 0 && Suffix(suffix)
    ensures VersionOf(['v'] + Core(v) + suffix) == v
  {
    SplitCore(v);
    CoreEnds(v);
    var core := Core(v);
    SuffixStripped(core, suffix);
    var rest :| Suffix(rest) && StripV(Strip(['v'] + core + suffix)) == core + rest;
    CutSuffix(core, rest);
    IntOfDecimal(v.major);
    IntOfDecimal(v.minor);
    IntOfDecimal(v.patch);
  }
}
