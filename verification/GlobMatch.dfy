/**
 The wildcard matcher of `planoai trace --filter` (cli/planoai/trace_cmd.py, `_matches_pattern`),
 compared with the usual meaning of a glob in which '*' stands for any, possibly empty, string.
 */
module GlobMatch {
  import opened Strings
  import opened Wrappers

  /** The reference meaning of a glob pattern. */
  ghost predicate Glob(pattern: string, value: string)
    decreases |pattern|
  {
    if pattern == [] then value == []
    else if pattern[0] == '*' then exists k: nat :: k <= |value| && Glob(pattern[1..], value[k..])
    else value != [] && value[0] == pattern[0] && Glob(pattern[1..], value[1..])
  }

  /** The non-empty pieces of `pattern.split("*")`. */
  function Parts(pattern: string): seq<string>
    decreases |pattern|
  {
    var i := IndexOf(pattern, '*');
    var first := if i == 0 then [] else [pattern[..i]];
    if i == |pattern| then first else first + Parts(pattern[i + 1..])
  }

  /** What is left of `value` after each part in turn was found leftmost; None when one is missing. */
  function Consume(parts: seq<string>, value: string): Option<string> {
    if parts == [] then Some(value)
    else
      var pos := Find(value, parts[0]);
      if pos == -1 then None else Consume(parts[1..], value[pos + |parts[0]|..])
  }

  predicate EndsWithStar(pattern: string) {
    pattern != [] && pattern[|pattern| - 1] == '*'
  }

  /** The patterns on which the greedy scan is exact. */
  predicate GreedyIsExact(pattern: string) {
    '*' !in pattern || EndsWithStar(pattern)
  }

  /** What `_matches_pattern` computes. */
  predicate Matches(value: string, pattern: string) {
    if '*' !in pattern then value == pattern
    else
      var parts := Parts(pattern);
      parts == [] ||
      (var rest := Consume(parts, value);
       && rest.Some?
       && (pattern[0] == '*' || parts[0] <= value)
       && (EndsWithStar(pattern) || rest.value == []))
  }

  method MatchesPattern(value: string, pattern: string) returns (matched: bool)
    ensures matched == Matches(value, pattern)
    ensures matched ==> Glob(pattern, value)
    ensures GreedyIsExact(pattern) ==> (matched <==> Glob(pattern, value))
  {
    matched := GreedyScan(value, pattern);
    if matched { Sound(value, pattern); }
    if GreedyIsExact(pattern) { Exact(value, pattern); }
  }

  method GreedyScan(value: string, pattern: string) returns (matched: bool)
    ensures matched == Matches(value, pattern)
  {
    if pattern == "*" {
      assert Parts(pattern) == Parts([]) == [];
      return true;
    }
    if '*' !in pattern {
      return value == pattern;
    }
    var parts := Parts(pattern);
    if parts == [] {
      return true;
    }
    var remaining := value;
    FindAtStart(value, parts[0]);
    for idx := 0 to |parts|
      invariant idx == 0 ==> remaining == value
      invariant Consume(parts, value) == Consume(parts[idx..], remaining)
      invariant idx > 0 ==> pattern[0] == '*' || parts[0] <= value
    {
      var pos := Find(remaining, parts[idx]);
      ConsumeStep(parts, idx, remaining);
      if pos == -1 {
        return false;
      }
      if idx == 0 && pattern[0] != '*' && pos != 0 {
        return false;
      }
      remaining := remaining[pos + |parts[idx]|..];
    }
    if !EndsWithStar(pattern) && remaining != [] {
      return false;
    }
    return true;
  }

  lemma {:induction false} ConsumeStep(parts: seq<string>, idx: nat, remaining: string)
    requires idx < |parts|
    ensures Consume(parts[idx..], remaining) == ConsumeFrom(parts[idx], parts[idx + 1..], remaining)
  {
    assert parts[idx..] == [parts[idx]] + parts[idx + 1..];
    ConsumeCons(parts[idx], parts[idx + 1..], remaining);
  }

  lemma {:induction false} FindAtStart(s: string, sub: string)
    ensures Find(s, sub) == 0 <==> sub <= s
  {
    if Find(s, sub) == 0 {
      FindOccurs(s, sub);
      assert s[0..] == s;
    }
  }

  // ----- splitting a pattern at its first star -----

  lemma {:induction false} PartsAllStars(pattern: string)
    requires Parts(pattern) == []
    ensures pattern == [] || EndsWithStar(pattern)
    decreases |pattern|
  {
    if pattern != [] {
      PartsAllStars(pattern[1..]);
    }
  }

  lemma {:induction false} ConsumeCons(lit: string, rest: seq<string>, value: string)
    ensures Consume([lit] + rest, value) == ConsumeFrom(lit, rest, value)
  {
    var ps := [lit] + rest;
    assert ps[0] == lit && ps[1..] == rest;
  }

  /** One leftmost search for `lit`, then the rest. */
  function ConsumeFrom(lit: string, rest: seq<string>, value: string): Option<string> {
    var pos := Find(value, lit);
    if pos == -1 then None else Consume(rest, value[pos + |lit|..])
  }

  /** `Consume` on the parts of lit + "*" + q is one leftmost search for lit, then q. */
  lemma {:induction false} ConsumeCut(lit: string, q: string, value: string)
    requires '*' !in lit
    ensures Parts(lit + ("*" + q)) == (if lit == [] then [] else [lit]) + Parts(q)
    ensures Consume(Parts(lit + ("*" + q)), value) == ConsumeFrom(lit, Parts(q), value)
  {
    var p := lit + ("*" + q);
    IndexOfAfter(lit, '*', q);
    assert p[..|lit|] == lit && p[|lit| + 1..] == q;
    if lit == [] {
      assert value[0..] == value && Parts(p) == Parts(q);
    } else {
      assert Parts(p) == [lit] + Parts(q);
      ConsumeCons(lit, Parts(q), value);
    }
  }

  lemma {:induction false} ConsumeLast(lit: string, value: string)
    requires '*' !in lit
    ensures Parts(lit) == if lit == [] then [] else [lit]
    ensures Consume(Parts(lit), value) == ConsumeFrom(lit, [], value)
  {
    IndexOfFirst(lit, '*');
    assert lit[..|lit|] == lit;
    if lit == [] { assert value[0..] == value; } else { ConsumeCons(lit, [], value); assert [lit] + [] == [lit]; }
  }

  // ----- glob facts -----

  lemma {:induction false} GlobLiteral(lit: string, rest: string, value: string)
    requires '*' !in lit
    ensures Glob(lit + rest, value) <==> lit <= value && Glob(rest, value[|lit|..])
    decreases |lit|
  {
    if lit == [] {
      assert lit + rest == rest && value[0..] == value;
    } else {
      assert lit[0] in lit;
      var p := lit + rest;
      assert p[1..] == lit[1..] + rest;
      if value != [] && value[0] == lit[0] {
        GlobLiteral(lit[1..], rest, value[1..]);
        if lit <= value {
          assert lit[1..] <= value[1..];
          assert value[1..][|lit[1..]|..] == value[|lit|..];
        }
        if lit[1..] <= value[1..] {
          assert lit == [lit[0]] + lit[1..] && value == [value[0]] + value[1..];
        }
      }
    }
  }

  lemma {:induction false} StarIntro(q: string, value: string, k: nat)
    requires k <= |value| && Glob(q, value[k..])
    ensures Glob("*" + q, value)
  {
    assert ("*" + q)[1..] == q;
  }

  lemma {:induction false} StarElim(q: string, value: string) returns (k: nat)
    requires Glob("*" + q, value)
    ensures k <= |value| && Glob(q, value[k..])
  {
    assert ("*" + q)[1..] == q;
    k :| k <= |value| && Glob(q, value[k..]);
  }

  /** A leading star may swallow more: matching a suffix implies matching the whole. */
  lemma {:induction false} StarExtends(q: string, value: string, k: nat)
    requires k <= |value| && Glob("*" + q, value[k..])
    ensures Glob("*" + q, value)
  {
    var j := StarElim(q, value[k..]);
    assert value[k..][j..] == value[k + j..];
    StarIntro(q, value, k + j);
  }

  lemma {:induction false} LiteralGlob(lit: string, value: string)
    requires '*' !in lit
    ensures Glob(lit, value) <==> value == lit
  {
    assert lit + [] == lit;
    GlobLiteral(lit, [], value);
  }

  /** One step of a match, before the greedy choice: lit anywhere, then "*" + q after it. */
  lemma {:induction false} StepIntro(lit: string, q: string, value: string, pos: nat)
    requires '*' !in lit && OccursAt(value, lit, pos)
    requires Glob("*" + q, value[pos + |lit|..])
    ensures Glob("*" + (lit + ("*" + q)), value)
  {
    assert value[pos..][|lit|..] == value[pos + |lit|..];
    GlobLiteral(lit, "*" + q, value[pos..]);
    StarIntro(lit + ("*" + q), value, pos);
  }

  lemma {:induction false} StepElim(lit: string, q: string, value: string) returns (pos: nat)
    requires '*' !in lit
    requires Glob("*" + (lit + ("*" + q)), value)
    ensures OccursAt(value, lit, pos) && Glob("*" + q, value[pos + |lit|..])
  {
    pos := StarElim(lit + ("*" + q), value);
    GlobLiteral(lit, "*" + q, value[pos..]);
    assert value[pos..][|lit|..] == value[pos + |lit|..];
  }

  // ----- the exchange argument -----

  /** Moving the occurrence of `lit` to the leftmost one keeps the rest of the match. */
  lemma {:induction false} Exchange(lit: string, q: string, value: string)
    requires '*' !in lit
    requires Glob("*" + (lit + ("*" + q)), value)
    ensures Find(value, lit) != -1 && Glob("*" + q, value[Find(value, lit) + |lit|..])
  {
    var k := StepElim(lit, q, value);
    FindLeftmost(value, lit, k);
    var pos := Find(value, lit);
    var after := value[pos + |lit|..];
    assert after[k - pos..] == value[k + |lit|..];
    StarExtends(q, after, k - pos);
  }

  /** After a star, the leftmost occurrences suffice: completeness of the greedy scan. */
  lemma {:induction false} ConsumeComplete(p: string, value: string)
    requires p == [] || EndsWithStar(p)
    requires Glob("*" + p, value)
    ensures Consume(Parts(p), value).Some?
    decreases |p|
  {
    if p != [] {
      var lit, q := SplitAtStar(p);
      ConsumeCut(lit, q, value);
      Exchange(lit, q, value);
      ConsumeComplete(q, value[Find(value, lit) + |lit|..]);
    }
  }

  /** A completed greedy scan exhibits a glob match. */
  lemma {:induction false} ConsumeSound(p: string, value: string)
    requires Consume(Parts(p), value).Some?
    requires p == [] || EndsWithStar(p) || Consume(Parts(p), value).value == []
    ensures Glob("*" + p, value)
    decreases |p|
  {
    if '*' !in p {
      ConsumeSoundLast(p, value);
    } else {
      var lit, q := SplitAtStar(p);
      var pos := ConsumeFirst(lit, q, value);
      ConsumeSound(q, value[pos + |lit|..]);
      StepIntro(lit, q, value, pos);
    }
  }

  /** The leftmost occurrence of the first part. */
  lemma {:induction false} ConsumeFirst(lit: string, q: string, value: string) returns (pos: nat)
    requires '*' !in lit && Consume(Parts(lit + ("*" + q)), value).Some?
    ensures OccursAt(value, lit, pos) && pos + |lit| <= |value|
    ensures Consume(Parts(q), value[pos + |lit|..]) == Consume(Parts(lit + ("*" + q)), value)
  {
    ConsumeCut(lit, q, value);
    FindOccurs(value, lit);
    pos := Find(value, lit);
  }

  lemma {:induction false} ConsumeSoundLast(p: string, value: string)
    requires '*' !in p
    requires Consume(Parts(p), value).Some?
    requires p == [] || Consume(Parts(p), value).value == []
    ensures Glob("*" + p, value)
  {
    var pos := if p == [] then |value| else Find(value, p);
    ConsumeLast(p, value);
    if p != [] {
      FindOccurs(value, p);
      assert value[pos..] == p + value[pos + |p|..] == p;
    }
    LiteralGlob(p, value[pos..]);
    StarIntro(p, value, pos);
  }

  /** Every accepted value matches the glob, for every pattern. */
  lemma {:induction false} Sound(value: string, pattern: string)
    requires Matches(value, pattern)
    ensures Glob(pattern, value)
  {
    if '*' !in pattern {
      LiteralGlob(pattern, value);
    } else {
      var lit, q := SplitAtStar(pattern);
      ConsumeCut(lit, q, value);
      if Parts(pattern) == [] { PartsAllStars(q); }
      if lit <= value {
        assert value[0..] == value;
        FindLeftmost(value, lit, 0);
      }
      ConsumeSound(q, value[|lit|..]);
      GlobLiteral(lit, "*" + q, value);
    }
  }

  lemma {:induction false} SplitAtStar(pattern: string) returns (lit: string, q: string)
    requires '*' in pattern
    ensures '*' !in lit && pattern == lit + ("*" + q)
    ensures pattern[0] == '*' <==> lit == []
    ensures EndsWithStar(pattern) <==> q == [] || EndsWithStar(q)
  {
    var i := IndexOf(pattern, '*');
    IndexOfFirst(pattern, '*');
    lit, q := pattern[..i], pattern[i + 1..];
  }

  /** On a pattern that has no star or ends in one, the matcher is the glob relation. */
  lemma {:induction false} Exact(value: string, pattern: string)
    requires GreedyIsExact(pattern)
    ensures Matches(value, pattern) <==> Glob(pattern, value)
  {
    if Matches(value, pattern) {
      Sound(value, pattern);
    } else if Glob(pattern, value) {
      if '*' !in pattern {
        LiteralGlob(pattern, value);
      } else {
        var lit, q := SplitAtStar(pattern);
        ConsumeCut(lit, q, value);
        GlobLiteral(lit, "*" + q, value);
        assert value[0..] == value;
        FindLeftmost(value, lit, 0);
        ConsumeComplete(q, value[|lit|..]);
      }
    }
  }

  // ----- the patterns on which the greedy scan gives up too early -----

  /**
   A value the pattern should accept: its literal text with the text after the last star twice.
   */
  function Doubled(pattern: string): string
    decreases |pattern|
  {
    var i := IndexOf(pattern, '*');
    if i == |pattern| then pattern + pattern else pattern[..i] + Doubled(pattern[i + 1..])
  }

  lemma {:induction false} DoubledLast(p: string)
    requires p != [] && '*' !in p
    ensures Doubled(p) == p + p && Glob("*" + p, Doubled(p))
    ensures Consume(Parts(p), Doubled(p)) == Some(p)
  {
    IndexOfFirst(p, '*');
    var v := Doubled(p);
    ConsumeLast(p, v);
    assert v[0..] == v && v[|p|..] == p;
    FindLeftmost(v, p, 0);
    LiteralGlob(p, p);
    StarIntro(p, v, |p|);
  }

  lemma {:induction false} DoubledCut(lit: string, q: string)
    requires '*' !in lit
    ensures Doubled(lit + ("*" + q)) == lit + Doubled(q)
  {
    var p := lit + ("*" + q);
    IndexOfAfter(lit, '*', q);
    assert p[..|lit|] == lit && p[|lit| + 1..] == q;
  }

  lemma {:induction false} DoubledStep(lit: string, q: string, v: string)
    requires '*' !in lit && v == lit + Doubled(q) && Glob("*" + q, Doubled(q))
    ensures Glob("*" + (lit + ("*" + q)), v)
    ensures Consume(Parts(lit + ("*" + q)), v) == Consume(Parts(q), Doubled(q))
  {
    assert v[0..] == v && v[|lit|..] == Doubled(q);
    ConsumeCut(lit, q, v);
    FindLeftmost(v, lit, 0);
    GlobLiteral(lit, "*" + q, v);
    StarIntro(lit + ("*" + q), v, 0);
  }

  lemma {:induction false} DoubledDefeatsGreedy(p: string)
    requires p != [] && !EndsWithStar(p)
    ensures Glob("*" + p, Doubled(p))
    ensures Consume(Parts(p), Doubled(p)).Some? && Consume(Parts(p), Doubled(p)).value != []
    decreases |p|
  {
    if '*' !in p {
      DoubledLast(p);
    } else {
      var lit, q := SplitAtStar(p);
      DoubledDefeatsGreedy(q);
      DoubledCut(lit, q);
      DoubledStep(lit, q, Doubled(p));
    }
  }

  /** The matcher agrees with the glob on every value exactly for the patterns with no star or a final one. */
  lemma {:induction false} ExactIff(pattern: string)
    ensures (forall value :: Matches(value, pattern) <==> Glob(pattern, value)) <==> GreedyIsExact(pattern)
  {
    if GreedyIsExact(pattern) {
      forall value ensures Matches(value, pattern) <==> Glob(pattern, value) {
        Exact(value, pattern);
      }
    } else {
      var lit, q := SplitAtStar(pattern);
      var v := lit + Doubled(q);
      DoubledDefeatsGreedy(q);
      assert v[|lit|..] == Doubled(q) && v[0..] == v;
      GlobLiteral(lit, "*" + q, v);
      ConsumeCut(lit, q, v);
      FindLeftmost(v, lit, 0);
      assert Parts(pattern) != [] by {
        if Parts(pattern) == [] { PartsAllStars(pattern); }
      }
      assert Glob(pattern, v) && !Matches(v, pattern);
    }
  }
}
