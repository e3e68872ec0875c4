/** The string operations of Python and Rust that the modelled code calls. */
module Strings {

  newtype byte = b: int | 0 <= b < 256

  /** `sub` occurs in `s` at position `i`. */
  predicate OccursAt(s: string, sub: string, i: nat) {
    i <= |s| && sub <= s[i..]
  }

  ghost predicate Contains(s: string, sub: string) {
    exists i: nat :: OccursAt(s, sub, i)
  }

  /** Leftmost occurrence of `sub` in `s`, or -1 (Python's `str.find`). */
  function Find(s: string, sub: string): (r: int)
    ensures r == -1 || 0 <= r <= |s| - |sub|
  {
    if sub <= s then 0
    else if s == [] then -1
    else
      var r := Find(s[1..], sub);
      if r == -1 then -1 else r + 1
  }

  lemma {:induction false} FindOccurs(s: string, sub: string)
    requires Find(s, sub) != -1
    ensures OccursAt(s, sub, Find(s, sub))
  {
    if !(sub <= s) {
      FindOccurs(s[1..], sub);
      assert s[1..][Find(s[1..], sub)..] == s[Find(s, sub)..];
    }
  }

  /** `Find` misses nothing to its left. */
  lemma {:induction false} FindLeftmost(s: string, sub: string, j: nat)
    requires OccursAt(s, sub, j)
    ensures 0 <= Find(s, sub) <= j
  {
    assert s[0..] == s;
    if !(sub <= s) {
      assert j > 0;
      assert s[1..][j - 1..] == s[j..];
      FindLeftmost(s[1..], sub, j - 1);
    }
  }

  /** The first index of character `c` in `s`, or |s|. */
  function IndexOf(s: string, c: char): (i: nat)
    ensures i <= |s|
    ensures i < |s| ==> s[i] == c
  {
    if s == [] || s[0] == c then 0 else 1 + IndexOf(s[1..], c)
  }

  lemma {:induction false} IndexOfFirst(s: string, c: char)
    ensures c !in s[..IndexOf(s, c)]
    ensures IndexOf(s, c) == |s| <==> c !in s
  {
    if s != [] && s[0] != c {
      IndexOfFirst(s[1..], c);
      assert s == [s[0]] + s[1..];
      assert s[..IndexOf(s, c)] == [s[0]] + s[1..][..IndexOf(s[1..], c)];
    }
  }

  lemma {:induction false} IndexOfAfter(lit: string, c: char, rest: string)
    requires c !in lit
    ensures IndexOf(lit + ([c] + rest), c) == |lit|
  {
    var s := lit + ([c] + rest);
    if lit != [] {
      assert lit[0] in lit && s[1..] == lit[1..] + ([c] + rest);
      IndexOfAfter(lit[1..], c, rest);
    }
  }

  /** `s.split(c)` in Rust and Python: the pieces between the separators, at least one. */
  function SplitOn(s: string, c: char): (pieces: seq<string>)
    ensures pieces != []
    decreases |s|
  {
    var i := IndexOf(s, c);
    if i == |s| then [s] else [s[..i]] + SplitOn(s[i + 1..], c)
  }

  lemma {:induction false} SplitOnNone(s: string, c: char)
    requires c !in s
    ensures SplitOn(s, c) == [s]
  {
    IndexOfFirst(s, c);
  }

  lemma {:induction false} SplitOnFirst(a: string, c: char, b: string)
    requires c !in a
    ensures SplitOn(a + ([c] + b), c) == [a] + SplitOn(b, c)
  {
    var s := a + ([c] + b);
    IndexOfAfter(a, c, b);
    assert s[..|a|] == a && s[|a| + 1..] == b;
  }

  /** Unicode white space. */
  predicate IsSpace(c: char) {
    var n := c as int;
    9 <= n <= 13 || n == 0x20 || n == 0x85 || n == 0xA0 || n == 0x1680 || 0x2000 <= n <= 0x200A
    || n == 0x2028 || n == 0x2029 || n == 0x202F || n == 0x205F || n == 0x3000
  }

  function TrimStart(s: string): string {
    if s != [] && IsSpace(s[0]) then TrimStart(s[1..]) else s
  }

  predicate IsDigit(c: char) {
    '0' <= c <= '9'
  }

  function Digit(d: nat): (c: char)
    requires d < 10
    ensures IsDigit(c)
  {
    '0' + d as char
  }

  /** The decimal digits of n. */
  function Decimal(n: nat): (t: string)
    ensures t != []
  {
    if n < 10 then [Digit(n)] else Decimal(n / 10) + [Digit(n % 10)]
  }

  lemma {:induction false} DecimalDigits(n: nat)
    ensures forall c :: c in Decimal(n) ==> IsDigit(c)
  {
    if n >= 10 { DecimalDigits(n / 10); }
  }

  lemma {:induction false} DecimalInjective(a: nat, b: nat)
    requires Decimal(a) == Decimal(b)
    ensures a == b
  {
    DecimalDigits(a / 10);
    DecimalDigits(b / 10);
    var s, t := Decimal(a), Decimal(b);
    assert s[|s| - 1] == Digit(a % 10) && t[|t| - 1] == Digit(b % 10);
    if a >= 10 && b >= 10 {
      assert s[..|s| - 1] == Decimal(a / 10) && t[..|t| - 1] == Decimal(b / 10);
      DecimalInjective(a / 10, b / 10);
    }
  }
}
