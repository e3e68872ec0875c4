/** Sequences and sets, for the proofs. */
module Collections {

  function Min(a: nat, b: nat): nat {
    if a < b then a else b
  }

  ghost predicate Distinct<T>(s: seq<T>) {
    forall i, j :: 0 <= i < j < |s| ==> s[i] != s[j]
  }

  lemma {:induction false} Associates<T>(a: seq<T>, b: seq<T>, c: seq<T>)
    ensures a + b + c == a + (b + c)
  {
  }

  lemma {:induction false} ConsAppend<T>(a: seq<T>, b: seq<T>)
    requires a != []
    ensures a + b == [a[0]] + (a[1..] + b)
  {
  }

  lemma {:induction false} DropAppend<T>(a: seq<T>, b: seq<T>, i: nat)
    requires i <= |a|
    ensures (a + b)[i..] == a[i..] + b
  {
  }

  /** Leaving out element `i` leaves the first one. */
  lemma {:induction false} DropCons<T>(s: seq<T>, i: nat)
    requires 0 < i < |s|
    ensures s[..i] + s[i + 1..] == [s[0]] + (s[1..][..i - 1] + s[1..][i..])
  {
  }

  function Concat<T>(pieces: seq<seq<T>>): seq<T> {
    if pieces == [] then [] else pieces[0] + Concat(pieces[1..])
  }

  lemma {:induction false} ConcatMore<T>(pieces: seq<seq<T>>, piece: seq<T>)
    ensures Concat(pieces + [piece]) == Concat(pieces) + piece
  {
    if pieces == [] {
      assert pieces + [piece] == [piece] && piece + [] == piece && [] + piece == piece;
    } else {
      assert (pieces + [piece])[1..] == pieces[1..] + [piece];
      ConcatMore(pieces[1..], piece);
      Associates(pieces[0], Concat(pieces[1..]), piece);
    }
  }

  /** The last index of x in s, or -1 (Python's `rfind`). */
  function LastIndexOf<T(==)>(s: seq<T>, x: T): (i: int)
    ensures -1 <= i < |s|
  {
    if s == [] then -1
    else if s[|s| - 1] == x then |s| - 1
    else LastIndexOf(s[..|s| - 1], x)
  }

  lemma {:induction false} LastIndexOfLast<T>(s: seq<T>, x: T)
    ensures LastIndexOf(s, x) == -1 ==> x !in s
    ensures LastIndexOf(s, x) != -1 ==> s[LastIndexOf(s, x)] == x && x !in s[LastIndexOf(s, x) + 1..]
  {
    if s != [] {
      var n := |s| - 1;
      assert s == s[..n] + [s[n]];
      if s[n] != x {
        LastIndexOfLast(s[..n], x);
        var i := LastIndexOf(s, x);
        if i != -1 { assert s[i + 1..] == s[..n][i + 1..] + [s[n]]; }
      }
    }
  }

  lemma {:induction false} LastIndexOfUnique<T>(s: seq<T>, x: T, i: nat)
    requires i < |s| && s[i] == x && x !in s[i + 1..]
    ensures LastIndexOf(s, x) == i
  {
    LastIndexOfLast(s, x);
    var j := LastIndexOf(s, x);
    assert s[i] in s;
  }

  lemma {:induction false} SubsetSize<T>(a: set<T>, b: set<T>)
    requires a <= b
    ensures |a| <= |b|
  {
    if a != {} {
      var x :| x in a;
      SubsetSize(a - {x}, b - {x});
    }
  }

  lemma {:induction false} CountSplit<T>(s: seq<T>, i: nat, x: T)
    requires i < |s|
    ensures multiset(s)[x] == multiset(s[..i])[x] + (if s[i] == x then 1 else 0) + multiset(s[i + 1..])[x]
  {
    assert s == s[..i] + ([s[i]] + s[i + 1..]);
  }

  /** Two positions of a sequence have counterparts in every reordering of it. */
  lemma {:induction false} Counterparts<T>(a: seq<T>, b: seq<T>, i: nat, j: nat) returns (p: nat, q: nat)
    requires multiset(a) == multiset(b) && i < j < |a|
    ensures p < |b| && q < |b| && p != q && b[p] == a[i] && b[q] == a[j]
  {
    assert a[i] in multiset(b);
    p :| p < |b| && b[p] == a[i];
    if a[i] != a[j] {
      assert a[j] in multiset(b);
      q :| q < |b| && b[q] == a[j];
    } else {
      CountSplit(a, i, a[j]);
      assert a[i + 1..][j - i - 1] == a[j];
      CountSplit(b, p, a[j]);
      q := Elsewhere(b, p, a[j]);
    }
  }

  lemma {:induction false} Elsewhere<T>(s: seq<T>, p: nat, x: T) returns (q: nat)
    requires p < |s| && multiset(s[..p])[x] + multiset(s[p + 1..])[x] > 0
    ensures q < |s| && q != p && s[q] == x
  {
    if x in s[..p] {
      q :| q < p && s[..p][q] == x;
    } else {
      var k :| 0 <= k < |s[p + 1..]| && s[p + 1..][k] == x;
      q := p + 1 + k;
    }
  }
}
