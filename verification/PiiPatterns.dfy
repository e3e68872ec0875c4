/**
 What the four patterns of the PII anonymizer (demos/filter_chains/pii_anonymizer/pii.py) match
 never completes a placeholder, so a stream restores the text whatever its chunks are.
 */
module PiiPatterns {
  import opened Collections
  import opened Strings
  import opened PiiReplace
  import opened PiiStream
  import opened PiiAnonymize
  import opened PiiNested
  import opened PiiRoundTrip

  /** The characters that placeholders are made of. */
  predicate InPlaceholders(c: char) {
    'A' <= c <= 'Z' || IsDigit(c) || c == '_' || c == '[' || c == ']'
  }

  /**
   A match has an '@', a separator, a parenthesis or a digit outside ASCII, or it consists of at
   least ten digits: a telephone number or a card number without separators.
   */
  ghost predicate Telling(s: string) {
    (exists c :: c in s && !InPlaceholders(c)) || (|s| >= 10 && forall c :: c in s ==> IsDigit(c))
  }

  /** No pattern matches a square bracket. */
  ghost predicate ByPatterns(text: string, found: seq<Match>) {
    Matches(text, found) && forall c :: c in found ==> Telling(text[c.start..c.end]) && Plain(text[c.start..c.end])
  }

  // ----- short numbers -----

  function PowerOfTen(k: nat): nat {
    if k == 0 then 1 else 10 * PowerOfTen(k - 1)
  }

  lemma {:induction false} DecimalLength(n: nat, k: nat)
    requires k > 0 && n < PowerOfTen(k)
    ensures |Decimal(n)| <= k
  {
    if n >= 10 {
      assert k > 1 && n / 10 < PowerOfTen(k - 1);
      DecimalLength(n / 10, k - 1);
    }
  }

  // ----- what a placeholder contains -----

  lemma {:induction false} PlaceholderAt(kind: PiiType, idx: nat, i: nat)
    requires i < |Placeholder(kind, idx)|
    ensures var p, n := Placeholder(kind, idx), |kind.Name()| + 2;
            && InPlaceholders(p[i])
            && (IsDigit(p[i]) ==> n <= i < n + |Decimal(idx)|)
  {
    var p, name, digits := Placeholder(kind, idx), kind.Name(), Decimal(idx);
    DecimalDigits(idx);
    var n := |name| + 2;
    if 1 <= i < |name| + 1 {
      assert p[i] == name[i - 1];
    } else if n <= i < n + |digits| {
      assert p[i] == digits[i - n];
      assert digits[i - n] in digits;
    }
  }

  lemma {:induction false} OccurrenceAt(p: string, s: string, i: nat, j: nat)
    requires OccursAt(p, s, i) && j < |s|
    ensures i + j < |p| && p[i + j] == s[j]
  {
    assert p[i..][j] == s[j];
  }

  /** What occurs in a placeholder is made of its characters; a number that does is no longer than its own. */
  lemma {:induction false} OccurrenceInside(kind: PiiType, idx: nat, s: string, i: nat)
    requires OccursAt(Placeholder(kind, idx), s, i)
    ensures forall c :: c in s ==> InPlaceholders(c)
    ensures (forall c :: c in s ==> IsDigit(c)) ==> |s| <= |Decimal(idx)|
  {
    var p := Placeholder(kind, idx);
    forall c | c in s ensures InPlaceholders(c) {
      var j :| 0 <= j < |s| && s[j] == c;
      OccurrenceAt(p, s, i, j);
      PlaceholderAt(kind, idx, i + j);
    }
    if s != [] && forall c :: c in s ==> IsDigit(c) {
      OccurrenceAt(p, s, i, 0);
      OccurrenceAt(p, s, i, |s| - 1);
      assert s[0] in s && s[|s| - 1] in s;
      PlaceholderAt(kind, idx, i);
      PlaceholderAt(kind, idx, i + |s| - 1);
    }
  }

  lemma {:induction false} NotInPlaceholder(kind: PiiType, idx: nat, s: string)
    requires Telling(s) && |Decimal(idx)| < 10
    ensures !Contains(Placeholder(kind, idx), s)
  {
    if Contains(Placeholder(kind, idx), s) {
      var i: nat :| OccursAt(Placeholder(kind, idx), s, i);
      OccurrenceInside(kind, idx, s, i);
    }
  }

  // ----- the mapping of a text -----

  lemma {:induction false} CountersBounded(text: string, found: seq<Match>, kind: PiiType)
    requires Matches(text, found)
    ensures Count(Accept(text, found).counters, kind) <= |found|
  {
    if found != [] { CountersBounded(text, found[..|found| - 1], kind); }
  }

  /** Up to a thousand million matches of the four patterns: no original occurs in a placeholder. */
  lemma {:induction false} PatternsNeverCreate(text: string, found: seq<Match>)
    requires ByPatterns(text, found) && |found| <= 1_000_000_000
    ensures NoCreation(Accept(text, found).mapping)
  {
    var a := Accept(text, found);
    var m := a.mapping;
    AcceptConsistent(text, found);
    assert PowerOfTen(9) == 1_000_000_000;
    forall i, j | 0 <= i < j < |m| ensures !Contains(m[j].placeholder, m[i].original) {
      assert m[j] in m;
      var kind, idx: nat :| idx < Count(a.counters, kind) && m[j].placeholder == Placeholder(kind, idx);
      CountersBounded(text, found, kind);
      DecimalLength(idx, 9);
      SpanFound(text, found, a.spans[i]);
      NotInPlaceholder(kind, idx, m[i].original);
    }
  }

  /** The anonymized text, streamed back in any chunks, gives the text, with nothing held back at the end. */
  lemma {:induction false} StreamedRoundTrip(text: string, found: seq<Match>, chunks: seq<string>)
    requires ByPatterns(text, found) && |found| <= 1_000_000_000
    requires Plain(text) && InnersFit(text, found)
    requires Concat(chunks) == Anonymized(text, found)
    ensures Stream(Accept(text, found).mapping, chunks, []) == (text, [])
  {
    var m := Accept(text, found).mapping;
    AcceptedShaped(text, found);
    PatternsNeverCreate(text, found);
    HoldEmptyText(m);
    StreamIsWhole(m, chunks, []);
    assert [] + Concat(chunks) == Concat(chunks);
    RoundTrip(text, found);
  }

  /**
   The same for every text: streamed back in any chunks it comes back iff, outside its accepted spans,
   it contains none of its own placeholders and does not end with the start of one.
   */
  lemma {:induction false} StreamedRoundTripIff(text: string, found: seq<Match>, chunks: seq<string>)
    requires ByPatterns(text, found) && |found| <= 1_000_000_000 && InnersFit(text, found)
    requires Concat(chunks) == Anonymized(text, found)
    ensures Below(OuterSpans(text, found), |text|)
    ensures var m, gaps := Accept(text, found).mapping, Gaps(text, OuterSpans(text, found), |text|);
            Stream(m, chunks, []) == (text, []) <==> AllFree(m, gaps) && Hold(m, gaps[0]) == []
  {
    var m := Accept(text, found).mapping;
    AcceptedShaped(text, found);
    PatternsNeverCreate(text, found);
    HoldEmptyText(m);
    StreamIsWhole(m, chunks, []);
    assert [] + Concat(chunks) == Concat(chunks);
    RoundTripIff(text, found);
  }
}
