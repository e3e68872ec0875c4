/** Percent-encoding, as in sections 2.1 and 2.3 of RFC 3986 and in section 1.3 of the URL Living Standard. */
module PercentEncoding {
  import opened Collections
  import opened Strings

  predicate Unreserved(c: char) {
    'a' <= c <= 'z' || 'A' <= c <= 'Z' || '0' <= c <= '9' || c == '-' || c == '.' || c == '_' || c == '~'
  }

  /**
   What is escaped: by `urlencoding::encode`, in the path of a URL, and in the query of one. Whether
   '^' is escaped in paths depends on the version of the URL library.
   */
  datatype EscapeSet = Component | InPath(caret: bool) | InQuery

  predicate Escapes(es: EscapeSet, c: char) {
    var n := c as int;
    match es
    case Component => !Unreserved(c)
    case InPath(caret) =>
      n <= 0x20 || n > 0x7E || c == '"' || c == '#' || c == '<' || c == '>' || c == '?' || c == '`' || c == '{' ||
          c == '}'
      || (caret && c == '^')
    case InQuery => n <= 0x20 || n > 0x7E || c == '"' || c == '#' || c == '<' || c == '>' || c == '\''
  }

  /** The UTF-8 bytes of a character. */
  function Utf8(c: char): (bs: seq<byte>)
    ensures bs != []
  {
    var n := c as int;
    if n < 0x80 then [n as byte]
    else if n < 0x800 then [(0xC0 + n / 0x40) as byte, (0x80 + n % 0x40) as byte]
    else if n < 0x10000 then [(0xE0 + n / 0x1000) as byte, (0x80 + n / 0x40 % 0x40) as byte, (0x80 + n % 0x40) as byte]
    else [(0xF0 + n / 0x40000) as byte, (0x80 + n / 0x1000 % 0x40) as byte, (0x80 + n / 0x40 % 0x40) as byte,
          (0x80 + n % 0x40) as byte]
  }

  function HexDigit(d: nat): char
    requires d < 16
  {
    "0123456789ABCDEF"[d]
  }

  function Escape(b: byte): string {
    ['%', HexDigit(b as int / 16), HexDigit(b as int % 16)]
  }

  function EscapeAll(bs: seq<byte>): string {
    if bs == [] then [] else Escape(bs[0]) + EscapeAll(bs[1..])
  }

  function EscapedChar(es: EscapeSet, c: char): string {
    if Escapes(es, c) then EscapeAll(Utf8(c)) else [c]
  }

  function Escaped(es: EscapeSet, s: string): string {
    if s == [] then [] else EscapedChar(es, s[0]) + Escaped(es, s[1..])
  }

  /** `urlencoding::encode` */
  function Encode(s: string): string {
    Escaped(Component, s)
  }

  // ----- the characters of an escaped text -----

  predicate IsHex(c: char) {
    '0' <= c <= '9' || 'A' <= c <= 'F'
  }

  lemma {:induction false} EscapeAllChars(bs: seq<byte>)
    ensures forall c :: c in EscapeAll(bs) ==> c == '%' || IsHex(c)
  {
    if bs != [] { EscapeAllChars(bs[1..]); }
  }

  lemma {:induction false} EscapedChars(es: EscapeSet, s: string)
    ensures forall c :: c in Escaped(es, s) ==> c == '%' || IsHex(c) || (c in s && !Escapes(es, c))
  {
    if s != [] {
      EscapeAllChars(Utf8(s[0]));
      EscapedChars(es, s[1..]);
    }
  }

  /** A character that is not escaped, and is no hexadecimal digit and no '%', is in both texts or in neither. */
  lemma {:induction false} EscapedHas(es: EscapeSet, s: string, c: char)
    requires !Escapes(es, c) && c != '%' && !IsHex(c)
    ensures c in Escaped(es, s) <==> c in s
  {
    if s != [] {
      EscapeAllChars(Utf8(s[0]));
      EscapedHas(es, s[1..], c);
    }
  }

  lemma {:induction false} EscapedAppend(es: EscapeSet, a: string, b: string)
    ensures Escaped(es, a + b) == Escaped(es, a) + Escaped(es, b)
  {
    if a == [] {
      assert a + b == b;
    } else {
      ConsAppend(a, b);
      assert (a + b)[1..] == a[1..] + b;
      EscapedAppend(es, a[1..], b);
      Associates(EscapedChar(es, a[0]), Escaped(es, a[1..]), Escaped(es, b));
    }
  }

  ghost predicate Inert(es: EscapeSet, s: string) {
    forall c :: c in s ==> !Escapes(es, c)
  }

  lemma {:induction false} InertStays(es: EscapeSet, s: string)
    requires Inert(es, s)
    ensures Escaped(es, s) == s
  {
    if s != [] {
      assert s[0] in s;
      InertStays(es, s[1..]);
      assert s == [s[0]] + s[1..];
    }
  }

  lemma {:induction false} EscapedNotEmpty(es: EscapeSet, s: string)
    ensures Escaped(es, s) == [] <==> s == []
  {
    if s != [] && Escapes(es, s[0]) { assert Utf8(s[0]) != []; }
  }

  /** An escaped URL part is escaped no further; nor is an encoded component. */
  lemma {:induction false} EscapedInert(es: EscapeSet, s: string)
    requires !es.Component?
    ensures Inert(es, Escaped(es, s)) && Inert(es, Encode(s))
  {
    EscapedChars(es, s);
    EscapedChars(Component, s);
  }

  // ----- reading back -----

  function HexValue(c: char): (d: nat)
    requires IsHex(c)
    ensures d < 16
  {
    if c <= '9' then c as int - '0' as int else c as int - 'A' as int + 10
  }

  /** The bytes that a percent-encoded text stands for. */
  function Decode(t: string): seq<byte>
    decreases |t|
  {
    if t == [] then []
    else if t[0] == '%' && |t| >= 3 && IsHex(t[1]) && IsHex(t[2])
    then [(16 * HexValue(t[1]) + HexValue(t[2])) as byte] + Decode(t[3..])
    else Utf8(t[0]) + Decode(t[1..])
  }

  function Utf8All(s: string): seq<byte> {
    if s == [] then [] else Utf8(s[0]) + Utf8All(s[1..])
  }

  lemma {:induction false} HexRoundTrip(d: nat)
    requires d < 16
    ensures IsHex(HexDigit(d)) && HexValue(HexDigit(d)) == d
  {
  }

  lemma {:induction false} DecodeEscape(b: byte, rest: string)
    ensures Decode(Escape(b) + rest) == [b] + Decode(rest)
  {
    var t := Escape(b) + rest;
    HexRoundTrip(b as int / 16);
    HexRoundTrip(b as int % 16);
    assert t[0] == '%' && t[1] == HexDigit(b as int / 16) && t[2] == HexDigit(b as int % 16) && t[3..] == rest;
  }

  lemma {:induction false} DecodeEscapes(bs: seq<byte>, rest: string)
    ensures Decode(EscapeAll(bs) + rest) == bs + Decode(rest)
  {
    if bs == [] {
      assert [] + rest == rest && bs + Decode(rest) == Decode(rest);
    } else {
      var tail := EscapeAll(bs[1..]);
      DecodeEscapes(bs[1..], rest);
      DecodeEscape(bs[0], tail + rest);
      Associates(Escape(bs[0]), tail, rest);
      ConsAppend(bs, Decode(rest));
    }
  }

  /** Decoding an encoded text gives the UTF-8 bytes of the text. */
  lemma {:induction false} DecodeEncode(s: string)
    ensures Decode(Encode(s)) == Utf8All(s)
  {
    if s != [] {
      DecodeEncode(s[1..]);
      if Unreserved(s[0]) {
        var t := [s[0]] + Encode(s[1..]);
        assert t[1..] == Encode(s[1..]) && Encode(s) == t;
      } else {
        DecodeEscapes(Utf8(s[0]), Encode(s[1..]));
      }
    }
  }

  // ----- what is escaped, listed -----

  /** Of the visible ASCII characters a path escapes these, '^' or not, and a query these; of the others all. */
  lemma {:induction false} EscapedAre(c: char)
    ensures Escapes(InPath(false), c) <==> !('!' <= c <= '~') || c in "\"#<>?`{}"
    ensures Escapes(InPath(true), c) <==> !('!' <= c <= '~') || c in "\"#<>?^`{}"
    ensures Escapes(InQuery, c) <==> !('!' <= c <= '~') || c in "\"#'<>"
    ensures Escapes(Component, c) <==> !('a' <= c <= 'z' || 'A' <= c <= 'Z' || '0' <= c <= '9' || c in "-._~")
  {
  }
}
