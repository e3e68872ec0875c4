/** What the usage of a response body is, in terms of its text (crates/brightstaff/src/streaming.rs:106-145). */
module UsageReading {
  import opened Wrappers
  import opened Strings
  import opened Usage

  ghost predicate AllSpace(s: string) {
    forall c :: c in s ==> IsSpace(c)
  }

  /** Something other than white space comes first. */
  predicate StartsPlain(s: string) {
    s != [] && !IsSpace(s[0])
  }

  predicate Counts(u: ExtractedUsage) {
    u.promptTokens.Some? || u.completionTokens.Some? || u.totalTokens.Some? || u.resolvedModel.Some?
  }

  // ----- one line -----

  lemma {:induction false} TrimmedIs(ws: string, s: string)
    requires AllSpace(ws) && (s == [] || StartsPlain(s))
    ensures TrimStart(ws + s) == s
  {
    if ws == [] {
      assert ws + s == s;
    } else {
      assert ws[0] in ws && (ws + s)[0] == ws[0] && (ws + s)[1..] == ws[1..] + s;
      TrimmedIs(ws[1..], s);
    }
  }

  /** A data line: white space, "data:", white space, and the payload. */
  lemma {:induction false} DataLine(parsers: Parsers, a: string, b: string, payload: string)
    requires AllSpace(a) && AllSpace(b) && StartsPlain(payload)
    ensures var u := parsers.jsonText(payload);
            LineUsage(parsers, a + ("data:" + (b + payload)))
            == if payload != "[DONE]" && Contains(payload, "\"usage\"") && u.Some? && Counts(u.value) then u else None
  {
    var rest := "data:" + (b + payload);
    assert rest[0] == 'd';
    TrimmedIs(a, rest);
    assert rest[|"data:"|..] == b + payload && "data:" <= rest;
    TrimmedIs(b, payload);
    FindContains(payload, "\"usage\"");
  }

  lemma {:induction false} FindContains(s: string, sub: string)
    ensures Find(s, sub) != -1 <==> Contains(s, sub)
  {
    if Find(s, sub) != -1 {
      FindOccurs(s, sub);
    } else if i: nat :| OccursAt(s, sub, i) {
      FindLeftmost(s, sub, i);
    }
  }

  /** A line that is not a data line carries no usage; nor does one without a payload. */
  lemma {:induction false} OtherLine(parsers: Parsers, a: string, rest: string)
    requires AllSpace(a) && (rest == [] || StartsPlain(rest))
    requires !("data:" <= rest) || AllSpace(rest[|"data:"|..])
    ensures LineUsage(parsers, a + rest) == None
  {
    TrimmedIs(a, rest);
    if "data:" <= rest {
      var b := rest[|"data:"|..];
      TrimmedIs(b, []);
      assert b + [] == b;
    }
  }

  // ----- the lines of a text -----

  /** Lines, each ended by a line feed, or by a carriage return and a line feed. */
  function Joined(lines: seq<string>, crlf: bool): string {
    if lines == [] then [] else lines[0] + (Ending(crlf) + Joined(lines[1..], crlf))
  }

  /** Up to the first line feed. */
  lemma {:induction false} HeadLine(head: string, rest: string)
    requires '\n' !in head
    ensures Lines(head + (['\n'] + rest)) == [StripCr(head)] + Lines(rest)
  {
    var s := head + (['\n'] + rest);
    IndexOfAfter(head, '\n', rest);
    assert s[..|head|] == head && s[|head| + 1..] == rest;
  }

  predicate OneLine(line: string) {
    '\n' !in line && (line == [] || line[|line| - 1] != '\r')
  }

  function Ending(crlf: bool): string {
    if crlf then ['\r', '\n'] else ['\n']
  }

  lemma {:induction false} FirstLine(line: string, crlf: bool, rest: string)
    requires OneLine(line)
    ensures Lines(line + (Ending(crlf) + rest)) == [line] + Lines(rest)
  {
    if crlf {
      var head := line + ['\r'];
      assert line + (Ending(crlf) + rest) == head + (['\n'] + rest);
      assert head[..|head| - 1] == line;
      HeadLine(head, rest);
    } else {
      HeadLine(line, rest);
    }
  }

  /** Splitting them gives them back. */
  lemma {:induction false} LinesRead(lines: seq<string>, crlf: bool)
    requires forall line :: line in lines ==> OneLine(line)
    ensures Lines(Joined(lines, crlf)) == lines
  {
    if lines != [] {
      assert lines[0] in lines && forall line :: line in lines[1..] ==> line in lines;
      LinesRead(lines[1..], crlf);
      FirstLine(lines[0], crlf, Joined(lines[1..], crlf));
      assert lines == [lines[0]] + lines[1..];
    }
  }

  // ----- the whole body -----

  /**
   A body that is JSON with counts in it reports those; otherwise the last line of its text that carries
   a usage does, and without one nothing is reported.
   */
  lemma {:induction false} ReportedIs(parsers: Parsers, buf: Bytes)
    ensures var whole, text, u := parsers.jsonBytes(buf), parsers.utf8(buf), Extract(parsers, buf);
            if buf != [] && whole.Some? && Counts(whole.value) then u == whole.value
            else if buf != [] && text.Some? && exists i: nat :: LastCarrier(parsers, Lines(text.value), i)
            then exists i: nat :: LastCarrier(parsers, Lines(text.value), i)
                                  && LineUsage(parsers, Lines(text.value)[i]) == Some(u)
            else u == ExtractedUsage(None, None, None, None, None, None, None)
  {
    var text := parsers.utf8(buf);
    if buf != [] && text.Some? {
      var lines := Lines(text.value);
      if i: nat :| LastCarrier(parsers, lines, i) {
        LastUsageWins(parsers, lines, i);
      } else {
        NoCarrier(parsers, lines);
      }
    }
  }

  lemma {:induction false} NoCarrier(parsers: Parsers, lines: seq<string>)
    requires forall i: nat :: !LastCarrier(parsers, lines, i)
    ensures LastUsage(parsers, lines) == ExtractedUsage(None, None, None, None, None, None, None)
  {
    if lines != [] {
      var n := |lines| - 1;
      assert !LastCarrier(parsers, lines, n);
      forall i: nat ensures !LastCarrier(parsers, lines[..n], i) {
        assert !LastCarrier(parsers, lines, i);
      }
      NoCarrier(parsers, lines[..n]);
    }
  }
}
