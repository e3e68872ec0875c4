/** Reading the token usage out of an accumulated response body (crates/brightstaff/src/streaming.rs). */
module Usage {
  import opened Wrappers
  import opened Strings

  type Bytes = seq<byte>

  datatype ExtractedUsage = ExtractedUsage(
    promptTokens: Option<int>,
    completionTokens: Option<int>,
    totalTokens: Option<int>,
    cachedInputTokens: Option<int>,
    cacheCreationTokens: Option<int>,
    reasoningTokens: Option<int>,
    resolvedModel: Option<string>)
  {
    predicate IsEmpty() {
      promptTokens.None? && completionTokens.None? && totalTokens.None? && resolvedModel.None?
    }
  }

  const NO_USAGE := ExtractedUsage(None, None, None, None, None, None, None)

  /** Parsing: a JSON text is mapped to the usage fields of its value, None when it is not JSON. */
  datatype Parsers = Parsers(
    jsonBytes: Bytes -> Option<ExtractedUsage>,
    jsonText: string -> Option<ExtractedUsage>,
    utf8: Bytes -> Option<string>)

  function StripCr(s: string): string {
    if s != [] && s[|s| - 1] == '\r' then s[..|s| - 1] else s
  }

  function Lines(s: string): seq<string>
    decreases |s|
  {
    if s == [] then []
    else if IndexOf(s, '\n') == |s| then [s]
    else [StripCr(s[..IndexOf(s, '\n')])] + Lines(s[IndexOf(s, '\n') + 1..])
  }

  const DATA := "data:"
  const DONE := "[DONE]"
  const USAGE_FIELD := "\"usage\""

  /** The usage that one line of an event stream carries. */
  function LineUsage(parsers: Parsers, line: string): Option<ExtractedUsage> {
    var trimmed := TrimStart(line);
    if !(DATA <= trimmed) then None
    else
      var payload := TrimStart(trimmed[|DATA|..]);
      if payload == DONE || payload == [] || Find(payload, USAGE_FIELD) == -1 then None
      else
        var u := parsers.jsonText(payload);
        if u.Some? && !u.value.IsEmpty() then u else None
  }

  /** The usage of the last line that carries one. */
  function LastUsage(parsers: Parsers, lines: seq<string>): ExtractedUsage {
    if lines == [] then NO_USAGE
    else
      var u := LineUsage(parsers, lines[|lines| - 1]);
      if u.Some? then u.value else LastUsage(parsers, lines[..|lines| - 1])
  }

  function Extract(parsers: Parsers, buf: Bytes): ExtractedUsage {
    if buf == [] then NO_USAGE
    else if parsers.jsonBytes(buf).Some? && !parsers.jsonBytes(buf).value.IsEmpty() then parsers.jsonBytes(buf).value
    else if parsers.utf8(buf).None? then NO_USAGE
    else LastUsage(parsers, Lines(parsers.utf8(buf).value))
  }

  ghost predicate LastCarrier(parsers: Parsers, lines: seq<string>, i: nat) {
    && i < |lines| && LineUsage(parsers, lines[i]).Some?
    && forall j :: i < j < |lines| ==> LineUsage(parsers, lines[j]).None?
  }

  /** The scan from the end finds nothing iff no line carries a usage. */
  lemma {:induction false} NoUsageIff(parsers: Parsers, lines: seq<string>)
    ensures LastUsage(parsers, lines).IsEmpty() <==> forall line :: line in lines ==> LineUsage(parsers, line).None?
  {
    if lines != [] {
      var n := |lines| - 1;
      NoUsageIff(parsers, lines[..n]);
      assert lines == lines[..n] + [lines[n]];
    }
  }

  /** It finds the usage of the last line that carries one. */
  lemma {:induction false} LastUsageWins(parsers: Parsers, lines: seq<string>, i: nat)
    requires LastCarrier(parsers, lines, i)
    ensures LineUsage(parsers, lines[i]) == Some(LastUsage(parsers, lines))
    decreases |lines|
  {
    var n := |lines| - 1;
    if i < n {
      assert lines[..n][i] == lines[i];
      LastUsageWins(parsers, lines[..n], i);
    }
  }

  /** The scan as written: from the last line to the first. */
  method ExtractUsageFromBytes(parsers: Parsers, buf: Bytes) returns (usage: ExtractedUsage)
    ensures usage == Extract(parsers, buf)
  {
    if buf == [] { return NO_USAGE; }
    var whole := parsers.jsonBytes(buf);
    if whole.Some? && !whole.value.IsEmpty() { return whole.value; }
    var text := parsers.utf8(buf);
    if text.None? { return NO_USAGE; }
    var lines := Lines(text.value);
    var i := |lines|;
    assert lines[..i] == lines;
    while i > 0
      invariant 0 <= i <= |lines|
      invariant LastUsage(parsers, lines) == LastUsage(parsers, lines[..i])
    {
      i := i - 1;
      assert lines[..i + 1][..i] == lines[..i];
      var trimmed := TrimStart(lines[i]);
      if !(DATA <= trimmed) { continue; }
      var payload := TrimStart(trimmed[|DATA|..]);
      if payload == DONE || payload == [] { continue; }
      if Find(payload, USAGE_FIELD) == -1 { continue; }
      var value := parsers.jsonText(payload);
      if value.Some? && !value.value.IsEmpty() { return value.value; }
    }
    return NO_USAGE;
  }
}
