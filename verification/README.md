# Verified models of Plano's stateful cores

Dafny models of the parts of the Plano gateway that keep state or take text apart, with proofs
about whole runs, round trips and exact conditions. `dafny verify dfyconfig.toml` checks
everything. Code that works in place is a class or a method with loops, proved against a pure step
function; the results about runs are lemmas about those functions. Every lemma switches automatic
induction off: its proof is what its body says.

| part | modules |
|---|---|
| wildcard filter of the trace command | `GlobMatch` |
| span grouping store of the trace command | `Traces`, `TraceInvariant`, `TraceGrouping`, `TraceRuns`, `TraceEviction`, `TraceOrder` |
| PII anonymizer, streaming de-anonymizer, request store | `PiiReplace`, `PiiStream`, `PiiChunking`, `PiiAnonymize`, `PiiCoverage`, `PiiNested`, `PiiRoundTrip`, `PiiPatterns`, `PiiStore` |
| call-out protocol of the prompt gateway | `PromptGateway`, `PromptContext`, `PromptProtocol`, `PromptUpstream`, `PromptTraps`, `PromptRequests`, `PromptGauge`, `PromptResponse` |
| session cache | `SessionCache`, `CacheRuns`, `CacheExpiry`, `CacheRetention` |
| LLM provider index | `LlmProviders`, `ProviderLookup` |
| path templates and developer requests | `PercentEncoding`, `UrlJoin`, `PathTemplate`, `Tools`, `PathQuery`, `PathRequests`, `PathBodies`, `PathDefaults`, `PathExpansion` |
| streaming relay and usage accounting | `Usage`, `UsageReading`, `StreamProcessor`, `Relay`, `RelayRuns`, `RelayViews` |
| rate limits | `RateLimit`, `DailyLimits` |
| migration of routing preferences | `Versions`, `ConfigMigration`, `MigrationRelation` |
| shared | `Wrappers`, `Collections`, `Strings` |

## Where the code and its documentation differ

The models follow the code. Each difference is a lemma.

- `cli/planoai/trace_cmd.py:297-304` promises that all connected spans end up in one group. Line 396
  overwrites an earlier binding, so siblings that wait for one parent under different wire ids are
  split (`TraceRuns.SiblingsSplit`). `GroupedThroughoutIff` says exactly when a run that
  evicts nothing is grouped, and three lemmas give conditions on the deliveries.
- `cli/planoai/trace_cmd.py:198-216` reads as a glob, but a pattern with a star that does not end in one
  is refused on values that match only by a later occurrence of its last part (`GlobMatch.ExactIff`).
- `crates/common/src/llm_providers.rs:238-239` says that a specific configuration takes precedence over
  any wildcard expansion. This holds for full names (`SpecificWins`), not for bare model names
  (`BareNamesCollide`); `KeepsKeyIff` says exactly when it holds.
- `demos/filter_chains/pii_anonymizer/pii.py:41-48` presents the buffer as the handling of chunk
  boundaries. It suffices iff no original occurs in a placeholder that is replaced after it
  (`ChunkInvariantIff`). The function takes any mapping; in the mapping of a text with up to a thousand
  million matches of the four patterns no original does (`PatternsNeverCreate`).
- `demos/filter_chains/pii_anonymizer/pii.py:24` is to keep matches from overlapping, but lets a match pass
  that extends past an accepted one on both sides, such as an address around a number. Text is then lost
  (`NumberInAddress`), or not, by the length of the inner piece (`OneInsideIff`, `RoundTrip`).
- `crates/prompt_gateway/src/context.rs:47-53` means to answer an invalid status code; line 51 unwraps
  the failed parse again, so this path is a trap (`CallbackTrapsIff`).
- `crates/prompt_gateway/src/stream_context.rs:683-805` extends the last message of the request without
  checking that it has content, so a request can panic although every response is as it should be
  (`DefaultTargetRunTrapsIff`).
- `crates/common/src/path.rs:66-71` joins the expanded path to a URL, which resolves dot segments and reads two
  slashes in front as an authority: a tool parameter ".." changes the path (`DotsInPath`), and an empty one in
  "/{id}/x" makes x the host (`EmptyTakesHost`). `PathIsExpansionIff` says exactly when the path is the template.
- `crates/common/src/path.rs:52-60` appends defaults as they are. A default like "R&D" makes
  `crates/prompt_gateway/src/tools.rs:46-51` panic (`AmpersandPanics`, `DefaultTrapExists` for the gateway as a
  whole); `PostPanicsIff` says exactly when that line does. A default with a space is in the body in its escaped
  form (`DefaultKeptIff`, `DefaultEscaped`).
- `crates/prompt_gateway/src/tools.rs:46-51` reads the query back over the parameters, so two names that are
  escaped alike make the body depend on the order of a hash map (`OrderMattersIff`, `OrderMatters`).
- `crates/common/src/ratelimit.rs:76-79` skips a duplicate selector, but its quota is computed first, so
  a duplicate without tokens still panics (`BuildPanicsIff`).
- `crates/common/src/ratelimit.rs:156-159` turns a daily limit into an hourly one. With its burst that admits
  almost 25 hourly quotas in a day, so most daily limits are not kept (`DailyLimitIff`, and `ClosedDayIff` for 24
  hours with both end points).
- `cli/planoai/config_generator.py:117-140` bumps the version before it refuses a wildcard, so a second
  run on the same object is silent (`SecondRunIsNoOp`); an inline pair whose name is already top-level is
  dropped (`PairLostIff`).

## What is taken as given

- Regular expression matches are inputs: non-empty ranges of the text, in the order the loops see them.
  `ByPatterns` adds what each of the four patterns has in its matches: a separator, an `@`, or ten digits.
- JSON parsing, the arguments of a tool call included, and what the host answers to a dispatched call are
  inputs of the steps. A panic is the outcome `Trap`, `Panic` or None, never excluded by a precondition. A
  message's content stands by the text it displays.
- Serialization fails where its result is matched on, by an input. Where it is unwrapped
  (`crates/prompt_gateway/src/stream_context.rs:173`, 247, 359 and 801, `crates/prompt_gateway/src/tools.rs:53`)
  it cannot fail: what is serialized there has strings for keys and no numbers that JSON does not have.
- The iteration order of a hash map is a parameter, and the results that do not depend on it say so.
- Clock readings are integer parameters; they need not be monotonic unless a lemma says `SweepsBy`.
- The model catalogue of a provider, the cell of the rate limiter and the stream processor of the relay
  are functions that the theorems quantify over. `DailyLimits` takes the cell to be the token bucket that its
  quota describes, n tokens and n more per period. `KeepsKeyIff` takes it that only prefixes without a slash
  have a catalogue, as in `crates/hermesllm/src/providers/id.rs:58-90`.
- `UrlJoin` follows section 4.4 of the URL Living Standard, which the `url` library implements. Where the
  authority of a reference ends, path and query of references with a scheme, and whether '^' is escaped in
  paths, are parameters. `Lawful` is what the results about the path take of them: an authority is not empty,
  ends before the query, and is the whole of a host of letters; nothing with a scheme is its own path. Results
  about requests are for expanded templates, names and defaults of which the parser strips nothing and that
  begin no fragment, and those about bodies for paths of the host itself (`Tame`).
- An operation that holds a lock is one step. `restore_streaming` is one step per call.

## Model

| member | source | states |
|---|---|---|
| GlobMatch.GreedyScan | cli/planoai/trace_cmd.py:198-216 | the loop over `remaining` computes `Matches`, the leftmost search for each part in turn |
| GlobMatch.MatchesPattern | cli/planoai/trace_cmd.py:198-216 | the whole matcher, early exits included, computes `Matches` |
| GlobMatch.Exchange | cli/planoai/trace_cmd.py:206-216 | moving an occurrence of a part to the leftmost one keeps the rest of a glob match |
| GlobMatch.ConsumeComplete | cli/planoai/trace_cmd.py:206-216 | when a star comes first and last, a glob match exists only if the leftmost searches all succeed |
| GlobMatch.Sound | cli/planoai/trace_cmd.py:198-216 | every accepted value matches the glob, for every pattern |
| GlobMatch.Exact | cli/planoai/trace_cmd.py:198-216 | with no star, or a final one, accepted and matching coincide for each value |
| GlobMatch.ExactIff | cli/planoai/trace_cmd.py:198-216 | the matcher is the glob relation on all values iff the pattern has no star or ends in one; otherwise some matching value is refused |
| Traces.TraceStore.constructor | cli/planoai/trace_cmd.py:306-314 | an empty store with the given number of groups |
| Traces.TraceStore.EvictOldest | cli/planoai/trace_cmd.py:316-325 | removes the oldest group, its seen set and the index entries of its listed spans, and nothing else |
| Traces.TraceStore.MergeGroups | cli/planoai/trace_cmd.py:327-346 | moves one group into another: unseen named spans appended in order, every id and every waiting parent redirected, no other group changed |
| Traces.TraceStore.MergeSpan | cli/planoai/trace_cmd.py:355-403 | one span: the whole new state of the four dictionaries and of the group order |
| Traces.TraceStore.MergeSpans | cli/planoai/trace_cmd.py:348-403 | a batch is the run of its spans in order |
| Traces.TraceStore.Snapshot | cli/planoai/trace_cmd.py:405-410 | the groups, youngest first |
| Traces.IngestKeyed | cli/planoai/trace_cmd.py:316-403 | the group map, the seen map and the order keep the same keys, so no lookup fails |
| TraceInvariant.IngestBounded | cli/planoai/trace_cmd.py:375-382 | never more groups than the maximum, once the maximum is at least one |
| TraceInvariant.IngestTidy | cli/planoai/trace_cmd.py:327-403 | the named spans of a group stay pairwise distinct and in its seen set |
| TraceInvariant.IngestByRecency | cli/planoai/trace_cmd.py:375-382 | the group order stays the order of last touch |
| TraceInvariant.RunInvariant | cli/planoai/trace_cmd.py:296-403 | all of these after any sequence of deliveries to an empty store |
| TraceInvariant.EvictsLeastRecent | cli/planoai/trace_cmd.py:316-325 | a delivery that needs room removes exactly the group touched longest ago |
| TraceEviction.EvictionClears | cli/planoai/trace_cmd.py:316-325 | when the new group has been opened, nothing the evicted one listed is indexed or waited for, and every other entry is as it was |
| TraceEviction.OrphanStartsOver | cli/planoai/trace_cmd.py:355-382 | a span that comes after the one group that knew its parent was evicted, and that no group waits for, goes into the group of its own wire trace id |
| TraceEviction.OrphanExists | cli/planoai/trace_cmd.py:316-382 | with room for one group: parent, another root, then the child, which starts its own group |
| TraceOrder.AppendIs | cli/planoai/trace_cmd.py:327-341 | a merge appends the spans that are new to the destination, in the order of the source, and no other |
| TraceOrder.DeliveryAppends | cli/planoai/trace_cmd.py:375-403 | a new span goes behind the spans of its group, unless those are 500, and behind it go those of a group that waited for it |
| TraceOrder.FullGroupDrops | cli/planoai/trace_cmd.py:391-392 | a group with 500 spans takes no further one by arrival |
| TraceGrouping.Arrival | cli/planoai/trace_cmd.py:355-403 | an arrival that evicts nothing stores the span, unites two groups at most, and moves nothing else |
| TraceGrouping.ArrivalGroupedIff | cli/planoai/trace_cmd.py:355-403 | an arrival that evicts nothing keeps spans with their parents iff all stored children of the new span are in the groups it unites, or the span is not stored |
| TraceRuns.HistoryIsRun | cli/planoai/trace_cmd.py:348-403 | the states of a history are those of the run |
| TraceRuns.RoomForAll | cli/planoai/trace_cmd.py:375-382 | with a group for every wire trace id nothing is ever evicted |
| TraceRuns.OneTreeFits | cli/planoai/trace_cmd.py:375-382 | one tree delivered parents first needs a single group, under however many wire trace ids |
| TraceRuns.GroupedThroughoutIff | cli/planoai/trace_cmd.py:296-403 | over a run that evicts nothing: each stored span is with its stored parent at every moment iff every arrival finds its children |
| TraceRuns.ParentsFirstGroups | cli/planoai/trace_cmd.py:296-403 | parents first: any forest is grouped, whatever the wire trace ids |
| TraceRuns.NeverRebindsGroups | cli/planoai/trace_cmd.py:395-403 | any order: grouped as long as no arrival binds a waiting parent to a second group |
| TraceRuns.OnlyChildrenGroups | cli/planoai/trace_cmd.py:296-403 | chains without two children of one parent are grouped in every order |
| TraceRuns.ConnectedTogether | cli/planoai/trace_cmd.py:296-304 | spans joined by a path of stored parents and children are in one group |
| TraceRuns.StoredIff | cli/planoai/trace_cmd.py:384-392 | a delivered span is stored iff its group had room when it arrived, and then for good, in exactly the group its id is indexed under |
| TraceRuns.NothingLost | cli/planoai/trace_cmd.py:391-392 | the first 500 deliveries all find room, however they are grouped |
| TraceRuns.SiblingsSplit | cli/planoai/trace_cmd.py:395-403 | two siblings under different wire ids, then their parent: the first sibling is left behind, so the promise of lines 297-304 fails |
| TraceRuns.SiblingsExist | cli/planoai/trace_cmd.py:395-403 | such deliveries exist |
| PiiAnonymize.AcceptMatches | demos/filter_chains/pii_anonymizer/pii.py:21-29 | the loop over the matches computes spans, counters and mapping as `Accept` says |
| PiiAnonymize.AnonymizeText | demos/filter_chains/pii_anonymizer/pii.py:15-38 | text and mapping of the anonymizer |
| PiiAnonymize.CutOut | demos/filter_chains/pii_anonymizer/pii.py:31-36 | the right-to-left loop is the splice of the sorted spans |
| PiiAnonymize.PlaceholderInjective | demos/filter_chains/pii_anonymizer/pii.py:29 | different types or numbers give different placeholders |
| PiiAnonymize.AcceptConsistent | demos/filter_chains/pii_anonymizer/pii.py:17-29 | one entry per accepted span, in order, under distinct placeholders numbered below the counters |
| PiiAnonymize.ApartOrEngulfs | demos/filter_chains/pii_anonymizer/pii.py:24-26 | a later accepted span is apart from an earlier one, or extends past it on both sides |
| PiiAnonymize.AcceptedApartIff | demos/filter_chains/pii_anonymizer/pii.py:24-26 | the overlap test yields disjoint spans iff every match that is not blocked by what was accepted before it extends past none of it on both sides |
| PiiAnonymize.ApartWhenNoneNested | demos/filter_chains/pii_anonymizer/pii.py:24-26 | so it does when no match extends past one found before it |
| PiiCoverage.AcceptIs | demos/filter_chains/pii_anonymizer/pii.py:17-29 | the accepted matches are those that overlap none taken before, unless they extend past it; each has its text in the mapping under its type and the number of earlier ones of that type |
| PiiCoverage.EveryMatchCovered | demos/filter_chains/pii_anonymizer/pii.py:21-26 | every match is accepted or shares a character with an accepted one |
| PiiCoverage.ApartAllTaken | demos/filter_chains/pii_anonymizer/pii.py:21-26 | matches that are apart are all accepted, in order |
| PiiCoverage.NothingLeft | demos/filter_chains/pii_anonymizer/pii.py:15-38 | no match lies wholly in the text that is left between the outer spans |
| PiiCoverage.AnonymizedReads | demos/filter_chains/pii_anonymizer/pii.py:31-38 | the anonymized text is those gaps with a placeholder of its original in the place of each outer span, if spans inside others fit |
| PiiCoverage.TwoAddresses | demos/filter_chains/pii_anonymizer/pii.py:15-38 | "a@b.co c@d.co" becomes "[EMAIL_0] [EMAIL_1]" |
| PiiReplace.NotCreated | demos/filter_chains/pii_anonymizer/pii.py:66-67 | a replacement never creates the rest of a placeholder that its original is not inside |
| PiiReplace.ReplaceAllIsSubstitute | demos/filter_chains/pii_anonymizer/pii.py:66-67 | the loop of `str.replace` calls is the simultaneous left-to-right substitution |
| PiiStream.PrefixSet | demos/filter_chains/pii_anonymizer/pii.py:52-55 | the set built is exactly the proper non-empty starts of placeholders |
| PiiStream.DeanonymizeText | demos/filter_chains/pii_anonymizer/pii.py:41-69 | restored text and remaining buffer |
| PiiStream.HoldChain | demos/filter_chains/pii_anonymizer/pii.py:57-64 | what is held after more text depends only on what was held and the new text |
| PiiStream.SubstituteCut | demos/filter_chains/pii_anonymizer/pii.py:57-67 | substitution distributes over a cut that no placeholder reaches over |
| PiiStream.StreamIsWhole | demos/filter_chains/pii_anonymizer/pii.py:41-69 | any chunking gives the output and the buffer of one call on the whole text |
| PiiChunking.ChunkingMatters | demos/filter_chains/pii_anonymizer/pii.py:41-69 | if an original can complete a later placeholder, two chunks and one call differ on some text |
| PiiChunking.ChunkInvariantIff | demos/filter_chains/pii_anonymizer/pii.py:41-69 | chunking never matters iff no original occurs in a placeholder replaced after it |
| PiiNested.SpliceOutermost | demos/filter_chains/pii_anonymizer/pii.py:31-36 | if the spans inside others are as long as their placeholders, cutting out all spans is cutting out those inside no other |
| PiiNested.OneInsideIff | demos/filter_chains/pii_anonymizer/pii.py:15-69 | one match inside another: the text comes back iff the inner piece is as long as its placeholder, or longer with nothing behind the outer piece |
| PiiNested.NumberInAddress | demos/filter_chains/pii_anonymizer/pii.py:15-69 | a number inside an address: the text does not come back |
| PiiRoundTrip.RoundTrip | demos/filter_chains/pii_anonymizer/pii.py:15-69 | a bracket-free text comes back, with an empty buffer, repeated values included, if its accepted spans are disjoint or those inside others are as long as their placeholders |
| PiiNested.ApartFits | demos/filter_chains/pii_anonymizer/pii.py:24-26 | disjoint spans meet the condition of the round trip |
| PiiPatterns.PatternsNeverCreate | demos/filter_chains/pii_anonymizer/pii.py:8-13 | what the four patterns match occurs in no placeholder, up to a thousand million matches |
| PiiPatterns.StreamedRoundTrip | demos/filter_chains/pii_anonymizer/pii.py:15-69 | so the anonymized text, streamed back in any chunks, gives the text, with nothing held back at the end |
| PiiRoundTrip.FixedIffFree | demos/filter_chains/pii_anonymizer/pii.py:66-67 | substitution leaves a text alone iff it contains no placeholder |
| PiiRoundTrip.RoundTripIff | demos/filter_chains/pii_anonymizer/pii.py:15-69 | a text with brackets of its own comes back iff its uncovered parts contain none of its placeholders and it does not end with the start of one |
| PiiPatterns.StreamedRoundTripIff | demos/filter_chains/pii_anonymizer/pii.py:15-69 | any text matched by the four patterns, streamed back in any chunks, comes back iff its uncovered parts contain none of its placeholders and it does not end with the start of one |
| PiiStore.MappingStore.CleanupExpired | demos/filter_chains/pii_anonymizer/store.py:22-27 | exactly the mappings older than 300 seconds go, with their buffers |
| PiiStore.MappingStore.StoreMapping | demos/filter_chains/pii_anonymizer/store.py:30-33 | cleanup, then the new mapping with its time |
| PiiStore.MappingStore.RestoreStreaming | demos/filter_chains/pii_anonymizer/store.py:42-56 | one chunk: restored text, the new buffer of this request, all else unchanged |
| PiiStore.Isolated | demos/filter_chains/pii_anonymizer/store.py:42-56 | other requests and cleanups that do not expire it do not change what a request receives |
| PiiStore.StreamedAsWhole | demos/filter_chains/pii_anonymizer/store.py:42-56 | any interleaving and chunking of a request gives what one call on its whole text gives |
| PiiStore.CleanupIff | demos/filter_chains/pii_anonymizer/store.py:22-27 | a cleanup leaves exactly the mappings of the last 300 seconds, and drops a buffer with its mapping |
| PiiStore.StoredThenStreamed | demos/filter_chains/pii_anonymizer/store.py:22-56 | a request whose chunks come before any store that is more than 300 seconds later gets what one call on its whole text gives |
| PromptContext.StreamContext.OnHttpRequestBody | crates/prompt_gateway/src/http_context.rs:79-259 | the request-body callback does the step `OnRequestBody`, panics included |
| PromptContext.StreamContext.OnHttpCallResponse | crates/prompt_gateway/src/context.rs:12-66 | the response callback: removal, gauge, status, dispatch to the handler |
| PromptContext.StreamContext.HttpCall | crates/common/src/http.rs:46-84 | an accepted call enters the table and the gauge; a refused one changes nothing |
| PromptContext.StreamContext.ArchFcResponseHandler | crates/prompt_gateway/src/stream_context.rs:127-368 | the handler does `ArchFcResponse` |
| PromptContext.StreamContext.ScheduleApiCallRequest | crates/prompt_gateway/src/stream_context.rs:370-475 | the scheduling does `ScheduleApiCall` |
| PromptContext.StreamContext.ApiCallResponseHandler | crates/prompt_gateway/src/stream_context.rs:477-598 | the handler does `ApiCallResponse` |
| PromptContext.StreamContext.DefaultTargetHandler | crates/prompt_gateway/src/stream_context.rs:683-805 | the handler does `DefaultTargetResponse` |
| PromptContext.StreamContext.OnStreamedResponseBody | crates/prompt_gateway/src/http_context.rs:279-361 | the streaming branch does `OnResponseBody` |
| PromptProtocol.RequestBodyStarts | crates/prompt_gateway/src/http_context.rs:79-259 | a paused request waits for its first call or is answered; a continued one did nothing |
| PromptProtocol.ResponseStep | crates/prompt_gateway/src/context.rs:12-66 | each response that does not trap keeps the protocol invariant and lowers the rank |
| PromptProtocol.RunKeeps | crates/prompt_gateway/src/context.rs:12-66 | so over any number of responses, of which at most rank many can arrive |
| PromptProtocol.SettledExactlyOnce | crates/prompt_gateway/src/context.rs:12-66 | after any trap-free responses: one call out and no settlement, or no call out and one settlement; at most two calls; the gauge is the size of the table |
| PromptProtocol.ArchFcTrapsIff | crates/prompt_gateway/src/stream_context.rs:127-368 | exactly when the model response panics; never on `choices[0]`, `content` or `tool_calls[0]` once the intent check passed |
| PromptProtocol.ApiCallTrapsIff | crates/prompt_gateway/src/stream_context.rs:477-598 | a delivered developer response panics iff it is not text, so `user_message.content.unwrap()` is safe |
| PromptProtocol.DefaultTargetTrapsIff | crates/prompt_gateway/src/stream_context.rs:683-805 | exactly when the default target response panics, a last message without content included |
| PromptProtocol.FilteredHaveContent | crates/prompt_gateway/src/stream_context.rs:610-620 | what the filter keeps has content, is no tool message and has no tool calls |
| PromptProtocol.ConstructedHaveContent | crates/prompt_gateway/src/stream_context.rs:622-648 | every constructed message has content |
| PromptProtocol.UpstreamHasContent | crates/prompt_gateway/src/stream_context.rs:477-598 | on the first two handlers every message of a resumed request has content |
| PromptUpstream.FilterPicks | crates/prompt_gateway/src/stream_context.rs:610-620 | the filter keeps, in order, exactly the messages with content that are no tool messages and have no tool calls |
| PromptUpstream.ModelIsAsked | crates/prompt_gateway/src/http_context.rs:142-246 | the whole conversation goes to the function-calling model when its last user message has content |
| PromptUpstream.ToolRun | crates/prompt_gateway/src/stream_context.rs:370-598 | all that a run with a tool call asks of the host: the conversation to the model, the computed request to the endpoint, and then system prompt, kept messages and the answer behind the last of them upstream, or the answer to the user |
| PromptUpstream.OrchestratedRun | crates/prompt_gateway/src/stream_context.rs:318-365 | with an orchestrator system prompt and kept messages go upstream at once |
| PromptUpstream.AskingRun | crates/prompt_gateway/src/stream_context.rs:262-308 | when the model has only something to say, the user gets it, as events if the request streams |
| PromptUpstream.NoIntentRun | crates/prompt_gateway/src/stream_context.rs:156-259 | without intent and default target the system prompt of the gateway and the kept messages go upstream |
| PromptUpstream.DefaultRun | crates/prompt_gateway/src/stream_context.rs:683-805 | by way of the default target: the whole conversation to it, and its answer behind the last message upstream, or to the user |
| PromptUpstream.FailurePassedOn | crates/prompt_gateway/src/context.rs:30-56 | a response without success is passed on by its status, and nothing goes upstream |
| PromptUpstream.BodyRefused | crates/prompt_gateway/src/http_context.rs:97-125 | a body that cannot be read is answered with 500, one that does not parse with 400 |
| PromptUpstream.NoPromptContinues | crates/prompt_gateway/src/http_context.rs:142-152 | without a user message the request goes on untouched |
| PromptUpstream.ModelCallRefused | crates/prompt_gateway/src/http_context.rs:194-257 | a first call that cannot be made is answered with 500 |
| PromptUpstream.UnreadableModel | crates/prompt_gateway/src/stream_context.rs:132-145 | a model response that does not parse is answered with 500 |
| PromptUpstream.ToolCallRefused | crates/prompt_gateway/src/stream_context.rs:401-470 | a developer call without a path, or refused by the host, is answered with 400 |
| PromptGauge.GaugeCountsCalls | crates/common/src/http.rs:75-84 | after any interleaving of the callbacks of any number of requests the shared gauge is the number of calls in their tables |
| PromptTraps.CallbackTrapsIff | crates/prompt_gateway/src/context.rs:12-66 | when the response callback panics, exactly: unknown call, invalid status, failed response that is not text, or the condition of its handler |
| PromptTraps.RunTrapsIff | crates/prompt_gateway/src/context.rs:12-66 | a run from the request body on panics iff one of its responses meets that condition |
| PromptTraps.DefaultTargetRunTrapsIff | crates/prompt_gateway/src/stream_context.rs:683-805 | with every response as it should be, the run through the default target panics iff the last message of the request has no content |
| PromptTraps.DefaultTargetTrapExists | crates/prompt_gateway/src/stream_context.rs:683-805 | such a run |
| PromptRequests.UncallableIff | crates/prompt_gateway/src/stream_context.rs:370-420 | the developer call cannot be made iff its endpoint takes a POST, the placeholders have arguments, and a piece of the query lacks = |
| PromptRequests.ToolCallRunTrapsIff | crates/prompt_gateway/src/stream_context.rs:370-420 | a run in which the model calls a tool panics at once iff that holds |
| PromptRequests.DefaultTrapExists | crates/prompt_gateway/src/stream_context.rs:370-420 | a run that the default "R&D" of a parameter panics |
| PromptResponse.PreambleOnce | crates/prompt_gateway/src/http_context.rs:279-361 | upstream bytes unchanged, and the preamble once, before the first chunk the callback reads; without such a chunk, not at all |
| PromptResponse.PreambleThenUpstream | crates/prompt_gateway/src/http_context.rs:279-361 | for readable UTF-8 chunks the client body is the preamble and then the upstream bytes, for every chunking |
| PromptResponse.ClientReads | crates/prompt_gateway/src/http_context.rs:336-361 | written out: the remark of the model from the assistant, the answer of the developer from the tool, and the upstream bytes |
| SessionCache.Capacity | crates/brightstaff/src/session_cache/mod.rs:38-43 | the capacity is between 1 and 10000, and the configured one when that is in range |
| SessionCache.MemorySessionCache.constructor | crates/brightstaff/src/session_cache/memory.rs:21-24 | an empty cache; 0 means 10000 |
| SessionCache.MemorySessionCache.Get | crates/brightstaff/src/session_cache/memory.rs:62-70 | the answer, and the promotion of the entry even when it has expired |
| SessionCache.MemorySessionCache.Put | crates/brightstaff/src/session_cache/memory.rs:72-77 | the new entry in front; a new key in a full cache removes the last entry |
| SessionCache.MemorySessionCache.Remove | crates/brightstaff/src/session_cache/memory.rs:79-81 | exactly the entry of the key goes |
| SessionCache.MemorySessionCache.EvictExpired | crates/brightstaff/src/session_cache/memory.rs:39-57 | exactly the expired entries go, order kept |
| SessionCache.StepKeeps | crates/brightstaff/src/session_cache/memory.rs:21-81 | distinct keys and the capacity are kept by every operation |
| CacheRuns.HitsAreSound | crates/brightstaff/src/session_cache/memory.rs:21-81 | a hit is what an unbounded timed map returns, and the size never exceeds the capacity |
| CacheRuns.UnboundedWhenItFits | crates/brightstaff/src/session_cache/memory.rs:21-81 | with no more distinct keys than the capacity the cache answers like the unbounded map |
| CacheExpiry.MissesWhenExpired | crates/brightstaff/src/session_cache/memory.rs:62-70 | from t + ttl of its last put on a key misses, in every run |
| CacheExpiry.SweptWhenExpired | crates/brightstaff/src/session_cache/memory.rs:39-57 | and a sweep at such a time leaves no entry for it |
| CacheExpiry.SweepIff | crates/brightstaff/src/session_cache/memory.rs:39-57 | a sweep leaves exactly the entries whose time to live has not passed |
| CacheExpiry.AnswersUntilExpired | crates/brightstaff/src/session_cache/memory.rs:62-77 | with no more distinct keys than the capacity a key answers with its last put exactly until t + ttl |
| CacheExpiry.HitIsLastPut | crates/brightstaff/src/session_cache/memory.rs:62-77 | in every run a hit is the route of the last put, within its time to live |
| CacheExpiry.NeverPutMisses | crates/brightstaff/src/session_cache/memory.rs:62-70 | a key that was never put misses |
| CacheRetention.LruRetention | crates/brightstaff/src/session_cache/memory.rs:39-81 | a touched key keeps answering while fresh, not removed, and fewer other keys than the capacity were touched since, sweeps anywhere |
| CacheRetention.LruEvictionIff | crates/brightstaff/src/session_cache/memory.rs:62-77 | with puts and lookups only, a touched key is still there iff fewer other keys than the capacity were touched since |
| CacheRetention.SweepInvisible | crates/brightstaff/src/session_cache/memory.rs:39-57 | a sweep changes no answer at or after its time until the next put |
| LlmProviders.CollectExclusions | crates/common/src/llm_providers.rs:114-134 | the first pass collects the specific models per prefix |
| LlmProviders.ExpandWildcard | crates/common/src/llm_providers.rs:194-221 | one full and one bare key for each model that is not excluded |
| LlmProviders.TryFromConfig | crates/common/src/llm_providers.rs:98-256 | the two-pass build, errors included |
| LlmProviders.GetProvider | crates/common/src/llm_providers.rs:51-82 | exact name, name after the first slash, or wildcard of the prefix |
| LlmProviders.ExcludedIff | crates/common/src/llm_providers.rs:117-134 | a model is excluded iff some specific entry is named for it, wherever it stands |
| ProviderLookup.AcceptedIff | crates/common/src/llm_providers.rs:98-256 | accepted iff not empty, at most one default, and no two specific entries with one name |
| ProviderLookup.LastWriterWins | crates/common/src/llm_providers.rs:136-253 | every key of the index belongs to the last entry that writes it |
| ProviderLookup.AcceptanceIgnoresOrder | crates/common/src/llm_providers.rs:98-256 | a reordering is accepted iff the configuration is |
| ProviderLookup.OrderIrrelevant | crates/common/src/llm_providers.rs:51-256 | without collisions every reordering is accepted, answers every lookup, and has the default, alike |
| ProviderLookup.KeepsKeyIff | crates/common/src/llm_providers.rs:136-253 | a specific entry answers for its name or model iff no later specific entry has it and no later wildcard expands to it |
| ProviderLookup.SpecificWins | crates/common/src/llm_providers.rs:117-252 | with slash-free catalogues a specific "p/m" answers for its name against any wildcards, in any order |
| ProviderLookup.FoundIff | crates/common/src/llm_providers.rs:51-82 | which names are found at all, in terms of the configuration |
| ProviderLookup.WildcardCatchesAll | crates/common/src/llm_providers.rs:60-79 | a wildcard catches every model of its prefix, and answers itself, asked for that model, when no entry writes the name |
| ProviderLookup.WildcardStandsIn | crates/common/src/llm_providers.rs:194-221 | asked for a model of the catalogue of a wildcard, with or without the prefix, the index gives the settings of the wildcard with the name and the model filled in, if no later entry writes the key |
| ProviderLookup.WildcardIff | crates/common/src/llm_providers.rs:119-123 | a wildcard has a star for its model, alone or behind a slash |
| ProviderLookup.PrefixOfName | crates/common/src/llm_providers.rs:158-163 | a wildcard is named by its prefix, a slash and a star |
| ProviderLookup.OneWildcard | crates/common/src/llm_providers.rs:194-221 | so "openai/*" with the model gpt-4o in its catalogue gives openai/gpt-4o |
| ProviderLookup.BareNamesCollide | crates/common/src/llm_providers.rs:238-251 | a later wildcard takes the bare model name of a specific entry, an earlier one does not |
| PathTemplate.ScanPath | crates/common/src/path.rs:17-36 | the character loop |
| PathTemplate.AddRemaining | crates/common/src/path.rs:38-50 | the loop over the tool parameters, for any iteration order: url, used names and map |
| PathTemplate.AddDefaults | crates/common/src/path.rs:52-64 | the loop over the declared defaults |
| PathTemplate.ReplaceParamsInPath | crates/common/src/path.rs:7-74 | path, query and parameter map, through the URL join |
| PercentEncoding.EscapedAre | crates/common/src/path.rs:24-70 | what is escaped in paths, in queries and by the encoding of parameters |
| PercentEncoding.DecodeEncode | crates/common/src/path.rs:24-25 | percent-decoding an encoded value gives its UTF-8 bytes (sections 2.1 and 2.3 of RFC 3986) |
| PathQuery.TemplateExpands | crates/common/src/path.rs:17-36 | a well-formed template becomes its literals and encoded values, or the error names the first placeholder without a value |
| PathQuery.ParametersAre | crates/prompt_gateway/src/tools.rs:7-26 | strings, numbers and booleans are parameters, as they print; other values are not |
| PathQuery.ParsedPiece | crates/prompt_gateway/src/tools.rs:48-50 | of a piece with several = the second part is the value |
| PathQuery.RemainingExactly | crates/common/src/path.rs:38-50 | each unused tool parameter is in exactly one pair, encoded, and no other |
| PathQuery.DefaultsExactly | crates/common/src/path.rs:52-64 | a default is a pair iff its parameter was not supplied |
| PathQuery.PlacedOnce | crates/common/src/path.rs:38-64 | no parameter is both in a placeholder and in the query; none is lost |
| PathQuery.PrintParseIff | crates/prompt_gateway/src/tools.rs:46-51 | splitting a printed query on & and = gives the pairs back iff no separator is in any of them |
| PathQuery.EscapedJoin | crates/common/src/path.rs:66-70 | escaping a printed query is printing escaped pairs |
| PathQuery.JoinedUrl | crates/common/src/path.rs:66-71 | path and query of the joined URL of an expanded template with its pairs |
| UrlJoin.PathKeptIff | crates/common/src/path.rs:66-71 | a text comes out of the join as its path, unchanged, iff it has one leading slash, not two, no backslash, nothing to escape and no dot segment |
| UrlJoin.JoinedCanonical | crates/common/src/path.rs:66-71 | every joined path is canonical (leading slash, no backslash, nothing to escape, no dot segment), with an authority or without, unless the reference has a scheme |
| PathQuery.SplitPrinted | crates/prompt_gateway/src/tools.rs:46-51 | the pieces of a printed query: those of the fixed part and then those of each pair |
| Tools.ComputeRequestPathBody | crates/prompt_gateway/src/tools.rs:28-59 | path and body, error or panic |
| PathRequests.PostExactly | crates/prompt_gateway/src/tools.rs:28-59 | the outcome of a POST in terms of template, parameters, their order and declarations, names and defaults with separators included |
| PathRequests.PostPanicsIff | crates/prompt_gateway/src/tools.rs:46-51 | exactly when an unwrap fails: a piece of a pair that is sent, or of the template query, has no = |
| PathRequests.DefaultPanics | crates/common/src/path.rs:52-60 | a default with such a piece makes every POST without its parameter panic |
| PathRequests.AmpersandPanics | crates/common/src/path.rs:52-60 | "R&D" is such a default |
| PathRequests.PostSeparable | crates/prompt_gateway/src/tools.rs:28-59 | the outcome when no name or default has a separator: only the query of the template itself can make it panic |
| PathRequests.PlainTemplate | crates/prompt_gateway/src/tools.rs:28-59 | for templates without a query: the query reads back as the appended pairs, as the URL has them, iff no separator is in any of them, and then nothing panics |
| PathBodies.UnreservedTemplate | crates/prompt_gateway/src/tools.rs:28-59 | with names and defaults of unreserved characters the query reads back as exactly the appended pairs, and the body is the parameters not in the path and the defaults |
| PathBodies.BodyLookup | crates/prompt_gateway/src/tools.rs:43-55 | the body, key by key: what the defaults put, else the parameters, else what does not depend on their order |
| PathBodies.OrderMattersIff | crates/prompt_gateway/src/tools.rs:43-55 | the outcome depends on the iteration order of the hash map iff a request is built, and two parameters outside the path put different values under a key that no default overrides |
| PathBodies.ClashIff | crates/prompt_gateway/src/tools.rs:46-51 | without separators these are two names that are escaped alike, with different values |
| PathDefaults.PostOrderIrrelevant | crates/prompt_gateway/src/tools.rs:28-59 | so names outside the path that are escaped differently make the outcome independent of the order |
| PathDefaults.OrderMatters | crates/prompt_gateway/src/tools.rs:46-51 | "a b" and "a%20b" are two names that show the order |
| PathDefaults.DefaultKeptIff | crates/common/src/path.rs:52-70 | the default declared last is in the body as declared iff the URL escapes nothing in it and it has no separator; without one the body has its escaped form |
| PathDefaults.DefaultEscaped | crates/common/src/path.rs:52-70 | "New York" becomes "New%20York" |
| PathExpansion.PathIsExpansionIff | crates/common/src/path.rs:66-73 | the path is the expanded template iff it begins with one slash, not two, and has no dot segment, whatever goes into the query |
| PathExpansion.DotsInPath | crates/common/src/path.rs:66-73 | a parameter ".." takes the segment before it out of the path |
| PathExpansion.DotsExist | crates/common/src/path.rs:66-73 | in "/u/{id}/x" it gives "/x" |
| PathExpansion.EmptyTakesHost | crates/common/src/path.rs:66-73 | an empty parameter between the first two slashes makes the next segment a host and takes it out of the path |
| PathExpansion.EmptyExists | crates/common/src/path.rs:66-73 | in "/{id}/x" it gives "/" |
| Usage.ExtractUsageFromBytes | crates/brightstaff/src/streaming.rs:106-145 | the scan from the last line computes `Extract` |
| Usage.NoUsageIff | crates/brightstaff/src/streaming.rs:120-144 | the scan finds nothing iff no line carries a usage |
| Usage.LastUsageWins | crates/brightstaff/src/streaming.rs:120-144 | it finds the usage of the last line that carries one |
| UsageReading.DataLine | crates/brightstaff/src/streaming.rs:126-144 | what a line of white space, "data:", white space and a payload carries, exactly |
| UsageReading.OtherLine | crates/brightstaff/src/streaming.rs:126-134 | no other line carries a usage |
| UsageReading.LinesRead | crates/brightstaff/src/streaming.rs:124 | text.lines() gives back lines joined by \n or \r\n |
| UsageReading.ReportedIs | crates/brightstaff/src/streaming.rs:106-145 | JSON with counts reports those, else the last line that carries a usage does, else nothing is reported |
| StreamProcessor.ObservableStreamProcessor.ProcessChunk | crates/brightstaff/src/streaming.rs:312-323 | totals, capped buffer; the chunk passes unchanged |
| StreamProcessor.ObservableStreamProcessor.OnFirstBytes | crates/brightstaff/src/streaming.rs:325-334 | the time to the first token is set once |
| StreamProcessor.ObservableStreamProcessor.OnComplete | crates/brightstaff/src/streaming.rs:336-456 | the usage reported, the metric recorded, the buffer released |
| StreamProcessor.ObservableStreamProcessor.OnError | crates/brightstaff/src/streaming.rs:458-477 | an error metric unless one was recorded |
| RelayRuns.StepKeeps | crates/brightstaff/src/streaming.rs:486-663 | every step of task, filters and client keeps the relay invariant |
| RelayRuns.RelaySafety | crates/brightstaff/src/streaming.rs:486-663 | for any processor and any schedule: received, channel and item in hand are what the processor passed on, in order; at most 16 items in the channel; every chunk offered in order |
| RelayRuns.CallbackOrder | crates/brightstaff/src/streaming.rs:486-663 | first bytes at most once and before any chunk; the end announced last, once, by exactly the finished runs; an error at most once, before it |
| RelayRuns.NeverWedged | crates/brightstaff/src/streaming.rs:521-524 | a chunk in hand can be sent, at once or after one receive, or the task finishes because the client is gone |
| RelayViews.Transparent | crates/brightstaff/src/streaming.rs:486-556 | without filters the client has a prefix of the upstream chunks, and all of them once a finished stream is drained |
| RelayViews.FilteredInOrder | crates/brightstaff/src/streaming.rs:558-663 | with filters, each chunk as they made it, or as it came where they failed |
| RelayViews.Accounting | crates/brightstaff/src/streaming.rs:312-477 | all accounts of a run from the bytes observed alone; a failed, metered run records two upstream metrics |
| RelayViews.ReportsFirstBytes | crates/brightstaff/src/streaming.rs:312-456 | a finished run reports the usage of the first 2 MiB that it observed, and all of its size |
| RelayViews.UsageIgnoresChunking | crates/brightstaff/src/streaming.rs:312-323 | the usage and size reported do not depend on how the response is cut into chunks |
| RelayViews.CreateStreamingResponse | crates/brightstaff/src/streaming.rs:499-538 | the loop of the task on the processor object |
| RelayViews.LoopAccounts | crates/brightstaff/src/streaming.rs:499-538 | the loop arrives at the accounts that every schedule arrives at |
| RateLimit.RatelimitMap.New | crates/common/src/ratelimit.rs:66-96 | the build loop; a limit without tokens panics |
| RateLimit.RatelimitMap.CheckLimit | crates/common/src/ratelimit.rs:98-147 | specific selector, else generic, else pass; the error repeats the call |
| RateLimit.QuotaBuilt | crates/common/src/ratelimit.rs:66-96 | every selector of a model has the first limit configured for it |
| RateLimit.BuildPanicsIff | crates/common/src/ratelimit.rs:150-161 | building panics iff some limit, even a skipped duplicate, has no tokens |
| DailyLimits.PassedAtMost | crates/common/src/ratelimit.rs:139-146 | a token bucket passes at most what it held and what flowed in |
| DailyLimits.MostThatPasses | crates/common/src/ratelimit.rs:150-161 | the most that a fresh bucket passes over any duration, exactly: one quota, and what flows in |
| DailyLimits.LimitInTime | crates/common/src/ratelimit.rs:150-161 | what a limit per second, minute, hour or day lets through within any number of seconds |
| DailyLimits.DailyLimitIff | crates/common/src/ratelimit.rs:156-159 | over every day of 86400 seconds from a fresh bucket at most the daily limit passes iff it has at least 24 tokens and its remainder by 24, plus one, is at least its hourly quota |
| DailyLimits.ClosedDayIff | crates/common/src/ratelimit.rs:156-159 | over 24 hours with both end points: iff the remainder itself is at least the quota |
| DailyLimits.ConfiguredDay | crates/common/src/ratelimit.rs:66-161 | from the configuration to the tokens that pass within any duration |
| RateLimit.CheckCharges | crates/common/src/ratelimit.rs:98-147 | a check charges its own bucket and no other |
| RateLimit.Isolation | crates/common/src/ratelimit.rs:98-147 | over any timed run the decisions of a bucket are those of one cell fed only its calls |
| RateLimit.UnmatchedPass | crates/common/src/ratelimit.rs:110-136 | calls that match no selector pass |
| RateLimit.BucketConfigured | crates/common/src/ratelimit.rs:110-137 | the bucket of a call in terms of the configuration |
| RateLimit.ConfiguredLimits | crates/common/src/ratelimit.rs:66-147 | from configuration to decisions: a fresh limiter with the first quota, per bucket |
| Versions.VersionTuple | cli/planoai/config_generator.py:185-198 | the loop over the parts computes `VersionOf` |
| Versions.VersionRoundTrip | cli/planoai/config_generator.py:185-198 | every version string "v1.2.3", with any suffix after a dash, is read back as its numbers |
| ConfigMigration.Collect | cli/planoai/config_generator.py:127-160 | the nested loops: the refused model, or the table of lifted preferences |
| ConfigMigration.ConfigYaml.MigrateInlineRoutingPreferences | cli/planoai/config_generator.py:97-182 | the whole new configuration, and the model named by the exception |
| MigrationRelation.CollectedLists | cli/planoai/config_generator.py:142-160 | one entry per distinct name, with the first description and the distinct models that declare it |
| MigrationRelation.NamesInOrder | cli/planoai/config_generator.py:142-160 | the entries are in the order in which their names were first mentioned |
| MigrationRelation.ModelsInOrder | cli/planoai/config_generator.py:153-154 | the models of an entry are in declaration order |
| MigrationRelation.MigratesExactly | cli/planoai/config_generator.py:117-176 | existing entries an unchanged prefix, then the names not taken; no inline lists left; otherwise at most the version changes |
| MigrationRelation.RelationAfter | cli/planoai/config_generator.py:117-176 | which names route to which models afterwards, iff |
| MigrationRelation.PairLostIff | cli/planoai/config_generator.py:169-176 | an inline pair is lost iff its name was already top-level without this model |
| MigrationRelation.RefusedIff | cli/planoai/config_generator.py:137-140 | refused iff a provider with inline preferences has a wildcard model |
| MigrationRelation.SecondRunIsNoOp | cli/planoai/config_generator.py:117-121 | a second run changes and raises nothing, even after a refused one |
| MigrationRelation.CurrentIff | cli/planoai/config_generator.py:117-119 | left alone iff the version, whatever its suffix, is at least 0.4.0 |

## Left out

- Traces: the 500-span cap per group is not claimed, because a merge appends without looking at it; index entries of spans that are not listed survive an eviction, as in the code.
- ParentsFirstGroups: like the other grouping results, for deliveries of distinct non-empty ids that evict nothing (`Deliveries`); after an eviction parents are simply gone.
- ChunkInvariantIff: for placeholders that have their brackets only at the ends and bracket-free originals, which every mapping of bracket-free matches has (`AcceptedShaped`).
- RoundTrip: sufficient when several matches are nested; for one match inside another `OneInsideIff` is exact.
- RoundTripIff: the matched pieces are bracket-free, which the four patterns ensure, no original completes a later placeholder (`PatternsNeverCreate`), and spans inside others fit; without these a restored piece can complete a placeholder with the text around it.
- PII over multi-part messages: `anonymize_message_content` merges the mappings of its parts, which reuse numbers.
- StreamedAsWhole: as long as no cleanup finds the mapping of the request expired; clean-up under a running stream drops its buffer.
- SettledExactlyOnce: responses are for calls that were made; a response with an unknown token traps. Headers, timeouts, the saved `arch_state` and the metadata edit of non-streamed responses (`crates/prompt_gateway/src/http_context.rs:362-426`) are not modelled.
- PromptUpstream: headers, timeouts and the model server's tools and metadata are not part of a modelled call.
- DefaultTargetTrapsIff: for contexts that the gateway itself creates; `PromptTraps.CallbackTrapsIff` is about all of them.
- PromptGauge.GaugeCountsCalls: runs end at the first panic, which takes the whole filter down.
- LruRetention: sweeps run at most at the time of the lookup (`SweepsBy`); the spawned timer that triggers them is an event.
- ProviderLookup: `to_models`, the log line that subtracts the number of excluded models, and the bare-name lookup inside `get` that the first lookup already covers.
- PathRequests: host, port and fragment of a reference with an authority or a scheme, and the body of a POST to one.
- RelaySafety: the filter chain is one awaited result per chunk; billing, spans, log lines and the token counters are left out, the recorded upstream metrics are a list.
- Accounting: JSON field extraction (`from_json`) is a parameter.
- NeverWedged: a scheduler that runs every enabled step is not part of this model.
- RateLimit: the limiter library's own arithmetic; its check is any function of quota, cell, tokens and time, and in `DailyLimits` an ideal token bucket.
- Versions: `int()` also accepts non-ASCII digits, and refuses numbers of more than 4300 digits.
- ConfigMigration: provider dictionaries are values inside the configuration, so YAML anchors that share one list are not captured; warnings are not modelled; a description without a value counts as empty.
- gRPC, Envoy, HTTP clients, Redis and Postgres backends, rendering, transformers between API shapes, and the orchestrator: input and output.
