# CrowClaw: verified models of its state machines and transformations

CrowClaw is an agent runtime. Most of it moves text between providers, tools and chat platforms, but
several self-contained parts carry rules that matter when things are cut, replayed, throttled or
restored. Each of them is modelled here as its own Dafny module, in the form the source has: objects
that update their fields are classes, loops are loops, and both are proved against functions on values
about which the guarantees are then proved for all inputs, all runs or all reachable states.

| part | modules |
|---|---|
| streaming and one-shot parsing of reasoning tags | ReasoningTags, ReasoningEvents, StreamingScan, StreamingParser, BatchParser, BatchProperties, StreamingRefinesBatch, StreamingAgreement, StreamingSpans |
| SKILL.md printer and parser | Text, SkillYaml, SkillFrontMatter, SkillLocales, LocaleBlocks, SkillManifest, SkillRoundTrip, SkillReading |
| gateway stores over a clock | InsertionMap, TimeWindow, IdempotencyStore, IdempotencyLedger, AuthRateLimiter, AuthHistory, PlatformRateLimiter, KeyPool, KeyHistory |
| concurrency gate of the gateway runner | ConcurrencyGate |
| control skeleton of the agent loop | AgentLoop, AgentRuns, FailureStreaks |
| summaries, checkpoints, splitting, address prefixes | SummaryMerge, CheckpointStore, MessageSplit, PairSplit, AddressMatch, AddressPrint, AddressSyntax, BitMath, Sequences |

`dafny verify dfyconfig.toml` checks the whole project.

## How the models stand for the code

- The clock is an argument of every call; runs assume that it never goes back. JavaScript maps whose
  iteration order decides evictions are a key sequence together with a table (`InsertionMap`).
- A `StreamingReasoningParser` remembers, as ghost fields, what it was fed and what it said. Its
  invariant says that both agree in meaning, however the text was cut.
- Providers, plugins and tools are arbitrary oracles that may also fail or abort; the run theorems
  hold for every oracle. `AgentLoop.Run` computes `Ran`, and the bounds and exits are lemmas about it.
- A printed SKILL.md is a tree of scalars, lists and nested objects. The printer/parser law is proved
  for trees of any depth first on lines (`SkillYaml`), then on characters (`SkillFrontMatter`); the
  manifest is one such tree.
- What the stores and the loop answer is also told without their state: from the calls alone (`AuthHistory`,
  `IdempotencyLedger`, `KeyHistory`) and from the run's own history (`AgentRuns`). What parsers read is told from the
  written side: `SkillReading`, `LocaleBlocks`, `AddressPrint`, `AddressSyntax`.
- A completion handler of the concurrency gate runs to its end, so it is one step.

## Where the code and its own description differ

- `poisonAfterProgress` is documented as a no-op for unknown or expired keys
  (packages/gateway/src/index.ts:936); the code marks them (1067-1076), and the model does too. A poison
  marker that is shorter than the claim also frees the key early (`ShortPoisonFreesEarly`); the exact
  rule is `PoisonSetsExpiry`.
- The cap on checkpoints is documented as keeping the newest ones (packages/core/src/checkpoint.ts:51-52).
  After deletes this can fail, because an eviction is final (`EvictionIsFinal`); `NewestExactly` says when it holds.
- A failure streak that ends the loop in its last permitted iteration is reported as an exhausted
  budget when synthesis is on (packages/core/src/index.ts:2237-2245 against 2363-2402);
  `StreakEndsRun` gives the exact condition.
- The pre-emptive `rate-limited` answer of `beforeAuth` is described as a guard
  (packages/gateway/src/index.ts:283-285); it is never given in any run (`NeverRateLimited`).
- Round robin is fair to keys that stay usable, but exactly once only while no pick walks past the key
  itself (`RoundRobinFair`); rotating it makes that happen (`RotationBreaksExactlyOnce`).
- A streak is documented as counting since the tool last succeeded; the counters do so exactly for tools
  with a name, without a vertical bar in name or code (`CountedRightExactly`), because the reset skips the
  empty name (packages/core/src/index.ts:2232) and cuts its keys at the first bar.
- The streaming parser is described as never losing a tag boundary (packages/core/src/reasoning-blocks.ts:203-206).
  Custom names that shadow each other break that (`ShadowBreaks`): `InvariantExactly` gives the exact condition.
  A block of an empty name is opened but never closed (`RunShapeExactly`). `AgreementExactly` says for which names
  streaming and one-shot parsing agree. Tool calls are read alike exactly on the texts that `StreamedCallsExactly` names:
  streaming swallows a block that opens within an outside payload, and drops what is before a second opener inside a block.
- Bans are described as escalating. They do, without overlap, exactly while no failure reaches the limit during a
  ban or after its eviction (`BansEscalateExactly`); two checks admitted before either fails break it (`InterleavedBansOverlap`).
- Rendering drops a lone `category` on the second save, and `requires`, `always` and `i18n` on the
  first (`SavingSettles`, `UnprintedKeys`).

## Model

| member | source | states |
|---|---|---|
| StreamingScan.ChunkInvariance | packages/core/src/reasoning-blocks.ts:199-380 | Two ways of cutting a text into chunks give the same events after merging, for every cut, every tag set and every text that opens no shadowed name and closes none that the tool-call name shadows |
| StreamingScan.InvariantExactly | packages/core/src/reasoning-blocks.ts:199-489 | For a prepared tag set what is said never depends on the chunks if and only if no name shadows another, the tool-call name included |
| StreamingScan.ShadowBreaks | packages/core/src/reasoning-blocks.ts:243-489 | Every shadowed name breaks it: its opening form, whole and cut behind the form that shadows it, gives different merged runs |
| StreamingScan.ChunkedIsWhole | packages/core/src/reasoning-blocks.ts:228-237 | Any chunking says what feeding the whole text at once says, which is the character-by-character meaning of the text |
| StreamingScan.RunMeaning | packages/core/src/reasoning-blocks.ts:228-380 | From every parser state and buffer, feeding chunks and flushing means the buffer followed by the chunks |
| StreamingScan.PumpThenScan | packages/core/src/reasoning-blocks.ts:243-356 | What one drain emits, followed by scanning its retained tail with more input, is scanning everything at once |
| StreamingScan.StructuralExtends | packages/core/src/reasoning-blocks.ts:267-342 | Where no shadowed name opens or closes, a structural match chosen now stays the one chosen when more input arrives, names with `>` included |
| StreamingScan.NothingLater | packages/core/src/reasoning-blocks.ts:301-350 | At a `<` that matches nothing and is no partial tag, no later input produces a match, so emitting it is safe |
| StreamingScan.LookAheadExact | packages/core/src/reasoning-blocks.ts:415-440 | The look-ahead test holds if and only if some further input completes a known tag form at this place that is not complete yet |
| StreamingScan.RunShape | packages/core/src/reasoning-blocks.ts:192-197 | In every run text occurs only outside blocks and deltas only inside, starts and ends alternate with matching tags, and the flush closes whatever is open |
| StreamingScan.RunShapeExactly | packages/core/src/reasoning-blocks.ts:267-379 | All runs of a new parser have this shape if and only if no tag name is empty: a block of an empty name is opened and never closed |
| StreamingScan.RestIsPartial | packages/core/src/reasoning-blocks.ts:212-213 | What a drain retains is empty or a `<`-led strict prefix of a known tag form |
| StreamingScan.RestIsShort | packages/core/src/reasoning-blocks.ts:203-206 | The retained tail is shorter than the longest closing tag, whatever was fed |
| StreamingScan.BracketInTagBreaksInvariance | packages/core/src/reasoning-blocks.ts:219-226 | The names `a>` and `a` make the merged runs of the text `<a>>` depend on where it is cut, while a lone name with `>` does no harm |
| ReasoningTags.MatchTagIsForm | packages/core/src/reasoning-blocks.ts:442-460 | The index scan for a tag succeeds exactly when the rest of the text begins with `<tag>` or `</tag>` up to case, and then ends right behind it |
| ReasoningTags.FormsPrefixFree | packages/core/src/reasoning-blocks.ts:463-471 | Two different forms of names without `>` never match at the same position |
| ReasoningTags.OpenerStable | packages/core/src/reasoning-blocks.ts:463-471 | Where no shadowed name opens, the opener found first does not change with later input |
| ReasoningTags.PlainNamesUnshadowed | packages/core/src/reasoning-blocks.ts:87-99 | Names without `>`, the default ones among them, never shadow each other |
| ReasoningTags.LowerAllPrepares | packages/core/src/reasoning-blocks.ts:482-489 | The prepared tag set is in lower case, repeats no name and holds exactly the lower-cased names |
| ReasoningTags.LowerAllInOrder | packages/core/src/reasoning-blocks.ts:482-489 | And it keeps the order in which the names first occur |
| ReasoningEvents.MergeIsNormal | packages/core/src/reasoning-blocks.ts:391-404 | A merged stream has no two neighbours that could still be merged |
| ReasoningEvents.MergeHead | packages/core/src/reasoning-blocks.ts:391-404 | Merging the first part of a stream beforehand changes nothing |
| ReasoningEvents.MergeTail | packages/core/src/reasoning-blocks.ts:391-404 | Merging the last part of a stream beforehand changes nothing |
| ReasoningEvents.AfterMerge | packages/core/src/reasoning-blocks.ts:192-197 | Merging keeps where a stream leaves its reader: outside, inside a named block, or broken |
| StreamingParser.StreamingReasoningParser.constructor | packages/core/src/reasoning-blocks.ts:210-226 | For any tag names a new parser is valid, its buffer is empty, nothing is open |
| StreamingParser.StreamingReasoningParser.Feed | packages/core/src/reasoning-blocks.ts:229-232 | The events and the new fields are those of one pump over the buffer and the chunk; what was told so far still means what was fed so far, for every continuation that opens and closes no shadowed name |
| StreamingParser.StreamingReasoningParser.Flush | packages/core/src/reasoning-blocks.ts:235-237 | Everything told since the last flush, merged, is the meaning of everything fed since then unless that text opens or closes a shadowed name; for nonempty names all blocks are closed; the parser is as new |
| StreamingParser.StreamingReasoningParser.Drain | packages/core/src/reasoning-blocks.ts:243-380 | The loop over the buffer computes the pump, and on the final flush the whole scan with its closing event |
| StreamingParser.StreamingReasoningParser.Advance | packages/core/src/reasoning-blocks.ts:254-353 | One turn waits exactly where the specification waits and otherwise takes exactly its turn |
| StreamingParser.StreamingReasoningParser.MatchInside | packages/core/src/reasoning-blocks.ts:268-299 | Inside a block: its closer first, then a tool-call opener, then a tool-call closer |
| StreamingParser.StreamingReasoningParser.MatchOutside | packages/core/src/reasoning-blocks.ts:316-342 | Outside: an opener unless a payload is being collected, then the tool-call markers |
| StreamingParser.StreamingReasoningParser.MatchAnyOpener | packages/core/src/reasoning-blocks.ts:463-471 | The first tag in set order whose opener begins here |
| StreamingParser.StreamingReasoningParser.CouldBePartialTag | packages/core/src/reasoning-blocks.ts:421-440 | The loop over all tags decides the look-ahead test |
| StreamingParser.StreamingReasoningParser.EmitChar | packages/core/src/reasoning-blocks.ts:383-407 | One character extends the last event of its kind or starts a new one, or goes to the tool-call payload |
| BatchParser.ParseReasoningBlocks | packages/core/src/reasoning-blocks.ts:118-186 | The cursor loop yields the stripped text, blocks and spans of the recursive specification |
| BatchParser.FindNextOpener | packages/core/src/reasoning-blocks.ts:501-516 | The earliest opener of any tag, the first tag in set order at that place |
| BatchParser.FindCloser | packages/core/src/reasoning-blocks.ts:518-527 | The earliest closer of the tag |
| BatchParser.CollectToolCallSpans | packages/core/src/reasoning-blocks.ts:549-583 | The spans of a slice with absolute positions, unclosed openers skipped |
| BatchParser.NextOpener | packages/core/src/reasoning-blocks.ts:497-516 | No opener of any tag begins before the one found, nor anywhere when none is found |
| BatchProperties.ParseBlocksFit | packages/core/src/reasoning-blocks.ts:162-178 | Blocks are ascending and disjoint, each is opener, content and first closer at its range, and no opener lies in the gap before a block |
| BatchProperties.StrippedIsTheRest | packages/core/src/reasoning-blocks.ts:131-182 | The stripped text is the input with exactly the block ranges and an unclosed opener cut out |
| BatchProperties.ParseSpansFit | packages/core/src/reasoning-blocks.ts:118-186 | Between the openers and closers of the blocks the reported spans are exactly the tool-call pairs, part by part and in order: each from the next opener to the first closer behind it, payload in between, under the tag of its block; and none is left out |
| StreamingSpans.StreamedCallsExactly | packages/core/src/reasoning-blocks.ts:118-583 | On every text and every cut that is steady, for nonempty names: the streamed tool calls, with payloads and blocks, are those the one-shot parser reports if no block opens within a payload outside and no payload in a block holds another opener; for names without `<` and `/` only if |
| StreamingSpans.CallsAgree | packages/core/src/reasoning-blocks.ts:118-583 | The same from every cursor of the one-shot parser on |
| StreamingSpans.PairSaysSpan | packages/core/src/reasoning-blocks.ts:278-342 | A pair of tool-call tags says one span with exactly the text between them, under the current block, and then what the rest says: outside up to the first closer, inside if neither the closer of the block nor another opener begins before it |
| StreamingSpans.PairStreamed | packages/core/src/reasoning-blocks.ts:228-342 | The same for every cutting into chunks |
| StreamingSpans.Collect | packages/core/src/reasoning-blocks.ts:383-390 | Every character of a payload is appended to it in order, and nothing is said meanwhile |
| StreamingSpans.UnclosedSaysNothing | packages/core/src/reasoning-blocks.ts:324-379 | Outside a block an opener that is never closed swallows the rest of the text |
| StreamingSpans.DroppedPayload | packages/core/src/reasoning-blocks.ts:270-276 | A payload that is still open when its block ends, or the stream in it, is dropped: from there on everything is as if it had not begun |
| StreamingSpans.RestartedSpan | packages/core/src/reasoning-blocks.ts:278-298 | Another opener inside a block starts the payload anew, so its span is shorter than the text behind the first opener |
| StreamingSpans.ParsedIsPlain | packages/core/src/reasoning-blocks.ts:118-182 | What the one-shot parser reports outside a block lies where no block opens |
| StreamingRefinesBatch.MeaningIsBatch | packages/core/src/reasoning-blocks.ts:118-380 | From every cursor of a text without tool-call tags: streamed text and groups are the one-shot result, or an unclosed block is exactly the difference: one more group with its content, which the one-shot parser leaves in `stripped` |
| StreamingRefinesBatch.StreamingIsBatch | packages/core/src/reasoning-blocks.ts:118-380 | For every chunking of a text without tool-call tags and without openers of shadowed names, and all nonempty names, the streamed text equals `stripped` and the groups equal `blocks` if and only if the one-shot parser meets no unclosed block; else that block is exactly the difference |
| StreamingAgreement.AgreementExactly | packages/core/src/reasoning-blocks.ts:118-489 | For a prepared tag set: on all texts without tool-call tags and all cuts the two parsers agree exactly when every opened block is closed, if and only if no name is empty and none whose opener holds no tool-call tag is shadowed |
| StreamingAgreement.ShadowDiffers | packages/core/src/reasoning-blocks.ts:118-489 | Every such shadowed name gives a text, all blocks of it closed, and a cut of it on which the parsers differ |
| StreamingAgreement.EmptyNameDiffers | packages/core/src/reasoning-blocks.ts:118-380 | With any other set that holds an empty name the parsers differ on `<></>`: one closes its block, the other streams the closer as text or as an opener |
| StreamingAgreement.ToolFreeSteady | packages/core/src/reasoning-blocks.ts:118-489 | A text without tool-call tags opens no shadowed name unless the opener of one holds no tool-call tag itself |
| SkillRoundTrip.RoundTripExact | packages/core/src/skill-manifest.ts:222-406 | For every manifest and all instructions: rendering and parsing gives back the same manifest and instructions if and only if every printed text is trimmed, on one line and without `---`, no list item is empty, the manifest needs no default, uses nothing the printer drops and has only plain scalars, and the instructions are trimmed and hold no locale block |
| SkillRoundTrip.KeptIsClean | packages/core/src/skill-manifest.ts:222-406 | What comes back as it was holds only trimmed one-line texts, nonempty list items and trimmed instructions |
| SkillRoundTrip.PrintedManifest | packages/core/src/skill-manifest.ts:222-406 | A manifest with any one-line texts, trimmed or not, is read back field by field |
| SkillManifest.RoundTrip | packages/core/src/skill-manifest.ts:222-406 | For all those manifests and all trimmed instructions: exactly what comes back, field by field, defaults and coerced scalars included, or nothing when the name reads as false |
| SkillManifest.ReadBackExact | packages/core/src/skill-manifest.ts:238-271 | What comes back is the printed manifest exactly when it is canonical, each field with its own condition |
| SkillManifest.SavingSettles | packages/core/src/skill-manifest.ts:222-406 | On files: saving and loading twice reaches a manifest that a further round gives back unchanged; once is enough if and only if no lone category is in use |
| SkillManifest.ReadPrinted | packages/core/src/skill-manifest.ts:237-271 | Reading the fields that a manifest printed, whatever they are |
| SkillManifest.UnprintedKeys | packages/core/src/skill-manifest.ts:357-406 | The renderer never prints `requires`, `always` or `i18n`, so they cannot survive |
| SkillManifest.RenderSkillFile | packages/core/src/skill-manifest.ts:357-406 | The pushes and the final join print exactly the front-matter tree of the manifest, then the instructions |
| SkillManifest.ParseSkillFile | packages/core/src/skill-manifest.ts:222-280 | The steps of the parser compute the specification that the round trip and the reading law are stated about |
| SkillReading.FileMeans | packages/core/src/skill-manifest.ts:222-352 | For every hand-written tree of clean one-line keys and all trimmed instructions: the file is a skill exactly if something that counts stands under `name`, and then each part of the manifest, `requires`, `always` and `i18n` included, is what stands under its own key, lists as printed |
| SkillReading.GatesRead | packages/core/src/skill-manifest.ts:344-352 | The gates are the lists under `bins`, `env` and `tools` of `requires`, each from its own key, and nothing if there is no list |
| SkillReading.RequirementsRead | packages/core/src/skill-manifest.ts:334-342 | The same for `env`, `mcpServers` and `tools` of `config_requirements` |
| SkillReading.LocalesRead | packages/core/src/skill-manifest.ts:295-309 | Name, description and triggers of each locale come from under its own name in `i18n` |
| SkillReading.AlwaysRead | packages/core/src/skill-manifest.ts:259-259 | `always` is true exactly for the word true, bare or in quotes |
| SkillReading.CategoriesRead | packages/core/src/skill-manifest.ts:240-244 | The categories are the listed ones, else the lone category if it counts, else none |
| SkillReading.KeyRead | packages/core/src/skill-manifest.ts:757-900 | What is looked up under a key means what was written under it last: as it is, as a list, as a text |
| SkillReading.ScalarRead | packages/core/src/skill-manifest.ts:877-900 | Every written scalar is read as what it means: words for true, false and null, quoted texts, inline lists, and any other text as it is |
| SkillReading.FlowRead | packages/core/src/skill-manifest.ts:881-891 | An inline list of bare and quoted items gives exactly its items |
| SkillReading.NoFrontMatter | packages/core/src/skill-manifest.ts:226-230 | A text that does not begin with three dashes, or has none behind them, is no skill file |
| SkillReading.LeastIndent | packages/core/src/skill-manifest.ts:823-827 | A nested level is read at the smallest indentation above zero of its lines |
| SkillReading.CommentsChangeNothing | packages/core/src/skill-manifest.ts:762-794 | An empty line or a comment line anywhere in the front matter changes nothing that is read |
| SkillReading.PassedOver | packages/core/src/skill-manifest.ts:766-772 | Where a key is looked for, a line at another indentation, without a colon or beginning with one is passed over |
| LocaleBlocks.LocalesComeBack | packages/core/src/skill-manifest.ts:311-332 | For every text with any number of locale blocks, white space in their markers included: the texts of the English blocks come back under en, those of the Korean ones under ko, trimmed and in order with an empty line between, and everything else is the default text |
| LocaleBlocks.ExtractDoc | packages/core/src/skill-manifest.ts:318-326 | Taking the blocks of one locale out keeps everything else and gives their texts in order |
| LocaleBlocks.MarkerThere | packages/core/src/skill-manifest.ts:319-319 | A marker is found where it is written, with any white space around its name |
| LocaleBlocks.MarkerOnly | packages/core/src/skill-manifest.ts:319-319 | And what is found as a marker is written like one |
| LocaleBlocks.BlockOnly | packages/core/src/skill-manifest.ts:319-320 | A block reaches from its opening marker to the nearest closing one of its locale, and is none without |
| SkillFrontMatter.PrintedReadsBack | packages/core/src/skill-manifest.ts:226-237 | For every tree of clean one-line fields, to any depth, the printed file is read back as the values of the tree and the same instructions |
| SkillFrontMatter.PrintedReads | packages/core/src/skill-manifest.ts:226-237 | The same for texts with white space at their ends: the printed file is read one field after the other |
| SkillFrontMatter.FrontMatterOneLines | packages/core/src/skill-manifest.ts:226-237 | Whatever a file holds, no text read from its front matter contains a line break or `---` |
| SkillFrontMatter.ClosingLine | packages/core/src/skill-manifest.ts:229-232 | Searching for the closing `---` finds the printed closing line, wherever the values contain single or double dashes |
| SkillLocales.WholeWithoutBlocks | packages/core/src/skill-manifest.ts:311-332 | Instructions come back whole with no localized text if and only if they hold no locale block |
| SkillYaml.ReadFields | packages/core/src/skill-manifest.ts:757-875 | For every tree of scalars, lists and nested objects, reading its printed lines gives its values |
| SkillYaml.ReadKeyLine | packages/core/src/skill-manifest.ts:763-782 | A printed key line is read as its key and its trimmed text, at any indentation and for any text after the first colon |
| SkillYaml.ReadRaw | packages/core/src/skill-manifest.ts:757-875 | For every tree with clean keys, whatever its texts, reading its printed lines reads one field after the other |
| SkillYaml.ReadSame | packages/core/src/skill-manifest.ts:757-875 | Reading depends on nothing but the indentation and the trimmed text of each line |
| SkillYaml.PlainScalars | packages/core/src/skill-manifest.ts:877-900 | Exactly which scalars the reader leaves alone: not bracketed, not quoted, not true, false, null or a tilde |
| SkillYaml.ParseLevel | packages/core/src/skill-manifest.ts:761-816 | The line loop of one level computes the specified reading |
| SkillYaml.CollectBlock | packages/core/src/skill-manifest.ts:785-794 | The inner loop stops at the first line that is not indented deeper and keeps every line it does not skip |
| SkillYaml.ParseNestedYaml | packages/core/src/skill-manifest.ts:821-875 | A nested block is read at its smallest indentation, recursively |
| SkillYaml.ParseSimpleYaml | packages/core/src/skill-manifest.ts:757-819 | The front matter is read line by line from the left margin |
| IdempotencyStore.NoSecondGrant | packages/gateway/src/index.ts:1015-1060 | After a fresh claim no later claim or mark of the key is granted before its expiry, in any run without an unmark or a shorter poison of it and with fewer than maxEntries different new keys, however often each of them was recorded |
| IdempotencyStore.FreshExactly | packages/gateway/src/index.ts:982-1060 | In every store a claim is fresh exactly when its live entry has maxEntries live keys behind it, or without a live entry when no live poison marker blocks it |
| IdempotencyStore.MarkIsClaim | packages/gateway/src/index.ts:1015-1060 | Marking succeeds exactly when claiming would be fresh, and leaves the same store |
| IdempotencyStore.PoisonSetsExpiry | packages/gateway/src/index.ts:1067-1076 | After a key is poisoned, recorded or not, its next claim is fresh if and only if the poison has run out, while a recorded key has fewer than maxEntries keys behind it |
| IdempotencyStore.ShortPoisonFreesEarly | packages/gateway/src/index.ts:1067-1076 | A poison shorter than the claim frees the key early: a concrete run |
| IdempotencyStore.UnmarkKeepsPoison | packages/gateway/src/index.ts:1088-1092 | Unmarking a poisoned key never reopens it before the poison runs out, in any run that does not poison it for a shorter time |
| IdempotencyStore.SizeBounded | packages/gateway/src/index.ts:980-1013 | In every reachable state the entry map holds at most maxEntries + 1 keys |
| IdempotencyStore.PruneExact | packages/gateway/src/index.ts:980-1013 | An entry survives a prune exactly when it is live and fewer than maxEntries live keys were inserted behind it |
| IdempotencyStore.PruneKeeps | packages/gateway/src/index.ts:980-1013 | A prune changes no value, keeps every live young entry, and drops poison only when it is stale or its entry is evicted |
| IdempotencyStore.EvictDrops | packages/gateway/src/index.ts:1002-1012 | Eviction removes exactly the keys inserted first, with their poison markers, and keeps the order of the rest |
| IdempotencyLedger.AnswersAreLedgers | packages/gateway/src/index.ts:982-1103 | In every run with room for all keys, the answers about a key are those of a ledger of its two expiry times: they depend on the calls and their times alone |
| IdempotencyLedger.StepRecord | packages/gateway/src/index.ts:982-1103 | Every call makes of the record of a key what the ledger says, or of no record if its prune evicts the key, and answers accordingly |
| IdempotencyLedger.PrunedRecord | packages/gateway/src/index.ts:982-1013 | A prune drops what has expired of a record, and both parts of it when it evicts the key |
| IdempotencyLedger.CallsSetAnswers | packages/gateway/src/index.ts:1044-1103 | A fresh claim blocks its key exactly until its time runs out, unmarking frees it exactly if no poison blocks it, and both questions are answered accordingly |
| IdempotencyStore.InMemoryGatewayIdempotencyStore.Prune | packages/gateway/src/index.ts:982-1013 | The two sweeps and the eviction loop leave the specified store |
| IdempotencyStore.InMemoryGatewayIdempotencyStore.MarkIfAbsent | packages/gateway/src/index.ts:1015-1035 | New store and answer are the specified ones |
| IdempotencyStore.InMemoryGatewayIdempotencyStore.Claim | packages/gateway/src/index.ts:1044-1060 | New store and answer are the specified ones |
| IdempotencyStore.InMemoryGatewayIdempotencyStore.PoisonAfterProgress | packages/gateway/src/index.ts:1067-1076 | The marker is set and a held entry gets the same expiry, nothing else changes |
| IdempotencyStore.InMemoryGatewayIdempotencyStore.IsPoisoned | packages/gateway/src/index.ts:1078-1086 | A stale marker is dropped and reported as absent |
| IdempotencyStore.InMemoryGatewayIdempotencyStore.Has | packages/gateway/src/index.ts:1094-1103 | A stale entry is dropped and reported as absent |
| IdempotencyStore.InMemoryGatewayIdempotencyStore.Unmark | packages/gateway/src/index.ts:1088-1092 | Only the entry goes |
| AuthRateLimiter.NeverRateLimited | packages/gateway/src/index.ts:286-302 | In every reachable state the pre-emptive `rate-limited` denial is never given |
| AuthRateLimiter.ReachableInv | packages/gateway/src/index.ts:269-331 | In every run with a nondecreasing clock each failure list is ascending, in the past and shorter than maxAttempts |
| AuthRateLimiter.BansEscalateExactly | packages/gateway/src/index.ts:269-377 | For every run from every state within the cap, evictions and interleavings included: after each step the bans since the last success last min(maxBan, base), min(maxBan, 2 base) and so on and never overlap, if and only if no failure reaches the limit during a ban or after the ban was evicted, save where all bans are equally long and the evicted one is over |
| AuthRateLimiter.BansExactlyFromStart | packages/gateway/src/index.ts:244-377 | The same from a new limiter on |
| AuthRateLimiter.RoomyBansExactly | packages/gateway/src/index.ts:269-331 | With at most maxKeys IPs: bans escalate and never overlap throughout a run if and only if no failure reaches the limit while its IP is banned |
| AuthRateLimiter.BansEscalate | packages/gateway/src/index.ts:269-331 | So with at most maxKeys IPs and sequential use bans escalate and never overlap, in every run |
| AuthRateLimiter.BansEscalateFromStart | packages/gateway/src/index.ts:244-331 | The same from a new limiter on |
| AuthRateLimiter.BansTakeTime | packages/gateway/src/index.ts:317-323 | So that many bans take at least the sum of their lengths |
| AuthRateLimiter.ActiveBanNotShortened | packages/gateway/src/index.ts:269-331 | Under any interleaving an active ban ends no earlier after a step, unless the step is a success, a reset or evicts it |
| AuthRateLimiter.InterleavedBansOverlap | packages/gateway/src/index.ts:269-325 | Two checks admitted before either fails give overlapping bans: a concrete run |
| AuthRateLimiter.FailedRoomy | packages/gateway/src/index.ts:307-325 | Without eviction a recorded failure bans the IP one level up exactly when it fills the window, and changes no other ban |
| AuthRateLimiter.AskedRoomy | packages/gateway/src/index.ts:269-304 | Without eviction the check denies exactly during an active ban, and otherwise only marks a passed ban as lifted |
| AuthRateLimiter.NewestRunIsWindow | packages/gateway/src/index.ts:344-355 | On an ascending list, counting back from the newest failure counts what the window retains |
| AuthHistory.BansAtLimit | packages/gateway/src/index.ts:307-325 | After every run with a clock: a failure bans its IP, one level up and from now on, if and only if with it maxAttempts failures of the IP lie in the window, counted from the calls alone; otherwise it changes no ban |
| AuthHistory.LedgerKept | packages/gateway/src/index.ts:269-377 | In every run the stored lists are the recent parts of the ledger that the calls alone define, for the same IPs in the same order |
| AuthHistory.FailureCountExact | packages/gateway/src/index.ts:344-355 | The reported failure count is the number of failures in the window, counted from the calls alone |
| AuthHistory.BansDouble | packages/gateway/src/index.ts:317-323 | The first ban lasts the base and each later one twice the one before, up to the maximum |
| AuthHistory.ClampExact | packages/gateway/src/index.ts:256-262 | Options within bounds are taken as they are, others replaced by their bound |
| AuthHistory.RetryAfterExact | packages/gateway/src/index.ts:269-304 | A denied check reports the least number of whole seconds that outlasts the ban |
| AuthRateLimiter.WsAuthRateLimiter.constructor | packages/gateway/src/index.ts:256-262 | The options are clamped and both maps are empty |
| AuthRateLimiter.WsAuthRateLimiter.BeforeAuth | packages/gateway/src/index.ts:269-304 | New state and decision are the specified ones |
| AuthRateLimiter.WsAuthRateLimiter.RecordFailure | packages/gateway/src/index.ts:307-325 | The new state is the specified one |
| AuthRateLimiter.WsAuthRateLimiter.RecordSuccess | packages/gateway/src/index.ts:328-331 | Failures and level of this IP are forgotten, nothing else |
| AuthRateLimiter.WsAuthRateLimiter.ResetAll | packages/gateway/src/index.ts:334-337 | Everything is forgotten |
| AuthRateLimiter.WsAuthRateLimiter.EvictIfNeeded | packages/gateway/src/index.ts:358-377 | Both maps lose exactly the keys inserted first beyond the cap |
| AuthRateLimiter.WsAuthRateLimiter.GetFailureCount | packages/gateway/src/index.ts:345-355 | The number of newest failures in a row inside the window |
| PlatformRateLimiter.WindowLimit | packages/gateway/src/platform-rate-limiter.ts:45-66 | For every run with a nondecreasing clock and every time t, at most the limit of sends is granted in (t - 60000, t] |
| PlatformRateLimiter.ExactDecision | packages/gateway/src/platform-rate-limiter.ts:45-83 | A send is granted exactly when fewer than the limit were granted in the last minute; remaining is exactly what is left; a check succeeds exactly when something remains |
| PlatformRateLimiter.RunInvariant | packages/gateway/src/platform-rate-limiter.ts:24-66 | The stored stamps are the recent part of the grant history and everything missing from them is a minute old |
| PlatformRateLimiter.GrantKeepsLimit | packages/gateway/src/platform-rate-limiter.ts:59-65 | Granting with room in the last minute keeps every window within the limit, future ones included |
| TimeWindow.PruneRecent | packages/gateway/src/platform-rate-limiter.ts:34-42 | Pruning keeps exactly the events that lie in the window |
| PlatformRateLimiter.RateLimiter.PruneExpired | packages/gateway/src/platform-rate-limiter.ts:34-42 | The search and the splice drop exactly the expired front |
| PlatformRateLimiter.RateLimiter.Check | packages/gateway/src/platform-rate-limiter.ts:45-66 | New stamps and answer are the specified ones |
| PlatformRateLimiter.RateLimiter.Remaining | packages/gateway/src/platform-rate-limiter.ts:74-83 | New stamps and answer are the specified ones |
| KeyPool.LeastUsedFair | packages/gateway/src/credential-pool.ts:117-145 | Under least_used, keys never rotated in a run stay within one use of each other, whatever else the run reports about them: another status, or the name of a later duplicate |
| KeyPool.RoundRobinFair | packages/gateway/src/credential-pool.ts:103-116 | Between two successive picks of a key every other key that stays usable is picked at least once, and exactly once if and only if no pick in between walks past the first key, as when that key stays usable too |
| KeyPool.RotationBreaksExactlyOnce | packages/gateway/src/credential-pool.ts:103-153 | When the key itself is rotated and cleared in between, another key is picked twice: a concrete run |
| KeyPool.RotatedNeverPicked | packages/gateway/src/credential-pool.ts:138-153 | A rotated key is never picked until its rotation is cleared, however much time passes |
| KeyPool.BetweenPicks | packages/gateway/src/credential-pool.ts:103-116 | From any cursor position: how often one key is picked before the next pick of another, with the exact condition for once and for not at all |
| KeyPool.PickUsable | packages/gateway/src/credential-pool.ts:88-131 | A pick succeeds exactly when some key is usable, and takes a usable one |
| KeyPool.BestIsPreferred | packages/gateway/src/credential-pool.ts:119-125 | The reduction finds the one usable key that is preferred to every other |
| KeyPool.NextIsNearest | packages/gateway/src/credential-pool.ts:107-115 | The walk finds the usable key nearest after the cursor |
| KeyPool.CountsAddUp | packages/gateway/src/credential-pool.ts:94-101 | Rotated, cooling and usable keys add up to all keys |
| KeyHistory.KeyAfter | packages/gateway/src/credential-pool.ts:88-153 | What any history of calls leaves of a key: a use for every pick that took it, the time of the last one, and out of rotation exactly if a 401 or 403 took it out and no clearing followed, with the cooldown from the last of these |
| KeyHistory.LastAfter | packages/gateway/src/credential-pool.ts:127-130 | The time kept for a key is that of the last pick that took it |
| KeyHistory.StepOnKey | packages/gateway/src/credential-pool.ts:88-153 | What one call does to each key: only the picked key gains a use, only the first key of the name is taken out or back |
| KeyHistory.ChoiceExactly | packages/gateway/src/credential-pool.ts:103-131 | A pick takes the key with the fewest uses, then the longest idle, then the first; or the next one from the cursor around the list; and none only when no key can serve |
| KeyHistory.CursorMoves | packages/gateway/src/credential-pool.ts:103-116 | Behind a round-robin pick the cursor stands at the next place, behind a least-used one where it stood |
| KeyHistory.CountsAre | packages/gateway/src/credential-pool.ts:94-101 | An exhausted pool reports how many keys are out of rotation and how many others cool down |
| KeyPool.ProviderKeyPool.Pick | packages/gateway/src/credential-pool.ts:88-131 | The new pool is the specified one; an exhausted pool stays as it is and reports the counts of its rotated and cooling keys |
| KeyPool.ProviderKeyPool.WalkFrom | packages/gateway/src/credential-pool.ts:107-115 | The loop finds the specified key |
| KeyPool.ProviderKeyPool.Reduce | packages/gateway/src/credential-pool.ts:119-125 | The reduction finds the specified key |
| KeyPool.ProviderKeyPool.MarkRotated | packages/gateway/src/credential-pool.ts:138-145 | Only status 401 and 403 rotate, and only the first state with that key |
| KeyPool.ProviderKeyPool.ClearRotation | packages/gateway/src/credential-pool.ts:148-153 | The first state with that key becomes usable at once |
| KeyPool.ProviderKeyPool.ActiveCount | packages/gateway/src/credential-pool.ts:156-159 | How many keys are usable |
| ConcurrencyGate.GateGuarantees | packages/gateway/src/runner.ts:30-65 | In every interleaving: active never exceeds the limit, which is one or the greatest whole number up to the maximum, starts follow the order of submission, submitted = queued + active + finished, and a task waits only while all slots are taken |
| ConcurrencyGate.RunInv | packages/gateway/src/runner.ts:30-65 | The invariant behind it is kept by every run of submissions and completions |
| ConcurrencyGate.SomethingRuns | packages/gateway/src/runner.ts:37-41 | While work is outstanding some task runs, so no queued task is stranded |
| ConcurrencyGate.CompletionsDrain | packages/gateway/src/runner.ts:45-61 | As many completions as there is outstanding work, in any order, finish everything |
| ConcurrencyGate.ConcurrencyLimiter.Enter | packages/gateway/src/runner.ts:43-64 | A submission starts at once exactly when a slot is free, else it queues |
| ConcurrencyGate.ConcurrencyLimiter.Begin | packages/gateway/src/runner.ts:45-46 | A start takes a slot |
| ConcurrencyGate.ConcurrencyLimiter.Settle | packages/gateway/src/runner.ts:49-60 | A completion frees its slot and starts the head of the queue |
| ConcurrencyGate.ConcurrencyLimiter.StartNext | packages/gateway/src/runner.ts:37-41 | Nothing happens while the gate is full or the queue is empty |
| AgentLoop.CallBound | packages/core/src/index.ts:1965-2408 | Whatever providers, plugins and tools do: at most 1 + (N + 2)(1 + R) generate calls, P(D + 1) attempts in each, N iterations and one fetch for each |
| AgentLoop.CallBoundReached | packages/core/src/index.ts:1965-2408 | One world reaches all of these bounds at once: a first overflow that recovers, answers in the last slot only, every answer dropped, and a synthesis |
| AgentLoop.StreakEndsRun | packages/core/src/index.ts:2203-2245 | The first iteration in which a streak reaches the limit is the last and no in-loop fetch follows; the run reports the streak except that a synthesis overwrites it exactly when that iteration used up the iteration budget |
| AgentLoop.RunAdmitted | packages/core/src/index.ts:2017-2053 | Iterations run only while not aborted and within the token budget, in order, and a synthesis happens only on exhaustion |
| AgentRuns.ToolErrorsEndRun | packages/core/src/index.ts:2247-2267 | If an iteration fails, the run stops on tool errors, and reflection is off or as many iterations failed before it as reflections are allowed, then it is the last one and nothing is fetched behind it; and an iteration is without a fetch behind it only for this reason or a streak |
| AgentRuns.RunLog | packages/core/src/index.ts:1965-2408 | Every run, answer by answer: from the first fetch on each iteration but the last was let in, called its tools without ending the loop and fetched the next answer, and the last one ends the run in exactly the way stated, told without the counters |
| AgentRuns.SynthesisExactly | packages/core/src/index.ts:2363-2408 | A run reports a synthesis exactly when one is wanted and comes, and the token budget ran out or the last permitted iteration left an answer that asks for tools |
| AgentRuns.FirstFetchRecovers | packages/core/src/index.ts:1965-1991 | The first fetch is one like any other unless it overflows the context and compaction helps: then the call is made once more, and if it fails too the overflow is what is reported |
| AgentRuns.CallTries | packages/core/src/index.ts:1134-1209 | The attempts of a provider call one by one: a failure is repeated while it is retryable and retries are left, else the next provider is asked, and how the call ends |
| AgentRuns.FetchAnswers | packages/core/src/index.ts:1532-1635 | Every dropped response is fetched anew, the first verdict that is none decides, and a dropped one is kept only when the retries are used up |
| AgentLoop.FallbackBound | packages/core/src/index.ts:1134-1209 | At most one attempt per provider and retry slot, every attempt before the answer failed, and the error thrown is the last one |
| AgentLoop.FallbackBoundReached | packages/core/src/index.ts:1134-1209 | The bound is reached when every attempt fails retryably |
| AgentLoop.PipelineWithin | packages/core/src/index.ts:1532-1615 | The refetch loop makes at most R generate calls |
| AgentLoop.Run | packages/core/src/index.ts:1965-2408 | The loop with its counters, flags and early exits computes exactly the specified run |
| AgentLoop.GenerateWithFallbacks | packages/core/src/index.ts:1134-1209 | The provider loop and its retry loop compute the specified outcome and number of attempts |
| AgentLoop.ApplyOutputPipeline | packages/core/src/index.ts:1532-1635 | The refetch loop computes the specified outcome and number of calls |
| AgentLoop.FirstFetch | packages/core/src/index.ts:1965-1991 | The first fetch retries once after a context overflow, and throws the first error when that fails |
| AgentLoop.Fetch | packages/core/src/index.ts:2320-2340 | A generate call and the pipeline behind it |
| AgentLoop.ReactToErrors | packages/core/src/index.ts:2247-2267 | A failing iteration is reflected on while reflections are left, else it stops the loop if so configured |
| AgentLoop.PartitionToolCallsBySafety | packages/core/src/index.ts:1292-1314 | Every call lands in exactly one part, destructive ones and no others in theirs, each part in call order; no partition without annotations |
| AgentLoop.PartsCoverCalls | packages/core/src/index.ts:1292-1314 | The two parts hold every call exactly once |
| AgentLoop.PartKeepsOrder | packages/core/src/index.ts:1292-1314 | The calls of a part stand at ascending places of the list |
| FailureStreaks.CounterIsStreak | packages/core/src/index.ts:2203-2235 | After every iteration the counter of a pair that shares its key with none is the number of its failures since the tool last succeeded; for the empty name, which is never reset, the number of all its failures |
| FailureStreaks.CountedRightExactly | packages/core/src/index.ts:2203-2235 | A tool and code are counted right in every history if and only if the tool name is not empty and neither holds a vertical bar |
| FailureStreaks.PlainToolsExactly | packages/core/src/index.ts:2203-2235 | With plain names beside it, a tool is counted right for all codes if and only if its name is not empty and holds no vertical bar |
| FailureStreaks.EmptyNameUntilSuccess | packages/core/src/index.ts:2230-2235 | The empty name is counted right until it first succeeds |
| FailureStreaks.CounterIsKeyStreak | packages/core/src/index.ts:2203-2235 | Whatever the names, a counter is the number of failures under its key since the last iteration in which the tool before its first vertical bar succeeded |
| FailureStreaks.TerminalByKey | packages/core/src/index.ts:2208-2227 | In every history the loop ends exactly after an iteration in which a failing result finds its key at the limit |
| FailureStreaks.TerminalMeansStreak | packages/core/src/index.ts:2208-2227 | When no failing pair of the iteration shares its key, the loop ends exactly after an iteration in which some tool stands at the limit of failures for one code |
| FailureStreaks.ReachedIffCounter | packages/core/src/index.ts:2213-2226 | The limit was reached while counting exactly when some failing result stands at it afterwards |
| FailureStreaks.ToolOfKey | packages/core/src/index.ts:2214-2234 | Cutting a counter key at its first vertical bar gives back the tool exactly when its name has none |
| FailureStreaks.PipeInNameConfusesTools | packages/core/src/index.ts:2214-2234 | A name with a vertical bar shares its counter with another tool: a concrete history |
| FailureStreaks.UpdateStreaks | packages/core/src/index.ts:2207-2235 | The counting loop and the resetting loop make the specified update and find the specified limit |
| FailureStreaks.CountFailures | packages/core/src/index.ts:2207-2227 | The first loop counts failures, collects successes and detects the limit |
| FailureStreaks.ForgetSucceeded | packages/core/src/index.ts:2230-2235 | The second loop drops exactly the counters of tools that succeeded |
| SummaryMerge.MergeAssociative | packages/core/src/structured-compression.ts:164-190 | Merging is associative, as exact sequences in all five lists |
| SummaryMerge.MergeAgain | packages/core/src/structured-compression.ts:164-190 | Merging a summary that already went in, on either side, changes nothing |
| SummaryMerge.MergeNothing | packages/core/src/structured-compression.ts:164-190 | The empty summary is neutral on everything a merge has produced |
| SummaryMerge.DedupeOpen | packages/core/src/structured-compression.ts:174-181 | Removing duplicates commutes with dropping resolved items |
| SummaryMerge.OpenTwice | packages/core/src/structured-compression.ts:171-181 | Dropping with fewer resolved items first changes nothing |
| SummaryMerge.MergeHolds | packages/core/src/structured-compression.ts:164-190 | In every list the items of both summaries, existing before incoming, each once at its first place; of pending items and remaining work exactly those that neither hold nor are held in a resolved item |
| SummaryMerge.CompressWithStructure | packages/core/src/structured-compression.ts:192-261 | Exactly the protected head and tail stay, the summary replaces a nonempty middle, and short conversations stay as they are |
| CheckpointStore.RunRefines | packages/core/src/checkpoint.ts:69-159 | After every run of saves under fresh ids, deletes and session deletes, the two maps stand for one list in save order: a suffix of the undeleted saves within the cap |
| CheckpointStore.NewestExactly | packages/core/src/checkpoint.ts:77-159 | The store holds the newest undeleted saves throughout a run if and only if every delete of it hits nothing that is held or everything that was evicted, read off the state before the delete |
| CheckpointStore.EvictionIsFinal | packages/core/src/checkpoint.ts:77-93 | Deleting the newer checkpoint does not bring the evicted one back: a concrete run |
| CheckpointStore.IndexIsFullScan | packages/core/src/checkpoint.ts:101-115 | The index finds for every session exactly what a scan of the whole store finds, in save order |
| CheckpointStore.StableSortCorrect | packages/core/src/checkpoint.ts:112-114 | Listing is sorted by iteration and keeps save order within an iteration |
| CheckpointStore.LatestIsLast | packages/core/src/checkpoint.ts:117-134 | The latest checkpoint is the last one listed |
| CheckpointStore.SaveNeedsFreshId | packages/core/src/checkpoint.ts:69-76 | Index and map stay in step after a save if and only if its id is not held |
| CheckpointStore.SaveRefines | packages/core/src/checkpoint.ts:69-94 | Saving under a fresh id appends, and drops the oldest beyond the cap |
| CheckpointStore.DeleteRefines | packages/core/src/checkpoint.ts:136-148 | Deleting removes exactly that checkpoint and says whether it was there |
| CheckpointStore.DeleteSessionRefines | packages/core/src/checkpoint.ts:150-159 | Deleting a session removes exactly its checkpoints and counts them |
| CheckpointStore.RestoreExact | packages/core/src/checkpoint.ts:179-243 | A restore from a checkpoint, with or without a cursor, yields the messages at save time if and only if the live history was cut short or only grew, else as many live messages |
| CheckpointStore.DiffCompletes | packages/core/src/checkpoint.ts:246-262 | The diff completes the earlier messages to the later ones if and only if history only grew, and is always as many messages from the end as there are more of them |
| CheckpointStore.InMemoryCheckpointStore.Save | packages/core/src/checkpoint.ts:69-94 | The new maps are the specified ones, and stand for the specified list when the id is fresh |
| CheckpointStore.InMemoryCheckpointStore.Get | packages/core/src/checkpoint.ts:96-99 | The checkpoint of the represented list with this id, or nothing exactly when the list has none |
| CheckpointStore.InMemoryCheckpointStore.Collect | packages/core/src/checkpoint.ts:107-111 | The checkpoints behind a list of ids, unknown ids skipped |
| CheckpointStore.InMemoryCheckpointStore.ListBySession | packages/core/src/checkpoint.ts:101-115 | The stable sort of what the index finds, and so of the session's checkpoints in the represented list |
| CheckpointStore.InMemoryCheckpointStore.GetLatest | packages/core/src/checkpoint.ts:117-134 | The checkpoint that would be listed last, unless its id is the empty text |
| CheckpointStore.InMemoryCheckpointStore.ScanLatest | packages/core/src/checkpoint.ts:121-130 | The scan finds the last checkpoint with the highest iteration |
| CheckpointStore.InMemoryCheckpointStore.Delete | packages/core/src/checkpoint.ts:136-148 | New maps and answer are the specified ones |
| CheckpointStore.InMemoryCheckpointStore.DeleteBySession | packages/core/src/checkpoint.ts:150-159 | New maps and count are the specified ones |
| MessageSplit.ChunksCover | packages/gateway/src/index.ts:1691-1714 | The text is the chunks in order with newline runs, and nothing else, dropped at the cuts |
| MessageSplit.SplitCovers | packages/gateway/src/index.ts:1691-1714 | The same of a whole message, for which there is always a chunk, the empty text included |
| MessageSplit.ChunkSizes | packages/gateway/src/index.ts:1691-1714 | Every chunk has 1 to maxLength characters and every chunk but the last at least three tenths of it |
| MessageSplit.ChunkCount | packages/gateway/src/index.ts:1691-1714 | So the number of chunks is bounded by the length of the text |
| MessageSplit.ChunkStarts | packages/gateway/src/index.ts:1710-1711 | The first chunk begins the text, and no later chunk begins with a line break |
| MessageSplit.CutIsBest | packages/gateway/src/index.ts:1700-1709 | The cut is the last paragraph break from three tenths of the maximum on, without one the last such line break, without one the maximum |
| MessageSplit.ZeroMakesNoProgress | packages/gateway/src/index.ts:1695-1712 | With a maximum of zero the loop repeats forever on every text that is more than newlines |
| MessageSplit.SplitTelegramMessage | packages/gateway/src/index.ts:1691-1714 | On every input on which the loop ends, a maximum of zero included, it produces the specified chunks |
| MessageSplit.FindCut | packages/gateway/src/index.ts:1700-1709 | The two searches and the forced cut |
| AddressMatch.GroupsMatchIsPrefix | packages/core/src/security.ts:87-101 | For every prefix length the group-wise comparison with its mask is equality of that many leading bits of the 128-bit numbers (section 2.3 of RFC 4291) |
| AddressMatch.Mask32ComparesQuotients | packages/core/src/security.ts:116-117 | For every prefix length the masked IPv4 comparison is equality of the quotients by 2^(32-p) (section 3.1 of RFC 4632) |
| AddressMatch.ExpandFull | packages/core/src/security.ts:62-85 | Eight written groups expand to their values |
| AddressMatch.ExpandCompressed | packages/core/src/security.ts:62-85 | A `::` between at most seven written groups expands to them with zero groups in between |
| AddressMatch.OneGap | packages/core/src/security.ts:65-67 | The gap is found where it is, and there is no other |
| AddressMatch.ExpandIpv6 | packages/core/src/security.ts:62-85 | The result is eight 16-bit groups or nothing |
| AddressPrint.WrittenPrefix | packages/core/src/security.ts:62-101 | An entry lets in exactly the written addresses whose first p bits are those of its base, bit by bit and as numbers, however both are written: full or with `::`, one to four digits, either letter case |
| AddressPrint.DottedPrefix | packages/core/src/security.ts:50-119 | A dotted entry lets in exactly the dotted addresses whose words agree in their first p bits |
| AddressPrint.HexReadBack | packages/core/src/security.ts:69-84 | Printing a number in hexadecimal digits of either case and reading it back gives the number |
| AddressPrint.SameHexNumber | packages/core/src/security.ts:69-84 | Two groups of equally many digits have the same value exactly when they are the same up to letter case |
| AddressPrint.DecimalReadBack | packages/core/src/security.ts:50-60 | The same for decimal digits |
| AddressPrint.DottedWord | packages/core/src/security.ts:50-60 | A dotted address stands for its octets, the first one most significant, and a larger octet is refused |
| AddressPrint.AddressReadBack | packages/core/src/security.ts:62-85 | A written address expands to exactly its groups |
| AddressSyntax.AcceptsExactly | packages/core/src/security.ts:62-85 | A text is read as an IPv6 address exactly when it is made of colons and runs of one to four hexadecimal digits, eight of them, or at most seven and a single `::` |
| AddressSyntax.Ipv4Exactly | packages/core/src/security.ts:50-60 | A text is read as an IPv4 address exactly when it is four octets between dots |
| AddressMatch.WordInjective | packages/core/src/security.ts:50-60 | Different octets give different words |
| AddressMatch.Ipv4ToInt | packages/core/src/security.ts:50-60 | The shifting loop in a 32-bit word yields the word of four decimal octets, and nothing for any other text |
| AddressMatch.Ipv6MatchesCidr | packages/core/src/security.ts:87-101 | True exactly when both texts expand and the leading bits agree |
| AddressMatch.CompareGroups | packages/core/src/security.ts:91-100 | The loop over full groups and the masked last group decide the comparison |
| AddressMatch.MatchesCidr | packages/core/src/security.ts:112-119 | Two IPv4 texts are compared by quotient, everything else as IPv6 |
| BitMath.MaskComparesQuotients | packages/core/src/security.ts:99-117 | Two numbers agree under a prefix mask exactly when they agree without their low bits |
| BitMath.ShiftedOnes | packages/core/src/security.ts:99-116 | Shifting all ones left inside a word leaves a prefix mask |
| PairSplit.Split | packages/core/src/compression-utils.ts:40-96 | The loops compress exactly the messages between the kept prefix and the kept rest of the specification |
| PairSplit.NothingLostNothingTorn | packages/core/src/compression-utils.ts:33-96 | One stretch of messages is compressed, what is before and behind it is kept in order, both halves of every pair are on the same side, and with N above zero the leading system messages and the last N behind them are kept, N + 1 when a pair would be torn; else only a pair at the very end |
| PairSplit.SplitKeepingNone | packages/core/src/compression-utils.ts:44-58 | With nothing to keep only a pair at the very end is kept |
| PairSplit.ExpandBoundary | packages/core/src/compression-utils.ts:77-89 | The boundary moves by one exactly when a pair crosses it |
| PairSplit.SkipSystem | packages/core/src/compression-utils.ts:60-68 | The loop stops behind the leading system messages |
| PairSplit.IdentifyToolPairs | packages/core/src/compression-utils.ts:14-31 | Exactly the positions of an assistant message directly followed by a tool message, in order |
| PairSplit.ChildKeepsKept | packages/core/src/compression-utils.ts:149-174 | The child session holds every kept message, the summary and the first system message, each once |
| PairSplit.ChildOrder | packages/core/src/compression-utils.ts:149-174 | The child session is the first system message, the summary, then the kept messages in order without that system message |
| PairSplit.BuildChild | packages/core/src/compression-utils.ts:149-174 | The pushes build the specified child |

## Left out

- StreamingRefinesBatch.StreamingIsBatch: is stated for texts without tool-call tags, because the stripped text keeps them and the stream does not (packages/core/src/reasoning-blocks.ts:133-149 against 329-342); on those, `AgreementExactly` says for exactly which names it holds, and `StreamedCallsExactly` compares the tool calls of all texts.
- StreamingSpans.StreamedCallsExactly: one direction assumes names without `<` and `/`, because another opener can reach into a tool-call closer.
- SkillReading.FileMeans: is stated for trees printed with two spaces of indentation; `LeastIndent`, `CommentsChangeNothing` and `PassedOver` say how other lines are taken.
- LocaleBlocks.LocalesComeBack: assumes that no other comment begins in the text or comes about when the English blocks are taken out; `MarkerOnly` and `BlockOnly` have no such condition.
- IdempotencyLedger.AnswersAreLedgers: assumes room for all keys of the run; `StepRecord` says for every store what an eviction changes.
- StreamingScan.ChunkInvariance: assumes that the text opens no shadowed name and closes none that the tool-call name shadows; `InvariantExactly` shows that over all texts unshadowed names are exactly what it takes.
- StreamingScan.RunShape: assumes that no tag name is empty; `RunShapeExactly` shows that this is exactly what it takes.
- IdempotencyStore.NoSecondGrant: excludes a poison of the same key that ends before the claim does, and runs with maxEntries different new keys; `FreshExactly` says for every store when a claim is fresh.
- AuthRateLimiter.BansEscalate: assumes at most maxKeys IPs and one recorded failure for each admitted check; `BansEscalateExactly` has neither condition and is exact.
- FailureStreaks.CounterIsStreak: assumes a tool name without a vertical bar, and no bar in its code or in the other names; `CounterIsKeyStreak` says what is counted otherwise, and `CountedRightExactly` when that is the streak.
- FailureStreaks.TerminalMeansStreak: assumes the same of the failing pairs of the last iteration; `TerminalByKey` has no such condition.
- SkillManifest.RoundTrip: assumes texts that are trimmed, on one line and without `---`; `RoundTripExact` shows that no other text survives.
- SkillManifest.SavingSettles: assumes scalars that read as their text, because a scalar that reads as something else is no text to save again.
- KeyPool.RoundRobinFair: speaks of keys that are usable at every pick; a key that is not may be skipped in any round.
- KeyPool: duplicate keys are allowed, but a rotation marks only the first state with the key, as in the source.
- Letter case: lower-casing is modelled for ASCII letters only; a character is one Dafny `char`, so surrogate pairs count as the code points they stand for.
- Numbers: times, limits and ban lengths are integers of any size; fractional milliseconds, infinities and NaN, and the rounding of very large doubles are not modelled. The gate takes any real maximum.
- Object prototypes: keys such as `__proto__` in a front matter, or `constructor` as a platform name, behave like any other key.
- Address normalization (packages/core/src/security.ts:44-48) and entries without a prefix length: regular expressions and text equality; the models start from normalized addresses.
- The dead branch of the final drain that emits a left-over buffer (packages/core/src/reasoning-blocks.ts:361-370) is not modelled; the sweep always reaches the end of the buffer.
- `filterAndBudgetSkills`, gate checks, manifest validation, skill matching and directory loading: sorting by locale, a prefix sum and single-branch tests.
- `localizeSkillFile` and content hashes: field selection and a foreign digest.
- The text extraction heuristics of structured compression and of the preflight facts: regular expressions over prose.
- Tool results after the first one that follows an assistant message: only the first is paired, so a whole group may be separated.
- Steers drained in an iteration that then ends the loop, and the pending queue that a saved session carries over: message delivery is not part of the loop model.
- `runStreaming`, plugin hooks, audit records, events, message texts, usage accounting and in-loop compression of messages.
- The copies that checkpoints make of messages and tool results: messages are values here, so aliasing is not modelled.
- Random ids, wall-clock time, jitter, hashing, HTTP, chat platforms, the command line and all storage on disk.
- Regular-expression tables for commands, credentials and personal data; access lists, personas, presets, cost tracking and metrics.
