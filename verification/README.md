# Verified models of open-grok's stateful cores

This project models the parts of open-grok that rewrite chat histories, and four smaller
stateful components, in Dafny 4.11, and proves what they promise. `dafny verify dfyconfig.toml`
checks all of it.

## What is modelled

- **Tool pairing and repair** (`Conversation`, `ToolPairing`, `Repair`, `RepairedRuns`,
  `RepairTwice`, `RepairPasses`): the passes that keep every tool result after the call it answers.
  Stripping and sanitizing are shown to be the largest paired sub-histories; repair is shown to be a
  run-by-run transformation that keeps exactly the last answers and fills in the missing ones, with
  an exact condition for idempotence. The two decoders of provider ids are arbitrary functions.
- **Truncation under a budget** (`Utf8`, `Budget`, `TailUnit`, `FitTwice`, `RemoteTail`,
  `RetainedMessages`): the UTF-8 byte truncator refined to bytes, the ordered text-and-image cut,
  fitting a conversation to a token budget, and the newest-user tail of remote compaction.
- **Text envelopes** (`Strings`, `Query`, `TagBlocks`, `UserTurns`, `Summary`, `SummaryCases`,
  `ImageFiles`, `ImageHarvest`): query wrapping, the summary cleaner, and the printer and parser of
  `<image_files>` blocks.
- **Compaction** (`Compaction`, `CompactedLayout`, `CompactionChain`): state capture, the layout of
  the compacted history and the text of its summary, and what survives any number of compactions.
- **Image budget** (`ImageBudget`, `Json`, `ImageEviction`, `ImagePolicy`): serialized sizes, shown
  to be the lengths of JSON texts (section 7 of RFC 8259), the fast measure, the in-place
  oldest-first evictor, and the policy over growing histories.
- **String interner** (`Interner`), **line reader** (`LineReader`, `LineProtocol`), **terminal
  waits** (`WaitProtocol`), **index events** (`Coalescing`, `IndexManager`, `IndexEffects`).

Code that updates things in place is a class, an array method or a loop, proved against a
specification function; the properties are lemmas about those functions. Concurrent code is a state
machine, and a run is any list of actions, so every interleaving is covered.

Texts are sequences of Unicode scalar values, and byte counts are taken of their UTF-8 encoding
(section 3 of RFC 3629). Integers are unbounded except where the source casts them (the interner).

## Where the code does less than its documentation says

1. The compaction crate reads result ids with the custom-call decoder only, while calls are read with
   both decoders. A result under a Codex-enveloped id is therefore judged an orphan
   (`Repair.CodexResultReplaced`, `Repair.StoredAnswersAdjacentIff`).
2. `repair_history` is documented as idempotent. Repairing twice gives other items for an assistant that
   declares one id twice (`RepairTwice.RepeatedCallIdNotIdempotent`); `RepairTwice.RepairIdempotentIff` is
   the exact condition. Whether the second report is clean is a different question, answered exactly by
   `Repair.SecondReportCleanIff`.
3. A user query that mentions the closing wrapper tag is cut when it is carried over
   (`Query.PlainClosingTagIsCut`); `Query.ExtractReturnsExactlyCarriable` is the exact condition.
4. The reclaim target is documented to keep the request prefix stable for many turns after an eviction.
   Requests are built from the stored history, which is never evicted, so the prefix changes as soon as
   the small rest below the target is used up (`ImagePolicy.PrefixKeptIff`,
   `ImagePolicy.AppendAboveTargetRewrites`), under every request cap (`ImagePolicy.HysteresisIsLost`).
5. Strings of 65536 bytes or more lose their tail in the interner and are never found again
   (`Interner.NewStringReadsBackIff`, `Interner.LongStringNeverFound`, `Interner.LongStringInternedAgain`).
6. The line reader is documented to suspend only where a reader has its newline. After a last line
   without newline it can suspend too (`LineProtocol.SuspendsInsideLineIff`).
7. A resize cannot announce its change of the grid once the feeder is gone, even if the change came
   first (`WaitProtocol.ResizeRacingExitIsMissed`); `WaitProtocol.EndedUnmetIff` is the exact condition for
   an `ended` wait to be right.
8. Modifying and then removing an indexed file within one batch leaves its old entry
   (`Coalescing.RemovedFileStaysIndexed`); `Coalescing.CoalescedIffNothingStale` is the exact condition.

## Model

| member | source | states |
|---|---|---|
| `ToolPairing.StripDisplacedToolResults` | crates/codegen/xai-chat-state/src/compaction_utils.rs:1482-1509 | The in-place retain loop keeps exactly what the pairing scan keeps, and reports exactly the ids it drops. |
| `ToolPairing.SanitizeCompactedHistory` | crates/codegen/xai-chat-state/src/compaction_utils.rs:1402-1430 | The same for outputs that only need an earlier declaring assistant. |
| `ToolPairing.ValidateCompactedHistory` | crates/codegen/xai-chat-state/src/compaction_utils.rs:1365-1385 | Reports exactly the ids sanitize strips, and nothing if and only if every output follows an assistant that declares its id. |
| `ToolPairing.OpenIdsMeaning` | crates/codegen/xai-chat-state/src/compaction_utils.rs:1485-1500 | The running id set holds an id exactly when some assistant in the right place declares it. |
| `ToolPairing.PairedIffConforms` | crates/codegen/xai-chat-state/src/compaction_utils.rs:1482-1509 | Pairing as a relation between positions is equivalent to acceptance of every prefix by the scan. |
| `ToolPairing.StripIsLargestAdjacent` | crates/codegen/xai-chat-state/src/compaction_utils.rs:1482-1509 | Stripping yields an adjacent history with all other items in order, and every adjacent sub-history with those items is contained in it. |
| `ToolPairing.SanitizeIsLargestPreceded` | crates/codegen/xai-chat-state/src/compaction_utils.rs:1402-1430 | The same maximality for sanitize and the weaker rule. |
| `ToolPairing.LargestPaired` | crates/codegen/xai-chat-state/src/compaction_utils.rs:1365-1509 | The maximality result for both rules at once. |
| `ToolPairing.PassesFixExactlyPaired` | crates/codegen/xai-chat-state/src/compaction_utils.rs:1365-1509 | A pass changes nothing, and reports nothing, exactly on paired histories; both passes are idempotent. |
| `ToolPairing.AdjacentIsPreceded` | crates/codegen/xai-chat-state/src/compaction_utils.rs:1365-1385 | Every adjacent history is one that validation accepts. |
| `ToolPairing.SanitizeKeepsWhatStripKeeps` | crates/codegen/xai-chat-state/src/compaction_utils.rs:1402-1509 | Sanitize keeps everything strip keeps, and what strip leaves validates. |
| `ToolPairing.PairedConcat` | crates/codegen/xai-chat-state/src/compaction_utils.rs:1276-1347 | Paired pieces join to a paired history. |
| `ToolPairing.AdjacentSuffix` | crates/codegen/xai-chat-state/src/compaction_utils.rs:246-279 | A suffix that does not start with an output is adjacent again. |
| `RepairPasses.DedupDuplicateToolResults` | crates/codegen/xai-grok-sampling-types/src/conversation.rs:5110-5164 | The index-and-remove loop keeps the last generic result of each stored id in every run after an assistant with calls, and counts the removals exactly. |
| `RepairPasses.RepairDanglingToolCalls` | crates/codegen/xai-grok-sampling-types/src/conversation.rs:4959-5036 | Recording repairs and inserting them from the back adds to every run exactly one synthetic result per unanswered call, and counts them. |
| `RepairPasses.RepairHistory` | crates/codegen/xai-chat-state/src/compaction_utils.rs:1456-1470 | The three loops compute the run-by-run repair; the report says "changed" if and only if some pass would rewrite the history. |
| `Repair.RepairIsThreePasses` | crates/codegen/xai-chat-state/src/compaction_utils.rs:1456-1470 | Dedup, strip and dangling repair in sequence are one pass over each run. |
| `Repair.StripIsKept` | crates/codegen/xai-chat-state/src/compaction_utils.rs:1482-1509 | The run-by-run strip is the pairing scan. |
| `Repair.PassKeepsOtherItems` | crates/codegen/xai-chat-state/src/compaction_utils.rs:1456-1470 | No pass touches an item that is not a tool output. |
| `Repair.RepairAnswersEveryCall` | crates/codegen/xai-chat-state/src/compaction_utils.rs:1456-1470 | After repair every declared call is answered in the run after it; the result is adjacent if and only if each call that had to be answered carries an id the compaction crate reads back. |
| `RepairTwice.RepairIdempotentIff` | crates/codegen/xai-chat-state/src/compaction_utils.rs:1450-1470 | Repairing twice gives the items of repairing once if and only if, in every run, the calls left open are stable: those with a readable result come first, have distinct stored ids, and share no provider id with the others. |
| `RepairTwice.RunSettlesIff` | crates/codegen/xai-chat-state/src/compaction_utils.rs:1450-1470 | The same for one run and the item before it. |
| `Repair.SecondReportCleanIff` | crates/codegen/xai-chat-state/src/compaction_utils.rs:1432-1470 | The report of a second repair is clean if and only if, in every run, the calls left open have distinct stored ids and readable ids. |
| `Repair.RepairIdempotent` | crates/codegen/xai-chat-state/src/compaction_utils.rs:1450-1470 | With ids that are distinct per assistant and not Codex-enveloped, repair is idempotent and its result adjacent. |
| `RepairTwice.RepeatedCallIdNotIdempotent` | crates/codegen/xai-chat-state/src/compaction_utils.rs:1450-1470 | An assistant that declares one plain call id twice is given two results, and a second repair gives other items: documented idempotence fails. |
| `Repair.CodexResultReplaced` | crates/codegen/xai-chat-state/src/compaction_utils.rs:50-60 | A real result under a Codex-enveloped id is replaced by the synthetic text, and validation rejects it. |
| `Repair.StoredAnswersAdjacentIff` | crates/codegen/xai-chat-state/src/compaction_utils.rs:50-60 | A history in which every result sits after its call and stores that call's id is adjacent, and survives stripping, if and only if no result id is readable only as a Codex envelope, unless its assistant declares the enveloped string itself too. |
| `RepairedRuns.RepairedRunMeans` | crates/codegen/xai-grok-sampling-types/src/conversation.rs:4959-5164 | What repair makes of the run after an assistant with calls: at their places, exactly the results that are the last of their stored id and have a declared id; then one placeholder, in the kind of the call and naming its tool, for each call that none of these answers, in call order. |
| `RepairedRuns.DedupKeepsLast` | crates/codegen/xai-grok-sampling-types/src/conversation.rs:5110-5164 | The positions kept are exactly those with no later generic result of the same stored id; custom outputs always stay. |
| `RepairedRuns.RepairByRuns` | crates/codegen/xai-chat-state/src/compaction_utils.rs:1456-1470 | In a whole history, what becomes of a run depends on the item before it and on nothing else. |
| `Utf8.BoundaryIffPrefix` | crates/codegen/xai-chat-state/src/compaction_utils.rs:403-429 | Byte positions that are character boundaries are exactly the encoded lengths of prefixes of the text. |
| `Utf8.PrefixWithin` | crates/codegen/xai-chat-state/src/compaction_utils.rs:403-429 | The longest prefix whose encoding fits the byte budget. |
| `Utf8.FloorCharBoundary` | crates/codegen/xai-chat-state/src/compaction_utils.rs:403-429 | Walking back over continuation bytes ends at the longest fitting prefix. |
| `Utf8.TruncateText` | crates/codegen/xai-chat-state/src/compaction_utils.rs:403-429 | Truncates if and only if the text is too long, and then never exceeds the limit. |
| `Utf8.TruncatedForm` | crates/codegen/xai-chat-state/src/compaction_utils.rs:403-429 | The result is a prefix followed by the marker with the exact count of dropped bytes, or the longest fitting prefix alone. |
| `Utf8.TruncateKeepsSomething` | crates/codegen/xai-chat-state/src/compaction_utils.rs:403-429 | With room for one character the result is not empty. |
| `Utf8.TruncateTextToBytes` | crates/codegen/xai-chat-state/src/compaction_utils.rs:403-429 | On bytes: valid UTF-8 in, valid UTF-8 of at most `max_bytes` out, equal to the encoding of the text-level result. |
| `Utf8.TruncatedIsCut` | crates/codegen/xai-chat-state/src/compaction_utils.rs:403-429 | A text within the limit is unchanged; a longer one is a prefix of itself and the marker, whose number reads back as the bytes dropped and with which the prefix is the longest that fits, or the longest prefix alone. |
| `Utf8.EncodeKeepsCharacter` | crates/codegen/xai-chat-state/src/compaction_utils.rs:403-429 | Each character is encoded as section 3 of RFC 3629 says: the payload bits of the bytes are the scalar value. |
| `Utf8.DecimalReadsBack` | crates/codegen/xai-chat-state/src/compaction_utils.rs:403-429 | The dropped count in the marker is written in decimal. |
| `Budget.TruncateOrderedContentToTokens` | crates/codegen/xai-chat-state/src/compaction_utils.rs:365-401 | The loop with a remaining budget computes the ordered cut. |
| `Budget.OrderedCutWithin` | crates/codegen/xai-chat-state/src/compaction_utils.rs:365-401 | The text bytes and image units kept never exceed the budget in total. |
| `Budget.OrderedCutIsLongest` | crates/codegen/xai-chat-state/src/compaction_utils.rs:365-401 | What is kept is the longest prefix within the budget, then the next part cut to the rest when that is a text. |
| `Budget.CutItemWithin` | crates/codegen/xai-chat-state/src/compaction_utils.rs:315-360 | A truncated item keeps its kind, ids and calls; every text is within the limit, and so are the texts and images of a structured output in total. What the texts become is `TailUnit.CutItemIsCut`. |
| `Budget.RecoverTruncatedTailUnit` | crates/codegen/xai-chat-state/src/compaction_utils.rs:281-313 | The popping loop recovers the trailing run with its owner, each result cut to an equal share. |
| `Budget.LongestFittingSuffix` | crates/codegen/xai-chat-state/src/compaction_utils.rs:258-268 | The backward scan finds the start of the longest suffix within the budget. |
| `Budget.FitConversationToBudget` | crates/codegen/xai-chat-state/src/compaction_utils.rs:246-279 | The whole function computes the fitted history, which is the history itself if that fits, else what `Budget.FitIsLongestSuffix` and `TailUnit.FitFallsBackToUnit` say. |
| `Budget.FitIsLongestSuffix` | crates/codegen/xai-chat-state/src/compaction_utils.rs:246-279 | When a whole-item suffix survives, the result is the system head and the longest fitting suffix without its leading outputs, at a cost of at most max(budget, system cost). |
| `Budget.FitKeepsHeadAndTail` | crates/codegen/xai-chat-state/src/compaction_utils.rs:246-313 | A leading system item stays, and a nonempty body is never emptied. |
| `Budget.FitKeepsAdjacent` | crates/codegen/xai-chat-state/src/compaction_utils.rs:246-313 | Fitting preserves adjacency, in the truncated-tail branch too. |
| `TailUnit.CutItemIsCut` | crates/codegen/xai-chat-state/src/compaction_utils.rs:315-360 | For every item and limit: ids, calls and images stay; an assistant's content, a plain result's content and each text part of a user is unchanged within the limit and cut as above beyond it; the ordered output of a structured result is the longest prefix within the limit and the next text cut to the rest, and its content is the texts of that. |
| `TailUnit.TailUnitMeans` | crates/codegen/xai-chat-state/src/compaction_utils.rs:281-313 | The recovered tail is the last unit of the body: each of its items in order, the owner unchanged, each result cut to its share; or the one last item cut to the whole budget. |
| `TailUnit.ShareMeans` | crates/codegen/xai-chat-state/src/compaction_utils.rs:304-306 | The share is the largest for which owner and all results fit the budget, and at least one token. |
| `TailUnit.FitFallsBackToUnit` | crates/codegen/xai-chat-state/src/compaction_utils.rs:246-313 | When no whole suffix survives, the fitted conversation is a leading system item and that tail. |
| `TailUnit.TailRunWithin` | crates/codegen/xai-chat-state/src/compaction_utils.rs:281-313 | A tail of tool outputs costs at most the budget in total, as soon as the budget covers the owner and a token per result. |
| `TailUnit.EstimateAdds` | crates/codegen/xai-chat-state/src/actor/state.rs:60-77 | A text adds a quarter of its bytes to the estimate of a user message, within one token, and an image 765 tokens. |
| `TailUnit.EstimateAddsCall` | crates/codegen/xai-chat-state/src/actor/state.rs:78-86 | The arguments of a call count like the text of its assistant. |
| `FitTwice.CutItemTwice` | crates/codegen/xai-chat-state/src/compaction_utils.rs:315-360 | Truncating an item twice equals truncating it once. |
| `FitTwice.RecoveredTwice` | crates/codegen/xai-chat-state/src/compaction_utils.rs:281-313 | The recovered tail recovers as itself. |
| `FitTwice.FitIsIdempotent` | crates/codegen/xai-chat-state/src/compaction_utils.rs:246-313 | Fitting twice equals fitting once, for every conversation and budget, the truncated tail included. |
| `Query.TagBlockIsFirst` | crates/codegen/xai-chat-state/src/compaction_image_context.rs:28-34 | The block found is the first one: no opening tag before it, no closing tag inside it; none is found if and only if no closing tag follows the first opening tag. |
| `Query.StripTag` | crates/codegen/xai-chat-state/src/compaction_utils.rs:448-456 | Removing blocks leaves no complete block of that tag, and changes only texts that had one. |
| `Query.RemoveBlocks` | crates/codegen/xai-chat-state/src/compaction_utils.rs:448-456 | The loop computes that removal. |
| `TagBlocks.StripLeavesOutside` | crates/codegen/xai-chat-state/src/compaction_utils.rs:448-456 | Of any text written as plain stretches and blocks of the tag, exactly the plain stretches are left, whatever the blocks hold, if they open no block when joined. |
| `Query.StripSystemTags` | crates/codegen/xai-chat-state/src/compaction_utils.rs:431-456 | The loop over all metadata tags, then trimming. |
| `Query.ExtractReturnsExactlyCarriable` | crates/codegen/xai-chat-state/src/compaction_utils.rs:462-471 | A wrapped query, with any prefix that opens no wrapper, comes back unchanged if and only if it is trimmed, free of the closing tag and free of complete metadata blocks. |
| `Query.PlainClosingTagIsCut` | crates/codegen/xai-chat-state/src/compaction_utils.rs:1225-1228 | A query typed as plain text that mentions the closing tag does not survive wrapping and extracting. |
| `UserTurns.WrappedTurnIsReal` | crates/codegen/xai-chat-state/src/compaction_utils.rs:510-550 | A wrapped prompt that comes back whole is a turn of the user if and only if it has an image or is none of the three prompts the harness sends. |
| `UserTurns.TurnTextSplits` | crates/codegen/xai-grok-sampling-types/src/conversation.rs:2860-2871 | The text of a turn is its text parts, one per line; images add nothing. |
| `Summary.FormatSummary` | crates/codegen/xai-chat-state/src/compaction_utils.rs:1073-1111 | The imperative cleaner, with its two loops, computes the specification on every input, all slices in range. |
| `Summary.DropAnalysisBlocks` | crates/codegen/xai-chat-state/src/compaction_utils.rs:1075-1096 | The block-removing loop terminates and computes the specification. |
| `Summary.FormatIsClean` | crates/codegen/xai-chat-state/src/compaction_utils.rs:1073-1146 | On every input the output holds none of the six control tags, no triple newline and no outer whitespace. |
| `Summary.FormatFixesExactlyClean` | crates/codegen/xai-chat-state/src/compaction_utils.rs:1073-1111 | Exactly clean texts are left alone, so formatting is idempotent. |
| `Summary.DraftDroppedSummaryKept` | crates/codegen/xai-chat-state/src/compaction_utils.rs:1065-1134 | For every draft and every clean summary, the draft disappears and the summary stands word for word under its heading. |
| `Summary.ReplaceLacks` | crates/codegen/xai-chat-state/src/compaction_utils.rs:1139-1146 | Neutralizing one tag creates no other tag. |
| `SummaryCases.UnclosedDraftSummaryKept` | crates/codegen/xai-chat-state/src/compaction_utils.rs:1087-1093 | A draft that is never closed goes up to the summary, which stands word for word under its heading. |
| `SummaryCases.DraftAloneLeavesNothing` | crates/codegen/xai-chat-state/src/compaction_utils.rs:1087-1093 | A draft and nothing else leaves the empty text. |
| `SummaryCases.QuotedAnalysisKept` | crates/codegen/xai-chat-state/src/compaction_utils.rs:1075-1083 | An analysis block after text of the summary is quoted and stays. |
| `SummaryCases.LateAnalysisKept` | crates/codegen/xai-chat-state/src/compaction_utils.rs:1075-1083 | The same after text without a summary. |
| `SummaryCases.UnwrapKeepsAround` | crates/codegen/xai-chat-state/src/compaction_utils.rs:1097-1105 | From the first opening to the last closing tag the text becomes a headed section, whatever it holds, and what stands before and after stays. |
| `SummaryCases.ScratchpadPeeled` | crates/codegen/xai-chat-state/src/compaction_utils.rs:1112-1134 | A scratchpad inside the summary goes up to its last closing tag, unless the section starts with a number behind list or heading marks; then all of it stays. |
| `SummaryCases.InnerOpeningDropped` | crates/codegen/xai-chat-state/src/compaction_utils.rs:1130-1132 | A second opening tag inside is dropped. |
| `SummaryCases.NeutralizeShown` | crates/codegen/xai-chat-state/src/compaction_utils.rs:1135-1146 | Defusing control tags inserts zero-width spaces and changes nothing else. |
| `SummaryCases.CollapseIsOnePass` | crates/codegen/xai-chat-state/src/compaction_utils.rs:1107-1109 | Replacing triple newlines until none is left equals one pass that skips the third and later newline of each run. |
| `ImageFiles.RenderBlock` | crates/codegen/xai-chat-state/src/compaction_image_context.rs:161-169 | The growing buffer is the block. |
| `ImageFiles.ParseImageFilesPaths` | crates/codegen/xai-chat-state/src/compaction_image_context.rs:84-93 | The loop over successive blocks collects the paths of all of them. |
| `ImageFiles.NumberedLineReads` | crates/codegen/xai-chat-state/src/compaction_image_context.rs:95-99 | A numbered line yields its path trimmed, or nothing if that is empty. |
| `ImageFiles.NumberedPathOnly` | crates/codegen/xai-chat-state/src/compaction_image_context.rs:95-99 | A line yields a path only if it is, trimmed, a nonempty number, a point, a space and that path. |
| `ImageFiles.EnvelopeFound` | crates/codegen/xai-chat-state/src/compaction_image_context.rs:28-34 | A block whose inside has no `<` is found whole. |
| `ImageFiles.RenderedBlockParses` | crates/codegen/xai-chat-state/src/compaction_image_context.rs:84-185 | Parsing a rendered block returns exactly the scrubbed, trimmed, nonempty paths, in order, for every list of paths. |
| `ImageFiles.PromptBlockParses` | crates/codegen/xai-chat-state/src/compaction_image_context.rs:141-149 | The same for the block a prompt leads with, with its actual texts. |
| `ImageFiles.NoteParses` | crates/codegen/xai-chat-state/src/compaction_image_context.rs:153-159 | The same for the note re-added after a summary. |
| `ImageFiles.ScrubKeepsExactly` | crates/codegen/xai-chat-state/src/compaction_image_context.rs:174-185 | A path is written as it is if and only if it has no angle bracket and no ASCII control character. |
| `ImageFiles.ScrubConcat` | crates/codegen/xai-chat-state/src/compaction_image_context.rs:174-185 | Scrubbing goes character by character: every character as `ImageFiles.ScrubOne` says, whatever stands around it. |
| `ImageFiles.ScrubOne` | crates/codegen/xai-chat-state/src/compaction_image_context.rs:174-185 | Angle brackets become their look-alikes, ASCII control characters go, every other character stays. |
| `ImageHarvest.DedupKeepingLast` | crates/codegen/xai-chat-state/src/compaction_image_context.rs:128-135 | The reverse scan with a seen set computes the keep-last de-duplication. |
| `ImageHarvest.KeepLastMeans` | crates/codegen/xai-chat-state/src/compaction_image_context.rs:128-135 | The same paths, each once, in the order of their last mention. |
| `ImageHarvest.AttachedPathsMean` | crates/codegen/xai-chat-state/src/compaction_image_context.rs:105-136 | Harvested paths are exactly the mentioned ones minus the exclusions, ordered by latest mention, metadata items first. |
| `ImageHarvest.MetaLatestFirst` | crates/codegen/xai-chat-state/src/compaction_image_context.rs:105-127 | Compaction items are harvested from the latest back. |
| `ImageHarvest.TurnsInOrder` | crates/codegen/xai-chat-state/src/compaction_image_context.rs:105-127 | The other turns are harvested from the first on. |
| `ImageHarvest.ParseFindsEmbedded` | crates/codegen/xai-chat-state/src/compaction_image_context.rs:84-93 | A block inside other text yields all its paths. |
| `Compaction.BuildCompactedHistory` | crates/codegen/xai-chat-state/src/compaction_utils.rs:1276-1347 | The pushes build the history laid out as `CompactedLayout.CompactedIsLaidOut` says; its tool outputs are exactly those of the recent messages, in order; if these are adjacent, so is the whole, and validation finds nothing. |
| `Compaction.RecentAdjacent` | crates/codegen/xai-chat-state/src/compaction_utils.rs:903-937 | The messages since the last anchor of an adjacent history are adjacent. |
| `Compaction.CompactionKeepsAdjacent` | crates/codegen/xai-chat-state/src/compaction_utils.rs:991-1061 | For every adjacent conversation, building the state, with or without its recent messages, and then the history yields an adjacent history that validation accepts. |
| `CompactedLayout.CompactedIsLaidOut` | crates/codegen/xai-chat-state/src/compaction_utils.rs:1276-1347 | For every input and state: system message, prefix and the project instructions of the current directory; the carried agent message and query on their sides, the query with its images and files block; the recent messages in one piece; right after them the summary item; the note of attached paths; the reminder last. |
| `CompactedLayout.SummaryItemMeans` | crates/codegen/xai-chat-state/src/compaction_utils.rs:1279-1284 | The summary item is preamble, clean text and hint; the clean text is "Summary:" and the summary whenever the model answered with one, alone or after a draft, closed or not, and the given summary itself if that was clean. |
| `CompactedLayout.GoalIsCarried` | crates/codegen/xai-chat-state/src/compaction_utils.rs:991-1005 | A goal that is not blank is carried as the query, wrapped and without images. |
| `CompactedLayout.RecentKeepsTraces` | crates/codegen/xai-chat-state/src/compaction_utils.rs:925-936 | No assistant message and no agent message is lost, changed or moved; every tool output keeps its place and ids and holds only the omission text. |
| `CompactedLayout.RecentSinceAnchor` | crates/codegen/xai-chat-state/src/compaction_utils.rs:903-937 | The recent messages are those from the last anchor on, or all if there is none. |
| `CompactionChain.PositionMeans` | crates/codegen/xai-chat-state/src/compaction_utils.rs:884-901 | The computed anchor is the latest agent message, before the human exactly when a human spoke last. |
| `CompactionChain.CompactedAnchors` | crates/codegen/xai-chat-state/src/compaction_utils.rs:1301-1327 | One compaction leaves exactly the latest agent message and the carried query, on the sides they had. |
| `CompactionChain.CarriedIsFixedPoint` | crates/codegen/xai-chat-state/src/compaction_image_context.rs:62-80 | The re-added query is a real turn again with the same query and the same images, and re-adds as itself. |
| `CompactionChain.AnchorsSurviveAllCompactions` | crates/codegen/xai-chat-state/src/compaction_utils.rs:884-1061 | Over any number of compactions with only other items appended in between, the latest agent message occurs exactly once and unchanged, on the same side of one unchanged carried query. |
| `CompactionChain.NoPathLost` | crates/codegen/xai-chat-state/src/compaction_utils.rs:1005-1007 | Every mentioned path that scrubbing leaves alone is mentioned again after a compaction. |
| `CompactionChain.NoPathLostEver` | crates/codegen/xai-chat-state/src/compaction_utils.rs:1328-1331 | The same over any number of compactions, whatever is appended in between. |
| `RemoteTail.TruncateUser` | crates/codegen/xai-chat-state/src/compaction_utils.rs:590-632 | The part loop computes the truncated message or drops it. |
| `RemoteTail.FitUserTail` | crates/codegen/xai-chat-state/src/compaction_utils.rs:655-678 | The newest-first loop computes the fitted tail. |
| `RemoteTail.BoundaryNeverDropped` | crates/codegen/xai-chat-state/src/compaction_utils.rs:590-632 | With a token left a nonempty boundary message is kept, with all its images, within what is left: the final cost guard always passes. |
| `RemoteTail.FittedTailWithin` | crates/codegen/xai-chat-state/src/compaction_utils.rs:655-678 | The text tokens kept never exceed the budget. |
| `RemoteTail.FittedTailIsLongest` | crates/codegen/xai-chat-state/src/compaction_utils.rs:655-678 | The fit is the longest suffix within the budget, preceded by at most one truncated message. |
| `RemoteTail.FitIsIdempotent` | crates/codegen/xai-chat-state/src/compaction_utils.rs:655-678 | Fitting twice equals fitting once. |
| `RemoteTail.NewestIsKept` | crates/codegen/xai-chat-state/src/compaction_utils.rs:655-678 | A nonempty newest message always leaves something. |
| `RemoteTail.RemoteHistoryTail` | crates/codegen/xai-chat-state/src/compaction_utils.rs:687-701 | The replayed history is a budgeted tail of the retained user messages and then the compaction item. What is retained of a message is `RetainedMessages.KeptIffGenuine`. |
| `RemoteTail.InterjectionsLoseNothing` | crates/codegen/xai-chat-state/src/compaction_utils.rs:711-730 | Interjections are returned if and only if the snapshot is a prefix, and then retained users of the current history are those of the snapshot followed by the interjections. |
| `RemoteTail.AppendsAreSafe` | crates/codegen/xai-chat-state/src/compaction_utils.rs:711-730 | Any sequence of appends keeps the snapshot installable. |
| `RetainedMessages.KeptIffGenuine` | crates/codegen/xai-chat-state/src/compaction_utils.rs:556-584 | A message is retained if and only if it is an interjection or a real turn and has an image or a nonempty query; it then has all its images, and as texts exactly the nonempty queries of its text parts, in order. |
| `RetainedMessages.PartsKeptInOrder` | crates/codegen/xai-chat-state/src/compaction_utils.rs:570-582 | Parts are treated one by one, so texts and images keep their order. |
| `RetainedMessages.RetainedAreGenuine` | crates/codegen/xai-chat-state/src/compaction_utils.rs:556-584 | Over a history, exactly the genuine messages are retained, in order. |
| `RetainedMessages.RemoteHistoryKeepsImages` | crates/codegen/xai-chat-state/src/compaction_utils.rs:687-701 | The replayed history holds the newest genuine messages, none skipped, each with all its images, and then the compaction item. |
| `RetainedMessages.CutPartsForm` | crates/codegen/xai-chat-state/src/compaction_utils.rs:590-632 | Truncating a message cuts its text once, where the budget ends: the parts before stay whole, that text is cut to the tokens left, and of the rest exactly the images stay. |
| `ImageBudget.FastUrlExactIff` | crates/codegen/xai-chat-state/src/image_budget.rs:173-182 | The URL measure that skips base64 tails is never too large, and exact if and only if the tail needs no escape. |
| `ImageBudget.BlankItemSize` | crates/codegen/xai-chat-state/src/image_budget.rs:240-279 | Blanking the URLs of an item takes exactly their bytes off its size. |
| `ImageBudget.ConversationBodyBytes` | crates/codegen/xai-chat-state/src/image_budget.rs:240-279 | Serializing a blanked copy and adding the URLs back computes the fast size of the body. What that size counts is `Json.MeasureIsLengthIff`. |
| `ImageBudget.FastBodyExactIff` | crates/codegen/xai-chat-state/src/image_budget.rs:218-279 | The fast size never exceeds plain serialization, and equals it if and only if no base64 tail holds an escaped character. |
| `Json.LiteralReadsBack` | crates/codegen/xai-chat-state/src/image_budget.rs:173-182 | The string literals of the model are JSON (section 7 of RFC 8259): a reader that refuses raw quotes and control characters gets every string back, and stops at the closing quote. |
| `Json.EscapedIsPrintable` | crates/codegen/xai-chat-state/src/image_budget.rs:173-182 | No character below U+0020 is written raw. |
| `Json.BodySizeIsLength` | crates/codegen/xai-chat-state/src/image_budget.rs:240-279 | For every history, the plain size is the UTF-8 length of its JSON text. |
| `Json.MeasureIsLengthIff` | crates/codegen/xai-chat-state/src/image_budget.rs:240-279 | What the measuring function computes is never more than that length, and equal to it if and only if no base64 tail holds an escaped character. |
| `ImageEviction.CandidatesStep` | crates/codegen/xai-chat-state/src/image_budget.rs:352-423 | Candidates collected up front stay right: evicting the first leaves exactly the others, with their locations and sizes. |
| `ImageEviction.EvictAt` | crates/codegen/xai-chat-state/src/image_budget.rs:431-490 | Evicting one candidate in place changes the body by exactly the measured difference, through the removal that shifts indices and adds the note too. |
| `ImageEviction.CompactImagesToByteBudget` | crates/codegen/xai-chat-state/src/image_budget.rs:327-498 | The in-place evictor performs exactly the least number of oldest-first evictions, and its running size is the measured size of the body after every one. |
| `ImageEviction.EvictTimesUrls` | crates/codegen/xai-chat-state/src/image_budget.rs:425-490 | After k evictions the images left are the image order without its first k. |
| `ImageEviction.EvictCountIsLeast` | crates/codegen/xai-chat-state/src/image_budget.rs:425-430 | The final body fits or no image is left, and every smaller number of evictions leaves it above the target. |
| `ImagePolicy.ImageBudgetLimits` | crates/codegen/xai-chat-state/src/image_budget.rs:31-42 | For every request cap the reclaim target is strictly below the trigger; the trigger is 3 MiB below the cap and the target half of it; a cap under 12 MiB counts as 12 MiB, and no cap as 50 MiB. |
| `ImagePolicy.ApplyImageBudgetWithLimits` | crates/codegen/xai-chat-state/src/image_budget.rs:55-79 | Evicts exactly when the body reaches the trigger, and reports the measured sizes and the counts. |
| `ImagePolicy.BudgetKeepsNewest` | crates/codegen/xai-chat-state/src/image_budget.rs:55-79 | Images after plus images evicted are the images before; the body then fits the target unless no image is left. |
| `ImagePolicy.BudgetInSerializedBytes` | crates/codegen/xai-chat-state/src/image_budget.rs:218-279 | The measured size after eviction is the serialized size if and only if no image kept has an escaped character in its base64 tail; for clean images the serialized body then meets the target. |
| `ImagePolicy.BudgetIsIdempotent` | crates/codegen/xai-chat-state/src/image_budget.rs:55-79 | Re-applying the budget to its own output changes nothing. |
| `ImagePolicy.EvictionOnlyFades` | crates/codegen/xai-chat-state/src/image_budget.rs:431-490 | Ids, texts, positions and items without images survive any number of evictions; a tool result carries the note exactly when its image list lost one. |
| `ImagePolicy.WithNoteOnce` | crates/codegen/xai-chat-state/src/image_budget.rs:455-459 | The note is added after the whole content, once, and not where it stands already. |
| `ImagePolicy.StickyEviction` | crates/codegen/xai-chat-state/src/image_budget.rs:307-313 | When a history grows, every image evicted before is evicted again. |
| `ImagePolicy.PrefixKeptIff` | crates/codegen/xai-chat-state/src/image_budget.rs:119-131 | The next request starts with the whole of this one if and only if the appended items fit below the reclaim target (or no image is left, or nothing was evicted and the trigger is not reached). |
| `ImagePolicy.AppendAboveTargetRewrites` | crates/codegen/xai-chat-state/src/image_budget.rs:119-131 | As long as an image is left, every append that lands above the reclaim target rewrites the prefix, however far it stays below the trigger. |
| `ImagePolicy.HysteresisIsLost` | crates/codegen/xai-chat-state/src/actor/request_builder.rs:77-81 | Under every request cap, every placeholder of at most 1000 characters and any sizes of other items, there are a history and an append that lands strictly between target and trigger and still rewrites the prefix. |
| `Interner.StringInterner.InternBytes` | crates/codegen/xai-codebase-graph/src/interner.rs:119-144 | The method computes the table transition, casts to 32 and 16 bits included. |
| `Interner.StringInterner.FindId` | crates/codegen/xai-codebase-graph/src/interner.rs:157-168 | Scans the hash bucket for the first id with these bytes. |
| `Interner.StringInterner.FromParts` | crates/codegen/xai-codebase-graph/src/interner.rs:286-303 | The rebuilding loop computes the index of all readable spans. |
| `Interner.StringInterner.Clear` | crates/codegen/xai-codebase-graph/src/interner.rs:254-258 | Leaves the empty interner. |
| `Interner.LookupIsLinearSearch` | crates/codegen/xai-codebase-graph/src/interner.rs:157-168 | For any hash function, the lookup finds an id if and only if the list of strings has the string at that id. |
| `Interner.InternRefinesList` | crates/codegen/xai-codebase-graph/src/interner.rs:119-144 | Interning acts on the list of distinct strings: old strings keep their id, a new one is appended; spans keep tiling the arena. |
| `Interner.RunsReadBack` | crates/codegen/xai-codebase-graph/src/interner.rs:119-184 | Over every run within the widths, ids stay stable and each string reads back from its id. |
| `Interner.RunIdsAgree` | crates/codegen/xai-codebase-graph/src/interner.rs:119-144 | Over every run, equal ids mean equal strings and conversely. |
| `Interner.NewInternerReadsBack` | crates/codegen/xai-codebase-graph/src/interner.rs:88-184 | Both for every run of a new interner. |
| `Interner.RebuiltAnswersAlike` | crates/codegen/xai-codebase-graph/src/interner.rs:286-303 | An interner rebuilt from arena and offsets answers every lookup identically. |
| `Interner.NewStringReadsBackIff` | crates/codegen/xai-codebase-graph/src/interner.rs:130-141 | A new string reads back if and only if it is shorter than 65536 bytes. |
| `Interner.LongStringNeverFound` | crates/codegen/xai-codebase-graph/src/interner.rs:119-168 | In every table the interner can build, no lookup finds a string of 65536 bytes or more. |
| `Interner.LongStringInternedAgain` | crates/codegen/xai-codebase-graph/src/interner.rs:112-144 | Over every run of a new interner such a string gets another id each time it is interned. |
| `LineReader.ReadLineCapped` | crates/codegen/xai-acp-lib/src/line_reader.rs:140-177 | Returns the stream's first line if and only if it is within the cap and not cut off by an I/O error, whatever the chunking; otherwise says which error, with the bytes lost. |
| `LineReader.FillProgress` | crates/codegen/xai-acp-lib/src/line_reader.rs:145-176 | One round of filling and consuming grows the buffer along the first line and completes it at the newline. |
| `LineProtocol.LineBufferedRead.ServeStash` | crates/codegen/xai-acp-lib/src/line_reader.rs:102-113 | Hands out a prefix of the rest of the line, as much as fits, and keeps what follows. |
| `LineProtocol.LineBufferedRead.ServeLine` | crates/codegen/xai-acp-lib/src/line_reader.rs:117-125 | The same for a line just received. |
| `LineProtocol.LineBufferedRead.PollRead` | crates/codegen/xai-acp-lib/src/line_reader.rs:95-133 | The poll on `buf`, `pos` and the queue computes the poll specification and touches only the bytes it reports. |
| `LineProtocol.EveryRunKeeps` | crates/codegen/xai-acp-lib/src/line_reader.rs:62-177 | For every chunking, every buffer size and every interleaving: delivered, stashed, queued, held and unread bytes are the source in order; each line sent ends at its only newline (the last may lack it), is nonempty and within the cap. |
| `LineProtocol.PollDelivers` | crates/codegen/xai-acp-lib/src/line_reader.rs:103-126 | A poll hands out a prefix of what is stashed or next in the queue, as much as fits. |
| `LineProtocol.PendingOnlyBetweenLines` | crates/codegen/xai-acp-lib/src/line_reader.rs:36-39 | A poll suspends only with nothing stashed or queued, after a newline or after the whole source. |
| `LineProtocol.ZeroMeansOver` | crates/codegen/xai-acp-lib/src/line_reader.rs:117-131 | A zero-byte read into a nonempty buffer means the stream is over, delivered whole unless it failed. |
| `LineProtocol.DeliveredIffLinesFit` | crates/codegen/xai-acp-lib/src/line_reader.rs:62-177 | When the stream is over, a poll has returned the error if and only if some line is over the cap or the source fails; the whole source was delivered if and only if every line is within the cap and a failure, if any, came between two lines. |
| `LineProtocol.SuspendsInsideLineIff` | crates/codegen/xai-acp-lib/src/line_reader.rs:9-12 | For every source: some schedule suspends the consumer inside a line if and only if every line is within the cap, the source does not fail, and it ends without a newline. |
| `WaitProtocol.EveryRunKeeps` | crates/codegen/ptyctl/src/wait.rs:97-128 | The protocol invariant over every interleaving of feeder, resize and waiter steps. |
| `WaitProtocol.GridIsLastWritten` | crates/codegen/ptyctl/src/session.rs:158-173 | Over every run, the grid is what the last output or resize performed has written. |
| `WaitProtocol.NoLostWakeup` | crates/codegen/ptyctl/src/wait.rs:97-128 | While the feeder lives, a parked waiter whose condition holds has an unseen generation or a bump on its way. |
| `WaitProtocol.ParkedWaiterMatches` | crates/codegen/ptyctl/src/wait.rs:97-128 | Then the steps already under way and the waiter's own make it match. |
| `WaitProtocol.OutcomesMean` | crates/codegen/ptyctl/src/wait.rs:109-126 | A match saw a screen on which the condition held; an `ended` wait means the session is over and, unless a resize went unannounced, that the condition fails on the final grid. |
| `WaitProtocol.ConditionsMean` | crates/codegen/ptyctl/src/wait.rs:103-107 | A text is met wherever it stands on the screen; `Gone` is met exactly when the text is not. |
| `WaitProtocol.EndedUnmetIff` | crates/codegen/ptyctl/src/session.rs:158-173 | Over every run, the condition of an `ended` wait holds on the final grid if and only if the last resize made after the exit of the feeder, or caught by it, made it hold. |
| `WaitProtocol.ResizeRacingExitIsMissed` | crates/codegen/ptyctl/src/session.rs:272-283 | A resize that changes the grid before the feeder exits and upgrades the sender after is lost: the wait ends with its condition true. |
| `WaitProtocol.RawTail.Push` | crates/codegen/ptyctl/src/wait.rs:202-213 | The popping loop leaves the last 2048 bytes of the old tail and the new bytes. |
| `WaitProtocol.TailIsLastBytes` | crates/codegen/ptyctl/src/wait.rs:202-213 | However output is cut into pushes, the tail is the last 2048 bytes of all of it. |
| `Coalescing.CoalescedEvents.Insert` | crates/codegen/xai-codebase-graph/src/index_manager.rs:1545-1569 | The change takes effect after those pending, for every index and disk, and leaves other paths alone; nothing is pending for the path if and only if a removal met a creation or modification. |
| `Coalescing.CoalescedEvents.Add` | crates/codegen/xai-codebase-graph/src/index_manager.rs:1531-1543 | A rename leaves its second path to be indexed and nothing but a removal of its first; any other event inserts each path; unlisted paths keep what was pending. The effect on the index is `IndexEffects.RenameMeans` and `IndexEffects.EventMeans`. |
| `Coalescing.SequentialAt` | crates/codegen/xai-codebase-graph/src/index_manager.rs:1136-1161 | Applied one by one, the last change of a path decides its entry. |
| `Coalescing.PendingKind` | crates/codegen/xai-codebase-graph/src/index_manager.rs:1545-1569 | A pending entry has the effect of the last change; a cancelled path ended with a removal. |
| `Coalescing.CoalescedIffNothingStale` | crates/codegen/xai-codebase-graph/src/index_manager.rs:1133-1161 | A coalesced batch equals one-by-one application if and only if no cancelled path was indexed before it. |
| `Coalescing.RemovedFileStaysIndexed` | crates/codegen/xai-codebase-graph/src/index_manager.rs:1552-1556 | An indexed file modified and then removed in one batch keeps its stale entry. |
| `IndexManager.Manager.ApplyCoalesced` | crates/codegen/xai-codebase-graph/src/index_manager.rs:1133-1161 | Whatever the order of the hash map, the index becomes the merged one and every indexable entry is counted once. |
| `IndexManager.Manager.DrainAndApply` | crates/codegen/xai-codebase-graph/src/index_manager.rs:844-866 | Drains arrived file commands, flushes them once, then handles the command that ended the drain. |
| `IndexManager.Manager.ProcessCommandCoalesced` | crates/codegen/xai-codebase-graph/src/index_manager.rs:838-955 | The dispatch on a received command computes the processing step. |
| `IndexManager.Manager.HandleOther` | crates/codegen/xai-codebase-graph/src/index_manager.rs:1100-1117 | Rebuild, background refresh, queries and shutdown. |
| `IndexManager.RunRefinesOneByOne` | crates/codegen/xai-codebase-graph/src/index_manager.rs:797-873 | For every queue and every drain timing in which no batch cancels an indexed path, every query is answered from the index that one-by-one handling would have, and the final index is the same. |
| `IndexEffects.RenameMeans` | crates/codegen/xai-codebase-graph/src/index_manager.rs:1534-1538 | For every world and index, a rename handled coalesced or one by one takes the entry of the first path away, reads the second from the disk and leaves every other path, and paths that are not indexed, as they were. |
| `IndexEffects.EventMeans` | crates/codegen/xai-codebase-graph/src/index_manager.rs:1531-1543 | Any other event removes its indexable paths, or reads them from the disk, and leaves the rest, coalesced or one by one. |
| `IndexEffects.RefreshMeans` | crates/codegen/xai-codebase-graph/src/index_manager.rs:1100-1117 | A background refresh reads stale supported paths from the disk, drops deleted ones and leaves the rest; a path in both lists is read. |
| `IndexEffects.RebuildHeals` | crates/codegen/xai-codebase-graph/src/index_manager.rs:797-890 | However the queue was drained and whatever stale entries its batches left, the index after a rebuild is the rebuilt one. |
| `IndexEffects.QuerySeesQueue` | crates/codegen/xai-codebase-graph/src/index_manager.rs:797-890 | However the queue was drained, a query is answered from the index that everything queued before it has left. |

## Left out

- The total cost of a truncated tail that is one user or assistant item: user text parts are cut one by one, and images and call arguments are not cut, so no bound holds there (for tool outputs it is `TailUnit.TailRunWithin`).
- Overflow of `u64` and `usize` counters and the saturating operations that guard it: integers are unbounded.
- The decoders of custom and Codex ids: they are parameters.
- The serialized sizes of items without images and of user metadata: parameters, since eviction never touches them.
- The wording of the eviction placeholder and of the tool-result note: parameters; only `ImagePolicy.HysteresisIsLost` asks for a placeholder of at most 1000 characters.
- The alternative carrier of a summary before recent messages, which is compiled out in this repository.
- The check of harvested paths against the file system and the cap on their number, done by the shell.
- `StableMs` waits: they depend on timers.
- The terminal grid, regular expressions and lossy decoding of the raw tail: the grid is its screen text, a compiled expression is any predicate.
- The bound of 64 messages on the line reader's channel and the consumer going away: sends are never refused, which allows every schedule of the bounded channel.
- Parsing files, caches and background scans of the index manager: what indexing a file yields is a parameter, and the disk is fixed.
- Two spellings of one path in file events: a path is identified with its form relative to the root.
- The chat-state actor, persistence, transport, HTTP, PTY and command-line code: input and output around these cores.
