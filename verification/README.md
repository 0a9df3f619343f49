# Verified model of the core engine

A Dafny model of the hard parts of `core_engine`, and proofs about them. Each file holds one
module of the same name; `dafny verify dfyconfig.toml` checks them all.

| part of the engine | modules |
|---|---|
| agent sessions: the `tick` state machine, the user's decisions, history compaction | `AgentMessages`, `AgentCompaction`, `AgentTick`, `AgentRuns` (definitions); `AgentPlacement`, `AgentTranscript`, `AgentGrants`, `AgentCosts` (whole runs); `AgentAnswers` (what is written into the history); `AgentSession` (the session object) |
| VM configuration text | `Vmx`, `VmxAdvanced`, `VmxRoundTrip`, `VmxText` (spelled out), `VmxProgram`, `Decimals` |
| conversation summaries as XML | `XmlEscape`, `Markup`, `SummaryXml`, `SummaryRoundTrip`, `SummaryText` (spelled out), `SummaryProgram` |
| parsing of model answers | `CallTags`, `Thoughts`, `JsonScan`, `JsonCandidates`, `JsonText`, `JsonRepair`, `JsonUnfinished`, `Utf8` (byte positions) |
| rate limit of the sandbox | `RateLimit` |
| log files | `LogRotation` |
| QEMU guest agent messages | `QgaFraming` |
| processes | `ProcessTree`, `KillTree`, `Monitor`, `Worker` |
| code index | `VectorIndex`, `NameQuery`, `StableSorting` |

Code that changes state step by step is a class or a method with loops, proved to compute a
function; the properties are lemmas about that function, over all inputs, and for the state
machines over all runs. What comes from outside (the model's answers, the outcomes of tools, clock
readings, the table of processes, the bytes read from a socket, the exit of a process) is an
argument, so every property holds whatever it is.

## Where the code keeps less than it promises

Each of these is proved, with the exact condition under which the promise holds.

- A user message sent, or a workspace opened, while tools wait for approval puts their results
  behind no batch (`AgentPlacement.StepPlaced`, `AgentPlacement.MessageWhileWaitingMisplaces`).
- Deciding a tool before one that was asked for earlier, or approving the rest of a partly decided
  batch, puts results out of call order (`AgentPlacement.StepInOrder`,
  `AgentPlacement.SecondToolFirst`, `AgentPlacement.ApprovingTheRestMisorders`).
- Deciding one tool of a batch and then approving the rest runs the whole batch, also a tool that
  was rejected (`AgentGrants.ExecutedBatchWasGranted`, `AgentGrants.ApprovingTheRestRunsAll`).
- An answer given in the last iteration is overwritten by the next tick
  (`AgentCosts.FinalTextIsKept`).
- The test at `core_engine/src/agent_harness/mod.rs:2546` expects five messages where the code
  leaves four (`AgentCompaction.SixMessagesLeaveFour`).
- A VM configuration without a firmware or a disk size comes back with the default, and a string
  with a line break or an outer quote does not come back (`VmxRoundTrip.RoundTripIff`); an invalid
  disk size is printed as none and read again as the default (`VmxRoundTrip.PrintedTextIsNormalForm`).
- Summaries are escaped when printed and not unescaped when read, and discoveries and key outputs
  are not read at all (`SummaryRoundTrip.RoundTripIff`).
- An unclosed call tag stops the program when nothing follows it, or when the search would go on
  inside a character, as in front of a letter two bytes wide (`CallTags.UnclosedTagPanicsIff`,
  `CallTags.UnclosedTagBeforeWideLetterPanics`).
- The balanced block is cut at as many bytes as it has characters, which is right exactly for ASCII
  (`JsonScan.BalancedJsonIff`).
- The repair of brackets counts escapes in two ways, which differ on a backslash outside of strings
  (`JsonRepair.EndsOutsideIff`, `JsonRepair.EscapedQuoteStaysOpen`, `JsonRepair.RepairIsIdempotentIff`).
- The repair closes open objects and leaves open arrays open (`JsonUnfinished.UnfinishedIsClosed`).
- The ancestor walk before a kill never ends if it starts in a set of processes closed under
  parents none of which is us (`KillTree.WalkNeverEndsIff`, `KillTree.CycleIsWalkedForever`).
- An id stored in one language and last in another is still returned for the first
  (`VectorIndex.ByLanguageIff`, `VectorIndex.MovedEntryIsReturned`).

## Model

| member | source | states |
|---|---|---|
| AgentCompaction.SafeStart | core_engine/src/agent_harness/mod.rs:2362-2370 | the cut walks back to the nearest message that is no tool result (or to the start), and everything it walks over is one |
| AgentCompaction.CompactedShape | core_engine/src/agent_harness/mod.rs:2351-2392 | one compaction of a session that opens with a user message: the exact result and its exact length, with the opening message in front, once, if and only if no kept message has its id; the tail is a suffix that starts on no tool result |
| AgentCompaction.CompactedWellPlaced | core_engine/src/agent_harness/mod.rs:2362-2391 | whatever the ids, compaction never separates a tool result from the batch it answers |
| AgentCompaction.RetainsCompacted | core_engine/src/agent_harness/mod.rs:2351-2392 | compacting a compacted history again still gives the opening message, one notice and a suffix of the whole transcript: notices never pile up |
| AgentCompaction.SixMessagesLeaveFour | core_engine/src/agent_harness/mod.rs:2493-2551 | the in-file example leaves four messages, not the five its test expects |
| AgentMessages.ResultsArePrefix | core_engine/src/agent_harness/mod.rs:2233-2257 | in an in-order history the tool messages behind a batch answer a prefix of its calls, one by one |
| AgentMessages.NewestBatchAtEnd | core_engine/src/agent_harness/mod.rs:2206-2221 | the batch found by the backward search is the one whose results close the history |
| AgentPlacement.StepPlaced | core_engine/src/agent_harness/mod.rs:2064-2322 | one event of any kind (tick, decision, message, change of workspace) keeps every tool result behind the batch it answers if and only if it puts no message behind a batch whose results are still to come |
| AgentPlacement.StepInOrder | tauri_app/src-tauri/src/commands/agent.rs:674-1047 | one event keeps results in call order, with the rest of the batch waiting, if and only if besides it decides the next tool waiting (or one that cannot be told from it), or approves a batch none of which is decided |
| AgentPlacement.DecisionInOrderIff | tauri_app/src-tauri/src/commands/agent.rs:943-1043 | the result of a single decision stands in order if and only if it answers a call with the name and id of the next one waiting |
| AgentPlacement.SecondToolFirst | tauri_app/src-tauri/src/commands/agent.rs:943-1043 | of two tools waiting, approving the second first breaks the order; approving the first and then the other keeps it |
| AgentPlacement.ApprovingTheRestMisorders | tauri_app/src-tauri/src/commands/agent.rs:1044-1047 | approving the rest of a partly decided batch runs it from the start, and its first result comes out of order unless that call has the name and id of the next one |
| AgentPlacement.ResultsStayPlaced | core_engine/src/agent_harness/mod.rs:2028-2324 | over every run, for any model, tools and user, results stand only behind the batch they answer, through compactions too; and they answer a prefix of its calls in order as long as every event meets the condition of `StepInOrder` |
| AgentPlacement.MessageWhileWaitingMisplaces | tauri_app/src-tauri/src/commands/agent.rs:2181-2194 | from any session in which tools wait, a message or a change of workspace, an approval and a tick leave a result behind no batch |
| AgentTranscript.TranscriptIsKept | core_engine/src/agent_harness/mod.rs:2073-2081 | at every moment of every run the history is the transcript, or its first message, one notice and an end of it that starts on no tool result |
| AgentTranscript.RequestStaysInFront | core_engine/src/agent_harness/mod.rs:2356-2377 | in every run, whatever is decided or sent and however often the history is compacted, the opening request stands in front, exactly once |
| AgentGrants.ExecutedBatchWasGranted | core_engine/src/agent_harness/mod.rs:2146-2238 | over every run, a tick that executes runs calls of one batch that holds only reads, or that the user approved when it was last shown; it is exactly the batch shown if and only if no call of it was decided on its own before |
| AgentGrants.NeverDecidedAlone | core_engine/src/agent_harness/mod.rs:2146-2180 | a run whose batches are decided as a whole always meets the condition for running exactly what was shown |
| AgentGrants.SingleToolWasShown | tauri_app/src-tauri/src/commands/agent.rs:945-967 | outside of ticks nothing runs but the one approved tool, at the index at which it was shown |
| AgentGrants.ApprovingTheRestRunsAll | tauri_app/src-tauri/src/commands/agent.rs:1044-1047 | deciding one tool and approving the rest runs the whole batch again, the decided tool included |
| AgentCosts.RunsAreBounded | core_engine/src/agent_harness/mod.rs:2038-2122 | from a positive budget: at most as many answered model calls as iterations allowed, at most one failed call more per message sent, fewer than two `Continue` per iteration, and all charges but the last below the budget together |
| AgentCosts.EndIsFinal | core_engine/src/agent_harness/mod.rs:2299-2309 | a run that has finished or failed stays so at no further cost until its user sends a message, though budget and iterations are checked before the state; only a change of workspace still adds to its history |
| AgentCosts.FinalTextIsKept | core_engine/src/agent_harness/mod.rs:2050-2062 | the final text outlives the next tick if and only if iterations are left |
| AgentAnswers.AnswersReachTheHistory | core_engine/src/agent_harness/mod.rs:2233-2278 | in every reachable session that executes, a tick appends, for each call it runs, a result with the id and name of the call and the text and success of its tool, and runs the newest batch up to its end or to the first failure that is not retried |
| AgentAnswers.TickStoresAnswers | core_engine/src/agent_harness/mod.rs:2203-2288 | the same for any session whose newest batch carries ids, with the state behind it: thinking again, or the error of the tool that stopped it |
| AgentAnswers.RunHasIds | core_engine/src/agent_harness/mod.rs:2139-2144 | in every reachable session all calls carry ids, those in the history and those waiting |
| AgentAnswers.ApprovedToolIsAnswered | tauri_app/src-tauri/src/commands/agent.rs:954-1043 | the one tool approved leaves its own text and success, the others go on waiting |
| AgentAnswers.RejectedToolIsAnswered | tauri_app/src-tauri/src/commands/agent.rs:681-706 | the one tool rejected leaves a failed result with the refusal of the user |
| AgentAnswers.RejectedToolsAreAnswered | tauri_app/src-tauri/src/commands/agent.rs:742-762 | rejecting all leaves one failed result for each tool waiting, in order |
| AgentAnswers.AnswerIsFollowed | core_engine/src/agent_harness/mod.rs:2074-2201 | an answer that can be paid for is appended as the final text, or as a batch with numbered ids that runs unasked if and only if all its tools are among the ten that read; native calls come before those found in the text |
| AgentAnswers.LastChargeEndsRun | core_engine/src/agent_harness/mod.rs:2092-2122 | a call that uses up the budget ends the run before its answer is looked at |
| AgentAnswers.FailedCallEndsRun | core_engine/src/agent_harness/mod.rs:2082-2090 | a failed call ends the run with its error and costs nothing |
| AgentAnswers.ChargeIsQuarterOfText | core_engine/src/agent_harness/mod.rs:2094-2113 | the charge is a quarter of the bytes of prompt and all texts of the history put together, and a quarter of those of the answer |
| AgentAnswers.UnaskedIff | core_engine/src/agent_harness/mod.rs:1986-2017 | a batch needs no approval if and only if each of its tools is one of the ten named |
| AgentAnswers.UsedUpRunsEnd | core_engine/src/agent_harness/mod.rs:2038-2062 | budget first, then iterations: a tick ends a run that has used up either, whatever its state |
| AgentAnswers.QuietStatesStay | core_engine/src/agent_harness/mod.rs:2290-2322 | a tick waits with waiting tools, repeats the end of a run, and takes a run to be verified as finished |
| AgentAnswers.WordsAreStored | tauri_app/src-tauri/src/commands/agent.rs:329-339 | what the user writes is appended as it stands |
| AgentAnswers.NoticeTells | core_engine/src/agent_harness/mod.rs:2379-2388 | the notice that stands for what was cut |
| AgentSession.LiveSession.Step | core_engine/src/agent_harness/mod.rs:2028-2324 | the transition on the live session: new state, history, counters, result and outside effects are those of the step function the run theorems are about |
| AgentSession.LiveSession.StepThinking | core_engine/src/agent_harness/mod.rs:2073-2201 | compaction, model call, charge, batch or final text, with the budget checked a second time |
| AgentSession.LiveSession.StepExecuting | core_engine/src/agent_harness/mod.rs:2203-2288 | the newest batch is run, or its absence is an error |
| AgentSession.LiveSession.RunTools | core_engine/src/agent_harness/mod.rs:2233-2278 | results are appended one by one until a failure that is not retried |
| AgentSession.LiveSession.EstimateCharge | core_engine/src/agent_harness/mod.rs:2094-2113 | the charge is a quarter of the lengths in bytes of prompt, compacted history and answer |
| AgentSession.LiveSession.AssignCallIds | core_engine/src/agent_harness/mod.rs:2139-2144 | missing and empty call ids are numbered by position, others kept |
| AgentSession.LiveSession.CompactHistory | core_engine/src/agent_harness/mod.rs:2351-2392 | the field becomes the compacted history |
| AgentSession.LiveSession.Approve | tauri_app/src-tauri/src/commands/agent.rs:1044-1047 | waiting tools go to execution; otherwise nothing changes |
| AgentSession.LiveSession.Reject | tauri_app/src-tauri/src/commands/agent.rs:742-762 | every waiting tool gets a failed result, in order, and the model is asked again |
| AgentSession.LiveSession.ApproveTool | tauri_app/src-tauri/src/commands/agent.rs:945-1043 | the one tool runs, its result is appended, the rest stays waiting |
| AgentSession.LiveSession.RejectTool | tauri_app/src-tauri/src/commands/agent.rs:674-762 | the one tool gets a failed result, the rest stays waiting; an index out of range drops all of them |
| AgentSession.LiveSession.AddUserMessage | tauri_app/src-tauri/src/commands/agent.rs:329-339 | a message restarts the session unless tools wait |
| AgentSession.LiveSession.SwitchWorkspaceTo | tauri_app/src-tauri/src/commands/agent.rs:2181-2194 | the reminder is appended in the name of the user, whatever the state |
| VmxRoundTrip.RoundTripIff | core_engine/src/vm_engine/config.rs:43-116 | `from_vmx(to_vmx(c)) == c` if and only if all strings are one line without outer quotes and firmware and disk size are set; numbers, forwards and extra disks always survive |
| VmxRoundTrip.ReadsBackWithDefaults | core_engine/src/vm_engine/config.rs:83-116 | when only firmware or disk size are missing, what comes back differs in just their defaults |
| VmxRoundTrip.PrintedTextIsNormalForm | core_engine/src/vm_engine/config.rs:83-116 | for every text, parse-print-parse equals parse if and only if the disk size is absent or a 32-bit number |
| VmxRoundTrip.PrintingIsInjective | core_engine/src/vm_engine/config.rs:43-80 | no two clean, complete configurations print alike |
| VmxRoundTrip.ReadIsClean | core_engine/src/vm_engine/config.rs:87-115 | every configuration read from any text meets the conditions for printing it, and has a firmware |
| Vmx.ReadPrintedLine | core_engine/src/vm_engine/config.rs:87-101 | a printed line, with a clean key and value, is read as exactly that entry |
| Vmx.PrintedValue | core_engine/src/vm_engine/config.rs:43-80 | the key map built from the printed lines answers, for each of the seventeen keys, what was printed under it or nothing |
| VmxAdvanced.AdvancedRoundTrip | core_engine/src/vm_engine/advanced.rs:23-81 | the advanced lines read back into the same settings, lists grown index by index |
| VmxAdvanced.ReadForwardPair | core_engine/src/vm_engine/advanced.rs:47-65 | the two lines of forward `i` append one pair to a list of length `i` |
| VmxProgram.PrintVmx | core_engine/src/vm_engine/config.rs:43-80 | the printing loop computes the text the theorems are about |
| VmxText.TextAsPrinted | core_engine/src/vm_engine/config.rs:43-80 | the printed text, line by line and key by key |
| VmxText.FieldsAsRead | core_engine/src/vm_engine/config.rs:103-115 | which key each field is read from, and its value when the key is absent or a number is malformed |
| VmxText.SettingAsRead | core_engine/src/vm_engine/config.rs:87-101 | a quoted setting is read as its key and value, whatever white space is around and inside it |
| VmxText.IdleLineDoesNotMatter | core_engine/src/vm_engine/config.rs:87-92 | a blank line, a comment or a line without an equals sign can be put in anywhere |
| VmxText.ScalarsAsRead | core_engine/src/vm_engine/advanced.rs:41-46 | sound is on if and only if its value is the word true in any case; the timeout takes any 32-bit number and ignores the rest |
| VmxText.ForwardAsRead | core_engine/src/vm_engine/advanced.rs:47-65 | one port is stored, the list growing with empty forwards; the other port and the other forwards stay; what is no port only makes it grow |
| VmxText.DiskAsRead | core_engine/src/vm_engine/advanced.rs:66-79 | one path is stored, the list growing with empty paths; the others stay |
| VmxProgram.ReadVmx | core_engine/src/vm_engine/config.rs:83-116 | the reading loop computes the configuration the theorems are about |
| VmxProgram.AdvancedLines | core_engine/src/vm_engine/advanced.rs:23-38 | the two indexed printing loops |
| VmxProgram.AdvancedSettings.ParseVmxLine | core_engine/src/vm_engine/advanced.rs:40-81 | one line updates the settings in place, as its key and value say, or leaves them alone |
| VmxProgram.AdvancedSettings.StoreForward | core_engine/src/vm_engine/advanced.rs:54-63 | the list grows with empty pairs up to the index, then one port of the slot is set |
| VmxProgram.AdvancedSettings.StoreDisk | core_engine/src/vm_engine/advanced.rs:72-77 | the list grows with empty paths up to the index, then the slot is set |
| Decimals.ParseOfPrint | core_engine/src/vm_engine/config.rs:106-113 | a printed number that fits its type is read back |
| Decimals.ParseIff | core_engine/src/vm_engine/config.rs:106-113 | a number is read from digits and at most one plus sign in front, and refused when empty, too large or anything else |
| Decimals.DigitsAreDecimal | core_engine/src/vm_engine/config.rs:106-113 | each digit counts ten times less than the one in front of it |
| SummaryRoundTrip.RoundTripEscapes | core_engine/src/agent_harness/compaction.rs:72-155 | for all strings, a printed summary comes back with every list and field in order, each string exactly escaped, discoveries and key outputs empty |
| SummaryRoundTrip.RoundTripIff | core_engine/src/agent_harness/compaction.rs:72-155 | it comes back unchanged if and only if no string holds one of the four characters and there are no discoveries and key outputs |
| SummaryRoundTrip.NothingElseIsLost | core_engine/src/agent_harness/compaction.rs:72-121 | two summaries with the same text agree on everything but discoveries and key outputs |
| SummaryRoundTrip.ListComesBack | core_engine/src/agent_harness/compaction.rs:132-137 | each list tag extracts its own list from the whole document, and nothing of another |
| SummaryText.DocumentText | core_engine/src/agent_harness/compaction.rs:72-121 | the printed document, piece by piece: which element each field stands in, in which order, escaped |
| XmlEscape.FourPassesAreOne | core_engine/src/agent_harness/compaction.rs:185-190 | the four chained replacements are one replacement per character: no pass touches what an earlier one wrote |
| XmlEscape.EscapeInjective | core_engine/src/agent_harness/compaction.rs:185-190 | escaping loses nothing |
| XmlEscape.EscapeIsIdentityIff | core_engine/src/agent_harness/compaction.rs:185-190 | escaping is the identity if and only if none of the four characters occurs |
| Markup.ExtractAllFromRender | core_engine/src/agent_harness/compaction.rs:166-183 | on text rendered from tags and tag-free pieces, the left-to-right search for an element finds the elements of the list |
| Markup.ExtractTagFromRender | core_engine/src/agent_harness/compaction.rs:157-164 | the same for the first element |
| SummaryProgram.ExtractTagMulti | core_engine/src/agent_harness/compaction.rs:166-183 | the searching loop with its moving start computes all extracted texts |
| SummaryProgram.PrintXml | core_engine/src/agent_harness/compaction.rs:72-121 | the printing loops compute the document the theorems are about |
| CallTags.BlocksParse | core_engine/src/agent_harness/parser.rs:247-285 | call blocks with free text between them, arguments without their closing tag, parse to exactly those calls in order |
| CallTags.BlocksComeFirst | core_engine/src/agent_harness/parser.rs:247-285 | call blocks in front of any text put their calls in front of its calls |
| CallTags.UnclosedTagYields | core_engine/src/agent_harness/parser.rs:268-278 | behind any blocks, an unclosed tag in front of ASCII text yields one call with the first balanced block as its arguments, or none when there is no block |
| CallTags.UnclosedTagPanicsIff | core_engine/src/agent_harness/parser.rs:268-278 | an unclosed tag behind any blocks, with no closing and no other tag behind it, stops the program if and only if nothing follows it, or the bytes counted for its first block, from the opener or from the tag on, do not end at the end of a character |
| CallTags.AsciiGetsBehind | core_engine/src/agent_harness/parser.rs:268-278 | on ASCII text that is if and only if nothing follows the tag |
| CallTags.UnclosedTagBeforeWideLetterPanics | core_engine/src/agent_harness/parser.rs:277-277 | a tag in front of a letter two bytes wide stops the program |
| CallTags.NoPanicBeforeTheEnd | core_engine/src/agent_harness/parser.rs:247-285 | ASCII text is searched to its end unless that is a call tag which nothing follows |
| CallTags.UnclosedTagAtTheEndPanics | core_engine/src/agent_harness/parser.rs:269-277 | an unclosed call tag at the very end, behind any blocks, makes the search step past the end of the text |
| CallTags.ParseXmlCallTags | core_engine/src/agent_harness/parser.rs:247-285 | the loop finds the calls, filtered by the builder, or stops the program just where the search does, positions counted in bytes |
| Thoughts.StripsFirstThought | core_engine/src/agent_harness/parser.rs:81-90 | what is left of an answer does not depend on its first thought |
| Thoughts.StripsUnfinishedThought | core_engine/src/agent_harness/parser.rs:86-90 | an unfinished thought takes the rest of the answer with it |
| Thoughts.ThoughtsAreNotCalls | core_engine/src/agent_harness/parser.rs:55-136 | for any parsing strategies, changing the text of the first thought of an answer that is no notification changes no tool call found |
| Thoughts.FirstFindingWins | core_engine/src/agent_harness/parser.rs:92-136 | the strategies are tried in turn until one finds something |
| JsonScan.BlockEndIsBlock | core_engine/src/agent_harness/parser.rs:1029-1062 | the end found is that of the shortest text from the opener at which the string-aware depth is back at zero; none is found if and only if there is none |
| JsonText.FirstBlockIsJson | core_engine/src/agent_harness/parser.rs:1029-1062 | the first object or array of free text, with any strings and escapes inside, is the first block, and is returned as it stands if and only if it is ASCII |
| JsonText.JsonIsBlock | core_engine/src/agent_harness/parser.rs:991-1018 | an object or array is a block wherever it stands |
| JsonText.CandidatesAreJson | core_engine/src/agent_harness/parser.rs:980-1026 | the candidates of free text without fences are its objects and arrays |
| JsonText.AddAllIsDistinct | core_engine/src/agent_harness/parser.rs:1015-1020 | each text once, and none left out |
| JsonScan.BalancedJsonIff | core_engine/src/agent_harness/parser.rs:1037-1054 | as many bytes are taken as the first block has characters: that is the block if and only if it is ASCII, and nothing if and only if there is none |
| JsonScan.ExtractBalancedJson | core_engine/src/agent_harness/parser.rs:1029-1062 | the loop returns so many bytes from the first opener on, or stops the program inside a character, or returns nothing |
| Utf8.TakeBytesIff | core_engine/src/agent_harness/parser.rs:1054-1054 | the first `n` bytes of a text are its first `n` characters if and only if these are ASCII |
| Utf8.WidthIsEncodedLength | core_engine/src/agent_harness/parser.rs:277-277 | a character is as wide as its encoding |
| Text.ContainsIff | core_engine/src/process/tree.rs:35-35 | a text contains a word if and only if the word stands somewhere in it |
| JsonCandidates.CandidatesAreBlocks | core_engine/src/agent_harness/parser.rs:955-1027 | behind those in fenced code, the candidates are distinct texts of disjoint blocks from left to right, none taken before and none missing |
| JsonCandidates.FencesAreTaken | core_engine/src/agent_harness/parser.rs:958-978 | of text made of fences the trimmed code of every fence without a language, or in JSON or JavaScript, is taken, in order |
| JsonCandidates.SpansAreGreedyBlocks | core_engine/src/agent_harness/parser.rs:980-1026 | the blocks met are the only list that takes, again and again, the block at the next opener, until one never closes |
| JsonCandidates.FirstCandidateIsBalanced | core_engine/src/agent_harness/parser.rs:955-1062 | without fenced code the two scanners agree on there being no block, and on the first block if and only if it is ASCII |
| JsonCandidates.ExtractJsonCandidates | core_engine/src/agent_harness/parser.rs:955-1027 | the search for fences and the nested loops compute the candidates |
| JsonRepair.OnlyAppends | core_engine/src/agent_harness/parser.rs:902-944 | the repair appends at most one quote and then one brace per open level |
| JsonRepair.EndsOutsideIff | core_engine/src/agent_harness/parser.rs:902-936 | it ends outside any string if and only if its two passes agree on the input |
| JsonRepair.EscapedQuoteStaysOpen | core_engine/src/agent_harness/parser.rs:908-936 | they do not on an escaped quote outside of any string, and the repaired text ends in a string |
| JsonRepair.ClosesBracesIff | core_engine/src/agent_harness/parser.rs:919-941 | and then the depth is zero if and only if the input was not over-closed |
| JsonRepair.RepairIsIdempotentIff | core_engine/src/agent_harness/parser.rs:902-944 | repairing twice is repairing once if and only if the added quote was not escaped and no brace was added inside a string |
| JsonRepair.OrdinaryTextIsClosed | core_engine/src/agent_harness/parser.rs:902-944 | text with no backslash outside strings and no dangling escape comes back closed, at depth zero unless over-closed, and needs no second repair |
| JsonUnfinished.UnfinishedIsClosed | core_engine/src/agent_harness/parser.rs:902-944 | a JSON text that breaks off anywhere outside of an escape is closed by a quote, if a string was open, and one brace for each open object; open arrays are not closed |
| JsonUnfinished.FinishedIsLeftAlone | core_engine/src/agent_harness/parser.rs:902-944 | a JSON text that does not break off is left alone |
| JsonRepair.FixMissingBrackets | core_engine/src/agent_harness/parser.rs:902-944 | the three loops compute the repaired text |
| RateLimit.DecidesAsTheWholeLog | core_engine/src/agent_harness/sandbox.rs:22-59 | over every run with an advancing clock the queue is the log of admitted calls cut to the second before the last check, and a request is refused for its rate, or admitted, exactly as the whole log would decide |
| RateLimit.NoSecondHoldsMore | core_engine/src/agent_harness/sandbox.rs:38-59 | no closed second, wherever it starts, holds more than twenty admitted calls |
| RateLimit.PruneIsRecent | core_engine/src/agent_harness/sandbox.rs:42-49 | popping old calls from the front of a sorted queue is filtering it |
| RateLimit.DomainIsHost | core_engine/src/agent_harness/sandbox.rs:61-66 | the domain is the text between the scheme and the first slash or colon |
| RateLimit.UrlVerdictIff | core_engine/src/agent_harness/sandbox.rs:67-82 | an address is refused if it names no host, or a host that is on the list or below a domain on it |
| RateLimit.OthersAreAllowed | core_engine/src/agent_harness/sandbox.rs:22-36 | calls of other tools are let through and leave no trace |
| RateLimit.SandboxManager.CheckExecution | core_engine/src/agent_harness/sandbox.rs:22-36 | the answer and the new queue: rate first, then the address, and only an admitted call is recorded |
| RateLimit.SandboxManager.CheckRateLimit | core_engine/src/agent_harness/sandbox.rs:38-59 | the popping loop prunes the queue, and the answer is whether fewer than twenty calls are left |
| LogRotation.LogKeepsItsEnd | core_engine/src/process/logging.rs:8-98 | after any openings and writes the six files, oldest first, are an end of the log cut between records, holding five limits of it or all of it, and the current file was below the limit before its last record |
| LogRotation.LogKeepsItsBytes | core_engine/src/process/logging.rs:8-98 | the same in bytes: the files are the last bytes written, at least five limits of them or all |
| LogRotation.NothingLostEarly | core_engine/src/process/logging.rs:8-98 | all records are there as long as they amount to less than five limits |
| LogRotation.RotationShifts | core_engine/src/process/logging.rs:17-26 | under gapless backups every file moves up by one and only the oldest is lost |
| LogRotation.LogDirectory.RotateLogFile | core_engine/src/process/logging.rs:8-26 | the descending renames, each if its file exists, then the current file; nothing below the limit |
| LogRotation.LogDirectory.OpenLog | core_engine/src/process/logging.rs:84-90 | opening for append creates the current file if it is missing |
| LogRotation.LogDirectory.WriteLogWithRotation | core_engine/src/process/logging.rs:68-98 | the record goes to the end of the current file, which is rotated and created anew first if it has reached the limit |
| QgaFraming.ChunksDoNotMatter | core_engine/src/vm_engine/qga_client.rs:26-51 | connections whose reads carry the same bytes, however cut and with whatever failed reads, hand out the same messages up to the close: the valid newline-ended ones, in order |
| QgaFraming.SessionServesAll | core_engine/src/vm_engine/qga_client.rs:26-51 | by the close of a connection every message has been handed out once, in order, and every failed read reported once |
| QgaFraming.AllAreServedInOrder | core_engine/src/vm_engine/qga_client.rs:26-51 | over any number of calls, the messages handed out and those to come are the messages of the stream; none is lost or repeated |
| QgaFraming.LinesRebuildTheStream | core_engine/src/vm_engine/qga_client.rs:31-40 | the lines with their newlines are a prefix of the stream that leaves no newline over |
| QgaFraming.FirstAnswerIsFirst | core_engine/src/vm_engine/qga_client.rs:69-78 | the answer is the first message that carries an error or a result |
| QgaFraming.QgaClient.ReadResponse | core_engine/src/vm_engine/qga_client.rs:26-51 | one call does what the function does that the theorems are about; consumed lines, buffer and unread bytes rebuild the stream, and the next valid message is returned, or the failure with all messages still to come |
| QgaFraming.QgaClient.Execute | core_engine/src/vm_engine/qga_client.rs:69-79 | the first message that carries an error or a result is answered, everything before it skipped, everything behind it left |
| ProcessTree.CollectTree | core_engine/src/process/details.rs:131-149 | the search visits the reflexive and transitive children of the root, each once, and ends even on parent cycles |
| ProcessTree.QueueIsTree | core_engine/src/process/details.rs:135-149 | an exhausted queue holds exactly the tree |
| KillTree.CollectKillList | core_engine/src/process/tree.rs:88-106 | the kill list is the root and what it reaches through safe children, without repeats, each behind its parent; every test on the way ends because that of the root does |
| KillTree.KilledBeforeParent | core_engine/src/process/tree.rs:108-113 | in reverse order every process but the root is killed before the parent that found it |
| KillTree.KillTreeOf | core_engine/src/process/tree.rs:81-116 | if the test of the root comes to an answer: nothing is killed when the root is not safe; otherwise the existing processes of the list are, children first and the root last, and none of them is known to belong to another user |
| KillTree.IsDescendantOf | core_engine/src/process/tree.rs:51-64 | where the walk to the parents ends, it answers whether we are a proper ancestor |
| KillTree.WalkNeverEndsIff | core_engine/src/process/tree.rs:54-64 | the walk never ends if and only if it starts in a set of processes whose parents are in the set and are not us |
| KillTree.RankedWalkEnds | core_engine/src/process/tree.rs:54-64 | without parent cycles every walk ends |
| KillTree.CycleElsewhere | core_engine/src/process/tree.rs:54-64 | a cycle the walk does not meet does not matter |
| KillTree.BelowOursIsOurs | core_engine/src/process/tree.rs:51-68 | whatever hangs below one of our descendants, at any depth, passes the ancestor test |
| KillTree.SafeBelowOurs | core_engine/src/process/tree.rs:30-68 | below our descendants a process is safe if and only if its name is not blocked and its owner is ours |
| KillTree.IsSafeToKill | core_engine/src/process/tree.rs:19-79 | blocklist, then owner, then ancestors, then allowlist; a process already gone is safe; the walk has to end only if it is reached |
| KillTree.SafeIff | core_engine/src/process/tree.rs:19-79 | a running process is safe if and only if its name mentions no system process, its owner is not known to differ from ours, and it is our descendant or its name mentions a development tool |
| KillTree.CycleIsWalkedForever | core_engine/src/process/tree.rs:54-64 | on a parent cycle without us the ancestor walk never ends |
| Monitor.ActiveIffRegistered | core_engine/src/monitor.rs:83-100 | after any commands a project holds a pid if and only if it was registered and not deregistered since, and no project is left empty |
| Monitor.Aggregate | core_engine/src/monitor.rs:111-130 | the report lists every process below one of the roots once, by pid, and its memory is the sum over the union of the trees |
| Monitor.ResourceMonitor.Poll | core_engine/src/monitor.rs:82-131 | after all commands up to now, the projects reported are those with a registered pid, each with every process below its registered pids once and the memory of the union of their trees |
| Monitor.ReportedIffRegistered | core_engine/src/monitor.rs:83-115 | the pids held for a project are those registered and not deregistered since, so their trees are the registered trees |
| Monitor.TotalIsRam | core_engine/src/monitor.rs:120-120 | one line per counted process adds up to the memory the system shows for them |
| Monitor.UnionIsTrees | core_engine/src/monitor.rs:113-116 | in whatever order the registered pids are visited, their trees have the same union |
| Monitor.DedupKeeps | core_engine/src/monitor.rs:117-118 | on sorted lines, dropping neighbours with the same pid drops repeats and nothing else |
| Monitor.CollectChildProcesses | core_engine/src/process/details.rs:131-149 | one line per process of the tree, none for pid 0, sorted by pid |
| Monitor.ResourceMonitor.Handle | core_engine/src/monitor.rs:83-100 | one command updates the map of active projects |
| Worker.LifeAlternates | core_engine/src/process/executor.rs:184-661 | every life reports a setup, then runs and crashes in turn, then at most one end; a crash counts from one to five and backs off two to that power |
| Worker.StopEndsTheLife | core_engine/src/process/executor.rs:271-651 | a life observed beyond its stop has ended, stopped or given up |
| Worker.NoRunAfterStop | core_engine/src/process/executor.rs:271-277 | once a stop is sent, no later look at the top of the loop lets a process start |
| Worker.RestartsAreBounded | core_engine/src/process/executor.rs:589-622 | between runs longer than thirty seconds there are at most five restarts and sixty-two seconds of backoff |
| Worker.LongRunStartsOver | core_engine/src/process/executor.rs:591-594 | a crash behind a long run counts from one again |
| Worker.CountMeansSeries | core_engine/src/process/executor.rs:591-613 | a crash that counts `k` stands at the end of a series of `k` crashes |
| Worker.GivenUpAfterFive | core_engine/src/process/executor.rs:599-630 | a process is given up if it does not restart, or behind a full series of five crashes |
| Worker.RunIsFollowed | core_engine/src/process/executor.rs:570-658 | what follows every run of every life: the stop, a clean end, a crash counted from the start again behind a run longer than thirty seconds, with its wait of 2, 4, 8, 16 or 32 seconds, or giving up; and then the next turn |
| Worker.LifeBegins | core_engine/src/process/executor.rs:184-275 | a life that cannot be prepared ends at once, any other begins with its first turn |
| Worker.SixShortCrashesAreFatal | core_engine/src/process/executor.rs:591-630 | without a stop, runs of at most thirty seconds that crash in a row are given up, from any count with the sixth at the latest |
| Worker.ProjectWorker.Run | core_engine/src/process/executor.rs:184-661 | the loop reports the trace the theorems are about; process, tunnel and crash watcher are gone at every turn and at the end, and each tunnel started beside a reported run was ended once |
| Worker.ProjectWorker.Supervise | core_engine/src/process/executor.rs:570-651 | one turn from the running process on: on exit and on stop the watcher is ended and the tunnel if one was started; the counter is reset behind a long run |
| Worker.ProjectWorker.BackOff | core_engine/src/process/executor.rs:603-622 | a crash is counted and reported, and a stop ends the backoff |
| VectorIndex.RunsAreIndexed | core_engine/src/code_rag/db.rs:103-152 | after any operations every live entry is listed under its language and its project |
| VectorIndex.ListedIff | core_engine/src/code_rag/db.rs:103-152 | after any operations an id is listed under a language if and only if it was ever stored in it, and under a project if and only if it was stored in it since the project was last deleted |
| VectorIndex.LiveIff | core_engine/src/code_rag/db.rs:103-152 | an entry is live if and only if it was the last stored under its id and neither the id nor a project it was stored in has been deleted since |
| VectorIndex.ByLanguageIff | core_engine/src/code_rag/db.rs:165-175 | after any operations a query misses no live entry of the language, and returns nothing else if and only if no id was stored in the language and stored last in another |
| VectorIndex.MovedEntryIsReturned | core_engine/src/code_rag/db.rs:111-115 | an id stored in one language and then in another is still returned for the first |
| VectorIndex.ByProjectIff | core_engine/src/code_rag/db.rs:178-188 | the same for projects, counting what was stored since a project was last deleted |
| VectorIndex.SteadyQueriesAreExact | core_engine/src/code_rag/db.rs:103-188 | while ids keep their language and project, both queries return, as sets, exactly the live entries asked for |
| VectorIndex.VectorDb.UpsertEntry | core_engine/src/code_rag/db.rs:103-122 | the entry is stored and its id appended to both lists |
| VectorIndex.VectorDb.DeleteEntry | core_engine/src/code_rag/db.rs:132-135 | the entry is removed, the lists are left alone |
| VectorIndex.VectorDb.DeleteWholeProject | core_engine/src/code_rag/db.rs:138-152 | all ids listed for the project are removed, and its list |
| NameQuery.MetaIsLightQuery | core_engine/src/code_rag/query.rs:151-200 | the light query is the full query without the vectors, element by element |
| NameQuery.QueryReturnsShortest | core_engine/src/code_rag/query.rs:151-173 | results match, the names shortest in bytes first, and no match left out has a shorter name than one returned |
| NameQuery.CandidatesAreLive | core_engine/src/code_rag/query.rs:158-162 | while ids keep their language and project, the live entries of the language are searched, or else of the project, or else all |
| StableSorting.SortSorts | core_engine/src/code_rag/query.rs:170-170 | the sort gives a sorted permutation |
| StableSorting.SortIsStable | core_engine/src/code_rag/query.rs:170-170 | elements with the same key keep their order |
| StableSorting.SortCommutes | core_engine/src/code_rag/query.rs:197-197 | sorting looks at keys only, so it commutes with dropping the vectors |

## Left out

- Tool bodies, hooks, prompts, the user interface, the Tauri bridge, virtual machine start, browser, Wasm and the SQL text: input and output, or calls into libraries.
- `plan.rs`, `pipeline.rs`, `telemetry.rs`, the circuit breakers and `AppSettings`: not modelled, they are short or finite.
- Agent sessions: delays between retries and cancellation and time limits of a tick are not modelled. What the text parser finds in an answer, whether a failure is retried and the stamps taken from the clock are inputs.
- Agent messages: roles are an enumeration, and a call keeps the text of its arguments and not the parsed value. Iteration counts and budgets are unbounded.
- AgentCompaction.CompactedShape: stated for limits of at least three, since a smaller one makes the code index past the end of the history; the callers pass 40 or 80. It is stated for sessions that open with a user message, as all sessions do.
- AgentTranscript.RequestStaysInFront: needs that no call id given by the model and no other user message repeats the id of the opening message; otherwise compaction takes the opening message for one it has already kept.
- VmxRoundTrip.RoundTripIff: lists of forwards and disks hold at most 2^64 elements, and memory is not bounded, so a line with a huge index grows a list where the program would run out of memory.
- `generate_summary` only copies its arguments into the fields of a summary and is not modelled.
- Model answers: the rest of the JSON repair, `strip_tags` and the other parsing strategies are not modelled, except that `Thoughts.ThoughtsAreNotCalls` holds for any strategies; what is built of a call is an argument.
- CallTags.NoPanicBeforeTheEnd: for ASCII text, and in one direction, since an end that looks like an open tag may lie inside the arguments of a call that is closed before it; `CallTags.UnclosedTagPanicsIff` is exact for text whose tags are not nested.
- JsonRepair.FixMissingBrackets: the 32-bit counters of quotes and depth are unbounded.
- Sandbox: the domain of an address is cut out as in the code; reading it out of the JSON arguments is not modelled.
- LogRotation.LogKeepsItsEnd: one writer per log, a positive limit, and operations on files that do not fail. The purge after seven days is left out: its test of the extension never holds, because the extension of `name.log.1` is `1`.
- QgaFraming.QgaClient.ReadResponse: reads may be larger than the 8192 bytes of the code's buffer; sending the request and the text of errors are left out. The QMP client, which drops what follows the first line of a chunk, is not modelled.
- KillTree.KillTreeOf: the branches for Windows and the kill by system commands behind a failure are left out; the processes do not change while the tree is killed.
- Monitor.Aggregate: processor shares, ports, modules and thread counts of the lines are left out; memory sums are unbounded.
- Worker.LifeAlternates: one worker at a time, and ending a tunnel or a process succeeds. Overlapping workers, the bookkeeping of `stop_process` and `force_fatal_stop`, proxies, injected environments and log tasks are left out; the setup before the loop is one yes or no.
- VectorIndex.SteadyQueriesAreExact: as sets, since an id stored again is listed twice and a deleted one stays listed. Locks are left out: operations happen one after the other.
- Embeddings and similarity search by floating point are left out. The search for a name, blind to case, is a predicate on names, and the library's stable sort is a function proved to sort and to be stable.
