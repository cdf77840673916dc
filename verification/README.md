# nlm-memory: verified models of its stateful cores

This project models, in Dafny, the parts of nlm-memory whose behaviour spans several steps, files or
processes, and proves what they promise. A file is a value (a string or a map of rows), a call to a model, a
clock or a scheduler is a parameter or an unconstrained choice, and exceptions are results.

- `ReplayModel`, `Replay`, `ReplayReport`: the checkpointed recall-impact replay. Three resumable loops over sampled pairs,
  with a crash possible before and after every save and around the report, and a budget exit before every pair; every
  report equals that of a run nothing interrupted, and enough invocations bring one out.
- `CodexScan`, `CodexHeaders`, `CodexConfig`, `CodexOwnership`, `CodexRoundTrip`, `CodexMigration`, `CodexHooks`: the Codex
  installer. The line scanners refine one specification (tag each line with its nearest `[` line, select by tag); the
  sentinel block is placed and cut out again; an old stdio table is told from a user's own and migrated; the hook table
  is merged and cleaned.
- `RecallSelect`, `RecallMemo`, `RecallInterleaved`: what the recall hooks inject in one conversation, fire after fire
  and with overlapping hook processes.
- `EnvFile`, `EnvLines`, `EnvRoundTrip`, `EnvSpelling`: the `.env` editor against the `.env` loader, line by line and file by
  file, and both against the spelling of the lines.
- `McpStdio`: the shutdown protocol of the stdio server, as turns of the event loop, with the error the call ends with.
- `ScopeBackfill`: the scope cascade over sessions, facts, exemplars, signals and workstreams.
- `LineFeed`, `JudgeStream`: line buffering over two streams, and the judge's stream reassembly.
- `EmbedPool`, `LabelPass`: a shared-counter worker pool and strided workers with a retry, under any scheduler.
- `NonceStore`: a purging single-use nonce store against a history that forgets nothing.
- `JudgeCache`, `ClassifierCache`: two write-once caches.
- `TailRead`: the last turns of a transcript, from its tail against from the whole file.
- `Wrappers`, `Seqs`, `Text`, `KeyValue`: optional values, list operations, splitting, trimming and searching, and lines of
  the form `key = value`.

Where a method computes what a function of the model says, further lemmas say in terms of the input what that function
yields: what the judge's replies make of a pair, which table is whose, what a line means to the loader, which hits a fire
injects, what the turns of the event loop bring.

The bundle `nlm/index.js` carries compiled copies of the hook, memo and loader code; the rows below cite the sources.

`dafny verify dfyconfig.toml` checks everything.

## Where the code and what is said about it differ

- The per-scope counts of facts, exemplars and signals are not counts of rows: each scope group raises its counter
  by one (`src/cli/scope-backfill.ts:163-166`). `TotalIsSumIffScopesDiffer` says exactly when they add up to the
  total, and `TwoFactsCountedOnce` gives a smallest failing case. Sessions and workstreams do add up.
- The `.env` loader never undoes the `\"` that the editor writes, so a value with a double quote does not come
  back, and a key that is first assigned as `KEY =` or only as `export KEY=` is not the editor's to set.
  `SetThenLoad` and `UnsetThenLoad` state both boundaries as equivalences over the shape of the lines, which
  `LineKinds` justifies; `SpacedKeyStays`, `ExportedKeyStaysUnset` and `QuoteComesBackEscaped` give the files that
  fail. The loader takes `export KEY=v` for a
  variable named `export KEY`, which an edit of `KEY` changes too (`ExportedKeyLoads`).
- A file with a begin marker and no end marker is left alone by a disconnect, as the comment at
  `src/install/codex.ts:240-244` promises. It is not safe over a round: the block that a connect adds at the end
  gives the orphaned marker an end, and the next disconnect deletes all the text between (`OrphanedBeginEatsText`).
- Connecting to Codex twice is not connecting once for a file that ends in three newlines or more
  (`ConnectTwice`).
- `embedAll` with no worker (a concurrency that does not parse) resolves with every entry missing (`EmbedAll`).
- A labelling call that throws an error with an empty message is counted as a parse failure, not as a failed call
  (`FailureCountedAsParseFail`). No place in the repository is known to throw such an error: this is what the
  truthiness test does, not an observed failure.
- The cached error text of a failed classification is cut to 500 characters, so it can differ from the one the first
  caller got (`SameAnswer`). A colon is not escaped in the cache key, and one database serves several models
  (`scripts/eval/classifier-eval.ts:355-361`): two of them can share a key exactly if one name with its colon is a
  prefix of the other (`ModelsShareIff`, with `ModelsCanShareAKey` as its smallest case), and a request shares its key
  exactly if its model or body has a colon (`KeySharedIff`).
- The replay saves after almost every model call, not every one: between a malformed verdict and its retry nothing
  is saved.

## Model

| member | source | states |
|---|---|---|
| ReplayModel.ResumeEquivalence | scripts/eval/recall-impact-replay.ts:314-408 | taking up any reachable saved state and finishing without interruption gives the records of a run that was never interrupted |
| Replay.Evaluate | scripts/eval/recall-impact-replay.ts:314-460 | under every schedule of crashes and budget exits a report that comes out equals that of an uninterrupted run, and one comes out once there are more invocations than points up to the schedule's last interruption |
| Replay.Evaluation.RunToReport | scripts/eval/recall-impact-replay.ts:300-468 | every report written in any number of invocations is the uninterrupted one; a pair costs at most two generator calls and one more per crash; invocations that end without a report were each interrupted |
| Replay.Evaluation.Invoke | scripts/eval/recall-impact-replay.ts:314-468 | one invocation that nothing interrupts finishes with the uninterrupted records; any other leaves a state file in which every settled pair is as before |
| Replay.Evaluation.LoadState | scripts/eval/recall-impact-replay.ts:314-323 | an existing state file is taken up unchanged; a new one holds the drawn sample |
| Replay.Evaluation.SaveState | scripts/eval/recall-impact-replay.ts:237-241 | the file is replaced as a whole by the records in memory |
| Replay.Evaluation.GeneratePair | scripts/eval/recall-impact-replay.ts:330-347 | a pair's generation leaves the file as it was, with arm A alone, or complete, and no other pair changes |
| Replay.Evaluation.GenerateAll | scripts/eval/recall-impact-replay.ts:327-348 | when the loop runs through every pair is generated; settled pairs keep their records whatever stops it |
| Replay.Evaluation.JudgePair | scripts/eval/recall-impact-replay.ts:354-379 | a judge call requires that every pair is generated, and changes one pair to its judged record or nothing |
| Replay.Evaluation.JudgeAll | scripts/eval/recall-impact-replay.ts:353-380 | when the loop runs through every pair is settled |
| Replay.Evaluation.JudgeAllAgain | scripts/eval/recall-impact-replay.ts:386-408 | when the loop runs through the records are those of an uninterrupted run |
| Replay.Evaluation.Report | scripts/eval/recall-impact-replay.ts:411-468 | the report holds the current records and the state file goes only after it; a death before, between or after leaves the file |
| ReplayModel.PathFinishes | scripts/eval/recall-impact-replay.ts:327-408 | from every state a pair passes through the remaining phases end where the whole path ends, and a winner implies both responses and the order |
| ReplayModel.PhasesLawful | scripts/eval/recall-impact-replay.ts:330-406 | generating, judging and double judging are each idempotent, touch only their own fields and account for every generator call |
| ReplayModel.ShufflePermutes | scripts/eval/lib/recall-impact-replay-lib.ts:44-53 | the seeded shuffle is a permutation for all draws |
| ReplayModel.ShuffleReaches | scripts/eval/lib/recall-impact-replay-lib.ts:44-53 | and every permutation comes out for some draws |
| Replay.SubsampleStable | scripts/eval/recall-impact-replay.ts:387-389 | once all pairs are judged, the double-judge subsample is the same in every resumed run |
| Replay.AllDone | scripts/eval/recall-impact-replay.ts:386-408 | judged records whose subsample is done are exactly the uninterrupted records |
| Replay.CallBound | scripts/eval/recall-impact-replay.ts:327-348 | in every reachable saved state a pair has cost at most two generator calls and one more per crash |
| Replay.ReportedPair | scripts/eval/recall-impact-replay.ts:349-413 | at the metrics every pair is exactly one of generation-failed, judge-failed and won |
| ReplayReport.ReportedResponses | scripts/eval/recall-impact-replay.ts:330-347 | a reported pair holds the generator's answers with and without its block, and failed generation exactly if one of the two calls fails |
| ReplayReport.ReportedVerdict | scripts/eval/recall-impact-replay.ts:357-376 | by the judge's replies alone: a generated pair is malformed exactly if both calls reply and neither reply parses, judge-failed exactly if the first call throws or the first reply does not parse and the retry throws, and else won by the arm shown at the place that the first reply that parses favours |
| ReplayReport.ReportedAgain | scripts/eval/recall-impact-replay.ts:390-406 | a pair is double-judged exactly if it was drawn and the call replies, in the order of its first judging; its second winner is the arm at the favoured place, or a tie if the reply does not parse |
| ReplayReport.TwiceDrawn | scripts/eval/recall-impact-replay.ts:386-390 | of a full run's won pairs at most twenty are drawn, each once, and all if there are fewer; a pilot draws none |
| ReplayReport.WonFairly | scripts/eval/recall-impact-replay.ts:357-406 | with a judge whose replies, when they parse, favour the better response wherever it is shown, every pair won without a malformed judging is won by the arm with the better response, and a second judging agrees or is a tie |
| ReplayReport.ReportedFairly | scripts/eval/recall-impact-replay.ts:357-406 | if such a judge also always replies, and readably when asked again though perhaps not at first, every generated pair is won so whatever order was drawn, and a second judging agrees |
| CodexScan.KeptLines | src/install/codex.ts:211-222 | the dropping flag selects exactly the lines that stand under no nlm header |
| CodexScan.NlmTableBodies | src/install/codex.ts:192-208 | one group per nlm header, in order, each the lines up to the next header; together the groups are exactly the captured lines |
| CodexScan.FreshLines | src/install/codex.ts:525-543 | the stale flag selects exactly the lines that are no old sentinel comment and stand under no stale header |
| CodexScan.RemovalLoses | src/install/codex.ts:192-224 | what removal drops is the nlm headers of the file and, in order, exactly the lines the body capture returns |
| CodexScan.RemovalConserves | src/install/codex.ts:211-222 | kept and dropped lines together are the file's lines, as a multiset |
| CodexScan.RemovalsCommute | src/install/codex.ts:211-222 | removing nlm tables and removing stale sections commute |
| CodexScan.RemovalsIdempotent | src/install/codex.ts:525-543 | both removals are idempotent, and the first leaves nothing for the body capture |
| CodexHeaders.NlmHeaderSpelled | src/install/codex.ts:199-203 | which lines begin a section that removal drops: the table's own header and those of its dotted sub-tables |
| CodexHeaders.StaleHeaderSpelled | src/install/codex.ts:509-515 | which headers are stale: those with the old marketplace suffix in them, and the old table's, its name bare or quoted |
| CodexHeaders.StaleCommentSpelled | src/install/codex.ts:531-533 | which comments are stale: sentinels of either kind with the old name in them |
| CodexHeaders.StaleInTheMiddle | src/install/codex.ts:525-545 | a stale section goes up to the next header and nothing else goes |
| CodexHeaders.StaleCommentGoes | src/install/codex.ts:531-533 | a stale comment goes by itself |
| CodexConfig.RemoveNlmMcpTables | src/install/codex.ts:211-224 | the kept lines joined, with runs of blank lines collapsed |
| CodexConfig.IsOurStdioTable | src/install/codex.ts:162-189 | decides by the captured lines alone whether the table is one this installer wrote |
| CodexConfig.RejoiningIsHarmless | src/install/codex.ts:165-168 | joining each body and splitting it again changes no meaningful line |
| CodexOwnership.CommandSpelled | src/install/codex.ts:184-186 | the command test holds exactly of a path, perhaps in quotes, whose last name is `nlm`, `nlm.js` or `node`; slashes at its end do not count |
| CodexOwnership.ArgsSpelled | src/install/codex.ts:187-187 | the argument test holds exactly of a text with a quoted `mcp` at its start or behind a bracket, a comma or white space |
| CodexOwnership.OursSpelled | src/install/codex.ts:165-188 | a table counts as the installer's exactly if it has entries, no keys but the three, a first `command` line that runs nlm and a first `args` line with the subcommand, each line as it is spelled |
| CodexOwnership.ConnectOutcomes | src/install/codex.ts:134-153 | which outcome, by the lines of the file: written exactly if no line declares the table, migrated exactly over http and if the table counts as the installer's, else skipped with the file as stripped |
| CodexOwnership.WrapperIsSkipped | src/install/codex.ts:176-188 | a table whose command is any other program, a wrapper script say, is left alone |
| CodexOwnership.OtherArgsAreSkipped | src/install/codex.ts:187-188 | so is one whose arguments do not hold the subcommand, or that has none |
| CodexOwnership.HttpBlockSets | src/install/mcp-block.ts:101-105 | read back, the block of an http connect holds the endpoint on its port and the token's variable, and nothing else |
| CodexOwnership.StdioBlockSets | src/install/mcp-block.ts:98-100 | read back, the block of a stdio connect holds the command and its subcommand, and nothing else |
| CodexConfig.ConfigFile.Connect | src/install/codex.ts:124-153 | the new file and the result are those of the specification, for a missing file too |
| CodexConfig.ConfigFile.Disconnect | src/install/codex.ts:231-238 | cuts the block and reports whether anything changed |
| CodexRoundTrip.StripPlaced | src/install/codex.ts:245-258 | cutting out the placed block leaves the base, settled to one trailing newline less or more, and everything written behind the block |
| CodexRoundTrip.StripSpelled | src/install/codex.ts:245-258 | whatever stands between and around the markers, a disconnect cuts from the first begin to the end of the first end behind it, with one newline before and one behind |
| CodexRoundTrip.StripNothing | src/install/codex.ts:246-251 | without such a pair of markers it changes nothing |
| CodexRoundTrip.NoLinesJoined | src/install/codex.ts:124-258 | no two user lines before or behind the block are joined: every line that is not blank is there again, in order |
| CodexRoundTrip.RoundSettles | src/install/codex.ts:124-258 | on a file without sentinel or nlm table, connect writes the block and disconnect gives back the settled file, again without either |
| CodexRoundTrip.RoundsKeepText | src/install/codex.ts:124-258 | on a file without a begin marker or nlm table any number of rounds keeps the text up to trailing newlines and never leaves it longer than one newline more |
| CodexRoundTrip.RoundFixed | src/install/codex.ts:245-258 | a round changes such a file in nothing exactly if it is empty or ends in exactly one newline |
| CodexRoundTrip.ConnectTwice | src/install/codex.ts:124-153 | a second connect of such a file changes nothing exactly if it does not end in three newlines; otherwise it acts as on a file one newline shorter |
| CodexRoundTrip.OrphanedBeginEatsText | src/install/codex.ts:240-258 | a begin marker without an end marker: a disconnect leaves the file alone, but a connect and then a disconnect delete everything from the marker on |
| CodexRoundTrip.BlockTableLines | src/install/mcp-block.ts:97-106 | the emitted block holds exactly one nlm table line |
| CodexRoundTrip.RemovalLeavesNone | src/install/codex.ts:211-229 | after removal no line declares the nlm table, blank-run collapse included |
| CodexRoundTrip.ExactlyOneTable | src/install/codex.ts:124-153 | a `written` or `migrated-stdio` result holds exactly one nlm table line, whatever the file held |
| CodexRoundTrip.MigrationDeletesOnlyOurs | src/install/codex.ts:162-224 | a migration deletes nothing but nlm headers, blank lines, comments and entries under the three keys the installer wrote |
| CodexRoundTrip.CustomTableIsSkipped | src/install/codex.ts:139-147 | a table with an entry under any other key is left as it is |
| CodexMigration.OwnTableMigrates | src/install/codex.ts:124-224 | a stdio table this installer wrote is recognised anywhere in the file, sub-tables included; the migration removes it and keeps every other line |
| CodexMigration.StdioBodyLooksOurs | src/install/codex.ts:162-189 | any command and arguments of the accepted form, with comments and the format setting, are recognised |
| CodexMigration.StdioTableWithEnv | src/install/codex.ts:162-208 | the same with the format setting in an env sub-table |
| CodexMigration.InstallerForms | src/install/codex.ts:178-188 | the installed command and node running a script are of that form |
| CodexMigration.TableInTheMiddle | src/install/codex.ts:192-222 | with one nlm table and its sub-tables in a file, capture finds exactly the body lines and removal leaves exactly the rest |
| CodexRoundTrip.CollapseKeeps | src/install/codex.ts:223-223 | collapsing blank runs keeps every line that is not blank, in order |
| CodexRoundTrip.RunBecomesTwo | src/install/codex.ts:223-223 | a run of newlines between texts becomes at most two, and the texts are treated by themselves |
| CodexHooks.HooksFile.WriteLegacyHooks | src/install/codex.ts:298-345 | the table becomes the merged one, a missing file included |
| CodexHooks.HooksFile.RemoveLegacyHooks | src/install/codex.ts:347-366 | rewrites the file exactly if some group is marked, and then drops marked groups and empty events |
| CodexHooks.FilterShortens | src/install/codex.ts:355-359 | comparing lengths detects exactly a marked group |
| CodexHooks.WrittenGroups | src/install/codex.ts:334-342 | the three merges together act on each event by itself |
| CodexHooks.WriteTwice | src/install/codex.ts:298-345 | writing twice equals writing once exactly if the written groups carry the marker, as they do for the repository's scripts directory |
| CodexHooks.UserGroupsSurvive | src/install/codex.ts:334-362 | every group without a marked command survives write and removal in order |
| CodexHooks.RemoveAfterWrite | src/install/codex.ts:298-366 | on a file without marked groups removal after a write gives it back but for events with empty lists |
| CodexHooks.OursAfterWrite | src/install/codex.ts:305-342 | after a write each of three events has one group of ours, with one command that runs the event's own script, and no other event gets any |
| CodexHooks.MarkedSpelled | src/install/codex.ts:336-338 | a group counts as ours exactly if a command in it has the scripts path in it |
| RecallSelect.SelectedExactly | src/core/hook/select.ts:39-48 | over the hits alone, for the median score of the fire: selected hits clear the absolute floor and the relative one taken from the median, and are not in the memo, never more than the caps allow; and while the caps leave room, all such hits are selected |
| RecallSelect.MedianCounted | src/core/hook/select.ts:33-37 | the median is the one score with at most half of the scores below it and less than half above |
| RecallSelect.SelectedIsPrefix | src/core/hook/select.ts:42-47 | what is selected is every eligible hit of some first part of the ranking |
| RecallSelect.SelectedBest | src/core/hook/select.ts:42-47 | a selected hit never displaces an eligible one ranked before it |
| RecallSelect.HalfClear | src/core/hook/select.ts:33-47 | with non-negative scores, no absolute floor and a relative floor of at most one, at least half of the hits clear the floors |
| RecallSelect.SelectionScaleInvariant | src/core/hook/select.ts:39-48 | multiplying all scores by one positive factor selects the same hits |
| RecallMemo.Conversation.RecordSurfaced | src/core/hook/memo.ts:55-68 | merges the ids into the memo |
| RecallMemo.Conversation.PromptRecall | src/hook/prompt-recall-hook.ts:150-219 | what one prompt fire injects and records, for every gate, mode and failed recall |
| RecallMemo.Conversation.SessionStartRecall | src/hook/session-start-hook.ts:62-107 | the same for the second writer of the memo |
| RecallMemo.Conversation.ClearSurfaced | src/core/hook/memo.ts:111-120 | deletes the memo file and reports whether there was one |
| RecallMemo.ChosenFacts | src/core/hook/select.ts:39-48 | a fire chooses at most three hits in ranked order, none in the memo, never past ten |
| RecallMemo.LiveFireInjects | src/hook/prompt-recall-hook.ts:189-218 | what a live fire that reaches recall injects, over its hits alone: those over both floors and not in the memo, at most three, never past ten, and all while these caps leave room |
| RecallMemo.FiresInjectFresh | src/hook/prompt-recall-hook.ts:189-218 | in every run no fire injects what the memo held before, or more than three ids |
| RecallMemo.NoRepeat | src/hook/prompt-recall-hook.ts:189-218 | no id is injected by two fires of a run |
| RecallMemo.MemoIsUnion | src/hook/session-start-hook.ts:78-106 | the memo is what it was plus the union of everything injected |
| RecallMemo.MemoCapped | src/hook/prompt-recall-hook.ts:189-218 | the memo never passes ten ids and grows by exactly what is injected when recalls repeat no id |
| RecallMemo.ShadowChangesNothing | src/hook/prompt-recall-hook.ts:214-218 | a shadow or gated fire anywhere in a run injects nothing and changes neither the memo nor what any other fire injects |
| RecallInterleaved.StepKeepsWithin | src/hook/prompt-recall-hook.ts:189-217 | every load, record or clear keeps memo size plus everything in flight within the bound |
| RecallInterleaved.ClearForgets | src/core/hook/memo.ts:111-120 | a clear at any moment empties the memo and leaves what overlapping processes have in flight, which they still record |
| RecallInterleaved.MemoBounded | src/hook/prompt-recall-hook.ts:189-217 | with k overlapping hook processes the memo never exceeds 10 + 3(k-1) ids |
| RecallInterleaved.BoundAttained | src/core/hook/memo.ts:43-68 | some interleaving reaches that bound, so it is exact |
| EnvFile.ApplyEnvAssignment | src/cli/config-env.ts:17-58 | the loop with its found flag computes the edited text of the specification |
| EnvFile.EditMatchingLines | src/cli/config-env.ts:31-47 | every matching line is rewritten or removed, every other kept |
| EnvFile.AppendAssignment | src/cli/config-env.ts:49-55 | trailing blank lines go and one assignment and one newline come |
| EnvFile.ProcessEnv.Autoload | src/llm/env-autoload.ts:33-48 | variables already set stay; every other takes its first assignment of one file |
| EnvFile.ProcessEnv.AutoloadAll | src/llm/env-autoload.ts:25-55 | over the whole search path, every other variable takes its first assignment in the order of the files; files that cannot be read are passed over |
| EnvSpelling.LoadedSpelled | src/llm/env-autoload.ts:33-48 | what a process sees under a name is what the first line that spells an assignment to it means: the text between two quotes of either kind, nothing for a lone quote, and else the value as written |
| EnvSpelling.AssignmentSpelled | src/llm/env-autoload.ts:34-46 | which lines the loader takes, and as what, by their spelling |
| EnvSpelling.QuotedLoads | src/llm/env-autoload.ts:39-44 | a name set in single or double quotes loads what is between them |
| EnvSpelling.FormatSpelled | src/cli/config-env.ts:60-67 | the editor writes a value as it is exactly if it has no white space, hash mark or quote, and else in double quotes with a backslash before each double quote and no other change |
| EnvRoundTrip.SetThenLoad | src/cli/config-env.ts:17-67 | where the first `KEY=` comes before any `KEY =`, or the file has no line of the key, the value comes back exactly if it has neither double quote nor newline; in any other file setting has no effect on loading |
| EnvRoundTrip.UnsetThenLoad | src/cli/config-env.ts:32-37 | an unset key is gone exactly if no line of the file is `KEY =` with white space before the equals sign |
| EnvRoundTrip.UnsetOthersLoad | src/cli/config-env.ts:32-37 | unsetting leaves of `KEY` and `export KEY` the lines with white space before the equals sign, and every other variable as it was; a variable loads as before exactly if it is none of these names, its first line is not plain, or the first line left says the same |
| EnvRoundTrip.OtherKeysLoad | src/cli/config-env.ts:31-57 | every other variable loads as before, but for the one the loader makes of `export KEY=` |
| EnvRoundTrip.ExportedKeyLoads | src/cli/config-env.ts:29-42 | that one, `export KEY`, loads as before exactly if its first line has white space before the equals sign, or there is none, or it held the new value already |
| EnvRoundTrip.SetTwice | src/cli/config-env.ts:17-58 | setting twice equals setting once with the last value |
| EnvRoundTrip.SetThenUnset | src/cli/config-env.ts:17-58 | setting and unsetting an absent key restores the file up to trailing newlines |
| EnvRoundTrip.SpacedKeyStays | src/cli/config-env.ts:29-29 | the failing file `KEY =x`: neither setting nor unsetting has any effect |
| EnvRoundTrip.ExportedKeyStaysUnset | src/cli/config-env.ts:29-42 | the failing file `export KEY=x`: setting leaves the key unset |
| EnvRoundTrip.QuoteComesBackEscaped | src/cli/config-env.ts:63-65 | the failing value: a double quote comes back with the backslash |
| EnvLines.LineKinds | src/cli/config-env.ts:29-32 | for a valid key the loader takes `KEY=` and `KEY =` lines, the editor `KEY=` and `export KEY=` lines, and what the loader takes and the editor misses is exactly `KEY =` |
| EnvLines.NamedKinds | src/cli/config-env.ts:29-32 | the same for `KEY` and `export KEY`: of the lines the loader takes as the name, the editor matches exactly the plain ones |
| EnvLines.SpacedShape | src/llm/env-autoload.ts:36-37 | `KEY =` spelled out: key, non-empty white space, equals sign, rest |
| EnvLines.PrefixStable | src/cli/config-env.ts:29-42 | an edited line is matched at the same place again, whatever value it now has |
| EnvLines.EditedLineLoads | src/cli/config-env.ts:38-44 | an edited line names what it named before, now with the new value |
| EnvLines.FormatThenUnquote | src/cli/config-env.ts:60-67 | the loader undoes the editor's quoting but not its escaping |
| McpStdio.RunMcpStdio | src/cli/nlm.ts:1913-1955 | for every order of events and failures the observed effects are told by the turns alone, and are a prefix of one fixed run; the call ends exactly if nothing is missing, with the error of the storage close, else of the server close, else of start-up, else without one |
| McpStdio.TurnsTell | src/cli/nlm.ts:1923-1954 | over the turns alone: the shutdown has been asked for exactly if creation or an awaited connect failed, the input had ended, a stop event came, or the server reported its close; each later step has been taken exactly if its turn came behind the step before it |
| McpStdio.InOrderEnds | src/cli/nlm.ts:1923-1954 | a call that something has stopped and whose pending steps then settle one behind the other, whatever else comes between, has ended |
| McpStdio.FailuresHappened | src/cli/nlm.ts:1925-1926 | over the turns alone: a close or the start-up counts as failed exactly if it settled with an error while it was awaited |
| McpStdio.PrefixMeans | src/cli/nlm.ts:1923-1936 | so each close starts at most once, storage closes after the server, and control returns after storage close and listener removal |
| McpStdio.Session.Handle | src/cli/nlm.ts:1923-1954 | one turn of the event loop keeps the protocol's invariant and only appends effects |
| McpStdio.Session.RunOut | src/cli/nlm.ts:1923-1954 | once a stop was asked for, settling what is pending, kept or broken, always reaches the end of the whole run, with the error that wins |
| ScopeBackfill.DeriveScopes | src/cli/scope-backfill.ts:98-127 | every unscoped session with a transcript is derived, or counted under the reason it is skipped |
| ScopeBackfill.CountGroups | src/cli/scope-backfill.ts:153-166 | the total counts rows, the per-scope numbers count scopes |
| ScopeBackfill.CountSessions | src/cli/scope-backfill.ts:139-142 | every derived session is counted once, in all and under its scope |
| ScopeBackfill.Vote | src/cli/scope-backfill.ts:220-228 | a workstream gets a scope exactly if it has members and all agree on one |
| ScopeBackfill.Database.StampSessions | src/cli/scope-backfill.ts:145-150 | the guarded updates stamp exactly the derived sessions |
| ScopeBackfill.Database.StampWorkstreams | src/cli/scope-backfill.ts:207-233 | the loop stamps exactly the agreeing workstreams and counts them |
| ScopeBackfill.Database.RunScopeBackfill | src/cli/scope-backfill.ts:91-252 | a dry run reports the numbers an applied run reports and leaves every row as it was |
| ScopeBackfill.FixedPoint | src/cli/scope-backfill.ts:144-241 | one applied run reaches a fixed point: a second changes nothing and reports zero |
| ScopeBackfill.ScopesNeverChange | src/cli/scope-backfill.ts:144-233 | no scope that was set changes, and no row appears or disappears |
| ScopeBackfill.CascadeReachesAll | src/cli/scope-backfill.ts:167-212 | every fact and exemplar of a scoped session ends scoped, newly stamped rows take their session's scope, and no signal is newly global |
| ScopeBackfill.SessionsTakeDerived | src/cli/scope-backfill.ts:98-150 | a session without a scope takes a scope exactly if it is the one derived from the directory its transcript names, and keeps everything else |
| ScopeBackfill.RowsKeepSessions | src/cli/scope-backfill.ts:167-212 | of facts, exemplars and signals only the scope changes |
| ScopeBackfill.ReportCounts | src/cli/scope-backfill.ts:98-252 | each skip is counted under its own reason, and each table's total is the number of its own rows that are newly scoped |
| ScopeBackfill.ReportScopes | src/cli/scope-backfill.ts:139-233 | per scope, sessions and workstreams count every row that newly takes it, and the other tables one if any row does |
| ScopeBackfill.WorkstreamsAgree | src/cli/scope-backfill.ts:214-233 | a workstream is newly stamped exactly if its members agree, and then has the scope of each |
| ScopeBackfill.TotalCountsStamped | src/cli/scope-backfill.ts:153-212 | the reported total of a cascaded table is the number of rows that got a scope |
| ScopeBackfill.SessionTotals | src/cli/scope-backfill.ts:139-150 | for sessions the total is both that number and the sum of the per-scope counts |
| ScopeBackfill.WorkstreamTotals | src/cli/scope-backfill.ts:219-233 | the same for workstreams |
| ScopeBackfill.TotalIsSumIffScopesDiffer | src/cli/scope-backfill.ts:163-166 | for facts, exemplars and signals the total is the sum of the per-scope counts exactly if no two stamped rows take the same scope |
| ScopeBackfill.TwoFactsCountedOnce | src/cli/scope-backfill.ts:68-70 | a concrete case: two facts of one session, total 2, per-scope sum 1 |
| LineFeed.JobChild.Feed | src/cli/reprocess-job-adapters.ts:60-68 | one chunk delivers the lines it completes and keeps the rest |
| LineFeed.JobChild.Handle | src/cli/reprocess-job-adapters.ts:60-70 | a chunk touches only its own stream's buffer |
| LineFeed.MoreText | src/cli/reprocess-job-adapters.ts:60-68 | the lines of a longer text are those already cut off and those of the rest with the chunk |
| LineFeed.StreamsReconstructed | src/cli/reprocess-job-adapters.ts:60-70 | for every chunking and interleaving, each stream's delivered lines and buffer are those of its whole text, behind what came before the callback was set |
| LineFeed.ChunkingDoesNotMatter | src/cli/reprocess-job-adapters.ts:54-70 | two schedules that carry the same text on a stream deliver the same lines from it, and these with the buffer spell the text |
| JudgeStream.StreamChatOnce | scripts/eval/judge.ts:77-113 | the reply is a function of the concatenated body: the first failure among its complete lines, or else all deltas unless blank |
| JudgeStream.FailureStays | scripts/eval/judge.ts:98-105 | the first failure of what has arrived is the first failure of the whole body |
| JudgeStream.UnterminatedLineIgnored | scripts/eval/judge.ts:82-86 | what follows the last newline never matters |
| JudgeStream.PaddedLineSame | scripts/eval/judge.ts:85-89 | white space around a line, a carriage return among it, changes nothing |
| JudgeStream.DoneLineSkipped | scripts/eval/judge.ts:89-89 | `[DONE]` does not end the stream; the reply is that of the lines around it |
| JudgeStream.ReplyIsDeltas | scripts/eval/judge.ts:82-113 | when every complete line adds a text, by the spelling of the line and its payload, the reply is these texts together, unless blank |
| JudgeStream.ReplyIsFailure | scripts/eval/judge.ts:98-105 | when a line's payload is null or holds an error, behind lines that add something, the reply is that error |
| JudgeStream.AddsOrBreaks | scripts/eval/judge.ts:85-105 | there is no third kind of line |
| EmbedPool.EmbedAll | scripts/eval/code-embed-ab.ts:52-68 | under any scheduler the pool returns every answer at its own index exactly if no text fails, or no worker was started |
| EmbedPool.Pool.Turn | scripts/eval/code-embed-ab.ts:61-66 | one stretch between awaits stores the awaited result, if any, and claims the next index or ends |
| EmbedPool.StepKeeps | scripts/eval/code-embed-ab.ts:61-66 | every turn keeps: each index below the counter is written or held by exactly one worker, and no other was touched |
| EmbedPool.ClaimedOnce | scripts/eval/code-embed-ab.ts:62-64 | in every interleaving the indices are asked about in order, each once |
| EmbedPool.EveryScheduleEnds | scripts/eval/code-embed-ab.ts:59-66 | every schedule that finishes the pool takes exactly one stretch a text and one a worker, and none takes more |
| EmbedPool.DoneMeansFilled | scripts/eval/code-embed-ab.ts:58-67 | when all workers are done every result is the answer to its own text |
| LabelPass.RunPass | scripts/eval/re-derivation-label.ts:126-158 | under any scheduler every row is judged exactly once and leaves an outcome, though calls fail |
| LabelPass.Pass.Advance | scripts/eval/re-derivation-label.ts:134-155 | one row's reply or exception is recorded and the worker strides on |
| LabelPass.TurnKeeps | scripts/eval/re-derivation-label.ts:133-156 | every turn keeps: a worker has judged exactly the rows of its residue class before its position, each once |
| LabelPass.LabelAll | scripts/eval/re-derivation-label.ts:291-301 | after the retry every id has exactly one outcome, from the calls about its rows: the first call's verdict, or if that call threw a message the retry's, or else the message; an empty message counts as none |
| LabelPass.CountedOnce | scripts/eval/re-derivation-label.ts:303-305 | every outcome is counted as exactly one of parsed, parse failure and failed call |
| LabelPass.FailureCountedAsParseFail | scripts/eval/re-derivation-label.ts:294-305 | a row whose call threw is counted as a parse failure exactly if the kept exception has an empty message |
| NonceStore.Nonces.PurgeExpired | src/http/auth-nonce.ts:37-42 | deleting while iterating leaves exactly the entries that have not run out |
| NonceStore.Nonces.MintNonce | src/http/auth-nonce.ts:45-50 | purges at one reading of the clock and stores at another; the reported seconds round the lifetime |
| NonceStore.Nonces.RedeemNonce | src/http/auth-nonce.ts:51-59 | accepts exactly a live stored nonce and always removes it |
| NonceStore.Nonces.CountNonces | src/http/auth-nonce.ts:60-63 | counts after a purge |
| NonceStore.StoreIsLive | src/http/auth-nonce.ts:32-64 | the purging store agrees with the full history on everything that has not run out |
| NonceStore.RedeemAnswersHistory | src/http/auth-nonce.ts:51-59 | over every history with a non-decreasing clock purging is invisible to redeem |
| NonceStore.SizeCountsLive | src/http/auth-nonce.ts:60-63 | size is exactly the number of nonces the history calls live |
| NonceStore.RedeemIsSingleUse | src/http/auth-nonce.ts:45-59 | with fresh nonces, redeem is true exactly if the nonce was minted, has not run out and was never presented before |
| JudgeCache.Cache.Judge | scripts/eval/judge.ts:165-191 | the retry loop stores exactly the reply that parsed and reports the last failure otherwise |
| JudgeCache.StoredRepliesParse | scripts/eval/judge.ts:165-191 | over every run, of whatever models, from a database whose replies parse, each stored reply parses, hits and misses add up to the requests, and the model is called at most twice a miss |
| JudgeCache.AnsweredOnceForAll | scripts/eval/judge.ts:165-191 | once answered, every later request with the key gets the same answer and no model call |
| JudgeCache.ServedAs | scripts/eval/judge.ts:165-191 | a request with a row from before the run gets its judgement without a call; one whose key was not answered yet gets the judgement in the first of two replies that parses, or the exception, or what is wrong with the second reply, with the second call made exactly if the first reply does not parse |
| JudgeCache.RowsKnown | scripts/eval/judge.ts:165-191 | a key has a row exactly if it had one before the run or some request with it was answered |
| JudgeCache.PlainSystemKeys | scripts/eval/judge.ts:166-168 | under one model, with system prompts free of newlines, the key tells all requests apart |
| JudgeCache.SameSystemKeys | scripts/eval/judge.ts:166-168 | under one model and system prompt the key tells all user prompts apart |
| JudgeCache.KeySharedIff | scripts/eval/judge.ts:166-168 | under one model a request shares its key with another exactly if one of its prompts has a newline |
| JudgeCache.AnyModelKeySharedIff | scripts/eval/judge.ts:166-168 | whatever the models, a request shares its key exactly if its model or system prompt has a colon or one of its prompts a newline |
| JudgeCache.ModelsShareIff | scripts/eval/judge.ts:166-168 | two models can share a key exactly if one name with its colon is a prefix of the other |
| ClassifierCache.Cache.Classify | scripts/longmemeval/classifier-cache.ts:81-125 | a stored row, failed or not, is returned without asking; a new answer is stored |
| ClassifierCache.AskedOnlyFirst | scripts/longmemeval/classifier-cache.ts:81-125 | over every run the client is asked exactly for the first request with a key, and later ones get what was stored |
| ClassifierCache.CallerGets | scripts/longmemeval/classifier-cache.ts:81-125 | every caller gets what the client answers to the first request with the key: the result, or the failure with its message, for all but the first caller cut to 500 characters |
| ClassifierCache.SameAnswer | scripts/longmemeval/classifier-cache.ts:81-124 | result and failed flag never change; the error text does exactly if it was cut |
| ClassifierCache.BodyKeys | scripts/longmemeval/classifier-cache.ts:52-54 | under one provider and model the key tells all bodies apart |
| ClassifierCache.HeadsShareIff | scripts/longmemeval/classifier-cache.ts:52-54 | two caches on one database can meet on a key exactly if one's provider and model text is a prefix of the other's |
| ClassifierCache.ModelsShareIff | scripts/longmemeval/classifier-cache.ts:52-54 | under one provider two models can share a key exactly if one name with its colon is a prefix of the other |
| ClassifierCache.KeySharedIff | scripts/longmemeval/classifier-cache.ts:52-54 | a request shares its key with another model's or body's exactly if its own model or body has a colon |
| ClassifierCache.ModelsCanShareAKey | scripts/eval/classifier-eval.ts:355-361 | the smallest case of `ModelsShareIff`: two sizes of one model name |
| TailRead.WalkLines | src/hook/recent-context.ts:92-107 | the backward loop computes the specified walk |
| TailRead.RecentConversationContext | src/hook/recent-context.ts:83-111 | the context is that of the tail's turns; a missing file or an exception gives none |
| TailRead.WalkIsLastTurns | src/hook/recent-context.ts:92-107 | without throwing lines the walk finds exactly the last turns of all |
| TailRead.ContextTold | src/hook/recent-context.ts:83-111 | the context is the last of what user and assistant events in the lines say, as many as are wanted, each cut to its first characters, with spaces between |
| TailRead.TellsIsTurn | src/hook/recent-context.ts:93-105 | a line is a turn exactly if it holds a user's or an assistant's event with a text that is not blank |
| TailRead.TailDecides | src/hook/recent-context.ts:66-107 | when the tail's whole lines hold enough turns, the tail gives what the whole file gives, whatever the cut line reads as |
| TailRead.CutLineDropped | src/hook/recent-context.ts:66-107 | when the cut line is no turn, or the cut falls at the start of a line or of the file, the tail's turns are the last ones of the file's, and all of them exactly if there are enough or no more |

## Left out

- Processes, signals, the network, SQLite, terminals and the file system itself: files are values, tables are maps, and writes succeed.
- What the replay draws and reports: the sample is given, and the timings, metrics and report text are not modelled. One evaluation is followed until its report.
- Model calls are deterministic functions of their arguments in the replay; a generator or judge that answers differently after a crash is not covered.
- Characters are Dafny characters: UTF-16 units, and multi-byte characters cut by a chunk or by the tail read, are not modelled.
- Hashing is taken to be injective in both caches, and nonces to be fresh where a lemma says so.
- `recordSurfaced` is one step; its own read and write can be split between hook processes, and two conversation ids can be made one file name.
- Two overlapping `classify` calls for one body, or `judge` calls for one prompt, can both reach the model before either stores its answer; calls are taken one after the other.
- LabelPass.RunPass: leaves out the reply cache on disk, and a reply is a function of the row and the pass.
- ClassifierCache.Cache.Classify: leaves out the JSON text of a stored result and the statistics query.
- The regular expressions of prompt classification, fence stripping and verdict parsing are parameters.
- WHATWG event streams are modelled only as far as the judge reads them: `data:` lines ended by a line feed.
- Fact, exemplar and concept text in the recall block, and the hook log.
- `planRestart` (which service command restarts the daemon), `classifyMiss` (the label of a recall miss) and `sanitizeNextPath` (where a sign-in may redirect) each decide by one chain of tests on their arguments, without state or a second step for a property to relate.
- `connectCursor` and `connectLocalSource` run fixed sequences of file writes and commands; option parsing and report rendering turn text into options and results into text.
- The bounded top-K of `scripts/eval/re-derivation-sample.ts` and the floating-point scoring of the evaluation scripts.
