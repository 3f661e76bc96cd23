# Verification of Bossanova's trickiest logic

Bossanova runs coding agents (Codex, Claude) in worktrees, edits their
configuration, repairs their pull requests and watches their transcripts. This
project models six parts of it in Dafny and proves what each promises.

| Part | Files |
|---|---|
| The TOML trust editor: a byte scanner for TOML and an edit by offsets | `Utf8`, `TomlGrammar`, `TomlScanner`, `TomlLocality`, `TomlDocument`, `TomlRewrite`, `TomlText`, `TomlPrint`, `TomlParse`, `TomlSpoken`, `TomlSound`, `ProjectTrust`, `TrustText`, `TrustLaws`, `TrustEditor`, `TrustGuarantees`, `TrustSound`, `TrustLines` |
| The rollout scan over date-sharded directories | `Calendar`, `RolloutScan`, `RolloutMembers`, `Newest`, `RolloutResolver` |
| The repair monitor | `RepairBackoff`, `RepairModel`, `RepairReason`, `RepairMonitor`, `RepairRuns`, `RepairLease`, `RepairBaseMoves`, `RepairRefusals`, `RepairGuarantees`, `RepairCalls`, `RepairAftermath`, `RepairLoop`, `RepairOutcomes`, `RepairSession` |
| Caches with races | `CapabilityProfile`, `CapabilityAnswers`, `CapabilityCache`, `ProgressTail`, `ProgressAnswer`, `ProgressMemo` |
| Graph walks | `Graph`, `MessageGraph`, `Processes` |
| Hook lists in Claude's settings | `HookLists`, `HookConfig`, `HookURLs`, `HookRuns`, `HookCommands` |

`Wrappers` holds the option type and `Text` what the parts need of strings.
`dafny verify dfyconfig.toml` checks everything.

## How it is built

Code that works step by step is a class or a method with loops, proved equal to a
specification function; the laws are lemmas about those functions.

* **TOML.** The scanner's methods move an offset through the document. The
  functions in `TomlGrammar` say what each consumes of the text from that offset
  on, so a parse depends on the suffix and the table in force alone. `TomlLocality`
  shows how little of that suffix each one looks at. That makes documents compose:
  the entries of two joined documents are the entries of the first, then those of
  the second under the table the first leaves in force. The edit's laws follow.
  `TomlText` describes documents the other way round, as lines, keys and values
  with every freedom of spelling, a text and a meaning, without the grammar;
  `ReadsExactly` says that the grammar accepts exactly those texts and reads each as
  what its document means.
* **Told twice.** The functions that specify the methods branch as the code does.
  What each operation is for is stated once more without them, from the inputs and
  answers alone, and proved to agree: `TrustSound` and `TrustLines` for an edit,
  `RolloutMembers` for a scan, `RepairCalls` and `RepairAftermath` for one call of
  the monitor, `RepairOutcomes` for an attempt, a wait and a whole session,
  `CapabilityAnswers` for a connector check, `ProgressAnswer` for a read of a
  transcript, `HookCommands` for the commands in the settings.
* **Concurrency.** Each critical section is a function of the protected state, and
  a class method proved equal to it. A run is any sequence of events whose
  carried-over values are arbitrary, so a law over all runs covers every
  interleaving of those events. Most events are one hold of a lock; four of the
  repair monitor's stand for two that follow each other directly, as `RepairRuns`
  says at its `Event`. `MaybeRepairIsRun`, `AttemptIsRun` and `SessionIsRun` tie
  the sequential methods to those runs, and `SessionInRun` follows one repair
  session through any of them.
* **The outside world.** Answers of the host, of the file system and of the clock
  are parameters. TOML text is bytes; 64-bit wrap-around is written out where it
  can happen.

## Where the code does not do what one might expect

Each of these is proved, with the exact condition under which all is well, an if
and only if, or, for the retries, with the exact bound.

* An edit for a path that is not valid UTF-8, appended as a new table, writes
  U+FFFD in place of the bad bytes. Reading the path back finds nothing, and every
  repetition appends once more. `PutGet`, `PutPut`, `EverySpellingSettled` and
  `FoldIdempotent` hold exactly when the document already has the value or the
  header, or the path is valid UTF-8. Otherwise the second edit leaves a document
  that TOML forbids, with one table headed twice (`UnreachedBreaks`).
* A project table that exists only through keys or tables inside it is refused as
  defined by dotted keys, also when it could be given a header, as a table with
  nothing but a subtable could (`SubtableRefused`). Apart from that and from arrays
  of tables, an edit of a sound document succeeds exactly where the value can be
  written in soundly (`EditsExactly`).
* The directory prunes and the prefilter by last write rest on where a session's
  time lies, not on where it should lie. They lose nothing in any window exactly
  when every eligible rollout's time is at most a day past its last write, and
  from one day before to two days after the days its directories name
  (`PrunedIsPlain`). A start on record near those dates is enough; without one the
  last write must be near them (`OnRecordFits`, `UnrecordedFits`,
  `UnreadableStartMissed`).
* The bound on base-move retries counts on the display status staying put. On one
  head at most six launches complete, and two more for each switch between failing
  and conflicted (`BoundedRetries`). That bound is reached for every number of
  switches (`BoundReached`), so without a bound on the switches there is none on
  the retries.
* The deferred cleanup deletes the "repairing" mark before it gives back the
  lease, so a new repair session can take the lease in between and lose it
  (`LeaseLost`). In a run after which no lease is owed, the host's view of the
  lease was right throughout exactly if no session took it in that gap
  (`HeldIffNoRivals`).
* A configured cooldown of so many minutes that the product leaves 64 bits wraps,
  possibly to microseconds (`HugeConfigWraps`). The base is at least a minute
  exactly when the product is not positive, or leaves nothing or a minute or more
  modulo 2 to the 64 (`ConfiguredBase`).
* A transcript whose size and time come back after its contents changed can be
  answered from a stale memo (`ReplacedIsStale`). For a file that is never missing,
  hits are right in all runs through its versions exactly when whatever can be read
  between two versions of one size and time answers for the later one
  (`CurrentIffSettled`); growing files satisfy that (`GrowingSettled`).
* Turn-ended hooks are recognised by a substring of their command, so writing the
  entry of a chat deletes those of chats whose ids start with its id
  (`PrefixIDsCollide`) or whose tokens hold its URL, which the pattern for safe
  tokens allows (`TokenCollides`, `SafeTokenHoldsURL`). A token that holds the URL
  of any turn-ended hook also makes a run's stop entry read as one
  (`WrittenReadsAsTurn`). The entries are right in every sequence of writes and
  removals exactly when no id is a prefix of another and no token holds
  `/hooks/turn-ended/` (`TurnsExactly`).

## Model

| member | source | states |
|---|---|---|
| TomlScanner.ParseTomlStatements | plugins/bossd-plugin-codex/codex_toml.go:46-108 | on any bytes it terminates and returns exactly the grammar's statements, or fails exactly where the grammar does |
| TomlScanner.ParseStatement | plugins/bossd-plugin-codex/codex_toml.go:60-102 | one header or pair, located by offsets, leaving the scanner at the rest of its line |
| TomlScanner.ParseHeader | plugins/bossd-plugin-codex/codex_toml.go:61-83 | a table or array-of-tables header through its closing brackets |
| TomlScanner.ParsePair | plugins/bossd-plugin-codex/codex_toml.go:83-101 | a pair under the table in force; its value's offsets enclose exactly the value |
| TomlScanner.StatementStep | plugins/bossd-plugin-codex/codex_toml.go:55-107 | one turn of the statement loop extends the statements found by the next one |
| TomlScanner.Scanner.SkipBlank | plugins/bossd-plugin-codex/codex_toml.go:147-162 | skips exactly the spaces, comments and newlines in front of a statement |
| TomlScanner.Scanner.EndLine | plugins/bossd-plugin-codex/codex_toml.go:164-180 | accepts the rest of a line only if it is blank or a comment, and moves past its newline |
| TomlScanner.Scanner.ParseKey | plugins/bossd-plugin-codex/codex_toml.go:182-197 | a dotted key of any spelling, decoded segment by segment |
| TomlScanner.Scanner.ParseSimpleKey | plugins/bossd-plugin-codex/codex_toml.go:199-226 | one bare, basic or literal key; a multi-line string is no key |
| TomlScanner.Scanner.ParseBasicString | plugins/bossd-plugin-codex/codex_toml.go:234-256 | decodes a basic string and stops just past its closing quote |
| TomlScanner.Scanner.DecodeEscape | plugins/bossd-plugin-codex/codex_toml.go:258-280 | decodes each escape, the two Unicode forms included, and refuses all others |
| TomlScanner.Scanner.SkipValue | plugins/bossd-plugin-codex/codex_toml.go:282-318 | moves strictly forward past exactly one value and ends inside the document |
| TomlScanner.Scanner.SkipMultiline | plugins/bossd-plugin-codex/codex_toml.go:320-338 | closes at the delimiter with up to two more quotes; a two-byte step at the end reads no byte outside |
| TomlScanner.Scanner.SkipArray | plugins/bossd-plugin-codex/codex_toml.go:340-367 | moves past exactly one array, nested values and blank lines included |
| TomlScanner.Scanner.SkipInlineTable | plugins/bossd-plugin-codex/codex_toml.go:369-403 | moves past exactly one inline table, newlines inside it included |
| TomlRewrite.StatementsAreEntries | plugins/bossd-plugin-codex/codex_toml.go:23-108 | the offsets are in range, in order and disjoint, and carry the entries' kinds, paths and value bytes |
| TomlLocality.ValueLocal | plugins/bossd-plugin-codex/codex_toml.go:282-318 | how a value parses depends only on its own bytes and on what directly follows |
| TomlLocality.DottedKeyLocal | plugins/bossd-plugin-codex/codex_toml.go:182-197 | the same for a key |
| TomlDocument.StatementLocal | plugins/bossd-plugin-codex/codex_toml.go:55-107 | a statement parses alike wherever its line stands |
| TomlDocument.Join | plugins/bossd-plugin-codex/codex_toml.go:46-108 | the entries of two joined documents are those of the first, then those of the second under the table the first leaves in force |
| TomlDocument.AddNewline | plugins/bossd-plugin-codex/codex_toml.go:164-180 | a final newline changes no entry |
| TomlPrint.DocRead | plugins/bossd-plugin-codex/codex_toml.go:46-108 | the text of any document, with bare, basic and literal keys, every form of value, comments, both newlines and an optional mark, parses to exactly the kinds, paths and value spans its lines say |
| TomlPrint.KeyRead | plugins/bossd-plugin-codex/codex_toml.go:182-256 | a dotted key in any spelling reads as what its segments mean |
| TomlPrint.ValRead | plugins/bossd-plugin-codex/codex_toml.go:282-403 | a value of any form, nested ones included, ends exactly where it was written to end |
| TomlParse.ReadsExactly | plugins/bossd-plugin-codex/codex_toml.go:46-108 | a text parses to given statements if and only if it is the text of a document that says them |
| TomlSpoken.DocumentSpoken | plugins/bossd-plugin-codex/codex_toml.go:23-108 | the entries an edit works on are what the lines say, with the value bytes as written |
| TomlSpoken.SpellingsAgree | plugins/bossd-plugin-codex/codex_trust.go:282-290 | documents that differ in the spelling of keys, in white space and in comments have the same entries, are refused alike, and have the same entries after an edit |
| TomlRewrite.RewrittenEntries | plugins/bossd-plugin-codex/codex_trust.go:325-333 | replacing the values at a key leaves a document that parses to the same entries with the new value there |
| TomlRewrite.RewrittenTwice | plugins/bossd-plugin-codex/codex_trust.go:325-333 | of two such replacements the last decides, byte for byte |
| TrustText.EscapeRoundTrip | plugins/bossd-plugin-codex/codex_trust.go:357-384 | reading an escaped text back gives the text, each undecodable byte as U+FFFD, and stops past the closing quote |
| Utf8.SanitizedIsIdentity | plugins/bossd-plugin-codex/codex_trust.go:357-384 | copying rune by rune is the identity exactly on valid UTF-8 |
| Utf8.SanitizedIsValid | plugins/bossd-plugin-codex/codex_trust.go:357-384 | and always gives valid UTF-8 |
| TrustText.HeaderLineEntry | plugins/bossd-plugin-codex/codex_trust.go:345-354 | the appended header parses as the table `projects`, then the path |
| TrustText.TrustLineEntry | plugins/bossd-plugin-codex/codex_trust.go:335-341 | the inserted line parses as a pair with the quoted level as value bytes |
| TrustEditor.TomlBasicStringEscape | plugins/bossd-plugin-codex/codex_trust.go:357-384 | the escaper's loop writes the escape of every rune in order |
| TrustEditor.ReplaceValues | plugins/bossd-plugin-codex/codex_trust.go:325-333 | editing from the last value back replaces each value's bytes and no other, though earlier offsets were taken before |
| TrustEditor.SplicedIsRewritten | plugins/bossd-plugin-codex/codex_trust.go:325-333 | splicing by the scanner's offsets is the replacement the grammar defines |
| TrustEditor.Classify | plugins/bossd-plugin-codex/codex_trust.go:303-323 | finds the trust values, the first header and a dotted definition, or the first reason to refuse |
| TrustEditor.SetCodexProjectTrustLevel | plugins/bossd-plugin-codex/codex_trust.go:292-355 | refuses, rewrites, inserts or appends exactly as specified |
| TrustEditor.EditCodexWorktreeTrust | plugins/bossd-plugin-codex/codex_trust.go:116-124 | edits for every spelling in turn, or fails with nothing written |
| TrustLaws.EditedDocument | plugins/bossd-plugin-codex/codex_trust.go:292-355 | every successful edit parses again, to the entries described without reference to bytes |
| TrustGuarantees.PutGet | plugins/bossd-plugin-codex/codex_trust.go:292-355 | after an edit every value under the path is the quoted level, and there is one exactly when the edit could reach the path |
| TrustGuarantees.Frame | plugins/bossd-plugin-codex/codex_trust.go:325-354 | every other statement keeps its kind, path, value and order; only what was appended is new |
| TrustGuarantees.PutPut | plugins/bossd-plugin-codex/codex_trust.go:292-355 | a second edit gives the bytes it alone would give, exactly when the first reached the path |
| TrustGuarantees.ReachesKept | plugins/bossd-plugin-codex/codex_trust.go:99-127 | no edit, of this or another path, changes whether a path can be reached |
| TrustGuarantees.UnwritablePath | plugins/bossd-plugin-codex/codex_trust.go:345-354 | a path of one 0xFF byte is not found again, and its edit is not idempotent |
| TrustGuarantees.EverySpellingSettled | plugins/bossd-plugin-codex/codex_trust.go:99-127 | the fold leaves at the level, and editable, exactly the spellings the starting configuration let it reach |
| TrustGuarantees.FoldIdempotent | plugins/bossd-plugin-codex/codex_trust.go:99-127 | recording the same decision again changes no byte exactly when the first time could reach every spelling |
| TrustLines.LevelsText | plugins/bossd-plugin-codex/codex_trust.go:325-333 | an edit of a document that has trust levels gives the text of the same document with just those values replaced, line by line |
| TrustLines.InsertedText | plugins/bossd-plugin-codex/codex_trust.go:335-341 | without one, but with a header, the text is the same up to the end of the first header's line, then the trust line, then the rest |
| TrustLines.AppendedText | plugins/bossd-plugin-codex/codex_trust.go:345-354 | with neither, the text is followed by a blank line and the table, blank text by nothing before it |
| TrustSound.EditSound | plugins/bossd-plugin-codex/codex_trust.go:299-355 | a successful edit of a document that TOML allows, for a path it can reach, leaves one that TOML allows |
| TrustSound.EditsExactly | plugins/bossd-plugin-codex/codex_trust.go:299-345 | such an edit succeeds if and only if the document with the value written in is allowed, no array of tables leads to the project's table, and the table is not only defined from inside |
| TrustSound.SubtableRefused | plugins/bossd-plugin-codex/codex_trust.go:321-344 | the last reason also refuses a table that has only a subtable, though a header for it would be allowed |
| TrustSound.FoldSound | plugins/bossd-plugin-codex/codex_trust.go:116-124 | so does the fold over all spellings |
| TrustSound.UnreachedBreaks | plugins/bossd-plugin-codex/codex_trust.go:345-354 | a second edit for a path that cannot be reached leaves a document that TOML forbids |
| Calendar.DateOfDay | plugins/bossd-plugin-codex/transcript.go:458-489 | dates and day numbers correspond one to one |
| RolloutScan.ParseShardSegment | plugins/bossd-plugin-codex/transcript.go:570-583 | accepts exactly the digit strings of the width, with their value |
| RolloutScan.WalkDir | plugins/bossd-plugin-codex/transcript.go:376-425 | the walk gathers the pruned scan's candidates in order |
| RolloutScan.EndsBeforeRange | plugins/bossd-plugin-codex/transcript.go:458-489 | a directory pruned as too old names no day as late as the floor's |
| RolloutScan.StartsAfterRange | plugins/bossd-plugin-codex/transcript.go:525-564 | a directory pruned as too new names no day as early as the ceiling's |
| RolloutScan.YearTooOld | plugins/bossd-plugin-codex/transcript.go:458-489 | a year is skipped as too old exactly when every real day in it is older than the floor's |
| RolloutScan.YearTooNew | plugins/bossd-plugin-codex/transcript.go:525-564 | and as too new exactly when every one is newer than the ceiling's |
| RolloutScan.MonthTooOld | plugins/bossd-plugin-codex/transcript.go:458-489 | the same for a month against the floor |
| RolloutScan.MonthTooNew | plugins/bossd-plugin-codex/transcript.go:525-564 | and against the ceiling |
| RolloutScan.ImpossibleDate | plugins/bossd-plugin-codex/transcript.go:525-564 | a date such as February 31 never makes the scan skip anything its month would not |
| RolloutScan.SkippedIs | plugins/bossd-plugin-codex/transcript.go:376-433 | the walk turns back on the way to a file exactly when all days its path names lie more than two days before the lower bound's or one after the upper bound's |
| RolloutScan.UnfitIsMissed | plugins/bossd-plugin-codex/transcript.go:376-433 | a rollout that does not fit is missed in the window around its own time |
| RolloutScan.PrunedIsPlain | plugins/bossd-plugin-codex/transcript.go:358-433 | the pruned scan returns exactly the plain scan's candidates in every window if and only if every eligible rollout's time lies near its directories' days and its last write |
| RolloutMembers.ScanReturns | plugins/bossd-plugin-codex/transcript.go:358-433 | every candidate is one file of the tree that counts: a rollout name, readable, interactive, no subagent, its directory, its start in the window; no two are one file, and each file that counts, and that a pruned scan looks at, is there |
| RolloutMembers.FittingReturned | plugins/bossd-plugin-codex/transcript.go:358-433 | a file that counts and fits its directories is returned by the pruned scan with its id, path and start |
| RolloutScan.OnRecordFits | plugins/bossd-plugin-codex/transcript.go:339-356 | a start on record, near the directories' dates and no later than the last write, is enough |
| RolloutScan.UnrecordedFits | plugins/bossd-plugin-codex/transcript.go:339-356 | without one it is the last write that must not lie more than two days past those dates |
| RolloutScan.UnreadableStartMissed | plugins/bossd-plugin-codex/transcript.go:339-356 | a session with no readable start, written to a year later, is missed |
| Newest.SortNewestFirst | plugins/bossd-plugin-codex/transcript.go:426-431 | the same candidates, newest first, the greater path first among equals |
| Newest.NewestMeans | plugins/bossd-plugin-codex/transcript.go:426-431 | the newest has the latest time, and among equals the path that comes last in byte order |
| RolloutResolver.ResolveInteractiveSessionIDAt | plugins/bossd-plugin-codex/transcript.go:632-644 | no match, ambiguous exactly when two candidates' ids differ, or the newest candidate |
| RolloutResolver.ResolveLegacyInteractiveSessionIDAt | plugins/bossd-plugin-codex/transcript.go:654-674 | bound exactly when one candidate lies in the legacy window |
| RolloutResolver.ResolutionUnique | plugins/bossd-plugin-codex/transcript.go:632-644 | the candidates leave no choice of resolution |
| RolloutResolver.LaunchSees | plugins/bossd-plugin-codex/transcript.go:632-644 | a launch is resolved among the files that started two seconds before it or later |
| RolloutResolver.LegacySees | plugins/bossd-plugin-codex/transcript.go:654-674 | an old chat among those from five minutes before its creation to two minutes after, or to now |
| RolloutResolver.PrunedResolvesPlain | plugins/bossd-plugin-codex/transcript.go:632-644 | where every file fits, pruning changes neither the launch resolution nor the legacy one |
| RepairBackoff.CooldownIsCappedDoubling | plugins/bossd-plugin-repair/server.go:166-183 | the wait is the base doubled per failure, capped, exactly unless the shift cap binds on a tiny base |
| RepairBackoff.Product | plugins/bossd-plugin-repair/server.go:178-182 | the guard before the multiplication is exact, so nothing overflows |
| RepairBackoff.CooldownMonotone | plugins/bossd-plugin-repair/server.go:166-183 | more failures never wait less |
| RepairBackoff.ConfiguredBase | plugins/bossd-plugin-repair/server.go:135-140 | the base is a minute or more exactly for those minutes whose product does not wrap to less than one |
| RepairBackoff.HugeConfigWraps | plugins/bossd-plugin-repair/server.go:135-140 | one that does not fit can wrap to 2048 nanoseconds |
| RepairModel.OwnKeyNotMoved | lib/bossalib/sessionreason/repair_start.go:46-54 | a start block never reports its own head or base as moved, and any other key exactly by its short form |
| RepairReason.ReasonRead | lib/bossalib/sessionreason/repair_start.go:17-44 | a blocking reason, written and matched against the pattern, gives back a head and a base if and only if the model of the block has them, whatever the shas, the count, the time and the refusal are |
| RepairMonitor.Monitor.constructor | plugins/bossd-plugin-repair/server.go:303-318 | a new monitor is stopped and remembers nothing |
| RepairMonitor.Monitor.StartWorkflow | plugins/bossd-plugin-repair/server.go:338-350 | starts and unpauses, keeping every session's record |
| RepairMonitor.Monitor.NoteStartRefusal | plugins/bossd-plugin-repair/server.go:770-781 | counts a refusal on its head and reports when the streak is due |
| RepairMonitor.Monitor.NoteBaseMoveLocked | plugins/bossd-plugin-repair/repair_assessment.go:35-50 | counts a new base tip, or reports five used, changing that session's streak alone |
| RepairMonitor.Monitor.BlockSession | plugins/bossd-plugin-repair/repair_assessment.go:56-78 | what a session keeps after it was handed over, or could not be |
| RepairMonitor.Monitor.ReleaseStartBlock | plugins/bossd-plugin-repair/start_block.go:12-45 | which leg lifts a block, and what each leaves of the refusals |
| RepairMonitor.Monitor.EvaluateRepairSession | plugins/bossd-plugin-repair/start_block.go:47-58 | the session as looked up, with its refusals settled |
| RepairMonitor.Monitor.DecideAndMark | plugins/bossd-plugin-repair/server.go:695-725 | re-checks every guard and marks the session in one step |
| RepairMonitor.Monitor.MaybeRepair | plugins/bossd-plugin-repair/server.go:490-734 | the whole decision, gate by gate, with the whole new state; a launch carries its base, read late if need be, and the quiet chat it replaces |
| RepairCalls.LaunchesExactly | plugins/bossd-plugin-repair/server.go:490-734 | a call launches if and only if it is admitted, finds a row to act on and every gate is open for it, hands over if and only if it is admitted and the row calls for it, and a launch carries that row's input and base |
| RepairCalls.LegIs | plugins/bossd-plugin-repair/start_block.go:12-26 | which leg lifts a block, from what moved and how long it has stood |
| RepairCalls.YoungBlockStands | plugins/bossd-plugin-repair/start_block.go:12-30 | a block of an unmoved session younger than a quarter of an hour is not lifted and the call changes nothing |
| RepairCalls.FailedLiftCoolsDown | plugins/bossd-plugin-repair/start_block.go:12-45 | a block the host fails to lift costs the base cooldown and nothing else |
| RepairCalls.MovedStartsAfresh | plugins/bossd-plugin-repair/start_block.go:12-45 | after one lifted on a moved head or base the next refused start is the first that counts |
| RepairCalls.ReprobeHandsOverNext | plugins/bossd-plugin-repair/start_block.go:12-45 | after one lifted on its own head and base the next refused start on that head hands the session over at once |
| RepairAftermath.CallLeaves | plugins/bossd-plugin-repair/server.go:490-734 | what a call leaves, whatever its outcome: the mark of a launch and the session's cooldown, refusals and bases, from the row and the host's answers |
| RepairMonitor.Monitor.RunRepairAttempt | plugins/bossd-plugin-repair/server.go:802-1062 | one attempt: who owns the run, what is recorded, which run the next one resumes, whether the fix is reported complete, and the new state, for every answer of the host |
| RepairOutcomes.AnswerMeans | plugins/bossd-plugin-repair/server.go:915-1062 | which lane an attempt is recorded in, whether it went well, how it is resumed, when it took the lease and reported a fix, from the host's last word on starting and the wait |
| RepairOutcomes.RunLeaves | plugins/bossd-plugin-repair/server.go:833-850 | a run that started leaves no refusals, a cooldown from its end, and its input on record exactly if it acted on one |
| RepairOutcomes.RefusalLeaves | plugins/bossd-plugin-repair/server.go:903-913 | a refused start leaves a cooldown and one more refusal, and is handed over exactly if that is due |
| RepairOutcomes.LostLeavesNothing | plugins/bossd-plugin-repair/server.go:921-983 | any other attempt leaves nothing |
| RepairMonitor.Monitor.MarkStartRefused | plugins/bossd-plugin-repair/server.go:903-913 | cooldown, one more refusal, and a hand-over if that was one too many |
| RepairMonitor.Monitor.FinishAttempt | plugins/bossd-plugin-repair/server.go:833-850 | what a finished attempt leaves behind |
| RepairGuarantees.BackoffFloor | plugins/bossd-plugin-repair/server.go:641-654 | no launch comes sooner after the persisted start than the capped doubling of the base |
| RepairGuarantees.OthersUntouched | plugins/bossd-plugin-repair/server.go:490-734 | a call changes nothing of any other session |
| RepairGuarantees.MaybeRepairIsRun | plugins/bossd-plugin-repair/server.go:490-734 | a call is a run of the monitor's events that leaves earlier repair sessions and the lease alone and launches exactly the session it reports |
| RepairSession.AttemptIsRun | plugins/bossd-plugin-repair/server.go:802-1062 | so is an attempt, with the lease and the completed run it reports |
| RepairRuns.ReachedExclusive | plugins/bossd-plugin-repair/server.go:695-733 | in every run from the start the marks are exactly the running sessions, no two of one session |
| RepairRuns.HeldLaunchesNothing | plugins/bossd-plugin-repair/server.go:695-733 | from a cancel until the next start, and from a pause until the next start or resume, no repair session is launched, whatever calls were under way |
| RepairRuns.ReleaseKeepsLease | plugins/bossd-plugin-repair/repair_assessment.go:843-860 | giving the lease back leaves the host right exactly if no other session owes it |
| RepairRuns.LeaseStep | plugins/bossd-plugin-repair/server.go:989-1001 | every other step keeps the host's view of the lease right |
| RepairRuns.LeaseLost | plugins/bossd-plugin-repair/repair_assessment.go:843-860 | the interleaving in which a session whose run completed gives away the lease a newer session just took |
| RepairLease.HeldIffClean | plugins/bossd-plugin-repair/repair_assessment.go:833-860 | over a run the host's view of the leases stays right exactly while no lease is given back that another session owes |
| RepairLease.HeldIffNoRivals | plugins/bossd-plugin-repair/repair_assessment.go:843-860 | it does if no session takes a lease between another's deleting its mark and giving the lease back, and in runs that leave no lease owed only then |
| RepairLease.LeaseSpansSession | plugins/bossd-plugin-repair/repair_assessment.go:833-841 | the mark stands from the launch to its deletion, and without rivals the lease is held from the first attempt that takes it, through all attempts and waits, until the session gives it back |
| RepairSession.SessionInRun | plugins/bossd-plugin-repair/repair_assessment.go:841-970 | in any run in which a session takes its loop's steps it ends unmarked, having given the lease back once if one of its attempts took it and never otherwise |
| RepairSession.SessionIsRun | plugins/bossd-plugin-repair/repair_assessment.go:841-970 | the sequential loop is such a run and leaves the monitor and the lease as the loop says |
| RepairBaseMoves.BoundedRetries | plugins/bossd-plugin-repair/repair_input.go:24-70 | on one head, before a block succeeds, at most six launches complete a run, and two more for each switch of status |
| RepairBaseMoves.OneStatusRetries | plugins/bossd-plugin-repair/repair_input.go:24-70 | on one status at most six |
| RepairBaseMoves.SixIsLast | plugins/bossd-plugin-repair/server.go:717-721 | after the sixth completion on one head and status no later step launches the session |
| RepairBaseMoves.LaunchTally | plugins/bossd-plugin-repair/repair_input.go:62-70 | a launch is the first, is on another status, or is on the base last counted and not yet tried |
| RepairBaseMoves.BoundReached | plugins/bossd-plugin-repair/repair_assessment.go:35-50 | for every number of switches a run reaches the bound |
| RepairBaseMoves.AlternatingUnbounded | plugins/bossd-plugin-repair/repair_input.go:24-26 | on a head whose status alternates any number of launches completes though the base never moves |
| RepairRefusals.HandsOverWhenDue | plugins/bossd-plugin-repair/server.go:770-787 | wherever in a run an attempt is refused, it is followed by a hand-over exactly if the history of refusals since the last restart is then due |
| RepairRefusals.DueInOrder | plugins/bossd-plugin-repair/server.go:761-781 | in a run whose clock never goes back, a streak no reprobe opened is due exactly when its last refusal is the fifth or later on a known head and half an hour after the first |
| RepairRefusals.FewRefusalsNeverHandOver | plugins/bossd-plugin-repair/start_block.go:12-74 | a refused attempt that is at most the fourth, with no reprobe before it, is never followed by a hand-over |
| RepairLoop.WaitForPostRepairAssessment | plugins/bossd-plugin-repair/repair_assessment.go:480-588 | the first decisive poll's answer, or pending when time runs out |
| RepairLoop.NeedsWorkChanged | plugins/bossd-plugin-repair/repair_assessment.go:552-573 | the wait asks for another repair only on a changed input |
| RepairLoop.CleanMeans | plugins/bossd-plugin-repair/repair_assessment.go:400-478 | clean is reported exactly when the first decisive poll shows settled checks, no open feedback and no new comments |
| RepairLoop.ChangedIsDifferent | plugins/bossd-plugin-repair/repair_assessment.go:783-807 | an input counts as changed exactly if the next attempt would act on another one |
| RepairLoop.RepairSession | plugins/bossd-plugin-repair/repair_assessment.go:815-988 | the bounded loop with its attempts, the run each resumes, the lease flag they share, its reason to end, and the monitor after its cleanup |
| RepairLoop.NoIdleAttempt | plugins/bossd-plugin-repair/repair_assessment.go:934-969 | consecutive attempts act on different inputs, each resumes the one before it, and the exit for an unchanged input is never taken |
| RepairLoop.LeaseTaken | plugins/bossd-plugin-repair/repair_assessment.go:833-841 | the session holds the lease exactly if one of its attempts took it |
| RepairLoop.OutOfAttemptsMeans | plugins/bossd-plugin-repair/repair_assessment.go:956-962 | the loop runs out exactly when every attempt ran and asked for another |
| RepairOutcomes.WaitMeans | plugins/bossd-plugin-repair/repair_assessment.go:480-588 | the wait stops at the first poll that does not ask it to go on and says what that poll shows; it is pending exactly if there is none |
| RepairOutcomes.SessionMeans | plugins/bossd-plugin-repair/repair_assessment.go:815-988 | how every session goes: each attempt but the last leads to the next, which acts on what the poll that asked for it shows; the last, or a flag, ends it for the reason given; the lease is taken exactly if a run was started and the host gave it |
| CapabilityProfile.TrackerPlanAttachmentMatrix | plugins/bossd-plugin-codex/capability_profile.go:610-625 | splits the contract into what the operations provide and what they miss |
| CapabilityProfile.UniqueSortedNames | plugins/bossd-plugin-codex/capability_profile.go:677-690 | the loop gathers the sorted set of names |
| CapabilityProfile.UniqueSortedIs | plugins/bossd-plugin-codex/capability_profile.go:677-690 | that set is ascending and holds exactly the non-empty values |
| CapabilityProfile.CapabilityProfileResponse | plugins/bossd-plugin-codex/capability_profile.go:414-497 | the response, rejection by rejection |
| CapabilityProfile.ReadyMeansMet | plugins/bossd-plugin-codex/capability_profile.go:471-478 | ready exactly when some authenticated Linear connector exposes every required operation, whatever the target |
| CapabilityProfile.UnmetNamesFewest | plugins/bossd-plugin-codex/capability_profile.go:479-497 | when a connector authenticated and exposes something but none meets the profile, the answer is an error that names what the connector with the fewest gaps lacks |
| CapabilityAnswers.ResponseAnswers | plugins/bossd-plugin-codex/capability_profile.go:414-497 | every answer, told connector by connector: ready with the operations of the first one that lacks nothing, or else what the first of the closest ones lacks and has, with the reasons |
| CapabilityCache.HeadlessCapabilityCache.BeginProbe | plugins/bossd-plugin-codex/capability_cache.go:46-74 | expired entries go, then the caller answers from the cache, waits, or runs the probe |
| CapabilityCache.HeadlessCapabilityCache.FinishProbe | plugins/bossd-plugin-codex/capability_cache.go:76-87 | the result is recorded, cached if it succeeded, and the key is free again |
| CapabilityCache.ReachedCoherent | plugins/bossd-plugin-codex/capability_cache.go:39-88 | in every run from empty no key is both cached and pending, pending keys and running probes match, and every entry comes from a successful probe of its key |
| CapabilityCache.SingleFlight | plugins/bossd-plugin-codex/capability_cache.go:56-74 | a probe runs only with none of its key under way and nothing live cached |
| CapabilityCache.HitIsFresh | plugins/bossd-plugin-codex/capability_cache.go:51-59 | a cached answer is what a probe of that key found less than ten minutes ago |
| CapabilityCache.WaitIsFresh | plugins/bossd-plugin-codex/capability_cache.go:60-68 | whenever a waiter is woken it is handed what a probe of its own key found that was running when it asked and ended after |
| CapabilityCache.AnswerLaunches | plugins/bossd-plugin-codex/capability_profile.go:394-412 | an answer without an error makes the second response succeed for every target |
| CapabilityCache.ServedUntilExpiry | plugins/bossd-plugin-codex/capability_cache.go:78-86 | after a success every caller of the key is served it until it expires |
| CapabilityCache.SameIdentity | plugins/bossd-plugin-codex/capability_cache.go:95-139 | two callers share one identity exactly when profile, home, model, effort, trust, environment and configurations agree; the directory does not count |
| ProgressTail.ReadProgressTail | plugins/bossd-plugin-claude/progress.go:150-254 | the read's answer, or a failure that says nothing about the bytes |
| ProgressTail.WalkBack | plugins/bossd-plugin-claude/progress.go:205-253 | the backward loop computes the walk's answer |
| ProgressTail.LinesJoin | plugins/bossd-plugin-claude/progress.go:188-207 | splitting at a newline splits the lines |
| ProgressTail.TailRefinesWhole | plugins/bossd-plugin-claude/progress.go:174-253 | from any offset, with the first line dropped, the answer is unknown or the whole transcript's |
| ProgressAnswer.AnswerIs | plugins/bossd-plugin-claude/progress.go:205-251 | over a transcript's lines the answer is unknown if none speaks or the last that does has no time; else its phase is what that record says, dated by it or by the last line after it that has a time, whichever is later |
| ProgressAnswer.LastWriteUnique | plugins/bossd-plugin-claude/progress.go:229-246 | so the date is one time |
| ProgressAnswer.ReadSays | plugins/bossd-plugin-claude/progress.go:150-254 | a read says nothing when it failed or found no size, and otherwise what the lines it sees say |
| ProgressAnswer.SeenIsWhole | plugins/bossd-plugin-claude/progress.go:174-253 | a tail that holds a line that speaks answers as the whole transcript does |
| ProgressMemo.ProgressProbe.TakeSnapshot | plugins/bossd-plugin-claude/progress.go:86-130 | answers from the memo on an unmoved file, never stores a failed read, and keeps to the limit |
| ProgressMemo.ProgressProbe.Store | plugins/bossd-plugin-claude/progress.go:116-127 | stores the entry, drops exactly as many others as it must, changes none that stays, and holds at most 512 |
| ProgressMemo.AlwaysTraced | plugins/bossd-plugin-claude/progress.go:86-130 | in every run each entry was read from versions of its file in the order stat, open, read |
| ProgressMemo.AlwaysWithin | plugins/bossd-plugin-claude/progress.go:116-127 | however probes interleave the memo never holds more than 512 entries |
| ProgressMemo.HitIsCurrent | plugins/bossd-plugin-claude/progress.go:86-130 | where the versions of a file are settled, a hit answers for the file as it is now, in every run |
| ProgressMemo.CurrentIffSettled | plugins/bossd-plugin-claude/progress.go:86-130 | for a file that is never missing that condition is exact |
| ProgressMemo.GrowingSettled | plugins/bossd-plugin-claude/progress.go:86-130 | files that only grow, from their first appearance on, are settled, whatever times their writes leave |
| ProgressMemo.UnrecurringSettled | plugins/bossd-plugin-claude/progress.go:86-130 | so is any file no two of whose versions share size and time while the contents changed |
| ProgressMemo.StaleRun | plugins/bossd-plugin-claude/progress.go:96-126 | every violation of the condition is reached by a run from an empty memo |
| ProgressMemo.ReplacedIsStale | plugins/bossd-plugin-claude/progress.go:96-126 | a transcript replaced between stat and read and put back with its size and time is answered wrongly, in a run from an empty memo |
| MessageGraph.Search.MessageContainsCarrier | lib/bossalib/apiversion/procedureset.go:44-67 | true exactly if the carrier is reachable without a message visited before; false leaves the visited messages closed |
| MessageGraph.ContainsCarrier | lib/bossalib/apiversion/procedureset.go:34-36 | from a fresh set it decides reachability, cycles included |
| MessageGraph.ProceduresContainingCarrier | lib/bossalib/apiversion/procedureset.go:13-42 | exactly the unary procedures whose response contains the carrier |
| MessageGraph.LeftOverHides | lib/bossalib/apiversion/procedureset.go:34-36 | a visited set left over would hide a carrier |
| Processes.ChildMap | plugins/bossd-plugin-codex/process_inspector.go:311-324 | the child lists hold exactly the table's edges |
| Processes.DescendantPIDs | plugins/bossd-plugin-codex/process_inspector.go:299-341 | exactly the reachable processes, each once, the pane first, on cyclic tables too |
| Processes.RolloutCandidate | plugins/bossd-plugin-codex/process_inspector.go:229-268 | an open file binds exactly if it is a readable root-thread rollout of an interactive session under the root, for this directory unless any will do, with an id; its id, path and start go into the candidate |
| Processes.GatherFiles | plugins/bossd-plugin-codex/process_inspector.go:186-202 | gathers each eligible open file, none of them twice |
| Processes.ResolveAmong | plugins/bossd-plugin-codex/process_inspector.go:173-222 | "nothing open" only when every process was probed and holds nothing eligible; bound is the newest |
| Processes.OutcomeUnique | plugins/bossd-plugin-codex/process_inspector.go:204-221 | the outcomes exclude one another and the bound rollout is determined |
| Processes.ResolveInteractiveSessionIDByPIDAt | plugins/bossd-plugin-codex/process_inspector.go:159-222 | the resolution is over exactly the processes the pane reaches |
| HookLists.Prune | plugins/bossd-plugin-claude/hookconfig.go:214-225 | keeps the others in order |
| HookLists.UpsertInto | plugins/bossd-plugin-claude/hookconfig.go:188-203 | replaces the first match in place, or appends |
| HookLists.CapAt | plugins/bossd-plugin-claude/hookconfig.go:475-492 | drops the earliest matches past the limit |
| HookLists.DropFirstOwn | plugins/bossd-plugin-claude/hookconfig.go:475-492 | what is left of a capped kind is its latest entries, in order |
| HookLists.UpsertAlone | plugins/bossd-plugin-claude/hookconfig.go:188-203 | of a kind with at most one entry an upsert leaves exactly the new one |
| HookConfig.Settings.WriteHookConfig | plugins/bossd-plugin-claude/hookconfig.go:91-170 | the arrays after a write, or an error that changes nothing |
| HookConfig.Settings.WritePromptSubmitHookConfig | plugins/bossd-plugin-claude/hookconfig.go:389-433 | the arrays after a receipt and a turn-ended write |
| HookConfig.Settings.RemoveRunHookConfig | plugins/bossd-plugin-claude/hookconfig.go:319-366 | the arrays after a removal, rewritten only if something changed |
| HookURLs.OnlyURL | plugins/bossd-plugin-claude/hookconfig.go:231-250 | a command whose token holds none of the URLs bossd looks for contains such a URL exactly if it is a prefix of the one the command posts to |
| HookURLs.PostsToPrefixes | plugins/bossd-plugin-claude/hookconfig.go:231-250 | a written entry matches the URLs of exactly the ids that its own id starts with |
| HookRuns.HooksHold | plugins/bossd-plugin-claude/hookconfig.go:116-157 | for ids of which none is a prefix of another and tokens that hold none of the URLs bossd looks for, after any sequence of writes and removals foreign entries stand in order and bossd's are exactly the registry's: at most one run, finalize, question and prompt entry |
| HookRuns.TurnsAreLatest | plugins/bossd-plugin-claude/hookconfig.go:419-424 | the turn-ended entries are those of the last eight chats written, in write order |
| HookCommands.EntriesTold | plugins/bossd-plugin-claude/hookconfig.go:91-170 | after any writes and removals each kept entry is that of its last write, its chat not removed since, and its command is the call of curl that write asked for: token, port, path and form |
| HookRuns.PrefixIDsCollide | plugins/bossd-plugin-claude/hookconfig.go:420-421 | writing a chat's entry deletes that of a chat whose longer id starts with its id |
| HookRuns.TokenCollides | plugins/bossd-plugin-claude/hookconfig.go:389-424 | so does writing the entry of a chat whose URL stands in another chat's token |
| HookRuns.SafeTokenHoldsURL | plugins/bossd-plugin-claude/hookconfig.go:455-457 | such a token may match the pattern for safe tokens |
| HookRuns.WrittenReadsAsTurn | plugins/bossd-plugin-claude/hookconfig.go:116-124 | a stop entry whose token holds a turn-ended URL is counted among the turn-ended entries |
| HookRuns.TurnsExactly | plugins/bossd-plugin-claude/hookconfig.go:419-424 | the turn-ended entries are right after every sequence of writes and removals if and only if no id is a prefix of another and no token holds a turn-ended URL |

## Left out

- TrustGuarantees.PutGet: the level is one without quotes, backslashes or newlines, as both levels the editor is called with are.
- HookRuns.HooksHold: ids are of the characters bossd makes; `TurnsExactly` shows why no id may be a prefix of another and no token may hold a hook's URL.
- ProgressMemo.HitIsCurrent: a writer that goes on writing a file after another was put under its name; a read is of one moment.
- CapabilityCache.HeadlessCapabilityCache.BeginProbe: one reading of the clock for a whole call; a caller whose context ends while it waits, a probe that panics, and the probe made without the cache when a configuration cannot be read are not modelled.
- RepairMonitor.Monitor.StartWorkflow: the contexts it replaces and the sweeps it starts.
- RepairMonitor.Monitor.MaybeRepair: the host's answers to one call are given together; what may change between them is covered by the runs.
- RepairRuns.ReachedExclusive: other steps between the two holds of the lock that one event stands for.
- MessageGraph.ProceduresContainingCarrier: the order of the result and looking services up by name.
- Wording and line numbers of errors, logging and metrics.
- Reading and writing files, locking, symlinks and the list of directories a trust edit covers; path spellings are given.
- JSON: records and settings are taken as decoded; a hook array that is not an array reads as absent.
- The SHA-256 fingerprints, taken as one to one on what they hash; review comments are one fingerprint.
- Letter case and white space beyond ASCII where connector and operation names are compared.
- RFC 3339 parsing: a timestamp is an instant or unreadable.
- Advancing sessions stuck in planning, which is a few independent conditions.
- Starting the app server and reading its inventory, spawning `ps` and `lsof`, tmux and gRPC.
- The pane detectors, whose content is regular expressions, and the API version transforms, which are table lookups.
