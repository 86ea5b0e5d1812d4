# Verified models of opendb's stateful core

Dafny models of the parts of opendb whose correctness depends on histories, interleavings or arbitrary input,
with machine-checked proofs. `dafny verify dfyconfig.toml` checks everything.

| file | component |
|---|---|
| `Text.dfy` | the operations of Go's `strings` package that the other files use |
| `LlmBudget.dfy`, `LlmHistory.dfy` | the LLM call budget and its hooks, over all interleavings of their critical sections; and every answer from the history alone |
| `AuditLog.dfy`, `AuditVerdicts.dfy`, `AuditTamper.dfy`, `AuditProvenance.dfy`, `AuditReading.dfy` | the HMAC-chained audit log: writer, restart, verifier; which entries verify; what the verifier reports when lines are changed; which lists of lines it accepts; and what a reader sees of a file |
| `MarkdownHtml.dfy`, `MarkdownNesting.dfy`, `MarkdownIds.dfy`, `MarkdownText.dfy` | the markdown renderer, and what holds of the HTML it writes: nesting, numbers, text |
| `TableFit.dfy`, `TableLines.dfy`, `TableFormat.dfy`, `TableContent.dfy` | column selection, width fitting and drawing of terminal tables; line breaks in them; the vertical mode; and which values are shown where |
| `PriorityQueue.dfy` | the severity-ordered queue of LLM calls on a binary heap |
| `TraceSteps.dfy` | step IDs, ancestor walks and token accounting of diagnosis traces |
| `Provider.dfy` | tool calls and responses, shared by the next two |
| `StreamAssembly.dfy`, `StreamText.dfy` | folding a streamed response into text and tool calls, and the response in terms of what was streamed |
| `EngineRun.dfy`, `EngineAccounting.dfy`, `EngineTranscript.dfy` | the engine's loop over model rounds, the accounting of every run, and its result from what model and tools answered |
| `Fleet.dfy`, `FleetHistory.dfy`, `FleetRedirect.dfy` | heartbeats, status pulls, timeouts, redirect targets, what is known of the fleet from its history, and the concurrent redirect |
| `FaultReport.dfy`, `ReportReading.dfy` | rendering fault reports to markdown and parsing them back, and what is read from any text |
| `ConfigInsert.dfy` | inserting a model entry into the text of config.yaml |

## How the models are built

Code that updates state is a class or a method with loops; each such method is proved equal to a function of its
inputs or of the old state, and the theorems are about those functions and about runs (sequences of steps) built
from them. Clocks, the network, the model provider, tools, character widths and the keyed hash are parameters, so
that a theorem holds for all their behaviours.

- Time is an integer. Each critical section receives the time it read under its lock; a run asks only that time does
  not go back. The daily reset's `Truncate(24h)` is floor division.
- The budget's limits do not change during a run. A run may have any number `k` of calls between PreCall and
  PostCall; `k = 1` is sequential use.
- The audit file is a string in which one character stands for one byte. The keyed hash is an arbitrary function to 64
  hexadecimal digits. Where a theorem needs collision resistance (HMAC is specified in RFC 2104) it asks for it on the
  messages that the writer and the verifier hash, a finite set. The scanner's line limit of 64 KiB is modelled:
  a longer line makes both readers fail. A write to the file may fail after any number of bytes.
- The engine's summary cuts tool outputs after 500 bytes; there, too, one character stands for one byte.
- HTML is a list of tokens: opening and closing tags, text, line breaks. Blank characters are those of Go's
  `unicode.IsSpace`, and a fence language is compared with "sql" under Unicode case folding.
- A table is measured with a width per character of 0, 1 or 2; blanks, dots and box characters take one cell.

## Where the code and its own description differ

- "max calls per hour" (`internal/drone/llm_budget.go:34`) does not hold of every interval of an hour. `CallsPerReset`
  bounds the calls of any interval by its hourly resets, so that an interval without a reset respects the limit;
  `HourlyRate` proves that twice the limit is the most in an hour, and `HourlyRateIsTight` that it is reached for every
  hourly limit, any number of calls under way and any cooldown.
- New models are said to go just before the next top-level key (`internal/config/append_model.go:36-38`). They do if and
  only if no comment starts in the first column before that key (`GoesBeforeNextKeyIff`, `CommentEndsBlock`).
- Shrinking columns does not always reach the terminal width: `FitMayOverflow` has the smallest case,
  `FitMeetsTerminalIff` the exact condition, and `TableNeverOverflows` shows that from 17 cells on the columns that
  are kept visible always meet it.
- `TotalEntries` is described as the number of non-empty lines (`internal/drone/audit_verify.go:26`); the code counts
  only lines with a hash. `TotalsAddUp` states what the counters count, and `TotalIsLinesIff` when the two agree.
- The audit writer accepts newlines in its arguments, entries over the scanner's line limit, and files whose last line
  was cut off, for example by a write of its own that failed. A logger that has just opened the log writes entries that
  verify exactly in the other cases (`OpenedLoggerVerifiesIff`, `RestartAgreement`). In general an entry verifies if and
  only if the logger's state is also the one the file is in (`LoggedEntryVerifiesIff`); it is not after a write that
  failed within an entry (`AfterFailedWrite`), even if the file then ends in a newline (`FailedNewlineWriteIsNotClean`),
  or when a second logger has written to the file (`StaleLoggerVerifiesIff`). An entry over the limit makes the whole log
  unreadable, and nothing that is appended later makes it readable again (`PlainEntryIsReadIff`, `RejectedForEver`).
- A line without a hash counts as legacy and starts a new chain. Taking the hash off the last line is therefore not
  reported (`HashStripped`), and neither is a deletion from the middle if a line without a hash is inserted and the
  next line carries the hash before it in its text (`SpliceVerifies`). `ValidIffFollows` gives exactly the lists of lines
  that are accepted, `PrefixVerifiesIff` the case in which every line has a hash.
- The wrapper `div` of SQL code blocks is opened and never closed (`internal/cerebrate/web_report.go:142-146`).
  `BalancedIffNoSqlBlock` gives the documents for which this matters; without the wrapper every output is well nested.
- Line breaks in cells are collapsed, those in column names are not (`internal/format/table.go:82-86,122-125`). The lines
  that the terminal shows are all as wide as the table if and only if no visible column name keeps a line break
  through the cut to its final width (`ShownLinesAlignIff`, `BrokenHeader`).
- Step IDs are distinct if and only if every added step found its chosen or generated ID free (`RunIsDistinctIff`);
  `ChosenIdsMayCollide` and `MovedStepsMayCollide` are the smallest cases in which one is not. Generated IDs never
  coincide with each other as long as updates keep ParentIDs (`RunsGenerateDistinctIds`).
- The ancestor walk, and with it the token total, is endless if and only if steps without tokens form a cycle
  (`WalkEndsIffNoTrap`, `TotalEndsIff`, `SelfParentNeverEnds`). A token-bearing step above which the parents form a cycle
  is neither counted nor below a counted one (`CoveredIffChainEnds`). Runs that leave IDs to AddStep have no cycles.
- Text that the engine captures from rounds with only memory tools is meant to be delivered
  (`internal/engine/engine.go:199-204`). An answer always begins with it. When the turns are used up, the last text of the
  run is returned instead: the captured text if there was one capture and no later text (`CapturedReportIsReturned`),
  but not if another text came after it (`CapturedReportIsLost`). `CapturedTextIsDeliveredIff` has the exact condition.
- A redirect is about the workers of the last status pull, while heartbeats report only how many there are. redirected +
  failed is the dead Overlord's reported worker count if and only if the two agree and the target is still registered
  (`RedirectMatchesReportIff`); an Overlord that dies before its first pull has no worker redirected
  (`ReportedWorkersAreLost`).

## Model

| member | source | states |
|---|---|---|
| LlmBudget.LLMBudget.constructor | internal/drone/llm_budget.go:52-64 | a new budget is empty, its windows end an hour later and at the next midnight |
| LlmBudget.LLMBudget.CanCallLLM | internal/drone/llm_budget.go:68-99 | the new state and the verdict, with the numbers each refusal reports, as a function of the old state and the time |
| LlmBudget.LLMBudget.RecordCall | internal/drone/llm_budget.go:102-109 | both counters and the metric's cooldown change, nothing else |
| LlmBudget.LLMBudget.RecordSuccess | internal/drone/llm_budget.go:112-116 | forgets the metric's failures only |
| LlmBudget.LLMBudget.RecordFailure | internal/drone/llm_budget.go:119-123 | counts one more failure of the metric only |
| LlmBudget.LLMBudget.ResetCountersIfNeeded | internal/drone/llm_budget.go:156-176 | the hourly and daily resets, in this order, with degraded mode and cooldown clean-up |
| LlmBudget.LLMBudget.CleanUpCooldowns | internal/drone/llm_budget.go:169-174 | exactly the cooldowns that have expired are deleted |
| LlmBudget.LLMHooks.PreCall | internal/drone/llm_hook.go:79-98 | refused exactly when the budget refuses; only replay mode consumes a recorded answer and only other modes proceed |
| LlmBudget.LLMHooks.PostCall | internal/drone/llm_hook.go:102-122 | records the call and its outcome in the budget, and the interaction in record mode only |
| LlmBudget.CountersStayBounded | internal/drone/llm_hook.go:79-122 | in every interleaved run with at most k calls under way, each counter plus the calls in flight is at most its limit + k - 1 |
| LlmBudget.DegradedMeansLimitReached | internal/drone/llm_budget.go:86-96 | in every run, degraded mode implies that one of the limits has been reached |
| LlmBudget.HourlyRate | internal/drone/llm_budget.go:156-163 | in every interleaved run, any interval of at most an hour holds at most 2 * (HourlyLimit + k - 1) recorded calls |
| LlmBudget.HourlyRateSequential | internal/drone/llm_budget.go:86-109 | in sequential use, at most 2 * HourlyLimit recorded calls in any hour |
| LlmBudget.CallsPerReset | internal/drone/llm_budget.go:156-163 | in any interval, of any length, at most HourlyLimit + k - 1 recorded calls for its beginning and for each hourly reset in it; without a reset the limit is respected |
| LlmBudget.OneResetAnHour | internal/drone/llm_budget.go:157-160 | hourly resets are more than an hour apart |
| LlmBudget.HourlyRateIsTight | internal/drone/llm_budget.go:86-109 | the bound of twice HourlyLimit + k - 1 is reached, for every hourly limit, every k and any cooldown, if the daily limit allows it |
| LlmBudget.DailyRate | internal/drone/llm_budget.go:164-168 | between two midnights at most DailyLimit + k - 1 calls are granted, whatever the interleaving |
| LlmBudget.GrantedToday | internal/drone/llm_budget.go:60-60 | no daily reset follows the first grant of a day before that day is over |
| LlmBudget.NoGrantDuringCooldown | internal/drone/llm_budget.go:75-79 | in every interleaving, no call for a metric is granted within the cooldown after a recorded one |
| LlmBudget.RetriesCountFailures | internal/drone/llm_budget.go:111-123 | the retry counter is the number of failures since the last success |
| LlmHistory.AnswerFromHistory | internal/drone/llm_budget.go:68-99 | in every run, the answer to every check and the numbers it reports follow from the events alone: a metric cools down exactly until the cooldown has passed since the last call recorded for it, and the remaining time is the difference |
| LlmHistory.GrantedExactlyWhen | internal/drone/llm_budget.go:68-99 | a check is granted if and only if the cooldown has passed since the metric's last recorded call, the failures since the last success are below the maximum, and the calls recorded in the current hour and day are below the limits |
| LlmHistory.BudgetIsHistory | internal/drone/llm_budget.go:102-109 | in every run, counters and deadlines are those of the events, a cooldown entry is the time of the metric's last call plus the cooldown, and a missing entry has expired |
| LlmHistory.DegradedIff | internal/drone/llm_budget.go:86-98 | degraded mode holds exactly if a limit refused a check and since then no day, and no hour of a day with calls left, was opened |
| LlmBudget.EscalatedForEver | internal/drone/llm_budget.go:80-84 | in every interleaving of the protocol, a metric with the maximum of failures and no call under way is never granted a call again, through all resets |
| LlmBudget.SuccessForgets | internal/drone/llm_budget.go:112-116 | with a call under way it may be: a success forgets all failures |
| AuditLog.AuditLogger.constructor | internal/drone/audit.go:73-89 | opening reads the state in which the verifier's chain ends, and fails exactly when the file cannot be scanned |
| AuditLog.AuditLogger.Log | internal/drone/audit.go:92-112 | appends one line with the hash of the previous hash and the entry and advances the chain; when the write fails, part of the line may be in the file and the chain state stays |
| AuditLog.ExtractLastHash | internal/drone/audit.go:180-206 | the last hash read is the verifier's final chain state, for valid, tampered and legacy files |
| AuditLog.LastNonEmptyLine | internal/drone/audit.go:180-191 | the scanning loop finds the last line the readers keep, or fails on a line over the limit |
| AuditLog.VerifyLines | internal/drone/audit_verify.go:88-118 | the report - counts, tampered lines, first tampered line, skipped lines - as a function of the lines |
| AuditLog.SplitEntryLine | internal/drone/audit_verify.go:122-128 | the last hash prefix separates exactly the entry and the hash that were joined, whatever the entry contains |
| AuditLog.ReadEntry | internal/drone/audit_verify.go:62-86 | a newline-free entry that fits the scanner is read back as exactly one more line |
| AuditVerdicts.ReadSessionsIff | internal/drone/audit.go:73-112 | any number of restarts adds exactly one chained line per entry to a complete file, if and only if the entries are free of newlines and fit the scanner |
| AuditLog.ChainedLinesVerify | internal/drone/audit_verify.go:88-118 | lines chained from the end state all verify and change nothing before them |
| AuditVerdicts.RestartAgreement | internal/drone/audit.go:165-206 | after any readable file, every entry of every later session verifies if and only if there is none, or the file ended in a newline and all entries are free of newlines and fit the scanner; the report then grows by exactly the new entries |
| AuditVerdicts.AllAcceptedIff | internal/drone/audit.go:73-112 | on any readable file, every entry of every session verifies if and only if there is none, or the file ended in a newline and every entry is free of newlines and fits the scanner |
| AuditVerdicts.LoggedEntryVerifiesIff | internal/drone/audit.go:92-112 | on any file and for any state of the logger, an entry verifies if and only if it has no newline, the line it completes fits the scanner, and the logger's state is the one the file ends in, followed by its unterminated tail |
| AuditVerdicts.OpenedLoggerVerifiesIff | internal/drone/audit.go:73-112 | for a logger that has read its state from the file: if and only if the entry has no newline and fits, and the last line was terminated |
| AuditVerdicts.StaleLoggerVerifiesIff | internal/drone/audit.go:92-112 | after another logger wrote to the file: only if the logger's state happens to be the new hash |
| AuditVerdicts.AfterFailedWrite | internal/drone/audit.go:106-110 | after a write that failed anywhere in any entry, the same logger's next entry verifies if and only if its state is the one in which the lines of the broken text end, followed by the text behind its last newline |
| AuditVerdicts.AfterFailedPlainWrite | internal/drone/audit.go:106-110 | for a broken entry without a newline: if and only if nothing of it is in the file |
| AuditVerdicts.FailedNewlineWriteIsNotClean | internal/drone/audit.go:92-112 | a failed write that leaves a complete, readable file, on which the next clean entry does not verify |
| AuditVerdicts.PlainEntryIsReadIff | internal/drone/audit_verify.go:73-84 | a newline-free entry leaves the log readable if and only if the line it completes fits the scanner |
| AuditVerdicts.TooLongStays | internal/drone/audit_verify.go:73-84 | a log that cannot be scanned cannot be scanned after anything is appended |
| AuditVerdicts.RejectedForEver | internal/drone/audit.go:73-80 | on such a log the running session cannot repair it and later sessions do not open it |
| AuditVerdicts.NewlineEntryIsFlagged | internal/drone/audit.go:96-105 | an entry with a newline does not verify, whatever the file and the logger's state |
| AuditVerdicts.TotalsAddUp | internal/drone/audit_verify.go:25-37 | every line is counted once, as valid, tampered or skipped; the log is valid exactly if nothing is tampered |
| AuditVerdicts.TotalIsLinesIff | internal/drone/audit_verify.go:26-26 | the total is the number of non-empty lines if and only if every line has a hash |
| AuditVerdicts.WrittenLog | internal/drone/audit.go:92-112 | a log written by any number of sessions from an empty file is the chained lines of its entries if and only if the entries are free of newlines and fit the scanner |
| AuditTamper.VerifyPairs | internal/drone/audit_verify.go:101-118 | with well-formed hashes the report lists exactly the lines whose hash is not the hash of the recorded hash before and the entry |
| AuditTamper.LineReplaced | internal/drone/audit_verify.go:88-128 | whatever one line is replaced with, exactly the line is flagged unless it has no hash or the right one, and its successor unless the old hash is still there |
| AuditTamper.EntryTampering | internal/drone/audit_verify.go:101-118 | changing one entry's text flags exactly that line |
| AuditTamper.HashTampering | internal/drone/audit_verify.go:101-118 | changing one recorded hash, to any text, flags what LineReplaced says of the line as it then splits: that line and its successor if the text holds no hash prefix |
| AuditTamper.HashStripped | internal/drone/audit_verify.go:102-110 | a line without its hash is skipped and its successor flagged; at the end of the log nothing is |
| AuditTamper.HashesDistinct | internal/drone/audit.go:96-104 | no two lines of a written log carry the same hash |
| AuditTamper.Deletion | internal/drone/audit_verify.go:101-118 | deleting lines flags exactly the line that followed them; deleting the tail is not detected |
| AuditProvenance.ValidIffFollows | internal/drone/audit_verify.go:88-128 | among all lists of lines that have no hash or a hash of the log, exactly those are accepted in which each hashed line stands directly behind its predecessor in the log, or starts a chain with the hash before it in its text |
| AuditProvenance.WindowVerifiesIff | internal/drone/audit_verify.go:101-118 | if all lines have a hash, they are accepted if and only if they are consecutive lines of the log, the first with the hash before it in its text |
| AuditProvenance.PrefixVerifiesIff | internal/drone/audit_verify.go:101-118 | if moreover the first line starts with a timestamp: if and only if they are a beginning of the log, so deleted, reordered, repeated and inserted lines are detected |
| AuditProvenance.SplicedLines | internal/drone/audit_verify.go:102-110 | the list of lines that is meant: both untouched parts of the log, and two lines between them |
| AuditProvenance.SpliceVerifies | internal/drone/audit_verify.go:102-110 | for every log, a deletion from the middle that one inserted line without a hash hides |
| AuditProvenance.LogIsProtected | internal/drone/audit.go:92-112 | what is accepted of the file that any number of sessions wrote, after any change that takes its hashes from it |
| AuditReading.FieldsAreShown | internal/drone/audit.go:96-103 | split at its bars, an entry shows all six fields, each padded and labelled, in their order |
| AuditReading.PlainEntriesDiffer | internal/drone/audit.go:96-103 | entries without bars in their fields are told apart by their texts |
| AuditReading.BarsAreAmbiguous | internal/drone/audit.go:96-103 | two different entries with a bar in a field have one text, and so one hash |
| AuditReading.FileIsRead | internal/drone/audit.go:180-191 | both readers see the non-empty lines in order, whether ended by LF, CR LF or, at the end, by nothing; and nothing exactly if a line with its carriage return is too long |
| AuditReading.ReportListsBroken | internal/drone/audit_verify.go:88-118 | for any lines, those are listed, by number and in order, whose hash is not that of the hash recorded one line before and the entry; the first tampered line is the first of them |
| MarkdownHtml.MarkdownToHTML | internal/cerebrate/web_report.go:116-245 | the loop emits the tokens of the specification, for every document |
| MarkdownHtml.WriteLine | internal/cerebrate/web_report.go:125-231 | one line: flags and tokens after it |
| MarkdownHtml.WriteBlock | internal/cerebrate/web_report.go:172-230 | headers, table rows, list items, breaks and paragraphs, in the code's order of precedence |
| MarkdownHtml.RenderTableRow | internal/cerebrate/web_report.go:262-275 | a row with one cell per non-blank part |
| MarkdownHtml.EscapeIsOnePass | internal/cerebrate/web_report.go:278-284 | the four successive replacements escape each character exactly once |
| MarkdownHtml.EscapeIsInjective | internal/cerebrate/web_report.go:278-284 | different texts have different escapes |
| MarkdownHtml.EscapedIsSafe | internal/cerebrate/web_report.go:278-284 | an escaped text has no angle bracket and no double quote |
| MarkdownNesting.RenderIsWellNested | internal/cerebrate/web_report.go:116-245 | for every document the tags nest by the grammar and all are closed; an open table and an open list never coincide |
| MarkdownNesting.FeedLine | internal/cerebrate/web_report.go:125-231 | after every line the flags describe exactly the open elements |
| MarkdownNesting.RenderedTextIsSafe | internal/cerebrate/web_report.go:154-158 | no text token of any document contains an angle bracket or a double quote |
| MarkdownNesting.WrapperCount | internal/cerebrate/web_report.go:141-146 | the wrapper is opened once per SQL block and never closed |
| MarkdownNesting.BalancedIffNoSqlBlock | internal/cerebrate/web_report.go:129-152 | counting the wrapper, the output is balanced if and only if no opening fence names SQL |
| MarkdownIds.BlocksAreNumbered | internal/cerebrate/web_report.go:138-152 | in every document the code blocks are numbered 1, 2, ..., one for each opening fence, and every copy button names the block directly behind it |
| MarkdownText.UnescapeEscaped | internal/cerebrate/web_report.go:278-284 | unescaping undoes escaping, for every text |
| MarkdownText.LineSays | internal/cerebrate/web_report.go:125-231 | after any lines, one more line writes exactly the pieces it asks for in its place: outside code the trimmed line without its marker, in the element its marker names, or the non-blank cells of a row; inside code the line itself |
| MarkdownText.DocumentSays | internal/cerebrate/web_report.go:116-245 | every document says what its lines ask for, nothing else and in their order: each text, unescaped, in the element that the line's own beginning and the lines before it determine |
| TableFormat.FormatTableOpts | internal/format/table.go:65-150 | what is shown in either mode, and the footers that say how many rows and which columns are left out; from 17 cells on no line of the box exceeds the terminal |
| TableFormat.RenderVertical | internal/format/table.go:312-352 | the loops of the vertical mode write one line for each value |
| TableFormat.ValuesFit | internal/format/table.go:312-352 | names are aligned, values never sliced, and no line is wider than the terminal less two cells or than name, separator and ten cells |
| TableContent.CellsAreShown | internal/format/table.go:357-380 | the cell of row r and column i is the value with each tab, CR, LF or CR LF as one blank, or a dash for null or a missing value |
| TableContent.PlainIsShown | internal/format/table.go:369-380 | a value without line breaks and tabs is shown as it is |
| TableContent.ShownRowsAre | internal/format/table.go:77-81 | the first MaxRows rows are shown, in order, or all if there are no more or no maximum |
| TableContent.BoxShows | internal/format/table.go:96-137 | the box has the visible columns' names in its second line and the values of row r in line r + 4, each at its column, or its cut |
| TableContent.FrameIs | internal/format/table.go:127-137 | the three borders with their corners, one run of dashes for each column |
| TableContent.VerticalShows | internal/format/table.go:312-352 | behind the title of each row one line for each column: the name at the right of its field, and the value or its cut |
| TableContent.HiddenIff | internal/format/table.go:96-111 | columns are hidden if and only if the table is wider than the terminal even with every column at its header's width and at least the minimum |
| TableContent.ShownColumnsAreMaximal | internal/format/table.go:96-111 | if some are hidden, as many columns are shown as leave room for one more at these widths, and at least one |
| TableContent.PlaceholderIsEmpty | internal/format/table.go:242-267 | the column that stands for the hidden ones has no values |
| TableContent.PlaceholderSays | internal/format/table.go:250-252 | its name is the number of hidden columns, as a numeral that reads back as it |
| TableContent.FootersSay | internal/format/table.go:139-147 | the numbers of rows left out and of columns hidden, as numerals that read back as them, each line exactly if there are any |
| TableContent.ListedNames | internal/format/table.go:145-146 | every hidden column's name, at its place between commas |
| TableContent.NaturalIsAttained | internal/format/table.go:154-170 | no column is wider than its header or one of its cells |
| TableContent.BorderParts | internal/format/table.go:382-393 | split at its marks, a border is one run of dashes for each column, two longer than the column is wide |
| TableLines.CellsArePlain | internal/format/table.go:369-380 | no cell has a line break |
| TableLines.OnlyHeaderMayBreak | internal/format/table.go:122-137 | borders and data lines have no line break; the header has one if and only if a visible column name keeps it through the cut |
| TableLines.ShownLinesAlignIff | internal/format/table.go:119-137 | the lines that the terminal shows are never wider than the table, and all exactly as wide if and only if no visible column name keeps a line break |
| TableLines.ShownTableNeverOverflows | internal/format/table.go:65-137 | the same of every result set, with the terminal's width as the bound from 17 cells on |
| TableLines.BrokenHeader | internal/format/table.go:122-129 | one column whose name has a line break shows a narrower line |
| TableFit.ComputeTableWidth | internal/format/table.go:178-184 | the loop computes the table width |
| TableFit.FindWidest | internal/format/table.go:191-196 | the first of the widest columns |
| TableFit.FitWidths | internal/format/table.go:188-203 | shrinking in place ends, with the specified widths |
| TableFit.FitIsExact | internal/format/table.go:188-203 | the fitted width is min(old width, max(terminal width, width with all columns cut to the minimum)) |
| TableFit.FitIsFair | internal/format/table.go:186-203 | no column grows; a shrunk column keeps the minimum and no column ends more than one cell wider |
| TableFit.FitMeetsTerminalIff | internal/format/table.go:188-203 | min(old width, terminal width) is reached if and only if the table fitted or its cut columns do |
| TableFit.FitMayOverflow | internal/format/table.go:197-199 | a table that shrinks and still overflows |
| TableFit.TruncateStr | internal/format/table.go:287-308 | the loop cuts as specified |
| TableFit.TruncateFits | internal/format/table.go:287-308 | byte slicing happens exactly in a column of at most three cells that the text exceeds; otherwise the result fits and is the text or its longest prefix that leaves room for the dots |
| TableFit.CountFittingColumns | internal/format/table.go:206-239 | the longest prefix of columns whose headers fit, at least one |
| TableFit.SelectColumns | internal/format/table.go:96-111 | which columns stay visible and which are hidden |
| TableFit.VisibleAndHidden | internal/format/table.go:242-267 | visible and hidden columns together are the original ones, in order, and the placeholder counts the hidden ones |
| TableFit.ComputeNaturalWidths | internal/format/table.go:154-170 | the loops compute the widest text of each column |
| TableFit.NaturalIsWideEnough | internal/format/table.go:154-170 | no header or cell exceeds its column's natural width |
| TableFit.NoCellIsSliced | internal/format/table.go:119-125 | the byte-slicing branch is never reached and every cut cell fits its column, on every terminal |
| TableFit.WriteRow | internal/format/table.go:395-412 | the padded row |
| TableFit.WriteHorizontal | internal/format/table.go:382-393 | the border |
| TableFit.BorderWidth | internal/format/table.go:382-393 | every border is exactly as wide as the table |
| TableFit.RowWidth | internal/format/table.go:395-412 | every row of fitting cells is exactly as wide as the table |
| TableFit.DrawnLinesAlign | internal/format/table.go:127-137 | all lines that are written, a header with a line break counting as one, have the same width |
| TableFit.VisibleColumnsFit | internal/format/table.go:101-111 | from 17 cells on the visible columns, with the placeholder, fit at the minimum width |
| TableFit.TableNeverOverflows | internal/format/table.go:65-137 | from 17 cells on every line that is written is exactly as wide as the table and no wider than the terminal |
| TableFit.TableFitsIff | internal/format/table.go:101-125 | on any terminal, the box fits if and only if its visible columns do at the minimum width |
| PriorityQueue.LLMPriorityQueue.Enqueue | internal/cerebrate/llm_priority_queue.go:54-59 | adds exactly the call, keeps heap order and scores, and keeps the back-pointers right if and only if the call was not queued already |
| PriorityQueue.LLMPriorityQueue.Dequeue | internal/cerebrate/llm_priority_queue.go:63-70 | returns and removes exactly a call no other goes before, with index -1, or null from an empty queue |
| PriorityQueue.LLMPriorityQueue.Peek | internal/cerebrate/llm_priority_queue.go:73-80 | the call that would be served next, without a change |
| PriorityQueue.LLMPriorityQueue.Stats | internal/cerebrate/llm_priority_queue.go:97-112 | the counts by severity, which add up to the length |
| PriorityQueue.LLMPriorityQueue.Swap | internal/cerebrate/llm_priority_queue.go:137-141 | exchanges two calls and keeps the back-pointers |
| PriorityQueue.LLMPriorityQueue.PopLast | internal/cerebrate/llm_priority_queue.go:150-158 | takes the last call off and marks it as removed |
| PriorityQueue.LLMPriorityQueue.SiftUp | internal/cerebrate/llm_priority_queue.go:58-58 | container/heap's up, through Less and Swap |
| PriorityQueue.LLMPriorityQueue.SiftDown | internal/cerebrate/llm_priority_queue.go:69-69 | container/heap's down, through Less and Swap |
| PriorityQueue.LLMPriorityQueue.LessIsBefore | internal/cerebrate/llm_priority_queue.go:131-136 | comparing scores is comparing severities, then request times |
| PriorityQueue.PushKeepsOrder | internal/cerebrate/llm_priority_queue.go:54-59 | pushing keeps the heap order and adds exactly one call |
| PriorityQueue.PopKeepsOrder | internal/cerebrate/llm_priority_queue.go:63-70 | popping keeps the heap order and removes exactly the root |
| PriorityQueue.EveryRunConserves | internal/cerebrate/llm_priority_queue.go:54-70 | after any mix of operations the calls served and still queued are the calls enqueued, in heap order |
| PriorityQueue.NextServedIsFirst | internal/cerebrate/llm_priority_queue.go:126-136 | after any mix of operations no queued call goes before the next one served |
| PriorityQueue.DrainIsSorted | internal/cerebrate/llm_priority_queue.go:126-136 | draining serves every call once, by severity and then by request time |
| PriorityQueue.DrainServesBySeverity | internal/cerebrate/llm_priority_queue.go:126-136 | draining serves critical calls before warnings, warnings before all others, and calls of one class by request time |
| PriorityQueue.IndexedMeansDistinct | internal/cerebrate/llm_priority_queue.go:137-158 | back-pointers can be right only while no call is queued twice |
| TraceSteps.Event.GenerateId | internal/diagtrace/diagtrace.go:694-711 | the loop numbers the children of a parent |
| TraceSteps.Event.AddStep | internal/diagtrace/diagtrace.go:652-673 | appends the normalised step and changes nothing else |
| TraceSteps.Event.UpdateStep | internal/diagtrace/diagtrace.go:679-692 | replaces the first step with the ID, if there is one |
| TraceSteps.Event.IndexParents | internal/diagtrace/diagtrace.go:890-901 | the maps from IDs to parents and to token-bearing |
| TraceSteps.HasActualTokenAncestor | internal/diagtrace/diagtrace.go:903-913 | whenever the walk can end, it does, and tells whether it meets a token-bearing step |
| TraceSteps.Event.TotalTokens | internal/diagtrace/diagtrace.go:802-820 | the total, for all steps on which the walks end: event tokens, else uncovered steps, else estimates |
| TraceSteps.RunIsSound | internal/diagtrace/diagtrace.go:652-711 | in every run that leaves IDs to AddStep the IDs are distinct and longer than their ParentIDs, all walks end and no chain of parents is a cycle |
| TraceSteps.RunIsDistinctIff | internal/diagtrace/diagtrace.go:652-692 | a run, with any chosen IDs, ends with distinct IDs if and only if every addition found its ID free |
| TraceSteps.AddKeepsDistinctIff | internal/diagtrace/diagtrace.go:652-662 | one addition keeps the IDs distinct if and only if no step has the chosen or generated one |
| TraceSteps.RunsGenerateDistinctIds | internal/diagtrace/diagtrace.go:694-711 | in every run with chosen IDs mixed in, no two IDs that AddStep generates coincide |
| TraceSteps.RunsKeepGenerated | internal/diagtrace/diagtrace.go:652-692 | additions and updates keep every generated ID the one of its position |
| TraceSteps.GeneratedIdsDistinct | internal/diagtrace/diagtrace.go:694-711 | generated IDs never repeat, across parents and levels, whatever the other steps are called |
| TraceSteps.GeneratedParentsShorten | internal/diagtrace/diagtrace.go:890-913 | every known ID is longer than its parent's, so the walk ends |
| TraceSteps.WalkEndsIffNoTrap | internal/diagtrace/diagtrace.go:903-913 | the walk runs for ever if and only if it starts in a set of known steps without tokens whose parents are all in the set |
| TraceSteps.WalkEndsIffSoon | internal/diagtrace/diagtrace.go:903-913 | the walk ends if and only if it has ended after as many rounds as there are IDs |
| TraceSteps.TotalEndsIff | internal/diagtrace/diagtrace.go:802-820 | the total of an event, loaded or recorded, can be computed if and only if there is no such set |
| TraceSteps.SelfParentNeverEnds | internal/diagtrace/diagtrace.go:903-913 | the smallest case: a step without tokens that is its own parent |
| TraceSteps.ChosenIdsMayCollide | internal/diagtrace/diagtrace.go:659-662 | the smallest case of a generated ID that was chosen before |
| TraceSteps.MovedStepsMayCollide | internal/diagtrace/diagtrace.go:679-711 | an update that moves a step to another parent makes AddStep generate its ID again |
| TraceSteps.MeetsIffBearingAncestor | internal/diagtrace/diagtrace.go:903-913 | a walk that ends finds a token-bearing ancestor if and only if there is one; of several steps with one ID the last counts |
| TraceSteps.CountedIsTopmost | internal/diagtrace/diagtrace.go:807-812 | for every step list on which the walks end, the steps counted are exactly the token-bearing ones without a token-bearing ancestor |
| TraceSteps.CoveredIffChainEnds | internal/diagtrace/diagtrace.go:802-820 | for every such list, a token-bearing step is counted or has a counted ancestor if and only if its chain of parents ends |
| TraceSteps.TotalCountsTopmostSteps | internal/diagtrace/diagtrace.go:802-820 | for every such list without event tokens, the total is the sum over the topmost token-bearing steps if a token-bearing step has a chain that ends, else the estimates |
| TraceSteps.RunTotalCountsTopmostSteps | internal/diagtrace/diagtrace.go:652-711 | in a run that leaves IDs to AddStep the total is that sum whenever a step bears tokens, and every token-bearing step is covered |
| TraceSteps.StepTokens | internal/diagtrace/diagtrace.go:915-924 | a step's tokens are its total, if it has one, else the sum of its five counts; without negative counts they are positive exactly if one of them is; the estimate is the sum of its four parts |
| TraceSteps.EventTokensComeFirst | internal/diagtrace/diagtrace.go:802-816 | an event with tokens of its own has the sum of input and output as its total, whatever its steps |
| TraceSteps.NextIdCounts | internal/diagtrace/diagtrace.go:694-711 | the number in a generated ID is one more than the number of steps with that ParentID |
| TraceSteps.AddedStepIs | internal/diagtrace/diagtrace.go:652-673 | what an added step keeps, and which ID, status, end and duration are filled in |
| StreamAssembly.StreamFinalResponse | internal/engine/engine.go:756-903 | the loop with its watchdog, stall, cancellation and fallback exits computes the specified response and chunks |
| StreamAssembly.ChunksAreContent | internal/engine/engine.go:756-944 | on every return without an error the chunks add up to the content |
| StreamAssembly.ToolCallsAreRebuilt | internal/engine/engine.go:864-879 | tool calls cut into a head and continuations are rebuilt, whatever is interleaved |
| StreamAssembly.FeedCuts | internal/engine/engine.go:864-879 | feeding the cuts one after another yields the calls, after whatever was there |
| StreamText.PlainStream | internal/engine/engine.go:756-903 | unless it is given up, a stream whose text never starts with a think tag returns the concatenation of its text deltas, these deltas as chunks, the concatenated thinking, the tool calls, and truncation exactly if the last finish reason says so; the chat call's response only if nothing came |
| StreamText.ThinkingStream | internal/engine/engine.go:840-861 | if the text starts with a think tag, the content is what was there before, what follows the first closing tag in a later delta, and the text after it; everything else is thinking |
| StreamText.UnclosedStream | internal/engine/engine.go:840-861 | a tag that no later delta closes turns all further text into thinking |
| StreamText.GivenUpStream | internal/engine/engine.go:798-827 | a stream fails if it is cancelled, or if the watchdog is overdue when the events so far brought thinking |
| StreamText.UnopenedStream | internal/engine/engine.go:762-768 | a stream that cannot be opened is replaced by the chat call's response or error |
| EngineRun.Run | internal/engine/engine.go:240-532 | the loop ends for every environment, with the specified result |
| EngineRun.RunRound | internal/engine/engine.go:240-300 | one turn up to the continuation of a truncated answer |
| EngineRun.HandleAnswer | internal/engine/engine.go:308-416 | parse retry, answer, ghost calls, nudge or tools, in the code's order |
| EngineRun.ExecuteRound | internal/engine/engine.go:414-504 | captured text, tool record and the passed-through report |
| EngineRun.ShouldFlushContent | internal/engine/engine.go:711-732 | true exactly if all calls are to side-effect tools |
| EngineRun.FilterGhosts | internal/engine/engine.go:360-367 | keeps the calls with ID and name, in order |
| EngineRun.FindPassthrough | internal/engine/engine.go:457-466 | the first successful result with the marker, without it |
| EngineRun.FindLastAnswer | internal/engine/engine.go:519-524 | the newest assistant message with a text |
| EngineRun.Unique | internal/engine/engine.go:1114-1122 | each invoked tool once |
| EngineRun.Synthesized | internal/engine/engine.go:1113-1158 | the summary is never empty |
| EngineAccounting.EveryRunIsAccounted | internal/engine/engine.go:240-532 | counting rounds where they are made, the attempts and retries of one round as one: between 1 and maxTurns primary rounds, TurnsUsed of them; bounded recoveries, each directly after the truncated answer it continues; at most one memory round, the last; bounded parse retries; a failed run ends with the round that failed; and on every exit without an error a result that is not empty if any tool was invoked |
| EngineAccounting.NoTurnsNoCalls | internal/engine/engine.go:515-531 | with no turns allowed the model is asked at most for the memory round |
| EngineAccounting.AnswersKeepCapturedText | internal/engine/engine.go:199-213 | the tool record only grows, and an answer begins with all captured text |
| EngineAccounting.CapturedTextIsDeliveredIff | internal/engine/engine.go:199-213 | over all rounds of a run, when the result begins with the captured text: always in an answer; when a report is passed through, if the report does; when the turns are used up, if there was one capture and no later text, or a last uncaptured text repeats it |
| EngineAccounting.ExhaustedReturnsLastText | internal/engine/engine.go:515-527 | a run that used up its turns returns the last text of the run |
| EngineAccounting.CapturedReportIsReturned | internal/engine/engine.go:507-525 | a run that captures a report, uses up its turns and returns it |
| EngineAccounting.CapturedReportIsLost | internal/engine/engine.go:507-525 | a run that captures a report, uses up its turns and returns another text |
| EngineAccounting.RecoveryExtends | internal/engine/engine.go:986-997 | a continued answer begins with the truncated one |
| EngineTranscript.RunIsTranscript | internal/engine/engine.go:240-532 | for every environment, the result against a reference run over the answers of model and tools: exit, turns and tools; an answer is the captured texts and the last answer, the non-empty ones joined by blank lines, with the warning; the summary stands in only if all are empty; a report is the passed-through one; after used-up turns the last text |
| EngineTranscript.PlainAnswer | internal/engine/engine.go:320-345 | if nothing was captured and no warning is due, the result is exactly what the model wrote last |
| EngineTranscript.PassthroughOfFirst | internal/engine/engine.go:457-466 | a passed-through report is that of the first successful marked result, and no earlier one has the marker |
| EngineTranscript.StrippedIs | internal/engine/engine.go:1236-1249 | the report is the text before and behind the marker comment without newlines at its beginning, or the whole text if the comment is not closed |
| EngineTranscript.SummaryListsTools | internal/engine/engine.go:1113-1134 | the summary lists every tool that was run on a line of its own, behind the number of rounds |
| EngineTranscript.SummaryKeepsOrder | internal/engine/engine.go:1114-1134 | tools are listed in the order of their first use |
| EngineTranscript.SummaryShowsOutputs | internal/engine/engine.go:1136-1157 | each of the last three texts of tools is shown in a block of its own, whole or as its first 500 characters with a note |
| EngineTranscript.ToolMessageSays | internal/engine/engine.go:468-500 | the model reads a tool's output, or its error behind a label, without the marker comment |
| Fleet.FleetManager.AddOverlord | internal/cerebrate/overlord_conn.go:70-98 | a new Overlord is registered in unknown state; a known one is refused without a change |
| Fleet.FleetManager.RemoveOverlord | internal/cerebrate/overlord_conn.go:101-115 | removes exactly the Overlord |
| Fleet.FleetManager.OverlordHeartbeat | internal/cerebrate/grpc_server.go:151-169 | updates state, worker counts and last contact of exactly a known Overlord, and leaves its worker list; an unknown one is refused |
| Fleet.FleetManager.CommitStatus | internal/cerebrate/overlord_conn.go:132-140 | a status pull sets the Overlord running and replaces its counts and worker list, without effect on the fleet if it was removed meanwhile |
| Fleet.FleetManager.CheckOverlordHeartbeatTimeouts | internal/cerebrate/overlord_conn.go:294-311 | exactly the running Overlords silent for longer than the timeout are set offline and reported, each once |
| Fleet.FleetManager.FindHealthyOverlord | internal/cerebrate/overlord_conn.go:314-323 | a running Overlord other than the excluded one, or none if there is none |
| Fleet.FleetManager.WorkersToRedirect | internal/cerebrate/overlord_conn.go:361-380 | the dead Overlord's worker list, or nobody if one of the two Overlords was removed since the choice |
| Fleet.CachedIsLastReported | internal/cerebrate/overlord_conn.go:132-140 | in every run, the worker list is the last pulled one and the worker count the last reported one since the registration |
| Fleet.NeverPulledIsNotRedirected | internal/cerebrate/grpc_server.go:151-162 | a run in which an Overlord with three reported workers is found dead and the redirect is about nobody |
| Fleet.NoSecondReportWithoutRecovery | internal/cerebrate/overlord_conn.go:300-308 | between two reports of one Overlord some step set it running again |
| Fleet.TargetIsNotInBatch | internal/cerebrate/overlord_conn.go:337-348 | a running redirect target is in the reported batch only if a step in between set it running again |
| Fleet.ReportedWasSilent | internal/cerebrate/overlord_conn.go:301-301 | every sign of life before a report is older than the timeout |
| FleetHistory.FleetIsHistory | internal/cerebrate/overlord_conn.go:70-140 | in every run, an Overlord is registered exactly if it was added and not removed since, and its state, last contact and counts are the ones last reported, or found by a check |
| FleetHistory.ReportedIff | internal/cerebrate/overlord_conn.go:294-311 | a check reports exactly the registered Overlords last known to be running and not heard of for longer than the timeout |
| FleetHistory.RedirectIsAboutPulled | internal/cerebrate/overlord_conn.go:361-380 | a redirect is about exactly the workers, in order, that the last pull of the dead Overlord listed, while both are registered |
| FleetRedirect.StepKeepsInv | internal/cerebrate/overlord_conn.go:387-444 | every step keeps mutual exclusion and exact counters |
| FleetRedirect.RedirectCountsEveryWorker | internal/cerebrate/overlord_conn.go:376-452 | under every interleaving redirected + failed is the number of workers on the list, each counted by its outcome |
| FleetRedirect.RedirectedAreTheAccepting | internal/cerebrate/overlord_conn.go:387-452 | under every interleaving the number returned as redirected is the number of workers whose call ended with their consent |
| FleetRedirect.RedirectMatchesReportIff | internal/cerebrate/overlord_conn.go:361-452 | after any history and interleaving: (0, 0) if one Overlord was removed; otherwise redirected + failed is the length of the last pulled list, and the reported worker count if and only if the two agree |
| FleetRedirect.ReportedWorkersAreLost | internal/cerebrate/overlord_conn.go:376-380 | in that run three workers were reported and (0, 0) is returned |
| FleetRedirect.SomeStepIsEnabled | internal/cerebrate/overlord_conn.go:387-446 | the redirect cannot get stuck |
| FleetRedirect.EveryRunIsShort | internal/cerebrate/overlord_conn.go:387-446 | no interleaving takes more than six steps for each worker and the return |
| FleetRedirect.MaximalRunReturns | internal/cerebrate/overlord_conn.go:387-452 | a run that cannot go on has returned |
| FaultReport.RenderMarkdown | internal/drone/report.go:326-339 | the loop renders the sections in order |
| FaultReport.ParseMarkdownReport | internal/drone/report.go:370-401 | metadata and sections as a function of the text |
| FaultReport.SplitMarkdownSections | internal/drone/report.go:404-434 | the loop splits at second-level headings |
| FaultReport.RenderedLines | internal/drone/report.go:326-339 | the lines of a rendered report |
| FaultReport.RoundTrip | internal/drone/report.go:326-434 | parsing a rendered report returns ID, severity, summary and sections, trimmed |
| FaultReport.ExactRoundTrip | internal/drone/report.go:326-434 | for trimmed reports the round trip is the identity |
| FaultReport.ReportBegins | internal/drone/report.go:326-332 | the first five lines of a rendered report |
| ReportReading.SectionsAre | internal/drone/report.go:404-434 | for any text: one section for each heading that is not blank, with the lines up to the next heading, trimmed; what stands before the first heading is in none |
| ReportReading.IdIs | internal/drone/report.go:376-383 | for any text: the ID is what the last line that names one says between the marker and the first bar |
| ReportReading.SeverityIs | internal/drone/report.go:379-386 | for any text: the severity is what the last such line with a bar says behind the first bar, without the label |
| ReportReading.SummaryIs | internal/drone/report.go:388-390 | for any text: the summary is what the last line that names one says |
| ConfigInsert.InsertModelEntry | internal/config/append_model.go:62-110 | the new text as a function of the old one and the entry |
| ConfigInsert.LocateModels | internal/config/append_model.go:66-72 | the first line that starts the block at top level |
| ConfigInsert.LocateInsertion | internal/config/append_model.go:82-102 | the end of the block before its trailing blank lines |
| ConfigInsert.InsertAt | internal/config/append_model.go:82-102 | the insertion point lies behind the header |
| ConfigInsert.InsertionIsLocal | internal/config/append_model.go:104-109 | all old lines stay, in order, around one run of new lines |
| ConfigInsert.EntryIsInserted | internal/config/append_model.go:62-110 | the new text has the entry's lines one after another among the old ones: behind the last non-blank line of the block that begins with the first header line and ends at the first line that is neither blank, indented nor a list item; or behind a new header at the end |
| ConfigInsert.InsertionIsInTheBlock | internal/config/append_model.go:82-102 | an existing block is extended at its end: behind its header and lines, before trailing blank lines and the next top-level line |
| ConfigInsert.RemovalRestores | internal/config/append_model.go:60-110 | removing the new lines restores the text exactly |
| ConfigInsert.GoesBeforeNextKeyIff | internal/config/append_model.go:36-38 | only blank lines stand between the new lines and the next top-level key if and only if no comment starts in the first column before it |
| ConfigInsert.CommentEndsBlock | internal/config/append_model.go:82-95 | the smallest block that goes on behind such a comment |
| ConfigInsert.InsertTwice | internal/config/append_model.go:60-110 | a second entry follows the first directly, whether or not the block existed, for every first entry whose lines belong to a block and do not end in a blank one |
| ConfigInsert.InsertionsKeepOrder | internal/config/append_model.go:60-110 | any number of entries appear in the order they were added |

## Left out

- LlmBudget.HourlyRate: does not cover callers that record a call without a check, as the recording adapter does in record mode; the bounds belong to the PreCall and PostCall protocol.
- LlmBudget.LLMBudget.CanCallLLM: the reason is a value with the numbers of the message, not the formatted text; wall clock and monotonic clock are one clock; limits are constants of the object.
- AuditProvenance.ValidIffFollows: is about lines whose hashes were taken from the log; a line with any other hash is accepted only if it is the keyed hash of its message.
- EngineAccounting.CapturedTextIsDeliveredIff: for runs that use up their turns it asks that the context is not compressed in a way that removes the last assistant text.
- AuditLog: key generation and loading, file permissions, and a missing file as opposed to an empty one, which both readers treat alike.
- MarkdownHtml.MarkdownToHTML: inline styles, the onclick text and the page template are not part of the tokens; the loop body is split into methods.
- TableFormat.FormatTableOpts: takes box characters, dots and blanks as one cell wide, as the code's own formula does; terminals that show ambiguous characters in two cells are not covered. The width library's handling of grapheme clusters is left out.
- PriorityQueue.LLMPriorityQueue.Enqueue: severity and request time of a call are constants; callers that change them while the call is queued are not covered. The mutex makes each method one step.
- TraceSteps.HasActualTokenAncestor: asks that the walk can end; on all other inputs the source's loop does not, as WalkEndsIffNoTrap shows.
- TraceSteps.TotalCountsTopmostSteps: asks that no token count is negative.
- TraceSteps: rendering, ranking and persistence of traces; fields of a step that play no part in IDs or totals.
- StreamAssembly.StreamFinalResponse: the waiting goroutine and its timers are inputs, one tick per round; the parser for tool calls in plain text is an arbitrary function.
- EngineRun.Run: prompts, compression, the reminder about repeated tool calls, usage, telemetry, saved sessions and the callbacks; what these do to the message list is an arbitrary function of the environment. Errors of single tools are not collected.
- Fleet: dialing, policies, cached status, join tokens, timeline events and the designation of backups at registration.
- Fleet.FleetManager.WorkersToRedirect: reads the worker list in the same step as it looks up the two Overlords; the source reads it after giving up the lock. Health scores are not part of a connection.
- FleetRedirect.RedirectCountsEveryWorker: a goroutine that panics is not modelled.
- FaultReport.RoundTrip: building sections from a diagnosis, timestamps, and the instance name that is taken from the file path.
- ConfigInsert.InsertModelEntry: YAML is not interpreted; an inline value after the block header is treated as the code treats it.
