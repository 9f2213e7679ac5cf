# zest-pw reporting layer, modelled in Dafny

This project models the data-shaping core of a Playwright reporting layer, zest-pw, together
with its console report printer, `scripts/print-report.js`. The layer works like this:

- The transformer turns the runner's end-of-run records into plain report records.
- The enricher hides the runner's internal steps and appends a placeholder for each planned
  step that did not run.
- The formatter and the end-of-run hook print a per-test, per-step listing. The formatter
  can also save the screenshots it lists.
- `addFileNamesToResults` names the screenshots of each step.
- The Zephyr reader strips title fields from the saved report.
- The Zephyr buffer collects one result entry per finished test, keyed by test case. Later
  it sends each key's entries to that test case's execution.

The printer prints the runner's JSON report. Its planned-step scanner reads a test file line
by line and collects, for each `test('…',` call, the titles of the `test.step('…',` calls
that follow it. The scanner's two regular expressions are hand-written matchers here. They
are proved sound and complete against a predicate that spells out what each expression
accepts.

How the source's constructs are represented:

- A field JavaScript may leave `undefined` is an `Option`.
- A call that may throw returns a `Result`. Its `Throws` case carries the text of the
  TypeError.
- Console output is the sequence of lines written.
- A loop in the source is a `method` with a `while` loop, proved equal to a specification
  function.
- Mutable module state is a `class`: the planned-steps cache and the Zephyr buffer.
- The file system, the network, the clock, base64 encoding and the unseen
  `parsePlannedStepsFromFile` are parameters.

Modules, one per source file:

| module | source |
|---|---|
| `PrintReport`, `StepScanner` | scripts/print-report.js |
| `Transformer` | zest-pw/utils/test-result-transformer.ts |
| `Enrich` | zest-pw/utils/enrich-test-results.ts |
| `Formatter` | zest-pw/utils/test-result-formatter.ts |
| `Hooks` | zest-pw/hooks/hooks.ts |
| `AddFileNames` | zest-pw/utils/add-file-names.ts |
| `ResultsFromJson` | zest-pw/zephyr-api/get-results-from-json.ts |
| `Zephyr` | zest-pw/zephyr-api/zephyr.api.ts |

Shared modules:

- `Report`: the report records.
- `Text`: string helpers.
- `Seqs`: filter, slice and flatten.
- `Wrappers`: `Option`, `Result`, and `map` with a callback that may throw.

Where the code differs from a plain reading of its purpose, the model follows the code:

- Without a `tests` array, `testHooks.onEnd` prints only the closing banner, not both banners.
- The formatter's fallback to a `screenshots/` directory is never taken. The output directory
  it computes is never empty.
- When no execution matches, `updateTestResult` still sends the steps, to
  `testexecutions/null/teststeps`.

## Model

| member | source | states |
|---|---|---|
| PrintReport.ColorInjective | scripts/print-report.js:23-25 | a coloured text is the text framed by its colour code and the reset code, so two colourings with one code are equal only for equal texts |
| PrintReport.Decompose | scripts/print-report.js:29-33 | the clock of `ms` has m < 60, sec < 60, millis < 1000, h*3600 + m*60 + sec = floor(ms/1000), millis = ms % 1000, and it stands for exactly `ms` milliseconds |
| PrintReport.DecomposeClockValue | scripts/print-report.js:29-33 | the decomposition is unique: every valid clock is the decomposition of the milliseconds it stands for |
| PrintReport.DurationParts | scripts/print-report.js:34-37 | at least one part is printed, every part starts with a digit, and the last part ends in `s` exactly when sec > 0 or h = m = 0 |
| PrintReport.DurationPartsExact | scripts/print-report.js:34-37 | `<h>h` is printed first exactly when h > 0, `<m>m` next exactly when m > 0, and the seconds part `<sec>.<mmm>s` last exactly when sec > 0 or h = m = 0; nothing else is printed |
| PrintReport.FormatDuration | scripts/print-report.js:27-38 | the text is `-` exactly for a missing duration; otherwise it is non-empty and starts with a digit |
| PrintReport.FormatDurationText | scripts/print-report.js:27-38 | a present duration prints as the parts of its decomposition joined by single spaces |
| PrintReport.FormatDurationSecondsShown | scripts/print-report.js:35-38 | the printed duration ends in `s` exactly when sec > 0 or h = m = 0 |
| PrintReport.FormatDurationUnderOneSecond | scripts/print-report.js:37 | a duration under one second prints as `0.` plus the milliseconds zero-padded to three digits, plus `s` |
| PrintReport.FormatDurationZero | scripts/print-report.js:28-38 | 0 ms prints as `0.000s` |
| PrintReport.FormatDurationOneHour | scripts/print-report.js:35-38 | 3,600,000 ms prints as `1h`: no minutes part and no seconds part |
| PrintReport.FormatDurationDropsRemainder | scripts/print-report.js:35-38 | 60500 ms prints as `1m`: the milliseconds are dropped together with the zero seconds |
| PrintReport.PadRight | scripts/print-report.js:41-45 | the result starts with the input, has length max(len, \|s\|), holds only spaces after the input, and equals the input when that is already long enough |
| PrintReport.PadRightIdempotent | scripts/print-report.js:41-45 | padding a padded string again changes nothing |
| PrintReport.StatusBadge | scripts/print-report.js:54-69 | a known status never gets the blue badge; any other non-empty status is printed itself in blue; a missing or empty status prints `unknown` in blue |
| PrintReport.StatusBadgeInjective | scripts/print-report.js:54-69 | distinct non-empty statuses get distinct badges |
| PrintReport.StepStatusBadge | scripts/print-report.js:71-84 | the badge is the gray dot exactly when the status is not passed, failed, skipped or timedOut |
| PrintReport.FinalAttempt | scripts/print-report.js:173-175 | the reported attempt is the last result, or an empty record when there are no results |
| PrintReport.TestStatus | scripts/print-report.js:176 | the status is the final attempt's status when non-empty, else the expected status when non-empty, else `unknown`; it is never empty |
| PrintReport.RetriedTestReportsLastAttempt | scripts/print-report.js:174-176 | a retried test is reported with the status of its last attempt, whatever the earlier attempts were |
| PrintReport.InferStepStatus | scripts/print-report.js:193-195 | a non-empty explicit status wins; otherwise the step is `failed` exactly when it has an error and `passed` exactly when it has none |
| PrintReport.PrintTestEntry | scripts/print-report.js:170-212 | one header line, then one line per executed step in order, then one placeholder per planned step from position \|executed\| on, so the entry has 1 + max(\|executed\|, \|planned\|) lines |
| PrintReport.PrintEntryLines | scripts/print-report.js:180-212 | below the header, executed step i is printed on line 1 + i and planned step k on line 1 + k when it did not run, so the entry has 1 + max(\|executed\|, \|planned\|) lines |
| PrintReport.PrintSteps | scripts/print-report.js:183-203 | the step loop prints one line per executed step, in order |
| PrintReport.StepLinesAt | scripts/print-report.js:184-202 | the i-th line of the step loop's output is the line of the i-th step |
| PrintReport.PrintPlaceholders | scripts/print-report.js:205-212 | nothing is printed unless more steps were planned than executed; then planned step k is printed at position k - \|executed\| |
| StepScanner.SkipSpaces | scripts/print-report.js:117 | `\s*` stops at the first non-space, and everything it skipped is whitespace |
| StepScanner.SkipTitle | scripts/print-report.js:117 | `[^"'`]*` stops at the first quote, and everything it skipped is quote-free |
| StepScanner.MatchCallAt | scripts/print-report.js:117-118 | soundness: a span the matcher returns has exactly the shape the regular expression accepts (word boundary, keyword, `(`, one quote, a non-empty quote-free title, the same quote, `,`) |
| StepScanner.MatchCallAtComplete | scripts/print-report.js:117-118 | completeness: wherever the expression matches, the matcher returns that very match |
| StepScanner.FirstCallFrom | scripts/print-report.js:120 | `line.match` finds the leftmost position where the pattern matches, and no earlier position matches |
| StepScanner.CallTitle | scripts/print-report.js:122 | a captured title is non-empty and holds no quote character |
| StepScanner.DottedCallIsNotTest | scripts/print-report.js:117 | a line whose every `test` is followed by a dot (`test.only(`, `test.step(`) is not a test line |
| StepScanner.Classify | scripts/print-report.js:120-128 | a line matching the test pattern is a test line with that title and is never also a step line; a step line matches the step pattern and not the test pattern |
| StepScanner.ClassifyAll | scripts/print-report.js:119 | every line is classified, in order |
| StepScanner.ScanLine | scripts/print-report.js:120-129 | one loop step keeps the current title a key of the map |
| StepScanner.Scan | scripts/print-report.js:116-130 | the state after all lines keeps the current title a key of the map |
| StepScanner.ScanMeaning | scripts/print-report.js:116-130 | the current title is the last test title; the keys are exactly the test titles that occur; each key maps to the titles of the step lines whose nearest preceding test line has that title, in line order, with repeated titles sharing one list |
| StepScanner.StepsForUnknownTitle | scripts/print-report.js:127-128 | no step is credited to a title that never occurs on a test line |
| StepScanner.NoTestLineNoPlan | scripts/print-report.js:127 | step lines met before any test line are dropped: without a test line the map stays empty |
| StepScanner.TestOnlyStepsDropped | tests/test-first.spec.ts:3-26 | assume this file's lines are classified this way: `test.only(` as no test line (see `DottedCallIsNotTest`), each `test.step(` line as a step line, and line 14 as the test line `TC-004: Check the get started link`. Then the two steps of the `test.only(` test are dropped, and the second test gets its three steps |
| StepScanner.ScanPlannedSteps | scripts/print-report.js:116-130 | the loop over the lines builds the map that `Scan` describes, with the keys and lists of `ScanMeaning` |
| StepScanner.SplitLines | scripts/print-report.js:115 | splitting gives at least one line, and no line holds a newline |
| StepScanner.SplitLinesJoin | scripts/print-report.js:115 | without carriage returns, joining the lines with newlines gives back the text |
| StepScanner.SplitLinesJoinCrlf | scripts/print-report.js:115 | lines without newlines joined with `\r\n` split back into exactly those lines: each `\r\n` ends a line and its `\r` is dropped, whatever other carriage returns the lines hold |
| StepScanner.PlannedStepsCache.constructor | scripts/print-report.js:99 | the cache starts empty |
| StepScanner.PlannedStepsCache.ParsePlannedStepsByTestTitle | scripts/print-report.js:110-136 | a cached path is answered from the cache, which stays unchanged; any other path is read and scanned (an unreadable file gives the empty map), and its map is stored under the path |
| StepScanner.ParseTwice | scripts/print-report.js:111 | a second call with the same path returns the first answer, even when the file changed in between |
| Transformer.TransformTestResults | zest-pw/utils/test-result-transformer.ts:7-15 | the run fields are copied; there is one test per executed pair, in order, each the transform of its pair |
| Transformer.TransformTestCase | zest-pw/utils/test-result-transformer.ts:20-29 | title, status and duration are copied; location and error are transformed; missing steps become []; step i comes from step i of the result |
| Transformer.TransformLocation | zest-pw/utils/test-result-transformer.ts:34-44 | an absent location stays absent; otherwise only file, line and column are kept |
| Transformer.TransformError | zest-pw/utils/test-result-transformer.ts:49-58 | an absent error stays absent; otherwise only message and stack are kept |
| Transformer.TransformStep | zest-pw/utils/test-result-transformer.ts:63-71 | title and duration are copied; the status is the derived one; missing attachments become []; attachment i comes from attachment i |
| Transformer.DetermineStepStatus | zest-pw/utils/test-result-transformer.ts:76-81 | an error always gives `failed`, even when a status is set; otherwise the status when non-empty, else `passed` |
| Transformer.TransformAttachment | zest-pw/utils/test-result-transformer.ts:86-94 | name, type and path are copied; body and bodySize are both present exactly when a payload is; bodySize is the payload's byte count |
| Transformer.StepStatusPriorities | zest-pw/utils/test-result-transformer.ts:76-81 | the transformer and the console printer (scripts/print-report.js:193-195) agree on a step's status exactly when it has no error, no status, or the status `failed` |
| Transformer.TransformedStatusesPresent | zest-pw/utils/test-result-transformer.ts:13 | every step of a transformed report keeps its title and carries a non-empty status |
| Enrich.FilterUserSteps | zest-pw/utils/enrich-test-results.ts:36-54 | the result is a subsequence of the steps, holds only steps passing the denylist, and is as long as the number of steps that pass it |
| Enrich.FilterUserStepsKeepsUserSteps | zest-pw/utils/enrich-test-results.ts:36-54 | every step that passes the denylist is kept |
| Enrich.FilterUserStepsIdempotent | zest-pw/utils/enrich-test-results.ts:36-54 | filtering twice is filtering once |
| Enrich.UntitledStepIsKept | zest-pw/utils/enrich-test-results.ts:38 | a step without a title counts as titled '' and is kept |
| Enrich.PrefixesAreCaseSensitive | zest-pw/utils/enrich-test-results.ts:46-51 | the prefix checks are case-sensitive: `hook@x` is hidden, `Hook@x` is kept |
| Enrich.FragmentsAreCaseInsensitive | zest-pw/utils/enrich-test-results.ts:39-45 | the fragment checks look at the lower-cased title: `Cleanup` is hidden |
| Enrich.CombineSteps | zest-pw/utils/enrich-test-results.ts:74-86 | the length is max(\|executed\|, \|planned\|); the executed steps come first, unchanged; position k after them holds the placeholder of planned step k |
| Enrich.CombineStepsNothingLeft | zest-pw/utils/enrich-test-results.ts:74-86 | with at least as many executed as planned steps, nothing is added |
| Enrich.CombineStepsFollowsPlan | zest-pw/utils/enrich-test-results.ts:74-86 | when the executed steps are the first planned ones, the merged titles are exactly the planned titles |
| Enrich.SkippedStep | zest-pw/utils/enrich-test-results.ts:80-84 | a placeholder is exactly {title, status `skipped`, attachments []}, with no duration or error |
| Report.PlannedStepsOf | zest-pw/utils/enrich-test-results.ts:59-69 | a test without `location.file` has no planned steps; otherwise the planner is asked with the resolved path and the title |
| Enrich.EnrichTest | zest-pw/utils/enrich-test-results.ts:22-31 | only `steps` changes, and it becomes the merge of the user steps with the planned titles |
| Enrich.EnrichTestSteps | zest-pw/utils/enrich-test-results.ts:22-31 | the enriched steps are the user steps, in order, followed by a skipped placeholder for each planned title beyond them |
| Enrich.NoSourceFileNoPlaceholders | zest-pw/utils/enrich-test-results.ts:59-62 | a test without a source file gets no placeholder; its steps are its filtered steps |
| Enrich.EnrichTestIdempotent | zest-pw/utils/enrich-test-results.ts:22-31 | enriching twice is enriching once, provided no planned title is hidden by the denylist |
| Enrich.EnrichTestResults | zest-pw/utils/enrich-test-results.ts:8-17 | a report without `tests` is returned unchanged; otherwise the run fields are kept and test i is the enrichment of test i |
| Enrich.EnrichTestResultsKeepsFields | zest-pw/utils/enrich-test-results.ts:27-30 | every field of a test except `steps` is copied unchanged |
| Formatter.InProgressStep | zest-pw/utils/test-result-formatter.ts:99-105 | a placeholder is exactly {title, `in progress`, duration 0, attachments [], no error} |
| Formatter.ListedStepsShape | zest-pw/utils/test-result-formatter.ts:25-27 | the listed steps are the user steps, unchanged and first, then one in-progress placeholder per planned title beyond them; the executed count never exceeds the total |
| Formatter.Collapse | zest-pw/utils/test-result-formatter.ts:31 | each run of characters outside [A-Za-z0-9] becomes one dash: the result has letters, digits and dashes only, never two dashes in a row, starts with a dash exactly when the title starts with such a run, and keeps the letters and digits in order |
| Formatter.CollapseKeepsAlnum | zest-pw/utils/test-result-formatter.ts:31 | a title of letters and digits only is left unchanged |
| Formatter.CollapseRunToDash | zest-pw/utils/test-result-formatter.ts:31 | a non-empty run of characters outside [A-Za-z0-9] becomes exactly one `-` |
| Formatter.CollapseAppend | zest-pw/utils/test-result-formatter.ts:31 | when a letter or digit sits on either side of the seam, collapsing a concatenation is collapsing each part, so every run is replaced on its own |
| Formatter.CollapseInterleave | zest-pw/utils/test-result-formatter.ts:31 | words of letters and digits separated by runs of other characters collapse to the words joined by `-` |
| Formatter.TrimDashes | zest-pw/utils/test-result-formatter.ts:31 | the text is the removed leading dash (if there was one), then the result, then the removed trailing dash (if there was one); letters and digits are kept |
| Formatter.TrimDashesExact | zest-pw/utils/test-result-formatter.ts:31 | one optional dash on each side of a text that neither starts nor ends with a dash is removed, and nothing else |
| Formatter.SanitiseTitle | zest-pw/utils/test-result-formatter.ts:31 | the sanitised title has letters, digits and single inner dashes only, never starts or ends with a dash, and keeps the title's letters and digits in order |
| Formatter.SanitiseTitleWords | zest-pw/utils/test-result-formatter.ts:31 | a title made of words separated by runs of other characters, with optional runs at either end, becomes its words joined by single dashes: `TC-001: Check the title` (words `TC`, `001`, `Check`, `the`, `title`) gives `TC-001-Check-the-title` |
| Text.ReplaceFirst | zest-pw/utils/test-result-formatter.ts:30 | without an occurrence the text is unchanged; otherwise its first occurrence, and only that, is replaced |
| Formatter.TestFileName | zest-pw/utils/test-result-formatter.ts:30 | the file name is non-empty and slash-free. A non-empty base name without `.spec.ts` is used as it is. A base name whose first `.spec.ts` is at its end loses that suffix. An empty base name or `.spec.ts` alone gives `test` |
| Formatter.TestFileNameOfSpec | zest-pw/utils/test-result-formatter.ts:30 | `<dir>/<stem>.spec.ts` gives `<stem>` when the stem is non-empty and has no `.` or `/`: `tests/TC-001.spec.ts` gives `TC-001` |
| Formatter.OutputDir | zest-pw/utils/test-result-formatter.ts:32 | the directory is `test-results/`, then the file name, `-`, the sanitised title and `-chromium`, and no slash follows `test-results/` |
| Formatter.AttachmentLines | zest-pw/utils/test-result-formatter.ts:143-173 | an attachment prints its head line. A non-empty body adds the preview line `Base64 (<size> bytes): <first 50 characters>...`. A saved PNG adds the save line as the third line |
| Formatter.PreviewShowsAtMostFifty | zest-pw/utils/test-result-formatter.ts:146-148 | the preview line shows a prefix of the body, between the size and `...`. That prefix is the whole body when the body is at most 50 characters long, and exactly 50 characters otherwise |
| Text.Take | zest-pw/utils/test-result-formatter.ts:147 | the preview is a prefix of the body and at most 50 characters long |
| Formatter.SavedScreenshot | zest-pw/utils/test-result-formatter.ts:146-170 | a save is attempted exactly for a PNG with a non-empty body when SAVE_SCREENSHOTS is `true`; it goes to the test's output directory |
| Formatter.NoStepsIff | zest-pw/utils/test-result-formatter.ts:113-120 | `Кроки: немає` is printed exactly when the combined step list is empty |
| Formatter.TestBlock | zest-pw/utils/test-result-formatter.ts:22-35 | a test's block starts with its info lines, and it throws exactly when the test lacks a location or a title |
| Formatter.ThrownIsFinal | zest-pw/utils/test-result-formatter.ts:22-35 | once a test has thrown, no later test prints anything |
| Formatter.TestsOutputThrowsIff | zest-pw/utils/test-result-formatter.ts:22-35 | the listing throws exactly when some test lacks a location or a title |
| Formatter.TestsOutputBlocks | zest-pw/utils/test-result-formatter.ts:22-35 | without such a test, the listing is every test's block, in order |
| Formatter.DisabledPrintsNothing | zest-pw/utils/test-result-formatter.ts:12-18 | nothing is printed unless PRINT_TEST_RESULTS is exactly `true` and `tests` is an array |
| Formatter.ReportBanners | zest-pw/utils/test-result-formatter.ts:20-37 | an enabled listing opens with the details banner, and it ends with the closing banner exactly when it did not throw |
| Formatter.PrintStepAttachments | zest-pw/utils/test-result-formatter.ts:137-174 | the attachment loop prints nothing without attachments, else `actualResult:` and each attachment's lines in order |
| Formatter.PrintStep | zest-pw/utils/test-result-formatter.ts:122-131 | a step prints its number and title, its attachments, its status and its error message if any |
| Formatter.PrintTestSteps | zest-pw/utils/test-result-formatter.ts:112-132 | the step loop prints the no-steps line, or the counts followed by each step's block numbered from 1 |
| Formatter.PrintTest | zest-pw/utils/test-result-formatter.ts:22-35 | one iteration prints the test's info lines, then its steps, or throws after the info lines |
| Formatter.PrintTestResults | zest-pw/utils/test-result-formatter.ts:10-38 | the loop prints the banner and the tests' blocks in order, stops at the first test that throws, and otherwise ends with the closing banner |
| Hooks.OnEnd | zest-pw/hooks/hooks.ts:20-119 | the hook prints the details banner and each test's info and step lines when there is a `tests` array, and always the closing banner |
| Hooks.OnEndBanners | zest-pw/hooks/hooks.ts:22-118 | the output always ends with the closing banner and starts with the details banner exactly when there is a `tests` array; without one it is the closing banner alone |
| Hooks.HookWithoutSourceFile | zest-pw/hooks/hooks.ts:61-67 | a test without a source file is listed with its user steps only |
| Hooks.HookMatchesFormatter | zest-pw/hooks/hooks.ts:20-119 | when the formatter is enabled, does not save and no test lacks a location or a title, the hook prints exactly what the formatter prints |
| Report.StepImageName | zest-pw/utils/add-file-names.ts:21 | the file name starts with `step_`, ends with the suffix and `.png`, and has no slash when the suffix has none |
| Report.StepImageNameParse | zest-pw/utils/add-file-names.ts:21 | the name reads back: the text between `step_` and the next `_` is the step number's decimal form and reads back as the number, and the text between that `_` and `<suffix>.png` is the sanitised title |
| Report.StepImageNameInjective | zest-pw/utils/add-file-names.ts:21 | two names with the same suffix are equal only when the step numbers and the sanitised titles are equal |
| Text.UnderscoreSanitise | zest-pw/utils/add-file-names.ts:18 | each character outside [A-Za-z0-9] becomes `_` and letters are lower-cased, position by position |
| Text.UnderscoreSanitiseAlphabet | zest-pw/utils/add-file-names.ts:18 | the sanitised title keeps its length and uses only [a-z0-9_] |
| AddFileNames.ItemFileName | zest-pw/utils/add-file-names.ts:17-32 | a PNG is named after its step number and `stepTitle`, with `_ERROR` for an `ERROR` name; any other item keeps its name; it throws exactly for a PNG of a step without `stepTitle` |
| AddFileNames.RenameItem | zest-pw/utils/add-file-names.ts:23-35 | a renamed item is exactly {fileName, image = contentType, body} |
| AddFileNames.ErrorSuffixIff | zest-pw/utils/add-file-names.ts:19-21 | a PNG's name ends in `_ERROR.png` exactly when the attachment's name contains `ERROR`, case-sensitively |
| AddFileNames.NoTestsUnchanged | zest-pw/utils/add-file-names.ts:5-7 | a report without `tests` is returned unchanged |
| AddFileNames.RenameStepThrowsIff | zest-pw/utils/add-file-names.ts:15-18 | a step throws exactly when it has a PNG item and no `stepTitle`, with the TypeError of `undefined.replace` |
| AddFileNames.AddFileNamesThrowsIff | zest-pw/utils/add-file-names.ts:11-18 | the renaming throws exactly when some step of some test has a PNG item and no `stepTitle` |
| AddFileNames.RenamedTests | zest-pw/utils/add-file-names.ts:9-13 | the run and the number and order of tests are kept; each test changes only its steps, which keep their count (missing becomes []) |
| AddFileNames.RenamedSteps | zest-pw/utils/add-file-names.ts:13-15 | each step keeps its place and every field but `actualResult`, which keeps its count (missing becomes []) |
| AddFileNames.RenamedItems | zest-pw/utils/add-file-names.ts:15-35 | item k of step j is exactly {fileName, image, body}: a PNG is named `step_<j+1>_…`, any other item keeps its name |
| Wrappers.MapIndexed | zest-pw/utils/add-file-names.ts:13-37 | `map` with a throwing callback succeeds exactly when every call succeeds, keeping length and positions; otherwise it throws the first failing call's error |
| ResultsFromJson.StripStep | zest-pw/zephyr-api/get-results-from-json.ts:39 | a stripped step has no `stepTitle` and every other field unchanged |
| ResultsFromJson.MissingFileGivesNull | zest-pw/zephyr-api/get-results-from-json.ts:29-32 | a missing results file gives null |
| ResultsFromJson.GetResultsThrowsIff | zest-pw/zephyr-api/get-results-from-json.ts:37-39 | reading throws exactly when the report has no `tests` array or a test has no `steps` array |
| ResultsFromJson.StrippedReport | zest-pw/zephyr-api/get-results-from-json.ts:35-41 | the run, the tests and their steps keep their number and order and every field, except that no test has `testTitle` and no step has `stepTitle` |
| ResultsFromJson.StripIdempotent | zest-pw/zephyr-api/get-results-from-json.ts:35-41 | stripping a stripped report changes nothing |
| Zephyr.TestCaseKey | zest-pw/zephyr-api/zephyr.api.ts:98 | the key is the longest colon-free prefix of the title: the whole title without a colon, otherwise the part before the first colon |
| Zephyr.TestCaseKeyAt | zest-pw/zephyr-api/zephyr.api.ts:98 | the key is the title up to the position of its first colon |
| Zephyr.TestCaseKeyExample | zest-pw/zephyr-api/zephyr.api.ts:98 | `TC-001: Check the title` is filed under `TC-001` |
| Zephyr.StatusName | zest-pw/zephyr-api/zephyr.api.ts:99 | `Pass` exactly for `passed`; every other status, skipped and timedOut included, is `Fail` |
| Zephyr.ImageTag | zest-pw/zephyr-api/zephyr.api.ts:111-113 | the image tag is added exactly when the screenshot gave a non-empty text; it is then the `<br><br><img src="data:image/png;base64,` opening, the screenshot's base64 text and the closing `" alt="Screenshot" …>`, and the text between them is exactly the screenshot |
| Zephyr.StepDataOf | zest-pw/zephyr-api/zephyr.api.ts:109-118 | the entry's status is the test's Pass/Fail; its text starts with the title and outcome, and what follows them is exactly the screenshot's image tag, so nothing follows exactly when there is no screenshot |
| Zephyr.FailureWithoutMessage | zest-pw/zephyr-api/zephyr.api.ts:109 | a failed test without an error message is reported as `Unknown error` |
| Zephyr.PushedEntries | zest-pw/zephyr-api/zephyr.api.ts:121-125 | an existing key gets the entry appended last, with earlier entries unchanged; a new key gets a list of one; every other key is untouched |
| Zephyr.FindExecution | zest-pw/zephyr-api/zephyr.api.ts:44-46 | find-first: the key of the first execution whose test case id matches, and none exactly when no execution matches |
| Zephyr.GetTestExecutionKey | zest-pw/zephyr-api/zephyr.api.ts:33-60 | a failed request gives null; otherwise the find-first result |
| Zephyr.UnmatchedKeyGoesToNull | zest-pw/zephyr-api/zephyr.api.ts:48-54 | a test case without a matching execution has its steps sent to `testexecutions/null/teststeps` |
| Zephyr.ZephyrBuffer.constructor | zest-pw/zephyr-api/zephyr.api.ts:2 | the buffer starts empty |
| Zephyr.ZephyrBuffer.CreateBuffer | zest-pw/zephyr-api/zephyr.api.ts:96-126 | without a second title-path element it throws and leaves the buffer unchanged; otherwise it appends the test's entry under its key and records a new key last in the key order, keeping every key's list non-empty and each key listed once |
| Zephyr.ZephyrBuffer.UpdateTestResult | zest-pw/zephyr-api/zephyr.api.ts:128-138 | nothing is sent unless UPDATE_TEST_RESULTS is exactly `true`; otherwise one request per key, once each, in insertion order, carrying that key's entries |

## Left out

- File, browser and network I/O are left out: `readFileSync`, `existsSync`, `saveTestResultsToJson`, `page.screenshot`, `fetch`, request headers and response parsing. File contents, screenshots and the execution list are parameters.
- The 3-second pause in `updateTestSteps` is left out. So is its rethrow of a failed request, which would end `updateTestResult` early.
- `getTestCycle` is a parameter: it maps a key to a test case id, and to none after a failed request.
- Base64 encoding is left out. Transformer.TransformAttachment takes the encoder as a parameter. Elsewhere the body is an opaque string.
- `parsePlannedStepsFromFile` (zest-pw/utils/parse-test-steps) is not part of this model. It is the `Planner` parameter.
- Report.ResolveTestPath: concatenates the working directory and the file, without the normalisation `path.join` does.
- `getTestFileAbsolutePath` in scripts/print-report.js is not modelled. The cache takes the path as given.
- Text.Lower: lower-cases ASCII letters only, where `toLowerCase` maps all of Unicode. Some non-ASCII characters lower-case into ASCII: U+212A KELVIN SIGN gives `k`, and U+0130 gives `i` followed by U+0307. So the step filter (zest-pw/utils/enrich-test-results.ts:39-41) hides a title such as `Before hoo\u212As`, which the model keeps.
- Text.UnderscoreSanitise: works on Unicode scalar values, where JavaScript strings are UTF-16 code units. Without the `u` flag, `/[^a-z0-9]/gi` (zest-pw/utils/add-file-names.ts:18, zest-pw/utils/test-result-formatter.ts:153) replaces each half of a surrogate pair. So `a😀b` becomes `a__b` there and `a_b` in the model. Formatter.Collapse gives the same text either way: a surrogate pair is a run of two code units in the source and one character in the model, and both become one dash.
- Formatter.TestBlock: its throw condition, Formatter.Crashes, covers a missing `location` or `title` only. A present `location` with an undefined `file` also throws at `test.location.file.split` (zest-pw/utils/test-result-formatter.ts:30); `Location.file` is always a string here, so that case is not modelled.
- Zephyr.ZephyrBuffer.UpdateTestResult: visits keys in insertion order, but JavaScript's `for...in` visits integer-like keys first, in numeric order.
- Zephyr.FindExecution: does not model an execution with no `testCase` object. There `execution.testCase.id` throws inside `find`, and the surrounding `catch` makes `getTestExecutionKey` return null (zest-pw/zephyr-api/zephyr.api.ts:44-46, 56-58). The model's missing id stands for `testCase.id` being absent. It matches exactly when the looked-up id is missing too, as `undefined === undefined` does; `getTestCycle` gives undefined after a failed request (zest-pw/zephyr-api/zephyr.api.ts:28-30), so the steps then go to the first execution without a `testCase.id`.
- StepScanner.TestOnlyStepsDropped: starts from a classification of the file's lines, as the table row says. It does not derive that classification from the line text. Deriving it means evaluating the call pattern on each concrete 60-character line, which is beyond the solver's limits here. The general members `Classify`, `DottedCallIsNotTest` and `MatchCallAtComplete` state what that classification depends on.
- Zephyr.ZephyrBuffer.CreateBuffer: does not model keys that name `Object.prototype` members. For example, `constructor` is truthy on an empty object, so `push` would throw there.
- In scripts/print-report.js, only one test entry of `printTests` is modelled: its header, its step lines and its placeholders. The loops over suites and specs, the stdout block and the error block are left out. The error block's Expected/Received extraction works by regular expressions on free text.
- `printHeader`, `printStats` (its call is commented out and it formats dates by locale), `safeReadJson` and `main` are console and process glue, and are left out.
- Durations are natural numbers of milliseconds. The runner's fractional durations are not modelled.
- A field holding a value of the wrong JSON type is not modelled. The exceptions modelled are the ones the code raises on a missing field:
  - `test.location.file` and `test.title.replace` in the formatter;
  - `step.stepTitle.replace` in `addFileNamesToResults`;
  - `tests.map` and `steps.map` in `getResultsFromJson`;
  - `titlePath[1].split` in `createBuffer`.
- Standard output and standard error are one line sequence. The formatter's screenshot error goes to standard error.
- The formatter's and the hook's own copies of the step filter and the step merge are modelled once, in `Enrich`. Each caller passes its own placeholder.
- `testHooks.onStepEnd` does nothing and is not modelled.
- The fixtures, the reporter glue, the configuration and zest-pw/zephyr-api/update-execution-result.ts are left out. They drive foreign code or modules that are not part of this model.
