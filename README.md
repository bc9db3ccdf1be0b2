# automation-tools scripts and error handling, modelled in Dafny

This project models the deterministic parts of the automation-tools repository: its
maintenance scripts and its small TypeScript domain and error-handling layer. Each core
source file has one Dafny module. The modules are listed here with the script's own
operations.

- `Migrate` (`migrate.dfy`) covers scripts/migrate.js and `runMigration`, the function
  that the migration unit test re-implements.
  - Select the `.sql` entries of the migrations directory and sort them.
  - Stop with exit code 1 when there are none.
  - Issue one `pnpm wrangler d1 execute <db> --file=<dir>/<file>` per file, in order.
  - Stop at the first command that throws.
  - The external command is an oracle `exec: string -> Outcome`: `Returned` when `execSync` returns normally, or `Threw(t)` with the thrown value `t`, an `ErrorObject(message)` or any `OtherValue`.
- `CoverageReport` (`coverage_report.dfy`) covers scripts/coverage-report.js.
  - The eight counters `extractCoverageInfo` accumulates over an Istanbul `coverage-final.json`, and the line sets built from statement ranges.
  - The history update `updateCoverageHistory`: replace today's entry in place or append it, keep 100, sort by date.
  - The five trend rows and `main`.
- `UpdateCoverage` (`update_coverage.dfy`) covers scripts/update-coverage.js. It appends one entry per run, keeps the last ten, and builds the page of `generateMarkdownSummary` newest first.
- `ActionsReport` (`actions_report.dfy`) covers scripts/github-actions-report.js.
  - The status and workflow colour tables.
  - The four summary counters.
  - The `data-status` attribute that the page's filter reads.
  - The failed-job banner.
  - The job and step lists with their placeholders.
  - The output file name and `main`.
- `WranglerHelper` (`wrangler_helper.dfy`) covers scripts/wrangler-helper.js.
  - The left-to-right argument parser.
  - The command line `runWranglerCommand` builds.
  - The environment mapping and validation of `main`, and which command each sub-command runs.
- `VerifySecrets` (`verify_secrets.dfy`) covers the required-secrets check at the start of scripts/verify-secrets.js.
- `FormatDate` (`format_date.dfy`) covers `formatDate` of src/lib/utils/index.ts.
- `AppErrors` (`app_error.dfy`) covers `AppError` and its four subclasses.
- `UserErrors` (`user_errors.dfy`) covers `UserNotFoundError`.
- `ErrorHandler` (`error_handler.dfy`) covers `handleApiError`.
- `UserService` (`user_service.dfy`) covers `getUserById` and `createUser` over an abstract repository.

Supporting modules:

- `Wrappers` has Option and Result.
- `Strings` has the JavaScript string operations used: `startsWith`, `endsWith`, `includes`, `indexOf`, first-occurrence `replace`, `split(c)[0]` and `split(c)[1]`, `padStart`, and `String(n)`.
- `Sorting` has `Array.prototype.sort`, both the default order, by code point (equal to UTF-16 code-unit order within the Basic Multilingual Plane), and a numeric-key comparator, stated as "sorted and a permutation".

## Behaviour worth noting

These are consequences of the code as written. The model keeps them as they are and
states them as lemmas.

- github-actions-report.js counts every run that is not completed as "in progress". Its
  `data-status` is `in_progress` only for the status `in_progress`, so a queued run is
  counted but hidden by the in-progress filter (`ActionsReport.QueuedRunCountedButHidden`).
- `run.jobs.some(...)` is evaluated before `generateJobsHTML`'s own `!jobs` guard. A run
  without a `jobs` array therefore aborts the whole report
  (`ActionsReport.GenerateHTMLReport`).
- `UserNotFoundError` is not an `AppError`, so `handleApiError` answers it with 500
  INTERNAL_SERVER_ERROR rather than 404 (`ErrorHandler.UserNotFoundIsInternal`).
- coverage-report.js counts function counters without comparing them with `fnMap`. A
  file with more counters than functions reports more than 100% function coverage
  (`CoverageReport.OverCountedFunctions`).
- `updateCoverageHistory` trims to the last 100 entries by position and only then sorts
  by date (`CoverageReport.UpdateCoverageHistory`).
- update-coverage.js never merges entries of the same day (`UpdateCoverage.SameDayAppendsTwice`).

## Model

| member | source | states |
|---|---|---|
| Migrate.SqlNames | tests/unit/infrastructure/database/migrations/migration.test.ts:14-16 | a name is selected iff it is a string entry of the listing ending in ".sql" |
| Migrate.SqlFiles | scripts/migrate.js:17-20 | the selection is sorted in code-point order (equal to code-unit order within the BMP), is a permutation of the `.sql` names, and holds exactly them |
| Migrate.Names | scripts/migrate.js:17 | the script's listing holds one string entry per file name, in order |
| Migrate.CommandMentions | scripts/migrate.js:33-40 | a file's command names both the database and the file, and ends with the file name |
| Migrate.RunMigration | tests/unit/infrastructure/database/migrations/migration.test.ts:12-58 | the loop with its early returns gives exactly the run of `Migration`: the commands, the log (a failure line followed by the error's message when an Error was thrown) and the exit code |
| Migrate.MigrateScript | scripts/migrate.js:14-49 | the script is the same run on its listing with DB_NAME "automationa-tools-db"; `execSync` throws only Error objects, so every failure line is followed by the error's message |
| Migrate.FailureLines | tests/unit/infrastructure/database/migrations/migration.test.ts:44-53 | a failure logs the failure line, then the error's message exactly when the thrown value is an Error |
| Migrate.ThenThen | scripts/migrate.js:32-47 | joining what one turn of the loop did in front of the rest is associative |
| Migrate.ExecuteFromUnfold | scripts/migrate.js:32-47 | one turn: the first file's command, then the failure line, the error's message when an Error was thrown, and exit 1; or its success line and the rest of the loop |
| Migrate.ExecuteFromCommands | scripts/migrate.js:32-47 | the commands issued are those of a prefix of the files, in order, and every one before the last succeeded |
| Migrate.ExecuteFromExitCode | scripts/migrate.js:42-49 | the exit code is 0 or 1, and 0 iff every file's command was issued and returned normally |
| Migrate.ExecuteFromFailure | scripts/migrate.js:42-46 | exit 1 means the last command issued threw, and the log ends with that file's failure line followed by the error's message when the thrown value is an Error; no later file is attempted |
| Migrate.ExecuteFromCompletion | scripts/migrate.js:49 | the completion message is printed iff the exit code is 0 |
| Migrate.ExecuteFromExit | scripts/migrate.js:32-49 | the three loop facts above together, with the log ending in the failure line and error text on exit 1 |
| Migrate.NoMissingMessage | scripts/migrate.js:32-49 | the loop never prints the no-migration-files message |
| Migrate.MigrationFacts | scripts/migrate.js:17-49 | an empty selection issues nothing, logs only the missing-files error and exits 1, and that message appears iff the selection is empty; otherwise the commands follow a prefix of the sorted files, all but the last succeeded, exit 0 iff all ran and succeeded, and on exit 1 the log ends with the last file's failure line and the error's message when it is an Error |
| Migrate.ScriptSelection | scripts/migrate.js:17-20 | the script runs the `.sql` names of the directory and only them, in sorted order |
| Migrate.EmptyDirectoryTest | tests/unit/infrastructure/database/migrations/migration.test.ts:66-87 | an empty directory issues no command, logs the missing-files error and exits 1 |
| Migrate.TwoFilesInOrder | tests/unit/infrastructure/database/migrations/migration.test.ts:14-17 | two `.sql` names already in order are selected as listed |
| Migrate.TwoFilesRun | tests/unit/infrastructure/database/migrations/migration.test.ts:32-57 | the run over two `.sql` names in order is the start message for two files followed by the loop over both, in that order |
| Migrate.TwoFilesSucceed | tests/unit/infrastructure/database/migrations/migration.test.ts:89-120 | two succeeding files give two commands in file order, exit 0, and the completion message last |
| Migrate.SecondOfTwoFails | tests/unit/infrastructure/database/migrations/migration.test.ts:122-156 | if the second of two files throws, both commands were issued, the log is the start line, the first file's running and success lines, the second's running line, its failure line and the error's message when it is an Error; exit is 1 and no completion message appears |
| Migrate.TestNames | tests/unit/infrastructure/database/migrations/migration.test.ts:89-156 | the test's file names end in ".sql" and are in sorted order |
| Migrate.LexLeAtThird | tests/unit/infrastructure/database/migrations/migration.test.ts:17 | names that agree on two characters are ordered by the third |
| Migrate.TwoFilesSucceedTest | tests/unit/infrastructure/database/migrations/migration.test.ts:89-120 | the test's scenario issues exactly two commands, naming '001_initial.sql' then '002_add_tasks.sql', and ends with the completion message |
| Migrate.SecondFileFailsTest | tests/unit/infrastructure/database/migrations/migration.test.ts:122-156 | the test's scenario issues two commands, ends the log with the failure of '002_error.sql' and the text "Migration failed", exits 1 and prints no completion message |
| Sorting.SortLex | scripts/migrate.js:20 | `.sort()` yields a permutation of its input in code-point order (equal to code-unit order within the BMP) |
| Sorting.SortLexOfSorted | scripts/migrate.js:20 | sorting a list already in order leaves it unchanged |
| Sorting.LexLeTotal | scripts/migrate.js:20 | the default sort order relates any two names |
| Sorting.LexLeTransitive | scripts/migrate.js:20 | the default sort order is transitive |
| Sorting.SortByKey | scripts/coverage-report.js:206 | the comparator sort yields a permutation ordered by the date key |
| CoverageReport.Lookup | scripts/coverage-report.js:111 | a found value is the key's entry; no value means the key is absent |
| CoverageReport.CountPositive | scripts/coverage-report.js:89 | the positive counters are at most the counters |
| CoverageReport.BranchCount | scripts/coverage-report.js:99-104 | covered branches never exceed total branches |
| CoverageReport.IntervalMembers | scripts/coverage-report.js:112-114 | a statement's lines are exactly `start.line <= i <= end.line` |
| CoverageReport.StatementLinesIncluded | scripts/coverage-report.js:109-115 | every statement contributes all its lines to the line set |
| CoverageReport.CoveredLinesWithinLines | scripts/coverage-report.js:107-129 | the covered lines are a subset of the total lines |
| CoverageReport.PositiveKeysCount | scripts/coverage-report.js:89 | with distinct keys, the covered statement count is the number of keys with a positive counter |
| CoverageReport.PositiveKeysStated | scripts/coverage-report.js:120-127 | when the line estimate succeeds, every positive counter has its statement in `statementMap` |
| CoverageReport.FileTotalsValid | scripts/coverage-report.js:84-129 | in a file's contribution, covered branches and lines never exceed their totals, and the same holds for statements and functions for a well-shaped record |
| CoverageReport.CoverageTotalsValid | scripts/coverage-report.js:83-130 | the same bounds hold for the totals over all files |
| CoverageReport.OverCountedFunctions | scripts/coverage-report.js:93-96 | without that shape, a file can report two covered functions of one |
| CoverageReport.CoveredFailurePersists | scripts/coverage-report.js:120-127 | a statement lookup that throws aborts the whole line estimate with that error |
| CoverageReport.TotalsFailurePersists | scripts/coverage-report.js:83-130 | a file whose counting throws aborts the whole extraction with that error |
| CoverageReport.CoverageTotalsStep | scripts/coverage-report.js:83-130 | the totals of one more file are the previous totals plus that file's contribution, or the first error |
| CoverageReport.StatementLines | scripts/coverage-report.js:109-116 | the `Set.add` loops build exactly the set of lines of all statements |
| CoverageReport.CoveredLines | scripts/coverage-report.js:119-128 | the loops build exactly the lines of the statements with a positive counter, or throw for a positive counter without a statement |
| CoverageReport.FileContribution | scripts/coverage-report.js:84-129 | the `forEach` body adds exactly one file's statement, function, branch and line counts, or throws its error |
| CoverageReport.ExtractCoverageInfo | scripts/coverage-report.js:72-130 | the eight counters are the totals over all files, covered never exceeds total for branches and lines, and for all four categories when the records are well shaped |
| CoverageReport.Percentage | scripts/coverage-report.js:133-136 | a zero total gives 0 instead of a division, and a valid count gives a percentage within 0..100 |
| CoverageReport.TotalPercentage | scripts/coverage-report.js:137 | the mean of the four percentages is within 0..100 for valid totals |
| CoverageReport.FindToday | scripts/coverage-report.js:188-190 | the index found is the first entry whose date before 'T' is today; none means no entry is of today |
| CoverageReport.UpsertFacts | scripts/coverage-report.js:187-198 | with an entry of today, only the first such entry is replaced and the length is unchanged; without one, the new entry is appended |
| CoverageReport.UpsertToday | scripts/coverage-report.js:188-198 | the in-place replacement or `push` gives exactly the upserted history |
| CoverageReport.UpdateCoverageHistory | scripts/coverage-report.js:175-217 | an unreadable history file makes it throw; otherwise the result holds min(n, 100) entries that are a permutation of the last ones of the upserted history, sorted by date |
| CoverageReport.TrendRows | scripts/coverage-report.js:229-251 | one row for each of the last min(n, 5) entries, in order |
| CoverageReport.ReportTotals | scripts/coverage-report.js:291-294 | after the extraction, the run fails exactly when the history file is unreadable; otherwise the history is today's entry upserted into the stored list, trimmed to its last 100 and sorted by date, and the trend is the rows of its last min(n, 5) entries in order |
| CoverageReport.Report | scripts/coverage-report.js:283-309 | a missing or unparsable coverage file, a counting error or an unreadable history file ends in failure, and these are the only failures; otherwise the totals are the extraction's, the history is today's entry upserted into the stored list, trimmed to its last 100 and sorted by date, and the trend is the rows of its last min(n, 5) entries in order |
| UpdateCoverage.NewEntry | scripts/update-coverage.js:30-43 | the entry carries today's date and, for each of lines, statements, functions and branches, the summary's `pct`, or 0 when that metric or the whole total is absent |
| UpdateCoverage.LastN | scripts/update-coverage.js:46-48 | `slice(-10)` keeps the last min(n, 10) entries |
| UpdateCoverage.Reverse | scripts/update-coverage.js:93 | the copy holds the same entries in reverse order |
| UpdateCoverage.GenerateMarkdownSummary | scripts/update-coverage.js:66-101 | the page built by the `forEach` has the latest entry and the rows of the reversed copy, or the no-data sections |
| UpdateCoverage.UpdateCoverageScript | scripts/update-coverage.js:10-63 | the script writes the updated history and its page, fails without writing when the summary is malformed or the history has no array, and reports a missing summary |
| UpdateCoverage.UpdateAppendsOne | scripts/update-coverage.js:37-48 | exactly one entry for today is appended after the most recent stored entries, in stored order, at most ten in all |
| UpdateCoverage.UnreadableHistoryStartsEmpty | scripts/update-coverage.js:14-21 | an unreadable history file starts from an empty history |
| UpdateCoverage.NothingWrittenWithoutSummary | scripts/update-coverage.js:58-60 | without a readable summary nothing is written |
| UpdateCoverage.UpdateBelowBound | scripts/update-coverage.js:37-48 | below ten entries nothing is dropped |
| UpdateCoverage.SameDayAppendsTwice | scripts/update-coverage.js:37-43 | two runs on one day append two entries with the same date |
| UpdateCoverage.PageFacts | scripts/update-coverage.js:66-98 | an empty history shows both no-data texts; otherwise the latest is the last entry and the rows run newest first |
| UpdateCoverage.ReverseReverse | scripts/update-coverage.js:93-95 | reversing the copy back gives the stored order, which is left unchanged |
| ActionsReport.StatusColor | scripts/github-actions-report.js:44-45 | any status other than 'completed' is grey whatever the conclusion |
| ActionsReport.StatusColorCases | scripts/github-actions-report.js:44-59 | green, red, orange and blue are each given exactly for completed success, failure, cancelled and skipped, and grey for everything else |
| ActionsReport.WorkflowColor | scripts/github-actions-report.js:64-67 | a mapped workflow name gets its colour from the table |
| ActionsReport.WorkflowColorDefault | scripts/github-actions-report.js:28-39 | no mapped colour is the default, so the default is given exactly to unmapped names |
| ActionsReport.GenerateStepsHTML | scripts/github-actions-report.js:116-137 | no steps or an empty list gives the placeholder; otherwise one item per step in order, with its colour and caption |
| ActionsReport.JobCardOf | scripts/github-actions-report.js:79-106 | a job card shows the job's name, colour and caption, and its step list exactly when the steps are non-empty, one item per step in order |
| ActionsReport.GenerateJobsHTML | scripts/github-actions-report.js:72-111 | no jobs or an empty list gives the placeholder; otherwise one card per job in order, each showing its job's name, colour, caption and steps |
| ActionsReport.HasFailedJobs | scripts/github-actions-report.js:615 | true iff some job's conclusion is 'failure' |
| ActionsReport.DataStatus | scripts/github-actions-report.js:618-625 | the attribute is never empty |
| ActionsReport.CountIf | scripts/github-actions-report.js:495-508 | a counter never exceeds the number of runs |
| ActionsReport.CountRuns | scripts/github-actions-report.js:495-508 | the loop's four counters are the numbers of succeeded, failed, cancelled and not-completed runs |
| ActionsReport.CountsPartition | scripts/github-actions-report.js:495-508 | each run is counted at most once: the counters sum to the runs minus the completed runs with another conclusion |
| ActionsReport.CountsBound | scripts/github-actions-report.js:495-508 | the counters sum to at most the total, with equality iff no run is left uncounted |
| ActionsReport.CountZeroIff | scripts/github-actions-report.js:495-508 | a counter is zero iff no run satisfies its test |
| ActionsReport.FiltersMatchCompletedCounters | scripts/github-actions-report.js:618-625 | for GitHub statuses and conclusions, the success, failure and cancelled filters show exactly the runs those counters count, and the in-progress filter only status 'in_progress' |
| ActionsReport.QueuedRunCountedButHidden | scripts/github-actions-report.js:495-508 | a queued run is counted in progress but its card is hidden by the in-progress filter |
| ActionsReport.WorkflowCardOf | scripts/github-actions-report.js:612-663 | a run's card carries its data-status, colours, badge, failed-job banner iff a job failed, the jobs placeholder iff it has no jobs, and otherwise one job card per job in order |
| ActionsReport.GenerateHTMLReport | scripts/github-actions-report.js:495-677 | the report fails iff some run has no jobs array; otherwise the total and the four counters are those above, and there is one card per run in order, or the no-runs card |
| ActionsReport.OutputFilenameFacts | scripts/github-actions-report.js:728 | only the first ".json" becomes ".html", and a name without ".json" is kept |
| ActionsReport.RunReport | scripts/github-actions-report.js:695-740 | without an argument it stops with usage, a missing input stops as not found and an unparsable one as unreadable; with a readable input the report is written iff every run has a jobs array, under the derived file name, with the run total, the four counters and one card per run as `generateHTMLReport` renders them |
| WranglerHelper.ParseArgs | scripts/wrangler-helper.js:12-43 | the `forEach` over the arguments gives the left-to-right fold of the parsing step from the defaults |
| WranglerHelper.FlagPrefix | scripts/wrangler-helper.js:21-31 | an argument `name=v` has the prefix `name=`, and its flag value is `v` up to any second '=' |
| WranglerHelper.ModeFlagStep | scripts/wrangler-helper.js:21-23 | `--mode=v` sets only the command |
| WranglerHelper.EnvFlagArg | scripts/wrangler-helper.js:21-26 | an `--env=` argument passes the `--env=` test and not the `--mode=` test, and its value is the text up to a further '=' |
| WranglerHelper.ConfigFlagArg | scripts/wrangler-helper.js:21-31 | a `--config=` argument passes only the `--config=` test, and its value is the text up to a further '=' |
| WranglerHelper.EnvFlagStep | scripts/wrangler-helper.js:25-27 | `--env=v` sets only the environment |
| WranglerHelper.ConfigFlagStep | scripts/wrangler-helper.js:29-31 | `--config=v` sets only the config file |
| WranglerHelper.FlagsOverride | scripts/wrangler-helper.js:21-31 | a flag sets its field to the text between the first and second '=', overriding earlier values and leaving the other fields alone |
| WranglerHelper.FlagsStartWithDashes | scripts/wrangler-helper.js:21-31 | every flag starts with "--", the prefix positional arguments lack |
| WranglerHelper.PositionalAndIgnored | scripts/wrangler-helper.js:33-39 | a positional argument fills an empty command, otherwise sets the environment only while it is 'preview' and no config is given, else is dropped; other `--` arguments change nothing |
| WranglerHelper.ConfigWins | scripts/wrangler-helper.js:118-120 | with a config the line is `pnpm exec wrangler <cmd> --config=<config>`, whatever the environment |
| WranglerHelper.CommandWithoutConfig | scripts/wrangler-helper.js:122-133 | a Pages deploy gets the environment's branch and is refused exactly for 'local'; other commands get `--env=`, with 'local' passed as 'development' |
| WranglerHelper.DeployIsPagesDeploy | scripts/wrangler-helper.js:208-213 | the deploy command is a Pages deploy |
| WranglerHelper.DbCommandLetters | scripts/wrangler-helper.js:63-67 | the database command texts hold no 'p' where a Pages deploy could start |
| WranglerHelper.NoPagesDeployWithoutP | scripts/wrangler-helper.js:122 | text without 'p' cannot contain "pages deploy" |
| WranglerHelper.LocalDbNotPagesDeploy | scripts/wrangler-helper.js:226-227 | the local database query is not a Pages deploy |
| WranglerHelper.ProductionDbNotPagesDeploy | scripts/wrangler-helper.js:229-230 | the production database query is not a Pages deploy |
| WranglerHelper.DbNotPagesDeploy | scripts/wrangler-helper.js:224-231 | no valid environment's database query is a Pages deploy |
| WranglerHelper.EnvironmentValidation | scripts/wrangler-helper.js:182-192 | without a config, exit 1 iff the mapped environment is outside preview, production and local, with 'development' read as 'preview'; a config skips the check and loads .env.local |
| WranglerHelper.ConfigRefused | scripts/wrangler-helper.js:206-222 | deploy and tail with a config are refused |
| WranglerHelper.ConfigDbAndDev | scripts/wrangler-helper.js:196-231 | with a config, db queries the local database with `--local` as 'development' and dev passes the config on |
| WranglerHelper.CommandsWithoutConfig | scripts/wrangler-helper.js:196-231 | without a config, deploy goes to the environment's branch or is refused for local (exit 1), db queries that environment's database, and tail passes `--env=` |
| WranglerHelper.ExitCodeCases | scripts/wrangler-helper.js:173-255 | exit 1 iff the environment is invalid, a command is refused, or the executed command fails; other sub-commands exit 0 |
| VerifySecrets.CheckSecrets | scripts/verify-secrets.js:27-42 | the `forEach` prints exactly the report lines for the names, and its flag is set iff some name is missing |
| VerifySecrets.VerifySecretsScript | scripts/verify-secrets.js:16-47 | the script's verdict is the report over the five required names and whether any is missing |
| VerifySecrets.AnyMissingStep | scripts/verify-secrets.js:30-34 | the flag after one more name is the flag before or that name missing |
| VerifySecrets.CheckedAppend | scripts/verify-secrets.js:30-42 | the verdicts of joined line lists are joined |
| VerifySecrets.CheckLinesVerdict | scripts/verify-secrets.js:31-41 | each name gets exactly one verdict line, for that name |
| VerifySecrets.EveryNameChecked | scripts/verify-secrets.js:30-42 | the verdict lines name every checked name once, in list order, even after a missing one |
| VerifySecrets.ReportLines | scripts/verify-secrets.js:31-40 | a name is reported missing iff it is listed and unset or empty, present iff listed and set, and warned about iff it is a set CLOUDFLARE_ACCOUNT_ID that is not 32 lower-case hex digits |
| VerifySecrets.ExitIffMissing | scripts/verify-secrets.js:44-47 | the secrets check at lines 44-47 exits 1 iff some required name is missing, and only after all five got their verdict |
| VerifySecrets.MalformedAccountIdOnlyWarns | scripts/verify-secrets.js:37-40 | a malformed account id only warns: it is still reported present and does not fail the check |
| FormatDate.TwoDigits | src/lib/utils/index.ts:19-20 | the padded month or day is all digits |
| FormatDate.TwoDigitsFacts | src/lib/utils/index.ts:19-20 | a number below 100 becomes two digits reading back as it, with a leading '0' iff below 10 |
| FormatDate.LeadingZero | src/lib/utils/index.ts:19-20 | a leading '0' does not change the value read back |
| FormatDate.NumberHasNoTokenLetters | src/lib/utils/index.ts:18-22 | a rendered number holds none of the token letters, so a later replacement cannot hit it |
| FormatDate.YearStep | src/lib/utils/index.ts:22 | replacing 'YYYY' in the default format puts the year in front |
| FormatDate.MonthStep | src/lib/utils/index.ts:22 | then 'MM' is replaced by the month |
| FormatDate.DayStep | src/lib/utils/index.ts:22 | then 'DD' is replaced by the day |
| FormatDate.DefaultLayout | src/lib/utils/index.ts:17-23 | the default format yields `<year>-<MM>-<DD>`, the month shifted from 0-based, both padded, the year not |
| FormatDate.NoTokensUnchanged | src/lib/utils/index.ts:22 | a format without any of the tokens is returned unchanged |
| FormatDate.SecondYearTokenKept | src/lib/utils/index.ts:22 | only the first 'YYYY' is replaced |
| FormatDate.JanuaryFirst | src/lib/utils/index.ts:17-23 | January 1st formats as `<year>-01-01` |
| Strings.ReplaceFirstAt | src/lib/utils/index.ts:22 | `replace` substitutes the first occurrence and keeps the rest |
| Strings.ReplaceFirstAbsent | src/lib/utils/index.ts:22 | `replace` of an absent pattern keeps the text |
| Strings.NatToStringRoundTrip | src/lib/utils/index.ts:18-20 | a rendered number reads back as itself |
| Strings.PadStart | src/lib/utils/index.ts:19-20 | `padStart` gives the requested length, ends with the text, and pads with the fill |
| Strings.TakeUntil | scripts/update-coverage.js:11 | `split('T')[0]` is the prefix before the first 'T' |
| AppErrors.Construct | src/lib/errors/app-error.ts:5-11 | the constructor keeps code, message and details unchanged, and the name is the class's |
| AppErrors.ClassNameInjective | src/lib/errors/app-error.ts:7 | different classes have different names |
| AppErrors.SubclassesForward | src/lib/errors/app-error.ts:14-36 | every subclass forwards code, message and details unchanged, and errors built from the same arguments differ exactly by class |
| AppErrors.ConstructedByFields | src/lib/errors/app-error.ts:1-12 | a constructed error is determined by its name, code, message and details |
| UserErrors.UserNotFoundError | src/domain/user/errors/index.ts:5 | the name is always 'UserNotFoundError' |
| UserErrors.MessageSelection | src/domain/user/errors/index.ts:3 | a non-empty id gives the id-naming message, from which the id can be read back; no id or the empty id gives the default message |
| UserErrors.MessageInjective | src/domain/user/errors/index.ts:3 | different non-empty ids give different messages |
| ErrorHandler.HandleApiError | src/lib/api/error-handler.ts:10-67 | every thrown value gets one response whose status is 400, 401, 404 or 500 |
| ErrorHandler.StatusByClass | src/lib/api/error-handler.ts:17-66 | 400 exactly for ValidationError, 401 for AuthError, 404 for NotFoundError, 500 for ServiceError and anything unrecognised |
| ErrorHandler.BodyByClass | src/lib/api/error-handler.ts:17-66 | recognised errors pass on their code and message; details appear exactly for ValidationError and ServiceError; anything else gets the fixed internal body |
| ErrorHandler.ConstructedStatuses | src/lib/api/error-handler.ts:17-66 | each subclass constructor maps to its status, and the base class to the internal error |
| ErrorHandler.UserNotFoundIsInternal | src/lib/api/error-handler.ts:57-66 | a UserNotFoundError reaches the client as a 500 internal error |
| UserService.GetUserByIdFacts | src/domain/user/services/index.ts:6-12 | one lookup with the given id; resolves to exactly the stored user, else rejects with a UserNotFoundError naming the id |
| UserService.CreateUserFacts | src/domain/user/services/index.ts:14-23 | the e-mail is looked up first; a taken address rejects and `create` is never called; otherwise `create` gets the unchanged input and its result is returned |
| UserService.CreateUserIgnoresIds | src/domain/user/services/index.ts:14-23 | `createUser` depends only on whether the address is taken |

## Left out

- I/O is not modelled as effects: reading and writing files, `existsSync`, the console and `process.exit`. Files are input values, and what is printed or written is an outcome value. The exit code is a field.
- External commands are the oracle `exec`. It decides each command line's success once, so the model does not capture a command that fails on one call and succeeds on another with the same text. The migration test's mock is given as such an oracle.
- The clock and the locale are parameters. `now` is the ISO time stamp, and `time` stands for `new Date(d)` in the history comparator. The HTML report's `toLocaleString` texts are left out.
- HTML and Markdown text are left out: the styles, the headings, the SVG pie chart and the client-side script beyond the filter test. Pages and cards are values holding what the templates interpolate.
- Floating point is not modelled. Percentages are exact reals, and `toFixed(2)` rounding is left out.
- CoverageReport.ExtractCoverageInfo: statement and function bounds are stated only for records with distinct statement keys and no more function counters than functions. The script checks neither, and `OverCountedFunctions` shows what happens otherwise.
- CoverageReport.UpdateCoverageHistory: `Array.prototype.sort` is pinned down only as "a permutation sorted by the key". The order of entries with equal dates that the engine's stable sort keeps is not stated. Stored dates are taken to be dates `new Date` parses (the entries this script writes always are): `time` gives every date an integer, so a stored date giving NaN, with which the comparator returns NaN and the result need not be sorted, is not modelled.
- CoverageReport.Report: the first `runCommand('pnpm test:coverage')` and its console output are left out. The coverage file is given as parsed or absent after it; `None` stands both for a file still missing and for one `JSON.parse` rejects.
- CoverageReport.UpdateCoverageHistory: a history file that throws on reading is one `UnreadableHistory` value. A stored list holds only entries with a `date`; a list whose dateless entries all come after the first entry of today would not throw in the script and is not modelled. The history and summary writes that could fail are not modelled either.
- VerifySecrets.ExitIffMissing: covers only the exit of the secrets check. The script also exits 1 when the API probes that follow throw (lines 136-138), and those are not modelled.
- The Cloudflare API probes that follow the secrets check in scripts/verify-secrets.js (lines 49-140) are left out. They are network calls.
- In scripts/wrangler-helper.js, `loadEnvFile` only reads a file; the model keeps the name of the file loaded.
- `printLLMConfig` only prints; the model keeps that it was shown.
- The R2 bucket maps and the usage text of scripts/wrangler-helper.js are left out.
- ErrorHandler.HandleApiError: the `NODE_ENV`-dependent console logging is left out, since it does not affect the response.
- `cn` of src/lib/utils/index.ts is a wrapper around clsx and tailwind-merge and is left out.
- The user repository's implementation (Drizzle queries) and `updateUser`/`deleteUser` are not part of this model. The repository is two lookup maps and a `create` oracle.
- `createdAt`/`updatedAt` of a new user are as `create` returns them.
- Sorting.SortLex: elements are compared by code point, while JavaScript compares UTF-16 code units. The two orders differ only when comparing a character outside the Basic Multilingual Plane (a surrogate pair) with one in U+E000..U+FFFF, and that difference is not modelled.
- ActionsReport.WorkflowColor: the `workflowColorMap` lookup is modelled as an own-key lookup. In JavaScript a name such as `constructor` or `toString` finds an inherited `Object.prototype` member, which is truthy, so `ActionsReport.WorkflowColorDefault` does not hold for such names. These names are not modelled.
- WranglerHelper.HelperMain: the `envFiles`, `branchMap` and `dbNames` lookups are own-key lookups. `Object.prototype` member names are not modelled: `--env=toString` passes the check at line 185 in JavaScript and then throws in `loadEnvFile`, which `WranglerHelper.EnvironmentValidation` does not describe.
