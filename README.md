# failed-log-to-slack-action, modelled in Dafny

This project models the data-transforming core of the GitHub Action
`failed-log-to-slack-action`: the part that turns a failed workflow run into a
Slack message. It has two halves.

- The GitHub side (`src/github.ts`):
  - `formatLog` keeps the last 30 lines of a step log, each without its timestamp token;
  - `isDefaultErrorMessage` and the annotation filter drop the runner's own "Process completed with exit code" annotation;
  - the failed-job filter keeps jobs that are `completed` and `failure`;
  - `getJobLog` selects the failed steps, builds each step's staged log path, applies the path guard, reads and formats the file;
  - `getSummary` chooses each failed job's evidence: annotations, else step logs for a `workflow_run` event, else nothing.
- The Slack side (`src/slack.ts`):
  - `generateBlocks` builds the two header blocks;
  - `generateAnnotationBlocks` and `generateJobLogBlock` emit three blocks per annotation or step log;
  - `generateBlocksInAttachment` emits a job heading and its evidence blocks per summary entry;
  - `generateParams` wraps it all in one red attachment.

Everything is pure: datatypes, functions and lemmas, no classes.

The modules:
- `Wrappers`: `Option` and `Result`.
- `Text`: JavaScript's `split`, `join` and `startsWith` on strings, and integer rendering in template literals.
- `Seqs`: `filter` and `flatMap`.
- `Paths`: `path.join` followed by `path.normalize` on an absolute path, plus the segment-boundary guard.
- `Results`: an array `map` whose callback may throw, and the async `reduce` of `getSummary`.
- `GitHub`, `Slack`: the two source files.
- `GitHubExamples`: the repository's test fixtures, restated as lemmas.
- `Pipeline`: lemmas about a summary rendered as the attachment.

External inputs are parameters of the model:
- the annotation listing is a function from job id to annotations;
- the process's working directory is a string;
- the extracted log archive is a map from normalised path to file contents.

JavaScript details the model keeps:
- A template literal renders a `null` field as `null` and an optional chain that stops (`actor?.login`) as `undefined`.
- A present but empty annotation array is truthy, so it wins over step logs.
- A missing job log counts as `[]`.
- Where the source's `map` throws, the first failing step's error is reported.
- The async `reduce` of `getSummary` settles each job's own evidence before it awaits the accumulator. The promise `getSummary` returns therefore rejects with the last failing job's error.

Details of the code the model keeps:
- The header's first line is ``Failed: {login}`s `{event}` on `{branch}` ``, with a backtick after the login (`src/slack.ts:20`).
- The annotation location is bold: `*{path}: L{start}~L{end}*` (`src/slack.ts:52`).
- An entry may carry neither annotations nor logs: a job without surviving annotations when the event is not `workflow_run` (`src/github.ts:177`).
- A `workflow_run` job without failed steps carries an empty log list (`src/github.ts:119`).
- `getSummary` summarises whatever jobs it is given; only the caller's `getFailedJobs` restricts them to failed ones (`GitHub.SummaryHasOnlyFailedJobs`).
- The log path is guarded by a raw string-prefix test (`src/github.ts:106`), which `GitHub.ReadStepLog` models as written. See "## Findings".

## Model

| member | source | states |
|---|---|---|
| Text.Split | src/github.ts:85 | `split` yields at least one piece and no piece contains the separator |
| Text.JoinSplit | src/github.ts:86 | joining the pieces of a split with the same separator restores the string |
| Text.SplitJoin | src/github.ts:88 | splitting a join of separator-free pieces gives the pieces back |
| Text.StartsWith | src/github.ts:125 | `startsWith` holds exactly when the prefix is a prefix of the string |
| Text.IntToString | src/slack.ts:52 | an integer renders as decimal digits that read back as its value, without leading zeros; a negative one as `-` followed by the digits of its magnitude |
| Text.NatToStringValue | src/slack.ts:17 | the digits rendered for a number read back as that number |
| GitHub.StripTimestampDropsFirstToken | src/github.ts:86 | a line loses everything up to and including its first space, later spaces kept; a line without a space becomes empty |
| GitHub.StrippedLines | src/github.ts:85-86 | one stripped line per `\n`-separated piece, in order |
| GitHub.LastNElements | src/github.ts:87 | `slice(-n)` keeps the last `min(k, n)` elements, in order |
| GitHub.FormatLog | src/github.ts:83-89 | an empty log formats to the empty string |
| GitHub.FormatLogLines | src/github.ts:83-89 | the formatted log has `min(k, 30)` lines, the last ones of the input in order, each with its timestamp stripped |
| GitHub.IsDefaultErrorMessage | src/github.ts:122-128 | true exactly when the path is `.github` and a message is present that starts with `Process completed with exit code` |
| GitHub.ExcludeDefaultErrorAnnotations | src/github.ts:141-143 | keeps exactly the annotations that are not the default one |
| GitHub.ExcludeDefaultErrorAnnotationsCount | src/github.ts:141-143 | each annotation survives as often as it occurs, the default one never |
| GitHub.ExcludeDefaultErrorAnnotationsConcat | src/github.ts:141-143 | the exclusion keeps source order (distributes over concatenation) |
| GitHub.FailedJobs | src/github.ts:58-59 | keeps exactly the jobs that are `completed` with conclusion `failure` |
| GitHub.FailedJobsIsOneFilter | src/github.ts:58-59 | the two filters in a row equal one filter on "completed and failed" |
| GitHub.FailedJobsCount | src/github.ts:58-61 | a failed job is kept as often as it is listed; any other job never |
| GitHub.FailedJobsConcat | src/github.ts:58-59 | selection keeps listing order (distributes over concatenation) |
| GitHub.SanitizeJobName | src/github.ts:94 | the sanitised job name contains no `/` |
| GitHub.SanitizeJobNameKeepsOthers | src/github.ts:94 | sanitising removes every `/` and keeps every other character, as often as it occurs; a name without `/` is unchanged |
| GitHub.SanitizeJobNameConcat | src/github.ts:94 | sanitising keeps the order of the remaining characters: it distributes over concatenation |
| GitHub.FailedStepsOf | src/github.ts:92 | only steps of the job, each with conclusion `failure`, and every such step; a job without a step list has none |
| GitHub.FailedStepsOfCount | src/github.ts:92 | a failed step is selected as often as the job lists it; any other step never |
| GitHub.FailedStepsOfConcat | src/github.ts:92 | selection keeps step order (distributes over a split step list) |
| GitHub.StepLogPathPieces | src/github.ts:96-104 | the log directory and the step's log path are the normalised joins of the working directory, `logs`, the sanitised job name and `{number}_{name}.txt` |
| GitHub.ReadStepLog | src/github.ts:96-115 | `Invalid path` when the raw prefix test fails, a missing-file error when the path is not staged, else the step's name with its formatted file |
| GitHub.GetJobLog | src/github.ts:91-120 | one entry per failed step, in step order, with its name and formatted log; fails exactly when some failed step's path fails the raw prefix test or is unstaged; `[]` without steps |
| GitHub.ReadStepLogGuarded | src/github.ts:106-115 | with the corrected guard: `Invalid path` outside the log directory; inside it, exactly what `ReadStepLog` returns |
| GitHub.GetJobLogGuarded | src/github.ts:91-120 | with the corrected guard: succeeds exactly when every failed step's path lies inside the log directory and is staged, and then returns what `GetJobLog` returns |
| GitHub.GetJobLogFirstError | src/github.ts:93-108 | a failing `getJobLog` reports the first failed step whose log cannot be read |
| GitHub.OrdinaryStepLogPathIsInside | src/github.ts:96-108 | with a proper job name and a step name without `/`, the log path lies inside the log directory and passes the guard |
| GitHub.RawPrefixGuard | src/github.ts:106 | the raw guard holds exactly when the log directory string is a prefix of the path |
| GitHub.RawPrefixGuardAdmitsSibling | src/github.ts:96-115 | for every working directory, a job named `..` and a step named `/../logs{suffix}/{leaf}` reach the sibling directory `logs{suffix}`: the raw guard passes, so `ReadStepLog` reads that file (or reports it missing), while the path is not inside the log directory and `ReadStepLogGuarded` rejects it with the message `Invalid path` |
| GitHub.JobEvidence | src/github.ts:160-177 | annotations when any survive; else, for `workflow_run`, the step logs or their error; else a bare entry |
| GitHub.GetSummary | src/github.ts:151-183 | one entry per job, in job order, each the job's evidence; fails exactly when some job's evidence fails |
| GitHub.GetSummaryLastError | src/github.ts:158-180 | a failing summary reports the last job whose evidence fails |
| GitHub.GetSummaryConcat | src/github.ts:158-180 | jobs are summarised independently: the summary of a concatenation is the concatenation, the later jobs' error first |
| GitHub.SummaryHasOnlyFailedJobs | src/github.ts:58-59 | summarising the selected jobs never yields an entry for a job that did not fail |
| Paths.Resolve | src/github.ts:97-104 | normalisation yields proper segments only (no empty, `.`, `..` or `/`) |
| Paths.Normalize | src/github.ts:97-104 | a normalised path is rooted |
| Paths.NormalizeIdempotent | src/github.ts:97-104 | normalising a normalised path changes nothing |
| Paths.RenderPieces | src/github.ts:97-104 | a rendered segment list normalises back to the same segments |
| Paths.InsideBase | src/github.ts:106 | the corrected guard implies the raw prefix test |
| Paths.InsideBaseIsDescendant | src/github.ts:106 | on normalised paths the corrected guard holds exactly when the base's segments begin the path's |
| Results.MapAll | src/github.ts:93-116 | all callback results in order, or an error exactly when some callback throws |
| Results.MapAllFirstError | src/github.ts:93-116 | the error is the first failing element's |
| Results.MapAllAgree | src/github.ts:93-116 | callbacks that agree on every element give the same outcome |
| Results.ReduceAppend | src/github.ts:158-180 | all results in order, or an error exactly when some callback throws |
| Results.ReduceAppendLastError | src/github.ts:158-180 | the error is the last failing element's |
| Results.ReduceAppendConcat | src/github.ts:158-180 | the reduce over a concatenation is the two reduces joined, the right part's error first |
| Slack.GenerateBlocks | src/slack.ts:9-48 | two blocks: the header section, then a context block with the GitHub favicon and the bold repository link |
| Slack.HeaderLines | src/slack.ts:19-22 | with single-line fields the header text is an empty line, the `Failed:` line, the `Workflow:` line and an empty line |
| Slack.HeaderNamesWorkflow | src/slack.ts:21 | right after the `Failed:` line the header reads `Workflow: {name} ` |
| Slack.FramedLines | src/slack.ts:19-22 | two single lines framed by line breaks split back into the empty line, the two lines and the empty line |
| Slack.AnnotationBlocksLayout | src/slack.ts:50-73 | `3n` blocks; annotation `i` gives a divider, its bold location and its fenced message at `3i` |
| Slack.JobLogBlocksLayout | src/slack.ts:75-97 | `3n` blocks; step log `i` gives a divider, ``Step: `{name}` `` and its fenced log at `3i` |
| Slack.JobBlocksLength | src/slack.ts:99-117 | an entry renders as its `Job:` heading followed by three blocks per evidence item |
| Slack.BlocksInAttachmentLength | src/slack.ts:99-118 | the attachment holds exactly the sum of `1 + 3n` blocks over the entries |
| Slack.TotalBlocksConcat | src/slack.ts:99-118 | the block count adds up over concatenated entry lists |
| Slack.BlocksInAttachmentConcat | src/slack.ts:99-118 | the attachment of a concatenation is the two attachments in order |
| Slack.BlocksInAttachmentAt | src/slack.ts:99-118 | an entry placed after the entries `pre` starts right after their `TotalBlocks(pre)` blocks, with its heading and then its `3n` evidence blocks |
| Slack.BlocksOfOneEntry | src/slack.ts:99-118 | a single entry's attachment is that entry's blocks |
| Slack.OneAnnotationBlocks | src/slack.ts:50-73 | one annotation renders as its three blocks |
| Slack.OneStepLogBlocks | src/slack.ts:75-97 | one step log renders as its three blocks |
| Slack.AnnotatedEntryBlocks | src/slack.ts:100-116 | an entry with one annotation renders as its heading and that annotation's three blocks |
| Slack.LoggedEntryBlocks | src/slack.ts:100-116 | an entry with one step log renders as its heading and that step's three blocks |
| Slack.EmptyAnnotationsHideLog | src/slack.ts:101-103 | a present but empty annotation list renders the heading alone, whatever logs the entry carries |
| Slack.GenerateParams | src/slack.ts:120-135 | the header blocks and exactly one attachment, coloured `#a30200`, holding the attachment blocks |
| Slack.ParamsSize | src/slack.ts:120-135 | the payload has two header blocks and one attachment of the sum of `1 + 3n` blocks |
| Pipeline.RenderedJob | src/github.ts:160-177 | a job's rendered evidence is its surviving annotations' blocks, else its failed steps' log blocks for `workflow_run`, else nothing |
| Pipeline.TotalBlocksOfEvidence | src/slack.ts:99-118 | the block count of the entries equals one heading per job plus three blocks per surviving annotation or failed step |
| Pipeline.AttachmentSize | src/slack.ts:120-135 | a successful summary's attachment holds one heading per job and three blocks per surviving annotation or failed step |
| Pipeline.SingleJobSummary | src/github.ts:158-180 | one job whose evidence succeeds is summarised as that one entry |
| Pipeline.SingleJobBlocks | src/slack.ts:99-118 | one job's summary renders as that job's blocks |
| Pipeline.SingleStepJobLog | src/github.ts:91-120 | a job whose one failed step's log path passes the raw prefix test and is staged yields that one formatted log |
| Pipeline.AnnotatedJobScenario | src/github.ts:162-166 | one job with one surviving annotation renders as its heading, a divider, the location and the fenced message |
| Pipeline.LoggedJobScenario | src/github.ts:167-169 | one `workflow_run` job without surviving annotations and one staged failed step renders as its heading, a divider, the step name and the fenced formatted log |
| GitHubExamples.MockJobsKeepOnlyFailed | __tests__/github.test.ts:44-55 | of the mocked jobs (failed, successful, running) only the failed one is kept; no jobs give none |
| GitHubExamples.MockRunnerAnnotationIsDefault | src/mocks/handler.ts:24-31 | the mocked runner annotation is recognised as the default one |
| GitHubExamples.DefaultDroppedAfterReported | src/github.ts:141-143 | a reported annotation followed by the default one leaves only the reported one |
| GitHubExamples.MockAnnotationsDropDefault | __tests__/github.test.ts:57-61 | the two mocked annotations leave exactly the real one |
| GitHubExamples.TestJobFailedSteps | __tests__/github.test.ts:141-162 | of the test job's two steps only the failed one is selected |
| GitHubExamples.OneFailedStepGivesOneLog | __tests__/github.test.ts:141-165 | once the failed step's file is staged, the test job yields exactly one log, named `test` |

## Left out

- The REST calls are not modelled: `getWorkflowRun`, the listings inside `getFailedJobs` and `getJobAnnotations`, and `getJobLogZip`. Their responses are inputs.
- Writing and extracting the log archive is not modelled; the extracted files are a map from path to contents.
- `fs.readFileSync` is a map lookup. The byte decoding of `Buffer.toString` is not modelled: file contents are already strings.
- `notify` (the webhook call), `src/main.ts` (inputs, client set-up, early return, `setFailed`) and all `core.debug` logging are not modelled.
- `fromWorkflowRun` is a parameter of `GetSummary`. The event that sets it is read in `src/main.ts`, which is not part of this model.
- Concurrency of the async `reduce` is not modelled; it is a sequential fold with the error priority its awaits produce.
- A job's callback that fails never awaits the accumulator, so an earlier failing job's promise can be left unawaited. Node then reports it as an unhandled rejection, possibly before the caller sees the returned promise's error. This is not modelled: `GitHub.GetSummaryLastError` is a statement about the returned promise only.
- Only POSIX absolute working directories with `/` separators are modelled. `process.cwd()` is always absolute, and the trailing slash that `path.normalize` keeps does not arise for these paths, since every step file ends in `.txt`.
- Windows runners (backslash separators, drive-letter roots) are not modelled.
- Fields the core never reads are omitted: step status and timestamps, annotation level and title, and the remaining run and job fields.
- GitHub.FormatLog: its own contract states only the empty case. The line-by-line promise is `GitHub.FormatLogLines`.
- Slack.HeaderLines: states the line structure only when the run's fields hold no line break. A field with a line break splits the header into more lines.

## Findings

| source | as written | input that shows it | evidently intended | confidence | as-written member | corrected member |
|---|---|---|---|---|---|---|
| src/github.ts:106 | the guard is `normalizedPath.startsWith(baseDir)`, a raw string-prefix test | working directory `/w`, job name `..`, failed step 4 named `/../logsevil/x`: the path normalises to `/w/logsevil/x.txt`, which starts with `/w/logs` and so passes, yet lies outside `/w/logs` | the path must be the log directory or lie below it at a segment boundary | medium, not executed | GitHub.RawPrefixGuardAdmitsSibling | GitHub.GetJobLogGuarded |

`GitHub.ReadStepLog` and `GitHub.GetJobLog` test the path as the code does, and `GitHub.GetSummary` is built on them, so the summary keeps the code's behaviour. The corrected readers `GitHub.ReadStepLogGuarded` and `GitHub.GetJobLogGuarded` test it with `Paths.InsideBase`. `Paths.InsideBaseIsDescendant` proves that this test holds exactly when the log directory's segments begin the path's. The corrected readers reject every path the raw test rejects, and where they succeed they return what the code returns. `GitHub.RawPrefixGuardAdmitsSibling` exhibits the escaping input: the as-written reader reads the sibling file, the corrected one reports `Invalid path`.
