# otel-export-trace-action: log collection and export, as a Dafny model

The GitHub Action `otel-export-trace-action` exports a finished workflow run to
observability back ends. It sends the run's jobs and steps as OpenTelemetry
spans, and it sends the jobs' logs to Grafana Loki, with every log entry tagged
with the run's trace id so the logs and the trace can be correlated.

This project models the part of the action that does this correlation:

- **Collecting the jobs.** `getWorkflowRunJobsForLogging` lists a run's jobs
  page by page, 100 per page with the `latest` filter. It stops once the
  collected jobs reach the `total_count` of the last response.
- **Building the Loki streams.** For every job, `getLogsForWorkflowRunJobs`:
  - downloads the log and splits it into lines;
  - turns every non-empty line into a Loki entry. An entry is a nanosecond
    timestamp and the JSON text of the job's metadata (run id, run name, job id,
    attempt number, trace id) plus the line's message;
  - packages the entries as one stream with the labels `env`, owner,
    repository and workflow id.
- **Pushing to Loki.** `exportLogsToLoki` posts each stream on its own. Any
  status other than 204 fails the action.
- **Header strings.** `stringToHeader` turns a string such as
  `"Authorization: Bearer x, X-Scope-OrgID: t"` into the header dictionary of
  the Loki push and of the OTLP trace exporter.
- **The tracer provider's own logic.** This covers the resource attributes
  (service name, instance id, namespace, version), the choice between the
  console and the OTLP exporter, and the message the global error handler fails
  the action with.

Files and modules:

| file | module | what it holds |
|---|---|---|
| `wrappers.dfy` | `Wrappers` | `Option` |
| `lists.dfy` | `Lists` | `Map` over sequences, with its index and append lemmas |
| `text.dfy` | `Text` | JavaScript's `split` (non-empty separator), `join`, `substring`, `trim`, and decimal `toString` with its inverse |
| `json.dfy` | `Json` | `JSON.stringify` of strings and of flat string-valued objects, plus a decoder that inverts the string escape |
| `github.dfy` | `GitHub` | the GitHub records the action reads, and the requests and responses of the API calls |
| `actions_core.dfy` | `ActionsCore` | class `ActionStatus`: the messages `core.setFailed` has been called with |
| `headers.dfy` | `Headers` | `stringToHeader` |
| `logging.dfy` | `Logging` | `src/logging.ts` |
| `tracing.dfy` | `Tracing` | the action's own logic in `src/tracing/trace.ts` |

Outside code is passed in as a total function parameter (an oracle):

- the GitHub REST API (`listJobs`, and `logUrl` for the log-download
  redirect);
- the HTTP GET of the log (`getBody`);
- `new Date(...).getTime()` (`parseDate`, where `None` stands for `NaN`);
- the Loki POST (`post`, given the push's index and request, returns the status
  code).

`core.setFailed` appends to `ActionStatus.failures`. The action has failed when
that list is not empty.

Three behaviours of the code worth knowing:

- **The stream's `env` label** is `"github-actions"` (`src/logging.ts:165`).
- **A run with no jobs still costs one listing request.** The loop asks for
  page 1 before it compares anything with `total_count`
  (`Logging.RequestsNeeded`, `Logging.ConsistentListingPages`).
- **The message starts at index 29 whatever the timestamp's length.** The
  timestamp is the first 28 characters and the character at index 28 is
  skipped (`src/logging.ts:145-146`). A line whose timestamp is only 27
  characters long therefore loses the first character of its message, and the
  timestamp text keeps the space after it (`Logging.LineLayout`).

## Model

| member | source | states |
|---|---|---|
| Logging.GetWorkflowRunJobsForLogging | src/logging.ts:27-50 | Page k (from 1) is requested with `latest` and 100 per page, and there is at least one request. The result is every received page's jobs in page order. The loop stops right after the first page whose `total_count` the collected jobs reach, and no earlier page did. |
| Logging.PageInPlace | src/logging.ts:45 | Each page's jobs appear unchanged and contiguous in the collected list, right after the jobs of the earlier pages. |
| Logging.ConsistentListingPages | src/logging.ts:35-47 | If the API reports the same `total_count` on every page and fills pages in order, the loop makes exactly `max(1, ceil(total/100))` requests and returns exactly `total` jobs. |
| Logging.ConsistentListingEnds | src/logging.ts:46 | Against such an API the loop terminates. |
| Logging.DownloadLogs | src/logging.ts:85-118 | The log is fetched from the URL the API gives for this run and job. A text body gives its `\n`-split lines. Any other body gives no lines and exactly one failure naming the body's type. |
| Logging.LogLinesOf | src/logging.ts:108-116 | A text body yields at least one line, no line holds a line feed, and joined with line feeds the lines give the body back. Any other body yields no lines. |
| Logging.GenerateLogMetadata | src/logging.ts:120-133 | Run id and job id are their canonical decimal numerals (no leading zero), which parse back to the ids. The run name, or "" when it is missing. The attempt number is "" exactly when it is missing or 0, and otherwise the canonical numeral of the attempt. The trace id is unchanged. |
| Logging.EntryMessage | src/logging.ts:149-152 | Every entry message of a job is the same prefix, then the JSON-escaped message, then `"}`; the log message can be decoded back out of it, so the envelope loses nothing. |
| Logging.EnvelopeCarriesTraceId | src/logging.ts:149-152 | That shared prefix holds the run fields and then the `traceId` member, before the `msg` key. |
| Logging.EntryMessageInjective | src/logging.ts:149-152 | Different messages of one job never give the same entry. |
| Logging.LineLayout | src/logging.ts:145-146 | The timestamp is the first 28 characters (the whole line if shorter). The message is everything from index 29 on ("" for lines of 29 characters or fewer). A longer line is the timestamp, one skipped character, then the message. |
| Logging.TimestampString | src/logging.ts:148 | The timestamp is "NaN" exactly for a date that does not parse; otherwise it is an optionally signed numeral that parses back to the milliseconds times 1,000,000. |
| Logging.TimestampNanos | src/logging.ts:148 | A valid date prints as its milliseconds followed by six zeros ("0" for the epoch, a leading "-" before 1970). That text parses back to the milliseconds times 1,000,000. |
| Logging.ParseLine | src/logging.ts:145-153 | The entry of one line: its timestamp is "NaN" exactly when the date does not parse; its message is the job's envelope around the line's message, which decodes back out. |
| Logging.NonEmptyLinesFilter | src/logging.ts:137-140 | Skipping removes exactly the empty lines. Every other line is kept as often as it occurs. |
| Logging.NonEmptyLinesAll | src/logging.ts:137-140 | A log with no empty lines keeps every line. |
| Logging.ParsedLogLinesEach | src/logging.ts:135-156 | There is one entry per non-empty line, in line order. Entry i is the timestamp and the entry message of the i-th non-empty line. An invalid date does not drop its line. |
| Logging.ParseLogLines | src/logging.ts:135-156 | The loop builds exactly the entries that the specification of parsing gives for the lines. |
| Logging.GenerateLokiLogPayloads | src/logging.ts:159-176 | The entries are kept unchanged. The labels are env `github-actions`, the context's owner and repository, and the canonical decimal numeral of the workflow id, which parses back to it. |
| Logging.JobLogBody | src/logging.ts:60-78 | The body of one job carries the run's labels, the same whatever the job, and one entry per non-empty line of the job's log. |
| Logging.GetLogsForWorkflowRunJobs | src/logging.ts:52-83 | There is one Loki body per job, in job order, each built from that job's own log and metadata. The failures grow by exactly the failures of the jobs whose log is not text, in job order. |
| Logging.JobLogBodyAt | src/logging.ts:59-80 | There are as many bodies as jobs, and body i belongs to job i. |
| Logging.JobStreamsAgree | src/logging.ts:164-169 | All jobs of a run get the same stream labels. |
| Logging.JobEntryCorrelated | src/logging.ts:59-80 | Entry k of a job's body comes from the job's k-th non-empty log line. Its timestamp is that line's. Its message carries the run's trace id around the line's message, which decodes back out. |
| Logging.JobsFailuresWhenNotText | src/logging.ts:109-116 | Collecting logs fails the action exactly when some job's log body is not text. |
| Logging.ExportLogsToLoki | src/logging.ts:192-227 | There is exactly one POST per body, in order, to the endpoint with the parsed headers and that body as its only stream. The failures grow by one message per response other than 204, in order. The loop does not stop at a failure. |
| Logging.ExportFailuresWhenRejected | src/logging.ts:212-220 | The export fails the action exactly when some push is not answered with 204. |
| Logging.ExportFailuresCount | src/logging.ts:212-220 | The number of failures is the number of pushes not answered with 204. |
| Headers.StringToHeader | src/logging.ts:178-191 | No key and no value of the dictionary has white space left at either end (both copies, also src/tracing/trace.ts:27-40). |
| Headers.HeaderItem | src/logging.ts:181-186 | An item contributes an entry only if it contains `": "`, and then its key and value are trimmed. |
| Headers.StringToHeaderKeys | src/logging.ts:178-191 | A key is in the dictionary exactly when some comma-separated item is well formed and sets it. |
| Headers.StringToHeaderLastWins | src/logging.ts:180-190 | A key's value is the one from the last item that sets it. |
| Headers.HeaderItemOfPair | src/logging.ts:181-186 | `key: value` gives the trimmed key and value. Text after a second `": "` is dropped. |
| Headers.HeaderItemWithoutSeparator | src/logging.ts:181-182 | An item without `": "` (for example `key:value`) contributes nothing. |
| Headers.HeaderItemEmptyValue | src/logging.ts:181-182 | An item whose value piece is empty (`"key: "`, or `"key: : more"`) contributes nothing, even with a non-empty key. |
| Headers.HeaderItemEmptyKey | src/logging.ts:182 | An item that starts with `": "` has an empty key and contributes nothing. |
| Headers.StringToHeaderTwoHeaders | src/logging.ts:178-191 | The documented form `k1: v1, k2: v2` gives exactly those two headers, the second winning when the keys are equal. |
| Json.EscapeString | src/logging.ts:149-152 | Escaping never shortens a string, decoding the escape gives the string back, and text without quotes, backslashes or control characters is written as it is. |
| Json.ObjectText | src/logging.ts:149-152 | The text of an object is wrapped in braces, and an object without members is `{}`. |
| Json.ObjectSnoc | src/logging.ts:149-152 | Adding a last member to a non-empty object appends a comma and that member, whose escaped value runs up to the closing `"}`. |
| Text.Split | src/logging.ts:110 | `split` gives at least one piece, and joining the pieces with the separator gives the string back. |
| Text.Substring | src/logging.ts:145-146 | Inside the string `substring` takes the slice between the bounds in either order; a bound past the end counts as the end. |
| Text.Trim | src/logging.ts:185 | `trim()` keeps a slice of the string, cuts off only ECMAScript white space and line terminators, and leaves no white space at either end (both copies, also src/tracing/trace.ts:34). |
| Text.NatToString | src/logging.ts:126 | A non-negative integer's `toString()` (also the template literal at src/tracing/trace.ts:51) is a non-empty run of digits with no leading zero except for 0 itself; `Text.ParseNatToString` reads it back as the number. |
| Text.ParseNatToString | src/logging.ts:126 | The numeral of `n` parses back to `n`, so distinct ids give distinct numerals. |
| Text.IntToString | src/logging.ts:153 | A minus sign exactly for a negative number, then digits with no leading zero except for 0 itself. |
| Tracing.ServiceName | src/tracing/trace.ts:48-51 | The name is never empty and is always the override, the run name or the workflow id's numeral. |
| Tracing.ServiceNameChoice | src/tracing/trace.ts:48-51 | A non-empty override wins. Otherwise a non-empty run name wins. Otherwise the name is the canonical numeral of the workflow id, which parses back to it. The name is never empty. |
| Tracing.EmptyOverrideFallsThrough | src/tracing/trace.ts:49 | An empty override behaves like no override. |
| Tracing.ServiceInstanceId | src/tracing/trace.ts:52-57 | Splitting the instance id on "/" gives the pieces of the repository's full name, followed by the workflow id, the run id and the attempt ("" when missing). |
| Tracing.ServiceInstanceIdReadsBack | src/tracing/trace.ts:52-57 | The last three segments parse back to the workflow id, the run id and the attempt. The last segment is empty exactly when the attempt is missing. |
| Tracing.ResourceOf | src/tracing/trace.ts:48-73 | The service name is the fallback chain's name and the instance id is the `/`-join of the run's four segments. The namespace is the repository's full name and the version is the head commit, both unchanged. The service name is not empty and the instance id has at least four segments. |
| Tracing.ChooseExporter | src/tracing/trace.ts:23-83 | The console exporter is used exactly when `OTEL_CONSOLE_ONLY` is the string "true". Otherwise the OTLP exporter is used, with the endpoint and the parsed header string. |
| Tracing.OtlpHeaderKeys | src/tracing/trace.ts:27-40 | The OTLP exporter sends exactly the headers that some well-formed item of the header string sets. |
| Tracing.OtlpHeaderValues | src/tracing/trace.ts:27-40 | The OTLP exporter sends each header with the value of the last item that sets it. |
| Tracing.ErrorHandlerMessage | src/tracing/trace.ts:88-92 | A string error is reported as is. An error with a message is reported with that message. Only an error without a message gets "no error message, check logs". |
| Tracing.ErrorHandlerMessageEmpty | src/tracing/trace.ts:91 | The reported message is empty exactly for an empty string or an empty message: `??` replaces only a missing message. |
| Tracing.HandleGlobalError | src/tracing/trace.ts:86-93 | The handler adds exactly one failure, the chosen message, and the action has failed afterwards. |
| ActionsCore.ActionStatus.SetFailed | src/logging.ts:112-114 | The message is appended to the recorded failures, and the action has failed. |

## Left out

- GitHub API, log download and Loki POST: the Octokit and axios calls are oracle parameters. Retries, redirects, HTTP errors and exceptions from these calls are not modelled.
- Logging.DownloadLogs: models `logLines.push(...lines)` as appending every line. In JavaScript the spread passes each line as a call argument, so a log with more lines than the engine's argument limit (of the order of 10^5) throws a `RangeError`. That exception would leave `getLogsForWorkflowRunJobs` and abort the log collection for every job. The model does not capture this; it returns all lines and keeps the jobs independent.
- Logging output: `core.debug`, `core.info`, `console.log` and `console.error` write output only and are left out. That includes the Loki status text and response body logged on a failed push.
- Loki request text: the body of a push is modelled as its list of streams. The JSON text of the whole push body is not produced.
- Dictionary order: header dictionaries are maps, so key order is not modelled.
- Logging.TimestampString: computes the nanoseconds with exact integers, while `(ms * 1000) * 1000` runs in doubles. The intermediate `ms * 1000` is exact only while `|ms| * 125` fits in 53 bits, that is for `|ms|` up to about 7.2 × 10^13 (some 2,280 years either side of 1970). Up to there the two print the same digits. Beyond it the intermediate product can be rounded, and then JavaScript prints digits the model does not give (72157040025733 ms prints as 72157040025732990000). `new Date(...)` itself is the `parseDate` oracle.
- Id formatting: ids are natural numbers printed in plain decimal. Ids above 2^53, and the exponent form JavaScript uses for numbers of 10^21 and above, are not modelled.
- String indexing: strings are sequences of Unicode scalar values. JavaScript counts UTF-16 code units, so `substring(0, 28)` and `substring(29)` differ from the model on lines with characters outside the Basic Multilingual Plane before index 29. `trim` uses the ECMAScript white-space and line-terminator set.
- Logger and span processor wiring: setting up the OpenTelemetry diagnostic logger, `loggingErrorHandler`, the span processor and provider registration has no logic of the action's own.
- Errors not modelled: the handler's `Exception` is modelled as a string or an error whose message may be missing. Other shapes of `Exception` are not modelled.
- Logging.GetWorkflowRunJobsForLogging: it requires that some page ends the listing (`ListingEnds`). The source has no page cap, so against an API whose `total_count` is never reached it loops forever. `Logging.ConsistentListingEnds` shows that a consistent API meets the requirement.
- Span construction: building spans from jobs and steps (`src/tracing/job.ts` and the other tracing files) is not part of this model.
- Type definitions and GitHub calls: `src/github.ts` is not part of this model. Its record types are modelled by the fields the core reads.
- `src/runner.ts`: its orchestration of the two exports is not part of this model.
