/**
 * The log side of the action: collect the jobs of a workflow run page by page,
 * download each job's log, turn every non-empty log line into a Loki entry whose
 * message carries the run's trace id, package one stream per job and push the
 * streams to Loki one by one.
 *
 * The GitHub REST API, the log download and the Loki endpoint are parameters:
 * functions from the request to the response the action receives. The failure
 * state `core.setFailed` records is an `ActionStatus` object.
 */
module Logging {
  import opened Wrappers
  import opened Text
  import opened Json
  import opened GitHub
  import opened ActionsCore
  import opened Lists
  import Headers

  // ===========================================================================
  // Collecting the jobs of a run, page by page

  /** The `per_page` of every listing request. */
  const PageSize: nat := 100

  /** The `filter` of every listing request: only the latest attempt of each job. */
  const LatestFilter: string := "latest"

  /** The listing request for page `page` of the run's jobs. */
  function ListJobsQuery(ctx: RepoContext, runId: nat, page: nat): ListJobsRequest {
    ListJobsRequest(ctx.owner, ctx.repo, runId, LatestFilter, page, PageSize)
  }

  /** The response the API gives to the request for page `page`. */
  function PageAt(listJobs: ListJobsRequest -> JobsPage, ctx: RepoContext, runId: nat, page: nat): JobsPage {
    listJobs(ListJobsQuery(ctx, runId, page))
  }

  /** The jobs collected once pages 1 to `n` have been received: their jobs, in page order. */
  function AccumulatedJobs(listJobs: ListJobsRequest -> JobsPage, ctx: RepoContext, runId: nat, n: nat): seq<WorkflowRunJob>
    decreases n
  {
    if n == 0 then [] else AccumulatedJobs(listJobs, ctx, runId, n - 1) + PageAt(listJobs, ctx, runId, n).jobs
  }

  /**
   * After page `n` the loop stops: the jobs collected so far are at least as many
   * as the `total_count` of page `n`'s response.
   */
  predicate ListingComplete(listJobs: ListJobsRequest -> JobsPage, ctx: RepoContext, runId: nat, n: nat) {
    |AccumulatedJobs(listJobs, ctx, runId, n)| >= PageAt(listJobs, ctx, runId, n).totalCount
  }

  /** Some page ends the listing; the loop has no other bound on the number of pages. */
  ghost predicate ListingEnds(listJobs: ListJobsRequest -> JobsPage, ctx: RepoContext, runId: nat) {
    exists n :: 1 <= n && ListingComplete(listJobs, ctx, runId, n)
  }

  /**
   * `getWorkflowRunJobsForLogging`: request page 1, 2, ... with 100 jobs per page,
   * append every page's jobs, and stop right after the first response whose
   * `total_count` the collected jobs reach. `requests` lists the calls made.
   */
  method GetWorkflowRunJobsForLogging(listJobs: ListJobsRequest -> JobsPage, ctx: RepoContext, runId: nat)
    returns (jobs: seq<WorkflowRunJob>, requests: seq<ListJobsRequest>)
    requires ListingEnds(listJobs, ctx, runId)
    ensures |requests| >= 1
    ensures forall i :: 0 <= i < |requests| ==> requests[i] == ListJobsQuery(ctx, runId, i + 1)
    ensures jobs == AccumulatedJobs(listJobs, ctx, runId, |requests|)
    ensures ListingComplete(listJobs, ctx, runId, |requests|)
    ensures forall n :: 1 <= n < |requests| ==> !ListingComplete(listJobs, ctx, runId, n)
  {
    ghost var bound :| 1 <= bound && ListingComplete(listJobs, ctx, runId, bound);
    jobs := [];
    requests := [];
    var page := 1;
    var hasNext := true;
    while hasNext
      invariant 1 <= page && |requests| == page - 1
      invariant forall i :: 0 <= i < |requests| ==> requests[i] == ListJobsQuery(ctx, runId, i + 1)
      invariant jobs == AccumulatedJobs(listJobs, ctx, runId, page - 1)
      invariant forall n :: 1 <= n < page - 1 ==> !ListingComplete(listJobs, ctx, runId, n)
      invariant hasNext ==> page == 1 || !ListingComplete(listJobs, ctx, runId, page - 1)
      invariant hasNext ==> page <= bound
      invariant !hasNext ==> page >= 2 && ListingComplete(listJobs, ctx, runId, page - 1)
      decreases if hasNext then bound + 1 - page else 0
    {
      var request := ListJobsQuery(ctx, runId, page);
      var response := listJobs(request);
      requests := requests + [request];
      jobs := jobs + response.jobs;
      hasNext := |jobs| < response.totalCount;
      page := page + 1;
    }
  }

  /** The pages collected first stay in front: the listing only ever appends. */
  lemma {:induction false} AccumulatedPrefix(listJobs: ListJobsRequest -> JobsPage, ctx: RepoContext, runId: nat, m: nat, n: nat)
    requires m <= n
    ensures var before, after := AccumulatedJobs(listJobs, ctx, runId, m), AccumulatedJobs(listJobs, ctx, runId, n);
      |before| <= |after| && after[..|before|] == before
    decreases n
  {
    if m < n {
      AccumulatedPrefix(listJobs, ctx, runId, m, n - 1);
      var before := AccumulatedJobs(listJobs, ctx, runId, m);
      var mid := AccumulatedJobs(listJobs, ctx, runId, n - 1);
      var after := AccumulatedJobs(listJobs, ctx, runId, n);
      assert after[..|mid|] == mid;
      assert after[..|before|] == mid[..|before|];
    }
  }

  /**
   * Page `p`'s jobs appear unchanged in the collected jobs, right after the jobs
   * of the pages before it: nothing is filtered, reordered or merged.
   */
  lemma PageInPlace(listJobs: ListJobsRequest -> JobsPage, ctx: RepoContext, runId: nat, p: nat, n: nat)
    requires 1 <= p <= n
    ensures var start, end := |AccumulatedJobs(listJobs, ctx, runId, p - 1)|, |AccumulatedJobs(listJobs, ctx, runId, p)|;
      var all := AccumulatedJobs(listJobs, ctx, runId, n);
      start <= end <= |all| && all[start..end] == PageAt(listJobs, ctx, runId, p).jobs
  {
    AccumulatedPrefix(listJobs, ctx, runId, p, n);
    var upto := AccumulatedJobs(listJobs, ctx, runId, p);
    var all := AccumulatedJobs(listJobs, ctx, runId, n);
    var start := |AccumulatedJobs(listJobs, ctx, runId, p - 1)|;
    assert all[start..|upto|] == upto[start..];
  }

  /** The number of jobs a consistent API returns on page `page` when the run has `total` jobs. */
  function ConsistentPageLength(total: nat, page: nat): nat
    requires page >= 1
  {
    var before := (page - 1) * PageSize;
    if total <= before then 0 else if total - before < PageSize then total - before else PageSize
  }

  /**
   * An API that reports the same `total_count` on every page and fills the pages
   * in order, `PageSize` jobs a page.
   */
  ghost predicate ConsistentListing(listJobs: ListJobsRequest -> JobsPage, ctx: RepoContext, runId: nat, total: nat) {
    forall p :: 1 <= p ==>
      && PageAt(listJobs, ctx, runId, p).totalCount == total
      && |PageAt(listJobs, ctx, runId, p).jobs| == ConsistentPageLength(total, p)
  }

  /** The number of listing requests the loop makes for a run of `total` jobs: always at least one. */
  function RequestsNeeded(total: nat): (n: nat)
    ensures n >= 1
  {
    if total == 0 then 1 else (total + PageSize - 1) / PageSize
  }

  lemma {:induction false} ConsistentAccumulated(listJobs: ListJobsRequest -> JobsPage, ctx: RepoContext, runId: nat, total: nat, n: nat)
    requires ConsistentListing(listJobs, ctx, runId, total)
    ensures |AccumulatedJobs(listJobs, ctx, runId, n)| == if n * PageSize <= total then n * PageSize else total
    decreases n
  {
    if n > 0 {
      ConsistentAccumulated(listJobs, ctx, runId, total, n - 1);
      assert |PageAt(listJobs, ctx, runId, n).jobs| == ConsistentPageLength(total, n);
    }
  }

  /** The page count `RequestsNeeded(total)` is the first page that completes the listing. */
  lemma RequestsNeededBounds(total: nat)
    ensures var n := RequestsNeeded(total);
      && total <= n * PageSize
      && forall m :: 1 <= m < n ==> m * PageSize < total
  {
  }

  /**
   * Against a consistent API the listing ends, and any run of the loop, which
   * stops at the first complete page, makes `RequestsNeeded(total)` requests (one
   * even for a run without jobs) and returns exactly `total` jobs.
   */
  lemma ConsistentListingPages(listJobs: ListJobsRequest -> JobsPage, ctx: RepoContext, runId: nat, total: nat, n: nat)
    requires ConsistentListing(listJobs, ctx, runId, total)
    requires 1 <= n && ListingComplete(listJobs, ctx, runId, n)
    requires forall m :: 1 <= m < n ==> !ListingComplete(listJobs, ctx, runId, m)
    ensures n == RequestsNeeded(total)
    ensures |AccumulatedJobs(listJobs, ctx, runId, n)| == total
  {
    var r := RequestsNeeded(total);
    RequestsNeededBounds(total);
    ConsistentAccumulated(listJobs, ctx, runId, total, n);
    ConsistentAccumulated(listJobs, ctx, runId, total, r);
    assert ListingComplete(listJobs, ctx, runId, r);
    if n < r {
      assert false;
    }
    if n > r {
      assert false;
    }
  }

  /** A consistent API lets the loop end. */
  lemma ConsistentListingEnds(listJobs: ListJobsRequest -> JobsPage, ctx: RepoContext, runId: nat, total: nat)
    requires ConsistentListing(listJobs, ctx, runId, total)
    ensures ListingEnds(listJobs, ctx, runId)
  {
    var r := RequestsNeeded(total);
    RequestsNeededBounds(total);
    ConsistentAccumulated(listJobs, ctx, runId, total, r);
    assert ListingComplete(listJobs, ctx, runId, r);
  }

  // ===========================================================================
  // Downloading one job's log

  /** The arguments of the `downloadJobLogsForWorkflowRun` call for `job`. */
  function LogRequestFor(ctx: RepoContext, runId: nat, job: WorkflowRunJob): LogRequest {
    LogRequest(ctx.owner, ctx.repo, runId, job.id)
  }

  /** The body of the GET on the log URL the API gives for `job`. */
  function FetchedLog(logUrl: LogRequest -> string, getBody: string -> LogBody, ctx: RepoContext, runId: nat, job: WorkflowRunJob): LogBody {
    getBody(logUrl(LogRequestFor(ctx, runId, job)))
  }

  /** What separates the lines of a log. */
  const LineSeparator: string := "\n"

  /** No line holds a line feed. */
  predicate NoLineBreaks(lines: seq<string>) {
    forall k :: 0 <= k < |lines| ==> !Contains(lines[k], LineSeparator)
  }

  /**
   * The lines of a log body. A text body gives exactly its pieces between line
   * feeds, empty ones included: at least one, none holding a line feed, and
   * joined with line feeds they give the body back. Any other body gives none.
   */
  function LogLinesOf(body: LogBody): (lines: seq<string>)
    ensures body.OtherBody? ==> lines == []
    ensures body.TextBody? ==> |lines| >= 1 && Join(lines, LineSeparator) == body.text && NoLineBreaks(lines)
  {
    match body
    case TextBody(text) =>
      SplitPiecesFree(text, LineSeparator);
      Split(text, LineSeparator)
    case OtherBody(_) => []
  }

  /** The failure reported for a log body that is not text. */
  function ParseFailureMessage(typeName: string): string {
    "Error parsing logs response, expected string but got " + typeName + ":"
  }

  /** The failures a log body causes: one for a body that is not text, none otherwise. */
  function BodyFailures(body: LogBody): seq<string> {
    match body
    case TextBody(_) => []
    case OtherBody(typeName) => [ParseFailureMessage(typeName)]
  }

  /**
   * `downloadLogs`: ask for the log URL, fetch it, and split a text body into
   * lines; any other body gives no lines and fails the action.
   */
  method DownloadLogs(status: ActionStatus, logUrl: LogRequest -> string, getBody: string -> LogBody,
                      ctx: RepoContext, runId: nat, job: WorkflowRunJob)
    returns (logLines: seq<string>)
    modifies status
    ensures logLines == LogLinesOf(FetchedLog(logUrl, getBody, ctx, runId, job))
    ensures status.failures == old(status.failures) + BodyFailures(FetchedLog(logUrl, getBody, ctx, runId, job))
  {
    var url := logUrl(LogRequestFor(ctx, runId, job));
    var downloadedLogs := getBody(url);
    logLines := [];
    match downloadedLogs
    case TextBody(text) =>
      logLines := logLines + Split(text, LineSeparator);
    case OtherBody(typeName) =>
      status.SetFailed(ParseFailureMessage(typeName));
  }

  // ===========================================================================
  // The metadata every entry of a job carries

  /** The `LogMetadata` record, one string per field. */
  datatype LogMetadata = LogMetadata(
    githubRunId: string,
    githubRunName: string,
    githubJobId: string,
    githubJobAttemptNumber: string,
    traceId: string)

  /** `job.run_attempt && job.run_attempt.toString()`, or "" when that is falsy. */
  function AttemptText(attempt: Option<nat>): string {
    match attempt
    case None => ""
    case Some(a) => if a == 0 then "" else NatToString(a)
  }

  lemma AttemptTextReadsBack(attempt: Option<nat>)
    ensures AllDigits(AttemptText(attempt))
    ensures AttemptText(attempt) != "" ==> attempt.Some? && ParseNat(AttemptText(attempt)) == attempt.value
  {
    if attempt.Some? {
      ParseNatToString(attempt.value);
    }
  }

  /**
   * `generateLogMetadata`: the run id and the job id in decimal, the run name or
   * "" when it is missing, the job's attempt number or "" when it is missing or 0,
   * and the trace id as given.
   */
  function GenerateLogMetadata(workflowRunJobs: WorkflowRunJobs, job: WorkflowRunJob, traceId: string): (md: LogMetadata)
    ensures md.githubRunId == NatToString(workflowRunJobs.workflowRun.id)
    ensures md.githubJobId == NatToString(job.id)
    ensures AllDigits(md.githubRunId) && ParseNat(md.githubRunId) == workflowRunJobs.workflowRun.id
    ensures AllDigits(md.githubJobId) && ParseNat(md.githubJobId) == job.id
    ensures workflowRunJobs.workflowRun.name.None? ==> md.githubRunName == ""
    ensures workflowRunJobs.workflowRun.name.Some? ==> md.githubRunName == workflowRunJobs.workflowRun.name.value
    ensures md.githubJobAttemptNumber == "" <==> (job.runAttempt.None? || job.runAttempt.value == 0)
    ensures AllDigits(md.githubJobAttemptNumber)
    ensures md.githubJobAttemptNumber != "" ==> md.githubJobAttemptNumber == NatToString(job.runAttempt.value)
    ensures md.githubJobAttemptNumber != "" ==> ParseNat(md.githubJobAttemptNumber) == job.runAttempt.value
    ensures md.traceId == traceId
  {
    var run := workflowRunJobs.workflowRun;
    ParseNatToString(run.id);
    ParseNatToString(job.id);
    AttemptTextReadsBack(job.runAttempt);
    LogMetadata(
      NatToString(run.id),
      match run.name case None => "" case Some(n) => n,
      NatToString(job.id),
      AttemptText(job.runAttempt),
      traceId)
  }

  /** The key of the trace id in an entry. */
  const TraceIdKey: string := "traceId"

  /** The members of the entry object that describe the run and the job, in record order. */
  function RunFields(md: LogMetadata): seq<(string, string)> {
    [ ("github_run_id", md.githubRunId),
      ("github_run_name", md.githubRunName),
      ("github_job_id", md.githubJobId),
      ("github_job_attempt_number", md.githubJobAttemptNumber) ]
  }

  /** The metadata as the members of the entry object: the run and job fields, then the trace id. */
  function MetadataFields(md: LogMetadata): seq<(string, string)> {
    RunFields(md) + [(TraceIdKey, md.traceId)]
  }

  /** The key of the log message in an entry. */
  const MessageKey: string := "msg"

  /**
   * `JSON.stringify({...metadata, msg: message})`: the message of one Loki entry.
   * Every entry of a job is the same prefix, then the escaped message, then the
   * same suffix, and the log message can be read back out of it.
   */
  function EntryMessage(md: LogMetadata, message: string): (text: string)
    ensures text == EnvelopePrefix(md) + EscapeString(message) + EnvelopeSuffix
    ensures ExtractMessage(md, text) == Some(message)
  {
    ObjectSnoc(MetadataFields(md), MessageKey, message);
    SliceThree(EnvelopePrefix(md), EscapeString(message), EnvelopeSuffix);
    ObjectText(MetadataFields(md) + [(MessageKey, message)])
  }

  /** Everything an entry of a job writes before the log message itself. */
  function EnvelopePrefix(md: LogMetadata): string {
    "{" + Members(MetadataFields(md)) + "," + Quote(MessageKey) + ":\""
  }

  /** Everything an entry writes after the log message. */
  const EnvelopeSuffix: string := "\"}"

  /** The prefix every entry of a job starts with ends with the job's trace id member. */
  lemma EnvelopeCarriesTraceId(md: LogMetadata)
    ensures EnvelopePrefix(md)
         == "{" + Members(RunFields(md)) + "," + Member((TraceIdKey, md.traceId)) + "," + Quote(MessageKey) + ":\""
  {
    PrefixSnoc(RunFields(md), (TraceIdKey, md.traceId), Quote(MessageKey));
  }

  lemma PrefixSnoc(fields: seq<(string, string)>, last: (string, string), key: string)
    requires |fields| > 0
    ensures "{" + Members(fields + [last]) + "," + key + ":\""
         == "{" + Members(fields) + "," + Member(last) + "," + key + ":\""
  {
    MembersSnoc(fields, last);
    PrefixRegroup(Members(fields), Member(last), key);
  }

  lemma PrefixRegroup(m: string, l: string, key: string)
    ensures "{" + (m + "," + l) + "," + key + ":\"" == "{" + m + "," + l + "," + key + ":\""
  {
  }

  /**
   * Reading an entry message back: the log message, if `text` is an entry of the
   * job with metadata `md`.
   */
  function ExtractMessage(md: LogMetadata, text: string): Option<string> {
    var prefix := EnvelopePrefix(md);
    if |text| >= |prefix| + |EnvelopeSuffix|
       && text[..|prefix|] == prefix
       && text[|text| - |EnvelopeSuffix|..] == EnvelopeSuffix
    then UnescapeString(text[|prefix|..|text| - |EnvelopeSuffix|])
    else None
  }

  /** Two different messages of one job never give the same entry. */
  lemma EntryMessageInjective(md: LogMetadata, m1: string, m2: string)
    requires EntryMessage(md, m1) == EntryMessage(md, m2)
    ensures m1 == m2
  {
  }

  // ===========================================================================
  // Parsing the lines of a log

  /** The length of the timestamp every runner log line starts with. */
  const TimestampLength: nat := 28

  /** `logLine.substring(0, 28)`. */
  function TimestampText(line: string): string {
    Substring(line, 0, TimestampLength)
  }

  /** `logLine.substring(29)`: the character after the timestamp is skipped, whatever it is. */
  function MessageText(line: string): string {
    Substring(line, TimestampLength + 1, |line|)
  }

  /**
   * The timestamp is the first 28 characters (the whole line when shorter), the
   * message everything from index 29 on (nothing for a line of 29 characters or
   * fewer), and a longer line is the two with the character at index 28 between.
   */
  lemma LineLayout(line: string)
    ensures TimestampText(line) == line[..if |line| < 28 then |line| else 28]
    ensures |line| <= 29 ==> MessageText(line) == ""
    ensures |line| > 29 ==> MessageText(line) == line[29..]
    ensures |line| >= 29 ==> line == TimestampText(line) + [line[28]] + MessageText(line)
  {
    if |line| >= 29 {
      assert line == line[..28] + [line[28]] + line[29..];
    }
  }

  /** The factor from the milliseconds `Date.getTime` gives to the nanoseconds Loki expects. */
  const NanosPerMilli: nat := 1000000

  /**
   * `(new Date(timestamp).getTime() * 1000 * 1000).toString()`, given what the
   * date parser makes of the timestamp: milliseconds since the epoch, or None for
   * an invalid date, whose `NaN` prints as "NaN".
   */
  function TimestampString(millis: Option<int>): (s: string)
    ensures s == "NaN" <==> millis.None?
    ensures millis.Some? ==>
      && |s| > 0 && (s[0] == '-' || IsDigit(s[0])) && AllDigits(s[1..])
      && ParseInt(s) == millis.value * NanosPerMilli
  {
    match millis
    case None => "NaN"
    case Some(ms) =>
      ParseIntToString(ms * NanosPerMilli);
      IntToString(ms * NanosPerMilli)
  }

  lemma NanosDigits()
    ensures Pow10(6) == NanosPerMilli && Zeros(6) == "000000"
  {
  }

  /**
   * A valid date becomes its milliseconds with six zeros appended (just "0" for
   * the epoch itself), which reads back as the milliseconds times 1,000,000.
   */
  lemma TimestampNanos(ms: int)
    ensures var s := TimestampString(Some(ms));
      && |s| > 0 && (s[0] == '-' || IsDigit(s[0])) && AllDigits(s[1..])
      && ParseInt(s) == ms * NanosPerMilli
      && (ms == 0 ==> s == "0")
      && (ms > 0 ==> s == NatToString(ms) + "000000")
      && (ms < 0 ==> s == "-" + NatToString(-ms) + "000000")
  {
    ParseIntToString(ms * NanosPerMilli);
    NanosDigits();
    if ms > 0 {
      NatToStringShift(ms, 6);
    } else if ms < 0 {
      NatToStringShift(-ms, 6);
      assert -(ms * NanosPerMilli) == (-ms) * Pow10(6);
    }
  }

  /** A Loki entry: the timestamp in nanoseconds and the message, both as text. */
  type LogLine = (string, string)

  /**
   * The entry `parseLogLines` makes of one non-empty line: the timestamp is
   * "NaN" exactly when the date does not parse, and the message is the job's
   * envelope around the line's message, which can be read back out.
   */
  function ParseLine(parseDate: string -> Option<int>, md: LogMetadata, line: string): (entry: LogLine)
    ensures entry.0 == "NaN" <==> parseDate(TimestampText(line)).None?
    ensures entry.1 == EnvelopePrefix(md) + EscapeString(MessageText(line)) + EnvelopeSuffix
    ensures ExtractMessage(md, entry.1) == Some(MessageText(line))
  {
    (TimestampString(parseDate(TimestampText(line))), EntryMessage(md, MessageText(line)))
  }

  /** The lines that are not empty, in their order. */
  function NonEmptyLines(lines: seq<string>): seq<string>
    decreases |lines|
  {
    if lines == [] then []
    else
      var init := NonEmptyLines(lines[..|lines| - 1]);
      if lines[|lines| - 1] == "" then init else init + [lines[|lines| - 1]]
  }

  /** The entries for `lines`: one per non-empty line, in order. */
  function ParsedLogLines(parseDate: string -> Option<int>, md: LogMetadata, lines: seq<string>): seq<LogLine>
    decreases |lines|
  {
    if lines == [] then []
    else
      var init := ParsedLogLines(parseDate, md, lines[..|lines| - 1]);
      var line := lines[|lines| - 1];
      if line == "" then init else init + [ParseLine(parseDate, md, line)]
  }

  /**
   * Filtering drops exactly the empty lines: no empty line is left and every
   * other line is kept as often as it occurs.
   */
  lemma {:induction false} NonEmptyLinesFilter(lines: seq<string>)
    ensures var kept := NonEmptyLines(lines);
      && multiset(kept)[""] == 0
      && forall line :: line != "" ==> multiset(kept)[line] == multiset(lines)[line]
    decreases |lines|
  {
    if lines != [] {
      var init := lines[..|lines| - 1];
      NonEmptyLinesFilter(init);
      assert lines == init + [lines[|lines| - 1]];
    }
  }

  /** Every kept line is non-empty. */
  lemma NonEmptyLineAt(lines: seq<string>, k: nat)
    requires k < |NonEmptyLines(lines)|
    ensures NonEmptyLines(lines)[k] != ""
  {
    NonEmptyLinesFilter(lines);
    assert NonEmptyLines(lines)[k] in multiset(NonEmptyLines(lines));
  }

  /** A log without empty lines keeps every line. */
  lemma {:induction false} NonEmptyLinesAll(lines: seq<string>)
    requires forall k :: 0 <= k < |lines| ==> lines[k] != ""
    ensures NonEmptyLines(lines) == lines
    decreases |lines|
  {
    if lines != [] {
      var init := lines[..|lines| - 1];
      NonEmptyLinesAll(init);
      assert lines == init + [lines[|lines| - 1]];
    }
  }

  /** `ParseLine` with the date parser and the metadata fixed, as one function of the line. */
  function LineParser(parseDate: string -> Option<int>, md: LogMetadata): string -> LogLine {
    line => ParseLine(parseDate, md, line)
  }

  /** The entries are the non-empty lines mapped through `ParseLine`. */
  lemma {:induction false} ParsedLogLinesMap(parseDate: string -> Option<int>, md: LogMetadata, lines: seq<string>)
    ensures ParsedLogLines(parseDate, md, lines) == Map(LineParser(parseDate, md), NonEmptyLines(lines))
    decreases |lines|
  {
    if lines != [] {
      var init := lines[..|lines| - 1];
      ParsedLogLinesMap(parseDate, md, init);
      if lines[|lines| - 1] != "" {
        MapAppendOne(LineParser(parseDate, md), NonEmptyLines(init), lines[|lines| - 1]);
      }
    }
  }

  /**
   * The entries are the non-empty lines, each parsed on its own: as many entries
   * as non-empty lines, in their order, none dropped for a bad timestamp.
   */
  lemma ParsedLogLinesEach(parseDate: string -> Option<int>, md: LogMetadata, lines: seq<string>)
    ensures var parsed, kept := ParsedLogLines(parseDate, md, lines), NonEmptyLines(lines);
      && |parsed| == |kept|
      && forall i :: 0 <= i < |parsed| ==> parsed[i] == ParseLine(parseDate, md, kept[i])
  {
    var kept := NonEmptyLines(lines);
    ParsedLogLinesMap(parseDate, md, lines);
    forall i | 0 <= i < |kept| ensures Map(LineParser(parseDate, md), kept)[i] == ParseLine(parseDate, md, kept[i]) {
      MapAt(LineParser(parseDate, md), kept, i);
    }
  }

  /** `parseLogLines`: skip the empty lines and turn each other line into its entry. */
  method ParseLogLines(parseDate: string -> Option<int>, logLines: seq<string>, md: LogMetadata)
    returns (parsedLogLines: seq<LogLine>)
    ensures parsedLogLines == ParsedLogLines(parseDate, md, logLines)
  {
    parsedLogLines := [];
    for i := 0 to |logLines|
      invariant parsedLogLines == ParsedLogLines(parseDate, md, logLines[..i])
    {
      assert logLines[..i + 1][..i] == logLines[..i];
      var logLine := logLines[i];
      if logLine != "" {
        var timestamp := TimestampText(logLine);
        var message := MessageText(logLine);
        var unixTimestamp := TimestampString(parseDate(timestamp));
        var metadataMessage := EntryMessage(md, message);
        parsedLogLines := parsedLogLines + [(unixTimestamp, metadataMessage)];
      }
    }
    assert logLines[..|logLines|] == logLines;
  }

  // ===========================================================================
  // One Loki stream per job

  /** The `env` label of every stream. */
  const StreamEnv: string := "github-actions"

  /** The labels of a Loki stream. */
  datatype LogStream = LogStream(env: string, githubOwner: string, githubRepo: string, githubWorkflowId: string)

  /** One stream with its entries, as a Loki push request lists it. */
  datatype LokiRequestBody = LokiRequestBody(stream: LogStream, values: seq<LogLine>)

  /**
   * `generateLokiLogPayloads`: the entries unchanged, under the labels of the
   * environment, the repository and the run's workflow.
   */
  function GenerateLokiLogPayloads(ctx: RepoContext, workflowRunJobs: WorkflowRunJobs, parsedLogLines: seq<LogLine>)
    : (lokiLog: LokiRequestBody)
    ensures lokiLog.values == parsedLogLines
    ensures lokiLog.stream.env == StreamEnv
    ensures lokiLog.stream.githubOwner == ctx.owner && lokiLog.stream.githubRepo == ctx.repo
    ensures lokiLog.stream.githubWorkflowId == NatToString(workflowRunJobs.workflowRun.workflowId)
    ensures AllDigits(lokiLog.stream.githubWorkflowId)
    ensures ParseNat(lokiLog.stream.githubWorkflowId) == workflowRunJobs.workflowRun.workflowId
  {
    ParseNatToString(workflowRunJobs.workflowRun.workflowId);
    var stream := LogStream(StreamEnv, ctx.owner, ctx.repo, NatToString(workflowRunJobs.workflowRun.workflowId));
    LokiRequestBody(stream, parsedLogLines)
  }

  /**
   * The Loki body `getLogsForWorkflowRunJobs` makes for `job`: the run's labels,
   * whatever the job, and one entry per non-empty line of the job's log.
   */
  function JobLogBody(logUrl: LogRequest -> string, getBody: string -> LogBody, parseDate: string -> Option<int>,
                      ctx: RepoContext, runId: nat, workflowRunJobs: WorkflowRunJobs, traceId: string,
                      job: WorkflowRunJob): (body: LokiRequestBody)
    ensures body.stream == LogStream(StreamEnv, ctx.owner, ctx.repo, NatToString(workflowRunJobs.workflowRun.workflowId))
    ensures |body.values| == |NonEmptyLines(LogLinesOf(FetchedLog(logUrl, getBody, ctx, runId, job)))|
  {
    var lines := LogLinesOf(FetchedLog(logUrl, getBody, ctx, runId, job));
    var md := GenerateLogMetadata(workflowRunJobs, job, traceId);
    ParsedLogLinesEach(parseDate, md, lines);
    GenerateLokiLogPayloads(ctx, workflowRunJobs, ParsedLogLines(parseDate, md, lines))
  }

  /** The Loki bodies for `jobs`, one per job, in job order. */
  function JobLogBodies(logUrl: LogRequest -> string, getBody: string -> LogBody, parseDate: string -> Option<int>,
                        ctx: RepoContext, runId: nat, workflowRunJobs: WorkflowRunJobs, traceId: string,
                        jobs: seq<WorkflowRunJob>): seq<LokiRequestBody>
  {
    Map(job => JobLogBody(logUrl, getBody, parseDate, ctx, runId, workflowRunJobs, traceId, job), jobs)
  }

  /** One more job adds its body, built from its log lines, metadata and entries. */
  lemma JobLogBodiesSnoc(logUrl: LogRequest -> string, getBody: string -> LogBody, parseDate: string -> Option<int>,
                         ctx: RepoContext, runId: nat, workflowRunJobs: WorkflowRunJobs, traceId: string,
                         jobs: seq<WorkflowRunJob>, i: nat, lokiLog: LokiRequestBody)
    requires i < |jobs|
    requires lokiLog == GenerateLokiLogPayloads(ctx, workflowRunJobs,
      ParsedLogLines(parseDate, GenerateLogMetadata(workflowRunJobs, jobs[i], traceId),
                     LogLinesOf(FetchedLog(logUrl, getBody, ctx, runId, jobs[i]))))
    ensures JobLogBodies(logUrl, getBody, parseDate, ctx, runId, workflowRunJobs, traceId, jobs[..i + 1])
         == JobLogBodies(logUrl, getBody, parseDate, ctx, runId, workflowRunJobs, traceId, jobs[..i]) + [lokiLog]
  {
    MapSnoc(job => JobLogBody(logUrl, getBody, parseDate, ctx, runId, workflowRunJobs, traceId, job), jobs, i);
  }

  /** Body `i` is the body of job `i`: one per job, in job order. */
  lemma JobLogBodyAt(logUrl: LogRequest -> string, getBody: string -> LogBody,
                     parseDate: string -> Option<int>, ctx: RepoContext, runId: nat,
                     workflowRunJobs: WorkflowRunJobs, traceId: string,
                     jobs: seq<WorkflowRunJob>, i: nat)
    requires i < |jobs|
    ensures var bodies := JobLogBodies(logUrl, getBody, parseDate, ctx, runId, workflowRunJobs, traceId, jobs);
      && |bodies| == |jobs|
      && bodies[i] == JobLogBody(logUrl, getBody, parseDate, ctx, runId, workflowRunJobs, traceId, jobs[i])
  {
    MapAt(job => JobLogBody(logUrl, getBody, parseDate, ctx, runId, workflowRunJobs, traceId, job), jobs, i);
  }

  /** The failures the logs of `jobs` cause, job by job. */
  function JobsFailures(logUrl: LogRequest -> string, getBody: string -> LogBody, ctx: RepoContext, runId: nat,
                        jobs: seq<WorkflowRunJob>): seq<string>
    decreases |jobs|
  {
    if jobs == [] then []
    else JobsFailures(logUrl, getBody, ctx, runId, jobs[..|jobs| - 1])
         + BodyFailures(FetchedLog(logUrl, getBody, ctx, runId, jobs[|jobs| - 1]))
  }

  lemma JobsFailuresSnoc(logUrl: LogRequest -> string, getBody: string -> LogBody, ctx: RepoContext, runId: nat,
                         jobs: seq<WorkflowRunJob>, i: nat)
    requires i < |jobs|
    ensures JobsFailures(logUrl, getBody, ctx, runId, jobs[..i + 1])
         == JobsFailures(logUrl, getBody, ctx, runId, jobs[..i]) + BodyFailures(FetchedLog(logUrl, getBody, ctx, runId, jobs[i]))
  {
    assert jobs[..i + 1][..i] == jobs[..i];
  }

  lemma AppendAssociative(a: seq<string>, b: seq<string>, c: seq<string>)
    ensures a + b + c == a + (b + c)
  {
  }

  /**
   * `getLogsForWorkflowRunJobs`: one Loki body per job of the run, in job order;
   * each job's log that is not text adds one failure.
   */
  method GetLogsForWorkflowRunJobs(status: ActionStatus, logUrl: LogRequest -> string, getBody: string -> LogBody,
                                   parseDate: string -> Option<int>, ctx: RepoContext, runId: nat,
                                   workflowRunJobs: WorkflowRunJobs, traceId: string)
    returns (logData: seq<LokiRequestBody>)
    modifies status
    ensures logData == JobLogBodies(logUrl, getBody, parseDate, ctx, runId, workflowRunJobs, traceId, workflowRunJobs.jobs)
    ensures status.failures == old(status.failures) + JobsFailures(logUrl, getBody, ctx, runId, workflowRunJobs.jobs)
  {
    var jobs := workflowRunJobs.jobs;
    logData := [];
    for i := 0 to |jobs|
      invariant logData == JobLogBodies(logUrl, getBody, parseDate, ctx, runId, workflowRunJobs, traceId, jobs[..i])
      invariant status.failures == old(status.failures) + JobsFailures(logUrl, getBody, ctx, runId, jobs[..i])
    {
      var job := jobs[i];
      var logLines := DownloadLogs(status, logUrl, getBody, ctx, runId, job);
      JobsFailuresSnoc(logUrl, getBody, ctx, runId, jobs, i);
      assert status.failures == old(status.failures) + JobsFailures(logUrl, getBody, ctx, runId, jobs[..i + 1]) by {
        AppendAssociative(old(status.failures), JobsFailures(logUrl, getBody, ctx, runId, jobs[..i]),
                          BodyFailures(FetchedLog(logUrl, getBody, ctx, runId, job)));
      }
      var metadata := GenerateLogMetadata(workflowRunJobs, job, traceId);
      var parsedLogLines := ParseLogLines(parseDate, logLines, metadata);
      var lokiLog := GenerateLokiLogPayloads(ctx, workflowRunJobs, parsedLogLines);
      JobLogBodiesSnoc(logUrl, getBody, parseDate, ctx, runId, workflowRunJobs, traceId, jobs, i, lokiLog);
      logData := logData + [lokiLog];
    }
    assert jobs[..|jobs|] == jobs;
  }

  /** The bodies of all jobs of a run carry the same labels. */
  lemma JobStreamsAgree(logUrl: LogRequest -> string, getBody: string -> LogBody, parseDate: string -> Option<int>,
                        ctx: RepoContext, runId: nat, workflowRunJobs: WorkflowRunJobs, traceId: string,
                        job1: WorkflowRunJob, job2: WorkflowRunJob)
    ensures JobLogBody(logUrl, getBody, parseDate, ctx, runId, workflowRunJobs, traceId, job1).stream
         == JobLogBody(logUrl, getBody, parseDate, ctx, runId, workflowRunJobs, traceId, job2).stream
  {
  }

  /**
   * Entry `k` of a job's body is the `k`-th non-empty line of its log: its
   * timestamp is that line's, and its message is the job's envelope, which holds
   * the trace id, around the line's message, which can be read back out.
   */
  lemma JobEntryCorrelated(logUrl: LogRequest -> string, getBody: string -> LogBody, parseDate: string -> Option<int>,
                           ctx: RepoContext, runId: nat, workflowRunJobs: WorkflowRunJobs, traceId: string,
                           job: WorkflowRunJob, k: nat)
    requires k < |JobLogBody(logUrl, getBody, parseDate, ctx, runId, workflowRunJobs, traceId, job).values|
    ensures var kept := NonEmptyLines(LogLinesOf(FetchedLog(logUrl, getBody, ctx, runId, job)));
      var md := GenerateLogMetadata(workflowRunJobs, job, traceId);
      var entry := JobLogBody(logUrl, getBody, parseDate, ctx, runId, workflowRunJobs, traceId, job).values[k];
      && k < |kept| && kept[k] != ""
      && md.traceId == traceId
      && entry.0 == TimestampString(parseDate(TimestampText(kept[k])))
      && entry.1 == EnvelopePrefix(md) + EscapeString(MessageText(kept[k])) + EnvelopeSuffix
      && ExtractMessage(md, entry.1) == Some(MessageText(kept[k]))
  {
    var lines := LogLinesOf(FetchedLog(logUrl, getBody, ctx, runId, job));
    var md := GenerateLogMetadata(workflowRunJobs, job, traceId);
    var kept := NonEmptyLines(lines);
    ParsedLogLinesEach(parseDate, md, lines);
    NonEmptyLineAt(lines, k);
  }

  /** The action fails while collecting logs exactly when some job's log is not text. */
  lemma {:induction false} JobsFailuresWhenNotText(logUrl: LogRequest -> string, getBody: string -> LogBody,
                                                  ctx: RepoContext, runId: nat, jobs: seq<WorkflowRunJob>)
    ensures JobsFailures(logUrl, getBody, ctx, runId, jobs) != []
        <==> exists i :: 0 <= i < |jobs| && FetchedLog(logUrl, getBody, ctx, runId, jobs[i]).OtherBody?
    decreases |jobs|
  {
    if jobs != [] {
      var init := jobs[..|jobs| - 1];
      JobsFailuresWhenNotText(logUrl, getBody, ctx, runId, init);
      if exists i :: 0 <= i < |init| && FetchedLog(logUrl, getBody, ctx, runId, init[i]).OtherBody? {
        var i :| 0 <= i < |init| && FetchedLog(logUrl, getBody, ctx, runId, init[i]).OtherBody?;
        assert jobs[i] == init[i];
      }
      if exists i :: 0 <= i < |jobs| && FetchedLog(logUrl, getBody, ctx, runId, jobs[i]).OtherBody? {
        var i :| 0 <= i < |jobs| && FetchedLog(logUrl, getBody, ctx, runId, jobs[i]).OtherBody?;
        if i < |init| {
          assert init[i] == jobs[i];
        }
      }
    }
  }

  // ===========================================================================
  // Pushing the streams to Loki

  /** The status code with which Loki accepts a push. */
  const LokiAccepted: nat := 204

  /** One POST to Loki: the endpoint, the streams of the JSON body, and the headers. */
  datatype PushRequest = PushRequest(url: string, streams: seq<LokiRequestBody>, headers: map<string, string>)

  /** The request `exportLogsToLoki` sends for one body: that body as the only stream. */
  function PushFor(lokiEndpoint: string, lokiHeaders: string, logBody: LokiRequestBody): PushRequest {
    PushRequest(lokiEndpoint, [logBody], Headers.StringToHeader(lokiHeaders))
  }

  /** The failure reported for a rejected push. */
  function LokiFailureMessage(status: nat): string {
    "Submitting to loki failed... " + NatToString(status)
  }

  /** The failures the responses `codes` cause: one per code other than 204, in order. */
  function ExportFailures(codes: seq<nat>): seq<string>
    decreases |codes|
  {
    if codes == [] then []
    else
      var init := ExportFailures(codes[..|codes| - 1]);
      var code := codes[|codes| - 1];
      if code != LokiAccepted then init + [LokiFailureMessage(code)] else init
  }

  /** Request `k` of `sent` is the push of body `k`. */
  predicate SentInOrder(sent: seq<PushRequest>, lokiEndpoint: string, lokiHeaders: string, bodies: seq<LokiRequestBody>) {
    |sent| <= |bodies| && forall k :: 0 <= k < |sent| ==> sent[k] == PushFor(lokiEndpoint, lokiHeaders, bodies[k])
  }

  /** Code `k` is the answer to request `k`. */
  predicate Answered(codes: seq<nat>, sent: seq<PushRequest>, post: (nat, PushRequest) -> nat) {
    |codes| == |sent| && forall k :: 0 <= k < |codes| ==> codes[k] == post(k, sent[k])
  }

  lemma SentInOrderSnoc(sent: seq<PushRequest>, lokiEndpoint: string, lokiHeaders: string,
                        bodies: seq<LokiRequestBody>, request: PushRequest)
    requires SentInOrder(sent, lokiEndpoint, lokiHeaders, bodies) && |sent| < |bodies|
    requires request == PushFor(lokiEndpoint, lokiHeaders, bodies[|sent|])
    ensures SentInOrder(sent + [request], lokiEndpoint, lokiHeaders, bodies)
  {
  }

  lemma AnsweredSnoc(codes: seq<nat>, sent: seq<PushRequest>, post: (nat, PushRequest) -> nat,
                     request: PushRequest, code: nat)
    requires Answered(codes, sent, post) && code == post(|sent|, request)
    ensures Answered(codes + [code], sent + [request], post)
  {
  }

  /** One more response adds a failure exactly when it is not 204. */
  lemma ExportFailuresSnoc(codes: seq<nat>, code: nat)
    ensures ExportFailures(codes + [code])
         == ExportFailures(codes) + (if code != LokiAccepted then [LokiFailureMessage(code)] else [])
  {
    assert (codes + [code])[..|codes|] == codes;
  }

  /**
   * `exportLogsToLoki`: one POST per body, in order, each with that body as its
   * only stream; a response other than 204 fails the action and the loop goes
   * on. `post(i, request)` is the status code of the `i`-th push.
   */
  method ExportLogsToLoki(status: ActionStatus, post: (nat, PushRequest) -> nat,
                          lokiEndpoint: string, lokiHeaders: string, bodies: seq<LokiRequestBody>)
    returns (sent: seq<PushRequest>, codes: seq<nat>)
    modifies status
    ensures |sent| == |bodies| && |codes| == |bodies|
    ensures forall i :: 0 <= i < |bodies| ==> sent[i] == PushFor(lokiEndpoint, lokiHeaders, bodies[i])
    ensures forall i :: 0 <= i < |bodies| ==> codes[i] == post(i, sent[i])
    ensures status.failures == old(status.failures) + ExportFailures(codes)
  {
    sent := [];
    codes := [];
    for i := 0 to |bodies|
      invariant |sent| == i
      invariant SentInOrder(sent, lokiEndpoint, lokiHeaders, bodies)
      invariant Answered(codes, sent, post)
      invariant status.failures == old(status.failures) + ExportFailures(codes)
    {
      var requestBody := PushRequest(lokiEndpoint, [bodies[i]], Headers.StringToHeader(lokiHeaders));
      var lokiResponse := post(i, requestBody);
      SentInOrderSnoc(sent, lokiEndpoint, lokiHeaders, bodies, requestBody);
      AnsweredSnoc(codes, sent, post, requestBody, lokiResponse);
      sent := sent + [requestBody];
      ExportFailuresSnoc(codes, lokiResponse);
      codes := codes + [lokiResponse];
      if lokiResponse != LokiAccepted {
        status.SetFailed(LokiFailureMessage(lokiResponse));
      }
    }
  }

  /** The export fails the action exactly when some push is not answered with 204. */
  lemma {:induction false} ExportFailuresWhenRejected(codes: seq<nat>)
    ensures ExportFailures(codes) != [] <==> exists i :: 0 <= i < |codes| && codes[i] != LokiAccepted
    decreases |codes|
  {
    if codes != [] {
      var init := codes[..|codes| - 1];
      ExportFailuresWhenRejected(init);
      if exists i :: 0 <= i < |init| && init[i] != LokiAccepted {
        var i :| 0 <= i < |init| && init[i] != LokiAccepted;
        assert codes[i] == init[i];
      }
      if exists i :: 0 <= i < |codes| && codes[i] != LokiAccepted {
        var i :| 0 <= i < |codes| && codes[i] != LokiAccepted;
        if i < |init| {
          assert init[i] == codes[i];
        }
      }
    }
  }

  /** The export reports one failure per push not answered with 204. */
  lemma {:induction false} ExportFailuresCount(codes: seq<nat>)
    ensures |ExportFailures(codes)| == |codes| - multiset(codes)[LokiAccepted]
    decreases |codes|
  {
    if codes != [] {
      var init := codes[..|codes| - 1];
      ExportFailuresCount(init);
      assert codes == init + [codes[|codes| - 1]];
    }
  }
}
