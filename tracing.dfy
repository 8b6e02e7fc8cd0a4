/**
 * The trace side of the action, as far as it is the action's own logic: the
 * resource attributes the tracer provider describes the run with, the choice of
 * span exporter, and the message the global error handler fails the action with.
 * The header string of the OTLP exporter is parsed by `Headers.StringToHeader`,
 * the same parser the log exporter uses.
 */
module Tracing {
  import opened Wrappers
  import opened Text
  import opened GitHub
  import opened ActionsCore
  import Headers

  // ===========================================================================
  // Resource attributes

  /** A string JavaScript treats as true: present and not empty. */
  predicate Truthy(s: Option<string>) {
    s.Some? && s.value != ""
  }

  /**
   * `otelServiceName || workflowRun.name || `${workflowRun.workflow_id}``: the
   * override, else the run name, else the workflow id in decimal. The name is
   * never empty, and it is always one of the three.
   */
  function ServiceName(otelServiceName: Option<string>, run: WorkflowRun): (name: string)
    ensures name != ""
    ensures otelServiceName == Some(name) || run.name == Some(name) || name == NatToString(run.workflowId)
  {
    if Truthy(otelServiceName) then otelServiceName.value
    else if Truthy(run.name) then run.name.value
    else NatToString(run.workflowId)
  }

  /**
   * The fallback chain: a non-empty override wins; without one a non-empty run
   * name wins; without either the name is the workflow id, which reads back from
   * it. The name is never empty.
   */
  lemma ServiceNameChoice(otelServiceName: Option<string>, run: WorkflowRun)
    ensures var name := ServiceName(otelServiceName, run);
      && name != ""
      && (Truthy(otelServiceName) ==> name == otelServiceName.value)
      && (!Truthy(otelServiceName) && Truthy(run.name) ==> name == run.name.value)
      && (!Truthy(otelServiceName) && !Truthy(run.name) ==> name == NatToString(run.workflowId))
      && (!Truthy(otelServiceName) && !Truthy(run.name) ==> AllDigits(name) && ParseNat(name) == run.workflowId)
  {
    ParseNatToString(run.workflowId);
  }

  /** An empty override is no override: the name falls through to the run. */
  lemma EmptyOverrideFallsThrough(run: WorkflowRun)
    ensures ServiceName(Some(""), run) == ServiceName(None, run)
  {
  }

  /** The separator of the instance id's segments. */
  const InstanceIdSeparator: string := "/"

  /** How `Array.prototype.join` writes the run attempt: "" when it is missing. */
  function AttemptSegment(attempt: Option<nat>): string {
    match attempt
    case None => ""
    case Some(a) => NatToString(a)
  }

  /** The four segments of the instance id, in order. */
  function InstanceIdSegments(run: WorkflowRun): seq<string> {
    [run.repositoryFullName, NatToString(run.workflowId), NatToString(run.id), AttemptSegment(run.runAttempt)]
  }

  /**
   * `[full_name, workflow_id, id, run_attempt].join("/")`. Splitting it on "/"
   * gives the pieces of the repository's full name followed by the workflow id,
   * the run id and the attempt: the last three segments always come back, the
   * attempt empty when it is missing.
   */
  function ServiceInstanceId(run: WorkflowRun): (id: string)
    ensures Split(id, InstanceIdSeparator)
         == Split(run.repositoryFullName, InstanceIdSeparator)
            + [NatToString(run.workflowId), NatToString(run.id), AttemptSegment(run.runAttempt)]
  {
    SplitFourSegments(run.repositoryFullName, NatToString(run.workflowId), NatToString(run.id), AttemptSegment(run.runAttempt));
    Join(InstanceIdSegments(run), InstanceIdSeparator)
  }

  /** Joining a string and three digit strings with "/" and splitting again keeps the three. */
  lemma SplitFourSegments(a: string, b: string, c: string, d: string)
    requires AllDigits(b) && AllDigits(c) && AllDigits(d)
    ensures Split(Join([a, b, c, d], InstanceIdSeparator), InstanceIdSeparator)
         == Split(a, InstanceIdSeparator) + [b, c, d]
  {
    var sep := InstanceIdSeparator;
    JoinFour(a, b, c, d, sep);
    SeparatorNoSelfOverlap();
    DigitsHaveNoSeparator(b);
    DigitsHaveNoSeparator(c);
    DigitsHaveNoSeparator(d);
    SplitAround(a, sep, b + sep + (c + sep + d));
    SplitHead(b, sep, c + sep + d);
    SplitHead(c, sep, d);
    SplitNoSeparator(d, sep);
  }

  lemma JoinFour(a: string, b: string, c: string, d: string, sep: string)
    ensures Join([a, b, c, d], sep) == a + sep + (b + sep + (c + sep + d))
  {
    assert [c, d][1..] == [d];
    assert Join([c, d], sep) == c + sep + d;
    assert [b, c, d][1..] == [c, d];
    assert Join([b, c, d], sep) == b + sep + (c + sep + d);
    assert [a, b, c, d][1..] == [b, c, d];
  }

  lemma DigitsHaveNoSeparator(s: string)
    requires AllDigits(s)
    ensures !Contains(s, InstanceIdSeparator)
  {
    NoLeadCharNoContains(s, InstanceIdSeparator);
  }

  lemma SeparatorNoSelfOverlap()
    ensures |InstanceIdSeparator| == 1 && NoSelfOverlap(InstanceIdSeparator)
  {
  }

  /** The workflow id, the run id and the attempt can be read back from the instance id. */
  lemma ServiceInstanceIdReadsBack(run: WorkflowRun)
    ensures var segments := Split(ServiceInstanceId(run), InstanceIdSeparator);
      && |segments| >= 4
      && AllDigits(segments[|segments| - 3]) && ParseNat(segments[|segments| - 3]) == run.workflowId
      && AllDigits(segments[|segments| - 2]) && ParseNat(segments[|segments| - 2]) == run.id
      && (segments[|segments| - 1] == "" <==> run.runAttempt.None?)
      && (run.runAttempt.Some? ==> AllDigits(segments[|segments| - 1]) && ParseNat(segments[|segments| - 1]) == run.runAttempt.value)
  {
    ParseNatToString(run.workflowId);
    ParseNatToString(run.id);
    if run.runAttempt.Some? {
      ParseNatToString(run.runAttempt.value);
    }
  }

  /** The four attributes of the tracer provider's resource. */
  datatype TraceResource = TraceResource(
    serviceName: string,
    serviceInstanceId: string,
    serviceNamespace: string,
    serviceVersion: string)

  /**
   * The resource `createTracerProvider` builds: the service name and instance id
   * derived above, the repository's full name as namespace and the commit as
   * version, both unchanged.
   */
  function ResourceOf(workflowRunJobs: WorkflowRunJobs, otelServiceName: Option<string>): (resource: TraceResource)
    ensures resource.serviceNamespace == workflowRunJobs.workflowRun.repositoryFullName
    ensures resource.serviceVersion == workflowRunJobs.workflowRun.headSha
    ensures resource.serviceName == ServiceName(otelServiceName, workflowRunJobs.workflowRun)
    ensures resource.serviceInstanceId == ServiceInstanceId(workflowRunJobs.workflowRun)
    ensures resource.serviceName != ""
    ensures |Split(resource.serviceInstanceId, InstanceIdSeparator)| >= 4
  {
    var run := workflowRunJobs.workflowRun;
    ServiceNameChoice(otelServiceName, run);
    ServiceInstanceIdReadsBack(run);
    TraceResource(ServiceName(otelServiceName, run), ServiceInstanceId(run), run.repositoryFullName, run.headSha)
  }

  // ===========================================================================
  // The span exporter

  /** Where spans go: printed on the console, or sent to an OTLP endpoint with headers. */
  datatype SpanExporter = ConsoleSpanExporter | OtlpTraceExporter(url: string, headers: map<string, string>)

  /** The value of `OTEL_CONSOLE_ONLY` that keeps spans on the console. */
  const ConsoleOnlyValue: string := "true"

  /**
   * The exporter `createTracerProvider` installs, given the `OTEL_CONSOLE_ONLY`
   * environment variable (None when unset): the console only for exactly "true",
   * otherwise OTLP to the endpoint with the parsed header string.
   */
  function ChooseExporter(consoleOnlyEnv: Option<string>, otlpEndpoint: string, otlpHeaders: string): (exporter: SpanExporter)
    ensures exporter.ConsoleSpanExporter? <==> consoleOnlyEnv == Some(ConsoleOnlyValue)
    ensures exporter.OtlpTraceExporter? ==> exporter.url == otlpEndpoint
    ensures exporter.OtlpTraceExporter? ==> exporter.headers == Headers.StringToHeader(otlpHeaders)
  {
    var consoleOnly := consoleOnlyEnv == Some(ConsoleOnlyValue);
    if consoleOnly then ConsoleSpanExporter
    else OtlpTraceExporter(otlpEndpoint, Headers.StringToHeader(otlpHeaders))
  }

  /** The OTLP exporter sends a header exactly when some item of the header string sets it. */
  lemma OtlpHeaderKeys(consoleOnlyEnv: Option<string>, otlpEndpoint: string, otlpHeaders: string, key: string)
    requires consoleOnlyEnv != Some(ConsoleOnlyValue)
    ensures var exporter := ChooseExporter(consoleOnlyEnv, otlpEndpoint, otlpHeaders);
      && exporter.OtlpTraceExporter?
      && (key in exporter.headers <==> Headers.SetsKey(Split(otlpHeaders, Headers.ItemSeparator), key))
  {
    Headers.StringToHeaderKeys(otlpHeaders, key);
  }

  /** The OTLP exporter sends a header with the value of the last item that sets it. */
  lemma OtlpHeaderValues(consoleOnlyEnv: Option<string>, otlpEndpoint: string, otlpHeaders: string,
                         i: nat, key: string, value: string)
    requires consoleOnlyEnv != Some(ConsoleOnlyValue)
    requires i < |Split(otlpHeaders, Headers.ItemSeparator)|
    requires Headers.HeaderItem(Split(otlpHeaders, Headers.ItemSeparator)[i]) == Some((key, value))
    requires Headers.LastToSet(Split(otlpHeaders, Headers.ItemSeparator), i, key)
    ensures var exporter := ChooseExporter(consoleOnlyEnv, otlpEndpoint, otlpHeaders);
      && exporter.OtlpTraceExporter?
      && key in exporter.headers && exporter.headers[key] == value
  {
    Headers.StringToHeaderLastWins(otlpHeaders, i, key, value);
  }

  // ===========================================================================
  // The global error handler

  /** What the OpenTelemetry error handler receives: a string, or an error whose message may be missing. */
  datatype Exception = StringException(text: string) | ErrorException(message: Option<string>)

  /** The message used for an error without one. */
  const NoErrorMessage: string := "no error message, check logs"

  /**
   * The message the handler fails the action with: the string itself, or the
   * error's message, or the default only when the message is missing.
   */
  function ErrorHandlerMessage(ex: Exception): (message: string)
    ensures ex.StringException? ==> message == ex.text
    ensures ex.ErrorException? && ex.message.Some? ==> message == ex.message.value
    ensures ex == ErrorException(None) ==> message == NoErrorMessage
  {
    match ex
    case StringException(text) => text
    case ErrorException(m) =>
      match m
      case Some(text) => text
      case None => NoErrorMessage
  }

  /**
   * The handler's message is empty exactly for an empty string or an error with
   * an empty message: the default replaces only a missing message.
   */
  lemma ErrorHandlerMessageEmpty(ex: Exception)
    ensures ErrorHandlerMessage(ex) == "" <==> ex == StringException("") || ex == ErrorException(Some(""))
  {
    assert NoErrorMessage != "" by {
      assert |NoErrorMessage| > 0;
    }
  }

  /** The global error handler: fail the action with the chosen message. */
  method HandleGlobalError(status: ActionStatus, ex: Exception)
    modifies status
    ensures status.failures == old(status.failures) + [ErrorHandlerMessage(ex)]
    ensures status.Failed()
  {
    if ex.StringException? {
      status.SetFailed(ex.text);
    } else {
      var message := if ex.message.Some? then ex.message.value else NoErrorMessage;
      status.SetFailed(message);
    }
  }
}
