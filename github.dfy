/**
 * The GitHub records the action reads, reduced to the fields the telemetry core
 * uses, and the shapes of the REST requests and responses it exchanges. Numbers
 * that may be absent in the API (`run_attempt`) and strings that may be null
 * (`name`) are optional.
 */
module GitHub {
  import opened Wrappers

  /** `context.repo`: the repository the action runs in. */
  datatype RepoContext = RepoContext(owner: string, repo: string)

  /** A workflow run, as far as the logs and the trace resource need it. */
  datatype WorkflowRun = WorkflowRun(
    id: nat,
    name: Option<string>,
    workflowId: nat,
    repositoryFullName: string,
    headSha: string,
    runAttempt: Option<nat>)

  /** One job of a run. */
  datatype WorkflowRunJob = WorkflowRunJob(id: nat, runAttempt: Option<nat>)

  /** A run together with its jobs, as the action collects them before exporting. */
  datatype WorkflowRunJobs = WorkflowRunJobs(workflowRun: WorkflowRun, jobs: seq<WorkflowRunJob>)

  /** The arguments of one `listJobsForWorkflowRun` call. */
  datatype ListJobsRequest = ListJobsRequest(
    owner: string, repo: string, runId: nat, filter: string, page: nat, perPage: nat)

  /** The data of one `listJobsForWorkflowRun` response. */
  datatype JobsPage = JobsPage(jobs: seq<WorkflowRunJob>, totalCount: nat)

  /** The arguments of one `downloadJobLogsForWorkflowRun` call. */
  datatype LogRequest = LogRequest(owner: string, repo: string, runId: nat, jobId: nat)

  /** The `typeof` name of a value that is not a string. */
  type NonStringTypeName = name: string | name != "string" witness "object"

  /**
   * The data of the GET on the log URL: a text body, or anything else, of which
   * only its `typeof` name is kept.
   */
  datatype LogBody = TextBody(text: string) | OtherBody(typeName: NonStringTypeName)
}
