/** The request and response bodies the controller exchanges with clients. */
module Dto {
  import opened Wrappers
  import opened Model

  datatype EnvironmentInfoDto = EnvironmentInfoDto(
    name: Option<string>,
    browser: Option<string>,
    browserVersion: Option<string>,
    os: Option<string>,
    buildNumber: Option<string>)

  datatype FailureDetailDto = FailureDetailDto(
    errorMessage: Option<string>,
    stackTrace: Option<string>,
    screenshotUrl: Option<string>,
    logs: Option<seq<string>>)

  /** The body of a create request: every stored field except `id` and `iata`. */
  datatype TestMethodResultRequest = TestMethodResultRequest(
    runId: Option<string>,
    suiteType: Option<string>,
    featureName: Option<string>,
    methodName: Option<string>,
    className: Option<string>,
    status: Option<string>,
    assertType: Option<string>,
    startTime: Option<Instant>,
    endTime: Option<Instant>,
    durationMs: int,
    jiraTestCases: Option<seq<string>>,
    environment: Option<EnvironmentInfoDto>,
    logs: Option<seq<string>>,
    screenshotUrls: Option<seq<string>>,
    failures: Option<seq<FailureDetailDto>>)

  /** One result as returned to clients: every stored field. */
  datatype TestMethodResultResponse = TestMethodResultResponse(
    id: Option<string>,
    runId: Option<string>,
    iata: Option<string>,
    suiteType: Option<string>,
    featureName: Option<string>,
    methodName: Option<string>,
    className: Option<string>,
    status: Option<string>,
    assertType: Option<string>,
    startTime: Option<Instant>,
    endTime: Option<Instant>,
    durationMs: int,
    jiraTestCases: Option<seq<string>>,
    environment: Option<EnvironmentInfoDto>,
    logs: Option<seq<string>>,
    screenshotUrls: Option<seq<string>>,
    failures: Option<seq<FailureDetailDto>>)
}
