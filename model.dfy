/** The stored document and its embedded value objects. */
module Model {
  import opened Wrappers

  /** A `java.time.Instant`, as an opaque point on the time line. */
  type Instant = int

  /** Environment metadata embedded in a stored result; every field may be null. */
  datatype EnvironmentInfo = EnvironmentInfo(
    name: Option<string>,
    browser: Option<string>,
    browserVersion: Option<string>,
    os: Option<string>,
    buildNumber: Option<string>)

  /** One failure of a test method (several for soft assertions). */
  datatype FailureDetail = FailureDetail(
    errorMessage: Option<string>,
    stackTrace: Option<string>,
    screenshotUrl: Option<string>,
    logs: Option<seq<string>>)

  /**
   * One document of the `testMethodResults` collection. `id` is the store key,
   * null until the store assigns one; `durationMs` is a primitive `long` and so
   * is never null.
   */
  datatype TestMethodResult = TestMethodResult(
    id: Option<string>,
    runId: Option<string>,
    iata: Option<string>,
    suiteType: Option<string>,
    featureName: Option<string>,
    methodName: Option<string>,
    className: Option<string>,
    status: Option<string>,
    assertType: Option<string>,
    startTime: Option<Instant>,
    endTime: Option<Instant>,
    durationMs: int,
    jiraTestCases: Option<seq<string>>,
    environment: Option<EnvironmentInfo>,
    logs: Option<seq<string>>,
    screenshotUrls: Option<seq<string>>,
    failures: Option<seq<FailureDetail>>)
}
