/**
 * Field-for-field translation between the request/response bodies and the
 * stored entity. Null stays null in both directions; lists are shared, so
 * their contents are carried over unchanged.
 */
module ControllerMapper {
  import opened Wrappers
  import opened Model
  import opened Dto

  /** Builds the entity to store from a create request and the `{iata}` path segment. */
  function ToEntity(iata: string, request: TestMethodResultRequest): (e: TestMethodResult)
    ensures e.id == None
    ensures e.iata == Some(iata)
  {
    TestMethodResult(
      None, request.runId, Some(iata), request.suiteType, request.featureName,
      request.methodName, request.className, request.status, request.assertType,
      request.startTime, request.endTime, request.durationMs, request.jiraTestCases,
      ToEnvironment(request.environment), request.logs, request.screenshotUrls,
      ToFailures(request.failures))
  }

  /** Builds the response body for a stored entity. */
  function ToResponse(entity: TestMethodResult): (r: TestMethodResultResponse)
    ensures r.id == entity.id && r.iata == entity.iata
  {
    TestMethodResultResponse(
      entity.id, entity.runId, entity.iata, entity.suiteType, entity.featureName,
      entity.methodName, entity.className, entity.status, entity.assertType,
      entity.startTime, entity.endTime, entity.durationMs, entity.jiraTestCases,
      ToEnvironmentDto(entity.environment), entity.logs, entity.screenshotUrls,
      ToFailureDtos(entity.failures))
  }

  function ToEnvironment(dto: Option<EnvironmentInfoDto>): (r: Option<EnvironmentInfo>)
    ensures r.None? <==> dto.None?
    ensures r.Some? ==>
      && r.value.name == dto.value.name && r.value.browser == dto.value.browser
      && r.value.browserVersion == dto.value.browserVersion && r.value.os == dto.value.os
      && r.value.buildNumber == dto.value.buildNumber
  {
    match dto
    case None => None
    case Some(d) => Some(EnvironmentInfo(d.name, d.browser, d.browserVersion, d.os, d.buildNumber))
  }

  function ToEnvironmentDto(env: Option<EnvironmentInfo>): (r: Option<EnvironmentInfoDto>)
    ensures r.None? <==> env.None?
    ensures r.Some? ==>
      && r.value.name == env.value.name && r.value.browser == env.value.browser
      && r.value.browserVersion == env.value.browserVersion && r.value.os == env.value.os
      && r.value.buildNumber == env.value.buildNumber
  {
    match env
    case None => None
    case Some(e) => Some(EnvironmentInfoDto(e.name, e.browser, e.browserVersion, e.os, e.buildNumber))
  }

  function ToFailure(d: FailureDetailDto): FailureDetail {
    FailureDetail(d.errorMessage, d.stackTrace, d.screenshotUrl, d.logs)
  }

  function ToFailureDto(e: FailureDetail): FailureDetailDto {
    FailureDetailDto(e.errorMessage, e.stackTrace, e.screenshotUrl, e.logs)
  }

  /** Maps each element in order; a null list stays null. */
  function ToFailures(dtos: Option<seq<FailureDetailDto>>): (r: Option<seq<FailureDetail>>)
    ensures r.None? <==> dtos.None?
    ensures r.Some? ==> |r.value| == |dtos.value|
  {
    match dtos
    case None => None
    case Some(ds) => Some(seq(|ds|, i requires 0 <= i < |ds| => ToFailure(ds[i])))
  }

  /** Maps each element in order; a null list stays null. */
  function ToFailureDtos(entities: Option<seq<FailureDetail>>): (r: Option<seq<FailureDetailDto>>)
    ensures r.None? <==> entities.None?
    ensures r.Some? ==> |r.value| == |entities.value|
  {
    match entities
    case None => None
    case Some(es) => Some(seq(|es|, i requires 0 <= i < |es| => ToFailureDto(es[i])))
  }

  /** The request fields of a response: what a client sent, if the response came from a create. */
  ghost function RequestOf(r: TestMethodResultResponse): TestMethodResultRequest {
    TestMethodResultRequest(
      r.runId, r.suiteType, r.featureName, r.methodName, r.className, r.status,
      r.assertType, r.startTime, r.endTime, r.durationMs, r.jiraTestCases,
      r.environment, r.logs, r.screenshotUrls, r.failures)
  }

  /** The entity a response describes, read back through the mapper's inverse directions. */
  ghost function EntityOf(r: TestMethodResultResponse): TestMethodResult {
    TestMethodResult(
      r.id, r.runId, r.iata, r.suiteType, r.featureName, r.methodName, r.className,
      r.status, r.assertType, r.startTime, r.endTime, r.durationMs, r.jiraTestCases,
      ToEnvironment(r.environment), r.logs, r.screenshotUrls, ToFailures(r.failures))
  }

  /** Environment translation loses nothing, in either direction. */
  lemma EnvironmentRoundTrip(d: Option<EnvironmentInfoDto>, e: Option<EnvironmentInfo>)
    ensures ToEnvironmentDto(ToEnvironment(d)) == d
    ensures ToEnvironment(ToEnvironmentDto(e)) == e
  {
  }

  /** Failure-list translation loses nothing, in either direction: same length, same order, same fields. */
  lemma FailuresRoundTrip(ds: Option<seq<FailureDetailDto>>, es: Option<seq<FailureDetail>>)
    ensures ToFailureDtos(ToFailures(ds)) == ds
    ensures ToFailures(ToFailureDtos(es)) == es
  {
    if ds.Some? {
      assert ToFailureDtos(ToFailures(ds)).value == ds.value;
    }
    if es.Some? {
      assert ToFailures(ToFailureDtos(es)).value == es.value;
    }
  }

  /** Each element of a translated failure list carries the same four fields as its source. */
  lemma FailuresCopiedFieldwise(ds: seq<FailureDetailDto>, i: nat)
    requires i < |ds|
    ensures var f := ToFailures(Some(ds)).value[i];
      f.errorMessage == ds[i].errorMessage && f.stackTrace == ds[i].stackTrace &&
      f.screenshotUrl == ds[i].screenshotUrl && f.logs == ds[i].logs
  {
  }

  /** A response carries every field of the entity unchanged: the entity can be read back from it. */
  lemma ResponseKeepsEveryField(e: TestMethodResult)
    ensures EntityOf(ToResponse(e)) == e
  {
    EnvironmentRoundTrip(None, e.environment);
    FailuresRoundTrip(None, e.failures);
  }

  /** Two entities with the same response are the same entity. */
  lemma ToResponseInjective(a: TestMethodResult, b: TestMethodResult)
    requires ToResponse(a) == ToResponse(b)
    ensures a == b
  {
    ResponseKeepsEveryField(a);
    ResponseKeepsEveryField(b);
  }

  /**
   * Storing a request and answering with the stored entity echoes every request
   * field, with `iata` taken from the path and no id yet.
   */
  lemma CreateEchoesRequest(iata: string, request: TestMethodResultRequest)
    ensures var r := ToResponse(ToEntity(iata, request));
      RequestOf(r) == request && r.iata == Some(iata) && r.id == None
  {
    EnvironmentRoundTrip(request.environment, None);
    FailuresRoundTrip(request.failures, None);
  }
}
