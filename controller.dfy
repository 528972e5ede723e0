/**
 * The HTTP endpoints, without the envelope: validation of the `status` query
 * parameter, dispatch to the filtered or unfiltered lookup, the paged run-id
 * listing, and creation.
 */
module Controller {
  import opened Wrappers
  import opened Model
  import opened Dto
  import opened Errors
  import opened Repository
  import opened BsonOrder
  import opened Aggregation
  import opened Service
  import opened ControllerMapper

  // ----- the status query parameter -----

  /** `Character.isWhitespace`: the ASCII separators and controls, and Unicode's breaking spaces. */
  predicate IsWhitespace(c: char)
    ensures IsWhitespace(c) && c < '\U{80}' ==> c <= ' '
    ensures c == '\U{A0}' || c == '\U{2007}' || c == '\U{202F}' ==> !IsWhitespace(c)
  {
    || c == ' ' || ('\t' <= c <= '\r') || ('\U{1C}' <= c <= '\U{1F}')
    || c == '\U{1680}' || ('\U{2000}' <= c <= '\U{2006}') || ('\U{2008}' <= c <= '\U{200A}')
    || c == '\U{2028}' || c == '\U{2029}' || c == '\U{205F}' || c == '\U{3000}'
  }

  /** `String.isBlank`: empty or whitespace only. */
  predicate IsBlank(s: string)
    ensures IsBlank(s) && (forall i :: 0 <= i < |s| ==> s[i] < '\U{80}') ==> Trim(s) == []
  {
    forall i :: 0 <= i < |s| ==> IsWhitespace(s[i])
  }

  /** Removes the leading characters at or below U+0020. */
  function TrimStart(s: string): (r: string)
    ensures |r| <= |s| && r == s[|s| - |r|..]
    ensures forall i :: 0 <= i < |s| - |r| ==> s[i] <= ' '
    ensures |r| > 0 ==> r[0] > ' '
  {
    if |s| > 0 && s[0] <= ' ' then TrimStart(s[1..]) else s
  }

  /** Removes the trailing characters at or below U+0020. */
  function TrimEnd(s: string): (r: string)
    ensures |r| <= |s| && r == s[..|r|]
    ensures forall i :: |r| <= i < |s| ==> s[i] <= ' '
    ensures |r| > 0 ==> r[|r| - 1] > ' '
  {
    if |s| > 0 && s[|s| - 1] <= ' ' then TrimEnd(s[..|s| - 1]) else s
  }

  /** `String.trim`: strips characters at or below U+0020 from both ends. */
  function Trim(s: string): (r: string)
    ensures |r| > 0 ==> r[0] > ' ' && r[|r| - 1] > ' '
  {
    TrimEnd(TrimStart(s))
  }

  /** Upper-cases an ASCII letter and leaves every other character alone. */
  function UpperChar(c: char): (r: char)
    ensures !('a' <= r <= 'z')
    ensures !('a' <= c <= 'z') ==> r == c
    ensures 'a' <= c <= 'z' ==> 'A' <= r <= 'Z' && r as int - 'A' as int == c as int - 'a' as int
  {
    if 'a' <= c <= 'z' then (c as int - 'a' as int + 'A' as int) as char else c
  }

  /** `String.toUpperCase` on ASCII letters. */
  function ToUpper(s: string): (r: string)
    ensures |r| == |s|
    ensures forall i :: 0 <= i < |s| ==> r[i] == UpperChar(s[i]) && !('a' <= r[i] <= 'z')
  {
    seq(|s|, i requires 0 <= i < |s| => UpperChar(s[i]))
  }

  /** The value the controller checks: trimmed, then upper-cased. */
  function Normalize(s: string): (r: string)
    ensures |r| > 0 ==> r[0] > ' ' && r[|r| - 1] > ' '
    ensures forall i :: 0 <= i < |r| ==> !('a' <= r[i] <= 'z')
  {
    var t := Trim(s);
    assert |t| > 0 ==> UpperChar(t[0]) > ' ' && UpperChar(t[|t| - 1]) > ' ' by {
      if |t| > 0 {
        UpperCharProperties(t[0]);
        UpperCharProperties(t[|t| - 1]);
      }
    }
    ToUpper(t)
  }

  predicate IsAllowedStatus(s: string) {
    s == "PASS" || s == "FAIL" || s == "SKIP"
  }

  /** The bad-request message; it quotes the value as sent, before trimming and upper-casing. */
  function InvalidStatusMessage(status: string): (r: string)
    ensures |r| == 45 + |status| + 66
    ensures r[45..45 + |status|] == status
  {
    "Invalid value for query parameter 'status': '" + status
      + "'. Allowed values are PASS, FAIL, SKIP. Use ?status=PASS|FAIL|SKIP"
  }

  /**
   * The filter a `status` query parameter selects: none for a missing or blank
   * value; otherwise the trimmed, upper-cased value if it is PASS, FAIL or
   * SKIP; otherwise a bad request.
   */
  function NormalizedStatus(status: Option<string>): (r: Result<Option<string>, Error>)
    ensures r == Success(None) <==> status.None? || IsBlank(status.value)
    ensures r.Success? && r.value.Some? ==> IsAllowedStatus(r.value.value) && r.value.value == Normalize(status.value)
    ensures r.Failure? <==> status.Some? && !IsBlank(status.value) && !IsAllowedStatus(Normalize(status.value))
    ensures r.Failure? ==> r.error == BadRequest(InvalidStatusMessage(status.value))
  {
    if status.None? || IsBlank(status.value) then Success(None)
    else
      var normalized := Normalize(status.value);
      if IsAllowedStatus(normalized) then Success(Some(normalized))
      else Failure(BadRequest(InvalidStatusMessage(status.value)))
  }

  lemma TrimKeepsTrimmed(s: string)
    requires |s| > 0 ==> s[0] > ' ' && s[|s| - 1] > ' '
    ensures Trim(s) == s
  {
  }

  lemma UpperCharProperties(c: char)
    ensures UpperChar(UpperChar(c)) == UpperChar(c)
    ensures UpperChar(c) <= ' ' <==> c <= ' '
  {
  }

  lemma ToUpperIdempotent(t: string)
    ensures ToUpper(ToUpper(t)) == ToUpper(t)
  {
    forall i | 0 <= i < |t| ensures ToUpper(ToUpper(t))[i] == ToUpper(t)[i] {
      UpperCharProperties(t[i]);
    }
  }

  /** Normalizing twice is normalizing once. */
  lemma NormalizeIdempotent(s: string)
    ensures Normalize(Normalize(s)) == Normalize(s)
  {
    var t := Trim(s);
    var u := ToUpper(t);
    if |t| > 0 {
      UpperCharProperties(t[0]);
      UpperCharProperties(t[|t| - 1]);
    }
    TrimKeepsTrimmed(u);
    ToUpperIdempotent(t);
  }

  /** An accepted value, passed again, is accepted unchanged. */
  lemma AcceptedStatusIsStable(status: string, v: string)
    requires NormalizedStatus(Some(status)) == Success(Some(v))
    ensures NormalizedStatus(Some(v)) == Success(Some(v))
  {
    AllowedStatusesAreAccepted(v);
  }

  lemma NormalizeLowerPass()
    ensures Normalize("pass") == "PASS" && !IsBlank("pass")
  {
    assert Trim("pass") == "pass";
    assert !IsWhitespace("pass"[0]);
  }

  lemma NormalizePaddedPass()
    ensures Normalize(" Pass ") == "PASS" && !IsBlank(" Pass ")
  {
    assert TrimStart(" Pass ") == TrimStart("Pass ") == "Pass ";
    assert TrimEnd("Pass ") == TrimEnd("Pass") == "Pass";
    UpperPass();
    assert !IsWhitespace(" Pass "[1]);
  }

  lemma UpperPass()
    ensures ToUpper("Pass") == "PASS"
  {
    assert UpperChar('a') == 'A' && UpperChar('s') == 'S';
  }

  lemma NormalizeUpperPass()
    ensures Normalize("PASS") == "PASS" && !IsBlank("PASS")
  {
    assert Trim("PASS") == "PASS";
    assert !IsWhitespace("PASS"[0]);
  }

  /** Case and surrounding spaces do not matter. */
  lemma StatusExamplesAccepted()
    ensures NormalizedStatus(Some("pass")) == Success(Some("PASS"))
    ensures NormalizedStatus(Some(" Pass ")) == Success(Some("PASS"))
    ensures NormalizedStatus(Some("PASS")) == Success(Some("PASS"))
  {
    NormalizeLowerPass();
    AcceptedWhenNormalizedAllowed("pass");
    NormalizePaddedPass();
    AcceptedWhenNormalizedAllowed(" Pass ");
    NormalizeUpperPass();
    AcceptedWhenNormalizedAllowed("PASS");
  }

  /** PASS, FAIL and SKIP are already normalized, so each is accepted as it is. */
  lemma AllowedStatusesAreAccepted(s: string)
    requires IsAllowedStatus(s)
    ensures Normalize(s) == s
    ensures NormalizedStatus(Some(s)) == Success(Some(s))
  {
    if s == "PASS" {
      UpperWordIsNormalized("PASS");
    } else if s == "FAIL" {
      UpperWordIsNormalized("FAIL");
    } else {
      UpperWordIsNormalized("SKIP");
    }
    AcceptedWhenNormalizedAllowed(s);
  }

  lemma UpperWordIsNormalized(s: string)
    requires |s| > 0 && forall i :: 0 <= i < |s| ==> 'A' <= s[i] <= 'Z'
    ensures Normalize(s) == s && !IsBlank(s)
  {
    TrimKeepsTrimmed(s);
    assert ToUpper(s) == s;
    assert !IsWhitespace(s[0]);
  }

  lemma AcceptedWhenNormalizedAllowed(s: string)
    requires !IsBlank(s) && IsAllowedStatus(Normalize(s))
    ensures NormalizedStatus(Some(s)) == Success(Some(Normalize(s)))
  {
  }

  /**
   * Blank values select no filter; `isBlank` and `trim` disagree on U+0000,
   * which is not blank but trims away, so it is rejected.
   */
  lemma StatusExamplesNotAccepted()
    ensures NormalizedStatus(Some("  \t")) == Success(None)
    ensures NormalizedStatus(Some("passed")).Failure?
    ensures NormalizedStatus(Some("\U{0}")).Failure?
  {
    assert IsBlank("  \t");
    assert Trim("passed") == "passed";
    assert !IsBlank("passed") by { assert !IsWhitespace("passed"[0]); }
    assert Trim("\U{0}") == "" by { assert TrimStart("\U{0}") == ""; }
    assert !IsBlank("\U{0}") by { assert !IsWhitespace("\U{0}"[0]); }
  }

  // ----- the query endpoints -----

  function Responses(results: Result<set<TestMethodResult>, Error>): Result<set<TestMethodResultResponse>, Error> {
    match results
    case Success(ds) => Success(set d | d in ds :: ToResponse(d))
    case Failure(e) => Failure(e)
  }

  /** `GET /api/{iata}/test-results/{runId}?status=`. */
  function GetAllTestResults(store: Store, iata: string, runId: string, status: Option<string>): (r: Result<set<TestMethodResultResponse>, Error>)
    ensures r.Failure? && r.error.BadRequest? <==> NormalizedStatus(status).Failure?
    ensures NormalizedStatus(status) == Success(None) ==>
      r == Responses(Service.GetTestResultsByRunId(store, runId, iata))
    ensures NormalizedStatus(status) == Success(None) ==>
      (r.Failure? <==> FindByRunIdAndIata(store, runId, iata) == {})
    ensures NormalizedStatus(status).Success? && NormalizedStatus(status).value.Some? ==>
      r == Responses(Success(GetTestResultsByRunIdAndStatus(store, runId, NormalizedStatus(status).value.value, iata)))
    ensures r.Success? ==> forall x :: x in r.value ==>
      x.iata == Some(iata) && x.runId == Some(runId)
      && (NormalizedStatus(status).value.Some? ==> x.status == NormalizedStatus(status).value)
  {
    match NormalizedStatus(status)
    case Failure(e) => Failure(e)
    case Success(None) => Responses(Service.GetTestResultsByRunId(store, runId, iata))
    case Success(Some(s)) => Responses(Success(GetTestResultsByRunIdAndStatus(store, runId, s, iata)))
  }

  /** `GET /api/{iata}/test-results/suite/{suiteType}?runId=&status=`. */
  function GetBySuiteType(store: Store, iata: string, suiteType: string, runId: string, status: Option<string>): (r: Result<set<TestMethodResultResponse>, Error>)
    ensures r.Failure? && r.error.BadRequest? <==> NormalizedStatus(status).Failure?
    ensures NormalizedStatus(status) == Success(None) ==>
      r == Responses(GetTestResultsByRunIdAndSuiteType(store, runId, suiteType, iata))
    ensures NormalizedStatus(status) == Success(None) ==>
      (r.Failure? <==> FindByRunIdAndSuiteTypeAndIata(store, runId, suiteType, iata) == {})
    ensures NormalizedStatus(status).Success? && NormalizedStatus(status).value.Some? ==>
      r == Responses(Success(GetTestResultsByRunIdAndSuiteTypeAndStatus(store, runId, suiteType, NormalizedStatus(status).value.value, iata)))
    ensures r.Success? ==> forall x :: x in r.value ==>
      x.iata == Some(iata) && x.runId == Some(runId) && x.suiteType == Some(suiteType)
      && (NormalizedStatus(status).value.Some? ==> x.status == NormalizedStatus(status).value)
  {
    match NormalizedStatus(status)
    case Failure(e) => Failure(e)
    case Success(None) => Responses(GetTestResultsByRunIdAndSuiteType(store, runId, suiteType, iata))
    case Success(Some(s)) => Responses(Success(GetTestResultsByRunIdAndSuiteTypeAndStatus(store, runId, suiteType, s, iata)))
  }

  /** `GET /api/{iata}/test-results/feature/{featureName}?runId=&status=`. */
  function GetByFeatureName(store: Store, iata: string, featureName: string, runId: string, status: Option<string>): (r: Result<set<TestMethodResultResponse>, Error>)
    ensures r.Failure? && r.error.BadRequest? <==> NormalizedStatus(status).Failure?
    ensures NormalizedStatus(status) == Success(None) ==>
      r == Responses(GetTestResultsByRunIdAndFeatureName(store, runId, featureName, iata))
    ensures NormalizedStatus(status) == Success(None) ==>
      (r.Failure? <==> FindByRunIdAndFeatureNameAndIata(store, runId, featureName, iata) == {})
    ensures NormalizedStatus(status).Success? && NormalizedStatus(status).value.Some? ==>
      r == Responses(Success(GetTestResultsByRunIdAndFeatureNameAndStatus(store, runId, featureName, NormalizedStatus(status).value.value, iata)))
    ensures r.Success? ==> forall x :: x in r.value ==>
      x.iata == Some(iata) && x.runId == Some(runId) && x.featureName == Some(featureName)
      && (NormalizedStatus(status).value.Some? ==> x.status == NormalizedStatus(status).value)
  {
    match NormalizedStatus(status)
    case Failure(e) => Failure(e)
    case Success(None) => Responses(GetTestResultsByRunIdAndFeatureName(store, runId, featureName, iata))
    case Success(Some(s)) => Responses(Success(GetTestResultsByRunIdAndFeatureNameAndStatus(store, runId, featureName, s, iata)))
  }

  /** The three query endpoints accept and reject exactly the same status values. */
  lemma SameStatusRuleOnEveryEndpoint(store: Store, iata: string, runId: string, suiteType: string, featureName: string, status: Option<string>)
    ensures var all, suite, feature := GetAllTestResults(store, iata, runId, status),
      GetBySuiteType(store, iata, suiteType, runId, status), GetByFeatureName(store, iata, featureName, runId, status);
      && (all.Failure? && all.error.BadRequest? <==> suite.Failure? && suite.error.BadRequest?)
      && (suite.Failure? && suite.error.BadRequest? <==> feature.Failure? && feature.error.BadRequest?)
  {
  }

  // ----- the run-id listing -----

  /** The `data` payload of the run-id listing. */
  datatype RunIdsPayload = RunIdsPayload(page: int, size: int, runIds: seq<Key>)

  const RunIdsPageSize := 10

  /**
   * `GET /api/{iata}/test-results/run-ids?page=`: fixed page size 10; a missing
   * page reads as 0, and so does a negative one.
   */
  function GetRunIds(docs: seq<TestMethodResult>, iata: string, page: Option<int>): (r: RunIdsPayload)
    ensures r.page == (if page.None? then 0 else Max(page.value, 0)) && r.size == RunIdsPageSize
    ensures r.runIds == Page(RunIdListing(docs, iata), r.page, r.size)
    ensures |r.runIds| <= RunIdsPageSize
  {
    var pageIndex := Max(if page.Some? then page.value else 0, 0);
    var runIds := GetDistinctRunIdsByIataPaged(docs, iata, pageIndex, RunIdsPageSize);
    PagedIsPageOfListing(docs, iata, pageIndex, RunIdsPageSize);
    RunIdsPayload(pageIndex, RunIdsPageSize, runIds)
  }

  // ----- creation -----

  /**
   * `POST /api/{iata}/test-results`: stores the request under a fresh id
   * generated by the store and answers with that id.
   */
  method CreateTestResult(svc: TestMethodResultService, iata: string, request: TestMethodResultRequest, generatedId: string)
    returns (id: string)
    requires svc.Valid() && generatedId !in svc.store
    modifies svc
    ensures svc.Valid()
    ensures id == generatedId
    ensures svc.store == old(svc.store)[id := ToEntity(iata, request).(id := Some(id))]
  {
    var toSave := ToEntity(iata, request);
    var saved := svc.CreateTestResult(toSave, generatedId);
    id := saved.id.value;
  }

  /**
   * What a create stores is listed by the run endpoint with every request field
   * unchanged, the path's iata and the new id.
   */
  lemma CreateThenGetRoundTrip(store: Store, iata: string, request: TestMethodResultRequest, key: string, runId: string)
    requires request.runId == Some(runId)
    ensures var after := store[key := ToEntity(iata, request).(id := Some(key))];
      var resp := ToResponse(ToEntity(iata, request).(id := Some(key)));
      && GetAllTestResults(after, iata, runId, None).Success?
      && resp in GetAllTestResults(after, iata, runId, None).value
      && RequestOf(resp) == request && resp.iata == Some(iata) && resp.id == Some(key)
  {
    var e := ToEntity(iata, request).(id := Some(key));
    CreatedResultIsFound(store, ToEntity(iata, request), key, runId, iata);
    CreateEchoesRequest(iata, request);
  }
}
