/**
 * The result service. Lookups are functions of the stored collection; the
 * run-index query is the aggregation pipeline over the collection's documents;
 * create, update and delete change the store held by `TestMethodResultService`.
 */
module Service {
  import opened Wrappers
  import opened Model
  import opened Errors
  import opened Repository
  import opened BsonOrder
  import opened Aggregation

  function Max(a: int, b: int): int {
    if a >= b then a else b
  }

  // ----- lookups -----

  /** `findAll`: every stored document. */
  function GetAllTestResults(store: Store): (r: set<TestMethodResult>)
    ensures forall k :: k in store ==> store[k] in r
    ensures forall d :: d in r ==> exists k :: k in store && store[k] == d
  {
    store.Values
  }

  /** `findById`: the document stored under `id`, if any. */
  function GetTestResultById(store: Store, id: string): (r: Option<TestMethodResult>)
    ensures r.Some? <==> id in store
    ensures r.Some? ==> r.value == store[id]
  {
    if id in store then Some(store[id]) else None
  }

  /** The documents of one run of one tenant; NotFound when there are none. */
  function GetTestResultsByRunId(store: Store, runId: string, iata: string): (r: Result<set<TestMethodResult>, Error>)
    ensures r.Failure? <==> forall d :: d in store.Values ==> !(d.runId == Some(runId) && d.iata == Some(iata))
    ensures r.Failure? ==> r.error == NotFound("Run id not found: " + runId + ", iata=" + iata)
    ensures r.Success? ==> forall d :: d in r.value <==> d in store.Values && d.runId == Some(runId) && d.iata == Some(iata)
  {
    var results := FindByRunIdAndIata(store, runId, iata);
    assert forall d :: d in store.Values && d.runId == Some(runId) && d.iata == Some(iata) ==> d in results;
    if results == {} then Failure(NotFound("Run id not found: " + runId + ", iata=" + iata))
    else Success(results)
  }

  /** The documents of one run and suite of one tenant; NotFound when there are none. */
  function GetTestResultsByRunIdAndSuiteType(store: Store, runId: string, suiteType: string, iata: string): (r: Result<set<TestMethodResult>, Error>)
    ensures r.Failure? <==> forall d :: d in store.Values ==>
      !(d.runId == Some(runId) && d.suiteType == Some(suiteType) && d.iata == Some(iata))
    ensures r.Failure? ==>
      r.error == NotFound("No results for runId=" + runId + ", suiteType=" + suiteType + ", iata=" + iata)
    ensures r.Success? ==> forall d :: d in r.value <==>
      d in store.Values && d.runId == Some(runId) && d.suiteType == Some(suiteType) && d.iata == Some(iata)
  {
    var results := FindByRunIdAndSuiteTypeAndIata(store, runId, suiteType, iata);
    assert forall d :: d in store.Values && d.runId == Some(runId) && d.suiteType == Some(suiteType) && d.iata == Some(iata) ==> d in results;
    if results == {} then Failure(NotFound("No results for runId=" + runId + ", suiteType=" + suiteType + ", iata=" + iata))
    else Success(results)
  }

  /** The documents of one run and feature of one tenant; NotFound when there are none. */
  function GetTestResultsByRunIdAndFeatureName(store: Store, runId: string, featureName: string, iata: string): (r: Result<set<TestMethodResult>, Error>)
    ensures r.Failure? <==> forall d :: d in store.Values ==>
      !(d.runId == Some(runId) && d.featureName == Some(featureName) && d.iata == Some(iata))
    ensures r.Failure? ==>
      r.error == NotFound("No results for runId=" + runId + ", featureName=" + featureName + ", iata=" + iata)
    ensures r.Success? ==> forall d :: d in r.value <==>
      d in store.Values && d.runId == Some(runId) && d.featureName == Some(featureName) && d.iata == Some(iata)
  {
    var results := FindByRunIdAndFeatureNameAndIata(store, runId, featureName, iata);
    assert forall d :: d in store.Values && d.runId == Some(runId) && d.featureName == Some(featureName) && d.iata == Some(iata) ==> d in results;
    if results == {} then Failure(NotFound("No results for runId=" + runId + ", featureName=" + featureName + ", iata=" + iata))
    else Success(results)
  }

  /** Status-filtered lookups never fail: an empty answer is passed through. */
  function GetTestResultsByRunIdAndStatus(store: Store, runId: string, status: string, iata: string): (r: set<TestMethodResult>)
    ensures r <= FindByRunIdAndIata(store, runId, iata)
    ensures forall d :: d in FindByRunIdAndIata(store, runId, iata) ==> (d in r <==> d.status == Some(status))
  {
    FindByRunIdAndStatusAndIata(store, runId, status, iata)
  }

  function GetTestResultsByRunIdAndSuiteTypeAndStatus(store: Store, runId: string, suiteType: string, status: string, iata: string): (r: set<TestMethodResult>)
    ensures r <= FindByRunIdAndSuiteTypeAndIata(store, runId, suiteType, iata)
    ensures forall d :: d in FindByRunIdAndSuiteTypeAndIata(store, runId, suiteType, iata) ==>
      (d in r <==> d.status == Some(status))
  {
    FindByRunIdAndSuiteTypeAndStatusAndIata(store, runId, suiteType, status, iata)
  }

  function GetTestResultsByRunIdAndFeatureNameAndStatus(store: Store, runId: string, featureName: string, status: string, iata: string): (r: set<TestMethodResult>)
    ensures r <= FindByRunIdAndFeatureNameAndIata(store, runId, featureName, iata)
    ensures forall d :: d in FindByRunIdAndFeatureNameAndIata(store, runId, featureName, iata) ==>
      (d in r <==> d.status == Some(status))
  {
    FindByRunIdAndFeatureNameAndStatusAndIata(store, runId, featureName, status, iata)
  }

  // ----- the run index -----

  /** The distinct runIds of one tenant's documents: what the run index enumerates. */
  ghost function TenantRunIds(docs: seq<TestMethodResult>, iata: string): set<Key> {
    set d | d in docs && d.iata == Some(iata) :: d.runId
  }

  /** Every runId of the tenant, greatest first, without the paging stages. */
  function RunIdListing(docs: seq<TestMethodResult>, iata: string): seq<Key> {
    SortDesc(Group(Match(docs, iata)))
  }

  /**
   * One page of the tenant's distinct runIds, in descending runId order. `docs`
   * is the collection in any order. A negative page counts as page 0 and a size
   * below 1 as size 1.
   */
  function GetDistinctRunIdsByIataPaged(docs: seq<TestMethodResult>, iata: string, page: int, size: int): (r: seq<Key>)
    ensures |r| <= Max(size, 1)
    ensures StrictlyDescending(r) && Distinct(r)
    ensures Elems(r) <= TenantRunIds(docs, iata)
  {
    var pageIndex := Max(page, 0);
    var pageSize := Max(size, 1);
    var all := RunIdListing(docs, iata);
    ListingIsTenantRunIds(docs, iata);
    PageOfDescending(all, pageIndex, pageSize);
    DescendingIsDistinct(Page(all, pageIndex, pageSize));
    Page(all, pageIndex, pageSize)
  }

  /** The listing holds each of the tenant's runIds once, in strictly descending order. */
  /** The listing holds each of the tenant's runIds exactly once, strictly descending. */
  lemma ListingIsTenantRunIds(docs: seq<TestMethodResult>, iata: string)
    ensures StrictlyDescending(RunIdListing(docs, iata))
    ensures Elems(RunIdListing(docs, iata)) == TenantRunIds(docs, iata)
    ensures |RunIdListing(docs, iata)| == |TenantRunIds(docs, iata)|
  {
    var m := Match(docs, iata);
    assert RunIds(m) == TenantRunIds(docs, iata);
    DescendingIsDistinct(RunIdListing(docs, iata));
    DistinctCard(RunIdListing(docs, iata));
  }

  lemma {:induction false} DistinctCard<T>(s: seq<T>)
    requires Distinct(s)
    ensures |Elems(s)| == |s|
  {
    if |s| > 0 {
      DistinctCard(s[1..]);
      assert s == [s[0]] + s[1..];
      assert Elems(s) == {s[0]} + Elems(s[1..]);
      assert s[0] !in Elems(s[1..]);
    }
  }

  /** Each page is the corresponding slice of the full listing. */
  lemma PagedIsPageOfListing(docs: seq<TestMethodResult>, iata: string, page: int, size: int)
    ensures GetDistinctRunIdsByIataPaged(docs, iata, page, size)
      == Page(RunIdListing(docs, iata), Max(page, 0), Max(size, 1))
  {
  }

  /** A negative page behaves as page 0; a size below 1 behaves as size 1. */
  lemma ArgumentsAreClamped(docs: seq<TestMethodResult>, iata: string, page: int, size: int)
    ensures page < 0 ==> GetDistinctRunIdsByIataPaged(docs, iata, page, size) == GetDistinctRunIdsByIataPaged(docs, iata, 0, size)
    ensures size < 1 ==> GetDistinctRunIdsByIataPaged(docs, iata, page, size) == GetDistinctRunIdsByIataPaged(docs, iata, page, 1)
  {
  }

  /** The listing, and therefore every page, depends only on which documents are stored, not on their order. */
  lemma DocumentOrderIsIrrelevant(docs1: seq<TestMethodResult>, docs2: seq<TestMethodResult>, iata: string, page: int, size: int)
    requires Elems(docs1) == Elems(docs2)
    ensures RunIdListing(docs1, iata) == RunIdListing(docs2, iata)
    ensures GetDistinctRunIdsByIataPaged(docs1, iata, page, size) == GetDistinctRunIdsByIataPaged(docs2, iata, page, size)
  {
    ListingIsTenantRunIds(docs1, iata);
    ListingIsTenantRunIds(docs2, iata);
    assert TenantRunIds(docs1, iata) == TenantRunIds(docs2, iata) by {
      assert forall d :: d in docs1 <==> d in docs2 by {
        forall d ensures d in docs1 <==> d in docs2 {
          assert d in docs1 <==> d in Elems(docs1);
          assert d in docs2 <==> d in Elems(docs2);
        }
      }
    }
    DescendingUnique(RunIdListing(docs1, iata), RunIdListing(docs2, iata));
  }

  /**
   * The run index over the service's collection: it lists the runIds of the
   * tenant's stored documents, and every enumeration of the stored documents
   * gives the same page.
   */
  lemma RunIndexOfStore(store: Store, docs: seq<TestMethodResult>, iata: string, page: int, size: int)
    requires Elems(docs) == store.Values
    ensures TenantRunIds(docs, iata) == set d | d in store.Values && d.iata == Some(iata) :: d.runId
    ensures forall other :: Elems(other) == store.Values ==>
      GetDistinctRunIdsByIataPaged(other, iata, page, size) == GetDistinctRunIdsByIataPaged(docs, iata, page, size)
  {
    forall d ensures d in docs <==> d in store.Values {
      assert d in docs <==> d in Elems(docs);
    }
    forall other | Elems(other) == store.Values
      ensures GetDistinctRunIdsByIataPaged(other, iata, page, size) == GetDistinctRunIdsByIataPaged(docs, iata, page, size)
    {
      DocumentOrderIsIrrelevant(other, docs, iata, page, size);
    }
  }

  /** Two different pages never share a runId. */
  lemma PagesAreDisjoint(docs: seq<TestMethodResult>, iata: string, size: int, p: int, q: int)
    requires 0 <= p && 0 <= q && p != q
    ensures Elems(GetDistinctRunIdsByIataPaged(docs, iata, p, size)) !! Elems(GetDistinctRunIdsByIataPaged(docs, iata, q, size))
  {
    ListingIsTenantRunIds(docs, iata);
    DescendingIsDistinct(RunIdListing(docs, iata));
    DistinctPagesDisjoint(RunIdListing(docs, iata), p, q, Max(size, 1));
  }

  /** Pages `0 .. count-1` of one tenant's run index, concatenated. */
  function ConsecutivePages(docs: seq<TestMethodResult>, iata: string, count: nat, size: int): seq<Key> {
    if count == 0 then []
    else ConsecutivePages(docs, iata, count - 1, size) + GetDistinctRunIdsByIataPaged(docs, iata, count - 1, size)
  }

  lemma {:induction false} ConsecutivePagesArePages(docs: seq<TestMethodResult>, iata: string, count: nat, size: int)
    ensures ConsecutivePages(docs, iata, count, size) == Pages(RunIdListing(docs, iata), count, Max(size, 1))
  {
    if count > 0 {
      var all, m := RunIdListing(docs, iata), Max(size, 1);
      ConsecutivePagesArePages(docs, iata, count - 1, size);
      PagedIsPageOfListing(docs, iata, count - 1, size);
      assert Pages(all, count, m) == Pages(all, count - 1, m) + Page(all, count - 1, m);
    }
  }

  /** The first `count` pages together are the first `count * size` runIds of the listing. */
  lemma ConsecutivePagesArePrefix(docs: seq<TestMethodResult>, iata: string, count: nat, size: int)
    ensures ConsecutivePages(docs, iata, count, size) == Limit(RunIdListing(docs, iata), count * Max(size, 1))
  {
    ConsecutivePagesArePages(docs, iata, count, size);
    PagesArePrefix(RunIdListing(docs, iata), count, Max(size, 1));
  }

  /**
   * With N distinct runIds, the first ceil(N / size) pages together list every
   * runId exactly once, in descending order; a page is empty exactly when its
   * index is at least ceil(N / size).
   */
  lemma PagesEnumerateEveryRunId(docs: seq<TestMethodResult>, iata: string, size: int, page: int)
    requires page >= 0
    ensures var n := PageCount(|TenantRunIds(docs, iata)|, Max(size, 1));
      && ConsecutivePages(docs, iata, n, size) == RunIdListing(docs, iata)
      && (GetDistinctRunIdsByIataPaged(docs, iata, page, size) == [] <==> page >= n)
  {
    ListingIsTenantRunIds(docs, iata);
    var n := PageCount(|TenantRunIds(docs, iata)|, Max(size, 1));
    ConsecutivePagesArePages(docs, iata, n, size);
    AllPagesAreWhole(RunIdListing(docs, iata), Max(size, 1));
    PageEmptyExactlyBeyondLast(RunIdListing(docs, iata), page, Max(size, 1));
  }

  /** A tenant without documents has only empty pages. */
  lemma TenantWithoutRunsHasNoPages(docs: seq<TestMethodResult>, iata: string, page: int, size: int)
    requires forall d :: d in docs ==> d.iata != Some(iata)
    ensures GetDistinctRunIdsByIataPaged(docs, iata, page, size) == []
  {
    var r := GetDistinctRunIdsByIataPaged(docs, iata, page, size);
    assert TenantRunIds(docs, iata) == {};
    EmptyElems(r);
  }

  /** A document of the stated tenant and run, with the other fields empty. */
  function Doc(id: string, runId: string, iata: string): TestMethodResult {
    TestMethodResult(Some(id), Some(runId), Some(iata), None, None, None, None, None, None,
      None, None, 0, None, None, None, None, None)
  }

  function ExampleDocs(): seq<TestMethodResult> {
    [Doc("01", "R1", "AA"), Doc("02", "R2", "AA"), Doc("03", "R3", "AA"), Doc("04", "R4", "BB")]
  }

  lemma ExampleTenantRunIds()
    ensures TenantRunIds(ExampleDocs(), "AA") == {Some("R1"), Some("R2"), Some("R3")}
  {
    var docs := ExampleDocs();
    assert docs[0].runId == Some("R1") && docs[1].runId == Some("R2") && docs[2].runId == Some("R3");
  }

  lemma ExampleKeysDescending()
    ensures StrictlyDescending([Some("R3"), Some("R2"), Some("R1")])
    ensures Elems([Some("R3"), Some("R2"), Some("R1")]) == {Some("R1"), Some("R2"), Some("R3")}
  {
    assert KeyLess(Some("R2"), Some("R3")) && KeyLess(Some("R1"), Some("R2")) && KeyLess(Some("R1"), Some("R3"));
  }

  lemma ExampleListing()
    ensures RunIdListing(ExampleDocs(), "AA") == [Some("R3"), Some("R2"), Some("R1")]
  {
    ListingIsTenantRunIds(ExampleDocs(), "AA");
    ExampleTenantRunIds();
    ExampleKeysDescending();
    DescendingUnique([Some("R3"), Some("R2"), Some("R1")], RunIdListing(ExampleDocs(), "AA"));
  }

  /**
   * Three runs of tenant "AA" and one of tenant "BB"; pages of size 2 are
   * [R3, R2], [R1] and then empty.
   */
  lemma ExamplePages()
    ensures GetDistinctRunIdsByIataPaged(ExampleDocs(), "AA", 0, 2) == [Some("R3"), Some("R2")]
    ensures GetDistinctRunIdsByIataPaged(ExampleDocs(), "AA", 1, 2) == [Some("R1")]
    ensures GetDistinctRunIdsByIataPaged(ExampleDocs(), "AA", 2, 2) == []
  {
    ExampleListing();
    PagedIsPageOfListing(ExampleDocs(), "AA", 0, 2);
    PagedIsPageOfListing(ExampleDocs(), "AA", 1, 2);
    PagedIsPageOfListing(ExampleDocs(), "AA", 2, 2);
    ExampleListingPages([Some("R3"), Some("R2"), Some("R1")]);
  }

  lemma ExampleListingPages(all: seq<Key>)
    requires all == [Some("R3"), Some("R2"), Some("R1")]
    ensures Page(all, 0, 2) == [Some("R3"), Some("R2")]
    ensures Page(all, 1, 2) == [Some("R1")]
    ensures Page(all, 2, 2) == []
  {
    assert Skip(all, 0) == all;
    assert Skip(all, 2) == [Some("R1")];
  }

  /** Runs "R2", "R10" and "R1", created in that order (ascending ids), and a document without a runId. */
  function OrderExampleDocs(): seq<TestMethodResult> {
    [Doc("01", "R2", "AA"), Doc("02", "R10", "AA"), Doc("03", "R1", "AA"), Doc("04", "R1", "AA"),
     Doc("05", "R1", "AA").(runId := None)]
  }

  lemma OrderExampleTenantRunIds()
    ensures TenantRunIds(OrderExampleDocs(), "AA") == {Some("R1"), Some("R10"), Some("R2"), None}
  {
    var docs := OrderExampleDocs();
    assert docs[0].runId == Some("R2") && docs[1].runId == Some("R10") && docs[2].runId == Some("R1");
    assert docs[4].runId == None;
  }

  lemma OrderExampleKeysDescending()
    ensures StrictlyDescending([Some("R2"), Some("R10"), Some("R1"), None])
    ensures Elems([Some("R2"), Some("R10"), Some("R1"), None]) == {Some("R1"), Some("R10"), Some("R2"), None}
  {
    assert StrLess("R1", "R10") && StrLess("R10", "R2") && StrLess("R1", "R2");
  }

  /**
   * The order is that of the runId strings, not of creation: the oldest run
   * "R2" comes first because "R2" is the greatest string, "R10" sorts between
   * "R2" and "R1", and the null runId of a document without one is listed last.
   */
  lemma ExampleOrderFollowsRunId()
    ensures GetDistinctRunIdsByIataPaged(OrderExampleDocs(), "AA", 0, 10) == [Some("R2"), Some("R10"), Some("R1"), None]
  {
    ListingIsTenantRunIds(OrderExampleDocs(), "AA");
    OrderExampleTenantRunIds();
    OrderExampleKeysDescending();
    DescendingUnique([Some("R2"), Some("R10"), Some("R1"), None], RunIdListing(OrderExampleDocs(), "AA"));
    PagedIsPageOfListing(OrderExampleDocs(), "AA", 0, 10);
  }

  // ----- writes -----

  /** The service together with the collection it writes to. */
  class TestMethodResultService {
    var store: Store

    ghost predicate Valid()
      reads this
    {
      WellKeyed(store)
    }

    constructor (initial: Store)
      requires WellKeyed(initial)
      ensures Valid() && store == initial
    {
      store := initial;
    }

    /**
     * `save` of a new document. A document without an id gets the one the store
     * generates, `generatedId`, which is not yet in use; one with an id replaces
     * (or inserts) the document under that id.
     */
    method CreateTestResult(doc: TestMethodResult, generatedId: string) returns (saved: TestMethodResult)
      requires Valid()
      requires doc.id.None? ==> generatedId !in store
      modifies this
      ensures Valid()
      ensures saved == doc.(id := Some(if doc.id.Some? then doc.id.value else generatedId))
      ensures doc.id.None? ==> saved.id.value !in old(store)
      ensures store == old(store)[saved.id.value := saved]
    {
      var key := if doc.id.Some? then doc.id.value else generatedId;
      saved := doc.(id := Some(key));
      store := store[key := saved];
    }

    /** Replaces the document under `id`, which must exist, by `doc` with its id set to `id`. */
    method UpdateTestResult(id: string, doc: TestMethodResult) returns (r: Result<TestMethodResult, Error>)
      requires Valid()
      modifies this
      ensures Valid()
      ensures id in old(store) ==>
        r == Success(doc.(id := Some(id))) && store == old(store)[id := doc.(id := Some(id))]
      ensures id !in old(store) ==>
        r == Failure(NotFound("Test result not found with id: " + id)) && store == old(store)
      ensures forall k :: k in old(store) && k != id ==> k in store && store[k] == old(store)[k]
    {
      if id in store {
        var updated := doc.(id := Some(id));
        store := store[id := updated];
        r := Success(updated);
      } else {
        r := Failure(NotFound("Test result not found with id: " + id));
      }
    }

    /** Removes the document under `id`, which must exist. */
    method DeleteTestResult(id: string) returns (r: Result<(), Error>)
      requires Valid()
      modifies this
      ensures Valid()
      ensures id in old(store) ==> r == Success(()) && store == old(store) - {id}
      ensures id !in old(store) ==>
        r == Failure(NotFound("Test result not found with id: " + id)) && store == old(store)
      ensures forall k :: k in old(store) && k != id ==> k in store && store[k] == old(store)[k]
    {
      if id !in store {
        r := Failure(NotFound("Test result not found with id: " + id));
        return;
      }
      store := store - {id};
      r := Success(());
    }
  }

  /**
   * After a create, the run lookup of the new document's run and tenant succeeds
   * and returns the document with every field as given and its new id.
   */
  lemma CreatedResultIsFound(store: Store, doc: TestMethodResult, key: string, runId: string, iata: string)
    requires doc.runId == Some(runId) && doc.iata == Some(iata)
    ensures var after := store[key := doc.(id := Some(key))];
      && GetTestResultsByRunId(after, runId, iata).Success?
      && doc.(id := Some(key)) in GetTestResultsByRunId(after, runId, iata).value
  {
    FindAfterSave(store, key, doc.(id := Some(key)), runId, "", "", "", iata);
  }

  /**
   * After a delete, the id lookup finds nothing, and the run lookup fails
   * exactly when the deleted document was the run's only match.
   */
  lemma DeletedResultIsGone(store: Store, id: string, runId: string, iata: string)
    requires WellKeyed(store) && id in store
    ensures GetTestResultById(store - {id}, id) == None
    ensures GetTestResultsByRunId(store - {id}, runId, iata).Failure?
      <==> FindByRunIdAndIata(store, runId, iata) <= {store[id]}
  {
    FindAfterDelete(store, id, runId, iata);
    var before, after := FindByRunIdAndIata(store, runId, iata), FindByRunIdAndIata(store - {id}, runId, iata);
    assert after == {} <==> before <= {store[id]};
  }
}
