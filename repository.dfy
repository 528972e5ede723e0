/**
 * The result repository: the collection as a map from document id to document,
 * and the six derived finders, each a conjunction of field equalities. A
 * finder's answer is a set because the store promises no order.
 */
module Repository {
  import opened Wrappers
  import opened Model

  type Store = map<string, TestMethodResult>

  /** Every stored document carries its own key as its id. */
  ghost predicate WellKeyed(store: Store) {
    forall k :: k in store ==> store[k].id == Some(k)
  }

  /*
   * Each finder's contract says which stored keys it answers: a document is in
   * the answer exactly when some key holds it and its fields match.
   */

  function FindByRunIdAndIata(store: Store, runId: string, iata: string): (r: set<TestMethodResult>)
    ensures r <= store.Values
    ensures forall k :: k in store ==>
      (store[k] in r <==> store[k].runId == Some(runId) && store[k].iata == Some(iata))
  {
    set d | d in store.Values && d.runId == Some(runId) && d.iata == Some(iata)
  }

  function FindByRunIdAndSuiteTypeAndIata(store: Store, runId: string, suiteType: string, iata: string): (r: set<TestMethodResult>)
    ensures r <= store.Values
    ensures forall k :: k in store ==>
      (store[k] in r <==> store[k].runId == Some(runId) && store[k].suiteType == Some(suiteType) && store[k].iata == Some(iata))
  {
    set d | d in store.Values && d.runId == Some(runId) && d.suiteType == Some(suiteType) && d.iata == Some(iata)
  }

  function FindByRunIdAndFeatureNameAndIata(store: Store, runId: string, featureName: string, iata: string): (r: set<TestMethodResult>)
    ensures r <= store.Values
    ensures forall k :: k in store ==>
      (store[k] in r <==> store[k].runId == Some(runId) && store[k].featureName == Some(featureName) && store[k].iata == Some(iata))
  {
    set d | d in store.Values && d.runId == Some(runId) && d.featureName == Some(featureName) && d.iata == Some(iata)
  }

  function FindByRunIdAndStatusAndIata(store: Store, runId: string, status: string, iata: string): (r: set<TestMethodResult>)
    ensures r <= store.Values
    ensures forall k :: k in store ==>
      (store[k] in r <==> store[k].runId == Some(runId) && store[k].status == Some(status) && store[k].iata == Some(iata))
  {
    set d | d in store.Values && d.runId == Some(runId) && d.status == Some(status) && d.iata == Some(iata)
  }

  function FindByRunIdAndSuiteTypeAndStatusAndIata(store: Store, runId: string, suiteType: string, status: string, iata: string): (r: set<TestMethodResult>)
    ensures r <= store.Values
    ensures forall k :: k in store ==>
      (store[k] in r <==>
        store[k].runId == Some(runId) && store[k].suiteType == Some(suiteType)
        && store[k].status == Some(status) && store[k].iata == Some(iata))
  {
    set d | d in store.Values && d.runId == Some(runId) && d.suiteType == Some(suiteType)
      && d.status == Some(status) && d.iata == Some(iata)
  }

  function FindByRunIdAndFeatureNameAndStatusAndIata(store: Store, runId: string, featureName: string, status: string, iata: string): (r: set<TestMethodResult>)
    ensures r <= store.Values
    ensures forall k :: k in store ==>
      (store[k] in r <==>
        store[k].runId == Some(runId) && store[k].featureName == Some(featureName)
        && store[k].status == Some(status) && store[k].iata == Some(iata))
  {
    set d | d in store.Values && d.runId == Some(runId) && d.featureName == Some(featureName)
      && d.status == Some(status) && d.iata == Some(iata)
  }

  /** Every finder answers with stored documents of the requested tenant and run only. */
  lemma FindersStayInTenantAndRun(store: Store, runId: string, suiteType: string, featureName: string, status: string, iata: string)
    ensures forall d :: d in FindByRunIdAndIata(store, runId, iata) ==>
      d in store.Values && d.iata == Some(iata) && d.runId == Some(runId)
    ensures FindByRunIdAndSuiteTypeAndIata(store, runId, suiteType, iata) <= FindByRunIdAndIata(store, runId, iata)
    ensures FindByRunIdAndFeatureNameAndIata(store, runId, featureName, iata) <= FindByRunIdAndIata(store, runId, iata)
    ensures FindByRunIdAndStatusAndIata(store, runId, status, iata) <= FindByRunIdAndIata(store, runId, iata)
    ensures FindByRunIdAndSuiteTypeAndStatusAndIata(store, runId, suiteType, status, iata) <= FindByRunIdAndIata(store, runId, iata)
    ensures FindByRunIdAndFeatureNameAndStatusAndIata(store, runId, featureName, status, iata) <= FindByRunIdAndIata(store, runId, iata)
  {
  }

  /** Each status-filtered finder answers a subset of its unfiltered counterpart, holding only that status. */
  lemma StatusFiltersNarrow(store: Store, runId: string, suiteType: string, featureName: string, status: string, iata: string)
    ensures FindByRunIdAndStatusAndIata(store, runId, status, iata) <= FindByRunIdAndIata(store, runId, iata)
    ensures FindByRunIdAndSuiteTypeAndStatusAndIata(store, runId, suiteType, status, iata)
      <= FindByRunIdAndSuiteTypeAndIata(store, runId, suiteType, iata)
    ensures FindByRunIdAndFeatureNameAndStatusAndIata(store, runId, featureName, status, iata)
      <= FindByRunIdAndFeatureNameAndIata(store, runId, featureName, iata)
    ensures forall d :: d in FindByRunIdAndStatusAndIata(store, runId, status, iata) ==> d.status == Some(status)
    ensures forall d :: d in FindByRunIdAndSuiteTypeAndStatusAndIata(store, runId, suiteType, status, iata) ==>
      d.status == Some(status)
    ensures forall d :: d in FindByRunIdAndFeatureNameAndStatusAndIata(store, runId, featureName, status, iata) ==>
      d.status == Some(status)
  {
  }

  /** Filtering by suite (or feature) and status is filtering by each and intersecting. */
  lemma CombinedFindersAreIntersections(store: Store, runId: string, suiteType: string, featureName: string, status: string, iata: string)
    ensures FindByRunIdAndSuiteTypeAndStatusAndIata(store, runId, suiteType, status, iata)
      == FindByRunIdAndSuiteTypeAndIata(store, runId, suiteType, iata) * FindByRunIdAndStatusAndIata(store, runId, status, iata)
    ensures FindByRunIdAndFeatureNameAndStatusAndIata(store, runId, featureName, status, iata)
      == FindByRunIdAndFeatureNameAndIata(store, runId, featureName, iata) * FindByRunIdAndStatusAndIata(store, runId, status, iata)
  {
  }

  /** Removing one key removes exactly that key's document from a finder's answer. */
  lemma FindAfterDelete(store: Store, id: string, runId: string, iata: string)
    requires WellKeyed(store) && id in store
    ensures FindByRunIdAndIata(store - {id}, runId, iata) == FindByRunIdAndIata(store, runId, iata) - {store[id]}
  {
    var rest := store - {id};
    forall d | d in store.Values && d != store[id] ensures d in rest.Values {
      var k :| k in store && store[k] == d;
      assert k != id && k in rest && rest[k] == d;
    }
    forall d | d in rest.Values ensures d in store.Values && d != store[id] {
      var k :| k in rest && rest[k] == d;
      assert store[k] == d && k != id;
    }
  }

  /** Storing a document under a key adds it to the answer of every finder whose filters it matches. */
  lemma FindAfterSave(store: Store, id: string, d: TestMethodResult, runId: string, suiteType: string,
                      featureName: string, status: string, iata: string)
    requires d.runId == Some(runId) && d.iata == Some(iata)
    ensures var s := store[id := d];
      && d in FindByRunIdAndIata(s, runId, iata)
      && (d.suiteType == Some(suiteType) ==> d in FindByRunIdAndSuiteTypeAndIata(s, runId, suiteType, iata))
      && (d.featureName == Some(featureName) ==> d in FindByRunIdAndFeatureNameAndIata(s, runId, featureName, iata))
      && (d.status == Some(status) ==> d in FindByRunIdAndStatusAndIata(s, runId, status, iata))
      && (d.suiteType == Some(suiteType) && d.status == Some(status) ==>
            d in FindByRunIdAndSuiteTypeAndStatusAndIata(s, runId, suiteType, status, iata))
      && (d.featureName == Some(featureName) && d.status == Some(status) ==>
            d in FindByRunIdAndFeatureNameAndStatusAndIata(s, runId, featureName, status, iata))
  {
    assert id in store[id := d] && store[id := d][id] == d;
  }
}
