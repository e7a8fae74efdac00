/**
 * The per-property oracle status of `usePropertyWithOracle`: which events
 * belong to the property, which valuation requests are still pending, the
 * latest successful update, the failures, and the 24-hour auto-update decision.
 * Everything here is a pure function of the event list (and the clock).
 */
module OracleStatus {
  import opened Wrappers
  import opened Seqs
  import opened OracleTypes

  /** The staleness window of the auto-update: 24 hours, in milliseconds. */
  const DAY_MS: int := 24 * 60 * 60 * 1000

  /**
   * The `propertyEvents` filter test: the event's property id is present and
   * truthy (a zero id is falsy) and prints as the requested id. `propertyId`
   * is the route parameter; `None` stands for `undefined`.
   */
  predicate BelongsTo(e: OracleEvent, propertyId: Option<string>)
  {
    HasTruthyPropertyId(e) && IdString(e) == propertyId
  }

  /** `propertyEvents`: the events of one property, in list order. */
  function PropertyEvents(events: seq<OracleEvent>, propertyId: Option<string>): (r: seq<OracleEvent>)
    ensures |r| <= |events|
    ensures forall e :: e in r <==> e in events && BelongsTo(e, propertyId)
  {
    Filter(e => BelongsTo(e, propertyId), events)
  }

  /** The filter keeps relative order: the events of a concatenation are the concatenated events. */
  lemma PropertyEventsAppend(a: seq<OracleEvent>, b: seq<OracleEvent>, propertyId: Option<string>)
    ensures PropertyEvents(a + b, propertyId) == PropertyEvents(a, propertyId) + PropertyEvents(b, propertyId)
  {
    FilterAppend(e => BelongsTo(e, propertyId), a, b);
  }

  /**
   * Selecting by the decimal form of an id selects exactly the events carrying
   * that id, and none at all for the id 0 (a falsy BigInt).
   */
  lemma PropertyEventsOfId(events: seq<OracleEvent>, id: nat)
    ensures forall e :: e in PropertyEvents(events, Some(ToDecimal(id))) <==>
      e in events && id != 0 && e.args.propertyId == Some(id)
  {
    forall e | e in events && BelongsTo(e, Some(ToDecimal(id)))
      ensures id != 0 && e.args.propertyId == Some(id)
    {
      ToDecimalInjective(e.args.propertyId.value, id);
    }
  }

  /** The inner `some` of `getPropertyOracleStatus`: `update` is a `PropertyValuationUpdated` for the same id with a strictly later timestamp. */
  predicate Resolves(update: OracleEvent, request: OracleEvent)
  {
    && update.name == PropertyValuationUpdated
    && IdString(update) == IdString(request)
    && update.timestamp > request.timestamp
  }

  /** The test `pendingRequests` filters by: a valuation request that no event of `pe` resolves. */
  predicate IsPending(request: OracleEvent, pe: seq<OracleEvent>)
  {
    request.name == PropertyValuationRequested && !Any(u => Resolves(u, request), pe)
  }

  /** `pendingRequests`. */
  function PendingRequests(pe: seq<OracleEvent>): (r: seq<OracleEvent>)
    ensures |r| <= |pe|
    ensures forall e :: e in r <==>
      && e in pe
      && e.name == PropertyValuationRequested
      && !(exists u :: u in pe && Resolves(u, e))
  {
    Filter(e => IsPending(e, pe), pe)
  }

  /**
   * `pendingRequests` keeps every copy of a pending request and nothing else,
   * so its length counts the outstanding requests.
   */
  lemma PendingRequestsMultiset(pe: seq<OracleEvent>)
    ensures forall x ::
      multiset(PendingRequests(pe))[x] ==
      (if x.name == PropertyValuationRequested && !(exists u :: u in pe && Resolves(u, x)) then multiset(pe)[x] else 0)
  {
    forall x
      ensures multiset(PendingRequests(pe))[x] ==
        (if x.name == PropertyValuationRequested && !(exists u :: u in pe && Resolves(u, x)) then multiset(pe)[x] else 0)
    {
      FilterCount(e => IsPending(e, pe), pe, x);
    }
  }

  /** `failedRequests`: the `RequestFailed` events, in list order. */
  function FailedRequests(pe: seq<OracleEvent>): (r: seq<OracleEvent>)
    ensures |r| <= |pe|
    ensures forall e :: e in r <==> e in pe && e.name == RequestFailed
  {
    Filter((e: OracleEvent) => e.name == RequestFailed, pe)
  }

  /** `failedRequests` keeps list order: the failures of a concatenation are the concatenated failures. */
  lemma FailedRequestsAppend(a: seq<OracleEvent>, b: seq<OracleEvent>)
    ensures FailedRequests(a + b) == FailedRequests(a) + FailedRequests(b)
  {
    FilterAppend((e: OracleEvent) => e.name == RequestFailed, a, b);
  }

  /**
   * The position of the event that `filter(Updated).sort(newest first)[0]`
   * picks. The sort is stable, so among updates sharing the newest timestamp
   * the one earliest in the list comes first; the two last ensures pin down
   * exactly that position.
   */
  function LatestUpdateIndex(pe: seq<OracleEvent>): (r: Option<nat>)
    ensures r.None? <==> forall i :: 0 <= i < |pe| ==> pe[i].name != PropertyValuationUpdated
    ensures r.Some? ==> r.value < |pe| && pe[r.value].name == PropertyValuationUpdated
    ensures r.Some? ==> forall i :: 0 <= i < |pe| && pe[i].name == PropertyValuationUpdated ==>
      pe[i].timestamp <= pe[r.value].timestamp
    ensures r.Some? ==> forall i :: 0 <= i < r.value && pe[i].name == PropertyValuationUpdated ==>
      pe[i].timestamp < pe[r.value].timestamp
  {
    if pe == [] then None
    else
      var rest := LatestUpdateIndex(pe[1..]);
      if pe[0].name != PropertyValuationUpdated then
        (if rest.None? then None else Some(rest.value + 1))
      else if rest.None? || pe[0].timestamp >= pe[rest.value + 1].timestamp then Some(0)
      else Some(rest.value + 1)
  }

  /** `lastUpdate`: the newest `PropertyValuationUpdated` event, absent when there is none. */
  function LastUpdate(pe: seq<OracleEvent>): (r: Option<OracleEvent>)
    ensures r.None? <==> forall e :: e in pe ==> e.name != PropertyValuationUpdated
    ensures r.Some? ==> r.value in pe && r.value.name == PropertyValuationUpdated
    ensures r.Some? ==> forall e :: e in pe && e.name == PropertyValuationUpdated ==>
      e.timestamp <= r.value.timestamp
  {
    match LatestUpdateIndex(pe)
    case None => None
    case Some(k) => Some(pe[k])
  }

  /** The object `getPropertyOracleStatus` returns. */
  datatype OracleStatus = OracleStatus(
    hasPendingRequests: bool,
    pendingRequestsCount: nat,
    lastUpdate: Option<OracleEvent>,
    failedRequests: seq<OracleEvent>,
    canRequestUpdate: bool)

  /** `getPropertyOracleStatus` over the property's events. */
  function GetPropertyOracleStatus(pe: seq<OracleEvent>): (s: OracleStatus)
    ensures s.hasPendingRequests <==> s.pendingRequestsCount > 0
    ensures s.canRequestUpdate <==> s.pendingRequestsCount == 0
    ensures s.canRequestUpdate <==> !s.hasPendingRequests
    ensures s.hasPendingRequests <==>
      exists r :: r in pe && r.name == PropertyValuationRequested && !(exists u :: u in pe && Resolves(u, r))
    ensures s.pendingRequestsCount <= |pe|
    ensures s.pendingRequestsCount == |PendingRequests(pe)|
    ensures s.lastUpdate == LastUpdate(pe)
    ensures s.failedRequests == FailedRequests(pe)
  {
    var pending := PendingRequests(pe);
    assert |pending| > 0 ==> pending[0] in pending;
    OracleStatus(
      hasPendingRequests := |pending| > 0,
      pendingRequestsCount := |pending|,
      lastUpdate := LastUpdate(pe),
      failedRequests := FailedRequests(pe),
      canRequestUpdate := |pending| == 0)
  }

  /**
   * `shouldAutoUpdate` at time `now`: enabled, a property is loaded, no request
   * is pending, and either there was never an update or the newest is at least a day old.
   */
  function ShouldAutoUpdate(autoUpdateEnabled: bool, hasProperty: bool, pe: seq<OracleEvent>, now: int): (r: bool)
    ensures !autoUpdateEnabled || !hasProperty ==> !r
    ensures r ==> GetPropertyOracleStatus(pe).canRequestUpdate
    ensures r <==>
      && autoUpdateEnabled
      && hasProperty
      && GetPropertyOracleStatus(pe).canRequestUpdate
      && forall u :: u in pe && u.name == PropertyValuationUpdated ==> now - u.timestamp >= DAY_MS
  {
    if !autoUpdateEnabled || !hasProperty then false
    else
      var status := GetPropertyOracleStatus(pe);
      if !status.canRequestUpdate then false
      else if status.lastUpdate.Some? then now - status.lastUpdate.value.timestamp >= DAY_MS
      else true
  }

  /** Whether a request is pending depends only on which updates that could resolve it are present. */
  lemma IsPendingSameResolvers(e: OracleEvent, s: seq<OracleEvent>, t: seq<OracleEvent>)
    requires forall u :: Resolves(u, e) ==> (u in s <==> u in t)
    ensures IsPending(e, s) == IsPending(e, t)
  {
    if Any(u => Resolves(u, e), s) {
      var i :| 0 <= i < |s| && Resolves(s[i], e);
      assert s[i] in t;
    }
    if Any(u => Resolves(u, e), t) {
      var i :| 0 <= i < |t| && Resolves(t[i], e);
      assert t[i] in s;
    }
  }

  /** Inserting an event that is neither a request nor an update changes no pending request. */
  lemma PendingIgnoresOtherEvents(a: seq<OracleEvent>, f: OracleEvent, b: seq<OracleEvent>)
    requires f.name != PropertyValuationRequested && f.name != PropertyValuationUpdated
    ensures PendingRequests(a + [f] + b) == PendingRequests(a + b)
  {
    var s, t := a + [f] + b, a + b;
    var ps := (e: OracleEvent) => IsPending(e, s);
    var pt := (e: OracleEvent) => IsPending(e, t);
    forall i | 0 <= i < |t| ensures ps(t[i]) == pt(t[i]) {
      IsPendingSameResolvers(t[i], s, t);
    }
    FilterSkip(ps, a, f, b);
    FilterCongruent(ps, pt, t);
  }

  /** Reordering the event list never changes how many requests are pending. */
  lemma PendingCountOrderIndependent(a: seq<OracleEvent>, b: seq<OracleEvent>)
    requires multiset(a) == multiset(b)
    ensures GetPropertyOracleStatus(a).pendingRequestsCount == GetPropertyOracleStatus(b).pendingRequestsCount
    ensures GetPropertyOracleStatus(a).canRequestUpdate == GetPropertyOracleStatus(b).canRequestUpdate
  {
    var pa := (e: OracleEvent) => IsPending(e, a);
    var pb := (e: OracleEvent) => IsPending(e, b);
    forall i | 0 <= i < |b| ensures pa(b[i]) == pb(b[i]) {
      forall u ensures u in a <==> u in b {
        assert u in a <==> u in multiset(a);
        assert u in b <==> u in multiset(b);
      }
      IsPendingSameResolvers(b[i], a, b);
    }
    FilterPermutation(pa, a, b);
    FilterCongruent(pa, pb, b);
  }

  /** Reordering the event list never changes the timestamp of the latest update. */
  lemma LastUpdateTimestampOrderIndependent(a: seq<OracleEvent>, b: seq<OracleEvent>)
    requires multiset(a) == multiset(b)
    ensures LastUpdate(a).Some? == LastUpdate(b).Some?
    ensures LastUpdate(a).Some? ==> LastUpdate(a).value.timestamp == LastUpdate(b).value.timestamp
  {
    forall e ensures e in a <==> e in b {
      assert e in a <==> e in multiset(a);
      assert e in b <==> e in multiset(b);
    }
  }

  /** A bare event of property `id` observed at `t`, for the scenarios below. */
  function Ev(name: EventName, id: nat, t: int): OracleEvent
  {
    OracleEvent(name, EventArgs(Some(id), None, None, None, None), 0, "", t)
  }

  /** A request followed by a failure stays pending: a failure never resolves a request. */
  lemma ScenarioFailureDoesNotResolve()
    ensures var pe := [Ev(PropertyValuationRequested, 7, 1), Ev(RequestFailed, 7, 2)];
      var s := GetPropertyOracleStatus(pe);
      s.hasPendingRequests && !s.canRequestUpdate && s.lastUpdate == None && s.failedRequests == [pe[1]]
  {
    var pe := [Ev(PropertyValuationRequested, 7, 1), Ev(RequestFailed, 7, 2)];
    assert Filter((e: OracleEvent) => e.name == RequestFailed, pe[1..]) == [pe[1]];
    assert pe[0] in pe;
  }

  /** An update with the same timestamp as the request does not resolve it. */
  lemma ScenarioSameTimestampUpdate()
    ensures GetPropertyOracleStatus([Ev(PropertyValuationRequested, 7, 5), Ev(PropertyValuationUpdated, 7, 5)]).hasPendingRequests
  {
    var e0, e1 := Ev(PropertyValuationRequested, 7, 5), Ev(PropertyValuationUpdated, 7, 5);
    var pe := [e0, e1];
    assert e0 in pe;
    forall u | u in pe ensures !Resolves(u, e0) {
      assert u == e0 || u == e1;
    }
  }

  /** A strictly later update resolves the request and becomes the last update. */
  lemma ScenarioLaterUpdate()
    ensures var pe := [Ev(PropertyValuationRequested, 7, 1), Ev(PropertyValuationUpdated, 7, 2)];
      var s := GetPropertyOracleStatus(pe);
      s.canRequestUpdate && s.lastUpdate == Some(pe[1])
  {
    var e0, e1 := Ev(PropertyValuationRequested, 7, 1), Ev(PropertyValuationUpdated, 7, 2);
    var pe := [e0, e1];
    assert Resolves(e1, e0);
    forall r | r in pe && r.name == PropertyValuationRequested ensures r == e0 {
      assert r == e0 || r == e1;
    }
    forall u | u in pe && u.name == PropertyValuationUpdated ensures u == e1 {
      assert u == e0 || u == e1;
    }
  }

  /** With the newest update 25 hours old an auto-update is due; at 23 hours it is not. */
  lemma ScenarioStaleness(t: int)
    ensures ShouldAutoUpdate(true, true, [Ev(PropertyValuationUpdated, 7, t)], t + 25 * 60 * 60 * 1000)
    ensures !ShouldAutoUpdate(true, true, [Ev(PropertyValuationUpdated, 7, t)], t + 23 * 60 * 60 * 1000)
  {
    var pe := [Ev(PropertyValuationUpdated, 7, t)];
    assert pe[0] in pe;
  }
}
