/**
 * The state `usePropertyWithOracle` keeps for one property page: the
 * auto-update switch and the last oracle update time, together with the
 * guarded valuation request and the auto-update trigger that use them.
 * The wallet, the loaded property and the outcome of the contract call are
 * inputs; the call itself is returned as the arguments it is made with.
 */
module PropertyOracle {
  import opened Wrappers
  import opened OracleTypes
  import opened OracleStatus
  import opened SizeHint

  /** The fields of a loaded property that a valuation request reads. */
  datatype Property = Property(name: string, location: string, description: Option<string>)

  /** The arguments of `requestValuationUpdate(propertyId, location, size)`. */
  datatype ValuationCall = ValuationCall(propertyId: Option<string>, location: string, size: string)

  /** How the awaited `requestValuationUpdate` call ended. */
  datatype CallOutcome =
    | NoResult                          // it returned `undefined` (its own wallet or contract check failed)
    | Receipt(transactionHash: string)  // it returned the receipt summary, a truthy object
    | Threw(message: string)            // it threw

  /** How `requestPropertyValuationUpdate` ended. */
  datatype RequestResult =
    | NotRequested                      // the guard failed: a toast, and `undefined`
    | Returned(value: CallOutcome)      // the call's value is passed back
    | Rethrown(message: string)         // the call's error is thrown again

  /** `!property || !address || !isConnected` is false: an empty address is falsy too. */
  predicate ReadyToRequest(property: Option<Property>, address: Option<string>, isConnected: bool)
  {
    property.Some? && address.Some? && address.value != "" && isConnected
  }

  /**
   * The call `requestPropertyValuationUpdate` makes, if any: none when the
   * guard fails; otherwise the property's location and the size hint read from
   * its description.
   */
  function PlanValuationRequest(property: Option<Property>, address: Option<string>, isConnected: bool,
                                propertyId: Option<string>): (call: Option<ValuationCall>)
    ensures call.None? <==> property.None? || address.None? || address.value == "" || !isConnected
    ensures call.Some? ==> call.value.propertyId == propertyId && call.value.location == property.value.location
    ensures call.Some? ==> |call.value.size| >= 1 && forall k :: 0 <= k < |call.value.size| ==> IsDigit(call.value.size[k])
    ensures call.Some? ==> call.value.size == SizeFromDescription(property.value.description)
  {
    if !ReadyToRequest(property, address, isConnected) then None
    else Some(ValuationCall(propertyId, property.value.location, SizeFromDescription(property.value.description)))
  }

  class PropertyOracleState {
    /** `autoUpdateEnabled`, initially off. */
    var autoUpdateEnabled: bool
    /** `lastOracleUpdate` in milliseconds, initially `null`. */
    var lastOracleUpdate: Option<int>

    constructor ()
      ensures !autoUpdateEnabled && lastOracleUpdate == None
    {
      autoUpdateEnabled := false;
      lastOracleUpdate := None;
    }

    /** `setAutoUpdateEnabled`, the switch on the property page. */
    method SetAutoUpdateEnabled(enabled: bool)
      modifies this
      ensures autoUpdateEnabled == enabled
      ensures lastOracleUpdate == old(lastOracleUpdate)
    {
      autoUpdateEnabled := enabled;
    }

    /**
     * The effect on `propertyEvents`: take the newest update's timestamp when
     * there is an update, and otherwise keep the current value.
     */
    method SyncLastOracleUpdate(pe: seq<OracleEvent>)
      modifies this
      ensures autoUpdateEnabled == old(autoUpdateEnabled)
      ensures (exists u :: u in pe && u.name == PropertyValuationUpdated) ==>
        lastOracleUpdate.Some? &&
        (exists u :: u in pe && u.name == PropertyValuationUpdated && lastOracleUpdate.value == u.timestamp) &&
        (forall u :: u in pe && u.name == PropertyValuationUpdated ==> u.timestamp <= lastOracleUpdate.value)
      ensures (forall u :: u in pe ==> u.name != PropertyValuationUpdated) ==>
        lastOracleUpdate == old(lastOracleUpdate)
    {
      var recentUpdate := LastUpdate(pe);
      if recentUpdate.Some? {
        lastOracleUpdate := Some(recentUpdate.value.timestamp);
      }
    }

    /**
     * `requestPropertyValuationUpdate`, where `outcome` is how the contract
     * call ends and `now` is the clock reading taken after it returns. Only a
     * truthy result records `now` as the last oracle update; a missing
     * property or wallet makes no call at all.
     */
    method RequestPropertyValuationUpdate(property: Option<Property>, address: Option<string>, isConnected: bool,
                                          propertyId: Option<string>, outcome: CallOutcome, now: int)
      returns (call: Option<ValuationCall>, result: RequestResult)
      modifies this
      ensures call == PlanValuationRequest(property, address, isConnected, propertyId)
      ensures call.None? <==> !ReadyToRequest(property, address, isConnected)
      ensures call.None? ==> result == NotRequested
      ensures call.Some? && outcome.Threw? ==> result == Rethrown(outcome.message)
      ensures call.Some? && !outcome.Threw? ==> result == Returned(outcome)
      ensures lastOracleUpdate == if call.Some? && outcome.Receipt? then Some(now) else old(lastOracleUpdate)
      ensures autoUpdateEnabled == old(autoUpdateEnabled)
    {
      call := PlanValuationRequest(property, address, isConnected, propertyId);
      if call.None? {
        result := NotRequested;
        return;
      }
      match outcome
      case Threw(message) =>
        result := Rethrown(message);
      case NoResult =>
        result := Returned(outcome);
      case Receipt(_) =>
        lastOracleUpdate := Some(now);
        result := Returned(outcome);
    }

    /**
     * The auto-update effect: when `shouldAutoUpdate()` holds at `now`, request
     * an update; a failure is only logged. A call is made only when auto-update
     * is on, a property is loaded, no request is pending, and no update of the
     * property is younger than a day. `stampedAt` is the second clock reading,
     * taken after the awaited call returns.
     */
    method AutoUpdateTick(property: Option<Property>, address: Option<string>, isConnected: bool,
                          propertyId: Option<string>, pe: seq<OracleEvent>, outcome: CallOutcome,
                          now: int, stampedAt: int)
      returns (call: Option<ValuationCall>)
      modifies this
      ensures call.Some? ==> old(autoUpdateEnabled) && property.Some?
      ensures call.Some? ==> forall r :: r in pe && r.name == PropertyValuationRequested ==>
        exists u :: u in pe && Resolves(u, r)
      ensures call.Some? ==> forall u :: u in pe && u.name == PropertyValuationUpdated ==> now - u.timestamp >= DAY_MS
      ensures ShouldAutoUpdate(old(autoUpdateEnabled), property.Some?, pe, now) ==>
        call == PlanValuationRequest(property, address, isConnected, propertyId)
      ensures !ShouldAutoUpdate(old(autoUpdateEnabled), property.Some?, pe, now) ==> call.None?
      ensures lastOracleUpdate == if call.Some? && outcome.Receipt? then Some(stampedAt) else old(lastOracleUpdate)
      ensures autoUpdateEnabled == old(autoUpdateEnabled)
    {
      call := None;
      if ShouldAutoUpdate(autoUpdateEnabled, property.Some?, pe, now) {
        var result;  // a rejected request is only logged
        call, result := RequestPropertyValuationUpdate(property, address, isConnected, propertyId, outcome, stampedAt);
      }
    }
  }
}
