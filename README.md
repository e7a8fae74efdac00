# Oracle reconciliation of the real-estate dashboard, in Dafny

The dashboard shows, for each tokenized property, the status of its off-chain
valuation oracle. It keeps a list of oracle contract events in memory. A fetch
(`fetchRecentEvents`) replaces that list with the parsed logs, newest first, and
three contract listeners put each live event in front of it. From that list the
property page derives its view of the oracle:

- which events belong to the property;
- which `PropertyValuationRequested` events are still pending;
- the latest `PropertyValuationUpdated` event;
- the `RequestFailed` events;
- whether a new request may be made, and whether one should be made
  automatically because the last update is more than 24 hours old.

The page also guards the valuation request, reads a size hint out of the
property description, and steps an image carousel.

The model follows the code as written. Points a reader might not expect:

- Only a strictly later `PropertyValuationUpdated` for the same id resolves a
  request. A `RequestFailed` event never does, so after a failure the property
  stays "Updating..." and no new request can be made
  (`OracleStatus.ScenarioFailureDoesNotResolve`).
- `failedRequests` keeps list order. It is not sorted by time.
- Records built by the `RequestFailed` listener carry no property id. No
  property page ever sees them (`OracleEventLog.RecordWithoutIdInvisible`).
- The latest update is the first maximum of the list. Stable sorting breaks
  ties by list position, so only its timestamp, not the event itself, is
  independent of list order.
- Each event's timestamp is the clock reading taken when the dashboard saw it,
  not chain time. When one fetch stamps all its logs with the same millisecond,
  no fetched update can resolve a fetched request
  (`OracleEventLog.SameStampFetchLeavesRequestsPending`).

Modules:

- `Wrappers` holds `Option`.
- `Seqs` holds `filter`, `some`, `reverse` and `slice` as sequence functions, with
  their laws.
- `OracleTypes` holds the event records and the decimal form of ids.
- `OracleStatus` holds the pure status computation.
- `SizeHint` holds the regular-expression size extraction.
- `PropertyOracle` holds the state cells of `usePropertyWithOracle`, as a class.
- `OracleEventLog` holds the `events`/`loading`/`error` state of
  `useOracleEvents`, as a class.
- `PropertyDetails` holds the carousel, as a class, and the display decisions.

Timestamps are integers in milliseconds. The clock, the provider (`getLogs`),
the ABI parser (`parseLog`) and the outcome of the contract call are inputs.

## Model

| member | source | states |
|---|---|---|
| `OracleTypes.ToDecimal` | src/hooks/Properties/usePropertyWithOracle.js:26 | an id's `toString()` form is a non-empty digit string without a leading zero unless it is "0" |
| `OracleTypes.ToDecimalRoundTrip` | src/hooks/Properties/usePropertyWithOracle.js:26 | the `toString()` form is the decimal form: read back as a decimal number it gives the id |
| `OracleTypes.ToDecimalInjective` | src/hooks/Properties/usePropertyWithOracle.js:26 | two ids with the same `toString()` form are equal, so the string comparison compares ids |
| `OracleTypes.IdStringCompares` | src/hooks/Properties/usePropertyWithOracle.js:75 | comparing the `propertyId?.toString()` forms of two events with `===` compares their ids, absent ones included |
| `OracleStatus.PropertyEvents` | src/hooks/Properties/usePropertyWithOracle.js:25-27 | an event is kept iff it is in the list, its id is present and non-zero, and the id prints as the requested id |
| `OracleStatus.PropertyEventsAppend` | src/hooks/Properties/usePropertyWithOracle.js:25-27 | the filter keeps relative order: it distributes over concatenation |
| `OracleStatus.PropertyEventsOfId` | src/hooks/Properties/usePropertyWithOracle.js:25-27 | asking for id k selects exactly the events whose id is k, and nothing when k is 0 |
| `OracleStatus.PendingRequests` | src/hooks/Properties/usePropertyWithOracle.js:71-78 | a request is pending iff no `PropertyValuationUpdated` with the same id has a strictly greater timestamp |
| `OracleStatus.PendingRequestsMultiset` | src/hooks/Properties/usePropertyWithOracle.js:71-78 | every copy of a pending request is kept and nothing else, so the length counts the outstanding requests |
| `OracleStatus.IsPendingSameResolvers` | src/hooks/Properties/usePropertyWithOracle.js:73-77 | whether a request is pending depends only on which resolving updates are present |
| `OracleStatus.PendingIgnoresOtherEvents` | src/hooks/Properties/usePropertyWithOracle.js:71-78 | inserting a `RequestFailed` (or any non-request, non-update) event anywhere leaves the pending requests unchanged |
| `OracleStatus.PendingCountOrderIndependent` | src/hooks/Properties/usePropertyWithOracle.js:71-91 | reordering the events changes neither the pending count nor `canRequestUpdate` |
| `OracleStatus.FailedRequests` | src/hooks/Properties/usePropertyWithOracle.js:84 | holds exactly the `RequestFailed` events of the property |
| `OracleStatus.FailedRequestsAppend` | src/hooks/Properties/usePropertyWithOracle.js:84 | failures keep list order: the filter distributes over concatenation |
| `OracleStatus.LatestUpdateIndex` | src/hooks/Properties/usePropertyWithOracle.js:80-82 | the position that a stable newest-first sort puts first: an update, no older than any other update, and strictly newer than every update before it |
| `OracleStatus.LastUpdate` | src/hooks/Properties/usePropertyWithOracle.js:80-82 | absent iff there is no update; otherwise an update of the list whose timestamp is at least every update's |
| `OracleStatus.LastUpdateTimestampOrderIndependent` | src/hooks/Properties/usePropertyWithOracle.js:80-82 | reordering the events changes neither whether there is a last update nor its timestamp |
| `OracleStatus.GetPropertyOracleStatus` | src/hooks/Properties/usePropertyWithOracle.js:86-92 | `hasPendingRequests` iff the count is positive iff some request has no strictly later update; `canRequestUpdate == !hasPendingRequests`; `pendingRequestsCount` is the length of `pendingRequests` |
| `OracleStatus.ShouldAutoUpdate` | src/hooks/Properties/usePropertyWithOracle.js:95-108 | true iff auto-update is on, a property is loaded, no request is pending, and every update is at least 86,400,000 ms old (vacuous when there is none) |
| `OracleStatus.ScenarioFailureDoesNotResolve` | src/hooks/Properties/usePropertyWithOracle.js:71-84 | a request followed by a later failure is still pending, and the failure is listed |
| `OracleStatus.ScenarioSameTimestampUpdate` | src/hooks/Properties/usePropertyWithOracle.js:71-78 | an update with the same timestamp as the request leaves the request pending |
| `OracleStatus.ScenarioLaterUpdate` | src/hooks/Properties/usePropertyWithOracle.js:71-82 | a strictly later update resolves the request and becomes the last update |
| `OracleStatus.ScenarioStaleness` | src/hooks/Properties/usePropertyWithOracle.js:101-105 | an update 25 hours old makes an auto-update due; one 23 hours old does not |
| `SizeHint.DigitRunEnd` | src/hooks/Properties/usePropertyWithOracle.js:37 | greedy `\d+`: the end of the maximal digit run |
| `SizeHint.SpaceRunEnd` | src/hooks/Properties/usePropertyWithOracle.js:37 | greedy `\s*`: the end of the maximal white-space run |
| `SizeHint.FirstMatch` | src/hooks/Properties/usePropertyWithOracle.js:37 | the leftmost position where `(\d+)\s*sq\s*ft` matches, or none when nothing matches |
| `SizeHint.SizeFromDescription` | src/hooks/Properties/usePropertyWithOracle.js:37 | always a non-empty digit string: the digits of the leftmost match, else "2000" (also for a missing description) |
| `SizeHint.CapturedRunIsWhole` | src/hooks/Properties/usePropertyWithOracle.js:37 | the captured digits are never the tail of a longer number |
| `SizeHint.DigitRunEndAt` | src/hooks/Properties/usePropertyWithOracle.js:37 | a digit run not continued by a digit ends where it stops |
| `SizeHint.MatchOfNumber` | src/hooks/Properties/usePropertyWithOracle.js:37 | a digit run followed by " sq ft" is a match that captures exactly that run |
| `SizeHint.FirstMatchIs` | src/hooks/Properties/usePropertyWithOracle.js:37 | a match with no digit before it is the leftmost match |
| `SizeHint.SizeRoundTrip` | src/hooks/Properties/usePropertyWithOracle.js:37 | any digit string written as "<digits> sq ft" after digit-free text is read back unchanged |
| `PropertyOracle.PlanValuationRequest` | src/hooks/Properties/usePropertyWithOracle.js:30-39 | no call iff the property is missing, the address is missing or empty, or the wallet is disconnected; otherwise the call carries the id, the location and a digit-string size |
| `PropertyOracle.PropertyOracleState.constructor` | src/hooks/Properties/usePropertyWithOracle.js:12-13 | auto-update starts off and `lastOracleUpdate` starts `null` |
| `PropertyOracle.PropertyOracleState.SetAutoUpdateEnabled` | src/hooks/Properties/usePropertyWithOracle.js:12 | sets the switch and nothing else |
| `PropertyOracle.PropertyOracleState.SyncLastOracleUpdate` | src/hooks/Properties/usePropertyWithOracle.js:60-68 | with an update present, `lastOracleUpdate` becomes the newest update timestamp; otherwise it is left as it was |
| `PropertyOracle.PropertyOracleState.RequestPropertyValuationUpdate` | src/hooks/Properties/usePropertyWithOracle.js:29-57 | the guard decides whether a call is made; only a truthy result sets `lastOracleUpdate` to now; a thrown error is rethrown and changes nothing |
| `PropertyOracle.PropertyOracleState.AutoUpdateTick` | src/hooks/Properties/usePropertyWithOracle.js:111-118 | a call is made only when `shouldAutoUpdate` holds, so only with no pending request and no update younger than a day; `lastOracleUpdate` changes only after a call with a truthy result, and then to the clock reading taken after the call returns, not the one the decision used |
| `Seqs.Reverse` | src/hooks/Properties/useOracleEvents.js:48 | the reversed list has the same length, with element k taken from position n-1-k |
| `OracleEventLog.ParsedEvents` | src/hooks/Properties/useOracleEvents.js:31-46 | at most one record per log; a record is in the result iff some log parses to it with its clock reading |
| `OracleEventLog.ParseLogs` | src/hooks/Properties/useOracleEvents.js:31-46 | the push loop computes exactly `ParsedEvents`, skipping logs whose parse throws |
| `OracleEventLog.ParsedEventsCount` | src/hooks/Properties/useOracleEvents.js:33-46 | the number of records equals the number of logs that parse |
| `OracleEventLog.ParsedEventsInBlockOrder` | src/hooks/Properties/useOracleEvents.js:33-46 | logs in block order give records in block order |
| `OracleEventLog.FetchedNewestFirst` | src/hooks/Properties/useOracleEvents.js:48 | after the reversal the fetched list is in descending block order, most recent first |
| `OracleEventLog.SameStampFetchLeavesRequestsPending` | src/hooks/Properties/useOracleEvents.js:41 | when one fetch stamps all logs alike, every fetched request of a property is pending |
| `OracleEventLog.EventLog.constructor` | src/hooks/Properties/useOracleEvents.js:8-10 | an empty list, not loading, no error |
| `OracleEventLog.EventLog.FetchRecentEvents` | src/hooks/Properties/useOracleEvents.js:15-55 | without a contract nothing changes; on success the whole list is replaced by the reversed parsed logs and the error cleared; on failure the list is kept and the error set; loading ends false |
| `OracleEventLog.EventLog.OnPropertyValuationRequested` | src/hooks/Properties/useOracleEvents.js:60-69 | prepends one request record with the event's block and hash; the rest of the list is unchanged |
| `OracleEventLog.EventLog.OnPropertyValuationUpdated` | src/hooks/Properties/useOracleEvents.js:71-80 | prepends one update record with the event's block and hash; the rest of the list is unchanged |
| `OracleEventLog.EventLog.OnRequestFailed` | src/hooks/Properties/useOracleEvents.js:82-91 | prepends one failure record whose args hold only the request id and the error; the rest of the list is unchanged |
| `OracleEventLog.RecordWithoutIdInvisible` | src/hooks/Properties/useOracleEvents.js:82-84 | a record without a property id, such as a live failure, changes no property's events |
| `OracleEventLog.LiveRequestBlocksRequests` | src/hooks/Properties/useOracleEvents.js:60-68 | a live request no older than the listed events is pending and disables further requests for its property |
| `OracleEventLog.LiveUpdateResolvesRequests` | src/hooks/Properties/useOracleEvents.js:71-79 | a live update newer than all listed events resolves every request of its property and becomes its last update |
| `PropertyDetails.JsRem` | src/components/properties/PropertyDetails.jsx:40 | JavaScript `%`: for a non-negative dividend the Euclidean remainder, otherwise a non-positive one |
| `PropertyDetails.CarouselLength` | src/components/properties/PropertyDetails.jsx:40 | the image count, or 1 for a missing or empty list |
| `PropertyDetails.NextIndex` | src/components/properties/PropertyDetails.jsx:39-41 | for a non-negative index the result is in `[0, n)`, and always 0 with a single image |
| `PropertyDetails.PrevIndex` | src/components/properties/PropertyDetails.jsx:43-47 | for any index from 1-n up, including every non-negative one, the result is in `[0, n)` |
| `PropertyDetails.StepValues` | src/components/properties/PropertyDetails.jsx:39-47 | for an index in range, next is one further and 0 after the last image; previous is one back and n-1 from image 0 |
| `PropertyDetails.NextPrevInverse` | src/components/properties/PropertyDetails.jsx:39-47 | for an index in range, previous after next and next after previous give the index back |
| `PropertyDetails.NextTimesAdvances` | src/components/properties/PropertyDetails.jsx:40 | k presses of next move the index to `(i + k) mod n` |
| `PropertyDetails.NextCycleReturns` | src/components/properties/PropertyDetails.jsx:40 | n presses of next return to the starting index |
| `PropertyDetails.Carousel.constructor` | src/components/properties/PropertyDetails.jsx:34 | the carousel starts at image 0 |
| `PropertyDetails.Carousel.NextImage` | src/components/properties/PropertyDetails.jsx:39-41 | the functional update applies `NextIndex`, keeps the index non-negative and below the image count |
| `PropertyDetails.Carousel.PrevImage` | src/components/properties/PropertyDetails.jsx:43-47 | the functional update applies `PrevIndex`, keeps the index non-negative and below the image count |
| `PropertyDetails.RequestButtonDisabled` | src/components/properties/PropertyDetails.jsx:264 | disabled iff the request call is running or some request of the property has no strictly later update |
| `PropertyDetails.OracleStatusLabel` | src/components/properties/PropertyDetails.jsx:233-241 | "Updating..." iff some request is pending, "Ready" otherwise |
| `PropertyDetails.FailureNotice` | src/components/properties/PropertyDetails.jsx:275-281 | shown iff the property has a `RequestFailed` event, and the number shown is exactly the number of `RequestFailed` events of the property |
| `PropertyDetails.RecentActivity` | src/components/properties/PropertyDetails.jsx:286-290 | hidden iff there are no events; otherwise the first min(3, n) events, in order |

## Left out

- Contract and provider plumbing is not modelled: `getLogs`, `parseLog`,
  `contract.on`/`off`, `tx.wait` and the receipt log lookup. A fetch's logs, each
  log's parse result and the outcome of `requestValuationUpdate` are inputs.
- The hooks in `useOracleAdmin.js`, `useRequestValuationUpdate.js`,
  `useUpdateProperty.js`, `useGetPropertyFinancials.js` and `useOracleStatus.js`
  are thin wrappers over contract calls. The call outcome stands in for
  `requestValuationUpdate` and the others are not part of this model.
- `index.js` only re-exports. `PropertyManagement.jsx` is form UI with emptiness
  guards.
- Fixed-point conversion with `parseEther`/`formatEther`, and the
  `Number(newValuation) / 1e18` display, are floating point and foreign code.
- Timestamps are integer milliseconds, not ISO strings. The hour division
  compared with 24 in `shouldAutoUpdate` is modelled as a millisecond difference
  compared with 86,400,000. `toLocaleString`, `toLocaleTimeString` and the
  "Never" label are rendering.
- React scheduling is not modelled: the 2-second refresh after a request, when
  effects run, and re-entry of the auto-update effect. The auto-update decision
  reads only the event list, not `lastOracleUpdate`, so it can fire again before
  the new request's event arrives. The model states the single decision, not
  that timing.
- Toasts, console logging, wallet state from `useAppKitAccount` (it is an
  input) and all JSX layout and animation are not modelled.
- The combined `loading` flag of `usePropertyWithOracle` is a plain disjunction
  of the hooks' flags and is not modelled.
- `OracleStatus.LatestUpdateIndex`: specified by the element that a stable
  newest-first sort puts first. The sort itself is not modelled.
- The fetch's `fromBlock` argument and the log filter are folded into the
  `getLogs` input.
