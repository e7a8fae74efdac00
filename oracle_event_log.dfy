/**
 * The `events` list of `useOracleEvents`, with its `loading` and `error`
 * flags: a fetch replaces the list with the parsed logs, newest first, and
 * the three contract listeners each put one record in front of it. The
 * provider and the ABI parser are inputs: `getLogs` becomes a `LogsResult`
 * and `parseLog` the `parsed` field of each raw log.
 */
module OracleEventLog {
  import opened Wrappers
  import opened Seqs
  import opened OracleTypes
  import opened OracleStatus

  /** What `contract.interface.parseLog(log)` returns: the event name and its args. */
  datatype ParsedLog = ParsedLog(name: EventName, args: EventArgs)

  /** One log from `getLogs`; `parsed` is `None` when `parseLog` throws on it. */
  datatype RawLog = RawLog(parsed: Option<ParsedLog>, blockNumber: nat, transactionHash: string)

  /** How `contract.provider.getLogs(filter)` ended. */
  datatype LogsResult = Logs(logs: seq<RawLog>) | GetLogsFailed(message: string)

  /** The fields of the ethers event object a listener receives last. */
  datatype ChainEvent = ChainEvent(blockNumber: nat, transactionHash: string)

  /** The record pushed for a log that parsed, stamped with the clock reading taken for it. */
  function Record(log: RawLog, stamp: int): OracleEvent
    requires log.parsed.Some?
  {
    OracleEvent(log.parsed.value.name, log.parsed.value.args, log.blockNumber, log.transactionHash, stamp)
  }

  /**
   * `parsedEvents` after the loop over `logs` (before it is reversed): one
   * record per log that parses, in log order; `stamps[i]` is the clock
   * reading taken for log `i`.
   */
  function ParsedEvents(logs: seq<RawLog>, stamps: seq<int>): (r: seq<OracleEvent>)
    requires |stamps| == |logs|
    ensures |r| <= |logs|
    ensures forall e :: e in r <==>
      exists i :: 0 <= i < |logs| && logs[i].parsed.Some? && e == Record(logs[i], stamps[i])
    decreases |logs|
  {
    if logs == [] then []
    else
      var n := |logs| - 1;
      var front := ParsedEvents(logs[..n], stamps[..n]);
      assert forall i :: 0 <= i < n ==> logs[..n][i] == logs[i] && stamps[..n][i] == stamps[i];
      front + if logs[n].parsed.Some? then [Record(logs[n], stamps[n])] else []
  }

  /** The loop of `fetchRecentEvents`: a log whose parse throws is skipped. */
  method ParseLogs(logs: seq<RawLog>, stamps: seq<int>) returns (parsed: seq<OracleEvent>)
    requires |stamps| == |logs|
    ensures parsed == ParsedEvents(logs, stamps)
  {
    parsed := [];
    var i := 0;
    while i < |logs|
      invariant 0 <= i <= |logs|
      invariant parsed == ParsedEvents(logs[..i], stamps[..i])
    {
      var log := logs[i];
      assert logs[..i + 1][..i] == logs[..i] && stamps[..i + 1][..i] == stamps[..i];
      if log.parsed.Some? {
        var p := log.parsed.value;
        parsed := parsed + [OracleEvent(p.name, p.args, log.blockNumber, log.transactionHash, stamps[i])];
      }
      i := i + 1;
    }
    assert logs[..i] == logs && stamps[..i] == stamps;
  }

  /** Exactly one record per log that parses. */
  lemma {:induction false} ParsedEventsCount(logs: seq<RawLog>, stamps: seq<int>)
    requires |stamps| == |logs|
    ensures |ParsedEvents(logs, stamps)| == |Filter((l: RawLog) => l.parsed.Some?, logs)|
    decreases |logs|
  {
    if logs != [] {
      var n := |logs| - 1;
      ParsedEventsCount(logs[..n], stamps[..n]);
      FilterAppend((l: RawLog) => l.parsed.Some?, logs[..n], [logs[n]]);
      assert logs[..n] + [logs[n]] == logs;
    }
  }

  /** Records in ascending block order. */
  predicate InBlockOrder(s: seq<OracleEvent>)
  {
    forall i, j :: 0 <= i < j < |s| ==> s[i].blockNumber <= s[j].blockNumber
  }

  /** Logs in chain order give parsed records in chain order. */
  lemma {:induction false} ParsedEventsInBlockOrder(logs: seq<RawLog>, stamps: seq<int>)
    requires |stamps| == |logs|
    requires forall i, j :: 0 <= i < j < |logs| ==> logs[i].blockNumber <= logs[j].blockNumber
    ensures InBlockOrder(ParsedEvents(logs, stamps))
    decreases |logs|
  {
    if logs != [] {
      var n := |logs| - 1;
      ParsedEventsInBlockOrder(logs[..n], stamps[..n]);
      var front := ParsedEvents(logs[..n], stamps[..n]);
      forall k | 0 <= k < |front| ensures front[k].blockNumber <= logs[n].blockNumber {
        assert front[k] in front;
        var i :| 0 <= i < n && logs[..n][i].parsed.Some? && front[k] == Record(logs[..n][i], stamps[..n][i]);
        assert logs[..n][i] == logs[i];
      }
      var r := ParsedEvents(logs, stamps);
      forall i, j | 0 <= i < j < |r| ensures r[i].blockNumber <= r[j].blockNumber {
        assert r[i] == front[i];
        if j < |front| {
          assert r[j] == front[j];
        } else {
          assert r[j] == Record(logs[n], stamps[n]);
        }
      }
    }
  }

  /** The fetched list, `parsedEvents.reverse()`, is newest first when the logs come in chain order. */
  lemma FetchedNewestFirst(logs: seq<RawLog>, stamps: seq<int>)
    requires |stamps| == |logs|
    requires forall i, j :: 0 <= i < j < |logs| ==> logs[i].blockNumber <= logs[j].blockNumber
    ensures var r := Reverse(ParsedEvents(logs, stamps));
      forall i, j :: 0 <= i < j < |r| ==> r[i].blockNumber >= r[j].blockNumber
  {
    ParsedEventsInBlockOrder(logs, stamps);
  }

  /**
   * When every log of a fetch is stamped with the same clock reading, no
   * fetched update can resolve a fetched request (the comparison is strict),
   * so every fetched valuation request of a property counts as pending.
   */
  lemma SameStampFetchLeavesRequestsPending(logs: seq<RawLog>, stamps: seq<int>, t: int, propertyId: Option<string>)
    requires |stamps| == |logs|
    requires forall i :: 0 <= i < |stamps| ==> stamps[i] == t
    ensures var pe := PropertyEvents(Reverse(ParsedEvents(logs, stamps)), propertyId);
      forall e :: e in pe && e.name == PropertyValuationRequested ==> e in PendingRequests(pe)
  {
    var fetched := Reverse(ParsedEvents(logs, stamps));
    var pe := PropertyEvents(fetched, propertyId);
    forall e | e in pe ensures e.timestamp == t {
      assert e in fetched;
      var k :| 0 <= k < |fetched| && fetched[k] == e;
      assert e in ParsedEvents(logs, stamps);
    }
  }

  class EventLog {
    /** `events`, newest first. */
    var events: seq<OracleEvent>
    /** `loading`. */
    var loading: bool
    /** `error`: the message of the last failed fetch, `null` otherwise. */
    var error: Option<string>

    constructor ()
      ensures events == [] && !loading && error == None
    {
      events := [];
      loading := false;
      error := None;
    }

    /**
     * `fetchRecentEvents`: without a contract nothing happens; otherwise the
     * list is replaced by the parsed logs, newest first (records the listeners
     * added are dropped), or, when `getLogs` fails, kept while `error` is set.
     * `loading` is false afterwards either way.
     */
    method FetchRecentEvents(hasContract: bool, fetched: LogsResult, stamps: seq<int>)
      requires fetched.Logs? ==> |stamps| == |fetched.logs|
      modifies this
      ensures !hasContract ==> events == old(events) && loading == old(loading) && error == old(error)
      ensures hasContract ==> !loading
      ensures hasContract && fetched.Logs? ==>
        events == Reverse(ParsedEvents(fetched.logs, stamps)) && error == None
      ensures hasContract && fetched.GetLogsFailed? ==>
        events == old(events) && error == Some(fetched.message)
    {
      if !hasContract {
        return;
      }
      loading := true;
      error := None;
      if fetched.GetLogsFailed? {
        error := Some(fetched.message);
      } else {
        var parsed := ParseLogs(fetched.logs, stamps);
        events := Reverse(parsed);
      }
      loading := false;
    }

    /** `handlePropertyValuationRequested`, observed at `now`. */
    method OnPropertyValuationRequested(propertyId: nat, requestId: nat, ev: ChainEvent, now: int)
      modifies this
      ensures |events| == |old(events)| + 1 && events[1..] == old(events)
      ensures events[0] == OracleEvent(PropertyValuationRequested,
        EventArgs(Some(propertyId), Some(requestId), None, None, None), ev.blockNumber, ev.transactionHash, now)
      ensures loading == old(loading) && error == old(error)
    {
      var newEvent := OracleEvent(PropertyValuationRequested,
        EventArgs(Some(propertyId), Some(requestId), None, None, None), ev.blockNumber, ev.transactionHash, now);
      events := [newEvent] + events;
    }

    /** `handlePropertyValuationUpdated`, observed at `now`. */
    method OnPropertyValuationUpdated(propertyId: nat, oldValuation: nat, newValuation: nat, ev: ChainEvent, now: int)
      modifies this
      ensures |events| == |old(events)| + 1 && events[1..] == old(events)
      ensures events[0] == OracleEvent(PropertyValuationUpdated,
        EventArgs(Some(propertyId), None, Some(oldValuation), Some(newValuation), None),
        ev.blockNumber, ev.transactionHash, now)
      ensures loading == old(loading) && error == old(error)
    {
      var newEvent := OracleEvent(PropertyValuationUpdated,
        EventArgs(Some(propertyId), None, Some(oldValuation), Some(newValuation), None),
        ev.blockNumber, ev.transactionHash, now);
      events := [newEvent] + events;
    }

    /** `handleRequestFailed`, observed at `now`: its record carries no property id. */
    method OnRequestFailed(requestId: nat, message: string, ev: ChainEvent, now: int)
      modifies this
      ensures |events| == |old(events)| + 1 && events[1..] == old(events)
      ensures events[0] == OracleEvent(RequestFailed,
        EventArgs(None, Some(requestId), None, None, Some(message)), ev.blockNumber, ev.transactionHash, now)
      ensures events[0].args.propertyId == None
      ensures loading == old(loading) && error == old(error)
    {
      var newEvent := OracleEvent(RequestFailed,
        EventArgs(None, Some(requestId), None, None, Some(message)), ev.blockNumber, ev.transactionHash, now);
      events := [newEvent] + events;
    }
  }

  /** A record without a property id, such as a live `RequestFailed`, shows up on no property page. */
  lemma RecordWithoutIdInvisible(e: OracleEvent, events: seq<OracleEvent>, propertyId: Option<string>)
    requires e.args.propertyId == None
    ensures PropertyEvents([e] + events, propertyId) == PropertyEvents(events, propertyId)
  {
    PropertyEventsAppend([e], events, propertyId);
    assert PropertyEvents([e], propertyId) == [];
  }

  /**
   * A valuation request observed live, no older than anything already listed,
   * blocks further requests for its property: nothing listed can resolve it.
   */
  lemma LiveRequestBlocksRequests(e: OracleEvent, events: seq<OracleEvent>, id: nat)
    requires e.name == PropertyValuationRequested && e.args.propertyId == Some(id) && id != 0
    requires forall x :: x in events ==> x.timestamp <= e.timestamp
    ensures var pe := PropertyEvents([e] + events, Some(ToDecimal(id)));
      e in PendingRequests(pe) && !GetPropertyOracleStatus(pe).canRequestUpdate
  {
    var pe := PropertyEvents([e] + events, Some(ToDecimal(id)));
    assert e in [e] + events;
    assert e in pe;
    forall u | u in pe ensures !Resolves(u, e) {
      assert u in [e] + events;
    }
  }

  /**
   * A valuation update observed live, strictly newer than everything already
   * listed, resolves every pending request of its property and becomes the
   * property's last update.
   */
  lemma LiveUpdateResolvesRequests(e: OracleEvent, events: seq<OracleEvent>, id: nat)
    requires e.name == PropertyValuationUpdated && e.args.propertyId == Some(id) && id != 0
    requires forall x :: x in events ==> x.timestamp < e.timestamp
    ensures var pe := PropertyEvents([e] + events, Some(ToDecimal(id)));
      GetPropertyOracleStatus(pe).canRequestUpdate && LastUpdate(pe) == Some(e)
  {
    var pe := PropertyEvents([e] + events, Some(ToDecimal(id)));
    assert e in [e] + events;
    assert e in pe;
    forall r | r in pe && r.name == PropertyValuationRequested ensures Resolves(e, r) {
      assert r in [e] + events;
      assert r != e;
    }
    var last := LastUpdate(pe).value;
    assert last in [e] + events;
  }
}
