/**
 * The oracle event records the dashboard keeps in memory: what the fetch
 * loop and the three contract listeners build, and what the per-property
 * status is computed from.
 */
module OracleTypes {
  import opened Wrappers

  /**
   * The event's `name` field. A parsed log may name any event of the oracle's
   * ABI; the three names the dashboard reacts to are always the named
   * constructors, so `Other` stands for the remaining names only.
   */
  datatype EventName =
    | PropertyValuationRequested
    | PropertyValuationUpdated
    | RequestFailed
    | Other(abiName: string)

  /**
   * The `args` object. Each field is present only for the events that carry it;
   * a property id is the contract's unsigned integer (a BigInt in the dashboard).
   */
  datatype EventArgs = EventArgs(
    propertyId: Option<nat>,
    requestId: Option<nat>,
    oldValuation: Option<nat>,
    newValuation: Option<nat>,
    error: Option<string>)

  /** One record of the `events` list; `timestamp` is the observation time in milliseconds. */
  datatype OracleEvent = OracleEvent(
    name: EventName,
    args: EventArgs,
    blockNumber: nat,
    transactionHash: string,
    timestamp: int)

  /** The character of one decimal digit. */
  function DigitChar(d: nat): (c: char)
    requires d < 10
    ensures '0' <= c <= '9'
    ensures c as int - '0' as int == d
  {
    (d + '0' as int) as char
  }

  /** `BigInt.prototype.toString()`: the decimal form of an unsigned integer. */
  function ToDecimal(n: nat): (s: string)
    ensures |s| >= 1
    ensures forall i :: 0 <= i < |s| ==> '0' <= s[i] <= '9'
    ensures n >= 10 ==> |s| >= 2 && s[0] != '0'
    ensures n < 10 ==> s == [DigitChar(n)]
    decreases n
  {
    if n < 10 then [DigitChar(n)] else ToDecimal(n / 10) + [DigitChar(n % 10)]
  }

  /** The number a string of decimal digits denotes, most significant digit first. */
  function DecimalValue(s: string): nat
    requires forall i :: 0 <= i < |s| ==> '0' <= s[i] <= '9'
  {
    if s == [] then 0
    else DecimalValue(s[..|s| - 1]) * 10 + (s[|s| - 1] as int - '0' as int)
  }

  /** Reading the printed form of an id back as a decimal number gives the id. */
  lemma {:induction false} ToDecimalRoundTrip(n: nat)
    ensures DecimalValue(ToDecimal(n)) == n
    decreases n
  {
    if n >= 10 {
      var s := ToDecimal(n);
      assert s[..|s| - 1] == ToDecimal(n / 10);
      ToDecimalRoundTrip(n / 10);
    }
  }

  /** Two distinct ids never print the same, so comparing `toString()` forms compares ids. */
  lemma {:induction false} ToDecimalInjective(a: nat, b: nat)
    requires ToDecimal(a) == ToDecimal(b)
    ensures a == b
    decreases a
  {
    if a >= 10 && b >= 10 {
      var sa, sb := ToDecimal(a), ToDecimal(b);
      assert sa[|sa| - 1] == DigitChar(a % 10);
      assert sb[|sb| - 1] == DigitChar(b % 10);
      assert sa[..|sa| - 1] == ToDecimal(a / 10);
      assert sb[..|sb| - 1] == ToDecimal(b / 10);
      ToDecimalInjective(a / 10, b / 10);
    }
  }

  /** `event.args.propertyId?.toString()`. */
  function IdString(e: OracleEvent): Option<string>
  {
    match e.args.propertyId
    case None => None
    case Some(n) => Some(ToDecimal(n))
  }

  /** Comparing two events' `propertyId?.toString()` forms with `===` compares their ids. */
  lemma IdStringCompares(a: OracleEvent, b: OracleEvent)
    ensures IdString(a) == IdString(b) <==> a.args.propertyId == b.args.propertyId
  {
    if a.args.propertyId.Some? && b.args.propertyId.Some? && IdString(a) == IdString(b) {
      ToDecimalInjective(a.args.propertyId.value, b.args.propertyId.value);
    }
  }

  /** JavaScript truthiness of `event.args.propertyId`: present and not the zero BigInt. */
  predicate HasTruthyPropertyId(e: OracleEvent)
  {
    e.args.propertyId.Some? && e.args.propertyId.value != 0
  }
}
