/**
 * The size hint sent with a valuation request: the digits of the first
 * "<digits> sq ft" in the property description (the regular expression
 * `/(\d+)\s*sq\s*ft/i`), or "2000" when there is none.
 */
module SizeHint {
  import opened Wrappers

  const DEFAULT_SIZE: string := "2000"

  /** `\d` without the `u` flag: an ASCII digit. */
  predicate IsDigit(c: char)
  {
    '0' <= c <= '9'
  }

  /**
   * `\s`: the ECMAScript white space (tab, vertical tab, form feed, space,
   * no-break space, the byte order mark and the Unicode space separators) and
   * line terminators, by code point.
   */
  predicate IsSpace(c: char)
  {
    var u := c as int;
    || (0x09 <= u <= 0x0D) || u == 0x20 || u == 0xA0 || u == 0x1680
    || (0x2000 <= u <= 0x200A) || u == 0x2028 || u == 0x2029 || u == 0x202F
    || u == 0x205F || u == 0x3000 || u == 0xFEFF
  }

  /** One pattern letter under the `i` flag; only the ASCII letter in either case matches. */
  predicate LetterIs(c: char, lower: char, upper: char)
  {
    c == lower || c == upper
  }

  /** The end of the longest run of digits starting at `i` (greedy `\d+`). */
  function DigitRunEnd(s: string, i: nat): (j: nat)
    requires i <= |s|
    ensures i <= j <= |s|
    ensures forall k :: i <= k < j ==> IsDigit(s[k])
    ensures j == |s| || !IsDigit(s[j])
    decreases |s| - i
  {
    if i < |s| && IsDigit(s[i]) then DigitRunEnd(s, i + 1) else i
  }

  /** The end of the longest run of white space starting at `i` (greedy `\s*`). */
  function SpaceRunEnd(s: string, i: nat): (j: nat)
    requires i <= |s|
    ensures i <= j <= |s|
    ensures forall k :: i <= k < j ==> IsSpace(s[k])
    ensures j == |s| || !IsSpace(s[j])
    decreases |s| - i
  {
    if i < |s| && IsSpace(s[i]) then SpaceRunEnd(s, i + 1) else i
  }

  /**
   * `\s*sq\s*ft` matches at `j`. Greedy runs never need to give characters
   * back here: a digit or a space is never an `s` or an `f`.
   */
  predicate UnitAt(s: string, j: nat)
    requires j <= |s|
  {
    var k := SpaceRunEnd(s, j);
    && k + 2 <= |s| && LetterIs(s[k], 's', 'S') && LetterIs(s[k + 1], 'q', 'Q')
    && var m := SpaceRunEnd(s, k + 2);
    && m + 2 <= |s| && LetterIs(s[m], 'f', 'F') && LetterIs(s[m + 1], 't', 'T')
  }

  /** The whole pattern matches starting at position `i`. */
  predicate MatchAt(s: string, i: nat)
  {
    i < |s| && IsDigit(s[i]) && UnitAt(s, DigitRunEnd(s, i))
  }

  /** The leftmost match at or after `i`, as `String.prototype.match` finds it. */
  function FirstMatch(s: string, i: nat): (r: Option<nat>)
    requires i <= |s|
    ensures r.None? ==> forall k :: i <= k < |s| ==> !MatchAt(s, k)
    ensures r.Some? ==> i <= r.value < |s| && MatchAt(s, r.value)
    ensures r.Some? ==> forall k :: i <= k < r.value ==> !MatchAt(s, k)
    decreases |s| - i
  {
    if i == |s| then None
    else if MatchAt(s, i) then Some(i)
    else FirstMatch(s, i + 1)
  }

  /**
   * `description?.match(/(\d+)\s*sq\s*ft/i)?.[1] || "2000"`. A captured group
   * is never empty, so the fallback applies exactly when nothing matches.
   */
  function SizeFromDescription(description: Option<string>): (size: string)
    ensures |size| >= 1
    ensures forall k :: 0 <= k < |size| ==> IsDigit(size[k])
    ensures description.None? ==> size == DEFAULT_SIZE
    ensures description.Some? && (forall k :: 0 <= k < |description.value| ==> !MatchAt(description.value, k)) ==>
      size == DEFAULT_SIZE
    ensures description.Some? && FirstMatch(description.value, 0).Some? ==>
      var k := FirstMatch(description.value, 0).value;
      size == description.value[k..DigitRunEnd(description.value, k)]
  {
    match description
    case None => DEFAULT_SIZE
    case Some(s) =>
      match FirstMatch(s, 0)
      case None => DEFAULT_SIZE
      case Some(k) => s[k..DigitRunEnd(s, k)]
  }

  /**
   * The captured digits are a whole run of digits: the match never starts in
   * the middle of a number, because the number's first digit would match too.
   */
  lemma CapturedRunIsWhole(s: string)
    requires FirstMatch(s, 0).Some?
    ensures var k := FirstMatch(s, 0).value; k == 0 || !IsDigit(s[k - 1])
  {
    forall i | 0 < i < |s| && IsDigit(s[i - 1]) && MatchAt(s, i) ensures MatchAt(s, i - 1) {
      assert DigitRunEnd(s, i - 1) == DigitRunEnd(s, i);
    }
  }

  /** A run of digits from `i` to `j` that nothing else continues ends at `j`. */
  lemma {:induction false} DigitRunEndAt(s: string, i: nat, j: nat)
    requires i <= j <= |s|
    requires forall k :: i <= k < j ==> IsDigit(s[k])
    requires j == |s| || !IsDigit(s[j])
    ensures DigitRunEnd(s, i) == j
    decreases j - i
  {
    if i < j {
      DigitRunEndAt(s, i + 1, j);
    }
  }

  /** " sq ft" right after position `q` is a unit match there. */
  lemma UnitAtSqFt(s: string, q: nat)
    requires q + 6 <= |s| && s[q..q + 6] == " sq ft"
    ensures UnitAt(s, q)
  {
    assert s[q] == s[q..q + 6][0] == ' ';
    assert s[q + 1] == s[q..q + 6][1] == 's';
    assert s[q + 2] == s[q..q + 6][2] == 'q';
    assert s[q + 3] == s[q..q + 6][3] == ' ';
    assert s[q + 4] == s[q..q + 6][4] == 'f';
    assert s[q + 5] == s[q..q + 6][5] == 't';
    assert SpaceRunEnd(s, q + 1) == q + 1;
    assert SpaceRunEnd(s, q) == q + 1;
    assert SpaceRunEnd(s, q + 4) == q + 4;
    assert SpaceRunEnd(s, q + 3) == q + 4;
  }

  /** A run of digits from `p` to `q` followed by " sq ft" is a match at `p` that captures that run. */
  lemma MatchOfNumber(s: string, p: nat, q: nat)
    requires p < q && q + 6 <= |s| && s[q..q + 6] == " sq ft"
    requires forall k :: p <= k < q ==> IsDigit(s[k])
    ensures MatchAt(s, p) && DigitRunEnd(s, p) == q
  {
    assert s[q] == s[q..q + 6][0];
    DigitRunEndAt(s, p, q);
    UnitAtSqFt(s, q);
  }

  /** When no digit comes before a match, the match is the leftmost one. */
  lemma {:induction false} FirstMatchIs(s: string, i: nat, p: nat)
    requires i <= p < |s| && MatchAt(s, p)
    requires forall k :: i <= k < p ==> !IsDigit(s[k])
    ensures FirstMatch(s, i) == Some(p)
    decreases p - i
  {
    if i < p {
      FirstMatchIs(s, i + 1, p);
    }
  }

  /**
   * Writing a size into a description and reading it back gives the same size:
   * for any text without digits before it, "<digits> sq ft" yields those digits.
   */
  lemma SizeRoundTrip(prefix: string, digits: string, rest: string)
    requires forall k :: 0 <= k < |prefix| ==> !IsDigit(prefix[k])
    requires |digits| >= 1 && forall k :: 0 <= k < |digits| ==> IsDigit(digits[k])
    ensures SizeFromDescription(Some(prefix + digits + " sq ft" + rest)) == digits
  {
    var s := prefix + digits + " sq ft" + rest;
    var p, q := |prefix|, |prefix| + |digits|;
    assert s[..p] == prefix;
    assert s[p..q] == digits;
    assert s[q..q + 6] == " sq ft";
    forall k | 0 <= k < p ensures !IsDigit(s[k]) {
      assert s[k] == s[..p][k];
    }
    forall k | p <= k < q ensures IsDigit(s[k]) {
      assert s[k] == s[p..q][k - p];
    }
    MatchOfNumber(s, p, q);
    FirstMatchIs(s, 0, p);
  }
}
