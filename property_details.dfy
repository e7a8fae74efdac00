/**
 * The property page: the image carousel's index arithmetic (a state cell
 * changed by `nextImage`/`prevImage`) and the oracle section's display
 * decisions, all computed from the property's events.
 */
module PropertyDetails {
  import opened Wrappers
  import opened Seqs
  import opened OracleTypes
  import opened OracleStatus

  /** How many events the recent-activity list shows. */
  const RECENT_ACTIVITY_SIZE: nat := 3

  /** JavaScript's `%` for a positive divisor: the remainder has the sign of the dividend. */
  function JsRem(a: int, b: int): (r: int)
    requires b > 0
    ensures a >= 0 ==> 0 <= r < b && r == a % b
    ensures a < 0 ==> -b < r <= 0
  {
    if a >= 0 then a % b else -((-a) % b)
  }

  /**
   * `property?.imageUrls?.length || 1`: the number of images, where a missing
   * property, a missing list or an empty list all count as one.
   */
  function CarouselLength(imageCount: Option<nat>): (n: nat)
    ensures n >= 1
    ensures imageCount.Some? && imageCount.value > 0 ==> n == imageCount.value
    ensures imageCount.None? || imageCount.value == 0 ==> n == 1
  {
    if imageCount.Some? && imageCount.value > 0 then imageCount.value else 1
  }

  /** Division of `q * n + r` by `n` when `0 <= r < n`: the remainder is `r`. */
  lemma ModUnique(x: int, n: int, q: int, r: int)
    requires n > 0 && 0 <= r < n && x == q * n + r
    ensures x % n == r
  {
    var d := q - x / n;
    assert d * n == x % n - r;
    assert d >= 1 ==> d * n >= n;
    assert d <= -1 ==> d * n <= -n;
  }

  /** Taking the remainder before or after adding one gives the same remainder. */
  lemma ModSucc(x: int, n: int)
    requires n > 0 && x >= 0
    ensures (x % n + 1) % n == (x + 1) % n
  {
    var q, j := x / n, x % n;
    assert x == q * n + j;
    if j + 1 < n {
      ModUnique(j + 1, n, 0, j + 1);
      ModUnique(x + 1, n, q, j + 1);
    } else {
      ModUnique(j + 1, n, 1, 0);
      assert x + 1 == (q + 1) * n + 0;
      ModUnique(x + 1, n, q + 1, 0);
    }
  }

  /** The index `nextImage` moves to: one further, wrapping modulo the number of images. */
  function NextIndex(prev: int, imageCount: Option<nat>): (r: int)
    ensures prev >= -1 ==> 0 <= r < CarouselLength(imageCount)
    ensures CarouselLength(imageCount) == 1 && prev >= -1 ==> r == 0
  {
    JsRem(prev + 1, CarouselLength(imageCount))
  }

  /** The index `prevImage` moves to: one back, wrapping modulo the number of images. */
  function PrevIndex(prev: int, imageCount: Option<nat>): (r: int)
    ensures prev >= 1 - CarouselLength(imageCount) ==> 0 <= r < CarouselLength(imageCount)
  {
    var n := CarouselLength(imageCount);
    JsRem(prev - 1 + n, n)
  }

  /**
   * For an index in range, "next" moves one further and wraps from the last
   * image to the first; "previous" moves one back and wraps from the first
   * image to the last.
   */
  lemma StepValues(i: int, imageCount: Option<nat>)
    requires 0 <= i < CarouselLength(imageCount)
    ensures NextIndex(i, imageCount) == if i + 1 < CarouselLength(imageCount) then i + 1 else 0
    ensures PrevIndex(i, imageCount) == if i > 0 then i - 1 else CarouselLength(imageCount) - 1
  {
    var n := CarouselLength(imageCount);
    if i + 1 < n {
      ModUnique(i + 1, n, 0, i + 1);
    } else {
      ModUnique(i + 1, n, 1, 0);
    }
    if i > 0 {
      ModUnique(i - 1 + n, n, 1, i - 1);
    } else {
      ModUnique(i - 1 + n, n, 0, n - 1);
    }
  }

  /** For an index in range, `prevImage` undoes `nextImage` and `nextImage` undoes `prevImage`. */
  lemma NextPrevInverse(i: int, imageCount: Option<nat>)
    requires 0 <= i < CarouselLength(imageCount)
    ensures PrevIndex(NextIndex(i, imageCount), imageCount) == i
    ensures NextIndex(PrevIndex(i, imageCount), imageCount) == i
  {
    StepValues(i, imageCount);
    StepValues(NextIndex(i, imageCount), imageCount);
    StepValues(PrevIndex(i, imageCount), imageCount);
  }

  /** The index after `k` presses of the "next" button. */
  function NextTimes(i: int, imageCount: Option<nat>, k: nat): int
  {
    if k == 0 then i else NextIndex(NextTimes(i, imageCount, k - 1), imageCount)
  }

  /** `k` presses of "next" advance the index by `k` modulo the number of images. */
  lemma {:induction false} NextTimesAdvances(i: int, imageCount: Option<nat>, k: nat)
    requires 0 <= i < CarouselLength(imageCount)
    ensures NextTimes(i, imageCount, k) == (i + k) % CarouselLength(imageCount)
  {
    var n := CarouselLength(imageCount);
    if k == 0 {
      ModUnique(i, n, 0, i);
    } else {
      NextTimesAdvances(i, imageCount, k - 1);
      ModSucc(i + k - 1, n);
      assert NextTimes(i, imageCount, k) == JsRem((i + k - 1) % n + 1, n);
    }
  }

  /** As many presses of "next" as there are images bring the carousel back to where it was. */
  lemma NextCycleReturns(i: int, imageCount: Option<nat>)
    requires 0 <= i < CarouselLength(imageCount)
    ensures NextTimes(i, imageCount, CarouselLength(imageCount)) == i
  {
    var n := CarouselLength(imageCount);
    NextTimesAdvances(i, imageCount, n);
    ModUnique(i + n, n, 1, i);
  }

  /** `currentImageIndex`, changed only by the two buttons. */
  class Carousel {
    var currentImageIndex: int

    /** The index never goes negative. */
    ghost predicate Valid()
      reads this
    {
      currentImageIndex >= 0
    }

    constructor ()
      ensures Valid() && currentImageIndex == 0
    {
      currentImageIndex := 0;
    }

    /** `nextImage`, for the property's current number of images. */
    method NextImage(imageCount: Option<nat>)
      requires Valid()
      modifies this
      ensures Valid()
      ensures currentImageIndex == NextIndex(old(currentImageIndex), imageCount)
      ensures currentImageIndex < CarouselLength(imageCount)
    {
      currentImageIndex := JsRem(currentImageIndex + 1, CarouselLength(imageCount));
    }

    /** `prevImage`, for the property's current number of images. */
    method PrevImage(imageCount: Option<nat>)
      requires Valid()
      modifies this
      ensures Valid()
      ensures currentImageIndex == PrevIndex(old(currentImageIndex), imageCount)
      ensures currentImageIndex < CarouselLength(imageCount)
    {
      var n := CarouselLength(imageCount);
      currentImageIndex := JsRem(currentImageIndex - 1 + n, n);
    }
  }

  /** The "Request Update" button is disabled while the request call runs or while a request is pending. */
  function RequestButtonDisabled(oracleLoading: bool, pe: seq<OracleEvent>): (disabled: bool)
    ensures disabled <==> (oracleLoading ||
      exists r :: r in pe && r.name == PropertyValuationRequested && !(exists u :: u in pe && Resolves(u, r)))
  {
    oracleLoading || !GetPropertyOracleStatus(pe).canRequestUpdate
  }

  /** The oracle status label: "Updating..." exactly while a request is pending, "Ready" otherwise. */
  function OracleStatusLabel(pe: seq<OracleEvent>): (text: string)
    ensures text == "Updating..." || text == "Ready"
    ensures text == "Updating..." <==>
      exists r :: r in pe && r.name == PropertyValuationRequested && !(exists u :: u in pe && Resolves(u, r))
  {
    if GetPropertyOracleStatus(pe).hasPendingRequests then "Updating..." else "Ready"
  }

  /** The failure notice and the number it shows; it appears exactly when the property has a failure. */
  function FailureNotice(pe: seq<OracleEvent>): (notice: Option<nat>)
    ensures notice.Some? <==> exists e :: e in pe && e.name == RequestFailed
    ensures notice.Some? ==> 1 <= notice.value <= |pe|
    ensures notice.Some? ==> notice.value == |FailedRequests(pe)|
  {
    var failed := GetPropertyOracleStatus(pe).failedRequests;
    assert |failed| > 0 ==> failed[0] in failed;
    if |failed| > 0 then Some(|failed|) else None
  }

  /**
   * The recent-activity list: `propertyEvents.slice(0, 3)`, shown only when
   * the property has events at all.
   */
  function RecentActivity(pe: seq<OracleEvent>): (shown: Option<seq<OracleEvent>>)
    ensures shown.None? <==> pe == []
    ensures shown.Some? ==> |shown.value| == if |pe| < RECENT_ACTIVITY_SIZE then |pe| else RECENT_ACTIVITY_SIZE
    ensures shown.Some? ==> shown.value == pe[..|shown.value|]
  {
    if |pe| > 0 then Some(Take(pe, RECENT_ACTIVITY_SIZE)) else None
  }
}
