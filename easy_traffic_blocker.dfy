/**
 * Easy Traffic Blocker v1.0: a click on an AdSense element (a Google frame or an
 * `INS` slot with a publisher id) is counted in storage; the count is restarted after
 * 30 minutes without a counted click, and the fourth click within the window sends
 * the page to the configured blog and restarts the count.
 */
module EasyTrafficBlocker {
  import opened Wrappers
  import opened Text

  const MAX_CLICKS: nat := 3
  const RESET_TIME: nat := 1800000  // 30 minutes, in milliseconds
  const DEFAULT_BLOG_URL := "https://example.com"

  /** The clicked element: its tag name, its `src`, and its `data-ad-client` attribute. */
  datatype Target = Target(tagName: string, src: string, adClient: Option<string>)

  function IsAdsenseAd(element: Option<Target>): bool {
    match element
    case None => false
    case Some(e) =>
      (e.tagName == "IFRAME" && Contains(e.src, "google"))
      || (e.tagName == "INS" && e.adClient.Some? && Contains(e.adClient.value, "pub-"))
  }

  /**
   * An AdSense ad is exactly a frame whose src contains "google" or an `INS` element
   * whose `data-ad-client` is present and contains "pub-"; nothing else (no ancestor)
   * is looked at.
   */
  lemma IsAdsenseAdIff(element: Option<Target>)
    ensures IsAdsenseAd(element) <==>
      element.Some? &&
      ((element.value.tagName == "IFRAME" && exists i :: OccursAt(element.value.src, "google", i))
       || (element.value.tagName == "INS" && element.value.adClient.Some?
           && exists i :: OccursAt(element.value.adClient.value, "pub-", i)))
  {
    if element.Some? {
      ContainsIff(element.value.src, "google");
      if element.value.adClient.Some? {
        ContainsIff(element.value.adClient.value, "pub-");
      }
    }
  }

  /** The two stored values; `None` is a key that storage does not hold. */
  datatype Stored = Stored(count: Option<int>, lastTime: Option<int>)

  /** `parseInt(localStorage.getItem(key) || '0')` for a key holding an integer or nothing. */
  function OrZero(v: Option<int>): int {
    v.GetOr(0)
  }

  /** The count after the window check and the increment. */
  function NextCount(s: Stored, now: int): int {
    (if now - OrZero(s.lastTime) > RESET_TIME then 0 else OrZero(s.count)) + 1
  }

  /** Whether the click crosses the threshold and redirects. */
  predicate Exceeds(s: Stored, now: int) {
    NextCount(s, now) > MAX_CLICKS
  }

  /** What storage holds after a counted click at `now`. */
  function Saved(s: Stored, now: int): Stored {
    Stored(Some(if Exceeds(s, now) then 0 else NextCount(s, now)), Some(now))
  }

  /** `window.easyTrafficBlockerConfig?.blogUrl || 'https://example.com'` */
  function BlogTarget(blogUrl: Option<string>): (r: string)
    ensures r != []
    ensures r == DEFAULT_BLOG_URL || blogUrl == Some(r)
    ensures blogUrl.Some? && blogUrl.value != [] ==> r == blogUrl.value
  {
    if blogUrl.None? || blogUrl.value == [] then DEFAULT_BLOG_URL else blogUrl.value
  }

  /**
   * After a counted click the stored count is at most `MAX_CLICKS` (the incremented
   * count, or 0 after a redirect), the stored time is `now`, and a redirect happens
   * exactly when the incremented count exceeds `MAX_CLICKS`.
   */
  lemma SavedEffect(s: Stored, now: int)
    ensures Saved(s, now).lastTime == Some(now)
    ensures Saved(s, now).count.Some? && Saved(s, now).count.value <= MAX_CLICKS
    ensures Exceeds(s, now) <==> now - OrZero(s.lastTime) <= RESET_TIME && OrZero(s.count) >= MAX_CLICKS
    ensures Exceeds(s, now) ==> Saved(s, now).count == Some(0)
    ensures !Exceeds(s, now) ==> Saved(s, now).count == Some(NextCount(s, now))
  {
  }

  /** A click more than `RESET_TIME` after the last one starts a new window: count 1, no redirect. */
  lemma StaleWindowRestarts(s: Stored, now: int)
    requires now - OrZero(s.lastTime) > RESET_TIME
    ensures !Exceeds(s, now) && Saved(s, now) == Stored(Some(1), Some(now))
  {
  }

  /** A missing key reads as 0. */
  lemma MissingKeysReadAsZero(s: Stored, now: int)
    ensures Saved(Stored(None, s.lastTime), now) == Saved(Stored(Some(0), s.lastTime), now)
    ensures Saved(Stored(s.count, None), now) == Saved(Stored(s.count, Some(0)), now)
  {
  }

  /** A click at 0 from empty storage, then one at 2000000: the second starts a new window. */
  lemma NewWindowAfterLongPause()
    ensures Saved(Stored(None, None), 0) == Stored(Some(1), Some(0))
    ensures Saved(Saved(Stored(None, None), 0), 2000000) == Stored(Some(1), Some(2000000))
    ensures !Exceeds(Saved(Stored(None, None), 0), 2000000)
  {
    StaleWindowRestarts(Saved(Stored(None, None), 0), 2000000);
  }

  /** Storage after the counted clicks at `times`, in order, from `s`. */
  function Replay(s: Stored, times: seq<int>): Stored
    decreases |times|
  {
    if times == [] then s else Replay(Saved(s, times[0]), times[1..])
  }

  /** For each counted click at `times`, whether it redirects. */
  function Alarms(s: Stored, times: seq<int>): (r: seq<bool>)
    ensures |r| == |times|
    decreases |times|
  {
    if times == [] then [] else [Exceeds(s, times[0])] + Alarms(Saved(s, times[0]), times[1..])
  }

  /** No click of `times` comes more than `RESET_TIME` after the one before (or after `last`). */
  predicate InWindow(last: int, times: seq<int>) {
    (|times| > 0 ==> times[0] - last <= RESET_TIME)
    && forall i :: 1 <= i < |times| ==> times[i] - times[i - 1] <= RESET_TIME
  }

  /** One click within the window moves a count `c` in 0..3 to `(c + 1) % 4`, redirecting on the way to 0. */
  lemma ClickInWindow(c: int, last: int, now: int)
    requires 0 <= c <= MAX_CLICKS && now - last <= RESET_TIME
    ensures Saved(Stored(Some(c), Some(last)), now) == Stored(Some((c + 1) % (MAX_CLICKS + 1)), Some(now))
    ensures Exceeds(Stored(Some(c), Some(last)), now) == ((c + 1) % (MAX_CLICKS + 1) == 0)
  {
    assert NextCount(Stored(Some(c), Some(last)), now) == c + 1;
  }

  lemma InWindowTail(last: int, times: seq<int>)
    requires |times| > 0 && InWindow(last, times)
    ensures InWindow(times[0], times[1..])
  {
    forall i | 1 <= i < |times[1..]| ensures times[1..][i] - times[1..][i - 1] <= RESET_TIME {
      assert times[1..][i] - times[1..][i - 1] == times[i + 1] - times[i];
    }
  }

  lemma AlarmsShift(s: Stored, times: seq<int>, i: nat)
    requires 0 < i < |times|
    ensures Alarms(s, times)[i] == Alarms(Saved(s, times[0]), times[1..])[i - 1]
  {
  }

  lemma CycleStep(c: int, m: nat)
    requires 0 <= c <= MAX_CLICKS
    ensures ((c + 1) % (MAX_CLICKS + 1) + m) % (MAX_CLICKS + 1) == (c + 1 + m) % (MAX_CLICKS + 1)
  {
  }

  /**
   * Within one window the count cycles through 1, 2, 3, 0: starting from a stored
   * count `c`, after `n` clicks storage holds `(c + n) % 4`, and click `i` (from 0)
   * redirects exactly when `c + i + 1` is a multiple of 4.
   */
  lemma {:induction false} ReplayInWindow(c: int, last: int, times: seq<int>)
    requires 0 <= c <= MAX_CLICKS && InWindow(last, times)
    ensures Replay(Stored(Some(c), Some(last)), times).count == Some((c + |times|) % (MAX_CLICKS + 1))
    ensures forall i :: 0 <= i < |times| ==>
              Alarms(Stored(Some(c), Some(last)), times)[i] == ((c + i + 1) % (MAX_CLICKS + 1) == 0)
    decreases |times|
  {
    if times != [] {
      var s := Stored(Some(c), Some(last));
      var c' := (c + 1) % (MAX_CLICKS + 1);
      ClickInWindow(c, last, times[0]);
      InWindowTail(last, times);
      ReplayInWindow(c', times[0], times[1..]);
      CycleStep(c, |times| - 1);
      forall i | 0 <= i < |times|
        ensures Alarms(s, times)[i] == ((c + i + 1) % (MAX_CLICKS + 1) == 0)
      {
        if i > 0 {
          AlarmsShift(s, times, i);
          CycleStep(c, i - 1);
        }
      }
    }
  }

  /** Four clicks in one window from a zero count: the first three pass, the fourth redirects. */
  lemma FourthClickRedirects(last: int, times: seq<int>)
    requires |times| == 4 && InWindow(last, times)
    ensures Alarms(Stored(Some(0), Some(last)), times) == [false, false, false, true]
    ensures Replay(Stored(Some(0), Some(last)), times).count == Some(0)
  {
    ReplayInWindow(0, last, times);
  }

  /** The storage keys `adClickCount` and `lastClickTime`. */
  class ClickStorage {
    var adClickCount: Option<int>
    var lastClickTime: Option<int>

    function Contents(): Stored
      reads this
    {
      Stored(adClickCount, lastClickTime)
    }

    constructor (initial: Stored)
      ensures Contents() == initial
    {
      adClickCount := initial.count;
      lastClickTime := initial.lastTime;
    }
  }

  /**
   * `processClick` at time `now`; `navigation` is where the page is sent, whatever the
   * user answers to the confirmation, when the click crosses the threshold.
   */
  method ProcessClick(storage: ClickStorage, now: int, blogUrl: Option<string>)
    returns (navigation: Option<string>)
    modifies storage
    ensures storage.Contents() == Saved(old(storage.Contents()), now)
    ensures navigation == if Exceeds(old(storage.Contents()), now) then Some(BlogTarget(blogUrl)) else None
  {
    var clickCount := OrZero(storage.adClickCount);
    var lastClick := OrZero(storage.lastClickTime);
    if now - lastClick > RESET_TIME {
      clickCount := 0;
    }
    clickCount := clickCount + 1;
    storage.adClickCount := Some(clickCount);
    storage.lastClickTime := Some(now);
    navigation := None;
    if clickCount > MAX_CLICKS {
      navigation := Some(BlogTarget(blogUrl));
      storage.adClickCount := Some(0);
    }
  }

  /** `handleAdClick`: only an AdSense target reaches `processClick`. */
  method HandleAdClick(storage: ClickStorage, target: Option<Target>, now: int, blogUrl: Option<string>)
    returns (navigation: Option<string>)
    modifies storage
    ensures !IsAdsenseAd(target) ==> storage.Contents() == old(storage.Contents()) && navigation == None
    ensures IsAdsenseAd(target) ==>
              storage.Contents() == Saved(old(storage.Contents()), now)
              && navigation == if Exceeds(old(storage.Contents()), now) then Some(BlogTarget(blogUrl)) else None
  {
    if !IsAdsenseAd(target) {
      return None;
    }
    navigation := ProcessClick(storage, now, blogUrl);
  }
}
