/**
 * The v1.3 `TrafficBlocker`: the click counters updated by the capture-phase click
 * handler, the element classifier that marks what it finds, the two URL detection
 * passes, the redirect destination and the statistics record.
 */
module Blocker {
  import opened Wrappers
  import opened AdRules
  import opened AdClassifier
  import opened ClickTally

  const DEFAULT_HOMEPAGE := "https://www.google.com"

  /** `localStorage.getItem('homepageUrl') || 'https://www.google.com'` */
  function StoredHomepage(stored: Option<string>): string {
    if stored.None? || stored.value == [] then DEFAULT_HOMEPAGE else stored.value
  }

  /** Where the countdown finally navigates, given the value read before it started. */
  function NavigationTarget(homepageUrl: string): string {
    if homepageUrl == [] || homepageUrl == "undefined" then DEFAULT_HOMEPAGE else homepageUrl
  }

  /**
   * The stored homepage is the destination unless it is absent, empty or the text
   * "undefined"; then the destination is Google. The destination is never empty.
   */
  function RedirectTarget(stored: Option<string>): (r: string)
    ensures r != [] && r != "undefined"
    ensures r == DEFAULT_HOMEPAGE || stored == Some(r)
    ensures stored.Some? && stored.value != [] && stored.value != "undefined" ==> r == stored.value
  {
    NavigationTarget(StoredHomepage(stored))
  }

  /** The record `getStats` returns. */
  datatype Stats = Stats(totalClicks: nat, blockedClicks: nat, allowedClicks: nat, maxAllowedAdClicks: nat)

  class TrafficBlocker {
    var clickCount: nat
    var blockedCount: nat
    var allowedCount: nat
    const maxBlockedClicks: nat
    /** The `document` the handler classifies clicks on. */
    const page: Page

    function Counts(): Counters
      reads this
    {
      Counters(clickCount, blockedCount, allowedCount)
    }

    ghost predicate Valid()
      reads this, page
    {
      page.Valid() && Consistent(Counts(), maxBlockedClicks)
    }

    constructor (page: Page)
      requires page.Valid()
      ensures Valid() && this.page == page
      ensures Counts() == ZERO && maxBlockedClicks == 3
    {
      clickCount := 0;
      blockedCount := 0;
      allowedCount := 0;
      maxBlockedClicks := 3;
      this.page := page;
    }

    /**
     * `isAdElement`: answers as `Classify` does and marks the element when the URL or
     * the keyword rule decided; nothing else on the page changes.
     */
    method IsAdElement(target: Option<nat>) returns (isAd: bool)
      requires page.Valid() && Within(page.nodes, target)
      modifies page
      ensures page.Valid()
      ensures isAd == Classify(old(page.nodes), page.body, target).IsAd()
      ensures page.nodes == Annotate(old(page.nodes), target, Classify(old(page.nodes), page.body, target))
    {
      if target.None? || page.nodes[target.value].tag == [] {
        return false;
      }
      var element := page.nodes[target.value];
      if element.marked {
        return true;
      }
      var current := target;
      var depth := 0;
      while current.Some? && current != page.body && depth < MARKER_DEPTH
        invariant 0 <= depth <= MARKER_DEPTH && Within(page.nodes, current)
        invariant MarkerWithin(page.nodes, page.body, target, MARKER_DEPTH)
               == MarkerWithin(page.nodes, page.body, current, MARKER_DEPTH - depth)
      {
        if page.nodes[current.value].marked {
          return true;
        }
        current := page.nodes[current.value].parent;
        depth := depth + 1;
      }
      if element.tag == "A" && IsAdUrl(element.href) {
        page.SetMarker(target.value);
        return true;
      }
      if HasAdKeywords(element.className, element.id) {
        page.SetMarker(target.value);
        return true;
      }
      return false;
    }

    /**
     * The capture-phase click handler. `homepageUrl` is what storage holds under
     * "homepageUrl"; `destination` is where the page is sent when the click redirects.
     */
    method OnCaptureClick(target: Option<nat>, homepageUrl: Option<string>)
      returns (outcome: Outcome, destination: Option<string>)
      requires Valid() && Within(page.nodes, target)
      modifies this, page
      ensures Valid()
      ensures var verdict := Classify(old(page.nodes), page.body, target);
              page.nodes == Annotate(old(page.nodes), target, verdict)
              && (Counts(), outcome) == Tally(old(Counts()), verdict.IsAd(), maxBlockedClicks)
      ensures destination == if outcome == Redirected then Some(RedirectTarget(homepageUrl)) else None
    {
      clickCount := clickCount + 1;
      var isAd := IsAdElement(target);
      if isAd {
        if blockedCount >= maxBlockedClicks {
          return Redirected, Some(RedirectTarget(homepageUrl));
        }
        blockedCount := blockedCount + 1;
        return Blocked, None;
      }
      allowedCount := allowedCount + 1;
      return Allowed, None;
    }

    /** The marking pass shared by `detectAdLinks` and the src branch of `detectAdsInIframes`. */
    method MarkAdUrls(tag: string, attribute: UrlAttribute)
      requires page.Valid()
      modifies page
      ensures page.Valid() && |page.nodes| == |old(page.nodes)|
      ensures forall i :: 0 <= i < |page.nodes| ==> page.nodes[i] == MarkByUrl(old(page.nodes)[i], tag, attribute)
    {
      var i := 0;
      while i < |page.nodes|
        invariant page.Valid() && 0 <= i <= |page.nodes| == |old(page.nodes)|
        invariant forall j :: 0 <= j < i ==> page.nodes[j] == MarkByUrl(old(page.nodes)[j], tag, attribute)
        invariant forall j :: i <= j < |page.nodes| ==> page.nodes[j] == old(page.nodes)[j]
      {
        var n := page.nodes[i];
        if n.tag == tag && IsAdUrl(UrlOf(n, attribute)) {
          page.SetMarker(i);
        }
        i := i + 1;
      }
    }

    /** Marks every link whose href is an ad URL. */
    method DetectAdLinks()
      requires page.Valid()
      modifies page
      ensures page.Valid() && |page.nodes| == |old(page.nodes)|
      ensures forall i :: 0 <= i < |page.nodes| ==> page.nodes[i] == MarkByUrl(old(page.nodes)[i], "A", Href)
    {
      MarkAdUrls("A", Href);
    }

    /** Marks every frame whose src is an ad URL (the frame-document branch is not modelled). */
    method DetectAdsInIframes()
      requires page.Valid()
      modifies page
      ensures page.Valid() && |page.nodes| == |old(page.nodes)|
      ensures forall i :: 0 <= i < |page.nodes| ==> page.nodes[i] == MarkByUrl(old(page.nodes)[i], "IFRAME", Src)
    {
      MarkAdUrls("IFRAME", Src);
    }

    /** The statistics record; it reflects the handler's invariant. */
    method GetStats() returns (stats: Stats)
      requires Valid()
      ensures stats == Stats(clickCount, blockedCount, allowedCount, maxBlockedClicks)
      ensures stats.blockedClicks <= stats.maxAllowedAdClicks
      ensures stats.blockedClicks + stats.allowedClicks <= stats.totalClicks
    {
      stats := Stats(clickCount, blockedCount, allowedCount, maxBlockedClicks);
    }
  }
}
