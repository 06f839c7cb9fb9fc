/**
 * The three counters of the v1.3 capture-phase click handler and what one click does
 * to them, with the consequences over a whole sequence of clicks.
 */
module ClickTally {

  datatype Counters = Counters(clicks: nat, blocked: nat, allowed: nat)

  /** What the handler does with the click. */
  datatype Outcome =
    | Allowed     // not an ad: the click goes through
    | Blocked     // an ad under the cap: default action prevented, propagation stopped
    | Redirected  // an ad at the cap: the warning is shown and the page is sent away

  const ZERO := Counters(0, 0, 0)

  /** Blocked clicks stay within the cap and no click is counted twice. */
  predicate Consistent(c: Counters, cap: nat) {
    c.blocked <= cap && c.blocked + c.allowed <= c.clicks
  }

  /** One capture-phase click, `isAd` being the classifier's answer for its target. */
  function Tally(c: Counters, isAd: bool, cap: nat): (Counters, Outcome) {
    var counted := c.(clicks := c.clicks + 1);
    if !isAd then (counted.(allowed := c.allowed + 1), Allowed)
    else if c.blocked >= cap then (counted, Redirected)
    else (counted.(blocked := c.blocked + 1), Blocked)
  }

  /**
   * Every click is counted; an ad click under the cap is blocked and counted as
   * blocked, an ad click at the cap redirects and leaves `blocked` as it was, and a
   * non-ad click is counted only as allowed.
   */
  lemma TallyEffect(c: Counters, isAd: bool, cap: nat)
    requires Consistent(c, cap)
    ensures var (c', o) := Tally(c, isAd, cap);
            Consistent(c', cap)
            && c'.clicks == c.clicks + 1
            && (!isAd ==> o == Allowed && c' == c.(clicks := c'.clicks, allowed := c.allowed + 1))
            && (isAd && c.blocked < cap ==> o == Blocked && c' == c.(clicks := c'.clicks, blocked := c.blocked + 1))
            && (isAd && c.blocked == cap ==> o == Redirected && c' == c.(clicks := c'.clicks))
  {
  }

  /** The counters after the clicks in `ads` (true for an ad click), in order, from `c`. */
  function Run(c: Counters, ads: seq<bool>, cap: nat): Counters
    decreases |ads|
  {
    if ads == [] then c else Run(Tally(c, ads[0], cap).0, ads[1..], cap)
  }

  /** How many of the clicks in `ads`, replayed from `c`, redirect. */
  function Redirects(c: Counters, ads: seq<bool>, cap: nat): nat
    decreases |ads|
  {
    if ads == [] then 0
    else (if Tally(c, ads[0], cap).1 == Redirected then 1 else 0)
         + Redirects(Tally(c, ads[0], cap).0, ads[1..], cap)
  }

  function AdCount(ads: seq<bool>): (r: nat)
    ensures r <= |ads|
  {
    if ads == [] then 0 else (if ads[0] then 1 else 0) + AdCount(ads[1..])
  }

  function Min(a: int, b: int): int {
    if a <= b then a else b
  }

  /**
   * Replaying a sequence of clicks: every click is counted, the ad clicks fill
   * `blocked` up to the cap and each ad click beyond it redirects, and the other
   * clicks are counted as allowed.
   */
  lemma {:induction false} RunFrom(c: Counters, ads: seq<bool>, cap: nat)
    requires c.blocked <= cap
    ensures Run(c, ads, cap) == Counters(
              c.clicks + |ads|,
              Min(c.blocked + AdCount(ads), cap),
              c.allowed + |ads| - AdCount(ads))
    ensures Redirects(c, ads, cap) == c.blocked + AdCount(ads) - Min(c.blocked + AdCount(ads), cap)
    decreases |ads|
  {
    if ads != [] {
      RunFrom(Tally(c, ads[0], cap).0, ads[1..], cap);
    }
  }

  /** From a fresh handler, the first `cap` ad clicks are blocked and each later one redirects. */
  lemma RunFromZero(ads: seq<bool>, cap: nat)
    ensures Run(ZERO, ads, cap).blocked == Min(AdCount(ads), cap)
    ensures Run(ZERO, ads, cap).allowed == |ads| - AdCount(ads)
    ensures Run(ZERO, ads, cap).clicks == |ads|
    ensures Redirects(ZERO, ads, cap) == if AdCount(ads) > cap then AdCount(ads) - cap else 0
  {
    RunFrom(ZERO, ads, cap);
  }
}
