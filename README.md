# Easy Traffic Blocker — a Dafny model

Easy Traffic Blocker is a pair of browser scripts that count clicks on
advertisements and send the visitor elsewhere once too many have happened.
This project models the checkable logic under their DOM and timer plumbing.

**Version 1.3** (`easy_traffic_blocker_v1_3.js`, class `TrafficBlocker`):

- **Ad classifier.** `isAdElement` first looks for the `data-is-ad` marker on the
  clicked element. Then it walks up to 5 nodes of the ancestor chain, stopping at
  `document.body`. Next comes the URL rule: a link whose href contains a known
  ad-network fragment, ignoring case. Last comes the keyword rule: an ad keyword
  standing as a whole word in the class or id. A hit by the URL or keyword rule
  marks the element, and no marker is ever removed.
- **Detection passes.** `detectAdLinks` and the `src` branch of
  `detectAdsInIframes` mark every link or frame whose URL is an ad URL.
- **Click counters.** The capture-phase click handler counts every click. It counts
  an ad click as blocked while `blockedCount` is under `maxBlockedClicks` (3). At
  the cap, an ad click redirects to the stored homepage instead, or to Google.
  It counts every other click as allowed.

**Version 1.0** (`easy_traffic_blocker.js`):

- **AdSense test.** `isAdsenseAd` is true for a frame whose src contains "google"
  and for an `INS` element whose `data-ad-client` contains "pub-".
- **Windowed counter.** `processClick` reads two stored integers, `adClickCount` and
  `lastClickTime`. It restarts the count when more than 30 minutes have passed,
  increments it and saves both values. On the fourth click of a window it
  redirects to the configured blog and stores 0.

Modules:

- `Text`: ASCII lower-casing, substring search and the whole-word test. The
  whole-word test is a character-level predicate standing for the source's
  `(^|[^a-z])keyword([^a-z]|$)` regular expression.
- `AdRules`: `IsAdUrl` and `HasAdKeywords`.
- `AdClassifier`: the page model and the classifier's specification. A `Node`
  record holds the tag, class, id, href, src, marker and parent index. A `Page`
  class holds the nodes and `document.body`. `Classify` is the verdict function.
- `ClickTally`: the three v1.3 counters and one click's effect on them.
- `Blocker`: the `TrafficBlocker` class and the choice of redirect target.
- `EasyTrafficBlocker`: the v1.0 script.
- `Wrappers`: `Option`.

The methods change state as the source does. `IsAdElement` walks the chain in a
`while` loop and marks the page in place. `OnCaptureClick` updates the three
counter fields. The detection passes loop over the page. `ProcessClick`
reassigns a local count step by step. Each method is proved against a
specification function (`Classify`/`Annotate`, `Tally`, `MarkByUrl`, `Saved`),
and the lemmas state the promised properties of those functions.

Three behaviours of the code are worth stating:

- The classifier is not a pure predicate. It marks the element as it decides
  (`easy_traffic_blocker_v1_3.js` lines 391 and 398).
- Once `processClick` returns, the stored v1.0 count is at most `maxClicks`. The
  crossing click stores the incremented count before the blocking confirmation
  (`easy_traffic_blocker.js` lines 56 and 62) and 0 after it (line 71), so a page
  closed while the dialog is open keeps the incremented count.
- A malformed stored number is not read as 0. `parseInt` yields NaN there
  (`easy_traffic_blocker.js` line 43), and the model leaves that case out.

In `easy_traffic_blocker_v1_3.js` the `}` on line 279 closes the class early.
Line 281, `setupAdDetection() {`, then stands at top level as a call followed by
a block on the same line. Automatic semicolon insertion does not apply there, so
the file as written is a syntax error and none of it runs. Lines 281–509 are
modelled as members of `TrafficBlocker`, as evidently intended, so the model
describes the intended program.

## Model

Rows are keyed by the member whose contract states the property. For a
definition that only computes, that member is the lemma or method about it:

- `AdRules.IsAdUrl` and `AdRules.HasAdKeywords` are covered by their `…Iff` lemmas.
- `Text.Contains` and `Text.HasWord` are covered by `Text.ContainsIff` and
  `Text.HasWordIff`.
- `AdClassifier.Classify` is covered by `Blocker.TrafficBlocker.IsAdElement` and the
  `AdClassifier` lemmas.
- `ClickTally.Tally` is covered by `ClickTally.TallyEffect` and `ClickTally.RunFrom`.
- `EasyTrafficBlocker.IsAdsenseAd` is covered by `EasyTrafficBlocker.IsAdsenseAdIff`.
- `EasyTrafficBlocker.Saved` is covered by `EasyTrafficBlocker.SavedEffect` and
  `EasyTrafficBlocker.ProcessClick`.

| member | source | states |
|---|---|---|
| `Text.Lower` | easy_traffic_blocker_v1_3.js:420-421 | lower-casing keeps the length, maps each character on its own, and leaves no upper-case ASCII letter |
| `Text.ContainsIff` | easy_traffic_blocker_v1_3.js:453 | the left-to-right `includes` scan is true exactly when the fragment occurs at some index |
| `Text.HasWordIff` | easy_traffic_blocker_v1_3.js:425-428 | the keyword test is true exactly when the keyword occurs at an index with no `[a-z]` character directly before or after it |
| `AdRules.IsAdUrlIff` | easy_traffic_blocker_v1_3.js:432-454 | a URL is an ad URL exactly when its lower-cased form contains one of the 15 listed fragments; the empty URL never is |
| `AdRules.IsAdUrlIgnoresCase` | easy_traffic_blocker_v1_3.js:453 | a URL and its lower-cased form get the same answer |
| `AdRules.DoubleclickIsAdUrl` | easy_traffic_blocker_v1_3.js:435-453 | any URL containing "doubleclick", in any mix of cases, is an ad URL |
| `AdRules.HasAdKeywordsIff` | easy_traffic_blocker_v1_3.js:405-430 | true exactly when one of the 9 keywords stands as a whole word in the lower-cased class or id; false when both are empty |
| `AdRules.ShadowBoxHasNoKeyword` | easy_traffic_blocker_v1_3.js:408-429 | none of the 9 keywords stands as a whole word in "shadow-box" |
| `AdRules.ShadowBoxIsNotAd` | easy_traffic_blocker_v1_3.js:420-429 | class "shadow-box" has no ad keyword: "ad" inside "shadow" is not a whole word |
| `AdRules.AdBannerIsAd` | easy_traffic_blocker_v1_3.js:420-429 | class "ad-banner" has an ad keyword |
| `AdClassifier.Ancestor` | easy_traffic_blocker_v1_3.js:384 | following `parentElement` k times from an element of the page gives an element of the page or null |
| `AdClassifier.MarkerWithinIff` | easy_traffic_blocker_v1_3.js:377-386 | the walk finds a marker exactly when one of the first 5 nodes of the chain (the element, then 4 ancestors) carries it and the chain reaches that node without passing `body`; markers further up are ignored |
| `AdClassifier.OwnAttributesDecide` | easy_traffic_blocker_v1_3.js:388-402 | with no marker in reach, the verdict depends only on the clicked element's own tag, href, class and id; not on its src, its parent or any ancestor's attributes |
| `AdClassifier.Idempotent` | easy_traffic_blocker_v1_3.js:369-403 | a second classification of the same element gives the same answer and marks nothing more |
| `AdClassifier.ClassifyMonotone` | easy_traffic_blocker_v1_3.js:372-386 | adding markers never turns an ad into a non-ad, so one-way marking keeps every ad an ad |
| `AdClassifier.AnnotateMoreMarked` | easy_traffic_blocker_v1_3.js:388-399 | the page `isAdElement` leaves differs from the old one only by added markers |
| `AdClassifier.DoubleclickAnchorIsAd` | easy_traffic_blocker_v1_3.js:388-392 | an `A` element whose href contains "doubleclick", in any mix of cases, is classified as an ad, whatever its class and id |
| `AdClassifier.MarkByUrl` | easy_traffic_blocker_v1_3.js:359-366 | a detection pass marks an element of the scanned tag exactly when its URL is an ad URL, and changes nothing else about it |
| `AdClassifier.MarkByUrlMoreMarked` | easy_traffic_blocker_v1_3.js:359-366 | the page a detection pass leaves differs from the old one only by added markers |
| `AdClassifier.Page.SetMarker` | easy_traffic_blocker_v1_3.js:391 | setting `data-is-ad` marks that one element and leaves every other element unchanged |
| `Blocker.TrafficBlocker.constructor` | easy_traffic_blocker_v1_3.js:3-11 | a new blocker starts with all counters at 0 and a cap of 3 |
| `Blocker.TrafficBlocker.IsAdElement` | easy_traffic_blocker_v1_3.js:369-403 | returns the `Classify` verdict: false for a null element or one without a tag; then the marker on the element; then the bounded ancestor walk; then the URL rule on links; then the keyword rule; marks the element only on the URL or keyword rule |
| `Blocker.TrafficBlocker.OnCaptureClick` | easy_traffic_blocker_v1_3.js:54-78 | counts every click; blocks and counts an ad click under the cap; redirects at the cap with `blockedCount` unchanged; counts a non-ad click as allowed; keeps `blockedCount <= 3` and `clickCount >= blockedCount + allowedCount` |
| `Blocker.TrafficBlocker.MarkAdUrls` | easy_traffic_blocker_v1_3.js:360-366 | after the loop every element is as the one-element marking rule says, in the same order |
| `Blocker.TrafficBlocker.DetectAdLinks` | easy_traffic_blocker_v1_3.js:359-367 | marks exactly the `A` elements whose href is an ad URL, on top of existing markers |
| `Blocker.TrafficBlocker.DetectAdsInIframes` | easy_traffic_blocker_v1_3.js:456-465 | marks the `IFRAME` elements whose src is an ad URL, on top of existing markers |
| `Blocker.TrafficBlocker.GetStats` | easy_traffic_blocker_v1_3.js:495-502 | reports the three counters and the cap; blocked is at most the cap and blocked plus allowed is at most total |
| `Blocker.RedirectTarget` | easy_traffic_blocker_v1_3.js:249-268 | the stored homepage is the target unless it is absent, empty or "undefined", in which case the target is "https://www.google.com"; never empty |
| `ClickTally.TallyEffect` | easy_traffic_blocker_v1_3.js:55-77 | one click adds 1 to `clickCount`; an ad click under the cap adds 1 to `blockedCount`; an ad click at the cap redirects and changes no other counter; a non-ad click adds 1 only to `allowedCount`; the invariant is kept |
| `ClickTally.RunFrom` | easy_traffic_blocker_v1_3.js:55-77 | over any click sequence, `blockedCount` grows to min(start + ad clicks, cap), every ad click beyond the cap redirects, and the other clicks are allowed |
| `ClickTally.RunFromZero` | easy_traffic_blocker_v1_3.js:62-69 | from a new blocker, the first 3 ad clicks are blocked and each later ad click redirects |
| `EasyTrafficBlocker.IsAdsenseAdIff` | easy_traffic_blocker.js:25-39 | true exactly for an `IFRAME` whose src contains "google" or an `INS` whose `data-ad-client` contains "pub-"; false for null; no ancestor is looked at |
| `EasyTrafficBlocker.BlogTarget` | easy_traffic_blocker.js:65 | the configured `blogUrl` when present and non-empty, otherwise "https://example.com"; never empty |
| `EasyTrafficBlocker.SavedEffect` | easy_traffic_blocker.js:53-72 | a counted click stores `lastClickTime = now`; it redirects exactly when the last click is at most 1800000 ms ago and the stored count is already 3 or more; the stored count is the incremented count, or 0 after a redirect, so at most 3 |
| `EasyTrafficBlocker.StaleWindowRestarts` | easy_traffic_blocker.js:48-53 | a click strictly more than 1800000 ms after the last one stores count 1 and does not redirect |
| `EasyTrafficBlocker.MissingKeysReadAsZero` | easy_traffic_blocker.js:43-44 | a missing count or time behaves as a stored 0 |
| `EasyTrafficBlocker.NewWindowAfterLongPause` | easy_traffic_blocker.js:43-60 | a click at 0 on empty storage, then one at 2000000, leaves count 1 and no redirect |
| `EasyTrafficBlocker.ClickInWindow` | easy_traffic_blocker.js:48-71 | a click within 1800000 ms of the last one moves a stored count of 0-3 to the next value of 1, 2, 3, 0, redirecting exactly on the step to 0 |
| `EasyTrafficBlocker.ReplayInWindow` | easy_traffic_blocker.js:42-72 | within one window the stored count cycles 1, 2, 3, 0 and exactly every fourth click redirects |
| `EasyTrafficBlocker.FourthClickRedirects` | easy_traffic_blocker.js:8-60 | four clicks in one window from 0: clicks 1-3 do not redirect, click 4 does and the count is back to 0 |
| `EasyTrafficBlocker.ProcessClick` | easy_traffic_blocker.js:42-73 | storage afterwards is `Saved(old, now)`; the page is sent to the blog target exactly when the threshold is crossed, whatever the confirmation answer |
| `EasyTrafficBlocker.HandleAdClick` | easy_traffic_blocker.js:14-22 | a click whose target is not an AdSense ad leaves storage unchanged and does not navigate; otherwise it is `processClick` |

## Left out

- `EasyTrafficBlocker.ProcessClick`: a page closed during the blocking confirmation
  leaves the incremented count stored, and other tabs of the same origin may read
  or race on the same keys. The model treats one click as completing atomically.
- Modal, CSS, progress bar, countdown display and audio in `showAlertAndRedirect`
  (easy_traffic_blocker_v1_3.js:91-246, 253-272): presentation only. The model
  keeps the destination the countdown navigates to.
- `generateFakeIP`: it depends on `Math.random`, so there is nothing to state.
- `initialize`, `setupMutationObserver`, listener registration, `DOMContentLoaded`,
  the 5-second debug interval, `setTimeout` delays and console logging: event and
  timer plumbing. The model gives the state change of one click.
- `setupAdDetection`'s CSS-selector pass: its meaning lies in the browser's selector
  engine.
- `printDebugInfo` and the top-level seeding of `homepageUrl`
  (easy_traffic_blocker_v1_3.js:513-516). The redirect target handles an absent
  value anyway.
- The bubble-phase handler (easy_traffic_blocker_v1_3.js:81-88): it changes no
  counter. For an ad click it never runs, because the capture handler stops
  propagation. For a non-ad click it calls `isAdElement` again. If the page's own
  listeners changed the target between the two phases, that second call can mark
  the target through the URL or keyword rule. The model does not capture that
  marker. On a page that is unchanged between the phases, the second call finds
  what the first found and marks nothing.
- Blocker.TrafficBlocker.DetectAdsInIframes: the `contentDocument` branch, which
  reads into a frame's own document, is left out. That access is governed by the
  browser's same-origin rules. Only the src-based marking is modelled.
- `localStorage`, `confirm` and navigation are modelled as values. In v1.0 they are
  a two-field storage object and an optional navigation target. In v1.3 they are the
  stored `homepageUrl` passed as a parameter and an optional destination. The
  confirmation answer is ignored by the source, so it is not a parameter.
- Text.Lower: only ASCII `A`–`Z` are lower-cased. JavaScript's `toLowerCase` also
  maps other Unicode letters, a few of them (such as the Kelvin sign) to `[a-z]`.
- Stored values that do not parse as integers: `parseInt` gives NaN for them. The
  model stores integers or nothing.
- JavaScript numbers are doubles. The model uses unbounded integers for counters
  and timestamps, which agree for all realistic values.
- `className` values that are not strings (SVG elements) are not modelled. Class
  and id are plain strings.
- Blocker.TrafficBlocker.DetectAdLinks: SVG `<a>` elements are not modelled.
  `querySelectorAll('a')` also returns them, and their `href` is not a string, so
  `url.toLowerCase()` throws (easy_traffic_blocker_v1_3.js:453). That error ends the
  pass at the first SVG link, and later links stay unmarked. It also escapes
  `setupAdDetection` (easy_traffic_blocker_v1_3.js:356). The model has only string
  hrefs, so its pass always marks every HTML link with an ad URL.
