/**
 * The two string rules of the v1.3 ad classifier: `isAdUrl`, a case-insensitive
 * substring test against a fixed list of ad-network fragments, and `hasAdKeywords`,
 * a whole-word keyword test over an element's class and id.
 */
module AdRules {
  import opened Text

  /** The URL fragments that mark an ad network, in the source's order. */
  const AD_DOMAINS: seq<string> := [
    "googleads", "doubleclick", "googlesyndication", "adcr.naver.com", "pagead",
    "adservice", "adform", "adnxs", "advertising", "sponsored",
    "display.ad.daum.net", "/ads/", "/ad/", "banner", "clicktrack"
  ]

  /** The keywords that mark an ad when they stand as a whole word in a class or id. */
  const AD_KEYWORDS: seq<string> := [
    "ad", "ads", "advertisement", "advert", "sponsored", "promotion", "banner",
    "google_ads", "adsense"
  ]

  /** `fragments.some(f => s.includes(f))` */
  function AnyContained(s: string, fragments: seq<string>): bool {
    |fragments| > 0 && (Contains(s, fragments[0]) || AnyContained(s, fragments[1..]))
  }

  /** `keywords.some(k => word(k).test(a) || word(k).test(b))` */
  function AnyWord(a: string, b: string, keywords: seq<string>): bool {
    |keywords| > 0
    && (HasWord(a, keywords[0]) || HasWord(b, keywords[0]) || AnyWord(a, b, keywords[1..]))
  }

  function IsAdUrl(url: string): bool {
    if url == [] then false else AnyContained(Lower(url), AD_DOMAINS)
  }

  function HasAdKeywords(className: string, id: string): bool {
    if className == [] && id == [] then false
    else AnyWord(Lower(className), Lower(id), AD_KEYWORDS)
  }

  lemma {:induction false} AnyContainedIff(s: string, fragments: seq<string>)
    ensures AnyContained(s, fragments) <==> exists f, i :: f in fragments && OccursAt(s, f, i)
  {
    if |fragments| > 0 {
      ContainsIff(s, fragments[0]);
      AnyContainedIff(s, fragments[1..]);
      assert fragments == [fragments[0]] + fragments[1..];
    }
  }

  lemma {:induction false} AnyWordIff(a: string, b: string, keywords: seq<string>)
    ensures AnyWord(a, b, keywords)
        <==> exists k, i :: k in keywords && (WordAt(a, k, i) || WordAt(b, k, i))
  {
    if |keywords| > 0 {
      HasWordIff(a, keywords[0]);
      HasWordIff(b, keywords[0]);
      AnyWordIff(a, b, keywords[1..]);
      assert keywords == [keywords[0]] + keywords[1..];
    }
  }

  /**
   * A URL is an ad URL exactly when its lower-cased form contains one of the listed
   * fragments; the empty URL never is.
   */
  lemma IsAdUrlIff(url: string)
    ensures IsAdUrl(url) <==> exists f, i :: f in AD_DOMAINS && OccursAt(Lower(url), f, i)
    ensures url == [] ==> !IsAdUrl(url)
  {
    if url == [] {
      forall f, i | f in AD_DOMAINS && OccursAt(Lower(url), f, i) ensures false {
      }
    } else {
      AnyContainedIff(Lower(url), AD_DOMAINS);
      assert IsAdUrl(url) == AnyContained(Lower(url), AD_DOMAINS);
    }
  }

  /** The test ignores letter case: a URL and its lower-cased form agree. */
  lemma IsAdUrlIgnoresCase(url: string)
    ensures IsAdUrl(url) == IsAdUrl(Lower(url))
  {
    LowerIdempotent(url);
  }

  /** Any URL that contains "doubleclick", in any mix of cases, is an ad URL. */
  lemma DoubleclickIsAdUrl(url: string)
    requires Contains(Lower(url), "doubleclick")
    ensures IsAdUrl(url)
  {
    ContainsIff(Lower(url), "doubleclick");
    var i :| OccursAt(Lower(url), "doubleclick", i);
    assert AD_DOMAINS[1] == "doubleclick";
    IsAdUrlIff(url);
  }

  /**
   * An element has ad keywords exactly when one of the keywords stands as a whole
   * word in its lower-cased class or id; with neither class nor id it never has.
   */
  lemma HasAdKeywordsIff(className: string, id: string)
    ensures HasAdKeywords(className, id)
        <==> exists k, i :: k in AD_KEYWORDS
                         && (WordAt(Lower(className), k, i) || WordAt(Lower(id), k, i))
    ensures className == [] && id == [] ==> !HasAdKeywords(className, id)
  {
    if className == [] && id == [] {
      forall k, i | k in AD_KEYWORDS && (WordAt(Lower(className), k, i) || WordAt(Lower(id), k, i))
        ensures false
      {
      }
    } else {
      AnyWordIff(Lower(className), Lower(id), AD_KEYWORDS);
      assert HasAdKeywords(className, id) == AnyWord(Lower(className), Lower(id), AD_KEYWORDS);
    }
  }

  lemma OccursAtHead(s: string, k: string, i: int)
    requires OccursAt(s, k, i) && |k| >= 2
    ensures 0 <= i && i + 1 < |s| && s[i] == k[0] && s[i + 1] == k[1]
  {
    assert s[i..i + |k|][0] == s[i] && s[i..i + |k|][1] == s[i + 1];
  }

  /** No keyword stands as a whole word in "shadow-box"; "ad" occurs only inside "shadow". */
  lemma ShadowBoxHasNoKeyword()
    ensures forall k, i :: k in AD_KEYWORDS ==> !WordAt("shadow-box", k, i)
  {
    var s := "shadow-box";
    forall i | WordAt(s, "ad", i) ensures false { OccursAtHead(s, "ad", i); }
    forall i | WordAt(s, "ads", i) ensures false { OccursAtHead(s, "ads", i); }
    forall i | WordAt(s, "advertisement", i) ensures false { OccursAtHead(s, "advertisement", i); }
    forall i | WordAt(s, "advert", i) ensures false { OccursAtHead(s, "advert", i); }
    forall i | WordAt(s, "sponsored", i) ensures false { OccursAtHead(s, "sponsored", i); }
    forall i | WordAt(s, "promotion", i) ensures false { OccursAtHead(s, "promotion", i); }
    forall i | WordAt(s, "banner", i) ensures false { OccursAtHead(s, "banner", i); }
    forall i | WordAt(s, "google_ads", i) ensures false { OccursAtHead(s, "google_ads", i); }
    forall i | WordAt(s, "adsense", i) ensures false { OccursAtHead(s, "adsense", i); }
  }

  /** No keyword can stand as a word in the empty string. */
  lemma EmptyHasNoKeyword()
    ensures forall k, i :: k in AD_KEYWORDS ==> !WordAt("", k, i)
  {
  }

  lemma LowerShadowBox()
    ensures Lower("shadow-box") == "shadow-box"
  {
    var s := "shadow-box";
    assert forall i :: 0 <= i < |s| ==> !IsUpperLetter(s[i]);
    LowerOfLowerCase(s);
  }

  /** "ad" inside "shadow" is not a whole word, so class "shadow-box" is not an ad. */
  lemma ShadowBoxIsNotAd()
    ensures !HasAdKeywords("shadow-box", "")
  {
    LowerShadowBox();
    assert Lower("") == "";
    ShadowBoxHasNoKeyword();
    EmptyHasNoKeyword();
    HasAdKeywordsIff("shadow-box", "");
  }

  /** "ad" in front of a hyphen is a whole word, so class "ad-banner" is an ad. */
  lemma AdBannerIsAd()
    ensures HasAdKeywords("ad-banner", "")
  {
    var s := "ad-banner";
    assert forall i :: 0 <= i < |s| ==> !IsUpperLetter(s[i]);
    LowerOfLowerCase(s);
    assert WordAt(s, "ad", 0);
    HasAdKeywordsIff(s, "");
  }
}
