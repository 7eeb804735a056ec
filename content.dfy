/** chrome-extension's content script: the page facts it extracts (login
    form, external links, suspicious keywords, brand impersonation) and its
    reaction to the background worker's answer. */
module Content {
  import opened Js
  import ChromeBackground

  // ------------------------------------------------------ brand impersonation

  datatype Brand = Brand(name: string, domains: seq<string>)

  /** `popularBrands`, in order. */
  const PopularBrands: seq<Brand> := [
    Brand("paypal", ["paypal.com"]),
    Brand("microsoft", ["microsoft.com", "live.com", "outlook.com"]),
    Brand("google", ["google.com", "gmail.com"]),
    Brand("apple", ["apple.com", "icloud.com"]),
    Brand("amazon", ["amazon.com", "amazon.co.uk"]),
    Brand("facebook", ["facebook.com", "fb.com"]),
    Brand("netflix", ["netflix.com"]),
    Brand("bank of america", ["bankofamerica.com"]),
    Brand("chase", ["chase.com"]),
    Brand("wells fargo", ["wellsfargo.com"])
  ]

  /** `{ brand, officialDomains, currentDomain, suspicious: true }` */
  datatype Indicator = Indicator(brand: string, officialDomains: seq<string>, currentDomain: string, suspicious: bool)

  function IndicatorFor(b: Brand, domain: string): Indicator {
    Indicator(b.name, b.domains, domain, true)
  }

  /** `brand.domains.some(d => domain.includes(d))`: a substring test, not a
      suffix test. */
  predicate IsOfficialDomain(domain: string, domains: seq<string>) {
    exists i :: 0 <= i < |domains| && Contains(domain, domains[i])
  }

  /** The brand is named in the lower-cased title or the page text, and the
      page is not on one of its domains. */
  predicate Flagged(b: Brand, domain: string, lowerTitle: string, pageText: string) {
    (Contains(lowerTitle, b.name) || Contains(pageText, b.name)) && !IsOfficialDomain(domain, b.domains)
  }

  /** The indicators for `brands`, in their order: the value the loop of
      `detectBrandImpersonation` has built after visiting them. */
  function Impersonations(brands: seq<Brand>, domain: string, lowerTitle: string, pageText: string): seq<Indicator> {
    if |brands| == 0 then []
    else
      var last := brands[|brands| - 1];
      Impersonations(brands[..|brands| - 1], domain, lowerTitle, pageText)
        + (if Flagged(last, domain, lowerTitle, pageText) then [IndicatorFor(last, domain)] else [])
  }

  /** `detectBrandImpersonation(domain, title, pageText)` */
  method DetectBrandImpersonation(domain: string, title: string, pageText: string) returns (indicators: seq<Indicator>)
    ensures indicators == Impersonations(PopularBrands, domain, Lower(title), pageText)
    ensures |indicators| <= 10
  {
    indicators := [];
    var lowerTitle := Lower(title);
    for i := 0 to |PopularBrands|
      invariant indicators == Impersonations(PopularBrands[..i], domain, lowerTitle, pageText)
    {
      var brand := PopularBrands[i];
      var mentioned := Contains(lowerTitle, brand.name) || Contains(pageText, brand.name);
      var official := IsOfficialDomain(domain, brand.domains);
      if mentioned && !official {
        indicators := indicators + [IndicatorFor(brand, domain)];
      }
      assert PopularBrands[..i + 1][..i] == PopularBrands[..i];
    }
    assert PopularBrands[..|PopularBrands|] == PopularBrands;
    ImpersonationsShape(PopularBrands, domain, lowerTitle, pageText);
  }

  /** At most one indicator per brand, each for a flagged brand, and an
      indicator for every flagged brand; all of them mark the current
      domain as suspicious. */
  lemma {:induction false} ImpersonationsShape(brands: seq<Brand>, domain: string, lowerTitle: string, pageText: string)
    ensures var r := Impersonations(brands, domain, lowerTitle, pageText);
      && |r| <= |brands|
      && (forall x | x in r :: x.suspicious && x.currentDomain == domain)
      && (forall x | x in r :: exists k :: 0 <= k < |brands| && x == IndicatorFor(brands[k], domain)
                                         && Flagged(brands[k], domain, lowerTitle, pageText))
      && (forall k | 0 <= k < |brands| && Flagged(brands[k], domain, lowerTitle, pageText) :: IndicatorFor(brands[k], domain) in r)
  {
    if |brands| > 0 {
      var init := brands[..|brands| - 1];
      ImpersonationsShape(init, domain, lowerTitle, pageText);
      var r := Impersonations(brands, domain, lowerTitle, pageText);
      var r0 := Impersonations(init, domain, lowerTitle, pageText);
      forall x | x in r
        ensures exists k :: 0 <= k < |brands| && x == IndicatorFor(brands[k], domain)
                            && Flagged(brands[k], domain, lowerTitle, pageText)
      {
        if x in r0 {
          var k :| 0 <= k < |init| && x == IndicatorFor(init[k], domain) && Flagged(init[k], domain, lowerTitle, pageText);
          assert brands[k] == init[k];
        } else {
          assert brands[|brands| - 1] == brands[|brands| - 1];
        }
      }
      forall k | 0 <= k < |brands| && Flagged(brands[k], domain, lowerTitle, pageText)
        ensures IndicatorFor(brands[k], domain) in r
      {
        if k < |brands| - 1 {
          assert init[k] == brands[k];
        }
      }
    }
  }

  /** With distinct brand names no brand is reported twice. */
  lemma {:induction false} OneIndicatorPerBrand(brands: seq<Brand>, domain: string, lowerTitle: string, pageText: string)
    requires forall i, j | 0 <= i < j < |brands| :: brands[i].name != brands[j].name
    ensures var r := Impersonations(brands, domain, lowerTitle, pageText);
      forall i, j | 0 <= i < j < |r| :: r[i].brand != r[j].brand
  {
    if |brands| > 0 {
      var init := brands[..|brands| - 1];
      var last := brands[|brands| - 1];
      OneIndicatorPerBrand(init, domain, lowerTitle, pageText);
      ImpersonationsShape(init, domain, lowerTitle, pageText);
      var r0 := Impersonations(init, domain, lowerTitle, pageText);
      forall x | x in r0 ensures x.brand != last.name {
        var k :| 0 <= k < |init| && x == IndicatorFor(init[k], domain) && Flagged(init[k], domain, lowerTitle, pageText);
        assert init[k] == brands[k];
      }
    }
  }

  /** The names of `popularBrands` are distinct, so each brand is reported
      at most once. */
  lemma PopularBrandsDistinct()
    ensures forall i, j | 0 <= i < j < |PopularBrands| :: PopularBrands[i].name != PopularBrands[j].name
  {
  }

  /** PayPal's entry of `popularBrands`. */
  lemma PaypalIsFirst()
    ensures PopularBrands[0] == Brand("paypal", ["paypal.com"])
  {
  }

  /** A look-alike host that merely contains `paypal.com` counts as PayPal's
      own, whatever the page says. */
  lemma {:induction false} LookalikeCountsAsOfficial(lowerTitle: string, pageText: string)
    ensures !Flagged(PopularBrands[0], "paypal.com.evil.net", lowerTitle, pageText)
  {
    PaypalIsFirst();
    var evil := "paypal.com.evil.net";
    assert evil[0..10] == "paypal.com";
    ContainsAt(evil, "paypal.com", 0);
    assert IsOfficialDomain(evil, ["paypal.com"]) by {
      assert ["paypal.com"][0] == "paypal.com";
    }
  }

  /** `paypa1.com` mentioning PayPal is flagged. */
  lemma {:induction false} TypoDomainIsFlagged(lowerTitle: string)
    ensures Flagged(PopularBrands[0], "paypa1.com", lowerTitle, "log in to paypal")
  {
    PaypalIsFirst();
    var text := "log in to paypal";
    assert text[10..16] == "paypal";
    ContainsAt(text, "paypal", 10);
    NotContained("paypa1.com", "paypal.com");
    assert !IsOfficialDomain("paypa1.com", ["paypal.com"]) by {
      forall i | 0 <= i < |["paypal.com"]| ensures !Contains("paypa1.com", ["paypal.com"][i]) {
      }
    }
  }

  /** A string is not found in a string of the same length that differs
      from it. */
  lemma NotContained(s: string, sub: string)
    requires |s| == |sub| && s != sub
    ensures !Contains(s, sub)
  {
    assert s[..|sub|] == s;
    assert |s[1..]| < |sub|;
  }

  // ----------------------------------------------------------------- keywords

  /** `suspiciousKeywords`, in order. */
  const SuspiciousKeywords: seq<string> := [
    "verify your account", "confirm your identity", "unusual activity", "suspended", "limited access",
    "update payment", "expire", "urgent action required", "verify immediately", "account will be closed"
  ]

  /** `keywords.filter(keyword => pageText.includes(keyword))` */
  function FoundKeywords(keywords: seq<string>, pageText: string): (found: seq<string>)
    ensures |found| <= |keywords|
  {
    if |keywords| == 0 then []
    else (if Contains(pageText, keywords[0]) then [keywords[0]] else []) + FoundKeywords(keywords[1..], pageText)
  }

  /** A keyword is found exactly when it is in the list and in the text. */
  lemma {:induction false} FoundKeywordsExactly(keywords: seq<string>, pageText: string)
    ensures forall k :: k in FoundKeywords(keywords, pageText) <==> k in keywords && Contains(pageText, k)
  {
    if |keywords| > 0 {
      FoundKeywordsExactly(keywords[1..], pageText);
      assert keywords == [keywords[0]] + keywords[1..];
    }
  }

  /** Found keywords keep the order of the list: the result is the list
      with the absent keywords removed. */
  lemma {:induction false} FoundKeywordsInOrder(keywords: seq<string>, pageText: string)
    ensures IsSubsequence(FoundKeywords(keywords, pageText), keywords)
  {
    if |keywords| > 0 {
      var rest := FoundKeywords(keywords[1..], pageText);
      FoundKeywordsInOrder(keywords[1..], pageText);
      if Contains(pageText, keywords[0]) {
        assert ([keywords[0]] + rest)[1..] == rest;
      } else if |rest| > 0 {
        FoundKeywordsExactly(keywords[1..], pageText);
        assert rest[0] in rest;
        assert Contains(pageText, rest[0]);
        assert rest[0] != keywords[0];
        assert FoundKeywords(keywords, pageText) == rest;
      }
    }
  }

  /** `a` is `b` with some elements left out. */
  predicate IsSubsequence<T(==)>(a: seq<T>, b: seq<T>)
    decreases |b|
  {
    if |a| == 0 then true
    else if |b| == 0 then false
    else if a[0] == b[0] then IsSubsequence(a[1..], b[1..])
    else IsSubsequence(a, b[1..])
  }

  // -------------------------------------------------------------------- links

  /** The links whose URL parses and names another host. `hostOf` stands
      for `new URL(href).hostname`, `None` when that throws. */
  function ExternalAll(links: seq<string>, domain: string, hostOf: string -> Option<string>): (r: seq<string>)
    ensures forall l | l in r :: l in links && hostOf(l).Some? && hostOf(l).value != domain
    ensures forall l | l in links && hostOf(l).Some? && hostOf(l).value != domain :: l in r
  {
    if |links| == 0 then []
    else
      var h := hostOf(links[0]);
      (if h.Some? && h.value != domain then [links[0]] else []) + ExternalAll(links[1..], domain, hostOf)
  }

  /** The kept links stay in document order, so `.slice(0, 20)` keeps the
      first twenty of the page. */
  lemma {:induction false} ExternalInOrder(links: seq<string>, domain: string, hostOf: string -> Option<string>)
    ensures IsSubsequence(ExternalAll(links, domain, hostOf), links)
    decreases |links|
  {
    if |links| > 0 {
      var rest := ExternalAll(links[1..], domain, hostOf);
      ExternalInOrder(links[1..], domain, hostOf);
      var h := hostOf(links[0]);
      if h.Some? && h.value != domain {
        assert ExternalAll(links, domain, hostOf) == [links[0]] + rest;
        assert ([links[0]] + rest)[1..] == rest;
      } else {
        assert ExternalAll(links, domain, hostOf) == rest;
        if |rest| > 0 {
          assert rest[0] in rest;
          assert rest[0] != links[0];
        }
      }
    }
  }

  /** `externalLinks`: the first twenty of them. */
  function ExternalLinks(links: seq<string>, domain: string, hostOf: string -> Option<string>): (r: seq<string>)
    ensures |r| <= 20
    ensures forall l | l in r :: l in links && hostOf(l).Some? && hostOf(l).value != domain
    ensures |r| == (if |ExternalAll(links, domain, hostOf)| < 20 then |ExternalAll(links, domain, hostOf)| else 20)
    ensures r == ExternalAll(links, domain, hostOf)[..|r|]
  {
    var all := ExternalAll(links, domain, hostOf);
    if |all| <= 20 then all else all[..20]
  }

  // ---------------------------------------------------------------- page data

  /** The facts `extractPageData` sends, apart from the URL, the title and
      the form list. */
  datatype PageFacts = PageFacts(
    hasLoginForm: bool,
    hasPasswordField: bool,
    externalLinks: seq<string>,
    suspiciousKeywords: seq<string>,
    brandIndicators: seq<Indicator>,
    pageLength: nat)

  /** `extractPageData()`: `bodyText` is the body's `innerText`, `None`
      when the page has no body. */
  function ExtractPageData(domain: string, title: string, bodyText: Option<string>,
                           passwordFields: nat, emailFields: nat,
                           links: seq<string>, hostOf: string -> Option<string>): (p: PageFacts)
    ensures p.hasLoginForm <==> passwordFields > 0 && emailFields > 0
    ensures p.hasLoginForm ==> p.hasPasswordField
    ensures p.hasPasswordField <==> passwordFields > 0
    ensures |p.externalLinks| <= 20 && |p.suspiciousKeywords| <= 10 && |p.brandIndicators| <= 10
    ensures bodyText.None? ==> p.pageLength == 0 && p.suspiciousKeywords == []
    ensures p.externalLinks == ExternalLinks(links, domain, hostOf)
    ensures var text := if bodyText.Some? then Lower(bodyText.value) else "";
      && p.suspiciousKeywords == FoundKeywords(SuspiciousKeywords, text)
      && p.brandIndicators == Impersonations(PopularBrands, domain, Lower(title), text)
      && p.pageLength == |text|
    ensures p.pageLength == (if bodyText.Some? then |bodyText.value| else 0)
  {
    var pageText := if bodyText.Some? then Lower(bodyText.value) else "";
    ImpersonationsShape(PopularBrands, domain, Lower(title), pageText);
    NothingFoundInEmpty(SuspiciousKeywords);
    PageFacts(
      passwordFields > 0 && emailFields > 0,
      passwordFields > 0,
      ExternalLinks(links, domain, hostOf),
      FoundKeywords(SuspiciousKeywords, pageText),
      Impersonations(PopularBrands, domain, Lower(title), pageText),
      |pageText|)
  }

  /** No non-empty keyword is found in an empty page. */
  lemma {:induction false} NothingFoundInEmpty(keywords: seq<string>)
    requires forall i | 0 <= i < |keywords| :: keywords[i] != ""
    ensures FoundKeywords(keywords, "") == []
  {
    if |keywords| > 0 {
      NothingFoundInEmpty(keywords[1..]);
    }
  }

  // ----------------------------------------------------------------- reaction

  /** What the content script does with the answer. */
  datatype Reaction = WarningOverlay | CautionBanner | NoWarning

  /** `response && response.isPhishing` first, then `isSuspicious`. */
  function React(response: Option<Json>): (r: Reaction)
    ensures r == WarningOverlay <==> Truthy(response) && Truthy(Prop(response, "isPhishing"))
    ensures r == CautionBanner <==>
      Truthy(response) && !Truthy(Prop(response, "isPhishing")) && Truthy(Prop(response, "isSuspicious"))
  {
    if Truthy(response) && Truthy(Prop(response, "isPhishing")) then WarningOverlay
    else if Truthy(response) && Truthy(Prop(response, "isSuspicious")) then CautionBanner
    else NoWarning
  }

  /** With the background worker as written the page never warns: every
      answer arrives as the failure object. With the call corrected, a
      phishing verdict raises the overlay. */
  lemma {:induction false} WarningsNeverShown(entries: map<string, ChromeBackground.DomainEntry>, domain: string, now: int, reply: Reply)
    ensures React(Some(ChromeBackground.CheckAsWritten(entries, domain, now, reply).response)) == NoWarning
    ensures reply.Ok? && Truthy(Prop(Some(reply.body), "isPhishing")) ==>
      React(Some(ChromeBackground.CheckIntended(entries, domain, now, reply).response)) == WarningOverlay
  {
    var response := ChromeBackground.CheckAsWritten(entries, domain, now, reply).response;
    ChromeBackground.AsWrittenReportsFailure(entries, domain, now, reply);
    assert Prop(Some(response), "isSuspicious").None?;
  }
}
