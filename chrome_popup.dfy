/** chrome-extension's popup: the recency test, the domain-keyed cache
    decision when the popup opens, the status shown for a result, and the
    re-check that clears the domain's entry. */
module ChromePopup {
  import opened Js
  import opened Badges
  import TabCache
  import opened ChromeBackground

  /** `isRecent(timestamp)`: written less than five minutes ago. */
  predicate IsRecent(checkedAt: int, now: int) {
    now - checkedAt < 5 * 60 * 1000
  }

  /** The popup's recency test is the tab-keyed workers' freshness rule. */
  lemma RecentIsFresh(e: TabCache.Entry, now: int)
    ensures IsRecent(e.checkedAt, now) <==> TabCache.IsFresh(e, now)
  {
  }

  /** The result shown for a browser page. */
  const SystemPageResult: Json :=
    JObj(map["isPhishing" := JBool(false), "confidence" := JNum(1), "reason" := JStr("System page - not analyzed")])

  /** The first thing the popup does on opening. */
  datatype Load =
    | SystemPage                                          // the fixed browser-page result
    | ShowCached(result: Json, domain: string, checkedAt: int)
    | Recheck(domain: string)                             // ask the content script, then look again
    | Broken                                              // `new URL(url)` threw

  /** The load handler: no tab, no URL or a `chrome://` URL is a system page;
      otherwise the cache is read by hostname, and a recent entry is shown.
      `host` is `new URL(url).hostname`, `None` when that throws. */
  function LoadDecision(tabUrl: Option<string>, host: Option<string>, cache: map<string, DomainEntry>, now: int): (d: Load)
    ensures d == SystemPage <==> tabUrl.None? || tabUrl.value == "" || StartsWith(tabUrl.value, "chrome://")
    ensures d.ShowCached? ==>
      && host.Some? && d.domain == host.value && host.value in cache
      && d.result == cache[host.value].result && IsRecent(cache[host.value].checkedAt, now)
    ensures d.Recheck? ==>
      && host.Some? && d.domain == host.value
      && !(host.value in cache && IsRecent(cache[host.value].checkedAt, now))
    ensures d == Broken ==> host.None?
  {
    if tabUrl.None? || tabUrl.value == "" || StartsWith(tabUrl.value, "chrome://") then SystemPage
    else if host.None? then Broken
    else
      var domain := host.value;
      if domain in cache && IsRecent(cache[domain].checkedAt, now) then
        ShowCached(cache[domain].result, domain, cache[domain].checkedAt)
      else Recheck(domain)
  }

  /** The cache is keyed by hostname only: two pages on one host get the
      same decision, whatever their paths. */
  lemma SameHostSameDecision(url1: string, url2: string, host: string, cache: map<string, DomainEntry>, now: int)
    requires url1 != "" && !StartsWith(url1, "chrome://")
    requires url2 != "" && !StartsWith(url2, "chrome://")
    ensures LoadDecision(Some(url1), Some(host), cache, now) == LoadDecision(Some(url2), Some(host), cache, now)
  {
  }

  /** Extension pages are not system pages here: a `chrome-extension://` URL
      goes to the cache like any other. */
  lemma ExtensionPageIsLookedUp(url: string, host: string, cache: map<string, DomainEntry>, now: int)
    requires StartsWith(url, "chrome-extension://")
    ensures LoadDecision(Some(url), Some(host), cache, now) != SystemPage
  {
    assert !StartsWith(url, "chrome://") by {
      assert url[..19] == "chrome-extension://";
      assert url[6] == url[..19][6] == '-';
    }
  }

  /** What the popup shows once the content script was asked to re-check:
      a fixed result when the request failed; otherwise the entry found
      after the pause, shown without a recency test, or a placeholder. */
  datatype FollowUp = CouldNotAnalyze | Cached(result: Json) | InProgress

  /** The `setTimeout` callback and the `catch` block of the load handler. */
  function AfterRecheck(requestFailed: bool, cache: map<string, DomainEntry>, domain: string): (f: FollowUp)
    ensures requestFailed <==> f == CouldNotAnalyze
    ensures f.Cached? <==> !requestFailed && domain in cache
    ensures f.Cached? ==> f.result == cache[domain].result
  {
    if requestFailed then CouldNotAnalyze
    else if domain in cache then Cached(cache[domain].result)
    else InProgress
  }

  /** The placeholder result of each follow-up without an entry. */
  function FollowUpResult(f: FollowUp): Json {
    match f
    case CouldNotAnalyze => JObj(map["isPhishing" := JBool(false), "confidence" := JNum(0), "reason" := JStr("Could not analyze this page")])
    case InProgress => JObj(map["isPhishing" := JBool(false), "confidence" := JNum(0), "reason" := JStr("Analysis in progress...")])
    case Cached(result) => result
  }

  // ------------------------------------------------------------- showResult

  /** The three states `showResult` distinguishes. */
  datatype Verdict = Phishing | Suspicious | Safe

  /** The icon, the title and the description `showResult` puts up. */
  datatype Panel = Panel(verdict: Verdict, icon: string, title: string, description: Json)

  /** `showResult(result)`: `isPhishing` first, then `isSuspicious`, else
      safe; the description is `result.reason` or a fixed sentence. Reading
      a field of a nullish result throws. */
  function ShowResult(result: Json): (r: Completion<Panel>)
    ensures r.Abrupt? <==> result == JNull
    ensures r.Normal? ==> (r.value.verdict == Phishing <==> Truthy(Prop(Some(result), "isPhishing")))
    ensures r.Normal? ==> (r.value.verdict == Suspicious <==>
      !Truthy(Prop(Some(result), "isPhishing")) && Truthy(Prop(Some(result), "isSuspicious")))
    ensures r.Normal? && Truthy(Prop(Some(result), "reason")) ==> r.value.description == Prop(Some(result), "reason").value
  {
    if result == JNull then Abrupt(ReadOfNullish(Some(JNull)))
    else
      var reason := Prop(Some(result), "reason");
      if Truthy(Prop(Some(result), "isPhishing")) then
        Normal(Panel(Phishing, "🚨", "PHISHING DETECTED!", Or(reason, Some(JStr("This site appears to be a phishing attempt"))).value))
      else if Truthy(Prop(Some(result), "isSuspicious")) then
        Normal(Panel(Suspicious, "⚠️", "Suspicious Site", Or(reason, Some(JStr("Some suspicious elements detected"))).value))
      else
        Normal(Panel(Safe, "✅", "Safe Website", Or(reason, Some(JStr("No phishing indicators detected"))).value))
  }

  /** The popup and the badge read a result the same way: each state has
      its own badge. */
  lemma PanelMatchesBadge(result: Json)
    ensures ShowResult(result).Normal? <==> ChromeBackground.UpdateBadge(result).Normal?
    ensures ShowResult(result).Normal? ==>
      ChromeBackground.UpdateBadge(result).value == match ShowResult(result).value.verdict {
        case Phishing => PhishingBadge
        case Suspicious => SuspiciousBadge
        case Safe => CleanBadge
      }
  {
  }

  /** After a recheck, a fresh entry shows its own result; without one the
      popup shows the safe panel, saying why, and never a warning. */
  lemma FollowUpPanel(requestFailed: bool, cache: map<string, DomainEntry>, domain: string)
    ensures var f := AfterRecheck(requestFailed, cache, domain);
      && (f.Cached? ==> FollowUpResult(f) == cache[domain].result)
      && (!f.Cached? ==> ShowResult(FollowUpResult(f)) == Normal(Panel(Safe, "✅", "Safe Website",
            JStr(if requestFailed then "Could not analyze this page" else "Analysis in progress..."))))
  {
    var f := AfterRecheck(requestFailed, cache, domain);
    var x := Some(FollowUpResult(f));
    if !f.Cached? {
      assert Prop(x, "isPhishing") == Some(JBool(false));
      assert Prop(x, "isSuspicious").None?;
      assert Prop(x, "reason") == Some(JStr(if requestFailed then "Could not analyze this page" else "Analysis in progress..."));
    }
  }

  /** A browser page is shown as safe, with its own explanation. */
  lemma SystemPageIsSafe()
    ensures ShowResult(SystemPageResult) == Normal(Panel(Safe, "✅", "Safe Website", JStr("System page - not analyzed")))
  {
    assert Prop(Some(SystemPageResult), "isPhishing") == Some(JBool(false));
    assert Prop(Some(SystemPageResult), "isSuspicious").None?;
    assert Prop(Some(SystemPageResult), "reason") == Some(JStr("System page - not analyzed"));
  }

  /** `recheckPage()`: the current domain's entry is removed before the tab
      is reloaded, so the next check cannot be served from the cache. */
  method RecheckPage(cache: DomainCache, domain: string, now: int)
    modifies cache
    ensures cache.entries == old(cache.entries) - {domain}
    ensures forall tabUrl :: LoadDecision(tabUrl, Some(domain), cache.entries, now) in {SystemPage, Recheck(domain)}
  {
    cache.Remove(domain);
  }
}
