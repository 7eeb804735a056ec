/** chrome-extension's background worker: the domain-keyed result store
    written by `checkPhishingUrl`, its badge, and the badge reset on a new
    page load. */
module ChromeBackground {
  import opened Js
  import opened Badges

  /** `{ result, checkedAt }` stored under the page's domain. */
  datatype DomainEntry = DomainEntry(result: Json, checkedAt: int)

  const PhishingBadge: Badge := Badge("!", "#FF0000")
  const SuspiciousBadge: Badge := Badge("?", "#FFA500")
  const CleanBadge: Badge := Badge("✓", "#00FF00")

  /** The error thrown by reading `sender` inside `checkPhishingUrl`, where
      no such name is bound. */
  const SenderUnbound: string := "sender is not defined"

  /** `updateBadge(tabId, result)`: `isPhishing` first, then `isSuspicious`,
      else the green check; a nullish result throws. */
  function UpdateBadge(result: Json): (r: Completion<Badge>)
    ensures r.Abrupt? <==> result == JNull
    ensures r.Normal? ==> (r.value == PhishingBadge <==> Truthy(Prop(Some(result), "isPhishing")))
    ensures r.Normal? ==> (r.value == SuspiciousBadge <==>
      !Truthy(Prop(Some(result), "isPhishing")) && Truthy(Prop(Some(result), "isSuspicious")))
    ensures r.Normal? ==> (r.value == CleanBadge <==>
      !Truthy(Prop(Some(result), "isPhishing")) && !Truthy(Prop(Some(result), "isSuspicious")))
  {
    if result == JNull then Abrupt(ReadOfNullish(Some(JNull)))
    else if Truthy(Prop(Some(result), "isPhishing")) then Normal(PhishingBadge)
    else if Truthy(Prop(Some(result), "isSuspicious")) then Normal(SuspiciousBadge)
    else Normal(CleanBadge)
  }

  /** The object `checkPhishingUrl`'s catch block returns. */
  function FailureResult(message: string): (r: Json)
    ensures Prop(Some(r), "isPhishing") == Some(JBool(false))
    ensures Prop(Some(r), "error") == Some(JStr(message))
  {
    JObj(map["isPhishing" := JBool(false), "confidence" := JNum(0), "error" := JStr(message),
             "message" := JStr("Could not connect to phishing detection service")])
  }

  /** What one call leaves behind: the store, the value the content script
      receives, and the badge drawn (none if no badge was set). */
  datatype Outcome = Outcome(entries: map<string, DomainEntry>, response: Json, badge: Option<Badge>)

  /** `checkPhishingUrl(urlData)` as written: a successful answer is stored
      under the domain, then reading `sender` throws and the catch block
      returns the failure object; a failed request stores nothing. */
  function CheckAsWritten(entries: map<string, DomainEntry>, domain: string, now: int, reply: Reply): Outcome {
    match reply
    case Fail(m) => Outcome(entries, FailureResult(m), None)
    case Ok(result) => Outcome(entries[domain := DomainEntry(result, now)], FailureResult(SenderUnbound), None)
  }

  /** `checkPhishingUrl(urlData)` with the badge drawn for the tab that sent
      the request: the stored result is returned, unless drawing its badge
      throws. */
  function CheckIntended(entries: map<string, DomainEntry>, domain: string, now: int, reply: Reply): Outcome {
    match reply
    case Fail(m) => Outcome(entries, FailureResult(m), None)
    case Ok(result) =>
      var stored := entries[domain := DomainEntry(result, now)];
      match UpdateBadge(result)
      case Normal(b) => Outcome(stored, result, Some(b))
      case Abrupt(m) => Outcome(stored, FailureResult(m), None)
  }

  /** As written, every answer reaches the content script as a failure: a
      page the classifier flags as phishing is reported as not phishing,
      and no badge is ever drawn. */
  lemma {:induction false} AsWrittenReportsFailure(entries: map<string, DomainEntry>, domain: string, now: int, reply: Reply)
    ensures var o := CheckAsWritten(entries, domain, now, reply);
      && Prop(Some(o.response), "isPhishing") == Some(JBool(false))
      && o.badge.None?
      && (reply.Ok? ==> Prop(Some(o.response), "error") == Some(JStr(SenderUnbound)))
  {
    var o := CheckAsWritten(entries, domain, now, reply);
    match reply {
      case Fail(m) =>
        assert o.response == FailureResult(m);
      case Ok(result) =>
        assert o.response == FailureResult(SenderUnbound);
    }
  }

  /** The corrected call returns what the classifier said and draws its
      badge, and stores exactly what the call as written stores. */
  lemma {:induction false} IntendedReturnsResult(entries: map<string, DomainEntry>, domain: string, now: int, reply: Reply)
    ensures var o := CheckIntended(entries, domain, now, reply);
      && o.entries == CheckAsWritten(entries, domain, now, reply).entries
      && (reply.Ok? && reply.body != JNull ==>
            o.response == reply.body && o.badge == Some(UpdateBadge(reply.body).value))
      && (reply.Fail? ==> o.response == FailureResult(reply.message) && o.entries == entries)
  {
  }

  /** A page the classifier flags shows the red '!' once corrected, and is
      reported as safe as written. */
  lemma PhishingVerdictLost(entries: map<string, DomainEntry>, domain: string, now: int)
    ensures var result := JObj(map["isPhishing" := JBool(true)]);
      && CheckIntended(entries, domain, now, Ok(result)).badge == Some(PhishingBadge)
      && CheckIntended(entries, domain, now, Ok(result)).response == result
      && Prop(Some(CheckAsWritten(entries, domain, now, Ok(result)).response), "isPhishing") == Some(JBool(false))
  {
    var result := JObj(map["isPhishing" := JBool(true)]);
    assert Prop(Some(result), "isPhishing") == Some(JBool(true));
    AsWrittenReportsFailure(entries, domain, now, Ok(result));
  }

  /** A successful answer replaces the domain's entry and no other; a failed
      request leaves the store alone. */
  lemma StoreByDomain(entries: map<string, DomainEntry>, domain: string, now: int, reply: Reply)
    ensures var e := CheckAsWritten(entries, domain, now, reply).entries;
      && (reply.Ok? ==> e == entries[domain := DomainEntry(reply.body, now)])
      && (reply.Fail? ==> e == entries)
      && forall d :: d != domain ==> (d in e <==> d in entries) && (d in e ==> e[d] == entries[d])
  {
  }

  /** The `tabs.onUpdated` listener clears the badge when a load completes
      on a page that is not a browser page. */
  function ClearsBadge(status: Option<string>, url: Option<string>): (clears: bool)
    ensures clears <==>
      (status == Some("complete") && url.Some? && url.value != ""
       && !StartsWith(url.value, "chrome://") && !StartsWith(url.value, "chrome-extension://"))
  {
    if status == Some("complete") && url.Some? && url.value != "" then
      !(StartsWith(url.value, "chrome://") || StartsWith(url.value, "chrome-extension://"))
    else false
  }

  /** The worker's view of `chrome.storage.local`: domain to entry. */
  class DomainCache {
    var entries: map<string, DomainEntry>

    constructor ()
      ensures entries == map[]
    {
      entries := map[];
    }

    /** `checkPhishingUrl(urlData)` as written. */
    method CheckPhishingUrl(domain: string, now: int, reply: Reply) returns (response: Json)
      modifies this
      ensures Outcome(entries, response, None) == CheckAsWritten(old(entries), domain, now, reply)
    {
      match reply {
        case Fail(m) =>
          response := FailureResult(m);
        case Ok(result) =>
          entries := entries[domain := DomainEntry(result, now)];
          response := FailureResult(SenderUnbound);
      }
    }

    /** `checkPhishingUrl(urlData)` with the sender's tab passed in. */
    method CheckPhishingUrlFixed(domain: string, now: int, reply: Reply) returns (response: Json, badge: Option<Badge>)
      modifies this
      ensures Outcome(entries, response, badge) == CheckIntended(old(entries), domain, now, reply)
    {
      badge := None;
      match reply {
        case Fail(m) =>
          response := FailureResult(m);
        case Ok(result) =>
          entries := entries[domain := DomainEntry(result, now)];
          var shown := UpdateBadge(result);
          if shown.Normal? {
            response, badge := result, Some(shown.value);
          } else {
            response := FailureResult(shown.message);
          }
      }
    }

    /** `chrome.storage.local.remove(domain)` */
    method Remove(domain: string)
      modifies this
      ensures entries == old(entries) - {domain}
      ensures domain !in entries
    {
      entries := entries - {domain};
    }
  }
}
