/** sample-ext's background worker: the same per-tab check as main-extension's
    without scores, whose badge is read from the verdict alone. */
module SampleBackground {
  import opened Js
  import opened Badges
  import opened TabCache
  import MainBackground

  // ------------------------------------------------------------------ badge

  /** `updateBadge(tabId, parsed)`: the upper-cased `verdict || final_verdict`
      picks the badge; there is no CAUTION glyph. A truthy verdict that is not
      a string throws. */
  function UpdateBadge(parsed: Option<Json>): (r: Completion<Badge>)
    ensures r.Abrupt? <==> VerdictText(parsed).Abrupt?
    ensures r.Abrupt? ==> r.message == NotAFunction
    ensures r.Normal? ==> r.value in {DangerBadge, WarnBadge, ErrorBadge, SafeBadge}
    ensures r.Normal? ==> (r.value == DangerBadge <==> VerdictText(parsed).value in {"DANGEROUS", "MALICIOUS"})
    ensures r.Normal? ==> (r.value == WarnBadge <==> VerdictText(parsed).value in {"SUSPICIOUS", "WARN"})
    ensures r.Normal? ==> (r.value == ErrorBadge <==> VerdictText(parsed).value == "ERROR")
  {
    match VerdictText(parsed)
    case Abrupt(m) => Abrupt(m)
    case Normal(verdict) =>
      if verdict == "DANGEROUS" || verdict == "MALICIOUS" then Normal(DangerBadge)
      else if verdict == "SUSPICIOUS" || verdict == "WARN" then Normal(WarnBadge)
      else if verdict == "ERROR" then Normal(ErrorBadge)
      else Normal(SafeBadge)
  }

  /** The mapping ignores the case of the verdict. */
  lemma BadgeIgnoresCase(field: string, verdict: string)
    requires field in {"verdict", "final_verdict"}
    ensures UpdateBadge(Some(JObj(map[field := JStr(verdict)])))
         == UpdateBadge(Some(JObj(map[field := JStr(Upper(verdict))])))
  {
    UpperIdempotent(verdict);
    var x := Some(JObj(map[field := JStr(verdict)]));
    var y := Some(JObj(map[field := JStr(Upper(verdict))]));
    if verdict == "" {
      assert Upper(verdict) == "";
    } else {
      assert |Upper(verdict)| == |verdict|;
      assert Upper(verdict) != "";
      if field == "verdict" {
        assert VerdictText(x) == Normal(Upper(verdict));
      } else {
        assert Prop(x, "verdict").None? && Prop(y, "verdict").None?;
      }
      assert VerdictText(x) == VerdictText(y);
    }
  }

  /** Where no truthy `status` is present the two workers draw the same
      badge; only a `status` can give main-extension's '◐'. */
  lemma AgreesWithMainWithoutStatus(x: Option<Json>)
    requires !Truthy(Prop(x, "status"))
    ensures UpdateBadge(x) == MainBackground.UpdateBadge(x)
  {
  }

  /** An error entry's parsed object shows the grey 'X'. */
  lemma ErrorParsedBadge(message: string)
    ensures UpdateBadge(ErrorData(message).parsed) == Normal(ErrorBadge)
  {
    UpperKeeps("ERROR");
  }

  // ------------------------------------------------------------ coordinator

  /** The catch block: store an error entry under the tab's key and draw the
      badge for it. */
  function Failed(entries: map<int, Entry>, tabId: int, url: string, domain: string, now: int,
                  message: string, fetched: bool): Step
  {
    var shown := UpdateBadge(ErrorData(message).parsed);
    Step(entries[tabId := Entry(ErrorData(message), domain, url, now)], fetched,
         if shown.Normal? then Some(shown.value) else None)
  }

  /** The cache-hit branch: the badge is drawn from the stored `parsed`. */
  function Reused(entries: map<int, Entry>, tabId: int, url: string, domain: string, now: int): Step
    requires tabId in entries
  {
    match UpdateBadge(entries[tabId].data.parsed)
    case Normal(b) => Step(entries, false, Some(b))
    case Abrupt(m) => Failed(entries, tabId, url, domain, now, m, false)
  }

  /** The branch after the classifier answered: store `{ raw, parsed }`
      under the tab's key, then draw the badge from `parsed`; if that throws,
      the catch block overwrites the entry just stored. */
  function Answered(entries: map<int, Entry>, tabId: int, url: string, domain: string, now: int, raw: Json): Step {
    var stored := entries[tabId := Entry(CheckData(Some(raw), ParsedOf(raw), None), domain, url, now)];
    match UpdateBadge(ParsedOf(raw))
    case Normal(b) => Step(stored, true, Some(b))
    case Abrupt(m) => Failed(stored, tabId, url, domain, now, m, true)
  }

  /** `handleCheck(tabId, url)` as one step; `host` and `reply` as in the
      main worker. */
  function Check(entries: map<int, Entry>, tabId: int, url: string, host: Option<string>, now: int, reply: Reply): Step {
    if host.None? then
      // `new URL(url)` throws, and throws again inside the catch block
      Step(entries, false, None)
    else if tabId in entries && Reusable(entries[tabId], url, now) then
      Reused(entries, tabId, url, host.value, now)
    else
      match reply
      case Fail(m) => Failed(entries, tabId, url, host.value, now, m, true)
      case Ok(raw) => Answered(entries, tabId, url, host.value, now, raw)
  }

  /** The entry a remote call leaves under the tab's key: the response, or
      an error entry when the request failed or its `parsed` has a verdict
      that is not a string. */
  function Written(url: string, domain: string, now: int, reply: Reply): Entry {
    match reply
    case Ok(raw) =>
      if UpdateBadge(ParsedOf(raw)).Normal? then Entry(CheckData(Some(raw), ParsedOf(raw), None), domain, url, now)
      else Entry(ErrorData(NotAFunction), domain, url, now)
    case Fail(m) => Entry(ErrorData(m), domain, url, now)
  }

  /** Every stored entry is either a response whose `parsed` is that of its
      `raw` and draws a badge without throwing, or an error entry; neither
      carries scores. */
  predicate WellFormed(e: Entry) {
    && e.data.scores.None?
    && (|| (e.data.raw.Some? && e.data.parsed == ParsedOf(e.data.raw.value) && UpdateBadge(e.data.parsed).Normal?)
        || IsErrorData(e.data))
  }

  /** A stored entry that is well formed never throws when its badge is
      drawn again. */
  lemma WellFormedDrawsBadge(e: Entry)
    requires WellFormed(e)
    ensures UpdateBadge(e.data.parsed).Normal?
  {
    if IsErrorData(e.data) {
      ErrorParsedBadge(Prop(e.data.parsed, "summary").value.s);
    }
  }

  /** The remote classifier is called exactly when the URL parses and the
      tab has no fresh entry for the same URL. */
  lemma FetchIffNotReusable(m: map<int, Entry>, tabId: int, url: string, host: Option<string>, now: int, reply: Reply)
    ensures Check(m, tabId, url, host, now, reply).fetched
        <==> host.Some? && !(tabId in m && Reusable(m[tabId], url, now))
    ensures host.None? ==> Check(m, tabId, url, host, now, reply) == Step(m, false, None)
  {
  }

  /** Over a well-formed store, a check neither fetches nor writes exactly
      when the URL does not parse or the tab's entry is reusable. */
  lemma {:induction false} QuietIffReusable(m: map<int, Entry>, tabId: int, url: string, host: Option<string>, now: int, reply: Reply)
    requires forall k | k in m :: WellFormed(m[k])
    ensures var r := Check(m, tabId, url, host, now, reply);
      (!r.fetched && r.entries == m) <==> host.None? || (tabId in m && Reusable(m[tabId], url, now))
  {
    var r := Check(m, tabId, url, host, now, reply);
    if host.Some? {
      if tabId in m && Reusable(m[tabId], url, now) {
        WellFormedDrawsBadge(m[tabId]);
      } else {
        assert r.fetched;
      }
    }
  }

  /** A check writes at most the tab's own key. */
  lemma OtherTabsUntouched(m: map<int, Entry>, tabId: int, url: string, host: Option<string>, now: int, reply: Reply)
    ensures var r := Check(m, tabId, url, host, now, reply).entries;
      && r.Keys <= m.Keys + {tabId}
      && forall k :: k != tabId ==> (k in r <==> k in m) && (k in m ==> r[k] == m[k])
  {
  }

  /** After a remote call the tab's entry is replaced wholesale; a failed
      call leaves the grey 'X'. */
  lemma {:induction false} FetchOverwrites(m: map<int, Entry>, tabId: int, url: string, host: Option<string>, now: int, reply: Reply)
    requires Check(m, tabId, url, host, now, reply).fetched
    ensures var r := Check(m, tabId, url, host, now, reply);
      && r.entries == m[tabId := Written(url, host.value, now, reply)]
      && (reply.Fail? ==> r.badge == Some(ErrorBadge))
      && (reply.Ok? && UpdateBadge(ParsedOf(reply.body)).Normal? ==> r.badge == Some(UpdateBadge(ParsedOf(reply.body)).value))
      && (reply.Ok? && UpdateBadge(ParsedOf(reply.body)).Abrupt? ==> r.badge == Some(ErrorBadge))
  {
    match reply {
      case Ok(raw) =>
        if UpdateBadge(ParsedOf(raw)).Abrupt? {
          ErrorParsedBadge(NotAFunction);
          var stored := m[tabId := Entry(CheckData(Some(raw), ParsedOf(raw), None), host.value, url, now)];
          assert stored[tabId := Entry(ErrorData(NotAFunction), host.value, url, now)]
              == m[tabId := Entry(ErrorData(NotAFunction), host.value, url, now)];
        }
      case Fail(msg) => ErrorParsedBadge(msg);
    }
  }

  /** Last write wins: a check that calls the classifier erases every trace of
      the check before it on the same tab. */
  lemma {:induction false} LastWriteWins(m: map<int, Entry>, tabId: int,
      url1: string, host1: Option<string>, now1: int, reply1: Reply,
      url2: string, host2: Option<string>, now2: int, reply2: Reply)
    requires Check(Check(m, tabId, url1, host1, now1, reply1).entries, tabId, url2, host2, now2, reply2).fetched
    ensures Check(Check(m, tabId, url1, host1, now1, reply1).entries, tabId, url2, host2, now2, reply2).entries
         == m[tabId := Written(url2, host2.value, now2, reply2)]
  {
    var mid := Check(m, tabId, url1, host1, now1, reply1).entries;
    OtherTabsUntouched(m, tabId, url1, host1, now1, reply1);
    FetchOverwrites(mid, tabId, url2, host2, now2, reply2);
    SameOutside(mid, m, tabId, Written(url2, host2.value, now2, reply2));
  }

  /** A check keeps every stored entry well formed. */
  lemma {:induction false} CheckKeepsWellFormed(m: map<int, Entry>, tabId: int, url: string, host: Option<string>, now: int, reply: Reply)
    requires forall k | k in m :: WellFormed(m[k])
    ensures var r := Check(m, tabId, url, host, now, reply).entries;
      forall k | k in r :: WellFormed(r[k])
  {
    var r := Check(m, tabId, url, host, now, reply).entries;
    forall k | k in r ensures WellFormed(r[k]) {
      if k != tabId || r == m {
        OtherTabsUntouched(m, tabId, url, host, now, reply);
      } else {
        var d := r[k].data;
        assert d.raw.None? ==> d == ErrorData(Prop(d.parsed, "summary").value.s);
      }
    }
  }

  /** The worker's view of `chrome.storage.local`: tab id to entry. */
  class Coordinator {
    var entries: map<int, Entry>

    ghost predicate Valid()
      reads this
    {
      forall k | k in entries :: WellFormed(entries[k])
    }

    constructor ()
      ensures Valid() && entries == map[]
    {
      entries := map[];
    }

    /** `handleCheck(tabId, url)` */
    method HandleCheck(tabId: int, url: string, host: Option<string>, now: int, reply: Reply)
        returns (fetched: bool, badge: Option<Badge>)
      requires Valid()
      modifies this
      ensures Valid()
      ensures Step(entries, fetched, badge) == Check(old(entries), tabId, url, host, now, reply)
    {
      CheckKeepsWellFormed(entries, tabId, url, host, now, reply);
      if host.None? {
        return false, None;
      }
      if tabId in entries && Reusable(entries[tabId], url, now) {
        var shown := UpdateBadge(entries[tabId].data.parsed);
        if shown.Normal? {
          return false, Some(shown.value);
        }
        fetched := false;
        badge := StoreError(tabId, url, host.value, now, shown.message);
        return;
      }
      fetched := true;
      match reply {
        case Fail(m) =>
          badge := StoreError(tabId, url, host.value, now, m);
        case Ok(raw) =>
          var parsed := ParsedOf(raw);
          entries := entries[tabId := Entry(CheckData(Some(raw), parsed, None), host.value, url, now)];
          var shown := UpdateBadge(parsed);
          if shown.Normal? {
            badge := Some(shown.value);
          } else {
            badge := StoreError(tabId, url, host.value, now, shown.message);
          }
      }
    }

    /** The catch block of `handleCheck`. It may follow a store whose badge
        threw, so only the other tabs' entries need be well formed; the
        error entry it writes restores `Valid`. */
    method StoreError(tabId: int, url: string, domain: string, now: int, message: string) returns (badge: Option<Badge>)
      requires forall k | k in entries && k != tabId :: WellFormed(entries[k])
      modifies this
      ensures Valid()
      ensures Step(entries, false, badge) == Failed(old(entries), tabId, url, domain, now, message, false)
    {
      entries := entries[tabId := Entry(ErrorData(message), domain, url, now)];
      var shown := UpdateBadge(ErrorData(message).parsed);
      badge := if shown.Normal? then Some(shown.value) else None;
    }

    /** The `tabs.onRemoved` listener: the closed tab's key is removed. */
    method RemoveTab(tabId: int)
      requires Valid()
      modifies this
      ensures Valid()
      ensures entries == old(entries) - {tabId}
      ensures tabId !in entries
    {
      entries := entries - {tabId};
    }
  }
}
