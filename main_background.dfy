/** main-extension's background worker: the scorer, the badge, and the
    per-tab check coordinator over the `String(tabId)`-keyed store. */
module MainBackground {
  import opened Js
  import opened Scoring
  import opened Badges
  import opened TabCache

  // ---------------------------------------------------------------- scoring

  /** Slot `i` of the `[safeBrowsing, virusTotal]` pair: `rawResponse[i] || {}`
      for an array response, `{}` for anything else. */
  function Slot(raw: Json, i: nat): Json {
    if raw.JArr? then Or(At(raw, i), Some(EmptyObject)).value else EmptyObject
  }

  /** `virusTotal?.data?.attributes?.stats || {}`, then each count `|| 0`
      (the `|| {}` changes nothing: every count of `{}` reads as 0). */
  function VirusTotalVotes(raw: Json): Votes {
    VotesOfSlot(Slot(raw, 1))
  }

  /** The counts under `data.attributes.stats` of a VirusTotal result. */
  function VotesOfSlot(virusTotal: Json): Votes {
    VotesIn(Prop(Prop(Prop(Some(virusTotal), "data"), "attributes"), "stats"))
  }

  /** `Math.round(threatRatio * 100)`, the whole threat percentage that the
      penalty is taken from; 0 when there are no votes. */
  function ThreatPoints(v: Votes): int {
    if v.Total() > 0 then RoundHalfUp(v.Threats() as real / v.Total() as real * 100.0) else 0
  }

  /** `Math.min(40, Math.round(threatRatio * 100) * 0.4)`, taken off the total
      when there are votes at all. */
  function Penalty(v: Votes): real {
    if v.Total() > 0 then MinReal(40.0, ThreatPoints(v) as real * 0.4) else 0.0
  }

  /** `Math.round(((harmless + undetected) / total) * 100)`, or 100 when
      there are no votes. */
  function CleanPoints(v: Votes): int {
    if v.Total() > 0 then RoundHalfUp(v.Clean() as real / v.Total() as real * 100.0) else 100
  }

  /** `calculateScores(rawResponse)`: start from 100, take 50 off for a Safe
      Browsing match, take the vote penalty off, round and clamp at 0, then
      pick the verdict. */
  function CalculateScores(raw: Json): (s: Scores)
    ensures s.gsbScore == 0 || s.gsbScore == 100
    ensures s.gsbScore == 0 <==> HasMatches(Slot(raw, 0))
    ensures s.status == Some(StatusFor(s.totalScore))
    ensures VirusTotalVotes(raw).NonNegative() ==> InRange(s) && 10 <= s.totalScore
    ensures VirusTotalVotes(raw).Total() == 0 ==> s.vtScore == 100
    ensures VirusTotalVotes(raw).NonNegative() && VirusTotalVotes(raw).Total() > 0 ==>
      s.vtScore == CleanPoints(VirusTotalVotes(raw))
    ensures VirusTotalVotes(raw).NonNegative() ==>
      s.totalScore == (if HasMatches(Slot(raw, 0)) then 50 else 100) - (4 * ThreatPoints(VirusTotalVotes(raw)) + 5) / 10
  {
    var blocklisted := HasMatches(Slot(raw, 0));
    var v := VirusTotalVotes(raw);
    var start: real := if blocklisted then 50.0 else 100.0;
    var gsb: real := if blocklisted then 0.0 else 100.0;
    var t := MaxZero(RoundHalfUp(start - Penalty(v)));
    RoundWhole(if blocklisted then 0 else 100);
    RoundWhole(CleanPoints(v));
    SaneScores(v, blocklisted);
    Scores(t, MaxZero(RoundHalfUp(gsb)), MaxZero(RoundHalfUp(CleanPoints(v) as real)), Some(StatusFor(t)))
  }

  /** With sane votes both VirusTotal terms are whole percentages, and the
      total before the clamp is `start - (4p + 5) div 10`. */
  lemma SaneScores(v: Votes, blocklisted: bool)
    ensures v.NonNegative() ==> 0 <= CleanPoints(v) <= 100 && 0 <= ThreatPoints(v) <= 100
    ensures v.NonNegative() ==>
      RoundHalfUp((if blocklisted then 50.0 else 100.0) - Penalty(v))
        == (if blocklisted then 50 else 100) - (4 * ThreatPoints(v) + 5) / 10
  {
    if v.NonNegative() {
      if v.Total() > 0 {
        PercentInRange(v.Clean(), v.Total());
        PercentInRange(v.Threats(), v.Total());
        assert Penalty(v) == ThreatPoints(v) as real * 0.4;
      } else {
        assert Penalty(v) == ThreatPoints(v) as real * 0.4;
      }
      RoundPenalty(if blocklisted then 50 else 100, ThreatPoints(v));
    }
  }

  /** The VirusTotal term alone can never push a page below 60, so the verdict
      is SUSPICIOUS or DANGEROUS exactly when Safe Browsing reported a match. */
  lemma AlarmIffBlocklisted(raw: Json)
    requires VirusTotalVotes(raw).NonNegative()
    ensures CalculateScores(raw).status.value in {Suspicious, Dangerous} <==> HasMatches(Slot(raw, 0))
    ensures HasMatches(Slot(raw, 0)) ==> 10 <= CalculateScores(raw).totalScore <= 50
    ensures !HasMatches(Slot(raw, 0)) ==> 60 <= CalculateScores(raw).totalScore <= 100
  {
    SaneScores(VirusTotalVotes(raw), HasMatches(Slot(raw, 0)));
  }

  const PhishPair: Json :=
    JArr([JObj(map["matches" := JArr([JObj(map["threatType" := JStr("SOCIAL_ENGINEERING")])])]), EmptyObject])

  const TenMalicious: Json :=
    JObj(map["malicious" := JNum(10), "suspicious" := JNum(0), "harmless" := JNum(0), "undetected" := JNum(0)])

  const AllMaliciousPair: Json :=
    JArr([EmptyObject, JObj(map["data" := JObj(map["attributes" := JObj(map["stats" := TenMalicious])])])])

  /** With no VirusTotal votes only Safe Browsing counts: 100/100/100 SAFE
      without a match, 50/0/100 SUSPICIOUS with one. */
  lemma NoVotesScores(raw: Json)
    requires VirusTotalVotes(raw).NonNegative() && VirusTotalVotes(raw).Total() == 0
    ensures !HasMatches(Slot(raw, 0)) ==> CalculateScores(raw) == Scores(100, 100, 100, Some(Safe))
    ensures HasMatches(Slot(raw, 0)) ==> CalculateScores(raw) == Scores(50, 0, 100, Some(Suspicious))
  {
    ZeroVotesPoints(VirusTotalVotes(raw));
    var s := CalculateScores(raw);
    var start := if HasMatches(Slot(raw, 0)) then 50 else 100;
    assert s.totalScore == start - (4 * 0 + 5) / 10 == start;
    StatusOfStart(start);
    assert s.gsbScore == (if HasMatches(Slot(raw, 0)) then 0 else 100);
    assert s.vtScore == 100;
    assert s == Scores(start, if start == 50 then 0 else 100, 100, Some(if start == 50 then Suspicious else Safe));
  }

  /** No votes give no threat points. */
  lemma ZeroVotesPoints(v: Votes)
    requires v.Total() == 0
    ensures ThreatPoints(v) == 0
  {
  }

  /** The verdicts of the two starting totals. */
  lemma StatusOfStart(start: int)
    requires start == 50 || start == 100
    ensures StatusFor(start) == if start == 50 then Suspicious else Safe
  {
  }

  /** A pair of empty objects, and a response that is not an array at all,
      score 100/100/100 SAFE. */
  lemma EmptyResponseIsSafe(raw: Json)
    requires raw == JArr([EmptyObject, EmptyObject]) || !raw.JArr?
    ensures CalculateScores(raw) == Scores(100, 100, 100, Some(Safe))
  {
    assert Slot(raw, 0) == EmptyObject && Slot(raw, 1) == EmptyObject;
    assert !HasMatches(Slot(raw, 0));
    NoVotesScores(raw);
  }

  /** A Safe Browsing match alone scores 50: below 60, so SUSPICIOUS. */
  lemma BlocklistHitIsSuspicious()
    ensures CalculateScores(PhishPair) == Scores(50, 0, 100, Some(Suspicious))
  {
    assert Slot(PhishPair, 1) == EmptyObject;
    assert HasMatches(Slot(PhishPair, 0));
    NoVotesScores(PhishPair);
  }

  /** Votes that are all threats take the full 40 off: 60, CAUTION, with a
      VirusTotal score of 0. */
  lemma AllThreatsScores(raw: Json)
    requires VirusTotalVotes(raw).NonNegative() && VirusTotalVotes(raw).Clean() == 0
    requires VirusTotalVotes(raw).Threats() > 0
    requires !HasMatches(Slot(raw, 0))
    ensures CalculateScores(raw) == Scores(60, 100, 0, Some(Caution))
  {
    var v := VirusTotalVotes(raw);
    assert v.Total() == v.Threats();
    ThreatsAllOrNothing(v.Threats());
    assert ThreatPoints(v) == 100;
    assert CleanPoints(v) == 0;
    var s := CalculateScores(raw);
    assert s.totalScore == 60;
    assert s.gsbScore == 100;
    assert s.vtScore == 0;
    assert s.status == Some(Caution);
  }

  /** A whole share rounds to 100 per cent and an empty one to 0. */
  lemma ThreatsAllOrNothing(n: int)
    requires n > 0
    ensures RoundHalfUp(n as real / n as real * 100.0) == 100
    ensures RoundHalfUp(0 as real / n as real * 100.0) == 0
  {
    assert n as real / n as real == 1.0;
    assert 0 as real / n as real == 0.0;
  }

  /** The VirusTotal counts read out of `AllMaliciousPair`. */
  lemma TenMaliciousVotes()
    ensures VirusTotalVotes(AllMaliciousPair) == Votes(10, 0, 0, 0)
  {
    var attributes := Prop(Prop(Some(Slot(AllMaliciousPair, 1)), "data"), "attributes");
    assert attributes == Some(JObj(map["stats" := TenMalicious]));
    assert Prop(attributes, "stats") == Some(TenMalicious);
  }

  /** Ten malicious votes land exactly on 60: CAUTION, not SUSPICIOUS. */
  lemma AllMaliciousIsCaution()
    ensures CalculateScores(AllMaliciousPair) == Scores(60, 100, 0, Some(Caution))
  {
    TenMaliciousVotes();
    assert !HasMatches(Slot(AllMaliciousPair, 0)) by {
      assert Slot(AllMaliciousPair, 0) == EmptyObject;
    }
    AllThreatsScores(AllMaliciousPair);
  }

  // ------------------------------------------------------------------ badge

  /** The badge if-chain on a status string, compared exactly. */
  function StatusBadge(status: Option<Json>): Badge {
    if status == Some(JStr("DANGEROUS")) then DangerBadge
    else if status == Some(JStr("SUSPICIOUS")) then WarnBadge
    else if status == Some(JStr("CAUTION")) then CautionBadge
    else if status == Some(JStr("ERROR")) then ErrorBadge
    else SafeBadge
  }

  /** The verdict-to-status mapping used when there is no `status`. */
  function VerdictStatus(verdict: string): string {
    if verdict == "DANGEROUS" || verdict == "MALICIOUS" then "DANGEROUS"
    else if verdict == "SUSPICIOUS" || verdict == "WARN" then "SUSPICIOUS"
    else if verdict == "ERROR" then "ERROR"
    else "SAFE"
  }

  /** `updateBadge(tabId, scoresOrParsed)`: a truthy `status` decides;
      otherwise the upper-cased `verdict || final_verdict` does, where
      CAUTION is not among the verdict names. */
  function UpdateBadge(x: Option<Json>): (r: Completion<Badge>)
    ensures Truthy(Prop(x, "status")) ==> r == Normal(StatusBadge(Prop(x, "status")))
    ensures r == Normal(CautionBadge) ==> Prop(x, "status") == Some(JStr("CAUTION"))
    ensures r.Abrupt? ==> !Truthy(Prop(x, "status")) && r.message == NotAFunction
  {
    var status := Prop(x, "status");
    if Truthy(status) then Normal(StatusBadge(status))
    else match VerdictText(x)
      case Normal(v) => Normal(StatusBadge(Some(JStr(VerdictStatus(v)))))
      case Abrupt(m) => Abrupt(m)
  }

  function BadgeFor(st: Status): Badge {
    match st
    case Safe => SafeBadge
    case Caution => CautionBadge
    case Suspicious => WarnBadge
    case Dangerous => DangerBadge
  }

  /** After a fresh check the badge is drawn from the computed scores, whose
      `status` always decides, so it never throws. */
  lemma ScoresBadge(s: Scores)
    requires s.status.Some?
    ensures UpdateBadge(Some(ScoresJson(s))) == Normal(BadgeFor(s.status.value))
  {
    var status := Prop(Some(ScoresJson(s)), "status");
    assert status == Some(JStr(s.status.value.Name()));
  }

  /** On a parsed object with no status, the verdict classes: MALICIOUS and
      DANGEROUS are red '!', SUSPICIOUS and WARN orange '?', ERROR grey 'X',
      anything else (CAUTION included) green. */
  lemma VerdictBadge(verdict: string)
    ensures verdict == "" ==> UpdateBadge(Some(JObj(map["verdict" := JStr(verdict)]))) == Normal(SafeBadge)
    ensures var r := UpdateBadge(Some(JObj(map["verdict" := JStr(verdict)])));
      && (Upper(verdict) in {"MALICIOUS", "DANGEROUS"} ==> r == Normal(DangerBadge))
      && (Upper(verdict) in {"SUSPICIOUS", "WARN"} ==> r == Normal(WarnBadge))
      && (Upper(verdict) == "ERROR" ==> r == Normal(ErrorBadge))
      && (Upper(verdict) !in {"MALICIOUS", "DANGEROUS", "SUSPICIOUS", "WARN", "ERROR"} ==> r == Normal(SafeBadge))
  {
    var x := Some(JObj(map["verdict" := JStr(verdict)]));
    assert Prop(x, "status").None?;
    assert Prop(x, "verdict") == Some(JStr(verdict));
  }

  /** An error entry's parsed object shows the grey 'X'. */
  lemma ErrorParsedBadge(message: string)
    ensures UpdateBadge(ErrorData(message).parsed) == Normal(ErrorBadge)
  {
    UpperKeeps("ERROR");
  }

  // ------------------------------------------------------------ coordinator

  /** The `tabs.onUpdated` filter: a truthy `changeInfo.url` that is not a
      browser page starts a check, whatever the frame. */
  function ShouldCheckUrlChange(changedUrl: Option<string>): (go: bool)
    ensures go <==> changedUrl.Some? && changedUrl.value != "" && !IsBrowserPage(changedUrl.value)
  {
    if changedUrl.None? || changedUrl.value == "" then false
    else !StartsWith(changedUrl.value, "chrome://") && !StartsWith(changedUrl.value, "chrome-extension://")
  }

  /** The two listeners in front of `handleCheck` agree on a top-frame
      navigation: a URL the completed-load filter lets through is also let
      through as a URL change, and conversely. */
  lemma NavigationFiltersAgree(url: Option<string>)
    ensures ShouldCheckNavigation(0, url) == ShouldCheckUrlChange(url)
  {
  }

  /** The catch block: store an error entry under the tab's key and draw the
      badge for it. */
  function Failed(entries: map<int, Entry>, tabId: int, url: string, domain: string, now: int,
                  message: string, fetched: bool): Step
  {
    var shown := UpdateBadge(ErrorData(message).parsed);
    Step(entries[tabId := Entry(ErrorData(message), domain, url, now)], fetched,
         if shown.Normal? then Some(shown.value) else None)
  }

  /** The cache-hit branch: the badge is drawn from the stored `parsed`. */
  function Reused(entries: map<int, Entry>, tabId: int, url: string, domain: string, now: int): Step
    requires tabId in entries
  {
    match UpdateBadge(entries[tabId].data.parsed)
    case Normal(b) => Step(entries, false, Some(b))
    case Abrupt(m) => Failed(entries, tabId, url, domain, now, m, false)
  }

  /** The branch after the classifier answered: store `{ raw, parsed,
      scores }` under the tab's key, then draw the badge from the scores. */
  function Scored(entries: map<int, Entry>, tabId: int, url: string, domain: string, now: int, raw: Json): Step {
    var scores := CalculateScores(raw);
    var stored := entries[tabId := Entry(CheckData(Some(raw), ParsedOf(raw), Some(scores)), domain, url, now)];
    match UpdateBadge(Some(ScoresJson(scores)))
    case Normal(b) => Step(stored, true, Some(b))
    case Abrupt(m) => Failed(stored, tabId, url, domain, now, m, true)
  }

  /** `handleCheck(tabId, url)` as one step. `host` is `new URL(url).hostname`,
      `None` when the URL does not parse; `reply` is what the classifier
      answers if it is asked. */
  function Check(entries: map<int, Entry>, tabId: int, url: string, host: Option<string>, now: int, reply: Reply): Step {
    if host.None? then
      // `new URL(url)` throws, and throws again inside the catch block
      Step(entries, false, None)
    else if tabId in entries && Reusable(entries[tabId], url, now) then
      Reused(entries, tabId, url, host.value, now)
    else
      match reply
      case Fail(m) => Failed(entries, tabId, url, host.value, now, m, true)
      case Ok(raw) => Scored(entries, tabId, url, host.value, now, raw)
  }

  /** The entry a remote call leaves under the tab's key. */
  function Written(url: string, domain: string, now: int, reply: Reply): Entry {
    match reply
    case Ok(raw) => Entry(CheckData(Some(raw), ParsedOf(raw), Some(CalculateScores(raw))), domain, url, now)
    case Fail(m) => Entry(ErrorData(m), domain, url, now)
  }

  /** Every stored entry is either a scored result whose `parsed` and
      `scores` are those of its `raw`, or an error entry. */
  predicate WellFormed(e: Entry) {
    || (e.data.raw.Some? && e.data.parsed == ParsedOf(e.data.raw.value)
        && e.data.scores == Some(CalculateScores(e.data.raw.value)))
    || IsErrorData(e.data)
  }

  /** The remote classifier is called exactly when the URL parses and the
      tab has no fresh entry for the same URL; an unparsable URL stores
      nothing and draws no badge. */
  lemma FetchIffNotReusable(m: map<int, Entry>, tabId: int, url: string, host: Option<string>, now: int, reply: Reply)
    ensures Check(m, tabId, url, host, now, reply).fetched
        <==> host.Some? && !(tabId in m && Reusable(m[tabId], url, now))
    ensures host.None? ==> Check(m, tabId, url, host, now, reply) == Step(m, false, None)
  {
  }

  /** The store is left as it was exactly when the URL does not parse, or the
      tab's entry is reusable and its `parsed` draws a badge without
      throwing; a reusable entry whose verdict is a truthy non-string is
      replaced by an error entry. */
  lemma {:induction false} StoreUnchangedIff(m: map<int, Entry>, tabId: int, url: string, host: Option<string>, now: int, reply: Reply)
    ensures Check(m, tabId, url, host, now, reply).entries == m
        <==> host.None? || (tabId in m && Reusable(m[tabId], url, now) && UpdateBadge(m[tabId].data.parsed).Normal?)
  {
    var r := Check(m, tabId, url, host, now, reply);
    if host.Some? {
      if tabId in m && Reusable(m[tabId], url, now) {
        var shown := UpdateBadge(m[tabId].data.parsed);
        if shown.Abrupt? {
          ErrorParsedBadge(shown.message);
          assert r.entries[tabId].data == ErrorData(shown.message);
          assert r.entries != m;
        }
      } else {
        assert r.entries[tabId].url == url && r.entries[tabId].checkedAt == now;
        assert r.entries != m;
      }
    }
  }

  /** A check writes at most the tab's own key; every other tab's entry, and
      its absence, is left alone. */
  lemma OtherTabsUntouched(m: map<int, Entry>, tabId: int, url: string, host: Option<string>, now: int, reply: Reply)
    ensures var r := Check(m, tabId, url, host, now, reply).entries;
      && r.Keys <= m.Keys + {tabId}
      && forall k :: k != tabId ==> (k in r <==> k in m) && (k in m ==> r[k] == m[k])
  {
  }

  /** After a remote call the tab's entry is replaced wholesale by the new
      result: scored data on success, an error entry without scores on
      failure; the badge follows the scores, or is the grey 'X'. */
  lemma {:induction false} FetchOverwrites(m: map<int, Entry>, tabId: int, url: string, host: Option<string>, now: int, reply: Reply)
    requires Check(m, tabId, url, host, now, reply).fetched
    ensures var r := Check(m, tabId, url, host, now, reply);
      && r.entries == m[tabId := Written(url, host.value, now, reply)]
      && (reply.Ok? ==> r.badge == Some(BadgeFor(CalculateScores(reply.body).status.value)))
      && (reply.Fail? ==> r.badge == Some(ErrorBadge) && r.entries[tabId].data.scores.None?)
  {
    match reply {
      case Ok(raw) => ScoresBadge(CalculateScores(raw));
      case Fail(msg) => ErrorParsedBadge(msg);
    }
  }

  /** Last write wins: a check that calls the classifier erases every trace of
      the check before it on the same tab. */
  lemma {:induction false} LastWriteWins(m: map<int, Entry>, tabId: int,
      url1: string, host1: Option<string>, now1: int, reply1: Reply,
      url2: string, host2: Option<string>, now2: int, reply2: Reply)
    requires Check(Check(m, tabId, url1, host1, now1, reply1).entries, tabId, url2, host2, now2, reply2).fetched
    ensures Check(Check(m, tabId, url1, host1, now1, reply1).entries, tabId, url2, host2, now2, reply2).entries
         == m[tabId := Written(url2, host2.value, now2, reply2)]
  {
    var mid := Check(m, tabId, url1, host1, now1, reply1).entries;
    OtherTabsUntouched(m, tabId, url1, host1, now1, reply1);
    FetchOverwrites(mid, tabId, url2, host2, now2, reply2);
    SameOutside(mid, m, tabId, Written(url2, host2.value, now2, reply2));
  }

  /** A check keeps every stored entry well formed. */
  lemma {:induction false} CheckKeepsWellFormed(m: map<int, Entry>, tabId: int, url: string, host: Option<string>, now: int, reply: Reply)
    requires forall k | k in m :: WellFormed(m[k])
    ensures var r := Check(m, tabId, url, host, now, reply).entries;
      forall k | k in r :: WellFormed(r[k])
  {
    var r := Check(m, tabId, url, host, now, reply).entries;
    forall k | k in r ensures WellFormed(r[k]) {
      if k != tabId || r == m {
        OtherTabsUntouched(m, tabId, url, host, now, reply);
      } else {
        var d := r[k].data;
        assert d.scores.None? ==> d == ErrorData(Prop(d.parsed, "summary").value.s);
      }
    }
  }

  /** End to end: a navigation to a page that Safe Browsing flags stores a
      scored entry of 50, SUSPICIOUS, and draws the orange '?'. */
  lemma PhishingScenario(tabId: int, now: int)
    ensures var r := Check(map[], tabId, "http://phish.example/login", Some("phish.example"), now, Ok(PhishPair));
      && r.fetched
      && r.entries.Keys == {tabId}
      && r.entries[tabId].data.scores == Some(Scores(50, 0, 100, Some(Suspicious)))
      && r.badge == Some(Badge("?", "#FFA500"))
  {
    BlocklistHitIsSuspicious();
    SuspiciousFetch(tabId, "http://phish.example/login", "phish.example", now, PhishPair);
  }

  /** A first check whose answer scores 50/0/100 SUSPICIOUS stores exactly
      that entry and draws the orange '?'. */
  lemma SuspiciousFetch(tabId: int, url: string, host: string, now: int, raw: Json)
    requires CalculateScores(raw) == Scores(50, 0, 100, Some(Suspicious))
    ensures var r := Check(map[], tabId, url, Some(host), now, Ok(raw));
      && r.fetched
      && r.entries.Keys == {tabId}
      && r.entries[tabId].data.scores == Some(Scores(50, 0, 100, Some(Suspicious)))
      && r.badge == Some(WarnBadge)
  {
    FetchedScored(map[], tabId, url, Some(host), now, raw);
    assert BadgeFor(Suspicious) == WarnBadge;
    FetchOverwrites(map[], tabId, url, Some(host), now, Ok(raw));
  }

  const NamedMalicious: Json := JObj(map["verdict" := JStr("MALICIOUS")])

  const SafeButNamedMalicious: Json := JArr([NamedMalicious, EmptyObject])

  /** `SafeButNamedMalicious` has no votes and no Safe Browsing match, so
      it scores SAFE. */
  lemma NamedMaliciousScoresSafe()
    ensures CalculateScores(SafeButNamedMalicious).status == Some(Safe)
  {
    var raw := SafeButNamedMalicious;
    assert Slot(raw, 1) == EmptyObject;
    assert !HasMatches(Slot(raw, 0)) by {
      assert Slot(raw, 0) == NamedMalicious;
    }
    NoVotesScores(raw);
  }

  /** Yet its first element, which becomes `parsed`, draws the red '!'. */
  lemma NamedMaliciousDrawsDanger()
    ensures ParsedOf(SafeButNamedMalicious) == Some(NamedMalicious)
    ensures UpdateBadge(Some(NamedMalicious)) == Normal(DangerBadge)
  {
    UpperKeeps("MALICIOUS");
    VerdictBadge("MALICIOUS");
  }

  /** A Safe Browsing hit draws the orange '?' when fetched, and the green
      check on every reload of the same URL within five minutes: its
      `parsed` is the Safe Browsing slot, which names no verdict. */
  lemma BlocklistHitTurnsGreen(tabId: int, url: string, host: string, now: int, later: int, reply: Reply)
    requires now <= later < now + CacheTtlMs
    ensures var first := Check(map[], tabId, url, Some(host), now, Ok(PhishPair));
      && first.badge == Some(WarnBadge)
      && Check(first.entries, tabId, url, Some(host), later, reply).badge == Some(SafeBadge)
  {
    BlocklistHitIsSuspicious();
    PhishSlotDrawsGreen();
    SuspiciousThenGreen(tabId, url, host, now, later, PhishPair, reply);
  }

  /** The Safe Browsing slot of `PhishPair` names no status and no verdict. */
  lemma PhishSlotDrawsGreen()
    ensures UpdateBadge(ParsedOf(PhishPair)) == Normal(SafeBadge)
  {
    var slot := PhishPair.items[0];
    assert ParsedOf(PhishPair) == Some(slot);
    assert Prop(Some(slot), "status").None? && Prop(Some(slot), "verdict").None? && Prop(Some(slot), "final_verdict").None?;
  }

  /** Any answer that scores SUSPICIOUS but whose `parsed` draws green is
      orange when fetched and green when reused. */
  lemma SuspiciousThenGreen(tabId: int, url: string, host: string, now: int, later: int, raw: Json, reply: Reply)
    requires now <= later < now + CacheTtlMs
    requires CalculateScores(raw) == Scores(50, 0, 100, Some(Suspicious))
    requires UpdateBadge(ParsedOf(raw)) == Normal(SafeBadge)
    ensures var first := Check(map[], tabId, url, Some(host), now, Ok(raw));
      && first.badge == Some(WarnBadge)
      && Check(first.entries, tabId, url, Some(host), later, reply).badge == Some(SafeBadge)
  {
    assert BadgeFor(Suspicious) == WarnBadge;
    ReusedBadgeDiffers(map[], tabId, url, Some(host), now, later, raw, reply);
  }

  /** On a cache hit nothing is fetched and the badge is the one the stored
      `parsed` draws; the store changes only if that throws. */
  lemma CacheHitBadge(m: map<int, Entry>, tabId: int, url: string, host: Option<string>, now: int, reply: Reply)
    requires host.Some? && tabId in m && Reusable(m[tabId], url, now)
    requires UpdateBadge(m[tabId].data.parsed).Normal?
    ensures Check(m, tabId, url, host, now, reply) == Step(m, false, Some(UpdateBadge(m[tabId].data.parsed).value))
  {
  }

  /** A check that asks the classifier and gets an answer stores the
      response with its `parsed` under the tab's key, and draws the badge of
      its verdict. */
  lemma FetchedScored(m: map<int, Entry>, tabId: int, url: string, host: Option<string>, now: int, raw: Json)
    requires host.Some? && !(tabId in m && Reusable(m[tabId], url, now))
    ensures var r := Check(m, tabId, url, host, now, Ok(raw));
      && tabId in r.entries && r.entries[tabId].data.parsed == ParsedOf(raw)
      && r.entries[tabId].url == url && r.entries[tabId].checkedAt == now
      && r.badge == Some(BadgeFor(CalculateScores(raw).status.value))
  {
    var s := CalculateScores(raw);
    ScoresBadge(s);
    assert Check(m, tabId, url, host, now, Ok(raw)) == Scored(m, tabId, url, host.value, now, raw);
  }

  /** The cache-hit path draws the badge from `parsed` rather than `scores`:
      the first check draws the badge of the computed status, and a check of
      the same URL within five minutes draws the badge `parsed` gives,
      whatever the classifier would answer the second time.
      `NamedMaliciousScoresSafe` and `NamedMaliciousDrawsDanger` give a
      response that turns green into the red '!'; `BlocklistHitTurnsGreen`
      one that turns the orange '?' into the green check. */
  lemma ReusedBadgeDiffers(m: map<int, Entry>, tabId: int, url: string, host: Option<string>,
                           now: int, later: int, raw: Json, reply: Reply)
    requires host.Some? && now <= later < now + CacheTtlMs
    requires !(tabId in m && Reusable(m[tabId], url, now))
    requires UpdateBadge(ParsedOf(raw)).Normal?
    ensures var first := Check(m, tabId, url, host, now, Ok(raw));
      && first.badge == Some(BadgeFor(CalculateScores(raw).status.value))
      && Check(first.entries, tabId, url, host, later, reply).badge == Some(UpdateBadge(ParsedOf(raw)).value)
  {
    FetchedScored(m, tabId, url, host, now, raw);
    var first := Check(m, tabId, url, host, now, Ok(raw));
    CacheHitBadge(first.entries, tabId, url, host, later, reply);
  }

  /** The worker's view of `chrome.storage.local`: tab id to entry. */
  class Coordinator {
    var entries: map<int, Entry>

    ghost predicate Valid()
      reads this
    {
      forall k | k in entries :: WellFormed(entries[k])
    }

    constructor ()
      ensures Valid() && entries == map[]
    {
      entries := map[];
    }

    /** `handleCheck(tabId, url)` */
    method HandleCheck(tabId: int, url: string, host: Option<string>, now: int, reply: Reply)
        returns (fetched: bool, badge: Option<Badge>)
      requires Valid()
      modifies this
      ensures Valid()
      ensures Step(entries, fetched, badge) == Check(old(entries), tabId, url, host, now, reply)
    {
      CheckKeepsWellFormed(entries, tabId, url, host, now, reply);
      if host.None? {
        return false, None;
      }
      if tabId in entries && Reusable(entries[tabId], url, now) {
        var shown := UpdateBadge(entries[tabId].data.parsed);
        if shown.Normal? {
          return false, Some(shown.value);
        }
        fetched := false;
        badge := StoreError(tabId, url, host.value, now, shown.message);
        return;
      }
      fetched := true;
      match reply {
        case Fail(m) =>
          badge := StoreError(tabId, url, host.value, now, m);
        case Ok(raw) =>
          var scores := CalculateScores(raw);
          entries := entries[tabId := Entry(CheckData(Some(raw), ParsedOf(raw), Some(scores)), host.value, url, now)];
          var shown := UpdateBadge(Some(ScoresJson(scores)));
          if shown.Normal? {
            badge := Some(shown.value);
          } else {
            badge := StoreError(tabId, url, host.value, now, shown.message);
          }
      }
    }

    /** The catch block of `handleCheck`. Only the other tabs' entries need
        be well formed; the error entry it writes restores `Valid`. */
    method StoreError(tabId: int, url: string, domain: string, now: int, message: string) returns (badge: Option<Badge>)
      requires forall k | k in entries && k != tabId :: WellFormed(entries[k])
      modifies this
      ensures Valid()
      ensures Step(entries, false, badge) == Failed(old(entries), tabId, url, domain, now, message, false)
    {
      entries := entries[tabId := Entry(ErrorData(message), domain, url, now)];
      var shown := UpdateBadge(ErrorData(message).parsed);
      badge := if shown.Normal? then Some(shown.value) else None;
    }

    /** The `tabs.onRemoved` listener: the closed tab's key is removed. */
    method RemoveTab(tabId: int)
      requires Valid()
      modifies this
      ensures Valid()
      ensures entries == old(entries) - {tabId}
      ensures tabId !in entries
    {
      entries := entries - {tabId};
    }
  }
}
