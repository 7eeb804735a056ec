/** main-extension's popup: its own `calculateScores`, the choice between
    the stored scores and a recomputation, the "last checked" wording, and
    the auto-check setting. */
module MainPopup {
  import opened Js
  import opened Scoring
  import opened TabCache
  import MainBackground

  // ---------------------------------------------------------------- scoring

  /** `calculateScores(rawResponse)` once both slots exist: the penalty is
      taken from the unrounded threat percentage, the total is rounded only
      at the end, and no verdict is attached. */
  function PopupTotals(blocklisted: bool, v: Votes): (s: Scores)
    ensures s.status.None?
    ensures s.gsbScore == (if blocklisted then 0 else 100)
    ensures v.Total() <= 0 ==> s.totalScore == (if blocklisted then 50 else 100) && s.vtScore == 100
    ensures v.NonNegative() ==> InRange(s) && 10 <= s.totalScore
    ensures v.NonNegative() && v.Total() > 0 ==> s.vtScore == MainBackground.CleanPoints(v)
  {
    var start: real := if blocklisted then 50.0 else 100.0;
    var gsb: real := if blocklisted then 0.0 else 100.0;
    var total: real := if v.Total() > 0 then start - MinReal(40.0, ThreatShare(v) * 0.4) else start;
    var vt: int := if v.Total() > 0 then RoundHalfUp(v.Clean() as real / v.Total() as real * 100.0) else 100;
    RoundWhole(if blocklisted then 0 else 100);
    RoundWhole(if blocklisted then 50 else 100);
    PopupSane(blocklisted, v);
    Scores(MaxZero(RoundHalfUp(total)), MaxZero(RoundHalfUp(gsb)), MaxZero(RoundHalfUp(vt as real)), None)
  }

  /** `((malicious + suspicious) / total) * 100`, unrounded. */
  function ThreatShare(v: Votes): real
    requires v.Total() > 0
  {
    v.Threats() as real / v.Total() as real * 100.0
  }

  /** With sane votes the threat share is a percentage, so the `Math.min`
      never caps it and the unrounded total stays within [10, 100]. */
  lemma PopupSane(blocklisted: bool, v: Votes)
    ensures v.NonNegative() && v.Total() > 0 ==>
      && 0.0 <= ThreatShare(v) <= 100.0
      && MinReal(40.0, ThreatShare(v) * 0.4) == ThreatShare(v) * 0.4
      && 10 <= RoundHalfUp((if blocklisted then 50.0 else 100.0) - ThreatShare(v) * 0.4) <= 100
      && 0 <= RoundHalfUp(v.Clean() as real / v.Total() as real * 100.0) <= 100
  {
    if v.NonNegative() && v.Total() > 0 {
      var q := v.Threats() as real / v.Total() as real;
      assert q * v.Total() as real == v.Threats() as real;
      assert 0.0 <= q <= 1.0;
      PercentInRange(v.Clean(), v.Total());
    }
  }

  /** `virusTotal.data && virusTotal.data.attributes`, then the counts of
      `stats`; reading a count of a missing `stats` throws. Without
      attributes there are no votes at all. */
  function PopupVotes(virusTotal: Json): (r: Completion<Votes>)
    ensures r.Normal? ==> r.value == MainBackground.VotesOfSlot(virusTotal)
  {
    var data := Prop(Some(virusTotal), "data");
    if Truthy(data) && Truthy(Prop(data, "attributes")) then
      var stats := Prop(Prop(data, "attributes"), "stats");
      if Nullish(stats) then Abrupt(ReadOfNullish(stats)) else Normal(VotesIn(stats))
    else Normal(Votes(0, 0, 0, 0))
  }

  /** `calculateScores(rawResponse)` in the popup: anything but an array of
      at least two elements scores 50/50/50; otherwise Safe Browsing and
      VirusTotal are read as in the background worker. */
  function PopupScores(raw: Option<Json>): (r: Completion<Scores>)
    ensures !IsArray(raw) || |raw.value.items| < 2 ==> r == Normal(Scores(50, 50, 50, None))
    ensures r.Abrupt? ==> r.message in {ReadOfNullish(None), ReadOfNullish(Some(JNull))}
    ensures r.Normal? ==> r.value.status.None?
    ensures IsArray(raw) && |raw.value.items| >= 2 && r.Normal? ==>
      (r.value.gsbScore == 0 <==> HasMatches(MainBackground.Slot(raw.value, 0)))
  {
    if !IsArray(raw) || |raw.value.items| < 2 then Normal(Scores(50, 50, 50, None))
    else
      match PopupVotes(MainBackground.Slot(raw.value, 1))
      case Abrupt(m) => Abrupt(m)
      case Normal(v) => Normal(PopupTotals(HasMatches(MainBackground.Slot(raw.value, 0)), v))
  }

  /** The popup throws exactly when an array response's VirusTotal slot has
      truthy `data.attributes` but no `stats`. */
  lemma PopupThrowsIff(raw: Json)
    ensures PopupScores(Some(raw)).Abrupt? <==>
      && raw.JArr? && |raw.items| >= 2
      && var data := Prop(Some(MainBackground.Slot(raw, 1)), "data");
         Truthy(data) && Truthy(Prop(data, "attributes")) && Nullish(Prop(Prop(data, "attributes"), "stats"))
  {
  }

  /** Two numbers less than one apart round to integers at most one apart. */
  lemma RoundClose(x: real, y: real)
    requires -1.0 < x - y < 1.0
    ensures -1 <= RoundHalfUp(x) - RoundHalfUp(y) <= 1
  {
    var a, b := RoundHalfUp(x), RoundHalfUp(y);
    assert a as real <= x + 0.5 < a as real + 1.0;
    assert b as real <= y + 0.5 < b as real + 1.0;
  }

  /** Where both scorers read the same response the popup agrees with the
      background worker on the Safe Browsing and VirusTotal scores, and its
      total, rounded once instead of twice, is at most one point away. */
  lemma {:induction false} ScorersAgreeWithinOne(raw: Json)
    requires raw.JArr? && |raw.items| >= 2
    requires PopupScores(Some(raw)).Normal?
    requires MainBackground.VirusTotalVotes(raw).NonNegative()
    ensures var p, b := PopupScores(Some(raw)).value, MainBackground.CalculateScores(raw);
      && p.gsbScore == b.gsbScore && p.vtScore == b.vtScore
      && -1 <= p.totalScore - b.totalScore <= 1
  {
    var v := MainBackground.VirusTotalVotes(raw);
    var blocklisted := HasMatches(MainBackground.Slot(raw, 0));
    var start: real := if blocklisted then 50.0 else 100.0;
    var p := PopupScores(Some(raw)).value;
    var b := MainBackground.CalculateScores(raw);
    assert p == PopupTotals(blocklisted, v);
    MainBackground.SaneScores(v, blocklisted);
    PopupSane(blocklisted, v);
    if v.Total() > 0 {
      var share := ThreatShare(v);
      var points := MainBackground.ThreatPoints(v);
      assert points as real <= share + 0.5 < points as real + 1.0;
      RoundPenalty(if blocklisted then 50 else 100, points);
      assert b.totalScore == RoundHalfUp(start - points as real * 0.4);
      assert p.totalScore == RoundHalfUp(start - share * 0.4);
      RoundClose(start - share * 0.4, start - points as real * 0.4);
    }
  }

  /** The bound is reached: one malicious vote among 77 costs the background
      worker nothing (1 % rounds to a 0.4 penalty, which rounds away) but
      costs the popup a point (1.2987… % times 0.4 is 0.519…). */
  lemma ScorersDisagreeByOne(raw: Json)
    requires raw.JArr? && |raw.items| >= 2
    requires PopupScores(Some(raw)).Normal?
    requires MainBackground.VirusTotalVotes(raw) == Votes(1, 0, 76, 0)
    requires !HasMatches(MainBackground.Slot(raw, 0))
    ensures MainBackground.CalculateScores(raw).totalScore == 100
    ensures PopupScores(Some(raw)).value.totalScore == 99
  {
    var v := Votes(1, 0, 76, 0);
    assert MainBackground.ThreatPoints(v) == 1 by {
      assert 1 as real / 77 as real * 100.0 == 100.0 / 77.0;
      assert 1.0 <= 100.0 / 77.0 + 0.5 < 2.0;
      assert RoundHalfUp(1 as real / 77 as real * 100.0) == 1;
    }
    assert ThreatShare(v) * 0.4 == 40.0 / 77.0;
    assert RoundHalfUp(100.0 - 40.0 / 77.0) == 99;
  }

  // ---------------------------------------------------------------- render

  /** What `render(entry)` puts on screen: the loading state, or the three
      scores with the domain and the "last checked" wording. */
  datatype View = Loading | Shown(scores: Scores, domain: string, lastChecked: Ago)

  /** The wording `formatTimestamp` chooses. */
  datatype Ago = JustNow | MinutesAgo(minutes: int) | HoursAgo(hours: int) | LocaleDate

  const MinuteMs: int := 60000
  const HourMs: int := 60 * 60000
  const DayMs: int := 24 * 60 * 60000

  /** `formatTimestamp(checkedAt)` at clock `now`: whole minutes below an
      hour, whole hours below a day, the date beyond. */
  function FormatTimestamp(checkedAt: int, now: int): (r: Ago)
    ensures r == JustNow <==> now - checkedAt < MinuteMs
    ensures r.MinutesAgo? ==>
      1 <= r.minutes < 60 && r.minutes * MinuteMs <= now - checkedAt < (r.minutes + 1) * MinuteMs
    ensures r.HoursAgo? ==>
      1 <= r.hours < 24 && r.hours * HourMs <= now - checkedAt < (r.hours + 1) * HourMs
    ensures r == LocaleDate <==> now - checkedAt >= DayMs
  {
    var minutes := (now - checkedAt) / MinuteMs;
    if minutes < 1 then JustNow
    else if minutes < 60 then MinutesAgo(minutes)
    else
      var hours := minutes / 60;
      FloorTwice(now - checkedAt);
      if hours < 24 then HoursAgo(hours) else LocaleDate
  }

  /** Flooring to minutes and then to hours is flooring to hours. */
  lemma FloorTwice(ms: int)
    ensures (ms / MinuteMs) / 60 == ms / HourMs
  {
    var m := ms / MinuteMs;
    var h := m / 60;
    assert ms == m * MinuteMs + ms % MinuteMs;
    assert m == h * 60 + m % 60;
    assert ms == h * HourMs + ((m % 60) * MinuteMs + ms % MinuteMs);
    assert 0 <= (m % 60) * MinuteMs + ms % MinuteMs < HourMs;
  }

  /** The wording only moves forward in time: a later clock never reads
      as more recent. */
  lemma FormatMonotone(checkedAt: int, now: int, later: int)
    requires now <= later
    ensures Rank(FormatTimestamp(checkedAt, now)) <= Rank(FormatTimestamp(checkedAt, later))
  {
  }

  /** Elapsed time the wording stands for, in whole minutes (a date counts
      as a full day). */
  function Rank(a: Ago): int {
    match a
    case JustNow => 0
    case MinutesAgo(m) => m
    case HoursAgo(h) => h * 60
    case LocaleDate => 24 * 60
  }

  /** `scores || calculateScores(raw)`: the stored scores when there are
      any, else a recomputation from the stored response. */
  function ShownScores(d: CheckData): (r: Completion<Scores>)
    ensures d.scores.Some? ==> r == Normal(d.scores.value)
    ensures d.scores.None? ==> r == PopupScores(d.raw)
  {
    if d.scores.Some? then Normal(d.scores.value) else PopupScores(d.raw)
  }

  /** `render(entry)`; a missing entry shows the loading state. An entry
      shows the scores `ShownScores` picks (and throws where it throws),
      its domain or "--", and the age of `checkedAt` in words. */
  function Render(entry: Option<Entry>, now: int): (r: Completion<View>)
    ensures entry.None? ==> r == Normal(Loading)
    ensures entry.Some? ==> (r.Normal? <==> ShownScores(entry.value.data).Normal?)
    ensures entry.Some? && r.Abrupt? ==> r.message == ShownScores(entry.value.data).message
    ensures entry.Some? && r.Normal? ==>
      && r.value.Shown?
      && r.value.scores == ShownScores(entry.value.data).value
      && r.value.lastChecked == FormatTimestamp(entry.value.checkedAt, now)
      && (r.value.domain == "--" <==> entry.value.domain == "" || entry.value.domain == "--")
      && (entry.value.domain != "" ==> r.value.domain == entry.value.domain)
  {
    if entry.None? then Normal(Loading)
    else
      var e := entry.value;
      match ShownScores(e.data)
      case Abrupt(m) => Abrupt(m)
      case Normal(s) =>
        Normal(Shown(s, if e.domain == "" then "--" else e.domain, FormatTimestamp(e.checkedAt, now)))
  }

  /** Every entry the background worker stores renders without throwing: a
      scored entry shows exactly the scores it stored, never a
      recomputation, and an error entry shows 50/50/50. */
  lemma RenderWellFormed(e: Entry, now: int)
    requires MainBackground.WellFormed(e)
    ensures Render(Some(e), now).Normal? && Render(Some(e), now).value.Shown?
    ensures e.data.scores.Some? ==> Render(Some(e), now).value.scores == e.data.scores.value
    ensures e.data.scores.Some? ==> e.data.scores == Some(MainBackground.CalculateScores(e.data.raw.value))
    ensures e.data.scores.None? ==> Render(Some(e), now).value.scores == Scores(50, 50, 50, None)
  {
  }

  // --------------------------------------------------------------- settings

  /** `settings.autoCheckEnabled !== false`: only a stored `false` turns the
      automatic check off; a missing setting leaves it on. */
  function AutoCheckEnabled(stored: Option<Json>): (on: bool)
    ensures !on <==> stored == Some(JBool(false))
  {
    !(stored.Some? && stored.value == JBool(false))
  }
}
