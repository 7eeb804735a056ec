/** The per-tab verdict cache shared by the two tab-keyed background workers
    (main-extension and sample-ext): the stored entry, its freshness rule,
    the error entry written on failure, the `parsed` selection and the
    navigation filter in front of the check. */
module TabCache {
  import opened Js
  import opened Scoring
  import opened Badges

  /** `CACHE_TTL_MS`: five minutes. */
  const CacheTtlMs: int := 5 * 60 * 1000

  /** `data` of a stored entry: `{ raw, parsed, scores }`. The main worker
      stores all three after a check, the sample worker no `scores`, and an
      error entry only `parsed`. */
  datatype CheckData = CheckData(raw: Option<Json>, parsed: Option<Json>, scores: Option<Scores>)

  /** The value stored under `String(tabId)`; `checkedAt` is the writer's
      clock in milliseconds (the source writes it as an ISO string). */
  datatype Entry = Entry(data: CheckData, domain: string, url: string, checkedAt: int)

  /** `isFresh(entry)`: written less than five minutes ago. Every entry the
      workers write carries a `checkedAt`. */
  predicate IsFresh(e: Entry, now: int) {
    now - e.checkedAt < CacheTtlMs
  }

  /** The cache-hit condition of `handleCheck`: fresh, and for the very same
      URL string. */
  predicate Reusable(e: Entry, url: string, now: int) {
    IsFresh(e, now) && e.url == url
  }

  /** `{ parsed: { verdict: 'ERROR', summary: e.message } }` */
  function ErrorData(message: string): (d: CheckData)
    ensures d.raw.None? && d.scores.None?
    ensures Prop(d.parsed, "verdict") == Some(JStr("ERROR"))
    ensures Prop(d.parsed, "summary") == Some(JStr(message))
  {
    CheckData(None, Some(JObj(map["verdict" := JStr("ERROR"), "summary" := JStr(message)])), None)
  }

  /** An entry's data is an error entry's, with the summary it carries. */
  predicate IsErrorData(d: CheckData) {
    var summary := Prop(d.parsed, "summary");
    summary.Some? && summary.value.JStr? && d == ErrorData(summary.value.s)
  }

  /** `Array.isArray(rawResponse) ? rawResponse[0] : rawResponse` */
  function ParsedOf(raw: Json): (p: Option<Json>)
    ensures !raw.JArr? ==> p == Some(raw)
    ensures raw.JArr? ==> (p.Some? <==> |raw.items| > 0)
    ensures raw.JArr? && p.Some? ==> p.value == raw.items[0]
  {
    if raw.JArr? then At(raw, 0) else Some(raw)
  }

  /** What one `handleCheck` leaves behind: the store, whether the remote
      classifier was called, and the badge drawn (none if the call rejected). */
  datatype Step = Step(entries: map<int, Entry>, fetched: bool, badge: Option<Badge>)

  /** A browser-internal page, which no navigation handler checks. */
  predicate IsBrowserPage(url: string) {
    StartsWith(url, "chrome://") || StartsWith(url, "chrome-extension://")
  }

  /** The `webNavigation.onCompleted` filter: only the top frame
      (`frameId === 0`), only a non-empty URL that is not a browser page. */
  function ShouldCheckNavigation(frameId: int, url: Option<string>): (go: bool)
    ensures go ==> frameId == 0 && url.Some? && url.value != "" && !IsBrowserPage(url.value)
    ensures frameId == 0 && url.Some? && url.value != "" && !IsBrowserPage(url.value) ==> go
  {
    if frameId != 0 then false
    else if url.None? || url.value == "" || IsBrowserPage(url.value) then false
    else true
  }

  /** `ScoresJson(s)`: the scores object as the badge and the popup read it. */
  function ScoresJson(s: Scores): Json {
    var counts := map["totalScore" := JNum(s.totalScore), "gsbScore" := JNum(s.gsbScore), "vtScore" := JNum(s.vtScore)];
    JObj(if s.status.Some? then counts["status" := JStr(s.status.value.Name())] else counts)
  }

  /** The `data` object as a popup receives it: absent fields are left out. */
  function DataJson(d: CheckData): Json {
    var withRaw: map<string, Json> := if d.raw.Some? then map["raw" := d.raw.value] else map[];
    var withParsed := if d.parsed.Some? then withRaw["parsed" := d.parsed.value] else withRaw;
    JObj(if d.scores.Some? then withParsed["scores" := ScoresJson(d.scores.value)] else withParsed)
  }

  /** The entry as a popup receives it from `getTabData`; `checkedAt` is not
      read by the popup that takes this form and is left out. */
  function EntryJson(e: Entry): Json {
    JObj(map["data" := DataJson(e.data), "domain" := JStr(e.domain), "url" := JStr(e.url)])
  }

  /** Exactly five minutes after `checkedAt` an entry is stale; one
      millisecond before, it is fresh; a timestamp in the future is fresh. */
  lemma TtlBoundary(e: Entry)
    ensures IsFresh(e, e.checkedAt + CacheTtlMs - 1)
    ensures !IsFresh(e, e.checkedAt + CacheTtlMs)
    ensures forall now :: now >= e.checkedAt + CacheTtlMs ==> !IsFresh(e, now)
    ensures forall now :: now <= e.checkedAt ==> IsFresh(e, now)
    ensures !IsFresh(e, e.checkedAt + 6 * 60 * 1000) && IsFresh(e, e.checkedAt + 4 * 60 * 1000)
  {
  }

  /** A fresh entry for another URL is never reused. */
  lemma UrlChangeInvalidates(e: Entry, url: string, now: int)
    requires e.url != url
    ensures !Reusable(e, url, now)
  {
  }

  /** Two stores that agree on every key but one agree everywhere once that
      key is written. */
  lemma SameOutside(a: map<int, Entry>, b: map<int, Entry>, key: int, e: Entry)
    requires forall k :: k != key ==> (k in a <==> k in b) && (k in a ==> a[k] == b[k])
    ensures a[key := e] == b[key := e]
  {
    forall k | k in a ensures k in b[key := e] {
      if k != key {
        assert k in b;
      }
    }
    forall k | k in b ensures k in a[key := e] {
      if k != key {
        assert k in a;
      }
    }
    assert a[key := e].Keys == b[key := e].Keys;
  }
}
