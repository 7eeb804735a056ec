/** sample-ext's popup: the verdict colour and symbol, the field fallbacks
    of `render`, and the bounded polling for an entry. */
module SamplePopup {
  import opened Js
  import opened Badges
  import opened TabCache
  import SampleBackground

  // --------------------------------------------------------- colour, symbol

  /** The four classes both verdict mappings distinguish. */
  datatype Tone = Red | Orange | Grey | Green

  /** The class of a verdict, after upper-casing. */
  function ToneOf(verdict: string): Tone {
    var v := Upper(verdict);
    if v == "MALICIOUS" || v == "DANGEROUS" then Red
    else if v == "SUSPICIOUS" || v == "WARN" then Orange
    else if v == "ERROR" then Grey
    else Green
  }

  function ToneColor(t: Tone): string {
    match t
    case Red => "#d32f2f"
    case Orange => "#f57c00"
    case Grey => "#616161"
    case Green => "#2e7d32"
  }

  /** The check mark is the UTF-8 bytes of '✓' read as Windows-1252, which
      is what the popup shows. */
  function ToneSymbol(t: Tone): string {
    match t
    case Red => "!"
    case Orange => "?"
    case Grey => "X"
    case Green => "âœ“"
  }

  /** `colorForVerdict(v)` on a string verdict. */
  function ColorForVerdict(verdict: string): (c: string)
    ensures c == ToneColor(ToneOf(verdict))
  {
    var v := Upper(verdict);
    if v == "MALICIOUS" || v == "DANGEROUS" then "#d32f2f"
    else if v == "SUSPICIOUS" || v == "WARN" then "#f57c00"
    else if v == "ERROR" then "#616161"
    else "#2e7d32"
  }

  /** `symbolForVerdict(v)` on a string verdict. */
  function SymbolForVerdict(verdict: string): (s: string)
    ensures s == ToneSymbol(ToneOf(verdict))
  {
    var v := Upper(verdict);
    if v == "MALICIOUS" || v == "DANGEROUS" then "!"
    else if v == "SUSPICIOUS" || v == "WARN" then "?"
    else if v == "ERROR" then "X"
    else "âœ“"
  }

  /** Colour and symbol split the verdicts the same way: two verdicts get
      the same colour exactly when they get the same symbol, and CAUTION
      falls in with SAFE. */
  lemma ColorAndSymbolAgree(a: string, b: string)
    ensures ColorForVerdict(a) == ColorForVerdict(b) <==> ToneOf(a) == ToneOf(b)
    ensures SymbolForVerdict(a) == SymbolForVerdict(b) <==> ToneOf(a) == ToneOf(b)
    ensures ToneOf("caution") == Green && ToneOf("CAUTION") == Green
  {
    assert Upper("caution") == "CAUTION";
    UpperKeeps("CAUTION");
  }

  /** The badge the sample worker draws for a verdict. */
  function ToneBadge(t: Tone): Badge {
    match t
    case Red => DangerBadge
    case Orange => WarnBadge
    case Grey => ErrorBadge
    case Green => SafeBadge
  }

  /** The popup's classes are the badge's: a verdict gets the badge of its
      class, and an empty one, being falsy, the green check. */
  lemma ToneMatchesBadge(verdict: string)
    ensures SampleBackground.UpdateBadge(Some(JObj(map["verdict" := JStr(verdict)]))) == Normal(ToneBadge(ToneOf(verdict)))
  {
    var x := Some(JObj(map["verdict" := JStr(verdict)]));
    assert Prop(x, "verdict") == Some(JStr(verdict));
    assert VerdictText(x) == Normal(Upper(verdict));
  }

  // ----------------------------------------------------------------- render

  /** What `render(entry)` shows: the fixed "No data yet" state, or the
      verdict label, the risk score (`None` for "N/A"), the summary, the
      colour, the symbol and the JSON shown in the raw box. */
  datatype Screen =
    | NoData
    | Shown(verdictLabel: string, risk: Option<Json>, summary: Json, color: string, symbol: string, json: Json)

  /** `payload.raw || payload` */
  function FullRaw(payload: Option<Json>): Option<Json> {
    Or(Prop(payload, "raw"), payload)
  }

  /** `payload.parsed || (Array.isArray(fullRaw) ? fullRaw[0] : fullRaw)`:
      a falsy `parsed` is chosen again from the stored response, as the
      worker chose it, or from the data object itself when there is no
      response. */
  function ParsedFallback(payload: Option<Json>): (p: Option<Json>)
    ensures Truthy(Prop(payload, "parsed")) ==> p == Prop(payload, "parsed")
    ensures !Truthy(Prop(payload, "parsed")) && Truthy(Prop(payload, "raw")) ==>
      p == ParsedOf(Prop(payload, "raw").value)
    ensures !Truthy(Prop(payload, "parsed")) && !Truthy(Prop(payload, "raw")) && payload.Some? ==>
      p == ParsedOf(payload.value)
    ensures payload.None? ==> p.None?
  {
    var fullRaw := FullRaw(payload);
    Or(Prop(payload, "parsed"), if IsArray(fullRaw) then At(fullRaw.value, 0) else fullRaw)
  }

  /** `parsed.risk_score ?? parsed.final_trust_score ?? parsed.total_score`,
      with a nullish result shown as "N/A". */
  function Risk(parsed: Option<Json>): (r: Option<Json>)
    ensures r.Some? ==> r.value != JNull
    ensures !Nullish(Prop(parsed, "risk_score")) ==> r == Prop(parsed, "risk_score")
    ensures Nullish(Prop(parsed, "risk_score")) && !Nullish(Prop(parsed, "final_trust_score")) ==>
      r == Prop(parsed, "final_trust_score")
    ensures Nullish(Prop(parsed, "risk_score")) && Nullish(Prop(parsed, "final_trust_score")) ==>
      r == (if Nullish(Prop(parsed, "total_score")) then None else Prop(parsed, "total_score"))
  {
    var risk := Coalesce(Coalesce(Prop(parsed, "risk_score"), Prop(parsed, "final_trust_score")), Prop(parsed, "total_score"));
    if Nullish(risk) then None else risk
  }

  /** `render(entry)`. Reading `verdict` of a nullish `parsed` throws, and
      so does upper-casing a verdict that is not a string. */
  function Render(entry: Option<Json>): (r: Completion<Screen>)
    ensures !Truthy(entry) ==> r == Normal(NoData)
    ensures Truthy(entry) && Nullish(ParsedFallback(Payload(entry))) ==> r == Abrupt(ReadOfNullish(ParsedFallback(Payload(entry))))
    ensures Truthy(entry) && !Nullish(ParsedFallback(Payload(entry))) ==>
      r == ShowParsed(ParsedFallback(Payload(entry)), FullRaw(Payload(entry)).value)
    ensures r.Normal? && r.value.Shown? ==> r.value.color == ToneColor(ToneOf(r.value.verdictLabel))
    ensures r.Normal? && r.value.Shown? ==> r.value.symbol == ToneSymbol(ToneOf(r.value.verdictLabel))
  {
    if !Truthy(entry) then Normal(NoData)
    else
      var parsed := ParsedFallback(Payload(entry));
      if Nullish(parsed) then Abrupt(ReadOfNullish(parsed))
      else ShowParsed(parsed, FullRaw(Payload(entry)).value)
  }

  /** `entry.data || {}` */
  function Payload(entry: Option<Json>): Option<Json> {
    Or(Prop(entry, "data"), Some(EmptyObject))
  }

  /** The part of `render` after `parsed` is found: the verdict defaults to
      SAFE, the summary to a fixed sentence, and the label is upper-cased.
      It throws exactly when the named verdict is truthy but not a string. */
  function ShowParsed(parsed: Option<Json>, fullRaw: Json): (r: Completion<Screen>)
    ensures r.Normal? ==> r.value.Shown?
    ensures var named := Or(Prop(parsed, "verdict"), Prop(parsed, "final_verdict"));
      && (r.Abrupt? <==> Truthy(named) && !named.value.JStr?)
      && (r.Abrupt? ==> r.message == NotAFunction)
      && (r.Normal? && Truthy(named) ==> r.value.verdictLabel == Upper(named.value.s))
      && (!Truthy(named) ==> r.Normal? && r.value.verdictLabel == "SAFE")
    ensures r.Normal? ==> r.value.color == ToneColor(ToneOf(r.value.verdictLabel))
    ensures r.Normal? ==> r.value.symbol == ToneSymbol(ToneOf(r.value.verdictLabel))
    ensures r.Normal? ==> r.value.risk == Risk(parsed) && r.value.json == fullRaw
    ensures r.Normal? && Truthy(Prop(parsed, "summary")) ==> r.value.summary == Prop(parsed, "summary").value
    ensures r.Normal? && !Truthy(Prop(parsed, "summary")) && Truthy(Prop(parsed, "description")) ==>
      r.value.summary == Prop(parsed, "description").value
    ensures r.Normal? && !Truthy(Prop(parsed, "summary")) && !Truthy(Prop(parsed, "description")) ==>
      r.value.summary == JStr("No summary provided.")
  {
    var verdict := Or(Or(Prop(parsed, "verdict"), Prop(parsed, "final_verdict")), Some(JStr("SAFE")));
    var summary := Or(Or(Prop(parsed, "summary"), Prop(parsed, "description")), Some(JStr("No summary provided.")));
    if !verdict.value.JStr? then Abrupt(NotAFunction)
    else
      var v := verdict.value.s;
      UpperIdempotent(v);
      UpperKeeps("SAFE");
      Normal(Shown(Upper(v), Risk(parsed), summary.value, ColorForVerdict(v), SymbolForVerdict(v), fullRaw))
  }

  /** Where the sample worker's badge does not throw, the popup does not
      either, and the class of its label is that of the badge. */
  lemma ShowParsedMatchesBadge(parsed: Option<Json>, fullRaw: Json)
    requires SampleBackground.UpdateBadge(parsed).Normal?
    ensures var r := ShowParsed(parsed, fullRaw);
      && r.Normal?
      && SampleBackground.UpdateBadge(parsed) == Normal(ToneBadge(ToneOf(r.value.verdictLabel)))
  {
    var named := Or(Prop(parsed, "verdict"), Prop(parsed, "final_verdict"));
    var r := ShowParsed(parsed, fullRaw);
    if Truthy(named) {
      assert VerdictText(parsed) == Normal(Upper(named.value.s));
      UpperIdempotent(named.value.s);
      assert r.value.verdictLabel == Upper(named.value.s);
    } else {
      UpperKeeps("SAFE");
      assert r.value.verdictLabel == "SAFE";
      assert VerdictText(parsed) == Normal("");
    }
  }

  /** A missing verdict reads as SAFE, and a risk score of 0 is shown as 0,
      not skipped. */
  lemma FallbacksOnEmptyParsed(risk: int)
    ensures var r := Render(Some(JObj(map["data" := JObj(map["parsed" := JObj(map["risk_score" := JNum(risk)])])])));
      && r.Normal? && r.value.Shown?
      && r.value.verdictLabel == "SAFE" && r.value.color == "#2e7d32"
      && r.value.risk == Some(JNum(risk))
      && r.value.summary == JStr("No summary provided.")
  {
    var parsed := JObj(map["risk_score" := JNum(risk)]);
    var payload := Some(JObj(map["data" := JObj(map["parsed" := parsed])]));
    assert Prop(payload, "data") == Some(JObj(map["parsed" := parsed]));
    assert ParsedFallback(Prop(payload, "data")) == Some(parsed);
    UpperKeeps("SAFE");
  }

  /** The popup and the badge agree on every entry the sample worker
      stores with a truthy `parsed`: it renders, and the colour of its label
      is the class of the badge. */
  lemma RenderMatchesBadge(e: Entry)
    requires SampleBackground.WellFormed(e)
    requires Truthy(e.data.parsed)
    ensures var r := Render(Some(EntryJson(e)));
      && r.Normal? && r.value.Shown?
      && SampleBackground.UpdateBadge(e.data.parsed) == Normal(ToneBadge(ToneOf(r.value.verdictLabel)))
  {
    var payload := Some(DataJson(e.data));
    assert Payload(Some(EntryJson(e))) == payload;
    assert Prop(payload, "parsed") == e.data.parsed;
    SampleBackground.WellFormedDrawsBadge(e);
    ShowParsedMatchesBadge(e.data.parsed, FullRaw(payload).value);
  }

  /** A response that is an empty array leaves `parsed` undefined; the badge
      shows green, yet the popup throws on the stored entry. */
  lemma EmptyArrayBreaksRender(domain: string, url: string, now: int)
    ensures var e := Entry(CheckData(Some(JArr([])), ParsedOf(JArr([])), None), domain, url, now);
      && SampleBackground.WellFormed(e)
      && SampleBackground.UpdateBadge(e.data.parsed) == Normal(SafeBadge)
      && Render(Some(EntryJson(e))) == Abrupt(ReadOfNullish(None))
  {
    var e := Entry(CheckData(Some(JArr([])), ParsedOf(JArr([])), None), domain, url, now);
    var payload := Some(DataJson(e.data));
    assert Prop(Some(EntryJson(e)), "data") == payload;
    assert payload == Some(JObj(map["raw" := JArr([])]));
    assert Prop(payload, "parsed").None?;
    assert FullRaw(payload) == Some(JArr([]));
  }

  /** The popup picks the same `parsed` as the worker that stored the
      response: a stored `ParsedOf(raw)` or, when that was falsy, the
      popup's own choice from `raw`, agree. */
  lemma FallbackAgreesWithWorker(d: CheckData)
    requires Truthy(d.raw)
    requires d.parsed == ParsedOf(d.raw.value)
    ensures ParsedFallback(Some(DataJson(d))) == ParsedOf(d.raw.value)
  {
    var payload := Some(DataJson(d));
    assert Prop(payload, "raw") == d.raw;
    assert Prop(payload, "parsed") == d.parsed;
  }

  // ---------------------------------------------------------------- polling

  /** `pollForData`'s default number of attempts. */
  const DefaultAttempts: int := 20

  /** `pollForData(maxAttempts)`: request the tab's entry, and retry while
      none has arrived and fewer than `maxAttempts` requests were made.
      `replies(i)` is the `entry` of the answer to request `i`. Returns the
      number of requests made and what is rendered (`None` for `null`). */
  method PollForData(maxAttempts: int, replies: nat -> Option<Json>) returns (requests: nat, rendered: Option<Json>)
    ensures 1 <= requests <= (if maxAttempts < 1 then 1 else maxAttempts)
    ensures forall i :: 0 <= i < requests - 1 ==> !Truthy(replies(i))
    ensures Truthy(replies(requests - 1)) ==> rendered == replies(requests - 1)
    ensures !Truthy(replies(requests - 1)) ==>
      rendered.None? && requests == (if maxAttempts < 1 then 1 else maxAttempts)
  {
    requests := 0;
    while true
      invariant 0 <= requests < (if maxAttempts < 1 then 1 else maxAttempts)
      invariant forall i :: 0 <= i < requests ==> !Truthy(replies(i))
      decreases (if maxAttempts < 1 then 1 else maxAttempts) - requests
    {
      requests := requests + 1;
      var entry := replies(requests - 1);
      if Truthy(entry) {
        return requests, entry;
      } else if requests < maxAttempts {
        continue;
      } else {
        return requests, None;
      }
    }
  }

  /** `pollForData()` as `initialLoad` calls it, with the default bound:
      at most twenty requests, and the first entry that arrives is shown. */
  method PollDefault(replies: nat -> Option<Json>) returns (requests: nat, rendered: Option<Json>)
    ensures 1 <= requests <= DefaultAttempts
    ensures forall i :: 0 <= i < requests - 1 ==> !Truthy(replies(i))
    ensures Truthy(replies(requests - 1)) ==> rendered == replies(requests - 1)
    ensures !Truthy(replies(requests - 1)) ==> rendered.None? && requests == DefaultAttempts
  {
    requests, rendered := PollForData(DefaultAttempts, replies);
  }
}
