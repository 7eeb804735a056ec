# Legitly phishing detector: a verified model of the extension logic

Legitly ships three browser extensions that judge the page in the current tab
and show the verdict on the toolbar badge and in a popup:

- **main-extension** sends each top-frame navigation to a classifier webhook
  and scores the answer. The answer is a `[safeBrowsing, virusTotal, …]` pair.
  The score is 100, less 50 for a Safe Browsing match and less a VirusTotal
  vote penalty of at most 40. The worker stores `{data: {raw, parsed, scores},
  domain, url, checkedAt}` under the tab's id and draws a badge. Its popup
  draws the stored scores, or scores the raw answer again when none were
  stored.
- **sample-ext** is the same worker without scoring. Its badge comes from the
  answer's `verdict`/`final_verdict` field, and its popup shows that verdict
  with a colour and a glyph and polls until an entry appears.
- **chrome-extension** runs a content script. The script extracts page facts
  (login form, external links, alarm phrases, brand impersonation) and asks
  the worker. The worker stores the answer under the page's hostname. Its
  popup reads that store.

The model is split into these modules:

- `Js` holds the JSON values these scripts handle, plus the JavaScript
  operators they use on them: truthiness, `?.`, `||`, `??`, `includes`,
  `startsWith` and `toUpperCase`. A thrown exception is modelled as a
  `Completion.Abrupt` value.
- `Scoring`, `Badges` and `TabCache` hold what main-extension and
  sample-ext share.
- One module per script: `MainBackground`, `SampleBackground`, `MainPopup`,
  `SamplePopup`, `ChromeBackground`, `ChromePopup` and `Content`.

Each tab-keyed worker is a `Coordinator` class. Its `entries` map is the
store. Its `HandleCheck` method is proved equal to a pure step function
`Check`, which returns the new store, whether the webhook was called, and the
badge drawn. The lemmas about `Check` state the caching rules:

- when the webhook is called;
- that only the tab's own key changes;
- that the last write wins;
- that every stored entry stays well formed.

The webhook's outcome (`Reply`), the clock (`now`) and the result of
`new URL(url).hostname` (`host`, `None` when the constructor throws) are
parameters.

## Model

| member | source | states |
|---|---|---|
| Scoring.StatusFor | main-extension/background.js:58-61 | DANGEROUS below 30, SUSPICIOUS from 30 to 59, CAUTION from 60 to 79, SAFE from 80; each as an if-and-only-if |
| Scoring.StatusMonotone | main-extension/background.js:58-61 | a higher total never gives a more severe verdict |
| Scoring.RoundPenalty | main-extension/background.js:51-54 | `Math.round(b - p*0.4)` is `b - (4p+5) div 10` for whole `p >= 0` |
| Scoring.PercentInRange | main-extension/background.js:48-50 | a rounded share of a total lies in 0..100 |
| MainBackground.CalculateScores | main-extension/background.js:21-64 | Safe Browsing score is 0 exactly when there is a match, else 100; the status is the one its total implies; with sane counts all scores are in 0..100 and the total is at least 10, with the closed form `start - (4·threat% + 5) div 10`; no votes means a VirusTotal score of 100; with sane votes the VirusTotal score is `CleanPoints`, the clean share of the votes as a percentage rounded half up |
| MainBackground.SaneScores | main-extension/background.js:46-54 | the penalty never reaches the `Math.min(40, …)` cap and the rounded total has the closed form |
| MainBackground.AlarmIffBlocklisted | main-extension/background.js:31-61 | votes alone cannot push a page below 60: SUSPICIOUS or DANGEROUS exactly when Safe Browsing matched (total 10..50), else 60..100 |
| MainBackground.NoVotesScores | main-extension/background.js:27-56 | without votes the result is 100/100/100 SAFE, or 50/0/100 SUSPICIOUS with a match |
| MainBackground.EmptyResponseIsSafe | main-extension/background.js:27-28 | `[{}, {}]` and a non-array answer score 100/100/100 SAFE |
| MainBackground.BlocklistHitIsSuspicious | main-extension/background.js:31-33 | a match alone gives 50/0/100 SUSPICIOUS |
| MainBackground.AllThreatsScores | main-extension/background.js:46-52 | all votes malicious and no match gives 60/100/0 CAUTION |
| MainBackground.AllMaliciousIsCaution | main-extension/background.js:39-52 | ten malicious votes give CAUTION, not DANGEROUS |
| MainBackground.UpdateBadge | main-extension/background.js:109-125 | a truthy `status` decides the badge directly; only a `CAUTION` status draws the caution badge; it throws only when there is no truthy status, with the TypeError of calling `toUpperCase` on a non-string |
| MainBackground.ScoresBadge | main-extension/background.js:91 | stored scores draw the badge of their status |
| MainBackground.VerdictBadge | main-extension/background.js:112-122 | a verdict, compared upper-cased, draws red for MALICIOUS/DANGEROUS, orange for SUSPICIOUS/WARN, grey for ERROR, green otherwise; an empty verdict is falsy and draws green |
| MainBackground.ErrorParsedBadge | main-extension/background.js:95-104 | the error entry draws the grey X |
| TabCache.ShouldCheckNavigation | main-extension/background.js:128-132 | a completed navigation is checked if and only if it is top-frame, non-empty and not a `chrome://` or `chrome-extension://` page |
| MainBackground.ShouldCheckUrlChange | main-extension/background.js:135-139 | a URL change is checked if and only if the URL is non-empty and not a browser page |
| MainBackground.NavigationFiltersAgree | main-extension/background.js:128-139 | both listeners apply the same filter to a top-frame URL |
| TabCache.TtlBoundary | main-extension/background.js:66-68 | an entry is fresh up to 5 minutes minus 1 ms after it was written, and stale at every time from 5 minutes on |
| TabCache.UrlChangeInvalidates | main-extension/background.js:80 | a stored entry is never reused for another URL |
| TabCache.ParsedOf | main-extension/background.js:17 | `parsed` is the answer itself, or the first element of an array answer (none for `[]`) |
| TabCache.ErrorData | main-extension/background.js:95 | the error record has no raw answer and no scores, verdict ERROR and the message as summary |
| MainBackground.FetchIffNotReusable | main-extension/background.js:70-88 | the webhook is called if and only if the URL parses and there is no fresh entry for the same URL; an unparsable URL changes nothing |
| MainBackground.StoreUnchangedIff | main-extension/background.js:70-105 | the store is unchanged if and only if the URL does not parse or a reusable entry draws its badge without throwing |
| MainBackground.OtherTabsUntouched | main-extension/background.js:76-103 | a check writes only the tab's own key |
| MainBackground.FetchOverwrites | main-extension/background.js:86-104 | a fetching check overwrites the tab's entry with the scored answer or the error record, and draws the badge of the status or the grey X |
| MainBackground.LastWriteWins | main-extension/background.js:90 | after two checks of a tab where the second fetches, the store is what the second alone would have written |
| MainBackground.CheckKeepsWellFormed | main-extension/background.js:89-103 | every entry holds either the scores of its raw answer with `parsed` taken from it, or the error record; a check preserves this |
| MainBackground.CacheHitBadge | main-extension/background.js:80-83 | a cache hit calls nothing and draws the badge of the stored `parsed` |
| MainBackground.FetchedScored | main-extension/background.js:87-91 | a fetch stores the answer's `parsed`, URL and time, and draws the badge of the computed status |
| MainBackground.ReusedBadgeDiffers | main-extension/background.js:82 | for every answer whose `parsed` draws, the fetch draws the badge of the computed status and a reuse within 5 minutes draws the badge of `parsed`, not of `scores` |
| MainBackground.BlocklistHitTurnsGreen | main-extension/background.js:82-91 | a Safe Browsing hit is drawn as the orange ? when fetched and as the green check on every reload of the same URL within 5 minutes |
| MainBackground.SuspiciousThenGreen | main-extension/background.js:82-91 | any answer scoring 50/0/100 SUSPICIOUS whose `parsed` draws green is orange when fetched and green when reused |
| MainBackground.NamedMaliciousScoresSafe | main-extension/background.js:21-64 | an answer whose first element only says `verdict: MALICIOUS` scores SAFE |
| MainBackground.NamedMaliciousDrawsDanger | main-extension/background.js:109-119 | that first element draws the red badge |
| MainBackground.PhishingScenario | main-extension/background.js:70-91 | a navigation to a Safe Browsing hit stores 50/0/100 SUSPICIOUS under the tab and draws the orange ? |
| MainBackground.SuspiciousFetch | main-extension/background.js:76-91 | on an empty store, any answer that scores 50/0/100 SUSPICIOUS is fetched, stored as the only entry, and draws the orange ? |
| MainBackground.Coordinator.constructor | main-extension/background.js:76 | the store starts empty and well formed |
| MainBackground.Coordinator.HandleCheck | main-extension/background.js:70-106 | the new store, the fetch flag and the badge are those of `Check`, and well-formedness is kept |
| MainBackground.Coordinator.StoreError | main-extension/background.js:93-104 | the catch block writes the error record under the tab and draws the grey X; it keeps `Valid` |
| MainBackground.Coordinator.RemoveTab | main-extension/background.js:142-144 | closing a tab removes exactly its key |
| SampleBackground.UpdateBadge | sample-ext/background.js:63-72 | red if and only if the upper-cased verdict is DANGEROUS/MALICIOUS, orange if and only if SUSPICIOUS/WARN, grey if and only if ERROR, else green; never the caution badge; throws only on a truthy non-string verdict |
| SampleBackground.BadgeIgnoresCase | sample-ext/background.js:64 | a verdict draws the same badge as its upper-cased form |
| SampleBackground.AgreesWithMainWithoutStatus | sample-ext/background.js:63-72 | without a `status` field the two workers draw the same badge |
| SampleBackground.ErrorParsedBadge | sample-ext/background.js:49-58 | the error record draws the grey X |
| SampleBackground.WellFormedDrawsBadge | sample-ext/background.js:43-58 | every well-formed entry draws its badge without throwing |
| SampleBackground.FetchIffNotReusable | sample-ext/background.js:25-42 | the webhook is called if and only if the URL parses and no fresh entry for the same URL exists |
| SampleBackground.QuietIffReusable | sample-ext/background.js:35-39 | over a well-formed store, nothing is fetched or written if and only if the URL does not parse or the entry is reusable |
| SampleBackground.OtherTabsUntouched | sample-ext/background.js:31-57 | a check writes only the tab's own key |
| SampleBackground.FetchOverwrites | sample-ext/background.js:41-58 | a fetch overwrites the tab's entry; a failure draws the grey X; an answer draws its verdict's badge, or the grey X when that verdict is truthy but not a string and the catch block overwrites the entry |
| SampleBackground.LastWriteWins | sample-ext/background.js:44 | the later fetching check decides the tab's entry |
| SampleBackground.CheckKeepsWellFormed | sample-ext/background.js:43-58 | an answer whose verdict throws on upper-casing is replaced by the error record, so every stored entry draws a badge |
| SampleBackground.Coordinator.constructor | sample-ext/background.js:31 | the store starts empty |
| SampleBackground.Coordinator.HandleCheck | sample-ext/background.js:25-60 | the new store, fetch flag and badge are those of `Check`, and the store stays well formed |
| SampleBackground.Coordinator.StoreError | sample-ext/background.js:47-58 | the catch block writes the error record and draws the grey X; given well-formed entries on the other tabs, it restores `Valid` |
| SampleBackground.Coordinator.RemoveTab | sample-ext/background.js:82-84 | closing a tab removes exactly its key |
| MainPopup.PopupTotals | main-extension/popup.js:32-60 | the popup's scores carry no status; the Safe Browsing score is 0 or 100; with sane votes all scores are in 0..100, the total is at least 10, and the VirusTotal score equals the worker's |
| MainPopup.PopupSane | main-extension/popup.js:49-53 | the unrounded threat share lies in 0..100, below the 40-point cap |
| MainPopup.PopupVotes | main-extension/popup.js:43-47 | when the stats are readable the popup reads the same votes as the worker |
| MainPopup.PopupScores | main-extension/popup.js:24-61 | a non-array or short answer gives 50/50/50; the only failure is reading missing stats; the Safe Browsing score is 0 exactly on a match |
| MainPopup.PopupThrowsIff | main-extension/popup.js:43-45 | the popup scorer throws if and only if `data.attributes` exists but `stats` is nullish |
| MainPopup.ScorersAgreeWithinOne | main-extension/popup.js:49-57 | the popup and the worker agree on both partial scores, and their totals differ by at most 1 |
| MainPopup.ScorersDisagreeByOne | main-extension/popup.js:50-51 | one malicious and 76 harmless votes give 100 in the worker and 99 in the popup |
| MainPopup.FormatTimestamp | main-extension/popup.js:74-85 | "Just now" under a minute; whole minutes below an hour; whole hours below a day; then a date |
| MainPopup.FloorTwice | main-extension/popup.js:78-82 | flooring to minutes and then to hours equals flooring to hours |
| MainPopup.FormatMonotone | main-extension/popup.js:74-85 | the label never moves back to a finer unit as time passes |
| MainPopup.ShownScores | main-extension/popup.js:97-98 | stored scores are shown as they are; otherwise the raw answer is scored again |
| MainPopup.Render | main-extension/popup.js:87-114 | no entry shows the loading view; otherwise it throws exactly when `ShownScores` throws, and shows `ShownScores(data)`, the domain or "--" when it is empty, and `FormatTimestamp(checkedAt, now)` |
| MainPopup.RenderWellFormed | main-extension/popup.js:87-116 | every entry the worker writes renders; scored entries show the worker's scores; error entries show 50/50/50 |
| MainPopup.AutoCheckEnabled | main-extension/popup.js:162-163 | auto-check is off only when the stored flag is exactly `false` |
| SamplePopup.ColorForVerdict | sample-ext/popup.js:19-25 | the colour is the colour of the verdict's tone |
| SamplePopup.SymbolForVerdict | sample-ext/popup.js:27-33 | the glyph is the glyph of the verdict's tone |
| SamplePopup.ColorAndSymbolAgree | sample-ext/popup.js:19-33 | two verdicts share a colour if and only if they share a glyph; CAUTION is green |
| SamplePopup.ToneMatchesBadge | sample-ext/popup.js:19-33 | the popup's tone for every verdict, the empty one included, is the worker's badge for it |
| SamplePopup.ParsedFallback | sample-ext/popup.js:52-53 | a truthy stored `parsed` is used as it is; otherwise `parsed` is chosen again from a truthy `raw` exactly as the worker chooses it (`ParsedOf`), or from the data object itself when `raw` is falsy; no data gives no `parsed` |
| SamplePopup.FallbackAgreesWithWorker | sample-ext/popup.js:52-53 | for every response the worker stored with its own `parsed`, the popup ends up with the worker's `parsed` |
| SamplePopup.Risk | sample-ext/popup.js:59-63 | `risk_score`, else `final_trust_score`, else `total_score`, skipping only nullish values (so 0 is kept); all three nullish shows "N/A" |
| SamplePopup.Render | sample-ext/popup.js:35-79 | no entry shows the placeholder; a nullish `parsed` throws with the null or undefined message; otherwise the screen is `ShowParsed` of the fallback `parsed` and `payload.raw \|\| payload`, so the label, risk, summary and JSON are those `ShowParsed` states; the colour and glyph are those of the shown verdict |
| SamplePopup.ShowParsed | sample-ext/popup.js:58-67 | throws exactly when `verdict \|\| final_verdict` is truthy and not a string; otherwise the label is that verdict upper-cased, or SAFE; the risk is `Risk(parsed)`; the summary is `summary`, else `description`, else "No summary provided."; the colour and glyph are those of the label's tone; the raw box shows `fullRaw` |
| SamplePopup.ShowParsedMatchesBadge | sample-ext/popup.js:58-67 | whenever the worker draws a badge for `parsed`, the popup shows it and with the same tone |
| SamplePopup.RenderMatchesBadge | sample-ext/popup.js:35-79 | a stored well-formed entry with a truthy `parsed` renders with the badge's tone |
| SamplePopup.FallbacksOnEmptyParsed | sample-ext/popup.js:58-60 | a `parsed` with only a risk score shows SAFE, green, that score and the default summary |
| SamplePopup.EmptyArrayBreaksRender | sample-ext/popup.js:52-58 | an `[]` answer is stored with a green badge, yet the popup throws reading its verdict |
| SamplePopup.PollForData | sample-ext/popup.js:81-99 | at least one and at most `maxAttempts` requests; it stops at the first entry and renders it; otherwise it renders nothing after the last attempt |
| SamplePopup.PollDefault | sample-ext/popup.js:81-97 | the call with the default bound makes at most 20 requests, with the same stopping rule |
| ChromeBackground.UpdateBadge | chrome-extension/background.js:66-77 | red if and only if `isPhishing` is truthy, orange if and only if only `isSuspicious` is, otherwise green; throws on `null` |
| ChromeBackground.FailureResult | chrome-extension/background.js:56-61 | the failure object says not phishing and carries the error message |
| ChromeBackground.AsWrittenReportsFailure | chrome-extension/background.js:51 | as written, every call answers "not phishing" and draws no badge; a stored answer comes back as the `sender` error |
| ChromeBackground.IntendedReturnsResult | chrome-extension/background.js:40-53 | once corrected, the call stores what it stores as written, returns the answer and draws its badge; a failure stores nothing |
| ChromeBackground.PhishingVerdictLost | chrome-extension/background.js:40-53 | a phishing answer draws the red badge once corrected but reaches the page as "not phishing" as written |
| ChromeBackground.StoreByDomain | chrome-extension/background.js:43-48 | an answer replaces only its hostname's entry; a failure leaves the store alone |
| ChromeBackground.ClearsBadge | chrome-extension/background.js:80-90 | the badge is cleared if and only if a load completes on a non-empty URL that is not a browser page |
| ChromeBackground.DomainCache.constructor | chrome-extension/background.js:43 | the store starts empty |
| ChromeBackground.DomainCache.CheckPhishingUrl | chrome-extension/background.js:17-63 | the store and the response are those of `CheckAsWritten` |
| ChromeBackground.DomainCache.CheckPhishingUrlFixed | chrome-extension/background.js:17-63 | the store, response and badge are those of `CheckIntended` |
| ChromeBackground.DomainCache.Remove | chrome-extension/popup.js:138 | removing a hostname deletes exactly its entry |
| ChromePopup.RecentIsFresh | chrome-extension/popup.js:70-73 | the popup's recency test is the workers' five-minute freshness rule |
| ChromePopup.LoadDecision | chrome-extension/popup.js:11-34 | no tab, an empty URL or a `chrome://` URL is a system page, and only those; a recent cached entry is shown; otherwise a re-check is requested |
| ChromePopup.SameHostSameDecision | chrome-extension/popup.js:23-28 | two pages on one host get the same decision |
| ChromePopup.ExtensionPageIsLookedUp | chrome-extension/popup.js:14 | every `chrome-extension://` page is looked up in the cache, not treated as a system page |
| ChromePopup.AfterRecheck | chrome-extension/popup.js:36-62 | a failed request gives "could not analyze"; otherwise any cached entry is shown, recent or not, or "in progress" |
| ChromePopup.FollowUpPanel | chrome-extension/popup.js:39-61 | after a recheck a cached entry shows its own result; without one the safe panel appears with "Could not analyze this page" or "Analysis in progress...", never a warning |
| ChromePopup.ShowResult | chrome-extension/popup.js:75-102 | phishing if and only if `isPhishing`; suspicious if and only if only `isSuspicious`; a truthy `reason` is the description; `null` throws |
| ChromePopup.PanelMatchesBadge | chrome-extension/popup.js:84-102 | the popup's state for a result is the worker's badge for it |
| ChromePopup.SystemPageIsSafe | chrome-extension/popup.js:14-20 | a browser page is shown as safe with its own reason |
| ChromePopup.RecheckPage | chrome-extension/popup.js:130-145 | the domain's entry is removed, so the next load cannot show a cached result for it |
| Content.DetectBrandImpersonation | chrome-extension/content.js:107-140 | the indicators are those of the brand list in order, for the lower-cased title; at most ten |
| Content.ImpersonationsShape | chrome-extension/content.js:124-137 | every indicator is for a brand that is mentioned and off its domains, and every such brand has one; all mark the current domain suspicious |
| Content.OneIndicatorPerBrand | chrome-extension/content.js:124-137 | with distinct brand names no brand is reported twice |
| Content.PopularBrandsDistinct | chrome-extension/content.js:108-119 | the ten brand names are distinct |
| Content.LookalikeCountsAsOfficial | chrome-extension/content.js:127 | a host that merely contains `paypal.com` counts as PayPal's own |
| Content.TypoDomainIsFlagged | chrome-extension/content.js:125-129 | `paypa1.com` mentioning PayPal is flagged |
| Content.FoundKeywords | chrome-extension/content.js:84-86 | no more phrases are found than listed |
| Content.FoundKeywordsExactly | chrome-extension/content.js:84-86 | a phrase is found if and only if it is listed and occurs in the text |
| Content.FoundKeywordsInOrder | chrome-extension/content.js:84-86 | the found phrases keep the list's order |
| Content.ExternalAll | chrome-extension/content.js:57-65 | a link is kept if and only if its URL parses and names another host |
| Content.ExternalInOrder | chrome-extension/content.js:56-67 | the kept links are a subsequence of the page's links, in document order, so the slice keeps the page's first twenty |
| Content.ExternalLinks | chrome-extension/content.js:56-67 | at most 20 links, each to another host, and they are the first of the kept links |
| Content.ExtractPageData | chrome-extension/content.js:38-105 | a login form exactly when there are both password and e-mail fields, a password field exactly when there is one; the links are `ExternalLinks`, the phrases `FoundKeywords` of the lowered body text, the brand indicators `Impersonations` of the domain, lowered title and text; the page length is the body text's length, 0 without a body; the lists hold at most 20, 10 and 10 items |
| Content.NothingFoundInEmpty | chrome-extension/content.js:70 | an empty page contains none of the phrases |
| Content.React | chrome-extension/content.js:23-34 | the overlay if and only if the response is phishing; the banner if and only if it is only suspicious |
| Content.WarningsNeverShown | chrome-extension/content.js:29-33 | with the worker as written the page never warns; once corrected, a phishing answer raises the overlay |
| Js.UpperIdempotent | main-extension/background.js:112 | upper-casing twice equals upper-casing once |
| Js.ContainsAt | chrome-extension/content.js:85 | a string occurring at some position is found by `includes` |

## Left out

- The network: `postToWebhook` and `fetch`, including the request body and the HTTP status check. The webhook's outcome is the `Reply` parameter: an answer, or a failure with a message.
- `chrome.*` calls (storage, tabs, messaging, badge APIs). They are modelled by their effect on the stored map and by the badge value returned; their asynchrony and any interleaving of two checks of one tab are not modelled.
- The `getTabData` and `refreshCurrentTab` message handlers, the popups' `loadData`/`initialLoad`, and the recheck, refresh and report buttons. They only relay messages; a refresh runs the same `Check` and does not bypass a fresh cache entry.
- Clocks and ISO timestamps: time is an integer millisecond count `now`, given by the caller. The clock is read once per check: an entry is stamped with the time the check began. The source reads it again and stamps `checkedAt` after the webhook answers (main-extension/background.js:89,101; sample-ext/background.js:43,55; chrome-extension/background.js:46), so its five-minute window starts when the answer arrives. `FetchOverwrites`' `checkedAt == now` relies on this single reading. `toLocaleDateString`/`toLocaleTimeString` are represented by the `LocaleDate` bucket.
- Ring geometry, confidence bars and all DOM updates (text, classes, the overlay and banner markup). The popups are modelled by the values they display.
- The n8n health check (`checkN8nConnection`) and `reportFalsePositive`. They only affect the display.
- `formActions`, `formCount`, `isHttps`, `url` and `title` of the page data. They are copied from the DOM without computation.
- `new URL(...)` is a parameter: a host, or `None` when the constructor throws. `domain` of the chrome-extension page data is assumed to be a string.
- Numbers are integers: JSON answers with fractional counts or scores are not modelled.
- Scoring.Count: a count that is not a number reads as 0; JavaScript's coercion of other types in `+` is not modelled.
- Js.LengthPositive: a `length` that is not a number reads as not positive, whereas JavaScript coerces it (`"3" > 0` is true).
- MainBackground.CalculateScores: percentages and penalties are exact rationals rounded half up, not IEEE doubles. At a half-percent tie the two can differ by one point: 23 clean votes of 40 give `23/40*100` = 57.49999999999999 in double, so the source's vtScore is 57 where `CleanPoints` gives 58; 57 threats of 200 give a total of 89 in the source and 88 here, and 113 of 200 give 78 and 77. The closed form of the total holds only for exact arithmetic.
- Scoring.RoundPenalty: states `Math.round(b - p*0.4)` over exact rationals; double rounding of `p*0.4` is not modelled.
- MainPopup.ScorersAgreeWithinOne: the within-one bound between the two scorers is proved for exact rationals, not for doubles.
- MainPopup.ScorersDisagreeByOne: the example is exact-rational arithmetic; its doubles are not at a tie, so the source gives the same 100 and 99.
- MainPopup.PopupTotals: the popup's unrounded `threatPct * 0.4` is an exact rational here.
- Js.Upper and Js.Lower map ASCII letters only; other Unicode case mappings are not modelled.
- The `recheck` message sent by the chrome-extension popup: the content script has no listener for it, and the popup's follow-up takes the request's failure as the parameter `requestFailed`.
- The 500 ms debounce and the 400 ms and 1500 ms timers: each is a single step here.

## Findings

| source | as written | input that shows it | evidently intended | confidence | as-written member | corrected member |
|---|---|---|---|---|---|---|
| chrome-extension/background.js:51 | `updateBadge(sender.tab.id, result)` inside `checkPhishingUrl`, where no `sender` is bound; the reference throws after the answer is stored, and the catch block returns the failure object | any successful answer, e.g. `{isPhishing: true}` | draw the badge for the requesting tab and return the answer to the content script | not executed | ChromeBackground.AsWrittenReportsFailure | ChromeBackground.IntendedReturnsResult |
