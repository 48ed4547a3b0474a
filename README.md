# skicams in Dafny

A verified model of the logic behind skicams, a ski-resort webcam archive.
A scheduled capture job fetches images from allowlisted camera sources,
stores them under a per-run key and records one snapshot row per camera.
Time slots are computed on the Pacific clock. The web client adds:

- a visitor-tracking hook;
- a user-info page;
- a slot-based snapshot query;
- a paginated history page;
- a mock-data generator.

Modules, in dependency order:

| file | module | models |
|---|---|---|
| wrappers.dfy | `Wrappers` | `Option` (JavaScript's null / undefined / NaN). |
| js_string.dfy | `JsString` | The JavaScript string built-ins the code relies on: `indexOf`, `includes`, `split` and `join` on one character, `replace` with a string pattern (first occurrence only), ASCII-case-insensitive regex tests, and decimal rendering of integers. |
| capture_guards.dfy | `CaptureGuards` | The capture job's pure pieces: the domain allowlist, the content-type test, the 10 MiB ceiling, the bearer-secret gate, the Pacific-hour slot classifier and the storage key. |
| capture_run.dfy | `CaptureRun` | The handler. It processes each camera as a pure function over oracles. The camera loop is a method proved against a recursive specification of the run. |
| client_info.dfy | `ClientInfo` | The IP masking and the user-agent classifiers. The tracking hook and the user-info page each carry an identical copy of this code. |
| visitor_tracking.dfy | `VisitorTracking` | The session id kept in session storage, the once-only location lookup and the per-page de-duplication. The last two live in the class `VisitTracker`. |
| user_info.dfy | `UserInfo` | The page's "Unknown" variant of the masking and its device-info record. |
| webcam_data.dfy | `WebcamData` | The "HH:MM" → "h:MM AM/PM" label conversion and the day window of the snapshot query. |
| history.dfy | `History` | The page counter (class `HistoryPage`), the row block each page requests, the button states and the click-through address. |
| mock_data.dfy | `MockData` | `generateMockSnapshots`. |

Effects are parameters:

- **Capture job.**
  - The URL parser is a function `host` from URL text to an optional host name. "None" stands for `new URL` throwing.
  - Every fetch, render request, upload, public-URL lookup and insert is answered by `oracle(k)` for the k-th camera.
  - The clock is given twice: as `nowMs` (`now.getTime()`) and as `nowIso` (`now.toISOString()`).
- **Client.**
  - The browser globals arrive as values: user agent, screen, language, referrer, `doNotTrack`, `ontouchstart`.
  - `crypto.randomUUID()` is an argument `generated`.
  - `format(date, 'yyyy-MM-dd')` becomes a date string.

Observations the proofs make explicit:

- **Lookalike hosts pass the allowlist.** The test is a plain suffix match with no dot boundary, so a host such as "evilurlbox.io" is admitted (`CaptureGuards.LookalikeHostAllowed`).
- **"Bearer " is removed wherever it first occurs.** The gate admits the canonical header. For a secret that does not itself contain "Bearer ", it also admits the bare secret (`CaptureGuards.AdmitsBareSecret`). It also admits the secret with one "Bearer " inserted at any position before any "Bearer " already in the secret (`CaptureGuards.AdmitsEmbeddedBearer`). Every admitted header is the secret, or the secret with one "Bearer " inserted (`CaptureGuards.AdmittedHeaderShape`).
- **An invalid clock gives the morning slot.** An out-of-range time value makes `getUTCHours()` NaN, and NaN yields "7:30 AM".
- **The slot rule.** Hours 0–11, including those before 7:30, all map to "7:30 AM"; no hour wraps to the last slot (`CaptureGuards.SlotOfHour`).
- **Android reports as Linux.** "Linux" is tested before "Android", and Android agents name Linux (`ClientInfo.AndroidReportedAsLinux`).
- **The day window misses the final 999 ms.** The query's upper bound is `23:59:59`, so a capture after 23:59:59.000 falls outside every day's window (`WebcamData.DayWindowBounds`).
- **A full last page leads to an empty one.** When the row count is a multiple of 20, the last full page still offers Next, and the page it opens receives no rows (`History.NextEnabledIff`). That page shows the empty state, which has no Previous button.
- **Both user-agent chains agree with a first-match reading.** The browser and OS if-chains equal the first matching rule of a priority table (`ClientInfo.BrowserIsFirstMatch`, `ClientInfo.OsIsFirstMatch`).

## Model

| member | source | states |
|---|---|---|
| `JsString.IndexOf` | supabase/functions/capture-webcams/index.ts:48 | The result is an occurrence of the pattern, no earlier index holds one, and None means it occurs nowhere. |
| `JsString.ReplaceFirst` | src/pages/History.tsx:45 | Without an occurrence the text is unchanged; otherwise its length changes by \|rep\| − \|pat\|. |
| `JsString.ReplaceFirstAt` | supabase/functions/capture-webcams/index.ts:48 | When the first occurrence is at i, the result is the text before i, the replacement, then the text after the pattern. |
| `JsString.Split` | src/hooks/useVisitorTracking.ts:25 | A split has at least one part, and no part contains the separator. |
| `JsString.JoinSplit` | src/hooks/useVisitorTracking.ts:31-32 | Joining the parts of a split with the same separator gives the text back. |
| `JsString.SplitCount` | src/hooks/useVisitorTracking.ts:25-26 | A split has one part more than there are separators. |
| `JsString.AsciiLower` | src/hooks/useVisitorTracking.ts:59-60 | The `/i` flag's folding keeps the length, lowers exactly the capitals and leaves every other character alone. |
| `JsString.NatToDecimal` | src/data/mockData.ts:15 | An integer renders as non-empty digit text without a leading zero. |
| `JsString.DecimalRoundTrip` | src/data/mockData.ts:15 | Reading the rendered digits back gives the number. |
| `JsString.DecimalPairInjective` | src/hooks/useVisitorTracking.ts:111 | Two numbers joined by a separator that starts with a non-digit can be read back uniquely. |
| `CaptureGuards.EndsWithAny` | supabase/functions/capture-webcams/index.ts:24 | `some(endsWith)` is true iff some listed suffix ends the host name. |
| `CaptureGuards.IsAllowedDomain` | supabase/functions/capture-webcams/index.ts:13-28 | True iff the URL parses and its host name ends with one of the four allowlisted suffixes. An unparseable URL gives false. |
| `CaptureGuards.SubdomainAllowed` | supabase/functions/capture-webcams/index.ts:21-28 | Every allowlisted domain and each of its subdomains is admitted. |
| `CaptureGuards.LookalikeHostAllowed` | supabase/functions/capture-webcams/index.ts:24 | "evilurlbox.io" is admitted, because the suffix test has no dot boundary. |
| `CaptureGuards.AllowlistReduces` | supabase/functions/capture-webcams/index.ts:13-18 | The four entries admit exactly the hosts ending in "backend.roundshot.com" or "urlbox.io". |
| `CaptureGuards.IsValidImageContentType` | supabase/functions/capture-webcams/index.ts:31-34 | A missing or empty header is rejected. Otherwise the result is true iff the value starts with "image/". |
| `CaptureGuards.SizeCeiling` | supabase/functions/capture-webcams/index.ts:130-134 | A payload is refused iff it exceeds 10·1024·1024 bytes, so exactly 10485760 bytes pass. |
| `CaptureGuards.Authorized` | supabase/functions/capture-webcams/index.ts:43-58 | An unset or empty secret admits every request. With a secret set, a missing header is refused. |
| `CaptureGuards.AdmitsCanonical` | supabase/functions/capture-webcams/index.ts:48-49 | "Bearer " + secret is admitted. |
| `CaptureGuards.AdmitsBareSecret` | supabase/functions/capture-webcams/index.ts:48-49 | For a secret that does not itself contain "Bearer ", the secret alone, without a scheme, is admitted. |
| `CaptureGuards.AdmitsEmbeddedBearer` | supabase/functions/capture-webcams/index.ts:48 | "Bearer " is removed at its first occurrence, even in the middle of the header. So the secret with "Bearer " inserted before any "Bearer " it already contains is admitted. |
| `CaptureGuards.AdmittedHeaderShape` | supabase/functions/capture-webcams/index.ts:47-55 | With a secret set, an admitted header is the secret, or the secret with one "Bearer " inserted at some position. |
| `CaptureGuards.UtcHours` | supabase/functions/capture-webcams/index.ts:88-89 | `getUTCHours` is defined iff the time value is within ±8.64·10^15 ms, and is then below 24. |
| `CaptureGuards.PstHourShift` | supabase/functions/capture-webcams/index.ts:86-89 | The Pacific hour is the UTC hour moved back by eight hours, modulo 24. |
| `CaptureGuards.ClassifyHour` | supabase/functions/capture-webcams/index.ts:92-95 | The classifier always returns one of the three slot labels. |
| `CaptureGuards.TimeSlot` | supabase/functions/capture-webcams/index.ts:84-95 | The slot computed for any clock value is one of the three labels. |
| `CaptureGuards.SlotOfHour` | supabase/functions/capture-webcams/index.ts:92-95 | Hours 0–11 give "7:30 AM", 12–14 give "12:00 PM" and 15–23 give "3:30 PM", each in both directions. |
| `CaptureGuards.ClassifyMatchesTable` | supabase/functions/capture-webcams/index.ts:91-95 | The if-chain equals "the last boundary at or below the hour wins" over the table (0, 12, 15). |
| `CaptureGuards.SanitizeTimestamp` | supabase/functions/capture-webcams/index.ts:142 | Each ':' and '.' becomes '-', every other character is kept, and the length is unchanged. |
| `CaptureGuards.SanitizedHasNoSeparators` | supabase/functions/capture-webcams/index.ts:142 | A sanitized timestamp holds no ':' and no '.'. |
| `CaptureGuards.StorageKey` | supabase/functions/capture-webcams/index.ts:142-143 | The key is slug + "/", then the ISO timestamp with every ':' and '.' replaced by '-', then ".jpg". So no ':' or '.' sits between the slug and the extension, and the length is \|slug\| + \|iso\| + 5. |
| `CaptureGuards.StorageKeySlugInjective` | supabase/functions/capture-webcams/index.ts:143 | Within one run, distinct slugs get distinct keys. |
| `CaptureGuards.SanitizeInjectiveOnShape` | supabase/functions/capture-webcams/index.ts:274 | Timestamps with ':' and '.' at the same positions sanitize to distinct texts when they differ. |
| `CaptureGuards.StorageKeyTimestampInjective` | supabase/functions/capture-webcams/index.ts:142-143 | For one camera's slug, two differing timestamps with ':' and '.' at the same positions get distinct storage keys. |
| `CaptureRun.StoreFacts` | supabase/functions/capture-webcams/index.ts:141-183 | Storing uploads under the run's key first. It inserts a row only after a successful upload, and succeeds iff both steps succeed. The row carries the camera id, public URL, run time, slot and byte count. |
| `CaptureRun.AcceptFacts` | supabase/functions/capture-webcams/index.ts:113-134 | A fetched image reaches the store iff its status is ok, its type is an image, its body is readable and it is at most 10 MiB. Otherwise nothing is called. |
| `CaptureRun.ProcessCameraOutcome` | supabase/functions/capture-webcams/index.ts:98-326 | Each camera pushes one entry under its name, except an allowed camera of unknown source type, which pushes none. The entry is a success, and a row is stored, iff every step of its pipeline succeeded. |
| `CaptureRun.ProcessCameraSteps` | supabase/functions/capture-webcams/index.ts:101-216 | The source URL is checked before any call. The calls are a prefix of the source type's pipeline: GET, upload, insert for roundshot; render, GET, upload, insert for verkada. A verkada camera without a key makes no call. |
| `CaptureRun.ProcessCameraFetchesAllowed` | supabase/functions/capture-webcams/index.ts:101-243 | Every URL fetched, the source URL and the renderUrl alike, passes the allowlist. |
| `CaptureRun.ProcessCameraRow` | supabase/functions/capture-webcams/index.ts:166-175 | A stored row names this camera, the public URL, the run's time and slot, and the size of the bytes uploaded just before its insert (at most 10 MiB). |
| `CaptureRun.SuccessCount` | supabase/functions/capture-webcams/index.ts:329 | The number of successful entries is at most the number of entries. |
| `CaptureRun.TallyCounts` | supabase/functions/capture-webcams/index.ts:329-337 | `processed` plus the unknown-type cameras equals the camera count. `successful` equals the cameras whose every step succeeded, and equals the number of stored rows. |
| `CaptureRun.RunInvariants` | supabase/functions/capture-webcams/index.ts:97-327 | Across the whole loop, every fetched URL is allowlisted. Every row carries the one capture time and slot and at most 10 MiB. |
| `CaptureRun.Capture` | supabase/functions/capture-webcams/index.ts:36-356 | OPTIONS gives the preflight, and a failed gate gives 401 before any call. The handler completes iff the gate passes and the camera query returns without an error. A query that returns no data completes with zero cameras. Past the gate, a query error gives 500 "Failed to fetch cameras", a throw gives the outer catch's 500, and status 500 arises exactly in those two cases. Otherwise nothing is called or stored. On completion the counts and stored rows are those of the run specification, and the fetch and row invariants hold. |
| `ClientInfo.DottedQuadIff` | src/hooks/useVisitorTracking.ts:25-26 | An address splits into four dotted parts iff it holds exactly three dots. |
| `ClientInfo.MaskDottedQuad` | src/hooks/useVisitorTracking.ts:25-28 | A four-part dotted address keeps its text up to the second dot, followed by ".***.***". |
| `ClientInfo.MaskColonAddress` | src/hooks/useVisitorTracking.ts:30-33 | Otherwise an address with a colon keeps its first three colon-separated groups, followed by ":****:****". The kept text is the address up to its third colon, or the whole address when it has at most two. |
| `ClientInfo.MaskOtherAddress` | src/hooks/useVisitorTracking.ts:34 | Any other address keeps its first ⌊len/2⌋ characters followed by "****". |
| `ClientInfo.FirstMatchPicks` | src/hooks/useVisitorTracking.ts:41-46 | A first-match table answers with rule i when rule i matches and no earlier rule does. |
| `ClientInfo.FirstMatchFallback` | src/hooks/useVisitorTracking.ts:41-46 | The table answers with the fallback iff no rule matches. |
| `ClientInfo.BrowserIsFirstMatch` | src/hooks/useVisitorTracking.ts:40-46 | The browser chain is the first match over (Firefox, Edg, Chrome, Safari, Opera/OPR). |
| `ClientInfo.OsIsFirstMatch` | src/hooks/useVisitorTracking.ts:48-55 | The OS chain is the first match over (Windows NT 10, Windows, Mac OS X, Linux, Android, iPhone/iPad). |
| `ClientInfo.BrowserUnknownIff` | src/hooks/useVisitorTracking.ts:41-46 | The browser is "Unknown" iff none of the six tokens occurs. |
| `ClientInfo.AndroidReportedAsLinux` | src/hooks/useVisitorTracking.ts:53-54 | An agent naming both Linux and Android, and no Windows or Mac token, is reported as Linux. |
| `ClientInfo.DeviceIff` | src/hooks/useVisitorTracking.ts:57-60 | "Mobile" iff a mobi/android token occurs in any case. Otherwise "Tablet" iff a tablet/ipad token occurs, else "Desktop". |
| `ClientInfo.DeviceIgnoresCase` | src/hooks/useVisitorTracking.ts:59-60 | Lower-casing the agent first never changes the device class. |
| `VisitorTracking.MaskIP` | src/hooks/useVisitorTracking.ts:23-35 | A missing or empty address gives null. Any other is masked. |
| `VisitorTracking.SessionIdStable` | src/hooks/useVisitorTracking.ts:14-21 | Once an id is stored, every later call returns it and leaves storage unchanged, whatever id would be generated. A fresh tab gets the generated id. |
| `VisitorTracking.GetSessionId` | src/hooks/useVisitorTracking.ts:14-21 | The method returns and stores what the session lookup specifies: a stored non-empty id is reused, otherwise the new id is stored. |
| `VisitorTracking.ScreenResolutionInjective` | src/hooks/useVisitorTracking.ts:111 | The "WxH" text determines the width and height. |
| `VisitorTracking.VisitorRecordNulls` | src/hooks/useVisitorTracking.ts:100-115 | Without location data every location column is null. With it, each of city, region, country (`country_name`), timezone and isp (`org`) is null iff its field is missing or empty, and is otherwise non-empty. An empty referrer is null. The masked address and classifier columns come from the shared helpers. |
| `VisitorTracking.VisitTracker.constructor` | src/hooks/useVisitorTracking.ts:67-68 | A new hook has tracked nothing, has no location and has sent nothing. |
| `VisitorTracking.VisitTracker.FetchLocation` | src/hooks/useVisitorTracking.ts:72-83 | Location data, once present, is never replaced. Nothing else changes. |
| `VisitorTracking.VisitTracker.TrackVisit` | src/hooks/useVisitorTracking.ts:89-115 | The page key is added to the tracked set. An insert is issued iff the key was new. Every sent key stays tracked, and no key is sent twice. |
| `VisitorTracking.RepeatVisitInsertsOnce` | src/hooks/useVisitorTracking.ts:93-95 | Two visits to the same path in one tab send exactly one insert, under the first visit's session id. |
| `UserInfo.MaskIP` | src/pages/UserInfo.tsx:27-39 | A missing or empty address gives "Unknown". Any other gets the shared masking. |
| `UserInfo.MaskIPAgreesWithHook` | src/pages/UserInfo.tsx:27-39 | The page shows the hook's masked value, with "Unknown" in place of null. |
| `UserInfo.MaskedNeverUnknown` | src/pages/UserInfo.tsx:29-38 | A masked address is never the word "Unknown". |
| `UserInfo.UnknownIffHookNull` | src/pages/UserInfo.tsx:27-28 | The page shows "Unknown" iff the hook would record null. |
| `UserInfo.ParseUserAgent` | src/pages/UserInfo.tsx:41-76 | `doNotTrack` is true iff the navigator reports "1". The resolution is width + " × " + height. Language, cookies and touch support are copied. |
| `UserInfo.ParseAgreesWithHook` | src/pages/UserInfo.tsx:45-64 | Browser, OS and device equal what the tracking hook records for the same agent. |
| `UserInfo.ParseFollowsRuleTables` | src/pages/UserInfo.tsx:45-59 | The page's browser and OS chains are the first-match readings of the shared tables. |
| `UserInfo.ScreenTextInjective` | src/pages/UserInfo.tsx:70 | The "W × H" text determines the width and height. |
| `WebcamData.LeadingDigits` | src/hooks/useWebcamData.ts:27 | The digits `parseInt` reads form the longest digit prefix, and are the whole text when it is all digits. |
| `WebcamData.ParseInt` | src/hooks/useWebcamData.ts:27 | In the model, NaN iff the text does not start with a decimal digit, and on digit text the decimal value. The "0x" hexadecimal reading of `parseInt` is not modelled (see "## Left out"). |
| `WebcamData.Period` | src/hooks/useWebcamData.ts:28 | "PM" iff the hour is a number ≥ 12, else "AM". |
| `WebcamData.Display12` | src/hooks/useWebcamData.ts:29 | For a real hour of the day, the displayed hour lies in 1..12. |
| `WebcamData.TwelveHourRoundTrip` | src/hooks/useWebcamData.ts:28-29 | For h < 24, the displayed hour and period convert back to h. The display is h − 12 above 12, 12 at 0 and h for 1..12. |
| `WebcamData.ClockLabel` | src/hooks/useWebcamData.ts:26-30 | The label of "hh:mm…" is the twelve-hour clock's hour without leading zeros, ":", the minutes text verbatim, " " and the period. |
| `WebcamData.MorningSlotConverts` | src/types/webcam.ts:16 | "07:30" converts to "7:30 AM". |
| `WebcamData.NoonSlotConverts` | src/types/webcam.ts:17 | "12:00" converts to "12:00 PM". |
| `WebcamData.AfternoonSlotConverts` | src/types/webcam.ts:18 | "15:30" converts to "3:30 PM". |
| `WebcamData.TimeSlotsConvert` | src/types/webcam.ts:15-19 | Every table entry's time converts to exactly its own label. |
| `WebcamData.CaptureLabelsQueryable` | src/hooks/useWebcamData.ts:26-30 | The three labels the capture job writes are exactly the converted table times, in order. Every stored slot can be selected, and every selection can match stored rows. |
| `WebcamData.RenderedLabelInjective` | src/hooks/useWebcamData.ts:30 | A rendered label splits back into hour, minutes and period. |
| `WebcamData.ClockLabelInjective` | src/hooks/useWebcamData.ts:26-30 | Distinct times of day select distinct labels. |
| `WebcamData.DayWindowBounds` | src/hooks/useWebcamData.ts:49-50 | The bounds are the date at 00:00:00 and at 23:59:59. A capture on that date is inside iff it is no later than 23:59:59.000. |
| `History.PageRange` | src/pages/History.tsx:35 | Page p requests the inclusive range [20p, 20p + 19], which is exactly 20 rows. |
| `History.ConsecutivePagesAdjacent` | src/pages/History.tsx:35 | Pages p and p+1 request adjacent blocks that share no row. |
| `History.RowOnExactlyOnePage` | src/pages/History.tsx:14 | Row n lies in page p's range iff p = n div 20. |
| `History.PageHoldsItsRows` | src/pages/History.tsx:35 | Page p's range holds exactly the rows n with n div 20 = p. |
| `History.PageRows` | src/pages/History.tsx:34-35 | A page receives at most 20 rows: the table's rows from 20p on, in order. Every existing row of its range is among them. |
| `History.PreviousPage` | src/pages/History.tsx:109 | Previous gives max(0, page − 1), which is never negative. |
| `History.NextPage` | src/pages/History.tsx:119 | Next always moves forward. |
| `History.PreviousNextInverse` | src/pages/History.tsx:109-119 | Previous undoes Next. Next undoes Previous away from page 0. |
| `History.HistoryPage.constructor` | src/pages/History.tsx:13 | The page starts at 0. |
| `History.HistoryPage.Previous` | src/pages/History.tsx:109 | The new page is max(0, old − 1), so the page stays non-negative. |
| `History.HistoryPage.Next` | src/pages/History.tsx:119 | The new page is old + 1. |
| `History.HistoryPage.PreviousDisabled` | src/pages/History.tsx:110 | Previous is disabled iff the page is 0. On a valid page, that is exactly where pressing it would keep the page. |
| `History.HistoryPage.NextDisabled` | src/pages/History.tsx:120 | Given the ordered table, Next is disabled iff the current page received fewer than 20 rows. That holds iff the table has fewer than 20·(page + 1) rows. |
| `History.HistoryPage.PageNumber` | src/pages/History.tsx:116 | The caption is page + 1, which is at least 1 on a valid page. |
| `History.HistoryPage.Requested` | src/pages/History.tsx:35 | The current page requests its page range. That range holds exactly the rows n with n div 20 = page. |
| `History.PreviousDisabledIffNoMove` | src/pages/History.tsx:109-110 | Previous is disabled exactly where pressing it would keep the page. |
| `History.NextEnabledIff` | src/pages/History.tsx:120 | Next is enabled iff the table holds every row of the current page. When the total is a multiple of 20, the last full page leads to an empty one. |
| `History.FirstSpaceOnly` | src/pages/History.tsx:45 | Only the first space becomes '+'. The text after it, later spaces included, is kept. |
| `History.NoSpaceUnchanged` | src/pages/History.tsx:45 | A slot without a space appears unchanged in the address. |
| `History.SpacedSlotUrl` | src/pages/History.tsx:42-46 | The address is "/?date=" + date + "&time=" + the slot with its first space as '+'. |
| `History.MorningSlotUrl` | src/pages/History.tsx:45 | A "7:30 AM" snapshot links to "&time=7:30+AM". |
| `History.NoonSlotUrl` | src/pages/History.tsx:45 | A "12:00 PM" snapshot links to "&time=12:00+PM". |
| `History.AfternoonSlotUrl` | src/pages/History.tsx:45 | A "3:30 PM" snapshot links to "&time=3:30+PM". |
| `MockData.NumberOf` | src/data/mockData.ts:6 | `Number` of digit text is its decimal value, with "" giving 0. Anything else is NaN. |
| `MockData.SnapshotTime` | src/data/mockData.ts:6-9 | The timestamp is valid iff there are two digit parts. It then has the selected day, the parsed hour and minute, and zero seconds and milliseconds. |
| `MockData.GenerateMockSnapshots` | src/data/mockData.ts:4-18 | The result has exactly four snapshots. They follow the camera order, are all at "Crystal Mountain" with one shared timestamp, have the id iso + "-" + slot + "-" + camera name, and the i-th carries image i. |
| `MockData.CamerasDistinct` | src/data/mockData.ts:5 | The four camera names are pairwise distinct. |
| `MockData.SnapshotIdInjective` | src/data/mockData.ts:12 | An id determines its camera. |
| `MockData.IdsDistinct` | src/data/mockData.ts:12 | The ids of one call are pairwise distinct. |
| `MockData.ImageUrlInjective` | src/data/mockData.ts:15 | An image address determines its position. |
| `MockData.ImageUrlsDistinct` | src/data/mockData.ts:15 | The image addresses of one call are pairwise distinct. |
| `MockData.ClockTimestamp` | src/data/mockData.ts:6-9 | "hh:mm" in digits stamps the selected day at that hour and minute. |
| `MockData.MorningTimestamp` | src/data/mockData.ts:6-9 | The selector's "07:30" stamps 7:30:00.000. |
| `MockData.NoonTimestamp` | src/data/mockData.ts:6-9 | The selector's "12:00" stamps 12:00:00.000. |
| `MockData.AfternoonTimestamp` | src/data/mockData.ts:6-9 | The selector's "15:30" stamps 15:30:00.000. |

## Left out

- **HTTP and CORS.** Response headers, JSON bodies and console logging are not modelled. A response is reduced to its kind and counts.
- **The camera query.** The model takes the query's answer as given. Filtering on `is_active` and ordering by `display_order` happen in the database.
- **Storage and the database.** Uploads, public URLs and inserts are oracle answers. The model does not distinguish an upload or insert that returns an error from one that throws: both push a failed entry and move on.
- **Image bytes.** Bytes are values. `blob()`, `arrayBuffer()` and an unreadable body are folded into one optional body.
- **URL parsing.** The WHATWG URL parser is the parameter `host`.
- **Dates and formatting.** `Date`, `toISOString`, `format(…, 'yyyy-MM-dd')` and time zones are not modelled. Each enters as text or a millisecond count. `toISOString` throwing on an invalid date is not modelled.
- **`sessionStorage` and `crypto.randomUUID()`.** Storage is a map field and the UUID is an argument. Quota errors are not modelled.
- **Timers.** `setTimeout` and its cancellation on navigation are left out. `VisitTracker.TrackVisit` models the moment the timer fires. A visit cancelled within one second is not modelled.
- **The ipapi.co lookup.** Network, JSON parsing and the race between the lookup and the timer are left out. `VisitTracker.FetchLocation` takes the parsed reply.
- **String encoding.** JavaScript strings are UTF-16 code units and the model's strings are Unicode scalar values. Halving or slicing an address with non-BMP characters is not modelled.
- **React rendering.** Loading states, cards, child components and `useQuery` caching are not modelled. History's pagination bar is covered only as the button states and the caption.
- WebcamData.ParseInt: reads only a plain leading run of ASCII decimal digits. `parseInt` with no radix differs in four ways. It skips leading whitespace and reads a sign; the model reads both as NaN. It reads a "0x"/"0X" prefix as hexadecimal, so `parseInt("0x1A")` is 26 and `parseInt("0x")` is NaN, while the model gives 0 for both; "0x1A:30" thus renders "14:30 PM" in the hook and "12:30 AM" here. It also rounds digit runs too long to be exact in a double. The selector offers only the three "HH:MM" times, which contain none of these forms.
- MockData.NumberOf: accepts only ASCII digit text, with "" giving 0. `Number` also accepts surrounding whitespace, a sign, a decimal point, exponent forms ("1e1" is 10), "0x"/"0b"/"0o" prefixes and "Infinity"; the model reads all of these as NaN. The selector offers only the three "HH:MM" times, which contain none of these forms.
- MockData.SnapshotTime: keeps the hour and minute as given. `setHours` would roll an hour ≥ 24 or a minute ≥ 60 into the next day or hour.
- WebcamData.DayWindowBounds: reads each bound as the instant it writes out on the same calendar date. The database's text-to-timestamp conversion and time zone are not modelled.
- JsString.NatToDecimal: renders exact integers only. Exponent notation (from 10^21 up) and precision loss past 2^53 are not modelled.
