# apptweak-bot core, modelled in Dafny

apptweak-bot is a small Next.js application that proxies the AppTweak public
API for a dashboard page. This project models its core as pure Dafny
functions, methods and lemmas:

- **The selective metadata export** (`POST` on the selective-download route).
  - It validates the request and resolves each app's metadata, from the caller's cache or from one upstream request.
  - It writes the archive entries of each selected element: title, subtitle, description, icon, screenshots.
  - It writes one JSON summary per app, and `_ERROR` / `_NO_DATA` markers for apps without metadata.
  - The model covers both archive layouts: grouped by app, or grouped by element (`allInOne`).
  - It covers the screenshot numbering for both upstream shapes: a flat array, or an object keyed by device type sharing one counter.
- **The bulk metadata download** (`POST` on the metadata download route).
  - One request per app, made in sequence.
  - The `metadata` and `errors` objects, the `export_info` counts and the file name.
- **The three GET proxies**: metadata, current metrics and historical metrics.
  - Their checks, defaults and the parameters they forward.
  - The status they answer with, including the 402 branch for `NotEnoughCreditsError`.
- **The dashboard form** (`app/page.tsx`).
  - The app-ID and metric list operations, the trim-based validation before submitting, and the endpoint and query a submission uses.
  - The store the country list is loaded for.

Everything the outside world decides is a parameter:

- **Metadata requests.** The outcome of an upstream metadata request is a `Records.MetaResponse`: an answer with an optional `result` map, a non-2xx status with its error field, or a thrown exception.
- **GET proxies.** The outcome of a proxied GET is a `Records.Upstream`.
- **Icon downloads.** The outcome of each icon download is the set of element positions whose download succeeded.
- **Screenshot downloads.** The outcome of each screenshot download is the set of (element position, screenshot index) pairs that succeeded.

The archive is the sequence of entries appended to it: a name and what was
written under it. Downloaded bytes are represented by the URL they came from.

Modules, one per file:

| file | module | models |
|---|---|---|
| common.dfy | `Common` | `Option`/`Result`, JavaScript string truthiness, defaults for falsy values versus destructuring defaults, `URLSearchParams.get`, `join`/`split`, decimal rendering |
| language.dfy | `Language` | the country-to-language table and the metadata request parameters |
| records.dfy | `Records` | the upstream record shapes, the error envelope, request outcomes |
| layout.dfy | `Layout` | folder-name sanitising, archive entry names in both layouts, the `.png`/`.jpg` guess |
| archive.dfy | `Archive` | archive entries, the summary record, the multiset of entry names, marker counts |
| screenshots.dfy | `Screenshots` | screenshot download numbering, saved entries, diagnostics, the summary count |
| selective.dfy | `SelectiveExport` | the selective export route end to end |
| bulk.dfy | `BulkDownload` | the bulk download route end to end |
| metadata_route.dfy | `MetadataRoute` | the metadata GET proxy |
| metrics_route.dfy | `MetricsRoute` | the current-metrics GET proxy |
| history_route.dfy | `HistoryRoute` | the historical-metrics GET proxy |
| dashboard.dfy | `Dashboard` | the dashboard form state and submission |

Three behaviours of the code are easy to get wrong, and the model follows them:

- **Not every selected element leaves something in the archive.**
  - An absent or empty title, subtitle, description or icon writes nothing.
  - A failed icon download writes nothing.
  - An unknown element kind writes nothing.
  - Screenshots write one entry per successful download, or one note when there is none.
- **Not every failed app leaves a marker.** An app whose metadata request throws leaves no entry at all. This covers a network error, and an error body or answer that is not JSON. See `SelectiveExport.AppMarkers`.
- **Most routes do not tell a credits error apart.** Only the metadata and history GET routes answer 402 for `NotEnoughCreditsError`. The metrics route, the bulk download and the selective export treat every upstream failure alike.

## Model

| member | source | states |
|---|---|---|
| `Language.ValidLanguageForCountry` | app/api/apptweak/metadata/selective-download/route.ts:25-33 | the table's language for the 14 mapped countries, the requested language for every other country; empty only when the requested language is empty |
| `Language.MetadataParamsRead` | app/api/apptweak/metadata/selective-download/route.ts:68-76 | the upstream reads back the app, country and device as given; a `language` parameter is present exactly when the pair is not en/us (judged on the raw inputs) and carries the mapped language |
| `Records.ShotUrl` | app/api/apptweak/metadata/selective-download/route.ts:206-208 | a string item yields itself and an object its `url`, each exactly when non-empty; nothing else starts a download |
| `Records.Report` | app/api/apptweak/metadata/selective-download/route.ts:95 | the upstream error field is kept exactly when truthy; otherwise the text is `HTTP ` followed by digits that read back as the status, with no leading zero |
| `Layout.Sanitize` | app/api/apptweak/metadata/selective-download/route.ts:140 | same length, only `[a-zA-Z0-9-_]`, allowed characters kept in place, every other one replaced by `_` |
| `Layout.SanitizeFixedPoint` | app/api/apptweak/metadata/selective-download/route.ts:140 | a name is unchanged by sanitising exactly when it already uses only allowed characters |
| `Layout.SanitizeIdempotent` | app/api/apptweak/metadata/selective-download/route.ts:140 | sanitising twice equals sanitising once |
| `Layout.FolderName` | app/api/apptweak/metadata/selective-download/route.ts:140 | the folder is `title || appId` with every character outside `[a-zA-Z0-9-_]` replaced by `_`, so it is already sanitised and contains no `/` |
| `Layout.Extension` | app/api/apptweak/metadata/selective-download/route.ts:180 | `png` exactly when the URL contains `.png`, else `jpg` |
| `Layout.ExtensionOfInfix` | app/api/apptweak/metadata/selective-download/route.ts:180 | a URL containing `.png` anywhere, not only at its end, is saved as `png` |
| `Layout.ContainsAt` | app/api/apptweak/metadata/selective-download/route.ts:180 | `includes` holds exactly when the substring occurs at some position |
| `Layout.ContainsSplit` | app/api/apptweak/metadata/selective-download/route.ts:180 | a contained substring splits the string into prefix, substring and suffix |
| `Layout.ExtensionJpg` | app/api/apptweak/metadata/selective-download/route.ts:180 | a URL is saved as `jpg` exactly when `.png` occurs at no position of it |
| `Layout.SummaryPathIsNotElementPath` | app/api/apptweak/metadata/selective-download/route.ts:339-341 | no element entry of an app has the name of that app's summary, in either layout |
| `Screenshots.ItemJobs` | app/api/apptweak/metadata/selective-download/route.ts:204-236 | at most one download per item; each downloads the item at its index with that item's URL and device key; indices strictly increase |
| `Screenshots.ItemJobsComplete` | app/api/apptweak/metadata/selective-download/route.ts:204-208 | every item with a URL is downloaded under the index of its position |
| `Screenshots.GroupJobsFlatten` | app/api/apptweak/metadata/selective-download/route.ts:240-249 | the shared counter gives each object-shape item the index of its position in the concatenated device arrays; indices do not restart per device, and items without a URL still use one up |
| `Screenshots.JobsIncreasing` | app/api/apptweak/metadata/selective-download/route.ts:201-282 | in both shapes the downloads carry distinct, increasing indices from 1 |
| `Screenshots.ArrayShapeIndices` | app/api/apptweak/metadata/selective-download/route.ts:204-208 | array shape: download `n` is item `n - 1`, and every item with a URL is downloaded as its position plus one |
| `Screenshots.ObjectShapeIndices` | app/api/apptweak/metadata/selective-download/route.ts:240-249 | object shape: each download carries its item's device key and URL, and every item with a URL is downloaded |
| `Screenshots.TwoDevicesNumberedAcross` | app/api/apptweak/metadata/selective-download/route.ts:240-245 | two devices with two and three URLs give downloads numbered 1 to 5 |
| `Screenshots.GroupJobs` | app/api/apptweak/metadata/selective-download/route.ts:237-282 | the object shape's downloads are at most its array-valued items, with indices in the range the shared counter covers |
| `Screenshots.Jobs` | app/api/apptweak/metadata/selective-download/route.ts:201-282 | in either shape the downloads started are at most `screenshots_count`, and each index lies between 1 and that count |
| `Screenshots.FetchedJobs` | app/api/apptweak/metadata/selective-download/route.ts:201-286 | the succeeded downloads are exactly the started ones that succeeded, in start order, so their indices still increase |
| `Screenshots.Saved` | app/api/apptweak/metadata/selective-download/route.ts:215-228 | one entry per succeeded download, in start order, named after its index, device and extension and holding its URL; nothing exactly when no download succeeded |
| `Screenshots.SavedExactly` | app/api/apptweak/metadata/selective-download/route.ts:215-228 | an entry is saved exactly when it is the entry of a started download that succeeded, so no entry comes from a failed or unstarted download |
| `Screenshots.SavedIndicesIncreasing` | app/api/apptweak/metadata/selective-download/route.ts:201-286 | the saved screenshots carry distinct indices from 1, increasing in start order |
| `Screenshots.ScreenshotEntries` | app/api/apptweak/metadata/selective-download/route.ts:196-307 | absent data gives the `no_screenshots` note; data with no successful download gives the `download_issues` note; otherwise exactly the saved entry of each successful download |
| `SelectiveExport.Validate` | app/api/apptweak/metadata/selective-download/route.ts:6-22 | key, JSON body, non-empty `apps`, non-empty `selectedElements`, checked in that order, each failure exactly when its condition fails |
| `SelectiveExport.FetchParams` | app/api/apptweak/metadata/selective-download/route.ts:61-76 | nothing is fetched exactly when the caller supplied the app's metadata; otherwise the request names the app, the country and the device (with their defaults) and follows the language rule |
| `SelectiveExport.Resolve` | app/api/apptweak/metadata/selective-download/route.ts:58-131 | cached metadata first (unwrapping `.metadata`); a non-2xx answer becomes a failure report; an answer resolves to `result[appId]` exactly when it holds the app, else to no-data with the keys it has; a throw drops the app |
| `SelectiveExport.ElementEntries` | app/api/apptweak/metadata/selective-download/route.ts:143-316 | element entries never take the summary's name and are never summaries or markers |
| `SelectiveExport.UnknownElementIgnored` | app/api/apptweak/metadata/selective-download/route.ts:310-311 | an unknown element kind writes nothing |
| `SelectiveExport.TitleLayout` | app/api/apptweak/metadata/selective-download/route.ts:146-153 | a truthy title gives one text entry at `title/{folder}.txt` or `{folder}/title/title.txt`; no title gives nothing |
| `SelectiveExport.SubtitleLayout` | app/api/apptweak/metadata/selective-download/route.ts:155-162 | the same for the subtitle under its own name |
| `SelectiveExport.DescriptionLayout` | app/api/apptweak/metadata/selective-download/route.ts:164-172 | the description, or the long description when it is not truthy; nothing when neither is |
| `SelectiveExport.IconLayout` | app/api/apptweak/metadata/selective-download/route.ts:174-190 | a truthy icon whose download succeeded gives one entry, `png` exactly when the URL contains `.png`; a failed download gives nothing |
| `SelectiveExport.ScreenshotsLayout` | app/api/apptweak/metadata/selective-download/route.ts:196-307 | the `screenshots` element writes exactly the saved screenshots of its position, or the single note |
| `SelectiveExport.ElementsFrom` | app/api/apptweak/metadata/selective-download/route.ts:143-319 | none of the entries of all selected elements is a summary, an error marker, or named like the summary |
| `SelectiveExport.ElementsFromMembers` | app/api/apptweak/metadata/selective-download/route.ts:143-319 | the entries from a position on are exactly those written by the selected elements at or after it |
| `SelectiveExport.MakeSummary` | app/api/apptweak/metadata/selective-download/route.ts:322-338 | the summary names the app, its title and the selected elements; each `has_*` flag is the truthiness of its field (`description || long_description` for the description); `screenshots_type` is `array` for an array, `object` for an object or `null`, `undefined` when absent and the scalar's `typeof` otherwise; the count bounds the downloads started, is the length for an array and 0 for a missing or scalar value |
| `SelectiveExport.SummaryMatchesEntries` | app/api/apptweak/metadata/selective-download/route.ts:322-338 | the `has_title`, `has_subtitle` and `has_description` flags are set exactly when that element writes an entry; `has_icon` follows the icon URL alone, and an icon is written exactly when the flag is set and its download succeeded; `has_screenshots` is clear exactly when the `no_screenshots` note is written |
| `SelectiveExport.AppEntries` | app/api/apptweak/metadata/selective-download/route.ts:56-346 | an app contributes no entry at all only when an exception ended its processing |
| `SelectiveExport.AppElements` | app/api/apptweak/metadata/selective-download/route.ts:143-338 | an app with metadata contributes its selected elements' entries plus one summary name; its non-summary entries are exactly those its selected elements write |
| `SelectiveExport.AppMarkers` | app/api/apptweak/metadata/selective-download/route.ts:88-131 | a non-2xx answer gives exactly the `{appId}_ERROR` marker; an answer without the app gives exactly the `{appId}_NO_DATA` marker; a thrown request gives nothing |
| `SelectiveExport.AppSummary` | app/api/apptweak/metadata/selective-download/route.ts:322-342 | an app with metadata gets exactly one summary, as its last entry, under a name no other entry of the app carries, with the right screenshot count |
| `SelectiveExport.Export` | app/api/apptweak/metadata/selective-download/route.ts:5-350 | the route refuses exactly when validation fails, with validation's reason; a produced archive has one summary per app with metadata, one error marker per failed request and one no-data marker per app the answer lacks |
| `SelectiveExport.ExportMembers` | app/api/apptweak/metadata/selective-download/route.ts:56-350 | a produced archive holds exactly the entries of the listed apps |
| `SelectiveExport.ExportStatus` | app/api/apptweak/metadata/selective-download/route.ts:6-22 | an archive is produced exactly when key, body, apps and elements are present, whatever the upstream does; otherwise 401, then 500 for a non-JSON body, then 400 |
| `SelectiveExport.AppCounts` | app/api/apptweak/metadata/selective-download/route.ts:56-346 | one app adds one summary exactly when its metadata resolved, one error marker exactly when its request failed, and one no-data marker exactly when the answer lacked it |
| `SelectiveExport.ExportCounts` | app/api/apptweak/metadata/selective-download/route.ts:56-350 | the archive holds one summary per app with metadata, one error marker per failed request and one no-data marker per app the answer lacked |
| `SelectiveExport.ArchiveNameFields` | app/api/apptweak/metadata/selective-download/route.ts:359-360 | the archive name ends in `.zip` and splits on `_` back into the prefix, the selected elements and the date |
| `BulkDownload.FetchParams` | app/api/apptweak/metadata/download/route.ts:50-59 | each request names its app, the country and the device (with their defaults) and follows the language rule |
| `BulkDownload.Outcome` | app/api/apptweak/metadata/download/route.ts:71-80 | an app is a success exactly when its answer is 2xx; the record when present, the whole answer otherwise; failures keep the error report, or the exception message or `Unknown error` |
| `BulkDownload.Collect` | app/api/apptweak/metadata/download/route.ts:47-82 | processing the apps in order, the last app always ends up as a key of one of the two objects |
| `BulkDownload.FetchAll` | app/api/apptweak/metadata/download/route.ts:47-82 | the loop builds exactly the objects of processing the apps in order |
| `BulkDownload.CollectKeys` | app/api/apptweak/metadata/download/route.ts:47-82 | an app is a key of `metadata` exactly when one of its requests succeeded, of `errors` exactly when one failed |
| `BulkDownload.CollectCovers` | app/api/apptweak/metadata/download/route.ts:47-82 | every listed app is a key of one of the two objects, and nothing else is |
| `BulkDownload.CollectPartition` | app/api/apptweak/metadata/download/route.ts:93-95 | with distinct app IDs the objects share no key and `successful_apps + failed_apps == total_apps` |
| `BulkDownload.CollectValues` | app/api/apptweak/metadata/download/route.ts:71-80 | with distinct app IDs each app's entry holds its own outcome |
| `BulkDownload.RepeatedIdCountedOnce` | app/api/apptweak/metadata/download/route.ts:93-95 | a repeated app ID is counted once, so the counts no longer add up to `total_apps` |
| `BulkDownload.FileNameFields` | app/api/apptweak/metadata/download/route.ts:100-101 | the file name ends in `.json` and splits on `_` back into prefix, country, device and date |
| `BulkDownload.Download` | app/api/apptweak/metadata/download/route.ts:4-97 | 401, 500 and 400 exactly on their conditions, and a file exactly when none applies; on success the objects of the loop, `errors` left out exactly when every request succeeded, and the counts and defaults of `export_info` |
| `MetadataRoute.Plan` | app/api/apptweak/metadata/route.ts:4-57 | key then `apps` checked; missing or empty values default to us, iphone, en; the language rule on the defaulted values |
| `MetadataRoute.Respond` | app/api/apptweak/metadata/route.ts:7-90 | 401, 400, 402 exactly for `NotEnoughCreditsError`, 500 for every other failure, 200 for an answer |
| `MetricsRoute.Plan` | app/api/apptweak/metrics/route.ts:4-22 | key, then both `apps` and `metrics`; forwards apps, metrics, country, device in that order with defaults |
| `MetricsRoute.Respond` | app/api/apptweak/metrics/route.ts:7-43 | 401, 400, 200 for an answer, 500 for every failure; never 402 |
| `HistoryRoute.Plan` | app/api/apptweak/metrics/history/route.ts:4-28 | key, then `apps` and `metrics`, then both dates; forwards the six parameters in order |
| `HistoryRoute.Respond` | app/api/apptweak/metrics/history/route.ts:7-59 | 401, 400, 402 exactly for the credits error, 500 for other failures, 200 for an answer |
| `Dashboard.Initial` | app/page.tsx:33-39 | the page starts with one blank app ID, no metrics, us, iphone, not historical and no dates |
| `Dashboard.AddAppId` | app/page.tsx:97-104 | one blank input is appended only below five; existing inputs and the rest of the form are kept; at most five inputs |
| `Dashboard.DropAt` | app/page.tsx:108 | filtering by index drops exactly the element at an index inside the list and nothing otherwise |
| `Dashboard.RemoveAppId` | app/page.tsx:107-113 | the given input is removed; an emptied list becomes one blank input; the list is never empty |
| `Dashboard.UpdateAppId` | app/page.tsx:116-123 | the length is kept, the given input takes the value, every other input is unchanged |
| `Dashboard.RemoveAll` | app/page.tsx:128 | the result holds every other value as often as before and the removed value not at all |
| `Dashboard.RemoveAllConcat` | app/page.tsx:128 | removing from a concatenation is removing from each part, so the kept values stay in order |
| `Dashboard.RemoveAllSingle` | app/page.tsx:128 | a single value is kept exactly when it differs from the removed one |
| `Dashboard.ToggleMetric` | app/page.tsx:126-135 | membership of the metric flips, every other metric's count is unchanged, a duplicate-free list stays duplicate-free |
| `Dashboard.ToggleTwice` | app/page.tsx:126-135 | toggling an unchecked metric twice restores the form; on a duplicate-free list it keeps the contents |
| `Dashboard.Trim` | app/page.tsx:144 | the result is the middle of the string after white space is stripped from both ends, and it neither starts nor ends with white space |
| `Dashboard.TrimBlank` | app/page.tsx:144 | an ID trims to nothing exactly when all its characters are JavaScript white space |
| `Dashboard.ValidIds` | app/page.tsx:144 | the kept IDs are exactly the listed IDs that do not trim to nothing |
| `Dashboard.ValidIdsConcat` | app/page.tsx:144 | the kept IDs of a concatenation are the kept IDs of each part, so order and repetitions are kept |
| `Dashboard.ValidIdsSingle` | app/page.tsx:144 | a single ID is kept exactly when it does not trim to nothing |
| `Dashboard.Submit` | app/page.tsx:139-177 | key, then a non-blank ID, then a metric, then both dates if historical, each alert exactly on its condition; the history endpoint exactly when historical |
| `Dashboard.SubmitQuery` | app/page.tsx:168-177 | the sent query reads back the joined non-blank IDs, the joined metrics, the country and the device; it has a start date exactly when historical, and then both dates as chosen |
| `Dashboard.SubmitForwarded` | app/page.tsx:168-177 | a submitted request passes the targeted route's checks and is forwarded upstream with the same parameters in the same order |
| `Dashboard.SubmittedAppsSplit` | app/page.tsx:168-177 | the `apps` value splits on `,` back into the non-blank IDs when none contains a comma |
| `Dashboard.Store` | app/page.tsx:57 | `android` exactly when the device is `android`, else `ios` |
| `Dashboard.CountriesQuery` | app/page.tsx:53-58 | no request without an API key; otherwise the store parameter |

## Left out

- **Network and I/O.** The fetches themselves, the ZIP encoder (`archiver`), the JSON serialisation and layout, and the HTTP response headers are left out. Request outcomes are parameters, and archive contents are abstract.
- **Clocks.** `export_date`, `exported_at`, `timestamp` and the date part of file names come from the clock. The date is a parameter of the file-name functions and is absent from the summary.
- **Concurrency and entry order.** The selective export runs its apps, elements and screenshot downloads concurrently. The model appends entries in list order: the set of entries and their names are modelled, their order in the archive is not.
- **Archive finalisation and stream errors.** These are the 500 of the outer catch after validation. The model always produces the archive.
- **Logging and UI.**
  - Console logging is left out.
  - So are React rendering, `localStorage`, the DOM button-text change and `setTimeout`.
  - So are the number formatting on the page and the page's response handling after `fetch`.
- **The countries and languages routes.** They are pure pass-throughs with defaults and state nothing worth proving.
- **`null` screenshot items.** A screenshot item that is `null` or `undefined` makes `screenshot.url` throw, which ends the element's processing midway. Items are modelled as strings or objects; a number or boolean item reads `url` as `undefined` and behaves as an object without `url`.
- **Non-string fields.** Record fields are modelled as strings. A title, subtitle, description or icon that is a number or an object, and app IDs that are not strings, are left out.
- **JavaScript object keys.** The language table is a JavaScript object, so a country such as `constructor` finds an inherited property; the table is modelled as a plain map. For the object screenshot shape, the device groups are given in key order; the reordering of integer-like keys by `Object.entries` is not modelled.
- **URL encoding.** Query parameters are modelled as key/value pairs. `URLSearchParams` encoding is not modelled. Neither is the unencoded interpolation in the metrics and history URLs and on the page, where a value containing `&` or `=` would change the parameters.
- `Layout.Sanitize`: JavaScript's regular expression replaces UTF-16 code units, so a character outside the Basic Multilingual Plane becomes two `_`. The model works on Unicode scalar values and gives one.
- `Layout.FolderName`: the folder's length equals the title's length in scalar values, not in UTF-16 code units, for the same reason.
- `Dashboard.UpdateAppId`: requires an index inside the list. The page only calls it with the index of a rendered input; an index past the end would leave `undefined` holes that a list of strings cannot hold.
- `Dashboard.SubmitForwarded`: assumes non-empty metric names, country, device and dates, as the page's option lists and date rendering always give. An empty metric list entry would make the route answer 400.
- `BulkDownload.Outcome`: `WholeResponse` keeps the answer's `result` property only. The route stores the whole parsed answer body.
- **Dead code.** The second `if (!appData)` check in the selective export (selective-download route, lines 134-137) cannot fire: cached metadata is a record, and a fetched one was already checked. It has no counterpart.
- **The unused `format` field** of the bulk request body has no counterpart.
