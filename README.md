# DRC-Platform backend rules, modelled in Dafny

DRC-Platform is a disaster-response coordination service: an Express backend over a
Supabase (Postgres) store, and a Next.js front end. This project models its request
handlers once every remote service is reduced to the outcome it returns.

- **The cache-aside enrichment handlers.** These are geocoding, social-media posts,
  external resources (Overpass), nearby resources (a store function), official FEMA
  updates and image verification. All six share one `cache` table.
  - The table is the class `CacheStore.CacheTable` over a `map` from key to row.
  - Each row holds a payload and an absolute expiry in milliseconds.
  - The invariant `Valid()` says that each key namespace (`geocode:`,
    `social_media:`, ...) holds only its own feature's payload shape.
  - Each handler is a method. It takes the upstream outcome as a parameter and
    returns the reply (status, body, `cached` flag) plus the upstream request it
    made, if any. Its `ensures` give the reply and the new table for every path:
    validation error, fresh hit, upstream success (upsert for one hour), upstream
    failure.
- **The bounded retry of the Nominatim lookup.** The loop is the method
  `Geocode.GeocodeWithOsm`. It is proved equal to the recursive specification
  `Geocode.RetryFrom`, whose contract is the retry policy.
- **The response-shaping transforms.** These are the keyword filter with its
  placeholder fallback, the Overpass element mapping and its 20-item cap, FEMA link
  normalisation, row filtering and the 5-item cap, and search-keyword assembly.
- **The disaster and report records.**
  - `disasters` is a class over a `seq` of rows with unique ids.
  - `reports` is a class over a `map` keyed by id.
  - The rules covered are required-field checks, the field-by-field `??` merge of an
    update, the audit trail, and owner-only update and delete of reports.
- **Listing and retention.**
  - The listing is a pure query: a tag filter, then an insertion sort on
    `created_at`, newest first. It is proved sorted and a permutation of the
    matching rows.
  - The seven-day sweep of pending disasters is a loop that deletes rows in place.
- **Small front-end and configuration rules.** These are the CORS origin decision,
  the form's duplicate-free tag list, and the `POINT(lon lat)` location text.

JavaScript semantics are written out where they matter:
- truthiness of optional strings (`Common.Given`);
- `??` as `Common.Otherwise`;
- `split`/`join` with one-character separators;
- ASCII `trim` and `toLowerCase`;
- numbers known by their text (`Common.JsNumber`), where `0` and `NaN` are falsy.

Times are integer milliseconds. Every handler takes `now` as a parameter. The upsert
uses that same `now` as `Date.now()`.

## Model

| member | source | states |
|---|---|---|
| CacheStore.Put | backend/src/controllers/geocodeController.ts:118-122 | the upsert replaces the row of its key with the payload and expiry `now + ttl`, and leaves every other row as it was |
| CacheStore.ReadAfterWrite | backend/src/controllers/geocodeController.ts:94-97 | a row written at `now` with a TTL is a hit at time `t` exactly when `t < now + ttl`, and yields the written payload |
| CacheStore.CacheTable.Lookup | backend/src/controllers/geocodeController.ts:88-92 | the lookup finds the row stored under the key, and nothing when there is none |
| CacheStore.CacheTable.Upsert | backend/src/controllers/geocodeController.ts:118-122 | the table becomes `Put` of the old table, and each namespace still holds only its own payload shape |
| Geocode.RetryFrom | backend/src/controllers/geocodeController.ts:51-66 | attempts run up to the budget; every attempt before the last failed with ECONNABORTED, ETIMEDOUT or ENOTFOUND; the last one did not retry; the outcome is the first match, null for an empty answer, or the last error |
| Geocode.RetryPolicy | backend/src/controllers/geocodeController.ts:48-69 | at most `maxRetries` requests; only the three transient codes cause another request; an empty answer ends with null and no retry; a transient error on the last attempt is thrown |
| Geocode.GeocodeWithOsm | backend/src/controllers/geocodeController.ts:48-69 | the `for` loop with `lastError` gives exactly the run the retry specification defines, including the thrown null when the budget is zero |
| Geocode.GeocodeKey | backend/src/controllers/geocodeController.ts:87 | the key lies in the `geocode:` namespace and the place name reads back after it, so distinct names never share a row |
| Geocode.SimplifiedIsHead | backend/src/controllers/geocodeController.ts:103-104 | the simplified name is the text before the first comma: a prefix without a comma, and strictly shorter when the name has a comma |
| Geocode.Geocode | backend/src/controllers/geocodeController.ts:72-129 | 400 without a description and 404 without an extracted name, both before any cache read; a fresh row is served with `cached: true` and no request; otherwise the full name is looked up, then the head before the first comma only when the first lookup found nothing; a match is upserted under `geocode:<name>`; no match gives 404 and an error gives 500, both naming the location and leaving the cache as it was |
| SocialMedia.Keyword | backend/src/controllers/socialMediaController.ts:37-38 | the keyword is the tag when one is given, and the disaster id otherwise |
| SocialMedia.SocialKey | backend/src/controllers/socialMediaController.ts:39 | the key lies in the `social_media:` namespace, so it never reaches another feature's rows |
| SocialMedia.MatchingPosts | backend/src/controllers/socialMediaController.ts:62-68 | a post is kept exactly when some timeline item's text contains the keyword, ignoring ASCII case; never more posts than items |
| SocialMedia.MatchingPostsInOrder | backend/src/controllers/socialMediaController.ts:62-68 | filtering distributes over concatenation, so kept posts keep the timeline's order |
| SocialMedia.FeedResult | backend/src/controllers/socialMediaController.ts:69-76 | the source is `mock` with the placeholder list exactly when no item mentions the keyword, and `bluesky` with the matches otherwise; the list is never empty |
| SocialMedia.GetSocialMedia | backend/src/controllers/socialMediaController.ts:35-95 | a fresh row is served before the credential check; missing credentials give 500; a read timeline is upserted for 60 minutes, placeholder included; a failed read serves any stored row, even an expired one, with `cached: true`, or else the placeholder list, and never an error status |
| ExternalResources.BuildOverpassQuery | backend/src/controllers/externalResourceController.ts:12-22 | a 25-second query with node, way and relation clauses, all sharing one amenity, radius, latitude and longitude |
| ExternalResources.RenderedQuery | backend/src/controllers/externalResourceController.ts:12-22 | the built query renders as the template: a 25-second timeout, then node, way and relation lines in that order, all with the same amenity, radius, latitude and longitude |
| ExternalResources.RequestedType | backend/src/controllers/externalResourceController.ts:29 | the type is the given one, or `hospital` when absent or empty, so it is never empty |
| ExternalResources.ExternalKey | backend/src/controllers/externalResourceController.ts:37 | the key lies in the `external_resources:` namespace, so it never reaches another feature's rows |
| ExternalResources.MapElement | backend/src/controllers/externalResourceController.ts:59-66 | the id is kept; a non-empty name or address tag is copied and a missing or empty one becomes null; a non-empty amenity becomes the type and otherwise the requested type does; a truthy own coordinate is kept and a falsy one is replaced by the center's, or null without a center |
| ExternalResources.ToResources | backend/src/controllers/externalResourceController.ts:59-67 | the first twenty elements are mapped, in upstream order |
| ExternalResources.ResourcesAreTyped | backend/src/controllers/externalResourceController.ts:62 | every returned resource has a non-empty type |
| ExternalResources.GetExternalResources | backend/src/controllers/externalResourceController.ts:25-81 | a NaN coordinate gives 400 before any cache read or request; the key is `external_resources:<id>:<lat>:<lon>:<type>:<radius>`; a hit sends no query; success caches and returns the same resources for one hour; failure gives 500 and leaves the cache unchanged |
| NearbyResources.NearbyKey | backend/src/controllers/resourceController.ts:17 | the key lies in the `resources:` namespace, so it never reaches another feature's rows |
| NearbyResources.SpellingsGetDistinctKeys | backend/src/controllers/resourceController.ts:17 | the key uses the raw query text, so two spellings of one latitude get different keys |
| NearbyResources.GetNearbyResources | backend/src/controllers/resourceController.ts:10-54 | a missing or empty lat or lon gives 400; a hit makes no call; the call always uses radius 10000; a reported error gives 500 with its message and a thrown one gives 500 `Resource lookup failed`, both with no cache write; success caches and returns the same rows |
| ImageVerification.ImageKey | backend/src/controllers/imageVerificationController.ts:17 | the key is in the `image_verification:` namespace |
| ImageVerification.Summary | backend/src/controllers/imageVerificationController.ts:52 | the summary is the model's text, or null when that text is absent or empty |
| ImageVerification.VerifyImage | backend/src/controllers/imageVerificationController.ts:10-67 | a missing `image_url` gives 400; a hit returns the stored verdict with `cached: true`; a missing API key or a failed download or analysis gives 500 carrying the URL and leaves the cache unchanged; success caches and returns the same verdict |
| OfficialUpdates.AbsoluteLink | backend/src/controllers/officialUpdatesController.ts:41 | a link starting with `/` gets `https://www.fema.gov` in front; any other link is unchanged; the result never starts with `/` |
| OfficialUpdates.AbsoluteLinkIdempotent | backend/src/controllers/officialUpdatesController.ts:41 | normalising a normalised link changes nothing |
| OfficialUpdates.ToItem | backend/src/controllers/officialUpdatesController.ts:39-44 | a row yields an item exactly when its trimmed title and its link are non-empty; the fields are the trimmed texts and the normalised link |
| OfficialUpdates.Items | backend/src/controllers/officialUpdatesController.ts:38-45 | every kept item has a title and a link that does not start with `/`; never more items than rows |
| OfficialUpdates.ItemsMembers | backend/src/controllers/officialUpdatesController.ts:38-45 | the items are exactly the items of the qualifying rows |
| OfficialUpdates.CollectItems | backend/src/controllers/officialUpdatesController.ts:38-45 | the `each` loop that pushes items builds exactly the page's items, in order |
| OfficialUpdates.PageUrl | backend/src/controllers/officialUpdatesController.ts:14 | page 0 is the press-release base URL itself; every later page `p` is that URL followed by `?page=p` in decimal |
| OfficialUpdates.PageUrlsDistinct | backend/src/controllers/officialUpdatesController.ts:13-14 | different pages get different URLs, so a run over `n` pages requests `n` distinct pages |
| OfficialUpdates.ScrapeThrowsIff | backend/src/controllers/officialUpdatesController.ts:13-24 | the paginated scrape throws exactly when some page request fails |
| OfficialUpdates.DefaultPageUrls | backend/src/controllers/officialUpdatesController.ts:10-14 | called without a page count, the scraper reads the base listing page and then `?page=1` |
| OfficialUpdates.FetchFemaUpdates | backend/src/controllers/officialUpdatesController.ts:10-27 | pages 0 to `pages-1` are requested in order, all of them when none fails; the result concatenates their items; the loop stops at the first failing page, which is the last one requested, and every page before it was read |
| OfficialUpdates.Keywords | backend/src/controllers/officialUpdatesController.ts:31 | the terms are the tags, then the place name, then the title, with empty ones dropped and order kept |
| OfficialUpdates.SearchTextSplits | backend/src/controllers/officialUpdatesController.ts:31-32 | when no term holds a space, the space-joined search text splits back into the terms |
| OfficialUpdates.FetchFemaUpdatesForDisaster | backend/src/controllers/officialUpdatesController.ts:30-51 | the search is for the joined terms; at most the first five items are kept; a failed search yields no items rather than an error |
| OfficialUpdates.UpdatesKey | backend/src/controllers/officialUpdatesController.ts:56 | the key lies in the `official_updates:` namespace and the disaster id reads back after it, so two disasters never share a row |
| OfficialUpdates.GetOfficialUpdates | backend/src/controllers/officialUpdatesController.ts:54-92 | a fresh row is served before the disaster lookup; an unknown disaster gives 404 with nothing cached; otherwise one `FEMA` group of at most five items is returned, not marked as cached, and cached under `official_updates:<id>` for one hour |
| DisasterStore.Find | backend/src/controllers/disasterController.ts:45 | the lookup by id finds a row with that id, and finds nothing exactly when no row has it |
| DisasterStore.Replace | backend/src/controllers/disasterController.ts:59 | the row with the id is replaced; the set of ids and their uniqueness are kept; nothing changes when the id is absent |
| DisasterStore.FindAfterReplace | backend/src/controllers/disasterController.ts:59 | after an update the id finds the new row, and every other id finds what it found before |
| DisasterStore.Remove | backend/src/controllers/disasterController.ts:66 | the rows left are exactly those with another id |
| DisasterStore.DisasterTable.Get | backend/src/controllers/disasterController.ts:45 | the lookup finds the row with the id, and nothing exactly when no row has it |
| DisasterStore.DisasterTable.Update | backend/src/controllers/disasterController.ts:59 | the stored row with the id becomes the given row; the other rows and the unique ids are kept |
| DisasterStore.DisasterTable.Insert | backend/src/controllers/disasterController.ts:25 | an insert under a taken id is refused with the primary-key error and changes nothing; otherwise the row is appended |
| DisasterStore.DisasterTable.Delete | backend/src/controllers/disasterController.ts:66 | the row with the id is removed and returned, if there was one |
| Disasters.NewDisaster | backend/src/controllers/disasterController.ts:14-24 | the new row carries the given fields, the creation time and exactly one `create` audit entry attributed to the owner |
| Disasters.Editor | backend/src/controllers/disasterController.ts:56 | an update is attributed to the supplied owner id when it is truthy, and to the row's owner otherwise |
| Disasters.MergeAttribution | backend/src/controllers/disasterController.ts:47-57 | the one new trail entry is an `update` at the request time by the supplied owner, or else the row's owner, while the row's owner itself never changes |
| Disasters.Merge | backend/src/controllers/disasterController.ts:47-58 | title, place name, location, description and tags are replaced only when supplied; id, owner, creation time and status are kept; one `update` entry is appended, attributed to the supplied owner or else the current one |
| Disasters.MergeNothing | backend/src/controllers/disasterController.ts:47-58 | an update supplying nothing changes nothing but the trail |
| Disasters.MergeExtendsTrail | backend/src/controllers/disasterController.ts:54-57 | the old trail, or an empty one when it is missing, stays as a prefix and gains exactly one `update` entry |
| Disasters.MergeCompose | backend/src/controllers/disasterController.ts:47-58 | two updates in a row leave the content one update with the later value of each field leaves, and add two trail entries in order |
| Disasters.CreateDisaster | backend/src/controllers/disasterController.ts:8-28 | a missing title, place name, description, tags array or owner gives 400 and no write, while the location is optional; otherwise the new row is inserted and returned with 201 |
| Disasters.UpdateDisaster | backend/src/controllers/disasterController.ts:41-62 | an unknown id gives 404 and no write; otherwise the merged row replaces the stored one and is returned |
| Disasters.DeleteDisaster | backend/src/controllers/disasterController.ts:64-69 | no row with the id is the store's error sent as 404; otherwise the row is removed and its id echoed; afterwards no row has the id |
| DbDisasters.InsertByDate | backend/src/controllers/dbDisasterController.ts:7 | inserting into a newest-first sequence keeps it newest-first and adds exactly that row |
| DbDisasters.SortNewestFirst | backend/src/controllers/dbDisasterController.ts:7 | the result is ordered by `created_at` descending and is a permutation of the input |
| DbDisasters.Listing | backend/src/controllers/dbDisasterController.ts:7-11 | the listing is newest-first and a permutation of the rows carrying the tag, or of all rows without one |
| DbDisasters.ListingMembers | backend/src/controllers/dbDisasterController.ts:8-10 | a row is listed exactly when it is in the table and its tags contain the requested tag, if any |
| DbDisasters.ListingWithoutTag | backend/src/controllers/dbDisasterController.ts:7-11 | without a tag every row is listed exactly once |
| DbDisasters.GetDbDisasters | backend/src/controllers/dbDisasterController.ts:5-14 | a store error gives 500 with its message and no list; otherwise 200 with a newest-first permutation of the matching rows |
| Cleanup.KeptMembers | backend/scripts/cleanup_pending_disasters.js:8-13 | a row survives exactly when it is not pending or was created at or after now minus seven days |
| Cleanup.CutoffSurvives | backend/scripts/cleanup_pending_disasters.js:8-12 | a pending row created exactly at the cutoff survives |
| Cleanup.SweepPartitions | backend/scripts/cleanup_pending_disasters.js:9-13 | every row is either kept or deleted, never both |
| Cleanup.SweepIdempotent | backend/scripts/cleanup_pending_disasters.js:9-13 | a second sweep at the same instant deletes nothing more |
| Cleanup.DeleteStalePending | backend/scripts/cleanup_pending_disasters.js:9-13 | the loop leaves exactly the non-stale rows in their order, keeps ids unique, and returns the deleted rows |
| Cleanup.CleanupPendingDisasters | backend/scripts/cleanup_pending_disasters.js:7-19 | a store error exits with status 1 and deletes nothing; otherwise stale rows are deleted and the logged count is their number, or 0 when the store returns no rows |
| Reports.NewReport | backend/src/controllers/reportController.ts:15-23 | a new report is `pending` and belongs to the authenticated user, who may then edit it |
| Reports.AuthorlessIsLocked | backend/src/controllers/reportController.ts:43-45 | a report stored without an author can be changed by no one |
| Reports.MergeReport | backend/src/controllers/reportController.ts:46-51 | content, image and status are replaced only when supplied; id, disaster, author and creation time are kept |
| Reports.MergeReportNothing | backend/src/controllers/reportController.ts:46-51 | an update supplying nothing leaves the report unchanged |
| Reports.MergeReportIdempotent | backend/src/controllers/reportController.ts:43-51 | repeating an update changes nothing more, and no update changes who may edit the report |
| Reports.ReportTable.Get | backend/src/controllers/reportController.ts:38-41 | the lookup finds the report stored under the id, and nothing exactly when there is none |
| Reports.ReportTable.Update | backend/src/controllers/reportController.ts:52 | the report under its id is replaced and every other report is kept |
| Reports.ReportTable.Delete | backend/src/controllers/reportController.ts:73 | exactly the report under the id is removed |
| Reports.ReportTable.Insert | backend/src/controllers/reportController.ts:24 | an insert under a taken id is refused with the primary-key error; otherwise the report is added under its id |
| Reports.CreateReport | backend/src/controllers/reportController.ts:8-30 | missing content gives 400 and no write; otherwise the new report is stored and returned with 201 |
| Reports.UpdateReport | backend/src/controllers/reportController.ts:33-58 | an unknown id gives 404; anyone but the author gets 403 and the report is unchanged; the author's merged report is stored and returned |
| Reports.DeleteReport | backend/src/controllers/reportController.ts:61-79 | an unknown id gives 404; anyone but the author gets 403 and nothing changes; the author's delete removes exactly that report and echoes its id |
| Cors.AllowedOrigins | backend/src/index.ts:28 | unset or empty configuration gives the local front end; otherwise the untrimmed comma-separated entries, which join back to the setting |
| Cors.Decide | backend/src/index.ts:31-37 | a request without an origin is allowed; an origin is allowed exactly when it is an entry or some entry is `*`; any other origin is rejected with `Not allowed by CORS` |
| Cors.SingleOrigin | backend/src/index.ts:28-37 | configured with one origin, the server admits exactly that spelling |
| Cors.DefaultAdmitsLocalOnly | backend/src/index.ts:28-37 | without configuration only `http://localhost:3000` is admitted |
| DisasterForm.AddTag | frontend/components/DisasterForm.tsx:80-88 | only Enter with non-blank input acts; the trimmed text is appended at the end unless present; the input is cleared either way |
| DisasterForm.AddTagKeepsClean | frontend/components/DisasterForm.tsx:81-85 | the tag list stays trimmed, non-blank and duplicate-free |
| DisasterForm.AddTagSettles | frontend/components/DisasterForm.tsx:80-88 | a second Enter right after an added tag changes the list no further |
| DisasterForm.WktRoundTrip | frontend/components/DisasterForm.tsx:52 | the location text `POINT(<lon> <lat>)` reads back as the same coordinates, longitude first |
| DisasterForm.Submit | frontend/components/DisasterForm.tsx:44-60 | without geocoded coordinates the form stops with its message before any request; otherwise it sends its fields, the point text and the user's id |
| DisasterForm.SubmitMeetsCreateCheck | frontend/components/DisasterForm.tsx:53-60 | a geocoded form passes the server's required-field check exactly when title, place and description are filled and a user is signed in |

## Left out

- Remote services are outcome parameters, not calls. These are Gemini (location
  extraction and image analysis), Nominatim, Overpass, Bluesky login and timeline, the
  FEMA pages and the store's `get_nearby_resources` function. HTTP headers, client
  timeouts and the model prompts are not modelled.
- `extractLocationWithGemini` is not modelled. Its result (trimmed text, or null) is
  the `extracted` parameter of `Geocode.Geocode`.
- HTML scraping with cheerio is not modelled. A page is given as its rows' raw texts
  and `href`.
- Percent-encoding of the FEMA search text is not modelled. The search outcome is
  keyed by the unencoded joined terms.
- The Overpass query is built as a structure by `ExternalResources.BuildOverpassQuery`
  and rendered by `Render`. White space in the rendered text is modelled as the
  template has it.
- `parseFloat`, `parseInt` and the float values themselves are not modelled. Numbers
  are known by the text JavaScript renders for them, and the caller supplies the
  parsed values.
- Disasters.NewDisaster: gives `created_at` and the `create` audit entry the same
  instant `now`. The source reads the clock twice, and the two readings can differ
  by the time between them.
- ISO timestamps are integer milliseconds. Comparing ISO texts and comparing
  instants are taken to agree.
- Cache read errors count as misses, as in the source. The source never checks
  whether a cache upsert succeeded, so upserts always succeed in the model.
- Store failures other than the ones modelled are left out. The modelled ones are a
  primary-key clash on insert, a missing row on `.single()`, the listing's and the
  sweep's reported error, and the nearby-resources error. Left out are:
  - connection errors;
  - the 500 replies that disaster update and report update and delete send for a
    failed write;
  - the 500 replies of disaster and report create for store errors other than a
    primary-key clash;
  - every store error of disaster delete other than the missing row. The source
    sends all of them as 404 with the store's message, and the model's 404 carries
    only the missing-row message.
- A `get_nearby_resources` answer with null data is not modelled. The rows are always
  a list.
- The 500 reply of `getOfficialUpdates` (`Failed to fetch official updates`) is left
  out. The source reaches it only when `encodeURIComponent` throws a URIError, which
  runs before the search's own `try`. That happens when a tag, the place name or the
  title holds a lone UTF-16 surrogate, such as a tag made of the single code unit
  U+D800. The model's strings are sequences of Unicode scalar values and cannot hold
  one. Every other failure is caught by the search itself or is not thrown.
- `fetchFemaUpdates` is modelled, but no handler calls it.
- `SocialMedia.MatchingPosts` bounds the kept posts by the number of timeline items,
  not by 10: the `limit: 10` is enforced by the upstream timeline request.
- `SocialMedia.GetSocialMedia` does not model the Bluesky posting agent: login and
  timeline are one outcome.
- Socket.IO broadcasts, all logging, the rate limiter and the route wiring are left
  out. So are the Next.js API proxies, the GCS upload and all UI rendering.
- Concurrency is left out: concurrent misses, last-write-wins upserts, and lost audit
  updates under concurrent edits. Each handler is one sequential step.
- `getDisasterById` is not part of this model: the routes import it, but the
  controller does not define it.
- `getDisasters` and `getDbDisasters` run the same query. Both are
  `DbDisasters.GetDbDisasters`.
- A disaster row whose `tags` is null (`disaster.tags \|\| []`) is not modelled.
  Rows always carry a tag list, which create requires.
- The `status` a new disaster receives comes from a column default that the source
  does not show. It is the `defaultStatus` of `DisasterStore.DisasterTable`.
- Case-insensitive matching and `trim` cover ASCII only. Unicode case folding and
  Unicode white space are not modelled.
- Report update and delete do not check that the report belongs to the disaster in
  the path, and neither does the model.
