# TikTok search viewer — verified model of its core

This is a Dafny model of the logic in a small Next.js site that searches
TikTok through a third-party API and shows the results.

**The search route** (`GET /api/search`) does the following:
- checks its input;
- requests five pages from the upstream API in parallel, at fixed offsets;
- normalises each page's JSON, and turns any failed page into a missing page;
- folds the settled pages in offset order into one result. The fold removes repeated video ids and keeps only videos whose creation time falls inside the publish-time window. It reports four counters: pages fetched, videos checked, videos filtered out, and the last quota reading.

**The password gate** (`middleware.ts`) redirects a request to `/login` exactly when a site password is set, the `site-auth` cookie is missing or does not equal it, and the path is neither `/api/auth` nor `/login`. Every other request passes through. A path matcher keeps static assets out of the gate.

**The result card** (`VideoCard`) and **the playback overlay** (`VideoModal`) each build an ordered list of fallback URLs. Each runs a small state machine that moves to the next URL when the current one fails to load.
- The card also buckets the age of a video into a relative-date label.
- The overlay also handles previous/next navigation and its keyboard shortcuts.

## Layout

| file | module | what it holds |
|---|---|---|
| `wrappers.dfy` | `Wrappers` | `Option`, `Result`, and `Field`, a JSON property that is missing, `null`, or a value |
| `text.dfy` | `Text` | substring search, decimal rendering, and query-string lookup |
| `seqs.dfy` | `Seqs` | `Filter`, concatenation of the present lists, and the subsequence relation |
| `tiktok.dfy` | `TikTok` | the item shapes and the `PublishTime` filter values |
| `date_range.dfy` | `DateRange` | the publish-time window and the membership test |
| `page_fetch.dfy` | `PageFetch` | one upstream request's query string, and how its reply is normalised |
| `search_plan.dfy` | `SearchPlan` | input defaults, the two input errors, and the five-page plan |
| `aggregation.dfy` | `Aggregation` | the reduction loop `Reduce`, its specification `Aggregate`, and their properties |
| `search_route.dfy` | `SearchRoute` | the whole `GET`, with the network as a parameter |
| `middleware.dfy` | `Middleware` | the redirect decision and the path matcher |
| `video_card.dfy` | `VideoCard` | cover URL list, relative-date buckets, and the cover fallback state |
| `video_modal.dfy` | `VideoModal` | playable URL list, navigation, keys, and the player state |

### How the model represents the source

- **Time.** Instants are integer milliseconds since the epoch.
  - The server's local time zone is a fixed offset in `Clock(now, utcOffset)`.
  - A local calendar day is a whole 24-hour block of shifted time.
  - The route's midnight and end-of-day setters become `StartOfDay(day)` and `StartOfDay(day + 1) - 1`.
  - `new Date(create_time)` becomes `Option<int>`, where `None` is an invalid date.
- **Upstream replies.** The upstream API is the function parameter `upstream: PageRequest -> Reply`.
  - A reply is either a network fault or a status with a body that parsed (or did not).
  - A JSON property that is missing, `null`, or present is a `Field`. This keeps apart what `||`, `??` and `!== undefined` each test.
- **The reduction loop.** `Aggregation.Reduce` is the loop over the settled pages, and `Aggregation.FoldItems` is its inner loop over one page's items. Together they keep the source's seen-id set, counters, and output list, updated item by item. `Reduce` is proved equal to the recursive specification `Aggregate`. The promised properties are proved about `Aggregate`.
- **The UI components.** Each component's state is a class:
  - `CoverImage` holds the card's URL index and error flag.
  - `Player` holds the overlay's URL list, index, and loading/error flags.

  Each state handler is a method with a `modifies` clause.

### Behaviour of the code worth knowing

- **Query check.** The query test is `!query`, so only a missing or empty query is rejected (400). A query of spaces passes through to the upstream API (`ParseRequest`).
- **The `all-time` filter.** It accepts before any window is computed. It is therefore not the same as the window from the epoch to the end of today: it also keeps future items, pre-1970 items and invalid dates (`InRange`, `AggregateAllTime`).
- **Unrecognised filters.** A `publish_time` outside the six declared values is still forwarded upstream. Locally it gets the window from the epoch to the end of today (`InRangeUnrecognized`).
- **`has_more` and a `null` cursor.** `has_more` falls back to `cursor !== undefined`, so an explicit `null` cursor reports more pages (`NullCursorReportsMore`).
- **The favicon pattern.** The `.` in the matcher's `favicon.ico` is an unescaped regular-expression wildcard, so `/favicon-ico` also bypasses the gate (`FaviconDotIsWildcard`).
- **Navigation from index -1.** The overlay's `currentIndex` comes from `findIndex` and may be -1. The navigation bound holds from -1 as well (`NavigationStaysInList`).

## Model

| member | source | states |
|---|---|---|
| `TikTok.ParsePublishTime` | types/tiktok.ts:97-103 | a raw filter string maps to a declared value exactly when it is one of the six wire names, and that value's wire name is the string; anything else is kept as unrecognised |
| `TikTok.WireNameRoundTrip` | types/tiktok.ts:97-103 | every declared filter value parses back from its wire name |
| `DateRange.StartOfDay` | app/api/search/route.ts:21 | the instant is local midnight of the given day: it lies in that day and the millisecond before lies in the previous day |
| `DateRange.WindowFor` | app/api/search/route.ts:8-62 | the window ends at the last millisecond of today for every filter; it starts at local midnight 1, 7, 30, 90 or 180 days before today for the bounded filters, and at the epoch for `all-time` and unrecognised values |
| `DateRange.InRange` | app/api/search/route.ts:65-74 | `all-time` accepts every item; any other filter accepts exactly the valid instants with start <= t <= end |
| `DateRange.InRangeByCalendarDay` | app/api/search/route.ts:65-74 | a bounded filter accepts an instant iff its local calendar day is today or one of the k days before it |
| `DateRange.InRangeUnrecognized` | app/api/search/route.ts:53-58 | an unrecognised filter accepts exactly the instants from the epoch up to the end of today |
| `DateRange.WindowLength` | app/api/search/route.ts:16-52 | a bounded window spans exactly k + 1 whole days (48 hours for `yesterday`) |
| `DateRange.WindowContainsNow` | app/api/search/route.ts:9-11 | the current instant is inside every window (for epoch-based windows, when the clock is not before 1970) |
| `DateRange.WindowsNest` | app/api/search/route.ts:16-52 | a longer look-back accepts everything a shorter one accepts |
| `DateRange.BoundsAreInclusive` | app/api/search/route.ts:73 | both window ends are accepted and the instants just outside them are rejected |
| `Text.DecimalRoundTrip` | app/api/search/route.ts:91 | the decimal text of an offset reads back as that offset |
| `PageFetch.QueryParamsCarryRequest` | app/api/search/route.ts:84-92 | the query string carries the query, raw filter, sort key and region `US`; `cursor` is present iff an offset is given, and then carries that offset |
| `PageFetch.CursorParamRoundTrip` | app/api/search/route.ts:90-92 | the `cursor` parameter reads back as the requested offset |
| `PageFetch.FetchPage` | app/api/search/route.ts:100-110 | a page results exactly from a 2xx reply with a parsed body; missing or null `items` become the empty list, `has_more` is the upstream boolean when given and otherwise "a cursor property is present"; cursor and credits pass through |
| `PageFetch.NullCursorReportsMore` | app/api/search/route.ts:108 | a body with a `null` cursor and no `has_more` reports more pages |
| `SearchPlan.OrDefault` | app/api/search/route.ts:116-117 | a missing or empty parameter takes the default, any other value is kept |
| `SearchPlan.ParseRequest` | app/api/search/route.ts:114-132 | fails iff the query or the API key is missing or empty; a bad query is the 400 error and takes precedence over the key's 500; otherwise it forwards the query and key unchanged, with `publish_time` defaulting to `this-week` and `sort_by` to `most-liked` |
| `SearchPlan.PlannedCursors` | app/api/search/route.ts:137-140 | five page slots; slot k is offset k * 30, and slot 0 is sent without a cursor |
| `SearchPlan.PageRequests` | app/api/search/route.ts:139-140 | five requests in offset order, all carrying the same key, query, filter and sort key |
| `SearchPlan.CursorParamOnlyAfterFirstPage` | app/api/search/route.ts:140 | exactly the first request lacks a `cursor` parameter; request k carries offset k * 30 |
| `Aggregation.Reduce` | app/api/search/route.ts:150-177 | the loop computes `Aggregate` of the settled pages: a failed page is skipped, a successful one is counted, sets the credit counter and has its items folded in |
| `Aggregation.FoldItems` | app/api/search/route.ts:163-176 | folding one page's items into the state left by the earlier items gives the seen ids, output, checked count and filtered-out count of the stream extended by that page |
| `Aggregation.RepeatedIdStep` | app/api/search/route.ts:165 | an item whose id was already seen changes neither the seen ids nor the first occurrences, so no counter and no output moves |
| `Aggregation.NewIdStep` | app/api/search/route.ts:166-175 | an item with a new id adds its id, becomes a new first occurrence, and goes to the output when the window accepts it and to the filtered-out count otherwise |
| `Aggregation.FirstOccurrencesIds` | app/api/search/route.ts:151-166 | deduplication keeps every id once and no id twice |
| `Aggregation.DistinctIdsCount` | app/api/search/route.ts:151-168 | in a list with no repeated id, the number of ids equals the number of items |
| `Aggregation.FirstOccurrencesOfDistinct` | app/api/search/route.ts:163-166 | a list with no repeated ids loses nothing to deduplication |
| `Aggregation.FirstOccurrenceMembers` | app/api/search/route.ts:163-166 | an item survives deduplication iff it occurs at a position where no earlier item has its id |
| `Aggregation.FirstOccurrencesIsSubseq` | app/api/search/route.ts:163-166 | deduplication keeps order: its output is a subsequence of its input |
| `Aggregation.FirstIndexIsFirst` | app/api/search/route.ts:163-166 | no position before `FirstIndexOf(s, id)` carries `id`, so it is the first position of the id, or the length when the id is absent |
| `Aggregation.FirstOccurrencesInOrder` | app/api/search/route.ts:163-166 | each kept item is the first item carrying its id, and the kept items are listed in strictly increasing order of those first positions |
| `Aggregation.WindowPartition` | app/api/search/route.ts:171-175 | every checked item is either accepted or filtered out |
| `Aggregation.AcceptedMembers` | app/api/search/route.ts:171-172 | an item is kept iff it was checked and the window accepts it |
| `Aggregation.AcceptedIsSubseq` | app/api/search/route.ts:171-172 | the kept items are in the order they were checked |
| `Aggregation.AcceptedIncreasing` | app/api/search/route.ts:171-172 | filtering by the window keeps any strictly increasing order of its input |
| `Aggregation.AcceptedInFirstOrder` | app/api/search/route.ts:171-172 | filtering a list of first items in first-appearance order leaves a list of first items in first-appearance order |
| `Aggregation.AllTimeAcceptsAll` | app/api/search/route.ts:66-68 | under `all-time` every item is kept and none is filtered out |
| `Aggregation.SubseqKeepsDistinct` | app/api/search/route.ts:172 | dropping items from a list with no repeated ids leaves no repeated id |
| `Aggregation.SuccessCountCounts` | app/api/search/route.ts:157-160 | `pagesFetched` is the number of successful page results; the failed ones make up the rest |
| `Aggregation.NoSuccessNoCredits` | app/api/search/route.ts:154 | when every page failed, the credit counter keeps its initial 0 |
| `Aggregation.LastCreditsIsLastSuccess` | app/api/search/route.ts:157-161 | once some page succeeded, the credit counter is that of the last successful page in offset order |
| `Aggregation.AggregateCounts` | app/api/search/route.ts:152-175 | filtered-out count plus returned count equals `totalVideosChecked`, which is the number of distinct ids across the successful pages, and `pagesFetched` counts the successful pages |
| `Aggregation.AggregateItems` | app/api/search/route.ts:150-175 | the returned items have no repeated id and are all inside the window; each is the first item with its id in page-then-upstream order, and they are listed in the order their ids first appear there |
| `Aggregation.AggregateMembers` | app/api/search/route.ts:163-172 | an item is returned iff it is the first with its id in offset order and the window accepts it |
| `Aggregation.AggregateAllTime` | app/api/search/route.ts:66-68 | under `all-time` nothing is filtered out; if no id repeats, every item of every successful page is returned, in order |
| `Aggregation.AggregateCredits` | app/api/search/route.ts:154-161 | the reported credits are 0 when every page failed, otherwise those of the last successful page |
| `SearchRoute.Settle` | app/api/search/route.ts:139-147 | one settled result per request, in request order, each the normalised reply to that request |
| `SearchRoute.Get` | app/api/search/route.ts:113-188 | an input error answers with no page requested; otherwise exactly the five planned requests are sent and the response is the reduction of their settled replies |
| `SearchRoute.ResponseBounds` | app/api/search/route.ts:137-186 | a successful response reports at most five pages fetched and satisfies the counting identity |
| `SearchRoute.OneFailedPage` | app/api/search/route.ts:141-160 | when one of the five pages fails, four pages are counted as fetched |
| `Middleware.Decide` | middleware.ts:4-34 | redirect to `/login` iff a password is set, the cookie does not carry it, and the path is neither `/api/auth` nor `/login`; every other request passes |
| `Middleware.Gate` | middleware.ts:44 | a request is redirected iff the matcher selects its path and the middleware redirects it |
| `Middleware.ExcludedPathsPass` | middleware.ts:44 | paths starting with `/_next/static`, `/_next/image` or `/favicon.ico` always pass |
| `Middleware.FaviconDotIsWildcard` | middleware.ts:44 | `/favicon-ico` is excluded from the gate too, because the pattern's `.` is a wildcard |
| `Middleware.NoRedirectLoop` | middleware.ts:29-33 | the target of any redirect is itself never redirected |
| `VideoCard.GetCoverUrls` | components/VideoCard.tsx:35-55 | the usable URLs of the five cover sources, in preference order, each source in its own order |
| `VideoCard.CoverCandidates` | components/VideoCard.tsx:39-52 | a URL is a candidate iff some source lists it, it is non-empty, and it lacks the watermark marker |
| `VideoCard.RelativeDate` | components/VideoCard.tsx:21-33 | today for 0 whole days, yesterday for 1, days for other values below 7 (negative for future dates), 1 to 4 weeks for 7 to 29 days, the calendar date beyond that or for an invalid date |
| `VideoCard.CoverImage.constructor` | components/VideoCard.tsx:58-60 | a new card starts at the first candidate with no error, and its candidates are all usable |
| `VideoCard.CoverImage.ShowsImageExactly` | components/VideoCard.tsx:70-79 | the image is shown iff there is a candidate and no error, and then it shows a usable URL |
| `VideoCard.CoverImage.HandleImageError` | components/VideoCard.tsx:62-68 | a failure moves to the next candidate while one exists; on the last one it records the error and keeps the index; the index stays within the list |
| `VideoModal.GetVideoUrls` | components/VideoModal.tsx:33-52 | every bit-rate variant's URLs in order, then the direct play address, reduced to the non-empty URLs containing `tiktokcdn` or `tiktokv` anywhere in their text, with order and duplicates kept |
| `VideoModal.PlayCandidates` | components/VideoModal.tsx:36-51 | a URL is offered iff some source lists it and it is playable |
| `VideoModal.GoToPrev` | components/VideoModal.tsx:63-70 | `hasPrev` holds iff the index is above 0; navigation back is requested exactly then, and always to the index minus one |
| `VideoModal.GoToNext` | components/VideoModal.tsx:64-76 | `hasNext` holds iff the index is below the list length minus one; navigation forward is requested exactly then, and always to the index plus one |
| `VideoModal.NavigationStaysInList` | components/VideoModal.tsx:63-76 | from any index in -1 .. n-1 the requested index lies in 0 .. n-1 |
| `VideoModal.OnKeyDown` | components/VideoModal.tsx:86-90 | Escape closes and nothing else does; the arrows act as previous/next; other keys do nothing; at most one effect per key |
| `VideoModal.Player.constructor` | components/VideoModal.tsx:55-61 | the player starts on the first playable URL, loading, with no error |
| `VideoModal.Player.ShownPlayerHasUrl` | components/VideoModal.tsx:168 | whenever the player is shown, the current URL exists and is playable |
| `VideoModal.Player.ShowVideo` | components/VideoModal.tsx:79-83 | a new video id recomputes the URLs and resets to index 0, loading, no error; the same id changes nothing |
| `VideoModal.Player.HandleVideoError` | components/VideoModal.tsx:100-107 | a failure moves to the next URL while one exists, otherwise records the error and keeps the index; the index stays within the list |
| `VideoModal.Player.HandleVideoLoad` | components/VideoModal.tsx:109-111 | loading ends and nothing else changes |

## Left out

- The HTTP call, the `x-api-key` header, and `Promise.all`. The network is the `upstream` parameter and pages settle independently. Concurrency is not modelled.
- The `try`/`catch` 500 answer of the route. With every page already settled and `items` always a list, the model has no path that throws.
- Items that are not objects, and `items`, `url_list` or `bit_rate` values that are JSON but not arrays. Each field is either missing, `null`, or of its declared type.
- Parsing `create_time` into a date. An item carries the resulting instant, or `None` for an invalid date.
- Daylight-saving time. The local time zone is a fixed offset, so every local day is 24 hours long.
- Aggregation.Reduce: one clock reading serves every item of the request. The source reads the clock again for every item, which can only matter when a request straddles midnight.
- VideoCard.RelativeDate: the label text, including `toLocaleDateString`, is not modelled; `DiffDays` uses exact integer division where the source divides floating-point milliseconds before flooring.
- `formatNumber` in both components, because it relies on floating-point division and `toFixed`.
- Reading `TIKTOK_API_KEY` and `SITE_PASSWORD` from the environment. Both are parameters.
- `VIDEOS_PER_PAGE`, which is never used, and `MAX_PAGES`, which only slices the five-entry offset table (the model slices it too).
- The details of how the framework compiles the matcher. The model reads it as an anchored JavaScript regular expression over the path.
- VideoCard.CoverImage: the candidate list is fixed when the card is created. The source recomputes it from its `video` prop on every render, so a new item object with the same id and other cover URLs would switch lists while keeping its index and error flag; the model does not capture that.
- VideoModal.Player.ShowVideo: the source recomputes the URL list from its `video` prop on every render. The model recomputes it only when the id changes, so a new object with the same id keeps its old list.
- React rendering, effects that run one frame late, DOM listeners, and the body-overflow toggle.
- The rest of the site: the page shell, grid, search form, login page, `/api/auth` route, and layout. They hold presentation and glue, not core logic.
