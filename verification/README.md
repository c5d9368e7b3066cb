# PharmaSource Pro: realtime marketplace search, dashboards and navigation

A Dafny model of the core of PharmaSource Pro, an internal pharmaceutical
sourcing tool built with Next.js. The model covers:

- **The realtime search of the CPHI Online marketplace**, behind
  `POST /api/search`. Four header profiles are tried in turn against the
  marketplace's JSON search endpoint, within a time budget. Only products
  and companies are kept. A slice of the products is enriched through the
  sharded per-product detail endpoint: chunks of three requests, up to three
  attempts per product, with staggered delays. A window of the hits is then
  returned as output records. Each record's detail-page URL comes from the
  hit's link or url, or else from a slug of its name.
- **The data-source label** of a supplier row in the database search.
- **The sales dashboard endpoint.** Requests are paired with their tasks,
  tallied by effective status, and up to five recently completed ones are
  listed.
- **The middleware** that guards protected pages and sends signed-in users
  to their department's dashboard.
- **The header's navigation**: which links each department sees, and which
  one is highlighted.
- **The sourcing-request list page**: status badge, delete button and pager.
- **The realtime panel of the search page.** The first crawl fetches 30
  records, and each "show more" fetches 300 more from the current offset.

Everything the program gets from outside is a parameter:

- The marketplace is two oracles. `attempt(i)` is what header profile `i`
  gets back. `detail(k)` is what the three attempts for the `k`-th
  enrichment candidate get back.
- The clock is an oracle too: `elapsed(i)` is the time spent when profile
  `i` is about to be tried.
- Database queries are values that hold either rows or an error message.
- Whether a user is signed in, and their department row, are plain inputs.

Each operation is written the way the source computes it and checked
against an independent description:

- a reference definition (`FirstAnswer`, `Reference`, `EnrichedList`,
  `Respond`, `Count`, `LastTaskIndex`, `FirstMatch`);
- an inverse (the decimal id read back from its sharded path);
- an invariant the operation keeps (the search page stays in step with
  the hits; the pager stays in range).

One observation comes out of the proofs. The extended crawl picks its
enrichment candidates by rank in the product list. It cuts the returned
window from the list of products and companies together. With companies
among the hits, the two ranges drift apart: the records returned are not
the ones enriched (`Crawl.EnrichmentMissesWindow`). The model keeps this
behaviour as written.

## Model

| member | source | states |
|---|---|---|
| Slug.Slugify | src/app/api/search/route.ts:10-18 | whatever the name, the slug uses only `a-z`, `0-9` and `-`, has no two adjacent hyphens, and neither starts nor ends with a hyphen |
| Slug.KeepSlugChars | src/app/api/search/route.ts:14 | the special-character pass leaves only slug characters and white space, and never lengthens the text |
| Slug.ReplaceRuns | src/app/api/search/route.ts:15-16 | the empty text stays empty and nothing else becomes empty; the first character becomes a hyphen exactly when it belongs to the replaced class and is kept otherwise; every other output character is a hyphen or an input character outside the class; after the hyphen pass no two hyphens touch |
| Slug.StripHyphenEnds | src/app/api/search/route.ts:17 | the result is the input with at most one character dropped at each end: the first exactly when it is a hyphen, the last only when it is a hyphen; on text without double hyphens the result neither starts nor ends with a hyphen |
| Slug.SlugifyFixesSlugs | src/app/api/search/route.ts:10-18 | a name that already is a slug comes out unchanged |
| Slug.SlugifyIdempotent | src/app/api/search/route.ts:10-18 | slugifying a slug a second time changes nothing |
| Slug.ReplaceRunsAlnums | src/app/api/search/route.ts:15-16 | collapsing runs of white space or hyphens keeps every letter and digit, in order |
| Slug.SlugifyKeepsAlnums | src/app/api/search/route.ts:10-18 | the slug is made of the name: its letters and digits are exactly the name's lower-cased ASCII letters and digits, in the same order |
| Slug.KeepSlugCharsByChar | src/app/api/search/route.ts:14 | the special-character pass works character by character: it distributes over concatenation and keeps a single character exactly when it is a slug character or white space |
| Slug.ReplaceRunsKeepsChar | src/app/api/search/route.ts:15-16 | a leading character outside the replaced class is copied and the rest of the text is processed on its own |
| Slug.ReplaceRunsLeadingRun | src/app/api/search/route.ts:15-16 | a maximal leading run of the class becomes exactly one hyphen and the rest of the text is processed on its own |
| Slug.ReplaceRunsSplit | src/app/api/search/route.ts:15-16 | a run of the class between two pieces of text free of it becomes exactly one hyphen, both pieces kept unchanged |
| Slug.SlugifyJoinsWords | src/app/api/search/route.ts:10-18 | two slugs with white space between them slugify to the two slugs joined by a single hyphen |
| Upstream.Absolutize | src/app/api/search/route.ts:239-242 | the URL made from a link always starts with "http", is the link itself or the marketplace host followed by it, keeps a link that already starts with "http", and ends with the link |
| DetailFetch.DecimalRoundTrip | src/app/api/search/route.ts:45 | reading back the decimal string of an id gives the id |
| DetailFetch.ShardRoundTrip | src/app/api/search/route.ts:45-48 | for an id below one million the three path segments are two digits each, and joined they are the id zero-padded to six digits, which reads back as the id |
| DetailFetch.LongIdShard | src/app/api/search/route.ts:45-50 | for an id of a million or more the id has more than six digits and the three segments are only its first six |
| DetailFetch.DetailUrlNamesId | src/app/api/search/route.ts:45-50 | every detail URL is a sharded prefix of fixed length (each segment two characters, for short and long ids alike), then the id in decimal, then `_46.json?v=21` |
| DetailFetch.DetailUrlInjective | src/app/api/search/route.ts:45-50 | two items request the same detail URL exactly when they have the same id: the id is readable back from its URL |
| DetailFetch.FetchDetail | src/app/api/search/route.ts:56-76 | one to three attempts; the loop stops at the first 2xx response and keeps its body, or makes all three and has no body; it waits 1000 ms, then 2000 ms, between attempts but never after the last |
| DetailFetch.ApplyDetailSpec | src/app/api/search/route.ts:78-92 | a 2xx detail response changes only company, country, company types, verified and exact link; company is the supplier, else the company name, and is empty only when both are; verified is never empty; a non-empty string link becomes an absolute exact link ending in it, and any other link leaves the exact link alone |
| DetailFetch.EnrichItem | src/app/api/search/route.ts:43-99 | one candidate's enrichment agrees with the reference outcome; it succeeds exactly when the item has an id, a 2xx answer with a parseable payload arrives, and the payload's link is not a truthy non-string (whose `startsWith` call throws); whenever such a payload arrives its fields are written, even when the link then throws and the candidate counts as failed; without one the item stays as it was; an item without an id makes no request; no 2xx answer means three attempts and failure |
| DetailFetch.NoOkMeansFirstOkNone | src/app/api/search/route.ts:56-76 | no attempt getting a 2xx answer is the same as the retry loop finding none |
| Enrichment.PartitionChunks | src/app/api/search/route.ts:26-29 | the list is cut into ceil(n / size) non-empty consecutive slices; all but the last hold exactly `size` items, the last ends at the end of the list, and there are none only for an empty list |
| Enrichment.ChunksJoin | src/app/api/search/route.ts:26-29 | chunks laid out that way join back into the original list: no candidate is lost, repeated or reordered |
| Enrichment.EnrichChunk | src/app/api/search/route.ts:39-107 | one chunk moves the progress on by exactly its candidates, each enriched as on its own and waiting `200 * j` ms for its position `j` in the chunk; the chunk's successes add to the total and are at most its size |
| Enrichment.RunChunk | src/app/api/search/route.ts:34-114 | running chunk `c` after the chunks before it brings the progress to where chunk `c + 1` starts, or to the end of the list after the last chunk |
| Enrichment.CollectDetailInfoParallel | src/app/api/search/route.ts:21-125 | the whole enrichment gives every candidate exactly its own outcome and delay, counts every candidate as an attempt, and pauses 1200 ms between consecutive chunks only, ceil(n / size) - 1 times |
| Enrichment.EnrichedCandidate | src/app/api/search/route.ts:39-98 | after the whole enrichment, the `k`-th candidate is itself enriched on its own, and it waited `(k mod size) * 200` ms inside its chunk |
| Enrichment.EnrichedCandidates | src/app/api/search/route.ts:34-115 | after the whole enrichment, every candidate is itself enriched on its own, whatever the chunk size |
| Enrichment.AllSucceeded | src/app/api/search/route.ts:103-107 | the success count reaches the number of candidates exactly when every candidate was enriched successfully |
| Normalize.FilterKindsMembers | src/app/api/search/route.ts:223-225 | a hit survives the kind filter exactly when it was among the hits and its type is "product" or "company" |
| Normalize.ProductAtRank | src/app/api/search/route.ts:228 | a product of the filtered list sits, in the product list, at its rank (the number of products before it) |
| Normalize.RankAtMostPosition | src/app/api/search/route.ts:228 | a product's rank in the product list never exceeds its position in the filtered list |
| Normalize.DeriveUrl | src/app/api/search/route.ts:236-254 | the link wins over the url, and the url over the slug page of a named product or company; the URL is empty exactly when none of these exists, and otherwise starts with "http" |
| Normalize.UrlIgnoresExactLink | src/app/api/search/route.ts:236-254 | the exact link written by enrichment plays no part in the record's URL |
| Normalize.UrlUnchangedByEnrichment | src/app/api/search/route.ts:236-254 | enriching an item never changes the URL of its record |
| Normalize.SlugNameKept | src/app/api/search/route.ts:245-248 | a product with neither link nor url whose name is already a slug gets the page `/product/<name>/` on the marketplace host |
| Normalize.IdOrIndex | src/app/api/search/route.ts:257 | a record keeps a non-zero id; a missing id or the id 0 becomes the record's index in the window |
| Normalize.Present | src/app/api/search/route.ts:256-272 | a record carries the hit's name, score and filter value, the derived URL and the realtime source label; company is empty exactly when the hit has neither company nor supplier, and the company wins over the supplier; verified is never empty |
| Normalize.EnrichedCompanyShown | src/app/api/search/route.ts:265 | after a successful enrichment the record shows the detail's supplier, else its company name; only when the detail names neither does the search hit's own supplier show |
| Crawl.FirstAnswerSpec | src/app/api/search/route.ts:189-291 | the profile whose answer is used is the first one tried within the time budget that gets JSON back; there is none exactly when no profile reached within the budget gets JSON |
| Crawl.HeaderFallback | src/app/api/search/route.ts:189-291 | the profile loop ends with the first JSON answer among the profiles it reached; every profile tried was within budget; an early stop without an answer means the budget ran out; every profile after the first waits 1000 ms |
| Crawl.WriteBackIsEnrichment | src/app/api/search/route.ts:228-233 | writing the candidates' updates back into the filtered list gives the reference: each product whose rank lies in the target range is enriched on its own, and every other hit is untouched |
| Crawl.EnrichFiltered | src/app/api/search/route.ts:228-233 | enriching the target slice of the product list in place leaves the filtered list as the reference enriched list |
| Crawl.WriteBackAll | src/app/api/search/route.ts:231-233 | the updates written back position by position give the filtered list with each candidate's update at that candidate's position |
| Crawl.Window | src/app/api/search/route.ts:235-273 | the window holds as many records as the slice bounds allow, and record `k` is the hit `k` places past the window's start, numbered `k` |
| Crawl.RealtimeCrawl | src/app/api/search/route.ts:129-319 | with a JSON answer, the crawl answers the reference response for that answer's kind-filtered hits; with no profile answering, it answers "CPHI API 접근 불가" |
| Crawl.ExtendedAnswer | src/app/api/search/route.ts:275-285 | for a non-negative limit and offset: count is the number of records, is at most the limit, and is what remains past the offset, capped at the limit; total available counts every filtered hit; "has more" holds exactly when hits remain past offset + limit |
| Crawl.ExtendedRecord | src/app/api/search/route.ts:228-273 | record `k` of an extended answer is the hit at `offset + k`, numbered `k`, and enriched only when it is a product whose rank lies in `[offset, offset + min(50, limit))` |
| Crawl.BasicAnswer | src/app/api/search/route.ts:408-470 | the basic crawl returns the first 30 hits, numbered from 0, with the first 20 products enriched; "has more" holds exactly when there are more than 30 hits |
| Crawl.NothingEnrichedBeforeWindow | src/app/api/search/route.ts:228-235 | no hit before the extended window's offset is ever enriched |
| Crawl.EnrichmentMissesWindow | src/app/api/search/route.ts:228-235 | for the hits company, product, product with offset 1 and limit 1: the one record returned is the first product unenriched, while the single detail request enriches the second product, which is not returned |
| Crawl.ExtendedContinues | src/app/api/search/route.ts:235-285 | every extended answer succeeds; it holds one record per filtered hit from the offset on, in order, with that hit's URL, at most `limit` of them; total available counts all hits; "has more" says whether hits remain past the window |
| DataSource.Classify | src/app/api/search/route.ts:792-822 | the source is unknown exactly when neither URL names cphi, pharmacompass or pharmaoffer; a named source's URL contains that site's name; an unknown source keeps the supplier URL, or "" when there is none |
| DataSource.ClassifyIsFirstMatch | src/app/api/search/route.ts:702-724 | the chain is a first-match search: the supplier URL is tried against cphi, pharmacompass, pharmaoffer in that order, then the product URL against pharmaoffer, cphi, pharmacompass |
| DataSource.SupplierUrlDecides | src/app/api/search/route.ts:796-805 | a supplier URL that names any of the three sites decides alone: the product URL is never consulted, and the supplier URL is kept |
| DataSource.OrdersDisagree | src/app/api/search/route.ts:702-724 | a URL naming both cphi and pharmaoffer is labelled CPHI Online as a supplier URL but PharmaOffer as a product URL |
| Department.DashboardPath | src/middleware.ts:88-90 | every department has a dashboard under "/dashboard/": sales and trade their own, every other department, admin included, the admin dashboard |
| Department.Label | src/components/Header.tsx:126-127 | the label is 영업부 exactly for sales, 무역부 exactly for trade, and 관리자 for every other department |
| Department.LabelMatchesDashboard | src/components/Header.tsx:48-50 | the header's department label and the department's dashboard always name the same branch |
| Middleware.ProtectedIff | src/middleware.ts:62-63 | a path is protected exactly when it starts with /dashboard, /sourcing, /tasks, /manual or /admin; the landing page "/" is not protected |
| Middleware.AuthPathIff | src/middleware.ts:76-77 | a path is an auth path exactly when it is "/" itself or starts with /login or /signup |
| Middleware.ProtectedNeverAuth | src/middleware.ts:62-77 | no path is both protected and an auth path |
| Middleware.Decide | src/middleware.ts:59-95 | a signed-out visitor is redirected to the landing page exactly on a protected path, with the path remembered; a signed-in user is redirected to their department's dashboard exactly on an auth path when their row exists; everything else passes |
| Middleware.NoRedirectLoop | src/middleware.ts:65-92 | neither redirect leads to another: a signed-in user's dashboard, and the landing page for a signed-out visitor, both pass through |
| Navigation.VisibleLinks | src/components/Header.tsx:45-92 | the links shown, in order: sales sees dashboard, sourcing and search; trade sees dashboard, search and tasks; admin sees all four; any other department sees the admin dashboard and search |
| Navigation.NewRequestBesideSourcing | src/components/Header.tsx:112 | the "new request" shortcut is offered exactly to the department that sees the sourcing list but not the task list |
| Navigation.AtMostOneActive | src/components/Header.tsx:74 | whatever the current path, at most one visible link is highlighted |
| Navigation.LandingHighlightsDashboard | src/components/Header.tsx:45-74 | a signed-in user sent away from the login page lands on the target of their dashboard link; that link is shown, and no other shown link is highlighted there |
| SalesDashboard.TasksMap | src/app/api/dashboard/sales/route.ts:47-51 | a request id has a task exactly when some task names it, and then it is the last such task |
| SalesDashboard.BucketsPartition | src/app/api/dashboard/sales/route.ts:69-81 | every request falls in exactly one of pending, in progress, completed or uncounted |
| SalesDashboard.Tally | src/app/api/dashboard/sales/route.ts:59-81 | each of the three counts is the number of requests in that bucket, total is the number of requests, and the three counts never exceed the total |
| SalesDashboard.RecentCompleted | src/app/api/dashboard/sales/route.ts:100-106 | the recent list is the first five rows whose first task is completed, in query order, each dated by its task's completion and else by the request's last update |
| SalesDashboard.FewCompletedAllListed | src/app/api/dashboard/sales/route.ts:100-106 | with at most five completed rows, every one of them is listed |
| SalesDashboard.Get | src/app/api/dashboard/sales/route.ts:4-118 | 401 exactly when not signed in; 403 exactly when signed in but not in sales; 500 exactly when a sales user's query fails; otherwise the bucket counts and the recent list of the queried rows |
| SourcingStatus.EffectiveStatus | src/app/api/dashboard/sales/route.ts:71 | the first task's status counts when present and non-empty; otherwise the request's own status |
| SourcingList.StatusBadge | src/app/sourcing/page.tsx:84-93 | a known status gets its own badge; any other status is shown as it is, in gray |
| SourcingList.SameBadge | src/app/sourcing/page.tsx:84-93 | two statuses share a badge only when equal, or when one is "pending" and the other is literally its label 대기중 |
| SourcingList.ShownStatus | src/app/sourcing/page.tsx:178 | a row shows its first task's status when there is a non-empty one, and else its own |
| SourcingList.DeletableBadge | src/app/sourcing/page.tsx:178-191 | a deletable row shows its own status (no task yet) or the raw "unassigned" in gray; a row showing a known status other than its own cannot be deleted |
| SourcingList.TotalPages | src/app/sourcing/page.tsx:51 | the page count is never 0: a missing or zero count becomes 1, any other is kept |
| SourcingList.Press | src/app/sourcing/page.tsx:224-242 | with one page or fewer the pager does nothing; "previous" moves one page back but not below 1; "next" moves one page on but not past the last |
| SourcingList.PressStaysInRange | src/app/sourcing/page.tsx:224-242 | from a page in range, a press stays in range and moves at most one page |
| SourcingList.BrowseStaysInRange | src/app/sourcing/page.tsx:224-242 | from a page in range, any sequence of presses ends in range |
| SourcingList.NextReturnsToLastPage | src/app/sourcing/page.tsx:236-238 | when the page count falls below the current page, "next" is still enabled and brings the page back to the last one |
| SourcingList.PressesUndo | src/app/sourcing/page.tsx:226-238 | "next" undoes "previous" away from the first page, and "previous" undoes "next" away from the last |
| SearchRoute.RequestMode | src/app/api/search/route.ts:545-555 | a realtime-only request crawls in extended mode, with limit 50 and offset 0 when the body leaves them out |
| Js.Utf16ShorterThanTwo | src/app/api/search/route.ts:565 | a string is shorter than two UTF-16 code units exactly when it is empty or a single character no higher than U+FFFF |
| SearchRoute.RealtimeOnly | src/app/api/search/route.ts:565-589 | a query shorter than two UTF-16 code units (by `Js.Utf16ShorterThanTwo`, the empty query or one character of the Basic Multilingual Plane) is refused, and only such a query; otherwise the answer is the extended crawl's, a failed crawl included |
| SearchRoute.RealtimeOnlyContinues | src/app/api/search/route.ts:572-589 | whatever the marketplace returns, a realtime-only answer for a given limit and offset continues its kind-filtered hits from that offset |
| SearchRoute.AstralQueryCrawled | src/app/api/search/route.ts:565 | a query of one character above U+FFFF, such as an emoji, is two code units long and so passes the length check |
| SearchPage.FinishCrawl | src/app/search/page.tsx:138-198 | a successful first crawl replaces the records and sets the offset to their number, offering more only when there are records and the answer has more; any failure empties the records and offers nothing; the status names the failure |
| SearchPage.BeginShowMore | src/app/search/page.tsx:30-40 | "show more" does nothing for a term shorter than two UTF-16 code units; otherwise it only sets the loading flag and announces records offset+1 to offset+300 |
| SearchPage.MoreFailure | src/app/search/page.tsx:62-101 | a failed "show more" reports the endpoint's message, else the HTTP status, else the crawl's error or "no results"; a timeout, and only a timeout, reports the 35-second limit |
| SearchPage.FinishShowMore | src/app/search/page.tsx:60-102 | a successful "show more" appends the batch, moves the offset past it, and offers more only after a full batch of 300 whose answer has more; a failure changes only the loading flag and the status |
| SearchPage.ShowMore | src/app/search/page.tsx:30-103 | a whole "show more" appends exactly the new records and moves the offset by their number on success, and leaves records, offset and button untouched on failure |
| SearchPage.OffsetCountsResults | src/app/search/page.tsx:69-81 | the offset always equals the number of records collected: the first crawl sets it so, and every "show more" keeps it so |
| SearchPage.OfferedWhileHitsRemain | src/app/search/page.tsx:319-340 | in step with the hits, the "show more" button is offered exactly while hits remain past the records held |
| SearchPage.FirstCrawlInStep | src/app/search/page.tsx:149-176 | a first answer that continues the hits from offset 0 puts the page in step with them |
| SearchPage.ShowMoreInStep | src/app/search/page.tsx:46-81 | an answer that continues the hits from the current offset keeps the page in step: the new records extend the collected prefix with no gap and no repeat |
| SearchPage.FailedShowMoreInStep | src/app/search/page.tsx:85-101 | a failed "show more" keeps the page in step |
| SearchPage.FirstCrawlAgainstRoute | src/app/search/page.tsx:154-158 | the first crawl, asking the route for 30 records with no offset, puts the page in step with the kind-filtered hits |
| SearchPage.ShowMoreAgainstRoute | src/app/search/page.tsx:51-56 | each "show more", asking the route for 300 records from the current offset, keeps the page in step; so pressing until the button disappears collects every filtered hit once, in order |

## Left out

- Network access, `AbortController` timers and `setTimeout` delays are not performed. The delays are returned as values (`stagger`, `backoffs`, `pauses`, `cooldowns`). A timeout or abort is one of the outcomes the oracles can give.
- `Promise.allSettled` concurrency is not modelled. Each callback writes only its own item, so running a chunk's items in order gives the same result.
- `processingTime`, `successRate`, `timestamp`, the `query` echo and all console logging are not modelled. They are clock readings or diagnostics.
- The crawl's outer `try`/`catch` (route.ts 306-318) is not modelled. It catches only a failure to build the search URL, which cannot happen for a string query.
- `enrichWithLocalData` (route.ts 502-540) is not modelled. It is defined but never called.
- The database search of `POST /api/search` is not modelled: products, suppliers, pagination, and the combined first page that uses the basic crawl. Only its data-source label (`DataSource.Classify`) is. The basic crawl is modelled as a mode of the same crawl.
- The 500 branch of the realtime-only handler (route.ts 590-596) and the handler's outer `catch` are not modelled. The crawl never throws, and a JSON body that fails to parse is outside the model.
- SearchRoute.RequestMode: takes the limit and offset as integers and does not model a request body that sends them as another JSON type.
- Session cookies, the Supabase client and the middleware's path `matcher` (middleware.ts 98-102) are not modelled. Whether a user is signed in and their department row are inputs.
- Supabase queries are inputs. Each delivers its rows, in the order the database returns them, or fails. The `.in('sourcing_request_id', …)` filter of the tasks query is assumed to have been applied by the database.
- CRUD actions, confirmations, alerts and all rendering are not modelled, beyond the badge, the delete-button condition, the pager, the navigation links and the "show more" button.
- `searchDatabaseOnly` and `handleSearch` on the search page are not modelled. They call the database search, which is out of scope. The realtime panel starts from `performRealtimeCrawling`.
- SearchPage.FinishShowMore: the status line is modelled by its template and arguments, not as rendered text. The total collected is read from the state at the press, as the source's closure reads it.
- SearchPage.FirstCrawlAgainstRoute: assumes the marketplace returns the same hits on every call. So does ShowMoreAgainstRoute. A live marketplace can change between calls.
- SearchPage.FinishCrawl: `hasMore !== false` is modelled as the boolean itself, because the route always sends a boolean.
- SourcingList.StatusBadge: a status named after an `Object.prototype` member (such as "constructor") finds a value in the JavaScript `statusMap` object. The model treats it as unknown.
- Slug.Slugify: lower-cases ASCII letters only. JavaScript's `toLowerCase` also maps U+0130 and the Kelvin sign U+212A to an ASCII "i" and "k". The model drops those two characters, where JavaScript would keep the "i" and "k".
- Upstream.RawItem: takes a hit's `id` to be a non-negative integer or absent, and its `score` to be an integer. The marketplace's JSON could carry a string, negative or fractional id, which the source would still request (with segments such as "00/00/-5"), and a fractional score, which `item.score || 0` would keep. Neither is modelled. It also takes a hit's `link`, `url` and `name` to be strings. A truthy non-string `link` or `url` makes `startsWith` throw (route.ts:240, 242), and a truthy non-string `name` makes `toLowerCase` throw inside `generateCphiSlug` (route.ts:247, 251). Any of these, on a hit that is mapped, throws inside the per-profile `try` (route.ts:192-290) after the detail enrichment has run: that profile's answer is discarded and the next profile is tried. The model has no such hit; it stands for that profile only through an attempt that is `Failed`.
- DetailFetch.LongIdShard: holds for ids below 10^21 only. `DetailFetch.DecimalString` writes every id out in full, while JavaScript prints an integer of 10^21 or more in exponent form ("1e+21"), so the segments would then be cut from that text.
- Normalize.IdOrIndex: a string id is kept by `item.id || index`, but ids are integers in this model.
- Upstream.DetailFields: supplier, company name, country, company types and verified are taken to be strings. Only the link is modelled with its other JSON values, because only the link has a method called on it.
