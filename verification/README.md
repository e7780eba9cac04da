# Steam Data Explorer — a verified model of its data path

Steam Data Explorer crawls the Steam store's trending lists (top sellers,
global top sellers, popular new releases, popular coming soon, specials),
fetches the details of every listed application, keeps them in three
pickled ledgers (`apps_dict`, `excluded_apps_list`, `error_apps_list`)
under a checkpoint folder, and serves them through a small Flask site:
a front page listing each category's games, search and filter queries, and
genre, tag and price breakdowns. A progress page polls the crawl and shows
a time-to-finish estimate and a sleep countdown.

This project models, in Dafny, the parts of that system that carry logic:

| module (file) | what it models |
|---|---|
| `TrendCheckpoints` (`trend_checkpoints.dfy`) | the crawler's checkpoint store: choosing the latest checkpoint of a ledger, the fixed names `save_checkpoints` writes, loading the ledgers back |
| `TrendFetch` (`trend_fetch.dfy`) | the `get_app_details` retry loop as a state machine over a script of HTTP answers, its callbacks, and the ledger update for one app |
| `TrendListing` (`trend_listing.dfy`) | request parameters of each category page, artifact names, bundle filtering, reading the app id out of a logo URL |
| `TrendCrawl` (`trend_crawl.dfy`) | `download_trend` as a class whose fields are its local state (ledgers, `done`, callbacks made, requests sent, the two folders it writes) and whose methods are its nested loops |
| `Retriever` (`retriever.dfy`) | `SteamDataRetriever`: checkpoint lookup over a folder tree, loading the ledgers into its fields, category files, and the query filters |
| `WebApp` (`web_app.dfy`) | the views of `app.py`: the latest search folder and the cross-category de-duplication of `index`, the counters and top-10/next-20 split of `genre_breakdown` and `tag_analysis`, and the bins of `price_analysis` |
| `DownloadTrendJs` (`download_trend_js.dfy`) | `formatEta`, the ETA estimate, the `/(\d+)\s*sec/i` status test and the sleep countdown of the progress page |
| `AppIdRetriever` (`app_id_retriever.dfy`) | `get_app_ids`: failure returns and the empty-name filter |
| `Consistency` (`consistency.dfy`) | how the parts fit together: file names the crawler writes against the names the reader looks for, and the crawler's status texts against the page's countdown test |
| `Base`, `Text`, `Order`, `Dicts`, `SteamModel` | shared vocabulary: `Option`/`Result`, strings, lexicographic order and `sorted(...)[-1]`, an insertion-ordered `dict`, the app-details record |

The network, the stop event, the clock and the file system enter as
values: a script of HTTP answers consumed in order, a sequence of stop-flag
answers, a date string, and folders given as ordered listings with their
unpickled contents. A script that runs out while the crawler is still
retrying ends the call as `Pending` / `ScriptEnded`.

The crawl's loops are specified by functions over its state: `ItemsSpec`
folds `ItemStep` (stop check, falsy skip, `FetchItem`) over a page's
entries, `PageRequests` and `CategoryRequests` give the search requests a
category and a whole crawl send, and `FetchSpec` the answers one
`get_app_details` call consumes. Each loop body is a method of its own
(`FetchNext`, `ProcessItem`, `CrawlNextPage`, `CrawlNext`) whose contract
is the loop's invariant carried one step.

Two behaviours of the code are modelled as written and proved as lemmas:

- The crawler names its coming-soon artifact `popularcommingsoon_<date>.pkl`,
  while the reader asks for `popularcomingsoon_<suffix>.pkl`; that file is
  never one the crawler writes, so the front page always shows the category
  empty (`Consistency.ComingSoonNeverWritten`, `Consistency.ComingSoonShownEmpty`).
- The `done` counter of the crawl rises only for entries with a truthy app
  id (and by 100 for a category whose artifact already exists), and a failed
  detail request (`{}`) puts the app on the excluded list, not the error
  list; the error list is never appended to during a crawl.

## Model

| member | source | states |
|---|---|---|
| TrendCheckpoints.Candidates | pyscripts/steam_trending_data_downloader.py:50-52 | a name is a candidate iff it is in the folder, ends in `.p` and contains both the prefix and `ckpt` |
| TrendCheckpoints.Latest | pyscripts/steam_trending_data_downloader.py:46-54 | `None` iff no file of the folder is a candidate; otherwise a candidate that no other candidate sorts after |
| TrendCheckpoints.SaveCheckpoints | pyscripts/steam_trending_data_downloader.py:31-44 | the folder afterwards maps exactly the three fixed names `{prefix}-ckpt-fin.p` to the three ledgers and keeps every other file |
| TrendCheckpoints.LoadCheckpoints | pyscripts/steam_trending_data_downloader.py:107-130 | a ledger with no checkpoint in the folder starts empty; the loaded apps dict is well formed |
| TrendCheckpoints.FinIsOnlyOwnCheckpoint | pyscripts/steam_trending_data_downloader.py:39-52 | each fixed name is a checkpoint of its own ledger and of no other ledger |
| TrendCheckpoints.LatestAfterSave | pyscripts/steam_trending_data_downloader.py:38-54 | after saving, the latest checkpoint of a ledger is its fixed name, unless an older file already sorted after it |
| TrendCheckpoints.SaveThenLoad | pyscripts/steam_trending_data_downloader.py:31-54 | round trip: loading what `save_checkpoints` wrote gives back the same three ledgers |
| TrendCheckpoints.FinNamesDistinct | pyscripts/steam_trending_data_downloader.py:39-43 | the three fixed names are pairwise different, so no ledger overwrites another |
| TrendFetch.Decide | pyscripts/steam_trending_data_downloader.py:70-98 | details come back iff the status is 200 and the body holds a `str(appid)` envelope with `success`, and they are that envelope; any status other than 200 gives `{}`; a 200 body that is not JSON raises `JSONDecodeError`; a 200 JSON body raises `KeyError` exactly when it lacks the `str(appid)` key or its envelope lacks `success`; one answer never leaves the call pending |
| TrendFetch.AnswerStepSpec | pyscripts/steam_trending_data_downloader.py:64-98 | 429 and 403 go round again, any other answer ends the loop with its decided outcome, each answer makes at most one callback carrying `total` and the current `done` |
| TrendFetch.FetchSpecContract | pyscripts/steam_trending_data_downloader.py:63-100 | the call re-requests the same app on 429/403, stops at the first other answer and returns its outcome, is pending only when every remaining answer asks for a retry, and makes one callback per answer (none without a callback) |
| TrendFetch.FetchSpecAnswered | pyscripts/steam_trending_data_downloader.py:63-100 | every answer consumed before the last one asked for a retry, and the last one decides the result |
| TrendFetch.FetchSpecPending | pyscripts/steam_trending_data_downloader.py:63-100 | the loop is still retrying exactly when all remaining answers are 429 or 403; with `total` unbound the first answer raises |
| TrendFetch.FetchEventsSpec | pyscripts/steam_trending_data_downloader.py:74-96 | at most one callback per answer, exactly one unless the call raised, all with `total = 500` and the call's `done` |
| TrendFetch.Record | pyscripts/steam_trending_data_downloader.py:207-213 | on `success == True` only `apps_dict[aid]` changes (a `KeyError` without `data`); otherwise `aid` is appended to the excluded list only if absent, so it stays free of duplicates and the error list is untouched |
| TrendFetch.GrowsTransitive | pyscripts/steam_trending_data_downloader.py:196-219 | the ledger invariant (errors untouched, excluded only grows and stays duplicate-free, no app removed) composes over successive items |
| TrendListing.ParamsList | pyscripts/steam_trending_data_downloader.py:136-142 | five category updates, each a well-formed dict holding a string `filter` |
| TrendListing.PageParamsSpec | pyscripts/steam_trending_data_downloader.py:174-176 | a page request's parameters are the defaults overridden by the category's update, with `page` set to the page number |
| TrendListing.SearchItemsOf | pyscripts/steam_trending_data_downloader.py:12-22 | a failed search request yields no entries; a parsed one yields its `items` |
| TrendListing.NonBundleSpec | pyscripts/steam_trending_data_downloader.py:181-184 | exactly the entries whose logo does not contain `bundles` are kept, as an order-preserving subsequence |
| TrendListing.FirstLogoMatch | pyscripts/steam_trending_data_downloader.py:192 | the leftmost position where `steam/\w+/(\d+)` matches, or none when it matches nowhere |
| TrendListing.AppIdFromLogoSpec | pyscripts/steam_trending_data_downloader.py:191-193 | the id is `None` iff the pattern matches nowhere; otherwise it is the value of the digits captured by the leftmost match |
| TrendListing.TaggedSpec | pyscripts/steam_trending_data_downloader.py:191-193 | tagging keeps the entries and their order and only sets each entry's `appid` from its logo |
| TrendListing.TagAppIds | pyscripts/steam_trending_data_downloader.py:191-193 | the in-place tagging loop produces the tagged entries |
| TrendCrawl.SingleOutcome | pyscripts/steam_trending_data_downloader.py:102-104 | the single-app mode returns exactly what the fetch returned and fails exactly when it raised |
| TrendCrawl.SilentFetchIsQuiet | pyscripts/steam_trending_data_downloader.py:74-96 | without a callback the fetch loop makes no callback |
| TrendCrawl.PageRequests | pyscripts/steam_trending_data_downloader.py:143-176 | the requests of a category are pages 1 to 4 in ascending order, each with the category's update |
| TrendCrawl.ProgressExtend | pyscripts/steam_trending_data_downloader.py:146-217 | a callback with the current `done` keeps the callbacks ordered: `total` is 500 and `done` never decreases |
| TrendCrawl.TrendDownload.constructor | pyscripts/steam_trending_data_downloader.py:107-147 | a crawl starts with empty ledgers, `done = 0`, no callbacks and no requests |
| TrendCrawl.TrendDownload.StopRequested | pyscripts/steam_trending_data_downloader.py:154-155 | one more stop check, answered by the stop-flag oracle |
| TrendCrawl.TrendDownload.GetAppDetails | pyscripts/steam_trending_data_downloader.py:63-100 | the retry loop consumes answers and makes callbacks exactly as the fetch specification says, and returns its result |
| TrendCrawl.TrendDownload.Answer | pyscripts/steam_trending_data_downloader.py:64-98 | one loop iteration acts on one answer as the step specification says and records its callback |
| TrendCrawl.TrendDownload.Notified | pyscripts/steam_trending_data_downloader.py:149-150 | a callback is appended with `total = 500` and the current `done` |
| TrendCrawl.TrendDownload.ProcessItem | pyscripts/steam_trending_data_downloader.py:196-217 | the new outcome and item-loop state are exactly one `ItemStep` from the old state (so the facts stated by `ItemStep` hold of the call); the callbacks are only appended, none on stop or for a falsy id |
| TrendCrawl.TrendDownload.FetchAndRecord | pyscripts/steam_trending_data_downloader.py:205-217 | the new outcome and item-loop state are exactly `FetchItem` of the old state (fetch, record, count); callbacks are only appended, none without a callback |
| TrendCrawl.TrendDownload.CrawlItems | pyscripts/steam_trending_data_downloader.py:196-217 | the outcome and new state are exactly the fold `ItemsSpec` of the item steps over the page's entries; `done` never decreases and rises by at most the number of truthy ids, exactly that many when the page completes with a callback; on completion every truthy id is in `apps_dict` or excluded and no stop check between was set |
| TrendCrawl.TrendDownload.CrawlPage | pyscripts/steam_trending_data_downloader.py:169-219 | one stop check always happens first and, when set, the page ends with nothing sent, recorded or reported; a missing search answer ends the script; otherwise exactly one request with the page number is sent and the rest of the state is the item-loop fold over the tagged non-bundle entries of its answer; on completion those entries' truthy ids are recorded |
| TrendCrawl.TrendDownload.CrawlPages | pyscripts/steam_trending_data_downloader.py:168-219 | a stop set at the first page check ends the category with nothing sent or recorded; a completed category sent pages 1 to 4 in order, collected all their entries page after page, recorded every truthy id among them, and saw no stop check set |
| TrendCrawl.TrendDownload.CrawlCategory | pyscripts/steam_trending_data_downloader.py:152-240 | a stop before the category changes nothing; an existing artifact skips it and adds 100 to `done`; a stop or failure inside writes neither artifact nor checkpoints; otherwise the artifact holds the collected entries and the checkpoints hold the ledgers; no search file is removed or overwritten and every file written holds only recorded truthy ids |
| TrendCrawl.TrendDownload.FinishCategory | pyscripts/steam_trending_data_downloader.py:221-240 | reports `finalizing`, writes the artifact under the category's name and saves the three checkpoints |
| TrendCrawl.TrendDownload.DownloadTrend | pyscripts/steam_trending_data_downloader.py:102-152 | single-app mode fetches one app and touches nothing else; with a callback and an answer it fails with `NameError`, unless the first answer is a malformed 200 body, which raises its own `JSONDecodeError`/`KeyError` first; otherwise the crawl mode's contract holds (see `CrawlAll`) |
| TrendCrawl.TrendDownload.FetchSingle | pyscripts/steam_trending_data_downloader.py:102-104 | the single-app fetch runs with `total` unbound: with a callback and an answer it fails with `NameError`, unless the first answer is a malformed 200 body, which raises its own `JSONDecodeError`/`KeyError` first |
| TrendCrawl.TrendDownload.CrawlCategories | pyscripts/steam_trending_data_downloader.py:152-240 | the ledger invariant holds over all categories, callbacks are only appended, no search file is removed or overwritten and every new one holds only recorded truthy ids; a completed run leaves an artifact for every category and sent exactly `CategoryRequests`: pages 1 to 4 of each category not skipped, in category order |
| TrendCrawl.TrendDownload.CrawlNext | pyscripts/steam_trending_data_downloader.py:152-240 | one turn of the category loop keeps the loop's invariants: ledgers grow, callbacks are appended, files are kept and new ones recorded, and a completed turn adds this category's artifact and its share of `CategoryRequests` |
| TrendCrawl.TrendDownload.CrawlNextPage | pyscripts/steam_trending_data_downloader.py:169-219 | one turn of the page loop keeps its invariants: a stop set at its check changes nothing, and a completed page extends the requests by this page and the collected entries by its entries, all recorded |
| TrendCrawl.TrendDownload.FetchNext | pyscripts/steam_trending_data_downloader.py:64-98 | one turn of the request loop consumes one answer and keeps the loop's place in the fetch specification: still retrying, or finished with the specified result and callbacks |
| TrendCrawl.TrendDownload.RecordFetched | pyscripts/steam_trending_data_downloader.py:207-217 | the ledgers become `Record`'s result, `done` rises by one and an `Added` callback is made when there is a callback; a `KeyError` changes nothing |
| TrendCrawl.TrendDownload.CrawlAll | pyscripts/steam_trending_data_downloader.py:106-240 | the ledgers grow from the loaded checkpoints, the first callback is `starting`, no search file is removed or overwritten and new ones hold only recorded truthy ids; a completed crawl leaves all five artifacts and sent exactly `CategoryRequests` of the five categories from the files already present |
| TrendCrawl.FetchItem | pyscripts/steam_trending_data_downloader.py:205-217 | fetching one truthy id either completes, with the id then in `apps_dict` or excluded, the ledgers equal to `Record` of the fetched details and `done` one higher with a callback, or fails or runs out of answers with ledgers and `done` unchanged |
| TrendCrawl.ItemStep | pyscripts/steam_trending_data_downloader.py:196-217 | one pass of the item loop: stops exactly when the stop check is set, does nothing for a falsy id, otherwise fetches and records; exactly one stop check; a completed pass leaves the item's truthy id recorded |
| TrendCrawl.ItemsSpec | pyscripts/steam_trending_data_downloader.py:196-217 | the item loop stops at the first pass that does not complete; the ledgers only grow and the answers consumed stay within the script |
| TrendCrawl.ItemsSpecRecords | pyscripts/steam_trending_data_downloader.py:196-217 | when the whole item loop completes, every truthy id on the page is in `apps_dict` or excluded and none of its stop checks was set |
| TrendCrawl.RecordedGrows | pyscripts/steam_trending_data_downloader.py:196-219 | an id once recorded stays recorded as the ledgers grow |
| TrendCrawl.RecordedAppend | pyscripts/steam_trending_data_downloader.py:219 | `items_all.extend(...)` of two recorded lists is recorded |
| TrendCrawl.FolderKeptTransitive | pyscripts/steam_trending_data_downloader.py:152-240 | keeping files and recording new ones composes over successive categories |
| TrendCrawl.RequestsStep | pyscripts/steam_trending_data_downloader.py:152-176 | a skipped category adds no request and no artifact; a crawled one adds its four page requests and its artifact name |
| TrendCrawl.AllRequests | pyscripts/steam_trending_data_downloader.py:152-176 | the requests of a crawl that skips nothing: request `4c + p - 1` is page `p` of category `c` |
| TrendCrawl.CategoryRequestsAllNew | pyscripts/steam_trending_data_downloader.py:152-176 | when no category's artifact exists and their names differ, no category is skipped and the crawl sends every page of every category in order |
| Retriever.PathLtIsStrictTotal | pyscripts/steam_data_retriever.py:99-117 | path comparison (component by component) is a strict total order, so `sorted(...)[-1]` is well defined |
| Retriever.CandidatePaths | pyscripts/steam_data_retriever.py:91-100 | a path is a candidate iff it was walked, ends in `.p` and its name holds the prefix and `ckpt` |
| Retriever.LatestPath | pyscripts/steam_data_retriever.py:99-117 | `None` iff no walked file is a candidate; otherwise the greatest candidate path |
| Retriever.CheckLatestCheckpoints | pyscripts/steam_data_retriever.py:72-119 | three `None`s for a missing folder; otherwise the latest path of each of the three kinds |
| Retriever.Suffix | pyscripts/steam_data_retriever.py:132 | the last eight characters of the folder name, or all of a shorter name |
| Retriever.LoadCategoryFrom | pyscripts/steam_data_retriever.py:121-140 | `ValueError` iff there is no folder or the category is unknown; otherwise the file `{category}_{suffix}.pkl`, or `[]` when it is missing |
| Retriever.LoadEachInFolder | pyscripts/steam_data_retriever.py:146-149 | with a folder the comprehension succeeds, its keys are the categories in order and each maps to what `load_search_category` returns |
| Retriever.LoadEachNoFolder | pyscripts/steam_data_retriever.py:125-126 | without a folder the comprehension raises at its first category |
| Retriever.LoadAllFromSpec | pyscripts/steam_data_retriever.py:142-149 | raises iff there is no folder; otherwise exactly the five search categories, in order, each with its loaded list |
| Retriever.SelectSpec | pyscripts/steam_data_retriever.py:175-323 | a filter returns exactly the matching apps, as an order-preserving subsequence of the dict's values |
| Retriever.SelectCounts | pyscripts/steam_data_retriever.py:247-253 | a matching app appears once per dict entry holding it, a non-matching one never (the `break` adds an app at most once) |
| Retriever.MatchesIgnoresCase | pyscripts/steam_data_retriever.py:185-189 | every filter gives the same answer for a term and its lower-cased form |
| Retriever.SteamDataRetriever.constructor | pyscripts/steam_data_retriever.py:15-36 | starts from empty ledgers and loads each from its latest checkpoint; `error_apps_list` stays unassigned when there is none |
| Retriever.SteamDataRetriever.LoadLatestCheckpoints | pyscripts/steam_data_retriever.py:42-70 | each field is replaced by its latest checkpoint when one exists and is left as it was otherwise |
| Retriever.SteamDataRetriever.AllAppIds | pyscripts/steam_data_retriever.py:151-158 | every key of `apps_dict` exactly once, and nothing else |
| Retriever.SteamDataRetriever.AppDetails | pyscripts/steam_data_retriever.py:160-173 | the stored details iff the id is a key, `None` otherwise |
| Retriever.SteamDataRetriever.DataStats | pyscripts/steam_data_retriever.py:325-336 | `AttributeError` iff `error_apps_list` was never assigned; otherwise the three ledger sizes |
| Retriever.SteamDataRetriever.Filter | pyscripts/steam_data_retriever.py:186-192 | the loop over `apps_dict.items()` returns the selection of matching apps |
| Retriever.SteamDataRetriever.AppMatches | pyscripts/steam_data_retriever.py:207 | the test inside each filter loop decides the filter's match condition |
| Retriever.SteamDataRetriever.FindDesc | pyscripts/steam_data_retriever.py:250-253 | the inner loop with `break` finds a description containing the term iff one exists |
| Retriever.SteamDataRetriever.FindName | pyscripts/steam_data_retriever.py:295-298 | the inner loop with `break` finds a name containing the term iff one exists |
| Retriever.SteamDataRetriever.SearchAppsByName | pyscripts/steam_data_retriever.py:175-192 | exactly the apps with a `name` containing the term, case-insensitively, in dict order |
| Retriever.SteamDataRetriever.FilterAppsByType | pyscripts/steam_data_retriever.py:194-210 | exactly the apps whose `type` equals the argument case-insensitively, in dict order |
| Retriever.SteamDataRetriever.GetAppsWithGenre | pyscripts/steam_data_retriever.py:234-254 | exactly the apps with a genre description containing the term, each once, in dict order |
| Retriever.SteamDataRetriever.GetAppsWithTag | pyscripts/steam_data_retriever.py:256-277 | exactly the apps with a category description containing the term, each once, in dict order |
| Retriever.SteamDataRetriever.GetAppsByDeveloper | pyscripts/steam_data_retriever.py:279-300 | exactly the apps with a developer containing the term, each once, in dict order |
| Retriever.SteamDataRetriever.GetAppsByPublisher | pyscripts/steam_data_retriever.py:302-323 | exactly the apps with a publisher containing the term, each once, in dict order |
| WebApp.SearchFolders | app.py:14 | exactly the folder entries named `search_results_*` |
| WebApp.LatestSearchFolder | app.py:11-26 | none iff the base folder is missing or holds no `search_results_*` entry; otherwise the greatest such name |
| WebApp.IdsOfSpec | app.py:34-37 | an id is collected iff some entry carries it and it is truthy |
| WebApp.KeptIsSubsequence | app.py:31-38 | each shown category list is an order-preserving subsequence of its input |
| WebApp.KeptAreNew | app.py:34-35 | every shown game has a truthy id not shown by an earlier category |
| WebApp.KeptIds | app.py:31-38 | a category shows exactly its truthy ids not seen before |
| WebApp.KeptDistinct | app.py:33-37 | no id is shown twice within a category |
| WebApp.FirstWithId | app.py:33-37 | the position of the first entry with a given id |
| WebApp.KeptIsFirst | app.py:33-37 | each shown game is the first entry of its category with that id |
| WebApp.CategoriesDisjoint | app.py:28-38 | two different categories never show the same id; the earlier category wins |
| WebApp.EveryIdShown | app.py:28-38 | no truthy id is lost: the categories together show every truthy id of their inputs |
| WebApp.DedupGames | app.py:32-38 | the inner loop shows the kept games and adds the category's ids to `seen_ids` |
| WebApp.DedupCategories | app.py:28-38 | the outer loop builds one de-duplicated list per category, in category order |
| WebApp.DedupedListing | app.py:29-38 | the listing keeps the categories in order, each with its de-duplicated entries |
| WebApp.Index | app.py:10-38 | no search folder gives no categories; otherwise the five categories of the latest folder, each de-duplicated across the earlier ones |
| WebApp.NamesOf | app.py:91-92 | one name per list element, `Unknown` for a missing description |
| WebApp.TallySpec | app.py:87-93 | a name's count is its number of occurrences, only occurring names are counted, in order of first occurrence |
| WebApp.TallyKeys | app.py:89-93 | exactly the names that occur are counted |
| WebApp.TallyCounts | app.py:89-93 | a name's count is its number of occurrences |
| WebApp.TallyOrder | app.py:89-93 | the counter lists names in order of first occurrence |
| WebApp.CountDescriptions | app.py:89-93 | the nested counting loop produces the tally of all (app, element) names |
| WebApp.SortDescSpec | app.py:95 | the `most_common` sort is a permutation, largest count first, stable among equal counts |
| WebApp.MostCommonSpec | app.py:95 | `most_common(n)` has `min(n, len)` entries, each a key with its own count, largest first |
| WebApp.MostCommonIsTop | app.py:95 | no key left out of `most_common(n)` counts more than a key it lists |
| WebApp.Split | app.py:97-98 | the first part has at most 10 entries, the second at most 20, and together they are the input |
| WebApp.Breakdown | app.py:85-126 | `top` and `other` are the first 10 and the next up-to-20 of `most_common(30)`, every top count at least every other count |
| WebApp.CentsBin | app.py:150-163 | every priced app falls in one of the seven priced bins |
| WebApp.CentsBinIsDollarBin | app.py:149-163 | comparing cents with the dollar bounds times 100 picks the same bin as comparing dollars |
| WebApp.PriceBin | app.py:145-163 | `Free` iff `is_free`; no bin iff neither `is_free` nor `price_overview`; otherwise one priced bin, a missing `initial` counting as 0 |
| WebApp.BinsAddUp | app.py:145-163 | every app is counted in exactly one bin or in none, so the bins sum to at most the number of apps |
| WebApp.PriceAnalysis | app.py:134-163 | the loop leaves in each bin the number of apps that fall in it |
| DownloadTrendJs.FloorDiv | static/download_trend.js:3 | the floored quotient for a positive divisor |
| DownloadTrendJs.JsRem | static/download_trend.js:4 | the remainder has the sign of the dividend, is smaller than the divisor in size, and differs from the dividend by a multiple of the divisor |
| DownloadTrendJs.FormatEta | static/download_trend.js:1-16 | the step-by-step `%=` and `push` code yields the formatted duration |
| DownloadTrendJs.DecomposeNonNegative | static/download_trend.js:1-9 | for non-negative input: days, hours < 24, mins < 60, secs < 60, adding back up to the input |
| DownloadTrendJs.SplitIsUnique | static/download_trend.js:1-9 | that decomposition is the only one |
| DownloadTrendJs.NegativeSecond | static/download_trend.js:1-15 | for -1 the floored quotients and truncated remainders give `-1d -1h -1m -1s` |
| DownloadTrendJs.UnderAMinute | static/download_trend.js:1-15 | for input below 60 the text is exactly `${input}s` |
| DownloadTrendJs.PiecesShape | static/download_trend.js:10-15 | parts carry their own unit's value, in the order d, h, m, s, with the seconds part always last |
| DownloadTrendJs.PiecesPresence | static/download_trend.js:11-13 | a d, h or m part is present iff its value is non-zero |
| DownloadTrendJs.JoinSplitRoundTrip | static/download_trend.js:15 | splitting the joined parts on a space gives the parts back |
| DownloadTrendJs.EtaTextSplits | static/download_trend.js:10-15 | the formatted text consists of exactly its parts separated by single spaces |
| DownloadTrendJs.EtaSecondsIsCeiling | static/download_trend.js:74-75 | the estimate is the least integer at or above 1.5 seconds per remaining item |
| DownloadTrendJs.GreedyMatchIsTheMatch | static/download_trend.js:79 | `/(\d+)\s*sec/i` matches at a position iff the greedy reading does, and the capture is the whole digit run |
| DownloadTrendJs.FirstMatch | static/download_trend.js:79 | the leftmost match position, or none |
| DownloadTrendJs.NextStepSpec | static/download_trend.js:79-91 | a countdown starts iff the pattern matches, for the leftmost match's number; polling stops iff the status is exactly `completed`; otherwise another poll |
| DownloadTrendJs.CeilThousandthsBounds | static/download_trend.js:105 | the seconds shown cover the remaining milliseconds with less than a second to spare |
| DownloadTrendJs.SleepTick | static/download_trend.js:94-112 | the countdown keeps sleeping iff time is left, and polls otherwise |
| AppIdRetriever.Collect | pyscripts/app_id_retriever.py:22-34 | the loop returns ids or a `KeyError`, never more ids than entries |
| AppIdRetriever.GetAppIds | pyscripts/app_id_retriever.py:7-34 | `None` iff the status is not 200; `{}` iff the body is not JSON; a `KeyError` for a missing `applist` or `apps`; otherwise the loop's result |
| AppIdRetriever.CollectStopsAtError | pyscripts/app_id_retriever.py:24-26 | a `KeyError` ends the loop: later entries do not change the outcome |
| AppIdRetriever.CollectRaises | pyscripts/app_id_retriever.py:24-26 | the loop raises iff some entry lacks `appid` or `name` |
| AppIdRetriever.CollectPicksNamed | pyscripts/app_id_retriever.py:24-32 | the ids are those of exactly the named entries, in input order |
| AppIdRetriever.IdsAreNamed | pyscripts/app_id_retriever.py:28-32 | an id is in the result iff some entry with a non-empty name carries it |
| AppIdRetriever.DuplicatesKept | pyscripts/app_id_retriever.py:24-32 | two named entries with the same id give that id twice |
| Consistency.SearchFolderName | pyscripts/steam_trending_data_downloader.py:133 | the crawl's search folder name begins with `search_results_` |
| Consistency.CrawlFolderIsSearchFolder | app.py:14 | the folder a crawl writes is one the front page considers |
| Consistency.SuffixOfSearchFolder | pyscripts/steam_data_retriever.py:132 | for an eight-character date, the folder's suffix is that date |
| Consistency.ReaderFindsCrawlerFile | pyscripts/steam_data_retriever.py:131-134 | for the four categories other than coming soon, the reader asks for exactly the file the crawler wrote |
| Consistency.CrawlerCategory | pyscripts/steam_trending_data_downloader.py:136-142 | the names the crawler gives its five categories, in crawl order |
| Consistency.ComingSoonNeverWritten | pyscripts/steam_data_retriever.py:31 | the reader's coming-soon file name is never a name the crawler writes, for any folder and date |
| Consistency.ComingSoonLoadsEmpty | pyscripts/steam_data_retriever.py:121-140 | from a folder of crawler files, the coming-soon category always loads as `[]` |
| Consistency.ComingSoonShownEmpty | app.py:28-38 | the front page then shows no coming-soon games |
| Consistency.ArtifactIsNoCheckpoint | pyscripts/steam_trending_data_downloader.py:50-52 | no search-result artifact is ever a checkpoint candidate |
| Consistency.FirstCrawlAsksEveryPage | pyscripts/steam_trending_data_downloader.py:136-176 | the five categories have five different artifact names, so a crawl with none of them on disk asks for pages 1 to 4 of every category, in order |
| Consistency.TooManyRequestsCountsDown | pyscripts/steam_trending_data_downloader.py:81 | the crawler's status text for a 429 answer starts the page's countdown for ten seconds |
| Consistency.ForbiddenPollsAgain | pyscripts/steam_trending_data_downloader.py:88 | the status text for a 403 answer starts no countdown (its sleep is in minutes); the page polls again |

## Left out

- HTTP requests (search results, `appdetails`, `GetAppList`) are scripts of answers given in advance; the crawler's `while True` retry loop is modelled on a finite script, and a script that runs out ends the call as `Pending`/`ScriptEnded`.
- Pickle reading and writing, `os.walk`, `glob` and `mkdir`: folders are ordered listings of names with their unpickled contents; unreadable pickles are not modelled.
- `CheckpointsTyped` and `LoadsTyped` are preconditions that the latest checkpoints unpickle to a dict or a list as their ledger expects; a checkpoint of another type is not modelled.
- `time.sleep`, `datetime.now()` and `Date.now()`: the crawl date and the milliseconds still to sleep are parameters.
- `stop_event` and threading: each stop check is answered by a sequence of booleans; the job runner behind the start, pause and progress endpoints is not part of this model.
- The migration loop at pyscripts/steam_trending_data_downloader.py:119-122 is left out: it iterates the still-empty `apps_dict` and does nothing.
- The checkpoint and search folders of the crawler are modelled as its own two folders; their location under `CHECKPOINT_FOLDER/searchresults` is not.
- `filter_apps_by_price_range` (float prices and `float('inf')`) is not modelled.
- Flask routing, `render_template`, `jsonify`, the `search_app` argument parsing and the `category_titles` table are plumbing and are left out.
- `static/search.js`, `static/nav.js`, the chart scripts, the pause/resume button, DOM updates and timers of `static/download_trend.js` are left out; `DownloadTrendJs.StatusLine` only builds the text shown.
- `print_log` and all logging are left out.
- `str.lower()`, `toLowerCase()` and the regular expression classes `\w`, `\s` are modelled over ASCII; Unicode case folding and Unicode word and space characters are not.
- `parseInt` on very long digit runs (beyond exact double precision) and the floating-point product `remItems * 1.5` are modelled as exact integer arithmetic.
- JSON values of unexpected types (a `name` that is a number, a `logo` that is not a string, a `description` that is not a string) are not modelled.
- Status messages of the crawl are modelled as a `Status` datatype with their texts; that the page receives them unchanged through the progress store is a premise of `Consistency.TooManyRequestsCountsDown` and `Consistency.ForbiddenPollsAgain`.
- TrendCheckpoints.LoadCheckpoints: states only the empty starting values; the loaded values are given by its definition.
