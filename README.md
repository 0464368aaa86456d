# thiswebsitedoesnotexist — a verified model of its core

The site answers any path with a page generated on the fly. Before it asks the
generation service, it draws a writing "attitude" at random, weighted by the attitude
table, and builds a prompt around the requested path. A counter store keeps one record
per path (`endpoint`, `count`, `lastQueried`). A dashboard reads that store page by page
with a search box and infinite scroll. A popup reports the counts after each generation.
A bulk reset script checks a MongoDB connection string before it rewrites the store.

This project models those parts in Dafny:

| file | module | models |
|---|---|---|
| `wrappers.dfy` | `Wrappers` | the `Option` type used for absent values |
| `draws.dfy` | `Draws` | a `Math.random()` value and its scaling by a length or a total |
| `query_count.dfy` | `QueryCounts` | the counter record and the "one record per endpoint" predicate |
| `attitudes.dfy` | `Attitudes` | the seven-entry attitude table and its total weight |
| `prompts.dfy` | `Prompts` | the weighted pick (`getRandomAttitude`) and the prompt template (`generatePagePrompt`) |
| `track_query.dfy` | `TrackQuery` | the read route: filter, sort, skip, limit, group, sort again, `hasMore`, the site total, the 500 reply |
| `search_board.dfy` | `SearchBoard` | the dashboard's list updater and its component state: fetch, debounced search, infinite scroll |
| `stats_popup.dfy` | `StatsPopup` | the popup's countdown and visibility state machine, its status label and the "time(s)" word |
| `random_paths.dfy` | `RandomPaths` | `generateRandomPath` and the `examplePaths` loop |
| `import_stats.dfy` | `ImportStats` | `validateMongoURI`, the exits before connecting, and the document projection |

Randomness is passed in. `Math.random()` values are parameters: one real `u` in
[0, 1) for the attitude pick, and one `Draw` of three such reals per random path. The
store is a sequence of records. Timers and user actions are events, one method each:
a tick of the one-second interval, the end of the 300 ms debounce, the mouse leaving.
The code that changes state step by step is imperative Dafny. The React components
are classes whose fields are their `useState` cells. `getRandomAttitude` and
`examplePaths` are methods with loops. Each of them is proved against a function
that specifies it. Everything else is functions and lemmas.

The requested path goes into the prompt whole (`src/lib/prompts.ts:23`), whatever its
length: `Prompts.PromptKeepsWholePath` proves that no path is shortened.

## Model

| member | source | states |
|---|---|---|
| Attitudes.TotalWeight | src/lib/prompts.ts:4-7 | the reduce from 0 over the weights; with positive weights the total is at least the number of attitudes |
| Attitudes.PrefixStep | src/lib/prompts.ts:4-7 | extending the summed prefix by one attitude adds exactly that attitude's weight |
| Attitudes.TableShape | src/lib/attitudes.ts:1-37 | there are exactly seven attitudes, the first is "Normal" with style "Default", and no two share a name |
| Attitudes.TableWeights | src/lib/attitudes.ts:5-35 | every weight is strictly positive and the weights add up to 100 |
| Prompts.FirstCovering | src/lib/prompts.ts:10-15 | the first position at or after `i` whose running weight reaches the draw; every earlier position falls short; None means no position reaches it |
| Prompts.SelectedIndex | src/lib/prompts.ts:10-17 | the chosen index is always a position of the table, whether the scan finds one or falls back to entry 0 |
| Draws.Scale | src/lib/prompts.ts:8 | a `Math.random()` draw in [0, 1) times a positive total lies in [0, total); the path generator scales its draws the same way |
| Prompts.GetRandomAttitude | src/lib/prompts.ts:3-18 | the subtracting loop returns exactly the attitude at the first index whose running weight reaches the scaled draw, else `attitudes[0]` |
| Prompts.PrefixIncreasing | src/lib/prompts.ts:10-15 | with positive weights the running sums strictly increase along the table |
| Prompts.NoFallbackBelowTotal | src/lib/prompts.ts:17 | any draw up to the total weight is reached by some prefix, so the fallback after the loop is never taken |
| Prompts.SelectedBand | src/lib/prompts.ts:8-15 | for a draw r in (0, total], entry i is chosen if and only if P(i) < r <= P(i+1), so each attitude owns an interval as wide as its weight |
| Prompts.BoundaryPicksEarlier | src/lib/prompts.ts:12 | a draw exactly on a prefix-sum boundary picks the earlier attitude, because the test is `<= 0` |
| Prompts.ZeroAndThirtyGiveNormal | src/lib/prompts.ts:12 | on the site's table, the draws 0 and 30 both give "Normal" |
| Prompts.Fill | src/lib/prompts.ts:23-36 | the prompt starts with the template's lead, then the path verbatim, then ", " and the style; it ends with the closing label and the name of the same attitude; its length is the sum of the parts |
| Prompts.PageTemplateText | src/lib/prompts.ts:23-36 | the page template's lead is "Generate a simple static HTML page for the route " and its closing label is "Current Attitude: " |
| Prompts.PromptKeepsWholePath | src/lib/prompts.ts:23 | under one attitude, equal prompts have equal paths, so a path of any length goes in untruncated |
| Prompts.GeneratePagePrompt | src/lib/prompts.ts:20-37 | the prompt is the template for the path and the attitude that the weighted pick selects from the site's table |
| TrackQuery.LowerString | src/app/api/track-query/route.ts:20 | the case-folded string has the same length and folds each character |
| TrackQuery.Matches | src/app/api/track-query/route.ts:19-21 | an empty term matches every endpoint; a term matches an endpoint equal to it; a matching term is never longer than the endpoint |
| TrackQuery.FilterBySearch | src/app/api/track-query/route.ts:19-21 | keeps exactly the records whose endpoint contains the term, ignoring case, and never more records than the store holds |
| TrackQuery.FilterEmptySearch | src/app/api/track-query/route.ts:19-21 | an empty term keeps the whole store, in order |
| TrackQuery.FilterKeepsUnique | src/app/api/track-query/route.ts:19-21 | a store with one record per endpoint filters to a list with one record per endpoint |
| TrackQuery.FilterSingle | src/app/api/track-query/route.ts:19-21 | a single record is kept exactly when its endpoint matches |
| TrackQuery.FilterSplit | src/app/api/track-query/route.ts:19-21 | filtering a concatenation is the concatenation of the filtered parts, so the filter keeps store order |
| TrackQuery.FilterCount | src/app/api/track-query/route.ts:19-24 | every copy of a matching record is kept and no copy of any other, so `countDocuments` counts each matching stored record once |
| TrackQuery.LexTotal | src/app/api/track-query/route.ts:34 | the ascending endpoint order compares any two strings |
| TrackQuery.LexTransitive | src/app/api/track-query/route.ts:34 | the ascending endpoint order is transitive |
| TrackQuery.LexAntisymmetric | src/app/api/track-query/route.ts:34 | the ascending endpoint order is antisymmetric |
| TrackQuery.Insert | src/app/api/track-query/route.ts:31-36 | inserting into a list ordered by count descending, then endpoint ascending, keeps it ordered and adds exactly that record |
| TrackQuery.SortQueries | src/app/api/track-query/route.ts:31-36 | the result is ordered by count descending, then endpoint ascending, and is a permutation of the input |
| TrackQuery.InsertKeepsUnique | src/app/api/track-query/route.ts:31-36 | inserting a record with a new endpoint keeps endpoints unique |
| TrackQuery.SortKeepsUnique | src/app/api/track-query/route.ts:31-36 | sorting keeps endpoints unique |
| TrackQuery.Skip | src/app/api/track-query/route.ts:12 | page 1 skips nothing and each later page skips 20 more than the one before it, so the number skipped is a multiple of 20 |
| TrackQuery.PageWindow | src/app/api/track-query/route.ts:37-38 | positions skip to skip+19 of the sorted matches, as many as exist |
| TrackQuery.GroupByEndpoint | src/app/api/track-query/route.ts:40-47 | one record per endpoint, the first met (`$first`); every endpoint of the window is kept; on unique input it is the identity |
| TrackQuery.SumCounts | src/app/api/track-query/route.ts:63-67 | 0 on an empty store; with non-negative counts the total is non-negative and at least each single count |
| TrackQuery.Matched | src/app/api/track-query/route.ts:24-36 | the sorted matches: ordered, and a permutation of the records the filter keeps, each from the store and matching the term |
| TrackQuery.ListQueries | src/app/api/track-query/route.ts:10-95 | `totalCount` is the number of matches; the page is ordered, has unique endpoints, holds at most 20 records, all from the window, the store and the search; `hasMore` holds exactly when `totalCount > skip + queries.length`; `totalSiteGenerations` is the sum over the whole store |
| TrackQuery.PageDrawnFromWindow | src/app/api/track-query/route.ts:37-53 | re-sorting the grouped records takes nothing from outside the window |
| TrackQuery.UniqueStorePaging | src/app/api/track-query/route.ts:28-92 | with one record per endpoint, a page is exactly the window's records, min(20, what is left) of them, and more pages follow exactly when more than skip + 20 records match |
| TrackQuery.Get | src/app/api/track-query/route.ts:7-103 | a store failure, and only that, gives status 500 with "Internal server error"; otherwise the body is the read pipeline for the given page and search, the page defaulting to 1 and the search to "" |
| TrackQuery.CatAt | src/app/api/track-query/route.ts:19-21 | the term "cat" matches any endpoint holding the letters c, a, t in a row, each in either case |
| TrackQuery.CatSearchExamples | src/app/api/track-query/route.ts:20 | the term "cat" finds "/Category-page" and "/wildcats" |
| SearchBoard.NewRows | src/components/SearchBoardContent.tsx:93-101 | the fetched rows whose endpoint the list lacks, all of them and nothing else |
| SearchBoard.MergeQueries | src/components/SearchBoardContent.tsx:88-104 | a new search replaces the list; otherwise the old list is followed by exactly the fetched rows whose endpoint it lacked, in fetched order, and every fetched endpoint ends up listed |
| SearchBoard.NewRowsSingle | src/components/SearchBoardContent.tsx:99-101 | a single fetched row is appended exactly when its endpoint is not yet listed; with `NewRowsSplit` this makes the new rows an order-preserving filter of the page |
| SearchBoard.MergeKeepsUnique | src/components/SearchBoardContent.tsx:93-103 | merging never lists an endpoint twice |
| SearchBoard.NewRowsSplit | src/components/SearchBoardContent.tsx:99-101 | the filter distributes over a page split in two |
| SearchBoard.NothingNew | src/components/SearchBoardContent.tsx:99-101 | when every fetched endpoint is already listed, nothing is appended |
| SearchBoard.MergeIdempotent | src/components/SearchBoardContent.tsx:93-103 | appending the same page a second time changes nothing |
| SearchBoard.ErrorMessage | src/components/SearchBoardContent.tsx:81-119 | a non-OK status shows "Failed to fetch query stats"; a thrown Error shows its message; anything else thrown shows "Failed to load queries" |
| SearchBoard.WithSearchParam | src/components/SearchBoardContent.tsx:149-154 | `q` is set to a non-empty term and deleted for an empty one; every other parameter is unchanged |
| SearchBoard.SearchBoardContent.constructor | src/components/SearchBoardContent.tsx:52-62 | the initial state: search from `q` or "", empty list, page 1, `hasMore`, loading, no error, totals 0 and "0.00" |
| SearchBoard.SearchBoardContent.BeginFetch | src/components/SearchBoardContent.tsx:74 | a fetch marks `isFetchingMore` and changes nothing else |
| SearchBoard.SearchBoardContent.CompleteFetch | src/components/SearchBoardContent.tsx:85-123 | a body merges the rows and sets `hasMore`; totals change on a new search only; a failure keeps the list and records its message; both loading flags are cleared in every case |
| SearchBoard.SearchBoardContent.InitialLoad | src/components/SearchBoardContent.tsx:137-139 | the first request is page 1 of the initial search, as a new search; only `isFetchingMore` changes |
| SearchBoard.SearchBoardContent.SetSearchTerm | src/components/SearchBoardContent.tsx:185-192 | typing or clearing sets the term and nothing else |
| SearchBoard.SearchBoardContent.SearchSettled | src/components/SearchBoardContent.tsx:147-158 | the settled search rewrites `q`, resets the page to 1 and requests page 1 as a new search; the list, totals and error are unchanged |
| SearchBoard.SearchBoardContent.ScrollEffect | src/components/SearchBoardContent.tsx:169-173 | a request is made if and only if the sentinel is in view, more pages exist and nothing is loading; it is for the next page, appended, and the page advances by exactly one; the list, totals, error and URL parameters are unchanged |
| StatsPopup.Decimal | src/components/GenerationStatsPopup.tsx:230 | the rendering of a count is a non-empty string of digits with no leading zero |
| StatsPopup.DecimalRoundTrip | src/components/GenerationStatsPopup.tsx:230 | reading the rendered digits back gives the number |
| StatsPopup.DecimalInjective | src/components/GenerationStatsPopup.tsx:230 | different numbers render differently |
| StatsPopup.StatusLabel | src/components/GenerationStatsPopup.tsx:224-230 | the four labels for hovered or not, run out or not, with the seconds left while counting down |
| StatsPopup.StatusLabelDetermines | src/components/GenerationStatsPopup.tsx:224-230 | the label tells the four cases apart and shows the exact seconds left |
| StatsPopup.TimesWord | src/components/GenerationStatsPopup.tsx:173 | "time", plus an "s" exactly when the count is not 1: exactly "time" for a count of 1 and "times" otherwise |
| StatsPopup.GenerationStatsPopup.constructor | src/components/GenerationStatsPopup.tsx:19-22 | hidden, countdown 4, not hovered, not paused |
| StatsPopup.GenerationStatsPopup.Show | src/components/GenerationStatsPopup.tsx:24-30 | shown again with a full countdown and not paused |
| StatsPopup.GenerationStatsPopup.Tick | src/components/GenerationStatsPopup.tsx:33-47 | the countdown drops by one only while shown, not paused, not hovered and above 0 |
| StatsPopup.GenerationStatsPopup.TimerEffect | src/components/GenerationStatsPopup.tsx:33-40 | shown, not paused, not hovered and run out means hidden, with one hide scheduled; otherwise nothing changes |
| StatsPopup.GenerationStatsPopup.MouseEnter | src/components/GenerationStatsPopup.tsx:71 | hovering sets the flag and nothing else |
| StatsPopup.GenerationStatsPopup.MouseLeave | src/components/GenerationStatsPopup.tsx:50-56 | leaving clears hover, and hides the popup exactly when the countdown has run out |
| StatsPopup.GenerationStatsPopup.Close | src/components/GenerationStatsPopup.tsx:126-129 | closing hides the popup whatever the countdown says |
| StatsPopup.AutoDismissScenario | src/components/GenerationStatsPopup.tsx:33-56 | left alone, a shown popup is hidden after four ticks; hovered, it stays open with its countdown at 4 |
| RandomPaths.WordsShape | src/lib/randomPaths.ts:1-68 | the three word lists hold twenty words each |
| RandomPaths.Pick | src/lib/randomPaths.ts:74 | `Math.floor(u * n)` is always an index of the list |
| RandomPaths.FirstWord | src/lib/randomPaths.ts:71-79 | a coin above one half gives a theme, otherwise an adjective |
| RandomPaths.NounOf | src/lib/randomPaths.ts:75 | the noun comes from the noun list |
| RandomPaths.GenerateRandomPath | src/lib/randomPaths.ts:70-83 | every generated path is "/" + (a theme or an adjective) + "-" + a noun of the word lists |
| RandomPaths.PathParts | src/lib/randomPaths.ts:70-83 | the path is "/", the first word, "-", the noun, each found at its position |
| RandomPaths.CoinBoundary | src/lib/randomPaths.ts:71 | a coin of exactly 0.5 gives the adjective "delulu", a coin of 0.75 the theme "skibidi-toilet" (first word drawn at 0) |
| RandomPaths.GeneratedAt | src/lib/randomPaths.ts:88-90 | the i-th path the loop sees is the path of the i-th draw |
| RandomPaths.InsertionOrder | src/lib/randomPaths.ts:86-92 | `Array.from` of the Set, in first-added order: never longer than the list of paths added |
| RandomPaths.InsertionOrderFacts | src/lib/randomPaths.ts:86-92 | the array holds each added path exactly once and nothing else |
| RandomPaths.InsertionOrderStep | src/lib/randomPaths.ts:89 | adding a path appends it unless the set already holds it |
| RandomPaths.CollectStep | src/lib/randomPaths.ts:88-90 | one loop turn adds the new path to the collection unless it is already there |
| RandomPaths.CollectGrows | src/lib/randomPaths.ts:88-90 | one loop turn adds at most one path and removes none |
| RandomPaths.CollectedMonotone | src/lib/randomPaths.ts:88-90 | the collection never shrinks |
| RandomPaths.ExamplePaths | src/lib/randomPaths.ts:85-93 | the loop stops at the first draw where the set reaches five and returns those five, in insertion order; it stops with none only when the draws run out |
| RandomPaths.ExamplePathsAreCandidates | src/lib/randomPaths.ts:85-93 | the listed paths are pairwise distinct and each is a path the generator can produce |
| ImportStats.SchemeEnd | scripts/import-stats.ts:8 | a match of the scheme ends at position 10 or 14, after "mongodb" and then "://" |
| ImportStats.ValidateMongoURI | scripts/import-stats.ts:6-10 | an accepted URI opens with "mongodb", is longer than "mongodb://" and does not end in whitespace |
| ImportStats.SchemeEndCases | scripts/import-stats.ts:8 | the prefix `mongodb(?:\+srv)?://` matches exactly "mongodb://" or "mongodb+srv://" |
| ImportStats.ValidateMongoURIExactly | scripts/import-stats.ts:6-10 | a URI is accepted if and only if it is one of the two schemes followed by a non-empty rest with no whitespace |
| ImportStats.PlainRests | scripts/import-stats.ts:6-10 | after "mongodb://", the rest is accepted if and only if it is non-empty and has no whitespace |
| ImportStats.SrvRests | scripts/import-stats.ts:6-10 | after "mongodb+srv://", the rest is accepted if and only if it is non-empty and has no whitespace |
| ImportStats.WhitespaceRejected | scripts/import-stats.ts:8 | whitespace anywhere after the scheme makes the URI invalid |
| ImportStats.BareSchemesRejected | scripts/import-stats.ts:8 | a scheme with nothing after it is rejected |
| ImportStats.Anchored | scripts/import-stats.ts:8 | a URI that opens with neither "mongodb://" nor "mongodb+srv://" is rejected |
| ImportStats.AnchoredExamples | scripts/import-stats.ts:8 | " mongodb://x", "postgres://x" and "mongo://x" are rejected |
| ImportStats.BrokenSeparatorRejected | scripts/import-stats.ts:8 | "mongodb:/x" is rejected: the separator must be "://" in full |
| ImportStats.PlainHostAccepted | scripts/import-stats.ts:8 | "mongodb://h:27017/db" is accepted |
| ImportStats.Project | scripts/import-stats.ts:48-52 | one document per record |
| ImportStats.ProjectKeepsFields | scripts/import-stats.ts:48-52 | each document carries the endpoint, count and last-queried time of the record at the same position |
| ImportStats.ProjectRoundTrip | scripts/import-stats.ts:48-52 | reading the documents back gives the records, in order |
| ImportStats.ImportData | scripts/import-stats.ts:12-54 | an absent or empty URI ends the script as missing, a malformed one as invalid, both before connecting; otherwise it connects with that URI and writes the projected records |

## Left out

- `src/lib/mongodb.ts` is not part of this model: it is the connection singleton, I/O over a foreign client.
- `src/app/api/generate/route.ts` is not part of this model: it is a thin wrapper over the generation service and builds its own prompt.
- `estimatedCost` (`calculateCost`, `src/app/api/track-query/route.ts:70-85`) is not modelled: it is floating-point arithmetic formatted with `toFixed(2)`. The dashboard only passes the string along.
- TrackQuery.Matches: the search term is treated as a literal substring, not as a MongoDB regular expression, and case is folded for ASCII letters only.
- TrackQuery.Get: the page must be a whole number of at least 1; `parseInt` giving NaN, 0 or a negative page is outside the model.
- TrackQuery.Get: a failed connection or query is one abstract failure (`store == None`); the order of the three database calls is not modelled.
- TrackQuery.SortQueries: MongoDB's order between two records with the same count and endpoint is not fixed; the model picks one.
- Counter increments and upserts are not modelled: none of the modelled files performs them.
- Prompts.GetRandomAttitude: reals are exact, so the rounding of IEEE doubles near a prefix-sum boundary is not modelled.
- Prompts.Fill: takes the fixed text as a `Template` value; `PageTemplate` holds the site's text and `Prompts.GeneratePagePrompt` uses it.
- Prompts.GetRandomAttitude: takes the table as a parameter; `Prompts.GeneratePagePrompt` passes the site's table, as the source does.
- RandomPaths.ExamplePaths: the random stream is a finite sequence of draws. The source loops until it has five paths; the model returns None if the draws run out first.
- RandomPaths.GenerateRandomPath: takes the word lists as a parameter (`Words` holds the site's lists), and the coin, word and noun draws as one `Draw`.
- The source computes `examplePaths` once at module load; the model's method runs once per call.
- Timers are events. The one-second interval is `Tick`, the debounce end is `SearchSettled`, and the 300 ms `onHide` delay is a counter of scheduled hides. A debounce cancelled by further typing simply has no `SearchSettled`.
- StatsPopup.GenerationStatsPopup: `isPaused` is only ever set to false in the source, and so in the model.
- SearchBoard.SearchBoardContent.CompleteFetch: the error message is never cleared by a later success, as in the source.
- React's batching of state updates within one render is not modelled: each event method sees the state left by the previous one.
- `router.replace` and the URL string it builds are not modelled beyond the parameter map.
- `localStorage` and `userGeneratedCount` (`src/components/SearchBoardContent.tsx:128-134`) are not modelled: browser storage.
- Progress-bar widths, animations and `toLocaleString` in the popup are not modelled: presentation only.
- `scripts/import-stats.js` is not part of this model: it is the compiled output of `scripts/import-stats.ts`.
- ImportStats.ImportData: the connection, the delete, the insert, the close and the exit on a database error are not modelled. The script's own record list is empty (`scripts/import-stats.ts:4`).
- Presentation files with no stateable logic are not part of this model: `QueryRow.tsx`, `Tooltip.tsx`, `ToolButton.tsx`, `MotionToolButton.tsx`, the pages, `features.ts`, `GenerationStatsContext.tsx` and the Next.js configuration.
- The record type file `src/types/query.ts` is not part of this model; the record carries the three fields the script and the routes use.
