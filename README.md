# WonderfulSubs provider, modelled in Dafny

This project models the WonderfulSubs streaming-catalog provider
(`src/provider/wonderfulsubs/WonderfulSubs.ts`) and proves properties of the
model. It covers:

- the provider object: the catalog per category (`showData`), the page
  cursors (`showPageIndex`), the current category, the settings, and the
  watched and position tables;
- the catalog operations: `fetchShows`, `fetchMoreShows` (pages of 24, capped
  at 120 shows, merged by id), `searchShows`, `fetchBookmarks` and
  `fetchShowDecription`;
- the overlays: bookmark flags (`checkBookmarks`), watched and progress
  (`processShowDetails`), and `onShowWatched`;
- the translators from the upstream JSON shapes to shows, seasons (chunks of
  50 episodes for a flat list), episodes, source stubs and a resolved source;
- `findIdealSource`, the priority chain of lodash `matches` filters;
- `fetchSources`: stall marking, the do-while loop that tries candidates
  until a request is not answered with status 404, and the write-back of the
  resolved source;
- the helpers `fetch_retry`, `showsToLookupTable`, `showShortName`,
  `indexOrGoodEnough` and `normalizeEncoding`.

The network is a parameter. `attempt(i)` is the outcome of the i-th call to
`fetch` for one request: `None` when that call threw, otherwise the decoded
body. `stream(k)` gives the attempts of the k-th stream request made by
`fetchSources`. `decodeURIComponent` is also a parameter, `decode`. It only
has to meet `DecodeShortens`: whenever its output still holds a percent
escape, it is shorter than its input. JavaScript TypeErrors become
`Failure(fault)` values. These arise from a missing category, show, season
or episode, an unanswered request, an empty candidate pool or an empty list
of stream URLs.

Layout:

- `wrappers.dfy`: Option and Result.
- `domain.dfy`: records and constants.
- `text.dfy`: `indexOf`, `substring`, decimal rendering and the
  `/%[0-9a-f]{2}/i` test.
- `transport.dfy`: `fetch_retry` and `normalizeEncoding`.
- `translate.dfy`: the translators.
- `selection.dfy`: stall marking, `findIdealSource` and the candidate loop
  as a function of the responses.
- `catalog.dfy`: lookup tables, bookmark flags, overlays and the watched flag.
- `resolution.dfy`: what `fetchSources` does to the catalog, as a function.
- `provider.dfy`: the `WonderfulSubs` class and the imperative candidate loop.

## Model

| member | source | states |
|---|---|---|
| Transport.FetchRetry | src/provider/wonderfulsubs/WonderfulSubs.ts:14-23 | The loop returns the first attempt that did not throw, after exactly that many tries: every earlier attempt threw. When all `n` attempts throw it returns undefined (None) after `n` tries. |
| Transport.FirstAnswer | src/provider/wonderfulsubs/WonderfulSubs.ts:14-23 | Definition without ensures: the value of the retry loop, the first of the first `n` attempts that did not throw; its properties are FirstAnswerFacts and FirstAnswerSettled. |
| Transport.FirstAnswerFacts | src/provider/wonderfulsubs/WonderfulSubs.ts:14-23 | The retry result is undefined iff every attempt threw; otherwise it is the answer of some attempt i, and every attempt before i threw. |
| Transport.FirstAnswerSettled | src/provider/wonderfulsubs/WonderfulSubs.ts:15-17 | Once an attempt has answered, allowing more attempts does not change the result (the early `return`). |
| Translate.ShowShortName | src/provider/wonderfulsubs/WonderfulSubs.ts:25-27 | With "watch/" present, the short name is the text after its first occurrence; without it, `indexOf` is -1 and the first five characters are dropped (empty for a URL of at most five characters). |
| Text.IndexOf | src/provider/wonderfulsubs/WonderfulSubs.ts:26 | The position of the first occurrence of the pattern, or -1 exactly when it does not occur. |
| Text.SubstringFrom | src/provider/wonderfulsubs/WonderfulSubs.ts:26 | The suffix of the string from the start position clamped into [0, length]. |
| Text.NatToString | src/provider/wonderfulsubs/WonderfulSubs.ts:415 | Definition: the decimal rendering of a template literal, at least one character (see NatToStringDigits). |
| Text.NatToStringDigits | src/provider/wonderfulsubs/WonderfulSubs.ts:415 | The rendering holds only digits, and starts with 0 only for the number 0. |
| Text.HasPercentEscape | src/provider/wonderfulsubs/WonderfulSubs.ts:276 | Predicate: some percent sign is followed by two hex digits, in either case. |
| Catalog.LookupTable | src/provider/wonderfulsubs/WonderfulSubs.ts:29-37 | The keys are exactly the ids of the shows, and every entry sits under its own id. |
| Catalog.LookupTableLastWins | src/provider/wonderfulsubs/WonderfulSubs.ts:33-35 | A show with no later show of the same id is the one the table holds under that id; the last write wins. |
| Catalog.LookupTableSize | src/provider/wonderfulsubs/WonderfulSubs.ts:29-37 | The table never has more entries than there were shows, because ids may collide. |
| Catalog.ShowsToLookupTable | src/provider/wonderfulsubs/WonderfulSubs.ts:29-37 | The `forEach` loop builds exactly the lookup table. |
| Catalog.WithBookmarks | src/provider/wonderfulsubs/WonderfulSubs.ts:39-49 | Same keys. Each show is flagged bookmarked iff a bookmarks table exists and holds its key; nothing else about the show changes. |
| Catalog.WithBookmarksIdempotent | src/provider/wonderfulsubs/WonderfulSubs.ts:39-49 | Flagging twice against the same bookmarks equals flagging once. |
| Catalog.CheckBookmarks | src/provider/wonderfulsubs/WonderfulSubs.ts:43-48 | The loop over the keys produces the flagged table. |
| Translate.IndexOrGoodEnough | src/provider/wonderfulsubs/WonderfulSubs.ts:51-56 | The element at the ideal index when it exists, else the last element; nothing (undefined) only for an empty array. |
| Translate.PickImage | src/provider/wonderfulsubs/WonderfulSubs.ts:376-383 | A picture exists iff the poster list exists and is non-empty, and it is the `source` of the ideal-or-last image. |
| Provider.WonderfulSubs.constructor | src/provider/wonderfulsubs/WonderfulSubs.ts:69-99 | Empty catalogs and cursors, the first category ("bookmarks") current, and the settings and both tables as loaded. |
| Provider.WonderfulSubs.OnCurrentPositionsUpdated | src/provider/wonderfulsubs/WonderfulSubs.ts:101-103 | Replaces the positions table; every other field is unchanged. |
| Provider.WonderfulSubs.OnWatchedUpdated | src/provider/wonderfulsubs/WonderfulSubs.ts:105-107 | Replaces the watched table; every other field is unchanged. |
| Provider.WonderfulSubs.OnSettingsUpdated | src/provider/wonderfulsubs/WonderfulSubs.ts:109-111 | Replaces the settings; every other field is unchanged. |
| Provider.WonderfulSubs.OnBookmarkAdded | src/provider/wonderfulsubs/WonderfulSubs.ts:123-125 | The bookmarks category becomes the given table; the rest of the catalog and the other fields are unchanged. |
| Provider.WonderfulSubs.OnBookmarkRemoved | src/provider/wonderfulsubs/WonderfulSubs.ts:127-129 | The same replacement as a bookmark being added. |
| Catalog.FindById | src/provider/wonderfulsubs/WonderfulSubs.ts:115-118 | `find` by id: the first position holding the id, or none when no element holds it. |
| Catalog.WatchedPlace | src/provider/wonderfulsubs/WonderfulSubs.ts:115-118 | The first season with the season id, and within it the first episode with the episode id; none only when one of them is missing. |
| Catalog.WithEpisode | src/provider/wonderfulsubs/WonderfulSubs.ts:119 | Exactly one episode of one season is replaced; every other season and episode and the show's other fields are unchanged. |
| Catalog.SetWatched | src/provider/wonderfulsubs/WonderfulSubs.ts:113-121 | Without a show id, season id and episode id, nothing changes. Otherwise, success writes `watched` on the episode found by id; failure means the category, show, seasons, season or episode is missing. |
| Catalog.SetWatchedTouchesOneFlag | src/provider/wonderfulsubs/WonderfulSubs.ts:113-121 | Every other category and show is unchanged, and the target episode differs from before only in its `watched` flag, which now holds the given value. |
| Provider.WonderfulSubs.OnShowWatched | src/provider/wonderfulsubs/WonderfulSubs.ts:113-121 | The catalog becomes what SetWatched gives, or stays unchanged with the same fault; the other fields are unchanged. |
| Provider.WonderfulSubs.FetchBookmarks | src/provider/wonderfulsubs/WonderfulSubs.ts:165-172 | Loads the stored bookmarks only when the category is absent, then returns that category. |
| Provider.Merged | src/provider/wonderfulsubs/WonderfulSubs.ts:187 | The spread merge: the keys are the union; page entries win on a clash; the other old entries are kept. |
| Provider.BookmarksOf | src/provider/wonderfulsubs/WonderfulSubs.ts:161 | The bookmarks table is present iff the "bookmarks" category is loaded, and then it is that category. |
| Provider.Flagged | src/provider/wonderfulsubs/WonderfulSubs.ts:161 | Only the refreshed category changes, and it carries the bookmark flags. |
| Provider.WonderfulSubs.RefreshFlags | src/provider/wonderfulsubs/WonderfulSubs.ts:190-191 | The in-place `checkBookmarks` call: the catalog becomes Flagged and the flagged table is returned. |
| Provider.WonderfulSubs.AppendPage | src/provider/wonderfulsubs/WonderfulSubs.ts:177-189 | On an answer, the page at the cursor is merged in and the cursor advances by 24. Without an answer nothing changes. |
| Provider.WonderfulSubs.FetchMoreShows | src/provider/wonderfulsubs/WonderfulSubs.ts:174-192 | It requests only below the 120-show cap and merges the page by id. The cursor advances by 24 only when a page has arrived. Either way the flags are refreshed. An unloaded category fails. |
| Provider.WonderfulSubs.FetchShows | src/provider/wonderfulsubs/WonderfulSubs.ts:140-163 | Bookmarks come from the store. The current category with a cursor continues as FetchMoreShows does. A new category is fetched once, with the cursor set to 24. A loaded one is served with fresh flags. Every case but an unanswered first fetch makes the category current; that one keeps the old category and fails. |
| Provider.WonderfulSubs.SearchShows | src/provider/wonderfulsubs/WonderfulSubs.ts:194-211 | The answered page becomes the "search" category, flagged, and it becomes current; the cursors are unchanged. |
| Provider.WonderfulSubs.FetchShowDescription | src/provider/wonderfulsubs/WonderfulSubs.ts:213-216 | The show of the current category: undefined for an unknown id, and a fault for an unloaded category. |
| Catalog.NestedGet | src/provider/wonderfulsubs/WonderfulSubs.ts:239-240 | `get(table, "show.season.episode")`: defined iff every level is present, and then it is the stored value. |
| Catalog.Overlay | src/provider/wonderfulsubs/WonderfulSubs.ts:238-251 | Same seasons and episodes; each episode's `watched` and `progress` become the tables' entries at (show id, season id, episode id); nothing else changes. |
| Catalog.OverlayIdempotent | src/provider/wonderfulsubs/WonderfulSubs.ts:238-251 | Overlaying twice with the same tables equals overlaying once. |
| Provider.WonderfulSubs.ProcessShowDetails | src/provider/wonderfulsubs/WonderfulSubs.ts:238-251 | The stored show is replaced by its overlay, which is also returned; a show without seasons is reported as a fault. |
| Provider.WonderfulSubs.FetchSeasons | src/provider/wonderfulsubs/WonderfulSubs.ts:218-236 | A loaded show is only overlaid, with no request. Otherwise the series is requested by short name, or by id when the short name is empty. On an answer the seasons are translated and stored with `seasonsFetched`, then overlaid. After any success the stored show is the one returned and is marked loaded, so a second call sends no request. |
| Transport.Normalized | src/provider/wonderfulsubs/WonderfulSubs.ts:274-280 | The token settled on is one whose decoding holds no escape; it is the input itself or shorter. NormalizedDecodes says how it is reached. |
| Transport.NormalizedDecodes | src/provider/wonderfulsubs/WonderfulSubs.ts:275-279 | The token settled on is the input decoded some k times, and every earlier count still left an escape after one more decoding, so the loop stops at the first count that leaves none. |
| Transport.DecodedRounds | src/provider/wonderfulsubs/WonderfulSubs.ts:275-279 | The same with the count named: the loop decodes exactly `Rounds` times. |
| Transport.NormalizeEncoding | src/provider/wonderfulsubs/WonderfulSubs.ts:274-280 | The while loop stops and yields the normalized token. |
| Resolution.Locate | src/provider/wonderfulsubs/WonderfulSubs.ts:281-284 | Succeeds iff the category, show, season position and episode position all exist; the missing category and the missing show get their own faults. |
| Resolution.ResolveMissing | src/provider/wonderfulsubs/WonderfulSubs.ts:281-284 | A failed lookup changes nothing, requests nothing and reports the lookup's fault. |
| Selection.MarkStalls | src/provider/wonderfulsubs/WonderfulSubs.ts:285-294 | A non-zero id naming an existing slot marks that one source stalled and leaves the rest unchanged; otherwise every source is unstalled. The length is kept, and nothing but `stalled` changes. |
| Selection.ZeroIdClears | src/provider/wonderfulsubs/WonderfulSubs.ts:285 | An id of 0 is falsy: it clears every stall mark, as no id does. |
| Selection.WithIndexes | src/provider/wonderfulsubs/WonderfulSubs.ts:336-339 | Each source is paired with its position. |
| Selection.FindIdealSource | src/provider/wonderfulsubs/WonderfulSubs.ts:324-350 | For a non-empty list, the index is within it and the source is the one at that index; for an empty list, index 0 and no source. |
| Selection.FindIdealSourceFacts | src/provider/wonderfulsubs/WonderfulSubs.ts:340-344 | The narrowed pool is empty iff no source is ideal; otherwise its head is the first ideal source. |
| Selection.NarrowIsKeepAll | src/provider/wonderfulsubs/WonderfulSubs.ts:340-343 | The `reduce` of filters equals one filter by the conjunction of the matchers. |
| Selection.KeepThenKeepAll | src/provider/wonderfulsubs/WonderfulSubs.ts:340-343 | Filtering by the first matcher and then by the rest equals filtering by the whole chain. |
| Selection.KeepAllEverything | src/provider/wonderfulsubs/WonderfulSubs.ts:340-343 | An empty chain keeps the whole pool. |
| Selection.KeepAllFirst | src/provider/wonderfulsubs/WonderfulSubs.ts:344 | The filtered pool is empty iff nothing passes; otherwise its head is the first entry that passes. |
| Selection.Keep | src/provider/wonderfulsubs/WonderfulSubs.ts:341 | Definition without ensures: the entries whose source satisfies one matcher, in order. |
| Selection.Narrow | src/provider/wonderfulsubs/WonderfulSubs.ts:340-343 | Definition without ensures: the pool filtered by each matcher in turn; NarrowIsKeepAll relates it to one filter. |
| Selection.Priority | src/provider/wonderfulsubs/WonderfulSubs.ts:331-334 | Definition without ensures: the preferred-language matcher, preceded by "not stalled" when recovering. |
| Selection.Ideal | src/provider/wonderfulsubs/WonderfulSubs.ts:331-334 | Predicate: a source passes the chain iff it is in the preferred language and, when recovering, not stalled. |
| Selection.FindIdealSourceSpec | src/provider/wonderfulsubs/WonderfulSubs.ts:324-350 | When some source is ideal (unstalled when recovering, and in the preferred language), the pick is the smallest such index. When none is, the pick is index 0 with `sources[0]`. |
| Selection.PreferredLanguageExamples | src/provider/wonderfulsubs/WonderfulSubs.ts:329-349 | Between "subs" and "dubs", a "dubs" preference picks index 1; a "raw" preference falls back to index 0. |
| Selection.StallRecoveryExamples | src/provider/wonderfulsubs/WonderfulSubs.ts:332-349 | Recovery skips a stalled match. When no unstalled source matches, the fallback is index 0 even though it is stalled. |
| Selection.FirstIdeal | src/provider/wonderfulsubs/WonderfulSubs.ts:340-344 | The position of the first ideal source lies within the pool, or is its length when none is ideal. |
| Selection.FirstIdealFacts | src/provider/wonderfulsubs/WonderfulSubs.ts:340-344 | No source before the position is ideal, and the source at the position is ideal when the position is inside the pool. |
| Selection.Selected | src/provider/wonderfulsubs/WonderfulSubs.ts:300 | The loop's selection lies within a non-empty pool. |
| Selection.SelectedIsFindIdealSource | src/provider/wonderfulsubs/WonderfulSubs.ts:300 | The loop's selection equals the index `findIdealSource` returns. |
| Selection.RemoveAt | src/provider/wonderfulsubs/WonderfulSubs.ts:313 | `filter((_, i) => i !== index)`: one element shorter, with the elements before the index kept in place and the rest shifted down by one. |
| Selection.RunLoop | src/provider/wonderfulsubs/WonderfulSubs.ts:299-315 | The loop requests at most as many candidates as the pool holds. |
| Selection.Turn | src/provider/wonderfulsubs/WonderfulSubs.ts:300-315 | An unfolding of RunLoop's definition, used by the imperative loop's proof: one turn. A resolved selection returns at once with no request; an unanswered request ends the loop; a response that is not a 404 with others left ends it with that answer. |
| Selection.NotFoundStep | src/provider/wonderfulsubs/WonderfulSubs.ts:312-315 | An unfolding of RunLoop's 404 branch: a 404 with other candidates left drops the requested candidate and goes on with the next response. |
| Selection.Extend | src/provider/wonderfulsubs/WonderfulSubs.ts:299-315 | An unfolding of RunLoop's continuing branch: a turn that continues adds its candidate to the requests made so far; the loop goes on from the next response. |
| Selection.RequestedFromPool | src/provider/wonderfulsubs/WonderfulSubs.ts:295-315 | The requested candidates form a sub-multiset of the working copy: none is requested more often than it occurs. |
| Selection.RemovedThenRequested | src/provider/wonderfulsubs/WonderfulSubs.ts:313 | A candidate followed by requests from the pool without it stays within the pool's multiset. |
| Selection.AnsweredIsLastRequested | src/provider/wonderfulsubs/WonderfulSubs.ts:309-315 | A loop that ends with an answer requested that candidate last, and the answer is the response to that last request. |
| Selection.RemovedFromPool | src/provider/wonderfulsubs/WonderfulSubs.ts:313 | What remains after a removal was in the pool. |
| Selection.EndFromPool | src/provider/wonderfulsubs/WonderfulSubs.ts:299-315 | The source the loop ends on is from the pool: already resolved for the early return, unresolved for an answer. |
| Selection.ContinuesOnlyOnNotFound | src/provider/wonderfulsubs/WonderfulSubs.ts:315 | Every response except the last one was a 404. |
| Selection.AllNotFoundExhausts | src/provider/wonderfulsubs/WonderfulSubs.ts:299-315 | If every unresolved candidate answers 404, each one is requested exactly once, and the loop ends on the last 404 body. |
| Selection.ThirdAttemptResolves | src/provider/wonderfulsubs/WonderfulSubs.ts:299-315 | With three candidates and the answers 404, 404, 200, all three are requested in order, and the third resolves. |
| Resolution.Responses | src/provider/wonderfulsubs/WonderfulSubs.ts:309 | The k-th response the loop sees is what fetch_retry with 3 attempts makes of the k-th request's attempts. |
| Resolution.Codes | src/provider/wonderfulsubs/WonderfulSubs.ts:305-307 | One code per requested candidate, in order: its normalized fetch URL. |
| Provider.Request | src/provider/wonderfulsubs/WonderfulSubs.ts:305-309 | The code sent is the candidate's normalized URL, and the response is the first answer among three attempts. |
| Provider.Step | src/provider/wonderfulsubs/WonderfulSubs.ts:300-315 | One iteration of the do-while. A request is sent iff the selected source is unresolved, with that source's code. It stops exactly as RunLoop's turn does; otherwise it continues with a strictly smaller pool. |
| Provider.TryCandidates | src/provider/wonderfulsubs/WonderfulSubs.ts:295-315 | The imperative loop ends as RunLoop says, and sends exactly the codes of the candidates RunLoop requests. |
| Translate.TranslateSources | src/provider/wonderfulsubs/WonderfulSubs.ts:352-363 | Succeeds iff there is at least one URL. The result takes the last (best) URL's `src` and label and is marked fetched; nothing else of the source changes. An empty list is a fault. |
| Resolution.Outcome | src/provider/wonderfulsubs/WonderfulSubs.ts:300-321 | The early return gives the resolved source. An answer with stream URLs always gives the translated source when the candidate's id is inside the list, and `WriteBeyondEnd` otherwise; an answer without URLs gives `NoStreamUrls`. An empty pool and an unanswered request give their faults. |
| Resolution.ResolveTouchesOneEpisode | src/provider/wonderfulsubs/WonderfulSubs.ts:285-321 | Only the requested episode's sources change, and their number stays the same. Each differs from before only in `stalled`, except the slot where the resolved source is written. The requested candidates form a sub-multiset of the stall-marked sources: none is requested more often than it occurs. |
| Resolution.FinalCloseToSources | src/provider/wonderfulsubs/WonderfulSubs.ts:285-321 | Slot by slot, the final list differs from the original only in `stalled`, or holds the resolved source at its id. A source resolved from an answer is stored at `sources[id]`, whatever the numbering; otherwise the list is the stall-marked one. |
| Resolution.Final | src/provider/wonderfulsubs/WonderfulSubs.ts:316-321 | Definition without ensures: the episode's sources after the call; FinalCloseToSources and FinalKeepsNumbering state what it holds. |
| Resolution.Resolve | src/provider/wonderfulsubs/WonderfulSubs.ts:268-322 | Definition without ensures: everything `fetchSources` does, as a function of the catalog and the answers; its properties are the Resolve lemmas. |
| Resolution.ResolveStoresResult | src/provider/wonderfulsubs/WonderfulSubs.ts:316-321 | A success returns the show as stored, and its source is in the stored episode: freshly resolved at `sources[id]`, or a source the list already held, with only the stall marks written. |
| Resolution.ResolveShortCircuit | src/provider/wonderfulsubs/WonderfulSubs.ts:300-304 | When the selected source is already resolved, nothing is requested, and that source is returned with the stored show. |
| Resolution.ResolveKeepsNumbering | src/provider/wonderfulsubs/WonderfulSubs.ts:316-321 | If ids are positions, they stay positions and nothing is written past the end. A success returns a fetched source, stored at its own id. |
| Resolution.FinalKeepsNumbering | src/provider/wonderfulsubs/WonderfulSubs.ts:320 | Writing a resolved source from a well-numbered list back by id lands on its own slot and keeps the numbering. |
| Resolution.ResolveResultOrigin | src/provider/wonderfulsubs/WonderfulSubs.ts:299-321 | A success returns either a source of the episode that was already resolved, or the last requested candidate translated from the answer to its request. |
| Resolution.ResolveAnswered | src/provider/wonderfulsubs/WonderfulSubs.ts:316-321 | When the loop ends on an answer listing stream URLs, the last requested candidate is resolved from the answer to its request. With its id inside the list the call succeeds with that source, stored at `sources[id]`; otherwise it fails with `WriteBeyondEnd` and only the stall marks are stored. |
| Resolution.CodesSnoc | src/provider/wonderfulsubs/WonderfulSubs.ts:305-307 | Requesting one more candidate appends its code to the codes sent. |
| Provider.WonderfulSubs.FetchSources | src/provider/wonderfulsubs/WonderfulSubs.ts:268-322 | The catalog, the result and the codes sent are exactly what Resolve gives for the old state and the current language; the other fields are unchanged. |
| Translate.TranslateShow | src/provider/wonderfulsubs/WonderfulSubs.ts:369-391 | The id and short name are the URL's short name, under the provider key. It starts unfetched, with no seasons and not bookmarked. The name and description are the entry's title and description, and the attributes carry its dubbed and subbed flags and rating. The picture and wall art are the ideal-or-last posters (indices 2 and 4). |
| Translate.TranslateShows | src/provider/wonderfulsubs/WonderfulSubs.ts:365-393 | One show per upstream entry, in order. |
| Translate.TranslateShowsIgnoresOffset | src/provider/wonderfulsubs/WonderfulSubs.ts:367-370 | The index offset does not affect the result. |
| Translate.TranslateSeasons | src/provider/wonderfulsubs/WonderfulSubs.ts:395-444 | The loops build exactly Seasons(media). |
| Translate.Seasons | src/provider/wonderfulsubs/WonderfulSubs.ts:395-444 | Definition without ensures: the seasons the translation yields; ChunkedSeasons and UnchunkedSeasons state them. |
| Translate.Slices | src/provider/wonderfulsubs/WonderfulSubs.ts:405-421 | There are ⌈n/50⌉ slices. |
| Translate.ChunkedSeasons | src/provider/wonderfulsubs/WonderfulSubs.ts:403-423 | A flat list of more than 50 episodes becomes ⌈n/50⌉ seasons numbered from 0. Each holds at most 50 episodes and is named "start+1 to end". Together the slices are the whole list, in order. |
| Translate.UnchunkedSeasons | src/provider/wonderfulsubs/WonderfulSubs.ts:424-443 | A flat list of at most 50 episodes is one season, "1 to n". Otherwise there is one season per media group, numbered by position, with the group's title and kind, and its episodes translated. |
| Translate.HundredTwentyEpisodes | src/provider/wonderfulsubs/WonderfulSubs.ts:403-423 | 120 episodes give three seasons: "1 to 50", "51 to 100" and "101 to 120". |
| Translate.SeasonNames | src/provider/wonderfulsubs/WonderfulSubs.ts:415 | The template renders the three 120-episode ranges as those strings. |
| Translate.RetrieveUrls | src/provider/wonderfulsubs/WonderfulSubs.ts:475-477 | An array yields its URLs in order; a single URL gives the list holding just that URL, and a missing one gives a list holding undefined. |
| Translate.StubSourcesAsWrittenFlattened | src/provider/wonderfulsubs/WonderfulSubs.ts:467-493 | The flattened list holds one stub per retrieve URL of each entry, at the entry's offset, with id equal to the entry's index. `subbed` and `dubbed` hold iff some entry is "subs" or "dubs". |
| Translate.StubSourcesAsWritten | src/provider/wonderfulsubs/WonderfulSubs.ts:447-494 | Definition without ensures: the stubs exactly as the code builds them, each carrying its entry's index; StubSourcesAsWrittenFlattened and StubSourcesDirect state them. |
| Translate.FlattenFromAt | src/provider/wonderfulsubs/WonderfulSubs.ts:478-493 | The u-th URL of entry j appears at offset(j) + u as that entry's stub. |
| Translate.FlattenFromLength | src/provider/wonderfulsubs/WonderfulSubs.ts:493 | The flattened length is the total number of URLs. |
| Translate.LanguageFlagsExact | src/provider/wonderfulsubs/WonderfulSubs.ts:470-474 | `subbed` holds iff some entry is "subs", and `dubbed` iff some entry is "dubs". |
| Translate.StubSources | src/provider/wonderfulsubs/WonderfulSubs.ts:447-494 | The corrected numbering: the same stubs and flags as the code builds, except that each id is the stub's position in the list. |
| Translate.StubSourcesDirect | src/provider/wonderfulsubs/WonderfulSubs.ts:454-466 | As the code builds it, a truthy episode-level `retrieve_url` gives a single "unk" stub with id 0, using the first URL, and no language flags; renumbering leaves it unchanged. |
| Translate.FlattenFromFresh | src/provider/wonderfulsubs/WonderfulSubs.ts:479-488 | Every stub starts unresolved and not stalled. |
| Translate.TranslateEpisodes | src/provider/wonderfulsubs/WonderfulSubs.ts:496-513 | One episode per entry, numbered by position, with its title, number and description, no watched or progress, and the thumbnail at the ideal index 0. Its sources are exactly the stubs as the code numbers them (the parent entry's index), all fresh, and its flags are those the stubs yield. |
| Translate.TranslateEpisode | src/provider/wonderfulsubs/WonderfulSubs.ts:496-513 | Definition without ensures: one episode with the stubs as the code numbers them; TranslateEpisodes states its fields. |
| Translate.TranslateEpisodesRenumbered | src/provider/wonderfulsubs/WonderfulSubs.ts:496-513 | The corrected translation: the same episodes, except that every source's id is its position; all sources fresh. |
| Translate.AsWrittenWriteBackHitsSibling | src/provider/wonderfulsubs/WonderfulSubs.ts:478-481 | With the code's ids, writing back a resolved second stub of an entry overwrites its sibling. The slot that was resolved stays unresolved. |
| Translate.WriteBackByIdReplacesSelected | src/provider/wonderfulsubs/WonderfulSubs.ts:320 | With positional ids, writing back by id replaces exactly the selected stub. |
| Translate.AsWrittenIdPastEnd | src/provider/wonderfulsubs/WonderfulSubs.ts:475-481 | With the code's ids, an entry with an empty URL array shifts the next entry's stub to id 1 in a list of one, so its write-back lands past the end. |

## Left out

- The `SeasonType.episodes` value stored in each season built from a flat
  list is taken to be the string "episodes" (`SeasonEpisodesKind`), because
  the enum's definition in `src/types` is not part of this model. The
  upstream test on a media group's `type` is the separate constant
  `UpstreamEpisodesType`.
- HTTP, URL building and `console.log`. Every request is an oracle
  parameter. The search query and the series name only shape a URL, so
  `SearchShows` takes no query and `FetchSeasons` returns the series name it
  would send.
- `decodeURIComponent` is a parameter assumed to shorten whenever it leaves
  an escape. The URIError it throws on a malformed escape is not modelled.
- lodash `get` parses its path. `NestedGet` indexes the three levels
  directly.
- The event subscriptions and the async IIFE of the constructor. The
  settings and both tables are constructor arguments, and every handler is a
  method. `getSettings`/`setSettings` of the settings store are not part of
  this model.
- The `type = "latest"` default of `fetchShows`: callers pass a category.
- Raw JSON. The upstream records are datatypes carrying only the fields the
  code reads. `rating` is a string, and `episode_number` and `progress` are
  integers.
- `bookmarks && !!bookmarks[key]` yields undefined when there is no
  bookmarks table. The model uses `false`, which is equally falsy. A stored
  bookmark entry is assumed truthy.
- Show tables are maps from id to show, which have no key order. The code's
  objects keep insertion order (page order, with a new page's fresh ids after
  the old ones), and the show list renders them in that order. This model
  does not capture that order.
- `picture`, `wallArt` and thumbnails: the code's falsy results (`undefined`
  and `0`) are both `None`.
- Resolution.Outcome: a write-back at an id at or past the end of the list
  is reported as `WriteBeyondEnd`. JavaScript instead grows the array
  (leaving holes for a larger id), stores the source there and returns it.
  With the code's stub ids this is reachable: an entry with an empty array
  of retrieve URLs followed by an entry with one URL gives a single stub
  with id 1 (Translate.AsWrittenIdPastEnd). With positional ids it cannot
  happen (ResolveKeepsNumbering).
- `fetchSources` indexes seasons and episodes by position, while
  `onShowWatched` finds them by id. The model keeps both as written.
- `translateSources` reads `urls[urls.length - 1].src`, which throws on an
  empty list. The model reports this as `NoStreamUrls`.
- `fetchEpisodes` and `fetchEpisodeDescription` only throw "not implemented".
  The UI, Android and action files are not part of this model.
- The default settings of `src/provider/wonderfulsubs/Settings.ts:4-8` are
  the constant `Domain.DefaultSettings`. It carries no contract.
- Concurrency: overlapping async calls and their interleavings are not
  modelled. Each operation runs to completion.
- The loop's k-th stream request reads `stream(k)`. Repeated calls with
  the same code are not tied to the same answer.
- Selection.RunLoop: its own contract gives only the bound on requests. What
  it computes is stated by Turn, NotFoundStep and the loop lemmas.
- Provider.WonderfulSubs.FetchMoreShows: it requires the cursor to be set. Its
  only caller, `fetchShows`, checks this first.
- Transport.FetchRetry: its ensures ties the result to FirstAnswer. The
  "first non-throwing attempt" reading is proved separately in
  FirstAnswerFacts, which keeps the quantifiers out of the recursive
  function.

## Findings

| source | as written | input that shows it | evidently intended | confidence | as-written member | corrected member |
|---|---|---|---|---|---|---|
| src/provider/wonderfulsubs/WonderfulSubs.ts:478-481 | Each stub of an entry with several retrieve URLs takes that entry's index as its id. The resolved source is written back at `sources[id]`. | An episode whose first entry has two URLs and whose second entry has one. The stubs get ids 0, 0 and 1. Resolving the third stub (id 1) overwrites the second slot, and the third stays unresolved. | Each slot is written back onto itself, so ids are positions in the flattened list. | not executed | Translate.AsWrittenWriteBackHitsSibling | Translate.WriteBackByIdReplacesSelected |
| src/provider/wonderfulsubs/WonderfulSubs.ts:475-481 | A stub's id is its entry's index, even when an earlier entry contributed no stub. | An episode whose first entry has an empty array of retrieve URLs and whose second entry has one URL. Its only stub gets id 1, so the write-back lands past the end, and the stub itself stays unresolved. | Ids are positions, so every write-back stays inside the list. | not executed | Translate.AsWrittenIdPastEnd | Translate.TranslateEpisodesRenumbered |

The catalog the model builds follows the code: `Translate.TranslateEpisodes`
keeps the code's ids. The corrected numbering is `Translate.StubSources` and
`Translate.TranslateEpisodesRenumbered`. `Resolution.ResolveKeepsNumbering`
proves that with positional ids `fetchSources` stores every resolved source
at its own slot and never writes past the end.
