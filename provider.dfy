/**
 * The WonderfulSubs provider object: the per-category catalog with its
 * page cursors, the current category, the settings and the watched and
 * position tables it overlays, and the operations that update them. Every
 * network request is a parameter `attempt(i)`: the outcome of the i-th
 * call to `fetch` for that request (None when the call threw).
 */
module Provider {
  import opened Wrappers
  import opened Domain
  import opened Transport
  import opened Translate
  import opened Selection
  import opened Catalog
  import opened Resolution

  const BookmarksCategory := "bookmarks"
  const SearchCategory := "search"

  /** The categories offered, as (name, type); the first is where the
      provider starts. */
  const Categories: seq<(string, string)> := [("Bookmarks", "bookmarks"), ("Popular", "popular"), ("Latest", "latest")]

  // ---------------------------------------------------------------------
  // Catalog pages
  // ---------------------------------------------------------------------

  /** A translated page of shows as a lookup table by id. */
  function PageTable(series: seq<UpstreamShow>, indexOffset: int): map<string, Show> {
    LookupTable(TranslateShows(series, indexOffset))
  }

  /** `{ ...current, ...page }`: every id already held stays, and on an id
      clash the entry from the new page wins. */
  function Merged(current: map<string, Show>, series: seq<UpstreamShow>, indexOffset: int): (r: map<string, Show>)
    ensures r.Keys == current.Keys + PageTable(series, indexOffset).Keys
    ensures forall k :: k in PageTable(series, indexOffset) ==> r[k] == PageTable(series, indexOffset)[k]
    ensures forall k :: k in current && k !in PageTable(series, indexOffset) ==> r[k] == current[k]
  {
    current + PageTable(series, indexOffset)
  }

  /** The bookmarks table as `checkBookmarks` receives it. */
  function BookmarksOf(store: Store): (r: Option<map<string, Show>>)
    ensures r.Some? <==> BookmarksCategory in store
    ensures r.Some? ==> r.value == store[BookmarksCategory]
  {
    if BookmarksCategory in store then Some(store[BookmarksCategory]) else None
  }

  /** A category's table with its flags refreshed, stored back. */
  function Flagged(store: Store, category: string): (r: Store)
    requires category in store
    ensures r.Keys == store.Keys
    ensures forall c :: c in store && c != category ==> r[c] == store[c]
    ensures r[category] == WithBookmarks(store[category], BookmarksOf(store))
  {
    store[category := WithBookmarks(store[category], BookmarksOf(store))]
  }

  // ---------------------------------------------------------------------
  // The candidate loop of fetchSources
  // ---------------------------------------------------------------------

  /** One request of the loop: the candidate's `fetchUrl` normalised (or
      "undefined" when it has none) is the code sent, and the answer is
      the first of up to three attempts that did not throw. */
  method Request(decode: string -> string, candidate: Source, attempt: nat -> Option<StreamResponse>)
    returns (code: string, response: Option<StreamResponse>)
    requires DecodeShortens(decode)
    ensures code == Code(decode, candidate)
    ensures response == FirstAnswer(attempt, FetchAttempts)
  {
    code := "undefined";
    if candidate.fetchUrl.Some? {
      code := NormalizeEncoding(decode, candidate.fetchUrl.value);
    }
    var tries;
    response, tries := FetchRetry(attempt, FetchAttempts);
  }

  /** One turn of the do-while loop of `fetchSources` on a non-empty pool:
      select a candidate; stop on one already resolved; otherwise send its
      code (`sent`) and stop unless the answer is a 404 with other
      candidates left, in which case `rest` is the pool without it. */
  method Step(decode: string -> string, pool: seq<Source>, recovering: bool, preferredLanguage: string,
              attempt: nat -> Option<StreamResponse>, ghost responses: seq<Option<StreamResponse>>)
    returns (stop: Option<LoopEnd>, sent: Option<string>, rest: seq<Source>)
    requires DecodeShortens(decode) && pool != []
    requires responses != [] && responses[0] == FirstAnswer(attempt, FetchAttempts)
    ensures var chosen := pool[Selected(pool, recovering, preferredLanguage)];
      var now := RunLoop(pool, recovering, preferredLanguage, responses);
      (sent.Some? <==> !chosen.sourcesFetched) &&
      (sent.Some? ==> sent.value == Code(decode, chosen)) &&
      (stop.Some? ==> now == Trace(if sent.Some? then [chosen] else [], stop.value)) &&
      (stop.None? ==>
         (var later := RunLoop(rest, recovering, preferredLanguage, responses[1..]);
          sent.Some? && |rest| < |pool| && now == Trace([chosen] + later.requested, later.end)))
  {
    var pick := FindIdealSource(pool, recovering, preferredLanguage);
    SelectedIsFindIdealSource(pool, recovering, preferredLanguage);
    Turn(pool, recovering, preferredLanguage, responses);
    var candidate := pick.source.value;
    rest := pool;
    if candidate.sourcesFetched {
      return Some(Memoized(candidate)), None, rest;
    }
    var code, response := Request(decode, candidate, attempt);
    sent := Some(code);
    if response.None? {
      return Some(Unanswered), sent, rest;
    }
    var status := response.value.status;
    if status == NotFound {
      rest := RemoveAt(pool, pick.index);
    }
    if !(|rest| > 0 && status == NotFound) {
      return Some(Answered(candidate, response.value)), sent, rest;
    }
    NotFoundStep(pool, recovering, preferredLanguage, responses);
    stop := None;
  }

  /** The do-while loop of `fetchSources` over a working copy of
      `sources`, turn by turn. The loop ends as `RunLoop` says, and `codes`
      are the codes sent. */
  method TryCandidates(decode: string -> string, sources: seq<Source>, recovering: bool, preferredLanguage: string,
                       stream: nat -> nat -> Option<StreamResponse>)
    returns (end: LoopEnd, codes: seq<string>)
    requires DecodeShortens(decode)
    ensures var t := RunLoop(sources, recovering, preferredLanguage, Responses(stream, |sources|));
      end == t.end && codes == Codes(decode, t.requested)
  {
    ghost var responses := Responses(stream, |sources|);
    ghost var whole := RunLoop(sources, recovering, preferredLanguage, responses);
    ghost var requested: seq<Source> := [];
    codes := [];
    var pool := sources;
    var k := 0;
    while true
      invariant 0 <= k <= |sources| && |pool| + k <= |sources|
      invariant codes == Codes(decode, requested)
      invariant var rest := RunLoop(pool, recovering, preferredLanguage, responses[k..]);
        whole == Trace(requested + rest.requested, rest.end)
      decreases |pool|
    {
      if pool == [] {
        assert requested == whole.requested;
        return EmptyPool, codes;
      }
      ghost var chosen := pool[Selected(pool, recovering, preferredLanguage)];
      ghost var done := requested;
      ghost var now := RunLoop(pool, recovering, preferredLanguage, responses[k..]);
      assert whole == Trace(done + now.requested, now.end);
      assert responses[k..][0] == FirstAnswer(stream(k), FetchAttempts);
      var stop, sent, rest := Step(decode, pool, recovering, preferredLanguage, stream(k), responses[k..]);
      if sent.Some? {
        CodesSnoc(decode, requested, chosen);
        codes := codes + [sent.value];
        requested := requested + [chosen];
      }
      if stop.Some? {
        assert now.requested == if sent.Some? then [chosen] else [];
        assert requested == whole.requested;
        return stop.value, codes;
      }
      Extend(whole, done, chosen, rest, recovering, preferredLanguage, responses, k);
      pool := rest;
      k := k + 1;
    }
  }

  class WonderfulSubs {
    var showData: Store
    var showPageIndex: map<string, int>
    var currentCategory: string
    var currentSettings: Settings
    var watched: EpisodeTable<bool>
    var currentPositions: EpisodeTable<int>

    /** A fresh provider with empty catalogs, starting on the bookmarks
        category, with the settings and tables the settings store loads. */
    constructor(settings: Settings, watchedTable: EpisodeTable<bool>, positions: EpisodeTable<int>)
      ensures showData == map[] && showPageIndex == map[]
      ensures currentCategory == Categories[0].1 == BookmarksCategory
      ensures currentSettings == settings && watched == watchedTable && currentPositions == positions
    {
      showData := map[];
      showPageIndex := map[];
      currentCategory := Categories[0].1;
      currentSettings := settings;
      watched := watchedTable;
      currentPositions := positions;
    }

    // -------------------------------------------------------------------
    // Event handlers
    // -------------------------------------------------------------------

    /** `onCurrentPositionsUpdated`. */
    method OnCurrentPositionsUpdated(positions: EpisodeTable<int>)
      modifies this
      ensures currentPositions == positions
      ensures showData == old(showData) && showPageIndex == old(showPageIndex) && currentCategory == old(currentCategory)
      ensures currentSettings == old(currentSettings) && watched == old(watched)
    {
      currentPositions := positions;
    }

    /** `onWatchedUpdated`. */
    method OnWatchedUpdated(watchedTable: EpisodeTable<bool>)
      modifies this
      ensures watched == watchedTable
      ensures showData == old(showData) && showPageIndex == old(showPageIndex) && currentCategory == old(currentCategory)
      ensures currentSettings == old(currentSettings) && currentPositions == old(currentPositions)
    {
      watched := watchedTable;
    }

    /** `onSettingsUpdated`. */
    method OnSettingsUpdated(settings: Settings)
      modifies this
      ensures currentSettings == settings
      ensures showData == old(showData) && showPageIndex == old(showPageIndex) && currentCategory == old(currentCategory)
      ensures watched == old(watched) && currentPositions == old(currentPositions)
    {
      currentSettings := settings;
    }

    /** `onBookmarkAdded`: the settings store hands over the whole table. */
    method OnBookmarkAdded(bookmarks: map<string, Show>)
      modifies this
      ensures showData == old(showData)[BookmarksCategory := bookmarks]
      ensures showPageIndex == old(showPageIndex) && currentCategory == old(currentCategory)
      ensures currentSettings == old(currentSettings) && watched == old(watched) && currentPositions == old(currentPositions)
    {
      showData := showData[BookmarksCategory := bookmarks];
    }

    /** `onBookmarkRemoved`: the same replacement as `onBookmarkAdded`. */
    method OnBookmarkRemoved(bookmarks: map<string, Show>)
      modifies this
      ensures showData == old(showData)[BookmarksCategory := bookmarks]
      ensures showPageIndex == old(showPageIndex) && currentCategory == old(currentCategory)
      ensures currentSettings == old(currentSettings) && watched == old(watched) && currentPositions == old(currentPositions)
    {
      showData := showData[BookmarksCategory := bookmarks];
    }

    /** `onShowWatched`: set the flag of one episode, found by season and
        episode id in the current category. */
    method OnShowWatched(showId: string, seasonId: Option<int>, episodeId: Option<int>, finishedWatching: bool)
      returns (r: Result<(), Fault>)
      modifies this
      ensures var expected := SetWatched(old(showData), currentCategory, showId, seasonId, episodeId, finishedWatching);
        (r.Success? <==> expected.Success?) &&
        (expected.Success? ==> showData == expected.value) &&
        (expected.Failure? ==> r.error == expected.error && showData == old(showData))
      ensures showPageIndex == old(showPageIndex) && currentCategory == old(currentCategory)
      ensures currentSettings == old(currentSettings) && watched == old(watched) && currentPositions == old(currentPositions)
    {
      if showId != "" && seasonId.Some? && episodeId.Some? {
        if currentCategory !in showData {
          return Failure(MissingCategory);
        }
        if showId !in showData[currentCategory] {
          return Failure(MissingShow);
        }
        var show := showData[currentCategory][showId];
        if show.seasons.None? {
          return Failure(MissingSeasons);
        }
        var si := FindById(IdList(show.seasons.value, SeasonId), seasonId.value);
        if si.None? {
          return Failure(MissingSeason);
        }
        var season := show.seasons.value[si.value];
        var ei := FindById(IdList(season.episodes, EpisodeId), episodeId.value);
        if ei.None? {
          return Failure(MissingEpisode);
        }
        var episode := season.episodes[ei.value];
        var updated := WithEpisode(show, si.value, ei.value, episode.(watched := Some(finishedWatching)));
        showData := showData[currentCategory := showData[currentCategory][showId := updated]];
      }
      r := Success(());
    }

    // -------------------------------------------------------------------
    // Catalog
    // -------------------------------------------------------------------

    /** `fetchBookmarks`: load the bookmarks table from the settings store
        (`stored`) the first time, then keep serving it. */
    method FetchBookmarks(stored: map<string, Show>) returns (r: map<string, Show>)
      modifies this
      ensures showData == if BookmarksCategory in old(showData) then old(showData)
                          else old(showData)[BookmarksCategory := stored]
      ensures r == showData[BookmarksCategory]
      ensures showPageIndex == old(showPageIndex) && currentCategory == old(currentCategory)
      ensures currentSettings == old(currentSettings) && watched == old(watched) && currentPositions == old(currentPositions)
    {
      if BookmarksCategory !in showData {
        showData := showData[BookmarksCategory := stored];
      }
      r := showData[BookmarksCategory];
    }

    /** The `checkBookmarks` step of the catalog operations: refresh a category's bookmark flags in place against the bookmarks
        table as it stands. */
    method RefreshFlags(category: string) returns (flagged: map<string, Show>)
      requires category in showData
      modifies this
      ensures showData == Flagged(old(showData), category) && flagged == showData[category]
      ensures showPageIndex == old(showPageIndex) && currentCategory == old(currentCategory)
      ensures currentSettings == old(currentSettings) && watched == old(watched) && currentPositions == old(currentPositions)
    {
      flagged := CheckBookmarks(showData[category], BookmarksOf(showData));
      showData := showData[category := flagged];
    }

    /** `fetchMoreShows`: below the cap, request the page at the cursor,
        merge it in by id and advance the cursor by one page; at the cap,
        request nothing. Either way the bookmark flags are refreshed. The
        caller has checked that the cursor is set. */
    method FetchMoreShows(category: string, page: nat -> Option<seq<UpstreamShow>>)
      returns (r: Result<map<string, Show>, Fault>, requested: bool)
      requires category in showPageIndex
      modifies this
      ensures category !in old(showData) ==>
        r == Failure(MissingCategory) && !requested && showData == old(showData) && showPageIndex == old(showPageIndex)
      ensures category in old(showData) && |old(showData)[category]| >= MaxShowsToFetch ==>
        !requested && showPageIndex == old(showPageIndex) &&
        showData == Flagged(old(showData), category) && r == Success(showData[category])
      ensures category in old(showData) && |old(showData)[category]| < MaxShowsToFetch ==>
        var answer := FirstAnswer(page, FetchAttempts);
        requested &&
        (answer.None? ==> r == Failure(NoResponse) && showData == old(showData) && showPageIndex == old(showPageIndex)) &&
        (answer.Some? ==>
           var startIndex := old(showPageIndex)[category];
           showData == Flagged(old(showData)[category := Merged(old(showData)[category], answer.value, startIndex)], category) &&
           showPageIndex == old(showPageIndex)[category := startIndex + PageSize] &&
           r == Success(showData[category]))
      ensures currentCategory == old(currentCategory)
      ensures currentSettings == old(currentSettings) && watched == old(watched) && currentPositions == old(currentPositions)
    {
      if category !in showData {
        return Failure(MissingCategory), false;
      }
      requested := |showData[category]| < MaxShowsToFetch;
      if requested {
        var answered := AppendPage(category, page);
        if !answered {
          return Failure(NoResponse), true;
        }
      }
      var flagged := RefreshFlags(category);
      r := Success(flagged);
    }

    /** The request block of `fetchMoreShows`: ask for the page at the
        cursor, merge it into the category by id and advance the cursor by
        one page; when no attempt is answered nothing changes. */
    method AppendPage(category: string, page: nat -> Option<seq<UpstreamShow>>) returns (answered: bool)
      requires category in showData && category in showPageIndex
      modifies this
      ensures var answer := FirstAnswer(page, FetchAttempts);
        var startIndex := old(showPageIndex)[category];
        (answered <==> answer.Some?) &&
        (answer.None? ==> showData == old(showData) && showPageIndex == old(showPageIndex)) &&
        (answer.Some? ==>
           showData == old(showData)[category := Merged(old(showData)[category], answer.value, startIndex)] &&
           showPageIndex == old(showPageIndex)[category := startIndex + PageSize])
      ensures currentCategory == old(currentCategory)
      ensures currentSettings == old(currentSettings) && watched == old(watched) && currentPositions == old(currentPositions)
    {
      var startIndex := showPageIndex[category];
      var response, _ := FetchRetry(page, FetchAttempts);
      if response.None? {
        return false;
      }
      var table := ShowsToLookupTable(TranslateShows(response.value, startIndex));
      showData := showData[category := showData[category] + table];
      showPageIndex := showPageIndex[category := PageSize + startIndex];
      answered := true;
    }

    /** `fetchShows`: the bookmarks category is served from the settings
        store; returning to the current category with a cursor continues
        it; any other category is fetched once (first page, cursor at one
        page) and then served from the catalog with fresh bookmark flags. */
    method FetchShows(category: string, stored: map<string, Show>, page: nat -> Option<seq<UpstreamShow>>)
      returns (r: Result<map<string, Show>, Fault>)
      modifies this
      ensures category == BookmarksCategory ==>
        currentCategory == BookmarksCategory && showPageIndex == old(showPageIndex) &&
        showData == (if BookmarksCategory in old(showData) then old(showData) else old(showData)[BookmarksCategory := stored]) &&
        r == Success(showData[BookmarksCategory])
      ensures category != BookmarksCategory && category in old(showPageIndex) && old(showPageIndex)[category] != 0 &&
              category == old(currentCategory) ==>
        currentCategory == old(currentCategory) &&
        (category !in old(showData) ==>
           r == Failure(MissingCategory) && showData == old(showData) && showPageIndex == old(showPageIndex)) &&
        (category in old(showData) && |old(showData)[category]| >= MaxShowsToFetch ==>
           showData == Flagged(old(showData), category) && showPageIndex == old(showPageIndex) && r == Success(showData[category])) &&
        (category in old(showData) && |old(showData)[category]| < MaxShowsToFetch ==>
           var answer := FirstAnswer(page, FetchAttempts);
           (answer.None? ==> r == Failure(NoResponse) && showData == old(showData) && showPageIndex == old(showPageIndex)) &&
           (answer.Some? ==>
              var startIndex := old(showPageIndex)[category];
              showData == Flagged(old(showData)[category := Merged(old(showData)[category], answer.value, startIndex)], category) &&
              showPageIndex == old(showPageIndex)[category := startIndex + PageSize] &&
              r == Success(showData[category])))
      ensures category != BookmarksCategory && !(category in old(showPageIndex) && old(showPageIndex)[category] != 0 &&
              category == old(currentCategory)) ==>
        var answer := FirstAnswer(page, FetchAttempts);
        (category in old(showData) ==>
           currentCategory == category && showPageIndex == old(showPageIndex) &&
           showData == Flagged(old(showData), category) && r == Success(showData[category])) &&
        (category !in old(showData) && answer.None? ==>
           r == Failure(NoResponse) && currentCategory == old(currentCategory) &&
           showData == old(showData) && showPageIndex == old(showPageIndex)) &&
        (category !in old(showData) && answer.Some? ==>
           currentCategory == category && showPageIndex == old(showPageIndex)[category := PageSize] &&
           showData == Flagged(old(showData)[category := PageTable(answer.value, 0)], category) &&
           r == Success(showData[category]))
      ensures currentSettings == old(currentSettings) && watched == old(watched) && currentPositions == old(currentPositions)
    {
      if category == BookmarksCategory {
        currentCategory := category;
        var bookmarks := FetchBookmarks(stored);
        return Success(bookmarks);
      }
      if category in showPageIndex && showPageIndex[category] != 0 && category == currentCategory {
        var more, requested := FetchMoreShows(category, page);
        return more;
      }
      if category !in showData {
        var response, _ := FetchRetry(page, FetchAttempts);
        if response.None? {
          return Failure(NoResponse);
        }
        var table := ShowsToLookupTable(TranslateShows(response.value, 0));
        showData := showData[category := table];
        showPageIndex := showPageIndex[category := PageSize];
      }
      currentCategory := category;
      var flagged := RefreshFlags(category);
      r := Success(flagged);
    }

    /** `searchShows`: the results of a search become the "search"
        category, which becomes current. The query only shapes the URL. */
    method SearchShows(page: nat -> Option<seq<UpstreamShow>>) returns (r: Result<map<string, Show>, Fault>)
      modifies this
      ensures var answer := FirstAnswer(page, FetchAttempts);
        (answer.None? ==> r == Failure(NoResponse) && showData == old(showData) && currentCategory == old(currentCategory)) &&
        (answer.Some? ==>
           currentCategory == SearchCategory &&
           showData == Flagged(old(showData)[SearchCategory := PageTable(answer.value, 0)], SearchCategory) &&
           r == Success(showData[SearchCategory]))
      ensures showPageIndex == old(showPageIndex)
      ensures currentSettings == old(currentSettings) && watched == old(watched) && currentPositions == old(currentPositions)
    {
      var response, _ := FetchRetry(page, FetchAttempts);
      if response.None? {
        return Failure(NoResponse);
      }
      currentCategory := SearchCategory;
      var table := ShowsToLookupTable(TranslateShows(response.value, 0));
      showData := showData[SearchCategory := table];
      var flagged := RefreshFlags(SearchCategory);
      r := Success(flagged);
    }

    /** `fetchShowDecription`: the show as held in the current category;
        undefined for an unknown id, a TypeError for an unloaded category. */
    function FetchShowDescription(showId: string): (r: Result<Option<Show>, Fault>)
      reads this
      ensures r.Failure? <==> currentCategory !in showData
      ensures r.Success? ==> (r.value.Some? <==> showId in showData[currentCategory])
      ensures r.Success? && r.value.Some? ==> r.value.value == showData[currentCategory][showId]
    {
      if currentCategory !in showData then Failure(MissingCategory)
      else if showId in showData[currentCategory] then Success(Some(showData[currentCategory][showId]))
      else Success(None)
    }

    // -------------------------------------------------------------------
    // Seasons
    // -------------------------------------------------------------------

    /** `processShowDetails` on the stored show: the watched and position
        overlay is written into the show in place and returned. */
    method ProcessShowDetails(showId: string) returns (r: Result<Show, Fault>)
      requires currentCategory in showData && showId in showData[currentCategory]
      modifies this
      ensures var show := old(showData)[old(currentCategory)][showId];
        (show.seasons.None? ==> r == Failure(MissingSeasons) && showData == old(showData)) &&
        (show.seasons.Some? ==>
           var overlaid := Overlay(show, watched, currentPositions);
           showData == Put(old(showData), old(currentCategory), showId, overlaid) && r == Success(overlaid))
      ensures showPageIndex == old(showPageIndex) && currentCategory == old(currentCategory)
      ensures currentSettings == old(currentSettings) && watched == old(watched) && currentPositions == old(currentPositions)
    {
      var show := showData[currentCategory][showId];
      if show.seasons.None? {
        return Failure(MissingSeasons);
      }
      var overlaid := Overlay(show, watched, currentPositions);
      showData := Put(showData, currentCategory, showId, overlaid);
      r := Success(overlaid);
    }

    /** `fetchSeasons`: a show whose seasons are loaded is overlaid again;
        otherwise its series detail is requested (by short name, or by id
        when the short name is empty), translated into seasons and stored
        before the overlay. `requested` is the series name sent, if any.
        After a success the stored show is marked as loaded, so a second
        call for it sends no request. */
    method FetchSeasons(showId: string, series: nat -> Option<seq<MediaGroup>>)
      returns (r: Result<Show, Fault>, requested: Option<string>)
      modifies this
      ensures old(currentCategory) !in old(showData) ==> r == Failure(MissingCategory) && showData == old(showData) && requested.None?
      ensures old(currentCategory) in old(showData) && showId !in old(showData)[old(currentCategory)] ==>
        r == Failure(MissingShow) && showData == old(showData) && requested.None?
      ensures old(currentCategory) in old(showData) && showId in old(showData)[old(currentCategory)] ==>
        var show := old(showData)[old(currentCategory)][showId];
        var answer := FirstAnswer(series, FetchAttempts);
        (show.seasonsFetched ==>
           requested.None? &&
           (show.seasons.None? ==> r == Failure(MissingSeasons) && showData == old(showData)) &&
           (show.seasons.Some? ==>
              showData == Put(old(showData), old(currentCategory), showId, Overlay(show, watched, currentPositions)) &&
              r == Success(Overlay(show, watched, currentPositions)))) &&
        (!show.seasonsFetched ==>
           requested == Some(if show.shortName != "" then show.shortName else show.id) &&
           (answer.None? ==> r == Failure(NoResponse) && showData == old(showData)) &&
           (answer.Some? ==>
              var loaded := Overlay(show.(seasonsFetched := true, seasons := Some(Seasons(answer.value))), watched, currentPositions);
              showData == Put(old(showData), old(currentCategory), showId, loaded) && r == Success(loaded)))
      ensures r.Success? ==>
        currentCategory in showData && showId in showData[currentCategory] &&
        showData[currentCategory][showId] == r.value && r.value.seasonsFetched
      ensures showPageIndex == old(showPageIndex) && currentCategory == old(currentCategory)
      ensures currentSettings == old(currentSettings) && watched == old(watched) && currentPositions == old(currentPositions)
    {
      if currentCategory !in showData {
        return Failure(MissingCategory), None;
      }
      if showId !in showData[currentCategory] {
        return Failure(MissingShow), None;
      }
      var show := showData[currentCategory][showId];
      if show.seasonsFetched {
        r := ProcessShowDetails(showId);
        return r, None;
      }
      requested := Some(if show.shortName != "" then show.shortName else show.id);
      var response, _ := FetchRetry(series, FetchAttempts);
      if response.None? {
        return Failure(NoResponse), requested;
      }
      var translatedSeasons := TranslateSeasons(response.value);
      var fetched := show.(seasonsFetched := true, seasons := Some(translatedSeasons));
      ghost var before := showData;
      showData := Put(showData, currentCategory, showId, fetched);
      r := ProcessShowDetails(showId);
      PutPut(before, currentCategory, showId, fetched, Overlay(fetched, watched, currentPositions));
    }

    // -------------------------------------------------------------------
    // Sources
    // -------------------------------------------------------------------

    /** `fetchSources`: mark or clear stalls on the episode's sources (the
        marks are stored at once), run the candidate loop, translate the
        answer and write the resolved source back at `sources[id]`.
        `stream(k)` is the outcome of each attempt of the k-th stream
        request, `decode` stands for `decodeURIComponent`, and `codes` are
        the codes sent, in order. */
    method FetchSources(decode: string -> string, showId: string, seasonId: int, episodeId: int,
                        badSourceId: Option<int>, stream: nat -> nat -> Option<StreamResponse>)
      returns (r: Result<(Show, Source), Fault>, codes: seq<string>)
      requires DecodeShortens(decode)
      modifies this
      ensures var expected := Resolve(old(showData), old(currentCategory), showId, seasonId, episodeId, badSourceId,
                                      old(currentSettings).language, stream);
        showData == expected.store && r == expected.result && codes == Codes(decode, expected.requested)
      ensures showPageIndex == old(showPageIndex) && currentCategory == old(currentCategory)
      ensures currentSettings == old(currentSettings) && watched == old(watched) && currentPositions == old(currentPositions)
    {
      var located := Locate(showData, currentCategory, showId, seasonId, episodeId);
      if located.Failure? {
        return Failure(located.error), [];
      }
      var show := located.value;
      var marked := MarkStalls(EpisodeAt(show, seasonId, episodeId).sources, badSourceId);
      var shown := WithSources(show, seasonId, episodeId, marked);
      ghost var before := showData;
      showData := Put(showData, currentCategory, showId, shown);
      var end;
      end, codes := TryCandidates(decode, marked, Recovering(badSourceId), currentSettings.language, stream);
      ghost var outcome := Outcome(marked, end);
      match end
      case EmptyPool =>
        r := Failure(NoCandidate);
      case Memoized(source) =>
        r := Success((shown, source));
      case Unanswered =>
        r := Failure(NoResponse);
      case Answered(chosen, answer) =>
        var translated := TranslateSources(answer, chosen);
        if translated.Failure? {
          r := Failure(translated.error);
        } else if translated.value.id >= |marked| {
          r := Failure(WriteBeyondEnd);
        } else {
          assert outcome == translated;
          var written := WithSources(show, seasonId, episodeId, marked[translated.value.id := translated.value]);
          showData := Put(showData, currentCategory, showId, written);
          PutPut(before, currentCategory, showId, shown, written);
          r := Success((written, translated.value));
        }
    }
  }
}
