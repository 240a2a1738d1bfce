/**
 * The per-category catalog maps and the overlays applied to them: building
 * the id-to-show table of a page, flagging bookmarked shows, reading the
 * watched and position tables of the settings store, and replacing one
 * episode of a show.
 */
module Catalog {
  import opened Wrappers
  import opened Domain

  /** A table keyed by show id, then season id, then episode id, as the
      settings store keeps watched flags and playback positions. */
  type EpisodeTable<T> = map<string, map<nat, map<nat, T>>>

  /** `showData`: category, then show id, then show. */
  type Store = map<string, map<string, Show>>

  /** `showData[category][key] = show`. */
  function Put(store: Store, category: string, key: string, show: Show): Store
    requires category in store
  {
    store[category := store[category][key := show]]
  }

  /** A second write to the same show replaces the first. A proof helper
      for the methods that store a show twice in one call. */
  lemma PutPut(store: Store, category: string, key: string, a: Show, b: Show)
    requires category in store
    ensures Put(Put(store, category, key, a), category, key, b) == Put(store, category, key, b)
  {
    var once := Put(store, category, key, a);
    assert once[category][key := b] == store[category][key := b];
  }

  // ---------------------------------------------------------------------
  // showsToLookupTable
  // ---------------------------------------------------------------------

  /** The ids of a list of shows. */
  function Ids(shows: seq<Show>): set<string> {
    set i | 0 <= i < |shows| :: shows[i].id
  }

  /** The table `showsToLookupTable` builds: every show keyed by its id, a
      later show replacing an earlier one with the same id. */
  function LookupTable(shows: seq<Show>): (r: map<string, Show>)
    decreases |shows|
    ensures r.Keys == Ids(shows)
    ensures forall k :: k in r ==> r[k].id == k
  {
    if shows == [] then map[]
    else
      var init := shows[..|shows| - 1];
      var last := shows[|shows| - 1];
      assert Ids(shows) == Ids(init) + {last.id} by {
        assert forall i :: 0 <= i < |init| ==> init[i] == shows[i];
      }
      LookupTable(init)[last.id := last]
  }

  /** The entry for an id is the last show in the list carrying that id. */
  lemma {:induction false} LookupTableLastWins(shows: seq<Show>, i: nat)
    requires i < |shows|
    requires forall j :: i < j < |shows| ==> shows[j].id != shows[i].id
    ensures LookupTable(shows)[shows[i].id] == shows[i]
    decreases |shows|
  {
    if i < |shows| - 1 {
      var init := shows[..|shows| - 1];
      LookupTableLastWins(init, i);
    }
  }

  /** A table never holds more shows than the list it was built from. */
  lemma {:induction false} LookupTableSize(shows: seq<Show>)
    ensures |LookupTable(shows)| <= |shows|
    decreases |shows|
  {
    if shows != [] {
      LookupTableSize(shows[..|shows| - 1]);
    }
  }

  /** `showsToLookupTable`: the forEach loop that fills the object map. */
  method ShowsToLookupTable(shows: seq<Show>) returns (objectMap: map<string, Show>)
    ensures objectMap == LookupTable(shows)
  {
    objectMap := map[];
    var i := 0;
    while i < |shows|
      invariant 0 <= i <= |shows|
      invariant objectMap == LookupTable(shows[..i])
    {
      assert shows[..i + 1][..i] == shows[..i];
      objectMap := objectMap[shows[i].id := shows[i]];
      i := i + 1;
    }
    assert shows[..|shows|] == shows;
  }

  // ---------------------------------------------------------------------
  // checkBookmarks
  // ---------------------------------------------------------------------

  /** The bookmark flag of one key: set only when a bookmarks table exists
      and holds an entry for the key (a stored show counts as present). */
  predicate IsBookmarked(bookmarks: Option<map<string, Show>>, key: string) {
    bookmarks.Some? && key in bookmarks.value
  }

  /** The table after `checkBookmarks`: every show carries the flag for its
      key, and nothing else about it changes. */
  function WithBookmarks(shows: map<string, Show>, bookmarks: Option<map<string, Show>>): (r: map<string, Show>)
    ensures r.Keys == shows.Keys
    ensures forall k :: k in r ==>
      (r[k].bookmarked <==> bookmarks.Some? && k in bookmarks.value) &&
      r[k].(bookmarked := shows[k].bookmarked) == shows[k]
  {
    map k | k in shows :: shows[k].(bookmarked := IsBookmarked(bookmarks, k))
  }

  /** Flagging twice is flagging once. */
  lemma WithBookmarksIdempotent(shows: map<string, Show>, bookmarks: Option<map<string, Show>>)
    ensures WithBookmarks(WithBookmarks(shows, bookmarks), bookmarks) == WithBookmarks(shows, bookmarks)
  {
    var once := WithBookmarks(shows, bookmarks);
    var twice := WithBookmarks(once, bookmarks);
    forall k | k in twice ensures twice[k] == once[k] {
      assert once[k].bookmarked == IsBookmarked(bookmarks, k);
    }
  }

  /** `checkBookmarks(shows, bookmarks)`: the for-of loop over the keys,
      rewriting each entry with its flag. */
  method CheckBookmarks(shows: map<string, Show>, bookmarks: Option<map<string, Show>>) returns (r: map<string, Show>)
    ensures r == WithBookmarks(shows, bookmarks)
  {
    r := shows;
    var pending := shows.Keys;
    while pending != {}
      invariant pending <= shows.Keys && r.Keys == shows.Keys
      invariant forall k :: k in r ==>
        r[k] == if k in pending then shows[k] else shows[k].(bookmarked := IsBookmarked(bookmarks, k))
      decreases pending
    {
      var key :| key in pending;
      r := r[key := r[key].(bookmarked := IsBookmarked(bookmarks, key))];
      pending := pending - {key};
    }
  }

  // ---------------------------------------------------------------------
  // The watched and position overlays
  // ---------------------------------------------------------------------

  /** The entry of a table nested by show, season and episode id, read by
      a dotted path: undefined unless every level of the path is present. */
  function NestedGet<T>(table: EpisodeTable<T>, showId: string, seasonId: nat, episodeId: nat): (r: Option<T>)
    ensures r.Some? <==> showId in table && seasonId in table[showId] && episodeId in table[showId][seasonId]
    ensures r.Some? ==> r.value == table[showId][seasonId][episodeId]
  {
    if showId in table && seasonId in table[showId] && episodeId in table[showId][seasonId]
    then Some(table[showId][seasonId][episodeId])
    else None
  }

  /** One episode with its watched flag and progress read from the tables. */
  function OverlayEpisode(e: Episode, showId: string, seasonId: nat,
                          watched: EpisodeTable<bool>, positions: EpisodeTable<int>): Episode {
    e.(watched := NestedGet(watched, showId, seasonId, e.id), progress := NestedGet(positions, showId, seasonId, e.id))
  }

  function OverlaySeason(s: Season, showId: string, watched: EpisodeTable<bool>, positions: EpisodeTable<int>): Season {
    s.(episodes := seq(|s.episodes|, j requires 0 <= j < |s.episodes| =>
                         OverlayEpisode(s.episodes[j], showId, s.id, watched, positions)))
  }

  /** The show `processShowDetails` leaves behind: same seasons and
      episodes, each episode's `watched` and `progress` replaced by the
      entries at its show, season and episode id. */
  function Overlay(show: Show, watched: EpisodeTable<bool>, positions: EpisodeTable<int>): (r: Show)
    requires show.seasons.Some?
    ensures r.(seasons := show.seasons) == show
    ensures r.seasons.Some? && |r.seasons.value| == |show.seasons.value|
    ensures forall i :: 0 <= i < |r.seasons.value| ==>
      var s := show.seasons.value[i]; var t := r.seasons.value[i];
      t.(episodes := s.episodes) == s && |t.episodes| == |s.episodes| &&
      forall j :: 0 <= j < |t.episodes| ==>
        t.episodes[j].(watched := s.episodes[j].watched, progress := s.episodes[j].progress) == s.episodes[j] &&
        t.episodes[j].watched == NestedGet(watched, show.id, s.id, s.episodes[j].id) &&
        t.episodes[j].progress == NestedGet(positions, show.id, s.id, s.episodes[j].id)
  {
    var ss := show.seasons.value;
    show.(seasons := Some(seq(|ss|, i requires 0 <= i < |ss| => OverlaySeason(ss[i], show.id, watched, positions))))
  }

  /** Reading the tables a second time changes nothing: the overlay depends
      only on ids, which it leaves alone. */
  lemma OverlayIdempotent(show: Show, watched: EpisodeTable<bool>, positions: EpisodeTable<int>)
    requires show.seasons.Some?
    ensures Overlay(Overlay(show, watched, positions), watched, positions) == Overlay(show, watched, positions)
  {
    var once := Overlay(show, watched, positions);
    var twice := Overlay(once, watched, positions);
    assert |twice.seasons.value| == |once.seasons.value|;
    forall i | 0 <= i < |once.seasons.value| ensures twice.seasons.value[i] == once.seasons.value[i] {
      var t := twice.seasons.value[i];
      var o := once.seasons.value[i];
      assert |t.episodes| == |o.episodes|;
      forall j | 0 <= j < |o.episodes| ensures t.episodes[j] == o.episodes[j] {
      }
    }
    assert twice.seasons.value == once.seasons.value;
  }

  // ---------------------------------------------------------------------
  // Replacing one episode
  // ---------------------------------------------------------------------

  /** The show with episode `ei` of season `si` (positions) replaced. */
  function WithEpisode(show: Show, si: nat, ei: nat, e: Episode): (r: Show)
    requires show.seasons.Some? && si < |show.seasons.value| && ei < |show.seasons.value[si].episodes|
    ensures r.(seasons := show.seasons) == show
    ensures r.seasons.Some? && |r.seasons.value| == |show.seasons.value|
    ensures forall i :: 0 <= i < |show.seasons.value| && i != si ==> r.seasons.value[i] == show.seasons.value[i]
    ensures var s := show.seasons.value[si]; var t := r.seasons.value[si];
      t.(episodes := s.episodes) == s && |t.episodes| == |s.episodes| && t.episodes[ei] == e &&
      forall j :: 0 <= j < |s.episodes| && j != ei ==> t.episodes[j] == s.episodes[j]
  {
    var ss := show.seasons.value;
    var season := ss[si];
    show.(seasons := Some(ss[si := season.(episodes := season.episodes[ei := e])]))
  }

  /** The episode at season position `si` and episode position `ei`. */
  function EpisodeAt(show: Show, si: nat, ei: nat): Episode
    requires show.seasons.Some? && si < |show.seasons.value| && ei < |show.seasons.value[si].episodes|
  {
    show.seasons.value[si].episodes[ei]
  }

  /** The position of the first id equal to the target, as `find` by id
      picks it, or nothing when no entry has it. */
  function FindById(ids: seq<nat>, target: int): (r: Option<nat>)
    decreases |ids|
    ensures r.Some? ==> r.value < |ids| && ids[r.value] == target && forall j :: 0 <= j < r.value ==> ids[j] != target
    ensures r.None? ==> forall j :: 0 <= j < |ids| ==> ids[j] != target
  {
    if ids == [] then None
    else if ids[0] == target then Some(0)
    else
      var rest := FindById(ids[1..], target);
      if rest.Some? then Some(rest.value + 1) else None
  }

  /** The ids of a list of seasons or of episodes, in order, as `find`
      compares them. */
  function IdList<T>(xs: seq<T>, idOf: T -> nat): (r: seq<nat>)
    ensures |r| == |xs| && forall i :: 0 <= i < |r| ==> r[i] == idOf(xs[i])
  {
    seq(|xs|, i requires 0 <= i < |xs| => idOf(xs[i]))
  }

  function SeasonId(s: Season): nat { s.id }

  function EpisodeId(e: Episode): nat { e.id }

  /** The season and episode positions `onShowWatched` finds: the first
      season with the season id, then the first episode in it with the
      episode id. */
  function WatchedPlace(show: Show, seasonId: int, episodeId: int): (r: Option<(nat, nat)>)
    requires show.seasons.Some?
    ensures r.Some? ==>
      var ss := show.seasons.value;
      r.value.0 < |ss| && ss[r.value.0].id == seasonId && (forall j :: 0 <= j < r.value.0 ==> ss[j].id != seasonId) &&
      r.value.1 < |ss[r.value.0].episodes| && ss[r.value.0].episodes[r.value.1].id == episodeId &&
      (forall j :: 0 <= j < r.value.1 ==> ss[r.value.0].episodes[j].id != episodeId)
    ensures r.None? ==>
      var ss := show.seasons.value;
      var si := FindById(IdList(ss, SeasonId), seasonId);
      si.None? || forall j :: 0 <= j < |ss[si.value].episodes| ==> ss[si.value].episodes[j].id != episodeId
  {
    var si := FindById(IdList(show.seasons.value, SeasonId), seasonId);
    if si.None? then None
    else
      var ei := FindById(IdList(show.seasons.value[si.value].episodes, EpisodeId), episodeId);
      if ei.None? then None else Some((si.value, ei.value))
  }

  /** The catalog after `onShowWatched`: nothing happens unless the show id
      is non-empty and both ids are given; then the episode found by id gets
      the flag, and a missing category, show, season list, season or episode
      is an error. */
  function SetWatched(store: Store, category: string, showId: string, seasonId: Option<int>, episodeId: Option<int>,
                      finishedWatching: bool): (r: Result<Store, Fault>)
    ensures !(showId != "" && seasonId.Some? && episodeId.Some?) ==> r == Success(store)
    ensures r.Success? && showId != "" && seasonId.Some? && episodeId.Some? ==>
      category in store && showId in store[category] && store[category][showId].seasons.Some? &&
      var show := store[category][showId];
      var place := WatchedPlace(show, seasonId.value, episodeId.value);
      place.Some? &&
      var e := EpisodeAt(show, place.value.0, place.value.1);
      r.value == Put(store, category, showId, WithEpisode(show, place.value.0, place.value.1, e.(watched := Some(finishedWatching))))
    ensures r.Failure? ==>
      (showId != "" && seasonId.Some? && episodeId.Some? &&
       (category !in store || showId !in store[category] || store[category][showId].seasons.None? ||
        WatchedPlace(store[category][showId], seasonId.value, episodeId.value).None?))
  {
    if !(showId != "" && seasonId.Some? && episodeId.Some?) then Success(store)
    else if category !in store then Failure(MissingCategory)
    else if showId !in store[category] then Failure(MissingShow)
    else
      var show := store[category][showId];
      if show.seasons.None? then Failure(MissingSeasons)
      else
        var place := WatchedPlace(show, seasonId.value, episodeId.value);
        if place.None? then Failure(if FindById(IdList(show.seasons.value, SeasonId), seasonId.value).None? then MissingSeason else MissingEpisode)
        else
          var e := EpisodeAt(show, place.value.0, place.value.1);
          Success(Put(store, category, showId, WithEpisode(show, place.value.0, place.value.1, e.(watched := Some(finishedWatching)))))
  }

  /** Marking an episode watched touches that episode's flag and nothing
      else in the catalog. */
  lemma SetWatchedTouchesOneFlag(store: Store, category: string, showId: string, seasonId: Option<int>, episodeId: Option<int>,
                                 finishedWatching: bool)
    requires SetWatched(store, category, showId, seasonId, episodeId, finishedWatching).Success?
    requires showId != "" && seasonId.Some? && episodeId.Some?
    ensures var after := SetWatched(store, category, showId, seasonId, episodeId, finishedWatching).value;
      var show := store[category][showId];
      var place := WatchedPlace(show, seasonId.value, episodeId.value).value;
      after.Keys == store.Keys && (forall c :: c in store && c != category ==> after[c] == store[c]) &&
      after[category].Keys == store[category].Keys &&
      (forall k :: k in store[category] && k != showId ==> after[category][k] == store[category][k]) &&
      EpisodeAt(after[category][showId], place.0, place.1).watched == Some(finishedWatching) &&
      EpisodeAt(after[category][showId], place.0, place.1).(watched := EpisodeAt(show, place.0, place.1).watched) ==
        EpisodeAt(show, place.0, place.1)
  {
  }
}
