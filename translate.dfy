/**
 * The translators: pure mappings from the upstream payloads to the
 * normalized records, and the season synthesis that cuts a flat episode
 * list into seasons of fifty.
 */
module Translate {
  import opened Wrappers
  import opened Domain
  import opened Text

  // ---------------------------------------------------------------------
  // Small helpers
  // ---------------------------------------------------------------------

  /** `indexOrGoodEnough(array, ideal)`: the element at `ideal`, or the last
      element when the list is shorter; undefined for an empty list. */
  function IndexOrGoodEnough<T>(a: seq<T>, ideal: nat): (r: Option<T>)
    ensures r.Some? <==> |a| > 0
    ensures ideal < |a| ==> r == Some(a[ideal])
    ensures 0 < |a| <= ideal ==> r == Some(a[|a| - 1])
  {
    if |a| - 1 < ideal then (if |a| == 0 then None else Some(a[|a| - 1])) else Some(a[ideal])
  }

  /** The picture chosen from a list of images: the `source` of the image
      at the ideal index or the last one; an absent or empty list yields a
      falsy value (unset here). */
  function PickImage(images: Option<seq<Image>>, ideal: nat): (r: Option<string>)
    ensures r.Some? <==> images.Some? && |images.value| > 0
    ensures r.Some? ==> r.value == images.value[if ideal < |images.value| then ideal else |images.value| - 1].source
  {
    match images
    case None => None
    case Some(list) => if |list| == 0 then None else Some(IndexOrGoodEnough(list, ideal).value.source)
  }

  /** `i` is the first position of `pat` in `s`. */
  predicate FirstOccurrence(s: string, pat: string, i: nat) {
    OccursAt(s, pat, i) && forall j :: 0 <= j < i ==> !OccursAt(s, pat, j)
  }

  /** `showShortName`: the text after the "watch/" marker of the show's URL.
      With the marker present this is the text after its first occurrence;
      without it the search yields -1 and the first five characters are
      dropped. */
  function ShowShortName(url: string): (r: string)
    ensures forall i: nat :: FirstOccurrence(url, WatchMarker, i) ==> r == url[i + |WatchMarker|..]
    ensures (forall i :: 0 <= i <= |url| ==> !OccursAt(url, WatchMarker, i)) ==>
              r == (if |url| <= 5 then "" else url[5..])
  {
    var i := IndexOf(url, WatchMarker);
    assert forall j: nat :: FirstOccurrence(url, WatchMarker, j) ==> j == i by {
      forall j: nat | FirstOccurrence(url, WatchMarker, j) ensures j == i {
        assert OccursAt(url, WatchMarker, j) && j <= |url|;
        assert i != -1;
        assert !(i < j);
        assert !(j < i);
      }
    }
    SubstringFrom(url, i + |WatchMarker|)
  }

  // ---------------------------------------------------------------------
  // Shows
  // ---------------------------------------------------------------------

  /** One element of `translateShows`. */
  function TranslateShow(u: UpstreamShow): (r: Show)
    ensures r.id == r.shortName == ShowShortName(u.url)
    ensures r.provider == ProviderKey && !r.seasonsFetched && r.seasons.None? && !r.bookmarked
    ensures r.picture == PickImage(u.posterTall, 2) && r.wallArt == PickImage(u.posterWide, 4)
    ensures r.name == u.title && r.description == u.description
    ensures r.attributes == ShowAttributes(u.isDubbed, u.isSubbed, u.rating)
  {
    Show(
      id := ShowShortName(u.url),
      provider := ProviderKey,
      name := u.title,
      description := u.description,
      picture := PickImage(u.posterTall, 2),
      wallArt := PickImage(u.posterWide, 4),
      shortName := ShowShortName(u.url),
      seasonsFetched := false,
      attributes := ShowAttributes(u.isDubbed, u.isSubbed, u.rating),
      bookmarked := false,
      seasons := None)
  }

  /** `translateShows(json, indexOffset)`: one show per series entry, in
      order. The offset is accepted and, as in the source, not used. */
  function TranslateShows(series: seq<UpstreamShow>, indexOffset: int): (r: seq<Show>)
    ensures |r| == |series|
    ensures forall i :: 0 <= i < |r| ==> r[i] == TranslateShow(series[i])
  {
    seq(|series|, i requires 0 <= i < |series| => TranslateShow(series[i]))
  }

  /** The page offset has no effect on the translation. */
  lemma TranslateShowsIgnoresOffset(series: seq<UpstreamShow>, a: int, b: int)
    ensures TranslateShows(series, a) == TranslateShows(series, b)
  {
  }

  // ---------------------------------------------------------------------
  // Source stubs
  // ---------------------------------------------------------------------

  /** The retrieve URLs of one entry: an array as it is, anything else
      (a single URL or nothing) as a list of one. */
  function RetrieveUrls(r: RetrieveUrl): (urls: seq<Option<string>>)
    ensures r.Many? ==> |urls| == |r.urls| && forall k :: 0 <= k < |urls| ==> urls[k] == Some(r.urls[k])
    ensures r.Single? ==> urls == [Some(r.url)]
    ensures r.Absent? ==> urls == [None]
  {
    match r
    case Absent => [None]
    case Single(u) => [Some(u)]
    case Many(us) => seq(|us|, k requires 0 <= k < |us| => Some(us[k]))
  }

  /** JavaScript truthiness of an episode's own `retrieve_url`. */
  predicate Truthy(r: RetrieveUrl) {
    match r
    case Absent => false
    case Single(u) => u != ""
    case Many(_) => true
  }

  /** The fetch URL of the single stub built from an episode's own
      `retrieve_url`: the first element of an array, or the value itself. */
  function DirectFetchUrl(r: RetrieveUrl): Option<string> {
    match r
    case Absent => None
    case Single(u) => Some(u)
    case Many(us) => if |us| > 0 then Some(us[0]) else None
  }

  /** A placeholder source: not yet resolved, not stalled. */
  function Stub(id: nat, name: string, language: string, fetchUrl: Option<string>): Source {
    Source(id, name, language, fetchUrl, None, None, false, false)
  }

  /** The stubs of one upstream entry, all tagged with the entry's index. */
  function EntryStubs(e: UpstreamSource, parent: nat): seq<Source> {
    var urls := RetrieveUrls(e.retrieveUrl);
    seq(|urls|, k requires 0 <= k < |urls| => Stub(parent, e.source, e.language, urls[k]))
  }

  /** The stubs of all entries laid end to end, the entries being numbered
      from `parent` on. */
  function FlattenFrom(entries: seq<UpstreamSource>, parent: nat): seq<Source>
    decreases |entries|
  {
    if entries == [] then [] else EntryStubs(entries[0], parent) + FlattenFrom(entries[1..], parent + 1)
  }

  /** The number of stubs produced by the first `j` entries. */
  function Offset(entries: seq<UpstreamSource>, j: nat): nat
    requires j <= |entries|
    decreases j
  {
    if j == 0 then 0 else |RetrieveUrls(entries[0].retrieveUrl)| + Offset(entries[1..], j - 1)
  }

  /** The `subbed`/`dubbed` flags computed while mapping the entries: a
      language of "subs" sets the first, otherwise "dubs" sets the second. */
  function LanguageFlags(entries: seq<UpstreamSource>): (bool, bool)
    decreases |entries|
  {
    if entries == [] then (false, false)
    else
      var rest := LanguageFlags(entries[1..]);
      if entries[0].language == "subs" then (true, rest.1)
      else if entries[0].language == "dubs" then (rest.0, true)
      else rest
  }

  datatype StubResult = StubResult(subbed: bool, dubbed: bool, sources: seq<Source>)

  /** `stubSources` exactly as the source builds it: every stub of an entry
      carries that entry's index as its id, so ids repeat when an entry has
      several retrieve URLs. */
  function StubSourcesAsWritten(e: UpstreamEpisode): StubResult {
    if Truthy(e.retrieveUrl) then
      StubResult(false, false, [Stub(0, "unk", "unk", DirectFetchUrl(e.retrieveUrl))])
    else
      var flags := LanguageFlags(e.sources);
      StubResult(flags.0, flags.1, FlattenFrom(e.sources, 0))
  }

  /** Gives every source its position as id. */
  function Renumber(ss: seq<Source>): (r: seq<Source>)
    ensures |r| == |ss|
  {
    seq(|ss|, k requires 0 <= k < |ss| => ss[k].(id := k))
  }

  /** `stubSources` with the stub ids corrected to their positions in the
      episode's source list; everything else is as written. */
  function StubSources(e: UpstreamEpisode): (r: StubResult)
    ensures r.subbed == StubSourcesAsWritten(e).subbed && r.dubbed == StubSourcesAsWritten(e).dubbed
    ensures |r.sources| == |StubSourcesAsWritten(e).sources|
    ensures forall k :: 0 <= k < |r.sources| ==>
              r.sources[k].id == k && r.sources[k].(id := StubSourcesAsWritten(e).sources[k].id) == StubSourcesAsWritten(e).sources[k]
  {
    var w := StubSourcesAsWritten(e);
    w.(sources := Renumber(w.sources))
  }

  /** With a truthy direct `retrieve_url` the code builds exactly one stub:
      id 0, language "unk", unresolved and not stalled, and neither flag is
      set. Its id is already its position, so renumbering leaves it alone. */
  lemma StubSourcesDirect(e: UpstreamEpisode)
    requires Truthy(e.retrieveUrl)
    ensures var r := StubSourcesAsWritten(e);
      |r.sources| == 1 && !r.subbed && !r.dubbed &&
      r.sources[0] == Source(0, "unk", "unk", DirectFetchUrl(e.retrieveUrl), None, None, false, false)
    ensures StubSources(e) == StubSourcesAsWritten(e)
  {
    var w := StubSourcesAsWritten(e);
    assert StubSources(e).sources[0] == w.sources[0];
    assert StubSources(e).sources == w.sources;
  }

  /** The stubs of `FlattenFrom` are the entries' retrieve URLs laid end to
      end: the stub for URL `u` of entry `j` sits at `Offset(entries, j) + u`
      and carries the entry's index `parent + j` as its id. */
  lemma {:induction false} FlattenFromAt(entries: seq<UpstreamSource>, parent: nat, j: nat, u: nat)
    requires j < |entries| && u < |RetrieveUrls(entries[j].retrieveUrl)|
    ensures Offset(entries, j) + u < |FlattenFrom(entries, parent)|
    ensures FlattenFrom(entries, parent)[Offset(entries, j) + u] ==
            Stub(parent + j, entries[j].source, entries[j].language, RetrieveUrls(entries[j].retrieveUrl)[u])
    decreases j
  {
    var head := EntryStubs(entries[0], parent);
    if j > 0 {
      FlattenFromAt(entries[1..], parent + 1, j - 1, u);
      assert entries[1..][j - 1] == entries[j];
    }
  }

  /** There are no other stubs: one per retrieve URL of every entry. */
  lemma {:induction false} FlattenFromLength(entries: seq<UpstreamSource>, parent: nat)
    ensures |FlattenFrom(entries, parent)| == Offset(entries, |entries|)
    decreases |entries|
  {
    if entries != [] {
      FlattenFromLength(entries[1..], parent + 1);
    }
  }

  /** `subbed` holds exactly when some entry's language is "subs", and
      `dubbed` exactly when some entry's language is "dubs". */
  lemma {:induction false} LanguageFlagsExact(entries: seq<UpstreamSource>)
    ensures LanguageFlags(entries).0 <==> exists i :: 0 <= i < |entries| && entries[i].language == "subs"
    ensures LanguageFlags(entries).1 <==> exists i :: 0 <= i < |entries| && entries[i].language == "dubs"
    decreases |entries|
  {
    if entries != [] {
      LanguageFlagsExact(entries[1..]);
      assert forall i :: 1 <= i < |entries| ==> entries[i] == entries[1..][i - 1];
      if exists i :: 0 <= i < |entries| && entries[i].language == "subs" {
        var i :| 0 <= i < |entries| && entries[i].language == "subs";
        if i > 0 { assert entries[1..][i - 1].language == "subs"; }
      }
      if exists i :: 0 <= i < |entries| && entries[i].language == "dubs" {
        var i :| 0 <= i < |entries| && entries[i].language == "dubs";
        if i > 0 { assert entries[1..][i - 1].language == "dubs"; }
      }
    }
  }

  /** As written, the stubs of an episode without a direct URL are one per
      retrieve URL of its entries, in order, each carrying the index of the
      entry it came from; and the flags say whether some entry is "subs" or
      "dubs". */
  lemma StubSourcesAsWrittenFlattened(e: UpstreamEpisode, j: nat, u: nat)
    requires !Truthy(e.retrieveUrl)
    requires j < |e.sources| && u < |RetrieveUrls(e.sources[j].retrieveUrl)|
    ensures var r := StubSourcesAsWritten(e);
      |r.sources| == Offset(e.sources, |e.sources|) && Offset(e.sources, j) + u < |r.sources| &&
      r.sources[Offset(e.sources, j) + u] ==
        Stub(j, e.sources[j].source, e.sources[j].language, RetrieveUrls(e.sources[j].retrieveUrl)[u]) &&
      (r.subbed <==> exists i :: 0 <= i < |e.sources| && e.sources[i].language == "subs") &&
      (r.dubbed <==> exists i :: 0 <= i < |e.sources| && e.sources[i].language == "dubs")
  {
    FlattenFromAt(e.sources, 0, j, u);
    FlattenFromLength(e.sources, 0);
    LanguageFlagsExact(e.sources);
  }

  /** An episode without a direct URL whose sources are one "subs" entry
      with two retrieve URLs and one "dubs" entry with one. */
  const TwoUrlEpisode := UpstreamEpisode("", 1, "", None, Absent,
    [UpstreamSource("A", "subs", Many(["a1", "a2"])), UpstreamSource("B", "dubs", Single("b"))])

  /** As written, the "dubs" stub at position 2 has id 1; writing its resolved
      copy back at `sources[id]` replaces the second "subs" stub and leaves
      the "dubs" stub itself unresolved. */
  lemma AsWrittenWriteBackHitsSibling()
    ensures var w := StubSourcesAsWritten(TwoUrlEpisode).sources;
      var t := w[2].(url := Some("stream"), sourcesFetched := true);
      |w| == 3 && w[1].id == 0 && w[2].id == 1 &&
      w[w[2].id := t][1] == t && w[w[2].id := t][1] != w[1] && w[w[2].id := t][2] == w[2] &&
      !w[w[2].id := t][2].sourcesFetched
  {
    var w := StubSourcesAsWritten(TwoUrlEpisode).sources;
    assert RetrieveUrls(Many(["a1", "a2"])) == [Some("a1"), Some("a2")];
    assert w == [Stub(0, "A", "subs", Some("a1")), Stub(0, "A", "subs", Some("a2")), Stub(1, "B", "dubs", Some("b"))];
  }

  /** An episode without a direct URL whose first entry has an empty array
      of retrieve URLs and whose second entry has one URL. */
  const EmptyFirstEntryEpisode := UpstreamEpisode("", 1, "", None, Absent,
    [UpstreamSource("A", "subs", Many([])), UpstreamSource("B", "dubs", Single("b"))])

  /** As written, the only stub of that episode carries id 1 in a list of
      one, so writing its resolved copy back at `sources[id]` lands past the
      end of the list. */
  lemma AsWrittenIdPastEnd()
    ensures var w := StubSourcesAsWritten(EmptyFirstEntryEpisode).sources;
      |w| == 1 && w[0].id == 1 && w[0].id >= |w| && w[0].fetchUrl == Some("b")
  {
    var w := StubSourcesAsWritten(EmptyFirstEntryEpisode).sources;
    assert RetrieveUrls(Many([])) == [];
    assert w == [Stub(1, "B", "dubs", Some("b"))];
  }

  /** With corrected ids, writing a resolved source back at `sources[id]`
      replaces exactly the stub it was resolved from. */
  lemma WriteBackByIdReplacesSelected(e: UpstreamEpisode, k: nat, t: Source)
    requires k < |StubSources(e).sources| && t.id == StubSources(e).sources[k].id
    ensures var s := StubSources(e).sources;
      t.id < |s| && s[t.id := t][k] == t &&
      forall j :: 0 <= j < |s| && j != k ==> s[t.id := t][j] == s[j]
  {
  }

  // ---------------------------------------------------------------------
  // Episodes and seasons
  // ---------------------------------------------------------------------

  /** One element of `translateEpisodes`, with the stubs as the source
      numbers them. */
  function TranslateEpisode(e: UpstreamEpisode, index: nat): Episode {
    var stubs := StubSourcesAsWritten(e);
    Episode(
      id := index,
      name := e.title,
      episodeNumber := e.episodeNumber,
      description := e.description,
      picture := PickImage(e.thumbnail, 0),
      sources := stubs.sources,
      attributes := EpisodeAttributes(stubs.dubbed, stubs.subbed),
      watched := None,
      progress := None)
  }

  /** `translateEpisodes`: one episode per upstream episode, numbered by
      position, without overlay, carrying the upstream title, number and
      description, the stubs of its sources (all unresolved and not
      stalled) and the language flags those stubs yield. */
  function TranslateEpisodes(eps: seq<UpstreamEpisode>): (r: seq<Episode>)
    ensures |r| == |eps|
    ensures forall i :: 0 <= i < |r| ==>
              r[i].id == i && r[i].watched.None? && r[i].progress.None? &&
              r[i].name == eps[i].title && r[i].episodeNumber == eps[i].episodeNumber &&
              r[i].description == eps[i].description &&
              r[i].picture == PickImage(eps[i].thumbnail, 0) &&
              r[i].sources == StubSourcesAsWritten(eps[i]).sources &&
              r[i].attributes == EpisodeAttributes(StubSourcesAsWritten(eps[i]).dubbed, StubSourcesAsWritten(eps[i]).subbed)
    ensures forall i :: 0 <= i < |r| ==> AllFresh(r[i].sources)
  {
    var r := seq(|eps|, i requires 0 <= i < |eps| => TranslateEpisode(eps[i], i));
    forall i | 0 <= i < |eps| ensures AllFresh(StubSourcesAsWritten(eps[i]).sources) {
      if !Truthy(eps[i].retrieveUrl) { FlattenFromFresh(eps[i].sources, 0); }
    }
    r
  }

  /** `translateEpisodes` with the stub ids corrected to positions: the
      same episodes, except that each source's id is its position in the
      episode's list. */
  function TranslateEpisodesRenumbered(eps: seq<UpstreamEpisode>): (r: seq<Episode>)
    ensures |r| == |eps|
    ensures forall i :: 0 <= i < |r| ==>
              r[i].(sources := TranslateEpisodes(eps)[i].sources) == TranslateEpisodes(eps)[i] &&
              r[i].sources == StubSources(eps[i]).sources && AllFresh(r[i].sources)
    ensures forall i, k :: 0 <= i < |r| && 0 <= k < |r[i].sources| ==> r[i].sources[k].id == k
  {
    var written := TranslateEpisodes(eps);
    seq(|written|, i requires 0 <= i < |written| => written[i].(sources := StubSources(eps[i]).sources))
  }

  /** No source in the list is resolved or stalled. */
  predicate AllFresh(ss: seq<Source>) {
    forall k :: 0 <= k < |ss| ==> !ss[k].sourcesFetched && !ss[k].stalled
  }

  lemma {:induction false} FlattenFromFresh(entries: seq<UpstreamSource>, parent: nat)
    ensures AllFresh(FlattenFrom(entries, parent))
    decreases |entries|
  {
    if entries != [] {
      FlattenFromFresh(entries[1..], parent + 1);
    }
  }

  /** The `type` of an upstream media group that holds a flat list. */
  const UpstreamEpisodesType := "episodes"

  /** The kind stored in every season built from a flat list. */
  const SeasonEpisodesKind := "episodes"

  /** The episodes of a media group, or none when the group has no list. */
  function EpisodesOf(g: MediaGroup): seq<UpstreamEpisode> {
    g.episodes.GetOr([])
  }

  /** A single group of kind "episodes" is the flat-list case. */
  predicate IsFlatList(media: seq<MediaGroup>) {
    |media| == 1 && media[0].kind == UpstreamEpisodesType
  }

  /** The number of seasons of fifty needed for `n` episodes: ⌈n/50⌉. */
  function ChunkCount(n: nat): nat {
    (n + SeasonChunk - 1) / SeasonChunk
  }

  /** The end of slice `slice`: fifty past its start, but never past the
      last episode. */
  function SliceEnd(n: nat, slice: nat): nat {
    if SeasonChunk * slice + SeasonChunk > n then n else SeasonChunk * slice + SeasonChunk
  }

  /** The name of a range of episodes: its first episode counted from one,
      the word "to", and its last. */
  function RangeName(start: nat, end: nat): string {
    NatToString(start + 1) + " to " + NatToString(end)
  }

  /** The episodes of slice `slice`. */
  function Slice(eps: seq<UpstreamEpisode>, slice: nat): seq<UpstreamEpisode>
    requires SeasonChunk * slice < |eps|
  {
    eps[SeasonChunk * slice..SliceEnd(|eps|, slice)]
  }

  /** The synthesized season built from slice `slice`. */
  function ChunkSeason(eps: seq<UpstreamEpisode>, slice: nat): Season
    requires SeasonChunk * slice < |eps|
  {
    Season(slice, RangeName(SeasonChunk * slice, SliceEnd(|eps|, slice)), SeasonEpisodesKind, TranslateEpisodes(Slice(eps, slice)))
  }

  lemma ChunkBound(n: nat, i: nat)
    requires i < ChunkCount(n)
    ensures SeasonChunk * i < n
  {
  }

  /** The slices in order, one per synthesized season. */
  function Slices(eps: seq<UpstreamEpisode>): (r: seq<seq<UpstreamEpisode>>)
    ensures |r| == ChunkCount(|eps|)
  {
    seq(ChunkCount(|eps|), i requires 0 <= i < ChunkCount(|eps|) => (ChunkBound(|eps|, i); Slice(eps, i)))
  }

  /** The season list `translateSeasons` returns for `json.seasons.ws.media`. */
  function Seasons(media: seq<MediaGroup>): seq<Season> {
    if IsFlatList(media) then
      var eps := EpisodesOf(media[0]);
      if |eps| > SeasonChunk then
        seq(ChunkCount(|eps|), i requires 0 <= i < ChunkCount(|eps|) => (ChunkBound(|eps|, i); ChunkSeason(eps, i)))
      else
        [Season(0, "1 to " + NatToString(|eps|), SeasonEpisodesKind, TranslateEpisodes(eps))]
    else
      seq(|media|, i requires 0 <= i < |media| =>
        Season(i, media[i].title, media[i].kind, TranslateEpisodes(EpisodesOf(media[i]))))
  }

  /** `translateSeasons`: the `for` loop that pushes one season per slice. */
  method TranslateSeasons(media: seq<MediaGroup>) returns (seasons: seq<Season>)
    ensures seasons == Seasons(media)
  {
    if |media| == 1 && media[0].kind == UpstreamEpisodesType {
      var episodesList := EpisodesOf(media[0]);
      var n := |episodesList|;
      if n > SeasonChunk {
        var seasonList: seq<Season> := [];
        var slice := 0;
        while SeasonChunk * slice < n
          invariant 0 <= slice <= ChunkCount(n)
          invariant |seasonList| == slice
          invariant forall i :: 0 <= i < slice ==> SeasonChunk * i < n && seasonList[i] == ChunkSeason(episodesList, i)
        {
          var start := SeasonChunk * slice;
          var end := if start + SeasonChunk > n then n else start + SeasonChunk;
          var season := Season(slice, RangeName(start, end), SeasonEpisodesKind, TranslateEpisodes(episodesList[start..end]));
          seasonList := seasonList + [season];
          slice := slice + 1;
        }
        return seasonList;
      }
      return [Season(0, "1 to " + NatToString(n), SeasonEpisodesKind, TranslateEpisodes(episodesList))];
    }
    seasons := [];
    var index := 0;
    while index < |media|
      invariant 0 <= index <= |media| && |seasons| == index
      invariant forall i :: 0 <= i < index ==>
                  seasons[i] == Season(i, media[i].title, media[i].kind, TranslateEpisodes(EpisodesOf(media[i])))
    {
      var group := media[index];
      seasons := seasons + [Season(index, group.title, group.kind, TranslateEpisodes(EpisodesOf(group)))];
      index := index + 1;
    }
  }

  function Concat<T>(ss: seq<seq<T>>): seq<T>
    decreases |ss|
  {
    if ss == [] then [] else ss[0] + Concat(ss[1..])
  }

  lemma {:induction false} ConcatSnoc<T>(ss: seq<seq<T>>, x: seq<T>)
    ensures Concat(ss + [x]) == Concat(ss) + x
    decreases |ss|
  {
    if ss != [] {
      assert (ss + [x])[1..] == ss[1..] + [x];
      ConcatSnoc(ss[1..], x);
    }
  }

  /** The first `k` slices laid end to end are the first `min(50k, n)` episodes. */
  lemma {:induction false} SlicesPrefix(eps: seq<UpstreamEpisode>, k: nat)
    requires k <= ChunkCount(|eps|)
    ensures Concat(Slices(eps)[..k]) == eps[..if SeasonChunk * k < |eps| then SeasonChunk * k else |eps|]
    decreases k
  {
    if k > 0 {
      var all := Slices(eps);
      SlicesPrefix(eps, k - 1);
      assert all[..k] == all[..k - 1] + [all[k - 1]];
      ConcatSnoc(all[..k - 1], all[k - 1]);
      ChunkBound(|eps|, k - 1);
      assert SliceEnd(|eps|, k - 1) == if SeasonChunk * k < |eps| then SeasonChunk * k else |eps|;
      assert eps[..SliceEnd(|eps|, k - 1)] == eps[..SeasonChunk * (k - 1)] + all[k - 1];
    }
  }

  /** A single "episodes" group of n > 50 episodes becomes ⌈n/50⌉ seasons with
      ids 0..k-1, season i named "{50i+1} to {min(50i+50, n)}" and holding the
      translated slice i of at most fifty episodes; the slices laid end to end
      give back the original list. */
  lemma ChunkedSeasons(media: seq<MediaGroup>)
    requires IsFlatList(media) && |EpisodesOf(media[0])| > SeasonChunk
    ensures var eps := EpisodesOf(media[0]); var n := |eps|; var s := Seasons(media);
      |s| == ChunkCount(n) && SeasonChunk * (|s| - 1) < n <= SeasonChunk * |s| &&
      (forall i :: 0 <= i < |s| ==>
         s[i].id == i && s[i].kind == SeasonEpisodesKind &&
         |Slices(eps)[i]| <= SeasonChunk && |s[i].episodes| == |Slices(eps)[i]| &&
         s[i].episodes == TranslateEpisodes(Slices(eps)[i]) &&
         s[i].seasonName == RangeName(SeasonChunk * i, if SeasonChunk * i + SeasonChunk < n then SeasonChunk * i + SeasonChunk else n)) &&
      Concat(Slices(eps)) == eps
  {
    var eps := EpisodesOf(media[0]);
    SlicesPrefix(eps, ChunkCount(|eps|));
    assert Slices(eps)[..ChunkCount(|eps|)] == Slices(eps);
  }

  /** The other two cases: up to fifty episodes in one "episodes" group give
      the single season 0 named "1 to n"; anything else gives one season per
      group, numbered by position, keeping the group's title and kind. */
  lemma UnchunkedSeasons(media: seq<MediaGroup>)
    ensures IsFlatList(media) && |EpisodesOf(media[0])| <= SeasonChunk ==>
      Seasons(media) == [Season(0, "1 to " + NatToString(|EpisodesOf(media[0])|), SeasonEpisodesKind, TranslateEpisodes(EpisodesOf(media[0])))]
    ensures !IsFlatList(media) ==> (|Seasons(media)| == |media| &&
      forall i :: 0 <= i < |media| ==>
        Seasons(media)[i].id == i && Seasons(media)[i].seasonName == media[i].title && Seasons(media)[i].kind == media[i].kind &&
        Seasons(media)[i].episodes == TranslateEpisodes(EpisodesOf(media[i])))
  {
  }

  /** A flat list of 120 episodes gives the seasons "1 to 50", "51 to 100" and
      "101 to 120". */
  lemma HundredTwentyEpisodes(media: seq<MediaGroup>)
    requires IsFlatList(media) && |EpisodesOf(media[0])| == 120
    ensures |Seasons(media)| == 3
    ensures Seasons(media)[0].seasonName == "1 to 50"
    ensures Seasons(media)[1].seasonName == "51 to 100"
    ensures Seasons(media)[2].seasonName == "101 to 120"
  {
    var eps := EpisodesOf(media[0]);
    assert ChunkCount(|eps|) == 3;
    assert Seasons(media)[0] == ChunkSeason(eps, 0) && ChunkSeason(eps, 0).seasonName == RangeName(0, 50);
    assert Seasons(media)[1] == ChunkSeason(eps, 1) && ChunkSeason(eps, 1).seasonName == RangeName(50, 100);
    assert Seasons(media)[2] == ChunkSeason(eps, 2) && ChunkSeason(eps, 2).seasonName == RangeName(100, 120);
    SeasonNames();
  }

  /** The range names of the three seasons of a 120-episode list. */
  lemma SeasonNames()
    ensures RangeName(0, 50) == "1 to 50"
    ensures RangeName(50, 100) == "51 to 100"
    ensures RangeName(100, 120) == "101 to 120"
  {
    assert NatToString(50) == "50";
    assert NatToString(51) == "51";
    assert NatToString(100) == "100";
    assert NatToString(101) == "101";
    assert NatToString(120) == "120";
  }

  // ---------------------------------------------------------------------
  // Resolved sources
  // ---------------------------------------------------------------------

  /** `translateSources(json, source)`: take the last (best) entry of `urls`
      as the stream URL and quality and mark the source resolved; an empty
      `urls` list makes `bestQuality.src` throw. */
  function TranslateSources(response: StreamResponse, source: Source): (r: Result<Source, Fault>)
    ensures r.Success? <==> |response.urls| > 0
    ensures r.Failure? ==> r.error == NoStreamUrls
    ensures r.Success? ==>
      var best := response.urls[|response.urls| - 1];
      r.value.sourcesFetched && r.value.url == Some(best.src) && r.value.quality == Some(best.qualityLabel) &&
      r.value.(url := source.url, quality := source.quality, sourcesFetched := source.sourcesFetched) == source
  {
    if |response.urls| == 0 then Failure(NoStreamUrls)
    else
      var bestQuality := response.urls[|response.urls| - 1];
      Success(source.(url := Some(bestQuality.src), quality := Some(bestQuality.qualityLabel), sourcesFetched := true))
  }
}
