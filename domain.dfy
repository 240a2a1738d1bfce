/**
 * The records of the WonderfulSubs provider: the normalized show, season,
 * episode and source records it hands to the user interface, the upstream
 * payloads it receives (already parsed from JSON), and the constants it uses.
 */
module Domain {
  import opened Wrappers

  // ---------------------------------------------------------------------
  // Normalized records
  // ---------------------------------------------------------------------

  /** A candidate stream of an episode. `url`/`quality` stay unset until the
      stream is resolved, which sets `sourcesFetched`. */
  datatype Source = Source(
    id: nat,
    name: string,
    language: string,
    fetchUrl: Option<string>,
    url: Option<string>,
    quality: Option<string>,
    sourcesFetched: bool,
    stalled: bool)

  datatype EpisodeAttributes = EpisodeAttributes(dubbed: bool, subbed: bool)

  /** `watched` and `progress` are the overlay read from the settings store. */
  datatype Episode = Episode(
    id: nat,
    name: string,
    episodeNumber: int,
    description: string,
    picture: Option<string>,
    sources: seq<Source>,
    attributes: EpisodeAttributes,
    watched: Option<bool>,
    progress: Option<int>)

  datatype Season = Season(id: nat, seasonName: string, kind: string, episodes: seq<Episode>)

  datatype ShowAttributes = ShowAttributes(dubbed: bool, subbed: bool, rating: string)

  /** `seasons` is unset until the series detail has been fetched. */
  datatype Show = Show(
    id: string,
    provider: string,
    name: string,
    description: string,
    picture: Option<string>,
    wallArt: Option<string>,
    shortName: string,
    seasonsFetched: bool,
    attributes: ShowAttributes,
    bookmarked: bool,
    seasons: Option<seq<Season>>)

  /** The user preferences the provider reads. */
  datatype Settings = Settings(language: string, quality: int)

  // ---------------------------------------------------------------------
  // Upstream payloads
  // ---------------------------------------------------------------------

  datatype Image = Image(source: string)

  /** One entry of `json.series` in a catalog or search page. */
  datatype UpstreamShow = UpstreamShow(
    url: string,
    title: string,
    description: string,
    posterTall: Option<seq<Image>>,
    posterWide: Option<seq<Image>>,
    isDubbed: bool,
    isSubbed: bool,
    rating: string)

  /** A `retrieve_url` field: missing, one string, or an array of strings. */
  datatype RetrieveUrl = Absent | Single(url: string) | Many(urls: seq<string>)

  /** One entry of an upstream episode's `sources` array. */
  datatype UpstreamSource = UpstreamSource(source: string, language: string, retrieveUrl: RetrieveUrl)

  datatype UpstreamEpisode = UpstreamEpisode(
    title: string,
    episodeNumber: int,
    description: string,
    thumbnail: Option<seq<Image>>,
    retrieveUrl: RetrieveUrl,
    sources: seq<UpstreamSource>)

  /** One entry of `json.seasons.ws.media` in a series payload. */
  datatype MediaGroup = MediaGroup(kind: string, title: string, episodes: Option<seq<UpstreamEpisode>>)

  /** One entry of `urls`: `src` and `label` in the payload. */
  datatype StreamQuality = StreamQuality(src: string, qualityLabel: string)

  /** A stream-resolution body: the status embedded in the JSON and the
      quality-ordered list of stream URLs (`urls`, defaulting to empty). */
  datatype StreamResponse = StreamResponse(status: int, urls: seq<StreamQuality>)

  /** The places where the provider throws a TypeError (or, for a write-back
      beyond the end of the source array, where the model stops). */
  datatype Fault =
    | MissingCategory   // showData[category] is undefined
    | MissingShow       // showData[category][showId] is undefined
    | MissingSeasons    // show.seasons is undefined
    | MissingSeason     // no season at the requested id or position
    | MissingEpisode    // no episode at the requested id or position
    | NoResponse        // fetch_retry gave up and returned undefined
    | NoCandidate       // the episode has no sources to choose from
    | NoStreamUrls      // the stream body has an empty `urls` list
    | WriteBeyondEnd    // the resolved source's id is past the end of episode.sources

  const ProviderKey := "wonderfulsubs"
  /** Shows requested per catalog page. */
  const PageSize := 24
  /** Catalog continuation stops once a category holds this many shows. */
  const MaxShowsToFetch := 120
  /** Episodes per synthesized season. */
  const SeasonChunk := 50
  /** Attempts made by fetch_retry for every request. */
  const FetchAttempts := 3
  /** The status that marks a candidate stream as not found. */
  const NotFound := 404
  /** The marker that precedes a show's short name in its URL. */
  const WatchMarker := "watch/"

  /** The provider's default settings. */
  const DefaultSettings := Settings("dubs", 5000000)
}
