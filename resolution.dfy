/**
 * What `fetchSources` does to the catalog, as a function of the catalog,
 * the request and the network's answers: locate the episode, mark or clear
 * stalls, run the candidate loop, translate the answer and write the
 * resolved source back at `sources[id]`.
 */
module Resolution {
  import opened Wrappers
  import opened Domain
  import opened Transport
  import opened Translate
  import opened Selection
  import opened Catalog

  /** The episode at a season and episode position of a show exists. */
  predicate Fits(show: Show, si: int, ei: int) {
    show.seasons.Some? && 0 <= si < |show.seasons.value| && 0 <= ei < |show.seasons.value[si].episodes|
  }

  /** `showData[category][showId].seasons[seasonId].episodes[episodeId]`,
      with the TypeError each missing step raises. Seasons and episodes are
      indexed by position here. */
  function Locate(store: Store, category: string, showId: string, seasonId: int, episodeId: int): (r: Result<Show, Fault>)
    ensures r.Success? <==> category in store && showId in store[category] && Fits(store[category][showId], seasonId, episodeId)
    ensures r.Success? ==> r.value == store[category][showId]
    ensures r.Failure? ==>
      (r.error == MissingCategory <==> category !in store) &&
      (r.error == MissingShow <==> category in store && showId !in store[category]) &&
      (r.error in {MissingCategory, MissingShow, MissingSeasons, MissingSeason, MissingEpisode})
  {
    if category !in store then Failure(MissingCategory)
    else if showId !in store[category] then Failure(MissingShow)
    else
      var show := store[category][showId];
      if show.seasons.None? then Failure(MissingSeasons)
      else if !(0 <= seasonId < |show.seasons.value|) then Failure(MissingSeason)
      else if !(0 <= episodeId < |show.seasons.value[seasonId].episodes|) then Failure(MissingEpisode)
      else Success(show)
  }

  /** `stream(k)` is the outcome of each attempt of the k-th stream request;
      the loop sees what fetch_retry makes of them. */
  function Responses(stream: nat -> nat -> Option<StreamResponse>, n: nat): (r: seq<Option<StreamResponse>>)
    ensures |r| == n && forall k :: 0 <= k < n ==> r[k] == FirstAnswer(stream(k), FetchAttempts)
  {
    seq(n, k requires 0 <= k < n => FirstAnswer(stream(k), FetchAttempts))
  }

  /** The `code` sent for a candidate: its normalized fetch URL, or the
      string "undefined" when it has none. */
  function Code(decode: string -> string, s: Source): string
    requires DecodeShortens(decode)
  {
    if s.fetchUrl.Some? then Normalized(decode, s.fetchUrl.value) else "undefined"
  }

  function Codes(decode: string -> string, requested: seq<Source>): (r: seq<string>)
    requires DecodeShortens(decode)
    ensures |r| == |requested| && forall k :: 0 <= k < |r| ==> r[k] == Code(decode, requested[k])
  {
    seq(|requested|, k requires 0 <= k < |requested| => Code(decode, requested[k]))
  }

  /** Requesting one more candidate appends its code. */
  lemma CodesSnoc(decode: string -> string, requested: seq<Source>, s: Source)
    requires DecodeShortens(decode)
    ensures Codes(decode, requested + [s]) == Codes(decode, requested) + [Code(decode, s)]
  {
  }

  /** The catalog after the call, what the call returns or throws, and the
      candidates requested in order. */
  datatype Resolution = Resolution(store: Store, result: Result<(Show, Source), Fault>, requested: seq<Source>)

  /** The show with the given episode's sources replaced. */
  function WithSources(show: Show, si: nat, ei: nat, sources: seq<Source>): Show
    requires Fits(show, si, ei)
  {
    WithEpisode(show, si, ei, EpisodeAt(show, si, ei).(sources := sources))
  }

  /** What the call returns or throws once the loop has ended on the
      working copy of `marked`. */
  function Outcome(marked: seq<Source>, end: LoopEnd): (r: Result<Source, Fault>)
    ensures end.Memoized? ==> r == Success(end.source)
    ensures end.Answered? && r.Success? ==>
      r.value.id < |marked| && TranslateSources(end.response, end.chosen) == r
    ensures end.Answered? && |end.response.urls| > 0 && end.chosen.id < |marked| ==>
      r.Success? && r == TranslateSources(end.response, end.chosen)
    ensures end.Answered? && |end.response.urls| > 0 && end.chosen.id >= |marked| ==>
      r == Failure(WriteBeyondEnd)
    ensures end.Answered? && |end.response.urls| == 0 ==> r == Failure(NoStreamUrls)
    ensures end.EmptyPool? ==> r == Failure(NoCandidate)
    ensures end.Unanswered? ==> r == Failure(NoResponse)
  {
    match end
    case EmptyPool => Failure(NoCandidate)
    case Memoized(source) => Success(source)
    case Unanswered => Failure(NoResponse)
    case Answered(chosen, response) =>
      var translated := TranslateSources(response, chosen);
      if translated.Failure? || translated.value.id < |marked| then translated else Failure(WriteBeyondEnd)
  }

  /** The episode's sources after the call: the stall marks, plus the
      resolved source written at its id when the loop ended on an answer. */
  function Final(marked: seq<Source>, end: LoopEnd): seq<Source> {
    var outcome := Outcome(marked, end);
    if end.Answered? && outcome.Success? then marked[outcome.value.id := outcome.value] else marked
  }

  /** Everything `fetchSources` does. The stall marks are written to the
      catalog before the loop starts, so they stay even when a later step
      throws. */
  function Resolve(store: Store, category: string, showId: string, seasonId: int, episodeId: int,
                   badSourceId: Option<int>, preferredLanguage: string,
                   stream: nat -> nat -> Option<StreamResponse>): Resolution
  {
    var located := Locate(store, category, showId, seasonId, episodeId);
    if located.Failure? then Resolution(store, Failure(located.error), [])
    else
      var show := located.value;
      var marked := MarkStalls(EpisodeAt(show, seasonId, episodeId).sources, badSourceId);
      var t := RunLoop(marked, Recovering(badSourceId), preferredLanguage, Responses(stream, |marked|));
      var outcome := Outcome(marked, t.end);
      var after := WithSources(show, seasonId, episodeId, Final(marked, t.end));
      Resolution(Put(store, category, showId, after),
                 if outcome.Success? then Success((after, outcome.value)) else Failure(outcome.error),
                 t.requested)
  }

  /** Source ids are positions in the episode's list, as the corrected stubs
      number them. */
  predicate WellNumbered(sources: seq<Source>) {
    forall i :: 0 <= i < |sources| ==> sources[i].id == i
  }

  /** A lookup that fails changes nothing and requests nothing. */
  lemma ResolveMissing(store: Store, category: string, showId: string, seasonId: int, episodeId: int,
                       badSourceId: Option<int>, preferredLanguage: string,
                       stream: nat -> nat -> Option<StreamResponse>)
    requires Locate(store, category, showId, seasonId, episodeId).Failure?
    ensures var r := Resolve(store, category, showId, seasonId, episodeId, badSourceId, preferredLanguage, stream);
      r.store == store && r.requested == [] && r.result == Failure(Locate(store, category, showId, seasonId, episodeId).error)
  {
  }

  /** Only the sources of the requested episode change: their number stays,
      and each one differs from the original at most in its stall flag,
      except the slot the resolved source is written to. No source is
      requested more often than it occurs in the list. */
  lemma ResolveTouchesOneEpisode(store: Store, category: string, showId: string, seasonId: int, episodeId: int,
                                 badSourceId: Option<int>, preferredLanguage: string,
                                 stream: nat -> nat -> Option<StreamResponse>)
    requires Locate(store, category, showId, seasonId, episodeId).Success?
    ensures var r := Resolve(store, category, showId, seasonId, episodeId, badSourceId, preferredLanguage, stream);
      var show := store[category][showId];
      var sources := EpisodeAt(show, seasonId, episodeId).sources;
      r.store.Keys == store.Keys &&
      (forall c :: c in store && c != category ==> r.store[c] == store[c]) &&
      r.store[category].Keys == store[category].Keys &&
      (forall k :: k in store[category] && k != showId ==> r.store[category][k] == store[category][k]) &&
      |r.requested| <= |sources| && multiset(r.requested) <= multiset(MarkStalls(sources, badSourceId)) &&
      exists updated: seq<Source> :: |updated| == |sources| &&
        r.store[category][showId] == WithSources(show, seasonId, episodeId, updated) &&
        forall i :: 0 <= i < |sources| ==>
          updated[i].(stalled := sources[i].stalled) == sources[i] ||
          (r.result.Success? && i == r.result.value.1.id && updated[i] == r.result.value.1)
  {
    var show := store[category][showId];
    var sources := EpisodeAt(show, seasonId, episodeId).sources;
    var marked := MarkStalls(sources, badSourceId);
    var t := RunLoop(marked, Recovering(badSourceId), preferredLanguage, Responses(stream, |marked|));
    var r := Resolve(store, category, showId, seasonId, episodeId, badSourceId, preferredLanguage, stream);
    assert r.requested == t.requested;
    RequestedFromPool(marked, Recovering(badSourceId), preferredLanguage, Responses(stream, |marked|));
    var updated := Final(marked, t.end);
    assert r.store[category][showId] == WithSources(show, seasonId, episodeId, updated);
    FinalCloseToSources(sources, badSourceId, t.end);
  }

  /** A successful call returns the show as stored, and its source is in the
      stored episode: either freshly resolved and written at `sources[id]`,
      or one the list already held, in which case only the stall marks were
      written. */
  lemma ResolveStoresResult(store: Store, category: string, showId: string, seasonId: int, episodeId: int,
                            badSourceId: Option<int>, preferredLanguage: string,
                            stream: nat -> nat -> Option<StreamResponse>)
    requires Locate(store, category, showId, seasonId, episodeId).Success?
    ensures var r := Resolve(store, category, showId, seasonId, episodeId, badSourceId, preferredLanguage, stream);
      var marked := MarkStalls(EpisodeAt(store[category][showId], seasonId, episodeId).sources, badSourceId);
      var after := r.store[category][showId];
      r.result.Success? ==>
        r.result.value.0 == after && Fits(after, seasonId, episodeId) &&
        var stored := EpisodeAt(after, seasonId, episodeId).sources;
        (r.result.value.1.id < |stored| && stored[r.result.value.1.id] == r.result.value.1) ||
        (r.result.value.1 in marked && stored == marked)
  {
    var show := store[category][showId];
    var sources := EpisodeAt(show, seasonId, episodeId).sources;
    var marked := MarkStalls(sources, badSourceId);
    var t := RunLoop(marked, Recovering(badSourceId), preferredLanguage, Responses(stream, |marked|));
    FinalCloseToSources(sources, badSourceId, t.end);
    EndFromPool(marked, Recovering(badSourceId), preferredLanguage, Responses(stream, |marked|));
  }

  /** Slot by slot, the final list differs from the original only in the
      stall flag, or is the resolved source at its id. A source resolved
      from an answer is stored at `sources[id]`; otherwise the list is the
      stall-marked one. */
  lemma FinalCloseToSources(sources: seq<Source>, badSourceId: Option<int>, end: LoopEnd)
    ensures var marked := MarkStalls(sources, badSourceId);
      var updated := Final(marked, end);
      var outcome := Outcome(marked, end);
      |updated| == |sources| &&
      (forall i :: 0 <= i < |sources| ==>
         updated[i].(stalled := sources[i].stalled) == sources[i] ||
         (outcome.Success? && i == outcome.value.id && updated[i] == outcome.value)) &&
      (end.Answered? && outcome.Success? ==> outcome.value.id < |updated| && updated[outcome.value.id] == outcome.value) &&
      (!(end.Answered? && outcome.Success?) ==> updated == marked)
  {
  }

  /** When the loop ends on an answer that lists stream URLs, the candidate
      requested last is resolved from that answer. If its id names a slot of
      the episode, the call succeeds with the translated source, which is
      stored at that slot; otherwise the write-back fails with
      `WriteBeyondEnd` and only the stall marks are stored. */
  lemma ResolveAnswered(store: Store, category: string, showId: string, seasonId: int, episodeId: int,
                        badSourceId: Option<int>, preferredLanguage: string,
                        stream: nat -> nat -> Option<StreamResponse>)
    requires Locate(store, category, showId, seasonId, episodeId).Success?
    requires var marked := MarkStalls(EpisodeAt(store[category][showId], seasonId, episodeId).sources, badSourceId);
      var t := RunLoop(marked, Recovering(badSourceId), preferredLanguage, Responses(stream, |marked|));
      t.end.Answered? && |t.end.response.urls| > 0
    ensures var r := Resolve(store, category, showId, seasonId, episodeId, badSourceId, preferredLanguage, stream);
      var marked := MarkStalls(EpisodeAt(store[category][showId], seasonId, episodeId).sources, badSourceId);
      var n := |r.requested|;
      var after := r.store[category][showId];
      n > 0 && FirstAnswer(stream(n - 1), FetchAttempts).Some? &&
      var resolved := TranslateSources(FirstAnswer(stream(n - 1), FetchAttempts).value, r.requested[n - 1]);
      resolved.Success? && Fits(after, seasonId, episodeId) &&
      (r.requested[n - 1].id < |marked| ==>
         r.result == Success((after, resolved.value)) &&
         EpisodeAt(after, seasonId, episodeId).sources == marked[resolved.value.id := resolved.value]) &&
      (r.requested[n - 1].id >= |marked| ==>
         r.result == Failure(WriteBeyondEnd) && EpisodeAt(after, seasonId, episodeId).sources == marked)
  {
    var marked := MarkStalls(EpisodeAt(store[category][showId], seasonId, episodeId).sources, badSourceId);
    AnsweredIsLastRequested(marked, Recovering(badSourceId), preferredLanguage, Responses(stream, |marked|));
  }

  /** When the selected source is already resolved, nothing is requested
      and that source is returned with the show as stored. */
  lemma ResolveShortCircuit(store: Store, category: string, showId: string, seasonId: int, episodeId: int,
                            badSourceId: Option<int>, preferredLanguage: string,
                            stream: nat -> nat -> Option<StreamResponse>)
    requires Locate(store, category, showId, seasonId, episodeId).Success?
    requires var marked := MarkStalls(EpisodeAt(store[category][showId], seasonId, episodeId).sources, badSourceId);
      marked != [] &&
      marked[FindIdealSource(marked, Recovering(badSourceId), preferredLanguage).index].sourcesFetched
    ensures var r := Resolve(store, category, showId, seasonId, episodeId, badSourceId, preferredLanguage, stream);
      var marked := MarkStalls(EpisodeAt(store[category][showId], seasonId, episodeId).sources, badSourceId);
      r.requested == [] &&
      r.result == Success((r.store[category][showId], marked[FindIdealSource(marked, Recovering(badSourceId), preferredLanguage).index]))
  {
    var marked := MarkStalls(EpisodeAt(store[category][showId], seasonId, episodeId).sources, badSourceId);
    SelectedIsFindIdealSource(marked, Recovering(badSourceId), preferredLanguage);
  }

  /** With ids that are positions, `fetchSources` keeps them so, never
      writes past the end, and a successful call returns a resolved source
      that sits at its own id in the stored episode. */
  lemma ResolveKeepsNumbering(store: Store, category: string, showId: string, seasonId: int, episodeId: int,
                              badSourceId: Option<int>, preferredLanguage: string,
                              stream: nat -> nat -> Option<StreamResponse>)
    requires Locate(store, category, showId, seasonId, episodeId).Success?
    requires WellNumbered(EpisodeAt(store[category][showId], seasonId, episodeId).sources)
    ensures var r := Resolve(store, category, showId, seasonId, episodeId, badSourceId, preferredLanguage, stream);
      var after := r.store[category][showId];
      r.result != Failure(WriteBeyondEnd) &&
      Fits(after, seasonId, episodeId) &&
      WellNumbered(EpisodeAt(after, seasonId, episodeId).sources) &&
      (r.result.Success? ==>
         r.result.value.0 == after && r.result.value.1.sourcesFetched &&
         r.result.value.1.id < |EpisodeAt(after, seasonId, episodeId).sources| &&
         EpisodeAt(after, seasonId, episodeId).sources[r.result.value.1.id] == r.result.value.1)
  {
    var show := store[category][showId];
    var sources := EpisodeAt(show, seasonId, episodeId).sources;
    var marked := MarkStalls(sources, badSourceId);
    assert WellNumbered(marked) by {
      forall i | 0 <= i < |marked| ensures marked[i].id == i {
        assert marked[i].(stalled := sources[i].stalled) == sources[i];
      }
    }
    var responses := Responses(stream, |marked|);
    var t := RunLoop(marked, Recovering(badSourceId), preferredLanguage, responses);
    EndFromPool(marked, Recovering(badSourceId), preferredLanguage, responses);
    FinalKeepsNumbering(marked, t.end);
  }

  /** The write-back of a source resolved from a well-numbered list lands
      on its own slot. */
  lemma FinalKeepsNumbering(marked: seq<Source>, end: LoopEnd)
    requires WellNumbered(marked)
    requires end.Memoized? ==> end.source in marked && end.source.sourcesFetched
    requires end.Answered? ==> end.chosen in marked
    ensures Outcome(marked, end) != Failure(WriteBeyondEnd)
    ensures WellNumbered(Final(marked, end))
    ensures Outcome(marked, end).Success? ==>
      Outcome(marked, end).value.sourcesFetched &&
      Outcome(marked, end).value.id < |Final(marked, end)| &&
      Final(marked, end)[Outcome(marked, end).value.id] == Outcome(marked, end).value
  {
    if end.Answered? {
      var i :| 0 <= i < |marked| && marked[i] == end.chosen;
    }
  }

  /** A successful call either returns a source of the episode that was
      already resolved, or resolves the candidate requested last from the
      answer to that request. */
  lemma ResolveResultOrigin(store: Store, category: string, showId: string, seasonId: int, episodeId: int,
                            badSourceId: Option<int>, preferredLanguage: string,
                            stream: nat -> nat -> Option<StreamResponse>)
    requires Locate(store, category, showId, seasonId, episodeId).Success?
    ensures var r := Resolve(store, category, showId, seasonId, episodeId, badSourceId, preferredLanguage, stream);
      var marked := MarkStalls(EpisodeAt(store[category][showId], seasonId, episodeId).sources, badSourceId);
      var n := |r.requested|;
      r.result.Success? ==>
        (r.result.value.1 in marked && r.result.value.1.sourcesFetched) ||
        (n > 0 && FirstAnswer(stream(n - 1), FetchAttempts).Some? &&
         TranslateSources(FirstAnswer(stream(n - 1), FetchAttempts).value, r.requested[n - 1]) == Success(r.result.value.1))
  {
    var sources := EpisodeAt(store[category][showId], seasonId, episodeId).sources;
    var marked := MarkStalls(sources, badSourceId);
    var responses := Responses(stream, |marked|);
    AnsweredIsLastRequested(marked, Recovering(badSourceId), preferredLanguage, responses);
    EndFromPool(marked, Recovering(badSourceId), preferredLanguage, responses);
  }
}
