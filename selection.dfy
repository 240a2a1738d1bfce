/**
 * The source-selection policy and the pure parts of source resolution:
 * stall marking, the predicate pipeline of `findIdealSource`, and the
 * do-while loop that tries candidates until a request is not answered with
 * status 404, stated as a function of the responses it receives.
 */
module Selection {
  import opened Wrappers
  import opened Domain

  // ---------------------------------------------------------------------
  // Stall marking
  // ---------------------------------------------------------------------

  /** A stall is marked only for an id that is present, not zero (zero is
      falsy in the guard) and names an existing slot. */
  predicate MarksStall(badSourceId: Option<int>, count: nat) {
    badSourceId.Some? && badSourceId.value != 0 && 0 <= badSourceId.value < count
  }

  /** `!!badSourceId`: the caller is recovering from a stall. */
  predicate Recovering(badSourceId: Option<int>) {
    badSourceId.Some? && badSourceId.value != 0
  }

  /** The stall step of `fetchSources`: flag the reported source as stalled,
      or, when no existing source is reported, clear the flag on all. */
  function MarkStalls(sources: seq<Source>, badSourceId: Option<int>): (r: seq<Source>)
    ensures |r| == |sources|
    ensures MarksStall(badSourceId, |sources|) ==>
      var k := badSourceId.value;
      r[k].stalled && r[k].(stalled := sources[k].stalled) == sources[k] &&
      forall i :: 0 <= i < |sources| && i != k ==> r[i] == sources[i]
    ensures !MarksStall(badSourceId, |sources|) ==>
      forall i :: 0 <= i < |sources| ==> !r[i].stalled && r[i].(stalled := sources[i].stalled) == sources[i]
  {
    if MarksStall(badSourceId, |sources|) then
      var k := badSourceId.value;
      sources[k := sources[k].(stalled := true)]
    else
      seq(|sources|, i requires 0 <= i < |sources| => sources[i].(stalled := false))
  }

  /** A reported id of 0 is indistinguishable from none: every flag is cleared. */
  lemma ZeroIdClears(sources: seq<Source>)
    ensures MarkStalls(sources, Some(0)) == MarkStalls(sources, None)
  {
  }

  // ---------------------------------------------------------------------
  // findIdealSource
  // ---------------------------------------------------------------------

  /** A source paired with its position in the list. */
  datatype Indexed = Indexed(source: Source, index: nat)

  function WithIndexes(sources: seq<Source>): (r: seq<Indexed>)
    ensures |r| == |sources|
    ensures forall i :: 0 <= i < |r| ==> r[i] == Indexed(sources[i], i)
  {
    seq(|sources|, i requires 0 <= i < |sources| => Indexed(sources[i], i))
  }

  /** A lodash `matches` matcher over one field of a source. */
  datatype Matcher = LanguageIs(language: string) | StalledIs(stalled: bool)

  /** `matcher(source)`: the field holds exactly the given value. */
  predicate Matches(matcher: Matcher, s: Source) {
    match matcher
    case LanguageIs(language) => s.language == language
    case StalledIs(stalled) => s.stalled == stalled
  }

  /** The entries of the pool whose source satisfies one matcher, in pool order. */
  function Keep(pool: seq<Indexed>, matcher: Matcher): seq<Indexed>
    decreases |pool|
  {
    if pool == [] then []
    else (if Matches(matcher, pool[0].source) then [pool[0]] else []) + Keep(pool[1..], matcher)
  }

  /** The pool filtered by each matcher of the chain in turn, first to last. */
  function Narrow(pool: seq<Indexed>, priority: seq<Matcher>): seq<Indexed>
    decreases |priority|
  {
    if priority == [] then pool else Narrow(Keep(pool, priority[0]), priority[1..])
  }

  /** The source passes every matcher of the chain. */
  predicate PassesAll(priority: seq<Matcher>, s: Source)
    decreases |priority|
  {
    priority == [] || (Matches(priority[0], s) && PassesAll(priority[1..], s))
  }

  /** The entries of the pool that pass every matcher, in pool order. */
  function KeepAll(pool: seq<Indexed>, priority: seq<Matcher>): seq<Indexed>
    decreases |pool|
  {
    if pool == [] then []
    else (if PassesAll(priority, pool[0].source) then [pool[0]] else []) + KeepAll(pool[1..], priority)
  }

  /** The chain of matchers: the preferred language, preceded by "not
      stalled" when recovering from a stall. */
  function Priority(recovering: bool, preferredLanguage: string): seq<Matcher> {
    if recovering then [StalledIs(false), LanguageIs(preferredLanguage)] else [LanguageIs(preferredLanguage)]
  }

  /** What the chain asks of a source, written out. */
  predicate Ideal(s: Source, recovering: bool, preferredLanguage: string) {
    (!recovering || !s.stalled) && s.language == preferredLanguage
  }

  /** The index and source `findIdealSource` returns; `source` is undefined
      only when the list is empty. */
  datatype Pick = Pick(index: nat, source: Option<Source>)

  /** `findIdealSource(sources, recoveringFromStall)`. */
  function FindIdealSource(sources: seq<Source>, recovering: bool, preferredLanguage: string): (r: Pick)
    ensures |sources| > 0 ==> r.index < |sources| && r.source == Some(sources[r.index])
    ensures |sources| == 0 ==> r == Pick(0, None)
  {
    var pool := Narrow(WithIndexes(sources), Priority(recovering, preferredLanguage));
    FindIdealSourceFacts(sources, recovering, preferredLanguage);
    if pool == [] then Pick(0, if |sources| > 0 then Some(sources[0]) else None)
    else Pick(pool[0].index, Some(pool[0].source))
  }

  /** The first entry of the narrowed pool: the smallest index whose source
      is ideal, or nothing when no source is. */
  lemma FindIdealSourceFacts(sources: seq<Source>, recovering: bool, preferredLanguage: string)
    ensures var pool := Narrow(WithIndexes(sources), Priority(recovering, preferredLanguage));
      (pool == [] <==> forall i :: 0 <= i < |sources| ==> !Ideal(sources[i], recovering, preferredLanguage)) &&
      (pool != [] ==> pool[0].index < |sources| && pool[0].source == sources[pool[0].index] &&
                      Ideal(sources[pool[0].index], recovering, preferredLanguage) &&
                      forall i :: 0 <= i < pool[0].index ==> !Ideal(sources[i], recovering, preferredLanguage))
  {
    var priority := Priority(recovering, preferredLanguage);
    var indexed := WithIndexes(sources);
    NarrowIsKeepAll(indexed, priority);
    forall s: Source ensures PassesAll(priority, s) == Ideal(s, recovering, preferredLanguage) {
      var last := [LanguageIs(preferredLanguage)];
      assert PassesAll(last, s) == (Matches(last[0], s) && PassesAll(last[1..], s));
      assert last[1..] == [];
      if recovering {
        assert priority[1..] == last;
      } else {
        assert priority == last;
      }
    }
    KeepAllFirst(indexed, priority);
  }

  lemma {:induction false} KeepThenKeepAll(pool: seq<Indexed>, priority: seq<Matcher>)
    requires priority != []
    ensures KeepAll(Keep(pool, priority[0]), priority[1..]) == KeepAll(pool, priority)
    decreases |pool|
  {
    if pool != [] {
      KeepThenKeepAll(pool[1..], priority);
      var kept := Keep(pool, priority[0]);
      if Matches(priority[0], pool[0].source) {
        assert kept == [pool[0]] + Keep(pool[1..], priority[0]);
        assert kept[1..] == Keep(pool[1..], priority[0]);
        assert KeepAll(kept, priority[1..]) ==
               (if PassesAll(priority[1..], pool[0].source) then [pool[0]] else []) + KeepAll(kept[1..], priority[1..]);
      } else {
        assert kept == Keep(pool[1..], priority[0]);
      }
    }
  }

  /** The pipeline of filters is one filter by the conjunction of the chain. */
  lemma {:induction false} NarrowIsKeepAll(pool: seq<Indexed>, priority: seq<Matcher>)
    ensures Narrow(pool, priority) == KeepAll(pool, priority)
    decreases |priority|
  {
    if priority == [] {
      KeepAllEverything(pool, priority);
    } else {
      NarrowIsKeepAll(Keep(pool, priority[0]), priority[1..]);
      KeepThenKeepAll(pool, priority);
    }
  }

  lemma {:induction false} KeepAllEverything(pool: seq<Indexed>, priority: seq<Matcher>)
    requires priority == []
    ensures KeepAll(pool, priority) == pool
    decreases |pool|
  {
    if pool != [] {
      KeepAllEverything(pool[1..], priority);
    }
  }

  /** The first entry kept is the first entry of the pool that passes. */
  lemma {:induction false} KeepAllFirst(pool: seq<Indexed>, priority: seq<Matcher>)
    ensures KeepAll(pool, priority) == [] <==> forall j :: 0 <= j < |pool| ==> !PassesAll(priority, pool[j].source)
    ensures KeepAll(pool, priority) != [] ==>
      exists j :: 0 <= j < |pool| && KeepAll(pool, priority)[0] == pool[j] && PassesAll(priority, pool[j].source) &&
                  forall i :: 0 <= i < j ==> !PassesAll(priority, pool[i].source)
    decreases |pool|
  {
    if pool != [] {
      KeepAllFirst(pool[1..], priority);
      if !PassesAll(priority, pool[0].source) && KeepAll(pool[1..], priority) != [] {
        var j :| 0 <= j < |pool[1..]| && KeepAll(pool[1..], priority)[0] == pool[1..][j] &&
                 PassesAll(priority, pool[1..][j].source) && forall i :: 0 <= i < j ==> !PassesAll(priority, pool[1..][i].source);
        assert forall i :: 1 <= i < j + 1 ==> pool[i] == pool[1..][i - 1];
      }
      assert forall j :: 1 <= j < |pool| ==> pool[j] == pool[1..][j - 1];
    }
  }

  /** `findIdealSource` picks the smallest index whose source passes the
      chain (not stalled when recovering, and in the preferred language); when
      none does it falls back to index 0 and `sources[0]`. */
  lemma FindIdealSourceSpec(sources: seq<Source>, recovering: bool, preferredLanguage: string)
    ensures var r := FindIdealSource(sources, recovering, preferredLanguage);
      ((exists i :: 0 <= i < |sources| && Ideal(sources[i], recovering, preferredLanguage)) ==>
         r.index < |sources| && Ideal(sources[r.index], recovering, preferredLanguage) &&
         forall i :: 0 <= i < r.index ==> !Ideal(sources[i], recovering, preferredLanguage)) &&
      ((forall i :: 0 <= i < |sources| ==> !Ideal(sources[i], recovering, preferredLanguage)) ==>
         r.index == 0 && r.source == (if |sources| > 0 then Some(sources[0]) else None))
  {
    FindIdealSourceFacts(sources, recovering, preferredLanguage);
  }

  const SubsSource := Source(0, "A", "subs", Some("a"), None, None, false, false)
  const DubsSource := Source(1, "B", "dubs", Some("b"), None, None, false, false)

  /** With sources "subs", "dubs" and preference "dubs" the pick is index 1;
      with preference "raw" nothing matches and the pick falls back to 0. */
  lemma PreferredLanguageExamples()
    ensures FindIdealSource([SubsSource, DubsSource], false, "dubs").index == 1
    ensures FindIdealSource([SubsSource, DubsSource], false, "raw") == Pick(0, Some(SubsSource))
  {
    assert Ideal([SubsSource, DubsSource][1], false, "dubs");
    FindIdealSourceSpec([SubsSource, DubsSource], false, "dubs");
    FindIdealSourceSpec([SubsSource, DubsSource], false, "raw");
  }

  /** Recovering from a stall skips a stalled source that matches the
      language; but when no unstalled source matches, the fallback is index 0
      even though that source is stalled. */
  lemma StallRecoveryExamples()
    ensures FindIdealSource([DubsSource.(stalled := true), DubsSource.(id := 1)], true, "dubs").index == 1
    ensures FindIdealSource([DubsSource.(stalled := true), SubsSource.(id := 1)], true, "dubs") ==
            Pick(0, Some(DubsSource.(stalled := true)))
  {
    assert Ideal([DubsSource.(stalled := true), DubsSource.(id := 1)][1], true, "dubs");
    FindIdealSourceSpec([DubsSource.(stalled := true), DubsSource.(id := 1)], true, "dubs");
    FindIdealSourceSpec([DubsSource.(stalled := true), SubsSource.(id := 1)], true, "dubs");
  }

  // ---------------------------------------------------------------------
  // The resolution loop
  // ---------------------------------------------------------------------

  /** The position of the first ideal source, or `|pool|` when none is. */
  function FirstIdeal(pool: seq<Source>, recovering: bool, preferredLanguage: string): (i: nat)
    ensures i <= |pool|
    decreases |pool|
  {
    if pool == [] then 0
    else if Ideal(pool[0], recovering, preferredLanguage) then 0
    else 1 + FirstIdeal(pool[1..], recovering, preferredLanguage)
  }

  /** The index `findIdealSource` selects, for a non-empty pool. */
  function Selected(pool: seq<Source>, recovering: bool, preferredLanguage: string): (i: nat)
    requires pool != []
    ensures i < |pool|
  {
    var found := FirstIdeal(pool, recovering, preferredLanguage);
    if found < |pool| then found else 0
  }

  lemma {:induction false} FirstIdealFacts(pool: seq<Source>, recovering: bool, preferredLanguage: string)
    ensures var i := FirstIdeal(pool, recovering, preferredLanguage);
      (forall j :: 0 <= j < i ==> !Ideal(pool[j], recovering, preferredLanguage)) &&
      (i < |pool| ==> Ideal(pool[i], recovering, preferredLanguage))
    decreases |pool|
  {
    if pool != [] && !Ideal(pool[0], recovering, preferredLanguage) {
      FirstIdealFacts(pool[1..], recovering, preferredLanguage);
      assert forall j :: 1 <= j < |pool| ==> pool[j] == pool[1..][j - 1];
    }
  }

  /** The loop's selection is exactly the index `findIdealSource` returns. */
  lemma SelectedIsFindIdealSource(pool: seq<Source>, recovering: bool, preferredLanguage: string)
    requires pool != []
    ensures Selected(pool, recovering, preferredLanguage) == FindIdealSource(pool, recovering, preferredLanguage).index
  {
    FirstIdealFacts(pool, recovering, preferredLanguage);
    FindIdealSourceSpec(pool, recovering, preferredLanguage);
    var r := FindIdealSource(pool, recovering, preferredLanguage);
    var i := FirstIdeal(pool, recovering, preferredLanguage);
    if i < |pool| {
      var picked, firstIdeal := pool[r.index], pool[i];
      assert r.index < i ==> !Ideal(picked, recovering, preferredLanguage);
      assert r.index > i ==> !Ideal(firstIdeal, recovering, preferredLanguage);
    }
  }

  /** The list without the element at `index`, the rest in order. */
  function RemoveAt(s: seq<Source>, index: nat): (r: seq<Source>)
    requires index < |s|
    ensures |r| == |s| - 1
    ensures forall i :: 0 <= i < |r| ==> r[i] == if i < index then s[i] else s[i + 1]
  {
    s[..index] + s[index + 1..]
  }

  /** How the do-while loop ends. */
  datatype LoopEnd =
    | EmptyPool                         // the pool was empty at the first selection
    | Memoized(source: Source)          // the selected source was already resolved
    | Unanswered                        // fetch_retry gave up on the last request
    | Answered(chosen: Source, response: StreamResponse)  // a non-404 body, or the pool ran dry

  /** The candidates requested, in order, and how the loop ended. */
  datatype Trace = Trace(requested: seq<Source>, end: LoopEnd)

  /** The do-while loop of `fetchSources` over the working copy `pool`:
      `responses[k]` is what the k-th stream request returned (None when
      fetch_retry gave up; a request past the end of the list is treated the
      same way). */
  function RunLoop(pool: seq<Source>, recovering: bool, preferredLanguage: string,
                   responses: seq<Option<StreamResponse>>): (t: Trace)
    decreases |pool|
    ensures |t.requested| <= |pool|
  {
    if pool == [] then Trace([], EmptyPool)
    else
      var index := Selected(pool, recovering, preferredLanguage);
      var chosen := pool[index];
      if chosen.sourcesFetched then Trace([], Memoized(chosen))
      else if responses == [] || responses[0].None? then Trace([chosen], Unanswered)
      else if responses[0].value.status == NotFound && |pool| > 1 then
        var t := RunLoop(RemoveAt(pool, index), recovering, preferredLanguage, responses[1..]);
        Trace([chosen] + t.requested, t.end)
      else
        Trace([chosen], Answered(chosen, responses[0].value))
  }

  /** One turn of the loop after a 404 from an unresolved candidate while
      other candidates remain: the candidate is requested, dropped from the
      working copy, and the loop goes on with the next response. */
  lemma NotFoundStep(pool: seq<Source>, recovering: bool, preferredLanguage: string,
                     responses: seq<Option<StreamResponse>>)
    requires |pool| > 1 && |responses| > 0 && responses[0].Some? && responses[0].value.status == NotFound
    requires !pool[Selected(pool, recovering, preferredLanguage)].sourcesFetched
    ensures var index := Selected(pool, recovering, preferredLanguage);
      var later := RunLoop(RemoveAt(pool, index), recovering, preferredLanguage, responses[1..]);
      RunLoop(pool, recovering, preferredLanguage, responses) == Trace([pool[index]] + later.requested, later.end)
  {
  }

  /** One turn of the loop, case by case: a resolved selection ends it
      with no request; otherwise the selection is requested, and the loop
      ends unless the answer is a 404 with other candidates left. */
  lemma Turn(pool: seq<Source>, recovering: bool, preferredLanguage: string, responses: seq<Option<StreamResponse>>)
    requires pool != []
    ensures var chosen := pool[Selected(pool, recovering, preferredLanguage)];
      var t := RunLoop(pool, recovering, preferredLanguage, responses);
      (chosen.sourcesFetched ==> t == Trace([], Memoized(chosen))) &&
      (!chosen.sourcesFetched && (responses == [] || responses[0].None?) ==> t == Trace([chosen], Unanswered)) &&
      (!chosen.sourcesFetched && responses != [] && responses[0].Some? &&
       !(responses[0].value.status == NotFound && |pool| > 1) ==>
         t == Trace([chosen], Answered(chosen, responses[0].value)))
  {
  }

  /** The loop's trace seen from the k-th response: when the turn at the
      k-th response requests `chosen` and goes on with `rest`, the
      candidate joins the requests made so far and the loop goes on from
      the next response. */
  lemma Extend(whole: Trace, done: seq<Source>, chosen: Source, rest: seq<Source>, recovering: bool,
               preferredLanguage: string, responses: seq<Option<StreamResponse>>, k: nat)
    requires k < |responses|
    requires var later := RunLoop(rest, recovering, preferredLanguage, responses[k..][1..]);
      whole == Trace(done + ([chosen] + later.requested), later.end)
    ensures var later := RunLoop(rest, recovering, preferredLanguage, responses[k + 1..]);
      whole == Trace((done + [chosen]) + later.requested, later.end)
  {
    assert responses[k..][1..] == responses[k + 1..];
  }

  /** Every candidate requested comes from the pool, and none more
      often than it occurs there. */
  lemma {:induction false} RequestedFromPool(pool: seq<Source>, recovering: bool, preferredLanguage: string,
                                             responses: seq<Option<StreamResponse>>)
    ensures multiset(RunLoop(pool, recovering, preferredLanguage, responses).requested) <= multiset(pool)
    decreases |pool|
  {
    if pool != [] {
      var index := Selected(pool, recovering, preferredLanguage);
      if !pool[index].sourcesFetched && responses != [] && responses[0].Some? &&
         responses[0].value.status == NotFound && |pool| > 1 {
        var rest := RemoveAt(pool, index);
        RequestedFromPool(rest, recovering, preferredLanguage, responses[1..]);
        NotFoundStep(pool, recovering, preferredLanguage, responses);
        RemovedThenRequested(pool, index, RunLoop(rest, recovering, preferredLanguage, responses[1..]).requested);
      }
    }
  }

  lemma RemovedThenRequested(pool: seq<Source>, index: nat, later: seq<Source>)
    requires index < |pool| && multiset(later) <= multiset(RemoveAt(pool, index))
    ensures multiset([pool[index]] + later) <= multiset(pool)
  {
    assert pool == pool[..index] + [pool[index]] + pool[index + 1..];
    assert RemoveAt(pool, index) == pool[..index] + pool[index + 1..];
  }

  /** A loop that ends with an answer requested that candidate last, and
      the answer is the response to its last request. */
  lemma {:induction false} AnsweredIsLastRequested(pool: seq<Source>, recovering: bool, preferredLanguage: string,
                                                   responses: seq<Option<StreamResponse>>)
    ensures var t := RunLoop(pool, recovering, preferredLanguage, responses);
      t.end.Answered? ==> |t.requested| > 0 && t.requested[|t.requested| - 1] == t.end.chosen &&
                          |t.requested| <= |responses| && responses[|t.requested| - 1] == Some(t.end.response)
    decreases |pool|
  {
    if pool != [] {
      var index := Selected(pool, recovering, preferredLanguage);
      if !pool[index].sourcesFetched && responses != [] && responses[0].Some? &&
         responses[0].value.status == NotFound && |pool| > 1 {
        var rest := RemoveAt(pool, index);
        var later := RunLoop(rest, recovering, preferredLanguage, responses[1..]);
        AnsweredIsLastRequested(rest, recovering, preferredLanguage, responses[1..]);
        NotFoundStep(pool, recovering, preferredLanguage, responses);
        if later.end.Answered? {
          var n := |later.requested|;
          assert ([pool[index]] + later.requested)[n] == later.requested[n - 1];
          assert responses[n] == responses[1..][n - 1];
        }
      }
    }
  }

  /** What survives a removal was in the pool. */
  lemma RemovedFromPool(pool: seq<Source>, index: nat, x: Source)
    requires index < |pool| && x in RemoveAt(pool, index)
    ensures x in pool
  {
    var i :| 0 <= i < |RemoveAt(pool, index)| && RemoveAt(pool, index)[i] == x;
    assert pool[if i < index then i else i + 1] == x;
  }

  /** The source the loop ends on comes from the pool: an already resolved
      one when it short-circuits, an unresolved one when it was answered. */
  lemma {:induction false} EndFromPool(pool: seq<Source>, recovering: bool, preferredLanguage: string,
                                       responses: seq<Option<StreamResponse>>)
    ensures var t := RunLoop(pool, recovering, preferredLanguage, responses);
      (t.end.Memoized? ==> t.end.source in pool && t.end.source.sourcesFetched) &&
      (t.end.Answered? ==> t.end.chosen in pool && !t.end.chosen.sourcesFetched)
    decreases |pool|
  {
    if pool != [] {
      var index := Selected(pool, recovering, preferredLanguage);
      var chosen := pool[index];
      if chosen.sourcesFetched {
        assert RunLoop(pool, recovering, preferredLanguage, responses).end == Memoized(chosen);
      } else if responses == [] || responses[0].None? {
      } else if responses[0].value.status == NotFound && |pool| > 1 {
        var rest := RemoveAt(pool, index);
        EndFromPool(rest, recovering, preferredLanguage, responses[1..]);
        NotFoundStep(pool, recovering, preferredLanguage, responses);
        var later := RunLoop(rest, recovering, preferredLanguage, responses[1..]).end;
        if later.Memoized? {
          RemovedFromPool(pool, index, later.source);
        } else if later.Answered? {
          RemovedFromPool(pool, index, later.chosen);
        }
      } else {
        assert RunLoop(pool, recovering, preferredLanguage, responses).end == Answered(chosen, responses[0].value);
      }
    }
  }

  /** Every response before the last one was a 404: the loop only goes on
      after "not found". */
  lemma {:induction false} ContinuesOnlyOnNotFound(pool: seq<Source>, recovering: bool, preferredLanguage: string,
                                                   responses: seq<Option<StreamResponse>>, k: nat)
    requires k + 1 < |RunLoop(pool, recovering, preferredLanguage, responses).requested|
    ensures k < |responses| && responses[k].Some? && responses[k].value.status == NotFound
    decreases |pool|
  {
    var index := Selected(pool, recovering, preferredLanguage);
    if k > 0 {
      NotFoundStep(pool, recovering, preferredLanguage, responses);
      ContinuesOnlyOnNotFound(RemoveAt(pool, index), recovering, preferredLanguage, responses[1..], k - 1);
      assert responses[k] == responses[1..][k - 1];
    }
  }

  /** When every candidate answers 404 and none is resolved yet, the loop
      requests each candidate once and stops with the last 404 body. */
  lemma {:induction false} AllNotFoundExhausts(pool: seq<Source>, recovering: bool, preferredLanguage: string,
                                               responses: seq<Option<StreamResponse>>)
    requires |pool| > 0 && |responses| >= |pool|
    requires forall i :: 0 <= i < |pool| ==> !pool[i].sourcesFetched
    requires forall k :: 0 <= k < |responses| ==> responses[k].Some? && responses[k].value.status == NotFound
    ensures var t := RunLoop(pool, recovering, preferredLanguage, responses);
      |t.requested| == |pool| && t.end.Answered? && t.end.response.status == NotFound
    decreases |pool|
  {
    var index := Selected(pool, recovering, preferredLanguage);
    var rest := RemoveAt(pool, index);
    if |rest| > 0 {
      NotFoundStep(pool, recovering, preferredLanguage, responses);
      AllNotFoundExhausts(rest, recovering, preferredLanguage, responses[1..]);
    }
  }

  /** Three unresolved candidates in the preferred language and the answers
      404, 404, 200: the third request resolves, after the first two
      candidates were dropped from the working copy. */
  lemma ThirdAttemptResolves(a: Source, b: Source, c: Source, found: StreamResponse, missing: StreamResponse)
    requires a.language == b.language == c.language == "dubs"
    requires !a.sourcesFetched && !b.sourcesFetched && !c.sourcesFetched
    requires missing.status == NotFound && found.status == 200
    ensures RunLoop([a, b, c], false, "dubs", [Some(missing), Some(missing), Some(found)]) ==
            Trace([a, b, c], Answered(c, found))
  {
    var rs := [Some(missing), Some(missing), Some(found)];
    assert Selected([a, b, c], false, "dubs") == 0;
    assert RemoveAt([a, b, c], 0) == [b, c];
    NotFoundStep([a, b, c], false, "dubs", rs);
    assert Selected([b, c], false, "dubs") == 0;
    assert RemoveAt([b, c], 0) == [c];
    assert rs[1..][1..] == [Some(found)];
    NotFoundStep([b, c], false, "dubs", rs[1..]);
    assert Selected([c], false, "dubs") == 0;
  }
}
