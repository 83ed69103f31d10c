/** A search over a partitioned index, from the snapshot to the page. */
module PartitionedSearch {
  import opened Sorting
  import opened Outcomes
  import opened Gathering
  import opened Topology
  import opened Placement
  import opened Selection
  import opened Routes
  import opened ReadProtocol
  import opened SearchMerge

  const MAX_PARTITION_WINDOW: nat := 10_000

  /** What happened in a read: the replies of the statistics round, the route
      the search round asked, and its replies. */
  datatype ReadRun<+S, +T> = ReadRun(
    stats: Option<seq<Reply<Option<S>>>>, asked: Option<Route>, replies: Option<seq<Reply<T>>>)

  /** The search asked exactly the targets that supplied statistics, if any were
      wanted, and every partition is still a target or missing. */
  ghost predicate IsAsked<S, T>(run: ReadRun<S, T>, wantStats: bool, route: Route, partitions: seq<string>) {
    && run.asked.Some? && Covers(run.asked.value, partitions) && run.stats.Some? == wantStats
    && (!wantStats ==> run.asked.value == route)
    && (wantStats ==>
          && |run.stats.value| == |route.Targets()|
          && run.asked.value.Targets() == AnsweredBy(route.Targets(), run.stats.value)
          && forall i :: 0 <= i < |run.stats.value| ==> run.stats.value[i] != Answer(None))
  }

  /** The statistics round gathered what the environment offered it. */
  ghost predicate StatsRan<S, T>(run: ReadRun<S, T>, wantStats: bool, partial: bool, straggler: Option<nat>,
                                 route: Route, history: seq<Completion<Reply<Option<S>>>>)
  {
    run.stats.Some? ==> wantStats && RoundReplies(partial, straggler, route, history, run.stats.value)
  }

  /** The search round gathered what the environment offered the asked route. */
  ghost predicate SearchRan<S, T>(run: ReadRun<S, T>, partial: bool, straggler: Option<nat>,
                                  history: (Route, nat) -> seq<Completion<Reply<T>>>, size: nat)
  {
    run.replies.Some? ==>
      run.asked.Some?
      && RoundReplies(partial, straggler, run.asked.value, history(run.asked.value, size), run.replies.value)
  }

  ghost predicate IsRun<S, T>(run: ReadRun<S, T>, wantStats: bool, partial: bool, straggler: Option<nat>, route: Route,
                              partitions: seq<string>, statsHistory: seq<Completion<Reply<Option<S>>>>,
                              searchHistory: (Route, nat) -> seq<Completion<Reply<T>>>, size: nat)
  {
    && StatsRan(run, wantStats, partial, straggler, route, statsHistory)
    && (run.asked.Some? ==> IsAsked(run, wantStats, route, partitions))
    && SearchRan(run, partial, straggler, searchHistory, size)
  }

  /** The statistics round ended the read. */
  ghost predicate StatsStopped<S, T>(run: ReadRun<S, T>, partial: bool, route: Route, code: Code) {
    run.stats.Some? && run.asked.None? && StatsFail(partial, route, run.stats.value, code)
  }

  /** The search round ended the read. */
  ghost predicate SearchStopped<S, T>(run: ReadRun<S, T>, partial: bool, code: Code) {
    run.asked.Some? && run.replies.Some? && RoundFails(partial, run.asked.value, run.replies.value, code)
  }

  ghost predicate Searched<S, T>(run: ReadRun<S, T>) {
    run.asked.Some? && run.replies.Some? && |run.replies.value| == |run.asked.value.Targets()|
  }

  ghost function Answered<S, T>(run: ReadRun<S, T>): seq<Target>
    requires Searched(run)
  {
    AnsweredBy(run.asked.value.Targets(), run.replies.value)
  }

  ghost function Responses<S, T>(run: ReadRun<S, T>): seq<T>
    requires Searched(run)
  {
    Answers(run.replies.value)
  }

  ghost function MissingAfter<S, T>(run: ReadRun<S, T>): seq<string>
    requires Searched(run)
  {
    run.asked.value.Missing() + LostBy(run.asked.value.Targets(), run.replies.value)
  }

  /** Every partition is counted exactly once as answered or missing, and at
      least one answered, each with one response. */
  ghost predicate Accounted<S, T>(run: ReadRun<S, T>, partitions: seq<string>, missingPartitions: nat) {
    && Searched(run)
    && multiset(ShardsOf(Answered(run))) + multiset(MissingAfter(run)) == multiset(partitions)
    && Answered(run) != [] && |Answered(run)| == |Responses(run)| && |MissingAfter(run)| == missingPartitions
    && |Responses(run)| + missingPartitions == |partitions|
  }

  lemma {:induction false} RoundAccounted<S, T>(run: ReadRun<S, T>, partial: bool, partitions: seq<string>,
                                                r: Result<(seq<T>, seq<string>)>)
    requires Searched(run) && Covers(run.asked.value, partitions)
    requires RoundResult(partial, run.asked.value, run.replies.value, r) && r.Ok?
    ensures Accounted(run, partitions, |MissingAfter(run)|)
    ensures r.value.0 == Responses(run) && run.asked.value.Missing() + r.value.1 == MissingAfter(run)
  {
    RoundNarrows(partial, run.asked.value, run.replies.value, r, partitions);
    var next := run.asked.value.Without(r.value.1);
    assert |multiset(partitions)| == |multiset(ShardsOf(next.Targets()))| + |multiset(next.Missing())|;
  }

  // ---- the pointwise search ----

  datatype PartialResponse = PartialResponse(response: SearchResponse, missingPartitions: nat)

  /** Why the answers cannot be merged. */
  ghost predicate MergeFails(responses: seq<SearchResponse>, expected: Option<RankingMethod>, offset: nat, limit: nat,
                             code: Code)
  {
    || (code == FailedPrecondition && (Unexpected(responses, expected) || !OneMethod(responses)))
    || (code == InvalidArgument && OneMethod(responses) && FirstRanking(responses).IsExport()
        && (offset != 0 || |Concat(Rankings(responses))| > limit))
  }

  predicate Unexpected(responses: seq<SearchResponse>, expected: Option<RankingMethod>) {
    expected.Some? && exists i :: 0 <= i < |responses| && responses[i].ranking != expected.value
  }

  /** The page of the answers, with every partition accounted for. */
  ghost predicate PageOf<S>(r: PartialResponse, run: ReadRun<S, SearchResponse>, partitions: seq<string>, offset: nat,
                            limit: nat)
  {
    && Accounted(run, partitions, r.missingPartitions)
    && r.response.hits == Page(StableSort(Concat(Rankings(Responses(run))), HitLe), offset, limit)
  }

  /** What a pointwise search over a route returns after a run. */
  ghost predicate PointwiseOutcome<S>(
    r: Result<PartialResponse>, run: ReadRun<S, SearchResponse>, expected: Option<RankingMethod>, partial: bool,
    route: Route, partitions: seq<string>, offset: nat, limit: nat)
  {
    match r
    case Err(code) =>
      || StatsStopped(run, partial, route, code) || SearchStopped(run, partial, code)
      || (Searched(run) && MergeFails(Responses(run), expected, offset, limit, code))
    case Ok(page) =>
      && PageOf(page, run, partitions, offset, limit) && !Unexpected(Responses(run), expected)
      && (!partial ==> page.missingPartitions == |route.Missing()|)
  }

  /** Search every partition of a route. The page is the page of all answers;
      the read fails only if its window is too large, a round failed, or the
      answers cannot be merged. `searchHistory` gets the widened window every
      partition is asked for. */
  method SearchPartitioned<S(!new)>(
    offset: nat, limit: nat, expected: Option<RankingMethod>, wantStats: bool, partial: bool, straggler: Option<nat>,
    route: Route, statsHistory: seq<Completion<Reply<Option<S>>>>,
    searchHistory: (Route, nat) -> seq<Completion<Reply<SearchResponse>>>, ghost partitions: seq<string>)
    returns (r: Result<PartialResponse>, ghost run: ReadRun<S, SearchResponse>)
    requires Covers(route, partitions) && RoundHistory(partial, straggler, route, statsHistory)
    requires forall rt, n :: RoundHistory(partial, straggler, rt, searchHistory(rt, n))
    ensures IsRun(run, wantStats, partial, straggler, route, partitions, statsHistory, searchHistory, offset + limit)
    ensures offset + limit > MAX_PARTITION_WINDOW ==> r == Err(InvalidArgument)
    ensures offset + limit <= MAX_PARTITION_WINDOW ==>
              PointwiseOutcome(r, run, expected, partial, route, partitions, offset, limit)
  {
    var window := offset + limit;
    if window > MAX_PARTITION_WINDOW {
      r, run := Err(InvalidArgument), ReadRun(None, None, None);
    } else {
      r, run := SearchWindow(offset, limit, expected, wantStats, partial, straggler, route, statsHistory,
                             searchHistory, partitions);
    }
  }

  /** Both rounds, for a window that fits. */
  method SearchWindow<S(!new)>(
    offset: nat, limit: nat, expected: Option<RankingMethod>, wantStats: bool, partial: bool, straggler: Option<nat>,
    route: Route, statsHistory: seq<Completion<Reply<Option<S>>>>,
    searchHistory: (Route, nat) -> seq<Completion<Reply<SearchResponse>>>, ghost partitions: seq<string>)
    returns (r: Result<PartialResponse>, ghost run: ReadRun<S, SearchResponse>)
    requires Covers(route, partitions) && RoundHistory(partial, straggler, route, statsHistory)
    requires forall rt, n :: RoundHistory(partial, straggler, rt, searchHistory(rt, n))
    ensures IsRun(run, wantStats, partial, straggler, route, partitions, statsHistory, searchHistory, offset + limit)
    ensures PointwiseOutcome(r, run, expected, partial, route, partitions, offset, limit)
  {
    var narrowed;
    narrowed, run := Narrow<S, SearchResponse>(wantStats, partial, straggler, route, statsHistory, partitions);
    if narrowed.Err? {
      r := Err(narrowed.code);
    } else {
      ghost var replies;
      r, replies := SearchAsked(offset, limit, expected, partial, straggler, narrowed.value,
                                searchHistory(narrowed.value, offset + limit), partitions, run, route);
      run := run.(replies := Some(replies));
    }
  }

  /** What the statistics round leaves. */
  ghost predicate NarrowOutcome<S, T>(r: Result<Route>, run: ReadRun<S, T>, wantStats: bool, partial: bool,
                                      route: Route, partitions: seq<string>)
  {
    match r
    case Err(code) => StatsStopped(run, partial, route, code)
    case Ok(asked) =>
      && run.asked == Some(asked) && IsAsked(run, wantStats, route, partitions)
      && |asked.Targets()| <= |route.Targets()| && (!partial ==> asked == route)
  }

  /** The statistics round, and the route it leaves for the search round. */
  method Narrow<S(!new), T>(wantStats: bool, partial: bool, straggler: Option<nat>, route: Route,
                            history: seq<Completion<Reply<Option<S>>>>, ghost partitions: seq<string>)
    returns (r: Result<Route>, ghost run: ReadRun<S, T>)
    requires Covers(route, partitions) && RoundHistory(partial, straggler, route, history)
    ensures run.replies.None? && StatsRan(run, wantStats, partial, straggler, route, history)
    ensures NarrowOutcome(r, run, wantStats, partial, route, partitions)
  {
    var attached;
    ghost var stats;
    attached, stats := AttachTextStats(wantStats, partial, straggler, route, history, partitions);
    run := ReadRun(if wantStats then Some(stats) else None,
                   if attached.Ok? then Some(attached.value.0) else None, None);
    if attached.Ok? && wantStats { StatsPresent(stats); }
    r := if attached.Ok? then Ok(attached.value.0) else Err(attached.code);
  }

  /** The search round over the asked route, and the merge of its answers. */
  method SearchAsked<S(!new)>(
    offset: nat, limit: nat, expected: Option<RankingMethod>, partial: bool, straggler: Option<nat>, asked: Route,
    history: seq<Completion<Reply<SearchResponse>>>, ghost partitions: seq<string>,
    ghost run: ReadRun<S, SearchResponse>, ghost route: Route)
    returns (r: Result<PartialResponse>, ghost replies: seq<Reply<SearchResponse>>)
    requires run.asked == Some(asked) && Covers(asked, partitions) && RoundHistory(partial, straggler, asked, history)
    requires !partial ==> asked == route
    ensures RoundReplies(partial, straggler, asked, history, replies)
    ensures PointwiseOutcome(r, run.(replies := Some(replies)), expected, partial, route, partitions, offset, limit)
  {
    var round;
    round, replies := ForwardRead(partial, straggler, asked, history);
    if round.Err? {
      r := Err(round.code);
    } else {
      RoundAccounted(run.(replies := Some(replies)), partial, partitions, round);
      var (answers, lost) := round.value;
      var missing := asked.Missing() + lost;
      if !partial && lost != [] { SomeLost(asked.Targets(), replies); }
      if Unexpected(answers, expected) {
        r := Err(FailedPrecondition);
      } else {
        var merged := MergeSearchResponses(answers, offset, limit);
        r := if merged.Err? then Err(merged.code) else Ok(PartialResponse(merged.value, |missing|));
      }
    }
  }

  lemma {:induction false} StatsPresent<S>(replies: seq<Reply<Option<S>>>)
    requires forall k :: 0 <= k < |Answers(replies)| ==> Answers(replies)[k].Some?
    ensures forall i :: 0 <= i < |replies| ==> replies[i] != Answer(None)
  {
    if replies != [] {
      var n := |replies| - 1;
      var front := Answers(replies[..n]);
      assert forall k :: 0 <= k < |front| ==> front[k] == Answers(replies)[k];
      StatsPresent(replies[..n]);
      assert replies[n] == Answer(None) ==> Answers(replies)[|front|] == None;
    }
  }

  // ---- a partitioned index looks like one index ----

  /** The hits the targets' shards hold, in target order. */
  function Corpora(targets: seq<Target>, corpus: string -> seq<Hit>): (r: seq<seq<Hit>>)
    ensures |r| == |targets| && forall i :: 0 <= i < |targets| ==> r[i] == corpus(targets[i].shard)
  {
    seq(|targets|, i requires 0 <= i < |targets| => corpus(targets[i].shard))
  }

  /** Every answer is the first hits of the shard's own ranking. */
  ghost predicate Honest(targets: seq<Target>, replies: seq<Reply<SearchResponse>>, corpus: string -> seq<Hit>,
                         window: nat)
  {
    && |targets| == |replies|
    && forall i :: 0 <= i < |replies| && replies[i].Answer? ==>
         replies[i].value.hits == Take(StableSort(corpus(targets[i].shard), HitLe), window)
  }

  lemma {:induction false} HonestAnswers(targets: seq<Target>, replies: seq<Reply<SearchResponse>>,
                                         corpus: string -> seq<Hit>, window: nat)
    requires Honest(targets, replies, corpus, window)
    ensures Rankings(Answers(replies)) == Cut(Ranked(Corpora(AnsweredBy(targets, replies), corpus)), window)
  {
    if replies != [] {
      var n := |replies| - 1;
      HonestAnswers(targets[..n], replies[..n], corpus, window);
      LastReply(targets, replies);
      if replies[n].Answer? {
        var front := AnsweredBy(targets[..n], replies[..n]);
        assert Rankings(Answers(replies)) == Rankings(Answers(replies[..n])) + [replies[n].value.hits];
        assert Cut(Ranked(Corpora(front + [targets[n]], corpus)), window)
            == Cut(Ranked(Corpora(front, corpus)), window) + [replies[n].value.hits];
      }
    }
  }

  /** If the answers are honest, the page is the page of one index holding
      everything the answering partitions hold. */
  lemma {:induction false} OneIndexPage<S>(r: PartialResponse, run: ReadRun<S, SearchResponse>, partitions: seq<string>,
                                           offset: nat, limit: nat, corpus: string -> seq<Hit>)
    requires PageOf(r, run, partitions, offset, limit)
    requires Honest(run.asked.value.Targets(), run.replies.value, corpus, offset + limit)
    ensures r.response.hits == Page(StableSort(Concat(Corpora(Answered(run), corpus)), HitLe), offset, limit)
  {
    HonestAnswers(run.asked.value.Targets(), run.replies.value, corpus, offset + limit);
    PartitionedLooksLikeOneIndex(Corpora(Answered(run), corpus), offset, limit);
  }

  /** Too many partitions are missing for a read. */
  predicate Unreadable(index: IndexRoute, partial: bool) {
    if partial then ReadableIn(index.shards, index.ruled) == [] else MissingIn(index.shards, index.ruled) != []
  }

  function SingleResult(reply: Reply<SearchResponse>, expected: Option<RankingMethod>): Result<PartialResponse> {
    match reply
    case Refused(code) => Err(code)
    case Answer(response) =>
      if Unexpected([response], expected) then Err(FailedPrecondition) else Ok(PartialResponse(response, 0))
  }

  /** A search that the broker does not rank itself, from the snapshot to the
      page. A partitioned index counts each of its partitions once and, if its
      shards answer honestly, looks like one index over those that answered. */
  method SearchIndex<S(!new)>(
    snap: Snapshot, ghost placement: PlacementRules, index: string, rotation: nat, offset: nat, limit: nat,
    expected: Option<RankingMethod>, wantStats: bool, partial: bool, straggler: Option<nat>,
    single: Target -> Reply<SearchResponse>, statsHistory: Route -> seq<Completion<Reply<Option<S>>>>,
    searchHistory: (Route, nat) -> seq<Completion<Reply<SearchResponse>>>, ghost corpus: string -> seq<Hit>)
    returns (r: Result<PartialResponse>, ghost route: Option<Route>, ghost run: ReadRun<S, SearchResponse>)
    requires WellAssembled(snap, placement) && (index in snap.indexes ==> NoRepeats(snap.indexes[index].ruled))
    requires forall rt :: RoundHistory(partial, straggler, rt, statsHistory(rt))
    requires forall rt, n :: RoundHistory(partial, straggler, rt, searchHistory(rt, n))
    ensures index !in snap.indexes ==> r == Err(NotFound)
    ensures index in snap.indexes && !snap.indexes[index].Partitioned() ==>
              exists target :: ServesTarget(snap, index, target) && r == SingleResult(single(target), expected)
    ensures index in snap.indexes && snap.indexes[index].Partitioned() ==>
              var ruled := snap.indexes[index].ruled;
              if Unreadable(snap.indexes[index], partial) then r == Err(Unavailable)
              else if offset + limit > MAX_PARTITION_WINDOW then r == Err(InvalidArgument)
              else
                && route.Some? && ReadResolved(snap, index, ruled, Ok(route.value))
                && IsRun(run, wantStats, partial, straggler, route.value, ruled, statsHistory(route.value),
                         searchHistory, offset + limit)
                && PointwiseOutcome(r, run, expected, partial, route.value, ruled, offset, limit)
                && (r.Ok? && Honest(run.asked.value.Targets(), run.replies.value, corpus, offset + limit) ==>
                      r.value.response.hits
                      == Page(StableSort(Concat(Corpora(Answered(run), corpus)), HitLe), offset, limit))
  {
    run, route := ReadRun(None, None, None), None;
    var resolved := ReadRoute(snap, placement, index, partial, rotation);
    if resolved.Err? {
      r := Err(resolved.code);
    } else if resolved.value.Single? {
      r := SingleResult(single(resolved.value.target), expected);
    } else {
      route := Some(resolved.value);
      ReadRouteCovers(resolved.value, snap.indexes[index]);
      r, run := SearchPartitioned(offset, limit, expected, wantStats, partial, straggler, resolved.value,
                                  statsHistory(resolved.value), searchHistory, snap.indexes[index].ruled);
      if r.Ok? && Honest(run.asked.value.Targets(), run.replies.value, corpus, offset + limit) {
        OneIndexPage(r.value, run, snap.indexes[index].ruled, offset, limit, corpus);
      }
    }
  }
}
