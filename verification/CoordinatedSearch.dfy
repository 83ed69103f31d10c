/** Searches the broker ranks itself, from a plan that counts the shards it
    still expects to hear from. */
module CoordinatedSearch {
  import opened Outcomes
  import opened Gathering
  import opened Routes
  import opened ReadProtocol
  import opened SearchMerge
  import opened PartitionedSearch

  const MAX_WINDOW: nat := 10_000

  class CoordinatorPlan {
    const window: nat
    const maxTransfer: nat
    var shards: nat

    constructor (window: nat, shards: nat, maxTransfer: nat)
      ensures this.window == window && this.shards == shards && this.maxTransfer == maxTransfer
    {
      this.window, this.shards, this.maxTransfer := window, shards, maxTransfer;
    }

    /** Partitions that dropped out of a partial read: finish with the rest. */
    method LoseShards(lost: nat) returns (r: Result<()>)
      modifies this
      ensures r.Ok? <==> lost < old(shards)
      ensures r.Err? ==> r.code == Unavailable && shards == old(shards)
      ensures r.Ok? ==> shards == old(shards) - lost
    {
      if shards > lost {
        shards := shards - lost;
        r := Ok(());
      } else {
        r := Err(Unavailable);
      }
    }

    /** Ranking needs every shard it counts; `rank` stands for the validation
        and scoring of the complete responses. */
    method Finish(responses: seq<SearchResponse>, rank: seq<SearchResponse> -> Result<SearchResponse>)
      returns (r: Result<SearchResponse>)
      ensures r == if |responses| != shards then Err(FailedPrecondition) else rank(responses)
    {
      if |responses| != shards {
        return Err(FailedPrecondition);
      }
      r := rank(responses);
    }
  }

  function Window(offset: nat, limit: nat): nat {
    offset + if limit == 0 then 10 else limit
  }

  predicate PlanAllowed(offset: nat, limit: nat, shards: nat, maxTransfer: nat) {
    maxTransfer >= shards && maxTransfer > 0 && shards > 0 && Window(offset, limit) <= MAX_WINDOW
  }

  /** A zero limit means ten; the budget must allow a byte per shard. What else
      the request must satisfy is given as `wellFormed`. */
  method NewPlan(offset: nat, limit: nat, shards: nat, maxTransfer: nat, wellFormed: bool)
    returns (r: Result<CoordinatorPlan>)
    ensures r.Ok? <==> PlanAllowed(offset, limit, shards, maxTransfer) && wellFormed
    ensures r.Err? ==> r.code == InvalidArgument
    ensures r.Ok? ==> fresh(r.value) && r.value.shards == shards && r.value.maxTransfer == maxTransfer
                      && r.value.window == Window(offset, limit)
  {
    if maxTransfer < shards || maxTransfer == 0 {
      return Err(InvalidArgument);
    }
    var window := Window(offset, limit);
    if window > MAX_WINDOW || shards == 0 {
      return Err(InvalidArgument);
    }
    if !wellFormed {
      return Err(InvalidArgument);
    }
    var plan := new CoordinatorPlan(window, shards, maxTransfer);
    r := Ok(plan);
  }

  /** An even split of the transfer budget. */
  function DecodeLimit(maxTransfer: nat, shards: nat): (limit: nat)
    requires 0 < shards <= maxTransfer
    ensures limit >= 1 && limit * shards <= maxTransfer
  {
    assert maxTransfer == (maxTransfer / shards) * shards + maxTransfer % shards;
    maxTransfer / shards
  }

  // ---- the search ----

  datatype Worker = Finished | TimedOut | Crashed

  /** Whether the client's deadline still runs before the search round and
      before ranking, and how the ranking worker ends. */
  datatype Clock = Clock(searchInTime: bool, rankInTime: bool, worker: Worker)

  /** Why a search fails once all its responses are there. */
  ghost predicate RankingFails(responses: seq<SearchResponse>, clock: Clock,
                               rank: seq<SearchResponse> -> Result<SearchResponse>, code: Code)
  {
    if !clock.rankInTime then code == DeadlineExceeded
    else match clock.worker
      case TimedOut => code == DeadlineExceeded
      case Crashed => code == Internal
      case Finished => rank(responses) == Err(code)
  }

  /** Ranked in time, with every partition accounted for. */
  ghost predicate RankedOf<S>(r: PartialResponse, run: ReadRun<S, SearchResponse>, partitions: seq<string>,
                              clock: Clock, rank: seq<SearchResponse> -> Result<SearchResponse>)
  {
    && Accounted(run, partitions, r.missingPartitions) && rank(Responses(run)) == Ok(r.response)
    && clock.searchInTime && clock.rankInTime && clock.worker == Finished
  }

  /** A coordinated search. Every failure has one of the causes named here, so
      losing shards never exhausts the plan, and the plan always expects exactly
      the responses at hand. The decode limits of the asked shards are positive
      and fit the budget. */
  method SearchCoordinated<S(!new)>(
    offset: nat, limit: nat, maxTransfer: nat, wellFormed: bool, wantStats: bool, partial: bool, straggler: Option<nat>,
    route: Route, statsHistory: seq<Completion<Reply<Option<S>>>>,
    searchHistory: (Route, nat) -> seq<Completion<Reply<SearchResponse>>>, clock: Clock,
    rank: seq<SearchResponse> -> Result<SearchResponse>, ghost partitions: seq<string>)
    returns (r: Result<PartialResponse>, ghost run: ReadRun<S, SearchResponse>, ghost decodeLimit: nat)
    requires Covers(route, partitions) && RoundHistory(partial, straggler, route, statsHistory)
    requires forall rt, n :: RoundHistory(partial, straggler, rt, searchHistory(rt, n))
    ensures IsRun(run, wantStats, partial, straggler, route, partitions, statsHistory, searchHistory, decodeLimit)
    ensures run.replies.Some? ==> decodeLimit >= 1 && decodeLimit * |run.asked.value.Targets()| <= maxTransfer
    ensures !(PlanAllowed(offset, limit, |route.Targets()|, maxTransfer) && wellFormed) ==> r == Err(InvalidArgument)
    ensures PlanAllowed(offset, limit, |route.Targets()|, maxTransfer) && wellFormed && r.Err? ==>
              || StatsStopped(run, partial, route, r.code)
              || (run.asked.Some? && !clock.searchInTime && r.code == DeadlineExceeded)
              || SearchStopped(run, partial, r.code)
              || (Searched(run) && RankingFails(Responses(run), clock, rank, r.code))
    ensures r.Ok? ==> RankedOf(r.value, run, partitions, clock, rank)
  {
    run, decodeLimit := ReadRun(None, None, None), 0;
    var planned := |route.Targets()|;
    var created := NewPlan(offset, limit, planned, maxTransfer, wellFormed);
    if created.Err? {
      return Err(created.code), run, decodeLimit;
    }
    var plan := created.value;
    var narrowed;
    narrowed, run := Narrow<S, SearchResponse>(wantStats, partial, straggler, route, statsHistory, partitions);
    if narrowed.Err? {
      return Err(narrowed.code), run, decodeLimit;
    }
    var asked := narrowed.value;
    var kept := plan.LoseShards(planned - |asked.Targets()|);
    if kept.Err? {
      return Err(Unavailable), run, decodeLimit;
    }
    if !clock.searchInTime {
      return Err(DeadlineExceeded), run, decodeLimit;
    }
    var share := DecodeLimit(plan.maxTransfer, |asked.Targets()|);
    decodeLimit := share;
    ghost var replies;
    r, replies := RankAsked(plan, partial, straggler, asked, searchHistory(asked, share), clock, rank, partitions, run);
    run := run.(replies := Some(replies));
  }

  /** The search round and the ranking of its answers, on a plan that expects
      exactly the targets of the route. */
  method RankAsked<S(!new)>(
    plan: CoordinatorPlan, partial: bool, straggler: Option<nat>, route: Route,
    history: seq<Completion<Reply<SearchResponse>>>, clock: Clock,
    rank: seq<SearchResponse> -> Result<SearchResponse>, ghost partitions: seq<string>,
    ghost run: ReadRun<S, SearchResponse>)
    returns (r: Result<PartialResponse>, ghost replies: seq<Reply<SearchResponse>>)
    requires run.asked == Some(route) && Covers(route, partitions) && RoundHistory(partial, straggler, route, history)
    requires plan.shards == |route.Targets()| && clock.searchInTime
    modifies plan
    ensures RoundReplies(partial, straggler, route, history, replies)
    ensures var after := run.(replies := Some(replies));
            && (r.Err? ==> SearchStopped(after, partial, r.code) || RankingFails(Responses(after), clock, rank, r.code))
            && (r.Ok? ==> RankedOf(r.value, after, partitions, clock, rank))
  {
    var round;
    round, replies := ForwardRead(partial, straggler, route, history);
    if round.Err? {
      return Err(round.code), replies;
    }
    RoundAccounted(run.(replies := Some(replies)), partial, partitions, round);
    RepliesCount(route.Targets(), replies);
    var (answers, lost) := round.value;
    var kept := plan.LoseShards(|lost|);
    if kept.Err? {
      return Err(Unavailable), replies;
    }
    var missing := route.Missing() + lost;
    if !clock.rankInTime {
      return Err(DeadlineExceeded), replies;
    }
    match clock.worker {
      case TimedOut =>
        r := Err(DeadlineExceeded);
      case Crashed =>
        r := Err(Internal);
      case Finished =>
        var response := plan.Finish(answers, rank);
        r := if response.Err? then Err(response.code) else Ok(PartialResponse(response.value, |missing|));
    }
  }
}
