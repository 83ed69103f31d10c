/** A partitioned read over its rounds: an optional statistics round, then the
    search round, each fanned out to the remaining partitions.

    The environment is arbitrary: every round's calls complete, fail or straggle
    in any order and at any time. */
module ReadProtocol {
  import opened Sorting
  import opened Outcomes
  import opened Gathering
  import opened Routes

  datatype Reply<+T> = Answer(value: T) | Refused(code: Code)

  predicate IsAnswer<T>(reply: Reply<T>) {
    reply.Answer?
  }

  function Straggled<T>(i: nat): Reply<T> {
    Refused(Unavailable)
  }

  /** Whether a failed partition may be left out of a partial read. */
  predicate Droppable(partial: bool, route: Route, code: Code) {
    partial && route.Partitioned? && code == Unavailable
  }

  // ---- splitting a round's replies ----

  function Answers<T>(replies: seq<Reply<T>>): seq<T> {
    if replies == [] then []
    else
      Answers(replies[..|replies| - 1])
      + (if replies[|replies| - 1].Answer? then [replies[|replies| - 1].value] else [])
  }

  function AnsweredBy<T>(targets: seq<Target>, replies: seq<Reply<T>>): seq<Target>
    requires |targets| == |replies|
  {
    if replies == [] then []
    else
      var n := |replies| - 1;
      AnsweredBy(targets[..n], replies[..n]) + (if replies[n].Answer? then [targets[n]] else [])
  }

  function LostBy<T>(targets: seq<Target>, replies: seq<Reply<T>>): seq<string>
    requires |targets| == |replies|
  {
    if replies == [] then []
    else
      var n := |replies| - 1;
      LostBy(targets[..n], replies[..n]) + (if replies[n].Answer? then [] else [targets[n].shard])
  }

  /** The shards answered and lost are all of them, each once. */
  ghost predicate Splits(answered: seq<Target>, lost: seq<string>, targets: seq<Target>) {
    multiset(ShardsOf(answered)) + multiset(lost) == multiset(ShardsOf(targets))
  }

  lemma {:induction false} SplitOneMore(answered: seq<Target>, lost: seq<string>, targets: seq<Target>, target: Target)
    requires Splits(answered, lost, targets)
    ensures Splits(answered + [target], lost, targets + [target])
    ensures Splits(answered, lost + [target.shard], targets + [target])
  {
    ShardsOfAppend(answered, [target]);
    ShardsOfAppend(targets, [target]);
    OneMore(ShardsOf(answered), lost, ShardsOf(targets), target.shard);
  }

  /** Answered and lost together are the targets, each once. */
  lemma {:induction false} RepliesSplit<T>(targets: seq<Target>, replies: seq<Reply<T>>)
    requires |targets| == |replies|
    ensures Splits(AnsweredBy(targets, replies), LostBy(targets, replies), targets)
  {
    if replies != [] {
      var n := |replies| - 1;
      RepliesSplit(targets[..n], replies[..n]);
      SplitOneMore(AnsweredBy(targets[..n], replies[..n]), LostBy(targets[..n], replies[..n]), targets[..n],
                   targets[n]);
      assert targets == targets[..n] + [targets[n]];
      LastReply(targets, replies);
    }
  }

  lemma {:induction false} LastReply<T>(targets: seq<Target>, replies: seq<Reply<T>>)
    requires |targets| == |replies| > 0
    ensures var n := |replies| - 1;
            var answered, lost := AnsweredBy(targets[..n], replies[..n]), LostBy(targets[..n], replies[..n]);
            if replies[n].Answer? then
              AnsweredBy(targets, replies) == answered + [targets[n]] && LostBy(targets, replies) == lost
            else
              AnsweredBy(targets, replies) == answered && LostBy(targets, replies) == lost + [targets[n].shard]
  {
  }

  lemma {:induction false} RepliesCount<T>(targets: seq<Target>, replies: seq<Reply<T>>)
    requires |targets| == |replies|
    ensures |AnsweredBy(targets, replies)| == |Answers(replies)|
    ensures |Answers(replies)| + |LostBy(targets, replies)| == |targets|
  {
    if replies != [] { RepliesCount(targets[..|replies| - 1], replies[..|replies| - 1]); }
  }

  lemma {:induction false} OneMore(a: seq<string>, b: seq<string>, all: seq<string>, x: string)
    requires multiset(a) + multiset(b) == multiset(all)
    ensures multiset(a + [x]) + multiset(b) == multiset(all + [x])
    ensures multiset(a) + multiset(b + [x]) == multiset(all + [x])
  {
  }

  lemma {:induction false} LostIff<T>(targets: seq<Target>, replies: seq<Reply<T>>, i: nat)
    requires |targets| == |replies| && NoRepeats(ShardsOf(targets)) && i < |targets|
    ensures targets[i].shard in LostBy(targets, replies) <==> replies[i].Refused?
    ensures forall s :: s in LostBy(targets, replies) ==> s in ShardsOf(targets)
  {
    var n := |replies| - 1;
    assert targets == targets[..n] + [targets[n]];
    ShardsOfAppend(targets[..n], [targets[n]]);
    LostAreTargets(targets[..n], replies[..n]);
    assert ShardsOf(targets) == ShardsOf(targets[..n]) + [targets[n].shard];
    if i < n {
      LostIff(targets[..n], replies[..n], i);
      assert targets[i].shard != targets[n].shard by { assert ShardsOf(targets)[i] != ShardsOf(targets)[n]; }
    } else {
      assert targets[n].shard !in ShardsOf(targets[..n]) by {
        assert forall j :: 0 <= j < n ==> ShardsOf(targets)[j] != ShardsOf(targets)[n];
      }
    }
  }

  lemma {:induction false} LostAreTargets<T>(targets: seq<Target>, replies: seq<Reply<T>>)
    requires |targets| == |replies|
    ensures forall s :: s in LostBy(targets, replies) ==> s in ShardsOf(targets)
  {
    if replies != [] {
      var n := |replies| - 1;
      LostAreTargets(targets[..n], replies[..n]);
      assert targets == targets[..n] + [targets[n]];
      ShardsOfAppend(targets[..n], [targets[n]]);
    }
  }

  /** Narrowing a route by the lost shards leaves exactly the targets that
      answered. */
  lemma {:induction false} WithoutLost<T>(targets: seq<Target>, replies: seq<Reply<T>>, lost: seq<string>)
    requires |targets| == |replies|
    requires forall i :: 0 <= i < |targets| ==> (targets[i].shard in lost <==> replies[i].Refused?)
    ensures Filter((t: Target) => t.shard !in lost, targets) == AnsweredBy(targets, replies)
  {
    if replies != [] {
      var n := |replies| - 1;
      WithoutLost(targets[..n], replies[..n], lost);
      assert targets == targets[..n] + [targets[n]];
      FilterAppend((t: Target) => t.shard !in lost, targets[..n], [targets[n]]);
    }
  }

  // ---- one round ----

  function Budget(partial: bool, straggler: Option<nat>): Option<nat> {
    if partial then straggler else None
  }

  /** What may happen to the calls of a round. */
  ghost predicate RoundHistory<T>(partial: bool, straggler: Option<nat>, route: Route,
                                  history: seq<Completion<Reply<T>>>)
  {
    IsHistory(|route.Targets()|, Budget(partial, straggler), history, IsAnswer)
  }

  /** The replies are what the round gathered, one per target. */
  ghost predicate RoundReplies<T>(partial: bool, straggler: Option<nat>, route: Route,
                                  history: seq<Completion<Reply<T>>>, replies: seq<Reply<T>>)
  {
    Gathers(|route.Targets()|, Budget(partial, straggler), history, IsAnswer, Straggled<T>, replies)
  }

  /** The target refused for a reason that may not be dropped. */
  predicate Fatal<T>(partial: bool, route: Route, reply: Reply<T>) {
    reply.Refused? && !Droppable(partial, route, reply.code)
  }

  /** What a round over the route amounts to, given every target's reply: it
      fails with the first fatal refusal, or if all partitions dropped out. */
  ghost predicate RoundResult<T>(partial: bool, route: Route, replies: seq<Reply<T>>, r: Result<(seq<T>, seq<string>)>)
    requires |replies| == |route.Targets()|
  {
    match r
    case Ok((responses, lost)) =>
      && (forall i :: 0 <= i < |replies| ==> !Fatal(partial, route, replies[i]))
      && responses == Answers(replies) && lost == LostBy(route.Targets(), replies)
      && (route.Targets() != [] ==> responses != [])
    case Err(code) => RoundFails(partial, route, replies, code)
  }

  ghost predicate RoundFails<T>(partial: bool, route: Route, replies: seq<Reply<T>>, code: Code) {
    || (exists i :: FirstFatal(partial, route, replies, i) && replies[i] == Refused(code))
    || (replies != [] && code == Unavailable
        && forall i :: 0 <= i < |replies| ==> replies[i].Refused? && !Fatal(partial, route, replies[i]))
  }

  ghost predicate FirstFatal<T>(partial: bool, route: Route, replies: seq<Reply<T>>, i: int) {
    && 0 <= i < |replies| && Fatal(partial, route, replies[i])
    && forall j :: 0 <= j < i ==> !Fatal(partial, route, replies[j])
  }

  /** The reply is what the target itself returned. */
  ghost predicate OwnReply<T>(history: seq<Completion<Reply<T>>>, i: nat, reply: Reply<T>) {
    exists k :: 0 <= k < |history| && history[k].call == i && history[k].result == reply
  }

  /** One read sent to every target. All must succeed, except that a partial
      read drops partitions that are unavailable or straggle; it fails if none
      answers. A reply that is not the target's own only occurs beside an
      answer, so cutting off stragglers alone never makes a read fail. */
  method ForwardRead<T(!new)>(partial: bool, straggler: Option<nat>, route: Route, history: seq<Completion<Reply<T>>>)
    returns (r: Result<(seq<T>, seq<string>)>, ghost replies: seq<Reply<T>>)
    requires RoundHistory(partial, straggler, route, history)
    ensures RoundReplies(partial, straggler, route, history, replies) && RoundResult(partial, route, replies, r)
    ensures forall i :: 0 <= i < |replies| ==> OwnReply(history, i, replies[i]) || Answers(replies) != []
  {
    var gathered := Gather(|route.Targets()|, Budget(partial, straggler), history, IsAnswer, Straggled<T>);
    replies := gathered;
    forall i | 0 <= i < |replies| ensures OwnReply(history, i, replies[i]) || Answers(replies) != [] {
      StragglersLeaveAnswers(partial, straggler, route, history, replies, i);
    }
    r := Partition(partial, route, gathered);
  }

  lemma {:induction false} StragglersLeaveAnswers<T(!new)>(
    partial: bool, straggler: Option<nat>, route: Route, history: seq<Completion<Reply<T>>>, replies: seq<Reply<T>>,
    i: nat)
    requires RoundHistory(partial, straggler, route, history) && i < |replies|
    requires RoundReplies(partial, straggler, route, history, replies)
    ensures OwnReply(history, i, replies[i]) || Answers(replies) != []
  {
    StragglerImpliesSuccess(|route.Targets()|, Budget(partial, straggler), history, IsAnswer, Straggled<T>, replies, i);
    if !OwnReply(history, i, replies[i]) {
      var j :| 0 <= j < |replies| && IsAnswer(replies[j]);
      AnswerAt(replies, j);
    }
  }

  lemma {:induction false} AnswerAt<T>(replies: seq<Reply<T>>, k: nat)
    requires k < |replies| && replies[k].Answer?
    ensures Answers(replies) != []
  {
    var n := |replies| - 1;
    if k < n { AnswerAt(replies[..n], k); }
  }

  lemma {:induction false} NoAnswer<T>(replies: seq<Reply<T>>)
    requires replies != [] && Answers(replies) == []
    ensures forall i :: 0 <= i < |replies| ==> replies[i].Refused?
  {
    forall i | 0 <= i < |replies| ensures replies[i].Refused? {
      if replies[i].Answer? { AnswerAt(replies, i); }
    }
  }

  /** The loop over the gathered replies. */
  method Partition<T>(partial: bool, route: Route, gathered: seq<Reply<T>>) returns (r: Result<(seq<T>, seq<string>)>)
    requires |gathered| == |route.Targets()|
    ensures RoundResult(partial, route, gathered, r)
  {
    var targets := route.Targets();
    var responses: seq<T>, lost: seq<string> := [], [];
    var lastFailure: Option<Code> := None;
    for i := 0 to |gathered|
      invariant responses == Answers(gathered[..i])
      invariant lost == LostBy(targets[..i], gathered[..i])
      invariant forall j :: 0 <= j < i ==> !Fatal(partial, route, gathered[j])
      invariant lastFailure.None? <==> forall j :: 0 <= j < i ==> gathered[j].Answer?
      invariant lastFailure.Some? ==> lastFailure.value == Unavailable
    {
      assert gathered[..i + 1][..i] == gathered[..i] && targets[..i + 1][..i] == targets[..i];
      match gathered[i] {
        case Answer(response) =>
          responses := responses + [response];
        case Refused(code) =>
          if !Droppable(partial, route, code) {
            assert FirstFatal(partial, route, gathered, i);
            return Err(code);
          }
          lost := lost + [targets[i].shard];
          lastFailure := Some(code);
      }
    }
    assert gathered[..|gathered|] == gathered && targets[..|gathered|] == targets;
    if gathered != [] && responses == [] { NoAnswer(gathered); }
    if lastFailure.Some? && responses == [] {
      r := Err(lastFailure.value);
    } else {
      r := Ok((responses, lost));
    }
  }

  // ---- narrowing the route between rounds ----

  lemma {:induction false} AnsweredNoRepeats<T>(targets: seq<Target>, replies: seq<Reply<T>>)
    requires |targets| == |replies| && NoRepeats(ShardsOf(targets))
    ensures NoRepeats(ShardsOf(AnsweredBy(targets, replies)))
    ensures forall t :: t in AnsweredBy(targets, replies) ==> t in targets
  {
    if replies != [] {
      var n := |replies| - 1;
      var before := AnsweredBy(targets[..n], replies[..n]);
      assert targets == targets[..n] + [targets[n]];
      assert forall i :: 0 <= i < n ==> ShardsOf(targets)[i] == ShardsOf(targets[..n])[i];
      AnsweredNoRepeats(targets[..n], replies[..n]);
      forall i | 0 <= i < |before| ensures before[i].shard != targets[n].shard {
        assert before[i] in targets[..n];
        var j :| 0 <= j < n && targets[..n][j] == before[i];
        assert ShardsOf(targets)[j] != ShardsOf(targets)[n];
      }
    }
  }

  lemma {:induction false} AllAnswered<T>(targets: seq<Target>, replies: seq<Reply<T>>)
    requires |targets| == |replies| && forall i :: 0 <= i < |replies| ==> replies[i].Answer?
    ensures AnsweredBy(targets, replies) == targets && LostBy(targets, replies) == []
  {
    if replies != [] {
      AllAnswered(targets[..|replies| - 1], replies[..|replies| - 1]);
    }
  }

  /** A successful round leaves a route over exactly the targets that answered,
      which still counts every partition once. */
  lemma {:induction false} RoundNarrows<T>(partial: bool, route: Route, replies: seq<Reply<T>>,
                                           r: Result<(seq<T>, seq<string>)>, partitions: seq<string>)
    requires Covers(route, partitions) && |replies| == |route.Targets()| && RoundResult(partial, route, replies, r)
             && r.Ok?
    ensures var next := route.Without(r.value.1);
            && Covers(next, partitions)
            && next.Targets() == AnsweredBy(route.Targets(), replies)
            && next.Missing() == route.Missing() + r.value.1
            && |next.Targets()| == |r.value.0|
  {
    RepliesCount(route.Targets(), replies);
    if r.value.1 == [] {
      LostNothing(route.Targets(), replies);
      assert route.Missing() + [] == route.Missing();
    } else {
      SomeLost(route.Targets(), replies);
      NarrowedCovers(route, replies, partitions);
    }
  }

  lemma {:induction false} NarrowedCovers<T>(route: Route, replies: seq<Reply<T>>, partitions: seq<string>)
    requires Covers(route, partitions) && |replies| == |route.Targets()| && route.Partitioned?
    requires LostBy(route.Targets(), replies) != [] && Answers(replies) != []
    ensures var next := route.Without(LostBy(route.Targets(), replies));
            Covers(next, partitions) && next.targets == AnsweredBy(route.Targets(), replies)
  {
    var targets, lost := route.targets, LostBy(route.targets, replies);
    forall i | 0 <= i < |targets| ensures targets[i].shard in lost <==> replies[i].Refused? {
      LostIff(targets, replies, i);
    }
    WithoutLost(targets, replies, lost);
    RepliesSplit(targets, replies);
    RepliesCount(targets, replies);
    AnsweredNoRepeats(targets, replies);
    assert multiset(route.missing + lost) == multiset(route.missing) + multiset(lost);
  }

  lemma {:induction false} LostNothing<T>(targets: seq<Target>, replies: seq<Reply<T>>)
    requires |targets| == |replies| && LostBy(targets, replies) == []
    ensures AnsweredBy(targets, replies) == targets
  {
    if replies != [] {
      LostNothing(targets[..|replies| - 1], replies[..|replies| - 1]);
    }
  }

  lemma {:induction false} SomeLost<T>(targets: seq<Target>, replies: seq<Reply<T>>)
    requires |targets| == |replies| && LostBy(targets, replies) != []
    ensures exists i :: 0 <= i < |replies| && replies[i].Refused?
  {
    if forall i :: 0 <= i < |replies| ==> replies[i].Answer? { AllAnswered(targets, replies); }
  }

  // ---- the statistics round ----

  /** Every answer must carry statistics. */
  method CollectStats<S>(answers: seq<Option<S>>) returns (r: Result<seq<S>>)
    ensures r.Err? <==> exists i :: 0 <= i < |answers| && answers[i].None?
    ensures r.Err? ==> r.code == FailedPrecondition
    ensures r.Ok? ==> |r.value| == |answers| && forall i :: 0 <= i < |answers| ==> answers[i] == Some(r.value[i])
  {
    var stats: seq<S> := [];
    for i := 0 to |answers|
      invariant |stats| == i && forall j :: 0 <= j < i ==> answers[j] == Some(stats[j])
    {
      if answers[i].None? {
        return Err(FailedPrecondition);
      }
      stats := stats + [answers[i].value];
    }
    r := Ok(stats);
  }

  /** Why fetching statistics fails: its round does, or a shard has none. */
  ghost predicate StatsFail<S>(partial: bool, route: Route, replies: seq<Reply<Option<S>>>, code: Code) {
    || RoundFails(partial, route, replies, code)
    || (code == FailedPrecondition && exists i :: 0 <= i < |replies| && replies[i] == Answer(None))
  }

  lemma {:induction false} AnswersFrom<T>(replies: seq<Reply<T>>, k: nat)
    requires k < |Answers(replies)|
    ensures exists i :: 0 <= i < |replies| && replies[i] == Answer(Answers(replies)[k])
  {
    var n := |replies| - 1;
    if replies[n].Answer? && k == |Answers(replies)| - 1 {
      assert replies[n] == Answer(Answers(replies)[k]);
    } else {
      AnswersFrom(replies[..n], k);
    }
  }

  /** Fetch statistics if the search needs them. The returned route is narrowed
      to exactly the partitions that supplied them. */
  method AttachTextStats<S(!new)>(wanted: bool, partial: bool, straggler: Option<nat>, route: Route,
                                  history: seq<Completion<Reply<Option<S>>>>, ghost partitions: seq<string>)
    returns (r: Result<(Route, Option<seq<S>>)>, ghost replies: seq<Reply<Option<S>>>)
    requires Covers(route, partitions) && RoundHistory(partial, straggler, route, history)
    ensures wanted ==> RoundReplies(partial, straggler, route, history, replies)
    ensures r.Ok? ==> Covers(r.value.0, partitions) && |r.value.0.Targets()| <= |route.Targets()|
    ensures r.Ok? && !wanted ==> r.value == (route, None)
    ensures r.Ok? && wanted ==>
              && r.value.0.Targets() == AnsweredBy(route.Targets(), replies)
              && r.value.1.Some? && |r.value.1.value| == |Answers(replies)| == |r.value.0.Targets()|
              && (forall i :: 0 <= i < |r.value.1.value| ==> Answers(replies)[i] == Some(r.value.1.value[i]))
    ensures r.Ok? && !(partial && route.Partitioned?) ==> r.value.0 == route
    ensures r.Err? ==> wanted && StatsFail(partial, route, replies, r.code)
  {
    replies := [];
    if !wanted {
      return Ok((route, None)), replies;
    }
    var round;
    round, replies := ForwardRead(partial, straggler, route, history);
    if round.Err? {
      return Err(round.code), replies;
    }
    var (answers, lost) := round.value;
    var stats := CollectStats(answers);
    if stats.Err? {
      ghost var k :| 0 <= k < |answers| && answers[k].None?;
      AnswersFrom(replies, k);
      return Err(stats.code), replies;
    }
    RoundNarrows(partial, route, replies, round, partitions);
    RepliesCount(route.Targets(), replies);
    if !(partial && route.Partitioned?) && lost != [] { SomeLost(route.Targets(), replies); }
    r := Ok((route.Without(lost), Some(stats.value)));
  }
}
