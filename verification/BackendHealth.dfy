/** Backend health as learned from polls.

    The poller keeps a small state per backend and updates it on every poll.
    `Step` is that update on values, `Run` its effect over a whole history, and
    `HealthAfter` says what the health of a history is without any state. */
module BackendHealth {
  import opened Sorting
  import opened Outcomes
  import opened Topology

  datatype Outcome = Listed(indexes: seq<string>) | Failed

  datatype Poll = Poll(at: nat, outcome: Outcome)

  datatype PollView = PollView(
    health: Health, indexes: seq<string>, refreshed: Option<nat>, failures: nat,
    suspectSince: Option<nat>, successes: nat)

  const FRESH := PollView(Suspect, [], None, 0, None, 0)

  const EVICTION_RECOVERY_SUCCESSES: nat := 2

  /** Elapsed time; an earlier `now` counts as no time. */
  function Elapsed(now: nat, since: nat): nat {
    if since <= now then now - since else 0
  }

  function Step(v: PollView, poll: Poll, grace: nat): PollView {
    match poll.outcome
    case Listed(indexes) =>
      var w := v.(indexes := StableSort(indexes, LexLe), refreshed := Some(poll.at), failures := 0);
      (match v.health
       case Healthy => w
       case Suspect => w.(health := Healthy, suspectSince := None)
       case Evicted =>
         if v.successes + 1 >= EVICTION_RECOVERY_SUCCESSES
         then w.(health := Healthy, suspectSince := None, successes := 0)
         else w.(successes := v.successes + 1))
    case Failed =>
      var w := v.(failures := v.failures + 1, successes := 0);
      (match v.health
       case Healthy => w.(health := Suspect, suspectSince := Some(poll.at))
       case Suspect =>
         var since := if v.suspectSince.Some? then v.suspectSince.value else poll.at;
         var held := w.(suspectSince := Some(since));
         if Elapsed(poll.at, since) >= grace then held.(health := Evicted) else held
       case Evicted => w)
  }

  class PollState {
    var health: Health
    var indexes: seq<string>
    var refreshed: Option<nat>
    var failures: nat
    var suspectSince: Option<nat>
    var successes: nat
    var lastPoll: Option<nat>

    constructor ()
      ensures View() == FRESH && lastPoll == None
    {
      health, indexes, refreshed, failures := Suspect, [], None, 0;
      suspectSince, successes, lastPoll := None, 0, None;
    }

    function View(): PollView
      reads this
    {
      PollView(health, indexes, refreshed, failures, suspectSince, successes)
    }

    method ApplyPollOutcome(now: nat, outcome: Outcome, grace: nat)
      modifies this
      ensures View() == Step(old(View()), Poll(now, outcome), grace)
      ensures lastPoll == old(lastPoll)
    {
      match outcome {
        case Listed(listed) =>
          indexes := StableSort(listed, LexLe);
          refreshed := Some(now);
          failures := 0;
          match health {
            case Healthy =>
            case Suspect =>
              health := Healthy;
              suspectSince := None;
            case Evicted =>
              successes := successes + 1;
              if successes >= EVICTION_RECOVERY_SUCCESSES {
                health := Healthy;
                suspectSince := None;
                successes := 0;
              }
          }
        case Failed =>
          failures := failures + 1;
          successes := 0;
          match health {
            case Healthy =>
              health := Suspect;
              suspectSince := Some(now);
            case Suspect =>
              if suspectSince.None? {
                suspectSince := Some(now);
              }
              if Elapsed(now, suspectSince.value) >= grace {
                health := Evicted;
              }
            case Evicted =>
          }
      }
    }
  }

  /** State after a whole poll history. */
  function Run(history: seq<Poll>, grace: nat): PollView {
    if history == [] then FRESH
    else Step(Run(history[..|history| - 1], grace), history[|history| - 1], grace)
  }

  // ---- health without state ----

  /** Length of the trailing run of failures. */
  function Streak(history: seq<Poll>): (k: nat)
    ensures k <= |history|
  {
    if history == [] || history[|history| - 1].outcome.Listed? then 0
    else 1 + Streak(history[..|history| - 1])
  }

  /** Poll i fails after its failure streak has lasted the grace period; the
      first failure after a success only makes the backend suspect. */
  predicate EvictingPoll(history: seq<Poll>, i: nat, grace: nat)
    requires i < |history|
  {
    var start := i + 1 - Streak(history[..i + 1]);
    && history[i].outcome.Failed?
    && (start == 0 || start < i)
    && Elapsed(history[i].at, history[start].at) >= grace
  }

  /** Two successes in a row after poll i. */
  ghost predicate RecoveredAfter(history: seq<Poll>, i: nat) {
    exists k :: i < k < |history| - 1 && history[k].outcome.Listed? && history[k + 1].outcome.Listed?
  }

  ghost predicate EvictedAfter(history: seq<Poll>, grace: nat) {
    exists i: nat :: i < |history| && EvictingPoll(history, i, grace) && !RecoveredAfter(history, i)
  }

  ghost function HealthAfter(history: seq<Poll>, grace: nat): Health {
    if EvictedAfter(history, grace) then Evicted
    else if history != [] && history[|history| - 1].outcome.Listed? then Healthy
    else Suspect
  }

  /** The most recent successful list, sorted; nothing before the first. */
  function LastListed(history: seq<Poll>): seq<string> {
    if history == [] then []
    else match history[|history| - 1].outcome
      case Listed(indexes) => StableSort(indexes, LexLe)
      case Failed => LastListed(history[..|history| - 1])
  }

  // ---- the run computes it ----

  /** What the counters mean for the history they were run on. */
  ghost predicate Accounts(v: PollView, history: seq<Poll>, grace: nat) {
    && v.health == HealthAfter(history, grace)
    && v.failures == Streak(history)
    && v.indexes == LastListed(history)
    && v.successes == (if v.health == Evicted && history != [] && history[|history| - 1].outcome.Listed? then 1 else 0)
    && (v.health == Suspect ==>
          v.suspectSince == if Streak(history) == 0 then None else Some(history[|history| - Streak(history)].at))
  }

  lemma {:induction false} EvictingPollPrefix(history: seq<Poll>, poll: Poll, i: nat, grace: nat)
    requires i < |history|
    ensures EvictingPoll(history + [poll], i, grace) == EvictingPoll(history, i, grace)
  {
    assert (history + [poll])[..i + 1] == history[..i + 1];
  }

  lemma {:induction false} RecoveryGrows(history: seq<Poll>, poll: Poll, i: nat)
    requires i < |history|
    ensures RecoveredAfter(history + [poll], i) <==>
            || RecoveredAfter(history, i)
            || (i < |history| - 1 && history[|history| - 1].outcome.Listed? && poll.outcome.Listed?)
  {
    var longer := history + [poll];
    if RecoveredAfter(history, i) {
      var k :| i < k < |history| - 1 && history[k].outcome.Listed? && history[k + 1].outcome.Listed?;
      assert longer[k] == history[k] && longer[k + 1] == history[k + 1];
    }
    if i < |history| - 1 && history[|history| - 1].outcome.Listed? && poll.outcome.Listed? {
      assert longer[|history| - 1] == history[|history| - 1] && longer[|history| - 1 + 1] == poll;
    }
    if RecoveredAfter(longer, i) {
      var k :| i < k < |longer| - 1 && longer[k].outcome.Listed? && longer[k + 1].outcome.Listed?;
      assert k < |history| - 1 ==> longer[k] == history[k] && longer[k + 1] == history[k + 1];
    }
  }

  /** One more poll: an eviction survives unless the poll completes a pair of
      successes, and a new one can only come from the poll itself. */
  lemma {:induction false} EvictedGrows(history: seq<Poll>, poll: Poll, grace: nat)
    ensures var longer := history + [poll];
            EvictedAfter(longer, grace) <==>
              || (EvictedAfter(history, grace)
                  && !(history[|history| - 1].outcome.Listed? && poll.outcome.Listed?))
              || EvictingPoll(longer, |history|, grace)
  {
    var longer := history + [poll];
    if i: nat :| i < |history| && EvictingPoll(history, i, grace) && !RecoveredAfter(history, i) {
      EvictionPersists(history, poll, grace, i);
    }
    if i: nat :| i < |longer| && EvictingPoll(longer, i, grace) && !RecoveredAfter(longer, i) {
      if i < |history| {
        EvictionPersists(history, poll, grace, i);
      }
    }
    if EvictingPoll(longer, |history|, grace) {
      assert !RecoveredAfter(longer, |history|);
    }
  }

  lemma {:induction false} EvictionPersists(history: seq<Poll>, poll: Poll, grace: nat, i: nat)
    requires i < |history|
    ensures var longer := history + [poll];
            EvictingPoll(longer, i, grace) && !RecoveredAfter(longer, i) <==>
              && EvictingPoll(history, i, grace) && !RecoveredAfter(history, i)
              && !(history[|history| - 1].outcome.Listed? && poll.outcome.Listed?)
  {
    EvictingPollPrefix(history, poll, i, grace);
    RecoveryGrows(history, poll, i);
  }

  lemma {:induction false} GrowPieces(history: seq<Poll>, poll: Poll)
    ensures var longer := history + [poll];
            && longer[..|history|] == history && longer[..|history| + 1] == longer
            && Streak(longer) == (if poll.outcome.Listed? then 0 else 1 + Streak(history))
            && LastListed(longer)
            == (if poll.outcome.Listed? then StableSort(poll.outcome.indexes, LexLe) else LastListed(history))
  {
    assert (history + [poll])[..|history|] == history;
    assert (history + [poll])[..|history| + 1] == history + [poll];
  }

  lemma {:induction false} AccountsStep(v: PollView, history: seq<Poll>, poll: Poll, grace: nat)
    requires Accounts(v, history, grace)
    ensures Accounts(Step(v, poll, grace), history + [poll], grace)
  {
    GrowPieces(history, poll);
    EvictedGrows(history, poll, grace);
    StreakFailed(history);
  }

  lemma {:induction false} StreakFailed(history: seq<Poll>)
    ensures forall i :: |history| - Streak(history) <= i < |history| ==> history[i].outcome.Failed?
    ensures Streak(history) < |history| ==> history[|history| - Streak(history) - 1].outcome.Listed?
  {
    if history != [] && history[|history| - 1].outcome.Failed? {
      StreakFailed(history[..|history| - 1]);
    }
  }

  /** For every poll history, the state is the health, failure streak and index
      list of that history. */
  lemma {:induction false} RunAccounts(history: seq<Poll>, grace: nat)
    ensures Accounts(Run(history, grace), history, grace)
  {
    if history != [] {
      var n := |history| - 1;
      RunAccounts(history[..n], grace);
      AccountsStep(Run(history[..n], grace), history[..n], history[n], grace);
      assert history[..n] + [history[n]] == history;
    }
  }

  /** Over every run, a backend is evicted only by a failed poll, never straight
      from healthy, and only when every poll since it became suspect failed and
      the grace period has passed since then. */
  lemma {:induction false} EvictionNeedsGrace(history: seq<Poll>, poll: Poll, grace: nat)
    requires Run(history, grace).health != Evicted && Run(history + [poll], grace).health == Evicted
    ensures var after := Run(history + [poll], grace);
            && Run(history, grace).health == Suspect && poll.outcome.Failed?
            && after.suspectSince.Some? && Elapsed(poll.at, after.suspectSince.value) >= grace
            && exists j :: 0 <= j <= |history| && (history + [poll])[j].at == after.suspectSince.value
                        && forall i :: j <= i <= |history| ==> (history + [poll])[i].outcome.Failed?
  {
    var longer := history + [poll];
    GrowPieces(history, poll);
    RunAccounts(history, grace);
    StreakFailed(longer);
    var j := |longer| - Streak(longer);
    assert longer[j].at == Run(longer, grace).suspectSince.value;
  }

  /** It leaves eviction only for healthy, and only with two successes in a row,
      both polled while it was evicted. */
  lemma {:induction false} RecoveryNeedsTwoSuccesses(history: seq<Poll>, poll: Poll, grace: nat)
    requires Run(history, grace).health == Evicted && Run(history + [poll], grace).health != Evicted
    ensures Run(history + [poll], grace).health == Healthy && poll.outcome.Listed?
    ensures history != [] && history[|history| - 1].outcome.Listed?
    ensures Run(history[..|history| - 1], grace).health == Evicted
  {
    GrowPieces(history, poll);
    RunAccounts(history, grace);
    var n := |history| - 1;
    RunAccounts(history[..n], grace);
    EvictedGrows(history[..n], history[n], grace);
    assert history[..n] + [history[n]] == history;
  }
}
