/** The poller loop: prune what discovery dropped, poll what is due, publish a
    snapshot of what is known. */
module Poller {
  import opened Placement
  import opened Outcomes
  import opened Topology
  import opened BackendHealth

  datatype PollerConfig = PollerConfig(pollInterval: nat, probeInterval: nat, grace: nat)

  predicate Discovered(endpoints: seq<Endpoint>, id: string) {
    exists i :: 0 <= i < |endpoints| && endpoints[i].id == id
  }

  class PollLoop {
    const cfg: PollerConfig
    const placement: PlacementRules
    var states: map<string, PollState>
    var force: bool
    /** The polls of each backend since the poller last (re)discovered it. */
    ghost var histories: map<string, seq<Poll>>

    constructor (cfg: PollerConfig, placement: PlacementRules)
      ensures Valid() && states == map[] && force
      ensures this.cfg == cfg && this.placement == placement
    {
      this.cfg, this.placement := cfg, placement;
      states, force, histories := map[], true, map[];
    }

    /** Every backend has its own state, and that state is its history's. */
    ghost predicate Valid()
      reads this, states.Values
    {
      && states.Keys == histories.Keys
      && (forall a, b :: a in states && b in states && a != b ==> states[a] != states[b])
      && (forall id :: id in states ==> states[id].View() == Run(histories[id], cfg.grace))
    }

    predicate Due(e: Endpoint, now: nat)
      reads this, states.Values
    {
      e.ready && (force || e.id !in states
                  || var s := states[e.id];
                     s.lastPoll.None?
                     || Elapsed(now, s.lastPoll.value)
                        >= (if s.health == Healthy then cfg.pollInterval else cfg.probeInterval))
    }

    method DueEndpoints(endpoints: seq<Endpoint>, now: nat) returns (due: seq<Endpoint>)
      requires DistinctIds(endpoints)
      ensures DistinctIds(due)
      ensures forall e :: e in due <==> e in endpoints && Due(e, now)
    {
      due := [];
      for i := 0 to |endpoints|
        invariant forall e :: e in due <==> e in endpoints[..i] && Due(e, now)
        invariant DistinctIds(due)
      {
        if Due(endpoints[i], now) {
          forall k | 0 <= k < |due| ensures due[k].id != endpoints[i].id {
            assert due[k] in endpoints[..i];
          }
          due := due + [endpoints[i]];
        }
      }
    }

    /** Forget the backends discovery no longer reports. */
    method Prune(endpoints: seq<Endpoint>)
      requires Valid()
      modifies this`states, this`histories
      ensures Valid()
      ensures histories == Kept(old(histories), endpoints) && states == Kept(old(states), endpoints)
    {
      states := Kept(states, endpoints);
      histories := Kept(histories, endpoints);
    }

    method PollOne(id: string, poll: Poll)
      requires Valid()
      modifies this`states, this`histories, states.Values
      ensures Valid()
      ensures histories == WithPoll(old(histories), id, poll)
      ensures fresh(states.Values - old(states.Values))
    {
      Admit(id);
      var state := states[id];
      state.lastPoll := Some(poll.at);
      state.ApplyPollOutcome(poll.at, poll.outcome, cfg.grace);
      RunStep(histories[id], poll, cfg.grace);
      PollRecorded(old(histories), id, poll);
      histories := histories[id := histories[id] + [poll]];
    }

    /** A backend polled for the first time starts from the default state. */
    method Admit(id: string)
      requires Valid()
      modifies this`states, this`histories
      ensures Valid() && id in states
      ensures histories == old(histories)[id := Past(old(histories), id)]
      ensures fresh(states.Values - old(states.Values))
    {
      if id !in states {
        var state := new PollState();
        states := states[id := state];
        histories := histories[id := []];
      }
    }

    method PollAll(due: seq<Endpoint>, answer: string -> Poll)
      requires Valid()
      modifies this`states, this`histories, states.Values
      ensures Valid() && fresh(states.Values - old(states.Values))
      ensures histories == WithPolls(old(histories), due, answer)
    {
      for i := 0 to |due|
        invariant Valid() && fresh(states.Values - old(states.Values))
        invariant histories == WithPolls(old(histories), due[..i], answer)
      {
        assert due[..i + 1][..i] == due[..i];
        PollOne(due[i].id, answer(due[i].id));
      }
      assert due[..|due|] == due;
    }

    /** Prune, then poll what is due: each discovered backend's history grows
        by its answer if it was due, and everything else is forgotten. */
    method Refresh(endpoints: seq<Endpoint>, now: nat, answer: string -> Poll)
      requires Valid() && DistinctIds(endpoints)
      modifies this, states.Values
      ensures Valid() && !force && fresh(states.Values - old(states.Values))
      ensures forall id :: id in histories ==> Discovered(endpoints, id)
      ensures forall e :: e in endpoints ==>
                Past(histories, e.id) == Past(old(histories), e.id) + (if old(Due(e, now)) then [answer(e.id)] else [])
    {
      var due := PruneAndFindDue(endpoints, now);
      force := false;
      PollAll(due, answer);
      RefreshedHistories(old(histories), endpoints, due, answer);
    }

    method PruneAndFindDue(endpoints: seq<Endpoint>, now: nat) returns (due: seq<Endpoint>)
      requires Valid() && DistinctIds(endpoints)
      modifies this`states, this`histories
      ensures Valid() && states.Values <= old(states.Values)
      ensures histories == Kept(old(histories), endpoints)
      ensures DistinctIds(due) && forall e :: e in due <==> e in endpoints && old(Due(e, now))
    {
      Prune(endpoints);
      due := DueEndpoints(endpoints, now);
      forall e | e in endpoints ensures Due(e, now) == old(Due(e, now)) {
        assert Discovered(endpoints, e.id);
      }
    }

    function KnowledgeOf(): map<string, Knowledge>
      reads this, states.Values
    {
      map id | id in states :: Knowledge(states[id].health, states[id].indexes)
    }

    /** One turn of the loop. `answer` is what each backend's poll returns and
        when. The published snapshot routes an index to a shard exactly when a
        backend discovered there now is ready, is not evicted by its polls, and
        listed the index in its latest successful poll since it was last
        (re)discovered. */
    method Round(endpoints: seq<Endpoint>, now: nat, answer: string -> Poll) returns (snap: Snapshot)
      requires Valid() && DistinctIds(endpoints)
      modifies this, states.Values
      ensures Valid() && !force && fresh(states.Values - old(states.Values))
      ensures forall id :: id in histories ==> Discovered(endpoints, id)
      ensures forall e :: e in endpoints ==>
                Past(histories, e.id) == Past(old(histories), e.id) + (if old(Due(e, now)) then [answer(e.id)] else [])
      ensures WellAssembled(snap, placement)
      ensures forall n, s :: Routes(snap, n, s) <==> ListedOn(endpoints, histories, cfg.grace, n, s)
    {
      Refresh(endpoints, now, answer);
      var knowledge := KnowledgeOf();
      snap := Assemble(endpoints, knowledge, placement);
      PublishedRoutes(snap, endpoints, knowledge, histories, placement, cfg.grace);
    }
  }

  function Kept<T>(m: map<string, T>, endpoints: seq<Endpoint>): map<string, T> {
    map id | id in m && Discovered(endpoints, id) :: m[id]
  }

  function WithPoll(histories: map<string, seq<Poll>>, id: string, poll: Poll): map<string, seq<Poll>> {
    histories[id := Past(histories, id) + [poll]]
  }

  lemma {:induction false} PollRecorded(histories: map<string, seq<Poll>>, id: string, poll: Poll)
    ensures var admitted := histories[id := Past(histories, id)];
            admitted[id := admitted[id] + [poll]] == WithPoll(histories, id, poll)
  {
  }

  lemma {:induction false} RunStep(history: seq<Poll>, poll: Poll, grace: nat)
    ensures Run(history + [poll], grace) == Step(Run(history, grace), poll, grace)
  {
    assert (history + [poll])[..|history|] == history;
  }

  function WithPolls(histories: map<string, seq<Poll>>, due: seq<Endpoint>, answer: string -> Poll): map<string,
        seq<Poll>> {
    if due == [] then histories
    else
      var last := due[|due| - 1].id;
      WithPoll(WithPolls(histories, due[..|due| - 1], answer), last, answer(last))
  }

  lemma {:induction false} PolledIds(histories: map<string, seq<Poll>>, due: seq<Endpoint>, answer: string -> Poll,
                                     id: string)
    ensures id in WithPolls(histories, due, answer) ==> id in histories || exists e :: e in due && e.id == id
    ensures (forall e :: e in due ==> e.id != id) ==>
              Past(WithPolls(histories, due, answer), id) == Past(histories, id)
  {
    if due != [] {
      PolledIds(histories, due[..|due| - 1], answer, id);
      assert due[|due| - 1] in due;
    }
  }

  lemma {:induction false} RefreshedHistories(histories: map<string, seq<Poll>>, endpoints: seq<Endpoint>,
                                              due: seq<Endpoint>, answer: string -> Poll)
    requires DistinctIds(endpoints) && DistinctIds(due) && forall d :: d in due ==> d in endpoints
    ensures var after := WithPolls(Kept(histories, endpoints), due, answer);
            && (forall id :: id in after ==> Discovered(endpoints, id))
            && (forall e :: e in endpoints ==>
                  Past(after, e.id) == Past(histories, e.id) + (if e in due then [answer(e.id)] else []))
  {
    var kept := Kept(histories, endpoints);
    forall e | e in endpoints
      ensures Past(WithPolls(kept, due, answer), e.id) == Past(histories, e.id)
              + (if e in due then [answer(e.id)] else [])
    {
      assert Discovered(endpoints, e.id);
      PollsOf(kept, endpoints, due, answer, e);
    }
    forall id | id in WithPolls(kept, due, answer) ensures Discovered(endpoints, id) {
      PolledIds(kept, due, answer, id);
    }
  }

  lemma {:induction false} PollsOf(histories: map<string, seq<Poll>>, endpoints: seq<Endpoint>, due: seq<Endpoint>,
                                   answer: string -> Poll, e: Endpoint)
    requires DistinctIds(endpoints) && e in endpoints && DistinctIds(due) && forall d :: d in due ==> d in endpoints
    ensures Past(WithPolls(histories, due, answer), e.id)
         == Past(histories, e.id) + (if e in due then [answer(e.id)] else [])
  {
    if due != [] {
      var n := |due| - 1;
      PollsOf(histories, endpoints, due[..n], answer, e);
      assert due == due[..n] + [due[n]] && due[n] in endpoints;
      if due[n] == e { PolledIds(histories, due[..n], answer, e.id); }
    }
  }

  /** The polls a backend has behind it; none when it is unknown. */
  function Past(histories: map<string, seq<Poll>>, id: string): seq<Poll> {
    if id in histories then histories[id] else []
  }

  predicate Routes(snap: Snapshot, index: string, shard: string) {
    index in snap.indexes && shard in snap.indexes[index].shards
  }

  ghost predicate ListedOn(endpoints: seq<Endpoint>, histories: map<string, seq<Poll>>, grace: nat, index: string,
                           shard: string) {
    exists e :: e in endpoints && e.ready && e.shard == shard
             && HealthAfter(Past(histories, e.id), grace) != Evicted
             && index in LastListed(Past(histories, e.id))
  }

  lemma {:induction false} KnownIsPast(knowledge: map<string, Knowledge>, histories: map<string, seq<Poll>>,
                                       grace: nat, id: string)
    requires knowledge.Keys == histories.Keys
    requires forall id :: id in knowledge ==>
               knowledge[id] == Knowledge(Run(histories[id], grace).health, Run(histories[id], grace).indexes)
    ensures Known(knowledge, id) == Knowledge(HealthAfter(Past(histories, id), grace), LastListed(Past(histories, id)))
  {
    RunAccounts(Past(histories, id), grace);
  }

  lemma {:induction false} PublishedRoutes(snap: Snapshot, endpoints: seq<Endpoint>,
                                           knowledge: map<string, Knowledge>, histories: map<string, seq<Poll>>,
                                           placement: PlacementRules, grace: nat)
    requires BackendsOf(snap.backends, endpoints, knowledge) && WellAssembled(snap, placement)
    requires knowledge.Keys == histories.Keys
    requires forall id :: id in knowledge ==>
               knowledge[id] == Knowledge(Run(histories[id], grace).health, Run(histories[id], grace).indexes)
    ensures forall n, s :: Routes(snap, n, s) <==> ListedOn(endpoints, histories, grace, n, s)
  {
    forall e | e in endpoints
      ensures e.id in snap.backends
      ensures var past := Past(histories, e.id);
              snap.backends[e.id] == Backend(e, Knowledge(HealthAfter(past, grace), LastListed(past)))
    {
      KnownIsPast(knowledge, histories, grace, e.id);
    }
    forall n, s ensures Routes(snap, n, s) <==> ListedOn(endpoints, histories, grace, n, s) {
      if ListedOn(endpoints, histories, grace, n, s) {
        var e :| e in endpoints && e.ready && e.shard == s
              && HealthAfter(Past(histories, e.id), grace) != Evicted && n in LastListed(Past(histories, e.id));
        assert snap.backends[e.id].Serves(n);
        assert Hosts(snap.backends, s, n);
      }
      if Routes(snap, n, s) {
        assert Hosts(snap.backends, s, n);
        var id :| id in snap.backends && snap.backends[id].endpoint.shard == s && snap.backends[id].Serves(n);
        var e :| e in endpoints && e.id == id;
        assert snap.backends[e.id].endpoint == e;
      }
    }
  }
}
