/** The routing snapshot: discovered backends and what their polls taught,
    assembled into shards and index routes, and the selections made on it. */
module Topology {
  import opened Sorting
  import opened Placement
  import opened Outcomes

  datatype Role = Master | Follower

  datatype Health = Healthy | Suspect | Evicted

  datatype Endpoint = Endpoint(id: string, shard: string, role: Option<Role>, ready: bool)

  /** Poll-time knowledge: health and the last successful index list. */
  datatype Knowledge = Knowledge(health: Health, indexes: seq<string>)

  const UNPOLLED := Knowledge(Suspect, [])

  datatype Backend = Backend(endpoint: Endpoint, know: Knowledge) {
    predicate Routable() {
      endpoint.ready && know.health != Evicted
    }

    predicate Serves(index: string) {
      Routable() && index in know.indexes
    }
  }

  datatype ShardGroup = ShardGroup(members: seq<string>, masters: seq<string>)

  datatype IndexRoute = IndexRoute(shards: set<string>, ruled: seq<string>) {
    function RuledShard(): Option<string> {
      if |ruled| == 1 then Some(ruled[0]) else None
    }

    predicate Partitioned() {
      |ruled| > 1
    }

    predicate Ambiguous() {
      !Partitioned() && |shards| > 1 && !(RuledShard().Some? && RuledShard().value in shards)
    }
  }

  datatype Snapshot = Snapshot(
    backends: map<string, Backend>, shards: map<string, ShardGroup>, indexes: map<string, IndexRoute>)

  datatype ReadSelection = ReadSelection(backend: Backend, stale: bool, ambiguous: bool)

  // ---- assembly ----

  predicate DistinctIds(endpoints: seq<Endpoint>) {
    forall i, j :: 0 <= i < j < |endpoints| ==> endpoints[i].id != endpoints[j].id
  }

  function Known(knowledge: map<string, Knowledge>, id: string): Knowledge {
    if id in knowledge then knowledge[id] else UNPOLLED
  }

  /** The backends are exactly the discovered endpoints with what is known of them. */
  ghost predicate BackendsOf(backends: map<string, Backend>, endpoints: seq<Endpoint>,
                             knowledge: map<string, Knowledge>) {
    && (forall e :: e in endpoints ==>
          e.id in backends && backends[e.id] == Backend(e, Known(knowledge, e.id)))
    && (forall id :: id in backends ==> exists e :: e in endpoints && e.id == id)
  }

  /** The groups list exactly the members and labelled masters of each shard, once. */
  ghost predicate GroupsOf(shards: map<string, ShardGroup>, backends: map<string, Backend>) {
    && (forall id :: id in backends ==>
          && backends[id].endpoint.id == id
          && backends[id].endpoint.shard in shards)
    && (forall s :: s in shards ==>
          && NoRepeats(shards[s].members) && NoRepeats(shards[s].masters)
          && (forall id :: id in shards[s].members <==> id in backends && backends[id].endpoint.shard == s)
          && (forall id :: id in shards[s].masters <==>
                id in backends && backends[id].endpoint.shard == s && backends[id].endpoint.role == Some(Master)))
  }

  ghost predicate Hosts(backends: map<string, Backend>, shard: string, index: string) {
    exists id :: id in backends && backends[id].endpoint.shard == shard && backends[id].Serves(index)
  }

  function RuledShards(placement: PlacementRules, index: string): seq<string> {
    var shards := ShardsFor(placement, index);
    if shards.Some? then shards.value else []
  }

  /** An index is routed to exactly the shards on which a routable backend lists it. */
  ghost predicate RoutesOf(indexes: map<string, IndexRoute>, backends: map<string, Backend>,
                           placement: PlacementRules) {
    && (forall n :: n in indexes ==>
          && indexes[n].shards != {}
          && indexes[n].ruled == RuledShards(placement, n)
          && forall s :: s in indexes[n].shards <==> Hosts(backends, s, n))
    && (forall id, n :: id in backends && backends[id].Serves(n) ==> n in indexes)
  }

  ghost predicate WellAssembled(snap: Snapshot, placement: PlacementRules) {
    GroupsOf(snap.shards, snap.backends) && RoutesOf(snap.indexes, snap.backends, placement)
  }

  method Assemble(endpoints: seq<Endpoint>, knowledge: map<string, Knowledge>, placement: PlacementRules)
    returns (snap: Snapshot)
    requires DistinctIds(endpoints)
    ensures BackendsOf(snap.backends, endpoints, knowledge)
    ensures WellAssembled(snap, placement)
    ensures forall s :: s in snap.shards ==>
              Sorted(snap.shards[s].members, LexLe) && Sorted(snap.shards[s].masters, LexLe)
  {
    var backends: map<string, Backend> := map[];
    var shards: map<string, ShardGroup> := map[];
    for i := 0 to |endpoints|
      invariant BackendsOf(backends, endpoints[..i], knowledge)
      invariant GroupsOf(shards, backends)
    {
      var e := endpoints[i];
      AddEndpoint(backends, shards, endpoints, i, knowledge);
      var group := GroupWith(shards, e);
      shards := shards[e.shard := group];
      backends := backends[e.id := Backend(e, Known(knowledge, e.id))];
    }
    assert endpoints[..|endpoints|] == endpoints;
    SortedGroups(shards, backends);
    shards := map s | s in shards ::
      ShardGroup(StableSort(shards[s].members, LexLe), StableSort(shards[s].masters, LexLe));
    var indexes := CollectRoutes(backends, placement);
    snap := Snapshot(backends, shards, indexes);
  }

  function GroupWith(shards: map<string, ShardGroup>, e: Endpoint): ShardGroup {
    var group := if e.shard in shards then shards[e.shard] else ShardGroup([], []);
    ShardGroup(group.members + [e.id], if e.role == Some(Master) then group.masters + [e.id] else group.masters)
  }

  lemma {:induction false} AddEndpoint(backends: map<string, Backend>, shards: map<string, ShardGroup>,
                                       endpoints: seq<Endpoint>, i: nat, knowledge: map<string, Knowledge>)
    requires DistinctIds(endpoints) && i < |endpoints|
    requires BackendsOf(backends, endpoints[..i], knowledge) && GroupsOf(shards, backends)
    ensures var e := endpoints[i];
            var backends' := backends[e.id := Backend(e, Known(knowledge, e.id))];
            && BackendsOf(backends', endpoints[..i + 1], knowledge)
            && GroupsOf(shards[e.shard := GroupWith(shards, e)], backends')
  {
    var e := endpoints[i];
    assert endpoints[..i + 1] == endpoints[..i] + [e];
    assert e.id !in backends;
    GroupAdded(backends, shards, e, Backend(e, Known(knowledge, e.id)));
  }

  lemma {:induction false} GroupAdded(backends: map<string, Backend>, shards: map<string, ShardGroup>, e: Endpoint,
                                      b: Backend)
    requires GroupsOf(shards, backends) && e.id !in backends && b.endpoint == e
    ensures GroupsOf(shards[e.shard := GroupWith(shards, e)], backends[e.id := b])
  {
    var group := GroupWith(shards, e);
    if e.shard in shards {
      assert e.id !in shards[e.shard].members && e.id !in shards[e.shard].masters;
    } else {
      assert forall id :: id in backends ==> backends[id].endpoint.shard != e.shard;
    }
    assert NoRepeats(group.members) && NoRepeats(group.masters);
  }

  lemma {:induction false} SortKeeps(ids: seq<string>)
    requires NoRepeats(ids)
    ensures NoRepeats(StableSort(ids, LexLe)) && Sorted(StableSort(ids, LexLe), LexLe)
    ensures forall id :: id in StableSort(ids, LexLe) <==> id in ids
  {
    var s := StableSort(ids, LexLe);
    LexIsTotalOrder();
    SortSorted(ids, LexLe);
    SortMultiset(ids, LexLe);
    SameMembers(s, ids);
    RepeatIffTwice(ids);
    RepeatIffTwice(s);
  }

  lemma {:induction false} SortedGroups(shards: map<string, ShardGroup>, backends: map<string, Backend>)
    requires GroupsOf(shards, backends)
    ensures var sorted := map s | s in shards ::
              ShardGroup(StableSort(shards[s].members, LexLe), StableSort(shards[s].masters, LexLe));
            && GroupsOf(sorted, backends)
            && forall s :: s in sorted ==> Sorted(sorted[s].members, LexLe) && Sorted(sorted[s].masters, LexLe)
  {
    forall s | s in shards
      ensures && NoRepeats(StableSort(shards[s].members, LexLe)) && Sorted(StableSort(shards[s].members, LexLe), LexLe)
              && NoRepeats(StableSort(shards[s].masters, LexLe)) && Sorted(StableSort(shards[s].masters, LexLe), LexLe)
              && (forall id :: id in StableSort(shards[s].members, LexLe) <==> id in shards[s].members)
              && (forall id :: id in StableSort(shards[s].masters, LexLe) <==> id in shards[s].masters)
    {
      SortKeeps(shards[s].members);
      SortKeeps(shards[s].masters);
    }
  }

  /** Routes holding exactly the given (shard, index) pairs. */
  ghost predicate RoutesFrom(indexes: map<string, IndexRoute>, placement: PlacementRules,
                             facts: set<(string, string)>) {
    && (forall n :: n in indexes ==>
          && indexes[n].shards != {}
          && indexes[n].ruled == RuledShards(placement, n)
          && forall s :: s in indexes[n].shards <==> (s, n) in facts)
    && (forall p :: p in facts ==> p.1 in indexes)
  }

  function AddRoute(indexes: map<string, IndexRoute>, placement: PlacementRules, shard: string,
                    n: string): map<string, IndexRoute> {
    var shards := if n in indexes then indexes[n].shards else {};
    indexes[n := IndexRoute(shards + {shard}, if n in indexes then indexes[n].ruled else RuledShards(placement, n))]
  }

  lemma {:induction false} RouteAdded(indexes: map<string, IndexRoute>, placement: PlacementRules,
                                      facts: set<(string, string)>, shard: string, n: string)
    requires RoutesFrom(indexes, placement, facts)
    ensures RoutesFrom(AddRoute(indexes, placement, shard, n), placement, facts + {(shard, n)})
  {
  }

  ghost predicate ServedBy(backends: map<string, Backend>, done: set<string>, shard: string, index: string) {
    exists id :: id in done && id in backends && backends[id].endpoint.shard == shard && backends[id].Serves(index)
  }

  /** Backends may be visited in any order: a route is a set of shards. */
  method CollectRoutes(backends: map<string, Backend>,
                       placement: PlacementRules) returns (indexes: map<string, IndexRoute>)
    ensures RoutesOf(indexes, backends, placement)
  {
    indexes := map[];
    var todo := backends.Keys;
    ghost var done: set<string>, facts: set<(string, string)> := {}, {};
    while todo != {}
      invariant todo + done == backends.Keys
      invariant RoutesFrom(indexes, placement, facts)
      invariant forall s, n :: (s, n) in facts <==> ServedBy(backends, done, s, n)
      decreases todo
    {
      var id :| id in todo;
      ghost var before := facts;
      if backends[id].Routable() {
        indexes, facts := AddBackend(backends[id], placement, indexes, facts);
      }
      forall s, n ensures (s, n) in facts <==> ServedBy(backends, done + {id}, s, n) {
        assert (s, n) in before <==> ServedBy(backends, done, s, n);
      }
      done := done + {id};
      todo := todo - {id};
    }
    forall s, n ensures (s, n) in facts <==> Hosts(backends, s, n) {
    }
    forall id, n | id in backends && backends[id].Serves(n) ensures n in indexes {
      assert (backends[id].endpoint.shard, n) in facts;
    }
  }

  method AddBackend(b: Backend, placement: PlacementRules, before: map<string, IndexRoute>,
                    ghost facts: set<(string, string)>)
    returns (indexes: map<string, IndexRoute>, ghost after: set<(string, string)>)
    requires RoutesFrom(before, placement, facts)
    ensures RoutesFrom(indexes, placement, after)
    ensures forall s, n :: (s, n) in after <==> (s, n) in facts || (s == b.endpoint.shard && n in b.know.indexes)
  {
    indexes, after := before, facts;
    var names := b.know.indexes;
    for k := 0 to |names|
      invariant RoutesFrom(indexes, placement, after)
      invariant forall s, n :: (s, n) in after <==> (s, n) in facts || (s == b.endpoint.shard && n in names[..k])
    {
      RouteAdded(indexes, placement, after, b.endpoint.shard, names[k]);
      indexes := AddRoute(indexes, placement, b.endpoint.shard, names[k]);
      after := after + {(b.endpoint.shard, names[k])};
      assert names[..k + 1] == names[..k] + [names[k]];
    }
    assert names[..|names|] == names;
  }
}
