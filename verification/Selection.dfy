/** Picking backends on a snapshot: reads rotate over the replicas of the shard
    hosting the index, writes go to the shard's one master. */
module Selection {
  import opened Sorting
  import opened Placement
  import opened Outcomes
  import opened Topology

  // ---- the shard of an unpartitioned index ----

  predicate IsFirst(s: set<string>, x: string) {
    x in s && forall y :: y in s ==> LexLe(x, y)
  }

  lemma {:induction false} FindFirst(s: set<string>) returns (x: string)
    requires s != {}
    ensures IsFirst(s, x)
  {
    x :| x in s;
    LexTotal(x, x);
    if s != {x} {
      var z := FindFirst(s - {x});
      LexTotal(x, z);
      ExtendFirst(s, x, z);
      x := if LexLe(x, z) then x else z;
    }
  }

  lemma {:induction false} ExtendFirst(s: set<string>, x: string, z: string)
    requires x in s && IsFirst(s - {x}, z) && LexLe(x, x)
    ensures LexLe(x, z) ==> IsFirst(s, x)
    ensures LexLe(z, x) ==> IsFirst(s, z)
  {
    forall y | y in s && LexLe(x, z) ensures LexLe(x, y) {
      if y != x {
        assert y in s - {x};
        LexTransitive(x, z, y);
      }
    }
    forall y | y in s && LexLe(z, x) ensures LexLe(z, y) {
      assert y == x || y in s - {x};
    }
  }

  /** Lexicographically first element. */
  function First(s: set<string>): (x: string)
    requires s != {}
    ensures x in s && forall y :: y in s ==> LexLe(x, y)
  {
    assert exists x :: x in s && IsFirst(s, x) by { var x := FindFirst(s); }
    LexIsTotalOrder();
    var x :| x in s && IsFirst(s, x);
    x
  }

  /** The shard a read goes to, and whether the choice was ambiguous. */
  function ReadShard(route: IndexRoute): (r: (string, bool))
    requires route.shards != {}
    ensures r.0 in route.shards && (!route.Partitioned() ==> (r.1 <==> route.Ambiguous()))
  {
    var ruled := route.RuledShard();
    if ruled.Some? && ruled.value in route.shards then (ruled.value, false)
    else (First(route.shards), |route.shards| > 1)
  }

  // ---- reads ----

  function Candidates(snap: Snapshot, index: string, shard: string): seq<string>
    requires shard in snap.shards
  {
    Filter(id => id in snap.backends && snap.backends[id].Serves(index), snap.shards[shard].members)
  }

  function HealthyOf(snap: Snapshot, ids: seq<string>): seq<string> {
    Filter(id => id in snap.backends && snap.backends[id].know.health == Healthy, ids)
  }

  function SelectReadOn(snap: Snapshot, index: string, shard: string, rotation: nat): Result<ReadSelection> {
    if shard !in snap.shards then Err(Internal)
    else
      var candidates := Candidates(snap, index, shard);
      var healthy := HealthyOf(snap, candidates);
      if healthy != [] then
        var id := healthy[rotation % |healthy|];
        FilterMember(id => id in snap.backends && snap.backends[id].know.health == Healthy, candidates, id);
        Ok(ReadSelection(snap.backends[id], false, false))
      else if candidates != [] then
        FilterMember(id => id in snap.backends && snap.backends[id].Serves(index),
                     snap.shards[shard].members, candidates[0]);
        Ok(ReadSelection(snap.backends[candidates[0]], true, false))
      else Err(Unavailable)
  }

  function SelectRead(snap: Snapshot, index: string, rotation: nat): Result<ReadSelection>
    requires forall n :: n in snap.indexes ==> snap.indexes[n].shards != {}
  {
    if index !in snap.indexes then Err(NotFound)
    else
      var (shard, ambiguous) := ReadShard(snap.indexes[index]);
      match SelectReadOn(snap, index, shard, rotation)
      case Ok(selection) => Ok(selection.(ambiguous := ambiguous))
      case Err(code) => Err(code)
  }

  lemma {:induction false} CandidatesAre(snap: Snapshot, index: string, shard: string, id: string)
    requires shard in snap.shards
    ensures id in Candidates(snap, index, shard) <==>
            id in snap.shards[shard].members && id in snap.backends && snap.backends[id].Serves(index)
    ensures id in HealthyOf(snap, Candidates(snap, index, shard)) <==>
            id in Candidates(snap, index, shard) && snap.backends[id].know.health == Healthy
  {
    FilterMember(id => id in snap.backends && snap.backends[id].Serves(index), snap.shards[shard].members, id);
    FilterMember(id => id in snap.backends && snap.backends[id].know.health == Healthy,
                 Candidates(snap, index, shard), id);
  }

  ghost predicate HasHealthyReplica(snap: Snapshot, index: string, shard: string) {
    exists id :: id in snap.backends && snap.backends[id].endpoint.shard == shard
              && snap.backends[id].Serves(index) && snap.backends[id].know.health == Healthy
  }

  /** On a shard: a read finds a replica exactly when one hosts the index; the
      replica it finds is ready, not evicted, lists the index and lives on that
      shard, and it is a healthy one whenever there is one. */
  lemma {:induction false} ReadOnShard(snap: Snapshot, placement: PlacementRules, index: string, shard: string,
                                       rotation: nat)
    requires WellAssembled(snap, placement) && shard in snap.shards
    ensures var r := SelectReadOn(snap, index, shard, rotation);
            && (r.Ok? <==> Hosts(snap.backends, shard, index))
            && (r.Err? ==> r.code == Unavailable)
            && (r.Ok? ==>
                  && r.value.backend in snap.backends.Values
                  && r.value.backend.Serves(index) && r.value.backend.endpoint.shard == shard
                  && (r.value.stale <==> !HasHealthyReplica(snap, index, shard))
                  && (r.value.stale <==> r.value.backend.know.health == Suspect))
  {
    var candidates := Candidates(snap, index, shard);
    var healthy := HealthyOf(snap, candidates);
    forall id
      ensures id in candidates <==>
                id in snap.backends && snap.backends[id].endpoint.shard == shard && snap.backends[id].Serves(index)
      ensures id in healthy <==> id in candidates && snap.backends[id].know.health == Healthy
    {
      CandidatesAre(snap, index, shard, id);
    }
    if healthy != [] {
      assert healthy[rotation % |healthy|] in healthy;
    } else {
      assert !HasHealthyReplica(snap, index, shard);
      if candidates != [] { assert candidates[0] in candidates; }
    }
  }

  lemma {:induction false} HostedShardIsKnown(snap: Snapshot, placement: PlacementRules, index: string, shard: string)
    requires WellAssembled(snap, placement) && Hosts(snap.backends, shard, index)
    ensures shard in snap.shards && index in snap.indexes && shard in snap.indexes[index].shards
  {
  }

  /** An unpartitioned read succeeds exactly when the index is in the snapshot,
      whatever the rotation. */
  lemma {:induction false} ReadSucceedsIffPresent(snap: Snapshot, placement: PlacementRules, index: string,
                                                  rotation: nat)
    requires WellAssembled(snap, placement)
    ensures var r := SelectRead(snap, index, rotation);
            && (r.Ok? <==> index in snap.indexes)
            && (r.Err? ==> r.code == NotFound)
            && (r.Ok? ==>
                  var shard := ReadShard(snap.indexes[index]).0;
                  && shard in snap.indexes[index].shards
                  && r.value.backend in snap.backends.Values
                  && r.value.backend.Serves(index) && r.value.backend.endpoint.shard == shard
                  && (HasHealthyReplica(snap, index, shard) ==> r.value.backend.know.health == Healthy))
  {
    if index in snap.indexes {
      var shard := ReadShard(snap.indexes[index]).0;
      HostedShardIsKnown(snap, placement, index, shard);
      ReadOnShard(snap, placement, index, shard, rotation);
    }
  }

  // ---- partitions ----

  function ReadableIn(shards: set<string>, partitions: seq<string>): seq<string> {
    Filter(s => s in shards, partitions)
  }

  function MissingIn(shards: set<string>, partitions: seq<string>): seq<string> {
    Filter(s => s !in shards, partitions)
  }

  datatype Availability = Availability(partitions: seq<string>, missing: seq<string>)

  function PartitionAvailability(snap: Snapshot, index: string): Result<Option<Availability>> {
    if index !in snap.indexes then Err(NotFound)
    else if !snap.indexes[index].Partitioned() then Ok(None)
    else
      var route := snap.indexes[index];
      Ok(Some(Availability(route.ruled, MissingIn(route.shards, route.ruled))))
  }

  /** The partitions of an index, all of which must be available. */
  function Partitions(snap: Snapshot, index: string): Result<Option<seq<string>>> {
    match PartitionAvailability(snap, index)
    case Err(code) => Err(code)
    case Ok(None) => Ok(None)
    case Ok(Some(a)) => if a.missing != [] then Err(Unavailable) else Ok(Some(a.partitions))
  }

  /** A partition is missing exactly when no read on its shard could succeed. */
  lemma {:induction false} PartitionMissingIffUnreadable(snap: Snapshot, placement: PlacementRules, index: string,
                                                         shard: string, rotation: nat)
    requires WellAssembled(snap, placement)
    requires PartitionAvailability(snap, index).Ok? && PartitionAvailability(snap, index).value.Some?
    requires shard in PartitionAvailability(snap, index).value.value.partitions
    ensures shard in PartitionAvailability(snap, index).value.value.missing
       <==> SelectReadOn(snap, index, shard, rotation).Err?
  {
    var route := snap.indexes[index];
    FilterMember(s => s !in route.shards, route.ruled, shard);
    if shard in snap.shards { ReadOnShard(snap, placement, index, shard, rotation); }
    if shard in route.shards { HostedShardIsKnown(snap, placement, index, shard); }
  }

  // ---- writes ----

  function ShardMaster(snap: Snapshot, shard: string): Result<Backend> {
    if shard !in snap.shards then Err(FailedPrecondition)
    else
      var group := snap.shards[shard];
      if |group.masters| == 1 then
        if group.masters[0] in snap.backends then Ok(snap.backends[group.masters[0]]) else Err(Internal)
      else if group.masters == [] && |group.members| == 1 then
        if group.members[0] !in snap.backends then Err(Internal)
        else if snap.backends[group.members[0]].endpoint.role == Some(Follower) then Err(FailedPrecondition)
        else Ok(snap.backends[group.members[0]])
      else Err(FailedPrecondition)
  }

  function MasterIfRoutable(snap: Snapshot, shard: string): Result<Backend> {
    match ShardMaster(snap, shard)
    case Err(code) => Err(code)
    case Ok(master) => if master.Routable() then Ok(master) else Err(Unavailable)
  }

  function SelectWrite(snap: Snapshot, index: string): Result<Backend>
    requires forall n :: n in snap.indexes ==> snap.indexes[n].shards != {}
  {
    if index !in snap.indexes then Err(NotFound)
    else
      var route := snap.indexes[index];
      var ruled := route.RuledShard();
      if |route.shards| == 1 then MasterIfRoutable(snap, First(route.shards))
      else if ruled.Some? && ruled.value in route.shards then MasterIfRoutable(snap, ruled.value)
      else Err(FailedPrecondition)
  }

  /** The one master of a shard: the only member labelled master, or the only
      member at all if nobody is labelled. */
  ghost predicate IsSoleMaster(snap: Snapshot, shard: string, id: string) {
    && id in snap.backends && snap.backends[id].endpoint.shard == shard
    && match snap.backends[id].endpoint.role
       case Some(Follower) => false
       case Some(Master) =>
         forall other ::
           (other in snap.backends && snap.backends[other].endpoint.shard == shard
            && snap.backends[other].endpoint.role == Some(Master)) ==> other == id
       case None =>
         forall other :: other in snap.backends && snap.backends[other].endpoint.shard == shard ==> other == id
  }

  lemma {:induction false} SingletonIff(ids: seq<string>, id: string)
    requires NoRepeats(ids)
    ensures ids == [id] <==> id in ids && forall other :: other in ids ==> other == id
  {
    if id in ids && forall other :: other in ids ==> other == id {
      assert ids[0] in ids;
      if |ids| > 1 { assert ids[1] in ids; }
    }
  }

  lemma {:induction false} MasterIff(snap: Snapshot, placement: PlacementRules, shard: string, id: string)
    requires WellAssembled(snap, placement)
    ensures ShardMaster(snap, shard).Ok? && ShardMaster(snap, shard).value.endpoint.id == id
       <==> IsSoleMaster(snap, shard, id)
    ensures ShardMaster(snap, shard).Ok? ==>
              var master := ShardMaster(snap, shard).value;
              master.endpoint.id in snap.backends && snap.backends[master.endpoint.id] == master
  {
    if shard in snap.shards {
      var group := snap.shards[shard];
      SingletonIff(group.masters, id);
      SingletonIff(group.members, id);
      if |group.masters| == 1 {
        SingletonIff(group.masters, group.masters[0]);
        assert group.masters[0] in group.masters;
      }
      if |group.members| == 1 { assert group.members[0] in group.members; }
      if group.masters != [] { assert group.masters[0] in group.masters; }
    }
  }

  /** The writable shard, if the index has one, is the shard reads use. */
  lemma {:induction false} WriteShardIsReadShard(snap: Snapshot, index: string)
    requires forall n :: n in snap.indexes ==> snap.indexes[n].shards != {}
    requires index in snap.indexes
    ensures var (shard, ambiguous) := ReadShard(snap.indexes[index]);
            SelectWrite(snap, index) == if ambiguous then Err(FailedPrecondition) else MasterIfRoutable(snap, shard)
  {
    var route := snap.indexes[index];
    if |route.shards| == 1 { OnlyShard(route.shards, First(route.shards)); }
    assert |route.shards| > 0;
  }

  /** A write is accepted exactly when the index has one writable shard (its
      only shard, or the one its rule pins) with a routable sole master. */
  lemma {:induction false} WriteAcceptedIff(snap: Snapshot, placement: PlacementRules, index: string, id: string)
    requires WellAssembled(snap, placement)
    ensures SelectWrite(snap, index).Ok? && SelectWrite(snap, index).value.endpoint.id == id
       <==> && index in snap.indexes && !ReadShard(snap.indexes[index]).1
            && IsSoleMaster(snap, ReadShard(snap.indexes[index]).0, id) && snap.backends[id].Routable()
  {
    if index in snap.indexes {
      WriteShardIsReadShard(snap, index);
      MasterIff(snap, placement, ReadShard(snap.indexes[index]).0, id);
    }
  }

  lemma {:induction false} OnlyShard(shards: set<string>, s: string)
    requires |shards| == 1 && s in shards
    ensures shards == {s}
  {
    assert |shards - {s}| == 0;
  }

  // ---- placing a new index ----

  ghost function Hosted(snap: Snapshot, shard: string): set<string> {
    set n | n in snap.indexes && shard in snap.indexes[n].shards
  }

  ghost function HostedIn(snap: Snapshot, shard: string, done: set<string>): set<string> {
    set n | n in done && n in snap.indexes && shard in snap.indexes[n].shards
  }

  /** The default placement: the shard hosting the fewest indexes, the
      lexicographically first of them on a tie. */
  method LeastLoadedShard(snap: Snapshot) returns (best: Option<string>)
    ensures best.None? <==> snap.shards.Keys == {}
    ensures best.Some? ==>
              && best.value in snap.shards
              && forall s :: s in snap.shards ==>
                   |Hosted(snap, best.value)| < |Hosted(snap, s)|
                   || (|Hosted(snap, best.value)| == |Hosted(snap, s)| && LexLe(best.value, s))
  {
    var counts := CountHosted(snap);
    best := None;
    var todo := counts.Keys;
    while todo != {}
      invariant todo <= counts.Keys
      invariant best.None? ==> todo == counts.Keys
      invariant best.Some? ==> best.value in counts && best.value !in todo
      invariant best.Some? ==>
                  forall s :: s in counts && s !in todo ==>
                    counts[best.value] < counts[s] || (counts[best.value] == counts[s] && LexLe(best.value, s))
      decreases todo
    {
      var s :| s in todo;
      LexIsTotalOrder();
      if best.None? || counts[s] < counts[best.value] || (counts[s] == counts[best.value] && LexLe(s, best.value)) {
        best := Some(s);
      }
      todo := todo - {s};
    }
  }

  ghost function HostedCount(snap: Snapshot, shard: string, done: set<string>): nat {
    |HostedIn(snap, shard, done)|
  }

  method CountHosted(snap: Snapshot) returns (counts: map<string, nat>)
    ensures counts.Keys == snap.shards.Keys
    ensures forall s :: s in counts ==> counts[s] == |Hosted(snap, s)|
  {
    counts := map s | s in snap.shards :: 0;
    var todo := snap.indexes.Keys;
    ghost var done: set<string> := {};
    while todo != {}
      invariant todo !! done && todo + done == snap.indexes.Keys
      invariant counts.Keys == snap.shards.Keys
      invariant CountsOf(snap, counts, done)
      decreases todo
    {
      var n :| n in todo;
      CountStep(snap, counts, done, n);
      counts := AddOne(counts, snap.indexes[n].shards);
      todo := todo - {n};
      done := done + {n};
    }
    forall s | s in counts ensures counts[s] == |Hosted(snap, s)| {
      assert HostedIn(snap, s, done) == Hosted(snap, s);
    }
  }

  function AddOne(counts: map<string, nat>, shards: set<string>): (r: map<string, nat>)
    ensures r.Keys == counts.Keys
    ensures forall s :: s in counts ==> r[s] == counts[s] + (if s in shards then 1 else 0)
  {
    map s | s in counts :: counts[s] + (if s in shards then 1 else 0)
  }

  ghost predicate CountsOf(snap: Snapshot, counts: map<string, nat>, done: set<string>) {
    forall s :: s in counts ==> counts[s] == HostedCount(snap, s, done)
  }

  lemma {:induction false} CountStep(snap: Snapshot, counts: map<string, nat>, done: set<string>, n: string)
    requires n !in done && n in snap.indexes && CountsOf(snap, counts, done)
    ensures CountsOf(snap, AddOne(counts, snap.indexes[n].shards), done + {n})
  {
    HostedStep(snap, done, n);
  }

  lemma {:induction false} HostedStep(snap: Snapshot, done: set<string>, n: string)
    requires n !in done && n in snap.indexes
    ensures forall s :: HostedCount(snap, s, done + {n})
                     == HostedCount(snap, s, done) + (if s in snap.indexes[n].shards then 1 else 0)
  {
    forall s ensures HostedCount(snap, s, done + {n})
                  == HostedCount(snap, s, done) + (if s in snap.indexes[n].shards then 1 else 0)
    {
      var more := if s in snap.indexes[n].shards then {n} else {};
      assert HostedIn(snap, s, done + {n}) == HostedIn(snap, s, done) + more;
    }
  }
}
