/** Where a request for an index goes: one backend, or one per partition with
    the partitions a partial read leaves out. */
module Routes {
  import opened Sorting
  import opened Placement
  import opened Outcomes
  import opened Topology
  import opened Selection

  datatype Target = Target(shard: string, backend: string)

  datatype Route = Single(target: Target) | Partitioned(targets: seq<Target>, missing: seq<string>) {
    function Targets(): seq<Target> {
      if Single? then [target] else targets
    }

    function Missing(): seq<string> {
      if Single? then [] else missing
    }

    /** The same read without the partitions on `lost` shards. */
    function Without(lost: seq<string>): Route {
      if Partitioned? && lost != []
      then Partitioned(Filter((t: Target) => t.shard !in lost, targets), missing + lost)
      else this
    }
  }

  function ShardsOf(targets: seq<Target>): (r: seq<string>)
    ensures |r| == |targets| && forall i :: 0 <= i < |targets| ==> r[i] == targets[i].shard
  {
    seq(|targets|, i requires 0 <= i < |targets| => targets[i].shard)
  }

  /** Each partition is counted exactly once, as a target or as missing, and
      there is a target. */
  ghost predicate Covers(route: Route, partitions: seq<string>) {
    && multiset(ShardsOf(route.Targets())) + multiset(route.Missing()) == multiset(partitions)
    && route.Targets() != [] && NoRepeats(ShardsOf(route.Targets()))
  }

  lemma {:induction false} ShardsOfAppend(a: seq<Target>, b: seq<Target>)
    ensures ShardsOf(a + b) == ShardsOf(a) + ShardsOf(b)
  {
  }

  lemma {:induction false} FilterSplit(p: string -> bool, s: seq<string>)
    ensures multiset(Filter(x => !p(x), s)) + multiset(Filter(p, s)) == multiset(s)
  {
    if s != [] {
      FilterSplit(p, s[1..]);
      TailMultiset(s);
    }
  }

  // ---- reads ----

  ghost predicate ServesTarget(snap: Snapshot, index: string, t: Target) {
    && t.backend in snap.backends && snap.backends[t.backend].Serves(index)
    && snap.backends[t.backend].endpoint.shard == t.shard
  }

  ghost predicate AllServe(snap: Snapshot, index: string, targets: seq<Target>) {
    forall i :: 0 <= i < |targets| ==> ServesTarget(snap, index, targets[i])
  }

  /** What a read over these partitions resolves to. */
  ghost predicate ReadResolved(snap: Snapshot, index: string, partitions: seq<string>, r: Result<Route>)
    requires index in snap.indexes
  {
    var shards := snap.indexes[index].shards;
    match r
    case Err(code) => code == Unavailable && ReadableIn(shards, partitions) == []
    case Ok(route) =>
      && route.Partitioned? && route.targets != []
      && ShardsOf(route.targets) == ReadableIn(shards, partitions)
      && route.missing == MissingIn(shards, partitions)
      && AllServe(snap, index, route.targets)
  }

  /** Resolve a read. A partitioned read has one target per readable partition,
      in rule order, each a replica that serves the index on that shard; the
      unreadable partitions fail a strict read and are the missing ones of a
      partial read, which fails only when nothing is readable. */
  method ReadRoute(snap: Snapshot, ghost placement: PlacementRules, index: string, partial: bool, rotation: nat)
    returns (r: Result<Route>)
    requires WellAssembled(snap, placement)
    ensures r == Err(NotFound) <==> index !in snap.indexes
    ensures index in snap.indexes && !snap.indexes[index].Partitioned() ==>
              r.Ok? && r.value.Single? && ServesTarget(snap, index, r.value.target)
    ensures index in snap.indexes && snap.indexes[index].Partitioned() ==>
              var route := snap.indexes[index];
              if !partial && MissingIn(route.shards, route.ruled) != [] then r == Err(Unavailable)
              else ReadResolved(snap, index, route.ruled, r)
  {
    match PartitionAvailability(snap, index) {
      case Err(code) =>
        r := Err(code);
      case Ok(None) =>
        ReadSucceedsIffPresent(snap, placement, index, rotation);
        var selection := SelectRead(snap, index, rotation).value;
        r := Ok(Route.Single(Target(selection.backend.endpoint.shard, selection.backend.endpoint.id)));
      case Ok(Some(availability)) =>
        if !partial && Partitions(snap, index).Err? {
          return Err(Partitions(snap, index).code);
        }
        r := PartitionedRoute(snap, placement, index, availability, rotation);
    }
  }

  ghost predicate Selectable(snap: Snapshot, index: string, shard: string, rotation: nat) {
    var r := SelectReadOn(snap, index, shard, rotation);
    r.Ok? && ServesTarget(snap, index, Target(shard, r.value.backend.endpoint.id))
  }

  method PartitionedRoute(snap: Snapshot, ghost placement: PlacementRules, index: string,
                          availability: Availability, rotation: nat)
    returns (r: Result<Route>)
    requires WellAssembled(snap, placement)
    requires PartitionAvailability(snap, index) == Ok(Some(availability))
    ensures ReadResolved(snap, index, availability.partitions, r)
  {
    forall shard, k: nat | shard in snap.indexes[index].shards ensures Selectable(snap, index, shard, k) {
      SelectedServes(snap, placement, index, shard, k);
    }
    r := ResolvePartitions(snap, index, snap.indexes[index].shards, availability, rotation);
  }

  method ResolvePartitions(snap: Snapshot, index: string, ghost shards: set<string>, availability: Availability,
                           rotation: nat)
    returns (r: Result<Route>)
    requires forall shard, k: nat :: shard in shards ==> Selectable(snap, index, shard, k)
    requires availability.missing == MissingIn(shards, availability.partitions)
    ensures match r
            case Err(code) => code == Unavailable && ReadableIn(shards, availability.partitions) == []
            case Ok(route) =>
              && route.Partitioned? && route.targets != []
              && ShardsOf(route.targets) == ReadableIn(shards, availability.partitions)
              && route.missing == MissingIn(shards, availability.partitions)
              && AllServe(snap, index, route.targets)
  {
    var partitions := availability.partitions;
    var targets: seq<Target>, missing: seq<string> := [], [];
    for i := 0 to |partitions|
      invariant ShardsOf(targets) == ReadableIn(shards, partitions[..i])
      invariant missing == MissingIn(shards, partitions[..i])
      invariant AllServe(snap, index, targets)
    {
      var shard := partitions[i];
      SplitStep(shards, partitions, i);
      if shard in availability.missing {
        missing := missing + [shard];
      } else {
        assert Selectable(snap, index, shard, rotation + i);
        var selection := SelectReadOn(snap, index, shard, rotation + i).value;
        var target := Target(shard, selection.backend.endpoint.id);
        ShardsOfAppend(targets, [target]);
        targets := targets + [target];
      }
    }
    assert partitions[..|partitions|] == partitions;
    r := if targets == [] then Err(Unavailable) else Ok(Partitioned(targets, missing));
  }

  lemma {:induction false} SplitStep(shards: set<string>, partitions: seq<string>, i: nat)
    requires i < |partitions|
    ensures partitions[i] in MissingIn(shards, partitions) <==> partitions[i] !in shards
    ensures var shard := partitions[i];
            && ReadableIn(shards, partitions[..i + 1])
               == ReadableIn(shards, partitions[..i]) + (if shard in shards then [shard] else [])
            && MissingIn(shards, partitions[..i + 1])
               == MissingIn(shards, partitions[..i]) + (if shard in shards then [] else [shard])
  {
    FilterMember(s => s !in shards, partitions, partitions[i]);
    assert partitions[..i + 1] == partitions[..i] + [partitions[i]];
    FilterAppend(s => s in shards, partitions[..i], [partitions[i]]);
    FilterAppend(s => s !in shards, partitions[..i], [partitions[i]]);
  }

  lemma {:induction false} SelectedServes(snap: Snapshot, placement: PlacementRules, index: string, shard: string,
                                          rotation: nat)
    requires WellAssembled(snap, placement) && index in snap.indexes && shard in snap.indexes[index].shards
    ensures var r := SelectReadOn(snap, index, shard, rotation);
            r.Ok? && ServesTarget(snap, index, Target(shard, r.value.backend.endpoint.id))
  {
    HostedShardIsKnown(snap, placement, index, shard);
    ReadOnShard(snap, placement, index, shard, rotation);
  }

  /** A resolved partitioned read covers its rule's partitions. */
  lemma {:induction false} ReadRouteCovers(route: Route, index: IndexRoute)
    requires route.Partitioned? && route.targets != [] && NoRepeats(index.ruled)
    requires ShardsOf(route.targets) == ReadableIn(index.shards, index.ruled)
    requires route.missing == MissingIn(index.shards, index.ruled)
    ensures Covers(route, index.ruled)
  {
    var p := (s: string) => s !in index.shards;
    FilterSplit(p, index.ruled);
    FilterSame(s => s in index.shards, x => !p(x), index.ruled);
    FilterNoRepeats(s => s in index.shards, index.ruled);
  }

  lemma {:induction false} FilterNoRepeats(p: string -> bool, s: seq<string>)
    requires NoRepeats(s)
    ensures NoRepeats(Filter(p, s))
  {
    if s != [] {
      FilterNoRepeats(p, s[1..]);
      FilterMember(p, s[1..], s[0]);
    }
  }

  lemma {:induction false} FilterSame(p: string -> bool, q: string -> bool, s: seq<string>)
    requires forall x :: x in s ==> p(x) == q(x)
    ensures Filter(p, s) == Filter(q, s)
  {
    if s != [] { FilterSame(p, q, s[1..]); }
  }

  // ---- writes ----

  /** The shard has a routable sole master. */
  ghost predicate HasMaster(snap: Snapshot, shard: string) {
    exists id :: IsWriteTarget(snap, Target(shard, id))
  }

  /** An index takes writes when all its partitions are present with a master,
      or, unpartitioned, when it has one writable shard with a master. */
  ghost predicate Writable(snap: Snapshot, index: string)
    requires index in snap.indexes ==> snap.indexes[index].shards != {}
  {
    && index in snap.indexes
    && var route := snap.indexes[index];
       if route.Partitioned() then
         && MissingIn(route.shards, route.ruled) == []
         && forall i :: 0 <= i < |route.ruled| ==> HasMaster(snap, route.ruled[i])
       else
         !ReadShard(route).1 && HasMaster(snap, ReadShard(route).0)
  }

  lemma {:induction false} MasterFoundIff(snap: Snapshot, placement: PlacementRules, shard: string)
    requires WellAssembled(snap, placement)
    ensures var master := MasterIfRoutable(snap, shard);
            && (master.Ok? <==> HasMaster(snap, shard))
            && (master.Ok? ==> IsWriteTarget(snap, Target(shard, master.value.endpoint.id)))
  {
    var master := MasterIfRoutable(snap, shard);
    if master.Ok? {
      MasterIff(snap, placement, shard, master.value.endpoint.id);
      assert IsWriteTarget(snap, Target(shard, master.value.endpoint.id));
    }
    if HasMaster(snap, shard) {
      var id :| IsWriteTarget(snap, Target(shard, id));
      MasterIff(snap, placement, shard, id);
      assert ShardMaster(snap, shard) == Ok(snap.backends[id]);
    }
  }

  lemma {:induction false} WriteFoundIff(snap: Snapshot, placement: PlacementRules, index: string)
    requires WellAssembled(snap, placement) && index in snap.indexes
    ensures var shard, write := ReadShard(snap.indexes[index]).0, SelectWrite(snap, index);
            && (write.Ok? <==> !ReadShard(snap.indexes[index]).1 && HasMaster(snap, shard))
            && (write.Ok? ==>
                  && write.value.endpoint.shard == shard
                  && IsWriteTarget(snap, Target(shard, write.value.endpoint.id)))
  {
    var shard := ReadShard(snap.indexes[index]).0;
    WriteShardIsReadShard(snap, index);
    MasterFoundIff(snap, placement, shard);
    if MasterIfRoutable(snap, shard).Ok? {
      MasterIff(snap, placement, shard, MasterIfRoutable(snap, shard).value.endpoint.id);
    }
  }

  /** Resolve a write: every partition must be present, and each target is its
      shard's routable sole master. */
  method WriteRoute(snap: Snapshot, ghost placement: PlacementRules, index: string) returns (r: Result<Route>)
    requires WellAssembled(snap, placement)
    ensures r.Ok? <==> Writable(snap, index)
    ensures r.Ok? ==> index in snap.indexes && r.value.Missing() == []
    ensures r.Ok? && snap.indexes[index].Partitioned() ==>
              r.value.Partitioned? && ShardsOf(r.value.targets) == snap.indexes[index].ruled
    ensures r.Ok? && !snap.indexes[index].Partitioned() ==>
              r.value.Single? && r.value.target.shard == ReadShard(snap.indexes[index]).0
    ensures r.Ok? ==> forall i :: 0 <= i < |r.value.Targets()| ==> IsWriteTarget(snap, r.value.Targets()[i])
  {
    match Partitions(snap, index) {
      case Err(code) =>
        r := Err(code);
      case Ok(None) =>
        r := SingleMaster(snap, placement, index);
      case Ok(Some(partitions)) =>
        r := PartitionMasters(snap, placement, partitions);
    }
  }

  method SingleMaster(snap: Snapshot, ghost placement: PlacementRules, index: string) returns (r: Result<Route>)
    requires WellAssembled(snap, placement) && index in snap.indexes
    ensures r.Ok? <==> !ReadShard(snap.indexes[index]).1 && HasMaster(snap, ReadShard(snap.indexes[index]).0)
    ensures r.Ok? ==> r.value.Single? && r.value.target.shard == ReadShard(snap.indexes[index]).0
    ensures r.Ok? ==> IsWriteTarget(snap, r.value.target)
  {
    var master := SelectWrite(snap, index);
    WriteFoundIff(snap, placement, index);
    if master.Err? {
      return Err(master.code);
    }
    r := Ok(Route.Single(Target(master.value.endpoint.shard, master.value.endpoint.id)));
  }

  method PartitionMasters(snap: Snapshot, ghost placement: PlacementRules,
                          partitions: seq<string>) returns (r: Result<Route>)
    requires WellAssembled(snap, placement)
    ensures r.Ok? <==> forall i :: 0 <= i < |partitions| ==> HasMaster(snap, partitions[i])
    ensures r.Ok? ==> r.value.Partitioned? && ShardsOf(r.value.targets) == partitions && r.value.missing == []
    ensures r.Ok? ==> forall i :: 0 <= i < |r.value.targets| ==> IsWriteTarget(snap, r.value.targets[i])
  {
    var targets: seq<Target> := [];
    for i := 0 to |partitions|
      invariant ShardsOf(targets) == partitions[..i]
      invariant forall j :: 0 <= j < |targets| ==> IsWriteTarget(snap, targets[j])
      invariant forall j :: 0 <= j < i ==> HasMaster(snap, partitions[j])
    {
      var master := MasterIfRoutable(snap, partitions[i]);
      MasterFoundIff(snap, placement, partitions[i]);
      if master.Err? {
        return Err(master.code);
      }
      var target := Target(partitions[i], master.value.endpoint.id);
      ShardsOfAppend(targets, [target]);
      assert partitions[..i + 1] == partitions[..i] + [partitions[i]];
      targets := targets + [target];
    }
    r := Ok(Partitioned(targets, []));
  }

  ghost predicate IsWriteTarget(snap: Snapshot, t: Target) {
    IsSoleMaster(snap, t.shard, t.backend) && snap.backends[t.backend].Routable()
  }
}
