/** Global fusion: the shards' exported branch lists are assembled into one
    list per branch, ranked, fused, and hydrated from the shards' hits. */
module Fusion {
  import opened Outcomes
  import opened Sorting
  import SearchMerge

  datatype Address = Address(segment: nat, doc: nat)

  /** A hydrated hit; no address stands for a missing or malformed one. */
  datatype Hit = Hit(address: Option<Address>, score: int, ordinals: seq<(nat, int)>, payload: nat)

  /** A nominated candidate; finite says that all its scores are. */
  datatype Candidate = Candidate(address: Option<Address>, score: int, finite: bool, ordinals: seq<(nat, int)>)

  datatype Branch = Branch(index: nat, candidates: seq<Candidate>)

  datatype ShardResponse = ShardResponse(hits: seq<Hit>, branches: seq<Branch>)

  /** A ranked result of a branch, or of their fusion. */
  datatype Entry = Entry(address: Address, score: int, ordinals: seq<(nat, int)>)

  datatype Assembly = Assembly(lists: seq<seq<Entry>>, hits: map<Address, Hit>)

  // ---- what a shard response must satisfy ----

  ghost predicate Fresh(hits: seq<Hit>, taken: set<Address>) {
    && (forall i :: 0 <= i < |hits| ==> hits[i].address.Some? && hits[i].address.value !in taken)
    && (forall i, j :: 0 <= i < j < |hits| ==> hits[i].address != hits[j].address)
  }

  ghost function Addresses(hits: seq<Hit>): set<Address> {
    set i | 0 <= i < |hits| && hits[i].address.Some? :: hits[i].address.value
  }

  /** Every hit is filed under its address, and nothing else was added. */
  ghost predicate Filed(after: map<Address, Hit>, before: map<Address, Hit>, hits: seq<Hit>) {
    && after.Keys == before.Keys + Addresses(hits)
    && (forall a :: a in before && a !in Addresses(hits) ==> after[a] == before[a])
    && forall i :: 0 <= i < |hits| ==> hits[i].address.Some? && after[hits[i].address.value] == hits[i]
  }

  ghost predicate ValidBranch(candidates: seq<Candidate>, local: set<Address>) {
    && (forall i :: 0 <= i < |candidates| ==>
          candidates[i].address.Some? && candidates[i].address.value in local && candidates[i].finite)
    && (forall i, j :: 0 <= i < j < |candidates| ==> candidates[i].address != candidates[j].address)
  }

  function EntryOf(candidate: Candidate): Entry {
    Entry(if candidate.address.Some? then candidate.address.value else Address(0, 0),
          candidate.score, candidate.ordinals)
  }

  function EntriesOf(candidates: seq<Candidate>): (r: seq<Entry>)
    ensures |r| == |candidates| && forall i :: 0 <= i < |r| ==> r[i] == EntryOf(candidates[i])
  {
    if candidates == [] then []
    else EntriesOf(candidates[..|candidates| - 1]) + [EntryOf(candidates[|candidates| - 1])]
  }

  /** The candidates a shard nominates for a branch. */
  function Nominated(branches: seq<Branch>, b: nat): seq<Candidate> {
    if branches == [] then []
    else
      var last := branches[|branches| - 1];
      if last.index == b then last.candidates else Nominated(branches[..|branches| - 1], b)
  }

  /** Different known branches, each valid. */
  ghost predicate KnownBranches(branches: seq<Branch>, local: set<Address>, n: nat) {
    && (forall i :: 0 <= i < |branches| ==> branches[i].index < n && ValidBranch(branches[i].candidates, local))
    && (forall i, j :: 0 <= i < j < |branches| ==> branches[i].index != branches[j].index)
  }

  ghost predicate ValidBranches(branches: seq<Branch>, local: set<Address>, n: nat) {
    KnownBranches(branches, local, n) && |branches| == n
  }

  /** The hits of one response join the union, unless an address is missing or
      already there. */
  method TakeHits(hits: seq<Hit>, before: map<Address, Hit>) returns (r: Result<map<Address, Hit>>, local: set<Address>)
    ensures r.Ok? <==> Fresh(hits, before.Keys)
    ensures r.Ok? ==> local == Addresses(hits) && Filed(r.value, before, hits)
    ensures r.Err? ==> r.code == FailedPrecondition
  {
    var after := before;
    local := {};
    for i := 0 to |hits|
      invariant Fresh(hits[..i], before.Keys) && local == Addresses(hits[..i]) && Filed(after, before, hits[..i])
    {
      assert hits[..i + 1] == hits[..i] + [hits[i]];
      if hits[i].address.None? { return Err(FailedPrecondition), local; }
      var address := hits[i].address.value;
      if address in after {
        NotFresh(hits, before.Keys, i);
        return Err(FailedPrecondition), local;
      }
      FileOne(hits[..i], hits[i], after, before);
      local := local + {address};
      after := after[address := hits[i]];
    }
    assert hits[..|hits|] == hits;
    r := Ok(after);
  }

  lemma {:induction false} NotFresh(hits: seq<Hit>, taken: set<Address>, i: nat)
    requires i < |hits| && hits[i].address.Some? && hits[i].address.value in taken + Addresses(hits[..i])
    ensures !Fresh(hits, taken)
  {
    if hits[i].address.value !in taken {
      var j :| 0 <= j < i && hits[..i][j].address == hits[i].address;
      assert hits[j].address == hits[i].address;
    }
  }

  lemma {:induction false} FileOne(front: seq<Hit>, hit: Hit, after: map<Address, Hit>, before: map<Address, Hit>)
    requires Fresh(front, before.Keys) && Filed(after, before, front) && hit.address.Some?
             && hit.address.value !in after
    ensures Fresh(front + [hit], before.Keys) && Addresses(front + [hit]) == Addresses(front) + {hit.address.value}
    ensures Filed(after[hit.address.value := hit], before, front + [hit])
  {
    var hits := front + [hit];
    forall i | 0 <= i < |front| ensures hits[i].address != hit.address {
      assert front[i].address.value in Addresses(front);
    }
    assert hits[|front|] == hit;
    assert forall i :: 0 <= i < |front| ==> hits[i] == front[i];
  }

  ghost predicate Nominees(seen: set<Address>, candidates: seq<Candidate>) {
    forall a :: a in seen <==> exists k :: 0 <= k < |candidates| && candidates[k].address == Some(a)
  }

  /** The candidates of one branch, unless one is repeated, not hydrated by its
      shard, or not finite. */
  method TakeBranch(candidates: seq<Candidate>, local: set<Address>) returns (r: Result<seq<Entry>>)
    ensures r.Ok? <==> ValidBranch(candidates, local)
    ensures r.Ok? ==> r.value == EntriesOf(candidates)
    ensures r.Err? ==> r.code == FailedPrecondition
  {
    var entries: seq<Entry>, seen: set<Address> := [], {};
    for i := 0 to |candidates|
      invariant ValidBranch(candidates[..i], local) && Nominees(seen, candidates[..i])
                && entries == EntriesOf(candidates[..i])
    {
      var candidate := candidates[i];
      assert candidates[..i + 1] == candidates[..i] + [candidate];
      if candidate.address.None? { return Err(FailedPrecondition); }
      var address := candidate.address.value;
      if address in seen {
        Repeated(candidates, i, seen, local);
        return Err(FailedPrecondition);
      }
      if address !in local || !candidate.finite { return Err(FailedPrecondition); }
      BranchStep(candidates[..i], candidate, local, seen);
      seen := seen + {address};
      entries := entries + [EntryOf(candidate)];
    }
    assert candidates[..|candidates|] == candidates;
    r := Ok(entries);
  }

  lemma {:induction false} Repeated(candidates: seq<Candidate>, i: nat, seen: set<Address>, local: set<Address>)
    requires i < |candidates| && candidates[i].address.Some? && candidates[i].address.value in seen
             && Nominees(seen, candidates[..i])
    ensures !ValidBranch(candidates, local)
  {
    var k :| 0 <= k < i && candidates[..i][k].address == candidates[i].address;
    assert candidates[k].address == candidates[i].address;
  }

  lemma {:induction false} BranchStep(front: seq<Candidate>, last: Candidate, local: set<Address>, seen: set<Address>)
    requires ValidBranch(front, local) && Nominees(seen, front)
    requires last.address.Some? && last.address.value !in seen && last.address.value in local && last.finite
    ensures ValidBranch(front + [last], local) && Nominees(seen + {last.address.value}, front + [last])
    ensures EntriesOf(front + [last]) == EntriesOf(front) + [EntryOf(last)]
  {
    var all := front + [last];
    assert all[|front|] == last;
    assert forall k :: 0 <= k < |front| ==> all[k] == front[k];
    forall a | a in seen ensures exists k :: 0 <= k < |all| && all[k].address == Some(a) {
      var k :| 0 <= k < |front| && front[k].address == Some(a);
      assert all[k].address == Some(a);
    }
  }

  ghost predicate Appended(after: seq<seq<Entry>>, lists: seq<seq<Entry>>, branches: seq<Branch>) {
    |after| == |lists| && forall b :: 0 <= b < |lists| ==> after[b] == lists[b] + EntriesOf(Nominated(branches, b))
  }

  ghost predicate Seen(seen: set<nat>, branches: seq<Branch>) {
    && |seen| == |branches|
    && forall b :: b in seen <==> exists i :: 0 <= i < |branches| && branches[i].index == b
  }

  /** Each branch of one response extends its global list. */
  method TakeBranches(branches: seq<Branch>, local: set<Address>,
                      lists: seq<seq<Entry>>) returns (r: Result<seq<seq<Entry>>>)
    ensures r.Ok? <==> ValidBranches(branches, local, |lists|)
    ensures r.Ok? ==> Appended(r.value, lists, branches)
    ensures r.Err? ==> r.code == FailedPrecondition
  {
    var after, seen: set<nat> := lists, {};
    for i := 0 to |branches|
      invariant KnownBranches(branches[..i], local, |lists|) && Appended(after, lists, branches[..i])
      invariant Seen(seen, branches[..i])
    {
      var branch := branches[i];
      assert branches[..i + 1] == branches[..i] + [branch];
      if branch.index >= |lists| { return Err(FailedPrecondition); }
      if branch.index in seen {
        RepeatedBranch(branches, i, seen, local, |lists|);
        return Err(FailedPrecondition);
      }
      var entries := TakeBranch(branch.candidates, local);
      if entries.Err? { return Err(entries.code); }
      KnownStep(branches[..i], branch, local, |lists|, seen);
      AppendedStep(after, lists, branches[..i], branch, seen);
      seen := seen + {branch.index};
      after := after[branch.index := after[branch.index] + entries.value];
    }
    assert branches[..|branches|] == branches;
    if |seen| != |lists| { return Err(FailedPrecondition); }
    r := Ok(after);
  }

  lemma {:induction false} RepeatedBranch(branches: seq<Branch>, i: nat, seen: set<nat>, local: set<Address>, n: nat)
    requires i < |branches| && branches[i].index in seen && Seen(seen, branches[..i])
    ensures !KnownBranches(branches, local, n)
  {
    var k :| 0 <= k < i && branches[..i][k].index == branches[i].index;
    assert branches[k].index == branches[i].index;
  }

  lemma {:induction false} KnownStep(front: seq<Branch>, last: Branch, local: set<Address>, n: nat, seen: set<nat>)
    requires KnownBranches(front, local, n) && Seen(seen, front)
    requires last.index < n && last.index !in seen && ValidBranch(last.candidates, local)
    ensures KnownBranches(front + [last], local, n) && Seen(seen + {last.index}, front + [last])
  {
    var all := front + [last];
    assert all[|front|] == last;
    assert forall i :: 0 <= i < |front| ==> all[i] == front[i];
    forall b | b in seen + {last.index} ensures exists i :: 0 <= i < |all| && all[i].index == b {
      if b in seen {
        var i :| 0 <= i < |front| && front[i].index == b;
        assert all[i].index == b;
      }
    }
  }

  lemma {:induction false} AppendedStep(after: seq<seq<Entry>>, lists: seq<seq<Entry>>, front: seq<Branch>,
                                        last: Branch, seen: set<nat>)
    requires Appended(after, lists, front) && Seen(seen, front) && last.index < |lists| && last.index !in seen
    ensures Appended(after[last.index := after[last.index] + EntriesOf(last.candidates)], lists, front + [last])
  {
    assert (front + [last])[..|front|] == front;
    NotNominated(front, last.index);
  }

  lemma {:induction false} NotNominated(branches: seq<Branch>, b: nat)
    requires forall i :: 0 <= i < |branches| ==> branches[i].index != b
    ensures Nominated(branches, b) == []
  {
    if branches != [] { NotNominated(branches[..|branches| - 1], b); }
  }

  // ---- assembling all responses ----

  function AllHits(responses: seq<ShardResponse>): seq<Hit> {
    if responses == [] then [] else AllHits(responses[..|responses| - 1]) + responses[|responses| - 1].hits
  }

  /** The global list of a branch, before ranking. */
  function GlobalList(responses: seq<ShardResponse>, b: nat): seq<Entry> {
    if responses == [] then []
    else GlobalList(responses[..|responses| - 1], b) + EntriesOf(Nominated(responses[|responses| - 1].branches, b))
  }

  /** No address hydrated twice, and every response names every branch with
      distinct candidates of its own. */
  ghost predicate Accepted(responses: seq<ShardResponse>, n: nat) {
    && Fresh(AllHits(responses), {})
    && forall i :: 0 <= i < |responses| ==> ValidBranches(responses[i].branches, Addresses(responses[i].hits), n)
  }

  ghost predicate Assembled(assembly: Assembly, responses: seq<ShardResponse>, n: nat) {
    && |assembly.lists| == n && (forall b :: 0 <= b < n ==> assembly.lists[b] == GlobalList(responses, b))
    && Filed(assembly.hits, map[], AllHits(responses))
  }

  /** The response can join: its addresses are new and its branches valid. */
  ghost predicate Fits(response: ShardResponse, taken: set<Address>, n: nat) {
    Fresh(response.hits, taken) && ValidBranches(response.branches, Addresses(response.hits), n)
  }

  method TakeResponse(before: Assembly, response: ShardResponse) returns (r: Result<Assembly>)
    ensures r.Ok? <==> Fits(response, before.hits.Keys, |before.lists|)
    ensures r.Ok? ==> Appended(r.value.lists, before.lists, response.branches)
    ensures r.Ok? ==> Filed(r.value.hits, before.hits, response.hits)
    ensures r.Err? ==> r.code == FailedPrecondition
  {
    var hits, local := TakeHits(response.hits, before.hits);
    if hits.Err? { return Err(hits.code); }
    var lists := TakeBranches(response.branches, local, before.lists);
    if lists.Err? { return Err(lists.code); }
    r := Ok(Assembly(lists.value, hits.value));
  }

  /** Gather the lists and hits of all shards, or refuse the exchange. */
  method Assemble(responses: seq<ShardResponse>, n: nat) returns (r: Result<Assembly>)
    ensures r.Ok? <==> Accepted(responses, n)
    ensures r.Ok? ==> Assembled(r.value, responses, n)
    ensures r.Err? ==> r.code == FailedPrecondition
  {
    var assembly := Assembly(seq(n, _ => []), map[]);
    for i := 0 to |responses|
      invariant Accepted(responses[..i], n) && Assembled(assembly, responses[..i], n)
    {
      assert responses[..i + 1] == responses[..i] + [responses[i]];
      AcceptedStep(responses[..i], responses[i], n);
      var next := TakeResponse(assembly, responses[i]);
      if next.Err? {
        AcceptedFront(responses, i + 1, n);
        return Err(next.code);
      }
      AssembledStep(assembly, next.value, responses[..i], responses[i], n);
      assembly := next.value;
    }
    assert responses[..|responses|] == responses;
    r := Ok(assembly);
  }

  lemma {:induction false} FreshAppend(a: seq<Hit>, b: seq<Hit>)
    ensures Fresh(a + b, {}) <==> Fresh(a, {}) && Fresh(b, Addresses(a))
    ensures Addresses(a + b) == Addresses(a) + Addresses(b)
  {
    var s := a + b;
    assert forall i :: 0 <= i < |a| ==> s[i] == a[i];
    assert forall j :: 0 <= j < |b| ==> b[j] == s[|a| + j];
    if Fresh(s, {}) {
      forall j | 0 <= j < |b| ensures b[j].address.Some? && b[j].address.value !in Addresses(a) {
        assert s[|a| + j] == b[j];
      }
    }
    if Fresh(a, {}) && Fresh(b, Addresses(a)) {
      forall i, j | 0 <= i < j < |s| ensures s[i].address != s[j].address {
        if i < |a| <= j { assert a[i].address.value in Addresses(a); }
      }
    }
  }

  lemma {:induction false} AcceptedStep(front: seq<ShardResponse>, last: ShardResponse, n: nat)
    ensures Accepted(front + [last], n) <==>
              Accepted(front, n) && Fits(last, Addresses(AllHits(front)), n)
  {
    var all := front + [last];
    assert all[..|front|] == front && all[|front|] == last;
    assert forall i :: 0 <= i < |front| ==> all[i] == front[i];
    FreshAppend(AllHits(front), last.hits);
  }

  lemma {:induction false} AcceptedFront(responses: seq<ShardResponse>, k: nat, n: nat)
    requires k <= |responses|
    ensures Accepted(responses, n) ==> Accepted(responses[..k], n)
    decreases |responses| - k
  {
    if k == |responses| {
      assert responses[..k] == responses;
    } else {
      AcceptedFront(responses, k + 1, n);
      assert responses[..k + 1] == responses[..k] + [responses[k]];
      AcceptedStep(responses[..k], responses[k], n);
    }
  }

  lemma {:induction false} AssembledStep(before: Assembly, after: Assembly, front: seq<ShardResponse>,
                                         last: ShardResponse, n: nat)
    requires Accepted(front + [last], n) && Assembled(before, front, n)
    requires Appended(after.lists, before.lists, last.branches) && Filed(after.hits, before.hits, last.hits)
    ensures Assembled(after, front + [last], n)
  {
    assert (front + [last])[..|front|] == front;
    FreshAppend(AllHits(front), last.hits);
    FiledAppend(after.hits, before.hits, AllHits(front), last.hits);
  }

  lemma {:induction false} FiledAppend(after: map<Address, Hit>, before: map<Address, Hit>, front: seq<Hit>,
                                       last: seq<Hit>)
    requires Filed(before, map[], front) && Filed(after, before, last) && Fresh(last, Addresses(front))
    ensures Filed(after, map[], front + last)
  {
    var all := front + last;
    FreshAppend(front, last);
    forall i | 0 <= i < |all| ensures all[i].address.Some? && after[all[i].address.value] == all[i] {
      if i < |front| {
        assert all[i] == front[i] && front[i].address.value in Addresses(front);
      } else {
        assert all[i] == last[i - |front|];
      }
    }
  }

  // ---- the global branch lists ----

  /** Score descending, then segment, then document. */
  predicate EntryLe(a: Entry, b: Entry) {
    a.score > b.score || (a.score == b.score && AddressLe(a.address, b.address))
  }

  predicate AddressLe(a: Address, b: Address) {
    a.segment < b.segment || (a.segment == b.segment && a.doc <= b.doc)
  }

  ghost predicate DistinctAddresses(list: seq<Entry>) {
    forall i, j :: 0 <= i < j < |list| ==> list[i].address != list[j].address
  }

  ghost predicate Within(list: seq<Entry>, addresses: set<Address>) {
    forall i :: 0 <= i < |list| ==> list[i].address in addresses
  }

  lemma {:induction false} NominatedEntries(branches: seq<Branch>, local: set<Address>, n: nat, b: nat)
    requires KnownBranches(branches, local, n)
    ensures DistinctAddresses(EntriesOf(Nominated(branches, b))) && Within(EntriesOf(Nominated(branches, b)), local)
  {
    if branches != [] {
      NominatedEntries(branches[..|branches| - 1], local, n, b);
      assert ValidBranch(branches[|branches| - 1].candidates, local);
    }
  }

  /** A global list is the disjoint union of the shards' lists. */
  lemma {:induction false} GlobalListDisjoint(responses: seq<ShardResponse>, n: nat, b: nat)
    requires Accepted(responses, n)
    ensures DistinctAddresses(GlobalList(responses, b))
    ensures Within(GlobalList(responses, b), Addresses(AllHits(responses)))
  {
    if responses != [] {
      var front, last := responses[..|responses| - 1], responses[|responses| - 1];
      assert responses == front + [last];
      AcceptedStep(front, last, n);
      GlobalListDisjoint(front, n, b);
      NominatedEntries(last.branches, Addresses(last.hits), n, b);
      FreshAppend(AllHits(front), last.hits);
      DisjointAppend(GlobalList(front, b), EntriesOf(Nominated(last.branches, b)), AllHits(front), last.hits);
    }
  }

  lemma {:induction false} DisjointAppend(left: seq<Entry>, right: seq<Entry>, front: seq<Hit>, last: seq<Hit>)
    requires DistinctAddresses(left) && DistinctAddresses(right) && Within(left, Addresses(front))
             && Within(right, Addresses(last))
    requires Fresh(last, Addresses(front))
    ensures DistinctAddresses(left + right) && Within(left + right, Addresses(front) + Addresses(last))
  {
    forall a | a in Addresses(last) ensures a !in Addresses(front) { }
  }

  /** Ranked, it is strictly ordered and holds the same entries. */
  lemma {:induction false} RankedStrictly(responses: seq<ShardResponse>, n: nat, b: nat)
    requires Accepted(responses, n)
    ensures var ranked := StableSort(GlobalList(responses, b), EntryLe);
            && multiset(ranked) == multiset(GlobalList(responses, b))
            && forall i, j :: 0 <= i < j < |ranked| ==>
                 EntryLe(ranked[i], ranked[j]) && ranked[i].address != ranked[j].address
  {
    var list := GlobalList(responses, b);
    GlobalListDisjoint(responses, n, b);
    SortSorted(list, EntryLe);
    SortMultiset(list, EntryLe);
    PermutedDistinct(list, StableSort(list, EntryLe));
  }

  /** Distinctness by multiplicity, which a permutation keeps. */
  ghost predicate Once(list: seq<Entry>) {
    && (forall e :: multiset(list)[e] <= 1)
    && forall x, y :: x in list && y in list && x.address == y.address ==> x == y
  }

  lemma {:induction false} DistinctIffOnce(list: seq<Entry>)
    ensures DistinctAddresses(list) <==> Once(list)
  {
    RepeatIffTwice(list);
    if Once(list) {
      forall i, j | 0 <= i < j < |list| ensures list[i].address != list[j].address {
        assert list[i] in list && list[j] in list;
      }
    }
  }

  lemma {:induction false} PermutedDistinct(list: seq<Entry>, other: seq<Entry>)
    requires multiset(list) == multiset(other) && DistinctAddresses(list)
    ensures DistinctAddresses(other)
  {
    DistinctIffOnce(list);
    DistinctIffOnce(other);
    SameMembers(list, other);
  }

  // ---- the order of the responses is irrelevant ----

  /** The ranked global lists. */
  function Ranked(responses: seq<ShardResponse>, n: nat): (r: seq<seq<Entry>>)
    ensures |r| == n && forall b :: 0 <= b < n ==> r[b] == StableSort(GlobalList(responses, b), EntryLe)
  {
    seq(n, b requires 0 <= b < n => StableSort(GlobalList(responses, b), EntryLe))
  }

  lemma {:induction false} HitsAppend(a: seq<ShardResponse>, c: seq<ShardResponse>)
    ensures AllHits(a + c) == AllHits(a) + AllHits(c)
  {
    if c == [] {
      assert a + c == a;
    } else {
      HitsAppend(a, c[..|c| - 1]);
      DropLast(a, c);
    }
  }

  lemma {:induction false} ListAppend(a: seq<ShardResponse>, c: seq<ShardResponse>, b: nat)
    ensures GlobalList(a + c, b) == GlobalList(a, b) + GlobalList(c, b)
  {
    if c == [] {
      assert a + c == a;
    } else {
      var front, last := c[..|c| - 1], EntriesOf(Nominated(c[|c| - 1].branches, b));
      ListAppend(a, front, b);
      DropLast(a, c);
      AppendAssociative(GlobalList(a, b), GlobalList(front, b), last);
    }
  }

  ghost predicate SameGathering(a: seq<ShardResponse>, c: seq<ShardResponse>, b: nat) {
    multiset(AllHits(a)) == multiset(AllHits(c)) && multiset(GlobalList(a, b)) == multiset(GlobalList(c, b))
  }

  lemma {:induction false} MovedHits(front: seq<ShardResponse>, p: ShardResponse, left: seq<ShardResponse>,
                                     right: seq<ShardResponse>)
    requires multiset(AllHits(front)) == multiset(AllHits(left + right))
    ensures multiset(AllHits(front + [p])) == multiset(AllHits(left + ([p] + right)))
  {
    HitsAppend(front, [p]);
    HitsAppend(left, [p] + right);
    HitsAppend([p], right);
    HitsAppend(left, right);
    MovedMiddle(AllHits(front), AllHits([p]), AllHits(left), AllHits(right));
  }

  lemma {:induction false} MovedList(front: seq<ShardResponse>, p: ShardResponse, left: seq<ShardResponse>,
                                     right: seq<ShardResponse>, b: nat)
    requires multiset(GlobalList(front, b)) == multiset(GlobalList(left + right, b))
    ensures multiset(GlobalList(front + [p], b)) == multiset(GlobalList(left + ([p] + right), b))
  {
    ListAppend(front, [p], b);
    ListAppend(left, [p] + right, b);
    ListAppend([p], right, b);
    ListAppend(left, right, b);
    MovedMiddle(GlobalList(front, b), GlobalList([p], b), GlobalList(left, b), GlobalList(right, b));
  }

  lemma {:induction false} PermutedGathering(a: seq<ShardResponse>, c: seq<ShardResponse>, b: nat)
    requires multiset(a) == multiset(c)
    ensures SameGathering(a, c, b)
    decreases |a|
  {
    if a == [] {
      SameMembers(a, c);
    } else {
      var front, p, left, right := SplitLast(a, c);
      PermutedGathering(front, left + right, b);
      MovedHits(front, p, left, right);
      MovedList(front, p, left, right, b);
    }
  }

  ghost predicate HitsOnce(hits: seq<Hit>) {
    && (forall x :: multiset(hits)[x] <= 1) && (forall x :: x in hits ==> x.address.Some?)
    && forall x, y :: x in hits && y in hits && x.address == y.address ==> x == y
  }

  lemma {:induction false} FreshIffOnce(hits: seq<Hit>)
    ensures Fresh(hits, {}) <==> HitsOnce(hits)
  {
    RepeatIffTwice(hits);
    if HitsOnce(hits) {
      forall i, j | 0 <= i < j < |hits| ensures hits[i].address != hits[j].address {
        assert hits[i] in hits && hits[j] in hits;
      }
    }
  }

  lemma {:induction false} FreshAnyOrder(a: seq<Hit>, c: seq<Hit>)
    requires Fresh(a, {}) && multiset(a) == multiset(c)
    ensures Fresh(c, {})
  {
    SameMembers(a, c);
    FreshIffOnce(a);
    FreshIffOnce(c);
  }

  lemma {:induction false} AcceptedAnyOrder(a: seq<ShardResponse>, c: seq<ShardResponse>, n: nat)
    requires Accepted(a, n) && multiset(a) == multiset(c)
    ensures Accepted(c, n)
  {
    PermutedGathering(a, c, 0);
    FreshAnyOrder(AllHits(a), AllHits(c));
    SameMembers(a, c);
    forall i | 0 <= i < |c| ensures ValidBranches(c[i].branches, Addresses(c[i].hits), n) {
      assert c[i] in a;
    }
  }

  /** Responses in any order are accepted alike and rank to the same lists. */
  lemma {:induction false} ResponseOrderIrrelevant(a: seq<ShardResponse>, c: seq<ShardResponse>, n: nat)
    requires Accepted(a, n) && multiset(a) == multiset(c)
    ensures Accepted(c, n) && Ranked(a, n) == Ranked(c, n)
  {
    AcceptedAnyOrder(a, c, n);
    forall b | 0 <= b < n ensures Ranked(a, n)[b] == Ranked(c, n)[b] {
      PermutedGathering(a, c, b);
      RankedAlike(a, c, n, b);
    }
  }

  lemma {:induction false} RankedAlike(a: seq<ShardResponse>, c: seq<ShardResponse>, n: nat, b: nat)
    requires Accepted(a, n) && multiset(GlobalList(a, b)) == multiset(GlobalList(c, b))
    ensures StableSort(GlobalList(a, b), EntryLe) == StableSort(GlobalList(c, b), EntryLe)
  {
    GlobalListDisjoint(a, n, b);
    SortedAlike(GlobalList(a, b), GlobalList(c, b));
  }

  lemma {:induction false} SortedAlike(a: seq<Entry>, c: seq<Entry>)
    requires DistinctAddresses(a) && multiset(a) == multiset(c)
    ensures StableSort(a, EntryLe) == StableSort(c, EntryLe)
  {
    var left, right := StableSort(a, EntryLe), StableSort(c, EntryLe);
    SortMultiset(a, EntryLe);
    SortMultiset(c, EntryLe);
    SortSorted(a, EntryLe);
    SortSorted(c, EntryLe);
    PermutedDistinct(a, left);
    DistinctIffOnce(left);
    SortedPermutationUnique(left, right, EntryLe);
  }

  // ---- hydrating the fused page ----

  /** What the core fuses ranked lists into: distinct addresses drawn from
      them, or an error. */
  type Core = seq<seq<Entry>> -> Result<seq<Entry>>

  ghost predicate DrawnFrom(fused: seq<Entry>, lists: seq<seq<Entry>>) {
    forall i :: 0 <= i < |fused| ==>
      exists b, k :: 0 <= b < |lists| && 0 <= k < |lists[b]| && lists[b][k].address == fused[i].address
  }

  ghost predicate Draws(core: Core) {
    forall lists :: core(lists).Ok? ==> DistinctAddresses(core(lists).value) && DrawnFrom(core(lists).value, lists)
  }

  function Rescored(hit: Hit, entry: Entry): Hit {
    hit.(score := entry.score, ordinals := entry.ordinals)
  }

  /** Take the hits of the page out of the union; one that is not there, or no
      longer there, refuses the exchange. */
  method PickHits(page: seq<Entry>, hits: map<Address, Hit>) returns (r: Result<seq<Hit>>)
    ensures r.Ok? <==> DistinctAddresses(page) && Within(page, hits.Keys)
    ensures r.Ok? ==>
              && |r.value| == |page|
              && forall i :: 0 <= i < |page| ==> r.value[i] == Rescored(hits[page[i].address], page[i])
    ensures r.Err? ==> r.code == FailedPrecondition
  {
    var remaining, picked := hits, [];
    for i := 0 to |page|
      invariant |picked| == i && DistinctAddresses(page[..i]) && Within(page[..i], hits.Keys)
      invariant forall j :: 0 <= j < i ==> picked[j] == Rescored(hits[page[j].address], page[j])
      invariant forall a :: a in remaining <==> a in hits && forall j :: 0 <= j < i ==> page[j].address != a
      invariant forall a :: a in remaining ==> remaining[a] == hits[a]
    {
      var address := page[i].address;
      if address !in remaining { return Err(FailedPrecondition); }
      picked := picked + [Rescored(remaining[address], page[i])];
      remaining := remaining - {address};
    }
    r := Ok(picked);
  }

  /** The page's hits are the hydrated hits of its addresses, rescored. */
  ghost predicate Hydrated(picked: seq<Hit>, page: seq<Entry>, hits: seq<Hit>) {
    |picked| == |page| && forall i :: 0 <= i < |page| ==> Hydrates(picked[i], page[i], hits)
  }

  ghost predicate Hydrates(picked: Hit, entry: Entry, hits: seq<Hit>) {
    exists h :: h in hits && h.address == Some(entry.address) && picked == Rescored(h, entry)
  }

  /** Rank the shards' branch lists globally, fuse them and hydrate the page. */
  method Fuse(responses: seq<ShardResponse>, n: nat, core: Core, offset: nat, limit: nat) returns (r: Result<seq<Hit>>)
    ensures !Accepted(responses, n) ==> r == Err(FailedPrecondition)
    ensures Accepted(responses, n) && core(Ranked(responses, n)).Err? ==> r == Err(InvalidArgument)
    ensures Accepted(responses, n) && core(Ranked(responses, n)).Ok? ==>
              var page := SearchMerge.Page(core(Ranked(responses, n)).value, offset, limit);
              && (r.Ok? <==> DistinctAddresses(page) && Within(page, Addresses(AllHits(responses))))
              && (r.Ok? ==> Hydrated(r.value, page, AllHits(responses)))
  {
    var assembly := Assemble(responses, n);
    if assembly.Err? { return Err(assembly.code); }
    var lists := assembly.value.lists;
    var ranked := seq(n, b requires 0 <= b < n => StableSort(lists[b], EntryLe));
    assert ranked == Ranked(responses, n);
    var fused := core(ranked);
    if fused.Err? { return Err(InvalidArgument); }
    var page := SearchMerge.Page(fused.value, offset, limit);
    r := PickHits(page, assembly.value.hits);
    if r.Ok? { PageHydrated(r.value, page, assembly.value.hits, AllHits(responses)); }
  }

  lemma {:induction false} PageHydrated(picked: seq<Hit>, page: seq<Entry>, hits: map<Address, Hit>, all: seq<Hit>)
    requires Filed(hits, map[], all) && Within(page, hits.Keys) && |picked| == |page|
    requires forall i :: 0 <= i < |page| ==> picked[i] == Rescored(hits[page[i].address], page[i])
    ensures Hydrated(picked, page, all)
  {
    forall i | 0 <= i < |page| ensures Hydrates(picked[i], page[i], all) {
      var k :| 0 <= k < |all| && all[k].address == Some(page[i].address);
      assert all[k] in all && hits[page[i].address] == all[k];
    }
  }

  /** A page of distinct fused addresses drawn from the ranked lists always
      finds its hits. */
  lemma {:induction false} FusedPageIsHydrated(responses: seq<ShardResponse>, n: nat, core: Core, offset: nat,
                                               limit: nat)
    requires Accepted(responses, n) && Draws(core) && core(Ranked(responses, n)).Ok?
    ensures var page := SearchMerge.Page(core(Ranked(responses, n)).value, offset, limit);
            DistinctAddresses(page) && Within(page, Addresses(AllHits(responses)))
  {
    var fused := core(Ranked(responses, n)).value;
    DrawnWithin(fused, responses, n);
    var page := SearchMerge.Page(fused, offset, limit);
    assert forall i :: 0 <= i < |page| ==> page[i] == fused[offset + i];
  }

  lemma {:induction false} RankedWithin(responses: seq<ShardResponse>, n: nat, b: nat)
    requires Accepted(responses, n) && b < n
    ensures Within(Ranked(responses, n)[b], Addresses(AllHits(responses)))
  {
    var list := GlobalList(responses, b);
    GlobalListDisjoint(responses, n, b);
    SortMultiset(list, EntryLe);
    SameMembers(list, StableSort(list, EntryLe));
    WithinMembers(list, StableSort(list, EntryLe), Addresses(AllHits(responses)));
  }

  lemma {:induction false} WithinMembers(a: seq<Entry>, b: seq<Entry>, addresses: set<Address>)
    requires Within(a, addresses) && forall e :: e in b ==> e in a
    ensures Within(b, addresses)
  {
    forall i | 0 <= i < |b| ensures b[i].address in addresses { assert b[i] in a; }
  }

  lemma {:induction false} DrawnWithin(fused: seq<Entry>, responses: seq<ShardResponse>, n: nat)
    requires Accepted(responses, n) && DrawnFrom(fused, Ranked(responses, n))
    ensures Within(fused, Addresses(AllHits(responses)))
  {
    var lists: seq<seq<Entry>> := Ranked(responses, n);
    forall i | 0 <= i < |fused| ensures fused[i].address in Addresses(AllHits(responses)) {
      var b, k :| 0 <= b < |lists| && 0 <= k < |lists[b]| && lists[b][k].address == fused[i].address;
      RankedWithin(responses, n, b);
      assert lists[b][k].address in Addresses(AllHits(responses));
    }
  }

  /** The union of hits does not depend on the order of the responses either. */
  lemma {:induction false} UnionOrderIrrelevant(a: seq<ShardResponse>, c: seq<ShardResponse>, n: nat, x: Assembly,
                                                y: Assembly)
    requires Accepted(a, n) && multiset(a) == multiset(c) && Assembled(x, a, n) && Assembled(y, c, n)
    ensures x.hits == y.hits
  {
    PermutedGathering(a, c, 0);
    SameMembers(AllHits(a), AllHits(c));
    FiledAlike(x.hits, y.hits, AllHits(a), AllHits(c));
    FiledAlike(y.hits, x.hits, AllHits(c), AllHits(a));
  }

  lemma {:induction false} FiledAlike(x: map<Address, Hit>, y: map<Address, Hit>, left: seq<Hit>, right: seq<Hit>)
    requires Filed(x, map[], left) && Filed(y, map[], right) && forall h :: h in left ==> h in right
    ensures forall k :: k in x ==> k in y && x[k] == y[k]
  {
    forall k | k in x ensures k in y && x[k] == y[k] {
      var i :| 0 <= i < |left| && left[i].address == Some(k);
      assert left[i] in right;
      var j :| 0 <= j < |right| && right[j] == left[i];
    }
  }

  /** An accepted response nominates for every branch. */
  lemma {:induction false} EveryBranchNamed(branches: seq<Branch>, local: set<Address>, n: nat, b: nat)
    requires ValidBranches(branches, local, n) && b < n
    ensures exists i :: 0 <= i < n && branches[i].index == b && Nominated(branches, b) == branches[i].candidates
  {
    var named := NamedSet(branches, local, n);
    FullSet(named, n);
    assert b in named;
    var i :| 0 <= i < n && branches[i].index == b;
    NominatedAt(branches, local, n, i);
  }

  lemma {:induction false} NamedSet(branches: seq<Branch>, local: set<Address>, n: nat) returns (named: set<nat>)
    requires KnownBranches(branches, local, n)
    ensures Seen(named, branches) && forall b :: b in named ==> b < n
  {
    named := {};
    if branches != [] {
      var front, last := branches[..|branches| - 1], branches[|branches| - 1];
      var before := NamedSet(front, local, n);
      assert branches == front + [last];
      KnownStep(front, last, local, n, before);
      named := before + {last.index};
    }
  }

  lemma {:induction false} FullSet(s: set<nat>, n: nat)
    requires |s| == n && forall x :: x in s ==> x < n
    ensures forall x :: 0 <= x < n ==> x in s
  {
    if n > 0 {
      if n - 1 !in s {
        TooMany(s, n - 1);
      } else {
        FullSet(s - {n - 1}, n - 1);
      }
    }
  }

  lemma {:induction false} TooMany(s: set<nat>, n: nat)
    requires forall x :: x in s ==> x < n
    ensures |s| <= n
  {
    if n == 0 {
      assert s == {};
    } else {
      TooMany(s - {n - 1}, n - 1);
    }
  }

  lemma {:induction false} NominatedAt(branches: seq<Branch>, local: set<Address>, n: nat, i: nat)
    requires KnownBranches(branches, local, n) && i < |branches|
    ensures Nominated(branches, branches[i].index) == branches[i].candidates
  {
    if i < |branches| - 1 { NominatedAt(branches[..|branches| - 1], local, n, i); }
  }
}
