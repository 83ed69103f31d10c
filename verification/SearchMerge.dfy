/** Merging the partitions' search responses into one page.

    The page must be the page one index holding every document would return.
    Scores are integers here, so they are totally ordered. */
module SearchMerge {
  import opened Sorting
  import opened Outcomes

  datatype RankingMethod = FeatureExportV2 | FusionCandidatesV1 | OtherMethod(name: string) {
    /** Exports must carry every candidate. */
    predicate IsExport() { FeatureExportV2? || FusionCandidatesV1? }
  }

  /** A hit without an address has the empty segment. */
  datatype Hit = Hit(score: int, segment: string, doc: nat)

  datatype SearchResponse = SearchResponse(
    hits: seq<Hit>, totalHits: nat, tookMs: nat, truncated: bool, seeded: bool, ranking: RankingMethod)

  /** Score descending, then segment ascending; within a segment it is a tie. */
  predicate HitLe(a: Hit, b: Hit) {
    a.score > b.score || (a.score == b.score && LexLe(a.segment, b.segment))
  }

  lemma {:induction false} HitLeIsTotalPreorder()
    ensures TotalPreorder(HitLe)
  {
    forall a: Hit, b: Hit ensures HitLe(a, b) || HitLe(b, a) {
      LexTotal(a.segment, b.segment);
    }
    forall a: Hit, b: Hit, c: Hit | HitLe(a, b) && HitLe(b, c) ensures HitLe(a, c) {
      if a.score == b.score == c.score { LexTransitive(a.segment, b.segment, c.segment); }
    }
  }

  function Page<T>(s: seq<T>, offset: nat, limit: nat): seq<T> {
    Take(Drop(s, offset), limit)
  }

  function Cut<T>(lists: seq<seq<T>>, window: nat): (r: seq<seq<T>>)
    ensures |r| == |lists| && forall i :: 0 <= i < |lists| ==> r[i] == Take(lists[i], window)
  {
    seq(|lists|, i requires 0 <= i < |lists| => Take(lists[i], window))
  }

  // ---- exactness of the distributed top-k ----

  lemma {:induction false} MergeAllTake<T>(lists: seq<seq<T>>, k: nat, le: (T, T) -> bool)
    ensures Take(MergeAll(Cut(lists, k), le), k) == Take(MergeAll(lists, le), k)
  {
    if lists != [] {
      var first, rest, cut := lists[0], MergeAll(lists[1..], le), MergeAll(Cut(lists[1..], k), le);
      assert Cut(lists, k)[1..] == Cut(lists[1..], k);
      MergeAllTake(lists[1..], k, le);
      MergeTake(first, rest, k, k, k, le);
      MergeTake(Take(first, k), cut, k, k, k, le);
      assert Take(Take(first, k), k) == Take(first, k);
    }
  }

  lemma {:induction false} PageFromPrefix<T>(a: seq<T>, b: seq<T>, offset: nat, limit: nat)
    requires Take(a, offset + limit) == Take(b, offset + limit)
    ensures Page(a, offset, limit) == Page(b, offset, limit)
  {
    assert Page(a, offset, limit) == Page(Take(a, offset + limit), offset, limit);
    assert Page(b, offset, limit) == Page(Take(b, offset + limit), offset, limit);
  }

  lemma {:induction false} CutSorted<T>(lists: seq<seq<T>>, k: nat, le: (T, T) -> bool)
    requires forall l :: l in lists ==> Sorted(l, le)
    ensures forall l :: l in Cut(lists, k) ==> Sorted(l, le)
  {
    forall l | l in Cut(lists, k) ensures Sorted(l, le) {
      var i :| 0 <= i < |lists| && l == Take(lists[i], k);
      assert Sorted(lists[i], le);
    }
  }

  /** Asking every shard only for its first offset + limit hits loses nothing:
      merging the cut rankings gives the page of the uncut ones. */
  lemma {:induction false} DistributedTopKExact(rankings: seq<seq<Hit>>, offset: nat, limit: nat)
    requires forall r :: r in rankings ==> Sorted(r, HitLe)
    ensures Page(StableSort(Concat(Cut(rankings, offset + limit)), HitLe), offset, limit)
         == Page(StableSort(Concat(rankings), HitLe), offset, limit)
  {
    HitLeIsTotalPreorder();
    CutSorted(rankings, offset + limit, HitLe);
    SortConcat(rankings, HitLe);
    SortConcat(Cut(rankings, offset + limit), HitLe);
    MergeAllTake(rankings, offset + limit, HitLe);
    PageFromPrefix(MergeAll(Cut(rankings, offset + limit), HitLe), MergeAll(rankings, HitLe), offset, limit);
  }

  function Ranked(shards: seq<seq<Hit>>): (r: seq<seq<Hit>>)
    ensures |r| == |shards| && forall i :: 0 <= i < |shards| ==> r[i] == StableSort(shards[i], HitLe)
  {
    seq(|shards|, i requires 0 <= i < |shards| => StableSort(shards[i], HitLe))
  }

  lemma {:induction false} RankingShardsFirst(shards: seq<seq<Hit>>)
    ensures StableSort(Concat(shards), HitLe) == MergeAll(Ranked(shards), HitLe)
  {
    HitLeIsTotalPreorder();
    if shards != [] {
      assert Ranked(shards)[1..] == Ranked(shards[1..]);
      SortAppend(shards[0], Concat(shards[1..]), HitLe);
      RankingShardsFirst(shards[1..]);
    }
  }

  /** The partitioned search looks like one index: for any split of the hits
      over shards, each shard ranking its own and returning its first
      offset + limit, the merged page is the page of ranking all hits at once. */
  lemma {:induction false} PartitionedLooksLikeOneIndex(shards: seq<seq<Hit>>, offset: nat, limit: nat)
    ensures Page(StableSort(Concat(Cut(Ranked(shards), offset + limit)), HitLe), offset, limit)
         == Page(StableSort(Concat(shards), HitLe), offset, limit)
  {
    HitLeIsTotalPreorder();
    forall r | r in Ranked(shards) ensures Sorted(r, HitLe) {
      var i :| 0 <= i < |shards| && r == StableSort(shards[i], HitLe);
      SortSorted(shards[i], HitLe);
    }
    DistributedTopKExact(Ranked(shards), offset, limit);
    SortConcat(Ranked(shards), HitLe);
    RankingShardsFirst(shards);
  }

  // ---- the order in which partitions are listed does not matter ----

  /** A segment lives on one partition, so hits of different responses never tie. */
  ghost predicate SegmentsDisjoint(rankings: seq<seq<Hit>>) {
    forall i, j, x, y :: 0 <= i < j < |rankings| && x in rankings[i] && y in rankings[j] ==>
      x.segment != y.segment
  }

  ghost predicate IsPermutation(order: seq<nat>, n: nat) {
    && (forall i :: 0 <= i < |order| ==> order[i] < n)
    && (forall i, j :: 0 <= i < j < |order| ==> order[i] != order[j])
    && (forall i: nat :: i < n ==> i in order)
  }

  function Reorder<T>(lists: seq<T>, order: seq<nat>): (r: seq<T>)
    requires forall i :: 0 <= i < |order| ==> order[i] < |lists|
    ensures |r| == |order| && forall i :: 0 <= i < |order| ==> r[i] == lists[order[i]]
  {
    seq(|order|, i requires 0 <= i < |order| => lists[order[i]])
  }

  lemma {:induction false} FilterConcat<T>(p: T -> bool, lists: seq<seq<T>>, i: nat)
    requires i < |lists|
    requires forall j, x :: 0 <= j < |lists| && j != i && x in lists[j] ==> !p(x)
    ensures Filter(p, Concat(lists)) == Filter(p, lists[i])
  {
    FilterAppend(p, lists[0], Concat(lists[1..]));
    if i > 0 {
      assert forall j, x :: 0 <= j < |lists| - 1 && j != i - 1 && x in lists[1..][j] ==>
        x in lists[j + 1] && !p(x);
      FilterConcat(p, lists[1..], i - 1);
      FilterNone(p, lists[0]);
    } else {
      FilterConcatNone(p, lists[1..]);
    }
  }

  lemma {:induction false} FilterConcatNone<T>(p: T -> bool, lists: seq<seq<T>>)
    requires forall j, x :: 0 <= j < |lists| && x in lists[j] ==> !p(x)
    ensures Filter(p, Concat(lists)) == []
  {
    if lists != [] {
      FilterAppend(p, lists[0], Concat(lists[1..]));
      FilterNone(p, lists[0]);
      assert forall j, x :: 0 <= j < |lists| - 1 && x in lists[1..][j] ==> x in lists[j + 1] && !p(x);
      FilterConcatNone(p, lists[1..]);
    }
  }

  lemma {:induction false} TiesShareSegment(k: Hit, x: Hit)
    requires TiesWith(k, HitLe)(x)
    ensures x.segment == k.segment
  {
    assert HitLe(k, x) && HitLe(x, k);
    LexTotal(k.segment, x.segment);
  }

  /** If the list at `i` holds a hit tying with k, no other list does. */
  lemma {:induction false} TieClassAt(lists: seq<seq<Hit>>, k: Hit, i: nat)
    requires SegmentsDisjoint(lists) && i < |lists|
    requires exists x :: x in lists[i] && TiesWith(k, HitLe)(x)
    ensures Filter(TiesWith(k, HitLe), Concat(lists)) == Filter(TiesWith(k, HitLe), lists[i])
  {
    var x :| x in lists[i] && TiesWith(k, HitLe)(x);
    TiesShareSegment(k, x);
    forall j, y | 0 <= j < |lists| && j != i && y in lists[j] ensures !TiesWith(k, HitLe)(y) {
      if TiesWith(k, HitLe)(y) {
        TiesShareSegment(k, y);
      }
    }
    FilterConcat(TiesWith(k, HitLe), lists, i);
  }

  lemma {:induction false} ReorderDisjoint(rankings: seq<seq<Hit>>, order: seq<nat>)
    requires SegmentsDisjoint(rankings) && IsPermutation(order, |rankings|)
    ensures SegmentsDisjoint(Reorder(rankings, order))
  {
    var other := Reorder(rankings, order);
    forall i, j, x: Hit, y: Hit | 0 <= i < j < |other| && x in other[i] && y in other[j]
      ensures x.segment != y.segment
    {
      assert x in rankings[order[i]] && y in rankings[order[j]] && order[i] != order[j];
    }
  }

  lemma {:induction false} ReorderedTieClass(rankings: seq<seq<Hit>>, order: seq<nat>, k: Hit)
    requires SegmentsDisjoint(rankings) && IsPermutation(order, |rankings|)
    ensures Filter(TiesWith(k, HitLe), Concat(Reorder(rankings, order)))
         == Filter(TiesWith(k, HitLe), Concat(rankings))
  {
    var other := Reorder(rankings, order);
    ReorderDisjoint(rankings, order);
    if i, x :| 0 <= i < |rankings| && x in rankings[i] && TiesWith(k, HitLe)(x) {
      TieClassAt(rankings, k, i);
      assert i in order;
      var j :| 0 <= j < |order| && order[j] == i;
      TieClassAt(other, k, j);
    } else {
      FilterConcatNone(TiesWith(k, HitLe), rankings);
      FilterConcatNone(TiesWith(k, HitLe), other);
    }
  }

  /** The page is the same whatever order the responses are taken in. */
  lemma {:induction false} ResponseOrderIrrelevant(rankings: seq<seq<Hit>>, order: seq<nat>)
    requires SegmentsDisjoint(rankings) && IsPermutation(order, |rankings|)
    ensures StableSort(Concat(Reorder(rankings, order)), HitLe) == StableSort(Concat(rankings), HitLe)
  {
    HitLeIsTotalPreorder();
    forall k ensures Filter(TiesWith(k, HitLe), Concat(Reorder(rankings, order)))
                  == Filter(TiesWith(k, HitLe), Concat(rankings)) {
      ReorderedTieClass(rankings, order, k);
    }
    SortDependsOnTieClasses(Concat(Reorder(rankings, order)), Concat(rankings));
  }

  lemma {:induction false} SortDependsOnTieClasses(a: seq<Hit>, b: seq<Hit>)
    requires forall k :: Filter(TiesWith(k, HitLe), a) == Filter(TiesWith(k, HitLe), b)
    ensures StableSort(a, HitLe) == StableSort(b, HitLe)
  {
    HitLeIsTotalPreorder();
    SortSorted(a, HitLe);
    SortSorted(b, HitLe);
    forall k
      ensures Filter(TiesWith(k, HitLe), StableSort(a, HitLe)) == Filter(TiesWith(k, HitLe), StableSort(b, HitLe))
    {
      SortStable(a, k, HitLe);
      SortStable(b, k, HitLe);
    }
    SortedUnique(StableSort(a, HitLe), StableSort(b, HitLe), HitLe);
  }

  // ---- the merger ----

  function Rankings(responses: seq<SearchResponse>): (r: seq<seq<Hit>>)
    ensures |r| == |responses| && forall i :: 0 <= i < |responses| ==> r[i] == responses[i].hits
  {
    seq(|responses|, i requires 0 <= i < |responses| => responses[i].hits)
  }

  function TotalHits(responses: seq<SearchResponse>): nat {
    if responses == [] then 0 else TotalHits(responses[..|responses| - 1]) + responses[|responses| - 1].totalHits
  }

  function MaxTook(responses: seq<SearchResponse>): nat {
    if responses == [] then 0
    else
      var n := |responses| - 1;
      var rest := MaxTook(responses[..n]);
      if responses[n].tookMs > rest then responses[n].tookMs else rest
  }

  predicate AnyTruncated(responses: seq<SearchResponse>) {
    responses != [] && (AnyTruncated(responses[..|responses| - 1]) || responses[|responses| - 1].truncated)
  }

  lemma {:induction false} MergedMetadata(responses: seq<SearchResponse>)
    ensures forall i :: 0 <= i < |responses| ==> responses[i].tookMs <= MaxTook(responses)
    ensures responses != [] ==> exists i :: 0 <= i < |responses| && responses[i].tookMs == MaxTook(responses)
    ensures AnyTruncated(responses) <==> exists i :: 0 <= i < |responses| && responses[i].truncated
  {
    if responses != [] {
      var n := |responses| - 1;
      MergedMetadata(responses[..n]);
      assert forall i :: 0 <= i < n ==> responses[..n][i] == responses[i];
      assert n > 0 ==> exists i :: 0 <= i < n && responses[i].tookMs == MaxTook(responses[..n]);
    }
  }

  lemma {:induction false} PrefixStep(responses: seq<SearchResponse>, n: nat)
    requires n < |responses|
    ensures var before, after := responses[..n], responses[..n + 1];
            && Concat(Rankings(after)) == Concat(Rankings(before)) + responses[n].hits
            && TotalHits(after) == TotalHits(before) + responses[n].totalHits
            && MaxTook(after)
              == (if responses[n].tookMs > MaxTook(before) then responses[n].tookMs else MaxTook(before))
            && AnyTruncated(after) == (AnyTruncated(before) || responses[n].truncated)
  {
    assert responses[..n + 1][..n] == responses[..n];
    ConcatAppend(Rankings(responses[..n]), responses[n].hits);
    assert Rankings(responses[..n + 1]) == Rankings(responses[..n]) + [responses[n].hits];
  }

  predicate OneMethod(responses: seq<SearchResponse>) {
    forall i, j :: 0 <= i < j < |responses| ==> responses[i].ranking == responses[j].ranking
  }

  function SaturatingAdd(a: nat, b: nat): nat {
    if a + b > U64_MAX then U64_MAX else a + b
  }

  /** The loop over the responses: hits in response order, counters folded,
      stopping at the first response with another ranking method. */
  method FoldResponses(responses: seq<SearchResponse>) returns (r: Result<SearchResponse>)
    ensures r == if OneMethod(responses) then Ok(Folded(responses)) else Err(FailedPrecondition)
  {
    var hits: seq<Hit> := [];
    var totalHits, tookMs, truncated := 0, 0, false;
    var seeded := AllSeeded(responses);
    var ranking, known := OtherMethod(""), false;
    for n := 0 to |responses|
      invariant hits == Concat(Rankings(responses[..n]))
      invariant totalHits == SaturatingAdd(TotalHits(responses[..n]), 0)
      invariant tookMs == MaxTook(responses[..n])
      invariant truncated == AnyTruncated(responses[..n])
      invariant known == (n > 0) && ranking == FirstRanking(responses[..n])
      invariant forall i :: 0 <= i < n ==> responses[i].ranking == responses[0].ranking
    {
      var response := responses[n];
      if known && ranking != response.ranking {
        assert responses[0].ranking != responses[n].ranking;
        r := Err(FailedPrecondition);
        return;
      }
      ranking, known := response.ranking, true;
      PrefixStep(responses, n);
      totalHits := SaturatingAdd(totalHits, response.totalHits);
      tookMs := if response.tookMs > tookMs then response.tookMs else tookMs;
      truncated := truncated || response.truncated;
      hits := hits + response.hits;
    }
    assert responses[..|responses|] == responses;
    r := Ok(SearchResponse(hits, totalHits, tookMs, truncated, seeded, ranking));
  }

  function Folded(responses: seq<SearchResponse>): SearchResponse {
    SearchResponse(Concat(Rankings(responses)), SaturatingAdd(TotalHits(responses), 0), MaxTook(responses),
                   AnyTruncated(responses), AllSeeded(responses), FirstRanking(responses))
  }

  predicate AllSeeded(responses: seq<SearchResponse>) {
    responses != [] && forall i :: 0 <= i < |responses| ==> responses[i].seeded
  }

  function FirstRanking(responses: seq<SearchResponse>): RankingMethod {
    if responses == [] then OtherMethod("") else responses[0].ranking
  }

  /** Mixed ranking methods are refused, and so is an export that would not
      fit the page; otherwise the page is the page of the stably sorted union,
      and an export carries the whole union. */
  method MergeSearchResponses(responses: seq<SearchResponse>, offset: nat, limit: nat)
    returns (r: Result<SearchResponse>)
    ensures r.Err? ==> r.code == FailedPrecondition || r.code == InvalidArgument
    ensures r == Err(FailedPrecondition) <==> !OneMethod(responses)
    ensures var all := Concat(Rankings(responses));
            r == Err(InvalidArgument)
            <==> OneMethod(responses) && FirstRanking(responses).IsExport() && (offset != 0 || |all| > limit)
    ensures r.Ok? ==>
              var all := Concat(Rankings(responses));
              && r.value == Folded(responses).(hits := Page(StableSort(all, HitLe), offset, limit))
              && (FirstRanking(responses).IsExport() ==> multiset(r.value.hits) == multiset(all))
    ensures r.Ok? ==>
              && (forall i :: 0 <= i < |responses| ==> responses[i].tookMs <= r.value.tookMs)
              && (responses != [] ==> exists i :: 0 <= i < |responses| && responses[i].tookMs == r.value.tookMs)
              && (r.value.truncated <==> exists i :: 0 <= i < |responses| && responses[i].truncated)
  {
    MergedMetadata(responses);
    var folded := FoldResponses(responses);
    if folded.Err? {
      return folded;
    }
    SortMultiset(folded.value.hits, HitLe);
    var hits := StableSort(folded.value.hits, HitLe);
    if folded.value.ranking.IsExport() && (offset != 0 || |hits| > limit) {
      r := Err(InvalidArgument);
      return;
    }
    r := Ok(folded.value.(hits := Page(hits, offset, limit)));
  }
}
