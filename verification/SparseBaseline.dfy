/** The exact sparse baseline: an inverted index with reusable score and
    touched buffers. Weights are integers here. */
module SparseBaseline {
  import opened Sorting

  datatype Component = Component(dim: nat, weight: int)

  type Vector = seq<Component>

  datatype Posting = Posting(document: nat, weight: int)

  /** A scored document, ranked by score descending, then id ascending. */
  datatype Candidate = Candidate(score: int, document: nat)

  predicate RankLe(a: Candidate, b: Candidate) {
    a.score > b.score || (a.score == b.score && a.document <= b.document)
  }

  // ---- what a search must return ----

  function WeightOf(vector: Vector, d: nat): int {
    if vector == [] then 0
    else
      var last := vector[|vector| - 1];
      WeightOf(vector[..|vector| - 1], d) + (if last.dim == d then last.weight else 0)
  }

  function Dot(vector: Vector, query: Vector): int {
    if query == [] then 0
    else
      var last := query[|query| - 1];
      Dot(vector, query[..|query| - 1]) + WeightOf(vector, last.dim) * last.weight
  }

  /** All documents with a positive dot product, by id. */
  function Matches(documents: seq<Vector>, query: Vector): seq<Candidate> {
    if documents == [] then []
    else
      var n := |documents| - 1;
      var score := Dot(documents[n], query);
      Matches(documents[..n], query) + (if score > 0 then [Candidate(score, n)] else [])
  }

  function Ids(candidates: seq<Candidate>): (r: seq<nat>)
    ensures |r| == |candidates| && forall i :: 0 <= i < |r| ==> r[i] == candidates[i].document
  {
    seq(|candidates|, i requires 0 <= i < |candidates| => candidates[i].document)
  }

  /** The first k matches by score descending, then id ascending. */
  function Best(documents: seq<Vector>, query: Vector, k: nat): seq<nat> {
    Ids(Take(StableSort(Matches(documents, query), RankLe), k))
  }

  // ---- the inverted index ----

  /** A document's postings in a dimension, in order. */
  function Entries(vector: Vector, d: nat, i: nat): seq<Posting> {
    if vector == [] then []
    else
      var last := vector[|vector| - 1];
      Entries(vector[..|vector| - 1], d, i) + (if last.dim == d then [Posting(i, last.weight)] else [])
  }

  /** The posting list of a dimension: all weights, by document. */
  function PostingList(documents: seq<Vector>, d: nat): seq<Posting> {
    if documents == [] then []
    else
      var n := |documents| - 1;
      PostingList(documents[..n], d) + Entries(documents[n], d, n)
  }

  ghost predicate Indexes(postings: seq<seq<Posting>>, documents: seq<Vector>) {
    && (forall d :: 0 <= d < |postings| ==> postings[d] == PostingList(documents, d))
    && forall d: nat :: |postings| <= d ==> PostingList(documents, d) == []
  }

  lemma {:induction false} NewDocument(documents: seq<Vector>, d: nat)
    ensures PostingList(documents + [[]], d) == PostingList(documents, d)
  {
    assert (documents + [[]])[..|documents|] == documents;
    assert Entries([], d, |documents|) == [];
  }

  lemma {:induction false} NewComponent(documents: seq<Vector>, vector: Vector, c: Component, d: nat)
    ensures PostingList(documents + [vector + [c]], d)
         == PostingList(documents + [vector], d) + (if c.dim == d then [Posting(|documents|, c.weight)] else [])
  {
    assert (documents + [vector + [c]])[..|documents|] == documents == (documents + [vector])[..|documents|];
    assert (vector + [c])[..|vector|] == vector;
  }

  /** All dimensions are below n. */
  ghost predicate Fits(documents: seq<Vector>, n: nat) {
    forall i, c :: 0 <= i < |documents| && 0 <= c < |documents[i]| ==> documents[i][c].dim < n
  }

  /** One more than the largest dimension. */
  method CountDimensions(documents: seq<Vector>) returns (n: nat)
    ensures Fits(documents, n) && (n > 0 ==> !Fits(documents, n - 1))
  {
    n := 0;
    for i := 0 to |documents|
      invariant Fits(documents[..i], n) && (n > 0 ==> !Fits(documents, n - 1))
    {
      for c := 0 to |documents[i]|
        invariant Fits(documents[..i], n) && (n > 0 ==> !Fits(documents, n - 1))
        invariant forall k :: 0 <= k < c ==> documents[i][k].dim < n
      {
        if documents[i][c].dim + 1 > n { n := documents[i][c].dim + 1; }
      }
    }
    assert documents[..|documents|] == documents;
  }

  /** Invert the documents. */
  method BuildPostings(documents: seq<Vector>) returns (postings: seq<seq<Posting>>)
    ensures Indexes(postings, documents)
  {
    var n := CountDimensions(documents);
    postings := seq(n, _ => []);
    for i := 0 to |documents|
      invariant |postings| == n && Indexes(postings, documents[..i])
    {
      forall d: nat ensures PostingList(documents[..i] + [[]], d) == PostingList(documents[..i], d) {
        NewDocument(documents[..i], d);
      }
      for c := 0 to |documents[i]|
        invariant |postings| == n && Indexes(postings, documents[..i] + [documents[i][..c]])
      {
        var component := documents[i][c];
        postings := AddComponent(postings, documents[..i], documents[i][..c], component);
        assert documents[i][..c + 1] == documents[i][..c] + [component];
      }
      assert documents[i][..|documents[i]|] == documents[i];
      assert documents[..i + 1] == documents[..i] + [documents[i]];
    }
    assert documents[..|documents|] == documents;
  }

  method AddComponent(before: seq<seq<Posting>>, documents: seq<Vector>, ghost vector: Vector, c: Component)
    returns (postings: seq<seq<Posting>>)
    requires Indexes(before, documents + [vector]) && c.dim < |before|
    ensures |postings| == |before| && Indexes(postings, documents + [vector + [c]])
  {
    postings := before[c.dim := before[c.dim] + [Posting(|documents|, c.weight)]];
    forall d: nat
      ensures PostingList(documents + [vector + [c]], d) == if d < |before| then postings[d] else []
    {
      NewComponent(documents, vector, c, d);
    }
  }

  // ---- what the loops compute ----

  datatype Buffers = Buffers(scores: seq<int>, touched: seq<nat>)

  /** Add to one score; a document whose score is zero is touched. */
  function Touch(b: Buffers, i: nat, p: int): Buffers {
    if i >= |b.scores| then b
    else Buffers(b.scores[i := b.scores[i] + p], if b.scores[i] == 0 then b.touched + [i] else b.touched)
  }

  function AddedList(b: Buffers, list: seq<Posting>, w: int): (r: Buffers)
    ensures |r.scores| == |b.scores|
  {
    if list == [] then b
    else
      var last := list[|list| - 1];
      Touch(AddedList(b, list[..|list| - 1], w), last.document, w * last.weight)
  }

  function Zeros(n: nat): (r: seq<int>)
    ensures |r| == n && forall i :: 0 <= i < n ==> r[i] == 0
  {
    seq(n, _ => 0)
  }

  /** The buffers after a query. */
  function Ran(documents: seq<Vector>, query: Vector): (r: Buffers)
    ensures |r.scores| == |documents|
  {
    if query == [] then Buffers(Zeros(|documents|), [])
    else
      var last := query[|query| - 1];
      AddedList(Ran(documents, query[..|query| - 1]), PostingList(documents, last.dim), last.weight)
  }

  /** The touched documents with a positive score, once per touch. */
  function Candidates(touched: seq<nat>, scores: seq<int>): seq<Candidate> {
    if touched == [] then []
    else
      var last := touched[|touched| - 1];
      Candidates(touched[..|touched| - 1], scores)
      + (if last < |scores| && scores[last] > 0 then [Candidate(scores[last], last)] else [])
  }

  /** What the baseline returns, for any weights. */
  function TopOf(documents: seq<Vector>, query: Vector, k: nat): seq<nat> {
    var b := Ran(documents, query);
    Ids(Take(StableSort(Candidates(b.touched, b.scores), RankLe), k))
  }

  // ---- keeping the best k ----

  lemma {:induction false} MergeAfter(top: seq<Candidate>, x: Candidate)
    requires forall i :: 0 <= i < |top| ==> RankLe(top[i], x)
    ensures Merge(top, [x], RankLe) == top + [x]
  {
    if top != [] {
      MergeAfter(top[1..], x);
      assert top + [x] == [top[0]] + (top[1..] + [x]);
    }
  }

  lemma {:induction false} MergeBeforeLast(top: seq<Candidate>, x: Candidate)
    requires top != [] && !RankLe(top[|top| - 1], x)
    ensures Merge(top, [x], RankLe) == Merge(top[..|top| - 1], [x], RankLe) + [top[|top| - 1]]
  {
    var front := top[..|top| - 1];
    if |top| == 1 {
      assert Merge(top, [x], RankLe) == [x] + Merge(top, [], RankLe);
    } else if RankLe(top[0], x) {
      MergeBeforeLast(top[1..], x);
      assert top[1..][..|top| - 2] == front[1..];
    } else {
      assert Merge(top, [x], RankLe) == [x] + top && Merge(front, [x], RankLe) == [x] + front;
      assert top == front + [top[|top| - 1]];
    }
  }

  lemma {:induction false} MergeLength(top: seq<Candidate>, x: Candidate)
    ensures |Merge(top, [x], RankLe)| == |top| + 1
  {
    if top != [] && RankLe(top[0], x) { MergeLength(top[1..], x); }
  }

  /** Offer a candidate to the best k so far, worst last. */
  method Offer(top: seq<Candidate>, x: Candidate, k: nat) returns (after: seq<Candidate>)
    requires Sorted(top, RankLe) && |top| <= k
    ensures after == Take(Merge(top, [x], RankLe), k)
  {
    MergeLength(top, x);
    if |top| < k {
      after := Merge(top, [x], RankLe);
    } else if top != [] && !RankLe(top[|top| - 1], x) {
      MergeBeforeLast(top, x);
      MergeLength(top[..|top| - 1], x);
      after := Merge(top[..|top| - 1], [x], RankLe);
    } else {
      forall i | 0 <= i < |top| ensures RankLe(top[i], x) { assert i < |top| - 1 ==> RankLe(top[i], top[|top| - 1]); }
      MergeAfter(top, x);
      after := top;
    }
  }

  lemma {:induction false} OfferedAll(candidates: seq<Candidate>, x: Candidate, k: nat)
    ensures Take(Merge(Take(StableSort(candidates, RankLe), k), [x], RankLe), k)
         == Take(StableSort(candidates + [x], RankLe), k)
  {
    SortAppend(candidates, [x], RankLe);
    assert StableSort([x], RankLe) == [x];
    if k > 0 {
      MergeTake(StableSort(candidates, RankLe), [x], k, k, k, RankLe);
      assert Take([x], k) == [x];
    }
  }

  lemma {:induction false} TopSorted(candidates: seq<Candidate>, k: nat)
    ensures Sorted(Take(StableSort(candidates, RankLe), k), RankLe)
  {
    SortSorted(candidates, RankLe);
  }

  /** Keep the k best touched documents, offering them one by one. */
  method SelectTop(touched: seq<nat>, scores: seq<int>, k: nat) returns (top: seq<Candidate>)
    requires forall t :: 0 <= t < |touched| ==> touched[t] < |scores|
    ensures top == Take(StableSort(Candidates(touched, scores), RankLe), k)
  {
    top := [];
    for t := 0 to |touched|
      invariant top == Take(StableSort(Candidates(touched[..t], scores), RankLe), k)
    {
      var document := touched[t];
      assert touched[..t + 1][..t] == touched[..t];
      var score := scores[document];
      if score > 0 {
        TopSorted(Candidates(touched[..t], scores), k);
        OfferedAll(Candidates(touched[..t], scores), Candidate(score, document), k);
        top := Offer(top, Candidate(score, document), k);
      } else {
        assert Candidates(touched[..t + 1], scores) == Candidates(touched[..t], scores);
      }
    }
    assert touched[..|touched|] == touched;
  }

  // ---- the baseline ----

  /** The touched list names every document with a score. */
  ghost predicate Covers(b: Buffers) {
    && (forall t :: 0 <= t < |b.touched| ==> b.touched[t] < |b.scores|)
    && (forall i :: 0 <= i < |b.scores| && b.scores[i] != 0 ==> i in b.touched)
  }

  lemma {:induction false} TouchCovers(b: Buffers, i: nat, p: int)
    requires Covers(b)
    ensures Covers(Touch(b, i, p))
  {
  }

  lemma {:induction false} ListCovers(b: Buffers, list: seq<Posting>, w: int)
    requires Covers(b)
    ensures Covers(AddedList(b, list, w))
  {
    if list != [] {
      var last := list[|list| - 1];
      ListCovers(b, list[..|list| - 1], w);
      TouchCovers(AddedList(b, list[..|list| - 1], w), last.document, w * last.weight);
    }
  }

  lemma {:induction false} RanCovers(documents: seq<Vector>, query: Vector)
    ensures Covers(Ran(documents, query))
  {
    if query != [] {
      var last := query[|query| - 1];
      RanCovers(documents, query[..|query| - 1]);
      ListCovers(Ran(documents, query[..|query| - 1]), PostingList(documents, last.dim), last.weight);
    }
  }

  lemma {:induction false} EntryDocuments(vector: Vector, d: nat, i: nat)
    ensures forall p :: 0 <= p < |Entries(vector, d, i)| ==> Entries(vector, d, i)[p].document == i
  {
    if vector != [] { EntryDocuments(vector[..|vector| - 1], d, i); }
  }

  lemma {:induction false} ListedDocuments(documents: seq<Vector>, d: nat)
    ensures forall p :: 0 <= p < |PostingList(documents, d)| ==> PostingList(documents, d)[p].document < |documents|
  {
    if documents != [] {
      var n := |documents| - 1;
      ListedDocuments(documents[..n], d);
      EntryDocuments(documents[n], d, n);
    }
  }

  class ExactSparseBaseline {
    const postings: seq<seq<Posting>>
    ghost const documents: seq<Vector>
    var scores: seq<int>
    var touched: seq<nat>

    ghost function Buffered(): Buffers
      reads this
    {
      Buffers(scores, touched)
    }

    /** The buffers' state between queries. */
    ghost predicate Valid()
      reads this
    {
      Indexes(postings, documents) && scores == Zeros(|documents|) && touched == []
    }

    constructor (documents: seq<Vector>)
      ensures Valid() && this.documents == documents
    {
      var lists := BuildPostings(documents);
      postings := lists;
      this.documents := documents;
      scores := Zeros(|documents|);
      touched := [];
    }

    /** Add one posting list with its query weight. */
    method AddList(list: seq<Posting>, weight: int)
      requires forall p :: 0 <= p < |list| ==> list[p].document < |scores|
      modifies this
      ensures Buffered() == AddedList(old(Buffered()), list, weight)
    {
      for p := 0 to |list|
        invariant Buffered() == AddedList(old(Buffered()), list[..p], weight)
      {
        var document := list[p].document;
        assert list[..p + 1][..p] == list[..p];
        if scores[document] == 0 { touched := touched + [document]; }
        scores := scores[document := scores[document] + weight * list[p].weight];
      }
      assert list[..|list|] == list;
    }

    /** Clear only the touched scores. */
    method Reset()
      requires Covers(Buffered())
      modifies this
      ensures touched == [] && scores == Zeros(|old(scores)|)
    {
      for t := 0 to |touched|
        invariant touched == old(touched) && |scores| == |old(scores)|
        invariant forall i :: 0 <= i < |scores| ==> scores[i] == if i in touched[..t] then 0 else old(scores)[i]
      {
        assert touched[..t + 1] == touched[..t] + [touched[t]];
        scores := scores[touched[t] := 0];
      }
      assert touched[..|touched|] == touched;
      touched := [];
    }

    /** Ids of the k best documents; the buffers end as they began. */
    method TopK(query: Vector, k: nat) returns (ranked: seq<nat>)
      requires Valid()
      modifies this
      ensures Valid()
      ensures ranked == TopOf(documents, query, k)
    {
      for q := 0 to |query|
        invariant Buffered() == Ran(documents, query[..q])
      {
        var term := query[q];
        assert query[..q + 1][..q] == query[..q];
        ListedDocuments(documents, term.dim);
        if term.dim < |postings| { AddList(postings[term.dim], term.weight); }
      }
      assert query[..|query|] == query;
      RanCovers(documents, query);
      var top := SelectTop(touched, scores, k);
      Reset();
      ranked := Ids(top);
    }
  }
}
