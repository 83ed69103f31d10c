/** When the sparse baseline returns the first k matches: a document is listed
    once for every product that finds its score at zero. */
module SparseExactness {
  import opened Sorting
  import opened SparseBaseline

  // ---- what the loops do to one document ----

  /** A document's score and the number of times it was touched. */
  datatype Tally = Tally(score: int, starts: nat)

  const NONE: Tally := Tally(0, 0)

  function Add(t: Tally, x: int): Tally {
    Tally(t.score + x, if t.score == 0 then t.starts + 1 else t.starts)
  }

  /** Add every component of a dimension, scaled. */
  function AddTerm(t: Tally, vector: Vector, d: nat, w: int): Tally {
    if vector == [] then t
    else
      var last := vector[|vector| - 1];
      var before := AddTerm(t, vector[..|vector| - 1], d, w);
      if last.dim == d then Add(before, w * last.weight) else before
  }

  function TallyOf(vector: Vector, query: Vector): Tally {
    if query == [] then NONE
    else
      var last := query[|query| - 1];
      AddTerm(TallyOf(vector, query[..|query| - 1]), vector, last.dim, last.weight)
  }

  ghost function At(b: Buffers, i: nat): Tally
    requires i < |b.scores|
  {
    Tally(b.scores[i], multiset(b.touched)[i])
  }

  lemma {:induction false} TouchAt(b: Buffers, j: nat, p: int, i: nat)
    requires i < |b.scores|
    ensures At(Touch(b, j, p), i) == if i == j then Add(At(b, i), p) else At(b, i)
  {
  }

  lemma {:induction false} AddedNext(b: Buffers, l: seq<Posting>, p: Posting, w: int)
    ensures AddedList(b, l + [p], w) == Touch(AddedList(b, l, w), p.document, w * p.weight)
  {
    assert (l + [p])[..|l|] == l;
  }

  lemma {:induction false} AddedAppend(b: Buffers, l: seq<Posting>, m: seq<Posting>, w: int)
    ensures AddedList(b, l + m, w) == AddedList(AddedList(b, l, w), m, w)
  {
    if m == [] {
      assert l + m == l;
    } else {
      var front, last := m[..|m| - 1], m[|m| - 1];
      AddedAppend(b, l, front, w);
      AddedNext(b, l + front, last, w);
      AddedNext(AddedList(b, l, w), front, last, w);
      assert l + m == l + front + [last] && m == front + [last];
    }
  }

  lemma {:induction false} EntriesAt(b: Buffers, vector: Vector, d: nat, n: nat, w: int, i: nat)
    requires i < |b.scores|
    ensures At(AddedList(b, Entries(vector, d, n), w), i)
         == if i == n then AddTerm(At(b, i), vector, d, w) else At(b, i)
  {
    if vector != [] {
      var front, last := vector[..|vector| - 1], vector[|vector| - 1];
      var entries := Entries(front, d, n);
      EntriesAt(b, front, d, n, w, i);
      if last.dim == d {
        AddedNext(b, entries, Posting(n, last.weight), w);
        TouchAt(AddedList(b, entries, w), n, w * last.weight, i);
      } else {
        assert entries + [] == entries;
      }
    }
  }

  lemma {:induction false} ListAt(b: Buffers, documents: seq<Vector>, d: nat, w: int, i: nat)
    requires i < |b.scores|
    ensures At(AddedList(b, PostingList(documents, d), w), i)
         == if i < |documents| then AddTerm(At(b, i), documents[i], d, w) else At(b, i)
  {
    if documents != [] {
      var n := |documents| - 1;
      var list := PostingList(documents[..n], d);
      ListAt(b, documents[..n], d, w, i);
      AddedAppend(b, list, Entries(documents[n], d, n), w);
      EntriesAt(AddedList(b, list, w), documents[n], d, n, w, i);
    }
  }

  lemma {:induction false} RanAt(documents: seq<Vector>, query: Vector, i: nat)
    requires i < |documents|
    ensures At(Ran(documents, query), i) == TallyOf(documents[i], query)
  {
    if query != [] {
      var front, last := query[..|query| - 1], query[|query| - 1];
      RanAt(documents, front, i);
      ListAt(Ran(documents, front), documents, last.dim, last.weight, i);
    }
  }

  lemma {:induction false} TermScore(t: Tally, vector: Vector, d: nat, w: int)
    ensures AddTerm(t, vector, d, w).score == t.score + WeightOf(vector, d) * w
  {
    if vector != [] {
      var front, last := vector[..|vector| - 1], vector[|vector| - 1];
      TermScore(t, front, d, w);
      assert (WeightOf(front, d) + last.weight) * w == WeightOf(front, d) * w + w * last.weight;
    }
  }

  lemma {:induction false} TallyIsDot(vector: Vector, query: Vector)
    ensures TallyOf(vector, query).score == Dot(vector, query)
  {
    if query != [] {
      var front, last := query[..|query| - 1], query[|query| - 1];
      TallyIsDot(vector, front);
      TermScore(TallyOf(vector, front), vector, last.dim, last.weight);
    }
  }

  /** For all weights: each score is the dot product, and each document is
      touched once per product that finds its score at zero. */
  lemma {:induction false} ScoresAndTouches(documents: seq<Vector>, query: Vector, i: nat)
    requires i < |documents|
    ensures Ran(documents, query).scores[i] == Dot(documents[i], query)
    ensures multiset(Ran(documents, query).touched)[i] == TallyOf(documents[i], query).starts
  {
    RanAt(documents, query, i);
    TallyIsDot(documents[i], query);
  }

  // ---- exact for a corpus ----

  lemma {:induction false} CountNext(s: seq<Candidate>, x: Candidate, c: Candidate)
    ensures multiset(s + [x])[c] == multiset(s)[c] + if c == x then 1 else 0
  {
  }

  lemma {:induction false} CandidateCount(touched: seq<nat>, scores: seq<int>, c: Candidate)
    ensures multiset(Candidates(touched, scores))[c]
         == if c.document < |scores| && c.score == scores[c.document] > 0 then multiset(touched)[c.document] else 0
  {
    if touched != [] {
      var front, last := touched[..|touched| - 1], touched[|touched| - 1];
      CandidateCount(front, scores, c);
      assert touched == front + [last];
      if last < |scores| { CountNext(Candidates(front, scores), Candidate(scores[last], last), c); }
    }
  }

  /** A matching document with its score. */
  predicate IsMatch(documents: seq<Vector>, query: Vector, c: Candidate) {
    c.document < |documents| && c.score == Dot(documents[c.document], query) && c.score > 0
  }

  lemma {:induction false} MatchCount(documents: seq<Vector>, query: Vector, c: Candidate)
    ensures multiset(Matches(documents, query))[c] == if IsMatch(documents, query, c) then 1 else 0
  {
    if documents != [] {
      var n := |documents| - 1;
      var front := documents[..n];
      MatchCount(front, query, c);
      CountNext(Matches(front, query), Candidate(Dot(documents[n], query), n), c);
      assert c.document < n ==> front[c.document] == documents[c.document];
    }
  }

  function Listed(documents: seq<Vector>, query: Vector): seq<Candidate> {
    Candidates(Ran(documents, query).touched, Ran(documents, query).scores)
  }

  lemma {:induction false} ListedCount(documents: seq<Vector>, query: Vector, c: Candidate)
    ensures multiset(Listed(documents, query))[c]
         == if IsMatch(documents, query, c) then TallyOf(documents[c.document], query).starts else 0
  {
    var b := Ran(documents, query);
    CandidateCount(b.touched, b.scores, c);
    if c.document < |documents| { ScoresAndTouches(documents, query, c.document); }
  }

  ghost predicate ExactFor(documents: seq<Vector>, query: Vector) {
    forall k: nat :: TopOf(documents, query, k) == Best(documents, query, k)
  }

  /** No score of a matching document returns to zero. */
  predicate StartsOnce(documents: seq<Vector>, query: Vector) {
    forall i :: 0 <= i < |documents| && Dot(documents[i], query) > 0 ==> TallyOf(documents[i], query).starts == 1
  }

  lemma {:induction false} TermStarts(t: Tally, vector: Vector, d: nat, w: int)
    requires t.score != 0 ==> t.starts >= 1
    ensures var r := AddTerm(t, vector, d, w); r.score != 0 ==> r.starts >= 1
  {
    if vector != [] { TermStarts(t, vector[..|vector| - 1], d, w); }
  }

  lemma {:induction false} TallyStarts(vector: Vector, query: Vector)
    ensures TallyOf(vector, query).score != 0 ==> TallyOf(vector, query).starts >= 1
  {
    if query != [] {
      var front, last := query[..|query| - 1], query[|query| - 1];
      TallyStarts(vector, front);
      TermStarts(TallyOf(vector, front), vector, last.dim, last.weight);
    }
  }

  lemma {:induction false} MatchingStarts(vector: Vector, query: Vector)
    requires Dot(vector, query) > 0
    ensures TallyOf(vector, query).starts >= 1
  {
    TallyIsDot(vector, query);
    TallyStarts(vector, query);
  }

  lemma {:induction false} OnceListed(documents: seq<Vector>, query: Vector)
    requires StartsOnce(documents, query)
    ensures multiset(Listed(documents, query)) == multiset(Matches(documents, query))
  {
    forall c ensures multiset(Listed(documents, query))[c] == multiset(Matches(documents, query))[c] {
      ListedCount(documents, query, c);
      MatchCount(documents, query, c);
    }
  }

  lemma {:induction false} SameRanking(a: seq<Candidate>, b: seq<Candidate>)
    requires multiset(a) == multiset(b)
    ensures StableSort(a, RankLe) == StableSort(b, RankLe)
  {
    SortMultiset(a, RankLe);
    SortMultiset(b, RankLe);
    SortSorted(a, RankLe);
    SortSorted(b, RankLe);
    SortedPermutationUnique(StableSort(a, RankLe), StableSort(b, RankLe), RankLe);
  }

  lemma {:induction false} MoreListed(documents: seq<Vector>, query: Vector, i: nat)
    requires i < |documents| && Dot(documents[i], query) > 0
    requires TallyOf(documents[i], query).starts != 1
    ensures |Listed(documents, query)| > |Matches(documents, query)|
  {
    var listed, matches := multiset(Listed(documents, query)), multiset(Matches(documents, query));
    forall c ensures matches[c] <= listed[c] {
      ListedCount(documents, query, c);
      MatchCount(documents, query, c);
      if IsMatch(documents, query, c) {
        MatchingStarts(documents[c.document], query);
      }
    }
    var c := Candidate(Dot(documents[i], query), i);
    ListedCount(documents, query, c);
    MatchCount(documents, query, c);
    MatchingStarts(documents[i], query);
    assert (listed - matches)[c] > 0;
    assert listed == matches + (listed - matches);
    assert |listed - matches| > 0;
  }

  lemma {:induction false} MoreIsInexact(documents: seq<Vector>, query: Vector)
    requires |Listed(documents, query)| > |Matches(documents, query)|
    ensures !ExactFor(documents, query)
  {
    var k: nat := |Listed(documents, query)|;
    SortMultiset(Listed(documents, query), RankLe);
    SortMultiset(Matches(documents, query), RankLe);
    assert |TopOf(documents, query, k)| == k > |Best(documents, query, k)|;
  }

  /** For every corpus and all weights: the baseline is exact for every k
      exactly when no matching score returns to zero. */
  lemma {:induction false} ExactIffStartsOnce(documents: seq<Vector>, query: Vector)
    ensures ExactFor(documents, query) <==> StartsOnce(documents, query)
  {
    if StartsOnce(documents, query) {
      OnceListed(documents, query);
      SameRanking(Listed(documents, query), Matches(documents, query));
    } else {
      var i :| 0 <= i < |documents| && Dot(documents[i], query) > 0 && TallyOf(documents[i], query).starts != 1;
      MoreListed(documents, query, i);
      MoreIsInexact(documents, query);
    }
  }

  // ---- exact for a query ----

  predicate Positive(vector: Vector) {
    forall c :: 0 <= c < |vector| ==> vector[c].weight > 0
  }

  ghost predicate DistinctDims(vector: Vector) {
    forall a, b :: 0 <= a < b < |vector| ==> vector[a].dim != vector[b].dim
  }

  predicate Negative(query: Vector) {
    forall i :: 0 <= i < |query| ==> query[i].weight < 0
  }

  /** A positive weight follows only positive, or only negative, weights. */
  predicate Orderly(query: Vector) {
    forall l :: 0 <= l < |query| && query[l].weight > 0 ==> Positive(query[..l]) || Negative(query[..l])
  }

  /** A positive weight follows only positive weights. */
  predicate PositiveFirst(query: Vector) {
    forall l :: 0 <= l < |query| && query[l].weight > 0 ==> Positive(query[..l])
  }

  /** Never touched, or touched once and above zero since. */
  predicate Rising(t: Tally) {
    t == NONE || (t.score > 0 && t.starts == 1)
  }

  predicate Falling(t: Tally) {
    t == NONE || (t.score < 0 && t.starts == 1)
  }

  predicate OnceIfPositive(t: Tally) {
    t.score > 0 ==> t.starts == 1
  }

  lemma {:induction false} Sign(w: int, x: int)
    requires x > 0
    ensures (w * x > 0 <==> w > 0) && (w * x < 0 <==> w < 0)
  {
  }

  /** What a term does to a tally, by the sign of its weight. */
  lemma {:induction false} TermSigns(t: Tally, vector: Vector, d: nat, w: int)
    requires Positive(vector)
    ensures var r := AddTerm(t, vector, d, w);
      && (w > 0 && Rising(t) ==> Rising(r))
      && (w < 0 && Falling(t) ==> Falling(r))
      && (w <= 0 && OnceIfPositive(t) ==> OnceIfPositive(r))
  {
    if vector != [] {
      var n := |vector| - 1;
      TermSigns(t, vector[..n], d, w);
      Sign(w, vector[n].weight);
    }
  }

  lemma {:induction false} LacksTerm(t: Tally, vector: Vector, d: nat, w: int)
    requires Lacks(vector, d)
    ensures AddTerm(t, vector, d, w) == t
  {
    if vector != [] { LacksTerm(t, vector[..|vector| - 1], d, w); }
  }

  ghost predicate Lacks(vector: Vector, d: nat) {
    forall c :: 0 <= c < |vector| ==> vector[c].dim != d
  }

  /** A positive term at most once turns a falling tally. */
  lemma {:induction false} TermTurns(t: Tally, vector: Vector, d: nat, w: int)
    requires Positive(vector) && DistinctDims(vector) && w > 0 && Falling(t)
    ensures OnceIfPositive(AddTerm(t, vector, d, w))
  {
    if vector != [] {
      var n := |vector| - 1;
      Sign(w, vector[n].weight);
      if vector[n].dim == d { LacksTerm(t, vector[..n], d, w); } else { TermTurns(t, vector[..n], d, w); }
    }
  }

  lemma {:induction false} SameSign(vector: Vector, query: Vector)
    requires Positive(vector)
    ensures Positive(query) ==> Rising(TallyOf(vector, query))
    ensures Negative(query) ==> Falling(TallyOf(vector, query))
  {
    if query != [] {
      var n := |query| - 1;
      SameSign(vector, query[..n]);
      TermSigns(TallyOf(vector, query[..n]), vector, query[n].dim, query[n].weight);
    }
  }

  lemma {:induction false} OrderlyOnce(vector: Vector, query: Vector)
    requires Positive(vector) && (PositiveFirst(query) || (DistinctDims(vector) && Orderly(query)))
    ensures OnceIfPositive(TallyOf(vector, query))
  {
    if query != [] {
      var n := |query| - 1;
      var front, last := query[..n], query[n];
      assert forall l :: 0 <= l < n ==> front[..l] == query[..l] && front[l] == query[l];
      OrderlyOnce(vector, front);
      SameSign(vector, front);
      var t := TallyOf(vector, front);
      TermSigns(t, vector, last.dim, last.weight);
      if last.weight > 0 && !Positive(front) { TermTurns(t, vector, last.dim, last.weight); }
    }
  }

  // ---- inputs that fail ----

  /** The tally after the first n query terms. */
  function Upto(vector: Vector, query: Vector, n: nat): Tally
    requires n <= |query|
  {
    if n == 0 then NONE else AddTerm(Upto(vector, query, n - 1), vector, query[n - 1].dim, query[n - 1].weight)
  }

  lemma {:induction false} UptoIs(vector: Vector, query: Vector, n: nat)
    requires n <= |query|
    ensures TallyOf(vector, query[..n]) == Upto(vector, query, n)
  {
    if n > 0 {
      UptoIs(vector, query, n - 1);
      assert query[..n][..n - 1] == query[..n - 1];
    }
  }

  /** Terms the vector lacks change nothing. */
  lemma {:induction false} LacksRange(vector: Vector, query: Vector, from: nat, to: nat)
    requires from <= to <= |query| && forall q :: from <= q < to ==> Lacks(vector, query[q].dim)
    ensures Upto(vector, query, to) == Upto(vector, query, from)
  {
    if from < to {
      LacksRange(vector, query, from, to - 1);
      LacksTerm(Upto(vector, query, to - 1), vector, query[to - 1].dim, query[to - 1].weight);
    }
  }

  function AddIf(t: Tally, c: Component, d: nat, w: int): Tally {
    if c.dim == d then Add(t, w * c.weight) else t
  }

  lemma {:induction false} TermNext(t: Tally, vector: Vector, c: Component, d: nat, w: int)
    ensures AddTerm(t, vector + [c], d, w) == AddIf(AddTerm(t, vector, d, w), c, d, w)
  {
    assert (vector + [c])[..|vector|] == vector;
  }

  lemma {:induction false} TermOfThree(t: Tally, a: Component, b: Component, c: Component, d: nat, w: int)
    ensures AddTerm(t, [a, b], d, w) == AddIf(AddIf(t, a, d, w), b, d, w)
    ensures AddTerm(t, [a, b, c], d, w) == AddIf(AddTerm(t, [a, b], d, w), c, d, w)
  {
    TermNext(t, [], a, d, w);
    TermNext(t, [a], b, d, w);
    TermNext(t, [a, b], c, d, w);
    assert [] + [a] == [a] && [a] + [b] == [a, b] && [a, b] + [c] == [a, b, c];
  }

  /** A document that scores and whose score returns to zero. */
  ghost predicate Fails(vector: Vector, query: Vector) {
    Positive(vector) && Dot(vector, query) > 0 && TallyOf(vector, query).starts != 1
  }

  lemma {:induction false} FailsBy(vector: Vector, query: Vector)
    requires Positive(vector) && Upto(vector, query, |query|).score > 0 && Upto(vector, query, |query|).starts > 1
    ensures Fails(vector, query)
  {
    UptoIs(vector, query, |query|);
    assert query[..|query|] == query;
    TallyIsDot(vector, query);
  }

  /** A zero weight before a positive one. */
  lemma {:induction false} ZeroBefore(query: Vector, z: nat, l: nat) returns (vector: Vector)
    requires DistinctDims(query) && z < l < |query| && query[z].weight == 0 < query[l].weight
    ensures DistinctDims(vector) && Fails(vector, query)
  {
    var a, b := Component(query[z].dim, 1), Component(query[l].dim, 1);
    vector := [a, b];
    LacksRange(vector, query, 0, z);
    TermOfThree(NONE, a, b, b, query[z].dim, 0);
    LacksRange(vector, query, z + 1, l);
    TermOfThree(Tally(0, 1), a, b, b, query[l].dim, query[l].weight);
    LacksRange(vector, query, l + 1, |query|);
    FailsBy(vector, query);
  }

  lemma {:induction false} Cancelling(query: Vector, i: nat, j: nat, l: nat, a: Component, b: Component, c: Component)
    requires DistinctDims(query) && i < j < l < |query| && query[l].weight > 0
    requires a.dim == query[i].dim && b.dim == query[j].dim && c == Component(query[l].dim, 1)
    requires a.weight > 0 && b.weight > 0 && query[i].weight * a.weight != 0
    requires query[j].weight * b.weight == -(query[i].weight * a.weight)
    ensures DistinctDims([a, b, c]) && Fails([a, b, c], query)
  {
    var vector, x := [a, b, c], query[i].weight * a.weight;
    LacksRange(vector, query, 0, i);
    TermOfThree(NONE, a, b, c, query[i].dim, query[i].weight);
    LacksRange(vector, query, i + 1, j);
    TermOfThree(Tally(x, 1), a, b, c, query[j].dim, query[j].weight);
    LacksRange(vector, query, j + 1, l);
    TermOfThree(Tally(0, 1), a, b, c, query[l].dim, query[l].weight);
    LacksRange(vector, query, l + 1, |query|);
    FailsBy(vector, query);
  }

  /** A positive and a negative weight before a positive one. */
  lemma {:induction false} BothBefore(query: Vector, i: nat, j: nat, l: nat) returns (vector: Vector)
    requires DistinctDims(query) && i < j < l < |query| && query[l].weight > 0
    requires query[i].weight < 0 < query[j].weight || query[j].weight < 0 < query[i].weight
    ensures DistinctDims(vector) && Fails(vector, query)
  {
    var u, v := query[i].weight, query[j].weight;
    var x, y := if u < 0 then v else -v, if u < 0 then -u else u;
    assert v * y == -(u * x) && u * x != 0;
    vector := [Component(query[i].dim, x), Component(query[j].dim, y), Component(query[l].dim, 1)];
    Cancelling(query, i, j, l, vector[0], vector[1], vector[2]);
  }

  lemma {:induction false} Repeating(query: Vector, n: nat, l: nat, a: Component, b: Component, c: Component)
    requires DistinctDims(query) && n < l < |query| && query[l].weight > 0
    requires a.dim == query[n].dim && b.dim == query[l].dim && c == Component(query[l].dim, 1)
    requires a.weight > 0 && b.weight > 0 && query[n].weight * a.weight != 0
    requires query[l].weight * b.weight == -(query[n].weight * a.weight)
    ensures Fails([a, b, c], query)
  {
    var vector, x := [a, b, c], query[n].weight * a.weight;
    LacksRange(vector, query, 0, n);
    TermOfThree(NONE, a, b, c, query[n].dim, query[n].weight);
    LacksRange(vector, query, n + 1, l);
    TermOfThree(Tally(x, 1), a, b, c, query[l].dim, query[l].weight);
    LacksRange(vector, query, l + 1, |query|);
    FailsBy(vector, query);
  }

  /** A negative weight before a positive one, whose dimension is repeated. */
  lemma {:induction false} NegativeBefore(query: Vector, n: nat, l: nat) returns (vector: Vector)
    requires DistinctDims(query) && n < l < |query| && query[n].weight < 0 < query[l].weight
    ensures Fails(vector, query)
  {
    var u, w := query[n].weight, query[l].weight;
    assert w * -u == -(u * w) && u * w != 0;
    vector := [Component(query[n].dim, w), Component(query[l].dim, -u), Component(query[l].dim, 1)];
    Repeating(query, n, l, vector[0], vector[1], vector[2]);
  }

  // ---- the exact condition on a query ----

  ghost predicate AllPositiveIn(documents: seq<Vector>) {
    forall i :: 0 <= i < |documents| ==> Positive(documents[i])
  }

  ghost predicate AllDistinctIn(documents: seq<Vector>) {
    forall i :: 0 <= i < |documents| ==> DistinctDims(documents[i])
  }

  /** The baseline is exact for every corpus of positive vectors. */
  ghost predicate AlwaysExact(query: Vector) {
    forall documents: seq<Vector> :: AllPositiveIn(documents) ==> ExactFor(documents, query)
  }

  /** The same for vectors that name each dimension once. */
  ghost predicate ExactOnDistinct(query: Vector) {
    forall documents: seq<Vector> ::
      AllPositiveIn(documents) && AllDistinctIn(documents) ==> ExactFor(documents, query)
  }

  lemma {:induction false} FailingCorpus(vector: Vector, query: Vector)
    requires Fails(vector, query)
    ensures !ExactFor([vector], query)
  {
    ExactIffStartsOnce([vector], query);
    assert [vector][0] == vector;
  }

  lemma {:induction false} DisorderlyFails(query: Vector) returns (vector: Vector)
    requires DistinctDims(query) && !Orderly(query)
    ensures DistinctDims(vector) && Fails(vector, query)
  {
    var l :| 0 <= l < |query| && query[l].weight > 0 && !Positive(query[..l]) && !Negative(query[..l]);
    var p :| 0 <= p < l && query[p].weight <= 0;
    var q :| 0 <= q < l && query[q].weight >= 0;
    if query[p].weight == 0 {
      vector := ZeroBefore(query, p, l);
    } else if query[q].weight == 0 {
      vector := ZeroBefore(query, q, l);
    } else if p < q {
      vector := BothBefore(query, p, q, l);
    } else {
      vector := BothBefore(query, q, p, l);
    }
  }

  lemma {:induction false} MixedFails(query: Vector) returns (vector: Vector)
    requires DistinctDims(query) && !PositiveFirst(query)
    ensures Fails(vector, query)
  {
    var l :| 0 <= l < |query| && query[l].weight > 0 && !Positive(query[..l]);
    var p :| 0 <= p < l && query[p].weight <= 0;
    if query[p].weight == 0 { vector := ZeroBefore(query, p, l); } else { vector := NegativeBefore(query, p, l); }
  }

  lemma {:induction false} OrderlyExact(documents: seq<Vector>, query: Vector)
    requires AllPositiveIn(documents) && (PositiveFirst(query) || (Orderly(query) && AllDistinctIn(documents)))
    ensures ExactFor(documents, query)
  {
    forall i | 0 <= i < |documents| && Dot(documents[i], query) > 0 ensures TallyOf(documents[i], query).starts == 1 {
      OrderlyOnce(documents[i], query);
      TallyIsDot(documents[i], query);
    }
    ExactIffStartsOnce(documents, query);
  }

  /** The exact condition for vectors that name each dimension once: a positive
      query weight follows no zero, and not both signs. */
  lemma {:induction false} ExactIffOrderly(query: Vector)
    requires DistinctDims(query)
    ensures ExactOnDistinct(query) <==> Orderly(query)
  {
    if Orderly(query) {
      forall documents: seq<Vector> | AllPositiveIn(documents) && AllDistinctIn(documents)
        ensures ExactFor(documents, query)
      {
        OrderlyExact(documents, query);
      }
    } else {
      var vector := DisorderlyFails(query);
      FailingCorpus(vector, query);
    }
  }

  /** The exact condition for vectors that may repeat a dimension: a positive
      query weight follows positive ones only. */
  lemma {:induction false} ExactIffPositiveFirst(query: Vector)
    requires DistinctDims(query)
    ensures AlwaysExact(query) <==> PositiveFirst(query)
  {
    if PositiveFirst(query) {
      forall documents: seq<Vector> | AllPositiveIn(documents)
        ensures ExactFor(documents, query)
      {
        OrderlyExact(documents, query);
      }
    } else {
      var vector := MixedFails(query);
      FailingCorpus(vector, query);
    }
  }

  lemma {:induction false} AllSame(s: seq<Candidate>, x: Candidate)
    requires forall i :: 0 <= i < |s| ==> s[i] == x
    ensures multiset(s)[x] == |s|
  {
    if s != [] {
      AllSame(s[..|s| - 1], x);
      assert s == s[..|s| - 1] + [s[|s| - 1]];
    }
  }

  lemma {:induction false} AloneAll(vector: Vector, query: Vector, one: Candidate)
    requires Dot(vector, query) > 0 && one == Candidate(Dot(vector, query), 0)
    ensures |Listed([vector], query)| == TallyOf(vector, query).starts
    ensures forall i :: 0 <= i < |Listed([vector], query)| ==> Listed([vector], query)[i] == one
  {
    var listed := Listed([vector], query);
    forall i | 0 <= i < |listed| ensures listed[i] == one {
      ListedCount([vector], query, listed[i]);
      assert multiset(listed)[listed[i]] > 0;
    }
    ListedCount([vector], query, one);
    AllSame(listed, one);
  }

  /** A matching document alone is listed once per start. */
  lemma {:induction false} AloneListed(vector: Vector, query: Vector, k: nat)
    requires Dot(vector, query) > 0
    ensures var starts, top := TallyOf(vector, query).starts, TopOf([vector], query, k);
      |top| == (if starts <= k then starts else k) && forall i :: 0 <= i < |top| ==> top[i] == 0
  {
    AloneAll(vector, query, Candidate(Dot(vector, query), 0));
    SortFixpoint(Listed([vector], query), RankLe);
  }

  lemma {:induction false} TwoTerms(vector: Vector, p: Component, q: Component)
    ensures TallyOf(vector, [p, q]) == AddTerm(AddTerm(NONE, vector, p.dim, p.weight), vector, q.dim, q.weight)
  {
    QueryNext(vector, [], p);
    QueryNext(vector, [p], q);
    assert [] + [p] == [p] && [p] + [q] == [p, q];
  }

  lemma {:induction false} QueryNext(vector: Vector, query: Vector, q: Component)
    ensures TallyOf(vector, query + [q]) == AddTerm(TallyOf(vector, query), vector, q.dim, q.weight)
  {
    assert (query + [q])[..|query|] == query;
  }

  /** A document in two dimensions, a zero weight before a positive one. */
  lemma {:induction false} ZeroListsTwice(a: Component, b: Component, p: Component, q: Component)
    requires a.dim == p.dim != b.dim == q.dim && p.weight == 0 && q.weight * b.weight > 0
    ensures TopOf([[a, b]], [p, q], 2) == [0, 0]
  {
    TwoTerms([a, b], p, q);
    TermOfThree(NONE, a, b, b, p.dim, 0);
    TermOfThree(Tally(0, 1), a, b, b, q.dim, q.weight);
    TallyIsDot([a, b], [p, q]);
    AloneListed([a, b], [p, q], 2);
  }

  /** The same at an input. */
  lemma {:induction false} ListedTwice()
    ensures TopOf([[Component(0, 1), Component(1, 1)]], [Component(0, 0), Component(1, 1)], 2) == [0, 0]
  {
    ZeroListsTwice(Component(0, 1), Component(1, 1), Component(0, 0), Component(1, 1));
  }
}
