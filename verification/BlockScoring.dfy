/** Layouts of a block of sparse documents and the scorers that run on them. */
module BlockScoring {
  import opened Sorting

  const BLOCK_SIZE: nat := 32
  const VOCABULARY: nat := 105879
  const U8_MAX: nat := 255
  const U16_MAX: nat := 65535
  const U32_SIZE: nat := 0x1_0000_0000

  datatype Feature = Feature(dim: nat, impact: nat)

  datatype Weighted = Weighted(dim: nat, weight: nat)

  type Document = seq<Feature>
  type Query = seq<Weighted>

  /** Ascending distinct dimensions of the vocabulary, byte impacts. */
  ghost predicate IsDocument(doc: Document) {
    && (forall i :: 0 <= i < |doc| ==> doc[i].dim < VOCABULARY && doc[i].impact <= U8_MAX)
    && forall i, j :: 0 <= i < j < |doc| ==> doc[i].dim < doc[j].dim
  }

  ghost predicate IsQuery(query: Query) {
    && (forall i :: 0 <= i < |query| ==> query[i].dim < VOCABULARY && query[i].weight <= U16_MAX)
    && forall i, j :: 0 <= i < j < |query| ==> query[i].dim < query[j].dim
  }

  ghost predicate IsBlock(docs: seq<Document>) {
    |docs| == BLOCK_SIZE && forall s :: 0 <= s < BLOCK_SIZE ==> IsDocument(docs[s])
  }

  // ---- the plain dot product ----

  function Impact(doc: Document, d: nat): nat {
    if doc == [] then 0 else if doc[0].dim == d then doc[0].impact else Impact(doc[1..], d)
  }

  function Weight(query: Query, d: nat): nat {
    if query == [] then 0 else if query[0].dim == d then query[0].weight else Weight(query[1..], d)
  }

  /** What every scorer must compute for a document. */
  function Dot(doc: Document, query: Query): nat {
    if query == [] then 0 else Impact(doc, query[0].dim) * query[0].weight + Dot(doc, query[1..])
  }

  lemma {:induction false} ImpactAbsent(doc: Document, d: nat)
    requires forall i :: 0 <= i < |doc| ==> doc[i].dim != d
    ensures Impact(doc, d) == 0
  {
    if doc != [] { ImpactAbsent(doc[1..], d); }
  }

  lemma {:induction false} ImpactGrow(doc: Document, f: Feature, d: nat)
    requires forall i :: 0 <= i < |doc| ==> doc[i].dim != f.dim
    ensures Impact(doc + [f], d) == if d == f.dim then f.impact else Impact(doc, d)
  {
    if doc != [] {
      assert (doc + [f])[1..] == doc[1..] + [f];
      ImpactGrow(doc[1..], f, d);
    }
  }

  lemma {:induction false} ImpactBound(doc: Document, d: nat)
    requires forall i :: 0 <= i < |doc| ==> doc[i].impact <= U8_MAX
    ensures Impact(doc, d) <= U8_MAX
  {
    if doc != [] { ImpactBound(doc[1..], d); }
  }

  lemma {:induction false} DotStep(doc: Document, query: Query, k: nat)
    requires k < |query|
    ensures Dot(doc, query[..k + 1]) == Dot(doc, query[..k]) + Impact(doc, query[k].dim) * query[k].weight
  {
    if k == 0 {
      assert query[..1][1..] == [] && query[..0] == [];
    } else {
      assert query[..k + 1][1..] == query[1..][..k] && query[..k][1..] == query[1..][..k - 1];
      DotStep(doc, query[1..], k - 1);
    }
  }

  // ---- making a document ----

  /** Largest impact given for a dimension. */
  function MaxFor(features: seq<Feature>, d: nat): nat {
    if features == [] then 0
    else
      var before, last := MaxFor(features[..|features| - 1], d), features[|features| - 1];
      if last.dim == d && last.impact > before then last.impact else before
  }

  predicate ByDim(a: Feature, b: Feature) {
    a.dim <= b.dim
  }

  ghost predicate Ascends(doc: Document) {
    forall i, j :: 0 <= i < j < |doc| ==> doc[i].dim < doc[j].dim
  }

  ghost predicate KeepsMaxima(doc: Document, features: seq<Feature>) {
    forall d :: Impact(doc, d) == MaxFor(features, d)
  }

  ghost predicate Deduped(doc: Document, features: seq<Feature>) {
    && Ascends(doc) && KeepsMaxima(doc, features) && (doc == [] <==> features == [])
    && (doc != [] ==> doc[|doc| - 1].dim == features[|features| - 1].dim)
  }

  /** Merge features of the same dimension, keeping the largest impact. */
  method Dedup(sorted: seq<Feature>) returns (doc: Document)
    requires Sorted(sorted, ByDim)
    ensures Ascends(doc) && KeepsMaxima(doc, sorted)
  {
    doc := [];
    for i := 0 to |sorted|
      invariant Deduped(doc, sorted[..i])
    {
      var feature, n := sorted[i], |doc| - 1;
      assert sorted[..i + 1] == sorted[..i] + [feature];
      assert i > 0 ==> ByDim(sorted[i - 1], feature);
      if doc != [] && doc[n].dim == feature.dim {
        var merged := if feature.impact > doc[n].impact then feature.impact else doc[n].impact;
        ReplacesLast(doc, merged, feature, sorted[..i]);
        doc := doc[n := Feature(feature.dim, merged)];
      } else {
        AppendsNew(doc, feature, sorted[..i]);
        doc := doc + [feature];
      }
    }
    assert sorted[..|sorted|] == sorted;
  }

  lemma {:induction false} ReplacesLast(doc: Document, merged: nat, feature: Feature, front: seq<Feature>)
    requires doc != [] && Deduped(doc, front) && doc[|doc| - 1].dim == feature.dim
    requires merged == if feature.impact > doc[|doc| - 1].impact then feature.impact else doc[|doc| - 1].impact
    ensures Deduped(doc[|doc| - 1 := Feature(feature.dim, merged)], front + [feature])
  {
    var n := |doc| - 1;
    var kept := doc[..n];
    assert doc == kept + [doc[n]] && doc[n := Feature(feature.dim, merged)] == kept + [Feature(feature.dim, merged)];
    assert (front + [feature])[..|front|] == front;
    forall d ensures Impact(kept + [Feature(feature.dim, merged)], d) == MaxFor(front + [feature], d) {
      ImpactGrow(kept, doc[n], d);
      ImpactGrow(kept, Feature(feature.dim, merged), d);
    }
  }

  lemma {:induction false} AppendsNew(doc: Document, feature: Feature, front: seq<Feature>)
    requires Deduped(doc, front) && (doc != [] ==> doc[|doc| - 1].dim < feature.dim)
    ensures Deduped(doc + [feature], front + [feature])
  {
    assert forall k :: 0 <= k < |doc| ==> doc[k].dim < feature.dim;
    assert (front + [feature])[..|front|] == front;
    ImpactAbsent(doc, feature.dim);
    forall d ensures Impact(doc + [feature], d) == MaxFor(front + [feature], d) { ImpactGrow(doc, feature, d); }
  }

  /** However ties are sorted, the document has the same impacts. */
  lemma {:induction false} MaxForPermuted(a: seq<Feature>, b: seq<Feature>, d: nat)
    requires multiset(a) == multiset(b)
    ensures MaxFor(a, d) == MaxFor(b, d)
  {
    MaxForBounds(a, d);
    MaxForBounds(b, d);
    SameMembers(a, b);
  }

  lemma {:induction false} MaxForBounds(features: seq<Feature>, d: nat)
    ensures forall f :: f in features && f.dim == d ==> f.impact <= MaxFor(features, d)
    ensures MaxFor(features, d) == 0 || Feature(d, MaxFor(features, d)) in features
  {
    if features != [] { MaxForBounds(features[..|features| - 1], d); }
  }

  // ---- u32 accumulators ----

  /** The scores are the exact sums modulo 2^32, and some addition overflowed
      if and only if some sum does not fit. */
  ghost predicate Tracks(scores: seq<nat>, exact: seq<nat>, overflowed: bool) {
    && |scores| == |exact| && (forall s :: 0 <= s < |exact| ==> scores[s] == exact[s] % U32_SIZE)
    && (overflowed <==> exists s :: 0 <= s < |exact| && exact[s] >= U32_SIZE)
  }

  lemma {:induction false} TracksAdd(scores: seq<nat>, exact: seq<nat>, overflowed: bool, slot: nat, p: nat)
    requires Tracks(scores, exact, overflowed) && slot < |scores|
    ensures Tracks(scores[slot := (scores[slot] + p) % U32_SIZE], exact[slot := exact[slot] + p],
                   overflowed || scores[slot] + p >= U32_SIZE)
  {
    var after := exact[slot := exact[slot] + p];
    if overflowed {
      var s :| 0 <= s < |exact| && exact[s] >= U32_SIZE;
      assert after[s] >= U32_SIZE;
    } else if scores[slot] + p >= U32_SIZE {
      assert exact[slot] < U32_SIZE && after[slot] >= U32_SIZE;
    }
  }

  /** One `scores[slot] += impact * weight`. */
  method Accumulate(scores: array<nat>, slot: nat, p: nat, before: bool,
                    ghost exact: seq<nat>) returns (overflowed: bool)
    requires slot < scores.Length && Tracks(scores[..], exact, before)
    modifies scores
    ensures Tracks(scores[..], exact[slot := exact[slot] + p], overflowed)
  {
    overflowed := before || scores[slot] + p >= U32_SIZE;
    TracksAdd(scores[..], exact, before, slot, p);
    ghost var was := scores[..];
    scores[slot] := (scores[slot] + p) % U32_SIZE;
    assert scores[..] == was[slot := (was[slot] + p) % U32_SIZE];
  }

  method Clear(scores: array<nat>)
    modifies scores
    ensures Tracks(scores[..], Zeros(scores.Length), false)
  {
    for s := 0 to scores.Length
      invariant forall t :: 0 <= t < s ==> scores[t] == 0
    {
      scores[s] := 0;
    }
  }

  function Zeros(n: nat): (r: seq<nat>)
    ensures |r| == n && forall i :: 0 <= i < n ==> r[i] == 0
  {
    seq(n, _ => 0)
  }

  /** The scores a block must get. */
  ghost predicate Scored(scores: seq<nat>, overflowed: bool, docs: seq<Document>, query: Query) {
    && |scores| == |docs| && (forall s :: 0 <= s < |docs| ==> scores[s] == Dot(docs[s], query) % U32_SIZE)
    && (overflowed <==> exists s :: 0 <= s < |docs| && Dot(docs[s], query) >= U32_SIZE)
  }

  lemma {:induction false} TrackedIsScored(scores: seq<nat>, exact: seq<nat>, overflowed: bool, docs: seq<Document>,
                                           query: Query)
    requires Tracks(scores, exact, overflowed) && |exact| == |docs|
    requires forall s :: 0 <= s < |docs| ==> exact[s] == Dot(docs[s], query)
    ensures Scored(scores, overflowed, docs, query)
  {
    if exists s :: 0 <= s < |docs| && Dot(docs[s], query) >= U32_SIZE {
      var s :| 0 <= s < |docs| && Dot(docs[s], query) >= U32_SIZE;
      assert exact[s] >= U32_SIZE;
    }
  }

  // ---- when nothing overflows ----

  lemma {:induction false} DotBound(doc: Document, query: Query)
    requires forall i :: 0 <= i < |doc| ==> doc[i].impact <= U8_MAX
    requires forall i :: 0 <= i < |query| ==> query[i].weight <= U16_MAX
    ensures Dot(doc, query) <= U8_MAX * U16_MAX * |query|
  {
    if query != [] {
      ImpactBound(doc, query[0].dim);
      ProductBound(Impact(doc, query[0].dim), query[0].weight);
      DotBound(doc, query[1..]);
    }
  }

  lemma {:induction false} ProductBound(x: nat, y: nat)
    requires x <= U8_MAX && y <= U16_MAX
    ensures x * y <= U8_MAX * U16_MAX
  {
  }

  /** The heaviest document and query of n dimensions. */
  function FullDocument(n: nat): (r: Document)
    ensures |r| == n && forall i :: 0 <= i < n ==> r[i] == Feature(i, U8_MAX)
  {
    seq(n, (i: nat) => Feature(i, U8_MAX))
  }

  function FullQuery(n: nat): (r: Query)
    ensures |r| == n && forall i :: 0 <= i < n ==> r[i] == Weighted(i, U16_MAX)
  {
    seq(n, (i: nat) => Weighted(i, U16_MAX))
  }

  lemma {:induction false} FullImpact(doc: Document, i: nat)
    requires i < |doc| && forall k, l :: 0 <= k < l < |doc| ==> doc[k].dim < doc[l].dim
    ensures Impact(doc, doc[i].dim) == doc[i].impact
  {
    if i > 0 { FullImpact(doc[1..], i - 1); }
  }

  lemma {:induction false} FullDot(n: nat, k: nat)
    requires k <= n
    ensures Dot(FullDocument(n), FullQuery(n)[..k]) == U8_MAX * U16_MAX * k
  {
    if k > 0 {
      FullDot(n, k - 1);
      DotStep(FullDocument(n), FullQuery(n), k - 1);
      FullImpact(FullDocument(n), k - 1);
    }
  }

  /** No accumulator overflows for any document if and only if the query has at
      most 257 dimensions. */
  lemma {:induction false} NoOverflowIff(n: nat)
    requires n <= VOCABULARY
    ensures (forall doc, query :: IsDocument(doc) && IsQuery(query) && |query| == n ==> Dot(doc, query) < U32_SIZE)
            <==> n <= 257
  {
    if n <= 257 {
      forall doc, query | IsDocument(doc) && IsQuery(query)
             && |query| == n ensures Dot(doc, query) < U32_SIZE { DotBound(doc, query); }
    } else {
      FullDot(n, n);
      assert FullQuery(n)[..n] == FullQuery(n);
      assert IsDocument(FullDocument(n)) && IsQuery(FullQuery(n));
      assert Dot(FullDocument(n), FullQuery(n)) >= U32_SIZE;
    }
  }

  // ---- document-major layout ----

  datatype ForwardBlock = ForwardBlock(starts: seq<nat>, dims: seq<nat>, impacts: seq<nat>)

  /** The document is stored from a position on. */
  ghost predicate StoredAt(dims: seq<nat>, impacts: seq<nat>, at: nat, doc: Document) {
    && at + |doc| <= |dims| == |impacts|
    && forall k :: 0 <= k < |doc| ==> dims[at + k] == doc[k].dim && impacts[at + k] == doc[k].impact
  }

  ghost predicate IsForward(block: ForwardBlock, docs: seq<Document>) {
    && |block.starts| == |docs| + 1
    && forall s :: 0 <= s < |docs| ==>
         && StoredAt(block.dims, block.impacts, block.starts[s], docs[s])
         && block.starts[s + 1] == block.starts[s] + |docs[s]|
  }

  method BuildForward(docs: seq<Document>) returns (block: ForwardBlock)
    ensures IsForward(block, docs)
  {
    var starts: seq<nat>, dims: seq<nat>, impacts: seq<nat> := [], [], [];
    for s := 0 to |docs|
      invariant IsForward(ForwardBlock(starts + [|dims|], dims, impacts), docs[..s]) && |dims| == |impacts|
    {
      starts := starts + [|dims|];
      ghost var dims0, impacts0 := dims, impacts;
      for k := 0 to |docs[s]|
        invariant |dims| == |impacts| == |dims0| + k && dims0 <= dims && impacts0 <= impacts
        invariant StoredAt(dims, impacts, |dims0|, docs[s][..k])
      {
        dims, impacts := dims + [docs[s][k].dim], impacts + [docs[s][k].impact];
      }
      assert docs[s][..|docs[s]|] == docs[s];
    }
    assert docs[..|docs|] == docs;
    block := ForwardBlock(starts + [|dims|], dims, impacts);
  }

  // ---- merge-join scoring ----

  lemma {:induction false} DropFeature(doc: Document, query: Query)
    requires doc != [] && forall i :: 0 <= i < |query| ==> query[i].dim != doc[0].dim
    ensures Dot(doc, query) == Dot(doc[1..], query)
  {
    if query != [] { DropFeature(doc, query[1..]); }
  }

  /** What one step of the join adds, and what is left to join. */
  lemma {:induction false} JoinStep(doc: Document, query: Query)
    requires doc != [] && query != [] && IsDocument(doc) && IsQuery(query)
    ensures doc[0].dim < query[0].dim ==> Dot(doc, query) == Dot(doc[1..], query)
    ensures doc[0].dim > query[0].dim ==> Dot(doc, query) == Dot(doc, query[1..])
    ensures doc[0].dim == query[0].dim ==>
              Dot(doc, query) == doc[0].impact * query[0].weight + Dot(doc[1..], query[1..])
  {
    if doc[0].dim < query[0].dim {
      DropFeature(doc, query);
    } else if doc[0].dim > query[0].dim {
      ImpactAbsent(doc, query[0].dim);
    } else {
      DropFeature(doc, query[1..]);
    }
  }

  lemma {:induction false} EmptyDocument(query: Query)
    ensures Dot([], query) == 0
  {
    if query != [] { EmptyDocument(query[1..]); }
  }

  /** The accumulator holds the sum modulo 2^32, and overflowed if and only if
      the sum does not fit. */
  ghost predicate Holds(score: nat, overflowed: bool, sum: nat) {
    score == sum % U32_SIZE && (overflowed <==> sum >= U32_SIZE)
  }

  /** One `score += product`. */
  method Add(score: nat, overflowed: bool, p: nat, ghost sum: nat) returns (after: nat, over: bool)
    requires Holds(score, overflowed, sum)
    ensures Holds(after, over, sum + p)
  {
    after, over := (score + p) % U32_SIZE, overflowed || score + p >= U32_SIZE;
  }

  /** What the join still has to add. */
  ghost function Rest(doc: Document, query: Query, l: nat, r: nat): nat
    requires l <= |doc| && r <= |query|
  {
    Dot(doc[l..], query[r..])
  }

  lemma {:induction false} RestAt(doc: Document, query: Query, l: nat, r: nat)
    requires l < |doc| && r < |query| && IsDocument(doc) && IsQuery(query)
    ensures doc[l].dim < query[r].dim ==> Rest(doc, query, l, r) == Rest(doc, query, l + 1, r)
    ensures doc[l].dim > query[r].dim ==> Rest(doc, query, l, r) == Rest(doc, query, l, r + 1)
    ensures doc[l].dim == query[r].dim ==>
              Rest(doc, query, l, r) == doc[l].impact * query[r].weight + Rest(doc, query, l + 1, r + 1)
  {
    JoinStep(doc[l..], query[r..]);
    assert doc[l..][1..] == doc[l + 1..] && query[r..][1..] == query[r + 1..];
  }

  lemma {:induction false} RestEnds(doc: Document, query: Query, l: nat, r: nat)
    requires l <= |doc| && r <= |query| && (l == |doc| || r == |query|)
    ensures Rest(doc, query, l, r) == 0
  {
    if l == |doc| { EmptyDocument(query[r..]); }
  }

  lemma {:induction false} RestStarts(doc: Document, query: Query)
    ensures Rest(doc, query, 0, 0) == Dot(doc, query)
  {
    assert doc[0..] == doc && query[0..] == query;
  }

  /** Score one document by joining it with the query. */
  method JoinDocument(dims: seq<nat>, impacts: seq<nat>, query: Query,
                      ghost doc: Document) returns (score: nat, overflowed: bool)
    requires StoredAt(dims, impacts, 0, doc) && |dims| == |doc| && IsDocument(doc) && IsQuery(query)
    ensures Holds(score, overflowed, Dot(doc, query))
  {
    var left, right := 0, 0;
    score, overflowed := 0, false;
    ghost var sum: nat := 0;
    RestStarts(doc, query);
    while left < |dims| && right < |query|
      invariant left <= |dims| && right <= |query|
      invariant sum + Rest(doc, query, left, right) == Dot(doc, query) && Holds(score, overflowed, sum)
      decreases |dims| - left + |query| - right
    {
      RestAt(doc, query, left, right);
      if dims[left] < query[right].dim {
        left := left + 1;
      } else if dims[left] > query[right].dim {
        right := right + 1;
      } else {
        var p := impacts[left] * query[right].weight;
        score, overflowed := Add(score, overflowed, p, sum);
        sum := sum + p;
        left, right := left + 1, right + 1;
      }
    }
    RestEnds(doc, query, left, right);
  }

  /** The first documents are scored. */
  ghost predicate FirstScored(scores: seq<nat>, overflowed: bool, docs: seq<Document>, query: Query, n: nat) {
    && n <= |scores| == |docs| && (forall s :: 0 <= s < n ==> scores[s] == Dot(docs[s], query) % U32_SIZE)
    && (overflowed <==> exists s :: 0 <= s < n && Dot(docs[s], query) >= U32_SIZE)
  }

  method ScoreForward(block: ForwardBlock, query: Query, scores: array<nat>,
                      ghost docs: seq<Document>) returns (overflowed: bool)
    requires IsBlock(docs) && IsForward(block, docs) && IsQuery(query) && scores.Length == BLOCK_SIZE
    modifies scores
    ensures Scored(scores[..], overflowed, docs, query)
  {
    overflowed := false;
    for s := 0 to BLOCK_SIZE
      invariant FirstScored(scores[..], overflowed, docs, query, s)
    {
      var start, end := block.starts[s], block.starts[s + 1];
      var score, over := JoinDocument(block.dims[start..end], block.impacts[start..end], query, docs[s]);
      scores[s], overflowed := score, overflowed || over;
    }
  }

  // ---- lookup-table scoring ----

  ghost predicate IsLookup(lookup: seq<nat>, query: Query) {
    |lookup| == VOCABULARY && forall d :: 0 <= d < VOCABULARY ==> lookup[d] == Weight(query, d)
  }

  lemma {:induction false} WeightStep(query: Query, k: nat, d: nat)
    requires k < |query| && forall i, j :: 0 <= i < j < |query| ==> query[i].dim < query[j].dim
    ensures Weight(query[..k + 1], d) == if query[k].dim == d then query[k].weight else Weight(query[..k], d)
  {
    if k == 0 {
      assert query[..1][1..] == [] && query[..0] == [];
    } else {
      assert query[..k + 1][1..] == query[1..][..k] && query[..k][1..] == query[1..][..k - 1];
      WeightStep(query[1..], k - 1, d);
    }
  }

  method BuildLookup(query: Query) returns (lookup: array<nat>)
    requires IsQuery(query)
    ensures fresh(lookup) && IsLookup(lookup[..], query)
  {
    lookup := new nat[VOCABULARY](_ => 0);
    for k := 0 to |query|
      invariant forall d :: 0 <= d < VOCABULARY ==> lookup[d] == Weight(query[..k], d)
    {
      lookup[query[k].dim] := query[k].weight;
      forall d | 0 <= d < VOCABULARY ensures lookup[d] == Weight(query[..k + 1], d) {
        WeightStep(query, k, d);
      }
    }
    assert query[..|query|] == query;
  }

  lemma {:induction false} WeightAbsent(query: Query, d: nat)
    requires forall i :: 0 <= i < |query| ==> query[i].dim != d
    ensures Weight(query, d) == 0
  {
    if query != [] { WeightAbsent(query[1..], d); }
  }

  /** One more feature adds its impact times the query's weight for it. */
  lemma {:induction false} DotGrow(doc: Document, f: Feature, query: Query)
    requires forall i :: 0 <= i < |doc| ==> doc[i].dim != f.dim
    requires forall i, j :: 0 <= i < j < |query| ==> query[i].dim < query[j].dim
    ensures Dot(doc + [f], query) == Dot(doc, query) + f.impact * Weight(query, f.dim)
  {
    if query != [] {
      ImpactGrow(doc, f, query[0].dim);
      DotGrow(doc, f, query[1..]);
      if query[0].dim == f.dim {
        ImpactAbsent(doc, f.dim);
        WeightAbsent(query[1..], f.dim);
      }
    }
  }

  /** Score one document by looking its dimensions up. */
  method LookupDocument(dims: seq<nat>, impacts: seq<nat>, lookup: array<nat>, ghost doc: Document, ghost query: Query)
    returns (score: nat, overflowed: bool)
    requires StoredAt(dims, impacts, 0, doc) && |dims| == |doc| && IsDocument(doc) && IsQuery(query)
             && IsLookup(lookup[..], query)
    ensures Holds(score, overflowed, Dot(doc, query))
  {
    score, overflowed := 0, false;
    EmptyDocument(query);
    for k := 0 to |dims|
      invariant Holds(score, overflowed, Dot(doc[..k], query))
    {
      assert doc[..k + 1] == doc[..k] + [doc[k]];
      DotGrow(doc[..k], doc[k], query);
      var weight := lookup[dims[k]];
      score, overflowed := Add(score, overflowed, impacts[k] * weight, Dot(doc[..k], query));
    }
    assert doc[..|doc|] == doc;
  }

  method ScoreForwardLookup(block: ForwardBlock, lookup: array<nat>, scores: array<nat>, ghost docs: seq<Document>,
                            ghost query: Query)
    returns (overflowed: bool)
    requires IsBlock(docs) && IsForward(block, docs) && IsQuery(query) && IsLookup(lookup[..], query)
    requires scores.Length == BLOCK_SIZE && lookup != scores
    modifies scores
    ensures Scored(scores[..], overflowed, docs, query)
  {
    overflowed := false;
    for s := 0 to BLOCK_SIZE
      invariant FirstScored(scores[..], overflowed, docs, query, s)
    {
      var start, end := block.starts[s], block.starts[s + 1];
      var score, over := LookupDocument(block.dims[start..end], block.impacts[start..end], lookup, docs[s], query);
      scores[s], overflowed := score, overflowed || over;
    }
  }
}
