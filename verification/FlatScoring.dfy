/** The inverted layout of a block and its scorer. */
module FlatScoring {
  import opened Outcomes
  import opened Sorting
  import opened BlockScoring

  datatype Entry = Entry(dim: nat, slot: nat, impact: nat)

  datatype Posting = Posting(slot: nat, impact: nat)

  datatype FlatBlock = FlatBlock(dims: seq<nat>, starts: seq<nat>, maxima: seq<nat>, postings: seq<Posting>)

  predicate EntryLe(a: Entry, b: Entry) {
    a.dim < b.dim || (a.dim == b.dim && a.slot <= b.slot)
  }

  // ---- the entries of a block ----

  function SlotEntries(doc: Document, slot: nat): (r: seq<Entry>)
    ensures |r| == |doc| && forall i :: 0 <= i < |r| ==> r[i] == Entry(doc[i].dim, slot, doc[i].impact)
  {
    seq(|doc|, i requires 0 <= i < |doc| => Entry(doc[i].dim, slot, doc[i].impact))
  }

  function Entries(docs: seq<Document>): seq<Entry> {
    if docs == [] then [] else Entries(docs[..|docs| - 1]) + SlotEntries(docs[|docs| - 1], |docs| - 1)
  }

  /** Total impact the entries give a slot in a dimension. */
  function ImpactIn(entries: seq<Entry>, d: nat, s: nat): nat {
    if entries == [] then 0
    else
      var last := entries[|entries| - 1];
      ImpactIn(entries[..|entries| - 1], d, s) + (if last.dim == d && last.slot == s then last.impact else 0)
  }

  lemma {:induction false} ImpactAppend(a: seq<Entry>, b: seq<Entry>, d: nat, s: nat)
    ensures ImpactIn(a + b, d, s) == ImpactIn(a, d, s) + ImpactIn(b, d, s)
  {
    if b == [] {
      assert a + b == a;
    } else {
      ImpactAppend(a, b[..|b| - 1], d, s);
      DropLast(a, b);
    }
  }

  lemma {:induction false} ImpactPermuted(a: seq<Entry>, b: seq<Entry>, d: nat, s: nat)
    requires multiset(a) == multiset(b)
    ensures ImpactIn(a, d, s) == ImpactIn(b, d, s)
    decreases |a|
  {
    if a == [] {
      SameMembers(a, b);
    } else {
      var front, p, left, right := SplitLast(a, b);
      ImpactPermuted(front, left + right, d, s);
      ImpactAppend(front, [p], d, s);
      ImpactAppend(left, [p] + right, d, s);
      ImpactAppend([p], right, d, s);
      ImpactAppend(left, right, d, s);
    }
  }

  lemma {:induction false} ImpactElsewhere(entries: seq<Entry>, d: nat, s: nat)
    requires forall i :: 0 <= i < |entries| ==> entries[i].dim != d || entries[i].slot != s
    ensures ImpactIn(entries, d, s) == 0
  {
    if entries != [] { ImpactElsewhere(entries[..|entries| - 1], d, s); }
  }

  lemma {:induction false} SlotImpact(doc: Document, slot: nat, d: nat, k: nat)
    requires IsDocument(doc) && k <= |doc|
    ensures ImpactIn(SlotEntries(doc, slot)[..k], d, slot) == Impact(doc[..k], d)
  {
    if k > 0 {
      var entries := SlotEntries(doc, slot);
      SlotImpact(doc, slot, d, k - 1);
      assert entries[..k][..k - 1] == entries[..k - 1] && doc[..k] == doc[..k - 1] + [doc[k - 1]];
      ImpactGrow(doc[..k - 1], doc[k - 1], d);
      if doc[k - 1].dim == d { ImpactAbsent(doc[..k - 1], d); }
    }
  }

  lemma {:induction false} OneSlot(doc: Document, slot: nat, d: nat, s: nat)
    requires IsDocument(doc)
    ensures ImpactIn(SlotEntries(doc, slot), d, s) == if s == slot then Impact(doc, d) else 0
  {
    if s == slot {
      SlotImpact(doc, slot, d, |doc|);
      assert SlotEntries(doc, slot)[..|doc|] == SlotEntries(doc, slot) && doc[..|doc|] == doc;
    } else {
      ImpactElsewhere(SlotEntries(doc, slot), d, s);
    }
  }

  /** The entries hold each document's impacts. */
  lemma {:induction false} EntriesImpact(docs: seq<Document>, d: nat, s: nat)
    requires forall i :: 0 <= i < |docs| ==> IsDocument(docs[i])
    ensures ImpactIn(Entries(docs), d, s) == if s < |docs| then Impact(docs[s], d) else 0
  {
    if docs != [] {
      var n := |docs| - 1;
      ImpactAppend(Entries(docs[..n]), SlotEntries(docs[n], n), d, s);
      EntriesImpact(docs[..n], d, s);
      OneSlot(docs[n], n, d, s);
    }
  }

  lemma {:induction false} EntrySlots(docs: seq<Document>)
    ensures forall i :: 0 <= i < |Entries(docs)| ==> Entries(docs)[i].slot < |docs|
  {
    if docs != [] { EntrySlots(docs[..|docs| - 1]); }
  }

  // ---- building the runs ----

  function PostingsOf(entries: seq<Entry>): (r: seq<Posting>)
    ensures |r| == |entries| && forall i :: 0 <= i < |r| ==> r[i] == Posting(entries[i].slot, entries[i].impact)
  {
    seq(|entries|, i requires 0 <= i < |entries| => Posting(entries[i].slot, entries[i].impact))
  }

  function MaxImpact(entries: seq<Entry>): nat {
    if entries == [] then 0
    else
      var before, last := MaxImpact(entries[..|entries| - 1]), entries[|entries| - 1].impact;
      if last > before then last else before
  }

  /** Of the first n sorted entries, exactly those of the run are in its
      dimension. */
  ghost predicate IsRun(start: nat, end: nat, dim: nat, maximum: nat, sorted: seq<Entry>, n: nat) {
    && start < end <= n <= |sorted| && maximum == MaxImpact(sorted[start..end])
    && forall k :: 0 <= k < n ==> (sorted[k].dim == dim <==> start <= k < end)
  }

  ghost predicate Ascending(dims: seq<nat>) {
    forall i, j :: 0 <= i < j < |dims| ==> dims[i] < dims[j]
  }

  /** The dimensions of the first n entries. */
  ghost predicate Covers(dims: seq<nat>, sorted: seq<Entry>, n: nat) {
    n <= |sorted| && forall k :: 0 <= k < n ==> sorted[k].dim in dims
  }

  /** The first n sorted entries are cut into one run per dimension. */
  ghost predicate Runs(dims: seq<nat>, starts: seq<nat>, maxima: seq<nat>, sorted: seq<Entry>, n: nat) {
    && |starts| == |dims| + 1 && |maxima| == |dims| && starts[|dims|] == n && Ascending(dims) && Covers(dims, sorted, n)
    && forall i :: 0 <= i < |dims| ==> IsRun(starts[i], starts[i + 1], dims[i], maxima[i], sorted, n)
  }

  /** Everything before the position is in a smaller dimension. */
  ghost predicate Boundary(sorted: seq<Entry>, n: nat) {
    n <= |sorted| && (n < |sorted| ==> forall k :: 0 <= k < n ==> sorted[k].dim < sorted[n].dim)
  }

  /** Entries in one dimension, with their postings and largest impact. */
  ghost predicate IsTaken(sorted: seq<Entry>, start: nat, end: nat, maximum: nat, run: seq<Posting>) {
    && start <= end <= |sorted| && start < |sorted|
    && run == PostingsOf(sorted[start..end]) && maximum == MaxImpact(sorted[start..end])
    && forall k :: start <= k < end ==> sorted[k].dim == sorted[start].dim
  }

  lemma {:induction false} TakenStep(sorted: seq<Entry>, start: nat, end: nat, maximum: nat, run: seq<Posting>)
    requires IsTaken(sorted, start, end, maximum, run) && end < |sorted| && sorted[end].dim == sorted[start].dim
    ensures IsTaken(sorted, start, end + 1, if sorted[end].impact > maximum then sorted[end].impact else maximum,
                    run + [Posting(sorted[end].slot, sorted[end].impact)])
  {
    var more := sorted[start..end + 1];
    assert more[..end - start] == sorted[start..end] && more[end - start] == sorted[end];
    assert PostingsOf(more) == run + [Posting(sorted[end].slot, sorted[end].impact)];
  }

  lemma {:induction false} BoundaryAfter(sorted: seq<Entry>, start: nat, end: nat)
    requires Sorted(sorted, EntryLe) && Boundary(sorted, start) && start < end <= |sorted|
    requires forall k :: start <= k < end ==> sorted[k].dim == sorted[start].dim
    requires end < |sorted| ==> sorted[end].dim != sorted[start].dim
    ensures Boundary(sorted, end)
  {
    if end < |sorted| { assert EntryLe(sorted[start], sorted[end]); }
  }

  /** The run of one dimension. */
  method TakeRun(sorted: seq<Entry>, start: nat) returns (end: nat, maximum: nat, run: seq<Posting>)
    requires start < |sorted| && Sorted(sorted, EntryLe)
    ensures start < end && IsTaken(sorted, start, end, maximum, run)
    ensures Boundary(sorted, start) ==> Boundary(sorted, end)
  {
    end, maximum, run := start, 0, [];
    while end < |sorted| && sorted[end].dim == sorted[start].dim
      invariant IsTaken(sorted, start, end, maximum, run)
    {
      TakenStep(sorted, start, end, maximum, run);
      if sorted[end].impact > maximum { maximum := sorted[end].impact; }
      run := run + [Posting(sorted[end].slot, sorted[end].impact)];
      end := end + 1;
    }
    if Boundary(sorted, start) { BoundaryAfter(sorted, start, end); }
  }

  lemma {:induction false} RunKept(start: nat, end: nat, dim: nat, maximum: nat, sorted: seq<Entry>, n: nat, m: nat)
    requires IsRun(start, end, dim, maximum, sorted, n) && Boundary(sorted, n) && n < m <= |sorted|
    requires forall k :: n <= k < m ==> sorted[k].dim == sorted[n].dim
    ensures IsRun(start, end, dim, maximum, sorted, m) && dim < sorted[n].dim
  {
    assert sorted[start].dim == dim;
  }

  lemma {:induction false} NewRun(sorted: seq<Entry>, n: nat, m: nat)
    requires Boundary(sorted, n) && n < m <= |sorted| && forall k :: n <= k < m ==> sorted[k].dim == sorted[n].dim
    ensures IsRun(n, m, sorted[n].dim, MaxImpact(sorted[n..m]), sorted, m)
  {
  }

  lemma {:induction false} RunsStep(dims: seq<nat>, starts: seq<nat>, maxima: seq<nat>, sorted: seq<Entry>, n: nat,
                                    m: nat)
    requires Runs(dims, starts, maxima, sorted, n) && Boundary(sorted, n) && n < m <= |sorted|
    requires forall k :: n <= k < m ==> sorted[k].dim == sorted[n].dim
    ensures Runs(dims + [sorted[n].dim], starts + [m], maxima + [MaxImpact(sorted[n..m])], sorted, m)
  {
    var dims', starts', maxima' := dims + [sorted[n].dim], starts + [m], maxima + [MaxImpact(sorted[n..m])];
    NewRun(sorted, n, m);
    forall i | 0 <= i < |dims'|
      ensures IsRun(starts'[i], starts'[i + 1], dims'[i], maxima'[i], sorted, m)
      ensures i < |dims| ==> dims[i] < sorted[n].dim
    {
      if i < |dims| { RunKept(starts[i], starts[i + 1], dims[i], maxima[i], sorted, n, m); }
    }
    assert Covers(dims', sorted, m) by { assert dims'[|dims|] == sorted[n].dim; }
  }

  ghost predicate IsFlat(block: FlatBlock, sorted: seq<Entry>) {
    block.postings == PostingsOf(sorted) && Runs(block.dims, block.starts, block.maxima, sorted, |sorted|)
  }

  lemma {:induction false} PostingsAppend(sorted: seq<Entry>, n: nat, m: nat)
    requires n <= m <= |sorted|
    ensures PostingsOf(sorted[..m]) == PostingsOf(sorted[..n]) + PostingsOf(sorted[n..m])
  {
  }

  /** Cut sorted entries into runs. */
  method Invert(sorted: seq<Entry>) returns (block: FlatBlock)
    requires Sorted(sorted, EntryLe)
    ensures IsFlat(block, sorted)
  {
    var dims: seq<nat>, starts: seq<nat>, maxima: seq<nat>, postings: seq<Posting> := [], [], [], [];
    var cursor: nat := 0;
    while cursor < |sorted|
      invariant Runs(dims, starts + [cursor], maxima, sorted, cursor) && Boundary(sorted, cursor)
      invariant postings == PostingsOf(sorted[..cursor])
    {
      var end, maximum, run := TakeRun(sorted, cursor);
      RunsStep(dims, starts + [cursor], maxima, sorted, cursor, end);
      PostingsAppend(sorted, cursor, end);
      dims, starts := dims + [sorted[cursor].dim], starts + [|postings|];
      postings, maxima := postings + run, maxima + [maximum];
      cursor := end;
    }
    assert sorted[..cursor] == sorted;
    block := FlatBlock(dims, starts + [|postings|], maxima, postings);
  }

  /** The block's inverted form. */
  method BuildFlat(docs: seq<Document>) returns (block: FlatBlock)
    ensures IsFlat(block, StableSort(Entries(docs), EntryLe))
  {
    var entries: seq<Entry> := [];
    for slot := 0 to |docs|
      invariant entries == Entries(docs[..slot])
    {
      assert docs[..slot + 1][..slot] == docs[..slot];
      entries := entries + SlotEntries(docs[slot], slot);
    }
    assert docs[..|docs|] == docs;
    SortSorted(entries, EntryLe);
    block := Invert(StableSort(entries, EntryLe));
  }

  // ---- scoring the inverted form ----

  /** Position of a dimension in ascending dimensions. */
  method Find(dims: seq<nat>, d: nat) returns (found: Option<nat>)
    requires Ascending(dims)
    ensures found.Some? ==> found.value < |dims| && dims[found.value] == d
    ensures found.None? ==> d !in dims
  {
    var low, high := 0, |dims|;
    while low < high
      invariant 0 <= low <= high <= |dims|
      invariant forall i :: 0 <= i < low ==> dims[i] < d
      invariant forall i :: high <= i < |dims| ==> dims[i] > d
    {
      var mid := (low + high) / 2;
      if dims[mid] == d { return Some(mid); }
      if dims[mid] < d { low := mid + 1; } else { high := mid; }
    }
    found := None;
  }

  /** The sums after adding a run of entries with a weight. */
  ghost function Added(exact: seq<nat>, run: seq<Entry>, weight: nat): (r: seq<nat>)
    requires forall i :: 0 <= i < |run| ==> run[i].slot < |exact|
    ensures |r| == |exact|
  {
    if run == [] then exact
    else
      var before, last := Added(exact, run[..|run| - 1], weight), run[|run| - 1];
      before[last.slot := before[last.slot] + last.impact * weight]
  }

  lemma {:induction false} Distribute(a: nat, b: nat, w: nat)
    ensures (a + b) * w == a * w + b * w
  {
  }

  lemma {:induction false} AddedAt(exact: seq<nat>, run: seq<Entry>, weight: nat, d: nat, s: nat)
    requires s < |exact| && forall i :: 0 <= i < |run| ==> run[i].slot < |exact| && run[i].dim == d
    ensures Added(exact, run, weight)[s] == exact[s] + ImpactIn(run, d, s) * weight
  {
    if run != [] {
      var front, last := run[..|run| - 1], run[|run| - 1];
      AddedAt(exact, front, weight, d, s);
      Distribute(ImpactIn(front, d, s), last.impact, weight);
    }
  }

  /** Add one term's postings to the scores. */
  method AddRun(postings: seq<Posting>, weight: nat, scores: array<nat>, before: bool, ghost run: seq<Entry>,
                ghost exact: seq<nat>)
    returns (overflowed: bool)
    requires postings == PostingsOf(run) && (forall i :: 0 <= i < |run| ==> run[i].slot < scores.Length)
    requires Tracks(scores[..], exact, before)
    modifies scores
    ensures Tracks(scores[..], Added(exact, run, weight), overflowed)
  {
    overflowed := before;
    for k := 0 to |postings|
      invariant Tracks(scores[..], Added(exact, run[..k], weight), overflowed)
    {
      assert run[..k + 1][..k] == run[..k];
      overflowed := Accumulate(scores, postings[k].slot, postings[k].impact * weight, overflowed,
                               Added(exact, run[..k], weight));
    }
    assert run[..|run|] == run;
  }

  /** A run holds the whole impact of its dimension. */
  lemma {:induction false} RunImpact(start: nat, end: nat, dim: nat, maximum: nat, sorted: seq<Entry>, s: nat)
    requires IsRun(start, end, dim, maximum, sorted, |sorted|)
    ensures ImpactIn(sorted[start..end], dim, s) == ImpactIn(sorted, dim, s)
  {
    var left, mid, right := sorted[..start], sorted[start..end], sorted[end..];
    assert sorted == left + (mid + right);
    ImpactAppend(left, mid + right, dim, s);
    ImpactAppend(mid, right, dim, s);
    forall i | 0 <= i < |left| ensures left[i].dim != dim { assert left[i] == sorted[i]; }
    forall i | 0 <= i < |right| ensures right[i].dim != dim { assert right[i] == sorted[end + i]; }
    ImpactElsewhere(left, dim, s);
    ImpactElsewhere(right, dim, s);
  }

  /** The sorted entries of the documents. */
  ghost predicate Inverts(sorted: seq<Entry>, docs: seq<Document>) {
    && IsBlock(docs) && (forall i :: 0 <= i < |sorted| ==> sorted[i].slot < BLOCK_SIZE)
    && forall d, s :: 0 <= s < BLOCK_SIZE ==> ImpactIn(sorted, d, s) == Impact(docs[s], d)
  }

  lemma {:induction false} SortedInverts(docs: seq<Document>)
    requires IsBlock(docs)
    ensures Inverts(StableSort(Entries(docs), EntryLe), docs)
  {
    var entries, sorted := Entries(docs), StableSort(Entries(docs), EntryLe);
    SortMultiset(entries, EntryLe);
    SameMembers(entries, sorted);
    EntrySlots(docs);
    forall i | 0 <= i < |sorted| ensures sorted[i].slot < BLOCK_SIZE { assert sorted[i] in entries; }
    forall d, s | 0 <= s < BLOCK_SIZE ensures ImpactIn(sorted, d, s) == Impact(docs[s], d) {
      ImpactPermuted(entries, sorted, d, s);
      EntriesImpact(docs, d, s);
    }
  }

  ghost predicate ScoredUpTo(exact: seq<nat>, docs: seq<Document>, query: Query, k: nat) {
    |exact| == |docs| && k <= |query| && forall s :: 0 <= s < |docs| ==> exact[s] == Dot(docs[s], query[..k])
  }

  lemma {:induction false} TermFound(block: FlatBlock, sorted: seq<Entry>, docs: seq<Document>, query: Query,
                                     k: nat, exact: seq<nat>, term: nat)
    requires IsFlat(block, sorted) && Inverts(sorted, docs) && k < |query| && ScoredUpTo(exact, docs, query, k)
    requires term < |block.dims| && block.dims[term] == query[k].dim
    ensures block.starts[term] <= block.starts[term + 1] <= |sorted|
    ensures ScoredUpTo(Added(exact, sorted[block.starts[term]..block.starts[term + 1]], query[k].weight),
                       docs, query, k + 1)
  {
    var start, end, d := block.starts[term], block.starts[term + 1], query[k].dim;
    assert IsRun(start, end, d, block.maxima[term], sorted, |sorted|);
    var run := sorted[start..end];
    forall s | 0 <= s < |docs| ensures Added(exact, run, query[k].weight)[s] == Dot(docs[s], query[..k + 1]) {
      AddedAt(exact, run, query[k].weight, d, s);
      RunImpact(start, end, d, block.maxima[term], sorted, s);
      DotStep(docs[s], query, k);
    }
  }

  lemma {:induction false} TermMissing(block: FlatBlock, sorted: seq<Entry>, docs: seq<Document>, query: Query,
                                       k: nat, exact: seq<nat>)
    requires IsFlat(block, sorted) && Inverts(sorted, docs) && k < |query| && ScoredUpTo(exact, docs, query, k)
    requires query[k].dim !in block.dims
    ensures ScoredUpTo(exact, docs, query, k + 1)
  {
    forall s | 0 <= s < |docs| ensures exact[s] == Dot(docs[s], query[..k + 1]) {
      ImpactElsewhere(sorted, query[k].dim, s);
      DotStep(docs[s], query, k);
    }
  }

  method ScoreFlat(block: FlatBlock, query: Query, scores: array<nat>, ghost sorted: seq<Entry>,
                   ghost docs: seq<Document>)
    returns (overflowed: bool)
    requires IsFlat(block, sorted) && Inverts(sorted, docs) && scores.Length == BLOCK_SIZE
    modifies scores
    ensures Scored(scores[..], overflowed, docs, query)
  {
    Clear(scores);
    overflowed := false;
    ghost var exact: seq<nat> := Zeros(BLOCK_SIZE);
    for k := 0 to |query|
      invariant Tracks(scores[..], exact, overflowed) && ScoredUpTo(exact, docs, query, k)
    {
      var term := Find(block.dims, query[k].dim);
      if term.None? {
        TermMissing(block, sorted, docs, query, k, exact);
      } else {
        TermFound(block, sorted, docs, query, k, exact, term.value);
        var start, end := block.starts[term.value], block.starts[term.value + 1];
        overflowed := AddRun(block.postings[start..end], query[k].weight, scores, overflowed,
                             sorted[start..end], exact);
        exact := Added(exact, sorted[start..end], query[k].weight);
      }
    }
    assert query[..|query|] == query;
    TrackedIsScored(scores[..], exact, overflowed, docs, query);
  }

  // ---- stored maxima bound scores ----

  /** The stored maximum of a dimension, if the block has it. */
  function MaximumOf(dims: seq<nat>, maxima: seq<nat>, d: nat): nat
    requires |dims| == |maxima|
  {
    if dims == [] then 0 else if dims[0] == d then maxima[0] else MaximumOf(dims[1..], maxima[1..], d)
  }

  /** What the stored maxima let a query score at most. */
  function ScoreBound(block: FlatBlock, query: Query): nat
    requires |block.dims| == |block.maxima|
  {
    if query == [] then 0
    else MaximumOf(block.dims, block.maxima, query[0].dim) * query[0].weight + ScoreBound(block, query[1..])
  }

  lemma {:induction false} MaximumAt(dims: seq<nat>, maxima: seq<nat>, i: nat)
    requires |dims| == |maxima| && i < |dims| && Ascending(dims)
    ensures MaximumOf(dims, maxima, dims[i]) == maxima[i]
  {
    if i > 0 { MaximumAt(dims[1..], maxima[1..], i - 1); }
  }

  lemma {:induction false} MaxImpactBounds(entries: seq<Entry>, k: nat)
    requires k < |entries|
    ensures entries[k].impact <= MaxImpact(entries)
  {
    if k < |entries| - 1 { MaxImpactBounds(entries[..|entries| - 1], k); }
  }

  lemma {:induction false} ImpactIsEntry(docs: seq<Document>, d: nat, s: nat)
    requires s < |docs| && Impact(docs[s], d) > 0
    ensures Entry(d, s, Impact(docs[s], d)) in Entries(docs)
  {
    var n := |docs| - 1;
    if s < n {
      ImpactIsEntry(docs[..n], d, s);
    } else {
      var k := ImpactPosition(docs[s], d);
      assert SlotEntries(docs[n], n)[k] in SlotEntries(docs[n], n);
    }
  }

  lemma {:induction false} ImpactPosition(doc: Document, d: nat) returns (k: nat)
    requires Impact(doc, d) > 0
    ensures k < |doc| && doc[k] == Feature(d, Impact(doc, d))
  {
    k := 0;
    if doc[0].dim != d {
      var rest := ImpactPosition(doc[1..], d);
      k := rest + 1;
    }
  }

  lemma {:induction false} MaximumBounds(block: FlatBlock, docs: seq<Document>, d: nat, s: nat)
    requires IsFlat(block, StableSort(Entries(docs), EntryLe)) && s < |docs|
    ensures Impact(docs[s], d) <= MaximumOf(block.dims, block.maxima, d)
  {
    if Impact(docs[s], d) > 0 {
      var entries, sorted := Entries(docs), StableSort(Entries(docs), EntryLe);
      ImpactIsEntry(docs, d, s);
      SortMultiset(entries, EntryLe);
      SameMembers(entries, sorted);
      assert Entry(d, s, Impact(docs[s], d)) in sorted;
      var k :| 0 <= k < |sorted| && sorted[k] == Entry(d, s, Impact(docs[s], d));
      assert sorted[k].dim in block.dims;
      var i :| 0 <= i < |block.dims| && block.dims[i] == d;
      RunBounds(block, sorted, i, k);
      MaximumAt(block.dims, block.maxima, i);
    }
  }

  lemma {:induction false} RunBounds(block: FlatBlock, sorted: seq<Entry>, i: nat, k: nat)
    requires IsFlat(block, sorted) && i < |block.dims| && k < |sorted| && sorted[k].dim == block.dims[i]
    ensures sorted[k].impact <= block.maxima[i]
  {
    var start, end := block.starts[i], block.starts[i + 1];
    assert IsRun(start, end, block.dims[i], block.maxima[i], sorted, |sorted|);
    MaxImpactBounds(sorted[start..end], k - start);
  }

  lemma {:induction false} Monotone(a: nat, b: nat, w: nat)
    requires a <= b
    ensures a * w <= b * w
  {
  }

  /** No slot scores more than the stored maxima allow. */
  lemma {:induction false} MaximaBoundScores(block: FlatBlock, docs: seq<Document>, query: Query, s: nat)
    requires IsFlat(block, StableSort(Entries(docs), EntryLe)) && s < |docs|
    ensures Dot(docs[s], query) <= ScoreBound(block, query)
  {
    if query != [] {
      MaximumBounds(block, docs, query[0].dim, s);
      Monotone(Impact(docs[s], query[0].dim), MaximumOf(block.dims, block.maxima, query[0].dim), query[0].weight);
      MaximaBoundScores(block, docs, query[1..], s);
    }
  }

  /** Build both layouts of a block and score it all three ways. */
  method ScoreThreeWays(docs: seq<Document>, query: Query)
    returns (flat: seq<nat>, forward: seq<nat>, lookup: seq<nat>, overflowed: bool)
    requires IsBlock(docs) && IsQuery(query)
    ensures flat == forward == lookup && |flat| == BLOCK_SIZE
    ensures forall s :: 0 <= s < BLOCK_SIZE ==> flat[s] == Dot(docs[s], query) % U32_SIZE
    ensures overflowed <==> exists s :: 0 <= s < BLOCK_SIZE && Dot(docs[s], query) >= U32_SIZE
    ensures |query| <= 257 ==> !overflowed && forall s :: 0 <= s < BLOCK_SIZE ==> flat[s] == Dot(docs[s], query)
  {
    var inverted := BuildFlat(docs);
    var major := BuildForward(docs);
    var table := BuildLookup(query);
    var scores := new nat[BLOCK_SIZE];
    SortedInverts(docs);
    overflowed := ScoreFlat(inverted, query, scores, StableSort(Entries(docs), EntryLe), docs);
    flat := scores[..];
    var again := ScoreForward(major, query, scores, docs);
    forward := scores[..];
    again := ScoreForwardLookup(major, table, scores, docs, query);
    lookup := scores[..];
    if |query| <= 257 {
      forall s | 0 <= s < BLOCK_SIZE ensures Dot(docs[s], query) < U32_SIZE { DotBound(docs[s], query); }
    }
  }
}
