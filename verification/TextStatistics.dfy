/** Summing the partitions' text statistics. */
module TextStatistics {
  import opened Outcomes
  import opened Sorting

  type Term = seq<bv8>

  datatype TermFreq = TermFreq(term: Term, docFreq: nat)

  datatype FieldStats = FieldStats(field: string, corpusSize: nat, avgLen: real, terms: seq<TermFreq>)

  datatype PartStats = PartStats(totalDocs: nat, fields: seq<FieldStats>)

  /** What is summed per field: documents, total length, document frequencies. */
  datatype Acc = Acc(corpus: nat, length: real, freqs: map<Term, nat>)

  datatype MergedField = MergedField(corpusSize: nat, avgLen: real, freqs: map<Term, nat>)

  datatype MergedStats = MergedStats(totalDocs: nat, fields: map<string, MergedField>)

  function Saturated(n: nat): nat {
    if n > U64_MAX then U64_MAX else n
  }

  /** The product, as repeated addition. */
  function Times(x: real, n: nat): real {
    if n == 0 then 0.0 else Times(x, n - 1) + x
  }

  lemma {:induction false} TimesIsProduct(x: real, n: nat)
    ensures Times(x, n) == x * n as real
  {
    if n > 0 {
      TimesIsProduct(x, n - 1);
      OneMore(x, (n - 1) as real);
    }
  }

  lemma {:induction false} OneMore(x: real, y: real)
    ensures x * (y + 1.0) == x * y + x
  {
  }

  // ---- the fold ----

  const EMPTY := Acc(0, 0.0, map[])

  function AddTerms(freqs: map<Term, nat>, terms: seq<TermFreq>): map<Term, nat> {
    if terms == [] then freqs
    else
      var before, last := AddTerms(freqs, terms[..|terms| - 1]), terms[|terms| - 1];
      before[last.term := Saturated((if last.term in before then before[last.term] else 0) + last.docFreq)]
  }

  function AccOf(accs: map<string, Acc>, f: string): Acc {
    if f in accs then accs[f] else EMPTY
  }

  function AddStats(acc: Acc, stats: FieldStats): Acc {
    Acc(Saturated(acc.corpus + stats.corpusSize), acc.length + Times(stats.avgLen, stats.corpusSize),
        AddTerms(acc.freqs, stats.terms))
  }

  function AddField(accs: map<string, Acc>, stats: FieldStats): map<string, Acc> {
    accs[stats.field := AddStats(AccOf(accs, stats.field), stats)]
  }

  function Folded(entries: seq<FieldStats>): map<string, Acc> {
    if entries == [] then map[] else AddField(Folded(entries[..|entries| - 1]), entries[|entries| - 1])
  }

  function Entries(parts: seq<PartStats>): seq<FieldStats> {
    if parts == [] then [] else Entries(parts[..|parts| - 1]) + parts[|parts| - 1].fields
  }

  function TotalDocs(parts: seq<PartStats>): nat {
    if parts == [] then 0 else TotalDocs(parts[..|parts| - 1]) + parts[|parts| - 1].totalDocs
  }

  function Averaged(acc: Acc): MergedField {
    MergedField(acc.corpus, if acc.corpus > 0 then acc.length / acc.corpus as real else 0.0, acc.freqs)
  }

  function Merged(parts: seq<PartStats>): MergedStats {
    var accs := Folded(Entries(parts));
    MergedStats(Saturated(TotalDocs(parts)), map f | f in accs :: Averaged(accs[f]))
  }

  method MergeTextStats(parts: seq<PartStats>) returns (merged: MergedStats)
    ensures merged == Merged(parts)
  {
    var totalDocs, accs := 0, map[];
    for i := 0 to |parts|
      invariant totalDocs == Saturated(TotalDocs(parts[..i])) && accs == Folded(Entries(parts[..i]))
    {
      assert parts[..i + 1][..i] == parts[..i];
      totalDocs := Saturated(totalDocs + parts[i].totalDocs);
      var fields := parts[i].fields;
      ghost var before := Entries(parts[..i]);
      assert before + fields[..0] == before;
      for j := 0 to |fields|
        invariant accs == Folded(before + fields[..j])
      {
        assert before + fields[..j + 1] == before + fields[..j] + [fields[j]];
        accs := MergeField(accs, fields[j]);
      }
      assert fields[..|fields|] == fields;
    }
    assert parts[..|parts|] == parts;
    merged := MergedStats(totalDocs, map f | f in accs :: Averaged(accs[f]));
  }

  method MergeField(accs: map<string, Acc>, stats: FieldStats) returns (after: map<string, Acc>)
    ensures after == AddField(accs, stats)
  {
    var acc := AccOf(accs, stats.field);
    var freqs := MergeTerms(acc.freqs, stats.terms);
    TimesIsProduct(stats.avgLen, stats.corpusSize);
    var length := acc.length + stats.avgLen * stats.corpusSize as real;
    assert length == acc.length + Times(stats.avgLen, stats.corpusSize);
    after := accs[stats.field := Acc(Saturated(acc.corpus + stats.corpusSize), length, freqs)];
  }

  method MergeTerms(before: map<Term, nat>, terms: seq<TermFreq>) returns (freqs: map<Term, nat>)
    ensures freqs == AddTerms(before, terms)
  {
    freqs := before;
    for k := 0 to |terms|
      invariant freqs == AddTerms(before, terms[..k])
    {
      assert terms[..k + 1][..k] == terms[..k];
      var term := terms[k].term;
      freqs := freqs[term := Saturated((if term in freqs then freqs[term] else 0) + terms[k].docFreq)];
    }
    assert terms[..|terms|] == terms;
  }

  // ---- what the fold holds of one field and one term ----

  /** Counts over the entries of a field, and of a term of that field. */
  datatype Counts = Counts(listed: bool, corpus: nat, termListed: bool, freq: nat)

  function Plus(a: Counts, b: Counts): Counts {
    Counts(a.listed || b.listed, a.corpus + b.corpus, a.termListed || b.termListed, a.freq + b.freq)
  }

  const NONE := Counts(false, 0, false, 0)

  function TermCounts(terms: seq<TermFreq>, t: Term): Counts {
    if terms == [] then NONE
    else
      var before, last := TermCounts(terms[..|terms| - 1], t), terms[|terms| - 1];
      if last.term == t then Counts(false, 0, true, before.freq + last.docFreq) else before
  }

  function CountsOf(stats: FieldStats, f: string, t: Term): Counts {
    if stats.field == f then TermCounts(stats.terms, t).(listed := true, corpus := stats.corpusSize) else NONE
  }

  function Count(entries: seq<FieldStats>, f: string, t: Term): Counts {
    if entries == [] then NONE
    else Plus(Count(entries[..|entries| - 1], f, t), CountsOf(entries[|entries| - 1], f, t))
  }

  /** Total length of a field: its average lengths, weighted. */
  function Length(entries: seq<FieldStats>, f: string): real {
    if entries == [] then 0.0
    else
      var front, last := Length(entries[..|entries| - 1], f), entries[|entries| - 1];
      if last.field == f then front + Times(last.avgLen, last.corpusSize) else front
  }

  /** The accumulator agrees with the counts, saturated. */
  ghost predicate Holds(acc: Acc, t: Term, counts: Counts) {
    && acc.corpus == Saturated(counts.corpus) && (t in acc.freqs <==> counts.termListed)
    && (if t in acc.freqs then acc.freqs[t] == Saturated(counts.freq) else counts.freq == 0)
  }

  lemma {:induction false} AddTermsMeaning(freqs: map<Term, nat>, terms: seq<TermFreq>, t: Term, start: nat)
    requires (t in freqs ==> freqs[t] == Saturated(start)) && (t !in freqs ==> start == 0)
    ensures var after, counts := AddTerms(freqs, terms), TermCounts(terms, t);
            && (t in after <==> t in freqs || counts.termListed)
            && (t in after ==> after[t] == Saturated(start + counts.freq))
            && !counts.listed && counts.corpus == 0 && (!counts.termListed ==> counts.freq == 0)
  {
    if terms != [] { AddTermsMeaning(freqs, terms[..|terms| - 1], t, start); }
  }

  lemma {:induction false} AddStatsMeaning(acc: Acc, stats: FieldStats, t: Term, counts: Counts)
    requires Holds(acc, t, counts)
    ensures Holds(AddStats(acc, stats), t, Plus(counts, CountsOf(stats, stats.field, t)))
  {
    AddTermsMeaning(acc.freqs, stats.terms, t, counts.freq);
  }

  lemma {:induction false} FoldedCounts(entries: seq<FieldStats>, f: string, t: Term)
    ensures f in Folded(entries) <==> Count(entries, f, t).listed
    ensures Holds(AccOf(Folded(entries), f), t, Count(entries, f, t))
  {
    if entries != [] {
      var front, last := entries[..|entries| - 1], entries[|entries| - 1];
      FoldedCounts(front, f, t);
      if last.field == f { AddStatsMeaning(AccOf(Folded(front), f), last, t, Count(front, f, t)); }
    }
  }

  lemma {:induction false} FoldedLength(entries: seq<FieldStats>, f: string)
    ensures AccOf(Folded(entries), f).length == Length(entries, f)
  {
    if entries != [] { FoldedLength(entries[..|entries| - 1], f); }
  }

  lemma {:induction false} CountAppend(a: seq<FieldStats>, b: seq<FieldStats>, f: string, t: Term)
    ensures Count(a + b, f, t) == Plus(Count(a, f, t), Count(b, f, t))
  {
    if b == [] {
      assert a + b == a;
    } else {
      CountAppend(a, b[..|b| - 1], f, t);
      DropLast(a, b);
    }
  }

  lemma {:induction false} LengthAppend(a: seq<FieldStats>, b: seq<FieldStats>, f: string)
    ensures Length(a + b, f) == Length(a, f) + Length(b, f)
  {
    if b == [] {
      assert a + b == a;
    } else {
      LengthAppend(a, b[..|b| - 1], f);
      DropLast(a, b);
    }
  }

  // ---- the merge depends only on the sums ----

  ghost predicate SameSum(a: seq<PartStats>, b: seq<PartStats>, f: string, t: Term) {
    TotalDocs(a) == TotalDocs(b) && PartsCount(a, f, t) == PartsCount(b, f, t) && PartsLength(a, f) == PartsLength(b, f)
  }

  ghost predicate SameSums(a: seq<PartStats>, b: seq<PartStats>) {
    forall f, t :: SameSum(a, b, f, t)
  }

  lemma {:induction false} SameField(a: seq<PartStats>, b: seq<PartStats>, f: string)
    requires SameSums(a, b)
    ensures f in Folded(Entries(a)) <==> f in Folded(Entries(b))
    ensures AccOf(Folded(Entries(a)), f) == AccOf(Folded(Entries(b)), f)
  {
    var left, right, any: Term := AccOf(Folded(Entries(a)), f), AccOf(Folded(Entries(b)), f), [];
    SameTerm(a, b, f, any);
    FoldedLength(Entries(a), f);
    FoldedLength(Entries(b), f);
    forall t ensures (t in left.freqs <==> t in right.freqs) && (t in left.freqs ==> left.freqs[t] == right.freqs[t]) {
      SameTerm(a, b, f, t);
    }
    assert left.freqs == right.freqs;
  }

  lemma {:induction false} SameTerm(a: seq<PartStats>, b: seq<PartStats>, f: string, t: Term)
    requires SameSums(a, b)
    ensures f in Folded(Entries(a)) <==> f in Folded(Entries(b))
    ensures var left, right := AccOf(Folded(Entries(a)), f), AccOf(Folded(Entries(b)), f);
            && left.corpus == right.corpus && Length(Entries(a), f) == Length(Entries(b), f)
            && (t in left.freqs <==> t in right.freqs) && (t in left.freqs ==> left.freqs[t] == right.freqs[t])
  {
    assert SameSum(a, b, f, t);
    FoldedCounts(Entries(a), f, t);
    FoldedCounts(Entries(b), f, t);
  }

  lemma {:induction false} SameSumsMergeAlike(a: seq<PartStats>, b: seq<PartStats>)
    requires SameSums(a, b)
    ensures Merged(a) == Merged(b)
  {
    var left, right, any: Term := Folded(Entries(a)), Folded(Entries(b)), [];
    assert SameSum(a, b, "", any);
    forall f ensures (f in left <==> f in right) && AccOf(left, f) == AccOf(right, f) { SameField(a, b, f); }
    assert Merged(a).fields == Merged(b).fields;
  }

  // ---- partition order is irrelevant ----

  lemma {:induction false} EntriesAppend(a: seq<PartStats>, b: seq<PartStats>)
    ensures Entries(a + b) == Entries(a) + Entries(b) && TotalDocs(a + b) == TotalDocs(a) + TotalDocs(b)
  {
    if b == [] {
      assert a + b == a;
    } else {
      EntriesAppend(a, b[..|b| - 1]);
      DropLast(a, b);
    }
  }

  /** Length of a field over all parts. */
  function PartsLength(parts: seq<PartStats>, f: string): real {
    Length(Entries(parts), f)
  }

  lemma {:induction false} PartsLengthAppend(a: seq<PartStats>, b: seq<PartStats>, f: string)
    ensures PartsLength(a + b, f) == PartsLength(a, f) + PartsLength(b, f)
  {
    EntriesAppend(a, b);
    LengthAppend(Entries(a), Entries(b), f);
  }

  lemma {:induction false} MovedLength(front: seq<PartStats>, p: PartStats, a: seq<PartStats>, b: seq<PartStats>,
                                       f: string)
    requires PartsLength(front, f) == PartsLength(a + b, f)
    ensures PartsLength(front + [p], f) == PartsLength(a + ([p] + b), f)
  {
    PartsLengthAppend(front, [p], f);
    PartsLengthAppend(a, [p] + b, f);
    PartsLengthAppend([p], b, f);
    PartsLengthAppend(a, b, f);
  }

  function PartsCount(parts: seq<PartStats>, f: string, t: Term): Counts {
    Count(Entries(parts), f, t)
  }

  lemma {:induction false} PartsCountAppend(a: seq<PartStats>, b: seq<PartStats>, f: string, t: Term)
    ensures PartsCount(a + b, f, t) == Plus(PartsCount(a, f, t), PartsCount(b, f, t))
  {
    EntriesAppend(a, b);
    CountAppend(Entries(a), Entries(b), f, t);
  }

  lemma {:induction false} MovedCount(front: seq<PartStats>, p: PartStats, a: seq<PartStats>, b: seq<PartStats>,
                                      f: string, t: Term)
    requires PartsCount(front, f, t) == PartsCount(a + b, f, t)
    ensures PartsCount(front + [p], f, t) == PartsCount(a + ([p] + b), f, t)
  {
    PartsCountAppend(front, [p], f, t);
    PartsCountAppend(a, [p] + b, f, t);
    PartsCountAppend([p], b, f, t);
    PartsCountAppend(a, b, f, t);
    CountShuffle(PartsCount(a, f, t), PartsCount([p], f, t), PartsCount(b, f, t));
  }

  lemma {:induction false} CountShuffle(a: Counts, p: Counts, b: Counts)
    ensures Plus(Plus(a, b), p) == Plus(a, Plus(p, b))
  {
  }

  lemma {:induction false} MovedDocs(front: seq<PartStats>, p: PartStats, a: seq<PartStats>, b: seq<PartStats>)
    requires TotalDocs(front) == TotalDocs(a + b)
    ensures TotalDocs(front + [p]) == TotalDocs(a + ([p] + b))
  {
    EntriesAppend(front, [p]);
    EntriesAppend(a, [p] + b);
    EntriesAppend([p], b);
    EntriesAppend(a, b);
  }

  lemma {:induction false} MovedPart(front: seq<PartStats>, p: PartStats, a: seq<PartStats>, b: seq<PartStats>,
                                     f: string, t: Term)
    requires SameSum(front, a + b, f, t)
    ensures SameSum(front + [p], a + ([p] + b), f, t)
  {
    MovedDocs(front, p, a, b);
    MovedCount(front, p, a, b, f, t);
    MovedLength(front, p, a, b, f);
  }

  lemma {:induction false} PermutedSum(a: seq<PartStats>, b: seq<PartStats>, f: string, t: Term)
    requires multiset(a) == multiset(b)
    ensures SameSum(a, b, f, t)
    decreases |a|
  {
    if a == [] {
      SameMembers(a, b);
    } else {
      var front, p, left, right := SplitLast(a, b);
      PermutedSum(front, left + right, f, t);
      MovedPart(front, p, left, right, f, t);
    }
  }

  /** Any order of the parts merges to the same statistics. */
  lemma {:induction false} PartOrderIrrelevant(a: seq<PartStats>, b: seq<PartStats>)
    requires multiset(a) == multiset(b)
    ensures Merged(a) == Merged(b)
  {
    forall f, t ensures SameSum(a, b, f, t) { PermutedSum(a, b, f, t); }
    SameSumsMergeAlike(a, b);
  }

  // ---- statistics of a corpus ----

  /** A document: the terms of each text field it has. */
  type Doc = map<string, seq<Term>>

  /** What a query asks of one field. */
  datatype FieldRequest = FieldRequest(field: string, terms: seq<Term>)

  function Holding(docs: seq<Doc>, f: string): nat {
    if docs == [] then 0 else Holding(docs[..|docs| - 1], f) + (if f in docs[|docs| - 1] then 1 else 0)
  }

  function Tokens(docs: seq<Doc>, f: string): nat {
    if docs == [] then 0
    else
      var last := docs[|docs| - 1];
      Tokens(docs[..|docs| - 1], f) + (if f in last then |last[f]| else 0)
  }

  function DocFreq(docs: seq<Doc>, f: string, t: Term): nat {
    if docs == [] then 0
    else
      var last := docs[|docs| - 1];
      DocFreq(docs[..|docs| - 1], f, t) + (if f in last && t in last[f] then 1 else 0)
  }

  function MeanLength(docs: seq<Doc>, f: string): real {
    if Holding(docs, f) == 0 then 0.0 else Tokens(docs, f) as real / Holding(docs, f) as real
  }

  function TermList(docs: seq<Doc>, f: string, terms: seq<Term>): seq<TermFreq> {
    if terms == [] then []
    else
      var last := terms[|terms| - 1];
      TermList(docs, f, terms[..|terms| - 1]) + [TermFreq(last, DocFreq(docs, f, last))]
  }

  function FieldList(docs: seq<Doc>, request: seq<FieldRequest>): seq<FieldStats> {
    if request == [] then []
    else
      var last := request[|request| - 1];
      FieldList(docs, request[..|request| - 1])
      + [FieldStats(last.field, Holding(docs, last.field), MeanLength(docs, last.field),
                    TermList(docs, last.field, last.terms))]
  }

  /** What a shard answers for its documents. */
  function StatsOf(docs: seq<Doc>, request: seq<FieldRequest>): PartStats {
    PartStats(|docs|, FieldList(docs, request))
  }

  function StatsOfEach(parts: seq<seq<Doc>>, request: seq<FieldRequest>): seq<PartStats> {
    if parts == [] then [] else StatsOfEach(parts[..|parts| - 1], request) + [StatsOf(parts[|parts| - 1], request)]
  }

  /** Each field once, and each term once in its field. */
  ghost predicate Distinct(request: seq<FieldRequest>) {
    && (forall i, j :: 0 <= i < j < |request| ==> request[i].field != request[j].field)
    && forall i :: 0 <= i < |request| ==> NoRepeats(request[i].terms)
  }

  /** The terms asked of a field, if it is asked for. */
  ghost function Asked(request: seq<FieldRequest>, f: string): Option<seq<Term>> {
    if request == [] then None
    else
      var last := request[|request| - 1];
      if last.field == f then Some(last.terms) else Asked(request[..|request| - 1], f)
  }

  /** The counts a request gets from a corpus. */
  ghost function Wanted(docs: seq<Doc>, request: seq<FieldRequest>, f: string, t: Term): Counts {
    match Asked(request, f)
    case None => NONE
    case Some(terms) =>
      Counts(true, Holding(docs, f), t in terms, if t in terms then DocFreq(docs, f, t) else 0)
  }

  lemma {:induction false} DocsAppend(a: seq<Doc>, b: seq<Doc>, f: string, t: Term)
    ensures Holding(a + b, f) == Holding(a, f) + Holding(b, f)
    ensures DocFreq(a + b, f, t) == DocFreq(a, f, t) + DocFreq(b, f, t)
    ensures Tokens(a + b, f) == Tokens(a, f) + Tokens(b, f)
  {
    if b == [] {
      assert a + b == a;
    } else {
      DocsAppend(a, b[..|b| - 1], f, t);
      DropLast(a, b);
    }
  }

  lemma {:induction false} TermListCounts(docs: seq<Doc>, f: string, terms: seq<Term>, t: Term)
    requires NoRepeats(terms)
    ensures TermCounts(TermList(docs, f, terms), t)
         == if t in terms then Counts(false, 0, true, DocFreq(docs, f, t)) else NONE
  {
    if terms != [] {
      var front, last := terms[..|terms| - 1], terms[|terms| - 1];
      TermListCounts(docs, f, front, t);
      assert TermList(docs, f, terms)[..|TermList(docs, f, terms)| - 1] == TermList(docs, f, front);
      assert t in terms <==> t in front || t == last;
      assert last !in front;
    }
  }

  lemma {:induction false} SkipField(list: seq<FieldStats>, f: string, t: Term)
    requires list != [] && list[|list| - 1].field != f
    ensures Count(list, f, t) == Count(list[..|list| - 1], f, t)
    ensures Length(list, f) == Length(list[..|list| - 1], f)
  {
    var front, last := list[..|list| - 1], list[|list| - 1];
    PlusNone(Count(front, f, t));
    assert Count(list, f, t) == Plus(Count(front, f, t), CountsOf(last, f, t));
    assert CountsOf(last, f, t) == NONE;
  }

  lemma {:induction false} PlusNone(x: Counts)
    ensures Plus(x, NONE) == x
  {
  }

  lemma {:induction false} UnaskedCounts(docs: seq<Doc>, request: seq<FieldRequest>, f: string, t: Term)
    requires forall i :: 0 <= i < |request| ==> request[i].field != f
    ensures Count(FieldList(docs, request), f, t) == NONE && Length(FieldList(docs, request), f) == 0.0
  {
    if request != [] {
      UnaskedCounts(docs, request[..|request| - 1], f, t);
      FieldListFront(docs, request);
      SkipField(FieldList(docs, request), f, t);
    }
  }

  lemma {:induction false} FieldListFront(docs: seq<Doc>, request: seq<FieldRequest>)
    requires request != []
    ensures var list, last := FieldList(docs, request), request[|request| - 1];
            && list != [] && list[..|list| - 1] == FieldList(docs, request[..|request| - 1])
            && list[|list| - 1] == FieldStats(last.field, Holding(docs, last.field), MeanLength(docs, last.field),
                                              TermList(docs, last.field, last.terms))
  {
  }

  lemma {:induction false} ListCounts(docs: seq<Doc>, request: seq<FieldRequest>, f: string, t: Term)
    requires Distinct(request)
    ensures Count(FieldList(docs, request), f, t) == Wanted(docs, request, f, t)
    ensures Length(FieldList(docs, request), f) == if Asked(request, f).Some? then Tokens(docs, f) as real else 0.0
  {
    if request != [] {
      var front, last := request[..|request| - 1], request[|request| - 1];
      FieldListFront(docs, request);
      if last.field == f {
        UnaskedCounts(docs, front, f, t);
        TermListCounts(docs, f, last.terms, t);
        MeanTimesCount(docs, f);
      } else {
        ListCounts(docs, front, f, t);
        SkipField(FieldList(docs, request), f, t);
      }
    }
  }

  lemma {:induction false} MeanTimesCount(docs: seq<Doc>, f: string)
    ensures Times(MeanLength(docs, f), Holding(docs, f)) == Tokens(docs, f) as real
  {
    if Holding(docs, f) == 0 {
      NoTokens(docs, f);
    } else {
      TimesIsProduct(MeanLength(docs, f), Holding(docs, f));
      Undo(Tokens(docs, f) as real, Holding(docs, f) as real);
    }
  }

  lemma {:induction false} Undo(x: real, y: real)
    requires y != 0.0
    ensures x / y * y == x
  {
  }

  lemma {:induction false} NoTokens(docs: seq<Doc>, f: string)
    requires Holding(docs, f) == 0
    ensures Tokens(docs, f) == 0
  {
    if docs != [] { NoTokens(docs[..|docs| - 1], f); }
  }

  // ---- merging the parts is measuring the whole ----

  lemma {:induction false} IsPlus(x: Counts, y: Counts, z: Counts)
    requires z.listed == (x.listed || y.listed) && z.corpus == x.corpus + y.corpus
    requires z.termListed == (x.termListed || y.termListed) && z.freq == x.freq + y.freq
    ensures z == Plus(x, y)
  {
  }

  lemma {:induction false} WantedAppend(a: seq<Doc>, b: seq<Doc>, request: seq<FieldRequest>, f: string, t: Term)
    ensures Wanted(a + b, request, f, t) == Plus(Wanted(a, request, f, t), Wanted(b, request, f, t))
  {
    DocsAppend(a, b, f, t);
    IsPlus(Wanted(a, request, f, t), Wanted(b, request, f, t), Wanted(a + b, request, f, t));
  }

  lemma {:induction false} OnePart(part: PartStats, f: string, t: Term)
    ensures Entries([part]) == part.fields && TotalDocs([part]) == part.totalDocs
    ensures PartsCount([part], f, t) == Count(part.fields, f, t) && PartsLength([part], f) == Length(part.fields, f)
  {
    assert [part][..0] == [];
    assert Entries([part]) == [] + part.fields;
  }

  /** The parts' sums are those of the whole corpus. */
  ghost predicate SumsTo(stats: seq<PartStats>, docs: seq<Doc>, request: seq<FieldRequest>, f: string, t: Term) {
    && TotalDocs(stats) == |docs| && PartsCount(stats, f, t) == Wanted(docs, request, f, t)
    && PartsLength(stats, f) == if Asked(request, f).Some? then Tokens(docs, f) as real else 0.0
  }

  lemma {:induction false} OneCorpus(docs: seq<Doc>, request: seq<FieldRequest>, f: string, t: Term)
    requires Distinct(request)
    ensures SumsTo([StatsOf(docs, request)], docs, request, f, t)
  {
    OnePart(StatsOf(docs, request), f, t);
    ListCounts(docs, request, f, t);
  }

  lemma {:induction false} OneMoreCorpus(stats: seq<PartStats>, docs: seq<Doc>, more: seq<Doc>,
                                         request: seq<FieldRequest>, f: string, t: Term)
    requires Distinct(request) && SumsTo(stats, docs, request, f, t)
    ensures SumsTo(stats + [StatsOf(more, request)], docs + more, request, f, t)
  {
    var last := [StatsOf(more, request)];
    OneCorpus(more, request, f, t);
    assert PartsCount(stats + last, f, t) == Wanted(docs + more, request, f, t) by {
      PartsCountAppend(stats, last, f, t);
      WantedAppend(docs, more, request, f, t);
    }
    assert TotalDocs(stats + last) == |docs + more| by { EntriesAppend(stats, last); }
    assert PartsLength(stats + last, f) == if Asked(request, f).Some? then Tokens(docs + more, f) as real else 0.0 by {
      PartsLengthAppend(stats, last, f);
      DocsAppend(docs, more, f, t);
    }
  }

  lemma {:induction false} EachSums(parts: seq<seq<Doc>>, request: seq<FieldRequest>, f: string, t: Term)
    requires parts != [] && Distinct(request)
    ensures SumsTo(StatsOfEach(parts, request), Concat(parts), request, f, t)
  {
    var front, last := parts[..|parts| - 1], parts[|parts| - 1];
    assert parts == front + [last];
    ConcatAppend(front, last);
    if front == [] {
      assert Concat(front) + last == last;
      assert StatsOfEach(parts, request) == [StatsOf(last, request)];
      OneCorpus(last, request, f, t);
    } else {
      EachSums(front, request, f, t);
      OneMoreCorpus(StatsOfEach(front, request), Concat(front), last, request, f, t);
    }
  }

  /** However a corpus is split, merging the parts' statistics gives the
      statistics of the whole. */
  lemma {:induction false} MergedIsWhole(parts: seq<seq<Doc>>, request: seq<FieldRequest>)
    requires parts != [] && Distinct(request)
    ensures Merged(StatsOfEach(parts, request)) == Merged([StatsOf(Concat(parts), request)])
  {
    var each, whole := StatsOfEach(parts, request), [StatsOf(Concat(parts), request)];
    forall f, t ensures SameSum(each, whole, f, t) {
      EachSums(parts, request, f, t);
      OneCorpus(Concat(parts), request, f, t);
    }
    SameSumsMergeAlike(each, whole);
  }

  lemma {:induction false} CountsBounded(docs: seq<Doc>, f: string, t: Term)
    ensures DocFreq(docs, f, t) <= Holding(docs, f) <= |docs|
  {
    if docs != [] { CountsBounded(docs[..|docs| - 1], f, t); }
  }

  lemma {:induction false} AskedField(request: seq<FieldRequest>, i: nat)
    requires Distinct(request) && i < |request|
    ensures Asked(request, request[i].field) == Some(request[i].terms)
  {
    if i < |request| - 1 {
      assert request[|request| - 1].field != request[i].field;
      AskedField(request[..|request| - 1], i);
    }
  }

  /** For a corpus below 2^64 documents these are its document count and, for
      every term asked of a field, the field's document count and mean length
      and the term's document frequency. */
  lemma {:induction false} WholeStatistics(docs: seq<Doc>, request: seq<FieldRequest>, i: nat, t: Term)
    requires Distinct(request) && |docs| <= U64_MAX && i < |request| && t in request[i].terms
    ensures var merged, f := Merged([StatsOf(docs, request)]), request[i].field;
            && merged.totalDocs == |docs| && f in merged.fields
            && merged.fields[f].corpusSize == Holding(docs, f) && merged.fields[f].avgLen == MeanLength(docs, f)
            && t in merged.fields[f].freqs && merged.fields[f].freqs[t] == DocFreq(docs, f, t)
  {
    var whole, f := [StatsOf(docs, request)], request[i].field;
    OneCorpus(docs, request, f, t);
    AskedField(request, i);
    CountsBounded(docs, f, t);
    FoldedCounts(Entries(whole), f, t);
    FoldedLength(Entries(whole), f);
  }
}
