/** Splitting a write batch by primary key hash and folding the partitions'
    answers back into one. */
module BatchRouter {
  import opened Sorting
  import opened Outcomes
  import opened PartitionRouting

  /** A value usable as a key, with the bytes it hashes as, or one that is not. */
  datatype FieldValue = KeyValue(bytes: seq<bv8>) | OtherValue

  datatype FieldEntry = FieldEntry(name: string, value: Option<FieldValue>)

  datatype Document = Document(fields: seq<FieldEntry>)

  datatype DocumentError = DocumentError(index: nat, error: string)

  datatype BatchResponse = BatchResponse(indexed: nat, errorCount: nat, errors: seq<DocumentError>)

  datatype Group = Group(positions: seq<nat>, documents: seq<Document>)

  function Cast32(n: nat): (r: nat)
    ensures r <= U32_MAX && (n <= U32_MAX ==> r == n)
  {
    n % (U32_MAX + 1)
  }

  function SaturatingAdd32(a: nat, b: nat): nat {
    if a + b > U32_MAX then U32_MAX else a + b
  }

  /** Value of the first field with the key's name. */
  function KeyOf(fields: seq<FieldEntry>, primaryKey: string): Option<seq<bv8>> {
    if fields == [] then None
    else if fields[0].name == primaryKey then
      match fields[0].value
      case Some(KeyValue(bytes)) => Some(bytes)
      case _ => None
    else KeyOf(fields[1..], primaryKey)
  }

  /** The partition of a document; none without a non-empty key. */
  function Destination(primaryKey: string, pw: PartitionWeights, document: Document): (d: Option<nat>)
    requires IsBounds(pw.bounds)
    ensures d.Some? ==> d.value < |pw.bounds|
  {
    match KeyOf(document.fields, primaryKey)
    case None => None
    case Some(key) =>
      if key == [] then None
      else
        SlotIff(pw.bounds, Fnv(key), 0);
        Some(PartitionOf(pw, key))
  }

  // ---- routing by position ----

  /** Positions routed to d (none: unroutable), in request order. */
  function PositionsTo(documents: seq<Document>, primaryKey: string, pw: PartitionWeights, d: Option<nat>): seq<nat>
    requires IsBounds(pw.bounds)
  {
    if documents == [] then []
    else
      var n := |documents| - 1;
      PositionsTo(documents[..n], primaryKey, pw, d)
      + (if Destination(primaryKey, pw, documents[n]) == d then [n] else [])
  }

  lemma {:induction false} PositionsStep(front: seq<Document>, last: Document, primaryKey: string,
                                         pw: PartitionWeights, d: Option<nat>)
    requires IsBounds(pw.bounds)
    ensures PositionsTo(front + [last], primaryKey, pw, d)
         == if Destination(primaryKey, pw, last) == d then PositionsTo(front, primaryKey, pw, d) + [|front|]
            else PositionsTo(front, primaryKey, pw, d)
  {
    assert (front + [last])[..|front|] == front;
    assert PositionsTo(front, primaryKey, pw, d) + [] == PositionsTo(front, primaryKey, pw, d);
  }

  /** These are exactly the positions routed to d, each once and in order. */
  ghost predicate ArePositions(ps: seq<nat>, documents: seq<Document>, primaryKey: string, pw: PartitionWeights,
                               d: Option<nat>)
    requires IsBounds(pw.bounds)
  {
    && (forall i :: 0 <= i < |ps| ==> ps[i] < |documents|)
    && (forall i, j :: 0 <= i < j < |ps| ==> ps[i] < ps[j])
    && (forall i: nat :: i in ps <==> i < |documents| && Destination(primaryKey, pw, documents[i]) == d)
  }

  lemma {:induction false} NextPosition(ps: seq<nat>, front: seq<Document>, last: Document, primaryKey: string,
                                        pw: PartitionWeights, d: Option<nat>)
    requires IsBounds(pw.bounds) && ArePositions(ps, front, primaryKey, pw, d)
    ensures ArePositions(if Destination(primaryKey, pw, last) == d then ps + [|front|] else ps, front + [last],
                         primaryKey, pw, d)
  {
    var n, documents := |front|, front + [last];
    var all := if Destination(primaryKey, pw, last) == d then ps + [n] else ps;
    assert forall i :: 0 <= i < n ==> documents[i] == front[i];
    forall i: nat ensures i in all <==> i < |documents| && Destination(primaryKey, pw, documents[i]) == d {
      assert i in all <==> i in ps || (i == n && Destination(primaryKey, pw, last) == d);
    }
  }

  lemma {:induction false} PositionsAre(documents: seq<Document>, primaryKey: string, pw: PartitionWeights,
                                        d: Option<nat>)
    requires IsBounds(pw.bounds)
    ensures ArePositions(PositionsTo(documents, primaryKey, pw, d), documents, primaryKey, pw, d)
  {
    if documents == [] {
      assert PositionsTo(documents, primaryKey, pw, d) == [];
    } else {
      var front, last := documents[..|documents| - 1], documents[|documents| - 1];
      assert documents == front + [last];
      PositionsAre(front, primaryKey, pw, d);
      NextPositions(front, last, primaryKey, pw, d);
    }
  }

  lemma {:induction false} NextPositions(front: seq<Document>, last: Document, primaryKey: string,
                                         pw: PartitionWeights, d: Option<nat>)
    requires IsBounds(pw.bounds) && ArePositions(PositionsTo(front, primaryKey, pw, d), front, primaryKey, pw, d)
    ensures ArePositions(PositionsTo(front + [last], primaryKey, pw, d), front + [last], primaryKey, pw, d)
  {
    PositionsStep(front, last, primaryKey, pw, d);
    NextPosition(PositionsTo(front, primaryKey, pw, d), front, last, primaryKey, pw, d);
  }

  lemma {:induction false} InOrder(ps: seq<nat>, i: nat, j: nat)
    requires (forall a, b :: 0 <= a < b < |ps| ==> ps[a] < ps[b]) && i in ps && j in ps && i < j
    ensures exists a, b :: 0 <= a < b < |ps| && ps[a] == i && ps[b] == j
  {
    var a :| 0 <= a < |ps| && ps[a] == i;
    var b :| 0 <= b < |ps| && ps[b] == j;
    assert b < a ==> ps[b] < ps[a];
  }

  lemma {:induction false} SameDestination(primaryKey: string, pw: PartitionWeights, x: Document, y: Document)
    requires IsBounds(pw.bounds) && KeyOf(x.fields, primaryKey) == KeyOf(y.fields, primaryKey)
    ensures Destination(primaryKey, pw, x) == Destination(primaryKey, pw, y)
  {
  }

  /** Documents with equal keys share a group and keep their order in it. */
  lemma {:induction false} EqualKeysStayInOrder(documents: seq<Document>, primaryKey: string, pw: PartitionWeights,
                                                i: nat, j: nat)
    requires IsBounds(pw.bounds) && i < j < |documents|
    requires KeyOf(documents[i].fields, primaryKey) == KeyOf(documents[j].fields, primaryKey)
    ensures var ps := PositionsTo(documents, primaryKey, pw, Destination(primaryKey, pw, documents[i]));
            exists a, b :: 0 <= a < b < |ps| && ps[a] == i && ps[b] == j
  {
    var d := Destination(primaryKey, pw, documents[i]);
    SameDestination(primaryKey, pw, documents[i], documents[j]);
    PositionsAre(documents, primaryKey, pw, d);
    var ps := PositionsTo(documents, primaryKey, pw, d);
    InOrder(ps, i, j);
    var a, b :| 0 <= a < b < |ps| && ps[a] == i && ps[b] == j;
    assert ps == PositionsTo(documents, primaryKey, pw, Destination(primaryKey, pw, documents[i]));
  }

  function GroupPositions(documents: seq<Document>, primaryKey: string, pw: PartitionWeights,
                          k: nat): (r: seq<seq<nat>>)
    requires IsBounds(pw.bounds)
    ensures |r| == k && forall g :: 0 <= g < k ==> r[g] == PositionsTo(documents, primaryKey, pw, Some(g))
  {
    if k == 0 then []
    else GroupPositions(documents, primaryKey, pw, k - 1) + [PositionsTo(documents, primaryKey, pw, Some(k - 1))]
  }

  lemma {:induction false} ConcatGrow<X>(lists: seq<seq<X>>, g: nat, x: X)
    requires g < |lists|
    ensures multiset(Concat(lists[g := lists[g] + [x]])) == multiset(Concat(lists)) + multiset{x}
  {
    var grown, rest := lists[g := lists[g] + [x]], Concat(lists[1..]);
    if g == 0 {
      assert grown[1..] == lists[1..];
      assert multiset(grown[0] + rest) == multiset(lists[0] + rest) + multiset{x};
    } else {
      assert grown[1..] == lists[1..][g - 1 := lists[1..][g - 1] + [x]];
      ConcatGrow(lists[1..], g - 1, x);
      assert multiset(lists[0] + Concat(grown[1..])) == multiset(lists[0] + rest) + multiset{x};
    }
  }

  lemma {:induction false} ConcatEmpties<X>(lists: seq<seq<X>>)
    requires forall i :: 0 <= i < |lists| ==> lists[i] == []
    ensures Concat(lists) == []
  {
    if lists != [] { ConcatEmpties(lists[1..]); }
  }

  /** Every position lands in exactly one group or among the unroutable. */
  lemma {:induction false} SplitConserves(documents: seq<Document>, primaryKey: string, pw: PartitionWeights)
    requires IsBounds(pw.bounds)
    ensures Balanced(PositionsTo(documents, primaryKey, pw, None),
                     GroupPositions(documents, primaryKey, pw, |pw.bounds|), |documents|)
  {
    if documents == [] {
      ConcatEmpties(GroupPositions(documents, primaryKey, pw, |pw.bounds|));
      assert Numbers(0) == [];
    } else {
      var front, last := documents[..|documents| - 1], documents[|documents| - 1];
      assert documents == front + [last];
      SplitConserves(front, primaryKey, pw);
      PositionsStep(front, last, primaryKey, pw, None);
      GroupsStep(front, last, primaryKey, pw);
      BalancedStep(PositionsTo(front, primaryKey, pw, None), GroupPositions(front, primaryKey, pw, |pw.bounds|),
                   |front|, Destination(primaryKey, pw, last));
    }
  }

  /** The unrouted positions and the groups hold 0 .. n - 1, each once. */
  ghost predicate Balanced(unrouted: seq<nat>, groups: seq<seq<nat>>, n: nat) {
    multiset(unrouted) + multiset(Concat(groups)) == multiset(Numbers(n))
  }

  lemma {:induction false} BalancedStep(unrouted: seq<nat>, groups: seq<seq<nat>>, n: nat, d: Option<nat>)
    requires Balanced(unrouted, groups, n) && (d.Some? ==> d.value < |groups|)
    ensures d.None? ==> Balanced(unrouted + [n], groups, n + 1)
    ensures d.Some? ==> Balanced(unrouted, groups[d.value := groups[d.value] + [n]], n + 1)
  {
    assert Numbers(n + 1) == Numbers(n) + [n];
    if d.Some? { ConcatGrow(groups, d.value, n); }
  }

  lemma {:induction false} GrownAt(before: seq<seq<nat>>, after: seq<seq<nat>>, d: Option<nat>, n: nat)
    requires |after| == |before| && (d.Some? ==> d.value < |before|)
    requires forall g :: 0 <= g < |before| ==> after[g] == if d == Some(g) then before[g] + [n] else before[g]
    ensures after == if d.None? then before else before[d.value := before[d.value] + [n]]
  {
  }

  lemma {:induction false} GroupsStep(front: seq<Document>, last: Document, primaryKey: string, pw: PartitionWeights)
    requires IsBounds(pw.bounds)
    ensures var before, d := GroupPositions(front, primaryKey, pw, |pw.bounds|), Destination(primaryKey, pw, last);
            GroupPositions(front + [last], primaryKey, pw, |pw.bounds|)
            == if d.None? then before else before[d.value := before[d.value] + [|front|]]
  {
    var before, d := GroupPositions(front, primaryKey, pw, |pw.bounds|), Destination(primaryKey, pw, last);
    var after := GroupPositions(front + [last], primaryKey, pw, |pw.bounds|);
    forall g | 0 <= g < |pw.bounds| ensures after[g] == if d == Some(g) then before[g] + [|front|] else before[g] {
      PositionsStep(front, last, primaryKey, pw, Some(g));
    }
    GrownAt(before, after, d, |front|);
  }

  // ---- the router ----

  const NO_KEY := "document has no primary key value; a partitioned index cannot route it"

  /** Errors refusing the documents at these positions. */
  function Refusals(ps: seq<nat>): (r: seq<DocumentError>)
    ensures |r| == |ps| && forall i :: 0 <= i < |ps| ==> r[i] == DocumentError(Cast32(ps[i]), NO_KEY)
  {
    if ps == [] then [] else Refusals(ps[..|ps| - 1]) + [DocumentError(Cast32(ps[|ps| - 1]), NO_KEY)]
  }

  ghost predicate IsGroup(group: Group, documents: seq<Document>, ps: seq<nat>) {
    && group.positions == ps && |group.documents| == |ps|
    && forall i :: 0 <= i < |ps| ==> ps[i] < |documents| && group.documents[i] == documents[ps[i]]
  }

  /** The groups and refusals of these documents. */
  ghost predicate Routed(groups: seq<Group>, unroutable: seq<DocumentError>, documents: seq<Document>,
                         primaryKey: string, pw: PartitionWeights)
    requires IsBounds(pw.bounds)
  {
    && |groups| == |pw.bounds|
    && (forall g :: 0 <= g < |groups| ==>
          IsGroup(groups[g], documents, PositionsTo(documents, primaryKey, pw, Some(g))))
    && unroutable == Refusals(PositionsTo(documents, primaryKey, pw, None))
  }

  function AddTo(groups: seq<Group>, d: nat, position: nat, document: Document): seq<Group>
    requires d < |groups|
  {
    groups[d := Group(groups[d].positions + [position], groups[d].documents + [document])]
  }

  lemma {:induction false} GroupKept(group: Group, front: seq<Document>, last: Document, ps: seq<nat>)
    requires IsGroup(group, front, ps)
    ensures IsGroup(group, front + [last], ps)
    ensures IsGroup(Group(group.positions + [|front|], group.documents + [last]), front + [last], ps + [|front|])
  {
  }

  lemma {:induction false} RoutedStep(groups: seq<Group>, unroutable: seq<DocumentError>, front: seq<Document>,
                                      last: Document, primaryKey: string, pw: PartitionWeights)
    requires IsBounds(pw.bounds) && Routed(groups, unroutable, front, primaryKey, pw)
    ensures match Destination(primaryKey, pw, last)
            case Some(d) => Routed(AddTo(groups, d, |front|, last), unroutable, front + [last], primaryKey, pw)
            case None =>
              Routed(groups, unroutable + [DocumentError(Cast32(|front|), NO_KEY)], front + [last], primaryKey, pw)
  {
    var d := Destination(primaryKey, pw, last);
    var after := if d.Some? then AddTo(groups, d.value, |front|, last) else groups;
    PositionsStep(front, last, primaryKey, pw, None);
    forall g | 0 <= g < |groups|
      ensures IsGroup(after[g], front + [last], PositionsTo(front + [last], primaryKey, pw, Some(g)))
    {
      PositionsStep(front, last, primaryKey, pw, Some(g));
      GroupKept(groups[g], front, last, PositionsTo(front, primaryKey, pw, Some(g)));
    }
    RefusalsStep(PositionsTo(front, primaryKey, pw, None), |front|);
  }

  lemma {:induction false} RefusalsStep(ps: seq<nat>, p: nat)
    ensures Refusals(ps + [p]) == Refusals(ps) + [DocumentError(Cast32(p), NO_KEY)]
  {
  }

  /** Split a batch: group g is the documents routed to partition g with their
      request positions, in request order. */
  method RouteDocuments(documents: seq<Document>, primaryKey: string, pw: PartitionWeights)
    returns (groups: seq<Group>, unroutable: seq<DocumentError>)
    requires IsBounds(pw.bounds)
    ensures Routed(groups, unroutable, documents, primaryKey, pw)
  {
    groups := seq(|pw.bounds|, _ => Group([], []));
    unroutable := [];
    for position := 0 to |documents|
      invariant Routed(groups, unroutable, documents[..position], primaryKey, pw)
    {
      var document := documents[position];
      assert documents[..position + 1] == documents[..position] + [document];
      RoutedStep(groups, unroutable, documents[..position], document, primaryKey, pw);
      match Destination(primaryKey, pw, document) {
        case Some(partition) =>
          groups := AddTo(groups, partition, position, document);
        case None =>
          unroutable := unroutable + [DocumentError(Cast32(position), NO_KEY)];
      }
    }
    assert documents[..|documents|] == documents;
  }

  // ---- the merger ----

  function MapError(positions: seq<nat>, e: DocumentError): DocumentError {
    DocumentError(if e.index < |positions| then Cast32(positions[e.index]) else e.index, e.error)
  }

  function MapErrors(positions: seq<nat>, errors: seq<DocumentError>): seq<DocumentError> {
    if errors == [] then []
    else MapErrors(positions, errors[..|errors| - 1]) + [MapError(positions, errors[|errors| - 1])]
  }

  function IndexedTotal(responses: seq<(seq<nat>, BatchResponse)>): nat {
    if responses == [] then 0
    else IndexedTotal(responses[..|responses| - 1]) + responses[|responses| - 1].1.indexed
  }

  function ErrorTotal(responses: seq<(seq<nat>, BatchResponse)>): nat {
    if responses == [] then 0
    else ErrorTotal(responses[..|responses| - 1]) + responses[|responses| - 1].1.errorCount
  }

  function AllErrors(responses: seq<(seq<nat>, BatchResponse)>): seq<DocumentError> {
    if responses == [] then []
    else
      var last := responses[|responses| - 1];
      AllErrors(responses[..|responses| - 1]) + MapErrors(last.0, last.1.errors)
  }

  predicate ByIndex(a: DocumentError, b: DocumentError) {
    a.index <= b.index
  }

  function Merged(responses: seq<(seq<nat>, BatchResponse)>, unroutable: seq<DocumentError>): BatchResponse {
    BatchResponse(
      SaturatingAdd32(IndexedTotal(responses), 0),
      SaturatingAdd32(Cast32(|unroutable|) + ErrorTotal(responses), 0),
      StableSort(unroutable + AllErrors(responses), ByIndex))
  }

  /** Fold every partition's answer into one, errors at their request
      positions. */
  method MergeBatchResponses(responses: seq<(seq<nat>, BatchResponse)>,
                             unroutable: seq<DocumentError>) returns (merged: BatchResponse)
    ensures merged == Merged(responses, unroutable)
  {
    var indexed, errorCount, errors := 0, Cast32(|unroutable|), unroutable;
    for i := 0 to |responses|
      invariant indexed == SaturatingAdd32(IndexedTotal(responses[..i]), 0)
      invariant errorCount == SaturatingAdd32(Cast32(|unroutable|) + ErrorTotal(responses[..i]), 0)
      invariant errors == unroutable + AllErrors(responses[..i])
    {
      var (positions, response) := responses[i];
      assert responses[..i + 1][..i] == responses[..i];
      indexed := SaturatingAdd32(indexed, response.indexed);
      errorCount := SaturatingAdd32(errorCount, response.errorCount);
      errors := PushErrors(errors, positions, response.errors);
    }
    assert responses[..|responses|] == responses;
    merged := BatchResponse(indexed, errorCount, StableSort(errors, ByIndex));
  }

  method PushErrors(before: seq<DocumentError>, positions: seq<nat>,
                    added: seq<DocumentError>) returns (errors: seq<DocumentError>)
    ensures errors == before + MapErrors(positions, added)
  {
    errors := before;
    for j := 0 to |added|
      invariant errors == before + MapErrors(positions, added[..j])
    {
      assert added[..j + 1][..j] == added[..j];
      errors := errors + [MapError(positions, added[j])];
    }
    assert added[..|added|] == added;
  }

  // ---- what positions answer, given a decision per document ----

  /** The errors at these positions: a decision is an error or acceptance. */
  function ErrorsAt(decisions: seq<Option<string>>, ps: seq<nat>): seq<DocumentError>
    requires forall i :: 0 <= i < |ps| ==> ps[i] < |decisions|
  {
    if ps == [] then []
    else
      var p := ps[|ps| - 1];
      ErrorsAt(decisions, ps[..|ps| - 1]) + (if decisions[p].Some? then [DocumentError(p, decisions[p].value)] else [])
  }

  function AcceptedAt(decisions: seq<Option<string>>, ps: seq<nat>): nat
    requires forall i :: 0 <= i < |ps| ==> ps[i] < |decisions|
  {
    if ps == [] then 0
    else AcceptedAt(decisions, ps[..|ps| - 1]) + (if decisions[ps[|ps| - 1]].None? then 1 else 0)
  }

  /** One pass over documents with these decisions. */
  function OnePass(decisions: seq<Option<string>>): BatchResponse {
    var errors := ErrorsAt(decisions, Numbers(|decisions|));
    BatchResponse(AcceptedAt(decisions, Numbers(|decisions|)), |errors|, errors)
  }

  function Decisions(documents: seq<Document>, outcome: Document -> Option<string>): (r: seq<Option<string>>)
    ensures |r| == |documents| && forall i :: 0 <= i < |documents| ==> r[i] == outcome(documents[i])
  {
    if documents == [] then []
    else Decisions(documents[..|documents| - 1], outcome) + [outcome(documents[|documents| - 1])]
  }

  /** The same decisions with the broker's refusal of unroutable documents. */
  function BatchDecisions(documents: seq<Document>, primaryKey: string, pw: PartitionWeights,
                          outcome: Document -> Option<string>)
    : (r: seq<Option<string>>)
    requires IsBounds(pw.bounds)
    ensures |r| == |documents|
    ensures forall i :: 0 <= i < |documents| ==>
              r[i] == if Destination(primaryKey, pw, documents[i]).None? then Some(NO_KEY) else outcome(documents[i])
  {
    if documents == [] then []
    else
      var last := documents[|documents| - 1];
      BatchDecisions(documents[..|documents| - 1], primaryKey, pw, outcome)
      + [if Destination(primaryKey, pw, last).None? then Some(NO_KEY) else outcome(last)]
  }

  ghost predicate InRange(decisions: seq<Option<string>>, ps: seq<nat>) {
    forall i :: 0 <= i < |ps| ==> ps[i] < |decisions|
  }

  lemma {:induction false} AtAppend(decisions: seq<Option<string>>, ps: seq<nat>, qs: seq<nat>)
    requires InRange(decisions, ps) && InRange(decisions, qs)
    ensures InRange(decisions, ps + qs)
    ensures ErrorsAt(decisions, ps + qs) == ErrorsAt(decisions, ps) + ErrorsAt(decisions, qs)
    ensures AcceptedAt(decisions, ps + qs) == AcceptedAt(decisions, ps) + AcceptedAt(decisions, qs)
  {
    if qs == [] {
      assert ps + qs == ps;
    } else {
      var n := |qs| - 1;
      assert (ps + qs)[..|ps + qs| - 1] == ps + qs[..n];
      AtAppend(decisions, ps, qs[..n]);
    }
  }

  ghost predicate SameAnswers(decisions: seq<Option<string>>, ps: seq<nat>, qs: seq<nat>)
    requires InRange(decisions, ps) && InRange(decisions, qs)
  {
    && multiset(ErrorsAt(decisions, ps)) == multiset(ErrorsAt(decisions, qs))
    && AcceptedAt(decisions, ps) == AcceptedAt(decisions, qs)
  }

  /** Answers do not depend on the order positions are visited in. */
  lemma {:induction false} AtPermutation(decisions: seq<Option<string>>, ps: seq<nat>, qs: seq<nat>)
    requires InRange(decisions, ps) && InRange(decisions, qs) && multiset(ps) == multiset(qs)
    ensures SameAnswers(decisions, ps, qs)
    decreases |ps|
  {
    if ps == [] {
      SameMembers(ps, qs);
    } else {
      var front, p, a, b := SplitLast(ps, qs);
      RangeParts(decisions, front, p, a, b);
      AtPermutation(decisions, front, a + b);
      PermutationStep(decisions, front, p, a, b);
    }
  }

  lemma {:induction false} RangeParts(decisions: seq<Option<string>>, front: seq<nat>, p: nat, a: seq<nat>, b: seq<nat>)
    requires InRange(decisions, front + [p]) && InRange(decisions, a + ([p] + b))
    ensures p < |decisions| && InRange(decisions, front) && InRange(decisions, a) && InRange(decisions, b)
    ensures InRange(decisions, a + b)
  {
    assert p == (front + [p])[|front|];
    assert forall i :: 0 <= i < |front| ==> front[i] == (front + [p])[i];
    assert forall i :: 0 <= i < |a| ==> a[i] == (a + ([p] + b))[i];
    assert forall i :: 0 <= i < |b| ==> b[i] == (a + ([p] + b))[|a| + 1 + i];
  }

  lemma {:induction false} PermutationStep(decisions: seq<Option<string>>, front: seq<nat>, p: nat, a: seq<nat>,
                                           b: seq<nat>)
    requires p < |decisions| && InRange(decisions, front) && InRange(decisions, a) && InRange(decisions, b)
    requires InRange(decisions, a + b) && SameAnswers(decisions, front, a + b)
    ensures InRange(decisions, front + [p]) && InRange(decisions, a + ([p] + b))
    ensures SameAnswers(decisions, front + [p], a + ([p] + b))
  {
    AtMove(decisions, a, p, b);
    AtAppend(decisions, front, [p]);
  }

  lemma {:induction false} MiddleOut(a: seq<DocumentError>, m: seq<DocumentError>, b: seq<DocumentError>)
    ensures multiset(a + (m + b)) == multiset(a + b) + multiset(m)
  {
  }

  lemma {:induction false} AtMove(decisions: seq<Option<string>>, a: seq<nat>, p: nat, b: seq<nat>)
    requires InRange(decisions, a) && InRange(decisions, b) && p < |decisions|
    ensures InRange(decisions, a + ([p] + b)) && InRange(decisions, a + b)
    ensures multiset(ErrorsAt(decisions, a + ([p] + b)))
         == multiset(ErrorsAt(decisions, a + b)) + multiset(ErrorsAt(decisions, [p]))
    ensures AcceptedAt(decisions, a + ([p] + b)) == AcceptedAt(decisions, a + b) + AcceptedAt(decisions, [p])
  {
    AtAppend(decisions, a, [p] + b);
    AtAppend(decisions, [p], b);
    AtAppend(decisions, a, b);
    MiddleOut(ErrorsAt(decisions, a), ErrorsAt(decisions, [p]), ErrorsAt(decisions, b));
  }

  // ---- split, process, merge is one pass ----

  /** A backend that accepts or refuses each document on its own. */
  ghost predicate DecidesAlone(backend: (nat, seq<Document>) -> Result<BatchResponse>,
                               outcome: Document -> Option<string>) {
    forall g, documents :: backend(g, documents) == Ok(OnePass(Decisions(documents, outcome)))
  }

  /** The partitions' answers in order, skipping partitions without documents,
      up to the first failure. */
  function Calls(groups: seq<Group>,
                 backend: (nat, seq<Document>) -> Result<BatchResponse>): Result<seq<(seq<nat>, BatchResponse)>> {
    if groups == [] then Ok([])
    else
      var n := |groups| - 1;
      match Calls(groups[..n], backend)
      case Err(code) => Err(code)
      case Ok(responses) =>
        if groups[n].documents == [] then Ok(responses)
        else match backend(n, groups[n].documents)
          case Err(code) => Err(code)
          case Ok(response) => Ok(responses + [(groups[n].positions, response)])
  }

  /** Send one batch to the partitions: any partition's failure fails it. */
  method WriteBatch(documents: seq<Document>, primaryKey: string, pw: PartitionWeights,
                    backend: (nat, seq<Document>) -> Result<BatchResponse>)
    returns (r: Result<BatchResponse>, ghost groups: seq<Group>, ghost unroutable: seq<DocumentError>)
    requires IsBounds(pw.bounds)
    ensures Routed(groups, unroutable, documents, primaryKey, pw)
    ensures r == match Calls(groups, backend)
                 case Err(code) => Err(code)
                 case Ok(responses) => Ok(Merged(responses, unroutable))
  {
    var split, refused := RouteDocuments(documents, primaryKey, pw);
    groups, unroutable := split, refused;
    var answered := CallAll(split, backend);
    if answered.Err? {
      r := Err(answered.code);
      return;
    }
    var merged := MergeBatchResponses(answered.value, refused);
    r := Ok(merged);
  }

  method CallAll(groups: seq<Group>, backend: (nat, seq<Document>) -> Result<BatchResponse>)
    returns (r: Result<seq<(seq<nat>, BatchResponse)>>)
    ensures r == Calls(groups, backend)
  {
    var responses: seq<(seq<nat>, BatchResponse)> := [];
    for g := 0 to |groups|
      invariant Calls(groups[..g], backend) == Ok(responses)
    {
      assert groups[..g + 1][..g] == groups[..g];
      if groups[g].documents != [] {
        var answer := backend(g, groups[g].documents);
        if answer.Err? {
          FailureSticks(groups, backend, g + 1);
          return Err(answer.code);
        }
        responses := responses + [(groups[g].positions, answer.value)];
      }
    }
    assert groups[..|groups|] == groups;
    r := Ok(responses);
  }

  lemma {:induction false} FailureSticks(groups: seq<Group>, backend: (nat, seq<Document>) -> Result<BatchResponse>,
                                         k: nat)
    requires k <= |groups| && Calls(groups[..k], backend).Err?
    ensures Calls(groups, backend) == Calls(groups[..k], backend)
    decreases |groups| - k
  {
    if k == |groups| {
      assert groups[..k] == groups;
    } else {
      assert groups[..k + 1][..k] == groups[..k];
      FailureSticks(groups, backend, k + 1);
    }
  }

  lemma {:induction false} LastPosition(decisions: seq<Option<string>>, front: seq<nat>, p: nat)
    requires InRange(decisions, front) && p < |decisions|
    ensures decisions[p].Some? ==>
              && ErrorsAt(decisions, front + [p]) == ErrorsAt(decisions, front) + [DocumentError(p, decisions[p].value)]
              && AcceptedAt(decisions, front + [p]) == AcceptedAt(decisions, front)
    ensures decisions[p].None? ==>
              && ErrorsAt(decisions, front + [p]) == ErrorsAt(decisions, front)
              && AcceptedAt(decisions, front + [p]) == AcceptedAt(decisions, front) + 1
  {
    assert (front + [p])[..|front|] == front;
  }

  lemma {:induction false} LastError(ps: seq<nat>, front: seq<DocumentError>, e: DocumentError)
    ensures MapErrors(ps, front + [e]) == MapErrors(ps, front) + [MapError(ps, e)]
  {
    assert (front + [e])[..|front|] == front;
  }

  /** A group's own errors, mapped back, are the batch's errors at its
      positions. */
  lemma {:induction false} MapBack(local: seq<Option<string>>, decisions: seq<Option<string>>, ps: seq<nat>, k: nat)
    requires |decisions| <= U32_MAX && InRange(decisions, ps) && |local| == |ps| && k <= |ps|
    requires forall i :: 0 <= i < |ps| ==> local[i] == decisions[ps[i]]
    ensures MapErrors(ps, ErrorsAt(local, Numbers(k))) == ErrorsAt(decisions, ps[..k])
  {
    if k > 0 {
      var i := k - 1;
      MapBack(local, decisions, ps, i);
      assert Numbers(k) == Numbers(i) + [i];
      assert ps[..k] == ps[..i] + [ps[i]];
      LastPosition(local, Numbers(i), i);
      LastPosition(decisions, ps[..i], ps[i]);
      if local[i].Some? {
        LastError(ps, ErrorsAt(local, Numbers(i)), DocumentError(i, local[i].value));
        MappedError(ps, i, local[i].value);
      }
    }
  }

  lemma {:induction false} MappedError(ps: seq<nat>, i: nat, error: string)
    requires i < |ps| && ps[i] <= U32_MAX
    ensures MapError(ps, DocumentError(i, error)) == DocumentError(ps[i], error)
  {
  }

  lemma {:induction false} CountBack(local: seq<Option<string>>, decisions: seq<Option<string>>, ps: seq<nat>, k: nat)
    requires InRange(decisions, ps) && |local| == |ps| && k <= |ps|
    requires forall i :: 0 <= i < |ps| ==> local[i] == decisions[ps[i]]
    ensures AcceptedAt(local, Numbers(k)) == AcceptedAt(decisions, ps[..k])
  {
    if k > 0 {
      var i := k - 1;
      CountBack(local, decisions, ps, i);
      assert Numbers(k) == Numbers(i) + [i];
      assert ps[..k] == ps[..i] + [ps[i]];
      LastPosition(local, Numbers(i), i);
      LastPosition(decisions, ps[..i], ps[i]);
    }
  }

  ghost predicate AddsUp(calls: Result<seq<(seq<nat>, BatchResponse)>>, decisions: seq<Option<string>>, ps: seq<nat>)
    requires InRange(decisions, ps)
  {
    && calls.Ok?
    && AllErrors(calls.value) == ErrorsAt(decisions, ps) && ErrorTotal(calls.value) == |ErrorsAt(decisions, ps)|
    && IndexedTotal(calls.value) == AcceptedAt(decisions, ps)
  }

  /** The group answers as the batch decides at its positions. */
  ghost predicate AnswersFor(group: Group, response: Result<BatchResponse>, decisions: seq<Option<string>>) {
    && InRange(decisions, group.positions) && response.Ok? && |group.documents| == |group.positions|
    && MapErrors(group.positions, response.value.errors) == ErrorsAt(decisions, group.positions)
    && response.value.errorCount == |ErrorsAt(decisions, group.positions)|
    && response.value.indexed == AcceptedAt(decisions, group.positions)
  }

  lemma {:induction false} MapErrorsLength(positions: seq<nat>, errors: seq<DocumentError>)
    ensures |MapErrors(positions, errors)| == |errors|
  {
    if errors != [] { MapErrorsLength(positions, errors[..|errors| - 1]); }
  }

  /** At these positions the decisions are the outcomes. */
  ghost predicate Follows(decisions: seq<Option<string>>, outcome: Document -> Option<string>,
                          documents: seq<Document>, ps: seq<nat>) {
    && |decisions| == |documents|
    && forall i :: 0 <= i < |ps| ==> ps[i] < |documents| && decisions[ps[i]] == outcome(documents[ps[i]])
  }

  lemma {:induction false} GroupAnswers(group: Group, documents: seq<Document>, outcome: Document -> Option<string>,
                                        decisions: seq<Option<string>>)
    requires |documents| <= U32_MAX && IsGroup(group, documents, group.positions)
    requires Follows(decisions, outcome, documents, group.positions)
    ensures AnswersFor(group, Ok(OnePass(Decisions(group.documents, outcome))), decisions)
  {
    var local, ps := Decisions(group.documents, outcome), group.positions;
    MapBack(local, decisions, ps, |ps|);
    CountBack(local, decisions, ps, |ps|);
    assert ps[..|ps|] == ps;
    MapErrorsLength(ps, ErrorsAt(local, Numbers(|local|)));
  }

  lemma {:induction false} OneMoreGroup(front: seq<Group>, group: Group,
                                        backend: (nat, seq<Document>) -> Result<BatchResponse>,
                                        decisions: seq<Option<string>>, ps: seq<nat>)
    requires InRange(decisions, ps) && AddsUp(Calls(front, backend), decisions, ps)
    requires AnswersFor(group, backend(|front|, group.documents), decisions)
    ensures InRange(decisions, ps + group.positions)
    ensures AddsUp(Calls(front + [group], backend), decisions, ps + group.positions)
  {
    assert (front + [group])[..|front|] == front;
    AtAppend(decisions, ps, group.positions);
    if group.documents == [] {
      assert group.positions == [] && ps + group.positions == ps;
    } else {
      var responses, last := Calls(front, backend).value, (group.positions, backend(|front|, group.documents).value);
      assert (responses + [last])[..|responses|] == responses;
    }
  }

  lemma {:induction false} AnswersAddUp(groups: seq<Group>, positions: seq<seq<nat>>,
                                        backend: (nat, seq<Document>) -> Result<BatchResponse>,
                                        decisions: seq<Option<string>>, k: nat)
    requires |groups| == |positions| && k <= |groups|
    requires forall g :: 0 <= g < |groups| ==>
               groups[g].positions == positions[g] && AnswersFor(groups[g], backend(g, groups[g].documents), decisions)
    ensures InRange(decisions, Concat(positions[..k]))
    ensures AddsUp(Calls(groups[..k], backend), decisions, Concat(positions[..k]))
  {
    if k > 0 {
      var g := k - 1;
      AnswersAddUp(groups, positions, backend, decisions, g);
      assert groups[..k] == groups[..g] + [groups[g]] && positions[..k] == positions[..g] + [positions[g]];
      ConcatAppend(positions[..g], positions[g]);
      OneMoreGroup(groups[..g], groups[g], backend, decisions, Concat(positions[..g]));
    }
  }

  lemma {:induction false} RefusalsAreErrors(decisions: seq<Option<string>>, ps: seq<nat>)
    requires |decisions| <= U32_MAX && InRange(decisions, ps)
    requires forall i :: 0 <= i < |ps| ==> decisions[ps[i]] == Some(NO_KEY)
    ensures ErrorsAt(decisions, ps) == Refusals(ps) && AcceptedAt(decisions, ps) == 0
  {
    if ps != [] { RefusalsAreErrors(decisions, ps[..|ps| - 1]); }
  }

  lemma {:induction false} OnePassErrors(decisions: seq<Option<string>>, n: nat)
    requires n <= |decisions|
    ensures var es := ErrorsAt(decisions, Numbers(n));
            && (forall i :: 0 <= i < |es| ==> es[i].index < n)
            && (forall i, j :: 0 <= i < j < |es| ==> es[i].index < es[j].index)
            && |es| + AcceptedAt(decisions, Numbers(n)) == n
  {
    if n > 0 {
      OnePassErrors(decisions, n - 1);
      assert Numbers(n) == Numbers(n - 1) + [n - 1];
      LastPosition(decisions, Numbers(n - 1), n - 1);
    }
  }

  lemma {:induction false} SortedErrorsUnique(mixed: seq<DocumentError>, errors: seq<DocumentError>)
    requires multiset(mixed) == multiset(errors)
    requires forall i, j :: 0 <= i < j < |errors| ==> errors[i].index < errors[j].index
    ensures StableSort(mixed, ByIndex) == errors && |mixed| == |errors|
  {
    SortSorted(mixed, ByIndex);
    SortMultiset(mixed, ByIndex);
    SameMembers(mixed, errors);
    SortedPermutationUnique(errors, StableSort(mixed, ByIndex), ByIndex);
  }

  lemma {:induction false} MergedIsOnePass(calls: Result<seq<(seq<nat>, BatchResponse)>>,
                                           decisions: seq<Option<string>>, none: seq<nat>, ps: seq<nat>)
    requires |decisions| <= U32_MAX && InRange(decisions, none) && InRange(decisions, ps)
             && AddsUp(calls, decisions, ps)
    requires forall i :: 0 <= i < |none| ==> decisions[none[i]] == Some(NO_KEY)
    requires multiset(none) + multiset(ps) == multiset(Numbers(|decisions|))
    ensures Merged(calls.value, Refusals(none)) == OnePass(decisions)
  {
    var all := Numbers(|decisions|);
    RefusalsAreErrors(decisions, none);
    AtAppend(decisions, none, ps);
    assert multiset(none + ps) == multiset(all);
    AtPermutation(decisions, none + ps, all);
    OnePassErrors(decisions, |decisions|);
    SortedErrorsUnique(Refusals(none) + AllErrors(calls.value), ErrorsAt(decisions, all));
  }

  lemma {:induction false} RoutedPositions(documents: seq<Document>, primaryKey: string, pw: PartitionWeights,
                                           d: Option<nat>)
    requires IsBounds(pw.bounds)
    ensures var ps := PositionsTo(documents, primaryKey, pw, d);
            forall i :: 0 <= i < |ps| ==> ps[i] < |documents| && Destination(primaryKey, pw, documents[ps[i]]) == d
  {
    var ps := PositionsTo(documents, primaryKey, pw, d);
    PositionsAre(documents, primaryKey, pw, d);
    forall i | 0 <= i < |ps| ensures ps[i] < |documents| && Destination(primaryKey, pw, documents[ps[i]]) == d {
      assert ps[i] in ps;
    }
  }

  lemma {:induction false} RoutedFollow(documents: seq<Document>, primaryKey: string, pw: PartitionWeights,
                                        outcome: Document -> Option<string>, g: nat)
    requires IsBounds(pw.bounds)
    ensures Follows(BatchDecisions(documents, primaryKey, pw, outcome), outcome, documents,
                    PositionsTo(documents, primaryKey, pw, Some(g)))
  {
    RoutedPositions(documents, primaryKey, pw, Some(g));
  }

  lemma {:induction false} PartitionAnswers(documents: seq<Document>, primaryKey: string, pw: PartitionWeights,
                                            outcome: Document -> Option<string>, group: Group, g: nat)
    requires IsBounds(pw.bounds) && |documents| <= U32_MAX
    requires IsGroup(group, documents, PositionsTo(documents, primaryKey, pw, Some(g)))
    ensures AnswersFor(group, Ok(OnePass(Decisions(group.documents, outcome))),
                       BatchDecisions(documents, primaryKey, pw, outcome))
  {
    RoutedFollow(documents, primaryKey, pw, outcome, g);
    GroupAnswers(group, documents, outcome, BatchDecisions(documents, primaryKey, pw, outcome));
  }

  lemma {:induction false} RefusedDecisions(documents: seq<Document>, primaryKey: string, pw: PartitionWeights,
                                            outcome: Document -> Option<string>)
    requires IsBounds(pw.bounds)
    ensures var ps := PositionsTo(documents, primaryKey, pw, None);
            var decisions := BatchDecisions(documents, primaryKey, pw, outcome);
            InRange(decisions, ps) && forall i :: 0 <= i < |ps| ==> decisions[ps[i]] == Some(NO_KEY)
  {
    RoutedPositions(documents, primaryKey, pw, None);
  }

  /** Splitting a batch by key, letting every partition decide its documents on
      their own and merging the answers gives the counts and sorted error
      positions of one pass over the whole batch. */
  lemma {:induction false} SplitProcessMergeIsOnePass(documents: seq<Document>, primaryKey: string,
                                                      pw: PartitionWeights, groups: seq<Group>,
                                                      unroutable: seq<DocumentError>,
                                                      outcome: Document -> Option<string>,
                                                      backend: (nat, seq<Document>) -> Result<BatchResponse>)
    requires IsBounds(pw.bounds) && Routed(groups, unroutable, documents, primaryKey, pw)
    requires |documents| <= U32_MAX && DecidesAlone(backend, outcome)
    ensures Calls(groups, backend).Ok?
    ensures Merged(Calls(groups, backend).value, unroutable)
         == OnePass(BatchDecisions(documents, primaryKey, pw, outcome))
  {
    var decisions := BatchDecisions(documents, primaryKey, pw, outcome);
    var positions := GroupPositions(documents, primaryKey, pw, |pw.bounds|);
    forall g | 0 <= g < |groups|
      ensures groups[g].positions == positions[g] && AnswersFor(groups[g], backend(g, groups[g].documents), decisions)
    {
      PartitionAnswers(documents, primaryKey, pw, outcome, groups[g], g);
    }
    AnswersAddUp(groups, positions, backend, decisions, |groups|);
    assert groups[..|groups|] == groups && positions[..|groups|] == positions;
    RefusedDecisions(documents, primaryKey, pw, outcome);
    SplitConserves(documents, primaryKey, pw);
    MergedIsOnePass(Calls(groups, backend), decisions, PositionsTo(documents, primaryKey, pw, None), Concat(positions));
  }

  // ---- the size a batch may have ----

  ghost predicate MergesAsOnePass(documents: seq<Document>, primaryKey: string, pw: PartitionWeights,
                                  groups: seq<Group>, unroutable: seq<DocumentError>,
                                  outcome: Document -> Option<string>,
                                  backend: (nat, seq<Document>) -> Result<BatchResponse>)
    requires IsBounds(pw.bounds)
  {
    && Calls(groups, backend).Ok?
    && Merged(Calls(groups, backend).value, unroutable)
    == OnePass(BatchDecisions(documents, primaryKey, pw, outcome))
  }

  lemma {:induction false} KeylessUnrouted(document: Document, primaryKey: string, pw: PartitionWeights)
    requires IsBounds(pw.bounds) && document == Document([])
    ensures Destination(primaryKey, pw, document) == None
  {
  }

  lemma {:induction false} KeylessPositions(documents: seq<Document>, primaryKey: string, pw: PartitionWeights,
                                            d: Option<nat>)
    requires IsBounds(pw.bounds) && d.Some?
    requires forall i :: 0 <= i < |documents| ==> documents[i] == Document([])
    ensures PositionsTo(documents, primaryKey, pw, d) == []
  {
    if documents != [] {
      KeylessPositions(documents[..|documents| - 1], primaryKey, pw, d);
      KeylessUnrouted(documents[|documents| - 1], primaryKey, pw);
    }
  }

  lemma {:induction false} KeylessRouted(documents: seq<Document>, primaryKey: string, pw: PartitionWeights,
                                         groups: seq<Group>)
    requires IsBounds(pw.bounds) && |groups| == |pw.bounds|
    requires forall i :: 0 <= i < |documents| ==> documents[i] == Document([])
    requires forall g :: 0 <= g < |groups| ==> groups[g] == Group([], [])
    ensures Routed(groups, Refusals(PositionsTo(documents, primaryKey, pw, None)), documents, primaryKey, pw)
  {
    forall g: nat | g < |groups| ensures PositionsTo(documents, primaryKey, pw, Some(g)) == [] {
      KeylessPositions(documents, primaryKey, pw, Some(g));
    }
  }

  lemma {:induction false} AllErrorsAt(decisions: seq<Option<string>>, n: nat)
    requires n <= |decisions| && forall i :: 0 <= i < n ==> decisions[i].Some?
    ensures |ErrorsAt(decisions, Numbers(n))| == n
  {
    OnePassErrors(decisions, n);
    NoneAccepted(decisions, n);
  }

  lemma {:induction false} NoneAccepted(decisions: seq<Option<string>>, n: nat)
    requires n <= |decisions| && forall i :: 0 <= i < n ==> decisions[i].Some?
    ensures AcceptedAt(decisions, Numbers(n)) == 0
  {
    if n > 0 {
      NoneAccepted(decisions, n - 1);
      assert Numbers(n) == Numbers(n - 1) + [n - 1];
      LastPosition(decisions, Numbers(n - 1), n - 1);
    }
  }

  /** n documents without a key: n errors, which a 32-bit count cannot hold. */
  lemma {:induction false} TooManyKeyless(n: nat, primaryKey: string, pw: PartitionWeights,
                                          outcome: Document -> Option<string>,
                                          backend: (nat, seq<Document>) -> Result<BatchResponse>)
    returns (documents: seq<Document>, groups: seq<Group>, unroutable: seq<DocumentError>)
    requires IsBounds(pw.bounds) && n > U32_MAX
    ensures |documents| == n && Routed(groups, unroutable, documents, primaryKey, pw)
    ensures !MergesAsOnePass(documents, primaryKey, pw, groups, unroutable, outcome, backend)
  {
    documents := seq(n, _ => Document([]));
    groups := seq(|pw.bounds|, _ => Group([], []));
    unroutable := Refusals(PositionsTo(documents, primaryKey, pw, None));
    KeylessRouted(documents, primaryKey, pw, groups);
    AllErrorsAt(BatchDecisions(documents, primaryKey, pw, outcome), n);
  }

  /** Split, process, merge is one pass for every batch of n documents exactly
      when a 32-bit count can hold n. */
  lemma {:induction false} OnePassIffCounted(n: nat, primaryKey: string, pw: PartitionWeights,
                                             outcome: Document -> Option<string>,
                                             backend: (nat, seq<Document>) -> Result<BatchResponse>)
    requires IsBounds(pw.bounds) && DecidesAlone(backend, outcome)
    ensures (forall documents, groups, unroutable ::
               |documents| == n && Routed(groups, unroutable, documents, primaryKey, pw)
               ==> MergesAsOnePass(documents, primaryKey, pw, groups, unroutable, outcome, backend))
        <==> n <= U32_MAX
  {
    if n <= U32_MAX {
      forall documents, groups, unroutable
        | |documents| == n && Routed(groups, unroutable, documents, primaryKey, pw)
        ensures MergesAsOnePass(documents, primaryKey, pw, groups, unroutable, outcome, backend)
      {
        SplitProcessMergeIsOnePass(documents, primaryKey, pw, groups, unroutable, outcome, backend);
      }
    } else {
      var documents, groups, unroutable := TooManyKeyless(n, primaryKey, pw, outcome, backend);
    }
  }
}
