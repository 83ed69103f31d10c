/** Stable sorting and merging under an arbitrary total preorder, and the
    lexicographic order of strings.

    The broker sorts in many places (hits, nomination lists, error positions,
    index names, posting entries), always with the standard library's stable
    sort. It is defined here once, as a fold of a stable two-way merge. */
module Sorting {

  ghost predicate TotalPreorder<T(!new)>(le: (T, T) -> bool) {
    && (forall x, y :: le(x, y) || le(y, x))
    && (forall x, y, z :: le(x, y) && le(y, z) ==> le(x, z))
  }

  ghost predicate Antisymmetric<T(!new)>(le: (T, T) -> bool) {
    forall x, y :: le(x, y) && le(y, x) ==> x == y
  }

  predicate Sorted<T>(s: seq<T>, le: (T, T) -> bool) {
    forall i, j :: 0 <= i < j < |s| ==> le(s[i], s[j])
  }

  /** Merge two lists; on a tie the left list goes first. */
  function Merge<T>(a: seq<T>, b: seq<T>, le: (T, T) -> bool): seq<T>
    decreases |a| + |b|
  {
    if a == [] then b
    else if b == [] then a
    else if le(a[0], b[0]) then [a[0]] + Merge(a[1..], b, le)
    else [b[0]] + Merge(a, b[1..], le)
  }

  function StableSort<T>(s: seq<T>, le: (T, T) -> bool): seq<T> {
    if s == [] then [] else Merge([s[0]], StableSort(s[1..], le), le)
  }

  function Take<T>(s: seq<T>, k: nat): seq<T> {
    if k < |s| then s[..k] else s
  }

  function Drop<T>(s: seq<T>, k: nat): seq<T> {
    if k < |s| then s[k..] else []
  }

  function Concat<T>(lists: seq<seq<T>>): seq<T> {
    if lists == [] then [] else lists[0] + Concat(lists[1..])
  }

  function MergeAll<T>(lists: seq<seq<T>>, le: (T, T) -> bool): seq<T> {
    if lists == [] then [] else Merge(lists[0], MergeAll(lists[1..], le), le)
  }

  function Filter<T>(p: T -> bool, s: seq<T>): seq<T> {
    if s == [] then [] else (if p(s[0]) then [s[0]] else []) + Filter(p, s[1..])
  }

  /** Membership in the tie class of `x`. */
  function TiesWith<T>(x: T, le: (T, T) -> bool): T -> bool {
    y => le(x, y) && le(y, x)
  }

  // ---- merge ----

  lemma {:induction false} MergeMultiset<T>(a: seq<T>, b: seq<T>, le: (T, T) -> bool)
    ensures multiset(Merge(a, b, le)) == multiset(a) + multiset(b)
    decreases |a| + |b|
  {
    if a == [] || b == [] {
    } else if le(a[0], b[0]) {
      MergeMultiset(a[1..], b, le);
      TailMultiset(a);
    } else {
      MergeMultiset(a, b[1..], le);
      TailMultiset(b);
    }
  }

  lemma {:induction false} SameMembers<T>(a: seq<T>, b: seq<T>)
    requires multiset(a) == multiset(b)
    ensures |a| == |b| && forall x :: x in a <==> x in b
  {
    assert |a| == |multiset(a)| && |b| == |multiset(b)|;
    forall x ensures x in a <==> x in b {
      assert x in a <==> x in multiset(a);
      assert x in b <==> x in multiset(b);
    }
  }

  lemma {:induction false} MergeMembers<T>(a: seq<T>, b: seq<T>, le: (T, T) -> bool)
    ensures forall x :: x in Merge(a, b, le) <==> x in a || x in b
  {
    MergeMultiset(a, b, le);
    assert multiset(a + b) == multiset(a) + multiset(b);
    SameMembers(Merge(a, b, le), a + b);
  }

  lemma {:induction false} ConsSorted<T(!new)>(x: T, s: seq<T>, le: (T, T) -> bool)
    requires Sorted(s, le) && forall y :: y in s ==> le(x, y)
    ensures Sorted([x] + s, le)
  {
  }

  lemma {:induction false} MergeSorted<T(!new)>(a: seq<T>, b: seq<T>, le: (T, T) -> bool)
    requires TotalPreorder(le) && Sorted(a, le) && Sorted(b, le)
    ensures Sorted(Merge(a, b, le), le)
    decreases |a| + |b|
  {
    if a == [] || b == [] {
    } else if le(a[0], b[0]) {
      MergeSorted(a[1..], b, le);
      MergeMembers(a[1..], b, le);
      ConsSorted(a[0], Merge(a[1..], b, le), le);
    } else {
      MergeSorted(a, b[1..], le);
      MergeMembers(a, b[1..], le);
      ConsSorted(b[0], Merge(a, b[1..], le), le);
    }
  }

  lemma {:induction false} MergeAssociative<T(!new)>(a: seq<T>, b: seq<T>, c: seq<T>, le: (T, T) -> bool)
    requires TotalPreorder(le)
    ensures Merge(a, Merge(b, c, le), le) == Merge(Merge(a, b, le), c, le)
    decreases |a| + |b| + |c|
  {
    if a == [] || b == [] || c == [] {
    } else {
      var bc, ab := Merge(b, c, le), Merge(a, b, le);
      if le(a[0], b[0]) {
        assert ab[1..] == Merge(a[1..], b, le);
        if le(b[0], c[0]) || le(a[0], c[0]) {
          MergeAssociative(a[1..], b, c, le);
        } else {
          assert bc[1..] == Merge(b, c[1..], le);
          MergeAssociative(a, b, c[1..], le);
        }
      } else if le(b[0], c[0]) {
        assert ab[1..] == Merge(a, b[1..], le);
        assert bc[1..] == Merge(b[1..], c, le);
        MergeAssociative(a, b[1..], c, le);
      } else {
        assert bc[1..] == Merge(b, c[1..], le);
        MergeAssociative(a, b, c[1..], le);
      }
    }
  }

  /** The first k of a merge depend only on the first k of each side. */
  lemma {:induction false} MergeTake<T>(a: seq<T>, b: seq<T>, k: nat, m: nat, n: nat, le: (T, T) -> bool)
    requires k <= m && k <= n
    ensures Take(Merge(Take(a, m), Take(b, n), le), k) == Take(Merge(a, b, le), k)
    decreases |a| + |b|
  {
    if k == 0 {
    } else if a == [] {
      TakeTake(b, k, n);
    } else if b == [] {
      TakeTake(a, k, m);
    } else if le(a[0], b[0]) {
      MergeTake(a[1..], b, k - 1, m - 1, n, le);
      TakeHead(a, m);
      TakeHead(b, n);
      MergeLeft(a, b, k, le);
      MergeLeft(Take(a, m), Take(b, n), k, le);
    } else {
      MergeTake(a, b[1..], k - 1, m, n - 1, le);
      TakeHead(a, m);
      TakeHead(b, n);
      MergeRight(a, b, k, le);
      MergeRight(Take(a, m), Take(b, n), k, le);
    }
  }

  lemma {:induction false} MergeLeft<T>(a: seq<T>, b: seq<T>, k: nat, le: (T, T) -> bool)
    requires k > 0 && a != [] && b != [] && le(a[0], b[0])
    ensures Take(Merge(a, b, le), k) == [a[0]] + Take(Merge(a[1..], b, le), k - 1)
  {
  }

  lemma {:induction false} MergeRight<T>(a: seq<T>, b: seq<T>, k: nat, le: (T, T) -> bool)
    requires k > 0 && a != [] && b != [] && !le(a[0], b[0])
    ensures Take(Merge(a, b, le), k) == [b[0]] + Take(Merge(a, b[1..], le), k - 1)
  {
  }

  lemma {:induction false} TakeTake<T>(s: seq<T>, k: nat, m: nat)
    requires k <= m
    ensures Take(Take(s, m), k) == Take(s, k)
  {
  }

  lemma {:induction false} TakeHead<T>(s: seq<T>, k: nat)
    requires s != [] && k > 0
    ensures Take(s, k) != [] && Take(s, k)[0] == s[0] && Take(s, k)[1..] == Take(s[1..], k - 1)
  {
  }

  // ---- sort ----

  lemma {:induction false} SortMultiset<T>(s: seq<T>, le: (T, T) -> bool)
    ensures multiset(StableSort(s, le)) == multiset(s)
    ensures |StableSort(s, le)| == |s|
  {
    if s != [] {
      SortMultiset(s[1..], le);
      MergeMultiset([s[0]], StableSort(s[1..], le), le);
      assert s == [s[0]] + s[1..];
    }
    SameMembers(StableSort(s, le), s);
  }

  lemma {:induction false} SortSorted<T(!new)>(s: seq<T>, le: (T, T) -> bool)
    requires TotalPreorder(le)
    ensures Sorted(StableSort(s, le), le)
  {
    if s != [] {
      SortSorted(s[1..], le);
      MergeSorted([s[0]], StableSort(s[1..], le), le);
    }
  }

  /** Sorting a concatenation is merging the sorted pieces. */
  lemma {:induction false} SortAppend<T(!new)>(a: seq<T>, b: seq<T>, le: (T, T) -> bool)
    requires TotalPreorder(le)
    ensures StableSort(a + b, le) == Merge(StableSort(a, le), StableSort(b, le), le)
  {
    if a == [] {
      assert a + b == b;
    } else {
      assert (a + b)[1..] == a[1..] + b;
      SortAppend(a[1..], b, le);
      MergeAssociative([a[0]], StableSort(a[1..], le), StableSort(b, le), le);
    }
  }

  /** A sorted list is its own stable sort. */
  lemma {:induction false} SortFixpoint<T>(s: seq<T>, le: (T, T) -> bool)
    requires Sorted(s, le)
    ensures StableSort(s, le) == s
  {
    if |s| > 0 {
      SortFixpoint(s[1..], le);
      if |s| > 1 {
        assert le(s[0], s[1]);
        assert Merge([s[0]], s[1..], le) == [s[0]] + Merge([], s[1..], le);
      }
    }
  }

  lemma {:induction false} SortConcat<T(!new)>(lists: seq<seq<T>>, le: (T, T) -> bool)
    requires TotalPreorder(le)
    requires forall l :: l in lists ==> Sorted(l, le)
    ensures StableSort(Concat(lists), le) == MergeAll(lists, le)
  {
    if lists != [] {
      SortAppend(lists[0], Concat(lists[1..]), le);
      SortFixpoint(lists[0], le);
      SortConcat(lists[1..], le);
    }
  }

  lemma {:induction false} ConcatAppend<T>(lists: seq<seq<T>>, l: seq<T>)
    ensures Concat(lists + [l]) == Concat(lists) + l
  {
    if lists == [] {
      assert lists + [l] == [l] && Concat([l]) == l + Concat([]);
    } else {
      assert (lists + [l])[1..] == lists[1..] + [l];
      ConcatAppend(lists[1..], l);
    }
  }

  // ---- stability and uniqueness ----

  lemma {:induction false} FilterAppend<T>(p: T -> bool, a: seq<T>, b: seq<T>)
    ensures Filter(p, a + b) == Filter(p, a) + Filter(p, b)
  {
    if a == [] {
      assert a + b == b;
    } else {
      assert (a + b)[1..] == a[1..] + b;
      FilterAppend(p, a[1..], b);
      var head := if p(a[0]) then [a[0]] else [];
      assert Filter(p, a + b) == head + (Filter(p, a[1..]) + Filter(p, b));
      assert Filter(p, a) + Filter(p, b) == (head + Filter(p, a[1..])) + Filter(p, b);
    }
  }

  lemma {:induction false} FilterNone<T>(p: T -> bool, s: seq<T>)
    requires forall x :: x in s ==> !p(x)
    ensures Filter(p, s) == []
  {
    if s != [] { FilterNone(p, s[1..]); }
  }

  lemma {:induction false} FilterMember<T>(p: T -> bool, s: seq<T>, x: T)
    ensures x in Filter(p, s) <==> x in s && p(x)
  {
    if s != [] { FilterMember(p, s[1..], x); }
  }

  /** A merge keeps, inside every tie class, the left list's members in order
      and then the right list's. */
  lemma {:induction false} MergeStable<T(!new)>(a: seq<T>, b: seq<T>, k: T, le: (T, T) -> bool)
    requires TotalPreorder(le) && Sorted(a, le)
    ensures Filter(TiesWith(k, le), Merge(a, b, le))
         == Filter(TiesWith(k, le), a) + Filter(TiesWith(k, le), b)
    decreases |a| + |b|
  {
    var p := TiesWith(k, le);
    if a == [] || b == [] {
    } else if le(a[0], b[0]) {
      MergeStable(a[1..], b, k, le);
      FilterAppend(p, [a[0]], Merge(a[1..], b, le));
    } else {
      MergeStable(a, b[1..], k, le);
      FilterAppend(p, [b[0]], Merge(a, b[1..], le));
      if p(b[0]) {
        forall x | x in a ensures !p(x) {
          assert le(a[0], x);
        }
        FilterNone(p, a);
      }
    }
  }

  lemma {:induction false} SortStable<T(!new)>(s: seq<T>, k: T, le: (T, T) -> bool)
    requires TotalPreorder(le)
    ensures Filter(TiesWith(k, le), StableSort(s, le)) == Filter(TiesWith(k, le), s)
  {
    if s != [] {
      SortStable(s[1..], k, le);
      MergeStable([s[0]], StableSort(s[1..], le), k, le);
    }
  }

  /** A sorted list is determined by its tie classes: sorted and stable
      together leave no freedom. */
  lemma {:induction false} SortedUnique<T(!new)>(a: seq<T>, b: seq<T>, le: (T, T) -> bool)
    requires TotalPreorder(le) && Sorted(a, le) && Sorted(b, le)
    requires forall k :: Filter(TiesWith(k, le), a) == Filter(TiesWith(k, le), b)
    ensures a == b
    decreases |a|
  {
    if a != [] {
      var p := TiesWith(a[0], le);
      FilterMember(p, b, a[0]);
      assert Filter(p, b)[0] == a[0];
      assert b != [];
      var q := TiesWith(b[0], le);
      assert Filter(q, a)[0] == b[0];
      FilterMember(q, a, b[0]);
      assert p(b[0]);
      assert a[0] == b[0];
      forall k ensures Filter(TiesWith(k, le), a[1..]) == Filter(TiesWith(k, le), b[1..]) {
        var head := if TiesWith(k, le)(a[0]) then [a[0]] else [];
        assert Filter(TiesWith(k, le), a) == head + Filter(TiesWith(k, le), a[1..]);
        assert Filter(TiesWith(k, le), b) == head + Filter(TiesWith(k, le), b[1..]);
        assert Filter(TiesWith(k, le), a)[|head|..] == Filter(TiesWith(k, le), a[1..]);
      }
      SortedUnique(a[1..], b[1..], le);
    }
  }

  /** Two sorted lists with the same elements are equal when no two different
      elements tie. */
  lemma {:induction false} SortedPermutationUnique<T(!new)>(a: seq<T>, b: seq<T>, le: (T, T) -> bool)
    requires TotalPreorder(le) && Sorted(a, le) && Sorted(b, le)
    requires forall x, y :: x in a && y in a && le(x, y) && le(y, x) ==> x == y
    requires multiset(a) == multiset(b)
    ensures a == b
    decreases |a|
  {
    SameMembers(a, b);
    if a != [] {
      assert a[0] in b && b[0] in a;
      assert le(a[0], b[0]) && le(b[0], a[0]);
      TailMultiset(a);
      TailMultiset(b);
      SortedPermutationUnique(a[1..], b[1..], le);
    }
  }

  lemma {:induction false} TailMultiset<T>(s: seq<T>)
    requires s != []
    ensures multiset(s[1..]) == multiset(s) - multiset{s[0]}
    ensures multiset(s) == multiset{s[0]} + multiset(s[1..])
  {
    assert s == [s[0]] + s[1..];
  }

  // ---- lexicographic order of strings ----

  predicate LexLe(a: string, b: string) {
    a == [] || (b != [] && (a[0] < b[0] || (a[0] == b[0] && LexLe(a[1..], b[1..]))))
  }

  lemma {:induction false} LexTotal(a: string, b: string)
    ensures LexLe(a, b) || LexLe(b, a)
    ensures LexLe(a, b) && LexLe(b, a) ==> a == b
  {
    if a != [] && b != [] {
      LexTotal(a[1..], b[1..]);
      assert a == [a[0]] + a[1..] && b == [b[0]] + b[1..];
    }
  }

  lemma {:induction false} LexTransitive(a: string, b: string, c: string)
    requires LexLe(a, b) && LexLe(b, c)
    ensures LexLe(a, c)
  {
    if a != [] && a[0] == b[0] && b[0] == c[0] {
      LexTransitive(a[1..], b[1..], c[1..]);
    }
  }

  lemma {:induction false} LexIsTotalOrder()
    ensures TotalPreorder(LexLe) && Antisymmetric(LexLe)
  {
    forall a, b ensures (LexLe(a, b) || LexLe(b, a)) && (LexLe(a, b) && LexLe(b, a) ==> a == b) {
      LexTotal(a, b);
    }
    forall a, b, c | LexLe(a, b) && LexLe(b, c) ensures LexLe(a, c) {
      LexTransitive(a, b, c);
    }
  }

  /** The last element of one list, found in the other. */
  lemma {:induction false} SplitLast<X>(ps: seq<X>, qs: seq<X>) returns (front: seq<X>, p: X, a: seq<X>, b: seq<X>)
    requires ps != [] && multiset(ps) == multiset(qs)
    ensures ps == front + [p] && qs == a + ([p] + b) && multiset(front) == multiset(a + b)
  {
    front, p := ps[..|ps| - 1], ps[|ps| - 1];
    SameMembers(ps, qs);
    assert p in qs;
    var j :| 0 <= j < |qs| && qs[j] == p;
    a, b := qs[..j], qs[j + 1..];
    assert ps == front + [p] && qs == a + ([p] + b);
    CancelOne(front, p, a, b);
  }

  lemma {:induction false} CancelOne<X>(front: seq<X>, p: X, a: seq<X>, b: seq<X>)
    requires multiset(front + [p]) == multiset(a + ([p] + b))
    ensures multiset(front) == multiset(a + b)
  {
    var left, right := multiset(front), multiset(a + b);
    assert left + multiset{p} == right + multiset{p};
    assert left == (left + multiset{p}) - multiset{p};
  }

  lemma {:induction false} DropLast<X>(a: seq<X>, b: seq<X>)
    requires b != []
    ensures (a + b)[..|a + b| - 1] == a + b[..|b| - 1] && (a + b)[|a + b| - 1] == b[|b| - 1]
  {
  }

  lemma {:induction false} MovedMiddle<X>(front: seq<X>, p: seq<X>, left: seq<X>, right: seq<X>)
    requires multiset(front) == multiset(left + right)
    ensures multiset(front + p) == multiset(left + (p + right))
  {
  }

  lemma {:induction false} AppendAssociative<X>(a: seq<X>, b: seq<X>, c: seq<X>)
    ensures a + b + c == a + (b + c)
  {
  }

  predicate NoRepeats<X(==)>(s: seq<X>) {
    forall i, j :: 0 <= i < j < |s| ==> s[i] != s[j]
  }

  lemma {:induction false} RepeatIffTwice<X>(s: seq<X>)
    ensures NoRepeats(s) <==> forall x :: multiset(s)[x] <= 1
  {
    if s != [] {
      var front, last := s[..|s| - 1], s[|s| - 1];
      RepeatIffTwice(front);
      assert s == front + [last];
      assert forall i :: 0 <= i < |front| ==> s[i] == front[i];
      if forall x :: multiset(s)[x] <= 1 {
        forall x ensures multiset(front)[x] <= 1 { assert multiset(s)[x] == multiset(front)[x] + multiset{last}[x]; }
        assert multiset(s)[last] == multiset(front)[last] + 1;
        assert last !in front;
      }
      if NoRepeats(s) {
        assert last !in front;
        assert multiset(front)[last] == 0;
      }
    }
  }
}
