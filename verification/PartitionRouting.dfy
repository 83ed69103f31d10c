/** Hash routing over weighted partitions.

    Partition i owns the slice [bounds[i-1], bounds[i]) of `hash % total`, where
    the bounds are the running sums of the reduced weights. */
module PartitionRouting {
  import opened Weights
  import opened Sorting

  datatype PartitionWeights = PartitionWeights(weights: seq<nat>, bounds: seq<nat>)

  /** How a rule routes: shards in partition order, reduced weights. */
  datatype Routing = Routing(shards: seq<string>, weights: seq<nat>)

  function Sum(ws: seq<nat>): nat {
    if ws == [] then 0 else ws[0] + Sum(ws[1..])
  }

  function RunningSums(acc: nat, ws: seq<nat>): (b: seq<nat>)
    ensures |b| == |ws|
    decreases |ws|
  {
    if ws == [] then [] else [acc + ws[0]] + RunningSums(acc + ws[0], ws[1..])
  }

  /** The source asserts that there are weights and that they are positive. */
  function New(ws: seq<nat>): (pw: PartitionWeights)
    requires ws != [] && Positive(ws)
    ensures IsBounds(pw.bounds) && |pw.bounds| == |ws|
    ensures forall i :: 0 <= i < |ws| ==> Share(pw, i) == (Reduced(ws)[i], Sum(Reduced(ws)))
  {
    var bounds := RunningSums(0, Reduced(ws));
    ReducedIsExact(ws);
    RunningSumsAre(0, Reduced(ws));
    assert Reduced(ws)[..|ws|] == Reduced(ws);
    PartitionWeights(ws, bounds)
  }

  predicate IsBounds(b: seq<nat>) {
    && b != [] && b[0] > 0
    && forall i, j :: 0 <= i < j < |b| ==> b[i] < b[j]
  }

  function Low(b: seq<nat>, i: nat): nat
    requires i <= |b|
  {
    if i == 0 then 0 else b[i - 1]
  }

  function Total(b: seq<nat>): nat
    requires b != []
  {
    b[|b| - 1]
  }

  function Share(pw: PartitionWeights, i: nat): (nat, nat)
    requires i < |pw.bounds| && IsBounds(pw.bounds)
  {
    (pw.bounds[i] - Low(pw.bounds, i), Total(pw.bounds))
  }

  predicate IsUniform(pw: PartitionWeights) {
    forall i :: 0 <= i < |pw.weights| - 1 ==> pw.weights[i] == pw.weights[i + 1]
  }

  /** Index of the first bound above the point. */
  function PartitionPoint(b: seq<nat>, point: nat): nat {
    if b == [] || point < b[0] then 0 else 1 + PartitionPoint(b[1..], point)
  }

  function Slot(b: seq<nat>, hash: nat): nat
    requires IsBounds(b)
  {
    PartitionPoint(b, hash % Total(b))
  }

  lemma {:induction false} RunningSumsAre(acc: nat, ws: seq<nat>)
    requires Positive(ws)
    ensures forall i :: 0 <= i < |ws| ==> RunningSums(acc, ws)[i] == acc + Sum(ws[..i + 1])
    ensures ws != [] ==> RunningSums(acc, ws)[0] > acc
    ensures forall i, j :: 0 <= i < j < |ws| ==> RunningSums(acc, ws)[i] < RunningSums(acc, ws)[j]
    ensures forall i :: 0 < i < |ws| ==> RunningSums(acc, ws)[i] == RunningSums(acc, ws)[i - 1] + ws[i]
    decreases |ws|
  {
    if ws != [] {
      var b, rest := RunningSums(acc, ws), RunningSums(acc + ws[0], ws[1..]);
      RunningSumsAre(acc + ws[0], ws[1..]);
      forall i | 0 <= i < |ws| ensures b[i] == acc + Sum(ws[..i + 1]) {
        assert ws[..i + 1][1..] == ws[1..][..i];
      }
      assert forall i :: 0 < i < |ws| ==> b[i] == rest[i - 1];
    }
  }

  lemma {:induction false} PartitionPointIs(b: seq<nat>, point: nat, floor: nat)
    requires b != [] && floor <= point < b[|b| - 1] && floor < b[0]
    requires forall i, j :: 0 <= i < j < |b| ==> b[i] < b[j]
    ensures var k := PartitionPoint(b, point);
            k < |b| && point < b[k] && (k > 0 ==> b[k - 1] <= point)
  {
    if b[0] <= point { PartitionPointIs(b[1..], point, b[0]); }
  }

  /** A hash belongs to the partition whose slice holds it, and to no other. */
  lemma {:induction false} SlotIff(b: seq<nat>, hash: nat, i: nat)
    requires IsBounds(b) && i < |b|
    ensures Slot(b, hash) < |b|
    ensures Slot(b, hash) == i <==> Low(b, i) <= hash % Total(b) < b[i]
  {
    PartitionPointIs(b, hash % Total(b), 0);
  }

  lemma {:induction false} SlotSmall(b: seq<nat>, hash: nat, i: nat)
    requires IsBounds(b) && i < |b| && Low(b, i) <= hash < b[i]
    ensures Slot(b, hash) == i
  {
    assert hash % Total(b) == hash by { assert hash < Total(b); DivModUnique(hash, Total(b), 0, hash); }
    SlotIff(b, hash, i);
  }

  lemma {:induction false} SlotWraps(b: seq<nat>)
    requires IsBounds(b)
    ensures Slot(b, Total(b)) == 0
  {
    DivModUnique(Total(b), Total(b), 1, 0);
    SlotIff(b, Total(b), 0);
  }

  // ---- interchangeable routings ----

  /** Every 64-bit hash reaches the same label. */
  ghost predicate Agree<T(!new)>(s: seq<T>, b: seq<nat>, t: seq<T>, c: seq<nat>)
    requires IsBounds(b) && IsBounds(c) && |s| == |b| && |t| == |c|
  {
    forall h: nat :: h < HASH_POINTS ==> LabelOf(s, b, h) == LabelOf(t, c, h)
  }

  function LabelOf<T>(s: seq<T>, b: seq<nat>, h: nat): T
    requires IsBounds(b) && |s| == |b|
  {
    SlotIff(b, h, 0);
    s[Slot(b, h)]
  }

  ghost predicate Labelled<T>(s: seq<T>, b: seq<nat>) {
    IsBounds(b) && |s| == |b| && NoRepeats(s) && Total(b) < HASH_POINTS
  }

  /** The first k slices of both are the same slices with the same labels. */
  ghost predicate SameSlices<T>(s: seq<T>, b: seq<nat>, t: seq<T>, c: seq<nat>, k: nat) {
    k <= |s| && k <= |t| && k <= |b| && k <= |c| && s[..k] == t[..k] && b[..k] == c[..k]
  }

  /** A label on one side is always answered by its namesake on the other. */
  lemma {:induction false} LabelAt<T(!new)>(s: seq<T>, b: seq<nat>, t: seq<T>, c: seq<nat>, h: nat, i: nat, j: nat)
    requires Labelled(s, b) && Labelled(t, c) && Agree(s, b, t, c)
    requires h < HASH_POINTS && i < |s| && j < |t| && Slot(b, h) == i && Slot(c, h) == j
    ensures s[i] == t[j]
  {
    assert LabelOf(s, b, h) == LabelOf(t, c, h);
  }

  lemma {:induction false} SliceNotShorter<T(!new)>(s: seq<T>, b: seq<nat>, t: seq<T>, c: seq<nat>, k: nat)
    requires Labelled(s, b) && Labelled(t, c) && Agree(s, b, t, c)
    requires k < |s| && k < |t| && SameSlices(s, b, t, c, k) && s[k] == t[k]
    requires k == 0 && |s| == 1 ==> b[0] == 1
    requires k == 0 && |t| == 1 ==> c[0] == 1
    ensures b[k] >= c[k]
  {
    assert k > 0 ==> b[k - 1] == b[..k][k - 1] == c[..k][k - 1] == c[k - 1];
    if b[k] < c[k] {
      SlotSmall(c, b[k], k);
      if k + 1 < |s| {
        SlotSmall(b, b[k], k + 1);
        LabelAt(s, b, t, c, b[k], k + 1, k);
      } else if k > 0 {
        SlotWraps(b);
        LabelAt(s, b, t, c, b[k], 0, k);
      } else {
        SlotSmall(c, c[0], 1);
        OneSlot(b, c[0]);
        LabelAt(s, b, t, c, c[0], 0, 1);
      }
      assert false;
    }
  }

  lemma {:induction false} OneSlot(b: seq<nat>, h: nat)
    requires IsBounds(b) && |b| == 1
    ensures Slot(b, h) == 0
  {
    SlotIff(b, h, 0);
  }

  lemma {:induction false} AgreeSymmetric<T(!new)>(s: seq<T>, b: seq<nat>, t: seq<T>, c: seq<nat>)
    requires Labelled(s, b) && Labelled(t, c) && Agree(s, b, t, c)
    ensures Agree(t, c, s, b)
  {
    forall h: nat | h < HASH_POINTS ensures LabelOf(t, c, h) == LabelOf(s, b, h) {
      assert LabelOf(s, b, h) == LabelOf(t, c, h);
    }
  }

  lemma {:induction false} SlicesAgree<T(!new)>(s: seq<T>, b: seq<nat>, t: seq<T>, c: seq<nat>, k: nat)
    requires Labelled(s, b) && Labelled(t, c) && Agree(s, b, t, c)
    requires |s| == 1 ==> b[0] == 1
    requires |t| == 1 ==> c[0] == 1
    requires k <= |s| && k <= |t|
    ensures SameSlices(s, b, t, c, k)
  {
    if k > 0 {
      var i := k - 1;
      SlicesAgree(s, b, t, c, i);
      assert i > 0 ==> b[i - 1] == b[..i][i - 1] == c[..i][i - 1] == c[i - 1];
      SlotSmall(b, Low(b, i), i);
      SlotSmall(c, Low(b, i), i);
      LabelAt(s, b, t, c, Low(b, i), i, i);
      SliceNotShorter(s, b, t, c, i);
      AgreeSymmetric(s, b, t, c);
      SliceNotShorter(t, c, s, b, i);
      assert s[..k] == s[..i] + [s[i]] && t[..k] == t[..i] + [t[i]];
      assert b[..k] == b[..i] + [b[i]] && c[..k] == c[..i] + [c[i]];
    }
  }

  lemma {:induction false} SameLength<T(!new)>(s: seq<T>, b: seq<nat>, t: seq<T>, c: seq<nat>)
    requires Labelled(s, b) && Labelled(t, c) && Agree(s, b, t, c)
    requires SameSlices(s, b, t, c, |s|)
    ensures |s| == |t|
  {
    if |s| < |t| {
      var k := |s|;
      assert b[k - 1] == c[..k][k - 1] == c[k - 1];
      SlotWraps(b);
      SlotSmall(c, Total(b), k);
      LabelAt(s, b, t, c, Total(b), 0, k);
      assert false;
    }
  }

  /** Two labelled slicings that agree on every 64-bit hash are the same. */
  lemma {:induction false} AgreeImpliesSame<T(!new)>(s: seq<T>, b: seq<nat>, t: seq<T>, c: seq<nat>)
    requires Labelled(s, b) && Labelled(t, c) && Agree(s, b, t, c)
    requires |s| == 1 ==> b[0] == 1
    requires |t| == 1 ==> c[0] == 1
    ensures s == t && b == c
  {
    AgreeSymmetric(s, b, t, c);
    if |s| <= |t| {
      SlicesAgree(s, b, t, c, |s|);
      SameLength(s, b, t, c);
    } else {
      SlicesAgree(t, c, s, b, |t|);
      SameLength(t, c, s, b);
    }
    assert s[..|s|] == s && t[..|s|] == t && b[..|s|] == b && c[..|s|] == c;
  }

  /** Sum of the reduced weights never exceeds the sum of the weights. */
  lemma {:induction false} SumReduced(ws: seq<nat>, g: nat)
    requires g > 0
    ensures Sum(ws) <= Sum(Scale(g, ws))
  {
    if ws != [] {
      assert Scale(g, ws)[1..] == Scale(g, ws[1..]);
      SumReduced(ws[1..], g);
      assert g * ws[0] >= ws[0];
    }
  }

  lemma {:induction false} NewIsLabelled<T>(s: seq<T>, w: seq<nat>)
    requires w != [] && Positive(w) && |s| == |w| && NoRepeats(s) && Sum(w) < HASH_POINTS
    ensures Labelled(s, New(w).bounds)
    ensures |s| == 1 ==> New(w).bounds[0] == 1
  {
    ReducedIsExact(w);
    SumReduced(Reduced(w), GcdFold(0, w));
    assert Share(New(w), 0) == (Reduced(w)[0], Sum(Reduced(w)));
    if |s| == 1 { assert GcdFold(0, Reduced(w)) == Gcd(0, Reduced(w)[0]) == Reduced(w)[0]; }
  }

  lemma {:induction false} BoundsDetermineReduced(w: seq<nat>, v: seq<nat>)
    requires w != [] && Positive(w) && v != [] && Positive(v)
    ensures New(w).bounds == New(v).bounds <==> Reduced(w) == Reduced(v)
  {
    if New(w).bounds == New(v).bounds {
      forall i | 0 <= i < |w| ensures Reduced(w)[i] == Reduced(v)[i] {
        assert Share(New(w), i) == Share(New(v), i);
      }
    }
  }

  /** Interchangeable on every key exactly when equal: the same shards in the
      same order with the same reduced weights. */
  lemma {:induction false} InterchangeableIffEqual<T(!new)>(s: seq<T>, w: seq<nat>, t: seq<T>, v: seq<nat>)
    requires w != [] && Positive(w) && |s| == |w| && NoRepeats(s) && Sum(w) < HASH_POINTS
    requires v != [] && Positive(v) && |t| == |v| && NoRepeats(t) && Sum(v) < HASH_POINTS
    ensures Agree(s, New(w).bounds, t, New(v).bounds) <==> s == t && Reduced(w) == Reduced(v)
  {
    NewIsLabelled(s, w);
    NewIsLabelled(t, v);
    BoundsDetermineReduced(w, v);
    if Agree(s, New(w).bounds, t, New(v).bounds) {
      AgreeImpliesSame(s, New(w).bounds, t, New(v).bounds);
    }
  }

  lemma {:induction false} RoutingsInterchangeable(s: seq<string>, w: seq<nat>, t: seq<string>, v: seq<nat>)
    requires w != [] && Positive(w) && |s| == |w| && NoRepeats(s) && Sum(w) < HASH_POINTS
    requires v != [] && Positive(v) && |t| == |v| && NoRepeats(t) && Sum(v) < HASH_POINTS
    ensures Routing(s, Reduced(w)) == Routing(t, Reduced(v))
       <==> forall h: nat :: h < HASH_POINTS ==> LabelOf(s, New(w).bounds, h) == LabelOf(t, New(v).bounds, h)
  {
    InterchangeableIffEqual(s, w, t, v);
  }

  // ---- equal weights, and the share of rows ----

  function Numbers(n: nat): (r: seq<nat>)
    ensures |r| == n && forall i :: 0 <= i < n ==> r[i] == i
  {
    seq(n, i => i)
  }

  function Ones(n: nat): (r: seq<nat>)
    ensures |r| == n && forall i :: 0 <= i < n ==> r[i] == 1
  {
    seq(n, _ => 1)
  }

  lemma {:induction false} OnesReduced(n: nat)
    requires n > 0
    ensures Reduced(Ones(n)) == Ones(n)
  {
    ReducedIsExact(Ones(n));
    var g := GcdFold(0, Ones(n));
    assert g * Reduced(Ones(n))[0] == 1;
    assert g == 1;
  }

  lemma {:induction false} OnesRouteModulo(n: nat)
    requires n > 0
    ensures RoutesModulo(New(Ones(n)).bounds)
  {
    OnesReduced(n);
    RunningSumsAre(0, Ones(n));
    var b := New(Ones(n)).bounds;
    forall i | 0 <= i < n ensures b[i] == i + 1 {
      SumOnes(i + 1);
      assert Ones(n)[..i + 1] == Ones(i + 1);
    }
    CountingRoutesModulo(b);
  }

  lemma {:induction false} CountingRoutesModulo(b: seq<nat>)
    requires IsBounds(b) && forall i :: 0 <= i < |b| ==> b[i] == i + 1
    ensures RoutesModulo(b)
  {
    forall h: nat ensures Slot(b, h) == h % |b| {
      SlotIff(b, h, h % |b|);
    }
  }

  lemma {:induction false} SumOnes(n: nat)
    ensures Sum(Ones(n)) == n
  {
    if n > 0 {
      assert Ones(n)[1..] == Ones(n - 1);
      SumOnes(n - 1);
    }
  }

  lemma {:induction false} UniformAt(pw: PartitionWeights, i: nat)
    requires i < |pw.weights| && IsUniform(pw)
    ensures pw.weights[i] == pw.weights[0]
  {
    if i > 0 { UniformAt(pw, i - 1); }
  }

  lemma {:induction false} UniformIffReducesToOnes(w: seq<nat>)
    requires w != [] && Positive(w)
    ensures IsUniform(New(w)) <==> Reduced(w) == Reduced(Ones(|w|))
  {
    OnesReduced(|w|);
    if IsUniform(New(w)) {
      forall i | 0 <= i < |w| ensures w[i] == w[0] { UniformAt(New(w), i); }
      assert w == Scale(w[0], Ones(|w|));
      ReducedScale(w[0], Ones(|w|));
    }
    if Reduced(w) == Reduced(Ones(|w|)) {
      ReducedIsExact(w);
      assert forall i :: 0 <= i < |w| ==> w[i] == GcdFold(0, w) * 1;
    }
  }

  /** The unweighted routing. */
  ghost predicate RoutesModulo(b: seq<nat>)
    requires IsBounds(b)
  {
    forall h: nat :: h < HASH_POINTS ==> Slot(b, h) == h % |b|
  }

  lemma {:induction false} ModuloIffLikeOnes(b: seq<nat>, c: seq<nat>)
    requires IsBounds(b) && IsBounds(c) && |b| == |c| && RoutesModulo(c)
    ensures Agree(Numbers(|b|), b, Numbers(|b|), c) <==> RoutesModulo(b)
  {
    forall h: nat
      ensures LabelOf(Numbers(|b|), b, h) == Slot(b, h) && LabelOf(Numbers(|b|), c, h) == Slot(c, h)
    {
      SlotIff(b, h, 0);
      SlotIff(c, h, 0);
    }
  }

  /** Equal weights are the unweighted `hash % n` routing, and only they are. */
  lemma {:induction false} UniformIffModulo(w: seq<nat>)
    requires w != [] && Positive(w) && Sum(w) < HASH_POINTS
    ensures IsUniform(New(w)) <==> RoutesModulo(New(w).bounds)
  {
    var labels, ones := Numbers(|w|), Ones(|w|);
    SumAtLeastLength(w);
    SumOnes(|w|);
    UniformIffReducesToOnes(w);
    InterchangeableIffEqual(labels, w, labels, ones);
    OnesRouteModulo(|w|);
    ModuloIffLikeOnes(New(w).bounds, New(ones).bounds);
  }

  lemma {:induction false} SumAtLeastLength(w: seq<nat>)
    requires Positive(w)
    ensures Sum(w) >= |w|
  {
    if w != [] { SumAtLeastLength(w[1..]); }
  }

  function Interval(lo: nat, hi: nat): (r: set<nat>)
    ensures forall h :: h in r <==> lo <= h < hi
    ensures lo <= hi ==> |r| == hi - lo
  {
    if lo >= hi then {} else Interval(lo, hi - 1) + {hi - 1}
  }

  lemma {:induction false} SlotInPeriod(b: seq<nat>, i: nat, period: nat, start: nat, h: nat)
    requires IsBounds(b) && i < |b| && start == period * Total(b)
    ensures start <= h < start + Total(b) && Slot(b, h) == i
       <==> start + Low(b, i) <= h < start + b[i]
  {
    if start <= h < start + Total(b) {
      DivModUnique(h, Total(b), period, h - start);
      SlotIff(b, h, i);
    }
  }

  function OwnedIn(b: seq<nat>, i: nat, lo: nat, hi: nat): set<nat>
    requires IsBounds(b)
  {
    set h | h in Interval(lo, hi) && Slot(b, h) == i
  }

  lemma {:induction false} OwnedPerPeriod(b: seq<nat>, i: nat, period: nat, start: nat)
    requires IsBounds(b) && i < |b| && start == period * Total(b)
    ensures |OwnedIn(b, i, start, start + Total(b))| == b[i] - Low(b, i)
  {
    var owned, slice := OwnedIn(b, i, start, start + Total(b)), Interval(start + Low(b, i), start + b[i]);
    forall h ensures h in owned <==> h in slice {
      if h >= 0 { SlotInPeriod(b, i, period, start, h); }
    }
    assert owned == slice;
  }

  /** Of each period of hash points, partition i receives exactly its share:
      its reduced weight out of the sum of the reduced weights. */
  lemma {:induction false} SharePerPeriod(w: seq<nat>, i: nat, period: nat, start: nat)
    requires w != [] && Positive(w) && i < |w| && start == period * Sum(Reduced(w))
    ensures |OwnedIn(New(w).bounds, i, start, start + Sum(Reduced(w)))| == Reduced(w)[i]
  {
    assert Share(New(w), i) == (Reduced(w)[i], Sum(Reduced(w)));
    OwnedPerPeriod(New(w).bounds, i, period, start);
  }

  // ---- the pinned key hash ----

  const FNV_OFFSET: nat := 0xcbf2_9ce4_8422_2325
  const FNV_PRIME: nat := 0x0100_0000_01b3

  /** One FNV-1a step on a 64-bit state: the byte is xored into the low byte,
      then the state is multiplied modulo 2^64. */
  function Mix(hash: nat, byte: bv8): (r: nat)
    ensures r < HASH_POINTS
  {
    var low := ((hash % 256) as bv8 ^ byte) as nat;
    (hash - hash % 256 + low) * FNV_PRIME % HASH_POINTS
  }

  function Fnv(bytes: seq<bv8>): (r: nat)
    ensures r < HASH_POINTS
  {
    if bytes == [] then FNV_OFFSET
    else Mix(Fnv(bytes[..|bytes| - 1]), bytes[|bytes| - 1])
  }

  method Fnv1a64(bytes: seq<bv8>) returns (hash: nat)
    ensures hash == Fnv(bytes)
  {
    hash := FNV_OFFSET;
    for i := 0 to |bytes|
      invariant hash == Fnv(bytes[..i])
    {
      assert bytes[..i + 1][..i] == bytes[..i];
      hash := Mix(hash, bytes[i]);
    }
    assert bytes[..|bytes|] == bytes;
  }

  /** Partition of a primary key. */
  function PartitionOf(pw: PartitionWeights, key: seq<bv8>): nat
    requires IsBounds(pw.bounds)
  {
    Slot(pw.bounds, Fnv(key))
  }
}
