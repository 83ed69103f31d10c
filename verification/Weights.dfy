/** Partition weights: sums, and reduction by the greatest common divisor. */
module Weights {

  const HASH_POINTS: nat := 0x1_0000_0000_0000_0000

  // ---- greatest common divisor ----

  function Gcd(a: nat, b: nat): nat
    decreases b
  {
    if b == 0 then a else Gcd(b, a % b)
  }

  function GcdFold(acc: nat, ws: seq<nat>): nat
    decreases |ws|
  {
    if ws == [] then acc else GcdFold(Gcd(acc, ws[0]), ws[1..])
  }

  function Scale(c: nat, ws: seq<nat>): (r: seq<nat>)
    ensures |r| == |ws| && forall i :: 0 <= i < |ws| ==> r[i] == c * ws[i]
  {
    seq(|ws|, i requires 0 <= i < |ws| => c * ws[i])
  }

  /** Weights divided by their greatest common divisor. */
  function Reduced(ws: seq<nat>): (r: seq<nat>)
    ensures |r| == |ws|
  {
    var divisor := GcdFold(0, ws);
    if divisor == 0 then ws
    else seq(|ws|, i requires 0 <= i < |ws| => Quotient(ws[i], divisor))
  }

  function Quotient(a: nat, d: nat): nat
    requires d > 0
  {
    a / d
  }

  predicate Positive(ws: seq<nat>) {
    forall i :: 0 <= i < |ws| ==> ws[i] > 0
  }

  ghost predicate Divides(d: nat, a: nat) {
    exists q: nat :: d * q == a
  }

  lemma {:induction false} DividesCombination(d: nat, a: nat, b: nat, k: nat)
    requires Divides(d, a) && Divides(d, b)
    ensures Divides(d, k * a + b)
  {
    var p: nat :| d * p == a;
    var q: nat :| d * q == b;
    assert d * (k * p + q) == k * (d * p) + d * q;
  }

  lemma {:induction false} GcdPositive(a: nat, b: nat)
    requires a > 0 || b > 0
    ensures Gcd(a, b) > 0
    decreases b
  {
    if b > 0 { GcdPositive(b, a % b); }
  }

  lemma {:induction false} GcdDivides(a: nat, b: nat)
    ensures Divides(Gcd(a, b), a) && Divides(Gcd(a, b), b)
    decreases b
  {
    if b == 0 {
      assert a * 1 == a && a * 0 == 0;
    } else {
      GcdDivides(b, a % b);
      DividesViaRemainder(Gcd(a, b), a, b);
    }
  }

  lemma {:induction false} DividesViaRemainder(d: nat, a: nat, b: nat)
    requires b > 0 && Divides(d, b) && Divides(d, a % b)
    ensures Divides(d, a)
  {
    DividesCombination(d, b, a % b, a / b);
    assert a == (a / b) * b + a % b;
  }

  lemma {:induction false} GcdScale(c: nat, a: nat, b: nat)
    requires c > 0
    ensures Gcd(c * a, c * b) == c * Gcd(a, b)
    decreases b
  {
    if b > 0 {
      ModScale(c, a, b);
      GcdScale(c, b, a % b);
    }
  }

  lemma {:induction false} ModScale(c: nat, a: nat, b: nat)
    requires c > 0 && b > 0
    ensures c * b > 0 && (c * a) % (c * b) == c * (a % b)
  {
    var q, r := a / b, a % b;
    assert c * a == q * (c * b) + c * r by { assert a == q * b + r; }
    assert c * r < c * b;
    DivModUnique(c * a, c * b, q, c * r);
  }

  lemma {:induction false} DivModUnique(x: nat, d: nat, q: nat, r: nat)
    requires r < d && x == q * d + r
    ensures x / d == q && x % d == r
  {
    var q' := x / d;
    assert x == q' * d + x % d;
    if q' < q { MulGap(q', q, d); } else if q < q' { MulGap(q, q', d); }
  }

  lemma {:induction false} MulGap(a: nat, b: nat, d: nat)
    requires a < b
    ensures b * d >= a * d + d
  {
    assert b * d == a * d + (b - a) * d;
    assert (b - a) * d == d + (b - a - 1) * d;
  }

  lemma {:induction false} GcdFoldDivides(acc: nat, ws: seq<nat>)
    ensures Divides(GcdFold(acc, ws), acc)
    ensures forall i :: 0 <= i < |ws| ==> Divides(GcdFold(acc, ws), ws[i])
    ensures acc > 0 || (ws != [] && Positive(ws)) ==> GcdFold(acc, ws) > 0
    decreases |ws|
  {
    if ws == [] {
      assert acc * 1 == acc;
    } else {
      GcdDivides(acc, ws[0]);
      if acc > 0 || ws[0] > 0 { GcdPositive(acc, ws[0]); }
      GcdFoldDivides(Gcd(acc, ws[0]), ws[1..]);
      DividesTransitive(GcdFold(acc, ws), Gcd(acc, ws[0]), acc);
      DividesTransitive(GcdFold(acc, ws), Gcd(acc, ws[0]), ws[0]);
      assert forall i :: 0 < i < |ws| ==> ws[i] == ws[1..][i - 1];
    }
  }

  lemma {:induction false} DividesTransitive(a: nat, b: nat, c: nat)
    requires Divides(a, b) && Divides(b, c)
    ensures Divides(a, c)
  {
    var p: nat :| a * p == b;
    var q: nat :| b * q == c;
    assert a * (p * q) == (a * p) * q;
  }

  lemma {:induction false} GcdFoldScale(c: nat, acc: nat, ws: seq<nat>)
    requires c > 0
    ensures GcdFold(c * acc, Scale(c, ws)) == c * GcdFold(acc, ws)
    decreases |ws|
  {
    if ws != [] {
      GcdScale(c, acc, ws[0]);
      assert Scale(c, ws)[1..] == Scale(c, ws[1..]);
      GcdFoldScale(c, Gcd(acc, ws[0]), ws[1..]);
    }
  }

  // ---- reduction ----

  /** The divisor is the greatest: every common divisor divides it, the
      division is exact, and what is left has no common divisor. */
  lemma {:induction false} ReducedIsExact(ws: seq<nat>)
    requires ws != [] && Positive(ws)
    ensures var g := GcdFold(0, ws);
            && g > 0 && ws == Scale(g, Reduced(ws))
            && (forall d: nat :: (forall i :: 0 <= i < |ws| ==> Divides(d, ws[i])) ==> Divides(d, g))
    ensures Positive(Reduced(ws)) && GcdFold(0, Reduced(ws)) == 1
  {
    var g := GcdFold(0, ws);
    var r := Reduced(ws);
    GcdFoldDivides(0, ws);
    forall i | 0 <= i < |ws| ensures ws[i] == g * r[i] && r[i] > 0 {
      var q: nat :| g * q == ws[i];
      DivModUnique(ws[i], g, q, 0);
    }
    assert ws == Scale(g, r);
    GcdFoldScale(g, 0, r);
    assert g * GcdFold(0, r) == g * 1;
    CancelFactor(g, GcdFold(0, r), 1);
    forall d: nat | forall i :: 0 <= i < |ws| ==> Divides(d, ws[i]) ensures Divides(d, g) {
      CommonDivisorDivides(d, ws);
    }
  }

  lemma {:induction false} CancelFactor(g: nat, a: nat, b: nat)
    requires g > 0 && g * a == g * b
    ensures a == b
  {
    if a < b { MulGap(a, b, g); } else if b < a { MulGap(b, a, g); }
  }

  lemma {:induction false} CommonDivisorDivides(d: nat, ws: seq<nat>)
    requires ws != [] && Positive(ws) && forall i :: 0 <= i < |ws| ==> Divides(d, ws[i])
    ensures Divides(d, GcdFold(0, ws))
  {
    assert Divides(d, ws[0]);
    assert d > 0;
    var qs := seq(|ws|, i requires 0 <= i < |ws| => Quotient(ws[i], d));
    forall i | 0 <= i < |ws| ensures d * qs[i] == ws[i] {
      var q: nat :| d * q == ws[i];
      DivModUnique(ws[i], d, q, 0);
    }
    assert ws == Scale(d, qs);
    GcdFoldScale(d, 0, qs);
  }

  lemma {:induction false} QuotientScale(c: nat, g: nat, q: nat)
    requires c > 0 && g > 0
    ensures c * g > 0 && (c * (g * q)) / (c * g) == q
  {
    assert c * (g * q) == q * (c * g) + 0;
    DivModUnique(c * (g * q), c * g, q, 0);
  }

  /** Only the ratio matters. */
  lemma {:induction false} ReducedScale(c: nat, ws: seq<nat>)
    requires c > 0 && ws != [] && Positive(ws)
    ensures Reduced(Scale(c, ws)) == Reduced(ws)
  {
    var g := GcdFold(0, ws);
    GcdFoldScale(c, 0, ws);
    ReducedIsExact(ws);
    assert c * g > 0;
    var r, s := Reduced(ws), Scale(c, ws);
    forall i | 0 <= i < |ws| ensures Reduced(s)[i] == r[i] {
      QuotientScale(c, g, r[i]);
      assert s[i] == c * (g * r[i]);
    }
  }

  lemma {:induction false} ReducedIdempotent(ws: seq<nat>)
    requires ws != [] && Positive(ws)
    ensures Reduced(Reduced(ws)) == Reduced(ws)
  {
    ReducedIsExact(ws);
    ReducedScale(GcdFold(0, ws), Reduced(ws));
  }

  /** Two lists reduce alike exactly when all their ratios agree. */
  lemma {:induction false} ReducedEqualIffProportional(w: seq<nat>, v: seq<nat>)
    requires |w| == |v| > 0 && Positive(w) && Positive(v)
    ensures Reduced(w) == Reduced(v)
       <==> forall i, j :: 0 <= i < |w| && 0 <= j < |w| ==> w[i] * v[j] == w[j] * v[i]
  {
    if Reduced(w) == Reduced(v) {
      ReducedIsExact(w);
      ReducedIsExact(v);
      ScaledAreProportional(GcdFold(0, w), GcdFold(0, v), Reduced(w));
    }
    if forall i, j :: 0 <= i < |w| && 0 <= j < |w| ==> w[i] * v[j] == w[j] * v[i] {
      assert Scale(v[0], w) == Scale(w[0], v);
      ReducedScale(v[0], w);
      ReducedScale(w[0], v);
    }
  }

  lemma {:induction false} ScaledAreProportional(g: nat, h: nat, r: seq<nat>)
    ensures forall i, j :: 0 <= i < |r| && 0 <= j < |r| ==>
              Scale(g, r)[i] * Scale(h, r)[j] == Scale(g, r)[j] * Scale(h, r)[i]
  {
    forall i, j | 0 <= i < |r| && 0 <= j < |r|
      ensures Scale(g, r)[i] * Scale(h, r)[j] == Scale(g, r)[j] * Scale(h, r)[i]
    {
      Regroup(g, r[i], h, r[j]);
    }
  }

  lemma {:induction false} Regroup(g: nat, a: nat, h: nat, b: nat)
    ensures (g * a) * (h * b) == (g * b) * (h * a)
  {
    assert (g * a) * (h * b) == (g * h) * (a * b);
    assert (g * b) * (h * a) == (g * h) * (b * a);
  }
}
