/** Index-name globs: `*` stands for any run of characters.

    The broker matches a rule's pattern with an iterative matcher that only
    ever backtracks to the last `*`. `Matches` says what a pattern means; `Walk`
    is what the loop computes from any of its states. */
module Glob {

  /** The last `*` seen: the pattern position after it, and how much of the
      name it has swallowed up to. */
  datatype LastStar = NoStar | Star(after: nat, swallowed: nat)

  /** Meaning of a pattern. */
  ghost predicate Matches(p: string, n: string) {
    if p == [] then n == []
    else if p[0] == '*' then exists k :: 0 <= k <= |n| && Matches(p[1..], n[k..])
    else n != [] && p[0] == n[0] && Matches(p[1..], n[1..])
  }

  predicate AllStars(p: string) {
    forall i :: 0 <= i < |p| ==> p[i] == '*'
  }

  predicate StarFree(s: string) {
    '*' !in s
  }

  predicate InWalk(p: string, n: string, pi: nat, ni: nat, star: LastStar) {
    && pi <= |p| && ni <= |n|
    && (star.Star? ==> star.after <= pi && star.swallowed <= ni)
  }

  /** Result of the matcher's loop from the state (pi, ni, star). */
  predicate Walk(p: string, n: string, pi: nat, ni: nat, star: LastStar)
    requires InWalk(p, n, pi, ni, star)
    decreases if star.Star? then |n| - star.swallowed else |n| + 1, |n| - ni + |p| - pi
  {
    if ni == |n| then AllStars(p[pi..])
    else if pi < |p| && p[pi] == n[ni] then Walk(p, n, pi + 1, ni + 1, star)
    else if pi < |p| && p[pi] == '*' then Walk(p, n, pi + 1, ni, Star(pi + 1, ni))
    else if star.Star? then
      Walk(p, n, star.after, star.swallowed + 1, Star(star.after, star.swallowed + 1))
    else false
  }

  predicate Globs(p: string, n: string) {
    Walk(p, n, 0, 0, NoStar)
  }

  /** The loop takes fewer than (|p| + 1) * (|n| + 1) steps: every character
      the last star swallows buys one more pass over the pattern. */
  method GlobMatch(p: string, n: string) returns (r: bool, ghost steps: nat)
    ensures r == Globs(p, n)
    ensures steps < (|p| + 1) * (|n| + 1)
  {
    var pi: nat, ni: nat := 0, 0;
    var star := NoStar;
    steps := 0;
    while ni < |n|
      invariant InWalk(p, n, pi, ni, star)
      invariant Walk(p, n, pi, ni, star) == Globs(p, n)
      invariant steps <= Passes(Swallowed(star), |p| + 1) + pi && Swallowed(star) <= ni
      decreases if star.Star? then |n| - star.swallowed else |n| + 1, |n| - ni + |p| - pi
    {
      if pi < |p| && p[pi] == n[ni] {
        pi := pi + 1;
        ni := ni + 1;
      } else if pi < |p| && p[pi] == '*' {
        PassesGrow(Swallowed(star), ni, |p| + 1);
        star := Star(pi + 1, ni);
        pi := pi + 1;
      } else if star.Star? {
        pi := star.after;
        ni := star.swallowed + 1;
        star := Star(star.after, star.swallowed + 1);
      } else {
        r := false;
        steps := steps + 1;
        PassesGrow(1, |n|, |p| + 1);
        return;
      }
      steps := steps + 1;
    }
    PassesGrow(Swallowed(star), |n|, |p| + 1);
    assert steps <= |n| * (|p| + 1) + pi;
    ghost var rest, spent := p[pi..], steps - pi;
    while pi < |p| && p[pi] == '*'
      invariant pi <= |p| && steps == spent + pi
      invariant AllStars(p[pi..]) == AllStars(rest)
    {
      assert p[pi..] == [p[pi]] + p[pi + 1..];
      pi := pi + 1;
      steps := steps + 1;
    }
    r := pi == |p|;
    assert !r ==> p[pi..][0] != '*';
  }

  ghost function Swallowed(star: LastStar): nat {
    if star.Star? then star.swallowed else 0
  }

  ghost function Passes(m: nat, width: nat): nat {
    if m == 0 then 0 else Passes(m - 1, width) + width
  }

  lemma {:induction false} PassesGrow(m: nat, k: nat, width: nat)
    requires m <= k
    ensures Passes(m, width) <= Passes(k, width) == k * width
    ensures k * width + width == width * (k + 1)
  {
    if k > 0 {
      PassesGrow(if m == k then m - 1 else m, k - 1, width);
      assert k * width == (k - 1) * width + width;
    }
  }

  // ---- facts about the meaning ----

  lemma {:induction false} LiteralPrefix(u: string, q: string, n: string)
    requires StarFree(u)
    ensures Matches(u + q, n) <==> u <= n && Matches(q, n[|u|..])
  {
    if u == [] {
      assert u + q == q && n[0..] == n;
    } else {
      assert (u + q)[0] == u[0] && (u + q)[1..] == u[1..] + q;
      if n != [] && u[0] == n[0] {
        LiteralPrefix(u[1..], q, n[1..]);
        assert n == [n[0]] + n[1..] && u == [u[0]] + u[1..];
        if |u| <= |n| { assert n[1..][|u| - 1..] == n[|u|..]; }
      }
    }
  }

  lemma {:induction false} EmptyName(p: string)
    ensures Matches(p, []) <==> AllStars(p)
  {
    if p != [] {
      EmptyName(p[1..]);
      assert p == [p[0]] + p[1..];
      if p[0] == '*' && AllStars(p[1..]) { assert ""[0..] == ""; }
      assert AllStars(p) ==> AllStars(p[1..]);
    }
  }

  lemma {:induction false} StarMatches(p: string, n: string, k: nat)
    requires p != [] && p[0] == '*' && k <= |n| && Matches(p[1..], n[k..])
    ensures Matches(p, n)
  {
  }

  /** A pattern matching the one-character name `*` is a run of stars. */
  lemma {:induction false} StarName(p: string)
    requires Matches(p, "*")
    ensures AllStars(p)
  {
    if p[0] == '*' {
      var k :| 0 <= k <= 1 && Matches(p[1..], "*"[k..]);
      if k == 0 { assert "*"[0..] == "*"; StarName(p[1..]); } else { EmptyName(p[1..]); }
      assert p == [p[0]] + p[1..];
    }
  }

  // ---- what the loop computes ----

  /** The choices a loop state still has open. */
  ghost predicate Open(p: string, n: string, pi: nat, ni: nat, star: LastStar)
    requires InWalk(p, n, pi, ni, star)
  {
    Matches(p[pi..], n[ni..]) || Retry(p, n, star)
  }

  ghost predicate Retry(p: string, n: string, star: LastStar)
    requires star.Star? ==> star.after <= |p|
  {
    star.Star? && exists k :: star.swallowed < k <= |n| && Matches(p[star.after..], n[k..])
  }

  /** Whatever the loop accepts, the pattern matches. */
  lemma {:induction false} WalkSound(p: string, n: string, pi: nat, ni: nat, star: LastStar)
    requires InWalk(p, n, pi, ni, star) && Walk(p, n, pi, ni, star)
    ensures Open(p, n, pi, ni, star)
    decreases if star.Star? then |n| - star.swallowed else |n| + 1, |n| - ni + |p| - pi
  {
    if ni == |n| {
      EmptyName(p[pi..]);
    } else if pi < |p| && p[pi] == n[ni] {
      WalkSound(p, n, pi + 1, ni + 1, star);
      assert p[pi..][1..] == p[pi + 1..] && n[ni..][1..] == n[ni + 1..];
      if Matches(p[pi + 1..], n[ni + 1..]) && p[pi] == '*' {
        StarMatches(p[pi..], n[ni..], 1);
      }
    } else if pi < |p| && p[pi] == '*' {
      WalkSound(p, n, pi + 1, ni, Star(pi + 1, ni));
      StarStep(p, n, pi, ni);
    } else {
      WalkSound(p, n, star.after, star.swallowed + 1, Star(star.after, star.swallowed + 1));
    }
  }

  /** Opening a new star keeps exactly the matches of the rest of the pattern. */
  lemma {:induction false} StarStep(p: string, n: string, pi: nat, ni: nat)
    requires pi < |p| && p[pi] == '*' && ni <= |n|
    ensures Open(p, n, pi + 1, ni, Star(pi + 1, ni)) <==> Matches(p[pi..], n[ni..])
  {
    if Matches(p[pi..], n[ni..]) { StarOpens(p, n, pi, ni); }
    if Matches(p[pi + 1..], n[ni..]) { StarCloses(p, n, pi, ni, ni); }
    if k :| ni < k <= |n| && Matches(p[pi + 1..], n[k..]) { StarCloses(p, n, pi, ni, k); }
  }

  lemma {:induction false} StarOpens(p: string, n: string, pi: nat, ni: nat)
    requires pi < |p| && p[pi] == '*' && ni <= |n| && Matches(p[pi..], n[ni..])
    ensures Open(p, n, pi + 1, ni, Star(pi + 1, ni))
  {
    assert p[pi..][1..] == p[pi + 1..];
    var k :| 0 <= k <= |n[ni..]| && Matches(p[pi + 1..], n[ni..][k..]);
    assert n[ni..][k..] == n[ni + k..];
  }

  lemma {:induction false} StarCloses(p: string, n: string, pi: nat, ni: nat, k: nat)
    requires pi < |p| && p[pi] == '*' && ni <= k <= |n| && Matches(p[pi + 1..], n[k..])
    ensures Matches(p[pi..], n[ni..])
  {
    assert p[pi..][1..] == p[pi + 1..] && n[ni..][k - ni..] == n[k..];
    StarMatches(p[pi..], n[ni..], k - ni);
  }

  /** What was matched since the last star was matched character by character. */
  ghost predicate LiteralSince(p: string, n: string, pi: nat, ni: nat, star: LastStar)
    requires InWalk(p, n, pi, ni, star)
  {
    star.Star? ==> p[star.after..pi] == n[star.swallowed..ni] && StarFree(p[star.after..pi])
  }

  /** A later placement of the text between two stars is no better than the
      present one: the second star absorbs the difference. */
  lemma {:induction false} RetryAbsorbed(p: string, n: string, pi: nat, ni: nat, star: LastStar)
    requires InWalk(p, n, pi, ni, star) && LiteralSince(p, n, pi, ni, star)
    requires pi < |p| && p[pi] == '*' && Retry(p, n, star)
    ensures exists j :: ni < j <= |n| && Matches(p[pi + 1..], n[j..])
  {
    var k :| star.swallowed < k <= |n| && Matches(p[star.after..], n[k..]);
    var u := p[star.after..pi];
    assert p[star.after..] == u + p[pi..];
    LiteralPrefix(u, p[pi..], n[k..]);
    assert n[k..][|u|..] == n[k + |u|..];
    var j :| 0 <= j <= |n[k + |u|..]| && Matches(p[pi..][1..], n[k + |u|..][j..]);
    assert p[pi..][1..] == p[pi + 1..] && n[k + |u|..][j..] == n[k + |u| + j..];
    assert |u| == ni - star.swallowed;
  }

  predicate NoInteriorStar(n: string) {
    forall i :: 0 <= i < |n| - 1 ==> n[i] != '*'
  }

  lemma {:induction false} LiteralStep(p: string, n: string, pi: nat, ni: nat, star: LastStar)
    requires InWalk(p, n, pi, ni, star) && LiteralSince(p, n, pi, ni, star) && Open(p, n, pi, ni, star)
    requires pi < |p| && ni < |n| && p[pi] == n[ni] != '*'
    ensures LiteralSince(p, n, pi + 1, ni + 1, star) && Open(p, n, pi + 1, ni + 1, star)
  {
    assert p[pi..][1..] == p[pi + 1..] && n[ni..][1..] == n[ni + 1..];
    if star.Star? {
      assert p[star.after..pi + 1] == p[star.after..pi] + [p[pi]];
      assert n[star.swallowed..ni + 1] == n[star.swallowed..ni] + [n[ni]];
    }
  }

  lemma {:induction false} RetryStep(p: string, n: string, star: LastStar)
    requires star.Star? && star.after <= |p| && Retry(p, n, star)
    ensures star.swallowed < |n|
    ensures Open(p, n, star.after, star.swallowed + 1, Star(star.after, star.swallowed + 1))
  {
  }

  lemma {:induction false} WalkComplete(p: string, n: string, pi: nat, ni: nat, star: LastStar)
    requires NoInteriorStar(n)
    requires InWalk(p, n, pi, ni, star) && LiteralSince(p, n, pi, ni, star)
    requires Open(p, n, pi, ni, star)
    ensures Walk(p, n, pi, ni, star)
    decreases if star.Star? then |n| - star.swallowed else |n| + 1, |n| - ni + |p| - pi
  {
    if ni == |n| {
      EndOfName(p, n, pi, star);
    } else if pi < |p| && p[pi] == '*' {
      OpenAtStar(p, n, pi, ni, star);
      if n[ni] == '*' {
        LastIsStar(p, n, pi, ni, star);
      } else {
        StarStep(p, n, pi, ni);
        WalkComplete(p, n, pi + 1, ni, Star(pi + 1, ni));
      }
    } else if pi < |p| && p[pi] == n[ni] {
      LiteralStep(p, n, pi, ni, star);
      WalkComplete(p, n, pi + 1, ni + 1, star);
    } else {
      RetryStep(p, n, star);
      WalkComplete(p, n, star.after, star.swallowed + 1, Star(star.after, star.swallowed + 1));
    }
  }

  lemma {:induction false} LastIsStar(p: string, n: string, pi: nat, ni: nat, star: LastStar)
    requires InWalk(p, n, pi, ni, star) && pi < |p| && ni == |n| - 1
    requires p[pi] == n[ni] == '*' && Matches(p[pi..], n[ni..])
    ensures Walk(p, n, pi, ni, star)
  {
    assert n[ni..] == "*";
    StarName(p[pi..]);
    assert p[pi..][1..] == p[pi + 1..];
  }

  lemma {:induction false} OpenAtStar(p: string, n: string, pi: nat, ni: nat, star: LastStar)
    requires InWalk(p, n, pi, ni, star) && LiteralSince(p, n, pi, ni, star)
    requires pi < |p| && p[pi] == '*' && Open(p, n, pi, ni, star)
    ensures Matches(p[pi..], n[ni..])
  {
    if !Matches(p[pi..], n[ni..]) {
      RetryAbsorbed(p, n, pi, ni, star);
      StarStep(p, n, pi, ni);
      assert false;
    }
  }

  /** At the end of the name a retry has too few characters left. */
  lemma {:induction false} EndOfName(p: string, n: string, pi: nat, star: LastStar)
    requires InWalk(p, n, pi, |n|, star) && LiteralSince(p, n, pi, |n|, star)
    requires Open(p, n, pi, |n|, star)
    ensures AllStars(p[pi..])
  {
    EmptyName(p[pi..]);
    if Retry(p, n, star) {
      var k :| star.swallowed < k <= |n| && Matches(p[star.after..], n[k..]);
      assert p[star.after..] == p[star.after..pi] + p[pi..];
      LiteralPrefix(p[star.after..pi], p[pi..], n[k..]);
    }
  }

  /** Facing its own `*`, the name pairs it with the pattern's as a literal and
      the loop is stuck on the next character. */
  lemma {:induction false} StuckAfterStar(n: string, i: nat, j: nat)
    requires j <= i < |n| - 1 && n[i] == '*' && StarFree(n[..i])
    ensures !Walk(n[..i] + "*", n, j, j, NoStar)
    decreases i - j
  {
    var p := n[..i] + "*";
    assert p[j] == n[j];
    if j < i { StuckAfterStar(n, i, j + 1); }
  }

  lemma {:induction false} FirstInteriorStar(n: string, bound: nat) returns (i: nat)
    requires bound < |n| && exists j :: 0 <= j < bound && n[j] == '*'
    ensures i < bound && n[i] == '*' && StarFree(n[..i])
  {
    i := 0;
    while n[i] != '*'
      invariant i < bound && StarFree(n[..i]) && exists j :: i <= j < bound && n[j] == '*'
      decreases bound - i
    {
      i := i + 1;
    }
  }

  /** The matcher never accepts a name its pattern does not match; and it is
      right about a name under every pattern exactly when the name has no `*`
      before its last character. */
  lemma {:induction false} GlobExact(n: string)
    ensures forall p :: Globs(p, n) ==> Matches(p, n)
    ensures (forall p :: Globs(p, n) <==> Matches(p, n)) <==> NoInteriorStar(n)
  {
    forall p | Globs(p, n) ensures Matches(p, n) {
      WalkSound(p, n, 0, 0, NoStar);
      assert p[0..] == p && n[0..] == n;
    }
    if NoInteriorStar(n) {
      forall p | Matches(p, n) ensures Globs(p, n) {
        assert p[0..] == p && n[0..] == n;
        if n == [] { EmptyName(p); } else { WalkComplete(p, n, 0, 0, NoStar); }
      }
    } else {
      var i := FirstInteriorStar(n, |n| - 1);
      var p := n[..i] + "*";
      StuckAfterStar(n, i, 0);
      EmptyName([]);
      assert n[i..][|n| - i..] == [];
      StarMatches("*", n[i..], |n| - i);
      LiteralPrefix(n[..i], "*", n);
      assert Matches(p, n) && !Globs(p, n);
    }
  }
}
