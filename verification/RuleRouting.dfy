/** From a written rule to its routing: what two rules must share to be
    interchangeable for a live index. */
module RuleRouting {
  import opened Outcomes
  import opened Sorting
  import opened Weights
  import opened PartitionRouting
  import opened RuleSyntax

  function Shards(rule: RuleSpec): (r: seq<string>)
    ensures |r| == |rule.partitions| && forall i :: 0 <= i < |r| ==> r[i] == rule.partitions[i].shard
  {
    seq(|rule.partitions|, i requires 0 <= i < |rule.partitions| => rule.partitions[i].shard)
  }

  /** Weights in partition order, unlisted ones as 1. */
  function WeightsOf(rule: RuleSpec): (r: seq<nat>)
    ensures |r| == |rule.partitions|
    ensures forall i :: 0 <= i < |r| ==> r[i] == Listed(rule.partitions[i].weight)
  {
    seq(|rule.partitions|, i requires 0 <= i < |rule.partitions| => Listed(rule.partitions[i].weight))
  }

  function Listed(weight: Option<U32>): nat {
    if weight.Some? then weight.value else 1
  }

  function RoutingOf(rule: RuleSpec): Routing {
    Routing(Shards(rule), Reduced(WeightsOf(rule)))
  }

  lemma {:induction false} SumBound(ws: seq<nat>)
    requires forall i :: 0 <= i < |ws| ==> ws[i] <= U32_MAX
    ensures Sum(ws) <= |ws| * U32_MAX
  {
    if ws != [] {
      SumBound(ws[1..]);
      assert (|ws| - 1) * U32_MAX + U32_MAX == |ws| * U32_MAX;
    }
  }

  /** A valid rule can be routed; 2^32 partitions are never too many for the
      64-bit total. */
  lemma {:induction false} ValidRoutes(rule: RuleSpec)
    requires Valid(rule)
    ensures rule.partitions != [] && Positive(WeightsOf(rule)) && NoRepeats(Shards(rule))
    ensures |rule.partitions| <= U32_MAX + 1 ==> Sum(WeightsOf(rule)) < HASH_POINTS
  {
    SumBound(WeightsOf(rule));
    if |rule.partitions| <= U32_MAX + 1 {
      assert |rule.partitions| * U32_MAX <= (U32_MAX + 1) * U32_MAX;
    }
  }

  /** Every hash reaches the same shard under both rules. */
  ghost predicate SameShards(a: RuleSpec, b: RuleSpec)
    requires a.partitions != [] && Positive(WeightsOf(a)) && b.partitions != [] && Positive(WeightsOf(b))
  {
    Agree(Shards(a), New(WeightsOf(a)).bounds, Shards(b), New(WeightsOf(b)).bounds)
  }

  lemma {:induction false} ValidRulesInterchange(a: RuleSpec, b: RuleSpec)
    requires Valid(a) && |a.partitions| <= U32_MAX + 1 && Positive(WeightsOf(a))
    requires Valid(b) && |b.partitions| <= U32_MAX + 1 && Positive(WeightsOf(b))
    ensures RoutingOf(a) == RoutingOf(b) <==> SameShards(a, b)
  {
    ValidRoutes(a);
    ValidRoutes(b);
    InterchangeableIffEqual(Shards(a), WeightsOf(a), Shards(b), WeightsOf(b));
  }

  lemma {:induction false} ReadRoutes(s: string)
    requires Parsed(s).Read?
    ensures Valid(Parsed(s).value) && Positive(WeightsOf(Parsed(s).value))
  {
    ParsedRoundTrip(s);
    ValidRoutes(Parsed(s).value);
  }

  /** Two written rules have equal routings exactly when every hash reaches the
      same shard under both. */
  lemma {:induction false} WrittenRulesInterchange(s: string, t: string, a: RuleSpec, b: RuleSpec)
    requires Parsed(s) == Read(a) && |a.partitions| <= U32_MAX + 1
    requires Parsed(t) == Read(b) && |b.partitions| <= U32_MAX + 1
    ensures a.partitions != [] && Positive(WeightsOf(a)) && b.partitions != [] && Positive(WeightsOf(b))
    ensures RoutingOf(a) == RoutingOf(b) <==> SameShards(a, b)
  {
    ReadRoutes(s);
    ReadRoutes(t);
    ValidRulesInterchange(a, b);
  }

  // ---- a routing reads back from its rendering ----

  /** The rule that spells a routing: weights only when there are several. */
  function Spelled(pattern: string, routing: Routing): RuleSpec
    requires |routing.shards| == |routing.weights|
    requires forall i :: 0 <= i < |routing.weights| ==> routing.weights[i] <= U32_MAX
  {
    var n := |routing.shards|;
    RuleSpec(pattern, seq(n, i requires 0 <= i < n =>
      PartitionSpec(routing.shards[i], if n > 1 then Some(routing.weights[i]) else None)))
  }

  lemma {:induction false} FactorWithin(g: nat, r: nat)
    requires g > 0
    ensures r <= g * r
  {
  }

  lemma {:induction false} ReducedWithin(ws: seq<nat>)
    requires ws != [] && Positive(ws)
    ensures Positive(Reduced(ws)) && forall i :: 0 <= i < |ws| ==> Reduced(ws)[i] <= ws[i]
  {
    ReducedIsExact(ws);
    var g, r := GcdFold(0, ws), Reduced(ws);
    forall i | 0 <= i < |ws| ensures r[i] <= ws[i] {
      assert ws[i] == Scale(g, r)[i];
      FactorWithin(g, r[i]);
    }
  }

  /** Writing a rule's routing after any pattern and reading it gives a rule
      with the same routing. */
  lemma {:induction false} RoutingReadsBack(rule: RuleSpec, pattern: string)
    requires Valid(rule) && pattern != [] && '=' !in pattern
    ensures forall i :: 0 <= i < |rule.partitions| ==> RoutingOf(rule).weights[i] <= U32_MAX
    ensures var read := Parsed(Render(Spelled(pattern, RoutingOf(rule))));
            read.Read? && RoutingOf(read.value) == RoutingOf(rule)
  {
    var ws := WeightsOf(rule);
    ValidRoutes(rule);
    ReducedWithin(ws);
    var spelled := Spelled(pattern, RoutingOf(rule));
    SpelledValid(rule, pattern, spelled);
    RuleRoundTrip(spelled);
    ReducedIdempotent(ws);
  }

  lemma {:induction false} SpelledValid(rule: RuleSpec, pattern: string, spelled: RuleSpec)
    requires Valid(rule) && pattern != [] && '=' !in pattern
    requires Positive(Reduced(WeightsOf(rule))) && |spelled.partitions| == |rule.partitions|
    requires forall i :: 0 <= i < |rule.partitions| ==> RoutingOf(rule).weights[i] <= U32_MAX
    requires spelled == Spelled(pattern, RoutingOf(rule))
    ensures Valid(spelled) && Shards(spelled) == Shards(rule) && WeightsOf(spelled) == Reduced(WeightsOf(rule))
  {
    if |rule.partitions| == 1 { assert WeightsOf(rule) == [1] == Ones(1); OnesReduced(1); }
    assert Shards(spelled) == Shards(rule);
    assert WeightsOf(spelled) == Reduced(WeightsOf(rule));
  }
}
