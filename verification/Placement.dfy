/** Placement rules: the first rule whose pattern matches an index name says
    which shards hold the index. */
module Placement {
  import opened Glob
  import opened PartitionRouting
  import opened Outcomes

  datatype PlacementRule = PlacementRule(pattern: string, shards: seq<string>, weights: PartitionWeights)

  datatype PlacementDefault = Single | Reject

  datatype PlacementRules = PlacementRules(rules: seq<PlacementRule>, default: PlacementDefault)

  function FirstMatch(rules: seq<PlacementRule>, name: string): Option<PlacementRule> {
    if rules == [] then None
    else if Globs(rules[0].pattern, name) then Some(rules[0])
    else FirstMatch(rules[1..], name)
  }

  function ShardsFor(placement: PlacementRules, name: string): Option<seq<string>> {
    var rule := FirstMatch(placement.rules, name);
    if rule.Some? then Some(rule.value.shards) else None
  }

  /** The rule at i matches and no earlier one does. */
  ghost predicate FirstAt(rules: seq<PlacementRule>, name: string, i: nat) {
    && i < |rules| && Globs(rules[i].pattern, name)
    && forall j :: 0 <= j < i ==> !Globs(rules[j].pattern, name)
  }

  /** For every name the first rule that matches is used, and none exactly when
      no rule matches. */
  lemma {:induction false} FirstMatchWins(rules: seq<PlacementRule>, name: string)
    ensures match FirstMatch(rules, name)
            case None => forall i :: 0 <= i < |rules| ==> !Globs(rules[i].pattern, name)
            case Some(rule) => exists i: nat :: FirstAt(rules, name, i) && rules[i] == rule
  {
    if rules != [] {
      var rest := rules[1..];
      assert forall i :: 0 <= i < |rest| ==> rest[i] == rules[i + 1];
      if Globs(rules[0].pattern, name) {
        assert FirstAt(rules, name, 0);
      } else {
        FirstMatchWins(rest, name);
        match FirstMatch(rest, name) {
          case None =>
            forall i | 0 <= i < |rules| ensures !Globs(rules[i].pattern, name) {
              assert i > 0 ==> rules[i] == rest[i - 1];
            }
          case Some(rule) =>
            var i: nat :| FirstAt(rest, name, i) && rest[i] == rule;
            NextFirst(rules, name, i);
        }
      }
    }
  }

  lemma {:induction false} NextFirst(rules: seq<PlacementRule>, name: string, i: nat)
    requires rules != [] && !Globs(rules[0].pattern, name) && FirstAt(rules[1..], name, i)
    ensures FirstAt(rules, name, i + 1) && rules[i + 1] == rules[1..][i]
  {
    forall j | 0 <= j < i + 1 ensures !Globs(rules[j].pattern, name) {
      assert j > 0 ==> rules[j] == rules[1..][j - 1];
    }
  }

  /** For a name without a star before its last character, the rule used is the
      first whose pattern means the name. */
  lemma {:induction false} FirstMeantWins(rules: seq<PlacementRule>, name: string)
    requires NoInteriorStar(name)
    ensures match FirstMatch(rules, name)
            case None => forall i :: 0 <= i < |rules| ==> !Matches(rules[i].pattern, name)
            case Some(rule) =>
              exists i: nat :: FirstAt(rules, name, i) && rules[i] == rule && Matches(rule.pattern, name)
                            && forall j :: 0 <= j < i ==> !Matches(rules[j].pattern, name)
  {
    GlobExact(name);
    FirstMatchWins(rules, name);
    if FirstMatch(rules, name).Some? {
      var i: nat :| FirstAt(rules, name, i) && rules[i] == FirstMatch(rules, name).value;
      forall j | 0 <= j < i ensures !Matches(rules[j].pattern, name) {
        assert !Globs(rules[j].pattern, name);
      }
    }
  }

  /** Rules appended later never move an index that an earlier rule places, and
      decide only for the names that fell through. */
  lemma {:induction false} LaterRulesOnlyAdd(rules: seq<PlacementRule>, more: seq<PlacementRule>, name: string)
    ensures var before := FirstMatch(rules, name);
            FirstMatch(rules + more, name) == if before.Some? then before else FirstMatch(more, name)
  {
    if rules == [] {
      assert rules + more == more;
    } else {
      LaterRulesOnlyAdd(rules[1..], more, name);
      assert (rules + more)[1..] == rules[1..] + more;
    }
  }
}
