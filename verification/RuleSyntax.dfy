/** Placement rule syntax: `pattern=shard[:weight][,shard[:weight]...]`. */
module RuleSyntax {
  import opened Outcomes
  import opened Text

  type U32 = n: nat | n <= U32_MAX

  datatype PartitionSpec = PartitionSpec(shard: string, weight: Option<U32>)

  datatype RuleSpec = RuleSpec(pattern: string, partitions: seq<PartitionSpec>)

  /** Why a rule is refused: while reading it, or by validation. */
  datatype Fault =
    | NoEquals | EmptySide
    | WeightNotNumber(weight: string) | WeightZero(weight: string) | WeightTooLarge(weight: string)
    | EmptyPattern | PatternHasEquals | NoShard | EmptyShard | BadShard(shard: string) | ShardTwice(shard: string)
    | ZeroWeight(shard: string) | LoneWeight

  datatype Reading<+T> = Read(value: T) | Rejected(fault: Fault)

  // ---- validation ----

  /** The fault of partition i, tested in the broker's order. */
  function PartitionFault(partitions: seq<PartitionSpec>, i: nat): Option<Fault>
    requires i < |partitions|
  {
    var shard := partitions[i].shard;
    if shard == [] then Some(EmptyShard)
    else if Trim(shard) != shard || ',' in shard || ':' in shard || '=' in shard then Some(BadShard(shard))
    else if exists j :: 0 <= j < i && partitions[j].shard == shard then Some(ShardTwice(shard))
    else if partitions[i].weight == Some(0) then Some(ZeroWeight(shard))
    else None
  }

  /** The first fault of a rule. */
  method Validate(rule: RuleSpec) returns (fault: Option<Fault>)
    ensures fault == RuleFault(rule)
  {
    if rule.pattern == [] { return Some(EmptyPattern); }
    if '=' in rule.pattern { return Some(PatternHasEquals); }
    if rule.partitions == [] { return Some(NoShard); }
    for i := 0 to |rule.partitions|
      invariant FirstFault(rule.partitions, 0) == FirstFault(rule.partitions, i)
    {
      var found := PartitionFault(rule.partitions, i);
      if found.Some? { return found; }
    }
    if |rule.partitions| == 1 && rule.partitions[0].weight.Some? { return Some(LoneWeight); }
    return None;
  }

  function FirstFault(partitions: seq<PartitionSpec>, i: nat): Option<Fault>
    requires i <= |partitions|
    decreases |partitions| - i
  {
    if i == |partitions| then None
    else if PartitionFault(partitions, i).Some? then PartitionFault(partitions, i)
    else FirstFault(partitions, i + 1)
  }

  function RuleFault(rule: RuleSpec): Option<Fault> {
    if rule.pattern == [] then Some(EmptyPattern)
    else if '=' in rule.pattern then Some(PatternHasEquals)
    else if rule.partitions == [] then Some(NoShard)
    else if FirstFault(rule.partitions, 0).Some? then FirstFault(rule.partitions, 0)
    else if |rule.partitions| == 1 && rule.partitions[0].weight.Some? then Some(LoneWeight)
    else None
  }

  /** A shard id that can be written in a rule. */
  predicate ShardId(shard: string) {
    shard != [] && Trimmed(shard) && ',' !in shard && ':' !in shard && '=' !in shard
  }

  /** What a valid rule is. */
  ghost predicate Valid(rule: RuleSpec) {
    && rule.pattern != [] && '=' !in rule.pattern && rule.partitions != []
    && (forall i :: 0 <= i < |rule.partitions| ==>
         ShardId(rule.partitions[i].shard) && rule.partitions[i].weight != Some(0))
    && (forall i, j :: 0 <= i < j < |rule.partitions| ==> rule.partitions[i].shard != rule.partitions[j].shard)
    && (|rule.partitions| == 1 ==> rule.partitions[0].weight.None?)
  }

  lemma {:induction false} FirstFaultNone(partitions: seq<PartitionSpec>, i: nat)
    requires i <= |partitions|
    ensures FirstFault(partitions, i).None? <==>
              forall k :: i <= k < |partitions| ==> PartitionFault(partitions, k).None?
    decreases |partitions| - i
  {
    if i < |partitions| { FirstFaultNone(partitions, i + 1); }
  }

  lemma {:induction false} PartitionFaultNone(partitions: seq<PartitionSpec>, i: nat)
    requires i < |partitions|
    ensures PartitionFault(partitions, i).None? <==>
              && ShardId(partitions[i].shard) && partitions[i].weight != Some(0)
              && forall j :: 0 <= j < i ==> partitions[j].shard != partitions[i].shard
  {
    TrimMeaning(partitions[i].shard);
  }

  /** Validation refuses exactly the rules that are not valid. */
  lemma {:induction false} ValidIff(rule: RuleSpec)
    ensures RuleFault(rule).None? <==> Valid(rule)
  {
    var partitions := rule.partitions;
    FirstFaultNone(partitions, 0);
    forall i | 0 <= i < |partitions|
      ensures PartitionFault(partitions, i).None? <==>
                && ShardId(partitions[i].shard) && partitions[i].weight != Some(0)
                && forall j :: 0 <= j < i ==> partitions[j].shard != partitions[i].shard
    {
      PartitionFaultNone(partitions, i);
    }
  }

  // ---- reading ----

  function ParseWeight(weight: string): Reading<U32> {
    if weight == [] || !Numeric(weight) then Rejected(WeightNotNumber(weight))
    else if Value(weight) == 0 then Rejected(WeightZero(weight))
    else if Value(weight) > U32_MAX then Rejected(WeightTooLarge(weight))
    else Read(Value(weight))
  }

  function ParseEntry(entry: string): Reading<PartitionSpec> {
    match SplitOnce(entry, ':')
    case Some(parts) =>
      (match ParseWeight(Trim(parts.1))
       case Read(weight) => Read(PartitionSpec(Trim(parts.0), Some(weight)))
       case Rejected(fault) => Rejected(fault))
    case None => Read(PartitionSpec(Trim(entry), None))
  }

  function ParseEntries(entries: seq<string>): Reading<seq<PartitionSpec>> {
    if entries == [] then Read([])
    else
      var n := |entries| - 1;
      match ParseEntries(entries[..n])
      case Rejected(fault) => Rejected(fault)
      case Read(partitions) =>
        match ParseEntry(entries[n])
        case Rejected(fault) => Rejected(fault)
        case Read(partition) => Read(partitions + [partition])
  }

  function Parsed(s: string): Reading<RuleSpec> {
    match RSplitOnce(s, '=')
    case None => Rejected(NoEquals)
    case Some(sides) =>
      if sides.0 == [] || sides.1 == [] then Rejected(EmptySide)
      else match ParseEntries(Split(sides.1, ','))
        case Rejected(fault) => Rejected(fault)
        case Read(partitions) =>
          var rule := RuleSpec(sides.0, partitions);
          match RuleFault(rule)
          case Some(fault) => Rejected(fault)
          case None => Read(rule)
  }

  lemma {:induction false} RejectionSticks(entries: seq<string>, k: nat)
    requires k <= |entries| && ParseEntries(entries[..k]).Rejected?
    ensures ParseEntries(entries) == ParseEntries(entries[..k])
    decreases |entries| - k
  {
    if k == |entries| {
      assert entries[..k] == entries;
    } else {
      assert entries[..k + 1][..k] == entries[..k];
      RejectionSticks(entries, k + 1);
    }
  }

  /** Read one placement argument. */
  method Parse(s: string) returns (r: Reading<RuleSpec>)
    ensures r == Parsed(s)
  {
    var sides := RSplitOnce(s, '=');
    if sides.None? { return Rejected(NoEquals); }
    var (pattern, shards) := sides.value;
    if pattern == [] || shards == [] { return Rejected(EmptySide); }
    var entries, partitions := Split(shards, ','), [];
    for i := 0 to |entries|
      invariant ParseEntries(entries[..i]) == Read(partitions)
    {
      assert entries[..i + 1][..i] == entries[..i];
      var partition := ParseEntry(entries[i]);
      if partition.Rejected? {
        RejectionSticks(entries, i + 1);
        return Rejected(partition.fault);
      }
      partitions := partitions + [partition.value];
    }
    assert entries[..|entries|] == entries;
    var rule := RuleSpec(pattern, partitions);
    var fault := Validate(rule);
    r := if fault.Some? then Rejected(fault.value) else Read(rule);
  }

  // ---- writing ----

  function RenderPartition(partition: PartitionSpec): string {
    match partition.weight
    case Some(weight) => partition.shard + ":" + Digits(weight)
    case None => partition.shard
  }

  function RenderParts(partitions: seq<PartitionSpec>): (r: seq<string>)
    ensures |r| == |partitions| && forall i :: 0 <= i < |partitions| ==> r[i] == RenderPartition(partitions[i])
  {
    if partitions == [] then []
    else RenderParts(partitions[..|partitions| - 1]) + [RenderPartition(partitions[|partitions| - 1])]
  }

  function Render(rule: RuleSpec): string {
    rule.pattern + "=" + if rule.partitions == [] then "" else Join(RenderParts(rule.partitions), ',')
  }

  lemma {:induction false} WeightRoundTrip(weight: U32)
    requires weight != 0
    ensures ParseWeight(Trim(Digits(weight))) == Read(weight)
  {
    assert Trimmed(Digits(weight));
    TrimMeaning(Digits(weight));
    ValueDigits(weight);
  }

  lemma {:induction false} PartitionRoundTrip(partition: PartitionSpec)
    requires ShardId(partition.shard) && partition.weight != Some(0)
    ensures ParseEntry(RenderPartition(partition)) == Read(partition)
    ensures ',' !in RenderPartition(partition) && '=' !in RenderPartition(partition) && RenderPartition(partition) != []
  {
    TrimMeaning(partition.shard);
    match partition.weight
    case None =>
    case Some(weight) =>
      SplitOnceAt(partition.shard, ':', Digits(weight));
      WeightRoundTrip(weight);
  }

  // ---- exactly which strings are read ----

  /** The entry spells the partition: blanks around both parts and leading
      zeros are free. */
  ghost predicate Spells(entry: string, partition: PartitionSpec) {
    match partition.weight
    case None => ':' !in entry && Trim(entry) == partition.shard
    case Some(weight) =>
      exists name, number ::
        && ':' !in name && entry == name + [':'] + number && Trim(name) == partition.shard
        && Trim(number) != [] && Numeric(Trim(number)) && Value(Trim(number)) == weight != 0
  }

  /** The string is the pattern, an equals sign and the spelled partitions. */
  ghost predicate Written(s: string, rule: RuleSpec, entries: seq<string>) {
    && 0 < |entries| == |rule.partitions| && s == rule.pattern + ['='] + Join(entries, ',')
    && forall i :: 0 <= i < |entries| ==>
         ',' !in entries[i] && '=' !in entries[i] && Spells(entries[i], rule.partitions[i])
  }

  lemma {:induction false} SpellsIff(entry: string, partition: PartitionSpec)
    ensures ParseEntry(entry) == Read(partition) <==> Spells(entry, partition)
  {
    if Spells(entry, partition) {
      if partition.weight.Some? {
        var name, number :| && ':' !in name && entry == name + [':'] + number && Trim(name) == partition.shard
                            && Trim(number) != [] && Numeric(Trim(number))
                              && Value(Trim(number)) == partition.weight.value != 0;
        SplitOnceAt(name, ':', number);
      }
    }
  }

  ghost predicate AllSpell(entries: seq<string>, partitions: seq<PartitionSpec>) {
    |entries| == |partitions| && forall i :: 0 <= i < |entries| ==> Spells(entries[i], partitions[i])
  }

  lemma {:induction false} AllSpellStep(entries: seq<string>, entry: string, partitions: seq<PartitionSpec>,
                                        partition: PartitionSpec)
    ensures AllSpell(entries + [entry], partitions + [partition]) <==>
              AllSpell(entries, partitions) && Spells(entry, partition)
  {
    var es, ps := entries + [entry], partitions + [partition];
    if AllSpell(es, ps) {
      assert Spells(es[|entries|], ps[|entries|]);
      forall i | 0 <= i < |entries| ensures Spells(entries[i], partitions[i]) { assert Spells(es[i], ps[i]); }
    }
  }

  lemma {:induction false} EntriesStep(entries: seq<string>, entry: string, partitions: seq<PartitionSpec>,
                                       partition: PartitionSpec)
    ensures ParseEntries(entries + [entry]) == Read(partitions + [partition]) <==>
              ParseEntries(entries) == Read(partitions) && ParseEntry(entry) == Read(partition)
  {
    assert (entries + [entry])[..|entries|] == entries;
    var before, last := ParseEntries(entries), ParseEntry(entry);
    if before.Read? && last.Read? { LastAgrees(before.value, last.value, partitions, partition); }
  }

  lemma {:induction false} LastAgrees<X>(s: seq<X>, x: X, t: seq<X>, y: X)
    ensures s + [x] == t + [y] <==> s == t && x == y
  {
    if s + [x] == t + [y] {
      assert s == (s + [x])[..|s|] == (t + [y])[..|s|] == t;
      assert x == (s + [x])[|s|] == (t + [y])[|s|] == y;
    }
  }

  lemma {:induction false} EntriesIff(entries: seq<string>, partitions: seq<PartitionSpec>)
    ensures ParseEntries(entries) == Read(partitions) <==> AllSpell(entries, partitions)
  {
    EntriesCount(entries);
    if entries != [] && |partitions| == |entries| {
      var n := |entries| - 1;
      assert entries == entries[..n] + [entries[n]] && partitions == partitions[..n] + [partitions[n]];
      EntriesIff(entries[..n], partitions[..n]);
      SpellsIff(entries[n], partitions[n]);
      EntriesStep(entries[..n], entries[n], partitions[..n], partitions[n]);
      AllSpellStep(entries[..n], entries[n], partitions[..n], partitions[n]);
    }
  }

  lemma {:induction false} EntriesCount(entries: seq<string>)
    ensures ParseEntries(entries).Read? ==> |ParseEntries(entries).value| == |entries|
  {
    if entries != [] { EntriesCount(entries[..|entries| - 1]); }
  }

  lemma {:induction false} WrittenIsRead(s: string, rule: RuleSpec, entries: seq<string>)
    requires Valid(rule) && Written(s, rule, entries)
    ensures Parsed(s) == Read(rule)
  {
    JoinMembers(entries, ',', '=');
    RSplitOnceAt(rule.pattern, '=', Join(entries, ','));
    SpelledNonempty(entries[0], rule.partitions[0]);
    SplitJoin(entries, ',');
    EntriesIff(entries, rule.partitions);
    ValidIff(rule);
  }

  lemma {:induction false} SpelledNonempty(entry: string, partition: PartitionSpec)
    requires Spells(entry, partition) && partition.shard != []
    ensures entry != []
  {
    TrimMeaning(entry);
  }

  lemma {:induction false} SplitMembers(s: string, sep: char, c: char)
    requires c !in s
    ensures forall i :: 0 <= i < |Split(s, sep)| ==> c !in Split(s, sep)[i]
    decreases |s|
  {
    match SplitOnce(s, sep)
    case None =>
    case Some(parts) => SplitMembers(parts.1, sep, c);
  }

  /** A string reads as a rule exactly when the rule is valid and the string
      spells it. */
  lemma {:induction false} ReadIffWritten(s: string, rule: RuleSpec)
    ensures Parsed(s) == Read(rule) <==> Valid(rule) && exists entries :: Written(s, rule, entries)
  {
    if Parsed(s) == Read(rule) {
      ValidIff(rule);
      var shards := RSplitOnce(s, '=').value.1;
      JoinSplit(shards, ',');
      SplitMembers(shards, ',', '=');
      EntriesIff(Split(shards, ','), rule.partitions);
      assert Written(s, rule, Split(shards, ','));
    }
    if Valid(rule) && exists entries :: Written(s, rule, entries) {
      var entries :| Written(s, rule, entries);
      WrittenIsRead(s, rule, entries);
    }
  }

  // ---- reading undoes writing ----

  /** A valid rule reads back from its rendering. */
  lemma {:induction false} RuleRoundTrip(rule: RuleSpec)
    requires Valid(rule)
    ensures Parsed(Render(rule)) == Read(rule)
  {
    var parts := RenderParts(rule.partitions);
    forall i | 0 <= i < |parts| ensures ',' !in parts[i] && '=' !in parts[i] && Spells(parts[i], rule.partitions[i]) {
      PartitionRoundTrip(rule.partitions[i]);
      SpellsIff(parts[i], rule.partitions[i]);
    }
    WrittenIsRead(Render(rule), rule, parts);
  }

  /** Whatever parses is valid and reads back from its rendering. */
  lemma {:induction false} ParsedRoundTrip(s: string)
    requires Parsed(s).Read?
    ensures Valid(Parsed(s).value) && Parsed(Render(Parsed(s).value)) == Parsed(s)
  {
    ValidIff(Parsed(s).value);
    RuleRoundTrip(Parsed(s).value);
  }

  /** Of validation's faults, reading a string meets only these four: its own
      splitting and trimming rule out the others. */
  lemma {:induction false} ReadingFaults(s: string)
    requires Parsed(s).Rejected?
    ensures var fault := Parsed(s).fault;
            || fault.NoEquals? || fault.EmptySide?
            || fault.WeightNotNumber? || fault.WeightZero? || fault.WeightTooLarge?
            || fault.PatternHasEquals? || fault.EmptyShard? || fault.ShardTwice? || fault.LoneWeight?
  {
    var sides := RSplitOnce(s, '=');
    if sides.Some? {
      var entries := Split(sides.value.1, ',');
      EntriesFaults(entries);
      if ParseEntries(entries).Read? {
        var partitions := ParseEntries(entries).value;
        EntriesCount(entries);
        EntriesIff(entries, partitions);
        JoinSplit(sides.value.1, ',');
        SplitMembers(sides.value.1, ',', '=');
        forall i | 0 <= i < |partitions|
          ensures PartitionFault(partitions, i).Some? ==>
                    PartitionFault(partitions, i).value.EmptyShard? || PartitionFault(partitions, i).value.ShardTwice?
        {
          SpelledFault(entries[i], partitions, i);
        }
        FirstFaultIsOne(partitions, 0);
      }
    }
  }

  lemma {:induction false} EntriesFaults(entries: seq<string>)
    ensures ParseEntries(entries).Rejected? ==>
              var fault := ParseEntries(entries).fault;
              fault.WeightNotNumber? || fault.WeightZero? || fault.WeightTooLarge?
  {
    if entries != [] { EntriesFaults(entries[..|entries| - 1]); }
  }

  lemma {:induction false} SpelledFault(entry: string, partitions: seq<PartitionSpec>, i: nat)
    requires i < |partitions| && Spells(entry, partitions[i]) && ',' !in entry && '=' !in entry
    ensures PartitionFault(partitions, i).Some? ==>
              PartitionFault(partitions, i).value.EmptyShard? || PartitionFault(partitions, i).value.ShardTwice?
  {
    if partitions[i].weight.Some? {
      var name, number :| ':' !in name && entry == name + [':'] + number && Trim(name) == partitions[i].shard;
      TrimmedShard(name);
    } else {
      TrimmedShard(entry);
    }
  }

  lemma {:induction false} TrimmedShard(name: string)
    requires ',' !in name && ':' !in name && '=' !in name
    ensures var shard := Trim(name); Trim(shard) == shard && ',' !in shard && ':' !in shard && '=' !in shard
  {
    TrimMeaning(name);
    TrimMeaning(Trim(name));
    TrimMembers(name, ',');
    TrimMembers(name, ':');
    TrimMembers(name, '=');
  }

  lemma {:induction false} FirstFaultIsOne(partitions: seq<PartitionSpec>, i: nat)
    requires i <= |partitions|
    ensures FirstFault(partitions, i).Some? ==>
              exists k :: i <= k < |partitions| && PartitionFault(partitions, k) == FirstFault(partitions, i)
    decreases |partitions| - i
  {
    if i < |partitions| { FirstFaultIsOne(partitions, i + 1); }
  }
}
