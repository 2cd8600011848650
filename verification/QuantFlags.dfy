/**
 Compiling a preset into quantizer flags and reading the flags back (BRAIN-DAEMON/quantize/brain-quant.py,
 `build_quantize_overrides`).  The quantizer takes the first `--tensor-type` rule whose pattern is found in a
 tensor's name.
 */
module QuantFlags {
  import opened Helpers
  import opened PresetEmitter
  import opened RegexLite

  datatype QuantCfg = QuantCfg(name: string, sourceTop: string, preserve: Option<bool>, overrides: Option<seq<string>>,
                               families: FamilyTypes)

  // ---------------------------------------------------------------- types and rules

  /** `_TENSOR_TYPE_MAP`: mixes become the raw type they are built on. */
  function MapType(qtype: string): string {
    if qtype in ["Q4_K_M", "Q4_K_S"] then "Q4_K"
    else if qtype in ["Q5_K_M", "Q5_K_S"] then "Q5_K"
    else if qtype in ["Q3_K_M", "Q3_K_S", "Q3_K_L"] then "Q3_K"
    else if qtype == "Q2_K_S" then "Q2_K"
    else if qtype == "IQ3_M" then "IQ3_S"
    else if qtype == "IQ2_M" then "IQ2_S"
    else qtype
  }

  /** Raw types are left alone: mapping twice changes nothing, and no mix is ever passed on. */
  lemma MappedTypesAreRaw(qtype: string)
    ensures MapType(MapType(qtype)) == MapType(qtype)
    ensures '=' !in qtype ==> '=' !in MapType(qtype)
  {
  }

  /** Where a rule is split: the last `=`, or -1. */
  function LastEquals(rule: string): (k: int)
    ensures -1 <= k < |rule|
    ensures k >= 0 ==> rule[k] == '='
    ensures forall j :: k < j < |rule| ==> rule[j] != '='
  {
    if rule == [] then -1
    else if rule[|rule| - 1] == '=' then |rule| - 1
    else LastEquals(rule[..|rule| - 1])
  }

  lemma TheLastEquals(rule: string, k: nat)
    requires k < |rule| && rule[k] == '=' && forall j :: k < j < |rule| ==> rule[j] != '='
    ensures LastEquals(rule) == k
  {
    hide LastEquals;
    var found := LastEquals(rule);
    assert found <= k;
  }

  lemma RuleParts(pattern: string, qtype: string)
    ensures var rule := Rule(pattern, qtype);
      |pattern| < |rule| && rule[|pattern|] == '=' && rule[..|pattern|] == pattern && rule[|pattern| + 1..] == qtype
  {
  }

  /** A rule splits back into its pattern and its type, which holds no `=`. */
  lemma SplitRule(pattern: string, qtype: string)
    requires '=' !in qtype
    ensures var rule := Rule(pattern, qtype);
      LastEquals(rule) == |pattern| < |rule| && rule[..|pattern|] == pattern && rule[|pattern| + 1..] == qtype
  {
    hide LastEquals, Rule;
    var rule := Rule(pattern, qtype);
    RuleParts(pattern, qtype);
    forall j | |pattern| < j < |rule| ensures rule[j] != '=' {
      assert rule[j] == rule[|pattern| + 1..][j - |pattern| - 1];
    }
    TheLastEquals(rule, |pattern|);
  }

  function MapRule(rule: string): string {
    var k := LastEquals(rule);
    if k < 0 then rule else Rule(rule[..k], MapType(rule[k + 1..]))
  }

  function MappedRules(rules: seq<string>): seq<string> {
    seq(|rules|, k requires 0 <= k < |rules| => MapRule(rules[k]))
  }

  predicate IsExplicit(qtype: string) {
    qtype != "" && qtype != BASE
  }

  const ANYTHING_IN_FAMILY := "\\..*"

  function FamilyRule(entry: (string, string)): string {
    Rule(entry.0 + ANYTHING_IN_FAMILY, MapType(entry.1))
  }

  function FamilyRules(fq: FamilyTypes): seq<string> {
    if fq == [] then []
    else if IsExplicit(fq[0].1) then
      [FamilyRule(fq[0])] + FamilyRules(fq[1..])
    else FamilyRules(fq[1..])
  }

  // ---------------------------------------------------------------- compiling

  const ALLOW_REQUANTIZE := "--allow-requantize"
  const TENSOR_TYPE := "--tensor-type"
  const TOKEN_EMBEDDING_TYPE := "--token-embedding-type"
  const OUTPUT_TENSOR_TYPE := "--output-tensor-type"

  const DYNAMIC_RULES: seq<string> := ["ffn_gate_inp\\..*=F16", "attn_[kqv]\\..*=Q8_0", "attn_output\\..*=Q8_0"]

  predicate IsDynamic(name: string) {
    "UD-" <= name || (|name| >= 3 && name[|name| - 3..] == "_XL")
  }

  /** The fallback by name applies only when nothing at all is configured. */
  predicate IsUnconfigured(cfg: QuantCfg) {
    cfg.preserve.None? && cfg.overrides.None? && cfg.families == []
  }

  predicate KeepsEmbeddings(cfg: QuantCfg) {
    if IsUnconfigured(cfg) then IsDynamic(cfg.name) else cfg.preserve == Some(true)
  }

  function OverrideRules(cfg: QuantCfg): seq<string> {
    if IsUnconfigured(cfg) then (if IsDynamic(cfg.name) then DYNAMIC_RULES else [])
    else match cfg.overrides
      case Some(rules) => rules
      case None => []
  }

  predicate IsHalf(qtype: string) {
    qtype in ["F16", "BF16"]
  }

  function EmbeddingType(sourceTop: string): string {
    if IsHalf(sourceTop) then "F16" else sourceTop
  }

  function TypeFlags(rules: seq<string>): seq<string> {
    if rules == [] then [] else [TENSOR_TYPE, rules[0]] + TypeFlags(rules[1..])
  }

  function HeadFlags(cfg: QuantCfg): seq<string> {
    var allow := if IsHalf(cfg.sourceTop) then [] else [ALLOW_REQUANTIZE];
    if KeepsEmbeddings(cfg) then
      allow + [TOKEN_EMBEDDING_TYPE, EmbeddingType(cfg.sourceTop), OUTPUT_TENSOR_TYPE, EmbeddingType(cfg.sourceTop)]
    else allow
  }

  /** The `--tensor-type` rules asked for: overrides first, then the families with a type of their own. */
  function RulesOf(cfg: QuantCfg): seq<string> {
    MappedRules(OverrideRules(cfg)) + FamilyRules(cfg.families)
  }

  lemma TypeFlagsOfCons(rule: string, rest: seq<string>)
    ensures TypeFlags([rule] + rest) == [TENSOR_TYPE, rule] + TypeFlags(rest)
  {
    assert ([rule] + rest)[1..] == rest;
  }

  lemma {:induction false} TypeFlagsOfConcat(a: seq<string>, b: seq<string>)
    ensures TypeFlags(a + b) == TypeFlags(a) + TypeFlags(b)
  {
    NoFlagsForNoRules();
    hide *;
    if a == [] {
      assert a + b == b;
    } else {
      TypeFlagsOfConcat(a[1..], b);
      TypeFlagsOfCons(a[0], a[1..]);
      TypeFlagsOfCons(a[0], a[1..] + b);
      assert a + b == [a[0]] + (a[1..] + b) && a == [a[0]] + a[1..];
    }
  }

  lemma TypeFlagsOfOne(rule: string)
    ensures TypeFlags([rule]) == [TENSOR_TYPE, rule]
  {
    TypeFlagsOfCons(rule, []);
    assert [rule] + [] == [rule] && TypeFlags([]) == [];
  }

  lemma NoFlagsForNoRules()
    ensures MappedRules([]) == [] && TypeFlags([]) == []
  {
    hide MapRule;
  }

  lemma MapOneMore(rules: seq<string>, j: nat)
    requires j < |rules|
    ensures MappedRules(rules[..j + 1]) == MappedRules(rules[..j]) + [MapRule(rules[j])]
  {
    hide MapRule;
  }

  lemma {:induction false} FamilyRulesOfConcat(a: FamilyTypes, b: FamilyTypes)
    ensures FamilyRules(a + b) == FamilyRules(a) + FamilyRules(b)
  {
    hide IsExplicit, FamilyRule;
    if a == [] {
      assert a + b == b;
    } else {
      FamilyRulesOfConcat(a[1..], b);
      assert (a + b)[1..] == a[1..] + b;
    }
  }

  lemma FamilyOneMore(fq: FamilyTypes, j: nat)
    requires j < |fq|
    ensures FamilyRules(fq[..j + 1]) == FamilyRules(fq[..j]) +
      if IsExplicit(fq[j].1) then [FamilyRule(fq[j])] else []
  {
    hide IsExplicit, FamilyRule;
    assert fq[..j + 1] == fq[..j] + [fq[j]];
    FamilyRulesOfConcat(fq[..j], [fq[j]]);
  }

  /** The flags before the rules, and the overrides in force. */
  method Settle(cfg: QuantCfg) returns (args: seq<string>, rules: seq<string>)
    ensures args == HeadFlags(cfg) && rules == OverrideRules(cfg)
  {
    hide IsHalf, IsDynamic, EmbeddingType;
    args := [];
    if !IsHalf(cfg.sourceTop) {
      args := args + [ALLOW_REQUANTIZE];
    }
    var preserve, overrides := cfg.preserve, cfg.overrides;
    if preserve.None? && overrides.None? && cfg.families == [] {
      if IsDynamic(cfg.name) {
        preserve, overrides := Some(true), Some(DYNAMIC_RULES);
      } else {
        preserve, overrides := Some(false), Some([]);
      }
    }
    rules := match overrides case Some(given) => given case None => [];
    assert rules == OverrideRules(cfg);
    assert KeepsEmbeddings(cfg) <==> preserve == Some(true);
    hide KeepsEmbeddings, OverrideRules;
    var embType := EmbeddingType(cfg.sourceTop);
    if preserve == Some(true) {
      args := args + [TOKEN_EMBEDDING_TYPE, embType, OUTPUT_TENSOR_TYPE, embType];
    }
  }

  /** `build_quantize_overrides` */
  method BuildQuantizeOverrides(cfg: QuantCfg) returns (args: seq<string>)
    ensures args == HeadFlags(cfg) + TypeFlags(RulesOf(cfg))
  {
    hide HeadFlags, OverrideRules, MappedRules, FamilyRules, TypeFlags;
    var rules;
    args, rules := Settle(cfg);
    args := AddRules(args, rules);
    args := AddFamilies(args, cfg.families);
    TypeFlagsOfConcat(MappedRules(rules), FamilyRules(cfg.families));
  }

  /** The loop over the overrides. */
  method AddRules(before: seq<string>, rules: seq<string>) returns (args: seq<string>)
    ensures args == before + TypeFlags(MappedRules(rules))
  {
    NoFlagsForNoRules();
    hide *;
    args := before;
    for j := 0 to |rules|
      invariant args == before + TypeFlags(MappedRules(rules[..j]))
    {
      var rule := MapTypeOf(rules[j]);
      MapOneMore(rules, j);
      TypeFlagsOfConcat(MappedRules(rules[..j]), [rule]);
      TypeFlagsOfOne(rule);
      args := args + [TENSOR_TYPE, rule];
    }
    assert rules[..|rules|] == rules;
  }

  /** Split at the last `=`, map the type, join again; a rule without `=` stays as it is. */
  method MapTypeOf(rule: string) returns (mapped: string)
    ensures mapped == MapRule(rule)
  {
    hide LastEquals, MapType, Rule;
    mapped := rule;
    var k := LastEquals(rule);
    if k >= 0 {
      mapped := Rule(rule[..k], MapType(rule[k + 1..]));
    }
  }

  /** The loop over the families. */
  method AddFamilies(before: seq<string>, fq: FamilyTypes) returns (args: seq<string>)
    ensures args == before + TypeFlags(FamilyRules(fq))
  {
    args := before;
    for j := 0 to |fq|
      invariant args == before + TypeFlags(FamilyRules(fq[..j]))
    {
      FamilyOneMore(fq, j);
      hide FamilyRules, FamilyRule;
      if IsExplicit(fq[j].1) {
        var rule := FamilyRule(fq[j]);
        TypeFlagsOfConcat(FamilyRules(fq[..j]), [rule]);
        TypeFlagsOfOne(rule);
        args := args + [TENSOR_TYPE, rule];
      } else {
        assert FamilyRules(fq[..j]) + [] == FamilyRules(fq[..j]);
      }
    }
    assert fq[..|fq|] == fq;
  }

  // ---------------------------------------------------------------- what the quantizer makes of them

  /** The `--tensor-type` rules on a command line; every other flag but the first takes one value. */
  function TensorRules(args: seq<string>): seq<string> {
    if args == [] then []
    else if |args| > 1 && args[0] == TENSOR_TYPE then [args[1]] + TensorRules(args[2..])
    else if |args| > 1 && args[0] in [TOKEN_EMBEDDING_TYPE, OUTPUT_TENSOR_TYPE] then TensorRules(args[2..])
    else TensorRules(args[1..])
  }

  predicate TakesValue(flag: string) {
    flag in [TENSOR_TYPE, TOKEN_EMBEDDING_TYPE, OUTPUT_TENSOR_TYPE]
  }

  /** The value of the first such flag on a command line. */
  function FlagValue(args: seq<string>, flag: string): Option<string> {
    if |args| < 2 then None
    else if args[0] == flag then Some(args[1])
    else FlagValue(args[if TakesValue(args[0]) then 2 else 1..], flag)
  }

  /** The type of the first rule whose pattern is found in `name`. */
  function FirstType(rules: seq<string>, name: string): Option<string> {
    if rules == [] then None
    else
      var k := LastEquals(rules[0]);
      if k >= 0 && Search(rules[0][..k], name) then Some(rules[0][k + 1..]) else FirstType(rules[1..], name)
  }

  lemma {:induction false} ReadTypeFlags(rules: seq<string>)
    ensures TensorRules(TypeFlags(rules)) == rules
  {
    if rules != [] {
      var rest := TypeFlags(rules[1..]);
      ReadTypeFlags(rules[1..]);
      assert ([TENSOR_TYPE, rules[0]] + rest)[2..] == rest;
    }
  }

  lemma SkipRequantize(rest: seq<string>)
    ensures TensorRules([ALLOW_REQUANTIZE] + rest) == TensorRules(rest)
  {
    assert ALLOW_REQUANTIZE[2] == 'a' && TENSOR_TYPE[2] == 't' && TOKEN_EMBEDDING_TYPE[2] == 't' && OUTPUT_TENSOR_TYPE[2] == 'o';
    assert ([ALLOW_REQUANTIZE] + rest)[1..] == rest;
  }

  lemma SkipEmbeddings(qtype: string, rest: seq<string>)
    ensures TensorRules([TOKEN_EMBEDDING_TYPE, qtype, OUTPUT_TENSOR_TYPE, qtype] + rest) == TensorRules(rest)
  {
    var args := [TOKEN_EMBEDDING_TYPE, qtype, OUTPUT_TENSOR_TYPE, qtype] + rest;
    assert TENSOR_TYPE[3] == 'e' && TOKEN_EMBEDDING_TYPE[3] == 'o' && OUTPUT_TENSOR_TYPE[3] == 'u';
    assert args[2..] == [OUTPUT_TENSOR_TYPE, qtype] + rest;
    assert args[2..][2..] == rest;
  }

  /** The quantizer reads back exactly the rules asked for, in order, whatever the other flags are. */
  lemma FlagsCarryTheRules(cfg: QuantCfg)
    ensures TensorRules(HeadFlags(cfg) + TypeFlags(RulesOf(cfg))) == RulesOf(cfg)
  {
    var rest, embType := TypeFlags(RulesOf(cfg)), EmbeddingType(cfg.sourceTop);
    ReadTypeFlags(RulesOf(cfg));
    hide TensorRules, TypeFlags, RulesOf, EmbeddingType, IsHalf, KeepsEmbeddings;
    var tail := if KeepsEmbeddings(cfg) then [TOKEN_EMBEDDING_TYPE, embType, OUTPUT_TENSOR_TYPE, embType] + rest else rest;
    SkipEmbeddings(embType, rest);
    SkipRequantize(tail);
    assert HeadFlags(cfg) + rest == (if IsHalf(cfg.sourceTop) then tail else [ALLOW_REQUANTIZE] + tail);
  }

  // ---------------------------------------------------------------- which rule decides

  /** One rule more in front: it decides if its pattern is found. */
  lemma FirstOfCons(pattern: string, qtype: string, rest: seq<string>, name: string)
    requires '=' !in qtype
    ensures FirstType([Rule(pattern, qtype)] + rest, name) ==
      if Search(pattern, name) then Some(qtype) else FirstType(rest, name)
  {
    SplitRule(pattern, qtype);
    hide Rule, Search, LastEquals;
    assert ([Rule(pattern, qtype)] + rest)[1..] == rest;
  }

  lemma NoSplitNoMatch(rule: string, rest: seq<string>, name: string)
    requires LastEquals(rule) < 0
    ensures FirstType([rule] + rest, name) == FirstType(rest, name) && MapRule(rule) == rule
  {
    hide LastEquals, Search;
    assert ([rule] + rest)[1..] == rest;
  }

  lemma MappedOfCons(rules: seq<string>)
    requires rules != []
    ensures MappedRules(rules) == [MapRule(rules[0])] + MappedRules(rules[1..])
  {
    hide MapRule;
  }

  /** The same choice, up to the type map. */
  predicate MapsTo(a: Option<string>, b: Option<string>) {
    match a
    case Some(qtype) => b == Some(MapType(qtype))
    case None => b == None
  }

  /** Mapping the types of a list of rules changes the type found and nothing else. */
  lemma {:induction false} MappingKeepsMatches(rules: seq<string>, name: string)
    ensures MapsTo(FirstType(rules, name), FirstType(MappedRules(rules), name))
  {
    NothingMaps(name);
    hide *;
    if rules != [] {
      MappingKeepsMatches(rules[1..], name);
      MappedOfCons(rules);
      MappingOne(rules[0], rules[1..], MappedRules(rules[1..]), name);
      assert rules == [rules[0]] + rules[1..];
    }
  }

  lemma NothingMaps(name: string)
    ensures MapsTo(FirstType([], name), FirstType(MappedRules([]), name))
  {
    NoFlagsForNoRules();
    hide MappedRules;
  }

  lemma MappingOne(rule: string, rest: seq<string>, mappedRest: seq<string>, name: string)
    requires MapsTo(FirstType(rest, name), FirstType(mappedRest, name))
    ensures MapsTo(FirstType([rule] + rest, name), FirstType([MapRule(rule)] + mappedRest, name))
  {
    if LastEquals(rule) < 0 {
      hide *;
      NoSplitNoMatch(rule, rest, name);
      NoSplitNoMatch(rule, mappedRest, name);
    } else {
      MapRuleSplits(rule);
      MappingSplit(rule[..LastEquals(rule)], rule[LastEquals(rule) + 1..], rest, mappedRest, name);
      hide *;
    }
  }

  lemma NotBehind(s: string, c: char, from: nat)
    requires from <= |s| && forall j :: from <= j < |s| ==> s[j] != c
    ensures c !in s[from..]
  {
  }

  lemma MapRuleSplits(rule: string)
    requires LastEquals(rule) >= 0
    ensures var pattern, qtype := rule[..LastEquals(rule)], rule[LastEquals(rule) + 1..];
      rule == Rule(pattern, qtype) && MapRule(rule) == Rule(pattern, MapType(qtype)) && '=' !in qtype
  {
    hide LastEquals, MapType;
    NotBehind(rule, '=', LastEquals(rule) + 1);
  }

  lemma MappingSplit(pattern: string, qtype: string, rest: seq<string>, mappedRest: seq<string>, name: string)
    requires '=' !in qtype
    requires MapsTo(FirstType(rest, name), FirstType(mappedRest, name))
    ensures MapsTo(FirstType([Rule(pattern, qtype)] + rest, name), FirstType([Rule(pattern, MapType(qtype))] + mappedRest, name))
  {
    hide FirstType, MapType, Rule, Search;
    MappedTypesAreRaw(qtype);
    FirstOfCons(pattern, qtype, rest, name);
    FirstOfCons(pattern, MapType(qtype), mappedRest, name);
  }

  lemma {:induction false} FirstOfConcat(a: seq<string>, b: seq<string>, name: string)
    ensures FirstType(a + b, name) == if FirstType(a, name).Some? then FirstType(a, name) else FirstType(b, name)
  {
    hide Search, LastEquals;
    if a == [] {
      assert a + b == b;
    } else {
      FirstOfConcat(a[1..], b, name);
      assert (a + b)[1..] == a[1..] + b;
    }
  }

  predicate AnyFinds(patterns: seq<string>, name: string) {
    exists k :: 0 <= k < |patterns| && Search(patterns[k], name)
  }

  lemma OnePatternMore(patterns: seq<string>, qtype: string, name: string)
    requires patterns != []
    ensures RulesFor(patterns, qtype) == [Rule(patterns[0], qtype)] + RulesFor(patterns[1..], qtype)
    ensures AnyFinds(patterns, name) <==> Search(patterns[0], name) || AnyFinds(patterns[1..], name)
  {
    hide Search, Rule;
    var rest := patterns[1..];
    assert forall k :: 0 < k < |patterns| ==> patterns[k] == rest[k - 1];
    assert forall k :: 0 <= k < |rest| ==> rest[k] == patterns[k + 1];
  }

  lemma {:induction false} FirstOfSameType(patterns: seq<string>, qtype: string, name: string)
    requires '=' !in qtype
    ensures FirstType(RulesFor(patterns, qtype), name) == if AnyFinds(patterns, name) then Some(qtype) else None
  {
    if patterns == [] {
      hide Search;
      assert RulesFor(patterns, qtype) == [];
    } else {
      hide *;
      FirstOfSameType(patterns[1..], qtype, name);
      FirstOfCons(patterns[0], qtype, RulesFor(patterns[1..], qtype), name);
      OnePatternMore(patterns, qtype, name);
    }
  }

  /** The family's rule matches: its name, read as a pattern, is found before a dot. */
  predicate FamilyFound(fam: string, name: string) {
    Search(fam + ANYTHING_IN_FAMILY, name)
  }

  /** Without characters that mean something in a pattern, that is: the name and a dot are there. */
  lemma PlainFamilyFound(fam: string, name: string)
    requires Plain(fam)
    ensures FamilyFound(fam, name) <==> Contains(name, fam + ".")
  {
    WordDotFindsContaining(fam, name);
  }

  /** The first family, in dictionary order, that has a type of its own and is found in `name`. */
  function FirstFamily(fq: FamilyTypes, name: string): Option<(string, string)> {
    if fq == [] then None
    else if IsExplicit(fq[0].1) && FamilyFound(fq[0].0, name) then Some(fq[0])
    else FirstFamily(fq[1..], name)
  }

  predicate PlainTypes(fq: FamilyTypes) {
    forall k :: 0 <= k < |fq| ==> '=' !in fq[k].1
  }

  lemma {:induction false} FirstOfFamilies(fq: FamilyTypes, name: string)
    requires PlainTypes(fq)
    ensures FirstType(FamilyRules(fq), name) ==
      match FirstFamily(fq, name) { case Some(entry) => Some(MapType(entry.1)) case None => None }
  {
    if fq != [] {
      FirstOfFamilies(fq[1..], name);
      MappedTypesAreRaw(fq[0].1);
      FirstOfCons(fq[0].0 + ANYTHING_IN_FAMILY, MapType(fq[0].1), FamilyRules(fq[1..]), name);
      hide Rule, Search, LastEquals, MapType, IsExplicit, FirstType;
    }
  }
}
