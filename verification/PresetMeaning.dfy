/**
 Three readings of one preset: the rules the quantizer follows, the tensors the builder reads back out of the
 preset's rules, and the type its size estimate assumes for each tensor (BRAIN-DAEMON/quantize/brain-quant.py).
 */
module PresetMeaning {
  import opened Helpers
  import opened PresetEmitter
  import opened QuantFlags
  import opened RegexLite

  // ---------------------------------------------------------------- what the flags decide

  function ConfigOf(p: Preset, name: string): QuantCfg {
    QuantCfg(name, p.bonusType, Some(true), Some(p.Overrides()), p.families)
  }

  /** The command line built for a preset. */
  function FlagsOf(p: Preset, name: string): seq<string> {
    var cfg := ConfigOf(p, name);
    HeadFlags(cfg) + TypeFlags(RulesOf(cfg))
  }

  /** The type the quantizer gives a tensor by rule, if any. */
  function CompiledType(p: Preset, name: string, tensor: string): Option<string> {
    FirstType(TensorRules(FlagsOf(p, name)), tensor)
  }

  datatype Decision = ByType(qtype: string) | Family(entry: (string, string)) | ByBase

  predicate NamesPartOf(names: seq<string>, tensor: string) {
    exists k :: 0 <= k < |names| && Contains(tensor, names[k])
  }

  function FamilyDecision(entry: Option<(string, string)>): Decision {
    match entry
    case Some(e) => Family(e)
    case None => ByBase
  }

  /** The first pin found decides; else a bonus name contained in the tensor's, else the first family that matches. */
  function FlagDecision(p: Preset, tensor: string): Decision {
    match FirstType(p.pins, tensor)
    case Some(qtype) => ByType(qtype)
    case None =>
      if NamesPartOf(p.bonusNames, tensor) then ByType(p.bonusType) else FamilyDecision(FirstFamily(p.families, tensor))
  }

  function MappedType(d: Decision): Option<string> {
    match d
    case ByType(qtype) => Some(MapType(qtype))
    case Family(entry) => Some(MapType(entry.1))
    case ByBase => None
  }

  lemma {:induction false} EscapedNamesFind(names: seq<string>, tensor: string)
    ensures AnyFinds(Escaped(names), tensor) <==> NamesPartOf(names, tensor)
  {
    hide Search, Contains, Escape;
    forall k | 0 <= k < |names| ensures Search(Escaped(names)[k], tensor) <==> Contains(tensor, names[k]) {
      EscapedFindsContaining(names[k], tensor);
    }
  }

  lemma OverridesFind(p: Preset, tensor: string)
    requires '=' !in p.bonusType
    ensures FirstType(p.Overrides(), tensor) ==
      match FirstType(p.pins, tensor)
      case Some(qtype) => Some(qtype)
      case None => if NamesPartOf(p.bonusNames, tensor) then Some(p.bonusType) else None
  {
    hide FirstType, AnyFinds, NamesPartOf, RulesFor, Escaped;
    FirstOfConcat(p.pins, RulesFor(Escaped(p.bonusNames), p.bonusType), tensor);
    FirstOfSameType(Escaped(p.bonusNames), p.bonusType, tensor);
    EscapedNamesFind(p.bonusNames, tensor);
  }

  /** The first matching rule among the flags is the one the preset's pins, bonus names and families describe. */
  lemma FlagsDecide(p: Preset, name: string, tensor: string)
    requires '=' !in p.bonusType && PlainTypes(p.families)
    ensures CompiledType(p, name, tensor) == MappedType(FlagDecision(p, tensor))
  {
    var cfg := ConfigOf(p, name);
    FlagsCarryTheRules(cfg);
    OverridesFind(p, tensor);
    assert RulesOf(cfg) == MappedRules(p.Overrides()) + FamilyRules(p.families) by {
      hide MappedRules, FamilyRules, p.Overrides;
    }
    hide TensorRules, HeadFlags, TypeFlags, RulesOf, MappedRules, FamilyRules, FirstType, MapType, NamesPartOf, p.Overrides;
    FirstOfConcat(MappedRules(p.Overrides()), FamilyRules(p.families), tensor);
    MappingKeepsMatches(p.Overrides(), tensor);
    FirstOfFamilies(p.families, tensor);
  }

  // ---------------------------------------------------------------- reading the rules back

  const BLOCK := "blk."
  const ESCAPED_BLOCK := "blk\\."

  predicate EndsWith(s: string, suffix: string) {
    |suffix| <= |s| && s[|s| - |suffix|..] == suffix
  }

  function Chop(s: string, suffix: string): string {
    if |suffix| <= |s| then s[..|s| - |suffix|] else s
  }

  predicate IsExact(rule: string, suffix: string) {
    EndsWith(rule, suffix) && ESCAPED_BLOCK <= rule
  }

  predicate IsPin(rule: string, suffix: string) {
    EndsWith(rule, suffix) && !(ESCAPED_BLOCK <= rule)
  }

  function ExactNames(rules: seq<string>, suffix: string): set<string> {
    set r | r in rules && IsExact(r, suffix) :: Unescape(Chop(r, suffix))
  }

  function PinPatterns(rules: seq<string>, suffix: string): seq<string> {
    if rules == [] then []
    else if IsPin(rules[|rules| - 1], suffix) then
      PinPatterns(rules[..|rules| - 1], suffix) + [Chop(rules[|rules| - 1], suffix)]
    else PinPatterns(rules[..|rules| - 1], suffix)
  }

  /** The re-classification in `_screen_custom_builder_once`. */
  method ReadBack(rules: seq<string>, topType: string) returns (names: set<string>, pins: seq<string>)
    ensures names == ExactNames(rules, "=" + topType) && pins == PinPatterns(rules, "=" + topType)
  {
    var suffix := "=" + topType;
    hide Unescape, IsExact, IsPin, Chop;
    names, pins := {}, [];
    for j := 0 to |rules|
      invariant names == ExactNames(rules[..j], suffix)
    {
      assert rules[..j + 1] == rules[..j] + [rules[j]];
      if IsExact(rules[j], suffix) {
        names := names + {Unescape(Chop(rules[j], suffix))};
      }
    }
    for j := 0 to |rules|
      invariant pins == PinPatterns(rules[..j], suffix)
    {
      assert rules[..j + 1][..j] == rules[..j] && rules[..j + 1][j] == rules[j];
      if IsPin(rules[j], suffix) {
        pins := pins + [Chop(rules[j], suffix)];
      }
    }
    assert rules[..|rules|] == rules;
  }

  lemma {:induction false} PatternsOfPins(rules: seq<string>, suffix: string)
    ensures forall x :: x in PinPatterns(rules, suffix) <==> exists r :: r in rules && IsPin(r, suffix) && Chop(r, suffix) == x
  {
    hide IsPin, Chop;
    if rules != [] {
      PatternsOfPins(rules[..|rules| - 1], suffix);
      assert rules == rules[..|rules| - 1] + [rules[|rules| - 1]];
    }
  }

  lemma RuleEnds(pattern: string, qtype: string)
    ensures var rule, suffix := Rule(pattern, qtype), "=" + qtype;
      EndsWith(rule, suffix) && Chop(rule, suffix) == pattern && (ESCAPED_BLOCK <= rule <==> ESCAPED_BLOCK <= pattern)
  {
    var rule, suffix := Rule(pattern, qtype), "=" + qtype;
    assert rule == pattern + suffix;
    assert '=' !in ESCAPED_BLOCK;
    assert rule[|pattern|] == '=';
    assert |pattern| < |ESCAPED_BLOCK| <= |rule| ==> rule[..|ESCAPED_BLOCK|][|pattern|] == '=';
  }

  lemma EscapeOfBlock()
    ensures Escape(BLOCK) == ESCAPED_BLOCK
  {
    DotAndBackslashAreSpecial();
    LettersArePlain('b');
    LettersArePlain('l');
    LettersArePlain('k');
    hide IsSpecial;
    assert EscapeChar('b') == "b" && EscapeChar('l') == "l" && EscapeChar('k') == "k" && EscapeChar('.') == "\\.";
    assert Escape("") == "";
    hide EscapeChar, Escape;
    var dot := ['.'] + "";
    var k := ['k'] + dot;
    var l := ['l'] + k;
    EscapeOfCons('.', "");
    EscapeOfCons('k', dot);
    EscapeOfCons('l', k);
    EscapeOfCons('b', l);
    assert BLOCK == ['b'] + l;
  }

  /** Exactly the names below `blk.` are written as rules below `blk\\.`. */
  lemma EscapedBlock(name: string)
    ensures ESCAPED_BLOCK <= Escape(name) <==> BLOCK <= name
  {
    EscapeKeepsPrefixes(BLOCK, name);
    EscapeOfBlock();
    hide Escape;
  }

  /** The bonus tensors below `blk.`, which the builder takes for exact names. */
  function BlockNames(p: Preset): set<string> {
    set n | n in p.bonusNames && BLOCK <= n
  }

  predicate PinsAreBroad(p: Preset) {
    forall k :: 0 <= k < |p.pins| ==> !(ESCAPED_BLOCK <= p.pins[k])
  }

  /** Every rule of a preset is a pin or the exact rule of a bonus tensor. */
  lemma RulesOfPreset(p: Preset, rule: string)
    ensures rule in p.Overrides() <==>
      rule in p.pins || exists n :: n in p.bonusNames && rule == Rule(Escape(n), p.bonusType)
  {
    hide Rule, Escape;
    var bonus := RulesFor(Escaped(p.bonusNames), p.bonusType);
    assert p.Overrides() == p.pins + bonus;
    forall n | n in p.bonusNames ensures Rule(Escape(n), p.bonusType) in bonus {
      var k :| 0 <= k < |p.bonusNames| && p.bonusNames[k] == n;
      assert bonus[k] == Rule(Escape(n), p.bonusType);
    }
    if rule in bonus {
      var k :| 0 <= k < |bonus| && bonus[k] == rule;
      assert Escaped(p.bonusNames)[k] == Escape(p.bonusNames[k]) && p.bonusNames[k] in p.bonusNames;
    }
  }

  lemma ExactRulesAreBlockNames(p: Preset, x: string)
    requires PinsAreBroad(p)
    ensures x in ExactNames(p.Overrides(), "=" + p.bonusType) <==> exists n :: n in BlockNames(p) && x == Unescape(Escape(n))
  {
    var rules, suffix := p.Overrides(), "=" + p.bonusType;
    hide Rule, Escape, Unescape, Chop, EndsWith, p.Overrides;
    if x in ExactNames(rules, suffix) {
      var r :| r in rules && IsExact(r, suffix) && x == Unescape(Chop(r, suffix));
      RulesOfPreset(p, r);
      assert r !in p.pins;
      var n :| n in p.bonusNames && r == Rule(Escape(n), p.bonusType);
      RuleEnds(Escape(n), p.bonusType);
      EscapedBlock(n);
      assert n in BlockNames(p);
    }
    if n :| n in BlockNames(p) && x == Unescape(Escape(n)) {
      var r := Rule(Escape(n), p.bonusType);
      RulesOfPreset(p, r);
      RuleEnds(Escape(n), p.bonusType);
      EscapedBlock(n);
      assert IsExact(r, suffix) && r in rules;
    }
  }

  /** The builder recovers exactly the bonus tensors below `blk.`, unless one of their names holds a backslash. */
  lemma BlockNamesRecovered(p: Preset)
    requires PinsAreBroad(p)
    ensures ExactNames(p.Overrides(), "=" + p.bonusType) == BlockNames(p) <==> forall n :: n in BlockNames(p) ==> '\\' !in n
  {
    var found := ExactNames(p.Overrides(), "=" + p.bonusType);
    forall x ensures x in found <==> exists n :: n in BlockNames(p) && x == Unescape(Escape(n)) {
      ExactRulesAreBlockNames(p, x);
    }
    forall n ensures Unescape(Escape(n)) == n <==> '\\' !in n
             ensures '\\' !in Unescape(Escape(n)) {
      UnescapeRecovers(n);
    }
    hide ExactNames, Unescape, Escape, BlockNames;
    if forall n :: n in BlockNames(p) ==> '\\' !in n {
      forall x ensures x in found <==> x in BlockNames(p) {
        if x in BlockNames(p) {
          assert x == Unescape(Escape(x));
        }
      }
    } else {
      var n :| n in BlockNames(p) && '\\' in n;
      assert n !in found;
    }
  }

  // ---------------------------------------------------------------- what the estimate assumes

  datatype Plan = Plan(families: FamilyTypes, topNames: set<string>, pins: seq<string>, base: string,
                       embeddings: bool, topType: string, preserved: set<string>)

  predicate IsEmbedding(tensor: string) {
    FamilyOf(tensor) in ["token_embd", "output"]
  }

  /** The type `_estimate_preset_size` gives one tensor. */
  function EstimateType(plan: Plan, tensor: string): string {
    var own := TypeFor(plan.families, FamilyOf(tensor));
    if tensor in plan.preserved then "F16"
    else if plan.embeddings && IsEmbedding(tensor) then plan.topType
    else if AnyFinds(plan.pins, tensor) then plan.topType
    else if tensor in plan.topNames then plan.topType
    else if own.Some? && IsExplicit(own.value) then own.value
    else plan.base
  }

  /** The plan the builder estimates for a preset of its own. */
  function PlanOf(p: Preset): Plan {
    var suffix := "=" + p.bonusType;
    Plan(p.families, ExactNames(p.Overrides(), suffix), PinPatterns(p.Overrides(), suffix), p.base, true, p.bonusType, {})
  }

  /** Bonus names outside `blk.`, which the builder takes for pins. */
  predicate LooseNameIn(p: Preset, tensor: string) {
    exists k :: 0 <= k < |p.bonusNames| && !(BLOCK <= p.bonusNames[k]) && Contains(tensor, p.bonusNames[k])
  }

  predicate TopPinIn(pins: seq<string>, topType: string, tensor: string) {
    exists k :: 0 <= k < |pins| && IsFoundAs(pins[k], topType, tensor)
  }

  /** A rule for that type whose pattern is found. */
  predicate IsFoundAs(rule: string, qtype: string, tensor: string) {
    EndsWith(rule, "=" + qtype) && Search(Chop(rule, "=" + qtype), tensor)
  }

  /** A pin with the bonus type is found in the tensor's name; pins with other types are no part of the estimate. */
  predicate TopPinFound(p: Preset, tensor: string) {
    TopPinIn(p.pins, p.bonusType, tensor)
  }

  /** What is found among the patterns read back was a pin or a loose name. */
  lemma PinWasThere(p: Preset, tensor: string)
    requires AnyFinds(PinPatterns(p.Overrides(), "=" + p.bonusType), tensor)
    ensures TopPinFound(p, tensor) || LooseNameIn(p, tensor)
  {
    var rules, suffix := p.Overrides(), "=" + p.bonusType;
    var patterns := PinPatterns(rules, suffix);
    PatternsOfPins(rules, suffix);
    hide Rule, Escape, Chop, EndsWith, p.Overrides, Search, Contains, PinPatterns;
    var k :| 0 <= k < |patterns| && Search(patterns[k], tensor);
    assert patterns[k] in patterns;
    var r :| r in rules && IsPin(r, suffix) && Chop(r, suffix) == patterns[k];
    RulesOfPreset(p, r);
    hide PinPatterns, AnyFinds;
    if r in p.pins {
      assert IsFoundAs(r, p.bonusType, tensor);
    } else {
      var n :| n in p.bonusNames && r == Rule(Escape(n), p.bonusType);
      RuleEnds(Escape(n), p.bonusType);
      EscapedBlock(n);
      EscapedFindsContaining(n, tensor);
    }
  }

  lemma TopPinIsThere(p: Preset, tensor: string)
    requires PinsAreBroad(p) && TopPinFound(p, tensor)
    ensures AnyFinds(PinPatterns(p.Overrides(), "=" + p.bonusType), tensor)
  {
    hide Search, EndsWith, Chop, PinPatterns, AnyFinds, p.Overrides;
    var k :| 0 <= k < |p.pins| && IsFoundAs(p.pins[k], p.bonusType, tensor);
    PinIsThere(p, p.pins[k], tensor);
  }

  lemma LooseNameIsThere(p: Preset, tensor: string)
    requires LooseNameIn(p, tensor)
    ensures AnyFinds(PinPatterns(p.Overrides(), "=" + p.bonusType), tensor)
  {
    hide Search, EndsWith, Chop, PinPatterns, AnyFinds, p.Overrides, Contains, Escape, Rule;
    var k :| 0 <= k < |p.bonusNames| && !(BLOCK <= p.bonusNames[k]) && Contains(tensor, p.bonusNames[k]);
    EscapedBlock(p.bonusNames[k]);
    EscapedFindsContaining(p.bonusNames[k], tensor);
    RuleEnds(Escape(p.bonusNames[k]), p.bonusType);
    PinIsThere(p, Rule(Escape(p.bonusNames[k]), p.bonusType), tensor);
  }

  lemma PinsReadBack(p: Preset, tensor: string)
    requires PinsAreBroad(p)
    ensures AnyFinds(PinPatterns(p.Overrides(), "=" + p.bonusType), tensor) <==> TopPinFound(p, tensor) || LooseNameIn(p, tensor)
  {
    hide *;
    if AnyFinds(PinPatterns(p.Overrides(), "=" + p.bonusType), tensor) {
      PinWasThere(p, tensor);
    }
    if TopPinFound(p, tensor) {
      TopPinIsThere(p, tensor);
    }
    if LooseNameIn(p, tensor) {
      LooseNameIsThere(p, tensor);
    }
  }

  lemma PinIsThere(p: Preset, rule: string, tensor: string)
    requires rule in p.pins || exists n :: n in p.bonusNames && rule == Rule(Escape(n), p.bonusType)
    requires IsPin(rule, "=" + p.bonusType) && Search(Chop(rule, "=" + p.bonusType), tensor)
    ensures AnyFinds(PinPatterns(p.Overrides(), "=" + p.bonusType), tensor)
  {
    var rules, suffix := p.Overrides(), "=" + p.bonusType;
    PatternsOfPins(rules, suffix);
    RulesOfPreset(p, rule);
    hide Rule, Escape, Chop, EndsWith, p.Overrides, Search, PinPatterns;
    assert Chop(rule, suffix) in PinPatterns(rules, suffix);
  }

  /** A rule that ends in a type is that type's rule for what stands before. */
  lemma EndsWithItsType(rule: string, qtype: string)
    requires EndsWith(rule, "=" + qtype) && '=' !in qtype
    ensures rule == Rule(Chop(rule, "=" + qtype), qtype)
    ensures LastEquals(rule) == |Chop(rule, "=" + qtype)|
  {
    var pattern := Chop(rule, "=" + qtype);
    assert rule == pattern + ("=" + qtype);
    assert Rule(pattern, qtype) == pattern + ("=" + qtype);
    SplitRule(pattern, qtype);
  }

  lemma FirstTypeOfCons(rule: string, rest: seq<string>, tensor: string)
    ensures var k := LastEquals(rule);
      FirstType([rule] + rest, tensor) ==
        if k >= 0 && Search(rule[..k], tensor) then Some(rule[k + 1..]) else FirstType(rest, tensor)
  {
    hide LastEquals, Search;
    assert ([rule] + rest)[1..] == rest;
  }

  lemma TopPinOfCons(rule: string, rest: seq<string>, topType: string, tensor: string)
    ensures TopPinIn([rule] + rest, topType, tensor) <==> IsFoundAs(rule, topType, tensor) || TopPinIn(rest, topType, tensor)
  {
    hide IsFoundAs;
    var pins := [rule] + rest;
    assert pins[0] == rule && forall k :: 0 <= k < |rest| ==> rest[k] == pins[k + 1];
  }

  /** If a pin with the bonus type is found, then some pin is found first; if the first found has the bonus type, it is one. */
  lemma {:induction false} FirstPinFound(pins: seq<string>, qtype: string, tensor: string)
    requires '=' !in qtype
    ensures TopPinIn(pins, qtype, tensor) ==> FirstType(pins, tensor).Some?
    ensures FirstType(pins, tensor) == Some(qtype) ==> TopPinIn(pins, qtype, tensor)
  {
    if pins != [] {
      hide FirstType, TopPinIn, IsFoundAs, LastEquals, Search;
      var rule, rest := pins[0], pins[1..];
      assert pins == [rule] + rest;
      FirstPinFound(rest, qtype, tensor);
      PinAlone(rule, qtype, tensor);
      FirstTypeOfCons(rule, rest, tensor);
      TopPinOfCons(rule, rest, qtype, tensor);
    }
  }

  lemma EndsInType(rule: string, qtype: string, k: nat)
    requires k < |rule| && rule[k] == '=' && rule[k + 1..] == qtype
    ensures EndsWith(rule, "=" + qtype) && Chop(rule, "=" + qtype) == rule[..k]
  {
    assert rule[k..] == "=" + qtype;
  }

  lemma TypeOfEnding(rule: string, qtype: string)
    requires EndsWith(rule, "=" + qtype) && '=' !in qtype
    ensures var k := LastEquals(rule); k >= 0 && rule[k + 1..] == qtype && Chop(rule, "=" + qtype) == rule[..k]
  {
    EndsWithItsType(rule, qtype);
    var pattern := Chop(rule, "=" + qtype);
    hide *;
    SplitRule(pattern, qtype);
  }

  /** That type stands behind the rule's last `=`, and what stands before is found. */
  predicate TypeStandsBehind(rule: string, qtype: string, tensor: string) {
    LastEquals(rule) >= 0 && rule[LastEquals(rule) + 1..] == qtype && Search(rule[..LastEquals(rule)], tensor)
  }

  lemma FoundHasItsType(rule: string, qtype: string, tensor: string)
    requires '=' !in qtype && IsFoundAs(rule, qtype, tensor)
    ensures TypeStandsBehind(rule, qtype, tensor)
  {
    TypeOfEnding(rule, qtype);
    hide LastEquals, Search, EndsWith, Chop;
  }

  lemma TypeIsFound(rule: string, qtype: string, tensor: string)
    requires TypeStandsBehind(rule, qtype, tensor)
    ensures IsFoundAs(rule, qtype, tensor)
  {
    EndsInType(rule, qtype, LastEquals(rule));
    hide LastEquals, Search, EndsWith, Chop;
  }

  /** One pin is found as the bonus type's exactly when that type stands behind its last `=` and the rest is found. */
  lemma PinAlone(rule: string, qtype: string, tensor: string)
    requires '=' !in qtype
    ensures IsFoundAs(rule, qtype, tensor) <==> TypeStandsBehind(rule, qtype, tensor)
  {
    hide *;
    if IsFoundAs(rule, qtype, tensor) {
      FoundHasItsType(rule, qtype, tensor);
    }
    if TypeStandsBehind(rule, qtype, tensor) {
      TypeIsFound(rule, qtype, tensor);
    }
  }

  /** The entry of a tensor's own family, if it names a type. */
  function OwnFamily(fq: FamilyTypes, fam: string): Option<(string, string)> {
    if fq == [] then None
    else if fq[0].0 == fam then (if IsExplicit(fq[0].1) then Some(fq[0]) else None)
    else OwnFamily(fq[1..], fam)
  }

  lemma {:induction false} OwnFamilyHasTheType(fq: FamilyTypes, fam: string)
    ensures var own := TypeFor(fq, fam);
      OwnFamily(fq, fam) == if own.Some? && IsExplicit(own.value) then Some((fam, own.value)) else None
  {
    hide IsExplicit;
    if fq != [] && fq[0].0 != fam {
      OwnFamilyHasTheType(fq[1..], fam);
    }
  }

  predicate TopByName(p: Preset, tensor: string) {
    TopPinFound(p, tensor) || tensor in p.bonusNames || LooseNameIn(p, tensor)
  }

  /** What the estimate decides: the tensor's own name and its own family, with pins and loose names as patterns. */
  function EstimateDecision(p: Preset, tensor: string): Decision {
    if TopByName(p, tensor) then ByType(p.bonusType) else FamilyDecision(OwnFamily(p.families, FamilyOf(tensor)))
  }

  function DecidedType(d: Decision, p: Preset): string {
    match d
    case ByType(qtype) => qtype
    case Family(entry) => entry.1
    case ByBase => p.base
  }

  lemma EstimateDecides(p: Preset, tensor: string)
    requires PinsAreBroad(p) && (forall n :: n in BlockNames(p) ==> '\\' !in n) && !IsEmbedding(tensor)
    ensures EstimateType(PlanOf(p), tensor) == DecidedType(EstimateDecision(p, tensor), p)
  {
    BlockNamesRecovered(p);
    PinsReadBack(p, tensor);
    OwnFamilyHasTheType(p.families, FamilyOf(tensor));
    ContainsItself(tensor);
    hide ExactNames, PinPatterns, OwnFamily, TypeFor, IsExplicit, p.Overrides, FamilyOf, Contains, AnyFinds, TopPinFound;
    assert tensor in p.bonusNames && !(BLOCK <= tensor) ==> LooseNameIn(p, tensor);
  }

  lemma ContainsItself(name: string)
    ensures Contains(name, name)
  {
    assert name <= name[0..];
  }

  // ---------------------------------------------------------------- when they agree

  predicate Matches(entry: (string, string), tensor: string) {
    IsExplicit(entry.1) && FamilyFound(entry.0, tensor)
  }

  predicate IsOwn(entry: (string, string), tensor: string) {
    IsExplicit(entry.1) && entry.0 == FamilyOf(tensor)
  }

  /** No listed family gets at the tensor before its own does, and its own does. */
  predicate OwnFamilyFirst(fq: FamilyTypes, tensor: string) {
    && (forall k :: 0 <= k < |fq| && IsOwn(fq[k], tensor) ==> Matches(fq[k], tensor))
    && (forall k :: 0 <= k < |fq| && Matches(fq[k], tensor) ==> exists j :: 0 <= j <= k && IsOwn(fq[j], tensor))
  }

  /** The first pin found has the bonus type; or none is found, and nothing but the tensor's own name and its own family
      stands for it among the other rules. */
  predicate Unshadowed(p: Preset, tensor: string) {
    match FirstType(p.pins, tensor)
    case Some(qtype) => qtype == p.bonusType
    case None =>
      || tensor in p.bonusNames || LooseNameIn(p, tensor)
      || (!NamesPartOf(p.bonusNames, tensor) && OwnFamilyFirst(p.families, tensor))
  }

  lemma {:induction false} FirstFamilyIsLeast(fq: FamilyTypes, tensor: string)
    ensures match FirstFamily(fq, tensor)
      case None => forall k :: 0 <= k < |fq| ==> !Matches(fq[k], tensor)
      case Some(e) => exists k :: 0 <= k < |fq| && fq[k] == e && Matches(e, tensor) && forall j :: 0 <= j < k ==> !Matches(fq[j], tensor)
  {
    hide IsExplicit, Contains;
    if fq != [] && !Matches(fq[0], tensor) {
      var rest := fq[1..];
      FirstFamilyIsLeast(rest, tensor);
      if FirstFamily(rest, tensor).Some? {
        var k :| 0 <= k < |rest| && rest[k] == FirstFamily(rest, tensor).value && Matches(rest[k], tensor)
          && forall j :: 0 <= j < k ==> !Matches(rest[j], tensor);
        assert fq[k + 1] == rest[k];
        assert forall j :: 0 < j < k + 1 ==> fq[j] == rest[j - 1];
      } else {
        assert forall j :: 0 < j < |fq| ==> fq[j] == rest[j - 1];
      }
    }
  }

  lemma {:induction false} OwnFamilyIsListed(fq: FamilyTypes, tensor: string)
    requires DistinctKeys(fq)
    ensures match OwnFamily(fq, FamilyOf(tensor))
      case None => forall k :: 0 <= k < |fq| ==> !IsOwn(fq[k], tensor)
      case Some(e) => e in fq && IsOwn(e, tensor)
  {
    hide IsExplicit, FamilyOf;
    if fq != [] {
      OwnFamilyIsListed(fq[1..], tensor);
      assert forall j :: 0 < j < |fq| ==> fq[j] == fq[1..][j - 1];
    }
  }

  lemma OwnIsUnique(fq: FamilyTypes, tensor: string, i: nat, j: nat)
    requires DistinctKeys(fq) && i < |fq| && j < |fq| && IsOwn(fq[i], tensor) && IsOwn(fq[j], tensor)
    ensures i == j
  {
    hide FamilyOf, IsExplicit;
  }

  /** The position of the first family that matches. */
  lemma FirstMatch(fq: FamilyTypes, tensor: string) returns (k: nat)
    requires FirstFamily(fq, tensor).Some?
    ensures k < |fq| && fq[k] == FirstFamily(fq, tensor).value && Matches(fq[k], tensor)
    ensures forall j :: 0 <= j < k ==> !Matches(fq[j], tensor)
  {
    FirstFamilyIsLeast(fq, tensor);
    hide *;
    k :| 0 <= k < |fq| && fq[k] == FirstFamily(fq, tensor).value && Matches(fq[k], tensor) && forall j :: 0 <= j < k ==> !Matches(fq[j], tensor);
  }

  lemma OwnIsAt(fq: FamilyTypes, tensor: string, j: nat)
    requires DistinctKeys(fq) && j < |fq| && IsOwn(fq[j], tensor)
    ensures OwnFamily(fq, FamilyOf(tensor)) == Some(fq[j])
  {
    OwnFamilyIsListed(fq, tensor);
    hide OwnFamily, FamilyOf, IsOwn, DistinctKeys;
    var o :| 0 <= o < |fq| && fq[o] == OwnFamily(fq, FamilyOf(tensor)).value;
    OwnIsUnique(fq, tensor, o, j);
  }

  lemma OwnFirstIsFound(fq: FamilyTypes, tensor: string)
    requires DistinctKeys(fq) && OwnFamilyFirst(fq, tensor)
    ensures FirstFamily(fq, tensor) == OwnFamily(fq, FamilyOf(tensor))
  {
    hide FirstFamily, OwnFamily, FamilyOf, Matches, IsOwn, DistinctKeys;
    if FirstFamily(fq, tensor).Some? {
      var k := FirstMatch(fq, tensor);
      var j :| 0 <= j <= k && IsOwn(fq[j], tensor);
      OwnIsAt(fq, tensor, j);
    } else {
      FirstFamilyIsLeast(fq, tensor);
      OwnFamilyIsListed(fq, tensor);
    }
  }

  lemma FoundIsOwnFirst(fq: FamilyTypes, tensor: string)
    requires DistinctKeys(fq) && FirstFamily(fq, tensor) == OwnFamily(fq, FamilyOf(tensor))
    ensures OwnFamilyFirst(fq, tensor)
  {
    OwnFamilyIsListed(fq, tensor);
    FirstFamilyIsLeast(fq, tensor);
    hide FirstFamily, OwnFamily, FamilyOf, Contains, IsExplicit, Matches, IsOwn, DistinctKeys;
    if FirstFamily(fq, tensor).Some? {
      var k := FirstMatch(fq, tensor);
      forall j | 0 <= j < |fq| && IsOwn(fq[j], tensor) ensures j == k {
        OwnIsUnique(fq, tensor, j, k);
      }
    }
  }

  /** The first family that matches is the tensor's own exactly when its own comes first. */
  lemma FamiliesAgree(fq: FamilyTypes, tensor: string)
    requires DistinctKeys(fq)
    ensures FirstFamily(fq, tensor) == OwnFamily(fq, FamilyOf(tensor)) <==> OwnFamilyFirst(fq, tensor)
  {
    hide *;
    if OwnFamilyFirst(fq, tensor) {
      OwnFirstIsFound(fq, tensor);
    }
    if FirstFamily(fq, tensor) == OwnFamily(fq, FamilyOf(tensor)) {
      FoundIsOwnFirst(fq, tensor);
    }
  }

  /** Flags and estimate decide a tensor the same way exactly when nothing shadows it. */
  lemma DecisionsAgree(p: Preset, tensor: string)
    requires DistinctKeys(p.families) && '=' !in p.bonusType
    ensures FlagDecision(p, tensor) == EstimateDecision(p, tensor) <==> Unshadowed(p, tensor)
  {
    FamiliesAgree(p.families, tensor);
    ContainsItself(tensor);
    FirstPinFound(p.pins, p.bonusType, tensor);
    hide FirstFamily, OwnFamily, OwnFamilyFirst, FamilyOf, Contains, FirstType, EndsWith, Chop, Search;
    if tensor in p.bonusNames {
      var k :| 0 <= k < |p.bonusNames| && p.bonusNames[k] == tensor;
      assert Contains(tensor, p.bonusNames[k]);
    }
  }

  /** The rule found gives the estimated type, up to the type map; no rule is found only for the base type. */
  predicate QuantizedAsEstimated(p: Preset, name: string, tensor: string) {
    match CompiledType(p, name, tensor)
    case Some(qtype) => qtype == MapType(EstimateType(PlanOf(p), tensor))
    case None => EstimateType(PlanOf(p), tensor) == p.base
  }

  /** The two decisions, the same or not, come to one type: the same one up to the type map, or the base without a rule. */
  predicate SameTypeAnyway(p: Preset, tensor: string) {
    var estimated := DecidedType(EstimateDecision(p, tensor), p);
    match FlagDecision(p, tensor)
    case ByType(qtype) => MapType(qtype) == MapType(estimated)
    case Family(entry) => MapType(entry.1) == MapType(estimated)
    case ByBase => estimated == p.base
  }

  /** Compiling keeps a tensor's type, up to the type map, exactly when the tensor is unshadowed or what shadows it names
      the same type. */
  lemma CompilingKeepsMeaning(p: Preset, name: string, tensor: string)
    requires '=' !in p.bonusType && PlainTypes(p.families) && DistinctKeys(p.families)
    requires PinsAreBroad(p) && (forall n :: n in BlockNames(p) ==> '\\' !in n) && !IsEmbedding(tensor)
    ensures QuantizedAsEstimated(p, name, tensor) <==> Unshadowed(p, tensor) || SameTypeAnyway(p, tensor)
  {
    FlagsDecide(p, name, tensor);
    EstimateDecides(p, tensor);
    DecisionsAgree(p, tensor);
    hide CompiledType, EstimateType, FlagDecision, EstimateDecision, MapType, PlanOf, Unshadowed;
  }

  /** What keeps a tensor apart from the rest of a preset: the pin found in its name, if any, has the bonus type, and no
      other bonus name and no other family is in its name. */
  predicate StandsApart(p: Preset, tensor: string) {
    && (match FirstType(p.pins, tensor) case Some(qtype) => qtype == p.bonusType case None => true)
    && (forall k :: 0 <= k < |p.bonusNames| && Contains(tensor, p.bonusNames[k]) ==> p.bonusNames[k] == tensor)
    && (forall k :: 0 <= k < |p.families| ==> (Matches(p.families[k], tensor) <==> IsOwn(p.families[k], tensor)))
  }

  /** A family without characters that mean something in a pattern is found in its tensors' names, unless it is `_other`. */
  lemma OwnFamilyIsFound(tensor: string)
    requires Plain(FamilyOf(tensor)) && FamilyOf(tensor) != OTHER
    ensures FamilyFound(FamilyOf(tensor), tensor)
  {
    NameContainsItsFamily(tensor);
    hide FamilyOf, Contains, Plain, FamilyFound;
    PlainFamilyFound(FamilyOf(tensor), tensor);
  }

  lemma StandingApartIsUnshadowed(p: Preset, tensor: string)
    requires StandsApart(p, tensor)
    ensures Unshadowed(p, tensor)
  {
    hide FamilyOf, FamilyFound, Contains, FirstType, LooseNameIn;
  }

  /** When every tensor stands apart, the whole model is quantized as estimated. */
  lemma WholePresetKeepsMeaning(p: Preset, name: string, tensors: seq<string>)
    requires '=' !in p.bonusType && PlainTypes(p.families) && DistinctKeys(p.families)
    requires PinsAreBroad(p) && forall n :: n in BlockNames(p) ==> '\\' !in n
    requires forall k :: 0 <= k < |tensors| ==> StandsApart(p, tensors[k])
    ensures forall k :: 0 <= k < |tensors| && !IsEmbedding(tensors[k]) ==> QuantizedAsEstimated(p, name, tensors[k])
  {
    forall k | 0 <= k < |tensors| && !IsEmbedding(tensors[k])
      ensures QuantizedAsEstimated(p, name, tensors[k])
    {
      hide *;
      StandingApartIsUnshadowed(p, tensors[k]);
      CompilingKeepsMeaning(p, name, tensors[k]);
    }
  }

  predicate StartsBroad(s: string) {
    s != "" && s[0] != 'b'
  }

  lemma PinPatternsAreBroad()
    ensures forall k :: 0 <= k < |PIN_PATTERNS| ==> StartsBroad(PIN_PATTERNS[k])
  {
    forall k | 0 <= k < |PIN_PATTERNS| ensures StartsBroad(PIN_PATTERNS[k]) {
      assert k == 0 || k == 1 || k == 2 || k == 3 || k == 4 || k == 5;
    }
  }

  lemma BroadRules(p: Preset, patterns: seq<string>)
    requires forall k :: 0 <= k < |patterns| ==> StartsBroad(patterns[k])
    requires p.pins == RulesFor(patterns, p.bonusType)
    ensures PinsAreBroad(p)
  {
    hide PIN_PATTERNS;
    forall k | 0 <= k < |p.pins| ensures !(ESCAPED_BLOCK <= p.pins[k]) {
      assert StartsBroad(patterns[k]) && p.pins[k] == Rule(patterns[k], p.bonusType);
      assert p.pins[k][0] == patterns[k][0] != ESCAPED_BLOCK[0];
    }
  }

  lemma NoPinsAtAll(p: Preset, tensor: string)
    requires p.pins == []
    ensures PinsAreBroad(p) && FirstType(p.pins, tensor) == None
  {
  }

  /** The pins the emitter ships are broad, so they are never taken for exact names, and all have the bonus type. */
  lemma ShippedPinsAreBroad(p: Preset, tensor: string)
    requires '=' !in p.bonusType && (p.pins == RulesFor(PIN_PATTERNS, p.bonusType) || p.pins == [])
    ensures PinsAreBroad(p)
    ensures FirstType(p.pins, tensor).Some? ==> FirstType(p.pins, tensor).value == p.bonusType
  {
    hide *;
    if p.pins == RulesFor(PIN_PATTERNS, p.bonusType) {
      PinPatternsAreBroad();
      BroadRules(p, PIN_PATTERNS);
      FirstOfSameType(PIN_PATTERNS, p.bonusType, tensor);
    } else {
      NoPinsAtAll(p, tensor);
    }
  }

  /** A type chosen for `_other` is estimated for the tensors without a family of their own, but its flag decides none of
      them unless its name and a dot happen to be in theirs. */
  lemma OtherFamilyIsNotCompiled(p: Preset, tensor: string, k: nat)
    requires DistinctKeys(p.families) && k < |p.families| && p.families[k].0 == OTHER && IsExplicit(p.families[k].1)
    requires FamilyOf(tensor) == OTHER && !TopByName(p, tensor) && !Contains(tensor, OTHER + ".")
    ensures EstimateDecision(p, tensor) == Family(p.families[k])
    ensures FlagDecision(p, tensor) != Family(p.families[k])
  {
    OtherIsPlain();
    PlainFamilyFound(OTHER, tensor);
    OwnIsAt(p.families, tensor, k);
    FirstFamilyIsLeast(p.families, tensor);
    hide FamilyOf, FamilyFound, Contains, TopByName, FirstType, NamesPartOf, FirstFamily, OwnFamily, IsExplicit;
  }

  // ---------------------------------------------------------------- families in each other's way

  lemma {:induction false} LastSegmentAfterDot(head: string, segment: string)
    requires '.' !in segment
    ensures LastSegment(head + "." + segment) == segment
  {
    var s := head + "." + segment;
    if segment != [] {
      assert s[..|s| - 1] == head + "." + segment[..|segment| - 1];
      LastSegmentAfterDot(head, segment[..|segment| - 1]);
    }
  }

  lemma FamilyOfWeight(head: string, segment: string)
    requires '.' !in segment && segment != ""
    ensures FamilyOf(head + "." + segment + ".weight") == segment
  {
    var stem := head + "." + segment;
    LastSegmentAfterDot(head, segment);
    hide LastSegment;
    assert Without(stem + ".weight", ".weight") == Some(stem);
  }

  predicate DisagreeOn(p: Preset, tensor: string, flagged: string, estimated: string) {
    CompiledType(p, "custom", tensor) == Some(flagged) && EstimateType(PlanOf(p), tensor) == estimated
  }

  lemma TwoFamilies(first: (string, string), own: (string, string), tensor: string)
    requires Matches(first, tensor) && IsOwn(own, tensor) && first.0 != own.0
    ensures FirstFamily([first, own], tensor) == Some(first) && OwnFamily([first, own], FamilyOf(tensor)) == Some(own)
  {
    hide FamilyOf, IsExplicit, Contains;
    assert [first, own][1..] == [own];
  }

  /** Two families, the first of which is found in the tensor's name while the second is its own. */
  lemma EarlierFamilyWins(p: Preset, first: (string, string), own: (string, string), tensor: string)
    requires p.pins == [] && p.bonusNames == [] && '=' !in p.bonusType && p.families == [first, own]
    requires PlainTypes(p.families) && first.0 != own.0 && !IsEmbedding(tensor)
    requires Matches(first, tensor) && IsOwn(own, tensor)
    ensures DisagreeOn(p, tensor, MapType(first.1), own.1)
  {
    TwoFamilies(first, own, tensor);
    hide FamilyOf, PlainTypes, CompiledType, EstimateType, PlanOf, MapType, FirstFamily, OwnFamily, IsEmbedding, IsOwn, Matches;
    assert BlockNames(p) == {};
    FlagsDecide(p, "custom", tensor);
    EstimateDecides(p, tensor);
  }

  /** A family whose name ends another family's takes its tensors. */
  lemma SuffixFamilyShadows()
    ensures DisagreeOn(Preset("Q4_K_M", [], [], "F16", [("gate", "Q8_0"), ("ffn_gate", "Q6_K")]), "blk.0.ffn_gate.weight", "Q8_0", "Q6_K")
  {
    var p := Preset("Q4_K_M", [], [], "F16", [("gate", "Q8_0"), ("ffn_gate", "Q6_K")]);
    var tensor := "blk.0.ffn_gate.weight";
    PlainNames();
    TypesArePlain();
    FfnGateName();
    hide *;
    FamilyOfWeight("blk.0", "ffn_gate");
    ContainsAt(tensor, 10, "gate.");
    assert "gate" + "." == "gate.";
    ShadowedBy(p, "gate", "ffn_gate", tensor);
  }

  /** So does any family whose name ends some other segment: a projector's `mm.0.weight` makes a family "0", whose
      flag takes the tensors of block 0, although neither family's name ends the other's. */
  lemma DigitFamilyShadows()
    ensures FamilyOf("mm.0.weight") == "0"
    ensures DisagreeOn(Preset("Q4_K_M", [], [], "F16", [("0", "Q8_0"), ("attn_q", "Q6_K")]), "blk.0.attn_q.weight", "Q8_0", "Q6_K")
  {
    var p := Preset("Q4_K_M", [], [], "F16", [("0", "Q8_0"), ("attn_q", "Q6_K")]);
    var tensor := "blk.0.attn_q.weight";
    PlainNames();
    TypesArePlain();
    MmName();
    AttnQName();
    hide *;
    FamilyOfWeight("mm", "0");
    FamilyOfWeight("blk.0", "attn_q");
    ContainsAt(tensor, 4, "0.");
    assert "0" + "." == "0.";
    ShadowedBy(p, "0", "attn_q", tensor);
  }

  lemma FfnGateName()
    ensures "blk.0" + "." + "ffn_gate" + ".weight" == "blk.0.ffn_gate.weight"
  {
    assert "blk.0" + "." == "blk.0.";
    assert "blk.0." + "ffn_gate" == "blk.0.ffn_gate";
  }

  lemma AttnQName()
    ensures "blk.0" + "." + "attn_q" + ".weight" == "blk.0.attn_q.weight"
  {
    assert "blk.0" + "." == "blk.0.";
    assert "blk.0." + "attn_q" == "blk.0.attn_q";
  }

  lemma MmName()
    ensures "mm" + "." + "0" + ".weight" == "mm.0.weight"
  {
    assert "mm" + "." == "mm.";
    assert "mm." + "0" == "mm.0";
  }

  lemma ContainsAt(s: string, k: nat, part: string)
    requires k <= |s| && part <= s[k..]
    ensures Contains(s, part)
  {
  }

  lemma TypesArePlain()
    ensures IsExplicit("Q8_0") && IsExplicit("Q6_K") && MapType("Q8_0") == "Q8_0"
    ensures '=' !in "Q8_0" && '=' !in "Q6_K" && '=' !in "F16"
  {
  }

  lemma ShadowedBy(p: Preset, first: string, own: string, tensor: string)
    requires p == Preset("Q4_K_M", [], [], "F16", [(first, "Q8_0"), (own, "Q6_K")]) && first != own
    requires Plain(first) && Plain(own) && Contains(tensor, first + ".") && FamilyOf(tensor) == own
    requires own in ["ffn_gate", "attn_q"]
    ensures DisagreeOn(p, tensor, "Q8_0", "Q6_K")
  {
    assert own[0] in ['f', 'a'] && "token_embd"[0] == 't' && "output"[0] == 'o';
    assert !IsEmbedding(tensor) by {
      hide FamilyOf;
    }
    TypesArePlain();
    PlainFamilyFound(first, tensor);
    hide DisagreeOn, Plain, Contains, FamilyFound, FamilyOf, MapType, IsExplicit;
    EarlierFamilyWins(p, (first, "Q8_0"), (own, "Q6_K"), tensor);
  }

  lemma WordCharsArePlain(c: char)
    requires 'a' <= c <= 'z' || c == '_' || c == '0'
    ensures !IsMeta(c)
  {
  }

  lemma PlainNames()
    ensures Plain("gate") && Plain("ffn_gate") && Plain("ssm_alpha") && Plain("0") && Plain("attn_q")
  {
    forall c | 'a' <= c <= 'z' || c == '_' || c == '0' ensures !IsMeta(c) {
      WordCharsArePlain(c);
    }
    hide IsMeta;
  }

  lemma NoFamilyWithoutSuffix()
    ensures FamilyOf("blk.0.ssm_a") == OTHER
  {
    var t := "blk.0.ssm_a";
    assert t[|t| - 1] == 'a' && ".weight"[6] == 't' && ".bias"[4] == 's';
    assert Without(t, ".weight") == None && Without(t, ".bias") == None;
  }

  lemma NotInTheName()
    ensures !Contains("blk.0.ssm_a", OTHER + ".")
  {
    var t, part := "blk.0.ssm_a", OTHER + ".";
    assert part[5] == 'r' && 'r' !in t;
    forall k | 0 <= k <= |t| ensures !(part <= t[k..]) {
      assert |part| <= |t[k..]| ==> t[k..][5] == t[k + 5];
    }
  }

  /** A preset whose only choice is for `_other`, and a tensor that belongs there but does not hold its name. */
  lemma OnlyOther(p: Preset, tensor: string)
    requires p.pins == [] && p.bonusNames == [] && p.families == [(OTHER, "Q8_0")] && p.bonusType == "F16"
    requires FamilyOf(tensor) == OTHER && !Contains(tensor, OTHER + ".") && !IsEmbedding(tensor)
    ensures CompiledType(p, "custom", tensor) == None && EstimateType(PlanOf(p), tensor) == "Q8_0"
  {
    OtherIsPlain();
    TypesArePlain();
    hide FamilyOf, Contains, Plain, IsExplicit, CompiledType, EstimateType, PlanOf, IsEmbedding;
    assert BlockNames(p) == {} && PinsAreBroad(p) && PlainTypes(p.families);
    FlagsDecide(p, "custom", tensor);
    EstimateDecides(p, tensor);
    OtherIsNotCompiledAlone(p, tensor);
    hide FlagDecision, EstimateDecision, PlainTypes, PinsAreBroad;
  }

  lemma OtherIsNotCompiledAlone(p: Preset, tensor: string)
    requires p.pins == [] && p.bonusNames == [] && p.families == [(OTHER, "Q8_0")]
    requires FamilyOf(tensor) == OTHER && !Contains(tensor, OTHER + ".") && IsExplicit("Q8_0")
    ensures FlagDecision(p, tensor) == ByBase && EstimateDecision(p, tensor) == Family((OTHER, "Q8_0"))
  {
    OtherIsPlain();
    PlainFamilyFound(OTHER, tensor);
    hide FamilyOf, FamilyFound, Contains, IsExplicit;
    assert p.families[1..] == [] && FirstFamily(p.families[1..], tensor) == None;
    assert FirstType(p.pins, tensor) == None && !NamesPartOf(p.bonusNames, tensor);
  }

  /** `blk.0.ssm_a` has no family; a type chosen for `_other` is estimated for it, but no flag finds it. */
  lemma OtherFamilyIsLost()
    ensures var p := Preset("Q4_K_M", [], [], "F16", [(OTHER, "Q8_0")]);
      CompiledType(p, "custom", "blk.0.ssm_a") == None && EstimateType(PlanOf(p), "blk.0.ssm_a") == "Q8_0"
  {
    hide FamilyOf, Contains, CompiledType, EstimateType, PlanOf;
    NoFamilyWithoutSuffix();
    NotInTheName();
    assert OTHER[0] == '_' && "token_embd"[0] == 't' && "output"[0] == 'o';
    OnlyOther(Preset("Q4_K_M", [], [], "F16", [(OTHER, "Q8_0")]), "blk.0.ssm_a");
  }

  lemma OtherIsPlain()
    ensures Plain(OTHER)
  {
    forall c | 'a' <= c <= 'z' || c == '_' || c == '0' ensures !IsMeta(c) {
      WordCharsArePlain(c);
    }
    hide IsMeta;
  }

  // ---------------------------------------------------------------- embeddings

  /** The flag that decides an embedding tensor. */
  function EmbeddingFlag(tensor: string): string {
    if FamilyOf(tensor) == "token_embd" then TOKEN_EMBEDDING_TYPE else OUTPUT_TENSOR_TYPE
  }

  lemma FlagValuesOfHead(cfg: QuantCfg, rest: seq<string>, flag: string)
    requires KeepsEmbeddings(cfg) && (flag == TOKEN_EMBEDDING_TYPE || flag == OUTPUT_TENSOR_TYPE)
    ensures FlagValue(HeadFlags(cfg) + rest, flag) == Some(EmbeddingType(cfg.sourceTop))
  {
    var embType := EmbeddingType(cfg.sourceTop);
    hide EmbeddingType, IsHalf;
    var output := [OUTPUT_TENSOR_TYPE, embType] + rest;
    var tail := [TOKEN_EMBEDDING_TYPE, embType] + output;
    assert TENSOR_TYPE[3] == 'e' && TOKEN_EMBEDDING_TYPE[3] == 'o' && OUTPUT_TENSOR_TYPE[3] == 'u' && ALLOW_REQUANTIZE[3] == 'l';
    assert tail[2..] == output;
    assert FlagValue(output, OUTPUT_TENSOR_TYPE) == Some(embType) && FlagValue(tail, TOKEN_EMBEDDING_TYPE) == Some(embType);
    assert FlagValue(tail, flag) == Some(embType);
    assert ([ALLOW_REQUANTIZE] + tail)[1..] == tail;
    assert FlagValue([ALLOW_REQUANTIZE] + tail, flag) == FlagValue(tail, flag);
    hide FlagValue;
    assert HeadFlags(cfg) + rest == if IsHalf(cfg.sourceTop) then tail else [ALLOW_REQUANTIZE] + tail;
  }

  /** Whatever the source, its embedding tensors get their estimated type, each kind from its own flag: the bonus type is the
      `top_type` of a scanned source's tag. */
  lemma EmbeddingsAgree(p: Preset, name: string, tag: string, tensor: string)
    requires p.bonusType == if tag == "F16" || tag == "BF16" then "F16" else "Q8_0"
    ensures FamilyOf(tensor) == "token_embd" ==>
      FlagValue(FlagsOf(p, name), "--token-embedding-type") == Some(EstimateType(PlanOf(p), tensor))
    ensures FamilyOf(tensor) == "output" ==>
      FlagValue(FlagsOf(p, name), "--output-tensor-type") == Some(EstimateType(PlanOf(p), tensor))
  {
    assert "token_embd"[0] != "output"[0];
    if IsEmbedding(tensor) {
      EmbeddingsAgreeUnless(p, name, tensor);
    }
    hide FlagsOf, FlagValue, EstimateType, PlanOf, FamilyOf;
  }

  /** A preset for a top type of BF16, which no scanned source has, would be the one to differ. */
  lemma EmbeddingsAgreeUnless(p: Preset, name: string, tensor: string)
    requires IsEmbedding(tensor)
    ensures FlagValue(FlagsOf(p, name), EmbeddingFlag(tensor)) == Some(EstimateType(PlanOf(p), tensor))
      <==> p.bonusType != "BF16"
  {
    var cfg := ConfigOf(p, name);
    assert KeepsEmbeddings(cfg);
    assert EstimateType(PlanOf(p), tensor) == p.bonusType;
    FlagValuesOfHead(cfg, TypeFlags(RulesOf(cfg)), EmbeddingFlag(tensor));
    hide TypeFlags, RulesOf, HeadFlags, FlagValue, EstimateType, PlanOf, FamilyOf;
  }
}
