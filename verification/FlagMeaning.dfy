/**
 The command line that `build_quantize_overrides` (BRAIN-DAEMON/quantize/brain-quant.py) builds, word by word: which flags
 stand on it, for which configurations, with which types, and in which order.
 */
module FlagMeaning {
  import opened Helpers
  import opened PresetEmitter
  import opened QuantFlags

  /** The whole command line. */
  function CommandLine(cfg: QuantCfg): seq<string> {
    HeadFlags(cfg) + TypeFlags(RulesOf(cfg))
  }

  // ---------------------------------------------------------------- types

  /** Ten mixes stand for a raw type; every other name is passed on as it is. */
  lemma TypeMap(qtype: string)
    ensures qtype in {"Q4_K_M", "Q4_K_S"} ==> MapType(qtype) == "Q4_K"
    ensures qtype in {"Q5_K_M", "Q5_K_S"} ==> MapType(qtype) == "Q5_K"
    ensures qtype in {"Q3_K_M", "Q3_K_S", "Q3_K_L"} ==> MapType(qtype) == "Q3_K"
    ensures qtype == "Q2_K_S" ==> MapType(qtype) == "Q2_K"
    ensures qtype == "IQ3_M" ==> MapType(qtype) == "IQ3_S"
    ensures qtype == "IQ2_M" ==> MapType(qtype) == "IQ2_S"
    ensures MapType(qtype) != qtype ==> qtype in {"Q4_K_M", "Q4_K_S", "Q5_K_M", "Q5_K_S", "Q3_K_M", "Q3_K_S", "Q3_K_L",
                                                  "Q2_K_S", "IQ3_M", "IQ2_M"}
  {
  }

  /** An override keeps what stands before its last `=`, and its type is mapped; one without `=` stays as it is. */
  lemma OverrideInText(pattern: string, qtype: string)
    requires '=' !in qtype
    ensures MapRule(pattern + "=" + qtype) == pattern + "=" + MapType(qtype)
    ensures MapRule(qtype) == qtype
  {
    hide MapType, LastEquals;
    SplitRule(pattern, qtype);
    assert Rule(pattern, qtype) == pattern + "=" + qtype && Rule(pattern, MapType(qtype)) == pattern + "=" + MapType(qtype);
    assert LastEquals(qtype) < 0;
  }

  /** A family adds one rule, where it stands in the dictionary, unless its type is empty or `base`. */
  lemma FamilyInText(before: FamilyTypes, fam: string, qtype: string, behind: FamilyTypes)
    ensures FamilyRules(before + [(fam, qtype)] + behind) ==
      FamilyRules(before) + (if qtype == "" || qtype == "base" then [] else [fam + "\\..*" + "=" + MapType(qtype)])
      + FamilyRules(behind)
  {
    hide MapType;
    FamilyRulesOfConcat(before + [(fam, qtype)], behind);
    FamilyRulesOfConcat(before, [(fam, qtype)]);
    assert [(fam, qtype)][1..] == [];
    assert Rule(fam + "\\..*", MapType(qtype)) == fam + "\\..*" + "=" + MapType(qtype);
  }

  // ---------------------------------------------------------------- flags

  /** Nothing is configured: no choice about embeddings, no overrides, no families. */
  predicate Bare(cfg: QuantCfg) {
    cfg.preserve == None && cfg.overrides == None && cfg.families == []
  }

  /** Presets that protect the sensitive tensors by their mere name. */
  predicate NamedDynamic(name: string) {
    (|name| >= 3 && name[..3] == "UD-") || (|name| >= 3 && name[|name| - 3..] == "_XL")
  }

  /** What stands in front of the rules, word by word: permission to requantize exactly for a source that is not in 16-bit
      floating point, and the embeddings' type exactly for a preset that preserves them, by choice or by name. */
  lemma LeadingWords(cfg: QuantCfg)
    ensures var half := cfg.sourceTop == "F16" || cfg.sourceTop == "BF16";
      var preserved := if Bare(cfg) then NamedDynamic(cfg.name) else cfg.preserve == Some(true);
      var top := if half then "F16" else cfg.sourceTop;
      HeadFlags(cfg) == (if half then [] else ["--allow-requantize"])
        + (if preserved then ["--token-embedding-type", top, "--output-tensor-type", top] else [])
  {
    assert "UD-" <= cfg.name <==> |cfg.name| >= 3 && cfg.name[..3] == "UD-";
    assert IsDynamic(cfg.name) <==> NamedDynamic(cfg.name);
    assert IsUnconfigured(cfg) <==> Bare(cfg);
    hide IsDynamic, NamedDynamic;
  }

  /** Behind them every rule stands after its own flag. */
  lemma {:induction false} TrailingWords(rules: seq<string>)
    ensures |TypeFlags(rules)| == 2 * |rules|
    ensures forall k :: 0 <= k < |rules| ==> TypeFlags(rules)[2 * k] == "--tensor-type" && TypeFlags(rules)[2 * k + 1] == rules[k]
  {
    if rules != [] {
      TrailingWords(rules[1..]);
      var rest := TypeFlags(rules[1..]);
      forall k | 0 <= k < |rules|
        ensures TypeFlags(rules)[2 * k] == "--tensor-type" && TypeFlags(rules)[2 * k + 1] == rules[k]
      {
        if k > 0 {
          assert rest[2 * (k - 1)] == "--tensor-type" && rest[2 * (k - 1) + 1] == rules[1..][k - 1];
        }
      }
    }
  }

  /** The rules: the overrides in order, each with its type mapped, then the families'. A preset without any configuration
      gets three rules when its name is dynamic, and none otherwise. */
  lemma RulesInOrder(cfg: QuantCfg)
    ensures Bare(cfg) && NamedDynamic(cfg.name) ==>
      RulesOf(cfg) == ["ffn_gate_inp\\..*=F16", "attn_[kqv]\\..*=Q8_0", "attn_output\\..*=Q8_0"]
    ensures Bare(cfg) && !NamedDynamic(cfg.name) ==> RulesOf(cfg) == []
    ensures cfg.overrides.Some? ==>
      && RulesOf(cfg) == RulesOf(cfg)[..|cfg.overrides.value|] + FamilyRules(cfg.families)
      && forall k :: 0 <= k < |cfg.overrides.value| ==> RulesOf(cfg)[k] == MapRule(cfg.overrides.value[k])
    ensures cfg.overrides.None? && !Bare(cfg) ==> RulesOf(cfg) == FamilyRules(cfg.families)
  {
    assert "UD-" <= cfg.name <==> |cfg.name| >= 3 && cfg.name[..3] == "UD-";
    assert IsDynamic(cfg.name) <==> NamedDynamic(cfg.name);
    hide IsDynamic, NamedDynamic, MapRule;
    if Bare(cfg) {
      DynamicRules();
      assert FamilyRules([]) == [];
      assert MappedRules([]) == [];
    }
  }

  lemma DynamicRules()
    ensures MappedRules(DYNAMIC_RULES) == ["ffn_gate_inp\\..*=F16", "attn_[kqv]\\..*=Q8_0", "attn_output\\..*=Q8_0"]
  {
    var rules := ["ffn_gate_inp\\..*=F16", "attn_[kqv]\\..*=Q8_0", "attn_output\\..*=Q8_0"];
    assert DYNAMIC_RULES == rules;
    hide *;
    HalfIsRaw();
    RouterRule();
    AttentionRule();
    OutputRule();
    AllMapped(rules);
  }

  lemma AllMapped(rules: seq<string>)
    requires |rules| == 3 && MapRule(rules[0]) == rules[0] && MapRule(rules[1]) == rules[1] && MapRule(rules[2]) == rules[2]
    ensures MappedRules(rules) == rules
  {
    hide MapRule;
  }

  lemma HalfIsRaw()
    ensures MapType("F16") == "F16" && MapType("Q8_0") == "Q8_0" && '=' !in "F16" && '=' !in "Q8_0"
  {
  }

  lemma RouterRule()
    ensures MapRule("ffn_gate_inp\\..*=F16") == "ffn_gate_inp\\..*=F16"
  {
    HalfIsRaw();
    hide *;
    AlreadyRaw("ffn_gate_inp\\..*", "F16", "ffn_gate_inp\\..*=F16");
  }

  lemma AttentionRule()
    ensures MapRule("attn_[kqv]\\..*=Q8_0") == "attn_[kqv]\\..*=Q8_0"
  {
    HalfIsRaw();
    hide *;
    AlreadyRaw("attn_[kqv]\\..*", "Q8_0", "attn_[kqv]\\..*=Q8_0");
  }

  lemma OutputRule()
    ensures MapRule("attn_output\\..*=Q8_0") == "attn_output\\..*=Q8_0"
  {
    HalfIsRaw();
    hide *;
    AlreadyRaw("attn_output\\..*", "Q8_0", "attn_output\\..*=Q8_0");
  }

  lemma AlreadyRaw(pattern: string, qtype: string, rule: string)
    requires '=' !in qtype && MapType(qtype) == qtype && rule == pattern + "=" + qtype
    ensures MapRule(rule) == rule
  {
    OverrideInText(pattern, qtype);
    hide MapType, MapRule;
  }
}
