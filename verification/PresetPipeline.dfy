/**
 From tensor statistics to flags and prediction (BRAIN-DAEMON/quantize/brain-quant.py, `_screen_custom_builder_once`):
 the preset is emitted, its rules are read back for the size estimate, and compiled for the quantizer.
 */
module PresetPipeline {
  import opened Helpers
  import opened TensorRanking
  import opened PresetEmitter
  import opened QuantFlags
  import opened PresetMeaning
  import opened PresetSizes

  lemma BonusNamesAreTensorNames(ts: seq<TensorStat>, c: Choices, n: string)
    ensures IsBonusName(ts, c, n) ==> exists t :: t in ts && t.name == n
  {
    var fam := FamilyOf(n);
    SortSorts(FamilyMembers(ts, fam));
    MembersHaveFamily(ts, fam);
    hide SortDescending, FamilyMembers, BonusCount, FamilyOf;
    if IsBonusName(ts, c, n) {
      var t :| t in BonusTensors(ts, c, fam) && t.name == n;
      assert t in multiset(SortDescending(FamilyMembers(ts, fam)));
      assert t in multiset(FamilyMembers(ts, fam));
    }
  }

  lemma CleanStaysPlain(fq: FamilyTypes)
    requires PlainTypes(fq)
    ensures PlainTypes(Clean(fq))
  {
    CleanDropsOnlyBase(fq);
    hide Clean;
    forall k | 0 <= k < |Clean(fq)| ensures Clean(fq)[k] in fq {
      assert Clean(fq)[k] in Clean(fq);
    }
  }

  /** Fit to be compiled and read back. */
  predicate IsFit(p: Preset) {
    && '=' !in p.bonusType && PlainTypes(p.families) && DistinctKeys(p.families)
    && PinsAreBroad(p) && forall n :: n in BlockNames(p) ==> '\\' !in n
  }

  /** No equals sign in the chosen types and no backslash in the tensors' names. */
  predicate PlainChoices(ts: seq<TensorStat>, c: Choices) {
    && '=' !in c.bonusType && PlainTypes(c.families)
    && forall k :: 0 <= k < |ts| ==> '\\' !in ts[k].name
  }

  /** What the emitter makes of plain choices is fit for compiling and for reading back. */
  lemma EmittedPresetsAreFit(ts: seq<TensorStat>, c: Choices, p: Preset)
    requires DistinctKeys(c.families) && p.families == Clean(c.families) && p.bonusType == c.bonusType
    requires p.pins == RulesFor(PIN_PATTERNS, c.bonusType) || p.pins == []
    requires forall n :: n in p.bonusNames <==> IsBonusName(ts, c, n)
    ensures PlainChoices(ts, c) ==> IsFit(p)
  {
    if PlainChoices(ts, c) {
      CleanKeepsKeys(c.families);
      CleanStaysPlain(c.families);
      ShippedPinsAreBroad(p, "");
      hide Clean, PlainTypes, DistinctKeys, PinsAreBroad, IsBonusName, RulesFor, PIN_PATTERNS, FirstType;
      forall n | n in BlockNames(p) ensures '\\' !in n {
        BonusNamesAreTensorNames(ts, c, n);
      }
    }
  }

  /** The first rule found among the flags gives the assumed type, up to the type map; none is found only for the base. */
  predicate AsAssumed(args: seq<string>, plan: Plan, tensor: string, base: string) {
    match FirstType(TensorRules(args), tensor)
    case Some(qtype) => qtype == MapType(EstimateType(plan, tensor))
    case None => EstimateType(plan, tensor) == base
  }

  /** The whole way: when the choices are plain, every model tensor that stands apart is quantized, by the flags compiled
      from the preset, as the estimate made from the same preset assumes; and so is every embedding tensor, since no source
      has BF16 for its top type. */
  method BuildPreset(ts: seq<TensorStat>, c: Choices, addPins: bool, name: string, model: seq<GgufTensor>)
    returns (p: Preset, plan: Plan, target: int, args: seq<string>)
    requires DistinctKeys(c.families)
    ensures p.families == Clean(c.families) && p.bonusType == c.bonusType
    ensures p.pins == if addPins then RulesFor(PIN_PATTERNS, c.bonusType) else []
    ensures forall n :: n in p.bonusNames <==> IsBonusName(ts, c, n)
    ensures PlainChoices(ts, c) ==> forall n :: n in plan.topNames <==> IsBonusName(ts, c, n) && BLOCK <= n
    ensures target == EstimateTotal(model, plan)
    ensures PlainChoices(ts, c) ==>
      forall k :: 0 <= k < |model| && !IsEmbedding(model[k].name) && StandsApart(p, model[k].name) ==>
        AsAssumed(args, plan, model[k].name, c.base)
    ensures c.bonusType != "BF16" ==>
      forall k :: 0 <= k < |model| && IsEmbedding(model[k].name) ==>
        FlagValue(args, EmbeddingFlag(model[k].name)) == Some(EstimateType(plan, model[k].name))
  {
    ShippedPinsTakeTheBonusType(c.bonusType);
    NoPins(c.bonusType);
    hide *;
    var pins := if addPins then SHIPPED_PINS else [];
    var counts;
    p, counts := EmitPresetCustom(ts, c, Some(pins));
    EmittedPresetsAreFit(ts, c, p);
    var names, patterns := ReadBack(p.Overrides(), p.bonusType);
    plan := Plan(p.families, names, patterns, p.base, true, p.bonusType, {});
    var current;
    target, current := EstimatePresetSize(model, plan);
    args := BuildQuantizeOverrides(ConfigOf(p, name));
    TopNamesAreBlockNames(p);
    forall k | 0 <= k < |model| && !IsEmbedding(model[k].name) && StandsApart(p, model[k].name) && IsFit(p)
      ensures AsAssumed(args, plan, model[k].name, c.base)
    {
      OneTensor(p, name, model[k].name);
    }
    forall k | 0 <= k < |model| && IsEmbedding(model[k].name) && p.bonusType != "BF16"
      ensures FlagValue(args, EmbeddingFlag(model[k].name)) == Some(EstimateType(plan, model[k].name))
    {
      OneEmbedding(p, name, model[k].name);
    }
  }

  lemma NoPins(bonusType: string)
    ensures RetargetedAll([], bonusType) == []
  {
  }

  lemma TopNamesAreBlockNames(p: Preset)
    ensures IsFit(p) ==> forall n :: n in ExactNames(p.Overrides(), "=" + p.bonusType) <==> n in p.bonusNames && BLOCK <= n
    ensures PlanOf(p) == Plan(p.families, ExactNames(p.Overrides(), "=" + p.bonusType),
                              PinPatterns(p.Overrides(), "=" + p.bonusType), p.base, true, p.bonusType, {})
  {
    if IsFit(p) {
      BlockNamesRecovered(p);
    }
    hide ExactNames, p.Overrides, PinPatterns;
  }

  lemma OneEmbedding(p: Preset, name: string, tensor: string)
    requires IsEmbedding(tensor) && p.bonusType != "BF16"
    ensures var args := HeadFlags(ConfigOf(p, name)) + TypeFlags(RulesOf(ConfigOf(p, name)));
      FlagValue(args, EmbeddingFlag(tensor)) == Some(EstimateType(PlanOf(p), tensor))
  {
    EmbeddingsAgreeUnless(p, name, tensor);
    hide IsEmbedding, EstimateType, FlagValue, EmbeddingFlag, HeadFlags, TypeFlags, RulesOf, PlanOf;
  }

  lemma OneTensor(p: Preset, name: string, tensor: string)
    ensures IsFit(p) && !IsEmbedding(tensor) && StandsApart(p, tensor) ==>
      AsAssumed(HeadFlags(ConfigOf(p, name)) + TypeFlags(RulesOf(ConfigOf(p, name))), PlanOf(p), tensor, p.base)
  {
    if IsFit(p) && !IsEmbedding(tensor) && StandsApart(p, tensor) {
      StandingApartIsUnshadowed(p, tensor);
      CompilingKeepsMeaning(p, name, tensor);
    }
    hide StandsApart, IsEmbedding, EstimateType, FirstType, TensorRules, MapType, HeadFlags, TypeFlags, RulesOf, PlanOf, IsFit;
  }
}
