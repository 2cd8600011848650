/**
 The two size predictions for a preset (BRAIN-DAEMON/quantize/brain-quant.py): the total of `_estimate_preset_size`
 and the breakdown of `_compute_tier_sizes`, which look at pins and families in opposite orders.
 */
module PresetSizes {
  import opened Helpers
  import opened PresetEmitter
  import opened PresetMeaning
  import opened QuantFlags
  import opened RegexLite

  datatype GgufTensor = GgufTensor(name: string, params: nat, bits: real, current: nat)

  // ---------------------------------------------------------------- bytes of one tensor

  /** `_BPW.get(target, fallback)` */
  function BitsPerWeight(target: string, fallback: real): real {
    if target == "F32" then 32.0
    else if target in ["F16", "BF16"] then 16.0
    else if target in ["Q8_0", "Q8_K"] then 8.5
    else if target == "Q6_K" then 6.5625
    else if target in ["Q5_K_M", "Q5_K"] then 5.5
    else if target in ["Q4_K_M", "Q4_K", "Q4_0"] then 4.5
    else if target == "Q3_K" then 3.4375
    else if target == "Q2_K" then 2.625
    else fallback
  }

  /** `int(x)` rounds towards zero. */
  function Truncate(x: real): int {
    if x >= 0.0 then x.Floor else -((-x).Floor)
  }

  function BytesOf(bits: real): int {
    Truncate(bits / 8.0)
  }

  function Bits(t: GgufTensor, target: string): real {
    t.params as real * BitsPerWeight(target, t.bits)
  }

  function TensorBytes(t: GgufTensor, target: string): int {
    BytesOf(Bits(t, target))
  }

  lemma BytesOfGrows(a: real, b: real)
    requires a <= b
    ensures BytesOf(a) <= BytesOf(b)
  {
  }

  lemma ScalesUp(factor: nat, x: real, y: real)
    requires x <= y
    ensures factor as real * x <= factor as real * y
  {
    if factor > 0 {
      ScalingKeepsOrder(x, y, factor as real);
    }
  }

  /** More bits per weight never make a tensor smaller. */
  lemma BytesGrow(t: GgufTensor, a: string, b: string)
    requires BitsPerWeight(a, t.bits) <= BitsPerWeight(b, t.bits)
    ensures TensorBytes(t, a) <= TensorBytes(t, b)
  {
    hide BitsPerWeight, BytesOf;
    ScalesUp(t.params, BitsPerWeight(a, t.bits), BitsPerWeight(b, t.bits));
    BytesOfGrows(Bits(t, a), Bits(t, b));
  }

  // ---------------------------------------------------------------- the estimate

  function EstimateTotal(ts: seq<GgufTensor>, plan: Plan): int {
    if ts == [] then 0
    else EstimateTotal(ts[..|ts| - 1], plan) + TensorBytes(ts[|ts| - 1], EstimateType(plan, ts[|ts| - 1].name))
  }

  function CurrentTotal(ts: seq<GgufTensor>): int {
    if ts == [] then 0 else CurrentTotal(ts[..|ts| - 1]) + ts[|ts| - 1].current
  }

  /** `_estimate_preset_size` */
  method EstimatePresetSize(ts: seq<GgufTensor>, plan: Plan) returns (target: int, current: int)
    ensures target == EstimateTotal(ts, plan) && current == CurrentTotal(ts)
  {
    hide TensorBytes, EstimateType;
    target, current := 0, 0;
    for j := 0 to |ts|
      invariant target == EstimateTotal(ts[..j], plan) && current == CurrentTotal(ts[..j])
    {
      var t := ts[j];
      assert ts[..j + 1][..j] == ts[..j] && ts[..j + 1][j] == t;
      var qtype := EstimateOne(t.name, plan);
      target := target + TensorBytes(t, qtype);
      current := current + t.current;
    }
    assert ts[..|ts|] == ts;
  }

  /** The body of the loop: each test only while nothing has been decided. */
  method EstimateOne(name: string, plan: Plan) returns (qtype: string)
    ensures qtype == EstimateType(plan, name)
  {
    hide FamilyOf, TypeFor, AnyFinds;
    var fam := FamilyOf(name);
    var decided: Option<string> := None;
    if name in plan.preserved {
      decided := Some("F16");
    }
    if decided.None? && plan.embeddings && fam in ["token_embd", "output"] {
      decided := Some(plan.topType);
    }
    if decided.None? && AnyFinds(plan.pins, name) {
      decided := Some(plan.topType);
    }
    if decided.None? && name in plan.topNames {
      decided := Some(plan.topType);
    }
    if decided.None? {
      var own := TypeFor(plan.families, fam);
      if own.Some? && IsExplicit(own.value) {
        decided := own;
      }
    }
    if decided.None? {
      decided := Some(plan.base);
    }
    qtype := decided.value;
  }

  // ---------------------------------------------------------------- the tiers

  /** The display labels found in the tier counts. */
  datatype Labels = Labels(bonus: map<string, string>, family: map<string, string>, base: Option<string>, pins: Option<string>)

  datatype Tier = Skipped | InTier(row: string, qtype: string)

  function LabelFor(labels: map<string, string>, fam: string, fallback: string): string {
    if fam in labels then labels[fam] else fallback
  }

  function GetOr(row: Option<string>, fallback: string): string {
    match row
    case Some(l) => l
    case None => fallback
  }

  /** Where `_compute_tier_sizes` puts one tensor: bonus and families come before the pins. */
  function TierOf(plan: Plan, labels: Labels, name: string): Tier {
    var fam := FamilyOf(name);
    var own := TypeFor(plan.families, fam);
    if name in plan.preserved then InTier("F16 (pr\U{E9}serv\U{E9} source)", "F16")
    else if plan.embeddings && IsEmbedding(name) then Skipped
    else if name in plan.topNames then
      InTier(LabelFor(labels.bonus, fam, plan.topType + " bonus (famille " + fam + ")"), plan.topType)
    else if own.Some? && IsExplicit(own.value) then
      InTier(LabelFor(labels.family, fam, own.value + " (famille " + fam + ")"), own.value)
    else if AnyFinds(plan.pins, name) then InTier(GetOr(labels.pins, plan.topType + " (pins auto)"), plan.topType)
    else InTier(GetOr(labels.base, plan.base + " (base)"), plan.base)
  }

  /** A pinned tensor that is no bonus tensor and whose family has a type of its own other than the top. */
  predicate IsConflicted(plan: Plan, name: string) {
    var own := TypeFor(plan.families, FamilyOf(name));
    && name !in plan.preserved && !(plan.embeddings && IsEmbedding(name))
    && AnyFinds(plan.pins, name) && name !in plan.topNames
    && own.Some? && IsExplicit(own.value) && own.value != plan.topType
  }

  /** Both predictions give a tensor the same type exactly when it is not conflicted. */
  lemma TypesAgree(plan: Plan, labels: Labels, name: string)
    requires TierOf(plan, labels, name).InTier?
    ensures TierOf(plan, labels, name).qtype == EstimateType(plan, name) <==> !IsConflicted(plan, name)
  {
    hide FamilyOf, TypeFor, AnyFinds;
  }

  /** `sizes[row] += est` on a dictionary in insertion order. */
  function AddTo(sizes: seq<(string, int)>, row: string, n: int): seq<(string, int)> {
    if sizes == [] then [(row, n)]
    else if sizes[0].0 == row then [(row, sizes[0].1 + n)] + sizes[1..]
    else [sizes[0]] + AddTo(sizes[1..], row, n)
  }

  function SizeAt(sizes: seq<(string, int)>, row: string): int {
    if sizes == [] then 0 else if sizes[0].0 == row then sizes[0].1 else SizeAt(sizes[1..], row)
  }

  function SumSizes(sizes: seq<(string, int)>): int {
    if sizes == [] then 0 else sizes[0].1 + SumSizes(sizes[1..])
  }

  function LabelsOf(sizes: seq<(string, int)>): seq<string> {
    if sizes == [] then [] else [sizes[0].0] + LabelsOf(sizes[1..])
  }

  lemma {:induction false} AddToAdds(sizes: seq<(string, int)>, row: string, n: int)
    ensures SumSizes(AddTo(sizes, row, n)) == SumSizes(sizes) + n
    ensures forall l :: SizeAt(AddTo(sizes, row, n), l) == SizeAt(sizes, l) + if l == row then n else 0
    ensures LabelsOf(AddTo(sizes, row, n)) == LabelsOf(sizes) + (if row in LabelsOf(sizes) then [] else [row])
  {
    if sizes != [] {
      var rest := sizes[1..];
      AddToAdds(rest, row, n);
      if sizes[0].0 == row {
        assert ([(row, sizes[0].1 + n)] + rest)[1..] == rest;
      } else {
        assert ([sizes[0]] + AddTo(rest, row, n))[1..] == AddTo(rest, row, n);
      }
    }
  }

  function TierSizes(ts: seq<GgufTensor>, plan: Plan, labels: Labels): seq<(string, int)> {
    if ts == [] then []
    else
      var t, sizes := ts[|ts| - 1], TierSizes(ts[..|ts| - 1], plan, labels);
      match TierOf(plan, labels, t.name)
      case Skipped => sizes
      case InTier(row, qtype) => AddTo(sizes, row, TensorBytes(t, qtype))
  }

  /** `_compute_tier_sizes`, the labels already read from the tier counts. */
  method ComputeTierSizes(ts: seq<GgufTensor>, plan: Plan, labels: Labels) returns (sizes: seq<(string, int)>)
    ensures sizes == TierSizes(ts, plan, labels)
  {
    hide TierOf, TensorBytes, AddTo;
    sizes := [];
    for j := 0 to |ts|
      invariant sizes == TierSizes(ts[..j], plan, labels)
    {
      var t := ts[j];
      assert ts[..j + 1][..j] == ts[..j] && ts[..j + 1][j] == t;
      var tier := TierOne(t.name, plan, labels);
      if tier == Skipped {
        continue;
      }
      sizes := AddTo(sizes, tier.row, TensorBytes(t, tier.qtype));
    }
    assert ts[..|ts|] == ts;
  }

  /** The body of the loop up to the size; a skipped tensor leaves it early. */
  method TierOne(name: string, plan: Plan, labels: Labels) returns (tier: Tier)
    ensures tier == TierOf(plan, labels, name)
  {
    hide FamilyOf, TypeFor, AnyFinds, LabelFor, GetOr;
    var fam := FamilyOf(name);
    var decided: Option<Tier> := None;
    if name in plan.preserved {
      decided := Some(InTier("F16 (pr\U{E9}serv\U{E9} source)", "F16"));
    }
    if decided.None? && plan.embeddings && fam in ["token_embd", "output"] {
      return Skipped;
    }
    if decided.None? && name in plan.topNames {
      decided := Some(InTier(LabelFor(labels.bonus, fam, plan.topType + " bonus (famille " + fam + ")"), plan.topType));
    }
    if decided.None? {
      var own := TypeFor(plan.families, fam);
      if own.Some? && IsExplicit(own.value) {
        decided := Some(InTier(LabelFor(labels.family, fam, own.value + " (famille " + fam + ")"), own.value));
      }
    }
    if decided.None? && AnyFinds(plan.pins, name) {
      decided := Some(InTier(GetOr(labels.pins, plan.topType + " (pins auto)"), plan.topType));
    }
    if decided.None? {
      decided := Some(InTier(GetOr(labels.base, plan.base + " (base)"), plan.base));
    }
    tier := decided.value;
  }

  // ---------------------------------------------------------------- conservation

  /** The embeddings the tiers leave out, at the size the estimate gives them. */
  function SkippedBytes(t: GgufTensor, plan: Plan): int {
    if t.name !in plan.preserved && plan.embeddings && IsEmbedding(t.name) then TensorBytes(t, plan.topType) else 0
  }

  /** What a conflicted tensor weighs more at the top type than at its family's. */
  function ConflictBytes(t: GgufTensor, plan: Plan): int {
    if IsConflicted(plan, t.name) then TensorBytes(t, plan.topType) - TensorBytes(t, TypeFor(plan.families, FamilyOf(t.name)).value)
    else 0
  }

  function SkippedTotal(ts: seq<GgufTensor>, plan: Plan): int {
    if ts == [] then 0 else SkippedTotal(ts[..|ts| - 1], plan) + SkippedBytes(ts[|ts| - 1], plan)
  }

  function ConflictTotal(ts: seq<GgufTensor>, plan: Plan): int {
    if ts == [] then 0 else ConflictTotal(ts[..|ts| - 1], plan) + ConflictBytes(ts[|ts| - 1], plan)
  }

  function TierBytes(t: GgufTensor, plan: Plan, labels: Labels): int {
    match TierOf(plan, labels, t.name)
    case Skipped => 0
    case InTier(_, qtype) => TensorBytes(t, qtype)
  }

  lemma OneTensorIsConserved(t: GgufTensor, plan: Plan, labels: Labels)
    ensures TierBytes(t, plan, labels) + SkippedBytes(t, plan) + ConflictBytes(t, plan) == TensorBytes(t, EstimateType(plan, t.name))
  {
    hide FamilyOf, TypeFor, AnyFinds, TensorBytes, LabelFor, GetOr;
  }

  /** Conservation: tiers, skipped embeddings and what the conflicted tensors lack make up the estimate, always. */
  lemma {:induction false} BytesAreConserved(ts: seq<GgufTensor>, plan: Plan, labels: Labels)
    ensures SumSizes(TierSizes(ts, plan, labels)) + SkippedTotal(ts, plan) + ConflictTotal(ts, plan) == EstimateTotal(ts, plan)
  {
    assert SumSizes([]) == 0;
    hide TierOf, TensorBytes, SkippedBytes, ConflictBytes, EstimateType, SumSizes, AddTo;
    if ts != [] {
      var t, sizes := ts[|ts| - 1], TierSizes(ts[..|ts| - 1], plan, labels);
      BytesAreConserved(ts[..|ts| - 1], plan, labels);
      OneTensorIsConserved(t, plan, labels);
      if TierOf(plan, labels, t.name).InTier? {
        var tier := TierOf(plan, labels, t.name);
        AddToAdds(sizes, tier.row, TensorBytes(t, tier.qtype));
      }
    }
  }

  lemma {:induction false} NoConflictsNoDifference(ts: seq<GgufTensor>, plan: Plan)
    requires forall k :: 0 <= k < |ts| ==> !IsConflicted(plan, ts[k].name)
    ensures ConflictTotal(ts, plan) == 0
  {
    hide IsConflicted;
    if ts != [] {
      NoConflictsNoDifference(ts[..|ts| - 1], plan);
    }
  }

  /** Without conflicted tensors the tiers and the skipped embeddings make up the estimate. */
  lemma TiersMakeUpTheEstimate(ts: seq<GgufTensor>, plan: Plan, labels: Labels)
    requires forall k :: 0 <= k < |ts| ==> !IsConflicted(plan, ts[k].name)
    ensures SumSizes(TierSizes(ts, plan, labels)) + SkippedTotal(ts, plan) == EstimateTotal(ts, plan)
  {
    BytesAreConserved(ts, plan, labels);
    NoConflictsNoDifference(ts, plan);
  }

  const SSM_ALPHA := "blk.0" + "." + "ssm_alpha" + ".weight"

  /** A tensor pinned to F16 whose family the user gave Q8_0. */
  const PINNED_PLAN := Plan([("ssm_alpha", "Q8_0")], {}, ["ssm_alpha" + "\\..*"], "Q4_K_M", true, "F16", {})

  lemma PinIsFound()
    ensures AnyFinds(["ssm_alpha" + "\\..*"], SSM_ALPHA) && FamilyOf(SSM_ALPHA) == "ssm_alpha"
  {
    var fam := "ssm_alpha";
    PlainNames();
    assert SSM_ALPHA == "blk.0" + "." + fam + ".weight";
    assert fam[0] != OTHER[0];
    hide *;
    FamilyOfWeight("blk.0", fam);
    NameContainsItsFamily(SSM_ALPHA);
    WordDotFindsContaining(fam, SSM_ALPHA);
    OnePattern(fam + "\\..*", SSM_ALPHA);
  }

  lemma OnePattern(pattern: string, name: string)
    requires Search(pattern, name)
    ensures AnyFinds([pattern], name)
  {
    hide Search;
    assert [pattern][0] == pattern;
  }

  lemma PinnedFamilyIsConflicted(plan: Plan, name: string, qtype: string)
    requires plan.families == [(FamilyOf(name), qtype)] && plan.topNames == {} && plan.preserved == {}
    requires AnyFinds(plan.pins, name) && !IsEmbedding(name) && IsExplicit(qtype) && qtype != plan.topType
    ensures IsConflicted(plan, name) && EstimateType(plan, name) == plan.topType
    ensures TypeFor(plan.families, FamilyOf(name)) == Some(qtype)
  {
    hide FamilyOf, AnyFinds, IsEmbedding;
  }

  lemma SsmAlphaIsConflicted()
    ensures IsConflicted(PINNED_PLAN, SSM_ALPHA) && !IsEmbedding(SSM_ALPHA) && EstimateType(PINNED_PLAN, SSM_ALPHA) == "F16"
    ensures TypeFor(PINNED_PLAN.families, FamilyOf(SSM_ALPHA)) == Some("Q8_0")
  {
    PinIsFound();
    assert IsExplicit("Q8_0") && "Q8_0" != "F16";
    assert !IsEmbedding(SSM_ALPHA) by {
      assert "ssm_alpha"[0] == 's' && "token_embd"[0] == 't' && "output"[0] == 'o';
    }
    hide FamilyOf, AnyFinds, IsEmbedding, IsExplicit, IsConflicted, EstimateType, TypeFor;
    PinnedFamilyIsConflicted(PINNED_PLAN, SSM_ALPHA, "Q8_0");
  }

  lemma EightParamsWeigh(t: GgufTensor)
    requires t.params == 8
    ensures TensorBytes(t, "F16") == 16 && TensorBytes(t, "Q8_0") == 8
  {
    assert BitsPerWeight("F16", t.bits) == 16.0 && BitsPerWeight("Q8_0", t.bits) == 8.5;
  }

  /** The row says 8 bytes, the estimate 16. */
  lemma TiersFallShort(t: GgufTensor, labels: Labels)
    requires t.name == SSM_ALPHA && t.params == 8
    ensures SumSizes(TierSizes([t], PINNED_PLAN, labels)) + SkippedTotal([t], PINNED_PLAN) == 8
    ensures EstimateTotal([t], PINNED_PLAN) == 16
  {
    SsmAlphaIsConflicted();
    EightParamsWeigh(t);
    BytesAreConserved([t], PINNED_PLAN, labels);
    assert [t][..0] == [];
    hide FamilyOf, AnyFinds, TensorBytes, TierSizes, TypeFor, IsConflicted, SumSizes, EstimateType, IsEmbedding;
  }

  /** No type in the plan has more bits than the top type. */
  predicate TopIsLargest(plan: Plan, bits: real) {
    forall k :: 0 <= k < |plan.families| ==>
      BitsPerWeight(plan.families[k].1, bits) <= BitsPerWeight(plan.topType, bits)
  }

  lemma {:induction false} TypeForIsListed(fq: FamilyTypes, fam: string)
    ensures TypeFor(fq, fam).Some? ==> exists k :: 0 <= k < |fq| && fq[k] == (fam, TypeFor(fq, fam).value)
  {
    if fq != [] && fq[0].0 != fam {
      TypeForIsListed(fq[1..], fam);
      if TypeFor(fq, fam).Some? {
        var k :| 0 <= k < |fq[1..]| && fq[1..][k] == (fam, TypeFor(fq, fam).value);
        assert fq[k + 1] == fq[1..][k];
      }
    }
  }

  /** When the top type is the largest, the tiers make up the estimate exactly when every conflicted tensor weighs the
      same either way; otherwise they fall short of it, and never exceed it. */
  lemma {:induction false} TiersNeverOverstate(ts: seq<GgufTensor>, plan: Plan)
    requires forall k :: 0 <= k < |ts| ==> TopIsLargest(plan, ts[k].bits)
    ensures ConflictTotal(ts, plan) >= 0
    ensures ConflictTotal(ts, plan) == 0 <==> forall k :: 0 <= k < |ts| ==> ConflictBytes(ts[k], plan) == 0
  {
    hide ConflictBytes, TopIsLargest;
    if ts != [] {
      var init, t := ts[..|ts| - 1], ts[|ts| - 1];
      TiersNeverOverstate(init, plan);
      ConflictIsNotNegative(t, plan);
      assert forall k :: 0 <= k < |init| ==> ts[k] == init[k];
    }
  }

  lemma ConflictIsNotNegative(t: GgufTensor, plan: Plan)
    requires TopIsLargest(plan, t.bits)
    ensures ConflictBytes(t, plan) >= 0
  {
    if IsConflicted(plan, t.name) {
      var fam := FamilyOf(t.name);
      TypeForIsListed(plan.families, fam);
      BytesGrow(t, TypeFor(plan.families, fam).value, plan.topType);
    }
    hide FamilyOf, TypeFor, AnyFinds, TensorBytes, BitsPerWeight, IsExplicit, IsEmbedding;
  }

  /** Each row's entry is what its tensors weigh, and no row has two entries. */
  lemma {:induction false} EntriesAreTheirTensors(ts: seq<GgufTensor>, plan: Plan, labels: Labels, row: string)
    ensures SizeAt(TierSizes(ts, plan, labels), row) == LabelTotal(ts, plan, labels, row)
    ensures Distinct(LabelsOf(TierSizes(ts, plan, labels)))
  {
    assert SizeAt([], row) == 0 && LabelsOf([]) == [];
    hide TierOf, TensorBytes, SizeAt, AddTo, LabelsOf;
    if ts != [] {
      var t, sizes := ts[|ts| - 1], TierSizes(ts[..|ts| - 1], plan, labels);
      EntriesAreTheirTensors(ts[..|ts| - 1], plan, labels, row);
      if TierOf(plan, labels, t.name).InTier? {
        var tier := TierOf(plan, labels, t.name);
        AddToAdds(sizes, tier.row, TensorBytes(t, tier.qtype));
      }
    }
  }

  function LabelTotal(ts: seq<GgufTensor>, plan: Plan, labels: Labels, row: string): int {
    if ts == [] then 0
    else
      var rest, t := LabelTotal(ts[..|ts| - 1], plan, labels, row), ts[|ts| - 1];
      match TierOf(plan, labels, t.name)
      case Skipped => rest
      case InTier(l, qtype) => if l == row then rest + TensorBytes(t, qtype) else rest
  }
}
