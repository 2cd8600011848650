/**
 What the size predictions (BRAIN-DAEMON/quantize/brain-quant.py) and the cumulative ranking (inspect-imatrix.py) amount to
 in numbers: the bits of every type, the bytes of a tensor, which choice decides a tensor's type, and the shares of energy.
 */
module SizeMeaning {
  import opened Helpers
  import opened PresetEmitter
  import opened PresetMeaning
  import opened PresetSizes
  import opened QuantFlags
  import opened TensorRanking

  // ---------------------------------------------------------------- bytes

  /** Thirteen types have a known number of bits per weight; any other keeps those the tensor has now. */
  lemma BitsOfTypes(target: string, now: real)
    ensures BitsPerWeight(target, now) ==
      match target
      case "F32" => 32.0
      case "F16" => 16.0
      case "BF16" => 16.0
      case "Q8_0" => 8.5
      case "Q8_K" => 8.5
      case "Q6_K" => 6.5625
      case "Q5_K_M" => 5.5
      case "Q5_K" => 5.5
      case "Q4_K_M" => 4.5
      case "Q4_K" => 4.5
      case "Q4_0" => 4.5
      case "Q3_K" => 3.4375
      case "Q2_K" => 2.625
      case _ => now
  {
  }

  /** A tensor takes as many whole bytes as its bits fill, for bits that are not negative. */
  lemma BytesOfBits(t: GgufTensor, target: string)
    ensures var bits, n := t.params as real * BitsPerWeight(target, t.bits), TensorBytes(t, target);
      && (bits >= 0.0 ==> 8.0 * n as real <= bits < 8.0 * n as real + 8.0)
      && (bits <= 0.0 ==> 8.0 * n as real - 8.0 < bits <= 8.0 * n as real)
  {
    hide BitsPerWeight;
    BytesFilled(Bits(t, target));
  }

  lemma BytesFilled(bits: real)
    ensures var n := BytesOf(bits);
      && (bits >= 0.0 ==> 8.0 * n as real <= bits < 8.0 * n as real + 8.0)
      && (bits <= 0.0 ==> 8.0 * n as real - 8.0 < bits <= 8.0 * n as real)
  {
    var x := bits / 8.0;
    assert x * 8.0 == bits;
  }

  // ---------------------------------------------------------------- types

  /** The family's type in the plan: the first entry under its name, unless it is empty or `base`. */
  predicate HasOwnType(fq: FamilyTypes, fam: string, qtype: string) {
    qtype != "" && qtype != "base"
    && exists k :: 0 <= k < |fq| && fq[k] == (fam, qtype) && forall j :: 0 <= j < k ==> fq[j].0 != fam
  }

  lemma {:induction false} TypeForIsFirst(fq: FamilyTypes, fam: string, qtype: string)
    ensures TypeFor(fq, fam) == Some(qtype) <==>
      exists k :: 0 <= k < |fq| && fq[k] == (fam, qtype) && forall j :: 0 <= j < k ==> fq[j].0 != fam
  {
    if fq != [] {
      var rest := fq[1..];
      TypeForIsFirst(rest, fam, qtype);
      if k :| 0 <= k < |rest| && rest[k] == (fam, qtype) && forall j :: 0 <= j < k ==> rest[j].0 != fam {
        assert fq[k + 1] == (fam, qtype);
        assert fq[0].0 != fam ==> forall j :: 0 <= j < k + 1 ==> fq[j].0 != fam;
      }
      if k :| 0 <= k < |fq| && fq[k] == (fam, qtype) && forall j :: 0 <= j < k ==> fq[j].0 != fam {
        if k > 0 {
          assert rest[k - 1] == (fam, qtype) && forall j :: 0 <= j < k - 1 ==> rest[j] == fq[j + 1];
        }
      }
    }
  }

  lemma OwnTypeIs(fq: FamilyTypes, fam: string, qtype: string)
    ensures HasOwnType(fq, fam, qtype) <==> TypeFor(fq, fam) == Some(qtype) && IsExplicit(qtype)
  {
    TypeForIsFirst(fq, fam, qtype);
    hide TypeFor;
  }

  predicate KeptEmbedding(plan: Plan, tensor: string) {
    plan.embeddings && (FamilyOf(tensor) == "token_embd" || FamilyOf(tensor) == "output")
  }

  /** The estimate asks in this order: kept as in the source, embedding, pin or bonus, family, base. */
  lemma EstimateInOrder(plan: Plan, tensor: string, own: string)
    ensures tensor in plan.preserved ==> EstimateType(plan, tensor) == "F16"
    ensures tensor !in plan.preserved && (KeptEmbedding(plan, tensor) || AnyFinds(plan.pins, tensor) || tensor in plan.topNames) ==>
      EstimateType(plan, tensor) == plan.topType
    ensures
      tensor !in plan.preserved && !KeptEmbedding(plan, tensor) && !AnyFinds(plan.pins, tensor) && tensor !in plan.topNames ==>
      && (HasOwnType(plan.families, FamilyOf(tensor), own) ==> EstimateType(plan, tensor) == own)
      && ((forall qtype :: !HasOwnType(plan.families, FamilyOf(tensor), qtype)) ==> EstimateType(plan, tensor) == plan.base)
  {
    var fam := FamilyOf(tensor);
    forall qtype ensures HasOwnType(plan.families, fam, qtype) <==> TypeFor(plan.families, fam) == Some(qtype) && IsExplicit(qtype) {
      OwnTypeIs(plan.families, fam, qtype);
    }
    hide FamilyOf, TypeFor, AnyFinds, HasOwnType;
  }

  /** The breakdown asks for bonus and family before pins; embeddings have no row. */
  lemma TiersInOrder(plan: Plan, labels: Labels, tensor: string, own: string)
    ensures var fam, tier := FamilyOf(tensor), TierOf(plan, labels, tensor);
      if tensor in plan.preserved then tier == InTier("F16 (pr\U{E9}serv\U{E9} source)", "F16")
      else if KeptEmbedding(plan, tensor) then tier == Skipped
      else if tensor in plan.topNames then
        tier == InTier(if fam in labels.bonus then labels.bonus[fam] else plan.topType + " bonus (famille " + fam + ")", plan.topType)
      else if HasOwnType(plan.families, fam, own) then
        tier == InTier(if fam in labels.family then labels.family[fam] else own + " (famille " + fam + ")", own)
      else if exists qtype :: HasOwnType(plan.families, fam, qtype) then true
      else if AnyFinds(plan.pins, tensor) then
        tier == InTier(if labels.pins.Some? then labels.pins.value else plan.topType + " (pins auto)", plan.topType)
      else tier == InTier(if labels.base.Some? then labels.base.value else plan.base + " (base)", plan.base)
  {
    var fam := FamilyOf(tensor);
    forall qtype ensures HasOwnType(plan.families, fam, qtype) <==> TypeFor(plan.families, fam) == Some(qtype) && IsExplicit(qtype) {
      OwnTypeIs(plan.families, fam, qtype);
    }
    hide FamilyOf, TypeFor, AnyFinds, HasOwnType;
  }

  // ---------------------------------------------------------------- totals

  /** Both totals are sums over the tensors: one tensor counts for itself, and two lists for both. */
  lemma {:induction false} TotalsAdd(a: seq<GgufTensor>, b: seq<GgufTensor>, plan: Plan)
    ensures EstimateTotal(a + b, plan) == EstimateTotal(a, plan) + EstimateTotal(b, plan)
    ensures CurrentTotal(a + b) == CurrentTotal(a) + CurrentTotal(b)
    decreases |b|
  {
    hide TensorBytes, EstimateType;
    if b == [] {
      assert a + b == a;
    } else {
      TotalsAdd(a, b[..|b| - 1], plan);
      assert (a + b)[..|a + b| - 1] == a + b[..|b| - 1];
    }
  }

  lemma TotalsOfOne(t: GgufTensor, plan: Plan)
    ensures EstimateTotal([t], plan) == TensorBytes(t, EstimateType(plan, t.name))
    ensures CurrentTotal([t]) == t.current
  {
    hide TensorBytes, EstimateType;
    assert [t][..0] == [];
  }

  // ---------------------------------------------------------------- shares of energy

  lemma {:induction false} EnergiesAdd(a: seq<TensorStat>, b: seq<TensorStat>)
    ensures Energy(a + b) == Energy(a) + Energy(b)
    decreases |b|
  {
    if b == [] {
      assert a + b == a;
    } else {
      EnergiesAdd(a, b[..|b| - 1]);
      assert (a + b)[..|a + b| - 1] == a + b[..|b| - 1];
    }
  }

  lemma PartsOfEnergy(sorted: seq<TensorStat>, j: nat)
    requires j < |sorted|
    ensures Energy(sorted[..j]) + Energy(sorted[j..]) == Energy(sorted) && Energy([sorted[j]]) == sorted[j].energy
  {
    EnergiesAdd(sorted[..j], sorted[j..]);
    assert sorted[..j] + sorted[j..] == sorted;
    assert [sorted[j]][..0] == [];
  }

  lemma DividedAndBack(part: real, whole: real)
    requires whole != 0.0
    ensures part / whole * whole == part
  {
  }

  /** The share before a tensor is the energy of the tensors before it over the energy of all; without any energy it is
      divided by one. */
  lemma ShareInNumbers(sorted: seq<TensorStat>, j: nat)
    requires j < |sorted|
    ensures Energy(sorted) != 0.0 ==> ShareBefore(sorted, j) * Energy(sorted) == Energy(sorted[..j])
    ensures Energy(sorted) == 0.0 ==> ShareBefore(sorted, j) == Energy(sorted[..j])
    ensures Energy(sorted[..j]) + Energy(sorted[j..]) == Energy(sorted) && Energy([sorted[j]]) == sorted[j].energy
  {
    hide Energy;
    PartsOfEnergy(sorted, j);
    DividedAndBack(Energy(sorted[..j]), Whole(sorted));
    hide Whole;
  }

  /** Without negative energies the shares run from 0 to at most 1. */
  lemma SharesAreShares(sorted: seq<TensorStat>, j: nat)
    requires NonNegative(sorted) && j < |sorted|
    ensures 0.0 <= ShareBefore(sorted, j) <= 1.0 && ShareBefore(sorted, 0) == 0.0
  {
    EnergyIsNonNegative(sorted[..j]);
    EnergyIsNonNegative(sorted[j..]);
    PartsOfEnergy(sorted, j);
    assert sorted[..0] == [] && Energy(sorted[..0]) == 0.0;
    hide Energy;
    PartOfWhole(Energy(sorted[..j]), Whole(sorted));
    PartOfWhole(0.0, Whole(sorted));
  }

  lemma PartOfWhole(part: real, whole: real)
    requires 0.0 <= part <= whole && whole > 0.0
    ensures 0.0 <= part / whole <= 1.0 && (part == 0.0 ==> part / whole == 0.0)
  {
    DivisionKeepsOrder(0.0, part, whole);
    DivisionKeepsOrder(part, whole, whole);
  }
}
