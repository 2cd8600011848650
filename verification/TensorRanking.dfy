/**
 Ranking tensors by energy (BRAIN-DAEMON/quantize/inspect-imatrix.py): the stable descending sort both emitters
 use, and the cumulative tiers.  Energies are reals.
 */
module TensorRanking {
  import opened Helpers

  datatype TensorStat = TensorStat(name: string, energy: real)

  // ---------------------------------------------------------------- sorted(..., key=energy, reverse=True)

  predicate Descending(ts: seq<TensorStat>) {
    forall i, j :: 0 <= i < j < |ts| ==> ts[i].energy >= ts[j].energy
  }

  function Insert(t: TensorStat, sorted: seq<TensorStat>): seq<TensorStat> {
    if sorted == [] || t.energy >= sorted[0].energy then [t] + sorted
    else [sorted[0]] + Insert(t, sorted[1..])
  }

  /** The stable sort, hottest first. */
  function SortDescending(ts: seq<TensorStat>): seq<TensorStat> {
    if ts == [] then [] else Insert(ts[0], SortDescending(ts[1..]))
  }

  lemma {:induction false} InsertKeepsAll(t: TensorStat, sorted: seq<TensorStat>)
    ensures multiset(Insert(t, sorted)) == multiset(sorted) + multiset{t}
    ensures |Insert(t, sorted)| == |sorted| + 1
  {
    if sorted != [] && t.energy < sorted[0].energy {
      InsertKeepsAll(t, sorted[1..]);
      assert sorted == [sorted[0]] + sorted[1..];
    }
  }

  predicate AtMost(ts: seq<TensorStat>, top: real) {
    forall j :: 0 <= j < |ts| ==> ts[j].energy <= top
  }

  lemma {:induction false} InsertSorts(t: TensorStat, sorted: seq<TensorStat>)
    requires Descending(sorted)
    ensures Descending(Insert(t, sorted))
    ensures forall top :: t.energy <= top && AtMost(sorted, top) ==> AtMost(Insert(t, sorted), top)
  {
    if sorted != [] && t.energy < sorted[0].energy {
      InsertSorts(t, sorted[1..]);
      assert AtMost(sorted[1..], sorted[0].energy);
      assert forall top :: AtMost(sorted, top) ==> sorted[0].energy <= top && AtMost(sorted[1..], top);
    }
  }

  lemma {:induction false} SortSorts(ts: seq<TensorStat>)
    ensures Descending(SortDescending(ts))
    ensures multiset(SortDescending(ts)) == multiset(ts)
    ensures |SortDescending(ts)| == |ts|
  {
    hide Insert;
    if ts != [] {
      SortSorts(ts[1..]);
      InsertSorts(ts[0], SortDescending(ts[1..]));
      InsertKeepsAll(ts[0], SortDescending(ts[1..]));
      assert ts == [ts[0]] + ts[1..];
    }
  }

  /** Those of one energy, in order. */
  function WithEnergy(ts: seq<TensorStat>, e: real): seq<TensorStat> {
    if ts == [] then []
    else if ts[0].energy == e then [ts[0]] + WithEnergy(ts[1..], e) else WithEnergy(ts[1..], e)
  }

  /** They are all of that energy, in the order of the whole. */
  lemma {:induction false} SameEnergyInOrder(ts: seq<TensorStat>, e: real)
    ensures Subsequence(WithEnergy(ts, e), ts)
    ensures forall t :: multiset(WithEnergy(ts, e))[t] == if t.energy == e then multiset(ts)[t] else 0
  {
    if ts != [] {
      SameEnergyInOrder(ts[1..], e);
      assert ts == [ts[0]] + ts[1..];
      var rest := WithEnergy(ts[1..], e);
      assert ([ts[0]] + rest)[1..] == rest;
    }
  }

  lemma {:induction false} InsertIsStable(t: TensorStat, sorted: seq<TensorStat>, e: real)
    requires Descending(sorted)
    ensures WithEnergy(Insert(t, sorted), e) == WithEnergy([t] + sorted, e)
  {
    assert ([t] + sorted)[1..] == sorted;
    if sorted != [] && t.energy < sorted[0].energy {
      InsertIsStable(t, sorted[1..], e);
      var rest := Insert(t, sorted[1..]);
      assert ([sorted[0]] + rest)[1..] == rest && ([t] + sorted[1..])[1..] == sorted[1..];
    }
  }

  /** Equal energies keep their order. */
  lemma {:induction false} SortIsStable(ts: seq<TensorStat>, e: real)
    ensures WithEnergy(SortDescending(ts), e) == WithEnergy(ts, e)
  {
    if ts != [] {
      var sorted := SortDescending(ts[1..]);
      SortSorts(ts[1..]);
      SortIsStable(ts[1..], e);
      InsertIsStable(ts[0], sorted, e);
      assert ([ts[0]] + sorted)[1..] == sorted;
    }
  }

  // ---------------------------------------------------------------- cumulative tiers

  function Energy(ts: seq<TensorStat>): real {
    if ts == [] then 0.0 else Energy(ts[..|ts| - 1]) + ts[|ts| - 1].energy
  }

  predicate NonNegative(ts: seq<TensorStat>) {
    forall k :: 0 <= k < |ts| ==> ts[k].energy >= 0.0
  }

  /** `sum(...) or 1.0` */
  function Whole(ts: seq<TensorStat>): real {
    if Energy(ts) == 0.0 then 1.0 else Energy(ts)
  }

  /** The share of the whole accumulated strictly before tensor `j`. */
  function ShareBefore(sorted: seq<TensorStat>, j: nat): real
    requires j <= |sorted|
  {
    Energy(sorted[..j]) / Whole(sorted)
  }

  /** The least tier whose cut is at least `share`; `|cuts|` stands for the base type. */
  predicate IsTierFor(cuts: seq<real>, share: real, tier: nat) {
    && tier <= |cuts|
    && (forall i :: 0 <= i < tier ==> cuts[i] < share)
    && (tier < |cuts| ==> share <= cuts[tier])
  }

  lemma {:induction false} EnergyIsNonNegative(ts: seq<TensorStat>)
    requires NonNegative(ts)
    ensures Energy(ts) >= 0.0
  {
    if ts != [] {
      EnergyIsNonNegative(ts[..|ts| - 1]);
    }
  }

  lemma DivisionKeepsOrder(x: real, y: real, whole: real)
    requires x <= y && whole > 0.0
    ensures x / whole <= y / whole
  {
    var p, q := x / whole, y / whole;
    assert p * whole == x && q * whole == y;
    ScalingKeepsOrder(p, q, whole);
  }

  /** The share accumulated grows along the ranking. */
  lemma ShareGrows(sorted: seq<TensorStat>, j: nat)
    requires NonNegative(sorted) && j < |sorted|
    ensures ShareBefore(sorted, j) <= ShareBefore(sorted, j + 1)
    ensures Energy(sorted[..j + 1]) == Energy(sorted[..j]) + sorted[j].energy
  {
    assert sorted[..j + 1][..j] == sorted[..j];
    EnergyIsNonNegative(sorted);
    DivisionKeepsOrder(Energy(sorted[..j]), Energy(sorted[..j + 1]), Whole(sorted));
  }

  method SumEnergy(ts: seq<TensorStat>) returns (total: real)
    ensures total == Energy(ts)
  {
    total := 0.0;
    for j := 0 to |ts|
      invariant total == Energy(ts[..j])
    {
      assert ts[..j + 1][..j] == ts[..j];
      total := total + ts[j].energy;
    }
    assert ts[..|ts|] == ts;
  }

  /** The loop of the cumulative emitter: the tier of each tensor of the ranking. */
  method AssignTiers(sorted: seq<TensorStat>, cuts: seq<real>) returns (tiers: seq<nat>)
    requires NonNegative(sorted)
    ensures |tiers| == |sorted|
    ensures forall j :: 0 < j < |sorted| ==> IsTierFor(cuts, ShareBefore(sorted, j), tiers[j])
    ensures sorted != [] ==> tiers[0] == 0
    ensures forall j :: 0 < j < |sorted| ==> tiers[j - 1] <= tiers[j]
  {
    var total := SumEnergy(sorted);
    var whole := if total == 0.0 then 1.0 else total;
    assert whole == Whole(sorted);
    tiers := [];
    var cum, tier := 0.0, 0;
    for j := 0 to |sorted|
      invariant |tiers| == j && cum == Energy(sorted[..j])
      invariant if j == 0 then tier == 0 else IsTierFor(cuts, ShareBefore(sorted, j), tier) && tiers[j - 1] <= tier
      invariant j > 0 ==> tiers[0] == 0
      invariant forall i :: 0 < i < j ==> IsTierFor(cuts, ShareBefore(sorted, i), tiers[i]) && tiers[i - 1] <= tiers[i]
    {
      tiers := tiers + [tier];
      ShareGrows(sorted, j);
      cum := cum + sorted[j].energy;
      var ratio := cum / whole;
      assert ratio == ShareBefore(sorted, j + 1);
      hide ShareBefore, Energy, Whole;
      tier := Advance(cuts, ratio, tier);
    }
  }

  /** Step past every cut the accumulated share has left behind. */
  method Advance(cuts: seq<real>, ratio: real, from: nat) returns (tier: nat)
    requires from <= |cuts| && forall i :: 0 <= i < from ==> cuts[i] < ratio
    ensures from <= tier && IsTierFor(cuts, ratio, tier)
  {
    tier := from;
    while tier < |cuts| && ratio > cuts[tier]
      invariant from <= tier <= |cuts|
      invariant forall i :: 0 <= i < tier ==> cuts[i] < ratio
    {
      tier := tier + 1;
    }
  }

  /** The first tensor is never looked at against the cuts: it gets the first tier, which is the tier its empty share
      asks for exactly when the first cut is not negative. */
  lemma FirstTensorTier(cuts: seq<real>)
    ensures IsTierFor(cuts, 0.0, 0) <==> cuts == [] || cuts[0] >= 0.0
  {
  }

  /** With increasing cuts, the tiers up to `i` overshoot cut `i` by at most their last tensor. */
  lemma TiersOvershootByOne(sorted: seq<TensorStat>, cuts: seq<real>, tiers: seq<nat>, i: nat, last: nat)
    requires |tiers| == |sorted| && last < |sorted| && i < |cuts|
    requires forall a, b :: 0 <= a < b < |cuts| ==> cuts[a] <= cuts[b]
    requires cuts[0] >= 0.0 && tiers[0] == 0
    requires forall j :: 0 < j < |sorted| ==> IsTierFor(cuts, ShareBefore(sorted, j), tiers[j])
    requires tiers[last] <= i && (last + 1 < |sorted| ==> tiers[last + 1] > i)
    ensures ShareBefore(sorted, last) <= cuts[i]
    ensures last + 1 < |sorted| ==> ShareBefore(sorted, last + 1) > cuts[i]
  {
    if last == 0 {
      assert sorted[..0] == [];
    } else {
      assert IsTierFor(cuts, ShareBefore(sorted, last), tiers[last]);
    }
    if last + 1 < |sorted| {
      assert IsTierFor(cuts, ShareBefore(sorted, last + 1), tiers[last + 1]);
    }
  }

  lemma {:induction false} Climbs(tiers: seq<nat>, a: nat, b: nat)
    requires a <= b < |tiers| && forall j :: 0 < j < |tiers| ==> tiers[j - 1] <= tiers[j]
    ensures tiers[a] <= tiers[b]
    decreases b - a
  {
    if a < b {
      Climbs(tiers, a, b - 1);
    }
  }

  /** The whole emitter on tensors in any order: no hotter tensor gets a later tier than a cooler one. */
  method CumulativeTiers(tensors: seq<TensorStat>, cuts: seq<real>) returns (ranking: seq<TensorStat>, tiers: seq<nat>)
    requires NonNegative(tensors)
    ensures ranking == SortDescending(tensors) && |tiers| == |ranking| == |tensors|
    ensures forall j :: 0 < j < |ranking| ==> IsTierFor(cuts, ShareBefore(ranking, j), tiers[j])
    ensures ranking != [] ==> tiers[0] == 0
    ensures forall a, b :: 0 <= a < |ranking| && 0 <= b < |ranking| && ranking[a].energy > ranking[b].energy ==>
      tiers[a] <= tiers[b]
  {
    ranking := SortDescending(tensors);
    SortSorts(tensors);
    hide SortDescending, ShareBefore, IsTierFor;
    forall k | 0 <= k < |ranking| ensures ranking[k].energy >= 0.0 {
      assert ranking[k] in multiset(ranking) && ranking[k] in multiset(tensors);
    }
    tiers := AssignTiers(ranking, cuts);
    forall a: nat, b: nat | a < |ranking| && b < |ranking| && ranking[a].energy > ranking[b].energy
      ensures tiers[a] <= tiers[b]
    {
      if a <= b {
        Climbs(tiers, a, b);
      }
    }
  }
}
