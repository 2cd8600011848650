/**
 Emitting a custom preset from tensor statistics (BRAIN-DAEMON/quantize/inspect-imatrix.py, `emit_preset_custom`):
 which tensors of each family get the bonus type, the override rules that say so, and the counts shown for it.
 */
module PresetEmitter {
  import opened Helpers
  import opened TensorRanking
  import opened RegexLite

  // ---------------------------------------------------------------- families

  function Without(name: string, suffix: string): Option<string> {
    if |suffix| <= |name| && name[|name| - |suffix|..] == suffix then Some(name[..|name| - |suffix|]) else None
  }

  /** What follows the last dot. */
  function LastSegment(s: string): string {
    if s == [] || s[|s| - 1] == '.' then "" else LastSegment(s[..|s| - 1]) + [s[|s| - 1]]
  }

  const OTHER := "_other"

  /** The last dotted segment before `.weight` or `.bias`. */
  function FamilyOf(name: string): string {
    var stem := if Without(name, ".weight").Some? then Without(name, ".weight") else Without(name, ".bias");
    if stem.None? || LastSegment(stem.value) == "" then OTHER else LastSegment(stem.value)
  }

  /** A tensor of a named family contains the family's name followed by a dot. */
  lemma NameContainsItsFamily(name: string)
    ensures FamilyOf(name) == OTHER || Contains(name, FamilyOf(name) + ".")
  {
    var long, short := Without(name, ".weight"), Without(name, ".bias");
    hide LastSegment, Contains;
    if long.Some? {
      SegmentIsContained(long.value, "weight");
      assert ".weight" == "." + "weight";
      assert name == long.value + "." + "weight";
    } else if short.Some? {
      SegmentIsContained(short.value, "bias");
      assert ".bias" == "." + "bias";
      assert name == short.value + "." + "bias";
    }
  }

  lemma SegmentIsContained(stem: string, ending: string)
    ensures Contains(stem + "." + ending, LastSegment(stem) + ".")
    ensures stem + "." + ending == stem + ("." + ending)
  {
    var fam, name := LastSegment(stem), stem + "." + ending;
    LastSegmentEnds(stem);
    hide LastSegment;
    var k := |stem| - |fam|;
    assert name[k..] == stem[k..] + "." + ending;
    assert fam + "." <= name[k..];
  }

  lemma {:induction false} LastSegmentEnds(s: string)
    ensures |LastSegment(s)| <= |s| && s[|s| - |LastSegment(s)|..] == LastSegment(s)
  {
    if s != [] && s[|s| - 1] != '.' {
      LastSegmentEnds(s[..|s| - 1]);
    }
  }

  /** `fam` is what the family pattern captures: a dotless segment right before `.weight` or `.bias`. */
  ghost predicate IsCaptured(name: string, fam: string) {
    && fam != "" && '.' !in fam
    && exists head :: (head == "" || head[|head| - 1] == '.') && (name == head + fam + ".weight" || name == head + fam + ".bias")
  }

  lemma {:induction false} LastSegmentIsWhole(s: string)
    ensures '.' !in LastSegment(s) && |LastSegment(s)| <= |s|
    ensures var k := |s| - |LastSegment(s)|; k > 0 ==> s[k - 1] == '.'
  {
    if s != [] && s[|s| - 1] != '.' {
      LastSegmentIsWhole(s[..|s| - 1]);
    }
  }

  lemma {:induction false} LastSegmentOf(head: string, fam: string)
    requires '.' !in fam && (head == "" || head[|head| - 1] == '.')
    ensures LastSegment(head + fam) == fam
  {
    if fam == "" {
      assert head + fam == head;
    } else {
      var s := head + fam;
      assert s[..|s| - 1] == head + fam[..|fam| - 1];
      LastSegmentOf(head, fam[..|fam| - 1]);
    }
  }

  lemma Suffixes(stem: string)
    ensures Without(stem + ".weight", ".weight") == Some(stem)
    ensures Without(stem + ".bias", ".bias") == Some(stem) && Without(stem + ".bias", ".weight") == None
  {
    assert (stem + ".weight")[..|stem|] == stem && (stem + ".weight")[|stem|..] == ".weight";
    var name := stem + ".bias";
    assert name[..|stem|] == stem && name[|stem|..] == ".bias";
    assert name[|name| - 1] == 's' && ".weight"[6] == 't';
  }

  lemma SuffixFound(name: string, suffix: string)
    requires Without(name, suffix).Some?
    ensures name == Without(name, suffix).value + suffix
  {
  }

  lemma CapturedIsTheFamily(head: string, fam: string, name: string)
    requires fam != "" && '.' !in fam && (head == "" || head[|head| - 1] == '.')
    requires name == head + fam + ".weight" || name == head + fam + ".bias"
    ensures FamilyOf(name) == fam
  {
    var stem := head + fam;
    LastSegmentOf(head, fam);
    Suffixes(stem);
    hide LastSegment, Without;
    assert name == stem + ".weight" || name == stem + ".bias";
  }

  lemma FamilyIsTheSegment(stem: string, name: string)
    requires name == stem + ".weight" || name == stem + ".bias"
    ensures LastSegment(stem) != "" ==> IsCaptured(name, LastSegment(stem))
  {
    hide *;
    LastSegmentEnds(stem);
    LastSegmentIsWhole(stem);
    var fam := LastSegment(stem);
    var head := stem[..|stem| - |fam|];
    if fam != "" {
      HeadAndSegment(stem, head, fam);
      IsCapturedAs(head, fam, stem, name);
    }
  }

  lemma HeadAndSegment(stem: string, head: string, fam: string)
    requires |fam| <= |stem| && head == stem[..|stem| - |fam|] && fam == stem[|stem| - |fam|..]
    ensures stem == head + fam && (head != "" ==> head[|head| - 1] == stem[|stem| - |fam| - 1])
  {
  }

  lemma IsCapturedAs(head: string, fam: string, stem: string, name: string)
    requires fam != "" && '.' !in fam && (head == "" || head[|head| - 1] == '.') && stem == head + fam
    requires name == stem + ".weight" || name == stem + ".bias"
    ensures IsCaptured(name, fam)
  {
    assert name == head + fam + ".weight" || name == head + fam + ".bias";
  }

  /** The family is the segment the pattern captures; it is `_other` for names the pattern does not find. */
  lemma FamilyIsCaptured(name: string, fam: string)
    ensures IsCaptured(name, fam) ==> FamilyOf(name) == fam
    ensures IsCaptured(name, FamilyOf(name)) || FamilyOf(name) == "_other"
  {
    if IsCaptured(name, fam) {
      var head :| (head == "" || head[|head| - 1] == '.') && (name == head + fam + ".weight" || name == head + fam + ".bias");
      CapturedIsTheFamily(head, fam, name);
    }
    hide LastSegment, Without, IsCaptured;
    if Without(name, ".weight").Some? {
      SuffixFound(name, ".weight");
      FamilyIsTheSegment(Without(name, ".weight").value, name);
    } else if Without(name, ".bias").Some? {
      SuffixFound(name, ".bias");
      FamilyIsTheSegment(Without(name, ".bias").value, name);
    }
  }

  function FamilyMembers(ts: seq<TensorStat>, fam: string): seq<TensorStat> {
    if ts == [] then []
    else if FamilyOf(ts[|ts| - 1].name) == fam then FamilyMembers(ts[..|ts| - 1], fam) + [ts[|ts| - 1]]
    else FamilyMembers(ts[..|ts| - 1], fam)
  }

  /** The families of `ts`, in order of first appearance. */
  function Families(ts: seq<TensorStat>): seq<string> {
    if ts == [] then []
    else
      var earlier, fam := Families(ts[..|ts| - 1]), FamilyOf(ts[|ts| - 1].name);
      if fam in earlier then earlier else earlier + [fam]
  }

  lemma {:induction false} FamiliesAreDistinct(ts: seq<TensorStat>)
    ensures Distinct(Families(ts))
    ensures forall fam :: fam in Families(ts) <==> FamilyMembers(ts, fam) != []
  {
    if ts != [] {
      FamiliesAreDistinct(ts[..|ts| - 1]);
    }
  }

  /** A family is listed where its first tensor stands: the families of a front part of the tensors stand in front. */
  lemma {:induction false} FamiliesFirstAppear(ts: seq<TensorStat>, j: nat)
    requires j <= |ts|
    ensures Families(ts[..j]) <= Families(ts)
    decreases |ts| - j
  {
    hide FamilyOf;
    if j < |ts| {
      FamiliesFirstAppear(ts, j + 1);
      assert ts[..j + 1][..j] == ts[..j];
      assert Families(ts[..j]) <= Families(ts[..j + 1]);
    } else {
      assert ts[..j] == ts;
    }
  }

  /** A family's members are all its tensors, in their order. */
  lemma {:induction false} MembersInOrder(ts: seq<TensorStat>, fam: string)
    ensures Subsequence(FamilyMembers(ts, fam), ts)
    ensures forall t :: multiset(FamilyMembers(ts, fam))[t] == if FamilyOf(t.name) == fam then multiset(ts)[t] else 0
  {
    hide FamilyOf;
    if ts != [] {
      var init, last := ts[..|ts| - 1], ts[|ts| - 1];
      MembersInOrder(init, fam);
      SubsequenceGrows(FamilyMembers(init, fam), init, last);
      assert ts == init + [last];
    }
  }

  // ---------------------------------------------------------------- the bonus

  /** Choices per family, in dictionary order. */
  type FamilyTypes = seq<(string, string)>

  predicate DistinctKeys(fq: FamilyTypes) {
    forall i, j :: 0 <= i < j < |fq| ==> fq[i].0 != fq[j].0
  }

  function TypeFor(fq: FamilyTypes, fam: string): Option<string> {
    if fq == [] then None else if fq[0].0 == fam then Some(fq[0].1) else TypeFor(fq[1..], fam)
  }

  /** One fraction for all families, or one for each named family. */
  datatype Bonus = Everywhere(fraction: real) | PerFamily(fractions: map<string, real>)

  function Fraction(b: Bonus, fam: string): real {
    match b
    case Everywhere(f) => f
    case PerFamily(m) => if fam in m then m[fam] else 0.0
  }

  datatype Choices = Choices(base: string, families: FamilyTypes, bonus: Bonus, bonusType: string)

  const BASE := "base"

  /** A family takes part in the bonus unless it would have that type anyway. */
  predicate GetsBonus(c: Choices, fam: string) {
    var quant := if TypeFor(c.families, fam).Some? then TypeFor(c.families, fam).value else BASE;
    Fraction(c.bonus, fam) > 0.0 && quant != c.bonusType && !(quant == BASE && c.base == c.bonusType)
  }

  function Ceil(x: real): int {
    -((-x).Floor)
  }

  /** `max(1, ceil(n * fraction))` for a family that takes part, else 0. */
  function BonusCount(c: Choices, fam: string, n: nat): nat {
    if n == 0 || !GetsBonus(c, fam) then 0
    else
      var k := Ceil(n as real * Fraction(c.bonus, fam));
      if k < 1 then 1 else k
  }

  predicate FractionsFit(b: Bonus) {
    match b
    case Everywhere(f) => f <= 1.0
    case PerFamily(m) => forall fam :: fam in m ==> m[fam] <= 1.0
  }

  lemma BonusFits(c: Choices, fam: string, n: nat)
    requires FractionsFit(c.bonus)
    ensures BonusCount(c, fam, n) <= n
  {
    var f, x := Fraction(c.bonus, fam), n as real;
    Shrinks(x, f);
    CeilAtMost(x * f, n);
  }

  lemma CeilAtMost(x: real, n: int)
    requires x <= n as real
    ensures Ceil(x) <= n
  {
    assert (-n) as real <= -x;
  }

  lemma Shrinks(x: real, f: real)
    requires f <= 1.0 && x >= 0.0
    ensures x * f <= x
  {
  }

  /** The hottest tensors of a family, as many as its bonus allows. */
  function BonusTensors(ts: seq<TensorStat>, c: Choices, fam: string): seq<TensorStat> {
    var sorted := SortDescending(FamilyMembers(ts, fam));
    sorted[..Min(BonusCount(c, fam, |FamilyMembers(ts, fam)|), |sorted|)]
  }

  /** The bonus set of a family that takes part has `max(1, ceil(n f))` members, none cooler than any it leaves out. */
  lemma BonusDominates(ts: seq<TensorStat>, c: Choices, fam: string)
    requires FractionsFit(c.bonus)
    ensures var members, chosen := FamilyMembers(ts, fam), BonusTensors(ts, c, fam);
      && |chosen| == BonusCount(c, fam, |members|)
      && multiset(chosen) <= multiset(members)
      && forall a: TensorStat, b: TensorStat :: a in chosen && b in multiset(members) - multiset(chosen) ==> a.energy >= b.energy
  {
    var members := FamilyMembers(ts, fam);
    var sorted := SortDescending(members);
    var n := BonusCount(c, fam, |members|);
    hide SortDescending, BonusCount, FamilyMembers, Descending;
    SortSorts(members);
    BonusFits(c, fam, |members|);
    assert BonusTensors(ts, c, fam) == sorted[..n];
    hide *;
    TopOfSorted(sorted, n);
    TopIsPart(sorted, n);
  }

  lemma TopIsPart(sorted: seq<TensorStat>, n: nat)
    requires n <= |sorted|
    ensures multiset(sorted[..n]) <= multiset(sorted)
  {
    assert sorted == sorted[..n] + sorted[n..];
  }

  /** In a ranking nothing after position `n` is hotter than anything before it. */
  lemma TopOfSorted(sorted: seq<TensorStat>, n: nat)
    requires Descending(sorted) && n <= |sorted|
    ensures forall a: TensorStat, b: TensorStat ::
      a in sorted[..n] && b in multiset(sorted) - multiset(sorted[..n]) ==> a.energy >= b.energy
  {
    var chosen, rest := sorted[..n], sorted[n..];
    assert sorted == chosen + rest;
    forall a: TensorStat, b: TensorStat | a in chosen && b in multiset(sorted) - multiset(chosen)
      ensures a.energy >= b.energy
    {
      assert b in multiset(rest);
      assert b in rest;
      var i :| 0 <= i < |chosen| && chosen[i] == a;
      var j :| 0 <= j < |rest| && rest[j] == b;
      assert sorted[i] == a && sorted[n + j] == b;
    }
  }

  // ---------------------------------------------------------------- sums over families

  function Sum(names: seq<string>, g: string -> int): int {
    if names == [] then 0 else Sum(names[..|names| - 1], g) + g(names[|names| - 1])
  }

  /** Only those that (do not) occur in `others` count. */
  function Keep(g: string -> int, others: seq<string>, inside: bool): string -> int {
    f => if (f in others) == inside then g(f) else 0
  }

  lemma {:induction false} SumSplits(names: seq<string>, g: string -> int, others: seq<string>)
    ensures Sum(names, g) == Sum(names, Keep(g, others, true)) + Sum(names, Keep(g, others, false))
  {
    if names != [] {
      SumSplits(names[..|names| - 1], g, others);
    }
  }

  lemma {:induction false} SumOfOne(names: seq<string>, g: string -> int, name: string)
    requires Distinct(names)
    ensures Sum(names, f => if f == name then g(f) else 0) == if name in names then g(name) else 0
  {
    var h := f => if f == name then g(f) else 0;
    if names != [] {
      var init, last := names[..|names| - 1], names[|names| - 1];
      assert Distinct(init) && last !in init;
      SumOfOne(init, g, name);
      assert Sum(init, h) == Sum(init, f => if f == name then g(f) else 0) by {
        SumsAgree(init, h, f => if f == name then g(f) else 0);
      }
      SumsAgree(names, h, f => if f == name then g(f) else 0);
    }
  }

  lemma {:induction false} SumsAgree(names: seq<string>, g: string -> int, h: string -> int)
    requires forall f :: f in names ==> g(f) == h(f)
    ensures Sum(names, g) == Sum(names, h)
  {
    if names != [] {
      SumsAgree(names[..|names| - 1], g, h);
    }
  }

  lemma {:induction false} SumAdds(names: seq<string>, g: string -> int, h: string -> int, both: string -> int)
    requires forall f :: f in names ==> both(f) == g(f) + h(f)
    ensures Sum(names, both) == Sum(names, g) + Sum(names, h)
  {
    if names != [] {
      SumAdds(names[..|names| - 1], g, h, both);
    }
  }

  /** Counting the common names from either side gives the same. */
  lemma {:induction false} CommonSum(a: seq<string>, b: seq<string>, g: string -> int)
    requires Distinct(a) && Distinct(b)
    ensures Sum(a, Keep(g, b, true)) == Sum(b, Keep(g, a, true))
  {
    if b == [] {
      AllZero(a, Keep(g, [], true));
    } else {
      var init, last := b[..|b| - 1], b[|b| - 1];
      assert Distinct(init) && last !in init;
      CommonSum(a, init, g);
      SumOfOne(a, g, last);
      assert forall f :: f in b <==> f in init || f == last;
      SumAdds(a, Keep(g, init, true), f => if f == last then g(f) else 0, Keep(g, b, true));
    }
  }

  lemma {:induction false} AllZero(names: seq<string>, g: string -> int)
    requires forall f :: f in names ==> g(f) == 0
    ensures Sum(names, g) == 0
  {
    if names != [] {
      AllZero(names[..|names| - 1], g);
    }
  }

  function MemberCount(ts: seq<TensorStat>): string -> int {
    f => |FamilyMembers(ts, f)|
  }

  lemma {:induction false} FamiliesCoverAll(ts: seq<TensorStat>)
    ensures Sum(Families(ts), MemberCount(ts)) == |ts|
  {
    if ts != [] {
      var init, t := ts[..|ts| - 1], ts[|ts| - 1];
      var fam := FamilyOf(t.name);
      FamiliesCoverAll(init);
      FamiliesAreDistinct(init);
      FamiliesAreDistinct(ts);
      hide FamilyOf;
      if fam !in Families(init) {
        assert Families(ts) == Families(init) + [fam] && |FamilyMembers(ts, fam)| == 1;
        forall f | f in Families(init) ensures FamilyMembers(ts, f) == FamilyMembers(init, f) {
        }
        hide FamilyMembers, Families;
        OneNew(Families(init), MemberCount(init), MemberCount(ts), fam);
      } else {
        forall f ensures |FamilyMembers(ts, f)| == |FamilyMembers(init, f)| + if f == fam then 1 else 0 {
        }
        assert Families(ts) == Families(init);
        hide FamilyMembers, Families;
        OneMore(Families(init), MemberCount(init), MemberCount(ts), fam);
      }
    }
  }

  lemma OneNew(names: seq<string>, g: string -> int, h: string -> int, name: string)
    requires h(name) == 1 && forall f :: f in names ==> h(f) == g(f)
    ensures Sum(names + [name], h) == Sum(names, g) + 1
  {
    assert (names + [name])[..|names|] == names;
    SumsAgree(names, g, h);
  }

  lemma OneMore(names: seq<string>, g: string -> int, h: string -> int, name: string)
    requires Distinct(names) && name in names && forall f :: h(f) == g(f) + if f == name then 1 else 0
    ensures Sum(names, h) == Sum(names, g) + 1
  {
    var unit: string -> int := f => 1;
    var one: string -> int := f => if f == name then unit(f) else 0;
    SumAdds(names, g, one, h);
    SumOfOne(names, unit, name);
    SumsAgree(names, one, f => if f == name then unit(f) else 0);
  }

  // ---------------------------------------------------------------- the counts

  function Keys(fq: FamilyTypes): seq<string> {
    seq(|fq|, k requires 0 <= k < |fq| => fq[k].0)
  }

  /** `family_quants` without its "base" entries. */
  function Clean(fq: FamilyTypes): FamilyTypes {
    if fq == [] then []
    else if fq[|fq| - 1].1 == BASE then Clean(fq[..|fq| - 1])
    else Clean(fq[..|fq| - 1]) + [fq[|fq| - 1]]
  }

  /** Exactly the entries that are not "base" remain. */
  lemma {:induction false} CleanDropsOnlyBase(fq: FamilyTypes)
    ensures forall entry :: entry in Clean(fq) <==> entry in fq && entry.1 != BASE
  {
    if fq != [] {
      var init, last := fq[..|fq| - 1], fq[|fq| - 1];
      CleanDropsOnlyBase(init);
      assert fq == init + [last];
    }
  }

  /** They stay in their order. */
  lemma {:induction false} CleanKeepsOrder(fq: FamilyTypes)
    ensures Subsequence(Clean(fq), fq)
  {
    if fq != [] {
      var init, last := fq[..|fq| - 1], fq[|fq| - 1];
      CleanKeepsOrder(init);
      SubsequenceGrows(Clean(init), init, last);
      assert fq == init + [last];
    }
  }

  lemma OneMoreKey(fq: FamilyTypes, entry: (string, string))
    requires DistinctKeys(fq) && forall k :: 0 <= k < |fq| ==> fq[k].0 != entry.0
    ensures DistinctKeys(fq + [entry])
  {
  }

  lemma DistinctKeysAreDistinct(fq: FamilyTypes)
    requires DistinctKeys(fq)
    ensures Distinct(Keys(fq))
  {
  }

  /** Each family remains at most once. */
  lemma {:induction false} CleanKeepsKeys(fq: FamilyTypes)
    requires DistinctKeys(fq)
    ensures DistinctKeys(Clean(fq)) && Distinct(Keys(Clean(fq)))
  {
    if fq != [] {
      var init, last := fq[..|fq| - 1], fq[|fq| - 1];
      var clean := Clean(init);
      assert Clean(fq) == clean || Clean(fq) == clean + [last];
      assert DistinctKeys(init) && forall k :: 0 <= k < |init| ==> init[k].0 != last.0;
      hide *;
      CleanKeepsKeys(init);
      CleanDropsOnlyBase(init);
      forall k | 0 <= k < |clean| ensures clean[k].0 != last.0 {
        assert clean[k] in clean;
      }
      OneMoreKey(clean, last);
    }
    DistinctKeysAreDistinct(Clean(fq));
  }

  function BonusCounts(ts: seq<TensorStat>, c: Choices): string -> int {
    f => BonusCount(c, f, |FamilyMembers(ts, f)|)
  }

  function Remaining(ts: seq<TensorStat>, c: Choices): string -> int {
    f => |FamilyMembers(ts, f)| - BonusCount(c, f, |FamilyMembers(ts, f)|)
  }

  datatype Counts = Counts(bonus: seq<(string, int)>, families: seq<(string, int)>, base: int)

  function Total(entries: seq<(string, int)>): int {
    if entries == [] then 0 else Total(entries[..|entries| - 1]) + entries[|entries| - 1].1
  }

  /** A remainder is shown only when it is positive. */
  function Shown(n: int): nat {
    if n > 0 then n else 0
  }

  function ShownRemaining(ts: seq<TensorStat>, c: Choices): string -> int {
    f => Shown(Remaining(ts, c)(f))
  }

  /** What is left of the families without an explicit type. */
  function BaseRemaining(ts: seq<TensorStat>, c: Choices): int {
    Sum(Families(ts), Keep(Remaining(ts, c), Keys(Clean(c.families)), false))
  }

  /** The three groups of counts shown: bonus tensors, what is left of each explicit family, and the base. */
  ghost predicate CountsFor(ts: seq<TensorStat>, c: Choices, counts: Counts) {
    && Total(counts.bonus) == Sum(Families(ts), BonusCounts(ts, c))
    && Total(counts.families) == Sum(Keys(Clean(c.families)), ShownRemaining(ts, c))
    && counts.base == Shown(BaseRemaining(ts, c))
  }

  /** No family was given more bonus tensors than it has, and neither were the families of the base together. */
  predicate NothingOvershoots(ts: seq<TensorStat>, c: Choices) {
    && (forall f :: f in Keys(Clean(c.families)) ==> Remaining(ts, c)(f) >= 0)
    && BaseRemaining(ts, c) >= 0
  }

  /** The remainders as they are, shown or not, always partition the tensors. */
  lemma RemaindersPartition(ts: seq<TensorStat>, c: Choices)
    requires DistinctKeys(c.families)
    ensures Sum(Families(ts), BonusCounts(ts, c)) + Sum(Keys(Clean(c.families)), Remaining(ts, c))
         + BaseRemaining(ts, c) == |ts|
  {
    var fams, keys := Families(ts), Keys(Clean(c.families));
    var left := Remaining(ts, c);
    FamiliesCoverAll(ts);
    FamiliesAreDistinct(ts);
    CleanKeepsKeys(c.families);
    hide Families, FamilyMembers, Clean, BonusCount, Sum;
    SumAdds(fams, BonusCounts(ts, c), left, MemberCount(ts));
    SumSplits(fams, left, keys);
    CommonSum(fams, keys, left);
    SumsAgree(keys, left, Keep(left, fams, true)) by {
      forall f | f in keys && f !in fams ensures left(f) == 0 {
        NothingLeft(ts, c, f);
      }
    }
  }

  lemma NothingLeft(ts: seq<TensorStat>, c: Choices, f: string)
    requires FamilyMembers(ts, f) == []
    ensures Remaining(ts, c)(f) == 0
  {
  }

  lemma {:induction false} ShowingAddsTheNegatives(names: seq<string>, g: string -> int)
    ensures var shown := f => Shown(g(f));
      Sum(names, shown) >= Sum(names, g)
      && (Sum(names, shown) == Sum(names, g) <==> forall f :: f in names ==> g(f) >= 0)
  {
    if names != [] {
      var init, last := names[..|names| - 1], names[|names| - 1];
      var shown := f => Shown(g(f));
      ShowingAddsTheNegatives(init, g);
      SumsAgree(init, shown, f => Shown(g(f)));
      SumsAgree(names, shown, f => Shown(g(f)));
      assert forall f :: f in names <==> f in init || f == last;
    }
  }

  /** The counts shown partition the tensors exactly when nothing overshoots. */
  lemma CountsPartition(ts: seq<TensorStat>, c: Choices, counts: Counts)
    requires DistinctKeys(c.families) && CountsFor(ts, c, counts)
    ensures Total(counts.bonus) + Total(counts.families) + counts.base == |ts| <==> NothingOvershoots(ts, c)
  {
    var keys, left := Keys(Clean(c.families)), Remaining(ts, c);
    RemaindersPartition(ts, c);
    ShowingAddsTheNegatives(keys, left);
    hide Families, FamilyMembers, Clean, BonusCount, Sum, Remaining;
    SumsAgree(keys, ShownRemaining(ts, c), f => Shown(left(f)));
  }

  /** A fraction above one does: one tensor, and a bonus of two of it. */
  lemma LargeFractionOvershoots(t: TensorStat)
    ensures !NothingOvershoots([t], Choices("Q4_K_M", [], Everywhere(2.0), "F16"))
  {
    var c := Choices("Q4_K_M", [], Everywhere(2.0), "F16");
    var fam := FamilyOf(t.name);
    hide FamilyOf;
    assert FamilyMembers([t], fam) == [t] && Families([t]) == [fam] by {
      assert [t][..0] == [];
    }
    assert BonusCount(c, fam, 1) == 2 by {
      assert Ceil(2.0) == 2;
    }
    assert Keys(Clean(c.families)) == [];
    var left := Keep(Remaining([t], c), [], false);
    assert left(fam) == -1;
    assert [fam][..0] == [];
    assert Sum([fam], left) == -1;
  }

  /** Fractions up to one never overshoot. */
  lemma FittingFractionsNeverOvershoot(ts: seq<TensorStat>, c: Choices)
    requires FractionsFit(c.bonus)
    ensures NothingOvershoots(ts, c)
  {
    forall f: string ensures Remaining(ts, c)(f) >= 0 {
      BonusFits(c, f, |FamilyMembers(ts, f)|);
    }
    hide Families, FamilyMembers, Clean, BonusCount, Sum, Remaining;
    NonNegativeSum(Families(ts), Keep(Remaining(ts, c), Keys(Clean(c.families)), false));
  }

  lemma {:induction false} NonNegativeSum(names: seq<string>, g: string -> int)
    requires forall f :: f in names ==> g(f) >= 0
    ensures Sum(names, g) >= 0
  {
    if names != [] {
      NonNegativeSum(names[..|names| - 1], g);
    }
  }

  // ---------------------------------------------------------------- distinct names

  predicate DistinctNames(ts: seq<TensorStat>) {
    forall i, j :: 0 <= i < j < |ts| ==> ts[i].name != ts[j].name
  }

  function NameSet(ts: seq<TensorStat>): set<string> {
    set t | t in ts :: t.name
  }

  /** Every tensor once, and no two of one name. */
  ghost predicate NamesOnce(m: multiset<TensorStat>) {
    && (forall t :: m[t] <= 1)
    && (forall a, b :: a in m && b in m && a.name == b.name ==> a == b)
  }

  lemma {:induction false} DistinctNamesAreOnce(ts: seq<TensorStat>)
    requires DistinctNames(ts)
    ensures NamesOnce(multiset(ts))
  {
    if ts != [] {
      var init, last := ts[..|ts| - 1], ts[|ts| - 1];
      DistinctNamesAreOnce(init);
      assert ts == init + [last];
      assert forall t :: t in multiset(init) ==> t in init && t.name != last.name;
    }
  }

  lemma NamesOnceSplit(m: multiset<TensorStat>, last: TensorStat)
    requires NamesOnce(m + multiset{last})
    ensures NamesOnce(m) && forall t :: t in m ==> t.name != last.name
  {
    var all := m + multiset{last};
    forall t ensures m[t] <= 1 {
      assert m[t] <= all[t];
    }
    assert last in all && all[last] == m[last] + 1;
    forall t | t in m ensures t in all && t.name != last.name {
      assert all[t] >= m[t];
    }
  }

  lemma {:induction false} OneNameEach(ts: seq<TensorStat>)
    requires NamesOnce(multiset(ts))
    ensures |NameSet(ts)| == |ts|
  {
    hide NamesOnce, NameSet;
    if ts != [] {
      var init, last := ts[..|ts| - 1], ts[|ts| - 1];
      assert ts == init + [last];
      assert multiset(ts) == multiset(init) + multiset{last};
      NamesOnceSplit(multiset(init), last);
      OneNameEach(init);
      assert forall t :: t in init ==> t in multiset(init);
      NameSetGrows(init, last);
    } else {
      NoNames(ts);
    }
  }

  lemma NoNames(ts: seq<TensorStat>)
    requires ts == []
    ensures NameSet(ts) == {}
  {
  }

  lemma NameSetGrows(init: seq<TensorStat>, last: TensorStat)
    requires forall t :: t in init ==> t.name != last.name
    ensures NameSet(init + [last]) == NameSet(init) + {last.name} && last.name !in NameSet(init)
  {
    var ts := init + [last];
    assert forall t :: t in ts <==> t in init || t == last;
    forall n | n in NameSet(init) ensures n in NameSet(ts) {
      var t :| t in init && t.name == n;
      assert t in ts;
    }
  }

  lemma {:induction false} MembersAreThere(ts: seq<TensorStat>, fam: string)
    ensures multiset(FamilyMembers(ts, fam)) <= multiset(ts)
  {
    hide FamilyOf;
    if ts != [] {
      MembersAreThere(ts[..|ts| - 1], fam);
      assert ts == ts[..|ts| - 1] + [ts[|ts| - 1]];
    }
  }

  /** With distinct names a family's bonus has as many names as tensors. */
  lemma BonusNamesCount(ts: seq<TensorStat>, c: Choices, fam: string)
    requires FractionsFit(c.bonus) && DistinctNames(ts)
    ensures |NameSet(BonusTensors(ts, c, fam))| == BonusCount(c, fam, |FamilyMembers(ts, fam)|)
  {
    BonusDominates(ts, c, fam);
    DistinctNamesAreOnce(ts);
    MembersAreThere(ts, fam);
    hide BonusTensors, BonusCount, FamilyMembers;
    assert multiset(BonusTensors(ts, c, fam)) <= multiset(ts);
    OneNameEach(BonusTensors(ts, c, fam));
  }

  // ---------------------------------------------------------------- how large a bonus is

  /** `t` is the type chosen for the family: the one listed, or base when none is. */
  predicate HasType(fq: FamilyTypes, fam: string, t: string) {
    || (exists k :: 0 <= k < |fq| && fq[k] == (fam, t))
    || (t == "base" && forall k :: 0 <= k < |fq| ==> fq[k].0 != fam)
  }

  /** `f` is the bonus fraction of the family; families that are not named have none. */
  predicate HasFraction(b: Bonus, fam: string, f: real) {
    match b
    case Everywhere(all) => f == all
    case PerFamily(m) => if fam in m then f == m[fam] else f == 0.0
  }

  /** A family gets no bonus when it has no fraction, or has the bonus type anyway, by its own choice or by the base. */
  predicate TakesNoPart(c: Choices, f: real, t: string) {
    f <= 0.0 || t == c.bonusType || (t == "base" && c.base == c.bonusType)
  }

  lemma {:induction false} TypeIsThere(fq: FamilyTypes, fam: string, t: string)
    requires DistinctKeys(fq) && HasType(fq, fam, t)
    ensures (if TypeFor(fq, fam).Some? then TypeFor(fq, fam).value else BASE) == t
  {
    if fq != [] && fq[0].0 != fam {
      assert forall k :: 0 < k < |fq| ==> fq[k] == fq[1..][k - 1];
      if k :| 0 <= k < |fq| && fq[k] == (fam, t) {
        assert fq[1..][k - 1] == (fam, t);
      }
      TypeIsThere(fq[1..], fam, t);
    }
  }

  /** The count shown is none for a family that takes no part, else its size times its fraction, rounded up. */
  lemma BonusIsRoundedUp(c: Choices, fam: string, n: nat, f: real, t: string)
    requires DistinctKeys(c.families) && HasType(c.families, fam, t) && HasFraction(c.bonus, fam, f) && n > 0
    ensures var k := BonusCount(c, fam, n);
      if TakesNoPart(c, f, t) then k == 0 else k >= 1 && n as real * f <= k as real < n as real * f + 1.0
  {
    TypeIsThere(c.families, fam, t);
    hide TypeFor, HasType;
    var x := n as real * f;
    if f > 0.0 {
      Positive(n, f);
      CeilIs(x);
    }
  }

  lemma Positive(n: nat, f: real)
    requires n > 0 && f > 0.0
    ensures n as real * f > 0.0
  {
  }

  lemma CeilIs(x: real)
    ensures x <= Ceil(x) as real < x + 1.0
  {
  }

  /** What is chosen of a family is its hottest part: as many as there are, or the count shown. */
  lemma ChosenIsTop(ts: seq<TensorStat>, c: Choices, fam: string)
    ensures var members, chosen := FamilyMembers(ts, fam), BonusTensors(ts, c, fam);
      && |chosen| == Min(BonusCount(c, fam, |members|), |members|)
      && multiset(chosen) <= multiset(members)
      && forall a: TensorStat, b: TensorStat :: a in chosen && b in multiset(members) - multiset(chosen) ==> a.energy >= b.energy
  {
    var members := FamilyMembers(ts, fam);
    var sorted := SortDescending(members);
    var n := Min(BonusCount(c, fam, |members|), |sorted|);
    SortSorts(members);
    hide SortDescending, BonusCount, FamilyMembers, Descending;
    assert BonusTensors(ts, c, fam) == sorted[..n];
    hide *;
    TopOfSorted(sorted, n);
    TopIsPart(sorted, n);
  }

  /** The names of one family among those emitted. */
  function OfFamily(names: seq<string>, fam: string): set<string> {
    set n | n in names && FamilyOf(n) == fam
  }

  lemma OfFamilyAreTop(ts: seq<TensorStat>, c: Choices, names: seq<string>, fam: string)
    requires forall n :: n in names <==> IsBonusName(ts, c, n)
    ensures OfFamily(names, fam) == NameSet(BonusTensors(ts, c, fam))
  {
    hide IsBonusName, FamilyOf, BonusTensors, NameSet;
    forall n ensures n in OfFamily(names, fam) <==> n in NameSet(BonusTensors(ts, c, fam)) {
      TopNames(ts, c, fam, n);
    }
  }

  lemma ChosenNamesCount(ts: seq<TensorStat>, c: Choices, fam: string)
    requires DistinctNames(ts)
    ensures |NameSet(BonusTensors(ts, c, fam))| == |BonusTensors(ts, c, fam)|
    ensures NamesOnce(multiset(FamilyMembers(ts, fam)))
  {
    ChosenIsTop(ts, c, fam);
    DistinctNamesAreOnce(ts);
    MembersAreThere(ts, fam);
    hide BonusTensors, BonusCount, FamilyMembers;
    assert multiset(BonusTensors(ts, c, fam)) <= multiset(ts);
    OneNameEach(BonusTensors(ts, c, fam));
  }

  lemma LeftOut(members: seq<TensorStat>, chosen: seq<TensorStat>, b: TensorStat)
    requires b in members && b.name !in NameSet(chosen)
    ensures b in multiset(members) - multiset(chosen)
  {
    assert b !in chosen;
    assert b in multiset(members) && b !in multiset(chosen);
  }

  lemma Chosen(members: seq<TensorStat>, chosen: seq<TensorStat>, a: TensorStat)
    requires NamesOnce(multiset(members)) && multiset(chosen) <= multiset(members)
    requires a in members && a.name in NameSet(chosen)
    ensures a in chosen
  {
    var t :| t in chosen && t.name == a.name;
    assert t in multiset(chosen);
    assert t in multiset(members) && a in multiset(members);
  }

  /** `count` is `n` times the fraction, rounded up, or all of `n` when that is more. */
  predicate RoundedUp(count: nat, n: nat, f: real) {
    && 1 <= count <= n && count as real < n as real * f + 1.0
    && (count < n ==> n as real * f <= count as real)
  }

  lemma SmallerOf(k: nat, n: nat, f: real)
    requires n > 0 && k >= 1 && n as real * f <= k as real < n as real * f + 1.0
    ensures RoundedUp(Min(k, n), n, f)
  {
  }

  /** No tensor without its name among them is hotter than one with it. */
  predicate NoneLeftIsHotter(members: seq<TensorStat>, names: set<string>) {
    forall i, j :: 0 <= i < |members| && 0 <= j < |members| && members[i].name in names && members[j].name !in names ==>
      members[i].energy >= members[j].energy
  }

  lemma NoneLeft(members: seq<TensorStat>, chosen: seq<TensorStat>, names: set<string>)
    requires NamesOnce(multiset(members)) && multiset(chosen) <= multiset(members) && names == NameSet(chosen)
    requires forall a: TensorStat, b: TensorStat :: a in chosen && b in multiset(members) - multiset(chosen) ==> a.energy >= b.energy
    ensures NoneLeftIsHotter(members, names)
  {
    hide NamesOnce, NameSet;
    forall i, j | 0 <= i < |members| && 0 <= j < |members| && members[i].name in names && members[j].name !in names
      ensures members[i].energy >= members[j].energy
    {
      Chosen(members, chosen, members[i]);
      LeftOut(members, chosen, members[j]);
    }
  }

  lemma SizeOfBonus(c: Choices, fam: string, n: nat, f: real, t: string, chosen: seq<TensorStat>, names: set<string>)
    requires DistinctKeys(c.families) && HasType(c.families, fam, t) && HasFraction(c.bonus, fam, f) && n > 0
    requires |chosen| == Min(BonusCount(c, fam, n), n) && names == NameSet(chosen) && |names| == |chosen|
    ensures if TakesNoPart(c, f, t) then names == {} else RoundedUp(|names|, n, f)
  {
    BonusIsRoundedUp(c, fam, n, f, t);
    hide *;
    if TakesNoPart(c, f, t) {
      MinWithNothing(n);
      NoNames(chosen);
    } else {
      SmallerOf(BonusCount(c, fam, n), n, f);
    }
  }

  lemma MinWithNothing(n: nat)
    ensures Min(0, n) == 0
  {
  }

  /** The names emitted for a family: none when it takes no part, else those of its hottest tensors, as many as its size
      times its fraction, rounded up. */
  lemma EmittedBonus(ts: seq<TensorStat>, c: Choices, names: seq<string>, fam: string, f: real, t: string)
    requires DistinctNames(ts) && FamilyMembers(ts, fam) != [] && forall n :: n in names <==> IsBonusName(ts, c, n)
    requires DistinctKeys(c.families) && HasType(c.families, fam, t) && HasFraction(c.bonus, fam, f)
    ensures if TakesNoPart(c, f, t) then OfFamily(names, fam) == {}
            else RoundedUp(|OfFamily(names, fam)|, |FamilyMembers(ts, fam)|, f)
    ensures NoneLeftIsHotter(FamilyMembers(ts, fam), OfFamily(names, fam))
  {
    hide *;
    var members, chosen := FamilyMembers(ts, fam), BonusTensors(ts, c, fam);
    OfFamilyAreTop(ts, c, names, fam);
    ChosenIsTop(ts, c, fam);
    ChosenNamesCount(ts, c, fam);
    SizeOfBonus(c, fam, |members|, f, t, chosen, OfFamily(names, fam));
    NoneLeft(members, chosen, OfFamily(names, fam));
  }

  // ---------------------------------------------------------------- the emitter

  /** `n` is the name of a tensor chosen for its family's bonus. */
  ghost predicate IsBonusName(ts: seq<TensorStat>, c: Choices, n: string) {
    exists t :: t in BonusTensors(ts, c, FamilyOf(n)) && t.name == n
  }

  /** A rule for a pattern, and the rules for exact tensor names. */
  function Rule(pattern: string, qtype: string): string {
    pattern + "=" + qtype
  }

  function RulesFor(patterns: seq<string>, qtype: string): seq<string> {
    seq(|patterns|, k requires 0 <= k < |patterns| => Rule(patterns[k], qtype))
  }

  function Escaped(names: seq<string>): seq<string> {
    seq(|names|, k requires 0 <= k < |names| => Escape(names[k]))
  }

  /** The patterns of `F16_PIN_REGEXES`, which pins each to F16. */
  const PIN_PATTERNS: seq<string> := [
    ".+_norm\\..*", "ffn_gate_inp\\..*", "ffn_gate_inp_shexp\\..*", "ssm_alpha\\..*", "ssm_beta\\..*", "ssm_conv1d\\..*"]

  const SHIPPED_PINS: seq<string> := RulesFor(PIN_PATTERNS, "F16")

  /** `s.replace(old, new)` for a non-empty `part`. */
  function Replace(s: string, part: string, new_: string): string
    requires part != ""
  {
    if s == "" then ""
    else if part <= s then new_ + Replace(s[|part|..], part, new_)
    else [s[0]] + Replace(s[1..], part, new_)
  }

  /** A pin given as F16 carries the bonus type instead. */
  function Retargeted(rule: string, bonusType: string): string {
    if bonusType == "F16" then rule else Replace(rule, "=F16", "=" + bonusType)
  }

  function RetargetedAll(rules: seq<string>, bonusType: string): seq<string> {
    seq(|rules|, k requires 0 <= k < |rules| => Retargeted(rules[k], bonusType))
  }

  lemma {:induction false} ReplaceInRule(pattern: string, bonusType: string)
    requires '=' !in pattern
    ensures Replace(Rule(pattern, "F16"), "=F16", "=" + bonusType) == Rule(pattern, bonusType)
  {
    var rule, new_ := Rule(pattern, "F16"), "=" + bonusType;
    if pattern == "" {
      assert rule == "=F16" && rule[4..] == "";
      assert Rule(pattern, bonusType) == new_ + "";
    } else {
      ReplaceInRule(pattern[1..], bonusType);
      assert rule[0] == pattern[0] != '=' && rule[1..] == Rule(pattern[1..], "F16");
      assert Rule(pattern, bonusType) == [pattern[0]] + Rule(pattern[1..], bonusType);
    }
  }

  /** The part does not start within the head. */
  predicate StartsLater(head: string, part: string, rest: string) {
    forall k :: 0 <= k < |head| ==> !(part <= (head + rest)[k..])
  }

  lemma LaterInTail(c: char, head: string, part: string, rest: string)
    requires StartsLater([c] + head, part, rest)
    ensures StartsLater(head, part, rest) && !(part <= [c] + (head + rest))
  {
    var s := [c] + head + rest;
    assert s == [c] + (head + rest) && s[0..] == s;
    forall k | 0 <= k < |head| ensures (head + rest)[k..] == s[k + 1..] {
    }
  }

  /** The first occurrence is replaced, and then the rest looked at. */
  lemma {:induction false} ReplacesFromTheLeft(head: string, part: string, tail: string, new_: string)
    requires part != "" && StartsLater(head, part, part + tail)
    ensures Replace(head + (part + tail), part, new_) == head + (new_ + Replace(tail, part, new_))
  {
    if head == "" {
      ReplacesHere(part, tail, new_);
      assert head + (part + tail) == part + tail;
    } else {
      hide Replace, StartsLater;
      var c, more := head[0], head[1..];
      assert head == [c] + more;
      LaterInTail(c, more, part, part + tail);
      ReplacesFromTheLeft(more, part, tail, new_);
      ReplacesBehind(c, more + (part + tail), part, new_);
      Regroup([c], more, part + tail);
      Regroup([c], more, new_ + Replace(tail, part, new_));
    }
  }

  lemma ReplacesHere(part: string, tail: string, new_: string)
    requires part != ""
    ensures Replace(part + tail, part, new_) == new_ + Replace(tail, part, new_)
  {
    assert (part + tail)[|part|..] == tail;
  }

  lemma ReplacesBehind(c: char, rest: string, part: string, new_: string)
    requires part != "" && !(part <= [c] + rest)
    ensures Replace([c] + rest, part, new_) == [c] + Replace(rest, part, new_)
  {
    assert ([c] + rest)[1..] == rest;
  }

  lemma {:induction false} ReplacesNothing(s: string, part: string, new_: string)
    requires part != "" && !Contains(s, part)
    ensures Replace(s, part, new_) == s
  {
    if s != "" {
      assert s[0..] == s;
      assert !Contains(s[1..], part) by {
        forall k | 0 <= k <= |s[1..]| ensures !(part <= s[1..][k..]) {
          assert s[1..][k..] == s[k + 1..];
        }
      }
      ReplacesNothing(s[1..], part, new_);
    }
  }

  /** A pin of the caller's for F16 gets the bonus type; one for another type is left alone. */
  lemma PinInText(pattern: string, qtype: string, bonusType: string)
    requires '=' !in pattern && '=' !in qtype
    ensures Retargeted(pattern + "=F16", bonusType) == pattern + "=" + bonusType
    ensures !("F16" <= qtype) ==> Retargeted(pattern + "=" + qtype, bonusType) == pattern + "=" + qtype
  {
    ReplaceInRule(pattern, bonusType);
    assert Rule(pattern, "F16") == pattern + "=F16" && Rule(pattern, bonusType) == pattern + "=" + bonusType;
    if !("F16" <= qtype) {
      var rule := pattern + "=" + qtype;
      OtherTypesHaveNoF16(pattern, qtype);
      ReplacesNothing(rule, "=F16", "=" + bonusType);
    }
    hide Replace;
  }

  lemma OtherTypesHaveNoF16(pattern: string, qtype: string)
    requires '=' !in pattern && '=' !in qtype && !("F16" <= qtype)
    ensures !Contains(pattern + "=" + qtype, "=F16")
  {
    var rule, n := pattern + "=" + qtype, |pattern|;
    forall k | 0 <= k < |rule| && k != n ensures rule[k] != '=' {
      assert k > n ==> rule[k] == qtype[k - n - 1];
    }
    assert rule[n..] == "=" + qtype && "=F16" == "=" + "F16";
    SameHead("=", "F16", qtype);
    forall k | 0 <= k <= |rule| ensures !("=F16" <= rule[k..]) {
      assert k < |rule| ==> rule[k..][0] == rule[k];
      assert "=F16"[0] == '=';
    }
  }

  lemma NoEqualsInPins()
    ensures forall k :: 0 <= k < |PIN_PATTERNS| ==> '=' !in PIN_PATTERNS[k]
  {
    forall k | 0 <= k < |PIN_PATTERNS| ensures '=' !in PIN_PATTERNS[k] {
      assert k == 0 || k == 1 || k == 2 || k == 3 || k == 4 || k == 5;
    }
  }

  /** The shipped pins all end up with the bonus type, whatever it is. */
  lemma ShippedPinsTakeTheBonusType(bonusType: string)
    ensures RetargetedAll(SHIPPED_PINS, bonusType) == RulesFor(PIN_PATTERNS, bonusType)
  {
    NoEqualsInPins();
    forall k | 0 <= k < |PIN_PATTERNS|
      ensures Retargeted(Rule(PIN_PATTERNS[k], "F16"), bonusType) == Rule(PIN_PATTERNS[k], bonusType)
    {
      if bonusType != "F16" {
        ReplaceInRule(PIN_PATTERNS[k], bonusType);
      }
    }
    hide Rule, Retargeted, PIN_PATTERNS;
  }

  datatype Preset = Preset(base: string, pins: seq<string>, bonusNames: seq<string>, bonusType: string,
                           families: FamilyTypes) {
    /** `tensor_overrides`: the pin rules first, then one exact rule per bonus tensor with the bonus type. */
    function Overrides(): seq<string> {
      pins + RulesFor(Escaped(bonusNames), bonusType)
    }
  }

  /** `families[_family_of(t.name)].append(t)`, on a dictionary in order of first appearance. */
  method GroupByFamily(ts: seq<TensorStat>) returns (order: seq<string>, groups: map<string, seq<TensorStat>>)
    ensures order == Families(ts)
    ensures forall fam :: fam in groups <==> fam in order
    ensures forall fam :: fam in groups ==> groups[fam] == FamilyMembers(ts, fam)
  {
    hide FamilyOf;
    order, groups := [], map[];
    for j := 0 to |ts|
      invariant order == Families(ts[..j])
      invariant forall fam :: fam in groups <==> fam in order
      invariant forall fam :: fam in groups ==> groups[fam] == FamilyMembers(ts[..j], fam)
      invariant forall fam :: fam !in groups ==> FamilyMembers(ts[..j], fam) == []
    {
      var fam := FamilyOf(ts[j].name);
      assert ts[..j + 1][..j] == ts[..j] && ts[..j + 1][j] == ts[j];
      if fam !in groups {
        order := order + [fam];
        groups := groups[fam := [ts[j]]];
      } else {
        groups := groups[fam := groups[fam] + [ts[j]]];
      }
    }
    assert ts[..|ts|] == ts;
  }

  /** The bonus tensors of every family, and how many each family has. */
  method ChooseBonus(ts: seq<TensorStat>, c: Choices, order: seq<string>, groups: map<string, seq<TensorStat>>)
    returns (names: set<string>, counts: seq<(string, int)>)
    requires order == Families(ts) && forall fam :: fam in order ==> fam in groups && groups[fam] == FamilyMembers(ts, fam)
    ensures forall n :: n in names <==> IsBonusName(ts, c, n)
    ensures Total(counts) == Sum(order, BonusCounts(ts, c))
    ensures forall e :: e in counts <==> e.0 in order && e.1 == BonusCount(c, e.0, |FamilyMembers(ts, e.0)|) > 0
    ensures FractionsFit(c.bonus) && DistinctNames(ts) ==> Total(counts) == |names|
  {
    FamiliesAreDistinct(ts);
    NothingCollected(ts, c);
    NothingCounted(ts, c);
    hide SortDescending, FamilyMembers, Families, BonusCount, FamilyOf, NameSet, Collected, Sum, IsBonusName, FractionsFit,
         DistinctNames, Counted, Total;
    names, counts := {}, [];
    for j := 0 to |order|
      invariant Collected(ts, c, order[..j], names, Total(counts))
      invariant Counted(ts, c, order[..j], counts)
    {
      var fam := order[j];
      assert order[..j + 1] == order[..j] + [fam] && fam !in order[..j];
      var n := BonusCount(c, fam, |groups[fam]|);
      var sorted := SortDescending(groups[fam]);
      var top := sorted[..Min(n, |sorted|)];
      CollectOneMore(ts, c, order[..j], fam, names, Total(counts));
      names := names + NameSet(top);
      CountOneMore(ts, c, order[..j], fam, counts);
      counts := if n > 0 then counts + [(fam, n as int)] else counts;
    }
    assert order[..|order|] == order;
    AllNamesCollected(ts, c, names, Total(counts));
    CountedAre(ts, c, order, counts);
  }

  /** Those families are counted that have a bonus, each with its size. */
  ghost predicate Counted(ts: seq<TensorStat>, c: Choices, fams: seq<string>, counts: seq<(string, int)>) {
    forall e :: e in counts <==> e.0 in fams && e.1 == BonusCount(c, e.0, |FamilyMembers(ts, e.0)|) > 0
  }

  lemma NothingCounted(ts: seq<TensorStat>, c: Choices)
    ensures Counted(ts, c, [], []) && Total([]) == 0
  {
  }

  lemma CountOneMore(ts: seq<TensorStat>, c: Choices, fams: seq<string>, fam: string, counts: seq<(string, int)>)
    requires Counted(ts, c, fams, counts)
    ensures var n := BonusCount(c, fam, |FamilyMembers(ts, fam)|);
            var more := if n > 0 then counts + [(fam, n as int)] else counts;
      Counted(ts, c, fams + [fam], more) && Total(more) == Total(counts) + BonusCounts(ts, c)(fam)
  {
    hide FamilyMembers, BonusCount;
    var n := BonusCount(c, fam, |FamilyMembers(ts, fam)|);
    assert (counts + [(fam, n as int)])[..|counts|] == counts;
  }

  lemma CountedAre(ts: seq<TensorStat>, c: Choices, fams: seq<string>, counts: seq<(string, int)>)
    requires Counted(ts, c, fams, counts)
    ensures forall e :: e in counts <==> e.0 in fams && e.1 == BonusCount(c, e.0, |FamilyMembers(ts, e.0)|) > 0
  {
    hide FamilyMembers, BonusCount;
  }

  /** The names and the total after the bonus of those families. */
  ghost predicate Collected(ts: seq<TensorStat>, c: Choices, fams: seq<string>, names: set<string>, total: int) {
    && NamesSoFar(ts, c, fams, names)
    && total == Sum(fams, BonusCounts(ts, c))
    && (FractionsFit(c.bonus) && DistinctNames(ts) ==> total == |names|)
  }

  lemma NothingCollected(ts: seq<TensorStat>, c: Choices)
    ensures Collected(ts, c, [], {}, 0)
  {
    hide IsBonusName, FamilyOf, FamilyMembers, BonusCount, DistinctNames, FractionsFit;
  }

  lemma CollectOneMore(ts: seq<TensorStat>, c: Choices, fams: seq<string>, fam: string, names: set<string>, total: int)
    requires Collected(ts, c, fams, names, total) && fam !in fams
    ensures Collected(ts, c, fams + [fam], names + NameSet(BonusTensors(ts, c, fam)), total + BonusCounts(ts, c)(fam))
  {
    hide NamesSoFar, NameSet, BonusTensors, BonusCount, FamilyMembers, FractionsFit, DistinctNames;
    assert (fams + [fam])[..|fams|] == fams;
    NamesGrow(ts, c, fams, fam, names);
    if FractionsFit(c.bonus) && DistinctNames(ts) {
      BonusNamesCount(ts, c, fam);
    }
  }

  /** `names` are the names in the bonus of those families. */
  ghost predicate NamesSoFar(ts: seq<TensorStat>, c: Choices, fams: seq<string>, names: set<string>) {
    forall n :: n in names <==> IsBonusName(ts, c, n) && FamilyOf(n) in fams
  }

  lemma NamesGrow(ts: seq<TensorStat>, c: Choices, fams: seq<string>, fam: string, names: set<string>)
    requires NamesSoFar(ts, c, fams, names) && fam !in fams
    ensures names !! NameSet(BonusTensors(ts, c, fam))
    ensures NamesSoFar(ts, c, fams + [fam], names + NameSet(BonusTensors(ts, c, fam)))
  {
    var top := NameSet(BonusTensors(ts, c, fam));
    forall n ensures n in top <==> IsBonusName(ts, c, n) && FamilyOf(n) == fam {
      TopNames(ts, c, fam, n);
    }
    hide IsBonusName, NameSet, FamilyOf;
  }

  lemma TopNames(ts: seq<TensorStat>, c: Choices, fam: string, n: string)
    ensures n in NameSet(BonusTensors(ts, c, fam)) <==> IsBonusName(ts, c, n) && FamilyOf(n) == fam
  {
    TopNamesAreFamily(ts, c, fam);
    hide BonusTensors, FamilyOf;
  }

  lemma AllNamesCollected(ts: seq<TensorStat>, c: Choices, names: set<string>, total: int)
    requires Collected(ts, c, Families(ts), names, total)
    ensures forall n :: n in names <==> IsBonusName(ts, c, n)
    ensures total == Sum(Families(ts), BonusCounts(ts, c))
    ensures FractionsFit(c.bonus) && DistinctNames(ts) ==> total == |names|
  {
    hide IsBonusName, Families, FamilyOf, Sum, BonusCount, FamilyMembers, FractionsFit, DistinctNames;
    forall n ensures IsBonusName(ts, c, n) ==> FamilyOf(n) in Families(ts) {
      BonusFamilyExists(ts, c, n);
    }
  }

  lemma TopNamesAreFamily(ts: seq<TensorStat>, c: Choices, fam: string)
    ensures forall t :: t in BonusTensors(ts, c, fam) ==> FamilyOf(t.name) == fam && IsBonusName(ts, c, t.name)
  {
    var members := FamilyMembers(ts, fam);
    SortSorts(members);
    MembersHaveFamily(ts, fam);
    hide SortDescending, FamilyMembers, BonusCount, FamilyOf;
    forall t | t in BonusTensors(ts, c, fam) ensures FamilyOf(t.name) == fam && IsBonusName(ts, c, t.name) {
      assert t in multiset(SortDescending(members));
      assert t in multiset(members);
    }
  }

  lemma {:induction false} MembersHaveFamily(ts: seq<TensorStat>, fam: string)
    ensures forall t :: t in FamilyMembers(ts, fam) ==> t in ts && FamilyOf(t.name) == fam
  {
    hide FamilyOf;
    if ts != [] {
      MembersHaveFamily(ts[..|ts| - 1], fam);
    }
  }

  lemma BonusFamilyExists(ts: seq<TensorStat>, c: Choices, n: string)
    ensures IsBonusName(ts, c, n) ==> FamilyOf(n) in Families(ts)
  {
    var fam := FamilyOf(n);
    SortSorts(FamilyMembers(ts, fam));
    FamiliesAreDistinct(ts);
    hide FamilyOf, Families, BonusCount, FamilyMembers, SortDescending;
    if IsBonusName(ts, c, n) {
      var t :| t in BonusTensors(ts, c, fam) && t.name == n;
      assert t in SortDescending(FamilyMembers(ts, fam));
    }
  }

  method ListSet(names: set<string>) returns (list: seq<string>)
    ensures Distinct(list) && forall n :: n in list <==> n in names
    ensures |list| == |names|
  {
    list := [];
    var todo := names;
    while todo != {}
      invariant todo <= names && Distinct(list) && |list| + |todo| == |names|
      invariant forall n :: n in list <==> n in names && n !in todo
      decreases todo
    {
      var n :| n in todo;
      list := list + [n];
      todo := todo - {n};
    }
  }

  /** Those families are listed of which the bonus leaves something, each with what it leaves. */
  ghost predicate EntriesFor(ts: seq<TensorStat>, c: Choices, fams: seq<string>, entries: seq<(string, int)>) {
    forall e :: e in entries <==>
      e.0 in fams && e.1 == |FamilyMembers(ts, e.0)| - BonusCount(c, e.0, |FamilyMembers(ts, e.0)|) > 0
  }

  lemma NoEntries(ts: seq<TensorStat>, c: Choices)
    ensures EntriesFor(ts, c, [], []) && Total([]) == 0 && Sum([], ShownRemaining(ts, c)) == 0
  {
  }

  lemma EntriesGrow(ts: seq<TensorStat>, c: Choices, fams: seq<string>, fam: string, entries: seq<(string, int)>)
    requires EntriesFor(ts, c, fams, entries) && Total(entries) == Sum(fams, ShownRemaining(ts, c))
    ensures var left := |FamilyMembers(ts, fam)| - BonusCount(c, fam, |FamilyMembers(ts, fam)|);
            var more := if left > 0 then entries + [(fam, left)] else entries;
      EntriesFor(ts, c, fams + [fam], more) && Total(more) == Sum(fams + [fam], ShownRemaining(ts, c))
  {
    hide FamilyMembers, BonusCount;
    var left := |FamilyMembers(ts, fam)| - BonusCount(c, fam, |FamilyMembers(ts, fam)|);
    assert (entries + [(fam, left)])[..|entries|] == entries && (fams + [fam])[..|fams|] == fams;
    assert Remaining(ts, c)(fam) == left;
    assert ShownRemaining(ts, c)(fam) == Shown(left);
  }

  lemma EntriesAre(ts: seq<TensorStat>, c: Choices, fams: seq<string>, entries: seq<(string, int)>)
    requires EntriesFor(ts, c, fams, entries)
    ensures forall e :: e in entries <==>
      e.0 in fams && e.1 == |FamilyMembers(ts, e.0)| - BonusCount(c, e.0, |FamilyMembers(ts, e.0)|) > 0
  {
    hide FamilyMembers, BonusCount;
  }

  /** What the bonus leaves of each explicit family, where anything is left. */
  method CountFamilies(ts: seq<TensorStat>, c: Choices, clean: FamilyTypes, groups: map<string, seq<TensorStat>>)
    returns (families: seq<(string, int)>)
    requires forall fam :: fam in groups ==> groups[fam] == FamilyMembers(ts, fam)
    requires forall fam :: fam !in groups ==> FamilyMembers(ts, fam) == []
    ensures Total(families) == Sum(Keys(clean), ShownRemaining(ts, c))
    ensures forall e :: e in families <==>
      e.0 in Keys(clean) && e.1 == |FamilyMembers(ts, e.0)| - BonusCount(c, e.0, |FamilyMembers(ts, e.0)|) > 0
  {
    var keys := Keys(clean);
    NoEntries(ts, c);
    hide FamilyMembers, Families, BonusCount, FamilyOf, Clean, EntriesFor, Total, Sum, Shown;
    families := [];
    for j := 0 to |clean|
      invariant Total(families) == Sum(keys[..j], ShownRemaining(ts, c))
      invariant EntriesFor(ts, c, keys[..j], families)
    {
      var fam := clean[j].0;
      assert keys[j] == fam && keys[..j + 1] == keys[..j] + [fam];
      var n := if fam in groups then |groups[fam]| else 0;
      assert n == |FamilyMembers(ts, fam)|;
      var left := n - BonusCount(c, fam, n);
      EntriesGrow(ts, c, keys[..j], fam, families);
      families := if left > 0 then families + [(fam, left)] else families;
    }
    assert keys[..|clean|] == keys;
    EntriesAre(ts, c, keys, families);
  }

  /** What the bonus leaves of the families that fall back on the base type, if anything. */
  method CountBase(ts: seq<TensorStat>, c: Choices, order: seq<string>, groups: map<string, seq<TensorStat>>)
    returns (base: nat)
    requires order == Families(ts) && forall fam :: fam in order ==> fam in groups && groups[fam] == FamilyMembers(ts, fam)
    ensures base as int == if BaseRemaining(ts, c) > 0 then BaseRemaining(ts, c) else 0
  {
    var keys := Keys(Clean(c.families));
    var left := Keep(Remaining(ts, c), keys, false);
    hide FamilyMembers, Families, BonusCount, FamilyOf, Clean, Keys;
    var sum := 0;
    for j := 0 to |order|
      invariant sum == Sum(order[..j], left)
    {
      var fam := order[j];
      assert order[..j + 1][..j] == order[..j] && order[..j + 1][j] == fam;
      if fam !in keys {
        sum := sum + |groups[fam]| - BonusCount(c, fam, |groups[fam]|);
      }
    }
    assert order[..|order|] == order;
    base := Shown(sum);
  }

  /** `emit_preset_custom`; without pins of the caller's, the shipped ones are used. */
  method EmitPresetCustom(ts: seq<TensorStat>, c: Choices, given: Option<seq<string>>) returns (p: Preset, counts: Counts)
    requires DistinctKeys(c.families)
    ensures p.base == c.base && p.bonusType == c.bonusType && p.families == Clean(c.families)
    ensures p.pins == match given { case Some(rules) => RetargetedAll(rules, c.bonusType) case None => RulesFor(PIN_PATTERNS, c.bonusType) }
    ensures Distinct(p.bonusNames) && forall n :: n in p.bonusNames <==> IsBonusName(ts, c, n)
    ensures Total(counts.bonus) + Total(counts.families) + counts.base == |ts| <==> NothingOvershoots(ts, c)
    ensures FractionsFit(c.bonus) && DistinctNames(ts) ==> Total(counts.bonus) == |p.bonusNames|
  {
    hide IsBonusName, Families, FamilyMembers, BonusCount, Total, Sum, Clean, DistinctNames, NothingOvershoots, FractionsFit,
         RetargetedAll, RulesFor, SHIPPED_PINS, PIN_PATTERNS;
    var order, groups := GroupByFamily(ts);
    forall fam | fam !in groups ensures FamilyMembers(ts, fam) == [] {
      FamiliesAreDistinct(ts);
    }
    var names, bonus := ChooseBonus(ts, c, order, groups);
    var list := ListSet(names);
    var clean := Clean(c.families);
    var families := CountFamilies(ts, c, clean, groups);
    var base := CountBase(ts, c, order, groups);
    counts := Counts(bonus, families, base);
    CountsPartition(ts, c, counts);
    ShippedPinsTakeTheBonusType(c.bonusType);
    var pins := RetargetedAll(if given.Some? then given.value else SHIPPED_PINS, c.bonusType);
    p := Preset(c.base, pins, list, c.bonusType, clean);
  }
}
