/**
 Capping the share of over-represented source folders (BRAIN-DAEMON/quantize/build-calibration.py,
 `balance_buckets`).  The dictionary of buckets is a sequence in its insertion order, a bucket is the
 list of its paragraphs' UTF-8 bytes, the ratio is a real, and the shuffle is any permutation.
 */
module BucketBalance {
  import opened Helpers

  type Paragraph = seq<bv8>
  type Bucket = seq<Paragraph>

  function Bytes(bucket: Bucket): nat {
    if bucket == [] then 0 else |bucket[0]| + Bytes(bucket[1..])
  }

  function Total(buckets: seq<Bucket>): nat {
    if buckets == [] then 0 else Bytes(buckets[0]) + Total(buckets[1..])
  }

  lemma {:induction false} BytesOfSnoc(bucket: Bucket, p: Paragraph)
    ensures Bytes(bucket + [p]) == Bytes(bucket) + |p|
  {
    if bucket == [] {
      assert [] + [p] == [p];
    } else {
      assert (bucket + [p])[1..] == bucket[1..] + [p];
      BytesOfSnoc(bucket[1..], p);
    }
  }

  lemma {:induction false} TotalWithout(buckets: seq<Bucket>, b: nat)
    requires b < |buckets|
    ensures Total(buckets) == Bytes(buckets[b]) + Total(buckets[..b] + buckets[b + 1..])
  {
    if b == 0 {
      assert buckets[..0] + buckets[1..] == buckets[1..];
    } else {
      TotalWithout(buckets[1..], b - 1);
      var rest := buckets[..b] + buckets[b + 1..];
      assert rest[1..] == buckets[1..][..b - 1] + buckets[1..][b..];
    }
  }

  /** What the other buckets hold. */
  function Others(buckets: seq<Bucket>, b: nat): nat
    requires b < |buckets|
  {
    TotalWithout(buckets, b);
    Total(buckets) - Bytes(buckets[b])
  }

  /** A bucket's own bytes against the share `ratio` of them and the others'. */
  predicate WithinShare(own: nat, others: nat, ratio: real) {
    own as real <= ratio * (own + others) as real
  }

  predicate OverRatio(buckets: seq<Bucket>, b: nat, ratio: real)
    requires b < |buckets|
  {
    !WithinShare(Bytes(buckets[b]), Others(buckets, b), ratio)
  }

  /** `int(max_ratio * others / (1 - max_ratio))` */
  function TargetBytes(others: nat, ratio: real): int
    requires 0.0 < ratio < 1.0
  {
    (ratio * others as real / (1.0 - ratio)).Floor
  }

  /** Fitting the byte target is fitting the share. */
  lemma TargetIsTheShare(own: nat, others: nat, ratio: real)
    requires 0.0 < ratio < 1.0
    ensures own <= TargetBytes(others, ratio) <==> WithinShare(own, others, ratio)
  {
    var part := ratio * others as real;
    var q := part / (1.0 - ratio);
    assert q * (1.0 - ratio) == part;
    assert own <= q.Floor <==> own as real <= q;
    ScalingKeepsOrder(own as real, q, 1.0 - ratio);
    SplitShare(own as real, others as real, ratio);
  }

  lemma SplitShare(own: real, others: real, ratio: real)
    ensures own * (1.0 - ratio) == own - ratio * own
    ensures ratio * (own + others) == ratio * own + ratio * others
  {
  }

  method Shuffle(bucket: Bucket) returns (shuffled: Bucket)
    ensures multiset(shuffled) == multiset(bucket)
  {
    shuffled :| multiset(shuffled) == multiset(bucket);
  }

  /** Keep paragraphs in order while they fit, but always the first. */
  method TakeUpTo(paras: Bucket, target: int) returns (kept: Bucket)
    requires paras != []
    ensures kept != [] && kept <= paras
    ensures |kept| > 1 ==> Bytes(kept) <= target
    ensures |kept| < |paras| ==> Bytes(paras[..|kept| + 1]) > target
  {
    kept := [];
    var acc := 0;
    for i := 0 to |paras|
      invariant kept == paras[..i] && acc == Bytes(kept)
      invariant i > 1 ==> acc <= target
    {
      BytesOfSnoc(kept, paras[i]);
      assert paras[..i + 1] == kept + [paras[i]];
      if acc + |paras[i]| > target && kept != [] {
        return;
      }
      kept := kept + [paras[i]];
      acc := acc + |paras[i]|;
    }
  }

  /** One bucket before and after a pass, `others` being what the rest held when the pass began. */
  ghost predicate CappedTo(before: Bucket, after: Bucket, others: nat, ratio: real) {
    || after == before
    || (&& !WithinShare(Bytes(before), others, ratio)
        && after != [] && |after| < |before|
        && multiset(after) <= multiset(before)
        && (|after| > 1 ==> WithinShare(Bytes(after), others, ratio))
        && WithinShare(1, others, ratio)
        && exists p :: Overshoots(before, after, p, others, ratio))
  }

  /** Paragraph `p`, which was not kept, would make the share too large. */
  ghost predicate Overshoots(before: Bucket, after: Bucket, p: Paragraph, others: nat, ratio: real) {
    multiset(after) + multiset{p} <= multiset(before) && !WithinShare(Bytes(after) + |p|, others, ratio)
  }

  /** There is but one paragraph, or a single byte would already be too much. */
  predicate Unshrinkable(bucket: Bucket, others: nat, ratio: real) {
    |bucket| == 1 || !WithinShare(1, others, ratio)
  }

  ghost predicate BucketStep(before: seq<Bucket>, b: nat, after: Bucket, ratio: real)
    requires b < |before|
  {
    && CappedTo(before[b], after, Others(before, b), ratio)
    && (OverRatio(before, b, ratio) && after == before[b] ==> Unshrinkable(before[b], Others(before, b), ratio))
  }

  ghost predicate PassFrom(before: seq<Bucket>, after: seq<Bucket>, ratio: real) {
    |after| == |before| && forall b :: 0 <= b < |before| ==> BucketStep(before, b, after[b], ratio)
  }

  lemma PrefixIsSubMultiset(kept: Bucket, paras: Bucket)
    requires kept <= paras
    ensures multiset(kept) <= multiset(paras)
  {
    assert paras == kept + paras[|kept|..];
  }

  method CapBucket(bucket: Bucket, others: nat, ratio: real) returns (after: Bucket)
    requires 0.0 < ratio < 1.0 && !WithinShare(Bytes(bucket), others, ratio)
    ensures CappedTo(bucket, after, others, ratio)
    ensures after == bucket ==> Unshrinkable(bucket, others, ratio)
  {
    var target := TargetBytes(others, ratio);
    TargetIsTheShare(1, others, ratio);
    if target <= 0 {
      return bucket;
    }
    assert bucket != [] by {
      TargetIsTheShare(0, others, ratio);
    }
    var paras := Shuffle(bucket);
    assert |paras| == |multiset(paras)| == |multiset(bucket)| == |bucket|;
    var kept := TakeUpTo(paras, target);
    TargetIsTheShare(Bytes(bucket), others, ratio);
    if |kept| < |bucket| {
      after := kept;
      PrefixIsCapped(bucket, paras, kept, others, ratio);
    } else {
      after := bucket;
      assert kept == paras;
      PermutationsWeighTheSame(paras, bucket);
    }
  }

  /** A proper prefix as long as the target allows is a capped bucket. */
  lemma PrefixIsCapped(bucket: Bucket, paras: Bucket, kept: Bucket, others: nat, ratio: real)
    requires 0.0 < ratio < 1.0 && !WithinShare(Bytes(bucket), others, ratio) && WithinShare(1, others, ratio)
    requires multiset(paras) == multiset(bucket) && |paras| == |bucket| && kept != [] && kept < paras
    requires |kept| > 1 ==> Bytes(kept) <= TargetBytes(others, ratio)
    requires Bytes(paras[..|kept| + 1]) > TargetBytes(others, ratio)
    ensures CappedTo(bucket, kept, others, ratio)
  {
    var next := paras[|kept|];
    assert paras[..|kept| + 1] == kept + [next];
    BytesOfSnoc(kept, next);
    PrefixIsSubMultiset(kept, paras);
    PrefixIsSubMultiset(kept + [next], paras);
    TargetIsTheShare(Bytes(kept), others, ratio);
    TargetIsTheShare(Bytes(kept) + |next|, others, ratio);
    hide WithinShare, TargetBytes, Bytes;
    assert multiset(kept + [next]) == multiset(kept) + multiset{next};
    assert Overshoots(bucket, kept, next, others, ratio);
  }

  lemma SameLength(a: Bucket, b: Bucket)
    requires multiset(a) == multiset(b)
    ensures |a| == |b|
  {
    assert |a| == |multiset(a)| == |multiset(b)| == |b|;
  }

  lemma {:induction false} PermutationsWeighTheSame(a: Bucket, b: Bucket)
    requires multiset(a) == multiset(b)
    ensures Bytes(a) == Bytes(b)
  {
    hide Bytes;
    SameLength(a, b);
    if a == [] {
      assert a == b;
    } else {
      assert a[0] in multiset(a);
      var i := IndexOf(b, a[0]);
      BytesWithout(a, 0);
      BytesWithout(b, i);
      MultisetWithout(a, 0);
      MultisetWithout(b, i);
      PermutationsWeighTheSame(a[..0] + a[1..], b[..i] + b[i + 1..]);
    }
  }

  lemma IndexOf(bucket: Bucket, p: Paragraph) returns (i: nat)
    requires p in multiset(bucket)
    ensures i < |bucket| && bucket[i] == p
  {
    assert p in bucket;
    i :| i < |bucket| && bucket[i] == p;
  }

  lemma MultisetWithout(bucket: Bucket, i: nat)
    requires i < |bucket|
    ensures multiset(bucket[..i] + bucket[i + 1..]) == multiset(bucket) - multiset{bucket[i]}
  {
    assert bucket == bucket[..i] + [bucket[i]] + bucket[i + 1..];
  }

  lemma {:induction false} BytesWithout(bucket: Bucket, i: nat)
    requires i < |bucket|
    ensures Bytes(bucket) == |bucket[i]| + Bytes(bucket[..i] + bucket[i + 1..])
  {
    if i == 0 {
      assert bucket[..0] + bucket[1..] == bucket[1..];
    } else {
      BytesWithout(bucket[1..], i - 1);
      var rest := bucket[..i] + bucket[i + 1..];
      assert rest[1..] == bucket[1..][..i - 1] + bucket[1..][i..];
    }
  }

  lemma OverIsNotWithin(buckets: seq<Bucket>, b: nat, ratio: real)
    requires b < |buckets|
    ensures OverRatio(buckets, b, ratio) <==> !WithinShare(Bytes(buckets[b]), Others(buckets, b), ratio)
  {
  }

  lemma CappedIsShorter(before: Bucket, after: Bucket, others: nat, ratio: real)
    requires CappedTo(before, after, others, ratio)
    ensures after == before || |after| < |before|
  {
  }

  lemma StepOf(before: seq<Bucket>, b: nat, after: Bucket, ratio: real)
    requires b < |before|
    requires if OverRatio(before, b, ratio) then CappedTo(before[b], after, Others(before, b), ratio) else after == before[b]
    requires OverRatio(before, b, ratio) && after == before[b] ==> Unshrinkable(before[b], Others(before, b), ratio)
    ensures BucketStep(before, b, after, ratio)
  {
    hide OverRatio, Unshrinkable, Others, WithinShare;
  }

  /** One pass of the outer loop. */
  method CapPass(current: seq<Bucket>, ratio: real) returns (next: seq<Bucket>, dropped: seq<nat>, changed: bool)
    requires 0.0 < ratio < 1.0
    ensures PassFrom(current, next, ratio)
    ensures |dropped| == |current| && forall b :: 0 <= b < |current| ==> dropped[b] == |current[b]| - |next[b]|
    ensures if changed then exists b :: 0 <= b < |current| && next[b] != current[b] else next == current
  {
    hide BucketStep, CappedTo, OverRatio, Unshrinkable, WithinShare;
    next, dropped, changed := [], [], false;
    for b := 0 to |current|
      invariant |next| == |dropped| == b
      invariant forall a :: 0 <= a < b ==> BucketStep(current, a, next[a], ratio)
      invariant forall a :: 0 <= a < b ==> dropped[a] == |current[a]| - |next[a]|
      invariant if changed then exists a :: 0 <= a < b && next[a] != current[a]
                else forall a :: 0 <= a < b ==> next[a] == current[a]
    {
      var after := current[b];
      if OverRatio(current, b, ratio) {
        OverIsNotWithin(current, b, ratio);
        after := CapBucket(current[b], Others(current, b), ratio);
        CappedIsShorter(current[b], after, Others(current, b), ratio);
      }
      StepOf(current, b, after, ratio);
      changed := changed || |after| < |current[b]|;
      dropped := dropped + [|current[b]| - |after|];
      next := next + [after];
      assert next[b] == after;
    }
  }

  /** The states the passes went through, first to last. */
  ghost predicate IsRun(rounds: seq<seq<Bucket>>, ratio: real) {
    rounds != [] && forall i :: 0 <= i < |rounds| - 1 ==> PassFrom(rounds[i], rounds[i + 1], ratio)
  }

  /** A later state of a bucket against an earlier one. */
  ghost predicate Shrunk(before: seq<Bucket>, after: seq<Bucket>) {
    && |after| == |before|
    && forall b :: 0 <= b < |before| ==>
      multiset(after[b]) <= multiset(before[b]) && (before[b] != [] ==> after[b] != [])
  }

  /** No bucket over the ratio can be made smaller. */
  ghost predicate Settled(buckets: seq<Bucket>, ratio: real) {
    forall b :: 0 <= b < |buckets| && OverRatio(buckets, b, ratio) ==> Unshrinkable(buckets[b], Others(buckets, b), ratio)
  }

  lemma NothingIsShrunk(buckets: seq<Bucket>, ratio: real)
    ensures Shrunk(buckets, buckets)
    ensures 0.0 < ratio < 1.0 ==> IsRun([buckets], ratio)
  {
  }

  lemma PassShrinks(before: seq<Bucket>, now: seq<Bucket>, next: seq<Bucket>, ratio: real)
    requires 0.0 < ratio < 1.0 && Shrunk(before, now) && PassFrom(now, next, ratio)
    ensures Shrunk(before, next) && |next| == |before|
  {
    hide OverRatio, Unshrinkable, Others;
    assert |next| == |before|;
    forall b | 0 <= b < |before|
      ensures multiset(next[b]) <= multiset(before[b]) && (before[b] != [] ==> next[b] != [])
    {
      assert BucketStep(now, b, next[b], ratio);
    }
  }

  lemma RunGoesOn(rounds: seq<seq<Bucket>>, next: seq<Bucket>, ratio: real)
    requires 0.0 < ratio < 1.0 && IsRun(rounds, ratio) && PassFrom(rounds[|rounds| - 1], next, ratio)
    ensures IsRun(rounds + [next], ratio)
  {
    hide PassFrom;
  }

  lemma UnchangedIsSettled(buckets: seq<Bucket>, ratio: real)
    requires 0.0 < ratio < 1.0 && PassFrom(buckets, buckets, ratio)
    ensures Settled(buckets, ratio)
  {
    hide OverRatio, Unshrinkable, Others;
    forall b | 0 <= b < |buckets| && OverRatio(buckets, b, ratio) ensures Unshrinkable(buckets[b], Others(buckets, b), ratio) {
      assert BucketStep(buckets, b, buckets[b], ratio);
    }
  }

  /** At most three passes, fewer when one changes nothing. */
  method BalanceBuckets(buckets: seq<Bucket>, ratio: real)
    returns (out: seq<Bucket>, capped: seq<nat>, ghost rounds: seq<seq<Bucket>>)
    ensures Shrunk(buckets, out)
    ensures |capped| == |buckets| && forall b :: 0 <= b < |buckets| ==> capped[b] == |buckets[b]| - |out[b]|
    ensures !(0.0 < ratio < 1.0) ==> out == buckets
    ensures 0.0 < ratio < 1.0 ==>
      && IsRun(rounds, ratio) && rounds[0] == buckets && rounds[|rounds| - 1] == out
      && |rounds| <= 4
      && (|rounds| < 4 ==> Settled(out, ratio))
  {
    hide Shrunk, IsRun, Settled, PassFrom, Total;
    NothingIsShrunk(buckets, ratio);
    out, rounds := buckets, [buckets];
    capped := seq(|buckets|, _ => 0);
    if ratio <= 0.0 || ratio >= 1.0 {
      return;
    }
    var stable := Total(buckets) == 0;
    if stable {
      NothingIsOverNothing(buckets, ratio);
    }
    var pass := 0;
    while pass < 3 && !stable
      invariant 0 <= pass <= 3
      invariant |out| == |buckets| && Shrunk(buckets, out)
      invariant |capped| == |buckets| && forall b :: 0 <= b < |buckets| ==> capped[b] == |buckets[b]| - |out[b]|
      invariant rounds != [] && IsRun(rounds, ratio) && rounds[0] == buckets && rounds[|rounds| - 1] == out && |rounds| <= pass + 1
      invariant stable || |rounds| == pass + 1
      invariant stable ==> Settled(out, ratio)
    {
      if Total(out) == 0 {
        stable := true;
        NothingIsOverNothing(out, ratio);
      } else {
        var next, dropped, changed := CapPass(out, ratio);
        stable := !changed;
        if !changed {
          UnchangedIsSettled(out, ratio);
        } else {
          RunGoesOn(rounds, next, ratio);
          PassShrinks(buckets, out, next, ratio);
          rounds := rounds + [next];
          capped := seq(|buckets|, b requires 0 <= b < |buckets| => capped[b] + dropped[b]);
          out := next;
        }
      }
      pass := pass + 1;
    }
  }

  lemma NothingIsOverNothing(buckets: seq<Bucket>, ratio: real)
    requires Total(buckets) == 0 && 0.0 < ratio < 1.0
    ensures Settled(buckets, ratio)
  {
    forall b | 0 <= b < |buckets| ensures !OverRatio(buckets, b, ratio) {
      TotalWithout(buckets, b);
    }
  }

  // ---------------------------------------------------------------- how far the cap gets

  /** A number of bytes within its share of them and the others. */
  predicate Fits(own: int, others: int, ratio: real) {
    own as real * (1.0 - ratio) <= ratio * others as real
  }

  lemma FitsIsTheShare(own: nat, others: nat, ratio: real)
    ensures WithinShare(own, others, ratio) <==> Fits(own, others, ratio)
  {
    SplitShare(own as real, others as real, ratio);
  }

  /** What a pass does to each bucket: nothing to one within the ratio; else it keeps what fits next to the other buckets,
      at least one paragraph, and not a paragraph less; and it leaves a bucket alone that cannot be made to fit. */
  lemma PassKeepsWhatFits(before: seq<Bucket>, after: seq<Bucket>, ratio: real, b: nat)
    requires 0.0 < ratio < 1.0 && PassFrom(before, after, ratio) && b < |before|
    ensures |after| == |before|
    ensures var own, others := Bytes(before[b]), Total(before) - Bytes(before[b]);
      if Fits(own, others, ratio) then after[b] == before[b]
      else if |before[b]| == 1 || !Fits(1, others, ratio) then after[b] == before[b]
      else && after[b] != [] && |after[b]| < |before[b]|
           && (|after[b]| > 1 ==> Fits(Bytes(after[b]), others, ratio))
           && exists p :: multiset(after[b]) + multiset{p} <= multiset(before[b]) && !Fits(Bytes(after[b]) + |p|, others, ratio)
  {
    hide *;
    StepInPass(before, after, ratio, b);
    StepInBytes(before, b, after[b], ratio);
    BucketKeepsWhatFits(before[b], after[b], Total(before) - Bytes(before[b]), ratio);
  }

  lemma OthersAre(buckets: seq<Bucket>, b: nat)
    requires b < |buckets|
    ensures Others(buckets, b) == Total(buckets) - Bytes(buckets[b])
  {
    hide Bytes, Total;
  }

  lemma StepInBytes(before: seq<Bucket>, b: nat, after: Bucket, ratio: real)
    requires b < |before| && BucketStep(before, b, after, ratio)
    ensures var own, others := Bytes(before[b]), Total(before) - Bytes(before[b]);
      && others >= 0 && CappedTo(before[b], after, others, ratio)
      && (!WithinShare(own, others, ratio) && after == before[b] ==> Unshrinkable(before[b], others, ratio))
  {
    hide WithinShare, CappedTo, Unshrinkable, Bytes, Total;
    OthersAre(before, b);
  }

  lemma BucketKeepsWhatFits(before: Bucket, after: Bucket, others: nat, ratio: real)
    requires CappedTo(before, after, others, ratio)
    requires !WithinShare(Bytes(before), others, ratio) && after == before ==> Unshrinkable(before, others, ratio)
    ensures if Fits(Bytes(before), others, ratio) then after == before
      else if |before| == 1 || !Fits(1, others, ratio) then after == before
      else && after != [] && |after| < |before|
           && (|after| > 1 ==> Fits(Bytes(after), others, ratio))
           && exists p :: multiset(after) + multiset{p} <= multiset(before) && !Fits(Bytes(after) + |p|, others, ratio)
  {
    hide WithinShare, Fits, Bytes;
    FitsIsTheShare(Bytes(before), others, ratio);
    FitsIsTheShare(1, others, ratio);
    FitsIsTheShare(Bytes(after), others, ratio);
    if after != before {
      var p :| Overshoots(before, after, p, others, ratio);
      FitsIsTheShare(Bytes(after) + |p|, others, ratio);
      OneIsNotLess(before, after);
    }
  }

  /** Every pass of a run does that. */
  lemma RunIsOfPasses(rounds: seq<seq<Bucket>>, ratio: real, i: nat)
    requires IsRun(rounds, ratio) && i + 1 < |rounds|
    ensures PassFrom(rounds[i], rounds[i + 1], ratio)
  {
    hide PassFrom;
  }

  /** Where the passes have come to rest, every bucket fits or cannot shrink. */
  lemma SettledInBytes(buckets: seq<Bucket>, ratio: real)
    ensures Settled(buckets, ratio) <==>
      forall b :: 0 <= b < |buckets| ==>
        var others := Total(buckets) - Bytes(buckets[b]);
        Fits(Bytes(buckets[b]), others, ratio) || |buckets[b]| == 1 || !Fits(1, others, ratio)
  {
    forall b | 0 <= b < |buckets|
      ensures var others := Others(buckets, b);
        (OverRatio(buckets, b, ratio) <==> !Fits(Bytes(buckets[b]), others, ratio))
        && (Unshrinkable(buckets[b], others, ratio) <==> |buckets[b]| == 1 || !Fits(1, others, ratio))
    {
      FitsIsTheShare(Bytes(buckets[b]), Others(buckets, b), ratio);
      FitsIsTheShare(1, Others(buckets, b), ratio);
    }
    hide Fits, Bytes, WithinShare, OverRatio, Unshrinkable;
  }

  /** A bucket holds the bytes of its paragraphs, and all buckets hold those of each. */
  lemma {:induction false} BytesAdd(bucket: Bucket, buckets: seq<Bucket>, b: nat, k: nat)
    requires b < |buckets| && k < |bucket|
    ensures Bytes([]) == 0 && Bytes(bucket) == Bytes(bucket[..k]) + |bucket[k]| + Bytes(bucket[k + 1..])
    ensures Total([]) == 0 && Total(buckets) == Total(buckets[..b]) + Bytes(buckets[b]) + Total(buckets[b + 1..])
    decreases b + k
  {
    if k > 0 {
      BytesAdd(bucket[1..], buckets, b, k - 1);
      assert bucket[..k][1..] == bucket[1..][..k - 1] && bucket[k + 1..] == bucket[1..][k..];
    } else {
      assert bucket[..0] == [];
      if b > 0 {
        BytesAdd(bucket, buckets[1..], b - 1, 0);
        assert buckets[..b][1..] == buckets[1..][..b - 1] && buckets[b + 1..] == buckets[1..][b..];
      } else {
        assert buckets[..0] == [];
      }
    }
  }

  lemma OneIsNotLess(before: Bucket, after: Bucket)
    requires after != [] && |after| < |before|
    ensures |before| != 1
  {
  }

  /** When exactly one bucket is over, the pass that shrinks it to several paragraphs brings its share down. */
  lemma OneOverIsCapped(before: seq<Bucket>, after: seq<Bucket>, b: nat, ratio: real)
    requires 0.0 < ratio < 1.0 && PassFrom(before, after, ratio) && b < |before|
    requires forall a :: 0 <= a < |before| ==> (OverRatio(before, a, ratio) <==> a == b)
    requires after[b] != before[b] && |after[b]| > 1
    ensures !OverRatio(after, b, ratio) && Bytes(after[b]) as real <= ratio * Total(after) as real
  {
    hide *;
    forall a | 0 <= a < |before| ensures |after| == |before| && BucketStep(before, a, after[a], ratio) {
      StepInPass(before, after, ratio, a);
    }
    forall a | 0 <= a < |before| && a != b ensures after[a] == before[a] {
      StepKeeps(before, a, after[a], ratio);
    }
    StepCaps(before, b, after[b], ratio);
    SameOthers(before, after, b);
    WithinMeansTotal(after, b, ratio);
  }

  lemma StepInPass(before: seq<Bucket>, after: seq<Bucket>, ratio: real, b: nat)
    requires PassFrom(before, after, ratio) && b < |before|
    ensures |after| == |before| && BucketStep(before, b, after[b], ratio)
  {
    hide BucketStep;
  }

  lemma StepKeeps(before: seq<Bucket>, b: nat, after: Bucket, ratio: real)
    requires b < |before| && BucketStep(before, b, after, ratio) && !OverRatio(before, b, ratio)
    ensures after == before[b]
  {
    hide WithinShare, Others, Bytes;
  }

  lemma StepCaps(before: seq<Bucket>, b: nat, after: Bucket, ratio: real)
    requires b < |before| && BucketStep(before, b, after, ratio) && after != before[b] && |after| > 1
    ensures WithinShare(Bytes(after), Others(before, b), ratio)
  {
    hide WithinShare, Others, Bytes;
  }

  lemma SameOthers(before: seq<Bucket>, after: seq<Bucket>, b: nat)
    requires b < |before| == |after| && forall a :: 0 <= a < |before| && a != b ==> after[a] == before[a]
    ensures Others(after, b) == Others(before, b)
  {
    assert before[..b] + before[b + 1..] == after[..b] + after[b + 1..];
    TotalWithout(before, b);
    TotalWithout(after, b);
  }

  lemma WithinMeansTotal(buckets: seq<Bucket>, b: nat, ratio: real)
    requires b < |buckets| && WithinShare(Bytes(buckets[b]), Others(buckets, b), ratio)
    ensures !OverRatio(buckets, b, ratio) && Bytes(buckets[b]) as real <= ratio * Total(buckets) as real
  {
    hide *;
    OverIsNotWithin(buckets, b, ratio);
    OwnAndOthers(buckets, b);
    WithinIs(Bytes(buckets[b]), Others(buckets, b), ratio, Total(buckets));
  }

  lemma OwnAndOthers(buckets: seq<Bucket>, b: nat)
    requires b < |buckets|
    ensures Bytes(buckets[b]) + Others(buckets, b) == Total(buckets)
  {
  }

  lemma WithinIs(own: nat, others: nat, ratio: real, total: nat)
    requires WithinShare(own, others, ratio) && own + others == total
    ensures own as real <= ratio * total as real
  {
    assert (own + others) as real == total as real;
  }

  /** Too few buckets for the ratio: whatever paragraphs are chosen, some bucket is over it. */
  lemma SomeBucketIsOver(buckets: seq<Bucket>, ratio: real) returns (b: nat)
    requires Total(buckets) > 0 && Repeated(|buckets|, ratio) < 1.0
    ensures b < |buckets| && OverRatio(buckets, b, ratio)
  {
    b := Largest(buckets);
    assert Bytes(buckets[b]) + Others(buckets, b) == Total(buckets);
    TotalBounded(buckets, Bytes(buckets[b]) as real);
    Pigeonhole(|buckets|, Bytes(buckets[b]), Others(buckets, b), ratio);
  }

  lemma {:induction false} Largest(buckets: seq<Bucket>) returns (b: nat)
    requires buckets != []
    ensures b < |buckets| && forall a :: 0 <= a < |buckets| ==> Bytes(buckets[a]) <= Bytes(buckets[b])
  {
    b := 0;
    if |buckets| > 1 {
      var c := Largest(buckets[1..]);
      b := if Bytes(buckets[c + 1]) > Bytes(buckets[0]) then c + 1 else 0;
      forall a | 0 < a < |buckets| ensures Bytes(buckets[a]) <= Bytes(buckets[b]) {
        assert buckets[a] == buckets[1..][a - 1];
      }
    }
  }

  lemma Pigeonhole(count: nat, own: nat, others: nat, ratio: real)
    requires own + others > 0 && Repeated(count, ratio) < 1.0
    requires (own + others) as real <= Repeated(count, own as real)
    ensures !WithinShare(own, others, ratio)
  {
    RepeatedIsProduct(count, own as real);
    RepeatedIsProduct(count, ratio);
    CancelFactor(count as real, own as real, (own + others) as real, ratio);
  }

  lemma CancelFactor(count: real, own: real, total: real, ratio: real)
    requires total > 0.0 && count >= 0.0 && count * ratio < 1.0 && total <= count * own
    ensures own > ratio * total
  {
    ScalingKeepsOrder(1.0, count * ratio, total);
    var share := ratio * total;
    assert (count * ratio) * total == count * share;
    assert count * share < count * own;
    assert count * (own - share) > 0.0;
  }

  /** `cap` added up `n` times. */
  function Repeated(n: nat, cap: real): real {
    if n == 0 then 0.0 else cap + Repeated(n - 1, cap)
  }

  lemma {:induction false} RepeatedIsProduct(n: nat, cap: real)
    ensures Repeated(n, cap) == n as real * cap
  {
    if n > 0 {
      RepeatedIsProduct(n - 1, cap);
      assert ((n - 1) as real + 1.0) * cap == (n - 1) as real * cap + cap;
    }
  }

  lemma {:induction false} TotalBounded(buckets: seq<Bucket>, cap: real)
    requires forall b :: 0 <= b < |buckets| ==> Bytes(buckets[b]) as real <= cap
    ensures Total(buckets) as real <= Repeated(|buckets|, cap)
  {
    if buckets != [] {
      TotalBounded(buckets[1..], cap);
    }
  }
}
