/**
 Near-duplicate clustering of paragraphs (BRAIN-DAEMON/quantize/build-calibration.py, `dedup_near`).

 The locality-sensitive index is an arbitrary table `near`: `near[i]` lists the
 indices its query returned for paragraph `i`.  Nothing is assumed of it, not even symmetry.
 The union-find works in place on one `parent` array, with path halving.
 */
module UnionFind {

  /** `x`, then its parent, then its grandparent, ... */
  function Climb(parent: seq<nat>, x: nat, steps: nat): nat
    decreases steps
  {
    if steps == 0 || x >= |parent| then x else Climb(parent, parent[x], steps - 1)
  }

  /** `r` is the self-loop that climbing from `x` ends in. */
  ghost predicate IsRootOf(parent: seq<nat>, x: nat, r: nat) {
    r < |parent| && parent[r] == r && exists k: nat :: Climb(parent, x, k) == r
  }

  /** What a forest asks of element `i`: its root is its parent's root, and `rank` grows along its link. */
  ghost predicate WellLinked(parent: seq<nat>, root: seq<nat>, rank: seq<nat>, height: nat, i: nat)
    requires |root| == |rank| == |parent| && i < |parent|
  {
    && parent[i] < |parent| && root[i] < |parent| && rank[i] <= height
    && root[parent[i]] == root[i]
    && parent[root[i]] == root[i]
    && (parent[i] == i ==> root[i] == i)
    && (parent[i] != i ==> rank[i] < rank[parent[i]])
  }

  ghost predicate IsForest(parent: seq<nat>, root: seq<nat>, rank: seq<nat>, height: nat) {
    && |root| == |rank| == |parent|
    && (forall i {:trigger WellLinked(parent, root, rank, height, i)} ::
          0 <= i < |parent| ==> WellLinked(parent, root, rank, height, i))
  }

  /** In a forest climbing from any element ends, in `root[x]` and nowhere else. */
  lemma {:induction false} ClimbingEndsInRoot(parent: seq<nat>, root: seq<nat>, rank: seq<nat>, height: nat, x: nat)
    requires IsForest(parent, root, rank, height) && x < |parent|
    ensures IsRootOf(parent, x, root[x])
    ensures forall r :: IsRootOf(parent, x, r) ==> r == root[x]
    decreases if x < |rank| then height - rank[x] else 0
  {
    assert WellLinked(parent, root, rank, height, x);
    if parent[x] == x {
      assert Climb(parent, x, 0) == x;
    } else {
      ClimbingEndsInRoot(parent, root, rank, height, parent[x]);
      var k: nat :| Climb(parent, parent[x], k) == root[x];
      assert Climb(parent, x, k + 1) == root[x];
    }
    forall r | IsRootOf(parent, x, r) ensures r == root[x] {
      var k: nat :| Climb(parent, x, k) == r;
      ClimbingKeepsRoot(parent, root, rank, height, x, k);
      assert WellLinked(parent, root, rank, height, r);
    }
  }

  lemma {:induction false} ClimbingKeepsRoot(parent: seq<nat>, root: seq<nat>, rank: seq<nat>, height: nat, x: nat, k: nat)
    requires IsForest(parent, root, rank, height) && x < |parent|
    ensures Climb(parent, x, k) < |parent| && root[Climb(parent, x, k)] == root[x]
    decreases k
  {
    assert WellLinked(parent, root, rank, height, x);
    if k > 0 {
      ClimbingKeepsRoot(parent, root, rank, height, parent[x], k - 1);
    }
  }

  /** One halving step: an element is re-attached to its grandparent. */
  lemma HalvingKeepsForest(parent: seq<nat>, root: seq<nat>, rank: seq<nat>, height: nat, y: nat)
    requires IsForest(parent, root, rank, height) && y < |parent| && WellLinked(parent, root, rank, height, y)
    ensures IsForest(parent[y := parent[parent[y]]], root, rank, height)
  {
    var p := parent[y];
    assert WellLinked(parent, root, rank, height, y) && WellLinked(parent, root, rank, height, p);
    var halved := parent[y := parent[p]];
    forall i | 0 <= i < |halved| ensures WellLinked(halved, root, rank, height, i) {
      assert WellLinked(parent, root, rank, height, i);
      assert WellLinked(parent, root, rank, height, root[i]);
      assert root[i] == y ==> parent[y] == y;
    }
  }

  /** The root table after the tree of root `rb` has been hung below root `ra`. */
  function Merged(root: seq<nat>, ra: nat, rb: nat): (merged: seq<nat>)
    ensures |merged| == |root|
  {
    seq(|root|, i requires 0 <= i < |root| => if root[i] == rb then ra else root[i])
  }

  lemma LinkingKeepsForest(parent: seq<nat>, root: seq<nat>, rank: seq<nat>, height: nat, ra: nat, rb: nat)
    requires IsForest(parent, root, rank, height)
    requires ra < |parent| && rb < |parent| && ra != rb && parent[ra] == ra && parent[rb] == rb
    ensures IsForest(parent[rb := ra], Merged(root, ra, rb),
                     rank[ra := if rank[ra] > rank[rb] then rank[ra] else rank[rb] + 1], height + 1)
  {
    var linked, merged, top := parent[rb := ra], Merged(root, ra, rb), height + 1;
    var raised := rank[ra := if rank[ra] > rank[rb] then rank[ra] else rank[rb] + 1];
    assert WellLinked(parent, root, rank, height, ra) && WellLinked(parent, root, rank, height, rb);
    forall i | 0 <= i < |linked| ensures WellLinked(linked, merged, raised, top, i) {
      assert WellLinked(parent, root, rank, height, i);
      assert root[i] == rb ==> merged[i] == ra;
    }
  }

  class Forest {
    const parent: array<nat>
    ghost var root: seq<nat>
    ghost var rank: seq<nat>
    ghost var height: nat

    ghost predicate Valid()
      reads this, parent
      ensures Valid() ==> |root| == parent.Length
    {
      IsForest(parent[..], root, rank, height) &&
      forall i :: 0 <= i < |root| ==> root[i] < parent.Length
    }

    constructor (n: nat)
      ensures Valid() && fresh(parent) && parent.Length == n
      ensures root == seq(n, i => i)
    {
      parent := new nat[n](i => i);
      root := seq(n, i => i);
      rank := seq(n, i => 0);
      height := 0;
    }

    /** Path halving moves links towards the root and leaves every element's root alone. */
    method Find(x: nat) returns (r: nat)
      requires Valid() && x < parent.Length
      modifies parent
      ensures Valid()
      ensures r == root[x] && root[r] == r
      ensures forall i: nat, s: nat :: i < parent.Length && IsRootOf(old(parent[..]), i, s) ==> IsRootOf(parent[..], i, s)
    {
      var y: nat := x;
      assert WellLinked(parent[..], root, rank, height, y);
      while parent[y] != y
        invariant y < parent.Length
        invariant Valid()
        invariant WellLinked(parent[..], root, rank, height, y)
        invariant root[y] == root[x]
        decreases height - rank[y]
      {
        ghost var links := parent[..];
        assert WellLinked(links, root, rank, height, links[y]);
        assert WellLinked(links, root, rank, height, links[links[y]]);
        HalvingKeepsForest(links, root, rank, height, y);
        parent[y] := parent[parent[y]];
        assert parent[..] == links[y := links[links[y]]];
        assert WellLinked(parent[..], root, rank, height, links[links[y]]);
        y := parent[y];
      }
      r := y;
      forall i: nat, s: nat | i < parent.Length && IsRootOf(old(parent[..]), i, s) ensures IsRootOf(parent[..], i, s) {
        ClimbingEndsInRoot(old(parent[..]), root, rank, height, i);
        ClimbingEndsInRoot(parent[..], root, rank, height, i);
      }
    }

    /** Afterwards `b`'s whole tree hangs below `a`'s root; every other element keeps its root. */
    method Union(a: nat, b: nat)
      requires Valid() && a < parent.Length && b < parent.Length
      modifies this, parent
      ensures Valid()
      ensures root == Merged(old(root), old(root)[a], old(root)[b])
    {
      var ra := Find(a);
      var rb := Find(b);
      if ra != rb {
        assert WellLinked(parent[..], root, rank, height, ra) && WellLinked(parent[..], root, rank, height, rb);
        LinkingKeepsForest(parent[..], root, rank, height, ra, rb);
        ghost var links := parent[..];
        parent[rb] := ra;
        assert parent[..] == links[rb := ra];
        rank := rank[ra := if rank[ra] > rank[rb] then rank[ra] else rank[rb] + 1];
        root := Merged(root, ra, rb);
        height := height + 1;
      }
    }
  }
}

/** Keeping the earliest longest paragraph of every group of mutually reachable near-duplicates. */
module NearDedup {
  import opened UnionFind

  type Table = seq<seq<nat>>

  /** `near` only names paragraphs that were inserted in the index. */
  predicate TableOver(near: Table, n: nat) {
    |near| == n && forall i, k :: 0 <= i < n && 0 <= k < |near[i]| ==> near[i][k] < n
  }

  /** One query, in either direction, returned the pair. */
  predicate Adjacent(near: Table, i: nat, j: nat) {
    i < |near| && j < |near| && (j in near[i] || i in near[j])
  }

  predicate IsPath(near: Table, path: seq<nat>) {
    && |path| > 0
    && path[0] < |near|
    && (|path| > 1 ==> Adjacent(near, path[0], path[1]) && IsPath(near, path[1..]))
  }

  /** `i` and `j` lie in the same component of the symmetric closure of `near`. */
  ghost predicate Connected(near: Table, i: nat, j: nat) {
    exists path :: IsPath(near, path) && path[0] == i && path[|path| - 1] == j
  }

  lemma {:induction false} PathsJoin(near: Table, p: seq<nat>, q: seq<nat>)
    requires IsPath(near, p) && IsPath(near, q) && p[|p| - 1] == q[0]
    ensures IsPath(near, p + q[1..])
  {
    if |p| == 1 {
      assert p + q[1..] == q;
    } else {
      PathsJoin(near, p[1..], q);
      assert (p + q[1..])[1..] == p[1..] + q[1..];
    }
  }

  lemma ConnectedIsTransitive(near: Table, i: nat, j: nat, k: nat)
    requires Connected(near, i, j) && Connected(near, j, k)
    ensures Connected(near, i, k)
  {
    var p :| IsPath(near, p) && p[0] == i && p[|p| - 1] == j;
    var q :| IsPath(near, q) && q[0] == j && q[|q| - 1] == k;
    PathsJoin(near, p, q);
    var r := p + q[1..];
    assert r[0] == i && r[|r| - 1] == k;
  }

  lemma ConnectedIsReflexive(near: Table, i: nat)
    requires i < |near|
    ensures Connected(near, i, i)
  {
    assert IsPath(near, [i]);
  }

  lemma AdjacentIsConnected(near: Table, i: nat, j: nat)
    requires Adjacent(near, i, j)
    ensures Connected(near, i, j)
  {
    var p := [i, j];
    assert p[1..] == [j] && IsPath(near, [j]);
    assert IsPath(near, p);
  }

  lemma {:induction false} PathReverses(near: Table, path: seq<nat>)
    requires IsPath(near, path)
    ensures Connected(near, path[|path| - 1], path[0])
    decreases |path|
  {
    if |path| == 1 {
      ConnectedIsReflexive(near, path[0]);
    } else {
      PathReverses(near, path[1..]);
      AdjacentIsConnected(near, path[1], path[0]);
      ConnectedIsTransitive(near, path[|path| - 1], path[1], path[0]);
    }
  }

  lemma ConnectedIsSymmetric(near: Table, i: nat, j: nat)
    requires Connected(near, i, j)
    ensures Connected(near, j, i)
  {
    var p :| IsPath(near, p) && p[0] == i && p[|p| - 1] == j;
    PathReverses(near, p);
  }

  /** A labelling that agrees across every adjacent pair is constant on components. */
  lemma {:induction false} LabelsConstantOnPaths(near: Table, colour: seq<nat>, path: seq<nat>)
    requires |colour| == |near| && IsPath(near, path)
    requires forall i, j :: 0 <= i < |near| && j in near[i] && j < |near| ==> colour[i] == colour[j]
    ensures path[|path| - 1] < |near| && colour[path[0]] == colour[path[|path| - 1]]
    decreases |path|
  {
    if |path| > 1 {
      LabelsConstantOnPaths(near, colour, path[1..]);
    }
  }

  // ---------------------------------------------------------------- which paragraphs survive

  /** `i` beats every paragraph of its component: longer, or as long and no later. */
  ghost predicate IsSurvivor(paragraphs: seq<string>, near: Table, i: nat) {
    i < |paragraphs| &&
    forall j: nat {:trigger Connected(near, i, j)} :: j < |paragraphs| && Connected(near, i, j) ==>
      |paragraphs[j]| < |paragraphs[i]| || (|paragraphs[j]| == |paragraphs[i]| && i <= j)
  }

  /** The surviving indices below `n`, in input order. */
  ghost function Survivors(paragraphs: seq<string>, near: Table, n: nat): seq<nat> {
    if n == 0 then []
    else Survivors(paragraphs, near, n - 1) + if IsSurvivor(paragraphs, near, n - 1) then [n - 1] else []
  }

  function Pick(paragraphs: seq<string>, indices: seq<nat>): (picked: seq<string>)
    requires forall k :: 0 <= k < |indices| ==> indices[k] < |paragraphs|
    ensures |picked| == |indices|
    ensures forall k :: 0 <= k < |indices| ==> picked[k] == paragraphs[indices[k]]
  {
    seq(|indices|, k requires 0 <= k < |indices| => paragraphs[indices[k]])
  }

  lemma {:induction false} SurvivorsAreExactlyTheSurvivors(paragraphs: seq<string>, near: Table, n: nat)
    ensures var s := Survivors(paragraphs, near, n);
            && (forall i: nat :: i in s <==> i < n && IsSurvivor(paragraphs, near, i))
            && (forall k, l :: 0 <= k < l < |s| ==> s[k] < s[l])
  {
    if n > 0 {
      SurvivorsAreExactlyTheSurvivors(paragraphs, near, n - 1);
      var earlier := Survivors(paragraphs, near, n - 1);
      assert forall k :: 0 <= k < |earlier| ==> earlier[k] in earlier;
    }
  }

  /** The best paragraph of `i`'s component among the first `k`, starting from `i` itself. */
  lemma {:induction false} BestBelow(paragraphs: seq<string>, near: Table, i: nat, k: nat) returns (b: nat)
    requires |near| == |paragraphs| && i < |paragraphs| && k <= |paragraphs|
    ensures b < |paragraphs| && Connected(near, i, b)
    ensures |paragraphs[i]| <= |paragraphs[b]|
    ensures forall j: nat {:trigger Connected(near, i, j)} :: j < k && Connected(near, i, j) ==>
      |paragraphs[j]| < |paragraphs[b]| || (|paragraphs[j]| == |paragraphs[b]| && b <= j)
  {
    if k == 0 {
      ConnectedIsReflexive(near, i);
      b := i;
    } else {
      b := BestBelow(paragraphs, near, i, k - 1);
      var j := k - 1;
      if Connected(near, i, j) && (|paragraphs[j]| > |paragraphs[b]| || (|paragraphs[j]| == |paragraphs[b]| && j < b)) {
        b := j;
      }
    }
  }

  /** Every component keeps one paragraph ... */
  lemma EveryComponentSurvives(paragraphs: seq<string>, near: Table, i: nat)
    requires |near| == |paragraphs| && i < |paragraphs|
    ensures exists s: nat :: IsSurvivor(paragraphs, near, s) && Connected(near, i, s)
  {
    var b := BestBelow(paragraphs, near, i, |paragraphs|);
    forall j: nat | j < |paragraphs| && Connected(near, b, j)
      ensures |paragraphs[j]| < |paragraphs[b]| || (|paragraphs[j]| == |paragraphs[b]| && b <= j)
    {
      ConnectedIsTransitive(near, i, b, j);
    }
    assert IsSurvivor(paragraphs, near, b);
  }

  /** ... and no component keeps two. */
  lemma OneSurvivorPerComponent(paragraphs: seq<string>, near: Table, s: nat, t: nat)
    requires IsSurvivor(paragraphs, near, s) && IsSurvivor(paragraphs, near, t) && Connected(near, s, t)
    ensures s == t
  {
    ConnectedIsSymmetric(near, s, t);
  }

  /** No two elements of `reps` lie in one component. */
  ghost predicate Separated(near: Table, reps: set<nat>) {
    forall r, s :: r in reps && s in reps && Connected(near, r, s) ==> r == s
  }

  ghost predicate Reaches(near: Table, r: nat, targets: set<nat>) {
    exists t :: t in targets && Connected(near, r, t)
  }

  lemma {:induction false} SeparatedSetsInject(near: Table, reps: set<nat>, targets: set<nat>)
    requires Separated(near, reps) && forall r :: r in reps ==> Reaches(near, r, targets)
    ensures |reps| <= |targets|
  {
    if reps != {} {
      var r :| r in reps;
      var t :| t in targets && Connected(near, r, t);
      forall q | q in reps - {r} ensures Reaches(near, q, targets - {t}) {
        var u :| u in targets && Connected(near, q, u);
        if u == t {
          ConnectedIsSymmetric(near, r, t);
          ConnectedIsTransitive(near, q, t, r);
        }
      }
      SeparatedSetsInject(near, reps - {r}, targets - {t});
    }
  }

  /** Whatever set `reps` has one index from each component, there are as many survivors. */
  lemma SurvivorsCountComponents(paragraphs: seq<string>, near: Table, reps: set<nat>)
    requires |near| == |paragraphs|
    requires forall r :: r in reps ==> r < |paragraphs|
    requires Separated(near, reps)
    requires forall i: nat :: i < |paragraphs| ==> Reaches(near, i, reps)
    ensures |Survivors(paragraphs, near, |paragraphs|)| == |reps|
  {
    var kept := Survivors(paragraphs, near, |paragraphs|);
    var keptSet := set i | i in kept;
    SurvivorsAreExactlyTheSurvivors(paragraphs, near, |paragraphs|);
    AscendingSize(kept, keptSet);
    forall s, t | s in keptSet && t in keptSet && Connected(near, s, t) ensures s == t {
      OneSurvivorPerComponent(paragraphs, near, s, t);
    }
    forall r | r in reps ensures Reaches(near, r, keptSet) {
      EveryComponentSurvives(paragraphs, near, r);
    }
    SeparatedSetsInject(near, reps, keptSet);
    SeparatedSetsInject(near, keptSet, reps);
  }

  lemma {:induction false} AscendingSize(s: seq<nat>, elems: set<nat>)
    requires forall k, l :: 0 <= k < l < |s| ==> s[k] < s[l]
    requires elems == set i | i in s
    ensures |elems| == |s|
  {
    if |s| > 0 {
      var init, last := s[..|s| - 1], s[|s| - 1];
      AscendingSize(init, set i | i in init);
      assert s == init + [last];
      assert elems == (set i | i in init) + {last};
    }
  }

  // ---------------------------------------------------------------- the pass itself

  /** `max(members, key=len)`: the first of the longest. */
  method Longest(paragraphs: seq<string>, members: seq<nat>) returns (best: nat)
    requires |members| > 0 && forall k :: 0 <= k < |members| ==> members[k] < |paragraphs|
    requires forall k, l :: 0 <= k < l < |members| ==> members[k] < members[l]
    ensures best in members
    ensures forall m :: m in members ==>
      |paragraphs[m]| < |paragraphs[best]| || (|paragraphs[m]| == |paragraphs[best]| && best <= m)
  {
    best := members[0];
    for k := 1 to |members|
      invariant best in members[..k]
      invariant forall m :: m in members[..k] ==>
        |paragraphs[m]| < |paragraphs[best]| || (|paragraphs[m]| == |paragraphs[best]| && best <= m)
    {
      assert members[..k + 1] == members[..k] + [members[k]];
      if |paragraphs[members[k]]| > |paragraphs[best]| {
        best := members[k];
      }
    }
    assert members[..|members|] == members;
  }

  /** Only connected elements share a root, and the pairs of the first `idx` rows and `k` of the next do. */
  ghost predicate UnitedUpTo(near: Table, root: seq<nat>, idx: nat, k: nat) {
    && |root| == |near|
    && (forall i: nat, j: nat :: i < |root| && j < |root| && root[i] == root[j] ==> Connected(near, i, j))
    && (forall i, l :: 0 <= i < idx && i < |near| && 0 <= l < |near[i]| && near[i][l] < |root| ==> root[near[i][l]] == root[i])
    && (idx < |near| ==> forall l :: 0 <= l < k && l < |near[idx]| && near[idx][l] < |root| ==> root[near[idx][l]] == root[idx])
  }

  lemma NothingUnited(near: Table)
    ensures UnitedUpTo(near, seq(|near|, i => i), 0, 0)
  {
    forall i: nat | i < |near| ensures Connected(near, i, i) {
      ConnectedIsReflexive(near, i);
    }
    hide Connected;
  }

  lemma OnePairUnited(near: Table, root: seq<nat>, idx: nat, k: nat)
    requires TableOver(near, |near|) && UnitedUpTo(near, root, idx, k) && idx < |near| && k < |near[idx]|
    ensures near[idx][k] < |root|
    ensures UnitedUpTo(near, Merged(root, root[idx], root[near[idx][k]]), idx, k + 1)
    ensures near[idx][k] == idx ==> UnitedUpTo(near, root, idx, k + 1)
  {
    hide Connected;
    MergingKeepsSoundness(near, root, idx, near[idx][k]);
  }

  lemma RowUnited(near: Table, root: seq<nat>, idx: nat)
    requires idx < |near| && UnitedUpTo(near, root, idx, |near[idx]|)
    ensures UnitedUpTo(near, root, idx + 1, 0)
  {
    hide Connected;
  }

  lemma AllUnited(near: Table, root: seq<nat>)
    requires TableOver(near, |near|) && UnitedUpTo(near, root, |near|, 0)
    ensures forall i, j :: 0 <= i < |near| && 0 <= j < |near| ==> (root[i] == root[j] <==> Connected(near, i, j))
  {
    hide Connected;
    RootsAgreeOnComponents(near, root);
  }

  /** After this every adjacent pair has one root, and only connected elements share one. */
  method UnionAll(near: Table, n: nat) returns (forest: Forest)
    requires TableOver(near, n)
    ensures fresh(forest) && fresh(forest.parent) && forest.Valid() && forest.parent.Length == n
    ensures forall i, j :: 0 <= i < n && 0 <= j < n ==>
      (forest.root[i] == forest.root[j] <==> Connected(near, i, j))
  {
    hide UnitedUpTo, Connected, Merged, IsForest;
    forest := new Forest(n);
    NothingUnited(near);
    for idx := 0 to n
      invariant forest.Valid() && fresh(forest.parent) && forest.parent.Length == n
      invariant UnitedUpTo(near, forest.root, idx, 0)
    {
      for k := 0 to |near[idx]|
        invariant forest.Valid() && fresh(forest.parent) && forest.parent.Length == n
        invariant UnitedUpTo(near, forest.root, idx, k)
      {
        var other := near[idx][k];
        OnePairUnited(near, forest.root, idx, k);
        if other != idx {
          forest.Union(idx, other);
        }
      }
      RowUnited(near, forest.root, idx);
    }
    AllUnited(near, forest.root);
  }

  lemma MergingKeepsSoundness(near: Table, root: seq<nat>, a: nat, b: nat)
    requires |root| == |near| && Adjacent(near, a, b)
    requires forall i, j :: 0 <= i < |root| && 0 <= j < |root| && root[i] == root[j] ==> Connected(near, i, j)
    ensures var merged := Merged(root, root[a], root[b]);
            forall i, j :: 0 <= i < |root| && 0 <= j < |root| && merged[i] == merged[j] ==> Connected(near, i, j)
  {
    var merged := Merged(root, root[a], root[b]);
    AdjacentIsConnected(near, a, b);
    AdjacentIsConnected(near, b, a);
    forall i: nat, j: nat | i < |root| && j < |root| && merged[i] == merged[j] ensures Connected(near, i, j) {
      if root[i] != root[j] {
        if root[i] == root[b] {
          ConnectedIsTransitive(near, i, b, a);
          ConnectedIsTransitive(near, i, a, j);
        } else {
          ConnectedIsTransitive(near, i, a, b);
          ConnectedIsTransitive(near, i, b, j);
        }
      }
    }
  }

  lemma RootsAgreeOnComponents(near: Table, root: seq<nat>)
    requires |root| == |near| && TableOver(near, |near|)
    requires forall i, j :: 0 <= i < |near| && j in near[i] ==> root[i] == root[j]
    ensures forall i, j :: 0 <= i < |near| && 0 <= j < |near| && Connected(near, i, j) ==> root[i] == root[j]
  {
    forall i: nat, j: nat | i < |near| && j < |near| && Connected(near, i, j) ensures root[i] == root[j] {
      var p :| IsPath(near, p) && p[0] == i && p[|p| - 1] == j;
      LabelsConstantOnPaths(near, root, p);
    }
  }

  /** The indices below `k` whose root is `r`, in order: what one cluster's list holds. */
  ghost function Members(root: seq<nat>, r: nat, k: nat): (members: seq<nat>)
    requires k <= |root|
    ensures forall i: nat :: i in members <==> i < k && root[i] == r
    ensures forall a :: 0 <= a < |members| ==> members[a] < k
    ensures forall a, b :: 0 <= a < b < |members| ==> members[a] < members[b]
  {
    if k == 0 then [] else Members(root, r, k - 1) + if root[k - 1] == r then [k - 1] else []
  }

  /** `root` separates exactly the components. */
  ghost predicate LabelsComponents(near: Table, root: seq<nat>, n: nat) {
    && |root| == n
    && forall i, j :: 0 <= i < n && 0 <= j < n ==> (root[i] == root[j] <==> Connected(near, i, j))
  }

  /** The first `k` elements are filed under their roots. */
  ghost predicate Filed(clusters: map<nat, seq<nat>>, root: seq<nat>, k: nat)
    requires k <= |root|
  {
    && (forall r :: r in clusters ==> clusters[r] == Members(root, r, k) && clusters[r] != [])
    && (forall r: nat :: r !in clusters ==> Members(root, r, k) == [])
  }

  /** `clusters[r].append(k)` on a dictionary of lists that starts out empty. */
  function FileUnder(clusters: map<nat, seq<nat>>, r: nat, k: nat): map<nat, seq<nat>> {
    clusters[r := (if r in clusters then clusters[r] else []) + [k]]
  }

  lemma FilingOneMore(clusters: map<nat, seq<nat>>, root: seq<nat>, k: nat)
    requires k < |root| && Filed(clusters, root, k)
    ensures Filed(FileUnder(clusters, root[k], k), root, k + 1)
  {
    var after := FileUnder(clusters, root[k], k);
    forall s: nat ensures s in after ==> after[s] == Members(root, s, k + 1) && after[s] != []
                  ensures s !in after ==> Members(root, s, k + 1) == []
    {
      assert Members(root, s, k + 1) == Members(root, s, k) + if root[k] == s then [k] else [];
    }
  }

  /** Every index is filed under its root. */
  method FileByRoot(forest: Forest) returns (clusters: map<nat, seq<nat>>)
    requires forest.Valid()
    modifies forest.parent
    ensures forest.Valid() && Filed(clusters, forest.root, forest.parent.Length)
  {
    clusters := map[];
    ghost var root := forest.root;
    for idx := 0 to forest.parent.Length
      invariant forest.Valid()
      invariant Filed(clusters, root, idx)
    {
      var r := forest.Find(idx);
      assert r == root[idx];
      FilingOneMore(clusters, root, idx);
      clusters := FileUnder(clusters, r, idx);
    }
  }

  lemma BestOfClusterSurvives(paragraphs: seq<string>, near: Table, root: seq<nat>, r: nat, best: nat)
    requires |near| == |paragraphs| && LabelsComponents(near, root, |paragraphs|)
    requires best in Members(root, r, |root|)
    requires forall m :: m in Members(root, r, |root|) ==>
      |paragraphs[m]| < |paragraphs[best]| || (|paragraphs[m]| == |paragraphs[best]| && best <= m)
    ensures IsSurvivor(paragraphs, near, best)
    ensures forall i: nat :: IsSurvivor(paragraphs, near, i) && root[i] == r ==> i == best
  {
    forall j: nat | j < |paragraphs| && Connected(near, best, j)
      ensures |paragraphs[j]| < |paragraphs[best]| || (|paragraphs[j]| == |paragraphs[best]| && best <= j)
    {
      assert root[j] == root[best] == r;
      assert j in Members(root, r, |root|);
    }
    assert IsSurvivor(paragraphs, near, best);
    forall i: nat | IsSurvivor(paragraphs, near, i) && root[i] == r ensures i == best {
      assert Connected(near, i, best);
      OneSurvivorPerComponent(paragraphs, near, i, best);
    }
  }

  method KeepBest(paragraphs: seq<string>, ghost near: Table, clusters: map<nat, seq<nat>>, ghost root: seq<nat>)
    returns (keep: set<nat>)
    requires |near| == |paragraphs| && LabelsComponents(near, root, |paragraphs|) && Filed(clusters, root, |root|)
    ensures forall i: nat :: i in keep <==> IsSurvivor(paragraphs, near, i)
  {
    keep := {};
    var todo := clusters.Keys;
    assert forall i: nat :: i < |root| ==> i in Members(root, root[i], |root|);
    while todo != {}
      invariant todo <= clusters.Keys
      invariant forall i: nat :: i in keep <==> IsSurvivor(paragraphs, near, i) && root[i] !in todo
      decreases todo
    {
      var r :| r in todo;
      var best := Longest(paragraphs, clusters[r]);
      BestOfClusterSurvives(paragraphs, near, root, r, best);
      keep := keep + {best};
      todo := todo - {r};
    }
  }

  /** `[paragraphs[i] for i in sorted(keep)]` */
  method KeptInOrder(paragraphs: seq<string>, ghost near: Table, keep: set<nat>) returns (out: seq<string>)
    requires forall i: nat :: i in keep <==> IsSurvivor(paragraphs, near, i)
    ensures var survivors := Survivors(paragraphs, near, |paragraphs|);
      && (forall k :: 0 <= k < |survivors| ==> survivors[k] < |paragraphs|)
      && out == Pick(paragraphs, survivors) && |out| <= |paragraphs|
  {
    hide IsSurvivor;
    out := [];
    ghost var survivors := [];
    for i := 0 to |paragraphs|
      invariant survivors == Survivors(paragraphs, near, i)
      invariant forall k :: 0 <= k < |survivors| ==> survivors[k] < |paragraphs|
      invariant out == Pick(paragraphs, survivors)
      invariant |out| <= i
    {
      if i in keep {
        out := out + [paragraphs[i]];
        survivors := survivors + [i];
      }
    }
  }

  /** `enabled` stands for: the library is installed and the threshold is positive. */
  method DedupNear(paragraphs: seq<string>, enabled: bool, near: Table) returns (out: seq<string>, removed: nat)
    requires TableOver(near, |paragraphs|)
    ensures !enabled || paragraphs == [] ==> out == paragraphs && removed == 0
    ensures enabled && paragraphs != [] ==>
      var survivors := Survivors(paragraphs, near, |paragraphs|);
      && (forall k :: 0 <= k < |survivors| ==> survivors[k] < |paragraphs|)
      && out == Pick(paragraphs, survivors)
      && removed == |paragraphs| - |survivors|
  {
    if !enabled || paragraphs == [] {
      return paragraphs, 0;
    }
    var forest := UnionAll(near, |paragraphs|);
    ghost var root := forest.root;
    var clusters := FileByRoot(forest);
    var keep := KeepBest(paragraphs, near, clusters, root);
    out := KeptInOrder(paragraphs, near, keep);
    removed := |paragraphs| - |out|;
  }
}
