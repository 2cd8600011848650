/** Notions that several models share. */
module Helpers {

  datatype Option<+T> = None | Some(value: T)

  function Min(a: nat, b: nat): nat {
    if a < b then a else b
  }

  predicate Distinct<T(==)>(items: seq<T>) {
    forall i, j :: 0 <= i < j < |items| ==> items[i] != items[j]
  }

  /** `part` is `whole` without some of its items, in the same order. */
  predicate Subsequence<T(==)>(part: seq<T>, whole: seq<T>) {
    if whole == [] then part == []
    else
      || (part != [] && part[0] == whole[0] && Subsequence(part[1..], whole[1..]))
      || Subsequence(part, whole[1..])
  }

  lemma {:induction false} SubsequenceKeepsPrefix<T>(head: seq<T>, part: seq<T>, rest: seq<T>)
    requires Subsequence(part, rest)
    ensures Subsequence(head + part, head + rest)
  {
    if head == [] {
      assert head + part == part && head + rest == rest;
    } else {
      SubsequenceKeepsPrefix(head[1..], part, rest);
      assert (head + part)[1..] == head[1..] + part && (head + rest)[1..] == head[1..] + rest;
    }
  }

  lemma {:induction false} SubsequenceSkipsPrefix<T>(head: seq<T>, part: seq<T>, rest: seq<T>)
    requires Subsequence(part, rest)
    ensures Subsequence(part, head + rest)
  {
    if head == [] {
      assert head + rest == rest;
    } else {
      SubsequenceSkipsPrefix(head[1..], part, rest);
      assert (head + rest)[1..] == head[1..] + rest;
    }
  }

  /** One more item on the whole, which the part may take too. */
  lemma {:induction false} SubsequenceGrows<T>(part: seq<T>, whole: seq<T>, item: T)
    requires Subsequence(part, whole)
    ensures Subsequence(part, whole + [item]) && Subsequence(part + [item], whole + [item])
  {
    if whole == [] {
      assert whole + [item] == [item] && part + [item] == [item] && [item][1..] == [];
    } else {
      assert (whole + [item])[1..] == whole[1..] + [item];
      if part != [] && part[0] == whole[0] && Subsequence(part[1..], whole[1..]) {
        SubsequenceGrows(part[1..], whole[1..], item);
        assert (part + [item])[1..] == part[1..] + [item];
      } else {
        SubsequenceGrows(part, whole[1..], item);
      }
    }
  }

  lemma {:induction false} SubsequenceHasNoOther<T>(part: seq<T>, whole: seq<T>)
    requires Subsequence(part, whole)
    ensures forall k :: 0 <= k < |part| ==> part[k] in whole
  {
    if whole != [] {
      if part != [] && part[0] == whole[0] && Subsequence(part[1..], whole[1..]) {
        SubsequenceHasNoOther(part[1..], whole[1..]);
        assert forall k :: 0 < k < |part| ==> part[k] == part[1..][k - 1];
      } else {
        SubsequenceHasNoOther(part, whole[1..]);
      }
    }
  }

  lemma Regroup<T>(a: seq<T>, b: seq<T>, c: seq<T>)
    ensures a + (b + c) == (a + b) + c
  {
  }

  /** Scaling by a positive factor keeps the order of two reals, in both directions. */
  lemma ScalingKeepsOrder(x: real, y: real, factor: real)
    requires factor > 0.0
    ensures x <= y <==> x * factor <= y * factor
  {
  }
}
