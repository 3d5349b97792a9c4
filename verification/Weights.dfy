/**
 Weighted choice of a proxy backend: the weights are summed up in place when the service is added, and a
 session takes the first backend whose sum exceeds a random residue.
 */
module Weights {
  import opened Bytes

  function Sum(w: seq<int>): int
  {
    if w == [] then 0 else Sum(w[..|w| - 1]) + w[|w| - 1]
  }

  predicate NonNegative(w: seq<int>) { forall i :: 0 <= i < |w| ==> w[i] >= 0 }

  /** `sums` are the prefix sums of `w`. */
  predicate SumsOf(sums: seq<int>, w: seq<int>)
  {
    |sums| == |w| && forall i :: 0 <= i < |w| ==> sums[i] == Sum(w[..i + 1])
  }

  /** Adds every weight to the next one, from left to right. */
  method AddUp(weight: array<int>)
    modifies weight
    ensures SumsOf(weight[..], old(weight[..]))
  {
    ghost var w := weight[..];
    if weight.Length == 0 { return; }
    assert w[..1][..0] == [] && Sum(w[..1]) == w[0];
    for i := 1 to weight.Length
      invariant forall k :: 0 <= k < i ==> weight[k] == Sum(w[..k + 1])
      invariant forall k :: i <= k < weight.Length ==> weight[k] == w[k]
    {
      assert w[..i + 1][..i] == w[..i];
      weight[i] := weight[i] + weight[i - 1];
    }
  }

  lemma {:induction false} SumMono(w: seq<int>, i: nat, j: nat)
    requires NonNegative(w) && i <= j <= |w|
    ensures 0 <= Sum(w[..i]) <= Sum(w[..j])
    decreases j
  {
    if i < j {
      SumMono(w, i, j - 1);
      assert w[..j][..j - 1] == w[..j - 1];
    } else if i > 0 {
      SumMono(w, i - 1, i - 1);
      assert w[..i][..i - 1] == w[..i - 1];
    }
  }

  /** Backend `i` has the residues from the sum before it to the sum with it. */
  predicate Owns(w: seq<int>, i: nat, r: int)
    requires i < |w|
  {
    Sum(w[..i]) <= r < Sum(w[..i + 1])
  }

  /** Every residue below the total has exactly one owner. */
  lemma OwnerUnique(w: seq<int>, i: nat, j: nat, r: int)
    requires NonNegative(w) && i < |w| && j < |w| && Owns(w, i, r) && Owns(w, j, r)
    ensures i == j
  {
    if i < j { SumMono(w, i + 1, j); }
    if j < i { SumMono(w, j + 1, i); }
  }

  /** The loop of `SessionOpen`: the first backend whose sum exceeds `r`, backend 0 if none does. */
  method Choose(sums: seq<int>, r: int, ghost w: seq<int>) returns (i: nat)
    requires SumsOf(sums, w) && NonNegative(w) && 0 < |w| && 0 <= r < Sum(w)
    ensures i < |w| && Owns(w, i, r)
  {
    assert w[..0] == [] && w[..|w|] == w;
    i := 0;
    while i < |sums|
      invariant i <= |sums| && Sum(w[..i]) <= r
    {
      if r < sums[i] { return; }
      i := i + 1;
    }
    assert false;
  }

  /** `SessionOpen`: with one backend there is nothing to choose. */
  method SessionOpen(remotes: nat, sums: seq<int>, random: nat, ghost w: seq<int>) returns (i: nat)
    requires 1 <= remotes && (remotes > 1 ==> |w| == remotes && SumsOf(sums, w) && NonNegative(w) && 0 < Sum(w))
    requires remotes == 1 ==> sums == []
    ensures i < remotes
    ensures remotes == 1 ==> i == 0
    ensures remotes > 1 ==> Owns(w, i, random % Sum(w))
  {
    i := 0;
    if |sums| > 1 {
      assert w[..|w|] == w;
      i := Choose(sums, random % sums[|sums| - 1], w);
    }
  }

  /** How many of the residues below `n` backend `i` owns. */
  function Share(w: seq<int>, i: nat, n: nat): nat
    requires i < |w|
  {
    if n == 0 then 0 else Share(w, i, n - 1) + if Owns(w, i, n - 1) then 1 else 0
  }

  lemma {:induction false} ShareIs(w: seq<int>, i: nat, n: nat)
    requires i < |w| && NonNegative(w)
    ensures Sum(w[..i + 1]) == Sum(w[..i]) + w[i]
    ensures Share(w, i, n) == Max(0, Min(n, Sum(w[..i + 1])) - Sum(w[..i]))
    decreases n
  {
    assert w[..i + 1][..i] == w[..i];
    SumMono(w, i, i + 1);
    if n > 0 { ShareIs(w, i, n - 1); }
  }

  /** Of all residues below the total, each backend is chosen for exactly as many as its weight. */
  lemma ShareIsWeight(w: seq<int>, i: nat)
    requires i < |w| && NonNegative(w)
    ensures 0 <= Sum(w) && Share(w, i, Sum(w)) == w[i]
  {
    hide Sum, Share;
    assert w[..|w|] == w;
    SumMono(w, i + 1, |w|);
    SumMono(w, i, |w|);
    ShareIs(w, i, Sum(w));
  }
}
