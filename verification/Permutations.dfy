/** Sequences picked by a list of indices, and when a pick is a rearrangement. */
module Permutations {

  predicate Indices(order: seq<nat>, n: nat) {
    forall i :: 0 <= i < |order| ==> order[i] < n
  }

  predicate Distinct(order: seq<nat>) {
    forall i, j :: 0 <= i < j < |order| ==> order[i] != order[j]
  }

  /** Every index below n exactly once. */
  predicate IsPermutation(order: seq<nat>, n: nat) {
    Indices(order, n) && Distinct(order) && forall k :: 0 <= k < n ==> k in order
  }

  function Pick<T>(s: seq<T>, order: seq<nat>): (r: seq<T>)
    requires Indices(order, |s|)
    ensures |r| == |order| && forall i :: 0 <= i < |r| ==> r[i] == s[order[i]]
  {
    seq(|order|, i requires 0 <= i < |order| => s[order[i]])
  }

  function Without(order: seq<nat>, k: nat): (r: seq<nat>)
    requires k < |order|
  {
    order[..k] + order[k + 1..]
  }

  function IndexOf(order: seq<nat>, x: nat): (k: nat)
    requires x in order
    ensures k < |order| && order[k] == x
  {
    if order[0] == x then 0 else 1 + IndexOf(order[1..], x)
  }

  lemma WithoutPermutes(order: seq<nat>, k: nat, n: nat)
    requires IsPermutation(order, n + 1) && k < |order| && order[k] == n
    ensures IsPermutation(Without(order, k), n)
  {
    var rest := Without(order, k);
    forall i | 0 <= i < |rest| ensures rest[i] < n {
      assert rest[i] == order[if i < k then i else i + 1];
    }
    forall x | 0 <= x < n ensures x in rest {
      assert x in order;
      var i := IndexOf(order, x);
      assert rest[if i < k then i else i - 1] == x;
    }
  }

  lemma {:induction false} PermutationLength(order: seq<nat>, n: nat)
    requires IsPermutation(order, n)
    ensures |order| == n
  {
    if order == [] {
      assert n > 0 ==> 0 in order;
    } else {
      assert order[0] < n && n - 1 in order;
      var k := IndexOf(order, n - 1);
      WithoutPermutes(order, k, n - 1);
      PermutationLength(Without(order, k), n - 1);
    }
  }

  lemma SplitMultiset<T>(s: seq<T>, k: nat)
    requires k < |s|
    ensures multiset(s) == multiset(s[..k] + s[k + 1..]) + multiset{s[k]}
  {
    assert s == s[..k] + [s[k]] + s[k + 1..];
  }

  lemma PickWithout<T>(s: seq<T>, order: seq<nat>, k: nat)
    requires IsPermutation(order, |s|) && k < |order| && order[k] == |s| - 1
    ensures Indices(Without(order, k), |s| - 1)
    ensures Pick(s[..|s| - 1], Without(order, k)) == Pick(s, order)[..k] + Pick(s, order)[k + 1..]
  {
    WithoutPermutes(order, k, |s| - 1);
  }

  /** Picking by a permutation rearranges. */
  lemma {:induction false} PickPermutes<T>(s: seq<T>, order: seq<nat>)
    requires IsPermutation(order, |s|)
    ensures multiset(Pick(s, order)) == multiset(s)
  {
    if s == [] {
      assert |order| == 0;
    } else {
      var n := |s| - 1;
      assert n in order;
      var k := IndexOf(order, n);
      WithoutPermutes(order, k, n);
      PickPermutes(s[..n], Without(order, k));
      PickWithout(s, order, k);
      SplitMultiset(Pick(s, order), k);
      SplitMultiset(s, n);
      assert s[..n] + s[n + 1..] == s[..n];
    }
  }
}
