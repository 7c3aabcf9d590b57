/** Counting the set entries of a boolean vector, such as the carrier mask. */
module Counting {

  /** Number of `true` entries. Counted from the back so that a prefix extends by one
      element at a time. */
  function CountTrue(m: seq<bool>): (r: nat)
    ensures r <= |m|
  {
    if |m| == 0 then 0 else CountTrue(m[..|m| - 1]) + (if m[|m| - 1] then 1 else 0)
  }

  /** `m[..k+1]` has one more set entry than `m[..k]` exactly when `m[k]` is set. */
  lemma CountPrefixStep(m: seq<bool>, k: nat)
    requires k < |m|
    ensures CountTrue(m[..k + 1]) == CountTrue(m[..k]) + (if m[k] then 1 else 0)
  {
    assert m[..k + 1][..k] == m[..k];
  }

  /** Counts grow along prefixes: a set entry at `k` is counted before every later one. */
  lemma {:induction false} CountPrefixMonotone(m: seq<bool>, j: nat, k: nat)
    requires j <= k <= |m|
    ensures CountTrue(m[..j]) <= CountTrue(m[..k])
    ensures j < k && m[j] ==> CountTrue(m[..j]) < CountTrue(m[..k])
  {
    if j < k {
      CountPrefixMonotone(m, j, k - 1);
      CountPrefixStep(m, k - 1);
    }
  }

  /** A set entry's rank, the number of set entries before it, is below the total. */
  lemma RankBelowCount(m: seq<bool>, i: nat)
    requires i < |m| && m[i]
    ensures CountTrue(m[..i]) < CountTrue(m)
  {
    CountPrefixMonotone(m, i, |m|);
    assert m[..|m|] == m;
  }

  /** The vector that is set exactly on the interval `[lo, hi)` counts its
      intersection with `[0, |m|)`. */
  lemma {:induction false} CountInterval(m: seq<bool>, lo: nat, hi: nat)
    requires lo <= hi
    requires forall i :: 0 <= i < |m| ==> (m[i] <==> lo <= i < hi)
    ensures CountTrue(m) == if |m| <= lo then 0 else if |m| <= hi then |m| - lo else hi - lo
  {
    if |m| > 0 {
      var p := m[..|m| - 1];
      assert forall i :: 0 <= i < |p| ==> p[i] == m[i];
      CountInterval(p, lo, hi);
    }
  }

  /** Counts add up over a disjoint union. */
  lemma {:induction false} CountDisjointUnion(m: seq<bool>, a: seq<bool>, b: seq<bool>)
    requires |a| == |m| && |b| == |m|
    requires forall i :: 0 <= i < |m| ==> (m[i] <==> a[i] || b[i])
    requires forall i :: 0 <= i < |m| ==> !(a[i] && b[i])
    ensures CountTrue(m) == CountTrue(a) + CountTrue(b)
  {
    if |m| > 0 {
      var n := |m| - 1;
      var pm, pa, pb := m[..n], a[..n], b[..n];
      assert forall i :: 0 <= i < n ==> pm[i] == m[i] && pa[i] == a[i] && pb[i] == b[i];
      CountDisjointUnion(pm, pa, pb);
    }
  }

  /** A vector and its complement split the length between them. */
  lemma {:induction false} CountComplement(m: seq<bool>, c: seq<bool>)
    requires |c| == |m|
    requires forall i :: 0 <= i < |m| ==> (c[i] <==> !m[i])
    ensures CountTrue(m) + CountTrue(c) == |m|
  {
    if |m| > 0 {
      var n := |m| - 1;
      var pm, pc := m[..n], c[..n];
      assert forall i :: 0 <= i < n ==> pm[i] == m[i] && pc[i] == c[i];
      CountComplement(pm, pc);
    }
  }
}
