// The smallest natural number not in use: the search that
// `_get_unused_physical_qubit` (executor), `_get_new_app_id` (connection)
// and `get_new_qubit_address` (memory manager) each run with
// `itertools.count(0)`.

module FreshIds {

  /** The smallest natural number in [k, k + fuel] that is not in `used`, or k + fuel. */
  function ScanUnused(used: set<int>, k: nat, fuel: nat): (p: nat)
    ensures k <= p <= k + fuel
    ensures forall q :: k <= q < p ==> q in used
    ensures p < k + fuel ==> p !in used
    decreases fuel
  {
    if fuel == 0 || k !in used then k else ScanUnused(used, k + 1, fuel - 1)
  }

  /** The numbers 0 .. n-1 as a set. */
  function Below(n: nat): (s: set<int>)
    ensures forall q :: q in s <==> 0 <= q < n
    ensures |s| == n
  {
    if n == 0 then {} else Below(n - 1) + {n - 1}
  }

  /** A subset has no more elements than the set. */
  lemma SubsetSize(a: set<int>, b: set<int>)
    requires a <= b
    ensures |a| <= |b|
  {
    assert b == a + (b - a);
  }

  /**
   * The first of 0, 1, 2, ... that is not in `used`. A set of n numbers
   * misses one of 0 .. n, so the scan stops there.
   */
  function SmallestUnused(used: set<int>): (p: nat)
    ensures p !in used
    ensures forall q :: 0 <= q < p ==> q in used
  {
    var p := ScanUnused(used, 0, |used| + 1);
    if p == |used| + 1 then
      SubsetSize(Below(|used| + 1), used);
      assert false;
      p
    else p
  }

  /** The smallest unused number is the only unused number with every smaller one used. */
  lemma SmallestUnusedUnique(used: set<int>, p: int)
    requires 0 <= p && p !in used && forall q :: 0 <= q < p ==> q in used
    ensures p == SmallestUnused(used)
  {
  }

  /** The elements of a list, as a set. */
  function Elems(xs: seq<int>): (s: set<int>)
    ensures forall x :: x in s <==> x in xs
  {
    set x | x in xs
  }

  /** The first of 0, 1, 2, ... that is not in the list `xs`. */
  function SmallestNotIn(xs: seq<int>): (p: nat)
    ensures p !in xs
    ensures forall q :: 0 <= q < p ==> q in xs
  {
    SmallestUnused(Elems(xs))
  }

  /** The smallest id missing from a list is the one counted up to. */
  lemma SmallestNotInUnique(xs: seq<int>, a: nat)
    requires a !in xs && forall q :: 0 <= q < a ==> q in xs
    ensures a == SmallestNotIn(xs)
  {
    SmallestUnusedUnique(Elems(xs), a);
  }

  /** A list whose n first naturals are all in it is at least n long. */
  lemma ListHoldsBelow(xs: seq<int>, n: nat)
    requires forall q :: 0 <= q < n ==> q in xs
    ensures n <= |xs|
  {
    SubsetSize(Below(n), Elems(xs));
    ElemsSize(xs);
  }

  lemma {:induction false} ElemsSize(xs: seq<int>)
    ensures |Elems(xs)| <= |xs|
  {
    if xs != [] {
      ElemsSize(xs[1..]);
      assert Elems(xs) == Elems(xs[1..]) + {xs[0]};
    }
  }
}
