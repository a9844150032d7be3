// Facts about sequence slicing and concatenation, stated for any element
// type, that the list-rewriting loops of the model use.

module Seqs {

  /** The suffix from `n` is its first element followed by the rest. */
  lemma SuffixCons<T>(s: seq<T>, n: nat)
    requires n < |s|
    ensures s[n..] == [s[n]] + s[n + 1..]
  {
  }

  /** The element after a prefix `out` of `out + whole[n..]` is `whole[n]`. */
  lemma AtSeam<T>(out: seq<T>, whole: seq<T>, n: nat)
    requires n <= |whole| && |out| < |out + whole[n..]|
    ensures n < |whole| && (out + whole[n..])[|out|] == whole[n]
    ensures out + whole[n..] == (out + [whole[n]]) + whole[n + 1..]
  {
    SuffixCons(whole, n);
    Assoc(out, [whole[n]], whole[n + 1..]);
  }

  /** Once the prefix `out` is all of `out + whole[n..]`, `whole` is used up. */
  lemma AtEnd<T>(out: seq<T>, whole: seq<T>, n: nat)
    requires n <= |whole| && |out + whole[n..]| <= |out|
    ensures n == |whole| && out + whole[n..] == out && whole[..n] == whole
  {
    assert whole[n..] == [];
  }

  /** Replacing the element after `out` by a non-empty `piece` extends the prefix by `piece`. */
  lemma SpliceAt<T>(out: seq<T>, x: T, rest: seq<T>, piece: seq<T>)
    requires |piece| >= 1
    ensures var s := out + [x] + rest;
      s[..|out|] + piece[..|piece| - 1] + [piece[|piece| - 1]] + s[|out| + 1..] == (out + piece) + rest
  {
    assert piece[..|piece| - 1] + [piece[|piece| - 1]] == piece;
    Splice(out, x, rest, piece[..|piece| - 1], piece[|piece| - 1]);
  }

  /** Cutting a concatenation at the seam gives back both parts. */
  lemma SplitAtSeam<T>(a: seq<T>, b: seq<T>)
    ensures (a + b)[..|a|] == a && (a + b)[|a|..] == b
  {
  }

  /** Replacing the element at the seam by `xs + [y]` extends the prefix by `xs + [y]`. */
  lemma Splice<T>(a: seq<T>, x: T, rest: seq<T>, xs: seq<T>, y: T)
    ensures var s := a + [x] + rest;
      s[..|a|] + xs + [y] + s[|a| + 1..] == a + (xs + [y]) + rest
  {
    var s := a + [x] + rest;
    assert s[..|a|] == a;
    assert s[|a| + 1..] == rest;
  }

  lemma Assoc<T>(a: seq<T>, b: seq<T>, c: seq<T>)
    ensures a + (b + c) == (a + b) + c
  {
  }

  /** Removing the element between `a` and `rest`. */
  lemma Remove<T>(a: seq<T>, x: T, rest: seq<T>)
    ensures var s := a + [x] + rest;
      s[..|a|] + s[|a| + 1..] == a + rest
  {
    var s := a + [x] + rest;
    assert s[..|a|] == a;
    assert s[|a| + 1..] == rest;
  }

  /** `t` is `s` without position `i`: the elements before it kept, those after it shifted down by one. */
  ghost predicate RemovedAt<T>(t: seq<T>, s: seq<T>, i: nat)
  {
    i < |s| && |t| == |s| - 1 && (forall k :: 0 <= k < i ==> t[k] == s[k]) && forall k :: i <= k < |t| ==> t[k] == s[k + 1]
  }

  lemma RemoveAt<T>(s: seq<T>, i: nat)
    requires i < |s|
    ensures RemovedAt(s[..i] + s[i + 1..], s, i)
  {
  }

  lemma InitLast<T>(s: seq<T>)
    requires |s| > 0
    ensures s[..|s| - 1] + [s[|s| - 1]] == s
  {
  }

  lemma Around<T>(s: seq<T>, k: nat)
    requires k < |s|
    ensures s == s[..k] + [s[k]] + s[k + 1..]
  {
  }

  /** The last element and the rest of a concatenation whose right part is not empty. */
  lemma ConcatInitLast<T>(a: seq<T>, b: seq<T>)
    requires |b| > 0
    ensures (a + b)[..|a + b| - 1] == a + b[..|b| - 1] && (a + b)[|a + b| - 1] == b[|b| - 1]
  {
  }

  lemma EmptyRight<T>(a: seq<T>)
    ensures a + [] == a
  {
  }

  /** `xs.index(x)`: the position of the first `x`, or `|xs|` when there is none. */
  function IndexOf<T(==)>(xs: seq<T>, x: T): (i: nat)
    ensures i <= |xs|
    ensures i < |xs| <==> x in xs
    ensures i < |xs| ==> xs[i] == x
    ensures forall k :: 0 <= k < i ==> xs[k] != x
  {
    if xs == [] then 0
    else if xs[0] == x then 0
    else 1 + IndexOf(xs[1..], x)
  }

  /** `xs.remove(x)` on a list holding `x`: the first `x` is taken out. */
  function RemoveFirst<T(==)>(xs: seq<T>, x: T): (r: seq<T>)
    requires x in xs
    ensures |r| == |xs| - 1
    ensures multiset(r) == multiset(xs) - multiset{x}
    ensures forall k :: 0 <= k < |xs| && xs[k] != x ==> xs[k] in r
    ensures forall k :: 0 <= k < |r| ==> r[k] in xs
  {
    var i := IndexOf(xs, x);
    Around(xs, i);
    assert multiset(xs) == multiset(xs[..i]) + multiset{x} + multiset(xs[i + 1..]);
    xs[..i] + xs[i + 1..]
  }

  /** No element occurs twice. */
  predicate Distinct<T(==)>(xs: seq<T>)
  {
    forall i, j :: 0 <= i < j < |xs| ==> xs[i] != xs[j]
  }

  /** Removing an element from a list without repeats removes its only occurrence. */
  lemma RemoveFirstDistinct<T>(xs: seq<T>, x: T)
    requires Distinct(xs) && x in xs
    ensures Distinct(RemoveFirst(xs, x)) && x !in RemoveFirst(xs, x)
  {
    var i := IndexOf(xs, x);
    var r := xs[..i] + xs[i + 1..];
    assert RemoveFirst(xs, x) == r;
    forall k | 0 <= k < |r| ensures r[k] == xs[if k < i then k else k + 1] {
    }
    forall p, q | 0 <= p < q < |r| ensures r[p] != r[q] {
      assert r[p] == xs[if p < i then p else p + 1];
      assert r[q] == xs[if q < i then q else q + 1];
    }
    forall k | 0 <= k < |r| ensures r[k] != x {
      assert r[k] == xs[if k < i then k else k + 1];
    }
  }
}
