// The allocation rules of the SDK's memory bookkeeping, as functions on
// the bookkeeping's values. The memory manager (`netqasm/sdk/memmgr.py`)
// and the builder (`netqasm/sdk/builder.py`) each keep a copy of this
// state and each run the same searches; both are proved against these
// functions.

module Allocators {
  import opened Wrappers
  import opened Encoding
  import opened Operand

  /** `R{i}` for i < 16, as `parse_register(f"R{i}")` reads it. */
  function RegR(i: nat): Register
  {
    Register(R, i)
  }

  /** `RegR(i)` for the first i in [k, 16) whose register is not active, or None. */
  function LowestInactiveFrom(active: set<Register>, k: nat): (r: Option<Register>)
    requires k <= REG_COUNT
    ensures r.Some? ==> r.value !in active && r.value.name == R && k <= r.value.index < REG_COUNT
    ensures r.Some? ==> r.value == RegR(r.value.index)
    ensures r.Some? ==> forall i :: k <= i < r.value.index ==> RegR(i) in active
    ensures r.None? ==> forall i :: k <= i < REG_COUNT ==> RegR(i) in active
    decreases REG_COUNT - k
  {
    if k == REG_COUNT then None
    else if RegR(k) !in active then Some(RegR(k))
    else LowestInactiveFrom(active, k + 1)
  }

  /**
   * The register `get_inactive_register` picks: the lowest of R0 .. R15
   * not active, or None when all sixteen are.
   */
  function LowestInactive(active: set<Register>): (r: Option<Register>)
    ensures r.Some? ==> r.value !in active && r.value.name == R && 0 <= r.value.index < REG_COUNT
    ensures r.Some? ==> forall i :: 0 <= i < r.value.index ==> RegR(i) in active
    ensures r.None? <==> forall i :: 0 <= i < REG_COUNT ==> RegR(i) in active
  {
    LowestInactiveFrom(active, 0)
  }

  /** Only one register of R0 .. R15 is inactive with every lower one active. */
  lemma LowestInactiveUnique(active: set<Register>, i: nat)
    requires i < REG_COUNT && RegR(i) !in active
    requires forall j :: 0 <= j < i ==> RegR(j) in active
    ensures LowestInactive(active) == Some(RegR(i))
  {
  }

  /**
   * The measurement-register table: an insertion-ordered dictionary from
   * register to "in use", held as its list of items.
   */
  type MeasTable = seq<(Register, bool)>

  /** No key appears twice, as in any dictionary. */
  predicate KeysDistinct(t: MeasTable)
  {
    forall i, j :: 0 <= i < j < |t| ==> t[i].0 != t[j].0
  }

  /** The items (M_i, False) for i in [k, 16). */
  function MeasItemsFrom(k: nat): (t: MeasTable)
    requires k <= REG_COUNT
    ensures |t| == REG_COUNT - k
    ensures forall i :: 0 <= i < |t| ==> t[i] == (Register(M, k + i), false)
    decreases REG_COUNT - k
  {
    if k == REG_COUNT then [] else [(Register(M, k), false)] + MeasItemsFrom(k + 1)
  }

  /** `{Register(M, i): False for i in range(16)}`: M0 .. M15 in order, none in use. */
  function InitialMeasTable(): (t: MeasTable)
    ensures |t| == REG_COUNT && KeysDistinct(t)
    ensures forall i :: 0 <= i < REG_COUNT ==> t[i] == (Register(M, i), false)
  {
    MeasItemsFrom(0)
  }

  /** The position of `reg`'s item, or |t| when the table has no such key. */
  function KeyPos(t: MeasTable, reg: Register): (k: nat)
    ensures k <= |t|
    ensures k < |t| ==> t[k].0 == reg
    ensures forall i :: 0 <= i < k ==> t[i].0 != reg
  {
    if t == [] then 0 else if t[0].0 == reg then 0 else 1 + KeyPos(t[1..], reg)
  }

  /** In a dictionary, the item at position k is the one its key finds. */
  lemma KeyPosOfDistinct(t: MeasTable, k: nat)
    requires KeysDistinct(t) && k < |t|
    ensures KeyPos(t, t[k].0) == k
  {
  }

  /**
   * `table[reg] = used`: an existing key keeps its position and takes the
   * new flag; a new key is appended.
   */
  function MeasSet(t: MeasTable, reg: Register, used: bool): (t': MeasTable)
    requires KeysDistinct(t)
    ensures KeysDistinct(t')
    ensures KeyPos(t, reg) < |t| ==> t' == t[KeyPos(t, reg) := (reg, used)]
    ensures KeyPos(t, reg) == |t| ==> t' == t + [(reg, used)]
  {
    var k := KeyPos(t, reg);
    if k < |t| then t[k := (reg, used)] else t + [(reg, used)]
  }

  /** The position of the first item not in use, or |t|. */
  function FirstUnused(t: MeasTable): (k: nat)
    ensures k <= |t|
    ensures k < |t| ==> !t[k].1
    ensures forall i :: 0 <= i < k ==> t[i].1
  {
    if t == [] then 0 else if !t[0].1 then 0 else 1 + FirstUnused(t[1..])
  }

  /** On a table with nothing in use, n takes mark exactly the first n items. */
  lemma {:induction false} TakeInOrder(t: MeasTable, n: nat)
    requires n <= |t| && forall i :: 0 <= i < |t| ==> !t[i].1
    ensures forall i :: 0 <= i < |t| ==> TakeMeas(t, n)[i].1 == (i < n)
    ensures FirstUnused(TakeMeas(t, n)) == n
  {
    if n > 0 {
      TakeInOrder(t, n - 1);
      var s := TakeMeas(t, n - 1);
      assert TakeMeas(t, n) == s[n - 1 := (s[n - 1].0, true)];
    }
    var u := TakeMeas(t, n);
    assert n < |u| ==> !u[n].1;
    assert forall i :: 0 <= i < n ==> u[i].1;
  }

  /**
   * Sixteen `get_new_meas_outcome_register` calls on a fresh table take
   * M0, M1, ... in order, and a seventeenth finds nothing unused.
   */
  lemma MeasRegistersInOrder(n: nat)
    requires n <= REG_COUNT
    ensures |TakeMeas(InitialMeasTable(), n)| == REG_COUNT
    ensures forall i :: 0 <= i < REG_COUNT ==> TakeMeas(InitialMeasTable(), n)[i] == (Register(M, i), i < n)
    ensures FirstUnused(TakeMeas(InitialMeasTable(), n)) == n
  {
    TakeInOrder(InitialMeasTable(), n);
  }

  /** The table after n calls that each mark the first unused item. */
  function TakeMeas(t: MeasTable, n: nat): (t': MeasTable)
    ensures |t'| == |t|
    ensures forall i :: 0 <= i < |t| ==> t'[i].0 == t[i].0
  {
    if n == 0 then t
    else
      var s := TakeMeas(t, n - 1);
      var k := FirstUnused(s);
      if k < |s| then s[k := (s[k].0, true)] else s
  }

  /**
   * `get_new_array_address`: one past the last address handed out, or 0
   * for the first.
   */
  function NextArrayAddress(used: seq<int>): (a: int)
    ensures used == [] ==> a == 0
    ensures used != [] ==> a == used[|used| - 1] + 1
  {
    if |used| > 0 then used[|used| - 1] + 1 else 0
  }

  predicate StrictlyIncreasing(xs: seq<int>)
  {
    forall i, j :: 0 <= i < j < |xs| ==> xs[i] < xs[j]
  }

  /**
   * The addresses handed out start at 0 and increase strictly, so a new
   * address is never one already used.
   */
  lemma NextArrayAddressFresh(used: seq<int>)
    requires StrictlyIncreasing(used) && (used != [] ==> used[0] >= 0)
    ensures NextArrayAddress(used) >= 0 && NextArrayAddress(used) !in used
    ensures StrictlyIncreasing(used + [NextArrayAddress(used)])
  {
    var a := NextArrayAddress(used);
    var u := used + [a];
    forall i, j | 0 <= i < j < |u| ensures u[i] < u[j] {
      if j == |used| && i < |used| - 1 {
        assert used[i] < used[|used| - 1];
      }
    }
    if used != [] {
      assert used[0] <= used[|used| - 1];
    }
  }

  /** The n-th address handed out from scratch is n. */
  lemma {:induction false} ArrayAddressesCount(n: nat)
    ensures ArrayAddresses(n) == Interval(0, n)
  {
    if n > 0 {
      ArrayAddressesCount(n - 1);
    }
  }

  /** The list `[lo, lo + 1, ..., hi - 1]`. */
  function Interval(lo: int, hi: int): (xs: seq<int>)
    ensures |xs| == if hi <= lo then 0 else hi - lo
    ensures forall i :: 0 <= i < |xs| ==> xs[i] == lo + i
    decreases hi - lo
  {
    if hi <= lo then [] else Interval(lo, hi - 1) + [hi - 1]
  }

  /** The used-address list after n `get_new_array_address` calls from an empty one. */
  function ArrayAddresses(n: nat): (used: seq<int>)
    ensures |used| == n
  {
    if n == 0 then [] else var u := ArrayAddresses(n - 1); u + [NextArrayAddress(u)]
  }
}
