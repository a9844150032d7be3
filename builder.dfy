// `netqasm/sdk/builder.py`: the `Builder` a connection uses to turn the
// statements of a host program into the commands of a `PreSubroutine`.
// The builder keeps a list of pending commands, the registers and
// measurement registers in use, the array addresses handed out, the
// arrays and registers to return and the branch labels generated so far.
// Loops and ifs are lowered to labelled branches around the commands a
// body produced; a flush brackets the pending commands with the array
// set-up before and the return commands after.
//
// A body (the Python callback of `loop_body` or `if_eq`, or the block of
// a `with` statement) is given as the commands it adds. Qubit handles are
// reduced to their ids, and the line tracker to the line it reports.

module Builder {
  import opened Wrappers
  import opened Encoding
  import opened Seqs
  import opened Operand
  import opened IR
  import opened Allocators
  import opened FreshIds
  import opened StringUtil
  import opened QLink
  import opened Futures
  import Text
  import Vm

  // ---------------------------------------------------------------------
  // Fresh names: `_find_unused_variable`

  /** `f"{base}{i}"`. */
  function Numbered(base: string, i: nat): string
  {
    base + NatToString(i)
  }

  /** Different numbers give different names. */
  lemma NumberedInjective(base: string, i: nat, j: nat)
    requires Numbered(base, i) == Numbered(base, j)
    ensures i == j
  {
    assert NatToString(i) == Numbered(base, i)[|base|..];
    assert NatToString(j) == Numbered(base, j)[|base|..];
    NatToStringValue(i);
    NatToStringValue(j);
  }

  /** The names base1 .. base{n}. */
  function NumberedUpTo(base: string, n: nat): (s: set<string>)
    ensures forall i :: 1 <= i <= n ==> Numbered(base, i) in s
  {
    if n == 0 then {} else NumberedUpTo(base, n - 1) + {Numbered(base, n)}
  }

  lemma {:induction false} NumberedUpToMembers(base: string, n: nat, x: string)
    requires x in NumberedUpTo(base, n)
    ensures exists i :: 1 <= i <= n && x == Numbered(base, i)
  {
    if x != Numbered(base, n) {
      NumberedUpToMembers(base, n - 1, x);
    }
  }

  /** The n names are all different. */
  lemma {:induction false} NumberedUpToSize(base: string, n: nat)
    ensures |NumberedUpTo(base, n)| == n
  {
    if n > 0 {
      NumberedUpToSize(base, n - 1);
      if Numbered(base, n) in NumberedUpTo(base, n - 1) {
        NumberedUpToMembers(base, n - 1, Numbered(base, n));
        var i :| 1 <= i <= n - 1 && Numbered(base, n) == Numbered(base, i);
        NumberedInjective(base, i, n);
      }
    }
  }

  lemma StringSubsetSize(a: set<string>, b: set<string>)
    requires a <= b
    ensures |a| <= |b|
  {
    assert b == a + (b - a);
  }

  /**
   * The first i >= k for which base{i} is not taken. Every name before k
   * is taken, so k - 1 <= |taken| and the count stops within |taken| + 1.
   */
  function FreeNumber(base: string, taken: set<string>, k: nat): (i: nat)
    requires 1 <= k && NumberedUpTo(base, k - 1) <= taken
    ensures k <= i && Numbered(base, i) !in taken
    ensures forall j :: k <= j < i ==> Numbered(base, j) in taken
    decreases |taken| + 1 - k
  {
    NumberedUpToSize(base, k - 1);
    StringSubsetSize(NumberedUpTo(base, k - 1), taken);
    if Numbered(base, k) !in taken then k else FreeNumber(base, taken, k + 1)
  }

  function AsSet(xs: seq<string>): (s: set<string>)
    ensures forall x :: x in s <==> x in xs
  {
    set x | x in xs
  }

  /**
   * `_find_unused_variable(start_with, current_variables)`: the base name
   * itself when it is not taken, otherwise base{i} for the smallest i >= 1
   * that is not taken.
   */
  function UnusedVariable(startWith: string, current: seq<string>): (name: string)
    ensures name !in current
    ensures startWith !in current ==> name == startWith
    ensures startWith in current ==>
      exists i :: 1 <= i && name == Numbered(startWith, i) && forall j :: 1 <= j < i ==> Numbered(startWith, j) in current
  {
    if startWith !in current then startWith
    else
      var i := FreeNumber(startWith, AsSet(current), 1);
      Numbered(startWith, i)
  }

  /** `_find_unused_variable`, with its counting loop. */
  method FindUnusedVariable(startWith: string, current: seq<string>) returns (name: string)
    ensures name == UnusedVariable(startWith, current)
  {
    var taken := AsSet(current);
    if startWith !in taken {
      return startWith;
    }
    var i: nat := 1;
    while Numbered(startWith, i) in taken
      invariant 1 <= i && NumberedUpTo(startWith, i - 1) <= taken
      invariant FreeNumber(startWith, taken, i) == FreeNumber(startWith, taken, 1)
      decreases |taken| + 1 - i
    {
      NumberedUpToSize(startWith, i);
      StringSubsetSize(NumberedUpTo(startWith, i), taken);
      i := i + 1;
    }
    name := Numbered(startWith, i);
  }

  /** The entry and exit labels of a loop cannot clash: '_' is not a digit. */
  lemma LoopLabelsDiffer(current: seq<string>)
    ensures UnusedVariable("LOOP", current) != UnusedVariable("LOOP_EXIT", current)
  {
    var entry := UnusedVariable("LOOP", current);
    var exit := UnusedVariable("LOOP_EXIT", current);
    assert |exit| >= 9 && exit[4] == '_';
    if "LOOP" in current {
      var i :| 1 <= i && entry == Numbered("LOOP", i);
      assert entry[4..] == NatToString(i);
      assert IsDigit(entry[4]);
    }
  }

  // ---------------------------------------------------------------------
  // Loop lowering

  function SetCmd(reg: Register, v: int): ProtoCommand
  {
    ICmd(Set, [], [Reg(reg), Int(v)], None)
  }

  /**
   * `_get_entry_exit_loop_cmds`: `set r start`, the entry label and
   * `beq r stop exit` before the body; `add r r step`, `jmp entry` and
   * the exit label after it.
   */
  function LoopCommands(start: int, stop: int, step: int, entry: string, exit: string, reg: Register): (r: (seq<ProtoCommand>, seq<ProtoCommand>))
    ensures |r.0| == 3 && |r.1| == 3
    ensures r.0[0] == SetCmd(reg, start) && r.0[1] == BranchLabel(entry, None)
    ensures r.0[2] == ICmd(Beq, [], [Reg(reg), Int(stop), Lbl(exit)], None)
    ensures r.1[0] == ICmd(Add, [], [Reg(reg), Reg(reg), Int(step)], None)
    ensures r.1[1] == ICmd(Jmp, [], [Lbl(entry)], None) && r.1[2] == BranchLabel(exit, None)
  {
    ([SetCmd(reg, start), BranchLabel(entry, None), ICmd(Beq, [], [Reg(reg), Int(stop), Lbl(exit)], None)],
     [ICmd(Add, [], [Reg(reg), Reg(reg), Int(step)], None), ICmd(Jmp, [], [Lbl(entry)], None), BranchLabel(exit, None)])
  }

  /** The line number a command is given when it is added without one. */
  function WithLine(c: ProtoCommand, line: Option<nat>): (c': ProtoCommand)
    ensures c'.lineno == (if c.lineno.Some? then c.lineno else line)
  {
    match c
    case ICmd(i, a, o, l) => ICmd(i, a, o, if l.Some? then l else line)
    case BranchLabel(n, l) => BranchLabel(n, if l.Some? then l else line)
  }

  function WithLines(cs: seq<ProtoCommand>, line: Option<nat>): (r: seq<ProtoCommand>)
    ensures |r| == |cs|
  {
    seq(|cs|, k requires 0 <= k < |cs| => WithLine(cs[k], line))
  }

  /** Filling in line numbers twice with the same line changes nothing the second time. */
  lemma WithLinesTwice(cs: seq<ProtoCommand>, line: Option<nat>)
    ensures WithLines(WithLines(cs, line), line) == WithLines(cs, line)
  {
  }

  /**
   * The entry and exit labels `_get_loop_commands` takes: both are looked
   * up among the labels used before either is recorded. They are new and
   * they differ from each other.
   */
  function LoopLabels(used: seq<string>): (l: (string, string))
    ensures l.0 !in used && l.1 !in used && l.0 != l.1
  {
    LoopLabelsDiffer(used);
    (UnusedVariable("LOOP", used), UnusedVariable("LOOP_EXIT", used))
  }

  /**
   * What `_add_loop_commands` adds: the preceding commands alone when the
   * body is empty, otherwise the preceding commands followed by the body
   * wrapped in the loop commands.
   */
  function LoweredLoop(pre: seq<ProtoCommand>, body: seq<ProtoCommand>, start: int, stop: int, step: int, reg: Register, used: seq<string>): seq<ProtoCommand>
  {
    if |body| == 0 then pre
    else
      var l := LoopLabels(used);
      var c := LoopCommands(start, stop, step, l.0, l.1, reg);
      pre + c.0 + body + c.1
  }

  /** The labels a lowered loop records: none for an empty body, otherwise its entry and exit labels. */
  function LoopLabelsTaken(body: seq<ProtoCommand>, used: seq<string>): seq<string>
  {
    if |body| == 0 then [] else [LoopLabels(used).0, LoopLabels(used).1]
  }

  /**
   * The register a loop counts in: the lowest inactive R register when
   * none is given (RuntimeError when all are active), otherwise the given
   * one, which must not be active (ValueError).
   */
  function ChosenLoopRegister(loopRegister: Option<Register>, active: set<Register>): (r: Result<Register>)
    ensures r.Ok? ==> r.value !in active
    ensures loopRegister.Some? ==> (r.Ok? <==> loopRegister.value !in active) && (r.Ok? ==> r.value == loopRegister.value)
    ensures loopRegister.None? ==> (r.Ok? <==> exists i :: 0 <= i < REG_COUNT && RegR(i) !in active)
    ensures loopRegister.None? && r.Ok? ==> r.value.name == R && forall i :: 0 <= i < r.value.index ==> RegR(i) in active
    ensures r.Err? ==> r.error == Raise(if loopRegister.Some? then ValueError else RuntimeError)
  {
    match loopRegister
    case None =>
      var l := LowestInactive(active);
      if l.Some? then Ok(l.value) else Fail(RuntimeError)
    case Some(reg) =>
      if reg in active then Fail(ValueError) else Ok(reg)
  }


  // ---------------------------------------------------------------------
  // If lowering

  /**
   * An operand of an if-statement: a `Future` (an array entry whose index
   * is a constant or a register), a `RegFuture` with its register, if it
   * has one yet, a Python int, or the None that `if_ez` and `if_nz` pass
   * for the missing second operand.
   */
  datatype CValue =
    | FutureValue(address: int, index: Index)
    | RegFutureValue(reg: Option<Register>)
    | IntValue(value: int)
    | NoValue

  /**
   * The first loop of `_get_branch_commands`, operand by operand: the
   * LOAD commands, the operands of the branch instruction and the active
   * registers, which gain the lowest inactive register for each future
   * operand. The registers activated before an error stay active.
   */
  function CondValues(xs: seq<CValue>, active: set<Register>): (r: (Result<(seq<ProtoCommand>, seq<Operand>)>, set<Register>))
    ensures active <= r.1
    ensures r.0.Ok? ==> |r.0.value.1| == |xs|
    ensures r.0.Ok? ==> forall k :: 0 <= k < |xs| ==> !xs[k].NoValue? && !(xs[k].RegFutureValue? && xs[k].reg.None?)
    ensures (exists k :: 0 <= k < |xs| && xs[k].NoValue?) ==> r.0.Err?
    decreases |xs|
  {
    if xs == [] then (Ok(([], [])), active)
    else
      var init := CondValues(xs[..|xs| - 1], active);
      if init.0.Err? then init
      else
        var loads := init.0.value.0;
        var vals := init.0.value.1;
        var act := init.1;
        match xs[|xs| - 1]
        case FutureValue(address, index) =>
          var l := LowestInactive(act);
          if l.None? then (Fail(RuntimeError), act)
          else (Ok((loads + [Access(Load, l.value, address, index)], vals + [Reg(l.value)])), act + {l.value})
        case RegFutureValue(reg) =>
          if reg.None? then (Fail(AssertionError), act) else (Ok((loads, vals + [Reg(reg.value)])), act)
        case IntValue(v) => (Ok((loads, vals + [Int(v)])), act)
        case NoValue => (Fail(TypeError), act)
  }

  /**
   * The second loop of `_get_branch_commands`: every register operand
   * outside the M bank is taken out of the active registers, with a
   * KeyError for one that is not active.
   */
  function ReleaseTemporaries(vals: seq<Operand>, active: set<Register>): (r: (Result<Unit>, set<Register>))
    ensures r.1 <= active
    ensures r.0.Ok? ==> forall k :: 0 <= k < |vals| && vals[k].Reg? && vals[k].reg.name != M ==> vals[k].reg !in r.1
    decreases |vals|
  {
    if vals == [] then (Ok(Unit), active)
    else
      var init := ReleaseTemporaries(vals[..|vals| - 1], active);
      if init.0.Err? then init
      else
        var v := vals[|vals| - 1];
        if v.Reg? && v.reg.name != M then
          (if v.reg in init.1 then (Ok(Unit), init.1 - {v.reg}) else (Fail(KeyError), init.1))
        else init
  }

  /**
   * The commands before an if's body: the loads of its future operands
   * and the branch to the exit label, with the active registers afterwards.
   */
  function IfStart(branch: GenericInstr, xs: seq<CValue>, exit: string, active: set<Register>): (r: (Result<seq<ProtoCommand>>, set<Register>))
  {
    var c := CondValues(xs, active);
    if c.0.Err? then (Err(c.0.error), c.1)
    else
      var rel := ReleaseTemporaries(c.0.value.1, c.1);
      if rel.0.Err? then (Err(rel.0.error), rel.1)
      else (Ok(c.0.value.0 + [ICmd(branch, [], c.0.value.1 + [Lbl(exit)], None)]), rel.1)
  }

  /** Once the loop over the operands has failed, the later operands change nothing. */
  lemma {:induction false} CondValuesStopsAtError(xs: seq<CValue>, i: nat, active: set<Register>)
    requires i <= |xs| && CondValues(xs[..i], active).0.Err?
    ensures CondValues(xs, active) == CondValues(xs[..i], active)
    decreases |xs| - i
  {
    if i < |xs| {
      assert xs[..i + 1][..i] == xs[..i];
      CondValuesStopsAtError(xs, i + 1, active);
    } else {
      assert xs[..i] == xs;
    }
  }

  lemma {:induction false} ReleaseStopsAtError(vals: seq<Operand>, i: nat, active: set<Register>)
    requires i <= |vals| && ReleaseTemporaries(vals[..i], active).0.Err?
    ensures ReleaseTemporaries(vals, active) == ReleaseTemporaries(vals[..i], active)
    decreases |vals| - i
  {
    if i < |vals| {
      assert vals[..i + 1][..i] == vals[..i];
      ReleaseStopsAtError(vals, i + 1, active);
    } else {
      assert vals[..i] == vals;
    }
  }

  /** The registers among branch operands that `_get_branch_commands` treats as temporary. */
  function Temporaries(vals: seq<Operand>): (t: set<Register>)
    ensures forall r :: r in t ==> r.name != M
    decreases |vals|
  {
    if vals == [] then {}
    else
      var v := vals[|vals| - 1];
      Temporaries(vals[..|vals| - 1]) + if v.Reg? && v.reg.name != M then {v.reg} else {}
  }

  /** No temporary register occurs twice. */
  predicate TemporariesDistinct(vals: seq<Operand>)
    decreases |vals|
  {
    vals == [] ||
      (var v := vals[|vals| - 1];
       TemporariesDistinct(vals[..|vals| - 1]) && (v.Reg? && v.reg.name != M ==> v.reg !in Temporaries(vals[..|vals| - 1])))
  }

  /** A register future whose register is not a measurement register. */
  predicate HoldsTemporary(x: CValue)
  {
    x.RegFutureValue? && x.reg.Some? && x.reg.value.name != M
  }

  /**
   * Without register futures on non-M registers, the temporaries are the
   * registers the loads took: new to the active set and all different.
   */
  lemma {:induction false} CondValuesTemporaries(xs: seq<CValue>, active: set<Register>)
    requires forall k :: 0 <= k < |xs| ==> !HoldsTemporary(xs[k])
    requires CondValues(xs, active).0.Ok?
    ensures var c := CondValues(xs, active);
      c.1 == active + Temporaries(c.0.value.1) && active !! Temporaries(c.0.value.1) && TemporariesDistinct(c.0.value.1)
    decreases |xs|
  {
    if xs != [] {
      var init := xs[..|xs| - 1];
      CondValuesTemporaries(init, active);
      var c0 := CondValues(init, active);
      var vals := c0.0.value.1;
      var c := CondValues(xs, active);
      var v := c.0.value.1[|c.0.value.1| - 1];
      assert c.0.value.1 == vals + [v];
      assert c.0.value.1[..|vals|] == vals;
    }
  }

  /** Releasing temporaries that were all added to a set takes them out again. */
  lemma {:induction false} ReleaseRestores(vals: seq<Operand>, active: set<Register>)
    requires active !! Temporaries(vals) && TemporariesDistinct(vals)
    ensures ReleaseTemporaries(vals, active + Temporaries(vals)) == (Ok(Unit), active)
    decreases |vals|
  {
    if vals != [] {
      var init := vals[..|vals| - 1];
      var v := vals[|vals| - 1];
      var all := active + Temporaries(vals);
      if v.Reg? && v.reg.name != M {
        assert Temporaries(vals) == Temporaries(init) + {v.reg};
        ReleaseRestores(init, active + {v.reg});
        assert all == active + {v.reg} + Temporaries(init);
        assert ReleaseTemporaries(init, all) == (Ok(Unit), active + {v.reg});
        assert active + {v.reg} - {v.reg} == active;
        assert ReleaseTemporaries(vals, all) == (Ok(Unit), active);
      } else {
        assert Temporaries(vals) == Temporaries(init);
        ReleaseRestores(init, active);
        assert ReleaseTemporaries(init, all) == (Ok(Unit), active);
        assert ReleaseTemporaries(vals, all) == (Ok(Unit), active);
      }
    } else {
      assert active + Temporaries(vals) == active;
    }
  }

  /**
   * The temporary registers of an if-statement are inactive again after
   * it, so the active registers are what they were, unless a register
   * future on a non-measurement register is an operand.
   */
  lemma IfStartRestoresRegisters(branch: GenericInstr, xs: seq<CValue>, exit: string, active: set<Register>)
    requires forall k :: 0 <= k < |xs| ==> !HoldsTemporary(xs[k])
    requires CondValues(xs, active).0.Ok?
    ensures IfStart(branch, xs, exit, active).0.Ok? && IfStart(branch, xs, exit, active).1 == active
  {
    CondValuesTemporaries(xs, active);
    ReleaseRestores(CondValues(xs, active).0.value.1, active);
  }

  /**
   * A register future on an R register (the kind `new_register` gives)
   * is treated as a temporary: after an if on it, the register is no
   * longer active, although the future still names it.
   */
  lemma IfStartDeactivatesRegisterFuture(branch: GenericInstr, xs: seq<CValue>, exit: string, active: set<Register>, k: nat)
    requires k < |xs| && HoldsTemporary(xs[k])
    requires IfStart(branch, xs, exit, active).0.Ok?
    ensures xs[k].reg.value !in IfStart(branch, xs, exit, active).1
  {
    var c := CondValues(xs, active);
    assert c.0.Ok?;
    CondValuesOperand(xs, k, active);
  }

  /** Each operand that succeeded contributes its own operand to the branch. */
  lemma {:induction false} CondValuesOperand(xs: seq<CValue>, k: nat, active: set<Register>)
    requires k < |xs| && CondValues(xs, active).0.Ok?
    ensures var vals := CondValues(xs, active).0.value.1;
      (xs[k].RegFutureValue? ==> vals[k] == Reg(xs[k].reg.value)) &&
      (xs[k].IntValue? ==> vals[k] == Int(xs[k].value)) &&
      (xs[k].FutureValue? ==> vals[k].Reg? && vals[k].reg.name == R)
    decreases |xs|
  {
    var init := xs[..|xs| - 1];
    if k < |xs| - 1 {
      CondValuesOperand(init, k, active);
    }
  }

  /** bez and bnz test one value; the other branches compare two. */
  predicate IsUnaryBranch(g: GenericInstr)
  {
    g.Bez? || g.Bnz?
  }

  /**
   * The operands `_get_branch_commands` loops over as written: always
   * both, so the None that `if_ez` and `if_nz` pass reaches the TypeError.
   */
  function BranchOperandsAsWritten(branch: GenericInstr, a: CValue, b: CValue): seq<CValue>
  {
    [a, b]
  }

  /** The operands the branch instruction takes: only the first for bez and bnz. */
  function BranchOperands(branch: GenericInstr, a: CValue, b: CValue): (xs: seq<CValue>)
    ensures |xs| == if IsUnaryBranch(branch) then 1 else 2
  {
    if IsUnaryBranch(branch) then [a] else [a, b]
  }

  /**
   * `if_ez` and `if_nz` as written: whatever the first operand, the
   * commands before the body cannot be built, because the loop reaches
   * the None second operand.
   */
  lemma IfZeroAsWrittenFails(branch: GenericInstr, a: CValue, exit: string, active: set<Register>)
    ensures IfStart(branch, BranchOperandsAsWritten(branch, a, NoValue), exit, active).0.Err?
  {
    var xs := BranchOperandsAsWritten(branch, a, NoValue);
    assert xs[1].NoValue?;
  }

  /**
   * With the operands of the intended form, `if_ez` and `if_nz` on a
   * value the branch can test give one branch instruction on that value
   * and the exit label.
   */
  lemma IfZeroBranches(branch: GenericInstr, a: CValue, exit: string, active: set<Register>)
    requires IsUnaryBranch(branch) && (a.IntValue? || (a.RegFutureValue? && a.reg.Some? && a.reg.value.name == M))
    ensures IfStart(branch, BranchOperands(branch, a, NoValue), exit, active) ==
      (Ok([ICmd(branch, [], [if a.IntValue? then Int(a.value) else Reg(a.reg.value), Lbl(exit)], None)]), active)
  {
    var xs := BranchOperands(branch, a, NoValue);
    var v := if a.IntValue? then Int(a.value) else Reg(a.reg.value);
    assert xs == [a] && xs[..0] == [];
    var none: seq<ProtoCommand> := [];
    var vals: seq<Operand> := [];
    assert CondValues(xs, active) == (Ok((none, vals + [v])), active);
    assert [v][..0] == [];
    assert vals + [v] == [v];
    assert ReleaseTemporaries([v], active) == (Ok(Unit), active);
    var branchCmd := ICmd(branch, [], [v] + [Lbl(exit)], None);
    assert none + [branchCmd] == [branchCmd];
    assert [v] + [Lbl(exit)] == [v, Lbl(exit)];
    assert IfStart(branch, xs, exit, active) == (Ok([branchCmd]), active);
  }

  /**
   * Whether a branch instruction jumps, as the executor decides it on
   * the values of its operands (None for a register with no value).
   */
  function Jumps(g: GenericInstr, vals: seq<Option<int>>): Result<bool>
    requires IsBranch(g) && |vals| == if IsUnaryBranch(g) then 1 else 2
  {
    if g.Bez? then Ok(Vm.UnaryHolds(Vm.IfZero, vals[0]))
    else if g.Bnz? then Ok(Vm.UnaryHolds(Vm.IfNonZero, vals[0]))
    else Vm.BinaryHolds(if g.Beq? then Vm.CmpEq else if g.Bne? then Vm.CmpNe else if g.Blt? then Vm.CmpLt else Vm.CmpGe, vals[0], vals[1])
  }

  /**
   * The branch an if-statement is lowered to jumps past the body exactly
   * when the condition does not hold, so the body runs exactly when it
   * holds; the two fail on the same values.
   */
  lemma FlippedBranchSkipsBody(condition: GenericInstr, vals: seq<Option<int>>)
    requires IsBranch(condition) && |vals| == if IsUnaryBranch(condition) then 1 else 2
    ensures FlipBranch(condition).Ok?
    ensures var flip := FlipBranch(condition).value;
      IsBranch(flip) && IsUnaryBranch(flip) == IsUnaryBranch(condition) &&
      var j := Jumps(flip, vals); var h := Jumps(condition, vals);
      (j.Ok? <==> h.Ok?) && (h.Ok? ==> j.value == !h.value)
  {
  }

  /**
   * What `_add_if_statement_commands` adds, with the active registers
   * afterwards: the preceding commands alone for an empty body; otherwise
   * the preceding commands, the loads and the flipped branch to a fresh
   * exit label, the body and that label. A condition that is no branch
   * raises ValueError.
   */
  function LoweredIf(pre: seq<ProtoCommand>, body: seq<ProtoCommand>, condition: GenericInstr, a: CValue, b: CValue, used: seq<string>, active: set<Register>): (r: (Result<seq<ProtoCommand>>, set<Register>))
    ensures |body| == 0 ==> r == (Ok(pre), active)
    ensures |body| > 0 && !IsBranch(condition) ==> r == (Fail(ValueError), active)
  {
    if |body| == 0 then (Ok(pre), active)
    else
      var flip := FlipBranch(condition);
      if flip.Err? then (Err(flip.error), active)
      else
        var exit := UnusedVariable("IF_EXIT", used);
        var start := IfStart(flip.value, BranchOperands(flip.value, a, b), exit, active);
        if start.0.Err? then (Err(start.0.error), start.1)
        else (Ok(pre + start.0.value + body + [BranchLabel(exit, None)]), start.1)
  }

  /** The labels a lowered if records: its exit label, unless the body is empty or the condition no branch. */
  function IfLabelsTaken(bodySize: nat, condition: GenericInstr, used: seq<string>): seq<string>
  {
    if bodySize == 0 || !IsBranch(condition) then [] else [UnusedVariable("IF_EXIT", used)]
  }

  /**
   * The shape of a lowered if on two int operands: the flipped branch is
   * the only command between the preceding commands and the body, and it
   * jumps to the fresh exit label after the body. With
   * `FlippedBranchSkipsBody`, the body runs exactly when the condition holds.
   */
  lemma IfOnValues(pre: seq<ProtoCommand>, body: seq<ProtoCommand>, condition: GenericInstr, x: int, y: int, used: seq<string>, active: set<Register>)
    requires |body| > 0 && IsBranch(condition) && !IsUnaryBranch(condition)
    ensures var exit := UnusedVariable("IF_EXIT", used);
      exit !in used &&
      LoweredIf(pre, body, condition, IntValue(x), IntValue(y), used, active) ==
        (Ok(pre + [ICmd(FlipBranch(condition).value, [], [Int(x), Int(y), Lbl(exit)], None)] + body + [BranchLabel(exit, None)]), active)
  {
    var flip := FlipBranch(condition).value;
    var exit := UnusedVariable("IF_EXIT", used);
    var xs := BranchOperands(flip, IntValue(x), IntValue(y));
    assert xs == [IntValue(x), IntValue(y)];
    assert xs[..1] == [IntValue(x)] && xs[..1][..0] == [];
    var none: seq<ProtoCommand> := [];
    var vals: seq<Operand> := [];
    assert CondValues(xs[..1], active) == (Ok((none, vals + [Int(x)])), active);
    assert vals + [Int(x)] == [Int(x)];
    assert CondValues(xs, active) == (Ok((none, [Int(x)] + [Int(y)])), active);
    var ops := [Int(x), Int(y)];
    assert [Int(x)] + [Int(y)] == ops;
    assert ops[..1] == [Int(x)] && ops[..1][..0] == [];
    assert ReleaseTemporaries(ops[..1], active) == (Ok(Unit), active);
    assert ReleaseTemporaries(ops, active) == (Ok(Unit), active);
    assert ops + [Lbl(exit)] == [Int(x), Int(y), Lbl(exit)];
    var branchCmd := ICmd(flip, [], [Int(x), Int(y), Lbl(exit)], None);
    assert none + [branchCmd] == [branchCmd];
  }

  // ---------------------------------------------------------------------
  // Flushing: array set-up and return commands

  /** `STORE value @address[index]`. */
  function StoreCmd(value: int, address: int, index: Index, lineno: Option<nat>): ProtoCommand
  {
    ICmd(Store, [], [Int(value), Entry(ArrayEntry(Address(address), index))], lineno)
  }

  /** `ARRAY length @address`, on the array's own line. */
  function ArrayDeclCmd(a: SdkArray): ProtoCommand
  {
    ICmd(Array, [], [Int(a.length), Addr(Address(a.address))], a.lineno)
  }

  /** `RET_ARR @address`, on the array's own line. */
  function RetArrCmd(a: SdkArray): ProtoCommand
  {
    ICmd(RetArr, [], [Addr(Address(a.address))], a.lineno)
  }

  /** Initial values filled in by a loop: more than one, all equal (None included). */
  predicate Uniform(vs: seq<Option<int>>)
  {
    |vs| > 1 && forall k :: 0 <= k < |vs| ==> vs[k] == vs[0]
  }

  /** One STORE per initial value that is not None, at that value's index (counted from `from`). */
  function StoreEach(vs: seq<Option<int>>, address: int, lineno: Option<nat>, from: nat): (cs: seq<ProtoCommand>)
    decreases |vs|
  {
    if vs == [] then []
    else (if vs[0].Some? then [StoreCmd(vs[0].value, address, IInt(from), lineno)] else []) + StoreEach(vs[1..], address, lineno, from + 1)
  }

  /** Every STORE is that of a value that is not None, at the value's own index. */
  lemma {:induction false} StoreEachSound(vs: seq<Option<int>>, address: int, lineno: Option<nat>, from: nat, c: ProtoCommand)
    requires c in StoreEach(vs, address, lineno, from)
    ensures exists i :: 0 <= i < |vs| && vs[i].Some? && c == StoreCmd(vs[i].value, address, IInt(from + i), lineno)
    decreases |vs|
  {
    if vs[0].Some? && c == StoreCmd(vs[0].value, address, IInt(from), lineno) {
      assert vs[0].Some? && c == StoreCmd(vs[0].value, address, IInt(from + 0), lineno);
    } else {
      StoreEachSound(vs[1..], address, lineno, from + 1, c);
      var i :| 0 <= i < |vs[1..]| && vs[1..][i].Some? && c == StoreCmd(vs[1..][i].value, address, IInt(from + 1 + i), lineno);
      assert vs[i + 1] == vs[1..][i];
    }
  }

  /** Every value that is not None has its STORE. */
  lemma {:induction false} StoreEachComplete(vs: seq<Option<int>>, address: int, lineno: Option<nat>, from: nat, i: nat)
    requires i < |vs| && vs[i].Some?
    ensures StoreCmd(vs[i].value, address, IInt(from + i), lineno) in StoreEach(vs, address, lineno, from)
    decreases |vs|
  {
    if i > 0 {
      assert vs[1..][i - 1] == vs[i];
      StoreEachComplete(vs[1..], address, lineno, from + 1, i - 1);
    }
  }

  /** Extending the values by one extends the STOREs by that value's STORE, if it is not None. */
  lemma {:induction false} StoreEachSnoc(vs: seq<Option<int>>, address: int, lineno: Option<nat>, from: nat, v: Option<int>)
    ensures StoreEach(vs + [v], address, lineno, from) ==
      StoreEach(vs, address, lineno, from) + (if v.Some? then [StoreCmd(v.value, address, IInt(from + |vs|), lineno)] else [])
    decreases |vs|
  {
    if vs == [] {
      assert [v][1..] == [];
    } else {
      assert (vs + [v])[1..] == vs[1..] + [v];
      StoreEachSnoc(vs[1..], address, lineno, from + 1, v);
    }
  }

  /**
   * The commands `_get_array_commands` adds to fill one array, and the
   * labels they record: nothing without initial values; for more than
   * one equal value a loop over the lowest inactive register storing the
   * value at each index; otherwise one STORE per value that is not None.
   * A loop storing None is refused here with TypeError (see README).
   */
  function ArrayInit(a: SdkArray, used: seq<string>, active: set<Register>, line: Option<nat>): (r: Result<(seq<ProtoCommand>, seq<string>)>)
    ensures r.Err? ==> a.initValues.Some? && Uniform(a.initValues.value)
    ensures r.Ok? && !(a.initValues.Some? && Uniform(a.initValues.value)) ==> r.value.1 == []
  {
    if a.initValues.None? then Ok(([], []))
    else
      var vs := a.initValues.value;
      if Uniform(vs) then
        var reg := LowestInactive(active);
        if reg.None? then Fail(RuntimeError)
        else if vs[0].None? then Fail(TypeError)
        else
          var body := WithLines([StoreCmd(vs[0].value, a.address, IReg(reg.value), a.lineno)], line);
          Ok((WithLines(LoweredLoop([], body, 0, |vs|, 1, reg.value, used), line), LoopLabelsTaken(body, used)))
      else Ok((StoreEach(vs, a.address, a.lineno, 0), []))
  }

  /**
   * `_get_array_commands` over the arrays in order: per array its ARRAY
   * command and filling commands in the first list and, when arrays are
   * returned, its RET_ARR in the second; the labels recorded come third.
   */
  function ArrayCommands(arrays: seq<SdkArray>, returnArrays: bool, used: seq<string>, active: set<Register>, line: Option<nat>): (r: Result<(seq<ProtoCommand>, seq<ProtoCommand>, seq<string>)>)
    ensures r.Ok? ==> |r.value.1| == (if returnArrays then |arrays| else 0)
    ensures r.Ok? ==> |r.value.0| >= |arrays|
    decreases |arrays|
  {
    if arrays == [] then Ok(([], [], []))
    else
      var prev :- ArrayCommands(arrays[..|arrays| - 1], returnArrays, used, active, line);
      var a := arrays[|arrays| - 1];
      var fill :- ArrayInit(a, used + prev.2, active, line);
      Ok((prev.0 + [ArrayDeclCmd(a)] + fill.0, prev.1 + (if returnArrays then [RetArrCmd(a)] else []), prev.2 + fill.1))
  }

  /** Once an array's commands fail, the later arrays change nothing. */
  /** Every array is declared, and with `returnArrays` returned in order, when the set-up succeeds. */
  lemma {:induction false} ArrayCommandsDeclareAll(arrays: seq<SdkArray>, returnArrays: bool, used: seq<string>, active: set<Register>, line: Option<nat>)
    requires ArrayCommands(arrays, returnArrays, used, active, line).Ok?
    ensures var c := ArrayCommands(arrays, returnArrays, used, active, line).value;
      (forall k :: 0 <= k < |arrays| ==> ArrayDeclCmd(arrays[k]) in c.0) &&
      (returnArrays ==> forall k :: 0 <= k < |arrays| ==> c.1[k] == RetArrCmd(arrays[k]))
    decreases |arrays|
  {
    if arrays != [] {
      var front := arrays[..|arrays| - 1];
      ArrayCommandsDeclareAll(front, returnArrays, used, active, line);
      var prev := ArrayCommands(front, returnArrays, used, active, line).value;
      var c := ArrayCommands(arrays, returnArrays, used, active, line).value;
      var fill := ArrayInit(arrays[|arrays| - 1], used + prev.2, active, line).value;
      assert c.0 == prev.0 + [ArrayDeclCmd(arrays[|arrays| - 1])] + fill.0;
      forall k | 0 <= k < |arrays|
        ensures ArrayDeclCmd(arrays[k]) in c.0
      {
        if k < |arrays| - 1 {
          assert arrays[k] == front[k];
        }
      }
    }
  }

  lemma {:induction false} ArrayCommandsStopAtError(arrays: seq<SdkArray>, i: nat, returnArrays: bool, used: seq<string>, active: set<Register>, line: Option<nat>)
    requires i <= |arrays| && ArrayCommands(arrays[..i], returnArrays, used, active, line).Err?
    ensures ArrayCommands(arrays, returnArrays, used, active, line) == ArrayCommands(arrays[..i], returnArrays, used, active, line)
    decreases |arrays| - i
  {
    if i < |arrays| {
      assert arrays[..i + 1][..i] == arrays[..i];
      ArrayCommandsStopAtError(arrays, i + 1, returnArrays, used, active, line);
    } else {
      assert arrays[..i] == arrays;
    }
  }

  /** One more array extends the commands by its own, or fails with its own error. */
  lemma ArrayCommandsSnoc(arrays: seq<SdkArray>, i: nat, returnArrays: bool, used: seq<string>, active: set<Register>, line: Option<nat>,
                          init: seq<ProtoCommand>, ret: seq<ProtoCommand>, labels: seq<string>)
    requires i < |arrays| && ArrayCommands(arrays[..i], returnArrays, used, active, line) == Ok((init, ret, labels))
    ensures var fill := ArrayInit(arrays[i], used + labels, active, line);
      ArrayCommands(arrays[..i + 1], returnArrays, used, active, line) ==
        if fill.Err? then Err(fill.error)
        else Ok((init + [ArrayDeclCmd(arrays[i])] + fill.value.0, ret + (if returnArrays then [RetArrCmd(arrays[i])] else []), labels + fill.value.1))
  {
    assert arrays[..i + 1][..i] == arrays[..i];
  }

  /** `RET_REG reg` for each register to return, in order. */
  function RetRegCommands(regs: seq<Register>): (cs: seq<ProtoCommand>)
    ensures |cs| == |regs|
    ensures forall k :: 0 <= k < |regs| ==> cs[k] == ICmd(RetReg, [], [Reg(regs[k])], None)
  {
    seq(|regs|, k requires 0 <= k < |regs| => ICmd(RetReg, [], [Reg(regs[k])], None))
  }

  // ---------------------------------------------------------------------
  // Entanglement requests

  /**
   * `_assert_epr_args`: sequential mode with more than one pair needs a
   * post routine, and a non-sequential K request cannot ask for more
   * pairs than the application has qubits.
   */
  function AssertEprArgs(number: int, hasPostRoutine: bool, sequential: bool, tp: EprType, maxQubits: int): (r: Result<Unit>)
    ensures r.Ok? <==> (sequential && number > 1 ==> hasPostRoutine) && (tp.EprK? && !sequential ==> number <= maxQubits)
    ensures r.Err? ==> r.error == Raise(ValueError)
  {
    if sequential && number > 1 && !hasPostRoutine then Fail(ValueError)
    else if tp.EprK? && !sequential && number > maxQubits then Fail(ValueError)
    else Ok(Unit)
  }

  /** The number of results-array entries per pair: OK_FIELDS_K for K, OK_FIELDS_M for M and R. */
  function ResultsPerPair(tp: EprType): (n: nat)
    ensures n == if tp.EprK? then OK_FIELDS_K else OK_FIELDS_M
  {
    match tp
    case EprK => OK_FIELDS_K
    case EprM => OK_FIELDS_M
    case EprR => OK_FIELDS_M
  }

  // ---------------------------------------------------------------------
  // Qubit commands

  /** `_get_set_qubit_reg_commands` for a qubit id: `set Q{i} id`. */
  function SetQubitRegCommands(qubitId: int, regIndex: nat): (r: (Register, seq<ProtoCommand>))
    ensures r.0 == Register(Q, regIndex) && r.1 == [SetCmd(r.0, qubitId)]
  {
    (Register(Q, regIndex), [SetCmd(Register(Q, regIndex), qubitId)])
  }

  /** `instr Q0 n d` after `set Q0 id`; ValueError unless n and d are non-negative. */
  function RotationCommands(instr: GenericInstr, qubitId: int, n: int, d: int): (r: Result<seq<ProtoCommand>>)
    ensures r.Ok? <==> n >= 0 && d >= 0
    ensures r.Err? ==> r.error == Raise(ValueError)
    ensures r.Ok? ==> r.value == [SetCmd(Register(Q, 0), qubitId), ICmd(instr, [], [Reg(Register(Q, 0)), Int(n), Int(d)], None)]
  {
    if !(n >= 0 && d >= 0) then Fail(ValueError)
    else
      var q := SetQubitRegCommands(qubitId, 0);
      Ok(q.1 + [ICmd(instr, [], [Reg(q.0), Int(n), Int(d)], None)])
  }

  /** Where a measurement outcome goes: an array entry (a `Future`) or a `RegFuture`. */
  datatype OutcomeTarget = ToEntry(address: int, index: Index) | ToRegFuture

  // ---------------------------------------------------------------------
  // The builder

  class Builder {
    /** `_app_id`. */
    var appId: int
    /** NETQASM_VERSION, which the metadata of every subroutine carries. */
    const version: (int, int)
    /** `_max_qubits`. */
    const maxQubits: int
    /** `_return_arrays`. */
    const returnArrays: bool
    /** The line the line tracker reports for the host statement being built. */
    var line: Option<nat>
    /** The ids of `active_qubits`. */
    var activeQubitIds: seq<int>
    /** `_used_array_addresses`. */
    var usedArrayAddresses: seq<int>
    /** `_used_meas_registers`, as its list of items. */
    var usedMeasRegisters: MeasTable
    /** `_pending_commands`. */
    var pending: seq<ProtoCommand>
    /** `_active_registers`. */
    var activeRegisters: set<Register>
    /** `_arrays_to_return`. */
    var arraysToReturn: seq<SdkArray>
    /** `_registers_to_return`. */
    var registersToReturn: seq<Register>
    /** `_pre_context_commands`. */
    var preContext: map<int, seq<ProtoCommand>>
    /** `_used_branch_variables`. */
    var usedBranchVariables: seq<string>

    /**
     * The measurement table is a dictionary; array addresses start at 0
     * and increase; no branch label has been generated twice.
     */
    predicate Valid()
      reads this
    {
      KeysDistinct(usedMeasRegisters) && Distinct(usedBranchVariables) &&
      StrictlyIncreasing(usedArrayAddresses) && (usedArrayAddresses != [] ==> usedArrayAddresses[0] >= 0)
    }

    constructor (appId: int, maxQubits: int, returnArrays: bool, version: (int, int), line: Option<nat>)
      ensures Valid()
      ensures this.appId == appId && this.maxQubits == maxQubits && this.returnArrays == returnArrays
      ensures this.version == version && this.line == line
      ensures activeQubitIds == [] && usedArrayAddresses == [] && usedMeasRegisters == InitialMeasTable()
      ensures pending == [] && activeRegisters == {} && arraysToReturn == [] && registersToReturn == []
      ensures preContext == map[] && usedBranchVariables == []
    {
      this.appId := appId;
      this.version := version;
      this.maxQubits := maxQubits;
      this.returnArrays := returnArrays;
      this.line := line;
      activeQubitIds := [];
      usedArrayAddresses := [];
      usedMeasRegisters := InitialMeasTable();
      pending := [];
      activeRegisters := {};
      arraysToReturn := [];
      registersToReturn := [];
      preContext := map[];
      usedBranchVariables := [];
    }

    // -- allocators

    /**
     * `new_qubit_id` / `_get_new_qubit_address`: counts up from 0 to the
     * first id no active qubit holds.
     */
    method NewQubitId() returns (a: nat)
      ensures a == SmallestNotIn(activeQubitIds) && a !in activeQubitIds
      ensures forall q :: 0 <= q < a ==> q in activeQubitIds
    {
      var ids := activeQubitIds;
      a := 0;
      while a in ids
        invariant forall q :: 0 <= q < a ==> q in ids
        decreases |ids| - a
      {
        ListHoldsBelow(ids, a + 1);
        a := a + 1;
      }
      SmallestNotInUnique(ids, a);
    }

    /** `_get_new_array_address`: one past the last address, or 0; recorded as used. */
    method GetNewArrayAddress() returns (a: int)
      requires Valid()
      modifies this`usedArrayAddresses
      ensures Valid()
      ensures a == NextArrayAddress(old(usedArrayAddresses)) && a >= 0 && a !in old(usedArrayAddresses)
      ensures usedArrayAddresses == old(usedArrayAddresses) + [a]
    {
      NextArrayAddressFresh(usedArrayAddresses);
      if |usedArrayAddresses| > 0 {
        a := usedArrayAddresses[|usedArrayAddresses| - 1] + 1;
      } else {
        a := 0;
      }
      usedArrayAddresses := usedArrayAddresses + [a];
    }

    /**
     * `_get_new_meas_outcome_reg`: the first M register of the table not
     * in use, now marked used; RuntimeError when all are in use.
     */
    method GetNewMeasOutcomeReg() returns (r: Result<Register>)
      requires Valid()
      modifies this`usedMeasRegisters
      ensures Valid()
      ensures var t := old(usedMeasRegisters); var k := FirstUnused(t);
        if k < |t| then r == Ok(t[k].0) && usedMeasRegisters == TakeMeas(t, 1)
        else r == Fail(RuntimeError) && usedMeasRegisters == t
    {
      var t := usedMeasRegisters;
      var k := 0;
      while k < |t|
        invariant k <= |t| && forall i :: 0 <= i < k ==> t[i].1
        decreases |t| - k
      {
        if !t[k].1 {
          var reg := t[k].0;
          KeyPosOfDistinct(t, k);
          usedMeasRegisters := MeasSet(t, reg, true);
          assert k == FirstUnused(t);
          return Ok(reg);
        }
        k := k + 1;
      }
      r := Fail(RuntimeError);
    }

    /** `_add_active_register`: ValueError if the register is already active. */
    method AddActiveRegister(reg: Register) returns (r: Result<Unit>)
      modifies this`activeRegisters
      ensures reg in old(activeRegisters) ==> r == Fail(ValueError) && activeRegisters == old(activeRegisters)
      ensures reg !in old(activeRegisters) ==> r == Ok(Unit) && activeRegisters == old(activeRegisters) + {reg}
    {
      if reg in activeRegisters {
        return Fail(ValueError);
      }
      activeRegisters := activeRegisters + {reg};
      r := Ok(Unit);
    }

    /** `_remove_active_register`: `set.remove`, a KeyError for an inactive register. */
    method RemoveActiveRegister(reg: Register) returns (r: Result<Unit>)
      modifies this`activeRegisters
      ensures reg !in old(activeRegisters) ==> r == Fail(KeyError) && activeRegisters == old(activeRegisters)
      ensures reg in old(activeRegisters) ==> r == Ok(Unit) && activeRegisters == old(activeRegisters) - {reg}
    {
      if reg !in activeRegisters {
        return Fail(KeyError);
      }
      activeRegisters := activeRegisters - {reg};
      r := Ok(Unit);
    }

    /**
     * `_get_inactive_register`: the lowest of R0 .. R15 not active, made
     * active when asked; RuntimeError when all sixteen are active.
     */
    method GetInactiveRegister(activate: bool) returns (r: Result<Register>)
      modifies this`activeRegisters
      ensures var l := LowestInactive(old(activeRegisters));
        if l.Some? then r == Ok(l.value) && activeRegisters == (if activate then old(activeRegisters) + {l.value} else old(activeRegisters))
        else r == Fail(RuntimeError) && activeRegisters == old(activeRegisters)
    {
      var i: nat := 0;
      while i < 16
        invariant i <= 16 && forall j :: 0 <= j < i ==> RegR(j) in activeRegisters
        invariant activeRegisters == old(activeRegisters)
        decreases 16 - i
      {
        var register := RegR(i);
        if register !in activeRegisters {
          LowestInactiveUnique(activeRegisters, i);
          if activate {
            var added := AddActiveRegister(register);
          }
          return Ok(register);
        }
        i := i + 1;
      }
      r := Fail(RuntimeError);
    }

    /**
     * `_reset`: forgets the arrays and registers to return, frees every
     * measurement register and drops the saved context commands. The
     * active registers, the array addresses and the branch labels stay.
     */
    method Reset()
      requires Valid()
      modifies this`arraysToReturn, this`registersToReturn, this`usedMeasRegisters, this`preContext
      ensures Valid()
      ensures arraysToReturn == [] && registersToReturn == [] && usedMeasRegisters == InitialMeasTable() && preContext == map[]
    {
      arraysToReturn := [];
      registersToReturn := [];
      usedMeasRegisters := InitialMeasTable();
      preContext := map[];
    }

    // -- pending commands

    /** `add_pending_commands`: each command without a line number gets the caller's line. */
    method AddPendingCommands(commands: seq<ProtoCommand>)
      modifies this`pending
      ensures pending == old(pending) + WithLines(commands, line)
    {
      pending := pending + WithLines(commands, line);
    }

    /** `_pop_pending_commands`: the pending list, which is left empty. */
    method PopPendingCommands() returns (commands: seq<ProtoCommand>)
      modifies this`pending
      ensures commands == old(pending) && pending == []
    {
      commands := pending;
      pending := [];
    }

    // -- ifs

    /** The first loop of `_get_branch_commands`, over the operands in order. */
    method GetCondValues(xs: seq<CValue>) returns (r: Result<(seq<ProtoCommand>, seq<Operand>)>)
      modifies this`activeRegisters
      ensures (r, activeRegisters) == CondValues(xs, old(activeRegisters))
    {
      var loads: seq<ProtoCommand> := [];
      var vals: seq<Operand> := [];
      var i := 0;
      while i < |xs|
        invariant 0 <= i <= |xs|
        invariant CondValues(xs[..i], old(activeRegisters)) == (Ok((loads, vals)), activeRegisters)
      {
        assert xs[..i + 1][..i] == xs[..i];
        match xs[i] {
          case FutureValue(address, index) =>
            var reg := GetInactiveRegister(true);
            if reg.Err? {
              CondValuesStopsAtError(xs, i + 1, old(activeRegisters));
              return Err(reg.error);
            }
            loads := loads + [Access(Load, reg.value, address, index)];
            vals := vals + [Reg(reg.value)];
          case RegFutureValue(reg) =>
            if reg.None? {
              CondValuesStopsAtError(xs, i + 1, old(activeRegisters));
              return Fail(AssertionError);
            }
            vals := vals + [Reg(reg.value)];
          case IntValue(v) =>
            vals := vals + [Int(v)];
          case NoValue =>
            CondValuesStopsAtError(xs, i + 1, old(activeRegisters));
            return Fail(TypeError);
        }
        i := i + 1;
      }
      assert xs[..i] == xs;
      r := Ok((loads, vals));
    }

    /** The second loop of `_get_branch_commands`: the temporary registers are deactivated. */
    method ReleaseTemporaryRegisters(vals: seq<Operand>) returns (r: Result<Unit>)
      modifies this`activeRegisters
      ensures (r, activeRegisters) == ReleaseTemporaries(vals, old(activeRegisters))
    {
      var i := 0;
      while i < |vals|
        invariant 0 <= i <= |vals|
        invariant ReleaseTemporaries(vals[..i], old(activeRegisters)) == (Ok(Unit), activeRegisters)
      {
        assert vals[..i + 1][..i] == vals[..i];
        var v := vals[i];
        if v.Reg? && v.reg.name != M {
          var removed := RemoveActiveRegister(v.reg);
          if removed.Err? {
            ReleaseStopsAtError(vals, i + 1, old(activeRegisters));
            return removed;
          }
        }
        i := i + 1;
      }
      assert vals[..i] == vals;
      r := Ok(Unit);
    }

    /**
     * `_get_branch_commands` over the given operands: a fresh IF_EXIT
     * label is recorded first, then the operands are loaded and the
     * temporaries released; the commands after the body are the label.
     */
    method GetBranchCommandsOver(branch: GenericInstr, xs: seq<CValue>) returns (r: Result<(seq<ProtoCommand>, seq<ProtoCommand>)>)
      requires Valid()
      modifies this`activeRegisters, this`usedBranchVariables
      ensures Valid()
      ensures var exit := UnusedVariable("IF_EXIT", old(usedBranchVariables));
        var start := IfStart(branch, xs, exit, old(activeRegisters));
        usedBranchVariables == old(usedBranchVariables) + [exit] && activeRegisters == start.1 &&
        r == if start.0.Ok? then Ok((start.0.value, [BranchLabel(exit, None)])) else Err(start.0.error)
    {
      var exit := FindUnusedVariable("IF_EXIT", usedBranchVariables);
      usedBranchVariables := usedBranchVariables + [exit];
      var c := GetCondValues(xs);
      if c.Err? {
        return Err(c.error);
      }
      var loads, vals := c.value.0, c.value.1;
      var branchCmd := ICmd(branch, [], vals + [Lbl(exit)], None);
      var released := ReleaseTemporaryRegisters(vals);
      if released.Err? {
        return Err(released.error);
      }
      r := Ok((loads + [branchCmd], [BranchLabel(exit, None)]));
    }

    /** `_get_branch_commands` as written: it loops over both operands, even the None of `if_ez` and `if_nz`. */
    method GetBranchCommandsAsWritten(branch: GenericInstr, a: CValue, b: CValue) returns (r: Result<(seq<ProtoCommand>, seq<ProtoCommand>)>)
      requires Valid()
      modifies this`activeRegisters, this`usedBranchVariables
      ensures Valid()
      ensures var exit := UnusedVariable("IF_EXIT", old(usedBranchVariables));
        var start := IfStart(branch, BranchOperandsAsWritten(branch, a, b), exit, old(activeRegisters));
        usedBranchVariables == old(usedBranchVariables) + [exit] && activeRegisters == start.1 &&
        r == if start.0.Ok? then Ok((start.0.value, [BranchLabel(exit, None)])) else Err(start.0.error)
      ensures b.NoValue? ==> r.Err?
    {
      r := GetBranchCommandsOver(branch, [a, b]);
      if b.NoValue? {
        IfZeroAsWrittenFails(branch, a, UnusedVariable("IF_EXIT", old(usedBranchVariables)), old(activeRegisters));
      }
    }

    /** `_get_branch_commands` with the operands the branch takes: one for bez and bnz, two otherwise. */
    method GetBranchCommands(branch: GenericInstr, a: CValue, b: CValue) returns (r: Result<(seq<ProtoCommand>, seq<ProtoCommand>)>)
      requires Valid()
      modifies this`activeRegisters, this`usedBranchVariables
      ensures Valid()
      ensures var exit := UnusedVariable("IF_EXIT", old(usedBranchVariables));
        var start := IfStart(branch, BranchOperands(branch, a, b), exit, old(activeRegisters));
        usedBranchVariables == old(usedBranchVariables) + [exit] && activeRegisters == start.1 &&
        r == if start.0.Ok? then Ok((start.0.value, [BranchLabel(exit, None)])) else Err(start.0.error)
    {
      r := GetBranchCommandsOver(branch, BranchOperands(branch, a, b));
    }

    /**
     * `_add_if_statement_commands`: the preceding commands, then for a
     * non-empty body the branch past it, the body and the exit label.
     */
    method AddIfStatementCommands(pre: seq<ProtoCommand>, body: seq<ProtoCommand>, condition: GenericInstr, a: CValue, b: CValue) returns (r: Result<Unit>)
      requires Valid()
      modifies this`activeRegisters, this`usedBranchVariables, this`pending
      ensures Valid()
      ensures var l := LoweredIf(pre, body, condition, a, b, old(usedBranchVariables), old(activeRegisters));
        activeRegisters == l.1 &&
        usedBranchVariables == old(usedBranchVariables) + IfLabelsTaken(|body|, condition, old(usedBranchVariables)) &&
        (l.0.Ok? ==> r == Ok(Unit) && pending == old(pending) + WithLines(l.0.value, line)) &&
        (l.0.Err? ==> r == Err(l.0.error) && pending == old(pending))
    {
      if |body| == 0 {
        AddPendingCommands(pre);
        return Ok(Unit);
      }
      var flip := FlipBranch(condition);
      if flip.Err? {
        return Err(flip.error);
      }
      var branch := GetBranchCommands(flip.value, a, b);
      if branch.Err? {
        return Err(branch.error);
      }
      var ifStart, ifEnd := branch.value.0, branch.value.1;
      AddPendingCommands(pre + ifStart + body + ifEnd);
      r := Ok(Unit);
    }

    /**
     * `_handle_if`, behind `if_eq`, `if_ne`, `if_lt`, `if_ge` (two
     * operands) and `if_ez`, `if_nz` (the second operand None): the
     * pending commands are set aside, the body is built, and the if is
     * added after the set-aside commands.
     */
    method HandleIf(condition: GenericInstr, a: CValue, b: CValue, body: seq<ProtoCommand>) returns (r: Result<Unit>)
      requires Valid()
      modifies this`activeRegisters, this`usedBranchVariables, this`pending
      ensures Valid()
      ensures var l := LoweredIf(old(pending), WithLines(body, line), condition, a, b, old(usedBranchVariables), old(activeRegisters));
        activeRegisters == l.1 &&
        usedBranchVariables == old(usedBranchVariables) + IfLabelsTaken(|body|, condition, old(usedBranchVariables)) &&
        (l.0.Ok? ==> r == Ok(Unit) && pending == WithLines(l.0.value, line)) &&
        (l.0.Err? ==> r == Err(l.0.error) && pending == [])
    {
      var pre := PopPendingCommands();
      AddPendingCommands(body);
      var bodyCommands := PopPendingCommands();
      assert bodyCommands == WithLines(body, line);
      ghost var l := LoweredIf(pre, bodyCommands, condition, a, b, usedBranchVariables, activeRegisters);
      r := AddIfStatementCommands(pre, bodyCommands, condition, a, b);
      assert l.0.Ok? ==> pending == [] + WithLines(l.0.value, line) == WithLines(l.0.value, line);
    }

    /** `_enter_if_context`: the pending commands are saved under the context's id. */
    method EnterIfContext(contextId: int)
      modifies this`pending, this`preContext
      ensures preContext == old(preContext)[contextId := old(pending)] && pending == []
    {
      var pre := PopPendingCommands();
      preContext := preContext[contextId := pre];
    }

    /**
     * `_exit_if_context`: the commands of the `with` block are popped and
     * the if is added after the commands saved on entry, which are
     * dropped from the saved ones; RuntimeError when nothing was saved.
     */
    method ExitIfContext(contextId: int, condition: GenericInstr, a: CValue, b: CValue) returns (r: Result<Unit>)
      requires Valid()
      modifies this`activeRegisters, this`usedBranchVariables, this`pending, this`preContext
      ensures Valid()
      ensures contextId !in old(preContext) ==>
        r == Fail(RuntimeError) && pending == [] && preContext == old(preContext) &&
        activeRegisters == old(activeRegisters) && usedBranchVariables == old(usedBranchVariables)
      ensures contextId in old(preContext) ==>
        var l := LoweredIf(old(preContext)[contextId], old(pending), condition, a, b, old(usedBranchVariables), old(activeRegisters));
        preContext == old(preContext) - {contextId} && activeRegisters == l.1 &&
        usedBranchVariables == old(usedBranchVariables) + IfLabelsTaken(|old(pending)|, condition, old(usedBranchVariables)) &&
        (l.0.Ok? ==> r == Ok(Unit) && pending == WithLines(l.0.value, line)) &&
        (l.0.Err? ==> r == Err(l.0.error) && pending == [])
    {
      var body := PopPendingCommands();
      if contextId !in preContext {
        return Fail(RuntimeError);
      }
      var pre := preContext[contextId];
      preContext := preContext - {contextId};
      r := AddIfStatementCommands(pre, body, condition, a, b);
    }

    // -- arrays, registers and flushing

    /** `new_array`: a fresh address (taken even when the array is refused), the array, recorded for return. */
    method NewArray(length: int, initValues: Option<seq<Option<int>>>) returns (r: Result<SdkArray>)
      requires Valid()
      modifies this`usedArrayAddresses, this`arraysToReturn
      ensures Valid()
      ensures var address := NextArrayAddress(old(usedArrayAddresses));
        usedArrayAddresses == old(usedArrayAddresses) + [address] &&
        r == Futures.NewArray(length, address, initValues, line) &&
        arraysToReturn == old(arraysToReturn) + if r.Ok? then [r.value] else []
    {
      var address := GetNewArrayAddress();
      r := Futures.NewArray(length, address, initValues, line);
      if r.Ok? {
        arraysToReturn := arraysToReturn + [r.value];
      }
    }

    /**
     * `new_register`: the lowest inactive R register, activated, set to
     * the initial value and recorded for return; RuntimeError when all
     * sixteen are active.
     */
    method NewRegister(initValue: int) returns (r: Result<Register>)
      modifies this`activeRegisters, this`pending, this`registersToReturn
      ensures var l := LowestInactive(old(activeRegisters));
        (l.None? ==>
          r == Fail(RuntimeError) && activeRegisters == old(activeRegisters) &&
          pending == old(pending) && registersToReturn == old(registersToReturn)) &&
        (l.Some? ==>
          r == Ok(l.value) && activeRegisters == old(activeRegisters) + {l.value} &&
          pending == old(pending) + WithLines([SetCmd(l.value, initValue)], line) &&
          registersToReturn == old(registersToReturn) + [l.value])
    {
      r := GetInactiveRegister(true);
      if r.Err? {
        return;
      }
      AddPendingCommands([SetCmd(r.value, initValue)]);
      registersToReturn := registersToReturn + [r.value];
    }

    /** `_create_ent_results_array`: an array of OK_FIELDS_K or OK_FIELDS_M entries per pair. */
    method CreateEntResultsArray(number: int, tp: EprType) returns (r: Result<SdkArray>)
      requires Valid()
      modifies this`usedArrayAddresses, this`arraysToReturn
      ensures Valid()
      ensures r.Ok? <==> number > 0
      ensures r.Ok? ==> r.value.length == ResultsPerPair(tp) * number && r.value.initValues.None?
      ensures r.Ok? ==> r.value.address == NextArrayAddress(old(usedArrayAddresses)) && arraysToReturn == old(arraysToReturn) + [r.value]
      ensures usedArrayAddresses == old(usedArrayAddresses) + [NextArrayAddress(old(usedArrayAddresses))]
    {
      r := NewArray(ResultsPerPair(tp) * number, None);
    }

    /**
     * The filling commands of one array, as `_get_array_commands` builds
     * them: for equal values through `loop_body`, which records the loop's
     * labels and leaves the active registers as they were.
     */
    method GetArrayInit(a: SdkArray) returns (r: Result<seq<ProtoCommand>>)
      requires Valid() && pending == []
      modifies this`pending, this`usedBranchVariables, this`activeRegisters
      ensures Valid() && pending == [] && activeRegisters == old(activeRegisters)
      ensures var f := ArrayInit(a, old(usedBranchVariables), old(activeRegisters), line);
        (f.Ok? ==> r == Ok(f.value.0) && usedBranchVariables == old(usedBranchVariables) + f.value.1) &&
        (f.Err? ==> r == Err(f.error) && usedBranchVariables == old(usedBranchVariables))
    {
      if a.initValues.None? {
        return Ok([]);
      }
      var vs := a.initValues.value;
      if Uniform(vs) {
        r := GetUniformInit(a);
        return;
      }
      var cmds: seq<ProtoCommand> := [];
      var j := 0;
      while j < |vs|
        invariant 0 <= j <= |vs|
        invariant cmds == StoreEach(vs[..j], a.address, a.lineno, 0)
        invariant unchanged(this)
      {
        StoreEachSnoc(vs[..j], a.address, a.lineno, 0, vs[j]);
        assert vs[..j + 1] == vs[..j] + [vs[j]];
        if vs[j].Some? {
          cmds := cmds + [StoreCmd(vs[j].value, a.address, IInt(j), a.lineno)];
        }
        j := j + 1;
      }
      assert vs[..j] == vs;
      r := Ok(cmds);
    }

    /**
     * The ad-hoc loop for equal initial values: `loop_body` over the
     * lowest inactive register, which is not activated beforehand, with
     * one STORE of the value at that register's index.
     */
    method GetUniformInit(a: SdkArray) returns (r: Result<seq<ProtoCommand>>)
      requires Valid() && pending == [] && a.initValues.Some? && Uniform(a.initValues.value)
      modifies this`pending, this`usedBranchVariables, this`activeRegisters
      ensures Valid() && pending == [] && activeRegisters == old(activeRegisters)
      ensures var f := ArrayInit(a, old(usedBranchVariables), old(activeRegisters), line);
        (f.Ok? ==> r == Ok(f.value.0) && usedBranchVariables == old(usedBranchVariables) + f.value.1) &&
        (f.Err? ==> r == Err(f.error) && usedBranchVariables == old(usedBranchVariables))
    {
      var vs := a.initValues.value;
      var reg := GetInactiveRegister(false);
      if reg.Err? {
        return Err(reg.error);
      }
      if vs[0].None? {
        return Fail(TypeError);
      }
      assert Valid();
      var body := [StoreCmd(vs[0].value, a.address, IReg(reg.value), a.lineno)];
      var done := LoopBody(body, |vs|, 0, 1, Some(reg.value));
      var cmds := PopPendingCommands();
      r := Ok(cmds);
    }

    /** `_get_array_commands`: the set-up commands and the return commands of every array to return. */
    method GetArrayCommands() returns (r: Result<(seq<ProtoCommand>, seq<ProtoCommand>)>)
      requires Valid() && pending == []
      modifies this`pending, this`usedBranchVariables, this`activeRegisters
      ensures Valid() && pending == [] && activeRegisters == old(activeRegisters)
      ensures var c := ArrayCommands(arraysToReturn, returnArrays, old(usedBranchVariables), old(activeRegisters), line);
        (c.Ok? ==> r == Ok((c.value.0, c.value.1)) && usedBranchVariables == old(usedBranchVariables) + c.value.2) &&
        (c.Err? ==> r == Err(c.error))
    {
      var arrays := arraysToReturn;
      ghost var used0, active0 := usedBranchVariables, activeRegisters;
      var init: seq<ProtoCommand> := [];
      var ret: seq<ProtoCommand> := [];
      ghost var labels: seq<string> := [];
      var i := 0;
      while i < |arrays|
        invariant 0 <= i <= |arrays|
        invariant Valid() && pending == [] && activeRegisters == active0 && arrays == arraysToReturn
        invariant ArrayCommands(arrays[..i], returnArrays, used0, active0, line) == Ok((init, ret, labels))
        invariant usedBranchVariables == used0 + labels
      {
        ArrayCommandsSnoc(arrays, i, returnArrays, used0, active0, line, init, ret, labels);
        var step;
        step, labels := AppendArrayCommands(arrays[i], init, ret, used0, labels);
        if step.Err? {
          ArrayCommandsStopAtError(arrays, i + 1, returnArrays, used0, active0, line);
          assert ArrayCommands(arrays, returnArrays, used0, active0, line) == Err(step.error);
          return Err(step.error);
        }
        init, ret := step.value.0, step.value.1;
        i := i + 1;
      }
      assert arrays[..i] == arrays;
      r := Ok((init, ret));
    }

    /** One array's share of `_get_array_commands`: its declaration and initialisation, and its return. */
    method AppendArrayCommands(a: SdkArray, init: seq<ProtoCommand>, ret: seq<ProtoCommand>, ghost used0: seq<string>, ghost labels: seq<string>)
      returns (r: Result<(seq<ProtoCommand>, seq<ProtoCommand>)>, ghost labels': seq<string>)
      requires Valid() && pending == [] && usedBranchVariables == used0 + labels
      modifies this`pending, this`usedBranchVariables, this`activeRegisters
      ensures Valid() && pending == [] && activeRegisters == old(activeRegisters)
      ensures var fill := ArrayInit(a, used0 + labels, old(activeRegisters), line);
        (fill.Err? ==> r == Err(fill.error)) &&
        (fill.Ok? ==>
          r == Ok((init + [ArrayDeclCmd(a)] + fill.value.0, ret + (if returnArrays then [RetArrCmd(a)] else []))) &&
          labels' == labels + fill.value.1 && usedBranchVariables == used0 + labels')
    {
      labels' := labels;
      var fill := GetArrayInit(a);
      if fill.Err? {
        return Err(fill.error), labels';
      }
      labels' := labels + ArrayInit(a, used0 + labels, old(activeRegisters), line).value.1;
      r := Ok((init + [ArrayDeclCmd(a)] + fill.value, ret + if returnArrays then [RetArrCmd(a)] else []));
    }

    /** `_add_array_commands`: the pending commands between the array set-up and the array returns. */
    method AddArrayCommands() returns (r: Result<Unit>)
      requires Valid()
      modifies this`pending, this`usedBranchVariables, this`activeRegisters
      ensures Valid() && activeRegisters == old(activeRegisters)
      ensures var c := ArrayCommands(arraysToReturn, returnArrays, old(usedBranchVariables), old(activeRegisters), line);
        (c.Ok? ==>
          r == Ok(Unit) && pending == WithLines(c.value.0 + old(pending) + c.value.1, line) &&
          usedBranchVariables == old(usedBranchVariables) + c.value.2) &&
        (c.Err? ==> r == Err(c.error) && pending == [])
    {
      var current := PopPendingCommands();
      var commands := GetArrayCommands();
      if commands.Err? {
        return Err(commands.error);
      }
      AddPendingCommands(commands.value.0 + current + commands.value.1);
      r := Ok(Unit);
    }

    /** `_add_ret_reg_commands`: a RET_REG for each register to return, after the pending commands. */
    method AddRetRegCommands()
      modifies this`pending
      ensures pending == old(pending) + WithLines(RetRegCommands(registersToReturn), line)
    {
      var instrs: seq<ProtoCommand> := [];
      var i := 0;
      while i < |registersToReturn|
        invariant 0 <= i <= |registersToReturn|
        invariant instrs == RetRegCommands(registersToReturn[..i])
      {
        instrs := instrs + [ICmd(RetReg, [], [Reg(registersToReturn[i])], None)];
        i := i + 1;
      }
      assert registersToReturn[..i] == registersToReturn;
      AddPendingCommands(instrs);
    }

    /**
     * `_pop_pending_subroutine`: the array set-up, the pending commands,
     * the array returns and the register returns, as one subroutine with
     * the version and the application id; None exactly when nothing was
     * pending and there is no array or register to return.
     */
    method PopPendingSubroutine() returns (r: Result<Option<Text.PreParts>>)
      requires Valid()
      modifies this`pending, this`usedBranchVariables, this`activeRegisters
      ensures Valid() && activeRegisters == old(activeRegisters) && pending == []
      ensures var c := ArrayCommands(arraysToReturn, returnArrays, old(usedBranchVariables), old(activeRegisters), line);
        (c.Err? ==> r == Err(c.error)) &&
        (c.Ok? ==>
          var commands := WithLines(c.value.0 + old(pending) + c.value.1, line) + WithLines(RetRegCommands(registersToReturn), line);
          usedBranchVariables == old(usedBranchVariables) + c.value.2 &&
          r == Ok(if |commands| > 0 then Some(Text.PreParts(version, appId, commands)) else None))
      ensures r.Ok? ==> (r.value.None? <==> old(pending) == [] && arraysToReturn == [] && registersToReturn == [])
    {
      var added := AddArrayCommands();
      if added.Err? {
        pending := [];
        return Err(added.error);
      }
      AddRetRegCommands();
      if |pending| > 0 {
        var commands := PopPendingCommands();
        return Ok(Some(Text.PreParts(version, appId, commands)));
      }
      r := Ok(None);
    }

    // -- qubit commands

    /** `add_single_qubit_rotation_commands` for an angle given as n and d: `set Q0 id` and `instr Q0 n d`. */
    method AddSingleQubitRotationCommands(instr: GenericInstr, qubitId: int, n: int, d: int) returns (r: Result<Unit>)
      modifies this`pending
      ensures var c := RotationCommands(instr, qubitId, n, d);
        (c.Ok? ==> r == Ok(Unit) && pending == old(pending) + WithLines(c.value, line)) &&
        (c.Err? ==> r == Err(c.error) && pending == old(pending))
    {
      if !(n >= 0 && d >= 0) {
        return Fail(ValueError);
      }
      var q := SetQubitRegCommands(qubitId, 0);
      AddPendingCommands(q.1 + [ICmd(instr, [], [Reg(q.0), Int(n), Int(d)], None)]);
      r := Ok(Unit);
    }

    /** `add_single_qubit_commands`: `set Q0 id` and `instr Q0`. */
    method AddSingleQubitCommands(instr: GenericInstr, qubitId: int)
      modifies this`pending
      ensures pending == old(pending) + WithLines([SetCmd(Register(Q, 0), qubitId), ICmd(instr, [], [Reg(Register(Q, 0))], None)], line)
    {
      var q := SetQubitRegCommands(qubitId, 0);
      AddPendingCommands(q.1 + [ICmd(instr, [], [Reg(q.0)], None)]);
    }

    /** `add_two_qubit_commands`: the control in Q0, the target in Q1, then `instr Q0 Q1`. */
    method AddTwoQubitCommands(instr: GenericInstr, controlId: int, targetId: int)
      modifies this`pending
      ensures pending == old(pending) + WithLines([SetCmd(Register(Q, 0), controlId), SetCmd(Register(Q, 1), targetId),
        ICmd(instr, [], [Reg(Register(Q, 0)), Reg(Register(Q, 1))], None)], line)
    {
      var q0 := SetQubitRegCommands(controlId, 0);
      var q1 := SetQubitRegCommands(targetId, 1);
      AddPendingCommands(q0.1 + q1.1 + [ICmd(instr, [], [Reg(q0.0), Reg(q1.0)], None)]);
    }

    /** `add_new_qubit_commands`: `set Q0 id`, `qalloc Q0`, `init Q0`. */
    method AddNewQubitCommands(qubitId: int)
      modifies this`pending
      ensures pending == old(pending) + WithLines([SetCmd(Register(Q, 0), qubitId),
        ICmd(QAlloc, [], [Reg(Register(Q, 0))], None), ICmd(Init, [], [Reg(Register(Q, 0))], None)], line)
    {
      var q := SetQubitRegCommands(qubitId, 0);
      AddPendingCommands(q.1 + [ICmd(QAlloc, [], [Reg(q.0)], None), ICmd(Init, [], [Reg(q.0)], None)]);
    }

    /** `add_init_qubit_commands`: `set Q0 id`, `init Q0`. */
    method AddInitQubitCommands(qubitId: int)
      modifies this`pending
      ensures pending == old(pending) + WithLines([SetCmd(Register(Q, 0), qubitId), ICmd(Init, [], [Reg(Register(Q, 0))], None)], line)
    {
      AddSingleQubitCommands(Init, qubitId);
    }

    /** `add_qfree_commands`: `set Q0 id`, `qfree Q0`. */
    method AddQFreeCommands(qubitId: int)
      modifies this`pending
      ensures pending == old(pending) + WithLines([SetCmd(Register(Q, 0), qubitId), ICmd(QFree, [], [Reg(Register(Q, 0))], None)], line)
    {
      AddSingleQubitCommands(QFree, qubitId);
    }

    /**
     * `add_measure_commands` without the NV qubit move: a new M register
     * for the outcome, `meas Q0 M`, `qfree Q0` unless in place, then the
     * outcome's destination. An array entry gets a STORE and the M
     * register is marked free again; a register future takes the M
     * register, which is recorded for return.
     */
    method AddMeasureCommands(qubitId: int, target: OutcomeTarget, inplace: bool) returns (r: Result<Register>)
      requires Valid()
      modifies this`usedMeasRegisters, this`pending, this`registersToReturn
      ensures Valid()
      ensures var t := old(usedMeasRegisters); var k := FirstUnused(t);
        (k >= |t| ==> r == Fail(RuntimeError) && usedMeasRegisters == t && pending == old(pending) && registersToReturn == old(registersToReturn)) &&
        (k < |t| ==>
          var m := t[k].0;
          var q := Register(Q, 0);
          r == Ok(m) &&
          pending == old(pending) + WithLines([SetCmd(q, qubitId), ICmd(Meas, [], [Reg(q), Reg(m)], None)] +
            (if inplace then [] else [ICmd(QFree, [], [Reg(q)], None)]) +
            (if target.ToEntry? then [Access(Store, m, target.address, target.index)] else []), line) &&
          usedMeasRegisters == (if target.ToEntry? then t else TakeMeas(t, 1)) &&
          registersToReturn == old(registersToReturn) + if target.ToEntry? then [] else [m])
    {
      ghost var t := usedMeasRegisters;
      r := GetNewMeasOutcomeReg();
      if r.Err? {
        return;
      }
      var m := r.value;
      var q := SetQubitRegCommands(qubitId, 0);
      var measCommand := ICmd(Meas, [], [Reg(q.0), Reg(m)], None);
      var freeCommands := if inplace then [] else [ICmd(QFree, [], [Reg(q.0)], None)];
      var outcomeCommands: seq<ProtoCommand> := [];
      if target.ToEntry? {
        outcomeCommands := [Access(Store, m, target.address, target.index)];
        KeyPosOfDistinct(usedMeasRegisters, FirstUnused(t));
        usedMeasRegisters := MeasSet(usedMeasRegisters, m, false);
        assert usedMeasRegisters == t;
      } else {
        registersToReturn := registersToReturn + [m];
      }
      AddPendingCommands(q.1 + [measCommand] + freeCommands + outcomeCommands);
    }

    // -- loops

    /**
     * `_get_loop_commands`: fresh entry and exit labels, both recorded, and
     * the commands before and after the loop body.
     */
    method GetLoopCommands(start: int, stop: int, step: int, reg: Register) returns (entryLoop: seq<ProtoCommand>, exitLoop: seq<ProtoCommand>)
      requires Valid()
      modifies this`usedBranchVariables
      ensures Valid()
      ensures var l := LoopLabels(old(usedBranchVariables));
        (entryLoop, exitLoop) == LoopCommands(start, stop, step, l.0, l.1, reg) &&
        usedBranchVariables == old(usedBranchVariables) + [l.0, l.1]
    {
      var entry := FindUnusedVariable("LOOP", usedBranchVariables);
      var exit := FindUnusedVariable("LOOP_EXIT", usedBranchVariables);
      ghost var l := LoopLabels(usedBranchVariables);
      usedBranchVariables := usedBranchVariables + [entry];
      usedBranchVariables := usedBranchVariables + [exit];
      entryLoop, exitLoop := LoopCommands(start, stop, step, entry, exit, reg).0, LoopCommands(start, stop, step, entry, exit, reg).1;
    }

    /** `_add_loop_commands`: the body wrapped in the loop commands, after the preceding commands. */
    method AddLoopCommands(pre: seq<ProtoCommand>, body: seq<ProtoCommand>, stop: int, start: int, step: int, reg: Register)
      requires Valid()
      modifies this`pending, this`usedBranchVariables
      ensures Valid()
      ensures pending == old(pending) + WithLines(LoweredLoop(pre, body, start, stop, step, reg, old(usedBranchVariables)), line)
      ensures usedBranchVariables == old(usedBranchVariables) + LoopLabelsTaken(body, old(usedBranchVariables))
    {
      if |body| == 0 {
        AddPendingCommands(pre);
        return;
      }
      var entryLoop, exitLoop := GetLoopCommands(start, stop, step, reg);
      AddPendingCommands(pre + entryLoop + body + exitLoop);
    }

    /**
     * With the preceding commands set aside: the body's commands are added
     * and popped again, and the loop is added around them.
     */
    method WrapInLoop(pre: seq<ProtoCommand>, body: seq<ProtoCommand>, stop: int, start: int, step: int, reg: Register)
      requires Valid() && pending == []
      modifies this`pending, this`usedBranchVariables
      ensures Valid()
      ensures pending == WithLines(LoweredLoop(pre, WithLines(body, line), start, stop, step, reg, old(usedBranchVariables)), line)
      ensures usedBranchVariables == old(usedBranchVariables) + LoopLabelsTaken(body, old(usedBranchVariables))
    {
      AddPendingCommands(body);
      var bodyCommands := PopPendingCommands();
      assert bodyCommands == WithLines(body, line);
      AddLoopCommands(pre, bodyCommands, stop, start, step, reg);
      assert pending == [] + WithLines(LoweredLoop(pre, bodyCommands, start, stop, step, reg, old(usedBranchVariables)), line);
    }

    /**
     * `_handle_loop_register`: the register chosen for counting; only a
     * register the builder picks itself is activated, and only when asked.
     */
    method HandleLoopRegister(loopRegister: Option<Register>, activate: bool) returns (r: Result<Register>)
      modifies this`activeRegisters
      ensures r == ChosenLoopRegister(loopRegister, old(activeRegisters))
      ensures activeRegisters == if r.Ok? && loopRegister.None? && activate then old(activeRegisters) + {r.value} else old(activeRegisters)
    {
      if loopRegister.None? {
        r := GetInactiveRegister(activate);
      } else if loopRegister.value in activeRegisters {
        r := Fail(ValueError);
      } else {
        r := Ok(loopRegister.value);
      }
    }

    /**
     * `loop_body`: the commands before the loop are set aside, the body is
     * built with the loop register active, and the loop is added after the
     * set-aside commands. Afterwards the register is inactive again.
     */
    method LoopBody(body: seq<ProtoCommand>, stop: int, start: int, step: int, loopRegister: Option<Register>) returns (r: Result<Unit>)
      requires Valid()
      modifies this`activeRegisters, this`pending, this`usedBranchVariables
      ensures Valid()
      ensures var c := ChosenLoopRegister(loopRegister, old(activeRegisters));
        (c.Err? ==> r == Err(c.error) && pending == old(pending) && usedBranchVariables == old(usedBranchVariables)) &&
        (c.Ok? ==>
          r == Ok(Unit) &&
          pending == WithLines(LoweredLoop(old(pending), WithLines(body, line), start, stop, step, c.value, old(usedBranchVariables)), line) &&
          usedBranchVariables == old(usedBranchVariables) + LoopLabelsTaken(body, old(usedBranchVariables)))
      ensures activeRegisters == old(activeRegisters)
    {
      var c := HandleLoopRegister(loopRegister, false);
      if c.Err? {
        return Err(c.error);
      }
      var reg := c.value;
      var pre := PopPendingCommands();
      var added := AddActiveRegister(reg);
      WrapInLoop(pre, body, stop, start, step, reg);
      var removed := RemoveActiveRegister(reg);
      r := Ok(Unit);
    }

    /**
     * The `loop` context manager as written: the register is chosen and
     * activated only when none is given, yet it is removed from the active
     * registers on exit in every case, so a given register ends the loop
     * with a KeyError (after the loop commands have been added). When the
     * register choice itself fails, the `finally` block reads the unbound
     * result variable, and the UnboundLocalError it raises replaces the
     * choice's error.
     */
    method LoopAsWritten(body: seq<ProtoCommand>, stop: int, start: int, step: int, loopRegister: Option<Register>) returns (r: Result<Register>)
      requires Valid()
      modifies this`activeRegisters, this`pending, this`usedBranchVariables
      ensures Valid()
      ensures var c := ChosenLoopRegister(loopRegister, old(activeRegisters));
        (c.Err? ==> r == Fail(UnboundLocalError) && pending == [] && activeRegisters == old(activeRegisters)) &&
        (c.Ok? ==>
          pending == WithLines(LoweredLoop(old(pending), WithLines(body, line), start, stop, step, c.value, old(usedBranchVariables)), line) &&
          usedBranchVariables == old(usedBranchVariables) + LoopLabelsTaken(body, old(usedBranchVariables)) &&
          activeRegisters == old(activeRegisters) &&
          r == if loopRegister.None? then Ok(c.value) else Fail(KeyError))
    {
      var pre := PopPendingCommands();
      var c := HandleLoopRegister(loopRegister, true);
      if c.Err? {
        return Fail(UnboundLocalError);
      }
      var reg := c.value;
      WrapInLoop(pre, body, stop, start, step, reg);
      var removed := RemoveActiveRegister(reg);
      if removed.Err? {
        return Err(removed.error);
      }
      r := Ok(reg);
    }

    /**
     * The `loop` context manager with a given register activated for the
     * body as well, as `loop_body` does: the loop commands are added and
     * the register is inactive again afterwards, whichever way it was chosen.
     */
    method Loop(body: seq<ProtoCommand>, stop: int, start: int, step: int, loopRegister: Option<Register>) returns (r: Result<Register>)
      requires Valid()
      modifies this`activeRegisters, this`pending, this`usedBranchVariables
      ensures Valid()
      ensures var c := ChosenLoopRegister(loopRegister, old(activeRegisters));
        (c.Err? ==> r == Err(c.error) && pending == [] && activeRegisters == old(activeRegisters)) &&
        (c.Ok? ==>
          pending == WithLines(LoweredLoop(old(pending), WithLines(body, line), start, stop, step, c.value, old(usedBranchVariables)), line) &&
          usedBranchVariables == old(usedBranchVariables) + LoopLabelsTaken(body, old(usedBranchVariables)) &&
          activeRegisters == old(activeRegisters) && r == Ok(c.value))
    {
      var pre := PopPendingCommands();
      var c := HandleLoopRegister(loopRegister, true);
      if c.Err? {
        return Err(c.error);
      }
      var reg := c.value;
      if loopRegister.Some? {
        var added := AddActiveRegister(reg);
      }
      WrapInLoop(pre, body, stop, start, step, reg);
      var removed := RemoveActiveRegister(reg);
      r := Ok(reg);
    }
  }
}
