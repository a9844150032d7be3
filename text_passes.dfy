// The passes of `netqasm/lang/parsing/text.py` that turn the commands of a
// parsed `ProtoSubroutine` into commands ready for a flavour: arguments
// become operands, constants move into temporary registers, and branch
// labels become command numbers.

module TextPasses {
  import opened Wrappers
  import opened Encoding
  import opened Operand
  import opened IR
  import opened Seqs
  import opened TextLabels

  // ---------------------------------------------------------------------
  // _make_args_operands

  /** The bracketed arguments as bare integer operands. */
  function IntOperands(args: seq<int>): (ops: seq<Operand>)
    ensures |ops| == |args| && forall k :: 0 <= k < |args| ==> ops[k] == Int(args[k])
  {
    seq(|args|, k requires 0 <= k < |args| => Int(args[k]))
  }

  /** One command after `_make_args_operands`: an `ICmd`'s arguments go in front of its operands. */
  function ArgsOperand(c: ProtoCommand): (r: ProtoCommand)
  {
    if c.ICmd? then c.(args := [], operands := IntOperands(c.args) + c.operands) else c
  }

  /** The command list after `_make_args_operands`. */
  function ArgsAsOperands(cs: seq<ProtoCommand>): (r: seq<ProtoCommand>)
    ensures |r| == |cs|
  {
    seq(|cs|, k requires 0 <= k < |cs| => ArgsOperand(cs[k]))
  }

  /**
   * `_make_args_operands(subroutine)`: every `ICmd` object, in place, gets
   * its arguments followed by its operands as operands, and no arguments.
   */
  method MakeArgsOperands(p: ProtoSubroutine)
    modifies p
    ensures p.commands == ArgsAsOperands(old(p.commands))
    ensures p.netqasmVersion == old(p.netqasmVersion) && p.appId == old(p.appId) && p.arguments == old(p.arguments)
  {
    ghost var cs := p.commands;
    for i := 0 to |p.commands|
      invariant |p.commands| == |cs|
      invariant forall k :: 0 <= k < i ==> p.commands[k] == ArgsOperand(cs[k])
      invariant forall k :: i <= k < |cs| ==> p.commands[k] == cs[k]
      invariant p.netqasmVersion == old(p.netqasmVersion) && p.appId == old(p.appId) && p.arguments == old(p.arguments)
    {
      var command := p.commands[i];
      if command.ICmd? {
        p.commands := p.commands[i := command.(args := [], operands := IntOperands(command.args) + command.operands)];
      }
    }
  }

  /**
   * After the pass no command has arguments left, each `ICmd` keeps its
   * instruction and line number, its operands start with its former
   * arguments and end with its former operands, and labels are untouched.
   */
  lemma ArgsOperandsMeaning(cs: seq<ProtoCommand>, k: nat)
    requires k < |cs|
    ensures var r := ArgsAsOperands(cs)[k];
      r.ICmd? <==> cs[k].ICmd?
    ensures var r := ArgsAsOperands(cs)[k];
      cs[k].BranchLabel? ==> r == cs[k]
    ensures var r := ArgsAsOperands(cs)[k];
      cs[k].ICmd? ==> (r.args == [] && r.instruction == cs[k].instruction && r.lineno == cs[k].lineno &&
                       |r.operands| == |cs[k].args| + |cs[k].operands| &&
                       (forall j :: 0 <= j < |cs[k].args| ==> r.operands[j] == Int(cs[k].args[j])) &&
                       r.operands[|cs[k].args|..] == cs[k].operands)
  {
  }

  /** Running the pass a second time changes nothing. */
  lemma ArgsOperandsIdempotent(cs: seq<ProtoCommand>)
    ensures ArgsAsOperands(ArgsAsOperands(cs)) == ArgsAsOperands(cs)
  {
    var once := ArgsAsOperands(cs);
    forall k | 0 <= k < |once| ensures ArgsOperand(once[k]) == once[k] {
      if once[k].ICmd? {
        assert IntOperands([]) + once[k].operands == once[k].operands;
      }
    }
  }

  // ---------------------------------------------------------------------
  // get_current_registers

  /** The texts of the registers among `ops`. */
  function OperandRegisterTexts(ops: seq<Operand>): set<string>
  {
    set j | 0 <= j < |ops| && ops[j].Reg? :: RegisterText(ops[j].reg)
  }

  /** The text of every register that is itself an operand of an `ICmd`. */
  function RegisterTexts(cs: seq<ProtoCommand>): set<string>
    decreases |cs|
  {
    if cs == [] then {}
    else
      var last := cs[|cs| - 1];
      RegisterTexts(cs[..|cs| - 1]) + (if last.ICmd? then OperandRegisterTexts(last.operands) else {})
  }

  /** A text is collected exactly when some `ICmd` has that register as an operand. */
  lemma {:induction false} RegisterTextsMembers(cs: seq<ProtoCommand>, t: string)
    ensures t in RegisterTexts(cs) <==>
      exists k, j :: 0 <= k < |cs| && cs[k].ICmd? && 0 <= j < |cs[k].operands| && cs[k].operands[j].Reg? &&
        RegisterText(cs[k].operands[j].reg) == t
    decreases |cs|
  {
    if cs != [] {
      var init := cs[..|cs| - 1];
      RegisterTextsMembers(init, t);
      assert forall k :: 0 <= k < |init| ==> init[k] == cs[k];
      if t in RegisterTexts(cs) && t !in RegisterTexts(init) {
        var j :| 0 <= j < |cs[|cs| - 1].operands| && cs[|cs| - 1].operands[j].Reg? && RegisterText(cs[|cs| - 1].operands[j].reg) == t;
      }
    }
  }

  /**
   * `get_current_registers(commands)`: the set of `str(op)` of the
   * register operands of all `ICmd`s (registers inside array entries and
   * slices are not collected).
   */
  method GetCurrentRegisters(cs: seq<ProtoCommand>) returns (current: set<string>)
    ensures current == RegisterTexts(cs)
  {
    current := {};
    for k := 0 to |cs|
      invariant current == RegisterTexts(cs[..k])
    {
      var command := cs[k];
      ghost var before := current;
      if command.ICmd? {
        var ops := command.operands;
        for j := 0 to |ops|
          invariant current == before + OperandRegisterTexts(ops[..j])
        {
          OperandRegisterTextsStep(ops, j);
          if ops[j].Reg? {
            current := current + {RegisterText(ops[j].reg)};
          }
        }
        assert ops[..|ops|] == ops;
      }
      RegisterTextsStep(cs, k);
    }
    assert cs[..|cs|] == cs;
  }

  lemma OperandRegisterTextsStep(ops: seq<Operand>, j: nat)
    requires j < |ops|
    ensures OperandRegisterTexts(ops[..j + 1]) == OperandRegisterTexts(ops[..j]) + (if ops[j].Reg? then {RegisterText(ops[j].reg)} else {})
  {
    var a := ops[..j + 1];
    assert forall i :: 0 <= i < j ==> a[i] == ops[..j][i];
  }

  lemma RegisterTextsStep(cs: seq<ProtoCommand>, k: nat)
    requires k < |cs|
    ensures RegisterTexts(cs[..k + 1]) == RegisterTexts(cs[..k]) + (if cs[k].ICmd? then OperandRegisterTexts(cs[k].operands) else {})
  {
    assert cs[..k + 1][..k] == cs[..k];
  }

  // ---------------------------------------------------------------------
  // The temporary register of `reg_and_set_cmd`

  /** Register `R i` is in use: among the current register texts or already taken for this command. */
  predicate Taken(current: set<string>, tmp: seq<Register>, i: int)
  {
    RegisterText(Register(R, i)) in current || Register(R, i) in tmp
  }

  /** The lowest `R` register from index `from` on, below 2 ** REG_INDEX_BITS, that is not taken. */
  function LowestFree(current: set<string>, tmp: seq<Register>, from: nat): (r: Result<Register>)
    requires from <= REG_COUNT
    ensures r.Ok? ==> r.value.name == R && from <= r.value.index < REG_COUNT && !Taken(current, tmp, r.value.index)
    ensures r.Ok? ==> forall i :: from <= i < r.value.index ==> Taken(current, tmp, i)
    ensures r.Err? ==> r.error == Raise(RuntimeError) && forall i :: from <= i < REG_COUNT ==> Taken(current, tmp, i)
    decreases REG_COUNT - from
  {
    if from == REG_COUNT then Fail(RuntimeError)
    else if !Taken(current, tmp, from) then Ok(Register(R, from))
    else LowestFree(current, tmp, from + 1)
  }

  /**
   * The register search of `reg_and_set_cmd`: the first `R i`, i below
   * 2 ** REG_INDEX_BITS, whose text is not a current register and which is
   * not yet a temporary of this command; RuntimeError when there is none.
   */
  method FreshRegister(current: set<string>, tmp: seq<Register>) returns (r: Result<Register>)
    ensures r == LowestFree(current, tmp, 0)
  {
    for i := 0 to REG_COUNT
      invariant LowestFree(current, tmp, 0) == LowestFree(current, tmp, i)
    {
      var register := Register(R, i);
      if RegisterText(register) !in current && register !in tmp {
        return Ok(register);
      }
    }
    return Fail(RuntimeError);
  }

  // ---------------------------------------------------------------------
  // _replace_constants

  /**
   * `_REPLACE_CONSTANTS_EXCEPTION`: operand `j` of instruction `g` keeps
   * its integer (the list's pairs, grouped by instruction).
   */
  predicate Exempt(g: GenericInstr, j: nat)
  {
    if g.Set? || g.Bez? || g.Bnz? then j == 1
    else if g.Jmp? then j == 0
    else if g.Beq? || g.Bne? || g.Blt? || g.Bge? then j == 2
    else if g.Breakpoint? then j == 0 || j == 1
    else if g.RotX? || g.RotY? || g.RotZ? then j == 1 || j == 2
    else if g.CrotX? || g.CrotY? || g.CrotZ? then j == 2 || j == 3
    else false
  }

  /** The `SET` command `reg_and_set_cmd` puts in front: the register gets the constant. */
  function SetCommand(r: Register, v: int, lineno: Option<nat>): ProtoCommand
  {
    ICmd(Set, [], [Reg(r), Int(v)], lineno)
  }

  /** The effect of one replacement step: the new operand or index, the `SET`s inserted, the temporaries so far. */
  datatype Step<T> = Step(item: T, sets: seq<ProtoCommand>, tmp: seq<Register>)

  /** Every `SET` writes the temporary at its position, with the command's line number. */
  predicate SetsWrite(sets: seq<ProtoCommand>, regs: seq<Register>, lineno: Option<nat>)
  {
    |sets| == |regs| &&
    forall k :: 0 <= k < |sets| ==>
      (sets[k].ICmd? && sets[k].instruction == Set && sets[k].args == [] && sets[k].lineno == lineno &&
       |sets[k].operands| == 2 && sets[k].operands[0] == Reg(regs[k]) && sets[k].operands[1].Int?)
  }

  /** Temporaries are distinct `R` registers below 16 none of which is a current register. */
  predicate FreshTemps(current: set<string>, regs: seq<Register>)
  {
    (forall k :: 0 <= k < |regs| ==>
       (regs[k].name == R && 0 <= regs[k].index < REG_COUNT && RegisterText(regs[k]) !in current)) &&
    (forall a, b :: 0 <= a < b < |regs| ==> regs[a] != regs[b])
  }

  /** An integer array index moves into a fresh register set just before the command. */
  function ReplaceIndex(ix: Index, current: set<string>, tmp: seq<Register>, lineno: Option<nat>): (r: Result<Step<Index>>)
    ensures r.Err? ==> r.error == Raise(RuntimeError)
  {
    if ix.IInt? then
      var reg :- LowestFree(current, tmp, 0);
      Ok(Step(IReg(reg), [SetCommand(reg, ix.value, lineno)], tmp + [reg]))
    else
      Ok(Step(ix, [], tmp))
  }

  /** A replaced index holds no integer; its new temporaries extend the old ones and each gets a `SET`. */
  lemma ReplaceIndexSound(ix: Index, current: set<string>, tmp: seq<Register>, lineno: Option<nat>)
    requires ReplaceIndex(ix, current, tmp, lineno).Ok?
    ensures var r := ReplaceIndex(ix, current, tmp, lineno).value;
      !r.item.IInt? && |r.tmp| >= |tmp| && r.tmp[..|tmp|] == tmp && SetsWrite(r.sets, r.tmp[|tmp|..], lineno) &&
      (FreshTemps(current, tmp) ==> FreshTemps(current, r.tmp))
    ensures ix.IReg? ==> ReplaceIndex(ix, current, tmp, lineno) == Ok(Step(ix, [], tmp))
  {
    if ix.IInt? {
      var reg := LowestFree(current, tmp, 0).value;
      assert (tmp + [reg])[..|tmp|] == tmp;
      assert (tmp + [reg])[|tmp|..] == [reg];
    } else {
      assert tmp[|tmp|..] == [];
    }
  }

  /**
   * The handling of operand `j` of a command: a non-exempt integer, and the
   * integer index, start or stop of an array entry or slice, move into
   * fresh temporaries; any other operand stays.
   */
  function ReplaceOperand(g: GenericInstr, j: nat, op: Operand, current: set<string>, tmp: seq<Register>, lineno: Option<nat>): (r: Result<Step<Operand>>)
    ensures r.Err? ==> r.error == Raise(RuntimeError)
  {
    if op.Int? && !Exempt(g, j) then
      var reg :- LowestFree(current, tmp, 0);
      Ok(Step(Reg(reg), [SetCommand(reg, op.value, lineno)], tmp + [reg]))
    else
      ReplaceInArray(op, current, tmp, lineno)
  }

  /** The other operands: an array entry's index, or a slice's start then stop, if they are integers. */
  function ReplaceInArray(op: Operand, current: set<string>, tmp: seq<Register>, lineno: Option<nat>): (r: Result<Step<Operand>>)
    ensures r.Err? ==> r.error == Raise(RuntimeError)
  {
    if op.Entry? then
      var ix :- ReplaceIndex(op.entry.index, current, tmp, lineno);
      Ok(Step(Entry(op.entry.(index := ix.item)), ix.sets, ix.tmp))
    else if op.Slice? then
      var start :- ReplaceIndex(op.slice.start, current, tmp, lineno);
      var stop :- ReplaceIndex(op.slice.stop, current, start.tmp, lineno);
      Ok(Step(Slice(op.slice.(start := start.item, stop := stop.item)), start.sets + stop.sets, stop.tmp))
    else
      Ok(Step(op, [], tmp))
  }

  /** The temporaries of one operand extend the old ones, each with its `SET`, and stay fresh. */
  lemma ReplaceOperandSound(g: GenericInstr, j: nat, op: Operand, current: set<string>, tmp: seq<Register>, lineno: Option<nat>)
    requires ReplaceOperand(g, j, op, current, tmp, lineno).Ok?
    ensures var r := ReplaceOperand(g, j, op, current, tmp, lineno).value;
      |r.tmp| >= |tmp| && r.tmp[..|tmp|] == tmp && SetsWrite(r.sets, r.tmp[|tmp|..], lineno) &&
      (FreshTemps(current, tmp) ==> FreshTemps(current, r.tmp))
  {
    if op.Int? && !Exempt(g, j) {
      var reg := LowestFree(current, tmp, 0).value;
      assert (tmp + [reg])[..|tmp|] == tmp;
      assert (tmp + [reg])[|tmp|..] == [reg];
    } else if op.Entry? {
      ReplaceIndexSound(op.entry.index, current, tmp, lineno);
    } else if op.Slice? {
      ReplaceIndexSound(op.slice.start, current, tmp, lineno);
      var start := ReplaceIndex(op.slice.start, current, tmp, lineno).value;
      ReplaceIndexSound(op.slice.stop, current, start.tmp, lineno);
      var stop := ReplaceIndex(op.slice.stop, current, start.tmp, lineno).value;
      SetsWriteConcat(start.sets, stop.sets, tmp, start.tmp, stop.tmp, lineno);
    } else {
      assert tmp[|tmp|..] == [];
    }
  }

  lemma SetsWriteConcat(a: seq<ProtoCommand>, b: seq<ProtoCommand>, t0: seq<Register>, t1: seq<Register>, t2: seq<Register>, lineno: Option<nat>)
    requires |t0| <= |t1| <= |t2| && t1[..|t0|] == t0 && t2[..|t1|] == t1
    requires SetsWrite(a, t1[|t0|..], lineno) && SetsWrite(b, t2[|t1|..], lineno)
    ensures t2[..|t0|] == t0 && SetsWrite(a + b, t2[|t0|..], lineno)
  {
    assert t2[|t0|..] == t1[|t0|..] + t2[|t1|..];
  }

  /** The result of `_replace_constants` on the operands of one command. */
  datatype Replaced = Replaced(sets: seq<ProtoCommand>, operands: seq<Operand>, tmp: seq<Register>)

  /** A command's operands, left to right, with their constants moved into temporaries. */
  function ReplaceOperands(g: GenericInstr, lineno: Option<nat>, ops: seq<Operand>, current: set<string>): (r: Result<Replaced>)
    ensures r.Ok? ==> |r.value.operands| == |ops|
    ensures r.Err? ==> r.error == Raise(RuntimeError)
    decreases |ops|
  {
    if ops == [] then Ok(Replaced([], [], []))
    else
      var prev :- ReplaceOperands(g, lineno, ops[..|ops| - 1], current);
      var step :- ReplaceOperand(g, |ops| - 1, ops[|ops| - 1], current, prev.tmp, lineno);
      Ok(Replaced(prev.sets + step.sets, prev.operands + [step.item], step.tmp))
  }

  /**
   * The temporaries of one command are distinct `R` registers below 16
   * that are not current registers, and the `SET`s in front of the command
   * write them in order, with the command's line number.
   */
  lemma {:induction false} ReplaceOperandsSound(g: GenericInstr, lineno: Option<nat>, ops: seq<Operand>, current: set<string>)
    requires ReplaceOperands(g, lineno, ops, current).Ok?
    ensures var r := ReplaceOperands(g, lineno, ops, current).value;
      SetsWrite(r.sets, r.tmp, lineno) && FreshTemps(current, r.tmp)
    decreases |ops|
  {
    if ops != [] {
      ReplaceOperandsSound(g, lineno, ops[..|ops| - 1], current);
      var prev := ReplaceOperands(g, lineno, ops[..|ops| - 1], current).value;
      ReplaceOperandSound(g, |ops| - 1, ops[|ops| - 1], current, prev.tmp, lineno);
      var step := ReplaceOperand(g, |ops| - 1, ops[|ops| - 1], current, prev.tmp, lineno).value;
      SetsWriteConcat(prev.sets, step.sets, [], prev.tmp, step.tmp, lineno);
    }
  }

  /** One command of the input: a label stays; an `ICmd` is preceded by its `SET`s. */
  function ReplaceCommand(c: ProtoCommand, current: set<string>): (r: Result<seq<ProtoCommand>>)
    ensures r.Err? ==> r.error == Raise(RuntimeError)
    ensures c.BranchLabel? ==> r == Ok([c])
  {
    if c.BranchLabel? then Ok([c])
    else
      var rep :- ReplaceOperands(c.instruction, c.lineno, c.operands, current);
      Ok(rep.sets + [c.(operands := rep.operands)])
  }

  /** The replacement of each command on its own. */
  function CommandResults(cs: seq<ProtoCommand>, current: set<string>): (rs: seq<Result<seq<ProtoCommand>>>)
    ensures |rs| == |cs|
  {
    seq(|cs|, k requires 0 <= k < |cs| => ReplaceCommand(cs[k], current))
  }

  /** The commands with their constants replaced, given the register texts in use. */
  function ReplacedAll(cs: seq<ProtoCommand>, current: set<string>): (r: Result<seq<ProtoCommand>>)
  {
    ConcatOk(CommandResults(cs, current))
  }

  /** `_replace_constants(commands)`: the register texts in use are collected once, before any replacement. */
  function ReplacedConstants(cs: seq<ProtoCommand>): (r: Result<seq<ProtoCommand>>)
  {
    ReplacedAll(cs, RegisterTexts(cs))
  }

  lemma ReplaceOperandsStep(g: GenericInstr, lineno: Option<nat>, ops: seq<Operand>, j: nat, current: set<string>, prev: Replaced, step: Step<Operand>)
    requires j < |ops| && ReplaceOperands(g, lineno, ops[..j], current) == Ok(prev)
    requires ReplaceOperand(g, j, ops[j], current, prev.tmp, lineno) == Ok(step)
    ensures ReplaceOperands(g, lineno, ops[..j + 1], current) == Ok(Replaced(prev.sets + step.sets, prev.operands + [step.item], step.tmp))
  {
    assert ops[..j + 1][..j] == ops[..j];
  }

  lemma {:induction false} ReplaceOperandsFails(g: GenericInstr, lineno: Option<nat>, ops: seq<Operand>, j: nat, current: set<string>)
    requires j <= |ops| && ReplaceOperands(g, lineno, ops[..j], current).Err?
    ensures ReplaceOperands(g, lineno, ops, current).Err?
    decreases |ops| - j
  {
    if j < |ops| {
      assert ops[..j + 1][..j] == ops[..j];
      ReplaceOperandsFails(g, lineno, ops, j + 1, current);
    } else {
      assert ops[..j] == ops;
    }
  }

  lemma ReplaceOperandsStepFails(g: GenericInstr, lineno: Option<nat>, ops: seq<Operand>, j: nat, current: set<string>, prev: Replaced)
    requires j < |ops| && ReplaceOperands(g, lineno, ops[..j], current) == Ok(prev)
    requires ReplaceOperand(g, j, ops[j], current, prev.tmp, lineno).Err?
    ensures ReplaceOperands(g, lineno, ops, current).Err?
  {
    assert ops[..j + 1][..j] == ops[..j];
    ReplaceOperandsFails(g, lineno, ops, j + 1, current);
  }

  /** `reg_and_set_cmd` for an array index: an integer index gets a temporary register and its `SET`. */
  method ReplaceIndexTemp(ix: Index, current: set<string>, tmp: seq<Register>, lineno: Option<nat>) returns (r: Result<Step<Index>>)
    ensures r == ReplaceIndex(ix, current, tmp, lineno)
  {
    if ix.IInt? {
      var reg := FreshRegister(current, tmp);
      if reg.Err? {
        return Err(reg.error);
      }
      return Ok(Step(IReg(reg.value), [SetCommand(reg.value, ix.value, lineno)], tmp + [reg.value]));
    }
    return Ok(Step(ix, [], tmp));
  }

  /**
   * The handling of operand `j` in the loop of `_replace_constants`: a
   * non-exempt integer, or the integer index, start or stop of an array
   * operand, gets a temporary register and its `SET`.
   */
  method ReplaceOperandTemp(g: GenericInstr, j: nat, operand: Operand, current: set<string>, tmp: seq<Register>, lineno: Option<nat>)
    returns (r: Result<Step<Operand>>)
    ensures r == ReplaceOperand(g, j, operand, current, tmp, lineno)
  {
    if operand.Int? && !Exempt(g, j) {
      var reg := FreshRegister(current, tmp);
      if reg.Err? {
        return Err(reg.error);
      }
      return Ok(Step(Reg(reg.value), [SetCommand(reg.value, operand.value, lineno)], tmp + [reg.value]));
    }
    r := ReplaceInArrayTemp(operand, current, tmp, lineno);
  }

  /** The `else` branch of that loop: the `index`, or the `start` and `stop`, attributes in turn. */
  method ReplaceInArrayTemp(operand: Operand, current: set<string>, tmp: seq<Register>, lineno: Option<nat>)
    returns (r: Result<Step<Operand>>)
    ensures r == ReplaceInArray(operand, current, tmp, lineno)
  {
    if operand.Entry? {
      var ix := ReplaceIndexTemp(operand.entry.index, current, tmp, lineno);
      if ix.Err? {
        return Err(ix.error);
      }
      return Ok(Step(Entry(operand.entry.(index := ix.value.item)), ix.value.sets, ix.value.tmp));
    } else if operand.Slice? {
      var start := ReplaceIndexTemp(operand.slice.start, current, tmp, lineno);
      if start.Err? {
        return Err(start.error);
      }
      var stop := ReplaceIndexTemp(operand.slice.stop, current, start.value.tmp, lineno);
      if stop.Err? {
        return Err(stop.error);
      }
      var newSlice := operand.slice.(start := start.value.item, stop := stop.value.item);
      return Ok(Step(Slice(newSlice), start.value.sets + stop.value.sets, stop.value.tmp));
    }
    return Ok(Step(operand, [], tmp));
  }

  /**
   * The inner loop of `_replace_constants` for one `ICmd`: its operands
   * left to right, each replaced integer overwritten in place by its
   * temporary register, collecting the `SET`s that go in front of it.
   */
  method ReplaceInCommand(command: ProtoCommand, current: set<string>) returns (r: Result<Replaced>)
    requires command.ICmd?
    ensures r == ReplaceOperands(command.instruction, command.lineno, command.operands, current)
  {
    var tmp: seq<Register> := [];
    var ops := command.operands;
    var sets: seq<ProtoCommand> := [];
    for j := 0 to |command.operands|
      invariant |ops| == |command.operands| && ops[j..] == command.operands[j..]
      invariant ReplaceOperands(command.instruction, command.lineno, command.operands[..j], current) == Ok(Replaced(sets, ops[..j], tmp))
    {
      var operand := ops[j];
      assert operand == command.operands[j];
      ghost var prev := Replaced(sets, ops[..j], tmp);
      var step := ReplaceOperandTemp(command.instruction, j, operand, current, tmp, command.lineno);
      if step.Err? {
        ReplaceOperandsStepFails(command.instruction, command.lineno, command.operands, j, current, prev);
        return Err(step.error);
      }
      ghost var tail := ops[j + 1..];
      assert tail == command.operands[j + 1..] by {
        assert tail == ops[j..][1..];
      }
      ops := ops[j := step.value.item];
      assert ops[j + 1..] == tail;
      assert ops[..j + 1] == prev.operands + [step.value.item];
      ReplaceOperandsStep(command.instruction, command.lineno, command.operands, j, current, prev, step.value);
      sets := sets + step.value.sets;
      tmp := step.value.tmp;
    }
    assert command.operands[..|command.operands|] == command.operands;
    assert ops[..|ops|] == ops;
    return Ok(Replaced(sets, ops, tmp));
  }

  /** One `ICmd` of `_replace_constants`: its `SET`s followed by the command with its new operands. */
  method ReplaceCommandAt(command: ProtoCommand, current: set<string>) returns (r: Result<seq<ProtoCommand>>)
    requires command.ICmd?
    ensures r == ReplaceCommand(command, current)
    ensures r.Ok? ==> |r.value| >= 1 && r.value == r.value[..|r.value| - 1] + [r.value[|r.value| - 1]]
  {
    var rep := ReplaceInCommand(command, current);
    if rep.Err? {
      return Err(rep.error);
    }
    r := Ok(rep.value.sets + [command.(operands := rep.value.operands)]);
  }

  /**
   * `_replace_constants(commands)`: walks the list with an index, and for
   * each `ICmd` inserts a `SET` of a temporary register in front of it for
   * every integer that has to leave it, as `ReplacedConstants` describes;
   * RuntimeError when a command needs more than the free registers.
   */
  method ReplaceConstants(commands: seq<ProtoCommand>) returns (r: Result<seq<ProtoCommand>>)
    ensures r == ReplacedConstants(commands)
  {
    var current := GetCurrentRegisters(commands);
    ghost var rs := CommandResults(commands, current);
    assert ReplacedConstants(commands) == ConcatOk(rs);
    var cmds := commands;
    var i := 0;
    ghost var n := 0;
    ghost var out: seq<ProtoCommand> := [];
    while i < |cmds|
      invariant n <= |commands| && ConcatOk(rs[..n]) == Ok(out)
      invariant cmds == out + commands[n..] && i == |out|
      decreases |cmds| - i
    {
      AtSeam(out, commands, n);
      var command := cmds[i];
      if !command.ICmd? {
        ConcatOkStep(rs, n, out, [command]);
        out := out + [command];
      } else {
        var rep := ReplaceCommandAt(command, current);
        if rep.Err? {
          ConcatOkFails(rs, n);
          return Err(rep.error);
        }
        ConcatOkStep(rs, n, out, rep.value);
        var newCommand := rep.value[|rep.value| - 1];
        var sets := rep.value[..|rep.value| - 1];
        SpliceAt(out, command, commands[n + 1..], rep.value);
        cmds := cmds[..i] + sets + [newCommand] + cmds[i + 1..];
        i := i + |sets|;
        out := out + rep.value;
      }
      i := i + 1;
      n := n + 1;
    }
    assert n == |commands| by {
      assert |cmds| == |out| + |commands| - n;
    }
    assert rs[..n] == rs && commands[n..] == [];
    assert cmds == out;
    return Ok(cmds);
  }

  // ---------------------------------------------------------------------
  // What `_replace_constants` leaves behind

  /** Operand `j` of `g` holds no integer that the pass would move: only exempt positions keep one. */
  predicate OperandConstantFree(g: GenericInstr, j: nat, op: Operand)
  {
    (op.Int? ==> Exempt(g, j)) &&
    (op.Entry? ==> op.entry.index.IReg?) &&
    (op.Slice? ==> op.slice.start.IReg? && op.slice.stop.IReg?)
  }

  /** A command with no constant left to replace. */
  predicate ConstantFree(c: ProtoCommand)
  {
    c.ICmd? ==> forall j :: 0 <= j < |c.operands| ==> OperandConstantFree(c.instruction, j, c.operands[j])
  }

  /** A replaced operand is constant-free at its position. */
  lemma ReplaceOperandFree(g: GenericInstr, j: nat, op: Operand, current: set<string>, tmp: seq<Register>, lineno: Option<nat>)
    requires ReplaceOperand(g, j, op, current, tmp, lineno).Ok?
    ensures OperandConstantFree(g, j, ReplaceOperand(g, j, op, current, tmp, lineno).value.item)
  {
    if !(op.Int? && !Exempt(g, j)) {
      if op.Entry? {
        ReplaceIndexSound(op.entry.index, current, tmp, lineno);
      } else if op.Slice? {
        ReplaceIndexSound(op.slice.start, current, tmp, lineno);
        var start := ReplaceIndex(op.slice.start, current, tmp, lineno).value;
        ReplaceIndexSound(op.slice.stop, current, start.tmp, lineno);
      }
    }
  }

  /** A constant-free operand stays as it is, with no `SET` and no new temporary. */
  lemma ReplaceOperandFixed(g: GenericInstr, j: nat, op: Operand, current: set<string>, tmp: seq<Register>, lineno: Option<nat>)
    requires OperandConstantFree(g, j, op)
    ensures ReplaceOperand(g, j, op, current, tmp, lineno) == Ok(Step(op, [], tmp))
  {
    if op.Entry? {
      var e := op.entry;
      ReplaceIndexSound(e.index, current, tmp, lineno);
      assert e.(index := e.index) == e;
      assert ReplaceInArray(op, current, tmp, lineno) == Ok(Step(Entry(e), [], tmp));
    } else if op.Slice? {
      var sl := op.slice;
      ReplaceIndexSound(sl.start, current, tmp, lineno);
      ReplaceIndexSound(sl.stop, current, tmp, lineno);
      assert sl.(start := sl.start, stop := sl.stop) == sl;
      var none: seq<ProtoCommand> := [];
      assert none + none == none;
      assert ReplaceInArray(op, current, tmp, lineno) == Ok(Step(Slice(sl), none + none, tmp));
    } else {
      assert ReplaceInArray(op, current, tmp, lineno) == Ok(Step(op, [], tmp));
    }
    assert ReplaceOperand(g, j, op, current, tmp, lineno) == ReplaceInArray(op, current, tmp, lineno);
  }

  /** Every replaced operand list is constant-free, position by position. */
  lemma {:induction false} ReplaceOperandsFree(g: GenericInstr, lineno: Option<nat>, ops: seq<Operand>, current: set<string>)
    requires ReplaceOperands(g, lineno, ops, current).Ok?
    ensures var r := ReplaceOperands(g, lineno, ops, current).value;
      forall j :: 0 <= j < |r.operands| ==> OperandConstantFree(g, j, r.operands[j])
    decreases |ops|
  {
    if ops != [] {
      var n := |ops| - 1;
      ReplaceOperandsFree(g, lineno, ops[..n], current);
      var prev := ReplaceOperands(g, lineno, ops[..n], current).value;
      ReplaceOperandFree(g, n, ops[n], current, prev.tmp, lineno);
    }
  }

  /** Constant-free operands come back unchanged, with no `SET`s. */
  lemma {:induction false} ReplaceOperandsFixed(g: GenericInstr, lineno: Option<nat>, ops: seq<Operand>, current: set<string>)
    requires forall j :: 0 <= j < |ops| ==> OperandConstantFree(g, j, ops[j])
    ensures ReplaceOperands(g, lineno, ops, current) == Ok(Replaced([], ops, []))
    decreases |ops|
  {
    if ops != [] {
      var n := |ops| - 1;
      ReplaceOperandsFixed(g, lineno, ops[..n], current);
      ReplaceOperandFixed(g, n, ops[n], current, [], lineno);
      assert ops[..n] + [ops[n]] == ops;
      var none: seq<ProtoCommand> := [];
      assert none + none == none;
      assert ReplaceOperands(g, lineno, ops, current) == Ok(Replaced(none + none, ops[..n] + [ops[n]], []));
    }
  }

  /** The `SET`s the pass inserts are constant-free: the value is operand 1 of `SET`, which is exempt. */
  lemma SetsConstantFree(sets: seq<ProtoCommand>, regs: seq<Register>, lineno: Option<nat>)
    requires SetsWrite(sets, regs, lineno)
    ensures forall k :: 0 <= k < |sets| ==> ConstantFree(sets[k])
  {
  }

  /** Every command the pass produces for one command is constant-free. */
  lemma ReplaceCommandFree(c: ProtoCommand, current: set<string>)
    requires ReplaceCommand(c, current).Ok?
    ensures forall x :: x in ReplaceCommand(c, current).value ==> ConstantFree(x)
  {
    if c.ICmd? {
      var rep := ReplaceOperands(c.instruction, c.lineno, c.operands, current).value;
      ReplaceOperandsFree(c.instruction, c.lineno, c.operands, current);
      ReplaceOperandsSound(c.instruction, c.lineno, c.operands, current);
      SetsConstantFree(rep.sets, rep.tmp, c.lineno);
    }
  }

  /** After `_replace_constants` no command holds a constant that the pass would move. */
  lemma ReplacedConstantFree(cs: seq<ProtoCommand>, current: set<string>)
    requires ReplacedAll(cs, current).Ok?
    ensures forall x :: x in ReplacedAll(cs, current).value ==> ConstantFree(x)
  {
    var rs := CommandResults(cs, current);
    forall x | x in ConcatOk(rs).value
      ensures ConstantFree(x)
    {
      ConcatOkFrom(rs, x);
      var k :| 0 <= k < |rs| && rs[k].Ok? && x in rs[k].value;
      ReplaceCommandFree(cs[k], current);
    }
  }

  /** Constant-free commands pass through unchanged. */
  lemma ReplacedFixed(cs: seq<ProtoCommand>, current: set<string>)
    requires forall k :: 0 <= k < |cs| ==> ConstantFree(cs[k])
    ensures ReplacedAll(cs, current) == Ok(cs)
  {
    var rs := CommandResults(cs, current);
    forall k | 0 <= k < |rs|
      ensures rs[k] == Ok([cs[k]])
    {
      if cs[k].ICmd? {
        ReplaceOperandsFixed(cs[k].instruction, cs[k].lineno, cs[k].operands, current);
        assert cs[k].(operands := cs[k].operands) == cs[k];
        var none: seq<ProtoCommand> := [];
        assert none + [cs[k]] == [cs[k]];
      }
      assert rs[k] == ReplaceCommand(cs[k], current);
    }
    ConcatOkSingletons(rs, cs);
  }

  /** Running `_replace_constants` on its own output changes nothing. */
  lemma ReplacedIdempotent(cs: seq<ProtoCommand>)
    requires ReplacedConstants(cs).Ok?
    ensures ReplacedConstants(ReplacedConstants(cs).value) == ReplacedConstants(cs)
  {
    var out := ReplacedConstants(cs).value;
    ReplacedConstantFree(cs, RegisterTexts(cs));
    ReplacedFixed(out, RegisterTexts(out));
  }

  /** The commands produced for one command carry its label, if it is one, and no other. */
  lemma ReplaceCommandLabels(c: ProtoCommand, current: set<string>)
    requires ReplaceCommand(c, current).Ok?
    ensures LabelNames(ReplaceCommand(c, current).value) == LabelNames([c])
  {
    if c.ICmd? {
      ReplaceOperandsSound(c.instruction, c.lineno, c.operands, current);
      var v := ReplaceCommand(c, current).value;
      NoLabelNames(v);
      NoLabelNames([c]);
    } else {
      assert [c][..0] == [];
    }
  }

  /** `_replace_constants` keeps every branch label, in order, and adds none. */
  lemma {:induction false} ReplacedKeepsLabels(cs: seq<ProtoCommand>, current: set<string>)
    requires ReplacedAll(cs, current).Ok?
    ensures LabelNames(ReplacedAll(cs, current).value) == LabelNames(cs)
    decreases |cs|
  {
    if cs != [] {
      var n := |cs| - 1;
      var rs := CommandResults(cs, current);
      assert CommandResults(cs[..n], current) == rs[..n];
      ReplacedKeepsLabels(cs[..n], current);
      ReplaceCommandLabels(cs[n], current);
      var vs := ConcatOk(rs[..n]).value;
      LabelNamesConcat(vs, rs[n].value);
      LabelNamesConcat(cs[..n], [cs[n]]);
      InitLast(cs);
    }
  }

}
