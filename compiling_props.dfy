// What `NVSubroutineCompiler.compile` promises about the subroutine it
// returns: no vanilla instruction is left, every copied instruction sits
// at the start index recorded for it, and every branch points at the
// first instruction compiled from its original target.

module CompilingProps {
  import opened Wrappers
  import opened Operand
  import opened Instructions
  import opened Subroutine
  import opened Compiling
  import Flavour

  /** `VanillaOp` is membership of `VanillaFlavour().instrs`. */
  lemma VanillaOpListed(op: Opcode)
    ensures VanillaOp(op) <==> op in Flavour.VanillaInstrs
  {
    Flavour.VanillaListed(op);
  }

  /**
   * A first loop over cmds[..k] that has not raised has run over
   * cmds[..k - 1] without raising, then appended the non-empty expansion of
   * cmds[k - 1] and recorded where it starts.
   */
  lemma ScanLast(cmds: seq<Instr>, k: nat, used: set<Register>, values: map<Register, Operand>, debug: bool, hardware: bool)
    requires 0 < k <= |cmds|
    requires forall j :: 0 <= j < |cmds| ==> Shaped(cmds[j])
    requires ScanUpTo(cmds, k, used, values, debug, hardware).failure.None?
    ensures var prev := ScanUpTo(cmds, k - 1, used, values, debug, hardware);
      var s := ScanUpTo(cmds, k, used, values, debug, hardware);
      var i := cmds[k - 1];
      prev.failure.None? && i.Cmd? &&
      var xs := Expand(i, prev.used + RegsOf(i.operands), Learn(prev.values, i), debug, hardware);
      xs.Ok? && |xs.value| >= 1 &&
      (!GateOp(i.op) ==> xs.value[0] == i) &&
      (GateOp(i.op) ==> IsNative(xs.value[0])) &&
      s.out == prev.out + xs.value && s.starts == prev.starts + [|prev.out|]
  {
  }

  /**
   * The first loop, when it has not raised, records one start index per
   * instruction, in increasing order, the first at 0, each inside the
   * emitted commands, and every instruction it read was a command.
   */
  lemma {:induction false} ScanStarts(cmds: seq<Instr>, k: nat, used: set<Register>, values: map<Register, Operand>, debug: bool, hardware: bool)
    requires k <= |cmds|
    requires forall j :: 0 <= j < |cmds| ==> Shaped(cmds[j])
    requires ScanUpTo(cmds, k, used, values, debug, hardware).failure.None?
    ensures var s := ScanUpTo(cmds, k, used, values, debug, hardware);
      |s.starts| == k &&
      (k > 0 ==> s.starts[0] == 0) &&
      (forall j :: 0 <= j < k ==> cmds[j].Cmd? && s.starts[j] < |s.out|) &&
      (forall j :: 0 <= j < k - 1 ==> s.starts[j] < s.starts[j + 1])
  {
    if k > 0 {
      ScanLast(cmds, k, used, values, debug, hardware);
      ScanStarts(cmds, k - 1, used, values, debug, hardware);
      var prev := ScanUpTo(cmds, k - 1, used, values, debug, hardware);
      var s := ScanUpTo(cmds, k, used, values, debug, hardware);
      StartsExtend(cmds[..k], prev.out, prev.starts, s.out[|prev.out|..]);
    }
  }

  lemma StartsExtend(cmds: seq<Instr>, out: seq<Instr>, starts: seq<nat>, xs: seq<Instr>)
    requires |cmds| == |starts| + 1 && |xs| >= 1 && cmds[|starts|].Cmd?
    requires if |starts| > 0 then starts[0] == 0 else out == []
    requires forall j :: 0 <= j < |starts| ==> cmds[j].Cmd? && starts[j] < |out|
    requires forall j :: 0 <= j < |starts| - 1 ==> starts[j] < starts[j + 1]
    ensures var out', starts' := out + xs, starts + [|out|];
      starts'[0] == 0 &&
      (forall j :: 0 <= j < |cmds| ==> cmds[j].Cmd? && starts'[j] < |out'|) &&
      (forall j :: 0 <= j < |cmds| - 1 ==> starts'[j] < starts'[j + 1])
  {
  }

  /** An instruction the first loop copies sits at its start index. */
  lemma {:induction false} ScanCopies(cmds: seq<Instr>, k: nat, used: set<Register>, values: map<Register, Operand>, debug: bool, hardware: bool)
    requires k <= |cmds|
    requires forall j :: 0 <= j < |cmds| ==> Shaped(cmds[j])
    requires ScanUpTo(cmds, k, used, values, debug, hardware).failure.None?
    ensures var s := ScanUpTo(cmds, k, used, values, debug, hardware);
      |s.starts| == k &&
      (forall j :: 0 <= j < k ==> cmds[j].Cmd? && s.starts[j] < |s.out|) &&
      (forall j :: 0 <= j < k && !GateOp(cmds[j].op) ==> s.out[s.starts[j]] == cmds[j])
  {
    ScanStarts(cmds, k, used, values, debug, hardware);
    if k > 0 {
      ScanLast(cmds, k, used, values, debug, hardware);
      ScanCopies(cmds, k - 1, used, values, debug, hardware);
      var prev := ScanUpTo(cmds, k - 1, used, values, debug, hardware);
      var s := ScanUpTo(cmds, k, used, values, debug, hardware);
      CopiesExtend(cmds[..k], prev.out, prev.starts, s.out[|prev.out|..]);
    }
  }

  lemma CopiesExtend(cmds: seq<Instr>, out: seq<Instr>, starts: seq<nat>, xs: seq<Instr>)
    requires |cmds| == |starts| + 1 && |xs| >= 1
    requires forall j :: 0 <= j < |cmds| ==> cmds[j].Cmd?
    requires forall j :: 0 <= j < |starts| ==> starts[j] < |out|
    requires forall j :: 0 <= j < |starts| && !GateOp(cmds[j].op) ==> out[starts[j]] == cmds[j]
    requires !GateOp(cmds[|starts|].op) ==> xs[0] == cmds[|starts|]
    ensures var out', starts' := out + xs, starts + [|out|];
      forall j :: 0 <= j < |cmds| && !GateOp(cmds[j].op) ==> out'[starts'[j]] == cmds[j]
  {
  }

  /** A compiled gate starts with a native instruction at its start index. */
  lemma {:induction false} ScanNative(cmds: seq<Instr>, k: nat, used: set<Register>, values: map<Register, Operand>, debug: bool, hardware: bool)
    requires k <= |cmds|
    requires forall j :: 0 <= j < |cmds| ==> Shaped(cmds[j])
    requires ScanUpTo(cmds, k, used, values, debug, hardware).failure.None?
    ensures var s := ScanUpTo(cmds, k, used, values, debug, hardware);
      |s.starts| == k &&
      (forall j :: 0 <= j < k ==> cmds[j].Cmd? && s.starts[j] < |s.out|) &&
      (forall j :: 0 <= j < k && GateOp(cmds[j].op) ==> IsNative(s.out[s.starts[j]]))
  {
    ScanStarts(cmds, k, used, values, debug, hardware);
    if k > 0 {
      ScanLast(cmds, k, used, values, debug, hardware);
      ScanNative(cmds, k - 1, used, values, debug, hardware);
      var prev := ScanUpTo(cmds, k - 1, used, values, debug, hardware);
      var s := ScanUpTo(cmds, k, used, values, debug, hardware);
      NativeExtend(cmds[..k], prev.out, prev.starts, s.out[|prev.out|..]);
    }
  }

  lemma NativeExtend(cmds: seq<Instr>, out: seq<Instr>, starts: seq<nat>, xs: seq<Instr>)
    requires |cmds| == |starts| + 1 && |xs| >= 1
    requires forall j :: 0 <= j < |cmds| ==> cmds[j].Cmd?
    requires forall j :: 0 <= j < |starts| ==> starts[j] < |out|
    requires forall j :: 0 <= j < |starts| && GateOp(cmds[j].op) ==> IsNative(out[starts[j]])
    requires GateOp(cmds[|starts|].op) ==> IsNative(xs[0])
    ensures var out', starts' := out + xs, starts + [|out|];
      forall j :: 0 <= j < |cmds| && GateOp(cmds[j].op) ==> IsNative(out'[starts'[j]])
  {
  }

  /** The second loop succeeds when every instruction re-targets, and re-targets each in place. */
  lemma {:induction false} RetargetPointwise(xs: seq<Instr>, k: nat, starts: seq<nat>, end: nat)
    requires k <= |xs|
    requires forall j :: 0 <= j < |xs| ==> Shaped(xs[j])
    ensures RetargetUpTo(xs, k, starts, end).Ok? <==> forall p :: 0 <= p < k ==> Retarget(xs[p], starts, end).Ok?
    ensures RetargetUpTo(xs, k, starts, end).Ok? ==>
      var rt := RetargetUpTo(xs, k, starts, end).value;
      |rt.0| == k &&
      (forall p :: 0 <= p < k ==> rt.0[p] == Retarget(xs[p], starts, end).value.0) &&
      (rt.1 <==> exists p :: 0 <= p < k && Retarget(xs[p], starts, end).value.1)
  {
    if k > 0 {
      RetargetPointwise(xs, k - 1, starts, end);
    }
  }

  /** A successful `compile` is the second loop's output, with the no-op appended when it asked for one. */
  lemma CompiledShape(s: Subroutine, used: set<Register>, values: map<Register, Operand>, debug: bool, hardware: bool)
    requires forall j :: 0 <= j < |s.commands| ==> Shaped(s.commands[j])
    requires CompileSpec(s, used, values, debug, hardware).result.Ok?
    ensures var scan := ScanUpTo(s.commands, |s.commands|, used, values, debug, hardware);
      var rt := RetargetUpTo(scan.out, |scan.out|, scan.starts, |scan.out|);
      var r := CompileSpec(s, used, values, debug, hardware).result.value;
      scan.failure.None? && rt.Ok? &&
      r == s.(commands := if rt.value.1 then rt.value.0 + [NoOp] else rt.value.0)
  {
  }

  /**
   * After a successful `compile` no instruction of the vanilla flavour is
   * left, the version and application id are those of the input, and
   * every instruction has the shapes the compiler relies on.
   */
  lemma NoVanillaLeft(s: Subroutine, used: set<Register>, values: map<Register, Operand>, debug: bool, hardware: bool)
    requires forall j :: 0 <= j < |s.commands| ==> Shaped(s.commands[j])
    requires CompileSpec(s, used, values, debug, hardware).result.Ok?
    ensures var r := CompileSpec(s, used, values, debug, hardware).result.value;
      r.netqasmVersion == s.netqasmVersion && r.appId == s.appId &&
      forall p :: 0 <= p < |r.commands| ==> Kept(r.commands[p])
  {
    CompiledShape(s, used, values, debug, hardware);
    var scan := ScanUpTo(s.commands, |s.commands|, used, values, debug, hardware);
    RetargetKept(scan.out, |scan.out|, scan.starts, |scan.out|);
    var rt := RetargetUpTo(scan.out, |scan.out|, scan.starts, |scan.out|).value;
    if rt.1 {
      NativeKept(NoOp);
      KeptConcat(rt.0, [NoOp]);
    }
  }

  /** The second loop keeps every instruction `Kept`. */
  lemma {:induction false} RetargetKept(xs: seq<Instr>, k: nat, starts: seq<nat>, end: nat)
    requires k <= |xs|
    requires forall j :: 0 <= j < |xs| ==> Shaped(xs[j])
    requires forall j :: 0 <= j < |xs| ==> Kept(xs[j])
    requires RetargetUpTo(xs, k, starts, end).Ok?
    ensures var rt := RetargetUpTo(xs, k, starts, end).value.0;
      forall j :: 0 <= j < |rt| ==> Kept(rt[j])
  {
    if k > 0 {
      RetargetKept(xs, k - 1, starts, end);
      RetargetKeepsOp(xs[k - 1], starts, end);
      var prefix := RetargetUpTo(xs, k - 1, starts, end).value.0;
      var last := Retarget(xs[k - 1], starts, end).value.0;
      KeptConcat(prefix, [last]);
    }
  }

  /**
   * After a successful `compile` the commands are the first loop's output,
   * re-targeted instruction by instruction, followed by `set C15 1337`
   * exactly when some branch targeted the end.
   */
  lemma CompiledCommands(s: Subroutine, used: set<Register>, values: map<Register, Operand>, debug: bool, hardware: bool)
    requires forall j :: 0 <= j < |s.commands| ==> Shaped(s.commands[j])
    requires CompileSpec(s, used, values, debug, hardware).result.Ok?
    ensures var scan := ScanUpTo(s.commands, |s.commands|, used, values, debug, hardware);
      var r := CompileSpec(s, used, values, debug, hardware).result.value;
      scan.failure.None? && |scan.out| <= |r.commands| <= |scan.out| + 1 &&
      (forall p :: 0 <= p < |scan.out| ==>
         Retarget(scan.out[p], scan.starts, |scan.out|).Ok? &&
         Retarget(scan.out[p], scan.starts, |scan.out|).value.0 == r.commands[p]) &&
      (|r.commands| == |scan.out| + 1 <==>
         (exists p :: 0 <= p < |scan.out| && Retarget(scan.out[p], scan.starts, |scan.out|).Ok? &&
            Retarget(scan.out[p], scan.starts, |scan.out|).value.1)) &&
      (|r.commands| == |scan.out| + 1 ==> r.commands[|scan.out|] == NoOp)
  {
    CompiledShape(s, used, values, debug, hardware);
    var scan := ScanUpTo(s.commands, |s.commands|, used, values, debug, hardware);
    RetargetPointwise(scan.out, |scan.out|, scan.starts, |scan.out|);
  }

  lemma RetargetKeepsOp(x: Instr, starts: seq<nat>, end: nat)
    requires Shaped(x)
    requires Retarget(x, starts, end).Ok?
    ensures var y := Retarget(x, starts, end).value.0;
      y.Cmd? == x.Cmd? && (x.Cmd? ==> y.op == x.op) && Shaped(y)
  {
  }

  /**
   * Where an instruction that `compile` copies ends up: at its start index,
   * re-targeted by the second loop, with the no-op at the end when its
   * re-targeting asked for one.
   */
  lemma CompiledAt(s: Subroutine, used: set<Register>, values: map<Register, Operand>, debug: bool, hardware: bool, j: int)
    requires forall k :: 0 <= k < |s.commands| ==> Shaped(s.commands[k])
    requires CompileSpec(s, used, values, debug, hardware).result.Ok?
    requires 0 <= j < |s.commands|
    requires !(s.commands[j].Cmd? && GateOp(s.commands[j].op))
    ensures var scan := ScanUpTo(s.commands, |s.commands|, used, values, debug, hardware);
      var out := CompileSpec(s, used, values, debug, hardware).result.value.commands;
      var rt := Retarget(s.commands[j], scan.starts, |scan.out|);
      s.commands[j].Cmd? && |scan.starts| == |s.commands| && scan.starts[j] < |scan.out| <= |out| &&
      rt.Ok? && out[scan.starts[j]] == rt.value.0 &&
      (rt.value.1 ==> |out| == |scan.out| + 1 && out[|scan.out|] == NoOp)
  {
    var scan := ScanUpTo(s.commands, |s.commands|, used, values, debug, hardware);
    CompiledCommands(s, used, values, debug, hardware);
    ScanStarts(s.commands, |s.commands|, used, values, debug, hardware);
    ScanCopies(s.commands, |s.commands|, used, values, debug, hardware);
    var p := scan.starts[j];
    assert scan.out[p] == s.commands[j];
  }

  /**
   * Branch re-targeting: with `index_changes` the start indices of the
   * first loop, every instruction that is copied sits at its start index,
   * a branch to an original index t < n now points at t's start index, and
   * a branch to n points at the appended `set C15 1337`.
   */
  lemma BranchTargets(s: Subroutine, used: set<Register>, values: map<Register, Operand>, debug: bool, hardware: bool, j: int)
    requires forall k :: 0 <= k < |s.commands| ==> Shaped(s.commands[k])
    requires CompileSpec(s, used, values, debug, hardware).result.Ok?
    requires 0 <= j < |s.commands|
    requires !(s.commands[j].Cmd? && GateOp(s.commands[j].op))
    ensures var scan := ScanUpTo(s.commands, |s.commands|, used, values, debug, hardware);
      var out := CompileSpec(s, used, values, debug, hardware).result.value.commands;
      var i := s.commands[j];
      |scan.starts| == |s.commands| && scan.starts[j] < |out| && i.Cmd? &&
      (!BranchOp(i.op) ==> out[scan.starts[j]] == i) &&
      (BranchOp(i.op) ==> i.operands[LinePos(i.op)].Imm?) &&
      (BranchOp(i.op) && 0 <= i.operands[LinePos(i.op)].imm < |s.commands| ==>
         out[scan.starts[j]] == WithLine(i, scan.starts[i.operands[LinePos(i.op)].imm])) &&
      (BranchOp(i.op) && i.operands[LinePos(i.op)].imm == |s.commands| ==>
         |out| == |scan.out| + 1 && out[scan.starts[j]] == WithLine(i, |scan.out|) && out[|scan.out|] == NoOp)
  {
    CompiledAt(s, used, values, debug, hardware, j);
  }
}

module CompilingShapes {
  import opened Encoding
  import opened Operand
  import opened Instructions
  import opened Compiling

  /** `isinstance(instr, core.SingleQubitInstruction)` */
  lemma SingleClassAgrees(op: Opcode)
    ensures SingleGateOp(op) <==> IsSingleQubit(op)
  {
  }

  /** `isinstance(instr, core.RotationInstruction)` */
  lemma RotationClassAgrees(op: Opcode)
    ensures RotationOp(op) <==> IsRotation(op)
  {
  }

  /** `isinstance(instr, core.TwoQubitInstruction)` */
  lemma TwoQubitClassAgrees(op: Opcode)
    ensures TwoQubitOp(op) <==> IsTwoQubit(op)
  {
  }

  lemma SingleFields(op: Opcode)
    requires SingleGateOp(op)
    ensures Fields(op) == [RegisterField]
  {
  }

  lemma RotationFields(op: Opcode)
    requires RotationOp(op)
    ensures Fields(op) == [RegisterField, ImmediateField, ImmediateField]
  {
  }

  lemma TwoQubitFields(op: Opcode)
    requires TwoQubitOp(op)
    ensures Fields(op) == [RegisterField, RegisterField]
  {
  }

  lemma BranchFields(op: Opcode)
    requires BranchOp(op)
    ensures |Fields(op)| == LinePos(op) + 1
  {
  }

  /** Every well-typed instruction has the operand shapes the compiler relies on. */
  lemma WellTypedShaped(i: Instr)
    requires WellTyped(i)
    ensures Shaped(i)
  {
    if i.Cmd? {
      if SingleGateOp(i.op) {
        SingleFields(i.op);
        assert FieldHolds(i.op, Fields(i.op)[0], i.operands[0]);
      }
      if RotationOp(i.op) {
        RotationFields(i.op);
        assert FieldHolds(i.op, Fields(i.op)[0], i.operands[0]);
      }
      if TwoQubitOp(i.op) {
        TwoQubitFields(i.op);
        assert FieldHolds(i.op, Fields(i.op)[0], i.operands[0]);
        assert FieldHolds(i.op, Fields(i.op)[1], i.operands[1]);
      }
      if i.op.Set? {
        assert Fields(Set) == [RegisterField, IntegerField];
        assert FieldHolds(i.op, Fields(i.op)[0], i.operands[0]);
      }
      if BranchOp(i.op) {
        BranchFields(i.op);
      }
    }
  }
}
