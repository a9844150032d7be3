// `_assign_branch_labels` of `netqasm/lang/parsing/text.py`: branch labels
// are removed from the commands of a `ProtoSubroutine` and every operand
// naming one becomes the index of the command the label stood before.

module TextLabels {
  import opened Wrappers
  import opened Operand
  import opened IR
  import opened Seqs

  /** The names of the branch labels among `cs`, in order. */
  function LabelNames(cs: seq<ProtoCommand>): seq<string>
    decreases |cs|
  {
    if cs == [] then []
    else LabelNames(cs[..|cs| - 1]) + (if cs[|cs| - 1].BranchLabel? then [cs[|cs| - 1].name] else [])
  }

  lemma {:induction false} LabelNamesConcat(a: seq<ProtoCommand>, b: seq<ProtoCommand>)
    ensures LabelNames(a + b) == LabelNames(a) + LabelNames(b)
    decreases |b|
  {
    if b == [] {
      assert a + b == a;
    } else {
      var n := |b| - 1;
      LabelNamesConcat(a, b[..n]);
      assert (a + b)[..|a + b| - 1] == a + b[..n];
      var last := if b[n].BranchLabel? then [b[n].name] else [];
      Assoc(LabelNames(a), LabelNames(b[..n]), last);
    }
  }

  lemma {:induction false} NoLabelNames(cs: seq<ProtoCommand>)
    requires forall k :: 0 <= k < |cs| ==> cs[k].ICmd?
    ensures LabelNames(cs) == []
    decreases |cs|
  {
    if cs != [] {
      NoLabelNames(cs[..|cs| - 1]);
    }
  }


  // ---------------------------------------------------------------------
  // _assign_branch_labels and _update_labels

  /** The commands of `cs` that are not branch labels, in order. */
  function ICmdsOf(cs: seq<ProtoCommand>): (r: seq<ProtoCommand>)
    ensures |r| <= |cs|
    decreases |cs|
  {
    if cs == [] then []
    else ICmdsOf(cs[..|cs| - 1]) + (if cs[|cs| - 1].ICmd? then [cs[|cs| - 1]] else [])
  }

  /**
   * The branch labels of `cs`: each maps to the number of commands before
   * it that are not labels, which is the index its next command gets once
   * the labels are gone; a name defined twice is a syntax error.
   */
  function LabelMap(cs: seq<ProtoCommand>): (r: Result<map<string, nat>>)
    ensures r.Err? ==> r.error == Raise(SyntaxError)
    decreases |cs|
  {
    if cs == [] then Ok(map[])
    else
      var init := cs[..|cs| - 1];
      var m :- LabelMap(init);
      var c := cs[|cs| - 1];
      if c.ICmd? then Ok(m)
      else if c.name in m then Fail(SyntaxError)
      else Ok(m[c.name := |ICmdsOf(init)|])
  }

  /** `_update_labels_in_operand`: a label with a value becomes that value; any other operand stays. */
  function ResolveOperand(op: Operand, labels: map<string, nat>): (r: Operand)
  {
    if op.Lbl? && op.labelName in labels then Int(labels[op.labelName]) else op
  }

  /** A command with its label operands resolved. */
  function ResolveCommand(c: ProtoCommand, labels: map<string, nat>): (r: ProtoCommand)
  {
    if c.ICmd? then c.(operands := seq(|c.operands|, j requires 0 <= j < |c.operands| => ResolveOperand(c.operands[j], labels)))
    else c
  }

  /** The commands with their label operands resolved. */
  function Resolved(cs: seq<ProtoCommand>, labels: map<string, nat>): (r: seq<ProtoCommand>)
    ensures |r| == |cs|
  {
    seq(|cs|, k requires 0 <= k < |cs| => ResolveCommand(cs[k], labels))
  }

  /** `_update_labels_in_command`: each operand, in place, is replaced by its resolved form. */
  method UpdateLabelsInCommand(command: ProtoCommand, labels: map<string, nat>) returns (r: ProtoCommand)
    requires command.ICmd?
    ensures r == ResolveCommand(command, labels)
  {
    var operands := command.operands;
    for i := 0 to |operands|
      invariant |operands| == |command.operands|
      invariant forall j :: 0 <= j < i ==> operands[j] == ResolveOperand(command.operands[j], labels)
      invariant forall j :: i <= j < |operands| ==> operands[j] == command.operands[j]
    {
      operands := operands[i := ResolveOperand(operands[i], labels)];
    }
    r := command.(operands := operands);
  }

  /** `_update_labels(subroutine, variables)`: every `ICmd` of the subroutine gets its labels resolved. */
  method UpdateLabels(p: ProtoSubroutine, labels: map<string, nat>)
    modifies p
    ensures p.commands == Resolved(old(p.commands), labels)
    ensures p.netqasmVersion == old(p.netqasmVersion) && p.appId == old(p.appId) && p.arguments == old(p.arguments)
  {
    ghost var cs := p.commands;
    for i := 0 to |p.commands|
      invariant |p.commands| == |cs|
      invariant forall k :: 0 <= k < i ==> p.commands[k] == ResolveCommand(cs[k], labels)
      invariant forall k :: i <= k < |cs| ==> p.commands[k] == cs[k]
      invariant p.netqasmVersion == old(p.netqasmVersion) && p.appId == old(p.appId) && p.arguments == old(p.arguments)
    {
      var command := p.commands[i];
      if command.ICmd? {
        var updated := UpdateLabelsInCommand(command, labels);
        p.commands := p.commands[i := updated];
      }
    }
  }

  lemma ICmdsOfStep(cs: seq<ProtoCommand>, k: nat)
    requires k < |cs|
    ensures ICmdsOf(cs[..k + 1]) == ICmdsOf(cs[..k]) + (if cs[k].ICmd? then [cs[k]] else [])
  {
    assert cs[..k + 1][..k] == cs[..k];
  }

  lemma LabelMapStep(cs: seq<ProtoCommand>, k: nat, m: map<string, nat>)
    requires k < |cs| && LabelMap(cs[..k]) == Ok(m)
    ensures cs[k].ICmd? ==> LabelMap(cs[..k + 1]) == Ok(m)
    ensures cs[k].BranchLabel? && cs[k].name in m ==> LabelMap(cs[..k + 1]).Err?
    ensures cs[k].BranchLabel? && cs[k].name !in m ==> LabelMap(cs[..k + 1]) == Ok(m[cs[k].name := |ICmdsOf(cs[..k])|])
  {
    assert cs[..k + 1][..k] == cs[..k];
  }

  /**
   * One turn of the loop of `_assign_branch_labels`, at the `k`th input
   * command: an instruction is kept, a new label is removed and recorded
   * at the number of instructions before it, a repeated label fails the
   * whole list.
   */
  lemma LoopStep(cs: seq<ProtoCommand>, k: nat, commands: seq<ProtoCommand>, m: map<string, nat>)
    requires k < |cs| && commands == ICmdsOf(cs[..k]) + cs[k..] && LabelMap(cs[..k]) == Ok(m)
    ensures |ICmdsOf(cs[..k])| < |commands| && commands[|ICmdsOf(cs[..k])|] == cs[k]
    ensures cs[k].ICmd? ==>
      commands == ICmdsOf(cs[..k + 1]) + cs[k + 1..] &&
      |ICmdsOf(cs[..k + 1])| == |ICmdsOf(cs[..k])| + 1 && LabelMap(cs[..k + 1]) == Ok(m)
    ensures cs[k].BranchLabel? && cs[k].name in m ==> LabelMap(cs).Err?
    ensures cs[k].BranchLabel? && cs[k].name !in m ==>
      (var n := |ICmdsOf(cs[..k])|;
       commands[..n] + commands[n + 1..] == ICmdsOf(cs[..k + 1]) + cs[k + 1..] &&
       n == |ICmdsOf(cs[..k + 1])| && LabelMap(cs[..k + 1]) == Ok(m[cs[k].name := n]))
  {
    var done := ICmdsOf(cs[..k]);
    ICmdsOfStep(cs, k);
    LabelMapStep(cs, k, m);
    AtSeam(done, cs, k);
    if cs[k].BranchLabel? {
      if cs[k].name in m {
        LabelMapPrefixFails(cs, k + 1);
      } else {
        Remove(done, cs[k], cs[k + 1..]);
        assert done + [] == done;
      }
    }
  }

  /** Once a prefix has a duplicate label, so has the whole list. */
  lemma {:induction false} LabelMapPrefixFails(cs: seq<ProtoCommand>, k: nat)
    requires k <= |cs| && LabelMap(cs[..k]).Err?
    ensures LabelMap(cs).Err?
    decreases |cs| - k
  {
    if k < |cs| {
      assert cs[..k + 1][..k] == cs[..k];
      LabelMapPrefixFails(cs, k + 1);
    } else {
      assert cs[..k] == cs;
    }
  }

  /**
   * The loop of `_assign_branch_labels`: the labels are removed one by one,
   * each recorded at the index of the command that follows it. A repeated
   * label raises a syntax error.
   */
  method FindBranchLabels(cs: seq<ProtoCommand>) returns (r: Result<(seq<ProtoCommand>, map<string, nat>)>)
    ensures r.Ok? <==> LabelMap(cs).Ok?
    ensures r.Ok? ==> r.value == (ICmdsOf(cs), LabelMap(cs).value)
    ensures r.Err? ==> r.error == Raise(SyntaxError)
  {
    var branchLabels: map<string, nat> := map[];
    var commandNumber := 0;
    var commands := cs;
    ghost var k := 0;
    while commandNumber < |commands|
      invariant LoopInv(cs, k, commands, commandNumber, branchLabels)
      decreases |cs| - k
    {
      LoopStep(cs, k, commands, branchLabels);
      var command := commands[commandNumber];
      if !command.BranchLabel? {
        commandNumber := commandNumber + 1;
      } else {
        var branchLabel := command.name;
        if branchLabel in branchLabels {
          return Fail(SyntaxError);
        }
        branchLabels := branchLabels[branchLabel := commandNumber];
        commands := commands[..commandNumber] + commands[commandNumber + 1..];
      }
      k := k + 1;
    }
    AtEnd(ICmdsOf(cs[..k]), cs, k);
    return Ok((commands, branchLabels));
  }

  /**
   * The state of the loop after the first `k` input commands: `commands`
   * is their instructions followed by the commands not yet visited,
   * `commandNumber` counts those instructions, and `m` is their labels.
   */
  ghost predicate LoopInv(cs: seq<ProtoCommand>, k: nat, commands: seq<ProtoCommand>, commandNumber: int, m: map<string, nat>)
  {
    k <= |cs| && commands == ICmdsOf(cs[..k]) + cs[k..] && commandNumber == |ICmdsOf(cs[..k])| && LabelMap(cs[..k]) == Ok(m)
  }

  /**
   * `_assign_branch_labels(subroutine)`: the labels are removed and every
   * label operand is resolved to the index of the command its label stood
   * before. A repeated label raises a syntax error before the subroutine
   * is touched.
   */
  method AssignBranchLabels(p: ProtoSubroutine) returns (r: Result<Unit>)
    modifies p
    ensures r.Ok? <==> LabelMap(old(p.commands)).Ok?
    ensures r.Err? ==> r.error == Raise(SyntaxError) && p.commands == old(p.commands)
    ensures r.Ok? ==> p.commands == Resolved(ICmdsOf(old(p.commands)), LabelMap(old(p.commands)).value)
    ensures p.netqasmVersion == old(p.netqasmVersion) && p.appId == old(p.appId) && p.arguments == old(p.arguments)
  {
    var found := FindBranchLabels(p.commands);
    if found.Err? {
      return Err(found.error);
    }
    var (commands, branchLabels) := found.value;
    p.commands := commands;
    UpdateLabels(p, branchLabels);
    return Ok(Unit);
  }

  // ---------------------------------------------------------------------
  // What the label map means

  /** The names of the labels of `cs`. */
  function LabelSet(cs: seq<ProtoCommand>): set<string>
  {
    set k | 0 <= k < |cs| && cs[k].BranchLabel? :: cs[k].name
  }

  /** No two labels of `cs` share a name. */
  predicate UniqueLabels(cs: seq<ProtoCommand>)
  {
    forall a, b :: 0 <= a < b < |cs| && cs[a].BranchLabel? && cs[b].BranchLabel? ==> cs[a].name != cs[b].name
  }

  lemma LabelSetStep(cs: seq<ProtoCommand>)
    requires cs != []
    ensures var n := |cs| - 1;
      LabelSet(cs) == LabelSet(cs[..n]) + (if cs[n].BranchLabel? then {cs[n].name} else {})
  {
    var n := |cs| - 1;
    var init := cs[..n];
    forall x | x in LabelSet(cs)
      ensures x in LabelSet(init) + (if cs[n].BranchLabel? then {cs[n].name} else {})
    {
      var k :| 0 <= k < |cs| && cs[k].BranchLabel? && cs[k].name == x;
      if k < n {
        assert init[k] == cs[k];
      }
    }
    forall x | x in LabelSet(init)
      ensures x in LabelSet(cs)
    {
      var k :| 0 <= k < |init| && init[k].BranchLabel? && init[k].name == x;
      assert cs[k] == init[k];
    }
  }

  lemma UniqueLabelsStep(cs: seq<ProtoCommand>)
    requires cs != []
    ensures var n := |cs| - 1;
      UniqueLabels(cs) <==> UniqueLabels(cs[..n]) && (cs[n].BranchLabel? ==> cs[n].name !in LabelSet(cs[..n]))
  {
    var n := |cs| - 1;
    var init := cs[..n];
    if UniqueLabels(init) && (cs[n].BranchLabel? ==> cs[n].name !in LabelSet(init)) {
      forall a, b | 0 <= a < b < |cs| && cs[a].BranchLabel? && cs[b].BranchLabel?
        ensures cs[a].name != cs[b].name
      {
        assert init[a] == cs[a];
        if b < n {
          assert init[b] == cs[b];
        }
      }
    }
  }

  /**
   * `_assign_branch_labels` succeeds exactly when no two labels share a
   * name, and then every label, and nothing else, has a value.
   */
  lemma {:induction false} LabelMapCorrect(cs: seq<ProtoCommand>)
    ensures LabelMap(cs).Ok? <==> UniqueLabels(cs)
    ensures LabelMap(cs).Ok? ==> LabelMap(cs).value.Keys == LabelSet(cs)
    decreases |cs|
  {
    if cs == [] {
      assert LabelSet(cs) == {};
    } else {
      var n := |cs| - 1;
      LabelMapCorrect(cs[..n]);
      LabelSetStep(cs);
      UniqueLabelsStep(cs);
    }
  }

  /** The commands that are not labels, split where the list is split. */
  lemma {:induction false} ICmdsOfConcat(a: seq<ProtoCommand>, b: seq<ProtoCommand>)
    ensures ICmdsOf(a + b) == ICmdsOf(a) + ICmdsOf(b)
    decreases |b|
  {
    if b == [] {
      assert a + b == a;
    } else {
      var n := |b| - 1;
      ICmdsOfConcat(a, b[..n]);
      assert (a + b)[..|a + b| - 1] == a + b[..n];
      var last := if b[n].ICmd? then [b[n]] else [];
      Assoc(ICmdsOf(a), ICmdsOf(b[..n]), last);
    }
  }

  /** The commands that are not labels are the `ICmd`s of the list. */
  lemma {:induction false} ICmdsOfMembers(cs: seq<ProtoCommand>)
    ensures forall x :: x in ICmdsOf(cs) <==> x in cs && x.ICmd?
    decreases |cs|
  {
    if cs != [] {
      var n := |cs| - 1;
      ICmdsOfMembers(cs[..n]);
      InitLast(cs);
      assert forall x :: x in cs <==> x in cs[..n] || x == cs[n];
    }
  }

  /** A list without labels is its own list of commands. */
  lemma {:induction false} ICmdsOfNoLabels(cs: seq<ProtoCommand>)
    requires forall k :: 0 <= k < |cs| ==> cs[k].ICmd?
    ensures ICmdsOf(cs) == cs
    decreases |cs|
  {
    if cs != [] {
      ICmdsOfNoLabels(cs[..|cs| - 1]);
      InitLast(cs);
    }
  }

  /** Removing a label in the middle leaves the commands on both sides of it. */
  lemma ICmdsAroundLabel(cs: seq<ProtoCommand>, k: nat)
    requires k < |cs| && cs[k].BranchLabel?
    ensures ICmdsOf(cs) == ICmdsOf(cs[..k]) + ICmdsOf(cs[k + 1..])
  {
    var before := cs[..k];
    var after := cs[k + 1..];
    Around(cs, k);
    ICmdsOfConcat(before + [cs[k]], after);
    ICmdsOfConcat(before, [cs[k]]);
    assert [cs[k]][..0] == [];
    assert ICmdsOf([cs[k]]) == [];
    EmptyRight(ICmdsOf(before));
  }

  /** The value of a label is the number of commands before it that are not labels. */
  lemma {:induction false} LabelValue(cs: seq<ProtoCommand>, k: nat)
    requires LabelMap(cs).Ok? && k < |cs| && cs[k].BranchLabel?
    ensures cs[k].name in LabelMap(cs).value
    ensures LabelMap(cs).value[cs[k].name] == |ICmdsOf(cs[..k])|
    decreases |cs|
  {
    var n := |cs| - 1;
    var init := cs[..n];
    if k < n {
      assert init[k] == cs[k] && init[..k] == cs[..k];
      LabelValue(init, k);
    }
  }

  /**
   * A label's value indexes the commands that followed it: once the labels
   * are gone, the commands from that index on are exactly those after it.
   */
  lemma LabelTarget(cs: seq<ProtoCommand>, k: nat)
    requires LabelMap(cs).Ok? && k < |cs| && cs[k].BranchLabel?
    ensures cs[k].name in LabelMap(cs).value
    ensures LabelMap(cs).value[cs[k].name] <= |ICmdsOf(cs)|
    ensures ICmdsOf(cs)[LabelMap(cs).value[cs[k].name]..] == ICmdsOf(cs[k + 1..])
  {
    LabelValue(cs, k);
    ICmdsAroundLabel(cs, k);
    SplitAtSeam(ICmdsOf(cs[..k]), ICmdsOf(cs[k + 1..]));
  }

  /** After the pass no command is a label, and no operand names a label that has a value. */
  lemma AssignedNoLabels(cs: seq<ProtoCommand>)
    requires LabelMap(cs).Ok?
    ensures var out := Resolved(ICmdsOf(cs), LabelMap(cs).value);
      forall k :: 0 <= k < |out| ==> (out[k].ICmd? &&
        forall j :: 0 <= j < |out[k].operands| && out[k].operands[j].Lbl? ==> out[k].operands[j].labelName !in LabelSet(cs))
  {
    ICmdsOfMembers(cs);
    LabelMapCorrect(cs);
    var ics := ICmdsOf(cs);
    forall k | 0 <= k < |ics|
      ensures ics[k].ICmd?
    {
      assert ics[k] in ics;
    }
  }

  /** Resolving keeps each command's instruction, line number and number of operands. */
  lemma ResolvedShape(cs: seq<ProtoCommand>, labels: map<string, nat>, k: nat)
    requires k < |cs|
    ensures var c := Resolved(cs, labels)[k];
      c.ICmd? == cs[k].ICmd? && c.lineno == cs[k].lineno &&
      (c.ICmd? ==> c.instruction == cs[k].instruction && c.args == cs[k].args && |c.operands| == |cs[k].operands|) &&
      (c.BranchLabel? ==> c == cs[k])
  {
  }

  /** Resolving the labels a second time changes nothing. */
  lemma ResolvedIdempotent(cs: seq<ProtoCommand>, labels: map<string, nat>)
    ensures Resolved(Resolved(cs, labels), labels) == Resolved(cs, labels)
  {
    var once := Resolved(cs, labels);
    forall k | 0 <= k < |once|
      ensures ResolveCommand(once[k], labels) == once[k]
    {
      if once[k].ICmd? {
        var c := once[k];
        assert c.(operands := c.operands) == c;
      }
    }
  }
}
