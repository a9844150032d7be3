// The top of `netqasm/lang/parsing/text.py`: a subroutine text becomes a
// `ProtoSubroutine` (preamble, macros, one command per body line), which
// the passes turn into the instructions of a `Subroutine` of a flavour.

module Text {
  import opened Wrappers
  import opened Symbols
  import opened Operand
  import opened IR
  import opened Instructions
  import opened Flavour
  import opened Subroutine
  import opened TextLines
  import opened TextPreamble
  import TextValues
  import opened TextPasses
  import opened TextLabels

  // ---------------------------------------------------------------------
  // _create_subroutine

  /** Each body line parsed on its own. */
  function BodyResults(lines: seq<string>): (rs: seq<Result<ProtoCommand>>)
    ensures |rs| == |lines|
  {
    seq(|lines|, k requires 0 <= k < |lines| => TextValues.ParseBodyLine(lines[k]))
  }

  /** `preamble_data[key][0][0]`: IndexError when the keyword has no line or its first line no operand. */
  function PreambleArg(d: PreambleData, key: string): (r: Result<string>)
    ensures r.Ok? <==> |Lookup(d, key)| > 0 && |Lookup(d, key)[0]| > 0
    ensures r.Ok? ==> r.value == Lookup(d, key)[0][0]
    ensures r.Err? ==> r.error == Raise(IndexError)
  {
    var lines := Lookup(d, key);
    if |lines| == 0 || |lines[0]| == 0 then Fail(IndexError) else Ok(lines[0][0])
  }

  /** What `_create_subroutine` builds: a version, an app id and the commands. */
  datatype PreParts = PreParts(netqasmVersion: (int, int), appId: int, commands: seq<ProtoCommand>)

  /**
   * `_create_subroutine(preamble_data, body_lines)`: every body line becomes
   * a command (the first bad line raises), then the NETQASM argument is
   * read as the version and the APPID argument as an integer.
   */
  function CreateSpec(d: PreambleData, lines: seq<string>): (r: Result<PreParts>)
  {
    var commands :- AllOk(BodyResults(lines));
    var versionText :- PreambleArg(d, PREAMBLE_NETQASM);
    var version :- TextValues.ParseNetqasmVersion(versionText);
    var appIdText :- PreambleArg(d, PREAMBLE_APPID);
    var appId :- StringUtil.PyInt(appIdText);
    Ok(PreParts(version, appId, commands))
  }

  /** The loop of `_create_subroutine`: one command per body line, in order. */
  method CreateCommands(lines: seq<string>) returns (r: Result<seq<ProtoCommand>>)
    ensures r == AllOk(BodyResults(lines))
  {
    ghost var rs := BodyResults(lines);
    var commands: seq<ProtoCommand> := [];
    for i := 0 to |lines|
      invariant AllOk(rs[..i]) == Ok(commands)
    {
      var command := TextValues.ParseBodyLine(lines[i]);
      if command.Err? {
        AllOkFails(rs, i);
        return Err(command.error);
      }
      AllOkStep(rs, i, commands, command.value);
      commands := commands + [command.value];
    }
    assert rs[..|lines|] == rs;
    return Ok(commands);
  }

  /** The created subroutine has the parsed parts and, being built without an argument list, the template names as arguments. */
  method CreateSubroutine(d: PreambleData, lines: seq<string>) returns (r: Result<ProtoSubroutine>)
    ensures r.Ok? <==> CreateSpec(d, lines).Ok?
    ensures r.Err? ==> r.error == CreateSpec(d, lines).error
    ensures r.Ok? ==> (var parts := CreateSpec(d, lines).value;
      fresh(r.value) && r.value.netqasmVersion == parts.netqasmVersion && r.value.appId == Some(parts.appId) &&
      r.value.commands == parts.commands && r.value.arguments == TemplateNames(parts.commands))
  {
    var commands := CreateCommands(lines);
    if commands.Err? {
      return Err(commands.error);
    }
    var versionText := PreambleArg(d, PREAMBLE_NETQASM);
    if versionText.Err? {
      return Err(versionText.error);
    }
    var version := TextValues.ParseNetqasmVersion(versionText.value);
    if version.Err? {
      return Err(version.error);
    }
    var appIdText := PreambleArg(d, PREAMBLE_APPID);
    if appIdText.Err? {
      return Err(appIdText.error);
    }
    var appId := StringUtil.PyInt(appIdText.value);
    if appId.Err? {
      return Err(appId.error);
    }
    var p := new ProtoSubroutine(Some(commands.value), None, version.value, Some(appId.value));
    return Ok(p);
  }

  // ---------------------------------------------------------------------
  // parse_text_presubroutine

  /** The preamble lines read, the macros applied to the body lines, the commands created. */
  function FromSections(preamble: seq<string>, body: seq<string>): (r: Result<PreParts>)
  {
    var d :- ParsePreambleSpec(preamble);
    DefinesPairs(preamble, d);
    CreateSpec(d, ApplyMacrosSpec(body, Lookup(d, PREAMBLE_DEFINE)))
  }

  /** `parse_text_presubroutine(text)`: split the text into preamble and body, then read both. */
  function PresubroutineSpec(text: string): (r: Result<PreParts>)
  {
    var parts :- SplitPreambleBodySpec(text);
    FromSections(parts.0, parts.1)
  }

  lemma DefinesPairs(lines: seq<string>, d: PreambleData)
    requires ParsePreambleSpec(lines) == Ok(d)
    ensures forall k :: 0 <= k < |Lookup(d, PREAMBLE_DEFINE)| ==> |Lookup(d, PREAMBLE_DEFINE)[k]| == 2
  {
    DefinesArePairs(lines);
  }

  method PresubroutineFromSections(preamble: seq<string>, body: seq<string>) returns (r: Result<ProtoSubroutine>)
    ensures r.Ok? <==> FromSections(preamble, body).Ok?
    ensures r.Err? ==> r.error == FromSections(preamble, body).error
    ensures r.Ok? ==> (var parts := FromSections(preamble, body).value;
      fresh(r.value) && r.value.netqasmVersion == parts.netqasmVersion && r.value.appId == Some(parts.appId) &&
      r.value.commands == parts.commands)
  {
    var d := ParsePreamble(preamble);
    if d.Err? {
      return Err(d.error);
    }
    DefinesPairs(preamble, d.value);
    var bodyLines := ApplyMacros(body, Lookup(d.value, PREAMBLE_DEFINE));
    r := CreateSubroutine(d.value, bodyLines);
  }

  method ParseTextPresubroutine(text: string) returns (r: Result<ProtoSubroutine>)
    ensures r.Ok? <==> PresubroutineSpec(text).Ok?
    ensures r.Err? ==> r.error == PresubroutineSpec(text).error
    ensures r.Ok? ==> (var parts := PresubroutineSpec(text).value;
      fresh(r.value) && r.value.netqasmVersion == parts.netqasmVersion && r.value.appId == Some(parts.appId) &&
      r.value.commands == parts.commands)
  {
    var split := SplitPreambleBody(text);
    if split.Err? {
      return Err(split.error);
    }
    r := PresubroutineFromSections(split.value.0, split.value.1);
  }

  // ---------------------------------------------------------------------
  // _build_subroutine

  /**
   * One command of `_build_subroutine`: it must be an `ICmd` (else an
   * AssertionError), its instruction's name is looked up in the flavour
   * and the class built from the operands; the line number is kept.
   */
  function BuildCommand(fl: Flavour, c: ProtoCommand): (r: Result<Instr>)
    ensures c.BranchLabel? ==> r == Fail(AssertionError)
    ensures r.Ok? ==> (c.ICmd? && r.value.Cmd? && Mnemonic(r.value.op) == InstructionToString(c.instruction) &&
      Registered(fl, r.value.op) && r.value.lineno == (if c.lineno.None? then None else Some(c.lineno.value as int)) &&
      |r.value.operands| == |c.operands| && |r.value.operands| == Arity(r.value.op) &&
      forall j :: 0 <= j < |c.operands| ==> r.value.operands[j] == Wrap(c.operands[j]))
    ensures c.ICmd? && GetInstrByName(fl, InstructionToString(c.instruction)).Err? ==> r == Fail(KeyError)
  {
    if !c.ICmd? then Fail(AssertionError)
    else
      var op :- GetInstrByName(fl, InstructionToString(c.instruction));
      var instr :- FromOperands(op, c.operands);
      Ok(Cmd(instr.op, instr.operands, if c.lineno.None? then None else Some(c.lineno.value as int)))
  }

  function BuildResults(fl: Flavour, cs: seq<ProtoCommand>): (rs: seq<Result<Instr>>)
    ensures |rs| == |cs|
  {
    seq(|cs|, k requires 0 <= k < |cs| => BuildCommand(fl, cs[k]))
  }

  /** The subroutine `_build_subroutine` returns: the version, the app id and one instruction per command. */
  function BuildSpec(version: (int, int), appId: int, cs: seq<ProtoCommand>, fl: Flavour): (r: Result<Subroutine>)
  {
    var commands :- AllOk(BuildResults(fl, cs));
    Ok(Subroutine(version, appId, commands))
  }

  /** A built subroutine keeps the version and app id and has one instruction per command, built from it. */
  lemma BuiltShape(version: (int, int), appId: int, cs: seq<ProtoCommand>, fl: Flavour)
    requires BuildSpec(version, appId, cs, fl).Ok?
    ensures var s := BuildSpec(version, appId, cs, fl).value;
      s.netqasmVersion == version && s.appId == appId && |s.commands| == |cs| &&
      forall k :: 0 <= k < |cs| ==> BuildResults(fl, cs)[k] == Ok(s.commands[k])
  {
  }

  /** Every instruction of a built subroutine has its class's fields, so the subroutine can be encoded. */
  lemma BuiltHasClassFields(version: (int, int), appId: int, cs: seq<ProtoCommand>, fl: Flavour)
    requires BuildSpec(version, appId, cs, fl).Ok?
    ensures HasClassFields(BuildSpec(version, appId, cs, fl).value)
  {
    var rs := BuildResults(fl, cs);
    var s := BuildSpec(version, appId, cs, fl).value;
    forall k | 0 <= k < |s.commands|
      ensures s.commands[k].Cmd? && |s.commands[k].operands| == Arity(s.commands[k].op)
    {
      assert rs[k] == BuildCommand(fl, cs[k]);
    }
  }

  /** A label left in the commands makes the build fail with an AssertionError. */
  lemma BuildRejectsLabels(version: (int, int), appId: int, cs: seq<ProtoCommand>, fl: Flavour, k: nat)
    requires k < |cs| && cs[k].BranchLabel?
    ensures BuildSpec(version, appId, cs, fl).Err?
  {
    var rs := BuildResults(fl, cs);
    assert rs[k] == Fail(AssertionError);
  }

  /**
   * `_build_subroutine(pre_subroutine, flavour)`. The subroutine's app id is
   * declared an `int`; a proto-subroutine from the text parser always has one.
   */
  method BuildSubroutine(p: ProtoSubroutine, fl: Flavour) returns (r: Result<Subroutine>)
    requires p.appId.Some?
    ensures r == BuildSpec(p.netqasmVersion, p.appId.value, p.commands, fl)
  {
    ghost var rs := BuildResults(fl, p.commands);
    var commands: seq<Instr> := [];
    for i := 0 to |p.commands|
      invariant AllOk(rs[..i]) == Ok(commands)
    {
      var command := BuildCommand(fl, p.commands[i]);
      if command.Err? {
        AllOkFails(rs, i);
        return Err(command.error);
      }
      AllOkStep(rs, i, commands, command.value);
      commands := commands + [command.value];
    }
    assert rs[..|p.commands|] == rs;
    return Ok(Subroutine(p.netqasmVersion, p.appId.value, commands));
  }

  // ---------------------------------------------------------------------
  // assemble_subroutine

  /** Which passes `assemble_subroutine` runs. */
  datatype Passes = Passes(assignBranchLabels: bool, makeArgsOperands: bool, replaceConstants: bool)

  const AllPasses := Passes(true, true, true)

  /** `_assign_branch_labels` on a command list. */
  function AssignedLabels(cs: seq<ProtoCommand>): (r: Result<seq<ProtoCommand>>)
  {
    var labels :- LabelMap(cs);
    Ok(Resolved(ICmdsOf(cs), labels))
  }

  /** The commands after the chosen passes, in the order `assemble_subroutine` runs them. */
  function PassedCommands(cs: seq<ProtoCommand>, passes: Passes): (r: Result<seq<ProtoCommand>>)
  {
    var withArgs := if passes.makeArgsOperands then ArgsAsOperands(cs) else cs;
    var replaced :- if passes.replaceConstants then ReplacedConstants(withArgs) else Ok(withArgs);
    if passes.assignBranchLabels then AssignedLabels(replaced) else Ok(replaced)
  }

  /** The flavour used: vanilla unless one is given. */
  function FlavourOrVanilla(flavour: Option<Flavour>): (fl: Flavour)
    ensures flavour.Some? ==> fl == flavour.value
    ensures flavour.None? ==> fl == VanillaFlavour
  {
    if flavour.None? then VanillaFlavour else flavour.value
  }

  function AssembleSpec(version: (int, int), appId: int, cs: seq<ProtoCommand>, passes: Passes, flavour: Option<Flavour>): (r: Result<Subroutine>)
  {
    var commands :- PassedCommands(cs, passes);
    BuildSpec(version, appId, commands, FlavourOrVanilla(flavour))
  }

  /**
   * `assemble_subroutine(pre_subroutine, ...)`: the chosen passes update
   * the proto-subroutine in place, then it is built under the flavour.
   */
  method AssembleSubroutine(p: ProtoSubroutine, passes: Passes, flavour: Option<Flavour>) returns (r: Result<Subroutine>)
    requires p.appId.Some?
    modifies p
    ensures r == AssembleSpec(old(p.netqasmVersion), old(p.appId.value), old(p.commands), passes, flavour)
  {
    ghost var cs := p.commands;
    if passes.makeArgsOperands {
      MakeArgsOperands(p);
    }
    if passes.replaceConstants {
      var replaced := ReplaceConstants(p.commands);
      if replaced.Err? {
        return Err(replaced.error);
      }
      p.commands := replaced.value;
    }
    if passes.assignBranchLabels {
      var labelled := AssignBranchLabels(p);
      if labelled.Err? {
        return Err(labelled.error);
      }
    }
    r := BuildSubroutine(p, FlavourOrVanilla(flavour));
  }

  // ---------------------------------------------------------------------
  // parse_text_subroutine

  function ParseTextSubroutineSpec(text: string, passes: Passes, flavour: Option<Flavour>): (r: Result<Subroutine>)
  {
    var parts :- PresubroutineSpec(text);
    AssembleSpec(parts.netqasmVersion, parts.appId, parts.commands, passes, flavour)
  }

  /** `parse_text_subroutine(text, ...)`: parse the text, then assemble it. */
  method ParseTextSubroutine(text: string, passes: Passes, flavour: Option<Flavour>) returns (r: Result<Subroutine>)
    ensures r == ParseTextSubroutineSpec(text, passes, flavour)
  {
    var pre := ParseTextPresubroutine(text);
    if pre.Err? {
      return Err(pre.error);
    }
    r := AssembleSubroutine(pre.value, passes, flavour);
  }
}
