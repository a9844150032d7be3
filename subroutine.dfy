// `netqasm/lang/subroutine.py`: a subroutine of instruction objects, its
// length, its C structures and its bytes.

module Subroutine {
  import opened Wrappers
  import opened Encoding
  import opened StringUtil
  import opened Instructions

  datatype Subroutine = Subroutine(netqasmVersion: (int, int), appId: int, commands: seq<Instr>)

  /** Every instruction object holds exactly the fields of its class. */
  predicate HasClassFields(s: Subroutine)
  {
    forall k :: 0 <= k < |s.commands| ==> (s.commands[k].Cmd? ==> |s.commands[k].operands| == Arity(s.commands[k].op))
  }

  /** `len(s)`: the number of commands. */
  function Length(s: Subroutine): (n: nat)
    ensures n == |s.commands|
    ensures n >= EncodedCount(s.commands)
  {
    |s.commands|
  }

  function MetadataOf(s: Subroutine): Metadata
  {
    Metadata(s.netqasmVersion.0, s.netqasmVersion.1, s.appId)
  }

  /** `b"".join(command.serialize() ...)`: the bytes of the commands, in order. */
  function CommandsBytes(cs: seq<Instr>): (r: Result<seq<Byte>>)
    requires forall k :: 0 <= k < |cs| ==> (cs[k].Cmd? ==> |cs[k].operands| == Arity(cs[k].op))
  {
    if cs == [] then Ok([])
    else
      var head :- Serialize(cs[0]);
      var tail :- CommandsBytes(cs[1..]);
      Ok(head + tail)
  }

  /** `bytes(s)`: the metadata structure followed by each command's structure. */
  function ToBytes(s: Subroutine): (r: Result<seq<Byte>>)
    requires HasClassFields(s)
    ensures r.Ok? ==> |r.value| >= METADATA_BYTES && r.value[..METADATA_BYTES] == EncodeMetadata(MetadataOf(s))
    ensures r.Ok? <==> CommandsBytes(s.commands).Ok?
  {
    var body :- CommandsBytes(s.commands);
    var m := EncodeMetadata(MetadataOf(s));
    assert (m + body)[..METADATA_BYTES] == m;
    Ok(m + body)
  }

  /** The number of commands that are not debug instructions. */
  function EncodedCount(cs: seq<Instr>): (n: nat)
    ensures n <= |cs|
  {
    if cs == [] then 0 else (if cs[0].Cmd? then 1 else 0) + EncodedCount(cs[1..])
  }

  /** Each real command takes COMMAND_BYTES bytes and a debug instruction none. */
  lemma {:induction false} CommandsBytesLength(cs: seq<Instr>)
    requires forall k :: 0 <= k < |cs| ==> (cs[k].Cmd? ==> |cs[k].operands| == Arity(cs[k].op))
    ensures CommandsBytes(cs).Ok? ==> |CommandsBytes(cs).value| == COMMAND_BYTES * EncodedCount(cs)
  {
    if cs != [] {
      CommandsBytesLength(cs[1..]);
    }
  }

  /** A command list encodes exactly when every command does. */
  lemma {:induction false} CommandsBytesOk(cs: seq<Instr>)
    requires forall k :: 0 <= k < |cs| ==> (cs[k].Cmd? ==> |cs[k].operands| == Arity(cs[k].op))
    ensures CommandsBytes(cs).Ok? <==> forall k :: 0 <= k < |cs| ==> Serialize(cs[k]).Ok?
  {
    if cs != [] {
      CommandsBytesOk(cs[1..]);
      assert forall k :: 1 <= k < |cs| ==> cs[1..][k - 1] == cs[k];
    }
  }

  /** `bytes(s)` is METADATA_BYTES plus 7 for each command that is not a debug instruction. */
  lemma BytesLength(s: Subroutine)
    requires HasClassFields(s)
    requires ToBytes(s).Ok?
    ensures |ToBytes(s).value| == METADATA_BYTES + COMMAND_BYTES * EncodedCount(s.commands)
  {
    CommandsBytesLength(s.commands);
  }

  /** `str(s)`: a header, then one line per command, "# text" for a debug instruction. */
  function SubroutineText(s: Subroutine): string
  {
    "Subroutine (netqasm_version=(" + IntToString(s.netqasmVersion.0) + ", " + IntToString(s.netqasmVersion.1)
      + "), app_id=" + IntToString(s.appId) + "):\n" + " LN | HLN | CMD\n" + CommandLines(s.commands, 0)
  }

  /** The command lines, the first numbered `start`. */
  function CommandLines(cs: seq<Instr>, start: nat): string
  {
    if cs == [] then "" else CommandLine(cs[0], start) + CommandLines(cs[1..], start + 1)
  }

  /** The line of command number `i`: its index in a column of width 4 and its debug text, or "# text". */
  function CommandLine(c: Instr, i: nat): (line: string)
    ensures c.Debug? ==> line == "# " + c.text + "\n"
    ensures c.Cmd? ==> line == RSpaces(NatToString(i), 4) + " " + DebugStr(c) + "\n"
  {
    if c.Debug? then "# " + c.text + "\n" else RSpaces(NatToString(i), 4) + " " + DebugStr(c) + "\n"
  }

  /** There is one line per command. */
  lemma {:induction false} OneLinePerCommand(cs: seq<Instr>, start: nat)
    ensures PyStr.Count(CommandLines(cs, start), '\n') >= |cs|
  {
    if cs != [] {
      OneLinePerCommand(cs[1..], start + 1);
      var line := CommandLine(cs[0], start);
      assert line[|line| - 1] == '\n';
      CountAtLeastLast(line);
      CountConcat(line, CommandLines(cs[1..], start + 1), '\n');
    }
  }

  lemma CountAtLeastLast(s: string)
    requires |s| > 0 && s[|s| - 1] == '\n'
    ensures PyStr.Count(s, '\n') >= 1
  {
    CountConcat(s[..|s| - 1], ['\n'], '\n');
    assert s[..|s| - 1] + ['\n'] == s;
  }

  lemma {:induction false} CountConcat(a: string, b: string, c: char)
    ensures PyStr.Count(a + b, c) == PyStr.Count(a, c) + PyStr.Count(b, c)
  {
    if a == [] {
      assert a + b == b;
    } else {
      CountConcat(a[1..], b, c);
      assert (a + b)[1..] == a[1..] + b;
    }
  }
}
