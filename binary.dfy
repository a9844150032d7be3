// `netqasm/lang/parsing/binary.py`: decoding a subroutine from its bytes,
// one 7-byte command at a time, through a flavour's id map.

module Binary {
  import opened Wrappers
  import opened Encoding
  import opened Instructions
  import opened Flavour
  import opened Subroutine

  /**
   * `deserialize_command`: the class is the one the flavour registers for the
   * first byte (KeyError when there is none), which then decodes the bytes.
   */
  function DeserializeCommand(fl: Flavour, raw: seq<Byte>): (r: Result<Instr>)
    requires |raw| == COMMAND_BYTES
    ensures r.Ok? ==> r.value.Cmd? && OpId(r.value.op) == raw[0] && Registered(fl, r.value.op) && r.value.lineno == None
    ensures r.Ok? ==> |r.value.operands| == Arity(r.value.op)
    ensures GetInstrById(fl, raw[0]).Err? ==> r == Fail(KeyError)
  {
    var op :- GetInstrById(fl, raw[0]);
    Deserialize(op, raw)
  }

  /** The commands of `data`, 7 bytes each, in order. */
  function DeserializeCommands(fl: Flavour, data: seq<Byte>): (r: Result<seq<Instr>>)
    requires |data| % COMMAND_BYTES == 0
    ensures r.Ok? ==> |r.value| == |data| / COMMAND_BYTES
    ensures r.Ok? ==> forall k :: 0 <= k < |r.value| ==> r.value[k].Cmd? && |r.value[k].operands| == Arity(r.value[k].op)
    decreases |data|
  {
    if data == [] then Ok([])
    else
      WholeCommandsStep(|data|);
      var head :- DeserializeCommand(fl, data[..COMMAND_BYTES]);
      var tail :- DeserializeCommands(fl, data[COMMAND_BYTES..]);
      Ok([head] + tail)
  }

  lemma WholeCommandsStep(n: nat)
    requires n > 0 && n % COMMAND_BYTES == 0
    ensures n >= COMMAND_BYTES && (n - COMMAND_BYTES) % COMMAND_BYTES == 0
    ensures (n - COMMAND_BYTES) / COMMAND_BYTES == n / COMMAND_BYTES - 1
  {
  }

  lemma OneMoreCommand(n: nat)
    requires n % COMMAND_BYTES == 0
    ensures (COMMAND_BYTES + n) % COMMAND_BYTES == 0
  {
  }

  /**
   * `deserialize_subroutine(raw)`: the first METADATA_BYTES bytes are the
   * version and app id (too few raise ValueError, as `from_buffer_copy`
   * does); the rest must be a whole number of commands, else ValueError.
   */
  function DeserializeSubroutine(fl: Flavour, raw: seq<Byte>): (r: Result<Subroutine>)
    ensures |raw| < METADATA_BYTES ==> r == Fail(ValueError)
    ensures |raw| >= METADATA_BYTES && (|raw| - METADATA_BYTES) % COMMAND_BYTES != 0 ==> r == Fail(ValueError)
    ensures r.Ok? ==> |r.value.commands| == (|raw| - METADATA_BYTES) / COMMAND_BYTES
    ensures r.Ok? ==> var m := DecodeMetadata(raw[..METADATA_BYTES]);
      r.value.netqasmVersion == (m.major, m.minor) && r.value.appId == m.appId
    ensures r.Ok? ==> HasClassFields(r.value)
  {
    if |raw| < METADATA_BYTES then Fail(ValueError)
    else
      var m := DecodeMetadata(raw[..METADATA_BYTES]);
      var data := raw[METADATA_BYTES..];
      if |data| % COMMAND_BYTES != 0 then Fail(ValueError)
      else
        var commands :- DeserializeCommands(fl, data);
        Ok(Subroutine((m.major, m.minor), m.appId, commands))
  }

  /** `deserialize(data, flavour)`: the vanilla flavour unless another is given. */
  function DeserializeBytes(data: seq<Byte>, flavour: Option<Flavour>): (r: Result<Subroutine>)
    ensures flavour.None? ==> r == DeserializeSubroutine(VanillaFlavour, data)
    ensures flavour.Some? ==> r == DeserializeSubroutine(flavour.value, data)
  {
    DeserializeSubroutine(if flavour.None? then VanillaFlavour else flavour.value, data)
  }

  /** A command the flavour can look up again by its id, whose operands fit, with no line number. */
  predicate Decodable(fl: Flavour, i: Instr)
  {
    Fits(i) && i.lineno == None && ShapeLayout(ShapeOf(i.op)).Some? && GetInstrById(fl, OpId(i.op)) == Ok(i.op)
  }

  /** Decoding a command followed by whole commands decodes the first, then the rest. */
  lemma DeserializeCommandsCons(fl: Flavour, head: seq<Byte>, tail: seq<Byte>)
    requires |head| == COMMAND_BYTES && |tail| % COMMAND_BYTES == 0
    ensures (COMMAND_BYTES + |tail|) % COMMAND_BYTES == 0
    ensures DeserializeCommands(fl, head + tail) ==
      (var h := DeserializeCommand(fl, head);
       if h.Err? then Err(h.error)
       else var t := DeserializeCommands(fl, tail); if t.Err? then Err(t.error) else Ok([h.value] + t.value))
  {
    OneMoreCommand(|tail|);
    var data := head + tail;
    assert data[..COMMAND_BYTES] == head;
    assert data[COMMAND_BYTES..] == tail;
  }

  /** One decodable command: its 7 bytes decode to it again. */
  lemma CommandRoundTrip(fl: Flavour, c: Instr)
    requires Decodable(fl, c)
    ensures Serialize(c).Ok? && |Serialize(c).value| == COMMAND_BYTES
    ensures DeserializeCommand(fl, Serialize(c).value) == Ok(c)
  {
    SerializeRoundTrip(c);
  }

  /** All commands decodable: each has exactly its class's fields. */
  predicate AllDecodable(fl: Flavour, cs: seq<Instr>)
  {
    forall k :: 0 <= k < |cs| ==> Decodable(fl, cs[k])
  }

  /** The bytes of decodable commands are whole commands that decode to them again. */
  lemma {:induction false} CommandsRoundTrip(fl: Flavour, cs: seq<Instr>)
    requires AllDecodable(fl, cs)
    ensures forall k :: 0 <= k < |cs| ==> (cs[k].Cmd? ==> |cs[k].operands| == Arity(cs[k].op))
    ensures CommandsBytes(cs).Ok?
    ensures |CommandsBytes(cs).value| % COMMAND_BYTES == 0
    ensures DeserializeCommands(fl, CommandsBytes(cs).value) == Ok(cs)
  {
    if cs == [] {
      assert CommandsBytes(cs) == Ok([]);
    } else {
      assert forall k :: 0 <= k < |cs[1..]| ==> cs[1..][k] == cs[k + 1];
      CommandsRoundTrip(fl, cs[1..]);
      CommandsRoundTripStep(fl, cs[0], cs[1..]);
      assert [cs[0]] + cs[1..] == cs;
    }
  }

  /** One more decodable command in front keeps the round trip. */
  lemma CommandsRoundTripStep(fl: Flavour, c: Instr, rest: seq<Instr>)
    requires Decodable(fl, c)
    requires forall k :: 0 <= k < |rest| ==> (rest[k].Cmd? ==> |rest[k].operands| == Arity(rest[k].op))
    requires CommandsBytes(rest).Ok? && |CommandsBytes(rest).value| % COMMAND_BYTES == 0
    requires DeserializeCommands(fl, CommandsBytes(rest).value) == Ok(rest)
    ensures forall k :: 0 <= k < |[c] + rest| ==> (([c] + rest)[k].Cmd? ==> |([c] + rest)[k].operands| == Arity(([c] + rest)[k].op))
    ensures CommandsBytes([c] + rest).Ok?
    ensures |CommandsBytes([c] + rest).value| % COMMAND_BYTES == 0
    ensures DeserializeCommands(fl, CommandsBytes([c] + rest).value) == Ok([c] + rest)
  {
    CommandRoundTrip(fl, c);
    var cs := [c] + rest;
    assert cs[1..] == rest;
    var head := Serialize(c).value;
    var tail := CommandsBytes(rest).value;
    assert CommandsBytes(cs) == Ok(head + tail);
    assert |head + tail| == COMMAND_BYTES + |tail|;
    DeserializeCommandsCons(fl, head, tail);
  }

  /**
   * Decoding the bytes of a subroutine gives it back, when its version
   * and app id fit their C widths and every command is decodable under
   * the flavour (no debug instructions, no line numbers).
   */
  lemma SubroutineRoundTrip(fl: Flavour, s: Subroutine)
    requires MetadataFits(MetadataOf(s))
    requires AllDecodable(fl, s.commands)
    ensures HasClassFields(s) && ToBytes(s).Ok?
    ensures DeserializeSubroutine(fl, ToBytes(s).value) == Ok(s)
  {
    CommandsRoundTrip(fl, s.commands);
    var m := EncodeMetadata(MetadataOf(s));
    var body := CommandsBytes(s.commands).value;
    var raw := ToBytes(s).value;
    assert raw == m + body;
    assert raw[..METADATA_BYTES] == m && raw[METADATA_BYTES..] == body;
    MetadataRoundTrip(MetadataOf(s));
  }

  /** Under the vanilla flavour every registered class with an encoding is decodable. */
  lemma VanillaDecodable(i: Instr)
    requires Fits(i) && i.lineno == None && ShapeLayout(ShapeOf(i.op)).Some? && Registered(VanillaFlavour, i.op)
    ensures Decodable(VanillaFlavour, i)
  {
    VanillaLookups(i.op);
  }
}
