# NetQASM core in Dafny

A model of the core of NetQASM, the instruction set and SDK for programs that run on quantum network nodes. It covers:

- the instruction set: opcodes, operands, flavours, instruction families and their ids and mnemonics (`netqasm/lang/instr`, `netqasm/lang/operand.py`);
- the binary encoding of commands, addresses and registers as C structures (`netqasm/lang/encoding.py`, `netqasm/lang/subroutine.py`), with encode/decode round trips;
- the text front end: line splitting, the preamble, variable names, constants, branch labels and address/register parsing (`netqasm/lang/parsing/text.py`, `netqasm/util/string.py`), up to a subroutine;
- the intermediate representation of instructions and of generic instruction names (`netqasm/lang/ir.py`);
- shared memory: register groups, arrays and the per-app memories (`netqasm/sdk/shared_memory.py`, `netqasm/backend/executor.py`);
- the executor as a value-level machine (`Vm`, `VmRun`, `VmEpr`), a heap class that drives it (`Executors.Executor`), and worked programs;
- the back-end messages and the QLink request/response records (`netqasm/backend/messages.py`, `netqasm/qlink_compat.py`);
- the SDK: ID allocators, the memory manager and qubits, the builder and its if/loop lowering, futures, EPR request building, EPR sockets and the app-id bookkeeping of connections (`netqasm/sdk/*`);
- the NV compiler, which turns vanilla gates into NV rotations and fixes branch targets (`netqasm/sdk/compiling.py`), together with a Bloch-vector semantics of the single-qubit rotations it emits (`NvSemantics`).

Python errors are values: every operation that can raise in the source returns a `Result` whose error names the Python exception (`Wrappers.Error`). Integer widths are written out where the source packs values into C structures. Some behaviour of netqasm's code that the model keeps as written:

- the builder lowers an `if` statement by flipping the branch condition and jumping to an exit label;
- netqasm encodes a rotation angle `(n, d)`, meaning n·π/2^d, as given, without reducing it to lowest terms;
- `breakpoint` has no binary layout in `encoding.py`, so serializing it is an error;
- the text parser raises IndexError, not a syntax error, when the `NETQASM` or `APPID` preamble line is missing.

Four defects listed under "## Findings" are modelled twice, as written and corrected, and the operations that use them run on the corrected definition. Each of these is named at the head of a line under "## Left out": the s and t gate tables of the NV compiler, the bare `#` preamble line, the `if_ez`/`if_nz` lowering, and the reading of a returned array.

The modules follow the source files: one Dafny module per source file, or per part of a large file. `Seqs`, `PyStr` and `Wrappers` are shared helpers on sequences, Python string methods and results.

## Model

| member | source | states |
|---|---|---|
| Encoding.UIntRoundTrip | netqasm/lang/encoding.py:24-35 | reading back an n-byte little-endian ctypes field gives the stored value reduced mod 256^n |
| Encoding.UIntBytesOfValue | netqasm/lang/encoding.py:24-35 | writing back the value of n bytes reproduces those bytes, so the field encoding is onto |
| Encoding.WrapInt32 | netqasm/lang/encoding.py:24-25 | a `c_int32` holds the two's-complement wrap of what is assigned to it: in range, and equal to it modulo 2^32 |
| Encoding.Int32RoundTrip | netqasm/lang/encoding.py:24-25 | the 4-byte INTEGER field reads back the wrapped value, and exactly the value on the signed 32-bit range |
| Encoding.UInt16RoundTrip | netqasm/lang/encoding.py:7-8 | the 2-byte APP_ID field reads back the value mod 2^16, exactly on the 16-bit range |
| Encoding.RegisterByte | netqasm/lang/encoding.py:37-39 | the register bitfield byte keeps the bank in its low 2 bits and the index mod 16 in the next 4, with the top 2 bits zero (with `encoding.py` lines 83-88) |
| Encoding.RegisterByteRoundTrip | netqasm/lang/encoding.py:72-88 | a register byte decodes to its bank and to its index mod 16, and exactly to its index when the index is below 16 |
| Encoding.MetadataRoundTrip | netqasm/lang/encoding.py:7-18 | the 4-byte metadata (two version bytes, a 2-byte app id) decodes to what was encoded whenever the fields fit their widths |
| Encoding.EncodeOptionalInt | netqasm/lang/encoding.py:46-61 | `OptionalInt(None)` is tag 0 with value 0, an int is tag 1 followed by its 32-bit value |
| Encoding.OptionalIntValue | netqasm/lang/encoding.py:63-69 | `OptionalInt.value()`: tag 0 reads as None, tag 1 as the stored int, any other tag raises TypeError |
| Encoding.OptionalIntRoundTrip | netqasm/lang/encoding.py:46-69 | decoding an encoded optional int gives it back, and the raw `value` field of None is 0 |
| Encoding.PaddingBytes | netqasm/lang/encoding.py:127-140 | `add_padding` pads the id byte and the fields to exactly 7 bytes, and its assertion fails when they already exceed 7 |
| Encoding.AllLayoutsFit | netqasm/lang/encoding.py:143-280 | every command structure of the module fits, so each is exactly COMMAND_BYTES long after padding |
| Operand.RegNameValueOf | netqasm/lang/encoding.py:72-80 | each bank's enum value is its 2-bit code, and `RegisterName(v)` maps it back to the bank |
| Operand.RegNameLetter | netqasm/lang/operand.py:23-33 | each bank's letter is one of the four prefixes, and `RegisterName[letter]` maps it back to the bank |
| Operand.RegNameValueInjective | netqasm/lang/encoding.py:72-80 | two banks with the same enum value are the same bank |
| Operand.RegisterText | netqasm/lang/operand.py:47-48 | `str(register)` is the bank letter followed by the decimal index |
| Operand.RegisterFromStr | netqasm/lang/operand.py:28-53 | `Register.from_str` succeeds exactly on text of at least two characters with a bank prefix, a number after it and an index below 16, and yields that bank and index |
| Operand.RegisterTextRoundTrip | netqasm/lang/operand.py:47-53 | the text of a register whose index is below 16 parses back to the same register |
| Operand.RegisterCStruct | netqasm/lang/operand.py:55-61 | `Register.cstruct` is the bitfield byte holding the bank's code and the index mod 16 |
| Operand.RegisterFromRaw | netqasm/lang/operand.py:63-66 | `Register.from_raw` always yields an index in 0..15 |
| Operand.RegisterRawRoundTrip | netqasm/lang/operand.py:55-66 | `from_raw(cstruct)` gives back every register whose index is in 0..15 |
| Operand.AddressText | netqasm/lang/operand.py:76-77 | `str(address)` is "@" followed by the decimal address |
| Operand.AddressRawRoundTrip | netqasm/lang/operand.py:79-90 | an address reads back from its c_int32 struct wrapped to 32 bits, and exactly when it fits |
| Operand.ArrayEntryCStruct | netqasm/lang/operand.py:101-118 | an entry's struct is the 4 address bytes then the index register byte; an int index fails `_assert_types` with AssertionError |
| Operand.ArrayEntryRawRoundTrip | netqasm/lang/operand.py:101-126 | an entry with a register index below 16 and a 32-bit address reads back exactly from its struct |
| Operand.ArraySliceCStruct | netqasm/lang/operand.py:138-157 | a slice's struct is the 4 address bytes then the start and stop register bytes; an int bound fails `_assert_types` |
| Operand.ArraySliceRawRoundTrip | netqasm/lang/operand.py:138-165 | a slice with register bounds below 16 and a 32-bit address reads back exactly from its struct |
| InstrEnum.EnumAgreesWithClasses | netqasm/lang/instr/instr_enum.py:25-81 | each enum member's value is its class's opcode id and its lower-case name is the class's mnemonic |
| InstrEnum.EnumMembersAreGeneric | netqasm/lang/instr/instr_enum.py:25-81 | the enum has a member for exactly the core classes other than mul, div, rem and breakpoint, and for the vanilla classes |
| InstrEnum.ValueInjective | netqasm/lang/instr/instr_enum.py:25-81 | distinct enum members have distinct values (the enum has no aliases) |
| InstrEnum.ToStringInjective | netqasm/lang/instr/instr_enum.py:193-196 | distinct members have distinct lower-case names |
| InstrEnum.InstructionToString | netqasm/lang/instr/instr_enum.py:193-196 | `instruction_to_string` gives a non-empty name starting with a lower-case letter (the lower-case member name, whose injectivity is stated next) |
| InstrEnum.StringToInstruction | netqasm/lang/instr/instr_enum.py:213-220 | `string_to_instruction` returns the member with that name, and raises ValueError exactly when no member has it |
| InstrEnum.StringRoundTrip | netqasm/lang/instr/instr_enum.py:193-220 | looking up a member's name gives back that member |
| InstrEnum.NameRoundTrip | netqasm/lang/instr/instr_enum.py:193-220 | a name the lookup accepts is the name of the member it returns |
| InstrEnum.FlipBranch | netqasm/lang/instr/instr_enum.py:199-210 | `flip_branch_instr` maps each of the six branches to a different branch and raises ValueError on every other member |
| InstrEnum.FlipInvolution | netqasm/lang/instr/instr_enum.py:199-210 | flipping a branch twice gives it back |
| InstrEnum.FlipIsComplement | netqasm/lang/instr/instr_enum.py:199-210 | the flipped branch is the class whose condition is the logical complement |
| InstrEnum.QubitGatesAreVanilla | netqasm/lang/instr/instr_enum.py:162-185 | the gate lists hold exactly the vanilla gate classes (all vanilla classes but mov) |
| InstrEnum.GroupOf | netqasm/lang/instr/instr_enum.py:232-237 | the structure a member's command class is built on is one whose `_COMMAND_GROUPS` list holds the member |
| InstrEnum.GroupsPartition | netqasm/lang/instr/instr_enum.py:84-159 | every member but MOV is listed under exactly one structure of `_COMMAND_GROUPS`, and MOV under none |
| InstrEnum.ClassName | netqasm/lang/instr/instr_enum.py:223-230 | the generated class name is the instruction name with its first letter capitalised, followed by "Command" |
| InstrEnum.ClassNameInjective | netqasm/lang/instr/instr_enum.py:223-230 | two lower-case names give the same class name only when they are equal |
| InstrEnum.StructNameInjective | netqasm/lang/instr/instr_enum.py:223-230 | distinct members get distinct generated class names |
| InstrEnum.CreateCommandStruct | netqasm/lang/instr/instr_enum.py:223-230 | the generated structure has the member's value as `ID` and derives from the given group structure |
| InstrEnum.CommandStructsComplete | netqasm/lang/instr/instr_enum.py:232-237 | `COMMAND_STRUCTS` has an entry for every member but MOV, on the structure listing it, with `ID` equal to the member's value and so to its class id |
| Instructions.FromOperands | netqasm/lang/instr/base.py:131-135 | `from_operands` succeeds exactly when the arity matches and every operand has an accepted kind; the result keeps the opcode, has no line number, wraps bare ints as Immediates and is well typed; otherwise an AssertionError |
| Instructions.FromOperandsRebuilds | netqasm/lang/instr/core.py:265-280 | rebuilding an instruction from its own operands (Immediates given back as ints) yields the same instruction |
| Instructions.FromOperandsRefusesImmediate | netqasm/lang/instr/base.py:396-400 | the base `from_operands` wraps an int but refuses an Immediate, while set also takes an Immediate |
| Instructions.EncodeField | netqasm/lang/instr/base.py:126-128 | one field's ctypes bytes have the field's width; a missing attribute is an AttributeError |
| Instructions.FieldRoundTrip | netqasm/lang/instr/base.py:120-128 | decoding an encoded field gives back the operand whenever it fits its C width |
| Instructions.FieldsRoundTrip | netqasm/lang/instr/base.py:288-304 | field sequences round-trip through the packed bytes whatever bytes follow them |
| Instructions.DecodeFieldsFit | netqasm/lang/instr/base.py:288-294 | decoded fields always fit their C widths |
| Instructions.Serialize | netqasm/lang/instr/base.py:126-128 | `serialize()` succeeds exactly when the shape has a command structure and every field encodes; success is the id byte, fields and zero padding, exactly COMMAND_BYTES long; a debug instruction gives no bytes |
| Instructions.Deserialize | netqasm/lang/instr/base.py:119-124 | `deserialize_from` succeeds exactly when the shape has a structure, the buffer is long enough and the id byte matches; the result has the class's opcode, no line number, and fitting operands; a wrong id is an AssertionError |
| Instructions.SerializeRoundTrip | netqasm/lang/instr/base.py:119-128 | `deserialize_from(serialize(i)) == i` for every instruction without line number whose operands fit and whose shape is encodable |
| Instructions.BreakpointHasNoEncoding | netqasm/lang/instr/base.py:420-432 | breakpoint serialization and deserialization both fail with AttributeError, because `ImmImmCommand` is not defined in encoding.py |
| Instructions.InstrText | netqasm/lang/instr/base.py:53-55 | `str(instr)` starts with the mnemonic; a debug instruction prints as "# text" |
| Instructions.LinenoText | netqasm/lang/instr/base.py:60-65 | the line-number column is at least 6 characters and ends in a space; no line number prints as "   () " |
| Instructions.DebugStr | netqasm/lang/instr/base.py:57-58 | `debug_str` is the line-number column followed by `str(instr)` |
| Instructions.LinenoColumnWidth | netqasm/lang/instr/base.py:60-65 | a line number below 1000 fills the column exactly: 6 characters |
| Instructions.AliasesAreFields | netqasm/lang/instr/core.py:15-213 | every named property (qreg, regout, line, angle_num, …) refers to an existing field of the right kind; the EPR arrays are the last field |
| Instructions.WritesTo | netqasm/lang/instr/core.py:149-150 | `writes_to()` is non-empty exactly for set, load, lea, meas and the classical operations, and names their destination register (also core.py:179-180,262-263,292-293,307-308,470-471 and base.py:49-51) |
| Instructions.Complement | netqasm/lang/instr/core.py:341-422 | the complementary branch has the negated `check_condition` on every input and the same arity |
| Instructions.ComplementInvolution | netqasm/lang/instr/core.py:348-422 | complementing a branch twice gives it back |
| Instructions.CoreIds | netqasm/lang/instr/core.py:216-694 | two core instruction classes with the same id are the same class |
| Instructions.VanillaIdsDistinct | netqasm/lang/instr/vanilla.py:13-151 | vanilla gate ids are distinct from each other and from every core id |
| Instructions.NvIdsDistinct | netqasm/lang/instr/nv.py:16-116 | NV gate ids are distinct from each other and from every core id |
| Instructions.CoreMnemonics | netqasm/lang/instr/core.py:216-694 | two core classes with the same mnemonic are the same class |
| Instructions.VanillaMnemonicsDistinct | netqasm/lang/instr/vanilla.py:13-151 | vanilla mnemonics are distinct from each other and from every core mnemonic |
| Instructions.NvMnemonicsDistinct | netqasm/lang/instr/nv.py:16-116 | NV mnemonics are distinct from each other and from every core mnemonic |
| Flavour.TableOfEntries | netqasm/lang/instr/flavour.py:60-64 | a dict built from a class list holds every key, stores each class under its own key, and keeps the last class of a clashing key |
| Flavour.UpdatedTableEntries | netqasm/lang/instr/flavour.py:60-64 | the core table updated with the flavour's classes holds every key of both, stores each class under its own key, and a flavour class wins any clash with a core class |
| Flavour.GetInstrById | netqasm/lang/instr/flavour.py:66-67 | `get_instr_by_id` returns a registered class with that id, the flavour's own when both lists have it; KeyError exactly when no registered class has the id |
| Flavour.GetInstrByName | netqasm/lang/instr/flavour.py:69-70 | `get_instr_by_name` likewise by mnemonic |
| Flavour.CoreListed | netqasm/lang/instr/flavour.py:14-44 | CORE_INSTRUCTIONS holds exactly the core classes other than mul, div and rem |
| Flavour.VanillaListed | netqasm/lang/instr/flavour.py:78-98 | the vanilla flavour's list is exactly the classes of vanilla.py |
| Flavour.NvListed | netqasm/lang/instr/flavour.py:101-114 | the NV flavour's list is the classes of nv.py other than x, y, z and h |
| Flavour.VanillaIdsUnique | netqasm/lang/instr/flavour.py:60-61 | no two classes the vanilla flavour registers share an id, so no registration is shadowed |
| Flavour.VanillaNamesUnique | netqasm/lang/instr/flavour.py:63-64 | no two classes the vanilla flavour registers share a mnemonic |
| Flavour.NvIdsUnique | netqasm/lang/instr/flavour.py:60-61 | no two classes the NV flavour registers share an id |
| Flavour.NvNamesUnique | netqasm/lang/instr/flavour.py:63-64 | no two classes the NV flavour registers share a mnemonic |
| Flavour.VanillaRegisteredIds | netqasm/lang/instr/flavour.py:78-98 | the vanilla flavour registers ids 1..41 and 100 only |
| Flavour.NvRegisteredIds | netqasm/lang/instr/flavour.py:101-114 | the NV flavour registers ids 1..19, 27..40 and 100 only |
| Flavour.VanillaLookups | netqasm/lang/instr/flavour.py:66-70 | under the vanilla flavour every registered class is found again by its id and by its mnemonic |
| Flavour.NvLookups | netqasm/lang/instr/flavour.py:66-70 | under the NV flavour every registered class is found again by its id and by its mnemonic |
| Flavour.VanillaId30 | netqasm/lang/instr/vanilla.py:113-122 | id 30 decodes to cnot under the vanilla flavour |
| Flavour.NvId30 | netqasm/lang/instr/nv.py:87-100 | id 30 decodes to crot_x under the NV flavour |
| Flavour.NvUnknownIds | netqasm/lang/instr/flavour.py:101-114 | ids 20..26 and 41 raise KeyError under the NV flavour |
| Flavour.ArithmeticIdsUnknown | netqasm/lang/instr/flavour.py:14-44 | the ids 200..202 of mul, div and rem raise KeyError under both flavours |
| Subroutine.Length | netqasm/lang/subroutine.py:42-43 | `len(s)` is the number of commands, at least the number that encode to bytes |
| Subroutine.ToBytes | netqasm/lang/subroutine.py:45-55 | `bytes(s)` starts with the encoded metadata and succeeds exactly when every command serializes |
| Subroutine.CommandsBytesLength | netqasm/lang/subroutine.py:53-55 | the command part is COMMAND_BYTES per non-debug command |
| Subroutine.CommandsBytesOk | netqasm/lang/subroutine.py:45-55 | the commands encode exactly when each command's `serialize()` succeeds |
| Subroutine.BytesLength | netqasm/lang/subroutine.py:45-55 | `bytes(s)` is METADATA_BYTES plus 7 bytes per non-debug command |
| Subroutine.CommandLine | netqasm/lang/subroutine.py:32-40 | a command's line in `str(s)` is its index right-aligned in 4 then its `debug_str`; a debug instruction prints "# text" |
| Subroutine.OneLinePerCommand | netqasm/lang/subroutine.py:32-40 | `str(s)` has one line per command |
| Binary.DeserializeCommand | netqasm/lang/parsing/binary.py:49-56 | the class is the one the flavour registers for the first byte (KeyError when none), and it decodes a command with that id and no line number |
| Binary.DeserializeCommands | netqasm/lang/parsing/binary.py:34-41 | the command part decodes to one command per 7 bytes |
| Binary.DeserializeSubroutine | netqasm/lang/parsing/binary.py:24-47 | too short a buffer, or a command part that is not a multiple of 7 bytes, is a ValueError; success has the metadata's version and app id and one command per 7 bytes |
| Binary.DeserializeBytes | netqasm/lang/parsing/binary.py:59-68 | `deserialize` uses the vanilla flavour unless another is given |
| Binary.DeserializeCommandsCons | netqasm/lang/parsing/binary.py:36-41 | decoding a command followed by whole commands is decoding the first, then the rest |
| Binary.CommandRoundTrip | netqasm/lang/parsing/binary.py:49-56 | a decodable command's 7 bytes decode back to it |
| Binary.CommandsRoundTrip | netqasm/lang/parsing/binary.py:30-47 | the bytes of decodable commands are whole commands that decode back to them |
| Binary.SubroutineRoundTrip | netqasm/lang/parsing/binary.py:30-47 | `deserialize(bytes(s)) == s` when version and app id fit their C widths and every command is decodable under the flavour (also netqasm/lang/subroutine.py:45-55) |
| Binary.VanillaDecodable | netqasm/lang/parsing/binary.py:49-56 | under the vanilla flavour every registered class with an encoding is decodable |
| IR.Value | netqasm/lang/ir.py:19-83 | `auto()` numbers the members 1..46 |
| IR.AllListed | netqasm/lang/ir.py:19-83 | the list of members used for iteration holds every member |
| IR.ValueInjective | netqasm/lang/ir.py:19-83 | distinct members have distinct values |
| IR.MemberOfValue | netqasm/lang/ir.py:19-83 | looking up a member's value gives the member back |
| IR.InstructionToString | netqasm/lang/ir.py:97-100 | the lower-cased name is non-empty and starts with a lower-case letter |
| IR.NamesAreNameText | netqasm/lang/ir.py:97-100 | every lower-cased name is made of lower-case letters, digits and `_` only |
| IR.ToStringInjective | netqasm/lang/ir.py:117 | distinct members have distinct names, so `_STRING_TO_INSTRUCTION` loses no member |
| IR.MemberOfName | netqasm/lang/ir.py:117 | looking a member's printed name up gives the member back |
| IR.FindByName | netqasm/lang/ir.py:117 | a name found is the name of what is returned; not found means no listed member has it |
| IR.StringToInstruction | netqasm/lang/ir.py:120-124 | `string_to_instruction` returns a member with that name, and raises ValueError exactly when no member has it |
| IR.StringRoundTrip | netqasm/lang/ir.py:97-124 | `string_to_instruction(instruction_to_string(g)) == g` for every member |
| IR.FlipBranch | netqasm/lang/ir.py:103-114 | `flip_branch_instr` succeeds exactly on the six branches, giving another branch; anything else is a ValueError |
| IR.FlipInvolution | netqasm/lang/ir.py:103-114 | flipping twice gives the branch back, and a unary branch flips to a unary branch |
| IR.NewICmd | netqasm/lang/ir.py:136-146 | `__post_init__` replaces missing args and operands with empty lists and keeps the rest |
| IR.LinenoText | netqasm/lang/ir.py:127-133 | "(n)" or "()" right-aligned to at least 5 characters, then one space |
| IR.DebugText | netqasm/lang/ir.py:152-168 | `debug_str` is the line-number column followed by `str(cmd)` |
| IR.ICmdTextParts | netqasm/lang/ir.py:155-168 | in `str(ICmd)` the first space ends the name and its argument list, the name comes first and the operand text follows the space |
| IR.ICmdText | netqasm/lang/ir.py:155-168 | `str(ICmd)` is the mnemonic, the argument list, one space and the operand text |
| IR.LabelTextParts | netqasm/lang/ir.py:185-190 | a label prints as its name followed by the branch-end mark |
| IR.OperandTemplatesMembers | netqasm/lang/ir.py:231-237 | a name is collected exactly when some operand is a template of that name |
| IR.TemplateNamesAppend | netqasm/lang/ir.py:231-237 | collecting over two command lists in a row is collecting over each in turn |
| IR.TemplateNamesMembers | netqasm/lang/ir.py:231-237 | a name is collected exactly when some ICmd has a template operand of that name |
| IR.SubstituteOperand | netqasm/lang/ir.py:278-282 | the substituted operand is never a template |
| IR.InstantiatedShape | netqasm/lang/ir.py:272-288 | after instantiation only ICmds remain and none holds a template |
| IR.BoundIffNamesBound | netqasm/lang/ir.py:272-288 | instantiation succeeds exactly when the argument map binds every collected template name |
| IR.InstantiateIdempotent | netqasm/lang/ir.py:272-288 | instantiating a second time, with any arguments, changes nothing |
| IR.TemplateFreeFixed | netqasm/lang/ir.py:272-288 | a label-free, template-free command list is left as it is |
| IR.CollectTemplateNames | netqasm/lang/ir.py:230-237 | the constructor's loop collects exactly the template names of the ICmd operands, in order |
| IR.ProtoSubroutine.constructor | netqasm/lang/ir.py:211-237 | missing commands become the empty list and missing arguments the collected template names |
| IR.ProtoSubroutine.Instantiate | netqasm/lang/ir.py:272-288 | success exactly when every template is bound: labels dropped, templates replaced, app id set; otherwise KeyError, app id kept, and the ICmds before the failing one already rewritten in place |
| StringUtil.IsVariableNameAsWritten | netqasm/util/string.py:39-46 | `is_variable_name` as written: IndexError exactly on the empty string (the `variable[0]` access); its Boolean is related to the intended reading by `VariableNameReadings` |
| StringUtil.IsVariableName | netqasm/util/string.py:39-46 | the intended reading: IndexError exactly on the empty string, otherwise true exactly when the name starts with a letter and has only letters, digits and `_` |
| StringUtil.VariableNameReadings | netqasm/util/string.py:44 | the two readings differ exactly on names starting with a letter that use every letter, digit and `_` |
| StringUtil.VariableNameFinding | netqasm/util/string.py:44 | the string of all 63 allowed characters is refused as written and accepted as intended |
| StringUtil.AlphaMembership | netqasm/util/string.py:3-5 | ALPHA_ALL holds exactly the ASCII letters |
| StringUtil.DigitMembership | netqasm/util/string.py:6 | NUM holds exactly the ASCII digits |
| StringUtil.IsNumber | netqasm/util/string.py:49-53 | `is_number`: after one optional leading `-`, a non-empty run of digits |
| StringUtil.PyInt | netqasm/util/string.py:49-53 | `int()` of a string succeeds exactly on the strings `is_number` accepts; otherwise ValueError |
| StringUtil.IntToStringRoundTrip | netqasm/util/string.py:49-53 | the decimal text of every integer is a number that reads back as that integer |
| StringUtil.IntToStringInjective | netqasm/util/string.py:49-53 | distinct integers print differently |
| StringUtil.IsFloatSides | netqasm/util/string.py:56-63 | `is_float` of `a.b`: not both sides empty, and every non-empty side a number (so "1.-5" is accepted) |
| StringUtil.NumberIsNotFloat | netqasm/util/string.py:56-63 | an integer text is never a float text |
| StringUtil.RSpaces | netqasm/util/string.py:66-68 | `rspaces` pads on the left with spaces to at least `min_chars`, ending in the value |
| StringUtil.GroupByWord | netqasm/util/string.py:10-36 | the word loop computes the word splitting of the stripped line with a separator appended, ValueError where a closing string is missing |
| StringUtil.CollectWords | netqasm/util/string.py:19-35 | the `while` loop produces the word list, one word per iteration |
| StringUtil.NextWord | netqasm/util/string.py:20-35 | one iteration takes the next word up to the closing string (which is the end bracket and separator when a bracket opens first) and leaves a shorter rest |
| StringUtil.WordsAreSplit | netqasm/util/string.py:10-36 | without brackets, the words of `x + sep` are `x.split(sep)` |
| StringUtil.GroupByWordSplits | netqasm/util/string.py:10-36 | without brackets, `group_by_word` is `line.strip().split(sep)`, and joining the words back gives the stripped line |
| StringUtil.NoOpenBracketIgnoresBrackets | netqasm/util/string.py:20-27 | a line with no opening bracket is split as if no brackets were given |
| StringUtil.UnclosedBracketRaises | netqasm/util/string.py:31-33 | a line starting with an opening bracket that is never closed raises ValueError |
| TextLines.RemoveComments | netqasm/lang/parsing/text.py:329-331 | the result is the prefix of the line before the first comment mark, and has no comment mark |
| TextLines.PreambleEntryAsWritten | netqasm/lang/parsing/text.py:305-310 | as written, a preamble line is kept unless its stripped text is "#", which `lstrip("#")` can never leave |
| TextLines.PreambleEntry | netqasm/lang/parsing/text.py:305-310 | the intended reading: a line whose stripped text is empty or "#" is ignored, every other kept |
| TextLines.BareMarkerFinding | netqasm/lang/parsing/text.py:305-310 | a lone "#" line gives an empty preamble entry as written, and is skipped as intended |
| TextLines.Classify | netqasm/lang/parsing/text.py:297-316 | a body line is non-empty, has no comment and does not start with "#" |
| TextLines.SplitLine | netqasm/lang/parsing/text.py:303-307 | one step of the loop fails exactly on a preamble line after a body line, with a SyntaxError |
| TextLines.SplitKindsMeaning | netqasm/lang/parsing/text.py:290-316 | the split fails exactly when a preamble line follows a body line; otherwise the preamble and body are those lines in order |
| TextLines.SplitKindsPrefixErr | netqasm/lang/parsing/text.py:303-307 | once the split has failed on a prefix it fails on the whole text |
| TextLines.SplitPreambleBody | netqasm/lang/parsing/text.py:290-316 | the loop computes the split specification of `_split_preamble_body` |
| TextLines.SplitPreambleBodyMeaning | netqasm/lang/parsing/text.py:290-316 | the split of a text fails with SyntaxError exactly when a preamble line is misplaced, and otherwise gives its preamble and body lines |
| TextLines.BodyLinesClean | netqasm/lang/parsing/text.py:295-316 | every body line is non-empty, comment-free and does not start with "#" |
| TextLines.ApplyMacros | netqasm/lang/parsing/text.py:318-326 | the macro loop computes the specification: join, replace `$key` by each stripped value in turn, split |
| TextLines.MacrosKeepLineCount | netqasm/lang/parsing/text.py:318-326 | single-line macros keep the number of body lines |
| TextLines.NoMacrosNoChange | netqasm/lang/parsing/text.py:318-326 | with no macros the body lines come back unchanged |
| TextLines.ReplaceKeepsNewlines | netqasm/lang/parsing/text.py:324-325 | replacing a single-line pattern by a single-line value keeps the newline count |
| TextLines.SplitJoin | netqasm/lang/parsing/text.py:322-326 | splitting the newline-join of single-line parts gives the parts back |
| TextValues.ParseConstant | netqasm/lang/parsing/text.py:160-163 | `_parse_constant` succeeds exactly on number texts, otherwise SyntaxError |
| TextValues.ConstantRoundTrip | netqasm/lang/parsing/text.py:160-163 | the decimal text of an integer parses back to it |
| TextValues.ParseRegister | netqasm/lang/parsing/text.py:219-228 | `parse_register` succeeds exactly when the first letter names a register and the rest is a number; the empty string is an IndexError, other failures SyntaxError |
| TextValues.RegisterRoundTrip | netqasm/lang/parsing/text.py:219-228 | the text of a register parses back to it |
| TextValues.WideRegisterAccepted | netqasm/lang/parsing/text.py:222-228 | the parser accepts "R16", which `Register.from_str` refuses |
| TextValues.ParseValue | netqasm/lang/parsing/text.py:182-202 | a number is a constant, else a register, else (when allowed) a valid label; SyntaxError exactly when none applies, IndexError on the empty string |
| TextValues.RegisterValue | netqasm/lang/parsing/text.py:182-202 | a register's text is read as that register, labels allowed or not |
| TextValues.LabelValue | netqasm/lang/parsing/text.py:196-200 | a valid variable name that is no register is read as a label |
| TextValues.RegisterShadowsLabel | netqasm/lang/parsing/text.py:188-198 | "R0" is a valid label name but is read as a register |
| TextValues.SplitOfBracket | netqasm/lang/parsing/text.py:275-287 | the two parts concatenate to the word and the first has no opening bracket; SyntaxError exactly when a bracket opens but the word does not end with the closing one |
| TextValues.ParseBaseAddress | netqasm/lang/parsing/text.py:253-259 | the address must start with "@" (else SyntaxError) and its value must be an int (a register is a TypeError) |
| TextValues.ParseIndex | netqasm/lang/parsing/text.py:262-272 | an empty index is none; one value or a start:stop pair otherwise, never a label |
| TextValues.ParseAddress | netqasm/lang/parsing/text.py:231-250 | an address without "[" is a plain Address; otherwise an entry or a slice |
| TextValues.AddressRoundTrip | netqasm/lang/parsing/text.py:231-259 | the text of an address parses back to it |
| TextValues.EntryRoundTrip | netqasm/lang/parsing/text.py:231-272 | the text of an array entry parses back to it |
| TextValues.SliceRoundTrip | netqasm/lang/parsing/text.py:231-272 | the text of an array slice parses back to it |
| TextValues.OperandRoundTrip | netqasm/lang/parsing/text.py:175-179 | every printable operand's text parses back to it |
| TextValues.LabelOperandRoundTrip | netqasm/lang/parsing/text.py:175-179 | a valid non-register name is read back as a label operand |
| TextValues.ParseOperands | netqasm/lang/parsing/text.py:166-172 | the loop parses each stripped word in order and stops at the first error |
| TextValues.ParseArgs | netqasm/lang/parsing/text.py:150-157 | empty arguments give an empty list; otherwise each comma-separated part is a constant; SyntaxError otherwise |
| TextValues.ArgsRoundTrip | netqasm/lang/parsing/text.py:150-157 | the printed argument list of an ICmd parses back to the arguments |
| TextValues.ParseNetqasmVersion | netqasm/lang/parsing/text.py:135-142 | succeeds exactly on two dot-separated numbers, otherwise ValueError |
| TextValues.VersionRoundTrip | netqasm/lang/parsing/text.py:135-142 | "major.minor" parses back to the pair |
| TextValues.ParseBodyLine | netqasm/lang/parsing/text.py:104-126 | a line ending in ":" becomes a branch label with a valid name (SyntaxError otherwise); any other line an ICmd without line number |
| TextValues.LabelLineRoundTrip | netqasm/lang/parsing/text.py:104-111 | a label's printed line parses back to the label |
| TextPreamble.InsertKeys | netqasm/lang/parsing/text.py:347 | appending to the `defaultdict` adds a new key at the end and keeps the existing ones |
| TextPreamble.InsertLookup | netqasm/lang/parsing/text.py:347 | appending under a key adds the operands to that key's list only |
| TextPreamble.LookupAt | netqasm/lang/parsing/text.py:347 | with distinct keys each entry is what looking its key up gives |
| TextPreamble.PreambleWords | netqasm/lang/parsing/text.py:338-345 | a preamble line splits into at least one word; group_by_word's ValueError becomes a SyntaxError |
| TextPreamble.CollectLookup | netqasm/lang/parsing/text.py:334-349 | the collected preamble maps each keyword to the operand lists of its lines, in order |
| TextPreamble.CollectKeys | netqasm/lang/parsing/text.py:334-349 | a keyword is a key of the collected preamble exactly when some line starts with it |
| TextPreamble.DefineLines | netqasm/lang/parsing/text.py:377-391 | every DEFINE has exactly two operands (else SyntaxError) and a valid key (else InstrError, or IndexError for an empty key) |
| TextPreamble.DefineLinesFirstError | netqasm/lang/parsing/text.py:377-391 | the error raised is the one of the first bad DEFINE |
| TextPreamble.ValidateEntry | netqasm/lang/parsing/text.py:352-407 | an unknown keyword is an InstrError; NETQASM and APPID need exactly one line (InstrError) of one argument (SyntaxError); duplicate DEFINE keys are an InstrError |
| TextPreamble.ValidatePreamble | netqasm/lang/parsing/text.py:352-364 | the preamble is valid exactly when every entry is; the error is that of the first invalid entry |
| TextPreamble.SplitPreambleLine | netqasm/lang/parsing/text.py:338-345 | the method computes the words of one preamble line |
| TextPreamble.CollectPreamble | netqasm/lang/parsing/text.py:334-347 | the loop stops at the first line that does not split, else collects every line under its keyword |
| TextPreamble.ValidateEntries | netqasm/lang/parsing/text.py:352-364 | the loop over the entries computes the validation of the whole preamble |
| TextPreamble.ParsePreamble | netqasm/lang/parsing/text.py:334-349 | `_parse_preamble` is collection followed by validation |
| TextPreamble.ValidatePrefixFails | netqasm/lang/parsing/text.py:358-364 | once a prefix of the entries is invalid the whole preamble fails with that error |
| TextPreamble.ParsedPreambleMeaning | netqasm/lang/parsing/text.py:334-349 | a parsed preamble maps each keyword to the operand lists of its lines, and every present entry is valid |
| TextPreamble.DefinesArePairs | netqasm/lang/parsing/text.py:377-385 | every DEFINE in a parsed preamble has a key and a value |
| TextPreamble.UnknownKeywordRejected | netqasm/lang/parsing/text.py:358-363 | adding an unknown keyword to a valid preamble makes it fail with InstrError |
| TextPasses.IntOperands | netqasm/lang/parsing/text.py:460-465 | the arguments become integer operands, one each, in order |
| TextPasses.MakeArgsOperands | netqasm/lang/parsing/text.py:460-465 | every ICmd's arguments are moved in front of its operands, in place; version, app id and argument names are kept |
| TextPasses.ArgsOperandsMeaning | netqasm/lang/parsing/text.py:460-465 | each ICmd keeps instruction and line, has no arguments left, and its operands are the arguments as ints followed by the old operands; labels are untouched |
| TextPasses.ArgsOperandsIdempotent | netqasm/lang/parsing/text.py:460-465 | running the pass twice gives what running it once gives |
| TextPasses.GetCurrentRegisters | netqasm/lang/parsing/text.py:554-563 | the loop collects the text of every register operand of every ICmd |
| TextPasses.RegisterTextsMembers | netqasm/lang/parsing/text.py:554-563 | a text is collected exactly when some ICmd has a register operand printing as it |
| TextPasses.LowestFree | netqasm/lang/parsing/text.py:497-503 | the temporary register is the lowest R register neither used in the program nor already taken; RuntimeError exactly when all 16 are taken |
| TextPasses.FreshRegister | netqasm/lang/parsing/text.py:497-503 | the `for … else` search computes the lowest free R register |
| TextPasses.ReplaceIndexSound | netqasm/lang/parsing/text.py:540-549 | a replaced array index is no longer an int; the new set commands write the new temporaries, which are fresh |
| TextPasses.ReplaceOperandSound | netqasm/lang/parsing/text.py:520-549 | replacing one operand adds only fresh temporaries, each written by one inserted set command with the command's line |
| TextPasses.ReplaceOperands | netqasm/lang/parsing/text.py:520-549 | the operand loop keeps the number of operands; RuntimeError when registers run out |
| TextPasses.ReplaceOperandsSound | netqasm/lang/parsing/text.py:520-549 | all set commands inserted for one command write distinct fresh temporaries |
| TextPasses.ReplaceCommand | netqasm/lang/parsing/text.py:514-550 | a label is kept as it is; RuntimeError when registers run out |
| TextPasses.ReplaceInCommand | netqasm/lang/parsing/text.py:519-549 | the per-command loop computes the replacement of its operands |
| TextPasses.ReplaceCommandAt | netqasm/lang/parsing/text.py:514-550 | the set commands go before the rewritten command, which comes last |
| TextPasses.ReplaceConstants | netqasm/lang/parsing/text.py:494-552 | the whole `while` loop, with its in-place inserts, computes the replacement specification |
| TextPasses.ReplaceOperandFree | netqasm/lang/parsing/text.py:468-549 | after replacement an operand holds no int outside the positions `_REPLACE_CONSTANTS_EXCEPTION` lists |
| TextPasses.ReplaceOperandFixed | netqasm/lang/parsing/text.py:468-549 | an operand already free of constants is left alone and takes no register |
| TextPasses.ReplacedConstantFree | netqasm/lang/parsing/text.py:494-552 | after the pass no command holds a constant outside the exception positions |
| TextPasses.ReplacedFixed | netqasm/lang/parsing/text.py:494-552 | a program free of constants is left unchanged |
| TextPasses.ReplacedIdempotent | netqasm/lang/parsing/text.py:494-552 | running the pass on its own output changes nothing |
| TextPasses.ReplacedKeepsLabels | netqasm/lang/parsing/text.py:494-552 | the pass keeps the branch labels, in order |
| TextLabels.LabelNamesConcat | netqasm/lang/parsing/text.py:410-430 | the labels of two lists in a row are the labels of each in turn |
| TextLabels.ICmdsOf | netqasm/lang/parsing/text.py:415-429 | the list without its labels is no longer than the list |
| TextLabels.LabelMap | netqasm/lang/parsing/text.py:412-428 | a repeated label name is a SyntaxError |
| TextLabels.LabelMapStep | netqasm/lang/parsing/text.py:415-428 | one loop step: an ICmd changes nothing, a new label maps to the number of ICmds before it, a repeated one fails |
| TextLabels.LabelMapCorrect | netqasm/lang/parsing/text.py:412-428 | the label map exists exactly when the labels are unique, and its keys are exactly the labels |
| TextLabels.LabelValue | netqasm/lang/parsing/text.py:424-428 | each label maps to the index its next command has once the labels are removed |
| TextLabels.LabelTarget | netqasm/lang/parsing/text.py:424-428 | jumping to a label's value continues with exactly the commands after the label |
| TextLabels.FindBranchLabels | netqasm/lang/parsing/text.py:412-428 | the `while` loop gives the label-free commands and the label map, SyntaxError exactly on a repeated label |
| TextLabels.UpdateLabelsInCommand | netqasm/lang/parsing/text.py:440-451 | each label operand with a known name becomes its value, in place |
| TextLabels.UpdateLabels | netqasm/lang/parsing/text.py:433-437 | every ICmd of the subroutine is resolved; nothing else of the subroutine changes |
| TextLabels.AssignBranchLabels | netqasm/lang/parsing/text.py:410-430 | success exactly when labels are unique: labels removed and label operands resolved; a SyntaxError leaves the commands as they were |
| TextLabels.AssignedNoLabels | netqasm/lang/parsing/text.py:410-451 | after assignment no command is a label and no operand names a defined label |
| TextLabels.ResolvedShape | netqasm/lang/parsing/text.py:440-451 | resolving keeps each command's kind, instruction, arguments, line and number of operands |
| TextLabels.ResolvedIdempotent | netqasm/lang/parsing/text.py:433-451 | resolving twice is resolving once |
| Text.PreambleArg | netqasm/lang/parsing/text.py:127-132 | `preamble_data[key][0][0]` exists exactly when the key has a line with an operand; otherwise IndexError |
| Text.CreateCommands | netqasm/lang/parsing/text.py:103-126 | the loop parses every body line in order and stops at the first error |
| Text.CreateSubroutine | netqasm/lang/parsing/text.py:102-133 | the result is fresh, with the parsed version and app id and the parsed commands; the template names are collected as arguments |
| Text.ParseTextPresubroutine | netqasm/lang/parsing/text.py:24-33 | split, preamble, macros and body parse, in this order, with the first error that occurs |
| Text.BuildCommand | netqasm/lang/parsing/text.py:91-97 | a label is an AssertionError; an ICmd becomes the flavour's class of that name (KeyError when none), built by `from_operands`, with its line number |
| Text.BuiltShape | netqasm/lang/parsing/text.py:84-99 | a built subroutine has the version and app id given and one instruction per command |
| Text.BuildRejectsLabels | netqasm/lang/parsing/text.py:90-91 | building a list that still holds a label fails |
| Text.BuildSubroutine | netqasm/lang/parsing/text.py:84-99 | the loop builds each command in order and stops at the first error |
| Text.FlavourOrVanilla | netqasm/lang/parsing/text.py:77-78 | with no flavour given the vanilla flavour is used |
| Text.AssembleSubroutine | netqasm/lang/parsing/text.py:60-81 | the selected passes run in order (arguments, constants, labels), then the build |
| Text.ParseTextSubroutine | netqasm/lang/parsing/text.py:36-57 | parsing, then assembling the parsed subroutine |
| Memory.WithinWidth | netqasm/sdk/shared_memory.py:16-23 | nothing is checked in simulation; on hardware a value outside the signed 32-bit range is an OverflowError |
| Memory.GroupGet | netqasm/sdk/shared_memory.py:44-50 | reading a register succeeds exactly for an index in 0..15 (IndexError otherwise) and gives a value exactly when one was stored |
| Memory.GroupSet | netqasm/sdk/shared_memory.py:39-42 | writing a register fails with IndexError outside 0..15, and otherwise exactly when the value is too wide |
| Memory.GroupReadWrite | netqasm/sdk/shared_memory.py:39-46 | a register reads back the value written to it, and writing one register leaves every other unchanged |
| Memory.GroupSetSimulation | netqasm/sdk/shared_memory.py:39-42 | in simulation a write to a valid index always succeeds and just stores the value |
| Memory.GroupActiveValues | netqasm/sdk/shared_memory.py:52-57 | the active values are exactly the stored (index, value) pairs |
| Memory.RegisterGroup.constructor | netqasm/sdk/shared_memory.py:29-31 | a new group holds no values |
| Memory.RegisterGroup.Len | netqasm/sdk/shared_memory.py:33-34 | `len` is 16, 2 to the number of index bits |
| Memory.RegisterGroup.GetItem | netqasm/sdk/shared_memory.py:44-46 | `group[i]` is the read specification on the group's dictionary |
| Memory.RegisterGroup.SetItem | netqasm/sdk/shared_memory.py:39-42 | `group[i] = v` updates the dictionary as the write specification says, and leaves it unchanged on an error |
| Memory.SetupRegisters | netqasm/sdk/shared_memory.py:60-61 | one fresh, empty, separate group per register bank |
| Memory.PyIndex | netqasm/sdk/shared_memory.py:111 | Python list indexing: an index in -n..n-1 hits position i, or n+i when negative; any other is out of range |
| Memory.SliceRange | netqasm/sdk/shared_memory.py:108-111 | the positions a slice covers lie within the list, start not after stop |
| Memory.SliceRangeInBounds | netqasm/sdk/shared_memory.py:108-111 | in-range bounds are taken as they are |
| Memory.ArraysGet | netqasm/sdk/shared_memory.py:119-134 | a missing array reads as None; an entry reads the element at its Python index (IndexError when out of range); a slice always succeeds; a too-wide address is an OverflowError on hardware |
| Memory.AssertList | netqasm/sdk/shared_memory.py:163-170 | on hardware every element and the length must fit 32 bits |
| Memory.ArraysSetEntry | netqasm/sdk/shared_memory.py:90-117 | writing an entry changes exactly that element of that array; the array must exist and the index be in range (IndexError) |
| Memory.ArraysSetSlice | netqasm/sdk/shared_memory.py:90-117 | writing a slice replaces exactly the covered positions, the value having their number of elements (AssertionError otherwise) |
| Memory.SetMissingArray | netqasm/sdk/shared_memory.py:136-139 | writing into an array that does not exist is an IndexError |
| Memory.SetEntryFrame | netqasm/sdk/shared_memory.py:90-117 | an entry write keeps the addresses, the array's length and every other array and element |
| Memory.SetSliceFrame | netqasm/sdk/shared_memory.py:90-117 | a slice write keeps the addresses, the length, and everything outside the slice |
| Memory.SetSliceLengthMismatch | netqasm/sdk/shared_memory.py:111-112 | a slice value of the wrong length is an AssertionError |
| Memory.ArraysInit | netqasm/sdk/shared_memory.py:172-175 | a new array of `length` Nones (none for a negative length) at the address, overwriting any old one, other arrays kept |
| Memory.ArraysSetArray | netqasm/sdk/shared_memory.py:141-145 | replacing a whole array needs it to exist (IndexError) and the list to fit |
| Memory.ArraysGetArray | netqasm/sdk/shared_memory.py:136-139 | reading a whole array needs it to exist (IndexError) |
| Memory.ReadArrays | netqasm/sdk/shared_memory.py:119-134 | missing array reads None, out-of-range index is an IndexError, in-range index reads the element |
| Memory.InitThenRead | netqasm/sdk/shared_memory.py:172-175 | every element of a new array reads as None, and the whole slice is all Nones |
| Memory.EntryReadWrite | netqasm/sdk/shared_memory.py:90-134 | an entry reads back the value written to it |
| Memory.SimulationNoOverflow | netqasm/sdk/shared_memory.py:16-19 | in simulation no operation raises OverflowError |
| Memory.HardwareOverflow | netqasm/sdk/shared_memory.py:20-23 | on hardware a value outside 32 bits raises OverflowError on register and entry writes |
| Memory.ArraysActiveValues | netqasm/sdk/shared_memory.py:69-85 | the active values are exactly the entries holding a value |
| Memory.Arrays.GetItem | netqasm/sdk/shared_memory.py:119-134 | `arrays[a, i]` is the read specification |
| Memory.Arrays.SetEntry | netqasm/sdk/shared_memory.py:90-117 | `arrays[a, i] = v` as the entry write specification, state unchanged on error |
| Memory.Arrays.SetSlice | netqasm/sdk/shared_memory.py:90-117 | `arrays[a, lo:hi] = vs` as the slice write specification, state unchanged on error |
| Memory.Arrays.InitNewArray | netqasm/sdk/shared_memory.py:172-175 | `init_new_array` as the specification |
| Memory.Arrays.SetArray | netqasm/sdk/shared_memory.py:141-145 | `_set_array` as the specification |
| Memory.Arrays.HasArray | netqasm/sdk/shared_memory.py:147-148 | true exactly when an array is stored at the address |
| Memory.SharedMemory.constructor | netqasm/sdk/shared_memory.py:205-207 | fresh empty register groups and fresh empty arrays |
| Memory.SharedMemory.GetRegister | netqasm/sdk/shared_memory.py:220-225 | reads the register from its bank's group |
| Memory.SharedMemory.SetRegister | netqasm/sdk/shared_memory.py:227-232 | writes the register in its bank's group, and only there |
| Memory.SharedMemory.GetItem | netqasm/sdk/shared_memory.py:209-218 | a register key reads the register, a tuple key an array part, an int key the whole array |
| Memory.SharedMemory.SetArrayEntry | netqasm/sdk/shared_memory.py:239-245 | `set_array_part` with an int index as the entry write specification |
| Memory.SharedMemory.SetArraySlice | netqasm/sdk/shared_memory.py:239-245 | `set_array_part` with a slice as the slice write specification |
| Memory.SharedMemory.InitNewArray | netqasm/sdk/shared_memory.py:250-260 | with a list given, the array takes its length and then its contents; otherwise `length` Nones |
| Memory.InitWithList | netqasm/sdk/shared_memory.py:250-260 | initialising with a list stores exactly that list |
| Memory.SharedMemoryManager.CreateSharedMemory | netqasm/sdk/shared_memory.py:291-302 | RuntimeError exactly when the (node, key) already has a memory; otherwise a fresh valid memory is stored under it |
| Memory.SharedMemoryManager.GetSharedMemory | netqasm/sdk/shared_memory.py:304-309 | the memory stored under (node, key), or None |
| Memory.SharedMemoryManager.ResetMemories | netqasm/sdk/shared_memory.py:312-315 | afterwards no memory is stored |
| Memory.SharedMemory.GetArrayPart | netqasm/sdk/shared_memory.py:234-237 | an array part is read exactly as an indexed read of the arrays: a missing array gives None, an entry uses Python indexing, a slice follows Python list slicing |
| Vm.NewRegisterFile | netqasm/backend/executor.py:284-286 | `setup_registers` gives one empty group for every bank |
| Vm.NewMachine | netqasm/backend/executor.py:122-204 | a new executor has no registers, subroutines or program counters, next subroutine id 0 and no used physical qubits |
| Vm.SetPc | netqasm/backend/executor.py:628-672 | setting one subroutine's program counter changes that counter only |
| Vm.IncPc | netqasm/backend/executor.py:91-101 | the `inc_program_counter` decorator adds one to that subroutine's counter; nothing but the program-counter table changes |
| Vm.AppOf | netqasm/backend/executor.py:1472-1477 | `_get_app_id` gives the subroutine's app id exactly for a known subroutine, otherwise ValueError |
| Vm.ReadRegister | netqasm/backend/executor.py:531-532 | `_get_register`: KeyError for an application without registers, else the group's read |
| Vm.RegValue | netqasm/backend/executor.py:531-532 | a handler reads a register of its subroutine's application |
| Vm.WriteRegister | netqasm/backend/executor.py:525-529 | `_set_register` succeeds exactly when the slot is readable and the value fits; the register then reads back the value, and every other register of every application is unchanged |
| Vm.Defined | netqasm/backend/executor.py:550-566 | a None where a value is required raises the handler's error kind |
| Vm.IndexValue | netqasm/backend/executor.py:1340-1378 | an array index is the int itself, or a register's value, which must be defined (RuntimeError) |
| Vm.AppArrays | netqasm/backend/executor.py:1317-1318 | an application's arrays, KeyError if it has none |
| Vm.SetArrayEntry | netqasm/backend/executor.py:1326-1330 | `_set_array_entry` expands the index, then writes one position of one array; only the arrays change |
| Vm.SliceBounds | netqasm/backend/executor.py:1340-1378 | a slice's bounds are its expanded start and stop |
| Vm.UnitModuleOf | netqasm/backend/executor.py:1289-1296 | `_get_unit_module` gives the subroutine's application's unit module, RuntimeError when there is none |
| Vm.AllocatePhysical | netqasm/backend/executor.py:1395-1429 | ValueError for a virtual address past the unit module, RuntimeError for an occupied slot; otherwise the slot gets the given or the smallest unused physical id, which is then marked used |
| Vm.Lift | netqasm/backend/executor.py:441-452 | a handler that raises leaves the state as it was; one that completes gives its new state |
| Vm.FreePhysical | netqasm/backend/executor.py:1431-1449 | RuntimeError for an empty slot; otherwise the slot is cleared and its physical id is no longer used; control state unchanged |
| Vm.BinaryHolds | netqasm/lang/instr/core.py:388-422 | beq and bne compare values including None; blt and bge with a None raise TypeError |
| Vm.BranchStep | netqasm/backend/executor.py:628-672 | jmp jumps to its line; a conditional branch jumps when its condition holds and otherwise moves to the next instruction; only the program counter changes |
| Vm.PyMod | netqasm/backend/executor.py:702-717 | Python's `%`: the remainder has the sign of the divisor |
| Vm.Compute | netqasm/backend/executor.py:702-717 | add and sub compute the sum and difference; addm and subm reduce by the modulus (AssertionError when it is None, ZeroDivisionError when 0); mul, div and rem have no case (ValueError) |
| Vm.ArithStep | netqasm/backend/executor.py:675-700 | a defined modulus below 1 is a RuntimeError; undefined operands an AssertionError; on success only the output register changes and it holds the computed value |
| Vm.ReadAll | netqasm/backend/executor.py:720-736 | the qubit registers are read in order |
| Vm.AllDefined | netqasm/backend/executor.py:720-736 | every qubit register must be defined (AssertionError) |
| Vm.QubitStep | netqasm/backend/executor.py:720-890 | a gate changes no classical state |
| Vm.QAllocStep | netqasm/backend/executor.py:535-547 | the register must be defined (RuntimeError); then the qubit is allocated; control state unchanged |
| Vm.ArrayStep | netqasm/backend/executor.py:608-626 | the size register must be defined (AssertionError); then a new array of that many Nones at the address |
| Vm.CreateEprStep | netqasm/backend/executor.py:937-1067 | without a network stack RuntimeError; otherwise the request built from the argument array is sent and queued under (remote, purpose id) with its pair counts |
| Vm.QubitArrayMatches | netqasm/backend/executor.py:1001-1012 | a type-K request needs a qubit array with one address per pair |
| Vm.Enqueue | netqasm/backend/executor.py:1018-1029 | the request is appended to its key's queue; other queues are unchanged |
| Vm.RecvEprStep | netqasm/backend/executor.py:1080-1151 | without a network stack RuntimeError; otherwise a receive is queued under (remote, purpose id) with the pair count read from the results array |
| Vm.WaitAllStep | netqasm/backend/executor.py:1154-1175 | waiting changes nothing, whether it completes or raises |
| Vm.WaitAnyStep | netqasm/backend/executor.py:1178-1196 | waiting changes nothing, whether it completes or raises |
| Vm.WaitSingleStep | netqasm/backend/executor.py:1199-1213 | waiting changes nothing, whether it completes or raises |
| Vm.RetRegStep | netqasm/backend/executor.py:1229-1239 | the register must be defined (RuntimeError); its value is then in the shared memory and only the shared memory changes |
| Vm.RetArrStep | netqasm/backend/executor.py:1242-1287 | the array must exist; its contents are copied into the shared memory under the same address |
| Vm.MeasStep | netqasm/backend/executor.py:893-934 | the qubit register must be defined (AssertionError); the base measurement hook's outcome 0 goes to the classical register |
| Vm.SetStep | netqasm/backend/executor.py:519-523 | set writes the immediate to the register and changes no other register; it succeeds whenever the register is readable and the value fits |
| Vm.StoreStep | netqasm/backend/executor.py:550-566 | the register must be defined (RuntimeError); its value is then written to the entry |
| Vm.LoadStep | netqasm/backend/executor.py:569-583 | an undefined entry is a RuntimeError; otherwise its value goes to the register |
| Vm.UndefStep | netqasm/backend/executor.py:595-605 | the entry becomes None |
| Vm.LeaStep | netqasm/backend/executor.py:586-592 | the register gets the address; in simulation this always succeeds |
| Vm.QFreeStep | netqasm/backend/executor.py:1219-1226 | the register must be defined (AssertionError); then the slot it names is freed |
| Vm.Handle | netqasm/backend/executor.py:460-516 | no handler changes the control state, and only qalloc and qfree change the qubit map |
| Vm.Step | netqasm/backend/executor.py:460-516 | a raise leaves the program counter; every completed non-branch instruction advances it by one; the subroutine table never changes |
| VmRun.RegsOp | netqasm/backend/executor.py:720-736 | the first n operands are read as registers exactly when all of them are registers, in order |
| VmRun.ConditionsAgree | netqasm/lang/instr/core.py:326-422 | the executor's branch test agrees with each branch instruction's `check_condition` on defined values |
| VmRun.ComplementFlips | netqasm/lang/instr/core.py:326-422 | the complementary branch holds exactly when the branch does not |
| VmRun.StepOnlyOwnPc | netqasm/backend/executor.py:460-516 | one instruction moves only its own subroutine's program counter and never changes the subroutine table |
| VmRun.Run | netqasm/backend/executor.py:441-452 | the loop finishes only with the counter at or past the end; a raise carries the failing line (IndexError with no line once the counter is below -len, as Python's negative indexing allows down to -len); a wait stops with the counter inside the program; other subroutines' counters are untouched |
| VmRun.RunCommand | netqasm/backend/executor.py:441-446 | fetching `commands[pc]` follows Python indexing; same results as Run |
| VmRun.RunInstr | netqasm/backend/executor.py:446-458 | one instruction then the rest of the loop; a raise is relabelled with the current line |
| VmRun.RunKeeps | netqasm/backend/executor.py:441-452 | running a subroutine keeps the qubit mapping consistent (mapped physical ids used and distinct) |
| VmRun.RunUnfold | netqasm/backend/executor.py:441-458 | one loop turn: a completed step continues, a wait stops, a raise is reported at the current line |
| VmRun.RunNext | netqasm/backend/executor.py:441-452 | a completed instruction continues the loop from the new state |
| VmRun.RunFault | netqasm/backend/executor.py:446-458 | a raising instruction ends the loop with its error at the current line |
| VmRun.ExecuteSubroutine | netqasm/backend/executor.py:408-429 | a subroutine runs under the next fresh id; on finishing the id counter has advanced, its entry and counter are removed and every other subroutine and counter is as before; on a raise the subroutine stays registered |
| VmRun.EmptyUnitModule | netqasm/backend/executor.py:1380-1382 | a new unit module has max-qubits empty slots (none for a negative size) |
| VmRun.InitNewApplication | netqasm/backend/executor.py:272-296 | a new application gets an empty unit module, a fresh register file and no arrays; a second shared memory for the same app is a RuntimeError, raised after the other setup; used physical qubits and subroutines are unchanged |
| VmRun.MappedIds | netqasm/backend/executor.py:331-339 | the physical ids a unit module maps, exactly |
| VmRun.ReleaseAll | netqasm/backend/executor.py:331-339 | freeing every slot releases exactly the mapped ids, and succeeds whenever the mapping is consistent |
| VmRun.StopApplication | netqasm/backend/executor.py:320-348 | KeyError for an unknown application; otherwise its unit module, registers, arrays and shared memory are removed and its physical qubits released |
| VmRun.StopKeeps | netqasm/backend/executor.py:320-348 | stopping a fully set-up application succeeds and keeps the qubit mapping consistent |
| VmEpr.WithRequests | netqasm/backend/executor.py:1575-1583 | replacing the creator's or the receiver's request table leaves the other table and the rest of the executor as they were |
| VmEpr.ExtractInfo | netqasm/backend/executor.py:1546-1573 | no information exactly when the response's queue (creator or receiver side, keyed by remote node and purpose id) is empty; otherwise the head request and pair index tot_pairs - pairs_left |
| VmEpr.VirtualAddress | netqasm/backend/executor.py:1641-1650 | the pair's virtual address is entry pair_index of the request's qubit array; a request without a qubit array cannot be parsed (`@None[..]`, SyntaxError) |
| VmEpr.HandleOkK | netqasm/backend/executor.py:1608-1639 | a K pair whose virtual address is in use waits; otherwise the logical qubit id is marked used and mapped at that address; control state and request queues unchanged |
| VmEpr.HandleOk | netqasm/backend/executor.py:387-399 | an M pair is always handled; the R handler cannot take the keyword arguments it is called with (TypeError); a K pair goes to the K handler |
| VmEpr.AfterPair | netqasm/backend/executor.py:1525-1530 | one pair fewer is left; the request leaves its queue exactly when that was its last pair |
| VmEpr.AsEntries | netqasm/backend/executor.py:1588-1590 | the response's fields become array entries, in order |
| VmEpr.StoreEntInfo | netqasm/backend/executor.py:1585-1606 | the response's fields are written to slice [pair_index*OK_FIELDS, (pair_index+1)*OK_FIELDS) of the results array; only the arrays change |
| VmEpr.TryResponse | netqasm/backend/executor.py:1500-1535 | an ERR response raises RuntimeError; an OK response without a waiting request is skipped; a handled one leaves the pending list to the caller |
| VmEpr.PassFrom | netqasm/backend/executor.py:1500-1535 | one pass over the pending responses handles the first that can be handled and removes it from the list, after skipping exactly the ones before it; a raise stops the pass |
| VmEpr.HandlePending | netqasm/backend/executor.py:1492-1539 | passes repeat until the pending list is empty, or until a pass handles nothing (every response skipped) |
| VmEpr.ErrResponseRaises | netqasm/backend/executor.py:1541-1544 | an ERR response at the head of the list raises RuntimeError, state unchanged |
| VmEpr.CompleteDequeues | netqasm/backend/executor.py:1525-1530 | completing a pair decrements the head request's pairs left, or removes the request after its last pair; every other queue is unchanged |
| VmEpr.CompleteStores | netqasm/backend/executor.py:1585-1606 | completing a pair overwrites exactly that pair's OK_FIELDS entries of the results array with the response fields; every other entry and array is unchanged |
| VmEpr.NextPairIndex | netqasm/backend/executor.py:1546-1583 | after one pair of a multi-pair request, the next response for the same key gets the next pair index |
| VmEpr.OkKKeeps | netqasm/backend/executor.py:1608-1639 | mapping a fresh logical qubit id keeps the qubit mapping consistent |
| VmEpr.PassRemovesOne | netqasm/backend/executor.py:1531 | a pass that handles response i removes exactly that one and keeps the others in order |
| VmProps.NewMachineConsistent | netqasm/backend/executor.py:122-204 | a fresh executor's qubit mapping is consistent: every mapped physical id is marked used and no physical id is mapped from two slots |
| VmProps.MapFreshKeeps | netqasm/backend/executor.py:1395-1429 | mapping an empty slot to an unused physical id and marking it used keeps the mapping consistent |
| VmProps.AllocateKeeps | netqasm/backend/executor.py:1395-1429 | qalloc's allocation with the smallest unused physical id keeps the mapping consistent (with `executor.py` lines 1463-1470) |
| VmProps.UnmapKeeps | netqasm/backend/executor.py:1431-1449 | clearing a mapped slot, and then releasing its physical id, keeps the mapping consistent |
| VmProps.FreeKeeps | netqasm/backend/executor.py:1431-1449 | freeing a virtual qubit keeps the mapping consistent, however it ends |
| VmProps.FreeMappedSucceeds | netqasm/backend/executor.py:1431-1449 | on a consistent executor freeing an occupied slot always succeeds (the removal from the used set cannot raise) |
| VmProps.HandleKeeps | netqasm/backend/executor.py:460-516 | every non-branch handler keeps the qubit mapping consistent |
| VmProps.SameQubitsKeep | netqasm/backend/executor.py:460-516 | a handler that leaves the unit modules and used ids alone keeps consistency |
| VmProps.StepKeeps | netqasm/backend/executor.py:460-516 | every instruction keeps the qubit mapping consistent |
| VmPrograms.CountingLoopCounts | tests/test_executor.py:39-53 | the counting loop, started at line 0 with enough fuel, finishes with R0 = 10 |
| VmPrograms.ExecuteCountingLoop | tests/test_executor.py:54-67 | executing the counting-loop subroutine on an initialised application finishes with register R0 of app 0 equal to 10 |
| VmPrograms.Initialised | netqasm/backend/executor.py:272-296 | after `init_new_application(0, max_qubits=1)` app 0 has a fresh register file and one empty qubit slot, and no physical qubit is used |
| VmPrograms.RepeatRuns | tests/test_executor.py:64-66 | n runs in sequence: no run is done for n = 0, and a run that does not finish ends the sequence |
| VmPrograms.Repeat | tests/test_executor.py:64-66 | the test's `for _ in range(10)` loop over execute_subroutine, as RepeatRuns |
| VmPrograms.RepeatKeeps | tests/test_executor.py:64-66 | a run that always finishes from, and returns to, a ready state gives a ready state after any number of runs, done after at least one |
| VmPrograms.CountingLoopRuns | tests/test_executor.py:64-66 | from every start state the counting loop finishes in a start state with R0 = 10 |
| VmPrograms.CountingLoopRepeats | tests/test_executor.py:64-66 | any number of runs of the counting loop finishes, with R0 = 10 after at least one |
| VmPrograms.CountingLoopTenTimes | tests/test_executor.py:54-67 | the test itself: ten executions on a freshly initialised app 0 all finish and R0 reads 10 |
| VmPrograms.StepBadModulus | netqasm/backend/executor.py:675-700 | addm with a modulus register below 1 raises RuntimeError and changes nothing |
| VmPrograms.ZeroModulusRaises | tests/test_executor.py:70-84 | `set R0 1; add R0 R0 R0; set R1 0; addm R0 R0 R0 R1` raises at line 3 |
| VmPrograms.StepQAllocFree | netqasm/backend/executor.py:535-547 | qalloc of a free in-range slot succeeds, advances the counter and occupies that slot |
| VmPrograms.StepQAllocOccupied | netqasm/backend/executor.py:1395-1429 | qalloc of an occupied slot raises RuntimeError and changes nothing |
| VmPrograms.DoubleAllocRaises | tests/test_executor.py:85-97 | `set Q0 0; qalloc Q0; qalloc Q0` raises at line 2 |
| VmPrograms.FailingProgramsRaise | tests/test_executor.py:99-114 | both failing test subroutines, executed on a freshly initialised app, raise at the lines the test expects |
| Executors.StatusOf | netqasm/backend/executor.py:441-458 | an instruction completes, waits, or fails with the error it raised |
| Executors.Executor.constructor | netqasm/backend/executor.py:122-204 | a new executor's fields are those of the fresh machine |
| Executors.Executor.IncProgramCounter | netqasm/backend/executor.py:91-101 | the decorator's increment, as IncPc on the state |
| Executors.Executor.GetUnusedPhysicalQubit | netqasm/backend/executor.py:1463-1470 | returns the smallest physical id not in use, and marks it used |
| Executors.Executor.AllocatePhysicalQubit | netqasm/backend/executor.py:1395-1429 | succeeds exactly when AllocatePhysical does, with its new state and the physical id used; on an error nothing changes |
| Executors.Executor.FreePhysicalQubit | netqasm/backend/executor.py:1431-1449 | the new state and error are those of FreePhysical |
| Executors.Executor.InstrSet | netqasm/backend/executor.py:519-523 | set on the object state, as SetStep |
| Executors.Executor.InstrQAlloc | netqasm/backend/executor.py:535-547 | qalloc on the object state, as QAllocStep |
| Executors.Executor.InstrQFree | netqasm/backend/executor.py:1219-1226 | qfree on the object state, as QFreeStep |
| Executors.Executor.InstrBranch | netqasm/backend/executor.py:628-672 | a branch on the object state, as BranchStep |
| Executors.Executor.ExecuteCommand | netqasm/backend/executor.py:460-516 | one instruction on the object state, as Step |
| Executors.Executor.ExecuteHandler | netqasm/backend/executor.py:460-516 | the handler dispatch on the object state, as Handle |
| Executors.Executor.ExecuteCommands | netqasm/backend/executor.py:431-458 | the while loop over the commands ends in Run's result and state |
| Executors.Executor.ExecuteTurn | netqasm/backend/executor.py:441-458 | one turn of the loop: a wait or a raise ends Run there, a completed step leaves the rest of Run |
| Executors.Executor.ExecuteSubroutine | netqasm/backend/executor.py:408-429 | as VmRun.ExecuteSubroutine |
| Executors.Executor.InitNewApplication | netqasm/backend/executor.py:272-296 | as VmRun.InitNewApplication |
| Executors.Executor.ClearQubits | netqasm/backend/executor.py:331-339 | KeyError for an unknown app; otherwise its unit module is popped and its mapped physical ids released, KeyError if one of them was not in use |
| Executors.Executor.StopApplication | netqasm/backend/executor.py:320-348 | as VmRun.StopApplication |
| Executors.Executor.HandleOnePass | netqasm/backend/executor.py:1500-1535 | one for-loop pass over the pending responses, as PassFrom |
| Executors.Executor.HandlePendingEprResponses | netqasm/backend/executor.py:1492-1539 | as HandlePending |
| Executors.Executor.HandleEprResponse | netqasm/backend/executor.py:1479-1490 | the response is appended to the pending list and the list handled, as VmEpr.HandleEprResponse |
| Executors.RunStops | netqasm/backend/executor.py:441-446 | the loop stops at the end; a counter below -len is an IndexError outside the try block, with no line |
| Executors.RunTurn | netqasm/backend/executor.py:441-458 | one loop turn of Run in terms of the step's status |
| Executors.SubroutineRun | netqasm/backend/executor.py:408-429 | execute_subroutine is the loop under the fresh id, then a pop of that id's counter and entry when it finishes |
| Messages.Zeros | netqasm/backend/messages.py:47-52 | padding is n zero bytes |
| Messages.DecodeUInt32 | netqasm/backend/messages.py:12-15 | a `c_uint32` field reads back as a value below 2^32 |
| Messages.UInt32RoundTrip | netqasm/backend/messages.py:12-15 | writing a value to a `c_uint32` field and reading it back gives the value modulo 2^32 |
| Messages.MessageTypeValue | netqasm/backend/messages.py:39-44 | every host message type has a value below 5 that names it again |
| Messages.MessageTypeOf | netqasm/backend/messages.py:39-44 | `MessageType(v)` raises only ValueError |
| Messages.MessageTypeValues | netqasm/backend/messages.py:39-44 | exactly the values 0 to 4 name a message type, each its own |
| Messages.ReturnMessageTypeValue | netqasm/backend/messages.py:217-221 | every return type has a value below 4 that names it again |
| Messages.ReturnMessageTypeOf | netqasm/backend/messages.py:217-221 | `ReturnMessageType(v)` raises only ValueError |
| Messages.ReturnMessageTypeValues | netqasm/backend/messages.py:217-221 | exactly the values 0 to 3 name a return type, each its own |
| Messages.ErrorCodeValue | netqasm/backend/messages.py:238-241 | every error code has a one-byte value that names it again |
| Messages.HostSize | netqasm/backend/messages.py:47-186 | every host structure holds at least its type byte |
| Messages.DefaultHostMessage | netqasm/backend/messages.py:68-186 | the default constructors give their own type; an EPR-socket message defaults to fidelity 100 and ids 0 |
| Messages.NewSubroutineMessage | netqasm/backend/messages.py:113-139 | a Subroutine is stored as its bytes (starting with its metadata), bytes as they are, anything else TypeError |
| Messages.HostStored | netqasm/backend/messages.py:68-186 | the stored fields keep the type, and equal the arguments when these fit their C types |
| Messages.HostMessageBytes | netqasm/backend/messages.py:47-151 | the bytes start with the type byte; a subroutine message is that byte and the subroutine, every other message exactly its structure size |
| Messages.HostMessageLength | netqasm/backend/messages.py:64-65 | `len(msg)` is the length of its bytes (with `messages.py` lines 144-145) |
| Messages.DeserializeHostMsg | netqasm/backend/messages.py:198-208 | succeeds exactly when the type byte is present, names a type, and the bytes cover that type's structure; the result has that type; a subroutine message keeps the bytes after the type byte; every failure is a ValueError |
| Messages.OpenEprSocketFromRaw | netqasm/backend/messages.py:84-110 | the fields read from any 24 bytes fit their C types |
| Messages.HostRoundTrip | netqasm/backend/messages.py:47-208 | every host message reads back from its bytes as the values its fields hold, and as built when they fit |
| Messages.InitNewAppRoundTrip | netqasm/backend/messages.py:68-81 | InitNewApp reads back with app_id modulo 2^32 and max_qubits modulo 256 |
| Messages.OpenEprSocketRoundTrip | netqasm/backend/messages.py:84-110 | OpenEPRSocket reads back with the uint32 and int32 fields wrapped and the fidelity modulo 256 |
| Messages.SubroutineMessageRoundTrip | netqasm/backend/messages.py:113-152 | a subroutine message reads back as the same subroutine bytes |
| Messages.StopAppRoundTrip | netqasm/backend/messages.py:154-167 | StopApp reads back with app_id modulo 2^32 |
| Messages.SubroutineFraming | netqasm/backend/messages.py:113-151 | any bytes with the subroutine type byte are a subroutine message whose bytes are those bytes again |
| Messages.NewErrorMessage | netqasm/backend/messages.py:244-255 | the code's value goes into the one-byte field and names the code again |
| Messages.ReturnSize | netqasm/backend/messages.py:211-335 | every return structure is longer than its type byte |
| Messages.EncodeOptionalInts | netqasm/backend/messages.py:296-303 | one 8-byte OptionalInt per value |
| Messages.StoredOptionals | netqasm/lang/encoding.py:55-61 | each value as its OptionalInt holds it; values that fit are unchanged |
| Messages.ReturnStored | netqasm/backend/messages.py:224-335 | the framed values keep the message type |
| Messages.ReturnMessageBytes | netqasm/backend/messages.py:211-335 | the bytes start with the type byte; a returned array is the type byte, the 8-byte header and one OptionalInt per value; every other message exactly its structure size |
| Messages.ReturnMessageLength | netqasm/backend/messages.py:310-311 | `len(msg)` is the length of its bytes: 9 + 8n for an array of n values |
| Messages.DecodeOptionalInts | netqasm/lang/encoding.py:63-69 | reading n OptionalInts through `value()` gives n values, or TypeError for a bad type byte |
| Messages.DecodeOptionalIntFields | netqasm/backend/messages.py:319 | reading `v.value` gives the int field: never None |
| Messages.ReturnArrayFromRawAsWritten | netqasm/backend/messages.py:314-320 | the as-written reading fails only with ValueError and never yields None |
| Messages.ReturnArrayFromRaw | netqasm/backend/messages.py:314-320 | the corrected reading has the same framing and errors as the as-written one (plus TypeError for a bad entry type), and succeeds only when it does |
| Messages.DeserializeReturnMsg | netqasm/backend/messages.py:347-357 | ValueError for a missing or unknown type byte or a structure cut short; the result has the type byte's type |
| Messages.OptionalIntStored | netqasm/lang/encoding.py:46-69 | an OptionalInt reads back through `value()` as the stored value, and its int field is 0 for None |
| Messages.OptionalIntsRoundTrip | netqasm/lang/encoding.py:46-69 | a run of OptionalInts reads back as the stored values |
| Messages.FieldReadings | netqasm/backend/messages.py:319 | the int field of each entry: 0 for None, the 32-bit value otherwise |
| Messages.OptionalIntFieldsRoundTrip | netqasm/backend/messages.py:319 | reading the int fields of encoded values gives FieldReadings |
| Messages.ReturnRoundTrip | netqasm/backend/messages.py:211-357 | every return message reads back through the corrected decoder as the values it carries once framed, None entries included; as written a None entry comes back as 0 (ReturnArrayRoundTripAsWritten) |
| Messages.ReturnArrayRoundTripAsWritten | netqasm/backend/messages.py:313-319 | as written, a returned array reads back with its address wrapped to 32 bits and each entry as its int field, so None arrives as 0 |
| Messages.NoneArrivesAsZero | netqasm/backend/messages.py:313-319 | as written, `[None]` comes back as `[0]`; the corrected reading gives `[None]` |
| Messages.ArrayReadingsAgree | netqasm/backend/messages.py:313-319 | on arrays without None the as-written and the corrected readings agree |
| QLink.EprTypeValue | netqasm/qlink_compat.py:10-13 | EPR types K, M and R have values below 3 |
| QLink.RequestTypeValue | netqasm/qlink_compat.py:22-28 | request types have values below 5 |
| QLink.RequestTypeOf | netqasm/qlink_compat.py:22-28 | `RequestType(v)` succeeds exactly for 0 to 4 and gives the member with that value; otherwise ValueError |
| QLink.RequestTypeRoundTrip | netqasm/qlink_compat.py:22-28 | every request type is named again by its value |
| QLink.ReturnTypeValue | netqasm/qlink_compat.py:31-37 | return types have values below 5 |
| QLink.TypesShareEprValues | netqasm/qlink_compat.py:10-37 | the K, M and R request and return types reuse the EPR types' values |
| QLink.BellStateValue | netqasm/qlink_compat.py:69-74 | Bell states have values below 4 |
| QLink.CreateFromArgs | netqasm/backend/executor.py:1031-1067 | ValueError unless there is one value per CREATE field; otherwise every field is its value, or its default for None, and the type converts to a RequestType (ValueError otherwise) |
| QLink.CreateDefaults | netqasm/qlink_compat.py:84-117 | the all-default CREATE request has type K, one pair and every other field 0 (RandomBasis.NONE has value 0) |
| QLink.ResponseValues | netqasm/backend/executor.py:1588-1590 | a response's values start with its type's value; an OK K record has OK_FIELDS_K values, an OK M record OK_FIELDS_M |
| QLink.CreatorNodeId | netqasm/qlink_compat.py:224-229 | the creator is the remote node when the directionality flag is 1, else the local node |
| Allocators.LowestInactiveFrom | netqasm/sdk/memmgr.py:125-133 | the first R register at or after index k that is not active, with every one before it active; None when all are active |
| Allocators.LowestInactive | netqasm/sdk/memmgr.py:125-133 | the lowest of R0..R15 not active, every lower one active; None exactly when all sixteen are active |
| Allocators.LowestInactiveUnique | netqasm/sdk/memmgr.py:125-133 | the register found is the only one that is inactive with all lower ones active |
| Allocators.MeasItemsFrom | netqasm/sdk/memmgr.py:28-30 | the items (M_i, False) for i from k to 15, in order |
| Allocators.InitialMeasTable | netqasm/sdk/memmgr.py:28-30 | the fresh table: M0..M15 in order, none in use, keys distinct |
| Allocators.KeyPos | netqasm/sdk/memmgr.py:90-96 | the position of a key in the table, with no earlier item of that key; the table's length when absent |
| Allocators.KeyPosOfDistinct | netqasm/sdk/memmgr.py:90-96 | in a table with distinct keys the key at position k is found at k |
| Allocators.MeasSet | netqasm/sdk/memmgr.py:90-96 | `table[reg] = used`: an existing key keeps its position and takes the flag; a new key is appended; keys stay distinct |
| Allocators.FirstUnused | netqasm/sdk/memmgr.py:98-105 | the first position not in use, every earlier one in use; the table's length when all are in use |
| Allocators.TakeMeas | netqasm/sdk/memmgr.py:98-105 | taking registers keeps the table's keys and order |
| Allocators.TakeInOrder | netqasm/sdk/memmgr.py:98-105 | on a table with nothing in use, n takes mark exactly the first n items |
| Allocators.MeasRegistersInOrder | netqasm/sdk/memmgr.py:28-30 | on a fresh table the n-th take gets M_n; after sixteen nothing is unused (with `memmgr.py` lines 98-105) |
| Allocators.NextArrayAddress | netqasm/sdk/memmgr.py:135-143 | 0 first, then one past the last address handed out |
| Allocators.NextArrayAddressFresh | netqasm/sdk/memmgr.py:135-143 | on a strictly increasing non-negative list the new address is non-negative, new, and keeps the list strictly increasing |
| Allocators.ArrayAddressesCount | netqasm/sdk/memmgr.py:135-143 | n calls from scratch hand out exactly 0, 1, ..., n-1 |
| Allocators.Interval | netqasm/sdk/memmgr.py:135-143 | the list lo, lo+1, ..., hi-1 |
| Allocators.ArrayAddresses | netqasm/sdk/memmgr.py:135-143 | n calls leave n used addresses |
| MemMgr.MemoryManager.constructor | netqasm/sdk/memmgr.py:21-40 | no active qubits or registers, M0..M15 unused, nothing to return, no array addresses used |
| MemMgr.MemoryManager.QubitIds | netqasm/sdk/memmgr.py:56-58 | the ids of the active qubits, in list order (with `memmgr.py` lines 68-74) |
| MemMgr.MemoryManager.InactivateQubits | netqasm/sdk/memmgr.py:42-46 | every listed qubit is popped and becomes inactive; the list ends empty |
| MemMgr.MemoryManager.ActivateQubit | netqasm/sdk/memmgr.py:60-62 | the qubit is appended |
| MemMgr.MemoryManager.DeactivateQubit | netqasm/sdk/memmgr.py:64-66 | the first occurrence is removed; ValueError and no change when the qubit is not listed |
| MemMgr.MemoryManager.GetNewQubitAddress | netqasm/sdk/memmgr.py:68-74 | the smallest id no active qubit holds: it is unused and every smaller id is used |
| MemMgr.MemoryManager.AddActiveRegister | netqasm/sdk/memmgr.py:80-84 | ValueError and no change for an active register; otherwise it becomes active |
| MemMgr.MemoryManager.RemoveActiveRegister | netqasm/sdk/memmgr.py:86-88 | KeyError and no change for an inactive register; otherwise it is removed |
| MemMgr.MemoryManager.MeasRegisterSetUsed | netqasm/sdk/memmgr.py:90-92 | the register's flag becomes True (appended when new) |
| MemMgr.MemoryManager.MeasRegisterSetUnused | netqasm/sdk/memmgr.py:94-96 | the register's flag becomes False (appended when new) |
| MemMgr.MemoryManager.GetNewMeasOutcomeRegister | netqasm/sdk/memmgr.py:98-105 | the first unused register of the table, now marked used; RuntimeError and no change when all are in use |
| MemMgr.MemoryManager.ResetUsedMeasRegisters | netqasm/sdk/memmgr.py:107-111 | the table is M0..M15, none in use |
| MemMgr.MemoryManager.AddRegisterToReturn | netqasm/sdk/memmgr.py:113-115 | the register is appended to the return list |
| MemMgr.MemoryManager.ResetRegistersToReturn | netqasm/sdk/memmgr.py:121-123 | the return list is empty |
| MemMgr.MemoryManager.GetInactiveRegister | netqasm/sdk/memmgr.py:125-133 | the lowest inactive R register, activated when asked; RuntimeError and no change when all sixteen are active |
| MemMgr.MemoryManager.GetNewArrayAddress | netqasm/sdk/memmgr.py:135-143 | 0 first, then one past the last; the address is new and non-negative and is recorded |
| MemMgr.MemoryManager.AddArrayToReturn | netqasm/sdk/memmgr.py:145-147 | the array is appended to the return list |
| MemMgr.MemoryManager.ResetArraysToReturn | netqasm/sdk/memmgr.py:153-155 | the arrays-to-return list is empty |
| MemMgr.MemoryManager.Reset | netqasm/sdk/memmgr.py:157-161 | the return lists are empty and M0..M15 unused; active qubits, active registers and used addresses are kept |
| MemMgr.Qubit.constructor | netqasm/sdk/qubit.py:44-76 | the qubit takes the given virtual address or the smallest id no active qubit holds, is active, is listed once more, and has no cached remote node |
| MemMgr.Qubit.OfFuture | netqasm/sdk/qubit.py:350-372 | a future qubit is active and listed; its id is the future, which as an int is 0 |
| MemMgr.Qubit.Activate | netqasm/sdk/qubit.py:123-126 | active, and listed once: appended only when not yet listed |
| MemMgr.Qubit.Deactivate | netqasm/sdk/qubit.py:128-131 | inactive, and taken off the list when listed |
| MemMgr.Qubit.SetActive | netqasm/sdk/qubit.py:108-121 | no change when the value is unchanged; True activates and False deactivates |
| MemMgr.Qubit.EntanglementInfo | netqasm/sdk/qubit.py:133-137 | the stored record; NotImplementedError exactly for a future qubit (with `qubit.py` lines 373-377) |
| MemMgr.Qubit.RemoteEntangledNode | netqasm/sdk/qubit.py:139-155 | the cached name when there is one; None without entanglement info; otherwise the looked-up name of the record's remote node, now cached (a failed lookup caches nothing); NotImplementedError for a future qubit (with `qubit.py` lines 379-383) |
| MemMgr.Qubit.AssertActive | netqasm/sdk/qubit.py:157-160 | QubitNotActiveError exactly when the qubit is inactive |
| MemMgr.Qubit.Measure | netqasm/sdk/qubit.py:162-199 | QubitNotActiveError and no change exactly when inactive; otherwise a non-inplace measure deactivates and an inplace one keeps the qubit; a given future is returned; by default a Future on entry 0 of a new length-1 array, added to what is returned, or a new RegFuture |
| Builder.NumberedInjective | netqasm/sdk/builder.py:1437-1450 | the names base1, base2, ... are pairwise different |
| Builder.NumberedUpTo | netqasm/sdk/builder.py:1437-1450 | the set holds base1 .. base{n} |
| Builder.NumberedUpToMembers | netqasm/sdk/builder.py:1437-1450 | the set holds nothing else |
| Builder.NumberedUpToSize | netqasm/sdk/builder.py:1437-1450 | the set has exactly n names |
| Builder.StringSubsetSize | netqasm/sdk/builder.py:1437-1450 | a subset is no larger: the counting loop stops within |taken| + 1 steps |
| Builder.FreeNumber | netqasm/sdk/builder.py:1443-1450 | the first i >= k whose name base{i} is free, every name between taken |
| Builder.AsSet | netqasm/sdk/builder.py:1437-1450 | the names of the list |
| Builder.UnusedVariable | netqasm/sdk/builder.py:1437-1450 | the result is never in use; it is the base when that is free, otherwise base{i} for the smallest i >= 1 not in use |
| Builder.FindUnusedVariable | netqasm/sdk/builder.py:1437-1450 | the counting loop returns UnusedVariable |
| Builder.LoopLabelsDiffer | netqasm/sdk/builder.py:1367-1393 | the fresh LOOP and LOOP_EXIT names never clash |
| Builder.LoopCommands | netqasm/sdk/builder.py:1396-1434 | before the body `set r start`, the entry label, `beq r stop exit`; after it `add r r step`, `jmp entry`, the exit label |
| Builder.WithLine | netqasm/sdk/builder.py:228-233 | a command without a line number takes the caller's; one with a line number keeps it |
| Builder.WithLines | netqasm/sdk/builder.py:228-233 | line numbering keeps the number of commands |
| Builder.WithLinesTwice | netqasm/sdk/builder.py:228-233 | filling in line numbers is idempotent |
| Builder.LoopLabels | netqasm/sdk/builder.py:1367-1393 | the entry and exit labels are both new and differ from each other |
| Builder.ChosenLoopRegister | netqasm/sdk/builder.py:1319-1338 | the counting register is never active: the given one, ValueError when it is active; otherwise the lowest inactive R register, RuntimeError when all sixteen are active |
| Builder.CondValues | netqasm/sdk/builder.py:1184-1226 | the operand loop of an if never drops registers from the active set; on success it yields one branch operand per value; a value without a result, or a register future without a register, fails |
| Builder.ReleaseTemporaries | netqasm/sdk/builder.py:1228-1233 | releasing only removes registers; on success no non-M register operand stays active |
| Builder.CondValuesStopsAtError | netqasm/sdk/builder.py:1184-1226 | once an operand fails, the later operands change nothing |
| Builder.ReleaseStopsAtError | netqasm/sdk/builder.py:1228-1233 | once a removal fails, the later operands change nothing |
| Builder.Temporaries | netqasm/sdk/builder.py:1228-1233 | the registers released are never M registers |
| Builder.CondValuesTemporaries | netqasm/sdk/builder.py:1184-1226 | without register futures, the registers the loads take are new to the active set and all different |
| Builder.ReleaseRestores | netqasm/sdk/builder.py:1228-1233 | releasing temporaries that were all added takes the active set back to what it was |
| Builder.IfStartRestoresRegisters | netqasm/sdk/builder.py:1184-1241 | the temporary registers of an if are inactive again afterwards: the active set is unchanged |
| Builder.IfStartDeactivatesRegisterFuture | netqasm/sdk/builder.py:1184-1233 | a register future on a non-M register is treated as a temporary and is inactive after the if, although it was active before |
| Builder.CondValuesOperand | netqasm/sdk/builder.py:1184-1226 | each operand contributes its register, its int, or the R register it was loaded into |
| Builder.BranchOperands | netqasm/sdk/builder.py:1130-1136 | bez and bnz take one operand, the other branches two |
| Builder.IfZeroAsWrittenFails | netqasm/sdk/builder.py:1130-1136 | as written, `if_ez` and `if_nz` cannot build their branch whatever the first operand, because the loop reaches the None second operand (with `builder.py` lines 1199-1224) |
| Builder.IfZeroBranches | netqasm/sdk/builder.py:1130-1136 | corrected: `if_ez` / `if_nz` give one branch instruction on the value and the exit label, with the active registers unchanged (with `builder.py` lines 1184-1241) |
| Builder.FlippedBranchSkipsBody | netqasm/sdk/builder.py:1157-1182 | the flipped branch jumps past the body exactly when the condition fails, so the body runs exactly when it holds |
| Builder.LoweredIf | netqasm/sdk/builder.py:1157-1182 | an empty body adds nothing after the preceding commands; a non-branch condition is a ValueError |
| Builder.IfOnValues | netqasm/sdk/builder.py:1157-1241 | an if on two ints is the preceding commands, the flipped branch to a fresh exit label, the body, and that label |
| Builder.StoreEachSound | netqasm/sdk/builder.py:289-299 | every STORE written stores a defined initial value at its own index |
| Builder.StoreEachComplete | netqasm/sdk/builder.py:289-299 | every defined initial value has its STORE |
| Builder.StoreEachSnoc | netqasm/sdk/builder.py:289-299 | one more value adds its STORE when it is defined, nothing otherwise |
| Builder.ArrayInit | netqasm/sdk/builder.py:266-331 | filling can fail only through the loop for equal values; otherwise it records no labels |
| Builder.ArrayCommands | netqasm/sdk/builder.py:266-331 | one RET_ARR per array when arrays are returned, none otherwise; at least one set-up command per array |
| Builder.ArrayCommandsDeclareAll | netqasm/sdk/builder.py:266-331 | every array is declared and, when arrays are returned, returned in order |
| Builder.ArrayCommandsStopAtError | netqasm/sdk/builder.py:266-331 | once an array fails, the later arrays change nothing |
| Builder.ArrayCommandsSnoc | netqasm/sdk/builder.py:266-331 | one more array extends the commands by its own declaration, filling and return, or fails with its own error |
| Builder.RetRegCommands | netqasm/sdk/builder.py:251-257 | one RET_REG per register to return, in order |
| Builder.AssertEprArgs | netqasm/sdk/builder.py:937-956 | accepted exactly when sequential mode with more than one pair has a post routine and a non-sequential K request asks for no more pairs than the application has qubits; ValueError otherwise |
| Builder.ResultsPerPair | netqasm/sdk/builder.py:958-968 | OK_FIELDS_K entries per pair for K, OK_FIELDS_M for M and R |
| Builder.SetQubitRegCommands | netqasm/sdk/builder.py:403-424 | `set Q{i} id` |
| Builder.RotationCommands | netqasm/sdk/builder.py:365-391 | `set Q0 id; instr Q0 n d`; ValueError unless n and d are non-negative |
| Builder.Builder.constructor | netqasm/sdk/builder.py:113-187 | a new builder has no pending commands, active registers or qubits, used addresses, things to return, saved contexts or used labels, and M0..M15 unused |
| Builder.Builder.NewQubitId | netqasm/sdk/builder.py:202-203 | the smallest id no active qubit holds (with `builder.py` lines 1088-1093) |
| Builder.Builder.GetNewArrayAddress | netqasm/sdk/builder.py:1095-1102 | 0 first, then one past the last; new and non-negative; recorded |
| Builder.Builder.GetNewMeasOutcomeReg | netqasm/sdk/builder.py:500-506 | the first unused M register, now used; RuntimeError and no change when all are in use |
| Builder.Builder.AddActiveRegister | netqasm/sdk/builder.py:1359-1362 | ValueError and no change for an active register; otherwise it becomes active |
| Builder.Builder.RemoveActiveRegister | netqasm/sdk/builder.py:1364-1365 | KeyError and no change for an inactive register; otherwise it is removed |
| Builder.Builder.GetInactiveRegister | netqasm/sdk/builder.py:1340-1347 | the lowest inactive R register, activated when asked; RuntimeError and no change when all are active |
| Builder.Builder.Reset | netqasm/sdk/builder.py:1104-1112 | nothing is to be returned, M0..M15 are unused and no context is saved |
| Builder.Builder.AddPendingCommands | netqasm/sdk/builder.py:228-233 | the commands are appended, each without a line number taking the builder's |
| Builder.Builder.PopPendingCommands | netqasm/sdk/builder.py:344-347 | returns the pending commands and leaves the list empty |
| Builder.Builder.GetCondValues | netqasm/sdk/builder.py:1199-1226 | the operand loop, as CondValues |
| Builder.Builder.ReleaseTemporaryRegisters | netqasm/sdk/builder.py:1228-1233 | the release loop, as ReleaseTemporaries |
| Builder.Builder.GetBranchCommandsOver | netqasm/sdk/builder.py:1184-1241 | a fresh IF_EXIT label is recorded; the branch commands and the exit label, or the operand error |
| Builder.Builder.GetBranchCommandsAsWritten | netqasm/sdk/builder.py:1184-1241 | as written, over both operands; always an error when the second is None |
| Builder.Builder.GetBranchCommands | netqasm/sdk/builder.py:1184-1241 | corrected, over the operands the branch takes |
| Builder.Builder.AddIfStatementCommands | netqasm/sdk/builder.py:1157-1182 | the lowered if is appended with line numbers; on an error nothing is appended |
| Builder.Builder.HandleIf | netqasm/sdk/builder.py:1114-1155 | the pending commands become the lowered if around the body; on an error the pending list is left empty |
| Builder.Builder.EnterIfContext | netqasm/sdk/builder.py:1452-1460 | the pending commands are saved under the context id and the list starts empty |
| Builder.Builder.ExitIfContext | netqasm/sdk/builder.py:1462-1479 | an unknown context id raises; otherwise the saved commands are dropped from the saved ones and the if is lowered after them with the block's commands as body |
| Builder.Builder.NewArray | netqasm/sdk/builder.py:205-218 | a fresh address is taken even when the array is refused; a built array is recorded for return |
| Builder.Builder.NewRegister | netqasm/sdk/builder.py:220-226 | the lowest inactive R register is activated, set to the initial value and recorded for return; RuntimeError and no change when all are active |
| Builder.Builder.CreateEntResultsArray | netqasm/sdk/builder.py:958-968 | an array of OK_FIELDS_K or OK_FIELDS_M entries per pair at a fresh address, refused for no pairs |
| Builder.Builder.GetArrayInit | netqasm/sdk/builder.py:266-331 | the filling commands of one array, with the labels they take; active registers unchanged |
| Builder.Builder.GetUniformInit | netqasm/sdk/builder.py:283-299 | the loop for equal initial values, with the labels it takes; active registers unchanged |
| Builder.Builder.GetArrayCommands | netqasm/sdk/builder.py:266-331 | the set-up and return commands of every array to return, as ArrayCommands |
| Builder.Builder.AppendArrayCommands | netqasm/sdk/builder.py:276-331 | one array's declaration, filling and return appended, or its error |
| Builder.Builder.AddArrayCommands | netqasm/sdk/builder.py:259-264 | the pending commands between the array set-up and the array returns |
| Builder.Builder.AddRetRegCommands | netqasm/sdk/builder.py:251-257 | one RET_REG per register to return, after the pending commands |
| Builder.Builder.PopPendingSubroutine | netqasm/sdk/builder.py:241-249 | array set-up, pending commands, array returns and register returns as one subroutine; None exactly when there was nothing to send |
| Builder.Builder.AddSingleQubitRotationCommands | netqasm/sdk/builder.py:365-391 | the rotation commands appended; ValueError and no change for negative n or d |
| Builder.Builder.AddSingleQubitCommands | netqasm/sdk/builder.py:393-401 | `set Q0 id; instr Q0` appended |
| Builder.Builder.AddTwoQubitCommands | netqasm/sdk/builder.py:426-440 | control in Q0, target in Q1, then `instr Q0 Q1` |
| Builder.Builder.AddNewQubitCommands | netqasm/sdk/builder.py:508-519 | `set Q0 id; qalloc Q0; init Q0` appended |
| Builder.Builder.AddInitQubitCommands | netqasm/sdk/builder.py:521-528 | `set Q0 id; init Q0` appended |
| Builder.Builder.AddQFreeCommands | netqasm/sdk/builder.py:530-537 | `set Q0 id; qfree Q0` appended |
| Builder.Builder.AddMeasureCommands | netqasm/sdk/builder.py:463-498 | a new M register for the outcome (RuntimeError and no change when none is left); `meas Q0 M`, `qfree Q0` unless in place, then a STORE to an array entry (freeing the M register again) or the register recorded for return |
| Builder.Builder.GetLoopCommands | netqasm/sdk/builder.py:1367-1393 | fresh entry and exit labels, both recorded, around LoopCommands |
| Builder.Builder.AddLoopCommands | netqasm/sdk/builder.py:1295-1317 | the loop around the body appended after the preceding commands; its labels recorded |
| Builder.Builder.WrapInLoop | netqasm/sdk/builder.py:1269-1317 | the body's commands are added, popped and wrapped in the loop |
| Builder.Builder.HandleLoopRegister | netqasm/sdk/builder.py:1319-1338 | the chosen register; only one the builder picks itself is activated, and only when asked |
| Builder.Builder.LoopBody | netqasm/sdk/builder.py:1269-1293 | the loop is added after the set-aside commands, with its labels recorded; the loop register is inactive again afterwards; an unavailable register adds nothing |
| Builder.Builder.LoopAsWritten | netqasm/sdk/builder.py:1244-1267 | as written: with no register available the finally block raises UnboundLocalError; with a given register the loop is built and then its removal raises KeyError (with `builder.py` lines 1364-1365) |
| Builder.Builder.Loop | netqasm/sdk/builder.py:1244-1267 | corrected: the loop commands are added and the register is inactive afterwards, given or chosen |
| BuildTypes.NewHardwareConfig | netqasm/sdk/build_types.py:29-49 | a configuration exists exactly for a positive communication count and a non-negative memory count; it keeps both and offers their sum, at least one qubit; AssertionError otherwise |
| BuildTypes.NVHardwareConfig | netqasm/sdk/build_types.py:52-56 | defined exactly for at least one qubit: one communication qubit and n qubits in all |
| BuildTypes.GenericHardwareConfig | netqasm/sdk/build_types.py:59-64 | defined exactly for at least one qubit: no memory qubits and n qubits in all |
| BuildTypes.SameTotal | netqasm/sdk/build_types.py:47-64 | the two platforms with the same qubit number have the same total, and for more than one qubit they are different configurations |
| BuildEpr.RotationToBasis | netqasm/sdk/build_epr.py:197-211 | a basis is returned only when its rotations are the triple; None exactly when no basis has these rotations |
| BuildEpr.BasisRoundTrip | netqasm/sdk/build_epr.py:197-228 | every basis is read back from its own rotations |
| BuildEpr.RandomBasisValue | netqasm/qlink_compat.py:52-56 | the enum values 0 .. 3 |
| BuildEpr.TimeUnitValue | netqasm/qlink_compat.py:77-80 | the enum values 0 .. 2 |
| BuildEpr.DefaultParams | netqasm/sdk/build_epr.py:22-36 | microseconds, no maximum time, Phi+ expected, no random bases and zero rotations |
| BuildEpr.CreateLayoutMatchesRecord | netqasm/sdk/build_epr.py:39-61 | the serialised request has the fields of the link-layer create record after its first two, and each named index holds the field of that name |
| BuildEpr.ResultLayoutsMatchRecords | netqasm/sdk/build_epr.py:63-89 | the kept-pair and measured-pair index constants pick the matching field of a link-layer OK record |
| BuildEpr.SerializeRequest | netqasm/sdk/build_epr.py:95-124 | twenty entries; an entry holds a value exactly when the request writes it: type and number always, time unit and maximum time for a non-zero maximum time, and for M and R requests the non-zero rotations and the random bases given |
| BuildEpr.MeasuredEntries | netqasm/sdk/build_epr.py:108-122 | only the rotation and random-basis entries change, and each is set exactly as the request says |
| BuildEpr.DefaultRequestMinimal | netqasm/sdk/build_epr.py:95-124 | a default request carries only its type and number |
| BuildEpr.DeserializeEprKeepResults | netqasm/sdk/build_epr.py:127-151 | AssertionError exactly when the array does not hold ten entries per pair; otherwise one result per pair whose futures are that pair's entries in field order |
| BuildEpr.DeserializeEprMeasureResults | netqasm/sdk/build_epr.py:154-181 | as for kept pairs, and each result carries the request's rotations and is post-processed exactly when Phi+ is expected and this is the receiver |
| BuildEpr.BellStateOf | netqasm/qlink_compat.py:69-74 | a Bell state exactly for values 0 .. 3, with that value; ValueError otherwise |
| BuildEpr.ResultBellState | netqasm/sdk/build_epr.py:331-333 | AssertionError without a value; otherwise the Bell state of the value |
| BuildEpr.MeasurementOutcome | netqasm/sdk/build_epr.py:242-328 | without post-processing the raw outcome; with it, RuntimeError unless both sides measured in the same known basis, and then the bit flipped exactly by the correction table for its Bell state and basis |
| BuildEpr.XorOne | netqasm/sdk/build_epr.py:242-328 | the other bit |
| BuildEpr.Axis | netqasm/sdk/build_epr.py:12-18 | one of the three axes |
| BuildEpr.FlipsIsAnticommutation | netqasm/sdk/build_epr.py:290-326 | the correction table flips exactly when the Pauli error taking Phi+ to the Bell state anticommutes with the measured Pauli |
| BuildEpr.CorrectedOutcome | netqasm/sdk/build_epr.py:242-328 | with equal bases the corrected outcome is the raw bit flipped by anticommutation, and a Phi+ pair is never flipped |
| BuildEpr.KeepBellState | netqasm/sdk/build_epr.py:192-194 | a Bell state exactly when the value is known and in 0 .. 3, with that value |
| Futures.Future.constructor | netqasm/sdk/futures.py:238-253 | a new future on the address and index, with no cached value |
| Futures.Future.Value | netqasm/sdk/futures.py:163-169 | a cached value is returned and kept; otherwise the entry is read and cached only when it is defined |
| Futures.EntryValueOf | netqasm/sdk/futures.py:266-278 | a register index raises NonConstantIndexError; an absent array reads as None; a constant index reads the entry it names with Python's negative indexing, and fails exactly when it is outside the array |
| Futures.RegFuture.constructor | netqasm/sdk/futures.py:411-424 | a new register future on the register, with no cached value |
| Futures.RegFuture.Value | netqasm/sdk/futures.py:163-169 | the register is unchanged; a cached value is returned; without a register, AssertionError; otherwise the register's value, cached when it is defined (with `futures.py` lines 445-453) |
| Futures.IntOperand | netqasm/sdk/futures.py:37-64 | an int operation succeeds exactly when the future has a value and the other operand is not a future, and then works on that value; NoValueError without a value, RuntimeError against a future |
| Futures.AccessEntryParsed | netqasm/sdk/futures.py:390-402 | the entry text a future builds parses back to exactly that entry |
| Futures.Footprint | netqasm/sdk/futures.py:345-388 | the register futures reachable through the index chain are in the footprint |
| Futures.AccessCommands | netqasm/sdk/futures.py:337-388 | one command per level of the index chain, loads first, then the access itself; a future index is loaded into the lowest inactive register first; a register future needs its register; only LOAD and STORE are accepted |
| Futures.NestedAccess | netqasm/sdk/futures.py:345-388 | a future indexed by a constant-indexed future takes two commands: the inner entry is loaded into R0, and R0 indexes the access |
| Futures.AddCommand | netqasm/sdk/futures.py:307-328 | ADD of the other operand into the target, or ADDM with the modulus |
| Futures.ResolveAddend | netqasm/sdk/futures.py:285-286 | a text addend succeeds exactly when it parses as a register, and becomes that register; other addends are kept |
| Futures.OtherOperand | netqasm/sdk/futures.py:291-305 | an int or register is used directly with no commands and no register taken; a future addend takes the lowest inactive register, RuntimeError when there is none |
| Futures.FutureAddEffect | netqasm/sdk/futures.py:280-335 | on success the temporaries are released, so the active set is unchanged; RuntimeError when no register is free for the entry |
| Futures.RegFutureAddEffect | netqasm/sdk/futures.py:455-509 | AssertionError without a register; on success the active set is unchanged |
| Futures.NewArray | netqasm/sdk/futures.py:522-547 | an array exists exactly when given initial values are non-empty, or, without them, the length is positive; its length is the number of initial values when given; AssertionError otherwise |
| Futures.GetFutureIndex | netqasm/sdk/futures.py:572-582 | a fresh future on this array's address with the given index |
| Futures.GetFutureIndexByName | netqasm/sdk/futures.py:572-582 | a name fails exactly when it is not a register, and otherwise gives a fresh future indexed by that register |
| Futures.PyRange | netqasm/sdk/futures.py:597 | `range(start, stop, step)`: element k is start + k·step, all before stop in the direction of the step; for step 1 there are stop - start of them |
| Futures.PyRangeOf | netqasm/sdk/futures.py:597 | `range(*args)`: TypeError without arguments, the one-, two- and three-argument forms, ValueError for a zero step |
| Futures.Given | netqasm/sdk/futures.py:587-596 | at most three bounds are collected |
| Futures.SliceIndicesAsWritten | netqasm/sdk/futures.py:584-597 | as written: `range` over just the bounds given, in order |
| Futures.ClampBound | netqasm/sdk/futures.py:584-597 | the clamped bound stays in range; a non-negative bound in range is kept, a negative one counts from the end |
| Futures.SliceIndices | netqasm/sdk/futures.py:584-597 | corrected, Python's `slice.indices`: an error exactly for a zero step |
| Futures.RangeInside | netqasm/sdk/futures.py:584-597 | a range with clamped ends stays inside the array |
| Futures.SliceIndicesInside | netqasm/sdk/futures.py:584-597 | every index of a slice names an element, and consecutive indices are one step apart |
| Futures.SliceIndicesContiguous | netqasm/sdk/futures.py:584-597 | without a step, [lo:hi] inside the array is lo .. hi - 1 |
| Futures.SliceNegativeStart | netqasm/sdk/futures.py:584-597 | [-k:] is the last k elements |
| Futures.SliceReversed | netqasm/sdk/futures.py:584-597 | [::-1] is every element, last first |
| Futures.ReverseRangeLength | netqasm/sdk/futures.py:597 | range(m, -1, -1) has m + 1 elements |
| Futures.SliceAsWrittenAgrees | netqasm/sdk/futures.py:584-597 | with both bounds inside the array and a forward step, the code as written and the corrected slice agree |
| Futures.SliceMissingStop | netqasm/sdk/futures.py:597 | [2:] of a length-4 array gives indices 0, 1 as written, 2, 3 corrected |
| Futures.SliceNoBounds | netqasm/sdk/futures.py:597 | [:] raises TypeError as written; corrected it is the whole array |
| Futures.FuturesAt | netqasm/sdk/futures.py:597 | one fresh future per index, in order, on this array |
| Futures.GetFutureSlice | netqasm/sdk/futures.py:584-597 | as written: the error of `range` over the given bounds, or one future per index of that range, in order |
| Futures.GetFutureSliceIntended | netqasm/sdk/futures.py:584-597 | corrected: an error exactly for a zero step; otherwise one future per element of the slice, each inside the array |
| EprSockets.GetRotationsFromBasis | netqasm/sdk/epr_socket.py:280-294 | the rotations of the basis, the same table the results are read back with |
| EprSockets.RotationsOf | netqasm/sdk/epr_socket.py:365-368 | a given basis replaces the explicit rotations; without one, the rotations are kept |
| EprSockets.EprSocket.constructor | netqasm/sdk/epr_socket.py:72-114 | a socket keeps its names, ids and fidelity and has no connection or remote node id yet |
| EprSockets.EprSocket.Conn | netqasm/sdk/epr_socket.py:116-121 | the connection exactly when one is set; RuntimeError otherwise |
| EprSockets.EprSocket.SetConn | netqasm/sdk/epr_socket.py:123-126 | the connection is kept in any case; the remote node id becomes the remote application's node id, or the lookup's ValueError is returned and the old id stays |
| EprSockets.EprSocket.RemoteNodeId | netqasm/sdk/epr_socket.py:133-138 | the remote node id exactly when it is set; RuntimeError otherwise |
| EprSockets.EprSocket.Call | netqasm/sdk/epr_socket.py:155-247 | RuntimeError without a connection or without a remote node id; otherwise the routine with a request headed by the remote node id and this socket's id, expecting Phi+ |
| EprSockets.EprSocket.CreateKeepCall | netqasm/sdk/epr_socket.py:155-278 | `create_keep`: no random bases and zero rotations |
| EprSockets.EprSocket.CreateMeasureCall | netqasm/sdk/epr_socket.py:296-384 | succeeds exactly with a connection and a remote node id; never sequential; a basis given for a side replaces that side's rotations, otherwise they are kept; random bases are passed on |
| EprSockets.EprSocket.CreateRspCall | netqasm/sdk/epr_socket.py:386-460 | never sequential; only the local rotations are chosen, replaced by the basis when one is given; nothing is asked of the remote side |
| EprSockets.EprSocket.RecvKeepCall | netqasm/sdk/epr_socket.py:657-734 | `recv_keep`: microseconds, no maximum time, no bases |
| EprSockets.EprSocket.RecvMeasureCall | netqasm/sdk/epr_socket.py:736-765 | never sequential and no rotations: the bases are the creator's to choose |
| EprSockets.EprSocket.RecvRspCall | netqasm/sdk/epr_socket.py:767-827 | `recv_rsp`: never sequential, no bases |
| EprSockets.EprSocket.CreateCall | netqasm/sdk/epr_socket.py:462-616 | the deprecated `create` dispatches on the type: K to create_keep, M to create_measure, R to create_rsp without the local rotations |
| EprSockets.EprSocket.RecvCall | netqasm/sdk/epr_socket.py:829-871 | the deprecated `recv` dispatches K, M and R to the three receive calls |
| EprSockets.NewEprSocket | netqasm/sdk/epr_socket.py:72-114 | a socket exactly when the minimum fidelity is in 0 .. 100, fresh and without a connection; ValueError otherwise |
| EprSockets.MeasureBasisSerialized | netqasm/sdk/epr_socket.py:296-384 | a measured request with a basis other than Z carries that basis's rotations in the serialised request, and they read back as the basis |
| Connection.AppIdTable.constructor | netqasm/sdk/connection.py:91-227 | no names are registered |
| Connection.AppIdTable.GetNewAppId | netqasm/sdk/connection.py:312-332 | without an id, the smallest natural number not in use under the name is claimed; a given id is claimed unless it is in use, which raises ValueError; the name is registered in any case |
| Connection.AppIdTable.PopAppId | netqasm/sdk/connection.py:334-339 | KeyError for a name never registered; otherwise the first occurrence of the id leaves the list, and an id already gone is ignored |
| Connection.ClaimedIdIsNew | netqasm/sdk/connection.py:312-332 | a claimed id was not in use |
| Connection.ClaimThenPop | netqasm/sdk/connection.py:312-339 | claiming an id and releasing it gives back the list as it was |
| Connection.CheckEprSockets | netqasm/sdk/connection.py:447-460 | the sockets are accepted exactly when none has the connection's own application as remote; ValueError otherwise |
| Connection.GetNodeId | netqasm/sdk/connection.py:864-869 | an id exactly when the name is listed, and then one listed beside it; ValueError otherwise |
| Connection.GetNodeName | netqasm/sdk/connection.py:872-877 | a name exactly when the id is listed: the first one listed with it; ValueError otherwise |
| Connection.GetNodeIdForApp | netqasm/sdk/connection.py:880-882 | an application's node is the node of the same name |
| Connection.GetNodeNameForApp | netqasm/sdk/connection.py:885-887 | the application name itself |
| Connection.NodeLookupsAgree | netqasm/sdk/connection.py:864-877 | with distinct names, name to id to name to id gives the same id |
| Connection.NameDetermines | netqasm/sdk/connection.py:864-869 | with distinct names, a listed name gives the id next to it |
| Compiling.StaticGateTurns | netqasm/sdk/compiling.py:470-538 | corrected table of rotations for x, y, z, h, k, s and t: one to three turns each, with s and t turning z by +π/2 and +π/4 |
| Compiling.StaticGateTurnsAsWritten | netqasm/sdk/compiling.py:470-580 | as written: identical to the corrected table except that the middle y turn of s and t is the opposite angle |
| Compiling.GetHardwareNumDenom | netqasm/sdk/compiling.py:617-627 | succeeds exactly for an immediate numerator and a denominator immediate in 0 .. 4 (ValueError for another denominator); the result is over denominator 4 and denotes the same angle |
| Compiling.RotationAngle | netqasm/sdk/compiling.py:581-610 | the angle operands are kept, or rewritten over denominator 4 on hardware |
| Compiling.MapSingleGate | netqasm/sdk/compiling.py:466-614 | NV gates and rotations are refused with ValueError; a static gate becomes its table of NV rotations of the same register; a vanilla rotation becomes the NV rotation about the same axis with the same angle; the result is non-empty and native |
| Compiling.SwapSequence | netqasm/sdk/compiling.py:53-123 | twelve steps, fourteen with the debug markers |
| Compiling.Swap | netqasm/sdk/compiling.py:53-123 | the swap sequence on the electron and the carbon: twelve steps, fourteen when debugging |
| Compiling.MoveElectronCarbon | netqasm/sdk/compiling.py:198-228 | four steps |
| Compiling.MoveCarbonElectron | netqasm/sdk/compiling.py:230-266 | six steps |
| Compiling.CnotElectronCarbon | netqasm/sdk/compiling.py:369-394 | three steps |
| Compiling.CnotCarbonElectron | netqasm/sdk/compiling.py:396-436 | nine steps |
| Compiling.CphaseElectronCarbon | netqasm/sdk/compiling.py:314-345 | five steps |
| Compiling.UnusedRegister | netqasm/sdk/compiling.py:43-51 | the lowest of Q0..Q15 not used so far; RuntimeError exactly when all sixteen are used |
| Compiling.UnusedRegisterFrom | netqasm/sdk/compiling.py:47-51 | the loop from Q{i} on finds the lowest unused register, and fails exactly when every one from Q{i} is used |
| Compiling.CarbonCarbon | netqasm/sdk/compiling.py:347-367 | a carbon-carbon gate is compiled exactly when a Q register is still unused; RuntimeError otherwise (with `compiling.py` lines 438-458) |
| Compiling.RegValue | netqasm/sdk/compiling.py:39-41 | the value recorded for the register; KeyError exactly when there is none |
| Compiling.HandleTwoQubitGate | netqasm/sdk/compiling.py:268-312 | a compiled two-qubit gate is at least three steps |
| Compiling.TwoQubitOutcomes | netqasm/sdk/compiling.py:268-312 | success on cnot or cphase needs two known, different ids; equal ids fail the assertion; AttributeError exactly when a known value is not an immediate; a mov succeeds exactly between different ids of which one is 0; cnot and cphase on different ids succeed exactly when one id is 0 or a Q register is free |
| Compiling.UnknownIds | netqasm/sdk/compiling.py:273-280 | with an unknown id only a mov is compiled; anything else fails the assertion |
| Compiling.RegsOf | netqasm/sdk/compiling.py:154-157 | exactly the registers among the operands |
| Compiling.Expand | netqasm/sdk/compiling.py:161-168 | an instruction that is no gate is copied; a compiled gate is a non-empty run of native instructions |
| Compiling.ScanUpTo | netqasm/sdk/compiling.py:134-168 | every instruction the first loop emits has the shapes the second loop needs and is of no vanilla class |
| Compiling.RetargetUpTo | netqasm/sdk/compiling.py:172-186 | the second loop keeps the number of instructions |
| Compiling.ScanStepKept | netqasm/sdk/compiling.py:134-168 | one step of the first loop keeps every emitted instruction of no vanilla class |
| Compiling.NvSubroutineCompiler.constructor | netqasm/sdk/compiling.py:33-37 | a compiler over the subroutine with no registers used and no values known |
| Compiling.NvSubroutineCompiler.GetUnusedRegister | netqasm/sdk/compiling.py:43-51 | the loop returns UnusedRegister of the registers used |
| Compiling.NvSubroutineCompiler.Compile | netqasm/sdk/compiling.py:125-196 | the subroutine, registers used and values known become those of the compile specification; the subroutine changes only on success |
| Compiling.NvSubroutineCompiler.ScanInstr | netqasm/sdk/compiling.py:134-168 | one pass of the first loop is one step of the scan specification |
| Compiling.NvSubroutineCompiler.ScanCommands | netqasm/sdk/compiling.py:134-168 | the first loop is the scan over all commands: the registers used, the values known, the emitted commands and the start indices, or the first exception |
| Compiling.RetargetBranches | netqasm/sdk/compiling.py:170-186 | the second loop is RetargetUpTo over all emitted commands |
| Compiling.ScanStops | netqasm/sdk/compiling.py:134-168 | once the first loop has raised, the later instructions change nothing |
| Compiling.RetargetStops | netqasm/sdk/compiling.py:172-186 | once the second loop has raised, the later instructions change nothing |
| CompilingProps.VanillaOpListed | netqasm/lang/instr/flavour.py:78-98 | the vanilla classes are exactly the instructions the vanilla flavour lists |
| CompilingProps.ScanLast | netqasm/sdk/compiling.py:134-168 | a first loop that has not raised is the loop over one instruction fewer plus that instruction's non-empty expansion, whose first instruction is the copy or a native one, with its start index recorded |
| CompilingProps.ScanStarts | netqasm/sdk/compiling.py:159 | one start index per instruction, the first at 0, increasing, each inside the emitted commands |
| CompilingProps.ScanCopies | netqasm/sdk/compiling.py:159-168 | an instruction that is copied sits at its start index |
| CompilingProps.ScanNative | netqasm/sdk/compiling.py:159-166 | a compiled gate starts with a native instruction at its start index |
| CompilingProps.RetargetPointwise | netqasm/sdk/compiling.py:172-186 | the second loop succeeds exactly when each instruction re-targets, re-targets each in place, and asks for the no-op exactly when one of them does |
| CompilingProps.CompiledShape | netqasm/sdk/compiling.py:125-196 | a successful compile is the second loop's output, with the no-op appended exactly when it was asked for |
| CompilingProps.NoVanillaLeft | netqasm/sdk/compiling.py:125-196 | after a successful compile no instruction of a vanilla class is left, and the version and application id are kept |
| CompilingProps.RetargetKept | netqasm/sdk/compiling.py:172-186 | re-targeting keeps every instruction of no vanilla class |
| CompilingProps.CompiledCommands | netqasm/sdk/compiling.py:170-195 | the compiled commands are the emitted ones re-targeted one by one, followed by `set C15 1337` exactly when some branch pointed past the end |
| CompilingProps.RetargetKeepsOp | netqasm/sdk/compiling.py:172-186 | re-targeting keeps the instruction's kind and shape |
| CompilingProps.CompiledAt | netqasm/sdk/compiling.py:159-195 | a copied instruction ends up, re-targeted, at its start index, with the no-op at the end when its re-targeting asked for it |
| CompilingProps.BranchTargets | netqasm/sdk/compiling.py:172-186 | a non-branch is copied unchanged; a branch to original line t now points at t's start index, and a branch to the end points at the appended no-op |
| CompilingShapes.SingleClassAgrees | netqasm/lang/instr/core.py:15-26 | the single-qubit gates the compiler matches are exactly the single-qubit class |
| CompilingShapes.RotationClassAgrees | netqasm/lang/instr/core.py:57-105 | the rotations the compiler matches are exactly the rotation class |
| CompilingShapes.TwoQubitClassAgrees | netqasm/lang/instr/core.py:30-53 | the two-qubit gates the compiler matches are exactly the two-qubit class |
| CompilingShapes.WellTypedShaped | netqasm/lang/instr/core.py:15-105 | every well-typed instruction has the operand shapes the compiler relies on |
| NvSemantics.Mod8 | netqasm/sdk/compiling.py:466-614 | the residue modulo 8 in 0 .. 7 |
| NvSemantics.ZByConjugation | netqasm/sdk/compiling.py:488-508 | turning x by -π/2, y by θ and x back by π/2 turns z by θ |
| NvSemantics.GateXMeaning | netqasm/sdk/compiling.py:470-478 | the x table does what x does to every Bloch vector |
| NvSemantics.GateYMeaning | netqasm/sdk/compiling.py:479-487 | the y table does what y does |
| NvSemantics.GateZMeaning | netqasm/sdk/compiling.py:488-508 | the z table does what z does |
| NvSemantics.GateHMeaning | netqasm/sdk/compiling.py:509-523 | the h table does what h does |
| NvSemantics.GateKMeaning | netqasm/sdk/compiling.py:524-538 | the k table does what k does |
| NvSemantics.GateSMeaning | netqasm/sdk/compiling.py:539-559 | the corrected s table does what s does |
| NvSemantics.GateTMeaning | netqasm/sdk/compiling.py:560-580 | the corrected t table does what t does |
| NvSemantics.StaticGateMeaning | netqasm/sdk/compiling.py:470-580 | every corrected static gate table does what its gate does, on every Bloch vector |
| NvSemantics.AsWrittenTurns | netqasm/sdk/compiling.py:539-580 | the s and t tables as written turn z by 3π/2 and 7π/4 |
| NvSemantics.AsWrittenUndoesGate | netqasm/sdk/compiling.py:539-580 | the s and t tables as written undo s and t |
| NvSemantics.AsWrittenMissesGate | netqasm/sdk/compiling.py:539-580 | on |+> the s and t tables as written do not do what s and t do |
| NvSemantics.SAsWrittenMisses | netqasm/sdk/compiling.py:539-559 | the s table as written differs from s on every vector with a non-zero x coordinate |
| NvSemantics.TAsWrittenMisses | netqasm/sdk/compiling.py:560-580 | the t table as written differs from t on every vector on the x axis |
| NvSemantics.ReadTurn | netqasm/sdk/compiling.py:466-614 | a turn is read back only from the NV rotation it lowers to |
| NvSemantics.ReadTurns | netqasm/sdk/compiling.py:466-614 | one turn per instruction when read back |
| NvSemantics.ReadTurnsLowered | netqasm/sdk/compiling.py:466-614 | lowering a table of turns and reading it back gives the table |
| NvSemantics.MapSingleGateMeaning | netqasm/sdk/compiling.py:466-614 | with the corrected s and t tables, what the compiler emits for a static gate is a run of rotations of its register whose turns do what the gate does on every Bloch vector; as written, s and t give S† and T† (AsWrittenUndoesGate) |

## Left out

- MeasBasisInstruction (`netqasm/lang/instr/core.py:491`) derives from `RegRegImm4Instruction`, which `base.py` does not define. Only its generic name, id and mnemonic are modelled (`MeasBasis` of `IR.GenericInstr`); it has no operands, encoding or executor step.
- Breakpoint serialization: `BreakpointInstruction` (`core.py:676`) is laid out as two immediates, but `encoding.py` has no `ImmImmCommand`. Serializing a breakpoint is therefore `Err(AttributeError)`, and there is no breakpoint decoding (`Instructions.BreakpointHasNoEncoding`).
- The quantum `_do_*` hooks of the executor (`netqasm/backend/executor.py:738-1152`) are abstract in the base class. Gates, measurements and EPR generation are parameters of the model. The base `_do_meas` returns 0.
- The network stack (`executor.py:257-270`) is reduced to three things: whether it is present, a purpose-id parameter, and a log of the requests put to it. `setup_epr_socket` (`executor.py:298-319`) is not modelled.
- The EPR retry is not modelled. `_wait_to_handle_epr_responses` (`executor.py:1537-1539`) retries by recursion; `VmEpr.HandlePending` gives Stuck when a pass handles nothing.
- `wait_all`, `wait_any` and `wait_single` (`executor.py:1154-1215`) poll in `while True` loops that yield to a simulator. They are modelled as one step that is `Blocked` while the awaited entries are unset.
- VmRun.Run is bounded by a `fuel` step count and ends in `OutOfFuel` when the fuel runs out. `_execute_commands` (`executor.py:431-458`) loops without a bound.
- The executor's conversion of angles to radians is floating point (`executor.py:804-805`). Rotations are passed on as the `(n, d)` pair.
- The qlink-1.0 conversions are not modelled: `request_to_qlink_1_0` (`netqasm/qlink_compat.py:241`) and `response_from_qlink_1_0` (`netqasm/qlink_compat.py:294`) and the conversion inside `_handle_epr_response` (`executor.py:1479-1490`). Neither are the instruction logger or the simulated time.
- Python's negative list indexing is kept, not rejected. Every indexed read and write of registers, arrays and command lists goes through `Memory.PyIndex` (`memory.dfy:163`), which accepts `-n <= i < n`.
- Some dynamic-type errors cannot happen, because the Dafny types rule them out:
  - `_handle_loop_register` given a `str` or a non-Register (`netqasm/sdk/builder.py:1322-1331`): the model takes an `Option<Register>`, so neither `parse_register` nor the ValueError is modelled;
  - a non-int bound in `get_future_slice` (`netqasm/sdk/futures.py:590-595`), which raises NotImplementedError: the bounds are `Option<int>`;
  - `isinstance(x, int)` tests that a Future or RegFuture would pass, since they subclass `int`: the future index of such an operand is not modelled.
- Version skew: `qubit.py`, `futures.py` and `epr_socket.py` call builder methods (`_build_cmds_*`, `_build_cmds_epr`, `_build_cmds_wait`) that `builder.py` does not define. They are modelled against the builder's state as an abstract command list. The qubit gate methods (`netqasm/sdk/qubit.py:201-347`: X to cphase, the `rot_*` methods, reset, free) only call `_build_cmds_*`, so they are left out. `EntRequestParams` omits `post_routine`, and `create_context` / `recv_context` are left out.
- EprSockets.EprSocket.CreateCall: the request type R (`epr_socket.py:462-616`) does not pass `rotations_local` on to `create_rsp`. The model follows the code.
- Qubit handles are reduced to their ids, and the builder's line tracker to the line it reports.
- VmProps.MappingInjective is stated over all apps together: no physical qubit is mapped from two slots, of the same app or of different apps.
- In futures: from `futures.py`, `foreach`, `enumerate`, `undefine` and `Array.__getitem__` (599-659) and `BaseFuture.if_*` (197-225) are not modelled. Comparisons of future ids are left out. A FutureQubit's qubit id is 0 (`BaseFuture.__new__` builds the int 0).
- The two-qubit NV sequences are not given a meaning. `Compiling.Swap`, `Compiling.MoveElectronCarbon`, `Compiling.MoveCarbonElectron`, `Compiling.CnotElectronCarbon`, `Compiling.CnotCarbonElectron` and `Compiling.CphaseElectronCarbon` are stated only by their lengths and shapes. Only the single-qubit rotations have a semantics (`NvSemantics`).
- Compiling.NvSubroutineCompiler.Compile over a DebugInstruction is an error: its `operands` is None, so `compile` raises TypeError.
- `netqasm/lang/symbols.py` is not part of this model. The constants come from the older `Symbols` class (`netqasm/subroutine.py:157-170`), with `$` as the macro marker.
- `text.py` imports `PreSubroutine`, but `ir.py` defines `ProtoSubroutine`. They are treated as the same class.
- TextValues.ParseValue / TextPreamble.DefineLines / TextValues.ParseBodyLine: use the intended StringUtil.IsVariableName, not the code's `<` test (`netqasm/util/string.py:44`). Under the code as written (StringUtil.IsVariableNameAsWritten), a name using all 63 allowed characters would be refused by these; see "## Findings".
- StringUtil.PyInt accepts an optional `-` followed by decimal digits. It is narrower than Python's `int()`, which also accepts `+`, surrounding spaces and underscores.
- Messages.DeserializeReturnMsg / Messages.ReturnRoundTrip: decode a returned array with the corrected Messages.ReturnArrayFromRaw. There a None entry comes back as None, and an entry of unknown type is a TypeError. As written (`netqasm/backend/messages.py:313-319`, reached from 347-357), each entry is read as its int field: None arrives as 0, and there is no TypeError. That behaviour is Messages.ReturnArrayFromRawAsWritten, with Messages.ReturnArrayRoundTripAsWritten and Messages.NoneArrivesAsZero; see "## Findings".
- Compiling.MapSingleGate / Compiling.Expand / Compiling.ScanUpTo / Compiling.CompileSpec / Compiling.NvSubroutineCompiler.Compile / Compiling.NvSubroutineCompiler.ScanInstr / Compiling.NvSubroutineCompiler.ScanCommands: compile `s` and `t` with the corrected table Compiling.StaticGateTurns. The middle turn is `rot_y q 8 4` for s and `rot_y q 4 4` for t. The code (`netqasm/sdk/compiling.py:548-551` and `569-572`) emits `rot_y q 24 4` and `rot_y q 28 4`; that table is Compiling.StaticGateTurnsAsWritten. For subroutines containing s or t, the compiled output is therefore the intended one, not the code's; see "## Findings".
- NvSemantics.MapSingleGateMeaning: proved of the compiler with the corrected s and t tables. For the tables as written, NvSemantics.AsWrittenUndoesGate shows that s and t give S† and T†.
- TextLines.Classify / TextLines.SplitPreambleBody / TextLines.SplitPreambleBodyMeaning / Text.PresubroutineSpec / Text.ParseTextPresubroutine / Text.ParseTextSubroutine: classify preamble lines with the corrected TextLines.PreambleEntry, so a preamble line that is just `#` is skipped. As written (`netqasm/lang/parsing/text.py:308-312`), such a line is kept as an empty entry, which `_parse_preamble` (`text.py:334-362`) rejects with NetQASMInstrError. A text with such a line therefore parses in the model and fails in the code; TextLines.PreambleEntryAsWritten and TextLines.BareMarkerFinding state the code's behaviour.
- Builder.LoweredIf / Builder.Builder.AddIfStatementCommands / Builder.Builder.HandleIf / Builder.Builder.ExitIfContext: lower `if_ez` and `if_nz` through the corrected Builder.BranchOperands and Builder.Builder.GetBranchCommands, with one operand. As written (`netqasm/sdk/builder.py:1130-1136` with `1184-1241`), the second operand is None and building the branch raises TypeError. Every `if_ez`/`if_nz` therefore succeeds in the model and fails in the code; Builder.IfZeroAsWrittenFails proves the failure.
- Compiling.NvSubroutineCompiler.Compile: on an error, it promises the subroutine is unchanged. The code has by then already rewritten instruction objects in place: it retargets `instr.line` of branches (`netqasm/sdk/compiling.py:172-186`) and sets `instr.reg0 = electron` (`compiling.py:359` and `450`). Instructions are values here, so these partial rewrites are not modelled, and neither is the aliasing of instruction objects shared with other holders.
- Messages: the structures declare `_pack = 1`, which is not ctypes' `_pack_`. They are therefore naturally aligned, and the sizes include the padding.
- Floating-point `to_matrix` and the gate matrices are not modelled; `NvSemantics` uses exact Bloch-vector arithmetic in Q(√2) instead.
- Out of scope: the socket and thread concurrency of the back end, the runtime, CLI and logging, and the rest of `connection.py` (committing messages, polling, tomography).

## Findings

| source | as written | input that shows it | evidently intended | confidence | as-written member | corrected member |
|---|---|---|---|---|---|---|
| netqasm/util/string.py:44 | `set(variable) < set(ALPHA_NUM + "_")` is a proper-subset test | a name that starts with a letter and uses all 63 letters, digits and `_` is refused | every name of letters, digits and `_` starting with a letter is a variable name (`<=`) | high, not executed | StringUtil.IsVariableNameAsWritten, StringUtil.VariableNameFinding | StringUtil.IsVariableName |
| netqasm/lang/parsing/text.py:305-310 | `lstrip("#")` removes every `#` before the test `line == "#"` | the preamble line `#` becomes `""`, which is kept as an entry and then fails as an instruction | a line holding only `#` is ignored, as its comment says | high, not executed | TextLines.PreambleEntryAsWritten, TextLines.BareMarkerFinding | TextLines.PreambleEntry |
| netqasm/sdk/compiling.py:539-580 | s is `rot_x(3π/2) rot_y(3π/2) rot_x(π/2)`, t is `rot_x(3π/2) rot_y(7π/4) rot_x(π/2)` | on \|+⟩ the s table turns the Bloch vector to −y, where S turns it to +y | s and t with `rot_y(π/2)` and `rot_y(π/4)`. With R(θ)=exp(−iθσ/2) (`netqasm/util/quantum_gates.py:39`) the h and k tables are right and these two are the inverses S† and T†. The matrix assertion of `tests/test_compiling.py:205` is commented out | medium, not executed | Compiling.StaticGateTurnsAsWritten, NvSemantics.AsWrittenTurns, NvSemantics.SAsWrittenMisses, NvSemantics.TAsWrittenMisses, NvSemantics.AsWrittenUndoesGate, NvSemantics.AsWrittenMissesGate | Compiling.StaticGateTurns, NvSemantics.GateSMeaning, NvSemantics.GateTMeaning, NvSemantics.StaticGateMeaning |
| netqasm/sdk/builder.py:1130-1136 | `if_ez` / `if_nz` pass `b=None` (lines 1132 and 1136), and `_get_branch_commands` (lines 1199-1224) requires every operand to be a Future, RegFuture or int | `if_ez(0, body)` raises TypeError for the second operand | a unary branch `bnz`/`bez` with the one operand before the body | high, not executed | Builder.IfZeroAsWrittenFails, Builder.Builder.GetBranchCommandsAsWritten | Builder.IfZeroBranches, Builder.Builder.GetBranchCommands |
| netqasm/sdk/builder.py:1257-1266 | the `finally` block always removes the loop register (`_remove_active_register`, lines 1364-1365), which `_handle_loop_register` activates only when it chooses one; when choosing fails, the block reads the unbound result | `loop(3, loop_register=R0)` ends with KeyError after adding the loop; a failing choice ends in UnboundLocalError | a given register is active during the loop and inactive after it, and a failed choice raises its own error | high, not executed | Builder.Builder.LoopAsWritten | Builder.Builder.Loop |
| netqasm/backend/messages.py:313-319 | `v.value` for each `OptionalInt` of the array. `OptionalInt` (`netqasm/lang/encoding.py:46-69`) declares a field `value` in `_fields_` and a method `value()`. The ctypes metaclass installs the field descriptor on the class after the body runs, so the descriptor replaces the method | the array `[None]` arrives as `[0]` | `value()` is called, and None comes back as None | high, not executed | Messages.ReturnArrayFromRawAsWritten, Messages.NoneArrivesAsZero | Messages.ReturnArrayFromRaw |
| netqasm/sdk/futures.py:597 | `range(*range_args)` over whichever of start, stop and step are not None | `[2:]` on a length-4 array gives indices 0, 1; `[:]` calls `range()`, a TypeError | the indices of Python's `slice.indices` over the array's length | high, not executed | Futures.SliceIndicesAsWritten, Futures.SliceMissingStop, Futures.SliceNoBounds, Futures.GetFutureSlice | Futures.SliceIndices, Futures.GetFutureSliceIntended |
