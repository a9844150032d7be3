// `netqasm/lang/parsing/text.py`, the pure parsers of one body line:
// constants, registers, labels, addresses with an index or a slice,
// operand words, the bracketed arguments, the version string and the line
// itself.

module TextValues {
  import opened Wrappers
  import opened PyStr
  import opened StringUtil
  import opened Symbols
  import opened Operand
  import opened IR

  /** `_parse_constant`: NetQASMSyntaxError unless the text is a number. */
  function ParseConstant(s: string): (r: Result<int>)
    ensures r.Ok? <==> IsNumber(s)
    ensures r.Err? ==> r.error == Raise(SyntaxError)
  {
    if IsNumber(s) then Ok(ParseNumber(s)) else Fail(SyntaxError)
  }

  /** Every integer's text is read back as that integer. */
  lemma ConstantRoundTrip(i: int)
    ensures ParseConstant(IntToString(i)) == Ok(i)
  {
    IntToStringRoundTrip(i);
  }

  /** A number starts with '-' or a digit. */
  lemma NumberLead(s: string)
    requires IsNumber(s)
    ensures s[0] == '-' || IsDigit(s[0])
  {
    if !StartsWith(s, "-") {
      assert Magnitude(s) == s;
    }
  }

  /**
   * `parse_register`: the first character names the bank (the empty text
   * raises IndexError, another letter NetQASMSyntaxError) and the rest
   * must be a number. No bound is put on the index.
   */
  function ParseRegister(s: string): (r: Result<Register>)
    ensures s == [] ==> r == Fail(IndexError)
    ensures s != [] && r.Err? ==> r.error == Raise(SyntaxError)
    ensures r.Ok? <==> s != [] && RegNameOfLetter(s[0]).Some? && IsNumber(s[1..])
    ensures r.Ok? ==> r.value == Register(RegNameOfLetter(s[0]).value, ParseNumber(s[1..]))
  {
    if s == [] then Fail(IndexError)
    else
      match RegNameOfLetter(s[0])
      case None => Fail(SyntaxError)
      case Some(name) =>
        var index :- ParseConstant(s[1..]);
        Ok(Register(name, index))
  }

  /** The text of an integer is '-' or digits throughout and ends in a digit. */
  lemma IntTextChars(i: int)
    ensures forall k :: 0 <= k < |IntToString(i)| ==> IntToString(i)[k] == '-' || IsDigit(IntToString(i)[k])
    ensures IsDigit(IntToString(i)[|IntToString(i)| - 1])
  {
    var s := IntToString(i);
    if i < 0 {
      var d := NatToString(-i);
      assert s == "-" + d;
      assert forall k :: 1 <= k < |s| ==> s[k] == d[k - 1];
    }
  }

  /** Every register's text, whatever its index, is parsed back to it. */
  lemma RegisterRoundTrip(r: Register)
    ensures ParseRegister(RegisterText(r)) == Ok(r)
  {
    ConstantRoundTrip(r.index);
  }

  /** `parse_register` has no bound: "R16" parses, though `Register.from_str` rejects it. */
  lemma WideRegisterAccepted()
    ensures ParseRegister("R16") == Ok(Register(R, 16))
    ensures RegisterFromStr("R16").Err?
  {
    RegisterRoundTrip(Register(R, 16));
    assert RegisterText(Register(R, 16)) == "R16";
  }

  /** A parsed value: `int`, `Register` or `Label`. */
  datatype Value = VInt(i: int) | VReg(r: Register) | VLabel(name: string)

  /**
   * `_parse_value`: a constant if the text is a number, else a register if
   * it parses as one, else (when labels are allowed) a label if it is a
   * variable name; a NetQASMSyntaxError from each attempt moves on to the
   * next, any other error (the IndexError of an empty text) is raised.
   */
  function ParseValue(s: string, allowLabel: bool): (r: Result<Value>)
    ensures IsNumber(s) ==> r == Ok(VInt(ParseNumber(s)))
    ensures !IsNumber(s) && ParseRegister(s).Ok? ==> r == Ok(VReg(ParseRegister(s).value))
    ensures s != [] && !IsNumber(s) && ParseRegister(s).Err? && allowLabel && IsVariableName(s) == Ok(true) ==> r == Ok(VLabel(s))
    ensures s == [] ==> r == Fail(IndexError)
    ensures r.Ok? && r.value.VLabel? ==> allowLabel
    ensures r.Err? && s != [] ==> r.error == Raise(SyntaxError)
    ensures r.Err? <==> s == [] || (!IsNumber(s) && ParseRegister(s).Err? && !(allowLabel && IsVariableName(s) == Ok(true)))
  {
    var c := ParseConstant(s);
    if c.Ok? then Ok(VInt(c.value))
    else
      var reg := ParseRegister(s);
      if reg.Ok? then Ok(VReg(reg.value))
      else if reg.error.kind != SyntaxError then Err(reg.error)
      else if allowLabel && IsVariableName(s) == Ok(true) then Ok(VLabel(s))
      else Fail(SyntaxError)
  }

  /** A register's text is read as the register, never as a label. */
  lemma RegisterValue(r: Register, allowLabel: bool)
    ensures ParseValue(RegisterText(r), allowLabel) == Ok(VReg(r))
  {
    RegisterRoundTrip(r);
    var s := RegisterText(r);
    if IsNumber(s) {
      NumberLead(s);
    }
  }

  /** A variable name that does not read as a register is a label. */
  lemma LabelValue(n: string)
    requires IsVariableName(n) == Ok(true) && ParseRegister(n).Err?
    ensures ParseValue(n, true) == Ok(VLabel(n))
  {
    if IsNumber(n) {
      NumberLead(n);
    }
  }

  /** A label named like a register, such as "R0", is read as the register. */
  lemma RegisterShadowsLabel()
    ensures IsVariableName("R0") == Ok(true)
    ensures ParseValue("R0", true) == Ok(VReg(Register(R, 0)))
  {
    RegisterValue(Register(R, 0), true);
    assert RegisterText(Register(R, 0)) == "R0";
  }

  /**
   * `_split_of_bracket(word, brackets)`: the text up to the first opening
   * bracket and the rest; no bracket gives the word and ""; a bracketed
   * word must end with the closing bracket (NetQASMSyntaxError).
   */
  function SplitOfBracket(word: string, open: char, close: char): (r: Result<(string, string)>)
    ensures r.Err? <==> open in word && |word| > 0 && word[|word| - 1] != close
    ensures r.Err? ==> r.error == Raise(SyntaxError)
    ensures r.Ok? ==> r.value.0 + r.value.1 == word && open !in r.value.0
    ensures r.Ok? && open in word ==> |r.value.1| > 0 && r.value.1[0] == open && r.value.1[|r.value.1| - 1] == close
    ensures open !in word ==> r == Ok((word, []))
  {
    var start := Find(word, [open]);
    FindChar(word, open);
    if start == -1 then Ok((word, []))
    else
      if word[|word| - 1] != close then Fail(SyntaxError)
      else
        assert word[..start] + word[start..] == word;
        Ok((word[..start], word[start..]))
  }

  /** The first opening bracket at `k` of a word that ends with the closing one splits it there. */
  lemma SplitAt(word: string, open: char, close: char, k: nat)
    requires k < |word| && word[k] == open && open !in word[..k] && word[|word| - 1] == close
    ensures SplitOfBracket(word, open, close) == Ok((word[..k], word[k..]))
  {
    assert forall j :: 0 <= j < k ==> word[..k][j] == word[j];
    FindCharUnique(word, open, k);
  }

  /** `_parse_base_address`: "@" then an integer (a register is a TypeError). */
  function ParseBaseAddress(s: string): (r: Result<int>)
    ensures !StartsWith(s, [ADDRESS_START]) ==> r == Fail(SyntaxError)
    ensures r.Ok? ==> StartsWith(s, [ADDRESS_START]) && ParseValue(LStripChars(s, {ADDRESS_START}), false) == Ok(VInt(r.value))
    ensures StartsWith(s, [ADDRESS_START]) && ParseValue(LStripChars(s, {ADDRESS_START}), false).Ok? && ParseValue(LStripChars(s, {ADDRESS_START}), false).value.VReg? ==> r == Fail(TypeError)
  {
    if !StartsWith(s, [ADDRESS_START]) then Fail(SyntaxError)
    else
      var v :- ParseValue(LStripChars(s, {ADDRESS_START}), false);
      if !v.VInt? then Fail(TypeError) else Ok(v.i)
  }

  /** A parsed index: none, one value, or a start and a stop. */
  datatype ParsedIndex = NoIndex | One(v: Value) | Range(start: Value, stop: Value)

  /**
   * `_parse_index`: "" is no index; otherwise the brackets and spaces are
   * stripped and a ':' splits a slice, which must have exactly two parts
   * (ValueError of the unpacking).
   */
  function ParseIndex(index: string): (r: Result<ParsedIndex>)
    ensures index == [] <==> r == Ok(NoIndex)
    ensures r.Ok? && r.value.One? ==> !r.value.v.VLabel?
    ensures r.Ok? && r.value.Range? ==> !r.value.start.VLabel? && !r.value.stop.VLabel?
  {
    if index == [] then Ok(NoIndex)
    else
      var t := Strip(StripChars(index, {INDEX_OPEN, INDEX_CLOSE}));
      if SLICE_DELIM in t then
        var parts := Split(t, SLICE_DELIM);
        if |parts| != 2 then Fail(ValueError)
        else
          var start :- ParseValue(Strip(parts[0]), false);
          var stop :- ParseValue(Strip(parts[1]), false);
          Ok(Range(start, stop))
      else
        var v :- ParseValue(t, false);
        Ok(One(v))
  }

  /** An index value as an `ArrayEntry`/`ArraySlice` field. */
  function ToIndex(v: Value): Index
    requires !v.VLabel?
  {
    if v.VInt? then IInt(v.i) else IReg(v.r)
  }

  /** The value an index field holds; `ToIndex` maps it back. */
  function IndexValue(i: Index): (v: Value)
    ensures !v.VLabel? && ToIndex(v) == i
  {
    match i
    case IInt(n) => VInt(n)
    case IReg(r) => VReg(r)
  }

  /**
   * `parse_address`: an `Address`, an `ArrayEntry` for a single index, or
   * an `ArraySlice` for start:stop.
   */
  function ParseAddress(word: string): (r: Result<Operand>)
    ensures r.Ok? ==> r.value.Addr? || r.value.Entry? || r.value.Slice?
    ensures r.Ok? && r.value.Addr? <==> r.Ok? && INDEX_OPEN !in word
  {
    var split :- SplitOfBracket(word, INDEX_OPEN, INDEX_CLOSE);
    var address :- ParseBaseAddress(split.0);
    var index :- ParseIndex(split.1);
    match index
    case NoIndex => Ok(Addr(Address(address)))
    case One(v) => Ok(Entry(ArrayEntry(Address(address), ToIndex(v))))
    case Range(start, stop) => Ok(Slice(ArraySlice(Address(address), ToIndex(start), ToIndex(stop))))
  }

  // ---------------------------------------------------------------------
  // The characters of printed values

  /** Only letters, digits and '-': the characters of integer and register texts. */
  predicate Simple(s: string)
  {
    forall k :: 0 <= k < |s| ==> s[k] == '-' || IsDigit(s[k]) || IsAlpha(s[k])
  }

  lemma SimpleLacks(s: string, c: char)
    requires Simple(s) && c != '-' && !IsDigit(c) && !IsAlpha(c)
    ensures c !in s
  {
  }

  lemma SimpleStrip(s: string)
    requires Simple(s)
    ensures Strip(s) == s
  {
    assert LStrip(s) == s;
    assert RStrip(s) == s;
  }

  /** An index's text is simple and not empty. */
  lemma IndexTextSimple(i: Index)
    ensures Simple(IndexText(i)) && |IndexText(i)| > 0
  {
    match i
    case IInt(n) =>
      IntTextChars(n);
    case IReg(r) =>
      var s := RegisterText(r);
      IntTextChars(r.index);
      assert forall k :: 1 <= k < |s| ==> s[k] == s[1..][k - 1];
  }

  /** An index's text is read back as the value it holds. */
  lemma IndexTextValue(i: Index)
    ensures ParseValue(IndexText(i), false) == Ok(IndexValue(i))
  {
    match i
    case IInt(n) =>
      ConstantRoundTrip(n);
    case IReg(r) =>
      RegisterValue(r, false);
  }

  /** Stripping a bracket pair off a text that neither starts nor ends with a bracket. */
  lemma StripOuter(t: string, open: char, close: char)
    requires |t| > 0 && t[0] != open && t[0] != close && t[|t| - 1] != open && t[|t| - 1] != close
    ensures StripChars([open] + t + [close], {open, close}) == t
  {
    var s := [open] + t + [close];
    assert s[1..] == t + [close];
    assert LStripChars(t + [close], {open, close}) == t + [close];
    assert (t + [close])[..|t|] == t;
  }

  /** The text of an address is parsed back to the number. */
  lemma BaseAddressRoundTrip(a: Address)
    ensures ParseBaseAddress(AddressText(a)) == Ok(a.address)
  {
    IntTextChars(a.address);
    AtStrip(IntToString(a.address));
    ConstantRoundTrip(a.address);
  }

  /** "@" in front of a text that does not start with '@' is stripped off again. */
  lemma AtStrip(t: string)
    requires |t| > 0 && t[0] != ADDRESS_START
    ensures StartsWith([ADDRESS_START] + t, [ADDRESS_START]) && LStripChars([ADDRESS_START] + t, {ADDRESS_START}) == t
  {
    assert ([ADDRESS_START] + t)[1..] == t;
  }

  /** The text of an address is parsed back to it. */
  lemma AddressRoundTrip(a: Address)
    ensures ParseAddress(AddressText(a)) == Ok(Addr(a))
  {
    var s := AddressText(a);
    var digits := IntToString(a.address);
    IntTextChars(a.address);
    assert s == [ADDRESS_START] + digits;
    assert INDEX_OPEN !in s by {
      SimpleLacks(digits, INDEX_OPEN);
    }
    BaseAddressRoundTrip(a);
  }

  /** `strip(brackets).strip()` of a bracketed text that neither starts nor ends with a bracket or a space. */
  lemma BracketedStrip(t: string, open: char, close: char)
    requires |t| > 0 && t[0] != open && t[0] != close && t[|t| - 1] != open && t[|t| - 1] != close
    requires !IsSpace(t[0]) && !IsSpace(t[|t| - 1])
    ensures Strip(StripChars([open] + t + [close], {open, close})) == t
  {
    StripOuter(t, open, close);
    assert LStrip(t) == t;
    assert RStrip(t) == t;
  }

  /** Inside brackets, a simple text is what `_parse_index` parses as one value. */
  lemma OneTextParts(a: string)
    requires Simple(a) && |a| > 0
    ensures Strip(StripChars([INDEX_OPEN] + a + [INDEX_CLOSE], {INDEX_OPEN, INDEX_CLOSE})) == a && SLICE_DELIM !in a
  {
    SimpleLacks(a, SLICE_DELIM);
    BracketedStrip(a, INDEX_OPEN, INDEX_CLOSE);
  }

  /** Inside brackets, two simple texts around ':' are what `_parse_index` parses as a slice. */
  lemma RangeTextParts(a: string, b: string)
    requires Simple(a) && |a| > 0 && Simple(b) && |b| > 0
    ensures var t := Strip(StripChars([INDEX_OPEN] + a + [SLICE_DELIM] + b + [INDEX_CLOSE], {INDEX_OPEN, INDEX_CLOSE}));
      SLICE_DELIM in t && Split(t, SLICE_DELIM) == [a, b] && Strip(a) == a && Strip(b) == b
  {
    RangeTextStrip(a, b);
    RangeSplit(a, b);
  }

  lemma RangeTextStrip(a: string, b: string)
    requires Simple(a) && |a| > 0 && Simple(b) && |b| > 0
    ensures Strip(StripChars([INDEX_OPEN] + a + [SLICE_DELIM] + b + [INDEX_CLOSE], {INDEX_OPEN, INDEX_CLOSE})) == a + [SLICE_DELIM] + b
  {
    var it := a + [SLICE_DELIM] + b;
    assert [INDEX_OPEN] + a + [SLICE_DELIM] + b + [INDEX_CLOSE] == [INDEX_OPEN] + it + [INDEX_CLOSE];
    assert it[0] == a[0] && it[|it| - 1] == b[|b| - 1];
    BracketedStrip(it, INDEX_OPEN, INDEX_CLOSE);
  }

  lemma RangeSplit(a: string, b: string)
    requires Simple(a) && Simple(b)
    ensures SLICE_DELIM in a + [SLICE_DELIM] + b && Split(a + [SLICE_DELIM] + b, SLICE_DELIM) == [a, b]
    ensures Strip(a) == a && Strip(b) == b
  {
    assert (a + [SLICE_DELIM] + b)[|a|] == SLICE_DELIM;
    SimpleLacks(a, SLICE_DELIM);
    SimpleLacks(b, SLICE_DELIM);
    SplitOneSep(a, b, SLICE_DELIM);
    SimpleStrip(a);
    SimpleStrip(b);
  }

  /** A bracketed simple text is parsed as its one value. */
  lemma OneParse(a: string, va: Value)
    requires Simple(a) && |a| > 0 && ParseValue(a, false) == Ok(va)
    ensures ParseIndex([INDEX_OPEN] + a + [INDEX_CLOSE]) == Ok(One(va))
  {
    OneTextParts(a);
  }

  /** Two bracketed simple texts around ':' are parsed as a start and a stop. */
  lemma RangeParse(a: string, b: string, va: Value, vb: Value)
    requires Simple(a) && |a| > 0 && ParseValue(a, false) == Ok(va)
    requires Simple(b) && |b| > 0 && ParseValue(b, false) == Ok(vb)
    ensures ParseIndex([INDEX_OPEN] + a + [SLICE_DELIM] + b + [INDEX_CLOSE]) == Ok(Range(va, vb))
  {
    RangeTextParts(a, b);
  }

  /** A bracketed index is parsed back to its value. */
  lemma IndexRoundTrip(i: Index)
    ensures ParseIndex([INDEX_OPEN] + IndexText(i) + [INDEX_CLOSE]) == Ok(One(IndexValue(i)))
  {
    IndexTextSimple(i);
    IndexTextValue(i);
    OneParse(IndexText(i), IndexValue(i));
  }

  /** A bracketed start:stop pair is parsed back to its two values. */
  lemma RangeRoundTrip(start: Index, stop: Index)
    ensures ParseIndex([INDEX_OPEN] + IndexText(start) + [SLICE_DELIM] + IndexText(stop) + [INDEX_CLOSE])
      == Ok(Range(IndexValue(start), IndexValue(stop)))
  {
    IndexTextSimple(start);
    IndexTextSimple(stop);
    IndexTextValue(start);
    IndexTextValue(stop);
    RangeParse(IndexText(start), IndexText(stop), IndexValue(start), IndexValue(stop));
  }

  /** `parse_address` from the results of its three steps. */
  lemma AddressFromParts(word: string, base: string, inner: string, address: int, index: ParsedIndex)
    requires SplitOfBracket(word, INDEX_OPEN, INDEX_CLOSE) == Ok((base, inner))
    requires ParseBaseAddress(base) == Ok(address) && ParseIndex(inner) == Ok(index)
    ensures index.One? ==> ParseAddress(word) == Ok(Entry(ArrayEntry(Address(address), ToIndex(index.v))))
    ensures index.Range? ==> ParseAddress(word) == Ok(Slice(ArraySlice(Address(address), ToIndex(index.start), ToIndex(index.stop))))
  {
  }

  /** The text of an array entry is parsed back to it. */
  lemma EntryRoundTrip(e: ArrayEntry)
    ensures ParseAddress(ArrayEntryText(e)) == Ok(Entry(e))
  {
    var inner := [INDEX_OPEN] + IndexText(e.index) + [INDEX_CLOSE];
    assert ArrayEntryText(e) == AddressText(e.address) + inner;
    IndexRoundTrip(e.index);
    AddressWithIndex(e.address, inner, One(IndexValue(e.index)));
  }

  /** The text of an array slice is parsed back to it. */
  lemma SliceRoundTrip(sl: ArraySlice)
    ensures ParseAddress(ArraySliceText(sl)) == Ok(Slice(sl))
  {
    var inner := [INDEX_OPEN] + IndexText(sl.start) + [SLICE_DELIM] + IndexText(sl.stop) + [INDEX_CLOSE];
    SliceTextParts(sl);
    RangeRoundTrip(sl.start, sl.stop);
    AddressWithIndex(sl.address, inner, Range(IndexValue(sl.start), IndexValue(sl.stop)));
  }

  lemma SliceTextParts(sl: ArraySlice)
    ensures ArraySliceText(sl) == AddressText(sl.address) + ([INDEX_OPEN] + IndexText(sl.start) + [SLICE_DELIM] + IndexText(sl.stop) + [INDEX_CLOSE])
  {
  }

  /** An address text followed by a bracketed index is parsed as the address with that index. */
  lemma AddressWithIndex(a: Address, inner: string, index: ParsedIndex)
    requires |inner| > 1 && inner[0] == INDEX_OPEN && inner[|inner| - 1] == INDEX_CLOSE
    requires ParseIndex(inner) == Ok(index)
    ensures index.One? ==> ParseAddress(AddressText(a) + inner) == Ok(Entry(ArrayEntry(a, ToIndex(index.v))))
    ensures index.Range? ==> ParseAddress(AddressText(a) + inner) == Ok(Slice(ArraySlice(a, ToIndex(index.start), ToIndex(index.stop))))
  {
    BracketAfterBase(a, inner);
    BaseAddressRoundTrip(a);
    AddressFromParts(AddressText(a) + inner, AddressText(a), inner, a.address, index);
  }

  /** After an address text, the index brackets start the split. */
  lemma BracketAfterBase(a: Address, inner: string)
    requires |inner| > 1 && inner[0] == INDEX_OPEN && inner[|inner| - 1] == INDEX_CLOSE
    ensures var base := AddressText(a);
      SplitOfBracket(base + inner, INDEX_OPEN, INDEX_CLOSE) == Ok((base, inner))
  {
    var base := AddressText(a);
    var digits := IntToString(a.address);
    IntTextChars(a.address);
    SimpleLacks(digits, INDEX_OPEN);
    assert base == [ADDRESS_START] + digits;
    var word := base + inner;
    assert word[..|base|] == base && word[|base|..] == inner;
    SplitAt(word, INDEX_OPEN, INDEX_CLOSE, |base|);
  }

  /** An operand word: an address form after "@", else a value in which labels are allowed. */
  function ParseOperand(word: string): Result<Operand>
  {
    if StartsWith(word, [ADDRESS_START]) then ParseAddress(word)
    else ValueOperand(ParseValue(word, true))
  }

  /** A parsed value as an operand: an integer, a register or a label. */
  function ValueOperand(v: Result<Value>): (r: Result<Operand>)
    ensures r.Err? <==> v.Err?
    ensures r.Ok? ==> (r.value.Int? <==> v.value.VInt?) && (r.value.Reg? <==> v.value.VReg?) && (r.value.Lbl? <==> v.value.VLabel?)
  {
    var value :- v;
    match value
    case VInt(i) => Ok(Int(i))
    case VReg(reg) => Ok(Reg(reg))
    case VLabel(n) => Ok(Lbl(n))
  }

  /**
   * The operands `str` writes and `_parse_operand` reads back: integers,
   * registers, addresses, array entries and slices, and labels that are
   * variable names not spelled like a register.
   */
  predicate Readable(o: Operand)
  {
    match o
    case Int(_) => true
    case Reg(_) => true
    case Addr(_) => true
    case Entry(_) => true
    case Slice(_) => true
    case Lbl(n) => IsVariableName(n) == Ok(true) && ParseRegister(n).Err?
    case _ => false
  }

  /** Every readable operand is parsed back from its text. */
  lemma OperandRoundTrip(o: Operand)
    requires Readable(o)
    ensures ParseOperand(OperandText(o)) == Ok(o)
  {
    match o
    case Int(v) => IntOperandRoundTrip(v);
    case Reg(r) => RegisterOperandRoundTrip(r);
    case Addr(a) => AddressOperandRoundTrip(a);
    case Entry(e) => EntryOperandRoundTrip(e);
    case Slice(sl) => SliceOperandRoundTrip(sl);
    case Lbl(n) => LabelOperandRoundTrip(n);
  }

  lemma AddressOperandRoundTrip(a: Address)
    ensures ParseOperand(AddressText(a)) == Ok(Addr(a))
  {
    AddressRoundTrip(a);
    AddressTextLead(a);
    assert AddressText(a) + [] == AddressText(a);
  }

  lemma EntryOperandRoundTrip(e: ArrayEntry)
    ensures ParseOperand(ArrayEntryText(e)) == Ok(Entry(e))
  {
    EntryRoundTrip(e);
    AddressTextLead(e.address);
  }

  lemma SliceOperandRoundTrip(sl: ArraySlice)
    ensures ParseOperand(ArraySliceText(sl)) == Ok(Slice(sl))
  {
    SliceRoundTrip(sl);
    AddressTextLead(sl.address);
  }

  lemma AddressTextLead(a: Address)
    ensures forall rest :: StartsWith(AddressText(a) + rest, [ADDRESS_START])
  {
    forall rest ensures StartsWith(AddressText(a) + rest, [ADDRESS_START]) {
      assert (AddressText(a) + rest)[0] == ADDRESS_START;
    }
  }

  lemma IntOperandRoundTrip(v: int)
    ensures ParseOperand(IntToString(v)) == Ok(Int(v))
  {
    ConstantRoundTrip(v);
    IntTextChars(v);
    assert IntToString(v)[0] != ADDRESS_START;
  }

  /** A word that does not start with "@" is read as a value, labels allowed. */
  lemma ValueWord(w: string)
    requires w != [] && w[0] != ADDRESS_START
    ensures ParseOperand(w) == ValueOperand(ParseValue(w, true))
  {
    assert !StartsWith(w, [ADDRESS_START]) by {
      assert w[..1] == [w[0]];
    }
  }

  lemma RegisterOperandRoundTrip(r: Register)
    ensures ParseOperand(RegisterText(r)) == Ok(Reg(r))
  {
    var s := RegisterText(r);
    RegisterTextLead(r);
    RegisterValue(r, true);
    ValueWord(s);
  }

  /** A register's text starts with its letter, never with the address mark. */
  lemma RegisterTextLead(r: Register)
    ensures RegisterText(r) != [] && RegisterText(r)[0] != ADDRESS_START
  {
    match r.name
    case R =>
    case C =>
    case Q =>
    case M =>
  }

  lemma LabelOperandRoundTrip(n: string)
    requires IsVariableName(n) == Ok(true) && ParseRegister(n).Err?
    ensures ParseOperand(n) == Ok(Lbl(n))
  {
    LabelValue(n);
    ValueWord(n);
  }

  /** The parse of each operand word, stripped. */
  function OperandResults(words: seq<string>): (rs: seq<Result<Operand>>)
    ensures |rs| == |words|
  {
    seq(|words|, k requires 0 <= k < |words| => ParseOperand(Strip(words[k])))
  }

  /** `_parse_operands`: each word, stripped, parsed in turn; the first bad word raises. */
  method ParseOperands(words: seq<string>) returns (r: Result<seq<Operand>>)
    ensures r == AllOk(OperandResults(words))
  {
    r := MapOk(words, w => ParseOperand(Strip(w)));
    assert MapResults(words, w => ParseOperand(Strip(w))) == OperandResults(words);
  }

  /** The parse of each argument text, stripped, as a constant. */
  function ArgResults(parts: seq<string>): (rs: seq<Result<int>>)
    ensures |rs| == |parts| && forall k :: 0 <= k < |parts| ==> rs[k] == ParseConstant(Strip(parts[k]))
  {
    seq(|parts|, k requires 0 <= k < |parts| => ParseConstant(Strip(parts[k])))
  }

  /** `_parse_args`: "" is no arguments; otherwise the parentheses are stripped and the text split on ','. */
  function ParseArgs(args: string): (r: Result<seq<int>>)
    ensures args == [] ==> r == Ok([])
    ensures args != [] ==> r == AllOk(ArgResults(Split(StripChars(args, {ARGS_OPEN, ARGS_CLOSE}), ARGS_DELIM)))
    ensures r.Err? ==> r.error == Raise(SyntaxError)
  {
    if args == [] then Ok([])
    else AllOk(ArgResults(Split(StripChars(args, {ARGS_OPEN, ARGS_CLOSE}), ARGS_DELIM)))
  }

  /** The texts of the arguments, one per argument. */
  function ArgTexts(args: seq<int>): (ts: seq<string>)
    ensures |ts| == |args| && forall k :: 0 <= k < |args| ==> ts[k] == IntToString(args[k])
  {
    seq(|args|, k requires 0 <= k < |args| => IntToString(args[k]))
  }

  /** The comma-joined argument list splits back into the argument texts. */
  lemma {:induction false} ArgsListSplit(args: seq<int>)
    requires |args| > 0
    ensures Split(ArgsList(args), ARGS_DELIM) == ArgTexts(args)
  {
    var h := IntToString(args[0]);
    IntTextChars(args[0]);
    SimpleLacks(h, ARGS_DELIM);
    if |args| == 1 {
      SplitNoSep(h, ARGS_DELIM);
    } else {
      var rest := args[1..];
      ArgsListSplit(rest);
      var l := ArgsList(args);
      assert l == h + [ARGS_DELIM] + ArgsList(rest);
      assert forall j :: 0 <= j < |h| ==> l[j] == h[j];
      FindCharUnique(l, ARGS_DELIM, |h|);
      SplitStep(l, ARGS_DELIM, |h|);
      assert l[..|h|] == h && l[|h| + 1..] == ArgsList(rest);
      ArgTextsCons(args);
    }
  }

  /** The argument list starts like a number and ends in a digit. */
  lemma {:induction false} ArgsListEnds(args: seq<int>)
    requires |args| > 0
    ensures |ArgsList(args)| > 0
    ensures ArgsList(args)[0] == '-' || IsDigit(ArgsList(args)[0])
    ensures IsDigit(ArgsList(args)[|ArgsList(args)| - 1])
  {
    IntTextChars(args[0]);
    if |args| > 1 {
      ArgsListEnds(args[1..]);
    }
  }

  lemma ArgTextsCons(args: seq<int>)
    requires |args| > 0
    ensures ArgTexts(args) == [IntToString(args[0])] + ArgTexts(args[1..])
  {
    var l, r := ArgTexts(args), [IntToString(args[0])] + ArgTexts(args[1..]);
    forall k | 0 <= k < |l| ensures l[k] == r[k] {
      if k > 0 {
        assert r[k] == ArgTexts(args[1..])[k - 1];
      }
    }
  }

  /** The bracketed arguments a command prints are parsed back. */
  lemma ArgsRoundTrip(args: seq<int>)
    ensures ParseArgs(ArgsText(args)) == Ok(args)
  {
    if args != [] {
      ArgsTextSplit(args);
      ConstantsRoundTrip(args);
    }
  }

  /** Without its parentheses the argument text splits into the argument texts. */
  lemma ArgsTextSplit(args: seq<int>)
    requires args != []
    ensures ArgsText(args) != [] && Split(StripChars(ArgsText(args), {ARGS_OPEN, ARGS_CLOSE}), ARGS_DELIM) == ArgTexts(args)
  {
    ArgsListSplit(args);
    ArgsListEnds(args);
    assert ArgsText(args) == [ARGS_OPEN] + ArgsList(args) + [ARGS_CLOSE];
    StripOuter(ArgsList(args), ARGS_OPEN, ARGS_CLOSE);
  }

  /** The texts of integers are read back as the integers. */
  lemma ConstantsRoundTrip(args: seq<int>)
    ensures AllOk(ArgResults(ArgTexts(args))) == Ok(args)
  {
    var parts := ArgTexts(args);
    var rs := ArgResults(parts);
    forall k | 0 <= k < |parts| ensures rs[k] == Ok(args[k]) {
      IntTextChars(args[k]);
      SimpleStrip(parts[k]);
      ConstantRoundTrip(args[k]);
    }
    var r := AllOk(rs);
    assert r.value == args;
  }

  /** `_parse_netqasm_version`: "major.minor" with two integers, anything else ValueError. */
  function ParseNetqasmVersion(v: string): (r: Result<(int, int)>)
    ensures r.Err? ==> r.error == Raise(ValueError)
    ensures r.Ok? <==> |Split(Strip(v), '.')| == 2 && IsNumber(Split(Strip(v), '.')[0]) && IsNumber(Split(Strip(v), '.')[1])
    ensures r.Ok? ==> r.value == (ParseNumber(Split(Strip(v), '.')[0]), ParseNumber(Split(Strip(v), '.')[1]))
  {
    var parts := Split(Strip(v), '.');
    if |parts| != 2 then Fail(ValueError)
    else
      var major :- PyInt(parts[0]);
      var minor :- PyInt(parts[1]);
      Ok((major, minor))
  }

  /** The text of a version pair is read back. */
  lemma VersionRoundTrip(major: int, minor: int)
    ensures ParseNetqasmVersion(IntToString(major) + "." + IntToString(minor)) == Ok((major, minor))
  {
    VersionTextSplits(major, minor);
    IntToStringRoundTrip(major);
    IntToStringRoundTrip(minor);
  }

  /** The text of a version pair has no surrounding space and splits at its one '.'. */
  lemma VersionTextSplits(major: int, minor: int)
    ensures Split(Strip(IntToString(major) + "." + IntToString(minor)), '.') == [IntToString(major), IntToString(minor)]
  {
    var a, b := IntToString(major), IntToString(minor);
    IntTextChars(major);
    IntTextChars(minor);
    var s := a + "." + b;
    assert s[0] == a[0] && s[|s| - 1] == b[|b| - 1];
    StripUnchanged(s);
    SimpleLacks(a, '.');
    SimpleLacks(b, '.');
    SplitOneSep(a, b, '.');
  }

  /**
   * One body line of `_create_subroutine`: a line ending in ':' is a branch
   * label (its name stripped of ':' must be a variable name,
   * NetQASMSyntaxError); any other line is grouped into words with "()"
   * brackets, the first word split into the mnemonic and its arguments,
   * and the other words parsed as operands.
   */
  function ParseBodyLine(line: string): (r: Result<ProtoCommand>)
    ensures EndsWith(line, [BRANCH_END]) && r.Ok? ==>
      r.value == BranchLabel(RStripChars(line, {BRANCH_END}), None) && IsVariableName(r.value.name) == Ok(true)
    ensures !EndsWith(line, [BRANCH_END]) && r.Ok? ==> r.value.ICmd? && r.value.lineno == None
    ensures EndsWith(line, [BRANCH_END]) && IsVariableName(RStripChars(line, {BRANCH_END})) == Ok(false) ==> r == Fail(SyntaxError)
  {
    if EndsWith(line, [BRANCH_END]) then
      var name := RStripChars(line, {BRANCH_END});
      var valid :- IsVariableName(name);
      if !valid then Fail(SyntaxError) else Ok(BranchLabel(name, None))
    else
      var words :- GroupByWordSpec(line, " ", Some([ARGS_OPEN, ARGS_CLOSE]));
      if words == [] then Fail(IndexError)
      else
        var split :- SplitOfBracket(words[0], ARGS_OPEN, ARGS_CLOSE);
        var instr :- StringToInstruction(split.0);
        var args :- ParseArgs(split.1);
        var operands :- AllOk(OperandResults(words[1..]));
        Ok(ICmd(instr, args, operands, None))
  }

  /** A valid label name followed by ':' is a branch label line. */
  lemma LabelLineRoundTrip(name: string)
    requires IsVariableName(name) == Ok(true)
    ensures ParseBodyLine(CommandText(BranchLabel(name, None))) == Ok(BranchLabel(name, None))
  {
    var line := name + [BRANCH_END];
    assert CommandText(BranchLabel(name, None)) == line;
    assert line[..|line| - 1] == name;
    assert EndsWith(line, [BRANCH_END]) by {
      assert line[|line| - 1..] == [BRANCH_END];
    }
    assert RStripChars(name, {BRANCH_END}) == name;
  }
}
