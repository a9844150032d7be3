// `netqasm/lang/parsing/text.py`, the preamble: each `#` line is split
// into a keyword and its operands, the lines are grouped by keyword in
// first-appearance order (a `defaultdict(list)`), and every keyword's lines
// are checked.

module TextPreamble {
  import opened Wrappers
  import opened PyStr
  import opened StringUtil
  import opened Symbols

  /**
   * The preamble instructions: for each keyword, in the order it first
   * appeared, the operand lists of its lines in line order.
   */
  type PreambleData = seq<(string, seq<seq<string>>)>

  function Keys(d: PreambleData): (ks: seq<string>)
    ensures |ks| == |d|
  {
    seq(|d|, k requires 0 <= k < |d| => d[k].0)
  }

  /** Each keyword has one entry. */
  predicate KeysDistinct(d: PreambleData)
  {
    forall i, j :: 0 <= i < j < |d| ==> d[i].0 != d[j].0
  }

  /** `preamble_data[key]` of the defaultdict: the lines of `key`, none when it never appeared. */
  function Lookup(d: PreambleData, key: string): (r: seq<seq<string>>)
    ensures key !in Keys(d) ==> r == []
  {
    if d == [] then []
    else if d[0].0 == key then
      assert Keys(d)[0] == key;
      d[0].1
    else
      assert key !in Keys(d) ==> key !in Keys(d[1..]) by {
        if key in Keys(d[1..]) {
          var k :| 0 <= k < |d| - 1 && Keys(d[1..])[k] == key;
          assert Keys(d)[k + 1] == key;
        }
      }
      Lookup(d[1..], key)
  }

  /** `preamble_instructions[instr].append(operands)` */
  function Insert(d: PreambleData, key: string, operands: seq<string>): (r: PreambleData)
    ensures |r| == if key in Keys(d) then |d| else |d| + 1
  {
    if d == [] then [(key, [operands])]
    else if d[0].0 == key then
      assert Keys(d)[0] == key;
      [(key, d[0].1 + [operands])] + d[1..]
    else
      assert key in Keys(d) <==> key in Keys(d[1..]) by {
        assert Keys(d) == [d[0].0] + Keys(d[1..]);
      }
      [d[0]] + Insert(d[1..], key, operands)
  }

  /** Appending a line to a keyword's entry adds a new keyword at the end only when it was absent. */
  lemma {:induction false} InsertKeys(d: PreambleData, key: string, operands: seq<string>)
    ensures Keys(Insert(d, key, operands)) == if key in Keys(d) then Keys(d) else Keys(d) + [key]
  {
    if d != [] {
      assert Keys(d) == [d[0].0] + Keys(d[1..]);
      if d[0].0 != key {
        InsertKeys(d[1..], key, operands);
        var rest := Insert(d[1..], key, operands);
        assert Keys([d[0]] + rest) == [d[0].0] + Keys(rest);
      } else {
        assert Keys([(key, d[0].1 + [operands])] + d[1..]) == [key] + Keys(d[1..]);
      }
    }
  }

  /** The line is appended to its own keyword's entry and no other entry changes. */
  lemma {:induction false} InsertLookup(d: PreambleData, key: string, operands: seq<string>, other: string)
    ensures Lookup(Insert(d, key, operands), other) == if other == key then Lookup(d, key) + [operands] else Lookup(d, other)
  {
    if d != [] && d[0].0 != key {
      InsertLookup(d[1..], key, operands, other);
    }
  }

  /** Appending keeps one entry per keyword. */
  lemma InsertDistinct(d: PreambleData, key: string, operands: seq<string>)
    requires KeysDistinct(d)
    ensures KeysDistinct(Insert(d, key, operands))
  {
    InsertKeys(d, key, operands);
    var r := Insert(d, key, operands);
    forall i, j | 0 <= i < j < |r| ensures r[i].0 != r[j].0 {
      assert Keys(r)[i] == r[i].0 && Keys(r)[j] == r[j].0;
      if j < |d| {
        assert Keys(d)[i] == d[i].0 && Keys(d)[j] == d[j].0;
      } else {
        assert key !in Keys(d) && Keys(r)[j] == key;
        assert Keys(d)[i] == d[i].0;
      }
    }
  }

  /** With one entry per keyword, looking up an entry's keyword gives its lines. */
  lemma {:induction false} LookupAt(d: PreambleData, k: nat)
    requires KeysDistinct(d) && k < |d|
    ensures Lookup(d, d[k].0) == d[k].1
    decreases k
  {
    if k > 0 {
      assert d[0].0 != d[k].0;
      assert d[1..][k - 1] == d[k];
      LookupAt(d[1..], k - 1);
    }
  }

  /**
   * `instr, *operands = group_by_word(line, brackets="{}")`: a ValueError
   * of the split (an unclosed brace) is re-raised as NetQASMSyntaxError.
   */
  function PreambleWords(line: string): (r: Result<seq<string>>)
    ensures r.Ok? ==> |r.value| > 0
    ensures r.Err? ==> r.error == Raise(SyntaxError)
  {
    var w := GroupByWordSpec(line, " ", Some([DEFINE_OPEN, DEFINE_CLOSE]));
    if w.Err? || w.value == [] then Fail(SyntaxError) else w
  }

  /** The split of each line, in order. */
  function SplitLines(lines: seq<string>): (rs: seq<Result<seq<string>>>)
    ensures |rs| == |lines|
  {
    seq(|lines|, k requires 0 <= k < |lines| => PreambleWords(lines[k]))
  }

  /** The operand lists of the lines whose keyword is `key`, in line order. */
  function Grouped(ws: seq<seq<string>>, key: string): seq<seq<string>>
    requires forall k :: 0 <= k < |ws| ==> |ws[k]| > 0
  {
    if ws == [] then []
    else
      var last := ws[|ws| - 1];
      Grouped(ws[..|ws| - 1], key) + (if last[0] == key then [last[1..]] else [])
  }

  /** The dictionary built from the split lines. */
  function Collect(ws: seq<seq<string>>): PreambleData
    requires forall k :: 0 <= k < |ws| ==> |ws[k]| > 0
  {
    if ws == [] then []
    else
      var last := ws[|ws| - 1];
      Insert(Collect(ws[..|ws| - 1]), last[0], last[1..])
  }

  /** The dictionary has one entry per keyword. */
  lemma {:induction false} CollectDistinct(ws: seq<seq<string>>)
    requires forall k :: 0 <= k < |ws| ==> |ws[k]| > 0
    ensures KeysDistinct(Collect(ws))
  {
    if ws != [] {
      var last := ws[|ws| - 1];
      CollectDistinct(ws[..|ws| - 1]);
      InsertDistinct(Collect(ws[..|ws| - 1]), last[0], last[1..]);
    }
  }

  /** Each keyword's entry holds exactly the operand lists of its lines, in line order. */
  lemma {:induction false} CollectLookup(ws: seq<seq<string>>, key: string)
    requires forall k :: 0 <= k < |ws| ==> |ws[k]| > 0
    ensures Lookup(Collect(ws), key) == Grouped(ws, key)
  {
    if ws != [] {
      var last := ws[|ws| - 1];
      CollectLookup(ws[..|ws| - 1], key);
      InsertLookup(Collect(ws[..|ws| - 1]), last[0], last[1..], key);
    }
  }

  /** The keyword of each line. */
  function Keywords(ws: seq<seq<string>>): (ks: seq<string>)
    requires forall k :: 0 <= k < |ws| ==> |ws[k]| > 0
    ensures |ks| == |ws|
  {
    seq(|ws|, k requires 0 <= k < |ws| => ws[k][0])
  }

  /** The keywords of the dictionary are those of the lines. */
  lemma {:induction false} CollectKeys(ws: seq<seq<string>>, key: string)
    requires forall k :: 0 <= k < |ws| ==> |ws[k]| > 0
    ensures key in Keys(Collect(ws)) <==> key in Keywords(ws)
  {
    if ws != [] {
      var init := ws[..|ws| - 1];
      var last := ws[|ws| - 1];
      CollectKeys(init, key);
      InsertKeys(Collect(init), last[0], last[1..]);
      assert Keywords(ws) == Keywords(init) + [last[0]];
    }
  }

  // ---------------------------------------------------------------------
  // Validation

  /** Two of the operand lists have the same first operand (`len(set(keys)) < len(keys)`). */
  predicate DuplicateKeys(ops: seq<seq<string>>)
    requires forall k :: 0 <= k < |ops| ==> |ops[k]| > 0
  {
    exists i, j :: 0 <= i < j < |ops| && ops[i][0] == ops[j][0]
  }

  /**
   * The DEFINE lines, in order: each must have exactly two operands
   * (NetQASMSyntaxError) and a key that is a variable name
   * (NetQASMInstrError; an empty key is an IndexError of `is_variable_name`).
   */
  function DefineLines(ops: seq<seq<string>>): (r: Result<Unit>)
    ensures r.Ok? <==> forall k :: 0 <= k < |ops| ==> |ops[k]| == 2 && IsVariableName(ops[k][0]) == Ok(true)
    ensures r.Err? ==> r.error.kind in {SyntaxError, IndexError, InstrError} && r.error.atLine == None
    decreases |ops|
  {
    if ops == [] then Ok(Unit)
    else if |ops[0]| != 2 then Fail(SyntaxError)
    else
      var valid :- IsVariableName(ops[0][0]);
      if !valid then Fail(InstrError)
      else
        assert forall k :: 1 <= k < |ops| ==> ops[k] == ops[1..][k - 1];
        DefineLines(ops[1..])
  }

  /** The first bad DEFINE line decides the error: too few or many operands, an empty key, or a bad key. */
  lemma {:induction false} DefineLinesFirstError(ops: seq<seq<string>>, k: nat)
    requires k < |ops| && forall j :: 0 <= j < k ==> |ops[j]| == 2 && IsVariableName(ops[j][0]) == Ok(true)
    requires !(|ops[k]| == 2 && IsVariableName(ops[k][0]) == Ok(true))
    ensures DefineLines(ops) == Fail(if |ops[k]| != 2 then SyntaxError else if ops[k][0] == [] then IndexError else InstrError)
    decreases k
  {
    if k > 0 {
      assert forall j :: 0 <= j < k - 1 ==> ops[1..][j] == ops[j + 1];
      DefineLinesFirstError(ops[1..], k - 1);
    }
  }

  /** What a valid line group of a keyword is. */
  predicate EntryValid(key: string, ops: seq<seq<string>>)
  {
    if key == PREAMBLE_NETQASM || key == PREAMBLE_APPID then |ops| == 1 && |ops[0]| == 1
    else if key == PREAMBLE_DEFINE then
      (forall k :: 0 <= k < |ops| ==> |ops[k]| == 2 && IsVariableName(ops[k][0]) == Ok(true)) && !DuplicateKeys(ops)
    else false
  }

  /**
   * The check of one keyword's lines: NETQASM and APPID must occur once
   * (NetQASMInstrError) with one operand (NetQASMSyntaxError); DEFINE
   * lines are checked in order, then their keys for duplicates
   * (NetQASMInstrError); any other keyword is a NetQASMInstrError.
   */
  function ValidateEntry(key: string, ops: seq<seq<string>>): (r: Result<Unit>)
    ensures r.Ok? <==> EntryValid(key, ops)
    ensures key != PREAMBLE_NETQASM && key != PREAMBLE_APPID && key != PREAMBLE_DEFINE ==> r == Fail(InstrError)
    ensures (key == PREAMBLE_NETQASM || key == PREAMBLE_APPID) && |ops| != 1 ==> r == Fail(InstrError)
    ensures (key == PREAMBLE_NETQASM || key == PREAMBLE_APPID) && |ops| == 1 && |ops[0]| != 1 ==> r == Fail(SyntaxError)
    ensures key == PREAMBLE_DEFINE && DefineLines(ops).Ok? && DuplicateKeys(ops) ==> r == Fail(InstrError)
    ensures key == PREAMBLE_DEFINE && DefineLines(ops).Err? ==> r == DefineLines(ops)
  {
    if key == PREAMBLE_NETQASM || key == PREAMBLE_APPID then
      if |ops| != 1 then Fail(InstrError)
      else if |ops[0]| != 1 then Fail(SyntaxError)
      else Ok(Unit)
    else if key == PREAMBLE_DEFINE then
      var _ :- DefineLines(ops);
      if DuplicateKeys(ops) then Fail(InstrError) else Ok(Unit)
    else Fail(InstrError)
  }

  /** `_assert_valid_preamble_instructions`: the keywords in dictionary order; the first invalid one raises. */
  function ValidatePreamble(d: PreambleData): (r: Result<Unit>)
    ensures r.Ok? <==> forall k :: 0 <= k < |d| ==> EntryValid(d[k].0, d[k].1)
    ensures r.Err? ==> exists k :: 0 <= k < |d| && (forall j :: 0 <= j < k ==> EntryValid(d[j].0, d[j].1)) &&
                         ValidateEntry(d[k].0, d[k].1) == Err(r.error)
  {
    if d == [] then Ok(Unit)
    else
      var init := d[..|d| - 1];
      assert forall k :: 0 <= k < |init| ==> init[k] == d[k];
      var _ :- ValidatePreamble(init);
      ValidateEntry(d[|d| - 1].0, d[|d| - 1].1)
  }

  function ParsePreambleSpec(lines: seq<string>): (r: Result<PreambleData>)
  {
    var ws :- AllOk(SplitLines(lines));
    SplitLinesWords(lines, ws);
    var d := Collect(ws);
    var _ :- ValidatePreamble(d);
    Ok(d)
  }

  /** Split lines have a keyword each. */
  lemma SplitLinesWords(lines: seq<string>, ws: seq<seq<string>>)
    requires AllOk(SplitLines(lines)) == Ok(ws)
    ensures forall k :: 0 <= k < |ws| ==> |ws[k]| > 0
  {
    forall k | 0 <= k < |ws| ensures |ws[k]| > 0 {
      assert SplitLines(lines)[k] == Ok(ws[k]);
    }
  }

  /** One line split into its keyword and operands: `group_by_word` with a ValueError re-raised. */
  method SplitPreambleLine(line: string) returns (r: Result<seq<string>>)
    ensures r == PreambleWords(line)
  {
    var words := GroupByWord(line, " ", Some([DEFINE_OPEN, DEFINE_CLOSE]));
    if words.Err? || words.value == [] {
      return Fail(SyntaxError);
    }
    return words;
  }

  /** The loop of `_parse_preamble` that groups the lines. */
  method CollectPreamble(lines: seq<string>) returns (r: Result<PreambleData>)
    ensures AllOk(SplitLines(lines)).Err? ==> r == Err(AllOk(SplitLines(lines)).error)
    ensures AllOk(SplitLines(lines)).Ok? ==>
      (forall k :: 0 <= k < |lines| ==> |AllOk(SplitLines(lines)).value[k]| > 0) &&
      r == Ok(Collect(AllOk(SplitLines(lines)).value))
  {
    ghost var rs := SplitLines(lines);
    var d: PreambleData := [];
    ghost var ws: seq<seq<string>> := [];
    for i := 0 to |lines|
      invariant AllOk(rs[..i]) == Ok(ws)
      invariant (forall k :: 0 <= k < |ws| ==> |ws[k]| > 0) && d == Collect(ws)
    {
      var words := SplitPreambleLine(lines[i]);
      assert words == rs[i];
      if words.Err? {
        AllOkFails(rs, i);
        return Err(words.error);
      }
      CollectStep(rs, i, ws, words.value);
      d := Insert(d, words.value[0], words.value[1..]);
      ws := ws + [words.value];
    }
    assert rs[..|lines|] == rs;
    return Ok(d);
  }

  /** One more split line extends the words and the dictionary. */
  lemma CollectStep(rs: seq<Result<seq<string>>>, i: nat, ws: seq<seq<string>>, words: seq<string>)
    requires i < |rs| && AllOk(rs[..i]) == Ok(ws) && rs[i] == Ok(words) && |words| > 0
    requires forall k :: 0 <= k < |ws| ==> |ws[k]| > 0
    ensures AllOk(rs[..i + 1]) == Ok(ws + [words])
    ensures forall k :: 0 <= k < |ws + [words]| ==> |(ws + [words])[k]| > 0
    ensures Collect(ws + [words]) == Insert(Collect(ws), words[0], words[1..])
  {
    assert rs[..i + 1][..i] == rs[..i];
    var ws' := ws + [words];
    assert ws'[..|ws'| - 1] == ws;
  }

  /** The loop of `_assert_valid_preamble_instructions`. */
  method ValidateEntries(d: PreambleData) returns (r: Result<Unit>)
    ensures r == ValidatePreamble(d)
  {
    for i := 0 to |d|
      invariant ValidatePreamble(d[..i]) == Ok(Unit)
    {
      assert d[..i + 1][..i] == d[..i];
      var e := ValidateEntry(d[i].0, d[i].1);
      if e.Err? {
        assert ValidatePreamble(d[..i + 1]) == e;
        ValidatePrefixFails(d, i + 1);
        return e;
      }
    }
    assert d[..|d|] == d;
    return Ok(Unit);
  }

  /**
   * `_parse_preamble`: every line is split into a keyword and operands and
   * appended to its keyword's entry, then the entries are checked.
   */
  method ParsePreamble(lines: seq<string>) returns (r: Result<PreambleData>)
    ensures r == ParsePreambleSpec(lines)
  {
    var d := CollectPreamble(lines);
    if d.Err? {
      return d;
    }
    var v := ValidateEntries(d.value);
    if v.Err? {
      return Err(v.error);
    }
    return d;
  }

  /** A failing prefix makes the whole check fail with its error. */
  lemma {:induction false} ValidatePrefixFails(d: PreambleData, n: nat)
    requires n <= |d| && ValidatePreamble(d[..n]).Err?
    ensures ValidatePreamble(d) == ValidatePreamble(d[..n])
    decreases |d|
  {
    if n < |d| {
      var init := d[..|d| - 1];
      assert init[..n] == d[..n];
      ValidatePrefixFails(init, n);
    } else {
      assert d[..n] == d;
    }
  }

  /**
   * A parsed preamble: its keywords are NETQASM, APPID or DEFINE; NETQASM
   * and APPID came from one line with one operand each; the DEFINE lines
   * each have a valid, unique key and a value; and every entry holds
   * exactly its keyword's lines.
   */
  lemma ParsedPreambleMeaning(lines: seq<string>, key: string)
    requires ParsePreambleSpec(lines).Ok?
    ensures var ws := AllOk(SplitLines(lines)).value;
      (forall k :: 0 <= k < |ws| ==> |ws[k]| > 0) &&
      Lookup(ParsePreambleSpec(lines).value, key) == Grouped(ws, key)
    ensures var ops := Lookup(ParsePreambleSpec(lines).value, key);
      ops != [] ==> EntryValid(key, ops)
  {
    var ws := AllOk(SplitLines(lines)).value;
    SplitLinesWords(lines, ws);
    var d := Collect(ws);
    CollectDistinct(ws);
    CollectLookup(ws, key);
    var ops := Lookup(d, key);
    if ops != [] {
      assert key in Keys(d);
      var k :| 0 <= k < |d| && Keys(d)[k] == key;
      LookupAt(d, k);
    }
  }

  /** After a successful parse the DEFINE entries are key/value pairs, as the macro pass needs. */
  lemma DefinesArePairs(lines: seq<string>)
    requires ParsePreambleSpec(lines).Ok?
    ensures var ms := Lookup(ParsePreambleSpec(lines).value, PREAMBLE_DEFINE);
      forall k :: 0 <= k < |ms| ==> |ms[k]| == 2
  {
    ParsedPreambleMeaning(lines, PREAMBLE_DEFINE);
  }

  /** An unknown keyword is rejected as an instruction error when it is the first bad entry. */
  lemma UnknownKeywordRejected(d: PreambleData, key: string, ops: seq<seq<string>>)
    requires forall k :: 0 <= k < |d| ==> EntryValid(d[k].0, d[k].1)
    requires key != PREAMBLE_NETQASM && key != PREAMBLE_APPID && key != PREAMBLE_DEFINE
    ensures ValidatePreamble(d + [(key, ops)]) == Fail(InstrError)
  {
    assert (d + [(key, ops)])[..|d|] == d;
  }
}
