// The line-level passes of `netqasm/lang/parsing/text.py`: cleaning a line,
// splitting the preamble from the body, and applying the DEFINE macros.

module TextLines {
  import opened Wrappers
  import opened PyStr
  import opened StringUtil
  import opened Symbols

  // ---------------------------------------------------------------------
  // Cleaning a line

  /** No comment marker occurs anywhere in s. */
  predicate NoComment(s: string)
  {
    forall j :: 0 <= j <= |s| ==> !OccursAt(s, COMMENT_START, j)
  }

  /** `_remove_comments_from_line`: `line.split("//")[0]`, the text before the first marker. */
  function RemoveComments(line: string): (r: string)
    ensures StartsWith(line, r)
    ensures NoComment(r)
    ensures NoComment(line) ==> r == line
    ensures !NoComment(line) ==> OccursAt(line, COMMENT_START, |r|)
  {
    var i := Find(line, COMMENT_START);
    if i == -1 then line
    else
      assert forall j :: 0 <= j <= i ==> (OccursAt(line[..i], COMMENT_START, j) ==> OccursAt(line, COMMENT_START, j));
      line[..i]
  }

  /** A line stripped of surrounding whitespace, then of its comment. */
  function CleanLine(raw: string): (line: string)
    ensures NoComment(line)
  {
    RemoveComments(Strip(raw))
  }

  // ---------------------------------------------------------------------
  // Preamble entries

  /** The preamble text of a cleaned '#' line: the markers and the surrounding space removed. */
  function PreambleText(line: string): string
  {
    Strip(LStripChars(line, {PREAMBLE_START}))
  }

  /**
   * The preamble entry a cleaned '#' line contributes, as written: only a
   * line whose text is "#" is skipped, so a line holding just the marker
   * contributes an empty entry.
   */
  function PreambleEntryAsWritten(line: string): (e: Option<string>)
    ensures e.Some? ==> e.value == PreambleText(line) && e.value != [PREAMBLE_START]
  {
    var p := PreambleText(line);
    if p == [PREAMBLE_START] then None else Some(p)
  }

  /**
   * The preamble entry as intended: a line holding only markers (or whose
   * text is "#") is skipped, and every other line contributes its text.
   */
  function PreambleEntry(line: string): (e: Option<string>)
    ensures e.Some? ==> e.value == PreambleText(line) && e.value != [] && e.value != [PREAMBLE_START]
    ensures e.None? <==> PreambleText(line) == [] || PreambleText(line) == [PREAMBLE_START]
  {
    var p := PreambleText(line);
    if p == [] || p == [PREAMBLE_START] then None else Some(p)
  }

  /** The line "#" contributes an empty entry as written, and none as intended. */
  lemma BareMarkerFinding()
    ensures PreambleEntryAsWritten([PREAMBLE_START]) == Some([])
    ensures PreambleEntry([PREAMBLE_START]) == None
  {
    assert LStripChars([PREAMBLE_START], {PREAMBLE_START}) == [];
  }

  // ---------------------------------------------------------------------
  // Splitting the preamble from the body

  /**
   * What a cleaned line is to the split: blank, a preamble line (with the
   * entry it contributes, if any) or a body line.
   */
  datatype LineKind = Blank | Marker(entry: Option<string>) | Body(text: string)

  /** The kind of a raw line of the text. */
  function Classify(raw: string): (k: LineKind)
    ensures k.Body? ==> k.text != [] && k.text[0] != PREAMBLE_START && NoComment(k.text)
    ensures k.Marker? && k.entry.Some? ==> k.entry.value != [] && k.entry.value != [PREAMBLE_START]
  {
    var line := CleanLine(raw);
    if line == [] then Blank
    else if line[0] == PREAMBLE_START then Marker(PreambleEntry(line))
    else Body(line)
  }

  /** The kinds of the lines, in order. */
  function Kinds(lines: seq<string>): (ks: seq<LineKind>)
    ensures |ks| == |lines| && forall i :: 0 <= i < |lines| ==> ks[i] == Classify(lines[i])
  {
    seq(|lines|, i requires 0 <= i < |lines| => Classify(lines[i]))
  }

  /** The state of the split loop: still in the preamble, and the lines kept so far. */
  datatype Sections = Sections(inPreamble: bool, preamble: seq<string>, body: seq<string>)

  const NoSections := Sections(true, [], [])

  /** One round of the loop of `_split_preamble_body`, on the kind of the line. */
  function SplitLine(st: Sections, k: LineKind): (r: Result<Sections>)
    ensures r.Err? <==> k.Marker? && !st.inPreamble
    ensures r.Err? ==> r.error == Raise(SyntaxError)
  {
    match k
    case Blank => Ok(st)
    case Marker(e) =>
      if !st.inPreamble then Fail(SyntaxError)
      else if e.None? then Ok(st)
      else Ok(st.(preamble := st.preamble + [e.value]))
    case Body(line) => Ok(Sections(false, st.preamble, st.body + [line]))
  }

  /** The state after the loop has consumed lines of kinds `ks`. */
  function SplitKinds(ks: seq<LineKind>): Result<Sections>
  {
    if ks == [] then Ok(NoSections)
    else
      var st :- SplitKinds(ks[..|ks| - 1]);
      SplitLine(st, ks[|ks| - 1])
  }

  /** The body lines among `ks`, in order. */
  function BodyLines(ks: seq<LineKind>): (body: seq<string>)
  {
    if ks == [] then []
    else
      var last := ks[|ks| - 1];
      BodyLines(ks[..|ks| - 1]) + (if last.Body? then [last.text] else [])
  }

  /** The preamble entries among `ks`, in order. */
  function PreambleLines(ks: seq<LineKind>): (pre: seq<string>)
  {
    if ks == [] then []
    else
      var last := ks[|ks| - 1];
      PreambleLines(ks[..|ks| - 1]) + (if last.Marker? && last.entry.Some? then [last.entry.value] else [])
  }

  /** Some body line comes before some preamble line. */
  predicate Misplaced(ks: seq<LineKind>)
  {
    exists i, j :: 0 <= i < j < |ks| && ks[i].Body? && ks[j].Marker?
  }

  predicate HasBodyLine(ks: seq<LineKind>)
  {
    exists i :: 0 <= i < |ks| && ks[i].Body?
  }

  /**
   * The split fails exactly when a preamble line follows a body line, with
   * NetQASMSyntaxError; otherwise the preamble and body are the lines of
   * each kind, in order, and the loop has left the preamble exactly when
   * there was a body line.
   */
  lemma {:induction false} SplitKindsMeaning(ks: seq<LineKind>)
    ensures SplitKinds(ks).Err? <==> Misplaced(ks)
    ensures SplitKinds(ks).Err? ==> SplitKinds(ks).error == Raise(SyntaxError)
    ensures SplitKinds(ks).Ok? ==>
      var st := SplitKinds(ks).value;
      (st.inPreamble <==> !HasBodyLine(ks)) && st.body == BodyLines(ks) && st.preamble == PreambleLines(ks)
  {
    if ks != [] {
      var init := ks[..|ks| - 1];
      var last := ks[|ks| - 1];
      SplitKindsMeaning(init);
      assert forall k :: 0 <= k < |init| ==> init[k] == ks[k];
      if Misplaced(init) {
        var i, j :| 0 <= i < j < |init| && init[i].Body? && init[j].Marker?;
        assert ks[i].Body? && ks[j].Marker?;
      }
      if SplitKinds(init).Ok? {
        if Misplaced(ks) {
          var i, j :| 0 <= i < j < |ks| && ks[i].Body? && ks[j].Marker?;
          if j == |init| {
            assert init[i].Body?;
          }
        }
        if last.Marker? && HasBodyLine(init) {
          var i :| 0 <= i < |init| && init[i].Body?;
          assert ks[i].Body? && ks[|ks| - 1].Marker?;
        }
        if HasBodyLine(ks) && !HasBodyLine(init) {
          var i :| 0 <= i < |ks| && ks[i].Body?;
          assert i == |ks| - 1;
        }
        if HasBodyLine(init) {
          var i :| 0 <= i < |init| && init[i].Body?;
          assert ks[i].Body?;
        }
      }
    }
  }

  /** Once the loop fails it stays failed. */
  lemma SplitKindsPrefixErr(ks: seq<LineKind>, n: nat)
    requires n <= |ks| && SplitKinds(ks[..n]).Err?
    ensures SplitKinds(ks).Err?
  {
    SplitKindsMeaning(ks[..n]);
    SplitKindsMeaning(ks);
    var i, j :| 0 <= i < j < |ks[..n]| && ks[..n][i].Body? && ks[..n][j].Marker?;
    assert ks[i].Body? && ks[j].Marker?;
  }

  /** The result of `_split_preamble_body(text)`: the preamble entries and the body lines. */
  function SplitPreambleBodySpec(text: string): Result<(seq<string>, seq<string>)>
  {
    var st :- SplitKinds(Kinds(Split(text, '\n')));
    Ok((st.preamble, st.body))
  }

  /**
   * `_split_preamble_body`: the preamble entries and the body lines of the
   * text, or NetQASMSyntaxError for a preamble line after the body began.
   */
  method SplitPreambleBody(text: string) returns (r: Result<(seq<string>, seq<string>)>)
    ensures r == SplitPreambleBodySpec(text)
  {
    var lines := Split(text, '\n');
    ghost var ks := Kinds(lines);
    var isPreamble := true;
    var preambleLines: seq<string> := [];
    var bodyLines: seq<string> := [];
    for i := 0 to |lines|
      invariant SplitKinds(ks[..i]) == Ok(Sections(isPreamble, preambleLines, bodyLines))
    {
      var kind := Classify(lines[i]);
      SplitKindsStep(ks, i);
      match kind
      case Blank =>
      case Marker(e) =>
        if !isPreamble {
          SplitKindsPrefixErr(ks, i + 1);
          SplitKindsMeaning(ks);
          return Fail(SyntaxError);
        }
        if e.Some? {
          preambleLines := preambleLines + [e.value];
        }
      case Body(line) =>
        isPreamble := false;
        bodyLines := bodyLines + [line];
    }
    assert ks[..|lines|] == ks;
    return Ok((preambleLines, bodyLines));
  }

  lemma SplitKindsStep(ks: seq<LineKind>, i: nat)
    requires i < |ks|
    ensures SplitKinds(ks[..i + 1]) == if SplitKinds(ks[..i]).Err? then SplitKinds(ks[..i]) else SplitLine(SplitKinds(ks[..i]).value, ks[i])
  {
    assert ks[..i + 1][..i] == ks[..i];
  }

  /**
   * The split of a text fails (with NetQASMSyntaxError) exactly when a
   * preamble line follows a body line; otherwise its body lines are the
   * cleaned non-blank, non-'#' lines, each free of comments.
   */
  lemma SplitPreambleBodyMeaning(text: string)
    ensures var ks := Kinds(Split(text, '\n'));
      (SplitPreambleBodySpec(text).Err? <==> Misplaced(ks)) &&
      (SplitPreambleBodySpec(text).Err? ==> SplitPreambleBodySpec(text).error == Raise(SyntaxError)) &&
      (SplitPreambleBodySpec(text).Ok? ==>
        SplitPreambleBodySpec(text).value == (PreambleLines(ks), BodyLines(ks)))
  {
    SplitKindsMeaning(Kinds(Split(text, '\n')));
  }

  /** What a body line is: non-empty, not started by '#', and free of comments. */
  predicate CleanBody(t: string)
  {
    t != [] && t[0] != PREAMBLE_START && NoComment(t)
  }

  /** Every body line is non-empty, does not start with '#' and holds no comment. */
  lemma BodyLinesClean(ks: seq<LineKind>, lines: seq<string>)
    requires ks == Kinds(lines)
    ensures forall k :: 0 <= k < |BodyLines(ks)| ==>
      BodyLines(ks)[k] != [] && BodyLines(ks)[k][0] != PREAMBLE_START && NoComment(BodyLines(ks)[k])
  {
    forall i | 0 <= i < |ks| && ks[i].Body?
      ensures CleanBody(ks[i].text)
    {
      assert ks[i] == Classify(lines[i]);
    }
    BodyLinesOfClean(ks);
    forall k | 0 <= k < |BodyLines(ks)|
      ensures BodyLines(ks)[k] != [] && BodyLines(ks)[k][0] != PREAMBLE_START && NoComment(BodyLines(ks)[k])
    {
      assert CleanBody(BodyLines(ks)[k]);
    }
  }

  lemma {:induction false} BodyLinesOfClean(ks: seq<LineKind>)
    requires forall i :: 0 <= i < |ks| && ks[i].Body? ==> CleanBody(ks[i].text)
    ensures forall k :: 0 <= k < |BodyLines(ks)| ==> CleanBody(BodyLines(ks)[k])
  {
    if ks != [] {
      var n := |ks| - 1;
      BodyLinesOfClean(ks[..n]);
    }
  }

  // ---------------------------------------------------------------------
  // Macros

  /** The macro marker followed by the key. */
  function MacroPattern(key: string): (p: string)
    ensures |p| == |key| + 1
  {
    [MACRO_START] + key
  }

  /** A DEFINE value with its braces stripped. */
  function MacroValue(value: string): string
  {
    StripChars(value, {DEFINE_OPEN, DEFINE_CLOSE})
  }

  /** The text after each macro, in order, has replaced its marked key by its value. */
  function MacroText(body: string, macros: seq<seq<string>>): string
    requires forall k :: 0 <= k < |macros| ==> |macros[k]| == 2
  {
    if macros == [] then body
    else
      var last := macros[|macros| - 1];
      Replace(MacroText(body, macros[..|macros| - 1]), MacroPattern(last[0]), MacroValue(last[1]))
  }

  /** The result of `_apply_macros(body_lines, macros)`. */
  function ApplyMacrosSpec(bodyLines: seq<string>, macros: seq<seq<string>>): seq<string>
    requires forall k :: 0 <= k < |macros| ==> |macros[k]| == 2
  {
    if bodyLines == [] then [] else Split(MacroText(Join(bodyLines, "\n"), macros), '\n')
  }

  /**
   * `_apply_macros`: the body lines joined, each macro's marked key
   * replaced by its value in turn, and the text split into lines again.
   */
  method ApplyMacros(bodyLines: seq<string>, macros: seq<seq<string>>) returns (lines: seq<string>)
    requires forall k :: 0 <= k < |macros| ==> |macros[k]| == 2
    ensures lines == ApplyMacrosSpec(bodyLines, macros)
  {
    if |bodyLines| == 0 {
      return [];
    }
    var body := Join(bodyLines, "\n");
    for i := 0 to |macros|
      invariant body == MacroText(Join(bodyLines, "\n"), macros[..i])
    {
      assert macros[..i + 1][..i] == macros[..i];
      var key, value := macros[i][0], MacroValue(macros[i][1]);
      body := Replace(body, MacroPattern(key), value);
    }
    assert macros[..|macros|] == macros;
    lines := Split(body, '\n');
  }

  /** Text without any newline. */
  predicate SingleLine(s: string)
  {
    '\n' !in s
  }

  /** Replacing a newline-free pattern by a newline-free value keeps the newlines. */
  lemma {:induction false} ReplaceKeepsNewlines(s: string, pat: string, repl: string)
    requires |pat| > 0 && SingleLine(pat) && SingleLine(repl)
    ensures Count(Replace(s, pat, repl), '\n') == Count(s, '\n')
    decreases |s|
  {
    if Find(s, pat) != -1 {
      ReplaceKeepsNewlines(s[Find(s, pat) + |pat|..], pat, repl);
      ReplaceStepNewlines(s, pat, repl);
    }
  }

  lemma ReplaceStepNewlines(s: string, pat: string, repl: string)
    requires |pat| > 0 && SingleLine(pat) && SingleLine(repl) && Find(s, pat) != -1
    requires Count(Replace(s[Find(s, pat) + |pat|..], pat, repl), '\n') == Count(s[Find(s, pat) + |pat|..], '\n')
    ensures Count(Replace(s, pat, repl), '\n') == Count(s, '\n')
  {
    ReplaceUnfold(s, pat, repl);
    CutAt(s, pat, Find(s, pat));
    CountSwapMiddle(s[..Find(s, pat)], pat, repl, s[Find(s, pat) + |pat|..], Replace(s[Find(s, pat) + |pat|..], pat, repl));
  }

  /** Swapping a newline-free middle for another, and the tail for one with as many newlines. */
  lemma CountSwapMiddle(a: string, b: string, b': string, c: string, c': string)
    requires SingleLine(b) && SingleLine(b') && Count(c', '\n') == Count(c, '\n')
    ensures Count(a + b' + c', '\n') == Count(a + b + c, '\n')
  {
    CountThree(a, b, c);
    CountThree(a, b', c');
  }

  lemma CountThree(a: string, b: string, c: string)
    ensures Count(a + b + c, '\n') == Count(a, '\n') + Count(b, '\n') + Count(c, '\n')
  {
    CountAppend(a, b, '\n');
    CountAppend(a + b, c, '\n');
  }

  /** Joining newline-free lines with newlines puts one newline between each pair. */
  lemma {:induction false} JoinCount(parts: seq<string>)
    requires |parts| > 0 && forall k :: 0 <= k < |parts| ==> SingleLine(parts[k])
    ensures Count(Join(parts, "\n"), '\n') == |parts| - 1
  {
    if |parts| > 1 {
      JoinCount(parts[1..]);
      CountAppend(parts[0], "\n", '\n');
      CountAppend(parts[0] + "\n", Join(parts[1..], "\n"), '\n');
    }
  }

  /** Splitting on newlines gives one more piece than there are newlines. */
  lemma {:induction false} SplitCount(s: string)
    ensures |Split(s, '\n')| == Count(s, '\n') + 1
    decreases |s|
  {
    if Find(s, ['\n']) == -1 {
      FindCharAbsent(s, '\n');
      SplitNoSep(s, '\n');
    } else {
      var i := Find(s, ['\n']);
      FindCharIsChar(s, '\n');
      SplitStep(s, '\n', i);
      SplitCount(s[i + 1..]);
      assert s == s[..i] + ("\n" + s[i + 1..]);
      CountAppend(s[..i], "\n" + s[i + 1..], '\n');
      CountAppend("\n", s[i + 1..], '\n');
    }
  }

  /** Newline-free keys and values keep the newlines of the text. */
  lemma {:induction false} MacroTextKeepsNewlines(body: string, macros: seq<seq<string>>)
    requires forall k :: 0 <= k < |macros| ==> |macros[k]| == 2 && SingleLine(macros[k][0]) && SingleLine(MacroValue(macros[k][1]))
    ensures Count(MacroText(body, macros), '\n') == Count(body, '\n')
  {
    if macros != [] {
      var init := macros[..|macros| - 1];
      var last := macros[|macros| - 1];
      MacroTextKeepsNewlines(body, init);
      assert SingleLine(MacroPattern(last[0])) by {
        assert MacroPattern(last[0])[1..] == last[0];
      }
      ReplaceKeepsNewlines(MacroText(body, init), MacroPattern(last[0]), MacroValue(last[1]));
    }
  }

  /**
   * Macro substitution keeps one line per body line when no key or value
   * holds a newline (as the line split guarantees for a parsed preamble).
   */
  lemma MacrosKeepLineCount(bodyLines: seq<string>, macros: seq<seq<string>>)
    requires forall k :: 0 <= k < |bodyLines| ==> SingleLine(bodyLines[k])
    requires forall k :: 0 <= k < |macros| ==> |macros[k]| == 2 && SingleLine(macros[k][0]) && SingleLine(MacroValue(macros[k][1]))
    ensures |ApplyMacrosSpec(bodyLines, macros)| == |bodyLines|
  {
    if bodyLines != [] {
      var text := Join(bodyLines, "\n");
      JoinCount(bodyLines);
      MacroTextKeepsNewlines(text, macros);
      SplitCount(MacroText(text, macros));
    }
  }

  /** Without macros the body lines come back unchanged. */
  lemma {:induction false} NoMacrosNoChange(bodyLines: seq<string>)
    requires forall k :: 0 <= k < |bodyLines| ==> SingleLine(bodyLines[k])
    ensures ApplyMacrosSpec(bodyLines, []) == bodyLines
  {
    if bodyLines != [] {
      SplitJoin(bodyLines);
    }
  }

  /** Splitting the newline-join of newline-free lines gives the lines back. */
  lemma {:induction false} SplitJoin(parts: seq<string>)
    requires |parts| > 0 && forall k :: 0 <= k < |parts| ==> SingleLine(parts[k])
    ensures Split(Join(parts, "\n"), '\n') == parts
  {
    if |parts| == 1 {
      SplitNoSep(parts[0], '\n');
    } else {
      var rest := Join(parts[1..], "\n");
      SplitJoin(parts[1..]);
      var s := parts[0] + "\n" + rest;
      assert s == parts[0] + ['\n'] + rest;
      forall j | 0 <= j < |parts[0]| ensures s[j] != '\n' {
        assert s[j] == parts[0][j];
      }
      FindCharUnique(s, '\n', |parts[0]|);
      SplitStep(s, '\n', |parts[0]|);
      assert s[..|parts[0]|] == parts[0];
      assert s[|parts[0]| + 1..] == rest;
      assert [parts[0]] + parts[1..] == parts;
    }
  }
}
