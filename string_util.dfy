// `netqasm/util/string.py`: word grouping, the variable-name, integer and
// float tests, right-aligned padding, and the decimal text of integers
// (`str(int)` / `int(str)`) that the rest of the code relies on.

module StringUtil {
  import opened Wrappers
  import opened PyStr

  /** The n consecutive ASCII characters starting at code `first`. */
  function CharRun(first: nat, n: nat): (s: string)
    requires first + n <= 128
    ensures |s| == n && forall i :: 0 <= i < n ==> s[i] == (first + i) as char
  {
    if n == 0 then [] else CharRun(first, n - 1) + [(first + n - 1) as char]
  }

  /** "abcdefghijklmnopqrstuvwxyz" */
  const ALPHA_LOWER: string := CharRun(97, 26)
  /** "ABCDEFGHIJKLMNOPQRSTUVWXYZ" */
  const ALPHA_CAPITAL: string := CharRun(65, 26)
  const ALPHA_ALL: string := ALPHA_LOWER + ALPHA_CAPITAL
  /** "0123456789" */
  const NUM: string := CharRun(48, 10)
  const ALPHA_NUM: string := ALPHA_ALL + NUM
  /** The characters a variable name may use. */
  const NAME_CHARS: string := ALPHA_NUM + "_"

  function CharSet(s: string): set<char>
  {
    set c | c in s
  }

  predicate IsDigit(c: char) { '0' <= c <= '9' }
  predicate IsAlpha(c: char) { 'a' <= c <= 'z' || 'A' <= c <= 'Z' }
  predicate IsNameChar(c: char) { IsAlpha(c) || IsDigit(c) || c == '_' }

  lemma AlphaMembership(c: char)
    ensures c in ALPHA_ALL <==> IsAlpha(c)
  {
    if 'a' <= c <= 'z' {
      assert ALPHA_LOWER[(c as int) - 97] == c;
    } else if 'A' <= c <= 'Z' {
      assert ALPHA_CAPITAL[(c as int) - 65] == c;
    }
  }

  lemma DigitMembership(c: char)
    ensures c in NUM <==> IsDigit(c)
  {
    if IsDigit(c) {
      assert NUM[(c as int) - 48] == c;
    }
  }

  lemma NameMembership(c: char)
    ensures c in NAME_CHARS <==> IsNameChar(c)
  {
    AlphaMembership(c);
    DigitMembership(c);
    assert NAME_CHARS == ALPHA_ALL + NUM + "_";
  }

  // ---------------------------------------------------------------------
  // is_variable_name

  /**
   * `is_variable_name` as written: the character set of the name must be a
   * PROPER subset of the allowed characters, and `variable[0]` raises
   * IndexError on the empty string.
   */
  function IsVariableNameAsWritten(v: string): (r: Result<bool>)
    ensures r.Err? <==> v == []
    ensures r.Err? ==> r.error.kind == IndexError
  {
    if v == [] then Fail(IndexError)
    else Ok(v[0] in ALPHA_ALL && CharSet(v) < CharSet(NAME_CHARS))
  }

  /**
   * `is_variable_name` as intended: starts with a letter and uses only
   * letters, digits and `_` (a subset test, not a proper-subset test).
   */
  function IsVariableName(v: string): (r: Result<bool>)
    ensures r.Err? <==> v == []
    ensures r.Err? ==> r.error.kind == IndexError
    ensures r.Ok? ==> (r.value <==> IsAlpha(v[0]) && forall i :: 0 <= i < |v| ==> IsNameChar(v[i]))
  {
    if v == [] then Fail(IndexError)
    else
      var ok := v[0] in ALPHA_ALL && CharSet(v) <= CharSet(NAME_CHARS);
      AlphaMembership(v[0]);
      assert ok <==> IsAlpha(v[0]) && forall i :: 0 <= i < |v| ==> IsNameChar(v[i]) by {
        if CharSet(v) <= CharSet(NAME_CHARS) {
          forall i | 0 <= i < |v| ensures IsNameChar(v[i]) {
            assert v[i] in CharSet(v);
            NameMembership(v[i]);
          }
        }
        if forall i :: 0 <= i < |v| ==> IsNameChar(v[i]) {
          forall c | c in CharSet(v) ensures c in CharSet(NAME_CHARS) {
            NameMembership(c);
          }
        }
      }
      Ok(ok)
  }

  /** The two readings differ exactly on names that use every allowed character. */
  lemma VariableNameReadings(v: string)
    ensures IsVariableNameAsWritten(v) != IsVariableName(v) <==> v != [] && v[0] in ALPHA_ALL && CharSet(v) == CharSet(NAME_CHARS)
  {
  }

  /** A name made of all 63 allowed characters is rejected as written and accepted as intended. */
  lemma VariableNameFinding()
    ensures IsVariableNameAsWritten(NAME_CHARS) == Ok(false)
    ensures IsVariableName(NAME_CHARS) == Ok(true)
  {
    assert NAME_CHARS[0] == 'a';
  }

  // ---------------------------------------------------------------------
  // Decimal text of integers

  function DigitChar(d: nat): (c: char)
    requires d < 10
    ensures IsDigit(c)
  {
    (48 + d) as char
  }

  function DigitValue(c: char): (d: nat)
    requires IsDigit(c)
    ensures d < 10 && DigitChar(d) == c
  {
    (c as int) - 48
  }

  predicate AllDigits(s: string)
  {
    forall i :: 0 <= i < |s| ==> IsDigit(s[i])
  }

  function DigitsValue(s: string): (v: nat)
    requires AllDigits(s)
  {
    if s == [] then 0 else 10 * DigitsValue(s[..|s| - 1]) + DigitValue(s[|s| - 1])
  }

  /** `str(n)` for a natural number. */
  function NatToString(n: nat): (s: string)
    ensures |s| >= 1 && AllDigits(s)
  {
    if n < 10 then [DigitChar(n)] else NatToString(n / 10) + [DigitChar(n % 10)]
  }

  /** `str(i)` for an integer. */
  function IntToString(i: int): (s: string)
    ensures |s| >= 1
  {
    if i < 0 then "-" + NatToString(-i) else NatToString(i)
  }

  lemma {:induction false} NatToStringValue(n: nat)
    ensures DigitsValue(NatToString(n)) == n
  {
    if n >= 10 {
      NatToStringValue(n / 10);
      var s := NatToString(n);
      assert s[..|s| - 1] == NatToString(n / 10);
    }
  }

  /** The part of a candidate number after an optional leading '-'. */
  function Magnitude(s: string): (t: string)
    ensures |t| <= |s|
  {
    if StartsWith(s, "-") then s[1..] else s
  }

  /** `is_number`: an optional leading '-', then one or more digits. */
  function IsNumber(s: string): (b: bool)
    ensures b <==> |Magnitude(s)| > 0 && AllDigits(Magnitude(s))
  {
    var t := Magnitude(s);
    var b := |t| > 0 && CharSet(t) <= CharSet(NUM);
    assert b <==> |t| > 0 && AllDigits(t) by {
      if CharSet(t) <= CharSet(NUM) {
        forall i | 0 <= i < |t| ensures IsDigit(t[i]) {
          assert t[i] in CharSet(t);
          DigitMembership(t[i]);
        }
      }
      if AllDigits(t) {
        forall c | c in CharSet(t) ensures c in CharSet(NUM) {
          DigitMembership(c);
        }
      }
    }
    b
  }

  /** `int(s)` on a string accepted by `is_number`. */
  function ParseNumber(s: string): int
    requires IsNumber(s)
  {
    if StartsWith(s, "-") then -(DigitsValue(s[1..]) as int) else DigitsValue(s)
  }

  /** `int(s)`: ValueError unless s is an optionally negated run of digits. */
  function PyInt(s: string): (r: Result<int>)
    ensures r.Ok? <==> IsNumber(s)
    ensures r.Err? ==> r.error.kind == ValueError
  {
    if IsNumber(s) then Ok(ParseNumber(s)) else Fail(ValueError)
  }

  /** The text of every integer is a number, and reading it back gives the integer. */
  lemma IntToStringRoundTrip(i: int)
    ensures IsNumber(IntToString(i))
    ensures ParseNumber(IntToString(i)) == i
    ensures PyInt(IntToString(i)) == Ok(i)
  {
    var s := IntToString(i);
    if i < 0 {
      var d := NatToString(-i);
      assert s == "-" + d;
      assert s[..1] == "-";
      assert Magnitude(s) == d;
      NatToStringValue(-i);
    } else {
      assert s == NatToString(i);
      assert s[0] != '-';
      assert !StartsWith(s, "-");
      assert Magnitude(s) == s;
      NatToStringValue(i);
    }
  }

  lemma IntToStringInjective(i: int, j: int)
    requires IntToString(i) == IntToString(j)
    ensures i == j
  {
    IntToStringRoundTrip(i);
    IntToStringRoundTrip(j);
  }

  // ---------------------------------------------------------------------
  // is_float

  /** `is_float`: exactly one '.', not both sides empty, each side empty or a number. */
  function IsFloat(v: string): bool
  {
    Count(v, '.') == 1 &&
    var parts := Split(v, '.');
    !(forall k :: 0 <= k < |parts| ==> |parts[k]| == 0) &&
    (forall k :: 0 <= k < |parts| ==> |parts[k]| == 0 || IsNumber(parts[k]))
  }

  lemma {:induction false} CountAppend(a: string, b: string, c: char)
    ensures Count(a + b, c) == Count(a, c) + Count(b, c)
  {
    if a == [] {
      assert a + b == b;
    } else {
      assert (a + b)[0] == a[0];
      assert (a + b)[1..] == a[1..] + b;
      CountAppend(a[1..], b, c);
    }
  }

  lemma SplitNoSep(s: string, sep: char)
    requires sep !in s
    ensures Split(s, sep) == [s]
  {
    FindAbsentLead(s, [sep]);
  }

  lemma SplitOneSep(a: string, b: string, sep: char)
    requires sep !in a && sep !in b
    ensures Split(a + [sep] + b, sep) == [a, b]
  {
    var v := a + [sep] + b;
    forall j | 0 <= j < |a| ensures v[j] != sep {
      assert v[j] == a[j];
    }
    FindCharUnique(v, sep, |a|);
    SplitStep(v, sep, |a|);
    assert v[..|a|] == a;
    assert v[|a| + 1..] == b;
    SplitNoSep(b, sep);
  }

  lemma CountOneSep(a: string, b: string, sep: char)
    requires sep !in a && sep !in b
    ensures Count(a + [sep] + b, sep) == 1
  {
    assert a + [sep] + b == a + ([sep] + b);
    CountAppend(a, [sep] + b, sep);
    CountAppend([sep], b, sep);
  }

  /** A text with one '.' reads as a float exactly by its two sides. */
  lemma IsFloatSides(a: string, b: string)
    requires '.' !in a && '.' !in b
    ensures IsFloat(a + "." + b) <==> (a != [] || b != []) && (a == [] || IsNumber(a)) && (b == [] || IsNumber(b))
  {
    var v := a + "." + b;
    CountOneSep(a, b, '.');
    SplitOneSep(a, b, '.');
    var parts := Split(v, '.');
    assert parts[0] == a && parts[1] == b && |parts| == 2;
  }

  /** An integer text is never a float text. */
  lemma NumberIsNotFloat(s: string)
    requires IsNumber(s)
    ensures !IsFloat(s)
  {
    var t := Magnitude(s);
    forall k | 0 <= k < |s| ensures s[k] != '.' {
      if StartsWith(s, "-") {
        if k == 0 {
          assert s[..1][0] == s[0];
        } else {
          assert s[k] == t[k - 1];
        }
      } else {
        assert s[k] == t[k];
      }
    }
  }

  // ---------------------------------------------------------------------
  // rspaces

  /** `rspaces(val, min_chars)`: str(val) left-padded with spaces to min_chars characters. */
  function RSpaces(val: string, minChars: int): (r: string)
    ensures |r| == (if minChars > |val| then minChars else |val|)
    ensures EndsWith(r, val)
    ensures forall i :: 0 <= i < |r| - |val| ==> r[i] == ' '
  {
    var r := Spaces(minChars - |val|) + val;
    assert r[|r| - |val|..] == val;
    r
  }

  // ---------------------------------------------------------------------
  // group_by_word

  /** `_assert_valid_brackets`: two distinct characters not containing the separator. */
  predicate ValidBrackets(sep: string, brackets: string)
  {
    |brackets| == 2 && brackets[0] != brackets[1] && Find(brackets, sep) == -1
  }

  /** The string that closes the next word of `rest`. */
  function EndString(rest: string, sep: string, brackets: Option<string>): (e: string)
    requires brackets.Some? ==> |brackets.value| == 2
    ensures EndsWith(e, sep) && |e| >= |sep|
  {
    if brackets.Some? then
      var firstSep := Find(rest, sep);
      var firstStart := Find(rest, [brackets.value[0]]);
      if firstStart != -1 && firstStart < firstSep then [brackets.value[1]] + sep else sep
    else sep
  }

  /** Prefixing known words to a result (errors pass through). */
  function Prefixed(ws: seq<string>, r: Result<seq<string>>): Result<seq<string>>
  {
    if r.Err? then r else Ok(ws + r.value)
  }

  /** The words the loop of `group_by_word` collects from `rest`. */
  function Words(rest: string, sep: string, brackets: Option<string>): Result<seq<string>>
    requires |sep| > 0
    requires brackets.Some? ==> |brackets.value| == 2
    decreases |rest|
  {
    if |rest| == 0 then Ok([])
    else
      var e := EndString(rest, sep, brackets);
      var end := Find(rest, e);
      if end == -1 then Fail(ValueError)
      else Prefixed([rest[..end + |e| - 1]], Words(rest[end + |e|..], sep, brackets))
  }

  /** One round of the word loop. */
  lemma WordsStep(rest: string, sep: string, brackets: Option<string>)
    requires |sep| > 0 && (brackets.Some? ==> |brackets.value| == 2) && |rest| > 0
    ensures var e := EndString(rest, sep, brackets); var end := Find(rest, e);
      Words(rest, sep, brackets) ==
        if end == -1 then Fail(ValueError)
        else Prefixed([rest[..end + |e| - 1]], Words(rest[end + |e|..], sep, brackets))
  {
  }

  /** The result of `group_by_word(line, seperator, brackets)`. */
  function GroupByWordSpec(line: string, sep: string, brackets: Option<string>): Result<seq<string>>
  {
    if |sep| == 0 then Fail(ValueError)
    else if brackets.Some? && !ValidBrackets(sep, brackets.value) then Fail(ValueError)
    else Words(Strip(line) + sep, sep, brackets)
  }

  /** `group_by_word`: validates the separator and brackets, then collects the words. */
  method GroupByWord(line: string, sep: string, brackets: Option<string>) returns (r: Result<seq<string>>)
    ensures r == GroupByWordSpec(line, sep, brackets)
  {
    if |sep| == 0 {
      return Fail(ValueError);
    }
    if brackets.Some? && !ValidBrackets(sep, brackets.value) {
      return Fail(ValueError);
    }
    r := CollectWords(Strip(line) + sep, sep, brackets);
  }

  /** The word loop of `group_by_word`, consuming the line from the front. */
  method CollectWords(line: string, sep: string, brackets: Option<string>) returns (r: Result<seq<string>>)
    requires |sep| > 0 && (brackets.Some? ==> |brackets.value| == 2)
    ensures r == Words(line, sep, brackets)
  {
    var l := line;
    var words: seq<string> := [];
    PrefixedEmpty(Words(l, sep, brackets));
    while |l| > 0
      invariant Prefixed(words, Words(l, sep, brackets)) == Words(line, sep, brackets)
      decreases |l|
    {
      var next := NextWord(l, sep, brackets);
      if next.None? {
        return Fail(ValueError);
      }
      var (w, l') := next.value;
      PrefixedAssoc(words, w, Words(l', sep, brackets));
      words := words + [w];
      l := l';
    }
    assert words + [] == words;
    return Ok(words);
  }

  /**
   * One round of the word loop: the word up to the end string (without
   * the separator) and the rest after it; None when the end string never
   * occurs, where the loop raises ValueError.
   */
  method NextWord(l: string, sep: string, brackets: Option<string>) returns (r: Option<(string, string)>)
    requires |sep| > 0 && (brackets.Some? ==> |brackets.value| == 2) && |l| > 0
    ensures r.None? ==> Words(l, sep, brackets) == Fail(ValueError)
    ensures r.Some? ==> |r.value.1| < |l| && Words(l, sep, brackets) == Prefixed([r.value.0], Words(r.value.1, sep, brackets))
  {
    var e := EndString(l, sep, brackets);
    var end := Find(l, e);
    WordsStep(l, sep, brackets);
    if end == -1 {
      return None;
    }
    assert OccursAt(l, e, end);
    var w, rest := l[..end + |e| - 1], l[end + |e|..];
    assert Words(l, sep, brackets) == Prefixed([w], Words(rest, sep, brackets));
    r := Some((w, rest));
  }

  lemma PrefixedEmpty(r: Result<seq<string>>)
    ensures Prefixed([], r) == r
  {
    if r.Ok? {
      assert [] + r.value == r.value;
    }
  }

  lemma PrefixedAssoc(ws: seq<string>, w: string, r: Result<seq<string>>)
    ensures Prefixed(ws, Prefixed([w], r)) == Prefixed(ws + [w], r)
  {
    if r.Ok? {
      assert ws + ([w] + r.value) == (ws + [w]) + r.value;
    }
  }

  lemma FindCharUnique(s: string, c: char, k: int)
    requires 0 <= k < |s| && s[k] == c
    requires forall j :: 0 <= j < k ==> s[j] != c
    ensures Find(s, [c]) == k
  {
    assert OccursAt(s, [c], k);
    var r := Find(s, [c]);
    forall j | 0 <= j < k ensures !OccursAt(s, [c], j) {
      assert s[j..j + 1] == [s[j]];
    }
    if r >= 0 {
      assert s[r..r + 1] == [s[r]];
    }
  }

  /** A string whose first character never occurs cannot be found. */
  lemma FindAbsentLead(s: string, e: string)
    requires |e| > 0 && e[0] !in s
    ensures Find(s, e) == -1
  {
  }

  /** Appending the character searched for only matters when it was absent. */
  lemma FindCharAppend(x: string, c: char)
    ensures Find(x + [c], [c]) == if Find(x, [c]) == -1 then |x| else Find(x, [c])
  {
    var l := x + [c];
    var i := Find(x, [c]);
    var k := if i == -1 then |x| else i;
    forall j | 0 <= j < k ensures l[j] != c {
      assert !OccursAt(x, [c], j);
      assert x[j..j + 1] == [x[j]];
    }
    if i != -1 {
      assert x[i..i + 1] == [x[i]];
    }
    FindCharUnique(l, c, k);
  }

  /** Without brackets a one-character separator splits like `str.split`. */
  lemma {:induction false} WordsAreSplit(x: string, c: char)
    ensures Words(x + [c], [c], None) == Ok(Split(x, c))
    decreases |x|
  {
    var l := x + [c];
    var i := Find(x, [c]);
    WordsStep(l, [c], None);
    FindCharAppend(x, c);
    if i == -1 {
      assert l[..|x|] == x;
      assert l[|x| + 1..] == [];
      assert Words([], [c], None) == Ok([]);
      assert [x] + [] == [x];
      SplitNoSepFound(x, c);
    } else {
      var rest := x[i + 1..];
      assert l[i + 1..] == rest + [c];
      assert l[..i] == x[..i];
      WordsAreSplit(rest, c);
      SplitStep(x, c, i);
    }
  }

  lemma SplitNoSepFound(x: string, c: char)
    requires Find(x, [c]) == -1
    ensures Split(x, c) == [x]
  {
  }

  /** With brackets None and a one-character separator, the words are the pieces of the stripped line. */
  lemma GroupByWordSplits(line: string, c: char)
    ensures GroupByWordSpec(line, [c], None) == Ok(Split(Strip(line), c))
    ensures Join(GroupByWordSpec(line, [c], None).value, [c]) == Strip(line)
  {
    WordsAreSplit(Strip(line), c);
    JoinSplit(Strip(line), c);
  }

  /** A line with no opening bracket is grouped as if no brackets were given. */
  lemma {:induction false} NoOpenBracketIgnoresBrackets(rest: string, sep: string, b: string)
    requires |sep| > 0 && |b| == 2
    requires b[0] !in rest
    ensures Words(rest, sep, Some(b)) == Words(rest, sep, None)
    decreases |rest|
  {
    if |rest| > 0 {
      NoOpenBracketStep(rest, sep, b);
      if Find(rest, sep) != -1 {
        var tail := rest[Find(rest, sep) + |sep|..];
        AbsentInSuffix(rest, b[0], Find(rest, sep) + |sep|);
        NoOpenBracketIgnoresBrackets(tail, sep, b);
      }
    }
  }

  /** Without an opening bracket the word loop ends each word at the separator, brackets or not. */
  lemma NoOpenBracketStep(rest: string, sep: string, b: string)
    requires |sep| > 0 && |b| == 2 && |rest| > 0
    requires b[0] !in rest
    ensures EndString(rest, sep, Some(b)) == sep && EndString(rest, sep, None) == sep
  {
    FindAbsentLead(rest, [b[0]]);
  }

  lemma AbsentInSuffix(s: string, c: char, k: int)
    requires 0 <= k <= |s| && c !in s
    ensures c !in s[k..]
  {
    forall j | 0 <= j < |s| - k
      ensures s[k..][j] != c
    {
      assert s[k..][j] == s[k + j];
    }
  }

  /** Valid brackets do not contain a one-character separator. */
  lemma SeparatorNotBracket(c: char, b: string)
    requires ValidBrackets([c], b)
    ensures c != b[0] && c != b[1]
  {
    assert !OccursAt(b, [c], 0) && !OccursAt(b, [c], 1);
    assert b[0..1] == [b[0]] && b[1..2] == [b[1]];
  }

  /** An opening bracket at the start of a line that never closes raises ValueError. */
  lemma UnclosedBracketRaises(line: string, c: char, b: string)
    requires ValidBrackets([c], b)
    requires Strip(line) != [] && Strip(line)[0] == b[0]
    requires b[1] !in Strip(line)
    ensures GroupByWordSpec(line, [c], Some(b)) == Fail(ValueError)
  {
    var x := Strip(line);
    var l := x + [c];
    SeparatorNotBracket(c, b);
    OpenBracketFirst(x, c, b);
    var e := [b[1]] + [c];
    assert b[1] !in l by {
      forall k | 0 <= k < |l| ensures l[k] != b[1] {
        if k < |x| { assert l[k] == x[k]; }
      }
    }
    FindAbsentLead(l, e);
    WordsStep(l, [c], Some(b));
  }

  /** A line that starts with the opening bracket closes its first word with bracket and separator. */
  lemma OpenBracketFirst(x: string, c: char, b: string)
    requires |b| == 2 && c != b[0]
    requires x != [] && x[0] == b[0]
    ensures EndString(x + [c], [c], Some(b)) == [b[1]] + [c]
  {
    var l := x + [c];
    FindCharUnique(l, b[0], 0);
    FindCharFound(l, c, |l| - 1);
    FindCharIsChar(l, c);
  }

  /** A character that occurs is found, at or before the occurrence. */
  lemma FindCharFound(s: string, c: char, k: int)
    requires 0 <= k < |s| && s[k] == c
    ensures 0 <= Find(s, [c]) <= k
  {
    assert s[k..k + 1] == [c];
    assert OccursAt(s, [c], k);
  }

  /** Where a character is found, it is that character, and it occurs nowhere before. */
  lemma FindCharIsChar(s: string, c: char)
    requires Find(s, [c]) >= 0
    ensures s[Find(s, [c])] == c
    ensures c !in s[..Find(s, [c])]
  {
    var f := Find(s, [c]);
    assert s[f..f + 1] == [s[f]];
    forall j | 0 <= j < f
      ensures s[..f][j] != c
    {
      assert !OccursAt(s, [c], j);
      assert s[j..j + 1] == [s[j]];
    }
  }

  /** A character that is not found does not occur. */
  lemma FindCharAbsent(s: string, c: char)
    requires Find(s, [c]) == -1
    ensures c !in s
  {
    forall j | 0 <= j < |s|
      ensures s[j] != c
    {
      assert !OccursAt(s, [c], j);
      assert s[j..j + 1] == [s[j]];
    }
  }
}
