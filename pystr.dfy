// The Python `str` operations the modelled code relies on, on `seq<char>`:
// `find`, `startswith`/`endswith`, `strip` and its character-set forms,
// `split` on one character, `join`, `replace` and `count`.

module PyStr {

  /** ASCII characters for which `str.isspace()` holds. */
  predicate IsSpace(c: char)
  {
    c == ' ' || c == '\t' || c == '\n' || c == '\r' || c == '\U{000B}' || c == '\U{000C}'
    || c == '\U{001C}' || c == '\U{001D}' || c == '\U{001E}' || c == '\U{001F}'
  }

  predicate StartsWith(s: string, p: string)
  {
    |p| <= |s| && s[..|p|] == p
  }

  predicate EndsWith(s: string, p: string)
  {
    |p| <= |s| && s[|s| - |p|..] == p
  }

  predicate OccursAt(s: string, sub: string, i: int)
  {
    0 <= i && i + |sub| <= |s| && s[i..i + |sub|] == sub
  }

  /** `s.find(sub)`: the first index at which sub occurs, or -1. */
  function Find(s: string, sub: string): (r: int)
    ensures -1 <= r <= |s|
    ensures r >= 0 ==> OccursAt(s, sub, r)
    ensures forall j :: 0 <= j < (if r == -1 then |s| + 1 else r) ==> !OccursAt(s, sub, j)
  {
    FindFrom(s, sub, 0)
  }

  function FindFrom(s: string, sub: string, i: nat): (r: int)
    requires i <= |s| + 1
    ensures r == -1 || i <= r <= |s|
    ensures r >= 0 ==> OccursAt(s, sub, r)
    ensures forall j :: i <= j < (if r == -1 then |s| + 1 else r) ==> !OccursAt(s, sub, j)
    decreases |s| + 1 - i
  {
    if i + |sub| > |s| then -1
    else if s[i..i + |sub|] == sub then i
    else FindFrom(s, sub, i + 1)
  }

  /** `s.lstrip(chars)` */
  function LStripChars(s: string, chars: set<char>): (r: string)
    ensures EndsWith(s, r)
    ensures r == [] || r[0] !in chars
    ensures forall i :: 0 <= i < |s| - |r| ==> s[i] in chars
  {
    if s == [] || s[0] !in chars then s else LStripChars(s[1..], chars)
  }

  /** `s.rstrip(chars)` */
  function RStripChars(s: string, chars: set<char>): (r: string)
    ensures StartsWith(s, r)
    ensures r == [] || r[|r| - 1] !in chars
    ensures forall i :: |r| <= i < |s| ==> s[i] in chars
  {
    if s == [] || s[|s| - 1] !in chars then s else RStripChars(s[..|s| - 1], chars)
  }

  /** `s.strip(chars)` */
  function StripChars(s: string, chars: set<char>): string
  {
    RStripChars(LStripChars(s, chars), chars)
  }

  function LStrip(s: string): (r: string)
    ensures EndsWith(s, r) && (r == [] || !IsSpace(r[0]))
  {
    if s == [] || !IsSpace(s[0]) then s else LStrip(s[1..])
  }

  function RStrip(s: string): (r: string)
    ensures StartsWith(s, r) && (r == [] || !IsSpace(r[|r| - 1]))
  {
    if s == [] || !IsSpace(s[|s| - 1]) then s else RStrip(s[..|s| - 1])
  }

  /** `s.strip()`: surrounding whitespace removed. */
  function Strip(s: string): (r: string)
    ensures |r| <= |s|
    ensures r == [] || (!IsSpace(r[0]) && !IsSpace(r[|r| - 1]))
  {
    RStrip(LStrip(s))
  }

  /** A string with no whitespace at either end is its own strip. */
  lemma StripUnchanged(s: string)
    requires s != [] && !IsSpace(s[0]) && !IsSpace(s[|s| - 1])
    ensures Strip(s) == s
  {
    assert LStrip(s) == s;
  }

  /** Where `s.find(c)` lands for one character: -1 when c is absent, else its first occurrence. */
  lemma FindChar(s: string, c: char)
    ensures Find(s, [c]) == -1 ==> c !in s
    ensures Find(s, [c]) >= 0 ==> Find(s, [c]) < |s| && s[Find(s, [c])] == c && c !in s[..Find(s, [c])]
  {
    var i := Find(s, [c]);
    forall j | 0 <= j < |s| && (i == -1 || j < i) ensures s[j] != c {
      assert !OccursAt(s, [c], j);
      assert s[j..j + 1] == [s[j]];
    }
    if i >= 0 {
      assert s[i..i + 1] == [c];
    }
  }

  /** `s.split(sep)` for a one-character separator. */
  function Split(s: string, sep: char): (parts: seq<string>)
    ensures |parts| >= 1
    ensures forall k :: 0 <= k < |parts| ==> sep !in parts[k]
    decreases |s|
  {
    var i := Find(s, [sep]);
    if i == -1 then
      assert sep !in s by {
        forall j | 0 <= j < |s| ensures s[j] != sep {
          assert !OccursAt(s, [sep], j);
        }
      }
      [s]
    else
      assert s[i] == sep && sep !in s[..i] by {
        forall j | 0 <= j < i ensures s[j] != sep {
          assert !OccursAt(s, [sep], j);
        }
      }
      [s[..i]] + Split(s[i + 1..], sep)
  }

  /** `sep.join(parts)` */
  function Join(parts: seq<string>, sep: string): string
  {
    if parts == [] then []
    else if |parts| == 1 then parts[0]
    else parts[0] + sep + Join(parts[1..], sep)
  }

  /** Splitting and joining again on the same separator gives back the string. */
  lemma {:induction false} JoinSplit(s: string, sep: char)
    ensures Join(Split(s, sep), [sep]) == s
    decreases |s|
  {
    var i := Find(s, [sep]);
    if i == -1 {
      assert Split(s, sep) == [s];
    } else {
      var rest := Split(s[i + 1..], sep);
      JoinSplit(s[i + 1..], sep);
      SplitStep(s, sep, i);
      var parts := [s[..i]] + rest;
      assert parts[1..] == rest;
      assert Join(parts, [sep]) == s[..i] + [sep] + Join(rest, [sep]);
      assert s == s[..i] + [sep] + s[i + 1..];
    }
  }

  lemma SplitStep(s: string, sep: char, i: int)
    requires i == Find(s, [sep]) && i != -1
    ensures Split(s, sep) == [s[..i]] + Split(s[i + 1..], sep)
  {
  }

  /** `s.count(c)` for one character. */
  function Count(s: string, c: char): (n: nat)
    ensures n <= |s|
    ensures n == 0 <==> c !in s
  {
    if s == [] then 0 else (if s[0] == c then 1 else 0) + Count(s[1..], c)
  }

  /** `s.replace(old, new)`: every non-overlapping occurrence, left to right. */
  function Replace(s: string, pat: string, repl: string): (r: string)
    requires |pat| > 0
    ensures Find(s, pat) == -1 ==> r == s
    decreases |s|
  {
    var i := Find(s, pat);
    if i == -1 then s else s[..i] + repl + Replace(s[i + |pat|..], pat, repl)
  }

  /** One step of `Replace`: the text before the first occurrence, the replacement, the rest replaced. */
  lemma ReplaceUnfold(s: string, pat: string, repl: string)
    requires |pat| > 0 && Find(s, pat) != -1
    ensures Replace(s, pat, repl) == s[..Find(s, pat)] + repl + Replace(s[Find(s, pat) + |pat|..], pat, repl)
  {
  }

  /** An occurrence cuts the text into what precedes it, the pattern and what follows. */
  lemma CutAt(s: string, pat: string, i: int)
    requires OccursAt(s, pat, i)
    ensures s == s[..i] + pat + s[i + |pat|..]
  {
  }

  /** `" " * n` */
  function Spaces(n: int): (r: string)
    ensures |r| == (if n < 0 then 0 else n)
    ensures forall i :: 0 <= i < |r| ==> r[i] == ' '
  {
    if n <= 0 then [] else [' '] + Spaces(n - 1)
  }
}
