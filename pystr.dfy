/**
  The pieces of Python's `str` behaviour that the scripts' decisions rest on:
  `strip`, `rstrip`, `split()`, `split(":")[0]`, `splitlines`, file iteration
  by lines, `"sep".join`, `lower` against a one-letter answer, `isdigit`,
  `int(...)`, the `in` substring test, `Path.name` and list slicing.
*/
module PyStr {
  import opened Base

  // ---------------------------------------------------------------------
  // Whitespace, strip and split
  // ---------------------------------------------------------------------

  /** `c.isspace()`: ASCII whitespace, the information separators, NEL, NBSP
      and the Unicode space separators. */
  predicate IsSpace(c: char)
  {
    c == ' ' || ('\t' <= c <= '\r') || ('\U{1C}' <= c <= '\U{1F}')
    || c == '\U{85}' || c == '\U{A0}' || c == '\U{1680}'
    || ('\U{2000}' <= c <= '\U{200A}') || c == '\U{2028}' || c == '\U{2029}'
    || c == '\U{202F}' || c == '\U{205F}' || c == '\U{3000}'
  }

  /** `s.lstrip()`. */
  function LStrip(s: string): (r: string)
    ensures |r| <= |s| && r == s[|s| - |r|..]
    ensures r == [] || !IsSpace(r[0])
    ensures forall i :: 0 <= i < |s| - |r| ==> IsSpace(s[i])
  {
    if s != [] && IsSpace(s[0]) then LStrip(s[1..]) else s
  }

  /** `s.rstrip()`. */
  function RStrip(s: string): (r: string)
    ensures r <= s
    ensures r == [] || !IsSpace(r[|r| - 1])
    ensures forall i :: |r| <= i < |s| ==> IsSpace(s[i])
  {
    if s != [] && IsSpace(s[|s| - 1]) then RStrip(s[..|s| - 1]) else s
  }

  /** `s.strip()`: the text between the leading and the trailing whitespace. */
  function Strip(s: string): (r: string)
    ensures |r| <= |s|
    ensures r == [] || (!IsSpace(r[0]) && !IsSpace(r[|r| - 1]))
  {
    RStrip(LStrip(s))
  }

  /** Whitespace around a trimmed text is exactly what `strip` removes. */
  lemma {:induction false} StripPadded(a: string, t: string, b: string)
    requires forall i :: 0 <= i < |a| ==> IsSpace(a[i])
    requires forall i :: 0 <= i < |b| ==> IsSpace(b[i])
    requires t == [] || (!IsSpace(t[0]) && !IsSpace(t[|t| - 1]))
    ensures Strip(a + t + b) == t
  {
    assert a + t + b == a + (t + b);
    if t == [] {
      assert a + t + b == a + b;
      LStripBlank(a + b);
    } else {
      LStripPadded(a, t + b);
      RStripPadded(t, b);
    }
  }

  lemma {:induction false} LStripBlank(s: string)
    requires forall i :: 0 <= i < |s| ==> IsSpace(s[i])
    ensures LStrip(s) == []
    decreases |s|
  {
    if s != [] {
      LStripBlank(s[1..]);
    }
  }

  lemma {:induction false} LStripPadded(a: string, t: string)
    requires forall i :: 0 <= i < |a| ==> IsSpace(a[i])
    requires t == [] || !IsSpace(t[0])
    ensures LStrip(a + t) == t
    decreases |a|
  {
    if a != [] {
      assert (a + t)[1..] == a[1..] + t;
      LStripPadded(a[1..], t);
    }
  }

  lemma {:induction false} RStripPadded(t: string, b: string)
    requires forall i :: 0 <= i < |b| ==> IsSpace(b[i])
    requires t == [] || !IsSpace(t[|t| - 1])
    ensures RStrip(t + b) == t
    decreases |b|
  {
    if b != [] {
      assert (t + b)[..|t + b| - 1] == t + b[..|b| - 1];
      RStripPadded(t, b[..|b| - 1]);
    } else {
      assert t + b == t;
    }
  }

  /** Stripping text that has no whitespace at either end changes nothing. */
  lemma StripTrimmed(s: string)
    requires s == [] || (!IsSpace(s[0]) && !IsSpace(s[|s| - 1]))
    ensures Strip(s) == s
  {
    StripPadded([], s, []);
    assert [] + s + [] == s;
  }

  /** A token of `split()`: non-empty and without whitespace. */
  predicate IsWord(w: string)
  {
    w != [] && forall i :: 0 <= i < |w| ==> !IsSpace(w[i])
  }

  /** Length of the run of non-whitespace characters at the front of `t`. */
  function WordLen(t: string): (n: nat)
    ensures n <= |t|
    ensures forall i :: 0 <= i < n ==> !IsSpace(t[i])
    ensures n < |t| ==> IsSpace(t[n])
  {
    if t == [] || IsSpace(t[0]) then 0 else 1 + WordLen(t[1..])
  }

  /** A text that starts with a non-space starts with a word. */
  lemma WordLenWordAt(t: string)
    requires t != [] && !IsSpace(t[0])
    ensures IsWord(t[..WordLen(t)])
  {
    var n := WordLen(t);
    forall i | 0 <= i < n
      ensures !IsSpace(t[..n][i])
    {
      assert t[..n][i] == t[i];
    }
  }

  /** `s.split()`: the maximal runs of non-whitespace characters, in order. */
  function Split(s: string): (r: seq<string>)
    decreases |s|
  {
    var t := LStrip(s);
    if t == [] then []
    else
      var n := WordLen(t);
      [t[..n]] + Split(t[n..])
  }

  /** Every token of `split()` is a word. */
  lemma {:induction false} SplitWords(s: string)
    ensures forall k :: 0 <= k < |Split(s)| ==> IsWord(Split(s)[k])
    decreases |s|
  {
    var t := LStrip(s);
    if t != [] {
      var n := WordLen(t);
      var rest := Split(t[n..]);
      SplitWords(t[n..]);
      WordLenWordAt(t);
      var r := Split(s);
      assert r == [t[..n]] + rest;
      forall k | 0 <= k < |r|
        ensures IsWord(r[k])
      {
        if k > 0 {
          assert r[k] == rest[k - 1];
        }
      }
    }
  }

  /** `" ".join(words)` for one-space separation, as `JoinWith(" ", ws)`. */
  function JoinWith(sep: string, items: seq<string>): (r: string)
  {
    if items == [] then []
    else if |items| == 1 then items[0]
    else items[0] + sep + JoinWith(sep, items[1..])
  }

  /** `split()` undoes joining words with single spaces. */
  lemma {:induction false} SplitJoin(ws: seq<string>)
    requires forall k :: 0 <= k < |ws| ==> IsWord(ws[k])
    ensures Split(JoinWith(" ", ws)) == ws
    decreases |ws|
  {
    if |ws| == 1 {
      SplitJoinOne(ws[0]);
      assert ws == [ws[0]];
    } else if ws != [] {
      WordsTail(ws);
      SplitJoin(ws[1..]);
      SplitJoinStep(ws[0], ws[1..]);
      assert ws == [ws[0]] + ws[1..];
    }
  }

  /** A single word splits back to itself. */
  lemma SplitJoinOne(w: string)
    requires IsWord(w)
    ensures Split(JoinWith(" ", [w])) == [w]
  {
    SplitWord(w, []);
    assert w + [] == w;
    assert Split([]) == [];
  }

  /** One more word in front of a joined list that already splits back. */
  lemma SplitJoinStep(w: string, tail: seq<string>)
    requires IsWord(w) && tail != []
    requires Split(JoinWith(" ", tail)) == tail
    ensures Split(JoinWith(" ", [w] + tail)) == [w] + tail
  {
    var ws := [w] + tail;
    assert ws[0] == w && ws[1..] == tail;
    var rest := JoinWith(" ", tail);
    assert JoinWith(" ", ws) == w + (" " + rest);
    SplitSpaced(w, rest);
  }

  lemma WordsTail(ws: seq<string>)
    requires ws != []
    requires forall k :: 0 <= k < |ws| ==> IsWord(ws[k])
    ensures forall k :: 0 <= k < |ws[1..]| ==> IsWord(ws[1..][k])
  {
    forall k | 0 <= k < |ws[1..]|
      ensures IsWord(ws[1..][k])
    {
      assert ws[1..][k] == ws[k + 1];
    }
  }

  /** A word, a space and more text: the word, then the tokens of the rest. */
  lemma SplitSpaced(w: string, rest: string)
    requires IsWord(w)
    ensures Split(w + (" " + rest)) == [w] + Split(rest)
  {
    SplitWord(w, " " + rest);
    SplitSpace(rest);
  }

  /** A word followed by whitespace or nothing is the first token. */
  lemma SplitWord(w: string, rest: string)
    requires IsWord(w)
    requires rest == [] || IsSpace(rest[0])
    ensures Split(w + rest) == [w] + Split(rest)
  {
    var s := w + rest;
    LStripPadded([], s);
    assert [] + s == s;
    WordLenWord(w, rest);
    assert s[..|w|] == w;
    assert s[|w|..] == rest;
  }

  /** A leading space does not change the tokens. */
  lemma SplitSpace(rest: string)
    ensures Split(" " + rest) == Split(rest)
  {
    assert (" " + rest)[1..] == rest;
    assert LStrip(" " + rest) == LStrip(rest);
  }

  /** Joining non-empty words gives text that starts with a non-space. */
  lemma JoinStartsWithWord(ws: seq<string>)
    requires ws != []
    requires forall k :: 0 <= k < |ws| ==> IsWord(ws[k])
    ensures JoinWith(" ", ws) != [] && !IsSpace(JoinWith(" ", ws)[0])
  {
    var w := ws[0];
    assert w[0] != ' ' && !IsSpace(w[0]);
    if |ws| > 1 {
      var j := JoinWith(" ", ws);
      assert j == w + " " + JoinWith(" ", ws[1..]);
      assert j[0] == w[0];
    }
  }

  lemma {:induction false} WordLenWord(w: string, tail: string)
    requires IsWord(w)
    requires tail == [] || IsSpace(tail[0])
    ensures WordLen(w + tail) == |w|
    decreases |w|
  {
    if |w| > 1 {
      assert (w + tail)[1..] == w[1..] + tail;
      WordLenWord(w[1..], tail);
    } else {
      assert (w + tail)[1..] == tail;
    }
  }

  /** `s.split(c)[0]`: everything before the first `c`. */
  function BeforeFirst(s: string, c: char): (r: string)
    ensures r <= s && c !in r
    ensures |r| < |s| ==> s[|r|] == c
  {
    if s == [] || s[0] == c then [] else [s[0]] + BeforeFirst(s[1..], c)
  }

  // ---------------------------------------------------------------------
  // Lines
  // ---------------------------------------------------------------------

  /** Length of the first line of `s`, its newline included. */
  function LineLen(s: string): (n: nat)
    ensures n <= |s|
    ensures s != [] ==> 0 < n
  {
    if s == [] then 0 else if s[0] == '\n' then 1 else 1 + LineLen(s[1..])
  }

  /** The first line holds a newline only at its end, and ends with one
      unless it is the whole text. */
  lemma {:induction false} LineLenShape(s: string)
    ensures forall i :: 0 <= i < LineLen(s) - 1 ==> s[i] != '\n'
    ensures 0 < LineLen(s) < |s| ==> s[LineLen(s) - 1] == '\n'
    decreases |s|
  {
    if s != [] && s[0] != '\n' {
      LineLenShape(s[1..]);
    }
  }

  /** `handle.readlines()` (and `for line in handle`): the lines of the text,
      each keeping its newline; only the last may lack one. */
  function ReadLines(s: string): (r: seq<string>)
    decreases |s|
  {
    if s == [] then [] else var n := LineLen(s); [s[..n]] + ReadLines(s[n..])
  }

  /** `"".join(lines)`, what `writelines` puts in a file. */
  function Concat(lines: seq<string>): string
  {
    if lines == [] then [] else lines[0] + Concat(lines[1..])
  }

  lemma ConcatAppend(a: seq<string>, b: seq<string>)
    ensures Concat(a + b) == Concat(a) + Concat(b)
  {
    if a != [] {
      assert (a + b)[1..] == a[1..] + b;
      ConcatAppend(a[1..], b);
      assert Concat(a + b) == a[0] + Concat(a[1..] + b);
    } else {
      assert a + b == b;
    }
  }

  /** Writing back the lines that were read gives the original text. */
  lemma {:induction false} ConcatReadLines(s: string)
    ensures Concat(ReadLines(s)) == s
    decreases |s|
  {
    if s != [] {
      var n := LineLen(s);
      ConcatReadLines(s[n..]);
      assert s == s[..n] + s[n..];
    }
  }

  /** Every line read is non-empty, holds a newline only at its end, and
      all lines but the last end with one. */
  lemma {:induction false} ReadLinesShape(s: string)
    ensures forall k :: 0 <= k < |ReadLines(s)| ==> IsLine(ReadLines(s)[k])
    ensures forall k :: 0 <= k < |ReadLines(s)| - 1 ==> EndsWithNewline(ReadLines(s)[k])
    decreases |s|
  {
    if s != [] {
      LineLenShape(s);
      ReadLinesShape(s[LineLen(s)..]);
    }
  }

  predicate IsLine(l: string)
  {
    l != [] && forall i :: 0 <= i < |l| - 1 ==> l[i] != '\n'
  }

  predicate EndsWithNewline(l: string)
  {
    l != [] && l[|l| - 1] == '\n'
  }

  /** Offset in `s` where its `j`-th line starts (the text length before it). */
  function LineStart(s: string, j: nat): (k: nat)
    ensures k <= |s|
    decreases |s|
  {
    if j == 0 || s == [] then 0 else LineLen(s) + LineStart(s[LineLen(s)..], j - 1)
  }

  /** Dropping the first `j` lines is reading the text from the `j`-th line's start. */
  lemma {:induction false} ReadLinesDrop(s: string, j: nat)
    requires j <= |ReadLines(s)|
    ensures ReadLines(s)[j..] == ReadLines(s[LineStart(s, j)..])
    decreases |s|
  {
    if j == 0 {
      assert s[0..] == s;
    } else {
      ReadLinesAfterFirst(s, j);
      ReadLinesDrop(s[LineLen(s)..], j - 1);
      ReadLinesDropStep(s, j);
    }
  }

  /** Dropping `j` lines is dropping the first line and then `j - 1`. */
  lemma ReadLinesDropStep(s: string, j: nat)
    requires s != [] && 0 < j <= |ReadLines(s)|
    requires var t := s[LineLen(s)..];
      j - 1 <= |ReadLines(t)| && ReadLines(t)[j - 1..] == ReadLines(t[LineStart(t, j - 1)..])
    ensures ReadLines(s)[j..] == ReadLines(s[LineStart(s, j)..])
  {
    var t := s[LineLen(s)..];
    ReadLinesAfterFirst(s, j);
    SuffixOfSuffix(s, LineLen(s), LineStart(t, j - 1));
    LineStartStep(s, j);
  }

  lemma LineStartStep(s: string, j: nat)
    requires s != [] && 0 < j
    ensures LineStart(s, j) == LineLen(s) + LineStart(s[LineLen(s)..], j - 1)
  {
  }

  lemma ReadLinesAfterFirst(s: string, j: nat)
    requires s != [] && 0 < j <= |ReadLines(s)|
    ensures ReadLines(s)[j..] == ReadLines(s[LineLen(s)..])[j - 1..]
    ensures j - 1 <= |ReadLines(s[LineLen(s)..])|
  {
    var ls := ReadLines(s[LineLen(s)..]);
    assert ReadLines(s) == [s[..LineLen(s)]] + ls;
    assert ([s[..LineLen(s)]] + ls)[j..] == ls[j - 1..];
  }

  lemma SuffixOfSuffix(s: string, n: nat, k: nat)
    requires n + k <= |s|
    ensures s[n..][k..] == s[n + k..]
  {
  }

  /** Writing back the lines from the `j`-th on gives the text from where
      that line starts. */
  lemma ConcatTail(s: string, j: nat)
    requires j <= |ReadLines(s)|
    ensures Concat(ReadLines(s)[j..]) == s[LineStart(s, j)..]
  {
    ReadLinesDrop(s, j);
    ConcatReadLines(s[LineStart(s, j)..]);
  }

  /** Re-reading a run of trailing lines gives the same lines back. */
  lemma ReadTail(s: string, j: nat)
    requires j <= |ReadLines(s)|
    ensures ReadLines(Concat(ReadLines(s)[j..])) == ReadLines(s)[j..]
  {
    ReadLinesDrop(s, j);
    ConcatReadLines(s[LineStart(s, j)..]);
  }

  /** The characters `str.splitlines` breaks at. */
  predicate IsLineBreak(c: char)
  {
    c == '\n' || c == '\r' || c == '\U{B}' || c == '\U{C}' || ('\U{1C}' <= c <= '\U{1E}')
    || c == '\U{85}' || c == '\U{2028}' || c == '\U{2029}'
  }

  predicate NoBreak(s: string)
  {
    forall i :: 0 <= i < |s| ==> !IsLineBreak(s[i])
  }

  /** Index of the first line break in `s`, or `|s|` when there is none. */
  function BreakAt(s: string): (n: nat)
    ensures n <= |s| && NoBreak(s[..n])
    ensures n < |s| ==> IsLineBreak(s[n])
  {
    if s == [] || IsLineBreak(s[0]) then 0
    else
      var n := 1 + BreakAt(s[1..]);
      assert forall i :: 1 <= i < n ==> s[..n][i] == s[1..][..n - 1][i - 1];
      n
  }

  /** `s.splitlines()`: the lines of `s` without their line breaks, a
      carriage return followed by a newline counting as one break, and no
      empty line after a final break. */
  function SplitLines(s: string): (r: seq<string>)
    ensures forall k :: 0 <= k < |r| ==> NoBreak(r[k])
    decreases |s|
  {
    if s == [] then []
    else
      var n := BreakAt(s);
      if n == |s| then [s]
      else
        var skip := if s[n] == '\r' && n + 1 < |s| && s[n + 1] == '\n' then 2 else 1;
        [s[..n]] + SplitLines(s[n + skip..])
  }

  /** A line ended by a newline is the first line `splitlines` gives. */
  lemma SplitLinesCons(l: string, rest: string)
    requires NoBreak(l)
    ensures SplitLines(l + "\n" + rest) == [l] + SplitLines(rest)
  {
    var s := l + "\n" + rest;
    BreakAtLine(l, rest);
    assert s[..|l|] == l;
    assert s[|l| + 1..] == rest;
  }

  lemma {:induction false} BreakAtLine(l: string, rest: string)
    requires NoBreak(l)
    ensures BreakAt(l + "\n" + rest) == |l|
    decreases |l|
  {
    if l != [] {
      assert (l + "\n" + rest)[1..] == l[1..] + "\n" + rest;
      BreakAtLine(l[1..], rest);
    }
  }

  // ---------------------------------------------------------------------
  // Case, digits and integers
  // ---------------------------------------------------------------------

  function LowerChar(c: char): char
  {
    if 'A' <= c <= 'Z' then (c as int + 32) as char else c
  }

  /** `s.lower()` on ASCII letters. */
  function Lower(s: string): (r: string)
    ensures |r| == |s|
  {
    seq(|s|, i requires 0 <= i < |s| => LowerChar(s[i]))
  }

  /** Comparing `s.lower()` with a lower-case letter accepts exactly that
      letter and its capital. */
  lemma LowerIsLetter(s: string, c: char)
    requires 'a' <= c <= 'z'
    ensures Lower(s) == [c] <==> s == [c] || s == [(c as int - 32) as char]
  {
    if Lower(s) == [c] {
      assert |s| == 1;
      assert Lower(s)[0] == LowerChar(s[0]) == c;
    }
    if s == [(c as int - 32) as char] {
      assert Lower(s)[0] == c;
    }
  }

  predicate IsDigit(c: char)
  {
    '0' <= c <= '9'
  }

  /** `s.isdigit()` for ASCII digits. */
  predicate IsDigits(s: string)
  {
    s != [] && forall i :: 0 <= i < |s| ==> IsDigit(s[i])
  }

  /** The number an all-digit string denotes. */
  function DigitsValue(s: string): nat
    requires forall i :: 0 <= i < |s| ==> IsDigit(s[i])
  {
    if s == [] then 0
    else
      assert IsDigit(s[|s| - 1]);
      DigitsValue(s[..|s| - 1]) * 10 + (s[|s| - 1] as int - '0' as int)
  }

  function DigitChar(d: nat): (c: char)
    requires d < 10
    ensures IsDigit(c) && c as int - '0' as int == d
  {
    (d + '0' as int) as char
  }

  /** `str(n)` for a natural number. */
  function Decimal(n: nat): (s: string)
    ensures IsDigits(s)
  {
    if n < 10 then [DigitChar(n)] else Decimal(n / 10) + [DigitChar(n % 10)]
  }

  /** Reading back the printed number gives the number. */
  lemma {:induction false} DecimalValue(n: nat)
    ensures DigitsValue(Decimal(n)) == n
  {
    if n >= 10 {
      DecimalValue(n / 10);
      var s := Decimal(n);
      assert s[..|s| - 1] == Decimal(n / 10);
    }
  }

  /** The body of a decimal literal: digits, single underscores between them. */
  predicate IsNumeral(s: string)
  {
    && s != [] && IsDigit(s[0]) && IsDigit(s[|s| - 1])
    && (forall i :: 0 <= i < |s| ==> IsDigit(s[i]) || s[i] == '_')
    && (forall i :: 0 <= i < |s| - 1 ==> !(s[i] == '_' && s[i + 1] == '_'))
  }

  /** The digits of `s`, underscores removed. */
  function DropUnderscores(s: string): (r: string)
    requires forall i :: 0 <= i < |s| ==> IsDigit(s[i]) || s[i] == '_'
    ensures forall i :: 0 <= i < |r| ==> IsDigit(r[i])
  {
    if s == [] then [] else (if s[0] == '_' then [] else [s[0]]) + DropUnderscores(s[1..])
  }

  lemma DropUnderscoresDigits(s: string)
    requires forall i :: 0 <= i < |s| ==> IsDigit(s[i])
    ensures DropUnderscores(s) == s
  {
  }

  /** `int(s)`: surrounding whitespace, an optional sign, a decimal numeral;
      `None` where Python raises `ValueError`. */
  function PyInt(s: string): (r: Option<int>)
  {
    Signed(Strip(s))
  }

  /** An optional sign followed by a numeral. */
  function Signed(t: string): (r: Option<int>)
  {
    if t != [] && (t[0] == '+' || t[0] == '-') then
      var body := t[1..];
      if IsNumeral(body) then
        var v: int := DigitsValue(DropUnderscores(body));
        Some(if t[0] == '-' then -v else v)
      else None
    else if IsNumeral(t) then Some(DigitsValue(DropUnderscores(t)))
    else None
  }

  /** Plain digits are a numeral that reads as its digit value. */
  lemma DigitsSigned(d: string)
    requires IsDigits(d)
    ensures Signed(d) == Some(DigitsValue(d))
    ensures Signed("-" + d) == Some(-(DigitsValue(d) as int))
  {
    DropUnderscoresDigits(d);
    assert IsNumeral(d);
    var m := "-" + d;
    assert m[1..] == d;
  }

  /** `int(str(n)) == n` and `int("-" + str(n)) == -n`. */
  lemma PyIntDecimal(n: nat)
    ensures PyInt(Decimal(n)) == Some(n)
    ensures PyInt("-" + Decimal(n)) == Some(-(n as int))
  {
    var d := Decimal(n);
    DecimalValue(n);
    DigitsSigned(d);
    assert IsDigit(d[|d| - 1]);
    StripTrimmed(d);
    var m := "-" + d;
    assert m[|m| - 1] == d[|d| - 1];
    StripTrimmed(m);
  }

  // ---------------------------------------------------------------------
  // Substrings, paths and slices
  // ---------------------------------------------------------------------

  /** `sub in s` on strings. */
  predicate Contains(s: string, sub: string)
    decreases |s|
  {
    |sub| <= |s| && (s[..|sub|] == sub || Contains(s[1..], sub))
  }

  /** A text contains every piece it is built around. */
  lemma {:induction false} ContainsMiddle(a: string, sub: string, b: string)
    ensures Contains(a + sub + b, sub)
    decreases |a|
  {
    var s := a + sub + b;
    if a == [] {
      assert s[..|sub|] == sub;
    } else {
      assert s[1..] == a[1..] + sub + b;
      ContainsMiddle(a[1..], sub, b);
    }
  }

  /** `Path(p).name`: the text after the last `/`. */
  function BaseName(p: string): string
  {
    if p == [] || p[|p| - 1] == '/' then [] else BaseName(p[..|p| - 1]) + [p[|p| - 1]]
  }

  /** The name is the longest tail of the path without a `/`. */
  lemma {:induction false} BaseNameShape(p: string)
    ensures var r := BaseName(p);
      && '/' !in r && |r| <= |p| && r == p[|p| - |r|..]
      && (|r| < |p| ==> p[|p| - |r| - 1] == '/')
    decreases |p|
  {
    if p != [] && p[|p| - 1] != '/' {
      var init := p[..|p| - 1];
      BaseNameShape(init);
      var r0 := BaseName(init);
      assert r0 == init[|init| - |r0|..];
      assert BaseName(p) == r0 + [p[|p| - 1]];
      assert p[|p| - |r0| - 1..] == init[|init| - |r0|..] + [p[|p| - 1]];
    }
  }

  /** `Path(a) / name`. */
  function Join(a: string, name: string): string
  {
    a + "/" + name
  }

  lemma {:induction false} BaseNameJoin(a: string, name: string)
    requires '/' !in name
    ensures BaseName(Join(a, name)) == name
    decreases |name|
  {
    var p := Join(a, name);
    if name != [] {
      var init := name[..|name| - 1];
      assert p[..|p| - 1] == Join(a, init);
      assert name[|name| - 1] in name;
      BaseNameJoin(a, init);
      assert name == init + [name[|name| - 1]];
    }
  }

  /** `fnmatch` for patterns whose only wildcard is `*`, as `Path.glob` applies
      them to entry names. */
  predicate Glob(pattern: string, name: string)
    decreases |pattern| + |name|
  {
    if pattern == [] then name == []
    else if pattern[0] == '*' then Glob(pattern[1..], name) || (name != [] && Glob(pattern, name[1..]))
    else name != [] && name[0] == pattern[0] && Glob(pattern[1..], name[1..])
  }

  lemma {:induction false} GlobStar(name: string)
    ensures Glob("*", name)
    decreases |name|
  {
    if name != [] {
      GlobStar(name[1..]);
    } else {
      assert "*"[1..] == [];
    }
  }

  /** A pattern `prefix*` matches exactly the names that start with `prefix`. */
  lemma {:induction false} GlobPrefix(prefix: string, name: string)
    requires '*' !in prefix
    ensures Glob(prefix + "*", name) <==> prefix <= name
    decreases |prefix|
  {
    if prefix == [] {
      assert prefix + "*" == "*";
      GlobStar(name);
    } else {
      assert (prefix + "*")[1..] == prefix[1..] + "*";
      assert prefix[0] in prefix;
      if name != [] {
        GlobPrefix(prefix[1..], name[1..]);
        assert prefix <= name <==> (name[0] == prefix[0] && prefix[1..] <= name[1..]);
      }
    }
  }

  /** Python's `s[start:]` for any integer `start`. */
  function SliceFrom<T>(s: seq<T>, start: int): (r: seq<T>)
    ensures |r| <= |s| && r == s[|s| - |r|..]
    ensures 0 < start ==> |r| == if start < |s| then |s| - start else 0
    ensures start <= 0 ==> |r| == if -start < |s| && start != 0 then -start else |s|
  {
    var k := if start < 0 then (if start + |s| < 0 then 0 else start + |s|)
             else (if start > |s| then |s| else start);
    s[k..]
  }
}
