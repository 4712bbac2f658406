/** The parts of Python's `str` that the analyzer relies on, with Python's
    semantics: `find`/`rfind`, `strip`, `split`, `join`, `replace`,
    `splitlines`, `count`, `lower`, `startswith` and `int()` of a string. */
module Strings {
  import opened Wrappers

  /** `c.isspace()` in Python. */
  predicate IsSpace(c: char) {
    c == ' ' || ('\t' <= c <= '\r') || ('\U{1c}' <= c <= '\U{1f}') || c == '\U{85}' || c == '\U{a0}'
    || c == '\U{1680}' || ('\U{2000}' <= c <= '\U{200a}') || c == '\U{2028}' || c == '\U{2029}'
    || c == '\U{202f}' || c == '\U{205f}' || c == '\U{3000}'
  }

  /** The characters at which `str.splitlines()` ends a line. */
  predicate IsLineBreak(c: char) {
    ('\n' <= c <= '\r') || ('\U{1c}' <= c <= '\U{1e}') || c == '\U{85}' || c == '\U{2028}' || c == '\U{2029}'
  }

  predicate StartsWith(s: string, p: string) {
    |p| <= |s| && s[..|p|] == p
  }

  predicate EndsWith(s: string, p: string) {
    |p| <= |s| && s[|s| - |p|..] == p
  }

  /** p occurs in s starting at index i. */
  predicate OccursAt(s: string, p: string, i: int) {
    0 <= i <= |s| && StartsWith(s[i..], p)
  }

  lemma OccursShift(s: string, p: string)
    requires s != []
    ensures forall i :: 1 <= i ==> (OccursAt(s, p, i) <==> OccursAt(s[1..], p, i - 1))
  {
    forall i | 1 <= i <= |s| ensures s[i..] == s[1..][i - 1..] {}
  }

  lemma OccursInSuffix(s: string, p: string, n: nat)
    requires n <= |s|
    ensures forall j :: n <= j ==> (OccursAt(s, p, j) <==> OccursAt(s[n..], p, j - n))
  {
    forall j | n <= j <= |s| ensures s[j..] == s[n..][j - n..] {}
  }

  lemma OccursInPrefix(s: string, p: string, n: nat)
    requires n <= |s|
    ensures forall i :: OccursAt(s[..n], p, i) <==> (OccursAt(s, p, i) && i + |p| <= n)
  {
    forall i | 0 <= i && i + |p| <= n ensures s[..n][i..][..|p|] == s[i..][..|p|] {}
  }

  /** `s.find(p)`: the first index at which p occurs in s, or -1. */
  function Find(s: string, p: string): (r: int)
    ensures -1 <= r <= |s|
    ensures r >= 0 ==> OccursAt(s, p, r)
    ensures forall i :: 0 <= i && (r < 0 || i < r) ==> !OccursAt(s, p, i)
    decreases |s|
  {
    if StartsWith(s, p) then 0
    else if |s| == 0 then -1
    else
      var k := Find(s[1..], p);
      OccursShift(s, p);
      if k < 0 then -1 else k + 1
  }

  /** A one-character pattern occurs exactly where that character stands. */
  lemma OccursChar(s: string, c: char)
    ensures forall i :: OccursAt(s, [c], i) <==> 0 <= i < |s| && s[i] == c
  {
    forall i | 0 <= i < |s|
      ensures OccursAt(s, [c], i) <==> s[i] == c
    {
      assert s[i..][..1] == [s[i]];
    }
  }

  /** `s.find(c)` for one character: the index of its first occurrence, or -1. */
  lemma FindChar(s: string, c: char)
    ensures Find(s, [c]) < 0 <==> c !in s
    ensures Find(s, [c]) >= 0 ==> Find(s, [c]) < |s| && s[Find(s, [c])] == c && c !in s[..Find(s, [c])]
  {
    OccursChar(s, c);
    var r := Find(s, [c]);
    if c in s {
      var k :| 0 <= k < |s| && s[k] == c;
      assert OccursAt(s, [c], k);
    }
    if r >= 0 {
      assert forall j :: 0 <= j < r ==> s[..r][j] == s[j];
    }
  }

  /** `s.rfind(c)` for one character: the index of its last occurrence, or -1. */
  lemma RFindChar(s: string, c: char)
    ensures RFind(s, [c]) < 0 <==> c !in s
    ensures RFind(s, [c]) >= 0 ==> RFind(s, [c]) < |s| && s[RFind(s, [c])] == c && c !in s[RFind(s, [c]) + 1..]
  {
    OccursChar(s, c);
    var r := RFind(s, [c]);
    if c in s {
      var k :| 0 <= k < |s| && s[k] == c;
      assert OccursAt(s, [c], k);
    }
    if r >= 0 {
      assert forall j :: r + 1 <= j < |s| ==> s[r + 1..][j - r - 1] == s[j];
    }
  }

  /** `s.rfind(c, 0, end)` for one character: its last occurrence before end, or -1. */
  lemma RFindBeforeChar(s: string, c: char, end: int)
    requires 0 <= end <= |s|
    ensures RFindBefore(s, [c], end) < 0 <==> c !in s[..end]
    ensures RFindBefore(s, [c], end) >= 0 ==>
              RFindBefore(s, [c], end) < end && s[RFindBefore(s, [c], end)] == c
              && c !in s[RFindBefore(s, [c], end) + 1..end]
  {
    var t := s[..end];
    RFindChar(t, c);
    var r := RFind(t, [c]);
    if r >= 0 {
      assert t[r + 1..] == s[r + 1..end];
    }
  }

  /** `p in s` */
  predicate Contains(s: string, p: string) {
    Find(s, p) >= 0
  }

  /** `s.find(p, start)` for a start inside the string. */
  function FindFrom(s: string, p: string, start: int): (r: int)
    requires 0 <= start <= |s|
    ensures r == -1 || start <= r <= |s|
    ensures r >= 0 ==> OccursAt(s, p, r)
    ensures forall i :: start <= i && (r < 0 || i < r) ==> !OccursAt(s, p, i)
  {
    var k := Find(s[start..], p);
    OccursInSuffix(s, p, start);
    if k < 0 then -1 else start + k
  }

  /** `s.rfind(p)`: the last index at which p occurs in s, or -1. */
  function RFind(s: string, p: string): (r: int)
    ensures -1 <= r <= |s|
    ensures r >= 0 ==> OccursAt(s, p, r)
    ensures forall i :: r < i ==> !OccursAt(s, p, i)
    decreases |s|
  {
    if EndsWith(s, p) then
      assert s[|s| - |p|..][..|p|] == p;
      |s| - |p|
    else if |s| == 0 then -1
    else
      OccursInPrefix(s, p, |s| - 1);
      assert forall i :: OccursAt(s, p, i) && i + |p| == |s| ==> s[i..] == s[|s| - |p|..];
      RFind(s[..|s| - 1], p)
  }

  /** `s.rfind(p, 0, end)`: the last occurrence lying wholly inside s[:end]. */
  function RFindBefore(s: string, p: string, end: int): (r: int)
    requires 0 <= end <= |s|
    ensures r >= 0 ==> OccursAt(s, p, r) && r + |p| <= end
    ensures forall i :: r < i && i + |p| <= end ==> !OccursAt(s, p, i)
  {
    OccursInPrefix(s, p, end);
    RFind(s[..end], p)
  }

  /** `s[:n]` for n >= 0 (a slice past the end is the whole string). */
  function Take(s: string, n: nat): (r: string)
    ensures r == s[..if n <= |s| then n else |s|]
  {
    if n <= |s| then s[..n] else s
  }

  /** `s[n:]` for n >= 0. */
  function Drop(s: string, n: nat): (r: string)
    ensures r == s[if n <= |s| then n else |s|..]
  {
    if n <= |s| then s[n..] else []
  }

  /** `s.lstrip()` */
  function LStrip(s: string): (r: string)
    ensures |r| <= |s| && r == s[|s| - |r|..]
    ensures forall i :: 0 <= i < |s| - |r| ==> IsSpace(s[i])
    ensures r != [] ==> !IsSpace(r[0])
  {
    if s != [] && IsSpace(s[0]) then
      var r := LStrip(s[1..]);
      assert s[1..][|s| - 1 - |r|..] == s[|s| - |r|..];
      assert forall i :: 1 <= i < |s| ==> s[1..][i - 1] == s[i];
      r
    else s
  }

  /** `s.rstrip()` */
  function RStrip(s: string): (r: string)
    ensures |r| <= |s| && r == s[..|r|]
    ensures forall i :: |r| <= i < |s| ==> IsSpace(s[i])
    ensures r != [] ==> !IsSpace(r[|r| - 1])
  {
    if s != [] && IsSpace(s[|s| - 1]) then
      var r := RStrip(s[..|s| - 1]);
      assert s[..|s| - 1][..|r|] == s[..|r|];
      assert forall i :: 0 <= i < |s| - 1 ==> s[..|s| - 1][i] == s[i];
      r
    else s
  }

  /** `s.strip()`: s without its leading and trailing whitespace, that is,
      the lstripped text cut before its trailing whitespace. */
  function Strip(s: string): (r: string)
    ensures |r| <= |LStrip(s)| && r == LStrip(s)[..|r|]
    ensures forall i :: |r| <= i < |LStrip(s)| ==> IsSpace(LStrip(s)[i])
    ensures r != [] ==> !IsSpace(r[0]) && !IsSpace(r[|r| - 1])
  {
    RStrip(LStrip(s))
  }

  /** A string with no whitespace at either end is its own strip. */
  lemma StripOfStripped(s: string)
    requires s != [] ==> !IsSpace(s[0]) && !IsSpace(s[|s| - 1])
    ensures Strip(s) == s
  {
  }

  /** Leading whitespace before a text with no whitespace at either end is stripped away. */
  lemma StripIndented(ws: string, body: string)
    requires forall j :: 0 <= j < |ws| ==> IsSpace(ws[j])
    requires body != [] && !IsSpace(body[0]) && !IsSpace(body[|body| - 1])
    ensures Strip(ws + body) == body
  {
    var s := ws + body;
    assert s[|ws|] == body[0];
    assert forall j :: 0 <= j < |ws| ==> s[j] == ws[j];
    assert LStrip(s) == body;
    StripOfStripped(body);
  }

  /** Python's `str.lower()` on the ASCII letters. */
  function LowerChar(c: char): (r: char)
    ensures 'A' <= c <= 'Z' ==> 'a' <= r <= 'z'
    ensures !('A' <= c <= 'Z') ==> r == c
  {
    if 'A' <= c <= 'Z' then (c as int + 32) as char else c
  }

  function Lower(s: string): (r: string)
    ensures |r| == |s|
    ensures forall i :: 0 <= i < |s| ==> r[i] == LowerChar(s[i])
  {
    seq(|s|, i requires 0 <= i < |s| => LowerChar(s[i]))
  }

  /** `s.count(c)` for a one-character pattern. */
  function CountChar(s: string, c: char): (n: nat)
    ensures n == multiset(s)[c]
  {
    if s == [] then 0
    else
      assert s == [s[0]] + s[1..];
      (if s[0] == c then 1 else 0) + CountChar(s[1..], c)
  }

  /** `sep.join(parts)` */
  function Join(parts: seq<string>, sep: string): string
  {
    if |parts| == 0 then ""
    else if |parts| == 1 then parts[0]
    else parts[0] + sep + Join(parts[1..], sep)
  }

  /** `s.split(sep)` for a non-empty separator: the pieces between the
      occurrences of sep, found from the left without overlap. */
  function Split(s: string, sep: string): (parts: seq<string>)
    requires sep != []
    ensures |parts| >= 1
    decreases |s|, 1
  {
    SplitAtIndex(s, sep, Find(s, sep))
  }

  /** The pieces of s once the first occurrence of sep is known to be at i
      (or known to be absent, i < 0). */
  function SplitAtIndex(s: string, sep: string, i: int): (parts: seq<string>)
    requires sep != [] && i <= |s| && (i >= 0 ==> OccursAt(s, sep, i))
    ensures |parts| >= 1
    decreases |s|, 0
  {
    if i < 0 then [s] else [s[..i]] + Split(s[i + |sep|..], sep)
  }

  /** The text before the first occurrence holds no occurrence. */
  lemma NoOccurrenceBefore(s: string, sep: string, i: int)
    requires sep != [] && i == Find(s, sep) && i >= 0
    ensures !Contains(s[..i], sep)
  {
    OccursInPrefix(s, sep, i);
  }

  /** No piece of a split contains the separator. */
  lemma {:induction false} SplitPiecesFree(s: string, sep: string)
    requires sep != []
    ensures forall k :: 0 <= k < |Split(s, sep)| ==> !Contains(Split(s, sep)[k], sep)
    decreases |s|
  {
    var i := Find(s, sep);
    if i >= 0 {
      var rest := s[i + |sep|..];
      SplitPiecesFree(rest, sep);
      SplitAt(s, sep, i);
      NoOccurrenceBefore(s, sep, i);
      var parts := Split(s, sep);
      assert forall k :: 1 <= k < |parts| ==> parts[k] == Split(rest, sep)[k - 1];
    }
  }

  /** Joining the pieces with the separator gives back the string. */
  lemma {:induction false} JoinSplit(s: string, sep: string)
    requires sep != []
    ensures Join(Split(s, sep), sep) == s
    decreases |s|
  {
    var i := Find(s, sep);
    if i >= 0 {
      var rest := s[i + |sep|..];
      JoinSplit(rest, sep);
      SplitAt(s, sep, i);
      JoinCons(s[..i], Split(rest, sep), sep);
      CutAround(s, sep, i);
    }
  }

  lemma JoinCons(a: string, pieces: seq<string>, sep: string)
    requires |pieces| >= 1
    ensures Join([a] + pieces, sep) == a + sep + Join(pieces, sep)
  {
    assert ([a] + pieces)[1..] == pieces;
  }

  /** An occurrence of p at i splits s into the text before, p, and the text after. */
  lemma CutAround(s: string, p: string, i: int)
    requires OccursAt(s, p, i)
    ensures s == s[..i] + p + s[i + |p|..]
  {
    assert s[i..] == p + s[i + |p|..] by {
      assert s[i..][..|p|] == p;
      assert s[i..][|p|..] == s[i + |p|..];
    }
    assert s == s[..i] + s[i..];
  }

  lemma {:induction false} SplitAt(s: string, sep: string, i: int)
    requires sep != [] && i == Find(s, sep) && i >= 0
    ensures Split(s, sep) == [s[..i]] + Split(s[i + |sep|..], sep)
  {
  }

  /** A string without the separator is one piece. */
  lemma SplitWithout(s: string, sep: string)
    requires sep != [] && !Contains(s, sep)
    ensures Split(s, sep) == [s]
  {
  }

  /** A split has a second piece iff the separator occurs. */
  lemma SplitTail(s: string, sep: string)
    requires sep != []
    ensures |Split(s, sep)| >= 2 <==> Contains(s, sep)
  {
    var i := Find(s, sep);
    if i >= 0 {
      SplitRest(s, sep, i);
    } else {
      SplitWithout(s, sep);
    }
  }

  /** The pieces after the first are the split of the text after the first
      occurrence. */
  lemma SplitRest(s: string, sep: string, i: int)
    requires sep != [] && i == Find(s, sep) && i >= 0
    ensures |Split(s, sep)| >= 2 && Split(s, sep)[1..] == Split(s[i + |sep|..], sep)
  {
    SplitAt(s, sep, i);
    var rest := Split(s[i + |sep|..], sep);
    assert ([s[..i]] + rest)[1..] == rest;
  }

  /** `s.split(sep)[1]`, or None where the split has one piece (Python
      raises IndexError). */
  function SecondPiece(s: string, sep: string): Option<string>
    requires sep != []
  {
    var parts := Split(s, sep);
    if |parts| < 2 then None else Some(parts[1])
  }

  /** SecondPiece is None exactly when the separator does not occur. */
  lemma SecondPieceNone(s: string, sep: string)
    requires sep != []
    ensures SecondPiece(s, sep).None? <==> !Contains(s, sep)
  {
    SplitTail(s, sep);
  }

  /** Otherwise it is the text after the first occurrence up to the next one. */
  /** The second piece is the first piece of the split of what follows the
      first separator. */
  lemma {:induction false} SecondPieceFirstOfRest(s: string, sep: string)
    requires sep != [] && Contains(s, sep)
    ensures var rest := s[Find(s, sep) + |sep|..];
            SecondPiece(s, sep) == Some(Split(rest, sep)[0])
  {
    var i := Find(s, sep);
    var parts := Split(s, sep);
    SplitRest(s, sep, i);
    assert parts[1] == parts[1..][0];
  }

  /** `s.split(sep)[0]`: the text before the first occurrence of sep. */
  function BeforeFirst(s: string, sep: string): (r: string)
    requires sep != []
    ensures StartsWith(s, r) && !Contains(r, sep)
    ensures |r| < |s| ==> OccursAt(s, sep, |r|)
    ensures !Contains(s, sep) ==> r == s
  {
    var i := Find(s, sep);
    if i < 0 then s
    else
      NoOccurrenceBefore(s, sep, i);
      s[..i]
  }

  /** BeforeFirst is the first piece of the split. */
  lemma BeforeFirstIsFirstPiece(s: string, sep: string)
    requires sep != []
    ensures BeforeFirst(s, sep) == Split(s, sep)[0]
  {
  }

  /** `s.split(c)[-1]` for a one-character separator: the characters after the
      last c, collected from the end; all of s when c does not occur. */
  function AfterLastChar(s: string, c: char): string
    decreases |s|
  {
    if s == [] || s[|s| - 1] == c then []
    else AfterLastChar(s[..|s| - 1], c) + [s[|s| - 1]]
  }

  /** The last piece is a suffix free of c, preceded by a c unless it is the
      whole string, which it is when c does not occur. */
  lemma AfterLastCharSpec(s: string, c: char)
    ensures var r := AfterLastChar(s, c);
            && EndsWith(s, r) && c !in r
            && (|r| < |s| ==> s[|s| - |r| - 1] == c)
            && (c !in s ==> r == s)
  {
    AfterLastCharSuffix(s, c);
    AfterLastCharBoundary(s, c);
    AfterLastCharWhole(s, c);
  }

  lemma {:induction false} AfterLastCharSuffix(s: string, c: char)
    ensures EndsWith(s, AfterLastChar(s, c)) && c !in AfterLastChar(s, c)
    decreases |s|
  {
    if s != [] && s[|s| - 1] != c {
      var t := s[..|s| - 1];
      AfterLastCharSuffix(t, c);
      var r' := AfterLastChar(t, c);
      var r := r' + [s[|s| - 1]];
      assert AfterLastChar(s, c) == r;
      assert s == t + [s[|s| - 1]];
      assert s[|s| - |r|..] == t[|t| - |r'|..] + [s[|s| - 1]];
    }
  }

  lemma {:induction false} AfterLastCharBoundary(s: string, c: char)
    ensures |AfterLastChar(s, c)| < |s| ==> s[|s| - |AfterLastChar(s, c)| - 1] == c
    decreases |s|
  {
    if s != [] && s[|s| - 1] != c {
      var t := s[..|s| - 1];
      AfterLastCharBoundary(t, c);
      var r' := AfterLastChar(t, c);
      assert |AfterLastChar(s, c)| == |r'| + 1;
      if |r'| < |t| {
        assert s[|s| - (|r'| + 1) - 1] == t[|t| - |r'| - 1];
      }
    }
  }

  lemma {:induction false} AfterLastCharWhole(s: string, c: char)
    ensures c !in s ==> AfterLastChar(s, c) == s
    decreases |s|
  {
    if s != [] && c !in s {
      var t := s[..|s| - 1];
      assert c !in t;
      AfterLastCharWhole(t, c);
      assert s == t + [s[|s| - 1]];
    }
  }

  /** `s.replace(target, repl)` for a non-empty target: Python's replace is the
      join of the split, every occurrence found from the left without overlap. */
  function ReplaceAll(s: string, target: string, repl: string): string
    requires target != []
  {
    Join(Split(s, target), repl)
  }

  /** Replacing a pattern that does not occur changes nothing. */
  lemma ReplaceAbsent(s: string, target: string, repl: string)
    requires target != [] && !Contains(s, target)
    ensures ReplaceAll(s, target, repl) == s
  {
    SplitWithout(s, target);
  }

  /** A leading occurrence is replaced and the rest is scanned on. */
  lemma ReplaceLeading(target: string, rest: string, repl: string)
    requires target != []
    ensures ReplaceAll(target + rest, target, repl) == repl + ReplaceAll(rest, target, repl)
  {
    var s := target + rest;
    assert OccursAt(s, target, 0);
    assert Find(s, target) == 0;
    assert s[|target|..] == rest;
    var tail := Split(rest, target);
    assert Split(s, target) == [""] + tail;
    assert Join([""] + tail, repl) == "" + repl + Join(tail, repl);
  }

  /** The index of the first line break in s, or |s|. */
  function FirstBreak(s: string): (i: nat)
    ensures i <= |s|
    ensures i < |s| ==> IsLineBreak(s[i])
    ensures forall j :: 0 <= j < i ==> !IsLineBreak(s[j])
  {
    if s == [] || IsLineBreak(s[0]) then 0 else 1 + FirstBreak(s[1..])
  }

  /** `s.splitlines()`: the lines of s, without their terminators; "\r\n"
      ends one line, and a terminator at the very end opens no new line. */
  function SplitLines(s: string): (lines: seq<string>)
    ensures forall i, j :: 0 <= i < |lines| && 0 <= j < |lines[i]| ==> !IsLineBreak(lines[i][j])
    ensures s == [] <==> lines == []
    decreases |s|
  {
    if s == [] then []
    else
      var i := FirstBreak(s);
      if i == |s| then [s]
      else
        var w := if s[i] == '\r' && i + 1 < |s| && s[i + 1] == '\n' then 2 else 1;
        [s[..i]] + SplitLines(s[i + w..])
  }

  /** A text without line breaks is a single line. */
  lemma SplitLinesSingle(s: string)
    requires s != [] && forall j :: 0 <= j < |s| ==> !IsLineBreak(s[j])
    ensures SplitLines(s) == [s]
  {
  }

  /** Each line break ends exactly one line: a terminated line is followed by the lines of the rest. */
  lemma SplitLinesCons(line: string, rest: string)
    requires forall j :: 0 <= j < |line| ==> !IsLineBreak(line[j])
    requires rest == [] || rest[0] != '\n'
    ensures SplitLines(line + "\n" + rest) == [line] + SplitLines(rest)
  {
    var s := line + "\n" + rest;
    assert FirstBreak(s) == |line| by {
      assert forall j :: 0 <= j < |line| ==> s[j] == line[j];
      FirstBreakAt(s, |line|);
    }
    assert s[..|line|] == line;
    assert s[|line| + 1..] == rest;
  }

  lemma FirstBreakAt(s: string, k: nat)
    requires k < |s| && IsLineBreak(s[k])
    requires forall j :: 0 <= j < k ==> !IsLineBreak(s[j])
    ensures FirstBreak(s) == k
  {
    if k > 0 {
      FirstBreakAt(s[1..], k - 1);
    }
  }

  /** The index of the first whitespace character of s, or |s|. */
  function FirstSpace(s: string): (i: nat)
    ensures i <= |s|
    ensures i < |s| ==> IsSpace(s[i])
    ensures forall j :: 0 <= j < i ==> !IsSpace(s[j])
  {
    if s == [] || IsSpace(s[0]) then 0 else 1 + FirstSpace(s[1..])
  }

  /** `s.split()[0]`, the first whitespace-separated word of s; None when
      `s.split()` is empty, that is, when s is blank. */
  function FirstWord(s: string): (r: Option<string>)
    ensures r.None? <==> LStrip(s) == []
    ensures r.Some? ==> r.value != [] && forall i :: 0 <= i < |r.value| ==> !IsSpace(r.value[i])
    ensures r.Some? ==> StartsWith(LStrip(s), r.value)
                        && (|r.value| == |LStrip(s)| || IsSpace(LStrip(s)[|r.value|]))
  {
    var t := LStrip(s);
    if t == [] then None
    else
      WordBeforeSpace(t);
      Some(t[..FirstSpace(t)])
  }

  /** The text before the first whitespace of a text that starts with a
      non-space character is a non-empty word. */
  lemma WordBeforeSpace(t: string)
    requires t != [] && !IsSpace(t[0])
    ensures var k := FirstSpace(t);
            k != 0 && NoSpace(t[..k]) && StartsWith(t, t[..k]) && (k == |t| || IsSpace(t[k]))
  {
    var k := FirstSpace(t);
    assert forall i :: 0 <= i < k ==> t[..k][i] == t[i];
  }

  lemma FirstSpaceAt(s: string, k: nat)
    requires k <= |s| && (k < |s| ==> IsSpace(s[k]))
    requires forall j :: 0 <= j < k ==> !IsSpace(s[j])
    ensures FirstSpace(s) == k
  {
    if k > 0 {
      FirstSpaceAt(s[1..], k - 1);
    }
  }

  predicate NoSpace(s: string) {
    forall j :: 0 <= j < |s| ==> !IsSpace(s[j])
  }

  /** A text that starts with a word followed by whitespace or the end has that
      word as the first item of its `split()`. */
  lemma FirstWordPrefix(t: string, w: string)
    requires w != [] && NoSpace(w)
    requires StartsWith(t, w) && (|t| == |w| || IsSpace(t[|w|]))
    ensures FirstWord(t) == Some(w)
  {
    assert t[0] == w[0];
    assert LStrip(t) == t;
    assert forall j :: 0 <= j < |w| ==> t[j] == w[j];
    FirstSpaceAt(t, |w|);
  }

  /** Stripping a text that begins with x, where x has no whitespace at either
      end, leaves a prefix of the text that still begins with x. */
  lemma StripKeepsPrefix(x: string, rest: string)
    requires x != [] && !IsSpace(x[0]) && !IsSpace(x[|x| - 1])
    ensures |Strip(x + rest)| >= |x|
    ensures Strip(x + rest) == (x + rest)[..|Strip(x + rest)|]
    ensures StartsWith(Strip(x + rest), x)
  {
    var s := x + rest;
    assert s[0] == x[0];
    assert LStrip(s) == s;
    assert s[|x| - 1] == x[|x| - 1];
    var r := Strip(s);
    assert r[..|x|] == s[..|x|];
    assert s[..|x|] == x;
  }

  /** When the separator's first character does not occur in a, the first
      occurrence of the separator in a + sep + b is the one right after a. */
  lemma FindAfter(a: string, sep: string, b: string)
    requires sep != [] && sep[0] !in a
    ensures Find(a + sep + b, sep) == |a|
    ensures BeforeFirst(a + sep + b, sep) == a
  {
    var s := a + sep + b;
    assert s[|a|..] == sep + b;
    assert (sep + b)[..|sep|] == sep;
    assert OccursAt(s, sep, |a|);
    forall i | 0 <= i < |a|
      ensures !OccursAt(s, sep, i)
    {
      assert s[i..][0] == a[i];
    }
    assert s[..|a|] == a;
  }

  /** A one-character separator occurs in s iff that character does. */
  lemma ContainsChar(s: string, c: char)
    ensures Contains(s, [c]) <==> c in s
  {
    FindChar(s, c);
  }

  /** Splitting at a one-character separator whose first occurrence follows a. */
  lemma SplitOnChar(a: string, c: char, b: string)
    requires c !in a
    ensures Split(a + [c] + b, [c]) == [a] + Split(b, [c])
  {
    var s := a + [c] + b;
    FindAfter(a, [c], b);
    SplitAt(s, [c], |a|);
    assert s[..|a|] == a && s[|a| + 1..] == b;
  }

  /** A string free of the separator character is one piece. */
  lemma SplitNoChar(s: string, c: char)
    requires c !in s
    ensures Split(s, [c]) == [s]
  {
    ContainsChar(s, c);
    SplitWithout(s, [c]);
  }

  /** A split at one character has one piece more than the character occurs. */
  lemma {:induction false} SplitCharCount(s: string, c: char)
    ensures |Split(s, [c])| == CountChar(s, c) + 1
    decreases |s|
  {
    FindChar(s, c);
    var i := Find(s, [c]);
    if i < 0 {
      SplitNoChar(s, c);
    } else {
      var a := s[..i];
      var b := s[i + 1..];
      assert s == a + [c] + b;
      SplitOnChar(a, c, b);
      SplitCharCount(b, c);
      assert multiset(s) == multiset(a) + multiset([c]) + multiset(b);
    }
  }

  predicate IsDigit(c: char) {
    '0' <= c <= '9'
  }

  /** The value of a non-empty run of decimal digits. */
  function DigitsValue(s: string): (v: int)
    requires forall i :: 0 <= i < |s| ==> IsDigit(s[i])
    ensures v >= 0
    decreases |s|
  {
    if s == [] then 0
    else
      assert IsDigit(s[|s| - 1]);
      10 * DigitsValue(s[..|s| - 1]) + (s[|s| - 1] as int - '0' as int)
  }

  /** The decimal text of a natural number, as `str(n)` writes it. */
  function NatToString(n: nat): (r: string)
    ensures r != [] && forall i :: 0 <= i < |r| ==> IsDigit(r[i])
  {
    if n < 10 then [('0' as int + n) as char]
    else NatToString(n / 10) + [('0' as int + n % 10) as char]
  }

  predicate AllDigits(t: string) {
    forall i :: 0 <= i < |t| ==> IsDigit(t[i])
  }

  /** t without one leading sign character. */
  function Unsigned(t: string): (u: string)
    ensures |u| <= |t| && u == t[|t| - |u|..]
  {
    if t != [] && (t[0] == '-' || t[0] == '+') then t[1..] else t
  }

  /** `int(s)` for a string: optional surrounding whitespace, an optional
      sign, and at least one decimal digit; anything else raises ValueError. */
  function ParseInt(s: string): (r: Option<int>)
    ensures r.Some? <==> Unsigned(Strip(s)) != [] && AllDigits(Unsigned(Strip(s)))
    ensures r.Some? ==> (r.value < 0 ==> Strip(s)[0] == '-')
                        && (r.value >= 0 ==> r.value == DigitsValue(Unsigned(Strip(s))))
                        && (r.value < 0 ==> r.value == -DigitsValue(Unsigned(Strip(s))))
  {
    var t := Strip(s);
    var body := Unsigned(t);
    if body != [] && AllDigits(body) then
      Some(if t[0] == '-' then -DigitsValue(body) else DigitsValue(body))
    else None
  }

  lemma {:induction false} DigitsValueOfNat(n: nat)
    ensures DigitsValue(NatToString(n)) == n
  {
    var r := NatToString(n);
    if n >= 10 {
      DigitsValueOfNat(n / 10);
      assert r[..|r| - 1] == NatToString(n / 10);
    }
  }

  /** Decimal text written by `str(n)` is read back by `int()`. */
  lemma ParseIntOfNat(n: nat)
    ensures ParseInt(NatToString(n)) == Some(n)
  {
    var s := NatToString(n);
    assert Strip(s) == s by {
      DigitNotSpace(s[0]);
      DigitNotSpace(s[|s| - 1]);
      StripOfStripped(s);
    }
    assert Unsigned(s) == s by {
      DigitNotSpace(s[0]);
    }
    DigitsValueOfNat(n);
  }

  lemma DigitNotSpace(c: char)
    requires IsDigit(c)
    ensures !IsSpace(c) && c != '-' && c != '+'
  {
  }
}
