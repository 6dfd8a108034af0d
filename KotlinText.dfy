/** The Kotlin standard-library string functions the core calls, on the JVM:
    `Char.isWhitespace`, `isBlank`, `trim`, `replace(old, "")`, `lines`,
    `joinToString("\n")` and `trimIndent`. Strings are sequences of
    characters; every character these functions test is in the Basic
    Multilingual Plane, so UTF-16 code units and characters agree here. */
module KotlinText {
  import opened Wrappers

  /** `Char.isWhitespace()` on the JVM: `Character.isWhitespace(c) ||
      Character.isSpaceChar(c)`. */
  predicate IsWhitespace(c: char) {
    var n := c as int;
    (0x09 <= n <= 0x0D) || (0x1C <= n <= 0x20) || n == 0xA0 || n == 0x1680
    || (0x2000 <= n <= 0x200A) || n == 0x2028 || n == 0x2029 || n == 0x202F
    || n == 0x205F || n == 0x3000
  }

  /** `CharSequence.isBlank()`: empty, or whitespace only. */
  predicate IsBlank(s: string) {
    forall i :: 0 <= i < |s| ==> IsWhitespace(s[i])
  }

  /** `pat` occurs in s starting at index i. */
  predicate OccursAt(s: string, pat: string, i: int) {
    0 <= i <= |s| - |pat| && s[i..i + |pat|] == pat
  }

  /** `pat` occurs somewhere in s. */
  predicate Contains(s: string, pat: string) {
    exists i :: 0 <= i <= |s| - |pat| && OccursAt(s, pat, i)
  }

  /** A text that occurs inside an infix of s occurs in s. */
  lemma ContainsOfInfix(s: string, r: string, i: int, pat: string)
    requires 0 <= i <= |s| - |r| && s[i..i + |r|] == r
    requires Contains(r, pat)
    ensures Contains(s, pat)
  {
    var j :| 0 <= j <= |r| - |pat| && OccursAt(r, pat, j);
    forall k | 0 <= k < |pat| ensures s[i + j + k] == pat[k] {
      assert s[i + j + k] == s[i..i + |r|][j + k];
      assert r[j..j + |pat|][k] == pat[k];
    }
    assert s[i + j..i + j + |pat|] == pat;
    assert OccursAt(s, pat, i + j);
  }

  // ---------------------------------------------------------------- trim

  /** Drops the leading whitespace. */
  function TrimStart(s: string): (r: string)
    ensures |r| <= |s| && r == s[|s| - |r|..]
    ensures IsBlank(s[..|s| - |r|])
    ensures r == [] || !IsWhitespace(r[0])
    decreases |s|
  {
    if |s| > 0 && IsWhitespace(s[0]) then TrimStart(s[1..]) else s
  }

  /** Drops the trailing whitespace. */
  function TrimEnd(s: string): (r: string)
    ensures |r| <= |s| && r == s[..|r|]
    ensures IsBlank(s[|r|..])
    ensures r == [] || !IsWhitespace(r[|r| - 1])
    decreases |s|
  {
    if |s| > 0 && IsWhitespace(s[|s| - 1]) then TrimEnd(s[..|s| - 1]) else s
  }

  /** r stands in s at index i with only whitespace before and after it. */
  predicate TrimmedAt(s: string, r: string, i: int) {
    0 <= i <= |s| - |r| && s[i..i + |r|] == r && IsBlank(s[..i]) && IsBlank(s[i + |r|..])
  }

  /** `String.trim()`: the infix left after dropping whitespace at both ends. */
  function Trim(s: string): (r: string)
    ensures r == [] <==> IsBlank(s)
    ensures r != [] ==> !IsWhitespace(r[0]) && !IsWhitespace(r[|r| - 1])
    ensures exists i :: TrimmedAt(s, r, i)
  {
    var t := TrimStart(s);
    var r := TrimEnd(t);
    TrimmedInfix(s, t, r);
    TrimStartOfBlank(s);
    r
  }

  /** Trimming cuts out an infix, so it cannot bring in a text that was
      absent. */
  lemma TrimKeepsAbsent(u: string, pat: string)
    requires !Contains(u, pat)
    ensures !Contains(Trim(u), pat)
  {
    var r := Trim(u);
    var i :| TrimmedAt(u, r, i);
    if Contains(r, pat) {
      ContainsOfInfix(u, r, i, pat);
    }
  }

  lemma TrimmedInfix(s: string, t: string, r: string)
    requires t == TrimStart(s) && r == TrimEnd(t)
    ensures TrimmedAt(s, r, |s| - |t|)
    ensures r == [] ==> IsBlank(s)
  {
    TrimmedInfixText(s, t, r);
    TrimmedSuffixBlank(s, t, r);
    if r == [] {
      TrimmedEmpty(s, t, r);
    }
  }

  lemma TrimmedInfixText(s: string, t: string, r: string)
    requires t == TrimStart(s) && r == TrimEnd(t)
    ensures s[|s| - |t|..|s| - |t| + |r|] == r
  {
    SliceOfSlice(s, t, r);
  }

  lemma SliceOfSlice(s: string, t: string, r: string)
    requires |t| <= |s| && t == s[|s| - |t|..] && |r| <= |t| && r == t[..|r|]
    ensures s[|s| - |t|..|s| - |t| + |r|] == r
  {
    var i := |s| - |t|;
    forall k | 0 <= k < |r| ensures s[i + k] == r[k] {
      assert r[k] == t[k];
    }
  }

  lemma TrimmedSuffixBlank(s: string, t: string, r: string)
    requires t == TrimStart(s) && r == TrimEnd(t)
    ensures IsBlank(s[|s| - |t| + |r|..])
  {
    var i := |s| - |t|;
    assert IsBlank(t[|r|..]);
    var u := s[i + |r|..];
    forall k | 0 <= k < |u| ensures IsWhitespace(u[k]) {
      assert u[k] == t[|r|..][k];
    }
  }

  lemma TrimmedEmpty(s: string, t: string, r: string)
    requires t == TrimStart(s) && r == TrimEnd(t)
    requires r == []
    ensures IsBlank(s)
  {
    var i := |s| - |t|;
    assert IsBlank(t[|r|..]);
    assert t[|r|..] == t;
    assert IsBlank(s[..i]);
    forall k | 0 <= k < |s| ensures IsWhitespace(s[k]) {
      if k < i { assert s[k] == s[..i][k]; }
      else { assert s[k] == t[k - i]; }
    }
  }

  lemma {:induction false} TrimStartOfBlank(s: string)
    ensures IsBlank(s) ==> TrimStart(s) == []
    decreases |s|
  {
    if s != [] && IsWhitespace(s[0]) {
      TrimStartOfBlank(s[1..]);
    }
  }

  /** Appending one whitespace character to a text: `TrimStart` keeps it
      unless the text was blank. */
  lemma {:induction false} TrimStartAppend(x: string, c: char)
    requires IsWhitespace(c)
    ensures TrimStart(x + [c]) == if IsBlank(x) then [] else TrimStart(x) + [c]
    decreases |x|
  {
    if x == [] {
    } else if IsWhitespace(x[0]) {
      assert (x + [c])[1..] == x[1..] + [c];
      TrimStartAppend(x[1..], c);
    } else {
    }
  }

  /** Whitespace around a text does not change what `trim()` returns. */
  lemma TrimSurrounded(body: string, c1: char, c2: char)
    requires IsWhitespace(c1) && IsWhitespace(c2)
    ensures Trim([c1] + body + [c2]) == Trim(body)
  {
    assert ([c1] + body + [c2])[1..] == body + [c2];
    TrimStartAppend(body, c2);
    if IsBlank(body) {
      TrimStartOfBlank(body);
    } else {
      var t := TrimStart(body) + [c2];
      assert t[..|t| - 1] == TrimStart(body);
    }
  }

  // ------------------------------------------------------ replace(pat, "")

  /** `s.replace(pat, "")`: every occurrence of pat found by a left-to-right
      scan that resumes after each match is removed. */
  function RemoveAll(s: string, pat: string): (r: string)
    requires |pat| > 0
    ensures |r| <= |s|
    decreases |s|
  {
    if |s| == 0 then []
    else if pat <= s then RemoveAll(s[|pat|..], pat)
    else [s[0]] + RemoveAll(s[1..], pat)
  }

  /** A text with no character that could start pat passes through unchanged
      and the removal continues after it. */
  lemma {:induction false} RemoveAllSkipsPrefix(a: string, b: string, pat: string)
    requires |pat| > 0
    requires forall i :: 0 <= i < |a| ==> a[i] != pat[0]
    ensures RemoveAll(a + b, pat) == a + RemoveAll(b, pat)
    decreases |a|
  {
    if a == [] {
      assert a + b == b;
    } else {
      assert (a + b)[0] == a[0];
      assert !(pat <= a + b);
      assert RemoveAll(a + b, pat) == [(a + b)[0]] + RemoveAll((a + b)[1..], pat);
      assert (a + b)[1..] == a[1..] + b;
      RemoveAllSkipsPrefix(a[1..], b, pat);
      assert [a[0]] + (a[1..] + RemoveAll(b, pat)) == a + RemoveAll(b, pat);
    }
  }

  lemma RemoveAllOfLeadingMatch(pat: string, b: string)
    requires |pat| > 0
    ensures RemoveAll(pat + b, pat) == RemoveAll(b, pat)
  {
    assert (pat + b)[|pat|..] == b;
  }

  /** A first character that does not start pat is kept. */
  lemma RemoveAllKeepsHead(c: char, t: string, pat: string)
    requires |pat| > 0 && !(pat <= [c] + t)
    ensures RemoveAll([c] + t, pat) == [c] + RemoveAll(t, pat)
  {
    assert ([c] + t)[1..] == t;
  }

  /** After removing cc c, a leading c of the result was a leading c of the input. */
  lemma RemoveTripleHead(u: string, c: char)
    requires |RemoveAll(u, [c, c, c])| > 0 && RemoveAll(u, [c, c, c])[0] == c
    ensures |u| > 0 && u[0] == c
  {
  }

  lemma RemoveTripleHeadPair(t: string, c: char)
    requires |RemoveAll(t, [c, c, c])| >= 2
    requires RemoveAll(t, [c, c, c])[0] == c && RemoveAll(t, [c, c, c])[1] == c
    ensures |t| >= 2 && t[0] == c && t[1] == c
  {
    var p := [c, c, c];
    if !(p <= t) {
      assert RemoveAll(t, p) == [t[0]] + RemoveAll(t[1..], p);
      RemoveTripleHead(t[1..], c);
    }
  }

  /** Removing every "ccc" leaves no "ccc": within a run of c's the scan
      removes triples until fewer than three remain, and runs never merge
      because nothing but c's is removed. */
  lemma {:induction false} RemoveTripleLeavesNone(s: string, c: char)
    ensures !Contains(RemoveAll(s, [c, c, c]), [c, c, c])
    decreases |s|
  {
    var p := [c, c, c];
    if s == [] {
    } else if p <= s {
      RemoveTripleLeavesNone(s[3..], c);
    } else {
      var tail := RemoveAll(s[1..], p);
      var r := RemoveAll(s, p);
      assert r == [s[0]] + tail;
      RemoveTripleLeavesNone(s[1..], c);
      forall i ensures !OccursAt(r, p, i) {
        if i == 0 && |r| >= 3 {
          if tail[0] == c && tail[1] == c {
            RemoveTripleHeadPair(s[1..], c);
            assert s[..3] == [s[0], s[1], s[2]];
          }
          assert r[0..3] == [s[0], tail[0], tail[1]];
        } else if 1 <= i <= |r| - 3 {
          assert r[i..i + 3] == tail[i - 1..i + 2];
          assert !OccursAt(tail, p, i - 1);
        }
      }
    }
  }

  // ---------------------------------------------------------------- lines

  /** s holds no line separator. */
  predicate NoBreak(s: string) {
    '\n' !in s && '\r' !in s
  }

  lemma NoBreakConcat(a: string, b: string)
    requires NoBreak(a) && NoBreak(b)
    ensures NoBreak(a + b)
  {
  }

  /** `CharSequence.lines()`: split at "\r\n", "\n" and "\r"; a text with k
      separators gives k + 1 lines. */
  function Lines(s: string): (r: seq<string>)
    ensures |r| >= 1
    ensures forall k :: 0 <= k < |r| ==> NoBreak(r[k])
    decreases |s|
  {
    if s == [] then [[]]
    else if s[0] == '\n' then [[]] + Lines(s[1..])
    else if s[0] == '\r' then
      if |s| > 1 && s[1] == '\n' then [[]] + Lines(s[2..]) else [[]] + Lines(s[1..])
    else
      var rest := Lines(s[1..]);
      [[s[0]] + rest[0]] + rest[1..]
  }

  /** `joinToString("\n")`. */
  function JoinLines(ls: seq<string>): string
    decreases |ls|
  {
    if |ls| == 0 then []
    else if |ls| == 1 then ls[0]
    else ls[0] + "\n" + JoinLines(ls[1..])
  }

  lemma {:induction false} LinesOfPrefix(x: string, t: string)
    requires NoBreak(x)
    ensures Lines(x + t) == [x + Lines(t)[0]] + Lines(t)[1..]
    decreases |x|
  {
    if x != [] {
      assert x[0] in x;
      assert NoBreak(x[1..]) by {
        forall c | c in x[1..] ensures c in x {
          var j :| 0 <= j < |x[1..]| && x[1..][j] == c;
          assert x[j + 1] == c;
        }
      }
      assert (x + t)[0] == x[0];
      assert (x + t)[1..] == x[1..] + t;
      LinesOfPrefix(x[1..], t);
      assert [x[0]] + (x[1..] + Lines(t)[0]) == x + Lines(t)[0];
    } else {
      assert x + t == t;
      assert x + Lines(t)[0] == Lines(t)[0];
      assert [Lines(t)[0]] + Lines(t)[1..] == Lines(t);
    }
  }

  /** `lines()` undoes `joinToString("\n")` on lines without breaks. */
  lemma {:induction false} LinesOfJoinLines(ls: seq<string>)
    requires |ls| >= 1
    requires forall k :: 0 <= k < |ls| ==> NoBreak(ls[k])
    ensures Lines(JoinLines(ls)) == ls
    decreases |ls|
  {
    if |ls| == 1 {
      LinesOfPrefix(ls[0], []);
      assert ls[0] + [] == ls[0];
      assert Lines([]) == [[]];
      assert JoinLines(ls) == ls[0];
    } else {
      var rest := JoinLines(ls[1..]);
      assert JoinLines(ls) == ls[0] + "\n" + rest;
      assert ls[0] + "\n" + rest == ls[0] + ("\n" + rest);
      LinesOfPrefix(ls[0], "\n" + rest);
      assert ("\n" + rest)[0] == '\n';
      assert ("\n" + rest)[1..] == rest;
      LinesOfJoinLines(ls[1..]);
      assert Lines("\n" + rest) == [[]] + ls[1..];
      assert ls[0] + [] == ls[0];
      assert ([[]] + ls[1..])[1..] == ls[1..];
      assert ls == [ls[0]] + ls[1..];
    }
  }

  /** `joinToString("\n")` undoes `lines()` on a text without '\r'. */
  lemma {:induction false} JoinLinesOfLines(s: string)
    requires forall i :: 0 <= i < |s| ==> s[i] != '\r'
    ensures JoinLines(Lines(s)) == s
    decreases |s|
  {
    if s == [] {
    } else if s[0] == '\n' {
      JoinLinesOfLines(s[1..]);
      assert s == "\n" + s[1..];
    } else {
      var rest := Lines(s[1..]);
      JoinLinesOfLines(s[1..]);
      if |rest| == 1 {
      } else {
        assert JoinLines(rest) == rest[0] + "\n" + JoinLines(rest[1..]);
        var ls := [[s[0]] + rest[0]] + rest[1..];
        assert ls[1..] == rest[1..];
      }
    }
  }

  lemma {:induction false} JoinLinesAppend(a: seq<string>, b: seq<string>)
    requires |a| >= 1 && |b| >= 1
    ensures JoinLines(a + b) == JoinLines(a) + "\n" + JoinLines(b)
    decreases |a|
  {
    if |a| == 1 {
      assert (a + b)[1..] == b;
    } else {
      assert (a + b)[1..] == a[1..] + b;
      JoinLinesAppend(a[1..], b);
    }
  }

  // ----------------------------------------------------------- trimIndent

  function Spaces(n: nat): (s: string)
    ensures |s| == n && IsBlank(s) && NoBreak(s)
  {
    seq(n, _ => ' ')
  }

  /** Number of leading whitespace characters (the whole length when blank). */
  function IndentWidth(line: string): (w: nat)
    ensures w <= |line|
    ensures IsBlank(line[..w])
    ensures w < |line| ==> !IsWhitespace(line[w])
    decreases |line|
  {
    if line == [] then 0
    else if IsWhitespace(line[0]) then 1 + IndentWidth(line[1..])
    else 0
  }

  /** The smallest indent width among the non-blank lines, None when all
      lines are blank. */
  function MinIndent(ls: seq<string>): (m: Option<nat>)
    ensures m.None? <==> forall k :: 0 <= k < |ls| ==> IsBlank(ls[k])
    ensures m.Some? ==> forall k :: 0 <= k < |ls| && !IsBlank(ls[k]) ==> m.value <= IndentWidth(ls[k])
    ensures m.Some? ==> exists k :: 0 <= k < |ls| && !IsBlank(ls[k]) && IndentWidth(ls[k]) == m.value
    decreases |ls|
  {
    if ls == [] then None
    else
      var rest := MinIndent(ls[1..]);
      assert forall k :: 1 <= k < |ls| ==> ls[k] == ls[1..][k - 1];
      if IsBlank(ls[0]) then rest
      else if rest.None? || IndentWidth(ls[0]) <= rest.value then Some(IndentWidth(ls[0]))
      else rest
  }

  /** `String.drop(n)`. */
  function Drop(line: string, n: nat): (r: string)
    ensures |r| == if n <= |line| then |line| - n else 0
  {
    if n <= |line| then line[n..] else []
  }

  /** The per-line step of `trimIndent`: a blank first or last line is
      dropped, every other line loses its first n characters. */
  function Reindent(ls: seq<string>, n: nat, i: nat): seq<string>
    requires i <= |ls|
    decreases |ls| - i
  {
    if i == |ls| then []
    else
      var keep := !((i == 0 || i == |ls| - 1) && IsBlank(ls[i]));
      (if keep then [Drop(ls[i], n)] else []) + Reindent(ls, n, i + 1)
  }

  /** `String.trimIndent()`, applied at run time to the text a raw string
      template produced. */
  function TrimIndent(s: string): string
  {
    var ls := Lines(s);
    var n := match MinIndent(ls) case Some(m) => m case None => 0;
    JoinLines(Reindent(ls, n, 0))
  }

  /** Each non-empty line indented by n spaces, as in a raw string literal. */
  function IndentLines(ls: seq<string>, n: nat): (r: seq<string>)
    ensures |r| == |ls|
  {
    seq(|ls|, k requires 0 <= k < |ls| => if ls[k] == [] then [] else Spaces(n) + ls[k])
  }

  /** The text of a Kotlin raw string literal whose opening quotes end a line,
      whose lines ls are written with `indent` leading spaces, and whose
      closing quotes stand after `closing` spaces on a line of their own. */
  function RawBlock(ls: seq<string>, indent: nat, closing: nat): string
  {
    "\n" + JoinLines(IndentLines(ls, indent)) + "\n" + Spaces(closing)
  }

  lemma {:induction false} IndentWidthOfIndented(n: nat, l: string)
    ensures IndentWidth(Spaces(n) + l) == n + IndentWidth(l)
    decreases n
  {
    if n > 0 {
      assert (Spaces(n) + l)[1..] == Spaces(n - 1) + l;
      IndentWidthOfIndented(n - 1, l);
    } else {
      assert Spaces(0) + l == l;
    }
  }

  lemma {:induction false} ReindentOfRawBlock(ls: seq<string>, indent: nat, closing: nat, i: nat)
    requires forall k :: 0 <= k < |ls| ==> NoBreak(ls[k])
    requires 1 <= i <= |ls| + 1
    ensures Reindent([[]] + IndentLines(ls, indent) + [Spaces(closing)], indent, i) == ls[i - 1..]
    decreases |ls| + 1 - i
  {
    var L := [[]] + IndentLines(ls, indent) + [Spaces(closing)];
    if i == |ls| + 1 {
      assert Reindent(L, indent, i + 1) == [];
    } else {
      ReindentOfRawBlock(ls, indent, closing, i + 1);
      assert L[i] == IndentLines(ls, indent)[i - 1];
      if ls[i - 1] == [] {
        assert Drop(L[i], indent) == ls[i - 1];
      } else {
        assert L[i] == Spaces(indent) + ls[i - 1];
        assert Drop(L[i], indent) == ls[i - 1];
      }
      assert ls[i - 1..] == [ls[i - 1]] + ls[i..];
    }
  }

  /** The lines of a raw block: the empty opening line, the indented lines,
      and the closing line. */
  function RawBlockLines(ls: seq<string>, indent: nat, closing: nat): seq<string>
  {
    [[]] + IndentLines(ls, indent) + [Spaces(closing)]
  }

  lemma IndentedNoBreak(ls: seq<string>, indent: nat)
    requires forall k :: 0 <= k < |ls| ==> NoBreak(ls[k])
    ensures forall k :: 0 <= k < |ls| ==> NoBreak(IndentLines(ls, indent)[k])
  {
    forall k | 0 <= k < |ls| ensures NoBreak(IndentLines(ls, indent)[k]) {
      if ls[k] != [] {
        var x := Spaces(indent) + ls[k];
        assert forall j :: 0 <= j < |x| ==> x[j] == if j < indent then ' ' else ls[k][j - indent];
      }
    }
  }

  lemma LinesOfRawBlock(ls: seq<string>, indent: nat, closing: nat)
    requires |ls| >= 1
    requires forall k :: 0 <= k < |ls| ==> NoBreak(ls[k])
    ensures Lines(RawBlock(ls, indent, closing)) == RawBlockLines(ls, indent, closing)
  {
    var M := IndentLines(ls, indent);
    var L := RawBlockLines(ls, indent, closing);
    IndentedNoBreak(ls, indent);
    JoinLinesAppend([[]] + M, [Spaces(closing)]);
    JoinLinesAppend([[]], M);
    assert JoinLines([[]]) == [];
    assert RawBlock(ls, indent, closing) == JoinLines(L);
    forall k | 0 <= k < |L| ensures NoBreak(L[k]) {
      if 1 <= k <= |ls| {
        assert L[k] == M[k - 1];
      }
    }
    LinesOfJoinLines(L);
  }

  lemma MinIndentOfRawBlock(ls: seq<string>, indent: nat, closing: nat)
    requires |ls| >= 1
    requires |ls[0]| > 0 && !IsWhitespace(ls[0][0])
    ensures MinIndent(RawBlockLines(ls, indent, closing)) == Some(indent)
  {
    var L := RawBlockLines(ls, indent, closing);
    IndentWidthOfIndented(indent, ls[0]);
    assert L[1] == Spaces(indent) + ls[0];
    assert !IsBlank(L[1]) by { assert L[1][indent] == ls[0][0]; }
    forall k | 0 <= k < |L| && !IsBlank(L[k]) ensures indent <= IndentWidth(L[k]) {
      if 1 <= k <= |ls| && ls[k - 1] != [] {
        assert L[k] == Spaces(indent) + ls[k - 1];
        IndentWidthOfIndented(indent, ls[k - 1]);
      }
    }
  }

  /** `trimIndent` on a raw string literal whose first line starts with a
      non-whitespace character yields exactly the lines as written, joined by
      "\n": the opening and closing lines vanish and the indent is removed. */
  lemma TrimIndentOfRawBlock(ls: seq<string>, indent: nat, closing: nat)
    requires |ls| >= 1
    requires forall k :: 0 <= k < |ls| ==> NoBreak(ls[k])
    requires |ls[0]| > 0 && !IsWhitespace(ls[0][0])
    ensures TrimIndent(RawBlock(ls, indent, closing)) == JoinLines(ls)
  {
    var L := RawBlockLines(ls, indent, closing);
    LinesOfRawBlock(ls, indent, closing);
    MinIndentOfRawBlock(ls, indent, closing);
    ReindentOfRawBlock(ls, indent, closing, 1);
    assert Reindent(L, indent, 0) == Reindent(L, indent, 1);
  }

  /** `trimIndent` of a text whose first line is blank and whose third line
      starts at column 0: the common indent is zero, so the second line is
      kept whole and comes first. */
  lemma TrimIndentAtColumnZero(s: string)
    requires |Lines(s)| >= 4 && IsBlank(Lines(s)[0])
    requires |Lines(s)[2]| > 0 && !IsWhitespace(Lines(s)[2][0])
    ensures Lines(s)[1] <= TrimIndent(s)
  {
    var full := Lines(s);
    assert IndentWidth(full[2]) == 0 && !IsBlank(full[2]);
    assert MinIndent(full) == Some(0);
    var tail := Reindent(full, 0, 2);
    assert Reindent(full, 0, 0) == [full[1]] + tail;
    assert tail == [full[2]] + Reindent(full, 0, 3);
    assert JoinLines([full[1]] + tail) == full[1] + "\n" + JoinLines(tail);
  }

  /** The lines of a raw block whose first line holds an inserted break. */
  function BrokenBlockLines(x: string, b: string, rest: seq<string>, indent: nat, closing: nat): seq<string>
  {
    [[], Spaces(indent) + x, b] + IndentLines(rest, indent) + [Spaces(closing)]
  }

  lemma IndentLinesCons(l: string, rest: seq<string>, indent: nat)
    requires l != []
    ensures IndentLines([l] + rest, indent) == [Spaces(indent) + l] + IndentLines(rest, indent)
  {
  }

  lemma JoinAfterEmpty(L: seq<string>)
    requires |L| >= 1
    ensures JoinLines([[]] + L) == "\n" + JoinLines(L)
  {
    JoinLinesAppend([[]], L);
    assert JoinLines([[]]) == [];
  }

  lemma JoinBeforeLast(F: seq<string>, c: string)
    requires |F| >= 1
    ensures JoinLines(F + [c]) == JoinLines(F) + "\n" + c
  {
    JoinLinesAppend(F, [c]);
    assert JoinLines([c]) == c;
  }

  /** The opening and closing lines of a raw block around joined lines. */
  lemma RawFrame(L: seq<string>, c: string)
    requires |L| >= 1
    ensures "\n" + JoinLines(L) + "\n" + c == JoinLines([[]] + L + [c])
  {
    JoinAfterEmpty(L);
    JoinBeforeLast([[]] + L, c);
  }

  lemma BrokenBlockText(x: string, b: string, rest: seq<string>, indent: nat, closing: nat)
    requires |rest| >= 1
    ensures RawBlock([x + "\n" + b] + rest, indent, closing) == JoinLines(BrokenBlockLines(x, b, rest, indent, closing))
  {
    var R := IndentLines(rest, indent);
    var head := Spaces(indent) + x;
    var L := [head, b] + R;
    assert IndentLines([x + "\n" + b] + rest, indent) == [head + "\n" + b] + R by {
      IndentLinesCons(x + "\n" + b, rest, indent);
      assert Spaces(indent) + (x + "\n" + b) == head + "\n" + b;
    }
    assert JoinLines([head + "\n" + b] + R) == JoinLines(L) by {
      JoinLinesAppend([head + "\n" + b], R);
      JoinLinesAppend([head, b], R);
      assert JoinLines([head, b]) == head + "\n" + b;
    }
    RawFrame(L, Spaces(closing));
    assert BrokenBlockLines(x, b, rest, indent, closing) == [[]] + L + [Spaces(closing)];
  }

  lemma LinesOfBrokenBlock(x: string, b: string, rest: seq<string>, indent: nat, closing: nat)
    requires NoBreak(x) && NoBreak(b)
    requires |rest| >= 1 && forall k :: 0 <= k < |rest| ==> NoBreak(rest[k])
    ensures Lines(RawBlock([x + "\n" + b] + rest, indent, closing)) == BrokenBlockLines(x, b, rest, indent, closing)
  {
    var full := BrokenBlockLines(x, b, rest, indent, closing);
    BrokenBlockText(x, b, rest, indent, closing);
    NoBreakConcat(Spaces(indent), x);
    IndentedNoBreak(rest, indent);
    forall k | 0 <= k < |full| ensures NoBreak(full[k]) {
      if 3 <= k < |full| - 1 {
        assert full[k] == IndentLines(rest, indent)[k - 3];
      }
    }
    LinesOfJoinLines(full);
  }

  /** When text inserted into the first line of a raw block carries a line
      break followed by a line at column 0, that line lowers the common
      indent to zero: `trimIndent` then only drops the opening and closing
      lines, and the result still begins with the block's indent. */
  lemma TrimIndentOfBrokenFirstLine(x: string, b: string, rest: seq<string>, indent: nat, closing: nat)
    requires NoBreak(x) && NoBreak(b) && |b| > 0 && !IsWhitespace(b[0])
    requires |rest| >= 1 && forall k :: 0 <= k < |rest| ==> NoBreak(rest[k])
    ensures Spaces(indent) + x <= TrimIndent(RawBlock([x + "\n" + b] + rest, indent, closing))
  {
    LinesOfBrokenBlock(x, b, rest, indent, closing);
    TrimIndentAtColumnZero(RawBlock([x + "\n" + b] + rest, indent, closing));
  }
}
