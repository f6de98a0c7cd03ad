/** sanitize_raw_program of the full interpreter: raw program text to the
    list of instruction lines. */
module Sanitize {
  import opened Text

  /** delete_braces_front_and_end: substr(1, size - 1) of a program longer
      than two characters, which drops the first character only and keeps
      the last one. */
  function DeleteBracesFrontAndEnd(raw: string): (r: string)
    ensures |r| == (if |raw| > 2 then |raw| - 1 else |raw|)
    ensures r == raw[|raw| - |r|..]
  {
    if |raw| > 2 then raw[1..] else raw
  }

  /** The characters ECMAScript '.' does not match. */
  predicate IsLineTerminator(c: char) {
    c == '\n' || c == '\r'
  }

  /** Length of the run '.' can match at the start of s. */
  function DotRun(s: string): (k: nat)
    ensures k <= |s|
  {
    if s != [] && !IsLineTerminator(s[0]) then 1 + DotRun(s[1..]) else 0
  }

  /** Without a line terminator '.' matches the whole text. */
  lemma {:induction false} DotRunAll(s: string)
    requires forall i :: 0 <= i < |s| ==> !IsLineTerminator(s[i])
    ensures DotRun(s) == |s|
    decreases |s|
  {
    if s != [] {
      assert forall i :: 0 <= i < |s[1..]| ==> s[1..][i] == s[i + 1];
      DotRunAll(s[1..]);
    }
  }

  /** The largest p in [lo, hi] with an even number of quotes in s[p..], or 0
      when there is none. */
  function LastEvenSuffix(s: string, lo: nat, hi: nat): (p: nat)
    requires 1 <= lo <= hi <= |s|
    ensures p == 0 || (lo <= p <= hi && EvenQuotes(s[p..]))
    ensures forall q :: lo <= q <= hi && p < q ==> !EvenQuotes(s[q..])
    decreases hi - lo
  {
    if EvenQuotes(s[hi..]) then hi
    else if hi == lo then 0
    else LastEvenSuffix(s, lo, hi - 1)
  }

  /** Length of the match of ;.*(?=(?:[^']*'[^']*')*[^']*$) at the start of
      s, 0 when none starts there: .* first takes everything up to a line
      terminator and gives characters back until the look-ahead holds. */
  function CommentAt(s: string): (k: nat)
    ensures k <= |s|
  {
    if s != [] && s[0] == ';' then LastEvenSuffix(s, 1, 1 + DotRun(s[1..])) else 0
  }

  /** std::regex_replace(line, comment, ""), scanning left to right. */
  function StripComment(s: string): string
    decreases |s|
  {
    if s == [] then []
    else
      var k := CommentAt(s);
      if k > 0 then StripComment(s[k..]) else [s[0]] + StripComment(s[1..])
  }

  /** instruction.find_first_not_of(' ') == npos: only ' ' counts here, not
      the other white-space characters. */
  predicate IsOnlyBlanks(line: string) {
    forall i :: 0 <= i < |line| ==> line[i] == ' '
  }

  /** The std::transform with the comment regex followed by the
      std::remove_if of blank lines. */
  function StripAndDropBlank(lines: seq<string>): (r: seq<string>)
    ensures |r| <= |lines|
    ensures forall i :: 0 <= i < |r| ==> !IsOnlyBlanks(r[i])
  {
    if lines == [] then []
    else
      var line := StripComment(lines[0]);
      (if IsOnlyBlanks(line) then [] else [line]) + StripAndDropBlank(lines[1..])
  }

  /** sanitize_raw_program. */
  function SanitizeRawProgram(raw: string): (program: seq<string>)
    ensures forall i :: 0 <= i < |program| ==> !IsOnlyBlanks(program[i])
  {
    StripAndDropBlank(GetLines(DeleteBracesFrontAndEnd(raw)))
  }

  /** A line without '\r' or '\n' is cut at its first ';', also when that
      ';' stands between quotes: '.*' is greedy, so the look-ahead is first
      tried at the end of the line, where it always holds. */
  lemma {:induction false} StripCommentCuts(s: string)
    requires forall i :: 0 <= i < |s| ==> !IsLineTerminator(s[i])
    ensures StripComment(s) == s[..IndexOf(s, ';')]
    decreases |s|
  {
    if s != [] {
      if s[0] == ';' {
        CommentToEnd(s);
      } else {
        StripCommentCuts(s[1..]);
        ConsTake(s, IndexOf(s[1..], ';'));
      }
    }
  }

  /** A comment runs to the end of a line without line terminators. */
  lemma CommentToEnd(s: string)
    requires s != [] && s[0] == ';'
    requires forall i :: 0 <= i < |s| ==> !IsLineTerminator(s[i])
    ensures StripComment(s) == []
  {
    DotRunAfter(s);
    EvenAtEnd(s);
    assert CommentAt(s) == |s|;
  }

  lemma DotRunAfter(s: string)
    requires s != []
    requires forall i :: 0 <= i < |s| ==> !IsLineTerminator(s[i])
    ensures DotRun(s[1..]) == |s| - 1
  {
    assert forall i :: 0 <= i < |s[1..]| ==> s[1..][i] == s[i + 1];
    DotRunAll(s[1..]);
  }

  lemma EvenAtEnd(s: string)
    ensures s[|s|..] == [] && EvenQuotes(s[|s|..])
  {
  }

  lemma ConsTake<T>(s: seq<T>, k: nat)
    requires k < |s|
    ensures s[..1 + k] == [s[0]] + s[1..][..k]
  {
  }

  /** The reference reading of sanitising: drop the first character of a
      program longer than two, take the left-trimmed non-empty lines, cut
      each at its first ';' and keep the ones that are not blank. */
  function CutLines(lines: seq<string>): seq<string> {
    if lines == [] then []
    else
      var line := lines[0][..IndexOf(lines[0], ';')];
      (if IsOnlyBlanks(line) then [] else [line]) + CutLines(lines[1..])
  }

  /** For a program without '\r' sanitising is exactly the reference
      reading, and every instruction line it yields is non-empty, starts
      with a character that is not white space, and holds no ';'. */
  lemma SanitizeCutsAtSemicolon(raw: string)
    requires '\r' !in raw
    ensures SanitizeRawProgram(raw) == CutLines(GetLines(DeleteBracesFrontAndEnd(raw)))
    ensures forall i :: 0 <= i < |SanitizeRawProgram(raw)| ==>
              IsCleanLine(SanitizeRawProgram(raw)[i]) && ';' !in SanitizeRawProgram(raw)[i]
  {
    var s := DeleteBracesFrontAndEnd(raw);
    assert '\r' !in s;
    GetLinesKeepsOut(s, '\r');
    GetLinesClean(s);
    CutCleanLines(GetLines(s));
  }

  lemma {:induction false} CutCleanLines(lines: seq<string>)
    requires forall i :: 0 <= i < |lines| ==> IsCleanLine(lines[i]) && '\r' !in lines[i]
    ensures StripAndDropBlank(lines) == CutLines(lines)
    ensures forall i :: 0 <= i < |CutLines(lines)| ==>
              IsCleanLine(CutLines(lines)[i]) && ';' !in CutLines(lines)[i]
    decreases |lines|
  {
    if lines != [] {
      var l := lines[0];
      StripCommentCuts(l);
      var k := IndexOf(l, ';');
      IndexOfShape(l, ';');
      var cut := l[..k];
      assert IsOnlyBlanks(cut) <==> k == 0;
      assert k > 0 ==> IsCleanLine(cut) && ';' !in cut;
      CutCleanLines(lines[1..]);
    }
  }
}
