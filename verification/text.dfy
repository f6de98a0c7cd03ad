/** Character classes of the C locale and the string helpers the
    interpreters use: left trimming, line splitting and quote counting. */
module Text {

  const Quote: char := '\''
  const Newline: char := '\n'

  /** std::isspace in the C locale. */
  predicate IsSpace(c: char) {
    c == ' ' || c == '\t' || c == '\n' || c == '\U{B}' || c == '\U{C}' || c == '\r'
  }

  /** std::isalpha in the C locale. */
  predicate IsAlpha(c: char) {
    ('a' <= c <= 'z') || ('A' <= c <= 'Z')
  }

  predicate IsDigit(c: char) {
    '0' <= c <= '9'
  }

  /** Text made only of white space (possibly none). */
  predicate AllSpace(s: string) {
    forall i :: 0 <= i < |s| ==> IsSpace(s[i])
  }

  /** Index of the first occurrence of c in s, or |s| when there is none. */
  function IndexOf(s: string, c: char): (k: nat)
    ensures k <= |s|
  {
    if s == [] then 0
    else if s[0] == c then 0
    else 1 + IndexOf(s[1..], c)
  }

  /** The index found holds c, and no earlier one does. */
  lemma {:induction false} IndexOfShape(s: string, c: char)
    ensures IndexOf(s, c) < |s| ==> s[IndexOf(s, c)] == c
    ensures forall i :: 0 <= i < IndexOf(s, c) ==> s[i] != c
    decreases |s|
  {
    if s != [] && s[0] != c {
      IndexOfShape(s[1..], c);
      assert forall i :: 1 <= i < IndexOf(s, c) ==> s[i] == s[1..][i - 1];
    }
  }

  /** Length of the longest prefix of s made of white space. */
  function LeadingSpaces(s: string): (k: nat)
    ensures k <= |s|
  {
    if s != [] && IsSpace(s[0]) then 1 + LeadingSpaces(s[1..]) else 0
  }

  lemma {:induction false} LeadingSpacesShape(s: string)
    ensures forall i :: 0 <= i < LeadingSpaces(s) ==> IsSpace(s[i])
    ensures LeadingSpaces(s) == |s| || !IsSpace(s[LeadingSpaces(s)])
    decreases |s|
  {
    if s != [] && IsSpace(s[0]) {
      LeadingSpacesShape(s[1..]);
      assert forall i :: 1 <= i < LeadingSpaces(s) ==> s[i] == s[1..][i - 1];
    }
  }

  /** ltrim: drop the longest prefix of white space. */
  function Ltrim(s: string): (r: string)
    ensures |r| <= |s|
  {
    s[LeadingSpaces(s)..]
  }

  /** The trimmed text is a suffix that does not start with white space,
      and only white space was dropped. */
  lemma LtrimShape(s: string)
    ensures Ltrim(s) == s[|s| - |Ltrim(s)|..]
    ensures forall i :: 0 <= i < |s| - |Ltrim(s)| ==> IsSpace(s[i])
    ensures Ltrim(s) == [] || !IsSpace(Ltrim(s)[0])
  {
    LeadingSpacesShape(s);
  }

  /** get_lines: split at '\n' (std::getline), left-trim every line and keep
      the lines that are not empty. The empty piece std::getline does not
      report after a final '\n' would be dropped by the filter anyway. */
  function GetLines(s: string): (lines: seq<string>)
    decreases |s|
  {
    var k := IndexOf(s, Newline);
    FirstLine(s) + (if k < |s| then GetLines(s[k + 1..]) else [])
  }

  /** The first line of s, left-trimmed, if it is not empty. */
  function FirstLine(s: string): seq<string> {
    var line := Ltrim(s[..IndexOf(s, Newline)]);
    if line == [] then [] else [line]
  }

  /** Every line get_lines produces is clean. */
  lemma {:induction false} GetLinesClean(s: string)
    ensures forall i :: 0 <= i < |GetLines(s)| ==> IsCleanLine(GetLines(s)[i])
    decreases |s|
  {
    var k := IndexOf(s, Newline);
    FirstLineClean(s);
    if k < |s| {
      GetLinesClean(s[k + 1..]);
    }
  }

  lemma FirstLineClean(s: string)
    ensures forall i :: 0 <= i < |FirstLine(s)| ==> IsCleanLine(FirstLine(s)[i])
  {
    var k := IndexOf(s, Newline);
    IndexOfShape(s, Newline);
    assert Newline !in s[..k];
    LtrimShape(s[..k]);
    LtrimKeepsOut(s[..k], Newline);
  }

  /** get_lines introduces no character: one absent from s is absent from
      every line. */
  lemma {:induction false} GetLinesKeepsOut(s: string, c: char)
    requires c !in s
    ensures forall i :: 0 <= i < |GetLines(s)| ==> c !in GetLines(s)[i]
    decreases |s|
  {
    var k := IndexOf(s, Newline);
    assert c !in s[..k];
    LtrimKeepsOut(s[..k], c);
    if k < |s| {
      assert c !in s[k + 1..];
      GetLinesKeepsOut(s[k + 1..], c);
    }
  }

  /** What get_lines can produce: a non-empty line without '\n' that does not
      start with white space. */
  predicate IsCleanLine(line: string) {
    line != [] && !IsSpace(line[0]) && Newline !in line
  }

  lemma LtrimKeepsOut(s: string, c: char)
    requires c !in s
    ensures c !in Ltrim(s)
  {
    LtrimShape(s);
    assert forall i :: 0 <= i < |Ltrim(s)| ==> Ltrim(s)[i] == s[|s| - |Ltrim(s)| + i];
  }

  /** The elements of ls joined with the separator c. */
  function JoinChar(ls: seq<string>, c: char): string {
    if ls == [] then []
    else if |ls| == 1 then ls[0]
    else ls[0] + [c] + JoinChar(ls[1..], c)
  }

  /** get_lines inverts joining clean lines with '\n', also when one more
      '\n' ends the text. */
  lemma {:induction false} GetLinesJoin(ls: seq<string>, tail: string)
    requires forall i :: 0 <= i < |ls| ==> IsCleanLine(ls[i])
    requires tail == [] || tail == [Newline]
    ensures GetLines(JoinChar(ls, Newline) + tail) == ls
    decreases |ls|
  {
    if ls == [] {
      GetLinesBlank(tail);
    } else if |ls| == 1 {
      GetLinesLast(ls[0], tail);
    } else {
      var rest := JoinChar(ls[1..], Newline);
      JoinTail(ls[0], rest, tail);
      GetLinesNext(ls[0], rest + tail);
      GetLinesJoin(ls[1..], tail);
      SeqCons(ls);
    }
  }

  lemma JoinTail(a: string, rest: string, tail: string)
    ensures a + [Newline] + rest + tail == a + ([Newline] + (rest + tail))
  {
  }

  lemma SeqCons<T>(s: seq<T>)
    requires s != []
    ensures [s[0]] + s[1..] == s
  {
  }

  /** Nothing or a lone '\n' has no line. */
  lemma GetLinesBlank(tail: string)
    requires tail == [] || tail == [Newline]
    ensures GetLines(tail) == []
  {
    if tail != [] {
      assert tail[1..] == [];
      assert tail[..0] == [];
    }
  }

  /** A clean line at the end of the text, possibly followed by '\n', is
      the only line. */
  lemma GetLinesLast(a: string, tail: string)
    requires IsCleanLine(a)
    requires tail == [] || tail == [Newline]
    ensures GetLines(a + tail) == [a]
  {
    if tail == [] {
      assert a + tail == a;
      IndexOfAbsent(a, Newline);
      assert a[..|a|] == a;
    } else {
      GetLinesBlank([]);
      GetLinesNext(a, []);
      assert [Newline] + [] == tail;
    }
  }

  /** A clean line followed by '\n' is the first line get_lines reports. */
  lemma GetLinesNext(a: string, rest: string)
    requires IsCleanLine(a)
    ensures GetLines(a + ([Newline] + rest)) == [a] + GetLines(rest)
  {
    var s := a + ([Newline] + rest);
    IndexOfPrefix(a, [Newline] + rest, Newline);
    TakeAppend(a, [Newline] + rest, |a|);
    AfterSeparator(a, Newline, rest);
    assert a[..|a|] == a;
    assert LeadingSpaces(a) == 0;
  }

  lemma AfterSeparator<T>(a: seq<T>, c: T, rest: seq<T>)
    ensures (a + ([c] + rest))[|a| + 1..] == rest
  {
  }

  lemma {:induction false} IndexOfAbsent(s: string, c: char)
    requires c !in s
    ensures IndexOf(s, c) == |s|
    decreases |s|
  {
    if s != [] {
      IndexOfAbsent(s[1..], c);
    }
  }

  lemma {:induction false} IndexOfPrefix(a: string, b: string, c: char)
    requires c !in a
    requires b != [] && b[0] == c
    ensures IndexOf(a + b, c) == |a|
    decreases |a|
  {
    if a != [] {
      assert (a + b)[1..] == a[1..] + b;
      IndexOfPrefix(a[1..], b, c);
    }
  }

  lemma AppendAssoc<T>(a: seq<T>, b: seq<T>, c: seq<T>)
    ensures a + (b + c) == (a + b) + c
  {
  }

  lemma TakeAppend<T>(a: seq<T>, b: seq<T>, i: nat)
    requires i <= |a|
    ensures (a + b)[..i] == a[..i]
  {
  }

  lemma ConsTail<T>(w: seq<T>, r: seq<T>)
    requires w != []
    ensures [w[0]] + (w[1..] + r) == w + r
  {
    assert [w[0]] + w[1..] == w;
  }

  /** Number of single quotes in s. */
  function CountQuotes(s: string): nat {
    if s == [] then 0 else (if s[0] == Quote then 1 else 0) + CountQuotes(s[1..])
  }

  /** The look-ahead (?:[^']*'[^']*')*[^']*$ of both regular expressions:
      an even number of quotes remain on the line. */
  predicate EvenQuotes(s: string) {
    CountQuotes(s) % 2 == 0
  }

  lemma {:induction false} CountQuotesAppend(a: string, b: string)
    ensures CountQuotes(a + b) == CountQuotes(a) + CountQuotes(b)
    decreases |a|
  {
    if a == [] {
      assert a + b == b;
    } else {
      assert (a + b)[1..] == a[1..] + b;
      CountQuotesAppend(a[1..], b);
    }
  }

  lemma {:induction false} CountQuotesNone(s: string)
    requires Quote !in s
    ensures CountQuotes(s) == 0
    decreases |s|
  {
    if s != [] {
      CountQuotesNone(s[1..]);
    }
  }

  /** Msg::strippedQuotes: erase every single quote. */
  function RemoveQuotes(s: string): string {
    if s == [] then []
    else if s[0] == Quote then RemoveQuotes(s[1..])
    else [s[0]] + RemoveQuotes(s[1..])
  }

  /** No quote survives, and nothing but the quotes is dropped. */
  lemma {:induction false} RemoveQuotesDropsQuotes(s: string)
    ensures Quote !in RemoveQuotes(s)
    ensures |RemoveQuotes(s)| == |s| - CountQuotes(s)
    decreases |s|
  {
    if s != [] {
      RemoveQuotesDropsQuotes(s[1..]);
    }
  }

  /** Removing quotes keeps every other character in order: it distributes
      over concatenation and leaves quote-free text unchanged. */
  lemma {:induction false} RemoveQuotesAppend(a: string, b: string)
    ensures RemoveQuotes(a + b) == RemoveQuotes(a) + RemoveQuotes(b)
    decreases |a|
  {
    if a == [] {
      assert a + b == b;
    } else {
      assert (a + b)[1..] == a[1..] + b;
      RemoveQuotesAppend(a[1..], b);
    }
  }

  lemma {:induction false} RemoveQuotesNone(s: string)
    requires Quote !in s
    ensures RemoveQuotes(s) == s
    decreases |s|
  {
    if s != [] {
      RemoveQuotesNone(s[1..]);
    }
  }
}
