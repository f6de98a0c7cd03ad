/** TokenSplitter::parse of the full interpreter: the regular expression
    ,?\s+(?=(?:[^']*'[^']*')*[^']*$) replaced by '\n', then get_lines.
    A separator is an optional comma and a run of white space, and only
    counts where an even number of quotes follows it on the line. */
module Tokens {
  import opened Text

  /** Length of the separator match starting at the first character of s, 0
      when none starts there. \s+ is greedy, and backing off never changes
      the quote count after it, so a match takes the whole run. With a
      leading comma not followed by white space the match without the
      comma fails too, since \s cannot match ','. */
  function SeparatorAt(s: string): (k: nat)
    ensures k <= |s|
  {
    var c := if s != [] && s[0] == ',' then 1 else 0;
    var w := LeadingSpaces(s[c..]);
    if w > 0 && EvenQuotes(s[c + w..]) then c + w else 0
  }

  /** std::regex_replace(line, delimiter, "\n"), scanning left to right. */
  function ReplaceSeparators(s: string): string
    decreases |s|
  {
    if s == [] then []
    else
      var k := SeparatorAt(s);
      if k > 0 then [Newline] + ReplaceSeparators(s[k..])
      else [s[0]] + ReplaceSeparators(s[1..])
  }

  lemma ReplaceNoMatch(s: string)
    requires s != [] && SeparatorAt(s) == 0
    ensures ReplaceSeparators(s) == [s[0]] + ReplaceSeparators(s[1..])
  {
  }

  lemma ReplaceMatch(s: string)
    requires s != [] && SeparatorAt(s) > 0
    ensures ReplaceSeparators(s) == [Newline] + ReplaceSeparators(s[SeparatorAt(s)..])
  {
  }

  /** No separator starts at a character that is neither white space nor a
      comma followed by white space. */
  lemma NoSeparatorAt(s: string)
    requires s != [] && !IsSpace(s[0])
    requires s[0] == ',' && |s| > 1 ==> !IsSpace(s[1])
    ensures SeparatorAt(s) == 0
  {
    if s[0] == ',' && |s| > 1 {
      assert s[1..][0] == s[1];
    }
  }

  /** TokenSplitter::parse: the tokens of one instruction line. */
  function Split(line: string): (tokens: seq<string>)
    ensures forall i :: 0 <= i < |tokens| ==> IsCleanLine(tokens[i])
  {
    GetLinesClean(ReplaceSeparators(line));
    GetLines(ReplaceSeparators(line))
  }

  /** What the regular expression treats as one separator. */
  predicate IsSeparator(sep: string) {
    || (sep != [] && AllSpace(sep))
    || (|sep| >= 2 && sep[0] == ',' && AllSpace(sep[1..]))
  }

  /** A token without quotes or white space; it may hold commas, but a comma
      at its end would be read as part of the following separator. */
  predicate IsPlain(w: string) {
    && w != []
    && (forall i :: 0 <= i < |w| ==> !IsSpace(w[i]) && w[i] != Quote)
    && w[|w| - 1] != ','
  }

  /** A quoted text: spaces and commas inside it belong to the token. */
  predicate IsQuoted(w: string) {
    && |w| >= 2
    && w[0] == Quote
    && w[|w| - 1] == Quote
    && Quote !in w[1..|w| - 1]
    && Newline !in w[1..|w| - 1]
  }

  predicate IsToken(w: string) {
    IsPlain(w) || IsQuoted(w)
  }

  /** ws[0] + seps[0] + ws[1] + ... + ws[|ws| - 1]. */
  function Interleave(ws: seq<string>, seps: seq<string>): string
    requires |ws| == |seps| + 1
  {
    if |ws| == 1 then ws[0] else ws[0] + seps[0] + Interleave(ws[1..], seps[1..])
  }

  /** Splitting a line written as tokens with separators between them, and
      possibly trailing white space, gives back exactly those tokens: quoted
      text keeps its spaces and commas, a comma inside a plain token stays
      there, and every separator, comma included, disappears. */
  lemma SplitInterleave(ws: seq<string>, seps: seq<string>, tail: string)
    requires |ws| == |seps| + 1
    requires forall i :: 0 <= i < |ws| ==> IsToken(ws[i])
    requires forall i :: 0 <= i < |seps| ==> IsSeparator(seps[i])
    requires AllSpace(tail)
    ensures Split(Interleave(ws, seps) + tail) == ws
  {
    assert Quote !in tail;
    CountQuotesNone(tail);
    ReplaceInterleave(ws, seps, tail);
    forall i | 0 <= i < |ws|
      ensures IsCleanLine(ws[i])
    {
      TokenIsClean(ws[i]);
    }
    ReplaceTail(tail);
    GetLinesJoin(ws, ReplaceSeparators(tail));
  }

  /** Trailing white space becomes a single '\n'. */
  lemma ReplaceTail(tail: string)
    requires AllSpace(tail)
    ensures ReplaceSeparators(tail) == if tail == [] then [] else [Newline]
  {
    if tail != [] {
      assert Quote !in tail;
      CountQuotesNone(tail);
      LeadingSpacesOf(tail, []);
      assert tail + [] == tail;
      ReplaceMatch(tail);
    }
  }

  lemma {:induction false} ReplaceInterleave(ws: seq<string>, seps: seq<string>, tail: string)
    requires |ws| == |seps| + 1
    requires forall i :: 0 <= i < |ws| ==> IsToken(ws[i])
    requires forall i :: 0 <= i < |seps| ==> IsSeparator(seps[i])
    requires EvenQuotes(tail)
    ensures ReplaceSeparators(Interleave(ws, seps) + tail)
         == JoinChar(ws, Newline) + ReplaceSeparators(tail)
    decreases |ws|
  {
    if |ws| == 1 {
      ReplaceToken(ws[0], tail);
    } else {
      var w, sep := ws[0], seps[0];
      var rest := Interleave(ws[1..], seps[1..]);
      var rt := rest + tail;
      var r := ReplaceSeparators(tail);
      assert rt != [] && !IsSpace(rt[0]) && EvenQuotes(rt) by {
        InterleaveShape(ws[1..], seps[1..]);
        TokenStart(ws[1]);
        assert rt[0] == rest[..|ws[1]|][0];
        CountQuotesAppend(rest, tail);
      }
      assert EvenQuotes(sep + rt) by {
        SeparatorQuoteFree(sep);
        CountQuotesNone(sep);
        CountQuotesAppend(sep, rt);
      }
      ReplaceToken(w, sep + rt);
      ReplaceSeparator(sep, rt);
      ReplaceInterleave(ws[1..], seps[1..], tail);
      var j := JoinChar(ws[1..], Newline);
      calc {
        ReplaceSeparators(Interleave(ws, seps) + tail);
        { AppendAssoc(w, sep, rest); AppendAssoc(sep, rest, tail); AppendAssoc(w, sep + rest, tail); }
        ReplaceSeparators(w + (sep + rt));
        w + ReplaceSeparators(sep + rt);
        w + ([Newline] + ReplaceSeparators(rt));
        w + ([Newline] + (j + r));
        { AppendAssoc([Newline], j, r); AppendAssoc(w, [Newline] + j, r); AppendAssoc(w, [Newline], j); }
        JoinChar(ws, Newline) + r;
      }
    }
  }

  lemma TokenIsClean(w: string)
    requires IsToken(w)
    ensures IsCleanLine(w)
  {
    forall i | 0 <= i < |w|
      ensures w[i] != Newline
    {
      if 0 < i < |w| - 1 && IsQuoted(w) {
        assert w[i] == w[1..|w| - 1][i - 1];
      }
    }
  }

  lemma TokenStart(w: string)
    requires IsToken(w)
    ensures w != [] && !IsSpace(w[0])
  {
  }

  lemma SeparatorQuoteFree(sep: string)
    requires IsSeparator(sep)
    ensures Quote !in sep
  {
    forall i | 0 <= i < |sep|
      ensures sep[i] != Quote
    {
      if i > 0 {
        assert sep[1..][i - 1] == sep[i];
      }
    }
  }

  /** An interleaving starts with its first token and has an even number of
      quotes. */
  lemma {:induction false} InterleaveShape(ws: seq<string>, seps: seq<string>)
    requires |ws| == |seps| + 1
    requires forall i :: 0 <= i < |ws| ==> IsToken(ws[i])
    requires forall i :: 0 <= i < |seps| ==> IsSeparator(seps[i])
    ensures |Interleave(ws, seps)| >= |ws[0]| && Interleave(ws, seps)[..|ws[0]|] == ws[0]
    ensures EvenQuotes(Interleave(ws, seps))
    decreases |ws|
  {
    TokenQuotes(ws[0]);
    if |ws| > 1 {
      var rest := Interleave(ws[1..], seps[1..]);
      InterleaveShape(ws[1..], seps[1..]);
      SeparatorQuoteFree(seps[0]);
      CountQuotesNone(seps[0]);
      CountQuotesAppend(seps[0], rest);
      CountQuotesAppend(ws[0], seps[0] + rest);
      assert Interleave(ws, seps) == ws[0] + (seps[0] + rest);
    }
  }

  lemma TokenQuotes(w: string)
    requires IsToken(w)
    ensures EvenQuotes(w)
  {
    if IsPlain(w) {
      CountQuotesNone(w);
    } else {
      var x := w[1..|w| - 1];
      assert w == [Quote] + (x + [Quote]);
      CountQuotesNone(x);
      CountQuotesAppend(x, [Quote]);
      CountQuotesAppend([Quote], x + [Quote]);
    }
  }

  lemma QuoteFlipsParity(t: string)
    ensures EvenQuotes([Quote] + t) <==> !EvenQuotes(t)
  {
    assert ([Quote] + t)[1..] == t;
    var c := CountQuotes(t);
    assert CountQuotes([Quote] + t) == c + 1;
    assert (c + 1) % 2 == 0 <==> c % 2 != 0;
  }

  /** No separator starts inside a token, whatever follows a plain token, and
      whatever with an even number of quotes follows a quoted one. */
  lemma ReplaceToken(w: string, t: string)
    requires IsToken(w)
    requires IsQuoted(w) ==> EvenQuotes(t)
    ensures ReplaceSeparators(w + t) == w + ReplaceSeparators(t)
  {
    if IsPlain(w) {
      ReplacePlain(w, t);
    } else {
      ReplaceQuoted(w, t);
    }
  }

  lemma ReplaceQuoted(w: string, t: string)
    requires IsQuoted(w) && EvenQuotes(t)
    ensures ReplaceSeparators(w + t) == w + ReplaceSeparators(t)
  {
    var x := w[1..|w| - 1];
    var u := [Quote] + t;
    var r := ReplaceSeparators(t);
    assert w == [Quote] + (x + [Quote]);
    AppendAssoc([Quote], x + [Quote], t);
    AppendAssoc(x, [Quote], t);
    assert w + t == [Quote] + (x + u);
    QuoteFlipsParity(t);
    ReplaceInsideQuotes(x, u);
    ReplaceQuoteChar(x + u);
    ReplaceQuoteChar(t);
    calc {
      ReplaceSeparators(w + t);
      [Quote] + ReplaceSeparators(x + u);
      [Quote] + (x + ([Quote] + r));
      { AppendAssoc(x, [Quote], r); AppendAssoc([Quote], x + [Quote], r); }
      w + r;
    }
  }

  /** A quote never starts a separator. */
  lemma ReplaceQuoteChar(t: string)
    ensures ReplaceSeparators([Quote] + t) == [Quote] + ReplaceSeparators(t)
  {
    var s := [Quote] + t;
    NoSeparatorAt(s);
    ReplaceNoMatch(s);
    assert s[1..] == t;
  }

  lemma {:induction false} ReplacePlain(w: string, t: string)
    requires forall i :: 0 <= i < |w| ==> !IsSpace(w[i]) && w[i] != Quote
    requires w == [] || w[|w| - 1] != ','
    ensures ReplaceSeparators(w + t) == w + ReplaceSeparators(t)
    decreases |w|
  {
    if w == [] {
      assert w + t == t;
    } else {
      var s := w + t;
      assert s[0] == w[0];
      assert w[0] == ',' ==> |w| >= 2 && s[1] == w[1];
      NoSeparatorAt(s);
      ReplacePlain(w[1..], t);
      ReplaceFirst(w, t);
    }
  }

  /** Inside quotes (quote-free text x followed by the closing quote) the
      quote count ahead is odd, so no separator matches there. */
  lemma {:induction false} ReplaceInsideQuotes(x: string, u: string)
    requires Quote !in x
    requires u != [] && u[0] == Quote && !EvenQuotes(u)
    ensures ReplaceSeparators(x + u) == x + ReplaceSeparators(u)
    decreases |x|
  {
    if x == [] {
      assert x + u == u;
    } else {
      NoSeparatorInsideQuotes(x, u);
      ReplaceInsideQuotes(x[1..], u);
      ReplaceFirst(x, u);
    }
  }

  /** The inductive step of the two lemmas above: a character where no
      separator starts is copied. */
  lemma ReplaceFirst(w: string, t: string)
    requires w != [] && SeparatorAt(w + t) == 0
    requires ReplaceSeparators(w[1..] + t) == w[1..] + ReplaceSeparators(t)
    ensures ReplaceSeparators(w + t) == w + ReplaceSeparators(t)
  {
    ReplaceCopy(w, t);
    ConsTail(w, ReplaceSeparators(t));
  }

  lemma ReplaceCopy(w: string, t: string)
    requires w != [] && SeparatorAt(w + t) == 0
    ensures ReplaceSeparators(w + t) == [w[0]] + ReplaceSeparators(w[1..] + t)
  {
    ReplaceNoMatch(w + t);
    assert (w + t)[1..] == w[1..] + t;
  }

  lemma NoSeparatorInsideQuotes(x: string, u: string)
    requires x != [] && Quote !in x
    requires u != [] && u[0] == Quote && !EvenQuotes(u)
    ensures SeparatorAt(x + u) == 0
  {
    var s := x + u;
    var c := if s[0] == ',' then 1 else 0;
    var w := LeadingSpaces(s[c..]);
    LeadingSpacesShape(s[c..]);
    assert s[|x|] == Quote;
    assert c + w <= |x| by {
      assert s[c..][|x| - c] == Quote;
    }
    assert s[c + w..] == x[c + w..] + u;
    assert Quote !in x[c + w..];
    CountQuotesNone(x[c + w..]);
    CountQuotesAppend(x[c + w..], u);
  }

  /** A separator followed by a token becomes exactly one '\n'. */
  lemma ReplaceSeparator(sep: string, t: string)
    requires IsSeparator(sep)
    requires t != [] && !IsSpace(t[0]) && EvenQuotes(t)
    ensures ReplaceSeparators(sep + t) == [Newline] + ReplaceSeparators(t)
  {
    var s := sep + t;
    if sep[0] == ',' {
      assert s[1..] == sep[1..] + t;
      LeadingSpacesOf(sep[1..], t);
    } else {
      LeadingSpacesOf(sep, t);
    }
    assert s[|sep|..] == t;
    assert SeparatorAt(s) == |sep|;
    ReplaceMatch(s);
  }

  lemma {:induction false} LeadingSpacesOf(ws: string, t: string)
    requires AllSpace(ws)
    requires t == [] || !IsSpace(t[0])
    ensures LeadingSpaces(ws + t) == |ws|
    decreases |ws|
  {
    if ws == [] {
      assert ws + t == t;
    } else {
      assert (ws + t)[1..] == ws[1..] + t;
      LeadingSpacesOf(ws[1..], t);
    }
  }
}
