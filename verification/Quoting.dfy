/** Quoting a list of strings in one line and taking it apart again (simpleQuote and
    simpleUnquote of src/GenUtil.hs). */
module Quoting {
  /** isSpace: the space, the five control characters and the other blanks of Unicode
      that lie in the plane Dafny strings are written in. */
  predicate IsSpace(c: char) {
    c == ' ' || ('\t' <= c <= '\r') || c == '\U{00A0}' || c == '\U{1680}' || ('\U{2000}' <= c <= '\U{200A}')
    || c == '\U{202F}' || c == '\U{205F}' || c == '\U{3000}'
  }

  predicate IsBad(c: char) { IsSpace(c) || c == '\'' }

  /** dquote: every single quote twice. */
  function DQuote(s: string): string {
    if s == "" then "" else (if s[0] == '\'' then "''" else [s[0]]) + DQuote(s[1..])
  }

  function QuoteOne(s: string): (r: string)
    ensures r != ""
  {
    if s == "" || exists i | 0 <= i < |s| :: IsBad(s[i]) then "'" + DQuote(s) + "'" else s
  }

  /** unwords over the quoted strings. */
  function SimpleQuote(ss: seq<string>): string {
    if ss == [] then ""
    else if |ss| == 1 then QuoteOne(ss[0])
    else QuoteOne(ss[0]) + " " + SimpleQuote(ss[1..])
  }

  predicate Plain(s: string) { s != "" && forall i | 0 <= i < |s| :: !IsBad(s[i]) }

  /** Only what needs quotes gets them: a string without blanks and quotes that is not empty
      stays as it is, any other one grows by the two quotes around it and one for each inside. */
  lemma QuoteOneLength(s: string)
    ensures QuoteOne(s) == s <==> Plain(s)
    ensures |QuoteOne(s)| == |s| + if Plain(s) then 0 else 2 + multiset(s)['\'']
  {
    DQuoteLength(s);
  }

  lemma {:induction false} DQuoteLength(s: string)
    ensures |DQuote(s)| == |s| + multiset(s)['\'']
  {
    if s != "" {
      DQuoteLength(s[1..]);
      assert s == [s[0]] + s[1..];
    }
  }

  function TotalLength(ss: seq<string>): nat { if ss == [] then 0 else |QuoteOne(ss[0])| + TotalLength(ss[1..]) }

  /** One blank stands between two strings, and nothing else. */
  lemma {:induction false} SimpleQuoteLength(ss: seq<string>)
    requires ss != []
    ensures |SimpleQuote(ss)| == TotalLength(ss) + |ss| - 1
  {
    if |ss| > 1 { SimpleQuoteLength(ss[1..]); } else { assert ss[1..] == []; }
  }

  /** The blanks by their codes. */
  lemma BlankCodes(c: char)
    ensures var n := c as int;
      IsSpace(c) <==> n == 0x20 || 9 <= n <= 13 || n == 0xa0 || n == 0x1680 || 0x2000 <= n <= 0x200a || n == 0x202f || n == 0x205f || n == 0x3000
  {}

  function DropSpaces(s: string): (r: string)
    ensures |r| <= |s|
    ensures r == "" || !IsSpace(r[0])
  {
    if s != "" && IsSpace(s[0]) then DropSpaces(s[1..]) else s
  }

  /** span (not . isSpace). */
  function SpanWord(s: string): (r: (string, string))
    ensures s == r.0 + r.1
  {
    if s == "" || IsSpace(s[0]) then ("", s)
    else
      var (x, y) := SpanWord(s[1..]);
      ([s[0]] + x, y)
  }

  function Reverse(s: string): string { if s == "" then "" else Reverse(s[1..]) + [s[0]] }

  /** quote': the characters up to the closing quote, collected in reverse. */
  function Unquoted(a: string, s: string): (r: (string, string))
    ensures |r.1| <= |s|
    decreases |s|
  {
    if |s| >= 2 && s[0] == '\'' && s[1] == '\'' then Unquoted(['\''] + a, s[2..])
    else if s != "" && s[0] == '\'' then (Reverse(a), s[1..])
    else if s != "" then Unquoted([s[0]] + a, s[1..])
    else (Reverse(a), "")
  }

  /** The inner function of simpleUnquote, on text without leading blanks. */
  function Words(s: string): seq<string>
    requires s == "" || !IsSpace(s[0])
    decreases |s|
  {
    if s == "" then []
    else if s[0] == '\'' then
      var (x, y) := Unquoted("", s[1..]);
      [x] + Words(DropSpaces(y))
    else
      var (x, y) := SpanWord(s);
      [x] + Words(DropSpaces(y))
  }

  function SimpleUnquote(s: string): seq<string> { Words(DropSpaces(s)) }

  // ----- the round trip

  /** What may follow a quoted string: the end, or a blank. */
  predicate Ends(rest: string) { rest == "" || IsSpace(rest[0]) }

  /** Inside quotes every character is read back, doubled quotes as one. */
  lemma {:induction false} UnquotedReadsBack(a: string, s: string, rest: string)
    requires Ends(rest)
    ensures Unquoted(a, DQuote(s) + "'" + rest) == (Reverse(a) + s, rest)
    decreases |s|
  {
    var t := DQuote(s) + "'" + rest;
    if s == "" {
      assert t == "'" + rest && t[1..] == rest;
      assert Reverse(a) + s == Reverse(a);
    } else {
      var u := DQuote(s[1..]) + "'" + rest;
      UnquotedReadsBack([s[0]] + a, s[1..], rest);
      assert ([s[0]] + a)[1..] == a;
      assert Reverse([s[0]] + a) + s[1..] == Reverse(a) + s;
      if s[0] == '\'' {
        assert t == "''" + u && t[2..] == u;
      } else {
        assert t == [s[0]] + u && t[1..] == u;
      }
    }
  }

  /** Where the closing quote is missing, the rest is read as if it stood at the end. */
  lemma {:induction false} UnclosedReadToEnd(a: string, s: string)
    ensures Unquoted(a, DQuote(s)) == (Reverse(a) + s, "")
    decreases |s|
  {
    var t := DQuote(s);
    if s == "" {
      assert Reverse(a) + s == Reverse(a);
    } else {
      UnclosedReadToEnd([s[0]] + a, s[1..]);
      assert ([s[0]] + a)[1..] == a;
      assert Reverse([s[0]] + a) + s[1..] == Reverse(a) + s;
      assert t[if s[0] == '\'' then 2 else 1..] == DQuote(s[1..]);
    }
  }

  /** A word without blanks ends where the blank begins. */
  lemma {:induction false} SpanReadsBack(s: string, rest: string)
    requires Ends(rest) && forall i | 0 <= i < |s| :: !IsSpace(s[i])
    ensures SpanWord(s + rest) == (s, rest)
  {
    if s == "" {
      assert s + rest == rest;
    } else {
      assert (s + rest)[1..] == s[1..] + rest;
      SpanReadsBack(s[1..], rest);
      assert [s[0]] + s[1..] == s;
    }
  }

  lemma Regrouped(a: string, b: string, c: string, d: string)
    ensures a + b + c + d == a + (b + c + d)
  {}

  lemma QuotedReadsBack(s: string, rest: string)
    requires Ends(rest)
    ensures var t := "'" + DQuote(s) + "'" + rest; !IsSpace(t[0]) && Words(t) == [s] + Words(DropSpaces(rest))
  {
    var u := DQuote(s) + "'" + rest;
    var t := "'" + u;
    UnquotedReadsBack("", s, rest);
    QuoteIsNoSpace();
    hide IsSpace, DropSpaces, DQuote, Unquoted, Ends;
    Regrouped("'", DQuote(s), "'", rest);
    assert t[0] == '\'' && t[1..] == u;
    assert Reverse("") + s == s;
  }

  lemma BareReadsBack(s: string, rest: string)
    requires Ends(rest) && s != "" && forall i | 0 <= i < |s| :: !IsBad(s[i])
    ensures var t := s + rest; !IsSpace(t[0]) && Words(t) == [s] + Words(DropSpaces(rest))
  {
    assert !IsBad(s[0]);
    hide IsSpace, DropSpaces, Ends;
    SpanReadsBack(s, rest);
  }

  /** One string is read back, and reading goes on behind it. */
  lemma OneReadsBack(s: string, rest: string)
    requires Ends(rest)
    ensures var t := QuoteOne(s) + rest; !IsSpace(t[0]) && Words(t) == [s] + Words(DropSpaces(rest))
  {
    hide IsSpace, DropSpaces, Ends, DQuote, Words;
    if s == "" || exists i | 0 <= i < |s| :: IsBad(s[i]) {
      QuotedReadsBack(s, rest);
    } else {
      BareReadsBack(s, rest);
    }
  }

  lemma QuoteIsNoSpace()
    ensures !IsSpace('\'')
  {}

  lemma {:induction false} WordsReadBack(ss: seq<string>)
    ensures var q := SimpleQuote(ss); (q == "" || !IsSpace(q[0])) && Words(q) == ss
  {
    if ss == [] {
    } else if |ss| == 1 {
      OneReadsBack(ss[0], "");
      assert QuoteOne(ss[0]) + "" == QuoteOne(ss[0]);
      assert ss == [ss[0]];
    } else {
      var rest := " " + SimpleQuote(ss[1..]);
      WordsReadBack(ss[1..]);
      OneReadsBack(ss[0], rest);
      assert rest[1..] == SimpleQuote(ss[1..]);
      assert DropSpaces(rest) == SimpleQuote(ss[1..]);
      assert SimpleQuote(ss) == QuoteOne(ss[0]) + rest;
      assert ss == [ss[0]] + ss[1..];
    }
  }

  /** simpleUnquote is the inverse of simpleQuote, for every list of strings. */
  lemma QuoteRoundTrip(ss: seq<string>)
    ensures SimpleUnquote(SimpleQuote(ss)) == ss
  {
    WordsReadBack(ss);
  }
}
