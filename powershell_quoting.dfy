/** How the agent writes text into the PowerShell scripts it runs: the
    certificate password inside a single-quoted literal with its apostrophes
    doubled, and the internal domains as a list of single-quoted words.

    The partner of both is a reader for PowerShell's single-quoted string
    literal (PowerShell Language Specification 3.0, section 2.3.5.2): inside
    the literal a pair of single-quote characters stands for one of them, and
    a lone one closes the literal. PowerShell counts five characters as single
    quotes: the apostrophe U+0027 and the typographic quotes U+2018, U+2019,
    U+201A and U+201B. */
module PowerShellQuoting {
  import opened Results
  import opened Strings

  predicate IsSingleQuoteChar(c: char) {
    c == '\'' || c == '\U{2018}' || c == '\U{2019}' || c == '\U{201A}' || c == '\U{201B}'
  }

  /** No character of `s` other than the apostrophe is a PowerShell single quote. */
  predicate OnlyApostrophes(s: string) {
    forall k :: 0 <= k < |s| ==> s[k] == '\'' || !IsSingleQuoteChar(s[k])
  }

  predicate NoQuoteChars(s: string) {
    forall k :: 0 <= k < |s| ==> !IsSingleQuoteChar(s[k])
  }

  /** Text that may follow a closing quote without being read as part of the literal. */
  predicate StartsOutsideLiteral(rest: string) {
    rest == [] || !IsSingleQuoteChar(rest[0])
  }

  /** Reads the body of a single-quoted literal, i.e. the text after its opening
      quote: the value and the text after the closing quote, or None when the
      literal is never closed. Of a doubled quote PowerShell keeps the second. */
  function ReadQuotedBody(t: string): (r: Option<(string, string)>)
    ensures r.Some? ==> |r.value.1| < |t|
    decreases |t|
  {
    if |t| == 0 then None
    else if IsSingleQuoteChar(t[0]) then
      if |t| >= 2 && IsSingleQuoteChar(t[1]) then
        match ReadQuotedBody(t[2..])
        case None => None
        case Some((v, rest)) => Some(([t[1]] + v, rest))
      else Some(("", t[1..]))
    else
      match ReadQuotedBody(t[1..])
      case None => None
      case Some((v, rest)) => Some(([t[0]] + v, rest))
  }

  /** `pfx_pass.replace("'", "''")`, as the agent escapes the password. A
      password without apostrophes is written as it is. */
  function DoubleQuotes(s: string): (r: string)
    ensures '\'' !in s ==> r == s
  {
    var r := Replace(s, "'", "''");
    assert '\'' !in s ==> r == s by {
      if '\'' !in s {
        ReplaceSkips(s, "", "'", "''");
        assert s + "" == s;
      }
    }
    r
  }

  lemma DoubleQuotesCons(c: char, s: string)
    ensures DoubleQuotes([c] + s) == (if c == '\'' then "''" else [c]) + DoubleQuotes(s)
  {
    ReplaceCharAppend([c], s, '\'', "''");
    assert Replace([c], "'", "''") == (if c == '\'' then "''" else [c]) by {
      assert |"'"| == 1 && "'"[0] == '\'';
      assert [c][..1] == [c];
      assert ("'" <= [c]) <==> c == '\'';
      assert [c][|"'"|..] == "" && [c][1..] == "";
    }
  }

  /** Replacing every doubled apostrophe by one undoes the escaping. */
  lemma {:induction false} UndoubleDoubleQuotes(s: string)
    ensures Replace(DoubleQuotes(s), "''", "'") == s
  {
    if |s| > 0 {
      var c := s[0];
      assert s == [c] + s[1..];
      DoubleQuotesCons(c, s[1..]);
      UndoubleDoubleQuotes(s[1..]);
      if c == '\'' {
        ReplaceAtFront(DoubleQuotes(s[1..]), "''", "'");
      } else {
        ReplaceSkips([c], DoubleQuotes(s[1..]), "''", "'");
      }
    }
  }

  /** With only apostrophes among its quote characters, the escaped password
      written between single quotes reads back as the password, and the literal
      ends exactly where the agent closes it. */
  lemma {:induction false} DoubleQuotesReadBack(s: string, rest: string)
    requires OnlyApostrophes(s)
    requires StartsOutsideLiteral(rest)
    ensures ReadQuotedBody(DoubleQuotes(s) + "'" + rest) == Some((s, rest))
  {
    if |s| == 0 {
      assert DoubleQuotes(s) + "'" + rest == "'" + rest;
      assert ("'" + rest)[1..] == rest;
    } else {
      var c := s[0];
      assert s == [c] + s[1..];
      DoubleQuotesCons(c, s[1..]);
      DoubleQuotesReadBack(s[1..], rest);
      var tail := DoubleQuotes(s[1..]) + "'" + rest;
      if c == '\'' {
        assert DoubleQuotes(s) + "'" + rest == [c, c] + tail;
        ReadDoubledQuote(c, tail);
      } else {
        assert DoubleQuotes(s) + "'" + rest == [c] + tail;
        ReadOrdinaryChar(c, tail);
      }
    }
  }

  /** A typographic quote in the password is not escaped and closes the literal
      early: the text after it is read as script. */
  lemma TypographicQuoteEndsLiteral()
    ensures DoubleQuotes("\U{2019} x") == "\U{2019} x"
    ensures ReadQuotedBody(DoubleQuotes("\U{2019} x") + "'") == Some(("", " x'"))
  {
    DoubleQuotesCons('\U{2019}', " x");
    DoubleQuotesCons(' ', "x");
    DoubleQuotesCons('x', "");
    assert "\U{2019} x" == ['\U{2019}'] + " x";
    assert " x" == [' '] + "x";
    assert "x" == ['x'] + "";
    var t := "\U{2019} x'";
    assert DoubleQuotes("\U{2019} x") + "'" == t;
    assert IsSingleQuoteChar(t[0]) && !IsSingleQuoteChar(t[1]);
    assert t[1..] == " x'";
  }

  /** Escaping as PowerShell reads it: every single-quote character doubled. */
  function EscapeSingleQuoted(s: string): string
    decreases |s|
  {
    if |s| == 0 then ""
    else (if IsSingleQuoteChar(s[0]) then [s[0], s[0]] else [s[0]]) + EscapeSingleQuoted(s[1..])
  }

  /** Every text written between single quotes after this escaping reads back
      as itself, whatever quote characters it holds. */
  lemma {:induction false} EscapeSingleQuotedReadBack(s: string, rest: string)
    requires StartsOutsideLiteral(rest)
    ensures ReadQuotedBody(EscapeSingleQuoted(s) + "'" + rest) == Some((s, rest))
  {
    if |s| == 0 {
      assert EscapeSingleQuoted(s) + "'" + rest == "'" + rest;
      assert ("'" + rest)[1..] == rest;
    } else {
      var c := s[0];
      EscapeSingleQuotedReadBack(s[1..], rest);
      var tail := EscapeSingleQuoted(s[1..]) + "'" + rest;
      assert [c] + s[1..] == s;
      if IsSingleQuoteChar(c) {
        assert EscapeSingleQuoted(s) + "'" + rest == [c, c] + tail;
        ReadDoubledQuote(c, tail);
      } else {
        assert EscapeSingleQuoted(s) + "'" + rest == [c] + tail;
        ReadOrdinaryChar(c, tail);
      }
    }
  }

  /** A doubled quote inside the literal stands for its second character. */
  lemma ReadDoubledQuote(c: char, tail: string)
    requires IsSingleQuoteChar(c)
    requires ReadQuotedBody(tail).Some?
    ensures var r := ReadQuotedBody(tail).value;
      ReadQuotedBody([c, c] + tail) == Some(([c] + r.0, r.1))
  {
    assert ([c, c] + tail)[2..] == tail;
  }

  /** A character other than a quote stands for itself. */
  lemma ReadOrdinaryChar(c: char, tail: string)
    requires !IsSingleQuoteChar(c)
    requires ReadQuotedBody(tail).Some?
    ensures var r := ReadQuotedBody(tail).value;
      ReadQuotedBody([c] + tail) == Some(([c] + r.0, r.1))
  {
    assert ([c] + tail)[1..] == tail;
  }

  function Quoted(d: string): string {
    "'" + d + "'"
  }

  /** The `-InternalDomains` argument: each domain in single quotes, separated
      by spaces, and nothing for an empty list. Domains are not escaped. */
  function RenderDomains(domains: seq<string>): (r: string)
    ensures r == "" <==> |domains| == 0
    ensures |domains| > 0 ==> r[0] == '\'' && r[|r| - 1] == '\''
  {
    if |domains| == 0 then ""
    else
      var words := seq(|domains|, i requires 0 <= i < |domains| => Quoted(domains[i]));
      JoinEnds(words, ' ');
      Join(words, ' ')
  }

  /** Reads a space-separated list of single-quoted words. */
  function ReadQuotedWords(t: string): Option<seq<string>>
    decreases |t|
  {
    if |t| == 0 then Some([])
    else if !IsSingleQuoteChar(t[0]) then None
    else
      match ReadQuotedBody(t[1..])
      case None => None
      case Some((v, rest)) =>
        if |rest| == 0 then Some([v])
        else if rest[0] != ' ' then None
        else
          match ReadQuotedWords(rest[1..])
          case None => None
          case Some(vs) => Some([v] + vs)
  }

  lemma {:induction false} ReadPlainBody(d: string, rest: string)
    requires NoQuoteChars(d)
    requires StartsOutsideLiteral(rest)
    ensures ReadQuotedBody(d + "'" + rest) == Some((d, rest))
  {
    var t := d + "'" + rest;
    if |d| == 0 {
      assert t == "'" + rest && t[1..] == rest;
    } else {
      assert t[0] == d[0] && t[1..] == d[1..] + "'" + rest;
      ReadPlainBody(d[1..], rest);
      assert [d[0]] + d[1..] == d;
    }
  }

  lemma RenderDomainsCons(domains: seq<string>)
    requires |domains| >= 2
    ensures RenderDomains(domains) == Quoted(domains[0]) + " " + RenderDomains(domains[1..])
  {
    var words := seq(|domains|, i requires 0 <= i < |domains| => Quoted(domains[i]));
    assert words[1..] == seq(|domains| - 1, i requires 0 <= i < |domains| - 1 => Quoted(domains[1..][i]));
  }

  /** One quoted word at the end of the argument. */
  lemma ReadLastWord(d: string)
    requires NoQuoteChars(d)
    ensures ReadQuotedWords(Quoted(d)) == Some([d])
  {
    var t := Quoted(d);
    assert t[0] == '\'' && t[1..] == d + "'" + "";
    ReadPlainBody(d, "");
  }

  /** One quoted word followed by a space and more words. */
  lemma ReadWordThenMore(d: string, tail: string)
    requires NoQuoteChars(d)
    ensures ReadQuotedWords(Quoted(d) + " " + tail)
      == match ReadQuotedWords(tail) case None => None case Some(vs) => Some([d] + vs)
  {
    var t := Quoted(d) + " " + tail;
    assert t[0] == '\'' && t[1..] == d + "'" + (" " + tail);
    ReadPlainBody(d, " " + tail);
    assert (" " + tail)[1..] == tail;
  }

  /** Domains without quote characters are read back from the argument one by
      one, in order. */
  lemma {:induction false} RenderDomainsReadBack(domains: seq<string>)
    requires forall i :: 0 <= i < |domains| ==> NoQuoteChars(domains[i])
    ensures ReadQuotedWords(RenderDomains(domains)) == Some(domains)
  {
    if |domains| == 0 {
      assert RenderDomains(domains) == "";
    } else if |domains| == 1 {
      assert RenderDomains(domains) == Quoted(domains[0]);
      ReadLastWord(domains[0]);
      assert domains == [domains[0]];
    } else {
      RenderDomainsCons(domains);
      RenderDomainsReadBack(domains[1..]);
      ReadWordThenMore(domains[0], RenderDomains(domains[1..]));
      assert [domains[0]] + domains[1..] == domains;
    }
  }

  /** Different lists of quote-free domains give different arguments. */
  lemma RenderDomainsInjective(a: seq<string>, b: seq<string>)
    requires forall i :: 0 <= i < |a| ==> NoQuoteChars(a[i])
    requires forall i :: 0 <= i < |b| ==> NoQuoteChars(b[i])
    requires RenderDomains(a) == RenderDomains(b)
    ensures a == b
  {
    RenderDomainsReadBack(a);
    RenderDomainsReadBack(b);
  }
}
