/**
 * The two quoting conventions of the encoder. Both quote a string exactly
 * when it holds a newline, a double quote or a comma. The generic one
 * writes each inner quote as backslash-quote; the CSV one doubles it,
 * as fields are quoted in section 2 (rules 6 and 7) of RFC 4180 except
 * that a lone carriage return does not trigger quoting.
 */
module ToonEscape {

  /** The trigger shared by both conventions. */
  predicate NeedsQuoting(s: string)
  {
    '\n' in s || '"' in s || ',' in s
  }

  /** `s.replace(/"/g, '\\"')`: a backslash before every double quote. */
  function BackslashQuotes(s: string): string
  {
    if |s| == 0 then ""
    else (if s[0] == '"' then "\\\"" else [s[0]]) + BackslashQuotes(s[1..])
  }

  /** One character more per quote; only backslashes are added. */
  lemma {:induction false} BackslashQuotesCounts(s: string)
    ensures |BackslashQuotes(s)| == |s| + multiset(s)['"']
    ensures forall c :: c != '\\' ==> multiset(BackslashQuotes(s))[c] == multiset(s)[c]
  {
    if |s| > 0 {
      BackslashQuotesCounts(s[1..]);
      assert s == [s[0]] + s[1..];
    }
  }

  /** Deletes the backslash in front of every double quote. */
  function DropBackslashes(t: string): string
    decreases |t|
  {
    if |t| == 0 then ""
    else if |t| >= 2 && t[0] == '\\' && t[1] == '"' then "\"" + DropBackslashes(t[2..])
    else [t[0]] + DropBackslashes(t[1..])
  }

  lemma BackslashQuotesHead(s: string)
    ensures |BackslashQuotes(s)| == 0 || BackslashQuotes(s)[0] != '"'
  {
  }

  /** Deleting the inserted backslashes gives the original text back. */
  lemma {:induction false} DropBackslashesInverse(s: string)
    ensures DropBackslashes(BackslashQuotes(s)) == s
  {
    if |s| > 0 {
      var rest := BackslashQuotes(s[1..]);
      DropBackslashesInverse(s[1..]);
      BackslashQuotesHead(s[1..]);
      assert s == [s[0]] + s[1..];
      if s[0] == '"' {
        assert ("\\\"" + rest)[2..] == rest;
      } else {
        assert ([s[0]] + rest)[1..] == rest;
      }
    }
  }

  /** Each backslash `DropBackslashes` deletes stands before a quote it keeps. */
  lemma {:induction false} DropBackslashesLength(t: string)
    ensures |t| <= |DropBackslashes(t)| + multiset(DropBackslashes(t))['"']
    decreases |t|
  {
    if |t| >= 2 && t[0] == '\\' && t[1] == '"' {
      DropBackslashesLength(t[2..]);
    } else if |t| > 0 {
      DropBackslashesLength(t[1..]);
    }
  }

  /**
   * The only text that is one character per quote longer than `s` and
   * gives `s` back when its backslashes are dropped is `BackslashQuotes(s)`.
   */
  lemma {:induction false} BackslashQuotesUnique(s: string, t: string)
    requires DropBackslashes(t) == s && |t| == |s| + multiset(s)['"']
    ensures t == BackslashQuotes(s)
    decreases |t|, 1
  {
    if |t| >= 2 && t[0] == '\\' && t[1] == '"' {
      UniqueAtEscapedQuote(s, t);
    } else if |t| > 0 {
      UniqueAtPlainChar(s, t);
    } else {
      assert s == "";
    }
  }

  /** The step of `BackslashQuotesUnique` at a backslash-quote pair. */
  lemma {:induction false} UniqueAtEscapedQuote(s: string, t: string)
    requires |t| >= 2 && t[0] == '\\' && t[1] == '"'
    requires DropBackslashes(t) == s && |t| == |s| + multiset(s)['"']
    ensures t == BackslashQuotes(s)
    decreases |t|, 0
  {
    var rest := DropBackslashes(t[2..]);
    assert s == ['"'] + rest;
    QuoteCount('"', rest);
    BackslashQuotesUnique(rest, t[2..]);
    BackslashQuotesCons('"', rest);
    assert t == "\\\"" + t[2..];
  }

  /** The step of `BackslashQuotesUnique` at any other character, which cannot be a quote. */
  lemma {:induction false} UniqueAtPlainChar(s: string, t: string)
    requires |t| > 0 && !(|t| >= 2 && t[0] == '\\' && t[1] == '"')
    requires DropBackslashes(t) == s && |t| == |s| + multiset(s)['"']
    ensures t == BackslashQuotes(s)
    decreases |t|, 0
  {
    var rest := DropBackslashes(t[1..]);
    assert s == [t[0]] + rest;
    QuoteCount(t[0], rest);
    DropBackslashesLength(t[1..]);
    BackslashQuotesUnique(rest, t[1..]);
    BackslashQuotesCons(t[0], rest);
    assert t == [t[0]] + t[1..];
  }

  lemma QuoteCount(c: char, rest: string)
    ensures |[c] + rest| == |rest| + 1
    ensures multiset([c] + rest)['"'] == multiset(rest)['"'] + (if c == '"' then 1 else 0)
  {
  }

  lemma BackslashQuotesCons(c: char, rest: string)
    ensures BackslashQuotes([c] + rest) == (if c == '"' then "\\\"" else [c]) + BackslashQuotes(rest)
  {
    assert ([c] + rest)[1..] == rest;
  }

  /**
   * `escapeString`: unchanged exactly when no quoting is needed; otherwise
   * in double quotes, one character longer per inner quote, and dropping
   * the backslash before each inner quote gives `s` back. By
   * `BackslashQuotesUnique` these facts fix the quoted text.
   */
  function EscapeString(s: string): (r: string)
    ensures r == s <==> !NeedsQuoting(s)
    ensures NeedsQuoting(s) ==>
      |r| >= 2 && r[0] == '"' && r[|r| - 1] == '"' && DropBackslashes(r[1..|r| - 1]) == s
    ensures NeedsQuoting(s) ==> |r| == |s| + multiset(s)['"'] + 2
  {
    if !NeedsQuoting(s) then s
    else
      var inner := BackslashQuotes(s);
      BackslashQuotesCounts(s);
      DropBackslashesInverse(s);
      var r := "\"" + inner + "\"";
      assert r[1..|r| - 1] == inner;
      r
  }

  /** Quoting neither adds nor removes a newline. */
  lemma EscapeStringNewline(s: string)
    ensures '\n' in EscapeString(s) <==> '\n' in s
  {
    if NeedsQuoting(s) {
      var inner := BackslashQuotes(s);
      BackslashQuotesCounts(s);
      assert multiset(inner)['\n'] == multiset(s)['\n'];
      assert EscapeString(s) == "\"" + inner + "\"";
      assert multiset(EscapeString(s)) == multiset("\"") + multiset(inner) + multiset("\"");
    }
  }

  /** `value.replace(/"/g, '""')`: every double quote doubled. */
  function DoubleQuotes(s: string): string
  {
    if |s| == 0 then ""
    else (if s[0] == '"' then "\"\"" else [s[0]]) + DoubleQuotes(s[1..])
  }

  /** One character more per quote; only double quotes are added. */
  lemma {:induction false} DoubleQuotesCounts(s: string)
    ensures |DoubleQuotes(s)| == |s| + multiset(s)['"']
    ensures forall c :: c != '"' ==> multiset(DoubleQuotes(s))[c] == multiset(s)[c]
  {
    if |s| > 0 {
      DoubleQuotesCounts(s[1..]);
      assert s == [s[0]] + s[1..];
    }
  }

  /** A text without double quotes is left as it is. */
  lemma {:induction false} DoubleQuotesNoQuote(s: string)
    requires '"' !in s
    ensures DoubleQuotes(s) == s
  {
    if |s| > 0 {
      DoubleQuotesNoQuote(s[1..]);
      assert s == [s[0]] + s[1..];
    }
  }

  /** A string that needs quoting but holds no quote is only wrapped in quotes. */
  lemma EscapeCsvWraps(s: string)
    requires NeedsQuoting(s) && '"' !in s
    ensures EscapeCsv(s) == "\"" + s + "\""
  {
    DoubleQuotesNoQuote(s);
  }

  /** Turns every pair of double quotes back into one. */
  function HalveQuotes(t: string): string
    decreases |t|
  {
    if |t| == 0 then ""
    else if |t| >= 2 && t[0] == '"' && t[1] == '"' then "\"" + HalveQuotes(t[2..])
    else [t[0]] + HalveQuotes(t[1..])
  }

  /** Halving the doubled quotes gives the original text back. */
  lemma {:induction false} HalveQuotesInverse(s: string)
    ensures HalveQuotes(DoubleQuotes(s)) == s
  {
    if |s| > 0 {
      var rest := DoubleQuotes(s[1..]);
      HalveQuotesInverse(s[1..]);
      assert s == [s[0]] + s[1..];
      if s[0] == '"' {
        assert ("\"\"" + rest)[2..] == rest;
      } else {
        assert ([s[0]] + rest)[1..] == rest;
      }
    }
  }

  /** Every double quote of `t` opens a pair of two (rule 7 of RFC 4180, section 2). */
  predicate QuotesPaired(t: string)
    decreases |t|
  {
    if |t| == 0 then true
    else if t[0] == '"' then |t| >= 2 && t[1] == '"' && QuotesPaired(t[2..])
    else QuotesPaired(t[1..])
  }

  lemma {:induction false} DoubleQuotesPaired(s: string)
    ensures QuotesPaired(DoubleQuotes(s))
  {
    if |s| > 0 {
      var rest := DoubleQuotes(s[1..]);
      DoubleQuotesPaired(s[1..]);
      if s[0] == '"' {
        assert ("\"\"" + rest)[2..] == rest;
      } else {
        assert ([s[0]] + rest)[1..] == rest;
      }
    }
  }

  /**
   * `escapeCSVValue`: unchanged exactly when no quoting is needed;
   * otherwise in double quotes around a text whose quotes all come in
   * pairs, one character longer per inner quote, and halving those pairs
   * gives `s` back.
   */
  function EscapeCsv(s: string): (r: string)
    ensures r == s <==> !NeedsQuoting(s)
    ensures NeedsQuoting(s) ==>
      |r| >= 2 && r[0] == '"' && r[|r| - 1] == '"'
      && QuotesPaired(r[1..|r| - 1]) && HalveQuotes(r[1..|r| - 1]) == s
    ensures NeedsQuoting(s) ==> |r| == |s| + multiset(s)['"'] + 2
  {
    if !NeedsQuoting(s) then s
    else
      var inner := DoubleQuotes(s);
      DoubleQuotesCounts(s);
      HalveQuotesInverse(s);
      DoubleQuotesPaired(s);
      var r := "\"" + inner + "\"";
      assert r[1..|r| - 1] == inner;
      r
  }

  /** Both conventions leave the same strings alone. */
  lemma SameTrigger(s: string)
    ensures EscapeString(s) == s <==> EscapeCsv(s) == s
  {
  }

  /** A string with a newline stays one after CSV quoting. */
  lemma EscapeCsvNewline(s: string)
    ensures '\n' in EscapeCsv(s) <==> '\n' in s
  {
    if NeedsQuoting(s) {
      var inner := DoubleQuotes(s);
      DoubleQuotesCounts(s);
      assert multiset(inner)['\n'] == multiset(s)['\n'];
      assert EscapeCsv(s) == "\"" + inner + "\"";
      assert multiset(EscapeCsv(s)) == multiset("\"") + multiset(inner) + multiset("\"");
    }
  }
}
