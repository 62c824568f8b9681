/**
 * The pieces of the JavaScript runtime the encoder leans on, stated over
 * `string` (a sequence of characters): `Array.prototype.join`,
 * `String.prototype.split('\n')`, `' '.repeat(n)`, the leading half of
 * `String.prototype.trim`, and `Number.prototype.toString` for integers.
 */
module JsText {

  /** `' '.repeat(n)` */
  function Spaces(n: nat): (r: string)
    ensures |r| == n
    ensures forall i :: 0 <= i < |r| ==> r[i] == ' '
  {
    seq(n, _ => ' ')
  }

  /** `parts.join(sep)`: the parts with `sep` between neighbours. */
  function Join(parts: seq<string>, sep: string): string
  {
    if |parts| == 0 then ""
    else if |parts| == 1 then parts[0]
    else parts[0] + sep + Join(parts[1..], sep)
  }

  /** A character absent from the separator and from every part is absent from the join. */
  lemma {:induction false} JoinAvoids(parts: seq<string>, sep: string, c: char)
    requires c !in sep
    requires forall i :: 0 <= i < |parts| ==> c !in parts[i]
    ensures c !in Join(parts, sep)
  {
    if |parts| > 1 {
      JoinAvoids(parts[1..], sep, c);
    }
  }

  /**
   * `s.split('\n')`: the maximal newline-free pieces of `s`. Joining them
   * with newlines gives `s` back, and there is always at least one piece.
   */
  function Split(s: string): (r: seq<string>)
    ensures |r| > 0
    ensures forall i :: 0 <= i < |r| ==> '\n' !in r[i]
    ensures Join(r, "\n") == s
    decreases |s|
  {
    if |s| == 0 then [""]
    else
      var rest := Split(s[1..]);
      if s[0] == '\n' then
        [""] + rest
      else
        assert s == [s[0]] + s[1..];
        [[s[0]] + rest[0]] + rest[1..]
  }

  /** A newline-free text is one line. */
  lemma {:induction false} SplitSingle(a: string)
    requires '\n' !in a
    ensures Split(a) == [a]
    decreases |a|
  {
    if |a| > 0 {
      SplitSingle(a[1..]);
      assert a == [a[0]] + a[1..];
    }
  }

  /** Splitting at the first newline. */
  lemma {:induction false} SplitAtNewline(a: string, b: string)
    requires '\n' !in a
    ensures Split(a + "\n" + b) == [a] + Split(b)
    decreases |a|
  {
    var s := a + "\n" + b;
    if |a| == 0 {
      assert s[1..] == b;
    } else {
      assert s[1..] == a[1..] + "\n" + b;
      SplitAtNewline(a[1..], b);
      assert a == [a[0]] + a[1..];
    }
  }

  /** `split` undoes `join` for a non-empty list of newline-free lines. */
  lemma {:induction false} SplitJoin(lines: seq<string>)
    requires |lines| > 0
    requires forall i :: 0 <= i < |lines| ==> '\n' !in lines[i]
    ensures Split(Join(lines, "\n")) == lines
  {
    if |lines| == 1 {
      SplitSingle(lines[0]);
    } else {
      SplitJoin(lines[1..]);
      SplitAtNewline(lines[0], Join(lines[1..], "\n"));
    }
  }

  /** JavaScript's white space and line terminators, which `trim` removes. */
  predicate IsJsWhiteSpace(c: char)
  {
    c == '\t' || c == '\n' || c == '\U{B}' || c == '\U{C}' || c == '\r' || c == ' '
    || c == '\U{A0}' || c == '\U{1680}' || ('\U{2000}' <= c <= '\U{200A}')
    || c == '\U{2028}' || c == '\U{2029}' || c == '\U{202F}' || c == '\U{205F}'
    || c == '\U{3000}' || c == '\U{FEFF}'
  }

  /** `s` with its leading white space removed: the start of what `s.trim()` keeps. */
  function TrimStart(s: string): (r: string)
    ensures |r| <= |s| && r == s[|s| - |r|..]
    ensures forall i :: 0 <= i < |s| - |r| ==> IsJsWhiteSpace(s[i])
    ensures |r| == 0 || !IsJsWhiteSpace(r[0])
    decreases |s|
  {
    if |s| > 0 && IsJsWhiteSpace(s[0]) then TrimStart(s[1..]) else s
  }

  function DigitChar(d: nat): (c: char)
    requires d < 10
    ensures '0' <= c <= '9' && c as int - '0' as int == d
  {
    ('0' as int + d) as char
  }

  predicate IsDigit(c: char)
  {
    '0' as int <= c as int <= '9' as int
  }

  /** The decimal numeral of `n`, as `n.toString()` prints it: digits only, no leading zero. */
  function NatToString(n: nat): (r: string)
    ensures |r| > 0
    ensures forall i :: 0 <= i < |r| ==> IsDigit(r[i])
    ensures r[0] == '0' ==> |r| == 1 && n == 0
  {
    if n < 10 then [DigitChar(n)] else NatToString(n / 10) + [DigitChar(n % 10)]
  }

  /** The number a string of decimal digits denotes. */
  function DecimalValue(s: string): nat
    requires forall i :: 0 <= i < |s| ==> IsDigit(s[i])
  {
    if |s| == 0 then 0
    else
      assert IsDigit(s[|s| - 1]);
      DecimalValue(s[..|s| - 1]) * 10 + (s[|s| - 1] as int - '0' as int)
  }

  /** The numeral printed for `n` denotes `n`. */
  lemma {:induction false} NatToStringValue(n: nat)
    ensures DecimalValue(NatToString(n)) == n
  {
    if n >= 10 {
      NatToStringValue(n / 10);
      var s := NatToString(n);
      assert s[..|s| - 1] == NatToString(n / 10);
    }
  }

  /** A numeral whose first digit is not zero denotes a positive number. */
  lemma {:induction false} DecimalPositive(s: string)
    requires |s| > 0 && s[0] != '0'
    requires forall i :: 0 <= i < |s| ==> IsDigit(s[i])
    ensures DecimalValue(s) >= 1
  {
    if |s| > 1 {
      DecimalPositive(s[..|s| - 1]);
    }
  }

  /** Numerals without leading zero are unique: `NatToString(n)` is the only one denoting `n`. */
  lemma {:induction false} NumeralUnique(s: string, n: nat)
    requires |s| > 0 && (s[0] == '0' ==> |s| == 1)
    requires forall i :: 0 <= i < |s| ==> IsDigit(s[i])
    requires DecimalValue(s) == n
    ensures s == NatToString(n)
  {
    if |s| > 1 {
      var p := s[..|s| - 1];
      DecimalPositive(p);
      NumeralUnique(p, DecimalValue(p));
      assert s == p + [s[|s| - 1]];
    }
  }

  /**
   * `n.toString()` for an integer: a minus sign exactly when `n` is
   * negative, then a numeral without leading zero that denotes `|n|`.
   */
  function IntToString(n: int): (r: string)
    ensures |r| > 0 && (r[0] == '-' <==> n < 0)
    ensures var digits := if n < 0 then r[1..] else r;
      |digits| > 0 && (forall i :: 0 <= i < |digits| ==> IsDigit(digits[i]))
      && (digits[0] == '0' ==> |digits| == 1 && n == 0)
      && DecimalValue(digits) == (if n < 0 then -n else n)
  {
    var m: nat := if n < 0 then -n else n;
    var d := NatToString(m);
    NatToStringValue(m);
    assert IsDigit(d[0]);
    if n < 0 then
      assert ("-" + d)[1..] == d;
      "-" + d
    else d
  }

  /** The digits `IntToString` prints are the one canonical numeral of `|n|`. */
  lemma IntToStringDigits(n: int)
    ensures var r := IntToString(n);
      (if n < 0 then r[1..] else r) == NatToString(if n < 0 then -n else n)
  {
    var r := IntToString(n);
    NumeralUnique(if n < 0 then r[1..] else r, if n < 0 then -n else n);
  }

  /** Numerals hold neither a newline, a comma nor a double quote. */
  lemma IntToStringPlain(n: int)
    ensures '\n' !in IntToString(n) && ',' !in IntToString(n) && '"' !in IntToString(n)
  {
    var r := IntToString(n);
    var digits := if n < 0 then r[1..] else r;
    assert r == (if n < 0 then "-" else "") + digits;
    assert forall i :: 0 <= i < |digits| ==> IsDigit(digits[i]);
  }
}
