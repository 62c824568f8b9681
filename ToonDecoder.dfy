/**
 * `decodeFromTOON`: the text is split into lines, lines whose trimmed text
 * starts with `#` are dropped, and the rest goes to `parseTOONValue`, which
 * always throws. No text decodes to a value.
 */
module ToonDecoder {
  import opened Wrappers
  import opened JsText
  import opened ToonValue
  import opened ToonEncoder
  import opened ToonLayout

  /** `line.trim().startsWith('#')`: trailing white space cannot matter here. */
  predicate IsCommentLine(line: string)
  {
    var t := TrimStart(line);
    |t| > 0 && t[0] == '#'
  }

  /** `lines.filter(line => !line.trim().startsWith('#'))` */
  function StripComments(lines: seq<string>): (r: seq<string>)
    ensures |r| <= |lines|
    ensures forall i :: 0 <= i < |r| ==> !IsCommentLine(r[i])
    ensures forall line :: line in r <==> line in lines && !IsCommentLine(line)
  {
    if |lines| == 0 then []
    else
      assert lines == [lines[0]] + lines[1..];
      (if IsCommentLine(lines[0]) then [] else [lines[0]]) + StripComments(lines[1..])
  }

  lemma {:induction false} StripCommentsAppend(a: seq<string>, b: seq<string>)
    ensures StripComments(a + b) == StripComments(a) + StripComments(b)
  {
    if |a| > 0 {
      assert (a + b)[1..] == a[1..] + b;
      StripCommentsAppend(a[1..], b);
    } else {
      assert a + b == b;
    }
  }

  const NotImplementedMessage: string := "TOON decoder not fully implemented - use for encoding only in MVP"

  /** What `parseTOONValue` would return: a value and the index of the next line. */
  datatype Parsed = Parsed(value: Value, nextIndex: nat)

  /** `parseTOONValue(lines, index)`: throws on every input. */
  function ParseToonValue(lines: seq<string>, index: nat): (r: Result<Parsed>)
    ensures r == Err(NotImplementedMessage)
  {
    Err(NotImplementedMessage)
  }

  /** `.value` of a parse result; an error passes through. */
  function ValueOf(parsed: Result<Parsed>): Result<Value>
  {
    match parsed
    case Ok(p) => Ok(p.value)
    case Err(m) => Err(m)
  }

  /** `decodeFromTOON(toon)`, with the thrown error as `Err`. */
  function DecodeFromToon(toon: string): (r: Result<Value>)
    ensures r == Err(NotImplementedMessage)
  {
    ValueOf(ParseToonValue(StripComments(Split(toon)), 0))
  }

  /** No text decodes to a value; in particular no encoding is ever decoded back. */
  lemma NothingDecodes(toon: string, v: Value)
    ensures DecodeFromToon(toon) != Ok(v)
  {
  }

  /**
   * The banner is a comment line: after dropping comments, the text with the
   * banner leaves the same lines as the encoding without it.
   */
  lemma BannerIsDropped(v: Value, options: Options, jsonText: string, formatSavings: (nat, nat) -> string)
    requires forall a: nat, b: nat :: '\n' !in formatSavings(a, b)
    ensures StripComments(Split(EncodeToToon(v, options, jsonText, formatSavings)))
         == StripComments(Split(EncodeValue(v, 0, IndentSizeOf(options))))
  {
    if IncludesTokenCount(options) {
      BannerLayout(v, options, jsonText, formatSavings);
      var plain := EncodeValue(v, 0, IndentSizeOf(options));
      var out := EncodeToToon(v, options, jsonText, formatSavings);
      var banner := Split(out)[0];
      HashLineIsComment(banner);
      DropLeadingComment(banner, Split(plain));
    }
  }

  lemma HashLineIsComment(line: string)
    requires |line| > 0 && line[0] == '#'
    ensures IsCommentLine(line)
  {
    assert !IsJsWhiteSpace('#');
  }

  lemma DropLeadingComment(line: string, rest: seq<string>)
    requires IsCommentLine(line)
    ensures StripComments([line] + rest) == StripComments(rest)
  {
    assert ([line] + rest)[1..] == rest;
  }
}
