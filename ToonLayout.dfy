/**
 * What the encoder's output looks like: the fixed literals, which values
 * produce more than one line, and the line structure of the three
 * container layouts and of the banner.
 */
module ToonLayout {
  import opened Wrappers
  import opened JsText
  import opened ToonValue
  import opened ToonEscape
  import opened ToonUniform
  import opened ToonTokens
  import opened ToonEncoder

  /** The values whose encoding spans several lines. */
  predicate IsMultiLine(v: Value)
  {
    (v.Str? && '\n' in v.s) || (v.Arr? && |v.items| > 0) || (v.Obj? && |v.entries| > 0)
  }

  /** The fixed literals, at every depth and indent width. */
  lemma FixedLiterals(depth: nat, indentSize: nat)
    ensures EncodeValue(Null, depth, indentSize) == "null"
    ensures EncodeValue(Undefined, depth, indentSize) == "undefined"
    ensures EncodeValue(Bool(true), depth, indentSize) == "true"
    ensures EncodeValue(Bool(false), depth, indentSize) == "false"
    ensures EncodeValue(Arr([]), depth, indentSize) == "[]"
    ensures EncodeValue(Obj([]), depth, indentSize) == "{}"
  {
  }

  /** The newline test of `encodeObject` picks out exactly the multi-line values. */
  lemma MultiLineIff(v: Value, depth: nat, indentSize: nat)
    ensures '\n' in EncodeValue(v, depth, indentSize) <==> IsMultiLine(v)
  {
    match v
    case Str(s) => EscapeStringNewline(s);
    case Num(n) => IntToStringPlain(n);
    case Arr(items) => if |items| > 0 { NonEmptyArrayNewline(items, depth, indentSize); }
    case Obj(entries) => if |entries| > 0 { NonEmptyObjectNewline(entries, depth, indentSize); }
    case _ =>
  }

  lemma NonEmptyArrayNewline(items: seq<Value>, depth: nat, indentSize: nat)
    requires |items| > 0
    ensures '\n' in EncodeArray(items, depth, indentSize)
  {
    if IsUniformObjectArray(items) {
      UniformIff(items);
      TableNewline(items, depth, indentSize);
    } else {
      assert EncodeArray(items, depth, indentSize)[0] == '\n';
    }
  }

  lemma TableNewline(items: seq<Value>, depth: nat, indentSize: nat)
    requires |items| > 0 && forall i :: 0 <= i < |items| ==> items[i].Obj?
    ensures '\n' in EncodeUniformArray(items, depth, indentSize)
  {
    var h := UniformHeader(|items|, Keys(items[0].entries));
    var r := EncodeUniformArray(items, depth, indentSize);
    assert r == h + Join(UniformRows(items, Keys(items[0].entries), Indent(depth, indentSize)), "\n");
    assert r[|h| - 1] == h[|h| - 1] == '\n';
  }

  lemma NonEmptyObjectNewline(entries: seq<Entry>, depth: nat, indentSize: nat)
    requires |entries| > 0
    ensures '\n' in EncodeObject(entries, depth, indentSize)
  {
    assert EncodeObject(entries, depth, indentSize)[0] == '\n';
  }

  /** A one-line value is encoded the same way at every depth and indent width. */
  lemma SingleLineAnyDepth(v: Value, d1: nat, n1: nat, d2: nat, n2: nat)
    requires !IsMultiLine(v)
    ensures EncodeValue(v, d1, n1) == EncodeValue(v, d2, n2)
  {
  }

  /** Non-empty objects and non-tabular arrays start on a fresh line; tables start with `[`. */
  lemma ContainerStart(v: Value, depth: nat, indentSize: nat)
    requires v.Arr? || v.Obj?
    requires IsMultiLine(v)
    ensures var r := EncodeValue(v, depth, indentSize);
      |r| > 0 && (r[0] == '[' <==> v.Arr? && IsUniformObjectArray(v.items))
      && (r[0] == '\n' <==> !(v.Arr? && IsUniformObjectArray(v.items)))
  {
    if v.Arr? && IsUniformObjectArray(v.items) {
      UniformIff(v.items);
    }
  }

  /** The header line holds no newline when no field name does. */
  lemma HeaderLinePlain(count: nat, fields: seq<string>)
    requires forall j :: 0 <= j < |fields| ==> '\n' !in fields[j]
    ensures '\n' !in HeaderLine(count, fields)
  {
    JoinAvoids(fields, ",", '\n');
    var d := NatToString(count);
    assert forall i :: 0 <= i < |d| ==> IsDigit(d[i]);
  }

  /**
   * A table of N objects, when no field name and no cell holds a newline,
   * is N + 1 lines: the header `[N]{f1,...,fk}:` with the first object's
   * keys in insertion order, then for each object in order the caller's
   * indent and its cells joined by commas in header order.
   */
  lemma UniformLayout(arr: seq<Value>, depth: nat, indentSize: nat)
    requires IsUniformObjectArray(arr)
    requires forall j :: 0 <= j < |Keys(arr[0].entries)| ==> '\n' !in Keys(arr[0].entries)[j]
    requires forall i, j :: 0 <= i < |arr| && 0 <= j < |Keys(arr[0].entries)| && arr[i].Obj? ==>
      '\n' !in Cell(Lookup(arr[i].entries, Keys(arr[0].entries)[j]))
    ensures var fields := Keys(arr[0].entries);
      var lines := Split(EncodeValue(Arr(arr), depth, indentSize));
      |lines| == |arr| + 1
      && lines[0] == HeaderLine(|arr|, fields)
      && (forall i :: 0 <= i < |arr| ==>
            arr[i].Obj? && lines[i + 1] == Indent(depth, indentSize) + Join(RowCells(arr[i].entries, fields), ","))
  {
    UniformIff(arr);
    var fields := Keys(arr[0].entries);
    var indent := Indent(depth, indentSize);
    var rows := UniformRows(arr, fields, indent);
    HeaderLinePlain(|arr|, fields);
    forall i | 0 <= i < |arr| ensures '\n' !in rows[i] {
      JoinAvoids(RowCells(arr[i].entries, fields), ",", '\n');
    }
    SplitJoin(rows);
    SplitAtNewline(HeaderLine(|arr|, fields), Join(rows, "\n"));
    assert EncodeValue(Arr(arr), depth, indentSize) == HeaderLine(|arr|, fields) + "\n" + Join(rows, "\n");
  }

  /**
   * Every object of a table has every header field, so each cell is the
   * cell of one of that object's own entries: none is blank for lack of a key.
   */
  lemma UniformCells(arr: seq<Value>, i: nat, j: nat)
    requires IsUniformObjectArray(arr)
    requires i < |arr| && j < |Keys(arr[0].entries)|
    ensures arr[i].Obj?
    ensures var fields := Keys(arr[0].entries);
      exists k :: 0 <= k < |arr[i].entries| && arr[i].entries[k].key == fields[j]
        && RowCells(arr[i].entries, fields)[j] == Cell(arr[i].entries[k].value)
  {
    UniformIff(arr);
    var fields := Keys(arr[0].entries);
    assert fields[j] in multiset(Keys(arr[i].entries));
  }

  /**
   * A non-empty array that is not a table, when every element fits on one
   * line, is an empty first line and then, per element in order, the
   * caller's indent, `- `, and the element's encoding.
   */
  lemma BulletLayout(arr: seq<Value>, depth: nat, indentSize: nat)
    requires |arr| > 0 && !IsUniformObjectArray(arr)
    requires forall i :: 0 <= i < |arr| ==> !IsMultiLine(arr[i])
    ensures var lines := Split(EncodeValue(Arr(arr), depth, indentSize));
      |lines| == |arr| + 1 && lines[0] == ""
      && forall i :: 0 <= i < |arr| ==>
           lines[i + 1] == Indent(depth, indentSize) + "- " + EncodeValue(arr[i], depth + 1, indentSize)
  {
    var items := BulletItems(arr, depth, indentSize);
    forall i | 0 <= i < |arr| ensures '\n' !in items[i] {
      MultiLineIff(arr[i], depth + 1, indentSize);
    }
    SplitJoin(items);
    SplitAtNewline("", Join(items, "\n"));
    assert "" + "\n" + Join(items, "\n") == EncodeValue(Arr(arr), depth, indentSize);
  }

  /** An entry reads `key: value` for a one-line value and `key:value` otherwise. */
  lemma EntrySeparator(indent: string, key: string, v: Value, depth: nat, indentSize: nat)
    ensures var e := EncodeValue(v, depth + 1, indentSize);
      EntryLine(indent, key, e) == indent + key + (if IsMultiLine(v) then ":" else ": ") + e
  {
    MultiLineIff(v, depth + 1, indentSize);
  }

  /**
   * A non-empty object whose keys and values fit on one line is an empty
   * first line, then one `key: value` line per entry in insertion order at
   * the caller's indent, each value encoded one level deeper.
   */
  lemma ObjectLayout(entries: seq<Entry>, depth: nat, indentSize: nat)
    requires |entries| > 0
    requires forall i :: 0 <= i < |entries| ==> '\n' !in entries[i].key && !IsMultiLine(entries[i].value)
    ensures var lines := Split(EncodeValue(Obj(entries), depth, indentSize));
      |lines| == |entries| + 1 && lines[0] == ""
      && forall i :: 0 <= i < |entries| ==>
           lines[i + 1] == Indent(depth, indentSize) + entries[i].key + ": "
                           + EncodeValue(entries[i].value, depth + 1, indentSize)
  {
    var ls := EntryLines(entries, depth, indentSize);
    forall i | 0 <= i < |entries|
      ensures '\n' !in ls[i]
      ensures ls[i] == Indent(depth, indentSize) + entries[i].key + ": "
                       + EncodeValue(entries[i].value, depth + 1, indentSize)
    {
      MultiLineIff(entries[i].value, depth + 1, indentSize);
    }
    SplitJoin(ls);
    SplitAtNewline("", Join(ls, "\n"));
    assert "" + "\n" + Join(ls, "\n") == EncodeValue(Obj(entries), depth, indentSize);
  }

  /** `indentSize` defaults to 2 and token counting to off. */
  lemma DefaultOptions(v: Value, jsonText: string, formatSavings: (nat, nat) -> string)
    ensures EncodeToToon(v, Options(None, None), jsonText, formatSavings) == EncodeValue(v, 0, 2)
  {
  }

  /** With token counting off, the output is the encoding alone. */
  lemma PlainLayout(v: Value, options: Options, jsonText: string, formatSavings: (nat, nat) -> string)
    requires !IncludesTokenCount(options)
    ensures EncodeToToon(v, options, jsonText, formatSavings) == EncodeValue(v, 0, IndentSizeOf(options))
  {
  }

  /**
   * With token counting on, the output is one `#` comment line, its
   * newline, and then exactly the encoding without the comment; the comment
   * reports the estimate for that encoding.
   */
  lemma BannerLayout(v: Value, options: Options, jsonText: string, formatSavings: (nat, nat) -> string)
    requires IncludesTokenCount(options)
    requires forall a: nat, b: nat :: '\n' !in formatSavings(a, b)
    ensures var plain := EncodeValue(v, 0, IndentSizeOf(options));
      var out := EncodeToToon(v, options, jsonText, formatSavings);
      var banner := Banner(EstimateTokens(plain), formatSavings(EstimateTokens(jsonText), EstimateTokens(plain)));
      out == banner + "\n" + plain && '\n' !in banner && banner[0] == '#'
      && Split(out) == [banner] + Split(plain)
  {
    var plain := EncodeValue(v, 0, IndentSizeOf(options));
    var tokens := EstimateTokens(plain);
    var savings := formatSavings(EstimateTokens(jsonText), tokens);
    BannerOneLine(tokens, savings);
    SplitAtNewline(Banner(tokens, savings), plain);
  }

  /** The banner is one comment line. */
  lemma BannerOneLine(tokens: nat, savings: string)
    requires '\n' !in savings
    ensures var banner := Banner(tokens, savings); '\n' !in banner && |banner| > 0 && banner[0] == '#'
  {
    var d := NatToString(tokens);
    assert forall i :: 0 <= i < |d| ==> IsDigit(d[i]);
    assert '\n' !in d;
    var p0, p1, p2 := "# TOON Format - Estimated ", " tokens (", "% savings vs JSON)";
    assert '\n' !in p0 && '\n' !in p1 && '\n' !in p2;
    assert Banner(tokens, savings) == p0 + d + p1 + savings + p2;
  }

  /** Under a key, a multi-line value follows `key:` with no space. */
  lemma MultiLineUnderKey(key: string, v: Value, depth: nat, indentSize: nat)
    requires IsMultiLine(v)
    ensures EncodeValue(Obj([Entry(key, v)]), depth, indentSize)
         == "\n" + (Indent(depth, indentSize) + key + ":" + EncodeValue(v, depth + 1, indentSize))
  {
    MultiLineIff(v, depth + 1, indentSize);
    var ls := EntryLines([Entry(key, v)], depth, indentSize);
    assert ls == [Indent(depth, indentSize) + key + ":" + EncodeValue(v, depth + 1, indentSize)];
  }

  /** The encoding is not injective: a string can encode like a literal. */
  lemma NotInjective(depth: nat, indentSize: nat)
    ensures EncodeValue(Str("null"), depth, indentSize) == EncodeValue(Null, depth, indentSize)
    ensures EncodeValue(Str("true"), depth, indentSize) == EncodeValue(Bool(true), depth, indentSize)
    ensures EncodeValue(Str("42"), depth, indentSize) == EncodeValue(Num(42), depth, indentSize)
  {
    assert !NeedsQuoting("null") && !NeedsQuoting("true") && !NeedsQuoting("42");
    assert DigitChar(4) == '4' && DigitChar(2) == '2';
    assert NatToString(42) == NatToString(4) + [DigitChar(2)] == "42";
  }
}
