/**
 * Worked encodings. They pin down the exact text the encoder produces,
 * including where it differs from the example in the header comment of
 * src/lib/ai-agent/toon.ts (no `items` prefix at the top level, rows at the
 * caller's indent, no space after `key:` before a table). Strings are left
 * as parameters with the stated properties.
 */
module ToonExamples {
  import opened JsText
  import opened ToonValue
  import opened ToonEscape
  import opened ToonUniform
  import opened ToonEncoder
  import ToonLayout

  /** `[{id: 1, name: a}, {id: 2, name: b}]` */
  function Users(a: string, b: string): Value
  {
    Arr([Obj([Entry("id", Num(1)), Entry("name", Str(a))]),
         Obj([Entry("id", Num(2)), Entry("name", Str(b))])])
  }

  lemma UsersUniform(a: string, b: string)
    ensures IsUniformObjectArray(Users(a, b).items)
    ensures Keys(Users(a, b).items[0].entries) == ["id", "name"]
  {
    var k := ["id", "name"];
    assert Keys(Users(a, b).items[0].entries) == k;
    assert Keys(Users(a, b).items[1].entries) == k;
    assert LexLessEq("id", "name");
    assert SortKeys(k) == k;
  }

  lemma UserRow(id: nat, name: string, indent: string)
    requires id < 10 && !NeedsQuoting(name)
    ensures UniformRow([Entry("id", Num(id)), Entry("name", Str(name))], ["id", "name"], indent)
         == indent + [DigitChar(id)] + "," + name
  {
    var e := [Entry("id", Num(id)), Entry("name", Str(name))];
    assert Cell(Num(id)) == [DigitChar(id)];
    assert Cell(Str(name)) == name;
    assert Lookup(e, "id") == Num(id) && Lookup(e, "name") == Str(name);
    assert RowCells(e, ["id", "name"]) == [[DigitChar(id)], name];
    assert Join([[DigitChar(id)], name], ",") == [DigitChar(id)] + "," + name;
  }

  lemma UsersHeader()
    ensures UniformHeader(2, ["id", "name"]) == "[2]{id,name}:\n"
  {
    assert NatToString(2) == "2";
    assert Join(["id", "name"], ",") == "id,name";
  }

  lemma UsersIsTable(a: string, b: string, depth: nat, indentSize: nat)
    ensures EncodeValue(Users(a, b), depth, indentSize) == EncodeUniformArray(Users(a, b).items, depth, indentSize)
  {
    UsersUniform(a, b);
  }

  lemma UsersPieces(a: string, b: string, depth: nat, indentSize: nat)
    ensures EncodeUniformArray(Users(a, b).items, depth, indentSize)
         == UniformHeader(2, ["id", "name"])
            + Join(UniformRows(Users(a, b).items, ["id", "name"], Indent(depth, indentSize)), "\n")
  {
    UsersUniform(a, b);
  }

  lemma UsersRows(a: string, b: string, indent: string)
    requires !NeedsQuoting(a) && !NeedsQuoting(b)
    ensures UniformRows(Users(a, b).items, ["id", "name"], indent) == [indent + "1," + a, indent + "2," + b]
  {
    UserRow(1, a, indent);
    UserRow(2, b, indent);
    assert DigitChar(1) == '1' && DigitChar(2) == '2';
    assert indent + [DigitChar(1)] + "," + a == indent + "1," + a;
    assert indent + [DigitChar(2)] + "," + b == indent + "2," + b;
  }

  lemma JoinTwo(x: string, y: string)
    ensures Join([x, y], "\n") == x + "\n" + y
  {
  }

  /** Two users at any depth: the header, then each row at the caller's own indent. */
  lemma UsersTable(a: string, b: string, depth: nat, indentSize: nat)
    requires !NeedsQuoting(a) && !NeedsQuoting(b)
    ensures EncodeValue(Users(a, b), depth, indentSize)
         == "[2]{id,name}:\n" + (Indent(depth, indentSize) + "1," + a) + "\n" + (Indent(depth, indentSize) + "2," + b)
  {
    var indent := Indent(depth, indentSize);
    UsersIsTable(a, b, depth, indentSize);
    UsersPieces(a, b, depth, indentSize);
    UsersRows(a, b, indent);
    UsersHeader();
    JoinTwo(indent + "1," + a, indent + "2," + b);
  }

  /** At the top level no name precedes the header and the rows carry no indent, whatever the indent width. */
  lemma UsersTopLevel(a: string, b: string, options: Options, jsonText: string, formatSavings: (nat, nat) -> string)
    requires !NeedsQuoting(a) && !NeedsQuoting(b)
    requires !IncludesTokenCount(options)
    ensures EncodeToToon(Users(a, b), options, jsonText, formatSavings)
         == "[2]{id,name}:\n1," + a + "\n2," + b
  {
    var n := IndentSizeOf(options);
    ToonLayout.PlainLayout(Users(a, b), options, jsonText, formatSavings);
    UsersAtTop(a, b, n);
  }

  lemma UsersAtTop(a: string, b: string, indentSize: nat)
    requires !NeedsQuoting(a) && !NeedsQuoting(b)
    ensures EncodeValue(Users(a, b), 0, indentSize) == "[2]{id,name}:\n1," + a + "\n2," + b
  {
    UsersTable(a, b, 0, indentSize);
    assert Indent(0, indentSize) == "";
  }

  /** An object of one entry is a newline and that entry's line. */
  lemma SingleEntry(key: string, v: Value, depth: nat, indentSize: nat)
    ensures EncodeValue(Obj([Entry(key, v)]), depth, indentSize)
         == "\n" + EntryLine(Indent(depth, indentSize), key, EncodeValue(v, depth + 1, indentSize))
  {
    var ls := EntryLines([Entry(key, v)], depth, indentSize);
    assert ls == [EntryLine(Indent(depth, indentSize), key, EncodeValue(v, depth + 1, indentSize))];
  }

  /** Under a key the table follows `items:` with no space; its rows sit one level in. */
  lemma UsersUnderKey(a: string, b: string, indentSize: nat)
    requires !NeedsQuoting(a) && !NeedsQuoting(b)
    ensures EncodeValue(Obj([Entry("items", Users(a, b))]), 0, indentSize)
         == "\nitems:[2]{id,name}:\n" + (Indent(1, indentSize) + "1," + a) + "\n" + (Indent(1, indentSize) + "2," + b)
  {
    var x, y := Indent(1, indentSize) + "1," + a, Indent(1, indentSize) + "2," + b;
    UsersTable(a, b, 1, indentSize);
    ItemsGlue(x, y);
    TableUnderKey("items", Users(a, b), indentSize, "[2]{id,name}:\n" + x + "\n" + y);
  }

  lemma ItemsGlue(x: string, y: string)
    ensures '\n' in "[2]{id,name}:\n" + x + "\n" + y
    ensures "\n" + "items" + ":" + ("[2]{id,name}:\n" + x + "\n" + y) == "\nitems:[2]{id,name}:\n" + x + "\n" + y
  {
    assert ("[2]{id,name}:\n" + x + "\n" + y)[13] == '\n';
  }

  /** A value that encodes over several lines, as the only entry of a top-level object. */
  lemma TableUnderKey(key: string, v: Value, indentSize: nat, t: string)
    requires EncodeValue(v, 1, indentSize) == t && '\n' in t
    ensures EncodeValue(Obj([Entry(key, v)]), 0, indentSize) == "\n" + key + ":" + t
  {
    SingleEntry(key, v, 0, indentSize);
    TopKeyLine(key, t, indentSize);
  }

  /** At depth 0 an entry whose value spans several lines is `key:` then the value. */
  lemma TopKeyLine(key: string, t: string, indentSize: nat)
    requires '\n' in t
    ensures "\n" + EntryLine(Indent(0, indentSize), key, t) == "\n" + key + ":" + t
  {
    assert Indent(0, indentSize) == "";
    assert EntryLine("", key, t) == key + ":" + t;
  }

  lemma OneFieldTable(key: string, s: string, indentSize: nat)
    ensures EncodeValue(Arr([Obj([Entry(key, Str(s))])]), 0, indentSize)
         == "[1]{" + key + "}:\n" + EscapeCsv(s)
  {
    var e := [Entry(key, Str(s))];
    OneFieldUniform(key, Str(s));
    OneFieldHeader(key);
    assert Indent(0, indentSize) == "";
    assert Lookup(e, key) == Str(s);
    assert RowCells(e, [key]) == [EscapeCsv(s)];
    assert UniformRow(e, [key], "") == EscapeCsv(s);
    assert UniformRows([Obj(e)], [key], "") == [EscapeCsv(s)];
  }

  /** A one-object array is a table over that object's keys. */
  lemma OneFieldUniform(key: string, v: Value)
    ensures IsUniformObjectArray([Obj([Entry(key, v)])]) && Keys([Entry(key, v)]) == [key]
  {
    assert Keys([Entry(key, v)]) == [key];
    assert SortKeys([key]) == [key];
  }

  lemma OneFieldHeader(key: string)
    ensures UniformHeader(1, [key]) == "[1]{" + key + "}:\n"
  {
    assert NatToString(1) == "1";
    assert Join([key], ",") == key;
  }

  /** A cell holding a comma but no quote is wrapped in quotes in its row. */
  lemma CsvCell(key: string, s: string, indentSize: nat)
    requires ',' in s && '"' !in s
    ensures EncodeValue(Arr([Obj([Entry(key, Str(s))])]), 0, indentSize)
         == "[1]{" + key + "}:\n" + ("\"" + s + "\"")
  {
    OneFieldTable(key, s, indentSize);
    EscapeCsvWraps(s);
  }

  /** `[n, s, {key: m}]` for one-digit numbers. */
  function Mixed(n: nat, s: string, key: string, m: nat): seq<Value>
  {
    [Num(n), Str(s), Obj([Entry(key, Num(m))])]
  }

  lemma MixedObject(key: string, m: nat, indentSize: nat)
    requires m < 10
    ensures EncodeValue(Obj([Entry(key, Num(m))]), 1, indentSize)
         == "\n" + (Indent(1, indentSize) + key + ": " + [DigitChar(m)])
  {
    SingleEntry(key, Num(m), 1, indentSize);
    assert EncodeValue(Num(m), 2, indentSize) == [DigitChar(m)];
  }

  /** A mixed array is a bulleted list after a newline; the nested object opens a new line after `- `. */
  lemma MixedArray(n: nat, s: string, key: string, m: nat, indentSize: nat)
    requires n < 10 && m < 10 && !NeedsQuoting(s)
    ensures EncodeValue(Arr(Mixed(n, s, key, m)), 0, indentSize)
         == "\n" + ("- " + [DigitChar(n)] + "\n" + ("- " + s + "\n"
                  + ("- " + ("\n" + (Indent(1, indentSize) + key + ": " + [DigitChar(m)])))))
  {
    var arr := Mixed(n, s, key, m);
    assert !IsUniformObjectArray(arr);
    MixedObject(key, m, indentSize);
    assert Indent(0, indentSize) == "";
    var items := BulletItems(arr, 0, indentSize);
    assert EncodeValue(Num(n), 1, indentSize) == [DigitChar(n)];
    assert items[0] == "- " + [DigitChar(n)];
    assert EncodeValue(Str(s), 1, indentSize) == s;
    assert items[1] == "- " + s;
    assert items[2] == "- " + ("\n" + (Indent(1, indentSize) + key + ": " + [DigitChar(m)]));
    assert items[1..][1..] == [items[2]];
    assert Join(items[1..], "\n") == items[1] + "\n" + items[2];
  }

  /**
   * A table cell holding an array is `String(array)`: the elements joined
   * by commas, a `null` element as nothing. The commas are not quoted, so
   * such a cell reads as several cells of its row.
   */
  lemma ArrayCell(a: int, b: int)
    ensures Cell(Arr([Num(a), Null, Num(b)])) == IntToString(a) + ",," + IntToString(b)
  {
    var items := [Num(a), Null, Num(b)];
    var x, y := IntToString(a), IntToString(b);
    var parts := seq(|items|, i requires 0 <= i < |items| =>
      if items[i].Null? || items[i].Undefined? then "" else JsToString(items[i]));
    assert parts == [x, "", y];
    assert Join([y], ",") == y;
    assert Join(["", y], ",") == "" + "," + y;
    assert [x, "", y][1..] == ["", y];
    assert Join(parts, ",") == x + "," + ("" + "," + y);
    assert x + "," + ("" + "," + y) == x + ",," + y;
  }

  /** A table cell holding an object without a `toString` entry is `[object Object]`. */
  lemma ObjectCell(entries: seq<Entry>)
    requires "toString" !in Keys(entries)
    ensures Cell(Obj(entries)) == "[object Object]"
  {
  }
}
