/**
 * The TOON encoder: `encodeToTOON` and the recursive `encodeTOONValue`,
 * `encodeArray`, `encodeUniformArray` and `encodeObject`. `depth` is the
 * nesting level and `indentSize` the number of spaces per level.
 */
module ToonEncoder {
  import opened Wrappers
  import opened JsText
  import opened ToonValue
  import opened ToonEscape
  import opened ToonUniform
  import opened ToonTokens

  /** `' '.repeat(depth * indentSize)` */
  function Indent(depth: nat, indentSize: nat): string
  {
    Spaces(depth * indentSize)
  }

  /** `encodeTOONValue(value, depth, indentSize)` */
  function EncodeValue(v: Value, depth: nat, indentSize: nat): string
    decreases v, 2
  {
    match v
    case Null => "null"
    case Undefined => "undefined"
    case Str(s) => EscapeString(s)
    case Num(n) => IntToString(n)
    case Bool(b) => if b then "true" else "false"
    case Arr(items) => EncodeArray(items, depth, indentSize)
    case Obj(entries) => EncodeObject(entries, depth, indentSize)
  }

  /** `encodeArray`: `[]`, the tabular layout, or a bulleted list after a newline. */
  function EncodeArray(arr: seq<Value>, depth: nat, indentSize: nat): string
    decreases Arr(arr), 1
  {
    if |arr| == 0 then "[]"
    else if IsUniformObjectArray(arr) then
      UniformIff(arr);
      EncodeUniformArray(arr, depth, indentSize)
    else "\n" + Join(BulletItems(arr, depth, indentSize), "\n")
  }

  /** One line per element: the indent, `- `, and the element one level deeper. */
  function BulletItems(arr: seq<Value>, depth: nat, indentSize: nat): seq<string>
    decreases Arr(arr), 0
  {
    seq(|arr|, i requires 0 <= i < |arr| =>
      Indent(depth, indentSize) + "- " + EncodeValue(arr[i], depth + 1, indentSize))
  }

  /** The header line `[N]{f1,...,fk}:` of a table of `count` rows over `fields`. */
  function HeaderLine(count: nat, fields: seq<string>): string
  {
    "[" + NatToString(count) + "]{" + Join(fields, ",") + "}:"
  }

  /** The header line and its newline. */
  function UniformHeader(count: nat, fields: seq<string>): string
  {
    HeaderLine(count, fields) + "\n"
  }

  /** A table cell: a CSV-quoted string, empty for `null`/`undefined`, else `String(value)`. */
  function Cell(v: Value): string
  {
    if v.Str? then EscapeCsv(v.s)
    else if v.Null? || v.Undefined? then ""
    else JsToString(v)
  }

  /** The cells of one object, in the order of `fields`. */
  function RowCells(entries: seq<Entry>, fields: seq<string>): seq<string>
  {
    seq(|fields|, j requires 0 <= j < |fields| => Cell(Lookup(entries, fields[j])))
  }

  /** One table row: the caller's indent, then the cells joined by commas. */
  function UniformRow(entries: seq<Entry>, fields: seq<string>, indent: string): string
  {
    indent + Join(RowCells(entries, fields), ",")
  }

  /** The rows of a table of objects. */
  function UniformRows(arr: seq<Value>, fields: seq<string>, indent: string): seq<string>
    requires forall i :: 0 <= i < |arr| ==> arr[i].Obj?
  {
    seq(|arr|, i requires 0 <= i < |arr| => UniformRow(arr[i].entries, fields, indent))
  }

  /**
   * `encodeUniformArray`: the header, then one row per object at the
   * caller's own indent; the fields are the first object's keys.
   */
  function EncodeUniformArray(arr: seq<Value>, depth: nat, indentSize: nat): string
    requires forall i :: 0 <= i < |arr| ==> arr[i].Obj?
  {
    if |arr| == 0 then "[]"
    else
      var fields := Keys(arr[0].entries);
      UniformHeader(|arr|, fields) + Join(UniformRows(arr, fields, Indent(depth, indentSize)), "\n")
  }

  /** `key: value` for a one-line value, `key:value` for a value that holds a newline. */
  function EntryLine(indent: string, key: string, encoded: string): string
  {
    if '\n' in encoded then indent + key + ":" + encoded
    else indent + key + ": " + encoded
  }

  /** One line per entry, the value encoded one level deeper. */
  function EntryLines(entries: seq<Entry>, depth: nat, indentSize: nat): seq<string>
    decreases Obj(entries), 0
  {
    seq(|entries|, i requires 0 <= i < |entries| =>
      EntryLine(Indent(depth, indentSize), entries[i].key,
                EncodeValue(entries[i].value, depth + 1, indentSize)))
  }

  /** `encodeObject`: `{}`, or the entry lines after a newline. */
  function EncodeObject(entries: seq<Entry>, depth: nat, indentSize: nat): string
    decreases Obj(entries), 1
  {
    if |entries| == 0 then "{}"
    else "\n" + Join(EntryLines(entries, depth, indentSize), "\n")
  }

  /** `ToonEncoderOptions`: both settings may be absent. */
  datatype Options = Options(indentSize: Option<nat>, includeTokenCount: Option<bool>)

  const DefaultIndentSize: nat := 2

  /** `{ indentSize = 2, includeTokenCount = false } = options` */
  function IndentSizeOf(options: Options): nat
  {
    options.indentSize.GetOr(DefaultIndentSize)
  }

  predicate IncludesTokenCount(options: Options)
  {
    options.includeTokenCount.GetOr(false)
  }

  /** The comment line put in front of the encoding when token counting is on. */
  function Banner(tokens: nat, savings: string): string
  {
    "# TOON Format - Estimated " + NatToString(tokens) + " tokens (" + savings + "% savings vs JSON)"
  }

  /**
   * `encodeToTOON(data, options)`. `jsonText` is `JSON.stringify(data)` and
   * `formatSavings(jsonTokens, tokens)` is the `toFixed(1)` text of the
   * savings percentage; both are computed outside this model.
   */
  function EncodeToToon(v: Value, options: Options, jsonText: string,
                        formatSavings: (nat, nat) -> string): string
  {
    var result := EncodeValue(v, 0, IndentSizeOf(options));
    if IncludesTokenCount(options) then
      var tokens := EstimateTokens(result);
      var jsonTokens := EstimateTokens(jsonText);
      Banner(tokens, formatSavings(jsonTokens, tokens)) + "\n" + result
    else
      result
  }
}
