/**
 * The values the TOON encoder accepts: the JSON value tree plus
 * `undefined`, with integers for numbers. An object is its list of
 * entries in insertion order, which is the order `Object.keys` and
 * `Object.entries` report for non-numeric keys.
 */
module ToonValue {
  import opened JsText

  datatype Value =
    | Null
    | Undefined
    | Bool(b: bool)
    | Num(n: int)
    | Str(s: string)
    | Arr(items: seq<Value>)
    | Obj(entries: seq<Entry>)

  datatype Entry = Entry(key: string, value: Value)

  /** `Object.keys(obj)`: the keys in insertion order. */
  function Keys(entries: seq<Entry>): seq<string>
  {
    seq(|entries|, i requires 0 <= i < |entries| => entries[i].key)
  }

  /** The set of keys of an object. */
  function KeySet(entries: seq<Entry>): set<string>
  {
    set k | k in Keys(entries)
  }

  predicate NoDuplicates(s: seq<string>)
  {
    forall i, j :: 0 <= i < j < |s| ==> s[i] != s[j]
  }

  /** A JavaScript object has each key once, at every level of the tree. */
  predicate WellFormed(v: Value)
    decreases v
  {
    match v
    case Arr(items) => forall i :: 0 <= i < |items| ==> WellFormed(items[i])
    case Obj(entries) =>
      NoDuplicates(Keys(entries))
      && forall i :: 0 <= i < |entries| ==> WellFormed(entries[i].value)
    case _ => true
  }

  /** `obj[key]`: the value stored under `key`, or `undefined` when the key is absent. */
  function Lookup(entries: seq<Entry>, key: string): (r: Value)
    ensures key !in Keys(entries) ==> r == Undefined
    ensures key in Keys(entries) ==> exists i :: 0 <= i < |entries| && entries[i].key == key && r == entries[i].value
  {
    if |entries| == 0 then Undefined
    else if entries[0].key == key then
      assert Keys(entries)[0] == key;
      entries[0].value
    else
      assert Keys(entries) == [entries[0].key] + Keys(entries[1..]);
      var r := Lookup(entries[1..], key);
      assert forall i :: 0 <= i < |entries| - 1 ==> entries[1..][i] == entries[i + 1];
      r
  }

  /** With unique keys, `obj[key]` is the value of the one entry carrying `key`. */
  lemma {:induction false} LookupUnique(entries: seq<Entry>, i: nat)
    requires NoDuplicates(Keys(entries))
    requires i < |entries|
    ensures Lookup(entries, entries[i].key) == entries[i].value
  {
    if i > 0 {
      assert Keys(entries)[0] == entries[0].key && Keys(entries)[i] == entries[i].key;
      assert Keys(entries[1..]) == Keys(entries)[1..];
      LookupUnique(entries[1..], i - 1);
    }
  }

  /**
   * `String(value)`: JavaScript's conversion to a string. An array is
   * its elements joined by commas, with `null` and `undefined` elements
   * as empty text; an object without a `toString` entry is `[object Object]`.
   */
  function JsToString(v: Value): string
    decreases v
  {
    match v
    case Null => "null"
    case Undefined => "undefined"
    case Bool(b) => if b then "true" else "false"
    case Num(n) => IntToString(n)
    case Str(s) => s
    case Arr(items) =>
      Join(seq(|items|, i requires 0 <= i < |items| =>
             if items[i].Null? || items[i].Undefined? then "" else JsToString(items[i])), ",")
    case Obj(_) => "[object Object]"
  }
}
