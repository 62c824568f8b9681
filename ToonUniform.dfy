/**
 * `isUniformObjectArray`: an array qualifies for the tabular layout when it
 * is non-empty, every element is a plain object, and each element's sorted
 * key list equals the first element's. JavaScript sorts keys by UTF-16 code
 * units; here they are sorted by code point. Only the equality of two sorted
 * lists is ever used, and `SortVerdictAnyOrder` shows that every
 * antisymmetric order gives the same verdict.
 */
module ToonUniform {
  import opened ToonValue

  /** Lexicographic order on strings. */
  predicate LexLessEq(a: string, b: string)
    decreases |a|
  {
    |a| == 0 || (|b| > 0 && (a[0] < b[0] || (a[0] == b[0] && LexLessEq(a[1..], b[1..]))))
  }

  lemma LexTotal(a: string, b: string)
    ensures LexLessEq(a, b) || LexLessEq(b, a)
    decreases |a|
  {
    if |a| > 0 && |b| > 0 && a[0] == b[0] {
      LexTotal(a[1..], b[1..]);
    }
  }

  lemma LexAntisymmetric(a: string, b: string)
    requires LexLessEq(a, b) && LexLessEq(b, a)
    ensures a == b
    decreases |a|
  {
    if |a| > 0 {
      LexAntisymmetric(a[1..], b[1..]);
      assert a == [a[0]] + a[1..] && b == [b[0]] + b[1..];
    }
  }

  lemma LexTransitive(a: string, b: string, c: string)
    requires LexLessEq(a, b) && LexLessEq(b, c)
    ensures LexLessEq(a, c)
    decreases |a|
  {
    if |a| > 0 && a[0] == b[0] && b[0] == c[0] {
      LexTransitive(a[1..], b[1..], c[1..]);
    }
  }

  /** Sorted by code point: the order the model's `.sort()` uses. */
  predicate Sorted(s: seq<string>)
  {
    SortedBy(LexLessEq, s)
  }

  /** Places `x` in a sorted list. */
  function Insert(x: string, s: seq<string>): (r: seq<string>)
    requires Sorted(s)
    ensures Sorted(r)
    ensures multiset(r) == multiset(s) + multiset{x}
  {
    if |s| == 0 then [x]
    else if LexLessEq(x, s[0]) then
      InsertFront(x, s);
      [x] + s
    else
      var rest := Insert(x, s[1..]);
      InsertBehind(x, s, rest);
      [s[0]] + rest
  }

  lemma InsertFront(x: string, s: seq<string>)
    requires Sorted(s) && |s| > 0 && LexLessEq(x, s[0])
    ensures Sorted([x] + s)
  {
    forall j | 0 < j < |s| ensures LexLessEq(x, s[j]) {
      LexTransitive(x, s[0], s[j]);
    }
  }

  lemma InsertBehind(x: string, s: seq<string>, rest: seq<string>)
    requires Sorted(s) && |s| > 0 && !LexLessEq(x, s[0])
    requires Sorted(rest) && multiset(rest) == multiset(s[1..]) + multiset{x}
    ensures Sorted([s[0]] + rest)
    ensures multiset([s[0]] + rest) == multiset(s) + multiset{x}
  {
    LexTotal(x, s[0]);
    assert s == [s[0]] + s[1..];
    forall k | 0 <= k < |rest| ensures LexLessEq(s[0], rest[k]) {
      assert rest[k] in multiset(rest);
      if rest[k] != x {
        assert rest[k] in multiset(s[1..]);
        var m :| 0 <= m < |s[1..]| && s[1..][m] == rest[k];
        assert s[m + 1] == rest[k];
      }
    }
  }

  /** `keys.sort()`: a sorted rearrangement of the keys. */
  function SortKeys(s: seq<string>): (r: seq<string>)
    ensures Sorted(r)
    ensures multiset(r) == multiset(s)
  {
    if |s| == 0 then []
    else
      assert s == [s[0]] + s[1..];
      Insert(s[0], SortKeys(s[1..]))
  }

  lemma MultisetRemove<T>(s: seq<T>, j: nat)
    requires j < |s|
    ensures multiset(s[..j] + s[j + 1..]) == multiset(s) - multiset{s[j]}
  {
    assert s == s[..j] + [s[j]] + s[j + 1..];
  }

  /** An order in which two strings that compare both ways are equal. */
  ghost predicate Antisymmetric(le: (string, string) -> bool)
  {
    forall x, y :: le(x, y) && le(y, x) ==> x == y
  }

  /** `s` is in ascending order under `le`. */
  predicate SortedBy(le: (string, string) -> bool, s: seq<string>)
  {
    forall i, j :: 0 <= i < j < |s| ==> le(s[i], s[j])
  }

  /** Sorted lists with the same elements start with the same element. */
  lemma SortedHeads(le: (string, string) -> bool, a: seq<string>, b: seq<string>)
    requires Antisymmetric(le) && SortedBy(le, a) && SortedBy(le, b)
    requires |a| > 0 && |b| > 0 && multiset(a) == multiset(b)
    ensures a[0] == b[0]
  {
    assert a[0] in multiset(b);
    var j :| 0 <= j < |b| && b[j] == a[0];
    assert b[0] in multiset(a);
    var k :| 0 <= k < |a| && a[k] == b[0];
    if j > 0 && k > 0 {
      assert le(b[0], a[0]) && le(a[0], b[0]);
    }
  }

  lemma SortedTail(le: (string, string) -> bool, s: seq<string>)
    requires SortedBy(le, s) && |s| > 0
    ensures SortedBy(le, s[1..])
  {
    forall i, j | 0 <= i < j < |s| - 1 ensures le(s[1..][i], s[1..][j]) {
      assert s[1..][i] == s[i + 1] && s[1..][j] == s[j + 1];
    }
  }

  lemma TailMultisets(a: seq<string>, b: seq<string>)
    requires |a| > 0 && |b| > 0 && a[0] == b[0] && multiset(a) == multiset(b)
    ensures multiset(a[1..]) == multiset(b[1..])
  {
    assert a == [a[0]] + a[1..] && b == [b[0]] + b[1..];
    assert multiset(a) == multiset{a[0]} + multiset(a[1..]);
    assert multiset(b) == multiset{a[0]} + multiset(b[1..]);
    assert multiset(a[1..]) == multiset(a) - multiset{a[0]};
    assert multiset(b[1..]) == multiset(b) - multiset{a[0]};
  }

  /**
   * Under any antisymmetric order, two sorted lists with the same elements
   * are the same list.
   */
  lemma {:induction false} SortedUniqueBy(le: (string, string) -> bool, a: seq<string>, b: seq<string>)
    requires Antisymmetric(le) && SortedBy(le, a) && SortedBy(le, b)
    requires multiset(a) == multiset(b)
    ensures a == b
    decreases |a|
  {
    assert |a| == |multiset(a)| == |multiset(b)| == |b|;
    if |a| > 0 {
      SortedHeads(le, a, b);
      TailMultisets(a, b);
      SortedTail(le, a);
      SortedTail(le, b);
      SortedUniqueBy(le, a[1..], b[1..]);
      assert a == [a[0]] + a[1..] && b == [b[0]] + b[1..];
    }
  }

  /** The model's order is one such order. */
  lemma LexIsAntisymmetric()
    ensures Antisymmetric(LexLessEq)
  {
    forall x, y | LexLessEq(x, y) && LexLessEq(y, x) ensures x == y {
      LexAntisymmetric(x, y);
    }
  }

  /** Two lists sorted by code point with the same elements are the same list. */
  lemma SortedUnique(a: seq<string>, b: seq<string>)
    requires Sorted(a) && Sorted(b)
    requires multiset(a) == multiset(b)
    ensures a == b
  {
    LexIsAntisymmetric();
    SortedUniqueBy(LexLessEq, a, b);
  }

  /**
   * Whatever antisymmetric order a sort uses, comparing two sorted key
   * lists tells whether the keys are the same up to order: the verdict
   * of the classifier does not depend on the order.
   */
  lemma SortVerdictAnyOrder(le: (string, string) -> bool, a: seq<string>, b: seq<string>,
                            sa: seq<string>, sb: seq<string>)
    requires Antisymmetric(le) && SortedBy(le, sa) && SortedBy(le, sb)
    requires multiset(sa) == multiset(a) && multiset(sb) == multiset(b)
    ensures sa == sb <==> multiset(a) == multiset(b)
  {
    if multiset(a) == multiset(b) {
      SortedUniqueBy(le, sa, sb);
    }
  }

  /** Sorting identifies exactly the lists with the same elements. */
  lemma SortKeysEqual(a: seq<string>, b: seq<string>)
    ensures SortKeys(a) == SortKeys(b) <==> multiset(a) == multiset(b)
  {
    if multiset(a) == multiset(b) {
      SortedUnique(SortKeys(a), SortKeys(b));
    }
  }

  /** The test `arr.every` applies to one item: a plain object whose sorted keys are `firstKeys`. */
  predicate HasSortedKeys(item: Value, firstKeys: seq<string>)
  {
    item.Obj? && SortKeys(Keys(item.entries)) == firstKeys
  }

  /** `arr.every(...)` */
  predicate EveryHasKeys(items: seq<Value>, firstKeys: seq<string>)
    decreases |items|
  {
    |items| == 0 || (HasSortedKeys(items[0], firstKeys) && EveryHasKeys(items[1..], firstKeys))
  }

  /** `isUniformObjectArray(arr)` */
  predicate IsUniformObjectArray(arr: seq<Value>)
  {
    |arr| > 0 && arr[0].Obj? && EveryHasKeys(arr, SortKeys(Keys(arr[0].entries)))
  }

  lemma {:induction false} EveryHasKeysIff(items: seq<Value>, firstKeys: seq<string>)
    ensures EveryHasKeys(items, firstKeys) <==>
      forall i :: 0 <= i < |items| ==> HasSortedKeys(items[i], firstKeys)
    decreases |items|
  {
    if |items| > 0 {
      var rest := items[1..];
      EveryHasKeysIff(rest, firstKeys);
      assert EveryHasKeys(items, firstKeys) <==> HasSortedKeys(items[0], firstKeys) && EveryHasKeys(rest, firstKeys);
      assert forall i :: 1 <= i < |items| ==> items[i] == rest[i - 1];
    }
  }

  /** Two objects share their key lists up to order. */
  predicate SameKeys(a: seq<Entry>, b: seq<Entry>)
  {
    multiset(Keys(a)) == multiset(Keys(b))
  }

  /**
   * The classifier holds exactly when the array is non-empty, every element
   * is an object, and every element has the first element's keys, counted
   * with multiplicity and in any order.
   */
  lemma UniformIff(arr: seq<Value>)
    ensures IsUniformObjectArray(arr) <==>
      |arr| > 0
      && (forall i :: 0 <= i < |arr| ==> arr[i].Obj?)
      && (forall i :: 0 <= i < |arr| ==> arr[i].Obj? && arr[0].Obj? && SameKeys(arr[i].entries, arr[0].entries))
  {
    if |arr| > 0 && arr[0].Obj? {
      var first := SortKeys(Keys(arr[0].entries));
      EveryHasKeysIff(arr, first);
      forall i | 0 <= i < |arr| && arr[i].Obj?
        ensures HasSortedKeys(arr[i], first) <==> SameKeys(arr[i].entries, arr[0].entries)
      {
        SortKeysEqual(Keys(arr[i].entries), Keys(arr[0].entries));
      }
    }
  }

  /** Without duplicates an element occurs once or not at all. */
  lemma {:induction false} NoDuplicatesCount(s: seq<string>, x: string)
    requires NoDuplicates(s)
    ensures multiset(s)[x] == if x in s then 1 else 0
  {
    if |s| > 0 {
      assert s == [s[0]] + s[1..];
      NoDuplicatesCount(s[1..], x);
    }
  }

  /** For keys without duplicates, equal key sets and equal key multisets agree. */
  lemma SameKeysIffKeySets(a: seq<Entry>, b: seq<Entry>)
    requires NoDuplicates(Keys(a)) && NoDuplicates(Keys(b))
    ensures SameKeys(a, b) <==> KeySet(a) == KeySet(b)
  {
    if KeySet(a) == KeySet(b) {
      forall x ensures multiset(Keys(a))[x] == multiset(Keys(b))[x] {
        NoDuplicatesCount(Keys(a), x);
        NoDuplicatesCount(Keys(b), x);
        assert x in Keys(a) <==> x in KeySet(a);
        assert x in Keys(b) <==> x in KeySet(b);
      }
    }
    if SameKeys(a, b) {
      forall x ensures x in KeySet(a) <==> x in KeySet(b) {
        assert x in Keys(a) <==> x in multiset(Keys(a));
        assert x in Keys(b) <==> x in multiset(Keys(b));
      }
    }
  }

  /**
   * For well-formed elements the classifier holds exactly when the array is
   * non-empty, every element is an object, and every element's key set is
   * the first element's key set.
   */
  lemma UniformIffKeySets(arr: seq<Value>)
    requires forall i :: 0 <= i < |arr| ==> WellFormed(arr[i])
    ensures IsUniformObjectArray(arr) <==>
      |arr| > 0
      && (forall i :: 0 <= i < |arr| ==> arr[i].Obj?)
      && (forall i :: 0 <= i < |arr| ==> arr[i].Obj? && arr[0].Obj? && KeySet(arr[i].entries) == KeySet(arr[0].entries))
  {
    UniformIff(arr);
    if |arr| > 0 && forall i :: 0 <= i < |arr| ==> arr[i].Obj? {
      forall i | 0 <= i < |arr|
        ensures SameKeys(arr[i].entries, arr[0].entries) <==> KeySet(arr[i].entries) == KeySet(arr[0].entries)
      {
        SameKeysIffKeySets(arr[i].entries, arr[0].entries);
      }
    }
  }

  /** Rearranging the entries of an object rearranges its keys the same way. */
  lemma {:induction false} KeysPermutation(a: seq<Entry>, b: seq<Entry>)
    requires multiset(a) == multiset(b)
    ensures multiset(Keys(a)) == multiset(Keys(b))
    decreases |a|
  {
    if |a| == 0 {
      assert |b| == |multiset(b)| == 0;
    } else {
      assert a[0] in multiset(a);
      var j := FindIn(b, a[0]);
      RemoveMatching(a, b, j);
      KeysPermutation(a[1..], b[..j] + b[j + 1..]);
      KeysMatching(a, b, j);
    }
  }

  lemma KeysMatching(a: seq<Entry>, b: seq<Entry>, j: nat)
    requires |a| > 0 && j < |b| && b[j] == a[0]
    requires multiset(Keys(a[1..])) == multiset(Keys(b[..j] + b[j + 1..]))
    ensures multiset(Keys(a)) == multiset(Keys(b))
  {
    KeysHead(a);
    KeysRemove(b, j);
  }

  lemma KeysHead(e: seq<Entry>)
    requires |e| > 0
    ensures multiset(Keys(e)) == multiset(Keys(e[1..])) + multiset{e[0].key}
  {
    assert Keys(e) == [e[0].key] + Keys(e[1..]);
  }

  /** The position of an element of the multiset of `s`. */
  lemma FindIn(s: seq<Entry>, x: Entry) returns (j: nat)
    requires x in multiset(s)
    ensures j < |s| && s[j] == x
  {
    j :| 0 <= j < |s| && s[j] == x;
  }

  lemma RemoveMatching(a: seq<Entry>, b: seq<Entry>, j: nat)
    requires |a| > 0 && j < |b| && b[j] == a[0] && multiset(a) == multiset(b)
    ensures multiset(a[1..]) == multiset(b[..j] + b[j + 1..])
  {
    assert a == [a[0]] + a[1..];
    assert multiset(a[1..]) == multiset(a) - multiset{a[0]};
    MultisetRemove(b, j);
  }

  lemma KeysRemove(e: seq<Entry>, j: nat)
    requires j < |e|
    ensures multiset(Keys(e)) == multiset(Keys(e[..j] + e[j + 1..])) + multiset{e[j].key}
  {
    var ks := Keys(e);
    assert Keys(e[..j] + e[j + 1..]) == ks[..j] + ks[j + 1..];
    MultisetRemove(ks, j);
  }

  /** Reordering the keys inside any element does not change the verdict. */
  lemma ReorderInvariant(arr: seq<Value>, arr': seq<Value>)
    requires |arr'| == |arr|
    requires forall i :: 0 <= i < |arr| ==>
      arr'[i] == arr[i] || (arr[i].Obj? && arr'[i].Obj? && multiset(arr'[i].entries) == multiset(arr[i].entries))
    ensures IsUniformObjectArray(arr') == IsUniformObjectArray(arr)
  {
    UniformIff(arr);
    UniformIff(arr');
    forall i | 0 <= i < |arr| && arr[i].Obj?
      ensures multiset(Keys(arr'[i].entries)) == multiset(Keys(arr[i].entries))
    {
      if arr'[i] != arr[i] {
        KeysPermutation(arr'[i].entries, arr[i].entries);
      }
    }
  }
}
