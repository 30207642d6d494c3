/** The order in which `Object.keys`, `Object.values` and `Object.entries`
    list an ordinary object's string keys (section 10.1.11.1 of ECMA-262,
    OrdinaryOwnPropertyKeys): first the keys that are array indices, in
    ascending numeric order, then the other keys in the order they were
    created. An object is modelled by the list of its keys in creation
    order. */
module ObjectKeys {

  /** Each element of `s` occurs once. */
  ghost predicate Distinct(s: seq<string>)
  {
    forall i, j :: 0 <= i < j < |s| ==> s[i] != s[j]
  }

  predicate IsDigit(c: char)
  {
    '0' <= c <= '9'
  }

  predicate AllDigits(s: string)
  {
    forall i :: 0 <= i < |s| ==> IsDigit(s[i])
  }

  /** The number a string of decimal digits denotes. */
  function DecimalValue(s: string): (n: nat)
    requires AllDigits(s)
    ensures s == [] ==> n == 0
  {
    if s == [] then 0
    else DecimalValue(s[..|s| - 1]) * 10 + (s[|s| - 1] as int - '0' as int)
  }

  /** An array index (section 6.1.7 of ECMA-262): the canonical decimal
      rendering of an integer below 2^32 - 1, so digits only and no leading
      zero except in "0" itself. */
  predicate IsArrayIndex(k: string)
  {
    |k| >= 1 && AllDigits(k) && (k[0] == '0' ==> |k| == 1) && DecimalValue(k) < 0xFFFF_FFFF
  }

  /** The keys of `keys` that are array indices (`index`) or that are not
      (`!index`), in their order. */
  function KeysWhere(keys: seq<string>, index: bool): (r: seq<string>)
    ensures forall k :: k in r <==> k in keys && IsArrayIndex(k) == index
  {
    if keys == [] then []
    else
      var init, last := keys[..|keys| - 1], keys[|keys| - 1];
      assert keys == init + [last];
      if IsArrayIndex(last) == index then KeysWhere(init, index) + [last] else KeysWhere(init, index)
  }

  /** Selecting from two lists is selecting from each. */
  lemma {:induction false} KeysWhereAppend(a: seq<string>, b: seq<string>, index: bool)
    ensures KeysWhere(a + b, index) == KeysWhere(a, index) + KeysWhere(b, index)
    decreases |b|
  {
    if b != [] {
      var init, last := b[..|b| - 1], b[|b| - 1];
      var ab := a + b;
      assert ab[..|ab| - 1] == a + init && ab[|ab| - 1] == last;
      KeysWhereAppend(a, init, index);
      if IsArrayIndex(last) == index {
        calc {
          KeysWhere(ab, index);
          KeysWhere(a + init, index) + [last];
          (KeysWhere(a, index) + KeysWhere(init, index)) + [last];
          { SeqAssoc(KeysWhere(a, index), KeysWhere(init, index), [last]); }
          KeysWhere(a, index) + KeysWhere(b, index);
        }
      } else {
        assert KeysWhere(ab, index) == KeysWhere(a + init, index);
      }
    } else {
      assert a + b == a;
    }
  }

  /** Every key is either an index or not. */
  lemma {:induction false} KeysWhereSplit(keys: seq<string>)
    ensures multiset(KeysWhere(keys, true)) + multiset(KeysWhere(keys, false)) == multiset(keys)
  {
    if keys != [] {
      var init := keys[..|keys| - 1];
      assert keys == init + [keys[|keys| - 1]];
      KeysWhereSplit(init);
    }
  }

  /** Numeric values do not decrease along `s`. */
  ghost predicate Ascending(s: seq<string>)
    requires forall k :: k in s ==> AllDigits(k)
  {
    forall i, j :: 0 <= i < j < |s| ==> DecimalValue(s[i]) <= DecimalValue(s[j])
  }

  /** `k` placed before the first element of `s` with a greater value. */
  function InsertByValue(k: string, s: seq<string>): (r: seq<string>)
    requires AllDigits(k) && forall x :: x in s ==> AllDigits(x)
    ensures forall x :: x in r <==> x == k || x in s
  {
    if s == [] then [k]
    else if DecimalValue(k) <= DecimalValue(s[0]) then [k] + s
    else
      assert s == [s[0]] + s[1..];
      [s[0]] + InsertByValue(k, s[1..])
  }

  /** Inserting keeps a list in ascending order. */
  lemma {:induction false} InsertByValueAscending(k: string, s: seq<string>)
    requires AllDigits(k) && forall x :: x in s ==> AllDigits(x)
    requires Ascending(s)
    ensures Ascending(InsertByValue(k, s))
    decreases |s|
  {
    if s != [] && DecimalValue(k) > DecimalValue(s[0]) {
      var rest := InsertByValue(k, s[1..]);
      InsertByValueAscending(k, s[1..]);
      forall x | x in rest ensures DecimalValue(s[0]) <= DecimalValue(x) {
        if x != k {
          var m :| 0 <= m < |s[1..]| && s[1..][m] == x;
          assert s[m + 1] == x;
        }
      }
      ConsAscending(s[0], rest);
    } else if s != [] {
      forall x | x in s ensures DecimalValue(k) <= DecimalValue(x) {
        var m :| 0 <= m < |s| && s[m] == x;
      }
      ConsAscending(k, s);
    }
  }

  /** A key no greater than any of an ascending list can go first. */
  lemma ConsAscending(x: string, s: seq<string>)
    requires AllDigits(x) && forall y :: y in s ==> AllDigits(y)
    requires Ascending(s) && forall y :: y in s ==> DecimalValue(x) <= DecimalValue(y)
    ensures Ascending([x] + s)
  {
    var r := [x] + s;
    forall i, j | 0 <= i < j < |r| ensures DecimalValue(r[i]) <= DecimalValue(r[j]) {
      assert r[j] == s[j - 1] && r[j] in s;
      if i > 0 {
        assert r[i] == s[i - 1];
      }
    }
  }

  /** The keys in ascending numeric order. */
  function SortByValue(s: seq<string>): (r: seq<string>)
    requires forall x :: x in s ==> AllDigits(x)
    ensures forall x :: x in r <==> x in s
  {
    if s == [] then []
    else
      var init, last := s[..|s| - 1], s[|s| - 1];
      assert s == init + [last];
      InsertByValue(last, SortByValue(init))
  }

  /** Inserting adds one occurrence of the key. */
  lemma {:induction false} InsertByValuePermutes(k: string, s: seq<string>)
    requires AllDigits(k) && forall x :: x in s ==> AllDigits(x)
    ensures multiset(InsertByValue(k, s)) == multiset(s) + multiset{k}
    decreases |s|
  {
    if s != [] && DecimalValue(k) > DecimalValue(s[0]) {
      assert s == [s[0]] + s[1..];
      InsertByValuePermutes(k, s[1..]);
    }
  }

  /** The numeric sort keeps every key, as often. */
  lemma {:induction false} SortByValuePermutes(s: seq<string>)
    requires forall x :: x in s ==> AllDigits(x)
    ensures multiset(SortByValue(s)) == multiset(s)
  {
    if s != [] {
      var init := s[..|s| - 1];
      assert s == init + [s[|s| - 1]];
      SortByValuePermutes(init);
      InsertByValuePermutes(s[|s| - 1], SortByValue(init));
    }
  }

  /** The numeric sort is in ascending order. */
  lemma {:induction false} SortByValueAscending(s: seq<string>)
    requires forall x :: x in s ==> AllDigits(x)
    ensures Ascending(SortByValue(s))
  {
    if s != [] {
      var init := s[..|s| - 1];
      assert s == init + [s[|s| - 1]];
      SortByValueAscending(init);
      InsertByValueAscending(s[|s| - 1], SortByValue(init));
    }
  }

  /** The own keys of an object whose keys were created in the order
      `keys`, in the order `Object.entries` lists them. */
  function OwnKeys(keys: seq<string>): seq<string>
  {
    SortByValue(KeysWhere(keys, true)) + KeysWhere(keys, false)
  }

  /** `Object.entries` lists every key once: the array indices first, in
      ascending numeric order, then the other keys in creation order. */
  lemma OwnKeysOrder(keys: seq<string>)
    ensures multiset(OwnKeys(keys)) == multiset(keys)
    ensures forall k :: k in OwnKeys(keys) <==> k in keys
    ensures forall i, j :: 0 <= i < j < |OwnKeys(keys)| && IsArrayIndex(OwnKeys(keys)[j]) ==>
              IsArrayIndex(OwnKeys(keys)[i]) && DecimalValue(OwnKeys(keys)[i]) <= DecimalValue(OwnKeys(keys)[j])
    ensures KeysWhere(OwnKeys(keys), false) == KeysWhere(keys, false)
    ensures Distinct(keys) ==> Distinct(OwnKeys(keys))
  {
    OwnKeysPermute(keys);
    OwnKeysIndicesFirst(keys);
    OwnKeysOthers(keys);
  }

  /** The own keys are the created keys, each as often. */
  lemma OwnKeysPermute(keys: seq<string>)
    ensures multiset(OwnKeys(keys)) == multiset(keys)
    ensures Distinct(keys) ==> Distinct(OwnKeys(keys))
  {
    KeysWhereSplit(keys);
    SortByValuePermutes(KeysWhere(keys, true));
    if Distinct(keys) {
      DistinctCounts(keys);
      CountsDistinct(OwnKeys(keys));
    }
  }

  /** Nothing but an array index comes before an array index, and those
      come in ascending numeric order. */
  lemma OwnKeysIndicesFirst(keys: seq<string>)
    ensures forall i, j :: 0 <= i < j < |OwnKeys(keys)| && IsArrayIndex(OwnKeys(keys)[j]) ==>
              IsArrayIndex(OwnKeys(keys)[i]) && DecimalValue(OwnKeys(keys)[i]) <= DecimalValue(OwnKeys(keys)[j])
  {
    var ix := KeysWhere(keys, true);
    var sx := SortByValue(ix);
    var rest := KeysWhere(keys, false);
    var o := OwnKeys(keys);
    SortByValueAscending(ix);
    forall j | |sx| <= j < |o| ensures !IsArrayIndex(o[j]) {
      assert o[j] == rest[j - |sx|] && o[j] in rest;
    }
    forall i | 0 <= i < |sx| ensures IsArrayIndex(o[i]) && o[i] == sx[i] {
      assert sx[i] in ix;
    }
  }

  /** The keys that are not array indices keep their creation order. */
  lemma OwnKeysOthers(keys: seq<string>)
    ensures KeysWhere(OwnKeys(keys), false) == KeysWhere(keys, false)
  {
    var sx := SortByValue(KeysWhere(keys, true));
    KeysWhereAppend(sx, KeysWhere(keys, false), false);
    NoneWhere(sx);
    assert KeysWhere(KeysWhere(keys, false), false) == KeysWhere(keys, false) by {
      AllWhere(KeysWhere(keys, false));
    }
  }

  /** An object none of whose keys is an array index lists its keys in
      creation order. */
  lemma OwnKeysWithoutIndices(keys: seq<string>)
    requires forall k :: k in keys ==> !IsArrayIndex(k)
    ensures OwnKeys(keys) == keys
  {
    AllWhere(keys);
  }

  lemma {:induction false} NoneWhere(sx: seq<string>)
    requires forall k :: k in sx ==> IsArrayIndex(k)
    ensures KeysWhere(sx, false) == [] && KeysWhere(sx, true) == sx
    decreases |sx|
  {
    if sx != [] {
      var init, last := sx[..|sx| - 1], sx[|sx| - 1];
      assert sx == init + [last] && last in sx;
      assert forall k :: k in init ==> k in sx;
      NoneWhere(init);
    }
  }

  lemma {:induction false} AllWhere(keys: seq<string>)
    requires forall k :: k in keys ==> !IsArrayIndex(k)
    ensures KeysWhere(keys, false) == keys && KeysWhere(keys, true) == []
    decreases |keys|
  {
    if keys != [] {
      var init, last := keys[..|keys| - 1], keys[|keys| - 1];
      assert keys == init + [last] && last in keys;
      assert forall k :: k in init ==> k in keys;
      AllWhere(init);
    }
  }

  /** In a list without repetitions each element is counted once. */
  lemma {:induction false} DistinctCounts(s: seq<string>)
    requires Distinct(s)
    ensures forall x :: multiset(s)[x] <= 1
  {
    if s != [] {
      var init, last := s[..|s| - 1], s[|s| - 1];
      assert s == init + [last];
      assert Distinct(init);
      DistinctCounts(init);
      assert last !in init by {
        forall i | 0 <= i < |init| ensures init[i] != last {
          assert init[i] == s[i];
        }
      }
    }
  }

  /** A list in which each element is counted at most once has no
      repetitions. */
  lemma CountsDistinct(s: seq<string>)
    requires forall x :: multiset(s)[x] <= 1
    ensures Distinct(s)
  {
    forall i, j | 0 <= i < j < |s| ensures s[i] != s[j] {
      PairCounts(s, i, j);
    }
  }

  /** Two equal elements are counted twice. */
  lemma PairCounts(s: seq<string>, i: nat, j: nat)
    requires i < j < |s|
    ensures s[i] == s[j] ==> multiset(s)[s[i]] >= 2
  {
    assert s == s[..i] + [s[i]] + s[i + 1..j] + [s[j]] + s[j + 1..];
  }

  lemma SeqAssoc(a: seq<string>, b: seq<string>, c: seq<string>)
    ensures (a + b) + c == a + (b + c)
  {
  }
}
