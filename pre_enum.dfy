/** One category of a doc set's pre-enums (processor/classes/doc_set.js): a
    JavaScript object from each recorded value to its entry `{enum,
    frequency}`. Its keys are kept in creation order; `Object.entries` walks
    them in the order `ObjectKeys.OwnKeys` gives (array indices such as "12"
    first, in numeric order). */
module PreEnums {
  import opened Wrappers
  import opened ObjectKeys

  datatype EnumEntry = EnumEntry(enum: nat, frequency: nat)

  datatype PreEnum = PreEnum(keys: seq<string>, entries: map<string, EnumEntry>)

  const Empty: PreEnum := PreEnum([], map[])

  /** The keys are listed once each, and exactly the keys have entries. */
  ghost predicate WellFormed(p: PreEnum)
  {
    Distinct(p.keys) && (forall k :: k in p.entries <==> k in p.keys)
  }

  /** The enums are distinct and below the number of keys: a permutation of
      0..n-1. */
  ghost predicate DenseEnums(p: PreEnum)
  {
    && (forall k :: k in p.entries ==> p.entries[k].enum < |p.keys|)
    && (forall k1, k2 :: k1 in p.entries && k2 in p.entries && k1 != k2 ==>
          p.entries[k1].enum != p.entries[k2].enum)
  }

  ghost predicate Valid(p: PreEnum)
  {
    WellFormed(p) && DenseEnums(p)
  }

  /** `obj[key] = entry`: a new key goes last; an existing key keeps its place. */
  function Put(p: PreEnum, key: string, entry: EnumEntry): (r: PreEnum)
    ensures WellFormed(p) ==> WellFormed(r)
    ensures r.entries == p.entries[key := entry]
    ensures r.keys == if key in p.entries then p.keys else p.keys + [key]
  {
    if key in p.entries then PreEnum(p.keys, p.entries[key := entry])
    else
      assert WellFormed(p) ==> key !in p.keys;
      PreEnum(p.keys + [key], p.entries[key := entry])
  }

  // ---------------------------------------------------------------------
  // Recording (recordPreEnum, doc_set.js:46-53)

  /** An unseen value gets the next enum (the number of keys) and frequency 1;
      a seen value has its frequency raised by one. */
  function Record(p: PreEnum, value: string): (r: PreEnum)
    ensures WellFormed(p) ==> WellFormed(r)
  {
    if value in p.entries then
      Put(p, value, p.entries[value].(frequency := p.entries[value].frequency + 1))
    else
      Put(p, value, EnumEntry(|p.keys|, 1))
  }

  /** Recording keeps the keys distinct and the enums a permutation of 0..n-1;
      an unseen value becomes the n-th key with enum n, a seen value keeps its
      enum, and no other entry changes. */
  lemma RecordValid(p: PreEnum, value: string)
    requires Valid(p)
    ensures Valid(Record(p, value))
    ensures value !in p.entries ==>
              Record(p, value).keys == p.keys + [value] &&
              Record(p, value).entries[value] == EnumEntry(|p.keys|, 1)
    ensures value in p.entries ==>
              Record(p, value).keys == p.keys &&
              Record(p, value).entries[value] == EnumEntry(p.entries[value].enum, p.entries[value].frequency + 1)
    ensures forall k :: k in p.entries && k != value ==> Record(p, value).entries[k] == p.entries[k]
  {
  }

  /** The pre-enum after recording `values` in order. */
  function RecordAll(p: PreEnum, values: seq<string>): (r: PreEnum)
    ensures WellFormed(p) ==> WellFormed(r)
  {
    if values == [] then p else Record(RecordAll(p, values[..|values| - 1]), values[|values| - 1])
  }

  /** Started from nothing, a value's frequency is the number of times it was
      recorded, and only recorded values have entries. */
  lemma {:induction false} FrequencyCountsRecords(values: seq<string>)
    ensures forall k :: k in RecordAll(Empty, values).entries <==> k in values
    ensures forall k :: k in RecordAll(Empty, values).entries ==>
              RecordAll(Empty, values).entries[k].frequency == multiset(values)[k]
  {
    if values != [] {
      var init, last := values[..|values| - 1], values[|values| - 1];
      assert values == init + [last];
      FrequencyCountsRecords(init);
      assert multiset(values) == multiset(init) + multiset{last};
    }
  }

  /** Started from nothing, the enums are the order of first recording. */
  lemma {:induction false} RecordAllValid(p: PreEnum, values: seq<string>)
    requires Valid(p)
    ensures Valid(RecordAll(p, values))
    ensures p.keys <= RecordAll(p, values).keys
  {
    if values != [] {
      RecordAllValid(p, values[..|values| - 1]);
      RecordValid(RecordAll(p, values[..|values| - 1]), values[|values| - 1]);
    }
  }

  /** The value looked up, or None when it was never recorded. */
  function Lookup(p: PreEnum, value: string): (r: Option<EnumEntry>)
  {
    if value in p.entries then Some(p.entries[value]) else None
  }

  /** Enum totality: whatever has been recorded can be looked up, with an enum
      below the number of keys. */
  lemma LookupAfterRecord(p: PreEnum, value: string, later: seq<string>)
    requires Valid(p)
    ensures Lookup(RecordAll(Record(p, value), later), value).Some?
    ensures Lookup(RecordAll(Record(p, value), later), value).value.enum
              < |RecordAll(Record(p, value), later).keys|
  {
    RecordValid(p, value);
    RecordAllValid(Record(p, value), later);
    assert value in Record(p, value).keys;
  }

  // ---------------------------------------------------------------------
  // Building from a frozen table (buildPreEnum, doc_set.js:28-40)

  /** `ret[s] = {enum: i, frequency: 0}` for the i-th string `s`: a repeated
      string keeps its first position among the keys and takes the later enum. */
  function FromStrings(strings: seq<string>): (r: PreEnum)
    ensures WellFormed(r)
  {
    if strings == [] then Empty
    else
      Put(FromStrings(strings[..|strings| - 1]), strings[|strings| - 1], EnumEntry(|strings| - 1, 0))
  }

  /** One more string is one more assignment. */
  lemma FromStringsSnoc(strings: seq<string>, s: string)
    ensures FromStrings(strings + [s]) == Put(FromStrings(strings), s, EnumEntry(|strings|, 0))
  {
    assert (strings + [s])[..|strings|] == strings;
  }

  /** The pre-enum built from distinct strings lists them in buffer order,
      the i-th with enum i and frequency 0; it is Valid. */
  lemma {:induction false} FromDistinctStrings(strings: seq<string>)
    requires Distinct(strings)
    ensures FromStrings(strings).keys == strings
    ensures forall k :: k in FromStrings(strings).entries <==> k in strings
    ensures forall i :: 0 <= i < |strings| ==> FromStrings(strings).entries[strings[i]] == EnumEntry(i, 0)
  {
    if strings != [] {
      var init, last := strings[..|strings| - 1], strings[|strings| - 1];
      DistinctInit(strings);
      FromDistinctStrings(init);
      var r := FromStrings(strings);
      assert r.keys == init + [last] == strings;
      forall i | 0 <= i < |strings| ensures r.entries[strings[i]] == EnumEntry(i, 0) {
        if i < |init| { assert strings[i] == init[i]; }
      }
    }
  }

  /** Built from distinct strings, the pre-enum is Valid: its enums are
      exactly the positions 0..n-1. */
  lemma FromDistinctStringsValid(strings: seq<string>)
    requires Distinct(strings)
    ensures Valid(FromStrings(strings))
  {
    FromDistinctStrings(strings);
    var r := FromStrings(strings);
    forall k | k in r.entries ensures r.entries[k].enum < |r.keys| {
      var i := PositionOf(strings, k);
    }
    forall k1, k2 | k1 in r.entries && k2 in r.entries && k1 != k2
      ensures r.entries[k1].enum != r.entries[k2].enum
    {
      var i := PositionOf(strings, k1);
      var j := PositionOf(strings, k2);
    }
  }

  lemma PositionOf(s: seq<string>, k: string) returns (i: nat)
    requires k in s
    ensures i < |s| && s[i] == k
  {
    i :| 0 <= i < |s| && s[i] == k;
  }

  // ---------------------------------------------------------------------
  // Frequency sort (sortPreEnums, doc_set.js:56-63)

  /** Frequencies do not increase along `s`. */
  ghost predicate NonIncreasing(e: map<string, EnumEntry>, s: seq<string>)
    requires forall x :: x in s ==> x in e
  {
    forall i, j :: 0 <= i < j < |s| ==> e[s[i]].frequency >= e[s[j]].frequency
  }

  /** `k` placed after every element of `sorted` whose frequency is at least its own. */
  function Insert(k: string, sorted: seq<string>, e: map<string, EnumEntry>): (r: seq<string>)
    requires k in e && forall x :: x in sorted ==> x in e
    ensures multiset(r) == multiset(sorted) + multiset{k}
    ensures forall x :: x in r <==> x == k || x in sorted
  {
    if sorted == [] then [k]
    else if e[sorted[0]].frequency >= e[k].frequency then
      assert sorted == [sorted[0]] + sorted[1..];
      [sorted[0]] + Insert(k, sorted[1..], e)
    else [k] + sorted
  }

  lemma DistinctTail(s: seq<string>)
    requires |s| > 0 && Distinct(s)
    ensures Distinct(s[1..]) && s[0] !in s[1..]
  {
  }

  lemma DistinctInit(s: seq<string>)
    requires |s| > 0 && Distinct(s)
    ensures Distinct(s[..|s| - 1]) && s[|s| - 1] !in s[..|s| - 1]
  {
  }

  /** Inserting keeps the order by frequency. */
  lemma {:induction false} InsertSorted(k: string, sorted: seq<string>, e: map<string, EnumEntry>)
    requires k in e && forall x :: x in sorted ==> x in e
    requires NonIncreasing(e, sorted)
    ensures NonIncreasing(e, Insert(k, sorted, e))
    decreases |sorted|
  {
    var r := Insert(k, sorted, e);
    if sorted == [] {
    } else if e[sorted[0]].frequency >= e[k].frequency {
      var rest := Insert(k, sorted[1..], e);
      InsertSorted(k, sorted[1..], e);
      forall x | x in rest ensures e[sorted[0]].frequency >= e[x].frequency {
        HeadDominates(k, sorted, e, rest, x);
      }
      ConsNonIncreasing(sorted[0], rest, e);
    } else {
      forall x | x in sorted ensures e[k].frequency >= e[x].frequency {
        var m :| 0 <= m < |sorted| && sorted[m] == x;
        assert m == 0 || e[sorted[0]].frequency >= e[sorted[m]].frequency;
      }
      ConsNonIncreasing(k, sorted, e);
    }
  }

  /** A key whose frequency is at least every other's can go first. */
  lemma ConsNonIncreasing(x: string, s: seq<string>, e: map<string, EnumEntry>)
    requires x in e && forall y :: y in s ==> y in e
    requires NonIncreasing(e, s) && forall y :: y in s ==> e[x].frequency >= e[y].frequency
    ensures NonIncreasing(e, [x] + s)
  {
    var r := [x] + s;
    forall i, j | 0 <= i < j < |r| ensures e[r[i]].frequency >= e[r[j]].frequency {
      assert r[j] == s[j - 1];
      if i > 0 {
        assert r[i] == s[i - 1];
      }
    }
  }

  lemma HeadDominates(k: string, sorted: seq<string>, e: map<string, EnumEntry>, rest: seq<string>, x: string)
    requires k in e && forall y :: y in sorted ==> y in e
    requires NonIncreasing(e, sorted) && sorted != []
    requires e[sorted[0]].frequency >= e[k].frequency
    requires forall y :: y in rest <==> y == k || y in sorted[1..]
    requires x in rest
    ensures e[sorted[0]].frequency >= e[x].frequency
  {
    if x != k {
      var m :| 0 <= m < |sorted[1..]| && sorted[1..][m] == x;
      assert sorted[m + 1] == x;
    }
  }

  /** Inserting a new key keeps the list free of repetitions. */
  lemma {:induction false} InsertDistinct(k: string, sorted: seq<string>, e: map<string, EnumEntry>)
    requires k in e && forall x :: x in sorted ==> x in e
    requires Distinct(sorted) && k !in sorted
    ensures Distinct(Insert(k, sorted, e))
    decreases |sorted|
  {
    var r := Insert(k, sorted, e);
    if sorted != [] {
      if e[sorted[0]].frequency >= e[k].frequency {
        var rest := Insert(k, sorted[1..], e);
        DistinctTail(sorted);
        InsertDistinct(k, sorted[1..], e);
        assert r == [sorted[0]] + rest;
        forall i, j | 0 <= i < j < |r| ensures r[i] != r[j] {
          if i == 0 {
            assert r[j] in rest;
          } else {
            assert r[i] == rest[i - 1] && r[j] == rest[j - 1];
          }
        }
      } else {
        assert r == [k] + sorted;
        forall i, j | 0 <= i < j < |r| ensures r[i] != r[j] {
          if i == 0 {
            assert r[j] == sorted[j - 1];
          } else {
            assert r[i] == sorted[i - 1] && r[j] == sorted[j - 1];
          }
        }
      }
    }
  }

  /** A stable sort of `keys` by decreasing frequency (JavaScript's
      `Array.prototype.sort` is stable). */
  function SortByFrequency(keys: seq<string>, e: map<string, EnumEntry>): (r: seq<string>)
    requires forall x :: x in keys ==> x in e
    ensures multiset(r) == multiset(keys)
    ensures forall x :: x in r <==> x in keys
  {
    if keys == [] then []
    else
      var init, last := keys[..|keys| - 1], keys[|keys| - 1];
      assert keys == init + [last];
      Insert(last, SortByFrequency(init, e), e)
  }

  /** The sort returns the same keys, once each when they were distinct, in
      order of non-increasing frequency. */
  lemma {:induction false} SortByFrequencySpec(keys: seq<string>, e: map<string, EnumEntry>)
    requires forall x :: x in keys ==> x in e
    ensures |SortByFrequency(keys, e)| == |keys|
    ensures Distinct(keys) ==> Distinct(SortByFrequency(keys, e))
    ensures NonIncreasing(e, SortByFrequency(keys, e))
  {
    var r := SortByFrequency(keys, e);
    assert |multiset(r)| == |multiset(keys)|;
    if keys != [] {
      var init, last := keys[..|keys| - 1], keys[|keys| - 1];
      assert keys == init + [last];
      var t := SortByFrequency(init, e);
      SortByFrequencySpec(init, e);
      InsertSorted(last, t, e);
      if Distinct(keys) {
        DistinctInit(keys);
        InsertDistinct(last, t, e);
      }
    }
  }

  /** The entries after `v.enum = count++` along `sorted`. */
  function Assigned(e: map<string, EnumEntry>, sorted: seq<string>): (r: map<string, EnumEntry>)
    requires forall x :: x in sorted ==> x in e
    ensures r.Keys == e.Keys
  {
    if sorted == [] then e
    else
      var r := Assigned(e, sorted[..|sorted| - 1]);
      var k := sorted[|sorted| - 1];
      r[k := r[k].(enum := |sorted| - 1)]
  }

  /** One more step of the assignment loop. */
  lemma AssignedStep(e: map<string, EnumEntry>, sorted: seq<string>, count: nat)
    requires forall x :: x in sorted ==> x in e
    requires count < |sorted|
    ensures sorted[count] in Assigned(e, sorted[..count])
    ensures Assigned(e, sorted[..count + 1]) ==
              Assigned(e, sorted[..count])[sorted[count] := Assigned(e, sorted[..count])[sorted[count]].(enum := count)]
  {
    assert sorted[..count + 1][..count] == sorted[..count];
  }

  /** Assigning along distinct keys gives the j-th key enum j and changes no
      frequency. */
  lemma {:induction false} AssignedSpec(e: map<string, EnumEntry>, sorted: seq<string>)
    requires forall x :: x in sorted ==> x in e
    requires Distinct(sorted)
    ensures forall j :: 0 <= j < |sorted| ==> Assigned(e, sorted)[sorted[j]].enum == j
    ensures forall k :: k in e ==> Assigned(e, sorted)[k].frequency == e[k].frequency
    ensures forall k :: k in e && k !in sorted ==> Assigned(e, sorted)[k] == e[k]
  {
    if sorted != [] {
      var init := sorted[..|sorted| - 1];
      AssignedSpec(e, init);
      forall j | 0 <= j < |init| ensures init[j] != sorted[|sorted| - 1] {
        assert init[j] == sorted[j];
      }
    }
  }

  /** The keys in the order the sort gives them: `Object.entries` order,
      stably sorted by decreasing frequency. */
  function SortedKeys(p: PreEnum): (r: seq<string>)
    requires WellFormed(p)
    ensures |r| == |p.keys|
    ensures forall x :: x in r <==> x in p.entries
  {
    OwnKeysOrder(p.keys);
    assert |multiset(OwnKeys(p.keys))| == |multiset(p.keys)|;
    SortByFrequency(OwnKeys(p.keys), p.entries)
  }

  /** A category after `sortPreEnums`. */
  function Sorted(p: PreEnum): PreEnum
    requires WellFormed(p)
  {
    PreEnum(p.keys, Assigned(p.entries, SortedKeys(p)))
  }

  /** The sort's input: the keys in `Object.entries` order, each once. */
  lemma EntriesOrder(p: PreEnum)
    requires WellFormed(p)
    ensures Distinct(OwnKeys(p.keys)) && |OwnKeys(p.keys)| == |p.keys|
    ensures forall k :: k in OwnKeys(p.keys) <==> k in p.entries
    ensures |SortedKeys(p)| == |p.keys| && Distinct(SortedKeys(p)) && NonIncreasing(p.entries, SortedKeys(p))
  {
    OwnKeysOrder(p.keys);
    assert |multiset(OwnKeys(p.keys))| == |multiset(p.keys)|;
    SortByFrequencySpec(OwnKeys(p.keys), p.entries);
  }

  /** Sorting keeps the keys, their order and their frequencies. */
  lemma SortedKeepsFrequencies(p: PreEnum)
    requires WellFormed(p)
    ensures Sorted(p).keys == p.keys && Sorted(p).entries.Keys == p.entries.Keys
    ensures forall k :: k in p.entries ==> Sorted(p).entries[k].frequency == p.entries[k].frequency
  {
    EntriesOrder(p);
    AssignedSpec(p.entries, SortedKeys(p));
  }

  /** The i-th key in sorted order gets enum i. */
  lemma SortedEnumsArePositions(p: PreEnum)
    requires WellFormed(p)
    ensures |SortedKeys(p)| == |p.keys|
    ensures forall i :: 0 <= i < |p.keys| ==> Sorted(p).entries[SortedKeys(p)[i]].enum == i
  {
    var s := SortedKeys(p);
    EntriesOrder(p);
    AssignedSpec(p.entries, s);
    assert Sorted(p).entries == Assigned(p.entries, s);
  }

  /** So the sorted enums are a permutation of 0..n-1. */
  lemma SortedValid(p: PreEnum)
    requires WellFormed(p)
    ensures Valid(Sorted(p))
  {
    var s := SortedKeys(p);
    var r := Sorted(p);
    SortedEnumsArePositions(p);
    EntriesOrder(p);
    assert r.keys == p.keys && r.entries.Keys == p.entries.Keys;
    assert forall k :: k in r.entries ==> k in s;
    assert WellFormed(r);
    forall k | k in r.entries ensures r.entries[k].enum < |r.keys| {
      var i := PositionOf(s, k);
      assert r.entries[s[i]].enum == i;
    }
    forall k1, k2 | k1 in r.entries && k2 in r.entries && k1 != k2
      ensures r.entries[k1].enum != r.entries[k2].enum
    {
      var i := PositionOf(s, k1);
      var j := PositionOf(s, k2);
      assert r.entries[s[i]].enum == i && r.entries[s[j]].enum == j;
    }
  }

  /** After the sort, a lower enum never has a lower frequency. */
  lemma {:induction false} SortedFrequencyOrder(p: PreEnum)
    requires WellFormed(p)
    ensures forall k1, k2 ::
              (k1 in p.entries && k2 in p.entries && Sorted(p).entries[k1].enum < Sorted(p).entries[k2].enum) ==>
              Sorted(p).entries[k1].frequency >= Sorted(p).entries[k2].frequency
  {
    EntriesOrder(p);
    AssignedFrequencyOrder(p.entries, SortedKeys(p));
  }

  /** Numbering every key along a list of non-increasing frequency: a
      smaller enum never has a smaller frequency. */
  lemma AssignedFrequencyOrder(e: map<string, EnumEntry>, s: seq<string>)
    requires forall x :: x in s <==> x in e
    requires Distinct(s) && NonIncreasing(e, s)
    ensures forall k1, k2 ::
              (k1 in e && k2 in e && Assigned(e, s)[k1].enum < Assigned(e, s)[k2].enum) ==>
              Assigned(e, s)[k1].frequency >= Assigned(e, s)[k2].frequency
  {
    var r := Assigned(e, s);
    AssignedSpec(e, s);
    forall k1, k2 | k1 in e && k2 in e && r[k1].enum < r[k2].enum
      ensures r[k1].frequency >= r[k2].frequency
    {
      var i := PositionOf(s, k1);
      var j := PositionOf(s, k2);
    }
  }

  // ---------------------------------------------------------------------
  // Stability: ties keep `Object.entries` order

  /** The first position of `x` in `s`. */
  function IndexOf(s: seq<string>, x: string): (i: nat)
    requires x in s
    ensures i < |s| && s[i] == x
    ensures forall j :: 0 <= j < i ==> s[j] != x
  {
    if s[0] == x then 0 else 1 + IndexOf(s[1..], x)
  }

  /** In a list without repetitions, the element at `i` is first found at `i`. */
  lemma IndexOfDistinct(s: seq<string>, i: nat)
    requires Distinct(s) && i < |s|
    ensures IndexOf(s, s[i]) == i
  {
  }

  /** Appending an element moves no earlier one. */
  lemma IndexOfInit(init: seq<string>, last: string, x: string)
    requires x in init
    ensures IndexOf(init + [last], x) == IndexOf(init, x)
  {
    var q := IndexOf(init, x);
    assert (init + [last])[q] == x;
  }

  /** Keys of equal frequency are in the same order in `r` as in `keys`. */
  ghost predicate StableFrom(e: map<string, EnumEntry>, keys: seq<string>, r: seq<string>)
    requires forall x :: x in keys ==> x in e && x in r
  {
    forall x, y :: x in keys && y in keys && e[x].frequency == e[y].frequency && IndexOf(keys, x) < IndexOf(keys, y) ==>
      IndexOf(r, x) < IndexOf(r, y)
  }

  /** Inserting a new key keeps the order of the others. */
  lemma {:induction false} InsertKeepsOrder(k: string, t: seq<string>, e: map<string, EnumEntry>, x: string, y: string)
    requires k in e && forall z :: z in t ==> z in e
    requires x in t && y in t && x != k && y != k && IndexOf(t, x) < IndexOf(t, y)
    ensures IndexOf(Insert(k, t, e), x) < IndexOf(Insert(k, t, e), y)
    decreases |t|
  {
    var r := Insert(k, t, e);
    if e[t[0]].frequency >= e[k].frequency {
      var rest := Insert(k, t[1..], e);
      assert r[0] == t[0] && r[1..] == rest;
      if x != t[0] {
        InsertKeepsOrder(k, t[1..], e, x, y);
      }
    } else {
      assert r[0] == k && r[1..] == t;
    }
  }

  /** A new key goes after every key of the same or a higher frequency. */
  lemma {:induction false} InsertAfterTies(k: string, t: seq<string>, e: map<string, EnumEntry>, x: string)
    requires k in e && forall z :: z in t ==> z in e
    requires NonIncreasing(e, t) && k !in t && x in t && e[x].frequency >= e[k].frequency
    ensures IndexOf(Insert(k, t, e), x) < IndexOf(Insert(k, t, e), k)
    decreases |t|
  {
    var r := Insert(k, t, e);
    var m := PositionOf(t, x);
    assert e[t[0]].frequency >= e[t[m]].frequency;
    var rest := Insert(k, t[1..], e);
    assert r[0] == t[0] && r[1..] == rest;
    if x != t[0] {
      assert t[1..][m - 1] == x;
      assert NonIncreasing(e, t[1..]) by {
        forall i, j | 0 <= i < j < |t[1..]| ensures e[t[1..][i]].frequency >= e[t[1..][j]].frequency {
          assert t[1..][i] == t[i + 1] && t[1..][j] == t[j + 1];
        }
      }
      InsertAfterTies(k, t[1..], e, x);
    }
  }

  /** The frequency sort is stable: keys of equal frequency keep their
      relative order (JavaScript's `Array.prototype.sort` is stable). */
  lemma {:induction false} SortByFrequencyStable(keys: seq<string>, e: map<string, EnumEntry>)
    requires forall x :: x in keys ==> x in e
    requires Distinct(keys)
    ensures StableFrom(e, keys, SortByFrequency(keys, e))
    decreases |keys|
  {
    if keys != [] {
      var init, last := keys[..|keys| - 1], keys[|keys| - 1];
      assert keys == init + [last];
      DistinctInit(keys);
      var t := SortByFrequency(init, e);
      SortByFrequencyStable(init, e);
      SortByFrequencySpec(init, e);
      assert SortByFrequency(keys, e) == Insert(last, t, e);
      assert last !in init by {
        IndexOfDistinct(keys, |keys| - 1);
      }
      InsertStable(init, last, t, e);
    }
  }

  /** Inserting the next key into a stable sort of the keys before it gives
      a stable sort of them all. */
  lemma InsertStable(init: seq<string>, last: string, t: seq<string>, e: map<string, EnumEntry>)
    requires last in e && last !in init && forall x :: x in init ==> x in e
    requires forall x :: x in t <==> x in init
    requires NonIncreasing(e, t) && StableFrom(e, init, t)
    ensures StableFrom(e, init + [last], Insert(last, t, e))
  {
    var keys, r := init + [last], Insert(last, t, e);
    forall x, y | x in keys && y in keys && e[x].frequency == e[y].frequency && IndexOf(keys, x) < IndexOf(keys, y)
      ensures IndexOf(r, x) < IndexOf(r, y)
    {
      assert x != last;
      IndexOfInit(init, last, x);
      if y == last {
        InsertAfterTies(last, t, e, x);
      } else {
        IndexOfInit(init, last, y);
        InsertKeepsOrder(last, t, e, x, y);
      }
    }
  }

  /** `sortPreEnums` breaks ties by `Object.entries` order: of two keys
      with the same frequency, the one listed first gets the lower enum. */
  lemma SortedTieOrder(p: PreEnum)
    requires WellFormed(p)
    ensures forall k :: k in OwnKeys(p.keys) <==> k in p.entries
    ensures forall i, j ::
              0 <= i < j < |OwnKeys(p.keys)| &&
              p.entries[OwnKeys(p.keys)[i]].frequency == p.entries[OwnKeys(p.keys)[j]].frequency ==>
              Sorted(p).entries[OwnKeys(p.keys)[i]].enum < Sorted(p).entries[OwnKeys(p.keys)[j]].enum
  {
    var o := OwnKeys(p.keys);
    EntriesOrder(p);
    SortByFrequencyStable(o, p.entries);
    AssignedTies(p.entries, o, SortedKeys(p));
  }

  /** Assigning positions along a stable sort of `o` orders every tie by `o`. */
  lemma AssignedTies(e: map<string, EnumEntry>, o: seq<string>, s: seq<string>)
    requires Distinct(o) && Distinct(s) && forall x :: x in o ==> x in e && x in s
    requires forall x :: x in s ==> x in e
    requires StableFrom(e, o, s)
    ensures forall i, j ::
              0 <= i < j < |o| && e[o[i]].frequency == e[o[j]].frequency ==>
              Assigned(e, s)[o[i]].enum < Assigned(e, s)[o[j]].enum
  {
    forall i, j | 0 <= i < j < |o| && e[o[i]].frequency == e[o[j]].frequency
      ensures Assigned(e, s)[o[i]].enum < Assigned(e, s)[o[j]].enum
    {
      AssignedTie(e, o, s, i, j);
    }
  }

  /** Assigning positions along a stable sort of `o`: of two keys of equal
      frequency, the earlier in `o` gets the lower enum. */
  lemma AssignedTie(e: map<string, EnumEntry>, o: seq<string>, s: seq<string>, i: nat, j: nat)
    requires Distinct(o) && Distinct(s) && forall x :: x in o ==> x in e && x in s
    requires forall x :: x in s ==> x in e
    requires StableFrom(e, o, s)
    requires i < j < |o| && e[o[i]].frequency == e[o[j]].frequency
    ensures Assigned(e, s)[o[i]].enum < Assigned(e, s)[o[j]].enum
  {
    IndexOfDistinct(o, i);
    IndexOfDistinct(o, j);
    AssignedSpec(e, s);
    var a, b := IndexOf(s, o[i]), IndexOf(s, o[j]);
    assert Assigned(e, s)[s[a]].enum == a && Assigned(e, s)[s[b]].enum == b;
  }

  /** The category after recording "the", then "1". */
  const TheOne: PreEnum := PreEnum(["the", "1"], map["the" := EnumEntry(0, 1), "1" := EnumEntry(1, 1)])

  lemma RecordTheOne()
    ensures RecordAll(Empty, ["the", "1"]) == TheOne
  {
    var vs := ["the", "1"];
    var p1 := PreEnum(["the"], map["the" := EnumEntry(0, 1)]);
    assert vs[..1][..0] == [] && vs[..2] == vs;
    assert Record(Empty, "the") == p1;
    assert RecordAll(Empty, vs[..1]) == p1;
  }

  /** Recorded once each, "1" is an array index, so `Object.entries` lists
      it before "the" and the sort gives it enum 0. */
  lemma IndexKeyFirstExample()
    ensures WellFormed(TheOne)
    ensures Sorted(TheOne).entries["1"].enum == 0 && Sorted(TheOne).entries["the"].enum == 1
  {
    TheOneSortedKeys();
    SortedEnumsArePositions(TheOne);
    assert SortedKeys(TheOne)[0] == "1" && SortedKeys(TheOne)[1] == "the";
  }

  lemma TheOneSortedKeys()
    ensures WellFormed(TheOne) && SortedKeys(TheOne) == ["1", "the"]
  {
    var o, e := ["1", "the"], TheOne.entries;
    assert WellFormed(TheOne) by {
      RecordTheOne();
      RecordAllValid(Empty, ["the", "1"]);
    }
    TheOneFrequencySort();
    IndexKeys();
  }

  /** Tied at frequency 1, "1" and "the" keep their order. */
  lemma TheOneFrequencySort()
    ensures SortByFrequency(["1", "the"], TheOne.entries) == ["1", "the"]
  {
    var o, e := ["1", "the"], TheOne.entries;
    assert o[..1] == ["1"] && o[..1][..0] == [];
    assert SortByFrequency(["1"], e) == ["1"];
    assert ["1"][1..] == [] && Insert("the", [], e) == ["the"];
    assert Insert("the", ["1"], e) == o;
  }

  /** "1" is an array index and "the" is not. */
  lemma IndexKeys()
    ensures OwnKeys(["the", "1"]) == ["1", "the"]
  {
    var ks := ["the", "1"];
    assert IsArrayIndex("1") by {
      assert "1"[..0] == [];
    }
    assert !IsArrayIndex("the") by {
      assert !IsDigit("the"[0]);
    }
    assert ks[..1] == ["the"] && ks[..1][..0] == [];
    assert KeysWhere(ks, true) == ["1"];
    assert KeysWhere(ks, false) == ["the"];
    assert SortByValue(["1"]) == ["1"] by {
      assert ["1"][..0] == [];
    }
  }
}
