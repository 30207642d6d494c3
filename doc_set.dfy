/** A doc set (processor/classes/doc_set.js): the documents of one language
    and abbreviation, the frozen enum tables they share (`enums`, one counted
    string buffer per category), and the pre-enums that the importer records
    values into before the tables are rebuilt. */
module DocSets {
  import opened Wrappers
  import opened Ids
  import opened ByteArrays
  import opened ObjectKeys
  import opened PreEnums

  /** The enum categories a new doc set has, in the constructor's order. */
  const Categories: seq<string> := ["ids", "wordLike", "notWordLike", "scopeBits", "graftTypes"]

  /** `preEnums`: category to its pre-enum. */
  type PreEnumMap = map<string, PreEnum>

  /** Every category is a well-formed JavaScript object. */
  ghost predicate AllWellFormed(pes: PreEnumMap)
  {
    forall c :: c in pes ==> WellFormed(pes[c])
  }

  /** `recordPreEnum(category, value)` on the pre-enums: unknown categories
      throw; otherwise only that category records the value. */
  function RecordValue(pes: PreEnumMap, category: string, value: string): (r: Result<PreEnumMap>)
    ensures r.Ok? <==> category in pes
    ensures r.Err? ==> r.error == UnknownEnumCategory(category)
    ensures r.Ok? ==> r.value.Keys == pes.Keys
    ensures r.Ok? ==> forall c :: c in pes && c != category ==> r.value[c] == pes[c]
    ensures r.Ok? && AllWellFormed(pes) ==> AllWellFormed(r.value)
  {
    if category !in pes then Err(UnknownEnumCategory(category))
    else Ok(pes[category := Record(pes[category], value)])
  }

  /** `enumForCategoryValue(category, value)`: the recorded entry, or the
      error for an unknown category or an unrecorded value. */
  function EnumFor(pes: PreEnumMap, category: string, value: string): (r: Result<EnumEntry>)
    ensures r.Ok? <==> category in pes && value in pes[category].entries
    ensures r.Ok? ==> r.value == pes[category].entries[value]
    ensures category !in pes ==> r == Err(UnknownEnumCategory(category))
    ensures category in pes && value !in pes[category].entries ==> r == Err(UnknownEnumValue(category, value))
  {
    if category !in pes then Err(UnknownEnumCategory(category))
    else if value in pes[category].entries then Ok(pes[category].entries[value])
    else Err(UnknownEnumValue(category, value))
  }

  /** `enums.wordLike.length === 0`: whether the doc set's wordLike table
      is still empty; a doc set without that table throws. */
  function WordLikeEmpty(enums: map<string, seq<byte>>): (r: Result<bool>)
    ensures r.Ok? <==> "wordLike" in enums
    ensures r.Ok? ==> (r.value <==> enums["wordLike"] == [])
    ensures r.Err? ==> r.error == MissingEnumTable("wordLike")
  {
    if "wordLike" in enums then Ok(|enums["wordLike"]| == 0) else Err(MissingEnumTable("wordLike"))
  }

  /** `sortPreEnums()` on the pre-enums: every category sorted by frequency. */
  function SortAll(pes: PreEnumMap): (r: PreEnumMap)
    requires AllWellFormed(pes)
    ensures r.Keys == pes.Keys
  {
    map c | c in pes :: Sorted(pes[c])
  }

  /** A value just recorded can be looked up in its category. */
  lemma RecordThenLookup(pes: PreEnumMap, category: string, value: string)
    requires category in pes
    ensures EnumFor(RecordValue(pes, category, value).value, category, value).Ok?
  {
    assert value in Record(pes[category], value).entries;
  }

  /** Recording never loses a value already looked up, and recording into one
      category leaves the lookups of every other category as they were. */
  lemma RecordKeepsLookups(pes: PreEnumMap, category: string, value: string, c: string, v: string)
    requires RecordValue(pes, category, value).Ok?
    requires EnumFor(pes, c, v).Ok?
    ensures EnumFor(RecordValue(pes, category, value).value, c, v).Ok?
    ensures c != category ==> EnumFor(RecordValue(pes, category, value).value, c, v) == EnumFor(pes, c, v)
  {
  }

  /** Sorting finds exactly the values recorded before, with their
      frequencies, and gives a Valid category enums 0..n-1 in order of
      non-increasing frequency. */
  lemma SortAllKeepsLookups(pes: PreEnumMap, c: string, v: string)
    requires AllWellFormed(pes)
    ensures EnumFor(SortAll(pes), c, v).Ok? <==> EnumFor(pes, c, v).Ok?
    ensures EnumFor(pes, c, v).Ok? ==>
              EnumFor(SortAll(pes), c, v).value.frequency == EnumFor(pes, c, v).value.frequency
    ensures c in pes ==> PreEnums.Valid(SortAll(pes)[c])
  {
    if c in pes {
      SortedKeepsFrequencies(pes[c]);
      SortedValid(pes[c]);
    }
  }

  // Loop states of `buildPreEnums` and `sortPreEnums`: the categories in
  // `done` are processed, the others are as they were.

  function BuiltFrom(enums: map<string, seq<byte>>, done: set<string>): (r: PreEnumMap)
    requires forall c :: c in enums ==> CountedWalkable(enums[c])
    ensures AllWellFormed(r)
  {
    map c | c in enums && c in done :: FromStrings(CountedStrings(enums[c]))
  }

  lemma BuiltFromStep(enums: map<string, seq<byte>>, done: set<string>, c: string)
    requires forall c :: c in enums ==> CountedWalkable(enums[c])
    requires c in enums
    ensures BuiltFrom(enums, done + {c}) == BuiltFrom(enums, done)[c := FromStrings(CountedStrings(enums[c]))]
  {
  }

  function SortedIn(pes: PreEnumMap, done: set<string>): (r: PreEnumMap)
    requires AllWellFormed(pes)
    ensures r.Keys == pes.Keys && AllWellFormed(r)
  {
    map c | c in pes :: if c in done then Sorted(pes[c]) else pes[c]
  }

  lemma SortedInStep(pes: PreEnumMap, done: set<string>, c: string)
    requires AllWellFormed(pes) && c in pes
    ensures SortedIn(pes, done + {c}) == SortedIn(pes, done)[c := Sorted(pes[c])]
    ensures SortedIn(pes, done)[c] == if c in done then Sorted(pes[c]) else pes[c]
  {
    var a, b := SortedIn(pes, done + {c}), SortedIn(pes, done);
    assert a.Keys == b[c := Sorted(pes[c])].Keys;
    forall k | k in a ensures a[k] == b[c := Sorted(pes[c])][k] {
    }
  }

  lemma SortedInAll(pes: PreEnumMap)
    requires AllWellFormed(pes)
    ensures SortedIn(pes, pes.Keys) == SortAll(pes)
  {
  }

  lemma UnionUpdate<K, V>(a: map<K, V>, b: map<K, V>, k: K, v: V)
    ensures a + b[k := v] == (a + b)[k := v]
  {
  }

  class DocSet {
    const id: Id
    const lang: string
    const abbr: string
    var preEnums: PreEnumMap
    var enums: map<string, seq<byte>>
    var docIds: seq<Id>

    ghost predicate Valid()
      reads this
    {
      AllWellFormed(preEnums)
    }

    /** Every enum table can be walked as counted strings. */
    ghost predicate EnumsWalkable()
      reads this
    {
      forall c :: c in enums ==> CountedWalkable(enums[c])
    }

    /** A new doc set: the five categories with empty tables, no pre-enums,
        no documents. */
    constructor (id: Id, lang: string, abbr: string)
      ensures this.id == id && this.lang == lang && this.abbr == abbr
      ensures enums == map c | c in Categories :: []
      ensures preEnums == map[] && docIds == []
      ensures Valid() && EnumsWalkable()
    {
      this.id := id;
      this.lang := lang;
      this.abbr := abbr;
      preEnums := map[];
      enums := map c | c in Categories :: [];
      docIds := [];
    }

    /** Rebuilds the pre-enum of every category from its table; categories
        without a table keep their pre-enum. */
    method BuildPreEnums()
      requires Valid() && EnumsWalkable()
      modifies this
      ensures Valid() && EnumsWalkable()
      ensures enums == old(enums) && docIds == old(docIds)
      ensures preEnums == old(preEnums) + BuiltFrom(enums, enums.Keys)
    {
      var tables := enums;
      var start := preEnums;
      var pes := start;
      var todo := tables.Keys;
      ghost var done: set<string> := {};
      while todo != {}
        invariant todo + done == tables.Keys && todo !! done
        invariant forall c :: c in tables ==> CountedWalkable(tables[c])
        invariant pes == start + BuiltFrom(tables, done)
        invariant unchanged(this)
        decreases todo
      {
        var c :| c in todo;
        var p := BuildPreEnum(tables[c]);
        BuiltFromStep(tables, done, c);
        UnionUpdate(start, BuiltFrom(tables, done), c, p);
        pes := pes[c := p];
        todo := todo - {c};
        done := done + {c};
      }
      preEnums := pes;
    }

    /** Walks the counted strings of a table, giving the i-th enum i and
        frequency 0. */
    method BuildPreEnum(succinct: seq<byte>) returns (r: PreEnum)
      requires CountedWalkable(succinct)
      ensures r == FromStrings(CountedStrings(succinct))
    {
      r := Empty;
      var pos: nat := 0;
      var enumCount := 0;
      ghost var read: seq<string> := [];
      while pos < |succinct|
        invariant WalkableFrom(succinct, pos)
        invariant read + CountedStringsFrom(succinct, pos) == CountedStrings(succinct)
        invariant enumCount == |read| && r == FromStrings(read)
        decreases |succinct| - pos
      {
        var s := CountedString(succinct, pos);
        var next := pos + succinct[pos] as int;
        WalkOn(succinct, pos, read);
        assert WalkableFrom(succinct, next);
        assert (read + [s]) + CountedStringsFrom(succinct, next) == CountedStrings(succinct);
        FromStringsSnoc(read, s);
        r := Put(r, s, EnumEntry(enumCount, 0));
        enumCount := enumCount + 1;
        read := read + [s];
        pos := next;
      }
      assert CountedStringsFrom(succinct, pos) == [];
      assert read == read + CountedStringsFrom(succinct, pos);
    }

    /** Records one occurrence of `value` in `category`. */
    method RecordPreEnum(category: string, value: string) returns (o: Outcome)
      requires Valid()
      modifies this
      ensures Valid()
      ensures o.Pass? <==> category in old(preEnums)
      ensures o.Fail? ==> o.error == UnknownEnumCategory(category) && preEnums == old(preEnums)
      ensures o.Pass? ==> RecordValue(old(preEnums), category, value) == Ok(preEnums)
      ensures enums == old(enums) && docIds == old(docIds)
    {
      if category !in preEnums {
        return Fail(UnknownEnumCategory(category));
      }
      preEnums := preEnums[category := Record(preEnums[category], value)];
      return Pass;
    }

    /** Reassigns the enums of every category by descending frequency. */
    method SortPreEnums()
      requires Valid()
      modifies this
      ensures Valid()
      ensures preEnums == SortAll(old(preEnums))
      ensures enums == old(enums) && docIds == old(docIds)
    {
      var start := preEnums;
      var pes := start;
      var todo := start.Keys;
      ghost var done: set<string> := {};
      while todo != {}
        invariant todo + done == start.Keys && todo !! done
        invariant AllWellFormed(start)
        invariant pes == SortedIn(start, done)
        invariant unchanged(this)
        decreases todo
      {
        var c :| c in todo;
        var sorted := SortCategory(pes[c]);
        SortedInStep(start, done, c);
        pes := pes[c := sorted];
        todo := todo - {c};
        done := done + {c};
      }
      SortedInAll(start);
      preEnums := pes;
    }

    /** `buildEnums()`: the enum tables rebuilt from the pre-enums. How they
        are built is not part of this model: `build` is any builder whose
        tables are counted strings. */
    method BuildEnums(build: PreEnumMap -> map<string, seq<byte>>)
      requires Valid()
      requires forall p: PreEnumMap, c :: c in build(p) ==> CountedWalkable(build(p)[c])
      modifies this
      ensures Valid() && EnumsWalkable()
      ensures enums == build(preEnums)
      ensures preEnums == old(preEnums) && docIds == old(docIds)
    {
      enums := build(preEnums);
    }

    /** `enumForCategoryValue`: the entry of a recorded value; an unknown
        category or value throws. */
    function EnumForCategoryValue(category: string, value: string): (r: Result<EnumEntry>)
      reads this
      ensures r.Ok? <==> category in preEnums && value in preEnums[category].entries
      ensures r.Ok? ==> r.value == preEnums[category].entries[value]
      ensures category !in preEnums ==> r == Err(UnknownEnumCategory(category))
      ensures category in preEnums && value !in preEnums[category].entries ==> r == Err(UnknownEnumValue(category, value))
    {
      EnumFor(preEnums, category, value)
    }
  }

  /** The loop of `sortPreEnums` over one category: `v.enum = count++` along
      `Object.entries(category)` stably sorted by descending frequency. */
  method SortCategory(p: PreEnum) returns (r: PreEnum)
    requires WellFormed(p)
    ensures r == Sorted(p) && Valid(r)
  {
    var listed := OwnKeys(p.keys);
    OwnKeysOrder(p.keys);
    var sorted := SortByFrequency(listed, p.entries);
    assert sorted == SortedKeys(p);
    var entries := p.entries;
    var count := 0;
    while count < |sorted|
      invariant count <= |sorted|
      invariant entries == Assigned(p.entries, sorted[..count])
    {
      var k := sorted[count];
      AssignedStep(p.entries, sorted, count);
      entries := entries[k := entries[k].(enum := count)];
      count := count + 1;
    }
    assert sorted[..count] == sorted;
    SortedValid(p);
    r := PreEnum(p.keys, entries);
  }
}
