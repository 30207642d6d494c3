/** The two passes both versions of the document importer run over a
    parsed document (model/document.js and src/model/document.js): the
    record pass, which classifies every item into an enum category and
    records its values in the doc set's pre-enums, and the pack pass, which
    encodes the blocks against them. The theorem of this module is enum
    totality: what the record pass recorded, the pack pass can encode. */
module Passes {
  import opened Wrappers
  import opened Ids
  import opened Labels
  import opened ByteArrays
  import opened Defs
  import opened Items
  import opened PreEnums
  import opened DocSets
  import opened Sequences

  // ---------------------------------------------------------------------
  // Classification (recordPreEnums)

  /** The token subtypes model/document.js records as "notWordLike". */
  predicate LegacyNotWordLike(itemType: string)
  {
    itemType in {"lineSpace", "eol", "punctuation"}
  }

  /** The token subtypes src/model/document.js records as "notWordLike":
      noBreakSpace is not among them. */
  predicate NotWordLike(itemType: string)
  {
    itemType in {"lineSpace", "eol", "punctuation", "softLineBreak", "bareSlash", "unknown"}
  }

  /** `rerecordBlockPreEnums`: every decoded token that is not wordLike. */
  predicate OtherToken(itemType: string)
  {
    itemType != "wordLike"
  }

  /** A scope label has as many components as `nComponentsForScope` gives
      for its first one; a first component the table does not know has no
      count, which never matches. */
  predicate ComponentsMatch(n: map<string, nat>, scopeLabel: string)
  {
    var bits := Split(scopeLabel);
    bits[0] in n && |bits| == n[bits[0]]
  }

  /** The (category, value) pairs recording one item records, in order.
      `notWordLike` says which token subtypes go to "notWordLike". */
  function RecordedPairs(notWordLike: string -> bool, item: Item): seq<(string, string)>
  {
    match item
    case Token(itemType, chars) =>
      if itemType == "wordLike" then [("wordLike", chars)]
      else if notWordLike(itemType) then [("notWordLike", chars)]
      else []
    case Graft(graftType, _) => [("graftTypes", graftType)]
    case Scope(isStart, scopeLabel) =>
      if isStart then ScopeBitPairs(Split(scopeLabel)[1..]) else []
  }

  /** One "scopeBits" pair per label component. */
  function ScopeBitPairs(bits: seq<string>): (r: seq<(string, string)>)
    ensures |r| == |bits| && forall i :: 0 <= i < |bits| ==> r[i] == ("scopeBits", bits[i])
  {
    seq(|bits|, i requires 0 <= i < |bits| => ("scopeBits", bits[i]))
  }

  /** `recordPreEnum` for each pair in turn: the pre-enums afterwards, or
      the error of the first pair whose category is unknown. */
  function RecordPairs(pes: PreEnumMap, pairs: seq<(string, string)>): (r: Result<PreEnumMap>)
    ensures r.Ok? ==> r.value.Keys == pes.Keys
    ensures r.Ok? && AllWellFormed(pes) ==> AllWellFormed(r.value)
    decreases |pairs|
  {
    if pairs == [] then Ok(pes)
    else
      var init := pairs[..|pairs| - 1];
      var (c, v) := pairs[|pairs| - 1];
      match RecordPairs(pes, init)
      case Err(e) => Err(e)
      case Ok(p) => RecordValue(p, c, v)
  }

  /** Recording pairs throws exactly when one of their categories is
      unknown. */
  lemma {:induction false} RecordPairsOkIff(pes: PreEnumMap, pairs: seq<(string, string)>)
    ensures RecordPairs(pes, pairs).Ok? <==> forall i :: 0 <= i < |pairs| ==> pairs[i].0 in pes
    decreases |pairs|
  {
    if pairs != [] {
      var k := |pairs| - 1;
      var init := pairs[..k];
      assert forall i :: 0 <= i < k ==> init[i] == pairs[i];
      RecordPairsOkIff(pes, init);
      assert (forall i :: 0 <= i < |pairs| ==> pairs[i].0 in pes) <==>
             (forall i :: 0 <= i < k ==> pairs[i].0 in pes) && pairs[k].0 in pes;
      match RecordPairs(pes, init)
      case Err(_) =>
        assert RecordPairs(pes, pairs).Err?;
      case Ok(p) =>
        assert p.Keys == pes.Keys;
        assert RecordPairs(pes, pairs) == RecordValue(p, pairs[k].0, pairs[k].1);
    }
  }

  /** Recording pairs leaves every category none of them names as it was. */
  lemma {:induction false} RecordPairsUntouched(pes: PreEnumMap, pairs: seq<(string, string)>, c: string)
    requires RecordPairs(pes, pairs).Ok? && c in pes
    requires forall i :: 0 <= i < |pairs| ==> pairs[i].0 != c
    ensures RecordPairs(pes, pairs).value[c] == pes[c]
    decreases |pairs|
  {
    if pairs != [] {
      var init := pairs[..|pairs| - 1];
      assert forall i :: 0 <= i < |init| ==> init[i] == pairs[i];
      RecordPairsUntouched(pes, init, c);
    }
  }

  /** The body of the loop of `recordPreEnums` for one item: a start scope
      whose component count is wrong throws before anything is recorded;
      otherwise the item's pairs are recorded. */
  function RecordItem(notWordLike: string -> bool, n: map<string, nat>, pes: PreEnumMap, item: Item): (r: Result<PreEnumMap>)
    ensures item.Scope? && item.isStart && !ComponentsMatch(n, item.scopeLabel) ==>
              r == Err(ScopeComponentCountMismatch(item.scopeLabel))
    ensures !(item.Scope? && item.isStart && !ComponentsMatch(n, item.scopeLabel)) ==>
              r == RecordPairs(pes, RecordedPairs(notWordLike, item))
  {
    if item.Scope? && item.isStart && !ComponentsMatch(n, item.scopeLabel) then
      Err(ScopeComponentCountMismatch(item.scopeLabel))
    else RecordPairs(pes, RecordedPairs(notWordLike, item))
  }

  /** The items in turn, until one throws. */
  function RecordItems(notWordLike: string -> bool, n: map<string, nat>, pes: PreEnumMap, items: seq<Item>): Result<PreEnumMap>
    decreases |items|
  {
    if items == [] then Ok(pes)
    else
      match RecordItems(notWordLike, n, pes, items[..|items| - 1])
      case Err(e) => Err(e)
      case Ok(p) => RecordItem(notWordLike, n, p, items[|items| - 1])
  }

  /** `[...block.items, block.blockScope, ...block.blockGrafts]`. */
  function BlockItems(b: Block): seq<Item>
  {
    b.items + [BlockScope(b)] + b.blockGrafts
  }

  /** The items of every block, in the order the record pass visits them. */
  function AllBlockItems(bs: seq<Block>): seq<Item>
  {
    if bs == [] then [] else AllBlockItems(bs[..|bs| - 1]) + BlockItems(bs[|bs| - 1])
  }

  lemma AllBlockItemsStep(bs: seq<Block>, k: nat)
    requires k < |bs|
    ensures AllBlockItems(bs[..k + 1]) == AllBlockItems(bs[..k]) + BlockItems(bs[k])
  {
    assert bs[..k + 1][..k] == bs[..k];
  }

  /** What the importer reads of a parsed sequence: its id, its type and
      its blocks. */
  datatype SeqSnap = SeqSnap(id: Id, seqType: string, blocks: seq<Block>)

  /** A sequence of the record pass: its id in "ids", then its items. */
  function RecordSequence(notWordLike: string -> bool, n: map<string, nat>, pes: PreEnumMap, s: SeqSnap): Result<PreEnumMap>
  {
    match RecordValue(pes, "ids", s.id)
    case Err(e) => Err(e)
    case Ok(p) => RecordItems(notWordLike, n, p, AllBlockItems(s.blocks))
  }

  /** The loop of `succinctPass1` over `allSequences()`. */
  function RecordSequences(notWordLike: string -> bool, n: map<string, nat>, pes: PreEnumMap, ss: seq<SeqSnap>): Result<PreEnumMap>
    decreases |ss|
  {
    if ss == [] then Ok(pes)
    else
      match RecordSequences(notWordLike, n, pes, ss[..|ss| - 1])
      case Err(e) => Err(e)
      case Ok(p) => RecordSequence(notWordLike, n, p, ss[|ss| - 1])
  }

  /** `succinctPass1` on the pre-enums: every sequence recorded; then all
      categories sorted by frequency when the doc set's wordLike table is
      still empty (before its first document is packed). */
  function Pass1(notWordLike: string -> bool, n: map<string, nat>, pes: PreEnumMap, enums: map<string, seq<byte>>, ss: seq<SeqSnap>): (r: Result<PreEnumMap>)
    requires AllWellFormed(pes)
    ensures r.Ok? ==> AllWellFormed(r.value) && r.value.Keys == pes.Keys
    ensures r.Ok? <==> RecordSequences(notWordLike, n, pes, ss).Ok? && "wordLike" in enums
  {
    var rec := RecordSequences(notWordLike, n, pes, ss);
    RecordSequencesKeys(notWordLike, n, pes, ss);
    match rec
    case Err(e) => Err(e)
    case Ok(p) =>
      match WordLikeEmpty(enums)
      case Err(e) => Err(e)
      case Ok(empty) => if empty then Ok(SortAll(p)) else Ok(p)
  }

  // ---------------------------------------------------------------------
  // Shape of the record pass

  lemma {:induction false} RecordItemsKeys(notWordLike: string -> bool, n: map<string, nat>, pes: PreEnumMap, items: seq<Item>)
    ensures RecordItems(notWordLike, n, pes, items).Ok? ==> RecordItems(notWordLike, n, pes, items).value.Keys == pes.Keys
    ensures RecordItems(notWordLike, n, pes, items).Ok? && AllWellFormed(pes) ==> AllWellFormed(RecordItems(notWordLike, n, pes, items).value)
    decreases |items|
  {
    if items != [] {
      RecordItemsKeys(notWordLike, n, pes, items[..|items| - 1]);
    }
  }

  lemma {:induction false} RecordSequencesKeys(notWordLike: string -> bool, n: map<string, nat>, pes: PreEnumMap, ss: seq<SeqSnap>)
    ensures RecordSequences(notWordLike, n, pes, ss).Ok? ==> RecordSequences(notWordLike, n, pes, ss).value.Keys == pes.Keys
    ensures RecordSequences(notWordLike, n, pes, ss).Ok? && AllWellFormed(pes) ==> AllWellFormed(RecordSequences(notWordLike, n, pes, ss).value)
    decreases |ss|
  {
    if ss != [] {
      var init := ss[..|ss| - 1];
      RecordSequencesKeys(notWordLike, n, pes, init);
      var pre := RecordSequences(notWordLike, n, pes, init);
      if pre.Ok? {
        var s := ss[|ss| - 1];
        var q := RecordValue(pre.value, "ids", s.id);
        if q.Ok? {
          RecordItemsKeys(notWordLike, n, q.value, AllBlockItems(s.blocks));
        }
      }
    }
  }

  /** Recording an item touches only the categories of its pairs: a
      token's text category, "graftTypes" or "scopeBits"; every other
      category is as it was. */
  lemma RecordItemOnlyItsCategory(notWordLike: string -> bool, n: map<string, nat>, pes: PreEnumMap, item: Item, c: string)
    requires RecordItem(notWordLike, n, pes, item).Ok? && c in pes
    requires forall q :: q in RecordedPairs(notWordLike, item) ==> q.0 != c
    ensures RecordItem(notWordLike, n, pes, item).value[c] == pes[c]
  {
    var ps := RecordedPairs(notWordLike, item);
    forall i | 0 <= i < |ps| ensures ps[i].0 != c {
      assert ps[i] in ps;
    }
    RecordPairsUntouched(pes, ps, c);
  }

  /** A start scope throws exactly when its label has the wrong number of
      components (and its categories exist); an end scope records nothing. */
  lemma ScopeRecording(notWordLike: string -> bool, n: map<string, nat>, pes: PreEnumMap, isStart: bool, scopeLabel: string)
    requires "scopeBits" in pes
    ensures isStart ==> (RecordItem(notWordLike, n, pes, Scope(isStart, scopeLabel)).Ok? <==> ComponentsMatch(n, scopeLabel))
    ensures isStart && ComponentsMatch(n, scopeLabel) ==>
              RecordItem(notWordLike, n, pes, Scope(isStart, scopeLabel)).value.Keys == pes.Keys &&
              forall v :: v in Split(scopeLabel)[1..] ==> Found(RecordItem(notWordLike, n, pes, Scope(isStart, scopeLabel)).value, "scopeBits", v)
    ensures !isStart ==> RecordItem(notWordLike, n, pes, Scope(isStart, scopeLabel)) == Ok(pes)
  {
    var pairs := RecordedPairs(notWordLike, Scope(isStart, scopeLabel));
    RecordPairsOkIff(pes, pairs);
    if isStart && ComponentsMatch(n, scopeLabel) {
      RecordPairsFinds(pes, pairs);
    }
  }

  // ---------------------------------------------------------------------
  // What the record pass makes findable

  /** `enumForCategoryValue(c, v)` would return an entry. */
  predicate Found(pes: PreEnumMap, c: string, v: string)
    ensures Found(pes, c, v) <==> EnumFor(pes, c, v).Ok?
  {
    c in pes && v in pes[c].entries
  }

  /** Recording pairs never loses an entry. */
  lemma {:induction false} RecordPairsKeeps(pes: PreEnumMap, pairs: seq<(string, string)>, c: string, v: string)
    requires RecordPairs(pes, pairs).Ok? && Found(pes, c, v)
    ensures Found(RecordPairs(pes, pairs).value, c, v)
    decreases |pairs|
  {
    if pairs != [] {
      var init := pairs[..|pairs| - 1];
      RecordPairsKeeps(pes, init, c, v);
      var (c2, v2) := pairs[|pairs| - 1];
      RecordKeepsLookups(RecordPairs(pes, init).value, c2, v2, c, v);
    }
  }

  /** After recording one value, it is found, and so is everything found
      before. */
  lemma RecordValueFinds(pes: PreEnumMap, c: string, v: string, c0: string, v0: string)
    requires RecordValue(pes, c, v).Ok?
    requires (c0, v0) == (c, v) || Found(pes, c0, v0)
    ensures Found(RecordValue(pes, c, v).value, c0, v0)
  {
    if (c0, v0) == (c, v) {
      RecordThenLookup(pes, c, v);
    } else {
      RecordKeepsLookups(pes, c, v, c0, v0);
    }
  }

  /** After recording pairs, each of them is found. */
  lemma {:induction false} RecordPairsFinds(pes: PreEnumMap, pairs: seq<(string, string)>)
    requires RecordPairs(pes, pairs).Ok?
    ensures forall i :: 0 <= i < |pairs| ==> Found(RecordPairs(pes, pairs).value, pairs[i].0, pairs[i].1)
    decreases |pairs|
  {
    if pairs != [] {
      var init := pairs[..|pairs| - 1];
      var last := pairs[|pairs| - 1];
      var pre := RecordPairs(pes, init);
      assert pre.Ok?;
      RecordPairsFinds(pes, init);
      var r := RecordPairs(pes, pairs);
      assert r == RecordValue(pre.value, last.0, last.1);
      forall i | 0 <= i < |pairs| ensures Found(r.value, pairs[i].0, pairs[i].1) {
        var q := pairs[i];
        if i < |init| {
          assert q == init[i];
          assert Found(pre.value, q.0, q.1);
        } else {
          assert i == |pairs| - 1;
        }
        RecordValueFinds(pre.value, last.0, last.1, q.0, q.1);
      }
    }
  }

  lemma RecordItemKeeps(notWordLike: string -> bool, n: map<string, nat>, pes: PreEnumMap, item: Item, c: string, v: string)
    requires RecordItem(notWordLike, n, pes, item).Ok? && Found(pes, c, v)
    ensures Found(RecordItem(notWordLike, n, pes, item).value, c, v)
  {
    RecordPairsKeeps(pes, RecordedPairs(notWordLike, item), c, v);
  }

  /** Recording items never loses an entry. */
  lemma {:induction false} RecordItemsKeeps(notWordLike: string -> bool, n: map<string, nat>, pes: PreEnumMap, items: seq<Item>, c: string, v: string)
    requires RecordItems(notWordLike, n, pes, items).Ok? && Found(pes, c, v)
    ensures Found(RecordItems(notWordLike, n, pes, items).value, c, v)
    decreases |items|
  {
    if items != [] {
      var init := items[..|items| - 1];
      RecordItemsKeeps(notWordLike, n, pes, init, c, v);
      RecordItemKeeps(notWordLike, n, RecordItems(notWordLike, n, pes, init).value, items[|items| - 1], c, v);
    }
  }

  /** The pairs recording `items` records. */
  function ItemsPairs(notWordLike: string -> bool, items: seq<Item>): set<(string, string)>
    decreases |items|
  {
    if items == [] then {}
    else
      var ps := RecordedPairs(notWordLike, items[|items| - 1]);
      ItemsPairs(notWordLike, items[..|items| - 1]) + (set j | 0 <= j < |ps| :: ps[j])
  }

  /** The pairs recording the sequences `ss` records: each id, then the
      pairs of its items. */
  function SequencesPairs(notWordLike: string -> bool, ss: seq<SeqSnap>): set<(string, string)>
    decreases |ss|
  {
    if ss == [] then {}
    else
      var s := ss[|ss| - 1];
      SequencesPairs(notWordLike, ss[..|ss| - 1]) + {("ids", s.id)} + ItemsPairs(notWordLike, AllBlockItems(s.blocks))
  }

  /** Every pair of every item recorded is found afterwards. */
  lemma {:induction false} RecordItemsFinds(notWordLike: string -> bool, n: map<string, nat>, pes: PreEnumMap, items: seq<Item>)
    requires RecordItems(notWordLike, n, pes, items).Ok?
    ensures forall q :: q in ItemsPairs(notWordLike, items) ==> Found(RecordItems(notWordLike, n, pes, items).value, q.0, q.1)
    decreases |items|
  {
    if items != [] {
      var init := items[..|items| - 1];
      var last := items[|items| - 1];
      var p := RecordItems(notWordLike, n, pes, init).value;
      var r := RecordItem(notWordLike, n, p, last).value;
      RecordItemsFinds(notWordLike, n, pes, init);
      RecordPairsFinds(p, RecordedPairs(notWordLike, last));
      forall q | q in ItemsPairs(notWordLike, items) ensures Found(r, q.0, q.1) {
        if q in ItemsPairs(notWordLike, init) {
          RecordItemKeeps(notWordLike, n, p, last, q.0, q.1);
        } else {
        }
      }
    }
  }

  lemma RecordSequencesSnoc(notWordLike: string -> bool, n: map<string, nat>, pes: PreEnumMap, ss: seq<SeqSnap>)
    requires ss != [] && RecordSequences(notWordLike, n, pes, ss).Ok?
    ensures RecordSequences(notWordLike, n, pes, ss[..|ss| - 1]).Ok?
    ensures RecordSequence(notWordLike, n, RecordSequences(notWordLike, n, pes, ss[..|ss| - 1]).value, ss[|ss| - 1])
         == RecordSequences(notWordLike, n, pes, ss)
  {
  }

  /** Each sequence's id and every pair of its items is found after the
      record pass. */
  lemma {:induction false} RecordSequencesFinds(notWordLike: string -> bool, n: map<string, nat>, pes: PreEnumMap, ss: seq<SeqSnap>)
    requires RecordSequences(notWordLike, n, pes, ss).Ok?
    ensures forall q :: q in SequencesPairs(notWordLike, ss) ==> Found(RecordSequences(notWordLike, n, pes, ss).value, q.0, q.1)
    decreases |ss|
  {
    if ss != [] {
      var init := ss[..|ss| - 1];
      var s := ss[|ss| - 1];
      RecordSequencesSnoc(notWordLike, n, pes, ss);
      var pre := RecordSequences(notWordLike, n, pes, init).value;
      RecordSequencesFinds(notWordLike, n, pes, init);
      var r := RecordSequences(notWordLike, n, pes, ss).value;
      forall q | q in SequencesPairs(notWordLike, ss) ensures Found(r, q.0, q.1) {
        if q in SequencesPairs(notWordLike, init) || q == ("ids", s.id) {
          LastSequenceKeeps(notWordLike, n, pre, s, q);
        } else {
          LastSequenceFinds(notWordLike, n, pre, s, q);
        }
      }
    }
  }

  /** Recording one more sequence keeps what was found, and finds its id. */
  lemma LastSequenceKeeps(notWordLike: string -> bool, n: map<string, nat>, pre: PreEnumMap, s: SeqSnap, q: (string, string))
    requires RecordSequence(notWordLike, n, pre, s).Ok?
    requires q == ("ids", s.id) || Found(pre, q.0, q.1)
    ensures Found(RecordSequence(notWordLike, n, pre, s).value, q.0, q.1)
  {
    var withId := RecordValue(pre, "ids", s.id).value;
    RecordValueFinds(pre, "ids", s.id, q.0, q.1);
    RecordItemsKeeps(notWordLike, n, withId, AllBlockItems(s.blocks), q.0, q.1);
  }

  /** Recording a sequence finds every pair of its items. */
  lemma LastSequenceFinds(notWordLike: string -> bool, n: map<string, nat>, pre: PreEnumMap, s: SeqSnap, q: (string, string))
    requires RecordSequence(notWordLike, n, pre, s).Ok?
    requires q in ItemsPairs(notWordLike, AllBlockItems(s.blocks))
    ensures Found(RecordSequence(notWordLike, n, pre, s).value, q.0, q.1)
  {
    var withId := RecordValue(pre, "ids", s.id).value;
    RecordItemsFinds(notWordLike, n, withId, AllBlockItems(s.blocks));
  }

  /** What the record pass recorded is found by the pack pass: sorting
      keeps every entry. */
  lemma Pass1Finds(notWordLike: string -> bool, n: map<string, nat>, pes: PreEnumMap, enums: map<string, seq<byte>>, ss: seq<SeqSnap>, q: (string, string))
    requires AllWellFormed(pes)
    requires Pass1(notWordLike, n, pes, enums, ss).Ok? && q in SequencesPairs(notWordLike, ss)
    ensures Found(Pass1(notWordLike, n, pes, enums, ss).value, q.0, q.1)
  {
    RecordSequencesFinds(notWordLike, n, pes, ss);
    RecordSequencesKeys(notWordLike, n, pes, ss);
    if WordLikeEmpty(enums).value {
      SortAllKeepsLookups(RecordSequences(notWordLike, n, pes, ss).value, q.0, q.1);
    }
  }

  // ---------------------------------------------------------------------
  // What the pack pass looks up

  /** Every (category, value) pair `succinctifyBlocks` looks up to encode
      `item`: the text of a token in its subtype's category; the graft type
      and the target id of a graft; each component of a scope label after
      the first. */
  function Lookups(t: Tables, item: Item): set<(string, string)>
  {
    match item
    case Token(itemType, chars) => {(TokenCategory(t, itemType), chars)}
    case Graft(graftType, seqId) => {("graftTypes", graftType), ("ids", seqId)}
    case Scope(_, scopeLabel) => set b | b in Split(scopeLabel)[1..] :: ("scopeBits", b)
  }

  /** An item of a kind the encoder's `switch` handles. */
  predicate Handled(item: Item)
  {
    item.Token? ==> item.itemType in TokenTypes
  }

  /** Everything the pack pass needs to encode `item` is there. */
  predicate ItemOk(pes: PreEnumMap, t: Tables, item: Item)
  {
    Handled(item) && forall q :: q in Lookups(t, item) ==> Found(pes, q.0, q.1)
  }

  /** An item encodes exactly when its kind is handled and everything it
      looks up is found. */
  lemma EncodesIffFound(pes: PreEnumMap, t: Tables, item: Item)
    ensures ItemRecord(pes, t, item).Ok? <==> ItemOk(pes, t, item)
  {
    match item
    case Token(itemType, chars) =>
      assert (TokenCategory(t, itemType), chars) in Lookups(t, item);
    case Graft(graftType, seqId) =>
      assert ("graftTypes", graftType) in Lookups(t, item) && ("ids", seqId) in Lookups(t, item);
    case Scope(isStart, scopeLabel) =>
      var bits := Split(scopeLabel)[1..];
      if ItemOk(pes, t, item) {
        forall i | 0 <= i < |bits| ensures ScopeBitLookup(pes)(bits[i]).Ok? {
          assert ("scopeBits", bits[i]) in Lookups(t, item);
        }
      }
      if ItemRecord(pes, t, item).Ok? {
        forall q | q in Lookups(t, item) ensures Found(pes, q.0, q.1) {
          var b :| b in bits && q == ("scopeBits", b);
          var i :| 0 <= i < |bits| && bits[i] == b;
          assert ScopeBitLookup(pes)(bits[i]).Ok?;
        }
      }
  }

  /** A list of items encodes exactly when each of them does. */
  lemma RecordsOfIffFound(pes: PreEnumMap, t: Tables, xs: seq<Item>)
    ensures RecordsOf(pes, t, xs).Ok? <==> forall x :: x in xs ==> ItemOk(pes, t, x)
  {
    var f := ItemEncoder(pes, t);
    if forall x :: x in xs ==> ItemOk(pes, t, x) {
      forall i | 0 <= i < |xs| ensures f(xs[i]).Ok? {
        EncodesIffFound(pes, t, xs[i]);
      }
    }
    if RecordsOf(pes, t, xs).Ok? {
      forall x | x in xs ensures ItemOk(pes, t, x) {
        var i :| 0 <= i < |xs| && xs[i] == x;
        assert f(xs[i]).Ok?;
        EncodesIffFound(pes, t, x);
      }
    }
  }

  /** Everything the pack pass needs for the items of `b`. */
  ghost predicate BlockOk(pes: PreEnumMap, t: Tables, b: Block)
  {
    forall x :: x in BlockItems(b) ==> ItemOk(pes, t, x)
  }

  /** A block packs exactly when all its items (content, block scope and
      block grafts) encode. */
  lemma PackBlockIffFound(pes: PreEnumMap, t: Tables, b: Block)
    ensures PackBlock(pes, t, b).Ok? <==> BlockOk(pes, t, b)
  {
    RecordsOfIffFound(pes, t, b.items);
    RecordsOfIffFound(pes, t, b.blockGrafts);
    EncodesIffFound(pes, t, BlockScope(b));
    assert ItemRecord(pes, t, BlockScope(b)) == ScopeRecord(pes, t, true, b.blockScopeLabel);
    assert forall x :: x in BlockItems(b) <==> x in b.items || x == BlockScope(b) || x in b.blockGrafts;
  }

  /** A sequence's blocks pack exactly when every item of every block
      encodes. */
  lemma PackBlocksIffFound(pes: PreEnumMap, t: Tables, bs: seq<Block>)
    ensures PackBlocks(pes, t, bs).Ok? <==> forall b :: b in bs ==> BlockOk(pes, t, b)
  {
    var f := BlockPacker(pes, t);
    if forall b :: b in bs ==> BlockOk(pes, t, b) {
      forall i | 0 <= i < |bs| ensures f(bs[i]).Ok? {
        PackBlockIffFound(pes, t, bs[i]);
      }
    }
    if PackBlocks(pes, t, bs).Ok? {
      forall b | b in bs ensures BlockOk(pes, t, b) {
        var i :| 0 <= i < |bs| && bs[i] == b;
        assert f(bs[i]).Ok?;
        PackBlockIffFound(pes, t, b);
      }
    }
  }

  /** What the pack pass as written needs of `b`: its content items and
      its block scope; its block grafts are never encoded. */
  ghost predicate BlockOkAsWritten(pes: PreEnumMap, t: Tables, b: Block)
  {
    (forall x :: x in b.items ==> ItemOk(pes, t, x)) && ItemOk(pes, t, BlockScope(b))
  }

  /** As `succinctifyBlocks` is written, a block packs exactly when its
      content items and its block scope encode. */
  lemma PackBlockAsWrittenIffFound(pes: PreEnumMap, t: Tables, b: Block)
    ensures PackBlockAsWritten(pes, t, b).Ok? <==> BlockOkAsWritten(pes, t, b)
  {
    RecordsOfIffFound(pes, t, b.items);
    EncodesIffFound(pes, t, BlockScope(b));
    assert ItemRecord(pes, t, BlockScope(b)) == ScopeRecord(pes, t, true, b.blockScopeLabel);
  }

  /** As `succinctifyBlocks` is written, a sequence's blocks pack exactly
      when every content item and every block scope encodes. */
  lemma PackBlocksAsWrittenIffFound(pes: PreEnumMap, t: Tables, bs: seq<Block>)
    ensures PackBlocksAsWritten(pes, t, bs).Ok? <==> forall b :: b in bs ==> BlockOkAsWritten(pes, t, b)
  {
    var f := AsWrittenPacker(pes, t);
    if forall b :: b in bs ==> BlockOkAsWritten(pes, t, b) {
      forall i | 0 <= i < |bs| ensures f(bs[i]).Ok? {
        PackBlockAsWrittenIffFound(pes, t, bs[i]);
      }
    }
    if PackBlocksAsWritten(pes, t, bs).Ok? {
      forall b | b in bs ensures BlockOkAsWritten(pes, t, b) {
        var i :| 0 <= i < |bs| && bs[i] == b;
        assert f(bs[i]).Ok?;
        PackBlockAsWrittenIffFound(pes, t, b);
      }
    }
  }

  // ---------------------------------------------------------------------
  // Enum totality

  /** A token subtype that the record pass files under the category the
      encoder looks its text up in. */
  predicate Classified(notWordLike: string -> bool, t: Tables, itemType: string)
  {
    if itemType == "wordLike" then TokenCategory(t, itemType) == "wordLike"
    else notWordLike(itemType) && TokenCategory(t, itemType) == "notWordLike"
  }

  /** What the pack pass needs of an item of the document `ss`: a handled
      kind; a token whose subtype is classified; a graft whose target is one
      of the document's sequences; an end scope whose label is started
      somewhere in the document. */
  ghost predicate Covered(notWordLike: string -> bool, t: Tables, ss: seq<SeqSnap>, x: Item)
  {
    Handled(x) &&
    match x
    case Token(itemType, _) => Classified(notWordLike, t, itemType)
    case Graft(_, seqId) => exists m :: 0 <= m < |ss| && ss[m].id == seqId
    case Scope(isStart, scopeLabel) =>
      isStart || exists m :: 0 <= m < |ss| && Scope(true, scopeLabel) in AllBlockItems(ss[m].blocks)
  }

  lemma {:induction false} ItemsPairsHas(notWordLike: string -> bool, items: seq<Item>, x: Item, q: (string, string))
    requires x in items && q in RecordedPairs(notWordLike, x)
    ensures q in ItemsPairs(notWordLike, items)
    decreases |items|
  {
    var init := items[..|items| - 1];
    var ps := RecordedPairs(notWordLike, items[|items| - 1]);
    if x == items[|items| - 1] {
      var j :| 0 <= j < |ps| && ps[j] == q;
    } else {
      assert x in init;
      ItemsPairsHas(notWordLike, init, x, q);
    }
  }

  lemma {:induction false} SequencesPairsHas(notWordLike: string -> bool, ss: seq<SeqSnap>, k: nat)
    requires k < |ss|
    ensures ("ids", ss[k].id) in SequencesPairs(notWordLike, ss)
    ensures ItemsPairs(notWordLike, AllBlockItems(ss[k].blocks)) <= SequencesPairs(notWordLike, ss)
    decreases |ss|
  {
    if k < |ss| - 1 {
      var init := ss[..|ss| - 1];
      assert init[k] == ss[k];
      SequencesPairsHas(notWordLike, init, k);
    }
  }

  lemma {:induction false} AllBlockItemsHas(bs: seq<Block>, b: Block, x: Item)
    requires b in bs && x in BlockItems(b)
    ensures x in AllBlockItems(bs)
    decreases |bs|
  {
    if b != bs[|bs| - 1] {
      AllBlockItemsHas(bs[..|bs| - 1], b, x);
    }
  }

  /** Whatever a covered item of a sequence of `ss` looks up is recorded
      while recording `ss`. */
  lemma LookupsRecorded(notWordLike: string -> bool, t: Tables, ss: seq<SeqSnap>, k: nat, x: Item)
    requires k < |ss| && x in AllBlockItems(ss[k].blocks) && Covered(notWordLike, t, ss, x)
    ensures forall q :: q in Lookups(t, x) ==> q in SequencesPairs(notWordLike, ss)
  {
    forall q | q in Lookups(t, x) ensures q in SequencesPairs(notWordLike, ss) {
      LookupRecorded(notWordLike, t, ss, k, x, q);
    }
  }

  /** One lookup of a covered item is recorded. */
  lemma LookupRecorded(notWordLike: string -> bool, t: Tables, ss: seq<SeqSnap>, k: nat, x: Item, q: (string, string))
    requires k < |ss| && x in AllBlockItems(ss[k].blocks) && Covered(notWordLike, t, ss, x)
    requires q in Lookups(t, x)
    ensures q in SequencesPairs(notWordLike, ss)
  {
    SequencesPairsHas(notWordLike, ss, k);
    match x
    case Token(itemType, chars) =>
      ItemsPairsHas(notWordLike, AllBlockItems(ss[k].blocks), x, q);
    case Graft(graftType, seqId) =>
      if q == ("graftTypes", graftType) {
        ItemsPairsHas(notWordLike, AllBlockItems(ss[k].blocks), x, q);
      } else {
        var m :| 0 <= m < |ss| && ss[m].id == seqId;
        SequencesPairsHas(notWordLike, ss, m);
      }
    case Scope(isStart, scopeLabel) =>
      ScopeLookupRecorded(notWordLike, t, ss, k, isStart, scopeLabel, q);
  }

  /** A scope's "scopeBits" lookups are recorded by its start. */
  lemma ScopeLookupRecorded(notWordLike: string -> bool, t: Tables, ss: seq<SeqSnap>, k: nat, isStart: bool, scopeLabel: string,
                            q: (string, string))
    requires k < |ss| && Scope(isStart, scopeLabel) in AllBlockItems(ss[k].blocks)
    requires Covered(notWordLike, t, ss, Scope(isStart, scopeLabel))
    requires q in Lookups(t, Scope(isStart, scopeLabel))
    ensures q in SequencesPairs(notWordLike, ss)
  {
    var x := Scope(isStart, scopeLabel);
    var bits := Split(scopeLabel)[1..];
    var b :| b in bits && q == ("scopeBits", b);
    var i :| 0 <= i < |bits| && bits[i] == b;
    var start := Scope(true, scopeLabel);
    assert RecordedPairs(notWordLike, start)[i] == q;
    var m: nat := k;
    if !isStart {
      m :| 0 <= m < |ss| && start in AllBlockItems(ss[m].blocks);
    }
    SequencesPairsHas(notWordLike, ss, m);
    ItemsPairsHas(notWordLike, AllBlockItems(ss[m].blocks), start, q);
  }

  /** Enum totality: after a successful record pass over a document, every
      sequence whose items are covered packs without a missing enum. */
  lemma Totality(notWordLike: string -> bool, n: map<string, nat>, pes: PreEnumMap, enums: map<string, seq<byte>>,
                 ss: seq<SeqSnap>, t: Tables, k: nat)
    requires AllWellFormed(pes) && Pass1(notWordLike, n, pes, enums, ss).Ok?
    requires k < |ss| && forall x :: x in AllBlockItems(ss[k].blocks) ==> Covered(notWordLike, t, ss, x)
    ensures PackBlocks(Pass1(notWordLike, n, pes, enums, ss).value, t, ss[k].blocks).Ok?
    ensures PackBlocksAsWritten(Pass1(notWordLike, n, pes, enums, ss).value, t, ss[k].blocks).Ok?
  {
    var r := Pass1(notWordLike, n, pes, enums, ss).value;
    forall b | b in ss[k].blocks ensures BlockOk(r, t, b) {
      forall x | x in BlockItems(b) ensures ItemOk(r, t, x) {
        AllBlockItemsHas(ss[k].blocks, b, x);
        LookupsRecorded(notWordLike, t, ss, k, x);
        forall q | q in Lookups(t, x) ensures Found(r, q.0, q.1) {
          Pass1Finds(notWordLike, n, pes, enums, ss, q);
        }
      }
    }
    PackBlocksIffFound(r, t, ss[k].blocks);
    PackedPacksAsWritten(r, t, ss[k].blocks);
  }

  // ---------------------------------------------------------------------
  // When the record pass throws

  /** The doc set has every category of a new doc set. */
  predicate HasCategories(pes: PreEnumMap)
  {
    forall c :: c in Categories ==> c in pes
  }

  /** A start scope whose label has the component count its type wants. */
  predicate ScopeFits(n: map<string, nat>, x: Item)
  {
    x.Scope? && x.isStart ==> ComponentsMatch(n, x.scopeLabel)
  }

  /** With every category present, recording an item throws exactly when
      it is a start scope with the wrong number of components. */
  lemma RecordItemOkIff(notWordLike: string -> bool, n: map<string, nat>, pes: PreEnumMap, x: Item)
    requires HasCategories(pes)
    ensures RecordItem(notWordLike, n, pes, x).Ok? <==> ScopeFits(n, x)
  {
    var ps := RecordedPairs(notWordLike, x);
    forall i | 0 <= i < |ps| ensures ps[i].0 in pes {
      assert ps[i].0 in Categories;
    }
    RecordPairsOkIff(pes, ps);
  }

  lemma {:induction false} RecordItemsOkIff(notWordLike: string -> bool, n: map<string, nat>, pes: PreEnumMap, items: seq<Item>)
    requires HasCategories(pes)
    ensures RecordItems(notWordLike, n, pes, items).Ok? <==> forall x :: x in items ==> ScopeFits(n, x)
    decreases |items|
  {
    if items != [] {
      var init := items[..|items| - 1];
      var last := items[|items| - 1];
      RecordItemsOkIff(notWordLike, n, pes, init);
      RecordItemsKeys(notWordLike, n, pes, init);
      if RecordItems(notWordLike, n, pes, init).Ok? {
        RecordItemOkIff(notWordLike, n, RecordItems(notWordLike, n, pes, init).value, last);
      }
      assert forall x :: x in items <==> x in init || x == last;
    }
  }

  /** Every start scope of every sequence of `ss` fits. */
  ghost predicate ScopesFit(n: map<string, nat>, ss: seq<SeqSnap>)
  {
    forall k, x :: 0 <= k < |ss| && x in AllBlockItems(ss[k].blocks) ==> ScopeFits(n, x)
  }

  /** With every category present, the record pass throws exactly when
      some start scope of the document has the wrong number of components. */
  lemma ScopesFitSnoc(n: map<string, nat>, ss: seq<SeqSnap>)
    requires ss != []
    ensures ScopesFit(n, ss) <==>
              ScopesFit(n, ss[..|ss| - 1]) && forall x :: x in AllBlockItems(ss[|ss| - 1].blocks) ==> ScopeFits(n, x)
  {
    var init := ss[..|ss| - 1];
    assert forall k :: 0 <= k < |init| ==> init[k] == ss[k];
  }

  lemma RecordSequencesStep(notWordLike: string -> bool, n: map<string, nat>, pes: PreEnumMap, ss: seq<SeqSnap>)
    requires ss != []
    ensures var pre := RecordSequences(notWordLike, n, pes, ss[..|ss| - 1]);
            RecordSequences(notWordLike, n, pes, ss) ==
              if pre.Err? then pre else RecordSequence(notWordLike, n, pre.value, ss[|ss| - 1])
  {
  }

  /** With every category present, the record pass throws exactly when
      some start scope of the document has the wrong number of components. */
  lemma {:induction false} RecordSequencesOkIff(notWordLike: string -> bool, n: map<string, nat>, pes: PreEnumMap, ss: seq<SeqSnap>)
    requires HasCategories(pes)
    ensures RecordSequences(notWordLike, n, pes, ss).Ok? <==> ScopesFit(n, ss)
    decreases |ss|
  {
    if ss != [] {
      var init := ss[..|ss| - 1];
      var s := ss[|ss| - 1];
      RecordSequencesOkIff(notWordLike, n, pes, init);
      RecordSequencesKeys(notWordLike, n, pes, init);
      RecordSequencesStep(notWordLike, n, pes, ss);
      ScopesFitSnoc(n, ss);
      var pre := RecordSequences(notWordLike, n, pes, init);
      if pre.Ok? {
        assert "ids" in pre.value;
        var withId := RecordValue(pre.value, "ids", s.id).value;
        RecordItemsOkIff(notWordLike, n, withId, AllBlockItems(s.blocks));
      }
    }
  }

  // ---------------------------------------------------------------------
  // The record loops, on a doc set

  lemma RecordPairsOne(pes: PreEnumMap, c: string, v: string)
    ensures RecordPairs(pes, [(c, v)]) == RecordValue(pes, c, v)
  {
    assert [(c, v)][..0] == [];
  }

  lemma RecordPairsStep(pes: PreEnumMap, pairs: seq<(string, string)>, k: nat)
    requires k < |pairs|
    ensures RecordPairs(pes, pairs[..k + 1]) ==
              if RecordPairs(pes, pairs[..k]).Err? then RecordPairs(pes, pairs[..k])
              else RecordValue(RecordPairs(pes, pairs[..k]).value, pairs[k].0, pairs[k].1)
  {
    assert pairs[..k + 1][..k] == pairs[..k];
  }

  /** Once a pair has thrown, later pairs change nothing. */
  lemma {:induction false} RecordPairsPrefixErr(pes: PreEnumMap, pairs: seq<(string, string)>, k: nat)
    requires k <= |pairs| && RecordPairs(pes, pairs[..k]).Err?
    ensures RecordPairs(pes, pairs) == RecordPairs(pes, pairs[..k])
    decreases |pairs| - k
  {
    if k == |pairs| {
      assert pairs[..k] == pairs;
    } else {
      RecordPairsStep(pes, pairs, k);
      RecordPairsPrefixErr(pes, pairs, k + 1);
    }
  }

  lemma RecordItemsSnoc(notWordLike: string -> bool, n: map<string, nat>, pes: PreEnumMap, items: seq<Item>, x: Item)
    ensures RecordItems(notWordLike, n, pes, items + [x]) ==
              if RecordItems(notWordLike, n, pes, items).Err? then RecordItems(notWordLike, n, pes, items)
              else RecordItem(notWordLike, n, RecordItems(notWordLike, n, pes, items).value, x)
  {
    assert (items + [x])[..|items|] == items;
  }

  /** Once an item has thrown, later items change nothing. */
  lemma {:induction false} RecordItemsPrefixErr(notWordLike: string -> bool, n: map<string, nat>, pes: PreEnumMap, items: seq<Item>, all: seq<Item>)
    requires items <= all && RecordItems(notWordLike, n, pes, items).Err?
    ensures RecordItems(notWordLike, n, pes, all) == RecordItems(notWordLike, n, pes, items)
    decreases |all|
  {
    if all != items {
      var init := all[..|all| - 1];
      assert items <= init;
      RecordItemsPrefixErr(notWordLike, n, pes, items, init);
    }
  }

  lemma {:induction false} AllBlockItemsPrefix(bs: seq<Block>, k: nat)
    requires k <= |bs|
    ensures AllBlockItems(bs[..k]) <= AllBlockItems(bs)
    decreases |bs|
  {
    if k < |bs| {
      var init := bs[..|bs| - 1];
      assert init[..k] == bs[..k];
      AllBlockItemsPrefix(init, k);
    } else {
      assert bs[..k] == bs;
    }
  }

  lemma RecordSequencesSnocAny(notWordLike: string -> bool, n: map<string, nat>, pes: PreEnumMap, ss: seq<SeqSnap>, s: SeqSnap)
    ensures RecordSequences(notWordLike, n, pes, ss + [s]) ==
              if RecordSequences(notWordLike, n, pes, ss).Err? then RecordSequences(notWordLike, n, pes, ss)
              else RecordSequence(notWordLike, n, RecordSequences(notWordLike, n, pes, ss).value, s)
  {
    assert (ss + [s])[..|ss|] == ss;
  }

  lemma RecordSequencesAt(notWordLike: string -> bool, n: map<string, nat>, pes: PreEnumMap, ss: seq<SeqSnap>, k: nat, p: PreEnumMap)
    requires k < |ss| && RecordSequences(notWordLike, n, pes, ss[..k]) == Ok(p)
    ensures RecordSequences(notWordLike, n, pes, ss[..k + 1]) == RecordSequence(notWordLike, n, p, ss[k])
  {
    assert ss[..k + 1][..k] == ss[..k];
  }

  /** Once a sequence has thrown, later sequences change nothing. */
  lemma {:induction false} RecordSequencesPrefixErr(notWordLike: string -> bool, n: map<string, nat>, pes: PreEnumMap, ss: seq<SeqSnap>, all: seq<SeqSnap>)
    requires ss <= all && RecordSequences(notWordLike, n, pes, ss).Err?
    ensures RecordSequences(notWordLike, n, pes, all) == RecordSequences(notWordLike, n, pes, ss)
    decreases |all|
  {
    if all != ss {
      var init := all[..|all| - 1];
      assert ss <= init;
      RecordSequencesPrefixErr(notWordLike, n, pes, ss, init);
    }
  }

  /** `recordPreEnum("scopeBits", b)` for each component in turn. */
  method RecordScopeBits(docSet: DocSet, bits: seq<string>) returns (o: Outcome)
    requires docSet.Valid()
    modifies docSet
    ensures docSet.Valid() && docSet.enums == old(docSet.enums) && docSet.docIds == old(docSet.docIds)
    ensures o.Pass? <==> RecordPairs(old(docSet.preEnums), ScopeBitPairs(bits)).Ok?
    ensures o.Pass? ==> docSet.preEnums == RecordPairs(old(docSet.preEnums), ScopeBitPairs(bits)).value
    ensures o.Fail? ==> o.error == RecordPairs(old(docSet.preEnums), ScopeBitPairs(bits)).error
  {
    var pes0 := docSet.preEnums;
    var pairs := ScopeBitPairs(bits);
    var i := 0;
    while i < |bits|
      invariant 0 <= i <= |bits|
      invariant docSet.Valid() && docSet.enums == old(docSet.enums) && docSet.docIds == old(docSet.docIds)
      invariant RecordPairs(pes0, pairs[..i]) == Ok(docSet.preEnums)
    {
      ghost var pre := docSet.preEnums;
      o := docSet.RecordPreEnum("scopeBits", bits[i]);
      RecordPairsStep(pes0, pairs, i);
      assert pairs[i] == ("scopeBits", bits[i]);
      assert RecordPairs(pes0, pairs[..i + 1]) == RecordValue(pre, "scopeBits", bits[i]);
      if o.Fail? {
        RecordPairsPrefixErr(pes0, pairs, i + 1);
        return;
      }
      i := i + 1;
    }
    assert pairs[..i] == pairs;
    return Pass;
  }

  /** The body of the loop of `recordPreEnums` for one item. */
  method RecordItemInto(docSet: DocSet, notWordLike: string -> bool, n: map<string, nat>, item: Item) returns (o: Outcome)
    requires docSet.Valid()
    modifies docSet
    ensures docSet.Valid() && docSet.enums == old(docSet.enums) && docSet.docIds == old(docSet.docIds)
    ensures o.Pass? <==> RecordItem(notWordLike, n, old(docSet.preEnums), item).Ok?
    ensures o.Pass? ==> docSet.preEnums == RecordItem(notWordLike, n, old(docSet.preEnums), item).value
    ensures o.Fail? ==> o.error == RecordItem(notWordLike, n, old(docSet.preEnums), item).error
  {
    match item
    case Token(itemType, chars) =>
      if itemType == "wordLike" {
        RecordPairsOne(docSet.preEnums, "wordLike", chars);
        o := docSet.RecordPreEnum("wordLike", chars);
      } else if notWordLike(itemType) {
        RecordPairsOne(docSet.preEnums, "notWordLike", chars);
        o := docSet.RecordPreEnum("notWordLike", chars);
      } else {
        o := Pass;
      }
    case Graft(graftType, _) =>
      RecordPairsOne(docSet.preEnums, "graftTypes", graftType);
      o := docSet.RecordPreEnum("graftTypes", graftType);
    case Scope(isStart, scopeLabel) =>
      if !isStart {
        return Pass;
      }
      var bits := Split(scopeLabel);
      if !(bits[0] in n && |bits| == n[bits[0]]) {
        return Fail(ScopeComponentCountMismatch(scopeLabel));
      }
      o := RecordScopeBits(docSet, bits[1..]);
  }

  /** Recording two lists of items is recording the first, then the second. */
  lemma {:induction false} RecordItemsConcat(notWordLike: string -> bool, n: map<string, nat>, pes: PreEnumMap, xs: seq<Item>, ys: seq<Item>)
    requires RecordItems(notWordLike, n, pes, xs).Ok?
    ensures RecordItems(notWordLike, n, pes, xs + ys) == RecordItems(notWordLike, n, RecordItems(notWordLike, n, pes, xs).value, ys)
    decreases |ys|
  {
    if ys == [] {
      assert xs + ys == xs;
    } else {
      var init := ys[..|ys| - 1];
      var last := ys[|ys| - 1];
      assert (xs + ys)[..|xs + ys| - 1] == xs + init && (xs + ys)[|xs + ys| - 1] == last;
      RecordItemsConcat(notWordLike, n, pes, xs, init);
      var p := RecordItems(notWordLike, n, pes, xs).value;
      var q := RecordItems(notWordLike, n, p, init);
      assert RecordItems(notWordLike, n, p, ys) == if q.Err? then q else RecordItem(notWordLike, n, q.value, last);
    }
  }

  lemma RecordBlocksAt(notWordLike: string -> bool, n: map<string, nat>, pes: PreEnumMap, blocks: seq<Block>, b: nat, p: PreEnumMap)
    requires b < |blocks| && RecordItems(notWordLike, n, pes, AllBlockItems(blocks[..b])) == Ok(p)
    ensures RecordItems(notWordLike, n, pes, AllBlockItems(blocks[..b + 1])) == RecordItems(notWordLike, n, p, BlockItems(blocks[b]))
  {
    AllBlockItemsStep(blocks, b);
    RecordItemsConcat(notWordLike, n, pes, AllBlockItems(blocks[..b]), BlockItems(blocks[b]));
  }

  /** One more item recorded: its result continues the loop, or its error
      is the error of the whole list. */
  lemma RecordItemsStep(notWordLike: string -> bool, n: map<string, nat>, pes: PreEnumMap, items: seq<Item>, i: nat, pre: PreEnumMap)
    requires i < |items| && RecordItems(notWordLike, n, pes, items[..i]) == Ok(pre)
    ensures RecordItem(notWordLike, n, pre, items[i]).Ok? ==>
              RecordItems(notWordLike, n, pes, items[..i + 1]) == RecordItem(notWordLike, n, pre, items[i])
    ensures RecordItem(notWordLike, n, pre, items[i]).Err? ==>
              RecordItems(notWordLike, n, pes, items) == RecordItem(notWordLike, n, pre, items[i])
  {
    assert items[..i + 1] == items[..i] + [items[i]];
    RecordItemsSnoc(notWordLike, n, pes, items[..i], items[i]);
    if RecordItem(notWordLike, n, pre, items[i]).Err? {
      RecordItemsPrefixErr(notWordLike, n, pes, items[..i + 1], items);
    }
  }

  /** The inner loop of `recordPreEnums`: the items of one block. */
  method RecordItemsInto(docSet: DocSet, notWordLike: string -> bool, n: map<string, nat>, items: seq<Item>) returns (o: Outcome)
    requires docSet.Valid()
    modifies docSet
    ensures docSet.Valid() && docSet.enums == old(docSet.enums) && docSet.docIds == old(docSet.docIds)
    ensures o.Pass? <==> RecordItems(notWordLike, n, old(docSet.preEnums), items).Ok?
    ensures o.Pass? ==> docSet.preEnums == RecordItems(notWordLike, n, old(docSet.preEnums), items).value
    ensures o.Fail? ==> o.error == RecordItems(notWordLike, n, old(docSet.preEnums), items).error
  {
    var pes0 := docSet.preEnums;
    var i := 0;
    while i < |items|
      invariant 0 <= i <= |items|
      invariant docSet.Valid() && docSet.enums == old(docSet.enums) && docSet.docIds == old(docSet.docIds)
      invariant RecordItems(notWordLike, n, pes0, items[..i]) == Ok(docSet.preEnums)
    {
      ghost var pre := docSet.preEnums;
      o := RecordItemInto(docSet, notWordLike, n, items[i]);
      RecordItemsStep(notWordLike, n, pes0, items, i, pre);
      if o.Fail? {
        return;
      }
      i := i + 1;
    }
    assert items[..i] == items;
    return Pass;
  }

  /** `recordPreEnums(docSet, seq)`: every item of every block, in the
      order `[...items, blockScope, ...blockGrafts]`, until one throws. */
  method RecordBlocksInto(docSet: DocSet, notWordLike: string -> bool, n: map<string, nat>, blocks: seq<Block>) returns (o: Outcome)
    requires docSet.Valid()
    modifies docSet
    ensures docSet.Valid() && docSet.enums == old(docSet.enums) && docSet.docIds == old(docSet.docIds)
    ensures o.Pass? <==> RecordItems(notWordLike, n, old(docSet.preEnums), AllBlockItems(blocks)).Ok?
    ensures o.Pass? ==> docSet.preEnums == RecordItems(notWordLike, n, old(docSet.preEnums), AllBlockItems(blocks)).value
    ensures o.Fail? ==> o.error == RecordItems(notWordLike, n, old(docSet.preEnums), AllBlockItems(blocks)).error
  {
    var pes0 := docSet.preEnums;
    var b := 0;
    while b < |blocks|
      invariant 0 <= b <= |blocks|
      invariant docSet.Valid() && docSet.enums == old(docSet.enums) && docSet.docIds == old(docSet.docIds)
      invariant RecordItems(notWordLike, n, pes0, AllBlockItems(blocks[..b])) == Ok(docSet.preEnums)
    {
      RecordBlocksAt(notWordLike, n, pes0, blocks, b, docSet.preEnums);
      o := RecordItemsInto(docSet, notWordLike, n, BlockItems(blocks[b]));
      if o.Fail? {
        AllBlockItemsPrefix(blocks, b + 1);
        RecordItemsPrefixErr(notWordLike, n, pes0, AllBlockItems(blocks[..b + 1]), AllBlockItems(blocks));
        return;
      }
      b := b + 1;
    }
    assert blocks[..b] == blocks;
    return Pass;
  }

  /** The body of the loop of `succinctPass1` for one sequence: its id in
      "ids", then its items. */
  method RecordSequenceInto(docSet: DocSet, notWordLike: string -> bool, n: map<string, nat>, s: SeqSnap) returns (o: Outcome)
    requires docSet.Valid()
    modifies docSet
    ensures docSet.Valid() && docSet.enums == old(docSet.enums) && docSet.docIds == old(docSet.docIds)
    ensures o.Pass? <==> RecordSequence(notWordLike, n, old(docSet.preEnums), s).Ok?
    ensures o.Pass? ==> docSet.preEnums == RecordSequence(notWordLike, n, old(docSet.preEnums), s).value
    ensures o.Fail? ==> o.error == RecordSequence(notWordLike, n, old(docSet.preEnums), s).error
  {
    o := docSet.RecordPreEnum("ids", s.id);
    if o.Fail? {
      return;
    }
    o := RecordBlocksInto(docSet, notWordLike, n, s.blocks);
  }

  /** The loop of `succinctPass1` over the sequences: each id in "ids",
      then the sequence's items. */
  method RecordSequencesInto(docSet: DocSet, notWordLike: string -> bool, n: map<string, nat>, ss: seq<SeqSnap>) returns (o: Outcome)
    requires docSet.Valid()
    modifies docSet
    ensures docSet.Valid() && docSet.enums == old(docSet.enums) && docSet.docIds == old(docSet.docIds)
    ensures o.Pass? <==> RecordSequences(notWordLike, n, old(docSet.preEnums), ss).Ok?
    ensures o.Pass? ==> docSet.preEnums == RecordSequences(notWordLike, n, old(docSet.preEnums), ss).value
    ensures o.Fail? ==> o.error == RecordSequences(notWordLike, n, old(docSet.preEnums), ss).error
  {
    var pes0 := docSet.preEnums;
    var k := 0;
    while k < |ss|
      invariant 0 <= k <= |ss|
      invariant docSet.Valid() && docSet.enums == old(docSet.enums) && docSet.docIds == old(docSet.docIds)
      invariant RecordSequences(notWordLike, n, pes0, ss[..k]) == Ok(docSet.preEnums)
    {
      RecordSequencesAt(notWordLike, n, pes0, ss, k, docSet.preEnums);
      o := RecordSequenceInto(docSet, notWordLike, n, ss[k]);
      if o.Fail? {
        RecordSequencesPrefixErr(notWordLike, n, pes0, ss[..k + 1], ss);
        return;
      }
      k := k + 1;
    }
    assert ss[..k] == ss;
    return Pass;
  }
}
