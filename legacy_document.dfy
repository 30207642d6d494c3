/** model/document.js: a document of the first generation. Its constructor
    dispatches on the content type, lexes and parses the content, records
    every value its sequences use in the doc set's pre-enums (pass 1), packs
    each sequence's blocks against them (pass 2) and clears them. */
module LegacyDocuments {
  import opened Wrappers
  import opened Ids
  import opened ByteArrays
  import opened Defs
  import opened Items
  import opened PreEnums
  import opened DocSets
  import opened Sequences
  import opened Parsers
  import opened Passes
  import opened Serialization

  /** The content types the constructor accepts. */
  datatype Format = Usfm | Usx

  /** The constructor's `switch (contentType)`: usfm and usx, anything else
      throws. */
  function ContentFormat(contentType: string): (r: Result<Format>)
    ensures r.Ok? <==> contentType == "usfm" || contentType == "usx"
    ensures r == Ok(Usfm) <==> contentType == "usfm"
    ensures r == Ok(Usx) <==> contentType == "usx"
    ensures r.Err? ==> r.error == UnknownContentType(contentType)
  {
    if contentType == "usfm" then Ok(Usfm)
    else if contentType == "usx" then Ok(Usx)
    else Err(UnknownContentType(contentType))
  }

  /** What the passes read of a parsed sequence. */
  function Snap(s: Sequence): SeqSnap
    reads s
  {
    SeqSnap(s.id, s.seqType, s.blocks)
  }

  function Snaps(ss: seq<Sequence>): (r: seq<SeqSnap>)
    reads ss
    ensures |r| == |ss| && forall i :: 0 <= i < |ss| ==> r[i] == Snap(ss[i])
  {
    if ss == [] then [] else Snaps(ss[..|ss| - 1]) + [Snap(ss[|ss| - 1])]
  }

  /** Sequences that did not change have the same snapshots. */
  twostate lemma SnapsUnchanged(ss: seq<Sequence>)
    requires forall i :: 0 <= i < |ss| ==> unchanged(ss[i])
    ensures Snaps(ss) == old(Snaps(ss))
  {
  }

  /** What the passes read of `parser.allSequences()`: the snapshots of
      the sequences it lists, or its error. */
  function SnapsOf(all: Result<seq<Sequence>>): (r: Result<seq<SeqSnap>>)
    reads set s | all.Ok? && s in all.value
    ensures r.Ok? <==> all.Ok?
  {
    match all
    case Err(e) => Err(e)
    case Ok(ss) => Ok(Snaps(ss))
  }

  /** An entry of `this.sequences`. */
  datatype SequenceRecord = SequenceRecord(id: Id, seqType: string, isBaseType: bool, blocks: seq<PackedBlock>)

  /** `seq.succinctifyBlocks(docSet)` for a doc set holding `pes`, as it
      is written: content and block scope streams only. */
  function BlocksPacker(pes: PreEnumMap, t: Tables): seq<Block> -> Result<seq<PackedBlock>>
  {
    (bs: seq<Block>) => PackBlocksAsWritten(pes, t, bs)
  }

  /** `succinctifyBlocks` with the block grafts' stream its readers expect. */
  function CorrectedPacker(pes: PreEnumMap, t: Tables): seq<Block> -> Result<seq<PackedBlock>>
  {
    (bs: seq<Block>) => PackBlocks(pes, t, bs)
  }

  /** The loop of `succinctPass2`: each sequence in turn is packed and
      stored under its id (a later sequence with the same id replaces an
      earlier one), until one cannot be packed. */
  function StoreSequences(stored: map<Id, SequenceRecord>, pack: seq<Block> -> Result<seq<PackedBlock>>, baseNames: set<string>,
                          ss: seq<SeqSnap>): Result<map<Id, SequenceRecord>>
    decreases |ss|
  {
    if ss == [] then Ok(stored)
    else
      match pack(ss[0].blocks)
      case Err(e) => Err(e)
      case Ok(blocks) =>
        var s := ss[0];
        StoreSequences(stored[s.id := SequenceRecord(s.id, s.seqType, s.seqType in baseNames, blocks)], pack, baseNames, ss[1..])
  }

  /** Pass 2 completes exactly when every sequence's blocks can be packed. */
  lemma {:induction false} StoreSequencesOkIff(stored: map<Id, SequenceRecord>, pack: seq<Block> -> Result<seq<PackedBlock>>,
                                               baseNames: set<string>, ss: seq<SeqSnap>)
    ensures StoreSequences(stored, pack, baseNames, ss).Ok? <==>
              forall k :: 0 <= k < |ss| ==> pack(ss[k].blocks).Ok?
    decreases |ss|
  {
    if ss != [] {
      var s := ss[0];
      if pack(s.blocks).Ok? {
        var next := stored[s.id := SequenceRecord(s.id, s.seqType, s.seqType in baseNames, pack(s.blocks).value)];
        StoreSequencesOkIff(next, pack, baseNames, ss[1..]);
        assert forall k :: 1 <= k < |ss| ==> ss[k] == ss[1..][k - 1];
      }
    }
  }

  /** The record a sequence is stored as. */
  function RecordOf(pack: seq<Block> -> Result<seq<PackedBlock>>, baseNames: set<string>, s: SeqSnap): SequenceRecord
    requires pack(s.blocks).Ok?
  {
    SequenceRecord(s.id, s.seqType, s.seqType in baseNames, pack(s.blocks).value)
  }

  /** After pass 2, the stored ids are the earlier ones plus the id of
      every sequence. */
  lemma {:induction false} StoreSequencesKeys(stored: map<Id, SequenceRecord>, pack: seq<Block> -> Result<seq<PackedBlock>>,
                                              baseNames: set<string>, ss: seq<SeqSnap>)
    requires StoreSequences(stored, pack, baseNames, ss).Ok?
    ensures StoreSequences(stored, pack, baseNames, ss).value.Keys == stored.Keys + set k | 0 <= k < |ss| :: ss[k].id
    decreases |ss|
  {
    if ss != [] {
      var s := ss[0];
      var rest := ss[1..];
      StoreSequencesKeys(stored[s.id := RecordOf(pack, baseNames, s)], pack, baseNames, rest);
      assert forall k :: 1 <= k < |ss| ==> ss[k] == rest[k - 1];
      assert (set k | 0 <= k < |ss| :: ss[k].id) == {s.id} + set k | 0 <= k < |rest| :: rest[k].id;
    }
  }

  /** After pass 2, an id holds the record of the last sequence with that
      id: its id, its type, whether the type is a base type, and its packed
      blocks. */
  lemma {:induction false} StoreSequencesLast(stored: map<Id, SequenceRecord>, pack: seq<Block> -> Result<seq<PackedBlock>>,
                                              baseNames: set<string>, ss: seq<SeqSnap>, k: nat)
    requires StoreSequences(stored, pack, baseNames, ss).Ok?
    requires k < |ss| && forall j :: k < j < |ss| ==> ss[j].id != ss[k].id
    ensures pack(ss[k].blocks).Ok?
    ensures var r := StoreSequences(stored, pack, baseNames, ss).value;
            ss[k].id in r && r[ss[k].id] == RecordOf(pack, baseNames, ss[k])
    decreases |ss|
  {
    var s := ss[0];
    var next := stored[s.id := RecordOf(pack, baseNames, s)];
    var rest := ss[1..];
    if k == 0 {
      assert forall j :: 0 <= j < |rest| ==> rest[j].id != s.id by {
        assert forall j :: 0 <= j < |rest| ==> rest[j] == ss[j + 1];
      }
      StoreSequencesKeeps(next, pack, baseNames, rest, s.id);
    } else {
      assert rest[k - 1] == ss[k];
      assert forall j :: k - 1 < j < |rest| ==> rest[j] == ss[j + 1];
      StoreSequencesLast(next, pack, baseNames, rest, k - 1);
    }
  }

  /** After pass 2, an id that no sequence has keeps its earlier record. */
  lemma {:induction false} StoreSequencesKeeps(stored: map<Id, SequenceRecord>, pack: seq<Block> -> Result<seq<PackedBlock>>,
                                               baseNames: set<string>, ss: seq<SeqSnap>, id: Id)
    requires StoreSequences(stored, pack, baseNames, ss).Ok?
    requires id in stored && forall k :: 0 <= k < |ss| ==> ss[k].id != id
    ensures var r := StoreSequences(stored, pack, baseNames, ss).value;
            id in r && r[id] == stored[id]
    decreases |ss|
  {
    if ss != [] {
      var s := ss[0];
      var rest := ss[1..];
      assert forall k :: 0 <= k < |rest| ==> rest[k] == ss[k + 1];
      StoreSequencesKeeps(stored[s.id := RecordOf(pack, baseNames, s)], pack, baseNames, rest, id);
    }
  }

  /** The end-to-end guarantee of the import: when pass 1 succeeds and every
      item of the document is covered (its kind handled, its token subtype
      classified, its graft target and its scope start present), pass 2
      packs every sequence. */
  lemma Pass2Total(notWordLike: string -> bool, n: map<string, nat>, pes: PreEnumMap, enums: map<string, seq<byte>>,
                   t: Tables, stored: map<Id, SequenceRecord>, baseNames: set<string>, ss: seq<SeqSnap>)
    requires AllWellFormed(pes) && Pass1(notWordLike, n, pes, enums, ss).Ok?
    requires forall k, x :: 0 <= k < |ss| && x in AllBlockItems(ss[k].blocks) ==> Covered(notWordLike, t, ss, x)
    ensures StoreSequences(stored, BlocksPacker(Pass1(notWordLike, n, pes, enums, ss).value, t), baseNames, ss).Ok?
    ensures StoreSequences(stored, CorrectedPacker(Pass1(notWordLike, n, pes, enums, ss).value, t), baseNames, ss).Ok?
  {
    var r := Pass1(notWordLike, n, pes, enums, ss).value;
    forall k | 0 <= k < |ss|
      ensures CorrectedPacker(r, t)(ss[k].blocks).Ok? && BlocksPacker(r, t)(ss[k].blocks).Ok?
    {
      Totality(notWordLike, n, pes, enums, ss, t, k);
    }
    StoreSequencesOkIff(stored, BlocksPacker(r, t), baseNames, ss);
    StoreSequencesOkIff(stored, CorrectedPacker(r, t), baseNames, ss);
  }

  /** The output of `serializeSuccinctSequence`. */
  datatype SerializedSequence = SerializedSequence(seqType: string, blocks: seq<SerializedBlock>)

  /** The output of `serializeSuccinct`. */
  datatype SerializedDocument = SerializedDocument(headers: map<string, string>, mainId: Option<Id>,
                                                   sequences: map<Id, SerializedSequence>)

  /** `serializeSuccinctSequence`: the type and the blocks, each with the
      streams bs, bg and c. */
  function SerializeSequence(s: SequenceRecord): (r: Result<SerializedSequence>)
    ensures r.Ok? <==> SerializeBlocks(LegacyStreamKeys, s.blocks).Ok?
    ensures r.Ok? ==> r.value.seqType == s.seqType && r.value.blocks == SerializeBlocks(LegacyStreamKeys, s.blocks).value
  {
    match SerializeBlocks(LegacyStreamKeys, s.blocks)
    case Err(e) => Err(e)
    case Ok(bs) => Ok(SerializedSequence(s.seqType, bs))
  }

  /** Every block packed by pass 2 serializes: it carries each of the
      streams bs, bg and c. */
  lemma PackedSerializes(pes: PreEnumMap, t: Tables, b: Block)
    requires PackBlock(pes, t, b).Ok?
    ensures SerializeBlock(LegacyStreamKeys, PackBlock(pes, t, b).value).Ok?
  {
    var p := PackBlock(pes, t, b).value;
    assert forall i :: 0 <= i < |LegacyStreamKeys| ==> LegacyStreamKeys[i] in {"c", "bs", "bg"};
  }

  /** As `succinctifyBlocks` is written, a packed block has no bg stream,
      and `serializeSuccinctBlock` reads `blockOb.bg.base64()`: serializing
      any block it packs throws. */
  lemma AsWrittenDoesNotSerialize(pes: PreEnumMap, t: Tables, b: Block)
    requires PackBlockAsWritten(pes, t, b).Ok?
    ensures SerializeBlock(LegacyStreamKeys, PackBlockAsWritten(pes, t, b).value) == Err(MissingStream("bg"))
  {
    var p := PackBlockAsWritten(pes, t, b).value;
    assert "bs" in p.streams && "bg" !in p.streams;
    assert LegacyStreamKeys[1..][0] == "bg";
  }

  /** What serializing a sequence stored by pass 2 as written gives: a
      sequence with no blocks serializes, any other throws at the bg stream
      of its first block. */
  ghost predicate SerializesIffEmpty(stored: map<Id, SequenceRecord>)
  {
    forall id :: id in stored ==>
      SerializeSequence(stored[id]) ==
        if stored[id].blocks == [] then Ok(SerializedSequence(stored[id].seqType, [])) else Err(MissingStream("bg"))
  }

  /** A sequence stored by pass 2 as written keeps one packed block per
      block, and it serializes only when it has no blocks. */
  lemma StoredAsWritten(pes: PreEnumMap, t: Tables, baseNames: set<string>, s: SeqSnap)
    requires PackBlocksAsWritten(pes, t, s.blocks).Ok?
    ensures var rec := RecordOf(BlocksPacker(pes, t), baseNames, s);
            |rec.blocks| == |s.blocks| &&
            SerializeSequence(rec) ==
              if s.blocks == [] then Ok(SerializedSequence(s.seqType, [])) else Err(MissingStream("bg"))
  {
    assert BlocksPacker(pes, t)(s.blocks) == PackBlocksAsWritten(pes, t, s.blocks);
    var bs := PackBlocksAsWritten(pes, t, s.blocks).value;
    if s.blocks != [] {
      var ser := Collect(BlockSerializer(LegacyStreamKeys), bs);
      assert AsWrittenPacker(pes, t)(s.blocks[0]).Ok?;
      AsWrittenDoesNotSerialize(pes, t, s.blocks[0]);
      assert BlockSerializer(LegacyStreamKeys)(bs[0]).Err?;
      var k := CollectErr(BlockSerializer(LegacyStreamKeys), bs);
      assert AsWrittenPacker(pes, t)(s.blocks[k]).Ok?;
      AsWrittenDoesNotSerialize(pes, t, s.blocks[k]);
    }
  }

  /** Pass 2 as written keeps `SerializesIffEmpty`: each newly stored
      sequence serializes exactly when it has no blocks. */
  lemma {:induction false} StoreSequencesAsWritten(stored: map<Id, SequenceRecord>, pes: PreEnumMap, t: Tables,
                                                   baseNames: set<string>, ss: seq<SeqSnap>)
    requires SerializesIffEmpty(stored)
    requires StoreSequences(stored, BlocksPacker(pes, t), baseNames, ss).Ok?
    ensures SerializesIffEmpty(StoreSequences(stored, BlocksPacker(pes, t), baseNames, ss).value)
    decreases |ss|
  {
    if ss != [] {
      var s := ss[0];
      assert BlocksPacker(pes, t)(s.blocks) == PackBlocksAsWritten(pes, t, s.blocks);
      StoredAsWritten(pes, t, baseNames, s);
      var next := stored[s.id := RecordOf(BlocksPacker(pes, t), baseNames, s)];
      StoreSequencesAsWritten(next, pes, t, baseNames, ss[1..]);
    }
  }

  /** A stored sequence packed with its block grafts' stream serializes. */
  lemma StoredSerializes(pes: PreEnumMap, t: Tables, baseNames: set<string>, s: SeqSnap)
    requires PackBlocks(pes, t, s.blocks).Ok?
    ensures SerializeSequence(RecordOf(CorrectedPacker(pes, t), baseNames, s)).Ok?
  {
    assert CorrectedPacker(pes, t)(s.blocks) == PackBlocks(pes, t, s.blocks);
    var bs := PackBlocks(pes, t, s.blocks).value;
    forall i, j | 0 <= i < |bs| && 0 <= j < |LegacyStreamKeys|
      ensures LegacyStreamKeys[j] in bs[i].streams
    {
      assert BlockPacker(pes, t)(s.blocks[i]) == PackBlock(pes, t, s.blocks[i]);
      PackedSerializes(pes, t, s.blocks[i]);
    }
  }

  /** Pass 2 with the block grafts' stream keeps every stored sequence
      serializable: what was stored before serializes, and each newly
      packed sequence does too. */
  lemma {:induction false} StoreSequencesSerialize(stored: map<Id, SequenceRecord>, pes: PreEnumMap, t: Tables,
                                                   baseNames: set<string>, ss: seq<SeqSnap>)
    requires forall id :: id in stored ==> SerializeSequence(stored[id]).Ok?
    requires StoreSequences(stored, CorrectedPacker(pes, t), baseNames, ss).Ok?
    ensures var r := StoreSequences(stored, CorrectedPacker(pes, t), baseNames, ss).value;
            forall id :: id in r ==> SerializeSequence(r[id]).Ok?
    decreases |ss|
  {
    if ss != [] {
      var s := ss[0];
      assert CorrectedPacker(pes, t)(s.blocks) == PackBlocks(pes, t, s.blocks);
      StoredSerializes(pes, t, baseNames, s);
      var next := stored[s.id := RecordOf(CorrectedPacker(pes, t), baseNames, s)];
      StoreSequencesSerialize(next, pes, t, baseNames, ss[1..]);
    }
  }

  /** A document of model/document.js. The processor link is replaced by
      the doc set it belongs to, passed to each operation. */
  class Document {
    const id: Id
    const docSetId: Id
    var headers: map<string, string>
    var mainId: Option<Id>
    var sequences: map<Id, SequenceRecord>

    /** The fields the constructor sets before it dispatches. */
    constructor (id: Id, docSetId: Id)
      ensures this.id == id && this.docSetId == docSetId
      ensures headers == map[] && mainId == None && sequences == map[]
    {
      this.id := id;
      this.docSetId := docSetId;
      headers := map[];
      mainId := None;
      sequences := map[];
    }

    /** `serializeSuccinct`: the headers, the main sequence id and every
        stored sequence under its id; `order` is the insertion order of
        `this.sequences`, in which the first sequence that cannot be
        serialized throws. */
    function SerializeSuccinct(order: seq<Id>): (r: Result<SerializedDocument>)
      requires forall i :: 0 <= i < |order| ==> order[i] in sequences
      requires forall id :: id in sequences ==> id in order
      reads this
      ensures r.Ok? <==> forall id :: id in sequences ==> SerializeSequence(sequences[id]).Ok?
      ensures r.Ok? ==> r.value.headers == headers && r.value.mainId == mainId && r.value.sequences.Keys == sequences.Keys
      ensures r.Ok? ==> forall id :: id in sequences ==> r.value.sequences[id] == SerializeSequence(sequences[id]).value
      ensures r.Err? ==> exists i :: 0 <= i < |order| && SerializeSequence(sequences[order[i]]) == Err(r.error) &&
                                     forall j :: 0 <= j < i ==> SerializeSequence(sequences[order[j]]).Ok?
    {
      var f := (s: SequenceRecord) => SerializeSequence(s);
      var e := SerializeEntries(f, sequences, order);
      assert (forall i :: 0 <= i < |order| ==> f(sequences[order[i]]).Ok?) <==>
             (forall id :: id in sequences ==> SerializeSequence(sequences[id]).Ok?);
      match e
      case Err(err) => Err(err)
      case Ok(m) =>
        assert m.Keys == sequences.Keys;
        Ok(SerializedDocument(headers, mainId, m))
    }

    /** `succinctPass1`: the doc set's pre-enums are rebuilt from its enums,
        every sequence of the parser is recorded (its id, then its blocks'
        items, with lineSpace, eol and punctuation as notWordLike), all
        categories are sorted when the wordLike enum table is still empty,
        and the enums are built from the result. */
    method SuccinctPass1(parser: Parser, docSet: DocSet, t: Tables, build: PreEnumMap -> map<string, seq<byte>>,
                         ghost parsed: Result<seq<SeqSnap>>)
      returns (o: Outcome)
      requires parser.Valid() && docSet.Valid() && docSet.EnumsWalkable()
      requires parsed == SnapsOf(SequencesOf(parser.AllTypes(), parser.sequences))
      requires forall p: PreEnumMap, c :: c in build(p) ==> CountedWalkable(build(p)[c])
      modifies docSet
      ensures docSet.Valid() && docSet.EnumsWalkable() && docSet.docIds == old(docSet.docIds)
      ensures parsed.Err? ==> o == Fail(parsed.error)
      ensures parsed.Ok? ==>
                var pes := old(docSet.preEnums) + BuiltFrom(old(docSet.enums), old(docSet.enums).Keys);
                var r := Pass1(LegacyNotWordLike, t.nComponentsForScope, pes, old(docSet.enums), parsed.value);
                Reports(o, r) && (o.Pass? ==> docSet.preEnums == r.value)
      ensures o.Pass? ==> docSet.enums == build(docSet.preEnums)
    {
      ghost var all0 := SequencesOf(parser.AllTypes(), parser.sequences);
      assert all0.Ok? ==> parsed == Ok(Snaps(all0.value));
      docSet.BuildPreEnums();
      assert all0 == SequencesOf(parser.AllTypes(), parser.sequences);
      assert all0.Ok? ==> parsed == Ok(Snaps(all0.value));
      ghost var pes := docSet.preEnums;
      assert pes == old(docSet.preEnums) + BuiltFrom(old(docSet.enums), old(docSet.enums).Keys);
      var all := parser.AllSequences();
      if all.Err? {
        return Fail(all.error);
      }
      var snaps := Snaps(all.value);
      assert parsed == Ok(snaps);
      var n := t.nComponentsForScope;
      ghost var r := Pass1(LegacyNotWordLike, n, pes, docSet.enums, snaps);
      o := RecordSequencesInto(docSet, LegacyNotWordLike, n, snaps);
      if o.Fail? {
        assert r == Err(o.error);
        return;
      }
      ghost var p := docSet.preEnums;
      assert RecordSequences(LegacyNotWordLike, n, pes, snaps) == Ok(p);
      var empty := WordLikeEmpty(docSet.enums);
      if empty.Err? {
        assert r == Err(empty.error);
        return Fail(empty.error);
      }
      if empty.value {
        docSet.SortPreEnums();
        assert r == Ok(SortAll(p));
      } else {
        assert r == Ok(p);
      }
      docSet.BuildEnums(build);
    }

    /** The loop of `succinctPass2`: each sequence is packed and stored
        under its id, until one cannot be packed. */
    method StoreSequencesOf(docSet: DocSet, t: Tables, names: set<string>, ss: seq<Sequence>, ghost snaps: seq<SeqSnap>)
      returns (o: Outcome)
      requires snaps == Snaps(ss)
      modifies this
      ensures headers == old(headers) && mainId == old(mainId)
      ensures Reports(o, StoreSequences(old(sequences), BlocksPacker(docSet.preEnums, t), names, snaps))
      ensures o.Pass? ==> Ok(sequences) == StoreSequences(old(sequences), BlocksPacker(docSet.preEnums, t), names, snaps)
    {
      ghost var pack := BlocksPacker(docSet.preEnums, t);
      assert forall j :: 0 <= j < |ss| ==> snaps[j] == SeqSnap(ss[j].id, ss[j].seqType, ss[j].blocks);
      var i := 0;
      while i < |ss|
        invariant 0 <= i <= |ss|
        invariant headers == old(headers) && mainId == old(mainId)
        invariant forall j :: 0 <= j < |ss| ==> snaps[j] == SeqSnap(ss[j].id, ss[j].seqType, ss[j].blocks)
        invariant StoreSequences(old(sequences), pack, names, snaps) == StoreSequences(sequences, pack, names, snaps[i..])
      {
        var s := ss[i];
        assert snaps[i..][0] == snaps[i] == SeqSnap(s.id, s.seqType, s.blocks);
        assert snaps[i..][1..] == snaps[i + 1..];
        var blocks := s.SuccinctifyBlocks(docSet, t);
        assert pack(s.blocks) == blocks;
        if blocks.Err? {
          return Fail(blocks.error);
        }
        sequences := sequences[s.id := SequenceRecord(s.id, s.seqType, s.seqType in names, blocks.value)];
        i := i + 1;
      }
      assert snaps[i..] == [];
      o := Pass;
    }

    /** `succinctPass2`: the main sequence's id becomes `mainId`; each
        sequence of the parser is packed and stored under its id with its
        type and whether that is a base type; then the doc set's pre-enums
        are cleared. */
    method SuccinctPass2(parser: Parser, docSet: DocSet, t: Tables) returns (o: Outcome)
      requires parser.Valid() && parser.baseSequenceTypes == BaseSequenceTypes && docSet.Valid()
      modifies this, docSet
      ensures docSet.Valid() && docSet.enums == old(docSet.enums) && docSet.docIds == old(docSet.docIds)
      ensures headers == old(headers) && mainId == Some(old(parser.MainSequence()).id)
      ensures old(SequencesOf(parser.AllTypes(), parser.sequences)).Err? ==>
                o == Fail(old(SequencesOf(parser.AllTypes(), parser.sequences)).error)
      ensures old(SequencesOf(parser.AllTypes(), parser.sequences)).Ok? ==>
                var r := StoreSequences(old(sequences), BlocksPacker(old(docSet.preEnums), t), Names(parser.baseSequenceTypes),
                                        old(Snaps(SequencesOf(parser.AllTypes(), parser.sequences).value)));
                Reports(o, r) && (o.Pass? ==> sequences == r.value)
      ensures o.Pass? ==> docSet.preEnums == map[]
      ensures o.Fail? ==> docSet.preEnums == old(docSet.preEnums)
    {
      ghost var pes := docSet.preEnums;
      ghost var names := Names(parser.baseSequenceTypes);
      ghost var stored := sequences;
      var main := parser.MainSequence();
      var all := parser.AllSequences();
      assert all == old(SequencesOf(parser.AllTypes(), parser.sequences));
      mainId := Some(main.id);
      if all.Err? {
        return Fail(all.error);
      }
      ghost var snaps := Snaps(all.value);
      assert snaps == old(Snaps(SequencesOf(parser.AllTypes(), parser.sequences).value));
      o := StoreSequencesOf(docSet, t, Names(parser.baseSequenceTypes), all.value, snaps);
      assert docSet.preEnums == pes;
      ghost var r := StoreSequences(stored, BlocksPacker(pes, t), names, snaps);
      assert Reports(o, r) && (o.Pass? ==> sequences == r.value);
      if o.Pass? {
        docSet.preEnums := map[];
      }
    }

    /** The two passes of `processLexed`, run over a parsed document. */
    method SuccinctPasses(parser: Parser, docSet: DocSet, t: Tables, build: PreEnumMap -> map<string, seq<byte>>,
                          ghost parsed: Result<seq<SeqSnap>>)
      returns (o: Outcome)
      requires parser.Valid() && parser.baseSequenceTypes == BaseSequenceTypes
      requires parsed == SnapsOf(SequencesOf(parser.AllTypes(), parser.sequences))
      requires docSet.Valid() && docSet.EnumsWalkable()
      requires forall p: PreEnumMap, c :: c in build(p) ==> CountedWalkable(build(p)[c])
      modifies this, docSet
      ensures docSet.Valid() && docSet.EnumsWalkable() && docSet.docIds == old(docSet.docIds)
      ensures headers == old(headers) && parsed == SnapsOf(SequencesOf(parser.AllTypes(), parser.sequences))
      ensures o.Pass? ==> mainId == Some(parser.MainSequence().id) && docSet.preEnums == map[]
      ensures o.Pass? ==>
                parsed.Ok? &&
                var pes := old(docSet.preEnums) + BuiltFrom(old(docSet.enums), old(docSet.enums).Keys);
                var p1 := Pass1(LegacyNotWordLike, t.nComponentsForScope, pes, old(docSet.enums), parsed.value);
                p1.Ok? && docSet.enums == build(p1.value) &&
                StoreSequences(old(sequences), BlocksPacker(p1.value, t), Names(parser.baseSequenceTypes), parsed.value) == Ok(sequences)
    {
      ghost var pes0 := docSet.preEnums;
      ghost var enums0 := docSet.enums;
      ghost var stored := sequences;
      ghost var names := Names(parser.baseSequenceTypes);
      ghost var all0 := SequencesOf(parser.AllTypes(), parser.sequences);
      assert all0.Ok? ==> parsed == Ok(Snaps(all0.value));
      label BeforePass1:
      o := SuccinctPass1(parser, docSet, t, build, parsed);
      assert all0 == SequencesOf(parser.AllTypes(), parser.sequences);
      if all0.Ok? {
        SnapsUnchanged@BeforePass1(all0.value);
      }
      if o.Fail? {
        return;
      }
      ghost var p1 := Pass1(LegacyNotWordLike, t.nComponentsForScope, pes0 + BuiltFrom(enums0, enums0.Keys), enums0, parsed.value);
      assert p1 == Ok(docSet.preEnums);
      ghost var enums1 := docSet.enums;
      label BeforePass2:
      o := SuccinctPass2(parser, docSet, t);
      if all0.Ok? {
        SnapsUnchanged@BeforePass2(all0.value);
      }
      assert docSet.enums == enums1;
      assert names == Names(parser.baseSequenceTypes);
      assert o.Pass? ==> StoreSequences(stored, BlocksPacker(p1.value, t), names, parsed.value) == Ok(sequences);
    }

    /** `makeParser()` and `parser.parse(lexed)`: a fresh parser run over
        the lexemes, with the snapshots of the sequences it built. */
    static method ParseLexed(lexed: seq<Lexeme>, specs: seq<ParserSpec>, firstId: nat)
      returns (o: Outcome, parser: Parser, ghost parsed: Result<seq<SeqSnap>>)
      ensures fresh(parser) && parser.Valid() && parser.baseSequenceTypes == BaseSequenceTypes
      ensures parsed == SnapsOf(SequencesOf(parser.AllTypes(), parser.sequences))
      ensures o.Pass? ==> parsed.Ok?
    {
      parser := new Parser(specs, firstId);
      o := parser.Parse(lexed);
      parsed := SnapsOf(SequencesOf(parser.AllTypes(), parser.sequences));
    }

    /** `processLexed`: a new parser parses the lexemes; its headers are
        kept, then the two passes run. Tidying and filtering are not part of
        the model. */
    method ProcessLexed(lexed: seq<Lexeme>, specs: seq<ParserSpec>, firstId: nat, docSet: DocSet, t: Tables,
                        build: PreEnumMap -> map<string, seq<byte>>)
      returns (o: Outcome, parser: Parser, ghost parsed: Result<seq<SeqSnap>>)
      requires docSet.Valid() && docSet.EnumsWalkable()
      requires forall p: PreEnumMap, c :: c in build(p) ==> CountedWalkable(build(p)[c])
      modifies this, docSet
      ensures fresh(parser) && parser.Valid() && parser.baseSequenceTypes == BaseSequenceTypes
      ensures parsed == SnapsOf(SequencesOf(parser.AllTypes(), parser.sequences))
      ensures docSet.Valid() && docSet.EnumsWalkable() && docSet.docIds == old(docSet.docIds)
      ensures o.Pass? ==> headers == parser.headers && mainId == Some(parser.MainSequence().id) && docSet.preEnums == map[]
      ensures o.Pass? ==>
                parsed.Ok? &&
                var pes := old(docSet.preEnums) + BuiltFrom(old(docSet.enums), old(docSet.enums).Keys);
                var p1 := Pass1(LegacyNotWordLike, t.nComponentsForScope, pes, old(docSet.enums), parsed.value);
                p1.Ok? && docSet.enums == build(p1.value) &&
                StoreSequences(old(sequences), BlocksPacker(p1.value, t), Names(parser.baseSequenceTypes), parsed.value) == Ok(sequences)
    {
      o, parser, parsed := ParseLexed(lexed, specs, firstId);
      if o.Fail? {
        return;
      }
      headers := parser.headers;
      o := SuccinctPasses(parser, docSet, t, build, parsed);
    }
  }

  /** `new Document(...)`: the document gets its ids and empty fields, then
      the content type picks the lexer (`lex`, standing for lexifyUsfm and
      lexifyUsx) and the lexed content is processed. An unknown content type
      throws before the doc set is touched; a failure while processing
      throws, and no document results. A sequence of a document that
      results can be serialized only when it has no blocks: any other
      throws at the missing bg stream. `parser` and `parsed` name the
      parser that ran and the sequences it built. */
  method NewDocument(id: Id, docSetId: Id, contentType: string, content: string, lex: (Format, string) -> seq<Lexeme>,
                     specs: seq<ParserSpec>, firstId: nat, docSet: DocSet, t: Tables,
                     build: PreEnumMap -> map<string, seq<byte>>)
    returns (r: Result<Document>, ghost parser: Parser?, ghost parsed: Result<seq<SeqSnap>>)
    requires docSet.Valid() && docSet.EnumsWalkable()
    requires forall p: PreEnumMap, c :: c in build(p) ==> CountedWalkable(build(p)[c])
    modifies docSet
    ensures docSet.Valid() && docSet.EnumsWalkable() && docSet.docIds == old(docSet.docIds)
    ensures ContentFormat(contentType).Err? ==>
              r == Err(UnknownContentType(contentType)) &&
              docSet.preEnums == old(docSet.preEnums) && docSet.enums == old(docSet.enums)
    ensures r.Ok? ==> ContentFormat(contentType).Ok? && fresh(r.value)
    ensures r.Ok? ==> r.value.id == id && r.value.docSetId == docSetId && r.value.mainId.Some? && docSet.preEnums == map[]
    ensures r.Ok? ==> forall k :: k in r.value.sequences ==>
                        (SerializeSequence(r.value.sequences[k]).Ok? <==> r.value.sequences[k].blocks == [])
    ensures r.Ok? ==> forall k :: k in r.value.sequences && r.value.sequences[k].blocks != [] ==>
                        SerializeSequence(r.value.sequences[k]) == Err(MissingStream("bg"))
    ensures r.Ok? ==>
              parser != null && fresh(parser) && parser.Valid() && r.value.headers == parser.headers && parsed.Ok? &&
              parsed == SnapsOf(SequencesOf(parser.AllTypes(), parser.sequences)) &&
              var pes := old(docSet.preEnums) + BuiltFrom(old(docSet.enums), old(docSet.enums).Keys);
              var p1 := Pass1(LegacyNotWordLike, t.nComponentsForScope, pes, old(docSet.enums), parsed.value);
              p1.Ok? && docSet.enums == build(p1.value) &&
              StoreSequences(map[], BlocksPacker(p1.value, t), Names(BaseSequenceTypes), parsed.value) == Ok(r.value.sequences)
  {
    var doc := new Document(id, docSetId);
    var format := ContentFormat(contentType);
    if format.Err? {
      r, parser, parsed := Err(format.error), null, Err(format.error);
      return;
    }
    var lexed := lex(format.value, content);
    ghost var pes := docSet.preEnums;
    ghost var enums := docSet.enums;
    var o, p;
    o, p, parsed := doc.ProcessLexed(lexed, specs, firstId, docSet, t, build);
    parser := p;
    if o.Fail? {
      r := Err(o.error);
      return;
    }
    ghost var p1 := Pass1(LegacyNotWordLike, t.nComponentsForScope, pes + BuiltFrom(enums, enums.Keys), enums, parsed.value);
    assert p1.Ok? && StoreSequences(map[], BlocksPacker(p1.value, t), Names(BaseSequenceTypes), parsed.value) == Ok(doc.sequences);
    assert SerializesIffEmpty(doc.sequences) by {
      StoreSequencesAsWritten(map[], p1.value, t, Names(BaseSequenceTypes), parsed.value);
    }
    r := Ok(doc);
  }
}
