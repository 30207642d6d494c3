/** src/model/document.js: a document of the second generation. Its
    constructor leaves the document uninitialised when no content type is
    given; otherwise it takes an id and tags, parses the content (usfm, usx
    or lexicon), records every value its sequences use in the doc set's
    pre-enums (pass 1) and packs each sequence's blocks against them
    (pass 2). A packed sequence can later be decoded and recorded again
    (`rerecordPreEnums`). The parser, the block packer and the stream
    decoder of this version are not part of this model: they are passed in
    as functions. */
module Documents {
  import opened Wrappers
  import opened Ids
  import opened ByteArrays
  import opened Items
  import opened PreEnums
  import opened DocSets
  import opened Sequences
  import opened Passes
  import opened Serialization

  /** The content types the constructor dispatches on. */
  datatype Format = Usfm | Usx | Lexicon

  /** The constructor's `if (contentType)` and `switch (contentType)`: no
      content type (the empty string standing for every falsy value) leaves
      the document uninitialised; usfm, usx and lexicon are processed;
      anything else throws. */
  function DocumentKind(contentType: string): (r: Result<Option<Format>>)
    ensures r == Ok(None) <==> contentType == ""
    ensures r == Ok(Some(Usfm)) <==> contentType == "usfm"
    ensures r == Ok(Some(Usx)) <==> contentType == "usx"
    ensures r == Ok(Some(Lexicon)) <==> contentType == "lexicon"
    ensures r.Err? <==> contentType !in {"", "usfm", "usx", "lexicon"}
    ensures r.Err? ==> r.error == UnknownContentType(contentType)
  {
    if contentType == "" then Ok(None)
    else if contentType == "usfm" then Ok(Some(Usfm))
    else if contentType == "usx" then Ok(Some(Usx))
    else if contentType == "lexicon" then Ok(Some(Lexicon))
    else Err(UnknownContentType(contentType))
  }

  // ---------------------------------------------------------------------
  // What the parser hands over

  /** A sequence of the parser: its id, its type, its tags and its blocks. */
  datatype ParsedSequence = ParsedSequence(id: Id, seqType: string, tags: seq<string>, blocks: seq<Block>)

  /** A parsed (and, for scripture, tidied and filtered) document: the
      headers, the id of the main sequence, `allSequences()` in order and
      the names of the base sequence types. */
  datatype Parsed = Parsed(headers: map<string, string>, mainId: Id, sequences: seq<ParsedSequence>,
                           baseTypes: set<string>)

  /** What the record pass reads of each sequence. */
  function Snapshots(ss: seq<ParsedSequence>): (r: seq<SeqSnap>)
    ensures |r| == |ss| && forall i :: 0 <= i < |ss| ==> r[i] == SeqSnap(ss[i].id, ss[i].seqType, ss[i].blocks)
  {
    seq(|ss|, i requires 0 <= i < |ss| => SeqSnap(ss[i].id, ss[i].seqType, ss[i].blocks))
  }

  // ---------------------------------------------------------------------
  // Pass 2: storing the packed sequences

  /** An entry of `this.sequences`. */
  datatype SequenceRecord = SequenceRecord(id: Id, seqType: string, tags: set<string>, isBaseType: bool,
                                           blocks: seq<PackedBlock>)

  /** The packer of this version, `seq.succinctifyBlocks(docSet)`, for a
      doc set holding the given pre-enums; it may throw. */
  type Packer = (PreEnumMap, seq<Block>) -> Result<seq<PackedBlock>>

  /** The record a sequence is stored as, once its blocks are packed. */
  function RecordFor(s: ParsedSequence, baseNames: set<string>, blocks: seq<PackedBlock>): SequenceRecord
  {
    SequenceRecord(s.id, s.seqType, (set t | t in s.tags), s.seqType in baseNames, blocks)
  }

  /** The loop of `succinctPass2`: each sequence in turn is packed and
      stored under its id (a later sequence with the same id replaces an
      earlier one), until one cannot be packed. */
  function StoreSequences(stored: map<Id, SequenceRecord>, pack: Packer, pes: PreEnumMap, baseNames: set<string>,
                          ss: seq<ParsedSequence>): Result<map<Id, SequenceRecord>>
    decreases |ss|
  {
    if ss == [] then Ok(stored)
    else
      match pack(pes, ss[0].blocks)
      case Err(e) => Err(e)
      case Ok(blocks) => StoreSequences(stored[ss[0].id := RecordFor(ss[0], baseNames, blocks)], pack, pes, baseNames, ss[1..])
  }

  /** Pass 2 completes exactly when every sequence's blocks can be packed. */
  lemma {:induction false} StoreSequencesOkIff(stored: map<Id, SequenceRecord>, pack: Packer, pes: PreEnumMap,
                                               baseNames: set<string>, ss: seq<ParsedSequence>)
    ensures StoreSequences(stored, pack, pes, baseNames, ss).Ok? <==>
              forall k :: 0 <= k < |ss| ==> pack(pes, ss[k].blocks).Ok?
    decreases |ss|
  {
    if ss != [] && pack(pes, ss[0].blocks).Ok? {
      var next := stored[ss[0].id := RecordFor(ss[0], baseNames, pack(pes, ss[0].blocks).value)];
      StoreSequencesOkIff(next, pack, pes, baseNames, ss[1..]);
      assert forall k :: 1 <= k < |ss| ==> ss[k] == ss[1..][k - 1];
    }
  }

  /** After pass 2, the stored ids are the earlier ones plus the id of
      every sequence. */
  lemma {:induction false} StoreSequencesKeys(stored: map<Id, SequenceRecord>, pack: Packer, pes: PreEnumMap,
                                              baseNames: set<string>, ss: seq<ParsedSequence>)
    requires StoreSequences(stored, pack, pes, baseNames, ss).Ok?
    ensures StoreSequences(stored, pack, pes, baseNames, ss).value.Keys == stored.Keys + set k | 0 <= k < |ss| :: ss[k].id
    decreases |ss|
  {
    if ss != [] {
      var s := ss[0];
      var rest := ss[1..];
      StoreSequencesKeys(stored[s.id := RecordFor(s, baseNames, pack(pes, s.blocks).value)], pack, pes, baseNames, rest);
      assert forall k :: 1 <= k < |ss| ==> ss[k] == rest[k - 1];
      assert (set k | 0 <= k < |ss| :: ss[k].id) == {s.id} + set k | 0 <= k < |rest| :: rest[k].id;
    }
  }

  /** After pass 2, an id holds the record of the last sequence with that
      id: its type, its tags as a set, whether its type is a base type, and
      its packed blocks. */
  lemma {:induction false} StoreSequencesLast(stored: map<Id, SequenceRecord>, pack: Packer, pes: PreEnumMap,
                                              baseNames: set<string>, ss: seq<ParsedSequence>, k: nat)
    requires StoreSequences(stored, pack, pes, baseNames, ss).Ok?
    requires k < |ss| && forall j :: k < j < |ss| ==> ss[j].id != ss[k].id
    ensures pack(pes, ss[k].blocks).Ok?
    ensures var r := StoreSequences(stored, pack, pes, baseNames, ss).value;
            ss[k].id in r && r[ss[k].id] == RecordFor(ss[k], baseNames, pack(pes, ss[k].blocks).value)
    ensures var r := StoreSequences(stored, pack, pes, baseNames, ss).value;
            forall t :: t in r[ss[k].id].tags <==> t in ss[k].tags
    decreases |ss|
  {
    var s := ss[0];
    var next := stored[s.id := RecordFor(s, baseNames, pack(pes, s.blocks).value)];
    var rest := ss[1..];
    if k == 0 {
      assert forall j :: 0 <= j < |rest| ==> rest[j].id != s.id by {
        assert forall j :: 0 <= j < |rest| ==> rest[j] == ss[j + 1];
      }
      StoreSequencesKeeps(next, pack, pes, baseNames, rest, s.id);
    } else {
      assert rest[k - 1] == ss[k];
      assert forall j :: k - 1 < j < |rest| ==> rest[j] == ss[j + 1];
      StoreSequencesLast(next, pack, pes, baseNames, rest, k - 1);
    }
  }

  /** After pass 2, an id that no sequence has keeps its earlier record. */
  lemma {:induction false} StoreSequencesKeeps(stored: map<Id, SequenceRecord>, pack: Packer, pes: PreEnumMap,
                                               baseNames: set<string>, ss: seq<ParsedSequence>, id: Id)
    requires StoreSequences(stored, pack, pes, baseNames, ss).Ok?
    requires id in stored && forall k :: 0 <= k < |ss| ==> ss[k].id != id
    ensures var r := StoreSequences(stored, pack, pes, baseNames, ss).value;
            id in r && r[id] == stored[id]
    decreases |ss|
  {
    if ss != [] {
      var s := ss[0];
      var rest := ss[1..];
      assert forall k :: 0 <= k < |rest| ==> rest[k] == ss[k + 1];
      StoreSequencesKeeps(stored[s.id := RecordFor(s, baseNames, pack(pes, s.blocks).value)], pack, pes, baseNames, rest, id);
    }
  }

  // ---------------------------------------------------------------------
  // Recording again from packed blocks (rerecordPreEnums)

  /** The block streams `rerecordPreEnums` walks, in order. */
  const RerecordKeys: seq<string> := StreamKeys

  /** `rerecordBlockPreEnums(docSet, block[key])` as one step over the
      keys of a block: a stream the block does not have throws; otherwise
      its decoded items are recorded, every token other than wordLike as
      notWordLike. */
  function StreamRerecorder(n: map<string, nat>, decode: seq<byte> -> seq<Item>, b: PackedBlock):
    (PreEnumMap, string) -> Result<PreEnumMap>
  {
    (p: PreEnumMap, key: string) =>
      if key in b.streams then RecordItems(OtherToken, n, p, decode(b.streams[key])) else Err(MissingStream(key))
  }

  /** The streams of one block, in the order bs, bg, c, is, os. */
  function RerecordBlock(n: map<string, nat>, decode: seq<byte> -> seq<Item>, pes: PreEnumMap, b: PackedBlock):
    Result<PreEnumMap>
  {
    Fold(StreamRerecorder(n, decode, b), pes, RerecordKeys)
  }

  function BlockRerecorder(n: map<string, nat>, decode: seq<byte> -> seq<Item>): (PreEnumMap, PackedBlock) -> Result<PreEnumMap>
  {
    (p: PreEnumMap, b: PackedBlock) => RerecordBlock(n, decode, p, b)
  }

  /** `rerecordPreEnums(docSet, seq)`: the sequence id in "ids", then
      every block in turn. */
  function Rerecord(n: map<string, nat>, decode: seq<byte> -> seq<Item>, pes: PreEnumMap, s: SequenceRecord):
    Result<PreEnumMap>
  {
    match RecordValue(pes, "ids", s.id)
    case Err(e) => Err(e)
    case Ok(p) => Fold(BlockRerecorder(n, decode), p, s.blocks)
  }

  /** The decoded items of the named streams of a block, in order. */
  function DecodedItems(decode: seq<byte> -> seq<Item>, b: PackedBlock, keys: seq<string>): seq<Item>
    requires forall i :: 0 <= i < |keys| ==> keys[i] in b.streams
    decreases |keys|
  {
    if keys == [] then []
    else DecodedItems(decode, b, keys[..|keys| - 1]) + decode(b.streams[keys[|keys| - 1]])
  }

  /** Walking streams that are all present records their decoded items
      exactly as the record pass would, one stream after another. */
  lemma {:induction false} RerecordStreamsItems(n: map<string, nat>, decode: seq<byte> -> seq<Item>, pes: PreEnumMap,
                                                b: PackedBlock, keys: seq<string>)
    requires forall i :: 0 <= i < |keys| ==> keys[i] in b.streams
    ensures Fold(StreamRerecorder(n, decode, b), pes, keys) == RecordItems(OtherToken, n, pes, DecodedItems(decode, b, keys))
    decreases |keys|
  {
    if keys != [] {
      var init := keys[..|keys| - 1];
      var last := decode(b.streams[keys[|keys| - 1]]);
      RerecordStreamsItems(n, decode, pes, b, init);
      var done := DecodedItems(decode, b, init);
      match RecordItems(OtherToken, n, pes, done)
      case Err(e) =>
        RecordItemsPrefixErr(OtherToken, n, pes, done, done + last);
      case Ok(p) =>
        RecordItemsConcat(OtherToken, n, pes, done, last);
    }
  }

  /** Rerecording a block that has all five streams records the decoded
      items of bs, bg, c, is and os, in that order. */
  lemma RerecordBlockItems(n: map<string, nat>, decode: seq<byte> -> seq<Item>, pes: PreEnumMap, b: PackedBlock)
    requires forall i :: 0 <= i < |RerecordKeys| ==> RerecordKeys[i] in b.streams
    ensures RerecordBlock(n, decode, pes, b) == RecordItems(OtherToken, n, pes, DecodedItems(decode, b, RerecordKeys))
  {
    RerecordStreamsItems(n, decode, pes, b, RerecordKeys);
  }

  /** A block missing any of the five streams cannot be rerecorded. */
  lemma RerecordBlockMissing(n: map<string, nat>, decode: seq<byte> -> seq<Item>, pes: PreEnumMap, b: PackedBlock, i: nat)
    requires i < |RerecordKeys| && RerecordKeys[i] !in b.streams
    ensures RerecordBlock(n, decode, pes, b).Err?
  {
    var f := StreamRerecorder(n, decode, b);
    match Fold(f, pes, RerecordKeys[..i])
    case Err(_) =>
      FoldPrefixErr(f, pes, RerecordKeys, i);
    case Ok(p) =>
      FoldStep(f, pes, RerecordKeys, i, p);
      FoldPrefixErr(f, pes, RerecordKeys, i + 1);
  }

  /** The record pass of this version and the rerecord pass classify
      tokens alike exactly for wordLike and the six notWordLike subtypes: a
      noBreakSpace token is recorded nowhere when a document is imported,
      but as notWordLike when its packed blocks are rerecorded. */
  lemma ClassificationsAgree(itemType: string, chars: string)
    ensures RecordedPairs(NotWordLike, Token(itemType, chars)) == RecordedPairs(OtherToken, Token(itemType, chars)) <==>
              itemType == "wordLike" || NotWordLike(itemType)
  {
  }

  /** The noBreakSpace case of the difference, on the pre-enums. */
  lemma NoBreakSpaceOnlyRerecorded(n: map<string, nat>, pes: PreEnumMap, chars: string)
    requires "notWordLike" in pes
    ensures RecordItem(NotWordLike, n, pes, Token("noBreakSpace", chars)) == Ok(pes)
    ensures RecordItem(OtherToken, n, pes, Token("noBreakSpace", chars)) == RecordValue(pes, "notWordLike", chars)
  {
    RecordPairsOne(pes, "notWordLike", chars);
  }

  // ---------------------------------------------------------------------
  // Serialization

  /** The output of `serializeSuccinctSequence`; the tags array is kept
      as a set. */
  datatype SerializedSequence = SerializedSequence(seqType: string, blocks: seq<SerializedBlock>, tags: set<string>)

  /** The output of `serializeSuccinct`. */
  datatype SerializedDocument = SerializedDocument(headers: map<string, string>, mainId: Option<Id>, tags: set<string>,
                                                   sequences: map<Id, SerializedSequence>)

  /** `serializeSuccinctSequence`: the type, the blocks, each with the
      streams bs, bg, c, is and os, and the tags. */
  function SerializeSequence(s: SequenceRecord): (r: Result<SerializedSequence>)
    ensures r.Ok? <==> forall i, j :: 0 <= i < |s.blocks| && 0 <= j < |StreamKeys| ==> StreamKeys[j] in s.blocks[i].streams
    ensures r.Ok? ==> r.value.seqType == s.seqType && r.value.tags == s.tags && |r.value.blocks| == |s.blocks|
    ensures r.Ok? ==> forall i :: 0 <= i < |s.blocks| ==>
                        r.value.blocks[i].Keys == (set j | 0 <= j < |StreamKeys| :: StreamKeys[j]) &&
                        forall k :: k in r.value.blocks[i] ==> r.value.blocks[i][k] == s.blocks[i].streams[k]
  {
    match SerializeBlocks(StreamKeys, s.blocks)
    case Err(e) => Err(e)
    case Ok(bs) => Ok(SerializedSequence(s.seqType, bs, s.tags))
  }

  // ---------------------------------------------------------------------
  // The document

  /** A document of src/model/document.js. The processor link is replaced
      by the doc set it belongs to, passed to each operation; `id` is None
      while the document is uninitialised. */
  class Document {
    const docSetId: Id
    var id: Option<Id>
    var tags: set<string>
    var headers: map<string, string>
    var mainId: Option<Id>
    var sequences: map<Id, SequenceRecord>

    /** The fields the constructor sets whatever the content type. */
    constructor (docSetId: Id)
      ensures this.docSetId == docSetId && id == None
      ensures tags == {} && headers == map[] && mainId == None && sequences == map[]
    {
      this.docSetId := docSetId;
      id := None;
      tags := {};
      headers := map[];
      mainId := None;
      sequences := map[];
    }

    /** `succinctPass1`: every sequence is recorded (its id, then its
        blocks' items, with lineSpace, eol, punctuation, softLineBreak,
        bareSlash and unknown as notWordLike), all categories are sorted
        when the wordLike enum table is still empty, and the enums are
        built from the result. Unlike the first version, the pre-enums are
        not rebuilt from the enums first. */
    method SuccinctPass1(docSet: DocSet, n: map<string, nat>, ss: seq<ParsedSequence>,
                         build: PreEnumMap -> map<string, seq<byte>>)
      returns (o: Outcome)
      requires docSet.Valid()
      requires forall p: PreEnumMap, c :: c in build(p) ==> CountedWalkable(build(p)[c])
      modifies docSet
      ensures docSet.Valid() && docSet.docIds == old(docSet.docIds)
      ensures var r := Pass1(NotWordLike, n, old(docSet.preEnums), old(docSet.enums), Snapshots(ss));
              Reports(o, r) && (o.Pass? ==> docSet.preEnums == r.value)
      ensures o.Pass? ==> docSet.enums == build(docSet.preEnums) && docSet.EnumsWalkable()
    {
      ghost var pes := docSet.preEnums;
      var snaps := Snapshots(ss);
      ghost var r := Pass1(NotWordLike, n, pes, docSet.enums, snaps);
      o := RecordSequencesInto(docSet, NotWordLike, n, snaps);
      if o.Fail? {
        assert r == Err(o.error);
        return;
      }
      ghost var p := docSet.preEnums;
      var empty := WordLikeEmpty(docSet.enums);
      if empty.Err? {
        assert r == Err(empty.error);
        return Fail(empty.error);
      }
      if empty.value {
        docSet.SortPreEnums();
        assert r == Ok(SortAll(p));
      } else {
        assert r == Ok(p);
      }
      docSet.BuildEnums(build);
    }

    /** `succinctPass2`: the main sequence's id becomes `mainId`; each
        sequence is packed and stored under its id with its type, its tags
        as a set and whether its type is a base type. The doc set's
        pre-enums are left as they are. */
    method SuccinctPass2(docSet: DocSet, pack: Packer, parsed: Parsed) returns (o: Outcome)
      modifies this
      ensures id == old(id) && tags == old(tags) && headers == old(headers) && mainId == Some(parsed.mainId)
      ensures var r := StoreSequences(old(sequences), pack, docSet.preEnums, parsed.baseTypes, parsed.sequences);
              Reports(o, r) && (o.Pass? ==> sequences == r.value)
    {
      mainId := Some(parsed.mainId);
      var ss := parsed.sequences;
      var pes := docSet.preEnums;
      var i := 0;
      while i < |ss|
        invariant 0 <= i <= |ss|
        invariant id == old(id) && tags == old(tags) && headers == old(headers) && mainId == Some(parsed.mainId)
        invariant StoreSequences(old(sequences), pack, pes, parsed.baseTypes, ss) ==
                  StoreSequences(sequences, pack, pes, parsed.baseTypes, ss[i..])
      {
        var s := ss[i];
        assert ss[i..][0] == s && ss[i..][1..] == ss[i + 1..];
        var blocks := pack(pes, s.blocks);
        if blocks.Err? {
          return Fail(blocks.error);
        }
        sequences := sequences[s.id := SequenceRecord(s.id, s.seqType, (set t | t in s.tags), s.seqType in parsed.baseTypes,
                                                      blocks.value)];
        i := i + 1;
      }
      assert ss[i..] == [];
      o := Pass;
    }

    /** `processUsfm`, `processUsx` and `processLexicon` after parsing: the
        parser's headers are kept, then the two passes run. */
    method Process(docSet: DocSet, n: map<string, nat>, parsed: Parsed, pack: Packer,
                   build: PreEnumMap -> map<string, seq<byte>>)
      returns (o: Outcome)
      requires docSet.Valid()
      requires forall p: PreEnumMap, c :: c in build(p) ==> CountedWalkable(build(p)[c])
      modifies this, docSet
      ensures docSet.Valid() && docSet.docIds == old(docSet.docIds)
      ensures id == old(id) && tags == old(tags) && headers == parsed.headers
      ensures var p1 := Pass1(NotWordLike, n, old(docSet.preEnums), old(docSet.enums), Snapshots(parsed.sequences));
              o.Pass? ==>
                p1.Ok? && docSet.preEnums == p1.value && docSet.enums == build(p1.value) && docSet.EnumsWalkable() &&
                mainId == Some(parsed.mainId) &&
                StoreSequences(old(sequences), pack, p1.value, parsed.baseTypes, parsed.sequences) == Ok(sequences)
    {
      headers := parsed.headers;
      o := SuccinctPass1(docSet, n, parsed.sequences, build);
      if o.Fail? {
        return;
      }
      o := SuccinctPass2(docSet, pack, parsed);
    }

    /** `rerecordBlockPreEnums(docSet, ba)`: the decoded items of one
        stream, every token other than wordLike as notWordLike. */
    method RerecordBlockPreEnums(docSet: DocSet, n: map<string, nat>, decode: seq<byte> -> seq<Item>, ba: seq<byte>)
      returns (o: Outcome)
      requires docSet.Valid()
      modifies docSet
      ensures docSet.Valid() && docSet.enums == old(docSet.enums) && docSet.docIds == old(docSet.docIds)
      ensures var r := RecordItems(OtherToken, n, old(docSet.preEnums), decode(ba));
              Reports(o, r) && (o.Pass? ==> docSet.preEnums == r.value)
    {
      o := RecordItemsInto(docSet, OtherToken, n, decode(ba));
    }

    /** One step of that loop: `block[blockKey]`, where a stream the block
        does not have throws when it is read. */
    method RerecordStream(docSet: DocSet, n: map<string, nat>, decode: seq<byte> -> seq<Item>, b: PackedBlock,
                          key: string)
      returns (o: Outcome)
      requires docSet.Valid()
      modifies docSet
      ensures docSet.Valid() && docSet.enums == old(docSet.enums) && docSet.docIds == old(docSet.docIds)
      ensures var r := StreamRerecorder(n, decode, b)(old(docSet.preEnums), key);
              Reports(o, r) && (o.Pass? ==> docSet.preEnums == r.value)
    {
      if key !in b.streams {
        return Fail(MissingStream(key));
      }
      o := RerecordBlockPreEnums(docSet, n, decode, b.streams[key]);
    }

    /** The inner loop of `rerecordPreEnums`: the streams of one block. */
    method RerecordStreams(docSet: DocSet, n: map<string, nat>, decode: seq<byte> -> seq<Item>, b: PackedBlock)
      returns (o: Outcome)
      requires docSet.Valid()
      modifies docSet
      ensures docSet.Valid() && docSet.enums == old(docSet.enums) && docSet.docIds == old(docSet.docIds)
      ensures var r := RerecordBlock(n, decode, old(docSet.preEnums), b);
              Reports(o, r) && (o.Pass? ==> docSet.preEnums == r.value)
    {
      ghost var f := StreamRerecorder(n, decode, b);
      ghost var pes0 := docSet.preEnums;
      var keys := RerecordKeys;
      var k := 0;
      while k < |keys|
        invariant 0 <= k <= |keys|
        invariant docSet.Valid() && docSet.enums == old(docSet.enums) && docSet.docIds == old(docSet.docIds)
        invariant Fold(f, pes0, keys[..k]) == Ok(docSet.preEnums)
      {
        FoldStep(f, pes0, keys, k, docSet.preEnums);
        o := RerecordStream(docSet, n, decode, b, keys[k]);
        if o.Fail? {
          FoldPrefixErr(f, pes0, keys, k + 1);
          return;
        }
        k := k + 1;
      }
      assert keys[..k] == keys;
      o := Pass;
    }

    /** `rerecordPreEnums(docSet, seq)`: the sequence id in "ids", then the
        five streams of every block, until one throws. */
    method RerecordPreEnums(docSet: DocSet, n: map<string, nat>, decode: seq<byte> -> seq<Item>, s: SequenceRecord)
      returns (o: Outcome)
      requires docSet.Valid()
      modifies docSet
      ensures docSet.Valid() && docSet.enums == old(docSet.enums) && docSet.docIds == old(docSet.docIds)
      ensures var r := Rerecord(n, decode, old(docSet.preEnums), s);
              Reports(o, r) && (o.Pass? ==> docSet.preEnums == r.value)
    {
      o := docSet.RecordPreEnum("ids", s.id);
      if o.Fail? {
        return;
      }
      ghost var f := BlockRerecorder(n, decode);
      ghost var pes0 := docSet.preEnums;
      var b := 0;
      while b < |s.blocks|
        invariant 0 <= b <= |s.blocks|
        invariant docSet.Valid() && docSet.enums == old(docSet.enums) && docSet.docIds == old(docSet.docIds)
        invariant Fold(f, pes0, s.blocks[..b]) == Ok(docSet.preEnums)
      {
        FoldStep(f, pes0, s.blocks, b, docSet.preEnums);
        o := RerecordStreams(docSet, n, decode, s.blocks[b]);
        if o.Fail? {
          FoldPrefixErr(f, pes0, s.blocks, b + 1);
          return;
        }
        b := b + 1;
      }
      assert s.blocks[..b] == s.blocks;
      o := Pass;
    }

    /** `serializeSuccinct`: the headers, the main sequence id, the tags
        and every stored sequence under its id; `order` is the insertion
        order of `this.sequences`, in which the first sequence that cannot
        be serialized throws. An uninitialised document has no tags, and
        copying them throws first. */
    function SerializeSuccinct(order: seq<Id>): (r: Result<SerializedDocument>)
      requires forall i :: 0 <= i < |order| ==> order[i] in sequences
      requires forall k :: k in sequences ==> k in order
      reads this
      ensures id.None? ==> r == Err(MissingTags)
      ensures r.Ok? <==> id.Some? && forall k :: k in sequences ==> SerializeSequence(sequences[k]).Ok?
      ensures r.Ok? ==> r.value.headers == headers && r.value.mainId == mainId && r.value.tags == tags
      ensures r.Ok? ==> r.value.sequences.Keys == sequences.Keys
      ensures r.Ok? ==> forall k :: k in sequences ==> r.value.sequences[k] == SerializeSequence(sequences[k]).value
      ensures r.Err? && id.Some? ==>
                exists i :: 0 <= i < |order| && SerializeSequence(sequences[order[i]]) == Err(r.error) &&
                            forall j :: 0 <= j < i ==> SerializeSequence(sequences[order[j]]).Ok?
    {
      if id.None? then Err(MissingTags) else
      var f := (s: SequenceRecord) => SerializeSequence(s);
      var e := SerializeEntries(f, sequences, order);
      assert (forall i :: 0 <= i < |order| ==> f(sequences[order[i]]).Ok?) <==>
             (forall k :: k in sequences ==> SerializeSequence(sequences[k]).Ok?);
      match e
      case Err(err) => Err(err)
      case Ok(m) =>
        assert m.Keys == sequences.Keys;
        Ok(SerializedDocument(headers, mainId, tags, m))
    }
  }

  /** `new Document(...)`: with no content type the document stays
      uninitialised and nothing else happens. Otherwise it gets its id and
      its tags, the content type picks the parser (`parse`, standing for
      parseUsfm, parseUsx and parseLexicon, with tidying and filtering for
      scripture), and the parsed document is processed. An unknown content
      type throws before the doc set is touched; a failure while parsing or
      processing throws, and no document results. */
  method NewDocument(docSetId: Id, contentType: string, content: string, id: Id, tags: seq<string>,
                     parse: (Format, string) -> Result<Parsed>, docSet: DocSet, n: map<string, nat>, pack: Packer,
                     build: PreEnumMap -> map<string, seq<byte>>)
    returns (r: Result<Document>)
    requires docSet.Valid()
    requires forall p: PreEnumMap, c :: c in build(p) ==> CountedWalkable(build(p)[c])
    modifies docSet
    ensures docSet.Valid() && docSet.docIds == old(docSet.docIds)
    ensures DocumentKind(contentType).Err? ==> r == Err(UnknownContentType(contentType))
    ensures DocumentKind(contentType).Ok? && DocumentKind(contentType).value.Some? &&
            parse(DocumentKind(contentType).value.value, content).Err? ==>
              r == Err(parse(DocumentKind(contentType).value.value, content).error)
    ensures DocumentKind(contentType).Err? || contentType == "" ==>
              docSet.preEnums == old(docSet.preEnums) && docSet.enums == old(docSet.enums)
    ensures r.Ok? ==> fresh(r.value) && r.value.docSetId == docSetId && DocumentKind(contentType).Ok?
    ensures r.Ok? && contentType == "" ==> r.value.id == None && r.value.sequences == map[]
    ensures r.Ok? && contentType != "" ==>
              var parsed := parse(DocumentKind(contentType).value.value, content).value;
              r.value.id == Some(id) && r.value.tags == (set t | t in tags) && r.value.headers == parsed.headers &&
              r.value.mainId == Some(parsed.mainId) && r.value.sequences.Keys == set k | 0 <= k < |parsed.sequences| :: parsed.sequences[k].id
    ensures r.Ok? && contentType != "" ==>
              var parsed := parse(DocumentKind(contentType).value.value, content).value;
              var p1 := Pass1(NotWordLike, n, old(docSet.preEnums), old(docSet.enums), Snapshots(parsed.sequences));
              p1.Ok? && docSet.preEnums == p1.value && docSet.enums == build(p1.value) &&
              StoreSequences(map[], pack, p1.value, parsed.baseTypes, parsed.sequences) == Ok(r.value.sequences)
  {
    var doc := new Document(docSetId);
    var kind := DocumentKind(contentType);
    if kind.Err? {
      return Err(kind.error);
    }
    if kind.value.None? {
      return Ok(doc);
    }
    doc.id := Some(id);
    doc.tags := set t | t in tags;
    var parsed := parse(kind.value.value, content);
    if parsed.Err? {
      return Err(parsed.error);
    }
    ghost var pes := docSet.preEnums;
    ghost var enums := docSet.enums;
    var o := doc.Process(docSet, n, parsed.value, pack, build);
    if o.Fail? {
      return Err(o.error);
    }
    ghost var p1 := Pass1(NotWordLike, n, pes, enums, Snapshots(parsed.value.sequences));
    StoreSequencesKeys(map[], pack, p1.value, parsed.value.baseTypes, parsed.value.sequences);
    r := Ok(doc);
  }
}
