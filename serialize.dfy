/** The structure of `serializeSuccinct*`: a packed block becomes an object
    with one entry per named stream. The base64 rendering of each stream is
    not modelled: an entry holds the stream's bytes. */
module Serialization {
  import opened Wrappers
  import opened ByteArrays
  import opened Sequences

  /** The streams model/document.js writes for a block, in order. */
  const LegacyStreamKeys: seq<string> := ["bs", "bg", "c"]

  /** The streams src/model/document.js writes for a block, in order. */
  const StreamKeys: seq<string> := ["bs", "bg", "c", "is", "os"]

  /** A serialized block: stream name to bytes. */
  type SerializedBlock = map<string, seq<byte>>

  /** `serializeSuccinctBlock`: each named stream in turn; reading a stream
      the block does not have throws at the first such name. */
  function SerializeBlock(keys: seq<string>, b: PackedBlock): (r: Result<SerializedBlock>)
    ensures r.Ok? <==> forall i :: 0 <= i < |keys| ==> keys[i] in b.streams
    ensures r.Ok? ==> r.value.Keys == set i | 0 <= i < |keys| :: keys[i]
    ensures r.Ok? ==> forall k :: k in r.value ==> k in b.streams && r.value[k] == b.streams[k]
    ensures r.Err? ==> exists i :: 0 <= i < |keys| && keys[i] !in b.streams && r.error == MissingStream(keys[i]) &&
                                   forall j :: 0 <= j < i ==> keys[j] in b.streams
    decreases |keys|
  {
    if keys == [] then Ok(map[])
    else if keys[0] !in b.streams then Err(MissingStream(keys[0]))
    else
      match SerializeBlock(keys[1..], b)
      case Err(e) =>
        SerializeBlockErrShift(keys, b, e);
        Err(e)
      case Ok(m) =>
        assert (set i | 0 <= i < |keys| :: keys[i]) == {keys[0]} + set i | 0 <= i < |keys[1..]| :: keys[1..][i];
        Ok(m[keys[0] := b.streams[keys[0]]])
  }

  /** A stream missing after the first name is missing in the whole list,
      one position further on. */
  lemma SerializeBlockErrShift(keys: seq<string>, b: PackedBlock, e: Error)
    requires keys != [] && keys[0] in b.streams
    requires exists i :: 0 <= i < |keys[1..]| && keys[1..][i] !in b.streams && e == MissingStream(keys[1..][i]) &&
                         forall j :: 0 <= j < i ==> keys[1..][j] in b.streams
    ensures exists i :: 0 <= i < |keys| && keys[i] !in b.streams && e == MissingStream(keys[i]) &&
                        forall j :: 0 <= j < i ==> keys[j] in b.streams
  {
    var i :| 0 <= i < |keys[1..]| && keys[1..][i] !in b.streams && e == MissingStream(keys[1..][i]) &&
             forall j :: 0 <= j < i ==> keys[1..][j] in b.streams;
    assert keys[i + 1] == keys[1..][i];
    forall j | 0 <= j < i + 1
      ensures keys[j] in b.streams
    {
      if j > 0 {
        assert keys[j] == keys[1..][j - 1];
      }
    }
  }

  function BlockSerializer(keys: seq<string>): PackedBlock -> Result<SerializedBlock>
  {
    (b: PackedBlock) => SerializeBlock(keys, b)
  }

  /** `seqOb.blocks.map(serializeSuccinctBlock)`. */
  function SerializeBlocks(keys: seq<string>, bs: seq<PackedBlock>): (r: Result<seq<SerializedBlock>>)
    ensures r.Ok? <==> forall i, j :: 0 <= i < |bs| && 0 <= j < |keys| ==> keys[j] in bs[i].streams
    ensures r.Ok? ==> |r.value| == |bs| && forall i :: 0 <= i < |bs| ==> r.value[i] == SerializeBlock(keys, bs[i]).value
  {
    var r := Collect(BlockSerializer(keys), bs);
    assert r.Ok? <==> forall i :: 0 <= i < |bs| ==> SerializeBlock(keys, bs[i]).Ok?;
    r
  }

  /** A block with every stream named serializes to exactly those streams. */
  lemma SerializeBlockExact(keys: seq<string>, b: PackedBlock)
    requires forall i :: 0 <= i < |keys| ==> keys[i] in b.streams
    ensures SerializeBlock(keys, b) == Ok(map k | k in b.streams && k in keys :: b.streams[k])
  {
    var m := SerializeBlock(keys, b).value;
    assert forall k :: k in keys <==> exists i :: 0 <= i < |keys| && keys[i] == k;
    assert m == map k | k in b.streams && k in keys :: b.streams[k];
  }

  /** `for (const [k, v] of Object.entries(m)) out[k] = f(v)`: the entries
      are visited in `order`, the insertion order of `m`, and the first one
      that fails to serialize throws. */
  function SerializeEntries<K, V, W>(f: V -> Result<W>, m: map<K, V>, order: seq<K>): (r: Result<map<K, W>>)
    requires forall i :: 0 <= i < |order| ==> order[i] in m
    ensures r.Ok? <==> forall i :: 0 <= i < |order| ==> f(m[order[i]]).Ok?
    ensures r.Ok? ==> r.value.Keys == set i | 0 <= i < |order| :: order[i]
    ensures r.Ok? ==> forall k :: k in r.value ==> k in m && f(m[k]).Ok? && r.value[k] == f(m[k]).value
    ensures r.Err? ==> exists i :: 0 <= i < |order| && f(m[order[i]]) == Err(r.error) &&
                                   forall j :: 0 <= j < i ==> f(m[order[j]]).Ok?
    decreases |order|
  {
    if order == [] then Ok(map[])
    else
      match f(m[order[0]])
      case Err(e) => Err(e)
      case Ok(w) =>
        match SerializeEntries(f, m, order[1..])
        case Err(e) =>
          SerializeEntriesErrShift(f, m, order, e);
          Err(e)
        case Ok(rest) =>
          assert (set i | 0 <= i < |order| :: order[i]) == {order[0]} + set i | 0 <= i < |order[1..]| :: order[1..][i];
          assert forall i :: 1 <= i < |order| ==> order[i] == order[1..][i - 1];
          Ok(rest[order[0] := w])
  }

  /** An entry failing after the first is failing in the whole order, one
      position further on. */
  lemma SerializeEntriesErrShift<K, V, W>(f: V -> Result<W>, m: map<K, V>, order: seq<K>, e: Error)
    requires order != [] && forall i :: 0 <= i < |order| ==> order[i] in m
    requires f(m[order[0]]).Ok?
    requires exists i :: 0 <= i < |order[1..]| && f(m[order[1..][i]]) == Err(e) &&
                         forall j :: 0 <= j < i ==> f(m[order[1..][j]]).Ok?
    ensures exists i :: 0 <= i < |order| && f(m[order[i]]) == Err(e) &&
                        forall j :: 0 <= j < i ==> f(m[order[j]]).Ok?
  {
    var i :| 0 <= i < |order[1..]| && f(m[order[1..][i]]) == Err(e) &&
             forall j :: 0 <= j < i ==> f(m[order[1..][j]]).Ok?;
    assert order[i + 1] == order[1..][i];
    forall j | 0 <= j < i + 1
      ensures f(m[order[j]]).Ok?
    {
      if j > 0 {
        assert order[j] == order[1..][j - 1];
      }
    }
  }
}
