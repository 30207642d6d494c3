/** The growable byte buffer (`ByteArray`, lib/byte_array) as far as the
    importer uses it: appending one byte, overwriting one byte, appending a
    variable-length integer, and reading the counted strings of a frozen enum
    table. Its source is not part of this model; the layouts below are the
    ones its callers rely on. */
module ByteArrays {
  import opened Wrappers

  newtype byte = x: int | 0 <= x < 256

  /** A value stored into a byte buffer keeps its low eight bits, as a store
      into a Uint8Array does (Euclidean `%` gives the two's-complement low
      bits of a negative value too). */
  function ToByte(x: int): byte
  {
    (x % 256) as byte
  }

  /** Bitwise OR of two non-negative integers, JavaScript's `|` on them. */
  function BitOr(a: nat, b: nat): nat
    decreases a + b
  {
    if a == 0 then b
    else if b == 0 then a
    else 2 * BitOr(a / 2, b / 2) + (if a % 2 == 1 || b % 2 == 1 then 1 else 0)
  }

  function Pow2(k: nat): nat
  {
    if k == 0 then 1 else 2 * Pow2(k - 1)
  }

  /** OR-ing a value below 2^k with a multiple of 2^k is addition: the bits
      do not overlap. */
  lemma {:induction false} BitOrDisjoint(a: nat, b: nat, k: nat)
    requires a < Pow2(k)
    ensures BitOr(a, b * Pow2(k)) == a + b * Pow2(k)
    decreases k
  {
    if k > 0 && a != 0 && b != 0 {
      var m := Pow2(k - 1);
      assert b * Pow2(k) == 2 * (b * m);
      assert (b * Pow2(k)) / 2 == b * m && (b * Pow2(k)) % 2 == 0;
      BitOrDisjoint(a / 2, b, k - 1);
    }
  }

  /** The bytes `pushNByte(v)` appends: seven data bits per byte, least
      significant group first; the top bit is set on the last byte only. */
  function VarInt(v: nat): (bs: seq<byte>)
    ensures |bs| >= 1
    decreases v
  {
    if v < 128 then [(v + 128) as byte] else [(v % 128) as byte] + VarInt(v / 128)
  }

  /** Reads one variable-length integer at the start of `bs`: its value and
      the number of bytes it occupies, or None when `bs` ends first. */
  function ReadVarInt(bs: seq<byte>): (r: Option<(nat, nat)>)
    ensures r.Some? ==> 1 <= r.value.1 <= |bs|
    decreases |bs|
  {
    if |bs| == 0 then None
    else if bs[0] >= 128 then Some((bs[0] as int - 128, 1))
    else
      match ReadVarInt(bs[1..])
      case None => None
      case Some((v, n)) => Some((bs[0] as int + 128 * v, n + 1))
  }

  /** Reading back what `pushNByte` wrote gives the value and its exact
      length, whatever follows it in the buffer. */
  lemma {:induction false} ReadVarIntOfVarInt(v: nat, rest: seq<byte>)
    ensures ReadVarInt(VarInt(v) + rest) == Some((v, |VarInt(v)|))
    decreases v
  {
    var bs := VarInt(v) + rest;
    if v < 128 {
      assert bs[0] as int == v + 128;
    } else {
      var low := (v % 128) as byte;
      assert bs[0] == low && low < 128;
      assert bs[1..] == VarInt(v / 128) + rest;
      ReadVarIntOfVarInt(v / 128, rest);
      assert low as int == v % 128;
    }
  }

  /** The encodings of several values, one after the other. */
  function VarInts(vs: seq<nat>): seq<byte>
  {
    if vs == [] then [] else VarInts(vs[..|vs| - 1]) + VarInt(vs[|vs| - 1])
  }

  /** Appending one value in front: its encoding comes first. */
  lemma {:induction false} VarIntsCons(v: nat, vs: seq<nat>)
    ensures VarInts([v] + vs) == VarInt(v) + VarInts(vs)
    decreases |vs|
  {
    if vs == [] {
      assert [v] + vs == [v];
      assert VarInts([v]) == VarInts([]) + VarInt(v);
    } else {
      var init := vs[..|vs| - 1];
      assert ([v] + vs)[..|[v] + vs| - 1] == [v] + init;
      assert ([v] + vs)[|[v] + vs| - 1] == vs[|vs| - 1];
      VarIntsCons(v, init);
      SeqAssoc(VarInt(v), VarInts(init), VarInt(vs[|vs| - 1]));
    }
  }

  /** Reads variable-length integers until the buffer ends: None when the
      last one is cut short. */
  function ReadVarInts(bs: seq<byte>): Option<seq<nat>>
    decreases |bs|
  {
    if bs == [] then Some([])
    else
      match ReadVarInt(bs)
      case None => None
      case Some((v, n)) =>
        match ReadVarInts(bs[n..])
        case None => None
        case Some(vs) => Some([v] + vs)
  }

  /** The values written one after the other are read back in order. */
  lemma {:induction false} ReadVarIntsOfVarInts(vs: seq<nat>)
    ensures ReadVarInts(VarInts(vs)) == Some(vs)
    decreases |vs|
  {
    if vs != [] {
      var rest := VarInts(vs[1..]);
      assert [vs[0]] + vs[1..] == vs;
      VarIntsCons(vs[0], vs[1..]);
      ReadVarIntOfVarInt(vs[0], rest);
      assert (VarInt(vs[0]) + rest)[|VarInt(vs[0])|..] == rest;
      ReadVarIntsOfVarInts(vs[1..]);
    }
  }

  /** Every length byte reached by walking a buffer of counted strings from
      `pos` is non-zero. With a zero length byte the walk of `buildPreEnum`
      (processor/classes/doc_set.js:32-38) never advances. */
  predicate WalkableFrom(bs: seq<byte>, pos: nat)
    decreases |bs| - pos
  {
    pos >= |bs| || (bs[pos] != 0 && WalkableFrom(bs, pos + bs[pos] as int))
  }

  predicate CountedWalkable(bs: seq<byte>)
  {
    WalkableFrom(bs, 0)
  }

  /** Bytes read as characters, one character per byte (text decoding of
      multi-byte UTF-8 is not part of this model). */
  function Chars(bs: seq<byte>): string
  {
    if bs == [] then [] else Chars(bs[..|bs| - 1]) + [(bs[|bs| - 1] as int) as char]
  }

  /** The counted string at `pos`: its length byte counts itself and the
      bytes of the string; a record running past the end is cut short. */
  function CountedString(bs: seq<byte>, pos: nat): string
    requires pos < |bs|
  {
    var end := if pos + bs[pos] as int > |bs| then |bs| else pos + bs[pos] as int;
    if end <= pos + 1 then "" else Chars(bs[pos + 1..end])
  }

  /** The counted strings from `pos` on, in buffer order. */
  function CountedStringsFrom(bs: seq<byte>, pos: nat): seq<string>
    requires WalkableFrom(bs, pos)
    decreases |bs| - pos
  {
    if pos >= |bs| then [] else [CountedString(bs, pos)] + CountedStringsFrom(bs, pos + bs[pos] as int)
  }

  /** One step of the walk: the length byte is positive and the walk goes on
      from the next record. */
  lemma WalkStep(bs: seq<byte>, pos: nat)
    requires WalkableFrom(bs, pos) && pos < |bs|
    ensures bs[pos] as int > 0 && WalkableFrom(bs, pos + bs[pos] as int)
    ensures CountedStringsFrom(bs, pos) == [CountedString(bs, pos)] + CountedStringsFrom(bs, pos + bs[pos] as int)
  {
  }

  function CountedStrings(bs: seq<byte>): seq<string>
    requires CountedWalkable(bs)
  {
    CountedStringsFrom(bs, 0)
  }

  /** The walk of a loop that has read the strings `read` so far goes on from
      the next record. */
  lemma WalkOn(bs: seq<byte>, pos: nat, read: seq<string>)
    requires CountedWalkable(bs) && WalkableFrom(bs, pos) && pos < |bs|
    requires read + CountedStringsFrom(bs, pos) == CountedStrings(bs)
    ensures WalkableFrom(bs, pos + bs[pos] as int)
    ensures (read + [CountedString(bs, pos)]) + CountedStringsFrom(bs, pos + bs[pos] as int) == CountedStrings(bs)
  {
    WalkStep(bs, pos);
    SeqAssoc(read, [CountedString(bs, pos)], CountedStringsFrom(bs, pos + bs[pos] as int));
  }

  class ByteArray {
    var bytes: seq<byte>

    /** `new ByteArray(size)`: the size is a capacity hint; the buffer starts empty. */
    constructor ()
      ensures bytes == []
    {
      bytes := [];
    }

    function Length(): nat
      reads this
    {
      |bytes|
    }

    method PushByte(b: byte)
      modifies this
      ensures bytes == old(bytes) + [b]
    {
      bytes := bytes + [b];
    }

    method SetByte(pos: nat, b: byte)
      requires pos < |bytes|
      modifies this
      ensures bytes == old(bytes)[pos := b]
    {
      bytes := bytes[pos := b];
    }

    method PushNByte(v: nat)
      modifies this
      ensures bytes == old(bytes) + VarInt(v)
    {
      var n := v;
      while n >= 128
        invariant old(bytes) + VarInt(v) == bytes + VarInt(n)
        decreases n
      {
        assert VarInt(n) == [(n % 128) as byte] + VarInt(n / 128);
        PushByte((n % 128) as byte);
        n := n / 128;
      }
      PushByte((n + 128) as byte);
    }
  }
}
