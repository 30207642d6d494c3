/** A sequence of blocks (processor/classes/sequence.js): the items the
    parser appends, the stack of scopes still open on it, and the encoder that
    packs each block into byte records. */
module Sequences {
  import opened Wrappers
  import opened Ids
  import opened Labels
  import opened ByteArrays
  import opened Defs
  import opened Items
  import opened PreEnums
  import opened DocSets

  // ---------------------------------------------------------------------
  // Blocks as values

  /** The blocks `lastBlock()` leaves: an "orphanTokens" block is added when
      there is none. */
  function WithLast(bs: seq<Block>): (r: seq<Block>)
    ensures |r| >= 1
  {
    if bs == [] then [EmptyBlock("orphanTokens")] else bs
  }

  /** The blocks after `addItem(i)`: `i` goes at the end of the last block. */
  function AddTo(bs: seq<Block>, i: Item): (r: seq<Block>)
    ensures |r| >= 1
  {
    var b := WithLast(bs);
    var last := b[|b| - 1];
    b[..|b| - 1] + [last.(items := last.items + [i])]
  }

  /** The blocks after adding each of `xs` in turn. */
  function AppendItems(bs: seq<Block>, xs: seq<Item>): seq<Block>
  {
    if xs == [] then bs else AddTo(AppendItems(bs, xs[..|xs| - 1]), xs[|xs| - 1])
  }

  /** `items()`: the items of every block, in block order. */
  function ItemsOf(bs: seq<Block>): seq<Item>
  {
    if bs == [] then [] else ItemsOf(bs[..|bs| - 1]) + bs[|bs| - 1].items
  }

  predicate IsGraft(i: Item)
  {
    i.Graft?
  }

  predicate IsScope(i: Item)
  {
    i.Scope?
  }

  /** Block.grafts() and Block.scopes() (processor/classes/block.js is not
      part of this model): the block's items of that kind, in order. */
  function Only(keep: Item -> bool, xs: seq<Item>): (r: seq<Item>)
    ensures forall i :: 0 <= i < |r| ==> keep(r[i])
    ensures forall x :: x in r <==> x in xs && keep(x)
  {
    if xs == [] then [] else Only(keep, xs[..|xs| - 1]) + (if keep(xs[|xs| - 1]) then [xs[|xs| - 1]] else [])
  }

  /** `grafts()` and `scopes()`: the per-block lists, concatenated in block order. */
  function OnlyOf(keep: Item -> bool, bs: seq<Block>): seq<Item>
  {
    if bs == [] then [] else OnlyOf(keep, bs[..|bs| - 1]) + Only(keep, bs[|bs| - 1].items)
  }

  lemma {:induction false} OnlyConcat(keep: Item -> bool, xs: seq<Item>, ys: seq<Item>)
    ensures Only(keep, xs + ys) == Only(keep, xs) + Only(keep, ys)
    decreases |ys|
  {
    if ys == [] {
      assert xs + ys == xs;
    } else {
      var init := ys[..|ys| - 1];
      assert (xs + ys)[..|xs + ys| - 1] == xs + init;
      assert (xs + ys)[|xs + ys| - 1] == ys[|ys| - 1];
      OnlyConcat(keep, xs, init);
    }
  }

  /** The concatenated per-block lists are the items of that kind, in the
      order `items()` lists them. */
  lemma {:induction false} OnlyOfItems(keep: Item -> bool, bs: seq<Block>)
    ensures OnlyOf(keep, bs) == Only(keep, ItemsOf(bs))
  {
    if bs != [] {
      OnlyOfItems(keep, bs[..|bs| - 1]);
      OnlyConcat(keep, ItemsOf(bs[..|bs| - 1]), bs[|bs| - 1].items);
    }
  }

  lemma ItemsOfSnoc(bs: seq<Block>, b: Block)
    ensures ItemsOf(bs + [b]) == ItemsOf(bs) + b.items
  {
    assert (bs + [b])[..|bs|] == bs;
  }

  /** Adding an item appends it to `items()`. */
  lemma AddToItems(bs: seq<Block>, i: Item)
    ensures ItemsOf(AddTo(bs, i)) == ItemsOf(bs) + [i]
  {
    var b := WithLast(bs);
    var init := b[..|b| - 1];
    var last := b[|b| - 1];
    assert b == init + [last];
    ItemsOfSnoc(init, last);
    ItemsOfSnoc(init, last.(items := last.items + [i]));
    if bs == [] {
      assert ItemsOf(init) == [] && last.items == [];
    }
  }

  /** The earlier blocks, and the block scope and grafts of the last one, are
      untouched; a block is added only when there was none. */
  lemma AddToBlocks(bs: seq<Block>, i: Item)
    ensures |AddTo(bs, i)| == if bs == [] then 1 else |bs|
    ensures bs == [] ==> AddTo(bs, i) == [Block("orphanTokens", [i], [])]
    ensures bs != [] ==> AddTo(bs, i)[..|bs| - 1] == bs[..|bs| - 1]
    ensures bs != [] ==> AddTo(bs, i)[|bs| - 1] == bs[|bs| - 1].(items := bs[|bs| - 1].items + [i])
  {
    if bs == [] {
      assert [] + [i] == [i];
    }
  }

  lemma {:induction false} AppendItemsConcat(bs: seq<Block>, xs: seq<Item>, ys: seq<Item>)
    ensures AppendItems(bs, xs + ys) == AppendItems(AppendItems(bs, xs), ys)
    decreases |ys|
  {
    if ys == [] {
      assert xs + ys == xs;
    } else {
      var init := ys[..|ys| - 1];
      assert (xs + ys)[..|xs + ys| - 1] == xs + init;
      assert (xs + ys)[|xs + ys| - 1] == ys[|ys| - 1];
      AppendItemsConcat(bs, xs, init);
    }
  }

  /** Adding several items appends exactly them to `items()`. */
  lemma {:induction false} AppendItemsSpec(bs: seq<Block>, xs: seq<Item>)
    ensures ItemsOf(AppendItems(bs, xs)) == ItemsOf(bs) + xs
  {
    if xs != [] {
      var init := xs[..|xs| - 1];
      AppendItemsSpec(bs, init);
      AddToItems(AppendItems(bs, init), xs[|xs| - 1]);
      assert init + [xs[|xs| - 1]] == xs;
    }
  }

  lemma AppendStep(bs: seq<Block>, xs: seq<Item>, k: nat)
    requires k < |xs|
    ensures AppendItems(bs, xs[..k + 1]) == AddTo(AppendItems(bs, xs[..k]), xs[k])
  {
    assert xs[..k + 1][..k] == xs[..k];
  }

  lemma AppendOne(bs: seq<Block>, xs: seq<Item>, x: Item)
    ensures AppendItems(bs, xs + [x]) == AddTo(AppendItems(bs, xs), x)
  {
    assert (xs + [x])[..|xs + [x]| - 1] == xs;
  }

  // ---------------------------------------------------------------------
  // Closing scopes

  function Reversed<T>(s: seq<T>): (r: seq<T>)
    ensures |r| == |s|
    ensures forall i :: 0 <= i < |s| ==> r[i] == s[|s| - 1 - i]
  {
    if s == [] then [] else [s[|s| - 1]] + Reversed(s[..|s| - 1])
  }

  /** The end-scope items for `scs`, in order. */
  function EndItems(scs: seq<ActiveScope>): (r: seq<Item>)
    ensures |r| == |scs|
    ensures forall i :: 0 <= i < |scs| ==> r[i] == Scope(false, scs[i].scopeLabel)
  {
    if scs == [] then [] else EndItems(scs[..|scs| - 1]) + [Scope(false, scs[|scs| - 1].scopeLabel)]
  }

  /** The items the `onEnd` hooks of `scs` add, in order. */
  function OnEndItems(scs: seq<ActiveScope>): seq<Item>
  {
    if scs == [] then [] else OnEndItems(scs[..|scs| - 1]) + scs[|scs| - 1].onEnd
  }

  /** Each scope's end item followed by what its hook adds. */
  function CloseItems(scs: seq<ActiveScope>): seq<Item>
  {
    if scs == [] then [] else CloseItems(scs[..|scs| - 1]) + ([Scope(false, scs[|scs| - 1].scopeLabel)] + scs[|scs| - 1].onEnd)
  }

  /** Without hooks, closing adds exactly the end items. */
  lemma {:induction false} CloseItemsWithoutHooks(scs: seq<ActiveScope>)
    requires forall i :: 0 <= i < |scs| ==> scs[i].onEnd == []
    ensures CloseItems(scs) == EndItems(scs)
    ensures OnEndItems(scs) == []
  {
    if scs != [] {
      CloseItemsWithoutHooks(scs[..|scs| - 1]);
    }
  }

  lemma CloseItemsStep(scs: seq<ActiveScope>, i: nat)
    requires i < |scs|
    ensures CloseItems(scs[..i + 1]) == CloseItems(scs[..i]) + ([Scope(false, scs[i].scopeLabel)] + scs[i].onEnd)
    ensures EndItems(scs[..i + 1]) == EndItems(scs[..i]) + [Scope(false, scs[i].scopeLabel)]
    ensures OnEndItems(scs[..i + 1]) == OnEndItems(scs[..i]) + scs[i].onEnd
  {
    assert scs[..i + 1][..i] == scs[..i];
  }

  class Sequence {
    const id: Id
    const seqType: string
    var blocks: seq<Block>
    var activeScopes: seq<ActiveScope>

    /** `new Sequence(sType)`: a fresh id, no blocks, no open scopes. */
    constructor (id: Id, seqType: string)
      ensures this.id == id && this.seqType == seqType
      ensures blocks == [] && activeScopes == []
    {
      this.id := id;
      this.seqType := seqType;
      blocks := [];
      activeScopes := [];
    }

    method LastBlock() returns (b: Block)
      modifies this
      ensures blocks == WithLast(old(blocks)) && b == blocks[|blocks| - 1]
      ensures activeScopes == old(activeScopes)
    {
      if |blocks| == 0 {
        var _ := NewBlock("orphanTokens");
      }
      b := blocks[|blocks| - 1];
    }

    /** Adds `i` to the last block (Block.addItem appends to the block's items). */
    method AddItem(i: Item)
      modifies this
      ensures blocks == AddTo(old(blocks), i)
      ensures activeScopes == old(activeScopes)
    {
      var last := LastBlock();
      blocks := blocks[..|blocks| - 1] + [last.(items := last.items + [i])];
    }

    method NewBlock(scopeLabel: string) returns (o: Outcome)
      modifies this
      ensures o.Fail? <==> scopeLabel == ""
      ensures o.Fail? ==> o.error == MissingBlockLabel && blocks == old(blocks)
      ensures o.Pass? ==> blocks == old(blocks) + [EmptyBlock(scopeLabel)]
      ensures activeScopes == old(activeScopes)
    {
      if scopeLabel == "" {
        return Fail(MissingBlockLabel);
      }
      blocks := blocks + [EmptyBlock(scopeLabel)];
      return Pass;
    }

    /** The effect of a hook that adds `xs` to this sequence: each in turn. */
    method AddItems(xs: seq<Item>)
      modifies this
      ensures blocks == AppendItems(old(blocks), xs)
      ensures activeScopes == old(activeScopes)
    {
      ghost var start := blocks;
      var k := 0;
      while k < |xs|
        invariant 0 <= k <= |xs|
        invariant blocks == AppendItems(start, xs[..k])
        invariant activeScopes == old(activeScopes)
      {
        AppendStep(start, xs, k);
        AddItem(xs[k]);
        k := k + 1;
      }
      assert xs[..k] == xs;
    }

    /** Ends `sc`: its end item goes on this sequence, the items of its hook
        on `target`, the parser's current sequence. */
    method CloseActiveScope(target: Sequence, sc: ActiveScope)
      modifies this, target
      ensures this == target ==> blocks == AppendItems(old(blocks), [Scope(false, sc.scopeLabel)] + sc.onEnd)
      ensures this != target ==> blocks == AddTo(old(blocks), Scope(false, sc.scopeLabel))
      ensures this != target ==> target.blocks == AppendItems(old(target.blocks), sc.onEnd)
      ensures activeScopes == old(activeScopes) && target.activeScopes == old(target.activeScopes)
    {
      AddItem(Scope(false, sc.scopeLabel));
      target.AddItems(sc.onEnd);
      if this == target {
        AppendOne(old(blocks), [], Scope(false, sc.scopeLabel));
        AppendItemsConcat(old(blocks), [Scope(false, sc.scopeLabel)], sc.onEnd);
      }
    }

    /** The blocks after `done` have been closed, starting from `b0` on this
        sequence and `t0` on `target`. */
    ghost predicate ClosedUpTo(target: Sequence, b0: seq<Block>, t0: seq<Block>, done: seq<ActiveScope>)
      reads this, target
    {
      (this == target ==> blocks == AppendItems(b0, CloseItems(done))) &&
      (this != target ==> blocks == AppendItems(b0, EndItems(done)) && target.blocks == AppendItems(t0, OnEndItems(done)))
    }

    /** One more scope of `scopes` closed. */
    method CloseNext(target: Sequence, ghost b0: seq<Block>, ghost t0: seq<Block>, scopes: seq<ActiveScope>, i: nat)
      requires i < |scopes| && ClosedUpTo(target, b0, t0, scopes[..i])
      modifies this, target
      ensures ClosedUpTo(target, b0, t0, scopes[..i + 1])
      ensures activeScopes == old(activeScopes) && target.activeScopes == old(target.activeScopes)
    {
      CloseItemsStep(scopes, i);
      var sc := scopes[i];
      var end := Scope(false, sc.scopeLabel);
      CloseActiveScope(target, sc);
      if this == target {
        AppendItemsConcat(b0, CloseItems(scopes[..i]), [end] + sc.onEnd);
      } else {
        AppendOne(b0, EndItems(scopes[..i]), end);
        AppendItemsConcat(t0, OnEndItems(scopes[..i]), sc.onEnd);
      }
    }

    /** Ends every open scope, the most recently opened first, and empties
        the stack. */
    method Close(target: Sequence)
      modifies this, target
      ensures activeScopes == []
      ensures this == target ==> blocks == AppendItems(old(blocks), CloseItems(Reversed(old(activeScopes))))
      ensures this != target ==> blocks == AppendItems(old(blocks), EndItems(Reversed(old(activeScopes))))
      ensures this != target ==> target.blocks == AppendItems(old(target.blocks), OnEndItems(Reversed(old(activeScopes))))
      ensures this != target ==> target.activeScopes == old(target.activeScopes)
    {
      var scopes := Reversed(activeScopes);
      ghost var b0 := blocks;
      ghost var t0 := target.blocks;
      var i := 0;
      while i < |scopes|
        invariant 0 <= i <= |scopes|
        invariant activeScopes == old(activeScopes)
        invariant this != target ==> target.activeScopes == old(target.activeScopes)
        invariant ClosedUpTo(target, b0, t0, scopes[..i])
      {
        CloseNext(target, b0, t0, scopes, i);
        i := i + 1;
      }
      assert scopes[..i] == scopes;
      activeScopes := [];
    }

    /** Appends the record of a token; a failed lookup throws before
        anything is written. */
    method PushSuccinctToken(bA: ByteArray, docSet: DocSet, t: Tables, item: Item) returns (o: Outcome)
      requires item.Token?
      modifies bA
      ensures o.Pass? <==> TokenRecord(docSet.preEnums, t, item.itemType, item.chars).Ok?
      ensures o.Pass? ==> bA.bytes == old(bA.bytes) + TokenRecord(docSet.preEnums, t, item.itemType, item.chars).value
      ensures o.Fail? ==> o.error == TokenRecord(docSet.preEnums, t, item.itemType, item.chars).error
      ensures o.Fail? ==> bA.bytes == old(bA.bytes)
    {
      var charsEnum := docSet.EnumForCategoryValue(TokenCategory(t, item.itemType), item.chars);
      if charsEnum.Err? {
        return Fail(charsEnum.error);
      }
      var lengthPos := bA.Length();
      bA.PushByte(0);
      bA.PushByte(TableByte(t.tokenEnum, item.itemType));
      bA.PushNByte(charsEnum.value.enum);
      var body := [TableByte(t.tokenEnum, item.itemType)] + VarInt(charsEnum.value.enum);
      Pushed(old(bA.bytes), TableByte(t.tokenEnum, item.itemType), VarInt(charsEnum.value.enum));
      PatchHeader(old(bA.bytes), body, Header(bA.Length() - lengthPos, t.itemEnum.token));
      bA.SetByte(lengthPos, Header(bA.Length() - lengthPos, t.itemEnum.token));
      return Pass;
    }

    /** Appends the record of a graft; a failed lookup throws before
        anything is written. */
    method PushSuccinctGraft(bA: ByteArray, docSet: DocSet, t: Tables, item: Item) returns (o: Outcome)
      requires item.Graft?
      modifies bA
      ensures o.Pass? <==> GraftRecord(docSet.preEnums, t, item.graftType, item.seqId).Ok?
      ensures o.Pass? ==> bA.bytes == old(bA.bytes) + GraftRecord(docSet.preEnums, t, item.graftType, item.seqId).value
      ensures o.Fail? ==> o.error == GraftRecord(docSet.preEnums, t, item.graftType, item.seqId).error
      ensures o.Fail? ==> bA.bytes == old(bA.bytes)
    {
      var graftTypeEnum := docSet.EnumForCategoryValue("graftTypes", item.graftType);
      if graftTypeEnum.Err? {
        return Fail(graftTypeEnum.error);
      }
      var seqEnum := docSet.EnumForCategoryValue("ids", item.seqId);
      if seqEnum.Err? {
        return Fail(seqEnum.error);
      }
      var lengthPos := bA.Length();
      bA.PushByte(0);
      bA.PushByte(ToByte(graftTypeEnum.value.enum));
      bA.PushNByte(seqEnum.value.enum);
      var body := [ToByte(graftTypeEnum.value.enum)] + VarInt(seqEnum.value.enum);
      Pushed(old(bA.bytes), ToByte(graftTypeEnum.value.enum), VarInt(seqEnum.value.enum));
      PatchHeader(old(bA.bytes), body, Header(bA.Length() - lengthPos, t.itemEnum.graft));
      bA.SetByte(lengthPos, Header(bA.Length() - lengthPos, t.itemEnum.graft));
      return Pass;
    }

    /** Appends the record of a scope boundary. The component lookups happen
        while the record is being written, so a failed one leaves the
        placeholder header, the type byte and the enums before it behind. */
    method PushSuccinctScope(bA: ByteArray, docSet: DocSet, t: Tables, item: Item) returns (o: Outcome)
      requires item.Scope?
      modifies bA
      ensures o.Pass? <==> ScopeRecord(docSet.preEnums, t, item.isStart, item.scopeLabel).Ok?
      ensures o.Pass? ==> bA.bytes == old(bA.bytes) + ScopeRecord(docSet.preEnums, t, item.isStart, item.scopeLabel).value
      ensures o.Fail? ==> o.error == ScopeRecord(docSet.preEnums, t, item.isStart, item.scopeLabel).error
      ensures o.Fail? ==> old(bA.bytes) + [0, TableByte(t.scopeEnum, Split(item.scopeLabel)[0])] <= bA.bytes
    {
      var scopeBits := Split(item.scopeLabel);
      var lengthPos := bA.Length();
      bA.PushByte(0);
      bA.PushByte(TableByte(t.scopeEnum, scopeBits[0]));
      o := PushScopeBits(bA, docSet, scopeBits[1..]);
      Pushed(old(bA.bytes), TableByte(t.scopeEnum, scopeBits[0]), []);
      if o.Fail? {
        return;
      }
      var rest := VarInts(ScopeBitEnums(docSet.preEnums, scopeBits[1..]).value);
      var body := [TableByte(t.scopeEnum, scopeBits[0])] + rest;
      Pushed(old(bA.bytes), TableByte(t.scopeEnum, scopeBits[0]), rest);
      var header := Header(bA.Length() - lengthPos, ScopeKind(t.itemEnum, item.isStart));
      assert bA.Length() - lengthPos == |body| + 1;
      assert ScopeRecord(docSet.preEnums, t, item.isStart, item.scopeLabel) == Ok([header] + body);
      PatchHeader(old(bA.bytes), body, header);
      bA.SetByte(lengthPos, header);
    }

    /** The loop of `pushSuccinctScope`: the `scopeBits` enum of each
        component in turn, until one is not recorded. */
    method PushScopeBits(bA: ByteArray, docSet: DocSet, bits: seq<string>) returns (o: Outcome)
      modifies bA
      ensures o.Pass? <==> ScopeBitEnums(docSet.preEnums, bits).Ok?
      ensures o.Pass? ==> bA.bytes == old(bA.bytes) + VarInts(ScopeBitEnums(docSet.preEnums, bits).value)
      ensures o.Fail? ==> o.error == ScopeBitEnums(docSet.preEnums, bits).error
      ensures old(bA.bytes) <= bA.bytes
    {
      ghost var pes := docSet.preEnums;
      ghost var start := bA.bytes;
      var k := 0;
      while k < |bits|
        invariant 0 <= k <= |bits|
        invariant ScopeBitEnums(pes, bits[..k]).Ok?
        invariant bA.bytes == start + VarInts(ScopeBitEnums(pes, bits[..k]).value)
      {
        var e := docSet.EnumForCategoryValue("scopeBits", bits[k]);
        if e.Err? {
          ScopeBitsFailAt(pes, bits, k);
          assert bA.bytes[..|start|] == start;
          return Fail(e.error);
        }
        ScopeBitsSnoc(pes, bits, k);
        SeqAssoc(start, VarInts(ScopeBitEnums(pes, bits[..k]).value), VarInt(e.value.enum));
        bA.PushNByte(e.value.enum);
        k := k + 1;
      }
      assert bits[..k] == bits;
      assert bA.bytes[..|start|] == start;
      return Pass;
    }

    /** The `switch` on the item type: tokens of a handled subtype, grafts
        and scope boundaries go to their encoders; anything else throws. */
    method PushItem(bA: ByteArray, docSet: DocSet, t: Tables, item: Item) returns (o: Outcome)
      modifies bA
      ensures o.Pass? <==> ItemRecord(docSet.preEnums, t, item).Ok?
      ensures o.Pass? ==> bA.bytes == old(bA.bytes) + ItemRecord(docSet.preEnums, t, item).value
      ensures o.Fail? ==> o.error == ItemRecord(docSet.preEnums, t, item).error
    {
      match item
      case Token(itemType, _) =>
        if itemType in TokenTypes {
          o := PushSuccinctToken(bA, docSet, t, item);
        } else {
          o := Fail(UnhandledItemType(itemType));
        }
      case Graft(_, _) =>
        o := PushSuccinctGraft(bA, docSet, t, item);
      case Scope(_, _) =>
        o := PushSuccinctScope(bA, docSet, t, item);
    }

    /** Appends the records of `xs` in order, stopping at the first that
        throws. */
    method PushItems(bA: ByteArray, docSet: DocSet, t: Tables, xs: seq<Item>) returns (o: Outcome)
      modifies bA
      ensures o.Pass? <==> RecordsOf(docSet.preEnums, t, xs).Ok?
      ensures o.Pass? ==> bA.bytes == old(bA.bytes) + Concat(RecordsOf(docSet.preEnums, t, xs).value)
      ensures o.Fail? ==> o.error == RecordsOf(docSet.preEnums, t, xs).error
    {
      ghost var pes := docSet.preEnums;
      ghost var start := bA.bytes;
      var k := 0;
      while k < |xs|
        invariant 0 <= k <= |xs|
        invariant RecordsOf(pes, t, xs[..k]).Ok?
        invariant bA.bytes == start + Concat(RecordsOf(pes, t, xs[..k]).value)
      {
        ghost var before := bA.bytes;
        var r := PushItem(bA, docSet, t, xs[k]);
        if r.Fail? {
          RecordsFailAt(pes, t, xs, k);
          return r;
        }
        RecordsSnoc(pes, t, xs, k);
        SeqAssoc(start, Concat(RecordsOf(pes, t, xs[..k]).value), ItemRecord(pes, t, xs[k]).value);
        k := k + 1;
      }
      assert xs[..k] == xs;
      return Pass;
    }

    /** `succinctifyBlocks(docSet)`: one packed block per block, in block
        order, or the error of the first item that cannot be encoded. Each
        packed block holds the content records and the block scope's record
        and nothing else: the block grafts are never pushed (see
        `PackBlockAsWritten`). */
    method SuccinctifyBlocks(docSet: DocSet, t: Tables) returns (r: Result<seq<PackedBlock>>)
      ensures r == PackBlocksAsWritten(docSet.preEnums, t, blocks)
    {
      var ret: seq<PackedBlock> := [];
      var k := 0;
      while k < |blocks|
        invariant 0 <= k <= |blocks|
        invariant PackBlocksAsWritten(docSet.preEnums, t, blocks[..k]) == Ok(ret)
      {
        var p := SuccinctifyBlock(docSet, t, blocks[k]);
        if p.Err? {
          CollectFailAt(AsWrittenPacker(docSet.preEnums, t), blocks, k);
          return Err(p.error);
        }
        CollectSnoc(AsWrittenPacker(docSet.preEnums, t), blocks, k);
        ret := ret + [p.value];
        k := k + 1;
      }
      assert blocks[..k] == blocks;
      return Ok(ret);
    }

    /** The body of the loop of `succinctifyBlocks` for one block. */
    method SuccinctifyBlock(docSet: DocSet, t: Tables, block: Block) returns (r: Result<PackedBlock>)
      ensures r == PackBlockAsWritten(docSet.preEnums, t, block)
    {
      var contentBA := new ByteArray();
      var o := PushItems(contentBA, docSet, t, block.items);
      if o.Fail? {
        return Err(o.error);
      }
      var blockScopeBA := new ByteArray();
      o := PushSuccinctScope(blockScopeBA, docSet, t, BlockScope(block));
      if o.Fail? {
        return Err(o.error);
      }
      assert contentBA.bytes == Concat(RecordsOf(docSet.preEnums, t, block.items).value);
      assert blockScopeBA.bytes == ScopeRecord(docSet.preEnums, t, true, block.blockScopeLabel).value;
      return Ok(PackedAsWritten(contentBA.bytes, blockScopeBA.bytes));
    }

    function Items(): seq<Item>
      reads this
      ensures Items() == ItemsOf(blocks)
    {
      ItemsOf(blocks)
    }

    function Grafts(): seq<Item>
      reads this
      ensures Grafts() == Only(IsGraft, Items())
    {
      OnlyOfItems(IsGraft, blocks);
      OnlyOf(IsGraft, blocks)
    }

    function Scopes(): seq<Item>
      reads this
      ensures Scopes() == Only(IsScope, Items())
    {
      OnlyOfItems(IsScope, blocks);
      OnlyOf(IsScope, blocks)
    }
  }

  /** Closing a sequence whose scopes have no hooks adds one end item per
      open scope, in the reverse of their opening order. */
  lemma CloseMirrorsOpening(bs: seq<Block>, scs: seq<ActiveScope>)
    requires forall i :: 0 <= i < |scs| ==> scs[i].onEnd == []
    ensures ItemsOf(AppendItems(bs, CloseItems(Reversed(scs)))) == ItemsOf(bs) + EndItems(Reversed(scs))
    ensures forall k :: 0 <= k < |scs| ==> EndItems(Reversed(scs))[k] == Scope(false, scs[|scs| - 1 - k].scopeLabel)
  {
    var r := Reversed(scs);
    CloseItemsWithoutHooks(r);
    AppendItemsSpec(bs, CloseItems(r));
  }

  // ---------------------------------------------------------------------
  // The record encoder, as values

  /** The header byte `setByte(lengthPos, len | kind << 6)` stores: the
      record length in the low six bits, the kind above them. */
  function Header(len: nat, kind: nat): byte
  {
    ToByte(BitOr(len, kind * 64))
  }

  /** A short record's header gives back its length and its kind. */
  lemma HeaderDecodes(len: nat, kind: nat)
    requires len < 64 && kind < 4
    ensures Header(len, kind) as int % 64 == len
    ensures Header(len, kind) as int / 64 == kind
  {
    Pow2Six();
    BitOrDisjoint(len, kind, 6);
    SmallHeader(len, kind);
  }

  lemma SmallHeader(len: nat, kind: nat)
    requires len < 64 && kind < 4
    ensures ToByte(len + kind * 64) as int % 64 == len
    ensures ToByte(len + kind * 64) as int / 64 == kind
  {
    var x := len + kind * 64;
    assert x % 256 == x;
  }

  lemma Pow2Six()
    ensures Pow2(6) == 64
  {
    assert Pow2(2) == 4;
    assert Pow2(4) == 16;
  }

  /** A record: its header byte, then `body`. */
  function Framed(kind: nat, body: seq<byte>): (r: seq<byte>)
    ensures |r| == |body| + 1 && r[0] == Header(|r|, kind) && r[1..] == body
  {
    [Header(|body| + 1, kind)] + body
  }

  /** The token subtypes `succinctifyBlocks` encodes as token records. */
  const TokenTypes: set<string> :=
    {"wordLike", "punctuation", "lineSpace", "eol", "softLineBreak", "noBreakSpace", "bareSlash", "unknown"}

  /** `pushSuccinctToken`: the type byte of the subtype, then the enum of the
      text in the subtype's category; the lookup fails first. */
  function TokenRecord(pes: PreEnumMap, t: Tables, itemType: string, chars: string): (r: Result<seq<byte>>)
    ensures r.Ok? <==> EnumFor(pes, TokenCategory(t, itemType), chars).Ok?
    ensures r.Err? ==> r.error == EnumFor(pes, TokenCategory(t, itemType), chars).error
  {
    match EnumFor(pes, TokenCategory(t, itemType), chars)
    case Err(e) => Err(e)
    case Ok(entry) => Ok(Framed(t.itemEnum.token, [TableByte(t.tokenEnum, itemType)] + VarInt(entry.enum)))
  }

  /** The `scopeBits` enum of one label component. */
  function ScopeBitEnum(pes: PreEnumMap, bit: string): (r: Result<nat>)
    ensures r.Ok? <==> EnumFor(pes, "scopeBits", bit).Ok?
    ensures r.Ok? ==> r.value == EnumFor(pes, "scopeBits", bit).value.enum
    ensures r.Err? ==> r.error == EnumFor(pes, "scopeBits", bit).error
  {
    match EnumFor(pes, "scopeBits", bit)
    case Err(e) => Err(e)
    case Ok(entry) => Ok(entry.enum)
  }

  /** The `scopeBits` enums of `bits`, or the error of the first one that is
      not recorded. */
  function ScopeBitEnums(pes: PreEnumMap, bits: seq<string>): Result<seq<nat>>
  {
    Collect(ScopeBitLookup(pes), bits)
  }

  function ScopeBitLookup(pes: PreEnumMap): string -> Result<nat>
  {
    (bit: string) => ScopeBitEnum(pes, bit)
  }

  /** One more component found: its enum follows the earlier ones. */
  lemma ScopeBitsSnoc(pes: PreEnumMap, bits: seq<string>, k: nat)
    requires k < |bits| && ScopeBitEnums(pes, bits[..k]).Ok? && EnumFor(pes, "scopeBits", bits[k]).Ok?
    ensures ScopeBitEnums(pes, bits[..k + 1]).Ok?
    ensures VarInts(ScopeBitEnums(pes, bits[..k + 1]).value)
         == VarInts(ScopeBitEnums(pes, bits[..k]).value) + VarInt(EnumFor(pes, "scopeBits", bits[k]).value.enum)
  {
    CollectSnoc(ScopeBitLookup(pes), bits, k);
    var es := ScopeBitEnums(pes, bits[..k]).value;
    var e := EnumFor(pes, "scopeBits", bits[k]).value.enum;
    assert (es + [e])[..|es|] == es;
  }

  /** The first component not recorded decides the error. */
  lemma ScopeBitsFailAt(pes: PreEnumMap, bits: seq<string>, k: nat)
    requires k < |bits| && ScopeBitEnums(pes, bits[..k]).Ok? && EnumFor(pes, "scopeBits", bits[k]).Err?
    ensures ScopeBitEnums(pes, bits) == Err(EnumFor(pes, "scopeBits", bits[k]).error)
  {
    CollectFailAt(ScopeBitLookup(pes), bits, k);
  }

  /** `pushSuccinctScope`: the type byte of the label's first component, then
      the `scopeBits` enum of each later component, in order. */
  function ScopeRecord(pes: PreEnumMap, t: Tables, isStart: bool, scopeLabel: string): (r: Result<seq<byte>>)
    ensures r.Ok? <==> ScopeBitEnums(pes, Split(scopeLabel)[1..]).Ok?
    ensures r.Err? ==> r.error == ScopeBitEnums(pes, Split(scopeLabel)[1..]).error
  {
    var bits := Split(scopeLabel);
    match ScopeBitEnums(pes, bits[1..])
    case Err(e) => Err(e)
    case Ok(es) => Ok(Framed(ScopeKind(t.itemEnum, isStart), [TableByte(t.scopeEnum, bits[0])] + VarInts(es)))
  }

  /** `pushSuccinctGraft`: the enum of the graft type as the type byte, then
      the enum of the target sequence's id; the graft type is looked up first. */
  function GraftRecord(pes: PreEnumMap, t: Tables, graftType: string, seqId: Id): (r: Result<seq<byte>>)
    ensures r.Ok? <==> EnumFor(pes, "graftTypes", graftType).Ok? && EnumFor(pes, "ids", seqId).Ok?
    ensures EnumFor(pes, "graftTypes", graftType).Err? ==> r == Err(EnumFor(pes, "graftTypes", graftType).error)
    ensures EnumFor(pes, "graftTypes", graftType).Ok? && EnumFor(pes, "ids", seqId).Err? ==>
              r == Err(EnumFor(pes, "ids", seqId).error)
  {
    match EnumFor(pes, "graftTypes", graftType)
    case Err(e) => Err(e)
    case Ok(g) =>
      match EnumFor(pes, "ids", seqId)
      case Err(e) => Err(e)
      case Ok(s) => Ok(Framed(t.itemEnum.graft, [ToByte(g.enum)] + VarInt(s.enum)))
  }

  /** The `itemEnum` kind of an item's record. */
  function ItemKind(t: Tables, i: Item): nat
  {
    match i
    case Token(_, _) => t.itemEnum.token
    case Scope(isStart, _) => ScopeKind(t.itemEnum, isStart)
    case Graft(_, _) => t.itemEnum.graft
  }

  /** The `switch` of `succinctifyBlocks`: the record of one item, or the
      error of a subtype it does not handle. */
  function ItemRecord(pes: PreEnumMap, t: Tables, i: Item): (r: Result<seq<byte>>)
    ensures i.Token? && i.itemType !in TokenTypes ==> r == Err(UnhandledItemType(i.itemType))
    ensures r.Ok? ==> |r.value| >= 2 && r.value[0] == Header(|r.value|, ItemKind(t, i))
  {
    match i
    case Token(itemType, chars) =>
      if itemType in TokenTypes then TokenRecord(pes, t, itemType, chars) else Err(UnhandledItemType(itemType))
    case Scope(isStart, scopeLabel) => ScopeRecord(pes, t, isStart, scopeLabel)
    case Graft(graftType, seqId) => GraftRecord(pes, t, graftType, seqId)
  }

  /** The records of `xs`, one per item in order, or the error of the first
      item that cannot be encoded. */
  function RecordsOf(pes: PreEnumMap, t: Tables, xs: seq<Item>): Result<seq<seq<byte>>>
  {
    Collect(ItemEncoder(pes, t), xs)
  }

  function ItemEncoder(pes: PreEnumMap, t: Tables): Item -> Result<seq<byte>>
  {
    (i: Item) => ItemRecord(pes, t, i)
  }

  /** The records one after the other, as a byte buffer holds them. */
  function Concat(rs: seq<seq<byte>>): (r: seq<byte>)
  {
    if rs == [] then [] else Concat(rs[..|rs| - 1]) + rs[|rs| - 1]
  }

  lemma {:induction false} ConcatCons(x: seq<byte>, rs: seq<seq<byte>>)
    ensures Concat([x] + rs) == x + Concat(rs)
    decreases |rs|
  {
    if rs == [] {
      assert [x] + rs == [x];
      assert Concat([x]) == Concat([]) + x;
    } else {
      var init := rs[..|rs| - 1];
      assert ([x] + rs)[..|[x] + rs| - 1] == [x] + init;
      assert ([x] + rs)[|[x] + rs| - 1] == rs[|rs| - 1];
      ConcatCons(x, init);
      SeqAssoc(x, Concat(init), rs[|rs| - 1]);
    }
  }

  lemma ConcatSnoc(rs: seq<seq<byte>>, x: seq<byte>)
    ensures Concat(rs + [x]) == Concat(rs) + x
  {
    assert (rs + [x])[..|rs + [x]| - 1] == rs;
  }

  /** One more item encoded: its record follows the earlier ones. */
  lemma RecordsSnoc(pes: PreEnumMap, t: Tables, xs: seq<Item>, k: nat)
    requires k < |xs| && RecordsOf(pes, t, xs[..k]).Ok? && ItemRecord(pes, t, xs[k]).Ok?
    ensures RecordsOf(pes, t, xs[..k + 1]).Ok?
    ensures Concat(RecordsOf(pes, t, xs[..k + 1]).value)
         == Concat(RecordsOf(pes, t, xs[..k]).value) + ItemRecord(pes, t, xs[k]).value
  {
    CollectSnoc(ItemEncoder(pes, t), xs, k);
    ConcatSnoc(RecordsOf(pes, t, xs[..k]).value, ItemRecord(pes, t, xs[k]).value);
  }

  /** An item that cannot be encoded after items that can: its error is the
      error of the whole list. */
  lemma RecordsFailAt(pes: PreEnumMap, t: Tables, xs: seq<Item>, k: nat)
    requires k < |xs| && RecordsOf(pes, t, xs[..k]).Ok? && ItemRecord(pes, t, xs[k]).Err?
    ensures RecordsOf(pes, t, xs) == Err(ItemRecord(pes, t, xs[k]).error)
  {
    CollectFailAt(ItemEncoder(pes, t), xs, k);
  }

  // ---------------------------------------------------------------------
  // Reading records back

  /** What a reader finds in one record: its kind, its type byte and the
      variable-length values after it. */
  datatype RecordView = RecordView(kind: nat, typeByte: byte, indices: seq<nat>)

  /** Decodes a whole record: the header must give its length. */
  function DecodeRecord(rec: seq<byte>): Option<RecordView>
  {
    if |rec| < 2 || rec[0] as int % 64 != |rec| then None
    else
      match ReadVarInts(rec[2..])
      case None => None
      case Some(vs) => Some(RecordView(rec[0] as int / 64, rec[1], vs))
  }

  /** A record shorter than 64 bytes with a kind below 4 reads back as what
      was written. */
  lemma FramedDecodes(kind: nat, typeByte: byte, vs: seq<nat>)
    requires kind < 4 && 2 + |VarInts(vs)| < 64
    ensures DecodeRecord(Framed(kind, [typeByte] + VarInts(vs))) == Some(RecordView(kind, typeByte, vs))
  {
    var rec := Framed(kind, [typeByte] + VarInts(vs));
    HeaderDecodes(|rec|, kind);
    assert rec[2..] == VarInts(vs);
    ReadVarIntsOfVarInts(vs);
  }

  lemma VarIntsOne(v: nat)
    ensures VarInts([v]) == VarInt(v)
  {
    assert [v][..0] == [];
  }

  /** Every item kind fits the two top bits of a header. */
  predicate KindsFit(e: ItemEnum)
  {
    e.token < 4 && e.startScope < 4 && e.endScope < 4 && e.graft < 4
  }

  /** What an encoded item reads back as, record kind by record kind. */
  lemma ItemRecordDecodes(pes: PreEnumMap, t: Tables, i: Item)
    requires KindsFit(t.itemEnum)
    requires ItemRecord(pes, t, i).Ok? && |ItemRecord(pes, t, i).value| < 64
    ensures i.Token? ==> (DecodeRecord(ItemRecord(pes, t, i).value) ==
              Some(RecordView(t.itemEnum.token, TableByte(t.tokenEnum, i.itemType),
                              [EnumFor(pes, TokenCategory(t, i.itemType), i.chars).value.enum])))
    ensures i.Scope? ==> (DecodeRecord(ItemRecord(pes, t, i).value) ==
              Some(RecordView(ScopeKind(t.itemEnum, i.isStart), TableByte(t.scopeEnum, Split(i.scopeLabel)[0]),
                              ScopeBitEnums(pes, Split(i.scopeLabel)[1..]).value)))
    ensures i.Graft? ==> (DecodeRecord(ItemRecord(pes, t, i).value) ==
              Some(RecordView(t.itemEnum.graft, ToByte(EnumFor(pes, "graftTypes", i.graftType).value.enum),
                              [EnumFor(pes, "ids", i.seqId).value.enum])))
  {
    match i
    case Token(itemType, chars) =>
      var e := EnumFor(pes, TokenCategory(t, itemType), chars).value.enum;
      VarIntsOne(e);
      FramedDecodes(t.itemEnum.token, TableByte(t.tokenEnum, itemType), [e]);
    case Scope(isStart, scopeLabel) =>
      var bits := Split(scopeLabel);
      FramedDecodes(ScopeKind(t.itemEnum, isStart), TableByte(t.scopeEnum, bits[0]), ScopeBitEnums(pes, bits[1..]).value);
    case Graft(graftType, seqId) =>
      var s := EnumFor(pes, "ids", seqId).value.enum;
      VarIntsOne(s);
      FramedDecodes(t.itemEnum.graft, ToByte(EnumFor(pes, "graftTypes", graftType).value.enum), [s]);
  }

  /** Splits a buffer into records, each as long as its header says. */
  function Walk(bs: seq<byte>): Option<seq<seq<byte>>>
    decreases |bs|
  {
    if bs == [] then Some([])
    else
      var n := bs[0] as int % 64;
      if n == 0 || n > |bs| then None
      else
        match Walk(bs[n..])
        case None => None
        case Some(rs) => Some([bs[..n]] + rs)
  }

  /** Records whose headers give their lengths are split apart again. */
  lemma {:induction false} WalkConcat(rs: seq<seq<byte>>)
    requires forall i :: 0 <= i < |rs| ==> |rs[i]| >= 1 && rs[i][0] as int % 64 == |rs[i]|
    ensures Walk(Concat(rs)) == Some(rs)
    decreases |rs|
  {
    if rs != [] {
      var rest := rs[1..];
      assert [rs[0]] + rest == rs;
      ConcatCons(rs[0], rest);
      var bs := Concat(rs);
      assert bs == rs[0] + Concat(rest);
      assert bs[..|rs[0]|] == rs[0] && bs[|rs[0]|..] == Concat(rest);
      WalkConcat(rest);
    }
  }

  /** The content stream of a block splits back into one record per item,
      each decoding as `ItemRecordDecodes` says. */
  lemma ContentWalks(pes: PreEnumMap, t: Tables, xs: seq<Item>)
    requires KindsFit(t.itemEnum)
    requires RecordsOf(pes, t, xs).Ok?
    requires forall i :: 0 <= i < |xs| ==> |ItemRecord(pes, t, xs[i]).value| < 64
    ensures Walk(Concat(RecordsOf(pes, t, xs).value)) == Some(RecordsOf(pes, t, xs).value)
  {
    var rs := RecordsOf(pes, t, xs).value;
    forall i | 0 <= i < |rs|
      ensures |rs[i]| >= 1 && rs[i][0] as int % 64 == |rs[i]|
    {
      HeaderDecodes(|rs[i]|, ItemKind(t, xs[i]));
    }
    WalkConcat(rs);
  }

  // ---------------------------------------------------------------------
  // Packed blocks

  /** A succinct block: named byte streams. */
  datatype PackedBlock = PackedBlock(streams: map<string, seq<byte>>)

  /** The object `succinctifyBlocks` pushes as written: content and block
      scope only. */
  function PackedAsWritten(c: seq<byte>, bs: seq<byte>): PackedBlock
  {
    PackedBlock(map["c" := c, "bs" := bs])
  }

  /** The object with the block grafts' stream as well, as its readers expect. */
  function Packed(c: seq<byte>, bs: seq<byte>, bg: seq<byte>): PackedBlock
  {
    PackedBlock(map["c" := c, "bs" := bs, "bg" := bg])
  }

  /** One block as `succinctifyBlocks` is written: its items' records, then
      the record of its block scope. */
  function PackBlockAsWritten(pes: PreEnumMap, t: Tables, b: Block): (r: Result<PackedBlock>)
    ensures r.Ok? <==> RecordsOf(pes, t, b.items).Ok? && ScopeRecord(pes, t, true, b.blockScopeLabel).Ok?
    ensures r.Ok? ==> r.value.streams.Keys == {"c", "bs"}
  {
    match RecordsOf(pes, t, b.items)
    case Err(e) => Err(e)
    case Ok(rs) =>
      match ScopeRecord(pes, t, true, b.blockScopeLabel)
      case Err(e) => Err(e)
      case Ok(s) => Ok(PackedAsWritten(Concat(rs), s))
  }

  /** One block with the stream its readers expect added: the records of
      its block grafts. */
  function PackBlock(pes: PreEnumMap, t: Tables, b: Block): (r: Result<PackedBlock>)
    ensures r.Ok? <==> RecordsOf(pes, t, b.items).Ok? && ScopeRecord(pes, t, true, b.blockScopeLabel).Ok? &&
                       RecordsOf(pes, t, b.blockGrafts).Ok?
    ensures r.Ok? ==> r.value.streams.Keys == {"c", "bs", "bg"}
    ensures r.Ok? ==> r.value.streams["c"] == Concat(RecordsOf(pes, t, b.items).value)
    ensures r.Ok? ==> r.value.streams["bs"] == ScopeRecord(pes, t, true, b.blockScopeLabel).value
    ensures r.Ok? ==> r.value.streams["bg"] == Concat(RecordsOf(pes, t, b.blockGrafts).value)
    ensures r.Ok? ==> forall k :: k in PackBlockAsWritten(pes, t, b).value.streams ==>
                        r.value.streams[k] == PackBlockAsWritten(pes, t, b).value.streams[k]
  {
    match RecordsOf(pes, t, b.items)
    case Err(e) => Err(e)
    case Ok(rs) =>
      match ScopeRecord(pes, t, true, b.blockScopeLabel)
      case Err(e) => Err(e)
      case Ok(s) =>
        match RecordsOf(pes, t, b.blockGrafts)
        case Err(e) => Err(e)
        case Ok(gs) => Ok(Packed(Concat(rs), s, Concat(gs)))
  }

  /** The packed blocks, one per block in block order, or the error of the
      first block that cannot be packed. */
  function PackBlocks(pes: PreEnumMap, t: Tables, bs: seq<Block>): Result<seq<PackedBlock>>
  {
    Collect(BlockPacker(pes, t), bs)
  }

  function BlockPacker(pes: PreEnumMap, t: Tables): Block -> Result<PackedBlock>
  {
    (b: Block) => PackBlock(pes, t, b)
  }

  /** The packed blocks as `succinctifyBlocks` is written, one per block in
      block order, or the error of the first block that cannot be packed. */
  function PackBlocksAsWritten(pes: PreEnumMap, t: Tables, bs: seq<Block>): Result<seq<PackedBlock>>
  {
    Collect(AsWrittenPacker(pes, t), bs)
  }

  function AsWrittenPacker(pes: PreEnumMap, t: Tables): Block -> Result<PackedBlock>
  {
    (b: Block) => PackBlockAsWritten(pes, t, b)
  }

  /** A block that packs with its grafts' stream packs as written too. */
  lemma PackedPacksAsWritten(pes: PreEnumMap, t: Tables, bs: seq<Block>)
    requires PackBlocks(pes, t, bs).Ok?
    ensures PackBlocksAsWritten(pes, t, bs).Ok?
    ensures |PackBlocksAsWritten(pes, t, bs).value| == |bs|
  {
    forall i | 0 <= i < |bs| ensures AsWrittenPacker(pes, t)(bs[i]).Ok? {
      assert BlockPacker(pes, t)(bs[i]).Ok?;
    }
  }

  /** The placeholder, the type byte and the rest of a record, pushed one
      after the other. */
  lemma Pushed(pre: seq<byte>, b: byte, rest: seq<byte>)
    ensures ((pre + [0]) + [b]) + rest == pre + ([0] + ([b] + rest))
    ensures (pre + [0]) + [b] == pre + [0, b]
  {
    SeqAssoc(pre + [0], [b], rest);
    SeqAssoc(pre, [0], [b] + rest);
  }

  /** Overwriting the placeholder of a record just pushed. */
  lemma PatchHeader(pre: seq<byte>, body: seq<byte>, h: byte)
    ensures (pre + ([0] + body))[|pre| := h] == pre + ([h] + body)
  {
  }
}
