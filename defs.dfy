/** The definition tables the encoder and the pre-pass consult
    (scope_defs, token_defs and item_defs, which are not part of this model):
    they are given values here, not fixed constants. */
module Defs {
  import opened ByteArrays

  /** `itemEnum`: the record kind stored in the top two bits of a header byte. */
  datatype ItemEnum = ItemEnum(token: nat, startScope: nat, endScope: nat, graft: nat)

  datatype Tables = Tables(
    /** `scopeEnum`: first label component to its type byte. */
    scopeEnum: map<string, int>,
    /** `nComponentsForScope`: first label component to the number of components its labels have. */
    nComponentsForScope: map<string, nat>,
    /** `tokenEnum`: token subtype to its type byte. */
    tokenEnum: map<string, int>,
    /** `tokenCategory`: token subtype to the enum category of its text. */
    tokenCategory: map<string, string>,
    itemEnum: ItemEnum)

  /** `table[key]` pushed as a byte: a missing entry reads as undefined,
      which a byte store turns into 0. */
  function TableByte(table: map<string, int>, key: string): byte
  {
    if key in table then ToByte(table[key]) else 0
  }

  /** `tokenCategory[itemType]`: a subtype without a category reads as
      undefined, which names no category ("undefined" as a key). */
  function TokenCategory(t: Tables, itemType: string): string
  {
    if itemType in t.tokenCategory then t.tokenCategory[itemType] else "undefined"
  }

  /** `itemEnum[item.itemType]` for a scope boundary. */
  function ScopeKind(e: ItemEnum, isStart: bool): nat
  {
    if isStart then e.startScope else e.endScope
  }
}
