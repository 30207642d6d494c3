/** The values the parser produces: items, blocks, the scopes still open on a
    sequence, and the lexemes it consumes. The classes `Token`, `Scope` and
    `Block` (processor/classes/items.js and block.js) are not part of this
    model; they are represented by the fields the core reads. */
module Items {
  import opened Ids

  datatype Item =
    /** A token: its subtype (`itemType`: "wordLike", "punctuation", ...) and its text. */
    | Token(itemType: string, chars: string)
    /** A scope boundary: start or end, and its `/`-separated label. */
    | Scope(isStart: bool, scopeLabel: string)
    /** A link to another sequence. */
    | Graft(graftType: string, seqId: Id)

  /** The `itemType` string the encoder switches on. */
  function ItemType(i: Item): string
  {
    match i
    case Token(t, _) => t
    case Scope(s, _) => if s then "startScope" else "endScope"
    case Graft(_, _) => "graft"
  }

  /** `new Scope(sOrE, label)`: "start" opens a scope; "end" and the
      parser's "close" both end one. */
  function ScopeItem(sOrE: string, scopeLabel: string): Item
  {
    Scope(sOrE == "start", scopeLabel)
  }

  /** A block: the label of its block-level scope, its content items and its
      block-level grafts. */
  datatype Block = Block(blockScopeLabel: string, items: seq<Item>, blockGrafts: seq<Item>)

  /** `block.blockScope`: the start scope of the block's label. */
  function BlockScope(b: Block): Item
  {
    Scope(true, b.blockScopeLabel)
  }

  /** `new Block(label)`: no items yet; its block scope starts `label`. */
  function EmptyBlock(scopeLabel: string): Block
  {
    Block(scopeLabel, [], [])
  }

  /** A scope still open on a sequence: its label, the trigger labels that end
      it, and the items its `onEnd` hook adds when it is closed (none when it
      has no hook). */
  datatype ActiveScope = ActiveScope(scopeLabel: string, endedBy: seq<string>, onEnd: seq<Item>)

  /** A classified lexeme: its subclass, its full tag name, its text, and the
      other named fields a rule may test (`item[accessor]`). */
  datatype Lexeme = Lexeme(subclass: string, fullTagName: string, chars: string, fields: map<string, string>)

  /** `new Token(pt)`: a token of the lexeme's subclass carrying its text. */
  function TokenOf(pt: Lexeme): Item
  {
    Token(pt.subclass, pt.chars)
  }
}
