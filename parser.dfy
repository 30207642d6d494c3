/** The first pass of the parser (processor/classes/parser.js): a table of
    rules picks, for each lexeme, what to do with the current sequence; the
    parser keeps the sequences of every type, the current one, and on each
    sequence the stack of scopes still open. The rule table (parser_specs)
    and its hooks are parameters. */
module Parsers {
  import opened Wrappers
  import opened Ids
  import opened Labels
  import opened Items
  import opened Sequences

  // ---------------------------------------------------------------------
  // Rules

  /** One `[subclass, accessor, values]` context of a rule; an empty
      accessor (falsy in the source) means any lexeme of the subclass. */
  datatype Context = Context(subclass: string, accessor: string, values: seq<string>)

  /** A scope that a rule opens: its label computed from the lexeme, the
      trigger labels that end it, and its optional `onEnd` hook, which gives
      the items it adds to the current sequence when the scope closes. */
  datatype ScopeSpec = ScopeSpec(labelFor: Lexeme -> string, endedBy: seq<string>, onEnd: Option<string -> seq<Item>>)

  /** The `parser` part of a rule. A hook (`before`, `during`, `after`) is
      given by the items it adds to the current sequence; an empty
      `baseSequenceType` is the falsy one; `newBlock` is the presence of
      that key. */
  datatype ParserAction = ParserAction(
    before: Option<Lexeme -> seq<Item>>,
    baseSequenceType: string,
    forceNewSequence: bool,
    useTempSequence: bool,
    newBlock: bool,
    during: Option<Lexeme -> seq<Item>>,
    newScopes: Option<seq<ScopeSpec>>,
    after: Option<Lexeme -> seq<Item>>)

  datatype ParserSpec = ParserSpec(contexts: seq<Context>, parser: ParserAction)

  /** `item[accessor]`: a named field of the lexeme, if it has one. */
  function Field(pt: Lexeme, accessor: string): Option<string>
  {
    if accessor == "subclass" then Some(pt.subclass)
    else if accessor == "fullTagName" then Some(pt.fullTagName)
    else if accessor == "chars" then Some(pt.chars)
    else if accessor in pt.fields then Some(pt.fields[accessor])
    else None
  }

  predicate ContextMatches(c: Context, pt: Lexeme)
  {
    pt.subclass == c.subclass &&
    (c.accessor == "" || (Field(pt, c.accessor).Some? && Field(pt, c.accessor).value in c.values))
  }

  /** A rule matches when one of its contexts does. */
  predicate Matches(spec: ParserSpec, pt: Lexeme)
  {
    exists i :: 0 <= i < |spec.contexts| && ContextMatches(spec.contexts[i], pt)
  }

  /** The first matching rule at or after `k`, by position. */
  function FirstMatchFrom(specs: seq<ParserSpec>, pt: Lexeme, k: nat): (r: Option<nat>)
    ensures r.Some? ==> k <= r.value < |specs| && Matches(specs[r.value], pt)
    ensures r.Some? ==> forall j :: k <= j < r.value ==> !Matches(specs[j], pt)
    ensures r.None? ==> forall j :: k <= j < |specs| ==> !Matches(specs[j], pt)
    decreases |specs| - k
  {
    if k >= |specs| then None
    else if Matches(specs[k], pt) then Some(k)
    else FirstMatchFrom(specs, pt, k + 1)
  }

  function FirstMatch(specs: seq<ParserSpec>, pt: Lexeme): Option<nat>
  {
    FirstMatchFrom(specs, pt, 0)
  }

  /** The first match is the one that matches with no match before it. */
  lemma FirstMatchIs(specs: seq<ParserSpec>, pt: Lexeme, k: nat)
    requires k < |specs| && Matches(specs[k], pt)
    requires forall j :: 0 <= j < k ==> !Matches(specs[j], pt)
    ensures FirstMatch(specs, pt) == Some(k)
  {
  }

  /** The rule `specForItem` picks: the first match, or none. */
  function SpecFor(specs: seq<ParserSpec>, pt: Lexeme): Option<ParserSpec>
  {
    match FirstMatch(specs, pt)
    case None => None
    case Some(k) => Some(specs[k])
  }

  /** The scope `openNewScope(pt, sc)` pushes. */
  function Opened(sc: ScopeSpec, pt: Lexeme): (r: ActiveScope)
    ensures r.scopeLabel == sc.labelFor(pt) && r.endedBy == sc.endedBy
    ensures sc.onEnd.None? ==> r.onEnd == []
  {
    var l := sc.labelFor(pt);
    ActiveScope(l, sc.endedBy, if sc.onEnd.Some? then sc.onEnd.value(l) else [])
  }

  function OpenedAll(scs: seq<ScopeSpec>, pt: Lexeme): (r: seq<ActiveScope>)
    ensures |r| == |scs| && forall i :: 0 <= i < |scs| ==> r[i] == Opened(scs[i], pt)
  {
    seq(|scs|, i requires 0 <= i < |scs| => Opened(scs[i], pt))
  }

  /** The label of the block a `newBlock` rule starts. */
  function BlockLabel(pt: Lexeme): (l: string)
    ensures l == "block/" + pt.fullTagName && l != ""
  {
    LabelForScope("blockTag", [pt.fullTagName]).value
  }

  /** The scope a `newBlock` rule opens for the block, ended by "endBlock". */
  const BlockScopeSpec: ScopeSpec := ScopeSpec(BlockLabel, ["endBlock"], None)

  /** The items a hook adds, none when the rule has no such hook. */
  function HookItems(h: Option<Lexeme -> seq<Item>>, pt: Lexeme): seq<Item>
  {
    if h.Some? then h.value(pt) else []
  }

  /** `changeSequence`: the rule names a base sequence type, and it differs
      from the current one or a new sequence is forced. */
  predicate ChangesSequence(p: ParserAction, currentBase: string)
  {
    p.baseSequenceType != "" && (p.baseSequenceType != currentBase || p.forceNewSequence)
  }

  // ---------------------------------------------------------------------
  // Filtering the scope stack

  predicate EndedBy(sc: ActiveScope, closeLabel: string)
  {
    closeLabel in sc.endedBy
  }

  /** The open scopes a trigger label ends, in stack order. */
  function Matched(scs: seq<ActiveScope>, closeLabel: string): (r: seq<ActiveScope>)
    ensures forall i :: 0 <= i < |r| ==> EndedBy(r[i], closeLabel)
    ensures |r| <= |scs|
  {
    if scs == [] then []
    else Matched(scs[..|scs| - 1], closeLabel) + (if EndedBy(scs[|scs| - 1], closeLabel) then [scs[|scs| - 1]] else [])
  }

  /** The open scopes it leaves open, in stack order. */
  function Unmatched(scs: seq<ActiveScope>, closeLabel: string): (r: seq<ActiveScope>)
    ensures forall i :: 0 <= i < |r| ==> !EndedBy(r[i], closeLabel)
    ensures |r| <= |scs|
  {
    if scs == [] then []
    else Unmatched(scs[..|scs| - 1], closeLabel) + (if EndedBy(scs[|scs| - 1], closeLabel) then [] else [scs[|scs| - 1]])
  }

  /** Every open scope is either closed or kept, exactly once. */
  lemma {:induction false} FilterPartition(scs: seq<ActiveScope>, closeLabel: string)
    ensures multiset(Matched(scs, closeLabel)) + multiset(Unmatched(scs, closeLabel)) == multiset(scs)
  {
    if scs != [] {
      var init := scs[..|scs| - 1];
      FilterPartition(init, closeLabel);
      assert scs == init + [scs[|scs| - 1]];
    }
  }

  /** The scopes kept are the unmatched ones in their original order: they
      sit at increasing positions of the old stack, and every unmatched
      scope of the old stack is among them. */
  lemma {:induction false} UnmatchedKeepsOrder(scs: seq<ActiveScope>, closeLabel: string) returns (idx: seq<nat>)
    ensures |idx| == |Unmatched(scs, closeLabel)|
    ensures forall k :: 0 <= k < |idx| ==> idx[k] < |scs| && Unmatched(scs, closeLabel)[k] == scs[idx[k]]
    ensures forall a, b :: 0 <= a < b < |idx| ==> idx[a] < idx[b]
    ensures forall i :: 0 <= i < |scs| && !EndedBy(scs[i], closeLabel) ==> i in idx
  {
    if scs == [] {
      idx := [];
    } else {
      var n := |scs| - 1;
      var init := scs[..n];
      var pre := UnmatchedKeepsOrder(init, closeLabel);
      if EndedBy(scs[n], closeLabel) {
        idx := pre;
      } else {
        idx := pre + [n];
      }
    }
  }

  /** With no scope ended by the label, nothing is closed and the stack is
      kept whole. */
  lemma {:induction false} NoneEnded(scs: seq<ActiveScope>, closeLabel: string)
    requires forall i :: 0 <= i < |scs| ==> !EndedBy(scs[i], closeLabel)
    ensures Matched(scs, closeLabel) == [] && Unmatched(scs, closeLabel) == scs
  {
    if scs != [] {
      NoneEnded(scs[..|scs| - 1], closeLabel);
      assert scs[..|scs| - 1] + [scs[|scs| - 1]] == scs;
    }
  }

  // ---------------------------------------------------------------------
  // Sequence types and their slots

  /** A sequence type and its arity: "1" one instance from the start, "?"
      made on first use, "*" a fresh instance each time. */
  type SequenceType = (string, string)

  const BaseSequenceTypes: seq<SequenceType> := [
    ("main", "1"), ("intro", "*"), ("title", "?"), ("endTitle", "?"),
    ("heading", "*"), ("header", "*"), ("remark", "*"), ("footnote", "*")]

  const InlineSequenceTypes: seq<SequenceType> := [("xref", "*"), ("temp", "?")]

  /** What `sequences[type]` holds: a sequence, null, or a list. */
  datatype Slot = One(sequence: Sequence) | Null | Many(list: seq<Sequence>)

  /** The list of a "*" slot. */
  function ListOf(slot: Slot): seq<Sequence>
  {
    if slot.Many? then slot.list else []
  }

  ghost function SlotSeqs(slot: Slot): set<Sequence>
  {
    match slot
    case One(s) => {s}
    case Null => {}
    case Many(ss) => set s | s in ss
  }

  /** The slot shape an arity calls for; other arities call for nothing. */
  predicate SlotFits(arity: string, slot: Slot)
  {
    (arity == "1" ==> slot.One?) && (arity == "?" ==> slot.One? || slot.Null?) && (arity == "*" ==> slot.Many?)
  }

  /** The slot `setSequences` makes for an arity: a new sequence, null, or
      an empty list. */
  predicate FreshSlot(arity: string, slot: Slot)
  {
    (arity == "1" ==> slot.One?) && (arity == "?" ==> slot == Null) && (arity == "*" ==> slot == Many([]))
  }

  predicate SlotsFresh(types: seq<SequenceType>, sequences: map<string, Slot>)
  {
    forall i :: 0 <= i < |types| ==> types[i].0 in sequences && FreshSlot(types[i].1, sequences[types[i].0])
  }

  lemma FreshSlotsFit(types: seq<SequenceType>, sequences: map<string, Slot>)
    requires SlotsFresh(types, sequences)
    ensures SlotsFit(types, sequences)
  {
  }

  predicate KnownArity(arity: string)
  {
    arity == "1" || arity == "?" || arity == "*"
  }

  function Names(types: seq<SequenceType>): set<string>
  {
    set i | 0 <= i < |types| :: types[i].0
  }

  predicate NamesDistinct(types: seq<SequenceType>)
  {
    forall i, j :: 0 <= i < j < |types| ==> types[i].0 != types[j].0
  }

  /** Every type has a slot of the shape its arity calls for. */
  predicate SlotsFit(types: seq<SequenceType>, sequences: map<string, Slot>)
  {
    forall i :: 0 <= i < |types| ==> types[i].0 in sequences && SlotFits(types[i].1, sequences[types[i].0])
  }

  /** `types[name]`: the arity listed for a name, if any. */
  function Lookup(types: seq<SequenceType>, name: string): (r: Option<string>)
    ensures r.Some? <==> name in Names(types)
    ensures r.Some? ==> exists i :: 0 <= i < |types| && types[i] == (name, r.value)
  {
    if types == [] then None
    else if types[0].0 == name then Some(types[0].1)
    else
      var r := Lookup(types[1..], name);
      assert forall i :: 0 <= i < |types| - 1 ==> types[1..][i] == types[i + 1];
      assert Names(types) == {types[0].0} + Names(types[1..]);
      r
  }

  /** The arity as the error message renders it: "undefined" when missing. */
  function ArityText(arity: Option<string>): string
  {
    if arity.Some? then arity.value else "undefined"
  }

  /** The standard sequence types have distinct names. */
  lemma StandardTypesDistinct()
    ensures NamesDistinct(BaseSequenceTypes + InlineSequenceTypes)
  {
    var all := BaseSequenceTypes + InlineSequenceTypes;
    assert forall i :: 0 <= i < |all| ==> |all[i].0| >= 1;
    forall i, j | 0 <= i < j < |all|
      ensures all[i].0 != all[j].0
    {
      assert all[i].0[0] != all[j].0[0] || |all[i].0| != |all[j].0| || all[i].0 != all[j].0;
    }
  }

  /** The slots `setSequences` makes for `types` (the entries of an object,
      so with distinct names), in table order, with fresh empty sequences
      drawing ids from `firstId` on; an unknown arity throws. */
  method MakeSequences(types: seq<SequenceType>, firstId: nat)
    returns (r: Result<map<string, Slot>>, nextId: nat, ghost made: set<Sequence>)
    requires NamesDistinct(types)
    ensures r.Ok? <==> forall i :: 0 <= i < |types| ==> KnownArity(types[i].1)
    ensures r.Err? ==> exists i :: 0 <= i < |types| && !KnownArity(types[i].1) &&
                         r.error == UnexpectedSequenceArity(types[i].1, types[i].0)
    ensures r.Ok? ==> r.value.Keys == Names(types) && SlotsFresh(types, r.value)
    ensures r.Ok? ==> forall k :: k in r.value ==> SlotSeqs(r.value[k]) <= made
    ensures r.Ok? ==> forall k :: k in r.value && r.value[k].One? ==> r.value[k].sequence.seqType == k
    ensures forall s :: s in made ==> s.blocks == [] && s.activeScopes == []
    ensures fresh(made) && nextId >= firstId
  {
    var slots: map<string, Slot> := map[];
    nextId := firstId;
    made := {};
    var k := 0;
    while k < |types|
      invariant 0 <= k <= |types| && nextId >= firstId && fresh(made)
      invariant forall i :: 0 <= i < k ==> KnownArity(types[i].1)
      invariant slots.Keys == Names(types[..k])
      invariant forall s :: s in made ==> s.blocks == [] && s.activeScopes == []
      invariant forall j :: j in slots ==> SlotSeqs(slots[j]) <= made
      invariant forall j :: j in slots && slots[j].One? ==> slots[j].sequence.seqType == j
      invariant SlotsFresh(types[..k], slots)
    {
      var (sType, sArity) := types[k];
      assert Names(types[..k + 1]) == Names(types[..k]) + {sType} by {
        assert forall i :: 0 <= i < k ==> types[..k + 1][i] == types[..k][i];
      }
      var slot: Slot;
      if sArity == "1" {
        var s := new Sequence(IdOf(nextId), sType);
        nextId := nextId + 1;
        made := made + {s};
        slot := One(s);
      } else if sArity == "?" {
        slot := Null;
      } else if sArity == "*" {
        slot := Many([]);
      } else {
        return Err(UnexpectedSequenceArity(sArity, sType)), nextId, made;
      }
      SlotsFitStep(types, k, slots, slot);
      slots := slots[sType := slot];
      k := k + 1;
    }
    assert types[..k] == types;
    r := Ok(slots);
  }

  /** A slot for the next type keeps the slots of the earlier, differently
      named types as they were. */
  lemma SlotsFitStep(types: seq<SequenceType>, k: nat, slots: map<string, Slot>, slot: Slot)
    requires k < |types| && NamesDistinct(types)
    requires SlotsFresh(types[..k], slots) && FreshSlot(types[k].1, slot)
    ensures SlotsFresh(types[..k + 1], slots[types[k].0 := slot])
  {
    var ts := types[..k + 1];
    forall i | 0 <= i < k + 1
      ensures ts[i].0 in slots[types[k].0 := slot] && FreshSlot(ts[i].1, slots[types[k].0 := slot][ts[i].0])
    {
      if i < k {
        assert ts[i] == types[..k][i];
      }
    }
  }

  /** The sequences `allSequences` lists for `types`: the sequence of a
      "1" or "?" type when there is one, every sequence of a "*" type's
      list; an unknown arity throws. */
  function SequencesOf(types: seq<SequenceType>, sequences: map<string, Slot>): (r: Result<seq<Sequence>>)
    requires SlotsFit(types, sequences)
    ensures r.Ok? <==> forall i :: 0 <= i < |types| ==> KnownArity(types[i].1)
    ensures r.Ok? ==> forall i, s :: 0 <= i < |types| && s in SlotSeqs(sequences[types[i].0]) ==> s in r.value
  {
    if types == [] then Ok([])
    else
      var init := types[..|types| - 1];
      var (name, arity) := types[|types| - 1];
      assert SlotsFit(init, sequences) by {
        assert forall i :: 0 <= i < |init| ==> init[i] == types[i];
      }
      match SequencesOf(init, sequences)
      case Err(e) => Err(e)
      case Ok(ss) =>
        if arity == "1" || arity == "?" then
          Ok(ss + (if sequences[name].One? then [sequences[name].sequence] else []))
        else if arity == "*" then
          Ok(ss + sequences[name].list)
        else Err(UnexpectedSequenceArity(arity, name))
  }

  /** Giving the slot of one type another slot of the shape its arity
      calls for keeps every slot fitting. */
  lemma SlotsFitUpdate(types: seq<SequenceType>, i: nat, sequences: map<string, Slot>, slot: Slot)
    requires i < |types| && NamesDistinct(types)
    requires SlotsFit(types, sequences) && SlotFits(types[i].1, slot)
    ensures SlotsFit(types, sequences[types[i].0 := slot])
  {
  }

  lemma NamesConcat(a: seq<SequenceType>, b: seq<SequenceType>)
    ensures Names(a + b) == Names(a) + Names(b)
  {
    var ab := a + b;
    forall n | n in Names(a) + Names(b)
      ensures n in Names(ab)
    {
      if n in Names(a) {
        var i :| 0 <= i < |a| && a[i].0 == n;
        assert ab[i].0 == n;
      } else {
        var i :| 0 <= i < |b| && b[i].0 == n;
        assert ab[|a| + i].0 == n;
      }
    }
  }

  lemma SlotsFitPrefix(types: seq<SequenceType>, sequences: map<string, Slot>, k: nat)
    requires k <= |types| && SlotsFit(types, sequences)
    ensures SlotsFit(types[..k], sequences)
  {
    assert forall i :: 0 <= i < k ==> types[..k][i] == types[i];
  }

  lemma OpenedSnoc(scs: seq<ScopeSpec>, pt: Lexeme, i: nat)
    requires i < |scs|
    ensures OpenedAll(scs[..i + 1], pt) == OpenedAll(scs[..i], pt) + [Opened(scs[i], pt)]
  {
  }

  // ---------------------------------------------------------------------
  // The effect of a rule that keeps the current sequence

  /** The stack of the current sequence after such a rule: a new block
      closes the scopes "endBlock" ends and opens the block's scope. */
  function KeptStack(p: ParserAction, pt: Lexeme, stack: seq<ActiveScope>): seq<ActiveScope>
  {
    if p.newBlock then Unmatched(stack, "endBlock") + [Opened(BlockScopeSpec, pt)] else stack
  }

  /** Its blocks: the `before` items; for a new block the end items of the
      scopes it closes, then the new block; then the `during` and `after`
      items. */
  function KeptBlocks(p: ParserAction, pt: Lexeme, blocks: seq<Block>, stack: seq<ActiveScope>): seq<Block>
  {
    var b1 := AppendItems(blocks, HookItems(p.before, pt));
    var b2 := if p.newBlock then AppendItems(b1, CloseItems(Matched(stack, "endBlock"))) + [EmptyBlock(BlockLabel(pt))] else b1;
    AppendItems(b2, HookItems(p.during, pt) + HookItems(p.after, pt))
  }

  /** Such a rule adds to `items()` the hook items and, for a new block, the
      end items of the closed scopes, in that order. */
  lemma KeptItems(p: ParserAction, pt: Lexeme, blocks: seq<Block>, stack: seq<ActiveScope>)
    ensures ItemsOf(KeptBlocks(p, pt, blocks, stack)) ==
              ItemsOf(blocks) + HookItems(p.before, pt) +
              (if p.newBlock then CloseItems(Matched(stack, "endBlock")) else []) +
              (HookItems(p.during, pt) + HookItems(p.after, pt))
  {
    var before := HookItems(p.before, pt);
    var closing := if p.newBlock then CloseItems(Matched(stack, "endBlock")) else [];
    var rest := HookItems(p.during, pt) + HookItems(p.after, pt);
    var b1 := AppendItems(blocks, before);
    AppendItemsSpec(blocks, before);
    var b2 := if p.newBlock then AppendItems(b1, closing) + [EmptyBlock(BlockLabel(pt))] else b1;
    assert ItemsOf(b2) == ItemsOf(b1) + closing by {
      if p.newBlock {
        AppendItemsSpec(b1, closing);
        ItemsOfSnoc(AppendItems(b1, closing), EmptyBlock(BlockLabel(pt)));
      } else {
        assert ItemsOf(b1) + closing == ItemsOf(b1);
      }
    }
    assert KeptBlocks(p, pt, blocks, stack) == AppendItems(b2, rest);
    AppendItemsSpec(b2, rest);
  }

  // ---------------------------------------------------------------------
  // The effect of a rule that changes the current sequence

  /** The blocks of the sequence a rule starts on, after its block step
      (the end items of what "endBlock" closes, then the new block) and
      its `during` items. */
  function StartedBlocks(p: ParserAction, pt: Lexeme, blocks: seq<Block>, stack: seq<ActiveScope>): seq<Block>
  {
    var b := if p.newBlock then AppendItems(blocks, CloseItems(Matched(stack, "endBlock"))) + [EmptyBlock(BlockLabel(pt))] else blocks;
    AppendItems(b, HookItems(p.during, pt))
  }

  /** A rule that keeps the sequence is the `before` items, the same block
      and `during` steps, and the `after` items, on one sequence. */
  lemma KeptIsStarted(p: ParserAction, pt: Lexeme, blocks: seq<Block>, stack: seq<ActiveScope>)
    ensures KeptBlocks(p, pt, blocks, stack) ==
              AppendItems(StartedBlocks(p, pt, AppendItems(blocks, HookItems(p.before, pt)), stack), HookItems(p.after, pt))
  {
    var b1 := AppendItems(blocks, HookItems(p.before, pt));
    var b2 := if p.newBlock then AppendItems(b1, CloseItems(Matched(stack, "endBlock"))) + [EmptyBlock(BlockLabel(pt))] else b1;
    AppendItemsConcat(b2, HookItems(p.during, pt), HookItems(p.after, pt));
  }

  /** What `changeBaseSequence` does to the sequences map, by the arity of
      the new base type `p.baseSequenceType`: "1" and an existing "?" reuse
      the type's sequence; a first "?" makes one and stores it; "*" makes
      one and appends it to the type's list unless it is a temporary.
      `oldSlot` is the type's slot before, `cur` the new current sequence
      and `isNew` whether it was just made. */
  predicate SwitchedSequences(arity: Option<string>, p: ParserAction, oldSlot: Slot, oldSeqs: map<string, Slot>,
                              seqs: map<string, Slot>, cur: Sequence, isNew: bool)
  {
    var t := p.baseSequenceType;
    (arity == Some("1") ==> oldSlot == One(cur) && seqs == oldSeqs) &&
    (arity == Some("?") && oldSlot.One? ==> oldSlot == One(cur) && seqs == oldSeqs) &&
    (arity == Some("?") && oldSlot.Null? ==> isNew && seqs == oldSeqs[t := One(cur)]) &&
    (arity == Some("*") ==>
       isNew && seqs == if p.useTempSequence then oldSeqs else oldSeqs[t := Many(ListOf(oldSlot) + [cur])])
  }

  lemma SequencesOfStep(types: seq<SequenceType>, sequences: map<string, Slot>, k: nat, ret: seq<Sequence>)
    requires k < |types| && SlotsFit(types[..k + 1], sequences) && SlotsFit(types[..k], sequences)
    requires SequencesOf(types[..k], sequences) == Ok(ret)
    ensures types[k].0 in sequences
    ensures SequencesOf(types[..k + 1], sequences) ==
              if types[k].1 == "1" || types[k].1 == "?" then
                Ok(ret + (if sequences[types[k].0].One? then [sequences[types[k].0].sequence] else []))
              else if types[k].1 == "*" then Ok(ret + ListOf(sequences[types[k].0]))
              else Err(UnexpectedSequenceArity(types[k].1, types[k].0))
  {
    var ts := types[..k + 1];
    assert ts[..k] == types[..k] && ts[k] == types[k];
  }

  /** A type with an unknown arity decides the error of every longer list. */
  lemma {:induction false} SequencesOfPrefixErr(types: seq<SequenceType>, sequences: map<string, Slot>, k: nat)
    requires k <= |types| && SlotsFit(types, sequences)
    requires SlotsFit(types[..k], sequences) && SequencesOf(types[..k], sequences).Err?
    ensures SequencesOf(types, sequences) == SequencesOf(types[..k], sequences)
    decreases |types| - k
  {
    if k < |types| {
      SlotsFitPrefix(types, sequences, k + 1);
      assert types[..k + 1][..k] == types[..k];
      SequencesOfPrefixErr(types, sequences, k + 1);
    } else {
      assert types[..k] == types;
    }
  }

  /** Every sequence listed comes from a slot. */
  lemma {:induction false} SequencesOfIn(types: seq<SequenceType>, sequences: map<string, Slot>, ss: seq<Sequence>)
    requires SlotsFit(types, sequences) && SequencesOf(types, sequences) == Ok(ss)
    ensures forall s :: s in ss ==> exists k :: k in sequences && s in SlotSeqs(sequences[k])
  {
    if types != [] {
      var init := types[..|types| - 1];
      assert SlotsFit(init, sequences) by {
        assert forall i :: 0 <= i < |init| ==> init[i] == types[i];
      }
      var pre := SequencesOf(init, sequences);
      SequencesOfIn(init, sequences, pre.value);
      var name := types[|types| - 1].0;
      assert name in sequences;
    }
  }

  class Parser {
    const specs: seq<ParserSpec>
    var headers: map<string, string>
    const baseSequenceTypes: seq<SequenceType>
    const inlineSequenceTypes: seq<SequenceType>
    var sequences: map<string, Slot>
    /** `current.sequence`, `current.baseSequenceType` and
        `current.inlineSequenceType`. */
    var current: Sequence
    var currentBase: string
    var currentInline: Option<string>
    /** The state of the id generator: the number of ids drawn so far. */
    var nextId: nat
    /** Every sequence the parser has made. */
    ghost var Repr: set<Sequence>

    /** `{...baseSequenceTypes, ...inlineSequenceTypes}`: with distinct
        names, the base types followed by the inline ones. */
    function AllTypes(): seq<SequenceType>
    {
      baseSequenceTypes + inlineSequenceTypes
    }

    ghost predicate Valid()
      reads this
    {
      current in Repr &&
      NamesDistinct(AllTypes()) &&
      sequences.Keys == Names(AllTypes()) &&
      SlotsFit(AllTypes(), sequences) &&
      (forall k :: k in sequences ==> SlotSeqs(sequences[k]) <= Repr)
    }

    /** `sequences[t]`, with nothing for a type that has no slot. */
    function SlotOf(t: string): Slot
      reads this
    {
      if t in sequences then sequences[t] else Null
    }

    /** `new Parser()`: the sequence types, one slot per type, and the main
        sequence as the current one. */
    constructor (specs: seq<ParserSpec>, firstId: nat)
      ensures this.specs == specs && headers == map[]
      ensures baseSequenceTypes == BaseSequenceTypes && inlineSequenceTypes == InlineSequenceTypes
      ensures Valid() && fresh(Repr) && nextId >= firstId
      ensures "main" in sequences && sequences["main"] == One(current)
      ensures currentBase == "main" && currentInline == None
      ensures SlotsFresh(AllTypes(), sequences)
      ensures current.seqType == "main" && current.blocks == [] && current.activeScopes == []
    {
      this.specs := specs;
      headers := map[];
      baseSequenceTypes := BaseSequenceTypes;
      inlineSequenceTypes := InlineSequenceTypes;
      var all := BaseSequenceTypes + InlineSequenceTypes;
      assert all[0] == ("main", "1");
      StandardTypesDistinct();
      var r, n, made := MakeSequences(all, firstId);
      FreshSlotsFit(all, r.value);
      sequences := r.value;
      current := r.value["main"].sequence;
      currentBase := "main";
      currentInline := None;
      nextId := n;
      Repr := made;
    }

    /** `sequences.main`: with the standard types, main is a singleton. */
    function MainSequence(): (s: Sequence)
      requires Valid() && baseSequenceTypes == BaseSequenceTypes
      reads this
      ensures "main" in sequences && sequences["main"] == One(s)
    {
      assert AllTypes()[0] == ("main", "1");
      sequences["main"].sequence
    }

    /** The arity a base type is listed with fixes the shape of its slot. */
    lemma BaseSlot(t: string, arity: string) returns (i: nat)
      requires Valid() && Lookup(baseSequenceTypes, t) == Some(arity)
      ensures i < |AllTypes()| && AllTypes()[i] == (t, arity)
      ensures t in sequences && SlotFits(arity, sequences[t])
    {
      i :| 0 <= i < |baseSequenceTypes| && baseSequenceTypes[i] == (t, arity);
      assert AllTypes()[i] == baseSequenceTypes[i];
    }

    /** `new Sequence(sType)` with the next id. */
    method NewSequence(seqType: string) returns (s: Sequence)
      requires Valid()
      modifies this
      ensures Valid() && Repr == old(Repr) + {s}
      ensures fresh(s) && s.id == IdOf(old(nextId)) && s.seqType == seqType
      ensures s.blocks == [] && s.activeScopes == []
      ensures nextId == old(nextId) + 1
      ensures headers == old(headers) && sequences == old(sequences) && current == old(current)
      ensures currentBase == old(currentBase) && currentInline == old(currentInline)
    {
      s := new Sequence(IdOf(nextId), seqType);
      nextId := nextId + 1;
      Repr := Repr + {s};
    }

    /** `changeBaseSequence`: records the new base type first, then by its
        arity reuses the one sequence, makes the optional one on first use,
        or makes a fresh one that joins the type's list unless it is a
        temporary; an unknown arity (or a type that is not a base type)
        throws. */
    method ChangeBaseSequence(p: ParserAction) returns (o: Outcome)
      requires Valid()
      modifies this
      ensures Valid() && old(Repr) <= Repr && fresh(Repr - old(Repr))
      ensures headers == old(headers) && currentInline == old(currentInline)
      ensures currentBase == p.baseSequenceType
      ensures o.Pass? <==> Lookup(baseSequenceTypes, p.baseSequenceType).Some? && KnownArity(Lookup(baseSequenceTypes, p.baseSequenceType).value)
      ensures o.Fail? ==> o.error == UnexpectedSequenceArity(ArityText(Lookup(baseSequenceTypes, p.baseSequenceType)), p.baseSequenceType)
      ensures o.Fail? ==> current == old(current) && sequences == old(sequences) && Repr == old(Repr)
      ensures Lookup(baseSequenceTypes, p.baseSequenceType) == Some("1") ==>
                old(SlotOf(p.baseSequenceType)) == One(current) && sequences == old(sequences) && Repr == old(Repr)
      ensures Lookup(baseSequenceTypes, p.baseSequenceType) == Some("?") && old(SlotOf(p.baseSequenceType)).One? ==>
                old(SlotOf(p.baseSequenceType)) == One(current) && sequences == old(sequences) && Repr == old(Repr)
      ensures Lookup(baseSequenceTypes, p.baseSequenceType) == Some("?") && old(SlotOf(p.baseSequenceType)).Null? ==>
                fresh(current) && sequences == old(sequences)[p.baseSequenceType := One(current)]
      ensures Lookup(baseSequenceTypes, p.baseSequenceType) == Some("*") ==>
                fresh(current) &&
                sequences == if p.useTempSequence then old(sequences)
                             else old(sequences)[p.baseSequenceType := Many(ListOf(old(SlotOf(p.baseSequenceType))) + [current])]
      ensures fresh(current) ==> current.seqType == p.baseSequenceType && current.blocks == [] && current.activeScopes == []
    {
      var newType := p.baseSequenceType;
      currentBase := newType;
      var arity := Lookup(baseSequenceTypes, newType);
      if arity == Some("1") {
        var _ := BaseSlot(newType, "1");
        current := sequences[newType].sequence;
      } else if arity == Some("?") {
        var i := BaseSlot(newType, "?");
        UseOptional(newType, i);
      } else if arity == Some("*") {
        var i := BaseSlot(newType, "*");
        UseFresh(newType, i, p.useTempSequence);
      } else {
        return Fail(UnexpectedSequenceArity(ArityText(arity), newType));
      }
      return Pass;
    }

    /** The "?" case: the type's sequence, made on first use. */
    method UseOptional(t: string, ghost i: nat)
      requires Valid() && i < |AllTypes()| && AllTypes()[i] == (t, "?")
      modifies this
      ensures Valid() && old(Repr) <= Repr && fresh(Repr - old(Repr))
      ensures headers == old(headers) && currentInline == old(currentInline) && currentBase == old(currentBase)
      ensures old(SlotOf(t)).One? ==>
                old(SlotOf(t)) == One(current) && sequences == old(sequences) && Repr == old(Repr)
      ensures old(SlotOf(t)).Null? ==>
                fresh(current) && sequences == old(sequences)[t := One(current)]
      ensures fresh(current) ==> current.seqType == t && current.blocks == [] && current.activeScopes == []
    {
      if sequences[t].Null? {
        var s := NewSequence(t);
        SlotsFitUpdate(AllTypes(), i, sequences, One(s));
        sequences := sequences[t := One(s)];
      }
      current := sequences[t].sequence;
    }

    /** The "*" case: a fresh sequence, listed unless it is a temporary. */
    method UseFresh(t: string, ghost i: nat, useTempSequence: bool)
      requires Valid() && i < |AllTypes()| && AllTypes()[i] == (t, "*")
      modifies this
      ensures Valid() && old(Repr) <= Repr && fresh(Repr - old(Repr))
      ensures headers == old(headers) && currentInline == old(currentInline) && currentBase == old(currentBase)
      ensures fresh(current) && current.seqType == t && current.blocks == [] && current.activeScopes == []
      ensures sequences == if useTempSequence then old(sequences)
                           else old(sequences)[t := Many(ListOf(old(SlotOf(t))) + [current])]
    {
      var s := NewSequence(t);
      current := s;
      if !useTempSequence {
        SlotsFitUpdate(AllTypes(), i, sequences, Many(sequences[t].list + [s]));
        sequences := sequences[t := Many(sequences[t].list + [s])];
      }
    }

    /** `openNewScope(pt, sc)`: one scope pushed on the current stack. */
    method OpenNewScope(pt: Lexeme, sc: ScopeSpec)
      requires Valid()
      modifies current
      ensures Valid()
      ensures current.activeScopes == old(current.activeScopes) + [Opened(sc, pt)]
      ensures current.blocks == old(current.blocks)
    {
      current.activeScopes := current.activeScopes + [Opened(sc, pt)];
    }

    /** `openNewScopes`: the rule's scopes pushed in order; a rule without
        a list throws. */
    method OpenNewScopes(p: ParserAction, pt: Lexeme) returns (o: Outcome)
      requires Valid()
      modifies current
      ensures Valid()
      ensures o.Pass? <==> p.newScopes.Some?
      ensures o.Fail? ==> o.error == MissingNewScopes && current.activeScopes == old(current.activeScopes)
      ensures o.Pass? ==> current.activeScopes == old(current.activeScopes) + OpenedAll(p.newScopes.value, pt)
      ensures current.blocks == old(current.blocks)
    {
      if p.newScopes.None? {
        return Fail(MissingNewScopes);
      }
      var scs := p.newScopes.value;
      var i := 0;
      while i < |scs|
        invariant 0 <= i <= |scs|
        invariant current.activeScopes == old(current.activeScopes) + OpenedAll(scs[..i], pt)
        invariant current.blocks == old(current.blocks)
      {
        OpenedSnoc(scs, pt, i);
        OpenNewScope(pt, scs[i]);
        i := i + 1;
      }
      assert scs[..i] == scs;
      return Pass;
    }

    method AddToken(pt: Lexeme)
      requires Valid()
      modifies current
      ensures Valid()
      ensures current.blocks == AddTo(old(current.blocks), TokenOf(pt))
      ensures current.activeScopes == old(current.activeScopes)
    {
      current.AddItem(TokenOf(pt));
    }

    method AddScope(sOrE: string, scopeLabel: string)
      requires Valid()
      modifies current
      ensures Valid()
      ensures current.blocks == AddTo(old(current.blocks), ScopeItem(sOrE, scopeLabel))
      ensures current.activeScopes == old(current.activeScopes)
    {
      current.AddItem(ScopeItem(sOrE, scopeLabel));
    }

    /** A hook: the items it adds to the current sequence. */
    method RunHook(h: Option<Lexeme -> seq<Item>>, pt: Lexeme)
      requires Valid()
      modifies current
      ensures Valid()
      ensures current.blocks == AppendItems(old(current.blocks), HookItems(h, pt))
      ensures current.activeScopes == old(current.activeScopes)
    {
      current.AddItems(HookItems(h, pt));
    }

    /** `closeActiveScope(sc)`: a "close" scope item for its label, then
        what its `onEnd` hook adds. */
    method CloseActiveScope(sc: ActiveScope)
      requires Valid()
      modifies current
      ensures Valid()
      ensures current.blocks == AppendItems(old(current.blocks), [Scope(false, sc.scopeLabel)] + sc.onEnd)
      ensures current.activeScopes == old(current.activeScopes)
    {
      AddScope("close", sc.scopeLabel);
      current.AddItems(sc.onEnd);
      AppendOne(old(current.blocks), [], Scope(false, sc.scopeLabel));
      AppendItemsConcat(old(current.blocks), [Scope(false, sc.scopeLabel)], sc.onEnd);
    }

    /** `closeActiveScopes(closeLabel)`: closes, in stack order, exactly the
        scopes the label ends, and keeps the others in their order. */
    method CloseActiveScopes(closeLabel: string)
      requires Valid()
      modifies current
      ensures Valid()
      ensures current.blocks == AppendItems(old(current.blocks), CloseItems(Matched(old(current.activeScopes), closeLabel)))
      ensures current.activeScopes == Unmatched(old(current.activeScopes), closeLabel)
    {
      var matched := Matched(current.activeScopes, closeLabel);
      var i := 0;
      while i < |matched|
        invariant 0 <= i <= |matched|
        invariant current.blocks == AppendItems(old(current.blocks), CloseItems(matched[..i]))
        invariant current.activeScopes == old(current.activeScopes)
      {
        CloseItemsStep(matched, i);
        CloseActiveScope(matched[i]);
        AppendItemsConcat(old(current.blocks), CloseItems(matched[..i]), [Scope(false, matched[i].scopeLabel)] + matched[i].onEnd);
        i := i + 1;
      }
      assert matched[..i] == matched;
      current.activeScopes := Unmatched(current.activeScopes, closeLabel);
    }

    /** `specMatchesItem`: whether some context of the rule matches. */
    method SpecMatchesItem(spec: ParserSpec, item: Lexeme) returns (b: bool)
      ensures b <==> Matches(spec, item)
    {
      var i := 0;
      while i < |spec.contexts|
        invariant 0 <= i <= |spec.contexts|
        invariant forall j :: 0 <= j < i ==> !ContextMatches(spec.contexts[j], item)
      {
        var c := spec.contexts[i];
        if item.subclass == c.subclass && (c.accessor == "" || (Field(item, c.accessor).Some? && Field(item, c.accessor).value in c.values)) {
          return true;
        }
        i := i + 1;
      }
      return false;
    }

    /** `specForItem`: the first rule in table order that matches, or none. */
    method SpecForItem(item: Lexeme) returns (r: Option<ParserSpec>)
      ensures r == SpecFor(specs, item)
      ensures r.None? <==> forall k :: 0 <= k < |specs| ==> !Matches(specs[k], item)
      ensures r.Some? ==> exists k :: 0 <= k < |specs| && r.value == specs[k] && Matches(specs[k], item) &&
                                      forall j :: 0 <= j < k ==> !Matches(specs[j], item)
    {
      var k := 0;
      while k < |specs|
        invariant 0 <= k <= |specs|
        invariant forall j :: 0 <= j < k ==> !Matches(specs[j], item)
      {
        var m := SpecMatchesItem(specs[k], item);
        if m {
          FirstMatchIs(specs, item, k);
          return Some(specs[k]);
        }
        k := k + 1;
      }
      assert FirstMatchFrom(specs, item, 0).None?;
      return None;
    }

    /** The `newBlock` step: close what "endBlock" ends, start a block with
        the lexeme's block label, and open its block scope. */
    method StartBlock(pt: Lexeme)
      requires Valid()
      modifies current
      ensures Valid()
      ensures current.blocks == AppendItems(old(current.blocks), CloseItems(Matched(old(current.activeScopes), "endBlock"))) + [EmptyBlock(BlockLabel(pt))]
      ensures current.activeScopes == Unmatched(old(current.activeScopes), "endBlock") + [Opened(BlockScopeSpec, pt)]
    {
      CloseActiveScopes("endBlock");
      var _ := current.NewBlock(BlockLabel(pt));
      OpenNewScope(pt, BlockScopeSpec);
    }

    /** The steps of a matched rule, in the order `parseFirstPass` takes
        them: `before`; a sequence change (closing what
        "baseSequenceChange" ends); a new block; `during`; the rule's new
        scopes when the sequence changed; `after`. */
    method ApplyRule(p: ParserAction, pt: Lexeme) returns (o: Outcome)
      requires Valid()
      modifies this, Repr
      ensures Valid() && old(Repr) <= Repr && fresh(Repr - old(Repr))
      ensures headers == old(headers) && currentInline == old(currentInline)
      ensures forall s :: s in old(Repr) && s != old(current) && s != current ==>
                s.blocks == old(s.blocks) && s.activeScopes == old(s.activeScopes)
      ensures !ChangesSequence(p, old(currentBase)) ==>
                o.Pass? && current == old(current) && sequences == old(sequences) &&
                currentBase == old(currentBase) && Repr == old(Repr)
      ensures !ChangesSequence(p, old(currentBase)) ==>
                current.blocks == KeptBlocks(p, pt, old(current.blocks), old(current.activeScopes)) &&
                current.activeScopes == KeptStack(p, pt, old(current.activeScopes))
      ensures ChangesSequence(p, old(currentBase)) ==> currentBase == p.baseSequenceType
      ensures ChangesSequence(p, old(currentBase)) ==>
                (o.Pass? <==> Lookup(baseSequenceTypes, p.baseSequenceType).Some? &&
                              KnownArity(Lookup(baseSequenceTypes, p.baseSequenceType).value) && p.newScopes.Some?)
      ensures ChangesSequence(p, old(currentBase)) && o.Fail? ==>
                o.error == if Lookup(baseSequenceTypes, p.baseSequenceType).Some? && KnownArity(Lookup(baseSequenceTypes, p.baseSequenceType).value)
                           then MissingNewScopes
                           else UnexpectedSequenceArity(ArityText(Lookup(baseSequenceTypes, p.baseSequenceType)), p.baseSequenceType)
      ensures ChangesSequence(p, old(currentBase)) && o.Pass? && fresh(current) ==>
                current.activeScopes == (if p.newBlock then [Opened(BlockScopeSpec, pt)] else []) + OpenedAll(p.newScopes.value, pt)
      ensures ChangesSequence(p, old(currentBase)) && o.Pass? && current != old(current) ==>
                old(current).activeScopes == Unmatched(old(current.activeScopes), "baseSequenceChange") &&
                old(current).blocks == AppendItems(AppendItems(old(current.blocks), HookItems(p.before, pt)),
                                                   CloseItems(Matched(old(current.activeScopes), "baseSequenceChange")))
      ensures ChangesSequence(p, old(currentBase)) ==>
                SwitchedSequences(Lookup(baseSequenceTypes, p.baseSequenceType), p, old(SlotOf(p.baseSequenceType)),
                                  old(sequences), sequences, current, fresh(current))
      ensures ChangesSequence(p, old(currentBase)) && o.Pass? ==>
                var c := current;
                var stack0 := if c == old(current) then Unmatched(old(current.activeScopes), "baseSequenceChange")
                              else if fresh(c) then [] else old(c.activeScopes);
                var blocks0 := if c == old(current)
                               then AppendItems(AppendItems(old(current.blocks), HookItems(p.before, pt)),
                                                CloseItems(Matched(old(current.activeScopes), "baseSequenceChange")))
                               else if fresh(c) then [] else old(c.blocks);
                c.blocks == AppendItems(StartedBlocks(p, pt, blocks0, stack0), HookItems(p.after, pt)) &&
                c.activeScopes == KeptStack(p, pt, stack0) + OpenedAll(p.newScopes.value, pt)
    {
      RunHook(p.before, pt);
      var changeSequence := ChangesSequence(p, currentBase);
      ghost var b2 := current.blocks;
      if changeSequence {
        o := ChangeSequence(p, pt);
        if o.Fail? {
          return;
        }
      } else {
        b2 := if p.newBlock then AppendItems(b2, CloseItems(Matched(current.activeScopes, "endBlock"))) + [EmptyBlock(BlockLabel(pt))] else b2;
        BlockAndDuring(p, pt);
        o := Pass;
      }
      RunHook(p.after, pt);
      if !changeSequence {
        AppendItemsConcat(b2, HookItems(p.during, pt), HookItems(p.after, pt));
      }
    }

    /** The steps between the sequence change and the new scopes: a new
        block when the rule asks for one, then `during`. */
    method BlockAndDuring(p: ParserAction, pt: Lexeme)
      requires Valid()
      modifies current
      ensures Valid()
      ensures current.blocks == StartedBlocks(p, pt, old(current.blocks), old(current.activeScopes))
      ensures current.activeScopes == KeptStack(p, pt, old(current.activeScopes))
    {
      if p.newBlock {
        StartBlock(pt);
      }
      RunHook(p.during, pt);
    }

    /** A rule that changes the sequence: close what "baseSequenceChange"
        ends, switch sequences, then the block and `during` steps on the new
        current sequence and the rule's new scopes. */
    method ChangeSequence(p: ParserAction, pt: Lexeme) returns (o: Outcome)
      requires Valid()
      modifies this, Repr
      ensures Valid() && old(Repr) <= Repr && fresh(Repr - old(Repr))
      ensures headers == old(headers) && currentInline == old(currentInline)
      ensures forall s :: s in old(Repr) && s != old(current) && s != current ==>
                s.blocks == old(s.blocks) && s.activeScopes == old(s.activeScopes)
      ensures currentBase == p.baseSequenceType
      ensures o.Pass? <==> Lookup(baseSequenceTypes, p.baseSequenceType).Some? &&
                           KnownArity(Lookup(baseSequenceTypes, p.baseSequenceType).value) && p.newScopes.Some?
      ensures o.Fail? ==>
                o.error == if Lookup(baseSequenceTypes, p.baseSequenceType).Some? && KnownArity(Lookup(baseSequenceTypes, p.baseSequenceType).value)
                           then MissingNewScopes
                           else UnexpectedSequenceArity(ArityText(Lookup(baseSequenceTypes, p.baseSequenceType)), p.baseSequenceType)
      ensures SwitchedSequences(Lookup(baseSequenceTypes, p.baseSequenceType), p, old(SlotOf(p.baseSequenceType)),
                                old(sequences), sequences, current, fresh(current))
      ensures o.Pass? && fresh(current) ==>
                current.activeScopes == (if p.newBlock then [Opened(BlockScopeSpec, pt)] else []) + OpenedAll(p.newScopes.value, pt)
      ensures o.Pass? && current != old(current) ==>
                old(current).activeScopes == Unmatched(old(current.activeScopes), "baseSequenceChange") &&
                old(current).blocks == AppendItems(old(current.blocks), CloseItems(Matched(old(current.activeScopes), "baseSequenceChange")))
      // The sequence changed to, whichever it is: the old one after the
      // "baseSequenceChange" close, a new empty one, or another existing
      // one as it was; then the block, `during` and new-scope steps on it.
      ensures o.Pass? ==>
                var c := current;
                var stack0 := if c == old(current) then Unmatched(old(current.activeScopes), "baseSequenceChange")
                              else if fresh(c) then [] else old(c.activeScopes);
                var blocks0 := if c == old(current) then AppendItems(old(current.blocks), CloseItems(Matched(old(current.activeScopes), "baseSequenceChange")))
                               else if fresh(c) then [] else old(c.blocks);
                c.blocks == StartedBlocks(p, pt, blocks0, stack0) &&
                c.activeScopes == KeptStack(p, pt, stack0) + OpenedAll(p.newScopes.value, pt)
    {
      CloseActiveScopes("baseSequenceChange");
      ghost var closed := current;
      ghost var closedBlocks := current.blocks;
      ghost var closedStack := current.activeScopes;
      o := ChangeBaseSequence(p);
      if o.Fail? {
        return;
      }
      ghost var newStack := (if p.newBlock then [Opened(BlockScopeSpec, pt)] else []);
      if fresh(current) {
        assert KeptStack(p, pt, current.activeScopes) == newStack by {
          assert current.activeScopes == [];
          assert Unmatched([], "endBlock") == [];
        }
      }
      ghost var blocks0 := current.blocks;
      ghost var stack0 := current.activeScopes;
      o := StartOnSequence(p, pt);
      assert current != closed ==> closed.blocks == closedBlocks && closed.activeScopes == closedStack;
      assert current.blocks == StartedBlocks(p, pt, blocks0, stack0);
    }

    /** What a sequence-changing rule does on the sequence it changed to:
        the block and `during` steps, then the rule's new scopes. */
    method StartOnSequence(p: ParserAction, pt: Lexeme) returns (o: Outcome)
      requires Valid()
      modifies current
      ensures Valid()
      ensures o.Pass? <==> p.newScopes.Some?
      ensures o.Fail? ==> o.error == MissingNewScopes
      ensures current.blocks == StartedBlocks(p, pt, old(current.blocks), old(current.activeScopes))
      ensures o.Pass? ==> current.activeScopes == KeptStack(p, pt, old(current.activeScopes)) + OpenedAll(p.newScopes.value, pt)
    {
      BlockAndDuring(p, pt);
      o := OpenNewScopes(p, pt);
    }

    /** One lexeme of `parseFirstPass`: the first matching rule applies;
        a lexeme no rule matches changes nothing. */
    method ParseLexeme(pt: Lexeme) returns (o: Outcome)
      requires Valid()
      modifies this, Repr
      ensures Valid() && old(Repr) <= Repr && fresh(Repr - old(Repr))
      ensures SpecFor(specs, pt).None? ==> o.Pass? && unchanged(this) && unchanged(old(Repr))
      ensures o.Fail? ==> SpecFor(specs, pt).Some? && ChangesSequence(SpecFor(specs, pt).value.parser, old(currentBase))
      ensures headers == old(headers) && currentInline == old(currentInline)
      ensures forall s :: s in old(Repr) && s != old(current) && s != current ==>
                s.blocks == old(s.blocks) && s.activeScopes == old(s.activeScopes)
      ensures SpecFor(specs, pt).Some? && !ChangesSequence(SpecFor(specs, pt).value.parser, old(currentBase)) ==>
                var p := SpecFor(specs, pt).value.parser;
                o.Pass? && current == old(current) && sequences == old(sequences) && currentBase == old(currentBase) &&
                current.blocks == KeptBlocks(p, pt, old(current.blocks), old(current.activeScopes)) &&
                current.activeScopes == KeptStack(p, pt, old(current.activeScopes))
      ensures SpecFor(specs, pt).Some? && ChangesSequence(SpecFor(specs, pt).value.parser, old(currentBase)) ==>
                var p := SpecFor(specs, pt).value.parser;
                currentBase == p.baseSequenceType &&
                (o.Pass? <==> Lookup(baseSequenceTypes, p.baseSequenceType).Some? &&
                              KnownArity(Lookup(baseSequenceTypes, p.baseSequenceType).value) && p.newScopes.Some?)
      ensures SpecFor(specs, pt).Some? && ChangesSequence(SpecFor(specs, pt).value.parser, old(currentBase)) && o.Pass? &&
              current != old(current) ==>
                var p := SpecFor(specs, pt).value.parser;
                old(current).activeScopes == Unmatched(old(current.activeScopes), "baseSequenceChange") &&
                old(current).blocks == AppendItems(AppendItems(old(current.blocks), HookItems(p.before, pt)),
                                                   CloseItems(Matched(old(current.activeScopes), "baseSequenceChange")))
      ensures SpecFor(specs, pt).Some? && ChangesSequence(SpecFor(specs, pt).value.parser, old(currentBase)) && o.Pass? &&
              fresh(current) ==>
                var p := SpecFor(specs, pt).value.parser;
                current.activeScopes == (if p.newBlock then [Opened(BlockScopeSpec, pt)] else []) + OpenedAll(p.newScopes.value, pt)
      ensures SpecFor(specs, pt).Some? && ChangesSequence(SpecFor(specs, pt).value.parser, old(currentBase)) ==>
                var p := SpecFor(specs, pt).value.parser;
                SwitchedSequences(Lookup(baseSequenceTypes, p.baseSequenceType), p, old(SlotOf(p.baseSequenceType)),
                                  old(sequences), sequences, current, fresh(current))
      ensures SpecFor(specs, pt).Some? && ChangesSequence(SpecFor(specs, pt).value.parser, old(currentBase)) && o.Pass? ==>
                var p := SpecFor(specs, pt).value.parser;
                var c := current;
                var stack0 := if c == old(current) then Unmatched(old(current.activeScopes), "baseSequenceChange")
                              else if fresh(c) then [] else old(c.activeScopes);
                var blocks0 := if c == old(current)
                               then AppendItems(AppendItems(old(current.blocks), HookItems(p.before, pt)),
                                                CloseItems(Matched(old(current.activeScopes), "baseSequenceChange")))
                               else if fresh(c) then [] else old(c.blocks);
                c.blocks == AppendItems(StartedBlocks(p, pt, blocks0, stack0), HookItems(p.after, pt)) &&
                c.activeScopes == KeptStack(p, pt, stack0) + OpenedAll(p.newScopes.value, pt)
    {
      var spec := SpecForItem(pt);
      if spec.None? {
        return Pass;
      }
      o := ApplyRule(spec.value.parser, pt);
    }

    /** `parseFirstPass`: the lexemes in order, until one throws. */
    method ParseFirstPass(lexemes: seq<Lexeme>) returns (o: Outcome)
      requires Valid()
      modifies this, Repr
      ensures Valid() && old(Repr) <= Repr && fresh(Repr - old(Repr))
      ensures (forall i :: 0 <= i < |lexemes| ==> SpecFor(specs, lexemes[i]).None?) ==>
                o.Pass? && unchanged(this) && unchanged(old(Repr))
    {
      var i := 0;
      while i < |lexemes|
        invariant 0 <= i <= |lexemes|
        invariant Valid() && old(Repr) <= Repr && fresh(Repr - old(Repr))
        invariant (forall j :: 0 <= j < |lexemes| ==> SpecFor(specs, lexemes[j]).None?) ==>
                    unchanged(this) && unchanged(old(Repr))
      {
        o := ParseLexeme(lexemes[i]);
        if o.Fail? {
          return;
        }
        i := i + 1;
      }
      return Pass;
    }

    /** `allSequences`: every sequence in a slot, in type order. */
    method AllSequences() returns (r: Result<seq<Sequence>>)
      requires Valid()
      ensures r == SequencesOf(AllTypes(), sequences)
    {
      var types := AllTypes();
      var ret: seq<Sequence> := [];
      var k := 0;
      while k < |types|
        invariant 0 <= k <= |types|
        invariant SlotsFit(types[..k], sequences)
        invariant SequencesOf(types[..k], sequences) == Ok(ret)
      {
        SlotsFitPrefix(types, sequences, k + 1);
        SequencesOfStep(types, sequences, k, ret);
        var (name, arity) := types[k];
        assert name in sequences && SlotFits(arity, sequences[name]) by {
          assert types[..k + 1][k] == types[k];
        }
        assert name == types[k].0 && arity == types[k].1;
        if arity == "1" || arity == "?" {
          if sequences[name].One? {
            ret := ret + [sequences[name].sequence];
          } else {
            assert ret + [] == ret;
          }
        } else if arity == "*" {
          ret := ret + sequences[name].list;
        } else {
          SequencesOfPrefixErr(types, sequences, k + 1);
          return Err(UnexpectedSequenceArity(arity, name));
        }
        assert SequencesOf(types[..k + 1], sequences) == Ok(ret);
        k := k + 1;
      }
      assert types[..k] == types;
      return Ok(ret);
    }

    /** `seq.close(parser)` for each of `ss`: every listed stack is
        emptied; a listed sequence other than the current one gets one end
        item per open scope, innermost first; a sequence not listed is left
        alone, unless it is the current one, which takes the hook items. */
    method CloseAll(ss: seq<Sequence>)
      requires Valid() && forall s :: s in ss ==> s in Repr
      modifies Repr
      ensures Valid()
      ensures forall s :: s in ss ==> s.activeScopes == []
      ensures forall s :: s in ss && s != current ==>
                s.blocks == AppendItems(old(s.blocks), EndItems(Reversed(old(s.activeScopes))))
      ensures forall s :: s in Repr && s !in ss && s != current ==>
                s.blocks == old(s.blocks) && s.activeScopes == old(s.activeScopes)
    {
      var i := 0;
      while i < |ss|
        invariant 0 <= i <= |ss|
        invariant Valid()
        invariant forall j :: 0 <= j < i ==> ss[j].activeScopes == []
        invariant forall s :: s in ss[..i] && s != current ==>
                    s.blocks == AppendItems(old(s.blocks), EndItems(Reversed(old(s.activeScopes))))
        invariant forall s :: s in Repr && s !in ss[..i] && s != current ==>
                    s.blocks == old(s.blocks) && s.activeScopes == old(s.activeScopes)
      {
        ghost var seen := ss[i] in ss[..i];
        label Before:
        CloseOne(ss, i);
        assert ss[..i + 1] == ss[..i] + [ss[i]];
        forall s | s in ss[..i + 1] && s != current
          ensures s.blocks == AppendItems(old(s.blocks), EndItems(Reversed(old(s.activeScopes))))
        {
          if s == ss[i] && seen {
            var j :| 0 <= j < i && ss[j] == ss[i];
            assert old@Before(s.activeScopes) == [];
            assert EndItems(Reversed(old@Before(s.activeScopes))) == [];
          } else if s != ss[i] {
            assert s in ss[..i];
          }
        }
        forall s | s in Repr && s !in ss[..i + 1] && s != current
          ensures s.blocks == old(s.blocks) && s.activeScopes == old(s.activeScopes)
        {
          assert s != ss[i] && s !in ss[..i];
        }
        i := i + 1;
      }
      assert ss[..i] == ss;
    }

    /** One step of `CloseAll`: `ss[i]` is closed onto the current sequence. */
    method CloseOne(ss: seq<Sequence>, i: nat)
      requires Valid() && i < |ss| && forall s :: s in ss ==> s in Repr
      modifies Repr
      ensures Valid()
      ensures forall j :: 0 <= j < i && old(ss[j].activeScopes) == [] ==> ss[j].activeScopes == []
      ensures ss[i].activeScopes == []
      ensures forall s :: s in Repr && s != ss[i] && s != current ==>
                s.blocks == old(s.blocks) && s.activeScopes == old(s.activeScopes)
      ensures ss[i] != current ==>
                ss[i].blocks == AppendItems(old(ss[i].blocks), EndItems(Reversed(old(ss[i].activeScopes))))
    {
      ss[i].Close(current);
    }

    /** `parse`: the first pass, then every sequence closed, then
        `sequences.main.lastBlock()`, which gives the main sequence an
        "orphanTokens" block when it has none; afterwards no listed
        sequence has an open scope. */
    method Parse(lexemes: seq<Lexeme>) returns (o: Outcome)
      requires Valid() && baseSequenceTypes == BaseSequenceTypes
      modifies this, Repr
      ensures Valid() && old(Repr) <= Repr && fresh(Repr - old(Repr))
      ensures o.Pass? ==> SequencesOf(AllTypes(), sequences).Ok? &&
                          forall s :: s in SequencesOf(AllTypes(), sequences).value ==> s.activeScopes == []
      ensures o.Pass? ==> |MainSequence().blocks| >= 1
    {
      o := ParseFirstPass(lexemes);
      if o.Fail? {
        return;
      }
      var all := AllSequences();
      if all.Err? {
        return Fail(all.error);
      }
      SequencesIn(all.value);
      CloseAll(all.value);
      var main := MainSequence();
      MainIn();
      label Closed:
      var _ := main.LastBlock();
      forall s | s in all.value ensures s.activeScopes == [] {
        assert s.activeScopes == old@Closed(s.activeScopes);
      }
    }

    lemma MainIn()
      requires Valid() && baseSequenceTypes == BaseSequenceTypes
      ensures MainSequence() in Repr
    {
      var m := MainSequence();
      assert m in SlotSeqs(sequences["main"]);
    }

    lemma SequencesIn(ss: seq<Sequence>)
      requires Valid() && SequencesOf(AllTypes(), sequences) == Ok(ss)
      ensures forall s :: s in ss ==> s in Repr
    {
      SequencesOfIn(AllTypes(), sequences, ss);
    }
  }
}
