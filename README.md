# proskomma-js importer core in Dafny

This project models the part of proskomma-js that turns a lexed scripture
document into the "succinct" form that doc sets store. It covers three pieces.

- **The parser's scope-stack machine** (`processor/classes/parser.js`,
  `processor/classes/sequence.js`, `processor/label_for_scope.js`). A table of
  rules is matched against each lexeme. The first matching rule may close open
  scopes, switch the current base sequence, start a block, run its hooks and
  push new scopes. Each sequence keeps its blocks and its stack of active
  scopes. At the end, every sequence closes its open scopes, most recently
  opened first.
- **The enumerator and the record encoder** (`processor/classes/doc_set.js`,
  the `pushSuccinct*` and `succinctifyBlocks` members of `sequence.js`, and the
  two generations of the document class in `model/document.js` and
  `src/model/document.js`).
  - Pass 1 records every id, token text, graft type and scope component into
    per-category "pre-enums". Each pre-enum is a table of value → (enum, frequency)
    whose keys are kept in the order they were created. When the doc set's
    `wordLike` table is empty, the entries are then renumbered by a stable
    sort on descending frequency of the list `Object.entries` gives, which
    puts array-index keys such as "1" first, in numeric order.
  - Pass 2 encodes each block as byte records. A record is a header byte
    (length in the low six bits, kind above), a type byte, then
    variable-length enums.
- **The registry** (`index.js`). Doc sets are found or made by language and
  abbreviation. Documents are imported into them, and both are listed in
  insertion order.

Modules (one file each):
- `Wrappers`: results, errors, and the "first throw wins" loops.
- `ObjectKeys`: the order in which `Object.entries` lists an object's own keys.
- `Ids`: the id generator as a counter, rendered as "id" and a decimal number.
- `Labels`: splitting on "/" and `labelForScope`.
- `ByteArrays`: the byte buffer and its variable-length integers.
- `Defs`: the resource tables the encoder reads.
- `Items`: tokens, grafts, scopes, blocks and lexemes.
- `PreEnums`: one category's table as a value.
- `DocSets`: the `DocSet` class.
- `Sequences`: the `Sequence` class and its encoder.
- `Parsers`: the `Parser` class.
- `Passes`: the two record passes shared by both document generations.
- `Serialization`: the `serializeSuccinct*` structure.
- `LegacyDocuments`: `model/document.js`.
- `Documents`: `src/model/document.js`.
- `Registry`: `index.js`.

Every thrown `Error` becomes a value: a `Result`, or an `Outcome` of a method.
Each such method is proved to report exactly the result of the function that
specifies it.

Where the code and its informal description disagree, the model follows the
code:
- `openNewScope` pushes an active scope but adds no start item (parser.js:196-205).
- `nDocuments` reads the arity of the `documentList` method instead of calling it (index.js:30-32).
- `succinctifyBlocks` packs each block as its "c" and "bs" streams only (sequence.js:113-118), so the model's pass 2 stores blocks without a "bg" stream, which `serializeSuccinctBlock` then reads (see Findings).

## Model

| member | source | states |
|---|---|---|
| `Labels.Split` | processor/classes/sequence.js:143 | the parts contain no "/" and join back to the label |
| `Labels.SplitJoin` | processor/classes/sequence.js:143 | splitting the join of "/"-free parts gives the parts back; with `Split` this is a round trip in both directions |
| `Labels.LabelForScope` | processor/label_for_scope.js:1-10 | "blockTag" gives `block/` + first field and "inline" gives `inline/` + first field; any other scope type is exactly the unknown-scope-type error |
| `Labels.LabelComponents` | processor/label_for_scope.js:1-10 | a label splits into its prefix, then the components of its first field; with a "/"-free field that is exactly two components |
| `ObjectKeys.DecimalValue` | processor/classes/doc_set.js:59 | the number a string of digits denotes; the empty string denotes 0 |
| `ObjectKeys.KeysWhere` | processor/classes/doc_set.js:59 | exactly the keys that are (or are not) array indices, in creation order |
| `ObjectKeys.KeysWhereAppend` | processor/classes/doc_set.js:59 | selecting from two lists of keys is selecting from each, in order |
| `ObjectKeys.KeysWhereSplit` | processor/classes/doc_set.js:59 | every key is either an array index or not: the two selections together are the keys |
| `ObjectKeys.InsertByValue` | processor/classes/doc_set.js:59 | inserting a key into the numeric order adds exactly that key |
| `ObjectKeys.InsertByValueAscending` | processor/classes/doc_set.js:59 | inserting a key keeps the numeric order ascending |
| `ObjectKeys.InsertByValuePermutes` | processor/classes/doc_set.js:59 | inserting adds exactly one occurrence of the key |
| `ObjectKeys.SortByValue` | processor/classes/doc_set.js:59 | the numeric sort keeps exactly the same keys |
| `ObjectKeys.SortByValuePermutes` | processor/classes/doc_set.js:59 | the numeric sort is a permutation |
| `ObjectKeys.SortByValueAscending` | processor/classes/doc_set.js:59 | the numeric sort is in ascending numeric order |
| `ObjectKeys.OwnKeysOrder` | processor/classes/doc_set.js:59 | `Object.entries` lists each created key as often as it was created; an array index is preceded only by array indices of smaller value; the other keys keep creation order; distinct keys stay distinct |
| `ObjectKeys.OwnKeysPermute` | processor/classes/doc_set.js:59 | the listed keys are a permutation of the created keys |
| `ObjectKeys.OwnKeysIndicesFirst` | processor/classes/doc_set.js:59 | nothing but a smaller array index comes before an array index |
| `ObjectKeys.OwnKeysOthers` | processor/classes/doc_set.js:59 | the keys that are not array indices are listed in creation order |
| `ObjectKeys.OwnKeysWithoutIndices` | index.js:18-20 | an object none of whose keys is an array index lists its keys in creation order |
| `ObjectKeys.DistinctCounts` | processor/classes/doc_set.js:59 | a list without repetitions counts each key at most once |
| `ObjectKeys.CountsDistinct` | processor/classes/doc_set.js:59 | a list that counts each key at most once has no repetitions |
| `Ids.IdOfInjective` | index.js:62 | distinct counter values give distinct ids, so `generateId` never hands out an id twice |
| `Ids.Decimal` | index.js:62 | an id's decimal part has at least one digit, and exactly one for numbers below 10 |
| `Ids.DecimalInjective` | index.js:62 | distinct numbers have distinct decimal renderings |
| `Ids.IdIsNotArrayIndex` | index.js:18-20 | no id is an array index, so objects keyed by ids (`docSets`, `documents`) list them in creation order |
| `ByteArrays.ByteArray.constructor` | processor/classes/sequence.js:89 | a new buffer holds no bytes |
| `ByteArrays.ByteArray.PushByte` | processor/classes/sequence.js:126-127 | exactly one byte is appended |
| `ByteArrays.ByteArray.SetByte` | processor/classes/sequence.js:129 | one position is overwritten and the length is unchanged |
| `ByteArrays.ByteArray.PushNByte` | processor/classes/sequence.js:128 | the variable-length encoding of the value is appended |
| `ByteArrays.ReadVarIntOfVarInt` | processor/classes/sequence.js:128 | reading a variable-length integer back from the front of any buffer gives the value and the number of bytes it took |
| `ByteArrays.ReadVarIntsOfVarInts` | processor/classes/sequence.js:147-149 | values pushed one after another read back as the same list |
| `ByteArrays.BitOrDisjoint` | processor/classes/sequence.js:129 | `len \| kind << 6` is `len + kind * 64` when the length is below 64 |
| `ByteArrays.WalkStep` | processor/classes/doc_set.js:32-38 | stepping by a counted string's length byte moves forward and stays on a string boundary |
| `ByteArrays.WalkOn` | processor/classes/doc_set.js:32-38 | the strings read so far, then the rest of the walk, are all the buffer's strings in order |
| `PreEnums.Put` | processor/classes/doc_set.js:47-50 | a new key goes last in insertion order and an existing key keeps its place; well-formedness is kept |
| `PreEnums.Record` | processor/classes/doc_set.js:46-53 | recording keeps a table well-formed |
| `PreEnums.RecordValid` | processor/classes/doc_set.js:46-53 | a new value gets enum = number of earlier keys and frequency 1; a known value gains one frequency and keeps its enum; other entries are untouched; enums stay distinct and dense |
| `PreEnums.FrequencyCountsRecords` | processor/classes/doc_set.js:42-54 | starting from an empty table, the keys are exactly the values recorded and each frequency is the number of times its value was recorded |
| `PreEnums.RecordAllValid` | processor/classes/doc_set.js:42-54 | any run of recordings keeps enums distinct and dense, and only ever appends keys |
| `PreEnums.LookupAfterRecord` | processor/classes/doc_set.js:46-53 | a recorded value stays found with the same enum through later recordings |
| `PreEnums.FromStrings` | processor/classes/doc_set.js:28-40 | the table read from a buffer is well-formed |
| `PreEnums.FromStringsSnoc` | processor/classes/doc_set.js:33-36 | each string read gets the running count as its enum and frequency 0 |
| `PreEnums.FromDistinctStrings` | processor/classes/doc_set.js:28-40 | for distinct strings, the i-th string gets enum i and frequency 0, with keys in reading order |
| `PreEnums.FromDistinctStringsValid` | processor/classes/doc_set.js:28-40 | such a table has distinct, dense enums |
| `PreEnums.Insert` | processor/classes/doc_set.js:59 | insertion adds exactly one occurrence of the key (a permutation step) |
| `PreEnums.InsertSorted` | processor/classes/doc_set.js:59 | insertion keeps frequencies non-increasing |
| `PreEnums.InsertDistinct` | processor/classes/doc_set.js:59 | inserting a new key keeps the keys distinct |
| `PreEnums.SortByFrequency` | processor/classes/doc_set.js:59 | the sorted keys are a permutation of the keys |
| `PreEnums.SortByFrequencySpec` | processor/classes/doc_set.js:59 | the sorted keys have the same length, stay distinct, and have non-increasing frequency |
| `PreEnums.SortedKeys` | processor/classes/doc_set.js:59 | the keys `sortPreEnums` numbers: as many as the table has keys, and exactly its keys |
| `PreEnums.EntriesOrder` | processor/classes/doc_set.js:59 | the sort's input, `Object.entries` order, lists every key once; the sorted keys are distinct with non-increasing frequency |
| `PreEnums.InsertKeepsOrder` | processor/classes/doc_set.js:59 | inserting a new key keeps the relative order of the others |
| `PreEnums.InsertAfterTies` | processor/classes/doc_set.js:59 | a new key goes after every key of the same or higher frequency |
| `PreEnums.SortByFrequencyStable` | processor/classes/doc_set.js:59 | the frequency sort is stable: keys of equal frequency keep their relative order, as `Array.prototype.sort` does |
| `PreEnums.InsertStable` | processor/classes/doc_set.js:59 | inserting the next key into a stable sort of the keys before it gives a stable sort of them all |
| `PreEnums.AssignedSpec` | processor/classes/doc_set.js:58-61 | the j-th key in sorted order gets enum j; frequencies are untouched; keys not in the order keep their entries |
| `PreEnums.SortedKeepsFrequencies` | processor/classes/doc_set.js:56-63 | sorting keeps the keys, their creation order and every frequency |
| `PreEnums.SortedEnumsArePositions` | processor/classes/doc_set.js:56-63 | after sorting, each key's enum is its position in the frequency sort of the `Object.entries` order |
| `PreEnums.SortedValid` | processor/classes/doc_set.js:56-63 | after sorting, enums are distinct and dense |
| `PreEnums.SortedFrequencyOrder` | processor/classes/doc_set.js:59-61 | after sorting, a smaller enum never has a smaller frequency |
| `PreEnums.AssignedFrequencyOrder` | processor/classes/doc_set.js:59-61 | numbering keys along a list of non-increasing frequency never gives a smaller enum a smaller frequency |
| `PreEnums.AssignedTies` | processor/classes/doc_set.js:59-61 | numbering along a stable sort of a key list gives, of two equal-frequency keys, the lower enum to the earlier one |
| `PreEnums.SortedTieOrder` | processor/classes/doc_set.js:56-63 | after sorting, of two keys with the same frequency, the one `Object.entries` lists first has the lower enum |
| `PreEnums.RecordTheOne` | processor/classes/doc_set.js:42-54 | recording "the", then "1" gives the ↦ (0, 1) and 1 ↦ (1, 1), in that creation order |
| `PreEnums.IndexKeyFirstExample` | processor/classes/doc_set.js:56-63 | sorting that table gives "1" enum 0 and "the" enum 1: the array index wins the tie |
| `DocSets.RecordValue` | processor/classes/doc_set.js:42-54 | fails exactly when the category is unknown, with that error; only the named category changes; well-formedness is kept |
| `DocSets.EnumFor` | processor/classes/doc_set.js:65-74 | the entry when category and value are present; otherwise the unknown-category error or the unknown-value error, by which is missing |
| `DocSets.WordLikeEmpty` | model/document.js:59 | true exactly when the wordLike table is empty; a doc set without that table throws |
| `DocSets.SortAll` | processor/classes/doc_set.js:56-63 | sorting keeps the set of categories; each category becomes its stable frequency sort in `Object.entries` order |
| `DocSets.RecordThenLookup` | processor/classes/doc_set.js:42-74 | a value just recorded is then found |
| `DocSets.RecordKeepsLookups` | processor/classes/doc_set.js:42-74 | recording never loses a value, and leaves other categories' lookups identical |
| `DocSets.SortAllKeepsLookups` | processor/classes/doc_set.js:56-74 | sorting finds exactly the same values with the same frequencies, and leaves every category valid |
| `DocSets.BuiltFrom` | processor/classes/doc_set.js:22-26 | the rebuilt tables are well-formed |
| `DocSets.BuiltFromStep` | processor/classes/doc_set.js:23-25 | each category is rebuilt from the counted strings of its own enum buffer |
| `DocSets.SortedInAll` | processor/classes/doc_set.js:57-62 | the loop over categories sorts every category |
| `DocSets.DocSet.constructor` | processor/classes/doc_set.js:6-20 | the five enum tables are empty, and there are no pre-enums and no documents |
| `DocSets.DocSet.BuildPreEnums` | processor/classes/doc_set.js:22-26 | each category present in the enums is replaced by the table read from its buffer; others are kept |
| `DocSets.DocSet.BuildPreEnum` | processor/classes/doc_set.js:28-40 | the loop over the buffer builds the table of its counted strings |
| `DocSets.DocSet.RecordPreEnum` | processor/classes/doc_set.js:42-54 | throws exactly for an unknown category, changing nothing; otherwise the pre-enums become `RecordValue` of the old ones |
| `DocSets.DocSet.SortPreEnums` | processor/classes/doc_set.js:56-63 | the pre-enums become their sorted form, category by category; enums and documents are untouched |
| `DocSets.SortCategory` | processor/classes/doc_set.js:58-61 | the inner loop over `Object.entries(category)`, stably sorted by frequency, gives the sorted form of the category, which is valid |
| `DocSets.DocSet.BuildEnums` | model/document.js:62 | the enum buffers are rebuilt from the pre-enums |
| `DocSets.DocSet.EnumForCategoryValue` | processor/classes/doc_set.js:65-74 | found exactly when the category and the value are present, giving the value's entry; an unknown category and an unknown value each throw their own error |
| `Sequences.AddToItems` | processor/classes/sequence.js:22-31 | adding an item appends exactly it to `items()` |
| `Sequences.AddToBlocks` | processor/classes/sequence.js:22-31 | an "orphanTokens" block is made only when there is none; otherwise only the last block changes, by one item |
| `Sequences.AppendItemsSpec` | processor/classes/sequence.js:22-24 | adding several items appends exactly them, in order |
| `Sequences.Only` | processor/classes/sequence.js:74-80 | the kept items are exactly the items that pass the filter |
| `Sequences.OnlyOfItems` | processor/classes/sequence.js:74-84 | `grafts()` and `scopes()` are the items of that kind in `items()` order |
| `Sequences.Reversed` | processor/classes/sequence.js:53 | the i-th element of the reversal is the i-th from the end |
| `Sequences.EndItems` | processor/classes/sequence.js:60 | one end-scope item per closed scope, with its label, in order |
| `Sequences.CloseItemsWithoutHooks` | processor/classes/sequence.js:59-64 | without `onEnd` hooks, closing adds exactly the end items |
| `Sequences.CloseMirrorsOpening` | processor/classes/sequence.js:52-57 | closing a sequence adds one end item per open scope, in the reverse of their opening order |
| `Sequences.Sequence.constructor` | processor/classes/sequence.js:11-16 | the sequence has its id and type, no blocks and no open scopes |
| `Sequences.Sequence.LastBlock` | processor/classes/sequence.js:26-31 | returns the last block, making an "orphanTokens" block first when there is none |
| `Sequences.Sequence.AddItem` | processor/classes/sequence.js:22-24 | the item goes at the end of the last block |
| `Sequences.Sequence.NewBlock` | processor/classes/sequence.js:33-38 | throws exactly for an empty label, changing nothing; otherwise one empty block is appended |
| `Sequences.Sequence.AddItems` | processor/classes/sequence.js:61-63 | a hook's items are added one after another |
| `Sequences.Sequence.CloseActiveScope` | processor/classes/sequence.js:59-64 | the end item goes on this sequence and the hook's items go on the parser's current sequence, whether or not they are the same |
| `Sequences.Sequence.CloseNext` | processor/classes/sequence.js:53-55 | one more scope of the reversed stack is closed |
| `Sequences.Sequence.Close` | processor/classes/sequence.js:52-57 | every open scope is closed, most recent first; its end item goes here and its hook items on the current sequence; the stack is then empty |
| `Sequences.HeaderDecodes` | processor/classes/sequence.js:129 | a header for a record shorter than 64 bytes gives back its length and kind |
| `Sequences.Framed` | processor/classes/sequence.js:125-129 | a record is its header over its whole length, followed by its body |
| `Sequences.TokenRecord` | processor/classes/sequence.js:123-130 | a token encodes exactly when its text is found in its subtype's category; otherwise that lookup's error |
| `Sequences.ScopeBitEnum` | processor/classes/sequence.js:148 | a component's enum is its "scopeBits" entry's enum, or that lookup's error |
| `Sequences.ScopeBitsSnoc` | processor/classes/sequence.js:147-149 | one more component found: its encoded enum follows the earlier ones |
| `Sequences.ScopeBitsFailAt` | processor/classes/sequence.js:147-149 | the first component not recorded decides the error |
| `Sequences.ScopeRecord` | processor/classes/sequence.js:142-151 | a scope encodes exactly when every component after the first is recorded; otherwise the first missing component's error |
| `Sequences.GraftRecord` | processor/classes/sequence.js:132-140 | a graft encodes exactly when both its type and its target id are found; the type is looked up first |
| `Sequences.ItemRecord` | processor/classes/sequence.js:91-111 | an unhandled token subtype throws; an encoded record is at least two bytes, with a header giving its length and kind |
| `Sequences.RecordsSnoc` | processor/classes/sequence.js:90-112 | one more item encoded: its record follows the earlier ones in the buffer |
| `Sequences.RecordsFailAt` | processor/classes/sequence.js:90-112 | the first item that cannot be encoded decides the block's error |
| `Sequences.FramedDecodes` | processor/classes/sequence.js:125-151 | a short record reads back as the kind, type byte and values written |
| `Sequences.ItemRecordDecodes` | processor/classes/sequence.js:123-151 | per kind, a token, graft or scope record reads back as its kind, its type byte and the enums looked up |
| `Sequences.WalkConcat` | processor/classes/sequence.js:90-112 | records whose headers give their lengths split apart again |
| `Sequences.ContentWalks` | processor/classes/sequence.js:89-112 | a block's content stream splits back into one record per item |
| `Sequences.PackBlockAsWritten` | processor/classes/sequence.js:113-118 | as written, a packed block has exactly the streams "c" and "bs" |
| `Sequences.PackBlock` | processor/classes/sequence.js:86-121 | the corrected packing, used only beside the as-written one: "c" holds the item records, "bs" the block scope record and "bg" the block grafts' records; it agrees with the as-written packing on the streams both have |
| `Sequences.Sequence.PushSuccinctToken` | processor/classes/sequence.js:123-130 | appends exactly `TokenRecord`, or throws its error with the buffer unchanged |
| `Sequences.Sequence.PushSuccinctGraft` | processor/classes/sequence.js:132-140 | appends exactly `GraftRecord`, or throws its error with the buffer unchanged |
| `Sequences.Sequence.PushSuccinctScope` | processor/classes/sequence.js:142-151 | appends exactly `ScopeRecord`; a failed component lookup leaves the placeholder and type byte behind |
| `Sequences.Sequence.PushScopeBits` | processor/classes/sequence.js:147-149 | appends the components' enums in order until the first one not recorded |
| `Sequences.Sequence.PushItem` | processor/classes/sequence.js:91-111 | the type switch appends exactly `ItemRecord` or throws its error |
| `Sequences.Sequence.PushItems` | processor/classes/sequence.js:90-112 | appends the items' records in order, stopping at the first that throws |
| `Sequences.Sequence.SuccinctifyBlock` | processor/classes/sequence.js:89-118 | one block packed as written: content records in "c", the block scope's record in "bs", and no block grafts stream |
| `Sequences.Sequence.SuccinctifyBlocks` | processor/classes/sequence.js:86-121 | one block packed as written per block, in order, or the first block's error |
| `Sequences.PackedPacksAsWritten` | processor/classes/sequence.js:86-121 | blocks that pack with their grafts' stream pack as written too, one packed block per block |
| `Parsers.FirstMatchFrom` | processor/classes/parser.js:126-135 | the first rule at or after k that matches, with none matching before it; none only when no later rule matches |
| `Parsers.FirstMatchIs` | processor/classes/parser.js:126-135 | a matching rule with no earlier match is the one picked |
| `Parsers.Opened` | processor/classes/parser.js:196-205 | the pushed scope carries the label computed from the lexeme and the rule's `endedBy`, and no hook unless the rule has one |
| `Parsers.OpenedAll` | processor/classes/parser.js:192-194 | one opened scope per scope spec, in order |
| `Parsers.BlockLabel` | processor/classes/parser.js:86 | a new block's label is "block/" + the tag name, so it is never empty and `newBlock` never throws here |
| `Parsers.Matched` | processor/classes/parser.js:150-152 | only scopes ended by the trigger label are closed |
| `Parsers.Unmatched` | processor/classes/parser.js:155-157 | only scopes not ended by the trigger label are kept |
| `Parsers.FilterPartition` | processor/classes/parser.js:149-158 | every open scope is either closed or kept, exactly once |
| `Parsers.UnmatchedKeepsOrder` | processor/classes/parser.js:155-157 | the kept scopes are every unmatched scope, in their original stack order |
| `Parsers.NoneEnded` | processor/classes/parser.js:149-158 | with no scope ended by the label, nothing is closed and the stack is unchanged |
| `Parsers.Lookup` | processor/classes/parser.js:170 | an arity is found exactly for a listed type name |
| `Parsers.StandardTypesDistinct` | processor/classes/parser.js:16-31 | the base and inline sequence types have distinct names |
| `Parsers.MakeSequences` | processor/classes/parser.js:33-50 | succeeds exactly when every arity is "1", "?" or "*", otherwise the first bad arity's error; "1" gets a fresh empty sequence of that type, "?" null, "*" an empty list |
| `Parsers.FreshSlotsFit` | processor/classes/parser.js:33-50 | freshly made slots have the shape their arity calls for |
| `Parsers.SlotsFitUpdate` | processor/classes/parser.js:173-185 | giving one type a new slot of its arity's shape keeps every slot well shaped |
| `Parsers.SequencesOf` | processor/classes/parser.js:106-124 | fails exactly on an unknown arity; otherwise lists every sequence held in any slot |
| `Parsers.SequencesOfPrefixErr` | processor/classes/parser.js:119-120 | a type with an unknown arity decides the error of the whole listing |
| `Parsers.SequencesOfIn` | processor/classes/parser.js:106-124 | every sequence listed comes from a slot |
| `Parsers.KeptItems` | processor/classes/parser.js:84-101 | a rule that keeps the sequence adds, in order: the `before` items; for a new block, the end items of the scopes "endBlock" closes; then the `during` and `after` items |
| `Parsers.Parser.constructor` | processor/classes/parser.js:8-14 | the standard types, one fresh slot per type, and main as the current sequence, empty |
| `Parsers.Parser.MainSequence` | processor/classes/parser.js:54 | with the standard types, main is a single sequence |
| `Parsers.Parser.BaseSlot` | processor/classes/parser.js:170-186 | a base type's slot has the shape of the arity it is listed with |
| `Parsers.Parser.NewSequence` | processor/classes/parser.js:177-182 | a fresh empty sequence of that type with the next id; the counter advances by one |
| `Parsers.Parser.ChangeBaseSequence` | processor/classes/parser.js:167-190 | records the new base type first. Then: "1" switches to its sequence; "?" reuses it or makes it; "*" makes a fresh one, listed unless temporary; any other arity throws with the arity text and changes nothing else |
| `Parsers.Parser.UseOptional` | processor/classes/parser.js:175-180 | the "?" case: the existing sequence, or a new one stored in the slot |
| `Parsers.Parser.UseFresh` | processor/classes/parser.js:181-186 | the "*" case: a fresh sequence, appended to the list unless `useTempSequence` |
| `Parsers.Parser.OpenNewScope` | processor/classes/parser.js:196-205 | one scope pushed on the current stack; the blocks are untouched |
| `Parsers.Parser.OpenNewScopes` | processor/classes/parser.js:192-194 | the rule's scopes are pushed in order; a rule without `newScopes` throws with the stack unchanged |
| `Parsers.Parser.AddToken` | processor/classes/parser.js:207-209 | the token goes at the end of the current sequence |
| `Parsers.Parser.AddScope` | processor/classes/parser.js:211-213 | the scope item goes at the end of the current sequence |
| `Parsers.Parser.RunHook` | processor/classes/parser.js:73-75 | a hook's items are appended to the current sequence |
| `Parsers.Parser.CloseActiveScope` | processor/classes/parser.js:160-165 | an end item for the label, then the hook's items |
| `Parsers.Parser.CloseActiveScopes` | processor/classes/parser.js:149-158 | closes exactly the matched scopes in stack order, and leaves exactly the unmatched ones on the stack |
| `Parsers.Parser.SpecMatchesItem` | processor/classes/parser.js:137-147 | true exactly when some context's subclass matches and, if it names an accessor, the lexeme's field is among its values |
| `Parsers.Parser.SpecForItem` | processor/classes/parser.js:126-135 | the first matching rule in table order; none exactly when no rule matches |
| `Parsers.Parser.StartBlock` | processor/classes/parser.js:84-92 | closes what "endBlock" ends, appends an empty block with the tag's label, and pushes the block scope |
| `Parsers.Parser.BlockAndDuring` | processor/classes/parser.js:84-95 | the current sequence's blocks become `StartedBlocks` (for a new block, the end items of what "endBlock" closes and the new block; then the `during` items) and its stack `KeptStack` |
| `Parsers.KeptIsStarted` | processor/classes/parser.js:73-101 | a rule that keeps the sequence is the `before` items, then the same block and `during` steps a sequence-changing rule takes on its new sequence, then the `after` items |
| `Parsers.Parser.ChangeSequence` | processor/classes/parser.js:76-98 | closes what "baseSequenceChange" ends on the old sequence, then switches sequence as `changeBaseSequence` does for each arity (`SwitchedSequences`: "1" and an existing "?" reuse the type's sequence, a first "?" makes and stores one, "*" makes one and lists it unless temporary), or throws. On success the sequence switched to, whether it is the old one after the close, a new empty one or another existing one as it was, gets the `StartedBlocks` blocks and the stack `KeptStack` plus the rule's new scopes |
| `Parsers.Parser.StartOnSequence` | processor/classes/parser.js:84-98 | on the sequence switched to, the blocks become `StartedBlocks`; the block scope (if any) and then the rule's new scopes are pushed; no `newScopes` throws |
| `Parsers.Parser.ApplyRule` | processor/classes/parser.js:73-101 | a rule that keeps the sequence cannot throw and changes only the current sequence's blocks and stack, as `KeptBlocks` and `KeptStack` say. A rule that changes it throws exactly for an unknown arity or a missing `newScopes`, with that error. It switches sequence by arity as `SwitchedSequences` says. On success the old sequence loses the scopes "baseSequenceChange" ends (after taking the `before` items), and the sequence switched to, whichever it is, gets the `StartedBlocks` blocks followed by the `after` items, and the stack `KeptStack` plus the rule's new scopes. No other sequence is touched |
| `Parsers.Parser.ParseLexeme` | processor/classes/parser.js:71-102 | a lexeme no rule matches changes nothing. A matched rule that keeps the base sequence cannot throw and changes the current blocks and stack as `KeptBlocks` and `KeptStack` say. A rule that changes it records the new base type, throws exactly for an unknown arity or a missing `newScopes`, switches sequence by arity as `SwitchedSequences` says, closes the "baseSequenceChange" scopes on the old sequence, and gives the sequence switched to the `StartedBlocks` blocks followed by the `after` items and the stack `KeptStack` plus the new scopes, whether that sequence is new, reused or the old one. Headers and other sequences are untouched |
| `Parsers.Parser.ParseFirstPass` | processor/classes/parser.js:68-104 | the parser stays well formed through the loop over lexemes; when no lexeme matches a rule, nothing changes |
| `Parsers.Parser.AllSequences` | processor/classes/parser.js:106-124 | the loop lists exactly `SequencesOf` the types and slots |
| `Parsers.Parser.CloseAll` | processor/classes/parser.js:62-64 | every listed sequence ends with an empty stack; each listed sequence other than the current one gains exactly the end items of its open scopes, most recent first; unlisted sequences are untouched |
| `Parsers.Parser.CloseOne` | processor/classes/parser.js:63 | one sequence is closed: its stack is emptied, its end items appended unless it is the current sequence, and other sequences are untouched |
| `Parsers.Parser.Parse` | processor/classes/parser.js:60-66 | after a successful parse every sequence has an empty scope stack, and main has at least one block (the `lastBlock()` call makes one when there is none) |
| `Parsers.Parser.MainIn` | processor/classes/parser.js:54 | with the standard types, main is one of the parser's sequences |
| `Passes.ScopeBitPairs` | model/document.js:79-81 | one "scopeBits" pair per later component, in order |
| `Passes.RecordPairs` | model/document.js:65-85 | recording keeps the categories and their well-formedness |
| `Passes.RecordPairsOkIff` | model/document.js:65-85 | recording pairs throws exactly when one of their categories is missing |
| `Passes.RecordPairsUntouched` | model/document.js:65-85 | categories no pair names are untouched |
| `Passes.RecordItem` | model/document.js:67-82 | a start scope with the wrong component count throws before recording anything; otherwise its pairs are recorded |
| `Passes.ScopeRecording` | model/document.js:74-81 | a start scope records iff its component count matches; an end scope records nothing |
| `Passes.RecordItemOnlyItsCategory` | model/document.js:67-82 | recording an item touches only the categories of its pairs |
| `Passes.RecordItemsKeys` | model/document.js:65-85 | recording items keeps categories and well-formedness |
| `Passes.RecordSequencesKeys` | model/document.js:55-58 | recording sequences keeps categories and well-formedness |
| `Passes.Pass1` | model/document.js:52-63 | pass 1 succeeds exactly when every sequence records and the doc set has a wordLike table; it keeps categories and well-formedness |
| `Passes.RecordPairsKeeps` | model/document.js:65-85 | recording never loses an entry |
| `Passes.RecordValueFinds` | processor/classes/doc_set.js:42-54 | after one recording, that value and everything found before are found |
| `Passes.RecordPairsFinds` | model/document.js:79-81 | every pair recorded is found afterwards |
| `Passes.RecordItemKeeps` | model/document.js:67-82 | recording an item never loses an entry |
| `Passes.RecordItemsKeeps` | model/document.js:66-84 | recording items never loses an entry |
| `Passes.RecordItemsFinds` | model/document.js:66-84 | every pair of every recorded item is found afterwards |
| `Passes.RecordSequencesFinds` | model/document.js:55-58 | every sequence id and every item pair is found after the record loop |
| `Passes.LastSequenceKeeps` | model/document.js:56-57 | recording one more sequence keeps what was found and finds its id |
| `Passes.LastSequenceFinds` | model/document.js:56-57 | recording a sequence finds every pair of its items |
| `Passes.Pass1Finds` | model/document.js:52-63 | whatever pass 1 recorded is still found after the optional sort |
| `Passes.EncodesIffFound` | processor/classes/sequence.js:91-151 | an item encodes exactly when its kind is handled and every value it looks up is found |
| `Passes.RecordsOfIffFound` | processor/classes/sequence.js:90-112 | a list of items encodes exactly when each item does |
| `Passes.PackBlockIffFound` | processor/classes/sequence.js:86-121 | with the corrected packing, a block packs exactly when its items, block scope and block grafts all encode |
| `Passes.PackBlocksIffFound` | processor/classes/sequence.js:86-121 | with the corrected packing, a sequence packs exactly when each of its blocks does |
| `Passes.PackBlockAsWrittenIffFound` | processor/classes/sequence.js:86-121 | as written, a block packs exactly when its items and block scope encode |
| `Passes.PackBlocksAsWrittenIffFound` | processor/classes/sequence.js:86-121 | as written, a sequence packs exactly when each of its blocks does |
| `Passes.LookupsRecorded` | model/document.js:65-85 | every value a covered item looks up in pass 2 was recorded in pass 1 |
| `Passes.LookupRecorded` | model/document.js:65-85 | one lookup of a covered item was recorded |
| `Passes.ScopeLookupRecorded` | model/document.js:74-81 | a scope's component lookups were recorded by its start scope |
| `Passes.Totality` | model/document.js:52-99 | after a successful pass 1, every sequence whose items are all covered packs in pass 2, as written and with the corrected packing |
| `Passes.RecordItemOkIff` | model/document.js:67-82 | with every category present, an item records exactly when it is not a start scope with the wrong component count |
| `Passes.RecordItemsOkIff` | model/document.js:66-84 | with every category present, items record exactly when all their start scopes fit |
| `Passes.RecordSequencesOkIff` | model/document.js:55-58 | with every category present, pass 1's loop throws exactly when some start scope does not fit |
| `Passes.RecordPairsPrefixErr` | model/document.js:79-81 | once a pair has thrown, later pairs change nothing |
| `Passes.RecordItemsPrefixErr` | model/document.js:66-84 | once an item has thrown, later items change nothing |
| `Passes.RecordSequencesPrefixErr` | model/document.js:55-58 | once a sequence has thrown, later sequences change nothing |
| `Passes.RecordItemsConcat` | model/document.js:66-84 | recording two lists is recording the first, then the second |
| `Passes.RecordScopeBits` | model/document.js:79-81 | the doc set's pre-enums become exactly the result of recording the scope components, or that error |
| `Passes.RecordItemInto` | model/document.js:67-82 | the pre-enums become exactly `RecordItem`'s result, or that error |
| `Passes.RecordItemsInto` | model/document.js:67-83 | the pre-enums become exactly `RecordItems`'s result, or that error |
| `Passes.RecordBlocksInto` | model/document.js:65-85 | the pre-enums become exactly the result of recording every block's items, scope and grafts, or that error |
| `Passes.RecordSequenceInto` | model/document.js:56-57 | the sequence's id, then its blocks, are recorded into the doc set |
| `Passes.RecordSequencesInto` | model/document.js:55-58 | the pre-enums become exactly `RecordSequences`'s result, or that error; enums and documents are untouched |
| `Serialization.SerializeBlock` | model/document.js:133-139 | succeeds exactly when every named stream is present, giving those streams; otherwise the first missing stream's error |
| `Serialization.SerializeBlocks` | model/document.js:128 | every block serializes, in order, or the first failing block's error |
| `Serialization.SerializeBlockExact` | model/document.js:133-139 | a block with every named stream serializes to exactly those streams |
| `Serialization.SerializeEntries` | model/document.js:119-121 | entries are visited in insertion order; the result has every key, or the first failing entry's error |
| `LegacyDocuments.ContentFormat` | model/document.js:15-24 | "usfm" and "usx" are accepted; anything else is the unknown-content-type error |
| `LegacyDocuments.Snaps` | model/document.js:55 | one snapshot per sequence, in order |
| `LegacyDocuments.SnapsOf` | model/document.js:55 | the snapshots exist exactly when the sequences can be listed |
| `LegacyDocuments.StoreSequencesOkIff` | model/document.js:90-97 | pass 2 completes exactly when every sequence's blocks pack |
| `LegacyDocuments.StoreSequencesKeys` | model/document.js:90-97 | the stored ids are the earlier ones plus every sequence's id |
| `LegacyDocuments.StoreSequencesLast` | model/document.js:90-97 | an id holds the record of the last sequence with that id |
| `LegacyDocuments.StoreSequencesKeeps` | model/document.js:90-97 | an id no sequence has keeps its earlier record |
| `LegacyDocuments.Pass2Total` | model/document.js:41-99 | when pass 1 succeeds and every item is covered, pass 2 cannot throw, as written and with the corrected packing |
| `LegacyDocuments.SerializeSequence` | model/document.js:125-131 | the type and the serialized blocks, or the first block's error |
| `LegacyDocuments.PackedSerializes` | model/document.js:133-139 | every block packed by the corrected packing serializes |
| `LegacyDocuments.AsWrittenDoesNotSerialize` | model/document.js:136 | every block packed as written fails to serialize, on the missing "bg" stream |
| `LegacyDocuments.StoredSerializes` | model/document.js:125-139 | with the corrected packing, a stored sequence serializes |
| `LegacyDocuments.StoreSequencesSerialize` | model/document.js:87-139 | with the corrected packing, pass 2 keeps every stored sequence serializable |
| `LegacyDocuments.StoredAsWritten` | model/document.js:90-139 | as written, a stored sequence keeps one packed block per block, and serializes exactly when it has no blocks; otherwise it throws at the "bg" stream |
| `LegacyDocuments.StoreSequencesAsWritten` | model/document.js:87-139 | as written, pass 2 keeps every stored sequence serializable exactly when it has no blocks |
| `LegacyDocuments.Document.constructor` | model/document.js:9-14 | the document has its ids, no headers, no main id and no sequences |
| `LegacyDocuments.Document.SerializeSuccinct` | model/document.js:115-123 | succeeds exactly when every sequence serializes, giving headers, main id and one entry per sequence; otherwise the first failing sequence's error in insertion order |
| `LegacyDocuments.Document.SuccinctPass1` | model/document.js:52-63 | the pre-enums are rebuilt from the enums, then become exactly `Pass1`'s result (or its error), and the enums are rebuilt from them |
| `LegacyDocuments.Document.StoreSequencesOf` | model/document.js:90-97 | the stored sequences become exactly `StoreSequences`'s result with the as-written packing, or its error |
| `LegacyDocuments.Document.SuccinctPass2` | model/document.js:87-99 | the main id is set; the sequences are packed as written and stored as `StoreSequences` says; the pre-enums are emptied only on success |
| `LegacyDocuments.Document.SuccinctPasses` | model/document.js:47-49 | on success, pass 1's pre-enums build the enums and pass 2 stores, packing as written, with them |
| `LegacyDocuments.Document.ParseLexed` | model/document.js:43-44 | a fresh standard parser has parsed the lexemes; success means the sequences can be listed |
| `LegacyDocuments.Document.ProcessLexed` | model/document.js:41-50 | parse, headers, pass 1 and pass 2 (packing as written) in order, with the combined guarantee of `SuccinctPasses` |
| `LegacyDocuments.NewDocument` | model/document.js:8-25 | an unknown content type throws without touching the doc set; a document made has its ids, main id and the parser's headers; the doc set's enums are built from pass 1 over the parsed sequences (with the pre-enums first rebuilt from the old enums), its pre-enums end empty, and the stored sequences are exactly what pass 2 packs from the parsed sequences; each stored sequence serializes exactly when it has no blocks, any other throwing at the missing "bg" stream |
| `Documents.DocumentKind` | src/model/document.js:18-41 | "" leaves the document uninitialised; "usfm", "usx" and "lexicon" dispatch; anything else is the unknown-content-type error |
| `Documents.Snapshots` | src/model/document.js:92 | one snapshot per parsed sequence, with its id, type and blocks |
| `Documents.StoreSequencesOkIff` | src/model/document.js:165-173 | pass 2 completes exactly when every sequence's blocks pack |
| `Documents.StoreSequencesKeys` | src/model/document.js:165-173 | the stored ids are the earlier ones plus every sequence's id |
| `Documents.StoreSequencesLast` | src/model/document.js:165-173 | an id holds the record, with tags, of the last sequence with that id |
| `Documents.StoreSequencesKeeps` | src/model/document.js:165-173 | an id no sequence has keeps its earlier record |
| `Documents.RerecordStreamsItems` | src/model/document.js:131-133 | walking present streams records their decoded items in stream order |
| `Documents.RerecordBlockItems` | src/model/document.js:130-134 | a block with all five streams records the decoded items of bs, bg, c, is, os in turn |
| `Documents.RerecordBlockMissing` | src/model/document.js:131-132 | a block missing any of the five streams cannot be rerecorded |
| `Documents.ClassificationsAgree` | src/model/document.js:106-109 | the record pass and the rerecord pass file a token the same way exactly when it is "wordLike" or a type the notWordLike list names |
| `Documents.NoBreakSpaceOnlyRerecorded` | src/model/document.js:139-144 | a noBreakSpace token is recorded only by the rerecord pass, under "notWordLike" |
| `Documents.SerializeSequence` | src/model/document.js:214-230 | succeeds exactly when every block has all five streams, giving type, tags and those streams |
| `Documents.Document.constructor` | src/model/document.js:14-16 | the document has its doc set id and nothing else; no id marks it uninitialised, and serializing it then throws (`Documents.Document.SerializeSuccinct`) |
| `Documents.Document.SuccinctPass1` | src/model/document.js:89-101 | the pre-enums become exactly `Pass1`'s result (with no rebuild first), and on success the enums are rebuilt from them |
| `Documents.Document.SuccinctPass2` | src/model/document.js:161-174 | the main id is set and the sequences are stored as `StoreSequences` says |
| `Documents.Document.Process` | src/model/document.js:73-87 | headers, then pass 1, then pass 2, with both passes' results on success |
| `Documents.Document.RerecordBlockPreEnums` | src/model/document.js:137-159 | the decoded items of one stream are recorded, tokens as wordLike or otherwise notWordLike |
| `Documents.Document.RerecordStream` | src/model/document.js:131-132 | one stream of a block, as `StreamRerecorder` says: a stream the block does not have throws `MissingStream` with its key; otherwise its decoded items are recorded; the enums and document list are untouched |
| `Documents.Document.RerecordStreams` | src/model/document.js:131-133 | the five streams of one block are rerecorded in order, as `RerecordBlock` says |
| `Documents.Document.RerecordPreEnums` | src/model/document.js:127-135 | the sequence id, then every block's streams, as `Rerecord` says |
| `Documents.Document.SerializeSuccinct` | src/model/document.js:202-212 | an uninitialised document throws when its missing tags are copied; otherwise headers, main id, tags and one entry per sequence, or the first failing sequence's error |
| `Documents.NewDocument` | src/model/document.js:14-43 | no content type gives an uninitialised document; an unknown one throws; otherwise the parser's headers, main id, tags and sequence ids; the doc set's pre-enums become pass 1's result over the parsed sequences and its enums are built from them; the stored sequences are exactly what pass 2 packs from the parsed sequences against those pre-enums |
| `Registry.Listed` | index.js:18-20 | the values in the order their keys are listed |
| `Registry.ListedAll` | index.js:18-20 | with each key listed once, every value appears and the count is the map's size |
| `Registry.RegisterConsistent` | index.js:57-69 | registering a new doc set under an unused pair and id keeps the two maps in agreement |
| `Registry.DrawNext` | index.js:62 | the next id is unused, and so are the ones after it |
| `Registry.IndexedRegister` | index.js:57-69 | registering a new doc set keeps the registry's maps and key lists in agreement |
| `Registry.IndexedAddDocument` | index.js:52-55 | storing a new document keeps the registry's maps and key lists in agreement |
| `Registry.ProsKomma.constructor` | index.js:8-12 | no documents and no doc sets |
| `Registry.ProsKomma.DocSetList` | index.js:18-20 | every doc set once, in insertion order, and nothing else |
| `Registry.ProsKomma.NDocSets` | index.js:26-28 | the number of doc sets |
| `Registry.ProsKomma.DocumentList` | index.js:34-36 | every document once, in insertion order, and nothing else |
| `Registry.ProsKomma.GenerateId` | index.js:62 | the next counter id, used by no doc set or document |
| `Registry.ProsKomma.FindOrMakeDocSet` | index.js:57-69 | returns the doc set already stored under the pair, changing nothing; otherwise a fresh empty doc set is stored under the pair and its id, last in order; other pairs and ids keep their doc sets, and no doc set object changes |
| `Registry.ProsKomma.MakeDocSet` | index.js:61-63 | a fresh doc set with the pair, a new id and empty tables |
| `Registry.ProsKomma.StoreDocSet` | index.js:62-67 | the doc set is stored under its pair and its id, last in order |
| `Registry.ProsKomma.AddDocument` | index.js:52-55 | the document is stored under its id, then its id is appended to the doc set's list; an unknown doc set throws after the first step |
| `Registry.ProsKomma.BuildDocument` | index.js:44 | an unknown content type throws; a document made has the given ids |
| `Registry.ProsKomma.ImportDocument` | index.js:42-50 | the pair's doc set is found or made; an imported document is new, stored under its id and appended to that doc set's list; a throw stores no document; every other doc set is still stored under its id and is unchanged |
| `Registry.ProsKomma.ImportInto` | index.js:44-45 | the document is built against the doc set under the id drawn for it and, when built, stored under that id and appended to the doc set's list; a failed build stores nothing; the doc set maps are untouched and so is every other doc set |
| `Registry.ProsKomma.DrawAndImport` | index.js:44-45 | a fresh document id is drawn, new to the registry, and the document is built and registered under it in the given doc set, as `ImportInto` states; every other doc set is unchanged |
| `Registry.DistinctPairs` | index.js:57-69 | distinct pairs name distinct doc sets with distinct ids |

## Left out

- Lexers (`lexifyUsfm`, `lexifyUsx`, `parseUsfm`, `parseUsx`, `parseLexicon`) are parameters: a function from content to lexemes or to a parsed document.
- `parser.tidy()` and `parser.filter()` are not part of this model. They are not in the modelled parser file, and the passes run on the sequences as parsed.
- The parser of src/model/document.js and its `makeParser` options are not part of this model. Parsing there is a parameter returning headers, a main id and sequences with tags.
- The `console.log` of `parse` (parser.js:65) and the `describe`, `plainText`, `trim`, `reorderSpanWithAtts`, `makeNoteGrafts`, `filterGrafts` and `filterScopes` members are printing or tidying, and are left out.
- `buildEnums` is not shown in the modelled files. It is a parameter `build` from pre-enums to counted-string buffers; its only assumption is that each buffer is a well-formed walk of counted strings.
- The byte layout of `lib/byte_array` (`pushNByte`, `countedString`, `base64`) is not part of this model. Variable-length integers are written low 7 bits first, with the top bit set on the last byte. Counted strings are read one byte per character. Serialized streams hold bytes, not base64 text.
- `generateId` is a counter rendered as "id" followed by a decimal number. Random ids are not modelled; only uniqueness, and that an id is never an array index, are relied on.
- Hooks (`before`, `during`, `after`, `onEnd`) are functions from the lexeme to the items they add to the current sequence. Hooks that change other parser state are not modelled.
- `openNewScope` adds no start-scope item (parser.js:196-205), so the model cannot prove that start and end items balance. Only the end side is stated (`Sequences.CloseMirrorsOpening`).
- Scope items made with "close" (parser.js:161) and "end" (sequence.js:60) are both end-scope items; items.js is not part of this model.
- Registry.ProsKomma.FindOrMakeDocSet: the third branch (index.js:65-67) cannot run when the registry's invariant holds, so it is folded into the creation branch.
- `nDocuments` (index.js:30-32) reads `this.documentList.length`, the arity of a method, which is always 0. It is not modelled as a member; `Registry.ProsKomma.DocumentList` gives the intended count.
- `docSetById`, `documentById`, `packageVersion` and `gqlQuery` (GraphQL) are lookups or I/O outside the importer.
- `unsuccinctifySequence` and `unsuccinctifyBlock` in model/document.js, and the decoder `unsuccinctifyItems` used by the rerecord pass, are not part of this model; the decoder is a parameter.
- `rewriteSequenceBlocks` and `rewriteSequenceBlock` (src/model/document.js:176-200) do nothing but decode, so they are left out.
- `validateTags`, `addTag` and `removeTag` come from a library that is not part of this model. Document tags are a set; sequence tags are kept as given.
- A falsy content type (`undefined`, `null`, `""`) is modelled as the empty string.
- DocSets.DocSet.EnumForCategoryValue returns the whole entry, as doc_set.js:70 does. The encoder is modelled as writing the entry's `enum` field.
- The state left behind after a throw partway through a pass is stated only where the methods say it (the pre-enums recorded before the throw). The registry's partial state after a throw in the document constructor is not tracked beyond "no document stored".
- Parsers.Parser.ParseFirstPass: states validity and the case where no lexeme matches, not the composed effect of the whole loop over lexemes; one lexeme's effect on the sequences map, the old and the new current sequence is what `Parsers.Parser.ParseLexeme` states.
- Object key order is modelled by explicit key lists in creation order. `Object.entries` of a pre-enum goes through `ObjectKeys.OwnKeys`, which lists array-index keys first. Maps keyed by ids (`docSets`, `documents`, sequences) are listed in creation order, which `Ids.IdIsNotArrayIndex` and `ObjectKeys.OwnKeysWithoutIndices` justify.
- DocSets.RecordValue, DocSets.EnumFor, DocSets.DocSet.RecordPreEnum, DocSets.DocSet.EnumForCategoryValue: JavaScript's `in` also finds names inherited from `Object.prototype` ("constructor", "toString", "__proto__" and the like); the model treats such a category or value as absent.
- Registry.ProsKomma.FindOrMakeDocSet: likewise, a language and abbreviation whose joined key is an inherited property name is treated as absent.
- Parsers.Parser.CloseAll: the current sequence's blocks after closing (the end items plus the `onEnd` hook items of other sequences' scopes) are not stated, only its empty stack.
- Parsers.Parser.Parse: states the empty stacks and main's block, not the blocks relative to the first pass.
- model/document.js reaches the parser through `../parser`, a file that is not part of this model; it is taken to pack blocks as processor/classes/sequence.js does.
- The src/model/document.js `succinctPass2` does not empty the pre-enums (unlike model/document.js:98), and the model keeps that difference.

## Findings

| source | as written | input that shows it | evidently intended | confidence | as-written member | corrected member |
|---|---|---|---|---|---|---|
| model/document.js:133-139 | `succinctifyBlocks` (processor/classes/sequence.js:113-118) packs each block as `{c, bs}` only, yet `serializeSuccinctBlock` reads `blockOb.bg.base64()`, which throws a TypeError. This assumes the `../parser` that model/document.js loads packs as processor/classes/sequence.js does | a document with at least one block whose items encode, e.g. a main sequence with one block holding one recorded word | the packed block also carries the block grafts' stream `bg`, as its reader expects | not executed | `LegacyDocuments.AsWrittenDoesNotSerialize` | `LegacyDocuments.PackedSerializes` |
