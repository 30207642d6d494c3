/** index.js: the `ProsKomma` registry. Doc sets are found by language and
    abbreviation in a two-level map and by id in a flat map; documents are
    found by id. The JavaScript objects' insertion order, which
    `Object.values` follows, is kept as a list of keys beside each flat
    map. `generateId` is the counter of the Ids module, shared by doc sets
    and documents. */
module Registry {
  import opened Wrappers
  import opened Ids
  import opened ByteArrays
  import opened Defs
  import opened Items
  import opened ObjectKeys
  import opened PreEnums
  import opened DocSets
  import opened Parsers
  import opened LegacyDocuments

  /** A list whose entries are distinct has as many entries as elements. */
  lemma {:induction false} DistinctCount(s: seq<string>)
    requires Distinct(s)
    ensures |(set x | x in s)| == |s|
  {
    if s != [] {
      var init := s[..|s| - 1];
      var last := s[|s| - 1];
      assert Distinct(init);
      DistinctCount(init);
      forall i | 0 <= i < |init|
        ensures init[i] != last
      {
        assert init[i] == s[i];
      }
      assert s == init + [last];
      assert (set x | x in s) == (set x | x in init) + {last};
    }
  }

  /** Each doc set in the two-level map is stored under its own language
      and abbreviation and, under its own id, in the flat map; each doc
      set of the flat map is under its own id and reachable by its
      language and abbreviation. */
  ghost predicate Consistent(byLang: map<string, map<string, DocSet>>, byId: map<Id, DocSet>)
  {
    && (forall lang, abbr :: lang in byLang && abbr in byLang[lang] ==>
          var d := byLang[lang][abbr];
          d.id in byId && byId[d.id] == d && d.lang == lang && d.abbr == abbr)
    && (forall id :: id in byId ==>
          var d := byId[id];
          d.id == id && d.lang in byLang && d.abbr in byLang[d.lang] && byLang[d.lang][d.abbr] == d)
  }

  /** `order` lists the keys of `m` once each: the insertion order of a
      JavaScript object. */
  ghost predicate KeyOrder<T>(m: map<Id, T>, order: seq<Id>)
  {
    Distinct(order) && forall id :: id in m <==> id in order
  }

  /** The values of `m`, in the order `order` lists their keys. */
  function Listed<T>(m: map<Id, T>, order: seq<Id>): (r: seq<T>)
    requires forall i :: 0 <= i < |order| ==> order[i] in m
    ensures |r| == |order| && forall i :: 0 <= i < |order| ==> r[i] == m[order[i]]
  {
    seq(|order|, i requires 0 <= i < |order| => m[order[i]])
  }

  /** Listed in an order that has every key once, every value appears,
      and there are as many as there are keys. */
  lemma ListedAll<T>(m: map<Id, T>, order: seq<Id>)
    requires KeyOrder(m, order)
    ensures forall id :: id in m ==> m[id] in Listed(m, order)
    ensures |m| == |order|
  {
    var r := Listed(m, order);
    forall id | id in m
      ensures m[id] in r
    {
      var i :| 0 <= i < |order| && order[i] == id;
      assert r[i] == m[id];
    }
    DistinctCount(order);
    assert m.Keys == set x | x in order;
  }

  /** No id the generator has still to hand out is in `ids`. */
  ghost predicate Undrawn(next: nat, ids: set<Id>)
  {
    forall k: nat :: next <= k ==> IdOf(k) !in ids
  }

  /** Every entry of `m` is still in `m'`, with the same value. */
  ghost predicate KeepsEntries<T>(m: map<Id, T>, m': map<Id, T>)
  {
    forall id :: id in m ==> id in m' && m'[id] == m[id]
  }

  /** Adding a new key keeps every entry. */
  lemma AddKeepsEntries<T>(m: map<Id, T>, id: Id, v: T)
    requires id !in m
    ensures KeepsEntries(m, m[id := v])
  {
  }

  /** The doc sets of one language, none when the language is new. */
  function Abbrs(byLang: map<string, map<string, DocSet>>, lang: string): map<string, DocSet>
  {
    if lang in byLang then byLang[lang] else map[]
  }

  /** Adding a doc set under a new pair keeps every other pair's doc set. */
  lemma AbbrsKeep(byLang: map<string, map<string, DocSet>>, lang: string, abbr: string, d: DocSet)
    requires !(lang in byLang && abbr in byLang[lang])
    ensures var byLang' := byLang[lang := Abbrs(byLang, lang)[abbr := d]];
            forall l, a :: l in byLang && a in byLang[l] ==> l in byLang' && a in byLang'[l] && byLang'[l][a] == byLang[l][a]
  {
  }

  /** Registering a new doc set under an unused pair and an unused id keeps
      the two maps consistent. */
  lemma RegisterConsistent(byLang: map<string, map<string, DocSet>>, byId: map<Id, DocSet>, d: DocSet)
    requires Consistent(byLang, byId)
    requires !(d.lang in byLang && d.abbr in byLang[d.lang]) && d.id !in byId
    ensures Consistent(byLang[d.lang := Abbrs(byLang, d.lang)[d.abbr := d]], byId[d.id := d])
  {
    var byLang': map<string, map<string, DocSet>> := byLang[d.lang := Abbrs(byLang, d.lang)[d.abbr := d]];
    var byId': map<Id, DocSet> := byId[d.id := d];
    forall lang: string, abbr: string | lang in byLang' && abbr in byLang'[lang]
      ensures byLang'[lang][abbr].id in byId' && byId'[byLang'[lang][abbr].id] == byLang'[lang][abbr]
      ensures byLang'[lang][abbr].lang == lang && byLang'[lang][abbr].abbr == abbr
    {
      if lang != d.lang || abbr != d.abbr {
        assert lang in byLang && abbr in byLang[lang] && byLang'[lang][abbr] == byLang[lang][abbr];
      }
    }
  }

  /** Appending a new key keeps the key order. */
  lemma AppendKeyOrder<T>(m: map<Id, T>, order: seq<Id>, id: Id, v: T)
    requires KeyOrder(m, order) && id !in m
    ensures KeyOrder(m[id := v], order + [id])
  {
    assert forall i :: 0 <= i < |order| ==> (order + [id])[i] == order[i];
  }

  /** The next id is unused, and so are the ones after it once it is used. */
  lemma DrawNext(next: nat, ids: set<Id>)
    requires Undrawn(next, ids)
    ensures IdOf(next) !in ids && Undrawn(next + 1, ids + {IdOf(next)})
  {
    forall k: nat | next + 1 <= k
      ensures IdOf(k) !in ids + {IdOf(next)}
    {
      if IdOf(k) == IdOf(next) {
        IdOfInjective(k, next);
      }
    }
  }

  /** The registry's maps and key lists agree: the doc set maps are
      consistent, each document is under its own id, each key list holds
      its map's keys once, and no id still to be drawn is in use. */
  ghost predicate Indexed(byLang: map<string, map<string, DocSet>>, byId: map<Id, DocSet>, setOrder: seq<Id>,
                          docs: map<Id, Document>, docOrder: seq<Id>, next: nat)
  {
    && Consistent(byLang, byId)
    && (forall id :: id in docs ==> docs[id].id == id)
    && KeyOrder(byId, setOrder) && KeyOrder(docs, docOrder)
    && Undrawn(next, byId.Keys) && Undrawn(next, docs.Keys)
  }

  /** Drawing the next id keeps the maps in agreement; the id is unused
      and never drawn again. */
  lemma IndexedDraw(byLang: map<string, map<string, DocSet>>, byId: map<Id, DocSet>, setOrder: seq<Id>,
                    docs: map<Id, Document>, docOrder: seq<Id>, next: nat)
    requires Indexed(byLang, byId, setOrder, docs, docOrder, next)
    ensures IdOf(next) !in byId && IdOf(next) !in docs && Undrawn(next + 1, {IdOf(next)})
    ensures Indexed(byLang, byId, setOrder, docs, docOrder, next + 1)
  {
    DrawNext(next, byId.Keys);
    DrawNext(next, docs.Keys);
  }

  /** Registering a new doc set under an unused pair and an unused id keeps
      the maps in agreement. */
  lemma IndexedRegister(byLang: map<string, map<string, DocSet>>, byId: map<Id, DocSet>, setOrder: seq<Id>,
                        docs: map<Id, Document>, docOrder: seq<Id>, next: nat, d: DocSet)
    requires Indexed(byLang, byId, setOrder, docs, docOrder, next)
    requires !(d.lang in byLang && d.abbr in byLang[d.lang]) && d.id !in byId && Undrawn(next, {d.id})
    ensures Indexed(byLang[d.lang := Abbrs(byLang, d.lang)[d.abbr := d]], byId[d.id := d], setOrder + [d.id],
                    docs, docOrder, next)
  {
    RegisterConsistent(byLang, byId, d);
    AppendKeyOrder(byId, setOrder, d.id, d);
    assert byId[d.id := d].Keys == byId.Keys + {d.id};
  }

  /** Storing a document under a new id that is not to be drawn again
      keeps the maps in agreement. */
  lemma IndexedAddDocument(byLang: map<string, map<string, DocSet>>, byId: map<Id, DocSet>, setOrder: seq<Id>,
                           docs: map<Id, Document>, docOrder: seq<Id>, next: nat, doc: Document)
    requires Indexed(byLang, byId, setOrder, docs, docOrder, next)
    requires doc.id !in docs && Undrawn(next, {doc.id})
    ensures Indexed(byLang, byId, setOrder, docs[doc.id := doc], docOrder + [doc.id], next)
  {
    AppendKeyOrder(docs, docOrder, doc.id, doc);
    assert docs[doc.id := doc].Keys == docs.Keys + {doc.id};
  }

  /** Each doc set is sound and lists only documents in `docs`. */
  ghost predicate Sound(byId: map<Id, DocSet>, docs: set<Id>)
    reads byId.Values
  {
    forall id :: id in byId ==>
      byId[id].Valid() && byId[id].EnumsWalkable() && forall i :: 0 <= i < |byId[id].docIds| ==> byId[id].docIds[i] in docs
  }

  /** A new sound doc set without documents keeps the doc sets sound. */
  lemma SoundRegister(byId: map<Id, DocSet>, docs: set<Id>, d: DocSet)
    requires Sound(byId, docs) && d.Valid() && d.EnumsWalkable() && d.docIds == []
    ensures Sound(byId[d.id := d], docs)
  {
  }

  class ProsKomma {
    var documents: map<Id, Document>
    var documentOrder: seq<Id>
    var docSetsByLang: map<string, map<string, DocSet>>
    var docSets: map<Id, DocSet>
    var docSetOrder: seq<Id>
    /** The number of ids `generateId` has handed out. */
    var nextId: nat

    /** The two maps of doc sets agree, the doc sets are sound, each
        document is stored under its own id, the key lists hold every key
        once, and no id still to be drawn is in use. */
    ghost predicate Valid()
      reads this, docSets.Values
    {
      Indexed(docSetsByLang, docSets, docSetOrder, documents, documentOrder, nextId) && Sound(docSets, documents.Keys)
    }

    /** `new ProsKomma()`: no documents and no doc sets. */
    constructor ()
      ensures Valid()
      ensures documents == map[] && docSetsByLang == map[] && docSets == map[]
      ensures documentOrder == [] && docSetOrder == [] && nextId == 0
    {
      documents := map[];
      documentOrder := [];
      docSetsByLang := map[];
      docSets := map[];
      docSetOrder := [];
      nextId := 0;
    }

    /** `docSetList`: the doc sets in insertion order, each once. */
    function DocSetList(): (r: seq<DocSet>)
      requires KeyOrder(docSets, docSetOrder) && forall id :: id in docSets ==> docSets[id].id == id
      reads this
      ensures |r| == |docSetOrder|
      ensures forall id :: id in docSets ==> docSets[id] in r
      ensures forall i :: 0 <= i < |r| ==> r[i] in docSets.Values
      ensures forall i, j :: 0 <= i < j < |r| ==> r[i] != r[j]
    {
      var r := Listed(docSets, docSetOrder);
      ListedAll(docSets, docSetOrder);
      assert forall i :: 0 <= i < |r| ==> r[i].id == docSetOrder[i];
      r
    }

    /** `nDocSets`: the number of registered doc sets. */
    function NDocSets(): (n: nat)
      requires KeyOrder(docSets, docSetOrder) && forall id :: id in docSets ==> docSets[id].id == id
      reads this
      ensures n == |docSets|
    {
      DistinctCount(docSetOrder);
      assert docSets.Keys == set x | x in docSetOrder;
      |DocSetList()|
    }

    /** `documentList`: the documents in insertion order, each once, and
        as many as are registered. */
    function DocumentList(): (r: seq<Document>)
      requires KeyOrder(documents, documentOrder) && forall id :: id in documents ==> documents[id].id == id
      reads this
      ensures |r| == |documents|
      ensures forall id :: id in documents ==> documents[id] in r
      ensures forall i :: 0 <= i < |r| ==> r[i] in documents.Values
      ensures forall i, j :: 0 <= i < j < |r| ==> r[i] != r[j]
    {
      var r := Listed(documents, documentOrder);
      ListedAll(documents, documentOrder);
      assert forall i :: 0 <= i < |r| ==> r[i].id == documentOrder[i];
      r
    }

    /** `generateId()`: the next id of the counter. It is used by no doc
        set and no document, and no later draw repeats it. */
    method GenerateId() returns (id: Id)
      requires Valid()
      modifies this
      ensures Valid()
      ensures id == IdOf(old(nextId)) && nextId == old(nextId) + 1
      ensures id !in docSets && id !in documents && Undrawn(nextId, {id})
      ensures documents == old(documents) && documentOrder == old(documentOrder)
      ensures docSetsByLang == old(docSetsByLang) && docSets == old(docSets) && docSetOrder == old(docSetOrder)
    {
      id := IdOf(nextId);
      IndexedDraw(docSetsByLang, docSets, docSetOrder, documents, documentOrder, nextId);
      nextId := nextId + 1;
    }

    /** `findOrMakeDocSet(lang, abbr)`: the doc set registered for the
        pair, made and registered first when there is none. A second call
        with the same pair changes nothing and returns the same id; two
        pairs never share a doc set. */
    method FindOrMakeDocSet(lang: string, abbr: string) returns (id: Id)
      requires Valid()
      modifies this
      ensures Valid()
      ensures lang in docSetsByLang && abbr in docSetsByLang[lang] && id == docSetsByLang[lang][abbr].id
      ensures id in docSets && docSets[id] == docSetsByLang[lang][abbr] && docSets[id].lang == lang && docSets[id].abbr == abbr
      ensures forall l, a :: l in docSetsByLang && a in docSetsByLang[l] && (l != lang || a != abbr) ==>
                docSetsByLang[l][a].id != id
      ensures forall l, a :: l in old(docSetsByLang) && a in old(docSetsByLang)[l] ==>
                l in docSetsByLang && a in docSetsByLang[l] && docSetsByLang[l][a] == old(docSetsByLang)[l][a]
      ensures documents == old(documents) && documentOrder == old(documentOrder)
      ensures KeepsEntries(old(docSets), docSets)
      ensures forall id :: id in old(docSets) ==> unchanged(old(docSets)[id])
      ensures old(lang in docSetsByLang && abbr in docSetsByLang[lang]) ==>
                id == old(docSetsByLang[lang][abbr].id) && docSetsByLang == old(docSetsByLang) &&
                docSets == old(docSets) && docSetOrder == old(docSetOrder) && nextId == old(nextId)
      ensures !old(lang in docSetsByLang && abbr in docSetsByLang[lang]) ==>
                id !in old(docSets) && fresh(docSets[id]) && docSets == old(docSets)[id := docSets[id]] &&
                docSetOrder == old(docSetOrder) + [id] &&
                docSets[id].preEnums == map[] && docSets[id].docIds == [] &&
                docSets[id].enums == map c | c in Categories :: []
    {
      if lang in docSetsByLang && abbr in docSetsByLang[lang] {
        return docSetsByLang[lang][abbr].id;
      }
      id := MakeDocSet(lang, abbr);
      AbbrsKeep(old(docSetsByLang), lang, abbr, docSets[id]);
      AddKeepsEntries(old(docSets), id, docSets[id]);
    }

    /** The branch of `findOrMakeDocSet` for a new pair: a new doc set with
        a fresh id is stored under the pair and under its id. */
    method MakeDocSet(lang: string, abbr: string) returns (id: Id)
      requires Valid() && !(lang in docSetsByLang && abbr in docSetsByLang[lang])
      modifies this
      ensures Valid()
      ensures id !in old(docSets) && id in docSets && fresh(docSets[id]) && docSets == old(docSets)[id := docSets[id]]
      ensures docSetsByLang == old(docSetsByLang)[lang := Abbrs(old(docSetsByLang), lang)[abbr := docSets[id]]]
      ensures docSets[id].id == id && docSets[id].lang == lang && docSets[id].abbr == abbr
      ensures docSetOrder == old(docSetOrder) + [id]
      ensures documents == old(documents) && documentOrder == old(documentOrder)
      ensures docSets[id].preEnums == map[] && docSets[id].docIds == [] && docSets[id].enums == map c | c in Categories :: []
    {
      id := GenerateId();
      var made := new DocSet(id, lang, abbr);
      StoreDocSet(made);
    }

    /** Stores a new doc set under its pair and its id, last in the key
        order. */
    method StoreDocSet(d: DocSet)
      requires Valid() && !(d.lang in docSetsByLang && d.abbr in docSetsByLang[d.lang])
      requires d.id !in docSets && Undrawn(nextId, {d.id})
      requires d.Valid() && d.EnumsWalkable() && d.docIds == []
      modifies this
      ensures Valid()
      ensures docSets == old(docSets)[d.id := d]
      ensures docSetsByLang == old(docSetsByLang)[d.lang := Abbrs(old(docSetsByLang), d.lang)[d.abbr := d]]
      ensures docSetOrder == old(docSetOrder) + [d.id]
      ensures documents == old(documents) && documentOrder == old(documentOrder) && nextId == old(nextId)
    {
      SoundRegister(docSets, documents.Keys, d);
      IndexedRegister(docSetsByLang, docSets, docSetOrder, documents, documentOrder, nextId, d);
      docSetsByLang := docSetsByLang[d.lang := Abbrs(docSetsByLang, d.lang)[d.abbr := d]];
      docSets := docSets[d.id := d];
      docSetOrder := docSetOrder + [d.id];
    }

    /** `addDocument(doc, docSetId)`: the document goes under its id, then
        its id is appended to the doc set's list. An unknown doc set id
        throws after the document has been stored. No other doc set
        changes. */
    method AddDocument(doc: Document, docSetId: Id) returns (o: Outcome)
      modifies this, if docSetId in docSets then {docSets[docSetId]} else {}
      ensures documents == old(documents)[doc.id := doc]
      ensures documentOrder == if doc.id in old(documents) then old(documentOrder) else old(documentOrder) + [doc.id]
      ensures docSetsByLang == old(docSetsByLang) && docSets == old(docSets) && docSetOrder == old(docSetOrder)
      ensures nextId == old(nextId)
      ensures o.Pass? <==> docSetId in docSets
      ensures o.Fail? ==> o.error == UnknownDocSet(docSetId)
      ensures o.Pass? ==> docSets[docSetId].docIds == old(docSets[docSetId].docIds) + [doc.id]
      ensures o.Pass? ==> docSets[docSetId].preEnums == old(docSets[docSetId].preEnums) &&
                          docSets[docSetId].enums == old(docSets[docSetId].enums)
      ensures old(Valid()) && doc.id !in old(documents) && Undrawn(nextId, {doc.id}) && o.Pass? ==> Valid()
    {
      ghost var wasValid := Valid();
      if wasValid && doc.id !in documents && Undrawn(nextId, {doc.id}) {
        IndexedAddDocument(docSetsByLang, docSets, docSetOrder, documents, documentOrder, nextId, doc);
      }
      if doc.id !in documents {
        documentOrder := documentOrder + [doc.id];
      }
      documents := documents[doc.id := doc];
      if docSetId !in docSets {
        return Fail(UnknownDocSet(docSetId));
      }
      var d := docSets[docSetId];
      d.docIds := d.docIds + [doc.id];
      o := Pass;
      if wasValid && doc.id !in old(documents) && Undrawn(nextId, {doc.id}) {
        forall id | id in docSets
          ensures docSets[id].Valid() && docSets[id].EnumsWalkable()
          ensures forall i :: 0 <= i < |docSets[id].docIds| ==> docSets[id].docIds[i] in documents
        {
          if docSets[id] != d {
            assert old(docSets[id].Valid() && docSets[id].EnumsWalkable());
            assert docSets[id].docIds == old(docSets[id].docIds);
          }
        }
      }
    }

    /** `new Document(this, lang, abbr, docSetId, ...)` inside the
        registry: the document is built against the doc set registered
        under `docSetId` (model/document.js), whose documents stay as they
        are; nothing else changes. */
    method BuildDocument(docSetId: Id, docId: Id, contentType: string, content: string,
                         lex: (Format, string) -> seq<Lexeme>, specs: seq<ParserSpec>, firstId: nat, t: Tables,
                         build: PreEnumMap -> map<string, seq<byte>>)
      returns (r: Result<Document>)
      requires Valid() && docSetId in docSets
      requires forall p: PreEnumMap, c :: c in build(p) ==> CountedWalkable(build(p)[c])
      modifies docSets[docSetId]
      ensures Valid() && docSets[docSetId].docIds == old(docSets[docSetId].docIds)
      ensures ContentFormat(contentType).Err? ==> r == Err(UnknownContentType(contentType))
      ensures r.Ok? ==> fresh(r.value) && r.value.id == docId && r.value.docSetId == docSetId
    {
      var d := docSets[docSetId];
      ghost var parser, parsed;
      r, parser, parsed := NewDocument(docId, docSetId, contentType, content, lex, specs, firstId, d, t, build);
      forall id | id in docSets && docSets[id] != d
        ensures docSets[id].Valid() && docSets[id].EnumsWalkable() && docSets[id].docIds == old(docSets[id].docIds)
      {
        assert old(docSets[id].Valid() && docSets[id].EnumsWalkable());
      }
    }

    /** `importDocument(lang, abbr, contentType, contentString)`: the doc
        set for the pair is found or made, the document is built against it
        under a fresh id and registered there. A document that cannot be
        built throws; the doc set stays registered. No other doc set
        changes. */
    method ImportDocument(lang: string, abbr: string, contentType: string, content: string,
                          lex: (Format, string) -> seq<Lexeme>, specs: seq<ParserSpec>, firstId: nat, t: Tables,
                          build: PreEnumMap -> map<string, seq<byte>>)
      returns (r: Result<Document>)
      requires Valid()
      requires forall p: PreEnumMap, c :: c in build(p) ==> CountedWalkable(build(p)[c])
      modifies this, docSets.Values
      ensures Valid()
      ensures lang in docSetsByLang && abbr in docSetsByLang[lang]
      ensures forall l, a :: l in old(docSetsByLang) && a in old(docSetsByLang)[l] ==>
                l in docSetsByLang && a in docSetsByLang[l] && docSetsByLang[l][a] == old(docSetsByLang)[l][a]
      ensures KeepsEntries(old(docSets), docSets)
      ensures forall id :: id in old(docSets) && id != docSetsByLang[lang][abbr].id ==> unchanged(old(docSets)[id])
      ensures ContentFormat(contentType).Err? ==> r == Err(UnknownContentType(contentType))
      ensures r.Err? ==> documents == old(documents)
      ensures r.Ok? ==>
                var doc := r.value;
                var d := docSetsByLang[lang][abbr];
                doc.docSetId == d.id && doc.id !in old(documents) && documents == old(documents)[doc.id := doc] &&
                d.docIds == (if d.id in old(docSets) then old(docSets[d.id].docIds) else []) + [doc.id]
    {
      var docSetId := FindOrMakeDocSet(lang, abbr);
      label Found:
      r := DrawAndImport(docSetId, contentType, content, lex, specs, firstId, t, build);
      forall id | id in old(docSets) && id != docSetId
        ensures unchanged(old(docSets)[id])
      {
        assert docSets[id] == old(docSets)[id] && unchanged@Found(docSets[id]);
      }
    }

    /** The steps of `importDocument` after the doc set is found: an id is
        drawn for the document, which is built and registered there. */
    method DrawAndImport(docSetId: Id, contentType: string, content: string,
                         lex: (Format, string) -> seq<Lexeme>, specs: seq<ParserSpec>, firstId: nat, t: Tables,
                         build: PreEnumMap -> map<string, seq<byte>>)
      returns (r: Result<Document>)
      requires Valid() && docSetId in docSets
      requires forall p: PreEnumMap, c :: c in build(p) ==> CountedWalkable(build(p)[c])
      modifies this, docSets[docSetId]
      ensures Valid()
      ensures docSetsByLang == old(docSetsByLang) && docSets == old(docSets)
      ensures forall id :: id in docSets && id != docSetId ==> unchanged(docSets[id])
      ensures ContentFormat(contentType).Err? ==> r == Err(UnknownContentType(contentType))
      ensures r.Err? ==> documents == old(documents)
      ensures r.Ok? ==>
                r.value.id !in old(documents) && r.value.docSetId == docSetId &&
                documents == old(documents)[r.value.id := r.value] &&
                docSets[docSetId].docIds == old(docSets[docSetId].docIds) + [r.value.id]
    {
      var docId := GenerateId();
      ghost var sets := docSets;
      assert forall id :: id in sets ==> unchanged(sets[id]);
      r := ImportInto(docSetId, docId, contentType, content, lex, specs, firstId, t, build);
    }

    /** The last two steps of `importDocument`: the document is built
        against the doc set under the id drawn for it, then registered. */
    method ImportInto(docSetId: Id, docId: Id, contentType: string, content: string,
                      lex: (Format, string) -> seq<Lexeme>, specs: seq<ParserSpec>, firstId: nat, t: Tables,
                      build: PreEnumMap -> map<string, seq<byte>>)
      returns (r: Result<Document>)
      requires Valid() && docSetId in docSets && docId !in documents && Undrawn(nextId, {docId})
      requires forall p: PreEnumMap, c :: c in build(p) ==> CountedWalkable(build(p)[c])
      modifies this, docSets[docSetId]
      ensures Valid()
      ensures docSetsByLang == old(docSetsByLang) && docSets == old(docSets)
      ensures forall id :: id in docSets && id != docSetId ==> unchanged(docSets[id])
      ensures ContentFormat(contentType).Err? ==> r == Err(UnknownContentType(contentType))
      ensures r.Err? ==> documents == old(documents)
      ensures r.Ok? ==>
                r.value.id == docId && r.value.docSetId == docSetId && documents == old(documents)[docId := r.value] &&
                docSets[docSetId].docIds == old(docSets[docSetId].docIds) + [docId]
    {
      ghost var ids := docSets[docSetId].docIds;
      OthersDistinct(docSets, docSetId);
      r := BuildDocument(docSetId, docId, contentType, content, lex, specs, firstId, t, build);
      if r.Err? {
        return;
      }
      var o := AddDocument(r.value, docSetId);
      assert docSets[docSetId].docIds == ids + [docId];
    }
  }

  /** Doc sets stored under their own ids are distinct objects. */
  lemma OthersDistinct(byId: map<Id, DocSet>, id0: Id)
    requires id0 in byId && forall id :: id in byId ==> byId[id].id == id
    ensures forall id :: id in byId && id != id0 ==> byId[id] != byId[id0]
  {
  }

  /** Distinct pairs of language and abbreviation name distinct doc sets
      with distinct ids. */
  lemma DistinctPairs(p: ProsKomma, l1: string, a1: string, l2: string, a2: string)
    requires p.Valid()
    requires l1 in p.docSetsByLang && a1 in p.docSetsByLang[l1] && l2 in p.docSetsByLang && a2 in p.docSetsByLang[l2]
    requires l1 != l2 || a1 != a2
    ensures p.docSetsByLang[l1][a1] != p.docSetsByLang[l2][a2]
    ensures p.docSetsByLang[l1][a1].id != p.docSetsByLang[l2][a2].id
  {
  }
}
