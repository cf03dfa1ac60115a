/**
 * The vector index (`src/faiss_index.py`): the `FAISSIndex` object whose
 * `index`, `ids` and `metadata` fields `build` and `load` reassign, the
 * files `save` writes, and the post-processing `search` applies to the
 * nearest neighbours the FAISS library returns. The library is an oracle:
 * given the stored vectors, a query vector and `k`, it yields (score,
 * position) pairs, with -1 as the position of an empty slot.
 */
module VectorIndex {
  import opened Wrappers
  import opened Seqs
  import opened Text
  import opened Ranking
  import opened Documents
  import opened Embeddings

  /** `DEFAULT_TOP_K` (src/config.py). */
  const DefaultTopK: nat := 5

  /** An `IndexFlatIP`: the vectors added to it, in order. */
  datatype FlatIndex = FlatIndex(vectors: seq<Vector>)

  /** One (score, position) pair of `index.search`. */
  datatype Neighbor = Neighbor(score: int, position: int)

  /** One result of `search`: `{id, score, metadata}`. */
  datatype SearchHit = SearchHit(id: string, score: int, metadata: Meta)

  type Oracle = (FlatIndex, Vector, int) -> seq<Neighbor>

  datatype IndexError =
    | LoadFailed(LoadError)         // `load_documents` raised
    | NoDocuments                   // "No documents found in ..."
    | EncodeFailed(EncodeError)     // the encoder raised
    | NothingToSave                 // "No index to save. ..."
    | IndexFileMissing              // "FAISS index not found at ..."
    | IdsFileMissing                // `np.load` raised
    | MetaFileMissing               // `open` raised
    | MalformedMetadata             // `json.loads` raised on a metadata line
    | NoIndexLoaded                 // "No index loaded. Call load() first."
    | MetadataOutOfRange            // `self.metadata[idx]` raised IndexError

  function Score(h: SearchHit): int {
    h.score
  }

  // ----------------------------------------------------------------------
  // _prepare_items

  /** `doc.get("id", "").strip()`. */
  function ItemId(d: Document): string {
    Strip(d.id.GetOr(""))
  }

  /** `str(doc.get("text", "")).strip()`. */
  function ItemText(d: Document): string {
    Strip(d.text.GetOr(""))
  }

  /** `doc.get("metadata", {}) or {}`. */
  function ItemMeta(d: Document): Meta {
    match d.metadata
    case Some(m) => m
    case None => map[]
  }

  /** A document `_prepare_items` keeps: its trimmed id and trimmed text are both non-empty. */
  predicate Indexable(d: Document) {
    ItemId(d) != "" && ItemText(d) != ""
  }

  /** The documents `_prepare_items` keeps, in input order. */
  function Kept(docs: seq<Document>): (r: seq<Document>)
    ensures |r| <= |docs|
    ensures forall k :: 0 <= k < |r| ==> Indexable(r[k]) && r[k] in docs
  {
    Filter(Indexable, docs)
  }

  /** A document is kept exactly when it is indexable: nothing indexable is dropped. */
  lemma KeptSingle(d: Document)
    ensures Kept([d]) == (if Indexable(d) then [d] else [])
  {
    assert [d][..0] == [];
  }

  /** `_prepare_items`: three parallel lists over the kept documents. */
  method PrepareItems(documents: seq<Document>) returns (ids: seq<string>, texts: seq<string>, metadata: seq<Meta>)
    ensures ids == Map(ItemId, Kept(documents))
    ensures texts == Map(ItemText, Kept(documents))
    ensures metadata == Map(ItemMeta, Kept(documents))
  {
    ids, texts, metadata := [], [], [];
    for k := 0 to |documents|
      invariant ids == Map(ItemId, Filter(Indexable, documents[..k]))
      invariant texts == Map(ItemText, Filter(Indexable, documents[..k]))
      invariant metadata == Map(ItemMeta, Filter(Indexable, documents[..k]))
    {
      var doc := documents[k];
      FilterMapStep(Indexable, ItemId, documents, k);
      FilterMapStep(Indexable, ItemText, documents, k);
      FilterMapStep(Indexable, ItemMeta, documents, k);
      var docId := ItemId(doc);
      var text := ItemText(doc);
      var meta := ItemMeta(doc);
      if docId != "" && text != "" {
        ids, texts, metadata := ids + [docId], texts + [text], metadata + [meta];
      }
    }
    assert documents[..|documents|] == documents;
  }

  /** The three lists are aligned: entry `k` of each comes from the same kept document. */
  lemma PreparedAligned(documents: seq<Document>, k: nat)
    requires k < |Kept(documents)|
    ensures var d := Kept(documents)[k];
      && d in documents
      && Map(ItemId, Kept(documents))[k] == ItemId(d) != ""
      && Map(ItemText, Kept(documents))[k] == ItemText(d) != ""
      && Map(ItemMeta, Kept(documents))[k] == ItemMeta(d)
  {
  }

  // ----------------------------------------------------------------------
  // The files `save` writes and `load` reads

  /** The three artefact files; `None` for a file that does not exist. */
  class Storage {
    var indexFile: Option<FlatIndex>
    var idsFile: Option<seq<string>>
    var metaFile: Option<seq<JsonLine<Meta>>>

    constructor (indexFile: Option<FlatIndex>, idsFile: Option<seq<string>>, metaFile: Option<seq<JsonLine<Meta>>>)
      ensures this.indexFile == indexFile && this.idsFile == idsFile && this.metaFile == metaFile
    {
      this.indexFile := indexFile;
      this.idsFile := idsFile;
      this.metaFile := metaFile;
    }
  }

  predicate AllRecords(lines: seq<JsonLine<Meta>>) {
    forall k :: 0 <= k < |lines| ==> lines[k].Record?
  }

  /** The objects `load` appends before the first line `json.loads` rejects. */
  function Decoded(lines: seq<JsonLine<Meta>>): (ms: seq<Meta>)
    ensures |ms| <= |lines|
  {
    if lines == [] || lines[0].Other? then [] else [lines[0].value] + Decoded(lines[1..])
  }

  lemma {:induction false} DecodedAppendRecord(p: seq<JsonLine<Meta>>, m: Meta)
    requires AllRecords(p)
    ensures AllRecords(p + [Record(m)]) && Decoded(p + [Record(m)]) == Decoded(p) + [m]
  {
    if p != [] {
      assert (p + [Record(m)])[1..] == p[1..] + [Record(m)];
      DecodedAppendRecord(p[1..], m);
    }
  }

  lemma {:induction false} DecodedStopsAtOther(p: seq<JsonLine<Meta>>, raw: string, rest: seq<JsonLine<Meta>>)
    requires AllRecords(p)
    ensures Decoded(p + [Other(raw)] + rest) == Decoded(p)
  {
    if p == [] {
      assert (p + [Other(raw)] + rest)[0] == Other(raw);
    } else {
      assert (p + [Other(raw)] + rest)[1..] == p[1..] + [Other(raw)] + rest;
      DecodedStopsAtOther(p[1..], raw, rest);
    }
  }

  /** What `save` writes as metadata, `load` reads back, object for object. */
  lemma {:induction false} MetadataRoundTrip(ms: seq<Meta>)
    ensures AllRecords(WriteLines(ms)) && Decoded(WriteLines(ms)) == ms
  {
    if ms != [] {
      MetadataRoundTrip(ms[1..]);
      assert WriteLines(ms)[1..] == WriteLines(ms[1..]);
    }
  }

  // ----------------------------------------------------------------------
  // FAISSIndex

  /** The result list `search` builds before sorting (or the IndexError it meets). */
  function Collect(neighbors: seq<Neighbor>, ids: seq<string>, metadata: seq<Meta>): Result<seq<SearchHit>, IndexError> {
    if neighbors == [] then Success([])
    else
      match Collect(neighbors[..|neighbors| - 1], ids, metadata)
      case Failure(e) => Failure(e)
      case Success(hits) =>
        var n := neighbors[|neighbors| - 1];
        if n.position < 0 || n.position >= |ids| then Success(hits)
        else if n.position >= |metadata| then Failure(MetadataOutOfRange)
        else Success(hits + [SearchHit(ids[n.position], n.score, metadata[n.position])])
  }

  /** The neighbours `search` keeps: positions inside `ids`. */
  function InRange(neighbors: seq<Neighbor>, count: nat): (r: seq<Neighbor>)
    ensures |r| <= |neighbors|
    ensures forall k :: 0 <= k < |r| ==> 0 <= r[k].position < count && r[k] in neighbors
  {
    if neighbors == [] then []
    else
      var init := InRange(neighbors[..|neighbors| - 1], count);
      var n := neighbors[|neighbors| - 1];
      if 0 <= n.position < count then init + [n] else init
  }

  /**
   * With metadata for every id, collecting never fails: it keeps the in-range
   * neighbours in oracle order and looks each one up as
   * `{id: ids[idx], score, metadata: metadata[idx]}`.
   */
  lemma {:induction false} CollectInRange(neighbors: seq<Neighbor>, ids: seq<string>, metadata: seq<Meta>)
    requires |metadata| >= |ids|
    ensures Collect(neighbors, ids, metadata).Success?
    ensures var hits := Collect(neighbors, ids, metadata).value;
      var kept := InRange(neighbors, |ids|);
      && |hits| == |kept|
      && forall k :: 0 <= k < |hits| ==>
           hits[k] == SearchHit(ids[kept[k].position], kept[k].score, metadata[kept[k].position])
  {
    if neighbors != [] {
      CollectInRange(neighbors[..|neighbors| - 1], ids, metadata);
    }
  }

  /** Collecting fails only on an in-range position that has no metadata entry. */
  lemma {:induction false} CollectFails(neighbors: seq<Neighbor>, ids: seq<string>, metadata: seq<Meta>)
    ensures Collect(neighbors, ids, metadata).Failure? <==>
      exists k :: 0 <= k < |neighbors| && |metadata| <= neighbors[k].position < |ids|
  {
    if neighbors != [] {
      var init := neighbors[..|neighbors| - 1];
      CollectFails(init, ids, metadata);
      assert forall k :: 0 <= k < |init| ==> init[k] == neighbors[k];
      if exists k :: 0 <= k < |neighbors| && |metadata| <= neighbors[k].position < |ids| {
        var k :| 0 <= k < |neighbors| && |metadata| <= neighbors[k].position < |ids|;
        if k < |init| {
          assert |metadata| <= init[k].position < |ids|;
        }
      }
    }
  }

  class FaissIndex {
    var index: Option<FlatIndex>
    var ids: seq<string>
    var metadata: seq<Meta>

    /** A fresh `FAISSIndex()`: no index, no ids, no metadata. */
    constructor ()
      ensures index == None && ids == [] && metadata == []
    {
      index := None;
      ids := [];
      metadata := [];
    }

    /**
     * `build`: load the documents, refuse an empty file before any embedding,
     * keep the indexable documents, encode their texts and store index, ids
     * and metadata together. On any error nothing in the object changes.
     */
    method Build(lines: seq<JsonLine<Document>>, model: EmbeddingModel) returns (r: Outcome<IndexError>)
      requires model.Valid()
      modifies this, model
      ensures model.Valid()
      ensures ReadDocuments(lines).Failure? ==>
        r == Fail(LoadFailed(ReadDocuments(lines).error)) && unchanged(this) && unchanged(model)
      ensures ReadDocuments(lines) == Success([]) ==> r == Fail(NoDocuments) && unchanged(this) && unchanged(model)
      ensures ReadDocuments(lines).Success? && ReadDocuments(lines).value != [] ==>
        var kept := Kept(ReadDocuments(lines).value);
        && (model.batchSize == 0 ==> r == Fail(EncodeFailed(ZeroBatchStep)) && unchanged(this))
        && (model.batchSize != 0 && (model.batchSize < 0 || kept == []) ==> r == Fail(EncodeFailed(NoEmbeddings)) && unchanged(this))
        && (model.batchSize > 0 && kept != [] ==>
              && r == Pass
              && ids == Map(ItemId, kept)
              && metadata == Map(ItemMeta, kept)
              && index == Some(FlatIndex(Map(model.library(model.modelName), Map(ItemText, kept))))
              && |index.value.vectors| == |ids| == |metadata|)
    {
      var loaded := LoadDocuments(lines);
      if loaded.Failure? {
        return Fail(LoadFailed(loaded.error));
      }
      var documents := loaded.value;
      if documents == [] {
        return Fail(NoDocuments);
      }
      var newIds, texts, newMetadata := PrepareItems(documents);
      var embeddings := model.EncodeTexts(texts);
      if embeddings.Failure? {
        return Fail(EncodeFailed(embeddings.error));
      }
      index := Some(FlatIndex(embeddings.value));
      ids := newIds;
      metadata := newMetadata;
      r := Pass;
    }

    /**
     * `save`: without an index it writes nothing; otherwise it writes the
     * index, then the ids, then one metadata object per line in `ids` order.
     */
    method Save(disk: Storage) returns (r: Outcome<IndexError>)
      modifies disk
      ensures index.None? ==> r == Fail(NothingToSave) && unchanged(disk)
      ensures index.Some? ==>
        && r == Pass
        && disk.indexFile == index
        && disk.idsFile == Some(ids)
        && disk.metaFile == Some(WriteLines(metadata))
    {
      if index.None? {
        return Fail(NothingToSave);
      }
      disk.indexFile := index;
      disk.idsFile := Some(ids);
      disk.metaFile := Some(WriteLines(metadata));
      r := Pass;
    }

    /**
     * `load`: a missing index file fails with nothing changed, whatever the
     * other files. Otherwise the fields are replaced one at a time, so a
     * later failure leaves the earlier ones loaded: the index, then the ids,
     * then `metadata := []` and the objects decoded before a bad line.
     */
    method Load(disk: Storage) returns (r: Outcome<IndexError>)
      modifies this
      ensures disk.indexFile.None? ==> r == Fail(IndexFileMissing) && unchanged(this)
      ensures disk.indexFile.Some? ==> index == disk.indexFile
      ensures disk.indexFile.Some? && disk.idsFile.None? ==>
        r == Fail(IdsFileMissing) && ids == old(ids) && metadata == old(metadata)
      ensures disk.indexFile.Some? && disk.idsFile.Some? ==> ids == disk.idsFile.value
      ensures disk.indexFile.Some? && disk.idsFile.Some? && disk.metaFile.None? ==>
        r == Fail(MetaFileMissing) && metadata == []
      ensures disk.indexFile.Some? && disk.idsFile.Some? && disk.metaFile.Some? ==>
        && metadata == Decoded(disk.metaFile.value)
        && (r == Pass <==> AllRecords(disk.metaFile.value))
        && (r != Pass ==> r == Fail(MalformedMetadata))
    {
      if disk.indexFile.None? {
        return Fail(IndexFileMissing);
      }
      index := disk.indexFile;
      if disk.idsFile.None? {
        return Fail(IdsFileMissing);
      }
      ids := disk.idsFile.value;
      metadata := [];
      if disk.metaFile.None? {
        return Fail(MetaFileMissing);
      }
      var lines := disk.metaFile.value;
      for k := 0 to |lines|
        invariant AllRecords(lines[..k]) && metadata == Decoded(lines[..k])
        invariant index == disk.indexFile && ids == disk.idsFile.value
      {
        match lines[k]
        case Record(m) =>
          DecodedAppendRecord(lines[..k], m);
          assert lines[..k] + [Record(m)] == lines[..k + 1];
          metadata := metadata + [m];
        case Other(raw) =>
          DecodedStopsAtOther(lines[..k], raw, lines[k + 1..]);
          assert lines[..k] + [Other(raw)] + lines[k + 1..] == lines;
          return Fail(MalformedMetadata);
      }
      assert lines[..|lines|] == lines;
      r := Pass;
    }

    /**
     * `search`: fails without an index; otherwise keeps the oracle's pairs
     * whose position lies inside `ids`, looks each one up, and sorts the
     * results by descending score, stably. Nothing in the object changes.
     */
    method Search(query: Vector, topK: int, oracle: Oracle) returns (r: Result<seq<SearchHit>, IndexError>)
      ensures index.None? ==> r == Failure(NoIndexLoaded)
      ensures index.Some? ==>
        var collected := Collect(oracle(index.value, query, topK), ids, metadata);
        && (collected.Failure? ==> r == Failure(MetadataOutOfRange))
        && (collected.Success? ==> r == Success(SortDesc(collected.value, Score)))
    {
      if index.None? {
        return Failure(NoIndexLoaded);
      }
      var neighbors := oracle(index.value, query, topK);
      var results: seq<SearchHit> := [];
      for k := 0 to |neighbors|
        invariant Collect(neighbors[..k], ids, metadata) == Success(results)
      {
        assert neighbors[..k + 1][..k] == neighbors[..k];
        var n := neighbors[k];
        if n.position < 0 || n.position >= |ids| {
          continue;
        }
        if n.position >= |metadata| {
          assert Collect(neighbors[..k + 1], ids, metadata) == Failure(MetadataOutOfRange);
          CollectFailureSticks(neighbors[..k + 1], neighbors[k + 1..], ids, metadata);
          assert neighbors[..k + 1] + neighbors[k + 1..] == neighbors;
          return Failure(MetadataOutOfRange);
        }
        results := results + [SearchHit(ids[n.position], n.score, metadata[n.position])];
      }
      assert neighbors[..|neighbors|] == neighbors;
      r := Success(SortDesc(results, Score));
    }

    /** `query`: encode the text, then `search` with the same `top_k`. */
    method Query(text: string, model: EmbeddingModel, topK: int, oracle: Oracle) returns (r: Result<seq<SearchHit>, IndexError>)
      requires model.Valid()
      modifies model
      ensures model.Valid()
      ensures index.None? ==> r == Failure(NoIndexLoaded)
      ensures index.Some? ==>
        var collected := Collect(oracle(index.value, model.library(model.modelName)(text), topK), ids, metadata);
        && (collected.Failure? ==> r == Failure(MetadataOutOfRange))
        && (collected.Success? ==> r == Success(SortDesc(collected.value, Score)))
    {
      var v := model.EncodeQuery(text);
      r := Search(v, topK, oracle);
    }
  }

  /**
   * `save` on one index followed by `load` into a fresh `FAISSIndex` over
   * the same files: the load succeeds and restores the index, the ids and
   * every metadata object.
   */
  method SaveThenLoad(a: FaissIndex, disk: Storage) returns (b: FaissIndex, saved: Outcome<IndexError>, loaded: Outcome<IndexError>)
    requires a.index.Some?
    modifies disk
    ensures fresh(b)
    ensures saved == Pass && loaded == Pass
    ensures b.index == a.index && b.ids == a.ids && b.metadata == a.metadata
  {
    saved := a.Save(disk);
    b := new FaissIndex();
    MetadataRoundTrip(a.metadata);
    loaded := b.Load(disk);
  }

  lemma {:induction false} CollectFailureSticks(p: seq<Neighbor>, q: seq<Neighbor>, ids: seq<string>, metadata: seq<Meta>)
    requires Collect(p, ids, metadata).Failure?
    ensures Collect(p + q, ids, metadata) == Collect(p, ids, metadata)
    decreases |q|
  {
    if q == [] {
      assert p + q == p;
    } else {
      var q' := q[..|q| - 1];
      assert (p + q)[..|p + q| - 1] == p + q';
      CollectFailureSticks(p, q', ids, metadata);
    }
  }

  /**
   * What `search` returns, given metadata for every id: as many results as
   * in-range oracle pairs (so at most `top_k` when the oracle returns `top_k`
   * pairs), each a lookup of its position, in non-increasing score order,
   * with tied scores in oracle order.
   */
  lemma SearchResults(neighbors: seq<Neighbor>, ids: seq<string>, metadata: seq<Meta>, v: int)
    requires |metadata| >= |ids|
    ensures Collect(neighbors, ids, metadata).Success?
    ensures var hits := SortDesc(Collect(neighbors, ids, metadata).value, Score);
      && |hits| == |InRange(neighbors, |ids|)| <= |neighbors|
      && NonIncreasing(hits, Score)
      && multiset(hits) == multiset(Collect(neighbors, ids, metadata).value)
      && WithKey(hits, Score, v) == WithKey(Collect(neighbors, ids, metadata).value, Score, v)
  {
    CollectInRange(neighbors, ids, metadata);
    SortDescOrdered(Collect(neighbors, ids, metadata).value, Score);
    SortDescStable(Collect(neighbors, ids, metadata).value, Score, v);
  }
}
