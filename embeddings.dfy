/**
 * The sentence-embedding wrapper (`src/embeddings.py`): a lazily loaded
 * encoder and the batching loop of `encode_texts`. The encoder itself is an
 * uninterpreted per-text function; vectors are sequences of integers.
 */
module Embeddings {
  import opened Wrappers
  import opened Seqs

  type Vector = seq<int>

  datatype EncodeError =
    | ZeroBatchStep   // `range(0, n, 0)` raises before any batch
    | NoEmbeddings    // "No embeddings generated": no batch was encoded

  /** A loaded `SentenceTransformer`: its name and what it computes for one text. */
  class SentenceEncoder {
    const name: string
    const embed: string -> Vector

    constructor (name: string, embed: string -> Vector)
      ensures this.name == name && this.embed == embed
    {
      this.name := name;
      this.embed := embed;
    }
  }

  function Min(a: int, b: int): int {
    if a <= b then a else b
  }

  /** The slices `texts[i : i + size]` for `i` in `range(0, len(texts), size)`. */
  function Batches(texts: seq<string>, size: nat): seq<seq<string>>
    requires size > 0
    decreases |texts|
  {
    if texts == [] then []
    else if |texts| <= size then [texts]
    else [texts[..size]] + Batches(texts[size..], size)
  }

  /** The batches put back together are the input, in order and without overlap. */
  lemma {:induction false} BatchesFlatten(texts: seq<string>, size: nat)
    requires size > 0
    ensures Flatten(Batches(texts, size)) == texts
    decreases |texts|
  {
    if |texts| > size {
      BatchesFlatten(texts[size..], size);
      assert texts == texts[..size] + texts[size..];
    } else if texts != [] {
      assert Flatten(Batches(texts, size)) == texts + Flatten([]);
    }
  }

  /** Every batch holds between 1 and `size` texts. */
  lemma {:induction false} BatchesSizes(texts: seq<string>, size: nat)
    requires size > 0
    ensures forall j :: 0 <= j < |Batches(texts, size)| ==> 1 <= |Batches(texts, size)[j]| <= size
    decreases |texts|
  {
    if |texts| > size {
      BatchesSizes(texts[size..], size);
      var rest := Batches(texts[size..], size);
      assert Batches(texts, size) == [texts[..size]] + rest;
      assert forall j :: 1 <= j < |Batches(texts, size)| ==> Batches(texts, size)[j] == rest[j - 1];
    }
  }

  /**
   * There are `ceil(len(texts) / size)` batches: none for no text, else the
   * fewest that hold every text.
   */
  lemma {:induction false} BatchesCount(texts: seq<string>, size: nat)
    requires size > 0
    ensures texts == [] <==> |Batches(texts, size)| == 0
    ensures texts != [] ==> (|Batches(texts, size)| - 1) * size < |texts| <= |Batches(texts, size)| * size
    decreases |texts|
  {
    if |texts| > size {
      BatchesCount(texts[size..], size);
      var m := |Batches(texts[size..], size)|;
      assert (m + 1) * size == m * size + size;
      assert m * size == (m - 1) * size + size;
    }
  }

  /** One turn of the loop: the batch at `i`, then the batches of what follows it. */
  lemma BatchesStep(texts: seq<string>, size: nat, i: nat)
    requires size > 0 && i < |texts|
    ensures Batches(texts[i..], size) == [texts[i..Min(i + size, |texts|)]] + Batches(texts[Min(i + size, |texts|)..], size)
  {
    var rest := texts[i..];
    if |rest| > size {
      assert rest[..size] == texts[i..i + size];
      assert rest[size..] == texts[i + size..];
    } else {
      assert texts[Min(i + size, |texts|)..] == [];
      assert rest == texts[i..Min(i + size, |texts|)];
    }
  }

  /** Batch `j` is exactly `texts[j * size : (j + 1) * size]`. */
  lemma {:induction false} BatchesSlices(texts: seq<string>, size: nat, j: nat)
    requires size > 0 && j < |Batches(texts, size)|
    ensures j * size < |texts|
    ensures Batches(texts, size)[j] == texts[j * size..Min((j + 1) * size, |texts|)]
    decreases |texts|
  {
    if |texts| > size && j > 0 {
      var rest := texts[size..];
      assert Batches(texts, size)[j] == Batches(rest, size)[j - 1];
      BatchesSlices(rest, size, j - 1);
      var lo, hi := (j - 1) * size, Min(j * size, |rest|);
      assert lo + size == j * size && j * size + size == (j + 1) * size;
      assert hi + size == Min((j + 1) * size, |texts|);
      SliceOfSuffix(texts, size, lo, hi);
    }
  }

  /** One more batch keeps the loop's account of the batches and of the vectors. */
  lemma EncodeStep(texts: seq<string>, size: nat, i: nat, batches: seq<seq<string>>, embeddings: seq<seq<Vector>>, f: string -> Vector)
    requires size > 0 && i < |texts|
    requires batches + Batches(texts[i..], size) == Batches(texts, size)
    requires Flatten(embeddings) == Map(f, texts[..i])
    ensures var j := Min(i + size, |texts|);
      && (batches + [texts[i..j]]) + Batches(texts[j..], size) == Batches(texts, size)
      && Flatten(embeddings + [Map(f, texts[i..j])]) == Map(f, texts[..j])
  {
    var j := Min(i + size, |texts|);
    var rows := Map(f, texts[i..j]);
    BatchesStep(texts, size, i);
    FlattenAppend(embeddings, [rows]);
    assert Flatten([rows]) == rows + Flatten([]);
    MapAppend(f, texts[..i], texts[i..j]);
    assert texts[..i] + texts[i..j] == texts[..j];
  }

  /** `EmbeddingModel`: a model name, a batch size and the lazily loaded encoder. */
  class EmbeddingModel {
    const modelName: string
    const batchSize: int
    /** What `SentenceTransformer(name)` would load for each name. */
    const library: string -> (string -> Vector)
    var loaded: SentenceEncoder?

    /** A loaded encoder is the one named by `modelName`. */
    ghost predicate Valid()
      reads this
    {
      loaded != null ==> loaded.name == modelName && loaded.embed == library(modelName)
    }

    constructor (modelName: string, batchSize: int, library: string -> (string -> Vector))
      ensures Valid() && loaded == null
      ensures this.modelName == modelName && this.batchSize == batchSize && this.library == library
    {
      this.modelName := modelName;
      this.batchSize := batchSize;
      this.library := library;
      loaded := null;
    }

    /** The `model` property: loads on first access, then always returns the same encoder. */
    method Model() returns (m: SentenceEncoder)
      requires Valid()
      modifies this
      ensures Valid() && loaded == m
      ensures m.name == modelName && m.embed == library(modelName)
      ensures old(loaded) != null ==> m == old(loaded)
      ensures old(loaded) == null ==> fresh(m)
    {
      if loaded == null {
        loaded := new SentenceEncoder(modelName, library(modelName));
      }
      m := loaded;
    }

    /**
     * `encode_texts`: encode `texts` batch by batch. A zero batch size makes
     * `range` raise; a negative one, like an empty input, yields no batch and
     * so the "No embeddings generated" error. The encoder is loaded only when
     * there is a batch to encode.
     */
    method EncodeTexts(texts: seq<string>) returns (r: Result<seq<Vector>, EncodeError>)
      requires Valid()
      modifies this
      ensures Valid()
      ensures batchSize == 0 ==> r == Failure(ZeroBatchStep) && loaded == old(loaded)
      ensures batchSize != 0 && (batchSize < 0 || texts == []) ==> r == Failure(NoEmbeddings) && loaded == old(loaded)
      ensures batchSize > 0 && texts != [] ==>
        && loaded != null && (old(loaded) != null ==> loaded == old(loaded))
        && r == Success(Map(library(modelName), texts))
    {
      if batchSize == 0 {
        return Failure(ZeroBatchStep);
      }
      var embeddings: seq<seq<Vector>> := [];
      if batchSize > 0 {
        var size: nat := batchSize;
        ghost var batches: seq<seq<string>> := [];
        var i := 0;
        while i < |texts|
          invariant 0 <= i && (i <= |texts| || texts != [])
          invariant Valid() && (old(loaded) != null ==> loaded == old(loaded))
          invariant embeddings == [] ==> i == 0 && loaded == old(loaded)
          invariant embeddings != [] ==> loaded != null && texts != []
          invariant var k := Min(i, |texts|);
            && batches + Batches(texts[k..], size) == Batches(texts, size)
            && Flatten(embeddings) == Map(library(modelName), texts[..k])
          decreases |texts| - i
        {
          var batch := texts[i..Min(i + size, |texts|)];
          var model := Model();
          var rows := Map(model.embed, batch);
          EncodeStep(texts, size, i, batches, embeddings, model.embed);
          batches := batches + [batch];
          embeddings := embeddings + [rows];
          i := i + size;
        }
        assert texts[..Min(i, |texts|)] == texts;
      }
      if embeddings == [] {
        return Failure(NoEmbeddings);
      }
      r := Success(Flatten(embeddings));
    }

    /** `encode_query`: the encoder's vector for the one text. */
    method EncodeQuery(query: string) returns (v: Vector)
      requires Valid()
      modifies this
      ensures Valid() && loaded != null && (old(loaded) != null ==> loaded == old(loaded))
      ensures v == library(modelName)(query)
    {
      var model := Model();
      v := Map(model.embed, [query])[0];
    }
  }
}
