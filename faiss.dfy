/**
 * The part of a faiss `IndexFlatL2` the backend uses: a dimension fixed at
 * creation, `add` appending vectors in place, `ntotal`, and `search` returning
 * the positions of stored vectors. The distance computation and the ranking
 * itself stay abstract: a `Ranker` stands for them.
 */
module Faiss {

  /** One embedding; its components stand for float32 values. */
  type Vector = seq<real>

  /** An embedding model applied to one text. */
  type Embedder = string -> Vector

  /** Given the stored vectors, a query and `k`, the positions of the nearest vectors, nearest first. */
  type Ranker = (seq<Vector>, Vector, nat) -> seq<int>

  function Min(a: nat, b: nat): nat {
    if a <= b then a else b
  }

  /** The ids a search over `n` stored vectors with `k` requested returns: `min(k, n)` valid positions. */
  predicate ValidHits(ids: seq<int>, n: nat, k: nat) {
    |ids| == Min(k, n) && forall j :: 0 <= j < |ids| ==> 0 <= ids[j] < n
  }

  /** What every ranking promises, whatever its distance: as many hits as asked for and stored, each a stored position. */
  ghost predicate SoundRanker(rank: Ranker) {
    forall vs, q, k :: ValidHits(rank(vs, q, k), |vs|, k)
  }

  predicate HasDim(vs: seq<Vector>, dim: nat) {
    forall j :: 0 <= j < |vs| ==> |vs[j]| == dim
  }

  class FlatIndex {
    const dim: nat
    var vectors: seq<Vector>

    /** `faiss.IndexFlatL2(dim)`: an empty index. */
    constructor (dim: nat)
      ensures this.dim == dim && vectors == []
    {
      this.dim := dim;
      vectors := [];
    }

    /** `faiss.read_index(path)` of a file written from an index of dimension `dim`. */
    constructor Read(dim: nat, stored: seq<Vector>)
      ensures this.dim == dim && vectors == stored
    {
      this.dim := dim;
      vectors := stored;
    }

    function NTotal(): nat
      reads this
    {
      |vectors|
    }

    /**
     * `index.add(batch)`: faiss raises when the batch's width is not the
     * index's dimension, and then nothing is added; `ok` reports which.
     */
    method Add(batch: seq<Vector>) returns (ok: bool)
      modifies this
      ensures ok <==> HasDim(batch, dim)
      ensures vectors == if ok then old(vectors) + batch else old(vectors)
    {
      ok := forall j | 0 <= j < |batch| :: |batch[j]| == dim;
      if ok {
        vectors := vectors + batch;
      }
    }

    /**
     * `index.search(query, k)`: raises (`ok` false) when the query's width is
     * not the index's dimension or when `k` is not positive; otherwise the
     * ranker's ids, `min(k, ntotal)` valid positions.
     */
    method Search(query: Vector, k: nat, rank: Ranker) returns (ok: bool, ids: seq<int>)
      requires SoundRanker(rank)
      ensures ok <==> |query| == dim && k > 0
      ensures ok ==> ids == rank(vectors, query, k) && ValidHits(ids, NTotal(), k)
      ensures !ok ==> ids == []
    {
      ok := |query| == dim && k > 0;
      if ok {
        ids := rank(vectors, query, k);
      } else {
        ids := [];
      }
    }
  }
}
