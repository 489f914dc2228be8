/**
 * The flat inner-product index the managers store, seen from outside: it keeps vectors in
 * insertion order and answers a query with (score, position) pairs. How scores are computed
 * is not modelled; `search` is a parameter, and `IsFlatSearch` states the shape of its answer.
 */
module VectorIndex {

  type Vector = seq<real>

  /** One returned pair: the similarity and the position of the stored vector, -1 for padding. */
  datatype Hit = Hit(score: real, pos: int)

  /** A chunk text with its similarity, as the managers hand results back. */
  datatype Match = Match(text: string, score: real)

  /** An index of fixed dimension with its vectors, position i being the i-th one added. */
  datatype FlatIndex = FlatIndex(dim: nat, vectors: seq<Vector>)

  /** `index.search(query, k)` on an index holding `vectors`, first row only. */
  type SearchFn = (seq<Vector>, Vector, int) -> seq<Hit>

  /** The answer of a flat index with `n` vectors to a top-`k` query: `k` pairs; the first
      `min(k, n)` name distinct stored positions by descending score, the rest are -1. */
  predicate FlatAnswer(hits: seq<Hit>, n: int, k: int) {
    && |hits| == k
    && (forall i :: 0 <= i < k ==> (if i < n then 0 <= hits[i].pos < n else hits[i].pos == -1))
    && (forall i, j :: 0 <= i < j < k && j < n ==> hits[i].score >= hits[j].score && hits[i].pos != hits[j].pos)
  }

  /** `search` behaves like a flat index for every positive `k`. */
  ghost predicate IsFlatSearch(search: SearchFn) {
    forall vs, q, k {:trigger search(vs, q, k)} :: k >= 1 ==> FlatAnswer(search(vs, q, k), |vs|, k)
  }

  /** Every row has the index's dimension, which `index.add` asserts. */
  predicate Fits(dim: nat, rows: seq<Vector>) {
    forall i :: 0 <= i < |rows| ==> |rows[i]| == dim
  }
}
