/**
 * The learning-phase vector store: a flat index and, beside it, the list of chunk texts whose
 * positions are meant to match the index's vector positions. Nothing enforces the match;
 * the lemmas here say when it holds and what the unchecked lookups return.
 */
module VectorStorage {
  import opened Wrappers
  import opened PyText
  import opened VectorIndex

  datatype DbError =
    | DimensionMismatch   // `index.add` or `index.search` of rows whose width is not the index's
    | NotMatrix           // `n, d = x.shape` in `index.add` on a one-dimensional array
    | IndexOutOfRange     // `chunk_repository[idx]` with `idx` outside `[-len, len)`

  /** The `np.ndarray` handed to `add_data`: a two-dimensional array of rows of `width`
      numbers, whose width is part of its shape even when it has no rows, or a
      one-dimensional array, which is what encoding an empty list of texts gives. */
  datatype Batch = Matrix(width: nat, rows: seq<Vector>) | OneDim(values: Vector)

  /** `n, d = x.shape; assert d == self.d`: the index takes a two-dimensional array of its own
      width. (A matrix whose rows are not all `width` long is no numpy array; it is refused.) */
  predicate Accepts(dim: nat, b: Batch) {
    b.Matrix? && b.width == dim && Fits(dim, b.rows)
  }

  /** The store's state: the index and `chunk_repository`. */
  datatype Db = Db(index: FlatIndex, repository: seq<string>)

  /** Repository position i holds the text of index vector i. */
  predicate Aligned(d: Db) {
    |d.repository| == |d.index.vectors|
  }

  /** `add_data`: the chunks are appended first; then the rows are appended to the index, or,
      when their width is wrong, the add raises after the chunks are already in. */
  function AddDataSpec(d: Db, chunks: seq<string>, vectors: Batch): (r: (Result<(), DbError>, Db))
    ensures r.1.repository == d.repository + chunks
    ensures r.1.index.dim == d.index.dim
    ensures r.0.Ok? <==> Accepts(d.index.dim, vectors)
    ensures r.0.Ok? ==> r.1.index.vectors == d.index.vectors + vectors.rows
    ensures r.0 == Err(NotMatrix) <==> vectors.OneDim?
    ensures r.0 == Err(DimensionMismatch) <==> vectors.Matrix? && !Accepts(d.index.dim, vectors)
    ensures r.0.Err? ==> r.1.index == d.index
  {
    var repository := d.repository + chunks;
    match vectors
    case OneDim(_) => (Err(NotMatrix), Db(d.index, repository))
    case Matrix(width, rows) =>
      if width == d.index.dim && Fits(d.index.dim, rows) then
        (Ok(()), Db(FlatIndex(d.index.dim, d.index.vectors + rows), repository))
      else (Err(DimensionMismatch), Db(d.index, repository))
  }

  /** An add with no rows is checked like any other: a `(0, w)` array passes only when `w` is
      the index's width, and the one-dimensional array of an empty batch never does; either
      way the chunks are already in. */
  lemma NoRowsChecked(d: Db, chunks: seq<string>, width: nat, values: Vector)
    ensures AddDataSpec(d, chunks, Matrix(width, [])).0 == (if width == d.index.dim then Ok(()) else Err(DimensionMismatch))
    ensures AddDataSpec(d, chunks, OneDim(values)).0 == Err(NotMatrix)
    ensures AddDataSpec(d, chunks, OneDim(values)).1 == Db(d.index, d.repository + chunks)
  {
  }

  /** From an aligned store, a successful add stays aligned exactly when it passes one row
      per chunk. */
  lemma AddAlignment(d: Db, chunks: seq<string>, vectors: Batch)
    requires Aligned(d) && Accepts(d.index.dim, vectors)
    ensures Aligned(AddDataSpec(d, chunks, vectors).1) <==> |chunks| == |vectors.rows|
  {
  }

  /** After an add that stays aligned, the old pairs are untouched and the i-th new chunk sits
      at the same position as the i-th new row. */
  lemma AddPairs(d: Db, chunks: seq<string>, vectors: Batch)
    requires Aligned(d) && Accepts(d.index.dim, vectors) && |chunks| == |vectors.rows|
    ensures var t := AddDataSpec(d, chunks, vectors).1;
      && (forall i :: 0 <= i < |d.repository| ==> t.repository[i] == d.repository[i] && t.index.vectors[i] == d.index.vectors[i])
      && (forall j :: 0 <= j < |chunks| ==>
            t.repository[|d.repository| + j] == chunks[j] && t.index.vectors[|d.repository| + j] == vectors.rows[j])
  {
    var t := AddDataSpec(d, chunks, vectors).1;
    var n, rows := |d.repository|, vectors.rows;
    assert t.repository == d.repository + chunks;
    assert t.index.vectors == d.index.vectors + rows;
    forall j | 0 <= j < |chunks| ensures t.repository[n + j] == chunks[j] && t.index.vectors[n + j] == rows[j] {
      assert (d.repository + chunks)[n + j] == chunks[j];
      assert (d.index.vectors + rows)[n + j] == rows[j];
    }
  }

  /** A rejected add leaves texts without vectors: the store is no longer aligned. */
  lemma FailedAddMisaligns(d: Db, chunks: seq<string>, vectors: Batch)
    requires Aligned(d) && !Accepts(d.index.dim, vectors) && chunks != []
    ensures AddDataSpec(d, chunks, vectors).0.Err?
    ensures !Aligned(AddDataSpec(d, chunks, vectors).1)
  {
  }

  /** The loop of `search_nearest`: one result per returned pair, in the index's order, the
      text looked up by position without a bounds check. */
  function Nearest(hits: seq<Hit>, repository: seq<string>): (r: Result<seq<Match>, DbError>)
    ensures r.Err? ==> r.error == IndexOutOfRange
    ensures r.Err? <==> exists i :: 0 <= i < |hits| && PyIndex(repository, hits[i].pos).None?
    ensures r.Ok? ==> |r.value| == |hits|
    ensures r.Ok? ==> forall i :: 0 <= i < |hits| ==>
      PyIndex(repository, hits[i].pos).Some? && r.value[i] == Match(PyIndex(repository, hits[i].pos).value, hits[i].score)
    decreases |hits|
  {
    if hits == [] then Ok([])
    else
      var init, h := hits[..|hits| - 1], hits[|hits| - 1];
      match Nearest(init, repository)
      case Err(e) => Err(e)
      case Ok(rs) =>
        match PyIndex(repository, h.pos)
        case None => Err(IndexOutOfRange)
        case Some(text) => Ok(rs + [Match(text, h.score)])
  }

  /** `search_nearest` on a store in state `d`: the index refuses a query whose width is not
      its dimension; otherwise the loop of `Nearest` reads its answer for `top_k` rows. */
  function SearchNearestSpec(d: Db, search: SearchFn, queryVector: Vector, topK: int): (r: Result<seq<Match>, DbError>)
    ensures r == Err(DimensionMismatch) <==> |queryVector| != d.index.dim
    ensures r == Err(IndexOutOfRange) <==>
      && |queryVector| == d.index.dim
      && (exists i :: 0 <= i < |search(d.index.vectors, queryVector, topK)| &&
            PyIndex(d.repository, search(d.index.vectors, queryVector, topK)[i].pos).None?)
    ensures r.Ok? ==> |r.value| == |search(d.index.vectors, queryVector, topK)|
  {
    if |queryVector| != d.index.dim then Err(DimensionMismatch)
    else Nearest(search(d.index.vectors, queryVector, topK), d.repository)
  }

  /** Asking an aligned store of `n > 0` vectors for more than `n` rows returns the index's
      padding position -1, which reads the LAST chunk instead of raising. */
  lemma NearestPadding(hits: seq<Hit>, repository: seq<string>, k: int)
    requires 0 < |repository| < k && FlatAnswer(hits, |repository|, k)
    ensures Nearest(hits, repository).Ok?
    ensures Nearest(hits, repository).value[|repository|] == Match(repository[|repository| - 1], hits[|repository|].score)
  {
    var n := |repository|;
    forall i | 0 <= i < |hits| ensures PyIndex(repository, hits[i].pos).Some? {
      if i < n {
        assert 0 <= hits[i].pos < n;
      } else {
        assert hits[i].pos == -1;
      }
    }
    assert hits[n].pos == -1;
  }

  /** On an empty store every search raises: the index answers only padding. */
  lemma NearestOnEmpty(hits: seq<Hit>, k: int)
    requires k >= 1 && FlatAnswer(hits, 0, k)
    ensures Nearest(hits, []) == Err(IndexOutOfRange)
  {
    var none: seq<string> := [];
    assert PyIndex(none, hits[0].pos).None?;
  }

  /** `EducationalVectorDB` */
  class EducationalVectorDB {
    var index: FlatIndex
    var chunkRepository: seq<string>

    function State(): Db
      reads this
    {
      Db(index, chunkRepository)
    }

    /** A new store: an empty index of the given dimension and no chunks. */
    constructor (dimension: nat)
      ensures index == FlatIndex(dimension, []) && chunkRepository == []
      ensures Aligned(State())
    {
      index := FlatIndex(dimension, []);
      chunkRepository := [];
    }

    method AddData(chunks: seq<string>, vectors: Batch) returns (r: Result<(), DbError>)
      modifies this
      ensures (r, State()) == AddDataSpec(old(State()), chunks, vectors)
    {
      chunkRepository := chunkRepository + chunks;
      if vectors.OneDim? {
        return Err(NotMatrix);
      }
      if vectors.width != index.dim || !Fits(index.dim, vectors.rows) {
        return Err(DimensionMismatch);
      }
      index := FlatIndex(index.dim, index.vectors + vectors.rows);
      return Ok(());
    }

    method SearchNearest(search: SearchFn, queryVector: Vector, topK: int) returns (r: Result<seq<Match>, DbError>)
      ensures r == SearchNearestSpec(State(), search, queryVector, topK)
    {
      if |queryVector| != index.dim {
        return Err(DimensionMismatch);
      }
      var hits := search(index.vectors, queryVector, topK);
      var results: seq<Match> := [];
      var i := 0;
      while i < |hits|
        invariant 0 <= i <= |hits|
        invariant Nearest(hits[..i], chunkRepository) == Ok(results)
      {
        assert hits[..i + 1][..i] == hits[..i];
        var text := PyIndex(chunkRepository, hits[i].pos);
        if text.None? {
          assert Nearest(hits[..i + 1], chunkRepository).Err?;
          NearestErrSticks(hits, chunkRepository, i + 1);
          return Err(IndexOutOfRange);
        }
        results := results + [Match(text.value, hits[i].score)];
        i := i + 1;
      }
      assert hits[..i] == hits;
      return Ok(results);
    }
  }

  /** A lookup that raises stops the loop: the whole search raises. */
  lemma {:induction false} NearestErrSticks(hits: seq<Hit>, repository: seq<string>, n: nat)
    requires n <= |hits| && Nearest(hits[..n], repository).Err?
    ensures Nearest(hits, repository) == Err(IndexOutOfRange)
    decreases |hits|
  {
    if n == |hits| {
      assert hits[..n] == hits;
    } else {
      var init := hits[..|hits| - 1];
      assert init[..n] == hits[..n];
      NearestErrSticks(init, repository, n);
    }
  }
}
