/**
 * The learning-phase retrieval flow: embed the question once, search the vector store once
 * for `k` rows, keep the texts scoring strictly above 0.4 in search order, and join them with
 * blank lines into the context. The embedding is a parameter.
 */
module QueryRetrieval {
  import opened Wrappers
  import opened PyText
  import opened VectorIndex
  import opened VectorStorage

  /** The relevance cut: only similarities strictly above it are kept. */
  const Threshold: real := 0.4

  /** `filtered_context` after the loop: the texts above the threshold, in search order. */
  function Relevant(results: seq<Match>): (kept: seq<string>)
    ensures |kept| <= |results|
    decreases |results|
  {
    if results == [] then []
    else
      var last := results[|results| - 1];
      Relevant(results[..|results| - 1]) + (if last.score > Threshold then [last.text] else [])
  }

  /** Filtering a concatenation filters each part in turn: search order is kept. */
  lemma {:induction false} RelevantConcat(a: seq<Match>, b: seq<Match>)
    ensures Relevant(a + b) == Relevant(a) + Relevant(b)
    decreases |b|
  {
    if b == [] {
      assert a + b == a;
    } else {
      var init, last := b[..|b| - 1], b[|b| - 1];
      assert (a + b)[..|a + b| - 1] == a + init;
      assert (a + b)[|a + b| - 1] == last;
      RelevantConcat(a, init);
    }
  }

  /** When every result clears the threshold, all texts are kept. */
  lemma {:induction false} RelevantAll(results: seq<Match>)
    requires forall i :: 0 <= i < |results| ==> results[i].score > Threshold
    ensures |Relevant(results)| == |results|
    ensures forall i :: 0 <= i < |results| ==> Relevant(results)[i] == results[i].text
    decreases |results|
  {
    if results != [] {
      var init := results[..|results| - 1];
      assert forall i :: 0 <= i < |init| ==> init[i] == results[i];
      RelevantAll(init);
    }
  }

  /** When no result clears the threshold, nothing is kept. */
  lemma {:induction false} RelevantNone(results: seq<Match>)
    requires forall i :: 0 <= i < |results| ==> results[i].score <= Threshold
    ensures Relevant(results) == []
    decreases |results|
  {
    if results != [] {
      var init := results[..|results| - 1];
      assert forall i :: 0 <= i < |init| ==> init[i] == results[i];
      RelevantNone(init);
    }
  }

  /** The filtering loop. */
  method FilterContext(results: seq<Match>) returns (filtered: seq<string>)
    ensures filtered == Relevant(results)
  {
    filtered := [];
    var i := 0;
    while i < |results|
      invariant 0 <= i <= |results|
      invariant filtered == Relevant(results[..i])
    {
      assert results[..i + 1][..i] == results[..i];
      if results[i].score > Threshold {
        filtered := filtered + [results[i].text];
      }
      i := i + 1;
    }
    assert results[..i] == results;
  }

  /** `"\n\n".join(filtered_context)` */
  function ContextOf(kept: seq<string>): (ctx: string)
    ensures kept == [] ==> ctx == ""
    ensures |kept| == 1 ==> ctx == kept[0]
  {
    Join("\n\n", kept)
  }

  /** `t` is found in `s` at offset `o`. */
  predicate FoundAt(s: string, t: string, o: int) {
    0 <= o <= |s| - |t| && s[o..o + |t|] == t
  }

  /** Every kept text appears whole in the joined context. */
  lemma {:induction false} ContextHolds(kept: seq<string>, j: nat)
    requires j < |kept|
    ensures exists o :: FoundAt(ContextOf(kept), kept[j], o)
    decreases |kept|
  {
    var ctx := ContextOf(kept);
    if |kept| == 1 {
      assert FoundAt(ctx, kept[0], 0);
    } else {
      var rest := Join("\n\n", kept[1..]);
      var head := kept[0] + "\n\n";
      assert ctx == head + rest;
      if j == 0 {
        assert ctx[0..|kept[0]|] == kept[0];
        assert FoundAt(ctx, kept[0], 0);
      } else {
        ContextHolds(kept[1..], j - 1);
        assert kept[1..][j - 1] == kept[j];
        var o :| FoundAt(rest, kept[j], o);
        assert ctx[|head| + o..|head| + o + |kept[j]|] == rest[o..o + |kept[j]|];
        assert FoundAt(ctx, kept[j], |head| + o);
      }
    }
  }

  /** `educational_retrieval_flow` on a store in state `d`: one embedding, one search for `k`
      rows, then the filter and the join; an error of the search is passed on. */
  function Flow(d: Db, createVector: string -> Vector, search: SearchFn, query: string, k: int): (r: Result<string, DbError>)
    ensures r.Err? <==> SearchNearestSpec(d, search, createVector(query), k).Err?
    ensures r == Err(DimensionMismatch) <==> |createVector(query)| != d.index.dim
  {
    match SearchNearestSpec(d, search, createVector(query), k)
    case Err(e) => Err(e)
    case Ok(rawResults) => Ok(ContextOf(Relevant(rawResults)))
  }

  /** A search whose rows all score at most the threshold yields the empty context. */
  lemma FlowQuiet(d: Db, createVector: string -> Vector, search: SearchFn, query: string, k: int)
    requires SearchNearestSpec(d, search, createVector(query), k).Ok?
    requires var rs := SearchNearestSpec(d, search, createVector(query), k).value;
      forall i :: 0 <= i < |rs| ==> rs[i].score <= Threshold
    ensures Flow(d, createVector, search, query, k) == Ok("")
  {
    RelevantNone(SearchNearestSpec(d, search, createVector(query), k).value);
  }

  /** `educational_retrieval_flow` */
  method RetrievalFlow(query: string, createVector: string -> Vector, db: EducationalVectorDB, search: SearchFn, k: int)
    returns (r: Result<string, DbError>)
    ensures r == Flow(db.State(), createVector, search, query, k)
  {
    var queryVector := createVector(query);
    var rawResults := db.SearchNearest(search, queryVector, k);
    if rawResults.Err? {
      return Err(rawResults.error);
    }
    var filtered := FilterContext(rawResults.value);
    return Ok(ContextOf(filtered));
  }
}
