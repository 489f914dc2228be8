/**
 * The learning-phase chunker: the cleaned text's words cut into windows of `size` words that
 * start every `size - overlap` words, stopping after the first window that reaches the end.
 */
module SlidingChunker {
  import opened Wrappers
  import opened PyText

  /** `re.sub(r'\s+', ' ', text).strip().split()` */
  function CleanWords(text: string): (words: seq<string>)
    ensures AreWords(words)
  {
    Words(Strip(CollapseSpaces(text)))
  }

  /** The windows the loop produces once `i` has reached a start position: the window at `i`,
      then, unless it reaches the last word, the windows from `i + step`. */
  function WindowsFrom(words: seq<string>, size: int, step: int, i: int): seq<seq<string>>
    requires step > 0 && i >= 0
    decreases |words| - i
  {
    if i >= |words| then []
    else [PySlice(words, i, i + size)] + (if i + size >= |words| then [] else WindowsFrom(words, size, step, i + step))
  }

  /** `[" ".join(w) for w in windows]` */
  function JoinEach(windows: seq<seq<string>>): (r: seq<string>)
    ensures |r| == |windows|
    ensures forall j :: 0 <= j < |windows| ==> r[j] == Join(" ", windows[j])
  {
    seq(|windows|, j requires 0 <= j < |windows| => Join(" ", windows[j]))
  }

  /** What `educational_chunk_logic(text, size, overlap)` returns or raises. */
  function SlidingChunks(text: string, size: int, overlap: int): (r: Result<seq<string>, RangeError>)
    ensures r.Err? <==> size == overlap
    ensures size < overlap ==> r == Ok([])
    ensures size > overlap ==> r.Ok? && (r.value == [] <==> CleanWords(text) == [])
  {
    var step := size - overlap;
    if step == 0 then Err(StepIsZero)
    else if step < 0 then Ok([])
    else Ok(JoinEach(WindowsFrom(CleanWords(text), size, step, 0)))
  }

  /** `educational_chunk_logic`: `range` rejects a zero step before anything else, a negative
      step gives no chunks, otherwise the loop emits the windows and breaks at the end. */
  method EducationalChunkLogic(text: string, size: int, overlap: int) returns (r: Result<seq<string>, RangeError>)
    ensures r == SlidingChunks(text, size, overlap)
    ensures size == overlap ==> r == Err(StepIsZero)
    ensures size < overlap ==> r == Ok([])
  {
    var words := CleanWords(text);
    var step := size - overlap;
    if step == 0 {
      return Err(StepIsZero);
    }
    var chunks: seq<string> := [];
    if step > 0 {
      chunks := WindowLoop(words, size, step);
    }
    return Ok(chunks);
  }

  /** The `for i in range(0, total_words, step)` loop with its break, for a positive step. */
  method WindowLoop(words: seq<string>, size: int, step: int) returns (chunks: seq<string>)
    requires step > 0
    ensures chunks == JoinEach(WindowsFrom(words, size, step, 0))
  {
    var total := |words|;
    chunks := [];
    var i := 0;
    while i < total
      invariant 0 <= i
      invariant chunks + JoinEach(WindowsFrom(words, size, step, i)) == JoinEach(WindowsFrom(words, size, step, 0))
      decreases total - i
    {
      var chunkWords := PySlice(words, i, i + size);
      var rest := if i + size >= total then [] else WindowsFrom(words, size, step, i + step);
      LoopTurn(words, size, step, i);
      JoinEachCons(chunkWords, rest);
      var chunk := Join(" ", chunkWords);
      assert chunks + JoinEach(WindowsFrom(words, size, step, i)) == (chunks + [chunk]) + JoinEach(rest);
      chunks := chunks + [chunk];
      if i + size >= total {
        assert JoinEach(rest) == [];
        break;
      }
      i := i + step;
    }
  }

  /** One turn of the loop: the window at `i`, then, unless it reaches the end, the rest. */
  lemma LoopTurn(words: seq<string>, size: int, step: int, i: int)
    requires step > 0 && 0 <= i < |words|
    ensures i + size >= |words| ==> WindowsFrom(words, size, step, i) == [PySlice(words, i, i + size)]
    ensures i + size < |words| ==>
      WindowsFrom(words, size, step, i) == [PySlice(words, i, i + size)] + WindowsFrom(words, size, step, i + step)
  {
  }

  lemma JoinEachCons(w: seq<string>, rest: seq<seq<string>>)
    ensures JoinEach([w] + rest) == [Join(" ", w)] + JoinEach(rest)
  {
    assert |JoinEach([w] + rest)| == 1 + |rest|;
  }

  /** For a positive size, the window at a start position is the slice up to `size` words on,
      and another window follows exactly when this one stops short of the end. */
  lemma WindowAt(words: seq<string>, size: int, step: int, i: int)
    requires 0 < step <= size && 0 <= i < |words|
    ensures WindowsFrom(words, size, step, i) != []
    ensures WindowsFrom(words, size, step, i)[0] == words[i .. Min(i + size, |words|)]
    ensures |WindowsFrom(words, size, step, i)| > 1 <==> i + size < |words|
  {
    LoopTurn(words, size, step, i);
    if i + size < |words| {
      LoopTurn(words, size, step, i + step);
    }
  }

  /** Window `j > 0` of those from `i` is window `j - 1` of those from `i + step`. */
  lemma WindowLater(words: seq<string>, size: int, step: int, i: int, j: nat)
    requires 0 < step <= size && 0 <= i
    requires 0 < j < |WindowsFrom(words, size, step, i)|
    ensures i + size < |words|
    ensures |WindowsFrom(words, size, step, i)| == 1 + |WindowsFrom(words, size, step, i + step)|
    ensures WindowsFrom(words, size, step, i)[j] == WindowsFrom(words, size, step, i + step)[j - 1]
  {
    LoopTurn(words, size, step, i);
  }

  /** Window `j` of those from `i`, which starts at `a = i + j*step`, is `words[a : a + size]`;
      it starts before the end, and it is the last one exactly when it reaches the end. */
  lemma {:induction false} WindowShape(words: seq<string>, size: int, step: int, i: int, j: nat, a: int)
    requires 0 < step <= size && 0 <= i
    requires j < |WindowsFrom(words, size, step, i)|
    requires a == i + RangeItem(j, step)
    ensures a < |words|
    ensures WindowsFrom(words, size, step, i)[j] == words[a .. Min(a + size, |words|)]
    ensures j + 1 < |WindowsFrom(words, size, step, i)| <==> a + size < |words|
    decreases j
  {
    if j == 0 {
      WindowAt(words, size, step, i);
      assert RangeItem(0, step) == 0;
    } else {
      WindowLater(words, size, step, i, j);
      RangeItemNext(j, step);
      WindowShape(words, size, step, i + step, j - 1, a);
    }
  }

  /** Every word position from `i` on lies within `size` words of the start of some window. */
  lemma {:induction false} WindowsCoverFrom(words: seq<string>, size: int, step: int, i: int, p: int)
    requires 0 < step <= size && 0 <= i <= p < |words|
    ensures exists j: nat ::
      j < |WindowsFrom(words, size, step, i)| &&
      i + RangeItem(j, step) <= p < i + RangeItem(j, step) + size
    decreases |words| - i
  {
    WindowAt(words, size, step, i);
    if p < i + size {
      assert RangeItem(0, step) == 0;
    } else {
      WindowsCoverFrom(words, size, step, i + step, p);
      var k: nat :| k < |WindowsFrom(words, size, step, i + step)| &&
        i + step + RangeItem(k, step) <= p < i + step + RangeItem(k, step) + size;
      WindowLater(words, size, step, i, k + 1);
      RangeItemNext(k + 1, step);
    }
  }

  /** The windows of a word list, for `0 <= overlap < size`: window `j` is
      `words[j*step : j*step + size]`, non-empty and at most `size` long; every window but the
      last has exactly `size` words and the last one ends at the last word; there are windows
      exactly when there are words. */
  lemma WindowsSpec(words: seq<string>, size: int, overlap: int, j: nat)
    requires 0 <= overlap < size
    requires j < |WindowsFrom(words, size, size - overlap, 0)|
    ensures var step, ws := size - overlap, WindowsFrom(words, size, size - overlap, 0);
      && RangeItem(j, step) == j * step < |words|
      && ws[j] == words[j * step .. Min(j * step + size, |words|)]
      && 0 < |ws[j]| <= size
      && (j < |ws| - 1 ==> |ws[j]| == size)
      && (j == |ws| - 1 ==> ws[j] == words[j * step ..])
  {
    var step := size - overlap;
    WindowShape(words, size, step, 0, j, RangeItem(j, step));
    RangeItemIsProduct(j, step);
  }

  /** There are windows exactly when there are words. */
  lemma WindowsExist(words: seq<string>, size: int, overlap: int)
    requires 0 <= overlap < size
    ensures WindowsFrom(words, size, size - overlap, 0) == [] <==> words == []
  {
  }

  /** Consecutive windows share `overlap` words: the tail of one after its first `step` words
      is the head of the next. */
  lemma WindowsOverlap(words: seq<string>, size: int, overlap: int, j: nat)
    requires 0 <= overlap < size
    requires j + 1 < |WindowsFrom(words, size, size - overlap, 0)|
    ensures var step, ws := size - overlap, WindowsFrom(words, size, size - overlap, 0);
      |ws[j]| == size && |ws[j + 1]| >= overlap && ws[j][step..] == ws[j + 1][..overlap]
  {
    var step, ws := size - overlap, WindowsFrom(words, size, size - overlap, 0);
    var s := RangeItem(j, step);
    WindowShape(words, size, step, 0, j, s);
    RangeItemNext(j + 1, step);
    WindowShape(words, size, step, 0, j + 1, s + step);
    assert ws[j] == words[s .. s + size];
    assert ws[j][step..] == words[s + step .. s + size];
    assert ws[j + 1][..overlap] == words[s + step .. s + size];
  }

  /** Every word position is inside some window. */
  lemma WindowsCover(words: seq<string>, size: int, overlap: int, p: int)
    requires 0 <= overlap < size && 0 <= p < |words|
    ensures var step, ws := size - overlap, WindowsFrom(words, size, size - overlap, 0);
      exists j: nat :: j < |ws| && RangeItem(j, step) <= p < RangeItem(j, step) + |ws[j]|
  {
    var step, ws := size - overlap, WindowsFrom(words, size, size - overlap, 0);
    WindowsCoverFrom(words, size, step, 0, p);
    var j: nat :| j < |ws| && RangeItem(j, step) <= p < RangeItem(j, step) + size;
    WindowShape(words, size, step, 0, j, RangeItem(j, step));
  }

  /** Whitespace-only text gives no chunks (when the step is not zero). */
  lemma BlankTextNoChunks(text: string, size: int, overlap: int)
    requires AllSpace(text) && size != overlap
    ensures SlidingChunks(text, size, overlap) == Ok([])
  {
    CollapseBlank(text);
    StripEmptyIffBlank(CollapseSpaces(text));
    WordsOfNothing();
  }

  /** Each chunk splits back into exactly its window: the words joined by single spaces. */
  lemma ChunkWords(words: seq<string>, size: int, overlap: int, j: nat)
    requires AreWords(words)
    requires 0 <= overlap < size
    requires j < |WindowsFrom(words, size, size - overlap, 0)|
    ensures var ws := WindowsFrom(words, size, size - overlap, 0);
      Words(JoinEach(ws)[j]) == ws[j] && |Words(JoinEach(ws)[j])| <= size
  {
    var ws := WindowsFrom(words, size, size - overlap, 0);
    WindowShape(words, size, size - overlap, 0, j, RangeItem(j, size - overlap));
    assert AreWords(ws[j]);
    WordsOfJoin(ws[j]);
  }
}
