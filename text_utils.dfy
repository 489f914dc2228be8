/**
 * The paragraph-aware chunker of the chat application and its text cleaner. The text is
 * cleaned, split into paragraphs at newlines, and the paragraphs are grouped until a group
 * would pass `chunk_size` words; a paragraph longer than that is cut into word windows.
 */
module TextUtils {
  import opened Wrappers
  import opened PyText

  // ---------------------------------------------------------------- clean_text

  /** `clean_text`: whitespace runs to one space, newline runs to one newline, then `strip()`. */
  function CleanText(text: string): (r: string)
    ensures r == [] || (!IsSpace(r[0]) && !IsSpace(r[|r| - 1]))
  {
    Strip(SquashNewlines(CollapseSpaces(text)))
  }

  /** Cleaning is collapsing then stripping: the newline substitution never applies. */
  lemma CleanTextIsStripped(text: string)
    ensures CleanText(text) == Strip(CollapseSpaces(text))
  {
    var c := CollapseSpaces(text);
    CollapsedHasNoNewline(c);
    SquashNewlinesNoop(c);
  }

  /** Cleaned text has no newline and only single spaces between words. */
  lemma CleanTextCollapsed(text: string)
    ensures '\n' !in CleanText(text) && SpacesCollapsed(CleanText(text))
  {
    var c := CollapseSpaces(text);
    CleanTextIsStripped(text);
    var r := Strip(c);
    StripIsSlice(c);
    var a := |c| - |TrimLeft(c)|;
    CollapsedSlice(c, a, a + |r|);
    CollapsedHasNoNewline(r);
  }

  /** Cleaned text has no whitespace at either end and is empty exactly when the input is
      whitespace only. */
  lemma CleanTextEnds(text: string)
    ensures var r := CleanText(text);
      && (r == [] || (!IsSpace(r[0]) && !IsSpace(r[|r| - 1])))
      && (r == [] <==> AllSpace(text))
  {
    var c := CollapseSpaces(text);
    CleanTextIsStripped(text);
    StripEnds(c);
    StripEmptyIffBlank(c);
    if AllSpace(text) {
      CollapseBlank(text);
    } else {
      CollapseKeepsNonSpace(text);
    }
  }

  /** Cleaning twice is cleaning once. */
  lemma CleanTextIdempotent(text: string)
    ensures CleanText(CleanText(text)) == CleanText(text)
  {
    var r := CleanText(text);
    CleanTextCollapsed(text);
    CleanTextEnds(text);
    CollapseNoop(r);
    SquashNewlinesNoop(r);
    StripKeepsTrimmed(r);
  }

  // ---------------------------------------------------------------- paragraphs

  /** `[p.strip() for p in text.split('\n') if p.strip()]` */
  function Paragraphs(text: string): seq<string> {
    NonEmpty(StripAll(Split(text, '\n')))
  }

  /** A stripped, non-empty line without newline is its own single paragraph. */
  lemma ParagraphsOfLine(c: string)
    requires '\n' !in c && c != [] && Strip(c) == c
    ensures Paragraphs(c) == [c]
  {
    SplitWithoutSep(c, '\n');
    assert StripAll([c]) == [c];
    assert NonEmpty([c]) == [c] + NonEmpty([]);
  }

  /** Cleaned text is a single paragraph, unless it is empty. */
  lemma SingleParagraph(text: string)
    requires !AllSpace(text)
    ensures Paragraphs(CleanText(text)) == [CleanText(text)]
  {
    var c := CleanText(text);
    CleanTextCollapsed(text);
    CleanTextEnds(text);
    StripKeepsTrimmed(c);
    ParagraphsOfLine(c);
  }

  // ---------------------------------------------------------------- the chunking loop

  /** What ends up in `chunks`: a word window of a long paragraph, or a group of paragraphs. */
  datatype Piece = Window(words: seq<string>) | Group(paras: seq<string>)

  /** The chunk string of a piece. */
  function Render(p: Piece): string {
    match p
    case Window(ws) => Join(" ", ws)
    case Group(ps) => Join("\n", ps)
  }

  function RenderAll(ps: seq<Piece>): (r: seq<string>)
    ensures |r| == |ps|
    ensures forall i :: 0 <= i < |ps| ==> r[i] == Render(ps[i])
  {
    seq(|ps|, i requires 0 <= i < |ps| => Render(ps[i]))
  }

  lemma RenderAllAppend(a: seq<Piece>, b: seq<Piece>)
    ensures RenderAll(a + b) == RenderAll(a) + RenderAll(b)
  {
  }

  /** `len(para.split())` */
  function WordCount(s: string): nat {
    |Words(s)|
  }

  /** `sum(len(s.split()) for s in paras)` */
  function SumWords(paras: seq<string>): nat {
    if paras == [] then 0 else SumWords(paras[..|paras| - 1]) + WordCount(paras[|paras| - 1])
  }

  /** `current_chunk[-2:] if len(current_chunk) >= 2 else current_chunk[-1:]` */
  function LastTwo(paras: seq<string>): (r: seq<string>)
    requires paras != []
    ensures |r| == Min(2, |paras|) && r == paras[|paras| - |r|..]
  {
    if |paras| >= 2 then paras[|paras| - 2..] else paras[|paras| - 1..]
  }

  /** `[words[i:i + chunk_size] for i in range(start, len(words), step)]`, positive step. */
  function RangePieces(words: seq<string>, size: int, step: int, i: int): seq<Piece>
    requires step > 0 && i >= 0
    decreases |words| - i
  {
    if i >= |words| then [] else [Window(PySlice(words, i, i + size))] + RangePieces(words, size, step, i + step)
  }

  /** The windows of an over-long paragraph; `range` refuses a zero step. */
  function LongPieces(words: seq<string>, size: int, overlap: int): Result<seq<Piece>, RangeError> {
    var step := size - overlap;
    if step == 0 then Err(StepIsZero)
    else if step < 0 then Ok([])
    else Ok(RangePieces(words, size, step, 0))
  }

  /** The loop's variables: `chunks` (as pieces), `current_chunk`, `current_length`. */
  datatype Grouping = Grouping(pieces: seq<Piece>, current: seq<string>, length: int)

  /** One turn of `for para in paragraphs`, `words` being `para.split()`. */
  function Step(g: Grouping, para: string, words: seq<string>, size: int, overlap: int): Result<Grouping, RangeError> {
    var n := |words|;
    if n > size then Cut(g, words, size, overlap)
    else Ok(Append(Close(g, n, size, overlap), para, n))
  }

  /** A long paragraph: its windows are emitted, the open group is left as it is. */
  function Cut(g: Grouping, words: seq<string>, size: int, overlap: int): Result<Grouping, RangeError> {
    match LongPieces(words, size, overlap)
    case Err(e) => Err(e)
    case Ok(ws) => Ok(Grouping(g.pieces + ws, g.current, g.length))
  }

  /** Before a short paragraph of `n` words: the open group is emitted when it is non-empty
      and would grow past `size`, and the next one starts with its last two paragraphs when
      there is overlap. */
  function Close(g: Grouping, n: int, size: int, overlap: int): Grouping {
    if g.length + n > size && g.current != [] then
      var emitted := g.pieces + [Group(g.current)];
      if overlap > 0 then Grouping(emitted, LastTwo(g.current), SumWords(LastTwo(g.current)))
      else Grouping(emitted, [], 0)
    else g
  }

  /** `current_chunk.append(para)` and `current_length += para_tokens`. */
  function Append(g: Grouping, para: string, n: int): Grouping {
    Grouping(g.pieces, g.current + [para], g.length + n)
  }

  /** The loop's variables after the first `|paras|` paragraphs, or the error raised. */
  function Fold(paras: seq<string>, size: int, overlap: int): Result<Grouping, RangeError>
    decreases |paras|
  {
    if paras == [] then Ok(Grouping([], [], 0))
    else
      var last := paras[|paras| - 1];
      match Fold(paras[..|paras| - 1], size, overlap)
      case Err(e) => Err(e)
      case Ok(g) => Step(g, last, Words(last), size, overlap)
  }

  /** The final `if current_chunk: chunks.append(...)`. */
  function Finish(g: Grouping): seq<Piece> {
    if g.current != [] then g.pieces + [Group(g.current)] else g.pieces
  }

  /** The final flush after the loop, or the error the loop raised. */
  function FinishPieces(f: Result<Grouping, RangeError>): Result<seq<Piece>, RangeError> {
    match f
    case Err(e) => Err(e)
    case Ok(g) => Ok(Finish(g))
  }

  /** The chunk strings of the pieces, or the error. */
  function Rendered(f: Result<seq<Piece>, RangeError>): Result<seq<string>, RangeError> {
    match f
    case Err(e) => Err(e)
    case Ok(ps) => Ok(RenderAll(ps))
  }

  /** The pieces `chunk_text` emits, or the error it raises. */
  function ChunkPieces(text: string, size: int, overlap: int): Result<seq<Piece>, RangeError> {
    if Strip(text) == [] then Ok([])
    else FinishPieces(Fold(Paragraphs(CleanText(text)), size, overlap))
  }

  /** What `chunk_text(text, chunk_size, overlap)` returns or raises. */
  function ChunkTextSpec(text: string, size: int, overlap: int): (r: Result<seq<string>, RangeError>)
    ensures Strip(text) == [] ==> r == Ok([])
  {
    Rendered(ChunkPieces(text, size, overlap))
  }

  /** An error in the first paragraphs is an error of the whole loop. */
  lemma {:induction false} FoldErrSticks(paras: seq<string>, k: nat, size: int, overlap: int)
    requires k <= |paras| && Fold(paras[..k], size, overlap).Err?
    ensures Fold(paras, size, overlap) == Err(StepIsZero)
    decreases |paras|
  {
    if k < |paras| {
      var init := paras[..|paras| - 1];
      assert init[..k] == paras[..k];
      FoldErrSticks(init, k, size, overlap);
    } else {
      assert paras[..k] == paras;
      assert Fold(paras, size, overlap).error == StepIsZero;
    }
  }

  /** The loop state after one more paragraph. */
  lemma FoldNext(paras: seq<string>, k: nat, size: int, overlap: int, g: Grouping)
    requires k < |paras| && Fold(paras[..k], size, overlap) == Ok(g)
    ensures Fold(paras[..k + 1], size, overlap) == Step(g, paras[k], Words(paras[k]), size, overlap)
  {
    assert paras[..k + 1][..k] == paras[..k];
  }

  /** The inner `for i in range(0, len(words), step)` loop, for a positive step. */
  method RangeLoop(words: seq<string>, size: int, step: int) returns (out: seq<string>)
    requires step > 0
    ensures out == RenderAll(RangePieces(words, size, step, 0))
  {
    ghost var all := RenderAll(RangePieces(words, size, step, 0));
    out := [];
    var i := 0;
    assert out + RenderAll(RangePieces(words, size, step, i)) == all;
    while i < |words|
      invariant 0 <= i
      invariant out + RenderAll(RangePieces(words, size, step, i)) == all
      decreases |words| - i
    {
      var chunkWords := PySlice(words, i, i + size);
      var chunk := Join(" ", chunkWords);
      ghost var rest := RangePieces(words, size, step, i + step);
      RangeTurn(words, size, step, i);
      RenderAllCons(Window(chunkWords), rest);
      ConsAssoc(out, chunk, RenderAll(rest));
      out := out + [chunk];
      i := i + step;
      assert out + RenderAll(rest) == all;
      assert rest == RangePieces(words, size, step, i);
    }
    assert RenderAll(RangePieces(words, size, step, i)) == [];
    assert out + [] == out;
  }

  lemma ConsAssoc<T>(a: seq<T>, x: T, b: seq<T>)
    ensures a + ([x] + b) == (a + [x]) + b
  {
  }

  lemma RangeTurn(words: seq<string>, size: int, step: int, i: int)
    requires step > 0 && 0 <= i < |words|
    ensures RangePieces(words, size, step, i) == [Window(PySlice(words, i, i + size))] + RangePieces(words, size, step, i + step)
  {
  }

  lemma RenderAllCons(p: Piece, rest: seq<Piece>)
    ensures RenderAll([p] + rest) == [Render(p)] + RenderAll(rest)
  {
    assert |RenderAll([p] + rest)| == 1 + |rest|;
  }

  /** `chunk_text`: whitespace-only text gives no chunks; otherwise the cleaned paragraphs
      are grouped and windowed as `ChunkTextSpec` describes. */
  method ChunkText(text: string, chunkSize: int, overlap: int) returns (r: Result<seq<string>, RangeError>)
    ensures r == ChunkTextSpec(text, chunkSize, overlap)
    ensures AllSpace(text) ==> r == Ok([])
  {
    StripEmptyIffBlank(text);
    if text == [] || Strip(text) == [] {
      return Ok([]);
    }
    var paragraphs := Paragraphs(CleanText(text));
    r := ChunkParagraphs(paragraphs, chunkSize, overlap);
  }

  /** The variables of the loop in `chunk_text`. */
  datatype LoopVars = LoopVars(chunks: seq<string>, current: seq<string>, length: int)

  /** The loop variables hold what the grouping `g` says. */
  predicate Tracks(v: LoopVars, g: Grouping) {
    v.chunks == RenderAll(g.pieces) && v.current == g.current && v.length == g.length
  }

  /** `for para in paragraphs` and the final flush. */
  method ChunkParagraphs(paragraphs: seq<string>, chunkSize: int, overlap: int) returns (r: Result<seq<string>, RangeError>)
    ensures r == Rendered(FinishPieces(Fold(paragraphs, chunkSize, overlap)))
  {
    var v := LoopVars([], [], 0);
    ghost var g := Grouping([], [], 0);
    var k := 0;
    while k < |paragraphs|
      invariant 0 <= k <= |paragraphs|
      invariant Fold(paragraphs[..k], chunkSize, overlap) == Ok(g)
      invariant Tracks(v, g)
    {
      var para := paragraphs[k];
      var next := AddParagraph(v, para, Words(para), chunkSize, overlap, g);
      FoldNext(paragraphs, k, chunkSize, overlap, g);
      if next.Err? {
        FoldErrSticks(paragraphs, k + 1, chunkSize, overlap);
        return Err(next.error);
      }
      v := next.value;
      g := Step(g, para, Words(para), chunkSize, overlap).value;
      k := k + 1;
    }
    assert paragraphs[..k] == paragraphs;
    var chunks := Flush(v, g);
    return Ok(chunks);
  }

  /** `if current_chunk: chunks.append('\n'.join(current_chunk))` */
  method Flush(v: LoopVars, ghost g: Grouping) returns (chunks: seq<string>)
    requires Tracks(v, g)
    ensures chunks == RenderAll(Finish(g))
  {
    chunks := v.chunks;
    if v.current != [] {
      RenderAllAppend(g.pieces, [Group(v.current)]);
      assert RenderAll([Group(v.current)]) == [Join("\n", v.current)];
      chunks := chunks + [Join("\n", v.current)];
    }
  }

  /** One turn of `for para in paragraphs`, given `para.split()`: a long paragraph is cut into
      windows, a short one joins the current group. */
  method AddParagraph(v: LoopVars, para: string, words: seq<string>, chunkSize: int, overlap: int, ghost g: Grouping)
    returns (r: Result<LoopVars, RangeError>)
    requires Tracks(v, g)
    ensures Step(g, para, words, chunkSize, overlap).Err? ==> r == Err(StepIsZero)
    ensures Step(g, para, words, chunkSize, overlap).Ok? ==>
      r.Ok? && Tracks(r.value, Step(g, para, words, chunkSize, overlap).value)
  {
    if |words| > chunkSize {
      r := CutParagraph(v, words, chunkSize, overlap, g);
    } else {
      var w := JoinParagraph(v, para, |words|, chunkSize, overlap, g);
      r := Ok(w);
    }
  }

  /** The words of a paragraph longer than `chunk_size`, as windows (`range` refuses a zero
      step); the current group is left as it is. */
  method CutParagraph(v: LoopVars, words: seq<string>, chunkSize: int, overlap: int, ghost g: Grouping)
    returns (r: Result<LoopVars, RangeError>)
    requires Tracks(v, g)
    ensures Cut(g, words, chunkSize, overlap).Err? ==> r == Err(StepIsZero)
    ensures Cut(g, words, chunkSize, overlap).Ok? ==> r.Ok? && Tracks(r.value, Cut(g, words, chunkSize, overlap).value)
  {
    var chunks := v.chunks;
    var step := chunkSize - overlap;
    if step == 0 {
      return Err(StepIsZero);
    }
    if step > 0 {
      var out := RangeLoop(words, chunkSize, step);
      RenderAllAppend(g.pieces, RangePieces(words, chunkSize, step, 0));
      chunks := chunks + out;
    } else {
      assert g.pieces + [] == g.pieces;
    }
    return Ok(LoopVars(chunks, v.current, v.length));
  }

  /** A paragraph of `paraTokens <= chunk_size` words: the current group is emitted first if
      it would grow past `chunk_size`, keeping its last two paragraphs when there is overlap. */
  method JoinParagraph(v: LoopVars, para: string, paraTokens: int, chunkSize: int, overlap: int, ghost g: Grouping)
    returns (w: LoopVars)
    requires Tracks(v, g)
    ensures Tracks(w, Append(Close(g, paraTokens, chunkSize, overlap), para, paraTokens))
  {
    var chunks, currentChunk, currentLength := v.chunks, v.current, v.length;
    if currentLength + paraTokens > chunkSize && currentChunk != [] {
      RenderAllAppend(g.pieces, [Group(currentChunk)]);
      assert RenderAll([Group(currentChunk)]) == [Join("\n", currentChunk)];
      chunks := chunks + [Join("\n", currentChunk)];
      if overlap > 0 && currentChunk != [] {
        var lastSentences := if |currentChunk| >= 2 then currentChunk[|currentChunk| - 2..] else currentChunk[|currentChunk| - 1..];
        currentChunk := lastSentences;
        currentLength := SumWords(currentChunk);
      } else {
        currentChunk := [];
        currentLength := 0;
      }
    }
    currentChunk := currentChunk + [para];
    currentLength := currentLength + paraTokens;
    return LoopVars(chunks, currentChunk, currentLength);
  }

  // ---------------------------------------------------------------- what chunk_text produces

  /** The loop over a single paragraph. */
  lemma OneParagraph(c: string, size: int, overlap: int)
    ensures Fold([c], size, overlap) == Step(Grouping([], [], 0), c, Words(c), size, overlap)
  {
    assert [c][..0] == [];
  }

  /** A single short paragraph is flushed as the one chunk. */
  lemma ShortAlone(c: string, words: seq<string>, size: int, overlap: int)
    requires |words| <= size
    ensures Rendered(FinishPieces(Step(Grouping([], [], 0), c, words, size, overlap))) == Ok([c])
  {
    var g := Append(Grouping([], [], 0), c, |words|);
    assert Close(Grouping([], [], 0), |words|, size, overlap) == Grouping([], [], 0);
    assert g.current == [c];
    assert Finish(g) == [] + [Group([c])] == [Group([c])];
    assert RenderAll([Group([c])]) == [Join("\n", [c])];
  }

  /** A single long paragraph gives its windows only. */
  lemma LongAlone(c: string, words: seq<string>, size: int, overlap: int)
    requires |words| > size
    ensures Rendered(FinishPieces(Step(Grouping([], [], 0), c, words, size, overlap))) == Rendered(LongPieces(words, size, overlap))
  {
    var step := size - overlap;
    if step > 0 {
      assert [] + RangePieces(words, size, step, 0) == RangePieces(words, size, step, 0);
    }
  }

  /** Cleaning leaves no newline, so a non-blank text is one paragraph and the grouping never
      sees a second one: text of at most `chunk_size` words comes back as one chunk, the
      cleaned text itself. */
  lemma ShortText(text: string, size: int, overlap: int)
    requires !AllSpace(text) && WordCount(CleanText(text)) <= size
    ensures ChunkTextSpec(text, size, overlap) == Ok([CleanText(text)])
  {
    var c := CleanText(text);
    StripEmptyIffBlank(text);
    SingleParagraph(text);
    OneParagraph(c, size, overlap);
    ShortAlone(c, Words(c), size, overlap);
  }

  /** Longer text is cut into the word windows of the cleaned text: `range` refuses a zero
      step, a negative step gives no chunks. */
  lemma LongText(text: string, size: int, overlap: int)
    requires !AllSpace(text) && WordCount(CleanText(text)) > size
    ensures ChunkTextSpec(text, size, overlap) == Rendered(LongPieces(Words(CleanText(text)), size, overlap))
    ensures size == overlap ==> ChunkTextSpec(text, size, overlap) == Err(StepIsZero)
    ensures size < overlap ==> ChunkTextSpec(text, size, overlap) == Ok([])
  {
    var c := CleanText(text);
    StripEmptyIffBlank(text);
    SingleParagraph(text);
    OneParagraph(c, size, overlap);
    LongAlone(c, Words(c), size, overlap);
    assert RenderAll([]) == [];
  }

  /** Window `j` from start `i` begins `j` steps on, and windows go on exactly while their
      start is before the end. */
  lemma RangePiecesShape(words: seq<string>, size: int, step: int, i: int, j: nat)
    requires step > 0 && i >= 0
    ensures j < |RangePieces(words, size, step, i)| <==> i + RangeItem(j, step) < |words|
    ensures j < |RangePieces(words, size, step, i)| ==>
      RangePieces(words, size, step, i)[j] == Window(PySlice(words, i + RangeItem(j, step), i + RangeItem(j, step) + size))
  {
    RangePiecesCount(words, size, step, i, j);
    if j < |RangePieces(words, size, step, i)| {
      RangePiecesAt(words, size, step, i, j, i + RangeItem(j, step));
    }
  }

  lemma {:induction false} RangePiecesCount(words: seq<string>, size: int, step: int, i: int, j: nat)
    requires step > 0 && i >= 0
    ensures j < |RangePieces(words, size, step, i)| <==> i + RangeItem(j, step) < |words|
    decreases j
  {
    if i >= |words| {
      assert RangeItem(j, step) >= 0;
    } else if j == 0 {
      RangeTurn(words, size, step, i);
    } else {
      RangeLater(words, size, step, i, j);
      RangePiecesCount(words, size, step, i + step, j - 1);
      RangeItemNext(j, step);
    }
  }

  lemma {:induction false} RangePiecesAt(words: seq<string>, size: int, step: int, i: int, j: nat, a: int)
    requires step > 0 && i >= 0 && j < |RangePieces(words, size, step, i)|
    requires a == i + RangeItem(j, step)
    ensures RangePieces(words, size, step, i)[j] == Window(PySlice(words, a, a + size))
    decreases j
  {
    assert i < |words|;
    if j == 0 {
      RangeTurn(words, size, step, i);
      assert RangeItem(0, step) == 0;
    } else {
      RangeLater(words, size, step, i, j);
      RangeItemNext(j, step);
      RangePiecesAt(words, size, step, i + step, j - 1, a);
    }
  }

  /** Window `j > 0` from `i` is window `j - 1` from `i + step`. */
  lemma RangeLater(words: seq<string>, size: int, step: int, i: int, j: nat)
    requires step > 0 && 0 <= i < |words| && j > 0
    ensures j < |RangePieces(words, size, step, i)| <==> j - 1 < |RangePieces(words, size, step, i + step)|
    ensures j < |RangePieces(words, size, step, i)| ==>
      RangePieces(words, size, step, i)[j] == RangePieces(words, size, step, i + step)[j - 1]
  {
    RangeTurn(words, size, step, i);
  }

  /** Every word position from `i` on lies in the window of some start `i + j*step`, when
      windows are at least a step long. */
  lemma {:induction false} RangePiecesCoverFrom(words: seq<string>, size: int, step: int, i: int, p: int)
    requires 0 < step <= size && 0 <= i <= p < |words|
    ensures exists j: nat ::
      j < |RangePieces(words, size, step, i)| &&
      i + RangeItem(j, step) <= p < i + RangeItem(j, step) + size
    decreases |words| - i
  {
    RangeTurn(words, size, step, i);
    if p < i + size {
      assert RangeItem(0, step) == 0;
    } else {
      RangePiecesCoverFrom(words, size, step, i + step, p);
      var k: nat :| k < |RangePieces(words, size, step, i + step)| &&
        i + step + RangeItem(k, step) <= p < i + step + RangeItem(k, step) + size;
      RangeItemNext(k + 1, step);
    }
  }

  /** The chunk of a window of a word list splits back into exactly the window's words. */
  lemma RunOfWords(words: seq<string>, a: int, b: int)
    requires AreWords(words) && 0 <= a <= b <= |words|
    ensures Words(Render(Window(words[a..b]))) == words[a..b]
  {
    var w := words[a..b];
    assert AreWords(w) by {
      forall k | 0 <= k < |w| ensures IsWord(w[k]) {
        assert w[k] == words[a + k];
      }
    }
    WordsOfJoin(w);
  }

  /** The windows of a long paragraph, for `0 <= overlap < chunk_size`: window `j` starts at
      word `j*step` and holds the next `chunk_size` words or those up to the end, and there is
      a window for every start before the end. */
  lemma LongWindows(words: seq<string>, size: int, overlap: int, j: nat)
    requires 0 <= overlap < size
    ensures var step, ps := size - overlap, RangePieces(words, size, size - overlap, 0);
      && (j < |ps| <==> j * step < |words|)
      && (j < |ps| ==> ps[j] == Window(words[j * step .. Min(j * step + size, |words|)]) && 0 < |ps[j].words| <= size)
  {
    var step := size - overlap;
    RangePiecesShape(words, size, step, 0, j);
    RangeItemIsProduct(j, step);
  }

  /** Every word of a long paragraph is in some window. */
  lemma LongWindowsCover(words: seq<string>, size: int, overlap: int, p: int)
    requires 0 <= overlap < size && 0 <= p < |words|
    ensures var step, ps := size - overlap, RangePieces(words, size, size - overlap, 0);
      exists j: nat :: j < |ps| && j * step <= p < j * step + size
  {
    var step := size - overlap;
    RangePiecesCoverFrom(words, size, step, 0, p);
    var j: nat :| j < |RangePieces(words, size, step, 0)| && RangeItem(j, step) <= p < RangeItem(j, step) + size;
    RangeItemIsProduct(j, step);
  }

  // ---------------------------------------------------------------- the grouping, for any paragraphs

  /** The paragraphs of at most `size` words, in order. */
  function ShortParas(paras: seq<string>, size: int): (r: seq<string>)
    ensures |r| <= |paras|
  {
    if paras == [] then []
    else
      var last := paras[|paras| - 1];
      ShortParas(paras[..|paras| - 1], size) + (if WordCount(last) <= size then [last] else [])
  }

  /** The paragraphs of the groups among `ps`, in order. */
  function GroupParas(ps: seq<Piece>): seq<string> {
    if ps == [] then []
    else GroupParas(ps[..|ps| - 1]) + ParasOf(ps[|ps| - 1])
  }

  function ParasOf(p: Piece): seq<string> {
    match p
    case Group(q) => q
    case Window(_) => []
  }

  lemma {:induction false} GroupParasAppend(a: seq<Piece>, b: seq<Piece>)
    ensures GroupParas(a + b) == GroupParas(a) + GroupParas(b)
    decreases |b|
  {
    if b == [] {
      assert a + b == a;
    } else {
      var init := b[..|b| - 1];
      assert (a + b)[..|a + b| - 1] == a + init;
      GroupParasAppend(a, init);
    }
  }

  lemma WindowsHaveNoParas(words: seq<string>, size: int, step: int, i: int)
    requires step > 0 && i >= 0
    ensures GroupParas(RangePieces(words, size, step, i)) == []
  {
    WindowsAreWindows(words, size, step, i);
    NoGroupsNoParas(RangePieces(words, size, step, i));
  }

  /** Pieces that are all windows hold no paragraphs. */
  lemma {:induction false} NoGroupsNoParas(ps: seq<Piece>)
    requires forall j :: 0 <= j < |ps| ==> ps[j].Window?
    ensures GroupParas(ps) == []
    decreases |ps|
  {
    if ps != [] {
      NoGroupsNoParas(ps[..|ps| - 1]);
    }
  }

  /** The loop state after all paragraphs but the last one, and the step that follows. */
  lemma FoldLast(paras: seq<string>, size: int, overlap: int)
    requires paras != [] && Fold(paras, size, overlap).Ok?
    ensures Fold(paras[..|paras| - 1], size, overlap).Ok?
    ensures var last := paras[|paras| - 1];
      Fold(paras, size, overlap) == Step(Fold(paras[..|paras| - 1], size, overlap).value, last, Words(last), size, overlap)
  {
  }

  /** Without overlap, one turn moves a short paragraph to the end of the groups, and leaves
      them alone for a long one. */
  lemma StepKeepsShort(g: Grouping, para: string, words: seq<string>, size: int, overlap: int)
    requires overlap <= 0 && Step(g, para, words, size, overlap).Ok?
    ensures var h := Step(g, para, words, size, overlap).value;
      GroupParas(h.pieces) + h.current == GroupParas(g.pieces) + g.current + (if |words| <= size then [para] else [])
  {
    var h := Step(g, para, words, size, overlap).value;
    if |words| > size {
      var ws := if size - overlap > 0 then RangePieces(words, size, size - overlap, 0) else [];
      assert h == Grouping(g.pieces + ws, g.current, g.length);
      GroupParasAppend(g.pieces, ws);
      if size - overlap > 0 {
        WindowsHaveNoParas(words, size, size - overlap, 0);
      }
      assert GroupParas(g.pieces) + [] == GroupParas(g.pieces);
    } else if g.length + |words| > size && g.current != [] {
      assert h == Grouping(g.pieces + [Group(g.current)], [para], |words|);
      GroupParasAppend(g.pieces, [Group(g.current)]);
      assert GroupParas([Group(g.current)]) == g.current by {
        assert [Group(g.current)][..0] == [];
      }
    } else {
      assert h == Grouping(g.pieces, g.current + [para], g.length + |words|);
    }
  }

  /** Without overlap, the groups emitted so far followed by the open group are exactly the
      short paragraphs, in order: none is lost, none repeated. */
  lemma {:induction false} FoldKeepsShort(paras: seq<string>, size: int, overlap: int)
    requires overlap <= 0 && Fold(paras, size, overlap).Ok?
    ensures var g := Fold(paras, size, overlap).value;
      GroupParas(g.pieces) + g.current == ShortParas(paras, size)
    decreases |paras|
  {
    if paras != [] {
      var init, para := paras[..|paras| - 1], paras[|paras| - 1];
      var x := if WordCount(para) <= size then [para] else [];
      assert ShortParas(paras, size) == ShortParas(init, size) + x;
      FoldLast(paras, size, overlap);
      FoldKeepsShort(init, size, overlap);
      StepKeepsShort(Fold(init, size, overlap).value, para, Words(para), size, overlap);
    }
  }

  /** Every paragraph of `paras` has at most `size` words. */
  predicate AllShort(paras: seq<string>, size: int) {
    forall q :: q in paras ==> WordCount(q) <= size
  }

  /** What the loop keeps true: `current_length` is the word count of `current_chunk`; every
      paragraph in a group has at most `size` words; and, without overlap, no group holds more
      than `size` words. */
  predicate Bounded(g: Grouping, size: int, overlap: int) {
    && g.length == SumWords(g.current)
    && AllShort(g.current, size)
    && (forall j :: 0 <= j < |g.pieces| ==> AllShort(ParasOf(g.pieces[j]), size))
    && (overlap <= 0 ==> g.current == [] || g.length <= size)
    && (overlap <= 0 ==> forall j :: 0 <= j < |g.pieces| && g.pieces[j].Group? ==> SumWords(g.pieces[j].paras) <= size)
  }

  /** The sum over a list with one more paragraph. */
  lemma SumWordsSnoc(paras: seq<string>, para: string)
    ensures SumWords(paras + [para]) == SumWords(paras) + WordCount(para)
  {
    assert (paras + [para])[..|paras|] == paras;
  }

  lemma {:induction false} WindowsAreWindows(words: seq<string>, size: int, step: int, i: int)
    requires step > 0 && i >= 0
    ensures forall j :: 0 <= j < |RangePieces(words, size, step, i)| ==> RangePieces(words, size, step, i)[j].Window?
    decreases |words| - i
  {
    if i < |words| {
      RangeTurn(words, size, step, i);
      WindowsAreWindows(words, size, step, i + step);
    }
  }

  /** A long paragraph keeps the invariant: only windows are added. */
  lemma CutBounded(g: Grouping, words: seq<string>, size: int, overlap: int)
    requires Bounded(g, size, overlap) && Cut(g, words, size, overlap).Ok?
    ensures Bounded(Cut(g, words, size, overlap).value, size, overlap)
  {
    var step := size - overlap;
    var ws := if step > 0 then RangePieces(words, size, step, 0) else [];
    var h := Cut(g, words, size, overlap).value;
    assert h == Grouping(g.pieces + ws, g.current, g.length);
    if step > 0 {
      WindowsAreWindows(words, size, step, 0);
    }
    assert SumWords([]) == 0;
    forall j | |g.pieces| <= j < |h.pieces| ensures h.pieces[j].Window? {
      assert h.pieces[j] == ws[j - |g.pieces|];
    }
  }

  /** Emitting the open group, or not, before a paragraph of `n <= size` words keeps the
      invariant, and without overlap leaves room for the paragraph. */
  lemma CloseBounded(g: Grouping, n: int, size: int, overlap: int)
    requires Bounded(g, size, overlap) && n <= size
    ensures var c := Close(g, n, size, overlap);
      Bounded(c, size, overlap) && (overlap <= 0 ==> c.current == [] || c.length + n <= size)
  {
    if g.length + n > size && g.current != [] {
      EmitBounded(g, size, overlap);
      if overlap > 0 {
        var last := LastTwo(g.current);
        assert forall q :: q in last ==> q in g.current;
      } else {
        assert SumWords([]) == 0;
      }
    }
  }

  /** Emitting the open group keeps every emitted piece within bounds. */
  lemma EmitBounded(g: Grouping, size: int, overlap: int)
    requires Bounded(g, size, overlap) && g.current != []
    ensures var ps := g.pieces + [Group(g.current)];
      && (forall j :: 0 <= j < |ps| ==> AllShort(ParasOf(ps[j]), size))
      && (overlap <= 0 ==> forall j :: 0 <= j < |ps| && ps[j].Group? ==> SumWords(ps[j].paras) <= size)
  {
    var ps := g.pieces + [Group(g.current)];
    forall j | 0 <= j < |ps|
      ensures AllShort(ParasOf(ps[j]), size)
      ensures overlap <= 0 && ps[j].Group? ==> SumWords(ps[j].paras) <= size
    {
      if j < |g.pieces| {
        assert ps[j] == g.pieces[j];
      } else {
        assert ps[j] == Group(g.current);
      }
    }
  }

  /** Adding a short paragraph that fits keeps the invariant. */
  lemma AppendBounded(c: Grouping, para: string, size: int, overlap: int)
    requires Bounded(c, size, overlap) && WordCount(para) <= size
    requires overlap <= 0 ==> c.current == [] || c.length + WordCount(para) <= size
    ensures Bounded(Append(c, para, WordCount(para)), size, overlap)
  {
    SumWordsSnoc(c.current, para);
    assert SumWords([]) == 0;
  }

  /** The invariant holds after every prefix of the paragraphs. */
  lemma {:induction false} FoldBounded(paras: seq<string>, size: int, overlap: int)
    requires Fold(paras, size, overlap).Ok?
    ensures Bounded(Fold(paras, size, overlap).value, size, overlap)
    decreases |paras|
  {
    if paras == [] {
      assert SumWords([]) == 0;
    } else {
      var init, para := paras[..|paras| - 1], paras[|paras| - 1];
      FoldLast(paras, size, overlap);
      FoldBounded(init, size, overlap);
      var g := Fold(init, size, overlap).value;
      if WordCount(para) > size {
        CutBounded(g, Words(para), size, overlap);
      } else {
        CloseBounded(g, WordCount(para), size, overlap);
        AppendBounded(Close(g, WordCount(para), size, overlap), para, size, overlap);
      }
    }
  }

  /** After the final flush, every paragraph in a group has at most `size` words and, without
      overlap, every group holds at most `size` words in total. */
  lemma FinishBounded(paras: seq<string>, size: int, overlap: int)
    requires Fold(paras, size, overlap).Ok?
    ensures var ps := Finish(Fold(paras, size, overlap).value);
      && (forall j :: 0 <= j < |ps| ==> AllShort(ParasOf(ps[j]), size))
      && (overlap <= 0 ==> forall j :: 0 <= j < |ps| && ps[j].Group? ==> SumWords(ps[j].paras) <= size)
  {
    var g := Fold(paras, size, overlap).value;
    FoldBounded(paras, size, overlap);
    if g.current != [] {
      EmitBounded(g, size, overlap);
    }
  }
}
