/**
 * The retrieval step of the chat page: every selected title is searched with the same `k`,
 * failures are skipped, the pooled results are sorted by score (descending, stable), the
 * global top `k` are kept, and the prompt for the language model is assembled from them and
 * from the last turns of the conversation. The per-title search and the model's reply are
 * parameters.
 */
module ChatRetrieval {
  import opened Wrappers
  import opened PyText
  import opened VectorIndex
  import opened IndexStore

  /** One entry of `all_context`. */
  datatype Scored = Scored(title: string, chunk: string, score: real)

  /** A chat message, `{"role": ..., "content": ...}`. */
  datatype Message = Message(role: string, content: string)

  /** `index_manager.search(title, prompt, k=k)` for the current prompt; `Err` is what it raised. */
  type TitleSearch = (string, int) -> Result<seq<Match>, StoreError>

  /** The language model's streamed reply to a message list; `Err` is what the stream raised. */
  type Generate = seq<Message> -> Result<string, string>

  const SystemPrompt: string := "You are a helpful assistant. Use the provided context to answer the user's question accurately. If the answer is not in the context, say you don't know."

  const NotFoundReply: string := "I couldn't find relevant information in the selected documents."

  // ---------------------------------------------------------------- gathering

  /** What one title adds to `all_context`: its results tagged with the title, or nothing
      when its search raised. */
  function Tagged(title: string, found: Result<seq<Match>, StoreError>): (r: seq<Scored>)
    ensures found.Err? ==> r == []
    ensures found.Ok? ==> |r| == |found.value|
    ensures found.Ok? ==> forall i :: 0 <= i < |r| ==> r[i] == Scored(title, found.value[i].text, found.value[i].score)
  {
    if found.Err? then []
    else seq(|found.value|, i requires 0 <= i < |found.value| => Scored(title, found.value[i].text, found.value[i].score))
  }

  /** `all_context` after the loop over the selected titles. */
  function Gathered(titles: seq<string>, search: TitleSearch, k: int): (r: seq<Scored>)
    ensures titles == [] ==> r == []
    decreases |titles|
  {
    if titles == [] then []
    else
      var last := titles[|titles| - 1];
      Gathered(titles[..|titles| - 1], search, k) + Tagged(last, search(last, k))
  }

  /** Every pooled entry is tagged with a selected title whose search succeeded. */
  lemma {:induction false} GatheredTitles(titles: seq<string>, search: TitleSearch, k: int)
    ensures forall i :: 0 <= i < |Gathered(titles, search, k)| ==>
      Gathered(titles, search, k)[i].title in titles && search(Gathered(titles, search, k)[i].title, k).Ok?
    decreases |titles|
  {
    if titles != [] {
      var init, last := titles[..|titles| - 1], titles[|titles| - 1];
      GatheredTitles(init, search, k);
      var g, tail := Gathered(init, search, k), Tagged(last, search(last, k));
      var r := Gathered(titles, search, k);
      assert r == g + tail;
      forall i | 0 <= i < |r| ensures r[i].title in titles && search(r[i].title, k).Ok? {
        if i < |g| {
          assert r[i] == g[i] && g[i].title in init;
          var j :| 0 <= j < |init| && init[j] == g[i].title;
          assert titles[j] == init[j];
        } else {
          assert r[i] == tail[i - |g|];
        }
      }
    }
  }

  /** When every selected title's search raises, nothing is gathered. */
  lemma {:induction false} AllFailedNothing(titles: seq<string>, search: TitleSearch, k: int)
    requires forall t :: t in titles ==> search(t, k).Err?
    ensures Gathered(titles, search, k) == []
    decreases |titles|
  {
    if titles != [] {
      var init := titles[..|titles| - 1];
      assert titles[|titles| - 1] in titles;
      forall t | t in init ensures search(t, k).Err? {
        var i :| 0 <= i < |init| && init[i] == t;
        assert titles[i] == t;
      }
      AllFailedNothing(init, search, k);
    }
  }

  /** The titles' contributions are concatenated in selection order. */
  lemma {:induction false} GatheredConcat(a: seq<string>, b: seq<string>, search: TitleSearch, k: int)
    ensures Gathered(a + b, search, k) == Gathered(a, search, k) + Gathered(b, search, k)
    decreases |b|
  {
    if b == [] {
      assert a + b == a;
    } else {
      var init, last := b[..|b| - 1], b[|b| - 1];
      var ai := a + init;
      assert b == init + [last];
      assert a + b == ai + [last];
      GatheredConcat(a, init, search, k);
      GatheredSnocs(a, ai, init, last, search, k);
    }
  }

  /** The step of `GatheredConcat`, stated on opaque pieces. */
  lemma GatheredSnocs(a: seq<string>, ai: seq<string>, init: seq<string>, last: string, search: TitleSearch, k: int)
    requires Gathered(ai, search, k) == Gathered(a, search, k) + Gathered(init, search, k)
    ensures Gathered(ai + [last], search, k) == Gathered(a, search, k) + Gathered(init + [last], search, k)
  {
    GatheredSnoc(ai, last, search, k);
    GatheredSnoc(init, last, search, k);
    ConcatAssoc(Gathered(a, search, k), Gathered(init, search, k), Tagged(last, search(last, k)));
  }

  lemma ConcatAssoc<T>(x: seq<T>, y: seq<T>, z: seq<T>)
    ensures (x + y) + z == x + (y + z)
  {
  }

  lemma GatheredSnoc(init: seq<string>, last: string, search: TitleSearch, k: int)
    ensures Gathered(init + [last], search, k) == Gathered(init, search, k) + Tagged(last, search(last, k))
  {
    assert (init + [last])[..|init|] == init;
  }

  /** A title is searched once, with the same `k` as every other title. */
  lemma GatheredSingle(t: string, search: TitleSearch, k: int)
    ensures Gathered([t], search, k) == Tagged(t, search(t, k))
  {
    assert [t][..0] == [];
  }

  /** A title whose search raises contributes nothing, and the other titles' results stay. */
  lemma FailedTitleSkipped(a: seq<string>, t: string, b: seq<string>, search: TitleSearch, k: int)
    requires search(t, k).Err?
    ensures Gathered(a + [t] + b, search, k) == Gathered(a + b, search, k)
  {
    GatheredConcat(a + [t], b, search, k);
    GatheredConcat(a, [t], search, k);
    GatheredConcat(a, b, search, k);
    GatheredSingle(t, search, k);
  }

  /** The nested loops that fill `all_context`. */
  method Gather(titles: seq<string>, search: TitleSearch, k: int) returns (all: seq<Scored>)
    ensures all == Gathered(titles, search, k)
  {
    all := [];
    var t := 0;
    while t < |titles|
      invariant 0 <= t <= |titles|
      invariant all == Gathered(titles[..t], search, k)
    {
      var title := titles[t];
      GatheredStep(titles, t, search, k);
      var found := search(title, k);
      if found.Ok? {
        all := TagAll(all, title, found.value);
      }
      t := t + 1;
    }
    assert titles[..t] == titles;
  }

  /** Gathering one more title appends what that title contributes. */
  lemma GatheredStep(titles: seq<string>, t: int, search: TitleSearch, k: int)
    requires 0 <= t < |titles|
    ensures Gathered(titles[..t + 1], search, k) == Gathered(titles[..t], search, k) + Tagged(titles[t], search(titles[t], k))
  {
    assert titles[..t + 1][..t] == titles[..t];
  }

  /** The inner `for chunk, score in results` loop: each result, tagged with the title, in order. */
  method TagAll(before: seq<Scored>, title: string, results: seq<Match>) returns (all: seq<Scored>)
    ensures all == before + Tagged(title, Ok(results))
  {
    all := before;
    var j := 0;
    while j < |results|
      invariant 0 <= j <= |results|
      invariant all == before + Tagged(title, Ok(results[..j]))
    {
      assert Tagged(title, Ok(results[..j + 1])) == Tagged(title, Ok(results[..j])) + [Scored(title, results[j].text, results[j].score)];
      all := all + [Scored(title, results[j].text, results[j].score)];
      j := j + 1;
    }
    assert results[..j] == results;
  }

  // ---------------------------------------------------------------- sorting

  predicate SortedDesc(xs: seq<Scored>) {
    forall i, j :: 0 <= i < j < |xs| ==> xs[i].score >= xs[j].score
  }

  /** Puts `x` before the first entry that does not score higher, so that among equal scores
      `x` comes first. */
  function Insert(x: Scored, ys: seq<Scored>): (r: seq<Scored>)
    ensures |r| == |ys| + 1
    ensures multiset(r) == multiset{x} + multiset(ys)
    decreases |ys|
  {
    if ys == [] || x.score >= ys[0].score then [x] + ys
    else
      assert ys == [ys[0]] + ys[1..];
      [ys[0]] + Insert(x, ys[1..])
  }

  /** Every entry of `Insert(x, ys)` is `x` or an entry of `ys`. */
  lemma InsertFrom(x: Scored, ys: seq<Scored>, j: int)
    requires 0 <= j < |ys| + 1
    ensures Insert(x, ys)[j] == x || Insert(x, ys)[j] in ys
  {
    var r := Insert(x, ys);
    assert r[j] in multiset(r);
  }

  lemma {:induction false} InsertSorted(x: Scored, ys: seq<Scored>)
    requires SortedDesc(ys)
    ensures SortedDesc(Insert(x, ys))
    decreases |ys|
  {
    var r := Insert(x, ys);
    if ys == [] || x.score >= ys[0].score {
      forall i, j | 0 <= i < j < |r| ensures r[i].score >= r[j].score {
        if i == 0 {
          assert r[j] == ys[j - 1];
          assert j - 1 > 0 ==> ys[0].score >= ys[j - 1].score;
        } else {
          assert r[i] == ys[i - 1] && r[j] == ys[j - 1];
        }
      }
    } else {
      var rest := Insert(x, ys[1..]);
      assert SortedDesc(ys[1..]) by {
        forall i, j | 0 <= i < j < |ys[1..]| ensures ys[1..][i].score >= ys[1..][j].score {
          assert ys[1..][i] == ys[i + 1] && ys[1..][j] == ys[j + 1];
        }
      }
      InsertSorted(x, ys[1..]);
      assert r == [ys[0]] + rest;
      forall i, j | 0 <= i < j < |r| ensures r[i].score >= r[j].score {
        if i == 0 {
          assert r[j] == rest[j - 1];
          InsertFrom(x, ys[1..], j - 1);
          if rest[j - 1] != x {
            var m :| 0 <= m < |ys[1..]| && ys[1..][m] == rest[j - 1];
            assert ys[m + 1] == rest[j - 1];
          }
        } else {
          assert r[i] == rest[i - 1] && r[j] == rest[j - 1];
        }
      }
    }
  }

  /** `all_context.sort(key=lambda x: x["score"], reverse=True)`: a stable sort by descending
      score; its reference here is insertion sort from the back. */
  function SortByScore(xs: seq<Scored>): (r: seq<Scored>)
    ensures multiset(r) == multiset(xs)
    ensures |r| == |xs|
    decreases |xs|
  {
    if xs == [] then []
    else
      assert xs == [xs[0]] + xs[1..];
      Insert(xs[0], SortByScore(xs[1..]))
  }

  /** The sort orders by descending score. */
  lemma {:induction false} SortSorted(xs: seq<Scored>)
    ensures SortedDesc(SortByScore(xs))
    decreases |xs|
  {
    if xs != [] {
      SortSorted(xs[1..]);
      InsertSorted(xs[0], SortByScore(xs[1..]));
    }
  }

  /** The entries of `xs` with score `v`, in their order. */
  function WithScore(xs: seq<Scored>, v: real): seq<Scored>
    decreases |xs|
  {
    if xs == [] then [] else (if xs[0].score == v then [xs[0]] else []) + WithScore(xs[1..], v)
  }

  lemma {:induction false} InsertStable(x: Scored, ys: seq<Scored>, v: real)
    ensures WithScore(Insert(x, ys), v) == (if x.score == v then [x] else []) + WithScore(ys, v)
    decreases |ys|
  {
    if ys == [] || x.score >= ys[0].score {
      WithScoreCons(x, ys, v);
    } else {
      var y, tail := ys[0], ys[1..];
      var rest := Insert(x, tail);
      assert Insert(x, ys) == [y] + rest;
      assert [y] + tail == ys;
      WithScoreCons(y, rest, v);
      InsertStable(x, tail, v);
      WithScoreCons(y, tail, v);
      var hx, hy, w := (if x.score == v then [x] else []), (if y.score == v then [y] else []), WithScore(tail, v);
      // `x` scores below `y`, so at most one of them has score `v`.
      assert hx == [] || hy == [];
      assert hy + (hx + w) == hx + (hy + w);
    }
  }

  lemma WithScoreCons(y: Scored, rest: seq<Scored>, v: real)
    ensures WithScore([y] + rest, v) == (if y.score == v then [y] else []) + WithScore(rest, v)
  {
    assert ([y] + rest)[1..] == rest;
  }

  /** Stability: entries of equal score keep their relative order. */
  lemma {:induction false} SortStable(xs: seq<Scored>, v: real)
    ensures WithScore(SortByScore(xs), v) == WithScore(xs, v)
    decreases |xs|
  {
    if xs != [] {
      InsertStable(xs[0], SortByScore(xs[1..]), v);
      SortStable(xs[1..], v);
    }
  }

  // ---------------------------------------------------------------- top k

  /** `s[:k]`: the first `k` entries, all but the last `-k` for a negative `k`. */
  lemma HeadSlice<T>(s: seq<T>, k: int)
    ensures PySlice(s, 0, k) == s[..ClampBound(k, |s|)]
  {
  }

  /** `top_context = all_context[:k]` after the sort. */
  function TopContext(titles: seq<string>, search: TitleSearch, k: int): (r: seq<Scored>)
    ensures |r| <= |Gathered(titles, search, k)|
    ensures k >= 0 ==> |r| == Min(k, |Gathered(titles, search, k)|)
    ensures r == SortByScore(Gathered(titles, search, k))[..|r|]
  {
    var sorted := SortByScore(Gathered(titles, search, k));
    HeadSlice(sorted, k);
    PySlice(sorted, 0, k)
  }

  /** What is kept is sorted and drawn from the pooled results. */
  lemma TopContextSorted(titles: seq<string>, search: TitleSearch, k: int)
    ensures SortedDesc(TopContext(titles, search, k))
    ensures multiset(TopContext(titles, search, k)) <= multiset(Gathered(titles, search, k))
  {
    var all := Gathered(titles, search, k);
    var r := TopContext(titles, search, k);
    SortSorted(all);
    PrefixSorted(SortByScore(all), |r|);
  }

  /** A prefix of a list sorted by descending score is sorted and drawn from the list. */
  lemma PrefixSorted(sorted: seq<Scored>, n: nat)
    requires SortedDesc(sorted) && n <= |sorted|
    ensures SortedDesc(sorted[..n]) && multiset(sorted[..n]) <= multiset(sorted)
  {
    assert sorted == sorted[..n] + sorted[n..];
    assert multiset(sorted) == multiset(sorted[..n]) + multiset(sorted[n..]);
  }

  /** In a list sorted by descending score, the first `n` entries score at least as high as
      any entry after them. */
  lemma PrefixBest(sorted: seq<Scored>, n: nat)
    requires SortedDesc(sorted) && n <= |sorted|
    ensures forall x, i :: x in multiset(sorted[n..]) && 0 <= i < n ==> sorted[i].score >= x.score
  {
    forall x, i | x in multiset(sorted[n..]) && 0 <= i < n ensures sorted[i].score >= x.score {
      var j :| 0 <= j < |sorted[n..]| && sorted[n..][j] == x;
      assert sorted[n + j] == x;
    }
  }

  /** Removing a prefix of a permutation of `all` from `all` leaves the rest of it. */
  lemma PrefixRest(all: seq<Scored>, sorted: seq<Scored>, n: nat)
    requires multiset(sorted) == multiset(all) && n <= |sorted|
    ensures multiset(all) - multiset(sorted[..n]) == multiset(sorted[n..])
  {
    assert sorted == sorted[..n] + sorted[n..];
  }

  /** Only the global top `k` survive: nothing left out scores higher than anything kept. */
  lemma TopContextBest(titles: seq<string>, search: TitleSearch, k: int)
    ensures var r, all := TopContext(titles, search, k), Gathered(titles, search, k);
      forall x, i :: x in multiset(all) - multiset(r) && 0 <= i < |r| ==> r[i].score >= x.score
  {
    var all := Gathered(titles, search, k);
    var sorted := SortByScore(all);
    var r := TopContext(titles, search, k);
    SortSorted(all);
    assert r == sorted[..|r|];
    PrefixRest(all, sorted, |r|);
    PrefixBest(sorted, |r|);
    forall x, i | x in multiset(all) - multiset(r) && 0 <= i < |r| ensures r[i].score >= x.score {
      assert x in multiset(sorted[|r|..]);
      assert r[i] == sorted[i];
    }
  }

  /** The merge: search every title, sort the pool, keep the first `k`. */
  method Merge(titles: seq<string>, search: TitleSearch, k: int) returns (top: seq<Scored>)
    ensures top == TopContext(titles, search, k)
  {
    var all := Gather(titles, search, k);
    all := SortByScore(all);
    top := PySlice(all, 0, k);
  }

  // ---------------------------------------------------------------- prompt assembly

  /** `[f"- {c.strip()}" for c in context_chunks]` */
  function Bullets(chunks: seq<string>): (lines: seq<string>)
    ensures |lines| == |chunks|
    ensures forall i :: 0 <= i < |chunks| ==> lines[i] == "- " + Strip(chunks[i])
  {
    seq(|chunks|, i requires 0 <= i < |chunks| => "- " + Strip(chunks[i]))
  }

  /** `context_str`: the bullets joined by newlines. */
  function ContextString(chunks: seq<string>): (ctx: string)
    ensures chunks == [] ==> ctx == ""
    ensures |chunks| == 1 ==> ctx == "- " + Strip(chunks[0])
  {
    Join("\n", Bullets(chunks))
  }

  /** The context reads back line by line: one bullet per chunk, when no chunk holds a newline. */
  lemma ContextLines(chunks: seq<string>)
    requires chunks != []
    requires forall i :: 0 <= i < |chunks| ==> '\n' !in chunks[i]
    ensures Split(ContextString(chunks), '\n') == Bullets(chunks)
  {
    var lines := Bullets(chunks);
    forall i | 0 <= i < |lines| ensures '\n' !in lines[i] {
      var c := chunks[i];
      StripIsSlice(c);
      var a := |c| - |TrimLeft(c)|;
      var t := Strip(c);
      assert t == c[a..a + |t|];
      assert forall m :: 0 <= m < |t| ==> t[m] == c[a + m];
      assert forall m :: 0 <= m < |t| ==> t[m] != '\n';
      assert lines[i] == "- " + t;
      assert forall m :: 0 <= m < |lines[i]| ==> lines[i][m] != '\n';
    }
    assert "\n" == ['\n'];
    SplitOfJoin(lines, '\n');
  }

  /** `user_content` */
  function UserContent(ctx: string, prompt: string): string {
    "Context:\n" + ctx + "\n\nQuestion: " + prompt
  }

  /** `messages`: the system message, the last (at most) four history entries, the user content. */
  function LlmMessages(history: seq<Message>, user: string): (msgs: seq<Message>)
    ensures |msgs| == 2 + Min(4, |history|)
    ensures msgs[0] == Message("system", SystemPrompt)
    ensures msgs[|msgs| - 1] == Message("user", user)
    ensures msgs[1..|msgs| - 1] == history[|history| - Min(4, |history|)..]
  {
    var window := if history != [] then PySlice(history, -4, |history|) else [];
    assert window == history[|history| - Min(4, |history|)..];
    [Message("system", SystemPrompt)] + window + [Message("user", user)]
  }

  // ---------------------------------------------------------------- one chat turn

  /** The two session lists: what is shown, and what is sent back to the model. */
  datatype Chat = Chat(messages: seq<Message>, history: seq<Message>)

  function Chunks(top: seq<Scored>): (cs: seq<string>)
    ensures |cs| == |top|
    ensures forall i :: 0 <= i < |top| ==> cs[i] == top[i].chunk
  {
    seq(|top|, i requires 0 <= i < |top| => top[i].chunk)
  }

  /** The message list handed to the model for a prompt, given the history that already
      holds it and the merged context. */
  function Prompted(history: seq<Message>, top: seq<Scored>, prompt: string): seq<Message> {
    LlmMessages(history, UserContent(ContextString(Chunks(top)), prompt))
  }

  /** One turn of the page for `prompt`: no selection stops the page with nothing recorded;
      otherwise the prompt enters both lists; with no context a fixed reply is shown and the
      model is not asked; otherwise the reply enters both lists, and a failed generation shows
      `"Error: ..."` in the messages only. */
  function Turn(c: Chat, titles: seq<string>, search: TitleSearch, k: int, prompt: string, generate: Generate): (r: Chat)
    ensures titles == [] ==> r == c
    ensures titles != [] ==> |r.messages| == |c.messages| + 2 && r.messages[..|c.messages| + 1] == c.messages + [Message("user", prompt)]
    ensures titles != [] ==> |c.history| + 1 <= |r.history| <= |c.history| + 2
    ensures titles != [] ==> r.history[..|c.history| + 1] == c.history + [Message("user", prompt)]
  {
    if titles == [] then c
    else
      var user := Message("user", prompt);
      Answer(c.messages + [user], c.history + [user], TopContext(titles, search, k), prompt, generate)
  }

  /** The rest of the turn, once the prompt is in both lists and the context is merged. */
  function Answer(messages: seq<Message>, history: seq<Message>, top: seq<Scored>, prompt: string, generate: Generate): Chat {
    if top == [] then Chat(messages + [Message("assistant", NotFoundReply)], history)
    else Recorded(messages, history, generate(Prompted(history, top, prompt)))
  }

  /** What the model's answer leaves in the two lists. */
  function Recorded(messages: seq<Message>, history: seq<Message>, g: Result<string, string>): Chat {
    match g
    case Ok(reply) => Chat(messages + [Message("assistant", reply)], history + [Message("assistant", reply)])
    case Err(e) => Chat(messages + [Message("assistant", "Error: " + e)], history)
  }

  /** With no context the fixed reply is shown, the history gets only the prompt, and the
      model is never asked: the turn is the same whatever it would have answered. */
  lemma NoContextSkipsModel(c: Chat, titles: seq<string>, search: TitleSearch, k: int, prompt: string, g1: Generate, g2: Generate)
    requires titles != [] && TopContext(titles, search, k) == []
    ensures Turn(c, titles, search, k, prompt, g1) == Turn(c, titles, search, k, prompt, g2)
    ensures Turn(c, titles, search, k, prompt, g1) ==
      Chat(c.messages + [Message("user", prompt), Message("assistant", NotFoundReply)], c.history + [Message("user", prompt)])
  {
    assert c.messages + [Message("user", prompt)] + [Message("assistant", NotFoundReply)]
        == c.messages + [Message("user", prompt), Message("assistant", NotFoundReply)];
  }

  /** With some context the model is asked with the history that already holds the prompt:
      its reply is recorded in both lists; a failure shows `"Error: " + e` in the messages and
      leaves the history with only the prompt. */
  lemma ReplyRecorded(c: Chat, titles: seq<string>, search: TitleSearch, k: int, prompt: string, generate: Generate)
    requires titles != [] && TopContext(titles, search, k) != []
    ensures var user, r := Message("user", prompt), Turn(c, titles, search, k, prompt, generate);
      var g := generate(Prompted(c.history + [user], TopContext(titles, search, k), prompt));
      && (g.Ok? ==> r == Chat(c.messages + [user, Message("assistant", g.value)],
                              c.history + [user, Message("assistant", g.value)]))
      && (g.Err? ==> r == Chat(c.messages + [user, Message("assistant", "Error: " + g.error)],
                               c.history + [user]))
  {
    var user := Message("user", prompt);
    AnswerRecorded(c, user, generate(Prompted(c.history + [user], TopContext(titles, search, k), prompt)));
  }

  /** The model's answer after `user`: a reply goes to both lists, an error to the messages. */
  lemma AnswerRecorded(c: Chat, user: Message, g: Result<string, string>)
    ensures var r := Recorded(c.messages + [user], c.history + [user], g);
      && (g.Ok? ==> r == Chat(c.messages + [user, Message("assistant", g.value)],
                              c.history + [user, Message("assistant", g.value)]))
      && (g.Err? ==> r == Chat(c.messages + [user, Message("assistant", "Error: " + g.error)],
                               c.history + [user]))
  {
    if g.Ok? {
      var reply := Message("assistant", g.value);
      assert c.messages + [user] + [reply] == c.messages + [user, reply];
      assert c.history + [user] + [reply] == c.history + [user, reply];
    } else {
      var shown := Message("assistant", "Error: " + g.error);
      assert c.messages + [user] + [shown] == c.messages + [user, shown];
    }
  }

  /** The model sees the system message, then the last turns of the history ending with the
      current prompt (at most four entries), then the context and the question. */
  lemma PromptInWindow(history: seq<Message>, top: seq<Scored>, prompt: string)
    ensures var msgs := Prompted(history + [Message("user", prompt)], top, prompt);
      && |msgs| == 2 + Min(4, |history| + 1)
      && msgs[0] == Message("system", SystemPrompt)
      && msgs[|msgs| - 2] == Message("user", prompt)
      && msgs[1..|msgs| - 2] == history[|history| + 1 - Min(4, |history| + 1)..]
      && msgs[|msgs| - 1] == Message("user", UserContent(ContextString(Chunks(top)), prompt))
  {
    var h := history + [Message("user", prompt)];
    var msgs := Prompted(h, top, prompt);
    var n := Min(4, |h|);
    assert msgs[1..|msgs| - 1] == h[|h| - n..];
    assert msgs[|msgs| - 2] == msgs[1..|msgs| - 1][n - 1];
    assert msgs[1..|msgs| - 2] == msgs[1..|msgs| - 1][..n - 1];
    assert h[|h| - n..][..n - 1] == history[|history| + 1 - n..];
  }

  /** The session state of the chat page. */
  class ChatSession {
    var messages: seq<Message>
    var history: seq<Message>

    function State(): Chat
      reads this
    {
      Chat(messages, history)
    }

    /** The page's first run: both lists start empty. */
    constructor ()
      ensures messages == [] && history == []
    {
      messages := [];
      history := [];
    }

    /** The body of `if prompt := st.chat_input(...)`. */
    method Ask(titles: seq<string>, search: TitleSearch, k: int, prompt: string, generate: Generate)
      modifies this
      ensures State() == Turn(old(State()), titles, search, k, prompt, generate)
    {
      if titles == [] {
        return;
      }
      var user := Message("user", prompt);
      messages := messages + [user];
      history := history + [user];
      var top := Merge(titles, search, k);
      if top == [] {
        messages := messages + [Message("assistant", NotFoundReply)];
        return;
      }
      var contextChunks := Chunks(top);
      var contextStr := ContextString(contextChunks);
      var userContent := UserContent(contextStr, prompt);
      var llm := [Message("system", SystemPrompt)];
      if history != [] {
        llm := llm + PySlice(history, -4, |history|);
      }
      llm := llm + [Message("user", userContent)];
      assert llm == Prompted(history, top, prompt);
      var response := generate(llm);
      if response.Err? {
        messages := messages + [Message("assistant", "Error: " + response.error)];
        return;
      }
      messages := messages + [Message("assistant", response.value)];
      history := history + [Message("assistant", response.value)];
    }
  }
}
