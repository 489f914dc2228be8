/**
 * The collection store of the chat application. A registry maps each normalized title to its
 * metadata; each collection is a chunk list and a flat index, linked only by position. The
 * files under the storage directory are maps from path to content; the embedder's `encode`
 * and the index's search are abstract.
 */
module IndexStore {
  import opened Wrappers
  import opened PyText
  import opened VectorIndex
  import opened Registry
  import opened Embedding

  datatype StoreError =
    | UnknownTitle                  // ValueError: the title does not exist
    | MissingFile(path: string)     // a chunk list or index file that cannot be opened
    | EmbedFailed(cause: EmbedError)
    | DimensionMismatch             // `index.add` or `index.search` of rows whose width is not the index's
    | BadPosition                   // `all_chunks[idx]` with `idx` below `-len(all_chunks)`

  /** The registry in memory and what lies under the storage directory: the registry file
      (`None` when it is absent or unreadable), and the chunk lists and indexes by path. */
  datatype Store = Store(
    titles: Dict<TitleInfo>,
    registryFile: Option<Dict<TitleInfo>>,
    chunkFiles: map<string, seq<string>>,
    indexFiles: map<string, FlatIndex>)

  // ---------------------------------------------------------------- create_title

  /** `create_title`: a title whose key is taken is refused and nothing changes; otherwise an
      empty index and an empty chunk list are written, the entry is recorded and saved. */
  function CreateTitleSpec(s: Store, dir: string, dim: nat, title: string): (r: (bool, Store))
    requires s.titles.Valid()
    ensures r.1.titles.Valid()
    ensures r.0 <==> Normalize(title) !in s.titles.entries
    ensures !r.0 ==> r.1 == s
    ensures r.0 ==> r.1.registryFile == Some(r.1.titles)
  {
    var key := Normalize(title);
    if key in s.titles.entries then (false, s)
    else (true, Created(s, dir, dim, Strip(title), key))
  }

  /** The writes of a successful `create_title`: an empty index and an empty chunk list under
      the key's paths, and the new entry, recorded and saved. */
  function Created(s: Store, dir: string, dim: nat, displayName: string, key: string): (t: Store)
    requires s.titles.Valid() && key !in s.titles.entries
    ensures t.titles.Valid()
    ensures key in t.titles.entries && t.titles.entries[key].chunkCount == 0
    ensures t.titles.entries[key].chunksFile in t.chunkFiles && t.chunkFiles[t.titles.entries[key].chunksFile] == []
    ensures t.titles.entries[key].indexFile in t.indexFiles && t.indexFiles[t.titles.entries[key].indexFile] == FlatIndex(dim, [])
    ensures t.registryFile == Some(t.titles)
  {
    var info := PathlibEntry(displayName, dir, key);
    var titles := s.titles.Put(key, info);
    Store(titles, Some(titles), s.chunkFiles[info.chunksFile := []], s.indexFiles[info.indexFile := FlatIndex(dim, [])])
  }

  // ---------------------------------------------------------------- add_documents

  /** `add_documents` with the embedder's answer for `chunks`. */
  function AddDocumentsSpec(s: Store, e: Embedder, title: string, chunks: seq<string>): (r: (Result<int, StoreError>, Store))
    requires s.titles.Valid()
    reads e
    ensures Normalize(title) !in s.titles.entries ==> r.0 == Err(UnknownTitle)
    ensures r.0.Ok? ==> r.0.value == 0 || r.0.value == |chunks|
    ensures !(r.0.Ok? && r.0.value > 0) ==> r.1 == s
  {
    AddDocumentsWith(s, title, chunks, e.EmbedTexts(chunks))
  }

  /** `add_documents`, given what `embed_texts(chunks)` returns or raises: raises for an
      unknown title; an empty list, or one the embedder keeps nothing of, writes nothing and
      gives 0; otherwise the rows go into the index, all the chunks are appended to the chunk
      list, the count is updated and saved. */
  function AddDocumentsWith(s: Store, title: string, chunks: seq<string>, embedded: Result<seq<Vector>, EmbedError>)
    : (r: (Result<int, StoreError>, Store))
    requires s.titles.Valid()
    ensures r.1.titles.Valid()
    ensures Normalize(title) !in s.titles.entries ==> r.0 == Err(UnknownTitle)
    ensures r.0.Ok? ==> r.0.value == 0 || r.0.value == |chunks|
    ensures !(r.0.Ok? && r.0.value > 0) ==> r.1 == s
    ensures r.0.Ok? && r.0.value > 0 ==> r.1.registryFile == Some(r.1.titles)
  {
    var key := Normalize(title);
    if key !in s.titles.entries then (Err(UnknownTitle), s)
    else if chunks == [] then (Ok(0), s)
    else
      var info := s.titles.entries[key];
      if info.chunksFile !in s.chunkFiles then (Err(MissingFile(info.chunksFile)), s)
      else if info.indexFile !in s.indexFiles then (Err(MissingFile(info.indexFile)), s)
      else match embedded
        case Err(x) => (Err(EmbedFailed(x)), s)
        case Ok(rows) =>
          var index := s.indexFiles[info.indexFile];
          if rows == [] then (Ok(0), s)
          else if !Fits(index.dim, rows) then (Err(DimensionMismatch), s)
          else (Ok(|chunks|), Appended(s, key, chunks, rows))
  }

  /** The writes of a successful `add_documents`: the rows go into the key's index, the chunks
      onto its chunk list, the new length into its entry, and the registry is saved. */
  function Appended(s: Store, key: string, chunks: seq<string>, rows: seq<Vector>): (t: Store)
    requires s.titles.Valid() && key in s.titles.entries
    requires s.titles.entries[key].chunksFile in s.chunkFiles && s.titles.entries[key].indexFile in s.indexFiles
    ensures t.titles.Valid()
    ensures var info := s.titles.entries[key];
      && key in t.titles.entries
      && info.chunksFile in t.chunkFiles && info.indexFile in t.indexFiles
      && t.chunkFiles[info.chunksFile] == s.chunkFiles[info.chunksFile] + chunks
      && t.indexFiles[info.indexFile].vectors == s.indexFiles[info.indexFile].vectors + rows
      && t.titles.entries[key].chunkCount == |t.chunkFiles[info.chunksFile]|
  {
    var info := s.titles.entries[key];
    var index := s.indexFiles[info.indexFile];
    var stored := s.chunkFiles[info.chunksFile] + chunks;
    var titles := s.titles.Put(key, info.(chunkCount := |stored|));
    Store(titles, Some(titles), s.chunkFiles[info.chunksFile := stored],
          s.indexFiles[info.indexFile := FlatIndex(index.dim, index.vectors + rows)])
  }

  /** `[c for c in chunks if c.strip()]`: the chunks the embedder keeps a row for. */
  function NonBlank(chunks: seq<string>): seq<string> {
    if chunks == [] then []
    else if Strip(chunks[0]) == [] then NonBlank(chunks[1..])
    else [chunks[0]] + NonBlank(chunks[1..])
  }

  /** No kept chunk is blank, and none is invented: there are at most as many. */
  lemma {:induction false} NonBlankKeeps(chunks: seq<string>)
    ensures NoneBlank(NonBlank(chunks)) && |NonBlank(chunks)| <= |chunks|
    decreases |chunks|
  {
    if chunks != [] {
      var kept := NonBlank(chunks[1..]);
      NonBlankKeeps(chunks[1..]);
      if Strip(chunks[0]) != [] {
        var all := [chunks[0]] + kept;
        forall i | 0 <= i < |all| ensures Strip(all[i]) != [] {
          if i > 0 {
            assert all[i] == kept[i - 1];
          }
        }
      }
    }
  }

  /** Every chunk is kept exactly when none is blank; otherwise fewer are kept. */
  lemma {:induction false} NonBlankDrops(chunks: seq<string>)
    ensures NoneBlank(chunks) <==> NonBlank(chunks) == chunks
    ensures !NoneBlank(chunks) ==> |NonBlank(chunks)| < |chunks|
    decreases |chunks|
  {
    if chunks != [] {
      var rest := chunks[1..];
      NonBlankDrops(rest);
      NonBlankKeeps(rest);
      assert chunks == [chunks[0]] + rest;
      BlankSplit(chunks);
    }
  }

  /** `add_documents` with blank chunks dropped before embedding, so that the chunk list only
      grows by texts that also get a row. */
  function AddDocumentsFixedSpec(s: Store, e: Embedder, title: string, chunks: seq<string>): (r: (Result<int, StoreError>, Store))
    requires s.titles.Valid()
    reads e
    ensures r.1.titles.Valid()
    ensures r.0.Ok? ==> r.0.value == 0 || r.0.value == |NonBlank(chunks)|
  {
    AddDocumentsSpec(s, e, title, NonBlank(chunks))
  }

  // ---------------------------------------------------------------- search

  /** The loop over the index's answer as written: a row whose position is below the chunk
      count contributes that chunk, a negative position counting from the end. */
  function Collect(hits: seq<Hit>, chunks: seq<string>): (r: Result<seq<Match>, StoreError>)
    ensures r.Ok? ==> |r.value| <= |hits|
    ensures r.Ok? ==> forall i :: 0 <= i < |r.value| ==> r.value[i].text in chunks
    ensures r.Err? ==> r.error == BadPosition
    decreases |hits|
  {
    if hits == [] then Ok([])
    else
      var h := hits[|hits| - 1];
      match Collect(hits[..|hits| - 1], chunks)
      case Err(x) => Err(x)
      case Ok(rs) =>
        if h.pos < |chunks| then
          match PyIndex(chunks, h.pos)
          case None => Err(BadPosition)
          case Some(c) => Ok(rs + [Match(c, h.score)])
        else Ok(rs)
  }

  /** The same loop with the bound check `0 <= idx < len(all_chunks)`: padding rows are skipped. */
  function CollectChecked(hits: seq<Hit>, chunks: seq<string>): (r: seq<Match>)
    ensures |r| <= |hits|
    ensures forall i :: 0 <= i < |r| ==> r[i].text in chunks
    decreases |hits|
  {
    if hits == [] then []
    else
      var h := hits[|hits| - 1];
      CollectChecked(hits[..|hits| - 1], chunks) + (if 0 <= h.pos < |chunks| then [Match(chunks[h.pos], h.score)] else [])
  }

  /** The steps of `search` before its loop: the index's answer to the query and the chunk
      list it is read against, `None` when the collection has no chunks, or what was raised. */
  function SearchAnswer(s: Store, e: Embedder, search: SearchFn, title: string, query: string, k: int)
    : (r: Result<Option<(seq<Hit>, seq<string>)>, StoreError>)
    reads e
    ensures Normalize(title) !in s.titles.entries ==> r == Err(UnknownTitle)
    ensures r.Ok? && r.value.Some? ==> r.value.value.1 != []
    ensures r == Ok(None) <==>
      && Normalize(title) in s.titles.entries
      && s.titles.entries[Normalize(title)].chunksFile in s.chunkFiles
      && s.chunkFiles[s.titles.entries[Normalize(title)].chunksFile] == []
  {
    var key := Normalize(title);
    if key !in s.titles.entries then Err(UnknownTitle)
    else
      var info := s.titles.entries[key];
      if info.chunksFile !in s.chunkFiles then Err(MissingFile(info.chunksFile))
      else
        var all := s.chunkFiles[info.chunksFile];
        if all == [] then Ok(None)
        else if info.indexFile !in s.indexFiles then Err(MissingFile(info.indexFile))
        else match e.EmbedQuery(query)
          case Err(x) => Err(EmbedFailed(x))
          case Ok(q) =>
            var index := s.indexFiles[info.indexFile];
            if |q[0]| != index.dim then Err(DimensionMismatch)
            else Ok(Some((search(index.vectors, q[0], Min(k, |all|)), all)))
  }

  /** `search`: raises for an unknown title; an empty collection answers `[]` before the query
      is embedded; otherwise the index's answer for `min(k, len(all_chunks))` rows, collected. */
  function SearchSpec(s: Store, e: Embedder, search: SearchFn, title: string, query: string, k: int)
    : (r: Result<seq<Match>, StoreError>)
    reads e
    ensures Normalize(title) !in s.titles.entries ==> r == Err(UnknownTitle)
    ensures r.Ok? && r.value != [] ==>
      && Normalize(title) in s.titles.entries
      && s.titles.entries[Normalize(title)].chunksFile in s.chunkFiles
      && forall i :: 0 <= i < |r.value| ==> r.value[i].text in s.chunkFiles[s.titles.entries[Normalize(title)].chunksFile]
  {
    match SearchAnswer(s, e, search, title, query, k)
    case Err(x) => Err(x)
    case Ok(None) => Ok([])
    case Ok(Some(answer)) => Collect(answer.0, answer.1)
  }

  /** `search` with the bound check `0 <= idx`: the index's padding rows are skipped. */
  function SearchFixedSpec(s: Store, e: Embedder, search: SearchFn, title: string, query: string, k: int)
    : (r: Result<seq<Match>, StoreError>)
    reads e
    ensures Normalize(title) !in s.titles.entries ==> r == Err(UnknownTitle)
  {
    match SearchAnswer(s, e, search, title, query, k)
    case Err(x) => Err(x)
    case Ok(None) => Ok([])
    case Ok(Some(answer)) => Ok(CollectChecked(answer.0, answer.1))
  }

  // ---------------------------------------------------------------- delete_title

  /** `delete_title`: an unknown title gives False; otherwise each of the entry's files that
      exists is removed, then the entry is deleted and saved. A removal that raises (a path in
      `failing`) gives False, leaving the entry and whatever was already removed. */
  function DeleteTitleSpec(s: Store, failing: set<string>, title: string): (r: (bool, Store))
    requires s.titles.Valid()
    ensures r.1.titles.Valid()
    ensures Normalize(title) !in s.titles.entries ==> r == (false, s)
    ensures r.0 <==> Normalize(title) !in r.1.titles.entries && Normalize(title) in s.titles.entries
    ensures !r.0 ==> r.1.titles == s.titles && r.1.registryFile == s.registryFile
    ensures r.0 ==> r.1.titles.entries == s.titles.entries - {Normalize(title)} && r.1.registryFile == Some(r.1.titles)
  {
    var key := Normalize(title);
    if key !in s.titles.entries then (false, s)
    else
      var info := s.titles.entries[key];
      if info.indexFile in s.indexFiles && info.indexFile in failing then (false, s)
      else
        var indexFiles := s.indexFiles - {info.indexFile};
        if info.chunksFile in s.chunkFiles && info.chunksFile in failing then (false, s.(indexFiles := indexFiles))
        else (true, Dropped(s, key))
  }

  /** The writes of a successful `delete_title`: both of the entry's files are gone, and the
      registry without the key is saved. */
  function Dropped(s: Store, key: string): (t: Store)
    requires s.titles.Valid() && key in s.titles.entries
    ensures t.titles.Valid()
    ensures t.titles.entries == s.titles.entries - {key} && t.registryFile == Some(t.titles)
    ensures s.titles.entries[key].chunksFile !in t.chunkFiles && s.titles.entries[key].indexFile !in t.indexFiles
  {
    var info := s.titles.entries[key];
    var titles := s.titles.Remove(key);
    Store(titles, Some(titles), s.chunkFiles - {info.chunksFile}, s.indexFiles - {info.indexFile})
  }

  // ---------------------------------------------------------------- invariants

  /** Every entry is filed under its own normalized key without `/`, names the files derived from
      that key under `dir`, both files exist, and its count is its chunk list's length. */
  ghost predicate Consistent(s: Store, dir: string) {
    && s.titles.Valid()
    && forall key :: key in s.titles.entries ==> Filed(s, dir, key)
  }

  ghost predicate Filed(s: Store, dir: string, key: string)
    requires key in s.titles.entries
  {
    var info := s.titles.entries[key];
    && Normalize(key) == key && Flat(key)
    && info.indexFile == PathlibIndexPath(dir, key) && info.chunksFile == PathlibChunksPath(dir, key)
    && info.indexFile in s.indexFiles && info.chunksFile in s.chunkFiles
    && info.chunkCount == |s.chunkFiles[info.chunksFile]|
  }

  /** In every collection, chunk `i` is the text of vector `i`: the counts agree. */
  ghost predicate Aligned(s: Store, dir: string) {
    && Consistent(s, dir)
    && forall key :: key in s.titles.entries ==> AlignedAt(s, key)
  }

  /** The entry under `key` has both of its files, and as many chunks as vectors. */
  ghost predicate AlignedAt(s: Store, key: string) {
    && key in s.titles.entries
    && var info := s.titles.entries[key];
    && info.chunksFile in s.chunkFiles && info.indexFile in s.indexFiles
    && |s.chunkFiles[info.chunksFile]| == |s.indexFiles[info.indexFile].vectors|
  }

  // ---------------------------------------------------------------- create_title keeps the invariants

  /** Creating a collection leaves the existing files where they were. */
  lemma CreatedKeepsFiles(s: Store, dir: string, dim: nat, displayName: string, key: string, k: string)
    requires s.titles.Valid() && key !in s.titles.entries
    requires Flat(k) && Flat(key) && k != key
    requires PathlibChunksPath(dir, k) in s.chunkFiles && PathlibIndexPath(dir, k) in s.indexFiles
    ensures PathlibChunksPath(dir, k) in Created(s, dir, dim, displayName, key).chunkFiles
    ensures PathlibIndexPath(dir, k) in Created(s, dir, dim, displayName, key).indexFiles
    ensures Created(s, dir, dim, displayName, key).chunkFiles[PathlibChunksPath(dir, k)] == s.chunkFiles[PathlibChunksPath(dir, k)]
    ensures Created(s, dir, dim, displayName, key).indexFiles[PathlibIndexPath(dir, k)] == s.indexFiles[PathlibIndexPath(dir, k)]
  {
    PathlibKeyPathsDiffer(dir, k, key);
  }

  /** Creating a collection leaves every existing entry filed, and aligned if it was. */
  lemma CreatedKeepsOthers(s: Store, dir: string, dim: nat, displayName: string, key: string, k: string)
    requires Consistent(s, dir) && key !in s.titles.entries && Flat(key) && k in s.titles.entries
    ensures k in Created(s, dir, dim, displayName, key).titles.entries
    ensures Filed(Created(s, dir, dim, displayName, key), dir, k)
    ensures AlignedAt(s, k) ==> AlignedAt(Created(s, dir, dim, displayName, key), k)
  {
    var t := Created(s, dir, dim, displayName, key);
    assert Filed(s, dir, k);
    CreatedKeepsFiles(s, dir, dim, displayName, key, k);
    assert t.titles.entries[k] == s.titles.entries[k];
  }

  /** The new entry is filed under its key and starts aligned, with both files empty. */
  lemma CreatedFilesNew(s: Store, dir: string, dim: nat, displayName: string, key: string)
    requires s.titles.Valid() && key !in s.titles.entries && Normalize(key) == key && Flat(key)
    ensures key in Created(s, dir, dim, displayName, key).titles.entries
    ensures Filed(Created(s, dir, dim, displayName, key), dir, key)
    ensures AlignedAt(Created(s, dir, dim, displayName, key), key)
  {
  }

  /** A new collection under a key without `/` is filed consistently and starts aligned (both of
      its files are empty), and no other collection's files are touched. */
  lemma CreateKeepsInvariants(s: Store, dir: string, dim: nat, title: string)
    requires Consistent(s, dir) && Flat(Normalize(title))
    ensures Consistent(CreateTitleSpec(s, dir, dim, title).1, dir)
    ensures Aligned(s, dir) ==> Aligned(CreateTitleSpec(s, dir, dim, title).1, dir)
  {
    var key := Normalize(title);
    if key !in s.titles.entries {
      var t := Created(s, dir, dim, Strip(title), key);
      NormalizeIdempotent(title);
      CreatedFilesNew(s, dir, dim, Strip(title), key);
      forall k | k in t.titles.entries ensures Filed(t, dir, k) && (Aligned(s, dir) ==> AlignedAt(t, k)) {
        if k != key {
          CreatedKeepsOthers(s, dir, dim, Strip(title), key, k);
        }
      }
    }
  }

  /** A title `./<key>` passes the registry check of `create_title`, since its key differs from
      `<key>`, yet pathlib drops the `.` segment: the new empty files replace those of `<key>`,
      whose entry still counts its old chunks. */
  lemma DotKeyClobbers(s: Store, dir: string, dim: nat, key: string, title: string)
    requires Consistent(s, dir) && key in s.titles.entries
    requires Normalize(title) == "./" + key
    ensures CreateTitleSpec(s, dir, dim, title).0
    ensures var t, info := CreateTitleSpec(s, dir, dim, title).1, s.titles.entries[key];
      && key in t.titles.entries && t.titles.entries[key] == info
      && info.chunksFile in t.chunkFiles && t.chunkFiles[info.chunksFile] == []
      && info.indexFile in t.indexFiles && t.indexFiles[info.indexFile] == FlatIndex(dim, [])
    ensures s.titles.entries[key].chunkCount > 0 ==> !Consistent(CreateTitleSpec(s, dir, dim, title).1, dir)
  {
    var dotted := "./" + key;
    var info := s.titles.entries[key];
    assert Filed(s, dir, key);
    assert dotted[1] == '/';
    assert dotted !in s.titles.entries;
    DotKeySharesFiles(dir, key);
    CreatedWrites(s, dir, dim, Strip(title), dotted);
    var t := CreateTitleSpec(s, dir, dim, title).1;
    assert t.chunkFiles == s.chunkFiles[info.chunksFile := []];
    assert t.indexFiles == s.indexFiles[info.indexFile := FlatIndex(dim, [])];
  }

  /** What `Created` writes: the key's entry and its two empty files at their pathlib paths. */
  lemma CreatedWrites(s: Store, dir: string, dim: nat, displayName: string, key: string)
    requires s.titles.Valid() && key !in s.titles.entries
    ensures var t := Created(s, dir, dim, displayName, key);
      && t.titles.entries == s.titles.entries[key := PathlibEntry(displayName, dir, key)]
      && t.chunkFiles == s.chunkFiles[PathlibChunksPath(dir, key) := []]
      && t.indexFiles == s.indexFiles[PathlibIndexPath(dir, key) := FlatIndex(dim, [])]
  {
  }

  /** `create_title` that also refuses a title whose key contains `/`, so that every title names
      files of its own. */
  function CreateTitleFlatSpec(s: Store, dir: string, dim: nat, title: string): (r: (bool, Store))
    requires s.titles.Valid()
    ensures r.1.titles.Valid()
    ensures r.0 <==> Normalize(title) !in s.titles.entries && Flat(Normalize(title))
    ensures !r.0 ==> r.1 == s
  {
    if !Flat(Normalize(title)) then (false, s) else CreateTitleSpec(s, dir, dim, title)
  }

  /** With keys containing `/` refused, creating a title keeps every store consistent, and
      aligned if it was, whatever the title. */
  lemma FlatCreateKeepsInvariants(s: Store, dir: string, dim: nat, title: string)
    requires Consistent(s, dir)
    ensures Consistent(CreateTitleFlatSpec(s, dir, dim, title).1, dir)
    ensures Aligned(s, dir) ==> Aligned(CreateTitleFlatSpec(s, dir, dim, title).1, dir)
  {
    if Flat(Normalize(title)) {
      CreateKeepsInvariants(s, dir, dim, title);
    }
  }

  // ---------------------------------------------------------------- add_documents and alignment

  /** Appending to one collection leaves the other collections' files where they were. */
  lemma AppendedKeepsFiles(s: Store, dir: string, key: string, chunks: seq<string>, rows: seq<Vector>, k: string)
    requires s.titles.Valid() && key in s.titles.entries
    requires s.titles.entries[key].chunksFile == PathlibChunksPath(dir, key) && s.titles.entries[key].indexFile == PathlibIndexPath(dir, key)
    requires PathlibChunksPath(dir, key) in s.chunkFiles && PathlibIndexPath(dir, key) in s.indexFiles
    requires Flat(k) && Flat(key) && k != key
    requires PathlibChunksPath(dir, k) in s.chunkFiles && PathlibIndexPath(dir, k) in s.indexFiles
    ensures PathlibChunksPath(dir, k) in Appended(s, key, chunks, rows).chunkFiles
    ensures PathlibIndexPath(dir, k) in Appended(s, key, chunks, rows).indexFiles
    ensures Appended(s, key, chunks, rows).chunkFiles[PathlibChunksPath(dir, k)] == s.chunkFiles[PathlibChunksPath(dir, k)]
    ensures Appended(s, key, chunks, rows).indexFiles[PathlibIndexPath(dir, k)] == s.indexFiles[PathlibIndexPath(dir, k)]
  {
    PathlibKeyPathsDiffer(dir, k, key);
  }

  /** Entry `k` and its two files are the same in `t` as in `s`. */
  ghost predicate UntouchedAt(s: Store, t: Store, k: string) {
    && k in s.titles.entries && k in t.titles.entries && t.titles.entries[k] == s.titles.entries[k]
    && var info := s.titles.entries[k];
    && info.chunksFile in s.chunkFiles && info.chunksFile in t.chunkFiles
    && info.indexFile in s.indexFiles && info.indexFile in t.indexFiles
    && t.chunkFiles[info.chunksFile] == s.chunkFiles[info.chunksFile]
    && t.indexFiles[info.indexFile] == s.indexFiles[info.indexFile]
  }

  /** Every entry of `s` but `key` is untouched in `t`. */
  ghost predicate Untouched(s: Store, t: Store, key: string) {
    forall k :: k in s.titles.entries && k != key ==> UntouchedAt(s, t, k)
  }

  /** Appending to one collection leaves every other entry and its files as they were. */
  lemma AppendedKeepsOthers(s: Store, dir: string, key: string, chunks: seq<string>, rows: seq<Vector>, k: string)
    requires Consistent(s, dir) && key in s.titles.entries && k in s.titles.entries && k != key
    ensures UntouchedAt(s, Appended(s, key, chunks, rows), k)
    ensures Filed(Appended(s, key, chunks, rows), dir, k)
  {
    assert Filed(s, dir, k) && Filed(s, dir, key);
    AppendedKeepsFiles(s, dir, key, chunks, rows, k);
  }

  /** The appended collection stays filed; its chunk list grows by the chunks, its index by the rows. */
  lemma AppendedGrows(s: Store, dir: string, key: string, chunks: seq<string>, rows: seq<Vector>)
    requires Consistent(s, dir) && key in s.titles.entries
    ensures var t := Appended(s, key, chunks, rows);
      && key in t.titles.entries && Filed(t, dir, key)
      && t.chunkFiles[PathlibChunksPath(dir, key)] == s.chunkFiles[PathlibChunksPath(dir, key)] + chunks
      && t.indexFiles[PathlibIndexPath(dir, key)].vectors == s.indexFiles[PathlibIndexPath(dir, key)].vectors + rows
  {
    assert Filed(s, dir, key);
  }

  /** The writes of `add_documents` keep the store consistent and touch no other collection. */
  lemma AppendedKeeps(s: Store, dir: string, key: string, chunks: seq<string>, rows: seq<Vector>)
    requires Consistent(s, dir) && key in s.titles.entries
    ensures Consistent(Appended(s, key, chunks, rows), dir)
    ensures Untouched(s, Appended(s, key, chunks, rows), key)
  {
    var t := Appended(s, key, chunks, rows);
    AppendedGrows(s, dir, key, chunks, rows);
    forall k | k in s.titles.entries && k != key ensures UntouchedAt(s, t, k) && Filed(t, dir, k) {
      AppendedKeepsOthers(s, dir, key, chunks, rows, k);
    }
  }

  /** A write of `add_documents` is `Appended` with the embedder's rows. */
  lemma AddWrites(s: Store, title: string, chunks: seq<string>, embedded: Result<seq<Vector>, EmbedError>)
    requires s.titles.Valid()
    requires AddDocumentsWith(s, title, chunks, embedded).0.Ok? && AddDocumentsWith(s, title, chunks, embedded).0.value > 0
    ensures Normalize(title) in s.titles.entries && embedded.Ok?
    ensures AddDocumentsWith(s, title, chunks, embedded).1 == Appended(s, Normalize(title), chunks, embedded.value)
  {
    var key := Normalize(title);
    assert key in s.titles.entries && chunks != [];
    var info := s.titles.entries[key];
    assert info.chunksFile in s.chunkFiles && info.indexFile in s.indexFiles;
    assert embedded.Ok?;
    assert embedded.value != [] && Fits(s.indexFiles[info.indexFile].dim, embedded.value);
  }

  /** A successful `add_documents` appends all the chunks to the key's chunk list and only the
      survivors' rows to its index, and leaves every other collection as it was. */
  lemma AddDrift(s: Store, e: Embedder, dir: string, title: string, chunks: seq<string>)
    requires Consistent(s, dir)
    requires AddDocumentsSpec(s, e, title, chunks).0.Ok? && AddDocumentsSpec(s, e, title, chunks).0.value > 0
    ensures var key, t := Normalize(title), AddDocumentsSpec(s, e, title, chunks).1;
      && key in s.titles.entries && key in t.titles.entries && Consistent(t, dir)
      && t.chunkFiles[PathlibChunksPath(dir, key)] == s.chunkFiles[PathlibChunksPath(dir, key)] + chunks
      && |t.indexFiles[PathlibIndexPath(dir, key)].vectors| == |s.indexFiles[PathlibIndexPath(dir, key)].vectors| + |Survivors(chunks)|
      && Untouched(s, t, key)
  {
    var embedded := e.EmbedTexts(chunks);
    AddWrites(s, title, chunks, embedded);
    AppendedGrows(s, dir, Normalize(title), chunks, embedded.value);
    AppendedKeeps(s, dir, Normalize(title), chunks, embedded.value);
  }

  /** From an aligned store, `add_documents` keeps every collection aligned exactly when it
      writes nothing or none of the chunks is blank: a blank chunk is stored without a row. */
  lemma AddAlignment(s: Store, e: Embedder, dir: string, title: string, chunks: seq<string>)
    requires Aligned(s, dir)
    ensures var r := AddDocumentsSpec(s, e, title, chunks);
      Aligned(r.1, dir) <==> !(r.0.Ok? && r.0.value > 0) || NoneBlank(chunks)
  {
    var r := AddDocumentsSpec(s, e, title, chunks);
    if r.0.Ok? && r.0.value > 0 {
      var key := Normalize(title);
      var embedded := e.EmbedTexts(chunks);
      AddWrites(s, title, chunks, embedded);
      var rows := embedded.value;
      AppendedAlignment(s, dir, key, chunks, rows);
      SurvivorsSpec(chunks);
      assert |StripAll(chunks)| == |chunks|;
      assert |rows| == |chunks| <==> NoneBlank(chunks);
    }
  }

  /** The writes of `add_documents` on an aligned store keep it aligned exactly when as many
      rows as chunks are appended. */
  lemma AppendedAlignment(s: Store, dir: string, key: string, chunks: seq<string>, rows: seq<Vector>)
    requires Aligned(s, dir) && key in s.titles.entries
    ensures Aligned(Appended(s, key, chunks, rows), dir) <==> |rows| == |chunks|
  {
    var t := Appended(s, key, chunks, rows);
    AppendedKeeps(s, dir, key, chunks, rows);
    AppendedAlignedAt(s, key, chunks, rows);
    if |rows| == |chunks| {
      forall k | k in t.titles.entries ensures AlignedAt(t, k) {
        if k != key {
          assert UntouchedAt(s, t, k) && AlignedAt(s, k);
          UntouchedStaysAligned(s, t, k);
        }
      }
    }
  }

  /** The appended entry itself is aligned afterwards exactly when as many rows as chunks are
      appended. */
  lemma AppendedAlignedAt(s: Store, key: string, chunks: seq<string>, rows: seq<Vector>)
    requires s.titles.Valid() && AlignedAt(s, key)
    ensures AlignedAt(Appended(s, key, chunks, rows), key) <==> |rows| == |chunks|
  {
    var info := s.titles.entries[key];
    var t := Appended(s, key, chunks, rows);
    assert t.titles.entries[key] == info.(chunkCount := |s.chunkFiles[info.chunksFile]| + |chunks|);
    assert t.chunkFiles[info.chunksFile] == s.chunkFiles[info.chunksFile] + chunks;
    assert t.indexFiles[info.indexFile].vectors == s.indexFiles[info.indexFile].vectors + rows;
  }

  /** An untouched entry that was aligned stays aligned. */
  lemma UntouchedStaysAligned(s: Store, t: Store, k: string)
    requires UntouchedAt(s, t, k) && AlignedAt(s, k)
    ensures AlignedAt(t, k)
  {
  }

  /** With blank chunks dropped first, `add_documents` always keeps the store aligned. */
  lemma FixedKeepsAligned(s: Store, e: Embedder, dir: string, title: string, chunks: seq<string>)
    requires Aligned(s, dir)
    ensures Aligned(AddDocumentsFixedSpec(s, e, title, chunks).1, dir)
  {
    NonBlankKeeps(chunks);
    AddAlignment(s, e, dir, title, NonBlank(chunks));
  }

  /** One blank chunk next to a real one: both are stored, one row is added, and the
      collection's chunk `i` no longer belongs to vector `i`. */
  lemma BlankChunkBreaksAlignment(s: Store, e: Embedder, dir: string, title: string)
    requires Aligned(s, dir) && Normalize(title) in s.titles.entries && e.model.Some?
    requires forall text :: |e.model.value.encode(text)| == s.indexFiles[PathlibIndexPath(dir, Normalize(title))].dim
    ensures AddDocumentsSpec(s, e, title, ["a", " "]).0 == Ok(2)
    ensures !Aligned(AddDocumentsSpec(s, e, title, ["a", " "]).1, dir)
  {
    var key := Normalize(title);
    assert Filed(s, dir, key);
    BlankChunkSurvivors();
    var rows := EncodeAll(e.model.value, ["a"]);
    assert e.EmbedTexts(["a", " "]) == Ok(rows);
    BlankChunkStored(s, title, rows);
    AddAlignment(s, e, dir, title, ["a", " "]);
  }

  /** `add_documents(title, ["a", " "])` on an existing collection, given one row of the
      index's width, reports both chunks as added. */
  lemma BlankChunkStored(s: Store, title: string, rows: seq<Vector>)
    requires s.titles.Valid() && Normalize(title) in s.titles.entries
    requires s.titles.entries[Normalize(title)].chunksFile in s.chunkFiles
    requires s.titles.entries[Normalize(title)].indexFile in s.indexFiles
    requires |rows| == 1 && |rows[0]| == s.indexFiles[s.titles.entries[Normalize(title)].indexFile].dim
    ensures AddDocumentsWith(s, title, ["a", " "], Ok(rows)).0 == Ok(2)
  {
    var info := s.titles.entries[Normalize(title)];
    assert Fits(s.indexFiles[info.indexFile].dim, rows);
    AddCounts(s, title, ["a", " "], rows);
  }

  /** With every file present and a non-empty list of rows of the index's width,
      `add_documents` reports every chunk as added. */
  lemma AddCounts(s: Store, title: string, chunks: seq<string>, rows: seq<Vector>)
    requires s.titles.Valid() && Normalize(title) in s.titles.entries && chunks != [] && rows != []
    requires s.titles.entries[Normalize(title)].chunksFile in s.chunkFiles
    requires s.titles.entries[Normalize(title)].indexFile in s.indexFiles
    requires Fits(s.indexFiles[s.titles.entries[Normalize(title)].indexFile].dim, rows)
    ensures AddDocumentsWith(s, title, chunks, Ok(rows)).0 == Ok(|chunks|)
  {
  }

  /** Of `["a", " "]` the embedder keeps only `"a"`. */
  lemma BlankChunkSurvivors()
    ensures Survivors(["a", " "]) == ["a"]
    ensures !NoneBlank(["a", " "])
  {
    LetterIsNotSpace('a');
    SpaceAndNewlineAreSpace();
    StripKeepsTrimmed("a");
    StripEmptyIffBlank(" ");
    assert StripAll(["a", " "]) == ["a", []];
    assert NonEmpty(["a", []]) == ["a"];
  }

  // ---------------------------------------------------------------- delete_title keeps the invariants

  /** Deleting a collection leaves the other files where they were. */
  lemma DroppedKeepsFiles(s: Store, dir: string, key: string, k: string)
    requires s.titles.Valid() && key in s.titles.entries
    requires s.titles.entries[key].chunksFile == PathlibChunksPath(dir, key) && s.titles.entries[key].indexFile == PathlibIndexPath(dir, key)
    requires Flat(k) && Flat(key) && k != key
    requires PathlibChunksPath(dir, k) in s.chunkFiles && PathlibIndexPath(dir, k) in s.indexFiles
    ensures PathlibChunksPath(dir, k) in Dropped(s, key).chunkFiles && PathlibIndexPath(dir, k) in Dropped(s, key).indexFiles
    ensures Dropped(s, key).chunkFiles[PathlibChunksPath(dir, k)] == s.chunkFiles[PathlibChunksPath(dir, k)]
    ensures Dropped(s, key).indexFiles[PathlibIndexPath(dir, k)] == s.indexFiles[PathlibIndexPath(dir, k)]
  {
    PathlibKeyPathsDiffer(dir, k, key);
  }

  /** Deleting a collection leaves every other entry filed, and aligned if it was. */
  lemma DroppedKeepsOthers(s: Store, dir: string, key: string, k: string)
    requires Consistent(s, dir) && key in s.titles.entries && k in Dropped(s, key).titles.entries
    ensures Filed(Dropped(s, key), dir, k)
    ensures AlignedAt(s, k) ==> AlignedAt(Dropped(s, key), k)
  {
    var t := Dropped(s, key);
    assert k in s.titles.entries && k != key;
    assert Filed(s, dir, k) && Filed(s, dir, key);
    DroppedKeepsFiles(s, dir, key, k);
    assert t.titles.entries[k] == s.titles.entries[k];
  }

  /** A successful delete removes one entry and its files; the rest stay filed and aligned. */
  lemma DeleteKeepsInvariants(s: Store, failing: set<string>, dir: string, title: string)
    requires Consistent(s, dir) && DeleteTitleSpec(s, failing, title).0
    ensures Consistent(DeleteTitleSpec(s, failing, title).1, dir)
    ensures Aligned(s, dir) ==> Aligned(DeleteTitleSpec(s, failing, title).1, dir)
  {
    var key := Normalize(title);
    DeleteWrites(s, failing, title);
    var t := Dropped(s, key);
    forall k | k in t.titles.entries ensures Filed(t, dir, k) && (Aligned(s, dir) ==> AlignedAt(t, k)) {
      DroppedKeepsOthers(s, dir, key, k);
    }
  }

  /** A delete that succeeds is `Dropped` on the key. */
  lemma DeleteWrites(s: Store, failing: set<string>, title: string)
    requires s.titles.Valid() && DeleteTitleSpec(s, failing, title).0
    ensures Normalize(title) in s.titles.entries
    ensures DeleteTitleSpec(s, failing, title).1 == Dropped(s, Normalize(title))
  {
  }

  /** Deleting a collection just created takes the store back to where it was, but for the
      registry file, which now holds the registry. */
  lemma CreateThenDelete(s: Store, dir: string, dim: nat, title: string, failing: set<string>)
    requires s.titles.Valid() && Normalize(title) !in s.titles.entries
    requires PathlibIndexPath(dir, Normalize(title)) !in s.indexFiles && PathlibChunksPath(dir, Normalize(title)) !in s.chunkFiles
    requires PathlibIndexPath(dir, Normalize(title)) !in failing && PathlibChunksPath(dir, Normalize(title)) !in failing
    ensures DeleteTitleSpec(CreateTitleSpec(s, dir, dim, title).1, failing, title) == (true, s.(registryFile := Some(s.titles)))
  {
    var key := Normalize(title);
    var t := Created(s, dir, dim, Strip(title), key);
    assert CreateTitleSpec(s, dir, dim, title).1 == t;
    CreatedThenDropped(s, dir, dim, Strip(title), key);
    assert t.titles.entries[key] == PathlibEntry(Strip(title), dir, key);
  }

  /** `Dropped` undoes `Created` when the new key's files did not exist before. */
  lemma CreatedThenDropped(s: Store, dir: string, dim: nat, displayName: string, key: string)
    requires s.titles.Valid() && key !in s.titles.entries
    requires PathlibIndexPath(dir, key) !in s.indexFiles && PathlibChunksPath(dir, key) !in s.chunkFiles
    ensures key in Created(s, dir, dim, displayName, key).titles.entries
    ensures Dropped(Created(s, dir, dim, displayName, key), key) == s.(registryFile := Some(s.titles))
  {
    var info := PathlibEntry(displayName, dir, key);
    PutThenRemove(s.titles, key, info);
    PutThenDrop(s.chunkFiles, info.chunksFile, []);
    PutThenDrop(s.indexFiles, info.indexFile, FlatIndex(dim, []));
  }

  /** Writing a fresh file and removing it again gives back the files as they were. */
  lemma PutThenDrop<V>(files: map<string, V>, path: string, v: V)
    requires path !in files
    ensures files[path := v] - {path} == files
  {
  }

  /** `search` answers `[]` for an empty collection before the query is looked at, and refuses
      a blank query for a collection with chunks. */
  lemma SearchEarlyExits(s: Store, e: Embedder, search: SearchFn, title: string, query: string, k: int)
    requires Normalize(title) in s.titles.entries
    requires s.titles.entries[Normalize(title)].chunksFile in s.chunkFiles
    ensures var info := s.titles.entries[Normalize(title)];
      s.chunkFiles[info.chunksFile] == [] ==> SearchSpec(s, e, search, title, query, k) == Ok([])
    ensures var info := s.titles.entries[Normalize(title)];
      s.chunkFiles[info.chunksFile] != [] && info.indexFile in s.indexFiles && Strip(query) == [] ==>
        SearchSpec(s, e, search, title, query, k) == Err(EmbedFailed(EmptyQuery))
  {
  }

  // ---------------------------------------------------------------- reading the index's answer

  /** When every position names a chunk, counting from either end, the loop as written
      collects one match per row, in the index's order. */
  lemma {:induction false} CollectInOrder(hits: seq<Hit>, chunks: seq<string>)
    requires forall i :: 0 <= i < |hits| ==> -|chunks| <= hits[i].pos < |chunks|
    ensures Collect(hits, chunks).Ok? && |Collect(hits, chunks).value| == |hits|
    ensures forall i :: 0 <= i < |hits| ==>
      Collect(hits, chunks).value[i] == Match(PyIndex(chunks, hits[i].pos).value, hits[i].score)
    decreases |hits|
  {
    if hits != [] {
      var n := |hits| - 1;
      var front := hits[..n];
      assert forall i :: 0 <= i < n ==> front[i] == hits[i];
      CollectInOrder(front, chunks);
      var rs := Collect(front, chunks).value;
      var last := Match(PyIndex(chunks, hits[n].pos).value, hits[n].score);
      assert Collect(hits, chunks) == Ok(rs + [last]);
      forall i | 0 <= i < |hits| ensures (rs + [last])[i] == Match(PyIndex(chunks, hits[i].pos).value, hits[i].score) {
        if i < n {
          assert (rs + [last])[i] == rs[i];
        }
      }
    }
  }

  /** The checked loop collects, in the index's order, exactly the rows that name a stored chunk. */
  lemma {:induction false} CollectCheckedInOrder(hits: seq<Hit>, chunks: seq<string>)
    requires forall i :: 0 <= i < |hits| ==> 0 <= hits[i].pos < |chunks|
    ensures |CollectChecked(hits, chunks)| == |hits|
    ensures forall i :: 0 <= i < |hits| ==> CollectChecked(hits, chunks)[i] == Match(chunks[hits[i].pos], hits[i].score)
    decreases |hits|
  {
    if hits != [] {
      var n := |hits| - 1;
      var front := hits[..n];
      assert forall i :: 0 <= i < n ==> front[i] == hits[i];
      CollectCheckedInOrder(front, chunks);
      var rs := CollectChecked(front, chunks);
      var last := Match(chunks[hits[n].pos], hits[n].score);
      assert CollectChecked(hits, chunks) == rs + [last];
      forall i | 0 <= i < |hits| ensures (rs + [last])[i] == Match(chunks[hits[i].pos], hits[i].score) {
        if i < n {
          assert (rs + [last])[i] == rs[i];
        }
      }
    }
  }

  /** Padding rows at the end add nothing to the checked loop. */
  lemma {:induction false} CollectCheckedSkipsPadding(hits: seq<Hit>, chunks: seq<string>, n: nat)
    requires n <= |hits|
    requires forall i :: n <= i < |hits| ==> hits[i].pos == -1
    ensures CollectChecked(hits, chunks) == CollectChecked(hits[..n], chunks)
    decreases |hits|
  {
    if |hits| > n {
      var m := |hits| - 1;
      var front := hits[..m];
      assert front[..n] == hits[..n];
      assert forall i :: n <= i < m ==> front[i] == hits[i];
      CollectCheckedSkipsPadding(front, chunks, n);
    } else {
      assert hits[..n] == hits;
    }
  }

  /** On rows that all name a stored chunk, the loop as written and the checked loop agree. */
  lemma CollectAgrees(hits: seq<Hit>, chunks: seq<string>)
    requires forall i :: 0 <= i < |hits| ==> 0 <= hits[i].pos < |chunks|
    ensures Collect(hits, chunks) == Ok(CollectChecked(hits, chunks))
  {
    CollectInOrder(hits, chunks);
    CollectCheckedInOrder(hits, chunks);
    assert Collect(hits, chunks).value == CollectChecked(hits, chunks);
  }

  /** The answer of a flat index holding at least as many vectors as rows asked for, read
      against a chunk list at least that long: one match per row, best score first, each the
      chunk at the row's position, whichever loop reads it. */
  lemma CollectFlat(hits: seq<Hit>, chunks: seq<string>, n: int)
    requires FlatAnswer(hits, n, |hits|) && |hits| <= n <= |chunks|
    ensures Collect(hits, chunks) == Ok(CollectChecked(hits, chunks))
    ensures |CollectChecked(hits, chunks)| == |hits|
    ensures forall i :: 0 <= i < |hits| ==> CollectChecked(hits, chunks)[i] == Match(chunks[hits[i].pos], hits[i].score)
    ensures forall i, j :: 0 <= i < j < |hits| ==> CollectChecked(hits, chunks)[i].score >= CollectChecked(hits, chunks)[j].score
  {
    CollectAgrees(hits, chunks);
    CollectCheckedInOrder(hits, chunks);
  }

  /** Two rows of a two-chunk collection whose index holds one vector: the padding row (-1)
      brings back the last chunk under the loop as written, and is skipped by the checked loop. */
  lemma PaddingLeaksLastChunk(best: real, pad: real)
    ensures Collect([Hit(best, 0), Hit(pad, -1)], ["a", "b"]) == Ok([Match("a", best), Match("b", pad)])
    ensures CollectChecked([Hit(best, 0), Hit(pad, -1)], ["a", "b"]) == [Match("a", best)]
  {
    var hits, chunks := [Hit(best, 0), Hit(pad, -1)], ["a", "b"];
    var one := [Hit(best, 0)];
    assert one[..0] == [];
    assert PyIndex(chunks, 0) == Some("a") && PyIndex(chunks, -1) == Some("b");
    assert Collect([], chunks) == Ok([]);
    assert Collect(one, chunks) == Ok([] + [Match("a", best)]);
    assert CollectChecked(one, chunks) == [] + [Match("a", best)];
    assert [] + [Match("a", best)] == [Match("a", best)];
    assert |hits| == 2 && hits[..|hits| - 1] == one;
    assert hits[|hits| - 1] == Hit(pad, -1);
    assert Collect(hits[..|hits| - 1], chunks) == Ok([Match("a", best)]);
    assert Collect(hits, chunks) == Ok([Match("a", best)] + [Match("b", pad)]);
    assert [Match("a", best)] + [Match("b", pad)] == [Match("a", best), Match("b", pad)];
  }

  /** When the index holds `n` vectors but `min(k, len(all_chunks))` rows are asked for, more
      than `n`: the loop as written returns every padding row as the last chunk, while the
      checked loop returns the `n` real matches only. */
  lemma CollectPadding(hits: seq<Hit>, chunks: seq<string>, n: nat)
    requires FlatAnswer(hits, n, |hits|) && n < |hits| <= |chunks|
    ensures Collect(hits, chunks).Ok? && |Collect(hits, chunks).value| == |hits|
    ensures forall i :: n <= i < |hits| ==> Collect(hits, chunks).value[i] == Match(chunks[|chunks| - 1], hits[i].score)
    ensures |CollectChecked(hits, chunks)| == n
  {
    forall i | 0 <= i < |hits| ensures -|chunks| <= hits[i].pos < |chunks| && (n <= i ==> hits[i].pos == -1) {
      assert i < |hits|;
    }
    CollectInOrder(hits, chunks);
    forall i | n <= i < |hits| ensures Collect(hits, chunks).value[i] == Match(chunks[|chunks| - 1], hits[i].score) {
      assert PyIndex(chunks, hits[i].pos) == Some(chunks[|chunks| - 1]);
    }
    CollectCheckedSkipsPadding(hits, chunks, n);
    var front := hits[..n];
    assert forall i :: 0 <= i < n ==> front[i] == hits[i];
    CollectCheckedInOrder(front, chunks);
  }

  // ---------------------------------------------------------------- search on an aligned store

  /** On an aligned store, the index's answer has `min(k, len(all_chunks))` rows for a chunk
      list and an index of the same length. */
  lemma AlignedAnswer(s: Store, e: Embedder, search: SearchFn, title: string, query: string, k: int)
    requires AlignedAt(s, Normalize(title)) && IsFlatSearch(search) && k >= 1
    requires SearchAnswer(s, e, search, title, query, k).Ok? && SearchAnswer(s, e, search, title, query, k).value.Some?
    ensures var key, a := Normalize(title), SearchAnswer(s, e, search, title, query, k).value.value;
      && key in s.titles.entries && s.titles.entries[key].chunksFile in s.chunkFiles
      && a.1 == s.chunkFiles[s.titles.entries[key].chunksFile]
      && |a.0| == Min(k, |a.1|) && FlatAnswer(a.0, |a.1|, |a.0|)
  {
    var key := Normalize(title);
    var info := s.titles.entries[key];
    var all := s.chunkFiles[info.chunksFile];
    var vs := s.indexFiles[info.indexFile].vectors;
    var q := e.EmbedQuery(query).value;
    assert SearchAnswer(s, e, search, title, query, k).value.value == (search(vs, q[0], Min(k, |all|)), all);
    assert |vs| == |all| && Min(k, |all|) >= 1;
  }

  /** An entry of an aligned store: its chunk list is its key's, and as long as its index. */
  lemma AlignedEntry(s: Store, dir: string, key: string)
    requires Aligned(s, dir) && key in s.titles.entries
    ensures var info := s.titles.entries[key];
      && info.chunksFile == PathlibChunksPath(dir, key)
      && info.chunksFile in s.chunkFiles && info.indexFile in s.indexFiles
      && |s.chunkFiles[info.chunksFile]| == |s.indexFiles[info.indexFile].vectors|
  {
    assert Filed(s, dir, key) && AlignedAt(s, key);
  }

  /** On an aligned store and a flat index, `search` returns `min(k, len(all_chunks))`
      matches, best first, each a stored chunk with its score, and skips nothing: the bound
      check of the corrected loop changes no answer. */
  lemma SearchOnAligned(s: Store, e: Embedder, search: SearchFn, dir: string, title: string, query: string, k: int)
    requires Aligned(s, dir) && IsFlatSearch(search) && k >= 1
    ensures SearchSpec(s, e, search, title, query, k) == SearchFixedSpec(s, e, search, title, query, k)
    ensures var r := SearchSpec(s, e, search, title, query, k);
      r.Ok? ==>
        && Normalize(title) in s.titles.entries
        && PathlibChunksPath(dir, Normalize(title)) in s.chunkFiles
        && |r.value| == Min(k, |s.chunkFiles[PathlibChunksPath(dir, Normalize(title))]|)
        && (forall i, j :: 0 <= i < j < |r.value| ==> r.value[i].score >= r.value[j].score)
  {
    var key := Normalize(title);
    if key in s.titles.entries {
      AlignedEntry(s, dir, key);
    }
    SearchOnAlignedAt(s, e, search, title, query, k);
  }

  /** `SearchOnAligned` for a store where only the searched collection is known aligned. */
  lemma SearchOnAlignedAt(s: Store, e: Embedder, search: SearchFn, title: string, query: string, k: int)
    requires Normalize(title) in s.titles.entries ==> AlignedAt(s, Normalize(title))
    requires IsFlatSearch(search) && k >= 1
    ensures SearchSpec(s, e, search, title, query, k) == SearchFixedSpec(s, e, search, title, query, k)
    ensures var r := SearchSpec(s, e, search, title, query, k);
      r.Ok? ==>
        && Normalize(title) in s.titles.entries
        && s.titles.entries[Normalize(title)].chunksFile in s.chunkFiles
        && |r.value| == Min(k, |s.chunkFiles[s.titles.entries[Normalize(title)].chunksFile]|)
        && (forall i, j :: 0 <= i < j < |r.value| ==> r.value[i].score >= r.value[j].score)
  {
    SpecsOfAnswer(s, e, search, title, query, k);
    var answer := SearchAnswer(s, e, search, title, query, k);
    if answer.Ok? && answer.value.Some? {
      SearchOnAlignedAnswer(s, e, search, title, query, k);
    }
  }

  /** `SearchOnAligned` when the collection has chunks and the query was embedded. */
  lemma SearchOnAlignedAnswer(s: Store, e: Embedder, search: SearchFn, title: string, query: string, k: int)
    requires AlignedAt(s, Normalize(title)) && IsFlatSearch(search) && k >= 1
    requires SearchAnswer(s, e, search, title, query, k).Ok? && SearchAnswer(s, e, search, title, query, k).value.Some?
    ensures var a := SearchAnswer(s, e, search, title, query, k).value.value;
      && SearchSpec(s, e, search, title, query, k) == Collect(a.0, a.1)
      && SearchFixedSpec(s, e, search, title, query, k) == Ok(CollectChecked(a.0, a.1))
      && Collect(a.0, a.1) == Ok(CollectChecked(a.0, a.1))
      && |CollectChecked(a.0, a.1)| == Min(k, |a.1|)
      && (forall i, j :: 0 <= i < j < |CollectChecked(a.0, a.1)| ==> CollectChecked(a.0, a.1)[i].score >= CollectChecked(a.0, a.1)[j].score)
  {
    AlignedAnswer(s, e, search, title, query, k);
    SpecsOfAnswer(s, e, search, title, query, k);
    var a := SearchAnswer(s, e, search, title, query, k).value.value;
    CollectFlat(a.0, a.1, |a.1|);
  }

  /** On any store, a flat index makes `search` return at most `min(k, len(all_chunks))`
      matches: one per row it asked for, and fewer when a row is skipped. */
  lemma SearchBounded(s: Store, e: Embedder, search: SearchFn, title: string, query: string, k: int)
    requires IsFlatSearch(search) && k >= 1
    ensures var r := SearchSpec(s, e, search, title, query, k);
      r.Ok? ==>
        && Normalize(title) in s.titles.entries
        && s.titles.entries[Normalize(title)].chunksFile in s.chunkFiles
        && |r.value| <= Min(k, |s.chunkFiles[s.titles.entries[Normalize(title)].chunksFile]|)
  {
    SpecsOfAnswer(s, e, search, title, query, k);
    AnswerRows(s, e, search, title, query, k);
  }

  /** The same bound for the corrected loop. */
  lemma SearchFixedBounded(s: Store, e: Embedder, search: SearchFn, title: string, query: string, k: int)
    requires IsFlatSearch(search) && k >= 1
    ensures var r := SearchFixedSpec(s, e, search, title, query, k);
      r.Ok? ==>
        && Normalize(title) in s.titles.entries
        && s.titles.entries[Normalize(title)].chunksFile in s.chunkFiles
        && |r.value| <= Min(k, |s.chunkFiles[s.titles.entries[Normalize(title)].chunksFile]|)
  {
    SpecsOfAnswer(s, e, search, title, query, k);
    AnswerRows(s, e, search, title, query, k);
  }

  /** A flat index answers with exactly `min(k, len(all_chunks))` rows, whatever it holds. */
  lemma AnswerRows(s: Store, e: Embedder, search: SearchFn, title: string, query: string, k: int)
    requires IsFlatSearch(search) && k >= 1
    ensures var answer := SearchAnswer(s, e, search, title, query, k);
      answer.Ok? ==>
        && Normalize(title) in s.titles.entries
        && s.titles.entries[Normalize(title)].chunksFile in s.chunkFiles
        && (answer.value.Some? ==>
             && answer.value.value.1 == s.chunkFiles[s.titles.entries[Normalize(title)].chunksFile]
             && |answer.value.value.0| == Min(k, |answer.value.value.1|))
  {
    var answer := SearchAnswer(s, e, search, title, query, k);
    if answer.Ok? && answer.value.Some? {
      var info := s.titles.entries[Normalize(title)];
      var all := s.chunkFiles[info.chunksFile];
      var vs := s.indexFiles[info.indexFile].vectors;
      var q := e.EmbedQuery(query).value;
      assert answer.value.value == (search(vs, q[0], Min(k, |all|)), all);
      assert Min(k, |all|) >= 1;
    }
  }

  /** Both loops read the same answer of the index: an error or an empty collection passes
      through unchanged, an answer is collected against the collection's chunk list. */
  lemma SpecsOfAnswer(s: Store, e: Embedder, search: SearchFn, title: string, query: string, k: int)
    ensures var answer := SearchAnswer(s, e, search, title, query, k);
      && (answer.Err? ==> SearchSpec(s, e, search, title, query, k) == SearchFixedSpec(s, e, search, title, query, k) == Err(answer.error))
      && (answer == Ok(None) ==> SearchSpec(s, e, search, title, query, k) == SearchFixedSpec(s, e, search, title, query, k) == Ok([]))
      && (answer.Ok? && answer.value.Some? ==>
           && SearchSpec(s, e, search, title, query, k) == Collect(answer.value.value.0, answer.value.value.1)
           && SearchFixedSpec(s, e, search, title, query, k) == Ok(CollectChecked(answer.value.value.0, answer.value.value.1)))
  {
  }

  // ---------------------------------------------------------------- the manager

  class IndexManager {
    const faissDir: string
    const embedder: Embedder
    var titles: Dict<TitleInfo>
    var registryFile: Option<Dict<TitleInfo>>
    var chunkFiles: map<string, seq<string>>
    var indexFiles: map<string, FlatIndex>

    function State(): Store
      reads this
    {
      Store(titles, registryFile, chunkFiles, indexFiles)
    }

    ghost predicate Valid()
      reads this
    {
      titles.Valid()
    }

    /** `IndexManager(storage_dir)`: collections live under `<storage_dir>/faiss`, and
        `_load_titles` gives the registry file's dict, or `{}` when it is absent or unreadable. */
    constructor (storageDir: string, embedder: Embedder, registry: Option<Dict<TitleInfo>>,
                 chunkFiles: map<string, seq<string>>, indexFiles: map<string, FlatIndex>)
      requires registry.Some? ==> registry.value.Valid()
      ensures Valid()
      ensures faissDir == PathDiv(storageDir, "faiss") && this.embedder == embedder
      ensures registry.Some? ==> titles == registry.value
      ensures registry.None? ==> titles.entries == map[] && titles.order == []
      ensures registryFile == registry && this.chunkFiles == chunkFiles && this.indexFiles == indexFiles
    {
      faissDir := PathDiv(storageDir, "faiss");
      this.embedder := embedder;
      titles := if registry.Some? then registry.value else EmptyDict();
      registryFile := registry;
      this.chunkFiles := chunkFiles;
      this.indexFiles := indexFiles;
    }

    /** `_save_titles` */
    method SaveTitles()
      modifies this
      ensures State() == old(State()).(registryFile := Some(titles))
    {
      registryFile := Some(titles);
    }

    method CreateTitle(title: string) returns (created: bool)
      requires Valid()
      modifies this
      ensures Valid()
      ensures (created, State()) == CreateTitleSpec(old(State()), faissDir, embedder.EmbeddingDim(), title)
    {
      var normalized := Normalize(title);
      var displayTitle := Strip(title);
      if normalized in titles.entries {
        return false;
      }
      var indexPath := PathlibIndexPath(faissDir, normalized);
      var dimension := embedder.EmbeddingDim();
      indexFiles := indexFiles[indexPath := FlatIndex(dimension, [])];
      var chunksPath := PathlibChunksPath(faissDir, normalized);
      chunkFiles := chunkFiles[chunksPath := []];
      titles := titles.Put(normalized, TitleInfo(displayTitle, indexPath, chunksPath, 0));
      SaveTitles();
      return true;
    }

    method AddDocuments(title: string, chunks: seq<string>) returns (r: Result<int, StoreError>)
      requires Valid()
      modifies this
      ensures Valid()
      ensures (r, State()) == AddDocumentsSpec(old(State()), embedder, title, chunks)
    {
      var normalized := Normalize(title);
      if normalized !in titles.entries {
        return Err(UnknownTitle);
      }
      if chunks == [] {
        return Ok(0);
      }
      var info := titles.entries[normalized];
      var chunksPath := info.chunksFile;
      if chunksPath !in chunkFiles {
        return Err(MissingFile(chunksPath));
      }
      var indexPath := info.indexFile;
      if indexPath !in indexFiles {
        return Err(MissingFile(indexPath));
      }
      var index := indexFiles[indexPath];
      var embedded := embedder.EmbedTexts(chunks);
      if embedded.Err? {
        return Err(EmbedFailed(embedded.error));
      }
      var embeddings := embedded.value;
      if |embeddings| == 0 {
        return Ok(0);
      }
      if !Fits(index.dim, embeddings) {
        return Err(DimensionMismatch);
      }
      WriteDocuments(normalized, chunks, embeddings);
      return Ok(|chunks|);
    }

    /** The writes at the end of `add_documents`: `index.add`, `extend`, both files written,
        the count updated and the registry saved. */
    method WriteDocuments(normalized: string, chunks: seq<string>, embeddings: seq<Vector>)
      requires Valid() && normalized in titles.entries
      requires titles.entries[normalized].chunksFile in chunkFiles && titles.entries[normalized].indexFile in indexFiles
      modifies this
      ensures Valid()
      ensures State() == Appended(old(State()), normalized, chunks, embeddings)
    {
      var info := titles.entries[normalized];
      var index := indexFiles[info.indexFile];
      index := FlatIndex(index.dim, index.vectors + embeddings);
      var existingChunks := chunkFiles[info.chunksFile] + chunks;
      var updated := titles.Put(normalized, info.(chunkCount := |existingChunks|));
      indexFiles := indexFiles[info.indexFile := index];
      chunkFiles := chunkFiles[info.chunksFile := existingChunks];
      titles := updated;
      SaveTitles();
    }

    /** `search`, whose loop keeps, in the index's order, each row whose position is below the
        chunk count. */
    method Search(search: SearchFn, title: string, query: string, k: int) returns (r: Result<seq<Match>, StoreError>)
      ensures r == SearchSpec(State(), embedder, search, title, query, k)
    {
      var normalized := Normalize(title);
      if normalized !in titles.entries {
        return Err(UnknownTitle);
      }
      var info := titles.entries[normalized];
      if info.chunksFile !in chunkFiles {
        return Err(MissingFile(info.chunksFile));
      }
      var allChunks := chunkFiles[info.chunksFile];
      if allChunks == [] {
        return Ok([]);
      }
      if info.indexFile !in indexFiles {
        return Err(MissingFile(info.indexFile));
      }
      var index := indexFiles[info.indexFile];
      var queryEmbedding := embedder.EmbedQuery(query);
      if queryEmbedding.Err? {
        return Err(EmbedFailed(queryEmbedding.error));
      }
      if |queryEmbedding.value[0]| != index.dim {
        return Err(DimensionMismatch);
      }
      var hits := search(index.vectors, queryEmbedding.value[0], Min(k, |allChunks|));
      r := CollectLoop(hits, allChunks);
    }

    /** `get_all_titles`: one display name per entry, in registry order. */
    function GetAllTitles(): (names: seq<string>)
      requires Valid()
      reads this
      ensures |names| == |titles.order| == |titles.entries|
      ensures forall i :: 0 <= i < |titles.order| ==> names[i] == titles.entries[titles.order[i]].displayName
    {
      DistinctCount(titles.order, titles.entries.Keys);
      var vs := titles.Values();
      seq(|vs|, i requires 0 <= i < |vs| => vs[i].displayName)
    }

    /** `get_title_info`: the entry of the title's normalized key, if any. */
    function GetTitleInfo(title: string): (info: Option<TitleInfo>)
      reads this
      ensures info.Some? <==> Normalize(title) in titles.entries
      ensures info.Some? ==> info.value == titles.entries[Normalize(title)]
    {
      titles.Get(Normalize(title))
    }

    method DeleteTitle(title: string, failing: set<string>) returns (deleted: bool)
      requires Valid()
      modifies this
      ensures Valid()
      ensures (deleted, State()) == DeleteTitleSpec(old(State()), failing, title)
    {
      var normalized := Normalize(title);
      if normalized !in titles.entries {
        return false;
      }
      var info := titles.entries[normalized];
      if info.indexFile in indexFiles && info.indexFile in failing {
        return false;
      }
      indexFiles := indexFiles - {info.indexFile};
      if info.chunksFile in chunkFiles && info.chunksFile in failing {
        return false;
      }
      chunkFiles := chunkFiles - {info.chunksFile};
      titles := titles.Remove(normalized);
      SaveTitles();
      return true;
    }
  }

  /** The loop of `search` over the index's rows. */
  method CollectLoop(hits: seq<Hit>, allChunks: seq<string>) returns (r: Result<seq<Match>, StoreError>)
    ensures r == Collect(hits, allChunks)
  {
    var results: seq<Match> := [];
    var i := 0;
    while i < |hits|
      invariant 0 <= i <= |hits|
      invariant Collect(hits[..i], allChunks) == Ok(results)
    {
      var dist, idx := hits[i].score, hits[i].pos;
      assert hits[..i + 1][..i] == hits[..i];
      if idx < |allChunks| {
        var chunk := PyIndex(allChunks, idx);
        if chunk.None? {
          CollectErrSticks(hits, allChunks, i + 1);
          return Err(BadPosition);
        }
        results := results + [Match(chunk.value, dist)];
      }
      i := i + 1;
    }
    assert hits[..i] == hits;
    return Ok(results);
  }

  /** A row that raises stops the loop: the whole answer raises. */
  lemma {:induction false} CollectErrSticks(hits: seq<Hit>, chunks: seq<string>, n: nat)
    requires n <= |hits| && Collect(hits[..n], chunks).Err?
    ensures Collect(hits, chunks) == Err(BadPosition)
    decreases |hits|
  {
    if n == |hits| {
      assert hits[..n] == hits;
    } else {
      var init := hits[..|hits| - 1];
      assert init[..n] == hits[..n];
      CollectErrSticks(init, chunks, n);
    }
  }
}
