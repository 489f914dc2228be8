# RAGForge core, modelled in Dafny

RAGForge is a small retrieval-augmented chat application with two parts:

- **vectordb_chat**: the application. Documents are cut into chunks. Each chunk is embedded and stored in a FAISS index under a named "title". A Streamlit chat page searches the selected titles, merges the best chunks, and asks a local LLM to answer from them.
- **LearningPhase**: a teaching version of the same pipeline. It has a sliding-window chunker, one in-memory vector store, a retrieval flow with a relevance threshold, and a registry of titles.

This project models the pipeline's logic:

- **Chunking**:
  - `chunk_text` and `clean_text`
  - `educational_chunk_logic`
- **Embedder**: the embedder singleton and its input filtering.
- **Title store** (`IndexManager`):
  - the title registry, an insertion-ordered dict persisted as JSON
  - one chunk list and one flat index per title
  - creating, adding, searching and deleting titles
- **Chat turn**:
  - search across titles
  - a stable sort by score
  - the top `k` results
  - the context string, the system and user messages, and the last four history messages
  - the updates to the two message lists
- **Learning phase**: its vector store, retrieval flow and storage manager.

### How the outside world is modelled

- **Files on disk** are maps from path to content: a chunk list or a flat index. The registry file is an `Option` that is `None` until the registry is first saved.
- **FAISS search** is a function parameter (`SearchFn`). `IsFlatSearch` states what `IndexFlatIP.search` promises: exactly `k` rows, row `i` a valid position while `i < ntotal`, and `-1` padding after that. FAISS asserts that the query's width is the index's dimension. The model checks this before it calls `SearchFn` and returns `DimensionMismatch` when the widths differ, so `SearchFn` only sees queries of the right width.
- **The sentence-transformer** is a `Model` holding a dimension and an `encode` function.
- **NumPy arrays** handed to the learning-phase `add_data` are a `Batch`: a matrix that keeps its width even with no rows, or a one-dimensional array (what encoding an empty list gives), whose shape does not unpack into rows and width.
- **The LLM** is a `Generate` function from messages to a reply or an error.
- **Paths.** `IndexManager` names its files with pathlib: `str(Path(dir) / name)` is `PathDiv`, which applies `PurePath` to the joined string. Like `PurePosixPath`, `PurePath` drops empty and `.` segments, keeps `..`, and keeps a root of one slash, or of exactly two. The learning-phase storage manager records `os.path.join` strings, modelled as `PathJoin`, which does not normalise. The files on disk are held as resolved paths: the OS resolves `.` segments and repeated `/` when it opens or removes a path, so the file reached through a recorded path is its `PurePath`. `IndexManager`'s file maps are keyed by the strings pathlib produced, which are already in this resolved form, so the model keys them by the recorded string and does not resolve it again.

### Python semantics written out

- `str.strip` and `str.split` on the characters Python treats as whitespace, `str.split(sep)` and `sep.join`.
- `str.lower` on the capitals of ASCII, Latin-1, Latin Extended-A and the basic Cyrillic block. Other scripts are listed under "Left out".
- `re.sub(r'\s+', ' ', …)`.
- Slices with negative and out-of-range bounds.
- Negative list indexing.
- `range` with a negative step.
- A stable `list.sort(reverse=True)`.

### Modules

| module | file | models |
|---|---|---|
| Wrappers | wrappers.dfy | `Option` and `Result` |
| PyText | pytext.dfy | Python string and list operations the core relies on |
| Registry | registry.dfy | the insertion-ordered title dict, title metadata, `os.path.join` and pathlib paths |
| VectorIndex | vector_index.dfy | vectors, search hits, the flat index and its search contract |
| Embedding | embedder.dfy | `vectordb_chat/vectordb/embedder.py` |
| TextUtils | text_utils.dfy | `vectordb_chat/utils/text_utils.py` (`chunk_text`, `clean_text`) |
| SlidingChunker | sliding_chunker.dfy | `LearningPhase/chunking_logic.py` |
| IndexStore | index_manager.dfy | `vectordb_chat/vectordb/index_manager.py` |
| ChatRetrieval | chat_retrieval.dfy | the chat turn of `vectordb_chat/pages/2_Chat.py` |
| VectorStorage | vector_storage.dfy | `LearningPhase/vector_storage.py` |
| QueryRetrieval | query_retrieval.dfy | `LearningPhase/query_and_retrieval.py` |
| StorageManager | storage_manager.dfy | `LearningPhase/multi_storage_manager.py` |

### Edge cases the model keeps as the code has them

- **Non-positive chunk step.** A step `size - overlap` that is not positive is not rejected up front:
  - `chunk_size == overlap` raises `ValueError` from `range`;
  - `overlap > chunk_size` silently gives no windows.
- **Failed file removal on delete.** When removing a file raises, the title is not forgotten: both `IndexManager.delete_title` and the learning-phase `delete_title` return `False` and keep the registry entry.

## Model

| member | source | states |
|---|---|---|
| TextUtils.CleanText | vectordb_chat/utils/text_utils.py:68-76 | cleaned text has no whitespace at either end |
| TextUtils.CleanTextIsStripped | vectordb_chat/utils/text_utils.py:68-76 | `clean_text` is the whitespace-collapsed text with its ends stripped; the newline pass never changes anything |
| TextUtils.CleanTextCollapsed | vectordb_chat/utils/text_utils.py:72-75 | cleaned text has no newline and no two consecutive spaces |
| TextUtils.CleanTextEnds | vectordb_chat/utils/text_utils.py:68-76 | cleaned text neither starts nor ends with whitespace; it is empty exactly when the input is all whitespace |
| TextUtils.CleanTextIdempotent | vectordb_chat/utils/text_utils.py:68-76 | cleaning twice equals cleaning once |
| TextUtils.SingleParagraph | vectordb_chat/utils/text_utils.py:23-26 | after cleaning, the paragraph split yields exactly one paragraph, the cleaned text |
| TextUtils.ChunkTextSpec | vectordb_chat/utils/text_utils.py:7-66 | what `chunk_text` returns or raises; text that strips to nothing gives no chunks |
| TextUtils.ChunkText | vectordb_chat/utils/text_utils.py:7-66 | the loop computes the reference chunking; blank input gives no chunks |
| TextUtils.ChunkParagraphs | vectordb_chat/utils/text_utils.py:28-66 | the paragraph-grouping loop equals the reference fold, including the `range` error for a zero step |
| TextUtils.RangeLoop | vectordb_chat/utils/text_utils.py:37-40 | the long-paragraph loop emits the windows of `range(0, len(words), step)` in order |
| TextUtils.ShortText | vectordb_chat/utils/text_utils.py:32-64 | text of at most `chunk_size` words becomes the single chunk `clean_text(text)` |
| TextUtils.LongText | vectordb_chat/utils/text_utils.py:36-41 | longer text is cut into word windows; `chunk_size == overlap` is the `range` error; `overlap > chunk_size` gives no chunks |
| TextUtils.LongWindows | vectordb_chat/utils/text_utils.py:38-40 | window j exists iff `j*step < len(words)`, is `words[j*step : j*step+size]` and has 1..size words |
| TextUtils.LongWindowsCover | vectordb_chat/utils/text_utils.py:38-40 | every word lies in some window |
| TextUtils.FoldKeepsShort | vectordb_chat/utils/text_utils.py:32-60 | with no overlap, grouping keeps every short paragraph once, in order |
| TextUtils.FinishBounded | vectordb_chat/utils/text_utils.py:44-64 | every emitted group holds only short paragraphs; with no overlap a group's word count is at most `chunk_size` |
| TextUtils.LastTwo | vectordb_chat/utils/text_utils.py:51 | the overlap carried over is the last `min(2, n)` of the current chunk's `n` paragraphs |
| TextUtils.FoldErrSticks | vectordb_chat/utils/text_utils.py:36-41 | once a long paragraph hits the zero-step error, the whole call raises |
| SlidingChunker.SlidingChunks | LearningPhase/chunking_logic.py:11-60 | what `educational_chunk_logic` returns or raises: it raises iff `size == overlap`; `overlap > size` gives no chunks; otherwise there are no chunks iff the cleaned text has no words |
| SlidingChunker.EducationalChunkLogic | LearningPhase/chunking_logic.py:11-60 | the loop equals the reference windowing; `size == overlap` raises; `overlap > size` gives no chunks |
| SlidingChunker.WindowLoop | LearningPhase/chunking_logic.py:44-57 | the loop with its safety break emits the reference windows joined by spaces |
| SlidingChunker.CleanWords | LearningPhase/chunking_logic.py:25-29 | the cleaned text splits into non-empty words without whitespace |
| SlidingChunker.WindowsSpec | LearningPhase/chunking_logic.py:44-57 | window j starts at `j*step`, has `size` words except the last, and the last runs to the end |
| SlidingChunker.WindowsExist | LearningPhase/chunking_logic.py:44-57 | there are no windows iff there are no words |
| SlidingChunker.WindowsOverlap | LearningPhase/chunking_logic.py:39-46 | consecutive windows share exactly `overlap` words: the tail of one is the head of the next |
| SlidingChunker.WindowsCover | LearningPhase/chunking_logic.py:44-57 | every word lies in some window |
| SlidingChunker.ChunkWords | LearningPhase/chunking_logic.py:46-49 | splitting a chunk back into words gives its window; a chunk has at most `size` words |
| SlidingChunker.BlankTextNoChunks | LearningPhase/chunking_logic.py:25-44 | when `size != overlap`, all-whitespace text gives no chunks |
| Embedding.Survivors | vectordb_chat/vectordb/embedder.py:51 | no more texts survive than were given, and each survivor is a non-empty stripped input |
| Embedding.SurvivorsSpec | vectordb_chat/vectordb/embedder.py:50-51 | the texts embedded are the stripped non-blank inputs; nothing is dropped iff no input is blank |
| Embedding.EncodeAll | vectordb_chat/vectordb/embedder.py:57-62 | one row per text, each the model's encoding of that text |
| Embedding.Embedder.EmbedTexts | vectordb_chat/vectordb/embedder.py:37-66 | empty input or only blank texts give no rows; otherwise one row per surviving text, or an error when no model is loaded |
| Embedding.Embedder.EmbedQuery | vectordb_chat/vectordb/embedder.py:68-92 | a blank query raises; otherwise the query's single encoding, or an error without a model |
| Embedding.Embedder.EmbeddingDim | vectordb_chat/vectordb/embedder.py:94-99 | the model's dimension, or 384 without a model |
| Embedding.Embedder.InitializeModel | vectordb_chat/vectordb/embedder.py:27-35 | a load that succeeds sets the model; a load that fails raises and leaves the model unset |
| Embedding.EmbedderClass.New | vectordb_chat/vectordb/embedder.py:21-25 | the first call creates and initialises the one instance (it stays half-initialised if the load raises); later calls return it without loading again |
| Embedding.ConstructTwice | vectordb_chat/vectordb/embedder.py:21-25 | two constructions load the model once and return the same instance |
| IndexStore.IndexManager.constructor | vectordb_chat/vectordb/index_manager.py:24-52 | the FAISS directory is `str(Path(storage_dir) / "faiss")`; the registry is the saved file, or empty when there is none |
| IndexStore.IndexManager.SaveTitles | vectordb_chat/vectordb/index_manager.py:54-60 | the registry file becomes the in-memory registry; nothing else changes |
| IndexStore.CreateTitleSpec | vectordb_chat/vectordb/index_manager.py:62-106 | creation succeeds iff the normalized key is new; a refusal changes nothing; success saves the registry |
| IndexStore.Created | vectordb_chat/vectordb/index_manager.py:81-100 | after a creation the key is registered with no chunks, names an empty chunk list and an empty index of the embedder's width, and the registry is saved |
| IndexStore.CreatedWrites | vectordb_chat/vectordb/index_manager.py:81-100 | a successful creation writes the entry and an empty index and chunk list at the key's pathlib paths |
| Registry.PathDivSegment | vectordb_chat/vectordb/index_manager.py:82 | `Path(dir) / name` for a one-segment name is the normalised directory followed by the name |
| Registry.DotSegmentDropped | vectordb_chat/vectordb/index_manager.py:82 | `Path(dir) / "./name"` is `Path(dir) / "name"` |
| Registry.PathlibFileNamesDiffer | vectordb_chat/vectordb/index_manager.py:82-92 | a key without `/` gets two different files for its index and its chunk list |
| Registry.PathlibKeyPathsDiffer | vectordb_chat/vectordb/index_manager.py:82-92 | distinct keys without `/` never share an index file or a chunk list file |
| Registry.DotKeySharesFiles | vectordb_chat/vectordb/index_manager.py:82-92 | the keys `./k` and `k` name the same two files |
| IndexStore.DotKeyClobbers | vectordb_chat/vectordb/index_manager.py:73-100 | creating `./k` while `k` is registered succeeds and empties `k`'s index and chunk list, whose entry is kept; if `k` had chunks, the store is no longer consistent |
| IndexStore.CreateTitleFlatSpec | vectordb_chat/vectordb/index_manager.py:62-106 | corrected creation: succeeds iff the normalized key is new and has no `/`; a refusal changes nothing |
| IndexStore.FlatCreateKeepsInvariants | vectordb_chat/vectordb/index_manager.py:62-106 | the corrected creation keeps every store consistent, and aligned if it was, for every title |
| IndexStore.IndexManager.CreateTitle | vectordb_chat/vectordb/index_manager.py:62-106 | the method's result and new state are those of `CreateTitleSpec` |
| IndexStore.CreateKeepsInvariants | vectordb_chat/vectordb/index_manager.py:82-106 | for a key without `/`, creation keeps every title filed at its own pathlib paths and keeps chunk lists aligned with their indexes |
| IndexStore.CreatedFilesNew | vectordb_chat/vectordb/index_manager.py:82-100 | a new title gets an empty index and an empty chunk list at its own paths |
| IndexStore.CreatedKeepsOthers | vectordb_chat/vectordb/index_manager.py:82-106 | creating a title whose key has no `/` leaves every other title's entry and files as they were |
| IndexStore.AddDocumentsSpec | vectordb_chat/vectordb/index_manager.py:108-159 | `add_documents` with the embedder's answer: unknown title gives an error; success reports 0 or `len(chunks)`; only a positive count changes the state |
| IndexStore.AddDocumentsWith | vectordb_chat/vectordb/index_manager.py:108-159 | unknown title gives an error; success reports 0 or `len(chunks)`; only a positive count changes and saves the state |
| IndexStore.IndexManager.AddDocuments | vectordb_chat/vectordb/index_manager.py:108-159 | the method's result and new state are those of `AddDocumentsSpec` |
| IndexStore.IndexManager.WriteDocuments | vectordb_chat/vectordb/index_manager.py:143-159 | the index gains the embedded rows and the chunk list gains all chunks |
| IndexStore.AddWrites | vectordb_chat/vectordb/index_manager.py:119-159 | a positive count means the title existed, embedding succeeded and exactly the append was written |
| IndexStore.AddDrift | vectordb_chat/vectordb/index_manager.py:137-146 | the chunk list grows by every chunk, the index only by the non-blank ones; other titles are untouched |
| IndexStore.AddAlignment | vectordb_chat/vectordb/index_manager.py:137-146 | from an aligned store, the store stays aligned iff no write happened or no chunk was blank |
| IndexStore.Appended | vectordb_chat/vectordb/index_manager.py:143-159 | the title's chunk list and index gain exactly the chunks and rows, and its `chunk_count` is the new list's length |
| IndexStore.AppendedGrows | vectordb_chat/vectordb/index_manager.py:143-159 | the title's chunk list and index are extended by exactly the given chunks and rows |
| IndexStore.AppendedKeeps | vectordb_chat/vectordb/index_manager.py:143-159 | appending keeps the file invariant and leaves other titles untouched |
| IndexStore.AppendedAlignment | vectordb_chat/vectordb/index_manager.py:143-146 | appending keeps alignment iff one row is given per chunk |
| IndexStore.BlankChunkBreaksAlignment | vectordb_chat/vectordb/index_manager.py:137-146 | adding `["a", " "]` reports 2 chunks added and leaves the title misaligned |
| IndexStore.BlankChunkStored | vectordb_chat/vectordb/index_manager.py:143-146 | the blank chunk is stored although no row was embedded for it |
| IndexStore.BlankChunkSurvivors | vectordb_chat/vectordb/embedder.py:50-51 | the embedder drops the blank chunk of `["a", " "]` |
| IndexStore.NonBlankKeeps | vectordb_chat/vectordb/embedder.py:51 | the filtered chunks are non-blank and no more numerous than the input |
| IndexStore.NonBlankDrops | vectordb_chat/vectordb/embedder.py:51 | filtering changes nothing iff no chunk is blank, and otherwise shortens the list |
| IndexStore.AddDocumentsFixedSpec | vectordb_chat/vectordb/index_manager.py:137-146 | corrected add: the chunks stored are those embedded, and the count is the number kept |
| IndexStore.FixedKeepsAligned | vectordb_chat/vectordb/index_manager.py:137-146 | the corrected add keeps every title aligned |
| IndexStore.Collect | vectordb_chat/vectordb/index_manager.py:197-204 | every returned text comes from the title's chunks; an out-of-range position is the only error |
| IndexStore.CollectLoop | vectordb_chat/vectordb/index_manager.py:197-204 | the result loop equals `Collect` |
| IndexStore.CollectErrSticks | vectordb_chat/vectordb/index_manager.py:197-204 | a lookup that raises makes the whole search raise |
| IndexStore.CollectInOrder | vectordb_chat/vectordb/index_manager.py:197-204 | positions in range give one match per hit, in FAISS order, read with Python indexing |
| IndexStore.CollectPadding | vectordb_chat/vectordb/index_manager.py:199-202 | padding rows (-1) pass the guard and return the title's last chunk |
| IndexStore.PaddingLeaksLastChunk | vectordb_chat/vectordb/index_manager.py:199-202 | concrete case: 2 chunks, 1 real hit and 1 padding row return chunk "b" with the padding score |
| IndexStore.CollectChecked | vectordb_chat/vectordb/index_manager.py:199-202 | corrected collection: skips positions outside `[0, len)`; every text comes from the chunks |
| IndexStore.CollectCheckedInOrder | vectordb_chat/vectordb/index_manager.py:199-202 | with valid positions, the corrected collection returns one match per hit in order |
| IndexStore.CollectCheckedSkipsPadding | vectordb_chat/vectordb/index_manager.py:199-202 | the corrected collection ignores trailing padding |
| IndexStore.CollectAgrees | vectordb_chat/vectordb/index_manager.py:199-202 | on valid positions the as-written and corrected collections agree |
| IndexStore.CollectFlat | vectordb_chat/vectordb/index_manager.py:191-204 | an unpadded flat answer yields one match per hit, scores non-increasing |
| IndexStore.SearchAnswer | vectordb_chat/vectordb/index_manager.py:161-195 | unknown title gives an error; the answer is `None` exactly when the title's chunk list exists and is empty; a search that is reached sees a non-empty chunk list |
| IndexStore.SearchSpec | vectordb_chat/vectordb/index_manager.py:161-204 | unknown title gives an error; every returned text is one of the title's chunks |
| IndexStore.IndexManager.Search | vectordb_chat/vectordb/index_manager.py:161-204 | the method's result is `SearchSpec` on the current state |
| IndexStore.SearchEarlyExits | vectordb_chat/vectordb/index_manager.py:183-191 | a title with no chunks gives `[]`; a blank query on a non-empty title is the embedder's error |
| IndexStore.AlignedAnswer | vectordb_chat/vectordb/index_manager.py:191-195 | when the title's collection is aligned, FAISS returns `min(k, len(chunks))` rows, none padding |
| IndexStore.AnswerRows | vectordb_chat/vectordb/index_manager.py:191-195 | on any store, a flat index answers exactly `min(k, len(all_chunks))` rows, read against the title's chunk list |
| IndexStore.SearchBounded | vectordb_chat/vectordb/index_manager.py:161-204 | on any store, a successful search returns at most `min(k, len(all_chunks))` matches |
| IndexStore.SearchFixedBounded | vectordb_chat/vectordb/index_manager.py:161-204 | the same bound for the corrected search |
| IndexStore.SearchOnAligned | vectordb_chat/vectordb/index_manager.py:161-204 | on an aligned store the as-written and corrected searches agree, returning `min(k, n)` matches, best first |
| IndexStore.SearchOnAlignedAt | vectordb_chat/vectordb/index_manager.py:161-204 | the same when only the searched collection is known to be aligned |
| IndexStore.SearchOnAlignedAnswer | vectordb_chat/vectordb/index_manager.py:191-204 | the same, stated on the search answer |
| IndexStore.SearchFixedSpec | vectordb_chat/vectordb/index_manager.py:161-204 | corrected search: unknown title gives an error |
| IndexStore.IndexManager.GetAllTitles | vectordb_chat/vectordb/index_manager.py:206-208 | the display names, one per registered title, in insertion order |
| IndexStore.IndexManager.GetTitleInfo | vectordb_chat/vectordb/index_manager.py:210-213 | the entry under the normalized key, present iff the key is registered |
| IndexStore.DeleteTitleSpec | vectordb_chat/vectordb/index_manager.py:215-241 | unknown title gives False and no change; True iff the key was present and is now gone; a failed removal keeps the registry |
| IndexStore.IndexManager.DeleteTitle | vectordb_chat/vectordb/index_manager.py:215-241 | the method's result and new state are those of `DeleteTitleSpec` |
| IndexStore.Dropped | vectordb_chat/vectordb/index_manager.py:226-238 | the entry is gone, the registry is saved, and the title's index and chunk list are gone |
| IndexStore.DeleteWrites | vectordb_chat/vectordb/index_manager.py:226-238 | a successful delete removes exactly the title's files and entry |
| IndexStore.DeleteKeepsInvariants | vectordb_chat/vectordb/index_manager.py:215-241 | a successful delete keeps the file invariant and alignment |
| IndexStore.DroppedKeepsOthers | vectordb_chat/vectordb/index_manager.py:226-238 | deleting one title leaves other titles filed and aligned |
| IndexStore.CreateThenDelete | vectordb_chat/vectordb/index_manager.py:62-241 | creating then deleting a title restores the registry and files, with the registry saved |
| IndexStore.CreatedThenDropped | vectordb_chat/vectordb/index_manager.py:82-238 | the same on the success branches |
| ChatRetrieval.Gathered | vectordb_chat/pages/2_Chat.py:124-137 | `all_context` after the loop over the selected titles; with no title selected it is empty |
| ChatRetrieval.AllFailedNothing | vectordb_chat/pages/2_Chat.py:124-137 | when every selected title's search raises, `all_context` is empty |
| ChatRetrieval.Tagged | vectordb_chat/pages/2_Chat.py:129-138 | a failed title search contributes nothing; a successful one contributes its matches, tagged with the title, in order |
| ChatRetrieval.Gather | vectordb_chat/pages/2_Chat.py:125-138 | the nested loops equal the reference gathering |
| ChatRetrieval.GatheredTitles | vectordb_chat/pages/2_Chat.py:128-136 | every gathered chunk comes from a selected title whose search succeeded |
| ChatRetrieval.GatheredConcat | vectordb_chat/pages/2_Chat.py:128-138 | gathering over concatenated title lists concatenates the results |
| ChatRetrieval.GatheredSingle | vectordb_chat/pages/2_Chat.py:128-136 | one title contributes its tagged matches |
| ChatRetrieval.FailedTitleSkipped | vectordb_chat/pages/2_Chat.py:137-138 | a title whose search raises is skipped without affecting the others |
| ChatRetrieval.Insert | vectordb_chat/pages/2_Chat.py:141 | one insertion step of the reference sort adds exactly one element |
| ChatRetrieval.InsertSorted | vectordb_chat/pages/2_Chat.py:141 | insertion keeps the list sorted by descending score |
| ChatRetrieval.SortByScore | vectordb_chat/pages/2_Chat.py:141 | the sort is a permutation of its input |
| ChatRetrieval.SortSorted | vectordb_chat/pages/2_Chat.py:141 | the result is sorted by descending score |
| ChatRetrieval.SortStable | vectordb_chat/pages/2_Chat.py:141 | stability: entries of equal score keep their original relative order |
| ChatRetrieval.HeadSlice | vectordb_chat/pages/2_Chat.py:144 | `s[:k]` is the prefix of length k clamped to `[0, len]`, counted from the end when k is negative |
| ChatRetrieval.TopContext | vectordb_chat/pages/2_Chat.py:141-144 | a prefix of the sorted gathered list, of length `min(k, n)` for non-negative k |
| ChatRetrieval.TopContextSorted | vectordb_chat/pages/2_Chat.py:141-144 | the top context is sorted and is a sub-multiset of what was gathered |
| ChatRetrieval.TopContextBest | vectordb_chat/pages/2_Chat.py:141-144 | nothing left out scores higher than anything kept |
| ChatRetrieval.Merge | vectordb_chat/pages/2_Chat.py:125-144 | the search, sort and cut loop computes `TopContext` |
| ChatRetrieval.Bullets | vectordb_chat/pages/2_Chat.py:166 | each context line is `"- "` followed by the stripped chunk |
| ChatRetrieval.ContextString | vectordb_chat/pages/2_Chat.py:166 | no chunks give `""`; one chunk gives its single bullet |
| ChatRetrieval.ContextLines | vectordb_chat/pages/2_Chat.py:166 | for chunks without newlines, splitting the context on newlines gives back the bullets |
| ChatRetrieval.LlmMessages | vectordb_chat/pages/2_Chat.py:168-178 | system message first, then the last min(4, n) history messages in order, then the user content |
| ChatRetrieval.Chunks | vectordb_chat/pages/2_Chat.py:155 | the chunk texts of the top context, in order |
| ChatRetrieval.Turn | vectordb_chat/pages/2_Chat.py:103-191 | no selection changes nothing; otherwise the prompt is appended to both lists, then one reply to the messages and at most one to the history |
| ChatRetrieval.ReplyRecorded | vectordb_chat/pages/2_Chat.py:164-191 | with some context, the model's reply is appended to both the messages and the history; a failed generation appends `"Error: " + e` to the messages only, leaving the history with just the prompt |
| ChatRetrieval.NoContextSkipsModel | vectordb_chat/pages/2_Chat.py:146-152 | with nothing found the model is not called and the fixed not-found reply goes to messages only |
| ChatRetrieval.PromptInWindow | vectordb_chat/pages/2_Chat.py:173-178 | the history window ends with the current prompt, just before the user content |
| ChatRetrieval.ChatSession.Ask | vectordb_chat/pages/2_Chat.py:103-191 | the session's messages and history move as one `Turn` |
| VectorStorage.EducationalVectorDB.constructor | LearningPhase/vector_storage.py:22-37 | an empty flat index of the given dimension and an empty repository, aligned |
| VectorStorage.AddDataSpec | LearningPhase/vector_storage.py:39-55 | chunks are always appended first; the rows are appended iff the array is two-dimensional and of the index's width, even with no rows; a one-dimensional array raises `NotMatrix`, a wrong width `DimensionMismatch`, and either leaves the index unchanged |
| VectorStorage.NoRowsChecked | LearningPhase/vector_storage.py:49-53 | with no rows, a `(0, w)` array is accepted iff `w` is the index's width, and a one-dimensional array always raises after the chunks are stored |
| VectorStorage.EducationalVectorDB.AddData | LearningPhase/vector_storage.py:39-55 | the method's result and new state are those of `AddDataSpec` |
| VectorStorage.AddAlignment | LearningPhase/vector_storage.py:47-53 | an accepted add keeps alignment iff one row is passed per chunk |
| VectorStorage.AddPairs | LearningPhase/vector_storage.py:47-53 | old text/vector pairs are kept and the new ones share positions |
| VectorStorage.FailedAddMisaligns | LearningPhase/vector_storage.py:49-53 | an add the index refuses raises and leaves texts without vectors |
| VectorStorage.Nearest | LearningPhase/vector_storage.py:70-80 | raises iff some position is outside Python's index range; otherwise one match per hit, read with Python indexing |
| VectorStorage.SearchNearestSpec | LearningPhase/vector_storage.py:57-80 | a query whose width is not the index's dimension raises; otherwise the search raises iff some returned position is outside Python's index range, and gives one match per returned row |
| VectorStorage.EducationalVectorDB.SearchNearest | LearningPhase/vector_storage.py:57-80 | the method, its width check and its loop compute `SearchNearestSpec` on the store's state |
| VectorStorage.NearestErrSticks | LearningPhase/vector_storage.py:72-74 | a lookup that raises makes the whole search raise |
| VectorStorage.NearestPadding | LearningPhase/vector_storage.py:67-74 | asking an aligned store for more rows than it holds returns its last chunk for a padding row |
| VectorStorage.NearestOnEmpty | LearningPhase/vector_storage.py:67-74 | searching an empty store raises |
| QueryRetrieval.Relevant | LearningPhase/query_and_retrieval.py:34-38 | the kept texts number at most the results |
| QueryRetrieval.FilterContext | LearningPhase/query_and_retrieval.py:34-38 | the filter loop equals `Relevant` |
| QueryRetrieval.RelevantConcat | LearningPhase/query_and_retrieval.py:35-38 | filtering preserves search order |
| QueryRetrieval.RelevantAll | LearningPhase/query_and_retrieval.py:37 | results all above 0.4 are all kept, in order |
| QueryRetrieval.RelevantNone | LearningPhase/query_and_retrieval.py:37 | results all at most 0.4 are all dropped |
| QueryRetrieval.ContextOf | LearningPhase/query_and_retrieval.py:43 | no texts give `""`; one text is the context itself |
| QueryRetrieval.ContextHolds | LearningPhase/query_and_retrieval.py:43 | every kept text occurs whole in the context |
| QueryRetrieval.Flow | LearningPhase/query_and_retrieval.py:12-45 | the flow raises iff the store's search raises; it raises the width error iff the query vector's width is not the index's dimension |
| QueryRetrieval.FlowQuiet | LearningPhase/query_and_retrieval.py:34-45 | when no result clears the threshold the context is empty |
| QueryRetrieval.RetrievalFlow | LearningPhase/query_and_retrieval.py:12-45 | the method computes `Flow` on the store's state |
| StorageManager.RegistryPath | LearningPhase/multi_storage_manager.py:25 | the registry path ends with `titles_registry.json`, placed under a non-empty directory |
| StorageManager.LoadRegistry | LearningPhase/multi_storage_manager.py:36-41 | the saved registry, or an empty one when the file is absent |
| StorageManager.EducationalStorageManager.constructor | LearningPhase/multi_storage_manager.py:18-34 | the registry path is under the storage directory; the registry is loaded |
| StorageManager.EducationalStorageManager.SaveRegistry | LearningPhase/multi_storage_manager.py:43-46 | the registry file becomes the in-memory registry |
| StorageManager.RegisterSpec | LearningPhase/multi_storage_manager.py:48-71 | registration succeeds iff the key is new; success adds the entry with the title as given, saves it, and creates no file |
| StorageManager.EducationalStorageManager.RegisterNewTitle | LearningPhase/multi_storage_manager.py:48-71 | the method's result and new state are those of `RegisterSpec` |
| StorageManager.DeleteSpec | LearningPhase/multi_storage_manager.py:73-100 | unknown gives False; True iff the key was present and is gone; a failed removal keeps the registry; files only shrink |
| StorageManager.DeleteFiles | LearningPhase/multi_storage_manager.py:84-100 | for a known title, deletion succeeds iff neither existing file's removal raises; success removes exactly the two files the entry's paths resolve to; an index removal that raises changes nothing; a chunks removal that raises leaves the index file removed and the registry unchanged |
| StorageManager.EducationalStorageManager.DeleteTitle | LearningPhase/multi_storage_manager.py:73-100 | the method's result and new state are those of `DeleteSpec` |
| StorageManager.OwnKeyOnly | LearningPhase/multi_storage_manager.py:48-100 | registering or deleting a title leaves every other key's entry as it was |
| StorageManager.SameKeyRefused | LearningPhase/multi_storage_manager.py:50-53 | titles equal up to case and surrounding spaces are refused once one is registered |
| StorageManager.RegisterThenDelete | LearningPhase/multi_storage_manager.py:48-100 | registering then deleting restores the registry, order included, and removes the files the title's paths resolve to |
| Registry.PathlibIndexNotChunks | LearningPhase/multi_storage_manager.py:64-65 | the resolved index file of a key without `/` is never the resolved chunk file of a key without `/` |
| StorageManager.DottedDeleteErases | LearningPhase/multi_storage_manager.py:54-89 | with `k` registered, registering `./k` succeeds and deleting `./k` succeeds, removing `k`'s files while `k` stays registered |
| StorageManager.DotKeyNormal | LearningPhase/multi_storage_manager.py:54 | `"./a".strip().lower()` is `"./a"`, so `k = "a"` shows the case above |
| StorageManager.RegisterFlatSpec | LearningPhase/multi_storage_manager.py:48-71 | corrected registration: succeeds iff the key is new and has no `/`, and then is `RegisterSpec` |
| StorageManager.FlatRegisterKeepsFiled | LearningPhase/multi_storage_manager.py:48-100 | the corrected registration and every deletion keep each key without `/` and filed at its own paths |
| StorageManager.DeleteKeepsOtherFiles | LearningPhase/multi_storage_manager.py:73-100 | on a filed registry, deleting a title, successfully or not, removes no file of another title |

## Left out

- Streamlit rendering, spinners, expanders, the sidebar and the upload page are out of scope; only the state updates of a chat turn are modelled. The `st.stop()` after an empty selection and after the not-found reply ends the turn. `st.stop()` raises an exception that `except Exception` does not catch, so the turn records no error message.
- LLM streaming and `temperature` are not modelled: the reply is whatever `Generate` returns, and a generation error becomes the `"Error: …"` message.
- FAISS internals are not modelled: inner products, float32 rounding, tie order among equal scores, and serialisation. Search is the `SearchFn` parameter, and `IsFlatSearch` states only what the flat index promises.
- The sentence-transformer's numerics and embedding normalisation are not modelled: `encode` is an arbitrary function.
- Floating point is not modelled: scores are `real`, so NaN scores and their effect on sorting and the 0.4 threshold are not modelled.
- JSON encoding and decoding, a corrupt or unreadable registry file, and `os.makedirs` are not modelled. The registry file is either absent or holds a well-formed registry.
- A failing registry save is not modelled.
- Only a failing file removal is modelled, as the `failing` set of paths.
- Logging and `print` have no effect on state and are left out.
- `extract_text_from_file` in text_utils.py is not part of the core and is not modelled.
- Titles whose key contains `/` are outside the store invariants. An absolute key makes `os.path.join` and pathlib discard the storage directory. A key such as `./a` names the same files as `a`: pathlib normalises it in `IndexManager`, and the OS resolves it for the learning-phase storage manager. `IndexStore.DotKeyClobbers` and `StorageManager.DottedDeleteErases` show the second case, and the Findings table lists both.
- A directory that does not exist is not modelled. For a key such as `a/b`, the source's `faiss.write_index` raises `FileNotFoundError`, but `Created` writes the files at the normalised path.
- IndexStore.CreateKeepsInvariants: proved only for keys without `/`, for the reason above. `IndexStore.FlatCreateKeepsInvariants` proves the invariants for every title under the corrected creation.
- IndexStore.CreatedKeepsOthers: proved only when the new key has no `/`. `./a` does touch `a`'s files, as `IndexStore.DotKeyClobbers` proves.
- PyText.Normalize: `LowerChar` lowers the capitals of ASCII, Latin-1, Latin Extended-A and the basic Cyrillic block only. Capitals elsewhere are left unchanged, including Greek, Armenian, Georgian, Latin Extended-B and fullwidth Latin. `İ` (U+0130), which Python lowers to two characters, is also left unchanged. Two titles that differ only in the case of such letters are one key in the source and two keys in the model.
- IndexStore.CreateTitleSpec: "the key is new" uses `PyText.Normalize`, so it compares case only as far as `LowerChar` folds it (see above).
- StorageManager.SameKeyRefused: "equal up to case" covers only the letters `LowerChar` folds (see above).
- Path resolution covers `.` segments and repeated `/` only. `..`, symbolic links, and the special meaning POSIX allows for a leading `//` are not modelled.
- Negative `k` or `top_k` passed to FAISS is not modelled: `SearchFn` is any function, and the flat-search lemmas require `k >= 1`.
- The Python singleton's class attribute is an explicit `EmbedderClass` object whose instance is handed to callers. Concurrent construction is out of scope.
- `ChatRetrieval.SortByScore` is a stable insertion sort, not Timsort. It is proved to give the same stable descending order that `list.sort(key, reverse=True)` defines.
- ChatRetrieval.TopContext: for a negative `k` the contract states only that the result is a prefix of the sorted list no longer than it; `HeadSlice` gives the exact Python slice.
- `QueryRetrieval.Flow` is weaker than the source on the embedding step: the embedder of `embedding_model.py` is not part of this model, so the flow takes `create_vector` as a function.

## Findings

| source | as written | input that shows it | evidently intended | confidence | as-written member | corrected member |
|---|---|---|---|---|---|---|
| vectordb_chat/vectordb/index_manager.py:137-146 | `add_documents` embeds only the non-blank chunks (the embedder drops blank texts) but extends the stored chunk list with all chunks and reports `len(chunks)` | a known title, chunks `["a", " "]`: one vector is added, two chunks are stored, and 2 is reported | store exactly the chunks that were embedded, so chunk position i matches vector i | not executed | IndexStore.BlankChunkBreaksAlignment | IndexStore.FixedKeepsAligned |
| vectordb_chat/vectordb/index_manager.py:75-92 | the duplicate check compares keys as strings, but the files are named through pathlib, which drops `.` segments | title `a` holding chunks, then `create_title("./a")`: it returns True, writes an empty index and an empty chunk list over `a`'s files, and `a`'s entry keeps its old `chunk_count` | a new title never touches another title's files | not executed | IndexStore.DotKeyClobbers | IndexStore.FlatCreateKeepsInvariants |
| LearningPhase/multi_storage_manager.py:54-89 | the duplicate check compares keys as strings, but the OS resolves the `.` segment of the joined path | `k` = `a` registered, then `register_new_title("./a")` and `delete_title("./a")`: both return True, `storage/./a.index` and `storage/./a_chunks.json` are `a`'s files and are removed, and `a` stays registered | deleting a title never removes another title's files | not executed | StorageManager.DottedDeleteErases | StorageManager.DeleteKeepsOtherFiles |
| vectordb_chat/vectordb/index_manager.py:199-202 | the guard `idx < len(chunks)` admits FAISS's padding position -1, which Python reads as the last chunk | a title storing chunks `["a", "b"]` beside an index of 1 vector (the state the first row produces), `k = 2`: FAISS pads row 2 with -1 and the search returns `"b"` with the padding score | skip positions outside `[0, len(chunks))` | not executed | IndexStore.PaddingLeaksLastChunk | IndexStore.CollectCheckedSkipsPadding |
