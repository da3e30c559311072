# personal-kb, modelled in Dafny

personal-kb is a local retrieval-augmented question-answering pipeline. It works in these stages:

- **Loaders.** The PDF loader makes one document per page that has text. The HTML loader makes one document per page, with its text cleaned to one phrase per line.
- **Chunker.** It splits each document into chunks of a bounded token count, trying paragraph, line, word and character boundaries in turn. It merges the fragments greedily, with an overlap between chunks, and stamps every chunk with its index and an id.
- **Vector store.** A flat inner-product index whose rows sit side by side with the list of stored documents.
- **Retriever.** It recalls candidates from the store, optionally keeps only the listed files, and then either cuts the list or hands it to a cross-encoder reranker.
- **Prompt builder.** It renders the retrieved documents as numbered context blocks inside a fixed prompt template.
- **Answer engine.** It retrieves, returns a fixed reply when nothing is found, and otherwise asks the local language model once.

## How the model is organised

Each Dafny module follows one source file:

| module | file | what it holds |
|---|---|---|
| `Schema` | `schema.dfy` | the `Document` class (`__post_init__` in its constructor) and the metadata values |
| `PyText` | `text.dfy` | the Python string operations the pipeline relies on: `strip`, `split`, `join`, `splitlines`, `os.path.basename`, `str(int)` |
| `ChunkerSpec` | `chunker_spec.dfy` | the chunker as functions: separator choice, the recursive split, the merge loop state step by step, chunk metadata |
| `Chunking` | `chunker.dfy` | the `Chunker` class. Its methods carry the loops of the source and are proved equal to the `ChunkerSpec` functions |
| `MergeProps` | `merge_props.dfy` | what `_merge_splits` guarantees |
| `OverlapProps` | `overlap_props.dfy` | the overlap between neighbouring chunks of `_merge_splits` |
| `SplitProps` | `split_props.dfy` | what `_recursive_split` and `split_documents` guarantee |
| `Ranking` | `ranking.dfy` | Python's stable sort with `reverse=True`, as a function (`Rank`), characterised and proved unique |
| `VectorIndex` | `vector_store.dfy` | the `VectorStore` class |
| `Retrieval` | `retriever.dfy` | the `CrossEncoder`, `Reranker` and `Retriever` classes, and the file filter |
| `Prompt` | `prompt.dfy` | `SYSTEM_PROMPT`, `format_context`, `build_rag_prompt` |
| `Answering` | `answer.dfy` | the language model's chat and `AnswerEngine.answer` |
| `PdfLoading` | `pdf_loader.dfy` | `PDFLoader.load` |
| `HtmlLoading` | `html_loader.dfy` | `HTMLLoader.load` |

A document's metadata is updated in place: by `__post_init__`, and later by the reranker, which writes into the same objects the store holds. So `Document` is a class. `Snapshot` reads a list of documents as `(content, metadata)` values, which the functions that specify the loops work on.

The external models are parameters:

- the tokenizer is `tokenLen: string -> nat`, and nothing is assumed about it
- the embedder is `embed: string -> seq<real>`
- the index's nearest-row search is `ranking`
- the cross-encoder is `score: (string, string) -> real`
- the language model is `reply: seq<Message> -> string`

Calls to the models are recorded in ghost counters and histories, so "the model is not called" can be stated.

Behaviours of the code that are easy to miss:

- **HTML loader.** It returns one document even when the cleaned text is empty (src/kb/ingestion/html_loader.py:43).
- **PDF loader.** When a page's extraction raises partway through a file, the documents of the pages before that page are kept and returned (src/kb/ingestion/pdf_loader.py:32-35).
- **Reranker.** `top_n` is applied as a Python slice, so a negative `top_n` counts from the end (src/kb/retrieve/retriever.py:29, `Ranking.Take`).
- **Vector search.** The FAISS index asserts that the query has the index's dimension and that `top_k` is at least 1, so `search` can raise (src/kb/index/vector_store.py:71). An empty store still returns `[]` (src/kb/index/vector_store.py:66-67).

## Model

| member | source | states |
|---|---|---|
| Schema.WithDefaultSource | src/kb/schema.py:10-13 | After `__post_init__`, "source" is always a key. An existing source is kept, a missing one becomes "unknown", and no other key is added, dropped or changed. |
| Schema.DefaultMetadata | src/kb/schema.py:8-13 | A document made without metadata has exactly `{"source": "unknown"}`. |
| Schema.Document.constructor | src/kb/schema.py:4-13 | The content is stored verbatim, and the metadata is the argument with the default source ensured. |
| PyText.Strip | src/kb/ingestion/pdf_loader.py:21 | `strip()` is empty exactly when the text is blank. Otherwise it has no whitespace at either end, and it is a contiguous slice of the input. |
| PyText.StripIdempotent | src/kb/ingestion/html_loader.py:31-32 | Stripping an already stripped line changes nothing. |
| PyText.JoinSplitOn | src/kb/chunking/chunker.py:128-129 | Joining the pieces of `text.split(sep)` with `sep` gives the text back. |
| PyText.SplitOnJoin | src/kb/chunking/chunker.py:129 | Splitting, on a one-character separator, the join of parts that do not contain it gives the parts back. |
| PyText.SplitOnPiecesAvoidSep | src/kb/ingestion/html_loader.py:32 | No piece of `line.split(sep)` contains the separator. |
| PyText.Chars | src/kb/chunking/chunker.py:131 | `list(text)` gives one one-character string per character, in order. |
| PyText.JoinChars | src/kb/chunking/chunker.py:130-131 | Joining the characters with "" gives the text back. |
| PyText.BlankJoinHasBlankParts | src/kb/chunking/chunker.py:171-172 | When a join is blank, so is every part. |
| PyText.Words | src/kb/ingestion/pdf_loader.py:23 | `text.split()` gives non-empty words without whitespace, and gives none exactly when the text is blank. |
| PyText.JoinedWordsSpacing | src/kb/ingestion/pdf_loader.py:23 | In `" ".join(words)`, every whitespace character is a single space with a non-space on each side. |
| PyText.WordsOfJoinedWords | src/kb/ingestion/pdf_loader.py:23 | Splitting `" ".join(words)` gives the words back, so collapsing whitespace keeps the words in order. |
| PyText.WordsConcat | src/kb/ingestion/html_loader.py:30-33 | When whitespace meets at the seam, the words of `a + b` are the words of `a` followed by those of `b`. |
| PyText.WordsStrip | src/kb/ingestion/html_loader.py:31-32 | `strip()` keeps the words: `s.strip().split() == s.split()`. |
| PyText.WordsOfJoin | src/kb/ingestion/html_loader.py:33 | Joining with a non-empty whitespace separator neither adds words nor merges any: the words of the join are the parts' words, in order. |
| PyText.WordsOfSplitOn | src/kb/ingestion/html_loader.py:32 | Splitting on a non-empty whitespace separator keeps the words: the pieces' words, in order, are the text's. |
| PyText.SplitLines | src/kb/ingestion/html_loader.py:31 | No line of `splitlines()` contains a line break. |
| PyText.SplitLinesFirst | src/kb/ingestion/html_loader.py:31 | `splitlines()` is empty exactly for empty text. Its first line is a prefix of the text, ended by the end of the text or by a line break. |
| PyText.WordsOfSplitLines | src/kb/ingestion/html_loader.py:31 | Line breaks are whitespace, so the lines' words, in order, are the text's. |
| PyText.BasenameIsLastPart | src/kb/retrieve/retriever.py:56 | The basename holds no '/'. It ends the path, and it is either the whole path or follows a '/'. |
| PyText.NatToString | src/kb/chunking/chunker.py:108 | `str(i)` is a non-empty string of decimal digits. |
| PyText.DecimalValueOfNatToString | src/kb/rag/prompt.py:37 | Reading the rendered digits back gives the number. |
| PyText.NatToStringInjective | src/kb/chunking/chunker.py:108 | Different numbers render differently. |
| ChunkerSpec.IndexOf | src/kb/chunking/chunker.py:141 | `separators.index(sep)` is the first position holding `sep`. |
| ChunkerSpec.ChooseSeparator | src/kb/chunking/chunker.py:117-125 | The chosen separator is one of the separators. It is the first that is "" or occurs in the text, or the last one when none does. |
| ChunkerSpec.Pop | src/kb/chunking/chunker.py:178-180 | The overlap loop only removes from the front, so what remains is a suffix of the window. It stops with the total at most `chunk_overlap` unless the window is empty. |
| Chunking.Chunker.constructor | src/kb/chunking/chunker.py:89-92 | It records the chunk size, the overlap and the token counter. |
| Chunking.Chunker.Default | src/kb/chunking/chunker.py:89-92 | `Chunker()` uses the defaults: chunk size 800 and overlap 100. |
| Chunking.Chunker.FindSeparator | src/kb/chunking/chunker.py:117-125 | The scan over the separators returns `ChooseSeparator`. |
| Chunking.Chunker.RecursiveSplit | src/kb/chunking/chunker.py:113-153 | `_recursive_split` returns `Split`: split on the chosen separator, refine, then merge. |
| Chunking.Chunker.RefineSplits | src/kb/chunking/chunker.py:133-150 | The processing loop returns `Refine`. Fragments that fit are kept. Longer ones are split again with the strictly later separators, or kept verbatim when there are none. |
| Chunking.Chunker.KeepOverlap | src/kb/chunking/chunker.py:178-180 | The overlap loop computes `Pop`. |
| Chunking.Chunker.MergeOne | src/kb/chunking/chunker.py:161-183 | One turn of the merge loop moves `docs`, `current_doc` and `total_len` to the next loop state `Step`. |
| Chunking.Chunker.MergeSplits | src/kb/chunking/chunker.py:155-190 | `_merge_splits` returns `Merge`: the loop's chunks, plus the last window when it is not blank. |
| Chunking.Chunker.ChunkDocuments | src/kb/chunking/chunker.py:105-109 | The inner loop makes one new document per chunk. Each carries the chunk text and a copy of the parent metadata with `chunk_index` i and `chunk_id`. |
| Chunking.Chunker.ChunkDocument | src/kb/chunking/chunker.py:102-109 | The chunks of one document are its split, numbered from 0. Each is a new document. |
| Chunking.Chunker.SplitDocuments | src/kb/chunking/chunker.py:98-111 | The output is the chunks of each document in turn, grouped by parent in input order. Every chunk is a new document, so no input document is returned or aliased. |
| SplitProps.JoinFragments | src/kb/chunking/chunker.py:127-131 | Joining the fragments with the chosen separator reproduces the text exactly, for "" as well. |
| SplitProps.RefineKeepsFitting | src/kb/chunking/chunker.py:135-137 | Fragments within `chunk_size` tokens are kept unchanged. |
| SplitProps.RefineWithoutFiner | src/kb/chunking/chunker.py:145-148 | With no finer separator left, every fragment is kept verbatim, however long, so none is dropped. |
| SplitProps.SmallTextIsOneChunk | src/kb/chunking/chunker.py:113-153 | A text whose fragments and separators add up to at most `chunk_size` tokens comes out as one chunk equal to the text, or as none when it is blank. |
| SplitProps.SplitStructure | src/kb/chunking/chunker.py:113-153 | Each chunk of a split is the join of a contiguous run of the refined pieces, and the runs move forward. Every piece outside all runs is blank, and with `chunk_size >= 0` no chunk is blank. |
| SplitProps.FirstQualifyingChosen | src/kb/chunking/chunker.py:119-125 | The scan stops exactly at the first separator that is "" or occurs in the text. |
| SplitProps.NoneQualifiesChosen | src/kb/chunking/chunker.py:118 | When no separator qualifies, the last one is used. |
| SplitProps.ParagraphsFirst | src/kb/chunking/chunker.py:93 | With the default separators, a text containing a blank line is split on paragraph breaks. |
| SplitProps.CharactersLast | src/kb/chunking/chunker.py:93 | With the default separators, a text without line breaks or spaces is split into characters. |
| SplitProps.ChunkIdsDistinct | src/kb/chunking/chunker.py:108 | Chunks of the same parent get different ids. |
| SplitProps.NumberedMetadata | src/kb/chunking/chunker.py:105-109 | Chunk i holds its text and has `chunk_index` i, its id, and a source. Every other parent key keeps its value. |
| SplitProps.SmallDocumentOneChunk | tests/test_chunking.py:5-13 | A non-blank document that fits is one chunk with unchanged content and `chunk_index` 0. |
| SplitProps.ChunkRecordsStep | src/kb/chunking/chunker.py:101-109 | Each parent's chunks follow those of the parents before it. |
| MergeProps.StateAtWindow | src/kb/chunking/chunker.py:161-183 | Between iterations the window is a contiguous run of fragments ending at the current one. The running total never exceeds the window's additive token count, and it is at most 0 when the window is empty. |
| MergeProps.StateAtRuns | src/kb/chunking/chunker.py:170-173 | Every chunk emitted in the loop is the join of its run of fragments, and the runs move forward. |
| MergeProps.StateAtCoverage | src/kb/chunking/chunker.py:170-183 | Every fragment before the window is in an emitted run or is blank. |
| MergeProps.StateAtNonBlank | src/kb/chunking/chunker.py:164-173 | With `chunk_size >= 0`, no chunk emitted in the loop is blank. |
| MergeProps.OversizedBranchUnreachable | src/kb/chunking/chunker.py:164-168 | With `chunk_size >= 0`, the "single chunk is too big" branch is never taken. |
| MergeProps.FinalEmitting | src/kb/chunking/chunker.py:185-188 | Emitting the last window keeps every property of the merge. |
| MergeProps.FinalSilent | src/kb/chunking/chunker.py:185-188 | A last window that is not emitted holds only blank fragments. |
| MergeProps.MergeStructure | src/kb/chunking/chunker.py:155-190 | The chunks are the joins of contiguous runs. Each run starts no earlier and ends strictly later than the one before. Fragments outside all runs are blank, and with `chunk_size >= 0` no chunk is blank. |
| MergeProps.FitsStateAt | src/kb/chunking/chunker.py:161-183 | Fragments that fit together never overflow. After n fragments the window holds all of them, and nothing has been emitted. |
| MergeProps.MergeFitsInOne | src/kb/chunking/chunker.py:155-190 | Fragments that fit together come out as one chunk, their join, or as none when it is blank. |
| OverlapProps.StepKeepsRuns | src/kb/chunking/chunker.py:161-183 | One turn of the loop never removes or changes a run already emitted; it only appends. |
| OverlapProps.StateAtKeepsRuns | src/kb/chunking/chunker.py:161-183 | The runs after m fragments are a prefix of the runs after any n >= m fragments. |
| OverlapProps.OverlapCloseStep | src/kb/chunking/chunker.py:163-181 | A fragment that overflows a non-blank window emits that window as the next run. The new window is the suffix `splits[start..i]` the overlap loop kept, followed by `splits[i]`. |
| OverlapProps.OverlapCarriedAt | src/kb/chunking/chunker.py:161-183 | Once the overlap suffix starts a window, the next run, when one is emitted, starts at the suffix's start or after only blank fragments. |
| OverlapProps.NextChunkOverlap | src/kb/chunking/chunker.py:158-190 | When fragment i overflows a non-blank window, that window is chunk k, and the overlap loop keeps its suffix `splits[start..i]`, which holds at most `chunk_overlap` tokens when not empty. The next chunk's run starts at `start`, unless every fragment from `start` to i is blank, and then it skips only blank fragments. When the suffix holds a non-blank fragment, the next chunk starts at `start` and reaches past i, so it repeats the suffix (tests/test_chunking.py:30-47). |
| Ranking.TakeIsPrefix | src/kb/retrieve/retriever.py:29 | A slice `[:n]` is a prefix with `min(n, len)` elements for `n >= 0`. A negative `n` drops `-n` elements from the end. |
| Ranking.Rank | src/kb/retrieve/retriever.py:25 | The sort gives one position per score, each in range. |
| Ranking.InsertMultiset | src/kb/retrieve/retriever.py:25 | Inserting a position adds exactly that position. |
| Ranking.InsertKeepsChain | src/kb/retrieve/retriever.py:25 | Inserting a later position keeps the order stable and descending. |
| Ranking.RankPrefixIsRanking | src/kb/retrieve/retriever.py:25 | The ranking of every prefix holds each of its positions once, best score first, with ties in input order. |
| Ranking.RankIsRanking | src/kb/retrieve/retriever.py:25 | `Rank` is a permutation of the positions, with scores not increasing and equal scores in input order. |
| Ranking.ChainUnique | src/kb/retrieve/retriever.py:25 | Two stable descending orders of the same positions are equal. |
| Ranking.RankingUnique | src/kb/retrieve/retriever.py:25 | Any stable descending sort of the positions is exactly `Rank`. |
| Ranking.RankingProperties | src/kb/retrieve/retriever.py:22-25 | A ranking lists every position exactly once, with scores never increasing and ties in input order. |
| Ranking.RankOfThree | src/kb/retrieve/retriever.py:25 | Three positions in stable descending order are the ranking of three scores. |
| Retrieval.CrossEncoder.Predict | src/kb/retrieve/retriever.py:16-19 | One scoring call. The scores are the model's score of each (query, content) pair, in order. |
| Retrieval.Selection | src/kb/retrieve/retriever.py:22-29 | The kept positions are positions of the documents. |
| Retrieval.SelectionProperties | src/kb/retrieve/retriever.py:22-29 | It keeps `min(top_n, n)` distinct positions for `top_n >= 0`. Scores never increase along them, and equal scores keep input order. No position left out scores above a kept one. |
| Retrieval.SelectionExample | tests/test_retriever.py:13-29 | Scores such as 0.1, 0.05 and 0.9 with `top_n` 2 keep the third document, then the first. |
| Retrieval.Reranker.Rerank | src/kb/retrieve/retriever.py:11-33 | No documents gives `[]` without scoring. Otherwise the model scores once and the result is the documents at the selected positions. Only returned documents get `rerank_score` equal to their own score, and the others keep their metadata. |
| Retrieval.Filter | src/kb/retrieve/retriever.py:54-58 | The filter keeps positions of the documents it has seen. |
| Retrieval.FilterRaises | src/kb/retrieve/retriever.py:56 | The filter raises exactly when some source is not a string. |
| Retrieval.FilterKeeps | src/kb/retrieve/retriever.py:54-58 | Kept positions strictly increase. A position is kept exactly when its basename is listed. |
| Retrieval.FilterNoNames | src/kb/retrieve/retriever.py:57 | An empty filter list keeps nothing. |
| Retrieval.FilterRaisesEarly | src/kb/retrieve/retriever.py:56 | Once the loop raises, the error is the result. |
| Retrieval.FileFilteredProperties | src/kb/retrieve/retriever.py:51-58 | The filter on documents raises exactly when a source is not a string. Otherwise it gives the documents whose basename is listed, in recall order. |
| Retrieval.FileFilteredNamed | src/kb/retrieve/retriever.py:54-58 | Every kept document's source basename is in the filter list. |
| Retrieval.StampedKeepsSource | src/kb/retrieve/retriever.py:30 | Writing `rerank_score` leaves the source, and so its basename, unchanged. |
| Retrieval.NamedIn | src/kb/retrieve/retriever.py:53-58 | The filter loop computes `FileFiltered`. |
| Retrieval.Keep | src/kb/retrieve/retriever.py:53-58 | The loop over the source names keeps the listed ones in order, and stops at the first name that raises. |
| Retrieval.Retriever.constructor | src/kb/retrieve/retriever.py:37-40 | It holds the embedder, the store and the optional reranker, and no calls have been made yet. |
| Retrieval.Retriever.Recall | src/kb/retrieve/retriever.py:45-61 | The store is searched at `top_k*5` with filters and at `top_k` without. Then the listed files are kept and cut to `top_k`. Every candidate is a stored document. |
| Retrieval.Retriever.CandidatesNamed | src/kb/retrieve/retriever.py:51-61 | With filters there are at most `top_k` candidates for `top_k >= 0`, and each comes from a listed file. |
| Retrieval.Retriever.OutcomeWithin | src/kb/retrieve/retriever.py:63-69 | The result fails exactly when recall fails, and every returned document is a candidate. |
| Retrieval.Retriever.Conclude | src/kb/retrieve/retriever.py:63-69 | Without reranking (switched off, no reranker, or no candidates) the result is the first `top_n` candidates, with no scoring. Otherwise it is the reranker's selection, and only returned documents are stamped. |
| Retrieval.Retriever.Retrieve | src/kb/retrieve/retriever.py:42-69 | `retrieve` is recall, then `Outcome`. The model is called once exactly when reranking happens. Only the documents returned by the reranker are stamped, and failures are passed on. |
| VectorIndex.Labels | src/kb/index/vector_store.py:71 | The index answers exactly `top_k` labels: its ranked rows, padded with `-1`. |
| VectorIndex.Resolved | src/kb/index/vector_store.py:74-79 | At most one position per label, each a hit below `len(metadata)`. |
| VectorIndex.ResolvedAllHits | src/kb/index/vector_store.py:74-79 | When every label names a stored document, none is skipped. |
| VectorIndex.ResolvedMisses | src/kb/index/vector_store.py:75 | Trailing `-1` labels add nothing. |
| VectorIndex.RankedHits | src/kb/index/vector_store.py:71-79 | When every ranked row has a document, the result is the documents of the first `min(top_k, rows)` ranked rows, in rank order. |
| VectorIndex.VectorStore.constructor | src/kb/index/vector_store.py:34-35 | A new store has no index and no documents, and it is coupled. |
| VectorIndex.VectorStore.AddDocuments | src/kb/index/vector_store.py:41-49 | The index is created only when missing, with the embeddings' width. Rows are appended to the index and documents to `metadata`, in order. An index of another width refuses and nothing changes. Validity is kept, and so is coupling when each call passes one row per document. |
| VectorIndex.VectorStore.Search | src/kb/index/vector_store.py:64-81 | The loop over the labels returns `Found`. |
| VectorIndex.VectorStore.FoundBounds | src/kb/index/vector_store.py:64-81 | It returns `[]` for a missing index or no documents. Otherwise it returns at most `top_k` documents, each one of the stored documents. |
| VectorIndex.VectorStore.FoundCoupled | src/kb/index/vector_store.py:71-79 | When rows and documents are coupled, nothing is skipped. The result is the document of each of the first `top_k` ranked rows. |
| VectorIndex.Similarities | src/kb/index/vector_store.py:46 | An inner-product index scores each row by its inner product with the query. |
| VectorIndex.ExampleRanking | tests/test_vector_store.py:43-57 | Rows [1,0], [0,1] and [0.9,0.1] rank 0, 2, 1 for the query [1,0]. |
| VectorIndex.TwoNearest | tests/test_vector_store.py:43-61 | Searching that store with [1,0] for two neighbours gives the first document, then the third. |
| Prompt.LocationFields | src/kb/rag/prompt.py:23-32 | The source comes first, defaulting to "Unknown". The page is listed exactly when present and not "N/A", and the chunk likewise, always after the page. |
| Prompt.LocationIsFieldList | src/kb/rag/prompt.py:28-32 | The location string is the listed entries joined with ", ". |
| Prompt.Blocks | src/kb/rag/prompt.py:21-38 | One block per document. |
| Prompt.BlockShape | src/kb/rag/prompt.py:37 | A block is "[Document ", then its number (which reads back as the 1-based position), then "] (", the location, ")\n", and the stripped content. |
| Prompt.EmptyContext | src/kb/rag/prompt.py:40 | The context is empty exactly when there are no documents. |
| Prompt.SingleContext | src/kb/rag/prompt.py:21-40 | One document's context is its block, numbered 1. |
| Prompt.FormatContextSnoc | src/kb/rag/prompt.py:21-40 | Blocks come in input order and are joined with a blank line. Another document appends "\n\n" and its block, numbered next. |
| Prompt.PromptLayout | src/kb/rag/prompt.py:46-55 | The context sits between the two dashed delimiter lines, and the prompt ends with `Query: <query>\n`. |
| Answering.Messages | src/kb/rag/llm.py:9-13 | The chat is the system message when the system prompt is not empty, then the user's prompt. |
| Answering.AnswerMessages | src/kb/rag/answer.py:39 | The answer engine always sends `SYSTEM_PROMPT` ahead of the user prompt. |
| Answering.LanguageModel.Generate | src/kb/rag/llm.py:8-19 | One chat is sent, and the reply (or its error text) is the model's answer to those messages. |
| Answering.AnswerEngine.constructor | src/kb/rag/answer.py:35-39 | The engine answers with `SYSTEM_PROMPT` and `build_rag_prompt`. |
| Answering.AnswerEngine.Answer | src/kb/rag/answer.py:17-41 | Retrieval runs with the caller's `top_k`, `top_n` and filters, and with reranking on, and is logged as one request. No documents gives the fixed reply, no sources and no model call. Otherwise there is exactly one model call with `SYSTEM_PROMPT` and the RAG prompt, and its reply returns unchanged with the documents as sources. When the reranker ran, the sources carry their `rerank_score` (read by src/kb/ui/app.py:101-112), and every other stored document keeps its metadata. The cross-encoder is called once exactly when reranking happens. The contract names the prompt through the engine's fields `systemPrompt` and `buildPrompt`, which the constructor sets to `SYSTEM_PROMPT` and `build_rag_prompt`; this keeps the long prompt text out of the proof. |
| Answering.AnswerEngine.Reply | src/kb/rag/answer.py:29-41 | After retrieval: a failed retrieval raises without a model call, no documents give the fixed reply without a model call, and otherwise one model call over the documents' prompt whose reply returns with the documents. |
| PdfLoading.Readable | src/kb/ingestion/pdf_loader.py:19-20 | The pages read are those before the first page whose extraction raises. |
| PdfLoading.TextPages | src/kb/ingestion/pdf_loader.py:19-21 | The positions kept are pages with text. |
| PdfLoading.Chunks | src/kb/ingestion/pdf_loader.py:23-31 | One document per kept page: its text with whitespace collapsed, and the page's metadata. |
| PdfLoading.Load | src/kb/ingestion/pdf_loader.py:14-35 | It returns fresh documents equal to `Loaded`: one per page with text, in page order, up to a page that raises. An unreadable file gives none. |
| PdfLoading.ReadPage | src/kb/ingestion/pdf_loader.py:20-31 | One turn of the loop appends the page's document exactly when the page has text. |
| PdfLoading.ChunksStep | src/kb/ingestion/pdf_loader.py:21-31 | A page with text adds its document. A blank or empty page adds nothing. |
| PdfLoading.TextPagesExactly | src/kb/ingestion/pdf_loader.py:19-21 | The pages that become documents are exactly the pages with text, in page order, each once. |
| PdfLoading.LoadedMetadata | src/kb/ingestion/pdf_loader.py:25-30 | Each document has exactly source, file name, 1-based page number and page count. Page numbers increase and stay within the file. |
| PdfLoading.LoadedContent | src/kb/ingestion/pdf_loader.py:23 | Content is non-empty, keeps the page's words in order, and has only single spaces between words. |
| PdfLoading.PageMetadataEntries | src/kb/ingestion/pdf_loader.py:25-30 | A page's metadata holds exactly the path, its basename, `i + 1` and the page count. |
| PdfLoading.BlankPageSkipped | tests/test_pdf_loader.py:32-49 | A whitespace-only page gives no document. |
| PdfLoading.SinglePage | tests/test_pdf_loader.py:8-28 | A one-page file gives one document with the page's text, page 1, and the path as source. |
| PdfLoading.StopsAtRaise | src/kb/ingestion/pdf_loader.py:32-35 | Every document comes from a page before the one that raises. |
| HtmlLoading.StripAll | src/kb/ingestion/html_loader.py:32 | Every phrase is stripped, in order. |
| HtmlLoading.NonEmpty | src/kb/ingestion/html_loader.py:33 | Exactly the non-empty phrases are kept. |
| HtmlLoading.StripTidy | src/kb/ingestion/html_loader.py:32 | A stripped phrase has no whitespace at either end and no double space. |
| HtmlLoading.LinePiecesTidy | src/kb/ingestion/html_loader.py:31-32 | Every phrase of a line is tidy. |
| HtmlLoading.PiecesTidy | src/kb/ingestion/html_loader.py:31-32 | Every phrase of every line is tidy. |
| HtmlLoading.PhrasesTidy | src/kb/ingestion/html_loader.py:31-33 | Every kept phrase is non-empty and tidy. |
| HtmlLoading.SplitLinesJoin | src/kb/ingestion/html_loader.py:33 | Splitting the "\n"-join of non-empty lines without line breaks gives the lines back. |
| HtmlLoading.StripAllWords | src/kb/ingestion/html_loader.py:32 | Stripping every piece keeps the pieces' words, in order. |
| HtmlLoading.NonEmptyWords | src/kb/ingestion/html_loader.py:33 | Dropping the empty pieces drops no word. |
| HtmlLoading.PiecesWords | src/kb/ingestion/html_loader.py:31-32 | The stripped pieces of the stripped lines hold the lines' words, in order. |
| HtmlLoading.CleanTextWords | src/kb/ingestion/html_loader.py:30-33 | The cleaning removes only whitespace: the cleaned text's words are the page text's words, in order, and no others (tests/test_html_loader.py:34-36). |
| HtmlLoading.CleanTextLines | src/kb/ingestion/html_loader.py:31-33 | The lines of the cleaned text are exactly the phrases. None is empty, none has whitespace at either end, and none holds two spaces in a row. |
| HtmlLoading.PageMetadataEntries | src/kb/ingestion/html_loader.py:36-41 | The metadata is exactly the source path, its basename and the title. The title is "No Title" without a title element, and None when the element has no single string. |
| HtmlLoading.Load | src/kb/ingestion/html_loader.py:14-48 | A readable page gives exactly one fresh document, even when the cleaned text is empty, with the cleaned text and the metadata. Its content holds the page's words, in order, and no others. A page that raises gives none. |

## Left out

- `text_splitter` (src/kb/chunking/chunker.py:5-84) is not modelled. It is dead code: ingestion uses `Chunker`, and it refers to an undefined name.
- Chunking.Chunker.RecursiveSplit and Chunking.Chunker.FindSeparator require a non-empty separator list. `separators[-1]` raises on an empty list, and every call passes a non-empty one: the four default separators, or the strictly later ones when some are left.
- PyText.Basename models POSIX `os.path.basename`, where only '/' separates path parts. On Windows, `ntpath` also splits at '\\' and after a drive letter, so the file filter (src/kb/retrieve/retriever.py:56) would keep different documents there.
- The tiktoken tokenizer is not modelled. Token counts come from an arbitrary function `tokenLen`, and nothing is assumed about it.
- SplitProps.SmallTextIsOneChunk, SplitProps.SmallDocumentOneChunk and MergeProps.MergeFitsInOne state "fits" as an additive count (`JoinedTokenCount`: the parts' tokens plus one separator's between each two), not as the tokenizer's count of the joined text.
- OverlapProps.NextChunkOverlap states the overlap in fragments: the next chunk starts with the fragments the overlap loop kept. It does not count words in the joined text, which is how the test measures duplication.
- Python default arguments are constants, and the model's methods take every argument. The defaults are: `Chunker()` (`Chunking.DefaultChunkSize`, `Chunking.DefaultChunkOverlap`, used by `Chunking.Chunker.Default`), `search` (`VectorIndex.DefaultSearchTopK`), `rerank` (`Retrieval.DefaultRerankTopN`), `retrieve` (`Retrieval.DefaultRetrieveTopK`, `Retrieval.DefaultRetrieveTopN`, `Retrieval.DefaultUseRerank`) and `answer` (`Answering.DefaultAnswerTopK`, `Answering.DefaultAnswerTopN`). A call that leaves an argument out is the method called with that constant, and with `None` for a left-out file filter.
- SentenceTransformer and CrossEncoder model loading and inference are not modelled. The models are functions held by the store, the retriever and the encoder. Scores are reals, of which only the order is used; NaN and float rounding are not modelled.
- FAISS internals are not modelled. The nearest-row search is a parameter `ranking`, and labels are taken to be row positions or `-1`. The error texts of a refused query, a refused `top_k` or refused rows are the model's own wording.
- `VectorStore.save`, `VectorStore.load`, directory creation and loading a saved index in the constructor are not modelled. The constructor models a store with nothing on disk.
- PdfReader text extraction, BeautifulSoup parsing and the tag-removal loop are not modelled. Their results are the inputs `reader` and `page`. File reading and the existence checks in the loaders' constructors are not modelled either.
- `LocalLLM` and Ollama are not modelled. The reply, including the error text, is a function of the chat messages.
- `AnswerEngine.__init__` model loading is not modelled. The engine is built from a retriever and a language model.
- Printing (answer.py, the loaders' error messages) is not modelled.
- Schema.Document.constructor: the metadata dictionary passed in is not aliased. The model's map is a value, so a caller holding the same dictionary cannot see the added source.
- Rendering a float inside an f-string is a placeholder. The pipeline never renders one: page numbers and chunk indices are integers.
- Ranking.Rank models the result of the in-place `list.sort`, not its algorithm.
- The Streamlit UI and the CLI scripts are not modelled.
