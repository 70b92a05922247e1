# 4everinbeta retrieval and chat core, modelled in Dafny

This project models three parts of the 4everinbeta site.

- The offline retrieval builder, `build_embeddings.py`. It reads the
  `.md`/`.txt` files of `content/` and cuts each text into overlapping
  windows of 600 words. A new window starts every 480 words, and a short
  tail window under 240 words is dropped. Each chunk becomes an entry with
  id `<stem>-<index>`. The builder then embeds the chunk texts with one of
  three backends: deterministic fake vectors when `RAG_FAKE_EMBEDDINGS=1`,
  the OpenAI embeddings endpoint in batches of 20 when `OPENAI_API_KEY` is
  set, or a local sentence-transformers model otherwise. It refuses to run
  without any documents.
- The browser chat widget and contact form, `chat.js`. The widget opens and
  closes, matches a question against a keyword knowledge base, and queues a
  reply. The contact form builds a payload, a subject and a body for a
  `mailto:` link.
- The worker's retrieval helpers, `worker/rag-helpers.js`. They compute a
  guarded cosine similarity, rank documents (a stable sort by descending
  score, a `topK` slice, and a filter that keeps positive scores), and
  format the prompt context.

Each module is one file:

- `wrappers.dfy`: Option and Result.
- `numeric.dfy`: `min` and the vector type shared by the builder and the worker.
- `text.dfy`: Python `split`/`strip` and JS `trim` whitespace, `join`,
  `includes`, lowercasing, decimal rendering, code-point string order.
- `sorting.dfy`: the stable sort behind Python `sorted` and JS
  `Array.prototype.sort`.
- `chunker.dfy`, `entries.dfy`, `loader.dfy`, `embeddings.dfy`,
  `pipeline.dfy`: `build_embeddings.py`.
- `chat.dfy` and `contact.dfy`: `chat.js`.
- `rag_helpers.dfy`: `worker/rag-helpers.js`.

The source changes state step by step in several places, and the model does too:

- `chunk_text`, `build_entries`, `read_documents`, the fake and OpenAI
  embedders, `cosineSimilarity`, `findBestResponse` and `rankDocuments`
  are methods with loops.
- `generate_embeddings` and `main` are methods without loops: a chain of
  conditional returns, and a sequence of calls with one early exit.
- The chat widget is a class whose methods update its fields.

Each of the methods outside the class, except `Chat.ToggleTwice`, is
proved equal to a specification function, and the lemmas state what the
source promises about those functions. The widget's methods state the new
value of every field instead, and `Chat.ToggleTwice` states what two
toggles in a row leave unchanged.

## Model

| member | source | states |
|---|---|---|
| Text.Words | build_embeddings.py:32 | every piece `str.split()` returns is non-empty and free of Python whitespace |
| Text.WordsEmptyIff | build_embeddings.py:32-34 | a text splits into no words exactly when every character is whitespace |
| Text.WordsOfJoin | build_embeddings.py:42 | splitting the space-join of words gives back the same words |
| Text.TrimStart | build_embeddings.py:24 | the result is a suffix of the input, starts with a non-space, and everything removed was whitespace |
| Text.TrimEnd | build_embeddings.py:24 | the result is a prefix of the input, ends with a non-space, and everything removed was whitespace |
| Text.Trim | chat.js:83 | the trimmed text has no whitespace at either end, and is empty exactly when the input is all whitespace |
| Text.Lower | chat.js:111 | lowercasing keeps the length and lowers each character |
| Text.LowerIdempotent | chat.js:116 | lowering an already-lowered text changes nothing |
| Text.ContainsIff | chat.js:116 | `includes` holds exactly when the keyword occurs at some position |
| Text.ContainedCharsOccur | chat.js:116 | every character of an included keyword occurs in the text |
| Text.NatToString | build_embeddings.py:52 | the decimal rendering of an index is made of digits only, with no leading zero unless the index is 0 |
| Text.ParseNatToString | build_embeddings.py:52 | reading the decimal rendering back gives the index |
| Text.NatToStringInjective | build_embeddings.py:52 | different indexes render differently |
| Text.StrLtTransitive | build_embeddings.py:22 | the string order that `sorted` uses on paths is transitive |
| Text.StrLtTrichotomy | build_embeddings.py:22 | that order is asymmetric and total on distinct strings |
| Text.StrLtCommonPrefix | build_embeddings.py:22 | a shared directory prefix does not change how two paths compare |
| Text.SplitJoin | chat.js:163 | joining lines with a newline and splitting on it gives back the lines, when no line holds a newline |
| Sorting.SortBy | build_embeddings.py:22 | sorting returns a permutation of its input |
| Sorting.InsertSorted | worker/rag-helpers.js:33 | inserting into a sorted list keeps it strictly sorted under a compatible order |
| Sorting.SortByStrictlySorted | worker/rag-helpers.js:33 | the stable sort yields a list strictly ordered by any transitive order its comparator agrees with |
| Chunker.ChunkCount | build_embeddings.py:37-44 | there are no chunks exactly when there are no words, and the last window starts inside the text |
| Chunker.Chunks | build_embeddings.py:31-45 | the chunks of a text, one per window below the chunk count; there are none exactly when the text has no words |
| Chunker.LastWindowBounds | build_embeddings.py:37-44 | for more than 600 words, the window before the last stops short of the end, the last reaches it, and more than 120 words remain from its start |
| Chunker.StopsShortIff | build_embeddings.py:43-44 | a window stops before the end exactly when it comes before the last one |
| Chunker.KeptWindow | build_embeddings.py:40-44 | a window reached after a short-stopping one, with at least 240 words or at the start, is kept; when it reaches the end it is the last chunk |
| Chunker.DroppedWindow | build_embeddings.py:40-41 | a later window with fewer than 240 words ends the list before it |
| Chunker.ChunksByWindows | build_embeddings.py:37-44 | chunk k is the space-join of words from 480·k up to 600 further or the end |
| Chunker.ChunkText | build_embeddings.py:31-45 | the loop returns the specified chunks, none for a text without words, and chunk k joins the k-th window |
| Chunker.NoWordsNoChunks | build_embeddings.py:32-34 | an all-whitespace text yields no chunks |
| Chunker.ShortTextOneChunk | build_embeddings.py:37-44 | a text of 1 to 600 words yields exactly one chunk holding all its words |
| Chunker.ChunkWords | build_embeddings.py:38-42 | each chunk re-splits into its window: 1 to 600 words, and at least 240 for every chunk after the first |
| Chunker.EarlierChunksStopShort | build_embeddings.py:43-44 | every chunk but the last stops before the end of the text |
| Chunker.ChunksOverlap | tests/test_build_embeddings.py:16-24 | a chunk followed by another has 600 words, and its last 120 words are the first 120 of the next; word 480 of a chunk is word 0 of the next |
| Chunker.LastChunkNearEnd | build_embeddings.py:37-44 | fewer than 120 words follow the last chunk, and when any follow, the next window would have been under 240 words |
| Chunker.ChunkCountExamples | tests/test_build_embeddings.py:16-19 | 1000 words give two chunks; 700 words give one chunk of 600 |
| Entries.BuildEntries | build_embeddings.py:48-61 | the nested loop returns the entries of all documents in order, one per chunk |
| Entries.EntryId | build_embeddings.py:52 | the id is the document id, a dash, then the decimal chunk index |
| Entries.AllEntriesLength | build_embeddings.py:48-61 | the number of entries is the total number of chunks |
| Entries.EntryAt | build_embeddings.py:50-60 | chunk k of document i sits at that document's offset plus k, with id `<id>-<k>`, the document's source, index k and the chunk text |
| Entries.EntryOrigin | build_embeddings.py:50-60 | every entry is chunk k of some document i at offset plus k |
| Entries.EntryIdInjective | build_embeddings.py:52 | an entry id determines both the document id and the chunk index |
| Entries.EntryIdsUnique | build_embeddings.py:50-52 | documents with distinct ids give entries with pairwise distinct ids |
| Loader.LastDot | build_embeddings.py:23 | the position found is the last dot in the name, or -1 when there is none |
| Loader.Suffix | build_embeddings.py:23 | pathlib's suffix: non-empty exactly when the last dot is neither first nor last in the name, and then a dot followed by at least one dot-free character |
| Loader.Stem | build_embeddings.py:27 | pathlib's stem: the stem followed by the suffix is the name, and a non-empty name has a non-empty stem |
| Loader.Eligible | build_embeddings.py:23-26 | an eligible entry's content holds at least one non-whitespace character |
| Loader.ToDocument | build_embeddings.py:24-27 | the id followed by the suffix is the file name, the source is `content/<name>`, and the text has no whitespace at either end |
| Loader.ReadDocuments | build_embeddings.py:20-28 | the loop returns the documents in strictly increasing source order, exactly one per regular .md/.txt entry with non-blank content, each with words |
| Loader.ListedMembers | build_embeddings.py:22-27 | a document is listed exactly when an eligible entry produces it |
| Loader.ListedBefore | build_embeddings.py:22 | entries named before a later entry give sources before its source |
| Loader.ListedSorted | build_embeddings.py:22 | a listing sorted by name gives documents in strictly increasing source order |
| Loader.NameLtTransitive | build_embeddings.py:22 | the path order is transitive |
| Loader.LoadedDocumentsProperties | build_embeddings.py:20-28 | read_documents' result is source-ordered, exactly the eligible entries' documents, with non-empty texts |
| Loader.LastDotBeforeTail | build_embeddings.py:23 | the suffix dot of `base.ext` is the one before `ext` when `ext` has no dot |
| Loader.TextFileStem | build_embeddings.py:23-27 | a regular `base.md` or `base.txt` file with non-blank content is loaded, with id `base`, for any non-empty base |
| Loader.DottedStemExample | build_embeddings.py:23-27 | `a.b.md` holding `  x` is loaded with id `a.b` and text `x` |
| Loader.StemsCanCollide | build_embeddings.py:27 | `x.md` and `x.txt` are both loaded, with the same document id `x` |
| Loader.DotFileSkipped | build_embeddings.py:23 | a file named `.md` has no suffix and is skipped |
| Embeddings.FakeRow | build_embeddings.py:89 | a fake vector has 64 components |
| Embeddings.EmbedWithFakeVectors | build_embeddings.py:84-90 | one 64-wide row per text, in order, each a function of its text alone; no texts give a 0×64 matrix |
| Embeddings.FakeRowsByText | tests/test_build_embeddings.py:26-32 | equal texts get equal fake rows, wherever they stand |
| Embeddings.BatchesPartition | build_embeddings.py:69-71 | the batches are ⌈n/20⌉ lists of 1 to 20 texts that concatenate back to the input |
| Embeddings.RemoteRows | build_embeddings.py:70-73 | the rows succeed exactly when every batch call does; a failure is the remote error of a call |
| Embeddings.ConcatBatchesPrefix | build_embeddings.py:70-71 | the first k batches are the first min(n, 20·k) texts |
| Embeddings.ToMatrix | build_embeddings.py:74 | `np.array` gives a matrix exactly when there are rows and they all have the width of the first; no rows at all is the missing-second-axis error, otherwise the ragged-rows error |
| Embeddings.EmbedWithOpenAI | build_embeddings.py:64-74 | the loop sends a prefix of the batches in order, all of them when it succeeds, and returns the specified result |
| Embeddings.OpenAIEmbeddings | build_embeddings.py:64-74 | a result is a well-shaped matrix over the collected rows; a failure is a remote error, no rows at all, or ragged rows |
| Embeddings.EmptyRepliesNoRows | build_embeddings.py:70-73 | calls that all answer with no data collect no rows |
| Embeddings.RemoteRowsFailureSticks | build_embeddings.py:70-72 | once a batch call fails, later batches do not change the result |
| Embeddings.EmbedEach | build_embeddings.py:73 | one vector per input, in input order |
| Embeddings.RemoteRowsPointwise | build_embeddings.py:70-73 | when every batch call embeds text by text, the collected rows embed the concatenated batches |
| Embeddings.OpenAIInInputOrder | build_embeddings.py:64-74 | for a per-text endpoint, the rows line up with the input texts |
| Embeddings.Generated | build_embeddings.py:93-111 | no texts give the local model's name and a 0×64 matrix; the model label matches the backend chosen; fake gives 64-wide per-text rows; OpenAI succeeds exactly when `embed_with_openai` does, with its rows, and otherwise fails with its error unchanged; the local path succeeds exactly when the model does, with its matrix, and otherwise fails with the message naming the fake flag and the cause |
| Embeddings.SelectBackend | build_embeddings.py:94-111 | no backend exactly for no texts; otherwise fake exactly when the flag is `1`, OpenAI exactly when the flag is not and the key is non-empty, the local model exactly when neither |
| Embeddings.NoSecondAxisOnlyFromEmptyReplies | build_embeddings.py:64-74 | the embedding step ends without a second axis exactly on the OpenAI path when every call succeeded and no rows came back |
| Embeddings.GenerateEmbeddings | build_embeddings.py:93-111 | the method returns the specified outcome |
| Embeddings.EmptyInputCallsNoBackend | build_embeddings.py:94-95 | for no texts, the configuration and the backends are irrelevant |
| Embeddings.FakeIgnoresOtherBackends | build_embeddings.py:97-98 | with the fake flag set, the API key, the model variable and the other backends are irrelevant |
| Embeddings.LocalFailureNamesFallback | build_embeddings.py:107-111 | the local-model failure message tells the user to set `RAG_FAKE_EMBEDDINGS=1` |
| Embeddings.LocalPathOutcome | build_embeddings.py:103-111 | on the local path a failing model ends in an error naming `RAG_FAKE_EMBEDDINGS=1`, never in vectors, and a working model's matrix is returned unchanged |
| Pipeline.Texts | build_embeddings.py:120 | one text per entry, in entry order |
| Pipeline.Summary | build_embeddings.py:138 | the line starts `Wrote <chunks> chunks across ` and ends ` documents.` |
| Pipeline.Build | build_embeddings.py:114-137 | the run stops before any write exactly when nothing loads; whatever is written holds all the entries |
| Pipeline.RunBuild | build_embeddings.py:114-138 | main returns the specified outcome |
| Pipeline.LoadedDocumentChunks | build_embeddings.py:51 | a document with words yields at least one entry |
| Pipeline.EntriesAtLeastDocuments | build_embeddings.py:119 | loaded documents yield at least as many entries as documents |
| Pipeline.BuildOutcome | build_embeddings.py:114-138 | the build stops with the no-documents message exactly when nothing loads; otherwise there is at least one entry per document and a backend is chosen; a failed embedding step ends the build with its error and nothing written, except that rows without a second axis fail only after documents.json is written; a successful one writes all entries, the summary with their counts, and the embedding step's model, width and rows |
| Pipeline.FakeBuildWrites | build_embeddings.py:119-133 | with fake vectors, the build writes the fake model name, dimension 64 and one fake row per entry |
| Pipeline.EmptyRepliesWriteDocumentsOnly | build_embeddings.py:119-132 | an OpenAI endpoint that answers with no data leaves documents.json written and vectors.json not |
| Contact.TrimmedOr | chat.js:143-148 | a missing or blank field gives the default; otherwise the non-empty trimmed value |
| Contact.ValueOr | chat.js:146-147 | a missing or empty field gives the default; otherwise the raw value |
| Contact.MakePayload | chat.js:142-149 | company, intent and resume are never empty; intent and resume take their defaults exactly when missing or empty |
| Contact.PayloadTrimmedFields | chat.js:143-148 | name, email, company and message are trimmed; name, email and message are empty exactly when the field is blank; company falls back to N/A |
| Contact.Subject | chat.js:151 | the subject is the prefix, then the intent, then `)`, so the intent can be read back |
| Contact.BodyLines | chat.js:152-160 | seven lines, the sixth empty, the last the message or the not-provided placeholder |
| Contact.Body | chat.js:152-163 | the joined body starts with the name line and ends with a newline and the last line |
| Contact.BodyLinesRecoverable | chat.js:152-163 | when no field holds a newline, splitting the body on newlines gives back the seven lines |
| Contact.LastLineIsMessage | chat.js:148-159 | the last line is the trimmed message, or the placeholder when the message is blank |
| Contact.MailDefaults | chat.js:142-160 | an empty form gives the default subject, `Company: N/A`, `Resume/CV request: No` and the placeholder line |
| Chat.HitsCountsMatching | chat.js:115-117 | an item's score is the number of its keywords the lowered text includes |
| Chat.Hits | chat.js:115-117 | the score never exceeds the number of keywords |
| Chat.HitsZeroIff | chat.js:115-117 | the score is zero exactly when no keyword is included |
| Chat.HitsOne | chat.js:115-117 | exactly one included keyword gives score one |
| Chat.BestSoFar | chat.js:112-122 | the kept score bounds every item's score; nothing is kept exactly when all scores are zero; otherwise the kept item has the kept score and every earlier item scores strictly less |
| Chat.FindBestResponse | chat.js:110-124 | the loop returns the specified best item, and null exactly when every score is zero |
| Chat.BestSoFarByScores | chat.js:114-122 | the choice depends only on the items' scores |
| Chat.BestResponseIgnoresCase | chat.js:111 | lowering the question first changes nothing |
| Chat.EmailMissesCloud | chat.js:3 | "email" hits none of the cloud keywords |
| Chat.EmailHitsAI | chat.js:8 | "email" hits exactly one AI keyword (`ai`) |
| Chat.EmailMissesCost | chat.js:13 | "email" hits none of the cost keywords |
| Chat.EmailMissesTeam | chat.js:18 | "email" hits none of the team keywords |
| Chat.EmailMissesBrand | chat.js:23 | "email" hits none of the brand keywords |
| Chat.EmailHitsContact | chat.js:28 | "email" hits exactly one contact keyword |
| Chat.EmailScores | chat.js:1-32 | the scores of "email" against the six items are 0, 1, 0, 0, 0, 1 |
| Chat.FirstMaximalIsKept | chat.js:118-121 | the first item with the highest positive score is the one kept |
| Chat.EmailPicksAIItem | chat.js:118-123 | because the comparison is strict, "email" gets the AI item's answer, not the contact item's |
| Chat.ReplyText | chat.js:101-103 | a match with a non-empty response replies with it; no match replies with one of the fallbacks |
| Chat.KnowledgeHasDistinctResponses | chat.js:1-32 | no knowledge response is empty or equal to one of the fallbacks |
| Chat.ReplyChoice | chat.js:100-103 | a match replies with its own response; the reply is a fallback exactly when nothing matched |
| Chat.BrandChat.constructor | chat.js:41-73 | the widget starts closed, with aria-expanded "false", an empty box, nothing scheduled and the greeting shown |
| Chat.BrandChat.Toggle | chat.js:75-79 | the open state flips, aria-expanded mirrors it, and nothing else changes |
| Chat.BrandChat.AddMessage | chat.js:92-98 | one bubble is appended and nothing else changes |
| Chat.BrandChat.Reply | chat.js:100-108 | the chosen reply is scheduled after the earlier ones, and nothing is shown yet |
| Chat.BrandChat.HandleSubmit | chat.js:81-90 | a blank box changes nothing; otherwise the trimmed text is shown as a user message, its reply is scheduled and the box is cleared |
| Chat.BrandChat.DeliverReply | chat.js:105-107 | the oldest scheduled reply is shown as a bot message and removed from the queue |
| Chat.ToggleTwice | chat.js:75-79 | toggling twice restores the open state and the attribute |
| RagHelpers.SumSqNonNegative | worker/rag-helpers.js:12-13 | a squared norm is never negative |
| RagHelpers.SumSqOfZero | worker/rag-helpers.js:12-17 | a zero vector has squared norm zero |
| RagHelpers.DotSymmetric | worker/rag-helpers.js:11 | the dot product does not depend on argument order |
| RagHelpers.CosineGuards | worker/rag-helpers.js:1-19 | the similarity is 0 for a missing vector, a length mismatch, a zero vector on either side or orthogonal vectors, and it is symmetric |
| RagHelpers.Cosine | worker/rag-helpers.js:1-19 | a non-zero similarity needs two present vectors of one length, both with non-zero norm |
| RagHelpers.CosineSign | worker/rag-helpers.js:15-18 | the similarity is positive exactly when the dot product is positive and both norms are non-zero |
| RagHelpers.CosineSimilarity | worker/rag-helpers.js:1-19 | the loop returns the specified similarity |
| RagHelpers.ScoredEntries | worker/rag-helpers.js:26-31 | one score per position up to the shorter of embeddings and documents |
| RagHelpers.SliceEnd | worker/rag-helpers.js:34 | `slice(0, topK)` keeps min(n, topK) entries, and for negative topK all but the last -topK |
| RagHelpers.Positive | worker/rag-helpers.js:35 | the filter keeps exactly the entries with positive score |
| RagHelpers.KeepHigher | worker/rag-helpers.js:33 | the comparator `b.score - a.score` keeps a in front exactly when a scores at least as much as b |
| RagHelpers.RankDocuments | worker/rag-helpers.js:21-36 | the method returns the specified ranking |
| RagHelpers.Ranked | worker/rag-helpers.js:21-36 | every ranked entry has a positive score, and a non-negative topK bounds the length |
| RagHelpers.RankTopThree | worker/rag-helpers.js:21 | with the default topK, at most three entries come back |
| RagHelpers.RanksBeforeTransitive | worker/rag-helpers.js:33 | higher score first, then lower index, is a transitive order |
| RagHelpers.ScoredCompatible | worker/rag-helpers.js:33 | the descending-score comparator with stable ties agrees with that order on the scored list |
| RagHelpers.PositiveSorted | worker/rag-helpers.js:35 | filtering keeps the order |
| RagHelpers.SortedEntriesProperties | worker/rag-helpers.js:32-33 | the sort is a permutation of the scored entries, strictly ordered by score then index |
| RagHelpers.RankedWithoutEmbeddings | worker/rag-helpers.js:22-24 | no embeddings array, or an empty one, ranks nothing |
| RagHelpers.RankedMembers | worker/rag-helpers.js:26-35 | at most topK entries, each with positive score and equal to the scored entry at its index |
| RagHelpers.RanksBeforeScores | worker/rag-helpers.js:33 | a list in that order has non-increasing scores |
| RagHelpers.RankedOrdered | worker/rag-helpers.js:32-35 | the ranking has non-increasing scores and no index twice |
| RagHelpers.RankedComplete | worker/rag-helpers.js:32-35 | a positive entry left out means the slice was full and every ranked entry scores at least as high |
| RagHelpers.RankedSinglePositive | worker/rag-helpers.js:32-35 | when one entry alone is positive and topK is at least 1, the ranking is that entry alone |
| RagHelpers.ExampleScores | worker/rag-helpers.test.js:19-25 | query [1,0] scores positive against [1,0] and not positive against [0,1] or [-1,0] |
| RagHelpers.RankExample | worker/rag-helpers.test.js:19-35 | with topK 2, exactly one document comes back, and it is "first" |
| RagHelpers.PositiveOfPositives | worker/rag-helpers.js:35 | the filter keeps a list of positive scores whole |
| RagHelpers.FormatContextSections | worker/rag-helpers.js:38-48 | the context is empty exactly when there are no sections |
| RagHelpers.Block | worker/rag-helpers.js:44-45 | a block starts with `Source <n> (score ` and ends with `:` and a newline followed by the document text |
| RagHelpers.FormatSnoc | worker/rag-helpers.js:42-47 | one more section appends a blank line and its numbered block |
| RagHelpers.FormatSingle | worker/rag-helpers.test.js:37-48 | one section formats as its block numbered 1 |

## Left out

- File-system access is not modelled. The directory listing is a parameter, as a sequence of `(name, isFile, content)` entries. Writing `rag/documents.json` and `rag/vectors.json`, `mkdir` and the final `print` are returned as an outcome value and not performed.
- JSON serialisation is not modelled, and neither is `embeddings.round(6)`. Rows are returned unrounded.
- Fake vectors are not computed. The SHA-256 seed and numpy's random generator are the parameter `fakeComponent`: component j of the vector for a text. Only the shape and the text-only dependence are proved.
- The OpenAI client is the parameter `remote`, one call per batch. The SentenceTransformer model is the parameter `local`, a call that may fail. An exception the OpenAI client raises becomes a `RemoteError` result.
- Numpy shape failures are reduced to two errors. `RaggedRows` is the ValueError that numpy 1.24 and later raise in `np.array` over rows of different widths, inside embed_with_openai and before any write; older numpy builds an object array instead, and the run then fails at `embeddings.shape[1]` after documents.json is written, which is not modelled.
- Pipeline.BuildOutcome: rows without a second axis (no rows at all) are the `NoSecondAxis` error. In the source `generate_embeddings` returns normally there and `embeddings.shape[1]` fails in main; the model reports the failure from the embedding step, and `Build` places it after the documents.json write, as `WroteDocumentsOnly`. What it does not capture is the IndexError's own type and message.
- `OPENAI_EMBEDDING_MODEL` is read once, at import time. The model treats it as part of the configuration passed to each call.
- Floating point is not modelled. Scores are exact reals. `Math.sqrt` is a parameter, and only its positivity on positive arguments is used. `toFixed(3)` is a parameter.
- RagHelpers.SumSqOfZero: only "a zero vector has squared norm 0" is proved. The converse, that squared norm 0 means a zero vector, would need nonlinear real arithmetic the solver does not close. So CosineGuards states the zero-norm guard for zero vectors.
- NaN and infinite scores are not modelled. The JS sort comparator's behaviour on them is out of scope, and so are non-numeric array elements.
- Text.Lower: this lowers ASCII letters only. JS `toLowerCase` and Python `str.lower` also fold non-ASCII letters, and two of them fold to ASCII letters: `İ` (U+0130) lowers to `i` followed by U+0307, and the Kelvin sign (U+212A) lowers to `k`. So in chat.js the message "Aİ" hits the keyword `ai`, and a Kelvin sign can stand in for `k` in a keyword, while the model scores neither. All keywords, and the `.md`/`.txt` suffixes, are ASCII, and neither character lowers to a letter of `.md` or `.txt`, so the suffix test is unaffected.
- The DOM is not modelled. That covers element creation, CSS classes, scrolling, `aria-live`, and `event.preventDefault`. Event listeners are the methods they call.
- `setTimeout` with its 400 ms delay is a queue of pending replies. `DeliverReply` delivers the oldest one; timing is not modelled.
- `Math.random` is the parameter `pick`, an index into the fallbacks.
- The `mailto:` navigation and `encodeURIComponent` are not modelled, nor are the status text and `form.reset()`. The mail's recipient, subject and joined body are modelled.
- `FormData.get` returning a non-string (a file) is not modelled. A form field is an optional string.
- `embed_with_local_model`'s internals are a foreign call and are not modelled.
- generate_blog.py is not part of this model: it is a separate blog script that renders HTML from a JSON list and shares no code with the builder.
- worker/chat-worker.js is not part of this model: it fetches the two JSON artefacts over the network and has its own unguarded cosine similarity on floating-point numbers.
- Entries.EntryIdsUnique assumes documents with distinct ids. `x.md` and `x.txt` share the stem `x`, so read_documents can produce duplicate entry ids. Loader.StemsCanCollide proves that this happens.
