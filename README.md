# psy chatbot backend — a Dafny model

This project models the Python backend of the psy chatbot. It covers:

- the greedy token-bounded chunker `split_text`;
- the static corpus store written by `build_vector_store` and read by `search_similar_chunks`;
- the chat memory store, with its write gate `should_embed`, the append `save_chat_to_memory` and the lookup `search_chat_memory`;
- the crisis keyword detector `detect_suicidal_intent`;
- the choice of safety note and the prompt assembly in `chat_with_gpt`;
- the per-session transcript log in `memory.py`.

Modules follow the source files:

| module | file | models |
|---|---|---|
| `Text` | `text.dfy` | Python's `str.split()`, `sep.join`, `str.lower()` (ASCII letters), `str.strip()` and the substring test `k in s` |
| `Faiss` | `faiss.dfy` | the parts of a faiss `IndexFlatL2` the backend uses: a fixed dimension, `add` appending in place, and `search` |
| `Embeddings` | `embeddings.dfy` | `app/embeddings.py` |
| `ChatEmbeddings` | `chat_embeddings.dfy` | `app/chat_embeddings.py` |
| `EmotionDetection` | `emotion_detection.dfy` | `app/emotion_detection.py` |
| `Chatbot` | `chatbot.dfy` | `app/chatbot.py` |
| `Memory` | `memory.dfy` | `app/memory.py` |
| `Wrappers` | `wrappers.dfy` | `Option` and `Result` |

Some inputs are passed in as function parameters:

- the tokenizer: `tokLen`, one count per word;
- the embedding model;
- the faiss ranking: a `Ranker`, assumed sound, i.e. it returns `min(k, n)` valid positions;
- the emotion classifier;
- the two retrievers;
- the chat-completion call;
- the clock, as the `timestamp` argument.

The files written by the backend are fields of classes:

- `CorpusStore`: `rag_chunks.pkl` and `rag_index.faiss`;
- `MemoryStore`: `chat_chunks.pkl` and `chat_memory_index.faiss`;
- `HistoryStore`: the `chat_history` directory, as a map from path to entry list.

The methods that change these files carry `modifies` clauses. Their `ensures` state the whole new state in terms of the old one. The `Valid()` invariants say that records and vectors stay aligned.

`split_text` is a `for` loop (`Embeddings.SplitText`). It is proved equal to `Chunks`, a definition that does not mirror the loop:

- `Greedy` closes each group using the token budget that remains, not a running counter.
- `GreedyCharacterisation` shows that `Greedy` is the only partition of the words that follows the closing rule.
- The listed chunk properties are lemmas about `Chunks`.

Some behaviours of the code are stated as lemmas:

- `should_embed` matches its ignore keywords as substrings, so it rejects "this" and "look".
- `MIN_TOKENS` is never read.
- The keyword "I want to die" contains an upper-case letter, so it can never match lower-cased text.
- `search_chat_memory` does not filter by session or user.
- The safety note depends only on the emotion label and the crisis flag, never on the message's length.
- The user content keeps the `"\n\n"` separator even when the note is empty.

There are no per-user namespaces, no fact records and no summarisation, because the code has none.

## Model

| member | source | states |
|---|---|---|
| Text.Words | app/embeddings.py:16 | `text.split()` returns non-empty words with no whitespace in them |
| Text.WordsEmptyIffBlank | app/embeddings.py:16 | `split()` finds no word exactly when the text is empty or whitespace only |
| Text.WordsOfJoin | app/embeddings.py:25 | splitting words joined by single spaces gives back the same words |
| Text.Lower | app/emotion_detection.py:16 | lower-casing keeps the length and maps each character on its own |
| Text.LowerConcat | app/emotion_detection.py:16 | lower-casing distributes over concatenation |
| Text.LowerIdempotent | app/emotion_detection.py:16 | lower-casing twice changes nothing more |
| Text.AnyOccurs | app/chat_embeddings.py:20 | an in-order scan that stops at the first hit is true exactly when some keyword occurs in the text |
| Text.NoUpperKeywordInLowered | app/emotion_detection.py:16-18 | a keyword with an upper-case letter never occurs in lower-cased text |
| Text.JoinSnoc | app/chatbot.py:18 | a part added at the end of the list comes after all earlier parts, behind one separator: parts stay in list order |
| Text.JoinContainsEach | app/chatbot.py:18 | every part occurs in the joined string |
| Text.Strip | app/chatbot.py:51 | the stripped reply occurs in the raw reply with only whitespace around it, and it has no whitespace at either end |
| Text.StripIdempotent | app/chatbot.py:51 | stripping twice changes nothing more |
| Faiss.FlatIndex.Add | app/embeddings.py:47-48 | the batch is appended exactly when every vector has the index's dimension; otherwise nothing changes |
| Faiss.FlatIndex.Search | app/embeddings.py:71 | fails exactly on a query of the wrong width or a `k` of 0; otherwise returns the ranker's ids, `min(k, ntotal)` valid positions |
| Embeddings.TokenSumAppend | app/embeddings.py:22 | adding one more word's tokens to the running count |
| Embeddings.CloseAtSpec | app/embeddings.py:22-27 | a chunk closes at the first word that brings the running count to the threshold, or else at the last word |
| Embeddings.CloseAtStep | app/embeddings.py:22-27 | word by word: the chunk closes at word k when the count first reaches the threshold there |
| Embeddings.GreedyIsGreedyPartition | app/embeddings.py:21-29 | the greedy groups cover the words in order, are non-empty, stay below the threshold before their last word, and all but the last reach it |
| Embeddings.GreedyPartitionUnique | app/embeddings.py:21-29 | any partition that follows the closing rule is the greedy one |
| Embeddings.GreedyCharacterisation | app/embeddings.py:21-29 | a grouping follows the closing rule if and only if it is the greedy one |
| Embeddings.ChunksProperties | app/embeddings.py:16-30 | words preserved in order; every chunk non-empty and re-splits to its group; at most one chunk per word; every chunk but the last reached `max_tokens`; no chunk reached it before its last word; a word that alone reaches `max_tokens` at the start of a chunk forms that chunk by itself |
| Embeddings.ChunksRejoin | app/embeddings.py:16-29 | joining the chunks with single spaces gives `" ".join(text.split())` |
| Embeddings.ChunksOfBlank | app/embeddings.py:16-30 | no chunk exactly when the text is empty or whitespace only |
| Embeddings.ChunkTokenBound | app/embeddings.py:22-27 | a chunk of several words stays below `max_tokens` plus its last word's tokens, and nothing tighter holds |
| Embeddings.ChunkCanExceedMax | app/embeddings.py:22-27 | two 2-token words under a limit of 3 form one chunk of 4 tokens: the threshold is tested only after a word is added |
| Embeddings.GreedyOfLoop | app/embeddings.py:24-29 | the chunks the loop closed, plus the trailing partial chunk, are the greedy groups |
| Embeddings.SplitText | app/embeddings.py:15-30 | the loop returns exactly `Chunks(text, max_tokens)` (default 300) |
| Embeddings.EmbedAll | app/embeddings.py:32-37 | one embedding per chunk: vector i is the embedding of chunk i |
| Embeddings.CorpusStore.Build | app/embeddings.py:39-52 | no chunk: fails (`embeddings[0]`); unequal embedding widths: fails with nothing written; otherwise chunk i and vector i are stored at position i, and the index dimension is the first embedding's width |
| Embeddings.CorpusStore.SearchSimilar | app/embeddings.py:57-73 | no store: fails; a query of the wrong width: fails; `top_k` of 0: fails; otherwise one chunk per returned id, in order, each `chunks[id]` |
| ChatEmbeddings.ShouldEmbed | app/chat_embeddings.py:16-25 | true exactly when no ignore keyword occurs in the lower-cased text and the text has at least 3 words |
| ChatEmbeddings.IgnoreKeywordAnywhereRejects | app/chat_embeddings.py:18-21 | an ignore keyword rejects the text wherever it occurs, also inside a longer word |
| ChatEmbeddings.ShortSentenceAccepted | app/chat_embeddings.py:17-25 | "I feel sad" passes the gate although it is far below `MIN_TOKENS` tokens: the token bound is never read |
| ChatEmbeddings.MemoryStore.SaveChat | app/chat_embeddings.py:34-53 | rejected text: nothing changes; an embedding that is not 1536 wide: nothing changes; otherwise exactly one record `(session, text)` and one vector are appended at the end, and the lists stay equally long |
| ChatEmbeddings.MemoryStore.SearchChat | app/chat_embeddings.py:55-67 | no memory file: `[]`; a query of the wrong width or a `top_k` of 0: fails; otherwise the text of the record at each returned id, in order, whatever session wrote it |
| EmotionDetection.DetectSuicidalIntent | app/emotion_detection.py:15-20 | true exactly when some keyword occurs in the lower-cased text |
| EmotionDetection.DetectIgnoresCase | app/emotion_detection.py:16 | texts with the same lower-case form get the same answer |
| EmotionDetection.DetectsShoutedKeyword | app/emotion_detection.py:16-19 | "I will KILL MYSELF" is detected |
| EmotionDetection.MixedCaseKeywordNeverMatches | app/emotion_detection.py:7 | the keyword "I want to die" never occurs in lower-cased text |
| EmotionDetection.WantToDieUndetected | app/emotion_detection.py:7 | "I want to die", in any letter case, is not detected |
| EmotionDetection.EmptyUndetected | app/emotion_detection.py:17-20 | the empty message is not detected |
| EmotionDetection.DetectMonotone | app/emotion_detection.py:16-19 | text added around a detected message keeps it detected |
| EmotionDetection.DetectIndependentOfOrder | app/emotion_detection.py:17-20 | scanning the keywords in any order gives the same answer |
| Chatbot.SafetyNoteCases | app/chatbot.py:24-33 | crisis flag: the crisis text whatever the emotion; otherwise "sadness" or "fear": an empathy line naming the emotion, different from the crisis text; otherwise no note |
| Chatbot.CrisisOverridesEmotion | app/chatbot.py:25-31 | with the crisis flag the note does not depend on the emotion |
| Chatbot.MessagesShape | app/chatbot.py:17-41 | four messages: persona, memory, corpus info, then the user; each context message is its heading followed by the retrieved chunks joined with `"\n\n"` in retrieval order, so each chunk is quoted there; the user content is the message, `"\n\n"`, then the note |
| Chatbot.NoteIgnoresMessageLength | app/chatbot.py:24-33 | two messages of any lengths with the same emotion label and crisis flag get the same note after their text |
| Chatbot.ChatWithGpt | app/chatbot.py:11-56 | the metadata is returned exactly when asked for, computed from the same message; the reply is the stripped completion |
| Chatbot.RequestProperties | app/chatbot.py:44-49 | the request uses `gpt-3.5-turbo` and at most 50 tokens; the user content carries the note chosen for this message, the crisis text whenever the detector fires |
| Chatbot.ReturnMetaKeepsReply | app/chatbot.py:54-56 | `return_meta` changes nothing about the reply |
| Memory.PathJoin | app/memory.py:11 | POSIX `os.path.join`: an absolute second part replaces the first; otherwise the two parts with at most one '/' added between them |
| Memory.HistoryPath | app/memory.py:10-11 | every history path ends with the session id followed by ".json" |
| Memory.HistoryPathInDir | app/memory.py:5-11 | a session id that does not start with '/' gets `chat_history/<id>.json` |
| Memory.LastSlash | app/memory.py:31 | the position of the last '/' in a path, which separates the directory the file is opened in |
| Memory.HistoryFileInHistoryDir | app/memory.py:5-11 | a session's file lies directly in `chat_history` exactly when the session id holds no '/' |
| Memory.HistoryPathInjective | app/memory.py:10-11 | distinct session ids get distinct history paths |
| Memory.HistoryStore.SaveMessage | app/memory.py:13-32 | the write fails, storing nothing, exactly when the file's directory does not exist, which never happens for an id without '/'; otherwise the session's history gains exactly one entry at the end, with the given fields (defaults `None` and `False`); no other session's history changes |
| Memory.HistoryStore.LoadHistory | app/memory.py:34-39 | a session with no history file loads as `[]`, whatever other sessions have stored; otherwise its stored list |

## Left out

- The OpenAI embedding and chat-completion calls, the transformers emotion classifier, tiktoken and the clock are function parameters. The model states nothing about their outputs.
- `embed_text_chunks` sends the chunks in one request. `EmbedAll` applies the embedder to each chunk, which assumes the service returns one vector per input in input order.
- faiss L2 distances and the ranking itself are abstract. A `Ranker` only has to return `min(k, ntotal)` valid positions.
- Faiss.FlatIndex.Search: returns only the real hits. When `k` exceeds `ntotal`, faiss pads the result with `-1` and the source then reads `chunks[-1]`, the last chunk; this is not modelled.
- Embeddings.CorpusStore.SearchSimilar: inherits the missing `-1` padding from `Search`.
- ChatEmbeddings.MemoryStore.SearchChat: inherits the missing `-1` padding from `Search`.
- ChatEmbeddings.MemoryStore.SaveChat: reads the stored index as having dimension 1536. That holds for every index this code writes; a file written elsewhere with another dimension is not modelled.
- Text.Lower: maps only ASCII letters. Python's full Unicode case mapping, including mappings that change the length, is not modelled.
- Vectors are sequences of reals. float32 rounding and numpy conversion are not modelled.
- pickle and JSON files are class fields. The model assumes a written value reads back unchanged. Corrupt or foreign files, and the exceptions they raise, are not modelled.
- `os.makedirs` at import time is the `HistoryStore` constructor. No other directory is ever created, and the set of existing directories does not change.
- Paths are plain string keys. Different strings that name the same file are not modelled: `.` components (`./a` and `a`), repeated `/`, `..` and symbolic links. `HistoryPathInjective` and `SaveMessage`'s "no other session changes" hold for path strings, not for files reached through such aliases.
- `load_vector_store` has no separate member. `SearchSimilar` reads the stored fields directly.
- The message printed by `build_vector_store` is left out.
- `chat_with_gpt` fails when the completion's `content` is `None`. This is not modelled: the completion is a total function to strings.
- Exceptions raised by the external services are not modelled.
- Embeddings.SplitText: the tokenizer is total. tiktoken raises `ValueError` on a word holding special-token text such as `<|endoftext|>`, which makes `split_text` and `build_vector_store` fail; that error path is not modelled.
- Chatbot.ChatWithGpt: the retrievers are total functions. In the source, `chat_with_gpt` aborts when a retriever raises, for instance when `search_similar_chunks` finds no `rag_index.faiss` (the `Err(StoreMissing)` of `Embeddings.CorpusStore.SearchSimilar`); this failure is not propagated.
- `detect_emotion`'s score is discarded by `chat_with_gpt` and plays no part in the model.
- `app/main.py`, `server.py`, `mini-server.py`, `app/test_pinecone.py` and the React UI are not part of this model. They are the CLI, the HTTP layer, a script and the interface.
