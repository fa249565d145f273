/**
 * app/chat_embeddings.py: the write gate `should_embed`, and the chat memory
 * store: the record list in `chat_chunks.pkl` and the vectors in
 * `chat_memory_index.faiss`, appended together by `save_chat_to_memory` and
 * read back by `search_chat_memory`.
 */
module ChatEmbeddings {
  import opened Text
  import opened Faiss
  import opened Wrappers

  /** Declared by `should_embed` and never read by it. */
  const MinTokens := 10

  /** `IGNORE_KEYWORDS`: low-information phrases, matched as substrings. */
  const IgnoreKeywords: seq<string> := ["thank you", "hi", "ok", "sure", "bye"]

  /** Fewest whitespace-separated words a stored message has. */
  const MinWords := 3

  /** Width of a `text-embedding-3-small` vector, the width of a fresh memory index. */
  const EmbeddingDim: nat := 1536

  /** `search_chat_memory`'s default `top_k`. */
  const DefaultTopK: nat := 3

  /**
   * `should_embed(text)`: rejected when an ignore keyword occurs anywhere in
   * the lower-cased text, or when the text has fewer than three words.
   */
  function ShouldEmbed(text: string): (r: bool)
    ensures r <==>
              && !(exists i :: 0 <= i < |IgnoreKeywords| && Contains(Lower(text), IgnoreKeywords[i]))
              && |Words(text)| >= MinWords
  {
    if AnyOccurs(IgnoreKeywords, Lower(text)) then false
    else if |Words(text)| < MinWords then false
    else true
  }

  /** The ignore keywords are already lower-case. */
  lemma IgnoreKeywordLowered(i: nat)
    requires i < |IgnoreKeywords|
    ensures Lower(IgnoreKeywords[i]) == IgnoreKeywords[i]
  {
    var k := IgnoreKeywords[i];
    assert forall j :: 0 <= j < |k| ==> !IsUpper(k[j]);
    LowerOfNoUpper(k);
  }

  /** An ignore keyword rejects the text wherever it appears, also inside a longer word ("this", "look"). */
  lemma IgnoreKeywordAnywhereRejects(p: string, i: nat, s: string)
    requires i < |IgnoreKeywords|
    ensures !ShouldEmbed(p + IgnoreKeywords[i] + s)
  {
    var k := IgnoreKeywords[i];
    IgnoreKeywordLowered(i);
    LowerConcat(p, k);
    LowerConcat(p + k, s);
    assert OccursAt(k, k, 0);
    ContainsInContext(Lower(p), k, Lower(s), k);
    assert Contains(Lower(p + k + s), IgnoreKeywords[i]);
  }

  /** Each ignore keyword holds one of the letters t, h, o, u, b, so text without them contains none. */
  lemma IgnoreKeywordsNeedLetters(s: string)
    requires 't' !in s && 'h' !in s && 'o' !in s && 'u' !in s && 'b' !in s
    ensures forall i :: 0 <= i < |IgnoreKeywords| ==> !Contains(s, IgnoreKeywords[i])
  {
    var missing := ['t', 'h', 'o', 'u', 'b'];
    forall i | 0 <= i < |IgnoreKeywords|
      ensures !Contains(s, IgnoreKeywords[i])
    {
      assert missing[i] in IgnoreKeywords[i];
      if Contains(s, IgnoreKeywords[i]) {
        ContainsOnlyCharsOf(s, IgnoreKeywords[i], missing[i]);
      }
    }
  }

  lemma FeelSadHasNoKeyword(text: string)
    requires text == "I feel sad"
    ensures forall i :: 0 <= i < |IgnoreKeywords| ==> !Contains(Lower(text), IgnoreKeywords[i])
  {
    var lowered := Lower(text);
    assert lowered == "i feel sad" by {
      forall j | 0 <= j < |lowered| ensures lowered[j] == "i feel sad"[j] {
        assert lowered[j] == LowerChar(text[j]);
      }
    }
    IgnoreKeywordsNeedLetters(lowered);
  }

  lemma FeelSadHasThreeWords(text: string)
    requires text == "I feel sad"
    ensures |Words(text)| == 3
  {
    var w1, w2, w3 := text[..1], text[2..6], text[7..];
    assert IsWord(w1) && IsWord(w2) && IsWord(w3);
    assert text == w1 + " " + (w2 + " " + w3);
    WordsOfWordThenRest(w1, w2 + " " + w3);
    WordsOfWordThenRest(w2, w3);
    WordsOfWordThenRest(w3, "");
  }

  /** Three ordinary words pass, though they are far fewer than `MinTokens` tokens. */
  lemma ShortSentenceAccepted(text: string)
    requires text == "I feel sad"
    ensures ShouldEmbed(text)
  {
    FeelSadHasNoKeyword(text);
    FeelSadHasThreeWords(text);
  }

  datatype ChatRecord = ChatRecord(session: string, text: string)

  datatype SaveOutcome =
    | Skipped            // `should_embed` said no
    | Saved
    | DimensionMismatch  // `index.add` raised: the embedding is not `EmbeddingDim` wide

  datatype SearchError =
    | QueryDimensionMismatch  // `index.search` of a query of another width
    | NoHitsRequested         // `index.search` with `k` = 0

  /**
   * The two files of the chat memory. `present` says whether the index file
   * exists; when it does not, both are read as empty.
   */
  class MemoryStore {
    var present: bool
    var records: seq<ChatRecord>
    var vectors: seq<Vector>

    /** Record i and vector i were written together: the lists stay equally long. */
    ghost predicate Valid()
      reads this
    {
      && |records| == |vectors|
      && HasDim(vectors, EmbeddingDim)
      && (!present ==> records == [] && vectors == [])
    }

    /** No memory files yet. */
    constructor ()
      ensures Valid() && !present
    {
      present, records, vectors := false, [], [];
    }

    /** `save_chat_to_memory(message_text, session_id)`. */
    method SaveChat(messageText: string, sessionId: string, embed: Embedder) returns (outcome: SaveOutcome)
      requires Valid()
      modifies this
      ensures Valid()
      ensures !ShouldEmbed(messageText) ==> outcome == Skipped
      ensures ShouldEmbed(messageText) && |embed(messageText)| != EmbeddingDim ==> outcome == DimensionMismatch
      ensures ShouldEmbed(messageText) && |embed(messageText)| == EmbeddingDim ==> outcome == Saved
      ensures outcome != Saved ==> unchanged(this)
      ensures outcome == Saved ==>
                && present
                && records == old(records) + [ChatRecord(sessionId, messageText)]
                && vectors == old(vectors) + [embed(messageText)]
    {
      if !ShouldEmbed(messageText) {
        return Skipped;
      }
      var embedding := embed(messageText);
      var index: FlatIndex;
      var chunks: seq<ChatRecord>;
      if present {
        index := new FlatIndex.Read(EmbeddingDim, vectors);
        chunks := records;
      } else {
        index := new FlatIndex(EmbeddingDim);
        chunks := [];
      }
      chunks := chunks + [ChatRecord(sessionId, messageText)];
      assert HasDim([embedding], EmbeddingDim) <==> |embedding| == EmbeddingDim by {
        assert [embedding][0] == embedding;
      }
      var ok := index.Add([embedding]);
      if !ok {
        return DimensionMismatch;
      }
      present, records, vectors := true, chunks, index.vectors;
      outcome := Saved;
    }

    /**
     * `search_chat_memory(query, top_k)`: no result without a memory file;
     * otherwise the text of the record at each returned index, in order,
     * whatever session wrote it.
     */
    method SearchChat(query: string, embed: Embedder, rank: Ranker, topK: nat := DefaultTopK)
      returns (r: Result<seq<string>, SearchError>)
      requires Valid() && SoundRanker(rank)
      ensures !present ==> r == Ok([])
      ensures present && |embed(query)| != EmbeddingDim ==> r == Err(QueryDimensionMismatch)
      ensures present && |embed(query)| == EmbeddingDim && topK == 0 ==> r == Err(NoHitsRequested)
      ensures present && |embed(query)| == EmbeddingDim && topK > 0 ==>
                var ids := rank(vectors, embed(query), topK);
                && r.Ok?
                && |r.value| == |ids| == Min(topK, |records|)
                && forall j :: 0 <= j < |ids| ==> 0 <= ids[j] < |records| && r.value[j] == records[ids[j]].text
    {
      if !present {
        return Ok([]);
      }
      var q := embed(query);
      var index := new FlatIndex.Read(EmbeddingDim, vectors);
      var chunks := records;
      var ok, ids := index.Search(q, topK, rank);
      if !ok {
        return if |q| != EmbeddingDim then Err(QueryDimensionMismatch) else Err(NoHitsRequested);
      }
      var results := seq(|ids|, j requires 0 <= j < |ids| => chunks[ids[j]].text);
      r := Ok(results);
    }
  }
}
