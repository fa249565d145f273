/**
 * app/embeddings.py: the greedy token-bounded chunker `split_text`, and the
 * static corpus store that `build_vector_store` writes and
 * `search_similar_chunks` reads.
 */
module Embeddings {
  import opened Text
  import opened Faiss
  import opened Wrappers

  /** Token count of one word under the tokenizer (`len(encoding.encode(word))`). */
  type Tokenizer = string -> nat

  /** `split_text`'s default `max_tokens`, the one `build_vector_store` uses. */
  const DefaultMaxTokens := 300

  /** `search_similar_chunks`'s default `top_k`. */
  const DefaultTopK: nat := 3

  function TokenSum(ws: seq<string>, tokLen: Tokenizer): nat {
    if ws == [] then 0 else tokLen(ws[0]) + TokenSum(ws[1..], tokLen)
  }

  lemma {:induction false} TokenSumAppend(ws: seq<string>, w: string, tokLen: Tokenizer)
    ensures TokenSum(ws + [w], tokLen) == TokenSum(ws, tokLen) + tokLen(w)
  {
    if ws == [] {
      assert ([] + [w])[1..] == [];
    } else {
      assert (ws + [w])[1..] == ws[1..] + [w];
      TokenSumAppend(ws[1..], w, tokLen);
    }
  }

  // ---------------------------------------------------------------------------
  // The greedy partition, stated independently of the loop

  /**
   * How many words the chunk that begins `ws` takes: words are taken while the
   * budget left before the threshold is positive, and the word that uses up the
   * budget (or the last word) closes the chunk.
   */
  function CloseAt(ws: seq<string>, maxTokens: int, tokLen: Tokenizer): (n: nat)
    requires ws != []
    ensures 1 <= n <= |ws|
  {
    if tokLen(ws[0]) >= maxTokens || |ws| == 1 then 1
    else 1 + CloseAt(ws[1..], maxTokens - tokLen(ws[0]), tokLen)
  }

  /** The chunk closes exactly where the running token count first reaches the threshold. */
  lemma {:induction false} CloseAtSpec(ws: seq<string>, maxTokens: int, tokLen: Tokenizer)
    requires ws != []
    ensures var n := CloseAt(ws, maxTokens, tokLen);
            && (n > 1 ==> TokenSum(ws[..n - 1], tokLen) < maxTokens)
            && (n < |ws| ==> TokenSum(ws[..n], tokLen) >= maxTokens)
  {
    var t0 := tokLen(ws[0]);
    assert ws[..1][1..] == [];
    if t0 >= maxTokens || |ws| == 1 {
    } else {
      var rest := ws[1..];
      CloseAtSpec(rest, maxTokens - t0, tokLen);
      var n := CloseAt(ws, maxTokens, tokLen);
      assert ws[..n - 1][1..] == rest[..n - 2];
      assert ws[..n][1..] == rest[..n - 1];
    }
  }

  /**
   * Reading the words of a chunk one at a time: if the first `k - 1` stay below
   * the threshold, the chunk closes at `k` when the first `k` reach it, and
   * later otherwise.
   */
  lemma {:induction false} CloseAtStep(ws: seq<string>, maxTokens: int, tokLen: Tokenizer, k: nat)
    requires 0 < k <= |ws|
    requires k == 1 || TokenSum(ws[..k - 1], tokLen) < maxTokens
    ensures TokenSum(ws[..k], tokLen) >= maxTokens ==> CloseAt(ws, maxTokens, tokLen) == k
    ensures TokenSum(ws[..k], tokLen) < maxTokens ==> CloseAt(ws, maxTokens, tokLen) >= k
  {
    var t0 := tokLen(ws[0]);
    var rest := ws[1..];
    assert ws[..k][1..] == rest[..k - 1];
    assert TokenSum(ws[..k], tokLen) == t0 + TokenSum(rest[..k - 1], tokLen);
    if k > 1 {
      assert ws[..k - 1][1..] == rest[..k - 2];
      assert TokenSum(ws[..k - 1], tokLen) == t0 + TokenSum(rest[..k - 2], tokLen);
      CloseAtStep(rest, maxTokens - t0, tokLen, k - 1);
    }
  }

  /** The chunks `split_text` forms, as groups of words. */
  function Greedy(ws: seq<string>, maxTokens: int, tokLen: Tokenizer): seq<seq<string>>
    decreases |ws|
  {
    if ws == [] then []
    else
      var n := CloseAt(ws, maxTokens, tokLen);
      [ws[..n]] + Greedy(ws[n..], maxTokens, tokLen)
  }

  /** A non-empty group none of whose proper prefixes reached the threshold. */
  predicate ClosedGroup(g: seq<string>, maxTokens: int, tokLen: Tokenizer) {
    g != [] && (|g| > 1 ==> TokenSum(g[..|g| - 1], tokLen) < maxTokens)
  }

  /**
   * The rule `split_text` follows: the groups are the words in order, every
   * group is non-empty and closes no earlier than the threshold, and every
   * group but the last reaches it.
   */
  predicate IsGreedyPartition(groups: seq<seq<string>>, ws: seq<string>, maxTokens: int, tokLen: Tokenizer) {
    && Flatten(groups) == ws
    && (forall i :: 0 <= i < |groups| ==> ClosedGroup(groups[i], maxTokens, tokLen))
    && (forall i :: 0 <= i < |groups| - 1 ==> TokenSum(groups[i], tokLen) >= maxTokens)
  }

  lemma {:induction false} GreedyIsGreedyPartition(ws: seq<string>, maxTokens: int, tokLen: Tokenizer)
    ensures IsGreedyPartition(Greedy(ws, maxTokens, tokLen), ws, maxTokens, tokLen)
    decreases |ws|
  {
    if ws != [] {
      var n := CloseAt(ws, maxTokens, tokLen);
      var g := ws[..n];
      var rest := Greedy(ws[n..], maxTokens, tokLen);
      var groups := Greedy(ws, maxTokens, tokLen);
      GreedyIsGreedyPartition(ws[n..], maxTokens, tokLen);
      CloseAtSpec(ws, maxTokens, tokLen);
      assert groups == [g] + rest;
      assert groups[1..] == rest;
      assert g[..|g| - 1] == ws[..n - 1];
      assert ws == g + ws[n..];
      assert ClosedGroup(g, maxTokens, tokLen);
      assert rest != [] ==> n < |ws| by {
        if n == |ws| {
          assert ws[n..] == [];
        }
      }
      forall i | 0 <= i < |groups|
        ensures ClosedGroup(groups[i], maxTokens, tokLen)
      {
        if i > 0 {
          assert groups[i] == rest[i - 1];
        }
      }
      forall i | 0 <= i < |groups| - 1
        ensures TokenSum(groups[i], tokLen) >= maxTokens
      {
        if i > 0 {
          assert groups[i] == rest[i - 1];
        }
      }
    }
  }

  /** The first group of a partition that follows the rule is the chunk `CloseAt` takes. */
  lemma PartitionHeadCloses(groups: seq<seq<string>>, ws: seq<string>, maxTokens: int, tokLen: Tokenizer)
    requires groups != [] && IsGreedyPartition(groups, ws, maxTokens, tokLen)
    ensures |groups[0]| <= |ws| && ws[..|groups[0]|] == groups[0] && ws[|groups[0]|..] == Flatten(groups[1..])
    ensures CloseAt(ws, maxTokens, tokLen) == |groups[0]|
  {
    var g := groups[0];
    var tail := groups[1..];
    assert ClosedGroup(g, maxTokens, tokLen);
    assert ws == g + Flatten(tail);
    assert ws[..|g|] == g;
    var k := |g|;
    assert k > 1 ==> ws[..k - 1] == g[..k - 1];
    CloseAtStep(ws, maxTokens, tokLen, k);
    if tail != [] {
      assert TokenSum(groups[0], tokLen) >= maxTokens;
    } else {
      assert Flatten(tail) == [];
    }
  }

  /** The groups after the first follow the rule on the words after the first group. */
  lemma PartitionTail(groups: seq<seq<string>>, ws: seq<string>, maxTokens: int, tokLen: Tokenizer)
    requires groups != [] && IsGreedyPartition(groups, ws, maxTokens, tokLen)
    requires |groups[0]| <= |ws| && ws[|groups[0]|..] == Flatten(groups[1..])
    ensures IsGreedyPartition(groups[1..], ws[|groups[0]|..], maxTokens, tokLen)
  {
    var tail := groups[1..];
    forall i | 0 <= i < |tail|
      ensures ClosedGroup(tail[i], maxTokens, tokLen)
    {
      assert tail[i] == groups[i + 1];
    }
    forall i | 0 <= i < |tail| - 1
      ensures TokenSum(tail[i], tokLen) >= maxTokens
    {
      assert tail[i] == groups[i + 1];
    }
  }

  lemma {:induction false} GreedyPartitionUnique(groups: seq<seq<string>>, ws: seq<string>, maxTokens: int, tokLen: Tokenizer)
    requires IsGreedyPartition(groups, ws, maxTokens, tokLen)
    ensures groups == Greedy(ws, maxTokens, tokLen)
    decreases |ws|
  {
    if groups == [] {
      assert ws == [];
    } else {
      var k := |groups[0]|;
      PartitionHeadCloses(groups, ws, maxTokens, tokLen);
      PartitionTail(groups, ws, maxTokens, tokLen);
      GreedyPartitionUnique(groups[1..], ws[k..], maxTokens, tokLen);
      assert groups == [ws[..k]] + groups[1..];
    }
  }

  /** `Greedy` is the one partition of the words that follows the closing rule. */
  lemma GreedyCharacterisation(groups: seq<seq<string>>, ws: seq<string>, maxTokens: int, tokLen: Tokenizer)
    ensures IsGreedyPartition(groups, ws, maxTokens, tokLen) <==> groups == Greedy(ws, maxTokens, tokLen)
  {
    GreedyIsGreedyPartition(ws, maxTokens, tokLen);
    if IsGreedyPartition(groups, ws, maxTokens, tokLen) {
      GreedyPartitionUnique(groups, ws, maxTokens, tokLen);
    }
  }

  /** `text.split()` grouped by the greedy rule, each group joined with single spaces. */
  function Chunks(text: string, maxTokens: int, tokLen: Tokenizer): seq<string> {
    JoinEach(" ", Greedy(Words(text), maxTokens, tokLen))
  }

  lemma {:induction false} FlattenOfNoEmptyLength<T>(groups: seq<seq<T>>)
    requires NoEmpty(groups)
    ensures |groups| <= |Flatten(groups)|
  {
    if groups != [] {
      assert NoEmpty(groups[1..]) by {
        assert forall i :: 0 <= i < |groups| - 1 ==> groups[1..][i] == groups[i + 1];
      }
      FlattenOfNoEmptyLength(groups[1..]);
    }
  }

  /**
   * The chunks `split_text` returns: their words are `text.split()` in order,
   * each chunk is non-empty, there are no more chunks than words, every chunk
   * but the last reached `maxTokens`, no chunk's words before its last one
   * reached it, and a word that alone reaches `maxTokens` at the start of a
   * chunk forms that chunk by itself.
   */
  lemma ChunksProperties(text: string, maxTokens: int, tokLen: Tokenizer)
    ensures var cs := Chunks(text, maxTokens, tokLen);
            var groups := Greedy(Words(text), maxTokens, tokLen);
            && |cs| == |groups|
            && Flatten(groups) == Words(text)
            && (forall i :: 0 <= i < |cs| ==> Words(cs[i]) == groups[i] && cs[i] != [])
            && |cs| <= |Words(text)|
            && (forall i :: 0 <= i < |cs| - 1 ==> TokenSum(groups[i], tokLen) >= maxTokens)
            && (forall i :: 0 <= i < |cs| ==> |groups[i]| > 1 ==> TokenSum(groups[i][..|groups[i]| - 1], tokLen) < maxTokens)
            && (forall i :: 0 <= i < |cs| ==> tokLen(groups[i][0]) >= maxTokens ==> cs[i] == groups[i][0])
  {
    var ws := Words(text);
    var groups := Greedy(ws, maxTokens, tokLen);
    var cs := Chunks(text, maxTokens, tokLen);
    GreedyIsGreedyPartition(ws, maxTokens, tokLen);
    assert NoEmpty(groups) by {
      assert forall i :: 0 <= i < |groups| ==> ClosedGroup(groups[i], maxTokens, tokLen);
    }
    FlattenOfNoEmptyLength(groups);
    forall i | 0 <= i < |cs|
      ensures Words(cs[i]) == groups[i] && cs[i] != []
      ensures tokLen(groups[i][0]) >= maxTokens ==> cs[i] == groups[i][0]
    {
      var g := groups[i];
      assert AllWords(g) by {
        FlattenMembers(groups, i);
        forall j | 0 <= j < |g| ensures IsWord(g[j]) {
          assert g[j] in Flatten(groups);
          var m :| 0 <= m < |ws| && ws[m] == g[j];
        }
      }
      WordsOfJoin(g);
    }
  }

  /**
   * The only bound on a chunk's size: a chunk of several words stays below
   * `maxTokens` plus its own last word's tokens, since the count is tested
   * only after a word is added; a one-word chunk is bounded by nothing.
   */
  lemma ChunkTokenBound(text: string, maxTokens: int, tokLen: Tokenizer, i: nat)
    requires i < |Greedy(Words(text), maxTokens, tokLen)|
    ensures var g := Greedy(Words(text), maxTokens, tokLen)[i];
            g != [] && (|g| > 1 ==> TokenSum(g, tokLen) < maxTokens + tokLen(g[|g| - 1]))
  {
    var groups := Greedy(Words(text), maxTokens, tokLen);
    GreedyIsGreedyPartition(Words(text), maxTokens, tokLen);
    var g := groups[i];
    assert ClosedGroup(g, maxTokens, tokLen);
    assert g == g[..|g| - 1] + [g[|g| - 1]];
    TokenSumAppend(g[..|g| - 1], g[|g| - 1], tokLen);
  }

  /** So a chunk of several words can go past `maxTokens`: two 2-token words under a limit of 3 form one 4-token chunk. */
  lemma ChunkCanExceedMax(tokLen: Tokenizer)
    requires tokLen("a") == 2 && tokLen("b") == 2
    ensures Greedy(["a", "b"], 3, tokLen) == [["a", "b"]]
    ensures TokenSum(["a", "b"], tokLen) == 4
  {
    var ws := ["a", "b"];
    assert ws[1..] == ["b"];
    assert CloseAt(ws, 3, tokLen) == 2;
    assert ws[..2] == ws && ws[2..] == [];
  }

  lemma {:induction false} FlattenMembers<T>(groups: seq<seq<T>>, i: nat)
    requires i < |groups|
    ensures forall x :: x in groups[i] ==> x in Flatten(groups)
  {
    if i > 0 {
      FlattenMembers(groups[1..], i - 1);
    }
  }

  /** Joining the chunks with single spaces gives back `" ".join(text.split())`. */
  lemma ChunksRejoin(text: string, maxTokens: int, tokLen: Tokenizer)
    ensures Join(" ", Chunks(text, maxTokens, tokLen)) == Join(" ", Words(text))
  {
    var groups := Greedy(Words(text), maxTokens, tokLen);
    GreedyIsGreedyPartition(Words(text), maxTokens, tokLen);
    assert NoEmpty(groups) by {
      assert forall i :: 0 <= i < |groups| ==> ClosedGroup(groups[i], maxTokens, tokLen);
    }
    JoinOfJoinEach(" ", groups);
  }

  /** Empty or whitespace-only text, and only such text, gives no chunk. */
  lemma ChunksOfBlank(text: string, maxTokens: int, tokLen: Tokenizer)
    ensures Chunks(text, maxTokens, tokLen) == [] <==> Blank(text)
  {
    WordsEmptyIffBlank(text);
    var ws := Words(text);
    if ws != [] {
      assert |Greedy(ws, maxTokens, tokLen)| > 0;
    }
  }

  // ---------------------------------------------------------------------------
  // split_text

  /** Groups already closed by the loop: each follows the rule and reached the threshold. */
  predicate ClosedGroups(done: seq<seq<string>>, maxTokens: int, tokLen: Tokenizer) {
    forall j :: 0 <= j < |done| ==> ClosedGroup(done[j], maxTokens, tokLen) && TokenSum(done[j], tokLen) >= maxTokens
  }

  lemma {:induction false} FlattenAppend<T>(groups: seq<seq<T>>, g: seq<T>)
    ensures Flatten(groups + [g]) == Flatten(groups) + g
  {
    if groups == [] {
      assert [] + [g] == [g];
      assert Flatten([g]) == g + Flatten([g][1..]);
    } else {
      assert (groups + [g])[1..] == groups[1..] + [g];
      FlattenAppend(groups[1..], g);
    }
  }

  /** The groups the loop closed, followed by what is left once the words run out, are `Greedy`. */
  lemma GreedyOfLoop(words: seq<string>, done: seq<seq<string>>, last: seq<string>, maxTokens: int, tokLen: Tokenizer)
    requires ClosedGroups(done, maxTokens, tokLen)
    requires Flatten(done) + last == words
    requires last != [] ==> TokenSum(last, tokLen) < maxTokens
    ensures (if last == [] then done else done + [last]) == Greedy(words, maxTokens, tokLen)
  {
    if last == [] {
      assert Flatten(done) == words;
      GreedyPartitionUnique(done, words, maxTokens, tokLen);
    } else {
      var k := |last|;
      assert last == last[..k - 1] + [last[k - 1]];
      TokenSumAppend(last[..k - 1], last[k - 1], tokLen);
      FlattenAppend(done, last);
      var groups := done + [last];
      forall j | 0 <= j < |groups| ensures ClosedGroup(groups[j], maxTokens, tokLen) {
        if j < |done| {
          assert groups[j] == done[j];
        }
      }
      forall j | 0 <= j < |groups| - 1 ensures TokenSum(groups[j], tokLen) >= maxTokens {
        assert groups[j] == done[j];
      }
      GreedyPartitionUnique(groups, words, maxTokens, tokLen);
    }
  }

  /** Closing the chunk `words[start..i + 1]` keeps the loop's account of the closed groups. */
  lemma CloseChunk(words: seq<string>, done: seq<seq<string>>, start: nat, i: nat, maxTokens: int, tokLen: Tokenizer)
    requires start <= i < |words|
    requires Flatten(done) == words[..start]
    requires ClosedGroups(done, maxTokens, tokLen)
    requires start == i || TokenSum(words[start..i], tokLen) < maxTokens
    requires TokenSum(words[start..i + 1], tokLen) >= maxTokens
    ensures Flatten(done + [words[start..i + 1]]) == words[..i + 1]
    ensures ClosedGroups(done + [words[start..i + 1]], maxTokens, tokLen)
  {
    var chunk := words[start..i + 1];
    assert chunk[..|chunk| - 1] == words[start..i];
    FlattenAppend(done, chunk);
    assert words[..start] + chunk == words[..i + 1];
    var groups := done + [chunk];
    forall j | 0 <= j < |groups|
      ensures ClosedGroup(groups[j], maxTokens, tokLen) && TokenSum(groups[j], tokLen) >= maxTokens
    {
      if j < |done| {
        assert groups[j] == done[j];
      }
    }
  }

  /** `split_text(text, max_tokens)`. */
  method SplitText(text: string, tokLen: Tokenizer, maxTokens: int := DefaultMaxTokens) returns (chunks: seq<string>)
    ensures chunks == Chunks(text, maxTokens, tokLen)
  {
    var words := Words(text);
    chunks := [];
    var chunk: seq<string> := [];
    var tokenCount: nat := 0;
    ghost var start: nat := 0;
    ghost var done: seq<seq<string>> := [];
    for i := 0 to |words|
      invariant start <= i
      invariant chunk == words[start..i]
      invariant tokenCount == TokenSum(chunk, tokLen)
      invariant chunk != [] ==> tokenCount < maxTokens
      invariant chunks == JoinEach(" ", done)
      invariant Flatten(done) == words[..start]
      invariant ClosedGroups(done, maxTokens, tokLen)
    {
      var word := words[i];
      TokenSumAppend(chunk, word, tokLen);
      tokenCount := tokenCount + tokLen(word);
      chunk := chunk + [word];
      assert chunk == words[start..i + 1];
      if tokenCount >= maxTokens {
        CloseChunk(words, done, start, i, maxTokens, tokLen);
        chunks := chunks + [Join(" ", chunk)];
        JoinEachAppend(" ", done, chunk);
        done := done + [chunk];
        start := i + 1;
        chunk := [];
        tokenCount := 0;
      }
    }
    assert Flatten(done) + chunk == words;
    GreedyOfLoop(words, done, chunk, maxTokens, tokLen);
    if chunk != [] {
      chunks := chunks + [Join(" ", chunk)];
      JoinEachAppend(" ", done, chunk);
    }
  }

  // ---------------------------------------------------------------------------
  // The corpus store

  /** `embed_text_chunks`: one embedding per chunk, in the chunks' order. */
  function EmbedAll(chunks: seq<string>, embed: Embedder): (vs: seq<Vector>)
    ensures |vs| == |chunks|
    ensures forall i :: 0 <= i < |chunks| ==> vs[i] == embed(chunks[i])
  {
    seq(|chunks|, i requires 0 <= i < |chunks| => embed(chunks[i]))
  }

  datatype BuildError =
    | EmptyCorpus        // `embeddings[0]` of no embeddings
    | DimensionMismatch  // `index.add` of embeddings of unequal widths

  datatype SearchError =
    | StoreMissing            // `faiss.read_index` of a file never written
    | QueryDimensionMismatch  // `index.search` of a query of another width
    | NoHitsRequested         // `index.search` with `k` = 0

  /**
   * The pair of files `rag_chunks.pkl` (the chunk texts) and
   * `rag_index.faiss` (their vectors), written together by
   * `build_vector_store`.
   */
  class CorpusStore {
    var built: bool
    var chunks: seq<string>
    var dim: nat
    var vectors: seq<Vector>

    /** Position i of the index is the vector of chunk i. */
    ghost predicate Valid()
      reads this
    {
      && |chunks| == |vectors|
      && HasDim(vectors, dim)
      && (!built ==> chunks == [] && vectors == [])
    }

    /** No files written yet. */
    constructor ()
      ensures Valid() && !built
    {
      built, chunks, dim, vectors := false, [], 0, [];
    }

    /** `build_vector_store` over the text of the corpus file. */
    method Build(text: string, tokLen: Tokenizer, embed: Embedder) returns (r: Result<(), BuildError>)
      requires Valid()
      modifies this
      ensures Valid()
      ensures var cs := Chunks(text, DefaultMaxTokens, tokLen);
              && (cs == [] ==> r == Err(EmptyCorpus))
              && (cs != [] && !HasDim(EmbedAll(cs, embed), |embed(cs[0])|) ==> r == Err(DimensionMismatch))
              && (cs != [] && HasDim(EmbedAll(cs, embed), |embed(cs[0])|) ==> r.Ok?)
              && (r.Ok? ==> built && chunks == cs && dim == |embed(cs[0])| && vectors == EmbedAll(cs, embed))
      ensures r.Err? ==> unchanged(this)
    {
      var cs := SplitText(text, tokLen);
      if cs == [] {
        return Err(EmptyCorpus);
      }
      var embeddings := EmbedAll(cs, embed);
      var d := |embeddings[0]|;
      var index := new FlatIndex(d);
      var ok := index.Add(embeddings);
      if !ok {
        return Err(DimensionMismatch);
      }
      built, chunks, dim, vectors := true, cs, d, index.vectors;
      r := Ok(());
    }

    /** `search_similar_chunks(user_query, top_k)`: the chunk at each returned index, in order. */
    method SearchSimilar(query: string, embed: Embedder, rank: Ranker, topK: nat := DefaultTopK)
      returns (r: Result<seq<string>, SearchError>)
      requires Valid() && SoundRanker(rank)
      ensures !built ==> r == Err(StoreMissing)
      ensures built && |embed(query)| != dim ==> r == Err(QueryDimensionMismatch)
      ensures built && |embed(query)| == dim && topK == 0 ==> r == Err(NoHitsRequested)
      ensures built && |embed(query)| == dim && topK > 0 ==>
                var ids := rank(vectors, embed(query), topK);
                && r.Ok?
                && |r.value| == |ids| == Min(topK, |chunks|)
                && forall j :: 0 <= j < |ids| ==> 0 <= ids[j] < |chunks| && r.value[j] == chunks[ids[j]]
    {
      if !built {
        return Err(StoreMissing);
      }
      var index := new FlatIndex.Read(dim, vectors);
      var q := embed(query);
      var ok, ids := index.Search(q, topK, rank);
      if !ok {
        return if |q| != dim then Err(QueryDimensionMismatch) else Err(NoHitsRequested);
      }
      var stored := chunks;
      var results := seq(|ids|, j requires 0 <= j < |ids| => stored[ids[j]]);
      r := Ok(results);
    }
  }
}
