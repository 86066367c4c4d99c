/**
 * Token counting and chunking on the server: the count of a text comes from
 * the tokenizer library when it could be loaded, else from the language
 * model's own counter, else from the estimate of one token per four
 * characters; chunking packs the words of a text, separated by single
 * spaces, into pieces that stay within a token budget.
 */
module Tokens {
  import opened Wrappers
  import opened Strings

  /** The tokenizer library once loaded, by the token count of its `cl100k_base` encoding. */
  datatype Library = Library(encode: string -> nat)

  /**
   * What a token count depends on: the library in use, whether the language
   * model is set up, and the model's `getNumTokens`, which gives `None` when
   * it fails or loses the race against the timeout.
   */
  datatype Counter = Counter(library: Option<Library>, llmReady: bool, numTokens: string -> Option<nat>)

  /**
   * `initializeTiktoken()`: a library already loaded is kept; otherwise the
   * import is tried, and its outcome kept when it loads.
   */
  function Loaded(cache: Option<Library>, imported: Option<Library>): (r: Option<Library>)
    ensures cache.Some? ==> r == cache
    ensures cache.None? ==> r == imported
  {
    if cache.Some? then cache else imported
  }

  /** Loading is done once: a second load changes nothing. */
  lemma LoadedIdempotent(cache: Option<Library>, imported: Option<Library>)
    ensures Loaded(Loaded(cache, imported), imported) == Loaded(cache, imported)
  {
  }

  /** `getTokenCount(text)`. */
  function Count(c: Counter, text: string): (n: nat)
    ensures c.library.Some? ==> n == c.library.value.encode(text)
    ensures c.library.None? && c.llmReady && c.numTokens(text).Some? ==> n == c.numTokens(text).value
    ensures c.library.None? && (!c.llmReady || c.numTokens(text).None?) ==> n == CeilDiv4(|text|)
  {
    match c.library
    case Some(lib) => lib.encode(text)
    case None =>
      if !c.llmReady then CeilDiv4(|text|)
      else match c.numTokens(text)
        case Some(n) => n
        case None => CeilDiv4(|text|)
  }

  // ---------------------------------------------------------------------------
  // Chunking

  /** The chunks so far and the chunk being built. */
  datatype Chunking = Chunking(chunks: seq<string>, current: string)

  /** The chunk being built with one more word: joined by a space unless it is empty. */
  function Extended(current: string, word: string): string {
    current + (if current != "" then " " else "") + word
  }

  /** One word of `chunkText`: it closes the current chunk when the extended one would exceed the budget. */
  function Feed(st: Chunking, word: string, c: Counter, maxTokens: nat): Chunking {
    var test := Extended(st.current, word);
    if Count(c, test) > maxTokens && st.current != "" then Chunking(st.chunks + [st.current], word)
    else Chunking(st.chunks, test)
  }

  /** The words fed one after the other. */
  function FeedAll(words: seq<string>, c: Counter, maxTokens: nat): Chunking
    decreases |words|
  {
    if words == [] then Chunking([], "")
    else Feed(FeedAll(words[..|words| - 1], c, maxTokens), words[|words| - 1], c, maxTokens)
  }

  /** The words of a text: `text.split(' ')`. */
  function Words(text: string): seq<string> {
    Split(text, " ")
  }

  /** The last chunk, when it is not empty, closes the list. */
  function Closed(st: Chunking): seq<string> {
    st.chunks + (if st.current != "" then [st.current] else [])
  }

  /** `chunkText(text, maxTokens)`. */
  function Chunks(text: string, c: Counter, maxTokens: nat): seq<string> {
    Closed(FeedAll(Words(text), c, maxTokens))
  }

  /** A chunk is a single word of the text, or its count is within the budget. */
  predicate Fits(chunk: string, words: seq<string>, c: Counter, maxTokens: nat) {
    chunk in words || Count(c, chunk) <= maxTokens
  }

  predicate ChunkingGood(st: Chunking, words: seq<string>, c: Counter, maxTokens: nat) {
    (forall k :: 0 <= k < |st.chunks| ==> st.chunks[k] != "" && Fits(st.chunks[k], words, c, maxTokens)) &&
    (st.current == "" || Fits(st.current, words, c, maxTokens))
  }

  /** Every chunk is non-empty, and a single word or within the budget. */
  lemma {:induction false} FeedAllGood(words: seq<string>, all: seq<string>, c: Counter, maxTokens: nat)
    requires words <= all
    ensures ChunkingGood(FeedAll(words, c, maxTokens), all, c, maxTokens)
    decreases |words|
  {
    if words != [] {
      var prev := words[..|words| - 1];
      var w := words[|words| - 1];
      assert prev <= all;
      FeedAllGood(prev, all, c, maxTokens);
      assert w == all[|words| - 1];
      var st := FeedAll(prev, c, maxTokens);
      if st.current == "" {
        assert Extended(st.current, w) == w;
      }
    }
  }

  lemma ChunksGood(text: string, c: Counter, maxTokens: nat)
    ensures forall chunk :: chunk in Chunks(text, c, maxTokens) ==>
      chunk != "" && (chunk in Words(text) || Count(c, chunk) <= maxTokens)
  {
    var words := Words(text);
    FeedAllGood(words, words, c, maxTokens);
  }

  /** An empty text is one empty word, and gives no chunks. */
  lemma EmptyTextNoChunks(c: Counter, maxTokens: nat)
    ensures Chunks("", c, maxTokens) == []
  {
    assert IndexOf("", " ", 0) == None;
    assert Words("") == [""];
    assert [""][..0] == [];
  }

  predicate NoEmptyWord(words: seq<string>) {
    forall k :: 0 <= k < |words| ==> words[k] != ""
  }

  /** Without empty words, the chunks so far and the current one joined by spaces are the words so far. */
  lemma {:induction false} FeedAllJoin(words: seq<string>, c: Counter, maxTokens: nat)
    requires words != [] && NoEmptyWord(words)
    ensures var st := FeedAll(words, c, maxTokens);
      st.current != "" && Join(st.chunks + [st.current], " ") == Join(words, " ")
    decreases |words|
  {
    var prev := words[..|words| - 1];
    var w := words[|words| - 1];
    assert words == prev + [w];
    JoinSnoc(prev, w, " ");
    if prev == [] {
      assert FeedAll(prev, c, maxTokens) == Chunking([], "");
      assert Extended("", w) == w;
    } else {
      FeedAllJoin(prev, c, maxTokens);
      var st := FeedAll(prev, c, maxTokens);
      var joined := Join(st.chunks + [st.current], " ");
      assert joined == Join(prev, " ");
      JoinSnoc(st.chunks, st.current, " ");
      if Count(c, Extended(st.current, w)) > maxTokens {
        JoinSnoc(st.chunks + [st.current], w, " ");
      } else {
        JoinSnoc(st.chunks, Extended(st.current, w), " ");
        if st.chunks == [] {
          assert Join(st.chunks + [st.current], " ") == st.current by {
            assert st.chunks + [st.current] == [st.current];
          }
        } else {
          assert Join(st.chunks, " ") + " " + (st.current + " " + w) == (Join(st.chunks, " ") + " " + st.current) + " " + w;
        }
      }
    }
  }

  /**
   * For a text without empty words (no leading, trailing or doubled space,
   * and not empty), the chunks joined by single spaces give the text back.
   */
  lemma ChunksJoin(text: string, c: Counter, maxTokens: nat)
    requires NoEmptyWord(Words(text))
    ensures Join(Chunks(text, c, maxTokens), " ") == text
  {
    var words := Words(text);
    FeedAllJoin(words, c, maxTokens);
    JoinSplit(text, " ");
  }
}
