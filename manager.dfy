/**
 * `LLMManager`: the language model, its parser and the tokenizer library
 * behind one object, with the same token counting and chunking as the
 * request handler and guarded access to the model.
 *
 * The model's `invoke` and the parser's `parse` are oracles, given to each
 * call; the manager records every invocation.
 */
module Manager {
  import opened Wrappers
  import opened Strings
  import opened Replies
  import opened Tokens
  import opened Handler

  /** The `ChatOpenAI` object, by the setting the manager changes: `maxTokens`. */
  datatype Llm = Llm(maxTokens: JsValue)

  class LLMManager {
    var llm: Option<Llm>
    /** Whether `parser` holds a `StringOutputParser`. */
    var parser: bool
    var tiktoken: Option<Library>
    /** What `import('js-tiktoken')` gives, `None` when it fails. */
    const imported: Option<Library>
    /** `llm.getNumTokens`, `None` when it fails or times out. */
    const numTokens: string -> Option<nat>
    /** Every `llm.invoke`, with the model as it was and the messages. */
    var invocations: seq<(Llm, seq<LangMessage>)>

    /** A new manager holds no model, no parser and no library, so it is not initialised. */
    constructor (imported: Option<Library>, numTokens: string -> Option<nat>)
      ensures llm == None && !parser && tiktoken == None && invocations == []
      ensures this.imported == imported && this.numTokens == numTokens
      ensures !IsInitialized()
    {
      llm := None;
      parser := false;
      tiktoken := None;
      this.imported := imported;
      this.numTokens := numTokens;
      invocations := [];
    }

    /** `isInitialized()`: a model and a parser are both present. */
    predicate IsInitialized()
      reads this
    {
      llm.Some? && parser
    }

    /**
     * `initialize()`. Without an API key nothing changes. Otherwise the
     * model is built, `None` when its constructor throws, which leaves
     * everything as it was; once built, the parser is set too.
     */
    method Initialize(hasApiKey: bool, built: Option<Llm>)
      modifies this`llm, this`parser
      ensures !hasApiKey || built.None? ==> llm == old(llm) && parser == old(parser)
      ensures hasApiKey && built.Some? ==> llm == built && parser && IsInitialized()
    {
      if hasApiKey {
        if built.Some? {
          llm := built;
          parser := true;
        }
      }
    }

    /**
     * `tuneSettings(settings)`, given `settings.maxTokens`: only an
     * initialised manager with a truthy value changes, and only the model's
     * `maxTokens`.
     */
    method TuneSettings(maxTokens: JsValue)
      modifies this`llm
      ensures !old(IsInitialized()) || !Truthy(maxTokens) ==> llm == old(llm)
      ensures old(IsInitialized()) && Truthy(maxTokens) ==> llm == Some(old(llm).value.(maxTokens := maxTokens))
      ensures IsInitialized() == old(IsInitialized())
    {
      if !IsInitialized() {
        return;
      }
      if !Truthy(maxTokens) {
        return;
      }
      llm := Some(llm.value.(maxTokens := maxTokens));
    }

    /**
     * `executeMessages(messages)`: `null` without a call when not
     * initialised; otherwise the model is invoked once, and `null` stands in
     * for a falsy response or a falsy parse.
     */
    method ExecuteMessages(messages: seq<LangMessage>, invoke: (Llm, seq<LangMessage>) -> JsValue,
                           parse: JsValue -> JsValue) returns (r: JsValue)
      modifies this`invocations
      ensures !IsInitialized() ==> r == Null && invocations == old(invocations)
      ensures IsInitialized() ==> invocations == old(invocations) + [(llm.value, messages)]
      ensures IsInitialized() ==> r == Executed(invoke(llm.value, messages), parse)
    {
      if !IsInitialized() {
        r := Null;
      } else {
        invocations := invocations + [(llm.value, messages)];
        var response := invoke(llm.value, messages);
        if !Truthy(response) {
          r := Null;
        } else {
          var parsedResponse := parse(response);
          if !Truthy(parsedResponse) {
            r := Null;
          } else {
            r := parsedResponse;
          }
        }
      }
    }

    /** The counting of `getTokenCount` once `initializeTiktoken` has run on the cache. */
    function Counting(cache: Option<Library>): Counter
      reads this
    {
      Counter(Loaded(cache, imported), IsInitialized(), numTokens)
    }

    /** `initializeTiktoken()`: once a library is loaded, every later call returns that same library. */
    method InitializeTiktoken() returns (lib: Option<Library>)
      modifies this`tiktoken
      ensures tiktoken == Loaded(old(tiktoken), imported) && lib == tiktoken
      ensures old(tiktoken).Some? ==> lib == old(tiktoken)
    {
      if tiktoken.Some? {
        lib := tiktoken;
      } else {
        if imported.Some? {
          tiktoken := imported;
        }
        lib := tiktoken;
      }
    }

    /** `getTokenCount(text)`: the library's count, else, when initialised, the model's, else `ceil(length / 4)`. */
    method GetTokenCount(text: string) returns (n: nat)
      modifies this`tiktoken
      ensures tiktoken == Loaded(old(tiktoken), imported)
      ensures n == Count(Counting(old(tiktoken)), text)
    {
      var lib := InitializeTiktoken();
      if lib.Some? {
        n := lib.value.encode(text);
      } else if !IsInitialized() {
        n := CeilDiv4(|text|);
      } else {
        var result := numTokens(text);
        if result.Some? {
          n := result.value;
        } else {
          n := CeilDiv4(|text|);
        }
      }
    }

    /** `chunkText(text, maxTokens)`. */
    method ChunkText(text: string, budget: nat) returns (chunks: seq<string>)
      modifies this`tiktoken
      ensures tiktoken == Loaded(old(tiktoken), imported)
      ensures chunks == Chunks(text, Counting(old(tiktoken)), budget)
    {
      var words := Split(text, " ");
      ghost var c := Counting(old(tiktoken));
      chunks := [];
      var currentChunk := "";
      var i := 0;
      while i < |words|
        invariant 0 <= i <= |words| && words == Words(text)
        invariant Counting(tiktoken) == c
        invariant i > 0 ==> tiktoken == Loaded(old(tiktoken), imported)
        invariant FeedAll(words[..i], c, budget) == Chunking(chunks, currentChunk)
      {
        var word := words[i];
        var testChunk := currentChunk + (if currentChunk != "" then " " else "") + word;
        var tokenCount := GetTokenCount(testChunk);
        if tokenCount > budget && currentChunk != "" {
          chunks := chunks + [currentChunk];
          currentChunk := word;
        } else {
          currentChunk := testChunk;
        }
        assert words[..i + 1][..i] == words[..i];
        i := i + 1;
      }
      assert words[..i] == words;
      if currentChunk != "" {
        chunks := chunks + [currentChunk];
      }
    }
  }

  /** The result of an invocation that was made: a falsy response or parse becomes `null`. */
  function Executed(response: JsValue, parse: JsValue -> JsValue): JsValue {
    if !Truthy(response) then Null
    else if !Truthy(parse(response)) then Null
    else parse(response)
  }

  /** `executeMessages` never yields a falsy value other than `null`, and yields the parse whenever that is truthy. */
  lemma ExecutedNullOrTruthy(response: JsValue, parse: JsValue -> JsValue)
    ensures var r := Executed(response, parse);
      (r == Null || Truthy(r)) && (r != Null ==> r == parse(response))
    ensures Truthy(response) && Truthy(parse(response)) ==> Executed(response, parse) == parse(response)
  {
  }
}
