/**
 * The server's request handling: `/api/token-count`, and `/api/chat`, which
 * checks the request, picks the guard rail of its prompt type, estimates
 * whether the input fits the model's context, and then makes one call, or
 * one call per chunk of the input and a consolidation call, or one call on
 * the first chunk only.
 *
 * The model and its parser are an oracle: a call, with the messages and the
 * settings the model holds when it is invoked, gives the parsed text, or
 * `None` when invoking or parsing throws. The server records every call.
 */
module Handler {
  import opened Wrappers
  import opened Strings
  import opened Prompts
  import opened History
  import opened Tokens
  import opened GuardRails
  import opened Replies

  /** LangChain's messages; `SystemMessage` is imported under the name `AssistantMessage`. */
  datatype LangMessage = HumanMessage(content: string) | AssistantMessage(content: string)

  /** An `llm.invoke(messages)`, with the settings the model holds at that moment. */
  datatype ModelCall = ModelCall(messages: seq<LangMessage>, temperature: real, maxTokens: int, seed: int)

  const PreviousResponse: string := "Previous assistant response: "
  const TooLongNote: string := "\n\nNOTE: This document was too long, so only the first section is being processed."
  const ConsolidateLead: string := "Consolidate these keyword lists into the top 10 keywords:\n\n"
  const KeywordSeparator: string := "\n\n---\n\n"

  const ContextLimit: nat := 16000
  const ResponseBuffer: nat := 500
  const ChunkLimit: nat := 12000
  const ChunkMaxTokens: nat := 120
  const ConsolidationMaxTokens: nat := 200
  const DefaultSeed: nat := 42
  const DefaultMaxTokens: nat := 1000

  // ---------------------------------------------------------------------------
  // Messages

  /** A history entry as the model sees it: a human entry as it is, any other as a previous answer. */
  function HistoryMessage(m: Message): LangMessage {
    if m.role == Human then HumanMessage(m.content) else AssistantMessage(PreviousResponse + m.content)
  }

  function HistoryMessages(history: seq<Message>): (r: seq<LangMessage>)
    ensures |r| == |history|
    ensures forall i :: 0 <= i < |history| ==> r[i] == HistoryMessage(history[i])
  {
    seq(|history|, i requires 0 <= i < |history| => HistoryMessage(history[i]))
  }

  /** The instruction, the history in order, then the content. */
  function Conversation(prompt: string, history: seq<Message>, content: string): seq<LangMessage> {
    [AssistantMessage(prompt)] + HistoryMessages(history) + [HumanMessage(content)]
  }

  /** The history entry a history message was built from. */
  function Recovered(m: LangMessage): Message {
    match m
    case HumanMessage(c) => Message(Human, c)
    case AssistantMessage(c) =>
      Message(Assistant, if |PreviousResponse| <= |c| then c[|PreviousResponse|..] else c)
  }

  /**
   * The messages between the instruction and the content give the history
   * back, entry for entry and in order: nothing is dropped, reordered or
   * altered beyond the prefix of the assistant entries.
   */
  lemma ConversationKeepsHistory(prompt: string, history: seq<Message>, content: string)
    ensures var r := Conversation(prompt, history, content);
      |r| == |history| + 2 && r[0] == AssistantMessage(prompt) && r[|r| - 1] == HumanMessage(content) &&
      forall i :: 1 <= i < |r| - 1 ==> Recovered(r[i]) == history[i - 1]
  {
    var r := Conversation(prompt, history, content);
    forall i | 1 <= i < |r| - 1
      ensures Recovered(r[i]) == history[i - 1]
    {
      assert r[i] == HistoryMessage(history[i - 1]);
      if history[i - 1].role != Human {
        assert (PreviousResponse + history[i - 1].content)[|PreviousResponse|..] == history[i - 1].content;
      }
    }
  }

  // ---------------------------------------------------------------------------
  // The calls of each path

  /** The note appended to the instruction of chunk `i` of `n`. */
  function ChunkNote(prompt: string, i: nat, n: nat): string {
    prompt + " This is chunk " + NatToString(i + 1) + " of " + NatToString(n) + ". Extract keywords from this section only."
  }

  /** The call on chunk `i`: 120 tokens, the rail's temperature and seed (`|| 0.0`, `|| 42`). */
  function ChunkCall(g: GuardRail, chunks: seq<string>, i: nat): ModelCall
    requires i < |chunks|
  {
    ModelCall([AssistantMessage(ChunkNote(g.assistantPrompt, i, |chunks|)), HumanMessage(chunks[i])],
      g.temperature, ChunkMaxTokens, if g.seed != 0 then g.seed else DefaultSeed)
  }

  function ChunkCalls(g: GuardRail, chunks: seq<string>): (r: seq<ModelCall>)
    ensures |r| == |chunks| && forall i :: 0 <= i < |chunks| ==> r[i] == ChunkCall(g, chunks, i)
  {
    seq(|chunks|, i requires 0 <= i < |chunks| => ChunkCall(g, chunks, i))
  }

  /** The consolidation call over the chunks' keyword lists. */
  function ConsolidationCall(parts: seq<string>): ModelCall {
    ModelCall([AssistantMessage(ConsolidationPrompt), HumanMessage(ConsolidateLead + Join(parts, KeywordSeparator))],
      0.0, ConsolidationMaxTokens, DefaultSeed)
  }

  /** The call on the first chunk: the rail's temperature and tokens, and the seed the model already holds. */
  function FirstChunkCall(g: GuardRail, history: seq<Message>, first: string, seed: int): ModelCall {
    ModelCall(Conversation(g.assistantPrompt + TooLongNote, history, first), g.temperature, g.maxTokens, seed)
  }

  /** The call on the whole message, with all of the rail's settings. */
  function WholeCall(g: GuardRail, history: seq<Message>, message: string): ModelCall {
    ModelCall(Conversation(g.assistantPrompt, history, message), g.temperature, g.maxTokens, g.seed)
  }

  /** The answers to the calls in order, or `None` when one of them fails. */
  function Answers(calls: seq<ModelCall>, model: ModelCall -> Option<string>): Option<seq<string>>
    decreases |calls|
  {
    if calls == [] then Some([])
    else match Answers(calls[..|calls| - 1], model)
      case None => None
      case Some(prev) =>
        match model(calls[|calls| - 1])
        case None => None
        case Some(a) => Some(prev + [a])
  }

  /** The calls made in order until the first failure, that one included. */
  function Attempted(calls: seq<ModelCall>, model: ModelCall -> Option<string>): seq<ModelCall>
    decreases |calls|
  {
    if calls == [] then []
    else if Answers(calls[..|calls| - 1], model).Some? then calls
    else Attempted(calls[..|calls| - 1], model)
  }

  /** The calls all answered exactly when each did, and the answers come in the calls' order. */
  lemma {:induction false} AnswersInOrder(calls: seq<ModelCall>, model: ModelCall -> Option<string>)
    ensures Answers(calls, model).Some? <==> forall i :: 0 <= i < |calls| ==> model(calls[i]).Some?
    ensures Answers(calls, model).Some? ==>
      |Answers(calls, model).value| == |calls| &&
      forall i :: 0 <= i < |calls| ==> Answers(calls, model).value[i] == model(calls[i]).value
    decreases |calls|
  {
    if calls != [] {
      var prev := calls[..|calls| - 1];
      AnswersInOrder(prev, model);
      assert forall i :: 0 <= i < |prev| ==> prev[i] == calls[i];
    }
  }

  /** Calls that each answered give their answers, in order. */
  lemma {:induction false} AllAnswered(calls: seq<ModelCall>, model: ModelCall -> Option<string>, parts: seq<string>)
    requires |parts| == |calls| && forall i :: 0 <= i < |calls| ==> model(calls[i]) == Some(parts[i])
    ensures Answers(calls, model) == Some(parts)
    decreases |calls|
  {
    if calls != [] {
      var n := |calls| - 1;
      assert forall i :: 0 <= i < n ==> calls[..n][i] == calls[i];
      AllAnswered(calls[..n], model, parts[..n]);
      assert parts == parts[..n] + [parts[n]];
    }
  }

  /** When every call answered, all of them were made. */
  lemma AllAttempted(calls: seq<ModelCall>, model: ModelCall -> Option<string>)
    requires Answers(calls, model).Some?
    ensures Attempted(calls, model) == calls
  {
  }

  /** One more call: the answers grow by its answer, and it is made unless an earlier call failed. */
  lemma AnswersStep(calls: seq<ModelCall>, model: ModelCall -> Option<string>, i: nat)
    requires i < |calls|
    ensures Answers(calls[..i], model).Some? && model(calls[i]).Some? ==>
      Answers(calls[..i + 1], model) == Some(Answers(calls[..i], model).value + [model(calls[i]).value])
    ensures Answers(calls[..i], model).None? || model(calls[i]).None? ==> Answers(calls[..i + 1], model).None?
    ensures Answers(calls[..i], model).Some? ==> Attempted(calls[..i + 1], model) == calls[..i + 1]
  {
    assert calls[..i + 1][..i] == calls[..i];
  }

  /** The next call after calls that all answered is made, and extends the answers by its own. */
  lemma NextCall(calls: seq<ModelCall>, model: ModelCall -> Option<string>, i: nat)
    requires i < |calls| && Answers(calls[..i], model).Some?
    ensures Attempted(calls[..i + 1], model) == Attempted(calls[..i], model) + [calls[i]]
    ensures model(calls[i]).Some? ==>
      Answers(calls[..i + 1], model) == Some(Answers(calls[..i], model).value + [model(calls[i]).value])
    ensures model(calls[i]).None? ==> Answers(calls[..i + 1], model).None?
  {
    AllAttempted(calls[..i], model);
    AnswersStep(calls, model, i);
    assert calls[..i + 1] == calls[..i] + [calls[i]];
  }

  /** After a failure no further call is made, and the run fails. */
  lemma {:induction false} FailureStops(calls: seq<ModelCall>, model: ModelCall -> Option<string>, i: nat)
    requires i <= |calls| && Answers(calls[..i], model).None?
    ensures Answers(calls, model).None? && Attempted(calls, model) == Attempted(calls[..i], model)
    decreases |calls| - i
  {
    if i < |calls| {
      assert calls[..i + 1][..i] == calls[..i];
      FailureStops(calls, model, i + 1);
    } else {
      assert calls[..i] == calls;
    }
  }

  /**
   * A failed run made the calls up to the first that failed: a prefix of the
   * calls whose last one failed and whose others all answered.
   */
  lemma {:induction false} AttemptedUntilFailure(calls: seq<ModelCall>, model: ModelCall -> Option<string>)
    requires Answers(calls, model).None?
    ensures var a := Attempted(calls, model);
      a != [] && a <= calls && model(a[|a| - 1]).None? && Answers(a[..|a| - 1], model).Some?
    decreases |calls|
  {
    var prev := calls[..|calls| - 1];
    if Answers(prev, model).None? {
      AttemptedUntilFailure(prev, model);
    }
  }

  /** The calls a path makes and the text it ends with, `None` when something threw. */
  datatype Run = Run(calls: seq<ModelCall>, answer: Option<string>)

  /** One call per chunk, then, when all of them answered, the consolidation of their answers. */
  function KeywordRun(g: GuardRail, chunks: seq<string>, model: ModelCall -> Option<string>): Run {
    var cs := ChunkCalls(g, chunks);
    match Answers(cs, model)
    case None => Run(Attempted(cs, model), None)
    case Some(parts) => Run(cs + [ConsolidationCall(parts)], model(ConsolidationCall(parts)))
  }

  /** The keyword path calls the model on the chunks in order, each with 120 tokens and the note `chunk i+1 of n`. */
  lemma KeywordChunkCalls(g: GuardRail, chunks: seq<string>, model: ModelCall -> Option<string>)
    ensures var run := KeywordRun(g, chunks, model);
      forall i :: 0 <= i < |run.calls| && i < |chunks| ==>
        run.calls[i].maxTokens == ChunkMaxTokens &&
        run.calls[i].messages == [AssistantMessage(ChunkNote(g.assistantPrompt, i, |chunks|)), HumanMessage(chunks[i])]
  {
    var cs := ChunkCalls(g, chunks);
    if Answers(cs, model).None? {
      AttemptedUntilFailure(cs, model);
    }
  }

  lemma ChunksAllAnswered(g: GuardRail, chunks: seq<string>, model: ModelCall -> Option<string>, parts: seq<string>)
    requires |parts| == |chunks| && forall i :: 0 <= i < |chunks| ==> model(ChunkCall(g, chunks, i)) == Some(parts[i])
    ensures Answers(ChunkCalls(g, chunks), model) == Some(parts)
  {
    var cs := ChunkCalls(g, chunks);
    forall i | 0 <= i < |cs|
      ensures model(cs[i]) == Some(parts[i])
    {
      assert cs[i] == ChunkCall(g, chunks, i);
    }
    AllAnswered(cs, model, parts);
  }

  /**
   * When every chunk answered, exactly one more call follows: the
   * consolidation, at temperature 0 with 200 tokens and seed 42, on the
   * answers in chunk order joined by the separator; its answer is the path's.
   */
  lemma KeywordConsolidation(g: GuardRail, chunks: seq<string>, model: ModelCall -> Option<string>, parts: seq<string>)
    requires |parts| == |chunks| && forall i :: 0 <= i < |chunks| ==> model(ChunkCall(g, chunks, i)) == Some(parts[i])
    ensures var run := KeywordRun(g, chunks, model);
      |run.calls| == |chunks| + 1 && run.calls[|chunks|] == ConsolidationCall(parts) && run.answer == model(run.calls[|chunks|])
  {
    ChunksAllAnswered(g, chunks, model, parts);
    var cs := ChunkCalls(g, chunks);
    assert KeywordRun(g, chunks, model) == Run(cs + [ConsolidationCall(parts)], model(ConsolidationCall(parts)));
  }

  /** When a chunk fails, the path fails and its calls stop at the first chunk that failed. */
  lemma KeywordFailure(g: GuardRail, chunks: seq<string>, model: ModelCall -> Option<string>, k: nat)
    requires k < |chunks| && model(ChunkCall(g, chunks, k)).None?
    ensures var run := KeywordRun(g, chunks, model);
      run.answer.None? && 0 < |run.calls| <= k + 1 && model(run.calls[|run.calls| - 1]).None?
  {
    var cs := ChunkCalls(g, chunks);
    AnswersInOrder(cs, model);
    AttemptedUntilFailure(cs, model);
    var a := Attempted(cs, model);
    AnswersInOrder(a[..|a| - 1], model);
    assert forall i :: 0 <= i < |a| - 1 ==> model(cs[i]).Some? by {
      forall i | 0 <= i < |a| - 1
        ensures model(cs[i]).Some?
      {
        assert a[..|a| - 1][i] == cs[i];
      }
    }
    assert cs[k] == ChunkCall(g, chunks, k);
  }

  /** The first chunk alone; with no chunk, `new HumanMessage(undefined)` throws before any call. */
  function FirstChunkRun(g: GuardRail, history: seq<Message>, chunks: seq<string>, seed: int,
                         model: ModelCall -> Option<string>): Run {
    if chunks == [] then Run([], None)
    else Run([FirstChunkCall(g, history, chunks[0], seed)], model(FirstChunkCall(g, history, chunks[0], seed)))
  }

  /** The estimate that decides the chunked paths. */
  predicate Oversized(messageTokens: nat, promptTokens: nat) {
    messageTokens + promptTokens + ResponseBuffer > ContextLimit
  }

  /** `promptType.toLowerCase().includes('keywords')`. */
  predicate KeywordType(promptType: string) {
    Contains(Lower(promptType), "keywords")
  }

  /**
   * The debug logging before the whole-message call reads
   * `guardRail.LLM.Prompt` for an exact contextual question. No rail has an
   * `LLM` field, so for that type the read throws before any call.
   */
  predicate LoggerThrows(promptType: Option<string>) {
    promptType == Some(DocumentContextualQuestionExactly)
  }

  /**
   * The path of a valid message: the whole message when it fits (except for
   * the type on which the debug logging throws), else, for a present prompt
   * type (an absent one has no `toLowerCase`), the keyword chunks or the
   * first chunk.
   */
  function Plan(message: string, promptType: Option<string>, history: seq<Message>, c: Counter, seed: int,
                model: ModelCall -> Option<string>): Run {
    var g := PromptSettings(promptType);
    if !Oversized(Count(c, message), Count(c, g.assistantPrompt)) then
      if LoggerThrows(promptType) then Run([], None)
      else Run([WholeCall(g, history, message)], model(WholeCall(g, history, message)))
    else if promptType.None? then Run([], None)
    else if KeywordType(promptType.value) then KeywordRun(g, Chunks(message, c, ChunkLimit), model)
    else FirstChunkRun(g, history, Chunks(message, c, ChunkLimit), seed, model)
  }

  /**
   * The path as evidently intended, with debug logging that does not throw:
   * a message that fits is sent whole whatever its type.
   */
  function IntendedPlan(message: string, promptType: Option<string>, history: seq<Message>, c: Counter, seed: int,
                        model: ModelCall -> Option<string>): Run {
    var g := PromptSettings(promptType);
    if !Oversized(Count(c, message), Count(c, g.assistantPrompt)) then
      Run([WholeCall(g, history, message)], model(WholeCall(g, history, message)))
    else Plan(message, promptType, history, c, seed, model)
  }

  /** The two paths part only on a fitting exact contextual question. */
  lemma PlanAsIntended(message: string, promptType: Option<string>, history: seq<Message>, c: Counter, seed: int,
                       model: ModelCall -> Option<string>)
    ensures var g := PromptSettings(promptType);
      Plan(message, promptType, history, c, seed, model) != IntendedPlan(message, promptType, history, c, seed, model) <==>
      LoggerThrows(promptType) && !Oversized(Count(c, message), Count(c, g.assistantPrompt))
  {
  }

  /** As intended, a message that fits is sent whole, in one call, with all of the rail's settings. */
  lemma IntendedWholeMessage(message: string, promptType: Option<string>, history: seq<Message>, c: Counter, seed: int,
                             model: ModelCall -> Option<string>)
    requires !Oversized(Count(c, message), Count(c, PromptSettings(promptType).assistantPrompt))
    ensures var run := IntendedPlan(message, promptType, history, c, seed, model);
      var g := PromptSettings(promptType);
      |run.calls| == 1 && run.calls[0].messages == Conversation(g.assistantPrompt, history, message) &&
      run.calls[0].maxTokens == g.maxTokens && run.calls[0].temperature == g.temperature &&
      run.calls[0].seed == g.seed && run.answer == model(run.calls[0])
  {
  }

  // ---------------------------------------------------------------------------
  // Requests and responses

  /** `request.body` of `/api/chat`; an absent history defaults to `[]`. */
  datatype ChatBody = ChatBody(message: JsValue, promptType: Option<string>, history: seq<Message>)

  datatype ChatResponse =
    | ChatError(status: nat, error: string)
    | ChatAnswer(response: string)   // status 200

  datatype TokenResponse =
    | TokenError(status: nat, error: string)
    | TokenCount(tokenCount: nat, countMethod: string, textLength: nat)   // status 200; `method` in the body

  const ChatUnavailable: string := "Chat service not available. Please check server configuration."
  const MessageRequired: string := "Message is required"
  const ProcessingError: string := "An error occurred while processing your request"
  const CountUnavailable: string := "Token counting service not available. Please check server configuration."
  const TextRequired: string := "Text is required"
  const CountMethod: string := "langchain-tiktoken"

  /** `!text || typeof text !== 'string'` fails. */
  predicate NonEmptyString(v: JsValue) {
    v.Str? && v.s != ""
  }

  /**
   * The response of a run: its text, or the generic error of the `catch`.
   * The parser gives a string, which the clean-up keeps as it is.
   */
  function Respond(run: Run): ChatResponse {
    match run.answer
    case Some(text) => ChatAnswer(text)
    case None => ChatError(500, ProcessingError)
  }

  /** The calls and the response of `/api/chat`. */
  datatype Outcome = Outcome(calls: seq<ModelCall>, response: ChatResponse)

  function Serve(body: ChatBody, ready: bool, c: Counter, seed: int, model: ModelCall -> Option<string>): Outcome {
    if !ready then Outcome([], ChatError(500, ChatUnavailable))
    else if !NonEmptyString(body.message) then Outcome([], ChatError(400, MessageRequired))
    else
      var run := Plan(body.message.s, body.promptType, body.history, c, seed, model);
      Outcome(run.calls, Respond(run))
  }

  /** A request is checked before any work: an unready service answers 500 and a missing message 400, with no call. */
  lemma ValidationFirst(body: ChatBody, ready: bool, c: Counter, seed: int, model: ModelCall -> Option<string>)
    ensures !ready ==> Serve(body, ready, c, seed, model) == Outcome([], ChatError(500, ChatUnavailable))
    ensures ready && !NonEmptyString(body.message) ==> Serve(body, ready, c, seed, model) == Outcome([], ChatError(400, MessageRequired))
    ensures Serve(body, ready, c, seed, model).calls != [] ==> ready && NonEmptyString(body.message)
  {
  }

  /**
   * A message that fits, of any type but the exact contextual question, is
   * sent whole: exactly one call, on the rail's instruction, the history in
   * order and the message, with all of the rail's settings; the reply is its
   * answer, or 500 when it throws.
   */
  lemma WholeMessage(body: ChatBody, c: Counter, seed: int, model: ModelCall -> Option<string>)
    requires NonEmptyString(body.message) && !LoggerThrows(body.promptType)
    requires !Oversized(Count(c, body.message.s), Count(c, PromptSettings(body.promptType).assistantPrompt))
    ensures var o := Serve(body, true, c, seed, model);
      var g := PromptSettings(body.promptType);
      |o.calls| == 1 && o.calls[0].messages == Conversation(g.assistantPrompt, body.history, body.message.s) &&
      o.calls[0].maxTokens == g.maxTokens && o.calls[0].temperature == g.temperature && o.calls[0].seed == g.seed &&
      (o.response.ChatAnswer? <==> model(o.calls[0]).Some?) &&
      (o.response.ChatAnswer? ==> o.response.response == model(o.calls[0]).value)
  {
  }

  /**
   * An exact contextual question that fits is never sent: the debug logging
   * throws first, and the reply is the generic 500.
   */
  lemma ExactQuestionFails(body: ChatBody, c: Counter, seed: int, model: ModelCall -> Option<string>)
    requires NonEmptyString(body.message) && LoggerThrows(body.promptType)
    requires !Oversized(Count(c, body.message.s), Count(c, PromptSettings(body.promptType).assistantPrompt))
    ensures Serve(body, true, c, seed, model) == Outcome([], ChatError(500, ProcessingError))
  {
  }

  /**
   * Oversized input of a type that is not a keyword type sends only the
   * first chunk, after the instruction with the note and the history, with
   * the seed the model already holds; without a chunk nothing is sent.
   */
  lemma FirstChunkOnly(body: ChatBody, c: Counter, seed: int, model: ModelCall -> Option<string>)
    requires NonEmptyString(body.message) && body.promptType.Some? && !KeywordType(body.promptType.value)
    requires Oversized(Count(c, body.message.s), Count(c, PromptSettings(body.promptType).assistantPrompt))
    ensures var o := Serve(body, true, c, seed, model);
      var g := PromptSettings(body.promptType);
      var chunks := Chunks(body.message.s, c, ChunkLimit);
      |o.calls| <= 1 && (chunks == [] ==> o == Outcome([], ChatError(500, ProcessingError))) &&
      (chunks != [] ==>
        |o.calls| == 1 &&
        o.calls[0].messages == Conversation(g.assistantPrompt + TooLongNote, body.history, chunks[0]) &&
        o.calls[0].maxTokens == g.maxTokens && o.calls[0].seed == seed)
  {
  }

  /** Oversized input without a prompt type fails on `toLowerCase` before chunking: 500 and no call. */
  lemma OversizedWithoutType(body: ChatBody, c: Counter, seed: int, model: ModelCall -> Option<string>)
    requires NonEmptyString(body.message) && body.promptType.None?
    requires Oversized(Count(c, body.message.s), Count(c, PromptSettings(None).assistantPrompt))
    ensures Serve(body, true, c, seed, model) == Outcome([], ChatError(500, ProcessingError))
  {
  }

  // ---------------------------------------------------------------------------
  // The server

  /**
   * The module-level state of `handler.js`: whether `initializeLangChain`
   * succeeded, the cached `tiktoken` library, the settings of `llm`, and
   * the calls made so far.
   */
  class ChatServer {
    /** `langChainReady && llm`: there is an API key and the model was built. */
    const ready: bool
    /** What `import('js-tiktoken')` gives, `None` when it fails. */
    const imported: Option<Library>
    /** `llm.getNumTokens`, `None` when it fails or times out. */
    const numTokens: string -> Option<nat>
    var tiktoken: Option<Library>
    var temperature: real
    var maxTokens: int
    var seed: int
    var calls: seq<ModelCall>

    /**
     * `initializeLangChain()` at start-up. `built` says whether
     * `new ChatOpenAI(...)` returned rather than threw into the `catch`. The
     * environment's temperature is given after `|| 0.0`; its maximum is the
     * result of `parseInt`, `None` for `NaN`, and `|| 1000` replaces it when
     * it is not a non-zero number.
     */
    constructor (hasApiKey: bool, built: bool, envTemperature: real, envMaxTokens: Option<int>,
                 imported: Option<Library>, numTokens: string -> Option<nat>)
      ensures this.ready == (hasApiKey && built) && this.imported == imported && this.numTokens == numTokens
      ensures tiktoken == None && calls == [] && temperature == envTemperature && seed == DefaultSeed
      ensures envMaxTokens.Some? && envMaxTokens.value != 0 ==> maxTokens == envMaxTokens.value
      ensures envMaxTokens.None? || envMaxTokens.value == 0 ==> maxTokens == DefaultMaxTokens
    {
      ready := hasApiKey && built;
      this.imported := imported;
      this.numTokens := numTokens;
      tiktoken := None;
      temperature := envTemperature;
      maxTokens := if envMaxTokens.Some? && envMaxTokens.value != 0 then envMaxTokens.value else DefaultMaxTokens;
      seed := DefaultSeed;
      calls := [];
    }

    /** The counting of `getTokenCount` once `initializeTiktoken` has run on the cache. */
    function Counting(cache: Option<Library>): Counter {
      Counter(Loaded(cache, imported), ready, numTokens)
    }

    /** The model holds the settings of the last call made. */
    predicate Settled()
      reads this
    {
      calls != [] && temperature == calls[|calls| - 1].temperature &&
      maxTokens == calls[|calls| - 1].maxTokens && seed == calls[|calls| - 1].seed
    }

    /** `initializeTiktoken()`: the cached library, else the import's, kept when it loads. */
    method InitializeTiktoken() returns (lib: Option<Library>)
      modifies this`tiktoken
      ensures tiktoken == Loaded(old(tiktoken), imported) && lib == tiktoken
    {
      if tiktoken.Some? {
        lib := tiktoken;
      } else {
        if imported.Some? {
          tiktoken := imported;
        }
        lib := tiktoken;
      }
    }

    /** `getTokenCount(text)`. */
    method GetTokenCount(text: string) returns (n: nat)
      modifies this`tiktoken
      ensures tiktoken == Loaded(old(tiktoken), imported)
      ensures n == Count(Counting(old(tiktoken)), text)
    {
      var lib := InitializeTiktoken();
      if lib.Some? {
        n := lib.value.encode(text);
      } else if !ready {
        n := CeilDiv4(|text|);
      } else {
        var result := numTokens(text);
        if result.Some? {
          n := result.value;
        } else {
          n := CeilDiv4(|text|);
        }
      }
    }

    /** `chunkText(text, maxTokens)`. */
    method ChunkText(text: string, budget: nat) returns (chunks: seq<string>)
      modifies this`tiktoken
      ensures tiktoken == Loaded(old(tiktoken), imported)
      ensures chunks == Chunks(text, Counting(old(tiktoken)), budget)
    {
      var words := Split(text, " ");
      ghost var c := Counting(old(tiktoken));
      chunks := [];
      var currentChunk := "";
      var i := 0;
      while i < |words|
        invariant 0 <= i <= |words| && words == Words(text)
        invariant Counting(tiktoken) == c
        invariant i > 0 ==> tiktoken == Loaded(old(tiktoken), imported)
        invariant FeedAll(words[..i], c, budget) == Chunking(chunks, currentChunk)
      {
        var word := words[i];
        var testChunk := currentChunk + (if currentChunk != "" then " " else "") + word;
        var tokenCount := GetTokenCount(testChunk);
        if tokenCount > budget && currentChunk != "" {
          chunks := chunks + [currentChunk];
          currentChunk := word;
        } else {
          currentChunk := testChunk;
        }
        assert words[..i + 1][..i] == words[..i];
        i := i + 1;
      }
      assert words[..i] == words;
      if currentChunk != "" {
        chunks := chunks + [currentChunk];
      }
    }

    /** `llm.invoke(messages)` and `parser.parse`, with the settings the model holds. */
    method Invoke(messages: seq<LangMessage>, model: ModelCall -> Option<string>) returns (r: Option<string>)
      modifies this`calls
      ensures calls == old(calls) + [ModelCall(messages, temperature, maxTokens, seed)]
      ensures r == model(ModelCall(messages, temperature, maxTokens, seed)) && Settled()
    {
      calls := calls + [ModelCall(messages, temperature, maxTokens, seed)];
      r := model(ModelCall(messages, temperature, maxTokens, seed));
    }

    /** `/api/token-count`. */
    method CountTokens(text: JsValue) returns (resp: TokenResponse)
      modifies this`tiktoken
      ensures !ready ==> resp == TokenError(500, CountUnavailable) && tiktoken == old(tiktoken)
      ensures ready && !NonEmptyString(text) ==> resp == TokenError(400, TextRequired) && tiktoken == old(tiktoken)
      ensures ready && NonEmptyString(text) ==>
        resp == TokenCount(Count(Counting(old(tiktoken)), text.s), CountMethod, |text.s|)
    {
      if !ready {
        resp := TokenError(500, CountUnavailable);
      } else if !NonEmptyString(text) {
        resp := TokenError(400, TextRequired);
      } else {
        var tokenCount := GetTokenCount(text.s);
        resp := TokenCount(tokenCount, CountMethod, |text.s|);
      }
    }
    /** The body of the chunk loop: the settings for chunk `i`, then its call. */
    method CallOnChunk(chunks: seq<string>, g: GuardRail, i: nat, model: ModelCall -> Option<string>)
      returns (chunkContent: Option<string>)
      requires i < |chunks|
      modifies this`temperature, this`maxTokens, this`seed, this`calls
      ensures calls == old(calls) + [ChunkCall(g, chunks, i)] && Settled()
      ensures chunkContent == model(ChunkCall(g, chunks, i))
    {
      var chunkMessages := [AssistantMessage(ChunkNote(g.assistantPrompt, i, |chunks|)), HumanMessage(chunks[i])];
      temperature := if g.temperature != 0.0 then g.temperature else 0.0;
      maxTokens := ChunkMaxTokens;
      seed := if g.seed != 0 then g.seed else DefaultSeed;
      chunkContent := Invoke(chunkMessages, model);
    }

    /** The calls on the chunks, in order, until one fails. */
    method ChunkAnswers(chunks: seq<string>, g: GuardRail, model: ModelCall -> Option<string>)
      returns (allKeywords: seq<string>, failed: bool)
      modifies this`temperature, this`maxTokens, this`seed, this`calls
      ensures calls == old(calls) + Attempted(ChunkCalls(g, chunks), model)
      ensures failed <==> Answers(ChunkCalls(g, chunks), model).None?
      ensures !failed ==> Answers(ChunkCalls(g, chunks), model) == Some(allKeywords)
      ensures chunks != [] ==> |calls| > |old(calls)| && Settled()
    {
      ghost var cs := ChunkCalls(g, chunks);
      allKeywords := [];
      failed := false;
      var i := 0;
      while i < |chunks| && !failed
        invariant 0 <= i <= |chunks|
        invariant calls == old(calls) + Attempted(cs[..i], model)
        invariant failed ==> Answers(cs[..i], model).None?
        invariant !failed ==> Answers(cs[..i], model) == Some(allKeywords)
        invariant i > 0 ==> |calls| > |old(calls)| && Settled()
      {
        NextCall(cs, model, i);
        var chunkContent := CallOnChunk(chunks, g, i, model);
        if chunkContent.Some? {
          allKeywords := allKeywords + [chunkContent.value];
        }
        failed := chunkContent.None?;
        i := i + 1;
      }
      if failed {
        FailureStops(cs, model, i);
      } else {
        assert cs[..i] == cs;
      }
    }

    /** The keyword path: one call per chunk, in order, then the consolidation of their answers. */
    method KeywordAnswer(message: string, g: GuardRail, model: ModelCall -> Option<string>) returns (content: Option<string>)
      modifies this`tiktoken, this`temperature, this`maxTokens, this`seed, this`calls
      ensures tiktoken == Loaded(old(tiktoken), imported)
      ensures calls == old(calls) + KeywordRun(g, Chunks(message, Counting(old(tiktoken)), ChunkLimit), model).calls
      ensures content == KeywordRun(g, Chunks(message, Counting(old(tiktoken)), ChunkLimit), model).answer
      ensures |calls| > |old(calls)| && Settled()
    {
      var chunks := ChunkText(message, ChunkLimit);
      var allKeywords, failed := ChunkAnswers(chunks, g, model);
      if failed {
        content := None;
        AttemptedUntilFailure(ChunkCalls(g, chunks), model);
      } else {
        var consolidationMessages := [AssistantMessage(ConsolidationPrompt),
          HumanMessage(ConsolidateLead + Join(allKeywords, KeywordSeparator))];
        temperature := 0.0;
        maxTokens := ConsolidationMaxTokens;
        seed := DefaultSeed;
        AllAttempted(ChunkCalls(g, chunks), model);
        content := Invoke(consolidationMessages, model);
      }
    }

    /** The handling of a valid message, from the guard-rail lookup to the parsed answer. */
    method Answer(message: string, promptType: Option<string>, history: seq<Message>,
                  model: ModelCall -> Option<string>) returns (answer: Option<string>)
      modifies this`tiktoken, this`temperature, this`maxTokens, this`seed, this`calls
      ensures calls == old(calls) + Plan(message, promptType, history, Counting(old(tiktoken)), old(seed), model).calls
      ensures answer == Plan(message, promptType, history, Counting(old(tiktoken)), old(seed), model).answer
      ensures calls == old(calls) ==> temperature == old(temperature) && maxTokens == old(maxTokens) && seed == old(seed)
      ensures calls != old(calls) ==> Settled()
    {
      var promptSettings := PromptSettings(promptType);
      var messageTokens := GetTokenCount(message);
      var promptTokens := GetTokenCount(promptSettings.assistantPrompt);
      if messageTokens + promptTokens + ResponseBuffer > ContextLimit {
        if promptType.None? {
          // `undefined.toLowerCase()` throws.
          answer := None;
        } else if Contains(Lower(promptType.value), "keywords") {
          answer := KeywordAnswer(message, promptSettings, model);
        } else {
          var chunks := ChunkText(message, ChunkLimit);
          if chunks == [] {
            // `new HumanMessage(chunks[0])` throws on `undefined`.
            answer := None;
          } else {
            var messages := [AssistantMessage(promptSettings.assistantPrompt + TooLongNote)] +
              HistoryMessages(history) + [HumanMessage(chunks[0])];
            temperature := promptSettings.temperature;
            maxTokens := promptSettings.maxTokens;
            answer := Invoke(messages, model);
          }
        }
      } else if LoggerThrows(promptType) {
        // `logContextualQuestionDebug` counts the message, then throws on `guardRail.LLM`.
        var loggedTokens := GetTokenCount(message);
        answer := None;
      } else {
        var messages := [AssistantMessage(promptSettings.assistantPrompt)] + HistoryMessages(history) + [HumanMessage(message)];
        temperature := promptSettings.temperature;
        maxTokens := promptSettings.maxTokens;
        seed := promptSettings.seed;
        answer := Invoke(messages, model);
      }
    }

    /** `/api/chat`. */
    method Chat(body: ChatBody, model: ModelCall -> Option<string>) returns (resp: ChatResponse)
      modifies this`tiktoken, this`temperature, this`maxTokens, this`seed, this`calls
      ensures calls == old(calls) + Serve(body, ready, Counting(old(tiktoken)), old(seed), model).calls
      ensures resp == Serve(body, ready, Counting(old(tiktoken)), old(seed), model).response
      ensures calls == old(calls) ==> temperature == old(temperature) && maxTokens == old(maxTokens) && seed == old(seed)
      ensures calls != old(calls) ==> Settled()
      ensures !ready || !NonEmptyString(body.message) ==> tiktoken == old(tiktoken)
    {
      if !ready {
        resp := ChatError(500, ChatUnavailable);
      } else if !NonEmptyString(body.message) {
        resp := ChatError(400, MessageRequired);
      } else {
        var answer := Answer(body.message.s, body.promptType, body.history, model);
        match answer {
          case Some(text) => resp := ChatAnswer(text);
          case None => resp := ChatError(500, ProcessingError);
        }
      }
    }
  }
}
