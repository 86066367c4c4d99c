/**
 * The chat client: the history it keeps between requests and its options,
 * the request it sends for each question and what it does with the answer,
 * and the conversation log the chat bubbles are recorded in.
 *
 * The call to `/api/chat` is outside the model: each operation that sends a
 * request is given the reply to it as a parameter.
 */
module Chat {
  import opened Wrappers
  import opened Strings
  import opened Prompts
  import opened Links
  import opened Formatter
  import opened History
  import opened Dom
  import opened Panel

  /** What `fetch('/api/chat')` ends with. */
  datatype Reply =
    | Answer(response: string)  // an OK response whose body carries `response`
    | Status(status: int)       // a response that is not OK, with its status code
    | Failure(message: string)  // a rejected request or an unreadable body, by its error message

  /** The body of the request: `{ message, promptType, history }`. */
  datatype Request = Request(message: string, promptType: string, history: seq<Message>)

  const DefaultMaxTokens: nat := 8000
  const ExactMaxTokens: nat := 10000
  const HttpErrorPrefix: string := "HTTP error! status: "
  const ErrorPrefix: string := "Error: "
  /** The message of the `TypeError` thrown by reading `content` of a missing history entry. */
  const MissingEntry: string := "Cannot read properties of undefined (reading 'content')"

  /** The human history entry for a message sent with a prompt type: `${promptLine}: ${historyMessage}`. */
  function HumanEntry(promptLine: string, message: string): Message {
    Message(Human, promptLine + ": " + HistoryText(promptLine, message))
  }

  /** The error a reply that is not an answer is reported with. */
  function ReplyError(reply: Reply): string
    requires !reply.Answer?
  {
    match reply
    case Status(s) => HttpErrorPrefix + IntToString(s)
    case Failure(e) => e
  }

  /**
   * The history budget for a prompt type: `maxTokens || 8000`, raised to
   * 8000 for a type containing `DOCUMENT_`.
   */
  function Budget(maxTokens: nat, promptLine: string): (b: nat)
    ensures b > 0 && (b == maxTokens || b == DefaultMaxTokens)
    ensures maxTokens > 0 ==> b >= maxTokens
    ensures Contains(promptLine, DocumentPrefix) ==> b >= DefaultMaxTokens
    ensures !Contains(promptLine, DocumentPrefix) && maxTokens > 0 ==> b == maxTokens
  {
    var m := if maxTokens == 0 then DefaultMaxTokens else maxTokens;
    if Contains(promptLine, DocumentPrefix) && m < DefaultMaxTokens then DefaultMaxTokens else m
  }

  /** A `{ role, content }` entry of the conversation log; the role is `'human'`, `'assistant'` or `'system'`. */
  datatype Entry = Entry(role: string, content: string)

  /** The log of chat bubbles, `conversationLog`. */
  class ConversationLog {
    var entries: seq<Entry>

    constructor ()
      ensures entries == []
    {
      entries := [];
    }

    /** The log part of `createBubble(content, role)`: one entry at the end. */
    method CreateBubble(content: string, role: string)
      modifies this
      ensures entries == old(entries) + [Entry(role, content)]
    {
      entries := entries + [Entry(role, content)];
    }
  }

  class Chatbot {
    var messagesHistory: seq<Message>
    var useEmpty: bool
    var maxTokens: nat
    var skipUpdate: bool
    /** Unset until the first transfer of contextual questions. */
    var questionsContextuallySound: Option<seq<string>>

    constructor ()
      ensures messagesHistory == [] && !useEmpty && maxTokens == DefaultMaxTokens && !skipUpdate
      ensures questionsContextuallySound == None
    {
      messagesHistory := [];
      useEmpty := false;
      maxTokens := DefaultMaxTokens;
      skipUpdate := false;
      questionsContextuallySound := None;
    }

    /**
     * `sendMessage(promptLine, message)`: the request carries the message, the
     * prompt type and either no history (`useEmpty`) or the history trimmed to
     * the budget. An answer is returned and, unless `skipUpdate`, recorded as
     * two entries, the human one first; any other reply is an error and the
     * history stays as it was.
     */
    method SendMessage(promptLine: string, message: string, reply: Reply) returns (request: Request, r: Result<string, string>)
      modifies this`messagesHistory
      ensures request.message == message && request.promptType == promptLine
      ensures if useEmpty then request.history == [] else Trimmed(request.history, old(messagesHistory), Budget(maxTokens, promptLine))
      ensures reply.Answer? ==> r == Ok(reply.response)
      ensures !reply.Answer? ==> r == Err(ReplyError(reply))
      ensures messagesHistory ==
        if reply.Answer? && !skipUpdate
        then old(messagesHistory) + [HumanEntry(promptLine, message), Message(Assistant, reply.response)]
        else old(messagesHistory)
    {
      var budget := Budget(maxTokens, promptLine);
      var toSend: seq<Message> := [];
      if !useEmpty {
        toSend := TrimHistory(messagesHistory, budget);
      }
      request := Request(message, promptLine, toSend);
      match reply {
        case Answer(response) =>
          if !skipUpdate {
            messagesHistory := messagesHistory + [HumanEntry(promptLine, message), Message(Assistant, response)];
          }
          r := Ok(response);
        case Status(s) =>
          r := Err(HttpErrorPrefix + IntToString(s));
        case Failure(e) =>
          r := Err(e);
      }
    }

    /**
     * `transferContextualQuestions(questions)`: the parsed questions are kept,
     * bound to the slots, and the slots' elements regrouped.
     */
    method TransferContextualQuestions(questions: string, dom: Document, slots: seq<Slot>)
      requires Ready(dom, slots)
      modifies this`questionsContextuallySound, dom, Configs(slots)`content
      ensures questionsContextuallySound == Some(ParseQuestions(questions))
      ensures var plan := Plan(slots, ParseQuestions(questions));
        forall k {:trigger plan[k]} :: 0 <= k < |slots| ==>
          slots[k].config.content == if plan[k].Some? then plan[k].value else old(slots[k].config.content)
      ensures dom.Valid() && dom.HasTexts()
      ensures dom.Snap() == AfterTransfer(old(dom.Snap()), slots, ParseQuestions(questions))
    {
      var qs := ParseQuestions(questions);
      BindQuestions(dom, slots, qs);
      var ul := Regroup(dom, slots);
      questionsContextuallySound := Some(qs);
    }

    /**
     * The `.then`/`.catch` pair of `processQuestions` and
     * `summarizeTextByPrompt`: an answer is formatted for the prompt type,
     * an error gives its message.
     */
    method ResponseText(promptType: string, r: Result<string, string>, pageCount: nat) returns (text: string)
      ensures r.Ok? ==> text == Formatted(promptType, r.value, ModuleButton, pageCount)
      ensures r.Err? ==> text == ErrorPrefix + r.error
    {
      match r {
        case Ok(response) =>
          text := FormatText(promptType, response, ModuleButton, pageCount);
        case Err(e) =>
          text := ErrorPrefix + e;
      }
    }

    /**
     * `processQuestions(promptType, question, bubble)` for every prompt type
     * but `DOCUMENT_CONTEXTUAL_QUESTIONS`: the message is prepared from the
     * document's text, an exact contextual question raises the history budget
     * to 10000 for good, and the answer is formatted. Returns the request sent
     * and the text for the bubble.
     */
    method ProcessQuestions(promptType: string, question: Option<string>, doc: string, pageCount: nat, reply: Reply)
      returns (request: Request, responseText: string)
      requires promptType != DocumentContextualQuestions
      modifies this`maxTokens, this`messagesHistory
      ensures maxTokens == if promptType == DocumentContextualQuestionExactly then ExactMaxTokens else old(maxTokens)
      ensures request.message == PrepareMessage(promptType, question, doc) && request.promptType == promptType
      ensures if useEmpty then request.history == [] else Trimmed(request.history, old(messagesHistory), Budget(maxTokens, promptType))
      ensures messagesHistory ==
        if reply.Answer? && !skipUpdate
        then old(messagesHistory) + [HumanEntry(promptType, request.message), Message(Assistant, reply.response)]
        else old(messagesHistory)
      ensures reply.Answer? ==> responseText == Formatted(promptType, reply.response, ModuleButton, pageCount)
      ensures !reply.Answer? ==> responseText == ErrorPrefix + ReplyError(reply)
    {
      var message := PrepareMessage(promptType, question, doc);
      if promptType == DocumentContextualQuestionExactly {
        maxTokens := ExactMaxTokens;
      }
      var r;
      request, r := SendMessage(promptType, message, reply);
      responseText := ResponseText(promptType, r, pageCount);
    }

    /**
     * `askQuestionByPrompt('DOCUMENT_CONTEXTUAL_QUESTIONS')`, which runs
     * `processQuestions` for that type: the document's text is sent as it is
     * and the questions of the second history entry are transferred to the
     * panel. That entry is the answer just received when the history was
     * empty; it is the first answer the history holds otherwise. With fewer
     * than two entries the read fails. The text for the bubble is the
     * formatted answer or the error; the wrapper drops the bubble for this
     * type, so only the error is returned here.
     */
    method ProcessContextualQuestions(question: Option<string>, doc: string, reply: Reply,
                                      dom: Document, slots: seq<Slot>)
      returns (request: Request, error: Option<string>)
      requires Ready(dom, slots)
      modifies this`messagesHistory, this`questionsContextuallySound, dom, Configs(slots)`content
      ensures request == Request(doc, DocumentContextualQuestions, request.history)
      ensures if useEmpty then request.history == [] else Trimmed(request.history, old(messagesHistory), Budget(maxTokens, DocumentContextualQuestions))
      ensures messagesHistory ==
        if reply.Answer? && !skipUpdate
        then old(messagesHistory) + [HumanEntry(DocumentContextualQuestions, doc), Message(Assistant, reply.response)]
        else old(messagesHistory)
      ensures error ==
        if !reply.Answer? then Some(ErrorPrefix + ReplyError(reply))
        else if |messagesHistory| < 2 then Some(ErrorPrefix + MissingEntry)
        else None
      ensures if error == None then
          var questions := ParseQuestions(messagesHistory[1].content);
          questionsContextuallySound == Some(questions) &&
          dom.Snap() == AfterTransfer(old(dom.Snap()), slots, questions) &&
          var plan := Plan(slots, questions);
          forall k {:trigger plan[k]} :: 0 <= k < |slots| ==>
            slots[k].config.content == if plan[k].Some? then plan[k].value else old(slots[k].config.content)
        else
          questionsContextuallySound == old(questionsContextuallySound) && dom.Snap() == old(dom.Snap()) &&
          forall k :: 0 <= k < |slots| ==> slots[k].config.content == old(slots[k].config.content)
      ensures reply.Answer? && !skipUpdate && old(messagesHistory) == [] ==>
        questionsContextuallySound == Some(ParseQuestions(reply.response))
    {
      var message := PrepareMessage(DocumentContextualQuestions, question, doc);
      var r;
      request, r := SendMessage(DocumentContextualQuestions, message, reply);
      ghost var h, mt, ue, su := messagesHistory, maxTokens, useEmpty, skipUpdate;
      match r {
        case Err(e) =>
          error := Some(ErrorPrefix + e);
        case Ok(_) =>
          if |messagesHistory| < 2 {
            error := Some(ErrorPrefix + MissingEntry);
          } else {
            error := None;
            TransferContextualQuestions(messagesHistory[1].content, dom, slots);
          }
      }
      assert messagesHistory == h && maxTokens == mt && useEmpty == ue && skipUpdate == su;
    }

    /**
     * `askQuestionByPrompt(prompt, question)` for every prompt type but
     * `DOCUMENT_CONTEXTUAL_QUESTIONS`: the questions are processed and the
     * text is shown as one assistant bubble. (For that type the wrapper drops
     * the bubble, so asking is `ProcessContextualQuestions` alone.)
     */
    method AskQuestionByPrompt(prompt: string, question: Option<string>, doc: string, pageCount: nat, reply: Reply,
                               log: ConversationLog)
      returns (request: Request, responseText: string)
      requires prompt != DocumentContextualQuestions
      modifies this`maxTokens, this`messagesHistory, log
      ensures maxTokens == if prompt == DocumentContextualQuestionExactly then ExactMaxTokens else old(maxTokens)
      ensures request.message == PrepareMessage(prompt, question, doc) && request.promptType == prompt
      ensures if useEmpty then request.history == [] else Trimmed(request.history, old(messagesHistory), Budget(maxTokens, prompt))
      ensures messagesHistory ==
        if reply.Answer? && !skipUpdate
        then old(messagesHistory) + [HumanEntry(prompt, request.message), Message(Assistant, reply.response)]
        else old(messagesHistory)
      ensures reply.Answer? ==> responseText == Formatted(prompt, reply.response, ModuleButton, pageCount)
      ensures !reply.Answer? ==> responseText == ErrorPrefix + ReplyError(reply)
      ensures log.entries == old(log.entries) + [Entry("assistant", responseText)]
    {
      request, responseText := ProcessQuestions(prompt, question, doc, pageCount, reply);
      log.CreateBubble(responseText, "assistant");
    }

    /**
     * `summarizeTextByPrompt(prompt, text)`: the text is sent as the message
     * with the prompt type as it is, and the formatted answer or the error is
     * shown as one assistant bubble. The history budget is not changed.
     */
    method SummarizeTextByPrompt(prompt: string, text: string, pageCount: nat, reply: Reply, log: ConversationLog)
      returns (request: Request, responseText: string)
      modifies this`messagesHistory, log
      ensures request == Request(text, prompt, request.history)
      ensures if useEmpty then request.history == [] else Trimmed(request.history, old(messagesHistory), Budget(maxTokens, prompt))
      ensures messagesHistory ==
        if reply.Answer? && !skipUpdate
        then old(messagesHistory) + [HumanEntry(prompt, text), Message(Assistant, reply.response)]
        else old(messagesHistory)
      ensures reply.Answer? ==> responseText == Formatted(prompt, reply.response, ModuleButton, pageCount)
      ensures !reply.Answer? ==> responseText == ErrorPrefix + ReplyError(reply)
      ensures log.entries == old(log.entries) + [Entry("assistant", responseText)]
    {
      var r;
      request, r := SendMessage(prompt, text, reply);
      responseText := ResponseText(prompt, r, pageCount);
      log.CreateBubble(responseText, "assistant");
    }
  }

  // ---------------------------------------------------------------------------
  // Properties of the exchanges

  /**
   * A question asked with an exact contextual question or a history
   * question is stored in the history as the question alone, behind the
   * prompt type: the document travels in the request but not in the history.
   */
  lemma StoredQuestion(pt: string, q: string, doc: string)
    requires pt == DocumentContextualQuestionExactly || pt == DocumentHistoryQuestion
    requires q != "" && NoLineBreak(q)
    ensures HumanEntry(pt, PrepareMessage(pt, Some(q), doc)) == Message(Human, pt + ": " + q)
  {
    QuestionRoundTrip(pt, q, doc);
  }

  /**
   * The history sent with a request costs at most the budget, and the budget
   * for a document prompt type is at least 8000 whatever the options say.
   */
  lemma SentHistoryWithinBudget(sent: seq<Message>, h: seq<Message>, maxTokens: nat, pt: string)
    requires Trimmed(sent, h, Budget(maxTokens, pt))
    ensures TotalCost(sent) <= Budget(maxTokens, pt)
    ensures Contains(pt, DocumentPrefix) && TotalCost(h) <= DefaultMaxTokens ==> sent == h
  {
    assert h[0..] == h;
  }
}
