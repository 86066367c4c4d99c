/**
 * The chat panel's routing of a typed question: the keyword lists, the
 * case-insensitive keyword test, the starter messages whose question items
 * become the panel's slots, and the Send handlers of the current panel and of
 * the older configuration panel, which turn a question into chat bubbles and
 * requests.
 */
module Routing {
  import opened Wrappers
  import opened Strings
  import opened Prompts
  import opened Panel
  import opened Chat

  // ---------------------------------------------------------------------------
  // Keywords

  /** `containsAny(text, list)`: `list.some(...)` over the keywords, lower-cased. */
  function ContainsAny(text: string, list: seq<string>): bool
    decreases |list|
  {
    if list == [] then false
    else Contains(Lower(text), Lower(list[0])) || ContainsAny(text, list[1..])
  }

  /** Some keyword, lower-cased, occurs in the lower-cased text. */
  lemma {:induction false} ContainsAnyIff(text: string, list: seq<string>)
    ensures ContainsAny(text, list) <==> exists i :: 0 <= i < |list| && Contains(Lower(text), Lower(list[i]))
    decreases |list|
  {
    if list != [] {
      ContainsAnyIff(text, list[1..]);
      assert forall i :: 0 < i < |list| ==> list[i] == list[1..][i - 1];
    }
  }

  /** Lower-casing the text first, as the configuration panel does, changes nothing. */
  lemma ContainsAnyLower(text: string, list: seq<string>)
    ensures ContainsAny(Lower(text), list) == ContainsAny(text, list)
  {
    LowerIdempotent(text);
  }

  /** The keyword lists of `configData.KEYWORDS`. */
  datatype Keywords = Keywords(summarization: seq<string>, area: seq<string>, selection: seq<string>, history: seq<string>)

  /** The lists of the current client's globals. */
  const GlobalKeywords: Keywords := Keywords(
    ["summarize", "summary", "summarization"],
    ["text", "paragraph", "area"],
    ["selected", "selection", "highlighted"],
    ["history", "previous", "generated", "earlier", "asked", "before", "questions"])

  /** The configuration panel's lists, which have no history list. */
  const PanelKeywords: Keywords := Keywords(
    ["summarize", "summary", "summarization"],
    ["text", "paragraph", "area"],
    ["selected", "selection", "highlighted"],
    [])

  // ---------------------------------------------------------------------------
  // The starter messages

  /** A configuration item as written in the starter messages, `{ type, content, promptType }`. */
  datatype ItemSpec = ItemSpec(kind: string, content: string, promptType: string)

  /** An assistant message: a plain text, or a list of items. */
  datatype StarterMessage = TextMessage(text: string) | ListMessage(items: seq<ItemSpec>)

  const InfoKind: string := "info"
  const Loading: string := "Loading..."

  /** `assistantMessages` of the current client. */
  const AssistantMessages: seq<StarterMessage> := [
    ListMessage([
      ItemSpec(InfoKind, "Here are some suggested questions to get you started:", ""),
      ItemSpec(QuestionKind, "Summarize Document", DocumentSummary),
      ItemSpec(QuestionKind, "List Keywords", DocumentKeywords),
      ItemSpec(QuestionKind, Loading, DocumentContextualQuestionExactly),
      ItemSpec(QuestionKind, Loading, DocumentContextualQuestionExactly),
      ItemSpec(QuestionKind, Loading, DocumentContextualQuestionExactly)])]

  /** `assistantMessages` of the configuration panel; `APP_SITE_NAME` is filled in. */
  const PanelMessages: seq<StarterMessage> := [
    TextMessage("Hello, I'm WebViewer Ask AI. How can I help you?"),
    TextMessage("Select the options below to get started. You can also select text in the document and click the popup to summarize the selected text."),
    ListMessage([
      ItemSpec(InfoKind, "Choose:", ""),
      ItemSpec(QuestionKind, "Summarize Document", DocumentSummary),
      ItemSpec(QuestionKind, "List Keywords", DocumentKeywords)])]

  /** The question items of the messages, in order: what becomes of them is a slot each. */
  function QuestionItems(messages: seq<StarterMessage>): seq<ItemSpec> {
    if messages == [] then []
    else
      (match messages[0]
       case TextMessage(_) => []
       case ListMessage(items) => QuestionsOf(items)) + QuestionItems(messages[1..])
  }

  function QuestionsOf(items: seq<ItemSpec>): seq<ItemSpec> {
    if items == [] then []
    else (if items[0].kind == QuestionKind then [items[0]] else []) + QuestionsOf(items[1..])
  }

  /**
   * The current client's panel gets five slots: the summary and the keyword
   * questions, then exactly three exact-question slots waiting for their
   * text.
   */
  lemma StarterSlots()
    ensures var qs := QuestionItems(AssistantMessages);
      |qs| == 5 && qs[0].promptType == DocumentSummary && qs[1].promptType == DocumentKeywords &&
      forall k :: 2 <= k < 5 ==> qs[k] == ItemSpec(QuestionKind, Loading, DocumentContextualQuestionExactly)
  {
    var items := AssistantMessages[0].items;
    assert QuestionsOf(items[5..]) == [items[5]];
    assert QuestionsOf(items[4..]) == [items[4], items[5]];
    assert QuestionsOf(items[3..]) == [items[3], items[4], items[5]];
    assert QuestionsOf(items[1..]) == items[1..];
    assert QuestionItems(AssistantMessages) == QuestionsOf(items) + [];
  }

  /**
   * The configuration panel's messages hold the summary and the keyword
   * questions only. That panel registers no slots: its items are not kept
   * for the contextual questions.
   */
  lemma PanelQuestionItems()
    ensures QuestionItems(PanelMessages) ==
      [ItemSpec(QuestionKind, "Summarize Document", DocumentSummary), ItemSpec(QuestionKind, "List Keywords", DocumentKeywords)]
  {
    var items := PanelMessages[2].items;
    assert QuestionsOf(items[2..]) == [items[2]];
    assert QuestionsOf(items) == items[1..];
    assert QuestionItems(PanelMessages[2..]) == QuestionsOf(items) + [];
    assert QuestionItems(PanelMessages) == [] + ([] + QuestionItems(PanelMessages[2..]));
  }

  /**
   * The panel build: without the keyword lists or without the assistant
   * messages nothing is built and no slot is registered; otherwise the
   * question items of the messages are registered in order.
   */
  method RenderPanel(keywords: Option<Keywords>, messages: Option<seq<seq<Item>>>, questionsLIs: seq<Slot>)
    returns (rendered: bool, r: seq<Slot>)
    ensures rendered <==> keywords.Some? && messages.Some?
    ensures r == if rendered then questionsLIs + RegisterAll(messages.value) else questionsLIs
  {
    if keywords.None? {
      return false, questionsLIs;
    }
    if messages.None? {
      return false, questionsLIs;
    }
    rendered := true;
    r := RegisterSlots(questionsLIs, messages.value);
  }

  // ---------------------------------------------------------------------------
  // The Send handlers

  /**
   * What a click on Send does, in order. `AskByPrompt` is the current
   * panel's `window.chatbot.askQuestionByPrompt` (the `Chatbot` class) on
   * that panel, and the configuration panel's own `askQuestionByPrompt`,
   * which runs the older client's `getAllText`, on the configuration panel.
   */
  datatype Action =
    | Bubble(content: string, role: string)                  // a chat bubble
    | AskByPrompt(prompt: string, question: Option<string>)  // `askQuestionByPrompt`
    | SummarizeByPrompt(prompt: string, text: string)        // `summarizeTextByPrompt`
    | SendQuestion(text: string)                             // the older client's `sendMessage('DOCUMENT_QUESTION', ...)`
    | SummarizeSelected                                      // `summarizeSelectedText()`

  const AskFirst: string := "Please ask a question first."
  const SelectFirst: string := "Please select text in the document first."
  const Clarify: string := "Please specify if you want to summarize the entire document or selected text."
  const DocumentWord: string := "document"

  /** `clipboard && clipboard.trim() !== ''` for the current panel's clipboard, which is always a string. */
  predicate Selected(clipboard: string) {
    Trim(clipboard) != ""
  }

  /** `window.selectedText && window.selectedText.trim() !== ''`: the selection may never have been set. */
  predicate PanelSelected(selectedText: Option<string>) {
    selectedText.Some? && Selected(selectedText.value)
  }

  /** The outcome of every keyword test the table makes on a question. */
  datatype Signals = Signals(summary: bool, document: bool, area: bool, selection: bool, history: bool)

  /** The keyword tests on `q`; `document` is `q.toLowerCase().includes('document')`. */
  function Classify(q: string, kw: Keywords): Signals {
    Signals(ContainsAny(q, kw.summarization), Contains(Lower(q), DocumentWord), ContainsAny(q, kw.area),
      ContainsAny(q, kw.selection), ContainsAny(q, kw.history))
  }

  /** The configuration panel tests the lower-cased question: the outcome is the same. */
  lemma ClassifyLower(q: string, kw: Keywords)
    ensures Classify(Lower(q), kw) == Classify(q, kw)
  {
    LowerIdempotent(q);
    ContainsAnyLower(q, kw.summarization);
    ContainsAnyLower(q, kw.area);
    ContainsAnyLower(q, kw.selection);
    ContainsAnyLower(q, kw.history);
  }

  /**
   * The summarization half of the table: three independent checks, in this
   * order: the document, the selection, and neither of the two.
   */
  function SummaryActions(s: Signals, selected: bool, summarizeSelection: Action): seq<Action> {
    (if s.document && !s.area then [AskByPrompt(DocumentSummary, None)] else []) +
    (if s.selection then (if selected then [summarizeSelection] else [Bubble(SelectFirst, "assistant")]) else []) +
    (if !s.document && !s.selection then [Bubble(Clarify, "assistant")] else [])
  }

  /** What the current panel does after showing a non-blank question `q`. */
  function Dispatch(q: string, s: Signals, clipboard: string): seq<Action> {
    if s.summary then SummaryActions(s, Selected(clipboard), SummarizeByPrompt(SelectedTextSummary, clipboard))
    else if s.history then [AskByPrompt(DocumentHistoryQuestion, Some(q))]
    else [SummarizeByPrompt(DocumentQuestion, q)]
  }

  /** The current panel's table, for the text in the input box and the clipboard. */
  function Route(input: string, clipboard: string, kw: Keywords): seq<Action> {
    var q := Trim(input);
    if q == "" then [Bubble(AskFirst, "assistant")]
    else [Bubble(q, "human")] + Dispatch(q, Classify(q, kw), clipboard)
  }

  /** The configuration panel's table, for the input and `window.selectedText`: no history branch. */
  function PanelRoute(input: string, selectedText: Option<string>, kw: Keywords): seq<Action> {
    var q := Trim(input);
    if q == "" then [Bubble(AskFirst, "assistant")]
    else [Bubble(q, "human")] + PanelDispatch(q, Classify(Lower(q), kw), selectedText)
  }

  /** What the configuration panel does after showing a non-blank question `q`. */
  function PanelDispatch(q: string, s: Signals, selectedText: Option<string>): seq<Action> {
    if s.summary then SummaryActions(s, PanelSelected(selectedText), SummarizeSelected) else [SendQuestion(q)]
  }

  const PopupText: string := "Summarize the selected text."

  /** A click on the selection popup of the current panel. */
  function PopupClick(clipboard: string): seq<Action> {
    [Bubble(PopupText, "human"), SummarizeByPrompt(SelectedTextSummary, clipboard)]
  }

  /** A click on the selection popup of the configuration panel. */
  function PanelPopupClick(): seq<Action> {
    [Bubble(PopupText, "human"), SummarizeSelected]
  }

  /** A click on a question item of the current panel: its text is passed along for every prompt type. */
  function ItemClick(item: ItemSpec): seq<Action> {
    [Bubble(item.content, "human"), AskByPrompt(item.promptType, Some(item.content))]
  }

  /** A click on a question item of the configuration panel: only the prompt type is passed. */
  function PanelItemClick(item: ItemSpec): seq<Action> {
    [Bubble(item.content, "human"), AskByPrompt(item.promptType, None)]
  }

  /** The actions that ask for an answer. */
  predicate IsRequest(a: Action) {
    !a.Bubble?
  }

  function Requests(actions: seq<Action>): seq<Action> {
    if actions == [] then []
    else (if IsRequest(actions[0]) then [actions[0]] else []) + Requests(actions[1..])
  }

  /** The bubbles the actions show, as log entries. */
  function Bubbles(actions: seq<Action>): seq<Entry> {
    if actions == [] then []
    else (if actions[0].Bubble? then [Entry(actions[0].role, actions[0].content)] else []) + Bubbles(actions[1..])
  }

  lemma Assoc<T>(a: seq<T>, b: seq<T>, c: seq<T>)
    ensures a + (b + c) == (a + b) + c
  {
  }

  lemma {:induction false} RequestsAppend(a: seq<Action>, b: seq<Action>)
    ensures Requests(a + b) == Requests(a) + Requests(b)
  {
    if a == [] {
      assert a + b == b;
    } else {
      assert (a + b)[1..] == a[1..] + b;
      RequestsAppend(a[1..], b);
      var head := if IsRequest(a[0]) then [a[0]] else [];
      assert Requests(a + b) == head + Requests(a[1..] + b);
      Assoc(head, Requests(a[1..]), Requests(b));
    }
  }

  lemma {:induction false} BubblesAppend(a: seq<Action>, b: seq<Action>)
    ensures Bubbles(a + b) == Bubbles(a) + Bubbles(b)
  {
    if a == [] {
      assert a + b == b;
    } else {
      assert (a + b)[1..] == a[1..] + b;
      BubblesAppend(a[1..], b);
      var head := if a[0].Bubble? then [Entry(a[0].role, a[0].content)] else [];
      assert Bubbles(a + b) == head + Bubbles(a[1..] + b);
      Assoc(head, Bubbles(a[1..]), Bubbles(b));
    }
  }

  /** The requests and the bubbles of one action. */
  lemma Single(a: Action)
    ensures Requests([a]) == if IsRequest(a) then [a] else []
    ensures Bubbles([a]) == if a.Bubble? then [Entry(a.role, a.content)] else []
  {
    assert [a][1..] == [];
  }

  /** One more action adds its request or its bubble. */
  lemma Step(done: seq<Action>, a: Action)
    ensures Requests(done + [a]) == Requests(done) + (if IsRequest(a) then [a] else [])
    ensures Bubbles(done + [a]) == Bubbles(done) + (if a.Bubble? then [Entry(a.role, a.content)] else [])
  {
    RequestsAppend(done, [a]);
    BubblesAppend(done, [a]);
    Single(a);
  }

  /** A shown question, then what follows it. */
  lemma Shown(q: string, rest: seq<Action>)
    ensures Requests([Bubble(q, "human")] + rest) == Requests(rest)
    ensures Bubbles([Bubble(q, "human")] + rest) == [Entry("human", q)] + Bubbles(rest)
  {
    RequestsAppend([Bubble(q, "human")], rest);
    BubblesAppend([Bubble(q, "human")], rest);
    Single(Bubble(q, "human"));
  }

  /** A blank question gets one reply and sends nothing, on both panels. */
  lemma BlankQuestion(input: string, clipboard: string, selectedText: Option<string>, kw: Keywords)
    requires Trim(input) == ""
    ensures Route(input, clipboard, kw) == PanelRoute(input, selectedText, kw) == [Bubble(AskFirst, "assistant")]
    ensures Requests(Route(input, clipboard, kw)) == []
  {
    Single(Bubble(AskFirst, "assistant"));
  }

  /**
   * A question that is not a summarization request is shown and sent once:
   * as a history question when it has a history keyword, else as a
   * document question.
   */
  lemma OtherQuestion(q: string, s: Signals, clipboard: string)
    requires !s.summary
    ensures Requests([Bubble(q, "human")] + Dispatch(q, s, clipboard)) ==
      [if s.history then AskByPrompt(DocumentHistoryQuestion, Some(q)) else SummarizeByPrompt(DocumentQuestion, q)]
  {
    Shown(q, Dispatch(q, s, clipboard));
    Single(Dispatch(q, s, clipboard)[0]);
  }

  /** The summarization checks ask at most twice: once for the document, once for the selection. */
  lemma SummaryRequests(s: Signals, selected: bool, summarizeSelection: Action)
    requires IsRequest(summarizeSelection)
    ensures Requests(SummaryActions(s, selected, summarizeSelection)) ==
      (if s.document && !s.area then [AskByPrompt(DocumentSummary, None)] else []) +
      (if s.selection && selected then [summarizeSelection] else [])
  {
    var a1: seq<Action> := if s.document && !s.area then [AskByPrompt(DocumentSummary, None)] else [];
    var a2: seq<Action> := if s.selection then (if selected then [summarizeSelection] else [Bubble(SelectFirst, "assistant")]) else [];
    var a3: seq<Action> := if !s.document && !s.selection then [Bubble(Clarify, "assistant")] else [];
    RequestsAppend(a1 + a2, a3);
    RequestsAppend(a1, a2);
    Single(summarizeSelection);
    Single(Bubble(SelectFirst, "assistant"));
    Single(Bubble(Clarify, "assistant"));
    Single(AskByPrompt(DocumentSummary, None));
  }

  /**
   * The document check and the selection check are independent: a request
   * naming the document and a selection keyword, without an area keyword,
   * asks for the document summary and summarizes the selection.
   */
  lemma SummaryAndSelection(input: string, clipboard: string, kw: Keywords)
    requires var q := Trim(input);
      q != "" && ContainsAny(q, kw.summarization) && Contains(Lower(q), DocumentWord) &&
      !ContainsAny(q, kw.area) && ContainsAny(q, kw.selection) && Selected(clipboard)
    ensures Requests(Route(input, clipboard, kw)) ==
      [AskByPrompt(DocumentSummary, None), SummarizeByPrompt(SelectedTextSummary, clipboard)]
  {
    var q := Trim(input);
    var s := Classify(q, kw);
    var sel := SummarizeByPrompt(SelectedTextSummary, clipboard);
    Shown(q, SummaryActions(s, true, sel));
    SummaryRequests(s, true, sel);
  }

  /** The summarization checks ask only for the document summary and the selection summary. */
  lemma SummaryMembers(s: Signals, selected: bool, summarizeSelection: Action)
    ensures forall a :: a in SummaryActions(s, selected, summarizeSelection) ==>
      a == AskByPrompt(DocumentSummary, None) || a == summarizeSelection || a.Bubble?
  {
    var a1: seq<Action> := if s.document && !s.area then [AskByPrompt(DocumentSummary, None)] else [];
    var a2: seq<Action> := if s.selection then (if selected then [summarizeSelection] else [Bubble(SelectFirst, "assistant")]) else [];
    var a3: seq<Action> := if !s.document && !s.selection then [Bubble(Clarify, "assistant")] else [];
    assert SummaryActions(s, selected, summarizeSelection) == a1 + a2 + a3;
  }

  /** Only the document summary is asked by prompt after a question on the configuration panel. */
  predicate OnlySummaryPrompt(actions: seq<Action>) {
    forall a :: a in actions ==> !a.AskByPrompt? || a.prompt == DocumentSummary
  }

  lemma PanelDispatchPrompts(q: string, s: Signals, selectedText: Option<string>)
    ensures OnlySummaryPrompt(PanelDispatch(q, s, selectedText))
  {
    SummaryMembers(s, PanelSelected(selectedText), SummarizeSelected);
  }

  /** The configuration panel never sends a history question: its only prompt is the document summary. */
  lemma PanelNoHistory(input: string, selectedText: Option<string>, kw: Keywords)
    ensures OnlySummaryPrompt(PanelRoute(input, selectedText, kw))
  {
    var q := Trim(input);
    if q != "" {
      PanelDispatchPrompts(q, Classify(Lower(q), kw), selectedText);
    }
  }

  /** The configuration panel sends every question without a summarization keyword as it is. */
  lemma PanelPlainQuestion(input: string, selectedText: Option<string>, kw: Keywords)
    requires Trim(input) != "" && !ContainsAny(Trim(input), kw.summarization)
    ensures PanelRoute(input, selectedText, kw) == [Bubble(Trim(input), "human"), SendQuestion(Trim(input))]
  {
    ClassifyLower(Trim(input), kw);
  }

  /** A question with neither a summarization nor a history keyword is shown and sent as a document question. */
  lemma PlainQuestion(input: string, clipboard: string, kw: Keywords)
    requires Trim(input) != "" && !ContainsAny(Trim(input), kw.summarization) && !ContainsAny(Trim(input), kw.history)
    ensures Route(input, clipboard, kw) == [Bubble(Trim(input), "human"), SummarizeByPrompt(DocumentQuestion, Trim(input))]
  {
  }

  /**
   * A summarization request that names the document and an area, without a
   * selection keyword, gets nothing after the question's own bubble: the
   * document check excludes it and the clarification needs the document
   * word to be absent.
   */
  lemma UnansweredSummary(input: string, clipboard: string, kw: Keywords)
    requires var q := Trim(input);
      q != "" && ContainsAny(q, kw.summarization) && Contains(Lower(q), DocumentWord) &&
      ContainsAny(q, kw.area) && !ContainsAny(q, kw.selection)
    ensures Route(input, clipboard, kw) == [Bubble(Trim(input), "human")]
  {
    var q := Trim(input);
    assert SummaryActions(Classify(q, kw), Selected(clipboard), SummarizeByPrompt(SelectedTextSummary, clipboard)) == [];
  }

  /**
   * The clicks outside the input box: a question item and the selection
   * popup each show one human bubble and make one request.
   */
  lemma Clicks(item: ItemSpec, clipboard: string)
    ensures Requests(ItemClick(item)) == [AskByPrompt(item.promptType, Some(item.content))]
    ensures Requests(PanelItemClick(item)) == [AskByPrompt(item.promptType, None)]
    ensures Bubbles(ItemClick(item)) == Bubbles(PanelItemClick(item)) == [Entry("human", item.content)]
    ensures Requests(PopupClick(clipboard)) == [SummarizeByPrompt(SelectedTextSummary, clipboard)]
    ensures Requests(PanelPopupClick()) == [SummarizeSelected]
    ensures Bubbles(PopupClick(clipboard)) == Bubbles(PanelPopupClick()) == [Entry("human", PopupText)]
  {
    Shown(item.content, [AskByPrompt(item.promptType, Some(item.content))]);
    Shown(item.content, [AskByPrompt(item.promptType, None)]);
    Single(AskByPrompt(item.promptType, Some(item.content)));
    Single(AskByPrompt(item.promptType, None));
    Shown(PopupText, [SummarizeByPrompt(SelectedTextSummary, clipboard)]);
    Shown(PopupText, [SummarizeSelected]);
    Single(SummarizeByPrompt(SelectedTextSummary, clipboard));
    Single(SummarizeSelected);
  }

  /** The input box of the panel. */
  class QuestionInput {
    var value: string

    constructor (value: string)
      ensures this.value == value
    {
      this.value := value;
    }
  }

  /**
   * What the current panel's Send handler does after showing the question:
   * the bubbles of the table go to the log as they are made, and the
   * requests are returned in the order they are made.
   */
  method Dispatched(question: string, s: Signals, clipboard: string, log: ConversationLog)
    returns (requests: seq<Action>)
    modifies log
    ensures requests == Requests(Dispatch(question, s, clipboard))
    ensures log.entries == old(log.entries) + Bubbles(Dispatch(question, s, clipboard))
  {
    requests := [];
    ghost var done: seq<Action> := [];
    if s.summary {
      if s.document && !s.area {
        requests := requests + [AskByPrompt(DocumentSummary, None)];
        Step(done, AskByPrompt(DocumentSummary, None));
        done := done + [AskByPrompt(DocumentSummary, None)];
      }
      if s.selection {
        if Selected(clipboard) {
          requests := requests + [SummarizeByPrompt(SelectedTextSummary, clipboard)];
          Step(done, SummarizeByPrompt(SelectedTextSummary, clipboard));
          done := done + [SummarizeByPrompt(SelectedTextSummary, clipboard)];
        } else {
          log.CreateBubble(SelectFirst, "assistant");
          Step(done, Bubble(SelectFirst, "assistant"));
          done := done + [Bubble(SelectFirst, "assistant")];
        }
      }
      if !s.document && !s.selection {
        log.CreateBubble(Clarify, "assistant");
        Step(done, Bubble(Clarify, "assistant"));
        done := done + [Bubble(Clarify, "assistant")];
      }
    } else if s.history {
      requests := [AskByPrompt(DocumentHistoryQuestion, Some(question))];
      Step(done, AskByPrompt(DocumentHistoryQuestion, Some(question)));
      done := done + requests;
    } else {
      requests := [SummarizeByPrompt(DocumentQuestion, question)];
      Step(done, SummarizeByPrompt(DocumentQuestion, question));
      done := done + requests;
    }
  }

  /**
   * The current panel's Send handler on the trimmed text of the input box: a
   * blank question gets a reminder; otherwise the question is shown and the
   * table is followed. `clear` says whether the handler goes on to clear the
   * input box.
   */
  method SendText(text: string, clipboard: string, kw: Keywords, log: ConversationLog)
    returns (requests: seq<Action>, clear: bool)
    modifies log
    ensures requests == Requests(Route(text, clipboard, kw))
    ensures log.entries == old(log.entries) + Bubbles(Route(text, clipboard, kw))
    ensures clear <==> Trim(text) != ""
  {
    var question := Trim(text);
    if question == "" {
      log.CreateBubble(AskFirst, "assistant");
      Single(Bubble(AskFirst, "assistant"));
      requests, clear := [], false;
    } else {
      log.CreateBubble(question, "human");
      var signals := Classify(question, kw);
      requests := Dispatched(question, signals, clipboard, log);
      Shown(question, Dispatch(question, signals, clipboard));
      Assoc(old(log.entries), [Entry("human", question)], Bubbles(Dispatch(question, signals, clipboard)));
      clear := true;
    }
  }

  /** A click on Send: the handler runs on the input box's text and clears the box after any question that is not blank. */
  method Send(input: QuestionInput, clipboard: string, kw: Keywords, log: ConversationLog)
    returns (requests: seq<Action>)
    modifies input, log
    ensures requests == Requests(Route(old(input.value), clipboard, kw))
    ensures log.entries == old(log.entries) + Bubbles(Route(old(input.value), clipboard, kw))
    ensures input.value == if Trim(old(input.value)) == "" then old(input.value) else ""
  {
    var clear;
    requests, clear := SendText(input.value, clipboard, kw, log);
    if clear {
      input.value := "";
    }
  }
}
