# Ask AI document chat and byte-range server, modelled in Dafny

This project models two pieces of the WebViewer samples repository.

The first is the "Ask AI" pipeline of `webviewer-ask-ai`. A chat panel beside
a PDF viewer sends questions about the loaded document to an Express server.
The server forwards them to a language model and sends back the answer. The
client then formats the answer and turns its page citations into links. The
second is the `/linearized` route of `webviewer-range-request`, which serves
a PDF with HTTP byte ranges (section 2.1 of RFC 7233 for the forms, sections
4.1, 4.2 and 4.4 of RFC 7233 for 206 and 416).

The modules follow the program's structure:

| module | file | what it models |
|---|---|---|
| `Wrappers`, `Strings` | `wrappers.dfy`, `strings.dfy` | `Option`/`Result`, and the JavaScript string operations used below: `split`, `join`, `trim`, `replaceAll`, `includes`, ASCII `toLowerCase`, decimal text |
| `Replies` | `replies.dfy` | unwrapping a model reply into text, on the client (`getText`, `responseText`) and on the server (the clean-up before `/api/chat` answers) |
| `Markup` | `markup.dfy` | the bracketed-token patterns of the formatter, `String.prototype.match` with the global flag, and the single left-to-right pass that a sequence of `replaceAll` calls amounts to |
| `Citations`, `Links`, `Layout` | `citations.dfy`, `links.dfy`, `layout.dfy` | the formatter's passes: expanding `[1, 2]`/`[1-3]`, page links, breaks after cited sentences, bullets, and the collapse of repeated markers |
| `Formatter` | `formatter.dfy` | `ChatbotResponse.formatText`, `formatResponse` and the older client's `formatText`, as the composition of those passes |
| `History`, `Chat` | `history.dfy`, `chatbot.dfy` | the `Chatbot` class: history trimming, the history budget, `sendMessage`, `prepareMessage`, `processQuestions` and the log of chat bubbles |
| `Dom`, `Panel` | `dom.dfy`, `questions.dfy` | slot registration, and the binding of contextual questions to slots followed by the regrouping of their list elements into a new `ul` |
| `Routing` | `routing.dfy` | the keyword test `containsAny`, the starter messages, and the Send handlers of both panels as a decision table |
| `Documents`, `Legacy` | `documents.dfy`, `legacy.dfy` | `DocumentManager`, and the page-text assembly of the older client's `getAllText` |
| `Prompts`, `GuardRails`, `Tokens` | `prompts.dfy`, `guardrails.dfy`, `tokens.dfy` | prompt-type names, `PROMPT_GUARD_RAILS` with `getPromptSettings`, token counting and the greedy word chunker |
| `Handler`, `Manager` | `handler.dfy`, `manager.dfy` | `/api/token-count` and `/api/chat` with their module-level state; the `LLMManager` class |
| `ByteRange` | `byterange.dfy` | the `Range` header match, the span arithmetic, the 416/206/200 decision, and the response as a class whose status, headers and body are set step by step |

Everything outside these programs is a parameter of the operation that
uses it:

- the language model and its parser;
- `fetch('/api/chat')` and the upstream PDF fetches, as their outcomes;
- the tokenizer library and `llm.getNumTokens`, as functions;
- `JSON.stringify` of an object;
- the viewer's pages, as `Some(text)` or `None` when a page fails to load.

Objects whose fields the source updates become classes with `modifies`
clauses: `Chatbot`, `DocumentManager`, `LLMManager`, the handler's module
state `ChatServer`, the document tree `Document`, the conversation log, the
question input and the Express response. Their methods are specified
against functions of the inputs; the properties are proved about those
functions as lemmas.

Behaviour of the code that a reader may not expect; the model follows the
code in each case:

- The binding step splits the model's list on `/â€¢\s*/`, the three
  characters a UTF-8 bullet becomes when read as Windows-1252, not on `•`.
  A list written with real bullets therefore binds its whole text to the
  first exact-question slot (`Panel.ParseWithoutDelimiter`).
- Formatting is not idempotent. A page link shows `[N]`, so formatting a
  second time would link the link's own text again. No idempotence is
  claimed.
- A summarization request that names the document and an area keyword, but
  no selection keyword, gets no answer at all after its own bubble
  (`Routing.UnansweredSummary`).
- `DocumentManager.isValid` is false after every `initialize`, because
  `completePromise` holds the `undefined` result of the `.then` callback. A
  second load therefore changes only `instance` (`Documents.LoadTwice`).
- The range route rejects an out-of-size range with 416 where the RFC would
  clamp it. `bytes=-` is accepted with a `NaN` start
  (`ByteRange.DashOnlyAccepted`).

## Model

| member | source | states |
|---|---|---|
| Replies.UnwrapPriority | webviewer-ask-ai/client/chatbot/response.js:10-32 | a string reply is returned as it is; an object gives its defined `content`, else its truthy `kwargs.content`, else its JSON text; any other value gives `No response received` |
| Strings.IndexOf | webviewer-ask-ai/client/chatbot/response.js:65 | the index found is the first occurrence at or after the start; `None` exactly when there is none |
| Strings.Split | webviewer-ask-ai/client/chatbot/response.js:65 | `split` on a literal separator always gives at least one piece |
| Strings.SplitPiecesLack | webviewer-ask-ai/client/chatbot/response.js:65 | no piece of a split holds the separator, so with `JoinSplit` the pieces are exactly the text between the occurrences |
| Strings.JoinSplit | webviewer-ask-ai/client/chatbot/response.js:65-70 | joining the pieces of a split with the same separator gives the string back |
| Strings.ReplaceAllAbsent | webviewer-ask-ai/client/chatbot/response.js:104 | `replaceAll` of a pattern that never occurs leaves the text as it is |
| Strings.TrimSpec | webviewer-ask-ai/client/ui/functionMap.js:110 | `trim` removes white space at both ends only, its result starts and ends with no white space, and a trimmed string is kept |
| Strings.TrimSlice | webviewer-ask-ai/client/ui/functionMap.js:110 | the trimmed text is the slice between a run of leading and a run of trailing white space |
| Strings.Lower | webviewer-ask-ai/client/globals.js:63 | `toLowerCase` keeps the length and maps each character on its own |
| Strings.ContainsIff | webviewer-ask-ai/client/globals.js:63 | `includes` holds exactly when the pattern occurs at some index |
| Strings.NatToString | webviewer-ask-ai/client/chatbot/response.js:81 | a page number prints as a non-empty run of decimal digits |
| Strings.DecimalValueOfNatToString | webviewer-ask-ai/client/chatbot/response.js:81 | reading the printed number back gives the number |
| Strings.CeilDiv4 | webviewer-ask-ai/client/chatbot/chatbot.js:34 | `Math.ceil(n / 4)` is the least `r` with `4r >= n` |
| Strings.Join | webviewer-ask-ai/client/chatbot/response.js:70 | the parts with the separator between each two of them; no part gives the empty string |
| Strings.ReplaceAll | webviewer-ask-ai/client/chatbot/response.js:104 | the leftmost non-overlapping occurrences of the literal pattern, each replaced by the replacement |
| Strings.Trim | webviewer-ask-ai/client/ui/functionMap.js:110 | the text without its leading and trailing white space |
| Replies.UnwrapIsText | webviewer-ask-ai/client/chatbot/response.js:18-29 | the result is text exactly when the reply is not an object whose chosen `content` (or `kwargs.content`) is a non-string value |
| Replies.UnwrapIdempotent | webviewer-ask-ai/client/chatbot/response.js:14-15 | unwrapping text that came out of an unwrapping gives it back unchanged |
| Replies.ClientServerUnwrapAgree | webviewer-ask-ai/server/handler.js:342-343 | the server's clean-up and the client's unwrapping agree on strings and on objects with a truthy `content`; an object whose `content` is defined but falsy is returned by the client and serialized by the server |
| Replies.UndefinedReply | webviewer-ask-ai/client/chatbot.js:87-110 | the older client's `responseText` answers `undefined` and `null` with the no-response message, while the server leaves `undefined` as it is |
| Replies.GetText | webviewer-ask-ai/client/chatbot/response.js:10-32 | a string is returned as it is; an object gives its defined `content`, else its truthy `kwargs.content`, else its JSON text; any other value gives `No response received` |
| Replies.CleanResponse | webviewer-ask-ai/server/handler.js:342-343 | a string is kept; otherwise its truthy `content`, else its JSON text, which for `undefined` is `undefined` |
| Markup.Scan | webviewer-ask-ai/client/chatbot/response.js:73 | `text.match(re)` with the global flag returns only strings the pattern selects, left to right |
| Markup.Matches | webviewer-ask-ai/client/chatbot/response.js:59-62 | every match of one of the formatter's patterns is selected by the pattern and is a bracketed unit followed by the pattern's suffix |
| Markup.FoldRewrite | webviewer-ask-ai/client/chatbot/response.js:98-106 | replacing units one after another with `replaceAll`, when no replacement creates or hides a later unit, equals one pass that replaces every unit of the enlarged set |
| Markup.MatchesRewrite | webviewer-ask-ai/client/chatbot/response.js:95-106 | replacing the set of a pattern's matches in one pass equals replacing every string the pattern selects |
| Markup.RewriteRemoves | webviewer-ask-ai/client/chatbot/response.js:104 | once a unit is replaced by the pass, it occurs nowhere in the result |
| Markup.ReplaceEachRemoved | webviewer-ask-ai/client/chatbot.js:146-156 | `replaceAll` of units that the pass has already replaced changes nothing |
| Markup.TextWithoutUnits | webviewer-ask-ai/client/chatbot/response.js:73-74 | text without `[` holds no unit, so every pass copies it |
| Citations.DigitRuns | webviewer-ask-ai/client/chatbot/response.js:99 | `match(/\d+/g)` gives non-empty runs of digits only |
| Citations.MarkersOf | webviewer-ask-ai/client/chatbot/response.js:101 | each run `d` gives the marker `[d]`, one per run in order |
| Citations.DigitRunsKeepDigits | webviewer-ask-ai/client/chatbot/response.js:99-102 | the runs, side by side, are exactly the digits of the group in order, so `[1-3]` becomes `[1][3]` and no range is filled in |
| Citations.ExpandScan | webviewer-ask-ai/client/chatbot/response.js:100-102 | the expansion of a group is one marker `[n]` per digit run, in order |
| Citations.SeparateGroupedCitations | webviewer-ask-ai/client/chatbot/response.js:94-110 | the loop over matches, duplicates included, building `formattedMatchNumbers` and calling `replaceAll`, gives the single pass that replaces every group of the pattern by its markers |
| Citations.ExpandIsSinglePass | webviewer-ask-ai/client/globals.js:167-183 | replacing the matches one after another equals replacing every group of the pattern in one pass |
| Citations.ExpansionGood | webviewer-ask-ai/client/chatbot/response.js:104 | an expansion placed in front of any group neither creates nor hides an occurrence of that group |
| Citations.GroupsNeedSeparator | webviewer-ask-ai/client/chatbot/response.js:59-62 | text without the pattern's separator (`,` or `-`) is left unchanged by the expansion |
| Citations.Expand | webviewer-ask-ai/client/chatbot/response.js:99-102 | a grouped citation becomes one marker `[d]` per run of digits in it, in order |
| Links.Distinct | webviewer-ask-ai/client/chatbot/response.js:76 | `[...new Set(ms)]` holds exactly the strings of `ms`, each once |
| Links.LinkMatches | webviewer-ask-ai/client/chatbot/response.js:74-88 | the loop over the distinct matches replaces every occurrence of each marker whose page exists by its link and keeps the others; the result is the sequence of `replaceAll` calls |
| Links.KeepStep | webviewer-ask-ai/client/chatbot/response.js:82-86 | a marker whose page number is out of range is left as it is |
| Links.LinkIsSinglePass | webviewer-ask-ai/client/globals.js:146-161 | linking the distinct markers one after another equals one pass that links every marker of an existing page wherever it stands |
| Links.NoPagesNoLinks | webviewer-ask-ai/client/chatbot/response.js:82-83 | a document without pages gets no links: the text is unchanged |
| Links.LinkOrKeepMarker | webviewer-ask-ai/client/chatbot/response.js:81-86 | a marker `[d]` with `0 < d <= pageCount` becomes the link to page `d` showing `[d]`; any other marker stays verbatim |
| Links.MarkerPageNumber | webviewer-ask-ai/client/chatbot/response.js:81 | the page number of a marker is its digits |
| Links.PageLink | webviewer-ask-ai/client/chatbot/response.js:84 | the link to a page shows `[n]` inside the style's opening and closing; the older client's style is the anchor of webviewer-ask-ai/client/chatbot.js:150 |
| Links.LinkOrKeep | webviewer-ask-ai/client/chatbot/response.js:81-86 | a match whose first run of digits names a page from 1 to the page count becomes the link to that page; any other match is kept |
| Links.Linked | webviewer-ask-ai/client/chatbot/response.js:80-87 | the replacement the link pass applies to each match |
| Layout.PeriodBreaksSpec | webviewer-ask-ai/client/chatbot/response.js:42 | the regex scan for `(\d+\])\.` inserts `<br/><br/>` after exactly the periods that follow `]` after a digit, and changes nothing else |
| Layout.NoCitedPeriodUnchanged | webviewer-ask-ai/client/globals.js:111-116 | text without a cited period comes out of the break pass unchanged |
| Layout.BulletPiecesLack | webviewer-ask-ai/client/chatbot/response.js:46 | no piece of the split on `•\s*` holds the bullet |
| Layout.OneBullet | webviewer-ask-ai/client/chatbot/response.js:51-52 | text without a bullet becomes one item `• ` + its trimmed text, or nothing when it is empty |
| Layout.ListedPieces | webviewer-ask-ai/client/chatbot/response.js:46 | the non-empty pieces of a text written `• q0 • q1 …` are exactly the questions, in order |
| Layout.ListedBullets | webviewer-ask-ai/client/chatbot/response.js:44-53 | such a text comes out as one `• q` item per question, joined by `<br/>` in the original order |
| Layout.NonEmpty | webviewer-ask-ai/client/chatbot/response.js:51 | `.filter(Boolean)` keeps exactly the non-empty strings |
| Layout.CollapseRun | webviewer-ask-ai/client/chatbot/response.js:67 | a marker written one or more times in a row, not followed by another copy, is written once |
| Layout.CollapseSingle | webviewer-ask-ai/client/chatbot/response.js:67 | a marker not followed by a copy of itself is kept |
| Layout.CollapseWithoutMarkers | webviewer-ask-ai/client/chatbot/response.js:67 | text without markers is not changed by the collapse |
| Layout.CollapseKeywordLines | webviewer-ask-ai/client/chatbot/response.js:64-71 | the keyword pass drops empty `<br/>` lines, collapses repeated markers within each line in place, and joins again |
| Layout.CollapsedLines | webviewer-ask-ai/client/chatbot/response.js:66-69 | the collapse is applied to each line, keeping the number of lines |
| Layout.MarkerLenMarker | webviewer-ask-ai/client/chatbot/response.js:67 | what the collapse measures at the head of a line is a marker `[digits]` |
| Layout.KeywordLinesPlain | webviewer-ask-ai/client/globals.js:137-144 | keyword text without markers and without empty lines comes out as it went in |
| Layout.PeriodBreaks | webviewer-ask-ai/client/chatbot/response.js:42 | every `[digits].` gets `<br/><br/>` after its period, and the rest of the text is copied |
| Layout.BulletSplit | webviewer-ask-ai/client/chatbot/response.js:46 | the pieces between the leftmost occurrences of the delimiter, each occurrence taking the white space after it; there is always at least one piece, and the first is a prefix of the text |
| Layout.Bulleted | webviewer-ask-ai/client/chatbot/response.js:44-53 | the non-empty pieces, each trimmed behind `• `, joined by `<br/>` |
| Layout.Collapse | webviewer-ask-ai/client/chatbot/response.js:67 | a marker followed by copies of itself is written once; the rest of the line is copied |
| Formatter.Structured | webviewer-ask-ai/client/chatbot/response.js:37-56 | the summary types get the breaks after cited sentences, the list types get bullets, every other type is unchanged |
| Formatter.FormatText | webviewer-ask-ai/client/chatbot/response.js:36-91 | the formatter is the structural pass, both expansions, the keyword collapse for `DOCUMENT_KEYWORDS`, then the single pass linking every marker of an existing page |
| Formatter.FormattedPlain | webviewer-ask-ai/client/chatbot/response.js:54-56 | for a type without a structural pass, text without markers comes out unchanged |
| Formatter.FormattedSummaryPlain | webviewer-ask-ai/client/globals.js:111-116 | for a summary type, text without markers only gets its breaks |
| Formatter.FormattedNoPages | webviewer-ask-ai/client/globals.js:146-161 | a document without pages gets no links |
| Formatter.LegacyFormatText | webviewer-ask-ai/client/chatbot.js:112-165 | the older formatter expands comma groups only, links markers followed by a period (summary types, as link + `.<br/>`) or all markers (keywords, then bullets), and links nothing for other types |
| Formatter.StaleGroupsUnchanged | webviewer-ask-ai/client/chatbot.js:136-157 | for other types the link loop runs over the comma groups already expanded away, so it changes nothing |
| Formatter.LegacyKeepsRanges | webviewer-ask-ai/client/chatbot.js:113-125 | the older client never expands hyphen ranges: for other types, text without commas is unchanged |
| Formatter.Formatted | webviewer-ask-ai/client/chatbot/response.js:36-91 | the prepared text (structural pass, comma and range expansions, keyword collapse) with every distinct marker of an existing page replaced by its link |
| Formatter.LegacyFormatted | webviewer-ask-ai/client/chatbot.js:112-165 | the older formatter: comma groups expanded, then links on cited sentences for the summary types or on all markers followed by bullets for the keywords; other types keep the expanded text |
| History.TrimHistory | webviewer-ask-ai/client/chatbot/chatbot.js:24-48 | the result is the longest suffix of the history, in order, whose `ceil(len/4)` costs sum to at most `maxTokens` |
| History.TrimmedUnique | webviewer-ask-ai/client/chatbot/chatbot.js:28-45 | that suffix is unique, so the trimming is determined by the history and the budget |
| History.SuffixCostGrows | webviewer-ask-ai/client/chatbot/chatbot.js:40-44 | a longer suffix costs at least as much, so the stop at the first entry that does not fit loses nothing |
| History.PrepareMessage | webviewer-ask-ai/client/chatbot/chatbot.js:105-120 | no question gives the document text; an exact contextual question gives `Question: q\n\nDocument Content:\n` + text; a history question gives `Human Question: q…`; other types drop the question |
| History.HistoryText | webviewer-ask-ai/client/chatbot/chatbot.js:81-90 | for a `DOCUMENT_` type, the extracted question, else the first 200 characters and the exclusion note for a longer message, else the message; other types store the message |
| History.ExtractFrom | webviewer-ask-ai/client/chatbot/chatbot.js:84 | a match of `(Human Question\|Question): (.+?)\n\nDocument Content:` captures a non-empty single line followed by the document tag |
| History.EnvelopeCapture | webviewer-ask-ai/client/chatbot/chatbot.js:84-86 | the envelope of a one-line question is parsed back to that question |
| History.QuestionRoundTrip | webviewer-ask-ai/client/chatbot/chatbot.js:113-117 | for a non-empty, newline-free question, preparing the message and then extracting gives the question back, and that is the stored text |
| History.Trimmed | webviewer-ask-ai/client/chatbot/chatbot.js:24-48 | the trimmed history is the longest suffix of the history whose cost is within the budget: it costs at most the budget, and every longer suffix costs more |
| History.ExtractQuestion | webviewer-ask-ai/client/chatbot/chatbot.js:84-86 | the first capture of `(?:Human Question|Question): (.+?)\n\nDocument Content:`: a non-empty line that the text holds followed by the document tag |
| Chat.Budget | webviewer-ask-ai/client/chatbot/chatbot.js:54-58 | the history budget is `maxTokens \|\| 8000`, raised to at least 8000 for a prompt type containing `DOCUMENT_` |
| Chat.ConversationLog.CreateBubble | webviewer-ask-ai/client/config/ui/functionMap.js:238-239 | each bubble appends exactly one `{role, content}` entry to the conversation log |
| Chat.Chatbot.constructor | webviewer-ask-ai/client/chatbot/chatbot.js:8-21 | a new client has an empty history, `useEmpty` false, `maxTokens` 8000 and `skipUpdate` false |
| Chat.ConversationLog.constructor | webviewer-ask-ai/client/globals.js:9-10 | the conversation log starts empty |
| Chat.Chatbot.ResponseText | webviewer-ask-ai/client/chatbot/chatbot.js:137-147 | an answer becomes its formatted text for the prompt type with module-button links; an error becomes `Error: ` + its message |
| Chat.Chatbot.SendMessage | webviewer-ask-ai/client/chatbot/chatbot.js:50-102 | the request carries the message, the type and an empty or trimmed history; an answer is returned and, unless `skipUpdate`, exactly two entries are appended, human `type: text` then assistant; a failure leaves the history unchanged |
| Chat.Chatbot.ProcessQuestions | webviewer-ask-ai/client/chatbot/chatbot.js:123-150 | the prepared message is sent, an exact contextual question raises `maxTokens` to 10000 for good, and the bubble text is the formatted answer or `Error: ` + the message |
| Chat.Chatbot.ProcessContextualQuestions | webviewer-ask-ai/client/chatbot/chatbot.js:137-147 | for `DOCUMENT_CONTEXTUAL_QUESTIONS` the questions read from the second history entry are transferred to the slots; a failed request, or a history with fewer than two entries, changes no slot |
| Chat.Chatbot.TransferContextualQuestions | webviewer-ask-ai/client/chatbot/chatbot.js:189-242 | the parsed questions are kept, bound to the slots as planned, and the slots' elements are regrouped |
| Chat.Chatbot.AskQuestionByPrompt | webviewer-ask-ai/client/chatbot/chatbot.js:152-165 | the question is processed and the result shown as one assistant bubble |
| Chat.Chatbot.SummarizeTextByPrompt | webviewer-ask-ai/client/chatbot/chatbot.js:170-186 | the text is sent as it is with the prompt type, the history budget is not changed, and one assistant bubble shows the formatted answer or the error |
| Chat.StoredQuestion | webviewer-ask-ai/client/chatbot/chatbot.js:92-95 | a one-line question is stored as `type: q`: the document travels in the request but not in the history |
| Chat.SentHistoryWithinBudget | webviewer-ask-ai/client/chatbot/chatbot.js:57-59 | the history sent costs at most the budget; for a `DOCUMENT_` type a history costing at most 8000 is sent whole |
| Panel.RegisterSlots | webviewer-ask-ai/client/ui/functionMap.js:40-54 | each question item is pushed onto `questionsLIs` as its configuration and element, in configuration order; info items are not registered |
| Panel.RegisterMembers | webviewer-ask-ai/client/ui/functionMap.js:46-54 | a slot is registered for every question item and for nothing else |
| Panel.RegisterAppend | webviewer-ask-ai/client/ui/functionMap.js:40-54 | registering two runs of items in turn registers their slots in the same order |
| Panel.Config.constructor | webviewer-ask-ai/client/ui/functionMap.js:46-50 | a configuration item holds its kind, prompt type and content |
| Panel.ParseWithoutDelimiter | webviewer-ask-ai/client/chatbot/chatbot.js:192-195 | an answer without the `â€¢` delimiter parses to one trimmed question, or none when it is empty |
| Panel.Plan | webviewer-ask-ai/client/chatbot/chatbot.js:203-226 | the `n`-th exact-question slot is given the `n`-th question when the list reaches it; every other slot is given nothing |
| Panel.BindQuestions | webviewer-ask-ai/client/chatbot/chatbot.js:203-226 | the binding loop sets both the element text and the configuration `content` of each planned slot and leaves every other slot as it was |
| Panel.AssignedSlots | webviewer-ask-ai/client/chatbot/chatbot.js:209-219 | each slot's element ends with its planned text, or its old text when it takes nothing |
| Panel.AssignedOthers | webviewer-ask-ai/client/chatbot/chatbot.js:205-226 | an element that belongs to no slot keeps its text |
| Panel.RanksIncrease | webviewer-ask-ai/client/chatbot/chatbot.js:203-225 | the index advances once per exact-question slot, so no question is bound twice and the first slots of the type are the ones bound |
| Panel.Regroup | webviewer-ask-ai/client/chatbot/chatbot.js:229-241 | when the first slot's element has a parent, a new `ul` receives every slot's element in slot order and is appended to that parent; otherwise nothing changes |
| Panel.AppendSlots | webviewer-ask-ai/client/chatbot/chatbot.js:237-239 | the loop appends every slot's element, in slot order, as the last child of the new list |
| Panel.RegroupedLists | webviewer-ask-ai/client/chatbot/chatbot.js:233-241 | afterwards the new list holds all the slots' elements in order and is the last child of the former parent; every other list lost those elements and nothing else |
| Panel.RegroupedParents | webviewer-ask-ai/client/chatbot/chatbot.js:233-241 | every slot's element, matching or not, has the new list as parent; the list has the former parent; every other element keeps its own |
| Panel.MovedAllLists | webviewer-ask-ai/client/chatbot/chatbot.js:237-239 | moving distinct elements one by one takes each out of every list and leaves them, in order, at the end of the new one |
| Panel.Register | webviewer-ask-ai/client/ui/functionMap.js:40-54 | the items of one message that are of kind `question` become slots, each with its configuration and its element, in order |
| Panel.RegisterAll | webviewer-ask-ai/client/ui/functionMap.js:40-54 | the slots of every message, message after message |
| Panel.ParseQuestions | webviewer-ask-ai/client/chatbot/chatbot.js:192-195 | the pieces of the text between the delimiters, without the empty ones, each trimmed |
| Dom.Document.CreateElement | webviewer-ask-ai/client/chatbot/chatbot.js:235 | `document.createElement` gives a new element with no text, no parent and no children, and keeps the tree consistent |
| Dom.Document.constructor | webviewer-ask-ai/client/chatbot/chatbot.js:235 | the tree stands for the page's `document`, whose `createElement` the client calls: it starts with no elements, consistent, every element with a text |
| Dom.Document.SetText | webviewer-ask-ai/client/chatbot/chatbot.js:212 | setting `innerText` changes that element's text only |
| Dom.DetachMembers | webviewer-ask-ai/client/chatbot/chatbot.js:238 | taking elements out of a child list keeps exactly the listed elements not taken out |
| Dom.Moved | webviewer-ask-ai/client/chatbot/chatbot.js:238 | `appendChild` changes the lists of existing nodes only |
| Dom.Document.AppendChild | webviewer-ask-ai/client/chatbot/chatbot.js:238 | `appendChild` takes the element out of its old parent's list and puts it at the end of the new parent's list |
| Dom.AppendIsMoved | webviewer-ask-ai/client/chatbot/chatbot.js:238 | in a consistent tree, the updates of `appendChild` take the element out of every list and add it to the new parent's |
| Dom.MovedLinked | webviewer-ask-ai/client/chatbot/chatbot.js:240 | moving an element under another keeps the tree consistent |
| Routing.ContainsAnyIff | webviewer-ask-ai/client/globals.js:62-64 | `containsAny` is true exactly when some lower-cased keyword occurs in the lower-cased text |
| Routing.ContainsAnyLower | webviewer-ask-ai/client/config/ui/functionMap.js:248-250 | lower-casing the text before the test, as the configuration panel does, changes nothing |
| Routing.ClassifyLower | webviewer-ask-ai/client/config/ui/functionMap.js:156-171 | every keyword test on the lower-cased question has the same outcome as on the question |
| Routing.StarterSlots | webviewer-ask-ai/client/globals.js:23-59 | the starter messages give five slots: the summary and keyword questions, then exactly three exact-question slots showing `Loading...` |
| Routing.PanelQuestionItems | webviewer-ask-ai/client/config/ui/functionMap.js:30-59 | the configuration panel's messages give the summary and keyword questions only |
| Routing.RenderPanel | webviewer-ask-ai/client/ui/functionMap.js:5-13 | nothing is built and no slot registered without the keyword lists or the assistant messages; otherwise the question items are registered in order |
| Routing.BlankQuestion | webviewer-ask-ai/client/ui/functionMap.js:110-114 | a blank question gets only `Please ask a question first.` on both panels, and sends nothing |
| Routing.OtherQuestion | webviewer-ask-ai/client/ui/functionMap.js:139-146 | a question without a summarization keyword is shown and sent once: as a history question with a history keyword, else as a document question |
| Routing.SummaryRequests | webviewer-ask-ai/client/ui/functionMap.js:119-136 | a summarization request asks for the document summary when it names the document and no area, and for the selection summary when it names a selection and the clipboard is not blank |
| Routing.SummaryAndSelection | webviewer-ask-ai/client/ui/functionMap.js:121-131 | the two checks are independent: a request naming the document and a selection, without an area, makes both requests |
| Routing.SummaryMembers | webviewer-ask-ai/client/config/ui/functionMap.js:156-174 | the summarization checks request only the document summary and the selection summary, besides bubbles |
| Routing.PanelDispatchPrompts | webviewer-ask-ai/client/config/ui/functionMap.js:156-190 | after a non-blank question the configuration panel asks by prompt for the document summary only |
| Routing.Shown | webviewer-ask-ai/client/ui/functionMap.js:116 | showing the question adds its human bubble first and no request |
| Routing.PanelNoHistory | webviewer-ask-ai/client/config/ui/functionMap.js:176-190 | the configuration panel never sends a history question; its only prompt is the document summary |
| Routing.PanelPlainQuestion | webviewer-ask-ai/client/config/ui/functionMap.js:176-190 | the configuration panel sends every question without a summarization keyword as a document question |
| Routing.PlainQuestion | webviewer-ask-ai/client/ui/functionMap.js:144-145 | a question with neither a summarization nor a history keyword is shown and sent as `DOCUMENT_QUESTION` |
| Routing.UnansweredSummary | webviewer-ask-ai/client/ui/functionMap.js:119-137 | a summarization request naming the document and an area, without a selection keyword, gets nothing after its own bubble |
| Routing.Clicks | webviewer-ask-ai/client/ui/functionMap.js:62-67 | a question item and the selection popup each show one human bubble and make one request; the current panel passes the item's text, the configuration panel only its prompt type |
| Routing.Dispatched | webviewer-ask-ai/client/ui/functionMap.js:118-146 | after the question is shown, the handler's bubbles go to the log in order and its requests are those of the table |
| Routing.SendText | webviewer-ask-ai/client/ui/functionMap.js:109-149 | the Send handler on the trimmed input follows the table, and clears the box exactly when the question is not blank |
| Routing.QuestionInput.constructor | webviewer-ask-ai/client/ui/functionMap.js:110 | the input box holds the given value |
| Routing.Send | webviewer-ask-ai/client/ui/functionMap.js:109-149 | a click on Send makes the table's requests and bubbles, and empties the input box after any question that is not blank |
| Routing.ContainsAny | webviewer-ask-ai/client/globals.js:62-64 | some keyword, lower-cased, occurs in the lower-cased text |
| Routing.Classify | webviewer-ask-ai/client/ui/functionMap.js:119-141 | the outcome of the five keyword tests on a question: summarization, the word `document` in its lower-cased text, area, selection and history |
| Routing.Dispatch | webviewer-ask-ai/client/ui/functionMap.js:118-146 | a summarization request gets the three summary checks on the clipboard; otherwise a history question is asked with its text, and any other question is sent as a document question |
| Routing.Route | webviewer-ask-ai/client/ui/functionMap.js:109-149 | a blank input gets the ask-first bubble only; otherwise the trimmed question as a human bubble, then what the table does with it |
| Routing.PanelRoute | webviewer-ask-ai/client/config/ui/functionMap.js:146-191 | the configuration panel's table: a blank input gets the ask-first bubble only; otherwise the human bubble, then the table on the lower-cased question |
| Routing.PanelDispatch | webviewer-ask-ai/client/config/ui/functionMap.js:156-190 | on the configuration panel a summarization request gets the three summary checks on `window.selectedText`; any other question is sent as a document question |
| Routing.PopupClick | webviewer-ask-ai/client/ui/functionMap.js:161-164 | the selection popup shows `Summarize the selected text.` and asks for a summary of the clipboard |
| Routing.PanelPopupClick | webviewer-ask-ai/client/config/ui/functionMap.js:200-203 | the configuration panel's popup shows the same bubble and summarizes `window.selectedText` |
| Routing.ItemClick | webviewer-ask-ai/client/ui/functionMap.js:62-65 | a question item shows its text as a human bubble and asks by its prompt type, passing its text |
| Routing.PanelItemClick | webviewer-ask-ai/client/config/ui/functionMap.js:101-104 | a question item of the configuration panel shows its text and asks by its prompt type only |
| Documents.DocumentManager.Initialize | webviewer-ask-ai/client/documentManager.js:23-47 | a valid manager reads the name and page count and appends each page's header, text (or the error text) and blank line in page order; `isValid` ends false; an invalid one only refreshes `instance` |
| Documents.DocumentManager.constructor | webviewer-ask-ai/client/documentManager.js:13-21 | a new manager has no instance, an empty name and text, no pages, no completed load, and is valid |
| Documents.ManagerTextPrefix | webviewer-ask-ai/client/documentManager.js:33-41 | later pages never change the text of earlier ones: the text of the first `k` pages is a prefix |
| Documents.LoadTwice | webviewer-ask-ai/client/documentManager.js:24-28 | a manager loaded twice keeps what the first load read and only takes the second document as its instance |
| Documents.ManagerText | webviewer-ask-ai/client/documentManager.js:33-41 | the manager's text: for each page in order, its header, its text or the error text, and a blank line |
| Legacy.PageTexts | webviewer-ask-ai/client/chatbot.js:50 | page `i` is stored at index `i-1` as `<<PAGE_BREAK>> Page i\n` + its text, or the error text |
| Legacy.SendMessage | webviewer-ask-ai/client/chatbot.js:11-34 | the older client posts the message and the prompt type without history, and returns the answer or the HTTP error |
| Legacy.SendAll | webviewer-ask-ai/client/chatbot.js:55-63 | the joined text is sent once, and the formatted answer or the error becomes one `system` bubble |
| Legacy.GetAllText | webviewer-ask-ai/client/chatbot.js:36-84 | every page is stored at its index, the entries are joined by `\n\n` and sent once after all pages are counted; a document without pages sends nothing |
| Legacy.ManagerTextIsAllText | webviewer-ask-ai/client/chatbot.js:46-55 | the older client's joined text is the manager's text without its final blank line |
| Legacy.PageText | webviewer-ask-ai/client/chatbot.js:50 | a page's entry in the older client: `<<PAGE_BREAK>> Page i` and a new line before its text, or the error text for a page that failed |
| Legacy.AllText | webviewer-ask-ai/client/chatbot.js:55 | the page entries joined by `\n\n` |
| GuardRails.SettingsLookup | webviewer-ask-ai/server/handler.js:158-160 | each of the seven registered types gets its own entry; any other or absent type gets the `default` entry |
| GuardRails.SettingsValues | webviewer-ask-ai/server/handler.js:25-74 | every entry has temperature 0 and seed 42; the history question has 800 tokens, keywords 300, the other registered types 500, the default 1000 |
| GuardRails.PromptSettings | webviewer-ask-ai/server/handler.js:158-160 | the rail of the prompt type, or the default rail when the type has none or is absent |
| Tokens.Loaded | webviewer-ask-ai/server/handler.js:10-20 | a library already loaded is kept; otherwise the import's outcome is taken |
| Tokens.LoadedIdempotent | webviewer-ask-ai/server/llmManager.js:19-30 | loading a second time changes nothing |
| Tokens.Count | webviewer-ask-ai/server/handler.js:77-131 | the count is the library's when loaded, else the model's when it is ready and answers, else `ceil(length / 4)` |
| Tokens.ChunksGood | webviewer-ask-ai/server/handler.js:134-155 | every chunk is non-empty, and is a single word of the text or has a count within the budget |
| Tokens.FeedAllGood | webviewer-ask-ai/server/handler.js:139-148 | the chunk loop keeps that property for the chunks closed so far and the one being built |
| Tokens.EmptyTextNoChunks | webviewer-ask-ai/server/handler.js:150-152 | empty text yields no chunks |
| Tokens.ChunksJoin | webviewer-ask-ai/server/handler.js:135-154 | for text without leading, trailing or doubled spaces, the chunks joined by single spaces give the text back |
| Tokens.FeedAllJoin | webviewer-ask-ai/server/handler.js:139-148 | during the loop, the closed chunks and the current one joined by spaces are the words so far |
| Tokens.Feed | webviewer-ask-ai/server/handler.js:140-147 | one word: when the extended chunk counts more than the budget and the current chunk is not empty, the current chunk is closed and the word starts the next one; otherwise the word extends the current chunk |
| Tokens.FeedAll | webviewer-ask-ai/server/handler.js:139-148 | the words fed in order, starting with no chunks and an empty current chunk |
| Tokens.Chunks | webviewer-ask-ai/server/handler.js:134-155 | the text split on single spaces and fed word by word; a non-empty last chunk is added at the end |
| Handler.HistoryMessages | webviewer-ask-ai/server/handler.js:319-323 | each history entry becomes one message, in order: human entries as they are, others as previous assistant responses |
| Handler.ConversationKeepsHistory | webviewer-ask-ai/server/handler.js:317-325 | the messages are the instruction, the whole history in order, then the content; the history can be recovered from them entry for entry |
| Handler.ChunkCalls | webviewer-ask-ai/server/handler.js:263-272 | chunk `i` is sent with the note `chunk i+1 of n`, 120 tokens, and the rail's temperature and seed |
| Handler.AnswersInOrder | webviewer-ask-ai/server/handler.js:274-276 | the chunk answers are collected exactly when every call answered, in the order of the calls |
| Handler.AttemptedUntilFailure | webviewer-ask-ai/server/handler.js:263-278 | a failed run made the calls up to and including the first that failed, and no call after it |
| Handler.KeywordChunkCalls | webviewer-ask-ai/server/handler.js:258-278 | the keyword path calls the model on the chunks in order, each with 120 tokens and its note |
| Handler.KeywordConsolidation | webviewer-ask-ai/server/handler.js:281-292 | when every chunk answered, exactly one more call follows, at temperature 0 with 200 tokens and seed 42, on the answers in chunk order joined by `\n\n---\n\n` |
| Handler.KeywordFailure | webviewer-ask-ai/server/handler.js:274-276 | when a chunk fails, the path fails with no consolidation call |
| Handler.ValidationFirst | webviewer-ask-ai/server/handler.js:233-243 | an unready service answers 500 and a missing, empty or non-string message 400, both before any call |
| Handler.WholeMessage | webviewer-ask-ai/server/handler.js:316-339 | a message that fits, of any type but `DOCUMENT_CONTEXTUAL_QUESTION_EXACTLY`, is sent in exactly one call, on the instruction, the history and the message, with all of the rail's settings |
| Handler.ExactQuestionFails | webviewer-ask-ai/server/handler.js:327-328 | a `DOCUMENT_CONTEXTUAL_QUESTION_EXACTLY` message that fits is answered with the generic 500 and no call, because the debug logging throws first |
| Handler.PlanAsIntended | webviewer-ask-ai/server/handler.js:316-339 | the path as written and the intended path differ exactly on a fitting `DOCUMENT_CONTEXTUAL_QUESTION_EXACTLY` message |
| Handler.IntendedWholeMessage | webviewer-ask-ai/server/handler.js:316-339 | with logging that does not throw, every message that fits is sent in one call with all of the rail's settings, and the answer is the model's |
| Handler.FirstChunkOnly | webviewer-ask-ai/server/handler.js:294-313 | oversized input of a type without `keywords` sends only the first chunk, with the note on the instruction and the history in between |
| Handler.OversizedWithoutType | webviewer-ask-ai/server/handler.js:258 | oversized input without a prompt type fails on `toLowerCase`: 500 and no call |
| Handler.ChatServer.constructor | webviewer-ask-ai/server/handler.js:167-189 | start-up is ready exactly when there is an API key and `new ChatOpenAI` did not throw; the maximum is the environment's non-zero number, else 1000; the seed is 42 |
| Handler.ChatServer.InitializeTiktoken | webviewer-ask-ai/server/handler.js:10-20 | the cached library is returned, else the import's, which is kept when it loads |
| Handler.ChatServer.GetTokenCount | webviewer-ask-ai/server/handler.js:77-131 | the count is `Tokens.Count` of the counting in force, and the library is loaded at most once |
| Handler.ChatServer.ChunkText | webviewer-ask-ai/server/handler.js:134-155 | the word loop gives the chunks of `Tokens.Chunks` |
| Handler.ChatServer.CountTokens | webviewer-ask-ai/server/handler.js:197-228 | `/api/token-count` answers 500 when unready and 400 for a missing text, otherwise 200 with the count and the text length |
| Handler.ChatServer.Invoke | webviewer-ask-ai/server/handler.js:274 | each model call is recorded with the messages and the settings in force, and gives the model's answer |
| Handler.ChatServer.CallOnChunk | webviewer-ask-ai/server/handler.js:264-274 | the chunk's settings are set, then exactly one call is recorded on the note and the chunk |
| Handler.ChatServer.ChunkAnswers | webviewer-ask-ai/server/handler.js:263-278 | the chunk loop makes the calls in order until one fails, and collects every answer when none fails |
| Handler.ChatServer.KeywordAnswer | webviewer-ask-ai/server/handler.js:258-292 | the keyword path makes the calls and gives the answer of the keyword run |
| Handler.ChatServer.Answer | webviewer-ask-ai/server/handler.js:246-339 | a valid message is answered by the path `Plan` chooses from the oversize estimate and the prompt type, including the failure of a fitting exact contextual question in the debug logging; without a call the settings stay as they were |
| Handler.ChatServer.Chat | webviewer-ask-ai/server/handler.js:231-351 | `/api/chat` makes exactly the calls of `Serve` and gives its response: the validation errors, the answer, or the generic 500, which a fitting exact contextual question always gets |
| Handler.Conversation | webviewer-ask-ai/server/handler.js:317-325 | the messages of a call: the rail's instruction as an assistant message, the history in order, then the content as a human message |
| Handler.Plan | webviewer-ask-ai/server/handler.js:246-339 | a message that fits (message count + instruction count + 500 at most 16000) is sent whole with the rail's settings, except the exact contextual question, which throws in the debug logging and makes no call; an oversized message with no prompt type makes no call; an oversized keyword message is sent chunk by chunk and consolidated; any other oversized message sends only its first chunk with the history |
| Handler.Respond | webviewer-ask-ai/server/handler.js:341-349 | an answer becomes the 200 reply with its text; a run that failed becomes the 500 reply with the generic processing error |
| Handler.Serve | webviewer-ask-ai/server/handler.js:231-351 | an unready service answers 500 and a missing, empty or non-string message 400, both with no call; otherwise the calls of the plan and the reply to its answer |
| Manager.LLMManager.constructor | webviewer-ask-ai/server/llmManager.js:11-15 | a new manager holds no model, parser or library, and is not initialised |
| Manager.LLMManager.Initialize | webviewer-ask-ai/server/llmManager.js:117-143 | without an API key, or when the model cannot be built, nothing changes; otherwise the model and the parser are set and the manager is initialised |
| Manager.LLMManager.TuneSettings | webviewer-ask-ai/server/llmManager.js:156-168 | only an initialised manager given a truthy `maxTokens` changes, and only the model's `maxTokens` |
| Manager.LLMManager.ExecuteMessages | webviewer-ask-ai/server/llmManager.js:173-192 | an uninitialised manager returns `null` without invoking; otherwise one invocation is recorded, and a falsy response or parse gives `null` |
| Manager.ExecutedNullOrTruthy | webviewer-ask-ai/server/llmManager.js:179-191 | the result is `null` or truthy, and is the parse whenever not `null` |
| Manager.LLMManager.InitializeTiktoken | webviewer-ask-ai/server/llmManager.js:19-30 | once a library is loaded, every later call returns that same library |
| Manager.LLMManager.GetTokenCount | webviewer-ask-ai/server/llmManager.js:36-88 | the library's count, else the model's when initialised and answering, else `ceil(length / 4)` |
| Manager.LLMManager.ChunkText | webviewer-ask-ai/server/llmManager.js:94-113 | the word loop gives the chunks of `Tokens.Chunks`, with the same single-word-or-within-budget and join properties |
| ByteRange.MatchAtSound | webviewer-range-request/server/server.js:40 | a match found at a position is a match of `bytes=(\d*)-(\d*)` there |
| ByteRange.MatchAt | webviewer-range-request/server/server.js:40 | a match at a position has digit groups only |
| ByteRange.HeaderGroups | webviewer-range-request/server/server.js:40 | `bytes=x-y` followed by anything not going on with a digit has the groups `x` and `y` |
| ByteRange.MatchAtGreedy | webviewer-range-request/server/server.js:40 | every regex match at that position has its dash at the same place, and the second group taken is the longest one |
| ByteRange.FirstMatchLeftmost | webviewer-range-request/server/server.js:40 | the match used is at the leftmost position where one exists |
| ByteRange.FirstMatchNone | webviewer-range-request/server/server.js:40 | there is no match exactly when no position holds one |
| ByteRange.ParseInt | webviewer-range-request/server/server.js:47-52 | `parseInt` of a digit group is its decimal value, and `NaN` exactly when the group is empty |
| ByteRange.SuffixSpan | webviewer-range-request/server/server.js:45-49 | `bytes=-n` gives `start = fileSize - n` and `end = fileSize - 1` |
| ByteRange.ExplicitSpan | webviewer-range-request/server/server.js:50-53 | `bytes=a-b` gives `[a, b]`, and `bytes=a-` gives `[a, fileSize - 1]` |
| ByteRange.SpanNumbers | webviewer-range-request/server/server.js:45-53 | the end is always a number; the start is `NaN` exactly when both groups are empty |
| ByteRange.UnsatisfiableIff | webviewer-range-request/server/server.js:56-62 | with a numeric start the range is rejected exactly when `0 <= start <= end < fileSize` fails; an accepted range has a length between 1 and the file size |
| ByteRange.NaNStartAccepted | webviewer-range-request/server/server.js:56 | a `NaN` start fails every comparison, so a span ending inside the file is not rejected |
| ByteRange.Requested | webviewer-range-request/server/server.js:39-40 | an absent or empty header asks for no range; otherwise the first match is used |
| ByteRange.NoRequest | webviewer-range-request/server/server.js:39-40 | no range is asked for exactly when the header is absent, empty, or holds no match anywhere |
| ByteRange.WholeFileServed | webviewer-range-request/server/server.js:81-86 | without a range the answer is 200 with `Content-Length` the file size, the whole file, and no `Content-Range` |
| ByteRange.RejectedIff | webviewer-range-request/server/server.js:56-59 | the answer is 416 exactly when the span fails the test, and then carries `bytes */fileSize`, an empty body and no `Content-Length` |
| ByteRange.AcceptedRange | webviewer-range-request/server/server.js:62-72 | an accepted numeric span lies within the file; the answer is 206 with `bytes start-end/fileSize`, a length of `end - start + 1` between 1 and the size, and the part fetched with `Range: bytes=start-end` |
| ByteRange.CommonHeadersKept | webviewer-range-request/server/server.js:34-36 | every answer given once the size is known carries the three common headers |
| ByteRange.FetchFailure | webviewer-range-request/server/server.js:88-91 | a failed fetch is answered 500 with `Error fetching PDF file` |
| ByteRange.ExplicitHeader | webviewer-range-request/server/server.js:40-53 | `bytes=a-b`, followed by anything that does not continue with a digit, is read as `a` to `b`; later ranges of a list are ignored |
| ByteRange.SuffixHeader | webviewer-range-request/server/server.js:45-49 | `bytes=-n` is read as the last `n` bytes |
| ByteRange.DashOnlyAccepted | webviewer-range-request/server/server.js:45-59 | `bytes=-` passes the test with a `NaN` start and is answered 206 with `NaN` in `Content-Range`, `Content-Length` and the upstream range |
| ByteRange.SetCommon | webviewer-range-request/server/server.js:34-36 | the three common headers are added and nothing else changes |
| ByteRange.CommonHeaders | webviewer-range-request/server/server.js:34-36 | the common headers are exactly `Access-Control-Expose-Headers`, `Accept-Ranges: bytes` and `Content-Type: application/pdf` |
| ByteRange.Response.constructor | webviewer-range-request/server/server.js:24 | a new response is 200 with no headers and nothing sent |
| ByteRange.Response.Set | webviewer-range-request/server/server.js:34 | `res.set` sets one header and keeps the others |
| ByteRange.Response.Status | webviewer-range-request/server/server.js:57 | `res.status` sets the status |
| ByteRange.Response.Send | webviewer-range-request/server/server.js:57 | `res.send`/`res.end` set the body |
| ByteRange.Reject | webviewer-range-request/server/server.js:57 | status 416, `Content-Range: bytes */fileSize`, and an empty body |
| ByteRange.SendPart | webviewer-range-request/server/server.js:62-76 | 206 with `Content-Range` and `Content-Length`, then the fetched part, or 500 with the error text once those headers are set |
| ByteRange.ServeRange | webviewer-range-request/server/server.js:56-77 | the range path leaves the status, the added headers and the body of `RangeReply` |
| ByteRange.ServeWhole | webviewer-range-request/server/server.js:82-86 | the path without a range leaves those of `WholeReply` |
| ByteRange.Linearized | webviewer-range-request/server/server.js:24-92 | the handler leaves the status and body of `Served` and adds its headers to those already set |
| ByteRange.FirstMatch | webviewer-range-request/server/server.js:40 | the leftmost match of `bytes=(\d*)-(\d*)` from the given index; both groups of a match are digit strings |
| ByteRange.Resolve | webviewer-range-request/server/server.js:45-53 | `bytes=-n` is the span from `size - n` to `size - 1`; otherwise the start is group one read by `parseInt` (NaN when empty) and the end is group two read the same way, or `size - 1` when group two is empty |
| ByteRange.Unsatisfiable | webviewer-range-request/server/server.js:56 | the span is refused when the start is at least the size or negative, the end is at least the size, or the end is before the start, each comparison false for NaN |
| ByteRange.RangeReply | webviewer-range-request/server/server.js:55-77 | a refused span answers 416 with `Content-Range: bytes */size`; otherwise `Content-Range` and `Content-Length` are set and the part fetched with its own range header is sent with 206, or the fetch failure answers 500 |
| ByteRange.WholeReply | webviewer-range-request/server/server.js:81-86 | without a usable range, `Content-Length` is the size and the whole file is sent with 200, or the fetch failure answers 500 |
| ByteRange.Served | webviewer-range-request/server/server.js:24-92 | a failed HEAD request answers 500 with no headers; otherwise the three common headers, then the range reply when the header matches, else the whole-file reply |

## Findings

| source | as written | input that shows it | evidently intended | confidence | as-written member | corrected member |
|---|---|---|---|---|---|---|
| webviewer-ask-ai/server/handler.js:328 | the debug logging reads `guardRail.LLM.Prompt`, and no guard rail has an `LLM` field, so it throws a TypeError before `llm.invoke` | a ready server, `promptType: 'DOCUMENT_CONTEXTUAL_QUESTION_EXACTLY'`, a message within the token estimate: the reply is 500 `An error occurred while processing your request` and the model is never called | the logging reads `assistantPrompt`, and the question is sent whole in one call like every other type | not executed; high | Handler.ExactQuestionFails | Handler.IntendedWholeMessage |

The server model (`Handler.Plan`, `Handler.ChatServer.Answer`) follows the code
as written. `Handler.IntendedPlan` is the path with logging that does not
throw, and `Handler.PlanAsIntended` proves that the two differ only in this
case.

## Left out

- The language model, its parser, `fetch('/api/chat')` and the upstream PDF fetches are not modelled. Each is given to the operation that uses it, as an oracle or as its outcome, because they are network calls and a foreign library.
- The tokenizer encoding and LangChain's `getNumTokens` are uninterpreted functions. They are foreign libraries. Only the `ceil(length / 4)` fallback is concrete.
- The timeout in `getTokenCount` (`Promise.race` with `setTimeout`) is timers and concurrency. Its loss only shows in the model as `getNumTokens` giving `None`.
- Chat.Chatbot.TransferContextualQuestions: requires at least one slot. With `questionsLIs` empty, the un-awaited self-call recurses until the stack overflows. The innermost call's promise rejects, the outer calls return with nothing bound, and the stored questions are a prefix of the parsed ones that depends on where the stack ran out. The page renders the panel before the request is sent, so the slots exist.
- Replies: objects are finite maps to basic values. Prototype properties, getters and `JSON.stringify` throwing on cycles are not modelled.
- Strings use sequence length, not UTF-16 code units. `toLowerCase` maps ASCII `A`–`Z` only.
- Legacy.GetAllText: the send that the source starts from within the loop, at the last page, is made once the loop is done. Page loads are not concurrent, so nothing observable differs.
- The element styling, hover and click class names, scrolling, spinners and `innerHTML` rendering are not modelled, because they are DOM presentation. The `bubble`/`createBubble` functions are modelled as their log append.
- Routing: the current panel's clipboard is always a string, since the page sets it to `''` before the panel exists.
- The logger's console output is left out. The one logger call that decides a response is modelled: `logContextualQuestionDebug` throws for `DOCUMENT_CONTEXTUAL_QUESTION_EXACTLY` (`Handler.LoggerThrows`).
- Handler.ChatServer.Chat, Handler.ChatServer.Answer, Chat.Chatbot.SendMessage: the model assumes requests are served one at a time. On the server, overlapping `/api/chat` requests share one `llm` and interleave at every `await`, so one request's settings (say the keyword path's 120 tokens) can reach another's call. On the client, overlapping `sendMessage` calls append their history entries in completion order.
- Handler: a `promptType` that is not a string, or that names an `Object.prototype` property, is not modelled; the type is an optional string.
- Handler: `history` is a sequence of entries. A non-array `history` that makes `.map` throw is not modelled.
- Handler: the parser is assumed to return a string, so the clean-up keeps it as it is.
- Handler.ChatServer.constructor: the environment's temperature is a parameter, and `parseFloat` is not modelled. All guard rails use 0.0.
- Manager.LLMManager.Initialize: the `ChatOpenAI` options parsed from the environment are not modelled. The model is given, built or not.
- Manager.LLMManager.TuneSettings: the default argument `{ maxTokens }` is not modelled, because it reads an undeclared variable. The method takes `settings.maxTokens`.
- Manager.LLMManager.ExecuteMessages: an `invoke` or `parse` that throws is not modelled. Each returns a value.
- ByteRange.Served: a missing `content-length` header makes `fileSize` `NaN`. This is not modelled: the size is a natural number, or `None` when the HEAD request fails.
- ByteRange.ParseInt: digit groups above 2^53 lose precision in JavaScript, and the model reads them exactly.
- ByteRange.Linearized: `res.send` recomputing `Content-Length` from the body, the CORS middleware's own headers, and streaming are Express behaviour outside the route.
- The upstream `fetch` calls of the range server are given as their outcome, because they are I/O.
