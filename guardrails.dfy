/**
 * The server's guard rails: for each prompt type the client may send, the
 * instruction the model is given first and the settings of the call; any
 * other type gets the `default` entry.
 */
module GuardRails {
  import opened Wrappers
  import opened Prompts

  /** `{ assistantPrompt, maxTokens, temperature, seed }`. */
  datatype GuardRail = GuardRail(assistantPrompt: string, maxTokens: nat, temperature: real, seed: nat)

  const DefaultType: string := "default"

  const SummaryPrompt: string :=
    "You are a document summarizer specializing in PDF documents. Summarize the provided text concisely under 300 words. CRITICALLY IMPORTANT: For each sentence in your summary, you MUST add square brackets with the page number where that information came from (e.g., [1] for page 1, [2] for page 2, etc.). The document text is divided by page break markers in the format \"<<PAGE_BREAK>> Page N\" where N is the page number. When you see \"<<PAGE_BREAK>> Page 3\", all content following that marker until the next page break is from page 3. Always cite the correct page number for each fact or statement. Example: \"The company reported strong earnings [1]. The new policy takes effect in January [2].\""

  const KeywordsPrompt: string :=
    "You are a keyword extraction specialist. Create a bulleted list of the 10 most important keywords from the provided document text. Format each keyword as: \"\U{2022} Keyword [page#]\" where page# is ONE page number where the keyword appears. Do not repeat page numbers or list multiple pages for the same keyword. Example: \"\U{2022} Federal Acquisition Regulation [1]\" or \"\U{2022} Section 508 compliance [2]\". Keep responses concise. Do not add **Keywords** on the response. JUST the bulleted list."

  const SelectedTextPrompt: string :=
    "You are a text summarizer for selected content. Provide a concise summary of the selected text, highlighting the main points and key information. Be clear and focused. CRITICALLY IMPORTANT: For each sentence in your summary, you MUST add square brackets with the page number where that information came from (e.g., [1] for page 1, [2] for page 2, etc.). The document text is divided by page break markers in the format \"<<PAGE_BREAK>> Page N\" where N is the page number. When you see \"<<PAGE_BREAK>> Page 3\", all content following that marker until the next page break is from page 3. Always cite the correct page number for each fact or statement. Example: \"The company reported strong earnings [1]. The new policy takes effect in January [2].\""

  const QuestionPrompt: string :=
    "You are a document Q&A assistant. Answer questions about the provided document content accurately and concisely. Use specific information from the document to support your answers. If you cannot find relevant information in the document, say so clearly. CRITICALLY IMPORTANT: For each statement or fact in your answer, you MUST add square brackets with the page number where that information came from (e.g., [1] for page 1, [2] for page 2, etc.). The document text is divided by page break markers in the format \"<<PAGE_BREAK>> Page N\" where N is the page number. When you see \"<<PAGE_BREAK>> Page 3\", all content following that marker until the next page break is from page 3. Always cite the correct page number for each fact or statement. Example: \"The policy requires annual reviews [3]. Training must be completed within 30 days [5]\". CRITICALLY IMPORTANT: Your responses can not be in the form of question, you must answer the question, do not restate it, just give your answer directly based on the document."

  const ContextualQuestionsPrompt: string :=
    "You are an expert researcher skilled in creating diverse, non-overlapping questions. CRITICALLY IMPORTANT: keep the question to a single subject and no longer than 20 words. Examine the document and based on the contents, create 3 DISTINCT questions that explore DIFFERENT aspects of the document, ensuring each question will yield UNIQUE answers with NO overlap. Follow this framework but do not include in the response the type of question information, just provide the question. As an example, if \"What is this document about?\", or \"What cost, or budget, or ROI, or pricing are involved?\" or \"What hisotrical background is covered on the document?\". Each question must target a completely different information domain. CRITICALLY IMPORTANT: Return just the question text not the type of question in bulleted list format as: \"\U{2022} \"."

  const ExactQuestionPrompt: string :=
    "You are an expert researcher. CRITICAL: Answer ONLY the current question about the document. However, you MUST use the document content provided to answer the question. Base your response SOLELY on the document content provided in this message. Be direct and concise. CRITICAL: You must provide an answer from the document contents, even if it is a brief comment. REQUIRED: Add page citations [1], [2]. In case there are multiple pages, do not repeat the same page number. If more than one page is cited separate by comma as [1,2] for pages 1 and 2. CRITICAL: do not make up page number that does not exist in the document. Direct answer only, no question restatement."

  const HistoryQuestionPrompt: string :=
    "You are a document Q&A assistant with full access to conversation history and document content. Answer questions about previous interactions, generated questions, or chat history while referencing the document content when relevant. Be specific about what was previously discussed or generated. You can reference both the document content and previous conversation history to provide comprehensive answers. REQUIRED: Add page citations [1], [2], etc. when referencing document facts."

  const DefaultPrompt: string :=
    "You are a helpful assistant that helps users with PDF documents and general questions. Be concise and helpful."

  /** The instruction of the call that merges the keyword lists of the chunks. */
  const ConsolidationPrompt: string :=
    "You are a keyword consolidation specialist. From the following keyword lists extracted from different sections of a document, create a final bulleted list of the 10 most important and representative keywords. CONSISTENCY RULES: 1) Remove exact duplicates and near-duplicates 2) Use canonical/standard forms of terms 3) Rank by frequency and importance across all sections 4) Maintain the same format: \"\U{2022} Keyword [page#]\" 5) Be deterministic - always select the same keywords for the same input."

  /** `PROMPT_GUARD_RAILS`. */
  const Table: map<string, GuardRail> := map[
    DocumentSummary := GuardRail(SummaryPrompt, 500, 0.0, 42),
    DocumentKeywords := GuardRail(KeywordsPrompt, 300, 0.0, 42),
    SelectedTextSummary := GuardRail(SelectedTextPrompt, 500, 0.0, 42),
    DocumentQuestion := GuardRail(QuestionPrompt, 500, 0.0, 42),
    DocumentContextualQuestions := GuardRail(ContextualQuestionsPrompt, 500, 0.0, 42),
    DocumentContextualQuestionExactly := GuardRail(ExactQuestionPrompt, 500, 0.0, 42),
    DocumentHistoryQuestion := GuardRail(HistoryQuestionPrompt, 800, 0.0, 42),
    DefaultType := GuardRail(DefaultPrompt, 1000, 0.0, 42)
  ]

  /** The seven prompt types with an entry of their own. */
  predicate Registered(promptType: string) {
    promptType == DocumentSummary || promptType == DocumentKeywords || promptType == SelectedTextSummary ||
    promptType == DocumentQuestion || promptType == DocumentContextualQuestions ||
    promptType == DocumentContextualQuestionExactly || promptType == DocumentHistoryQuestion
  }

  /**
   * `getPromptSettings(promptType)`: the entry of the type, or the `default`
   * entry when there is none (every entry is an object, hence truthy). An
   * absent type is looked up as the key `undefined`, which has no entry.
   */
  function PromptSettings(promptType: Option<string>): GuardRail {
    if promptType.Some? && promptType.value in Table then Table[promptType.value] else Table[DefaultType]
  }

  /**
   * Each of the seven types gets its own entry, whose instruction differs
   * from the default one; any other type, `default` itself and an absent
   * type get the `default` entry.
   */
  lemma SettingsLookup(promptType: Option<string>)
    ensures promptType.Some? && Registered(promptType.value) ==>
      PromptSettings(promptType) == Table[promptType.value] && PromptSettings(promptType).assistantPrompt != DefaultPrompt
    ensures (promptType.None? || !Registered(promptType.value)) ==>
      PromptSettings(promptType) == GuardRail(DefaultPrompt, 1000, 0.0, 42)
  {
  }

  /** Every call is made at temperature 0 with seed 42; the history question gets 800 tokens, the default 1000, keywords 300 and the others 500. */
  lemma SettingsValues(promptType: Option<string>)
    ensures var g := PromptSettings(promptType);
      g.temperature == 0.0 && g.seed == 42 &&
      (promptType == Some(DocumentKeywords) ==> g.maxTokens == 300) &&
      (promptType == Some(DocumentHistoryQuestion) ==> g.maxTokens == 800) &&
      ((promptType.Some? && Registered(promptType.value) && promptType.value != DocumentKeywords &&
        promptType.value != DocumentHistoryQuestion) ==> g.maxTokens == 500) &&
      ((promptType.None? || !Registered(promptType.value)) ==> g.maxTokens == 1000)
  {
  }
}
