/**
 * The prompt types the client sends with every request and the server keys
 * its guard rails on. They travel as strings, so the model keeps them as
 * strings: the server falls back to a default for any other value, and the
 * client tests some of them by substring.
 */
module Prompts {
  /** What the client tests with `promptLine.includes('DOCUMENT_')`. */
  const DocumentPrefix: string := "DOCUMENT_"

  const DocumentSummary: string := "DOCUMENT_SUMMARY"
  const DocumentKeywords: string := "DOCUMENT_KEYWORDS"
  const SelectedTextSummary: string := "SELECTED_TEXT_SUMMARY"
  const DocumentQuestion: string := "DOCUMENT_QUESTION"
  const DocumentContextualQuestions: string := "DOCUMENT_CONTEXTUAL_QUESTIONS"
  const DocumentContextualQuestionExactly: string := "DOCUMENT_CONTEXTUAL_QUESTION_EXACTLY"
  const DocumentHistoryQuestion: string := "DOCUMENT_HISTORY_QUESTION"

  /** The types whose answers cite pages sentence by sentence. */
  predicate IsSummaryType(pt: string) {
    pt == DocumentSummary || pt == SelectedTextSummary || pt == DocumentQuestion
  }

  /** The types whose answers are bulleted lists. */
  predicate IsListType(pt: string) {
    pt == DocumentContextualQuestions || pt == DocumentKeywords
  }
}
