/**
 * The conversation history the client keeps and sends with each request:
 * its entries, their estimated cost, the trimming to a token budget, the
 * envelope in which a question travels with the document text, and the
 * extraction of the question back out of it for the stored history.
 */
module History {
  import opened Wrappers
  import opened Strings
  import opened Prompts

  datatype Role = Human | Assistant

  /** `{ role, content }`. */
  datatype Message = Message(role: Role, content: string)

  /** `Math.ceil(message.content.length / 4)`. */
  function Cost(m: Message): nat {
    CeilDiv4(|m.content|)
  }

  /** The summed cost of the entries. */
  function TotalCost(h: seq<Message>): nat
    decreases |h|
  {
    if h == [] then 0 else Cost(h[0]) + TotalCost(h[1..])
  }

  predicate IsSuffix(t: seq<Message>, h: seq<Message>) {
    |t| <= |h| && t == h[|h| - |t|..]
  }

  lemma TotalCostCons(m: Message, t: seq<Message>)
    ensures TotalCost([m] + t) == Cost(m) + TotalCost(t)
  {
    assert ([m] + t)[1..] == t;
  }

  /** A longer suffix costs at least as much. */
  lemma {:induction false} SuffixCostGrows(h: seq<Message>, j: nat, i: nat)
    requires j <= i <= |h|
    ensures TotalCost(h[j..]) >= TotalCost(h[i..])
    decreases i - j
  {
    if j < i {
      SuffixCostGrows(h, j + 1, i);
      assert h[j..][1..] == h[j + 1..];
    }
  }

  /** `t` is the longest suffix of `h` whose cost is within `budget`. */
  ghost predicate Trimmed(t: seq<Message>, h: seq<Message>, budget: nat) {
    IsSuffix(t, h) && TotalCost(t) <= budget &&
    forall j :: 0 <= j < |h| - |t| ==> TotalCost(h[j..]) > budget
  }

  /** There is one such suffix: the trimming is determined by the history and the budget. */
  lemma TrimmedUnique(t1: seq<Message>, t2: seq<Message>, h: seq<Message>, budget: nat)
    requires Trimmed(t1, h, budget) && Trimmed(t2, h, budget)
    ensures t1 == t2
  {
  }

  /**
   * `trimHistoryForTokenLimit`: walks from the newest entry back and keeps
   * entries while their summed cost stays within `maxTokens`, stopping at the
   * first one that does not fit. The result is the longest suffix of the
   * history within the budget, in chronological order.
   */
  method TrimHistory(history: seq<Message>, maxTokens: nat) returns (trimmed: seq<Message>)
    ensures Trimmed(trimmed, history, maxTokens)
  {
    var tokenCount := 0;
    trimmed := [];
    var i := |history|;
    var stopped := false;
    while i > 0 && !stopped
      invariant 0 <= i <= |history|
      invariant trimmed == history[i..]
      invariant tokenCount == TotalCost(trimmed) <= maxTokens
      invariant stopped ==> i > 0 && tokenCount + Cost(history[i - 1]) > maxTokens
      decreases i, !stopped
    {
      var messageTokenCount := Cost(history[i - 1]);
      if tokenCount + messageTokenCount <= maxTokens {
        TotalCostCons(history[i - 1], trimmed);
        assert [history[i - 1]] + history[i..] == history[i - 1..];
        trimmed := [history[i - 1]] + trimmed;
        tokenCount := tokenCount + messageTokenCount;
        i := i - 1;
      } else {
        stopped := true;
      }
    }
    forall j | 0 <= j < |history| - |trimmed| ensures TotalCost(history[j..]) > maxTokens {
      SuffixCostGrows(history, j, i - 1);
      TotalCostCons(history[i - 1], history[i..]);
      assert [history[i - 1]] + history[i..] == history[i - 1..];
    }
  }

  // ---------------------------------------------------------------------------
  // The question envelope

  const QuestionTag: string := "Question: "
  const HumanQuestionTag: string := "Human " + QuestionTag
  const DocumentTag: string := "\n\nDocument Content:"

  /**
   * `prepareMessage(promptType, question)` over the loaded document's text:
   * without a question (`null` or empty) the text as it is; for an exact
   * contextual question or a history question the question in front of the
   * text; for every other type the question is dropped.
   */
  function PrepareMessage(pt: string, question: Option<string>, doc: string): (r: string)
    ensures question == None || question == Some("") ==> r == doc
    ensures question.Some? && question.value != "" && pt == DocumentContextualQuestionExactly
      ==> r == QuestionTag + question.value + DocumentTag + "\n" + doc
    ensures question.Some? && question.value != "" && pt == DocumentHistoryQuestion
      ==> r == HumanQuestionTag + question.value + DocumentTag + "\n" + doc
    ensures pt != DocumentContextualQuestionExactly && pt != DocumentHistoryQuestion ==> r == doc
  {
    match question
    case None => doc
    case Some(q) =>
      if q == "" then doc
      else if pt == DocumentContextualQuestionExactly then QuestionTag + q + DocumentTag + "\n" + doc
      else if pt == DocumentHistoryQuestion then HumanQuestionTag + q + DocumentTag + "\n" + doc
      else doc
  }

  predicate NoLineBreak(s: string) {
    forall i :: 0 <= i < |s| ==> !IsLineTerminator(s[i])
  }

  /** The number of characters from `i` up to the next line terminator: what `.+` can reach. */
  function LineLen(s: string, i: nat): (n: nat)
    requires i <= |s|
    ensures i + n <= |s| && NoLineBreak(s[i..i + n])
    ensures i + n < |s| ==> IsLineTerminator(s[i + n])
    decreases |s| - i
  {
    if i < |s| && !IsLineTerminator(s[i]) then
      var n := LineLen(s, i + 1);
      assert s[i..i + 1 + n] == [s[i]] + s[i + 1..i + 1 + n];
      1 + n
    else 0
  }

  /**
   * The capture `(.+?)` from `j` followed by `\n\nDocument Content:`: the lazy
   * group cannot cross a line terminator and the tag starts with one, so the
   * only candidate is the rest of the line.
   */
  function CaptureAt(s: string, j: nat): (r: Option<string>)
    requires j <= |s|
    ensures r.Some? ==> |r.value| > 0 && NoLineBreak(r.value) && OccursAt(s, r.value + DocumentTag, j)
  {
    var n := LineLen(s, j);
    if n > 0 && OccursAt(s, DocumentTag, j + n) then
      assert s[j..j + n + |DocumentTag|] == s[j..j + n] + s[j + n..j + n + |DocumentTag|];
      Some(s[j..j + n])
    else None
  }

  /** The match of `(?:Human Question|Question): (.+?)\n\nDocument Content:` starting at `i`. */
  function QuestionAt(s: string, i: nat): (r: Option<string>)
    requires i <= |s|
    ensures r.Some? ==> |r.value| > 0 && NoLineBreak(r.value) && Contains(s, r.value + DocumentTag)
  {
    if OccursAt(s, HumanQuestionTag, i) && CaptureAt(s, i + |HumanQuestionTag|).Some? then
      var q := CaptureAt(s, i + |HumanQuestionTag|).value;
      ContainsAt(s, q + DocumentTag, i + |HumanQuestionTag|);
      Some(q)
    else if OccursAt(s, QuestionTag, i) && CaptureAt(s, i + |QuestionTag|).Some? then
      var q := CaptureAt(s, i + |QuestionTag|).value;
      ContainsAt(s, q + DocumentTag, i + |QuestionTag|);
      Some(q)
    else None
  }

  /** The leftmost match from `i` on, by its capture. */
  function ExtractFrom(s: string, i: nat): (r: Option<string>)
    requires i <= |s|
    ensures r.Some? ==> |r.value| > 0 && NoLineBreak(r.value) && Contains(s, r.value + DocumentTag)
    decreases |s| - i
  {
    match QuestionAt(s, i)
    case Some(q) => Some(q)
    case None => if i == |s| then None else ExtractFrom(s, i + 1)
  }

  /** `message.match(...)`, by its first capture. */
  function ExtractQuestion(s: string): Option<string> {
    ExtractFrom(s, 0)
  }

  const ExcludedNote: string := "... [document content excluded from history]"

  /**
   * The text stored for the human side of an exchange: for a document prompt
   * type the extracted question, else the first 200 characters and a note
   * when the message is longer, else the message; for other types the message.
   */
  function HistoryText(pt: string, message: string): (r: string)
    ensures !Contains(pt, DocumentPrefix) ==> r == message
    ensures Contains(pt, DocumentPrefix) && ExtractQuestion(message).None? && |message| > 200
      ==> r == message[..200] + ExcludedNote
    ensures |r| <= |message| + |ExcludedNote|
  {
    if Contains(pt, DocumentPrefix) then
      match ExtractQuestion(message)
      case Some(q) =>
        assert Contains(message, q + DocumentTag);
        ContainsIff(message, q + DocumentTag);
        q
      case None => if |message| > 200 then message[..200] + ExcludedNote else message
    else message
  }

  /** The envelope of a question is parsed back at its start. */
  lemma EnvelopeCapture(tag: string, q: string, doc: string)
    requires q != "" && NoLineBreak(q)
    ensures CaptureAt(tag + q + DocumentTag + "\n" + doc, |tag|) == Some(q)
  {
    var s := tag + q + DocumentTag + "\n" + doc;
    var j := |tag|;
    assert s[j..j + |q|] == q;
    assert s[j + |q|] == '\n';
    assert LineLen(s, j) == |q| by {
      LineLenOf(s, j, |q|);
    }
    assert s[j + |q|..j + |q| + |DocumentTag|] == DocumentTag;
  }

  /** `LineLen` is the length of a line that ends at a terminator. */
  lemma {:induction false} LineLenOf(s: string, i: nat, n: nat)
    requires i + n < |s| && NoLineBreak(s[i..i + n]) && IsLineTerminator(s[i + n])
    ensures LineLen(s, i) == n
    decreases n
  {
    if n > 0 {
      assert s[i] == s[i..i + n][0];
      assert s[i + 1..i + n] == s[i..i + n][1..];
      LineLenOf(s, i + 1, n - 1);
    }
  }

  /**
   * The question a client sends in its envelope is the question it stores: for
   * a non-empty question on one line, the extraction gives it back.
   */
  lemma QuestionRoundTrip(pt: string, q: string, doc: string)
    requires pt == DocumentContextualQuestionExactly || pt == DocumentHistoryQuestion
    requires q != "" && NoLineBreak(q)
    ensures ExtractQuestion(PrepareMessage(pt, Some(q), doc)) == Some(q)
    ensures HistoryText(pt, PrepareMessage(pt, Some(q), doc)) == q
  {
    var s := PrepareMessage(pt, Some(q), doc);
    if pt == DocumentHistoryQuestion {
      assert s == HumanQuestionTag + q + DocumentTag + "\n" + doc;
      assert OccursAt(s, HumanQuestionTag, 0);
      EnvelopeCapture(HumanQuestionTag, q, doc);
    } else {
      assert s == QuestionTag + q + DocumentTag + "\n" + doc;
      assert s[0] == 'Q';
      assert !OccursAt(s, HumanQuestionTag, 0);
      assert OccursAt(s, QuestionTag, 0);
      EnvelopeCapture(QuestionTag, q, doc);
    }
    QuestionTypesPrefixed(pt);
  }

  /** Both question types carry the document prefix. */
  lemma QuestionTypesPrefixed(pt: string)
    requires pt == DocumentContextualQuestionExactly || pt == DocumentHistoryQuestion
    ensures Contains(pt, DocumentPrefix)
  {
    assert pt[..9] == DocumentPrefix;
  }
}
