/**
 * The older chat client: `getAllText`, which reads every page of the viewer's
 * document, joins the page texts and sends them once with a prompt type, and
 * `sendMessage`, which posts the message and the prompt type without any
 * history.
 */
module Legacy {
  import opened Wrappers
  import opened Strings
  import opened Formatter
  import opened Chat
  import opened Documents

  /** The older client's request body: `{ message, promptType }`. */
  datatype LegacyRequest = LegacyRequest(message: string, promptType: string)

  /** `<<PAGE_BREAK>> Page ${i}\n${text}`, with the error text for a page that failed to load. */
  function PageText(i: nat, page: Option<string>): string {
    PageHeader(i) + PageBody(page)
  }

  /** `pageTexts` once every page is in: page `i` at index `i - 1`. */
  function PageTexts(pages: seq<Option<string>>): (r: seq<string>)
    ensures |r| == |pages| && forall k :: 0 <= k < |pages| ==> r[k] == PageText(k + 1, pages[k])
  {
    seq(|pages|, k requires 0 <= k < |pages| => PageText(k + 1, pages[k]))
  }

  /** `pageTexts.join('\n\n')`. */
  function AllText(pages: seq<Option<string>>): string {
    Join(PageTexts(pages), PageSeparator)
  }

  /** The text of the bubble the reply to the older client ends in. */
  ghost function ReplyText(promptType: string, reply: Reply, pageCount: nat): string {
    if reply.Answer? then LegacyFormatted(promptType, reply.response, pageCount) else ErrorPrefix + ReplyError(reply)
  }

  /** `sendMessage(promptLine, message)`: the answer's `response`, or the error it throws. */
  method SendMessage(promptLine: string, message: string, reply: Reply) returns (request: LegacyRequest, r: Result<string, string>)
    ensures request == LegacyRequest(message, promptLine)
    ensures reply.Answer? ==> r == Ok(reply.response)
    ensures !reply.Answer? ==> r == Err(ReplyError(reply))
  {
    request := LegacyRequest(message, promptLine);
    match reply {
      case Answer(response) =>
        r := Ok(response);
      case Status(s) =>
        r := Err(HttpErrorPrefix + IntToString(s));
      case Failure(e) =>
        r := Err(e);
    }
  }

  /**
   * The send once every page is in, with its `.then`/`.catch`: the formatted
   * answer, or the error, becomes a `'system'` bubble.
   */
  method SendAll(promptType: string, completeText: string, pageCount: nat, reply: Reply, log: ConversationLog)
    returns (request: LegacyRequest)
    modifies log
    ensures request == LegacyRequest(completeText, promptType)
    ensures log.entries == old(log.entries) + [Entry("system", ReplyText(promptType, reply, pageCount))]
  {
    var r;
    request, r := SendMessage(promptType, completeText, reply);
    var bubble;
    match r {
      case Ok(response) =>
        bubble := LegacyFormatText(promptType, response, pageCount);
      case Err(e) =>
        bubble := ErrorPrefix + e;
    }
    log.CreateBubble(bubble, "system");
  }

  /**
   * `getAllText(promptType, createBubble)`: each page's text is stored at its
   * index as it is loaded, and when the count of loaded pages reaches the
   * page count the joined text is sent; the formatted answer, or the error,
   * becomes a `'system'` bubble. A document without pages never reaches that
   * count, so nothing is sent. The send, which the source starts from inside
   * the loop at its last page, is made once the loop is done.
   */
  method GetAllText(promptType: string, viewer: ViewerDocument, reply: Reply, log: ConversationLog)
    returns (request: Option<LegacyRequest>)
    modifies log
    ensures request == if viewer.pages == [] then None else Some(LegacyRequest(AllText(viewer.pages), promptType))
    ensures log.entries ==
      if viewer.pages == [] then old(log.entries)
      else old(log.entries) + [Entry("system", ReplyText(promptType, reply, |viewer.pages|))]
  {
    var pageCount := |viewer.pages|;
    var pageTexts := new string[pageCount];
    var loadedPages := 0;
    var completeText: Option<string> := None;
    var i := 1;
    while i <= pageCount
      modifies pageTexts
      invariant 1 <= i <= pageCount + 1 && loadedPages == i - 1
      invariant forall k :: 0 <= k < i - 1 ==> pageTexts[k] == PageText(k + 1, viewer.pages[k])
      invariant completeText == if i > pageCount && pageCount > 0 then Some(AllText(viewer.pages)) else None
    {
      match viewer.pages[i - 1] {
        case Some(text) =>
          pageTexts[i - 1] := PageHeader(i) + text;
        case None =>
          pageTexts[i - 1] := PageHeader(i) + PageError;
      }
      loadedPages := loadedPages + 1;
      if loadedPages == pageCount {
        assert pageTexts[..] == PageTexts(viewer.pages);
        completeText := Some(Join(pageTexts[..], PageSeparator));
      }
      i := i + 1;
    }
    request := None;
    if completeText.Some? {
      var sent := SendAll(promptType, completeText.value, pageCount, reply, log);
      request := Some(sent);
    }
  }

  /**
   * The two page assemblies agree: the manager's text is the older client's
   * joined text with the separator once more at its end.
   */
  lemma {:induction false} ManagerTextIsAllText(pages: seq<Option<string>>)
    requires pages != []
    ensures ManagerText(pages) == AllText(pages) + PageSeparator
    decreases |pages|
  {
    var n := |pages|;
    var prev := pages[..n - 1];
    var x := PageText(n, pages[n - 1]);
    assert PageTexts(pages) == PageTexts(prev) + [x];
    JoinSnoc(PageTexts(prev), x, PageSeparator);
    assert ManagerText(pages) == ManagerText(prev) + (x + PageSeparator);
    if prev == [] {
      assert PageTexts(prev) == [];
      assert ManagerText(prev) == "";
    } else {
      ManagerTextIsAllText(prev);
      assert AllText(pages) == AllText(prev) + PageSeparator + x;
    }
  }
}
