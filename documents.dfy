/**
 * The client's cache of the loaded document: its file name, its page count
 * and its whole text, page after page, each page introduced by a page-break
 * line.
 */
module Documents {
  import opened Wrappers
  import opened Strings

  /**
   * A document as the viewer serves it: its file name and, page by page, the
   * text `loadPageText` resolves with, or `None` when that load fails.
   */
  datatype ViewerDocument = ViewerDocument(fileName: string, pages: seq<Option<string>>)

  const PageBreak: string := "<<PAGE_BREAK>> Page "
  const PageError: string := "[Error loading page content]"
  const PageSeparator: string := "\n\n"

  /** The line that introduces page `i`. */
  function PageHeader(i: nat): string {
    PageBreak + NatToString(i) + "\n"
  }

  /** A page's text, or the error text in place of a page that failed to load. */
  function PageBody(page: Option<string>): string {
    match page
    case Some(t) => t
    case None => PageError
  }

  /** The text the manager accumulates over the pages `1 .. |pages|`: each page's header, its body and a blank line. */
  function ManagerText(pages: seq<Option<string>>): string
    decreases |pages|
  {
    if pages == [] then ""
    else ManagerText(pages[..|pages| - 1]) + PageEntry(|pages|, pages[|pages| - 1])
  }

  /** `<<PAGE_BREAK>> Page ${i}\n${text}\n\n`. */
  function PageEntry(i: nat, page: Option<string>): string {
    PageHeader(i) + PageBody(page) + PageSeparator
  }

  /** `DocumentManager`: the document's properties, loaded once. */
  class DocumentManager {
    var instance: Option<ViewerDocument>
    var fileName: string
    var pageCount: nat
    /** Whether `completePromise` holds a truthy value. */
    var completed: bool
    var text: string
    var isValid: bool

    constructor ()
      ensures instance == None && fileName == "" && pageCount == 0 && !completed && text == "" && isValid
    {
      instance := None;
      fileName := "";
      pageCount := 0;
      completed := false;
      text := "";
      isValid := true;
    }

    /**
     * `initialize()`: the viewer's current document becomes the instance; a
     * manager that is not valid stops there. Otherwise the name and page
     * count are read and every page's text is appended, a failed page with
     * the error text in its place. `completePromise` receives the value of
     * the awaited callback, which returns nothing, so the validity computed
     * from it is false.
     */
    method Initialize(viewer: ViewerDocument)
      modifies this
      ensures instance == Some(viewer) && !isValid
      ensures old(isValid) ==>
        fileName == viewer.fileName && pageCount == |viewer.pages| && text == old(text) + ManagerText(viewer.pages) && !completed
      ensures !old(isValid) ==>
        fileName == old(fileName) && pageCount == old(pageCount) && text == old(text) && completed == old(completed)
    {
      instance := Some(viewer);
      if isValid {
        fileName := viewer.fileName;
        pageCount := |viewer.pages|;
        ghost var text0 := text;
        var pageIndex := 1;
        while pageIndex <= pageCount
          modifies this`text
          invariant 1 <= pageIndex <= pageCount + 1 && pageCount == |viewer.pages|
          invariant text == text0 + ManagerText(viewer.pages[..pageIndex - 1])
        {
          assert viewer.pages[..pageIndex][..pageIndex - 1] == viewer.pages[..pageIndex - 1];
          ConcatAssoc(text0, ManagerText(viewer.pages[..pageIndex - 1]), PageEntry(pageIndex, viewer.pages[pageIndex - 1]));
          match viewer.pages[pageIndex - 1] {
            case Some(pageText) =>
              text := text + (PageHeader(pageIndex) + pageText + PageSeparator);
            case None =>
              text := text + (PageHeader(pageIndex) + PageError + PageSeparator);
          }
          pageIndex := pageIndex + 1;
        }
        assert viewer.pages[..pageCount] == viewer.pages;
        completed := false;
        isValid := instance.Some? && completed && pageCount > 0 && |text| > 0;
      }
    }
  }

  /** Later pages never change the text of the earlier ones: the first `k` pages' text is a prefix. */
  lemma {:induction false} ManagerTextPrefix(pages: seq<Option<string>>, k: nat)
    requires k <= |pages|
    ensures ManagerText(pages[..k]) <= ManagerText(pages)
    decreases |pages| - k
  {
    if k < |pages| {
      ManagerTextPrefix(pages, k + 1);
      assert pages[..k + 1][..k] == pages[..k];
    } else {
      assert pages[..k] == pages;
    }
  }

  /**
   * A manager loaded twice keeps what the first load read: the first run
   * leaves it invalid, so the second only replaces the instance.
   */
  method LoadTwice(first: ViewerDocument, second: ViewerDocument) returns (m: DocumentManager)
    ensures m.instance == Some(second) && !m.isValid
    ensures m.fileName == first.fileName && m.pageCount == |first.pages| && m.text == ManagerText(first.pages)
  {
    m := new DocumentManager();
    m.Initialize(first);
    m.Initialize(second);
  }
}
