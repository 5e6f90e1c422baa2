/** The file preview dialog's state (frontend/src/components/files/FileViewer.tsx):
    loading the file, the error banner, the download button and PDF page
    navigation by buttons and arrow keys. */
module Viewer {

  /** The four flags `getFileType(mimeType)` yields for the viewed file;
      `getFileType` itself is not part of this model. */
  datatype FileKind = FileKind(isPdf: bool, isImage: bool, isText: bool, isOfficeDoc: bool)

  /** What a `catch` receives: an `Error` with its message, or any other value. */
  datatype Thrown = ErrorObject(message: string) | OtherValue

  /** How `fileService.download` ended: an object URL made from the blob, or a throw. */
  datatype DownloadOutcome = Downloaded(objectUrl: string) | Threw(thrown: Thrown)

  const LoadFailedMessage := "Failed to load file. Please try again."
  const DownloadFailedMessage := "Failed to download file. Please try again."

  /** The banner text after a failed load. */
  function LoadErrorMessage(thrown: Thrown): string {
    match thrown
    case ErrorObject(message) => message
    case OtherValue => LoadFailedMessage
  }

  function Max(a: int, b: int): int { if a < b then b else a }
  function Min(a: int, b: int): int { if a < b then a else b }

  class FileViewer {
    const kind: FileKind
    const fileName: string
    var pageNumber: int
    var numPages: int
    var isLoading: bool
    var error: string
    var blobUrl: string
    var isDownloading: bool
    var isPageRendering: bool

    /** Page numbers never drop below 1, and the page count is never negative. */
    ghost predicate Valid()
      reads this
    {
      1 <= pageNumber && 0 <= numPages
    }

    /** The bound the navigation keeps. */
    ghost predicate PageInRange()
      reads this
    {
      1 <= pageNumber <= numPages
    }

    /** The preview is rendered only when loading is over, there is no error
        and there is an object URL. */
    predicate ShowsContent()
      reads this
    {
      !isLoading && error == "" && blobUrl != ""
    }

    /** The Previous/Next bar is on screen: a rendered PDF of more than one page. */
    predicate ShowsPageControls()
      reads this
    {
      ShowsContent() && kind.isPdf && numPages > 1
    }

    /** The keydown listener is registered: a PDF of more than one page,
        whether or not it is rendered. */
    predicate ArrowKeysActive()
      reads this
    {
      kind.isPdf && numPages > 1
    }

    constructor (kind: FileKind, fileName: string)
      ensures this.kind == kind && this.fileName == fileName
      ensures pageNumber == 1 && numPages == 0 && isLoading && error == "" && blobUrl == ""
      ensures !isDownloading && !isPageRendering
      ensures Valid()
    {
      this.kind, this.fileName := kind, fileName;
      pageNumber, numPages := 1, 0;
      isLoading, error, blobUrl := true, "", "";
      isDownloading, isPageRendering := false, false;
    }

    /** The Previous button: shown with the page bar, disabled on page 1 or
        below, and it steps to `max(1, page - 1)`. */
    method ClickPrevious()
      requires Valid()
      modifies this`pageNumber
      ensures Valid()
      ensures pageNumber == if old(ShowsPageControls()) && old(pageNumber) > 1
                            then old(pageNumber) - 1 else old(pageNumber)
      ensures old(PageInRange()) ==> PageInRange()
    {
      if ShowsPageControls() && !(pageNumber <= 1) {
        pageNumber := Max(1, pageNumber - 1);
      }
    }

    /** The Next button: disabled on the last page or beyond, and it steps
        to `min(numPages, page + 1)`. */
    method ClickNext()
      requires Valid()
      modifies this`pageNumber
      ensures Valid()
      ensures pageNumber == if old(ShowsPageControls()) && old(pageNumber) < numPages
                            then old(pageNumber) + 1 else old(pageNumber)
      ensures old(PageInRange()) ==> PageInRange()
    {
      if ShowsPageControls() && !(pageNumber >= numPages) {
        pageNumber := Min(numPages, pageNumber + 1);
      }
    }

    /** `handleKeyPress`: ArrowLeft goes back while the page is above 1,
        ArrowRight forward while it is below the count, other keys do nothing. */
    method KeyDown(key: string)
      requires Valid()
      modifies this`pageNumber
      ensures Valid()
      ensures pageNumber == if !ArrowKeysActive() then old(pageNumber)
                            else if key == "ArrowLeft" && old(pageNumber) > 1 then old(pageNumber) - 1
                            else if key == "ArrowRight" && old(pageNumber) < numPages then old(pageNumber) + 1
                            else old(pageNumber)
      ensures old(PageInRange()) ==> PageInRange()
    {
      if ArrowKeysActive() {
        if key == "ArrowLeft" && pageNumber > 1 {
          pageNumber := pageNumber - 1;
        } else if key == "ArrowRight" && pageNumber < numPages {
          pageNumber := pageNumber + 1;
        }
      }
    }

    /** The first half of `fetchFile`, before the download is awaited. */
    method BeginFetch()
      modifies this`isLoading, this`error
      ensures isLoading && error == ""
    {
      isLoading := true;
      error := "";
    }

    /** The second half of `fetchFile`: keep the URL or report the error,
        and stop loading either way. */
    method FinishFetch(outcome: DownloadOutcome)
      modifies this`isLoading, this`error, this`blobUrl
      ensures !isLoading
      ensures outcome.Downloaded? ==> blobUrl == outcome.objectUrl && error == old(error)
      ensures outcome.Threw? ==> blobUrl == old(blobUrl) && error == LoadErrorMessage(outcome.thrown)
    {
      match outcome {
        case Downloaded(url) =>
          blobUrl := url;
        case Threw(thrown) =>
          error := if thrown.ErrorObject? then thrown.message else LoadFailedMessage;
      }
      isLoading := false;
    }

    /** `fetchFile` with the awaited download's outcome. */
    method FetchFile(outcome: DownloadOutcome)
      modifies this`isLoading, this`error, this`blobUrl
      ensures !isLoading
      ensures outcome.Downloaded? ==> blobUrl == outcome.objectUrl && error == ""
      ensures outcome.Threw? ==> blobUrl == old(blobUrl) && error == LoadErrorMessage(outcome.thrown)
      ensures outcome.Downloaded? && outcome.objectUrl != "" ==> ShowsContent()
      ensures outcome.Threw? && LoadErrorMessage(outcome.thrown) != "" ==> !ShowsContent()
    {
      BeginFetch();
      FinishFetch(outcome);
    }

    /** `handleRetry`: clear the error, then fetch again. */
    method HandleRetry(outcome: DownloadOutcome)
      modifies this`isLoading, this`error, this`blobUrl
      ensures !isLoading
      ensures outcome.Downloaded? ==> blobUrl == outcome.objectUrl && error == ""
      ensures outcome.Threw? ==> blobUrl == old(blobUrl) && error == LoadErrorMessage(outcome.thrown)
    {
      error := "";
      FetchFile(outcome);
    }

    /** `handleDownload`: nothing without an object URL; otherwise click a
        link to it, and show the download error if that throws. Reports
        whether a link was clicked. */
    method HandleDownload(clickThrows: bool) returns (clicked: bool)
      modifies this`isDownloading, this`error
      ensures clicked <==> old(blobUrl) != ""
      ensures !clicked ==> isDownloading == old(isDownloading) && error == old(error)
      ensures clicked ==> !isDownloading
      ensures clicked ==> error == if clickThrows then DownloadFailedMessage else old(error)
    {
      if blobUrl == "" {
        return false;
      }
      isDownloading := true;
      clicked := true;
      if clickThrows {
        error := DownloadFailedMessage;
      }
      isDownloading := false;
    }

    /** `onDocumentLoadSuccess`: take the page count; the page number is left alone. */
    method OnDocumentLoadSuccess(pages: nat)
      requires Valid()
      modifies this`numPages, this`isPageRendering
      ensures numPages == pages && !isPageRendering
      ensures Valid()
    {
      numPages := pages;
      isPageRendering := false;
    }

    method OnPageLoadSuccess()
      modifies this`isPageRendering
      ensures !isPageRendering
    {
      isPageRendering := false;
    }

    /** Wired to the page's `onRenderSuccess`. */
    method OnPageRenderStart()
      modifies this`isPageRendering
      ensures isPageRendering
    {
      isPageRendering := true;
    }

    /** The spinner overlay drawn over a rendered PDF page. */
    predicate ShowsRenderSpinner()
      reads this
    {
      ShowsContent() && kind.isPdf && isPageRendering
    }

    /** What `onRenderSuccess` evidently should do: the page is drawn, so
        the spinner goes. */
    method OnPageRenderSuccess()
      modifies this`isPageRendering
      ensures !isPageRendering
      ensures !ShowsRenderSpinner()
    {
      isPageRendering := false;
    }
  }

  /** Navigation keeps the page in range, but a document load does not
      clamp it: after stepping to page 5 of 5, a load reporting 2 pages
      leaves the viewer on page 5. */
  method LoadDoesNotClampPage() returns (pageNumber: int, numPages: int)
    ensures pageNumber == 5 && numPages == 2
  {
    var v := new FileViewer(FileKind(true, false, false, false), "report.pdf");
    v.FetchFile(Downloaded("blob:report"));
    v.OnDocumentLoadSuccess(5);
    v.ClickNext();
    v.ClickNext();
    v.KeyDown("ArrowRight");
    v.KeyDown("ArrowRight");
    assert v.pageNumber == 5;
    v.OnDocumentLoadSuccess(2);
    pageNumber, numPages := v.pageNumber, v.numPages;
  }

  /** A loaded PDF whose page has loaded and rendered, with `onRenderSuccess`
      wired as written: the spinner is still over the finished page. */
  method RenderAsWiredKeepsSpinner() returns (spinner: bool)
    ensures spinner
  {
    var v := new FileViewer(FileKind(true, false, false, false), "report.pdf");
    v.FetchFile(Downloaded("blob:report"));
    v.OnDocumentLoadSuccess(3);
    v.OnPageLoadSuccess();
    v.OnPageRenderStart();
    spinner := v.ShowsRenderSpinner();
  }

  /** The same run with `onRenderSuccess` clearing the flag: no spinner
      remains once the page is drawn. */
  method RenderAsIntendedClearsSpinner() returns (spinner: bool)
    ensures !spinner
  {
    var v := new FileViewer(FileKind(true, false, false, false), "report.pdf");
    v.FetchFile(Downloaded("blob:report"));
    v.OnDocumentLoadSuccess(3);
    v.OnPageLoadSuccess();
    v.OnPageRenderSuccess();
    spinner := v.ShowsRenderSpinner();
  }
}
