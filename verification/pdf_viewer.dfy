/** The PDF pager, src/components/documents/PdfViewer.tsx: the current page
    and the page count, the Previous and Next buttons that clamp the page,
    and when each button is disabled. Rendering is left to the PDF library. */
module PdfViewer {

  datatype Viewer = Viewer(numPages: int, currentPage: int)

  /** Both counters start at 1. */
  const Initial := Viewer(1, 1)

  /** The page shown is a page of the document. */
  predicate InRange(v: Viewer) {
    1 <= v.currentPage <= v.numPages
  }

  /** `setCurrentPage(p => Math.max(1, p - 1))`. */
  function Previous(v: Viewer): (r: Viewer)
    ensures r.numPages == v.numPages
    ensures r.currentPage >= 1
    ensures v.currentPage > 1 ==> r.currentPage == v.currentPage - 1
    ensures v.currentPage <= 1 ==> r.currentPage == 1
  {
    v.(currentPage := if v.currentPage - 1 > 1 then v.currentPage - 1 else 1)
  }

  /** `setCurrentPage(p => Math.min(numPages, p + 1))`. */
  function Next(v: Viewer): (r: Viewer)
    ensures r.numPages == v.numPages
    ensures r.currentPage <= v.numPages
    ensures v.currentPage < v.numPages ==> r.currentPage == v.currentPage + 1
    ensures v.currentPage >= v.numPages ==> r.currentPage == v.numPages
  {
    v.(currentPage := if v.currentPage + 1 < v.numPages then v.currentPage + 1 else v.numPages)
  }

  predicate PreviousDisabled(v: Viewer) {
    v.currentPage <= 1
  }

  predicate NextDisabled(v: Viewer) {
    v.currentPage >= v.numPages
  }

  /** `onLoadSuccess`: the page count is replaced; the current page is not
      brought back into range. */
  function Load(v: Viewer, numPages: nat): (r: Viewer)
    ensures r.numPages == numPages && r.currentPage == v.currentPage
  {
    v.(numPages := numPages)
  }

  /** Both buttons keep the page in range. */
  lemma ButtonsKeepPageInRange(v: Viewer)
    requires InRange(v)
    ensures InRange(Previous(v)) && InRange(Next(v))
  {
  }

  /** In range, a button is disabled exactly when pressing it would change
      nothing. */
  lemma DisabledIffNoEffect(v: Viewer)
    requires InRange(v)
    ensures PreviousDisabled(v) <==> Previous(v) == v
    ensures NextDisabled(v) <==> Next(v) == v
  {
  }

  /** Previous undoes Next wherever Next moves, and the other way round. */
  lemma PreviousUndoesNext(v: Viewer)
    requires InRange(v)
    ensures !NextDisabled(v) ==> Previous(Next(v)) == v
    ensures !PreviousDisabled(v) ==> Next(Previous(v)) == v
  {
  }

  /** `k` presses of Next in a row. */
  function PressNext(v: Viewer, k: nat): Viewer
    decreases k
  {
    if k == 0 then v else PressNext(Next(v), k - 1)
  }

  /** `k` presses of Next advance the page by `k`, as long as the document
      has that many pages left. */
  lemma {:induction false} PressNextWalksPages(v: Viewer, k: nat)
    requires InRange(v) && v.currentPage + k <= v.numPages
    ensures PressNext(v, k) == v.(currentPage := v.currentPage + k)
    decreases k
  {
    if k > 0 {
      PressNextWalksPages(Next(v), k - 1);
    }
  }

  /** Loading a shorter document while on a later page leaves the page out
      of range; Next, though disabled there, would move backwards. */
  lemma LoadDoesNotReclamp()
    ensures var v := Load(Viewer(5, 5), 2);
            !InRange(v) && NextDisabled(v) && Next(v).currentPage == 2
  {
  }

  /** Before any document has loaded, both buttons are disabled. */
  lemma InitialPagerIsStill()
    ensures InRange(Initial) && PreviousDisabled(Initial) && NextDisabled(Initial)
  {
  }
}
