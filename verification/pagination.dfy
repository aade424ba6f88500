/** The pagination bar: a previous button, one button per page and a next
    button, all derived from the current page and the page count. */
module Pagination {
  import opened Text

  datatype PageButton = PageButton(page: int, text: string, active: bool)

  /** What the bar renders; `Hidden` when there is at most one page. */
  datatype PaginationView =
    | Hidden
    | Shown(prevDisabled: bool, prevTarget: int, buttons: seq<PageButton>, nextDisabled: bool, nextTarget: int)

  /** The page buttons for pages `0 .. n-1`. */
  function PageButtons(currentPage: int, totalPages: nat): (r: seq<PageButton>)
    ensures |r| == totalPages
    ensures forall i :: 0 <= i < |r| ==>
              r[i].page == i && r[i].text == NatToString(i + 1) && (r[i].active <==> i == currentPage)
  {
    seq(totalPages, i requires 0 <= i < totalPages => PageButton(i, NatToString(i + 1), currentPage == i))
  }

  /** The rendered bar. */
  function Render(currentPage: int, totalPages: int): (v: PaginationView)
    ensures v.Hidden? <==> totalPages <= 1
  {
    if totalPages <= 1 then Hidden
    else Shown(currentPage == 0, currentPage - 1, PageButtons(currentPage, totalPages),
               currentPage >= totalPages - 1, currentPage + 1)
  }

  /** Previous is disabled exactly on the first page, next exactly from the
      last page on; the buttons cover pages 0 to `totalPages - 1`, labelled
      one higher. */
  lemma RenderButtons(currentPage: int, totalPages: int)
    requires totalPages > 1
    ensures Render(currentPage, totalPages).prevDisabled <==> currentPage == 0
    ensures Render(currentPage, totalPages).nextDisabled <==> currentPage >= totalPages - 1
    ensures |Render(currentPage, totalPages).buttons| == totalPages
    ensures forall i :: 0 <= i < totalPages ==>
              Render(currentPage, totalPages).buttons[i].page == i &&
              Render(currentPage, totalPages).buttons[i].text == NatToString(i + 1)
  {
  }

  /** At most one page button is active, and it is the current page. */
  lemma AtMostOneActive(currentPage: int, totalPages: int)
    requires totalPages > 1
    ensures forall i, j :: 0 <= i < j < totalPages ==>
              !(Render(currentPage, totalPages).buttons[i].active && Render(currentPage, totalPages).buttons[j].active)
    ensures forall i :: 0 <= i < totalPages && Render(currentPage, totalPages).buttons[i].active ==> i == currentPage
  {
  }

  /** On a page within range, an enabled previous or next button leads to a
      page within range. */
  lemma NavigationStaysInRange(currentPage: int, totalPages: int)
    requires totalPages > 1 && 0 <= currentPage < totalPages
    ensures !Render(currentPage, totalPages).prevDisabled ==> 0 <= Render(currentPage, totalPages).prevTarget < totalPages
    ensures !Render(currentPage, totalPages).nextDisabled ==> 0 <= Render(currentPage, totalPages).nextTarget < totalPages
  {
  }
}
