/** The pagination bar: a sliding window of at most five page numbers around the current
    page, the first/last buttons with their ellipses, and the "Mostrando a..b de n" range. */
module Pagination {
  import opened Wrappers

  const MaxVisiblePages := 5

  function Max(a: int, b: int): int { if a >= b then a else b }
  function Min(a: int, b: int): int { if a <= b then a else b }

  /** The visible pages in closed form: `max(0, min(5, total))` consecutive numbers from
      `max(1, min(current - 2, total - 4))`. */
  function Window(currentPage: int, totalPages: int): (pages: seq<int>)
    ensures |pages| == Max(0, Min(MaxVisiblePages, totalPages))
  {
    var first := Max(1, Min(currentPage - 2, totalPages - 4));
    seq(Max(0, Min(MaxVisiblePages, totalPages)), i => first + i)
  }

  /** `getVisiblePages`: start two pages before the current one, end at most four pages
      later, and slide the start back when the end hits the last page. */
  method GetVisiblePages(currentPage: int, totalPages: int) returns (pages: seq<int>)
    ensures pages == Window(currentPage, totalPages)
  {
    pages := [];
    var startPage := Max(1, currentPage - MaxVisiblePages / 2);
    var endPage := Min(totalPages, startPage + MaxVisiblePages - 1);
    if endPage - startPage + 1 < MaxVisiblePages {
      startPage := Max(1, endPage - MaxVisiblePages + 1);
    }
    var i := startPage;
    while i <= endPage
      invariant startPage <= i <= Max(startPage, endPage + 1)
      invariant pages == seq(i - startPage, k => startPage + k)
      decreases endPage - i
    {
      pages := pages + [i];
      i := i + 1;
    }
    assert startPage == Max(1, Min(currentPage - 2, totalPages - 4));
    assert |pages| == Max(0, Min(MaxVisiblePages, totalPages));
  }

  /** For a current page within range the window is a run of consecutive pages inside
      `[1, total]`, of length `min(5, total)`, holding the current page. */
  lemma WindowShape(currentPage: int, totalPages: int)
    requires 1 <= currentPage <= totalPages
    ensures var pages := Window(currentPage, totalPages);
      && |pages| == Min(MaxVisiblePages, totalPages)
      && (forall i :: 0 <= i < |pages| ==> 1 <= pages[i] <= totalPages)
      && (forall i :: 0 <= i < |pages| - 1 ==> pages[i + 1] == pages[i] + 1)
      && currentPage in pages
  {
    var pages := Window(currentPage, totalPages);
    var first := Max(1, Min(currentPage - 2, totalPages - 4));
    assert pages[currentPage - first] == currentPage;
  }

  /** Away from both ends the current page sits in the middle of the window. */
  lemma WindowCentred(currentPage: int, totalPages: int)
    requires 3 <= currentPage <= totalPages - 2
    ensures Window(currentPage, totalPages)[2] == currentPage
  {
  }

  /** Without pages the window is empty. */
  lemma WindowEmpty(currentPage: int, totalPages: int)
    ensures Window(currentPage, totalPages) == [] <==> totalPages <= 0
  {
  }

  function FirstOf(pages: seq<int>): Option<int> {
    if pages == [] then None else Some(pages[0])
  }

  function LastOf(pages: seq<int>): Option<int> {
    if pages == [] then None else Some(pages[|pages| - 1])
  }

  /** A numbered button; `active` is the "default" variant. */
  datatype PageButton = PageButton(page: int, active: bool)

  datatype View = View(
    startItem: int,
    endItem: int,
    totalItems: int,
    previousDisabled: bool,
    firstButton: bool,
    leadingEllipsis: bool,
    pages: seq<PageButton>,
    trailingEllipsis: bool,
    lastButton: bool,
    nextDisabled: bool)

  /** The props' defaults: `itemsPerPage = 10`, `totalItems = 0`. */
  const DefaultItemsPerPage := 10
  const DefaultTotalItems := 0

  /** The number of the first item shown: the items before it fill the earlier pages. */
  function StartItem(currentPage: int, itemsPerPage: int): (first: int)
    ensures first - 1 == (currentPage - 1) * itemsPerPage
  {
    (currentPage - 1) * itemsPerPage + 1
  }

  /** The number of the last item shown: the end of the page, or the last item when the
      page is the short last one. */
  function EndItem(currentPage: int, itemsPerPage: int, totalItems: int): (last: int)
    ensures last <= totalItems && last <= currentPage * itemsPerPage
    ensures last == totalItems || last == currentPage * itemsPerPage
  {
    Min(currentPage * itemsPerPage, totalItems)
  }

  /** The component's output. An empty window makes `visiblePages[0]` undefined, and
      every comparison with it false. */
  function Render(currentPage: int, totalPages: int, hasNextPage: bool, hasPreviousPage: bool,
                  itemsPerPage: int, totalItems: int): (v: View)
    ensures |v.pages| == |Window(currentPage, totalPages)|
    ensures forall i :: 0 <= i < |v.pages| ==>
      v.pages[i].page == Window(currentPage, totalPages)[i] && (v.pages[i].active <==> v.pages[i].page == currentPage)
    ensures v.previousDisabled <==> !hasPreviousPage
    ensures v.nextDisabled <==> !hasNextPage
    ensures v.firstButton <==> FirstOf(Window(currentPage, totalPages)).Some? && FirstOf(Window(currentPage, totalPages)).value > 1
    ensures v.lastButton <==> LastOf(Window(currentPage, totalPages)).Some? && LastOf(Window(currentPage, totalPages)).value < totalPages
    ensures v.leadingEllipsis <==> v.firstButton && FirstOf(Window(currentPage, totalPages)).value > 2
    ensures v.trailingEllipsis <==> v.lastButton && LastOf(Window(currentPage, totalPages)).value < totalPages - 1
    ensures v.startItem == StartItem(currentPage, itemsPerPage) && v.endItem == EndItem(currentPage, itemsPerPage, totalItems)
    ensures v.totalItems == totalItems
  {
    var pages := Window(currentPage, totalPages);
    var first := FirstOf(pages);
    var last := LastOf(pages);
    var firstButton := first.Some? && first.value > 1;
    var lastButton := last.Some? && last.value < totalPages;
    View(
      StartItem(currentPage, itemsPerPage),
      EndItem(currentPage, itemsPerPage, totalItems),
      totalItems,
      !hasPreviousPage,
      firstButton,
      firstButton && first.value > 2,
      seq(|pages|, i requires 0 <= i < |pages| => PageButton(pages[i], pages[i] == currentPage)),
      lastButton && last.value < totalPages - 1,
      lastButton,
      !hasNextPage)
  }

  /** The first-page button and its ellipsis in terms of the current and total pages:
      the "1" button shows iff the window starts after page 1 (current page past 3 and
      more than 5 pages), the ellipsis iff it starts after page 2. */
  lemma LeadingButtons(currentPage: int, totalPages: int, hasNextPage: bool, hasPreviousPage: bool,
                       itemsPerPage: int, totalItems: int)
    requires 1 <= currentPage <= totalPages
    ensures var v := Render(currentPage, totalPages, hasNextPage, hasPreviousPage, itemsPerPage, totalItems);
      && (v.firstButton <==> currentPage > 3 && totalPages > 5)
      && (v.leadingEllipsis <==> currentPage > 4 && totalPages > 6)
  {
  }

  /** The last-page button shows iff the window ends before the last page (current page
      more than 2 before it and more than 5 pages), the ellipsis iff it ends before the
      page before the last. */
  lemma TrailingButtons(currentPage: int, totalPages: int, hasNextPage: bool, hasPreviousPage: bool,
                        itemsPerPage: int, totalItems: int)
    requires 1 <= currentPage <= totalPages
    ensures var v := Render(currentPage, totalPages, hasNextPage, hasPreviousPage, itemsPerPage, totalItems);
      && (v.lastButton <==> currentPage < totalPages - 2 && totalPages > 5)
      && (v.trailingEllipsis <==> currentPage < totalPages - 3 && totalPages > 6)
  {
  }

  /** Exactly one numbered button is active: the current page's. */
  lemma OneActiveButton(currentPage: int, totalPages: int, hasNextPage: bool, hasPreviousPage: bool,
                        itemsPerPage: int, totalItems: int)
    requires 1 <= currentPage <= totalPages
    ensures var v := Render(currentPage, totalPages, hasNextPage, hasPreviousPage, itemsPerPage, totalItems);
      && (exists i :: 0 <= i < |v.pages| && v.pages[i].active)
      && (forall i, j :: 0 <= i < |v.pages| && 0 <= j < |v.pages| && v.pages[i].active && v.pages[j].active ==> i == j)
  {
    var v := Render(currentPage, totalPages, hasNextPage, hasPreviousPage, itemsPerPage, totalItems);
    var first := Max(1, Min(currentPage - 2, totalPages - 4));
    WindowShape(currentPage, totalPages);
    assert v.pages[currentPage - first].active;
  }

  /** The item range of a page inside the list: it starts right after the previous pages'
      items and counts `min(itemsPerPage, items left)` items. */
  lemma ItemRange(currentPage: int, itemsPerPage: int, totalItems: int)
    requires 1 <= currentPage && 0 < itemsPerPage
    requires (currentPage - 1) * itemsPerPage < totalItems
    ensures 1 <= StartItem(currentPage, itemsPerPage) <= EndItem(currentPage, itemsPerPage, totalItems) <= totalItems
    ensures EndItem(currentPage, itemsPerPage, totalItems) - StartItem(currentPage, itemsPerPage) + 1
      == Min(itemsPerPage, totalItems - (currentPage - 1) * itemsPerPage)
  {
    assert currentPage * itemsPerPage == (currentPage - 1) * itemsPerPage + itemsPerPage;
  }

  /** What each button asks `onPageChange` for. */
  datatype Click = Previous | Next | First | Last | Numbered(page: int)

  function Target(click: Click, currentPage: int, totalPages: int): int
  {
    match click
    case Previous => currentPage - 1
    case Next => currentPage + 1
    case First => 1
    case Last => totalPages
    case Numbered(p) => p
  }

  /** With `hasPreviousPage == currentPage > 1` and `hasNextPage == currentPage < total`, as
      the users table passes them, every enabled button leads to a page in `[1, total]`. */
  lemma EnabledTargetsInRange(currentPage: int, totalPages: int, itemsPerPage: int, totalItems: int, click: Click)
    requires 1 <= currentPage <= totalPages
    requires var v := Render(currentPage, totalPages, currentPage < totalPages, currentPage > 1, itemsPerPage, totalItems);
      match click
      case Previous => !v.previousDisabled
      case Next => !v.nextDisabled
      case First => v.firstButton
      case Last => v.lastButton
      case Numbered(p) => p in Window(currentPage, totalPages)
    ensures 1 <= Target(click, currentPage, totalPages) <= totalPages
  {
    WindowShape(currentPage, totalPages);
  }
}
