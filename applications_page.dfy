/**
  The state of the `Applications` list view: the query inputs and the current
  page, the effect that sends the view back to page 1 when a query input
  changes, the rendering computation, and the Previous/Next handlers.
 */
module ApplicationsPage {
  import opened Records
  import opened Query
  import opened Pagination

  class ApplicationsView {
    var search: string
    var filterType: string
    var filterStatus: string
    var sortMode: SortMode
    var page: int

    /** Pages are numbered from 1. */
    ghost predicate Valid()
      reads this
    {
      page >= 1
    }

    function Current(): QuerySpec
      reads this
    {
      QuerySpec(search, filterType, filterStatus, sortMode)
    }

    /** The `useState` initial values. */
    constructor ()
      ensures Valid() && Current() == Initial && page == 1
    {
      search, filterType, filterStatus, sortMode := "", All, All, Unsorted;
      page := 1;
    }

    /** A query input is set; when it really changed, the effect on
        `[search, filterType, filterStatus, sortMode]` puts the view on page 1. */
    method SetSearch(s: string)
      requires Valid()
      modifies this
      ensures Valid()
      ensures Current() == old(Current()).(search := s)
      ensures page == if s != old(search) then 1 else old(page)
    {
      if s != search { page := 1; }
      search := s;
    }

    method SetFilterType(f: string)
      requires Valid()
      modifies this
      ensures Valid()
      ensures Current() == old(Current()).(filterType := f)
      ensures page == if f != old(filterType) then 1 else old(page)
    {
      if f != filterType { page := 1; }
      filterType := f;
    }

    method SetFilterStatus(f: string)
      requires Valid()
      modifies this
      ensures Valid()
      ensures Current() == old(Current()).(filterStatus := f)
      ensures page == if f != old(filterStatus) then 1 else old(page)
    {
      if f != filterStatus { page := 1; }
      filterStatus := f;
    }

    method SetSortMode(m: SortMode)
      requires Valid()
      modifies this
      ensures Valid()
      ensures Current() == old(Current()).(sortMode := m)
      ensures page == if m != old(sortMode) then 1 else old(page)
    {
      if m != sortMode { page := 1; }
      sortMode := m;
    }

    /** What one render computes from the stored list: the rows of the current
        page, the result count and the page count. */
    method Render(apps: seq<Record>) returns (pageItems: seq<Record>, total: nat, totalPages: nat)
      requires Valid()
      ensures total == |Pipeline(apps, Current())| && totalPages == TotalPages(total)
      ensures pageItems == PageItems(Pipeline(apps, Current()), page)
      ensures |pageItems| <= PerPage && totalPages >= 1
      ensures page > totalPages ==> pageItems == []
    {
      var filtered := ApplyAll(apps, Current());
      total := |filtered|;
      totalPages := TotalPages(total);
      pageItems := PageItems(filtered, page);
    }

    /** The Previous button: `setPage(p => Math.max(1, p - 1))`. */
    method Previous()
      requires Valid()
      modifies this`page
      ensures Valid() && page <= old(page)
      ensures page == if old(page) > 1 then old(page) - 1 else 1
    {
      page := Max(1, page - 1);
    }

    /** The Next button: `setPage(p => Math.min(totalPages, p + 1))`, with the
        page count of the render the click came from. */
    method Next(apps: seq<Record>)
      requires Valid()
      modifies this`page
      ensures Valid()
      ensures page <= TotalPages(|Pipeline(apps, Current())|)
      ensures page == Min(TotalPages(|Pipeline(apps, Current())|), old(page) + 1)
    {
      var filtered := ApplyAll(apps, Current());
      var totalPages := TotalPages(|filtered|);
      page := Min(totalPages, page + 1);
    }
  }
}
