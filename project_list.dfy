/**
 * The paged project table (src/app/pages/projects/project-list/project-list.component.ts): the
 * filter form, the listing request `load` builds from it, and the paging state that responses,
 * errors, `applyFilters` and `onPage` leave behind.
 */
module ProjectList {
  import opened Wrappers
  import opened Strings
  import opened Ui
  import opened ProjectService

  /** The filter form's raw value. */
  datatype Filter = Filter(q: string, active: Option<bool>, sort: string)

  const InitialFilter := Filter("", None, "id,desc")
  const DefaultSort := "id,desc"

  /** A listing response; every member the component reads may be absent. */
  datatype PageResponse = PageResponse(
    content: Option<seq<Project>>,
    totalElements: Option<int>,
    number: Option<int>,
    size: Option<int>)

  /** The parameters `load(pageIndex, pageSize)` passes to `list`. */
  function LoadParams(f: Filter, pageIndex: int, pageSize: int): ListParams {
    ListParams(
      f.active,
      if f.q != "" then Some(f.q) else None,
      Some(pageIndex),
      Some(pageSize),
      Some(if f.sort != "" then f.sort else DefaultSort))
  }

  /**
   * The query `load` sends: `q` only when typed, `active` only when chosen, `sort` always (the
   * default when cleared), and the page and size asked for.
   */
  lemma LoadQuery(f: Filter, pageIndex: int, pageSize: int)
    ensures var query := ListQuery(LoadParams(f, pageIndex, pageSize));
      && QueryValue(query, "q") == (if f.q != "" then Some(f.q) else None)
      && QueryValue(query, "active") == (if f.active.Some? then Some(BoolToString(f.active.value)) else None)
      && QueryValue(query, "sort") == Some(if f.sort != "" then f.sort else DefaultSort)
      && QueryValue(query, "page") == Some(IntToString(pageIndex))
      && QueryValue(query, "size") == Some(IntToString(pageSize))
  {
    ListQueryValues(LoadParams(f, pageIndex, pageSize));
    assert DefaultSort != "";
  }

  const LoadFailedText := "Falha ao carregar projetos (401? token?)"

  class ProjectListComponent {
    var loading: bool
    var data: seq<Project>
    var totalElements: int
    var pageIndex: int
    var pageSize: int
    var filter: Filter
    const service: ProjectService
    const snack: SnackBar

    /** The initial state, then `load()` of page 0 with 10 rows. */
    constructor (service: ProjectService, snack: SnackBar)
      modifies service.http
      ensures this.service == service && this.snack == snack
      ensures data == [] && totalElements == 0 && pageIndex == 0 && pageSize == 10
      ensures filter == InitialFilter && loading
      ensures service.http.sent == old(service.http.sent) + [ListRequest(LoadParams(InitialFilter, 0, 10))]
    {
      this.service := service;
      this.snack := snack;
      loading := false;
      data := [];
      totalElements := 0;
      pageIndex := 0;
      pageSize := 10;
      filter := InitialFilter;
      new;
      Load(pageIndex, pageSize);
    }

    /** `load(pageIndex, pageSize)`: loading, and one listing request with the current filter. */
    method Load(pageIndex: int, pageSize: int)
      modifies this, service.http
      ensures loading
      ensures data == old(data) && totalElements == old(totalElements)
      ensures this.pageIndex == old(this.pageIndex) && this.pageSize == old(this.pageSize) && filter == old(filter)
      ensures service.http.sent == old(service.http.sent) + [ListRequest(LoadParams(filter, pageIndex, pageSize))]
    {
      loading := true;
      service.List(LoadParams(filter, pageIndex, pageSize));
    }

    /** The `next` handler of a `load(pageIndex, pageSize)`. */
    method OnLoaded(pageIndex: int, pageSize: int, res: PageResponse)
      modifies this
      ensures !loading && filter == old(filter)
      ensures data == res.content.GetOr([])
      ensures totalElements == res.totalElements.GetOr(0)
      ensures this.pageIndex == res.number.GetOr(pageIndex)
      ensures this.pageSize == res.size.GetOr(pageSize)
    {
      data := res.content.GetOr([]);
      totalElements := res.totalElements.GetOr(0);
      this.pageIndex := res.number.GetOr(pageIndex);
      this.pageSize := res.size.GetOr(pageSize);
      loading := false;
    }

    /** The `error` handler: the table keeps what it showed. */
    method OnLoadFailed()
      modifies this, snack
      ensures !loading && filter == old(filter)
      ensures data == old(data) && totalElements == old(totalElements)
      ensures pageIndex == old(pageIndex) && pageSize == old(pageSize)
      ensures snack.shown == old(snack.shown) + [LoadFailedText]
    {
      loading := false;
      snack.Open(LoadFailedText);
    }

    /** `applyFilters`: back to page 0 and reload it with the current page size. */
    method ApplyFilters()
      modifies this, service.http
      ensures pageIndex == 0 && loading
      ensures data == old(data) && totalElements == old(totalElements)
      ensures pageSize == old(pageSize) && filter == old(filter)
      ensures service.http.sent == old(service.http.sent) + [ListRequest(LoadParams(filter, 0, pageSize))]
    {
      pageIndex := 0;
      Load(0, pageSize);
    }

    /** `onPage`: load exactly the page and size the paginator asks for. */
    method OnPage(eventPageIndex: int, eventPageSize: int)
      modifies this, service.http
      ensures loading
      ensures data == old(data) && totalElements == old(totalElements)
      ensures pageIndex == old(pageIndex) && pageSize == old(pageSize) && filter == old(filter)
      ensures service.http.sent == old(service.http.sent) + [ListRequest(LoadParams(filter, eventPageIndex, eventPageSize))]
    {
      Load(eventPageIndex, eventPageSize);
    }
  }
}
