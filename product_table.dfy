/** The stateful side of reducer-example/src/App.tsx: the `useReducer` cell that `dispatch` updates
    one action at a time, the `searchTerm` input cell, the fetch effect's dispatch sequence (with the
    HTTP response passed in) and the event handlers of the table and the search form. */
module ProductTable {
  import opened Wrappers
  import opened ProductQuery

  class ProductBrowser {
    var state: DataParams
    var searchTerm: string

    constructor ()
      ensures state == InitialState && searchTerm == ""
      ensures WellFormed(state)
    {
      state := InitialState;
      searchTerm := "";
    }

    /** `dispatch(a)`: the reducer's next state replaces the current one. */
    method Dispatch(a: Action)
      modifies this`state
      ensures state == Reduce(old(state), a)
      ensures ChangedFields(old(state), state) <= Footprint(a)
      ensures WellFormed(old(state)) && Dispatchable(a) ==> WellFormed(state)
    {
      if WellFormed(state) && Dispatchable(a) {
        ReducePreservesWellFormed(state, a);
      }
      state := Reduce(state, a);
    }

    /** The body of the fetch effect: mark loading, issue the request for the current endpoint and
        query parameters (returned here), then, when the request resolves with `Some(response)`,
        store the response and mark idle. When it rejects (`None`) nothing catches the rejection:
        the remaining dispatches do not run and the state stays loading over the old rows. */
    method FetchProducts(response: Option<FilteredSet>) returns (url: string, params: QueryParams)
      modifies this`state
      ensures url == old(state).url && params == old(state).queryParams
      ensures response.Some? ==>
        state == old(state).(status := Idle, data := response.value.products, totalRows := response.value.total)
      ensures response.None? ==> state == old(state).(status := Loading)
      ensures WellFormed(old(state)) ==> WellFormed(state)
    {
      Dispatch(SetStatus(Loading));
      url, params := state.url, state.queryParams;
      if response.None? {
        return;
      }
      Dispatch(SetData(response.value));
      Dispatch(SetStatus(Idle));
    }

    /** The table's rows-per-page callback: only the page size changes. */
    method HandlePerRowsChange(newPerPage: int)
      modifies this`state
      ensures state.queryParams == old(state).queryParams.(limit := newPerPage)
      ensures state.url == old(state).url && SameResults(state, old(state))
      ensures WellFormed(old(state)) && newPerPage > 0 ==> WellFormed(state)
    {
      Dispatch(SetRowsPerPage(newPerPage));
    }

    /** The table's page callback: the offset moves to the chosen page at the current page size. */
    method HandlePageChange(page: int)
      modifies this`state
      ensures state.queryParams.skip == if page <= 1 then 0 else (page - 1) * old(state).queryParams.limit
      ensures state.queryParams.limit == old(state).queryParams.limit
      ensures state.queryParams.q == old(state).queryParams.q
      ensures state.queryParams.limit > 0 ==>
        OnPageBoundary(state.queryParams) && CurrentPage(state.queryParams) == if page <= 1 then 1 else page
      ensures state.url == old(state).url && SameResults(state, old(state))
      ensures WellFormed(old(state)) ==> WellFormed(state)
    {
      if state.queryParams.limit > 0 {
        SetPageRoundTrip(state, page);
      }
      Dispatch(SetPage(page));
    }

    /** Typing in the search box: the input cell follows; an emptied box clears the search. */
    method HandleSearchTerm(term: string)
      modifies this
      ensures searchTerm == term
      ensures term == "" ==> state == Reduce(old(state), Action.ClearSearch)
      ensures term != "" ==> state == old(state)
      ensures WellFormed(old(state)) ==> WellFormed(state)
    {
      searchTerm := term;
      if term == "" {
        Dispatch(Action.ClearSearch);
      }
    }

    /** Submitting the search form searches for the text in the input cell, from the first page. */
    method TriggerSearch()
      modifies this`state
      ensures state.url == SearchUrl
      ensures state.queryParams == QueryParams(Some(searchTerm), 0, LimitOrDefault(old(state).queryParams.limit))
      ensures SameResults(state, old(state))
      ensures WellFormed(old(state)) ==> WellFormed(state)
    {
      Dispatch(SetSearch(searchTerm));
    }

    /** The "clear search" link: empty the input cell and go back to the unfiltered first page. */
    method ClearSearch()
      modifies this
      ensures searchTerm == ""
      ensures state.url == BaseUrl
      ensures state.queryParams == QueryParams(None, 0, LimitOrDefault(old(state).queryParams.limit))
      ensures SameResults(state, old(state))
      ensures WellFormed(old(state)) ==> WellFormed(state)
    {
      searchTerm := "";
      Dispatch(Action.ClearSearch);
    }
  }

  /** A session of the page: search, fetch, go to page 3, fetch. The second request asks for the
      third page of the search at the default page size, and the table shows the last response. */
  method SearchThenPage(first: FilteredSet, second: FilteredSet)
    returns (url: string, params: QueryParams, shown: seq<Product>)
    ensures url == SearchUrl && params == QueryParams(Some("phone"), 40, 20)
    ensures shown == second.products
  {
    var b := new ProductBrowser();
    b.HandleSearchTerm("phone");
    b.TriggerSearch();
    url, params := b.FetchProducts(Some(first));
    b.HandlePageChange(3);
    url, params := b.FetchProducts(Some(second));
    shown := b.state.data;
  }

  /** A fetch that succeeds and a later one that rejects: "Loading..." stays on over the rows of
      the first response, and no error is recorded. */
  method RejectedFetchStaysLoading(first: FilteredSet) returns (status: Status, shown: seq<Product>, error: Option<string>)
    ensures status == Loading && shown == first.products && error == None
  {
    var b := new ProductBrowser();
    var _, _ := b.FetchProducts(Some(first));
    b.HandlePageChange(2);
    var _, _ := b.FetchProducts(None);
    status, shown, error := b.state.status, b.state.data, b.state.error;
  }
}
