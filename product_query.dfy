/** The server-side pagination reducer of reducer-example/src/App.tsx: the state a product table
    keeps (endpoint, load status, error, query parameters, the current page of rows and the total
    row count), the eight actions, and the pure function that maps a state and an action to the
    next state. */
module ProductQuery {
  import opened Wrappers

  const BaseUrl: string := "https://dummyjson.com/products"
  const SearchUrl: string := "https://dummyjson.com/products/search"
  /** The page size used when the current one is falsy (`limit || 20`). */
  const DefaultLimit: int := 20

  datatype Status = Idle | Loading | Error

  /** One row of the table, as the data service returns it. */
  datatype Product = Product(id: int, title: string, description: string, price: real, thumbnail: string)

  /** One page of products and the size of the whole (filtered) set, as returned by the service. */
  datatype FilteredSet = FilteredSet(total: int, skip: int, limit: int, products: seq<Product>)

  /** The request parameters: the search term `q` (present only in search mode), the offset and the page size. */
  datatype QueryParams = QueryParams(q: Option<string>, skip: int, limit: int)

  datatype DataParams = DataParams(
    url: string,
    status: Status,
    error: Option<string>,
    queryParams: QueryParams,
    data: seq<Product>,
    totalRows: int)

  datatype Action =
    | ClearSearch
    | Reset
    | SetStatus(status: Status)
    | SetSearch(term: string)
    | SetPage(page: int)
    | SetRowsPerPage(rows: int)
    | SetError(message: string)
    | SetData(payload: FilteredSet)

  const InitialState: DataParams :=
    DataParams(BaseUrl, Idle, None, QueryParams(None, 0, DefaultLimit), [], 0)

  /** `limit || 20`: a zero page size is falsy and is replaced by the default. */
  function LimitOrDefault(limit: int): (r: int)
    ensures r != 0
    ensures limit != 0 ==> r == limit
    ensures limit == 0 ==> r == DefaultLimit
  {
    if limit == 0 then DefaultLimit else limit
  }

  /** The reducer. Every branch builds a fresh state from the old one; the `default` branch
      that throws on an unknown action type cannot be reached with a closed datatype. */
  function Reduce(s: DataParams, a: Action): (r: DataParams)
    ensures ChangedFields(s, r) <= Footprint(a)
  {
    match a
    case Reset =>
      InitialState.(queryParams := QueryParams(None, 0, LimitOrDefault(s.queryParams.limit)))
    case SetStatus(status) =>
      s.(status := status)
    case SetData(payload) =>
      s.(data := payload.products, totalRows := payload.total, status := Idle)
    case SetRowsPerPage(rows) =>
      s.(queryParams := s.queryParams.(limit := rows))
    case SetPage(page) =>
      var newSkip := if page <= 1 then 0 else (page - 1) * s.queryParams.limit;
      s.(queryParams := s.queryParams.(skip := newSkip))
    case SetError(message) =>
      s.(error := Some(message))
    case ClearSearch =>
      s.(url := BaseUrl, queryParams := QueryParams(None, 0, LimitOrDefault(s.queryParams.limit)))
    case SetSearch(term) =>
      s.(url := SearchUrl, queryParams := QueryParams(Some(term), 0, LimitOrDefault(s.queryParams.limit)))
  }

  // ---------------------------------------------------------------------------------------------
  // Which fields an action may touch

  datatype Field = UrlField | StatusField | ErrorField | SearchField | SkipField | LimitField | DataField | TotalRowsField

  const AllFields: set<Field> :=
    {UrlField, StatusField, ErrorField, SearchField, SkipField, LimitField, DataField, TotalRowsField}

  /** The fields in which two states differ. */
  function ChangedFields(s: DataParams, t: DataParams): (fs: set<Field>)
    ensures fs == {} <==> s == t
  {
    (if s.url != t.url then {UrlField} else {}) +
    (if s.status != t.status then {StatusField} else {}) +
    (if s.error != t.error then {ErrorField} else {}) +
    (if s.queryParams.q != t.queryParams.q then {SearchField} else {}) +
    (if s.queryParams.skip != t.queryParams.skip then {SkipField} else {}) +
    (if s.queryParams.limit != t.queryParams.limit then {LimitField} else {}) +
    (if s.data != t.data then {DataField} else {}) +
    (if s.totalRows != t.totalRows then {TotalRowsField} else {})
  }

  /** The fields each action is allowed to change; everything else must come through unchanged. */
  function Footprint(a: Action): set<Field>
  {
    match a
    case Reset => AllFields
    case SetStatus(_) => {StatusField}
    case SetData(_) => {DataField, TotalRowsField, StatusField}
    case SetRowsPerPage(_) => {LimitField}
    case SetPage(_) => {SkipField}
    case SetError(_) => {ErrorField}
    case ClearSearch => {UrlField, SearchField, SkipField, LimitField}
    case SetSearch(_) => {UrlField, SearchField, SkipField, LimitField}
  }

  /** The result fields (what a fetch fills in) agree. */
  predicate SameResults(s: DataParams, t: DataParams)
  {
    s.status == t.status && s.error == t.error && s.data == t.data && s.totalRows == t.totalRows
  }

  // ---------------------------------------------------------------------------------------------
  // The effect of each action

  /** `reset` gives the initial state, except that a non-zero page size survives. */
  lemma ResetResult(s: DataParams)
    ensures var r := Reduce(s, Reset);
      && r.url == BaseUrl && r.status == Idle && r.error == None
      && r.data == [] && r.totalRows == 0
      && r.queryParams.q == None && r.queryParams.skip == 0
      && (s.queryParams.limit != 0 ==> r.queryParams.limit == s.queryParams.limit)
      && (s.queryParams.limit == 0 ==> r.queryParams.limit == DefaultLimit)
      && (s.queryParams.limit == DefaultLimit ==> r == InitialState)
  {
  }

  /** `set-status` and `set-error` touch one field each. */
  lemma SetStatusOrErrorResult(s: DataParams, status: Status, message: string)
    ensures Reduce(s, SetStatus(status)) == s.(status := status)
    ensures Reduce(s, SetError(message)) == s.(error := Some(message))
    ensures Reduce(s, SetError(message)).status == s.status
  {
  }

  /** `set-data` shows the fetched page and its total and returns to idle; the query is untouched. */
  lemma SetDataResult(s: DataParams, p: FilteredSet)
    ensures var r := Reduce(s, SetData(p));
      && r.data == p.products && r.totalRows == p.total && r.status == Idle
      && r.queryParams == s.queryParams && r.url == s.url && r.error == s.error
  {
  }

  /** `set-rows-per-page` changes the page size only: the offset is NOT reset. */
  lemma SetRowsPerPageResult(s: DataParams, n: int)
    ensures var r := Reduce(s, SetRowsPerPage(n));
      && r.queryParams.limit == n
      && r.queryParams.skip == s.queryParams.skip
      && r.queryParams.q == s.queryParams.q
      && r.url == s.url && SameResults(r, s)
  {
  }

  /** `set-page(n)`: the offset is that of page n (page 1 for n <= 1) at the current page size. */
  lemma SetPageResult(s: DataParams, n: int)
    ensures var r := Reduce(s, SetPage(n));
      && (n <= 1 ==> r.queryParams.skip == 0)
      && (n > 1 ==> r.queryParams.skip == (n - 1) * s.queryParams.limit)
      && r.queryParams.limit == s.queryParams.limit
      && r.queryParams.q == s.queryParams.q
      && r.url == s.url && SameResults(r, s)
  {
  }

  /** `set-search(t)` switches to the search endpoint at the first page, keeping a non-zero page size. */
  lemma SetSearchResult(s: DataParams, t: string)
    ensures var r := Reduce(s, SetSearch(t));
      && r.url == SearchUrl
      && r.queryParams.q == Some(t) && r.queryParams.skip == 0
      && (s.queryParams.limit != 0 ==> r.queryParams.limit == s.queryParams.limit)
      && (s.queryParams.limit == 0 ==> r.queryParams.limit == DefaultLimit)
      && SameResults(r, s)
  {
  }

  /** `clear-search` returns to the base endpoint at the first page, with no search term. */
  lemma ClearSearchResult(s: DataParams)
    ensures var r := Reduce(s, ClearSearch);
      && r.url == BaseUrl
      && r.queryParams.q == None && r.queryParams.skip == 0
      && (s.queryParams.limit != 0 ==> r.queryParams.limit == s.queryParams.limit)
      && (s.queryParams.limit == 0 ==> r.queryParams.limit == DefaultLimit)
      && SameResults(r, s)
  {
  }

  /** Dispatching any action twice in a row has the effect of dispatching it once. */
  lemma {:induction false} ReduceIdempotent(s: DataParams, a: Action)
    ensures Reduce(Reduce(s, a), a) == Reduce(s, a)
  {
  }

  /** The dispatch sequence of the fetch effect: loading, the response, idle. The query, the endpoint
      and the error survive; the table shows the response. */
  lemma FetchSequenceResult(s: DataParams, response: FilteredSet)
    ensures var r := Reduce(Reduce(Reduce(s, SetStatus(Loading)), SetData(response)), SetStatus(Idle));
      && r.status == Idle && r.data == response.products && r.totalRows == response.total
      && r.queryParams == s.queryParams && r.url == s.url && r.error == s.error
  {
  }

  // ---------------------------------------------------------------------------------------------
  // Pages and offsets

  /** The 1-based page whose first row is at the current offset (when the offset is on a page boundary). */
  function CurrentPage(q: QueryParams): (p: int)
    requires q.limit > 0
    ensures q.skip >= 0 ==> p >= 1
  {
    q.skip / q.limit + 1
  }

  predicate OnPageBoundary(q: QueryParams)
  {
    q.limit > 0 && q.skip >= 0 && q.skip % q.limit == 0
  }

  /** A positive multiple of a positive page size is at least one page long. */
  lemma {:induction false} MultipleAtLeast(d: int, l: int)
    requires d >= 1 && l > 0
    ensures d * l >= l
    decreases d
  {
    if d > 1 {
      MultipleAtLeast(d - 1, l);
      assert d * l == (d - 1) * l + l;
    }
  }

  lemma {:induction false} MultipleDivides(k: int, l: int)
    requires l > 0
    ensures (k * l) / l == k && (k * l) % l == 0
  {
    var q, r := (k * l) / l, (k * l) % l;
    assert k * l == q * l + r && 0 <= r < l;
    assert (k - q) * l == r;
    if k - q >= 1 {
      MultipleAtLeast(k - q, l);
    } else if k - q <= -1 {
      MultipleAtLeast(q - k, l);
    }
  }

  /** Going to page n and reading the page back from the new offset gives n (page 1 for n <= 1),
      provided the page size is positive. */
  lemma {:induction false} SetPageRoundTrip(s: DataParams, n: int)
    requires s.queryParams.limit > 0
    ensures var q := Reduce(s, SetPage(n)).queryParams;
      && OnPageBoundary(q)
      && CurrentPage(q) == if n <= 1 then 1 else n
  {
    var l := s.queryParams.limit;
    if n > 1 {
      MultipleDivides(n - 1, l);
      assert (n - 1) * l >= 0;
    }
  }

  /** Every action except `set-rows-per-page` leaves the offset on a page boundary of the page size. */
  lemma {:induction false} PageBoundaryPreserved(s: DataParams, a: Action)
    requires OnPageBoundary(s.queryParams)
    requires !a.SetRowsPerPage?
    ensures OnPageBoundary(Reduce(s, a).queryParams)
  {
    if a.SetPage? {
      SetPageRoundTrip(s, a.page);
    }
  }

  /** ... and `set-rows-per-page` may leave it off one: on page 2 of 20 rows, choosing 50 rows per
      page keeps offset 20. */
  lemma RowsPerPageLeavesBoundary()
    ensures var s := Reduce(Reduce(InitialState, SetPage(2)), SetRowsPerPage(50));
      && s.queryParams.skip == 20 && s.queryParams.limit == 50
      && !OnPageBoundary(s.queryParams)
  {
  }

  // ---------------------------------------------------------------------------------------------
  // The state invariant

  /** A reachable state: a positive page size, a non-negative offset, and the endpoint agrees with
      the presence of a search term. */
  predicate WellFormed(s: DataParams)
  {
    && s.queryParams.limit > 0
    && s.queryParams.skip >= 0
    && (s.url == BaseUrl || s.url == SearchUrl)
    && (s.url == SearchUrl <==> s.queryParams.q.Some?)
  }

  /** The actions the table component can produce: it offers only positive page sizes. */
  predicate Dispatchable(a: Action)
  {
    a.SetRowsPerPage? ==> a.rows > 0
  }

  lemma InitialWellFormed()
    ensures WellFormed(InitialState)
  {
  }

  lemma {:induction false} ReducePreservesWellFormed(s: DataParams, a: Action)
    requires WellFormed(s) && Dispatchable(a)
    ensures WellFormed(Reduce(s, a))
  {
    if a.SetPage? {
      SetPageRoundTrip(s, a.page);
    }
  }
}
