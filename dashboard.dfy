/**
 * The `StockDashboard` component (frontend/task_frontend/src/App.jsx): its
 * four pieces of state, the fetch effect that runs whenever `page` changes,
 * the Previous and Next buttons and the selection of a list entry. Each event
 * is one method; the requests the effect sends are recorded in the ghost trace `requests`.
 */
module Dashboard {
  import opened Common
  import opened JsNumbers
  import Backend

  /** The `limit` every dashboard request asks for. */
  const PageSize: int := 15

  /** The query of `fetch(`...get-csv-data?page=${page}&limit=15`)`. */
  function RequestFor(page: nat): Backend.Query {
    Backend.Query(Some(DecimalString(page)), Some("15"))
  }

  /** `Math.max(1, p - 1)`: where Previous leads. */
  function PreviousPage(p: int): (q: int)
    ensures q >= 1
    ensures p >= 1 ==> (q == p <==> p == 1)
    ensures p > 1 ==> q == p - 1
  {
    Max(1, p - 1)
  }

  class StockDashboard {
    var companies: seq<Record>
    var selectedCompany: Option<Record>
    var page: int
    var loading: bool
    /** The trace of queries the fetch effect has sent, oldest first. */
    ghost var requests: seq<Backend.Query>

    /**
     * `page` never drops below 1, it is still 1 before the first request, and
     * the latest request is for the page on display.
     */
    ghost predicate Valid()
      reads this
    {
      && page >= 1
      && (requests == [] ==> page == 1)
      && (requests != [] ==> requests[|requests| - 1] == RequestFor(page))
    }

    /** The first render: `useState([])`, `useState(null)`, `useState(1)`, `useState(false)`. */
    constructor ()
      ensures Valid()
      ensures companies == [] && selectedCompany == None && page == 1 && !loading
      ensures requests == []
    {
      companies := [];
      selectedCompany := None;
      page := 1;
      loading := false;
      requests := [];
    }

    /** `disabled={page === 1}` on the Previous button. */
    function PreviousDisabled(): bool
      reads this
    {
      page == 1
    }

    /** `fetchData`: `setLoading(true)` and the request for the current page. */
    method FetchData()
      requires page >= 1
      modifies this
      ensures Valid()
      ensures loading && requests == old(requests) + [RequestFor(page)]
      ensures page == old(page) && companies == old(companies) && selectedCompany == old(selectedCompany)
    {
      loading := true;
      requests := requests + [RequestFor(page)];
    }

    /** The effect's first run, after the first render. */
    method Mount()
      requires Valid() && requests == []
      modifies this
      ensures Valid()
      ensures loading && page == 1 && requests == [RequestFor(1)]
      ensures page == old(page) && companies == old(companies) && selectedCompany == old(selectedCompany)
    {
      FetchData();
    }

    /**
     * A click on Previous: `setPage(p => Math.max(1, p - 1))`. The list and its
     * buttons are rendered only while not loading. At page 1 the button is
     * disabled and the page would not change anyway: no re-render, no effect,
     * no request. Otherwise the effect fetches the new page.
     */
    method Previous()
      requires Valid() && !loading
      modifies this
      ensures Valid()
      ensures page == PreviousPage(old(page))
      ensures old(PreviousDisabled()) ==> page == old(page) && !loading && requests == old(requests)
      ensures !old(PreviousDisabled()) ==> page == old(page) - 1 && loading && requests == old(requests) + [RequestFor(page)]
      ensures companies == old(companies) && selectedCompany == old(selectedCompany)
    {
      var next := PreviousPage(page);
      if next != page {
        page := next;
        FetchData();
      }
    }

    /** A click on Next: `setPage(p => p + 1)`, with no upper bound, then the effect. */
    method Next()
      requires Valid() && !loading
      modifies this
      ensures Valid()
      ensures page == old(page) + 1
      ensures loading && requests == old(requests) + [RequestFor(page)]
      ensures companies == old(companies) && selectedCompany == old(selectedCompany)
    {
      page := page + 1;
      FetchData();
    }

    /** A response that is read as JSON: `setCompanies(data)`, `setLoading(false)`. */
    method ReceivePage(data: seq<Record>)
      requires Valid()
      modifies this
      ensures Valid()
      ensures companies == data && !loading
      ensures page == old(page) && selectedCompany == old(selectedCompany) && requests == old(requests)
    {
      companies := data;
      loading := false;
    }

    /** A failed request or an unreadable body: logged, `setLoading(false)`; the list stays. */
    method FailFetch()
      requires Valid()
      modifies this
      ensures Valid()
      ensures !loading
      ensures page == old(page) && companies == old(companies) && selectedCompany == old(selectedCompany)
      ensures requests == old(requests)
    {
      loading := false;
    }

    /** A click on the entry at `index` of the list: `setSelectedCompany(company)`. */
    method Select(index: nat)
      requires Valid() && !loading && index < |companies|
      modifies this
      ensures Valid()
      ensures selectedCompany == Some(old(companies)[index])
      ensures page == old(page) && companies == old(companies) && loading == old(loading)
      ensures requests == old(requests)
    {
      selectedCompany := Some(companies[index]);
    }
  }

  // ---------------------------------------------------------------- the dashboard against the backend

  /** Records (p-1)*15 up to p*15 of the dataset, cut at its end. */
  function PageWindow(fullData: seq<Record>, p: int): seq<Record>
    requires p >= 1
  {
    var n := |fullData|;
    var start := (p - 1) * PageSize;
    assert start <= p * PageSize;
    fullData[Min(start, n)..Min(p * PageSize, n)]
  }

  /** What page p of the dashboard shows: records (p-1)*15 up to p*15, cut at the end of the data. */
  lemma RequestedPageContents(fullData: seq<Record>, p: nat)
    requires p >= 1
    ensures Backend.GetCsvData(fullData, RequestFor(p)) == PageWindow(fullData, p)
  {
    assert DecimalString(15) == "15";
    Backend.DecimalQueryIsExact(fullData, p, 15);
    Backend.PageIsWindow(fullData, p, 15);
  }

  /** The backend's answer to the dashboard's request for page p. */
  method ServePage(store: Backend.DatasetStore, p: nat) returns (data: seq<Record>)
    requires p >= 1
    ensures data == PageWindow(store.fullData, p)
  {
    data := store.HandleGetCsvData(RequestFor(p));
    RequestedPageContents(store.fullData, p);
  }

  /**
   * The backend answers the dashboard's latest request, which `Valid()` says
   * is the request for the page on display, and the dashboard takes the answer in.
   */
  method DeliverLatest(store: Backend.DatasetStore, dash: StockDashboard)
    requires dash.Valid() && dash.requests != []
    modifies dash
    ensures dash.Valid() && !dash.loading
    ensures dash.companies == PageWindow(store.fullData, dash.page)
    ensures dash.page == old(dash.page) && dash.selectedCompany == old(dash.selectedCompany)
    ensures dash.requests == old(dash.requests)
  {
    var data := ServePage(store, dash.page);
    dash.ReceivePage(data);
  }

  /**
   * The whole system from startup: the backend loads the CSV with the given
   * outcome, the dashboard mounts and shows page 1, the user clicks Next and
   * the dashboard shows page 2: records 15 to 29, or nothing if loading failed.
   */
  method BrowseSecondPage(outcome: Backend.LoadOutcome) returns (shown: seq<Record>)
    ensures outcome.Parsed? ==> var n := |outcome.records|; shown == outcome.records[Min(15, n)..Min(30, n)]
    ensures !outcome.Parsed? ==> shown == []
  {
    var store := new Backend.DatasetStore();
    store.Load(outcome);
    var dash := new StockDashboard();
    dash.Mount();
    DeliverLatest(store, dash);
    dash.Next();
    DeliverLatest(store, dash);
    shown := dash.companies;
  }
}
