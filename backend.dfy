/**
 * The backend service (backend/node.js): the process-wide dataset `fullData`,
 * filled once from the remote CSV, and the `GET /get-csv-data` route that
 * normalises `page` and `limit` and answers with one slice of the dataset.
 */
module Backend {
  import opened Common
  import opened JsNumbers
  import opened JsArraySlice

  /** The query of a `/get-csv-data` request: each parameter absent or one string. */
  datatype Query = Query(page: Option<string>, limit: Option<string>)

  const DefaultPage: int := 1
  const DefaultLimit: int := 10

  /** JavaScript truthiness of a Number: NaN, +0 and -0 are falsy. */
  predicate Truthy(n: Option<int>) {
    n.Some? && n.value != 0
  }

  /** `parseInt(req.query.page) || 1` */
  function EffectivePage(q: Query): (page: int)
    ensures page != 0
    ensures !Truthy(ParseInt(q.page)) ==> page == DefaultPage
    ensures Truthy(ParseInt(q.page)) ==> Some(page) == ParseInt(q.page)
  {
    var parsed := ParseInt(q.page);
    if Truthy(parsed) then parsed.value else DefaultPage
  }

  /** `parseInt(req.query.limit) || 10` */
  function EffectiveLimit(q: Query): (limit: int)
    ensures limit != 0
    ensures !Truthy(ParseInt(q.limit)) ==> limit == DefaultLimit
    ensures Truthy(ParseInt(q.limit)) ==> Some(limit) == ParseInt(q.limit)
  {
    var parsed := ParseInt(q.limit);
    if Truthy(parsed) then parsed.value else DefaultLimit
  }

  /** `startIndex = (page - 1) * limit` */
  function StartIndex(page: int, limit: int): int {
    (page - 1) * limit
  }

  /** `endIndex = page * limit`: the requested window is exactly `limit` wide. */
  function EndIndex(page: int, limit: int): (end: int)
    ensures end == StartIndex(page, limit) + limit
  {
    page * limit
  }

  /** `fullData.slice(startIndex, endIndex)` */
  function Page(fullData: seq<Record>, page: int, limit: int): seq<Record> {
    Slice(fullData, StartIndex(page, limit), EndIndex(page, limit))
  }

  /** The JSON array the route answers with; there is no error response. */
  function GetCsvData(fullData: seq<Record>, q: Query): seq<Record> {
    Page(fullData, EffectivePage(q), EffectiveLimit(q))
  }

  /** The outcome of the startup pipeline: the CSV fetched and parsed, or one of its two failures. */
  datatype LoadOutcome = Parsed(records: seq<Record>) | FetchError | ParseError

  /** The module-level `fullData` binding and the route that reads it. */
  class DatasetStore {
    var fullData: seq<Record>

    /** `let fullData = [];` */
    constructor ()
      ensures fullData == []
    {
      fullData := [];
    }

    /**
     * The completion of `axios.get(url)` and of `csv.parse`: a parse result
     * replaces the dataset wholesale; a fetch error or a parse error is only
     * logged and leaves it as it was.
     */
    method Load(outcome: LoadOutcome)
      modifies this
      ensures fullData == if outcome.Parsed? then outcome.records else old(fullData)
    {
      match outcome
      case Parsed(records) =>
        fullData := records;
      case FetchError =>
      case ParseError =>
    }

    /** The `/get-csv-data` handler. It only reads `fullData`. */
    method HandleGetCsvData(q: Query) returns (data: seq<Record>)
      ensures data == GetCsvData(fullData, q)
      ensures fullData == [] ==> data == []
    {
      var page := EffectivePage(q);
      var limit := EffectiveLimit(q);
      var startIndex := (page - 1) * limit;
      var endIndex := page * limit;
      data := Slice(fullData, startIndex, endIndex);
    }
  }

  // ---------------------------------------------------------------- lemmas

  /** A missing or non-numeric `page` and `limit` behave exactly like page 1 of 10. */
  lemma NonNumericQueryIsDefault(fullData: seq<Record>, q: Query)
    requires q.page.None? || NonNumeric(q.page.value)
    requires q.limit.None? || NonNumeric(q.limit.value)
    ensures GetCsvData(fullData, q) == Page(fullData, 1, 10)
  {
    ParseIntMissing();
    if q.page.Some? { ParseIntNonNumeric(q.page.value); }
    if q.limit.Some? { ParseIntNonNumeric(q.limit.value); }
  }

  /** Parameters written as decimal numerals, as a client builds them, reach the slice unchanged. */
  lemma DecimalQueryIsExact(fullData: seq<Record>, page: nat, limit: nat)
    requires page >= 1 && limit >= 1
    ensures GetCsvData(fullData, Query(Some(DecimalString(page)), Some(DecimalString(limit)))) == Page(fullData, page, limit)
  {
    ParseIntDecimalString(page);
    ParseIntDecimalString(limit);
  }

  lemma ProductNonNegative(a: int, b: int)
    requires a >= 0 && b >= 0
    ensures a * b >= 0
  {
  }

  lemma ProductMonotone(a: int, b: int, c: int)
    requires a <= b && c >= 0
    ensures a * c <= b * c
  {
    ProductNonNegative(b - a, c);
    assert (b - a) * c == b * c - a * c;
  }

  /** A window of `limit` records from a non-negative start, cut at the end of the data. */
  lemma WindowFrom(fullData: seq<Record>, start: int, limit: int)
    requires start >= 0 && limit >= 1
    ensures var n := |fullData|;
      && Slice(fullData, start, start + limit) == fullData[Min(start, n)..Min(start + limit, n)]
      && |Slice(fullData, start, start + limit)| == Min(limit, Max(0, n - start))
  {
    SliceFromNonNegative(fullData, start, start + limit);
  }

  /** For a positive page and limit the answer is the window [start, end) cut at the end of the data. */
  lemma PageIsWindow(fullData: seq<Record>, page: int, limit: int)
    requires page >= 1 && limit >= 1
    ensures var n, start := |fullData|, StartIndex(page, limit);
      && Page(fullData, page, limit) == fullData[Min(start, n)..Min(start + limit, n)]
      && |Page(fullData, page, limit)| == Min(limit, Max(0, n - start))
  {
    var start := StartIndex(page, limit);
    ProductNonNegative(page - 1, limit);
    assert EndIndex(page, limit) == start + limit;
    WindowFrom(fullData, start, limit);
  }

  /** A window that starts at or past the end of the data yields an empty array, never an error. */
  lemma PageBeyondDataIsEmpty(fullData: seq<Record>, page: int, limit: int)
    requires StartIndex(page, limit) >= |fullData|
    ensures Page(fullData, page, limit) == []
  {
  }

  /** Relative-index clamping: page 1 with limit -k drops the last k records. */
  lemma NegativeLimitDropsTail(fullData: seq<Record>, k: int)
    requires k >= 1
    ensures Page(fullData, 1, -k) == fullData[..Max(|fullData| - k, 0)]
  {
    SliceFromNonNegative(fullData, 0, -k);
  }

  /** Before the dataset is populated every request is answered with []. */
  lemma EmptyDatasetServesEmpty(q: Query)
    ensures GetCsvData([], q) == []
  {
  }

  /** The number of pages of `limit` records that `n` records fill: ceil(n / limit). */
  function PageCount(n: nat, limit: int): (count: nat)
    requires limit >= 1
    ensures count * limit >= n
    ensures count == 0 || (count - 1) * limit < n
  {
    var q := (n + limit - 1) / limit;
    assert q * limit + (n + limit - 1) % limit == n + limit - 1;
    q
  }

  /** Pages 1 through `count` requested one after the other, their answers concatenated. */
  function PagesThrough(fullData: seq<Record>, limit: int, count: nat): seq<Record> {
    if count == 0 then [] else PagesThrough(fullData, limit, count - 1) + Page(fullData, count, limit)
  }

  lemma {:induction false} PagesThroughIsPrefix(fullData: seq<Record>, limit: int, count: nat)
    requires limit >= 1
    ensures PagesThrough(fullData, limit, count) == fullData[..Min(count * limit, |fullData|)]
  {
    if count > 0 {
      PagesThroughIsPrefix(fullData, limit, count - 1);
      PageExtendsPrefix(fullData, count, limit);
    }
  }

  /** The records before page p, followed by page p, are the records before page p + 1. */
  lemma PageExtendsPrefix(fullData: seq<Record>, page: int, limit: int)
    requires page >= 1 && limit >= 1
    ensures var n := |fullData|;
      fullData[..Min(StartIndex(page, limit), n)] + Page(fullData, page, limit)
      == fullData[..Min(EndIndex(page, limit), n)]
  {
    var n, start := |fullData|, StartIndex(page, limit);
    PageIsWindow(fullData, page, limit);
    PrefixThenWindow(fullData, Min(start, n), Min(start + limit, n));
  }

  /** A prefix followed by the window that starts where it ends is the longer prefix. */
  lemma PrefixThenWindow(s: seq<Record>, a: int, b: int)
    requires 0 <= a <= b <= |s|
    ensures s[..a] + s[a..b] == s[..b]
  {
  }

  /**
   * Partition and order: for any limit L >= 1, pages 1 .. ceil(N / L) together
   * give back the whole dataset, each record once and in source order.
   */
  lemma PagesPartitionDataset(fullData: seq<Record>, limit: int)
    requires limit >= 1
    ensures PagesThrough(fullData, limit, PageCount(|fullData|, limit)) == fullData
  {
    PagesThroughIsPrefix(fullData, limit, PageCount(|fullData|, limit));
  }

  /** Every page after the last one is empty; every page up to it holds at least one record. */
  lemma PageCountIsExact(fullData: seq<Record>, limit: int, page: int)
    requires limit >= 1 && page >= 1
    ensures page > PageCount(|fullData|, limit) ==> Page(fullData, page, limit) == []
    ensures page <= PageCount(|fullData|, limit) ==> Page(fullData, page, limit) != []
  {
    var count := PageCount(|fullData|, limit);
    if page > count {
      ProductMonotone(count, page - 1, limit);
      PageBeyondDataIsEmpty(fullData, page, limit);
    } else {
      ProductMonotone(page - 1, count - 1, limit);
      PageIsWindow(fullData, page, limit);
    }
  }

  /** With a limit of 1, page p holds exactly the p-th record, or nothing past the data. */
  lemma SingleRecordPage(fullData: seq<Record>, page: nat)
    requires page >= 1
    ensures Page(fullData, page, 1) == if page <= |fullData| then [fullData[page - 1]] else []
  {
    PageIsWindow(fullData, page, 1);
    if page <= |fullData| {
      assert fullData[page - 1..page] == [fullData[page - 1]];
    }
  }

  /** Two parsed rows, one record per page; page 3 lies past the data and is empty. */
  lemma TwoRowExample(nifty: Record, sensex: Record)
    ensures GetCsvData([nifty, sensex], Query(Some("1"), Some("1"))) == [nifty]
    ensures GetCsvData([nifty, sensex], Query(Some("2"), Some("1"))) == [sensex]
    ensures GetCsvData([nifty, sensex], Query(Some("3"), Some("1"))) == []
  {
    var data := [nifty, sensex];
    assert DecimalString(1) == "1" && DecimalString(2) == "2" && DecimalString(3) == "3";
    DecimalQueryIsExact(data, 1, 1);
    DecimalQueryIsExact(data, 2, 1);
    DecimalQueryIsExact(data, 3, 1);
    SingleRecordPage(data, 1);
    SingleRecordPage(data, 2);
    SingleRecordPage(data, 3);
  }
}
