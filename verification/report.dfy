/**
 * The three report exports: the request URL each one fetches, the query
 * string of the filtered export, the error thrown on a failed response, and
 * the name under which the downloaded file is saved.
 */
module Report {
  import opened Wrappers
  import FetchError
  import Truthiness
  import ContentDisposition

  /** The optional filters of the full export (`filters = {}` is all None). */
  datatype Filters = Filters(startDate: Option<string>, endDate: Option<string>, status: Option<string>)

  /** What the client reads of an export response. */
  datatype ExportResponse = ExportResponse(
    ok: bool,
    status: nat,
    message: Option<string>,             // `message` of the JSON error body
    contentDisposition: Option<string>)  // `headers.get('Content-Disposition')`

  /** One `name=value` entry of a `URLSearchParams`, in insertion order. */
  type Param = (string, string)

  const AllTransactionsFilename := "transactions_report.pdf"

  function PdfFilename(transactionId: string): string {
    "transaction_" + transactionId + ".pdf"
  }

  function ExcelFilename(transactionId: string): string {
    "transaction_" + transactionId + ".xlsx"
  }

  // ---------------------------------------------------------------------
  // Query string of the filtered export

  /** The k-th filter in the order the parameters are appended. */
  function Filter(filters: Filters, k: nat): Option<string>
    requires k < 3
  {
    if k == 0 then filters.startDate else if k == 1 then filters.endDate else filters.status
  }

  /** The order of a parameter name among `start_date`, `end_date`, `status`; 3 for any other name. */
  function Position(name: string): (k: nat)
    ensures k <= 3
  {
    if name == "start_date" then 0 else if name == "end_date" then 1 else if name == "status" then 2 else 3
  }

  predicate AnyFilter(filters: Filters) {
    Truthiness.Truthy(filters.startDate) || Truthiness.Truthy(filters.endDate) || Truthiness.Truthy(filters.status)
  }

  /**
   * The parameters carry exactly the truthy filters, each under its own name
   * with its own value, once, in the order `start_date`, `end_date`, `status`.
   */
  ghost predicate IsQueryFor(params: seq<Param>, filters: Filters) {
    && (forall i :: 0 <= i < |params| ==>
          Position(params[i].0) < 3 &&
          Truthiness.Truthy(Filter(filters, Position(params[i].0))) &&
          params[i].1 == Filter(filters, Position(params[i].0)).value)
    && (forall k :: 0 <= k < 3 && Truthiness.Truthy(Filter(filters, k)) ==>
          exists i :: 0 <= i < |params| && Position(params[i].0) == k)
    && (forall i, j :: 0 <= i < j < |params| ==> Position(params[i].0) < Position(params[j].0))
  }

  const ParamNames := ["start_date", "end_date", "status"]

  /** The entry for the k-th filter, when it is truthy. */
  function Entry(filters: Filters, k: nat): (entry: seq<Param>)
    requires k < 3
  {
    if Truthiness.Truthy(Filter(filters, k)) then [(ParamNames[k], Filter(filters, k).value)] else []
  }

  /** The reference list: the truthy filters' entries in order. */
  function Entries(filters: Filters): seq<Param> {
    Entry(filters, 0) + Entry(filters, 1) + Entry(filters, 2)
  }

  /** The appends of the filtered export, one per truthy filter. */
  method BuildQueryParams(filters: Filters) returns (params: seq<Param>)
    ensures IsQueryFor(params, filters)
  {
    params := [];
    if Truthiness.Truthy(filters.startDate) {
      params := params + [("start_date", filters.startDate.value)];
    }
    if Truthiness.Truthy(filters.endDate) {
      params := params + [("end_date", filters.endDate.value)];
    }
    if Truthiness.Truthy(filters.status) {
      params := params + [("status", filters.status.value)];
    }
    assert params == Entries(filters);
    EntriesFit(filters);
  }

  /**
   * `URLSearchParams.toString()`: `name=value` entries joined by `&`.
   * `encode` is the form-urlencoded serializer of a value; the three names
   * consist of letters and `_`, which it leaves as they are.
   */
  function QueryString(params: seq<Param>, encode: string -> string): (q: string)
    ensures q == "" <==> params == []
  {
    if params == [] then ""
    else
      var entry := params[0].0 + "=" + encode(params[0].1);
      assert entry[|params[0].0|] == '=';
      if |params| == 1 then entry else entry + "&" + QueryString(params[1..], encode)
  }

  /** No parameter is appended exactly when no filter is truthy. */
  lemma NoParamsIffNoFilter(params: seq<Param>, filters: Filters)
    requires IsQueryFor(params, filters)
    ensures params == [] <==> !AnyFilter(filters)
  {
    if Truthiness.Truthy(filters.startDate) { assert Truthiness.Truthy(Filter(filters, 0)); }
    if Truthiness.Truthy(filters.endDate) { assert Truthiness.Truthy(Filter(filters, 1)); }
    if Truthiness.Truthy(filters.status) { assert Truthiness.Truthy(Filter(filters, 2)); }
    if params != [] {
      var k := Position(params[0].0);
      assert Truthiness.Truthy(Filter(filters, k));
    }
  }

  /** The reference list meets the description. */
  lemma EntriesFit(filters: Filters)
    ensures IsQueryFor(Entries(filters), filters)
  {
    var e := Entries(filters);
    forall i | 0 <= i < |e|
      ensures var k := Position(e[i].0);
              k < 3 && Truthiness.Truthy(Filter(filters, k)) && e[i].1 == Filter(filters, k).value
    {
      EntryAt(filters, i);
    }
    forall i, j | 0 <= i < j < |e|
      ensures Position(e[i].0) < Position(e[j].0)
    {
      EntryAt(filters, i);
      EntryAt(filters, j);
    }
    forall k | 0 <= k < 3 && Truthiness.Truthy(Filter(filters, k))
      ensures exists i :: 0 <= i < |e| && Position(e[i].0) == k
    {
      var i := Rank(filters, k);
      EntryAt(filters, i);
    }
  }

  /** How many truthy filters come before the k-th. */
  function Rank(filters: Filters, k: nat): nat
    requires k < 3
  {
    if k == 0 then 0
    else if k == 1 then |Entry(filters, 0)|
    else |Entry(filters, 0)| + |Entry(filters, 1)|
  }

  /** The i-th reference entry is the entry of the truthy filter of rank i. */
  lemma EntryAt(filters: Filters, i: nat)
    requires i < |Entries(filters)|
    ensures var k := Position(Entries(filters)[i].0);
            k < 3 && Rank(filters, k) == i && Truthiness.Truthy(Filter(filters, k)) &&
            Entries(filters)[i] == (ParamNames[k], Filter(filters, k).value)
  {
    var e0, e1, e2 := Entry(filters, 0), Entry(filters, 1), Entry(filters, 2);
    var e := Entries(filters);
    if i < |e0| {
      assert e[i] == e0[i];
      PositionOfName(0);
    } else if i < |e0| + |e1| {
      assert e[i] == e1[i - |e0|];
      PositionOfName(1);
    } else {
      assert e[i] == e2[i - |e0| - |e1|];
      PositionOfName(2);
    }
  }

  /** Only one list meets the description: the reference list. */
  lemma QueryForUnique(params: seq<Param>, filters: Filters)
    requires IsQueryFor(params, filters)
    ensures params == Entries(filters)
  {
    var e := Entries(filters);
    EntriesFit(filters);
    SamePositionSet(params, filters);
    SamePositionSet(e, filters);
    var ps, es := Positions(params), Positions(e);
    assert forall x :: x in ps <==> x in es;
    IncreasingUnique(ps, es);
    forall i | 0 <= i < |params|
      ensures params[i] == e[i]
    {
      var k := Position(params[i].0);
      assert ps[i] == k && es[i] == k;
      NameAtPosition(params[i].0);
      NameAtPosition(e[i].0);
    }
  }

  /** The k-th listed name is at position k. */
  lemma PositionOfName(k: nat)
    requires k < 3
    ensures Position(ParamNames[k]) == k
  {
  }

  /** A name at one of the three positions is the name listed there. */
  lemma NameAtPosition(name: string)
    requires Position(name) < 3
    ensures name == ParamNames[Position(name)]
  {
  }

  /** The positions of the parameter names, in order. */
  function Positions(params: seq<Param>): seq<nat> {
    seq(|params|, i requires 0 <= i < |params| => Position(params[i].0))
  }

  predicate Increasing(ks: seq<nat>) {
    forall i, j :: 0 <= i < j < |ks| ==> ks[i] < ks[j]
  }

  /** A list meeting the description is at the positions of the truthy filters, in increasing order. */
  lemma SamePositionSet(params: seq<Param>, filters: Filters)
    requires IsQueryFor(params, filters)
    ensures Increasing(Positions(params))
    ensures forall x :: x in Positions(params) <==> x < 3 && Truthiness.Truthy(Filter(filters, x))
  {
    var ps := Positions(params);
    forall x | x < 3 && Truthiness.Truthy(Filter(filters, x))
      ensures x in ps
    {
      var i :| 0 <= i < |params| && Position(params[i].0) == x;
      assert ps[i] == x;
    }
  }

  /** Two increasing sequences with the same elements are equal. */
  lemma {:induction false} IncreasingUnique(a: seq<nat>, b: seq<nat>)
    requires Increasing(a) && Increasing(b)
    requires forall x :: x in a <==> x in b
    ensures a == b
    decreases |a|
  {
    if a != [] { assert a[0] in a; }
    if b != [] { assert b[0] in b; }
    if a != [] && b != [] {
      assert a[0] in b && b[0] in a;
      // each head is the least element of its sequence
      assert a[0] == b[0];
      var a', b' := a[1..], b[1..];
      forall x
        ensures x in a' <==> x in b'
      {
        assert x in a' <==> x in a && x != a[0];
        assert x in b' <==> x in b && x != b[0];
      }
      IncreasingUnique(a', b');
      assert a == [a[0]] + a' && b == [b[0]] + b';
    }
  }

  /** Strictly increasing positions below 3: the i-th lies between i and 3 - (|params| - i). */
  lemma PositionsBounded(params: seq<Param>, filters: Filters)
    requires IsQueryFor(params, filters)
    ensures |params| <= 3
    ensures forall i :: 0 <= i < |params| ==> i <= Position(params[i].0) <= 3 - (|params| - i)
  {
    forall i | 0 <= i < |params|
      ensures i <= Position(params[i].0) <= 3 - (|params| - i)
    {
      PositionAtLeast(params, filters, i);
      PositionAtMost(params, filters, i);
    }
    if params != [] {
      PositionAtLeast(params, filters, |params| - 1);
    }
  }

  lemma {:induction false} PositionAtLeast(params: seq<Param>, filters: Filters, i: nat)
    requires IsQueryFor(params, filters) && i < |params|
    ensures i <= Position(params[i].0)
  {
    if i > 0 {
      PositionAtLeast(params, filters, i - 1);
    }
  }

  lemma {:induction false} PositionAtMost(params: seq<Param>, filters: Filters, i: nat)
    requires IsQueryFor(params, filters) && i < |params|
    ensures Position(params[i].0) <= 3 - (|params| - i)
    decreases |params| - i
  {
    if i + 1 < |params| {
      PositionAtMost(params, filters, i + 1);
    }
  }

  // ---------------------------------------------------------------------
  // The exports

  /**
   * The common tail of the three exports: throw on a response that is not
   * ok, otherwise take the default name and replace it by the one the
   * `Content-Disposition` header gives, if any.
   */
  method Receive(response: ExportResponse, defaultName: string) returns (outcome: Result<string, string>)
    ensures !response.ok ==> outcome == Failure(FetchError.ErrorMessage(response.message, response.status))
    ensures response.ok ==> outcome.Success?
    ensures response.ok ==> outcome.value == ContentDisposition.SuggestedFilename(response.contentDisposition).GetOr(defaultName)
  {
    if !response.ok {
      return Failure(FetchError.ErrorMessage(response.message, response.status));
    }
    var filename := defaultName;
    var contentDisposition := response.contentDisposition;
    if contentDisposition.Some? && contentDisposition.value != "" {
      var filenameMatch := ContentDisposition.FilenameGroup(contentDisposition.value);
      if filenameMatch.Some? && filenameMatch.value != "" {
        filename := ContentDisposition.StripQuotes(filenameMatch.value);
      }
    }
    return Success(filename);
  }

  /** `exportTransactionToPDF(transactionId)` */
  method ExportTransactionToPdf(apiUrl: string, transactionId: string, response: ExportResponse)
    returns (url: string, outcome: Result<string, string>)
    ensures url == apiUrl + "/reports/transaction/" + transactionId + "/pdf"
    ensures !response.ok ==> outcome == Failure(FetchError.ErrorMessage(response.message, response.status))
    ensures response.ok && response.contentDisposition.None? ==> outcome == Success(PdfFilename(transactionId))
    ensures response.ok ==> outcome == Success(ContentDisposition.SuggestedFilename(response.contentDisposition).GetOr(PdfFilename(transactionId)))
  {
    url := apiUrl + "/reports/transaction/" + transactionId + "/pdf";
    outcome := Receive(response, PdfFilename(transactionId));
  }

  /** `exportTransactionToExcel(transactionId)` */
  method ExportTransactionToExcel(apiUrl: string, transactionId: string, response: ExportResponse)
    returns (url: string, outcome: Result<string, string>)
    ensures url == apiUrl + "/reports/transaction/" + transactionId + "/excel"
    ensures !response.ok ==> outcome == Failure(FetchError.ErrorMessage(response.message, response.status))
    ensures response.ok && response.contentDisposition.None? ==> outcome == Success(ExcelFilename(transactionId))
    ensures response.ok ==> outcome == Success(ContentDisposition.SuggestedFilename(response.contentDisposition).GetOr(ExcelFilename(transactionId)))
  {
    url := apiUrl + "/reports/transaction/" + transactionId + "/excel";
    outcome := Receive(response, ExcelFilename(transactionId));
  }

  /** `exportAllTransactionsToPDF(filters)`: the bare URL unless some filter is truthy. */
  method ExportAllTransactionsToPdf(apiUrl: string, filters: Filters, encode: string -> string, response: ExportResponse)
    returns (url: string, outcome: Result<string, string>)
    ensures !AnyFilter(filters) ==> url == apiUrl + "/reports/transactions/pdf"
    ensures AnyFilter(filters) ==>
              exists params :: IsQueryFor(params, filters) && params != [] &&
                               url == apiUrl + "/reports/transactions/pdf?" + QueryString(params, encode)
    ensures !response.ok ==> outcome == Failure(FetchError.ErrorMessage(response.message, response.status))
    ensures response.ok && response.contentDisposition.None? ==> outcome == Success(AllTransactionsFilename)
    ensures response.ok ==> outcome == Success(ContentDisposition.SuggestedFilename(response.contentDisposition).GetOr(AllTransactionsFilename))
  {
    var queryParams := BuildQueryParams(filters);
    var queryString := QueryString(queryParams, encode);
    NoParamsIffNoFilter(queryParams, filters);
    if queryString != "" {
      url := apiUrl + "/reports/transactions/pdf?" + queryString;
    } else {
      url := apiUrl + "/reports/transactions/pdf";
    }
    outcome := Receive(response, AllTransactionsFilename);
  }
}
