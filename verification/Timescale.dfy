/** Grouping and un-grouping of last-value requests, lib/timescale/timescale.go. */
module Timescale {
  import opened Values

  datatype Request = Request(device: string, service: string, column: string)

  datatype QueryElement = QueryElement(device: string, service: string, limit: nat, columns: seq<string>)

  type Query = seq<QueryElement>

  /** [query index][row][0 is the time, then one value per column] */
  type Response = seq<seq<seq<Json>>>

  /** Panic: a Go index out of range. */
  datatype Outcome<+T> = Ok(value: T) | Err | Panic

  /** The columns asked of one service of one device, in request order. */
  function ColumnsOf(request: seq<Request>, device: string, service: string): seq<string> {
    if |request| == 0 then []
    else
      var last := request[|request| - 1];
      ColumnsOf(request[..|request| - 1], device, service)
      + if last.device == device && last.service == service then [last.column] else []
  }

  /** What `CastRequest` promises, whatever order its maps are visited in: one element for every
      requested device and service, with that pair's columns in request order. */
  ghost predicate Groups(request: seq<Request>, query: Query) {
    && (forall i :: 0 <= i < |query| ==>
         && query[i].limit == 1 && query[i].columns != []
         && query[i].columns == ColumnsOf(request, query[i].device, query[i].service))
    && (forall i, j :: 0 <= i < j < |query| ==>
         query[i].device != query[j].device || query[i].service != query[j].service)
    && (forall r :: r in request ==>
         exists i :: 0 <= i < |query| && query[i].device == r.device && query[i].service == r.service)
  }

  type Grouped = map<string, map<string, seq<string>>>

  /** The columns a nested map holds for a pair; none and no entry are the same. */
  function Held(grouped: Grouped, device: string, service: string): seq<string> {
    if device in grouped && service in grouped[device] then grouped[device][service] else []
  }

  /** The nested map holds the columns of every requested pair and nothing else. */
  ghost predicate GroupedFrom(request: seq<Request>, grouped: Grouped) {
    && (forall d, s :: Held(grouped, d, s) == ColumnsOf(request, d, s))
    && (forall d, s :: d in grouped && s in grouped[d] ==> grouped[d][s] != [])
  }

  method CastRequest(request: seq<Request>) returns (query: Query)
    ensures Groups(request, query)
  {
    var grouped := GroupRequests(request);
    query := [];
    var devices := grouped.Keys;
    while devices != {}
      invariant devices <= grouped.Keys
      invariant Listed(grouped, query, devices)
    {
      var device :| device in devices;
      query := ListServices(grouped, device, query, devices);
      devices := devices - {device};
    }
    GroupsAll(request, grouped, query);
  }

  method GroupRequests(request: seq<Request>) returns (grouped: Grouped)
    ensures GroupedFrom(request, grouped)
  {
    grouped := map[];
    for k := 0 to |request|
      invariant GroupedFrom(request[..k], grouped)
    {
      var r := request[k];
      assert request[..k + 1][..k] == request[..k];
      ghost var before := grouped;
      if r.device !in grouped {
        grouped := grouped[r.device := map[]];
      }
      var columns := if r.service in grouped[r.device] then grouped[r.device][r.service] else [];
      grouped := grouped[r.device := grouped[r.device][r.service := columns + [r.column]]];
      forall d, s ensures Held(grouped, d, s) == ColumnsOf(request[..k + 1], d, s) {
        assert Held(before, d, s) == ColumnsOf(request[..k], d, s);
      }
    }
    assert request[..|request|] == request;
  }

  /** The inner loop: append an element for every service of the device. */
  method ListServices(grouped: Grouped, device: string, query: Query, ghost devices: set<string>)
    returns (result: Query)
    requires Listed(grouped, query, devices) && device in devices && device in grouped
    ensures Listed(grouped, result, devices - {device})
  {
    result := query;
    var services := grouped[device].Keys;
    while services != {}
      invariant services <= grouped[device].Keys
      invariant ListedPart(grouped, result, devices - {device}, device, services)
    {
      var service :| service in services;
      services := services - {service};
      ghost var before := result;
      result := result + [QueryElement(device, service, 1, grouped[device][service])];
      assert result[|before|].device == device && result[|before|].service == service;
      forall d, s | Has(before, d, s) ensures Has(result, d, s) {
        var i :| 0 <= i < |before| && before[i].device == d && before[i].service == s;
        assert result[i] == before[i];
      }
      assert Has(result, device, service);
    }
  }

  ghost predicate Has(query: Query, device: string, service: string) {
    exists i :: 0 <= i < |query| && query[i].device == device && query[i].service == service
  }

  /** The elements listed when `devices`, and `services` of one more device, are still to come. */
  ghost predicate ListedPart(grouped: Grouped, query: Query, devices: set<string>, device: string,
                             services: set<string>) {
    && (forall i :: 0 <= i < |query| ==>
         && query[i].device in grouped && query[i].service in grouped[query[i].device]
         && query[i].limit == 1 && query[i].columns == grouped[query[i].device][query[i].service]
         && query[i].device !in devices && (query[i].device == device ==> query[i].service !in services))
    && (forall i, j :: 0 <= i < j < |query| ==>
         query[i].device != query[j].device || query[i].service != query[j].service)
    && (forall d, s :: d in grouped && s in grouped[d] && d !in devices && (d == device ==> s !in services) ==>
         Has(query, d, s))
  }

  ghost predicate Listed(grouped: Grouped, query: Query, devices: set<string>) {
    ListedPart(grouped, query, devices, "", {})
  }

  lemma GroupsAll(request: seq<Request>, grouped: Grouped, query: Query)
    requires GroupedFrom(request, grouped) && Listed(grouped, query, {})
    ensures Groups(request, query)
  {
    forall i | 0 <= i < |query| ensures query[i].columns == ColumnsOf(request, query[i].device, query[i].service) {
      assert Held(grouped, query[i].device, query[i].service) == ColumnsOf(request, query[i].device, query[i].service);
    }
    forall r | r in request
      ensures exists i :: 0 <= i < |query| && query[i].device == r.device && query[i].service == r.service
    {
      RequestedHasColumns(request, r);
      assert Held(grouped, r.device, r.service) != [];
      assert Has(query, r.device, r.service);
    }
  }

  lemma {:induction false} RequestedHasColumns(request: seq<Request>, r: Request)
    requires r in request
    ensures r.column in ColumnsOf(request, r.device, r.service)
  {
    var n := |request| - 1;
    if request[n] == r {
    } else {
      assert r in request[..n];
      RequestedHasColumns(request[..n], r);
    }
  }

  lemma {:induction false} ColumnsAreRequested(request: seq<Request>, device: string, service: string, column: string)
    requires column in ColumnsOf(request, device, service)
    ensures Request(device, service, column) in request
  {
    var n := |request| - 1;
    if request[n] == Request(device, service, column) {
    } else {
      ColumnsAreRequested(request[..n], device, service, column);
      assert Request(device, service, column) in request[..n];
    }
  }

  /** Position of the last occurrence. */
  function LastIndex(columns: seq<string>, column: string): Option<nat> {
    if |columns| == 0 then None
    else if columns[|columns| - 1] == column then Some(|columns| - 1)
    else LastIndex(columns[..|columns| - 1], column)
  }

  /** The last query element of a device and service: later entries of the index map win. */
  function ElementIndex(query: Query, device: string, service: string): Option<nat> {
    if |query| == 0 then None
    else if query[|query| - 1].device == device && query[|query| - 1].service == service then Some(|query| - 1)
    else ElementIndex(query[..|query| - 1], device, service)
  }

  function ColumnIndex(query: Query, device: string, service: string, column: string): Option<nat> {
    if |query| == 0 then None
    else
      var last := query[|query| - 1];
      if last.device == device && last.service == service && column in last.columns then LastIndex(last.columns, column)
      else ColumnIndex(query[..|query| - 1], device, service, column)
  }

  /** The answer to one request: lines 145 to 166. */
  function Cell(query: Query, response: Response, r: Request): Outcome<Json> {
    var i := ElementIndex(query, r.device, r.service);
    var c := ColumnIndex(query, r.device, r.service, r.column);
    if i.None? || c.None? then Err
    else
      var j := c.value + 1;
      if |response| + 1 < i.value then Err
      else if |response| <= i.value then Panic
      else if |response[i.value]| != 1 then Ok(Null)
      else if |response[i.value][0]| + 1 < j then Err
      else if |response[i.value][0]| <= j then Panic
      else Ok(response[i.value][0][j])
  }

  type ElementMap = map<string, map<string, nat>>
  type ColumnMap = map<string, map<string, map<string, nat>>>

  function AsOption<K, V>(m: map<K, V>, k: K): Option<V> {
    if k in m then Some(m[k]) else None
  }

  function ElementAt(elements: ElementMap, d: string, s: string): Option<nat> {
    if d in elements then AsOption(elements[d], s) else None
  }

  function ColumnAt(columns: ColumnMap, d: string, s: string, c: string): Option<nat> {
    if d in columns && s in columns[d] then AsOption(columns[d][s], c) else None
  }

  /** The index maps of the first loop: both know the same devices and services. */
  ghost predicate Indexes(query: Query, elements: ElementMap, columns: ColumnMap) {
    && (forall d, s :: ElementAt(elements, d, s) == ElementIndex(query, d, s))
    && (forall d, s, c :: ColumnAt(columns, d, s, c) == ColumnIndex(query, d, s, c))
    && elements.Keys == columns.Keys
    && (forall d :: d in elements ==> elements[d].Keys == columns[d].Keys)
  }

  lemma {:induction false} LastIndexIsIn(columns: seq<string>, column: string)
    ensures LastIndex(columns, column).Some? <==> column in columns
    ensures LastIndex(columns, column).Some? ==>
      LastIndex(columns, column).value < |columns| && columns[LastIndex(columns, column).value] == column
  {
    if |columns| > 0 { LastIndexIsIn(columns[..|columns| - 1], column); }
  }

  /** The innermost loop: the positions of an element's columns over those already known. */
  method IndexColumns(known: map<string, nat>, names: seq<string>) returns (index: map<string, nat>)
    ensures forall c :: AsOption(index, c) == if c in names then LastIndex(names, c) else AsOption(known, c)
  {
    index := known;
    for j := 0 to |names|
      invariant forall c ::
        AsOption(index, c) == if c in names[..j] then LastIndex(names[..j], c) else AsOption(known, c)
    {
      assert names[..j + 1][..j] == names[..j];
      index := index[names[j] := j];
    }
    assert names[..|names|] == names;
  }

  /** One element of the query into both maps. */
  method IndexElement(elements: ElementMap, columns: ColumnMap, q: QueryElement, i: nat)
    returns (elements': ElementMap, columns': ColumnMap)
    requires elements.Keys == columns.Keys && forall d :: d in elements ==> elements[d].Keys == columns[d].Keys
    ensures forall d, s ::
      ElementAt(elements', d, s) == if d == q.device && s == q.service then Some(i) else ElementAt(elements, d, s)
    ensures forall d, s, c :: d == q.device && s == q.service && c in q.columns ==>
      ColumnAt(columns', d, s, c) == LastIndex(q.columns, c)
    ensures forall d, s, c :: !(d == q.device && s == q.service && c in q.columns) ==>
      ColumnAt(columns', d, s, c) == ColumnAt(columns, d, s, c)
    ensures elements'.Keys == columns'.Keys && forall d :: d in elements' ==> elements'[d].Keys == columns'[d].Keys
  {
    var atElement: map<string, nat>;
    elements', columns' := elements, columns;
    if q.device !in elements' { elements' := elements'[q.device := map[]]; }
    if q.device !in columns' { columns' := columns'[q.device := map[]]; }
    atElement := elements'[q.device][q.service := i];
    elements' := elements'[q.device := atElement];
    if q.service !in columns'[q.device] {
      columns' := columns'[q.device := columns'[q.device][q.service := map[]]];
    }
    var index := IndexColumns(columns'[q.device][q.service], q.columns);
    columns' := columns'[q.device := columns'[q.device][q.service := index]];
  }

  method IndexQuery(query: Query) returns (elements: ElementMap, columns: ColumnMap)
    ensures Indexes(query, elements, columns)
  {
    elements, columns := map[], map[];
    for i := 0 to |query|
      invariant Indexes(query[..i], elements, columns)
    {
      assert query[..i + 1][..i] == query[..i];
      ghost var elements0, columns0 := elements, columns;
      elements, columns := IndexElement(elements, columns, query[i], i);
      forall d, s, c ensures ColumnAt(columns, d, s, c) == ColumnIndex(query[..i + 1], d, s, c) {
        assert ColumnAt(columns0, d, s, c) == ColumnIndex(query[..i], d, s, c);
      }
      forall d, s ensures ElementAt(elements, d, s) == ElementIndex(query[..i + 1], d, s) {
        assert ElementAt(elements0, d, s) == ElementIndex(query[..i], d, s);
      }
    }
    assert query[..|query|] == query;
  }

  /** The answers of all requests, or the first failure. */
  ghost predicate Answers(request: seq<Request>, query: Query, response: Response, result: Outcome<seq<Json>>) {
    if result.Ok? then
      && |result.value| == |request|
      && forall k :: 0 <= k < |request| ==> Cell(query, response, request[k]) == Ok(result.value[k])
    else
      exists k :: 0 <= k < |request| && FirstFailure(request, query, response, k, result.Panic?)
  }

  ghost predicate FirstFailure(request: seq<Request>, query: Query, response: Response, k: nat, panic: bool)
    requires k < |request|
  {
    && (forall l :: 0 <= l < k ==> Cell(query, response, request[l]).Ok?)
    && var cell := Cell(query, response, request[k]);
       !cell.Ok? && cell.Panic? == panic
  }

  method CastQueryResponse(request: seq<Request>, query: Query, response: Response) returns (result: Outcome<seq<Json>>)
    ensures Answers(request, query, response, result)
  {
    var elements, columns := IndexQuery(query);
    var values := [];
    for k := 0 to |request|
      invariant |values| == k
      invariant forall l :: 0 <= l < k ==> Cell(query, response, request[l]) == Ok(values[l])
    {
      var r := request[k];
      assert ElementAt(elements, r.device, r.service) == ElementIndex(query, r.device, r.service);
      assert ColumnAt(columns, r.device, r.service, r.column) == ColumnIndex(query, r.device, r.service, r.column);
      ghost var cell := Cell(query, response, r);
      if r.device !in elements || r.service !in elements[r.device] || r.column !in columns[r.device][r.service] {
        assert FirstFailure(request, query, response, k, false);
        return Err;
      }
      var i := elements[r.device][r.service];
      var j := columns[r.device][r.service][r.column] + 1;
      if |response| + 1 < i {
        assert FirstFailure(request, query, response, k, false);
        return Err;
      }
      if |response| <= i {
        assert FirstFailure(request, query, response, k, true);
        return Panic;
      }
      if |response[i]| != 1 {
        values := values + [Null];
        continue;
      }
      if |response[i][0]| + 1 < j {
        assert FirstFailure(request, query, response, k, false);
        return Err;
      }
      if |response[i][0]| <= j {
        assert FirstFailure(request, query, response, k, true);
        return Panic;
      }
      values := values + [response[i][0][j]];
    }
    return Ok(values);
  }

  lemma {:induction false} ElementIndexOf(query: Query, device: string, service: string, i: nat)
    requires i < |query| && query[i].device == device && query[i].service == service
    requires forall j :: i < j < |query| ==> query[j].device != device || query[j].service != service
    ensures ElementIndex(query, device, service) == Some(i)
    ensures forall c :: c in query[i].columns ==>
      ColumnIndex(query, device, service, c) == LastIndex(query[i].columns, c)
  {
    if i < |query| - 1 { ElementIndexOf(query[..|query| - 1], device, service, i); }
  }

  /** Where the answer to a request stands in the response to its grouped query. */
  lemma Located(request: seq<Request>, query: Query, r: Request) returns (i: nat, j: nat)
    requires Groups(request, query) && r in request
    ensures i < |query| && query[i].device == r.device && query[i].service == r.service
    ensures j < |query[i].columns| && query[i].columns[j] == r.column
    ensures ElementIndex(query, r.device, r.service) == Some(i)
    ensures ColumnIndex(query, r.device, r.service, r.column) == Some(j)
    ensures LastIndex(query[i].columns, r.column) == Some(j)
  {
    i :| 0 <= i < |query| && query[i].device == r.device && query[i].service == r.service;
    RequestedHasColumns(request, r);
    ElementIndexOf(query, r.device, r.service, i);
    LastIndexIsIn(query[i].columns, r.column);
    j := LastIndex(query[i].columns, r.column).value;
  }

  /** The wrapper answers every element with one row - a time, then the value of each column in
      order - or with no row. `row` and `cell` say what it knows. */
  ghost predicate Replies(query: Query, response: Response, row: (string, string) -> bool,
                          cell: (string, string, string) -> Json) {
    && |response| == |query|
    && forall i :: 0 <= i < |query| ==>
         if row(query[i].device, query[i].service) then
           && |response[i]| == 1 && |response[i][0]| == |query[i].columns| + 1
           && forall j :: 0 <= j < |query[i].columns| ==>
                response[i][0][j + 1] == cell(query[i].device, query[i].service, query[i].columns[j])
         else response[i] == []
  }

  lemma RepliedCell(request: seq<Request>, query: Query, response: Response, r: Request,
                    row: (string, string) -> bool, cell: (string, string, string) -> Json)
    requires Groups(request, query) && Replies(query, response, row, cell) && r in request
    ensures Cell(query, response, r)
         == Ok(if row(r.device, r.service) then cell(r.device, r.service, r.column) else Null)
  {
    var i, j := Located(request, query, r);
    if row(query[i].device, query[i].service) {
      assert response[i][0][j + 1] == cell(query[i].device, query[i].service, query[i].columns[j]);
    }
  }

  /** Query round trip: whatever order the grouped query has, the answers come back in the order of
      the requests, each the value of its own device, service and column, or nil without a row. */
  lemma QueryRoundTrip(request: seq<Request>, query: Query, response: Response, result: Outcome<seq<Json>>,
                       row: (string, string) -> bool, cell: (string, string, string) -> Json)
    requires Groups(request, query) && Replies(query, response, row, cell)
    requires Answers(request, query, response, result)
    ensures result.Ok? && |result.value| == |request|
    ensures forall k :: 0 <= k < |request| ==>
      result.value[k] == if row(request[k].device, request[k].service)
                         then cell(request[k].device, request[k].service, request[k].column) else Null
  {
    forall k: nat | k < |request|
      ensures Cell(query, response, request[k]) ==
        Ok(if row(request[k].device, request[k].service)
           then cell(request[k].device, request[k].service, request[k].column) else Null)
    {
      RepliedCell(request, query, response, request[k], row, cell);
    }
  }

  /** The response has an entry for every element, and every single row a value for every column. */
  predicate Fits(query: Query, response: Response) {
    && |query| <= |response|
    && forall i :: 0 <= i < |query| && |response[i]| == 1 ==> |query[i].columns| < |response[i][0]|
  }

  /** The guards at lines 152 and 161 do not bound the indexes. Un-grouping succeeds exactly when the
      response fits the query; a response that does not may fail with an error or with a panic. */
  lemma SucceedsIffFits(request: seq<Request>, query: Query, response: Response, result: Outcome<seq<Json>>)
    requires Groups(request, query) && Answers(request, query, response, result)
    ensures result.Ok? <==> Fits(query, response)
  {
    if Fits(query, response) {
      forall r | r in request ensures Cell(query, response, r).Ok? {
        var i, j := Located(request, query, r);
      }
    }
    if result.Ok? {
      forall i: nat | i < |query|
        ensures i < |response| && (|response[i]| == 1 ==> |query[i].columns| < |response[i][0]|)
      {
        AnsweredElementFits(request, query, response, i);
      }
      if |query| > 0 { AnsweredElementFits(request, query, response, |query| - 1); }
    }
  }

  /** The last column of an element was requested; answering it takes the element's whole row. */
  lemma AnsweredElementFits(request: seq<Request>, query: Query, response: Response, i: nat)
    requires Groups(request, query) && i < |query|
    requires forall k :: 0 <= k < |request| ==> Cell(query, response, request[k]).Ok?
    ensures i < |response| && (|response[i]| == 1 ==> |query[i].columns| < |response[i][0]|)
  {
    var n := |query[i].columns| - 1;
    var r := Request(query[i].device, query[i].service, query[i].columns[n]);
    ColumnsAreRequested(request, r.device, r.service, r.column);
    assert Cell(query, response, r).Ok?;
    forall j | i < j < |query| ensures query[j].device != r.device || query[j].service != r.service {}
    ElementIndexOf(query, r.device, r.service, i);
  }

  /** One request, an empty response: the guard lets index 0 through. */
  lemma ShortResponsePanics(r: Request)
    ensures Cell([QueryElement(r.device, r.service, 1, [r.column])], [], r) == Panic
  {
    ElementIndexOf([QueryElement(r.device, r.service, 1, [r.column])], r.device, r.service, 0);
  }

  /** What un-grouping makes of a request whose answer stands at column j of element i: the guards of the source,
      the value, or nil unless there is exactly one row. */
  lemma CellAt(request: seq<Request>, query: Query, response: Response, r: Request, i: nat, j: nat)
    requires Groups(request, query) && r in request && i < |query|
    requires query[i].device == r.device && query[i].service == r.service
    requires j < |query[i].columns| && query[i].columns[j] == r.column
    requires forall l :: j < l < |query[i].columns| ==> query[i].columns[l] != r.column
    ensures Cell(query, response, r)
         == if |response| + 1 < i then Err
            else if |response| <= i then Panic
            else if |response[i]| != 1 then Ok(Null)
            else if |response[i][0]| < j then Err
            else if |response[i][0]| <= j + 1 then Panic
            else Ok(response[i][0][j + 1])
  {
    var i', j' := Located(request, query, r);
    assert i' == i;
    LastIndexIs(query[i].columns, r.column, j);
  }

  lemma {:induction false} LastIndexIs(columns: seq<string>, column: string, j: nat)
    requires j < |columns| && columns[j] == column && forall l :: j < l < |columns| ==> columns[l] != column
    ensures LastIndex(columns, column) == Some(j)
  {
    if j < |columns| - 1 { LastIndexIs(columns[..|columns| - 1], column, j); }
  }
}
