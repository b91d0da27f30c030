/** The listing endpoint and the single-record creation endpoint (`app/api/certificates/route.ts`).
    `GET` reads `page`, `limit`, `q`, `hospital` and `all` from the query, selects the matching
    certificates in the collection's natural order, cuts out one page (or everything, for an
    export), attaches each certificate's approval flag and reports the counts and the hospital
    list. `POST` validates a new record and creates it. The collection is the sequence of stored
    certificates; the approval table is the one the approval routes maintain. */
module CertificatesRoute {
  import opened Maybe
  import opened JsString
  import opened QueryString
  import opened Records
  import opened CertificateRequestModel

  // ---------------------------------------------------------------------
  // Query parameters and the pagination arithmetic.
  // ---------------------------------------------------------------------

  /** `searchParams.get(name) || fallback`. */
  function ParamOr(query: Params, name: string, fallback: string): string {
    if Truthy(Lookup(query, name)) then Lookup(query, name).value else fallback
  }

  /** The request's parameters after parsing. `page` and `limit` are `None` where `parseInt`
      gives `NaN`. */
  datatype ListingParams = ListingParams(isExport: bool, page: Option<int>, limit: Option<int>, q: string, hospital: string)

  /** Reading the parameters: `page` defaults to 1 and `limit` to 10 when absent or empty, `q`
      and `hospital` to no constraint; export mode is `all=true` exactly. */
  function ReadParams(query: Params): (p: ListingParams)
    ensures p.isExport <==> Lookup(query, "all") == Some("true")
    ensures !Truthy(Lookup(query, "page")) ==> p.page == Some(1)
    ensures Truthy(Lookup(query, "page")) ==> p.page == ParseInt(Lookup(query, "page").value)
    ensures !Truthy(Lookup(query, "limit")) ==> p.limit == Some(10)
    ensures Truthy(Lookup(query, "limit")) ==> p.limit == ParseInt(Lookup(query, "limit").value)
    ensures p.q == Lookup(query, "q").GetOr("") && p.hospital == Lookup(query, "hospital").GetOr("")
  {
    ListingParams(
      Lookup(query, "all") == Some("true"),
      NumberParam(query, "page", 1),
      NumberParam(query, "limit", 10),
      ParamOr(query, "q", ""),
      ParamOr(query, "hospital", ""))
  }

  /** `parseInt(searchParams.get(name) || String(fallback), 10)`. */
  function NumberParam(query: Params, name: string, fallback: nat): (n: Option<int>)
    ensures !Truthy(Lookup(query, name)) ==> n == Some(fallback)
    ensures Truthy(Lookup(query, name)) ==> n == ParseInt(Lookup(query, name).value)
  {
    ParseIntOfIntToString(fallback);
    ParseInt(ParamOr(query, name, IntToString(fallback)))
  }

  /** `isExport ? 0 : (page - 1) * limit`, with `NaN` propagating. */
  function Skip(p: ListingParams): (skip: Option<int>)
    ensures p.isExport ==> skip == Some(0)
    ensures !p.isExport && p.page.Some? && p.limit.Some? ==> skip == Some((p.page.value - 1) * p.limit.value)
    ensures !p.isExport && (p.page.None? || p.limit.None?) ==> skip.None?
  {
    if p.isExport then Some(0)
    else if p.page.Some? && p.limit.Some? then Some((p.page.value - 1) * p.limit.value)
    else None
  }

  /** `isExport ? 0 : limit`. */
  function QueryLimit(p: ListingParams): Option<int> {
    if p.isExport then Some(0) else p.limit
  }

  /** `queryLimit > 0`: only then is a page cut out (`NaN > 0` is false). */
  predicate Paged(queryLimit: Option<int>) {
    queryLimit.Some? && queryLimit.value > 0
  }

  /** `Math.ceil(total / limit)`; `None` when it is not a finite number (a zero limit). */
  function CeilDiv(total: nat, limit: int): (r: Option<int>)
    ensures r.None? <==> limit == 0
    ensures limit > 0 ==> r.value >= 0 && (r.value - 1) * limit < total <= r.value * limit
    ensures limit < 0 ==> r.value * limit <= total < (r.value - 1) * limit
  {
    if limit == 0 then None
    else if limit > 0 then
      CeilOfPositive(total, limit);
      Some((total + limit - 1) / limit)
    else
      CeilOfNegative(total, -limit);
      Some(-(total / -limit))
  }

  lemma CeilOfPositive(total: nat, limit: int)
    requires limit > 0
    ensures var r := (total + limit - 1) / limit;
      r >= 0 && (r - 1) * limit < total <= r * limit
  {
    var a := total + limit - 1;
    var r, m := a / limit, a % limit;
    assert a == r * limit + m && 0 <= m < limit;
    assert (r - 1) * limit == r * limit - limit;
  }

  lemma CeilOfNegative(total: nat, b: int)
    requires b > 0
    ensures var r := -(total / b);
      r * -b <= total < (r - 1) * -b
  {
    var t, m := total / b, total % b;
    assert total == t * b + m && 0 <= m < b;
    assert -t * -b == t * b;
    assert (-t - 1) * -b == t * b + b;
  }

  /** `totalPages`: computed from the parsed `limit`, also in export mode. */
  function TotalPages(total: nat, limit: Option<int>): Option<int> {
    if limit.None? then None else CeilDiv(total, limit.value)
  }

  /** `queryLimit || totalCount`. */
  function ReportedLimit(queryLimit: Option<int>, total: nat): (r: Option<int>)
    ensures Paged(queryLimit) ==> r == queryLimit
    ensures queryLimit.Some? && queryLimit.value < 0 ==> r == queryLimit
    ensures queryLimit.None? || queryLimit == Some(0) ==> r == Some(total)
  {
    if queryLimit.None? || queryLimit.value == 0 then Some(total) else queryLimit
  }

  function Min(a: int, b: int): int {
    if a <= b then a else b
  }

  /** `.limit(limit).skip(skip)`: at most `limit` records, starting at index `skip`. */
  function PageOf<T>(records: seq<T>, skip: nat, limit: nat): (r: seq<T>)
    ensures |r| == if skip >= |records| then 0 else Min(limit, |records| - skip)
    ensures forall k :: 0 <= k < |r| ==> r[k] == records[skip + k]
  {
    if skip >= |records| then [] else records[skip..Min(skip + limit, |records|)]
  }

  /** The first `n` pages one after the other. */
  function Pages<T>(records: seq<T>, limit: nat, n: nat): seq<T> {
    if n == 0 then [] else Pages(records, limit, n - 1) + PageOf(records, (n - 1) * limit, limit)
  }

  lemma {:induction false} PagesArePrefix<T>(records: seq<T>, limit: nat, n: nat)
    requires limit > 0
    ensures Pages(records, limit, n) == records[..Min(n * limit, |records|)]
  {
    if n > 0 {
      var prev := (n - 1) * limit;
      assert n * limit == prev + limit;
      PagesArePrefix(records, limit, n - 1);
      PrefixThenPage(records, prev, limit);
    }
  }

  /** The records before `skip` followed by the page at `skip` are the records before `skip + limit`. */
  lemma PrefixThenPage<T>(records: seq<T>, skip: nat, limit: nat)
    ensures records[..Min(skip, |records|)] + PageOf(records, skip, limit) == records[..Min(skip + limit, |records|)]
  {
    if skip < |records| {
      var hi := Min(skip + limit, |records|);
      assert records[..skip] + records[skip..hi] == records[..hi];
    }
  }

  /** Paging through the result with a positive limit: pages 1 to `totalPages` together are the
      whole filtered result, in order, each record exactly once. */
  lemma PagesCoverResult<T>(records: seq<T>, limit: int)
    requires limit > 0
    ensures CeilDiv(|records|, limit).value >= 0
    ensures Pages(records, limit, CeilDiv(|records|, limit).value) == records
  {
    var n := CeilDiv(|records|, limit).value;
    PagesArePrefix(records, limit, n);
    assert records[..|records|] == records;
  }

  /** Page `p` (counting from 1) starts at `(p - 1) * limit`; a page after the last is empty. */
  lemma PagesAfterLastAreEmpty<T>(records: seq<T>, limit: int, page: int)
    requires limit > 0 && page > CeilDiv(|records|, limit).value
    ensures (page - 1) * limit >= |records|
    ensures PageOf(records, (page - 1) * limit, limit) == []
  {
    var n := CeilDiv(|records|, limit).value;
    assert (page - 1) * limit >= n * limit by {
      assert page - 1 >= n;
    }
  }

  // ---------------------------------------------------------------------
  // Search and filter.
  // ---------------------------------------------------------------------

  /** A case-insensitive match of a literal query inside a field. */
  predicate ContainsIgnoringCase(field: string, q: string) {
    Includes(ToLower(field), ToLower(q))
  }

  /** The `$or` over the four searchable fields. An empty query would match every record,
      which is why the handler adds the condition only for a non-empty `q`. */
  predicate MatchesSearch(c: Certificate, q: string)
    ensures q == "" ==> MatchesSearch(c, q)
  {
    assert q == "" ==> OccursAt(ToLower(c.certificateNo), ToLower(q), 0);
    || ContainsIgnoringCase(c.certificateNo, q) || ContainsIgnoringCase(c.name, q)
    || ContainsIgnoringCase(c.hospital, q) || ContainsIgnoringCase(c.doi, q)
  }

  /** `dbQuery`: an optional search term and an optional exact hospital. */
  datatype DbQuery = DbQuery(search: Option<string>, hospital: Option<string>)

  predicate Selects(dbQuery: DbQuery, c: Certificate) {
    && (dbQuery.search.Some? ==> MatchesSearch(c, dbQuery.search.value))
    && (dbQuery.hospital.Some? ==> c.hospital == dbQuery.hospital.value)
  }

  /** The query a request builds: a search only for a non-empty `q`, a hospital constraint only
      for a non-empty `hospital`. */
  function SearchQuery(q: string, hospital: string): DbQuery {
    DbQuery(if q != "" then Some(q) else None, if hospital != "" then Some(hospital) else None)
  }

  /** `find(dbQuery)`: the selected records in the collection's order. */
  function Find(docs: seq<Certificate>, dbQuery: DbQuery): (r: seq<Certificate>)
    ensures |r| <= |docs|
    ensures forall c :: c in r <==> c in docs && Selects(dbQuery, c)
  {
    if docs == [] then []
    else (if Selects(dbQuery, docs[0]) then [docs[0]] else []) + Find(docs[1..], dbQuery)
  }

  /** The records a listing request selects: with a non-empty `q` one of the four fields
      contains it, ignoring case; with a non-empty `hospital` the hospital is exactly that. */
  function Filtered(docs: seq<Certificate>, q: string, hospital: string): (r: seq<Certificate>)
    ensures forall c :: c in r <==>
      && c in docs
      && (q == "" || MatchesSearch(c, q))
      && (hospital == "" || c.hospital == hospital)
  {
    Find(docs, SearchQuery(q, hospital))
  }

  /** `distinct('hospital')` with empty values dropped: over the whole collection, whatever the
      search and filter. The order of the list is not modelled. */
  function Hospitals(docs: seq<Certificate>): (hs: set<string>)
    ensures forall h :: h in hs ==> h != "" && exists c :: c in docs && c.hospital == h
    ensures forall c :: c in docs && c.hospital != "" ==> c.hospital in hs
  {
    set c | c in docs && c.hospital != "" :: c.hospital
  }

  /** Every hospital offered as a filter value selects at least one record. */
  lemma HospitalFilterSelectsSomething(docs: seq<Certificate>, h: string)
    requires h in Hospitals(docs)
    ensures Filtered(docs, "", h) != []
  {
    var c :| c in docs && c.hospital != "" && c.hospital == h;
    assert c in Filtered(docs, "", h);
  }

  // ---------------------------------------------------------------------
  // The merge with the approval table.
  // ---------------------------------------------------------------------

  /** A row of `CertificateRequest.find({ certificateId: { $in: ids } })`. */
  datatype RequestRow = RequestRow(certificateId: Id, status: bool)

  /** `requests.find(r => r.certificateId === id)`. */
  function FindRequest(requests: seq<RequestRow>, id: Id): (r: Option<RequestRow>)
    ensures r.Some? ==> r.value in requests && r.value.certificateId == id
    ensures r.None? ==> forall j :: 0 <= j < |requests| ==> requests[j].certificateId != id
  {
    if requests == [] then None
    else if requests[0].certificateId == id then Some(requests[0])
    else FindRequest(requests[1..], id)
  }

  /** Each record with `isApproved` = its request's status, or false when it has none. */
  function Merge(page: seq<Certificate>, requests: seq<RequestRow>): (r: seq<CertificateView>)
    ensures |r| == |page|
    ensures forall k :: 0 <= k < |r| ==> r[k].cert == page[k]
    ensures forall k :: 0 <= k < |r| && FindRequest(requests, page[k].id).None? ==> !r[k].isApproved
  {
    seq(|page|, k requires 0 <= k < |page| =>
      var req := FindRequest(requests, page[k].id);
      CertificateView(page[k], if req.Some? then req.value.status else false))
  }

  /** The requests list is a faithful answer to the `$in` query over `ids`: each row is the table's
      row for one of the ids, and each id with a table row has one. */
  predicate AnswersInQuery(requests: seq<RequestRow>, t: RequestTable, ids: set<Id>) {
    && (forall j :: 0 <= j < |requests| ==>
          requests[j].certificateId in ids && requests[j].certificateId in t
          && requests[j].status == t[requests[j].certificateId].status)
    && (forall id :: id in ids && id in t ==> exists j :: 0 <= j < |requests| && requests[j].certificateId == id)
  }

  /** The merged flag agrees with the approval gate: a listed certificate reads as approved
      exactly when its row exists and is unlocked. */
  lemma MergeAgreesWithTable(page: seq<Certificate>, requests: seq<RequestRow>, t: RequestTable)
    requires AnswersInQuery(requests, t, set c | c in page :: c.id)
    ensures forall k :: 0 <= k < |page| ==> Merge(page, requests)[k].isApproved == IsUnlocked(t, page[k].id)
  {
    forall k | 0 <= k < |page|
      ensures Merge(page, requests)[k].isApproved == IsUnlocked(t, page[k].id)
    {
      var id := page[k].id;
      assert id in set c | c in page :: c.id;
      if id in t {
        var j :| 0 <= j < |requests| && requests[j].certificateId == id;
        assert FindRequest(requests, id).Some?;
      }
    }
  }

  /** The store's answer to the `$in` query: the table row of each listed id, in list order. */
  function RequestsFor(t: RequestTable, ids: seq<Id>): (r: seq<RequestRow>)
    ensures |r| <= |ids|
  {
    if ids == [] then []
    else (if ids[0] in t then [RequestRow(ids[0], t[ids[0]].status)] else []) + RequestsFor(t, ids[1..])
  }

  lemma {:induction false} RequestsForRows(t: RequestTable, ids: seq<Id>)
    ensures forall r :: r in RequestsFor(t, ids) ==>
      r.certificateId in ids && r.certificateId in t && r.status == t[r.certificateId].status
    ensures forall id :: id in ids && id in t ==> RequestRow(id, t[id].status) in RequestsFor(t, ids)
  {
    if ids != [] {
      RequestsForRows(t, ids[1..]);
      forall id | id in ids && id in t ensures RequestRow(id, t[id].status) in RequestsFor(t, ids) {
        if id != ids[0] {
          assert id in ids[1..];
        }
      }
    }
  }

  function IdsOf(page: seq<Certificate>): (ids: seq<Id>)
    ensures |ids| == |page| && forall k :: 0 <= k < |page| ==> ids[k] == page[k].id
  {
    seq(|page|, k requires 0 <= k < |page| => page[k].id)
  }

  lemma RequestsForAnswers(page: seq<Certificate>, t: RequestTable)
    ensures AnswersInQuery(RequestsFor(t, IdsOf(page)), t, set c | c in page :: c.id)
  {
    var ids := IdsOf(page);
    var r := RequestsFor(t, ids);
    RequestsForRows(t, ids);
    forall j | 0 <= j < |r| ensures r[j].certificateId in set c | c in page :: c.id {
      assert r[j] in r;
      var k :| 0 <= k < |ids| && ids[k] == r[j].certificateId;
      assert page[k] in page;
    }
    forall id | id in (set c | c in page :: c.id) && id in t
      ensures exists j :: 0 <= j < |r| && r[j].certificateId == id
    {
      var c :| c in page && c.id == id;
      var k :| 0 <= k < |page| && page[k] == c;
      assert ids[k] == id;
      assert RequestRow(id, t[id].status) in r;
    }
  }

  // ---------------------------------------------------------------------
  // The GET handler.
  // ---------------------------------------------------------------------

  datatype ListingResponse =
    | ListingUnavailable   // 500 "Database connection failed."
    | Listing(data: seq<CertificateView>, total: nat, page: Option<int>, limit: Option<int>,
              totalPages: Option<int>, hospitals: set<string>)
    | ListingError         // 500 "Error fetching certificates."

  /** The records a request returns before the merge: everything selected when no positive
      limit applies, otherwise one page; `None` when the store refuses the window (a negative or
      `NaN` skip). */
  function Window(selected: seq<Certificate>, queryLimit: Option<int>, skip: Option<int>): (r: Option<seq<Certificate>>)
    ensures r.None? <==> Paged(queryLimit) && (skip.None? || skip.value < 0)
    ensures !Paged(queryLimit) ==> r == Some(selected)
    ensures r.Some? && Paged(queryLimit) ==>
      && |r.value| <= queryLimit.value
      && forall k :: 0 <= k < |r.value| ==> 0 <= skip.value + k < |selected| && r.value[k] == selected[skip.value + k]
  {
    if !Paged(queryLimit) then Some(selected)
    else if skip.None? || skip.value < 0 then None
    else Some(PageOf(selected, skip.value, queryLimit.value))
  }

  /** Export mode applies no window: every selected record is returned, and the reported limit
      is the total. Otherwise a positive limit cuts out the page starting at `(page - 1) * limit`. */
  lemma ExportReturnsAllSelected(p: ListingParams, selected: seq<Certificate>)
    ensures p.isExport ==>
      Window(selected, QueryLimit(p), Skip(p)) == Some(selected)
      && ReportedLimit(QueryLimit(p), |selected|) == Some(|selected|)
    ensures !p.isExport && p.page.Some? && p.page.value >= 1 && p.limit.Some? && p.limit.value > 0 ==>
      Window(selected, QueryLimit(p), Skip(p)) == Some(PageOf(selected, (p.page.value - 1) * p.limit.value, p.limit.value))
  {
    if !p.isExport && p.page.Some? && p.page.value >= 1 && p.limit.Some? && p.limit.value > 0 {
      assert (p.page.value - 1) * p.limit.value >= 0;
    }
  }

  /** The listing a connected request receives: the window of the selected records, each with
      its approval flag, or the 500 error when the store refuses the window. */
  function Listed(docs: seq<Certificate>, t: RequestTable, query: Params): (r: ListingResponse)
    ensures r.Listing? || r == ListingError
    ensures var p := ReadParams(query);
      r == ListingError <==> Window(Filtered(docs, p.q, p.hospital), QueryLimit(p), Skip(p)).None?
    ensures r.Listing? ==>
      var p := ReadParams(query);
      var w := Window(Filtered(docs, p.q, p.hospital), QueryLimit(p), Skip(p)).value;
      && |r.data| == |w|
      && (forall k :: 0 <= k < |r.data| ==> r.data[k].cert == w[k])
      && r.total == |Filtered(docs, p.q, p.hospital)|
      && |r.data| <= r.total
      && r.page == p.page
      && r.limit == ReportedLimit(QueryLimit(p), r.total)
      && r.totalPages == TotalPages(r.total, p.limit)
      && r.hospitals == Hospitals(docs)
  {
    var p := ReadParams(query);
    var selected := Filtered(docs, p.q, p.hospital);
    var w := Window(selected, QueryLimit(p), Skip(p));
    if w.None? then ListingError
    else Listing(Merge(w.value, RequestsFor(t, IdsOf(w.value))), |selected|, p.page,
                 ReportedLimit(QueryLimit(p), |selected|), TotalPages(|selected|, p.limit), Hospitals(docs))
  }

  /** Every listed record is a stored record that matches the search and the hospital filter,
      and its flag is what the approval gate says. */
  lemma ListedRecordsAreStoredAndFlagged(docs: seq<Certificate>, t: RequestTable, query: Params)
    ensures var resp := Listed(docs, t, query);
      var p := ReadParams(query);
      resp.Listing? ==> forall k :: 0 <= k < |resp.data| ==>
        && resp.data[k].cert in docs
        && (p.q == "" || MatchesSearch(resp.data[k].cert, p.q))
        && (p.hospital == "" || resp.data[k].cert.hospital == p.hospital)
        && resp.data[k].isApproved == IsUnlocked(t, resp.data[k].cert.id)
  {
    var p := ReadParams(query);
    var selected := Filtered(docs, p.q, p.hospital);
    var w := Window(selected, QueryLimit(p), Skip(p));
    var resp := Listed(docs, t, query);
    if w.Some? {
      var page := w.value;
      var data := Merge(page, RequestsFor(t, IdsOf(page)));
      assert resp.data == data;
      WindowWithinSelected(selected, QueryLimit(p), Skip(p));
      MergedPageFlags(selected, t, page, data);
    } else {
      assert resp == ListingError;
    }
  }

  lemma WindowWithinSelected(selected: seq<Certificate>, queryLimit: Option<int>, skip: Option<int>)
    ensures var w := Window(selected, queryLimit, skip);
      w.Some? ==> forall c :: c in w.value ==> c in selected
  {
  }

  lemma MergedPageFlags(selected: seq<Certificate>, t: RequestTable, page: seq<Certificate>, data: seq<CertificateView>)
    requires forall c :: c in page ==> c in selected
    requires data == Merge(page, RequestsFor(t, IdsOf(page)))
    ensures forall k :: 0 <= k < |data| ==> data[k].cert in selected && data[k].isApproved == IsUnlocked(t, data[k].cert.id)
  {
    RequestsForAnswers(page, t);
    MergeAgreesWithTable(page, RequestsFor(t, IdsOf(page)), t);
    forall k | 0 <= k < |data| ensures data[k].cert in selected {
      assert data[k].cert == page[k];
    }
  }

  method Get(docs: seq<Certificate>, t: RequestTable, query: Params, connected: bool) returns (resp: ListingResponse)
    ensures !connected ==> resp == ListingUnavailable
    ensures connected ==> resp == Listed(docs, t, query)
  {
    if !connected {
      return ListingUnavailable;
    }
    var p := ReadParams(query);
    var skip := Skip(p);
    var queryLimit := QueryLimit(p);

    var dbQuery := DbQuery(None, None);
    if p.q != "" {
      dbQuery := dbQuery.(search := Some(p.q));
    }
    if p.hospital != "" {
      dbQuery := dbQuery.(hospital := Some(p.hospital));
    }
    assert dbQuery == SearchQuery(p.q, p.hospital);

    var selected := Find(docs, dbQuery);
    var rawCertificates := selected;
    if Paged(queryLimit) {
      if skip.None? || skip.value < 0 {
        return ListingError;
      }
      rawCertificates := PageOf(selected, skip.value, queryLimit.value);
    }
    var requests := RequestsFor(t, IdsOf(rawCertificates));
    var data := Merge(rawCertificates, requests);
    resp := Listing(data, |selected|, p.page, ReportedLimit(queryLimit, |selected|),
                    TotalPages(|selected|, p.limit), Hospitals(docs));
  }

  // ---------------------------------------------------------------------
  // The POST handler.
  // ---------------------------------------------------------------------

  datatype CreateResponse =
    | CreateUnavailable     // 500 "Database connection failed."
    | MissingFields         // 400 "Validation Error: Missing required fields."
    | BadDoi                // 400 "Validation Error: DOI must be in DD-MM-YYYY format."
    | Duplicate             // 400 "Creation failed: Certificate No. must be unique."
    | Created(record: NewCertificate)  // 201

  /** The four fields the handler requires are all non-empty. */
  predicate HasRequiredFields(body: NewCertificate) {
    body.certificateNo != "" && body.name != "" && body.hospital != "" && body.doi != ""
  }

  /** Validation and creation against the certificate numbers already stored: each response is
      given exactly by the first check that fails, in the handler's order. */
  function Create(taken: set<string>, body: NewCertificate, connected: bool): (r: CreateResponse)
    ensures r == CreateUnavailable <==> !connected
    ensures r == MissingFields <==> connected && !HasRequiredFields(body)
    ensures r == BadDoi <==> connected && HasRequiredFields(body) && !MatchesDoiPattern(body.doi)
    ensures r == Duplicate <==>
      connected && HasRequiredFields(body) && MatchesDoiPattern(body.doi) && body.certificateNo in taken
    ensures r.Created? <==>
      connected && HasRequiredFields(body) && MatchesDoiPattern(body.doi) && body.certificateNo !in taken
    ensures r.Created? ==> r.record == body
  {
    if !connected then CreateUnavailable
    else if !HasRequiredFields(body) then MissingFields
    else if !MatchesDoiPattern(body.doi) then BadDoi
    else if body.certificateNo in taken then Duplicate
    else Created(body)
  }
}
