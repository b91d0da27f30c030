/** The client state of the certificate table (`components/Certificates/hooks/useCertificateData.ts`):
    the current page, the sort order, the selection and the last listing received, the query strings
    sent to the listing endpoint for a page and for an export, and the effects that clear the
    selection and go back to the first page. The server's answer is a parameter of each fetch;
    `None` stands for a request that did not complete. */
module CertificateData {
  import opened Maybe
  import opened JsString
  import opened QueryString
  import opened Records
  import CertificatesRoute

  /** `PAGE_LIMIT`. */
  const PageLimit: nat := 10

  const ListingPath: string := "/api/certificates"

  /** The fields of a client record, any of which the table can sort on. */
  datatype SortKey = ById | ByCertificateNo | ByName | ByHospital | ByDoi | ByIsApproved

  datatype Direction = Asc | Desc

  datatype SortConfig = SortConfig(key: SortKey, direction: Direction)

  datatype NotificationType = Success | Error | Info

  /** A call of `showNotification(message, type)`. */
  datatype Notice = Notice(message: string, kind: NotificationType)

  // ---------------------------------------------------------------------
  // Sorting.
  // ---------------------------------------------------------------------

  /** The direction `requestSort(key)` chooses: descending only when the table is already sorted
      ascending on the same key. */
  function NextDirection(config: Option<SortConfig>, key: SortKey): Direction {
    if config.Some? && config.value.key == key && config.value.direction == Asc then Desc else Asc
  }

  function Flip(d: Direction): Direction {
    if d == Asc then Desc else Asc
  }

  /** Asking again for the key the table is sorted on flips the direction; asking for another
      key (or with no sort) starts ascending. So two requests for a new key give descending, and
      two requests for the current ascending key give ascending again. */
  lemma RequestSortToggles(config: Option<SortConfig>, key: SortKey)
    ensures config.Some? && config.value.key == key ==> NextDirection(config, key) == Flip(config.value.direction)
    ensures config.None? || config.value.key != key ==> NextDirection(config, key) == Asc
    ensures var once := Some(SortConfig(key, NextDirection(config, key)));
      NextDirection(once, key) == Flip(once.value.direction)
    ensures NextDirection(Some(SortConfig(key, NextDirection(Some(SortConfig(key, Asc)), key))), key) == Asc
  {
  }

  // ---------------------------------------------------------------------
  // The query strings.
  // ---------------------------------------------------------------------

  /** The hospital filter as an optional parameter: present only when the filter is not empty. */
  function HospitalParam(hospitalFilter: string): Params {
    if hospitalFilter != "" then [Param("hospital", hospitalFilter)] else []
  }

  /** The parameters of a page request: `page`, `limit` and `q` always, then `hospital`. */
  function ListingQuery(page: int, searchQuery: string, hospitalFilter: string): Params {
    [Param("page", IntToString(page)), Param("limit", IntToString(PageLimit)), Param("q", searchQuery)]
    + HospitalParam(hospitalFilter)
  }

  function ListingUrl(page: int, searchQuery: string, hospitalFilter: string): string {
    ListingPath + "?" + Serialize(ListingQuery(page, searchQuery, hospitalFilter))
  }

  /** `ids.join(',')`. */
  function JoinWithCommas(ids: seq<Id>): string
    decreases |ids|
  {
    if ids == [] then ""
    else if |ids| == 1 then ids[0]
    else ids[0] + "," + JoinWithCommas(ids[1..])
  }

  /** The parameters of an export request: `q` and `all=true`, then `hospital`; a bulk export of
      chosen ids adds `ids` and drops `q`. */
  function ExportQuery(searchQuery: string, hospitalFilter: string, isBulkPdfExport: bool, idsToFetch: seq<Id>): Params {
    var base := [Param("q", searchQuery), Param("all", "true")] + HospitalParam(hospitalFilter);
    if isBulkPdfExport && idsToFetch != [] then Remove(base + [Param("ids", JoinWithCommas(idsToFetch))], "q")
    else base
  }

  function ExportUrl(searchQuery: string, hospitalFilter: string, isBulkPdfExport: bool, idsToFetch: seq<Id>): string {
    ListingPath + "?" + Serialize(ExportQuery(searchQuery, hospitalFilter, isBulkPdfExport, idsToFetch))
  }

  lemma ListingPathHasNoQuery()
    ensures '?' !in ListingPath
  {
    forall i | 0 <= i < |ListingPath| ensures ListingPath[i] != '?' {
    }
  }

  /** `get` on the optional hospital parameter. */
  lemma HospitalParamLookup(hospitalFilter: string, name: string)
    ensures name != "hospital" ==> Lookup(HospitalParam(hospitalFilter), name).None?
    ensures Lookup(HospitalParam(hospitalFilter), "hospital").GetOr("") == hospitalFilter
  {
    if hospitalFilter != "" {
      LookupCons(Param("hospital", hospitalFilter), [], name);
      LookupCons(Param("hospital", hospitalFilter), [], "hospital");
    }
  }

  /** What `get` returns on the parameters of a page request. */
  lemma ListingQueryLookups(page: int, searchQuery: string, hospitalFilter: string)
    ensures var ps := ListingQuery(page, searchQuery, hospitalFilter);
      && Lookup(ps, "all").None?
      && Lookup(ps, "page") == Some(IntToString(page))
      && Lookup(ps, "limit") == Some(IntToString(PageLimit))
      && Lookup(ps, "q") == Some(searchQuery)
      && Lookup(ps, "hospital").GetOr("") == hospitalFilter
  {
    var p0, p1, p2 := Param("page", IntToString(page)), Param("limit", IntToString(PageLimit)), Param("q", searchQuery);
    var h := HospitalParam(hospitalFilter);
    assert ListingQuery(page, searchQuery, hospitalFilter) == [p0] + ([p1] + ([p2] + h));
    HospitalParamLookup(hospitalFilter, "all");
    HospitalParamLookup(hospitalFilter, "q");
    LookupCons(p2, h, "all");
    LookupCons(p2, h, "q");
    LookupCons(p2, h, "hospital");
    LookupCons(p1, [p2] + h, "all");
    LookupCons(p1, [p2] + h, "limit");
    LookupCons(p1, [p2] + h, "q");
    LookupCons(p1, [p2] + h, "hospital");
    LookupCons(p0, [p1] + ([p2] + h), "all");
    LookupCons(p0, [p1] + ([p2] + h), "page");
    LookupCons(p0, [p1] + ([p2] + h), "limit");
    LookupCons(p0, [p1] + ([p2] + h), "q");
    LookupCons(p0, [p1] + ([p2] + h), "hospital");
  }

  /** The server reads back exactly the parameters the client sent. */
  lemma ServerReadsQuery(ps: Params)
    ensures ParseQuery(QueryOf(ListingPath + "?" + Serialize(ps))) == ps
  {
    ListingPathHasNoQuery();
    QueryOfRequestUrl(ListingPath, ps);
  }

  /** What the listing endpoint reads from a page request: the page asked for, a limit of 10,
      the search text, the hospital filter, and no export. */
  lemma ListingRequestReadByServer(page: int, searchQuery: string, hospitalFilter: string)
    ensures CertificatesRoute.ReadParams(ParseQuery(QueryOf(ListingUrl(page, searchQuery, hospitalFilter))))
         == CertificatesRoute.ListingParams(false, Some(page), Some(PageLimit), searchQuery, hospitalFilter)
  {
    var ps := ListingQuery(page, searchQuery, hospitalFilter);
    ServerReadsQuery(ps);
    ListingQueryLookups(page, searchQuery, hospitalFilter);
    ParseIntOfIntToString(page);
    ParseIntOfIntToString(PageLimit);
  }

  /** What `get` returns on the parameters of an export request. */
  lemma ExportQueryLookups(searchQuery: string, hospitalFilter: string, isBulkPdfExport: bool, idsToFetch: seq<Id>)
    ensures var ps := ExportQuery(searchQuery, hospitalFilter, isBulkPdfExport, idsToFetch);
      && Lookup(ps, "all") == Some("true")
      && Lookup(ps, "hospital").GetOr("") == hospitalFilter
      && Lookup(ps, "q") == (if isBulkPdfExport && idsToFetch != [] then None else Some(searchQuery))
  {
    var base := [Param("q", searchQuery), Param("all", "true")] + HospitalParam(hospitalFilter);
    ExportBaseLookups(searchQuery, hospitalFilter);
    if isBulkPdfExport && idsToFetch != [] {
      IdsAppendedLookups(base, JoinWithCommas(idsToFetch));
    }
  }

  /** `get` on `q`, `all=true` and the optional hospital. */
  lemma ExportBaseLookups(searchQuery: string, hospitalFilter: string)
    ensures var base := [Param("q", searchQuery), Param("all", "true")] + HospitalParam(hospitalFilter);
      && Lookup(base, "all") == Some("true")
      && Lookup(base, "hospital").GetOr("") == hospitalFilter
      && Lookup(base, "q") == Some(searchQuery)
  {
    var p0, p1 := Param("q", searchQuery), Param("all", "true");
    var h := HospitalParam(hospitalFilter);
    assert [p0, p1] + h == [p0] + ([p1] + h);
    HospitalParamLookup(hospitalFilter, "all");
    LookupCons(p1, h, "all");
    LookupCons(p1, h, "hospital");
    LookupCons(p0, [p1] + h, "all");
    LookupCons(p0, [p1] + h, "q");
    LookupCons(p0, [p1] + h, "hospital");
  }

  /** Appending `ids` and then deleting `q` leaves the other lookups as they were. */
  lemma IdsAppendedLookups(base: Params, ids: string)
    requires Lookup(base, "all").Some?
    ensures var ps := Remove(base + [Param("ids", ids)], "q");
      && Lookup(ps, "all") == Lookup(base, "all")
      && Lookup(ps, "hospital") == Lookup(base, "hospital")
      && Lookup(ps, "q").None?
  {
    var withIds := base + [Param("ids", ids)];
    LookupAppend(base, Param("ids", ids), "all");
    LookupAppend(base, Param("ids", ids), "hospital");
    LookupRemove(withIds, "q", "all");
    LookupRemove(withIds, "q", "hospital");
    LookupRemoved(withIds, "q");
  }

  /** `get` after `append` finds the earlier entry first. */
  lemma {:induction false} LookupAppend(ps: Params, p: Param, name: string)
    requires Lookup(ps, name).Some? || p.name != name
    ensures Lookup(ps + [p], name) == Lookup(ps, name)
  {
    if ps != [] {
      assert (ps + [p])[1..] == ps[1..] + [p];
      if ps[0].name != name {
        LookupAppend(ps[1..], p, name);
      }
    } else {
      LookupCons(p, [], name);
    }
  }

  /** After `delete(name)`, `get(name)` finds nothing. */
  lemma LookupRemoved(ps: Params, name: string)
    ensures Lookup(Remove(ps, name), name).None?
  {
    var r := Remove(ps, name);
    forall i | 0 <= i < |r| ensures r[i].name != name {
      assert r[i] in r;
    }
  }

  /** What the listing endpoint reads from an export request: export mode, the hospital filter,
      and the search text unless chosen ids were sent. The endpoint never reads `ids`, so a bulk
      export gets every record of the hospital filter, not just the chosen ones. */
  lemma ExportRequestReadByServer(searchQuery: string, hospitalFilter: string, isBulkPdfExport: bool, idsToFetch: seq<Id>)
    ensures var p := CertificatesRoute.ReadParams(ParseQuery(QueryOf(ExportUrl(searchQuery, hospitalFilter, isBulkPdfExport, idsToFetch))));
      && p.isExport
      && p.hospital == hospitalFilter
      && p.q == (if isBulkPdfExport && idsToFetch != [] then "" else searchQuery)
  {
    ServerReadsQuery(ExportQuery(searchQuery, hospitalFilter, isBulkPdfExport, idsToFetch));
    ExportQueryLookups(searchQuery, hospitalFilter, isBulkPdfExport, idsToFetch);
  }

  /** `result.message || fallback` for the server's failure answers. */
  function FailureMessage(resp: CertificatesRoute.ListingResponse, fallback: string): string {
    match resp
    case ListingUnavailable => "Database connection failed."
    case ListingError => "Error fetching certificates."
    case Listing(_, _, _, _, _, _) => fallback
  }

  /** The notice after a listing arrived. */
  function SyncedNotice(data: seq<CertificateView>, total: nat): Notice {
    Notice("Data synced. Showing " + IntToString(|data|) + " of " + IntToString(total) + " items.", Success)
  }

  /** The error notice of a fetch that got no listing: the network message when there was no
      answer, else the server's message. */
  function FetchFailedNotice(reply: Option<CertificatesRoute.ListingResponse>, networkMessage: string, fallback: string): Notice {
    if reply.None? then Notice(networkMessage, Error) else Notice(FailureMessage(reply.value, fallback), Error)
  }

  /** The part of the table state a page request's answer updates. */
  datatype ListingView = ListingView(certificates: seq<CertificateView>, totalItems: int, totalPages: Option<int>,
                                     uniqueHospitals: set<string>, notices: seq<Notice>)

  /** The table after the answer to a page request: a listing replaces the rows, the counts and
      the hospital list and reports how many rows it shows; anything else keeps them and adds
      one error notice. */
  function AfterListingReply(v: ListingView, reply: Option<CertificatesRoute.ListingResponse>): (w: ListingView)
    ensures |w.notices| == |v.notices| + 1 && w.notices[..|v.notices|] == v.notices
    ensures w.notices[|v.notices|].kind == Success <==> reply.Some? && reply.value.Listing?
    ensures reply.Some? && reply.value.Listing? ==>
      w.certificates == reply.value.data && w.totalItems == reply.value.total
      && w.totalPages == reply.value.totalPages && w.uniqueHospitals == reply.value.hospitals
    ensures !(reply.Some? && reply.value.Listing?) ==>
      w.certificates == v.certificates && w.totalItems == v.totalItems
      && w.totalPages == v.totalPages && w.uniqueHospitals == v.uniqueHospitals
  {
    if reply.Some? && reply.value.Listing? then
      var r := reply.value;
      ListingView(r.data, r.total, r.totalPages, r.hospitals, v.notices + [SyncedNotice(r.data, r.total)])
    else
      v.(notices := v.notices + [FetchFailedNotice(reply, "Network error while fetching data.", "Failed to fetch certificates.")])
  }

  // ---------------------------------------------------------------------
  // The hook's state.
  // ---------------------------------------------------------------------

  class TableData {
    var certificates: seq<CertificateView>
    var totalItems: int
    var currentPage: int
    var totalPages: Option<int>
    var uniqueHospitals: set<string>
    var selectedIds: seq<Id>
    var sortConfig: Option<SortConfig>
    /** Every `showNotification` call, in order. */
    var notices: seq<Notice>
    /** Every URL fetched, in order. */
    var requests: seq<string>

    /** The initial state: page 1, sorted by id descending, nothing loaded or selected. */
    constructor ()
      ensures certificates == [] && totalItems == 0 && currentPage == 1 && totalPages == Some(1)
      ensures uniqueHospitals == {} && selectedIds == [] && sortConfig == Some(SortConfig(ById, Desc))
      ensures notices == [] && requests == []
    {
      certificates := [];
      totalItems := 0;
      currentPage := 1;
      totalPages := Some(1);
      uniqueHospitals := {};
      selectedIds := [];
      sortConfig := Some(SortConfig(ById, Desc));
      notices := [];
      requests := [];
    }

    /** `requestSort(key)`. */
    method RequestSort(key: SortKey)
      modifies this`sortConfig
      ensures sortConfig.Some? && sortConfig.value.key == key
      ensures sortConfig.value.direction == Desc <==>
        old(sortConfig).Some? && old(sortConfig).value.key == key && old(sortConfig).value.direction == Asc
      ensures sortConfig == Some(SortConfig(key, NextDirection(old(sortConfig), key)))
    {
      var direction := Asc;
      if sortConfig.Some? && sortConfig.value.key == key && sortConfig.value.direction == Asc {
        direction := Desc;
      }
      sortConfig := Some(SortConfig(key, direction));
    }

    /** The `URLSearchParams` of a page request, built as the hook builds it. */
    static method BuildListingParams(page: int, searchQuery: string, hospitalFilter: string) returns (params: SearchParams)
      ensures fresh(params)
      ensures params.entries == ListingQuery(page, searchQuery, hospitalFilter)
    {
      params := new SearchParams([Param("page", IntToString(page)), Param("limit", IntToString(PageLimit)),
                                  Param("q", searchQuery)]);
      if hospitalFilter != "" {
        params.Append("hospital", hospitalFilter);
      }
    }

    /** `/api/certificates?${params.toString()}` for a page request. */
    static method ListingRequestUrl(page: int, searchQuery: string, hospitalFilter: string) returns (url: string)
      ensures url == ListingUrl(page, searchQuery, hospitalFilter)
    {
      var params := BuildListingParams(page, searchQuery, hospitalFilter);
      url := ListingPath + "?" + params.ToString();
    }

    /** `/api/certificates?${params.toString()}` for an export request. */
    static method ExportRequestUrl(searchQuery: string, hospitalFilter: string, isBulkPdfExport: bool, idsToFetch: seq<Id>)
      returns (url: string)
      ensures url == ExportUrl(searchQuery, hospitalFilter, isBulkPdfExport, idsToFetch)
    {
      var params := BuildExportParams(searchQuery, hospitalFilter, isBulkPdfExport, idsToFetch);
      url := ListingPath + "?" + params.ToString();
    }

    /** The `URLSearchParams` of an export request, built as the hook builds it. */
    static method BuildExportParams(searchQuery: string, hospitalFilter: string, isBulkPdfExport: bool, idsToFetch: seq<Id>)
      returns (params: SearchParams)
      ensures fresh(params)
      ensures params.entries == ExportQuery(searchQuery, hospitalFilter, isBulkPdfExport, idsToFetch)
    {
      params := new SearchParams([Param("q", searchQuery), Param("all", "true")]);
      if hospitalFilter != "" {
        params.Append("hospital", hospitalFilter);
      }
      assert params.entries == [Param("q", searchQuery), Param("all", "true")] + HospitalParam(hospitalFilter);
      if isBulkPdfExport && |idsToFetch| > 0 {
        params.Append("ids", JoinWithCommas(idsToFetch));
        params.Delete("q");
      }
    }

    /** `fetchCertificates(resetPage)`: requests the current page (page 1 after a reset, which also
        moves the table there); a successful answer replaces the rows, counts and hospital list;
        any other outcome only raises an error notice. */
    method FetchCertificates(resetPage: bool, searchQuery: string, hospitalFilter: string,
                             reply: Option<CertificatesRoute.ListingResponse>)
      returns (url: string)
      modifies this`currentPage, this`certificates, this`totalItems, this`totalPages, this`uniqueHospitals,
               this`notices, this`requests
      ensures currentPage == (if resetPage then 1 else old(currentPage))
      ensures url == ListingUrl(currentPage, searchQuery, hospitalFilter)
      ensures requests == old(requests) + [url]
      ensures Listed() == AfterListingReply(old(Listed()), reply)
    {
      var pageToFetch := currentPage;
      if resetPage {
        currentPage := 1;
        pageToFetch := 1;
      }
      url := ListingRequestUrl(pageToFetch, searchQuery, hospitalFilter);
      requests := requests + [url];
      ReceiveListing(reply);
    }

    /** The fields a page request's answer updates. */
    function Listed(): ListingView
      reads this
    {
      ListingView(certificates, totalItems, totalPages, uniqueHospitals, notices)
    }

    /** The handling of the answer to a page request. */
    method ReceiveListing(reply: Option<CertificatesRoute.ListingResponse>)
      modifies this`certificates, this`totalItems, this`totalPages, this`uniqueHospitals, this`notices
      ensures Listed() == AfterListingReply(old(Listed()), reply)
    {
      if reply.Some? && reply.value.Listing? {
        var r := reply.value;
        certificates := r.data;
        totalItems := r.total;
        totalPages := r.totalPages;
        uniqueHospitals := r.hospitals;
        notices := notices + [SyncedNotice(r.data, r.total)];
      } else {
        notices := notices + [FetchFailedNotice(reply, "Network error while fetching data.", "Failed to fetch certificates.")];
      }
    }

    /** `fetchCertificatesForExport(isBulkPdfExport, idsToFetch)`: the records of a successful
        answer, or an empty list (with an error notice) on any failure. */
    method FetchForExport(isBulkPdfExport: bool, idsToFetch: seq<Id>, searchQuery: string, hospitalFilter: string,
                          reply: Option<CertificatesRoute.ListingResponse>)
      returns (url: string, records: seq<CertificateView>)
      modifies this`notices, this`requests
      ensures url == ExportUrl(searchQuery, hospitalFilter, isBulkPdfExport, idsToFetch)
      ensures requests == old(requests) + [url]
      ensures reply.Some? && reply.value.Listing? ==> records == reply.value.data && notices == old(notices)
      ensures !(reply.Some? && reply.value.Listing?) ==>
        && records == []
        && notices == old(notices) + [FetchFailedNotice(reply, "Network error while fetching data for export.",
                                                        "Failed to fetch all certificates for export.")]
    {
      url := ExportRequestUrl(searchQuery, hospitalFilter, isBulkPdfExport, idsToFetch);
      requests := requests + [url];
      if reply.Some? && reply.value.Listing? {
        records := reply.value.data;
      } else {
        notices := notices + [FetchFailedNotice(reply, "Network error while fetching data for export.",
                                                "Failed to fetch all certificates for export.")];
        records := [];
      }
    }

    /** The effect on a refresh (and on a new `fetchCertificates`): fetch the current page and
        clear the selection. */
    method Refresh(searchQuery: string, hospitalFilter: string, reply: Option<CertificatesRoute.ListingResponse>)
      returns (url: string)
      modifies this`currentPage, this`certificates, this`totalItems, this`totalPages, this`uniqueHospitals,
               this`notices, this`requests, this`selectedIds
      ensures selectedIds == [] && currentPage == old(currentPage)
      ensures url == ListingUrl(currentPage, searchQuery, hospitalFilter) && requests == old(requests) + [url]
      ensures Listed() == AfterListingReply(old(Listed()), reply)
    {
      url := FetchCertificates(false, searchQuery, hospitalFilter, reply);
      selectedIds := [];
    }

    /** The effects of a new search text or hospital filter. `fetchCertificates` depends on the
        filters, so the first effect runs again (`Refresh`): it fetches the current page with the
        new filters and clears the selection. The second effect (`ResetToFirstPage`) follows.
        Either way the current page and then page 1 are requested, and the answers are handled
        in that order. */
    method FiltersChanged(searchQuery: string, hospitalFilter: string,
                          firstReply: Option<CertificatesRoute.ListingResponse>,
                          secondReply: Option<CertificatesRoute.ListingResponse>)
      returns (urls: seq<string>)
      modifies this`currentPage, this`certificates, this`totalItems, this`totalPages, this`uniqueHospitals,
               this`notices, this`requests, this`selectedIds
      ensures selectedIds == [] && currentPage == 1
      ensures urls == [ListingUrl(old(currentPage), searchQuery, hospitalFilter), ListingUrl(1, searchQuery, hospitalFilter)]
      ensures requests == old(requests) + urls
      ensures Listed() == AfterListingReply(AfterListingReply(old(Listed()), firstReply), secondReply)
    {
      var first := Refresh(searchQuery, hospitalFilter, firstReply);
      var second := ResetToFirstPage(searchQuery, hospitalFilter, secondReply);
      urls := [first, second];
    }

    /** The second effect of a filter change: the selection is cleared; the table moves to page
        1, whose change runs the first effect again, or, when it is already there, fetches page
        1 itself. Both ways page 1 is requested once. */
    method ResetToFirstPage(searchQuery: string, hospitalFilter: string, reply: Option<CertificatesRoute.ListingResponse>)
      returns (url: string)
      modifies this`currentPage, this`certificates, this`totalItems, this`totalPages, this`uniqueHospitals,
               this`notices, this`requests, this`selectedIds
      ensures selectedIds == [] && currentPage == 1
      ensures url == ListingUrl(1, searchQuery, hospitalFilter) && requests == old(requests) + [url]
      ensures Listed() == AfterListingReply(old(Listed()), reply)
    {
      selectedIds := [];
      if currentPage != 1 {
        currentPage := 1;
        url := Refresh(searchQuery, hospitalFilter, reply);
      } else {
        url := FetchCertificates(false, searchQuery, hospitalFilter, reply);
      }
    }
  }
}
