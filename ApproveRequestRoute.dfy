/** The approval endpoint (`app/api/approve-request/route.ts`), reached by clicking a link in
    the administrator's email: `GET ?certId=<id>&action=<tag>` upserts the certificate's row with
    `status := (action == "approve")` and answers with a small confirmation page. */
module ApproveRequestRoute {
  import opened Maybe
  import opened JsString
  import opened QueryString
  import opened CertificateRequestModel

  datatype Response =
    | MissingId                  // 400 "Missing ID"
    | Confirmation(heading: string)  // 200, the self-closing HTML page
    | ServerError                // 500: the store could not be reached or refused the update

  function StatusCode(r: Response): nat {
    match r
    case MissingId => 400
    case Confirmation(_) => 200
    case ServerError => 500
  }

  /** `action === 'approve'`: only that exact tag unlocks; any other tag, or none, locks. */
  predicate Approves(action: Option<string>) {
    action == Some("approve")
  }

  const ApprovedHeading: string := "\U{2705} APPROVED"
  const RejectedHeading: string := "\U{274C} REJECTED"

  /** The page's heading shows APPROVED exactly when the action approved. */
  function Heading(action: Option<string>): (h: string)
    ensures Includes(h, "APPROVED") <==> Approves(action)
    ensures Includes(h, "REJECTED") <==> !Approves(action)
  {
    if Approves(action) then
      assert OccursAt(ApprovedHeading, "APPROVED", 2);
      NotIncludesByFirstChar(ApprovedHeading, "REJECTED");
      ApprovedHeading
    else
      assert OccursAt(RejectedHeading, "REJECTED", 2);
      NotIncludesByFirstChar(RejectedHeading, "APPROVED");
      RejectedHeading
  }

  /** The handler, given the request's query parameters. `storeUp` is false when the store
      cannot be reached or rejects the update (for instance an id that is not an ObjectId). */
  method Get(requests: RequestCollection, query: Params, now: nat, storeUp: bool) returns (resp: Response)
    requires requests.Valid() && requests.lastWrite <= now
    modifies requests
    ensures requests.Valid()
    ensures !Truthy(Lookup(query, "certId")) ==> resp == MissingId && requests.rows == old(requests.rows)
    ensures Truthy(Lookup(query, "certId")) && !storeUp ==> resp == ServerError && requests.rows == old(requests.rows)
    ensures Truthy(Lookup(query, "certId")) && storeUp ==>
      && requests.rows == SetStatus(old(requests.rows), Lookup(query, "certId").value, Approves(Lookup(query, "action")), now)
      && resp == Confirmation(Heading(Lookup(query, "action")))
  {
    var certId := Lookup(query, "certId");
    var action := Lookup(query, "action");
    if !Truthy(certId) {
      return MissingId;
    }
    if !storeUp {
      return ServerError;
    }
    requests.UpsertStatus(certId.value, Approves(action), now);
    resp := Confirmation(Heading(action));
  }
}
