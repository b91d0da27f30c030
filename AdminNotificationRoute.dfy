/** The notification endpoint (`app/api/send-admin-notification/route.ts`): it makes sure a
    locked approval row exists for the certificate, works out the public base address of the
    deployment, and mails the administrator an approve link and a reject link. */
module AdminNotificationRoute {
  import opened Maybe
  import opened JsString
  import opened QueryString
  import opened CertificateRequestModel
  import ApproveRequestRoute

  /** The JSON body `{ to, subject, text, certificateId, certificateNo }`. */
  datatype NotificationBody = NotificationBody(
    to: Option<string>, subject: string, text: string, certificateId: Option<string>, certificateNo: string)

  /** The deployment's environment variables `NEXT_PUBLIC_APP_URL`, `VERCEL_URL` and
      `NEXT_PUBLIC_VERCEL_URL`. */
  datatype Environment = Environment(appUrl: Option<string>, vercelUrl: Option<string>, publicVercelUrl: Option<string>)

  /** The message handed to the mail transport (the fixed sender address is not modelled). */
  datatype Email = Email(to: string, subject: string, text: string, approveLink: string, rejectLink: string)

  datatype Response =
    | MissingFields   // 400 "Missing required fields."
    | RequestSent     // 200 "Request sent."
    | Failed          // 500: the store write or the send threw

  function StatusCode(r: Response): nat {
    match r
    case MissingFields => 400
    case RequestSent => 200
    case Failed => 500
  }

  const LocalFallback: string := "http://localhost:3000"
  const ApprovalPath: string := "/api/approve-request"

  /** The base-address priority: a configured public address unless it is missing or points at
      localhost; else the platform's `VERCEL_URL`; else `NEXT_PUBLIC_VERCEL_URL`; else the local
      fallback. */
  predicate ResolvesTo(env: Environment, baseUrl: string) {
    var configured := Truthy(env.appUrl) && !Includes(env.appUrl.value, "localhost");
    && (configured ==> baseUrl == env.appUrl.value)
    && (!configured && Truthy(env.vercelUrl) ==> baseUrl == "https://" + env.vercelUrl.value)
    && (!configured && !Truthy(env.vercelUrl) && Truthy(env.publicVercelUrl)
        ==> baseUrl == "https://" + env.publicVercelUrl.value)
    && (!configured && !Truthy(env.vercelUrl) && !Truthy(env.publicVercelUrl) ==> baseUrl == LocalFallback)
  }

  /** The step-by-step resolution of `baseUrl`. */
  method ResolveBaseUrl(env: Environment) returns (baseUrl: string)
    ensures ResolvesTo(env, baseUrl)
  {
    var candidate := env.appUrl;
    if !Truthy(candidate) || Includes(candidate.value, "localhost") {
      if Truthy(env.vercelUrl) {
        candidate := Some("https://" + env.vercelUrl.value);
      } else if Truthy(env.publicVercelUrl) {
        candidate := Some("https://" + env.publicVercelUrl.value);
      } else {
        candidate := Some(LocalFallback);
      }
    }
    baseUrl := candidate.value;
  }

  const CertIdName: string := "certId"
  const ActionName: string := "action"

  /** `certId=${certificateId}&action=${tag}`: the query of a link, written without escaping. */
  function ActionQuery(certificateId: string, tag: string): string {
    (CertIdName + "=" + certificateId) + "&" + (ActionName + "=" + tag)
  }

  /** `${baseUrl}/api/approve-request?certId=${certificateId}&action=${tag}`. */
  function ActionLink(baseUrl: string, certificateId: string, tag: string): string {
    baseUrl + ApprovalPath + "?" + ActionQuery(certificateId, tag)
  }

  /** What the approval endpoint reads from a link: the certificate id and the tag the link was
      built with, provided the base address has no `?` and the id needs no escaping (an ObjectId
      is hexadecimal). */
  lemma ActionLinkRoundTrip(baseUrl: string, certificateId: string, tag: string)
    requires '?' !in baseUrl && UrlSafe(certificateId) && UrlSafe(tag)
    ensures ParseQuery(QueryOf(ActionLink(baseUrl, certificateId, tag)))
         == [Param(CertIdName, certificateId), Param(ActionName, tag)]
  {
    var ps := [Param(CertIdName, certificateId), Param(ActionName, tag)];
    FixedWordsUrlSafe();
    SerializePair(ps[0], ps[1]);
    assert Serialize(ps) == ActionQuery(certificateId, tag);
    assert '?' !in baseUrl + ApprovalPath;
    QueryOfRequestUrl(baseUrl + ApprovalPath, ps);
  }

  /** The parameter names and action tags need no escaping. */
  lemma FixedWordsUrlSafe()
    ensures UrlSafe(CertIdName) && UrlSafe(ActionName) && UrlSafe("approve") && UrlSafe("reject")
    ensures '?' !in ApprovalPath
  {
  }

  /** Two parameters that need no escaping serialise as the link's query spells them. */
  lemma SerializePair(first: Param, second: Param)
    requires UrlSafe(first.name) && UrlSafe(first.value) && UrlSafe(second.name) && UrlSafe(second.value)
    ensures Serialize([first, second])
         == (first.name + "=" + first.value) + "&" + (second.name + "=" + second.value)
  {
    EncodeUrlSafe(first.name);
    EncodeUrlSafe(first.value);
    EncodeUrlSafe(second.name);
    EncodeUrlSafe(second.value);
    assert [first, second][1..] == [second];
  }

  /** Clicking the approve link unlocks that certificate, clicking the reject link locks it: the
      two links differ only in the tag, and the endpoint reads the same id from both. */
  lemma LinksDriveTheApprovalEndpoint(baseUrl: string, certificateId: string)
    requires '?' !in baseUrl && UrlSafe(certificateId) && certificateId != ""
    ensures var approve := ParseQuery(QueryOf(ActionLink(baseUrl, certificateId, "approve")));
            var reject := ParseQuery(QueryOf(ActionLink(baseUrl, certificateId, "reject")));
            && Lookup(approve, CertIdName) == Lookup(reject, CertIdName) == Some(certificateId)
            && ApproveRequestRoute.Approves(Lookup(approve, ActionName))
            && !ApproveRequestRoute.Approves(Lookup(reject, ActionName))
  {
    FixedWordsUrlSafe();
    ActionLinkRoundTrip(baseUrl, certificateId, "approve");
    ActionLinkRoundTrip(baseUrl, certificateId, "reject");
  }

  /** The handler. `storeUp` is false when the store write throws; `sendOk` is false when the
      transport throws. The write happens before the send, so a failed send still leaves the
      pending row in place. */
  method Post(requests: RequestCollection, body: NotificationBody, env: Environment, now: nat, storeUp: bool, sendOk: bool)
    returns (resp: Response, baseUrl: string, sent: Option<Email>)
    requires requests.Valid() && requests.lastWrite <= now
    modifies requests
    ensures requests.Valid()
    ensures !(Truthy(body.to) && Truthy(body.certificateId)) ==>
      resp == MissingFields && sent == None && requests.rows == old(requests.rows)
    ensures Truthy(body.to) && Truthy(body.certificateId) && !storeUp ==>
      resp == Failed && sent == None && requests.rows == old(requests.rows)
    ensures Truthy(body.to) && Truthy(body.certificateId) && storeUp ==>
      && requests.rows == EnsurePending(old(requests.rows), body.certificateId.value, body.certificateNo, now)
      && ResolvesTo(env, baseUrl)
      && sent == Some(Email(body.to.value, body.subject, body.text,
                            ActionLink(baseUrl, body.certificateId.value, "approve"),
                            ActionLink(baseUrl, body.certificateId.value, "reject")))
      && resp == (if sendOk then RequestSent else Failed)
  {
    baseUrl := "";
    sent := None;
    if !Truthy(body.to) || !Truthy(body.certificateId) {
      return MissingFields, baseUrl, sent;
    }
    if !storeUp {
      return Failed, baseUrl, sent;
    }
    var id := body.certificateId.value;
    requests.UpsertPending(id, body.certificateNo, now);
    baseUrl := ResolveBaseUrl(env);
    var approveLink := ActionLink(baseUrl, id, "approve");
    var rejectLink := ActionLink(baseUrl, id, "reject");
    sent := Some(Email(body.to.value, body.subject, body.text, approveLink, rejectLink));
    resp := if sendOk then RequestSent else Failed;
  }
}
