/** The table's action handlers (`components/Certificates/hooks/useCertificateActions.ts`): file-name
    formatting, the selection, the edit and new-record forms, the approval gate in front of the two
    certificate downloads (download when approved, otherwise ask the administrator), the refusal of
    bulk generation, and the export row mapping. The answers of the generator, the notification
    endpoint and the export fetch are parameters. */
module CertificateActions {
  import opened Maybe
  import opened JsString
  import opened Records
  import opened PdfGenerator
  import opened CertificateData
  import AdminNotificationRoute

  // ---------------------------------------------------------------------
  // `formatForFilename`.
  // ---------------------------------------------------------------------

  /** The characters `[\\/:*?"<>|]` that are stripped from a file name. */
  predicate IsForbidden(c: char) {
    c == '\\' || c == '/' || c == ':' || c == '*' || c == '?' || c == '"' || c == '<' || c == '>' || c == '|'
  }

  /** `text.replace(/[\\/:*?"<>|]/g, '')`: the other characters, in order. */
  function StripForbidden(s: string): (r: string)
    ensures |r| <= |s|
    ensures forall c :: c in r <==> c in s && !IsForbidden(c)
  {
    if s == [] then []
    else (if IsForbidden(s[0]) then [] else [s[0]]) + StripForbidden(s[1..])
  }

  /** Whether index `i` continues a `\w\S*` match begun earlier: the character before it is not
      white space and is either a word character or itself inside a match. */
  predicate InRun(s: string, i: nat)
    requires i <= |s|
  {
    i > 0 && !IsSpace(s[i - 1]) && (IsWordChar(s[i - 1]) || InRun(s, i - 1))
  }

  /** Index `i` is where a `\w\S*` match begins: a word character not already inside a match. */
  predicate StartsRun(s: string, i: nat)
    requires i < |s|
  {
    IsWordChar(s[i]) && !InRun(s, i)
  }

  /** The global replace of every `\w\S*` match by `txt.charAt(0).toUpperCase() + txt.substr(1).toLowerCase()`
      as a left-to-right scan from index `k`; `inRun` says whether a match is in progress. */
  function CapitaliseRuns(s: string, k: nat, inRun: bool): (r: string)
    requires k <= |s|
    ensures |r| == |s| - k
    decreases |s| - k
  {
    if k == |s| then []
    else
      var c := s[k];
      if inRun && !IsSpace(c) then [ToLowerChar(c)] + CapitaliseRuns(s, k + 1, true)
      else if IsWordChar(c) then [ToUpperChar(c)] + CapitaliseRuns(s, k + 1, true)
      else [c] + CapitaliseRuns(s, k + 1, false)
  }

  /** Started in the right state, the scan upper-cases each match's first character and
      lower-cases the rest. */
  lemma {:induction false} CapitaliseRunsAt(s: string, k: nat)
    requires k <= |s|
    ensures var r := CapitaliseRuns(s, k, InRun(s, k));
      forall i :: k <= i < |s| ==> r[i - k] == (if StartsRun(s, i) then ToUpperChar(s[i]) else ToLowerChar(s[i]))
    decreases |s| - k
  {
    if k < |s| {
      CapitaliseRunsAt(s, k + 1);
      var r := CapitaliseRuns(s, k, InRun(s, k));
      var rest := CapitaliseRuns(s, k + 1, InRun(s, k + 1));
      assert r[1..] == rest;
      forall i | k < i < |s|
        ensures r[i - k] == (if StartsRun(s, i) then ToUpperChar(s[i]) else ToLowerChar(s[i]))
      {
        assert r[i - k] == rest[i - (k + 1)];
      }
    }
  }

  /** The cleaned text of `formatForFilename`: forbidden characters removed, then trimmed. */
  function CleanForFilename(text: string): (clean: string)
    ensures forall c :: c in clean ==> !IsForbidden(c)
  {
    var stripped := StripForbidden(text);
    var t := Trim(stripped);
    assert forall i :: 0 <= i < |t| ==> t[i] in stripped by {
      var lo := |stripped| - |TrimStart(stripped)|;
      forall i | 0 <= i < |t| ensures t[i] in stripped {
        assert t[i] == stripped[lo + i];
      }
    }
    t
  }

  /** No character of `s` is one a file name cannot hold. */
  predicate Allowed(s: string) {
    forall i :: 0 <= i < |s| ==> !IsForbidden(s[i])
  }

  /** `r` is `s` with the first character of each `\w\S*` match upper-cased and every other
      character lower-cased. */
  predicate RunsCapitalised(s: string, r: string) {
    |r| == |s| && forall i :: 0 <= i < |s| ==> r[i] == (if StartsRun(s, i) then ToUpperChar(s[i]) else ToLowerChar(s[i]))
  }

  /** The scan over a whole allowed text capitalises its runs and stays allowed. */
  lemma CapitaliseRunsCorrect(s: string)
    requires forall c :: c in s ==> !IsForbidden(c)
    ensures RunsCapitalised(s, CapitaliseRuns(s, 0, false))
    ensures Allowed(CapitaliseRuns(s, 0, false))
  {
    var r := CapitaliseRuns(s, 0, false);
    assert !InRun(s, 0);
    CapitaliseRunsAt(s, 0);
    RecasingKeepsAllowed(s);
    forall i | 0 <= i < |s|
      ensures r[i] == (if StartsRun(s, i) then ToUpperChar(s[i]) else ToLowerChar(s[i]))
      ensures !IsForbidden(r[i])
    {
      assert r[i - 0] == (if StartsRun(s, i) then ToUpperChar(s[i]) else ToLowerChar(s[i]));
    }
  }

  /** `formatForFilename(text)`: `Unknown` for a missing text or one with nothing left after
      cleaning; otherwise the cleaned text with each match of `\w\S*` capitalised. The result is
      never empty and never holds a forbidden character. */
  function FormatForFilename(text: string): (r: string)
    ensures r != "" && Allowed(r)
    ensures text == "" || CleanForFilename(text) == "" ==> r == "Unknown"
    ensures text != "" && CleanForFilename(text) != "" ==> RunsCapitalised(CleanForFilename(text), r)
  {
    if text == "" then UnknownPart()
    else
      var clean := CleanForFilename(text);
      if clean == "" then UnknownPart()
      else
        CapitaliseRunsCorrect(clean);
        CapitaliseRuns(clean, 0, false)
  }

  /** The placeholder `Unknown`, which holds no forbidden character. */
  function UnknownPart(): (r: string)
    ensures r == "Unknown" && Allowed(r)
  {
    var r := "Unknown";
    assert forall i :: 0 <= i < |r| ==> r[i] in {'U', 'n', 'k', 'o', 'w'};
    r
  }

  /** Changing the case of an allowed character never yields a forbidden one. */
  lemma RecasingKeepsAllowed(s: string)
    requires forall c :: c in s ==> !IsForbidden(c)
    ensures forall i :: 0 <= i < |s| ==> !IsForbidden(ToUpperChar(s[i])) && !IsForbidden(ToLowerChar(s[i]))
  {
    forall i | 0 <= i < |s|
      ensures !IsForbidden(ToUpperChar(s[i])) && !IsForbidden(ToLowerChar(s[i]))
    {
      assert s[i] in s;
    }
  }

  /** The name the gate gives a downloaded certificate: `${safeName}_${safeHospital}.pdf`. */
  function DownloadName(cert: Certificate): string {
    FormatForFilename(cert.name) + "_" + FormatForFilename(cert.hospital) + ".pdf"
  }

  /** A download name is a usable file name: it holds no forbidden character, it starts with
      the (never empty) name part and an underscore, and it ends in `.pdf`. */
  lemma DownloadNameIsSafe(cert: Certificate)
    ensures Allowed(DownloadName(cert))
    ensures EndsWith(DownloadName(cert), ".pdf")
    ensures FormatForFilename(cert.name) != "" && OccursAt(DownloadName(cert), FormatForFilename(cert.name) + "_", 0)
  {
    JoinedNameIsSafe(FormatForFilename(cert.name), FormatForFilename(cert.hospital));
  }

  /** `${a}_${b}.pdf` of two allowed parts. */
  lemma JoinedNameIsSafe(a: string, b: string)
    requires Allowed(a) && Allowed(b)
    ensures Allowed(a + "_" + b + ".pdf")
    ensures EndsWith(a + "_" + b + ".pdf", ".pdf")
    ensures OccursAt(a + "_" + b + ".pdf", a + "_", 0)
  {
    var sep, ext := "_", ".pdf";
    assert Allowed(sep) by {
      assert sep[0] == '_';
    }
    PdfExtensionAllowed();
    AllowedConcat(a, sep);
    AllowedConcat(a + sep, b);
    AllowedConcat(a + sep + b, ext);
    var r := a + sep + b + ext;
    assert r[|r| - |ext|..] == ext;
    assert r[0..|a + sep|] == a + sep;
  }

  lemma PdfExtensionAllowed()
    ensures Allowed(".pdf")
  {
    var ext := ".pdf";
    assert !IsForbidden(ext[0]) && !IsForbidden(ext[1]) && !IsForbidden(ext[2]) && !IsForbidden(ext[3]);
  }

  lemma AllowedConcat(s: string, t: string)
    requires Allowed(s) && Allowed(t)
    ensures Allowed(s + t)
  {
    forall i | 0 <= i < |s + t| ensures !IsForbidden((s + t)[i]) {
      if i >= |s| {
        assert (s + t)[i] == t[i - |s|];
      }
    }
  }

  // ---------------------------------------------------------------------
  // Selection and forms.
  // ---------------------------------------------------------------------

  /** `prev.filter(sid => sid !== id)`. */
  function Without(ids: seq<Id>, id: Id): (r: seq<Id>)
    ensures id !in r
    ensures forall x :: x != id ==> multiset(r)[x] == multiset(ids)[x]
  {
    if ids == [] then []
    else
      assert ids == [ids[0]] + ids[1..];
      (if ids[0] == id then [] else [ids[0]]) + Without(ids[1..], id)
  }

  /** Filtering goes element by element, so the kept ids stay in their order. */
  lemma {:induction false} WithoutDistributes(a: seq<Id>, b: seq<Id>, id: Id)
    ensures Without(a + b, id) == Without(a, id) + Without(b, id)
  {
    if a != [] {
      assert (a + b)[0] == a[0] && (a + b)[1..] == a[1..] + b;
      WithoutDistributes(a[1..], b, id);
    } else {
      assert a + b == b;
    }
  }

  /** Filtering out an id that is not there changes nothing. */
  lemma {:induction false} WithoutAbsent(ids: seq<Id>, id: Id)
    requires id !in ids
    ensures Without(ids, id) == ids
  {
    if ids != [] {
      assert ids[0] != id && id !in ids[1..];
      WithoutAbsent(ids[1..], id);
    }
  }

  /** Ticking a record and unticking it again restores the selection, provided it was not
      already selected. */
  lemma SelectThenDeselect(ids: seq<Id>, id: Id)
    requires id !in ids
    ensures Without(ids + [id], id) == ids
  {
    WithoutDistributes(ids, [id], id);
    WithoutAbsent(ids, id);
    assert Without([id], id) == [];
  }

  /** `certificates.map(c => c._id)`. */
  function ViewIds(certs: seq<CertificateView>): (ids: seq<Id>)
    ensures |ids| == |certs| && forall k :: 0 <= k < |certs| ==> ids[k] == certs[k].cert.id
  {
    if certs == [] then [] else [certs[0].cert.id] + ViewIds(certs[1..])
  }

  /** The fields of the edit form (`Partial<ICertificateClient>`). */
  datatype EditField = IdField | CertificateNoField | NameField | HospitalField | DoiField

  /** `{ ...cert }`: every text field of the record. */
  function FormOf(cert: Certificate): map<EditField, string> {
    map[IdField := cert.id, CertificateNoField := cert.certificateNo, NameField := cert.name,
        HospitalField := cert.hospital, DoiField := cert.doi]
  }

  /** The fields of the new-record form. */
  datatype NewField = NewCertificateNo | NewName | NewHospital | NewDoi

  function FieldOf(c: NewCertificate, f: NewField): string {
    match f
    case NewCertificateNo => c.certificateNo
    case NewName => c.name
    case NewHospital => c.hospital
    case NewDoi => c.doi
  }

  /** `{ ...prev, [field]: value }`: the one field takes the value, the others keep theirs. */
  function WithField(c: NewCertificate, f: NewField, value: string): (r: NewCertificate)
    ensures FieldOf(r, f) == value
    ensures forall g :: g != f ==> FieldOf(r, g) == FieldOf(c, g)
  {
    match f
    case NewCertificateNo => c.(certificateNo := value)
    case NewName => c.(name := value)
    case NewHospital => c.(hospital := value)
    case NewDoi => c.(doi := value)
  }

  /** Typing the previous value back into a field restores the form. */
  lemma WithFieldUndone(c: NewCertificate, f: NewField, value: string)
    ensures WithField(WithField(c, f, value), f, FieldOf(c, f)) == c
  {
    var r := WithField(WithField(c, f, value), f, FieldOf(c, f));
    assert forall g :: FieldOf(r, g) == FieldOf(c, g);
    assert FieldOf(r, NewCertificateNo) == FieldOf(c, NewCertificateNo) && FieldOf(r, NewName) == FieldOf(c, NewName);
    assert FieldOf(r, NewHospital) == FieldOf(c, NewHospital) && FieldOf(r, NewDoi) == FieldOf(c, NewDoi);
  }

  // ---------------------------------------------------------------------
  // The administrator request.
  // ---------------------------------------------------------------------

  const AdminEmail: string := "puneet.shukla@ssinnovations.org"
  const ProctorshipAction: string := "Download (Proctorship)"
  const TrainingAction: string := "Download (Training)"

  function MailSubject(actionType: string, cert: Certificate): string {
    "User Request: " + actionType + " - " + cert.certificateNo
  }

  /** `lines.join("\n")`. */
  function JoinLines(lines: seq<string>): string {
    if lines == [] then ""
    else if |lines| == 1 then lines[0]
    else lines[0] + "\n" + JoinLines(lines[1..])
  }

  /** The mail body; the template's surrounding line breaks are gone after `trim()`, since its
      first and last lines start and end with text. */
  function MailText(actionType: string, cert: Certificate): string {
    JoinLines(MailLines(actionType, cert))
  }

  /** The lines of the mail template, the record's fields filled in. */
  function MailLines(actionType: string, cert: Certificate): (lines: seq<string>)
    ensures |lines| == 12
    ensures lines[0] == "Request Type: " + actionType
    ensures lines[5] == "Name: " + cert.name && lines[6] == "Hospital: " + cert.hospital
    ensures lines[7] == "Certificate No: " + cert.certificateNo && lines[8] == "DOI: " + cert.doi
  {
    ["Request Type: " + actionType, "Requested By: User System", "", "Certificate Details:",
     "---------------------", "Name: " + cert.name, "Hospital: " + cert.hospital,
     "Certificate No: " + cert.certificateNo, "DOI: " + cert.doi, "---------------------", "",
     "Please approve this request by clicking the link in this email."]
  }

  /** Each line of a joined text occurs in it, at the offset returned. */
  lemma {:induction false} JoinLinesHasLine(lines: seq<string>, k: nat) returns (at: nat)
    requires k < |lines|
    ensures OccursAt(JoinLines(lines), lines[k], at)
  {
    var joined := JoinLines(lines);
    if |lines| == 1 {
      at := 0;
      assert joined[0..|lines[0]|] == lines[0];
    } else {
      var head := lines[0] + "\n";
      var rest := JoinLines(lines[1..]);
      assert joined == head + rest;
      if k == 0 {
        at := 0;
        assert joined[0..|lines[0]|] == lines[0];
      } else {
        var inner := JoinLinesHasLine(lines[1..], k - 1);
        at := |head| + inner;
        assert joined[at..at + |lines[k]|] == rest[inner..inner + |lines[k]|];
      }
    }
  }

  /** The mail names the requested action on its first line and lists the record's name,
      hospital, number and date of issue, each on a line of its own. */
  lemma MailTextListsRecord(actionType: string, cert: Certificate)
    ensures OccursAt(MailText(actionType, cert), "Request Type: " + actionType, 0)
    ensures Includes(MailText(actionType, cert), "Name: " + cert.name)
    ensures Includes(MailText(actionType, cert), "Hospital: " + cert.hospital)
    ensures Includes(MailText(actionType, cert), "Certificate No: " + cert.certificateNo)
    ensures Includes(MailText(actionType, cert), "DOI: " + cert.doi)
  {
    var lines := MailLines(actionType, cert);
    JoinLinesFirst(lines);
    var name := JoinLinesHasLine(lines, 5);
    var hospital := JoinLinesHasLine(lines, 6);
    var number := JoinLinesHasLine(lines, 7);
    var doi := JoinLinesHasLine(lines, 8);
  }

  /** A joined text starts with its first line. */
  lemma JoinLinesFirst(lines: seq<string>)
    requires lines != []
    ensures OccursAt(JoinLines(lines), lines[0], 0)
  {
    var joined := JoinLines(lines);
    if |lines| > 1 {
      assert joined == lines[0] + "\n" + JoinLines(lines[1..]);
    }
    assert joined[0..|lines[0]|] == lines[0];
  }

  /** The JSON body posted to the notification endpoint. */
  function RequestBody(cert: Certificate, actionType: string): AdminNotificationRoute.NotificationBody {
    AdminNotificationRoute.NotificationBody(Some(AdminEmail), MailSubject(actionType, cert), MailText(actionType, cert),
                                            Some(cert.id), cert.certificateNo)
  }

  /** The endpoint accepts the client's request exactly when the record has an id: the
      recipient is always set. */
  lemma RequestBodyAccepted(cert: Certificate, actionType: string)
    ensures var body := RequestBody(cert, actionType);
      (Truthy(body.to) && Truthy(body.certificateId)) <==> cert.id != ""
  {
  }

  /** The subject names the action after the request prefix and ends with the certificate number. */
  lemma SubjectNamesRequest(cert: Certificate, actionType: string)
    ensures OccursAt(MailSubject(actionType, cert), "User Request: " + actionType, 0)
    ensures EndsWith(MailSubject(actionType, cert), cert.certificateNo)
  {
    var subject := MailSubject(actionType, cert);
    var prefix := "User Request: " + actionType;
    assert subject[..|prefix|] == prefix;
    assert subject[|subject| - |cert.certificateNo|..] == cert.certificateNo;
  }

  /** A request for approval the hook posts: the record and the action it asks to unlock. Its
      JSON body is `RequestBody(cert, actionType)`. */
  datatype ApprovalRequest = ApprovalRequest(cert: Certificate, actionType: string)

  /** What the client learns from its request: the endpoint's answer (with the `error` text it
      carried, if any), or a failure before any answer. */
  datatype NotifyReply = Answered(resp: AdminNotificationRoute.Response, error: string) | Unreachable(message: string)

  /** The message of the error the handler ends up reporting; an answer from the endpoint
      always yields a message, the `error` it carried or the fallback. */
  function NotifyError(reply: NotifyReply): (m: string)
    ensures reply.Answered? ==> m != ""
    ensures reply.Answered? && reply.resp != AdminNotificationRoute.MissingFields && reply.error != "" ==> m == reply.error
    ensures reply.Unreachable? ==> m == reply.message
  {
    match reply
    case Answered(resp, error) =>
      if resp == AdminNotificationRoute.MissingFields then "Missing required fields."
      else if error != "" then error else "Failed to send request."
    case Unreachable(message) => message
  }

  const LockedNotice: Notice := Notice("\U{1F512} This action is locked. Sending approval request...", Info)

  /** The notice that closes a request: success only when the endpoint said the mail went out. */
  function ReplyNotice(reply: NotifyReply): (n: Notice)
    ensures n.kind == Success <==> reply.Answered? && reply.resp == AdminNotificationRoute.RequestSent
  {
    if reply.Answered? && reply.resp == AdminNotificationRoute.RequestSent then
      Notice("Request sent to " + AdminEmail + ". Waiting for approval.", Success)
    else
      Notice("Error sending request: " + NotifyError(reply), Error)
  }

  // ---------------------------------------------------------------------
  // Export rows.
  // ---------------------------------------------------------------------

  datatype ExportRow = ExportRow(serialNo: nat, certificateNo: string, name: string, hospital: string, doi: string,
                                 status: string)

  function StatusLabel(isApproved: bool): string {
    if isApproved then "Unlocked" else "Locked"
  }

  /** The spreadsheet rows of the sorted records: row `k` is numbered `k + 1`, copies the record's
      fields and says `Unlocked` exactly for an approved record. */
  function ExportRows(certs: seq<CertificateView>): (rows: seq<ExportRow>)
    ensures |rows| == |certs|
    ensures forall k :: 0 <= k < |certs| ==>
      && rows[k].serialNo == k + 1
      && rows[k].certificateNo == certs[k].cert.certificateNo && rows[k].name == certs[k].cert.name
      && rows[k].hospital == certs[k].cert.hospital && rows[k].doi == certs[k].cert.doi
      && (rows[k].status == "Unlocked" <==> certs[k].isApproved)
      && (rows[k].status == "Locked" <==> !certs[k].isApproved)
  {
    if certs == [] then []
    else
      var last := certs[|certs| - 1];
      ExportRows(certs[..|certs| - 1])
      + [ExportRow(|certs|, last.cert.certificateNo, last.cert.name, last.cert.hospital, last.cert.doi,
                   StatusLabel(last.isApproved))]
  }

  datatype ExportKind = Xlsx | Csv

  function ExportFileName(kind: ExportKind): string {
    match kind
    case Xlsx => "certificates_export.xlsx"
    case Csv => "certificates_export.csv"
  }

  /** A written workbook. */
  datatype ExportFile = ExportFile(filename: string, rows: seq<ExportRow>)

  /** A triggered browser download. */
  datatype Download = Download(filename: string, content: Artifact)

  // ---------------------------------------------------------------------
  // The hook's state and handlers.
  // ---------------------------------------------------------------------

  class Actions {
    /** The table state the hook receives (`selectedIds` and the export fetch). */
    const data: TableData
    var editingId: Option<Id>
    var editFormData: map<EditField, string>
    var newCertificateData: NewCertificate
    /** The loading slots of the two templates (`generatingPdfId`, `generatingPdfV1Id`). */
    const generatingPdf: LoadingSlot
    const generatingPdfV1: LoadingSlot
    /** Every `showNotification` call of this hook, in order. */
    var notices: seq<Notice>
    /** Every approval request posted to the notification endpoint, in order. */
    var adminRequests: seq<ApprovalRequest>
    var downloads: seq<Download>
    var exports: seq<ExportFile>

    ghost predicate Valid()
      reads this
    {
      generatingPdf != generatingPdfV1
    }

    /** The initial state; `today` is the date `getTodayDoi()` gives the new-record form. */
    constructor (data: TableData, today: string)
      ensures Valid()
      ensures this.data == data && editingId == None && editFormData == map[]
      ensures newCertificateData == NewCertificate("", "", "", today)
      ensures generatingPdf.current == None && generatingPdfV1.current == None
      ensures notices == [] && adminRequests == [] && downloads == [] && exports == []
    {
      this.data := data;
      editingId := None;
      editFormData := map[];
      newCertificateData := NewCertificate("", "", "", today);
      generatingPdf := new LoadingSlot();
      generatingPdfV1 := new LoadingSlot();
      notices := [];
      adminRequests := [];
      downloads := [];
      exports := [];
    }

    /** `handleSelectOne(id, checked)`. */
    method HandleSelectOne(id: Id, checked: bool)
      modifies data`selectedIds
      ensures data.selectedIds == if checked then old(data.selectedIds) + [id] else Without(old(data.selectedIds), id)
    {
      if checked {
        data.selectedIds := data.selectedIds + [id];
      } else {
        data.selectedIds := Without(data.selectedIds, id);
      }
    }

    /** `handleSelectAll(checked)` over the records on display. */
    method HandleSelectAll(certificates: seq<CertificateView>, checked: bool)
      modifies data`selectedIds
      ensures data.selectedIds == if checked then ViewIds(certificates) else []
    {
      data.selectedIds := if checked then ViewIds(certificates) else [];
    }

    /** `handleEdit(cert)`: open the record in the edit form. */
    method HandleEdit(cert: Certificate)
      modifies this`editingId, this`editFormData
      ensures editingId == Some(cert.id) && editFormData == FormOf(cert)
    {
      editingId := Some(cert.id);
      editFormData := FormOf(cert);
    }

    /** `handleChange(field, value)`. */
    method HandleChange(field: EditField, value: string)
      modifies this`editFormData
      ensures editFormData == old(editFormData)[field := value]
    {
      editFormData := editFormData[field := value];
    }

    /** `handleNewCertChange(field, value)`. */
    method HandleNewCertChange(field: NewField, value: string)
      modifies this`newCertificateData
      ensures newCertificateData == WithField(old(newCertificateData), field, value)
    {
      newCertificateData := WithField(newCertificateData, field, value);
    }

    /** `handleRestrictedAdminNotify(cert, actionType)`. */
    method NotifyAdmin(cert: Certificate, actionType: string, reply: NotifyReply)
      modifies this`notices, this`adminRequests
      ensures adminRequests == old(adminRequests) + [ApprovalRequest(cert, actionType)]
      ensures notices == old(notices) + [LockedNotice, ReplyNotice(reply)]
    {
      adminRequests := adminRequests + [ApprovalRequest(cert, actionType)];
      notices := notices + [LockedNotice, ReplyNotice(reply)];
    }

    /** The gate shared by both download handlers: an approved record is generated in bulk mode
        (so `slot` is never written) and downloaded under `DownloadName`, unless `slot` already
        holds its id; any other record triggers an administrator request and no file. */
    method SmartDownload(cert: CertificateView, template: Template, slot: LoadingSlot, actionType: string,
                         resourcesOk: bool, reply: NotifyReply)
      modifies this`notices, this`adminRequests, this`downloads, slot
      ensures slot.current == old(slot.current) && slot.history == old(slot.history)
      ensures cert.isApproved && old(slot.current) == Some(cert.cert.id) ==>
        notices == old(notices) && adminRequests == old(adminRequests) && downloads == old(downloads)
      ensures cert.isApproved && old(slot.current) != Some(cert.cert.id) ==>
        && notices == old(notices) && adminRequests == old(adminRequests)
        && downloads == old(downloads) + (if resourcesOk then [Download(DownloadName(cert.cert), Prepare(cert.cert, template))] else [])
      ensures !cert.isApproved ==>
        && downloads == old(downloads)
        && adminRequests == old(adminRequests) + [ApprovalRequest(cert.cert, actionType)]
        && notices == old(notices) + [LockedNotice, ReplyNotice(reply)]
    {
      if cert.isApproved {
        if slot.current == Some(cert.cert.id) {
          return;
        }
        DownloadApproved(cert.cert, template, slot, resourcesOk);
      } else {
        NotifyAdmin(cert.cert, actionType, reply);
      }
    }

    /** The approved branch of the gate: a bulk-mode generation whose file, when there is one,
        is downloaded under `DownloadName`. */
    method DownloadApproved(cert: Certificate, template: Template, slot: LoadingSlot, resourcesOk: bool)
      modifies this`downloads, slot
      ensures slot.current == old(slot.current) && slot.history == old(slot.history)
      ensures downloads == old(downloads) + (if resourcesOk then [Download(DownloadName(cert), Prepare(cert, template))] else [])
    {
      var outcome, _ := Generate(cert, template, slot, true, resourcesOk);
      if outcome.Returned? {
        downloads := downloads + [Download(DownloadName(cert), outcome.file.content)];
      }
    }

    /** `handleGeneratePDF_V1`: the proctorship certificate (first template). */
    method HandleGeneratePdfV1(cert: CertificateView, resourcesOk: bool, reply: NotifyReply)
      requires Valid()
      modifies this`notices, this`adminRequests, this`downloads, generatingPdfV1
      ensures generatingPdfV1.current == old(generatingPdfV1.current)
      ensures generatingPdfV1.history == old(generatingPdfV1.history)
      ensures cert.isApproved && old(generatingPdfV1.current) == Some(cert.cert.id) ==>
        notices == old(notices) && adminRequests == old(adminRequests) && downloads == old(downloads)
      ensures cert.isApproved && old(generatingPdfV1.current) != Some(cert.cert.id) ==>
        && notices == old(notices) && adminRequests == old(adminRequests)
        && downloads == old(downloads) + (if resourcesOk then [Download(DownloadName(cert.cert), Prepare(cert.cert, Certificate1))] else [])
      ensures !cert.isApproved ==>
        && downloads == old(downloads)
        && adminRequests == old(adminRequests) + [ApprovalRequest(cert.cert, ProctorshipAction)]
        && notices == old(notices) + [LockedNotice, ReplyNotice(reply)]
    {
      SmartDownload(cert, Certificate1, generatingPdfV1, ProctorshipAction, resourcesOk, reply);
    }

    /** `handleGeneratePDF_V2`: the training certificate (second template). */
    method HandleGeneratePdfV2(cert: CertificateView, resourcesOk: bool, reply: NotifyReply)
      requires Valid()
      modifies this`notices, this`adminRequests, this`downloads, generatingPdf
      ensures generatingPdf.current == old(generatingPdf.current)
      ensures generatingPdf.history == old(generatingPdf.history)
      ensures cert.isApproved && old(generatingPdf.current) == Some(cert.cert.id) ==>
        notices == old(notices) && adminRequests == old(adminRequests) && downloads == old(downloads)
      ensures cert.isApproved && old(generatingPdf.current) != Some(cert.cert.id) ==>
        && notices == old(notices) && adminRequests == old(adminRequests)
        && downloads == old(downloads) + (if resourcesOk then [Download(DownloadName(cert.cert), Prepare(cert.cert, Certificate2))] else [])
      ensures !cert.isApproved ==>
        && downloads == old(downloads)
        && adminRequests == old(adminRequests) + [ApprovalRequest(cert.cert, TrainingAction)]
        && notices == old(notices) + [LockedNotice, ReplyNotice(reply)]
    {
      SmartDownload(cert, Certificate2, generatingPdf, TrainingAction, resourcesOk, reply);
    }

    /** `handleBulkGeneratePDF_V1` and `handleBulkGeneratePDF_V2`: always refused. */
    method HandleBulkGenerate()
      modifies this`notices
      ensures notices == old(notices) + [Notice("Bulk actions require specific Admin Approval.", Error)]
    {
      notices := notices + [Notice("Bulk actions require specific Admin Approval.", Error)];
    }

    /** `handleDownload(type)`: fetch every record for export; nothing is written when none
        arrive, otherwise the rows of the records sorted by id descending (`sortById`, a helper
        outside this model) are written and counted. */
    method HandleDownload(kind: ExportKind, sortById: seq<CertificateView> -> seq<CertificateView>,
                          searchQuery: string, hospitalFilter: string, reply: Option<CertificatesRoute.ListingResponse>)
      modifies this`notices, this`exports, data`notices, data`requests
      ensures var all := if reply.Some? && reply.value.Listing? then reply.value.data else [];
        && data.requests == old(data.requests) + [ExportUrl(searchQuery, hospitalFilter, false, [])]
        && data.notices == old(data.notices) +
             (if reply.Some? && reply.value.Listing? then []
              else [FetchFailedNotice(reply, "Network error while fetching data for export.",
                                      "Failed to fetch all certificates for export.")])
        && (all == [] ==> exports == old(exports) && notices == old(notices) + [Notice("Fetching all records for export...", Info)])
        && (all != [] ==>
              && exports == old(exports) + [ExportFile(ExportFileName(kind), ExportRows(sortById(all)))]
              && notices == old(notices) + [Notice("Fetching all records for export...", Info),
                                            Notice("Exported " + IntToString(|all|) + " records.", Success)])
    {
      notices := notices + [Notice("Fetching all records for export...", Info)];
      var _, all := data.FetchForExport(false, [], searchQuery, hospitalFilter, reply);
      if |all| == 0 {
        return;
      }
      var rows := ExportRows(sortById(all));
      exports := exports + [ExportFile(ExportFileName(kind), rows)];
      notices := notices + [Notice("Exported " + IntToString(|all|) + " records.", Success)];
    }
  }
}
