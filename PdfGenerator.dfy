/** The text preparation of the certificate generator (`components/Certificates/utils/pdfGenerator.ts`):
    what is drawn on the certificate (title-cased name and hospital, the certificate number, the
    date with slashes, and the program lines of the second template), the file name, and the
    generation sequence that sets and clears the caller's loading slot. Fetching the template and
    fonts, the drawing itself and the browser download are outside the model; whether the
    resources could be loaded is a parameter. */
module PdfGenerator {
  import opened Maybe
  import opened JsString
  import opened Records

  // ---------------------------------------------------------------------
  // Title case: `str.toLowerCase().replace(/(?:^|\s)\w/g, m => m.toUpperCase())`.
  // ---------------------------------------------------------------------

  /** Index `i` holds a word character at the start of the text or right after white space:
      exactly the characters the pattern `(?:^|\s)\w` capitalises. */
  predicate StartsWord(s: string, i: int)
    requires 0 <= i < |s|
  {
    IsWordChar(s[i]) && (i == 0 || IsSpace(s[i - 1]))
  }

  /** The global replace as a left-to-right scan of the lower-cased text from index `k`;
      `boundary` records whether a match may begin at `k` (start of text or after white space). */
  function CapitaliseAfterSpace(low: string, k: nat, boundary: bool): (r: string)
    requires k <= |low|
    ensures |r| == |low| - k
    decreases |low| - k
  {
    if k == |low| then []
    else
      var c := low[k];
      [if boundary && IsWordChar(c) then ToUpperChar(c) else c] + CapitaliseAfterSpace(low, k + 1, IsSpace(c))
  }

  /** Started with the right boundary flag, the scan capitalises exactly the word starts. */
  lemma {:induction false} CapitaliseAfterSpaceAt(low: string, k: nat)
    requires k <= |low|
    ensures var r := CapitaliseAfterSpace(low, k, k == 0 || IsSpace(low[k - 1]));
      forall i :: k <= i < |low| ==> r[i - k] == (if StartsWord(low, i) then ToUpperChar(low[i]) else low[i])
    decreases |low| - k
  {
    if k < |low| {
      CapitaliseAfterSpaceAt(low, k + 1);
      var r := CapitaliseAfterSpace(low, k, k == 0 || IsSpace(low[k - 1]));
      var rest := CapitaliseAfterSpace(low, k + 1, IsSpace(low[k]));
      assert r[1..] == rest;
      forall i | k < i < |low|
        ensures r[i - k] == (if StartsWord(low, i) then ToUpperChar(low[i]) else low[i])
      {
        assert r[i - k] == rest[i - (k + 1)];
      }
    }
  }

  /** `toTitleCase`: every word start upper-cased, every other character lower-cased; the empty
      string stays empty and the length never changes. */
  function TitleCase(s: string): (r: string)
    ensures |r| == |s|
    ensures forall i :: 0 <= i < |s| ==> r[i] == (if StartsWord(s, i) then ToUpperChar(s[i]) else ToLowerChar(s[i]))
  {
    if s == "" then ""
    else
      var low := ToLower(s);
      CapitaliseAfterSpaceAt(low, 0);
      LowerKeepsWordStarts(s);
      CapitaliseAfterSpace(low, 0, true)
  }

  lemma LowerKeepsWordStarts(s: string)
    ensures forall i :: 0 <= i < |s| ==> (StartsWord(ToLower(s), i) <==> StartsWord(s, i))
    ensures forall i :: 0 <= i < |s| ==> ToUpperChar(ToLower(s)[i]) == ToUpperChar(s[i])
  {
    forall i | 0 <= i < |s| ensures ToUpperChar(ToLower(s)[i]) == ToUpperChar(s[i]) {
      UpperOfLower(s[i]);
    }
  }

  lemma UpperOfLower(c: char)
    ensures ToUpperChar(ToLowerChar(c)) == ToUpperChar(c)
    ensures ToLowerChar(ToUpperChar(c)) == ToLowerChar(c)
  {
  }

  /** Title case keeps white space where it was, so the word starts do not move. */
  lemma TitleCaseKeepsSpaces(s: string)
    ensures forall i :: 0 <= i < |s| ==> (IsSpace(TitleCase(s)[i]) <==> IsSpace(s[i]))
    ensures forall i :: 0 <= i < |s| ==> (StartsWord(TitleCase(s), i) <==> StartsWord(s, i))
  {
  }

  /** Title-casing twice is title-casing once. */
  lemma TitleCaseIdempotent(s: string)
    ensures TitleCase(TitleCase(s)) == TitleCase(s)
  {
    var t := TitleCase(s);
    TitleCaseKeepsSpaces(s);
    forall i | 0 <= i < |s| ensures TitleCase(t)[i] == t[i] {
      UpperOfLower(s[i]);
      UpperOfLower(t[i]);
    }
  }

  /** Title case changes letters' case and nothing else. */
  lemma TitleCaseOnlyRecases(s: string)
    ensures ToLower(TitleCase(s)) == ToLower(s)
  {
    forall i | 0 <= i < |s| ensures ToLower(TitleCase(s))[i] == ToLower(s)[i] {
      UpperOfLower(s[i]);
    }
  }

  // ---------------------------------------------------------------------
  // What is drawn.
  // ---------------------------------------------------------------------

  const UnknownName: string := "Unknown Name"
  const NoId: string := "NO-ID"
  const UnknownHospital: string := "Unknown Hospital"
  const DefaultDoi: string := "01-01-2025"

  const ProgramName: string := "Robotics Training Program"
  const OperationText: string := "to operate the SSI Mantra Surgical Robotic System"
  const ProviderLineText: string := "provided by Sudhir Srivastava Innovations Pvt. Ltd"
  const StaticLineText: string := "has successfully completed the"

  /** The four program lines, in drawing order. */
  const ProgramLines: seq<string> := [StaticLineText, ProgramName, ProviderLineText, OperationText]

  /** `value || fallback` for a string field. */
  function OrElse(value: string, fallback: string): string {
    if value == "" then fallback else value
  }

  /** `doi.replace(/-/g, '/')`. */
  function DashesToSlashes(s: string): (r: string)
    ensures |r| == |s|
    ensures forall i :: 0 <= i < |s| ==> r[i] == (if s[i] == '-' then '/' else s[i])
  {
    seq(|s|, i requires 0 <= i < |s| => if s[i] == '-' then '/' else s[i])
  }

  /** A stored `DD-MM-YYYY` date is drawn as `DD/MM/YYYY` with the same digits. */
  lemma DrawnDateOfStoredDate(s: string)
    requires MatchesDoiPattern(s)
    ensures DashesToSlashes(s) == s[..2] + "/" + s[3..5] + "/" + s[6..]
  {
    var r := DashesToSlashes(s);
    var w := s[..2] + "/" + s[3..5] + "/" + s[6..];
    assert |w| == 10;
    forall i | 0 <= i < 10 ensures r[i] == w[i] {
      if i < 2 {
      } else if i == 2 {
      } else if i < 5 {
        assert w[i] == s[3..5][i - 3];
      } else if i == 5 {
      } else {
        assert w[i] == s[6..][i - 6];
      }
    }
  }

  /** The two certificate templates, by file name. */
  datatype Template = Certificate1 | Certificate2

  function TemplateFile(t: Template): string {
    match t
    case Certificate1 => "certificate1.pdf"
    case Certificate2 => "certificate2.pdf"
  }

  /** `template === 'certificate2.pdf'`. */
  predicate IsV2Template(t: Template) {
    TemplateFile(t) == "certificate2.pdf"
  }

  /** Of the two templates, only the second is the V2 template. */
  lemma V2TemplateIff(t: Template)
    ensures IsV2Template(t) <==> t == Certificate2
  {
    if t == Certificate1 {
      assert TemplateFile(t)[11] != "certificate2.pdf"[11];
    }
  }

  /** The text drawn on the first page. */
  datatype Artifact = Artifact(fullName: string, hospitalName: string, certificateNo: string, doi: string,
                               programLines: seq<string>)

  /** The drawn text for a record. Missing fields fall back to placeholders, so no record is
      refused and nothing drawn is blank; the name and hospital are title-cased, every dash of
      the date becomes a slash; the program lines are drawn for the second template only. */
  function Prepare(cert: Certificate, template: Template): (a: Artifact)
    ensures a.fullName != "" && a.hospitalName != "" && a.certificateNo != "" && a.doi != ""
    ensures cert.certificateNo != "" ==> a.certificateNo == cert.certificateNo
    ensures cert.certificateNo == "" ==> a.certificateNo == NoId
    ensures a.fullName == TitleCase(OrElse(cert.name, UnknownName))
    ensures a.hospitalName == TitleCase(OrElse(cert.hospital, UnknownHospital))
    ensures a.doi == DashesToSlashes(OrElse(cert.doi, DefaultDoi))
    ensures '-' !in a.doi
    ensures a.programLines != [] <==> template == Certificate2
    ensures a.programLines != [] ==> a.programLines == ProgramLines
  {
    V2TemplateIff(template);
    assert ProgramLines != [];
    Artifact(TitleCase(OrElse(cert.name, UnknownName)), TitleCase(OrElse(cert.hospital, UnknownHospital)),
             OrElse(cert.certificateNo, NoId), DashesToSlashes(OrElse(cert.doi, DefaultDoi)),
             if IsV2Template(template) then ProgramLines else [])
  }

  /** The drawn name and hospital are the stored ones (or the placeholders) re-cased, nothing
      more. */
  lemma PreparedNamesOnlyRecased(cert: Certificate, template: Template)
    ensures var a := Prepare(cert, template);
      && (cert.name != "" ==> ToLower(a.fullName) == ToLower(cert.name))
      && (cert.name == "" ==> ToLower(a.fullName) == ToLower(UnknownName))
      && (cert.hospital != "" ==> ToLower(a.hospitalName) == ToLower(cert.hospital))
      && (cert.hospital == "" ==> ToLower(a.hospitalName) == ToLower(UnknownHospital))
  {
    TitleCaseOnlyRecases(OrElse(cert.name, UnknownName));
    TitleCaseOnlyRecases(OrElse(cert.hospital, UnknownHospital));
  }

  /** A stored `DD-MM-YYYY` date is drawn as `DD/MM/YYYY` with the same digits; a stored date of
      another shape keeps its length. */
  lemma PreparedDate(cert: Certificate, template: Template)
    ensures var a := Prepare(cert, template);
      && (cert.doi != "" ==> |a.doi| == |cert.doi|)
      && (MatchesDoiPattern(cert.doi) ==> a.doi == cert.doi[..2] + "/" + cert.doi[3..5] + "/" + cert.doi[6..])
  {
    if MatchesDoiPattern(cert.doi) {
      DrawnDateOfStoredDate(cert.doi);
    }
  }

  /** A record with no date is drawn with the placeholder date in slashes. */
  lemma MissingDateDrawnAsPlaceholder(cert: Certificate, template: Template)
    requires cert.doi == ""
    ensures Prepare(cert, template).doi == "01/01/2025"
  {
    assert Prepare(cert, template).doi == DashesToSlashes(DefaultDoi);
    DefaultDateDrawn();
  }

  lemma DefaultDateDrawn()
    ensures DashesToSlashes(DefaultDoi) == "01/01/2025"
  {
    var r := DashesToSlashes(DefaultDoi);
    assert r[2] == '/' && r[5] == '/';
    assert r[0] == '0' && r[1] == '1' && r[3] == '0' && r[4] == '1';
    assert r[6] == '2' && r[7] == '0' && r[8] == '2' && r[9] == '5';
  }

  // ---------------------------------------------------------------------
  // The file name.
  // ---------------------------------------------------------------------

  /** `text.trim() || fallback`. */
  function SafePart(text: string, fallback: string): (r: string)
    ensures Trim(text) != "" ==> r == Trim(text)
    ensures Trim(text) == "" ==> r == fallback
  {
    if Trim(text) != "" then Trim(text) else fallback
  }

  /** `${safeName}_${safeHospital}.pdf`. */
  function FileName(fullName: string, hospitalName: string): string {
    SafePart(fullName, "Unknown") + "_" + SafePart(hospitalName, "Hospital") + ".pdf"
  }

  /** A text whose trim is empty is all white space, and the other way round. */
  lemma TrimmedBlankIff(s: string)
    ensures Trim(s) == "" <==> AllSpace(s)
  {
    TrimEmptyIff(s);
  }

  /** The file name of a record is `name_hospital.pdf` with the drawn name and hospital trimmed.
      Because a missing name was already replaced by `Unknown Name`, the `Unknown` fallback is
      taken exactly for a stored name made of white space; likewise `Hospital`. */
  lemma FileNameOfRecord(cert: Certificate, template: Template)
    ensures var a := Prepare(cert, template);
      FileName(a.fullName, a.hospitalName)
        == (if cert.name != "" && AllSpace(cert.name) then "Unknown" else Trim(a.fullName)) + "_"
         + (if cert.hospital != "" && AllSpace(cert.hospital) then "Hospital" else Trim(a.hospitalName)) + ".pdf"
  {
    BlankOnlyIfStoredBlank(cert.name, UnknownName);
    BlankOnlyIfStoredBlank(cert.hospital, UnknownHospital);
  }

  /** The drawn text of a field with placeholder `placeholder` trims to nothing exactly when the
      stored value is present but blank. */
  lemma BlankOnlyIfStoredBlank(stored: string, placeholder: string)
    requires placeholder != "" && !IsSpace(placeholder[0])
    ensures Trim(TitleCase(OrElse(stored, placeholder))) == "" <==> stored != "" && AllSpace(stored)
  {
    var raw := OrElse(stored, placeholder);
    BlankAfterTitleCase(raw);
    TrimmedBlankIff(TitleCase(raw));
  }

  /** Title case leaves a text blank exactly when it was blank. */
  lemma BlankAfterTitleCase(s: string)
    ensures AllSpace(TitleCase(s)) <==> AllSpace(s)
  {
    TitleCaseKeepsSpaces(s);
  }

  // ---------------------------------------------------------------------
  // The generation sequence.
  // ---------------------------------------------------------------------

  /** The caller's loading slot (`setLoadingId`): the id of the record being generated, if any.
      `history` lists every value written to it. */
  class LoadingSlot {
    var current: Option<Id>
    ghost var history: seq<Option<Id>>

    constructor ()
      ensures current == None && history == []
    {
      current := None;
      history := [];
    }

    method Set(value: Option<Id>)
      modifies this
      ensures current == value && history == old(history) + [value]
    {
      current := value;
      history := history + [value];
    }
  }

  /** The result for bulk callers: the file name and the drawn content standing for the blob. */
  datatype PdfFile = PdfFile(filename: string, content: Artifact)

  /** The three things the generator can return: a file (bulk), nothing (a single download that
      went through) or `null` (a failure). */
  datatype Outcome = Returned(file: PdfFile) | Downloaded | Null

  /** A call of `onAlert(message, isError)`. */
  datatype Alert = Alert(message: string, isError: bool)

  const FailureMessage: string := "Failed to generate PDF. Check console for details."

  /** `generateCertificatePDF`. `resourcesOk` says whether the template and both fonts could be
      fetched and the document built. Only a single (non-bulk) generation touches the loading
      slot: it writes the record's id first and clears it at the end whatever happens. A bulk
      generation returns the file or `null` and raises no alert. */
  method Generate(cert: Certificate, template: Template, slot: LoadingSlot, isBulk: bool, resourcesOk: bool)
    returns (outcome: Outcome, alert: Option<Alert>)
    modifies slot
    ensures isBulk ==> slot.current == old(slot.current) && slot.history == old(slot.history)
    ensures !isBulk ==> slot.current == None && slot.history == old(slot.history) + [Some(cert.id), None]
    ensures var a := Prepare(cert, template);
      var name := FileName(a.fullName, a.hospitalName);
      && (resourcesOk && isBulk ==> outcome == Returned(PdfFile(name, a)) && alert == None)
      && (resourcesOk && !isBulk ==>
            outcome == Downloaded && alert == Some(Alert("Successfully generated and downloaded PDF: " + name, false)))
      && (!resourcesOk ==> outcome == Null && alert == (if isBulk then None else Some(Alert(FailureMessage, true))))
  {
    if !isBulk {
      slot.Set(Some(cert.id));
    }
    var drawn := Prepare(cert, template);
    if !resourcesOk {
      outcome := Null;
      alert := if isBulk then None else Some(Alert(FailureMessage, true));
    } else {
      var fileName := FileName(drawn.fullName, drawn.hospitalName);
      if isBulk {
        outcome := Returned(PdfFile(fileName, drawn));
        alert := None;
      } else {
        outcome := Downloaded;
        alert := Some(Alert("Successfully generated and downloaded PDF: " + fileName, false));
      }
    }
    if !isBulk {
      slot.Set(None);
    }
  }
}
