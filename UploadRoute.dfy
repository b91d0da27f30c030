/** The spreadsheet ingestion endpoint (`app/api/upload/route.ts`): it checks the uploaded file,
    resolves the four required columns against the header row, turns each data row into a
    certificate or counts it as failed, inserts the certificates in one unordered bulk write and
    reports a summary. The workbook decoder and the date-code decoder are foreign code: the sheet
    arrives as the rows `sheet_to_json(…, { header: 1 })` returns, and the decoder is a parameter. */
module UploadRoute {
  import opened Maybe
  import opened JsString
  import opened Records

  // ---------------------------------------------------------------------
  // The file checks.
  // ---------------------------------------------------------------------

  /** `10 * 1024 * 1024` bytes. */
  const MaxFileSize: nat := 10 * 1024 * 1024

  const XlsxMime: string := "application/vnd.openxmlformats-officedocument.spreadsheetml.sheet"
  const XlsMime: string := "application/vnd.ms-excel"

  /** The uploaded form field `file`: its name, MIME type and size in bytes. */
  datatype UploadedFile = UploadedFile(name: string, mimeType: string, size: nat)

  /** The type check passes on a spreadsheet MIME type or a spreadsheet file name. */
  predicate TypeAccepted(f: UploadedFile) {
    f.mimeType == XlsxMime || f.mimeType == XlsMime || EndsWith(f.name, ".xlsx") || EndsWith(f.name, ".xls")
  }

  // ---------------------------------------------------------------------
  // Cells and the date of issue.
  // ---------------------------------------------------------------------

  /** A cell as `sheet_to_json` delivers it: nothing (`undefined`/`null`), text, a number or a
      boolean. Numbers are whole: a date serial with a time fraction is not modelled. */
  datatype Cell = Blank | Text(text: string) | Number(n: int) | Flag(b: bool)

  type Day = d: nat | 1 <= d <= 31 witness 1
  type Month = m: nat | 1 <= m <= 12 witness 1
  /** The date-code decoder gives up (returns `null`) beyond the year 9999. */
  type Year = y: nat | y <= 9999

  /** What `XLSX.SSF.parse_date_code` returns for a serial: day, month and year. */
  datatype DateCode = DateCode(d: Day, m: Month, y: Year)

  /** The decoder, as a function of the serial; `None` stands for `null` and for a throw. */
  type DateDecoder = int -> Option<DateCode>

  /** `isValidDOI`: a non-empty ten-character string of the form `DD-MM-YYYY`. */
  function IsValidDoi(doi: string): (ok: bool)
    ensures ok <==> MatchesDoiPattern(doi)
  {
    if doi == "" || |doi| != 10 then false else MatchesDoiPattern(doi)
  }

  /** `String(n).padStart(width, '0')`. */
  function Padded(n: nat, width: nat): string {
    PadStart(NatToString(n), width, '0')
  }

  function FormatDoi(date: DateCode): string {
    Padded(date.d, 2) + "-" + Padded(date.m, 2) + "-" + Padded(date.y, 4)
  }

  /** `safeXlsxDateToDoi`: `null` unless the serial is positive and decodes to a year after 1900;
      otherwise a `DD-MM-YYYY` string that passes `isValidDOI` and spells the decoded date. */
  function SafeXlsxDateToDoi(serial: int, decode: DateDecoder): (r: Option<string>)
    ensures r.Some? <==> serial > 0 && decode(serial).Some? && decode(serial).value.y > 1900
    ensures r.Some? ==>
      && |r.value| == 10 && IsValidDoi(r.value)
      && DoiFields(r.value) == (decode(serial).value.d, decode(serial).value.m, decode(serial).value.y)
  {
    if serial > 0 then
      match decode(serial)
      case Some(date) =>
        if date.y > 1900 then
          FormatDoiSpellsDate(date);
          Some(FormatDoi(date))
        else None
      case None => None
    else None
  }

  lemma FormatDoiSpellsDate(date: DateCode)
    ensures MatchesDoiPattern(FormatDoi(date))
    ensures DoiFields(FormatDoi(date)) == (date.d, date.m, date.y)
  {
    assert Pow10(2) == 100 && Pow10(4) == 10000;
    PaddedRoundTrip(date.d, 2);
    PaddedRoundTrip(date.m, 2);
    PaddedRoundTrip(date.y, 4);
    DoiLayout(Padded(date.d, 2), Padded(date.m, 2), Padded(date.y, 4));
  }

  /** `DD + "-" + MM + "-" + YYYY` has the `DD-MM-YYYY` shape and spells the three numbers. */
  lemma DoiLayout(dd: string, mm: string, yyyy: string)
    requires |dd| == 2 && |mm| == 2 && |yyyy| == 4
    requires AllDigits(dd) && AllDigits(mm) && AllDigits(yyyy)
    ensures MatchesDoiPattern(dd + "-" + mm + "-" + yyyy)
    ensures DoiFields(dd + "-" + mm + "-" + yyyy) == (DigitsValue(dd), DigitsValue(mm), DigitsValue(yyyy))
  {
    DoiChars(dd, mm, yyyy);
    TwoDigitsValue(dd);
    TwoDigitsValue(mm);
    FourDigitsValue(yyyy);
  }

  lemma DoiChars(dd: string, mm: string, yyyy: string)
    requires |dd| == 2 && |mm| == 2 && |yyyy| == 4
    ensures var s := dd + "-" + mm + "-" + yyyy;
      && |s| == 10
      && s[0] == dd[0] && s[1] == dd[1] && s[2] == '-'
      && s[3] == mm[0] && s[4] == mm[1] && s[5] == '-'
      && s[6] == yyyy[0] && s[7] == yyyy[1] && s[8] == yyyy[2] && s[9] == yyyy[3]
  {
  }

  lemma TwoDigitsValue(s: string)
    requires |s| == 2 && AllDigits(s)
    ensures DigitsValue(s) == DigitValue(s[0]) * 10 + DigitValue(s[1])
  {
    var head := s[..1];
    assert head[..0] == [] && head[0] == s[0];
    assert DigitsValue(head) == DigitValue(s[0]);
    assert DigitsValue(s) == DigitsValue(head) * 10 + DigitValue(s[1]);
  }

  lemma FourDigitsValue(s: string)
    requires |s| == 4 && AllDigits(s)
    ensures DigitsValue(s) == ((DigitValue(s[0]) * 10 + DigitValue(s[1])) * 10 + DigitValue(s[2])) * 10 + DigitValue(s[3])
  {
    assert s[..3][..2] == s[..2];
    TwoDigitsValue(s[..2]);
  }

  /** `String(rawValue)` for a cell that holds something. */
  function CellString(c: Cell): string
    requires !c.Blank?
  {
    match c
    case Text(s) => s
    case Number(n) => IntToString(n)
    case Flag(b) => if b then "true" else "false"
  }

  /** A text field's value: the trimmed text of the cell, or `""` for an empty cell. */
  function TextValue(c: Cell): (v: string)
    ensures c.Blank? ==> v == ""
    ensures c.Text? ==> v == Trim(c.text)
  {
    if c.Blank? then "" else Trim(CellString(c))
  }

  /** The date of issue: a number is decoded as a date serial, `""` when it cannot be; anything
      else is kept as its trimmed text, with no format check. */
  function DoiValue(c: Cell, decode: DateDecoder): (v: string)
    ensures c.Number? ==> v == "" || (IsValidDoi(v) && SafeXlsxDateToDoi(c.n, decode) == Some(v))
    ensures c.Number? && v == "" ==> SafeXlsxDateToDoi(c.n, decode).None?
    ensures !c.Number? ==> v == TextValue(c)
  {
    match c
    case Number(n) => SafeXlsxDateToDoi(n, decode).GetOr("")
    case _ => TextValue(c)
  }

  // ---------------------------------------------------------------------
  // Column resolution.
  // ---------------------------------------------------------------------

  const CertificateNoHeader: string := "Certificate No."
  const NameHeader: string := "Name"
  const HospitalHeader: string := "Hospital"
  const DoiHeader: string := "DOI"

  /** The keys of `requiredColumns`, in their declared order. */
  const RequiredHeaders: seq<string> := [CertificateNoHeader, NameHeader, HospitalHeader, DoiHeader]

  /** JavaScript truthiness of a cell. */
  predicate CellTruthy(c: Cell) {
    match c
    case Blank => false
    case Text(s) => s != ""
    case Number(n) => n != 0
    case Flag(b) => b
  }

  /** The text a header cell is compared by: its trimmed string when the cell is truthy. */
  function HeaderText(h: Cell): Option<string> {
    if CellTruthy(h) then Some(Trim(CellString(h))) else None
  }

  /** `h && String(h).trim() === header`. */
  predicate HeaderMatches(h: Cell, header: string) {
    HeaderText(h) == Some(header)
  }

  /** `headers.findIndex(…)`: the first column whose header matches. */
  function FindColumn(headers: seq<Cell>, header: string): (r: Option<nat>)
    ensures r.Some? ==> r.value < |headers| && HeaderMatches(headers[r.value], header)
    ensures r.Some? ==> forall j :: 0 <= j < r.value ==> !HeaderMatches(headers[j], header)
    ensures r.None? ==> forall j :: 0 <= j < |headers| ==> !HeaderMatches(headers[j], header)
  {
    var texts := HeaderTexts(headers);
    FirstIndexOf(texts, Some(header), 0)
  }

  /** The compared text of every header cell, in column order. */
  function HeaderTexts(headers: seq<Cell>): (texts: seq<Option<string>>)
    ensures |texts| == |headers|
    ensures forall i :: 0 <= i < |headers| ==> texts[i] == HeaderText(headers[i])
  {
    if headers == [] then [] else [HeaderText(headers[0])] + HeaderTexts(headers[1..])
  }

  /** The first index at or after `start` holding `key`. */
  function FirstIndexOf<T(==)>(xs: seq<T>, key: T, start: nat): (r: Option<nat>)
    requires start <= |xs|
    ensures r.Some? ==> start <= r.value < |xs| && xs[r.value] == key
    ensures r.Some? ==> forall j :: start <= j < r.value ==> xs[j] != key
    ensures r.None? ==> forall j :: start <= j < |xs| ==> xs[j] != key
    decreases |xs| - start
  {
    if start == |xs| then None
    else if xs[start] == key then Some(start)
    else FirstIndexOf(xs, key, start + 1)
  }

  /** The required headers no column matches, in the order given. */
  function MissingHeaders(headers: seq<Cell>, required: seq<string>): (missing: seq<string>)
    ensures |missing| <= |required|
    ensures forall k :: 0 <= k < |missing| ==> missing[k] in required && FindColumn(headers, missing[k]).None?
    ensures forall k :: 0 <= k < |required| && FindColumn(headers, required[k]).None? ==> required[k] in missing
    ensures missing == [] <==> forall k :: 0 <= k < |required| ==> FindColumn(headers, required[k]).Some?
  {
    if required == [] then []
    else
      var rest := MissingHeaders(headers, required[1..]);
      if FindColumn(headers, required[0]).None? then [required[0]] + rest else rest
  }

  /** `columnMap`: where each field lives in a data row. */
  datatype Columns = Columns(certificateNo: nat, name: nat, hospital: nat, doi: nat)

  datatype ColumnResolution = Resolved(columns: Columns) | Unresolved(missing: seq<string>)

  /** The column map, or the headers that could not be resolved. Each resolved column is the
      first one whose trimmed header equals the required text; any unresolved header fails the
      whole resolution and is reported, in required order. */
  function ResolveColumns(headers: seq<Cell>): (r: ColumnResolution)
    ensures r.Resolved? <==> forall k :: 0 <= k < |RequiredHeaders| ==> FindColumn(headers, RequiredHeaders[k]).Some?
    ensures r.Unresolved? ==> r.missing == MissingHeaders(headers, RequiredHeaders) && r.missing != []
    ensures r.Resolved? ==>
      && Some(r.columns.certificateNo) == FindColumn(headers, CertificateNoHeader)
      && Some(r.columns.name) == FindColumn(headers, NameHeader)
      && Some(r.columns.hospital) == FindColumn(headers, HospitalHeader)
      && Some(r.columns.doi) == FindColumn(headers, DoiHeader)
  {
    var missing := MissingHeaders(headers, RequiredHeaders);
    if missing != [] then
      Unresolved(missing)
    else
      assert RequiredHeaders[0] == CertificateNoHeader && RequiredHeaders[1] == NameHeader;
      assert RequiredHeaders[2] == HospitalHeader && RequiredHeaders[3] == DoiHeader;
      Resolved(Columns(
        FindColumn(headers, CertificateNoHeader).value,
        FindColumn(headers, NameHeader).value,
        FindColumn(headers, HospitalHeader).value,
        FindColumn(headers, DoiHeader).value))
  }

  // ---------------------------------------------------------------------
  // Rows.
  // ---------------------------------------------------------------------

  /** `row[index]`: past the end of a short row there is nothing. */
  function CellAt(row: seq<Cell>, index: nat): Cell {
    if index < |row| then row[index] else Blank
  }

  /** One data row: `None` when the certificate number is empty after trimming (the row throws
      and is counted as failed); otherwise the record with every field normalised. The other
      fields may be empty. */
  function ProcessRow(row: seq<Cell>, cols: Columns, decode: DateDecoder): (r: Option<NewCertificate>)
    ensures r.None? <==> TextValue(CellAt(row, cols.certificateNo)) == ""
    ensures r.Some? ==> r.value.certificateNo != ""
    ensures r.Some? ==> r.value == NewCertificate(
      TextValue(CellAt(row, cols.certificateNo)), TextValue(CellAt(row, cols.name)),
      TextValue(CellAt(row, cols.hospital)), DoiValue(CellAt(row, cols.doi), decode))
  {
    var certificateNo := TextValue(CellAt(row, cols.certificateNo));
    if certificateNo == "" then None
    else Some(NewCertificate(certificateNo, TextValue(CellAt(row, cols.name)),
                             TextValue(CellAt(row, cols.hospital)), DoiValue(CellAt(row, cols.doi), decode)))
  }

  /** The records the rows produce, in row order. */
  function Queued(rows: seq<seq<Cell>>, cols: Columns, decode: DateDecoder): (q: seq<NewCertificate>)
    ensures |q| <= |rows|
    ensures forall k :: 0 <= k < |q| ==> q[k].certificateNo != ""
  {
    if rows == [] then []
    else
      var front := Queued(rows[..|rows| - 1], cols, decode);
      match ProcessRow(rows[|rows| - 1], cols, decode)
      case Some(c) => front + [c]
      case None => front
  }

  /** The number of rows that fail processing. */
  function FailedRows(rows: seq<seq<Cell>>, cols: Columns, decode: DateDecoder): (n: nat)
    ensures n <= |rows|
  {
    if rows == [] then 0
    else FailedRows(rows[..|rows| - 1], cols, decode)
         + (if ProcessRow(rows[|rows| - 1], cols, decode).None? then 1 else 0)
  }

  /** Every row is either queued or counted as failed, never both and never neither. */
  lemma {:induction false} QueuedPlusFailed(rows: seq<seq<Cell>>, cols: Columns, decode: DateDecoder)
    ensures |Queued(rows, cols, decode)| + FailedRows(rows, cols, decode) == |rows|
  {
    if rows != [] {
      QueuedPlusFailed(rows[..|rows| - 1], cols, decode);
    }
  }

  /** The row loop: a row that fails is counted and the loop goes on with the next one. */
  method ProcessRows(dataRows: seq<seq<Cell>>, cols: Columns, decode: DateDecoder)
    returns (toInsert: seq<NewCertificate>, failedCount: nat)
    ensures toInsert == Queued(dataRows, cols, decode)
    ensures failedCount == FailedRows(dataRows, cols, decode)
    ensures |toInsert| + failedCount == |dataRows|
    ensures forall k :: 0 <= k < |toInsert| ==> toInsert[k].certificateNo != ""
  {
    toInsert := [];
    failedCount := 0;
    for i := 0 to |dataRows|
      invariant toInsert == Queued(dataRows[..i], cols, decode)
      invariant failedCount == FailedRows(dataRows[..i], cols, decode)
      invariant |toInsert| + failedCount == i
    {
      assert dataRows[..i + 1][..i] == dataRows[..i];
      QueuedPlusFailed(dataRows[..i + 1], cols, decode);
      match ProcessRow(dataRows[i], cols, decode)
      case Some(certificate) =>
        toInsert := toInsert + [certificate];
      case None =>
        failedCount := failedCount + 1;
    }
    assert dataRows[..|dataRows|] == dataRows;
  }

  // ---------------------------------------------------------------------
  // The unordered bulk insert into the certificate collection, whose unique index
  // is the certificate number.
  // ---------------------------------------------------------------------

  /** The certificate numbers of a list of records. */
  function Keys(records: seq<NewCertificate>): (ks: set<string>)
    ensures forall k :: 0 <= k < |records| ==> records[k].certificateNo in ks
    ensures forall no :: no in ks ==> exists k :: 0 <= k < |records| && records[k].certificateNo == no
  {
    set k | 0 <= k < |records| :: records[k].certificateNo
  }

  /** No two records share a certificate number. */
  predicate UniqueKeys(records: seq<NewCertificate>) {
    forall j, k :: 0 <= j < k < |records| ==> records[j].certificateNo != records[k].certificateNo
  }

  /** `insertMany(candidates, { ordered: false })` against a collection already holding the
      numbers `taken`: every candidate is tried in turn; one whose number is taken (already
      stored, or inserted earlier in the same batch) is a write error, the others are stored.
      The result is the stored records and the number of write errors. */
  function InsertUnordered(taken: set<string>, candidates: seq<NewCertificate>): (r: (seq<NewCertificate>, nat))
    ensures |r.0| + r.1 == |candidates|
    ensures UniqueKeys(r.0)
    ensures forall k :: 0 <= k < |r.0| ==> r.0[k].certificateNo !in taken && r.0[k] in candidates
    decreases |candidates|
  {
    if candidates == [] then ([], 0)
    else
      var c := candidates[0];
      if c.certificateNo in taken then
        var rest := InsertUnordered(taken, candidates[1..]);
        (rest.0, rest.1 + 1)
      else
        var rest := InsertUnordered(taken + {c.certificateNo}, candidates[1..]);
        ([c] + rest.0, rest.1)
  }

  /** A batch of fresh, pairwise distinct numbers is stored entirely, without write errors. */
  lemma {:induction false} FreshBatchStoredEntirely(taken: set<string>, candidates: seq<NewCertificate>)
    requires UniqueKeys(candidates)
    requires forall k :: 0 <= k < |candidates| ==> candidates[k].certificateNo !in taken
    ensures InsertUnordered(taken, candidates) == (candidates, 0)
    decreases |candidates|
  {
    if candidates != [] {
      var c := candidates[0];
      FreshBatchStoredEntirely(taken + {c.certificateNo}, candidates[1..]);
      assert [c] + candidates[1..] == candidates;
    }
  }

  /** The certificate collection. */
  class CertificateCollection {
    var records: seq<NewCertificate>

    /** The unique index on the certificate number. */
    ghost predicate Valid()
      reads this
    {
      UniqueKeys(records)
    }

    constructor ()
      ensures Valid() && records == []
    {
      records := [];
    }

    /** The bulk write: stores what `InsertUnordered` admits and reports the write errors. */
    method InsertMany(candidates: seq<NewCertificate>) returns (writeErrors: nat)
      requires Valid()
      modifies this
      ensures Valid()
      ensures var r := InsertUnordered(Keys(old(records)), candidates);
        records == old(records) + r.0 && writeErrors == r.1
    {
      var r := InsertUnordered(Keys(records), candidates);
      forall j, k | 0 <= j < k < |records + r.0|
        ensures (records + r.0)[j].certificateNo != (records + r.0)[k].certificateNo
      {
        if k >= |records| && j < |records| {
          assert records[j].certificateNo in Keys(records);
        }
      }
      records := records + r.0;
      writeErrors := r.1;
    }
  }

  // ---------------------------------------------------------------------
  // The summary.
  // ---------------------------------------------------------------------

  datatype Summary = Summary(totalRows: nat, successfullyInserted: nat, failedToProcess: int, dbErrors: nat)

  /** The summary as the handler computes it. When any candidate is a write error the bulk write
      throws, `insertResult` keeps its initial `insertedCount: 0`, and the records that were
      stored are reported as skipped. */
  function SummaryAsWritten(totalRows: nat, queued: nat, writeErrors: nat): (s: Summary)
    ensures s.totalRows == totalRows && s.dbErrors == writeErrors
    ensures writeErrors > 0 ==> s.successfullyInserted == 0 && s.failedToProcess == totalRows
    ensures writeErrors == 0 ==> s.successfullyInserted == queued && s.failedToProcess == totalRows - queued
  {
    var insertedCount := if writeErrors > 0 then 0 else queued;
    Summary(totalRows, insertedCount, totalRows - insertedCount, writeErrors)
  }

  /** Two rows, one new and one whose number is already stored: one record is stored, yet the
      summary as written reports none inserted and both rows skipped. */
  lemma SummaryAsWrittenMiscounts()
    ensures var taken := {"B-1"};
      var candidates := [NewCertificate("A-1", "", "", ""), NewCertificate("B-1", "", "", "")];
      var r := InsertUnordered(taken, candidates);
      && |r.0| == 1
      && SummaryAsWritten(2, |candidates|, r.1).successfullyInserted == 0
      && SummaryAsWritten(2, |candidates|, r.1).failedToProcess == 2
  {
    var taken := {"B-1"};
    var a, b := NewCertificate("A-1", "", "", ""), NewCertificate("B-1", "", "", "");
    assert "A-1" != "B-1" by {
      assert "A-1"[0] != "B-1"[0];
    }
    assert [a, b][1..] == [b];
    assert InsertUnordered(taken + {"A-1"}, [b]) == ([], 1) by {
      assert [b][1..] == [];
    }
  }

  /** The summary the handler evidently intends: the stored records are counted as inserted,
      and the skipped rows are the processing failures plus the write errors. */
  function UploadSummary(totalRows: nat, queued: nat, writeErrors: nat): (s: Summary)
    requires writeErrors <= queued <= totalRows
    ensures s.totalRows == totalRows && s.dbErrors == writeErrors
    ensures s.successfullyInserted + s.failedToProcess == totalRows
    ensures s.failedToProcess == (totalRows - queued) + writeErrors
  {
    var insertedCount := queued - writeErrors;
    Summary(totalRows, insertedCount, totalRows - insertedCount, writeErrors)
  }

  /** The corrected summary agrees with the store: `successfullyInserted` is the number of records
      the bulk write stored, and the failures are the processing failures and the write errors. */
  lemma UploadSummaryMatchesStore(rows: seq<seq<Cell>>, cols: Columns, decode: DateDecoder, taken: set<string>)
    ensures var q := Queued(rows, cols, decode);
      var r := InsertUnordered(taken, q);
      var s := UploadSummary(|rows|, |q|, r.1);
      && s.successfullyInserted == |r.0|
      && s.failedToProcess == FailedRows(rows, cols, decode) + r.1
  {
    QueuedPlusFailed(rows, cols, decode);
  }

  // ---------------------------------------------------------------------
  // The handler.
  // ---------------------------------------------------------------------

  datatype UploadResponse =
    | DatabaseUnavailable          // 500 "Database connection failed."
    | NoFile                       // 400 "No file uploaded."
    | TooLarge                     // 413 "File size exceeds 10MB limit."
    | InvalidType                  // 400 "Invalid file type: …"
    | EmptySheet                   // 400 "Excel sheet is empty or only contains headers."
    | MissingColumns(missing: seq<string>)  // 400 "Missing required columns: …"
    | NoValidRows(failed: nat)     // 400 "No valid data rows found to insert. …"
    | Uploaded(summary: Summary)   // 200
    | ServerError                  // 500: the bulk write failed for another reason

  function StatusCode(r: UploadResponse): nat {
    match r
    case DatabaseUnavailable => 500
    case TooLarge => 413
    case Uploaded(_) => 200
    case ServerError => 500
    case _ => 400
  }

  /** The handler. `connected` is the outcome of the connection step, `sheet` the rows of the
      workbook's first sheet, `insertOk` false when the bulk write fails for a reason other than
      write errors (the collection is then left as it was). */
  method Post(store: CertificateCollection, connected: bool, file: Option<UploadedFile>,
              sheet: seq<seq<Cell>>, decode: DateDecoder, insertOk: bool)
    returns (resp: UploadResponse)
    requires store.Valid()
    modifies store
    ensures store.Valid()
    ensures !connected ==> resp == DatabaseUnavailable
    ensures connected && file.None? ==> resp == NoFile
    ensures connected && file.Some? && file.value.size > MaxFileSize ==> resp == TooLarge
    ensures connected && file.Some? && file.value.size <= MaxFileSize && !TypeAccepted(file.value) ==> resp == InvalidType
    ensures connected && file.Some? && file.value.size <= MaxFileSize && TypeAccepted(file.value) && |sheet| < 2
      ==> resp == EmptySheet
    ensures (connected && file.Some? && file.value.size <= MaxFileSize && TypeAccepted(file.value) && |sheet| >= 2
      && ResolveColumns(sheet[0]).Unresolved?) ==> resp == MissingColumns(ResolveColumns(sheet[0]).missing)
    ensures (connected && file.Some? && file.value.size <= MaxFileSize && TypeAccepted(file.value) && |sheet| >= 2
      && ResolveColumns(sheet[0]).Resolved?) ==>
      var cols := ResolveColumns(sheet[0]).columns;
      var dataRows := sheet[1..];
      var q := Queued(dataRows, cols, decode);
      var r := InsertUnordered(Keys(old(store.records)), q);
      && (q == [] ==> resp == NoValidRows(FailedRows(dataRows, cols, decode)))
      && (q != [] && !insertOk ==> resp == ServerError)
      && (q != [] && insertOk ==>
            store.records == old(store.records) + r.0
            && resp == Uploaded(SummaryAsWritten(|dataRows|, |q|, r.1))
            && (r.1 == 0 ==> resp == Uploaded(UploadSummary(|dataRows|, |q|, r.1))))
    ensures !(resp.Uploaded?) ==> store.records == old(store.records)
  {
    if !connected {
      return DatabaseUnavailable;
    }
    if file.None? {
      return NoFile;
    }
    var f := file.value;
    if f.size > MaxFileSize {
      return TooLarge;
    }
    if !TypeAccepted(f) {
      return InvalidType;
    }
    if |sheet| < 2 {
      return EmptySheet;
    }
    var headers := sheet[0];
    var dataRows := sheet[1..];
    var resolution := ResolveColumns(headers);
    if resolution.Unresolved? {
      return MissingColumns(resolution.missing);
    }
    var toInsert, failedCount := ProcessRows(dataRows, resolution.columns, decode);
    if |toInsert| == 0 {
      return NoValidRows(failedCount);
    }
    if !insertOk {
      return ServerError;
    }
    var dbErrors := store.InsertMany(toInsert);
    resp := Uploaded(SummaryAsWritten(|dataRows|, |toInsert|, dbErrors));
  }
}
