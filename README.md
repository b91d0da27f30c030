# Certificate pipeline — a Dafny model

This project models the certificate pipeline of a Next.js administration app. It covers:

- the spreadsheet upload endpoint, which checks the file, resolves the columns, converts each row and
  bulk-inserts the certificates;
- the listing endpoint, which searches, filters by hospital and pages, marks each record as unlocked
  or locked from its approval request, and validates new records;
- the approval-request collection and its two endpoints. One endpoint mails an administrator and
  records a pending request. The other turns the mailed link into an approval or a rejection;
- the PDF generator's data preparation: title-cased names, fallbacks, the drawn date, the program
  lines of the second template, the file name, the loading slot and the outcome;
- the two client hooks. The data hook builds the query strings, fetches pages and export batches,
  sorts, and keeps the selection and page state. The actions hook formats file names, handles the
  selection and the forms, gates the downloads on approval, refuses bulk generation and exports rows.

Each source file is one module. Four shared modules sit beside them:

- `Maybe`: the option type;
- `JsString`: the JavaScript string operations the code relies on. These are `\s`, `\w`, `trim`,
  ASCII case mapping, `String(n)`, `padStart` and `parseInt`;
- `QueryString`: `URLSearchParams` as a list of pairs. Its encoder escapes only the characters that change how a query string splits (see "## Left out");
- `Records`: the certificate record.

Code that changes state in place is modelled as classes:

- the request collection, the certificate collection and `URLSearchParams`;
- the loading slot the generator writes;
- the state of the two hooks.

Everything else is modelled as functions. Each method is tied to a specification function, and the
properties are lemmas about those functions.

The code and the design description disagree in four places. The model follows the code:

- the hospital list of a listing response is taken over the whole collection, not over the filtered
  records (`CertificatesRoute.Listed`);
- the approval endpoint upserts a request row that may not exist yet. The row it creates has no
  certificate number (`CertificateRequestModel.SetStatus`);
- the export request for a bulk PDF sends `ids`, but the listing endpoint never reads that
  parameter. It returns every record that matches the hospital filter
  (`CertificateData.ExportRequestReadByServer`);
- both smart downloads call the generator in bulk mode. Bulk mode never writes the loading slot, so
  the guard on `generatingPdfId` / `generatingPdfV1Id` never fires. `Actions.SmartDownload` leaves the
  slot unchanged, and the constructor starts it empty.

## Model

| member | source | states |
|---|---|---|
| JsString.Trim | app/api/upload/route.ts:126 | the result is the input minus its leading and trailing `\s` run; it neither starts nor ends with white space |
| JsString.TrimEmptyIff | app/api/upload/route.ts:126 | a string trims to empty exactly when every character is white space |
| JsString.ParseIntOfIntToString | app/api/certificates/route.ts:19-20 | `parseInt(String(n), 10)` gives back `n` for every integer |
| JsString.PaddedRoundTrip | app/api/upload/route.ts:30 | `String(n).padStart(w, '0')` has width `w`, is all digits and reads back as `n` when `n < 10^w` |
| JsString.PadStart | app/api/upload/route.ts:30 | `padStart` gives the longer of the text and the width. The text is at the end and the fill before it |
| JsString.IntToString | components/Certificates/hooks/useCertificateData.ts:64-65 | `String(n)` is the decimal numeral of `n`, with a minus sign exactly for a negative `n` |
| JsString.ParseInt | app/api/certificates/route.ts:19-20 | `parseInt` gives `NaN` exactly when no digit follows the leading white space and an optional sign |
| JsString.ParseIntReadsDigitRun | app/api/certificates/route.ts:19-20 | white space, an optional sign and a run of digits parse as that run's value, negated after `-`, whatever follows the run |
| QueryString.Lookup | components/Certificates/hooks/useCertificateData.ts:63-71 | `get(name)` is absent exactly when no entry has that name; when present, it is the value of the first entry with that name |
| QueryString.LookupRemove | components/Certificates/hooks/useCertificateData.ts:109-117 | deleting one name leaves every other name's lookup unchanged |
| QueryString.Remove | components/Certificates/hooks/useCertificateData.ts:117 | `delete` keeps exactly the entries with another name, each as often as it occurred |
| QueryString.RemoveDistributes | components/Certificates/hooks/useCertificateData.ts:117 | `delete` works entry by entry, so the kept entries stay in their original order |
| QueryString.SearchParams.Append | components/Certificates/hooks/useCertificateData.ts:68-70 | `append` adds the pair at the end, and nothing else changes |
| QueryString.SearchParams.Delete | components/Certificates/hooks/useCertificateData.ts:117 | after `delete`, the entries are exactly the old ones with another name |
| QueryString.DecodeEncode | components/Certificates/hooks/useCertificateData.ts:73 | form decoding undoes form encoding for every string |
| QueryString.Encode | components/Certificates/hooks/useCertificateData.ts:73 | an encoded name or value never contains `&`, `=` or `#`, so it cannot split a pair or end the query |
| QueryString.SerializeHasNoHash | components/Certificates/hooks/useCertificateData.ts:73 | `toString()` never produces a `#`, so the whole query reaches the server |
| QueryString.ParseSerializedParam | app/api/certificates/route.ts:16 | the server's parse of one serialised pair gives back the pair |
| QueryString.ParseQueryCons | app/api/certificates/route.ts:16 | the server parses the pieces between `&` one after the other, in order |
| QueryString.ParseSerialize | components/Certificates/hooks/useCertificateData.ts:73 | parsing the serialised query string gives back the same list of pairs |
| QueryString.QueryOfRequestUrl | app/api/certificates/route.ts:15 | the server's `searchParams` of the client's `path?query` URL are exactly the pairs the client serialised |
| CertificateRequestModel.SetStatus | app/api/approve-request/route.ts:20-24 | the upsert sets `status` and `updatedAt`. It keeps an existing row's number and `createdAt`; a created row has no number and `createdAt = now`. Other rows are untouched |
| CertificateRequestModel.EnsurePending | app/api/send-admin-notification/route.ts:20-27 | the upsert writes the number and `updatedAt`. It keeps the status of an existing row; a new row starts locked (the schema default). Other rows are untouched |
| CertificateRequestModel.SetStatusIdempotent | app/api/approve-request/route.ts:20-24 | clicking the same link twice at the same time leaves the same table |
| CertificateRequestModel.SetStatusLastWriterWins | app/api/approve-request/route.ts:20-24 | after approve-then-reject (or the reverse) only the last click decides the gate |
| CertificateRequestModel.SetStatusFrame | app/api/approve-request/route.ts:20-24 | a click changes no other record's gate |
| CertificateRequestModel.EnsurePendingKeepsGates | app/api/send-admin-notification/route.ts:20-27 | asking for approval never changes any gate, so an approved record stays approved |
| CertificateRequestModel.EnsurePendingRowCount | models/CertificateRequest.ts:23 | one row per certificate: a request adds a row only for a new id, and a repeated request adds none |
| CertificateRequestModel.TransitionsKeepTimestamps | models/CertificateRequest.ts:13-20 | both upserts keep every row's `createdAt <= updatedAt <= now` |
| CertificateRequestModel.RequestCollection.UpsertStatus | app/api/approve-request/route.ts:20-24 | the collection's rows become `SetStatus` of the old rows, and the timestamps stay ordered |
| CertificateRequestModel.RequestCollection.UpsertPending | app/api/send-admin-notification/route.ts:20-27 | the collection's rows become `EnsurePending` of the old rows, and the timestamps stay ordered |
| ApproveRequestRoute.Heading | app/api/approve-request/route.ts:31-32 | the page says APPROVED exactly when `action == "approve"`, and REJECTED otherwise |
| ApproveRequestRoute.Get | app/api/approve-request/route.ts:9-48 | a missing `certId` gives 400 with the table unchanged. A store failure gives 500 with the table unchanged. Otherwise the gate is set from `action` and the matching page is returned |
| AdminNotificationRoute.ResolveBaseUrl | app/api/send-admin-notification/route.ts:31-43 | the base URL is the configured app URL unless it is missing or mentions localhost; else `https://` plus `VERCEL_URL`, else `https://` plus `NEXT_PUBLIC_VERCEL_URL`, else `http://localhost:3000` |
| AdminNotificationRoute.ActionLinkRoundTrip | app/api/send-admin-notification/route.ts:46-47 | the approval endpoint reads back the `certId` and `action` that the link carries |
| AdminNotificationRoute.LinksDriveTheApprovalEndpoint | app/api/send-admin-notification/route.ts:46-47 | the approve link makes the approval endpoint approve, and the reject link makes it reject, the same id |
| AdminNotificationRoute.Post | app/api/send-admin-notification/route.ts:10-80 | missing `to` or `certificateId` gives 400 and nothing is stored or sent. Otherwise the pending row is upserted and one mail with both links goes to `to`, and the reply is success or 500 as the mailer answers |
| UploadRoute.IsValidDoi | app/api/upload/route.ts:17-21 | accepts exactly the `DD-MM-YYYY` digit layout |
| UploadRoute.SafeXlsxDateToDoi | app/api/upload/route.ts:24-38 | a date results exactly for a positive serial that decodes to a year after 1900. The result is a valid `DD-MM-YYYY` spelling of that date |
| UploadRoute.FormatDoiSpellsDate | app/api/upload/route.ts:30 | the padded date has the `DD-MM-YYYY` shape and spells the day, month and year |
| UploadRoute.TextValue | app/api/upload/route.ts:126 | an empty cell gives "", and a text cell its trimmed text |
| UploadRoute.DoiValue | app/api/upload/route.ts:126-142 | a numeric cell becomes its converted date or ""; any other cell becomes its trimmed text |
| UploadRoute.FindColumn | app/api/upload/route.ts:91-98 | the first truthy header whose trimmed text equals the wanted one, or none at all |
| UploadRoute.MissingHeaders | app/api/upload/route.ts:100-106 | lists exactly the required headers that have no column; empty exactly when all are found |
| UploadRoute.ResolveColumns | app/api/upload/route.ts:84-106 | all four columns are resolved, each to its first match, or the missing list is reported |
| UploadRoute.ProcessRow | app/api/upload/route.ts:112-161 | a row without a certificate number is rejected. Otherwise it becomes the record of its trimmed cells and its converted date |
| UploadRoute.Queued | app/api/upload/route.ts:112-161 | at most one record per row, each with a non-empty certificate number |
| UploadRoute.FailedRows | app/api/upload/route.ts:163-166 | at most one failure per row |
| UploadRoute.QueuedPlusFailed | app/api/upload/route.ts:112-168 | every data row is either queued or counted as failed |
| UploadRoute.ProcessRows | app/api/upload/route.ts:112-168 | the row loop's insert list and failure count equal `Queued` and `FailedRows`, and they add up to the row count |
| UploadRoute.InsertUnordered | app/api/upload/route.ts:178-197 | the unordered bulk write stores candidates whose number is new, in order. Stored numbers are unique, and every candidate is either stored or a write error |
| UploadRoute.FreshBatchStoredEntirely | app/api/upload/route.ts:178-183 | a batch of distinct new numbers is stored whole, with no write error |
| UploadRoute.CertificateCollection.InsertMany | app/api/upload/route.ts:178-197 | the collection grows by exactly what `InsertUnordered` stores, and certificate numbers stay unique |
| UploadRoute.SummaryAsWritten | app/api/upload/route.ts:199-219 | as written, any write error makes the summary report zero inserted and all rows skipped |
| UploadRoute.SummaryAsWrittenMiscounts | app/api/upload/route.ts:178-219 | a two-row upload with one duplicate stores one record, yet the summary as written reports zero |
| UploadRoute.UploadSummary | app/api/upload/route.ts:199-219 | corrected summary: inserted plus skipped equals the row count, and the skipped rows are the processing failures plus the write errors |
| UploadRoute.UploadSummaryMatchesStore | app/api/upload/route.ts:178-219 | the corrected summary's inserted count is the number of records actually stored |
| UploadRoute.Post | app/api/upload/route.ts:41-226 | the checks run in the source's order: connection, file, size, type, sheet, columns, rows. Each failure has its own response and leaves the store unchanged; for a failed insert (500) that is an assumption, see "## Left out". A successful upload stores `InsertUnordered` and reports `SummaryAsWritten`, as the code does. This equals the corrected summary when there is no write error |
| CertificatesRoute.ReadParams | app/api/certificates/route.ts:16-22 | `all=true` means export. Page and limit are parsed with the defaults 1 and 10, and `q` and `hospital` default to "" |
| CertificatesRoute.Skip | app/api/certificates/route.ts:24 | the skip is 0 for an export, otherwise `(page-1)*limit`, and undefined for an unparsable number |
| CertificatesRoute.CeilDiv | app/api/certificates/route.ts:83 | `Math.ceil(total/limit)`, bracketed for either sign of `limit`; no page count for limit 0 |
| CertificatesRoute.ReportedLimit | app/api/certificates/route.ts:82 | the reported limit is the query limit, or the total when the query was not paged |
| CertificatesRoute.PagesCoverResult | app/api/certificates/route.ts:44-48 | walking the pages `1..totalPages` returns every selected record exactly once, in order |
| CertificatesRoute.PagesAfterLastAreEmpty | app/api/certificates/route.ts:44-48 | a page past `totalPages` is empty |
| CertificatesRoute.Find | app/api/certificates/route.ts:29-48 | the query keeps exactly the records the search and hospital conditions select |
| CertificatesRoute.Filtered | app/api/certificates/route.ts:29-41 | a record is listed exactly when it matches the search (if any) in one of its four fields, case-insensitively, and the hospital (if any) |
| CertificatesRoute.MatchesSearch | app/api/certificates/route.ts:29-37 | an empty search matches every record, which is why the `$or` is added only for a non-empty `q` |
| CertificatesRoute.Hospitals | app/api/certificates/route.ts:54-84 | the offered hospitals are exactly the non-empty hospitals of the stored records |
| CertificatesRoute.HospitalFilterSelectsSomething | app/api/certificates/route.ts:39-84 | every hospital offered in the filter selects at least one record |
| CertificatesRoute.Merge | app/api/certificates/route.ts:66-75 | one view per record, in page order; a record without a request is locked |
| CertificatesRoute.MergeAgreesWithTable | app/api/certificates/route.ts:60-75 | when the fetched request rows are those of the page's ids, each view is unlocked exactly when the request table says so |
| CertificatesRoute.RequestsForRows | app/api/certificates/route.ts:60-63 | the request rows fetched are exactly the table's rows for the listed ids |
| CertificatesRoute.Window | app/api/certificates/route.ts:24-48 | no positive limit returns every selected record. Otherwise at most `limit` records are returned, consecutive from `skip`; a negative or `NaN` skip makes the store fail |
| CertificatesRoute.Listed | app/api/certificates/route.ts:16-85 | the 500 error exactly when the store refuses the window of the selected records. Otherwise a listing whose records are that window, in order. It reports the number of selected records as the total, the requested page, the query limit (or the total when no limit applies), `Math.ceil(total / limit)` pages, and the hospitals of the whole collection |
| CertificatesRoute.ExportReturnsAllSelected | app/api/certificates/route.ts:24-25 | an export returns every selected record and reports their count as the limit; a valid page returns that page's slice |
| CertificatesRoute.ListedRecordsAreStoredAndFlagged | app/api/certificates/route.ts:27-85 | every listed record is stored and matches the search and the hospital filter, and its flag equals its approval status |
| CertificatesRoute.Get | app/api/certificates/route.ts:9-90 | no connection gives 500; otherwise the response is the listing of the query |
| CertificatesRoute.Create | app/api/certificates/route.ts:96-118 | each answer holds exactly when the checks before it pass and its own fails. No connection gives 500. Then a missing field gives 400, then a malformed date gives 400, then a taken number gives the duplicate 400. Otherwise the record is created as sent (201) |
| PdfGenerator.TitleCase | components/Certificates/utils/pdfGenerator.ts:14-19 | lower-cases the text, then upper-cases each word character at the start or after white space |
| PdfGenerator.TitleCaseIdempotent | components/Certificates/utils/pdfGenerator.ts:14-19 | title-casing twice equals title-casing once |
| PdfGenerator.TitleCaseOnlyRecases | components/Certificates/utils/pdfGenerator.ts:14-19 | title-casing changes only letter case |
| PdfGenerator.TitleCaseKeepsSpaces | components/Certificates/utils/pdfGenerator.ts:14-19 | white space and word starts stay where they were |
| PdfGenerator.DrawnDateOfStoredDate | components/Certificates/utils/pdfGenerator.ts:37-39 | a stored `DD-MM-YYYY` date is drawn as `DD/MM/YYYY` with the same digits |
| PdfGenerator.V2TemplateIff | components/Certificates/utils/pdfGenerator.ts:47 | the second-template test holds exactly for `certificate2.pdf` |
| PdfGenerator.Prepare | components/Certificates/utils/pdfGenerator.ts:31-108 | every drawn field is non-empty. The name and hospital, or their placeholders, are drawn title-cased. The number falls back to `NO-ID`. The date, or the default date, is drawn with every dash turned into a slash. The program lines are drawn exactly for the second template |
| PdfGenerator.PreparedNamesOnlyRecased | components/Certificates/utils/pdfGenerator.ts:31-37 | the drawn name and hospital are the stored ones (or the placeholders) with only the case changed |
| PdfGenerator.MissingDateDrawnAsPlaceholder | components/Certificates/utils/pdfGenerator.ts:34 | a record without a date is drawn with `01/01/2025` |
| PdfGenerator.SafePart | components/Certificates/utils/pdfGenerator.ts:123-125 | a file-name part is the trimmed text, or the fallback when that is empty |
| PdfGenerator.FileNameOfRecord | components/Certificates/utils/pdfGenerator.ts:123-125 | the file name is `Name_Hospital.pdf` from the trimmed drawn fields. `Unknown` / `Hospital` appear only for a stored value that is blank but not empty |
| PdfGenerator.LoadingSlot.Set | components/Certificates/utils/pdfGenerator.ts:53-55 | the loading slot takes the value and records it |
| PdfGenerator.Generate | components/Certificates/utils/pdfGenerator.ts:21-155 | bulk mode returns the file (or null) with no alert and never writes the slot. Single mode downloads with a success alert, or alerts the failure. It sets the slot to the id and clears it at the end |
| CertificateData.RequestSortToggles | components/Certificates/hooks/useCertificateData.ts:153-159 | sorting again by the same key flips the direction, and a new key starts ascending |
| CertificateData.TableData.RequestSort | components/Certificates/hooks/useCertificateData.ts:153-159 | the sort becomes the given key, descending exactly when it was that key ascending |
| CertificateData.ListingRequestReadByServer | components/Certificates/hooks/useCertificateData.ts:63-73 | the listing endpoint reads back the page, `PAGE_LIMIT`, the search and the hospital filter the hook sent, as a non-export request |
| CertificateData.ExportRequestReadByServer | components/Certificates/hooks/useCertificateData.ts:98-121 | the endpoint reads every export request as an export with the hook's hospital filter. The search is dropped exactly for a bulk request with ids |
| CertificateData.AfterListingReply | components/Certificates/hooks/useCertificateData.ts:76-90 | one notice is appended, a success exactly for a successful reply. Success copies the records, totals and hospitals; failure leaves them |
| CertificateData.TableData.ReceiveListing | components/Certificates/hooks/useCertificateData.ts:76-90 | the listing fields become `AfterListingReply` of the answer |
| CertificateData.ListingQueryLookups | components/Certificates/hooks/useCertificateData.ts:63-71 | the page request carries the page, `PAGE_LIMIT`, the search and the hospital filter (when set), and no `all` |
| CertificateData.ExportQueryLookups | components/Certificates/hooks/useCertificateData.ts:100-118 | the export request carries `all=true` and the hospital filter; it carries the search unless chosen ids are sent |
| CertificateData.TableData.FetchCertificates | components/Certificates/hooks/useCertificateData.ts:51-95 | resets the page when asked, requests the listing URL of the current page and filters, and applies `AfterListingReply` |
| CertificateData.TableData.FetchForExport | components/Certificates/hooks/useCertificateData.ts:98-134 | requests the export URL. It returns the records of a successful reply, or an empty list and a failure notice |
| CertificateData.TableData.Refresh | components/Certificates/hooks/useCertificateData.ts:136-139 | requests the current page with the current filters, and the listing becomes `AfterListingReply` of the answer. The page stays and the selection is cleared |
| CertificateData.TableData.FiltersChanged | components/Certificates/hooks/useCertificateData.ts:95-148 | the fetch callback depends on the filters, so both effects run. The current page is requested, then page 1, on page 1 as on any other. The listing reflects both answers in order; the table ends on page 1 with nothing selected |
| CertificateData.TableData.ResetToFirstPage | components/Certificates/hooks/useCertificateData.ts:141-148 | clears the selection and requests page 1 exactly once: by the page change when elsewhere, directly when already there |
| CertificateActions.FormatForFilename | components/Certificates/hooks/useCertificateActions.ts:41-48 | `Unknown` for a missing or blank text. Otherwise the cleaned text with each `\w\S*` run capitalised. The result is never empty and holds none of `\ / : * ? " < > \|` |
| CertificateActions.DownloadNameIsSafe | components/Certificates/hooks/useCertificateActions.ts:158-160 | the download name holds no forbidden character, starts with a non-empty name part and `_`, and ends in `.pdf` |
| CertificateActions.CapitaliseRunsCorrect | components/Certificates/hooks/useCertificateActions.ts:45-47 | the scan upper-cases exactly the first character of each `\w\S*` match and lower-cases the rest |
| CertificateActions.Without | components/Certificates/hooks/useCertificateActions.ts:89 | unselecting removes every copy of the id and keeps the other ids with their multiplicity |
| CertificateActions.SelectThenDeselect | components/Certificates/hooks/useCertificateActions.ts:87-90 | selecting an unselected id and then unselecting it restores the selection |
| CertificateActions.WithField | components/Certificates/hooks/useCertificateActions.ts:100 | the edited field takes the value, and the other fields keep theirs |
| CertificateActions.WithFieldUndone | components/Certificates/hooks/useCertificateActions.ts:100 | typing back the old value restores the new-record form |
| CertificateActions.RequestBodyAccepted | components/Certificates/hooks/useCertificateActions.ts:124-134 | the notification endpoint's field check passes on the hook's body exactly when the record has an id |
| CertificateActions.SubjectNamesRequest | components/Certificates/hooks/useCertificateActions.ts:108 | the subject starts with `User Request: <action>` and ends with the certificate number |
| CertificateActions.MailTextListsRecord | components/Certificates/hooks/useCertificateActions.ts:109-122 | the mail starts with the request type and lists the record's name, hospital, number and date of issue |
| CertificateActions.NotifyError | components/Certificates/hooks/useCertificateActions.ts:137-147 | an answer from the endpoint always gives a non-empty message: the 400 answer's fixed text, otherwise the `error` text the answer carries, else a fallback. A network failure reports its own message |
| CertificateActions.ReplyNotice | components/Certificates/hooks/useCertificateActions.ts:139-148 | the closing notice is a success exactly when the endpoint reports the mail sent |
| CertificateActions.ExportRows | components/Certificates/hooks/useCertificateActions.ts:194-201 | row `k` is numbered `k+1` and copies the record's fields. Its status is `Unlocked` exactly for an approved record, and `Locked` otherwise |
| CertificateActions.Actions.HandleSelectOne | components/Certificates/hooks/useCertificateActions.ts:87-90 | ticking appends the id; unticking removes it |
| CertificateActions.Actions.HandleSelectAll | components/Certificates/hooks/useCertificateActions.ts:91-93 | the selection becomes all shown ids in order, or empty |
| CertificateActions.Actions.HandleEdit | components/Certificates/hooks/useCertificateActions.ts:96 | opens the record in the edit form with all of its fields |
| CertificateActions.Actions.HandleChange | components/Certificates/hooks/useCertificateActions.ts:98 | updates one entry of the edit form |
| CertificateActions.Actions.HandleNewCertChange | components/Certificates/hooks/useCertificateActions.ts:100 | updates one field of the new-record form |
| CertificateActions.Actions.NotifyAdmin | components/Certificates/hooks/useCertificateActions.ts:104-149 | posts one approval request for the record and action. It shows the locked notice, then the reply's notice |
| CertificateActions.Actions.SmartDownload | components/Certificates/hooks/useCertificateActions.ts:152-181 | an approved record downloads the prepared certificate under `Name_Hospital.pdf` when generation succeeds. Nothing happens while its slot holds it. Any other record requests approval. The slot is never written |
| CertificateActions.Actions.HandleGeneratePdfV1 | components/Certificates/hooks/useCertificateActions.ts:152-165 | the gate for the first template and `Download (Proctorship)`: nothing happens while its slot holds the approved record, an approved record is downloaded, and any other record requests approval |
| CertificateActions.Actions.HandleGeneratePdfV2 | components/Certificates/hooks/useCertificateActions.ts:168-181 | the gate for the second template and `Download (Training)`: nothing happens while its slot holds the approved record, an approved record is downloaded, and any other record requests approval |
| CertificateActions.Actions.HandleBulkGenerate | components/Certificates/hooks/useCertificateActions.ts:184-185 | always refused, with an error notice |
| CertificateActions.Actions.HandleDownload | components/Certificates/hooks/useCertificateActions.ts:188-208 | announces the fetch and requests the export batch. A failed fetch adds the export-failure notice to the table's notices. With no records nothing is written. Otherwise the sorted rows are written to `certificates_export.<type>` and the count is announced |

## Left out

- The workbook decoder and the date-code decoder are foreign code. The sheet arrives as a list of rows, and the date decoder is a parameter. A workbook that cannot be parsed is not modelled.
- UploadRoute.DoiValue: numeric cells are integers. Fractional date serials and the time of day are not modelled.
- CertificatesRoute.MatchesSearch: the search is a case-insensitive substring match. Regular-expression metacharacters in `q`, and an invalid pattern, are not modelled.
- CertificatesRoute.Hospitals: the hospital list is a set. The order `distinct` returns is not modelled.
- CertificatesRoute.Skip: a negative or unparsable skip is taken to make the store fail (500). The store driver that decides this is not part of this model.
- The approval page is modelled by its heading only; its HTML is left out. The mail is modelled by its fields only; the HTML body and the sender address are left out.
- Concurrency is not modelled: `Promise.all`, overlapping fetches, and React's batching of state updates. `CertificateData.TableData.FiltersChanged` handles its two answers in the order they were requested.
- QueryString.EncodeChar: the encoder escapes only space, `%`, `&`, `=`, `+` and `#`. `URLSearchParams` percent-encodes every character outside letters, digits and `*-._`, for example `/`, `?`, `'` and non-ASCII letters. For a search or hospital holding such characters, the URLs recorded in `requests` differ from the browser's. The round trips are proved for the model's encoder, whose decoder is the server's.
- QueryString.QueryOf: the query is read from after the first `?`, even when a `#` comes before it. The request URLs of the hooks hold neither character before their query.
- Drawing the PDF is not modelled: the template bytes, fonts, text metrics, positions and colours. Whether the template and the fonts can be fetched is a parameter.
- `isLoading`, the `setTimeout` timing and the `onRefresh` callback are left out.
- JsString.ToLowerChar, JsString.ToUpperChar: case mapping covers ASCII letters only. The Unicode case mapping of `toLowerCase` / `toUpperCase` is not modelled.
- `sortCertificates` and `getTodayDoi` come from `components/Certificates/utils/helpers.ts`, which is not part of this model. The first is a function parameter of `HandleDownload`, and the second is a parameter of the `Actions` constructor.
- `XLSX.writeFile` and the browser download are recorded as values (`ExportFile`, `Download`), not performed.
- CertificateActions.Actions.HandleEdit: the boolean `isApproved` entry that `{ ...cert }` copies into the edit form is not one of the form's fields.
- The hooks' handlers that are empty placeholders in the source are not modelled: delete, bulk delete, save and add.
- The JSON parse of a reply that is not JSON is not modelled. A reply is either an answer or a network failure.
- CertificateActions.Actions.HandleDownload: both hooks call the one `showNotification` their caller passes in, but the model keeps two notice lists, `Actions.notices` and `TableData.notices`. The order across the lists is not modelled: the fetching notice lands in the first, and a failed export fetch's notice in the second, although in the source it follows the fetching notice.
- UploadRoute.Post: when the batch insert fails with an error other than duplicate numbers, the route answers 500 and the model leaves the store unchanged. An unordered `insertMany` may already have stored part of the batch then; the source does not say how much, and that part is not modelled.

## Findings

| source | as written | input that shows it | evidently intended | confidence | as-written member | corrected member |
|---|---|---|---|---|---|---|
| app/api/upload/route.ts:178-201 | When `insertMany` (unordered) reports any duplicate, it throws. `insertResult` then keeps `insertedCount: 0`, so the summary reports zero inserted and every row skipped, although the other rows were stored | A sheet with rows `A-1` and `B-1` while `B-1` is already stored: `A-1` is stored, and the summary says 0 inserted, 2 skipped | Count the stored records as inserted, and report the write errors as skipped | not executed | UploadRoute.SummaryAsWrittenMiscounts | UploadRoute.UploadSummaryMatchesStore |
