/** The certificate record as the listing, the generator and the client hooks see it
    (`ICertificateClient`): a store-assigned identifier, the business key (certificate
    number), the holder's name, the institution (hospital) and the date of issue as text.
    A field the store does not hold is the empty string, which JavaScript treats as falsy
    exactly like `undefined`. */
module Records {
  import opened JsString

  /** A store-assigned identifier (the text of a MongoDB ObjectId). */
  type Id = string

  datatype Certificate = Certificate(id: Id, certificateNo: string, name: string, hospital: string, doi: string)

  /** The four fields of a certificate before the store assigns it an identifier. */
  datatype NewCertificate = NewCertificate(certificateNo: string, name: string, hospital: string, doi: string)

  /** The derived view record: a certificate with its approval flag merged in. */
  datatype CertificateView = CertificateView(cert: Certificate, isApproved: bool)

  /** `/^\d{2}-\d{2}-\d{4}$/.test(s)`: the `DD-MM-YYYY` shape, digits and dashes only. */
  predicate MatchesDoiPattern(s: string) {
    && |s| == 10
    && IsDigit(s[0]) && IsDigit(s[1]) && s[2] == '-'
    && IsDigit(s[3]) && IsDigit(s[4]) && s[5] == '-'
    && IsDigit(s[6]) && IsDigit(s[7]) && IsDigit(s[8]) && IsDigit(s[9])
  }

  /** The day, month and year a `DD-MM-YYYY` string spells. */
  function DoiFields(s: string): (dmy: (nat, nat, nat))
    requires MatchesDoiPattern(s)
    ensures dmy.0 < 100 && dmy.1 < 100 && dmy.2 < 10000
  {
    (DigitValue(s[0]) * 10 + DigitValue(s[1]),
     DigitValue(s[3]) * 10 + DigitValue(s[4]),
     ((DigitValue(s[6]) * 10 + DigitValue(s[7])) * 10 + DigitValue(s[8])) * 10 + DigitValue(s[9]))
  }
}
