/** The state of the `ScreenshotAnnotator` page in app/page.tsx as one
    immutable record, and the page's transitions on it: applying the
    extracted dates, `resetForm`, and the payload and filename that
    `handleDownload` builds. Rendering, file reading, the OCR call and the
    browser download itself are not modelled. */
module Annotator {
  import opened Wrappers
  import opened Decimal
  import opened DateExtract
  import ApiService

  /** The page's `useState` fields. */
  datatype Session = Session(
    screenshot: Option<string>,
    extractedText: string,
    issuedDate: Option<Date>,
    expirationDate: Option<Date>,
    isProcessing: bool,
    ocrConfidence: real,
    error: Option<string>,
    dataset: string,
    documentId: int)

  /** `SAMPLE_DATASETS`: the ids and display names offered by the selector. */
  const SampleDatasets: seq<(string, string)> := [
    ("invoices", "Invoices"),
    ("receipts", "Receipts"),
    ("id_cards", "ID Cards"),
    ("passports", "Passports"),
    ("certificates", "Certificates")
  ]

  /** The initial values given to `useState`. */
  const InitialSession: Session := Session(None, "", None, None, false, 0.0, None, "id_cards", 1)

  /** The `setIssuedDate` / `setExpirationDate` calls that
      `extractDatesFromText` makes: a field is overwritten only when the
      extractor decides a date for it. */
  function ApplyExtractedDates(st: Session, text: string): (r: Session)
    ensures r.(issuedDate := st.issuedDate, expirationDate := st.expirationDate) == st
    ensures LocateDates(text).issued.None? ==> r.issuedDate == st.issuedDate
    ensures LocateDates(text).issued.Some? ==> r.issuedDate == LocateDates(text).issued
    ensures LocateDates(text).expiration.None? ==> r.expirationDate == st.expirationDate
    ensures LocateDates(text).expiration.Some? ==> r.expirationDate == LocateDates(text).expiration
  {
    var found := LocateDates(text);
    var st1 := if found.issued.Some? then st.(issuedDate := found.issued) else st;
    if found.expiration.Some? then st1.(expirationDate := found.expiration) else st1
  }

  /** Text without date tokens leaves the whole page state as it was. */
  lemma NoTokensKeepSession(st: Session, text: string)
    requires forall m :: !DateScan.MatchesAt(text, m)
    ensures ApplyExtractedDates(st, text) == st
  {
    NoTokensNoDates(text);
  }

  /** A keyword missing from the text leaves its field as it was, even
      when the text holds dates. */
  lemma MissingKeywordKeepsField(st: Session, text: string)
    ensures (forall q: nat :: !OccursAt(ToLower(text), "issue", q)) ==>
      ApplyExtractedDates(st, text).issuedDate == st.issuedDate
    ensures (forall q: nat :: !OccursAt(ToLower(text), "expir", q)) ==>
      ApplyExtractedDates(st, text).expirationDate == st.expirationDate
  {
    AbsentKeywordLeavesField(text);
  }

  /** `resetForm`: clears the screenshot, text, dates, confidence and
      error; dataset, document id and the processing flag stay. */
  function ResetForm(st: Session): (r: Session)
    ensures r.screenshot == None && r.extractedText == ""
    ensures r.issuedDate == None && r.expirationDate == None
    ensures r.ocrConfidence == 0.0 && r.error == None
    ensures r.dataset == st.dataset && r.documentId == st.documentId && r.isProcessing == st.isProcessing
  {
    st.(screenshot := None, extractedText := "", issuedDate := None, expirationDate := None,
        ocrConfidence := 0.0, error := None)
  }

  /** Resetting twice is resetting once, and a reset never changes which
      document is selected. */
  lemma ResetIdempotent(st: Session)
    ensures ResetForm(ResetForm(st)) == ResetForm(st)
    ensures ResetForm(st).(dataset := InitialSession.dataset, documentId := InitialSession.documentId,
                           isProcessing := InitialSession.isProcessing) == InitialSession
  {
  }

  // ---------------------------------------------------------------------
  // handleDownload

  /** The object passed to `JSON.stringify`; `null` is `None`. */
  datatype AnnotatedData = AnnotatedData(
    dataset: string,
    documentId: int,
    extractedText: string,
    issuedDate: Option<string>,
    expirationDate: Option<string>,
    ocrConfidence: real,
    timestamp: string)

  datatype Download = Download(payload: AnnotatedData, filename: string)

  const FilenameSuffix: string := "_annotated.json"

  /** `${selectedDataset}_${documentId}_annotated.json`. */
  function Filename(dataset: string, documentId: int): string {
    dataset + "_" + IntToString(documentId) + FilenameSuffix
  }

  /** Offset of the last occurrence of c in s. */
  function LastIndexOf(s: string, c: char): (r: Option<nat>)
    ensures r.Some? ==> r.value < |s| && s[r.value] == c
    ensures forall j :: 0 <= j < |s| && (r.None? || r.value < j) ==> s[j] != c
  {
    if s == [] then None
    else if s[|s| - 1] == c then Some(|s| - 1)
    else LastIndexOf(s[..|s| - 1], c)
  }

  /** Reads dataset and document id back from a download filename: drop
      the suffix and split at the last underscore, since a dataset id may
      itself contain underscores but a printed integer never does. */
  function ParseFilename(f: string): Option<(string, int)> {
    if |f| < |FilenameSuffix| || f[|f| - |FilenameSuffix|..] != FilenameSuffix then None
    else
      var stem := f[..|f| - |FilenameSuffix|];
      match LastIndexOf(stem, '_')
      case None => None
      case Some(k) =>
        match ParseInt(stem[k + 1..])
        case None => None
        case Some(n) => Some((stem[..k], n))
  }

  /** The filename determines the dataset and document it was built from. */
  lemma FilenameRoundTrip(dataset: string, documentId: int)
    ensures ParseFilename(Filename(dataset, documentId)) == Some((dataset, documentId))
  {
    var num := IntToString(documentId);
    var stem := dataset + "_" + num;
    var f := Filename(dataset, documentId);
    assert f == stem + FilenameSuffix;
    assert f[|f| - |FilenameSuffix|..] == FilenameSuffix;
    assert f[..|f| - |FilenameSuffix|] == stem;
    IntToStringAlphabet(documentId);
    assert stem[|dataset|] == '_';
    forall j | |dataset| < j < |stem|
      ensures stem[j] != '_'
    {
      assert stem[j] == num[j - |dataset| - 1];
    }
    assert LastIndexOf(stem, '_') == Some(|dataset|);
    assert stem[|dataset| + 1..] == num;
    assert stem[..|dataset|] == dataset;
    ParseIntToString(documentId);
  }

  /** `handleDownload` up to the `JSON.stringify` call: `format` stands for
      date-fns `format(_, "yyyy-MM-dd")` and `now` for
      `new Date().toISOString()`. */
  function HandleDownload(st: Session, format: Date -> string, now: string): (d: Download)
    ensures d.payload.dataset == st.dataset && d.payload.documentId == st.documentId
    ensures d.payload.extractedText == st.extractedText && d.payload.ocrConfidence == st.ocrConfidence
    ensures d.payload.issuedDate.None? <==> st.issuedDate.None?
    ensures st.issuedDate.Some? ==> d.payload.issuedDate == Some(format(st.issuedDate.value))
    ensures d.payload.expirationDate.None? <==> st.expirationDate.None?
    ensures st.expirationDate.Some? ==> d.payload.expirationDate == Some(format(st.expirationDate.value))
    ensures d.payload.timestamp == now
    ensures d.filename == st.dataset + "_" + IntToString(st.documentId) + "_annotated.json"
    ensures ParseFilename(d.filename) == Some((st.dataset, st.documentId))
  {
    var payload := AnnotatedData(
      st.dataset,
      st.documentId,
      st.extractedText,
      match st.issuedDate case Some(v) => Some(format(v)) case None => None,
      match st.expirationDate case Some(v) => Some(format(v)) case None => None,
      st.ocrConfidence,
      now);
    FilenameRoundTrip(st.dataset, st.documentId);
    Download(payload, Filename(st.dataset, st.documentId))
  }

  /** After a reset the export carries no dates, no text and confidence 0,
      still under the same filename. */
  lemma ResetThenDownload(st: Session, format: Date -> string, now: string)
    ensures HandleDownload(ResetForm(st), format, now).payload
         == AnnotatedData(st.dataset, st.documentId, "", None, None, 0.0, now)
    ensures HandleDownload(ResetForm(st), format, now).filename
         == HandleDownload(st, format, now).filename
  {
  }

  /** The datasets offered by the selector are exactly the seeded ones,
      and the page starts on one of them. */
  lemma SelectorMatchesSeed()
    ensures (set i | 0 <= i < |SampleDatasets| :: SampleDatasets[i].0) == ApiService.MockDocuments.Keys
    ensures InitialSession.dataset in ApiService.MockDocuments
  {
    ApiService.SeedKeys();
    var ids := set i | 0 <= i < |SampleDatasets| :: SampleDatasets[i].0;
    assert SampleDatasets[0].0 in ids && SampleDatasets[1].0 in ids && SampleDatasets[2].0 in ids;
    assert SampleDatasets[3].0 in ids && SampleDatasets[4].0 in ids;
    assert ids == {"invoices", "receipts", "id_cards", "passports", "certificates"};
  }
}
