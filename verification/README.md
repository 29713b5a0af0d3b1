# Screenshot annotator: date extractor and mock document store

This project is a Dafny model of the two pieces of logic in the
annotator front end that can be stated exactly:

- **The date-proximity extractor** of the `ScreenshotAnnotator` page
  (`extractDatesFromText` in `app/page.tsx`). It scans OCR text for tokens
  of the form `M/D/YYYY`, using the global regular expression
  `(\d{1,2})[/-](\d{1,2})[/-](\d{4})`. It then finds the first
  case-insensitive `"issue"` and `"expir"`, and gives each keyword the
  token whose start offset is nearest to it. The page's two other state
  transitions are modelled with it: `resetForm`, and the payload and
  filename that `handleDownload` builds.
- **The mock document store** (`lib/api-service.ts`). It maps a dataset id
  to a list of `DocumentData` records and provides `fetchDocument`,
  `getMaxDocumentId` and `saveDocumentAnnotations`. The store is a
  `map<string, seq<DocumentData>>` parameter. The repository's seed data
  is one concrete instance, `ApiService.MockDocuments`.

Modules:

| file | module | models |
|---|---|---|
| `wrappers.dfy` | `Wrappers` | `Option`, standing for `null`, `undefined` and `indexOf`'s `-1` |
| `decimal.dfy` | `Decimal` | `Number(...)` on digit strings; how `${n}` prints an integer |
| `date_scan.dfy` | `DateScan` | `text.matchAll(dateRegex)`: backtracking groups, no word boundaries, resuming after each match |
| `date_extract.dfy` | `DateExtract` | `toLowerCase().indexOf`, the nearest-token loop, `split(/[/-]/).map(Number)`, `LocateDates` |
| `date_examples.dfy` | `DateExamples` | worked inputs with their exact results |
| `annotator.dfy` | `Annotator` | the page's state record, extraction update, `resetForm`, `handleDownload` |
| `api_service.dfy` | `ApiService` | `DocumentData`, the seed, `fetchDocument`, `getMaxDocumentId`, `saveDocumentAnnotations` |

Modelling choices:

- The regex is modelled by `MatchAt`. It tries the group lengths in
  backtracking order (2,2), (2,1), (1,2), (1,1). `MatchUnique` proves that at
  most one of these can succeed at any offset, so the order never changes
  the result.
- The selection loop is `NearestFrom`. It starts its running minimum at
  `Number.MAX_VALUE`, written as the exact integer (2^53 − 1)·2^971. It
  replaces the current choice only on a strictly smaller distance, and it
  leaves the field unset when no distance falls below that bound.
  `TokensAreNear` shows that this cannot happen in any string an ECMAScript
  engine can hold, since such strings have at most 2^53 − 1 code units.
- A date is kept as the raw triple `Date(year, month, day)`. Month and day
  are 1-based and never range-checked.
- `LocateDates` says what one extractor run decides for each field.
  `Annotator.ApplyExtractedDates` performs the corresponding `set…` calls:
  a field the extractor leaves undecided keeps its old value.
- `handleDownload` takes two parameters for things the page gets from
  outside: the date formatter (date-fns `format(_, "yyyy-MM-dd")`) and the
  timestamp (`new Date().toISOString()`).

## Model

| member | source | states |
|---|---|---|
| DateScan.DateMatch | app/page.tsx:88 | one element of `matchAll`: `match.index`, the three groups with their separators, and `match[0]` as `Text()`; `WellFormed` is the shape the pattern demands |
| DateScan.MatchAt | app/page.tsx:87 | a match the engine reports at offset p starts at p and has the pattern's shape: 1–2 digits, `/` or `-`, 1–2 digits, `/` or `-`, exactly 4 digits |
| DateScan.MatchAtExact | app/page.tsx:87 | wherever the pattern matches, the backtracking engine reports exactly that match, including in the middle of a longer digit run |
| DateScan.MatchUnique | app/page.tsx:87 | two matches starting at the same offset are identical, so the greedy-with-backtracking choice of group lengths is forced |
| DateScan.Scan | app/page.tsx:88 | `[...text.matchAll(dateRegex)]`: every token is a real match of the pattern; `ScanOrdered`, `ScanComplete` and `ScanEmptyIff` (from offset 0) give the order, completeness and emptiness |
| DateScan.ScanFrom | app/page.tsx:87-88 | every token that `matchAll` yields from lastIndex `from` is a real match starting at or after `from` |
| DateScan.ScanOrdered | app/page.tsx:87-88 | the tokens come in increasing offset order and never overlap; each one starts at or after the end of the previous one |
| DateScan.ScanComplete | app/page.tsx:87-88 | no match is skipped: every offset where the pattern matches lies inside some scanned token |
| DateScan.ScanEmptyIff | app/page.tsx:88-90 | the token list is empty if and only if no substring of the text has the pattern's shape |
| DateScan.SkipNonDigits | app/page.tsx:87 | a stretch of text with no digits contributes no token, because every match starts with a digit |
| DateExtract.IndexFrom | app/page.tsx:92 | `indexOf` returns the first offset at which the keyword occurs, and "not found" only when it occurs nowhere |
| DateExtract.ToLower | app/page.tsx:92 | `text.toLowerCase()` on ASCII letters; `DateExamples.LowerOfLowercase` and `DateExamples.LowerMissing` state that text without upper-case letters is unchanged and that a letter absent in both cases stays absent |
| DateExtract.KeywordOffset | app/page.tsx:92 | `text.toLowerCase().indexOf(keyword)`, with "not found" for -1; `KeywordOffsetIsFirst` and `IndexFrom` state that it is the first occurrence in the lower-cased text |
| DateExtract.KeywordOffsetIsFirst | app/page.tsx:92 | the keyword offset is the first occurrence of the keyword in the lower-cased text |
| DateExtract.NearestFrom | app/page.tsx:95-104 | from the loop invariant, the remaining iterations end on the first token at minimal distance; they keep `null` only if every distance is at least `Number.MAX_VALUE` |
| DateExtract.Nearest | app/page.tsx:95-104 | the chosen token minimises the distance to the keyword, and no earlier token is equally near; nothing is chosen exactly when every distance reaches `Number.MAX_VALUE` |
| DateExtract.FirstNearestUnique | app/page.tsx:98-104 | the first nearest token is unique, so the argmin with earliest-wins tie-break is well defined |
| DateExtract.NearestChoosesFirstNearest | app/page.tsx:98-104 | the first nearest token is the one the loop picks (converse of `Nearest`) |
| DateExtract.TokensAreNear | app/page.tsx:96-100 | in a string of at most 2^53 − 1 code units, every token's distance to the keyword is below `Number.MAX_VALUE`, so a non-empty token list always yields a choice |
| DateExtract.TieGoesToEarliest | app/page.tsx:100-103 | when two tokens are equally near and nearest, the later one is never chosen, because the comparison is strict `<` |
| DateExtract.Split | app/page.tsx:107 | `split(/[/-]/)`; `SplitToken` states that on a matched token it gives back exactly the three groups |
| DateExtract.SplitToken | app/page.tsx:107 | `split(/[/-]/)` on a matched token gives back exactly its three groups, in month, day, year order |
| DateExtract.DateOf | app/page.tsx:107-108 | the date is `(year, month, day)`, with each field read from the token's groups in month/day/year positional order and no range check; month and day are below 100 and the year below 10000 |
| DateExtract.KeywordDate | app/page.tsx:92-109 | one keyword's search, shared by the "issue" block (92-109) and the "expir" block (113-130); `KeywordDateIsNearest` states that it is the date of the first token nearest to the keyword's first occurrence, and `AbsentKeywordLeavesField` that an absent keyword gives none |
| DateExtract.LocateDates | app/page.tsx:85-133 | `extractDatesFromText`; `IssuedIsNearest`, `ExpirationIsNearest`, `AbsentKeywordLeavesField`, `NoTokensNoDates`, `SingleTokenServesBoth` and `LocatedDatesComeFromTokens` characterise what it sets |
| DateExtract.NoTokensNoDates | app/page.tsx:88-90 | text with no date-shaped substring sets neither the issued nor the expiration date |
| DateExtract.AbsentKeywordLeavesField | app/page.tsx:92-114 | if `"issue"` (or `"expir"`) does not occur in the lower-cased text, that field is not set, however many dates the text holds |
| DateExtract.KeywordDateIsNearest | app/page.tsx:92-109 | a keyword's date comes from the first token nearest to the keyword's first occurrence; there is no distance cap |
| DateExtract.IssuedIsNearest | app/page.tsx:92-109 | the issued date is the date of the first token nearest to the first `"issue"` |
| DateExtract.ExpirationIsNearest | app/page.tsx:113-130 | the expiration date is the date of the first token nearest to the first `"expir"` |
| DateExtract.SingleTokenServesBoth | app/page.tsx:98-131 | both searches run over the same full token list: with one token and both keywords present, the token becomes both dates, however far away it is |
| DateExtract.KeywordPresentSetsField | app/page.tsx:90-130 | the issued (expiration) date is set exactly when the text holds at least one token and `"issue"` (`"expir"`) occurs in its lower-cased form; the loop never ends with `closestDate` still null |
| DateExtract.LocatedDatesComeFromTokens | app/page.tsx:106-129 | any date that is set is the month/day/year triple of some date-shaped substring of the text |
| DateExamples.NoBoundaryBefore | app/page.tsx:87 | the text `"123/4/2020"` yields one token, at offset 1, with groups `23`, `4`, `2020` |
| DateExamples.NoBoundaryAfter | app/page.tsx:87 | `"1/2/20201"` yields the token `1/2/2020` |
| DateExamples.MixedSeparators | app/page.tsx:87 | `"7-4/1999"` matches with separators `-` and `/` |
| DateExamples.NoDatesHere | app/page.tsx:88-90 | `"no dates here"` sets neither field |
| DateExamples.ScanStep | app/page.tsx:87-88 | a match at the scan position is reported whole and scanning resumes at its end |
| DateExamples.OneToken | app/page.tsx:87-88 | digit-free text followed by one match scans to exactly that match |
| DateExamples.TwoTokens | app/page.tsx:87-88 | digit-free text, a match, digit-free text and a second match scan to exactly those two matches |
| DateExamples.IdCardScan | app/page.tsx:87 | `"ID CARD issued 01/15/2022 expires 01/15/2025"` scans to the two tokens at offsets 15 and 34 |
| DateExamples.IdCardIssued | app/page.tsx:92 | in that text, the first case-insensitive occurrence of `"issue"` is at offset 8 |
| DateExamples.IdCardExpires | app/page.tsx:113 | in that text, the first case-insensitive occurrence of `"expir"` is at offset 26 |
| DateExamples.UncheckedMonthAndDay | app/page.tsx:107-108 | `"issued 13/45/2022"` sets the issued date to (2022, 13, 45) and leaves the expiration date unset |
| DateExamples.IdCard | app/page.tsx:85-133 | `"ID CARD issued 01/15/2022 expires 01/15/2025"` gives issued (2022, 1, 15) and expiration (2025, 1, 15) |
| Decimal.Value | app/page.tsx:107 | `Number` of a digit string of length n is below 10^n |
| Decimal.IntToString | app/page.tsx:163 | `${documentId}` for an integer id; `ParseIntToString` states that it can be read back and `IntToStringAlphabet` that it holds only digits and a leading minus |
| Decimal.ValueOfNatToString | app/page.tsx:163 | reading back the decimal digits printed for a natural number gives that number |
| Decimal.ParseIntToString | app/page.tsx:163 | reading back how an integer document id is printed gives that id |
| Decimal.IntToStringAlphabet | app/page.tsx:163 | a printed integer consists of digits and at most a leading minus sign, never an underscore |
| Annotator.SampleDatasets | app/page.tsx:22-28 | the five dataset ids of `SAMPLE_DATASETS` with their display names; `SelectorMatchesSeed` states that the ids are the seeded datasets |
| Annotator.ApplyExtractedDates | app/page.tsx:106-130 | the extractor overwrites only the two date fields, each only when it decides a date; every other field of the page state is unchanged |
| Annotator.Session | app/page.tsx:31-41 | the nine `useState` fields of the page, one field each |
| Annotator.InitialSession | app/page.tsx:31-41 | the initial `useState` values; `ResetIdempotent` states how a reset state relates to them and `SelectorMatchesSeed` that its dataset `id_cards` is seeded |
| Annotator.NoTokensKeepSession | app/page.tsx:88-90 | text with no date tokens leaves the whole page state unchanged |
| Annotator.MissingKeywordKeepsField | app/page.tsx:92-114 | a missing keyword leaves its date field at its previous value |
| Annotator.ResetForm | app/page.tsx:135-142 | reset clears the screenshot, sets the text to `""`, clears both dates, sets confidence to 0 and clears the error; dataset, document id and the processing flag are unchanged |
| Annotator.ResetIdempotent | app/page.tsx:135-142 | resetting twice is the same as resetting once, and a reset state differs from the initial state only in dataset, document id and processing flag |
| Annotator.AnnotatedData | app/page.tsx:146-154 | the seven keys of `annotatedData`; a `null` date is `None` |
| Annotator.FilenameRoundTrip | app/page.tsx:163 | the filename `<dataset>_<documentId>_annotated.json` determines its dataset and document id, even when the dataset id contains underscores |
| Annotator.Filename | app/page.tsx:163 | `${selectedDataset}_${documentId}_annotated.json`; `FilenameRoundTrip` states that `ParseFilename` recovers the dataset and id from it |
| Annotator.HandleDownload | app/page.tsx:145-163 | the payload copies dataset, document id, text and confidence unchanged; each date is exported as its formatted value when present and as null when absent; the timestamp is the one given; the filename is exactly `<dataset>_<documentId>_annotated.json` and parses back to the session's dataset and document id |
| Annotator.ResetThenDownload | app/page.tsx:135-163 | after a reset, the export has empty text, null dates and confidence 0, under the same filename as before |
| Annotator.SelectorMatchesSeed | app/page.tsx:22-41 | the dataset ids offered by the selector are exactly the seeded dataset keys, and the initial dataset `id_cards` is one of them |
| ApiService.DocumentData | lib/api-service.ts:4-13 | the eight fields of the interface; each nullable field is an `Option` |
| ApiService.FirstWithId | lib/api-service.ts:141 | `find` returns the first record with the requested id, and nothing only when no record has that id |
| ApiService.FetchDocument | lib/api-service.ts:131-145 | returns null for an unknown dataset; a non-null result has the requested id and is the first such record in list order; null for a known dataset means no record has that id |
| ApiService.MaxId | lib/api-service.ts:165-166 | the maximum of a non-empty list of ids is one of the ids and at least every id |
| ApiService.GetMaxDocumentId | lib/api-service.ts:160-167 | returns 0 for an unknown dataset; for a known one, returns an id present in it that is at least every id in it |
| ApiService.MaxIdIsFetchable | lib/api-service.ts:131-166 | fetching a known dataset's maximum id always returns a record |
| ApiService.SaveDocumentAnnotations | lib/api-service.ts:148-157 | saving always reports success and leaves the store unchanged |
| ApiService.SaveIsNotPersisted | lib/api-service.ts:148-157 | a fetch after a save returns what it returned before the save |
| ApiService.SeedKeys | lib/api-service.ts:16-125 | the seed has exactly the five datasets `invoices`, `receipts`, `id_cards`, `passports` and `certificates` |
| ApiService.MockDocuments | lib/api-service.ts:16-125 | `mockDocuments`; `SeedKeys`, `SeedWellFormed` and the per-dataset max-id lemmas state its keys, its invariant and its largest ids |
| ApiService.SeedWellFormed | lib/api-service.ts:16-125 | each seeded dataset list is non-empty, each record's `datasetId` equals its key, and ids within a dataset are distinct and numbered 1, 2, … in order |
| ApiService.NumberedIdsAreFetchable | lib/api-service.ts:131-166 | in a dataset numbered from 1, every id from 1 to the maximum fetches a record |
| ApiService.NumberedMaxId | lib/api-service.ts:165-166 | in a list numbered 1, 2, … the maximum id is the length of the list |
| ApiService.SeededMaxId | lib/api-service.ts:160-167 | a dataset numbered from 1 reports its length as its maximum id |
| ApiService.InvoicesMaxId | lib/api-service.ts:17-50 | the seeded `invoices` dataset has maximum id 3 |
| ApiService.ReceiptsMaxId | lib/api-service.ts:51-74 | the seeded `receipts` dataset has maximum id 2 |
| ApiService.IdCardsMaxId | lib/api-service.ts:75-98 | the seeded `id_cards` dataset has maximum id 2 |
| ApiService.PassportsMaxId | lib/api-service.ts:99-111 | the seeded `passports` dataset has maximum id 1 |
| ApiService.CertificatesMaxId | lib/api-service.ts:112-124 | the seeded `certificates` dataset has maximum id 1 |
| ApiService.UnknownDataset | lib/api-service.ts:131-167 | on the seed, an unknown dataset has maximum id 0, and `fetchDocument("unknown_dataset", 1)` returns null |

## Left out

- lib/ocr-service.ts: a thin wrapper over the tesseract.js worker, a
  foreign library. The OCR text and confidence enter the model only as
  inputs.
- components/document-flow-graph.tsx: a ReactFlow widget with static styling
  and no logic of its own.
- React plumbing in app/page.tsx: JSX rendering, `useState` hooks,
  `FileReader`, the asynchronous OCR callback in `handleFileUpload`, the
  document-id input handler, and the disabled state of buttons. The page
  state is an immutable `Session` record, and each handler is a function
  from one record to the next.
- JavaScript `Date` normalisation: `new Date(year, month - 1, day)` rolls
  out-of-range months and days over, and it maps a year from 0 to 99 to
  1900–1999. For example, `"issued 01/02/0099"` gives 2 January 1999.
  The model keeps the raw `(year, month, day)` triple instead, which is
  `(99, 1, 2)` there.
- date-fns `format(_, "yyyy-MM-dd")` and `new Date().toISOString()` are
  parameters of `HandleDownload`. `JSON.stringify`, the `Blob`, the object
  URL and the temporary anchor are not modelled. For this reason the export
  round trip is shown for the filename and not for the JSON text.
- Case folding is ASCII only (`LowerChar`). Offsets are counted in Unicode
  scalar values, whereas JavaScript counts UTF-16 code units. The two agree
  on text without astral characters. They also agree only on text without
  characters whose lower-case form has a different length, such as `İ`;
  such a character would shift JavaScript's keyword offsets.
- Dataset ids such as `"constructor"` or `"toString"` exist on every
  JavaScript object, so `mockDocuments[datasetId]` is truthy for them and the
  following `.find` / `.map` call throws. The model treats these ids as
  unknown datasets.
- ApiService.GetMaxDocumentId: requires a known dataset to have at least
  one record. `Math.max()` of an empty list is `-Infinity`, which the seed
  never reaches.
- Decimal.IntToString prints every integer in plain decimal. JavaScript
  switches to exponent notation at 10^21 and loses precision above 2^53;
  document ids that large are not modelled.
- The simulated network delays (`setTimeout`) and the `console.log` in
  lib/api-service.ts are not modelled.
- The session controller with previous/next navigation clamped to
  [1, max id] does not appear in app/page.tsx, so it is not part of this
  model. `ApiService.NumberedIdsAreFetchable` states the store-side fact such
  navigation would rely on.
- A date group that fails to parse cannot occur: every group the regex
  accepts consists of ASCII digits. The invalid-date sentinel is therefore
  unreachable and is not modelled.
