/** The mock document store of lib/api-service.ts: a map from dataset id
    to its list of records, passed in explicitly, with the repository's
    seed data as one concrete instance. The simulated network delays and
    the console logging are not modelled. */
module ApiService {
  import opened Wrappers

  /** One stored annotation record. */
  datatype DocumentData = DocumentData(
    id: int,
    datasetId: string,
    screenshot: Option<string>,
    extractedText: Option<string>,
    ocrConfidence: Option<real>,
    issuedDate: Option<string>,
    expirationDate: Option<string>,
    status: bool)

  type Store = map<string, seq<DocumentData>>

  /** Position of the first record with the given id, as
      `Array.prototype.find` walks the list. */
  function FirstWithId(docs: seq<DocumentData>, id: int): (r: Option<nat>)
    ensures r.Some? ==> r.value < |docs| && docs[r.value].id == id
    ensures forall j :: 0 <= j < |docs| && (r.None? || j < r.value) ==> docs[j].id != id
  {
    if docs == [] then None
    else if docs[0].id == id then Some(0)
    else match FirstWithId(docs[1..], id)
      case None => None
      case Some(k) => Some(k + 1)
  }

  /** `fetchDocument`: null for an unknown dataset, otherwise the first
      record carrying the id, or null when none does. */
  function FetchDocument(store: Store, datasetId: string, documentId: int): (r: Option<DocumentData>)
    ensures datasetId !in store ==> r.None?
    ensures r.Some? ==> datasetId in store && r.value.id == documentId
    ensures r.Some? ==>
      exists i :: 0 <= i < |store[datasetId]| && store[datasetId][i] == r.value
                  && forall j :: 0 <= j < i ==> store[datasetId][j].id != documentId
    ensures r.None? && datasetId in store ==>
      forall j :: 0 <= j < |store[datasetId]| ==> store[datasetId][j].id != documentId
  {
    if datasetId !in store then None
    else match FirstWithId(store[datasetId], documentId)
      case None => None
      case Some(i) => Some(store[datasetId][i])
  }

  /** `Math.max` over the ids of a non-empty list. */
  function MaxId(docs: seq<DocumentData>): (m: int)
    requires |docs| > 0
    ensures exists i :: 0 <= i < |docs| && docs[i].id == m
    ensures forall i :: 0 <= i < |docs| ==> docs[i].id <= m
  {
    if |docs| == 1 then docs[0].id
    else
      var rest := MaxId(docs[1..]);
      if docs[0].id >= rest then docs[0].id else rest
  }

  /** `getMaxDocumentId`: 0 for an unknown dataset, otherwise the largest
      id stored under it. */
  function GetMaxDocumentId(store: Store, datasetId: string): (r: int)
    requires datasetId in store ==> |store[datasetId]| > 0
    ensures datasetId !in store ==> r == 0
    ensures datasetId in store ==>
      (exists i :: 0 <= i < |store[datasetId]| && store[datasetId][i].id == r)
      && forall i :: 0 <= i < |store[datasetId]| ==> store[datasetId][i].id <= r
  {
    if datasetId !in store then 0 else MaxId(store[datasetId])
  }

  /** The largest id of a known dataset always names a record. */
  lemma MaxIdIsFetchable(store: Store, datasetId: string)
    requires datasetId in store && |store[datasetId]| > 0
    ensures FetchDocument(store, datasetId, GetMaxDocumentId(store, datasetId)).Some?
  {
    var docs := store[datasetId];
    var m := GetMaxDocumentId(store, datasetId);
    var i :| 0 <= i < |docs| && docs[i].id == m;
  }

  datatype SaveResult = SaveResult(ok: bool, store: Store)

  /** `saveDocumentAnnotations`: reports success and writes nothing. */
  function SaveDocumentAnnotations(store: Store, document: DocumentData): (r: SaveResult)
    ensures r.ok
    ensures r.store == store
  {
    SaveResult(true, store)
  }

  /** A save is not observable by a later fetch. */
  lemma SaveIsNotPersisted(store: Store, document: DocumentData, datasetId: string, documentId: int)
    ensures FetchDocument(SaveDocumentAnnotations(store, document).store, datasetId, documentId)
         == FetchDocument(store, datasetId, documentId)
  {
  }

  // ---------------------------------------------------------------------
  // The seed data

  const InvoicesSeed: seq<DocumentData> := [
    DocumentData(1, "invoices",
      Some("https://images.unsplash.com/photo-1554224155-6726b3ff858f?q=80&w=1000"),
      Some("INVOICE #1234\nDate: 01/15/2023\nDue Date: 02/15/2023\nAmount: $1,250.00\nBilled To: Acme Corp\nServices: Web Development\nTax: $100.00\nTotal: $1,350.00"),
      Some(92.0), Some("2023-01-15"), Some("2023-02-15"), true),
    DocumentData(2, "invoices",
      Some("https://images.unsplash.com/photo-1618005182384-a83a8bd57fbe?q=80&w=1000"),
      Some("INVOICE #2468\nDate: 03/10/2023\nDue Date: 04/10/2023\nAmount: $2,500.00\nBilled To: XYZ Industries\nServices: Consulting\nTax: $200.00\nTotal: $2,700.00"),
      Some(88.0), Some("2023-03-10"), Some("2023-04-10"), false),
    DocumentData(3, "invoices", None, None, None, None, None, false)
  ]

  const ReceiptsSeed: seq<DocumentData> := [
    DocumentData(1, "receipts",
      Some("https://images.unsplash.com/photo-1572520666412-2cbf6ef4bc22?q=80&w=1000"),
      Some("RECEIPT\nStore: Grocery Market\nDate: 05/20/2023\nItems:\n- Apples $3.99\n- Bread $2.49\n- Milk $3.29\nTotal: $9.77\nPayment Method: Credit Card"),
      Some(95.0), Some("2023-05-20"), None, true),
    DocumentData(2, "receipts",
      Some("https://images.unsplash.com/photo-1563013544-824ae1b704d3?q=80&w=1000"),
      Some("RECEIPT\nStore: Electronics Shop\nDate: 06/15/2023\nItems:\n- Headphones $89.99\n- USB Cable $12.99\nTotal: $102.98\nPayment Method: Debit Card"),
      Some(91.0), Some("2023-06-15"), None, false)
  ]

  const IdCardsSeed: seq<DocumentData> := [
    DocumentData(1, "id_cards",
      Some("https://images.unsplash.com/photo-1633265486064-086b219458ec?q=80&w=1000"),
      Some("IDENTIFICATION CARD\nName: John Smith\nID: 98765432\nIssued Date: 01/15/2022\nExpiration Date: 01/15/2025\nAuthorization Level: A2\nIssuing Authority: Department of Administration"),
      Some(96.0), Some("2022-01-15"), Some("2025-01-15"), true),
    DocumentData(2, "id_cards",
      Some("https://images.unsplash.com/photo-1608236415053-3691791bbffe?q=80&w=1000"),
      Some("IDENTIFICATION CARD\nName: Jane Doe\nID: 12345678\nIssued Date: 03/22/2021\nExpiration Date: 03/22/2024\nAuthorization Level: B1\nIssuing Authority: Department of Administration"),
      Some(94.0), Some("2021-03-22"), Some("2024-03-22"), false)
  ]

  const PassportsSeed: seq<DocumentData> := [
    DocumentData(1, "passports",
      Some("https://images.unsplash.com/photo-1544408945-c5f787e0d4d3?q=80&w=1000"),
      Some("PASSPORT\nName: Robert Johnson\nPassport No: AB123456\nNationality: United States\nDate of Birth: 04/12/1985\nDate of Issue: 07/15/2020\nDate of Expiry: 07/14/2030"),
      Some(97.0), Some("2020-07-15"), Some("2030-07-14"), true)
  ]

  const CertificatesSeed: seq<DocumentData> := [
    DocumentData(1, "certificates",
      Some("https://images.unsplash.com/photo-1589330694653-ded6df03f754?q=80&w=1000"),
      Some("CERTIFICATE OF COMPLETION\nThis certifies that\nMichael Brown\nhas successfully completed\nAdvanced Data Science\nIssued on: 09/30/2023"),
      Some(93.0), Some("2023-09-30"), None, false)
  ]

  /** `mockDocuments`. */
  const MockDocuments: Store := map[
    "invoices" := InvoicesSeed,
    "receipts" := ReceiptsSeed,
    "id_cards" := IdCardsSeed,
    "passports" := PassportsSeed,
    "certificates" := CertificatesSeed
  ]

  /** Every list is non-empty, every record sits under its own dataset,
      and ids are unique within a dataset. */
  predicate WellFormedStore(store: Store) {
    forall ds :: ds in store ==>
      && |store[ds]| > 0
      && (forall i :: 0 <= i < |store[ds]| ==> store[ds][i].datasetId == ds)
      && (forall i, j :: 0 <= i < j < |store[ds]| ==> store[ds][i].id != store[ds][j].id)
  }

  /** Ids 1..n, in order, with no gap. */
  predicate NumberedFromOne(docs: seq<DocumentData>) {
    forall i :: 0 <= i < |docs| ==> docs[i].id == i + 1
  }

  /** One seeded dataset: non-empty, filed under its own name, numbered
      from one. */
  predicate SeededDataset(ds: string, docs: seq<DocumentData>) {
    && |docs| > 0
    && (forall i :: 0 <= i < |docs| ==> docs[i].datasetId == ds)
    && NumberedFromOne(docs)
  }

  /** In a list numbered from one, the largest id is the length. */
  lemma NumberedMaxId(docs: seq<DocumentData>)
    requires |docs| > 0 && NumberedFromOne(docs)
    ensures MaxId(docs) == |docs|
  {
    assert docs[|docs| - 1].id == |docs|;
  }

  /** A dataset numbered from one reports its length as its largest id. */
  lemma SeededMaxId(store: Store, ds: string)
    requires ds in store && SeededDataset(ds, store[ds])
    ensures GetMaxDocumentId(store, ds) == |store[ds]|
  {
    NumberedMaxId(store[ds]);
  }

  lemma InvoicesSeeded()
    ensures SeededDataset("invoices", InvoicesSeed) && |InvoicesSeed| == 3
  {
  }

  lemma ReceiptsSeeded()
    ensures SeededDataset("receipts", ReceiptsSeed) && |ReceiptsSeed| == 2
  {
  }

  lemma IdCardsSeeded()
    ensures SeededDataset("id_cards", IdCardsSeed) && |IdCardsSeed| == 2
  {
  }

  lemma PassportsSeeded()
    ensures SeededDataset("passports", PassportsSeed) && |PassportsSeed| == 1
  {
  }

  lemma CertificatesSeeded()
    ensures SeededDataset("certificates", CertificatesSeed) && |CertificatesSeed| == 1
  {
  }

  /** The five seeded dataset ids. */
  lemma SeedKeys()
    ensures MockDocuments.Keys == {"invoices", "receipts", "id_cards", "passports", "certificates"}
  {
  }

  /** The seed satisfies the store invariant, and each dataset numbers its
      records 1, 2, ... in list order. */
  lemma SeedWellFormed()
    ensures WellFormedStore(MockDocuments)
    ensures forall ds :: ds in MockDocuments ==> NumberedFromOne(MockDocuments[ds])
  {
    InvoicesSeeded();
    ReceiptsSeeded();
    IdCardsSeeded();
    PassportsSeeded();
    CertificatesSeeded();
    forall ds | ds in MockDocuments
      ensures SeededDataset(ds, MockDocuments[ds])
    {
    }
  }

  /** In a store numbered from one, every id between 1 and the maximum
      names a record, so stepping through ids never lands on a gap. */
  lemma NumberedIdsAreFetchable(store: Store, datasetId: string, documentId: int)
    requires datasetId in store && |store[datasetId]| > 0 && NumberedFromOne(store[datasetId])
    requires 1 <= documentId <= GetMaxDocumentId(store, datasetId)
    ensures FetchDocument(store, datasetId, documentId).Some?
  {
    var docs := store[datasetId];
    assert docs[documentId - 1].id == documentId;
  }

  /** The largest id of each seeded dataset. */
  lemma InvoicesMaxId()
    ensures GetMaxDocumentId(MockDocuments, "invoices") == 3
  {
    InvoicesSeeded();
    SeededMaxId(MockDocuments, "invoices");
  }

  lemma ReceiptsMaxId()
    ensures GetMaxDocumentId(MockDocuments, "receipts") == 2
  {
    ReceiptsSeeded();
    SeededMaxId(MockDocuments, "receipts");
  }

  lemma IdCardsMaxId()
    ensures GetMaxDocumentId(MockDocuments, "id_cards") == 2
  {
    IdCardsSeeded();
    SeededMaxId(MockDocuments, "id_cards");
  }

  lemma PassportsMaxId()
    ensures GetMaxDocumentId(MockDocuments, "passports") == 1
  {
    PassportsSeeded();
    SeededMaxId(MockDocuments, "passports");
  }

  lemma CertificatesMaxId()
    ensures GetMaxDocumentId(MockDocuments, "certificates") == 1
  {
    CertificatesSeeded();
    SeededMaxId(MockDocuments, "certificates");
  }

  /** A dataset the seed does not have: no largest id, no record. */
  lemma UnknownDataset()
    ensures GetMaxDocumentId(MockDocuments, "unknown") == 0
    ensures FetchDocument(MockDocuments, "unknown_dataset", 1).None?
  {
    assert "unknown" !in MockDocuments;
    assert "unknown_dataset" !in MockDocuments;
  }
}
