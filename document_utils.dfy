/**
 * Client helpers over documents (`client/src/lib/documentUtils.ts`): file extension labels,
 * thumbnails, display names, dashboard statistics, the expiry caption and per-category counts.
 */
module DocumentUtils {
  import opened Wrappers
  import opened Sequences
  import opened Strings
  import opened Schema
  import opened Utils

  // ---------------------------------------------------------------- file kinds

  const PdfMime := "application/pdf"
  const MsWordMime := "application/msword"
  const DocxMime := "application/vnd.openxmlformats-officedocument.wordprocessingml.document"
  const JpegMime := "image/jpeg"
  const JpgMime := "image/jpg"
  const PngMime := "image/png"

  /** `getFileExtension`: the label for the six MIME types the client knows, else "FILE". */
  function FileExtension(mimeType: string): (ext: string)
    ensures ext in {"PDF", "DOCX", "JPG", "PNG", "FILE"}
    ensures ext == "FILE" <==> mimeType !in {PdfMime, MsWordMime, DocxMime, JpegMime, JpgMime, PngMime}
    ensures ext == "PDF" <==> mimeType == PdfMime
    ensures ext == "DOCX" <==> mimeType == MsWordMime || mimeType == DocxMime
    ensures ext == "JPG" <==> mimeType == JpegMime || mimeType == JpgMime
  {
    match mimeType
    case "application/pdf" => "PDF"
    case "application/msword" => "DOCX"
    case "application/vnd.openxmlformats-officedocument.wordprocessingml.document" => "DOCX"
    case "image/jpeg" => "JPG"
    case "image/jpg" => "JPG"
    case "image/png" => "PNG"
    case _ => "FILE"
  }

  /**
   * `canPreviewInBrowser`: images and PDFs, which are exactly the files that get the PDF or the
   * image icon.
   */
  function CanPreviewInBrowser(mimeType: string): (can: bool)
    ensures can <==> FileIconByMimeType(mimeType) in {"fa-file-pdf", "fa-file-image"}
  {
    Contains(mimeType, "image") || Contains(mimeType, "pdf")
  }

  /** Every file the extension table labels PDF, JPG or PNG can be previewed in the browser. */
  lemma LabelledImagesAndPdfsPreview(mimeType: string)
    requires FileExtension(mimeType) in {"PDF", "JPG", "PNG"}
    ensures CanPreviewInBrowser(mimeType)
    ensures FileIconByMimeType(mimeType) in {"fa-file-pdf", "fa-file-image"}
  {
    if mimeType == PdfMime {
      assert OccursAt(mimeType, "pdf", 12);
    } else {
      assert OccursAt(mimeType, "image", 0);
    }
  }

  /** A legacy Word file is labelled DOCX, gets the Word icon and cannot be previewed. */
  lemma WordFileIsNotPreviewed(mimeType: string)
    requires mimeType == MsWordMime
    ensures FileExtension(mimeType) == "DOCX"
    ensures FileIconByMimeType(mimeType) == "fa-file-word"
    ensures !CanPreviewInBrowser(mimeType)
  {
    WordMimeSubstrings();
  }

  lemma WordMimeSubstrings()
    ensures !Contains(MsWordMime, "image") && !Contains(MsWordMime, "pdf")
    ensures Contains(MsWordMime, "word")
  {
    WordMimeLacksImageAndPdf();
    WordMimeHasWord();
  }

  lemma WordMimeLacksImageAndPdf()
    ensures !Contains(MsWordMime, "image") && !Contains(MsWordMime, "pdf")
  {
    assert 'g' !in MsWordMime;
    MissingCharExcludes(MsWordMime, "image", 'g');
    assert 'f' !in MsWordMime;
    MissingCharExcludes(MsWordMime, "pdf", 'f');
  }

  lemma WordMimeHasWord()
    ensures Contains(MsWordMime, "word")
  {
    assert MsWordMime[14..18] == "word";
    assert OccursAt(MsWordMime, "word", 14);
  }

  /** The stock picture shown for files that are not images. */
  const PlaceholderThumbnail :=
    "https://images.unsplash.com/photo-1568122506084-57d12d22b780?ixlib=rb-4.0.3&ixid=M3wxMjA3fDB8MHxwaG90by1wYWdlfHx8fGVufDB8fHx8fA%3D%3D&auto=format&fit=crop&w=400&h=200&q=80"

  /** `getDocumentThumbnailUrl`: an image is its own thumbnail; anything else gets the stock one. */
  function DocumentThumbnailUrl(document: Document): (url: string)
    ensures Contains(document.mimeType, "image") ==> url == document.path
    ensures !Contains(document.mimeType, "image") ==> url == PlaceholderThumbnail
  {
    if Contains(document.mimeType, "image") then document.path else PlaceholderThumbnail
  }

  /**
   * A document shown by its own file as thumbnail can be previewed in the browser, and so can
   * every file that gets the image icon.
   */
  lemma OwnThumbnailIsPreviewable(document: Document)
    ensures DocumentThumbnailUrl(document) == document.path && document.path != PlaceholderThumbnail
      ==> CanPreviewInBrowser(document.mimeType)
    ensures FileIconByMimeType(document.mimeType) == "fa-file-image" ==>
      DocumentThumbnailUrl(document) == document.path && CanPreviewInBrowser(document.mimeType)
  {
  }

  /** A PDF can be previewed in the browser, yet its thumbnail is the stock picture. */
  lemma PdfPreviewsWithStockThumbnail(document: Document)
    requires document.mimeType == PdfMime
    ensures CanPreviewInBrowser(document.mimeType)
    ensures DocumentThumbnailUrl(document) == PlaceholderThumbnail
  {
    assert OccursAt(PdfMime, "pdf", 12);
    assert 'g' !in PdfMime;
    MissingCharExcludes(PdfMime, "image", 'g');
  }

  // ---------------------------------------------------------------- names

  /** `getPersonFullName`: first and last name separated by one space. */
  function PersonFullName(person: Person): (name: string)
    ensures |name| == |person.firstName| + 1 + |person.lastName|
    ensures name[..|person.firstName|] == person.firstName && name[|person.firstName|] == ' '
    ensures name[|person.firstName| + 1..] == person.lastName
  {
    person.firstName + " " + person.lastName
  }

  /** When neither name holds a space, splitting the full name on spaces gives both names back. */
  lemma {:induction false} PersonFullNameSplits(person: Person)
    requires ' ' !in person.firstName && ' ' !in person.lastName
    ensures Split(PersonFullName(person), ' ') == [person.firstName, person.lastName]
  {
    SplitAfterPiece(person.firstName, person.lastName, ' ');
  }

  /** The type's name in the interface language: Arabic, Hindi, and English for anything else. */
  function TypeName(documentType: DocumentType, language: string): (name: string)
    ensures language == "ar" ==> name == documentType.nameAr
    ensures language == "hi" ==> name == documentType.nameHi
    ensures language != "ar" && language != "hi" ==> name == documentType.nameEn
  {
    if language == "ar" then documentType.nameAr
    else if language == "hi" then documentType.nameHi
    else documentType.nameEn
  }

  /**
   * `getDocumentFullName`: without its type or its owner, a document is shown by its original
   * file name; with both, as the type's name, " - ", and the owner's full name.
   */
  function DocumentFullName(document: Document, documentType: Option<DocumentType>,
                            person: Option<Person>, language: string): (name: string)
    ensures documentType.None? || person.None? ==> name == document.originalFilename
    ensures documentType.Some? && person.Some? ==>
      var typeName := TypeName(documentType.value, language);
      |name| == |typeName| + 3 + |PersonFullName(person.value)| &&
      name[..|typeName|] == typeName && name[|typeName|..|typeName| + 3] == " - " &&
      name[|typeName| + 3..] == PersonFullName(person.value)
  {
    if documentType.None? || person.None? then document.originalFilename
    else TypeName(documentType.value, language) + " - " + PersonFullName(person.value)
  }

  /** Every language other than Arabic and Hindi names a document as English does. */
  lemma OtherLanguagesFallBackToEnglish(document: Document, documentType: Option<DocumentType>,
                                        person: Option<Person>, language: string)
    requires language != "ar" && language != "hi"
    ensures DocumentFullName(document, documentType, person, language) ==
      DocumentFullName(document, documentType, person, "en")
  {
  }

  /** A passport of Sarah Khan reads "Passport - Sarah Khan" in English and in Arabic script in Arabic. */
  lemma PassportOfSarahKhan(document: Document, documentType: DocumentType, person: Person)
    requires documentType.nameEn == "Passport" && documentType.nameAr == "جواز السفر"
    requires person.firstName == "Sarah" && person.lastName == "Khan"
    ensures DocumentFullName(document, Some(documentType), Some(person), "en") == "Passport - Sarah Khan"
    ensures DocumentFullName(document, Some(documentType), Some(person), "ar") == "جواز السفر - Sarah Khan"
  {
    EnglishPassportName(document, documentType, person);
    ArabicPassportName(document, documentType, person);
  }

  lemma EnglishPassportName(document: Document, documentType: DocumentType, person: Person)
    requires documentType.nameEn == "Passport"
    requires person.firstName == "Sarah" && person.lastName == "Khan"
    ensures DocumentFullName(document, Some(documentType), Some(person), "en") == "Passport - Sarah Khan"
  {
    JoinedLiteral("Passport", " - Sarah Khan", "Passport - Sarah Khan");
    SarahKhanIn(document, documentType, person, "en", "Passport - Sarah Khan");
  }

  lemma ArabicPassportName(document: Document, documentType: DocumentType, person: Person)
    requires documentType.nameAr == "جواز السفر"
    requires person.firstName == "Sarah" && person.lastName == "Khan"
    ensures DocumentFullName(document, Some(documentType), Some(person), "ar") == "جواز السفر - Sarah Khan"
  {
    JoinedLiteral("جواز السفر", " - Sarah Khan", "جواز السفر - Sarah Khan");
    SarahKhanIn(document, documentType, person, "ar", "جواز السفر - Sarah Khan");
  }

  /** Two strings joined are the third when it agrees with them position by position. */
  lemma JoinedLiteral(a: string, b: string, c: string)
    requires |a| + |b| == |c|
    requires forall i :: 0 <= i < |a| ==> a[i] == c[i]
    requires forall i :: 0 <= i < |b| ==> b[i] == c[|a| + i]
    ensures a + b == c
  {
    forall i | 0 <= i < |c| ensures (a + b)[i] == c[i] {
      if i >= |a| {
        assert (a + b)[i] == b[i - |a|];
      }
    }
  }

  lemma SarahKhanIn(document: Document, documentType: DocumentType, person: Person,
                    language: string, expected: string)
    requires person.firstName == "Sarah" && person.lastName == "Khan"
    requires expected == TypeName(documentType, language) + " - Sarah Khan"
    ensures DocumentFullName(document, Some(documentType), Some(person), language) == expected
  {
    assert PersonFullName(person) == "Sarah Khan";
  }

  // ---------------------------------------------------------------- statistics

  /** The `DocumentStats` record of the dashboard. */
  datatype DocumentStats = DocumentStats(total: nat, valid: nat, expiringSoon: nat, expired: nat)

  /** The number of documents whose stored status is exactly `status`. */
  function CountWithStatus(documents: seq<Document>, status: string): (n: nat)
    ensures n <= |documents|
  {
    if documents == [] then 0
    else
      var last := documents[|documents| - 1];
      CountWithStatus(documents[..|documents| - 1], status) + (if last.status == Some(status) then 1 else 0)
  }

  /** The statistics `generateDocumentStats` produces: the total and one count per status. */
  function StatsOf(documents: seq<Document>): (stats: DocumentStats)
    ensures stats.total == |documents|
    ensures stats.valid <= stats.total && stats.expiringSoon <= stats.total && stats.expired <= stats.total
  {
    DocumentStats(|documents|, CountWithStatus(documents, ValidStatus),
                  CountWithStatus(documents, ExpiringSoonStatus), CountWithStatus(documents, ExpiredStatus))
  }

  /**
   * `generateDocumentStats`: one pass over the documents, counting each by its stored status;
   * a document with any other status, or none, is counted only in the total.
   */
  method GenerateDocumentStats(documents: seq<Document>) returns (stats: DocumentStats)
    ensures stats == StatsOf(documents)
    ensures stats.valid + stats.expiringSoon + stats.expired <= stats.total
  {
    stats := DocumentStats(|documents|, 0, 0, 0);
    var i := 0;
    while i < |documents|
      invariant 0 <= i <= |documents|
      invariant stats.total == |documents|
      invariant stats.valid == CountWithStatus(documents[..i], ValidStatus)
      invariant stats.expiringSoon == CountWithStatus(documents[..i], ExpiringSoonStatus)
      invariant stats.expired == CountWithStatus(documents[..i], ExpiredStatus)
    {
      var document := documents[i];
      assert documents[..i + 1][..i] == documents[..i];
      match document.status {
        case Some("valid") => stats := stats.(valid := stats.valid + 1);
        case Some("expiring_soon") => stats := stats.(expiringSoon := stats.expiringSoon + 1);
        case Some("expired") => stats := stats.(expired := stats.expired + 1);
        case _ =>
      }
      i := i + 1;
    }
    assert documents[..i] == documents;
    StatsAddUp(documents);
  }

  /**
   * The three status counts never exceed the total, and they make it up exactly when every
   * document carries one of the three statuses.
   */
  lemma {:induction false} StatsAddUp(documents: seq<Document>)
    ensures var s := StatsOf(documents);
      s.valid + s.expiringSoon + s.expired <= s.total
    ensures var s := StatsOf(documents);
      s.valid + s.expiringSoon + s.expired == s.total <==>
      forall i :: 0 <= i < |documents| ==>
        documents[i].status.Some? && IsKnownStatus(documents[i].status.value)
  {
    if documents != [] {
      var init := documents[..|documents| - 1];
      StatsAddUp(init);
      var last := documents[|documents| - 1];
      assert forall i :: 0 <= i < |init| ==> init[i] == documents[i];
      if !(last.status.Some? && IsKnownStatus(last.status.value)) {
        var s, t := StatsOf(documents), StatsOf(init);
        assert s.valid + s.expiringSoon + s.expired == t.valid + t.expiringSoon + t.expired;
      }
    }
  }

  /**
   * Three documents expiring 5 days ago, in 10 days and in 40 days, each stored with the status
   * the classifier gives it, yield one of each.
   */
  lemma StatsOfThreeDocuments(now: Instant, d1: Document, d2: Document, d3: Document)
    requires d1.status == Some(DocumentStatus(Some(now - 5 * DayMs), now))
    requires d2.status == Some(DocumentStatus(Some(now + 10 * DayMs), now))
    requires d3.status == Some(DocumentStatus(Some(now + 40 * DayMs), now))
    ensures StatsOf([d1, d2, d3]) == DocumentStats(3, 1, 1, 1)
  {
    assert d1.status == Some(ExpiredStatus);
    assert d2.status == Some(ExpiringSoonStatus);
    assert d3.status == Some(ValidStatus);
    var docs := [d1, d2, d3];
    assert docs[..2] == [d1, d2] && [d1, d2][..1] == [d1] && [d1][..0] == [];
    assert StatsOf([d1]) == DocumentStats(1, 0, 0, 1);
    assert StatsOf([d1, d2]) == DocumentStats(2, 0, 1, 1);
  }

  // ---------------------------------------------------------------- expiry caption

  /**
   * `formatExpiryDate`: nothing for a document without an expiry date; otherwise the formatted
   * date after "Expired: " when the stored status is "expired" and after "Expires: " for every
   * other status. The language-dependent date formatting is the parameter `formatDate`.
   */
  function FormatExpiryDate(document: Document, formatDate: Instant -> string): (caption: string)
    ensures document.expiryDate.None? <==> caption == ""
    ensures document.expiryDate.Some? ==>
      |caption| == 9 + |formatDate(document.expiryDate.value)| &&
      caption[9..] == formatDate(document.expiryDate.value) &&
      (caption[..9] == "Expired: " <==> document.status == Some(ExpiredStatus)) &&
      (caption[..9] == "Expires: " <==> document.status != Some(ExpiredStatus))
  {
    match document.expiryDate
    case None => ""
    case Some(expiry) =>
      if document.status == Some(ExpiredStatus) then "Expired: " + formatDate(expiry)
      else "Expires: " + formatDate(expiry)
  }

  /**
   * For a document stored with the status the classifier derived at `now`, the caption says
   * "Expired" exactly when the expiry date lies before `now`.
   */
  lemma CaptionFollowsExpiry(document: Document, now: Instant, formatDate: Instant -> string)
    requires document.expiryDate.Some?
    requires document.status == Some(DocumentStatus(document.expiryDate, now))
    ensures FormatExpiryDate(document, formatDate)[..9] == "Expired: " <==>
      document.expiryDate.value < now
  {
  }

  // ---------------------------------------------------------------- counts by type and category

  /** The filter of documents of one type. */
  function HasType(typeId: int): Document -> bool {
    (d: Document) => d.typeId == typeId
  }

  /** The filter of documents whose type is one of `typeIds` (`typeIds.includes(doc.typeId)`). */
  function HasTypeIn(typeIds: seq<int>): Document -> bool {
    (d: Document) => d.typeId in typeIds
  }

  /** The filter of the types of one category. */
  function InCategory(categoryId: int): DocumentType -> bool {
    (t: DocumentType) => t.categoryId == categoryId
  }

  /** The id of a document type. */
  function TypeIdOf(t: DocumentType): int {
    t.id
  }

  /** `getDocumentCountByType`. */
  function CountByType(documents: seq<Document>, typeId: int): (n: nat)
    ensures n <= |documents|
    ensures n == 0 <==> forall i :: 0 <= i < |documents| ==> documents[i].typeId != typeId
  {
    var matching := Filter(documents, HasType(typeId));
    assert (exists i :: 0 <= i < |documents| && documents[i].typeId == typeId) ==> |matching| > 0 by {
      if i :| 0 <= i < |documents| && documents[i].typeId == typeId {
        assert documents[i] in matching;
      }
    }
    assert |matching| > 0 ==> matching[0] in matching;
    |matching|
  }

  /** The ids of the types that belong to `categoryId`, in the order of `documentTypes`. */
  function TypeIdsOfCategory(documentTypes: seq<DocumentType>, categoryId: int): (ids: seq<int>)
    ensures var inCategory := Filter(documentTypes, InCategory(categoryId));
      |ids| == |inCategory| && forall k :: 0 <= k < |ids| ==> ids[k] == inCategory[k].id
    ensures forall t :: t in documentTypes && t.categoryId == categoryId ==> t.id in ids
    ensures forall k :: 0 <= k < |ids| ==>
      exists t :: t in documentTypes && t.categoryId == categoryId && t.id == ids[k]
  {
    var inCategory := Filter(documentTypes, InCategory(categoryId));
    var ids := MapSeq(inCategory, TypeIdOf);
    forall t | t in documentTypes && t.categoryId == categoryId ensures t.id in ids {
      assert t in inCategory;
      var k :| 0 <= k < |inCategory| && inCategory[k] == t;
      assert ids[k] == t.id;
    }
    forall k | 0 <= k < |ids|
      ensures exists t :: t in documentTypes && t.categoryId == categoryId && t.id == ids[k]
    {
      assert inCategory[k] in inCategory;
    }
    ids
  }

  /** `getDocumentCountByCategory`: the documents whose type belongs to the category. */
  function CountByCategory(documents: seq<Document>, documentTypes: seq<DocumentType>,
                           categoryId: int): (n: nat)
    ensures n <= |documents|
  {
    var typeIds := TypeIdsOfCategory(documentTypes, categoryId);
    |Filter(documents, HasTypeIn(typeIds))|
  }

  /** The per-type counts of `typeIds`, added up. */
  function SumOfTypeCounts(documents: seq<Document>, typeIds: seq<int>): nat {
    if typeIds == [] then 0 else CountByType(documents, typeIds[0]) + SumOfTypeCounts(documents, typeIds[1..])
  }

  /** The ids in `ids` are pairwise distinct. */
  predicate Distinct(ids: seq<int>) {
    forall i, j :: 0 <= i < j < |ids| ==> ids[i] != ids[j]
  }

  /**
   * Counting the documents whose type is one of `typeIds` at once gives the sum of the
   * per-type counts, when no type id is listed twice.
   */
  lemma {:induction false} CountOfTypesIsSum(documents: seq<Document>, typeIds: seq<int>)
    requires Distinct(typeIds)
    ensures |Filter(documents, HasTypeIn(typeIds))| == SumOfTypeCounts(documents, typeIds)
  {
    if typeIds != [] {
      var rest := typeIds[1..];
      assert Distinct(rest);
      CountOfTypesIsSum(documents, rest);
      assert typeIds[0] !in rest by {
        forall j | 0 <= j < |rest| ensures rest[j] != typeIds[0] {
          assert rest[j] == typeIds[j + 1];
        }
      }
      SplitFirstType(documents, typeIds);
    } else {
      FilterNone(documents, HasTypeIn(typeIds));
    }
  }

  /** The documents of the first listed type and those of the rest are counted apart. */
  lemma SplitFirstType(documents: seq<Document>, typeIds: seq<int>)
    requires typeIds != [] && typeIds[0] !in typeIds[1..]
    ensures |Filter(documents, HasTypeIn(typeIds))| ==
      CountByType(documents, typeIds[0]) + |Filter(documents, HasTypeIn(typeIds[1..]))|
  {
    var rest := typeIds[1..];
    assert typeIds == [typeIds[0]] + rest;
    forall d: Document
      ensures HasTypeIn(typeIds)(d) == (HasType(typeIds[0])(d) || HasTypeIn(rest)(d))
      ensures !(HasType(typeIds[0])(d) && HasTypeIn(rest)(d))
    {
    }
    FilterDisjointUnion(documents, HasTypeIn(typeIds), HasType(typeIds[0]), HasTypeIn(rest));
  }

  /**
   * The count of a category is the sum of the counts of its types, provided type ids are
   * unique (as the store guarantees); in particular it is at least the count of any one of them.
   */
  lemma CategoryCountIsSumOfTypeCounts(documents: seq<Document>, documentTypes: seq<DocumentType>,
                                       categoryId: int)
    requires forall i, j :: 0 <= i < j < |documentTypes| ==> documentTypes[i].id != documentTypes[j].id
    ensures Distinct(TypeIdsOfCategory(documentTypes, categoryId))
    ensures CountByCategory(documents, documentTypes, categoryId) ==
      SumOfTypeCounts(documents, TypeIdsOfCategory(documentTypes, categoryId))
  {
    var inCategory := Filter(documentTypes, InCategory(categoryId));
    FilterKeepsDistinct(documentTypes, InCategory(categoryId), TypeIdOf);
    var ids := TypeIdsOfCategory(documentTypes, categoryId);
    CountOfTypesIsSum(documents, ids);
  }
}
