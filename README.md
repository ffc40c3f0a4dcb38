# Document management core, modelled in Dafny

This project models the core of an HR document-management web application, which keeps
employees' and applicants' documents and tracks their expiry dates. The core has five parts:

- **The in-memory store** (`MemStorage`, `server/storage.ts`). It has six tables: users, document
  categories, document types, documents, persons and notifications. Each table is a JavaScript
  `Map` from an integer id to a record, and each has its own auto-increment counter. It offers
  get, list, filter, create, update and delete, plus `markNotificationAsRead`.
  - It is modelled as the class `Storage.MemStorage`. Each table is a `Storage.Table` object that
    holds the rows, the order in which keys were first set (the order `Map` iterates in) and the
    counter.
  - Record shapes, creation inputs and partial updates live in `Schema`.
  - A partial update is the object spread `{...old, ...patch}`.
- **The client helpers** (`client/src/lib/utils.ts`, module `Utils`):
  - file icons and colours by MIME type;
  - badge classes for statuses and categories;
  - the expiry classifier (`isDocumentExpiringSoon`, `isDocumentExpired`, `getDocumentStatus`,
    `calculateExpiryDays`).

  Instants are integer milliseconds. The current instant is the parameter `now`.
- **The document helpers** (`client/src/lib/documentUtils.ts`, module `DocumentUtils`):
  - file-extension labels and browser preview;
  - thumbnails and display names;
  - dashboard statistics;
  - the expiry caption;
  - per-type and per-category counts.
- **The document list's `select` step** (`client/src/components/documents/DocumentList.tsx`,
  module `DocumentList`). It applies the equality filters, sorts by one of four orders, then caps
  the number of items. `Array.prototype.sort` is stable, so it is modelled by a stable insertion
  sort that uses the component's comparator.
- **`getTranslation` and the translation tables** (`client/src/lib/i18n.ts`, modules
  `Translations` and `I18n`). The key is split on dots. Each segment is then looked up as a
  JavaScript property, starting from the language's table:
  - a string answers `length` and canonical array indices;
  - anything that does not end on a string falls back to the key;
  - the `{name}` placeholders are filled in with `String.prototype.replace`, including its `$`
    replacement patterns.

  The three tables define the same 74 keys. They are the enumeration
  `Translations.TranslationKey`, with one text function per language.

`Wrappers`, `Sequences` and `Strings` are the supporting modules:

- `Option`;
- filtering and finding in sequences;
- substring search and splitting;
- lexicographic comparison;
- decimal digits.

## Model

| member | source | states |
|---|---|---|
| Storage.Table.constructor | server/storage.ts:77-90 | a new `Map` is empty and its counter starts at 1 |
| Storage.Table.Get | server/storage.ts:366-368 | `map.get(id)` is present iff the key is stored, and then is the stored record |
| Storage.Table.Values | server/storage.ts:394-396 | `Array.from(map.values())` lists the records in insertion order, one per key, and every stored record appears |
| Storage.Table.TakeId | server/storage.ts:377 | `currentXId++` returns the counter, advances it by one, and every stored id is below the id handed out |
| Storage.Table.Set | server/storage.ts:380 | `map.set`: an existing key keeps its place in the iteration order and a new key goes last; the table invariant is kept |
| Storage.Table.Delete | server/storage.ts:419-421 | `map.delete` is true iff the key was present, removes exactly that key and keeps the order of the rest |
| Storage.FirstIsOldest | server/storage.ts:370-374 | the first match found in iteration order is the match with the smallest id |
| Storage.MemStorage.constructor | server/storage.ts:77-94 | six empty tables, every counter at 1 |
| Storage.MemStorage.GetUser | server/storage.ts:366-368 | present iff a user has that id, and then it is the stored user |
| Storage.MemStorage.GetUserByUsername | server/storage.ts:370-374 | none iff no user has the name; otherwise a stored user with that name and the smallest id among them |
| Storage.MemStorage.CreateUser | server/storage.ts:376-382 | the new user gets the counter value as a fresh id and `now` as `createdAt`; it is added last and the counter advances; the username is not checked |
| Storage.MemStorage.UpdateUser | server/storage.ts:384-392 | none iff the id is unknown; otherwise the stored user becomes the merge of the patch over it, with its place, id and `createdAt` kept |
| Storage.MemStorage.GetDocumentCategories | server/storage.ts:394-396 | the categories in insertion order |
| Storage.MemStorage.GetDocumentCategory | server/storage.ts:398-400 | present iff a category has that id, and then it is the stored record |
| Storage.MemStorage.CreateDocumentCategory | server/storage.ts:402-408 | a fresh id and `createdAt`, stored last, and the counter advances |
| Storage.MemStorage.UpdateDocumentCategory | server/storage.ts:410-417 | none iff the id is unknown; otherwise the merged category replaces the old one in place |
| Storage.MemStorage.DeleteDocumentCategory | server/storage.ts:419-421 | true iff the category existed; only it is removed |
| Storage.MemStorage.GetDocumentTypes | server/storage.ts:424-426 | the types in insertion order |
| Storage.MemStorage.GetDocumentTypesByCategory | server/storage.ts:428-431 | exactly the stored types of that category, in insertion order and each as often as it is listed |
| Storage.MemStorage.GetDocumentType | server/storage.ts:433-435 | present iff a type has that id, and then it is the stored record |
| Storage.MemStorage.CreateDocumentType | server/storage.ts:437-443 | a fresh id and `createdAt`, stored last, and the counter advances |
| Storage.MemStorage.UpdateDocumentType | server/storage.ts:445-452 | none iff the id is unknown; otherwise the merged type replaces the old one in place |
| Storage.MemStorage.DeleteDocumentType | server/storage.ts:454-456 | true iff the type existed; only it is removed |
| Storage.MemStorage.GetDocuments | server/storage.ts:459-461 | the documents in insertion order |
| Storage.MemStorage.GetDocument | server/storage.ts:463-465 | present iff a document has that id, and then it is the stored record |
| Storage.MemStorage.GetDocumentsByUser | server/storage.ts:467-470 | exactly the stored documents of that user, in insertion order and each as often as it is listed |
| Storage.MemStorage.GetDocumentsByType | server/storage.ts:472-475 | exactly the stored documents of that type, in insertion order and each as often as it is listed |
| Storage.MemStorage.GetDocumentsByStatus | server/storage.ts:477-480 | exactly the stored documents whose stored status equals the argument, in insertion order and each as often as it is listed |
| Storage.MemStorage.CreateDocument | server/storage.ts:482-488 | a fresh id; `uploadedAt` is the input's own when given, else `now`; the status is stored as supplied |
| Storage.MemStorage.UpdateDocument | server/storage.ts:490-497 | none iff the id is unknown; otherwise the merged document replaces the old one and its status is not recomputed |
| Storage.MemStorage.DeleteDocument | server/storage.ts:499-501 | true iff the document existed; only it is removed |
| Storage.MemStorage.GetPersons | server/storage.ts:504-506 | the persons in insertion order |
| Storage.MemStorage.GetPersonsByType | server/storage.ts:508-511 | exactly the stored persons of that type, in insertion order and each as often as it is listed |
| Storage.MemStorage.GetPerson | server/storage.ts:513-515 | present iff a person has that id, and then it is the stored record |
| Storage.MemStorage.CreatePerson | server/storage.ts:517-523 | a fresh id and `createdAt`, stored last, and the counter advances |
| Storage.MemStorage.UpdatePerson | server/storage.ts:525-532 | none iff the id is unknown; otherwise the merged person replaces the old one in place |
| Storage.MemStorage.DeletePerson | server/storage.ts:534-536 | true iff the person existed; only it is removed |
| Storage.MemStorage.GetNotifications | server/storage.ts:539-541 | the notifications in insertion order |
| Storage.MemStorage.GetNotificationsByUser | server/storage.ts:543-546 | exactly the stored notifications of that user, in insertion order and each as often as it is listed |
| Storage.MemStorage.GetNotification | server/storage.ts:548-550 | present iff a notification has that id, and then it is the stored record |
| Storage.MemStorage.CreateNotification | server/storage.ts:552-558 | a fresh id; `createdAt` is the input's own when given, else `now` |
| Storage.MemStorage.UpdateNotification | server/storage.ts:560-567 | none iff the id is unknown; otherwise the merged notification replaces the old one in place |
| Storage.MemStorage.DeleteNotification | server/storage.ts:569-571 | true iff the notification existed; only it is removed |
| Storage.MemStorage.MarkNotificationAsRead | server/storage.ts:573-580 | none iff the id is unknown; otherwise the stored notification has `read` set and nothing else changed |
| Schema.UserFrom | server/storage.ts:379 | the spread of the input keeps the assigned id and `createdAt` |
| Schema.MergeUser | server/storage.ts:388 | a patch never changes the id or `createdAt`, and the empty patch changes nothing |
| Schema.DocumentCategoryFrom | server/storage.ts:405 | the assigned id and `createdAt` |
| Schema.MergeDocumentCategory | server/storage.ts:414 | the id and `createdAt` are kept, and the empty patch changes nothing |
| Schema.DocumentTypeFrom | server/storage.ts:440 | the assigned id and `createdAt` |
| Schema.MergeDocumentType | server/storage.ts:449 | the id and `createdAt` are kept, and the empty patch changes nothing |
| Schema.DocumentFrom | server/storage.ts:484-485 | the id is assigned; `uploadedAt` is the supplied one or `now`; status and expiry are as supplied |
| Schema.MergeDocument | server/storage.ts:494 | the id and `uploadedAt` are kept; the status is the patch's when it gives one, else the old one |
| Schema.PersonFrom | server/storage.ts:520 | the assigned id and `createdAt` |
| Schema.MergePerson | server/storage.ts:529 | the id and `createdAt` are kept, and the empty patch changes nothing |
| Schema.NotificationFrom | server/storage.ts:554-555 | the id is assigned; `createdAt` is the supplied one or `now` |
| Schema.MergeNotification | server/storage.ts:564 | the id and `createdAt` are kept, and the empty patch changes nothing |
| Schema.MarkRead | server/storage.ts:577 | `read` becomes true and every other field is unchanged; it is the patch that sets only `read` |
| Schema.MarkReadIdempotent | server/storage.ts:573-580 | marking a notification read twice gives what marking it once gave |
| Utils.FileIconByMimeType | client/src/lib/utils.ts:16-30 | the PDF icon iff the MIME type contains "pdf", the image icon iff it contains "image" but not "pdf", the plain icon iff it contains none of the tested words |
| Utils.FileIconColorByMimeType | client/src/lib/utils.ts:32-46 | red iff the MIME type contains "pdf", grey iff it contains none of the tested words |
| Utils.IconAndColorAgree | client/src/lib/utils.ts:16-46 | the colour is a function of the icon for every MIME type, and the icon is one of the six |
| Utils.DocumentStatusColor | client/src/lib/utils.ts:48-59 | the neutral default iff the status is not one of the three known |
| Utils.DocumentStatusIcon | client/src/lib/utils.ts:61-72 | the plain calendar iff the status is unknown; a crossed calendar iff expiring soon or expired |
| Utils.CategoryColor | client/src/lib/utils.ts:74-87 | the neutral default iff the key is not one of the four palette keys |
| Utils.CeilDiv | client/src/lib/utils.ts:97 | `Math.ceil(n / d)` is the least `q` with `n <= q * d` |
| Utils.DaysUntil | client/src/lib/utils.ts:96-97 | positive iff the expiry lies after `now`; at most 30 iff it lies at most 30 days ahead |
| Utils.IsDocumentExpiringSoon | client/src/lib/utils.ts:89-101 | true iff the expiry lies after `now` by at most 30 days, to the millisecond |
| Utils.IsDocumentExpired | client/src/lib/utils.ts:103-110 | true iff no days are left and the expiry is not exactly `now` |
| Utils.DocumentStatus | client/src/lib/utils.ts:112-122 | "valid" without an expiry; "expired" iff the expiry is before `now`; "expiring_soon" iff it is after `now` by at most 30 days |
| Utils.ExpiredExcludesExpiringSoon | client/src/lib/utils.ts:89-110 | no expiry date is both expired and expiring soon |
| Utils.ThirtyDayBoundary | client/src/lib/utils.ts:89-101 | exactly 30 days ahead is expiring soon; one millisecond more is valid and counts 31 days |
| Utils.ExpiringNowIsValid | client/src/lib/utils.ts:103-135 | an expiry at exactly `now` is "valid" with 0 days left |
| Utils.StatusStepsBackAtExpiry | client/src/lib/utils.ts:103-122 | as written, the status goes expiring_soon, valid, expired around the expiry instant |
| Utils.IntendedDocumentStatus | client/src/lib/utils.ts:112-122 | the corrected classifier: expired iff no days are left |
| Utils.IntendedDiffersOnlyAtExpiry | client/src/lib/utils.ts:112-122 | the corrected and the written classifier differ exactly when the expiry equals `now` |
| Utils.IntendedStatusMovesForward | client/src/lib/utils.ts:112-122 | with the correction, the status never moves backwards as time passes |
| Utils.CalculateExpiryDays | client/src/lib/utils.ts:124-135 | never negative; 0 without an expiry; positive iff the expiry is after `now`, and then it is the rounded-up day count |
| Utils.ExpiringSoonByDaysLeft | client/src/lib/utils.ts:89-135 | expiring soon iff between 1 and 30 days are left |
| DocumentUtils.FileExtension | client/src/lib/documentUtils.ts:5-20 | "FILE" iff the MIME type is not one of the six known; PDF, DOCX and JPG exactly for their MIME types |
| DocumentUtils.CanPreviewInBrowser | client/src/lib/documentUtils.ts:139-141 | preview is possible iff the file gets the PDF or the image icon |
| DocumentUtils.LabelledImagesAndPdfsPreview | client/src/lib/documentUtils.ts:5-20 | every file labelled PDF, JPG or PNG can be previewed and gets the PDF or the image icon |
| DocumentUtils.WordFileIsNotPreviewed | client/src/lib/documentUtils.ts:5-20 | a legacy Word file is labelled DOCX, gets the Word icon and cannot be previewed |
| DocumentUtils.DocumentThumbnailUrl | client/src/lib/documentUtils.ts:23-31 | an image is its own thumbnail; anything else gets the stock picture |
| DocumentUtils.OwnThumbnailIsPreviewable | client/src/lib/documentUtils.ts:23-31 | a document shown by its own file can be previewed, and every file with the image icon is shown by its own file |
| DocumentUtils.PdfPreviewsWithStockThumbnail | client/src/lib/documentUtils.ts:23-31 | a PDF can be previewed, yet its thumbnail is the stock picture |
| DocumentUtils.PersonFullName | client/src/lib/documentUtils.ts:34-36 | the first name, one space, then the last name |
| DocumentUtils.PersonFullNameSplits | client/src/lib/documentUtils.ts:34-36 | splitting the full name on spaces gives back both names when neither holds a space |
| DocumentUtils.TypeName | client/src/lib/documentUtils.ts:49-52 | the Arabic or Hindi name for "ar" or "hi", the English name for anything else |
| DocumentUtils.DocumentFullName | client/src/lib/documentUtils.ts:39-57 | the original file name when the type or the person is missing; otherwise the type name, " - ", then the person's full name |
| DocumentUtils.OtherLanguagesFallBackToEnglish | client/src/lib/documentUtils.ts:49-56 | every language other than "ar" and "hi" gives the display name "en" gives |
| DocumentUtils.PassportOfSarahKhan | client/src/lib/documentUtils.ts:39-57 | a passport of Sarah Khan reads "Passport - Sarah Khan" in English and "جواز السفر - Sarah Khan" in Arabic |
| DocumentUtils.CountWithStatus | client/src/lib/documentUtils.ts:75-87 | a per-status count never exceeds the number of documents |
| DocumentUtils.StatsOf | client/src/lib/documentUtils.ts:67-90 | the total is the number of documents and no per-status count exceeds it |
| DocumentUtils.GenerateDocumentStats | client/src/lib/documentUtils.ts:67-90 | the loop computes the total and the three per-status counts, and their sum is at most the total |
| DocumentUtils.StatsAddUp | client/src/lib/documentUtils.ts:67-90 | the counts add up to the total iff every stored status is one of the three known |
| DocumentUtils.StatsOfThreeDocuments | client/src/lib/documentUtils.ts:67-90 | documents expired 5 days ago, due in 10 days and due in 40 days count as one of each |
| DocumentUtils.FormatExpiryDate | client/src/lib/documentUtils.ts:93-108 | empty iff there is no expiry; otherwise "Expired: " iff the stored status is "expired", else "Expires: ", then the date |
| DocumentUtils.CaptionFollowsExpiry | client/src/lib/documentUtils.ts:93-122 | with the status the classifier gives, the caption says "Expired: " iff the expiry is before `now` |
| DocumentUtils.CountByType | client/src/lib/documentUtils.ts:126-131 | at most the number of documents, and zero iff no document has the type |
| DocumentUtils.TypeIdsOfCategory | client/src/lib/documentUtils.ts:117-119 | the ids of the category's types, in order, and every type of the category is included |
| DocumentUtils.CountByCategory | client/src/lib/documentUtils.ts:111-123 | at most the number of documents |
| DocumentUtils.CountOfTypesIsSum | client/src/lib/documentUtils.ts:122 | for distinct type ids, counting documents of any listed type equals the sum of the per-type counts |
| DocumentUtils.CategoryCountIsSumOfTypeCounts | client/src/lib/documentUtils.ts:111-131 | when type ids are distinct, a category's count is the sum of the counts of its types |
| DocumentList.KeepIf | client/src/components/documents/DocumentList.tsx:39-47 | one filter step keeps the documents that pass, in their order and as often as they occur, and drops the rest |
| DocumentList.ApplyFilters | client/src/components/documents/DocumentList.tsx:35-48 | the input documents that match every set filter field, in input order and as often as they occur; no filter keeps the input |
| DocumentList.CategoryIsIgnored | client/src/components/documents/DocumentList.tsx:11-20 | the declared `categoryId` filter makes no difference |
| DocumentList.CompareBy | client/src/components/documents/DocumentList.tsx:51-62 | "date_desc" puts the later upload first, "date_asc" the earlier; equal keys compare as 0; any other key compares everything as 0 |
| DocumentList.CompareByAntisymmetric | client/src/components/documents/DocumentList.tsx:51-62 | every comparator is antisymmetric |
| DocumentList.CompareByTransitive | client/src/components/documents/DocumentList.tsx:51-62 | every comparator's "not after" relation is transitive |
| DocumentList.Insert | client/src/components/documents/DocumentList.tsx:51-62 | inserting into an ordered list keeps it ordered and adds exactly that document |
| DocumentList.SortDocuments | client/src/components/documents/DocumentList.tsx:51-62 | the result is ordered by the comparator and is a permutation of the input |
| DocumentList.SortIsStable | client/src/components/documents/DocumentList.tsx:51-62 | the sort is stable: documents the comparator ties keep their input order |
| DocumentList.InsertIsStable | client/src/components/documents/DocumentList.tsx:51-62 | inserting a document puts it behind every document already there that it ties with |
| DocumentList.OrderedAllPairs | client/src/components/documents/DocumentList.tsx:51-62 | a sorted list is ordered between any two positions |
| DocumentList.DateOrders | client/src/components/documents/DocumentList.tsx:52-55 | "date_desc" puts newer uploads first, "date_asc" older ones |
| DocumentList.NameOrders | client/src/components/documents/DocumentList.tsx:56-59 | "name_asc" and "name_desc" order by original file name in opposite directions |
| DocumentList.UnknownOrderKeepsInput | client/src/components/documents/DocumentList.tsx:61 | any other sort key leaves the order as it was |
| DocumentList.InsertLast | client/src/components/documents/DocumentList.tsx:61 | under an unknown sort key a document is inserted at the end |
| DocumentList.Truncate | client/src/components/documents/DocumentList.tsx:65-67 | a prefix of the input; unchanged without a truthy cap; a positive cap keeps the smaller of the cap and the length; a negative cap drops from the end |
| DocumentList.Select | client/src/components/documents/DocumentList.tsx:34-70 | filter, then sort, then cap; the result holds only matching input documents, is ordered, and respects a positive cap |
| DocumentList.SelectedDocuments | client/src/components/documents/DocumentList.tsx:34-70 | the filtered, sorted and capped list holds only matching fetched documents, no more often than fetched, is ordered, and respects a positive cap |
| DocumentList.PrefixKeepsOrderAndElements | client/src/components/documents/DocumentList.tsx:65-67 | a prefix of an ordered list is ordered and holds only its elements |
| I18n.Property | client/src/lib/i18n.ts:329-333 | a table answers exactly its defined keys; a string answers exactly `length` and indices within it; other values answer nothing |
| I18n.Resolve | client/src/lib/i18n.ts:328-334 | the empty walk stays where it is, and a walk of one or more segments never ends on a table |
| I18n.PlainSubstitution | client/src/lib/i18n.ts:343 | a replacement without `$` is inserted verbatim |
| I18n.ReplaceFirst | client/src/lib/i18n.ts:343 | unchanged when the pattern is absent; otherwise the text around the first occurrence is kept, and a `$`-free replacement goes in its place |
| I18n.ApplyParams | client/src/lib/i18n.ts:341-345 | a text without `{` is left as it is, whatever the parameters |
| I18n.AbsentPlaceholdersChangeNothing | client/src/lib/i18n.ts:341-345 | parameters whose placeholders do not occur leave the text unchanged |
| I18n.Translate | client/src/lib/i18n.ts:324-348 | the key when the walk does not end on a string; the text verbatim when there are no parameters or it has no `{` |
| I18n.GetTranslation | client/src/lib/i18n.ts:324-348 | the loop returns what the segment-by-segment lookup specifies: the key on a missing segment or a non-string, else the text with the parameters filled in |
| Translations.KeyOf | client/src/lib/i18n.ts:5-109 | the keys the tables define; the empty name is not one of them |
| Translations.EnglishText | client/src/lib/i18n.ts:5-109 | the English table; no entry is empty |
| Translations.ArabicText | client/src/lib/i18n.ts:111-215 | the Arabic table; no entry is empty |
| Translations.HindiText | client/src/lib/i18n.ts:217-321 | the Hindi table; no entry is empty |
| I18n.MissingKeyFallsBack | client/src/lib/i18n.ts:328-332 | an undefined single-segment key comes back unchanged in every language |
| I18n.LoginFallsBack | client/src/lib/i18n.ts:5-321 | "login" is defined by no table and falls back to itself |
| I18n.DefinedKeyIsVerbatim | client/src/lib/i18n.ts:324-348 | a defined key without parameters yields the table's text verbatim |
| I18n.SameKeysInEveryLanguage | client/src/lib/i18n.ts:5-321 | a single-segment key resolves in one language iff it resolves in every other |
| I18n.LengthFallsBack | client/src/lib/i18n.ts:336-339 | for every defined key, `<key>.length` walks to a number and returns the key itself |
| I18n.DottedKeysCanDiffer | client/src/lib/i18n.ts:328-334 | "save.3" is "e" in English but falls back in Arabic |
| I18n.ExpiringAlertWithCount | client/src/lib/i18n.ts:37 | the alert with count 3 reads "You have 3 documents expiring in the next 30 days." |
| I18n.DollarPatternsExpand | client/src/lib/i18n.ts:343 | a value "$&" puts the placeholder itself back, so `{name}` survives |

## Left out

- Sample data: `initSampleData` (`server/storage.ts:96-364`) is not modelled. The store starts
  empty.
- Asynchrony: the `Promise` wrappers of the storage methods are dropped. Each method is one
  atomic step.
- Other modules: the HTTP routes and the rest of the React components are not part of this
  model.
- Untouched helpers: `cn`, `formatFileSize` (floating point), `getCategoryIconClass` and
  `formatDate` are not modelled. `formatDate` uses `Intl.DateTimeFormat`, so
  `DocumentUtils.FormatExpiryDate` takes the date formatting as a parameter.
- Wall clock: `new Date()` becomes a `now` parameter of the operations that read the clock, one
  value for the whole call. Parsing dates from strings is not modelled.
- Storage.MemStorage.MarkNotificationAsRead: the source mutates the stored object in place. A
  reference returned earlier therefore also sees `read` become true. Records here are values, so
  that aliasing is not captured.
- Defaults: the store applies no database defaults (`role`, `color`, `status`, `read`, ...).
  Those fields are optional in the model and stay absent when not supplied.
- Username uniqueness: `createUser` does not check whether the username is already taken, and the
  model does not either.
- Status updates: `updateDocument` never recomputes a document's status from its expiry date. The
  status is only what callers store.
- Sort ties: documents that compare equal keep their input order, because the sort is stable
  (`DocumentList.SortIsStable`). There is no tie-break by id.
- DocumentList.NameOrders: `localeCompare` is modelled as lexicographic order on characters.
  Locale collation is not captured.
- DocumentList.Select: `maxItems` and the filter ids are integers. Non-integer numbers are not
  modelled.
- I18n.Property: only own properties are modelled (table keys, `length` and array indices).
  Inherited members such as `toString` or `constructor` are not.
- I18n.GetTranslation:
  - parameter values are text or integers, and `String(value)` is the decimal form. JavaScript
    prints that form for integers of magnitude below 10^21 only; the exponent form it uses for
    larger ones is not modelled;
  - parameters are applied in the order given, so the ordering `Object.entries` uses for
    integer-like names is not modelled;
  - the `console.warn` calls are dropped.
- Translations.KeyOf: its contract says only that table keys are non-empty. It is not proved to
  invert `Translations.NameOf`; the lemmas use it on the keys they mention.

## Findings

| source | as written | input that shows it | evidently intended | confidence | as-written member | corrected member |
|---|---|---|---|---|---|---|
| client/src/lib/utils.ts:103-122 | `isDocumentExpired` is `expiry < today` and `isDocumentExpiringSoon` needs `diffDays > 0`, so at the instant of expiry neither holds and `getDocumentStatus` says "valid" | expiry date e, checked at e − 1 ms, at e, and at e + 1 ms: "expiring_soon", "valid", "expired" | a document whose expiry instant has been reached (no days left) is "expired", so the status only moves forward | not executed | Utils.StatusStepsBackAtExpiry | Utils.IntendedStatusMovesForward |
