/**
 * The six record kinds of the document-management application, as the in-memory store holds
 * them: for each kind the stored record, the creation input (the record without the fields the
 * store assigns) and the partial update ("patch") that `update*` spreads over a stored record.
 *
 * Conventions:
 *  - instants are integer milliseconds since the epoch;
 *  - a column that may be null, or that has a database-side default, is an `Option`: the store
 *    applies no default, so a creation input without `role`, `color`, `status`, `read`, ... is
 *    stored without it;
 *  - in a patch `None` leaves the field unchanged; for a nullable field `Some(None)` sets it to null.
 */
module Schema {
  import opened Wrappers

  /** Milliseconds since the epoch (`Date.getTime()`). */
  type Instant = int

  /** The free-form `metaData` JSON object of a document. */
  type MetaData = map<string, string>

  /** The value a patch gives a field: the supplied one, else the old one (`{...old, ...patch}`). */
  function Pick<T>(supplied: Option<T>, current: T): (r: T)
    ensures supplied.Some? ==> r == supplied.value
    ensures supplied.None? ==> r == current
  {
    supplied.GetOr(current)
  }

  // ---------------------------------------------------------------- users

  datatype User = User(
    id: int, username: string, password: string, fullName: string, email: string,
    role: Option<string>, department: Option<string>, avatar: Option<string>,
    createdAt: Instant)

  datatype NewUser = NewUser(
    username: string, password: string, fullName: string, email: string,
    role: Option<string>, department: Option<string>, avatar: Option<string>)

  datatype UserPatch = UserPatch(
    username: Option<string>, password: Option<string>, fullName: Option<string>,
    email: Option<string>, role: Option<string>, department: Option<Option<string>>,
    avatar: Option<Option<string>>)

  const EmptyUserPatch := UserPatch(None, None, None, None, None, None, None)

  /** `{ ...input, id, createdAt: now }` */
  function UserFrom(input: NewUser, id: int, now: Instant): (u: User)
    ensures u.id == id && u.createdAt == now
  {
    User(id, input.username, input.password, input.fullName, input.email,
         input.role, input.department, input.avatar, now)
  }

  /** `{ ...existing, ...patch }` */
  function MergeUser(u: User, p: UserPatch): (r: User)
    ensures r.id == u.id && r.createdAt == u.createdAt
    ensures p == EmptyUserPatch ==> r == u
  {
    u.(username := Pick(p.username, u.username), password := Pick(p.password, u.password),
       fullName := Pick(p.fullName, u.fullName), email := Pick(p.email, u.email),
       role := if p.role.Some? then p.role else u.role,
       department := Pick(p.department, u.department), avatar := Pick(p.avatar, u.avatar))
  }

  // ---------------------------------------------------------------- document categories

  datatype DocumentCategory = DocumentCategory(
    id: int, nameEn: string, nameAr: string, nameHi: string, icon: string,
    color: Option<string>, createdAt: Instant)

  datatype NewDocumentCategory = NewDocumentCategory(
    nameEn: string, nameAr: string, nameHi: string, icon: string, color: Option<string>)

  datatype DocumentCategoryPatch = DocumentCategoryPatch(
    nameEn: Option<string>, nameAr: Option<string>, nameHi: Option<string>,
    icon: Option<string>, color: Option<string>)

  const EmptyDocumentCategoryPatch := DocumentCategoryPatch(None, None, None, None, None)

  function DocumentCategoryFrom(input: NewDocumentCategory, id: int, now: Instant): (c: DocumentCategory)
    ensures c.id == id && c.createdAt == now
  {
    DocumentCategory(id, input.nameEn, input.nameAr, input.nameHi, input.icon, input.color, now)
  }

  function MergeDocumentCategory(c: DocumentCategory, p: DocumentCategoryPatch): (r: DocumentCategory)
    ensures r.id == c.id && r.createdAt == c.createdAt
    ensures p == EmptyDocumentCategoryPatch ==> r == c
  {
    c.(nameEn := Pick(p.nameEn, c.nameEn), nameAr := Pick(p.nameAr, c.nameAr),
       nameHi := Pick(p.nameHi, c.nameHi), icon := Pick(p.icon, c.icon),
       color := if p.color.Some? then p.color else c.color)
  }

  // ---------------------------------------------------------------- document types

  datatype DocumentType = DocumentType(
    id: int, categoryId: int, nameEn: string, nameAr: string, nameHi: string,
    requiresExpiry: Option<bool>, requiredForEmployees: Option<bool>,
    requiredForApplicants: Option<bool>, createdAt: Instant)

  datatype NewDocumentType = NewDocumentType(
    categoryId: int, nameEn: string, nameAr: string, nameHi: string,
    requiresExpiry: Option<bool>, requiredForEmployees: Option<bool>,
    requiredForApplicants: Option<bool>)

  datatype DocumentTypePatch = DocumentTypePatch(
    categoryId: Option<int>, nameEn: Option<string>, nameAr: Option<string>, nameHi: Option<string>,
    requiresExpiry: Option<bool>, requiredForEmployees: Option<bool>,
    requiredForApplicants: Option<bool>)

  const EmptyDocumentTypePatch := DocumentTypePatch(None, None, None, None, None, None, None)

  function DocumentTypeFrom(input: NewDocumentType, id: int, now: Instant): (t: DocumentType)
    ensures t.id == id && t.createdAt == now
  {
    DocumentType(id, input.categoryId, input.nameEn, input.nameAr, input.nameHi,
                 input.requiresExpiry, input.requiredForEmployees, input.requiredForApplicants, now)
  }

  function MergeDocumentType(t: DocumentType, p: DocumentTypePatch): (r: DocumentType)
    ensures r.id == t.id && r.createdAt == t.createdAt
    ensures p == EmptyDocumentTypePatch ==> r == t
  {
    t.(categoryId := Pick(p.categoryId, t.categoryId),
       nameEn := Pick(p.nameEn, t.nameEn), nameAr := Pick(p.nameAr, t.nameAr),
       nameHi := Pick(p.nameHi, t.nameHi),
       requiresExpiry := if p.requiresExpiry.Some? then p.requiresExpiry else t.requiresExpiry,
       requiredForEmployees :=
         if p.requiredForEmployees.Some? then p.requiredForEmployees else t.requiredForEmployees,
       requiredForApplicants :=
         if p.requiredForApplicants.Some? then p.requiredForApplicants else t.requiredForApplicants)
  }

  // ---------------------------------------------------------------- documents

  datatype Document = Document(
    id: int, userId: int, typeId: int, filename: string, originalFilename: string,
    fileSize: int, mimeType: string, path: string, status: Option<string>, uploadedBy: int,
    uploadedAt: Instant, expiryDate: Option<Instant>, metaData: Option<MetaData>)

  /** A creation input may carry an `uploadedAt` of its own, which the store keeps. */
  datatype NewDocument = NewDocument(
    userId: int, typeId: int, filename: string, originalFilename: string,
    fileSize: int, mimeType: string, path: string, status: Option<string>, uploadedBy: int,
    expiryDate: Option<Instant>, metaData: Option<MetaData>, uploadedAt: Option<Instant>)

  datatype DocumentPatch = DocumentPatch(
    userId: Option<int>, typeId: Option<int>, filename: Option<string>,
    originalFilename: Option<string>, fileSize: Option<int>, mimeType: Option<string>,
    path: Option<string>, status: Option<string>, uploadedBy: Option<int>,
    expiryDate: Option<Option<Instant>>, metaData: Option<Option<MetaData>>)

  const EmptyDocumentPatch :=
    DocumentPatch(None, None, None, None, None, None, None, None, None, None, None)

  /** `{ ...input, id, uploadedAt: input.uploadedAt || now }` */
  function DocumentFrom(input: NewDocument, id: int, now: Instant): (d: Document)
    ensures d.id == id
    ensures d.uploadedAt == if input.uploadedAt.Some? then input.uploadedAt.value else now
    ensures d.status == input.status && d.expiryDate == input.expiryDate
  {
    Document(id, input.userId, input.typeId, input.filename, input.originalFilename,
             input.fileSize, input.mimeType, input.path, input.status, input.uploadedBy,
             input.uploadedAt.GetOr(now), input.expiryDate, input.metaData)
  }

  /** The stored status is the supplied one; it is never derived from `expiryDate`. */
  function MergeDocument(d: Document, p: DocumentPatch): (r: Document)
    ensures r.id == d.id && r.uploadedAt == d.uploadedAt
    ensures r.status == if p.status.Some? then p.status else d.status
    ensures p == EmptyDocumentPatch ==> r == d
  {
    d.(userId := Pick(p.userId, d.userId), typeId := Pick(p.typeId, d.typeId),
       filename := Pick(p.filename, d.filename),
       originalFilename := Pick(p.originalFilename, d.originalFilename),
       fileSize := Pick(p.fileSize, d.fileSize), mimeType := Pick(p.mimeType, d.mimeType),
       path := Pick(p.path, d.path), status := if p.status.Some? then p.status else d.status,
       uploadedBy := Pick(p.uploadedBy, d.uploadedBy),
       expiryDate := Pick(p.expiryDate, d.expiryDate), metaData := Pick(p.metaData, d.metaData))
  }

  // ---------------------------------------------------------------- persons

  datatype Person = Person(
    id: int, userId: Option<int>, personType: string, firstName: string, lastName: string,
    email: string, phone: Option<string>, nationality: Option<string>,
    department: Option<string>, position: Option<string>, avatar: Option<string>,
    status: Option<string>, createdAt: Instant)

  datatype NewPerson = NewPerson(
    userId: Option<int>, personType: string, firstName: string, lastName: string,
    email: string, phone: Option<string>, nationality: Option<string>,
    department: Option<string>, position: Option<string>, avatar: Option<string>,
    status: Option<string>)

  datatype PersonPatch = PersonPatch(
    userId: Option<Option<int>>, personType: Option<string>, firstName: Option<string>,
    lastName: Option<string>, email: Option<string>, phone: Option<Option<string>>,
    nationality: Option<Option<string>>, department: Option<Option<string>>,
    position: Option<Option<string>>, avatar: Option<Option<string>>, status: Option<string>)

  const EmptyPersonPatch :=
    PersonPatch(None, None, None, None, None, None, None, None, None, None, None)

  function PersonFrom(input: NewPerson, id: int, now: Instant): (p: Person)
    ensures p.id == id && p.createdAt == now
  {
    Person(id, input.userId, input.personType, input.firstName, input.lastName, input.email,
           input.phone, input.nationality, input.department, input.position, input.avatar,
           input.status, now)
  }

  function MergePerson(x: Person, p: PersonPatch): (r: Person)
    ensures r.id == x.id && r.createdAt == x.createdAt
    ensures p == EmptyPersonPatch ==> r == x
  {
    x.(userId := Pick(p.userId, x.userId), personType := Pick(p.personType, x.personType),
       firstName := Pick(p.firstName, x.firstName), lastName := Pick(p.lastName, x.lastName),
       email := Pick(p.email, x.email), phone := Pick(p.phone, x.phone),
       nationality := Pick(p.nationality, x.nationality),
       department := Pick(p.department, x.department), position := Pick(p.position, x.position),
       avatar := Pick(p.avatar, x.avatar), status := if p.status.Some? then p.status else x.status)
  }

  // ---------------------------------------------------------------- notifications

  datatype Notification = Notification(
    id: int, userId: int, documentId: Option<int>, title: string, message: string,
    read: Option<bool>, createdAt: Instant)

  /** A creation input may carry a `createdAt` of its own, which the store keeps. */
  datatype NewNotification = NewNotification(
    userId: int, documentId: Option<int>, title: string, message: string,
    read: Option<bool>, createdAt: Option<Instant>)

  datatype NotificationPatch = NotificationPatch(
    userId: Option<int>, documentId: Option<Option<int>>, title: Option<string>,
    message: Option<string>, read: Option<bool>)

  const EmptyNotificationPatch := NotificationPatch(None, None, None, None, None)

  /** `{ ...input, id, createdAt: input.createdAt || now }` */
  function NotificationFrom(input: NewNotification, id: int, now: Instant): (n: Notification)
    ensures n.id == id
    ensures n.createdAt == if input.createdAt.Some? then input.createdAt.value else now
  {
    Notification(id, input.userId, input.documentId, input.title, input.message, input.read,
                 input.createdAt.GetOr(now))
  }

  function MergeNotification(n: Notification, p: NotificationPatch): (r: Notification)
    ensures r.id == n.id && r.createdAt == n.createdAt
    ensures p == EmptyNotificationPatch ==> r == n
  {
    n.(userId := Pick(p.userId, n.userId), documentId := Pick(p.documentId, n.documentId),
       title := Pick(p.title, n.title), message := Pick(p.message, n.message),
       read := if p.read.Some? then p.read else n.read)
  }

  /** `notification.read = true`: only `read` changes. */
  function MarkRead(n: Notification): (r: Notification)
    ensures r.read == Some(true) && r.(read := n.read) == n
    ensures r == MergeNotification(n, EmptyNotificationPatch.(read := Some(true)))
  {
    n.(read := Some(true))
  }

  /** Marking a notification as read a second time gives what the first time gave. */
  lemma MarkReadIdempotent(n: Notification)
    ensures MarkRead(MarkRead(n)) == MarkRead(n)
  {
  }
}
