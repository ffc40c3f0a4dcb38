/**
 * The in-memory entity store (`MemStorage`): six tables, each a JavaScript `Map` from integer id
 * to record together with its own auto-increment counter.
 */
module Storage {
  import opened Wrappers
  import opened Sequences
  import opened Schema

  /** Every id is smaller than every later one. */
  predicate Increasing(ids: seq<int>) {
    forall i, j :: 0 <= i < j < |ids| ==> ids[i] < ids[j]
  }

  /** `ids` without `x`, the rest in the same order. */
  function Erase(ids: seq<int>, x: int): (r: seq<int>)
    ensures forall y :: y in r <==> y in ids && y != x
    ensures Increasing(ids) ==> Increasing(r)
  {
    if ids == [] then []
    else
      var rest := Erase(ids[1..], x);
      if ids[0] == x then rest
      else
        assert Increasing(ids) ==> forall j :: 0 <= j < |rest| ==> ids[0] < rest[j] by {
          if Increasing(ids) {
            forall j | 0 <= j < |rest| ensures ids[0] < rest[j] {
              assert rest[j] in ids[1..];
              var k :| 0 <= k < |ids[1..]| && ids[1..][k] == rest[j];
              assert ids[k + 1] == rest[j];
            }
          }
        }
        [ids[0]] + rest
  }

  /** The records of `rows` listed in the order of `order`. */
  function ValuesIn<R>(rows: map<int, R>, order: seq<int>): (vs: seq<R>)
    requires forall i :: 0 <= i < |order| ==> order[i] in rows
    ensures |vs| == |order|
    ensures forall i :: 0 <= i < |order| ==> vs[i] == rows[order[i]]
  {
    seq(|order|, i requires 0 <= i < |order| => rows[order[i]])
  }

  /**
   * A JavaScript `Map<number, R>` (a key-to-record table that remembers the order in which keys
   * were first set) together with the counter that hands out its ids.
   */
  class Table<R> {
    var rows: map<int, R>
    /** The keys of `rows` in insertion order: the order `Map` iterates in. */
    var order: seq<int>
    /** The next id to hand out (`currentXId`). */
    var nextId: int

    /**
     * Ids start at 1, every stored id was handed out before (it is below the counter), and the
     * iteration order lists each key once, oldest first, so ids increase along it.
     */
    ghost predicate Valid()
      reads this
    {
      1 <= nextId && Increasing(order) &&
      (forall k :: k in rows <==> k in order) &&
      (forall i :: 0 <= i < |order| ==> 1 <= order[i] < nextId)
    }

    /** `new Map()` with the counter at 1. */
    constructor ()
      ensures Valid()
      ensures rows == map[] && order == [] && nextId == 1
    {
      rows, order, nextId := map[], [], 1;
    }

    /** `map.get(id)` */
    function Get(id: int): (r: Option<R>)
      reads this
      ensures r.Some? <==> id in rows
      ensures r.Some? ==> r.value == rows[id]
    {
      if id in rows then Some(rows[id]) else None
    }

    /** `Array.from(map.values())`: the records in insertion order. */
    function Values(): (vs: seq<R>)
      reads this
      requires Valid()
      ensures |vs| == |order|
      ensures forall i :: 0 <= i < |order| ==> vs[i] == rows[order[i]]
      ensures forall k :: k in rows ==> rows[k] in vs
    {
      var vs := ValuesIn(rows, order);
      assert forall k :: k in rows ==> exists i :: 0 <= i < |order| && order[i] == k && vs[i] == rows[k];
      vs
    }

    /** `this.currentXId++`: hands out the current counter value and advances the counter. */
    method TakeId() returns (id: int)
      requires Valid()
      modifies this
      ensures Valid()
      ensures id == old(nextId) && nextId == id + 1
      ensures rows == old(rows) && order == old(order)
      ensures forall k :: k in rows ==> k < id
    {
      id := nextId;
      nextId := nextId + 1;
    }

    /**
     * `map.set(id, r)`: an existing key keeps its place in the iteration order, a new key goes
     * last. A new key must be an id handed out after every stored one.
     */
    method Set(id: int, r: R)
      requires Valid()
      requires id in rows || (1 <= id < nextId && forall k :: k in rows ==> k < id)
      modifies this
      ensures Valid()
      ensures rows == old(rows)[id := r] && nextId == old(nextId)
      ensures order == if id in old(rows) then old(order) else old(order) + [id]
    {
      if id !in rows {
        forall i | 0 <= i < |order| ensures order[i] < id { assert order[i] in order; }
        order := order + [id];
      }
      rows := rows[id := r];
    }

    /** `map.delete(id)`: true iff the key was present; every other entry stays as it was. */
    method Delete(id: int) returns (found: bool)
      requires Valid()
      modifies this
      ensures Valid()
      ensures found == (id in old(rows))
      ensures rows == old(rows) - {id} && nextId == old(nextId)
      ensures order == Erase(old(order), id)
    {
      found := id in rows;
      assert forall y :: y in order ==> 1 <= y < nextId;
      rows := rows - {id};
      order := Erase(order, id);
      forall i | 0 <= i < |order| ensures 1 <= order[i] < nextId { assert order[i] in order; }
    }
  }

  /** Every record is stored under its own id. */
  ghost predicate KeyedById<R>(rows: map<int, R>, id: R -> int) {
    forall k :: k in rows ==> id(rows[k]) == k
  }

  /**
   * Among the records listed in insertion order, the first that satisfies `p` has the smallest
   * id of all records satisfying `p`.
   */
  lemma FirstIsOldest<R>(t: Table<R>, id: R -> int, p: R -> bool)
    requires t.Valid() && KeyedById(t.rows, id)
    ensures var f := Find(t.Values(), p);
      f.Some? ==> (p(f.value) && f.value in t.rows.Values &&
        forall k :: k in t.rows && p(t.rows[k]) ==> id(f.value) <= k)
  {
    var vs := t.Values();
    var f := FindIndex(vs, p);
    if f >= 0 {
      forall k | k in t.rows && p(t.rows[k]) ensures id(vs[f]) <= k {
        var i :| 0 <= i < |t.order| && t.order[i] == k;
        assert vs[i] == t.rows[k];
        assert f <= i;
      }
    }
  }

  function UserId(u: User): int { u.id }
  function DocumentCategoryId(c: DocumentCategory): int { c.id }
  function DocumentTypeId(t: DocumentType): int { t.id }
  function DocumentId(d: Document): int { d.id }
  function PersonId(p: Person): int { p.id }
  function NotificationId(n: Notification): int { n.id }

  /**
   * `MemStorage`: one table per record kind, each with its own counter. Tables are never
   * replaced, only updated, so they are constant fields.
   */
  class MemStorage {
    const users: Table<User>
    const documentCategories: Table<DocumentCategory>
    const documentTypes: Table<DocumentType>
    const documents: Table<Document>
    const persons: Table<Person>
    const notifications: Table<Notification>

    ghost predicate Valid()
      reads this, users, documentCategories, documentTypes, documents, persons, notifications
    {
      users.Valid() && KeyedById(users.rows, UserId) &&
      documentCategories.Valid() && KeyedById(documentCategories.rows, DocumentCategoryId) &&
      documentTypes.Valid() && KeyedById(documentTypes.rows, DocumentTypeId) &&
      documents.Valid() && KeyedById(documents.rows, DocumentId) &&
      persons.Valid() && KeyedById(persons.rows, PersonId) &&
      notifications.Valid() && KeyedById(notifications.rows, NotificationId)
    }

    /** Six empty tables, every counter at 1. */
    constructor ()
      ensures Valid()
      ensures fresh(users) && fresh(documentCategories) && fresh(documentTypes)
      ensures fresh(documents) && fresh(persons) && fresh(notifications)
      ensures users.rows == map[] && users.nextId == 1
      ensures documentCategories.rows == map[] && documentCategories.nextId == 1
      ensures documentTypes.rows == map[] && documentTypes.nextId == 1
      ensures documents.rows == map[] && documents.nextId == 1
      ensures persons.rows == map[] && persons.nextId == 1
      ensures notifications.rows == map[] && notifications.nextId == 1
    {
      users := new Table();
      documentCategories := new Table();
      documentTypes := new Table();
      documents := new Table();
      persons := new Table();
      notifications := new Table();
    }

    // ------------------------------------------------------------ users

    /** `getUser` */
    function GetUser(id: int): (r: Option<User>)
      reads this, users
      requires KeyedById(users.rows, UserId)
      ensures r.Some? <==> id in users.rows
      ensures r.Some? ==> r.value.id == id && r.value == users.rows[id]
    {
      users.Get(id)
    }

    /** `getUserByUsername`: the earliest-created user with that username, if any. */
    function GetUserByUsername(username: string): (r: Option<User>)
      reads this, users
      requires users.Valid() && KeyedById(users.rows, UserId)
      ensures r.None? <==> forall k :: k in users.rows ==> users.rows[k].username != username
      ensures r.Some? ==> (r.value.username == username && r.value.id in users.rows &&
        users.rows[r.value.id] == r.value)
      ensures r.Some? ==> forall k :: k in users.rows && users.rows[k].username == username ==>
        r.value.id <= k
    {
      var p := (u: User) => u.username == username;
      FirstIsOldest(users, UserId, p);
      Find(users.Values(), p)
    }

    /** `createUser`: no check that the username is unused. */
    method CreateUser(input: NewUser, now: Instant) returns (user: User)
      requires Valid()
      modifies users
      ensures Valid()
      ensures user == UserFrom(input, old(users.nextId), now)
      ensures user.id !in old(users.rows) && users.nextId == old(users.nextId) + 1
      ensures users.rows == old(users.rows)[user.id := user]
      ensures users.order == old(users.order) + [user.id]
    {
      var id := users.TakeId();
      user := UserFrom(input, id, now);
      users.Set(id, user);
    }

    /** `updateUser` */
    method UpdateUser(id: int, patch: UserPatch) returns (r: Option<User>)
      requires Valid()
      modifies users
      ensures Valid()
      ensures r.None? <==> id !in old(users.rows)
      ensures r.Some? ==> r.value == MergeUser(old(users.rows[id]), patch)
      ensures users.rows == if r.Some? then old(users.rows)[id := r.value] else old(users.rows)
      ensures users.order == old(users.order) && users.nextId == old(users.nextId)
    {
      var existing := users.Get(id);
      if existing.None? {
        return None;
      }
      var updated := MergeUser(existing.value, patch);
      users.Set(id, updated);
      r := Some(updated);
    }

    // ------------------------------------------------------------ document categories

    /** `getDocumentCategories` */
    function GetDocumentCategories(): (r: seq<DocumentCategory>)
      reads this, documentCategories
      requires documentCategories.Valid()
      ensures |r| == |documentCategories.order|
      ensures forall i :: 0 <= i < |r| ==> r[i] == documentCategories.rows[documentCategories.order[i]]
    {
      documentCategories.Values()
    }

    /** `getDocumentCategory` */
    function GetDocumentCategory(id: int): (r: Option<DocumentCategory>)
      reads this, documentCategories
      requires KeyedById(documentCategories.rows, DocumentCategoryId)
      ensures r.Some? <==> id in documentCategories.rows
      ensures r.Some? ==> r.value.id == id && r.value == documentCategories.rows[id]
    {
      documentCategories.Get(id)
    }

    /** `createDocumentCategory` */
    method CreateDocumentCategory(input: NewDocumentCategory, now: Instant)
      returns (category: DocumentCategory)
      requires Valid()
      modifies documentCategories
      ensures Valid()
      ensures category == DocumentCategoryFrom(input, old(documentCategories.nextId), now)
      ensures category.id !in old(documentCategories.rows)
      ensures documentCategories.nextId == old(documentCategories.nextId) + 1
      ensures documentCategories.rows == old(documentCategories.rows)[category.id := category]
      ensures documentCategories.order == old(documentCategories.order) + [category.id]
    {
      var id := documentCategories.TakeId();
      category := DocumentCategoryFrom(input, id, now);
      documentCategories.Set(id, category);
    }

    /** `updateDocumentCategory` */
    method UpdateDocumentCategory(id: int, patch: DocumentCategoryPatch)
      returns (r: Option<DocumentCategory>)
      requires Valid()
      modifies documentCategories
      ensures Valid()
      ensures r.None? <==> id !in old(documentCategories.rows)
      ensures r.Some? ==> r.value == MergeDocumentCategory(old(documentCategories.rows[id]), patch)
      ensures documentCategories.rows ==
        if r.Some? then old(documentCategories.rows)[id := r.value] else old(documentCategories.rows)
      ensures documentCategories.order == old(documentCategories.order)
      ensures documentCategories.nextId == old(documentCategories.nextId)
    {
      var existing := documentCategories.Get(id);
      if existing.None? {
        return None;
      }
      var updated := MergeDocumentCategory(existing.value, patch);
      documentCategories.Set(id, updated);
      r := Some(updated);
    }

    /** `deleteDocumentCategory`: no cascade to the types of the category. */
    method DeleteDocumentCategory(id: int) returns (found: bool)
      requires Valid()
      modifies documentCategories
      ensures Valid()
      ensures found == (id in old(documentCategories.rows))
      ensures documentCategories.rows == old(documentCategories.rows) - {id}
      ensures documentCategories.order == Erase(old(documentCategories.order), id)
      ensures documentCategories.nextId == old(documentCategories.nextId)
    {
      found := documentCategories.Delete(id);
    }

    // ------------------------------------------------------------ document types

    /** `getDocumentTypes` */
    function GetDocumentTypes(): (r: seq<DocumentType>)
      reads this, documentTypes
      requires documentTypes.Valid()
      ensures |r| == |documentTypes.order|
      ensures forall i :: 0 <= i < |r| ==> r[i] == documentTypes.rows[documentTypes.order[i]]
    {
      documentTypes.Values()
    }

    /** `getDocumentTypesByCategory` */
    function GetDocumentTypesByCategory(categoryId: int): (r: seq<DocumentType>)
      reads this, documentTypes
      requires documentTypes.Valid()
      ensures forall t :: t in r <==> t in GetDocumentTypes() && t.categoryId == categoryId
      ensures IsSubsequence(r, GetDocumentTypes())
      ensures forall t :: multiset(r)[t] == if t.categoryId == categoryId then multiset(GetDocumentTypes())[t] else 0
    {
      Filter(GetDocumentTypes(), (t: DocumentType) => t.categoryId == categoryId)
    }

    /** `getDocumentType` */
    function GetDocumentType(id: int): (r: Option<DocumentType>)
      reads this, documentTypes
      requires KeyedById(documentTypes.rows, DocumentTypeId)
      ensures r.Some? <==> id in documentTypes.rows
      ensures r.Some? ==> r.value.id == id && r.value == documentTypes.rows[id]
    {
      documentTypes.Get(id)
    }

    /** `createDocumentType`: the category id is not checked against the categories. */
    method CreateDocumentType(input: NewDocumentType, now: Instant) returns (docType: DocumentType)
      requires Valid()
      modifies documentTypes
      ensures Valid()
      ensures docType == DocumentTypeFrom(input, old(documentTypes.nextId), now)
      ensures docType.id !in old(documentTypes.rows)
      ensures documentTypes.nextId == old(documentTypes.nextId) + 1
      ensures documentTypes.rows == old(documentTypes.rows)[docType.id := docType]
      ensures documentTypes.order == old(documentTypes.order) + [docType.id]
    {
      var id := documentTypes.TakeId();
      docType := DocumentTypeFrom(input, id, now);
      documentTypes.Set(id, docType);
    }

    /** `updateDocumentType` */
    method UpdateDocumentType(id: int, patch: DocumentTypePatch) returns (r: Option<DocumentType>)
      requires Valid()
      modifies documentTypes
      ensures Valid()
      ensures r.None? <==> id !in old(documentTypes.rows)
      ensures r.Some? ==> r.value == MergeDocumentType(old(documentTypes.rows[id]), patch)
      ensures documentTypes.rows ==
        if r.Some? then old(documentTypes.rows)[id := r.value] else old(documentTypes.rows)
      ensures documentTypes.order == old(documentTypes.order)
      ensures documentTypes.nextId == old(documentTypes.nextId)
    {
      var existing := documentTypes.Get(id);
      if existing.None? {
        return None;
      }
      var updated := MergeDocumentType(existing.value, patch);
      documentTypes.Set(id, updated);
      r := Some(updated);
    }

    /** `deleteDocumentType`: no cascade to the documents of the type. */
    method DeleteDocumentType(id: int) returns (found: bool)
      requires Valid()
      modifies documentTypes
      ensures Valid()
      ensures found == (id in old(documentTypes.rows))
      ensures documentTypes.rows == old(documentTypes.rows) - {id}
      ensures documentTypes.order == Erase(old(documentTypes.order), id)
      ensures documentTypes.nextId == old(documentTypes.nextId)
    {
      found := documentTypes.Delete(id);
    }

    // ------------------------------------------------------------ documents

    /** `getDocuments` */
    function GetDocuments(): (r: seq<Document>)
      reads this, documents
      requires documents.Valid()
      ensures |r| == |documents.order|
      ensures forall i :: 0 <= i < |r| ==> r[i] == documents.rows[documents.order[i]]
    {
      documents.Values()
    }

    /** `getDocument` */
    function GetDocument(id: int): (r: Option<Document>)
      reads this, documents
      requires KeyedById(documents.rows, DocumentId)
      ensures r.Some? <==> id in documents.rows
      ensures r.Some? ==> r.value.id == id && r.value == documents.rows[id]
    {
      documents.Get(id)
    }

    /** `getDocumentsByUser`: the documents of one person. */
    function GetDocumentsByUser(userId: int): (r: seq<Document>)
      reads this, documents
      requires documents.Valid()
      ensures forall d :: d in r <==> d in GetDocuments() && d.userId == userId
      ensures IsSubsequence(r, GetDocuments())
      ensures forall d :: multiset(r)[d] == if d.userId == userId then multiset(GetDocuments())[d] else 0
    {
      Filter(GetDocuments(), (d: Document) => d.userId == userId)
    }

    /** `getDocumentsByType` */
    function GetDocumentsByType(typeId: int): (r: seq<Document>)
      reads this, documents
      requires documents.Valid()
      ensures forall d :: d in r <==> d in GetDocuments() && d.typeId == typeId
      ensures IsSubsequence(r, GetDocuments())
      ensures forall d :: multiset(r)[d] == if d.typeId == typeId then multiset(GetDocuments())[d] else 0
    {
      Filter(GetDocuments(), (d: Document) => d.typeId == typeId)
    }

    /** `getDocumentsByStatus`: compares the stored status; a document without one never matches. */
    function GetDocumentsByStatus(status: string): (r: seq<Document>)
      reads this, documents
      requires documents.Valid()
      ensures forall d :: d in r <==> d in GetDocuments() && d.status == Some(status)
      ensures IsSubsequence(r, GetDocuments())
      ensures forall d :: multiset(r)[d] == if d.status == Some(status) then multiset(GetDocuments())[d] else 0
    {
      Filter(GetDocuments(), (d: Document) => d.status == Some(status))
    }

    /**
     * `createDocument`: keeps an `uploadedAt` the input carries, otherwise uses `now`; the status
     * is stored as supplied.
     */
    method CreateDocument(input: NewDocument, now: Instant) returns (document: Document)
      requires Valid()
      modifies documents
      ensures Valid()
      ensures document == DocumentFrom(input, old(documents.nextId), now)
      ensures document.id !in old(documents.rows)
      ensures documents.nextId == old(documents.nextId) + 1
      ensures documents.rows == old(documents.rows)[document.id := document]
      ensures documents.order == old(documents.order) + [document.id]
    {
      var id := documents.TakeId();
      document := DocumentFrom(input, id, now);
      documents.Set(id, document);
    }

    /** `updateDocument`: the status is stored as supplied, never derived from the expiry date. */
    method UpdateDocument(id: int, patch: DocumentPatch) returns (r: Option<Document>)
      requires Valid()
      modifies documents
      ensures Valid()
      ensures r.None? <==> id !in old(documents.rows)
      ensures r.Some? ==> r.value == MergeDocument(old(documents.rows[id]), patch)
      ensures documents.rows == if r.Some? then old(documents.rows)[id := r.value] else old(documents.rows)
      ensures documents.order == old(documents.order) && documents.nextId == old(documents.nextId)
    {
      var existing := documents.Get(id);
      if existing.None? {
        return None;
      }
      var updated := MergeDocument(existing.value, patch);
      documents.Set(id, updated);
      r := Some(updated);
    }

    /** `deleteDocument` */
    method DeleteDocument(id: int) returns (found: bool)
      requires Valid()
      modifies documents
      ensures Valid()
      ensures found == (id in old(documents.rows))
      ensures documents.rows == old(documents.rows) - {id}
      ensures documents.order == Erase(old(documents.order), id)
      ensures documents.nextId == old(documents.nextId)
    {
      found := documents.Delete(id);
    }

    // ------------------------------------------------------------ persons

    /** `getPersons` */
    function GetPersons(): (r: seq<Person>)
      reads this, persons
      requires persons.Valid()
      ensures |r| == |persons.order|
      ensures forall i :: 0 <= i < |r| ==> r[i] == persons.rows[persons.order[i]]
    {
      persons.Values()
    }

    /** `getPersonsByType`: employees or applicants. */
    function GetPersonsByType(personType: string): (r: seq<Person>)
      reads this, persons
      requires persons.Valid()
      ensures forall p :: p in r <==> p in GetPersons() && p.personType == personType
      ensures IsSubsequence(r, GetPersons())
      ensures forall p :: multiset(r)[p] == if p.personType == personType then multiset(GetPersons())[p] else 0
    {
      Filter(GetPersons(), (p: Person) => p.personType == personType)
    }

    /** `getPerson` */
    function GetPerson(id: int): (r: Option<Person>)
      reads this, persons
      requires KeyedById(persons.rows, PersonId)
      ensures r.Some? <==> id in persons.rows
      ensures r.Some? ==> r.value.id == id && r.value == persons.rows[id]
    {
      persons.Get(id)
    }

    /** `createPerson` */
    method CreatePerson(input: NewPerson, now: Instant) returns (person: Person)
      requires Valid()
      modifies persons
      ensures Valid()
      ensures person == PersonFrom(input, old(persons.nextId), now)
      ensures person.id !in old(persons.rows) && persons.nextId == old(persons.nextId) + 1
      ensures persons.rows == old(persons.rows)[person.id := person]
      ensures persons.order == old(persons.order) + [person.id]
    {
      var id := persons.TakeId();
      person := PersonFrom(input, id, now);
      persons.Set(id, person);
    }

    /** `updatePerson` */
    method UpdatePerson(id: int, patch: PersonPatch) returns (r: Option<Person>)
      requires Valid()
      modifies persons
      ensures Valid()
      ensures r.None? <==> id !in old(persons.rows)
      ensures r.Some? ==> r.value == MergePerson(old(persons.rows[id]), patch)
      ensures persons.rows == if r.Some? then old(persons.rows)[id := r.value] else old(persons.rows)
      ensures persons.order == old(persons.order) && persons.nextId == old(persons.nextId)
    {
      var existing := persons.Get(id);
      if existing.None? {
        return None;
      }
      var updated := MergePerson(existing.value, patch);
      persons.Set(id, updated);
      r := Some(updated);
    }

    /** `deletePerson`: the person's documents stay. */
    method DeletePerson(id: int) returns (found: bool)
      requires Valid()
      modifies persons
      ensures Valid()
      ensures found == (id in old(persons.rows))
      ensures persons.rows == old(persons.rows) - {id}
      ensures persons.order == Erase(old(persons.order), id)
      ensures persons.nextId == old(persons.nextId)
    {
      found := persons.Delete(id);
    }

    // ------------------------------------------------------------ notifications

    /** `getNotifications` */
    function GetNotifications(): (r: seq<Notification>)
      reads this, notifications
      requires notifications.Valid()
      ensures |r| == |notifications.order|
      ensures forall i :: 0 <= i < |r| ==> r[i] == notifications.rows[notifications.order[i]]
    {
      notifications.Values()
    }

    /** `getNotificationsByUser` */
    function GetNotificationsByUser(userId: int): (r: seq<Notification>)
      reads this, notifications
      requires notifications.Valid()
      ensures forall n :: n in r <==> n in GetNotifications() && n.userId == userId
      ensures IsSubsequence(r, GetNotifications())
      ensures forall n :: multiset(r)[n] == if n.userId == userId then multiset(GetNotifications())[n] else 0
    {
      Filter(GetNotifications(), (n: Notification) => n.userId == userId)
    }

    /** `getNotification` */
    function GetNotification(id: int): (r: Option<Notification>)
      reads this, notifications
      requires KeyedById(notifications.rows, NotificationId)
      ensures r.Some? <==> id in notifications.rows
      ensures r.Some? ==> r.value.id == id && r.value == notifications.rows[id]
    {
      notifications.Get(id)
    }

    /** `createNotification`: keeps a `createdAt` the input carries, otherwise uses `now`. */
    method CreateNotification(input: NewNotification, now: Instant) returns (notification: Notification)
      requires Valid()
      modifies notifications
      ensures Valid()
      ensures notification == NotificationFrom(input, old(notifications.nextId), now)
      ensures notification.id !in old(notifications.rows)
      ensures notifications.nextId == old(notifications.nextId) + 1
      ensures notifications.rows == old(notifications.rows)[notification.id := notification]
      ensures notifications.order == old(notifications.order) + [notification.id]
    {
      var id := notifications.TakeId();
      notification := NotificationFrom(input, id, now);
      notifications.Set(id, notification);
    }

    /** `updateNotification` */
    method UpdateNotification(id: int, patch: NotificationPatch) returns (r: Option<Notification>)
      requires Valid()
      modifies notifications
      ensures Valid()
      ensures r.None? <==> id !in old(notifications.rows)
      ensures r.Some? ==> r.value == MergeNotification(old(notifications.rows[id]), patch)
      ensures notifications.rows ==
        if r.Some? then old(notifications.rows)[id := r.value] else old(notifications.rows)
      ensures notifications.order == old(notifications.order)
      ensures notifications.nextId == old(notifications.nextId)
    {
      var existing := notifications.Get(id);
      if existing.None? {
        return None;
      }
      var updated := MergeNotification(existing.value, patch);
      notifications.Set(id, updated);
      r := Some(updated);
    }

    /** `deleteNotification` */
    method DeleteNotification(id: int) returns (found: bool)
      requires Valid()
      modifies notifications
      ensures Valid()
      ensures found == (id in old(notifications.rows))
      ensures notifications.rows == old(notifications.rows) - {id}
      ensures notifications.order == Erase(old(notifications.order), id)
      ensures notifications.nextId == old(notifications.nextId)
    {
      found := notifications.Delete(id);
    }

    /** `markNotificationAsRead`: sets `read`, leaves every other field as it was. */
    method MarkNotificationAsRead(id: int) returns (r: Option<Notification>)
      requires Valid()
      modifies notifications
      ensures Valid()
      ensures r.None? <==> id !in old(notifications.rows)
      ensures r.Some? ==> r.value == MarkRead(old(notifications.rows[id]))
      ensures notifications.rows ==
        if r.Some? then old(notifications.rows)[id := r.value] else old(notifications.rows)
      ensures notifications.order == old(notifications.order)
      ensures notifications.nextId == old(notifications.nextId)
    {
      var existing := notifications.Get(id);
      if existing.None? {
        return None;
      }
      var marked := MarkRead(existing.value);
      notifications.Set(id, marked);
      r := Some(marked);
    }
  }
}
