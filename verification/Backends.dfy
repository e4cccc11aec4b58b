/** Four stores under one set of ports. SQLite keeps nanoseconds and is the contract of Notes and
    RefreshTokens as it stands, with its foreign key. PostgreSQL answers with RETURNING, keeps
    microseconds and refuses U+0000 (src/repository/postgres.rs). MySQL writes and then reads, counts
    changed rows, keeps microseconds and refuses a text its column cannot hold
    (src/repository/mysql.rs). MongoDB stores documents in whole milliseconds, sorts by a total order
    and knows no foreign key (src/repository/mongo.rs). Each has steps on its own state, and runs of
    those steps are compared. Instants are nanoseconds; `users` are the accounts there are. */
module Backends {
  import opened Common
  import opened Notes
  import R = RefreshTokens

  const MICRO: Grain := 1_000
  const MILLI: Grain := 1_000_000

  // ----- what a store may refuse

  predicate ForeignKeyFails(users: set<nat>, t: Table, op: Op) {
    op.Insert? && op.id !in t && op.owner !in users
  }

  predicate HasNul(op: Op) {
    (op.Insert? || op.UpdateOwned?) && ('\0' in op.title || '\0' in op.body)
  }

  /** The length of a text in UTF-8 (section 3 of RFC 3629). */
  function Utf8Length(s: string): nat {
    if s == "" then 0
    else
      Utf8Length(s[1..])
      + if s[0] < '\U{80}' then 1 else if s[0] < '\U{800}' then 2 else if s[0] < '\U{10000}' then 3 else 4
  }

  predicate OfWidth(c: char, width: nat) {
    match width
    case 1 => c <= '\U{7F}'
    case 2 => '\U{80}' <= c <= '\U{7FF}'
    case 3 => '\U{800}' <= c <= '\U{FFFF}'
    case 4 => '\U{10000}' <= c <= '\U{10FFFF}'
    case _ => false
  }

  /** An ASCII text has one octet a character; beyond U+007F two, beyond U+07FF three, beyond U+FFFF four. */
  lemma {:induction false} Utf8OfWidth(s: string, width: nat)
    requires forall k | 0 <= k < |s| :: OfWidth(s[k], width)
    ensures Utf8Length(s) == width * |s|
  {
    if s != "" {
      assert OfWidth(s[0], width);
      Utf8OfWidth(s[1..], width);
    }
  }

  lemma {:induction false} Utf8Adds(a: string, b: string)
    ensures Utf8Length(a + b) == Utf8Length(a) + Utf8Length(b)
  {
    if a == "" {
      assert a + b == b;
    } else {
      assert (a + b)[1..] == a[1..] + b;
      Utf8Adds(a[1..], b);
    }
  }

  const TEXT_BYTES: nat := 65_535

  predicate TooLong(op: Op) {
    (op.Insert? || op.UpdateOwned?) && (Utf8Length(op.title) > TEXT_BYTES || Utf8Length(op.body) > TEXT_BYTES)
  }

  // ----- SQLite and PostgreSQL: notes

  /** INSERT, UPDATE or DELETE with RETURNING, and the SELECTs: the contract and its foreign key. */
  ghost predicate SqliteStep(users: set<nat>, t: Table, op: Op, now: Time, n: Table, answer: Answer) {
    if ForeignKeyFails(users, t, op) then n == t && answer == Refused
    else n == Effect(t, op, now) && MayAnswer(t, op, now, answer)
  }

  /** The same statements; a text with a U+0000 does not even reach the rows. */
  ghost predicate PostgresStep(users: set<nat>, t: Table, op: Op, now: Time, n: Table, answer: Answer) {
    if HasNul(op) then n == t && answer == Refused
    else SqliteStep(users, t, op, Cut(now, MICRO), n, answer)
  }

  class PostgresNotes {
    var rows: Table
    const users: set<nat>

    constructor (users: set<nat>)
      ensures rows == map[] && this.users == users
    {
      rows := map[];
      this.users := users;
    }

    method Insert(id: nat, owner: nat, title: string, body: string, now: Time) returns (answer: Answer)
      modifies this
      ensures PostgresStep(users, old(rows), Op.Insert(id, owner, title, body), now, rows, answer)
    {
      if '\0' in title || '\0' in body {
        return Refused;
      }
      if id in rows {
        return Conflict;
      }
      if owner !in users {
        return Refused;
      }
      rows := rows[id := Note(owner, title, body, Cut(now, MICRO), Cut(now, MICRO))];
      return Stored(rows[id]);
    }

    method UpdateOwned(id: nat, owner: nat, title: string, body: string, now: Time) returns (answer: Answer)
      modifies this
      ensures PostgresStep(users, old(rows), Op.UpdateOwned(id, owner, title, body), now, rows, answer)
    {
      if '\0' in title || '\0' in body {
        return Refused;
      }
      if id in rows && rows[id].owner == owner {
        rows := rows[id := rows[id].(title := title, body := body, updatedAt := Cut(now, MICRO))];
        return Maybe(Some(rows[id]));
      }
      return Maybe(None);
    }
  }

  // ----- MySQL: notes

  /** `rows_affected` of an UPDATE by primary key: one if the row matched and really changed. */
  function ChangedRows<T(==)>(matched: bool, before: T, after: T): nat {
    if matched && before != after then 1 else 0
  }

  /** UPDATE ... WHERE id = ? AND owner_id = ?: the table after it, and the rows it changed. */
  function UpdateWhere(t: Table, id: nat, owner: nat, title: string, body: string, now: Time): (Table, nat) {
    if id in t && t[id].owner == owner then
      var note := t[id].(title := title, body := body, updatedAt := now);
      (t[id := note], ChangedRows(true, t[id], note))
    else (t, 0)
  }

  /** DELETE ... WHERE id = ? AND owner_id = ?: the table after it, and the rows it deleted. */
  function DeleteWhere(t: Table, id: nat, owner: nat): (Table, nat) {
    if id in t && t[id].owner == owner then (t - {id}, 1) else (t, 0)
  }

  function SelectWhere(t: Table, id: nat, owner: nat): Option<Note> {
    if id in t && t[id].owner == owner then Some(t[id]) else None
  }

  /** A write that a TEXT column cannot hold; an UPDATE that matches no row holds nothing. */
  predicate DataTooLong(t: Table, op: Op) {
    TooLong(op) && (op.UpdateOwned? ==> Owns(t, op.owner, op.id))
  }

  /** One operation of the MySQL repository, from table t to table n. */
  ghost predicate MySqlStep(users: set<nat>, t: Table, op: Op, clock: Time, n: Table, answer: Answer) {
    var now := Cut(clock, MICRO);
    if DataTooLong(t, op) then n == t && answer == Refused
    else match op
      case Insert(id, owner, title, body) =>
        if id in t then n == t && answer == Conflict
        else if owner !in users then n == t && answer == Refused
        else n == t[id := Note(owner, title, body, now, now)] && answer == Stored(n[id])
      case FindOwned(id, owner) => n == t && answer == Maybe(SelectWhere(t, id, owner))
      case ListOwned(owner, limit, offset) =>
        && n == t && answer.Listed?
        && exists ids :: NewestFirst(t, owner, ids) && answer.ids == Window(ids, limit, offset)
      case CountOwned(owner) => n == t && answer == Counted(|OwnedIds(t, owner)|)
      case UpdateOwned(id, owner, title, body) =>
        n == UpdateWhere(t, id, owner, title, body, now).0 && answer == Maybe(SelectWhere(n, id, owner))
      case DeleteOwned(id, owner) =>
        var (after, rowsAffected) := DeleteWhere(t, id, owner);
        n == after && answer == Deleted(rowsAffected == 1)
  }

  class MySqlNotes {
    var rows: Table
    const users: set<nat>

    constructor (users: set<nat>)
      ensures rows == map[] && this.users == users
    {
      rows := map[];
      this.users := users;
    }

    /** None if a TEXT column cannot hold what a matching row would be given. */
    method ExecuteUpdate(id: nat, owner: nat, title: string, body: string, now: Time)
      returns (rowsAffected: Option<nat>)
      modifies this
      ensures rowsAffected.None? <==> DataTooLong(old(rows), Op.UpdateOwned(id, owner, title, body))
      ensures rowsAffected.None? ==> rows == old(rows)
      ensures rowsAffected.Some? ==> (rows, rowsAffected.value) == UpdateWhere(old(rows), id, owner, title, body, now)
    {
      if id in rows && rows[id].owner == owner {
        if Utf8Length(title) > TEXT_BYTES || Utf8Length(body) > TEXT_BYTES {
          return None;
        }
        var note := rows[id].(title := title, body := body, updatedAt := now);
        rowsAffected := Some(ChangedRows(true, rows[id], note));
        rows := rows[id := note];
      } else {
        rowsAffected := Some(0);
      }
    }

    method Select(id: nat, owner: nat) returns (found: Option<Note>)
      ensures found == SelectWhere(rows, id, owner)
    {
      if id in rows && rows[id].owner == owner {
        return Some(rows[id]);
      }
      return None;
    }

    /** Write, then read under the same WHERE: the count is ignored. */
    method UpdateOwned(id: nat, owner: nat, title: string, body: string, now: Time) returns (answer: Answer)
      modifies this
      ensures MySqlStep(users, old(rows), Op.UpdateOwned(id, owner, title, body), now, rows, answer)
    {
      var rowsAffected := ExecuteUpdate(id, owner, title, body, Cut(now, MICRO));
      if rowsAffected.None? {
        return Refused;
      }
      var found := Select(id, owner);
      return Maybe(found);
    }

    method Insert(id: nat, owner: nat, title: string, body: string, now: Time) returns (answer: Answer)
      modifies this
      ensures MySqlStep(users, old(rows), Op.Insert(id, owner, title, body), now, rows, answer)
    {
      if Utf8Length(title) > TEXT_BYTES || Utf8Length(body) > TEXT_BYTES {
        return Refused;
      }
      if id in rows {
        return Conflict;
      }
      if owner !in users {
        return Refused;
      }
      rows := rows[id := Note(owner, title, body, Cut(now, MICRO), Cut(now, MICRO))];
      return Stored(rows[id]);
    }

    method DeleteOwned(id: nat, owner: nat) returns (one: bool)
      modifies this
      ensures MySqlStep(users, old(rows), Op.DeleteOwned(id, owner), 0, rows, Deleted(one))
    {
      var rowsAffected := 0;
      if id in rows && rows[id].owner == owner {
        rows := rows - {id};
        rowsAffected := 1;
      }
      one := rowsAffected == 1;
    }
  }

  /** Why the count of an UPDATE must be ignored: it misjudges exactly the re-saving of what is
      already there. */
  lemma CountMisjudgesIffIdentical(t: Table, id: nat, owner: nat, title: string, body: string, now: Time)
    ensures (UpdateWhere(t, id, owner, title, body, now).1 == 1) != Owns(t, owner, id)
      <==> Owns(t, owner, id) && t[id].title == title && t[id].body == body && t[id].updatedAt == now
  {
  }

  /** Writing and reading does what RETURNING does, identical content included, wherever the columns
      can hold the texts. */
  lemma MySqlMeetsContract(users: set<nat>, t: Table, op: Op, now: Time, n: Table, answer: Answer)
    requires !DataTooLong(t, op)
    ensures MySqlStep(users, t, op, now, n, answer) <==> SqliteStep(users, t, op, Cut(now, MICRO), n, answer)
  {
  }

  // ----- MongoDB: notes

  function ToMillis(t: Time): Time { t / MILLI }

  function FromMillis(ms: Time): Time { ms * MILLI }

  datatype NoteDoc = NoteDoc(owner: nat, title: string, body: string, createdMs: Time, updatedMs: Time)

  type Docs = map<nat, NoteDoc>

  function IntoNote(d: NoteDoc): Note {
    Note(d.owner, d.title, d.body, FromMillis(d.createdMs), FromMillis(d.updatedMs))
  }

  /** The notes the documents stand for. */
  function NotesOf(docs: Docs): Table {
    map id | id in docs :: IntoNote(docs[id])
  }

  predicate Matches(docs: Docs, id: nat, owner: nat) {
    id in docs && docs[id].owner == owner
  }

  function FoundDoc(docs: Docs, id: nat, owner: nat): Option<Note> {
    if Matches(docs, id, owner) then Some(IntoNote(docs[id])) else None
  }

  predicate SortsBefore(docs: Docs, a: nat, b: nat)
    requires a in docs && b in docs
  {
    docs[a].createdMs > docs[b].createdMs || (docs[a].createdMs == docs[b].createdMs && a < b)
  }

  /** sort { created_at: -1, _id: 1 } on the stored documents. */
  ghost predicate SortedDocs(docs: Docs, owner: nat, ids: seq<nat>) {
    && (forall k | 0 <= k < |ids| :: Matches(docs, ids[k], owner))
    && (forall id :: Matches(docs, id, owner) ==> id in ids)
    && (forall i, j | 0 <= i < j < |ids| :: SortsBefore(docs, ids[i], ids[j]))
  }

  /** skip and limit, where a limit of zero means none. */
  function MongoWindow(ids: seq<nat>, limit: nat, offset: nat): seq<nat> {
    Window(ids, if limit == 0 then |ids| else limit, offset)
  }

  /** The one page size on which the stores part: zero, which the clamped limit of the service
      never is. */
  lemma WindowsAgreeIff(ids: seq<nat>, limit: nat, offset: nat)
    ensures MongoWindow(ids, limit, offset) == Window(ids, limit, offset) <==> limit > 0 || offset >= |ids|
  {
  }

  /** One operation of the MongoDB repository, from documents to documents. */
  ghost predicate MongoStep(docs: Docs, op: Op, now: Time, n: Docs, answer: Answer) {
    match op
    case Insert(id, owner, title, body) =>
      if id in docs then n == docs && answer == Conflict
      else
        var document := NoteDoc(owner, title, body, ToMillis(now), ToMillis(now));
        n == docs[id := document] && answer == Stored(IntoNote(document))
    case FindOwned(id, owner) => n == docs && answer == Maybe(FoundDoc(docs, id, owner))
    case ListOwned(owner, limit, offset) =>
      n == docs && answer.Listed? && exists ids ::
        SortedDocs(docs, owner, ids) && answer.ids == MongoWindow(ids, limit, offset)
    case CountOwned(owner) => n == docs && answer == Counted(|set id | id in docs && docs[id].owner == owner|)
    case UpdateOwned(id, owner, title, body) =>
      if Matches(docs, id, owner) then
        var document := docs[id].(title := title, body := body, updatedMs := ToMillis(now));
        n == docs[id := document] && answer == Maybe(Some(IntoNote(document)))
      else n == docs && answer == Maybe(None)
    case DeleteOwned(id, owner) =>
      n == (if Matches(docs, id, owner) then docs - {id} else docs) && answer == Deleted(|docs| - |n| == 1)
  }

  class MongoNotes {
    var docs: Docs

    constructor ()
      ensures docs == map[]
    {
      docs := map[];
    }

    method Insert(id: nat, owner: nat, title: string, body: string, now: Time) returns (stored: Option<Note>)
      modifies this
      ensures MongoStep(old(docs), Op.Insert(id, owner, title, body), now, docs,
        if stored.Some? then Stored(stored.value) else Conflict)
      ensures NotesOf(docs) == Effect(NotesOf(old(docs)), Op.Insert(id, owner, title, body), Cut(now, MILLI))
      ensures MayAnswer(NotesOf(old(docs)), Op.Insert(id, owner, title, body), Cut(now, MILLI),
        if stored.Some? then Stored(stored.value) else Conflict)
    {
      if id in docs {
        return None;
      }
      var document := NoteDoc(owner, title, body, ToMillis(now), ToMillis(now));
      docs := docs[id := document];
      return Some(IntoNote(document));
    }

    /** find_one_and_update with ReturnDocument::After: one atomic filter-and-set. */
    method UpdateOwned(id: nat, owner: nat, title: string, body: string, now: Time) returns (found: Option<Note>)
      modifies this
      ensures MongoStep(old(docs), Op.UpdateOwned(id, owner, title, body), now, docs, Maybe(found))
      ensures NotesOf(docs) == Effect(NotesOf(old(docs)), Op.UpdateOwned(id, owner, title, body), Cut(now, MILLI))
      ensures MayAnswer(NotesOf(old(docs)), Op.UpdateOwned(id, owner, title, body), Cut(now, MILLI), Maybe(found))
    {
      if id in docs && docs[id].owner == owner {
        docs := docs[id := docs[id].(title := title, body := body, updatedMs := ToMillis(now))];
        return Some(IntoNote(docs[id]));
      }
      return None;
    }

    method DeleteOwned(id: nat, owner: nat) returns (one: bool)
      modifies this
      ensures MongoStep(old(docs), Op.DeleteOwned(id, owner), 0, docs, Deleted(one))
      ensures NotesOf(docs) == Effect(NotesOf(old(docs)), Op.DeleteOwned(id, owner), 0)
      ensures MayAnswer(NotesOf(old(docs)), Op.DeleteOwned(id, owner), 0, Deleted(one))
    {
      one := id in docs && docs[id].owner == owner;
      if one {
        docs := docs - {id};
        assert old(docs).Keys == docs.Keys + {id};
      }
    }

    method FindOwned(id: nat, owner: nat) returns (found: Option<Note>)
      ensures MongoStep(docs, Op.FindOwned(id, owner), 0, docs, Maybe(found))
    {
      if id in docs && docs[id].owner == owner {
        return Some(IntoNote(docs[id]));
      }
      return None;
    }

    method ListOwned(owner: nat, limit: nat, offset: nat) returns (ids: seq<nat>)
      ensures MongoStep(docs, Op.ListOwned(owner, limit, offset), 0, docs, Listed(ids))
    {
      var all := Listing(NotesOf(docs), owner);
      SortIsListing(docs, owner, all);
      ids := MongoWindow(all, limit, offset);
    }

    method CountOwned(owner: nat) returns (total: nat)
      ensures MongoStep(docs, Op.CountOwned(owner), 0, docs, Counted(total))
    {
      total := 0;
      var pending := docs.Keys;
      ghost var counted: set<nat> := {};
      while pending != {}
        invariant pending <= docs.Keys && total == |counted|
        invariant counted == set id | id in docs && docs[id].owner == owner && id !in pending
        decreases |pending|
      {
        var id :| id in pending;
        if docs[id].owner == owner {
          counted := counted + {id};
          total := total + 1;
        }
        pending := pending - {id};
      }
      assert counted == set id | id in docs && docs[id].owner == owner;
    }
  }

  // ----- the listings agree exactly when creation times do not tie

  ghost predicate DistinctTimes(t: Table, owner: nat) {
    forall a, b | Owns(t, owner, a) && Owns(t, owner, b) && a != b :: t[a].createdAt != t[b].createdAt
  }

  lemma NewestFirstIsTheListing(t: Table, owner: nat, ids: seq<nat>, listing: seq<nat>)
    requires DistinctTimes(t, owner) && NewestFirst(t, owner, ids) && IsListing(t, owner, listing)
    ensures ids == listing
  {
    ListingIsUnique(t, owner, ids, listing);
  }

  /** ORDER BY created_at DESC pins down one answer if and only if no two of the owner's notes
      share a creation time; with a tie, the engine may answer either way round. */
  lemma SqlOrderIsPinnedIffDistinct(t: Table, owner: nat, listing: seq<nat>)
    requires IsListing(t, owner, listing)
    ensures DistinctTimes(t, owner) <==> forall ids :: NewestFirst(t, owner, ids) ==> ids == listing
  {
    if DistinctTimes(t, owner) {
      forall ids | NewestFirst(t, owner, ids) ensures ids == listing {
        NewestFirstIsTheListing(t, owner, ids, listing);
      }
    } else {
      var other := TieGivesAnotherOrder(t, owner, listing);
    }
  }

  lemma TieGivesAnotherOrder(t: Table, owner: nat, ids: seq<nat>) returns (other: seq<nat>)
    requires IsListing(t, owner, ids) && !DistinctTimes(t, owner)
    ensures NewestFirst(t, owner, other) && other != ids
  {
    var a, b :| Owns(t, owner, a) && Owns(t, owner, b) && a != b && t[a].createdAt == t[b].createdAt;
    var i :| 0 <= i < |ids| && ids[i] == a;
    var j :| 0 <= j < |ids| && ids[j] == b;
    ListingIsPermutation(t, owner, ids);
    SwappedIsNewestFirst(t, owner, ids, i, j);
    other := Swapped(ids, i, j);
    assert other[i] == b;
  }

  function Swapped(ids: seq<nat>, i: nat, j: nat): seq<nat>
    requires i < |ids| && j < |ids|
  {
    ids[i := ids[j]][j := ids[i]]
  }

  function Other(i: nat, j: nat, k: nat): nat {
    if k == i then j else if k == j then i else k
  }

  lemma SwappedKeepsAll(ids: seq<nat>, i: nat, j: nat, id: nat)
    requires i < |ids| && j < |ids| && id in ids
    ensures id in Swapped(ids, i, j)
  {
    var k: nat :| k < |ids| && ids[k] == id;
    assert Swapped(ids, i, j)[Other(i, j, k)] == id;
  }

  lemma SwappedPair(t: Table, owner: nat, ids: seq<nat>, i: nat, j: nat, a: nat, b: nat)
    requires NewestFirst(t, owner, ids) && i < |ids| && j < |ids| && i != j && a < b < |ids|
    requires t[ids[i]].createdAt == t[ids[j]].createdAt
    ensures var swapped := Swapped(ids, i, j);
      && Owns(t, owner, swapped[a]) && Owns(t, owner, swapped[b]) && swapped[a] != swapped[b]
      && t[swapped[a]].createdAt >= t[swapped[b]].createdAt
  {
    var x, y := Other(i, j, a), Other(i, j, b);
    assert Swapped(ids, i, j)[a] == ids[x] && Swapped(ids, i, j)[b] == ids[y];
    assert x < y || y < x;
  }

  lemma SwappedIsNewestFirst(t: Table, owner: nat, ids: seq<nat>, i: nat, j: nat)
    requires NewestFirst(t, owner, ids) && i < |ids| && j < |ids| && i != j
    requires t[ids[i]].createdAt == t[ids[j]].createdAt
    ensures NewestFirst(t, owner, Swapped(ids, i, j))
  {
    var swapped := Swapped(ids, i, j);
    forall id | Owns(t, owner, id) ensures id in swapped {
      SwappedKeepsAll(ids, i, j, id);
    }
    forall a, b | 0 <= a < b < |swapped|
      ensures Owns(t, owner, swapped[a]) && Owns(t, owner, swapped[b]) && swapped[a] != swapped[b]
      ensures t[swapped[a]].createdAt >= t[swapped[b]].createdAt
    {
      SwappedPair(t, owner, ids, i, j, a, b);
    }
    forall k | 0 <= k < |swapped| ensures Owns(t, owner, swapped[k]) {
      assert swapped[k] == ids[Other(i, j, k)];
    }
  }

  /** The order of the documents is the total order of the notes they stand for. */
  lemma SortIsListing(docs: Docs, owner: nat, ids: seq<nat>)
    ensures SortedDocs(docs, owner, ids) <==> IsListing(NotesOf(docs), owner, ids)
  {
    var t := NotesOf(docs);
    assert forall id :: Owns(t, owner, id) == Matches(docs, id, owner);
    assert forall a, b | a in docs && b in docs :: Precedes(t, a, b) == SortsBefore(docs, a, b);
  }

  // ----- MongoDB does what the contract says, of the notes its documents stand for

  lemma MongoInsertMeetsContract(users: set<nat>, docs: Docs, op: Op, now: Time, n: Docs, answer: Answer)
    requires MongoStep(docs, op, now, n, answer) && !ForeignKeyFails(users, NotesOf(docs), op) && op.Insert?
    ensures SqliteStep(users, NotesOf(docs), op, Cut(now, MILLI), NotesOf(n), answer)
  {
  }

  lemma MongoUpdateMeetsContract(users: set<nat>, docs: Docs, op: Op, now: Time, n: Docs, answer: Answer)
    requires MongoStep(docs, op, now, n, answer) && !ForeignKeyFails(users, NotesOf(docs), op) && op.UpdateOwned?
    ensures SqliteStep(users, NotesOf(docs), op, Cut(now, MILLI), NotesOf(n), answer)
  {
  }

  lemma MongoDeleteMeetsContract(users: set<nat>, docs: Docs, op: Op, now: Time, n: Docs, answer: Answer)
    requires MongoStep(docs, op, now, n, answer) && !ForeignKeyFails(users, NotesOf(docs), op) && op.DeleteOwned?
    ensures SqliteStep(users, NotesOf(docs), op, Cut(now, MILLI), NotesOf(n), answer)
  {
    if Matches(docs, op.id, op.owner) {
      OneLess(docs, op.id);
    }
  }

  lemma OneLess(docs: Docs, id: nat)
    requires id in docs
    ensures |docs| - |docs - {id}| == 1
  {
    assert docs.Keys == (docs - {id}).Keys + {id};
    assert |docs| == |docs.Keys| && |docs - {id}| == |(docs - {id}).Keys|;
  }

  lemma MongoReadMeetsContract(users: set<nat>, docs: Docs, op: Op, now: Time, n: Docs, answer: Answer)
    requires MongoStep(docs, op, now, n, answer) && !op.Insert? && !op.UpdateOwned? && !op.DeleteOwned?
    requires op.ListOwned? ==> op.limit > 0
    ensures SqliteStep(users, NotesOf(docs), op, Cut(now, MILLI), NotesOf(n), answer)
  {
    if op.CountOwned? {
      assert (set id | id in docs && docs[id].owner == op.owner) == OwnedIds(NotesOf(docs), op.owner);
    }
    if op.ListOwned? {
      var ids :| SortedDocs(docs, op.owner, ids) && answer.ids == MongoWindow(ids, op.limit, op.offset);
      SortIsListing(docs, op.owner, ids);
      ListingIsPermutation(NotesOf(docs), op.owner, ids);
    }
  }

  lemma MongoMeetsContract(users: set<nat>, docs: Docs, op: Op, now: Time, n: Docs, answer: Answer)
    requires MongoStep(docs, op, now, n, answer) && !ForeignKeyFails(users, NotesOf(docs), op)
    requires op.ListOwned? ==> op.limit > 0
    ensures SqliteStep(users, NotesOf(docs), op, Cut(now, MILLI), NotesOf(n), answer)
  {
    match op
    case Insert(_, _, _, _) => MongoInsertMeetsContract(users, docs, op, now, n, answer);
    case UpdateOwned(_, _, _, _) => MongoUpdateMeetsContract(users, docs, op, now, n, answer);
    case DeleteOwned(_, _) => MongoDeleteMeetsContract(users, docs, op, now, n, answer);
    case _ => MongoReadMeetsContract(users, docs, op, now, n, answer);
  }

  // ----- the contract at a coarser grain

  function CutNote(note: Note, g: Grain): Note {
    note.(createdAt := Cut(note.createdAt, g), updatedAt := Cut(note.updatedAt, g))
  }

  function CutTable(t: Table, g: Grain): Table {
    map id | id in t :: CutNote(t[id], g)
  }

  /** The answer with its instants cut down to whole grains. */
  function CutAnswer(answer: Answer, g: Grain): Answer {
    match answer
    case Stored(note) => Stored(CutNote(note, g))
    case Maybe(Some(note)) => Maybe(Some(CutNote(note, g)))
    case _ => answer
  }

  lemma CutEffect(t: Table, op: Op, now: Time, g: Grain)
    ensures Effect(CutTable(t, g), op, Cut(now, g)) == CutTable(Effect(t, op, now), g)
  {
    assert forall id | id in t :: CutTable(t, g)[id] == CutNote(t[id], g);
  }

  lemma NewestFirstCut(t: Table, owner: nat, ids: seq<nat>, g: Grain)
    requires NewestFirst(t, owner, ids)
    ensures NewestFirst(CutTable(t, g), owner, ids)
  {
    forall id ensures Owns(CutTable(t, g), owner, id) == Owns(t, owner, id) {}
    forall i, j | 0 <= i < j < |ids|
      ensures CutTable(t, g)[ids[i]].createdAt >= CutTable(t, g)[ids[j]].createdAt
    {
      assert Owns(t, owner, ids[i]) && Owns(t, owner, ids[j]);
      CutKeepsOrder(t[ids[j]].createdAt, t[ids[i]].createdAt, g);
    }
  }

  lemma CutList(t: Table, op: Op, now: Time, fine: Answer, coarse: Answer, g: Grain)
    requires op.ListOwned? && DistinctTimes(CutTable(t, g), op.owner)
    requires MayAnswer(t, op, now, fine) && MayAnswer(CutTable(t, g), op, Cut(now, g), coarse)
    ensures coarse == fine
  {
    var a :| NewestFirst(t, op.owner, a) && fine.ids == Window(a, op.limit, op.offset);
    var b :| NewestFirst(CutTable(t, g), op.owner, b) && coarse.ids == Window(b, op.limit, op.offset);
    NewestFirstCut(t, op.owner, a, g);
    ListingIsUnique(CutTable(t, g), op.owner, a, b);
  }

  lemma CutOther(t: Table, op: Op, now: Time, fine: Answer, coarse: Answer, g: Grain)
    requires !op.ListOwned?
    requires MayAnswer(t, op, now, fine) && MayAnswer(CutTable(t, g), op, Cut(now, g), coarse)
    ensures coarse == CutAnswer(fine, g)
  {
    assert OwnedIds(CutTable(t, g), op.owner) == OwnedIds(t, op.owner);
  }

  /** A step of the contract at grain g simulates the step at full precision. */
  lemma CutSimulates(users: set<nat>, t: Table, op: Op, now: Time, n: Table, fine: Answer, m: Table, coarse: Answer,
      g: Grain)
    requires SqliteStep(users, t, op, now, n, fine)
    requires SqliteStep(users, CutTable(t, g), op, Cut(now, g), m, coarse)
    requires op.ListOwned? ==> DistinctTimes(CutTable(t, g), op.owner)
    ensures m == CutTable(n, g) && coarse == CutAnswer(fine, g)
  {
    if !ForeignKeyFails(users, t, op) {
      CutEffect(t, op, now, g);
      if op.ListOwned? {
        CutList(t, op, now, fine, coarse, g);
      } else {
        CutOther(t, op, now, fine, coarse, g);
      }
    }
  }

  /** Two notes apart in milliseconds are apart in microseconds too. */
  lemma DistinctWhenCoarser(t: Table, owner: nat)
    requires DistinctTimes(CutTable(t, MILLI), owner)
    ensures DistinctTimes(CutTable(t, MICRO), owner)
  {
    forall a, b | Owns(CutTable(t, MICRO), owner, a) && Owns(CutTable(t, MICRO), owner, b) && a != b
      ensures CutTable(t, MICRO)[a].createdAt != CutTable(t, MICRO)[b].createdAt
    {
      assert Owns(CutTable(t, MILLI), owner, a) && Owns(CutTable(t, MILLI), owner, b);
      SameMicroSameMilli(t[a].createdAt, t[b].createdAt);
    }
  }

  lemma SameMicroSameMilli(x: Time, y: Time)
    ensures Cut(x, MICRO) == Cut(y, MICRO) ==> Cut(x, MILLI) == Cut(y, MILLI)
  {
    assert Cut(x, MICRO) == Cut(y, MICRO) ==> x / 1_000 == y / 1_000;
    assert x / 1_000_000 == x / 1_000 / 1_000 && y / 1_000_000 == y / 1_000 / 1_000;
  }

  // ----- when the four answer alike

  /** The step is one every store takes: nothing is refused by one of them only. */
  predicate Portable(users: set<nat>, t: Table, op: Op) {
    !ForeignKeyFails(users, t, op) && !HasNul(op) && !DataTooLong(t, op)
  }

  /** A list that every store puts in the same order: a page of at least one note, and no two notes
      of the owner created in the same millisecond. */
  ghost predicate Pinned(t: Table, op: Op) {
    op.ListOwned? ==> op.limit > 0 && DistinctTimes(CutTable(t, MILLI), op.owner)
  }

  /** What the four stores give for one operation: answers and states. */
  datatype Four = Four(sqlite: Answer, postgres: Answer, mysql: Answer, mongo: Answer)

  datatype States = States(sqlite: Table, postgres: Table, mysql: Table, mongo: Docs)

  ghost predicate FourSteps(users: set<nat>, s: States, op: Op, now: Time, n: States, a: Four) {
    && SqliteStep(users, s.sqlite, op, now, n.sqlite, a.sqlite)
    && PostgresStep(users, s.postgres, op, now, n.postgres, a.postgres)
    && MySqlStep(users, s.mysql, op, now, n.mysql, a.mysql)
    && MongoStep(s.mongo, op, now, n.mongo, a.mongo)
  }

  /** The four hold the same notes, each at its own grain. */
  ghost predicate HoldTheSame(s: States) {
    s.postgres == s.mysql == CutTable(s.sqlite, MICRO) && NotesOf(s.mongo) == CutTable(s.sqlite, MILLI)
  }

  /** The four give the same answer, each at its own grain. */
  ghost predicate AnswerAlike(a: Four) {
    a.postgres == a.mysql == CutAnswer(a.sqlite, MICRO) && a.mongo == CutAnswer(a.sqlite, MILLI)
  }

  lemma SqlStoresAgree(users: set<nat>, s: States, op: Op, now: Time, n: States, a: Four)
    requires HoldTheSame(s) && FourSteps(users, s, op, now, n, a) && Pinned(s.sqlite, op)
    requires Portable(users, s.sqlite, op)
    ensures n.postgres == n.mysql == CutTable(n.sqlite, MICRO)
    ensures a.postgres == a.mysql == CutAnswer(a.sqlite, MICRO)
  {
    if op.ListOwned? {
      DistinctWhenCoarser(s.sqlite, op.owner);
    }
    assert DataTooLong(s.mysql, op) == DataTooLong(s.sqlite, op);
    MySqlMeetsContract(users, s.mysql, op, now, n.mysql, a.mysql);
    CutSimulates(users, s.sqlite, op, now, n.sqlite, a.sqlite, n.postgres, a.postgres, MICRO);
    CutSimulates(users, s.sqlite, op, now, n.sqlite, a.sqlite, n.mysql, a.mysql, MICRO);
  }

  lemma MongoAgrees(users: set<nat>, s: States, op: Op, now: Time, n: States, a: Four)
    requires HoldTheSame(s) && FourSteps(users, s, op, now, n, a) && Pinned(s.sqlite, op)
    requires Portable(users, s.sqlite, op)
    ensures NotesOf(n.mongo) == CutTable(n.sqlite, MILLI) && a.mongo == CutAnswer(a.sqlite, MILLI)
  {
    assert ForeignKeyFails(users, NotesOf(s.mongo), op) == ForeignKeyFails(users, s.sqlite, op);
    MongoMeetsContract(users, s.mongo, op, now, n.mongo, a.mongo);
    CutSimulates(users, s.sqlite, op, now, n.sqlite, a.sqlite, NotesOf(n.mongo), a.mongo, MILLI);
  }

  lemma MongoNeverRefuses(docs: Docs, op: Op, now: Time, n: Docs, answer: Answer)
    requires MongoStep(docs, op, now, n, answer)
    ensures answer != Refused
  {
  }

  lemma SqlRefusals(users: set<nat>, t: Table, op: Op, now: Time, n: Table, answer: Answer)
    ensures SqliteStep(users, t, op, now, n, answer) && ForeignKeyFails(users, t, op) ==> answer == Refused
    ensures PostgresStep(users, t, op, now, n, answer) && HasNul(op) ==> answer == Refused
    ensures MySqlStep(users, t, op, now, n, answer) && DataTooLong(t, op) ==> answer == Refused
  {
  }

  /** A step one of the stores refuses shows in the answers: MongoDB takes it. */
  lemma RefusalShows(users: set<nat>, s: States, op: Op, now: Time, n: States, a: Four)
    requires HoldTheSame(s) && FourSteps(users, s, op, now, n, a) && !Portable(users, s.sqlite, op)
    ensures !AnswerAlike(a)
  {
    assert DataTooLong(s.mysql, op) == DataTooLong(s.sqlite, op);
    MongoNeverRefuses(s.mongo, op, now, n.mongo, a.mongo);
    SqlRefusals(users, s.sqlite, op, now, n.sqlite, a.sqlite);
    SqlRefusals(users, s.postgres, op, now, n.postgres, a.postgres);
    SqlRefusals(users, s.mysql, op, now, n.mysql, a.mysql);
  }

  /** From states that hold the same, the four stores answer alike if and only if the texts hold no
      U+0000, no text that a row is given has more than 65,535 bytes, and a new note's owner exists;
      and then they hold the same again. */
  lemma AnswerAlikeIff(users: set<nat>, s: States, op: Op, now: Time, n: States, a: Four)
    requires HoldTheSame(s) && FourSteps(users, s, op, now, n, a) && Pinned(s.sqlite, op)
    ensures AnswerAlike(a) <==> Portable(users, s.sqlite, op)
    ensures AnswerAlike(a) ==> HoldTheSame(n)
  {
    if Portable(users, s.sqlite, op) {
      SqlStoresAgree(users, s, op, now, n, a);
      MongoAgrees(users, s, op, now, n, a);
    } else {
      RefusalShows(users, s, op, now, n, a);
    }
  }

  // ----- every run of the four stores

  ghost predicate FourRuns(users: set<nat>, ss: seq<States>, ops: seq<Timed>, answers: seq<Four>) {
    && |ss| == |ops| + 1 && |answers| == |ops|
    && forall i | 0 <= i < |ops| :: FourSteps(users, ss[i], ops[i].op, ops[i].now, ss[i + 1], answers[i])
  }

  ghost predicate ListsArePinned(ss: seq<States>, ops: seq<Timed>)
    requires |ss| == |ops| + 1
  {
    forall k | 0 <= k < |ops| :: Pinned(ss[k].sqlite, ops[k].op)
  }

  lemma StepOfRun(users: set<nat>, ss: seq<States>, ops: seq<Timed>, answers: seq<Four>, k: nat)
    requires FourRuns(users, ss, ops, answers) && ListsArePinned(ss, ops) && k < |ops|
    ensures FourSteps(users, ss[k], ops[k].op, ops[k].now, ss[k + 1], answers[k]) && Pinned(ss[k].sqlite, ops[k].op)
  {
  }

  lemma PortableStep(users: set<nat>, ss: seq<States>, ops: seq<Timed>, answers: seq<Four>, k: nat)
    requires FourRuns(users, ss, ops, answers) && ListsArePinned(ss, ops) && k < |ops|
    requires HoldTheSame(ss[k]) && Portable(users, ss[k].sqlite, ops[k].op)
    ensures HoldTheSame(ss[k + 1]) && AnswerAlike(answers[k])
  {
    StepOfRun(users, ss, ops, answers, k);
    AnswerAlikeIff(users, ss[k], ops[k].op, ops[k].now, ss[k + 1], answers[k]);
  }

  lemma {:induction false} BackendsAgree(users: set<nat>, ss: seq<States>, ops: seq<Timed>, answers: seq<Four>, i: nat)
    requires FourRuns(users, ss, ops, answers) && HoldTheSame(ss[0]) && ListsArePinned(ss, ops) && i <= |ops|
    requires forall k | 0 <= k < i :: Portable(users, ss[k].sqlite, ops[k].op)
    ensures HoldTheSame(ss[i])
    ensures forall k | 0 <= k < i :: AnswerAlike(answers[k])
  {
    if i > 0 {
      BackendsAgree(users, ss, ops, answers, i - 1);
      PortableStep(users, ss, ops, answers, i - 1);
    }
  }

  /** On any sequence of operations and any clock: the four stores answer alike throughout, each at
      its own grain, if and only if every step is one they all take; and then they hold the same
      notes throughout. */
  lemma {:induction false} BackendsAgreeIff(users: set<nat>, ss: seq<States>, ops: seq<Timed>, answers: seq<Four>)
    requires FourRuns(users, ss, ops, answers) && HoldTheSame(ss[0]) && ListsArePinned(ss, ops)
    ensures (forall k | 0 <= k < |ops| :: AnswerAlike(answers[k]))
      <==> (forall k | 0 <= k < |ops| :: Portable(users, ss[k].sqlite, ops[k].op))
    ensures (forall k | 0 <= k < |ops| :: AnswerAlike(answers[k])) ==> forall i | 0 <= i <= |ops| :: HoldTheSame(ss[i])
  {
    var n := 0;
    while n < |ops| && Portable(users, ss[n].sqlite, ops[n].op)
      invariant n <= |ops|
      invariant forall k | 0 <= k < n :: Portable(users, ss[k].sqlite, ops[k].op)
    {
      n := n + 1;
    }
    BackendsAgree(users, ss, ops, answers, n);
    if n < |ops| {
      RefusalShows(users, ss[n], ops[n].op, ops[n].now, ss[n + 1], answers[n]);
    } else {
      forall i | 0 <= i <= |ops| ensures HoldTheSame(ss[i]) {
        BackendsAgree(users, ss, ops, answers, i);
      }
    }
  }

  predicate Whole(t: Table, g: Grain) {
    CutTable(t, g) == t
  }

  lemma AnswerIsWhole(t: Table, op: Op, now: Time, answer: Answer, g: Grain)
    requires Whole(t, g) && Cut(now, g) == now && MayAnswer(t, op, now, answer)
    ensures CutAnswer(answer, g) == answer
  {
    assert forall id | id in t :: CutTable(t, g)[id] == t[id];
  }

  lemma WholeMillisAreWholeMicros(t: Time)
    requires Cut(t, MILLI) == t
    ensures Cut(t, MICRO) == t
  {
    assert t % 1_000_000 == 0;
    assert t % 1_000 == 0;
  }

  lemma WholeTables(t: Table)
    requires Whole(t, MILLI)
    ensures Whole(t, MICRO)
  {
    forall id | id in t ensures CutNote(t[id], MICRO) == t[id] {
      assert CutTable(t, MILLI)[id] == t[id];
      WholeMillisAreWholeMicros(t[id].createdAt);
      WholeMillisAreWholeMicros(t[id].updatedAt);
    }
  }

  lemma {:induction false} MillisStayWhole(users: set<nat>, ss: seq<States>, ops: seq<Timed>, answers: seq<Four>,
      i: nat)
    requires FourRuns(users, ss, ops, answers) && Whole(ss[0].sqlite, MILLI) && i <= |ops|
    requires forall k | 0 <= k < |ops| :: Cut(ops[k].now, MILLI) == ops[k].now
    ensures Whole(ss[i].sqlite, MILLI)
  {
    if i > 0 {
      MillisStayWhole(users, ss, ops, answers, i - 1);
      assert SqliteStep(users, ss[i - 1].sqlite, ops[i - 1].op, ops[i - 1].now, ss[i].sqlite, answers[i - 1].sqlite);
      CutEffect(ss[i - 1].sqlite, ops[i - 1].op, ops[i - 1].now, MILLI);
    }
  }

  lemma AlikeIsEqual(users: set<nat>, t: Table, op: Op, now: Time, n: Table, a: Four)
    requires AnswerAlike(a) && Whole(t, MILLI) && Cut(now, MILLI) == now && SqliteStep(users, t, op, now, n, a.sqlite)
    ensures a.sqlite == a.postgres == a.mysql == a.mongo
  {
    if !ForeignKeyFails(users, t, op) {
      WholeTables(t);
      WholeMillisAreWholeMicros(now);
      AnswerIsWhole(t, op, now, a.sqlite, MILLI);
      AnswerIsWhole(t, op, now, a.sqlite, MICRO);
    }
  }

  /** Under a whole-millisecond clock the four stores give the very same answers and hold the very
      same notes, on any sequence of steps they all take. */
  lemma BackendsAgreeOnMillis(users: set<nat>, ss: seq<States>, ops: seq<Timed>, answers: seq<Four>, i: nat)
    requires FourRuns(users, ss, ops, answers) && HoldTheSame(ss[0]) && ListsArePinned(ss, ops) && i <= |ops|
    requires forall k | 0 <= k < |ops| :: Portable(users, ss[k].sqlite, ops[k].op)
    requires Whole(ss[0].sqlite, MILLI) && forall k | 0 <= k < |ops| :: Cut(ops[k].now, MILLI) == ops[k].now
    ensures ss[i].sqlite == ss[i].postgres == ss[i].mysql == NotesOf(ss[i].mongo)
    ensures forall k | 0 <= k < |ops| ::
      answers[k].sqlite == answers[k].postgres == answers[k].mysql == answers[k].mongo
  {
    BackendsAgree(users, ss, ops, answers, i);
    MillisStayWhole(users, ss, ops, answers, i);
    WholeTables(ss[i].sqlite);
    BackendsAgree(users, ss, ops, answers, |ops|);
    forall k | 0 <= k < |ops|
      ensures answers[k].sqlite == answers[k].postgres == answers[k].mysql == answers[k].mongo
    {
      MillisStayWhole(users, ss, ops, answers, k);
      AlikeIsEqual(users, ss[k].sqlite, ops[k].op, ops[k].now, ss[k + 1].sqlite, answers[k]);
    }
  }

  // ----- texts the API accepts and a store does not

  const MAX_TITLE := 200
  const MAX_BODY := 20_000

  lemma {:induction false} Utf8LengthAtMost(s: string)
    ensures |s| <= Utf8Length(s) <= 4 * |s|
  {
    if s != "" {
      Utf8LengthAtMost(s[1..]);
    }
  }

  /** A title the API accepts fits; so does a body, as long as it has at most 16,383 characters. */
  lemma ShortTextsFit(op: Op)
    requires (op.Insert? || op.UpdateOwned?) && |op.title| <= MAX_TITLE && |op.body| <= 16_383
    ensures !TooLong(op)
  {
    Utf8LengthAtMost(op.title);
    Utf8LengthAtMost(op.body);
  }

  function Repeated(c: char, n: nat): string {
    if n == 0 then "" else [c] + Repeated(c, n - 1)
  }

  lemma {:induction false} RepeatedLength(n: nat)
    ensures |Repeated('\U{1F600}', n)| == n && Utf8Length(Repeated('\U{1F600}', n)) == 4 * n
    ensures '\0' !in Repeated('\U{1F600}', n)
  {
    if n > 0 {
      RepeatedLength(n - 1);
      assert Repeated('\U{1F600}', n)[1..] == Repeated('\U{1F600}', n - 1);
    }
  }

  /** A body of 16,384 or more four-byte characters, which the API accepts up to 20,000: MySQL
      refuses it, the others store it. */
  lemma ALongBodyPartsMySql(users: set<nat>, id: nat, owner: nat, now: Time, n: nat) returns (op: Op)
    requires owner in users && 16_384 <= n <= MAX_BODY
    ensures op.Insert? && op.id == id && |op.title| <= MAX_TITLE && |op.body| == n && !Portable(users, map[], op)
    ensures MySqlStep(users, map[], op, now, map[], Refused)
    ensures var note := Note(owner, op.title, op.body, now, now);
      && SqliteStep(users, map[], op, now, map[id := note], Stored(note))
      && PostgresStep(users, map[], op, now, map[id := CutNote(note, MICRO)], Stored(CutNote(note, MICRO)))
  {
    RepeatedLength(n);
    op := Op.Insert(id, owner, "t", Repeated('\U{1F600}', n));
    assert '\0' !in op.title;
  }

  /** A U+0000 in a title, which the API accepts: PostgreSQL refuses it, the others store it. */
  lemma ANulPartsPostgres(users: set<nat>, id: nat, owner: nat, now: Time) returns (op: Op)
    requires owner in users
    ensures op.Insert? && op.id == id && |op.title| <= MAX_TITLE && |op.body| <= MAX_BODY && !Portable(users, map[], op)
    ensures PostgresStep(users, map[], op, now, map[], Refused)
    ensures var note := Note(owner, op.title, op.body, now, now);
      && SqliteStep(users, map[], op, now, map[id := note], Stored(note))
      && MySqlStep(users, map[], op, now, map[id := CutNote(note, MICRO)], Stored(CutNote(note, MICRO)))
  {
    op := Op.Insert(id, owner, "\0", "");
    ShortTextsFit(op);
  }

  /** MongoDB stores both. */
  lemma MongoStoresAnyText(op: Op, now: Time)
    requires op.Insert?
    ensures var document := NoteDoc(op.owner, op.title, op.body, ToMillis(now), ToMillis(now));
      MongoStep(map[], op, now, map[op.id := document], Stored(IntoNote(document)))
  {
  }

}
