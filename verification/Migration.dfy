/** Copying a SQLite store into a PostgreSQL one (src/migrate.rs), against the constraints of
    migrations/postgres. Instants are nanoseconds; a PostgreSQL TIMESTAMPTZ keeps whole
    microseconds. */
module Migration {
  import opened Common

  datatype TableName = Users | Notes | RefreshTokens | AccessTokens

  datatype Row =
    | UserRow(id: nat, email: string, passwordHash: string, role: string, failedAttempts: int,
        lockedUntil: Option<Time>, createdAt: Time, updatedAt: Time)
    | NoteRow(id: nat, ownerId: nat, title: string, body: string, createdAt: Time, updatedAt: Time)
    | RefreshTokenRow(id: nat, userId: nat, tokenHash: string, family: nat, expiresAt: Time,
        usedAt: Option<Time>, revoked: bool, createdAt: Time)
    | AccessTokenRow(id: nat, userId: nat, tokenHash: string, session: nat, role: string, expiresAt: Time,
      createdAt: Time)

  function TableOf(row: Row): TableName {
    match row
    case UserRow(_, _, _, _, _, _, _, _) => Users
    case NoteRow(_, _, _, _, _, _) => Notes
    case RefreshTokenRow(_, _, _, _, _, _, _, _) => RefreshTokens
    case AccessTokenRow(_, _, _, _, _, _, _) => AccessTokens
  }

  // ----- binding a row and storing what was bound

  datatype Value = IdValue(id: nat) | TextValue(text: string) | IntValue(n: int) | BoolValue(b: bool)
    | TimeValue(t: Time) | MaybeTimeValue(at: Option<Time>)

  /** The values pushed for one row, in the order of the copy_* functions. */
  function Binds(row: Row): seq<Value> {
    match row
    case UserRow(id, email, hash, role, failed, locked, created, updated) =>
      [IdValue(id), TextValue(email), TextValue(hash), TextValue(role), IntValue(failed), MaybeTimeValue(locked),
        TimeValue(created), TimeValue(updated)]
    case NoteRow(id, owner, title, body, created, updated) =>
      [IdValue(id), IdValue(owner), TextValue(title), TextValue(body), TimeValue(created), TimeValue(updated)]
    case RefreshTokenRow(id, user, hash, family, expires, used, revoked, created) =>
      [IdValue(id), IdValue(user), TextValue(hash), IdValue(family), TimeValue(expires), MaybeTimeValue(used),
        BoolValue(revoked), TimeValue(created)]
    case AccessTokenRow(id, user, hash, session, role, expires, created) =>
      [IdValue(id), IdValue(user), TextValue(hash), IdValue(session), TextValue(role), TimeValue(expires),
        TimeValue(created)]
  }

  function Micros(t: Time): Time { t / 1000 * 1000 }

  function MaybeMicros(t: Option<Time>): Option<Time> {
    if t.Some? then Some(Micros(t.value)) else None
  }

  /** The row an INSERT makes of bound values: the column list names them one by one. */
  function FromBinds(table: TableName, v: seq<Value>): Option<Row> {
    match table
    case Users =>
      if |v| == 8 && v[0].IdValue? && v[1].TextValue? && v[2].TextValue? && v[3].TextValue? && v[4].IntValue?
        && v[5].MaybeTimeValue? && v[6].TimeValue? && v[7].TimeValue?
      then Some(UserRow(v[0].id, v[1].text, v[2].text, v[3].text, v[4].n, MaybeMicros(v[5].at), Micros(v[6].t),
        Micros(v[7].t)))
      else None
    case Notes =>
      if |v| == 6 && v[0].IdValue? && v[1].IdValue? && v[2].TextValue? && v[3].TextValue? && v[4].TimeValue?
        && v[5].TimeValue?
      then Some(NoteRow(v[0].id, v[1].id, v[2].text, v[3].text, Micros(v[4].t), Micros(v[5].t)))
      else None
    case RefreshTokens =>
      if |v| == 8 && v[0].IdValue? && v[1].IdValue? && v[2].TextValue? && v[3].IdValue? && v[4].TimeValue?
        && v[5].MaybeTimeValue? && v[6].BoolValue? && v[7].TimeValue?
      then Some(RefreshTokenRow(v[0].id, v[1].id, v[2].text, v[3].id, Micros(v[4].t), MaybeMicros(v[5].at), v[6].b,
        Micros(v[7].t)))
      else None
    case AccessTokens =>
      if |v| == 7 && v[0].IdValue? && v[1].IdValue? && v[2].TextValue? && v[3].IdValue? && v[4].TextValue?
        && v[5].TimeValue? && v[6].TimeValue?
      then Some(AccessTokenRow(v[0].id, v[1].id, v[2].text, v[3].id, v[4].text, Micros(v[5].t), Micros(v[6].t)))
      else None
  }

  /** A row with every instant at the target's precision and every other column as it was. */
  function AtMicros(row: Row): Row {
    match row
    case UserRow(_, _, _, _, _, locked, created, updated) =>
      row.(lockedUntil := MaybeMicros(locked), createdAt := Micros(created), updatedAt := Micros(updated))
    case NoteRow(_, _, _, _, created, updated) => row.(createdAt := Micros(created), updatedAt := Micros(updated))
    case RefreshTokenRow(_, _, _, _, expires, used, _, created) =>
      row.(expiresAt := Micros(expires), usedAt := MaybeMicros(used), createdAt := Micros(created))
    case AccessTokenRow(_, _, _, _, _, expires, created) =>
      row.(expiresAt := Micros(expires), createdAt := Micros(created))
  }

  lemma BindsCarryEveryColumn(row: Row)
    ensures FromBinds(TableOf(row), Binds(row)) == Some(AtMicros(row))
    ensures |Binds(row)| <= 8
  {
  }

  // ----- the target and its constraints

  datatype Key = Key(table: TableName, id: nat)

  type Db = map<Key, Row>

  function KeyOf(row: Row): Key {
    Key(TableOf(row), row.id)
  }

  /** email, or token_hash: the UNIQUE columns. */
  function UniqueOf(row: Row): Option<string> {
    match row
    case UserRow(_, email, _, _, _, _, _, _) => Some(email)
    case NoteRow(_, _, _, _, _, _) => None
    case RefreshTokenRow(_, _, hash, _, _, _, _, _) => Some(hash)
    case AccessTokenRow(_, _, hash, _, _, _, _) => Some(hash)
  }

  /** REFERENCES users (id). */
  function UserOf(row: Row): Option<nat> {
    match row
    case UserRow(_, _, _, _, _, _, _, _) => None
    case NoteRow(_, owner, _, _, _, _) => Some(owner)
    case RefreshTokenRow(_, user, _, _, _, _, _, _) => Some(user)
    case AccessTokenRow(_, user, _, _, _, _, _) => Some(user)
  }

  function TextsOf(row: Row): seq<string> {
    match row
    case UserRow(_, email, hash, role, _, _, _, _) => [email, hash, role]
    case NoteRow(_, _, title, body, _, _) => [title, body]
    case RefreshTokenRow(_, _, hash, _, _, _, _, _) => [hash]
    case AccessTokenRow(_, _, hash, _, role, _, _) => [hash, role]
  }

  /** The CHECK on roles, and what TEXT can hold: PostgreSQL refuses U+0000, SQLite does not. */
  predicate Acceptable(row: Row) {
    && ((row.UserRow? || row.AccessTokenRow?) ==> row.role == "user" || row.role == "admin")
    && forall text | text in TextsOf(row) :: '\0' !in text
  }

  ghost predicate Clash(a: Row, b: Row) {
    TableOf(a) == TableOf(b) && (a.id == b.id || (UniqueOf(a).Some? && UniqueOf(a) == UniqueOf(b)))
  }

  ghost predicate Insertable(db: Db, row: Row) {
    && KeyOf(row) !in db
    && (forall k :: k in db ==> !Clash(db[k], row))
    && (UserOf(row).Some? ==> Key(Users, UserOf(row).value) in db)
    && Acceptable(row)
  }

  function Stored(db: Db, row: Row): Db {
    db[KeyOf(row) := AtMicros(row)]
  }

  /** One INSERT of several rows: all of them, or an error. */
  ghost function InsertAll(db: Db, rows: seq<Row>): Option<Db>
    decreases |rows|
  {
    if rows == [] then Some(db)
    else if !Insertable(db, rows[0]) then None
    else InsertAll(Stored(db, rows[0]), rows[1..])
  }

  // ----- the copy

  const BATCH: nat := 1_000
  const MAX_PARAMETERS: nat := 65_535

  /** The source's rows, table by table, in the order they were read. */
  datatype Source = Source(users: seq<Row>, notes: seq<Row>, refreshTokens: seq<Row>, accessTokens: seq<Row>)

  datatype Report = Report(users: nat, notes: nat, refreshTokens: nat, accessTokens: nat)

  datatype Failure = NotEmpty | Statement | CountMismatch

  /** Which statements fail for reasons outside the data. */
  datatype Faults = Faults(begin: bool, count: bool, chunk: nat -> bool, verify: bool, finish: bool)

  function Chunk(rows: seq<Row>): seq<Row> {
    if |rows| <= BATCH then rows else rows[..BATCH]
  }

  /** The chunk loop of one table, from its n-th statement on. */
  ghost function CopyChunks(db: Db, rows: seq<Row>, faults: Faults, n: nat): Option<(Db, nat)>
    decreases |rows|
  {
    if rows == [] then Some((db, n))
    else if faults.chunk(n) then None
    else match InsertAll(db, Chunk(rows))
         case None => None
         case Some(next) => CopyChunks(next, rows[|Chunk(rows)|..], faults, n + 1)
  }

  ghost function CopyTables(db: Db, source: Source, faults: Faults): Option<Db> {
    match CopyChunks(db, source.users, faults, 0)
    case None => None
    case Some((users, n1)) =>
      match CopyChunks(users, source.notes, faults, n1)
      case None => None
      case Some((notes, n2)) =>
        match CopyChunks(notes, source.refreshTokens, faults, n2)
        case None => None
        case Some((refresh, n3)) =>
          match CopyChunks(refresh, source.accessTokens, faults, n3)
          case None => None
          case Some((access, _)) => Some(access)
  }

  function KeysOf(db: Db, table: TableName): set<Key> {
    set k | k in db && k.table == table
  }

  function ReportOf(source: Source): Report {
    Report(|source.users|, |source.notes|, |source.refreshTokens|, |source.accessTokens|)
  }

  predicate CountsMatch(db: Db, report: Report) {
    && |KeysOf(db, Users)| == report.users && |KeysOf(db, Notes)| == report.notes
    && |KeysOf(db, RefreshTokens)| == report.refreshTokens && |KeysOf(db, AccessTokens)| == report.accessTokens
  }

  /** How a whole run ends: the answer, and the target as everybody else sees it. */
  ghost function Outcome(source: Source, target: Db, dryRun: bool, faults: Faults): (Result<Report, Failure>, Db) {
    if faults.begin || faults.count then (Err(Statement), target)
    else if !CountsMatch(target, Report(0, 0, 0, 0)) then (Err(NotEmpty), target)
    else match CopyTables(target, source, faults)
         case None => (Err(Statement), target)
         case Some(db) =>
           if faults.verify then (Err(Statement), target)
           else if !CountsMatch(db, ReportOf(source)) then (Err(CountMismatch), target)
           else if faults.finish then (Err(Statement), target)
           else (Ok(ReportOf(source)), if dryRun then target else db)
  }

  /** A database as an object. A transaction works on its own copy and replaces the committed
      rows at once. */
  class Database {
    var committed: Db

    constructor ()
      ensures committed == map[]
    {
      committed := map[];
    }

    method Execute(tx: Db, rows: seq<Row>) returns (next: Option<Db>, parameters: nat)
      requires |rows| <= BATCH
      ensures next == InsertAll(tx, rows)
      ensures parameters <= MAX_PARAMETERS
    {
      var db := tx;
      parameters := 0;
      for i := 0 to |rows|
        invariant InsertAll(tx, rows) == InsertAll(db, rows[i..])
        invariant parameters <= 8 * i
      {
        var row := rows[i];
        BindsCarryEveryColumn(row);
        parameters := parameters + |Binds(row)|;
        var conflict := Conflicts(db, row);
        if conflict {
          return None, parameters;
        }
        assert rows[i..][1..] == rows[i + 1..];
        db := db[KeyOf(row) := FromBinds(TableOf(row), Binds(row)).value];
      }
      next := Some(db);
    }

    method Conflicts(db: Db, row: Row) returns (conflict: bool)
      ensures conflict <==> !Insertable(db, row)
    {
      if KeyOf(row) in db || !Acceptable(row) {
        return true;
      }
      if UserOf(row).Some? && Key(Users, UserOf(row).value) !in db {
        return true;
      }
      var pending := db.Keys;
      while pending != {}
        invariant pending <= db.Keys
        invariant forall k :: k in db && k !in pending ==> !Clash(db[k], row)
        decreases |pending|
      {
        var k :| k in pending;
        if TableOf(db[k]) == TableOf(row)
          && (db[k].id == row.id || (UniqueOf(row).Some? && UniqueOf(db[k]) == UniqueOf(row))) {
          return true;
        }
        pending := pending - {k};
      }
      return false;
    }

    lemma NextChunk(db: Db, rows: seq<Row>, i: nat, faults: Faults, k: nat)
      requires i < |rows| && !faults.chunk(k)
      ensures var end := if |rows| - i <= BATCH then |rows| else i + BATCH;
        CopyChunks(db, rows[i..], faults, k)
        == match InsertAll(db, rows[i..end])
           case None => None
           case Some(next) => CopyChunks(next, rows[end..], faults, k + 1)
    {
      var end := if |rows| - i <= BATCH then |rows| else i + BATCH;
      assert Chunk(rows[i..]) == rows[i..end] && rows[i..][end - i..] == rows[end..];
    }

    /** One copy_* function: the rows go in BATCH at a time. */
    method CopyTable(tx: Db, rows: seq<Row>, faults: Faults, n: nat) returns (done: Option<(Db, nat)>, widest: nat)
      ensures done == CopyChunks(tx, rows, faults, n)
      ensures widest <= MAX_PARAMETERS
    {
      var db, i, k := tx, 0, n;
      widest := 0;
      while i < |rows|
        invariant i <= |rows| && widest <= MAX_PARAMETERS
        invariant CopyChunks(tx, rows, faults, n) == CopyChunks(db, rows[i..], faults, k)
      {
        if faults.chunk(k) {
          return None, widest;
        }
        var end := if |rows| - i <= BATCH then |rows| else i + BATCH;
        NextChunk(db, rows, i, faults, k);
        var next, parameters := Execute(db, rows[i..end]);
        if widest < parameters {
          widest := parameters;
        }
        if next.None? {
          return None, widest;
        }
        db, i, k := next.value, end, k + 1;
      }
      done := Some((db, k));
    }

    method Copy(source: Source, dryRun: bool, faults: Faults) returns (answer: Result<Report, Failure>, widest: nat)
      modifies this
      ensures (answer, committed) == Outcome(source, old(committed), dryRun, faults)
      ensures widest <= MAX_PARAMETERS
    {
      widest := 0;
      if faults.begin || faults.count {
        return Err(Statement), widest;
      }
      var tx := committed;
      if !CountsMatch(tx, Report(0, 0, 0, 0)) {
        return Err(NotEmpty), widest;
      }
      var done, width := CopyTable(tx, source.users, faults, 0);
      widest := width;
      if done.None? { return Err(Statement), widest; }
      done, width := CopyTable(done.value.0, source.notes, faults, done.value.1);
      if widest < width { widest := width; }
      if done.None? { return Err(Statement), widest; }
      done, width := CopyTable(done.value.0, source.refreshTokens, faults, done.value.1);
      if widest < width { widest := width; }
      if done.None? { return Err(Statement), widest; }
      done, width := CopyTable(done.value.0, source.accessTokens, faults, done.value.1);
      if widest < width { widest := width; }
      if done.None? || faults.verify { return Err(Statement), widest; }
      if !CountsMatch(done.value.0, ReportOf(source)) {
        return Err(CountMismatch), widest;
      }
      if faults.finish { return Err(Statement), widest; }
      if !dryRun {
        committed := done.value.0;
      }
      return Ok(ReportOf(source)), widest;
    }
  }

  // ----- exact and all or nothing

  /** All or nothing, for any source, target and faults: unless a real run succeeds, the target
      is exactly as it was. */
  lemma AllOrNothing(source: Source, target: Db, dryRun: bool, faults: Faults)
    ensures var (answer, after) := Outcome(source, target, dryRun, faults);
      && (answer.Err? || dryRun ==> after == target)
      && (answer.Ok? ==> CountsMatch(target, Report(0, 0, 0, 0)))
  {
  }

  function AllRows(source: Source): seq<Row> {
    source.users + source.notes + source.refreshTokens + source.accessTokens
  }

  lemma {:induction false} InsertAllAppends(db: Db, a: seq<Row>, b: seq<Row>)
    ensures InsertAll(db, a + b) == match InsertAll(db, a) case None => None case Some(next) => InsertAll(next, b)
    decreases |a|
  {
    if a == [] {
      assert a + b == b;
    } else if Insertable(db, a[0]) {
      InsertAllAppends(Stored(db, a[0]), a[1..], b);
      assert (a + b)[1..] == a[1..] + b;
    }
  }

  /** Chunking changes nothing: without faults, the chunks together do what one INSERT would. */
  lemma {:induction false} ChunksAreOneInsert(db: Db, rows: seq<Row>, faults: Faults, n: nat)
    ensures CopyChunks(db, rows, faults, n).Some?
      ==> InsertAll(db, rows) == Some(CopyChunks(db, rows, faults, n).value.0)
    ensures (forall k :: !faults.chunk(k)) && InsertAll(db, rows).Some? ==> CopyChunks(db, rows, faults, n).Some?
    decreases |rows|
  {
    if rows != [] {
      var chunk := Chunk(rows);
      assert rows == chunk + rows[|chunk|..];
      InsertAllAppends(db, chunk, rows[|chunk|..]);
      if InsertAll(db, chunk).Some? {
        ChunksAreOneInsert(InsertAll(db, chunk).value, rows[|chunk|..], faults, n + 1);
      }
    }
  }

  /** db is base and the rows given, each under its key with instants at the target's precision,
      and nothing else. */
  ghost predicate Image(base: Db, db: Db, rows: seq<Row>) {
    && (forall i | 0 <= i < |rows| :: KeyOf(rows[i]) in db && db[KeyOf(rows[i])] == AtMicros(rows[i]))
    && (forall k | k in base :: k in db && db[k] == base[k])
    && (forall k | k in db :: k in base || exists i :: 0 <= i < |rows| && k == KeyOf(rows[i]))
  }

  function CountOf(rows: seq<Row>, table: TableName): nat {
    if rows == [] then 0 else (if TableOf(rows[0]) == table then 1 else 0) + CountOf(rows[1..], table)
  }

  lemma StoredAddsOne(db: Db, row: Row, table: TableName)
    requires KeyOf(row) !in db
    ensures |KeysOf(Stored(db, row), table)| == |KeysOf(db, table)| + if TableOf(row) == table then 1 else 0
  {
    assert KeysOf(Stored(db, row), table) == KeysOf(db, table) + if TableOf(row) == table then {KeyOf(row)} else {};
  }

  lemma {:induction false} InsertAllCounts(db: Db, rows: seq<Row>, table: TableName)
    requires InsertAll(db, rows).Some?
    ensures |KeysOf(InsertAll(db, rows).value, table)| == |KeysOf(db, table)| + CountOf(rows, table)
    decreases |rows|
  {
    if rows != [] {
      InsertAllCounts(Stored(db, rows[0]), rows[1..], table);
      StoredAddsOne(db, rows[0], table);
    }
  }

  lemma ImageUnfolds(base: Db, db: Db, rows: seq<Row>)
    requires rows != [] && KeyOf(rows[0]) !in base
    requires Image(Stored(base, rows[0]), db, rows[1..])
    ensures Image(base, db, rows)
  {
    var row, rest, next := rows[0], rows[1..], Stored(base, rows[0]);
    assert KeyOf(row) in next;
    forall i | 0 <= i < |rows| ensures KeyOf(rows[i]) in db && db[KeyOf(rows[i])] == AtMicros(rows[i]) {
      assert i > 0 ==> rows[i] == rest[i - 1];
    }
    forall k | k in base ensures k in db && db[k] == base[k] {
      assert k in next && next[k] == base[k];
    }
    forall k | k in db && k !in base ensures exists i :: 0 <= i < |rows| && k == KeyOf(rows[i]) {
      if k != KeyOf(row) {
        assert k !in next;
        var i :| 0 <= i < |rest| && k == KeyOf(rest[i]);
        assert rest[i] == rows[i + 1];
      }
    }
  }

  lemma {:induction false} InsertAllStores(db: Db, rows: seq<Row>)
    requires InsertAll(db, rows).Some?
    ensures Image(db, InsertAll(db, rows).value, rows)
    decreases |rows|
  {
    if rows != [] {
      InsertAllStores(Stored(db, rows[0]), rows[1..]);
      ImageUnfolds(db, InsertAll(db, rows).value, rows);
    }
  }

  // When a list of rows goes in: the constraints of the schema, stated of the list itself.

  ghost predicate Known(db: Db, rows: seq<Row>, end: nat, user: nat)
    requires end <= |rows|
  {
    Key(Users, user) in db || exists i :: 0 <= i < end && KeyOf(rows[i]) == Key(Users, user)
  }

  ghost predicate Consistent(db: Db, rows: seq<Row>) {
    && (forall i, j | 0 <= i < j < |rows| :: !Clash(rows[i], rows[j]))
    && (forall k, j | k in db && 0 <= j < |rows| :: !Clash(db[k], rows[j]))
    && (forall j | 0 <= j < |rows| && UserOf(rows[j]).Some? :: Known(db, rows, j, UserOf(rows[j]).value))
    && (forall j | 0 <= j < |rows| :: Acceptable(rows[j]))
  }

  ghost predicate WellKeyed(db: Db) {
    forall k | k in db :: k == KeyOf(db[k])
  }

  lemma ClashIgnoresInstants(a: Row, b: Row)
    ensures Clash(AtMicros(a), b) <==> Clash(a, b)
    ensures KeyOf(AtMicros(a)) == KeyOf(a)
  {
  }

  /** One row at a time: the constraints hold of a list exactly when they hold of its first row,
      and then of the rest. */
  lemma ConsistentUnfolds(db: Db, rows: seq<Row>)
    requires rows != [] && WellKeyed(db)
    ensures Consistent(db, rows) <==> Insertable(db, rows[0]) && Consistent(Stored(db, rows[0]), rows[1..])
  {
    var row, rest, next := rows[0], rows[1..], Stored(db, rows[0]);
    forall b: Row ensures Clash(AtMicros(row), b) <==> Clash(row, b) { ClashIgnoresInstants(row, b); }
    forall j: nat, user: nat | j < |rest| ensures Known(db, rows, j + 1, user) <==> Known(next, rest, j, user) {
      KnownUnfolds(db, rows, j, user);
    }
    if Consistent(db, rows) {
      assert Insertable(db, row) by {
        assert UserOf(row).Some? ==> Known(db, rows, 0, UserOf(row).value);
        assert KeyOf(row) in db ==> Clash(db[KeyOf(row)], row);
      }
      forall j | 0 <= j < |rest| ensures rest[j] == rows[j + 1] && Acceptable(rest[j]) && !Clash(row, rest[j]) {}
    }
    if Insertable(db, row) && Consistent(next, rest) {
      RestoresConsistency(db, rows);
    }
  }

  lemma KnownUnfolds(db: Db, rows: seq<Row>, j: nat, user: nat)
    requires j < |rows| - 1
    ensures Known(db, rows, j + 1, user) <==> Known(Stored(db, rows[0]), rows[1..], j, user)
  {
    var rest := rows[1..];
    if i :| 0 <= i < j + 1 && KeyOf(rows[i]) == Key(Users, user) {
      assert i > 0 ==> rest[i - 1] == rows[i];
    }
    if i :| 0 <= i < j && KeyOf(rest[i]) == Key(Users, user) {
      assert rest[i] == rows[i + 1];
    }
  }

  lemma RestoresConsistency(db: Db, rows: seq<Row>)
    requires rows != [] && Insertable(db, rows[0]) && Consistent(Stored(db, rows[0]), rows[1..])
    ensures Consistent(db, rows)
  {
    var row, rest, next := rows[0], rows[1..], Stored(db, rows[0]);
    assert next[KeyOf(row)] == AtMicros(row);
    forall j | 0 < j < |rows| ensures rows[j] == rest[j - 1] && Acceptable(rows[j]) && !Clash(row, rows[j]) {
      ClashIgnoresInstants(row, rows[j]);
    }
    forall i, j | 0 <= i < j < |rows| ensures !Clash(rows[i], rows[j]) {
      assert i > 0 ==> rows[i] == rest[i - 1] && rows[j] == rest[j - 1];
    }
    forall k, j | k in db && 0 <= j < |rows| ensures !Clash(db[k], rows[j]) {
      assert k in next && next[k] == db[k];
    }
    forall j | 0 <= j < |rows| && UserOf(rows[j]).Some? ensures Known(db, rows, j, UserOf(rows[j]).value) {
      if j > 0 { KnownUnfolds(db, rows, j - 1, UserOf(rows[j]).value); }
    }
  }

  lemma {:induction false} InsertsIffConsistent(db: Db, rows: seq<Row>)
    requires WellKeyed(db)
    ensures InsertAll(db, rows).Some? <==> Consistent(db, rows)
    decreases |rows|
  {
    if rows != [] {
      ConsistentUnfolds(db, rows);
      ClashIgnoresInstants(rows[0], rows[0]);
      InsertsIffConsistent(Stored(db, rows[0]), rows[1..]);
    }
  }

  // The whole run.

  /** Each list holds rows of its own table, as a SELECT gives them. */
  predicate WellTyped(source: Source) {
    && (forall r <- source.users :: r.UserRow?) && (forall r <- source.notes :: r.NoteRow?)
    && (forall r <- source.refreshTokens :: r.RefreshTokenRow?)
      && (forall r <- source.accessTokens :: r.AccessTokenRow?)
  }

  /** The source meets its own keys and checks, and holds no text with a U+0000. */
  ghost predicate Sound(source: Source) {
    var all := AllRows(source);
    && (forall i, j | 0 <= i < j < |all| :: !Clash(all[i], all[j]))
    && (forall r <- all | UserOf(r).Some? :: exists u <- source.users :: u.id == UserOf(r).value)
    && (forall r <- all :: Acceptable(r))
  }

  /** No two rows have the same id. */
  predicate DistinctIds(rows: seq<Row>) {
    forall i, j | 0 <= i < j < |rows| :: rows[i].id != rows[j].id
  }

  predicate OwnedBy(users: seq<Row>, owner: nat) {
    exists i | 0 <= i < |users| :: users[i].id == owner
  }

  predicate IsRole(text: string) { text == "user" || text == "admin" }

  predicate NoNul(text: string) { forall i | 0 <= i < |text| :: text[i] != '\0' }

  /** What Sound asks, table by table and column by column. */
  predicate SoundUsers(users: seq<Row>)
    requires forall r <- users :: r.UserRow?
  {
    && DistinctIds(users)
    && (forall i, j | 0 <= i < j < |users| :: users[i].email != users[j].email)
    && (forall r <- users :: IsRole(r.role) && NoNul(r.email) && NoNul(r.passwordHash))
  }

  predicate SoundNotes(notes: seq<Row>, users: seq<Row>)
    requires forall r <- notes :: r.NoteRow?
  {
    DistinctIds(notes) && forall r <- notes :: NoNul(r.title) && NoNul(r.body) && OwnedBy(users, r.ownerId)
  }

  predicate SoundRefreshTokens(tokens: seq<Row>, users: seq<Row>)
    requires forall r <- tokens :: r.RefreshTokenRow?
  {
    && DistinctIds(tokens)
    && (forall i, j | 0 <= i < j < |tokens| :: tokens[i].tokenHash != tokens[j].tokenHash)
    && (forall r <- tokens :: NoNul(r.tokenHash) && OwnedBy(users, r.userId))
  }

  predicate SoundAccessTokens(tokens: seq<Row>, users: seq<Row>)
    requires forall r <- tokens :: r.AccessTokenRow?
  {
    && DistinctIds(tokens)
    && (forall i, j | 0 <= i < j < |tokens| :: tokens[i].tokenHash != tokens[j].tokenHash)
    && (forall r <- tokens :: IsRole(r.role) && NoNul(r.tokenHash) && OwnedBy(users, r.userId))
  }

  lemma AcceptableMeans(row: Row)
    ensures Acceptable(row) <==> match row
                                 case UserRow(_, email, hash, role, _, _, _, _) =>
                                   IsRole(role) && NoNul(email) && NoNul(hash)
                                 case NoteRow(_, _, title, body, _, _) => NoNul(title) && NoNul(body)
                                 case RefreshTokenRow(_, _, hash, _, _, _, _, _) => NoNul(hash)
                                 case AccessTokenRow(_, _, hash, _, role, _, _) => IsRole(role) && NoNul(hash)
  {
    forall text: string ensures NoNul(text) <==> '\0' !in text {}
    match row
    case UserRow(_, email, hash, role, _, _, _, _) => assert TextsOf(row) == [email, hash, role];
    case NoteRow(_, _, title, body, _, _) => assert TextsOf(row) == [title, body];
    case RefreshTokenRow(_, _, hash, _, _, _, _, _) => assert TextsOf(row) == [hash];
    case AccessTokenRow(_, _, hash, _, role, _, _) => assert TextsOf(row) == [hash, role];
  }

  ghost predicate ClashFree(rows: seq<Row>) {
    forall i, j | 0 <= i < j < |rows| :: !Clash(rows[i], rows[j])
  }

  lemma ClashFreeAppends(a: seq<Row>, b: seq<Row>)
    requires forall p, q | p in a && q in b :: TableOf(p) != TableOf(q)
    ensures ClashFree(a + b) <==> ClashFree(a) && ClashFree(b)
  {
    var all := a + b;
    if ClashFree(all) {
      forall i, j | 0 <= i < j < |a| ensures !Clash(a[i], a[j]) { assert all[i] == a[i] && all[j] == a[j]; }
      forall i, j | 0 <= i < j < |b| ensures !Clash(b[i], b[j]) {
        assert all[|a| + i] == b[i] && all[|a| + j] == b[j];
      }
    }
    if ClashFree(a) && ClashFree(b) {
      forall i, j | 0 <= i < j < |all| ensures !Clash(all[i], all[j]) {
        assert i >= |a| ==> all[i] == b[i - |a|];
        assert j >= |a| ==> all[j] == b[j - |a|];
      }
    }
  }

  ghost predicate RowsStand(rows: seq<Row>, users: seq<Row>) {
    forall r <- rows :: Acceptable(r) && (UserOf(r).Some? ==> OwnedBy(users, UserOf(r).value))
  }

  lemma OneTable(source: Source)
    requires WellTyped(source)
    ensures SoundUsers(source.users) <==> ClashFree(source.users) && RowsStand(source.users, source.users)
    ensures SoundNotes(source.notes, source.users) <==> ClashFree(source.notes) && RowsStand(source.notes, source.users)
    ensures SoundRefreshTokens(source.refreshTokens, source.users)
      <==> ClashFree(source.refreshTokens) && RowsStand(source.refreshTokens, source.users)
    ensures SoundAccessTokens(source.accessTokens, source.users)
      <==> ClashFree(source.accessTokens) && RowsStand(source.accessTokens, source.users)
  {
    forall r: Row { AcceptableMeans(r); }
    UsersClashFree(source.users);
    NotesClashFree(source.notes);
    TokensClashFree(source.refreshTokens);
    TokensClashFree(source.accessTokens);
  }

  lemma UsersClashFree(rows: seq<Row>)
    requires forall r <- rows :: r.UserRow?
    ensures ClashFree(rows)
      <==> DistinctIds(rows) && forall i, j | 0 <= i < j < |rows| :: rows[i].email != rows[j].email
  {
    forall i, j | 0 <= i < j < |rows|
      ensures Clash(rows[i], rows[j]) <==> rows[i].id == rows[j].id || rows[i].email == rows[j].email
    {
      assert rows[i] in rows && rows[j] in rows;
    }
  }

  lemma NotesClashFree(rows: seq<Row>)
    requires forall r <- rows :: r.NoteRow?
    ensures ClashFree(rows) <==> DistinctIds(rows)
  {
    forall i, j | 0 <= i < j < |rows| ensures Clash(rows[i], rows[j]) <==> rows[i].id == rows[j].id {
      assert rows[i] in rows && rows[j] in rows;
    }
  }

  lemma TokensClashFree(rows: seq<Row>)
    requires (forall r <- rows :: r.RefreshTokenRow?) || (forall r <- rows :: r.AccessTokenRow?)
    ensures ClashFree(rows)
      <==> DistinctIds(rows) && forall i, j | 0 <= i < j < |rows| :: rows[i].tokenHash != rows[j].tokenHash
  {
    forall i, j | 0 <= i < j < |rows|
      ensures Clash(rows[i], rows[j]) <==> rows[i].id == rows[j].id || rows[i].tokenHash == rows[j].tokenHash
    {
      assert rows[i] in rows && rows[j] in rows;
    }
  }

  /** The condition of a migration, read off the columns: within each table no two rows share an id, no two
      users an email and no two tokens of a kind a digest; every note and token has its user; every role is a
      role; and no text holds a U+0000. */
  lemma SoundMeans(source: Source)
    requires WellTyped(source)
    ensures Sound(source)
      <==> && SoundUsers(source.users)
           && SoundNotes(source.notes, source.users)
           && SoundRefreshTokens(source.refreshTokens, source.users)
           && SoundAccessTokens(source.accessTokens, source.users)
  {
    var (u, n, t, a) := (source.users, source.notes, source.refreshTokens, source.accessTokens);
    OneTable(source);
    ClashFreeAppends(u, n);
    ClashFreeAppends(u + n, t);
    ClashFreeAppends(u + n + t, a);
    SoundInParts(source);
  }

  ghost predicate AllRowsStand(source: Source) {
    && RowsStand(source.users, source.users) && RowsStand(source.notes, source.users)
    && RowsStand(source.refreshTokens, source.users) && RowsStand(source.accessTokens, source.users)
  }

  lemma SoundInParts(source: Source)
    ensures Sound(source) <==> ClashFree(AllRows(source)) && AllRowsStand(source)
  {
    var all := AllRows(source);
    forall r: Row
      ensures r in all
        <==> r in source.users || r in source.notes || r in source.refreshTokens || r in source.accessTokens
    {
    }
    forall owner: nat ensures OwnedBy(source.users, owner) <==> exists u <- source.users :: u.id == owner {
      if OwnedBy(source.users, owner) {
        var i :| 0 <= i < |source.users| && source.users[i].id == owner;
        assert source.users[i] in source.users;
      }
    }
    assert RowsStand(all, source.users) <==> AllRowsStand(source);
  }

  lemma SoundIsConsistent(source: Source)
    requires WellTyped(source) && Sound(source)
    ensures Consistent(map[], AllRows(source))
  {
    var all := AllRows(source);
    forall j | 0 <= j < |all| ensures all[j] in all && Acceptable(all[j]) {}
    forall j | 0 <= j < |all| && UserOf(all[j]).Some? ensures Known(map[], all, j, UserOf(all[j]).value) {
      TypedAt(source, j);
      assert all[j] in all;
      var u :| u in source.users && u.id == UserOf(all[j]).value;
      var i :| 0 <= i < |source.users| && source.users[i] == u;
      TypedAt(source, i);
      assert KeyOf(all[i]) == Key(Users, UserOf(all[j]).value);
    }
  }

  lemma ConsistentIsSound(source: Source)
    requires WellTyped(source) && Consistent(map[], AllRows(source))
    ensures Sound(source)
  {
    var all := AllRows(source);
    forall r | r in all
      ensures Acceptable(r) && (UserOf(r).Some? ==> exists u <- source.users :: u.id == UserOf(r).value)
    {
      var j :| 0 <= j < |all| && all[j] == r;
      if UserOf(r).Some? {
        assert Known(map[], all, j, UserOf(r).value);
        var i :| 0 <= i < j && KeyOf(all[i]) == Key(Users, UserOf(r).value);
        TypedAt(source, i);
        assert all[i] == source.users[i];
      }
    }
  }

  lemma SoundIffConsistent(source: Source)
    requires WellTyped(source)
    ensures Sound(source) <==> Consistent(map[], AllRows(source))
  {
    if Sound(source) { SoundIsConsistent(source); }
    if Consistent(map[], AllRows(source)) { ConsistentIsSound(source); }
  }

  lemma TypedAt(source: Source, i: nat)
    requires WellTyped(source) && i < |AllRows(source)|
    ensures AllRows(source)[i].UserRow? <==> i < |source.users|
    ensures i < |source.users| ==> AllRows(source)[i] == source.users[i]
  {
    var (u, n, t) := (|source.users|, |source.notes|, |source.refreshTokens|);
    if i < u {
      assert AllRows(source)[i] == source.users[i];
    } else if i < u + n {
      assert AllRows(source)[i] == source.notes[i - u] && source.notes[i - u] in source.notes;
    } else if i < u + n + t {
      assert AllRows(source)[i] == source.refreshTokens[i - u - n]
        && source.refreshTokens[i - u - n] in source.refreshTokens;
    } else {
      assert AllRows(source)[i] == source.accessTokens[i - u - n - t]
        && source.accessTokens[i - u - n - t] in source.accessTokens;
    }
  }

  /** Copying table by table, chunk by chunk, is one INSERT of all the rows. */
  lemma CopyIsOneInsert(source: Source, target: Db, faults: Faults)
    ensures CopyTables(target, source, faults).Some?
      ==> CopyTables(target, source, faults) == InsertAll(target, AllRows(source))
    ensures (forall k :: !faults.chunk(k)) ==> CopyTables(target, source, faults) == InsertAll(target, AllRows(source))
  {
    var (u, un, unt) := (source.users, source.users + source.notes, source.users + source.notes + source.refreshTokens);
    InsertAllAppends(target, u, source.notes);
    InsertAllAppends(target, un, source.refreshTokens);
    InsertAllAppends(target, unt, source.accessTokens);
    ChunksAreOneInsert(target, u, faults, 0);
    if CopyChunks(target, u, faults, 0).Some? {
      var (db1, n1) := CopyChunks(target, u, faults, 0).value;
      ChunksAreOneInsert(db1, source.notes, faults, n1);
      if CopyChunks(db1, source.notes, faults, n1).Some? {
        var (db2, n2) := CopyChunks(db1, source.notes, faults, n1).value;
        ChunksAreOneInsert(db2, source.refreshTokens, faults, n2);
        if CopyChunks(db2, source.refreshTokens, faults, n2).Some? {
          var (db3, n3) := CopyChunks(db2, source.refreshTokens, faults, n2).value;
          ChunksAreOneInsert(db3, source.accessTokens, faults, n3);
        }
      }
    }
  }

  lemma {:induction false} CountsAddUp(a: seq<Row>, b: seq<Row>, table: TableName)
    ensures CountOf(a + b, table) == CountOf(a, table) + CountOf(b, table)
    decreases |a|
  {
    if a == [] {
      assert a + b == b;
    } else {
      CountsAddUp(a[1..], b, table);
      assert (a + b)[1..] == a[1..] + b;
    }
  }

  lemma {:induction false} CountOfOneKind(rows: seq<Row>, kind: TableName, table: TableName)
    requires forall r <- rows :: TableOf(r) == kind
    ensures CountOf(rows, table) == if kind == table then |rows| else 0
    decreases |rows|
  {
    if rows != [] {
      CountOfOneKind(rows[1..], kind, table);
    }
  }

  lemma CountsOfSource(source: Source, table: TableName)
    requires WellTyped(source)
    ensures CountOf(AllRows(source), table) == match table
                                               case Users => |source.users|
                                               case Notes => |source.notes|
                                               case RefreshTokens => |source.refreshTokens|
                                               case AccessTokens => |source.accessTokens|
  {
    CountsAddUp(source.users, source.notes, table);
    CountsAddUp(source.users + source.notes, source.refreshTokens, table);
    CountsAddUp(source.users + source.notes + source.refreshTokens, source.accessTokens, table);
    CountOfOneKind(source.users, Users, table);
    CountOfOneKind(source.notes, Notes, table);
    CountOfOneKind(source.refreshTokens, RefreshTokens, table);
    CountOfOneKind(source.accessTokens, AccessTokens, table);
  }

  lemma EmptyIffNothingCounted(target: Db)
    ensures CountsMatch(target, Report(0, 0, 0, 0)) <==> target == map[]
  {
    if target != map[] {
      var k :| k in target;
      assert k in KeysOf(target, k.table);
    }
  }

  /** A dry run does the whole copy: for any source, target and failures it answers what the real run
      would, its rollback failing where the commit would. Only the real run leaves anything. */
  lemma DryRunAnswersAlike(source: Source, target: Db, faults: Faults)
    ensures Outcome(source, target, true, faults).0 == Outcome(source, target, false, faults).0
    ensures Outcome(source, target, true, faults).1 == target
  {
  }

  /** The migration, over every source, target and pattern of failures, dry or real. It answers Ok only from
      an empty target, and then reports the source's sizes; a real run commits exactly the source's rows and a
      dry run none. The counts it reads back never disagree. Without outside failures either succeeds exactly
      when the target is empty and the source meets its own keys and has no U+0000 in a text. */
  lemma MigrationIsExact(source: Source, target: Db, dryRun: bool, faults: Faults)
    requires WellTyped(source)
    ensures var (answer, after) := Outcome(source, target, dryRun, faults);
      && (answer.Ok? ==> target == map[] && Sound(source) && answer.value == ReportOf(source))
      && (answer.Ok? ==> if dryRun then after == map[] else Image(map[], after, AllRows(source)))
      && answer != Err(CountMismatch)
      && (answer == Err(NotEmpty) <==> !faults.begin && !faults.count && target != map[])
    ensures (forall k :: !faults.chunk(k)) && !faults.begin && !faults.count && !faults.verify && !faults.finish
      ==> (Outcome(source, target, dryRun, faults).0.Ok? <==> target == map[] && Sound(source))
  {
    EmptyIffNothingCounted(target);
    CopyIsOneInsert(source, target, faults);
    SoundIffConsistent(source);
    if target == map[] {
      InsertsIffConsistent(target, AllRows(source));
      if InsertAll(target, AllRows(source)).Some? {
        InsertAllStores(target, AllRows(source));
        var db := InsertAll(target, AllRows(source)).value;
        forall table: TableName
          ensures |KeysOf(db, table)| == CountOf(AllRows(source), table)
        {
          InsertAllCounts(target, AllRows(source), table);
          assert KeysOf(target, table) == {};
        }
        CountsOfSource(source, Users);
        CountsOfSource(source, Notes);
        CountsOfSource(source, RefreshTokens);
        CountsOfSource(source, AccessTokens);
      }
    }
  }

  // What the precision of TIMESTAMPTZ costs.

  predicate Whole(t: Time) { t % 1000 == 0 }

  predicate WholeMicros(row: Row) {
    match row
    case UserRow(_, _, _, _, _, locked, created, updated) =>
      (locked.Some? ==> Whole(locked.value)) && Whole(created) && Whole(updated)
    case NoteRow(_, _, _, _, created, updated) => Whole(created) && Whole(updated)
    case RefreshTokenRow(_, _, _, _, expires, used, _, created) =>
      Whole(expires) && (used.Some? ==> Whole(used.value)) && Whole(created)
    case AccessTokenRow(_, _, _, _, _, expires, created) => Whole(expires) && Whole(created)
  }

  /** The microsecond an instant falls in. */
  lemma MicrosMeans(t: Time)
    ensures t - 1000 < Micros(t) <= t && Whole(Micros(t))
  {
  }

  lemma SameIffWholeMicros(row: Row)
    ensures AtMicros(row) == row <==> WholeMicros(row)
  {
  }

  /** "Carried across exactly" holds of a committed copy if and only if every instant of the source
      is a whole microsecond. */
  lemma CopyIsEqualIffWholeMicros(source: Source, target: Db, faults: Faults)
    requires WellTyped(source) && Outcome(source, target, false, faults).0.Ok?
    ensures (forall r <- AllRows(source) ::
      KeyOf(r) in Outcome(source, target, false, faults).1 && Outcome(source, target, false, faults).1[KeyOf(r)] == r)
      <==> (forall r <- AllRows(source) :: WholeMicros(r))
  {
    MigrationIsExact(source, target, false, faults);
    forall r: Row ensures AtMicros(r) == r <==> WholeMicros(r) { SameIffWholeMicros(r); }
  }

  /** Whatever the precision, no session comes back to life: a refresh token the copy would accept
      was acceptable in the source, and a spent or revoked one arrives spent or revoked. */
  lemma NothingComesBackToLife(source: Source, target: Db, faults: Faults, r: Row, now: Time)
    requires WellTyped(source) && Outcome(source, target, false, faults).0.Ok? && r in source.refreshTokens
    ensures KeyOf(r) in Outcome(source, target, false, faults).1
    ensures var c := Outcome(source, target, false, faults).1[KeyOf(r)];
      c.RefreshTokenRow? && (c.usedAt.Some? <==> r.usedAt.Some?) && c.revoked == r.revoked
      && c.tokenHash == r.tokenHash && c.userId == r.userId && c.family == r.family
      && (now < c.expiresAt ==> now < r.expiresAt)
  {
    MigrationIsExact(source, target, false, faults);
    assert r in AllRows(source);
  }
}
