/** Access tokens as references to stored rows (src/security/opaque.rs), and the sweep that
    deletes expired rows (src/service/token_janitor.rs). */
module OpaqueTokens {
  import opened Common
  import opened RefreshTokens

  datatype Role = User | Admin

  function AsStr(role: Role): string {
    match role
    case User => "user"
    case Admin => "admin"
  }

  /** Roles are written as they are read, and nothing else is a role. */
  lemma RolesRoundTrip(role: Role, s: string)
    ensures ParseRole(AsStr(role)) == Some(role)
    ensures ParseRole(s).Some? ==> AsStr(ParseRole(s).value) == s
    ensures AsStr(User) == "user" && AsStr(Admin) == "admin"
  {
  }

  function ParseRole(s: string): Option<Role> {
    if s == "user" then Some(User) else if s == "admin" then Some(Admin) else None
  }

  datatype AccessRow = AccessRow(userId: nat, tokenHash: Digest, session: nat, role: string, expiresAt: Time)

  datatype Identity = Identity(userId: nat, role: Role)

  datatype AppError = Unauthorized

  type Rows = map<nat, AccessRow>

  ghost predicate HashesUnique(rows: Rows) {
    forall a, b :: a in rows && b in rows && rows[a].tokenHash == rows[b].tokenHash ==> a == b
  }

  ghost function Verdict(rows: Rows, secret: nat, now: Time): Result<Identity, AppError> {
    if id :| id in rows && rows[id].tokenHash == DigestOf(secret) then
      if rows[id].expiresAt <= now then Err(Unauthorized)
      else match ParseRole(rows[id].role)
           case Some(role) => Ok(Identity(rows[id].userId, role))
           case None => Err(Unauthorized)
    else Err(Unauthorized)
  }

  datatype Event =
    | Issue(id: nat, secret: nat, user: nat, role: Role, session: nat)
    | RevokeSession(session: nat)
    | RevokeAllForUser(user: nat)
    | Sweep
    | SetRole(user: nat, role: Role)   // the account's role changes

  datatype Timed = Timed(event: Event, at: Time)

  function Apply(rows: Rows, ttl: Time, e: Timed): Rows {
    match e.event
    case Issue(id, secret, user, role, session) =>
      rows[id := AccessRow(user, DigestOf(secret), session, AsStr(role), e.at + ttl)]
    case RevokeSession(session) => map id | id in rows && rows[id].session != session :: rows[id]
    case RevokeAllForUser(user) => map id | id in rows && rows[id].userId != user :: rows[id]
    case Sweep => map id | id in rows && rows[id].expiresAt >= e.at :: rows[id]
    case SetRole(_, _) => rows
  }

  function ExpiredRows(rows: Rows, now: Time): set<nat> {
    set id | id in rows && rows[id].expiresAt < now
  }

  class OpaqueCodec {
    var rows: Rows
    const ttl: Time

    constructor (ttl: Time)
      ensures rows == map[] && this.ttl == ttl
    {
      rows := map[];
      this.ttl := ttl;
    }

    /** `id` and `secret` are the values drawn for the token. */
    method Issue(id: nat, secret: nat, user: nat, role: Role, session: nat, now: Time) returns (token: nat)
      modifies this
      ensures token == secret
      ensures rows == Apply(old(rows), ttl, Timed(Event.Issue(id, secret, user, role, session), now))
    {
      rows := rows[id := AccessRow(user, DigestOf(secret), session, AsStr(role), now + ttl)];
      token := secret;
    }

    method Verify(token: nat, now: Time) returns (answer: Result<Identity, AppError>)
      requires HashesUnique(rows)
      ensures answer == Verdict(rows, token, now)
    {
      var pending := rows.Keys;
      while pending != {}
        invariant pending <= rows.Keys
        invariant forall id :: id in rows && id !in pending ==> rows[id].tokenHash != DigestOf(token)
        decreases |pending|
      {
        var id :| id in pending;
        if rows[id].tokenHash == DigestOf(token) {
          if rows[id].expiresAt <= now {
            return Err(Unauthorized);
          }
          var role := ParseRole(rows[id].role);
          if role.None? {
            return Err(Unauthorized);
          }
          return Ok(Identity(rows[id].userId, role.value));
        }
        pending := pending - {id};
      }
      answer := Err(Unauthorized);
    }

    method RevokeSession(session: nat, now: Time)
      modifies this
      ensures rows == Apply(old(rows), ttl, Timed(Event.RevokeSession(session), now))
    {
      rows := map id | id in rows && rows[id].session != session :: rows[id];
    }

    method RevokeAllForUser(user: nat, now: Time)
      modifies this
      ensures rows == Apply(old(rows), ttl, Timed(Event.RevokeAllForUser(user), now))
    {
      rows := map id | id in rows && rows[id].userId != user :: rows[id];
    }

    method DeleteExpired(now: Time) returns (removed: nat)
      modifies this
      ensures rows == Apply(old(rows), ttl, Timed(Event.Sweep, now))
      ensures rows == old(rows) - ExpiredRows(old(rows), now) && removed == |ExpiredRows(old(rows), now)|
      ensures removed == |old(rows)| - |rows|
    {
      var before := |rows|;
      rows := map id | id in rows && rows[id].expiresAt >= now :: rows[id];
      CountRemoved(old(rows), rows, ExpiredRows(old(rows), now));
      removed := before - |rows|;
    }
  }

  /** purge_expired: sweeps the refresh tokens and the access tokens at one instant. */
  method PurgeExpired(refresh: TokenStore, access: OpaqueCodec, now: Time) returns (removed: nat)
    modifies refresh, access
    ensures refresh.rows == Swept(old(refresh.rows), now)
    ensures access.rows == Apply(old(access.rows), access.ttl, Timed(Event.Sweep, now))
    ensures removed == |old(refresh.rows)| - |refresh.rows| + |old(access.rows)| - |access.rows|
    ensures removed == |ExpiredBy(old(refresh.rows), now)| + |ExpiredRows(old(access.rows), now)|
  {
    removed := 0;
    var some := refresh.DeleteExpired(now);
    removed := removed + some;
    some := access.DeleteExpired(now);
    removed := removed + some;
  }

  // ----- the verdict is a function of history

  function RowsAfter(ttl: Time, run: seq<Timed>): Rows {
    if run == [] then map[] else Apply(RowsAfter(ttl, run[..|run| - 1]), ttl, run[|run| - 1])
  }

  /** The clock never goes back, and every token is drawn afresh. */
  ghost predicate Plausible(run: seq<Timed>) {
    && (forall i, j | 0 <= i <= j < |run| :: run[i].at <= run[j].at)
    && (forall i, j | 0 <= i < j < |run| && run[i].event.Issue? && run[j].event.Issue? ::
          run[i].event.id != run[j].event.id && run[i].event.secret != run[j].event.secret)
  }

  predicate Revokes(e: Event, issued: Event)
    requires issued.Issue?
  {
    match e
    case RevokeSession(session) => session == issued.session
    case RevokeAllForUser(user) => user == issued.user
    case _ => false
  }

  /** The i-th event issued this token and nothing after it revoked its session or its user. */
  ghost predicate Stands(run: seq<Timed>, i: nat, secret: nat) {
    && i < |run| && run[i].event.Issue? && run[i].event.secret == secret
    && forall j | i < j < |run| :: !Revokes(run[j].event, run[i].event)
  }

  function RowOf(ttl: Time, e: Timed): AccessRow
    requires e.event.Issue?
  {
    AccessRow(e.event.user, DigestOf(e.event.secret), e.event.session, AsStr(e.event.role), e.at + ttl)
  }

  /** Whatever is stored under an id was issued under it and still stands. */
  lemma {:induction false} StoredRowsStand(ttl: Time, run: seq<Timed>, id: nat) returns (i: nat)
    requires Plausible(run) && id in RowsAfter(ttl, run)
    ensures i < |run| && run[i].event.Issue? && run[i].event.id == id
    ensures Stands(run, i, run[i].event.secret) && RowsAfter(ttl, run)[id] == RowOf(ttl, run[i])
  {
    var before, last := run[..|run| - 1], run[|run| - 1];
    if last.event.Issue? && last.event.id == id {
      i := |run| - 1;
    } else {
      i := StoredRowsStand(ttl, before, id);
      assert !Revokes(last.event, run[i].event);
    }
  }

  lemma {:induction false} StandingRowsAreStored(ttl: Time, run: seq<Timed>, i: nat, secret: nat)
    requires Plausible(run) && Stands(run, i, secret)
    ensures var rows, id := RowsAfter(ttl, run), run[i].event.id;
      (id in rows && rows[id] == RowOf(ttl, run[i])) || run[i].at + ttl < run[|run| - 1].at
  {
    var before := run[..|run| - 1];
    if i < |run| - 1 {
      assert Stands(before, i, secret);
      StandingRowsAreStored(ttl, before, i, secret);
    }
  }

  lemma HashesStayUnique(ttl: Time, run: seq<Timed>)
    requires Plausible(run)
    ensures HashesUnique(RowsAfter(ttl, run))
  {
    var rows := RowsAfter(ttl, run);
    forall a, b | a in rows && b in rows && rows[a].tokenHash == rows[b].tokenHash
      ensures a == b
    {
      var i := StoredRowsStand(ttl, run, a);
      var j := StoredRowsStand(ttl, run, b);
      assert run[i].event.secret == run[j].event.secret;
    }
  }

  /** A token verifies exactly when it was issued, has not expired, and no revocation of its
      session or user came after its issue; it then yields the user and role given at issue. */
  lemma VerdictIsHistory(ttl: Time, run: seq<Timed>, secret: nat, now: Time)
    requires Plausible(run) && (run != [] ==> run[|run| - 1].at <= now)
    ensures Verdict(RowsAfter(ttl, run), secret, now).Ok? <==> exists i: nat ::
      Stands(run, i, secret) && now < run[i].at + ttl
    ensures forall i: nat :: Stands(run, i, secret) && now < run[i].at + ttl ==>
      Verdict(RowsAfter(ttl, run), secret, now) == Ok(Identity(run[i].event.user, run[i].event.role))
  {
    var rows := RowsAfter(ttl, run);
    HashesStayUnique(ttl, run);
    forall i: nat | Stands(run, i, secret) && now < run[i].at + ttl
      ensures Verdict(rows, secret, now) == Ok(Identity(run[i].event.user, run[i].event.role))
    {
      StandingRowsAreStored(ttl, run, i, secret);
      assert rows[run[i].event.id].tokenHash == DigestOf(secret);
    }
    if Verdict(rows, secret, now).Ok? {
      var id :| id in rows && rows[id].tokenHash == DigestOf(secret);
      var i := StoredRowsStand(ttl, run, id);
      assert Stands(run, i, secret);
    }
  }

  // ----- and of history only: a change of role does not reach it

  /** The role an account has after a run, if `before` gives what it had. */
  function RoleAfter(before: nat -> Role, run: seq<Timed>, user: nat): Role {
    if run == [] then before(user)
    else
      var last := run[|run| - 1];
      if last.event.SetRole? && last.event.user == user then last.event.role
      else RoleAfter(before, run[..|run| - 1], user)
  }

  /** Tokens are issued with the role the account has at that moment. */
  ghost predicate IssuesCurrentRoles(before: nat -> Role, run: seq<Timed>) {
    forall i | 0 <= i < |run| && run[i].event.Issue? ::
      run[i].event.role == RoleAfter(before, run[..i], run[i].event.user)
  }

  predicate SetsRole(e: Event, user: nat) {
    e.SetRole? && e.user == user
  }

  /** The last change of the account's role after the i-th event gave it another one. */
  ghost predicate RoleHasChanged(run: seq<Timed>, i: nat, user: nat, role: Role) {
    exists j | i < j < |run| ::
      SetsRole(run[j].event, user) && run[j].event.role != role && forall k | j < k < |run| ::
        !SetsRole(run[k].event, user)
  }

  lemma {:induction false} RoleSince(before: nat -> Role, run: seq<Timed>, i: nat, user: nat)
    requires i < |run| && !SetsRole(run[i].event, user)
    ensures var role := RoleAfter(before, run[..i], user);
      RoleAfter(before, run, user) != role <==> RoleHasChanged(run, i, user, role)
  {
    var front, n := run[..|run| - 1], |run| - 1;
    var role := RoleAfter(before, run[..i], user);
    if i == n {
      assert front == run[..i];
    } else if SetsRole(run[n].event, user) {
      assert RoleHasChanged(run, i, user, role) <==> run[n].event.role != role;
    } else {
      RoleSince(before, front, i, user);
      assert front[..i] == run[..i];
      if RoleHasChanged(front, i, user, role) {
        var j :| i < j < |front| && SetsRole(front[j].event, user) && front[j].event.role != role
          && forall k | j < k < |front| :: !SetsRole(front[k].event, user);
        assert run[j] == front[j] && forall k | j < k < |run| :: k == n || run[k] == front[k];
      }
      if RoleHasChanged(run, i, user, role) {
        var j :| i < j < |run| && SetsRole(run[j].event, user) && run[j].event.role != role
          && forall k | j < k < |run| :: !SetsRole(run[k].event, user);
        assert front[j] == run[j] && forall k | j < k < |front| :: front[k] == run[k];
      }
    }
  }

  /** The role a token verifies with is the account's current one if and only if the account's role
      has not been changed, to another one, since the token was issued. */
  lemma VerdictRoleIsCurrentIff(ttl: Time, before: nat -> Role, run: seq<Timed>, i: nat, secret: nat, now: Time)
    requires Plausible(run) && Stands(run, i, secret) && run[|run| - 1].at <= now && IssuesCurrentRoles(before, run)
    requires now < run[i].at + ttl
    ensures var verdict, user := Verdict(RowsAfter(ttl, run), secret, now), run[i].event.user;
      && verdict.Ok? && verdict.value.userId == user
      && (verdict.value.role == RoleAfter(before, run, user) <==> !RoleHasChanged(run, i, user, verdict.value.role))
  {
    VerdictIsHistory(ttl, run, secret, now);
    RoleSince(before, run, i, run[i].event.user);
  }

  // ----- sweeps do not count

  /** After a sweep no stored row has expired, and none was taken that had not. */
  lemma SweepTakesOnlyExpired(rows: Rows, ttl: Time, now: Time, id: nat)
    requires id in rows
    ensures id in Apply(rows, ttl, Timed(Sweep, now)) <==> now <= rows[id].expiresAt
    ensures id in Apply(rows, ttl, Timed(Sweep, now)) ==> Apply(rows, ttl, Timed(Sweep, now))[id] == rows[id]
  {
  }

  function WithoutSweeps(run: seq<Timed>): seq<Timed> {
    if run == [] then []
    else
      var last := run[|run| - 1];
      WithoutSweeps(run[..|run| - 1]) + if last.event.Sweep? then [] else [last]
  }

  /** Sweeping never changes an answer: the run with its sweeps removed gives the same verdict
      on every token at every later instant. */
  lemma SweepsAreInvisible(ttl: Time, run: seq<Timed>, secret: nat, now: Time)
    requires Plausible(run) && (run != [] ==> run[|run| - 1].at <= now)
    ensures Verdict(RowsAfter(ttl, WithoutSweeps(run)), secret, now) == Verdict(RowsAfter(ttl, run), secret, now)
  {
    BareRowsAgree(ttl, run, if run == [] then now else run[|run| - 1].at);
    HashesStayUnique(ttl, run);
    BareRunIsPlausible(run);
    HashesStayUnique(ttl, WithoutSweeps(run));
  }

  /** The bare table holds more only in rows that have expired by `at`. */
  ghost predicate DifferInExpired(rows: Rows, bare: Rows, at: Time) {
    && (forall id :: id in rows ==> id in bare && bare[id] == rows[id])
    && (forall id :: id in bare && id !in rows ==> bare[id].expiresAt < at)
  }

  lemma IssueKeepsDifference(rows: Rows, bare: Rows, at: Time, ttl: Time, e: Timed)
    requires DifferInExpired(rows, bare, at) && at <= e.at && e.event.Issue?
    ensures DifferInExpired(Apply(rows, ttl, e), Apply(bare, ttl, e), e.at)
  {
  }

  lemma RevocationKeepsDifference(rows: Rows, bare: Rows, at: Time, ttl: Time, e: Timed)
    requires DifferInExpired(rows, bare, at) && at <= e.at && (e.event.RevokeSession? || e.event.RevokeAllForUser?)
    ensures DifferInExpired(Apply(rows, ttl, e), Apply(bare, ttl, e), e.at)
  {
  }

  lemma SweepKeepsDifference(rows: Rows, bare: Rows, at: Time, ttl: Time, e: Timed)
    requires DifferInExpired(rows, bare, at) && at <= e.at && e.event.Sweep?
    ensures DifferInExpired(Apply(rows, ttl, e), bare, e.at)
  {
  }

  lemma WithoutSweepsUnfolds(run: seq<Timed>, ttl: Time)
    requires run != []
    ensures var before, last := run[..|run| - 1], run[|run| - 1];
      RowsAfter(ttl, WithoutSweeps(run))
        == if last.event.Sweep? then RowsAfter(ttl, WithoutSweeps(before))
          else Apply(RowsAfter(ttl, WithoutSweeps(before)), ttl, last)
  {
    var before, last := run[..|run| - 1], run[|run| - 1];
    if last.event.Sweep? {
      assert WithoutSweeps(run) == WithoutSweeps(before);
    } else {
      assert WithoutSweeps(run) == WithoutSweeps(before) + [last];
      assert WithoutSweeps(run)[..|WithoutSweeps(run)| - 1] == WithoutSweeps(before);
    }
  }

  /** One more event, on the table and on the table that is never swept. */
  lemma EventKeepsDifference(rows: Rows, bare: Rows, at: Time, ttl: Time, e: Timed)
    requires DifferInExpired(rows, bare, at) && at <= e.at
    ensures DifferInExpired(Apply(rows, ttl, e), if e.event.Sweep? then bare else Apply(bare, ttl, e), e.at)
  {
    match e.event
    case Issue(_, _, _, _, _) => IssueKeepsDifference(rows, bare, at, ttl, e);
    case RevokeSession(_) => RevocationKeepsDifference(rows, bare, at, ttl, e);
    case RevokeAllForUser(_) => RevocationKeepsDifference(rows, bare, at, ttl, e);
    case Sweep => SweepKeepsDifference(rows, bare, at, ttl, e);
    case SetRole(_, _) =>
  }

  lemma PrefixIsPlausible(run: seq<Timed>)
    requires Plausible(run) && run != []
    ensures Plausible(run[..|run| - 1])
    ensures |run| > 1 ==> run[|run| - 2].at <= run[|run| - 1].at
  {
  }

  lemma {:induction false} BareRowsAgree(ttl: Time, run: seq<Timed>, at: Time)
    requires Plausible(run) && (run != [] ==> at == run[|run| - 1].at)
    ensures DifferInExpired(RowsAfter(ttl, run), RowsAfter(ttl, WithoutSweeps(run)), at)
  {
    if run != [] {
      var before, last := run[..|run| - 1], run[|run| - 1];
      var earlier := if before == [] then at else before[|before| - 1].at;
      PrefixIsPlausible(run);
      BareRowsAgree(ttl, before, earlier);
      EventKeepsDifference(RowsAfter(ttl, before), RowsAfter(ttl, WithoutSweeps(before)), earlier, ttl, last);
      WithoutSweepsUnfolds(run, ttl);
    }
  }

  lemma {:induction false} BareEventsComeFrom(run: seq<Timed>, k: nat) returns (j: nat)
    requires k < |WithoutSweeps(run)|
    ensures j < |run| && run[j] == WithoutSweeps(run)[k]
  {
    var before := run[..|run| - 1];
    if k < |WithoutSweeps(before)| {
      j := BareEventsComeFrom(before, k);
    } else {
      j := |run| - 1;
    }
  }

  lemma PlausibleExtends(run: seq<Timed>, last: Timed)
    requires Plausible(run) && forall k | 0 <= k < |run| :: run[k].at <= last.at
    requires last.event.Issue? ==> forall k | 0 <= k < |run| && run[k].event.Issue? ::
      run[k].event.id != last.event.id && run[k].event.secret != last.event.secret
    ensures Plausible(run + [last])
  {
  }

  lemma {:induction false} BareRunIsPlausible(run: seq<Timed>)
    requires Plausible(run)
    ensures Plausible(WithoutSweeps(run))
  {
    if run != [] {
      var before, last := run[..|run| - 1], run[|run| - 1];
      PrefixIsPlausible(run);
      BareRunIsPlausible(before);
      var bare := WithoutSweeps(before);
      forall k | 0 <= k < |bare| ensures exists j: nat :: j < |run| - 1 && run[j] == bare[k] {
        var j := BareEventsComeFrom(before, k);
        assert run[j] == before[j];
      }
      PlausibleExtends(bare, last);
    }
  }
}
