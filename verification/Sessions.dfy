/** src/service/session_service.rs as it runs when nothing interleaves: each operation is its
    series of calls on the store object. Its effect is given by table functions, and those are
    shown to be what the rotation machine does when one request takes all its steps in a row. */
module Sessions {
  import opened Common
  import opened RefreshTokens
  import O = OpaqueTokens
  import Rotation

  datatype RedeemedSession = RedeemedSession(userId: nat, family: nat)

  datatype AppError = Unauthorized

  ghost function RedeemAnswer(t: Table, secret: nat, now: Time): Result<RedeemedSession, AppError> {
    match FindByHash(t, DigestOf(secret))
    case Some(record) =>
      if record.IsUsableAt(now) then Ok(RedeemedSession(record.userId, record.family)) else Err(Unauthorized)
    case None => Err(Unauthorized)
  }

  ghost function RedeemTable(t: Table, secret: nat, now: Time): Table {
    match FindByHash(t, DigestOf(secret))
    case Some(record) =>
      if record.IsUsableAt(now) then Marked(t, record.id, now)
      else if record.usedAt.Some? then FamilyRevoked(t, record.family)
      else t
    case None => t
  }

  /** The second half of redeem: the answer and the table, for a record found earlier. */
  function SpendAnswer(t: Table, record: Record): Result<RedeemedSession, AppError> {
    if CanMark(t, record.id) then Ok(RedeemedSession(record.userId, record.family)) else Err(Unauthorized)
  }

  function SpendTable(t: Table, record: Record, now: Time): Table {
    if CanMark(t, record.id) then Marked(t, record.id, now) else FamilyRevoked(t, record.family)
  }

  ghost function LogoutTable(t: Table, secret: nat): Table {
    match FindByHash(t, DigestOf(secret))
    case Some(record) => FamilyRevoked(t, record.family)
    case None => t
  }

  /** The ids and secrets drawn for one pair of tokens. */
  datatype Drawn = Drawn(id: nat, refresh: nat, accessId: nat, access: nat)

  datatype AuthTokens = AuthTokens(access: nat, refresh: nat)

  ghost predicate DrawnAfresh(d: Drawn, tokens: Table, access: O.Rows) {
    && d.id !in tokens && (forall t | t in tokens :: tokens[t].tokenHash != DigestOf(d.refresh))
    && d.accessId !in access && (forall t | t in access :: access[t].tokenHash != DigestOf(d.access))
  }

  /** The access tokens after a logout with this refresh token. */
  ghost function LogoutAccess(t: Table, access: O.Rows, secret: nat, ttl: Time, now: Time): O.Rows {
    match FindByHash(t, DigestOf(secret))
    case Some(record) => O.Apply(access, ttl, O.Timed(O.RevokeSession(record.family), now))
    case None => access
  }

  /** The service with an issuer that stores its access tokens. */
  class SessionService {
    const tokens: TokenStore
    const issuer: O.OpaqueCodec
    const refreshTtl: int

    constructor (tokens: TokenStore, issuer: O.OpaqueCodec, refreshTtl: int)
      ensures this.tokens == tokens && this.issuer == issuer && this.refreshTtl == refreshTtl
    {
      this.tokens := tokens;
      this.issuer := issuer;
      this.refreshTtl := refreshTtl;
    }

    /** Spends a refresh token. The re-check of the digest found by lookup is not repeated:
        the lookup already matched it exactly. */
    method Redeem(presented: nat, now: Time) returns (answer: Result<RedeemedSession, AppError>)
      requires WellFormed(tokens.rows)
      modifies tokens
      ensures answer == RedeemAnswer(old(tokens.rows), presented, now)
      ensures tokens.rows == RedeemTable(old(tokens.rows), presented, now)
      ensures WellFormed(tokens.rows)
    {
      var found := tokens.Lookup(DigestOf(presented));
      if found.None? {
        return Err(Unauthorized);
      }
      var record := found.value;
      if !record.IsUsableAt(now) {
        if record.usedAt.Some? {
          tokens.RevokeFamily(record.family);
        }
        return Err(Unauthorized);
      }
      answer := Spend(record, now);
    }

    /** The second half of redeem, from whatever table it meets: other requests may have run
        since `record` was looked up, and losing that race is treated as reuse. */
    method Spend(record: Record, now: Time) returns (answer: Result<RedeemedSession, AppError>)
      modifies tokens
      ensures answer == SpendAnswer(old(tokens.rows), record)
      ensures tokens.rows == SpendTable(old(tokens.rows), record, now)
      ensures answer.Ok? <==> CanMark(old(tokens.rows), record.id)
      ensures answer.Ok? ==> answer.value == RedeemedSession(record.userId, record.family)
      ensures tokens.rows
        == if answer.Ok? then Marked(old(tokens.rows), record.id, now)
        else FamilyRevoked(old(tokens.rows), record.family)
    {
      var won := tokens.MarkUsed(record.id, now);
      if !won {
        tokens.RevokeFamily(record.family);
        return Err(Unauthorized);
      }
      return Ok(RedeemedSession(record.userId, record.family));
    }

    /** Issues the next pair of a chain: the access token carries the family too. */
    method Issue(user: nat, role: O.Role, family: nat, drawn: Drawn, now: Time) returns (pair: AuthTokens)
      requires WellFormed(tokens.rows) && DrawnAfresh(drawn, tokens.rows, issuer.rows)
      modifies tokens, issuer
      ensures pair == AuthTokens(drawn.access, drawn.refresh)
      ensures tokens.rows
        == old(tokens.rows)[drawn.id :=
             Record(drawn.id, user, DigestOf(drawn.refresh), family, now + refreshTtl, None, false)]
      ensures issuer.rows
        == O.Apply(old(issuer.rows), issuer.ttl,
             O.Timed(O.Issue(drawn.accessId, drawn.access, user, role, family), now))
      ensures WellFormed(tokens.rows)
    {
      var access := issuer.Issue(drawn.accessId, drawn.access, user, role, family, now);
      tokens.Insert(Record(drawn.id, user, DigestOf(drawn.refresh), family, now + refreshTtl, None, false));
      pair := AuthTokens(access, drawn.refresh);
    }

    /** Logout: the family's refresh tokens and its stored access tokens. */
    method Revoke(presented: nat, now: Time)
      requires WellFormed(tokens.rows)
      modifies tokens, issuer
      ensures tokens.rows == LogoutTable(old(tokens.rows), presented)
      ensures issuer.rows == LogoutAccess(old(tokens.rows), old(issuer.rows), presented, issuer.ttl, now)
    {
      var found := tokens.Lookup(DigestOf(presented));
      if found.Some? {
        tokens.RevokeFamily(found.value.family);
        issuer.RevokeSession(found.value.family, now);
      }
    }

    method RevokeAll(user: nat, now: Time)
      modifies tokens, issuer
      ensures tokens.rows == UserRevoked(old(tokens.rows), user)
      ensures issuer.rows == O.Apply(old(issuer.rows), issuer.ttl, O.Timed(O.RevokeAllForUser(user), now))
    {
      tokens.RevokeAllForUser(user);
      issuer.RevokeAllForUser(user, now);
    }

    /** A rotation and then a replay, on any table: the second presentation is refused and
        leaves no usable row in the family, whatever the family held. */
    method RotateThenReplay(presented: nat, role: O.Role, drawn: Drawn, now: Time, later: Time)
      returns (first: Result<RedeemedSession, AppError>, replay: Result<RedeemedSession, AppError>)
      requires WellFormed(tokens.rows) && DrawnAfresh(drawn, tokens.rows, issuer.rows)
      modifies tokens, issuer
      ensures first == RedeemAnswer(old(tokens.rows), presented, now)
      ensures replay.Err? || first.Err?
      ensures first.Ok? ==> forall t ::
        t in tokens.rows && tokens.rows[t].family == first.value.family ==> tokens.rows[t].revoked
    {
      first := Redeem(presented, now);
      if first.Err? {
        replay := first;
        return;
      }
      var _ := Issue(first.value.userId, role, first.value.family, drawn, now);
      ghost var spent := FindByHash(old(tokens.rows), DigestOf(presented)).value.id;
      assert tokens.rows[spent].usedAt.Some? && tokens.rows[spent].family == first.value.family;
      replay := Redeem(presented, later);
    }
  }

  /** One presentation, column by column: a stored token is accepted exactly while it is unused, unrevoked
      and unexpired, and only then is it marked; only a spent one, never an expired or revoked one, has its
      family revoked; an unknown one changes nothing; and no other column of any row changes. */
  lemma RedeemCases(t: Table, id: nat, secret: nat, now: Time, other: nat)
    requires WellFormed(t) && id in t && t[id].tokenHash == DigestOf(secret)
    ensures var (row, usable) := (t[id], t[id].usedAt.None? && !t[id].revoked && now < t[id].expiresAt);
      && RedeemAnswer(t, secret, now)
         == (if usable then Ok(RedeemedSession(row.userId, row.family)) else Err(Unauthorized))
      && RedeemTable(t, secret, now).Keys == t.Keys
      && (other in t ==> RedeemTable(t, secret, now)[other] == t[other].(
            usedAt := if usable && other == id then Some(now) else t[other].usedAt,
            revoked := t[other].revoked || (row.usedAt.Some? && t[other].family == row.family)))
    ensures forall unknown, at | (forall k :: k in t ==> t[k].tokenHash != DigestOf(unknown)) ::
      RedeemAnswer(t, unknown, at) == Err(Unauthorized) && RedeemTable(t, unknown, at) == t
  {
    assert FindByHash(t, DigestOf(secret)) == Some(t[id]);
  }

  // ----- the operations are runs of the machine

  /** The store calls redeem makes when its request runs alone. */
  ghost function RedeemSteps(t: Table, r: nat, secret: nat, now: Time): seq<Rotation.Step> {
    match FindByHash(t, DigestOf(secret))
    case Some(record) =>
      if record.IsUsableAt(now) then [Rotation.Present(r, secret, now), Rotation.Lookup(r), Rotation.Mark(r, now, true)]
      else if record.usedAt.Some? then [Rotation.Present(r, secret, now), Rotation.Lookup(r), Rotation.RevokeFamily(r)]
      else [Rotation.Present(r, secret, now), Rotation.Lookup(r)]
    case None => [Rotation.Present(r, secret, now), Rotation.Lookup(r)]
  }

  /** Redeem, run alone, is a run of the machine: same table, and the request ends holding a
      permit to issue exactly when redeem answers Ok, for the same user and family. */
  lemma RedeemIsARun(s: Rotation.State, r: nat, secret: nat, now: Time)
    requires Rotation.Inv(s) && r !in s.reqs
    ensures var steps, answer := RedeemSteps(s.rows, r, secret, now), RedeemAnswer(s.rows, secret, now);
      && Rotation.Valid(s, steps)
      && var n := Rotation.After(s, steps);
      && n.rows == RedeemTable(s.rows, secret, now)
      && r in n.reqs
      && match answer
         case Ok(session) =>
           n.reqs[r].Issuing? && n.reqs[r].user == session.userId && n.reqs[r].family == session.family
         case Err(_) => n.reqs[r] == Rotation.Refused(secret)
  {
    Rotation.RowsAreWellFormed(s);
    var a, b := Rotation.Present(r, secret, now), Rotation.Lookup(r);
    Rotation.TwoSteps(s, a, b);
    var steps := RedeemSteps(s.rows, r, secret, now);
    if |steps| == 3 {
      Rotation.ThreeSteps(s, a, b, steps[2]);
    }
  }

  /** Spend, from whatever table it meets, is a run of the machine: Mark, and RevokeFamily when the race
      is lost, give the same table, and a permit to issue exactly when Spend answers Ok. */
  lemma SpendIsARun(s: Rotation.State, r: nat, record: Record, now: Time)
    requires Rotation.Inv(s) && r in s.reqs && s.reqs[r].Marking?
    requires s.reqs[r].id == record.id && s.reqs[r].user == record.userId && s.reqs[r].family == record.family
    ensures var answer := SpendAnswer(s.rows, record);
      var steps := [Rotation.Mark(r, now, true)] + if answer.Ok? then [] else [Rotation.RevokeFamily(r)];
      && Rotation.Valid(s, steps)
      && var n := Rotation.After(s, steps);
      && n.rows == SpendTable(s.rows, record, now) && r in n.reqs
      && match answer
         case Ok(session) =>
           n.reqs[r].Issuing? && n.reqs[r].user == session.userId && n.reqs[r].family == session.family
         case Err(_) => n.reqs[r] == Rotation.Refused(s.reqs[r].secret)
  {
    var mark := Rotation.Mark(r, now, true);
    if CanMark(s.rows, record.id) {
      Rotation.OneStep(s, mark);
      assert [mark] + [] == [mark];
    } else {
      Rotation.TwoSteps(s, mark, Rotation.RevokeFamily(r));
      assert [mark] + [Rotation.RevokeFamily(r)] == [mark, Rotation.RevokeFamily(r)];
    }
  }

  /** Every step of the machine is one call on the store object, or none: its effect on the rows is
      the one that method promises. */
  lemma EveryStepIsOneCall(s: Rotation.State, step: Rotation.Step)
    requires Rotation.Enabled(s, step)
    ensures Rotation.Next(s, step).rows ==
            match step
            case Mark(r, now, _) => Marked(s.rows, s.reqs[r].id, now)
            case Insert(r, id, secret, expiresAt) =>
              s.rows[id := Record(id, s.reqs[r].user, DigestOf(secret), s.reqs[r].family, expiresAt, None, false)]
            case RevokeFamily(r) => FamilyRevoked(s.rows, s.reqs[r].family)
            case RevokeAll(user) => UserRevoked(s.rows, user)
            case Sweep(now) => Swept(s.rows, now)
            case _ => s.rows
  {
  }

  /** A login is Start and then Insert: the new family's first row is the user's, unused, unrevoked and
      good until it expires. */
  lemma LogInIsARun(s: Rotation.State, r: nat, user: nat, family: nat, id: nat, secret: nat, expiresAt: Time)
    requires Rotation.Enabled(s, Rotation.Start(r, user, family))
    requires Rotation.Enabled(Rotation.Started(s, r, user, family), Rotation.Insert(r, id, secret, expiresAt))
    ensures var steps := [Rotation.Start(r, user, family), Rotation.Insert(r, id, secret, expiresAt)];
      && Rotation.Valid(s, steps)
      && Rotation.After(s, steps).rows
         == s.rows[id := Record(id, user, DigestOf(secret), family, expiresAt, None, false)]
  {
    Rotation.TwoSteps(s, Rotation.Start(r, user, family), Rotation.Insert(r, id, secret, expiresAt));
  }

  /** Logout, run alone, is a run of the machine that ends with the family dead unless an issue
      of it is in flight. */
  lemma LogoutIsARun(s: Rotation.State, r: nat, secret: nat)
    requires Rotation.Inv(s) && r !in s.reqs
    ensures var found := FindByHash(s.rows, DigestOf(secret));
      var steps := [Rotation.BeginLogout(r, secret), Rotation.LogoutLookup(r)]
        + if found.Some? then [Rotation.RevokeFamily(r)] else [];
      && Rotation.Valid(s, steps)
      && Rotation.After(s, steps).rows == LogoutTable(s.rows, secret)
      && (found.Some? && !Rotation.InFlight(s, found.value.family)
        ==> Rotation.Dead(Rotation.After(s, steps), found.value.family))
  {
    Rotation.RowsAreWellFormed(s);
    var a, b, c := Rotation.BeginLogout(r, secret), Rotation.LogoutLookup(r), Rotation.RevokeFamily(r);
    var s2 := Rotation.Next(Rotation.Next(s, a), b);
    var found := FindByHash(s.rows, DigestOf(secret));
    if found.Some? {
      assert Rotation.RowOk(s, found.value.id) && Rotation.TokenOk(s, found.value.id);
      Rotation.ThreeSteps(s, a, b, c);
      assert [a, b] + [c] == [a, b, c];
    } else {
      Rotation.TwoSteps(s, a, b);
      assert [a, b] + [] == [a, b];
    }
  }
}
