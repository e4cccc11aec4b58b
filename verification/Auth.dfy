/** Use cases composed of accounts, refresh tokens and stored access tokens
    (src/service/auth_service.rs), each run on its own. Every instant of one call is the same. */
module Auth {
  import opened Common
  import opened RefreshTokens
  import Lockout
  import O = OpaqueTokens
  import S = Sessions

  datatype Account = Account(user: Lockout.User, role: O.Role)

  datatype AppError = Unauthorized

  /** An account that is still allowed to hold a session. */
  predicate ActiveAt(accounts: map<nat, Account>, user: nat, now: Time) {
    user in accounts && !accounts[user].user.IsLockedAt(now)
  }

  /** Nobody can act as this user with a token issued so far, now or later. */
  ghost predicate SignedOutEverywhere(user: nat, tokens: Table, access: O.Rows) {
    forall secret, now ::
      && (S.RedeemAnswer(tokens, secret, now).Ok? ==> S.RedeemAnswer(tokens, secret, now).value.userId != user)
      && (O.Verdict(access, secret, now).Ok? ==> O.Verdict(access, secret, now).value.userId != user)
  }

  /** Whoever a token let in before, except this user, it lets in as before. */
  ghost predicate OthersKeepTheirs(user: nat, tokens: Table, access: O.Rows, tokens0: Table, access0: O.Rows) {
    forall secret, now ::
      && (S.RedeemAnswer(tokens0, secret, now).Ok? && S.RedeemAnswer(tokens0, secret, now).value.userId != user
          ==> S.RedeemAnswer(tokens, secret, now) == S.RedeemAnswer(tokens0, secret, now))
      && (O.Verdict(access0, secret, now).Ok? && O.Verdict(access0, secret, now).value.userId != user
          ==> O.Verdict(access, secret, now) == O.Verdict(access0, secret, now))
  }

  /** No refresh token of the family redeems, and no access token stored for it verifies, now or later. */
  ghost predicate SessionEnded(family: nat, tokens: Table, access: O.Rows, access0: O.Rows) {
    && (forall secret, now ::
      S.RedeemAnswer(tokens, secret, now).Ok? ==> S.RedeemAnswer(tokens, secret, now).value.family != family)
    && (forall id, now | id in access0 && access0[id].session == family ::
      O.Verdict(access, access0[id].tokenHash.secret, now).Err?)
  }

  /** Every token of every other session gets the answers it got before. */
  ghost predicate OtherSessionsStand(family: nat, tokens: Table, access: O.Rows, tokens0: Table, access0: O.Rows) {
    && (forall secret, now |
          S.RedeemAnswer(tokens0, secret, now).Ok? && S.RedeemAnswer(tokens0, secret, now).value.family != family ::
          S.RedeemAnswer(tokens, secret, now) == S.RedeemAnswer(tokens0, secret, now))
    && (forall id, now | id in access0 && access0[id].session != family ::
          O.Verdict(access, access0[id].tokenHash.secret, now) == O.Verdict(access0, access0[id].tokenHash.secret, now))
  }

  class AuthService {
    var accounts: map<nat, Account>
    const sessions: S.SessionService
    const verify: (string, nat) -> bool
    const hash: string -> nat

    constructor (
      accounts: map<nat, Account>, sessions: S.SessionService, verify: (string, nat) -> bool, hash: string -> nat)
      ensures this.accounts == accounts && this.sessions == sessions
      ensures this.verify == verify && this.hash == hash
    {
      this.accounts := accounts;
      this.sessions := sessions;
      this.verify := verify;
      this.hash := hash;
    }

    /** Rotation. The account is looked at after the token is spent, so a locked account's refresh
        is refused and costs it its token. The new pair carries the role the account has now. */
    method Refresh(presented: nat, drawn: S.Drawn, now: Time) returns (answer: Result<S.AuthTokens, AppError>)
      requires WellFormed(sessions.tokens.rows) && S.DrawnAfresh(drawn, sessions.tokens.rows, sessions.issuer.rows)
      modifies sessions.tokens, sessions.issuer
      ensures var redeemed := S.RedeemAnswer(old(sessions.tokens.rows), presented, now);
        var spent := S.RedeemTable(old(sessions.tokens.rows), presented, now);
        if redeemed.Ok? && ActiveAt(accounts, redeemed.value.userId, now) then
          var user, family := redeemed.value.userId, redeemed.value.family;
          && answer == Ok(S.AuthTokens(drawn.access, drawn.refresh))
          && sessions.tokens.rows
            == spent[drawn.id :=
                 Record(drawn.id, user, DigestOf(drawn.refresh), family, now + sessions.refreshTtl, None, false)]
          && sessions.issuer.rows
            == O.Apply(old(sessions.issuer.rows), sessions.issuer.ttl,
                 O.Timed(O.Issue(drawn.accessId, drawn.access, user, accounts[user].role, family), now))
        else answer.Err? && sessions.tokens.rows == spent && sessions.issuer.rows == old(sessions.issuer.rows)
    {
      var redeemed := sessions.Redeem(presented, now);
      if redeemed.Err? {
        return Err(Unauthorized);
      }
      var user := redeemed.value.userId;
      if user !in accounts || accounts[user].user.IsLockedAt(now) {
        return Err(Unauthorized);
      }
      var pair := sessions.Issue(user, accounts[user].role, redeemed.value.family, drawn, now);
      return Ok(pair);
    }

    /** Logging out ends the one session of the presented token, refresh and stored access tokens
        alike, and no other; a token nobody knows changes nothing. */
    method Logout(presented: nat, now: Time)
      requires WellFormed(sessions.tokens.rows) && O.HashesUnique(sessions.issuer.rows)
      modifies sessions.tokens, sessions.issuer
      ensures var found := FindByHash(old(sessions.tokens.rows), DigestOf(presented));
        if found.None? then
          sessions.tokens.rows == old(sessions.tokens.rows) && sessions.issuer.rows == old(sessions.issuer.rows)
        else
          && SessionEnded(found.value.family, sessions.tokens.rows, sessions.issuer.rows, old(sessions.issuer.rows))
          && OtherSessionsStand(found.value.family, sessions.tokens.rows, sessions.issuer.rows,
            old(sessions.tokens.rows), old(sessions.issuer.rows))
    {
      ghost var found := FindByHash(sessions.tokens.rows, DigestOf(presented));
      sessions.Revoke(presented, now);
      if found.Some? {
        RevokingEndsTheSession(found.value.family, old(sessions.tokens.rows), old(sessions.issuer.rows));
      }
    }

    /** Logging everywhere out. */
    method RevokeAll(user: nat, now: Time)
      requires WellFormed(sessions.tokens.rows) && O.HashesUnique(sessions.issuer.rows)
      modifies sessions.tokens, sessions.issuer
      ensures SignedOutEverywhere(user, sessions.tokens.rows, sessions.issuer.rows)
      ensures OthersKeepTheirs(user, sessions.tokens.rows, sessions.issuer.rows, old(sessions.tokens.rows),
        old(sessions.issuer.rows))
    {
      sessions.RevokeAll(user, now);
      RevokingSignsOut(user, old(sessions.tokens.rows), old(sessions.issuer.rows));
    }

    /** Replaces the password and ends every session established with the old one; a refusal
        changes nothing at all. */
    method ChangePassword(user: nat, current: string, replacement: string, now: Time)
      returns (answer: Result<(), AppError>)
      requires WellFormed(sessions.tokens.rows) && O.HashesUnique(sessions.issuer.rows)
      modifies this`accounts, sessions.tokens, sessions.issuer
      ensures answer.Ok? <==> user in old(accounts) && verify(current, old(accounts)[user].user.passwordHash)
      ensures answer.Err? ==> accounts == old(accounts)
      ensures answer.Err? ==>
                sessions.tokens.rows == old(sessions.tokens.rows) && sessions.issuer.rows == old(sessions.issuer.rows)
      ensures answer.Ok? ==>
                && var account := old(accounts)[user];
                && accounts == old(accounts)[user := account.(user := account.user.(passwordHash := hash(replacement)))]
                && SignedOutEverywhere(user, sessions.tokens.rows, sessions.issuer.rows)
                && OthersKeepTheirs(user, sessions.tokens.rows, sessions.issuer.rows, old(sessions.tokens.rows),
                  old(sessions.issuer.rows))
    {
      if user !in accounts || !verify(current, accounts[user].user.passwordHash) {
        return Err(Unauthorized);
      }
      var account := accounts[user];
      accounts := accounts[user := account.(user := account.user.(passwordHash := hash(replacement)))];
      RevokeAll(user, now);
      return Ok(());
    }
  }

  ghost function AccessWithout(user: nat, access: O.Rows): O.Rows {
    map id | id in access && access[id].userId != user :: access[id]
  }

  lemma RevokingSignsOut(user: nat, tokens: Table, access: O.Rows)
    requires WellFormed(tokens) && O.HashesUnique(access)
    ensures SignedOutEverywhere(user, UserRevoked(tokens, user), AccessWithout(user, access))
    ensures OthersKeepTheirs(user, UserRevoked(tokens, user), AccessWithout(user, access), tokens, access)
  {
    forall secret, now |
        S.RedeemAnswer(tokens, secret, now).Ok? && S.RedeemAnswer(tokens, secret, now).value.userId != user
      ensures S.RedeemAnswer(UserRevoked(tokens, user), secret, now) == S.RedeemAnswer(tokens, secret, now)
    {
      var record := FindByHash(tokens, DigestOf(secret)).value;
      assert UserRevoked(tokens, user)[record.id] == record;
    }
    forall secret, now | O.Verdict(access, secret, now).Ok? && O.Verdict(access, secret, now).value.userId != user
      ensures O.Verdict(AccessWithout(user, access), secret, now) == O.Verdict(access, secret, now)
    {
      var id :| id in access && access[id].tokenHash == DigestOf(secret);
      assert id in AccessWithout(user, access);
    }
  }

  ghost function AccessOfOthers(family: nat, access: O.Rows): O.Rows {
    map id | id in access && access[id].session != family :: access[id]
  }

  lemma RevokingEndsTheSession(family: nat, tokens: Table, access: O.Rows)
    requires WellFormed(tokens) && O.HashesUnique(access)
    ensures SessionEnded(family, FamilyRevoked(tokens, family), AccessOfOthers(family, access), access)
    ensures OtherSessionsStand(family, FamilyRevoked(tokens, family), AccessOfOthers(family, access), tokens, access)
  {
    forall secret, now |
        S.RedeemAnswer(tokens, secret, now).Ok? && S.RedeemAnswer(tokens, secret, now).value.family != family
      ensures S.RedeemAnswer(FamilyRevoked(tokens, family), secret, now) == S.RedeemAnswer(tokens, secret, now)
    {
      var record := FindByHash(tokens, DigestOf(secret)).value;
      assert FamilyRevoked(tokens, family)[record.id] == record;
    }
    forall id, now | id in access && access[id].session != family
      ensures O.Verdict(AccessOfOthers(family, access), access[id].tokenHash.secret, now)
        == O.Verdict(access, access[id].tokenHash.secret, now)
    {
      assert DigestOf(access[id].tokenHash.secret) == access[id].tokenHash;
      assert id in AccessOfOthers(family, access);
    }
    forall id, now | id in access && access[id].session == family
      ensures O.Verdict(AccessOfOthers(family, access), access[id].tokenHash.secret, now).Err?
    {
      assert DigestOf(access[id].tokenHash.secret) == access[id].tokenHash;
    }
  }

  /** A refresh refused because the account is locked has still ended that session: the token is
      spent, so presenting it again revokes the family instead. */
  lemma LockedRefreshSpendsTheToken(tokens: Table, secret: nat, now: Time, later: Time)
    requires WellFormed(tokens) && S.RedeemAnswer(tokens, secret, now).Ok?
    ensures var spent := S.RedeemTable(tokens, secret, now);
      var family := S.RedeemAnswer(tokens, secret, now).value.family;
      && S.RedeemAnswer(spent, secret, later).Err?
      && S.RedeemTable(spent, secret, later) == FamilyRevoked(spent, family)
  {
    var spent := S.RedeemTable(tokens, secret, now);
    var record := FindByHash(tokens, DigestOf(secret)).value;
    assert spent[record.id].tokenHash == DigestOf(secret) && spent[record.id].usedAt.Some?;
  }
}
