# Bastion, verified

A Dafny model of Bastion's session machinery and of what surrounds it, with proofs about every
run rather than about single calls. `dafny verify dfyconfig.toml` checks the whole project.

**Refresh-token rotation.** `Rotation` is `SessionService` as a state machine in which every store
call is one atomic step and any number of requests run between two steps of another. History
(`log`, `spent`, `tip`) keeps what sweeping deletes. `RefreshTokens` is the table as an object,
`Sessions` the service as it runs alone, shown to be runs of the machine, and `Auth` the use cases
composed of it.

**The lease in front of it.** `Credential` is the client's row and its guarded updates, with no
timing hypothesis. `SingleFlight` composes any number of client processes, the row, a clock and the
rotation machine, and shows that clients that are timely and never forget a token that may be spent
never trigger the server's reuse branch; a concrete run shows of each hypothesis that it cannot go.

**Around it.** `Lockout` (a tight bound on password guesses, the exact overlap at which it holds, and a
bound beyond), `OpaqueTokens` (a verdict is a function of history), `Notes` (owners do not interfere,
paging is exact), `Backends` and `TokenBackends` (exactly when the four stores answer alike), `Paths`
(the path guard against RFC 3986), `KeyDecoder` (four base64 decoders against RFC 4648), `Throttle`
(the token bucket and the wait for it), `Migration` (the chunked copy), `Plugins` (the router stack
for arbitrary layers and filters) and `Cart` (carts and orders).

## Where the code differs from what is said of it

- "Revocation ends the session" holds exactly when no issue of that session is in flight
  (`Rotation.RevocationIsFinalUnlessInFlight`): a redemption between `mark_used` and `insert` adds an
  unrevoked row afterwards. The same run survives a password change.
- Replay is detected only while the spent row is stored (`Rotation.ReplayIsDetectedIffStored`).
- The catch-all release of the client, meant for failures that leave the token unspent, also covers a
  408, a 200 that does not decode and a commit that throws (`SingleFlight.ReleasedAfterRedeemIff`).
  Each leads to a replay, and so does a holder lost after it sent (`SingleFlight.AMisreportReplays`,
  `AFailedCommitReplays`, `ACrashReplays`).
- The lockout bound holds if and only if logins do not overlap (`Lockout.BoundHoldsIffNoOverlap`):
  failures are written as absolute counts, so already two at a time double it in every window, any
  number that read before one writes are all evaluated (`Lockout.OverlapExceedsTheBound`), and a late
  failure can clear a lock (`Lockout.AStaleWriteUnlocks`). With at most c logins under way there is a
  bound again, exponential in the threshold (`Lockout.OverlapBound`).
- `src/security/opaque.rs:114-115` says a role change takes effect on the next request. The row keeps
  the role given at issue, so a token's role is the current one exactly when the role has not changed
  since (`OpaqueTokens.VerdictRoleIsCurrentIff`).
- `src/migrate.rs:332` says `used_at` is carried across exactly. PostgreSQL keeps microseconds and the
  SQLite text nanoseconds, so rows are equal exactly when every instant is a whole microsecond
  (`Migration.CopyIsEqualIffWholeMicros`); what matters, that nothing spent or revoked comes back to
  life, holds always (`Migration.NothingComesBackToLife`). A source whose text holds a U+0000 is
  refused as a whole.
- The four stores do not take all the API accepts: MySQL refuses a body of more than 65,535 bytes
  (`Backends.ALongBodyPartsMySql`) and PostgreSQL a U+0000 (`Backends.ANulPartsPostgres`), and only
  MongoDB knows no foreign key. They answer alike exactly on what all of them take, each at its own
  grain (`Backends.BackendsAgreeIff`, `TokenBackends.TokenBackendsAgreeIff`), and to the last digit on
  whole milliseconds (`Backends.BackendsAgreeOnMillis`). Lists agree only while creation times do not
  tie (`Backends.SqlOrderIsPinnedIffDistinct`).
- The API's content security policy and no-store are on every answer of the API's handlers, but not on
  the server's own 408, 413, 503 and panic 500, nor on what an outer plugin takes them off
  (`Plugins.ApiPolicyIff`, `Plugins.PolicySurvivesIff`).

## How it is modelled

Digests are injective, sealing is invertible, and ids and secrets are naturals drawn fresh. The clock,
the drawn values, the password hasher and the answers of the network are parameters. Each module says
what its instants count. Tables are maps with their key constraints, and objects the program updates
in place are classes whose methods state the whole new state. Where requests interleave, the object
methods stay beside the machine and are tied to it by lemmas (`Sessions.RedeemIsARun`,
`SingleFlight.RotateIsARun`). Timeliness in `SingleFlight` means that at no moment of the run has the
lease of a process still at work expired. A local statement that throws has no effect. A layer of the
router knows what it wraps only by calling it, where that matters (`Plugins.PolicySurvivesIff`).

## Model

| member | source | states |
|---|---|---|
| Rotation.KeepsInv | src/service/session_service.rs:68-158 | every store call of every request (start, redeem, resume, revoke, revoke_all, a sweep, a failing call, a lost reply, a crash) keeps the invariant: rows agree with history, each token has one issuer and at most one winner, each family one chain end |
| Rotation.EveryRunKeepsInv | src/service/session_service.rs:68-158 | the invariant holds after any interleaving, of any length and any number of requests, at the grain of single store calls |
| Rotation.OneLiveTokenOrIssue | src/service/session_service.rs:94-103 | in every interleaving a family has at most one row that mark_used could win, at most one request on its way to inserting, and never both |
| Rotation.Conservation | src/service/session_service.rs:94-151 | in every interleaving: tokens inserted + issues in flight + issues abandoned = 1 + tokens marked used, for each started family |
| Rotation.ChainEndIsSingle | src/service/session_service.rs:94-151 | the unused token, the issue in flight and the abandoned issue of a family are together exactly one thing |
| Rotation.OneRedemptionOneSuccessor | src/repository/token_repository.rs:41-45 | each token is redeemed at most once and has at most one successor, inserted in its own family, and only after it was marked used |
| Rotation.RedeemableIff | src/service/session_service.rs:68-158 | over all continuations from any instant t under a clock that never goes back: a token of the family is redeemed in one of them if and only if an issue is in flight, or an unused unrevoked row has not expired at t, or a request that arrived before it expired pursues such a row |
| Rotation.AbandonedIssueEndsFamily | src/service/auth_service.rs:48-54 | a redemption that wins its token and then inserts nothing (account locked, failing call, lost reply) ends the session for good, at every instant |
| Rotation.RevocationRevokesAll | src/service/session_service.rs:113-130 | the store call of revoke and of revoke_all leaves every row of the family revoked |
| Rotation.RevocationIsFinalUnlessInFlight | src/service/session_service.rs:94-151 | from any instant on, a fully revoked family can be redeemed again exactly when an issue of it was in flight (and refresh tokens have a positive lifetime): that issue inserts a row the revocation never saw |
| Rotation.InFlightIssueCanBeRedeemed | src/service/session_service.rs:132-151 | the run that shows it: at any instant t the issue in flight inserts its token with its full lifetime and somebody redeems it, from any reachable state |
| Rotation.ARevokedSessionIsRedeemed | src/service/session_service.rs:94-151 | a concrete run from the empty state: log in, refresh as far as mark_used, revoke all of the user, and the refresh still inserts a token that is redeemed |
| Rotation.DeadForever | src/service/session_service.rs:82-97 | once a family is revoked with nothing in flight, no continuation of any interleaving redeems a token of it |
| Rotation.ReplayIsDetectedIffStored | src/service/session_service.rs:82-92 | presenting a spent token takes the reuse branch exactly while its row is stored; after a sweep it is an ordinary refusal |
| Rotation.ReplayKillsFamily | src/service/session_service.rs:82-92 | presenting a stored spent token, with nothing of the family in flight, leaves the family dead for ever |
| Rotation.FreshTokenIsRedeemed | src/service/session_service.rs:68-104 | a stored token usable at t, presented at t by a request that runs alone, is redeemed by it |
| Rotation.LostRaceRevokesNext | src/service/session_service.rs:94-98 | a request that meets a used or revoked row in mark_used changes no row; its only possible next call is to revoke the family, and then it is refused |
| Rotation.LostRaceEndsFamily | src/service/session_service.rs:94-98 | whenever that call comes, whatever ran in between, it leaves every row of the family revoked, and the family dead unless an issue of it is in flight |
| Rotation.ALostRaceIsTreatedAsReuse | src/service/session_service.rs:94-98 | both calls in a row, from any reachable state in which the race is lost |
| Sessions.SessionService.Redeem | src/service/session_service.rs:68-104 | redeem on the store object: which answer, and the whole new table, in each of its branches |
| Sessions.SessionService.Spend | src/service/session_service.rs:94-103 | the half after the lookup, on whatever table it meets: a lost race revokes the family |
| Sessions.SessionService.Issue | src/service/session_service.rs:132-151 | inserts exactly one refresh row, with the family and user given and the configured lifetime, and one access token for the same session; digests stay unique |
| Sessions.SessionService.Revoke | src/service/session_service.rs:113-123 | revokes the family of the presented token and deletes its stored access tokens; an unknown token changes nothing |
| Sessions.SessionService.RevokeAll | src/service/session_service.rs:126-130 | revokes exactly the user's refresh rows and deletes exactly the user's access tokens |
| Sessions.SessionService.RotateThenReplay | src/service/auth_service.rs:178-190 | after a rotation and a replay, on any table, the replay is refused and every row of the family is revoked |
| Sessions.RedeemIsARun | src/service/session_service.rs:68-104 | redeem run alone is a run of the interleaving machine: same table, and a permit to issue exactly when it answers Ok |
| Sessions.LogoutIsARun | src/service/session_service.rs:113-123 | logout run alone is a run of the machine that leaves the family dead unless an issue of it is in flight |
| Sessions.RedeemCases | src/service/session_service.rs:68-104 | one presentation column by column: accepted exactly while unused, unrevoked and unexpired; only a spent token has its family revoked, an expired or unknown one costs nothing; no other column of any row changes |
| Sessions.SpendIsARun | src/service/session_service.rs:94-103 | the half after the lookup is a run of Mark, and of RevokeFamily when the race is lost: the same table, and a permit to issue exactly when it answers Ok |
| Sessions.EveryStepIsOneCall | src/repository/token_repository.rs:50-68 | every step of the machine changes the rows as one method of the store object promises, or not at all |
| Sessions.LogInIsARun | src/service/session_service.rs:57-60 | Start and then Insert: the new family's first row is the user's, unused, unrevoked and good until it expires |
| RefreshTokens.FindByHash | src/repository/token_repository.rs:46-47 | finds a row with exactly this digest, or there is none |
| RefreshTokens.TokenStore.Insert | src/service/fakes.rs:251-266 | files the row unused and unrevoked under its id |
| RefreshTokens.TokenStore.Lookup | src/service/fakes.rs:268-276 | the scan finds the row whose digest matches exactly |
| RefreshTokens.TokenStore.MarkUsed | src/service/fakes.rs:278-287 | true exactly for a stored, unused, unrevoked row, which is then used; otherwise nothing changes |
| RefreshTokens.TokenStore.RevokeFamily | src/service/fakes.rs:289-295 | the loop sets revoked on exactly the rows of the family |
| RefreshTokens.TokenStore.RevokeAllForUser | src/service/fakes.rs:297-303 | the loop sets revoked on exactly the rows of the user |
| RefreshTokens.TokenStore.DeleteExpired | src/service/fakes.rs:308-313 | drops exactly the expired rows and answers how many |
| RefreshTokens.SweepTakesOnlyExpired | src/service/fakes.rs:308-313 | a sweep leaves no expired row and takes none that could still be used |
| SingleFlight.ClientsNeverReplay | examples/nextjs-blog/src/lib/session.ts:236-303 | client and server composed, any number of processes on one session row: if no lease expires under a holder at work and no step forgets that a token may be spent (a misreported answer, a commit that throws, a holder lost after it sent), no refresh token of the session is presented to redeem twice and redeem never finds one spent; a holder lost before it sent does no harm |
| SingleFlight.KeepsInv | examples/nextjs-blog/src/lib/session.ts:196-333 | every step but those three of every process, of the server, of other users, a crash before sending, a sign-out or the clock keeps the invariant: one holder, and the stored token unpresented unless its holder awaits an answer |
| SingleFlight.TimelyRunKeepsInv | examples/nextjs-blog/src/lib/session.ts:196-333 | the invariant at every moment of every timely run without such a step |
| SingleFlight.SwapKeepsInv | examples/nextjs-blog/src/lib/session.ts:236-250 | the compare-and-swap cannot succeed while a timely holder is at work |
| SingleFlight.CrashKeepsInv | examples/nextjs-blog/src/lib/session.ts:236-256 | a holder lost before it sent, or after a refusal that left the token unspent, keeps the invariant |
| SingleFlight.NoReuseFromInv | src/service/session_service.rs:82-97 | under the invariant no step sends a token twice or meets a spent one in the lookup or in mark_used |
| SingleFlight.AnOverrunReplays | examples/nextjs-blog/src/lib/session.ts:236-250 | timeliness is needed: a run with no other fault in which a holder outlives its lease and the same token is sent twice |
| SingleFlight.AMisreportReplays | examples/nextjs-blog/src/lib/session.ts:277-302 | truthful answers are needed: a timely run whose only fault is a 408 or an undecodable 200 that the catch-all release follows, and redeem sees reuse |
| SingleFlight.AFailedCommitReplays | examples/nextjs-blog/src/lib/session.ts:249-302 | a commit that does not throw is needed: a timely run whose only fault is that the pair arrives and the UPDATE (or reading its claims, or sealing) throws, so the catch-all unlocks the row with the spent token in it |
| SingleFlight.ACrashReplays | examples/nextjs-blog/src/lib/session.ts:285-298 | so is a holder that survives its answer: a timely run whose only fault is a holder lost after it sent, or whose status update throws |
| SingleFlight.ReleasedAfterRedeemIff | examples/nextjs-blog/src/lib/bastion.ts:55-99 | over every reply and every outcome of the local statements: after a token reached redeem its row is unlocked with that token in it exactly on a 408, on a 200 that does not decode, or on a good 200 whose pair is not stored; it stays locked exactly when the settling statement throws |
| SingleFlight.RowAfterReply | examples/nextjs-blog/src/lib/session.ts:249-302 | over every reply, whether or not it reached redeem, and every outcome of the local statements: the row ends Revoked if and only if the status is 401 and the statement settles, Poisoned if and only if there is no reply or a server error and it settles; a stored pair moves on one generation; every other reply leaves it active and unlocked with its token |
| SingleFlight.ARateLimitCostsNothing | examples/nextjs-blog/src/lib/bastion.ts:81-85 | a 429, with whatever body, leaves the row as it was before the lease |
| SingleFlight.Client.AccessTokenFor | examples/nextjs-blog/src/lib/session.ts:217-227 | what one process returns and what it leaves in the row: no session, a fresh enough token, a live lease, or a rotation |
| SingleFlight.Client.Rotate | examples/nextjs-blog/src/lib/session.ts:236-303 | the row and the outcome after the lease is won, for each way the call can end and the local statements can go; a lost lease changes nothing |
| SingleFlight.RotateIsARun | examples/nextjs-blog/src/lib/session.ts:236-303 | that method is what the machine does when the other processes stand still, whatever happened at the server |
| SingleFlight.AccessTokenForIsARun | examples/nextjs-blog/src/lib/session.ts:217-227 | the first read of that method is the read of the machine: the same ends, the same generation observed |
| SingleFlight.PollIsAPass | examples/nextjs/src/lib/bastion/tokens.ts:136-155 | a poll of the machine is a pass of the waiting loop: it ends exactly on a decisive read, with what that read determines |
| Credential.CredentialStore.AcquireLease | examples/nextjs/src/lib/bastion/store.ts:110-128 | wins exactly at the observed generation, active and without a live lease, and then only sets the lease |
| Credential.CredentialStore.CommitRotation | examples/nextjs/src/lib/bastion/store.ts:134-156 | guarded by the generation: stores the pair, moves on one generation and unlocks, or changes nothing |
| Credential.CredentialStore.ReleaseLease | examples/nextjs/src/lib/bastion/store.ts:163-167 | only unlocks, whoever holds the lease |
| Credential.CredentialStore.MarkStatus | examples/nextjs/src/lib/bastion/store.ts:176-180 | sets the status and unlocks, whoever holds the lease |
| Credential.CredentialStore.Upsert | examples/nextjs/src/lib/bastion/store.ts:57-91 | replaces the pair and moves on one generation, or starts at zero |
| Credential.CredentialStore.DeleteRow | examples/nextjs/src/lib/bastion/store.ts:182-184 | removes the row |
| Credential.GenerationNeverDecreases | examples/nextjs/src/lib/bastion/store.ts:110-156 | over any sequence of statements in one lifetime of the row, with no timing hypothesis |
| Credential.OneRotationPerGeneration | examples/nextjs/src/lib/bastion/store.ts:134-156 | at most one rotation commits per generation, even when holders overrun |
| Credential.CommitTakesEffectIffNothingStored | examples/nextjs/src/lib/bastion/store.ts:134-156 | a commit takes effect if and only if nothing was stored since its holder observed the row; otherwise it changes nothing |
| Credential.GenerationCountsStores | examples/nextjs/src/lib/bastion/store.ts:57-156 | the generation stands still exactly while nothing is stored |
| Credential.WaiterReturnsALaterToken | examples/nextjs/src/lib/bastion/tokens.ts:136-155 | what a waiter hands out is the access token of a statement that stored it after the observation, at a strictly higher generation |
| Credential.AwaitWinner | examples/nextjs/src/lib/bastion/tokens.ts:136-155 | the polling loop ends within ceil(lease / 50) passes with the verdict of the first decisive read, or times out having seen none |
| Credential.ReadsBack | examples/nextjs/src/lib/bastion/store.ts:57-184 | what a later read finds after each statement: no row after a delete, an active unlocked row with the new pair after an upsert, the new pair after a commit; a lease, a release and a status leave pair and generation |
| Credential.DeletedStaysGone | examples/nextjs/src/lib/bastion/store.ts:182-184 | a deleted row is gone until the next upsert, whatever else is done to it |
| Credential.StoredPairStands | examples/nextjs/src/lib/bastion/store.ts:57-156 | over any sequence of statements the pair stored last is the pair a read finds |
| Credential.VerdictMeans | examples/nextjs/src/lib/bastion/tokens.ts:136-155 | what each decisive read means to the waiter: removed, no longer active, or the token stored |
| Auth.AuthService.Refresh | src/service/auth_service.rs:48-54 | spend, then look at the account, then issue: both tables and the answer; a locked account is refused and its token is spent |
| Auth.LockedRefreshSpendsTheToken | src/service/auth_service.rs:46-54 | presenting that token again revokes the family |
| Auth.AuthService.ChangePassword | src/service/auth_service.rs:64-72 | succeeds exactly with the current password; then no refresh or stored access token of the user works at any later time and everybody else keeps theirs; a refusal changes nothing |
| Auth.AuthService.RevokeAll | src/service/session_service.rs:126-130 | nobody can act as the user with any token issued so far; every other session works as before |
| Auth.AuthService.Logout | src/service/session_service.rs:113-123 | no refresh token of the family and no access token stored for that session works at any later time, and every other session keeps every answer; an unknown token changes nothing |
| Auth.RevokingEndsTheSession | src/service/session_service.rs:113-123 | the revocation and the deletion achieve that on any two tables |
| Auth.RevokingSignsOut | src/service/session_service.rs:126-130 | the two deletions achieve that on any two tables |
| Lockout.AccountService.Authenticate | src/service/account_service.rs:93-126 | answer and whole new user table: unknown address, locked, wrong and right password |
| Lockout.AccountService.RecordFailure | src/service/account_service.rs:198-213 | writes the absolute count and the lock computed from the record as it was read |
| Lockout.GuessBound | src/service/account_service.rs:93-126 | with no success and lockout L > 0, the wrong passwords evaluated in any closed window of length T number at most max(1, max_login_attempts) + floor(T / L) |
| Lockout.BoundIsReached | src/service/account_service.rs:198-213 | for every policy and window a run makes exactly that many guesses, so no smaller bound holds |
| Lockout.GuessBoundAtGrain | src/repository/mongo.rs:347-361 | the slack of a store that cuts the end of a lock down to its grain, as MongoDB does: with a lockout of whole grains the bound is that of the window widened to whole grains |
| Lockout.LockAdvances | src/service/account_service.rs:198-213 | each guess beyond the free ones pushes the lock a full lockout further |
| Lockout.FailuresAccumulate | src/service/account_service.rs:198-213 | without a success the stored count is at least the guesses made |
| Lockout.SuccessClears | src/service/account_service.rs:121-123 | over any run: the right password on an open account leaves no failure and no lock on record, and the hash as it was |
| Lockout.CountIsSinceLastSuccess | src/service/account_service.rs:93-126 | over any run with successes in it: the stored count is the number of wrong passwords evaluated since the last one |
| Lockout.ThresholdCountsFromSuccess | src/service/account_service.rs:198-213 | so after a success max_login_attempts - 1 further wrong passwords lock nothing, and the next one locks for the full lockout |
| Lockout.LockedAttemptsChangeNothing | src/domain/user.rs:62-64 | an attempt that meets a lock leaves the record unchanged, right or wrong |
| Lockout.OverlapBound | src/service/account_service.rs:93-126 | logins that read the clock, then the record, and later write, at most c of them under way at once: any closed window of length T sees at most (floor(T / L) + 1)((c + 1)(c + c^2 + ... + c^max(1, max_login_attempts)) + c) wrong passwords, whatever was under way before |
| Lockout.OverlapBoundFresh | src/service/account_service.rs:93-126 | in a window shorter than L that opens with none under way: at most c + c^2 + ... + c^max(1, max_login_attempts) |
| Lockout.BoundHoldsIffNoOverlap | src/service/account_service.rs:93-126 | the exact overlap: in windows of any length, opened on a clean record with none under way, all runs with at most c logins under way keep to max(1, max_login_attempts) + floor(T / L) if and only if c is at most one |
| Lockout.SerialIsReplay | src/service/account_service.rs:93-126 | logins that never overlap are atomic attempts, one after the other |
| Lockout.TwoAtATimeDouble | src/service/account_service.rs:199-211 | with two under way every window admits twice the guesses of the bound |
| Lockout.OverlapExceedsTheBound | src/service/account_service.rs:199-211 | with no limit on c there is no bound: any number of logins that read an open account before any writes all evaluate their password, in no time |
| Lockout.AStaleWriteUnlocks | src/service/account_service.rs:199-211 | a run in which a late failure clears an active lock and leaves one failure on record |
| Lockout.StaleWriteUnlocksIff | src/service/account_service.rs:199-211 | a failure opens a locked account if and only if the count it read was below the threshold, or its own lock has run out |
| Lockout.StaleWriteIsAtomicIff | src/service/account_service.rs:199-211 | a late failure on an open account counts as an atomic one would if and only if the stored count is still the one it read |
| Lockout.ConcurrentGuessesCountOnce | src/service/account_service.rs:199-211 | logins that read before any writes count together as one failure |
| OpaqueTokens.VerdictIsHistory | src/security/opaque.rs:94-122 | verify succeeds if and only if the token was issued, has not expired and no revocation of its session or user came after its issue; it gives the user and role of the issue |
| OpaqueTokens.SweepsAreInvisible | src/service/token_janitor.rs:27-34 | removing every sweep from a run changes no verdict on any token at any later time |
| OpaqueTokens.VerdictRoleIsCurrentIff | src/security/opaque.rs:114-121 | the role a token verifies with is the account's current one if and only if the role has not been changed, to another one, since the issue |
| OpaqueTokens.StoredRowsStand | src/security/opaque.rs:70-92 | whatever is stored was issued and not revoked since |
| OpaqueTokens.StandingRowsAreStored | src/security/opaque.rs:70-92 | whatever was issued and not revoked is stored, or has expired |
| OpaqueTokens.OpaqueCodec.Issue | src/security/opaque.rs:70-92 | stores the digest with user, session, role and expiry, and hands out the secret |
| OpaqueTokens.OpaqueCodec.Verify | src/security/opaque.rs:94-122 | the verdict of the stored rows |
| OpaqueTokens.OpaqueCodec.RevokeSession | src/security/opaque.rs:124-127 | deletes exactly the rows of the session |
| OpaqueTokens.OpaqueCodec.RevokeAllForUser | src/security/opaque.rs:129-132 | deletes exactly the rows of the user |
| OpaqueTokens.OpaqueCodec.DeleteExpired | src/repository/sqlite.rs:368-374 | deletes exactly the expired rows and answers how many |
| OpaqueTokens.PurgeExpired | src/service/token_janitor.rs:27-34 | sweeps both tables at one instant and answers the sum |
| OpaqueTokens.SweepTakesOnlyExpired | src/repository/sqlite.rs:368-374 | after a sweep no stored row has expired, and none that had not was taken |
| OpaqueTokens.RolesRoundTrip | src/domain/user.rs:14-39 | roles are read as they are written, and nothing else is a role |
| Paths.AcceptedPathsAreUnambiguous | src/plugin/builtin/guards.rs:75-108 | for every path that passes the guard and the canonicaliser: decoding commutes with splitting on "/", no decoded segment is a dot segment, no decoded backslash, remove_dot_segments changes nothing, canonicalising again changes nothing |
| Paths.DecodeCommutesWithSplit | src/plugin/builtin/guards.rs:151-163 | without an encoded separator, percent-decoding (RFC 3986, section 2.1) before or after splitting gives the same segments |
| Paths.DotsDecodeFromDots | src/plugin/builtin/guards.rs:97-108 | a segment decodes to "." or ".." only if it is one |
| Paths.NoBackslashDecoded | src/plugin/builtin/guards.rs:89-96 | no backslash before decoding and none encoded: none after |
| Paths.NothingToRemove | src/plugin/builtin/guards.rs:97-108 | remove_dot_segments (RFC 3986, section 5.2.4) is the identity on paths without dot segments |
| Paths.CanonicalStaysAccepted | src/api/path.rs:70-107 | the canonical path still passes the guard, and canonicalising is idempotent |
| Paths.Check | src/plugin/builtin/guards.rs:75-143 | the guard answers with the first rule broken, in its order, or accepts exactly when none is |
| Paths.CheckPairs | src/plugin/builtin/guards.rs:123-140 | the query loop: a key repeated among the parameters it sees, or too many parameters |
| Paths.ContainsEncodedSeparator | src/plugin/builtin/guards.rs:151-163 | finds %2e, %2f or %5c in either case, wherever it stands |
| Paths.AnyControl | src/plugin/builtin/guards.rs:146-148 | finds an octet below 0x20 or 0x7F |
| Paths.Request.Canonicalise | src/api/path.rs:70-107 | refuses "//", otherwise overwrites the path with its canonical form and leaves the query |
| Paths.DuplicatesAreRefused | src/plugin/builtin/guards.rs:123-140 | of parameters joined by "&" the guard sees those; two with the same text before "=" have the query refused unless that is allowed |
| Paths.KeyMeans | src/plugin/builtin/guards.rs:131 | the key of a parameter is the text before its first "=", or all of it |
| Paths.EncodedSeparatorMeans | src/plugin/builtin/guards.rs:151-163 | the triplets refused are exactly those that decode to ".", "/" or a backslash |
| Paths.DecodeInvertsEscape | src/plugin/builtin/guards.rs:92-96 | the decoder the guard is measured against undoes every percent-encoding that encodes "%" itself, in either case |
| Paths.DotSegmentsGo | src/plugin/builtin/guards.rs:97-108 | resolving dot segments (RFC 3986, section 5.2.4) leaves none and changes a path if and only if it has one, which is when the guard refuses it |
| Paths.DotsTakeASegment | src/plugin/builtin/guards.rs:97-108 | ".." takes the segment before it away and "." nothing |
| Paths.CanonicalMeans | src/api/path.rs:90-107 | "/" stays "/", a path that does not end in "/" stays as it is, and of any other the one "/" goes |
| Paths.EmptySegmentMeans | src/api/path.rs:70-78 | a path is refused if and only if a piece between two "/" is empty |
| KeyDecoder.KeyAcceptedIffEncoding | src/config.rs:559-597 | a key is accepted if and only if the text is one of its four encodings and its length is the expected one |
| KeyDecoder.KeyRefusals | src/config.rs:579-594 | "must be base64" exactly when the text encodes nothing; the length error carries the decoded length |
| KeyDecoder.DecodeInvertsEncode | src/config.rs:570-575 | each of the four strict decoders (RFC 4648, sections 3.2, 3.5, 4 and 5) inverts its encoding on every byte string |
| KeyDecoder.OnlyEncodingsDecode | src/config.rs:570-575 | whatever a decoder accepts is the encoding of its result |
| KeyDecoder.DecodersAgree | src/config.rs:570-578 | two decoders that both accept a text agree, so the order in which they are tried does not matter |
| KeyDecoder.FirstDecodedIff | src/config.rs:570-578 | the four decoders tried in order give the key if and only if the text is one of its four encodings |
| KeyDecoder.FirstDecodedIsAny | src/config.rs:570-578 | the first decoder to match gives what any matching one gives |
| KeyDecoder.AlphabetsAsWritten | src/config.rs:567-575 | the two alphabets written out (RFC 4648, tables 1 and 2), and each character read as its place |
| KeyDecoder.EveryGroup | src/config.rs:570-575 | every group of sextets is the same number as the octets it stands for, first bit first, filled up with zero bits at the end (RFC 4648, section 4) |
| KeyDecoder.PaddedInFours | src/config.rs:570-575 | a padded text comes in fours of characters, an unpadded one has ceil(4n / 3) |
| KeyDecoder.Vectors | src/config.rs:570-575 | test vectors of RFC 4648, section 10 |
| Throttle.BucketBound | examples/nextjs/src/lib/bastion/throttle.ts:24-43 | for any nondecreasing clock and interleaving of callers, takes granted in a window of T seconds are at most capacity + rate x T |
| Throttle.NothingFromNothing | examples/nextjs/src/lib/bastion/throttle.ts:24-43 | tokens held plus tokens granted never exceed what was held plus what time brought in |
| Throttle.LevelInRange | examples/nextjs/src/lib/bastion/throttle.ts:24-29 | the level stays in [0, capacity] over any run |
| Throttle.SleepIsEnough | examples/nextjs/src/lib/bastion/throttle.ts:39-41 | after the computed sleep, or any longer one, the next pass grants |
| Throttle.FailsAgainOnlyIfTaken | examples/nextjs/src/lib/bastion/throttle.ts:32-43 | a caller that slept as computed fails again only if somebody else was granted a token meanwhile |
| Throttle.WaitBound | examples/nextjs/src/lib/bastion/http.ts:57-68 | a caller, while whose passes the others are granted at most n tokens, has its own within (n + 1)(ceil(1000 / rate) + lateness) milliseconds; a lease that leaves that and the request timeout outlasts the refresh |
| Throttle.TokenBucket.Take | examples/nextjs/src/lib/bastion/throttle.ts:32-43 | a lone caller needs at most two passes, and the level it leaves |
| Throttle.TokenBucket.Refill | examples/nextjs/src/lib/bastion/throttle.ts:24-29 | the new level and instant |
| Throttle.SleepIsLeast | examples/nextjs/src/lib/bastion/throttle.ts:39-41 | no shorter sleep, in whole milliseconds, would do |
| Throttle.AGrantCostsOne | examples/nextjs/src/lib/bastion/throttle.ts:32-43 | a pass grants exactly when the refilled level holds a token, and then takes exactly one; otherwise it takes nothing |
| Throttle.Burst | examples/nextjs/src/lib/bastion/throttle.ts:32-43 | n passes at one instant over a level of at least n all grant, and leave it n lower |
| Throttle.NothingIsLost | examples/nextjs/src/lib/bastion/throttle.ts:24-43 | over any run in which no refill meets the cap, tokens held plus tokens granted are exactly what was held plus what time brought in |
| Notes.OwnersDoNotInterfere | src/service/note_service.rs:35-95 | delete every other owner's operations from a run and what is left is a run with the very same answers, on the owner's own rows |
| Notes.OwnOpSeesOwnRows | src/repository/sqlite.rs:142-228 | an operation answers and acts the same on the owner's rows alone |
| Notes.PagingLosesAndRepeatsNothing | src/service/note_service.rs:54-72 | pages at offsets 0, L, 2L, ... for the clamped limit hold every owned note exactly once, newest first, and their lengths sum to the total |
| Notes.PagesArePrefix | src/service/note_service.rs:54-72 | the first n pages, concatenated, are a prefix of the listing |
| Notes.ListingIsUnique | src/repository/mongo.rs:421-442 | the total order leaves one listing only |
| Notes.ListingIsPermutation | src/repository/mongo.rs:421-453 | a listing has as many entries as the count and is newest first |
| Notes.Listing | src/repository/mongo.rs:421-442 | builds the listing: every owned note once, newest first, ties by id |
| Notes.ClampLimit | src/service/note_service.rs:60-61 | 20 when none is asked for, what is asked for between 1 and 100, else the nearer end |
| Notes.ClampOffset | src/service/note_service.rs:61 | the offset asked for when it is positive, otherwise 0 |
| Notes.WritesReadBack | src/repository/sqlite.rs:142-228 | what a later read finds: an insertion as given, an update with title, body and last change replaced, a deleted note gone, and every other note, and everybody else, as before |
| Notes.NoteService.Create | src/service/note_service.rs:35-45 | stores one note under a fresh id, or changes nothing |
| Notes.NoteService.Get | src/service/note_service.rs:47-52 | the note if the owner owns it, otherwise NotFound, as for a note that does not exist |
| Notes.NoteService.List | src/service/note_service.rs:54-72 | the window of the listing at the clamped limit and offset, with the total |
| Notes.NoteService.Pages | src/service/note_service.rs:54-72 | a caller that asks for page after page until it has passed the total holds every note it owns exactly once, newest first |
| Notes.NoteService.Update | src/service/note_service.rs:74-85 | changes title, body and updated_at of an owned note and nothing else |
| Notes.NoteService.Delete | src/service/note_service.rs:89-95 | removes an owned note and nothing else |
| Backends.BackendsAgree | src/repository/mongo.rs:394-489 | the half that runs of steps every store takes give answers alike and leave the four stores holding the same |
| Backends.BackendsAgreeIff | src/repository/mongo.rs:394-489 | over any run of the four stores, on any clock, from states that hold the same: the four answer alike throughout, each at its own grain (nanoseconds, microseconds, milliseconds), if and only if no title or body holds a U+0000, none that a row is given has more than 65,535 bytes, and the owner of each new note exists; lists need a page of at least one and no two notes created in one millisecond |
| Backends.AnswerAlikeIff | src/repository/mysql.rs:172-292 | the same of a single operation, re-saving identical content included |
| Backends.ALongBodyPartsMySql | src/repository/mysql.rs:172-202 | a body of 16,384 four-byte characters, which the API accepts: MySQL refuses it, SQLite and PostgreSQL store it |
| Backends.ANulPartsPostgres | src/repository/postgres.rs:149-166 | a U+0000 in a title, which the API accepts: PostgreSQL refuses it, SQLite and MySQL store it |
| Backends.MongoStoresAnyText | src/repository/mongo.rs:394-408 | MongoDB stores any text |
| Backends.ShortTextsFit | src/api/dto.rs:88-94 | a title the API accepts always fits, and so does a body of at most 16,383 characters |
| Backends.Utf8OfWidth | migrations/mysql/0001_init.sql:57-58 | the bytes the columns count: one a character for ASCII texts, two beyond U+007F, three beyond U+07FF, four beyond U+FFFF |
| Backends.Utf8Adds | migrations/mysql/0001_init.sql:57-58 | and they add up over any text |
| Backends.BackendsAgreeOnMillis | src/repository/mongo.rs:394-489 | under a whole-millisecond clock and on steps every store takes, all four give the same answers to the last digit and hold the same notes |
| Backends.MySqlMeetsContract | src/repository/mysql.rs:172-292 | where the columns can hold the texts, a step of MySQL, by UPDATE and SELECT and by rows affected, is exactly a step of the contract at the microsecond |
| Backends.MongoMeetsContract | src/repository/mongo.rs:394-489 | a step of MongoDB on documents is a step of the contract at the millisecond, of the notes they stand for, where no foreign key would refuse it |
| Backends.CutSimulates | src/repository/sqlite.rs:142-228 | a step of the contract at a coarser grain simulates the step at full precision: same rows and answer, cut down |
| TokenBackends.MySqlTokensMeetContract | src/repository/mysql.rs:307-378 | a step of MySQL, judged by changed rows, is exactly a step of the contract at the microsecond |
| TokenBackends.MongoTokensMeetContract | src/repository/mongo.rs:506-582 | a step of MongoDB on documents is a step of the contract at the millisecond, of the rows they stand for |
| TokenBackends.TokenBackendsAgreeIff | src/repository/mongo.rs:506-582 | over any run of the four stores, on any clock: they answer alike throughout, each at its own grain, mark_used by changed rows and by filter included, if and only if every new token's user exists and no sweep falls into the millisecond in which a stored token expired |
| TokenBackends.TokensAnswerAlikeIff | src/repository/mongo.rs:506-582 | the same of a single operation |
| TokenBackends.CutTokenSimulates | src/repository/sqlite.rs:243-308 | the contract at a coarser grain simulates the contract at full precision |
| TokenBackends.SweepsAgreeIff | src/repository/mongo.rs:573-582 | a coarser sweep deletes the same tokens, and as many, if and only if none has expired within the running grain |
| TokenBackends.UsableAtGrainIff | src/repository/token_repository.rs:24-26 | a coarser store accepts a token exactly when it would be at full precision and its last grain has not begun |
| Backends.SortIsListing | src/repository/mongo.rs:429-439 | the sort on documents is the total order on the notes they stand for |
| TokenBackends.MarkedAtMostOnce | src/repository/token_repository.rs:41-45 | mark_used answers true at most once for a token, whatever runs in between, sweeps included |
| Backends.SqlOrderIsPinnedIffDistinct | src/repository/sqlite.rs:171-189 | ORDER BY created_at DESC fixes one answer if and only if no two of the owner's notes share a creation time |
| Backends.WindowsAgreeIff | src/repository/mongo.rs:429-439 | limit zero means none to MongoDB: the windows agree exactly at a positive limit or past the end |
| Backends.CountMisjudgesIffIdentical | src/repository/mysql.rs:247-283 | judging an update by changed rows would be wrong exactly when it re-saves what is already there |
| Backends.PostgresNotes.Insert | src/repository/postgres.rs:149-166 | its step: RETURNING at the microsecond, or a duplicate id, an unknown owner or a U+0000 |
| Backends.PostgresNotes.UpdateOwned | src/repository/postgres.rs:206-227 | its step: RETURNING at the microsecond, or a U+0000 refused |
| Backends.MySqlNotes.UpdateOwned | src/repository/mysql.rs:247-283 | its step: write, then read under the same WHERE, identical content included; refused if a matching row cannot hold a text |
| Backends.MySqlNotes.Insert | src/repository/mysql.rs:172-202 | its step: stored at the microsecond, or a duplicate id, an unknown owner or a text too long |
| Backends.MySqlNotes.DeleteOwned | src/repository/mysql.rs:285-292 | its step, by rows affected |
| TokenBackends.MySqlTokens.MarkUsed | src/repository/mysql.rs:333-348 | judged by changed rows, and still true exactly for an unused unrevoked row |
| Backends.MongoNotes.Insert | src/repository/mongo.rs:394-408 | its step on documents, which is the contract at the truncated instant |
| Backends.MongoNotes.UpdateOwned | src/repository/mongo.rs:455-480 | one filter-and-set on documents, which is the contract at the truncated instant |
| Backends.MongoNotes.DeleteOwned | src/repository/mongo.rs:482-489 | its step on documents, which is the contract |
| Backends.MongoNotes.FindOwned | src/repository/mongo.rs:410-419 | its step on documents |
| Backends.MongoNotes.ListOwned | src/repository/mongo.rs:421-442 | the sorted documents, skipped and limited, where limit zero means none |
| Backends.MongoNotes.CountOwned | src/repository/mongo.rs:444-453 | its step on documents |
| TokenBackends.MongoTokens.Insert | src/repository/mongo.rs:506-521 | the document, with its expiry truncated, or a duplicate of an id or digest refused |
| TokenBackends.MongoTokens.MarkUsed | src/repository/mongo.rs:532-548 | true exactly for an unused unrevoked document, which is then used |
| TokenBackends.MongoTokens.RevokeFamily | src/repository/mongo.rs:550-559 | revokes exactly the family |
| TokenBackends.MongoTokens.RevokeAllForUser | src/repository/mongo.rs:561-571 | revokes exactly the user's tokens |
| TokenBackends.MongoTokens.DeleteExpired | src/repository/mongo.rs:573-582 | sweeps on millisecond dates and answers how many it deleted |
| Migration.MigrationIsExact | src/migrate.rs:194-261 | for every source, target and pattern of failures, dry or real: Ok only from an empty target and a source that meets its keys, and then the source is reported, and exactly its rows are committed or, on a dry run, none; the counts read back never disagree; without outside failures either succeeds if and only if the target is empty, the source meets its keys and checks, and no text holds a U+0000 |
| Migration.DryRunAnswersAlike | src/migrate.rs:194-217 | for every source, target and pattern of failures a dry run answers what the real run would, its rollback failing where the commit would, and leaves the target as it was |
| Migration.SoundMeans | migrations/postgres/0001_init.sql:1-46 | the condition read off the columns: within each table no two rows share an id, no two users an email, no two tokens of a kind a digest; notes and tokens have their user; roles are roles; no text holds a U+0000 |
| Migration.AllOrNothing | src/migrate.rs:194-217 | unless a real run succeeds, the target is exactly as it was: a failing batch, a non-empty target, a dry run |
| Migration.CopyIsOneInsert | src/migrate.rs:263-409 | copying table by table and chunk by chunk is one INSERT of all the rows |
| Migration.InsertsIffConsistent | src/migrate.rs:194-217 | rows go in if and only if keys, foreign keys, checks and what TEXT can hold are met by them in their order: users first is what makes the foreign keys hold |
| Migration.InsertAllStores | src/migrate.rs:263-409 | after it the target holds every row under its key with every column, and nothing else new |
| Migration.CopyIsEqualIffWholeMicros | src/migrate.rs:332-372 | the committed rows equal the source rows if and only if every instant is a whole microsecond |
| Migration.NothingComesBackToLife | src/migrate.rs:332-372 | a spent or revoked refresh token arrives spent or revoked, and one the copy would accept was acceptable in the source |
| Migration.BindsCarryEveryColumn | src/migrate.rs:263-409 | the bound values of a row carry every column, at most eight of them |
| Migration.Database.Execute | src/migrate.rs:275-296 | one statement inserts a batch or nothing, and binds at most 65535 parameters |
| Migration.Database.CopyTable | src/migrate.rs:263-409 | the chunk loop, and that no statement of it binds more than 65535 parameters |
| Migration.Database.Copy | src/migrate.rs:194-261 | the whole run: answer, committed rows and the widest statement |
| Migration.EmptyIffNothingCounted | src/migrate.rs:224-239 | four zero counts mean an empty target |
| Plugins.EveryAnswerIsHardened | src/server.rs:71-79 | every answer that leaves the server carries the seven headers, for arbitrary layers, filters and handlers, panics included; there is an answer unless a filter itself panics |
| Plugins.RouterAlwaysAnswersHardened | src/api/mod.rs:117-187 | the router alone answers every request with the seven headers |
| Plugins.ReachesRoutingIff | src/plugin/mod.rs:546-567 | a request reaches routing exactly when every filter accepts it and its path has no "//"; otherwise no router has any say in the answer |
| Plugins.AFilterOnlyShrinks | src/plugin/mod.rs:546-567 | one more filter, wherever registered, only takes requests away and changes no other answer |
| Plugins.AFilterIsHeardFirst | src/plugin/mod.rs:554-559 | the response of the first filter that refuses leaves, hardened, and no later filter, router or handler has a say in it |
| Plugins.AnOuterLayerIsHeard | src/api/mod.rs:175-184 | of the outer layers the first that answers is heard, before the controls and in every area |
| Plugins.ThenTheControls | src/api/mod.rs:160-173 | the controls are heard next, before any plugin of the area |
| Plugins.ThenTheStage | src/api/mod.rs:57-124 | then the first of the area's own layers that answers, and last the handler; a panic leaves as a 500, an unknown route as a 404, and API answers with the API's headers |
| Plugins.AStageIsLocal | src/api/mod.rs:57-124 | the layers of a stage touch no request outside it |
| Plugins.ApiPolicyStands | src/api/mod.rs:94-101 | inside the outer stage: an API answer carries the content security policy and no-store exactly when the handler and its stage do not panic, whatever the API and credential plugins do |
| Plugins.ApiPolicyIff | src/api/mod.rs:94-187 | without outer plugins: an API answer leaves the router with both headers if and only if the controls admit the request and neither its handler nor its stage panics |
| Plugins.ServedApiPolicyIff | src/server.rs:71-79 | the same of what leaves the server, for a request every filter accepts: it also needs a path without "//" |
| Plugins.AShedRequestLosesThePolicy | src/api/mod.rs:160-173 | with no plugin at all a shed request leaves without them |
| Plugins.PolicySurvivesIff | src/api/mod.rs:175-184 | with outer layers: every API answer of every application that refuses nothing and panics nowhere leaves with both headers if and only if the layers hand them on |
| Plugins.AnyOrderKeepsIffEachDoes | src/plugin/mod.rs:461-474 | layers can be registered in any number and order without loss if and only if each alone hands them on |
| Plugins.AnOuterPluginCanLoosenIt | src/api/mod.rs:175-184 | a layer that does not: the hardening restores only its own seven headers |
| Plugins.HardeningOverrides | src/security/headers.rs:93-99 | hardening overrides the seven headers, touches nothing else, and is idempotent |
| Plugins.Harden | src/security/headers.rs:93-99 | the overriding loop |
| Plugins.Resolve | src/plugin/mod.rs:368-402 | the first refusal, or each stage and the filters in the order of registration |
| Plugins.Apply | src/plugin/mod.rs:466-474 | the reverse loop makes the first registered layer the outermost |
| Plugins.LaterIsInner | src/plugin/mod.rs:461-474 | layers registered later wrap inside those registered earlier |
| Plugins.RegistrationOrder | src/plugin/mod.rs:368-402 | more plugins only append to what is there, stage by stage |
| Plugins.OneContributes | src/plugin/mod.rs:368-402 | what one plugin contributes: its layer to its own stage only, its filter, and its name if it has either |
| Plugins.RunFilters | src/plugin/mod.rs:546-560 | the loop answers with the first filter that does not accept |
| Plugins.PassesIffAllAccept | src/plugin/mod.rs:554-559 | it accepts exactly when all do |
| Cart.Shop.MergeGuestCart | examples/nextjs/src/lib/cart.ts:194-236 | each product's quantity becomes the user's plus the guest's, the guest's cart and cookie go, nobody else's cart changes, and each cart keeps one line per product |
| Cart.Shop.FoldLines | examples/nextjs/src/lib/cart.ts:215-231 | the loop of upserts |
| Cart.Shop.AddItem | examples/nextjs/src/lib/cart.ts:125-140 | adds to one line of one cart; an unknown product is refused |
| Cart.Shop.SetQuantity | examples/nextjs/src/lib/cart.ts:150-167 | changes or removes one line that is there |
| Cart.Shop.ReadCart | examples/nextjs/src/lib/cart.ts:91-123 | each line of the cart once, at its price, and their total |
| Cart.Shop.Checkout | examples/nextjs/src/app/(shop)/actions.ts:44-91 | an order exactly when the cart holds something: a bill for the cart as read, at the prices at checkout; its stored total is the sum over the items inserted; the cart goes and no other changes |
| Cart.Shop.PlaceOrder | examples/nextjs/src/app/(shop)/actions.ts:58-84 | the two loops agree, even when products have left the catalogue |
| Cart.BillIsWhatWasShown | examples/nextjs/src/app/(shop)/actions.ts:46-66 | the order costs what the cart page showed when no price changed and nothing was withdrawn |
| Cart.BillOfLines | examples/nextjs/src/app/(shop)/actions.ts:70-83 | each item carries the name and price of the catalogue and the quantity of the cart |
| Cart.BilledOnce | examples/nextjs/src/app/(shop)/actions.ts:70-83 | each product of the cart still sold is billed exactly once, and nothing else is |
| Cart.TotalsAdd | examples/nextjs/src/app/(shop)/actions.ts:60-66 | totals add up over items, and one item costs its price times its quantity |

## Left out

- SingleFlight.ClientsNeverReplay: does not model the `create` upsert of `examples/nextjs/src/lib/bastion/store.ts` during a refresh, which replaces the token under the holder; `Credential` covers it without timing.
- SingleFlight.Client.Rotate: does not model the in-process map of promises in `examples/nextjs/src/lib/bastion/tokens.ts`, which only saves calls; the machine allows every caller to be its own process.
- Sessions.SessionService.Issue: takes an issuer that stores its tokens; for a stateless format the issuer's part of issue and revoke is empty.
- Sessions.SessionService.Redeem: does not repeat the constant-time comparison after the lookup, which already matched the digest exactly.
- Rotation.KeepsInv: does not model the issuer's own writes to the access-token table between the store calls; they touch no refresh row.
- Auth.AuthService.Refresh: does not model failing stores, which `Rotation` covers as `Fail` and `Abandon`.
- Lockout.AccountService.Authenticate: takes the address as already normalised and the lockout as a duration in range; the 15-minute fallback for one out of range is not modelled.
- Throttle.WaitBound: bounds the wait by the tokens granted to others; the bucket itself does not bound how many contend.
- Throttle.TokenBucket.Take: takes levels and rates as reals, without floating-point rounding.
- Migration.Database.Copy: does not model a commit that takes effect although its reply is lost, nor the schema migrator that runs first.
- Migration.MigrationIsExact: truncates instants downwards, which is what the driver does for instants from the year 2000 on.
- Backends.BackendsAgreeIff: leaves out limits far above what the API accepts (16 MB a document, 1 GB a value) and the users and access-token tables, whose operations add only easy members.
- Backends.MySqlNotes.UpdateOwned: does not model a deletion by another client between the write and the read, which share a transaction.
- Plugins.EveryAnswerIsHardened: layers are functions of one request, so state they keep between requests is not modelled, nor are request ids and the headers marked sensitive.
- Cart.Shop.Checkout: does not model another process adding a line between reading the cart and deleting it; that line would go with the cart.
- Registration, admin bootstrap, role changes, the users table and blog posts: each is settled by reading one function.
- Host, method and content-type guards, rate limiting, CORS, load shedding and body limits.
- HTTP, TLS, sockets, timeouts, signals, logging, telemetry and configuration parsing beyond the key decoder.
- Cryptography: Argon2, SHA-256, Ed25519, AES-GCM, JWT and PASETO.
- Response bodies and error messages beyond which error it is; timing equality of logins.
- React pages, forms, styles and deployment files.
