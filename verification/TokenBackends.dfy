/** Refresh tokens in the four stores, as Backends does notes: SQLite in nanoseconds is the contract of
    RefreshTokens with its foreign key, PostgreSQL and MySQL keep microseconds, MySQL judging by
    changed rows, and MongoDB keeps documents in whole milliseconds and no foreign key. Instants are
    nanoseconds. */
module TokenBackends {
  import opened Common
  import R = RefreshTokens
  import B = Backends

  datatype TokenOp =
    | InsertToken(id: nat, user: nat, tokenHash: R.Digest, family: nat, expiresAt: Time)
    | FindToken(tokenHash: R.Digest)
    | MarkUsed(id: nat)
    | RevokeFamily(family: nat)
    | RevokeAllForUser(user: nat)
    | DeleteExpired

  datatype TimedTokenOp = TimedTokenOp(op: TokenOp, now: Time)

  datatype TokenAnswer =
    | Done
    | Duplicate
    | Refused
    | Found(record: Option<R.Record>)
    | Won(won: bool)
    | Removed(count: int)

  ghost predicate Taken(t: R.Table, id: nat, tokenHash: R.Digest) {
    id in t || exists k :: k in t && t[k].tokenHash == tokenHash
  }

  /** The contract: what each operation does to the table. */
  ghost function TokenEffect(t: R.Table, e: TimedTokenOp): R.Table {
    match e.op
    case InsertToken(id, user, hash, family, expiresAt) =>
      if Taken(t, id, hash) then t else t[id := R.Record(id, user, hash, family, expiresAt, None, false)]
    case FindToken(_) => t
    case MarkUsed(id) => R.Marked(t, id, e.now)
    case RevokeFamily(family) => R.FamilyRevoked(t, family)
    case RevokeAllForUser(user) => R.UserRevoked(t, user)
    case DeleteExpired => R.Swept(t, e.now)
  }

  ghost function AnswerTo(t: R.Table, e: TimedTokenOp): TokenAnswer {
    match e.op
    case InsertToken(id, _, hash, _, _) => if Taken(t, id, hash) then Duplicate else Done
    case FindToken(hash) => Found(R.FindByHash(t, hash))
    case MarkUsed(id) => Won(R.CanMark(t, id))
    case RevokeFamily(_) => Done
    case RevokeAllForUser(_) => Done
    case DeleteExpired => Removed(|t| - |R.Swept(t, e.now)|)
  }

  ghost predicate TokenRun(ts: seq<R.Table>, ops: seq<TimedTokenOp>, answers: seq<TokenAnswer>) {
    && |ts| == |ops| + 1 && |answers| == |ops|
    && forall i | 0 <= i < |ops| :: answers[i] == AnswerTo(ts[i], ops[i]) && ts[i + 1] == TokenEffect(ts[i], ops[i])
  }

  // ----- the SQL stores

  ghost predicate ForeignKeyFails(users: set<nat>, t: R.Table, e: TimedTokenOp) {
    e.op.InsertToken? && !Taken(t, e.op.id, e.op.tokenHash) && e.op.user !in users
  }

  /** The contract and its foreign key. */
  ghost predicate SqlTokenStep(users: set<nat>, t: R.Table, e: TimedTokenOp, n: R.Table, answer: TokenAnswer) {
    if ForeignKeyFails(users, t, e) then n == t && answer == Refused
    else n == TokenEffect(t, e) && answer == AnswerTo(t, e)
  }

  /** The same operation as a store with this grain sees it. */
  function AtGrain(e: TimedTokenOp, g: Grain): TimedTokenOp {
    TimedTokenOp(if e.op.InsertToken? then e.op.(expiresAt := Cut(e.op.expiresAt, g)) else e.op, Cut(e.now, g))
  }

  // MySQL judges by the rows a statement changed.

  /** UPDATE ... SET used_at = ? WHERE id = ? AND used_at IS NULL AND revoked = FALSE. */
  function MarkWhere(t: R.Table, id: nat, now: Time): (R.Table, nat) {
    if id in t && t[id].usedAt.None? && !t[id].revoked then
      var row := t[id].(usedAt := Some(now));
      (t[id := row], B.ChangedRows(true, t[id], row))
    else (t, 0)
  }

  ghost predicate MySqlTokenStep(users: set<nat>, t: R.Table, e: TimedTokenOp, n: R.Table, answer: TokenAnswer) {
    match e.op
    case MarkUsed(id) =>
      var (after, rowsAffected) := MarkWhere(t, id, Cut(e.now, B.MICRO));
      n == after && answer == Won(rowsAffected == 1)
    case _ => SqlTokenStep(users, t, AtGrain(e, B.MICRO), n, answer)
  }

  class MySqlTokens {
    var rows: R.Table

    constructor ()
      ensures rows == map[]
    {
      rows := map[];
    }

    /** Judged by changed rows, which is safe here: NULL to a timestamp is always a change. */
    method MarkUsed(id: nat, now: Time) returns (won: bool)
      modifies this
      ensures forall users :: MySqlTokenStep(users, old(rows), TimedTokenOp(TokenOp.MarkUsed(id), now), rows, Won(won))
      ensures won == R.CanMark(old(rows), id)
      ensures rows == R.Marked(old(rows), id, Cut(now, B.MICRO))
    {
      var rowsAffected := 0;
      if id in rows && rows[id].usedAt.None? && !rows[id].revoked {
        var row := rows[id].(usedAt := Some(Cut(now, B.MICRO)));
        rowsAffected := B.ChangedRows(true, rows[id], row);
        rows := rows[id := row];
      }
      won := rowsAffected == 1;
    }
  }

  lemma MySqlTokensMeetContract(users: set<nat>, t: R.Table, e: TimedTokenOp, n: R.Table, answer: TokenAnswer)
    ensures MySqlTokenStep(users, t, e, n, answer) <==> SqlTokenStep(users, t, AtGrain(e, B.MICRO), n, answer)
  {
  }

  // MongoDB keeps documents.

  datatype TokenDoc = TokenDoc(userId: nat, tokenHash: R.Digest, family: nat, expiresMs: Time, usedMs: Option<Time>,
    revoked: bool)

  type TokenDocs = map<nat, TokenDoc>

  function IntoRecord(id: nat, d: TokenDoc): R.Record {
    R.Record(id, d.userId, d.tokenHash, d.family, B.FromMillis(d.expiresMs),
             if d.usedMs.Some? then Some(B.FromMillis(d.usedMs.value)) else None, d.revoked)
  }

  ghost function FindDoc(docs: TokenDocs, hash: R.Digest): Option<R.Record> {
    if id :| id in docs && docs[id].tokenHash == hash then Some(IntoRecord(id, docs[id])) else None
  }

  predicate Unspent(docs: TokenDocs, id: nat) {
    id in docs && docs[id].usedMs.None? && !docs[id].revoked
  }

  /** _id is unique, and so is token_hash by its index. */
  ghost predicate TakenDoc(docs: TokenDocs, id: nat, tokenHash: R.Digest) {
    id in docs || exists k :: k in docs && docs[k].tokenHash == tokenHash
  }

  function SweptDocs(docs: TokenDocs, now: Time): TokenDocs {
    map id | id in docs && docs[id].expiresMs >= B.ToMillis(now) :: docs[id]
  }

  ghost predicate MongoTokenStep(docs: TokenDocs, e: TimedTokenOp, n: TokenDocs, answer: TokenAnswer) {
    match e.op
    case InsertToken(id, user, hash, family, expiresAt) =>
      if TakenDoc(docs, id, hash) then n == docs && answer == Duplicate
      else n == docs[id := TokenDoc(user, hash, family, B.ToMillis(expiresAt), None, false)] && answer == Done
    case FindToken(hash) => n == docs && answer == Found(FindDoc(docs, hash))
    case MarkUsed(id) =>
      && n == (if Unspent(docs, id) then docs[id := docs[id].(usedMs := Some(B.ToMillis(e.now)))] else docs)
      && answer == Won(Unspent(docs, id))
    case RevokeFamily(family) =>
      && n == (map id | id in docs :: if docs[id].family == family then docs[id].(revoked := true) else docs[id])
      && answer == Done
    case RevokeAllForUser(user) =>
      && n == (map id | id in docs :: if docs[id].userId == user then docs[id].(revoked := true) else docs[id])
      && answer == Done
    case DeleteExpired =>
      && n == SweptDocs(docs, e.now)
      && answer == Removed(|docs| - |n|)
  }

  class MongoTokens {
    var docs: TokenDocs

    constructor ()
      ensures docs == map[]
    {
      docs := map[];
    }

    method Insert(id: nat, user: nat, tokenHash: R.Digest, family: nat, expiresAt: Time, now: Time) returns (done: bool)
      modifies this
      ensures MongoTokenStep(old(docs), TimedTokenOp(InsertToken(id, user, tokenHash, family, expiresAt), now), docs,
        if done then Done else Duplicate)
    {
      var pending := docs.Keys;
      while pending != {}
        invariant pending <= docs.Keys
        invariant forall k | k in docs && k !in pending :: docs[k].tokenHash != tokenHash
        invariant docs == old(docs)
        decreases |pending|
      {
        var k :| k in pending;
        if docs[k].tokenHash == tokenHash {
          return false;
        }
        pending := pending - {k};
      }
      if id in docs {
        return false;
      }
      docs := docs[id := TokenDoc(user, tokenHash, family, B.ToMillis(expiresAt), None, false)];
      return true;
    }

    method MarkUsed(id: nat, now: Time) returns (won: bool)
      modifies this
      ensures MongoTokenStep(old(docs), TimedTokenOp(TokenOp.MarkUsed(id), now), docs, Won(won))
    {
      won := id in docs && docs[id].usedMs.None? && !docs[id].revoked;
      if won {
        docs := docs[id := docs[id].(usedMs := Some(B.ToMillis(now)))];
      }
    }

    method RevokeFamily(family: nat, now: Time)
      modifies this
      ensures MongoTokenStep(old(docs), TimedTokenOp(TokenOp.RevokeFamily(family), now), docs, Done)
    {
      docs := map id | id in docs :: if docs[id].family == family then docs[id].(revoked := true) else docs[id];
    }

    method RevokeAllForUser(user: nat, now: Time)
      modifies this
      ensures MongoTokenStep(old(docs), TimedTokenOp(TokenOp.RevokeAllForUser(user), now), docs, Done)
    {
      docs := map id | id in docs :: if docs[id].userId == user then docs[id].(revoked := true) else docs[id];
    }

    /** "$lt" on millisecond dates; answers deleted_count. */
    method DeleteExpired(now: Time) returns (removed: nat)
      modifies this
      ensures MongoTokenStep(old(docs), TimedTokenOp(TokenOp.DeleteExpired, now), docs, Removed(removed))
    {
      var before := |docs|;
      docs := map id | id in docs && docs[id].expiresMs >= B.ToMillis(now) :: docs[id];
      assert docs.Keys <= old(docs).Keys;
      R.SubsetSize(docs.Keys, old(docs).Keys);
      removed := before - |docs|;
    }
  }

  /** The rows the documents stand for. */
  function RecordsOf(docs: TokenDocs): R.Table {
    map id | id in docs :: IntoRecord(id, docs[id])
  }

  lemma MongoInsertMeetsContract(docs: TokenDocs, e: TimedTokenOp, n: TokenDocs, answer: TokenAnswer)
    requires MongoTokenStep(docs, e, n, answer) && e.op.InsertToken?
    ensures RecordsOf(n) == TokenEffect(RecordsOf(docs), AtGrain(e, B.MILLI))
    ensures answer == AnswerTo(RecordsOf(docs), AtGrain(e, B.MILLI))
  {
    assert forall k | k in docs :: RecordsOf(docs)[k].tokenHash == docs[k].tokenHash;
  }

  lemma MongoFindMeetsContract(docs: TokenDocs, hash: R.Digest)
    requires R.WellFormed(RecordsOf(docs))
    ensures FindDoc(docs, hash) == R.FindByHash(RecordsOf(docs), hash)
  {
    assert forall k | k in docs :: RecordsOf(docs)[k].tokenHash == docs[k].tokenHash;
  }

  lemma MongoUpdateMeetsContract(docs: TokenDocs, e: TimedTokenOp, n: TokenDocs, answer: TokenAnswer)
    requires MongoTokenStep(docs, e, n, answer) && (e.op.MarkUsed? || e.op.RevokeFamily? || e.op.RevokeAllForUser?)
    ensures RecordsOf(n) == TokenEffect(RecordsOf(docs), AtGrain(e, B.MILLI))
    ensures answer == AnswerTo(RecordsOf(docs), AtGrain(e, B.MILLI))
  {
  }

  lemma MongoSweepMeetsContract(docs: TokenDocs, now: Time)
    ensures RecordsOf(SweptDocs(docs, now)) == R.Swept(RecordsOf(docs), Cut(now, B.MILLI))
    ensures |SweptDocs(docs, now)| == |R.Swept(RecordsOf(docs), Cut(now, B.MILLI))| && |docs| == |RecordsOf(docs)|
  {
    forall id | id in docs
      ensures docs[id].expiresMs >= B.ToMillis(now) <==> RecordsOf(docs)[id].expiresAt >= Cut(now, B.MILLI)
    {
    }
    assert RecordsOf(SweptDocs(docs, now)) == R.Swept(RecordsOf(docs), Cut(now, B.MILLI));
    SameSize(SweptDocs(docs, now), RecordsOf(SweptDocs(docs, now)));
    SameSize(docs, RecordsOf(docs));
  }

  lemma SameSize<T, U>(a: map<nat, T>, b: map<nat, U>)
    requires a.Keys == b.Keys
    ensures |a| == |b|
  {
    assert |a| == |a.Keys| && |b| == |b.Keys|;
  }

  /** MongoDB's documents do what the contract says, at the millisecond, of the rows they stand for. */
  lemma MongoTokensMeetContract(docs: TokenDocs, e: TimedTokenOp, n: TokenDocs, answer: TokenAnswer)
    requires MongoTokenStep(docs, e, n, answer) && R.WellFormed(RecordsOf(docs))
    ensures RecordsOf(n) == TokenEffect(RecordsOf(docs), AtGrain(e, B.MILLI))
    ensures answer == AnswerTo(RecordsOf(docs), AtGrain(e, B.MILLI))
  {
    match e.op
    case InsertToken(_, _, _, _, _) => MongoInsertMeetsContract(docs, e, n, answer);
    case FindToken(hash) => MongoFindMeetsContract(docs, hash);
    case DeleteExpired => MongoSweepMeetsContract(docs, e.now);
    case _ => MongoUpdateMeetsContract(docs, e, n, answer);
  }

  // ----- the contract at a coarser grain

  function CutRecord(r: R.Record, g: Grain): R.Record {
    r.(expiresAt := Cut(r.expiresAt, g), usedAt := if r.usedAt.Some? then Some(Cut(r.usedAt.value, g)) else None)
  }

  function CutTokens(t: R.Table, g: Grain): R.Table {
    map id | id in t :: CutRecord(t[id], g)
  }

  function CutTokenAnswer(answer: TokenAnswer, g: Grain): TokenAnswer {
    match answer
    case Found(Some(record)) => Found(Some(CutRecord(record, g)))
    case _ => answer
  }

  /** No row has expired so recently that its grain is not over. */
  ghost predicate SweepsAlike(t: R.Table, now: Time, g: Grain) {
    forall id | id in t && t[id].expiresAt < now :: Cut(t[id].expiresAt, g) < Cut(now, g)
  }

  lemma CutWellFormed(t: R.Table, g: Grain)
    requires R.WellFormed(t)
    ensures R.WellFormed(CutTokens(t, g))
  {
  }

  lemma CutInsert(t: R.Table, e: TimedTokenOp, g: Grain)
    requires e.op.InsertToken?
    ensures Taken(CutTokens(t, g), e.op.id, e.op.tokenHash) == Taken(t, e.op.id, e.op.tokenHash)
    ensures TokenEffect(CutTokens(t, g), AtGrain(e, g)) == CutTokens(TokenEffect(t, e), g)
  {
    assert forall k | k in t :: CutTokens(t, g)[k].tokenHash == t[k].tokenHash;
  }

  lemma CutFind(t: R.Table, hash: R.Digest, g: Grain)
    requires R.WellFormed(t)
    ensures Found(R.FindByHash(CutTokens(t, g), hash)) == CutTokenAnswer(Found(R.FindByHash(t, hash)), g)
  {
    assert forall k | k in t :: CutTokens(t, g)[k].tokenHash == t[k].tokenHash;
    if id :| id in t && t[id].tokenHash == hash {
      assert R.FindByHash(t, hash) == Some(t[id]);
      assert R.FindByHash(CutTokens(t, g), hash) == Some(CutTokens(t, g)[id]);
    }
  }

  lemma CutUpdate(t: R.Table, e: TimedTokenOp, g: Grain)
    requires e.op.MarkUsed? || e.op.RevokeFamily? || e.op.RevokeAllForUser?
    ensures TokenEffect(CutTokens(t, g), AtGrain(e, g)) == CutTokens(TokenEffect(t, e), g)
    ensures AnswerTo(CutTokens(t, g), AtGrain(e, g)) == AnswerTo(t, e)
  {
  }

  lemma SweptLater(t: R.Table, now: Time, g: Grain, id: nat)
    requires id in t
    ensures id in R.Swept(t, now) ==> id in R.Swept(CutTokens(t, g), Cut(now, g))
    ensures id !in R.Swept(t, now) ==>
      (id !in R.Swept(CutTokens(t, g), Cut(now, g)) <==> Cut(t[id].expiresAt, g) < Cut(now, g))
  {
    if t[id].expiresAt >= now {
      CutKeepsOrder(now, t[id].expiresAt, g);
    }
  }

  /** A coarser sweep deletes what a finer one does, exactly when no token has expired within the
      running grain; otherwise it deletes fewer. */
  lemma SweepsAgreeIff(t: R.Table, now: Time, g: Grain)
    ensures R.Swept(CutTokens(t, g), Cut(now, g)) == CutTokens(R.Swept(t, now), g) <==> SweepsAlike(t, now, g)
    ensures |R.Swept(CutTokens(t, g), Cut(now, g))| == |R.Swept(t, now)| <==> SweepsAlike(t, now, g)
  {
    var coarse, fine := R.Swept(CutTokens(t, g), Cut(now, g)), R.Swept(t, now);
    forall id | id in t
      ensures id in fine ==> id in coarse
      ensures id !in fine ==> (id !in coarse <==> Cut(t[id].expiresAt, g) < Cut(now, g))
    {
      SweptLater(t, now, g, id);
    }
    if SweepsAlike(t, now, g) {
      assert coarse.Keys == fine.Keys;
      SameSize(coarse, fine);
      assert coarse == CutTokens(fine, g);
    } else {
      var id :| id in t && t[id].expiresAt < now && !(Cut(t[id].expiresAt, g) < Cut(now, g));
      assert id in coarse && id !in fine && id !in CutTokens(fine, g);
      assert fine.Keys <= coarse.Keys - {id};
      R.SubsetSize(fine.Keys, coarse.Keys - {id});
      assert |coarse| == |coarse.Keys| && |fine| == |fine.Keys|;
    }
  }

  /** Nor does a token live a moment longer at a coarser grain: it is accepted exactly when it would be
      at full precision and its last grain has not begun. */
  lemma UsableAtGrainIff(r: R.Record, now: Time, g: Grain)
    ensures CutRecord(r, g).IsUsableAt(now) <==> r.IsUsableAt(now) && now < Cut(r.expiresAt, g)
  {
    CutBounds(r.expiresAt, g);
  }

  lemma CutTokenSimulates(t: R.Table, e: TimedTokenOp, g: Grain)
    requires R.WellFormed(t) && (e.op.DeleteExpired? ==> SweepsAlike(t, e.now, g))
    ensures TokenEffect(CutTokens(t, g), AtGrain(e, g)) == CutTokens(TokenEffect(t, e), g)
    ensures AnswerTo(CutTokens(t, g), AtGrain(e, g)) == CutTokenAnswer(AnswerTo(t, e), g)
  {
    match e.op
    case InsertToken(_, _, _, _, _) => CutInsert(t, e, g);
    case FindToken(hash) => CutFind(t, hash, g);
    case DeleteExpired =>
      SweepsAgreeIff(t, e.now, g);
      SameSize(CutTokens(t, g), t);
    case _ => CutUpdate(t, e, g);
  }

  // ----- when the four answer alike

  datatype TokenFour = TokenFour(sqlite: TokenAnswer, postgres: TokenAnswer, mysql: TokenAnswer, mongo: TokenAnswer)

  datatype TokenStates = TokenStates(sqlite: R.Table, postgres: R.Table, mysql: R.Table, mongo: TokenDocs)

  ghost predicate FourTokenSteps(users: set<nat>, s: TokenStates, e: TimedTokenOp, n: TokenStates, a: TokenFour) {
    && SqlTokenStep(users, s.sqlite, e, n.sqlite, a.sqlite)
    && SqlTokenStep(users, s.postgres, AtGrain(e, B.MICRO), n.postgres, a.postgres)
    && MySqlTokenStep(users, s.mysql, e, n.mysql, a.mysql)
    && MongoTokenStep(s.mongo, e, n.mongo, a.mongo)
  }

  ghost predicate HoldTheSame(s: TokenStates) {
    && s.postgres == s.mysql == CutTokens(s.sqlite, B.MICRO) && RecordsOf(s.mongo) == CutTokens(s.sqlite, B.MILLI)
    && R.WellFormed(s.sqlite)
  }

  ghost predicate AnswerAlike(a: TokenFour) {
    a.postgres == a.mysql == CutTokenAnswer(a.sqlite, B.MICRO) && a.mongo == CutTokenAnswer(a.sqlite, B.MILLI)
  }

  /** A new token's user exists, and no sweep falls into the millisecond a stored token expired in. */
  ghost predicate Portable(users: set<nat>, t: R.Table, e: TimedTokenOp) {
    !ForeignKeyFails(users, t, e) && (e.op.DeleteExpired? ==> SweepsAlike(t, e.now, B.MILLI))
  }

  lemma AlikeInMicros(t: R.Table, now: Time)
    requires SweepsAlike(t, now, B.MILLI)
    ensures SweepsAlike(t, now, B.MICRO)
  {
    forall id | id in t && t[id].expiresAt < now ensures Cut(t[id].expiresAt, B.MICRO) < Cut(now, B.MICRO) {
      B.SameMicroSameMilli(t[id].expiresAt, now);
      CutKeepsOrder(t[id].expiresAt, now, B.MICRO);
    }
  }

  lemma EffectKeepsWellFormed(t: R.Table, e: TimedTokenOp)
    requires R.WellFormed(t)
    ensures R.WellFormed(TokenEffect(t, e))
  {
  }

  lemma SameForeignKey(users: set<nat>, t: R.Table, e: TimedTokenOp, g: Grain)
    ensures ForeignKeyFails(users, CutTokens(t, g), AtGrain(e, g)) == ForeignKeyFails(users, t, e)
  {
    if e.op.InsertToken? {
      CutInsert(t, e, g);
    }
  }

  lemma PortableStepsAgree(users: set<nat>, s: TokenStates, e: TimedTokenOp, n: TokenStates, a: TokenFour)
    requires HoldTheSame(s) && FourTokenSteps(users, s, e, n, a) && Portable(users, s.sqlite, e)
    ensures AnswerAlike(a) && HoldTheSame(n)
  {
    EffectKeepsWellFormed(s.sqlite, e);
    if e.op.DeleteExpired? {
      AlikeInMicros(s.sqlite, e.now);
    }
    SameForeignKey(users, s.sqlite, e, B.MICRO);
    MySqlTokensMeetContract(users, s.mysql, e, n.mysql, a.mysql);
    CutTokenSimulates(s.sqlite, e, B.MICRO);
    CutWellFormed(s.sqlite, B.MILLI);
    MongoTokensMeetContract(s.mongo, e, n.mongo, a.mongo);
    CutTokenSimulates(s.sqlite, e, B.MILLI);
  }

  lemma MongoNeverRefuses(docs: TokenDocs, e: TimedTokenOp, n: TokenDocs, answer: TokenAnswer)
    requires MongoTokenStep(docs, e, n, answer)
    ensures answer != Refused
  {
  }

  lemma EarlySweepCounts(t: R.Table, docs: TokenDocs, now: Time)
    requires RecordsOf(docs) == CutTokens(t, B.MILLI) && !SweepsAlike(t, now, B.MILLI)
    ensures |t| - |R.Swept(t, now)| != |docs| - |SweptDocs(docs, now)|
  {
    MongoSweepMeetsContract(docs, now);
    SweepsAgreeIff(t, now, B.MILLI);
    SameSize(CutTokens(t, B.MILLI), t);
  }

  lemma SweepAnswers(users: set<nat>, t: R.Table, docs: TokenDocs, e: TimedTokenOp, n: R.Table, m: TokenDocs,
                     sql: TokenAnswer, mongo: TokenAnswer)
    requires e.op.DeleteExpired? && SqlTokenStep(users, t, e, n, sql) && MongoTokenStep(docs, e, m, mongo)
    ensures sql == Removed(|t| - |R.Swept(t, e.now)|) && mongo == Removed(|docs| - |SweptDocs(docs, e.now)|)
  {
  }

  /** Where one store refuses or sweeps otherwise, MongoDB's answer shows it. */
  lemma DifferenceShows(users: set<nat>, s: TokenStates, e: TimedTokenOp, n: TokenStates, a: TokenFour)
    requires HoldTheSame(s) && FourTokenSteps(users, s, e, n, a) && !Portable(users, s.sqlite, e)
    ensures !AnswerAlike(a)
  {
    if e.op.DeleteExpired? {
      SweepAnswers(users, s.sqlite, s.mongo, e, n.sqlite, n.mongo, a.sqlite, a.mongo);
      EarlySweepCounts(s.sqlite, s.mongo, e.now);
    } else {
      MongoNeverRefuses(s.mongo, e, n.mongo, a.mongo);
      assert a.sqlite == Refused;
    }
  }

  /** The same for refresh tokens, mark_used and its single shot included: from states that hold the
      same, the four stores answer alike if and only if a new token's user exists and no sweep falls
      into the millisecond in which a stored token expired; and then they hold the same again. */
  lemma TokensAnswerAlikeIff(users: set<nat>, s: TokenStates, e: TimedTokenOp, n: TokenStates, a: TokenFour)
    requires HoldTheSame(s) && FourTokenSteps(users, s, e, n, a)
    ensures AnswerAlike(a) <==> Portable(users, s.sqlite, e)
    ensures AnswerAlike(a) ==> HoldTheSame(n)
  {
    if Portable(users, s.sqlite, e) {
      PortableStepsAgree(users, s, e, n, a);
    } else {
      DifferenceShows(users, s, e, n, a);
    }
  }

  // ----- every run of the four stores

  ghost predicate FourTokenRuns(users: set<nat>, ss: seq<TokenStates>, ops: seq<TimedTokenOp>,
      answers: seq<TokenFour>) {
    && |ss| == |ops| + 1 && |answers| == |ops|
    && forall i | 0 <= i < |ops| :: FourTokenSteps(users, ss[i], ops[i], ss[i + 1], answers[i])
  }

  lemma {:induction false} TokenBackendsAgree(users: set<nat>, ss: seq<TokenStates>, ops: seq<TimedTokenOp>,
      answers: seq<TokenFour>, i: nat)
    requires FourTokenRuns(users, ss, ops, answers) && HoldTheSame(ss[0]) && i <= |ops|
    requires forall k | 0 <= k < i :: Portable(users, ss[k].sqlite, ops[k])
    ensures HoldTheSame(ss[i])
    ensures forall k | 0 <= k < i :: AnswerAlike(answers[k])
  {
    if i > 0 {
      TokenBackendsAgree(users, ss, ops, answers, i - 1);
      TokensAnswerAlikeIff(users, ss[i - 1], ops[i - 1], ss[i], answers[i - 1]);
    }
  }

  /** On any sequence of operations and any clock, the four stores answer alike throughout, each at its
      own grain, if and only if every step is one they all take. */
  lemma {:induction false} TokenBackendsAgreeIff(users: set<nat>, ss: seq<TokenStates>, ops: seq<TimedTokenOp>,
      answers: seq<TokenFour>)
    requires FourTokenRuns(users, ss, ops, answers) && HoldTheSame(ss[0])
    ensures (forall k | 0 <= k < |ops| :: AnswerAlike(answers[k]))
      <==> (forall k | 0 <= k < |ops| :: Portable(users, ss[k].sqlite, ops[k]))
    ensures (forall k | 0 <= k < |ops| :: AnswerAlike(answers[k])) ==> HoldTheSame(ss[|ops|])
  {
    var n := 0;
    while n < |ops| && Portable(users, ss[n].sqlite, ops[n])
      invariant n <= |ops|
      invariant forall k | 0 <= k < n :: Portable(users, ss[k].sqlite, ops[k])
    {
      n := n + 1;
    }
    TokenBackendsAgree(users, ss, ops, answers, n);
    if n < |ops| {
      DifferenceShows(users, ss[n], ops[n], ss[n + 1], answers[n]);
    }
  }

  /** mark_used is single-shot: of all the calls for one token it answers true to one at most,
      whatever runs in between, sweeps included. */
  lemma MarkedAtMostOnce(ts: seq<R.Table>, ops: seq<TimedTokenOp>, answers: seq<TokenAnswer>, i: nat, j: nat, id: nat)
    requires TokenRun(ts, ops, answers) && i < j < |ops|
    requires ops[i].op == MarkUsed(id) && ops[j].op == MarkUsed(id) && answers[i] == Won(true)
    requires forall k | i < k < j :: ops[k].op.InsertToken? ==> ops[k].op.id != id
    ensures answers[j] == Won(false)
  {
    StaysMarked(ts, ops, answers, i, j, id);
  }

  lemma {:induction false} StaysMarked(ts: seq<R.Table>, ops: seq<TimedTokenOp>, answers: seq<TokenAnswer>, i: nat,
      j: nat, id: nat)
    requires TokenRun(ts, ops, answers) && i < j <= |ops| && ops[i].op == MarkUsed(id)
    requires answers[i] == Won(true)
    requires forall k | i < k < j :: ops[k].op.InsertToken? ==> ops[k].op.id != id
    ensures id in ts[j] ==> ts[j][id].usedAt.Some?
    decreases j
  {
    assert ts[j] == TokenEffect(ts[j - 1], ops[j - 1]);
    if i < j - 1 {
      StaysMarked(ts, ops, answers, i, j - 1, id);
    }
  }
}
