/** The refresh-token rotation protocol of src/service/session_service.rs, at the grain of
    single store calls. A request is a program counter with its locals; between any two of
    its store calls every other request may run. `log`, `spent` and `tip` are history: they
    keep what sweeping deletes, and no transition is guarded by them except where a freshly
    drawn id or secret must be new. */
module Rotation {
  import opened Common
  import opened RefreshTokens

  /** What a new token follows: a login, or the redemption of an earlier token. */
  datatype Parent = Login | Redeemed(secret: nat, id: nat)

  datatype Cause = Reuse | LostRace

  datatype Request =
    | Presenting(secret: nat, now: Time)                                // redeem: before the lookup
    | Marking(secret: nat, id: nat, user: nat, family: nat)             // looked usable; before mark_used
    | Revoking(secret: nat, cause: Cause, family: nat)                  // redeem: before revoke_family
    | Issuing(user: nat, family: nat, parent: Parent)                   // start or resume: before insert
    | Issued(family: nat, parent: Parent, id: nat, newSecret: nat)      // inserted
    | Abandoned(family: nat, parent: Parent)                            // will never insert
    | Refused(secret: nat)                                              // redeem answered 401 or failed
    | LoggingOut(secret: nat)                                           // revoke: before the lookup
    | LogoutRevoking(family: nat)                                       // revoke: before revoke_family
    | LoggedOut

  datatype Logged = Logged(family: nat, user: nat, secret: nat, parent: Parent, issuer: nat)

  /** Where a family's chain currently ends. */
  datatype Tip = UnusedToken(id: nat) | IssueInFlight(request: nat) | IssueLost(request: nat)

  datatype State = State(
    rows: Table,
    reqs: map<nat, Request>,
    log: map<nat, Logged>,     // every token ever inserted
    spent: map<nat, nat>,      // every token ever marked used, with the request that won it
    tip: map<nat, Tip>)        // one entry per family ever started

  datatype Step =
    | Start(r: nat, user: nat, family: nat)
    | Present(r: nat, secret: nat, now: Time)
    | Lookup(r: nat)
    | Mark(r: nat, now: Time, answered: bool)   // !answered: the row changed but the reply was lost
    | Insert(r: nat, id: nat, secret: nat, expiresAt: Time)
    | Abandon(r: nat)                           // account locked, issuer or store failure, crash
    | Fail(r: nat)                              // a failing store call that changed nothing
    | RevokeFamily(r: nat)
    | BeginLogout(r: nat, secret: nat)
    | LogoutLookup(r: nat)
    | RevokeAll(user: nat)
    | Sweep(now: Time)

  const Empty := State(map[], map[], map[], map[], map[])

  function PresentedBy(q: Request): Option<nat> {
    match q
    case Presenting(secret, _) => Some(secret)
    case Marking(secret, _, _, _) => Some(secret)
    case Revoking(secret, _, _) => Some(secret)
    case Refused(secret) => Some(secret)
    case Issuing(_, _, Redeemed(secret, _)) => Some(secret)
    case Issued(_, Redeemed(secret, _), _, _) => Some(secret)
    case Abandoned(_, Redeemed(secret, _)) => Some(secret)
    case _ => None
  }

  function ParentOf(q: Request): Option<Parent> {
    if q.Issuing? || q.Issued? || q.Abandoned? then Some(q.parent) else None
  }

  /** The token this request redeemed: its mark_used returned true. */
  function WonBy(q: Request): Option<nat> {
    match ParentOf(q)
    case Some(Redeemed(_, id)) => Some(id)
    case _ => None
  }

  ghost predicate Enabled(s: State, step: Step) {
    match step
    case Start(r, _, family) => r !in s.reqs && family !in s.tip
    case Present(r, _, _) => r !in s.reqs
    case Lookup(r) => r in s.reqs && s.reqs[r].Presenting?
    case Mark(r, _, _) => r in s.reqs && s.reqs[r].Marking?
    case Insert(r, id, secret, _) =>
      && r in s.reqs && s.reqs[r].Issuing?
      && id !in s.log
      && (forall t :: t in s.log ==> s.log[t].secret != secret)
      && (forall q :: q in s.reqs ==> PresentedBy(s.reqs[q]) != Some(secret))
    case Abandon(r) => r in s.reqs && s.reqs[r].Issuing?
    case Fail(r) => r in s.reqs && (s.reqs[r].Presenting? || s.reqs[r].Marking? || s.reqs[r].Revoking?)
    case RevokeFamily(r) => r in s.reqs && (s.reqs[r].Revoking? || s.reqs[r].LogoutRevoking?)
    case BeginLogout(r, _) => r !in s.reqs
    case LogoutLookup(r) => r in s.reqs && s.reqs[r].LoggingOut?
    case RevokeAll(_) => true
    case Sweep(_) => true
  }

  /** redeem, lines 72-92: what the lookup decides. */
  ghost function AfterLookup(s: State, q: Request): Request
    requires q.Presenting?
  {
    match FindByHash(s.rows, DigestOf(q.secret))
    case None => Refused(q.secret)
    case Some(record) =>
      if record.IsUsableAt(q.now) then Marking(q.secret, record.id, record.userId, record.family)
      else if record.usedAt.Some? then Revoking(q.secret, Reuse, record.family)
      else Refused(q.secret)
  }

  /** A request moves on without touching the table. */
  function Moved(s: State, r: nat, q: Request): State {
    s.(reqs := s.reqs[r := q])
  }

  function Started(s: State, r: nat, user: nat, family: nat): State {
    s.(reqs := s.reqs[r := Issuing(user, family, Login)], tip := s.tip[family := IssueInFlight(r)])
  }

  /** mark_used returned true to this request. */
  function Won(s: State, r: nat, now: Time, answered: bool): State
    requires r in s.reqs && s.reqs[r].Marking? && CanMark(s.rows, s.reqs[r].id)
  {
    var q := s.reqs[r];
    var parent := Redeemed(q.secret, q.id);
    State(
      Marked(s.rows, q.id, now),
      s.reqs[r := if answered then Issuing(q.user, q.family, parent) else Abandoned(q.family, parent)],
      s.log,
      s.spent[q.id := r],
      s.tip[q.family := if answered then IssueInFlight(r) else IssueLost(r)])
  }

  function Inserted(s: State, r: nat, id: nat, secret: nat, expiresAt: Time): State
    requires r in s.reqs && s.reqs[r].Issuing?
  {
    var q := s.reqs[r];
    s.(rows := s.rows[id := Record(id, q.user, DigestOf(secret), q.family, expiresAt, None, false)],
       reqs := s.reqs[r := Issued(q.family, q.parent, id, secret)],
       log := s.log[id := Logged(q.family, q.user, secret, q.parent, r)],
       tip := s.tip[q.family := UnusedToken(id)])
  }

  function Dropped(s: State, r: nat): State
    requires r in s.reqs && s.reqs[r].Issuing?
  {
    var q := s.reqs[r];
    s.(reqs := s.reqs[r := Abandoned(q.family, q.parent)], tip := s.tip[q.family := IssueLost(r)])
  }

  ghost function Next(s: State, step: Step): State
    requires Enabled(s, step)
  {
    match step
    case Start(r, user, family) => Started(s, r, user, family)
    case Present(r, secret, now) => Moved(s, r, Presenting(secret, now))
    case Lookup(r) => Moved(s, r, AfterLookup(s, s.reqs[r]))
    case Mark(r, now, answered) =>
      var q := s.reqs[r];
      if CanMark(s.rows, q.id) then Won(s, r, now, answered)
      else Moved(s, r, Revoking(q.secret, LostRace, q.family))
    case Insert(r, id, secret, expiresAt) => Inserted(s, r, id, secret, expiresAt)
    case Abandon(r) => Dropped(s, r)
    case Fail(r) => Moved(s, r, Refused(s.reqs[r].secret))
    case RevokeFamily(r) =>
      var q := s.reqs[r];
      Moved(s, r, if q.Revoking? then Refused(q.secret) else LoggedOut).(rows := FamilyRevoked(s.rows, q.family))
    case BeginLogout(r, secret) => Moved(s, r, LoggingOut(secret))
    case LogoutLookup(r) =>
      var found := FindByHash(s.rows, DigestOf(s.reqs[r].secret));
      Moved(s, r, if found.Some? then LogoutRevoking(found.value.family) else LoggedOut)
    case RevokeAll(user) => s.(rows := UserRevoked(s.rows, user))
    case Sweep(now) => s.(rows := Swept(s.rows, now))
  }

  ghost predicate Valid(s: State, steps: seq<Step>)
    decreases |steps|
  {
    steps == [] || (Enabled(s, steps[0]) && Valid(Next(s, steps[0]), steps[1..]))
  }

  ghost function After(s: State, steps: seq<Step>): State
    requires Valid(s, steps)
    decreases |steps|
  {
    if steps == [] then s else After(Next(s, steps[0]), steps[1..])
  }

  // ----- what every step keeps

  /** A stored row agrees with the history of what was inserted and what was marked. */
  ghost predicate RowOk(s: State, id: nat)
    requires id in s.rows
  {
    var row := s.rows[id];
    && row.id == id && id in s.log
    && row.family == s.log[id].family && row.userId == s.log[id].user && row.tokenHash == DigestOf(s.log[id].secret)
    && (row.usedAt.Some? <==> id in s.spent)
  }

  ghost predicate SecretsUnique(s: State) {
    forall a, b :: a in s.log && b in s.log && s.log[a].secret == s.log[b].secret ==> a == b
  }

  ghost predicate RowsMatchLog(s: State) {
    SecretsUnique(s) && forall id {:trigger RowOk(s, id)} :: id in s.rows ==> RowOk(s, id)
  }

  /** The request that inserted the token and the one that won it are on record. */
  ghost predicate TokenOk(s: State, id: nat)
    requires id in s.log
  {
    var token := s.log[id];
    && token.family in s.tip
    && token.issuer in s.reqs && s.reqs[token.issuer] == Issued(token.family, token.parent, id, token.secret)
    && (id in s.spent ==> s.spent[id] in s.reqs && WonBy(s.reqs[s.spent[id]]) == Some(id))
  }

  /** The locals of a request about to mark a token name it. */
  predicate NamesToken(s: State, q: Request)
    requires q.Marking?
  {
    && q.id in s.log
    && s.log[q.id].family == q.family && s.log[q.id].secret == q.secret && s.log[q.id].user == q.user
  }

  /** A request's locals name a token of the family it works for; a winner is the winner on record. */
  ghost predicate RequestOk(s: State, r: nat)
    requires r in s.reqs
  {
    var q := s.reqs[r];
    && (q.Marking? ==> NamesToken(s, q))
    && (q.Issued? ==> q.id in s.log && s.log[q.id].issuer == r)
    && (WonBy(q).Some? ==>
          var parent := q.parent;
          && parent.id in s.spent && s.spent[parent.id] == r
          && parent.id in s.log && s.log[parent.id].family == q.family && s.log[parent.id].secret == parent.secret)
  }

  ghost predicate Attributed(s: State) {
    && s.spent.Keys <= s.log.Keys
    && (forall id {:trigger TokenOk(s, id)} :: id in s.log ==> TokenOk(s, id))
    && (forall r {:trigger RequestOk(s, r)} :: r in s.reqs ==> RequestOk(s, r))
  }

  /** A chain end of a family: a token never marked used, or an issue that has not inserted. */
  ghost predicate IsTip(s: State, family: nat, tip: Tip) {
    match tip
    case UnusedToken(id) => id in s.log && s.log[id].family == family && id !in s.spent
    case IssueInFlight(r) => r in s.reqs && s.reqs[r].Issuing? && s.reqs[r].family == family
    case IssueLost(r) => r in s.reqs && s.reqs[r].Abandoned? && s.reqs[r].family == family
  }

  /** Every started family has exactly one chain end. */
  ghost predicate OneTip(s: State) {
    forall family, tip :: IsTip(s, family, tip) <==> family in s.tip && s.tip[family] == tip
  }

  ghost predicate Inv(s: State) {
    RowsMatchLog(s) && Attributed(s) && OneTip(s)
  }

  lemma RowsAreWellFormed(s: State)
    requires RowsMatchLog(s)
    ensures WellFormed(s.rows)
  {
    forall id | id in s.rows ensures RowOk(s, id) {}
  }

  /** Requests outside the issuing part of the protocol carry no history. */
  predicate Plain(q: Request) {
    ParentOf(q).None?
  }

  lemma MovedKeepsInv(s: State, r: nat, q: Request)
    requires Inv(s) && Plain(q) && (r in s.reqs ==> Plain(s.reqs[r]))
    requires q.Marking? ==> NamesToken(s, q)
    ensures Inv(Moved(s, r, q))
  {
    var n := Moved(s, r, q);
    forall id | id in n.rows ensures RowOk(n, id) { assert RowOk(s, id); }
    forall id | id in n.log ensures TokenOk(n, id) { assert TokenOk(s, id); }
    forall p | p in n.reqs ensures RequestOk(n, p) { assert p != r ==> RequestOk(s, p); }
    SameTips(s, n);
  }

  lemma RowsKeepInv(s: State, n: State)
    requires Inv(s) && n == s.(rows := n.rows)
    requires forall id :: id in n.rows ==> id in s.rows && n.rows[id] == s.rows[id].(revoked := n.rows[id].revoked)
    ensures Inv(n)
  {
    forall id | id in n.rows ensures RowOk(n, id) { assert RowOk(s, id); }
    forall id | id in n.log ensures TokenOk(n, id) { assert TokenOk(s, id); }
    forall p | p in n.reqs ensures RequestOk(n, p) { assert RequestOk(s, p); }
    SameTips(s, n);
  }

  /** Steps of the issuing part: one request moves and the history only grows. */
  lemma OthersStayAttributed(s: State, n: State, r: nat)
    requires Attributed(s) && n.spent.Keys <= n.log.Keys && s.tip.Keys <= n.tip.Keys && r in n.reqs
      && n.reqs == s.reqs[r := n.reqs[r]]
    requires r in s.reqs ==> !s.reqs[r].Issued? && (WonBy(s.reqs[r]).Some? ==> WonBy(n.reqs[r]) == WonBy(s.reqs[r]))
    requires forall id :: id in s.log ==> id in n.log && n.log[id] == s.log[id]
    requires forall id :: id in s.spent ==> id in n.spent && n.spent[id] == s.spent[id]
    requires forall id :: id in n.log && (id !in s.log || (id in n.spent && id !in s.spent)) ==> TokenOk(n, id)
    requires RequestOk(n, r)
    ensures Attributed(n)
  {
    forall id | id in n.log ensures TokenOk(n, id) { assert id in s.log ==> TokenOk(s, id); }
    forall p | p in n.reqs ensures RequestOk(n, p) { assert p != r ==> RequestOk(s, p); }
  }

  lemma StartedKeepsInv(s: State, r: nat, user: nat, family: nat)
    requires Inv(s) && r !in s.reqs && family !in s.tip
    ensures Inv(Started(s, r, user, family))
  {
    var n := Started(s, r, user, family);
    forall id | id in n.rows ensures RowOk(n, id) { assert RowOk(s, id); }
    OthersStayAttributed(s, n, r);
    StartedMovesTip(s, r, user, family);
  }

  lemma StartedMovesTip(s: State, r: nat, user: nat, family: nat)
    requires OneTip(s) && r !in s.reqs && family !in s.tip
    ensures OneTip(Started(s, r, user, family))
  {
    var n := Started(s, r, user, family);
    forall f, tip ensures IsTip(n, f, tip) <==> f in n.tip && n.tip[f] == tip {
      assert IsTip(s, f, tip) <==> f in s.tip && s.tip[f] == tip;
    }
  }

  lemma DroppedKeepsInv(s: State, r: nat)
    requires Inv(s) && r in s.reqs && s.reqs[r].Issuing?
    ensures Inv(Dropped(s, r))
  {
    var n := Dropped(s, r);
    forall id | id in n.rows ensures RowOk(n, id) { assert RowOk(s, id); }
    assert RequestOk(s, r);
    OthersStayAttributed(s, n, r);
    DroppedMovesTip(s, r);
  }

  lemma DroppedMovesTip(s: State, r: nat)
    requires OneTip(s) && r in s.reqs && s.reqs[r].Issuing?
    ensures OneTip(Dropped(s, r))
  {
    assert IsTip(s, s.reqs[r].family, IssueInFlight(r));
    MovesTip(s, Dropped(s, r), s.reqs[r].family, IssueLost(r));
  }

  lemma InsertedKeepsInv(s: State, r: nat, id: nat, secret: nat, expiresAt: Time)
    requires Inv(s) && Enabled(s, Insert(r, id, secret, expiresAt))
    ensures Inv(Inserted(s, r, id, secret, expiresAt))
  {
    InsertedKeepsRows(s, r, id, secret, expiresAt);
    assert RequestOk(s, r);
    OthersStayAttributed(s, Inserted(s, r, id, secret, expiresAt), r);
    InsertedMovesTip(s, r, id, secret, expiresAt);
  }

  lemma InsertedKeepsRows(s: State, r: nat, id: nat, secret: nat, expiresAt: Time)
    requires RowsMatchLog(s) && s.spent.Keys <= s.log.Keys && Enabled(s, Insert(r, id, secret, expiresAt))
    ensures RowsMatchLog(Inserted(s, r, id, secret, expiresAt))
  {
    var n := Inserted(s, r, id, secret, expiresAt);
    forall t | t in n.rows ensures RowOk(n, t) { assert t in s.rows ==> RowOk(s, t); }
  }

  lemma InsertedMovesTip(s: State, r: nat, id: nat, secret: nat, expiresAt: Time)
    requires OneTip(s) && s.spent.Keys <= s.log.Keys && Enabled(s, Insert(r, id, secret, expiresAt))
    ensures OneTip(Inserted(s, r, id, secret, expiresAt))
  {
    var family := s.reqs[r].family;
    assert IsTip(s, family, IssueInFlight(r));
    MovesTip(s, Inserted(s, r, id, secret, expiresAt), family, UnusedToken(id));
  }

  lemma WonKeepsInv(s: State, r: nat, now: Time, answered: bool)
    requires Inv(s) && r in s.reqs && s.reqs[r].Marking? && CanMark(s.rows, s.reqs[r].id)
    ensures Inv(Won(s, r, now, answered))
  {
    assert RequestOk(s, r) && RowOk(s, s.reqs[r].id) && TokenOk(s, s.reqs[r].id);
    WonKeepsRows(s, r, now, answered);
    OthersStayAttributed(s, Won(s, r, now, answered), r);
    WonMovesTip(s, r, now, answered);
  }

  lemma WonKeepsRows(s: State, r: nat, now: Time, answered: bool)
    requires RowsMatchLog(s) && r in s.reqs && s.reqs[r].Marking? && CanMark(s.rows, s.reqs[r].id)
    ensures RowsMatchLog(Won(s, r, now, answered))
  {
    var n := Won(s, r, now, answered);
    forall id | id in n.rows ensures RowOk(n, id) { assert RowOk(s, id); }
  }

  lemma WonMovesTip(s: State, r: nat, now: Time, answered: bool)
    requires OneTip(s) && r in s.reqs && s.reqs[r].Marking? && CanMark(s.rows, s.reqs[r].id)
    requires IsTip(s, s.reqs[r].family, UnusedToken(s.reqs[r].id))
    ensures OneTip(Won(s, r, now, answered))
  {
    MovesTip(s, Won(s, r, now, answered), s.reqs[r].family, if answered then IssueInFlight(r) else IssueLost(r));
  }

  lemma LookupFindsLogged(s: State, q: Request)
    requires RowsMatchLog(s) && q.Presenting?
    ensures AfterLookup(s, q).Marking? ==>
      var m := AfterLookup(s, q);
      m.id in s.rows && m.id in s.log && s.log[m.id].family == m.family && s.log[m.id].secret == q.secret
        && s.log[m.id].user == m.user
  {
    forall id | id in s.rows ensures RowOk(s, id) {}
  }

  lemma KeepsInv(s: State, step: Step)
    requires Inv(s) && Enabled(s, step)
    ensures Inv(Next(s, step))
  {
    match step
    case Start(r, user, family) => StartedKeepsInv(s, r, user, family);
    case Mark(r, now, answered) =>
      var q := s.reqs[r];
      if CanMark(s.rows, q.id) {
        WonKeepsInv(s, r, now, answered);
      } else {
        MovedKeepsInv(s, r, Revoking(q.secret, LostRace, q.family));
      }
    case Insert(r, id, secret, expiresAt) => InsertedKeepsInv(s, r, id, secret, expiresAt);
    case Abandon(r) => DroppedKeepsInv(s, r);
    case RevokeFamily(r) => RevocationKeepsInv(s, r);
    case RevokeAll(user) => RowsKeepInv(s, s.(rows := UserRevoked(s.rows, user)));
    case Sweep(now) => RowsKeepInv(s, s.(rows := Swept(s.rows, now)));
    case _ => QuietKeepsInv(s, step);
  }

  lemma RevocationKeepsInv(s: State, r: nat)
    requires Inv(s) && Enabled(s, RevokeFamily(r))
    ensures Inv(Next(s, RevokeFamily(r)))
  {
    var q := s.reqs[r];
    var to := if q.Revoking? then Refused(q.secret) else LoggedOut;
    MovedKeepsInv(s, r, to);
    RowsKeepInv(Moved(s, r, to), Next(s, RevokeFamily(r)));
  }

  lemma QuietKeepsInv(s: State, step: Step)
    requires Inv(s) && Enabled(s, step)
    requires step.Present? || step.Lookup? || step.Fail? || step.BeginLogout? || step.LogoutLookup?
    ensures Inv(Next(s, step))
  {
    if step.Lookup? {
      LookupFindsLogged(s, s.reqs[step.r]);
    }
    MovedKeepsInv(s, step.r, Next(s, step).reqs[step.r]);
  }

  lemma SameTips(s: State, n: State)
    requires OneTip(s) && n.tip == s.tip && n.log == s.log && n.spent == s.spent
    requires forall r ::
      r in s.reqs && (s.reqs[r].Issuing? || s.reqs[r].Abandoned?) ==> r in n.reqs && n.reqs[r] == s.reqs[r]
    requires forall r ::
      r in n.reqs && (n.reqs[r].Issuing? || n.reqs[r].Abandoned?) ==> r in s.reqs && n.reqs[r] == s.reqs[r]
    ensures OneTip(n)
  {
    forall family, tip
      ensures IsTip(n, family, tip) <==> family in n.tip && n.tip[family] == tip
    {
      assert IsTip(s, family, tip) == IsTip(n, family, tip);
    }
  }

  /** One family's chain end moves; the others keep theirs. */
  lemma MovesTip(s: State, n: State, moved: nat, to: Tip)
    requires OneTip(s) && n.tip == s.tip[moved := to]
    requires IsTip(n, moved, to)
    requires forall tip :: IsTip(n, moved, tip) ==> tip == to || (IsTip(s, moved, tip) && tip != s.tip[moved])
    requires forall family, tip :: family != moved ==> (IsTip(n, family, tip) <==> IsTip(s, family, tip))
    ensures OneTip(n)
  {
  }

  // ----- runs

  lemma {:induction false} RunKeepsInv(s: State, steps: seq<Step>)
    requires Inv(s) && Valid(s, steps)
    ensures Inv(After(s, steps))
    decreases |steps|
  {
    if steps != [] {
      KeepsInv(s, steps[0]);
      RunKeepsInv(Next(s, steps[0]), steps[1..]);
    }
  }

  lemma EveryRunKeepsInv(steps: seq<Step>)
    requires Valid(Empty, steps)
    ensures Inv(After(Empty, steps))
  {
    RunKeepsInv(Empty, steps);
  }

  /** Some issue of this family holds a permit to insert: it has started, or won its mark_used. */
  ghost predicate InFlight(s: State, family: nat) {
    exists r :: r in s.reqs && s.reqs[r].Issuing? && s.reqs[r].family == family
  }

  /** At every moment of every run, a family has at most one row that a redemption could still
      win, at most one request on its way to inserting, and never both. */
  lemma OneLiveTokenOrIssue(steps: seq<Step>, family: nat)
    requires Valid(Empty, steps)
    ensures var s := After(Empty, steps);
      && (forall a, b ::
        CanMark(s.rows, a) && CanMark(s.rows, b) && s.rows[a].family == family == s.rows[b].family ==> a == b)
      && (forall p, q | p in s.reqs && q in s.reqs && s.reqs[p].Issuing? && s.reqs[q].Issuing? ::
            s.reqs[p].family == family == s.reqs[q].family ==> p == q)
      && (InFlight(s, family) ==> forall id :: CanMark(s.rows, id) ==> s.rows[id].family != family)
  {
    var s := After(Empty, steps);
    EveryRunKeepsInv(steps);
    forall id | CanMark(s.rows, id) && s.rows[id].family == family
      ensures IsTip(s, family, UnusedToken(id))
    {
      assert RowOk(s, id);
    }
    forall r | r in s.reqs && s.reqs[r].Issuing? && s.reqs[r].family == family
      ensures IsTip(s, family, IssueInFlight(r))
    {
    }
  }

  // ----- conservation

  function InsertedOf(s: State, family: nat): set<nat> {
    set id | id in s.log && s.log[id].family == family
  }

  function UsedOf(s: State, family: nat): set<nat> {
    set id | id in s.log && s.log[id].family == family && id in s.spent
  }

  function InFlightOf(s: State, family: nat): set<nat> {
    set r | r in s.reqs && s.reqs[r].Issuing? && s.reqs[r].family == family
  }

  function AbandonedOf(s: State, family: nat): set<nat> {
    set r | r in s.reqs && s.reqs[r].Abandoned? && s.reqs[r].family == family
  }

  /** Nothing is minted out of thin air: in a started family, tokens ever inserted, issues in
      flight and issues abandoned together number one more than tokens ever marked used. */
  lemma Conservation(steps: seq<Step>, family: nat)
    requires Valid(Empty, steps) && family in After(Empty, steps).tip
    ensures var s := After(Empty, steps);
      |InsertedOf(s, family)| + |InFlightOf(s, family)| + |AbandonedOf(s, family)| == 1 + |UsedOf(s, family)|
  {
    var s := After(Empty, steps);
    EveryRunKeepsInv(steps);
    assert UsedOf(s, family) <= InsertedOf(s, family);
    assert |InsertedOf(s, family)| == |UsedOf(s, family)| + |InsertedOf(s, family) - UsedOf(s, family)|;
    ChainEndIsSingle(s, family, s.tip[family]);
  }

  lemma ChainEndIsSingle(s: State, family: nat, tip: Tip)
    requires OneTip(s) && family in s.tip && s.tip[family] == tip
    ensures InsertedOf(s, family) - UsedOf(s, family) == if tip.UnusedToken? then {tip.id} else {}
    ensures InFlightOf(s, family) == if tip.IssueInFlight? then {tip.request} else {}
    ensures AbandonedOf(s, family) == if tip.IssueLost? then {tip.request} else {}
  {
    assert IsTip(s, family, tip);
    forall id | id in InsertedOf(s, family) - UsedOf(s, family) ensures tip == UnusedToken(id) {
      assert IsTip(s, family, UnusedToken(id));
    }
    forall r | r in InFlightOf(s, family) ensures tip == IssueInFlight(r) {
      assert IsTip(s, family, IssueInFlight(r));
    }
    forall r | r in AbandonedOf(s, family) ensures tip == IssueLost(r) {
      assert IsTip(s, family, IssueLost(r));
    }
  }

  /** However requests interleave, a token is redeemed at most once and has at most one
      successor, which stays in its family. */
  lemma OneRedemptionOneSuccessor(steps: seq<Step>, token: nat)
    requires Valid(Empty, steps)
    ensures var s := After(Empty, steps);
      && (forall p, q :: p in s.reqs && q in s.reqs && WonBy(s.reqs[p]) == Some(token) == WonBy(s.reqs[q]) ==> p == q)
      && (forall a, b | a in s.log && b in s.log && s.log[a].parent.Redeemed? && s.log[b].parent.Redeemed? ::
            s.log[a].parent.id == token == s.log[b].parent.id ==> a == b)
      && (forall a :: a in s.log && s.log[a].parent.Redeemed? && s.log[a].parent.id == token ==>
            token in s.log && token in s.spent && s.log[token].family == s.log[a].family)
  {
    var s := After(Empty, steps);
    EveryRunKeepsInv(steps);
    forall r | r in s.reqs && WonBy(s.reqs[r]) == Some(token)
      ensures token in s.spent && s.spent[token] == r && token in s.log && s.log[token].family == s.reqs[r].family
    {
      assert RequestOk(s, r);
    }
    forall a | a in s.log && s.log[a].parent.Redeemed? && s.log[a].parent.id == token
      ensures s.log[a].issuer in s.reqs
        && s.reqs[s.log[a].issuer] == Issued(s.log[a].family, s.log[a].parent, a, s.log[a].secret)
      ensures WonBy(s.reqs[s.log[a].issuer]) == Some(token)
    {
      assert TokenOk(s, a);
    }
  }

  // ----- what revocation achieves

  ghost predicate AllRevoked(s: State, family: nat) {
    forall id :: id in s.rows && s.rows[id].family == family ==> s.rows[id].revoked
  }

  /** No row of the family can be won and nobody is about to insert one. */
  ghost predicate Dead(s: State, family: nat) {
    family in s.tip && AllRevoked(s, family) && !InFlight(s, family)
  }

  lemma DeadStaysDead(s: State, step: Step, family: nat)
    requires Inv(s) && Enabled(s, step) && Dead(s, family)
    ensures Dead(Next(s, step), family)
    ensures UsedOf(Next(s, step), family) == UsedOf(s, family)
  {
    var n := Next(s, step);
    if step.Mark? {
      assert RequestOk(s, step.r);
      if CanMark(s.rows, s.reqs[step.r].id) {
        assert RowOk(s, s.reqs[step.r].id);
      }
    }
    if step.Insert? {
      assert s.reqs[step.r].family != family;
      assert s.spent.Keys <= s.log.Keys;
    }
  }

  /** No continuation of a dead family's run ever redeems a token of it. */
  lemma {:induction false} DeadForever(s: State, steps: seq<Step>, family: nat)
    requires Inv(s) && Dead(s, family) && Valid(s, steps)
    ensures Dead(After(s, steps), family)
    ensures UsedOf(After(s, steps), family) == UsedOf(s, family)
    decreases |steps|
  {
    if steps != [] {
      KeepsInv(s, steps[0]);
      DeadStaysDead(s, steps[0], family);
      DeadForever(Next(s, steps[0]), steps[1..], family);
    }
  }

  // ----- losing the race for a token

  /** The steps that are this request's own store calls. */
  predicate IsCallOf(step: Step, r: nat) {
    match step
    case Lookup(p) => p == r
    case Mark(p, _, _) => p == r
    case Insert(p, _, _, _) => p == r
    case RevokeFamily(p) => p == r
    case LogoutLookup(p) => p == r
    case _ => false
  }

  /** A request is moved only by its own calls, by failing or by being abandoned. */
  lemma OthersLeaveRequestAlone(s: State, step: Step, r: nat)
    requires r in s.reqs && Enabled(s, step) && !IsCallOf(step, r) && step != Fail(r) && step != Abandon(r)
    ensures r in Next(s, step).reqs && Next(s, step).reqs[r] == s.reqs[r]
  {
  }

  /** A request that asks to mark a token which is already used or revoked changes no row; its only
      next call is to revoke the token's family, and then it is refused. */
  lemma LostRaceRevokesNext(s: State, r: nat, now: Time, answered: bool)
    requires r in s.reqs && s.reqs[r].Marking? && !CanMark(s.rows, s.reqs[r].id)
    ensures var n := Next(s, Mark(r, now, answered));
      && n.rows == s.rows && r in n.reqs && n.reqs[r].Revoking? && n.reqs[r].family == s.reqs[r].family
      && forall step | IsCallOf(step, r) :: Enabled(n, step) <==> step == RevokeFamily(r)
    ensures Next(Next(s, Mark(r, now, answered)), RevokeFamily(r)).reqs[r] == Refused(s.reqs[r].secret)
  {
  }

  /** Whenever that call comes, it leaves every row of the family revoked, and the family dead unless
      an issue of it is in flight. */
  lemma LostRaceEndsFamily(s: State, r: nat)
    requires Inv(s) && r in s.reqs && s.reqs[r].Revoking? && s.reqs[r].family in s.tip
    ensures var (family, n) := (s.reqs[r].family, Next(s, RevokeFamily(r)));
      AllRevoked(n, family) && (!InFlight(s, family) ==> Dead(n, family))
  {
    RevocationRevokesAll(s, RevokeFamily(r), s.reqs[r].family);
  }

  /** Both together, from the moment the race is lost. */
  lemma ALostRaceIsTreatedAsReuse(s: State, r: nat, now: Time, answered: bool)
    requires Inv(s) && r in s.reqs && s.reqs[r].Marking? && !CanMark(s.rows, s.reqs[r].id)
    ensures var (family, mark) := (s.reqs[r].family, Mark(r, now, answered));
      var n := Next(Next(s, mark), RevokeFamily(r));
      && Valid(s, [mark, RevokeFamily(r)]) && After(s, [mark, RevokeFamily(r)]) == n
      && AllRevoked(n, family) && (!InFlight(s, family) ==> Dead(n, family)) && n.reqs[r] == Refused(s.reqs[r].secret)
  {
    var mark := Mark(r, now, answered);
    LostRaceRevokesNext(s, r, now, answered);
    KeepsInv(s, mark);
    assert RequestOk(s, r) && TokenOk(s, s.reqs[r].id);
    LostRaceEndsFamily(Next(s, mark), r);
    TwoSteps(s, mark, RevokeFamily(r));
  }

  // ----- when a session can still be used

  /** A step taken at this instant: a request reads its clock when it arrives, and a token is given
      at most the lifetime `ttl` from now. */
  predicate TakenAt(step: Step, at: Time, ttl: Time) {
    match step
    case Present(_, _, now) => now == at
    case Mark(_, now, _) => now <= at
    case Insert(_, _, _, expiresAt) => expiresAt <= at + ttl
    case Sweep(now) => now <= at
    case _ => true
  }

  /** The steps are taken at these instants, from `t` on, under a clock that never goes back. */
  predicate From(t: Time, steps: seq<Step>, at: seq<Time>, ttl: Time)
    decreases |steps|
  {
    && |at| == |steps|
    && (steps == [] || (t <= at[0] && TakenAt(steps[0], at[0], ttl) && From(at[0], steps[1..], at[1..], ttl)))
  }

  ghost predicate Redeems(s: State, family: nat, t: Time, ttl: Time, steps: seq<Step>, at: seq<Time>) {
    Valid(s, steps) && From(t, steps, at, ttl) && UsedOf(After(s, steps), family) != UsedOf(s, family)
  }

  /** Some continuation from instant t on redeems a token of the family. */
  ghost predicate RedeemableFrom(s: State, family: nat, t: Time, ttl: Time) {
    exists steps, at :: Redeems(s, family, t, ttl, steps, at)
  }

  predicate Winnable(s: State, family: nat, id: nat) {
    CanMark(s.rows, id) && s.rows[id].family == family
  }

  /** A request that arrived before this row expired and has not yet been refused it. */
  predicate Pursues(s: State, r: nat, id: nat) {
    && r in s.reqs && id in s.rows
    && match s.reqs[r]
       case Presenting(secret, now) => s.rows[id].tokenHash == DigestOf(secret) && now < s.rows[id].expiresAt
       case Marking(_, target, _, _) => target == id
       case _ => false
  }

  /** An issue in flight, or a winnable row that has not expired or that some request pursues. */
  ghost predicate Open(s: State, family: nat, t: Time, ttl: Time) {
    || (ttl > 0 && InFlight(s, family))
    || (exists id :: Winnable(s, family, id) && s.rows[id].expiresAt > t)
    || (exists r, id :: Winnable(s, family, id) && Pursues(s, r, id))
  }

  lemma NothingWon(s: State, step: Step, family: nat)
    requires Inv(s) && Enabled(s, step) && family in s.tip
    requires forall r, id :: Winnable(s, family, id) ==> !Pursues(s, r, id)
    ensures family in Next(s, step).tip && UsedOf(Next(s, step), family) == UsedOf(s, family)
  {
    if step.Mark? && CanMark(s.rows, s.reqs[step.r].id) {
      assert RequestOk(s, step.r) && RowOk(s, s.reqs[step.r].id);
      assert Pursues(s, step.r, s.reqs[step.r].id);
    }
    if step.Insert? {
      assert s.spent.Keys <= s.log.Keys;
    }
  }

  lemma NoNewRow(s: State, step: Step, family: nat, at: Time, ttl: Time, id: nat)
    requires Inv(s) && Enabled(s, step) && Winnable(Next(s, step), family, id) && TakenAt(step, at, ttl)
    ensures
      || (Winnable(s, family, id) && Next(s, step).rows[id].expiresAt == s.rows[id].expiresAt
          && Next(s, step).rows[id].tokenHash == s.rows[id].tokenHash)
      || (step.Insert? && InFlight(s, family) && id == step.id && id !in s.log && id !in s.rows
          && Next(s, step).rows[id].expiresAt <= at + ttl && Next(s, step).rows[id].tokenHash == DigestOf(step.secret))
  {
    if step.Insert? && id == step.id {
      assert id in s.rows ==> RowOk(s, id);
    }
  }

  lemma NoNewFlight(s: State, step: Step, family: nat)
    requires Inv(s) && Enabled(s, step) && family in s.tip && !InFlight(s, family)
    requires forall r, id :: Winnable(s, family, id) ==> !Pursues(s, r, id)
    ensures !InFlight(Next(s, step), family)
  {
    if step.Mark? && CanMark(s.rows, s.reqs[step.r].id) {
      assert RequestOk(s, step.r) && RowOk(s, s.reqs[step.r].id);
      assert Pursues(s, step.r, s.reqs[step.r].id);
    }
  }

  /** Nobody starts to pursue a row that was there and has expired. */
  lemma NoNewPursuit(s: State, step: Step, family: nat, at: Time, ttl: Time, r: nat, id: nat)
    requires Inv(s) && Enabled(s, step) && TakenAt(step, at, ttl)
    requires Winnable(s, family, id) && s.rows[id].expiresAt <= at && !Pursues(s, r, id)
    requires Winnable(Next(s, step), family, id)
    ensures !Pursues(Next(s, step), r, id)
  {
    if step.Lookup? && step.r == r && AfterLookup(s, s.reqs[r]).Marking? {
      RowsAreWellFormed(s);
      assert RowOk(s, id);
    }
  }

  lemma FreshRowUnpursued(s: State, step: Step, r: nat)
    requires Inv(s) && step.Insert? && Enabled(s, step) && step.id !in s.log
    ensures !Pursues(Next(s, step), r, step.id)
  {
    assert r in s.reqs ==> RequestOk(s, r);
  }

  lemma ClosedStaysClosed(s: State, step: Step, family: nat, t: Time, at: Time, ttl: Time)
    requires Inv(s) && Enabled(s, step) && family in s.tip && !Open(s, family, t, ttl) && t <= at
      && TakenAt(step, at, ttl)
    ensures family in Next(s, step).tip && !Open(Next(s, step), family, at, ttl)
    ensures UsedOf(Next(s, step), family) == UsedOf(s, family)
  {
    var n := Next(s, step);
    NothingWon(s, step, family);
    if ttl > 0 {
      NoNewFlight(s, step, family);
    }
    forall id | Winnable(n, family, id)
      ensures n.rows[id].expiresAt <= at && forall r :: !Pursues(n, r, id)
    {
      NoNewRow(s, step, family, at, ttl, id);
      if Winnable(s, family, id) {
        forall r ensures !Pursues(n, r, id) { NoNewPursuit(s, step, family, at, ttl, r, id); }
      } else {
        forall r ensures !Pursues(n, r, id) { FreshRowUnpursued(s, step, r); }
      }
    }
  }

  lemma {:induction false} ClosedForever(s: State, steps: seq<Step>, at: seq<Time>, family: nat, t: Time, ttl: Time)
    requires Inv(s) && Valid(s, steps) && From(t, steps, at, ttl) && family in s.tip && !Open(s, family, t, ttl)
    ensures UsedOf(After(s, steps), family) == UsedOf(s, family)
    decreases |steps|
  {
    if steps != [] {
      KeepsInv(s, steps[0]);
      ClosedStaysClosed(s, steps[0], family, t, at[0], ttl);
      ClosedForever(Next(s, steps[0]), steps[1..], at[1..], family, at[0], ttl);
    }
  }

  /** The whole truth about a session's future from instant t on: some continuation redeems a token
      of the family exactly when an issue of it is in flight, or an unused unrevoked row is stored
      that has not expired, or one that a request pursues which arrived before it expired. */
  lemma RedeemableIff(s: State, family: nat, t: Time, ttl: Time)
    requires Inv(s) && family in s.tip
    ensures RedeemableFrom(s, family, t, ttl) <==> Open(s, family, t, ttl)
  {
    if ttl > 0 && InFlight(s, family) {
      var r :| r in s.reqs && s.reqs[r].Issuing? && s.reqs[r].family == family;
      InFlightIssueCanBeRedeemed(s, r, t, ttl);
    } else if id :| Winnable(s, family, id) && s.rows[id].expiresAt > t {
      var p := FreshExists(s.reqs.Keys);
      FreshTokenIsRedeemed(s, id, p, t, ttl);
    } else if r, id :| Winnable(s, family, id) && Pursues(s, r, id) {
      PursuerCanWin(s, r, id, t, ttl);
    } else if RedeemableFrom(s, family, t, ttl) {
      var steps, at :| Redeems(s, family, t, ttl, steps, at);
      ClosedForever(s, steps, at, family, t, ttl);
    }
  }

  /** A request that wins its token and then inserts nothing, because the account turned out
      locked, a store call failed or its reply was lost, ends the session for good. */
  lemma AbandonedIssueEndsFamily(s: State, r: nat, t: Time, ttl: Time)
    requires Inv(s) && r in s.reqs && s.reqs[r].Abandoned?
    ensures s.reqs[r].family in s.tip && !RedeemableFrom(s, s.reqs[r].family, t, ttl)
  {
    var family := s.reqs[r].family;
    assert IsTip(s, family, IssueLost(r));
    forall id | Winnable(s, family, id) ensures IsTip(s, family, UnusedToken(id)) {
      assert RowOk(s, id);
    }
    assert forall q | q in s.reqs && s.reqs[q].Issuing? && s.reqs[q].family == family ::
      IsTip(s, family, IssueInFlight(q));
    RedeemableIff(s, family, t, ttl);
  }

  /** The store calls that revoke leave every row of the family revoked. */
  lemma RevocationRevokesAll(s: State, step: Step, family: nat)
    requires Inv(s) && Enabled(s, step)
    requires match step
      case RevokeFamily(r) => s.reqs[r].family == family
      case RevokeAll(user) => forall id :: id in s.log && s.log[id].family == family ==> s.log[id].user == user
      case _ => false
    ensures AllRevoked(Next(s, step), family)
  {
    forall id | id in s.rows ensures RowOk(s, id) {}
  }

  /** A revoked family can be redeemed again exactly when an issue of it was in flight: that
      issue inserts a row the revocation never saw. */
  lemma RevocationIsFinalUnlessInFlight(s: State, family: nat, t: Time, ttl: Time)
    requires Inv(s) && family in s.tip && AllRevoked(s, family)
    ensures RedeemableFrom(s, family, t, ttl) <==> ttl > 0 && InFlight(s, family)
  {
    RedeemableIff(s, family, t, ttl);
  }

  // The runs that redeem.

  /** A run that takes one step and goes on. */
  lemma StepThen(s: State, step: Step, rest: seq<Step>)
    requires Enabled(s, step) && Valid(Next(s, step), rest)
    ensures Valid(s, [step] + rest) && After(s, [step] + rest) == After(Next(s, step), rest)
  {
    assert ([step] + rest)[1..] == rest;
  }

  lemma FromThen(t: Time, step: Step, rest: seq<Step>, at: seq<Time>, ttl: Time)
    requires TakenAt(step, t, ttl) && From(t, rest, at, ttl)
    ensures From(t, [step] + rest, [t] + at, ttl)
  {
    assert ([step] + rest)[1..] == rest && ([t] + at)[1..] == at;
  }

  lemma OneStep(s: State, a: Step)
    requires Enabled(s, a)
    ensures Valid(s, [a]) && After(s, [a]) == Next(s, a)
  {
    StepThen(s, a, []);
    assert [a] + [] == [a];
  }

  lemma TwoSteps(s: State, a: Step, b: Step)
    requires Enabled(s, a) && Enabled(Next(s, a), b)
    ensures Valid(s, [a, b]) && After(s, [a, b]) == Next(Next(s, a), b)
  {
    OneStep(Next(s, a), b);
    StepThen(s, a, [b]);
    assert [a] + [b] == [a, b];
  }

  lemma ThreeSteps(s: State, a: Step, b: Step, c: Step)
    requires Enabled(s, a) && Enabled(Next(s, a), b) && Enabled(Next(Next(s, a), b), c)
    ensures Valid(s, [a, b, c]) && After(s, [a, b, c]) == Next(Next(Next(s, a), b), c)
  {
    TwoSteps(Next(s, a), b, c);
    StepThen(s, a, [b, c]);
    assert [a] + [b, c] == [a, b, c];
  }

  /** A request that looks up a usable row goes on to mark it. */
  lemma LookupFinds(s: State, r: nat, id: nat)
    requires Inv(s) && r in s.reqs && s.reqs[r].Presenting? && CanMark(s.rows, id) && Pursues(s, r, id)
    ensures AfterLookup(s, s.reqs[r]) == Marking(s.reqs[r].secret, id, s.rows[id].userId, s.rows[id].family)
  {
    RowsAreWellFormed(s);
    assert RowOk(s, id);
  }

  lemma MarkRedeems(s: State, r: nat, id: nat, now: Time)
    requires Inv(s) && CanMark(s.rows, id) && r in s.reqs && s.reqs[r].Marking? && s.reqs[r].id == id
    ensures id in UsedOf(Next(s, Mark(r, now, true)), s.rows[id].family) && id !in UsedOf(s, s.rows[id].family)
  {
    assert RowOk(s, id);
  }

  lemma PursuerCanWin(s: State, r: nat, id: nat, t: Time, ttl: Time)
    requires Inv(s) && CanMark(s.rows, id) && Pursues(s, r, id)
    ensures RedeemableFrom(s, s.rows[id].family, t, ttl)
  {
    var family := s.rows[id].family;
    var look, mark := Lookup(r), Mark(r, t, true);
    FromThen(t, mark, [], [], ttl);
    assert [mark] + [] == [mark] && [t] + [] == [t];
    if s.reqs[r].Marking? {
      OneStep(s, mark);
      MarkRedeems(s, r, id, t);
      assert Redeems(s, family, t, ttl, [mark], [t]);
    } else {
      LookupFinds(s, r, id);
      KeepsInv(s, look);
      MarkRedeems(Next(s, look), r, id, t);
      TwoSteps(s, look, mark);
      FromThen(t, look, [mark], [t], ttl);
      assert [look] + [mark] == [look, mark] && [t] + [t] == [t, t];
      assert Redeems(s, family, t, ttl, [look, mark], [t, t]);
    }
  }

  /** A step that redeems nothing, taken first. */
  lemma RedeemsLater(s: State, step: Step, family: nat, t: Time, ttl: Time)
    requires Enabled(s, step) && TakenAt(step, t, ttl) && UsedOf(Next(s, step), family) == UsedOf(s, family)
    requires RedeemableFrom(Next(s, step), family, t, ttl)
    ensures RedeemableFrom(s, family, t, ttl)
  {
    var steps, at :| Redeems(Next(s, step), family, t, ttl, steps, at);
    StepThen(s, step, steps);
    FromThen(t, step, steps, at, ttl);
    assert Redeems(s, family, t, ttl, [step] + steps, [t] + at);
  }

  lemma ThreeFrom(t: Time, a: Step, b: Step, c: Step, ttl: Time)
    requires TakenAt(a, t, ttl) && TakenAt(b, t, ttl) && TakenAt(c, t, ttl)
    ensures From(t, [a, b, c], [t, t, t], ttl)
  {
    FromThen(t, c, [], [], ttl);
    FromThen(t, b, [c], [t], ttl);
    FromThen(t, a, [b, c], [t, t], ttl);
    assert [c] + [] == [c] && [b] + [c] == [b, c] && [a] + [b, c] == [a, b, c];
    assert [t] + [] == [t] && [t] + [t] == [t, t] && [t] + [t, t] == [t, t, t];
  }

  /** A stored usable token, presented at t by a request that runs alone, is redeemed by it. */
  lemma FreshTokenIsRedeemed(s: State, id: nat, p: nat, t: Time, ttl: Time)
    requires Inv(s) && id in s.rows && s.rows[id].IsUsableAt(t) && p !in s.reqs
    ensures var steps := [Present(p, s.rows[id].tokenHash.secret, t), Lookup(p), Mark(p, t, true)];
      Valid(s, steps) && From(t, steps, [t, t, t], ttl) && id in UsedOf(After(s, steps), s.rows[id].family)
    ensures RedeemableFrom(s, s.rows[id].family, t, ttl)
  {
    var family := s.rows[id].family;
    var present, look, mark := Present(p, s.rows[id].tokenHash.secret, t), Lookup(p), Mark(p, t, true);
    KeepsInv(s, present);
    var s1 := Next(s, present);
    assert Pursues(s1, p, id);
    LookupFinds(s1, p, id);
    KeepsInv(s1, look);
    MarkRedeems(Next(s1, look), p, id, t);
    ThreeSteps(s, present, look, mark);
    ThreeFrom(t, present, look, mark, ttl);
    var steps := [present, look, mark];
    assert id !in UsedOf(s, family) by { assert RowOk(s, id); }
    assert Redeems(s, family, t, ttl, steps, [t, t, t]);
  }

  lemma FreshSecretExists(s: State) returns (secret: nat)
    ensures forall t :: t in s.log ==> s.log[t].secret != secret
    ensures forall q :: q in s.reqs ==> PresentedBy(s.reqs[q]) != Some(secret)
  {
    var logged := set k | k in s.log :: s.log[k].secret;
    var presented := set q | q in s.reqs && PresentedBy(s.reqs[q]).Some? :: PresentedBy(s.reqs[q]).value;
    secret := FreshExists(logged + presented);
  }

  /** An issue in flight, at t and with the lifetime it really gives, inserts a token that can be
      redeemed: whatever has been revoked in the meantime. */
  lemma InFlightIssueCanBeRedeemed(s: State, r: nat, t: Time, ttl: Time)
    requires Inv(s) && r in s.reqs && s.reqs[r].Issuing? && ttl > 0
    ensures RedeemableFrom(s, s.reqs[r].family, t, ttl)
  {
    var family := s.reqs[r].family;
    var id := FreshExists(s.log.Keys);
    var secret := FreshSecretExists(s);
    var insert := Insert(r, id, secret, t + ttl);
    KeepsInv(s, insert);
    var n := Next(s, insert);
    var p := FreshExists(n.reqs.Keys);
    FreshTokenIsRedeemed(n, id, p, t, ttl);
    assert s.spent.Keys <= s.log.Keys;
    RedeemsLater(s, insert, family, t, ttl);
  }

  // The run that survives a revocation, from the beginning.

  lemma {:induction false} RunsJoin(s: State, a: seq<Step>, b: seq<Step>)
    requires Valid(s, a) && Valid(After(s, a), b)
    ensures Valid(s, a + b) && After(s, a + b) == After(After(s, a), b)
    decreases |a|
  {
    if a == [] {
      assert a + b == b;
    } else {
      RunsJoin(Next(s, a[0]), a[1..], b);
      assert (a + b)[1..] == a[1..] + b;
    }
  }

  /** What presenting a usable token alone, up to mark_used, makes of the history. */
  lemma WinningRun(s: State, id: nat, p: nat, now: Time)
    requires Inv(s) && id in s.rows && s.rows[id].IsUsableAt(now) && p !in s.reqs
    ensures var row := s.rows[id];
      var steps := [Present(p, row.tokenHash.secret, now), Lookup(p), Mark(p, now, true)];
      && Valid(s, steps)
      && var n := After(s, steps);
      && Inv(n) && n.log == s.log && n.spent == s.spent[id := p]
      && n.reqs == s.reqs[p := Issuing(row.userId, row.family, Redeemed(row.tokenHash.secret, id))]
  {
    var row := s.rows[id];
    var present, look, mark := Present(p, row.tokenHash.secret, now), Lookup(p), Mark(p, now, true);
    KeepsInv(s, present);
    var s1 := Next(s, present);
    assert Pursues(s1, p, id);
    LookupFinds(s1, p, id);
    KeepsInv(s1, look);
    KeepsInv(Next(s1, look), mark);
    ThreeSteps(s, present, look, mark);
  }

  const LogIn: seq<Step> := [Start(0, 7, 1), Insert(0, 5, 9, 100)]

  lemma LoggedIn() returns (s: State)
    ensures Valid(Empty, LogIn) && After(Empty, LogIn) == s && Inv(s)
    ensures s.rows == map[5 := Record(5, 7, DigestOf(9), 1, 100, None, false)]
    ensures s.log == map[5 := Logged(1, 7, 9, Login, 0)] && s.spent == map[]
      && s.reqs == map[0 := Issued(1, Login, 5, 9)]
  {
    var start, insert := Start(0, 7, 1), Insert(0, 5, 9, 100);
    KeepsInv(Empty, start);
    var s1 := Next(Empty, start);
    KeepsInv(s1, insert);
    TwoSteps(Empty, start, insert);
    s := Next(s1, insert);
  }

  /** A refresh wins the token, and then all of the user's sessions are revoked. */
  const WinAndRevoke: seq<Step> := [Present(1, 9, 0), Lookup(1), Mark(1, 0, true), RevokeAll(7)]

  lemma RevokedInFlight() returns (s: State)
    ensures Valid(Empty, LogIn + WinAndRevoke) && After(Empty, LogIn + WinAndRevoke) == s && Inv(s)
    ensures AllRevoked(s, 1) && s.spent == map[5 := 1] && s.log == map[5 := Logged(1, 7, 9, Login, 0)]
    ensures s.reqs == map[0 := Issued(1, Login, 5, 9), 1 := Issuing(7, 1, Redeemed(9, 5))]
  {
    var s0 := LoggedIn();
    WinningRun(s0, 5, 1, 0);
    var win := [Present(1, 9, 0), Lookup(1), Mark(1, 0, true)];
    var s1 := After(s0, win);
    OneStep(s1, RevokeAll(7));
    KeepsInv(s1, RevokeAll(7));
    RevocationRevokesAll(s1, RevokeAll(7), 1);
    RunsJoin(s0, win, [RevokeAll(7)]);
    assert win + [RevokeAll(7)] == WinAndRevoke;
    RunsJoin(Empty, LogIn, WinAndRevoke);
    s := Next(s1, RevokeAll(7));
  }

  /** The refresh still inserts its token, and somebody redeems it. */
  const InsertAndRedeem: seq<Step> := [Insert(1, 6, 10, 101), Present(2, 10, 1), Lookup(2), Mark(2, 1, true)]

  lemma InsertsAndRedeems(s: State)
    requires Inv(s) && s.spent == map[5 := 1] && s.log == map[5 := Logged(1, 7, 9, Login, 0)]
    requires s.reqs == map[0 := Issued(1, Login, 5, 9), 1 := Issuing(7, 1, Redeemed(9, 5))]
    ensures Valid(s, InsertAndRedeem)
    ensures After(s, InsertAndRedeem).spent == map[5 := 1, 6 := 2]
    ensures After(s, InsertAndRedeem).log == s.log[6 := Logged(1, 7, 10, Redeemed(9, 5), 1)]
  {
    var insert := Insert(1, 6, 10, 101);
    KeepsInv(s, insert);
    var n := Next(s, insert);
    WinningRun(n, 6, 2, 1);
    var rest := [Present(2, 10, 1), Lookup(2), Mark(2, 1, true)];
    StepThen(s, insert, rest);
    assert [insert] + rest == InsertAndRedeem;
  }

  /** A concrete run from the empty state: log in, refresh as far as mark_used, revoke all of the user's
      sessions, and the refresh still inserts a token, which is then redeemed. */
  lemma ARevokedSessionIsRedeemed()
    ensures Valid(Empty, LogIn + WinAndRevoke)
    ensures var revoked := After(Empty, LogIn + WinAndRevoke);
      && AllRevoked(revoked, 1) && Valid(revoked, InsertAndRedeem)
      && UsedOf(revoked, 1) == {5} && UsedOf(After(revoked, InsertAndRedeem), 1) == {5, 6}
  {
    var revoked := RevokedInFlight();
    InsertsAndRedeems(revoked);
  }

  /** Reuse is detected exactly while the spent row is stored: once swept, its replay is an
      ordinary refusal and revokes nothing. */
  lemma ReplayIsDetectedIffStored(s: State, id: nat, now: Time)
    requires Inv(s) && id in s.log && id in s.spent
    ensures var token := s.log[id];
      AfterLookup(s, Presenting(token.secret, now))
        == if id in s.rows then Revoking(token.secret, Reuse, token.family) else Refused(token.secret)
  {
    RowsAreWellFormed(s);
    forall t | t in s.rows ensures RowOk(s, t) {}
  }

  /** Presenting a spent token that is still stored, with nothing of the family in flight,
      kills the family: redeem takes the reuse branch. */
  lemma ReplayKillsFamily(s: State, id: nat, p: nat, now: Time)
    requires Inv(s) && id in s.rows && s.rows[id].usedAt.Some? && p !in s.reqs
    requires !InFlight(s, s.rows[id].family)
    ensures var family, secret := s.rows[id].family, s.rows[id].tokenHash.secret;
      var steps := [Present(p, secret, now), Lookup(p), RevokeFamily(p)];
      Valid(s, steps) && Dead(After(s, steps), family) && p in After(s, steps).reqs
        && After(s, steps).reqs[p] == Refused(secret)
  {
    var row := s.rows[id];
    RowsAreWellFormed(s);
    assert RowOk(s, id) && TokenOk(s, id);
    var a, b, c := Present(p, row.tokenHash.secret, now), Lookup(p), RevokeFamily(p);
    var s2 := Next(Next(s, a), b);
    KeepsInv(s, a);
    KeepsInv(Next(s, a), b);
    assert s2.reqs[p] == Revoking(row.tokenHash.secret, Reuse, row.family);
    RevocationRevokesAll(s2, c, row.family);
    ThreeSteps(s, a, b, c);
  }
}
