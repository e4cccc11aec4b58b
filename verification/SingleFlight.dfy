/** Client and server together: any number of processes share one session row and refresh it
    through the lease of examples/nextjs-blog/src/lib/session.ts, against the rotation machine.
    Every process step is one statement or one network event; the server's own steps, other
    users' requests, logouts and sweeps run in between. Instants are milliseconds. */
module SingleFlight {
  import opened Common
  import opened Credential
  import opened RefreshTokens
  import Rotation

  const LEASE_MS: Time := 10_000
  const SKEW_MS: Time := 30_000

  /** What the refresh call throws or returns (examples/nextjs-blog/src/lib/bastion.ts). */
  datatype Answer =
    | Pair(access: nat, refresh: nat, expiresAt: Time)
    | RateLimited
    | Unauthorized
    | Ambiguous
    | OtherFailure

  datatype Process =
    | Idle
    | Observed(gen: nat)
    | Stamped(gen: nat, at: Time)                                     // Date.now() read for the UPDATE
    | Leased(gen: nat, until: Time)                                   // UPDATE changed one row
    | Holding(gen: nat, until: Time, token: nat)                      // row read again
    | Sent(gen: nat, until: Time, token: nat, request: nat)           // inside Bastion
    | Got(gen: nat, until: Time, answer: Answer)
    | Waiting(gen: nat, deadline: Time)
    | Asleep(gen: nat, deadline: Time)
    | Returned(access: nat)
    | Threw

  datatype World = World(server: Rotation.State, row: Option<Row>, procs: map<nat, Process>, now: Time)

  datatype Step =
    | ReadRow(p: nat, forced: bool)       // accessTokenFor, or the forced retry of withAccessToken
    | Stamp(p: nat)
    | CompareAndSwap(p: nat)
    | ReadToken(p: nat)
    | Send(p: nat, r: nat)                // the refresh request reaches redeem
    | Bounce(p: nat, answer: Answer)      // it does not: limiter, other refusal, or lost on the way
    | Receive(p: nat, access: nat, expiresAt: Time)
    | LoseAnswer(p: nat)                  // timeout, dropped connection or 5xx after it arrived
    | Misreport(p: nat)                   // 408, or a 200 that does not decode, after it arrived
    | Resolve(p: nat)                     // commit, release or set the status
    | CommitThrows(p: nat)                // a good pair is not stored, and the catch-all releases
    | Crash(p: nat)                       // the holder dies, or its settling statement throws
    | Sleep(p: nat)
    | Poll(p: nat)
    | TimeOut(p: nat)
    | SignOut                             // the row is deleted
    | Server(step: Rotation.Step)
    | Tick(elapsed: nat)

  predicate HoldsLease(pc: Process) { pc.Leased? || pc.Holding? || pc.Sent? || pc.Got? }

  /** The secret belongs to a token of this session's family. */
  ghost predicate OfFamily(s: Rotation.State, family: nat, secret: nat) {
    exists id :: id in s.log && s.log[id].family == family && s.log[id].secret == secret
  }

  ghost predicate Unpresented(s: Rotation.State, secret: nat) {
    forall r :: r in s.reqs ==> Rotation.PresentedBy(s.reqs[r]) != Some(secret)
  }

  function Is(w: World, p: nat): Process {
    if p in w.procs then w.procs[p] else Threw
  }

  ghost predicate Enabled(w: World, family: nat, step: Step) {
    match step
    case ReadRow(p, _) => Is(w, p).Idle?
    case Stamp(p) => Is(w, p).Observed?
    case CompareAndSwap(p) => Is(w, p).Stamped?
    case ReadToken(p) => Is(w, p).Leased?
    case Send(p, r) => Is(w, p).Holding? && r !in w.server.reqs
    case Bounce(p, answer) => Is(w, p).Holding? && (answer.RateLimited? || answer.OtherFailure? || answer.Ambiguous?)
    case Receive(p, _, _) =>
      && Is(w, p).Sent? && Is(w, p).request in w.server.reqs
      && var q := w.server.reqs[Is(w, p).request]; q.Issued? || q.Refused? || q.Abandoned?
    case LoseAnswer(p) => Is(w, p).Sent?
    case Misreport(p) => Is(w, p).Sent?
    case Resolve(p) => Is(w, p).Got?
    case CommitThrows(p) => Is(w, p).Got? && Is(w, p).answer.Pair?
    case Crash(p) => HoldsLease(Is(w, p))
    case Sleep(p) => Is(w, p).Waiting? && w.now < Is(w, p).deadline
    case Poll(p) => Is(w, p).Asleep?
    case TimeOut(p) => Is(w, p).Waiting? && w.now >= Is(w, p).deadline
    case SignOut => true
    // The sealed tokens never leave the clients: nobody else presents one of this family.
    case Server(step) =>
      Rotation.Enabled(w.server, step) && (step.Present? ==> !OfFamily(w.server, family, step.secret))
    case Tick(_) => true
  }

  function Goes(w: World, p: nat, pc: Process): World {
    w.(procs := w.procs[p := pc])
  }

  ghost function Next(w: World, family: nat, step: Step): World
    requires Enabled(w, family, step)
  {
    match step
    case ReadRow(p, forced) =>
      if w.row.None? || w.row.value.status != Active then Goes(w, p, Threw)
      else if !forced && w.row.value.accessExpiresAt - SKEW_MS > w.now then Goes(w, p, Returned(w.row.value.access))
      else Goes(w, p, Observed(w.row.value.generation))
    case Stamp(p) => Goes(w, p, Stamped(Is(w, p).gen, w.now))
    case CompareAndSwap(p) =>
      var Stamped(gen, at) := Is(w, p);
      if CanLease(w.row, gen, at)
      then Goes(w, p, Leased(gen, at + LEASE_MS)).(row := Apply(w.row, Acquire(gen, at, LEASE_MS)))
      else Goes(w, p, Waiting(gen, w.now + LEASE_MS))
    case ReadToken(p) =>
      if w.row.None? then Goes(w, p, Threw)
      else Goes(w, p, Holding(Is(w, p).gen, Is(w, p).until, w.row.value.refresh))
    case Send(p, r) =>
      var Holding(gen, until, token) := Is(w, p);
      Goes(w, p, Sent(gen, until, token, r)).(server := Rotation.Next(w.server, Rotation.Present(r, token, w.now)))
    case Bounce(p, answer) => Goes(w, p, Got(Is(w, p).gen, Is(w, p).until, answer))
    case Receive(p, access, expiresAt) =>
      var Sent(gen, until, _, r) := Is(w, p);
      var q := w.server.reqs[r];
      Goes(w, p, Got(gen, until, if q.Issued? then Pair(access, q.newSecret, expiresAt) else Unauthorized))
    case LoseAnswer(p) => Goes(w, p, Got(Is(w, p).gen, Is(w, p).until, Ambiguous))
    case Misreport(p) => Goes(w, p, Got(Is(w, p).gen, Is(w, p).until, OtherFailure))
    case Resolve(p) =>
      var Got(gen, _, answer) := Is(w, p);
      (match answer
       case Pair(access, refresh, expiresAt) =>
         Goes(w, p, Returned(access)).(row := Apply(w.row, Commit(gen, access, refresh, expiresAt)))
       case RateLimited => Goes(w, p, Threw).(row := Apply(w.row, Release))
       case Unauthorized => Goes(w, p, Threw).(row := Apply(w.row, Mark(Revoked)))
       case Ambiguous => Goes(w, p, Threw).(row := Apply(w.row, Mark(Poisoned)))
       case OtherFailure => Goes(w, p, Threw).(row := Apply(w.row, Release)))
    case CommitThrows(p) => Goes(w, p, Threw).(row := Apply(w.row, Release))
    case Crash(p) => Goes(w, p, Threw)
    case Sleep(p) => Goes(w, p, Asleep(Is(w, p).gen, Is(w, p).deadline))
    case Poll(p) =>
      if w.row.None? || w.row.value.status != Active then Goes(w, p, Threw)
      else if w.row.value.generation > Is(w, p).gen then Goes(w, p, Returned(w.row.value.access))
      else Goes(w, p, Waiting(Is(w, p).gen, Is(w, p).deadline))
    case TimeOut(p) => Goes(w, p, Threw)
    case SignOut => w.(row := None)
    case Server(step) => w.(server := Rotation.Next(w.server, step))
    case Tick(elapsed) => w.(now := w.now + elapsed)
  }

  // ----- the hypotheses

  /** No lease has expired while its holder is still at work. */
  ghost predicate Timely(w: World) {
    forall p :: p in w.procs && HoldsLease(w.procs[p]) ==> w.now <= w.procs[p].until
  }

  /** The request has been answered, or may have been, by Bastion. */
  predicate Unsettled(pc: Process) {
    pc.Sent? || (pc.Got? && !pc.answer.RateLimited? && !pc.answer.OtherFailure?)
  }

  /** The step forgets that a token may be spent: an answer misreported, a commit that throws, a
      holder lost after it sent. A holder lost before that, or after a refusal that left the token
      unspent, does no harm. */
  predicate Slips(w: World, step: Step) {
    step.Misreport? || step.CommitThrows? || (step.Crash? && Unsettled(Is(w, step.p)))
  }

  // ----- what every timely step keeps

  ghost predicate ProcessOk(w: World, family: nat, p: nat)
    requires p in w.procs
  {
    var pc := w.procs[p];
    && (HoldsLease(pc) && w.row.Some? ==>
          w.row.value.lockedUntil == Some(pc.until) && w.row.value.generation == pc.gen && w.row.value.status == Active)
    && (pc.Stamped? ==> pc.at <= w.now)
    && (pc.Holding? ==> OfFamily(w.server, family, pc.token) && Unpresented(w.server, pc.token))
    && (pc.Sent? ==>
          && pc.request in w.server.reqs && Rotation.PresentedBy(w.server.reqs[pc.request]) == Some(pc.token)
          && OfFamily(w.server, family, pc.token)
          && (w.server.reqs[pc.request].Issued? ==>
                var drawn := w.server.reqs[pc.request].newSecret;
                OfFamily(w.server, family, drawn) && Unpresented(w.server, drawn)))
    && (pc.Got? && pc.answer.Pair? ==>
          OfFamily(w.server, family, pc.answer.refresh) && Unpresented(w.server, pc.answer.refresh))
  }

  ghost predicate SoleHolder(w: World) {
    forall p, q :: p in w.procs && q in w.procs && HoldsLease(w.procs[p]) && HoldsLease(w.procs[q]) ==> p == q
  }

  ghost predicate NobodyUnsettled(w: World) {
    forall p :: p in w.procs ==> !Unsettled(w.procs[p])
  }

  /** The stored refresh token is one nobody has presented, unless its holder's answer is still due. */
  ghost predicate RowOk(w: World, family: nat) {
    w.row.Some? ==>
      && OfFamily(w.server, family, w.row.value.refresh)
      && (w.row.value.status == Active && NobodyUnsettled(w) ==> Unpresented(w.server, w.row.value.refresh))
  }

  ghost predicate PresentedOnce(s: Rotation.State, family: nat) {
    forall a, b | a in s.reqs && b in s.reqs && Rotation.PresentedBy(s.reqs[a]).Some?
        && OfFamily(s, family, Rotation.PresentedBy(s.reqs[a]).value) ::
      Rotation.PresentedBy(s.reqs[a]) == Rotation.PresentedBy(s.reqs[b]) ==> a == b
  }

  ghost predicate Inv(w: World, family: nat) {
    && Rotation.Inv(w.server) && PresentedOnce(w.server, family)
    && SoleHolder(w) && RowOk(w, family)
    && (forall p {:trigger ProcessOk(w, family, p)} :: p in w.procs ==> ProcessOk(w, family, p))
  }

  lemma NobodyWasUnsettled(w: World, n: World)
    requires forall p :: p in w.procs && Unsettled(w.procs[p]) ==> p in n.procs && Unsettled(n.procs[p])
    ensures NobodyUnsettled(n) ==> NobodyUnsettled(w)
  {
  }

  /** A process that holds no lease moves to another such state. */
  lemma BystanderKeepsInv(w: World, family: nat, p: nat, pc: Process)
    requires Inv(w, family) && p in w.procs && !HoldsLease(w.procs[p])
    requires !HoldsLease(pc) && (pc.Stamped? ==> pc.at <= w.now)
    ensures Inv(Goes(w, p, pc), family)
  {
    var n := Goes(w, p, pc);
    forall q | q in n.procs ensures ProcessOk(n, family, q) { assert ProcessOk(w, family, q); }
    NobodyWasUnsettled(w, n);
  }

  /** The compare-and-swap cannot succeed while another holder's lease runs. */
  lemma SwapKeepsInv(w: World, family: nat, p: nat)
    requires Inv(w, family) && Timely(w) && Is(w, p).Stamped?
    ensures Inv(Next(w, family, CompareAndSwap(p)), family)
  {
    var Stamped(gen, at) := Is(w, p);
    if CanLease(w.row, gen, at) {
      var n := Next(w, family, CompareAndSwap(p));
      assert ProcessOk(w, family, p);
      forall q | q in w.procs ensures !HoldsLease(w.procs[q]) { assert ProcessOk(w, family, q); }
      forall q | q in n.procs ensures ProcessOk(n, family, q) { assert ProcessOk(w, family, q); }
      assert NobodyUnsettled(w);
    } else {
      BystanderKeepsInv(w, family, p, Waiting(gen, w.now + LEASE_MS));
    }
  }

  lemma ReadTokenKeepsInv(w: World, family: nat, p: nat)
    requires Inv(w, family) && Is(w, p).Leased?
    ensures Inv(Next(w, family, ReadToken(p)), family)
  {
    var n := Next(w, family, ReadToken(p));
    assert ProcessOk(w, family, p);
    assert NobodyUnsettled(w);
    forall q | q in n.procs ensures ProcessOk(n, family, q) { assert ProcessOk(w, family, q); }
  }

  lemma SendKeepsInv(w: World, family: nat, p: nat, r: nat)
    requires Inv(w, family) && Is(w, p).Holding? && r !in w.server.reqs
    ensures Inv(Next(w, family, Send(p, r)), family)
  {
    var n := Next(w, family, Send(p, r));
    assert ProcessOk(w, family, p);
    Rotation.KeepsInv(w.server, Rotation.Present(r, Is(w, p).token, w.now));
    SameFamilySecrets(w.server, n.server, family);
    forall q | q in n.procs ensures ProcessOk(n, family, q) { assert ProcessOk(w, family, q); }
    assert Unsettled(n.procs[p]);
  }

  lemma SameFamilySecrets(s: Rotation.State, n: Rotation.State, family: nat)
    requires n.log == s.log
    ensures forall secret {:trigger OfFamily(n, family, secret)} ::
      OfFamily(n, family, secret) == OfFamily(s, family, secret)
  {
  }

  /** The holder learns how its call ended. */
  lemma AnswerKeepsInv(w: World, family: nat, p: nat, answer: Answer)
    requires Inv(w, family) && (Is(w, p).Holding? || Is(w, p).Sent?)
    requires Is(w, p).Sent? ==> !answer.RateLimited? && !answer.OtherFailure?
    requires answer.Pair? ==> OfFamily(w.server, family, answer.refresh) && Unpresented(w.server, answer.refresh)
    ensures Inv(Goes(w, p, Got(Is(w, p).gen, Is(w, p).until, answer)), family)
  {
    var n := Goes(w, p, Got(Is(w, p).gen, Is(w, p).until, answer));
    assert ProcessOk(w, family, p);
    forall q | q in n.procs ensures ProcessOk(n, family, q) { assert ProcessOk(w, family, q); }
    NobodyWasUnsettled(w, n);
  }

  lemma ResolveKeepsInv(w: World, family: nat, p: nat)
    requires Inv(w, family) && Is(w, p).Got?
    ensures Inv(Next(w, family, Resolve(p)), family)
  {
    var n := Next(w, family, Resolve(p));
    assert ProcessOk(w, family, p);
    forall q | q in n.procs ensures ProcessOk(n, family, q) { assert ProcessOk(w, family, q); }
    if Is(w, p).answer.RateLimited? || Is(w, p).answer.OtherFailure? {
      assert NobodyUnsettled(w);
    }
  }

  /** A holder whose token is unspent goes without a trace but its lease. */
  lemma CrashKeepsInv(w: World, family: nat, p: nat)
    requires Inv(w, family) && HoldsLease(Is(w, p)) && !Unsettled(Is(w, p))
    ensures Inv(Goes(w, p, Threw), family)
  {
    var n := Goes(w, p, Threw);
    forall q | q in n.procs ensures ProcessOk(n, family, q) { assert ProcessOk(w, family, q); }
    NobodyWasUnsettled(w, n);
  }

  lemma SignOutKeepsInv(w: World, family: nat)
    requires Inv(w, family)
    ensures Inv(w.(row := None), family)
  {
    var n := w.(row := None);
    forall q | q in n.procs ensures ProcessOk(n, family, q) { assert ProcessOk(w, family, q); }
  }

  lemma TickKeepsInv(w: World, family: nat, elapsed: nat)
    requires Inv(w, family)
    ensures Inv(w.(now := w.now + elapsed), family)
  {
    var n := w.(now := w.now + elapsed);
    forall q | q in n.procs ensures ProcessOk(n, family, q) { assert ProcessOk(w, family, q); }
    NobodyWasUnsettled(w, n);
  }

  /** The server's own steps present nothing of the family, and a secret it draws is unpresented. */
  lemma ServerPresentsNothing(s: Rotation.State, step: Rotation.Step, family: nat)
    requires Rotation.Inv(s) && Rotation.Enabled(s, step) && (step.Present? ==> !OfFamily(s, family, step.secret))
    ensures var n := Rotation.Next(s, step);
      && (forall r :: r in s.reqs ==> r in n.reqs && Rotation.PresentedBy(n.reqs[r]) == Rotation.PresentedBy(s.reqs[r]))
      && (forall r :: r in n.reqs && r !in s.reqs && Rotation.PresentedBy(n.reqs[r]).Some? ==>
            step.Present? && Rotation.PresentedBy(n.reqs[r]) == Some(step.secret))
  {
    if step.Lookup? {
      assert Rotation.PresentedBy(Rotation.AfterLookup(s, s.reqs[step.r])) == Rotation.PresentedBy(s.reqs[step.r]);
    }
    if step.Mark? {
      assert Rotation.PresentedBy(Rotation.Next(s, step).reqs[step.r]) == Rotation.PresentedBy(s.reqs[step.r]);
    }
  }

  lemma ServerKeepsFamily(s: Rotation.State, step: Rotation.Step, family: nat)
    requires Rotation.Inv(s) && Rotation.Enabled(s, step) && (step.Present? ==> !OfFamily(s, family, step.secret))
    ensures var n := Rotation.Next(s, step);
      && (forall secret {:trigger OfFamily(s, family, secret)} ::
        OfFamily(s, family, secret) ==> OfFamily(n, family, secret))
      && (forall secret {:trigger OfFamily(n, family, secret)} ::
        OfFamily(n, family, secret) && !OfFamily(s, family, secret) ==>
            step.Insert? && step.secret == secret)
      && (forall secret {:trigger Unpresented(n, secret)} ::
        OfFamily(n, family, secret) ==> Unpresented(n, secret) == Unpresented(s, secret))
      && (forall secret {:trigger OfFamily(n, family, secret)} ::
        OfFamily(n, family, secret) && !OfFamily(s, family, secret) ==> Unpresented(n, secret))
  {
    var n := Rotation.Next(s, step);
    ServerPresentsNothing(s, step, family);
    forall secret | OfFamily(s, family, secret) ensures OfFamily(n, family, secret) {
      var id :| id in s.log && s.log[id].family == family && s.log[id].secret == secret;
      assert id in n.log && n.log[id] == s.log[id];
    }
    forall secret | OfFamily(n, family, secret) && !OfFamily(s, family, secret)
      ensures step.Insert? && step.secret == secret
    {
      var id :| id in n.log && n.log[id].family == family && n.log[id].secret == secret;
      assert id !in s.log;
    }
  }

  lemma ServerKeepsInv(w: World, family: nat, step: Rotation.Step)
    requires Inv(w, family) && Enabled(w, family, Server(step))
    ensures Inv(Next(w, family, Server(step)), family)
  {
    var n := Next(w, family, Server(step));
    Rotation.KeepsInv(w.server, step);
    ServerPresentsNothing(w.server, step, family);
    ServerKeepsFamily(w.server, step, family);
    forall q | q in n.procs ensures ProcessOk(n, family, q) {
      assert ProcessOk(w, family, q);
      if n.procs[q].Sent? {
        SentStaysOk(w, family, step, q);
      }
    }
    NobodyWasUnsettled(w, n);
  }

  lemma SentStaysOk(w: World, family: nat, step: Rotation.Step, p: nat)
    requires Rotation.Inv(w.server) && Enabled(w, family, Server(step)) && p in w.procs && ProcessOk(w, family, p)
      && w.procs[p].Sent?
    ensures p in Next(w, family, Server(step)).procs && ProcessOk(Next(w, family, Server(step)), family, p)
  {
    var n := Next(w, family, Server(step));
    var r := w.procs[p].request;
    ServerPresentsNothing(w.server, step, family);
    ServerKeepsFamily(w.server, step, family);
    if step.Insert? && step.r == r {
      assert Rotation.RequestOk(w.server, r);
      assert w.server.reqs[r].family == family;
      assert step.id in n.server.log;
      assert OfFamily(n.server, family, step.secret);
    }
  }

  lemma KeepsInv(w: World, family: nat, step: Step)
    requires Inv(w, family) && Timely(w) && Enabled(w, family, step) && !Slips(w, step)
    ensures Inv(Next(w, family, step), family)
  {
    match step
    case CompareAndSwap(p) => SwapKeepsInv(w, family, p);
    case ReadToken(p) => ReadTokenKeepsInv(w, family, p);
    case Send(p, r) => SendKeepsInv(w, family, p, r);
    case Bounce(p, answer) => AnswerKeepsInv(w, family, p, answer);
    case Receive(p, _, _) =>
      assert ProcessOk(w, family, p);
      AnswerKeepsInv(w, family, p, Next(w, family, step).procs[p].answer);
    case LoseAnswer(p) => AnswerKeepsInv(w, family, p, Ambiguous);
    case Resolve(p) => ResolveKeepsInv(w, family, p);
    case Crash(p) => CrashKeepsInv(w, family, p);
    case SignOut => SignOutKeepsInv(w, family);
    case Server(inner) => ServerKeepsInv(w, family, inner);
    case Tick(elapsed) => TickKeepsInv(w, family, elapsed);
    case ReadRow(p, _) => BystanderKeepsInv(w, family, p, Next(w, family, step).procs[p]);
    case Stamp(p) => BystanderKeepsInv(w, family, p, Stamped(Is(w, p).gen, w.now));
    case Sleep(p) => BystanderKeepsInv(w, family, p, Asleep(Is(w, p).gen, Is(w, p).deadline));
    case Poll(p) => BystanderKeepsInv(w, family, p, Next(w, family, step).procs[p]);
    case TimeOut(p) => BystanderKeepsInv(w, family, p, Threw);
    case _ =>
  }

  // ----- runs

  ghost predicate Run(ws: seq<World>, steps: seq<Step>, family: nat) {
    && |ws| == |steps| + 1
    && forall i | 0 <= i < |steps| :: Enabled(ws[i], family, steps[i]) && ws[i + 1] == Next(ws[i], family, steps[i])
  }

  /** A session just stored: its refresh token is the family's, and nobody has presented any
      token of the family or started to work on the row. */
  ghost predicate SignedIn(w: World, family: nat) {
    && Rotation.Inv(w.server)
    && (forall r :: r in w.server.reqs && Rotation.PresentedBy(w.server.reqs[r]).Some? ==>
          !OfFamily(w.server, family, Rotation.PresentedBy(w.server.reqs[r]).value))
    && (forall p :: p in w.procs ==> w.procs[p].Idle?)
    && w.row.Some? && w.row.value.status == Active && w.row.value.lockedUntil.None?
    && OfFamily(w.server, family, w.row.value.refresh)
  }

  /** The step hands redeem a token of the family that some request presented before. */
  ghost predicate PresentsAgain(w: World, family: nat, step: Step) {
    step.Send? && Is(w, step.p).Holding? && !Unpresented(w.server, Is(w, step.p).token)
  }

  /** The step takes redeem, for a token of the family, into either of its reuse branches because
      the token is already spent. */
  ghost predicate MeetsSpentToken(w: World, family: nat, step: Step) {
    && step.Server? && Rotation.Enabled(w.server, step.step)
    && match step.step
       case Lookup(r) =>
         OfFamily(w.server, family, w.server.reqs[r].secret)
           && Rotation.AfterLookup(w.server, w.server.reqs[r]).Revoking?
       case Mark(r, _, _) => w.server.reqs[r].family == family && w.server.reqs[r].id in w.server.spent
       case _ => false
  }

  lemma NoReuseFromInv(w: World, family: nat, step: Step)
    requires Inv(w, family) && Enabled(w, family, step)
    ensures !PresentsAgain(w, family, step) && !MeetsSpentToken(w, family, step)
  {
    if step.Send? {
      assert ProcessOk(w, family, step.p);
    }
    if step.Server? && step.step.Lookup? && OfFamily(w.server, family, w.server.reqs[step.step.r].secret) {
      UnderWayMeansUnspent(w, family, step.step.r, w.server.reqs[step.step.r].secret);
    }
    if step.Server? && step.step.Mark? && w.server.reqs[step.step.r].family == family {
      assert Rotation.RequestOk(w.server, step.step.r);
      UnderWayMeansUnspent(w, family, step.step.r, w.server.reqs[step.step.r].secret);
    }
  }

  /** While a request that presents the token has not won it, nobody has. */
  lemma UnderWayMeansUnspent(w: World, family: nat, r: nat, secret: nat)
    requires Inv(w, family) && r in w.server.reqs && (w.server.reqs[r].Presenting? || w.server.reqs[r].Marking?)
    requires w.server.reqs[r].secret == secret && OfFamily(w.server, family, secret)
    ensures forall id :: id in w.server.log && w.server.log[id].secret == secret ==> id !in w.server.spent
    ensures w.server.reqs[r].Presenting? ==> !Rotation.AfterLookup(w.server, w.server.reqs[r]).Revoking?
  {
    var s := w.server;
    forall id | id in s.log && s.log[id].secret == secret ensures id !in s.spent {
      assert Rotation.TokenOk(s, id);
      assert id in s.spent ==> Rotation.RequestOk(s, s.spent[id]);
    }
    forall id | id in s.rows ensures Rotation.RowOk(s, id) {}
  }

  lemma {:induction false} TimelyRunKeepsInv(ws: seq<World>, steps: seq<Step>, family: nat, i: nat)
    requires Run(ws, steps, family) && SignedIn(ws[0], family) && i < |ws|
    requires forall k | 0 <= k < |ws| :: Timely(ws[k])
    requires forall k | 0 <= k < |steps| :: !Slips(ws[k], steps[k])
    ensures Inv(ws[i], family)
  {
    if i == 0 {
      forall p | p in ws[0].procs ensures ProcessOk(ws[0], family, p) {}
    } else {
      TimelyRunKeepsInv(ws, steps, family, i - 1);
      assert ws[i] == Next(ws[i - 1], family, steps[i - 1]);
      KeepsInv(ws[i - 1], family, steps[i - 1]);
    }
  }

  /** The clients never replay. In every run, with any number of processes, in which no lease
      expires while its holder is at work and no step forgets that a token may be spent, no token
      of the session's family is presented to redeem twice and redeem never finds one already
      spent. */
  lemma ClientsNeverReplay(ws: seq<World>, steps: seq<Step>, family: nat, i: nat)
    requires Run(ws, steps, family) && SignedIn(ws[0], family) && i < |steps|
    requires forall k | 0 <= k < |ws| :: Timely(ws[k])
    requires forall k | 0 <= k < |steps| :: !Slips(ws[k], steps[k])
    ensures !PresentsAgain(ws[i], family, steps[i]) && !MeetsSpentToken(ws[i], family, steps[i])
  {
    TimelyRunKeepsInv(ws, steps, family, i);
    NoReuseFromInv(ws[i], family, steps[i]);
  }

  // ----- from status codes to answers

  /** How fetch ends: not at all, or with a status and the pair its body decodes to, if it does. */
  datatype Reply = NoReply | Status(code: nat, pair: Option<TokenPair>)

  datatype TokenPair = TokenPair(access: nat, refresh: nat, expiresAt: Time)

  function Classify(reply: Reply): Answer {
    match reply
    case NoReply => Ambiguous
    case Status(code, pair) =>
      if 200 <= code < 300 then
        match pair
        case Some(TokenPair(access, refresh, expiresAt)) => Pair(access, refresh, expiresAt)
        case None => OtherFailure
      else if code == 429 then RateLimited
      else if code == 401 then Unauthorized
      else if code >= 500 then Ambiguous
      else OtherFailure
  }

  /** What can come back for a request that reached redeem: nothing, a server error, the request
      timeout's 408, or the handler's own reply. */
  predicate MayReply(q: Rotation.Request, reply: Reply) {
    match reply
    case NoReply => true
    case Status(code, pair) =>
      || (500 <= code < 600) || code == 408
      || (code == 200 && q.Issued? && (pair.Some? ==> pair.value.refresh == q.newSecret))
      || (code == 401 && (q.Refused? || q.Abandoned?))
  }

  /** How the holder's own statements end: whether it reads the claims, seals the pair and stores
      it; and whether the statement that releases the lease or sets the status goes through. */
  datatype Local = Local(commits: bool, settles: bool)

  /** The leased row after its holder, which nobody interrupts, is done: a rotation replaces the
      pair and moves on one generation; a dead or doubtful token takes the row out of use; whatever
      else is caught unlocks the row and keeps its token. */
  function Settled(leased: Row, answer: Answer, local: Local): Row {
    if answer.Pair? && local.commits then
      Row(answer.access, answer.refresh, answer.expiresAt, leased.generation + 1, None, leased.status)
    else if !local.settles then leased
    else if answer.Unauthorized? then leased.(status := Revoked, lockedUntil := None)
    else if answer.Ambiguous? then leased.(status := Poisoned, lockedUntil := None)
    else leased.(lockedUntil := None)
  }

  /** After a token reached redeem, its row is unlocked with that token still in it exactly on a
      408, on a 200 that does not decode, or on a good 200 whose pair is not stored. It stays
      locked, until the lease runs out, exactly when the settling statement throws. Every other
      reply gives what Receive or LoseAnswer give. */
  lemma ReleasedAfterRedeemIff(q: Rotation.Request, reply: Reply, local: Local, leased: Row)
    requires MayReply(q, reply) && leased.lockedUntil.Some? && leased.status == Active
    ensures var answer, after := Classify(reply), Settled(leased, Classify(reply), local);
      && (after == leased.(lockedUntil := None) <==>
            local.settles && reply.Status?
            && (reply.code == 408 || (reply.code == 200 && (reply.pair.None? || !local.commits))))
      && (after == leased <==> !local.settles && !(answer.Pair? && local.commits))
      && (answer.Pair? ==> q.Issued? && answer.refresh == q.newSecret)
      && (answer.Unauthorized? ==> q.Refused? || q.Abandoned?)
  {
  }

  /** What any reply at all leaves in the row, whether or not the request reached redeem. The row is
      taken out of use on a 401, and as doubtful without a reply or on a server error; a pair that
      arrives replaces the old one and moves on one generation; and a 429, like every other refusal,
      leaves the row active and unlocked with its token. A settling statement that throws leaves it
      locked as it was. */
  lemma RowAfterReply(reply: Reply, local: Local, leased: Row)
    requires leased.status == Active && leased.lockedUntil.Some?
    ensures var after := Settled(leased, Classify(reply), local);
      var stored := reply.Status? && 200 <= reply.code < 300 && reply.pair.Some? && local.commits;
      var doubtful := reply.NoReply? || reply.code >= 500;
      && (after.status == Revoked <==> reply.Status? && reply.code == 401 && local.settles)
      && (after.status == Poisoned <==> doubtful && local.settles)
      && (after.generation == leased.generation + 1 <==> stored)
      && (stored ==>
            var pair := reply.pair.value;
            after == Row(pair.access, pair.refresh, pair.expiresAt, leased.generation + 1, None, Active))
      && (!stored ==>
            && after.access == leased.access && after.refresh == leased.refresh
            && after.accessExpiresAt == leased.accessExpiresAt && after.generation == leased.generation)
      && (after.lockedUntil.None? <==> stored || local.settles)
      && (after == leased.(lockedUntil := None) <==> !stored && local.settles && !doubtful && reply.code != 401)
  {
  }

  /** In particular: a rate-limited refresh costs the session nothing. */
  lemma ARateLimitCostsNothing(pair: Option<TokenPair>, commits: bool, leased: Row)
    requires leased.status == Active && leased.lockedUntil.Some?
    ensures Classify(Status(429, pair)) == RateLimited
    ensures Settled(leased, Classify(Status(429, pair)), Local(commits, true)) == leased.(lockedUntil := None)
  {
  }

  // ----- one process on its own

  /** accessTokenFor and rotate; `answer` is how the call to Bastion ends. */
  class Client {
    const store: CredentialStore

    constructor (store: CredentialStore)
      ensures this.store == store
    {
      this.store := store;
    }

    method AccessTokenFor(now: Time, answer: Answer, local: Local) returns (outcome: Process)
      modifies store
      ensures var row := old(store.row);
        if row.None? || row.value.status != Active then outcome == Threw && store.row == row
        else if row.value.accessExpiresAt - SKEW_MS > now then outcome == Returned(row.value.access) && store.row == row
        else if row.value.lockedUntil.Some? && row.value.lockedUntil.value >= now
          then outcome == Waiting(row.value.generation, now + LEASE_MS) && store.row == row
        else
          && outcome == (if answer.Pair? && local.commits then Returned(answer.access) else Threw)
          && store.row == Some(Settled(row.value.(lockedUntil := Some(now + LEASE_MS)), answer, local))
    {
      var row := store.row;
      if row.None? || row.value.status != Active {
        return Threw;
      }
      if row.value.accessExpiresAt - SKEW_MS > now {
        return Returned(row.value.access);
      }
      outcome := Rotate(row.value.generation, now, answer, local);
    }

    method Rotate(observed: nat, now: Time, answer: Answer, local: Local) returns (outcome: Process)
      modifies store
      ensures var row := old(store.row);
        if CanLease(row, observed, now) then
          && outcome == (if answer.Pair? && local.commits then Returned(answer.access) else Threw)
          && store.row == Some(Settled(row.value.(lockedUntil := Some(now + LEASE_MS)), answer, local))
        else outcome == Waiting(observed, now + LEASE_MS) && store.row == row
    {
      var won := store.AcquireLease(observed, now, LEASE_MS);
      if !won {
        return Waiting(observed, now + LEASE_MS);
      }
      if answer.Pair? && local.commits {
        store.CommitRotation(observed, answer.access, answer.refresh, answer.expiresAt);
        return Returned(answer.access);
      }
      if local.settles {
        if answer.Unauthorized? {
          store.MarkStatus(Revoked);
        } else if answer.Ambiguous? {
          store.MarkStatus(Poisoned);
        } else {
          store.ReleaseLease();
        }
      }
      return Threw;
    }
  }

  /** The step of the machine in which a holder with this answer is done. */
  function SettlingStep(p: nat, answer: Answer, local: Local): Step {
    if answer.Pair? && !local.commits && local.settles then CommitThrows(p)
    else if (answer.Pair? && local.commits) || local.settles then Resolve(p)
    else Crash(p)
  }

  /** Rotate is a run of the machine in which the other processes stand still: the same answer
      leaves the same row and outcome, whatever the call did at the server. */
  lemma RotateIsARun(w: World, family: nat, p: nat, answer: Answer, local: Local, server: Rotation.State)
    requires Is(w, p).Stamped? && Is(w, p).at == w.now
    ensures var observed := Is(w, p).gen;
      var swapped := Next(w, family, CompareAndSwap(p));
      if CanLease(w.row, observed, w.now) then
        && Enabled(swapped, family, ReadToken(p))
        && var read := Next(swapped, family, ReadToken(p));
        && Is(read, p).Holding? && Is(read, p).token == w.row.value.refresh
        && var answered := Goes(read, p, Got(observed, Is(read, p).until, answer)).(server := server);
        && var step := SettlingStep(p, answer, local);
        && Enabled(answered, family, step)
        && Next(answered, family, step).row
          == Some(Settled(w.row.value.(lockedUntil := Some(w.now + LEASE_MS)), answer, local))
        && Is(Next(answered, family, step), p)
          == (if answer.Pair? && local.commits then Returned(answer.access) else Threw)
      else
        swapped.row == w.row && Is(swapped, p) == Waiting(observed, w.now + LEASE_MS)
  {
  }

  /** The first read of accessTokenFor in the machine, and what the method makes of the same row. */
  lemma AccessTokenForIsARun(w: World, family: nat, p: nat)
    requires Is(w, p).Idle?
    ensures var after := Next(w, family, ReadRow(p, false));
      && after.row == w.row
      && Is(after, p) ==
         if w.row.None? || w.row.value.status != Active then Threw
         else if w.row.value.accessExpiresAt - SKEW_MS > w.now then Returned(w.row.value.access)
         else Observed(w.row.value.generation)
    ensures var forced := Next(w, family, ReadRow(p, true));
      forced.row == w.row && (Is(forced, p).Observed? <==> w.row.Some? && w.row.value.status == Active)
  {
  }

  /** A poll in the machine is a pass of awaitWinner: it ends the wait exactly when what it reads is
      decisive, with the outcome that read determines. */
  lemma PollIsAPass(w: World, family: nat, p: nat)
    requires Is(w, p).Asleep?
    ensures var (gen, after) := (Is(w, p).gen, Is(Next(w, family, Poll(p)), p));
      && (after == Waiting(gen, Is(w, p).deadline) <==> !Decisive(w.row, gen))
      && (Decisive(w.row, gen) ==> after == match Verdict(w.row, gen)
                                            case Token(access) => Returned(access)
                                            case _ => Threw)
  {
  }

  // ----- every hypothesis is needed

  /** The one kind of slip a run is allowed. */
  datatype Allowed = NoSlip | Misreports | FailedCommits | Crashes

  ghost predicate Permits(allowed: Allowed, w: World, step: Step) {
    Slips(w, step) ==>
      match allowed
      case NoSlip => false
      case Misreports => step.Misreport?
      case FailedCommits => step.CommitThrows?
      case Crashes => step.Crash?
  }

  ghost predicate Calm(ws: seq<World>, steps: seq<Step>, timely: bool, allowed: Allowed) {
    && |ws| == |steps| + 1
    && (timely ==> forall k | 0 <= k < |ws| :: Timely(ws[k]))
    && forall k | 0 <= k < |steps| :: Permits(allowed, ws[k], steps[k])
  }

  lemma Extend(ws: seq<World>, steps: seq<Step>, family: nat, timely: bool, allowed: Allowed, step: Step)
    returns (more: seq<World>, done: seq<Step>)
    requires Run(ws, steps, family) && Calm(ws, steps, timely, allowed)
    requires var w := ws[|ws| - 1];
      Enabled(w, family, step) && (timely ==> Timely(Next(w, family, step))) && Permits(allowed, w, step)
    ensures Run(more, done, family) && Calm(more, done, timely, allowed) && more[0] == ws[0]
    ensures more == ws + [Next(ws[|ws| - 1], family, step)] && done == steps + [step]
  {
    more, done := ws + [Next(ws[|ws| - 1], family, step)], steps + [step];
  }

  /** An idle process that finds the row free takes the lease. */
  lemma TakeLease(ws: seq<World>, steps: seq<Step>, family: nat, timely: bool, allowed: Allowed, p: nat)
    returns (more: seq<World>, done: seq<Step>)
    requires Run(ws, steps, family) && Calm(ws, steps, timely, allowed) && FreeToTake(ws[|ws| - 1], timely, p)
    ensures Run(more, done, family) && Calm(more, done, timely, allowed) && more[0] == ws[0]
    ensures var w, row := ws[|ws| - 1], ws[|ws| - 1].row.value;
      more[|more| - 1] == w.(
        row := Some(row.(lockedUntil := Some(w.now + LEASE_MS))),
        procs := w.procs[p := Leased(row.generation, w.now + LEASE_MS)])
  {
    var w := ws[|ws| - 1];
    var row := w.row.value;
    more, done := Extend(ws, steps, family, timely, allowed, ReadRow(p, true));
    assert more[|more| - 1] == Goes(w, p, Observed(row.generation));
    more, done := Extend(more, done, family, timely, allowed, Stamp(p));
    assert more[|more| - 1] == Goes(w, p, Stamped(row.generation, w.now));
    more, done := Extend(more, done, family, timely, allowed, CompareAndSwap(p));
    assert more[|more| - 1].procs == w.procs[p := Leased(row.generation, w.now + LEASE_MS)];
  }

  ghost predicate FreeToTake(w: World, timely: bool, p: nat) {
    && Is(w, p).Idle? && w.row.Some? && CanLease(w.row, w.row.value.generation, w.now)
    && (timely ==> forall q :: q in w.procs ==> !HoldsLease(w.procs[q]))
  }

  /** Having taken it, the process sends the stored token. */
  lemma TakeAndSend(ws: seq<World>, steps: seq<Step>, family: nat, timely: bool, allowed: Allowed, p: nat, r: nat)
    returns (more: seq<World>, done: seq<Step>)
    requires Run(ws, steps, family) && Calm(ws, steps, timely, allowed) && FreeToTake(ws[|ws| - 1], timely, p)
    requires r !in ws[|ws| - 1].server.reqs
    ensures Run(more, done, family) && Calm(more, done, timely, allowed) && more[0] == ws[0]
    ensures var w, row := ws[|ws| - 1], ws[|ws| - 1].row.value;
      more[|more| - 1] == World(
        Rotation.Next(w.server, Rotation.Present(r, row.refresh, w.now)),
        Some(row.(lockedUntil := Some(w.now + LEASE_MS))),
        w.procs[p := Sent(row.generation, w.now + LEASE_MS, row.refresh, r)],
        w.now)
  {
    var w := ws[|ws| - 1];
    var row := w.row.value;
    more, done := TakeLease(ws, steps, family, timely, allowed, p);
    more, done := Extend(more, done, family, timely, allowed, ReadToken(p));
    assert more[|more| - 1].procs == w.procs[p := Holding(row.generation, w.now + LEASE_MS, row.refresh)];
    more, done := Extend(more, done, family, timely, allowed, Send(p, r));
    assert more[|more| - 1].procs == w.procs[p := Sent(row.generation, w.now + LEASE_MS, row.refresh, r)];
  }

  const FAMILY := 1
  const ID := 5
  const SECRET := 9

  function LoggedIn(): Rotation.State {
    Rotation.Inserted(Rotation.Started(Rotation.Empty, 0, 7, FAMILY), 0, ID, SECRET, 1_000_000)
  }

  lemma LoggedInIsReachable()
    ensures Rotation.Inv(LoggedIn()) && OfFamily(LoggedIn(), FAMILY, SECRET)
  {
    Rotation.KeepsInv(Rotation.Empty, Rotation.Start(0, 7, FAMILY));
    Rotation.KeepsInv(Rotation.Started(Rotation.Empty, 0, 7, FAMILY), Rotation.Insert(0, ID, SECRET, 1_000_000));
    assert ID in LoggedIn().log;
  }

  /** The token is stored, spent, and no request 11 has presented it yet. */
  ghost predicate TokenSpent(s: Rotation.State) {
    && Rotation.Inv(s) && ID in s.rows && s.rows[ID].usedAt.Some? && s.rows[ID].tokenHash == DigestOf(SECRET)
    && OfFamily(s, FAMILY, SECRET) && 11 !in s.reqs
  }

  /** The first holder's request has spent the token and is about to issue the next. */
  ghost predicate AnswerDue(w: World) {
    && w.row == Some(Row(3, SECRET, 0, 0, Some(LEASE_MS), Active)) && w.now == 0
    && w.procs == map[1 := Sent(0, LEASE_MS, SECRET, 10), 2 := Idle]
    && TokenSpent(w.server) && 10 in w.server.reqs && w.server.reqs[10].Issuing? && w.server.reqs[10].family == FAMILY
  }

  lemma FirstHolderSpends(timely: bool, allowed: Allowed) returns (ws: seq<World>, steps: seq<Step>)
    ensures Run(ws, steps, FAMILY) && SignedIn(ws[0], FAMILY) && Calm(ws, steps, timely, allowed)
    ensures AnswerDue(ws[|ws| - 1])
  {
    LoggedInIsReachable();
    var w0 := World(LoggedIn(), Some(Row(3, SECRET, 0, 0, None, Active)), map[1 := Idle, 2 := Idle], 0);
    assert SignedIn(w0, FAMILY);
    ws, steps := TakeAndSend([w0], [], FAMILY, timely, allowed, 1, 10);
    ws, steps := AnswerlessSpend(ws, steps, timely, allowed);
  }

  lemma AnswerlessSpend(ws: seq<World>, steps: seq<Step>, timely: bool, allowed: Allowed)
    returns (more: seq<World>, done: seq<Step>)
    requires Run(ws, steps, FAMILY) && Calm(ws, steps, timely, allowed)
    requires ws[|ws| - 1].server == Rotation.Next(LoggedIn(), Rotation.Present(10, SECRET, 0))
    ensures Run(more, done, FAMILY) && Calm(more, done, timely, allowed) && more[0] == ws[0]
    ensures var w, n := ws[|ws| - 1], more[|more| - 1];
      n == w.(server := n.server) && TokenSpent(n.server) && 10 in n.server.reqs && n.server.reqs[10].Issuing?
        && n.server.reqs[10].family == FAMILY
  {
    LookupAndMarkSpend();
    more, done := Extend(ws, steps, FAMILY, timely, allowed, Server(Rotation.Lookup(10)));
    more, done := Extend(more, done, FAMILY, timely, allowed, Server(Rotation.Mark(10, 0, true)));
  }

  lemma LookupAndMarkSpend()
    ensures var s := Rotation.Next(LoggedIn(), Rotation.Present(10, SECRET, 0));
      && Rotation.Enabled(s, Rotation.Lookup(10))
      && var found := Rotation.Next(s, Rotation.Lookup(10));
      && Rotation.Enabled(found, Rotation.Mark(10, 0, true))
      && var n := Rotation.Next(found, Rotation.Mark(10, 0, true));
      && TokenSpent(n) && n.reqs[10].Issuing? && n.reqs[10].family == FAMILY
  {
    LoggedInIsReachable();
    Rotation.KeepsInv(LoggedIn(), Rotation.Present(10, SECRET, 0));
    var s := Rotation.Next(LoggedIn(), Rotation.Present(10, SECRET, 0));
    Rotation.LookupFinds(s, 10, ID);
    Rotation.KeepsInv(s, Rotation.Lookup(10));
    var found := Rotation.Next(s, Rotation.Lookup(10));
    Rotation.KeepsInv(found, Rotation.Mark(10, 0, true));
    SameFamilySecrets(LoggedIn(), Rotation.Next(found, Rotation.Mark(10, 0, true)), FAMILY);
  }

  lemma SpentMeansReuse(s: Rotation.State, now: Time)
    requires TokenSpent(s)
    ensures Rotation.AfterLookup(s, Rotation.Presenting(SECRET, now)).Revoking?
  {
    assert Rotation.RowOk(s, ID);
    Rotation.ReplayIsDetectedIffStored(s, ID, now);
  }

  /** A second process that can take the lease presents the spent token, and redeem sees reuse. */
  lemma SecondHolderReplays(ws: seq<World>, steps: seq<Step>, timely: bool, allowed: Allowed)
    returns (more: seq<World>, done: seq<Step>)
    requires Run(ws, steps, FAMILY) && Calm(ws, steps, timely, allowed)
    requires var w := ws[|ws| - 1];
      FreeToTake(w, timely, 2) && w.row.value.refresh == SECRET && TokenSpent(w.server)
    ensures Run(more, done, FAMILY) && Calm(more, done, timely, allowed) && more[0] == ws[0] && |done| > 0
    ensures MeetsSpentToken(more[|done| - 1], FAMILY, done[|done| - 1])
  {
    var before := ws[|ws| - 1];
    more, done := TakeAndSend(ws, steps, FAMILY, timely, allowed, 2, 11);
    var w := more[|more| - 1];
    SameFamilySecrets(before.server, w.server, FAMILY);
    SpentMeansReuse(before.server, before.now);
    assert w.server.reqs[11] == Rotation.Presenting(SECRET, before.now);
    assert OfFamily(w.server, FAMILY, SECRET);
    more, done := Extend(more, done, FAMILY, timely, allowed, Server(Rotation.Lookup(11)));
    assert more[|done| - 1] == w;
  }

  /** Without timeliness: a holder that outlives its lease is overtaken, and the same token is
      sent twice although no step slips. */
  lemma AnOverrunReplays() returns (ws: seq<World>, steps: seq<Step>)
    ensures Run(ws, steps, FAMILY) && SignedIn(ws[0], FAMILY) && Calm(ws, steps, false, NoSlip) && |steps| > 0
    ensures MeetsSpentToken(ws[|steps| - 1], FAMILY, steps[|steps| - 1])
  {
    ws, steps := FirstHolderSpends(false, NoSlip);
    ws, steps := Extend(ws, steps, FAMILY, false, NoSlip, Tick(LEASE_MS + 1));
    ws, steps := SecondHolderReplays(ws, steps, false, NoSlip);
  }

  /** With nothing but misreported answers: a 408 or an undecodable 200 releases the lease of a
      spent token, although no lease is ever outlived. */
  lemma AMisreportReplays() returns (ws: seq<World>, steps: seq<Step>)
    ensures Run(ws, steps, FAMILY) && SignedIn(ws[0], FAMILY) && Calm(ws, steps, true, Misreports) && |steps| > 0
    ensures MeetsSpentToken(ws[|steps| - 1], FAMILY, steps[|steps| - 1])
  {
    ws, steps := FirstHolderSpends(true, Misreports);
    ws, steps := Extend(ws, steps, FAMILY, true, Misreports, Misreport(1));
    ws, steps := Extend(ws, steps, FAMILY, true, Misreports, Resolve(1));
    ws, steps := SecondHolderReplays(ws, steps, true, Misreports);
  }

  /** With nothing but failing commits: the pair arrives, the UPDATE throws, the catch-all unlocks
      the row, and the next process sends the spent token it still holds. */
  lemma AFailedCommitReplays() returns (ws: seq<World>, steps: seq<Step>)
    ensures Run(ws, steps, FAMILY) && SignedIn(ws[0], FAMILY) && Calm(ws, steps, true, FailedCommits) && |steps| > 0
    ensures MeetsSpentToken(ws[|steps| - 1], FAMILY, steps[|steps| - 1])
  {
    ws, steps := FirstHolderSpends(true, FailedCommits);
    ws, steps := PairArrives(ws, steps, FailedCommits);
    ws, steps := Extend(ws, steps, FAMILY, true, FailedCommits, CommitThrows(1));
    ws, steps := SecondHolderReplays(ws, steps, true, FailedCommits);
  }

  lemma PairArrives(ws: seq<World>, steps: seq<Step>, allowed: Allowed) returns (more: seq<World>, done: seq<Step>)
    requires Run(ws, steps, FAMILY) && Calm(ws, steps, true, allowed) && AnswerDue(ws[|ws| - 1])
    ensures Run(more, done, FAMILY) && Calm(more, done, true, allowed) && more[0] == ws[0]
    ensures var w, n := ws[|ws| - 1], more[|more| - 1];
      && n == w.(server := n.server, procs := n.procs) && TokenSpent(n.server)
      && n.procs.Keys == {1, 2} && n.procs[1].Got? && n.procs[1].answer.Pair? && n.procs[1].until == LEASE_MS
        && n.procs[2] == Idle
  {
    var s := ws[|ws| - 1].server;
    var id := FreshExists(s.log.Keys);
    var secret := Rotation.FreshSecretExists(s);
    var insert := Rotation.Insert(10, id, secret, 1_000_000);
    StaysSpent(s, insert);
    more, done := Extend(ws, steps, FAMILY, true, allowed, Server(insert));
    more, done := Extend(more, done, FAMILY, true, allowed, Receive(1, 4, 1_000_000));
  }

  lemma StaysSpent(s: Rotation.State, insert: Rotation.Step)
    requires TokenSpent(s) && insert.Insert? && Rotation.Enabled(s, insert) && insert.r == 10
    ensures TokenSpent(Rotation.Next(s, insert))
  {
    Rotation.KeepsInv(s, insert);
    assert Rotation.RowOk(s, ID);
    var n := Rotation.Next(s, insert);
    var id :| id in s.log && s.log[id].family == FAMILY && s.log[id].secret == SECRET;
    assert id in n.log && n.log[id] == s.log[id];
  }

  /** With nothing but crashes: a holder lost after it sent, or whose status update throws, leaves
      the row to the next process once the lease runs out. */
  lemma ACrashReplays() returns (ws: seq<World>, steps: seq<Step>)
    ensures Run(ws, steps, FAMILY) && SignedIn(ws[0], FAMILY) && Calm(ws, steps, true, Crashes) && |steps| > 0
    ensures MeetsSpentToken(ws[|steps| - 1], FAMILY, steps[|steps| - 1])
  {
    ws, steps := FirstHolderSpends(true, Crashes);
    ws, steps := Extend(ws, steps, FAMILY, true, Crashes, Crash(1));
    ws, steps := Extend(ws, steps, FAMILY, true, Crashes, Tick(LEASE_MS + 1));
    ws, steps := SecondHolderReplays(ws, steps, true, Crashes);
  }
}
