/** Accounts, logins and the lock that bounds guessing (src/service/account_service.rs,
    src/domain/user.rs). Instants are whole units of the clock. */
module Lockout {
  import opened Common

  datatype User = User(passwordHash: nat, failedAttempts: int, lockedUntil: Option<Time>) {
    predicate IsLockedAt(now: Time) {
      lockedUntil.Some? && lockedUntil.value > now
    }
  }

  datatype AppError = Unauthorized

  /** max_login_attempts and lockout_duration. */
  datatype Policy = Policy(maxAttempts: int, lockout: Time)

  function AfterFailure(policy: Policy, user: User, now: Time): User {
    var attempts := user.failedAttempts + 1;
    user.(failedAttempts := attempts,
          lockedUntil := if attempts >= policy.maxAttempts then Some(now + policy.lockout) else None)
  }

  function AfterAttempt(policy: Policy, user: User, matches: bool, now: Time): User {
    if user.IsLockedAt(now) then user
    else if !matches then AfterFailure(policy, user, now)
    else if user.failedAttempts > 0 || user.lockedUntil.Some? then user.(failedAttempts := 0, lockedUntil := None)
    else user
  }

  class AccountService {
    var users: map<string, User>
    const policy: Policy
    const verify: (string, nat) -> bool

    constructor (policy: Policy, verify: (string, nat) -> bool)
      ensures users == map[] && this.policy == policy && this.verify == verify
    {
      users := map[];
      this.policy := policy;
      this.verify := verify;
    }

    /** `email` is already normalised. A correct password on a locked account is refused, and
        no refusal says which of the three reasons applied. */
    method Authenticate(email: string, password: string, now: Time) returns (answer: Result<User, AppError>)
      modifies this
      ensures email !in old(users) ==> answer.Err? && users == old(users)
      ensures email in old(users) ==>
        var user := old(users)[email];
        var matches := verify(password, user.passwordHash);
        && users == old(users)[email := AfterAttempt(policy, user, matches, now)]
        && (answer.Ok? <==> matches && !user.IsLockedAt(now))
        && (answer.Ok? ==> answer.value == user)
        && (answer.Ok? ==> users[email] == user.(failedAttempts := 0, lockedUntil := None) || users[email] == user)
        && (answer.Ok? && user.failedAttempts >= 0 ==> users[email] == user.(failedAttempts := 0, lockedUntil := None))
        && (answer.Err? && !user.IsLockedAt(now) ==> users[email].failedAttempts == user.failedAttempts + 1)
        && (user.IsLockedAt(now) ==> users[email] == user)
        && users[email].passwordHash == user.passwordHash
    {
      if email !in users {
        return Err(Unauthorized);
      }
      var user := users[email];
      var matches := verify(password, user.passwordHash);
      if user.IsLockedAt(now) {
        return Err(Unauthorized);
      }
      if !matches {
        RecordFailure(email, user, now);
        return Err(Unauthorized);
      }
      if user.failedAttempts > 0 || user.lockedUntil.Some? {
        users := users[email := user.(failedAttempts := 0, lockedUntil := None)];
      }
      return Ok(user);
    }

    /** Writes an absolute count, computed from the record as it was read. */
    method RecordFailure(email: string, read: User, now: Time)
      requires email in users
      modifies this
      ensures users == old(users)[email := WriteBack(policy, old(users)[email], read, now)]
    {
      var attempts := read.failedAttempts + 1;
      var until := None;
      if attempts >= policy.maxAttempts {
        until := Some(now + policy.lockout);
      }
      users := users[email := users[email].(failedAttempts := attempts, lockedUntil := until)];
    }
  }

  function WriteBack(policy: Policy, stored: User, read: User, now: Time): User {
    stored.(failedAttempts := AfterFailure(policy, read, now).failedAttempts,
            lockedUntil := AfterFailure(policy, read, now).lockedUntil)
  }

  // ----- how many wrong passwords a window of time admits

  datatype Attempt = Attempt(now: Time, matches: bool)

  /** The record after these attempts, each run atomically. */
  function Replay(policy: Policy, user: User, attempts: seq<Attempt>): User {
    if attempts == [] then user
    else
      var last := attempts[|attempts| - 1];
      AfterAttempt(policy, Replay(policy, user, attempts[..|attempts| - 1]), last.matches, last.now)
  }

  /** The k-th attempt put a wrong password to an unlocked account. */
  predicate IsGuess(policy: Policy, user: User, attempts: seq<Attempt>, k: nat)
    requires k < |attempts|
  {
    !attempts[k].matches && !Replay(policy, user, attempts[..k]).IsLockedAt(attempts[k].now)
  }

  function Guesses(policy: Policy, user: User, attempts: seq<Attempt>, i: nat, j: nat): nat
    requires i <= j <= |attempts|
    decreases j - i
  {
    if i == j then 0
    else Guesses(policy, user, attempts, i, j - 1) + if IsGuess(policy, user, attempts, j - 1) then 1 else 0
  }

  /** Nobody gets in: every attempt with the right password meets a lock. */
  ghost predicate NoSuccess(policy: Policy, user: User, attempts: seq<Attempt>) {
    forall k | 0 <= k < |attempts| ::
      attempts[k].matches ==> Replay(policy, user, attempts[..k]).IsLockedAt(attempts[k].now)
  }

  ghost predicate Ordered(attempts: seq<Attempt>) {
    forall a, b | 0 <= a <= b < |attempts| :: attempts[a].now <= attempts[b].now
  }

  /** Guesses that lock nothing: those before the threshold, and at least the first. */
  function Free(policy: Policy): int {
    if policy.maxAttempts > 1 then policy.maxAttempts else 1
  }

  lemma OneMore(policy: Policy, user: User, attempts: seq<Attempt>, k: nat)
    requires k < |attempts|
    ensures Replay(policy, user, attempts[..k + 1])
      == AfterAttempt(policy, Replay(policy, user, attempts[..k]), attempts[k].matches, attempts[k].now)
  {
    assert attempts[..k + 1][..k] == attempts[..k];
  }

  /** Without a success the count never falls below the guesses made. */
  lemma {:induction false} FailuresAccumulate(policy: Policy, user: User, attempts: seq<Attempt>, i: nat, j: nat)
    requires i <= j <= |attempts| && NoSuccess(policy, user, attempts) && user.failedAttempts >= 0
    ensures Replay(policy, user, attempts[..j]).failedAttempts >= Guesses(policy, user, attempts, i, j)
    decreases j
  {
    if j > 0 {
      OneMore(policy, user, attempts, j - 1);
      FailuresAccumulate(policy, user, attempts, if i < j then i else j - 1, j - 1);
    } else {
      assert attempts[..0] == [];
    }
  }

  /** After `n` guesses since `start`: the lock lies n - free + 1 lockouts ahead, and the last
      guess, which had to wait for the lock before it, was still inside the window. */
  ghost predicate LockLiesAhead(policy: Policy, user: User, n: nat, start: Time, span: Time) {
    var excess := n - Free(policy);
    && (excess > 0 ==> excess * policy.lockout <= span)
    && (excess >= 0 ==>
          && user.lockedUntil.Some?
          && user.lockedUntil.value >= start + excess * policy.lockout + policy.lockout)
  }

  lemma GuessPushesLock(policy: Policy, user: User, n: nat, start: Time, span: Time, now: Time)
    requires LockLiesAhead(policy, user, n, start, span) && policy.lockout > 0
    requires user.failedAttempts >= n && !user.IsLockedAt(now) && start <= now <= start + span
    ensures LockLiesAhead(policy, AfterFailure(policy, user, now), n + 1, start, span)
  {
    var excess := n - Free(policy);
    Distribute(excess, policy.lockout);
  }

  lemma {:induction false} LockAdvances(policy: Policy, user: User, attempts: seq<Attempt>, i: nat, j: nat,
      start: Time, span: Time)
    requires i <= j <= |attempts| && NoSuccess(policy, user, attempts)
    requires user.failedAttempts >= 0 && policy.lockout > 0
    requires forall k | i <= k < j :: start <= attempts[k].now <= start + span
    ensures LockLiesAhead(policy, Replay(policy, user, attempts[..j]), Guesses(policy, user, attempts, i, j), start,
      span)
    decreases j - i
  {
    if i < j {
      LockAdvances(policy, user, attempts, i, j - 1, start, span);
      OneMore(policy, user, attempts, j - 1);
      FailuresAccumulate(policy, user, attempts, i, j - 1);
      if IsGuess(policy, user, attempts, j - 1) {
        GuessPushesLock(policy, Replay(policy, user, attempts[..j - 1]), Guesses(policy, user, attempts, i, j - 1),
          start, span, attempts[j - 1].now);
      }
    }
  }

  lemma GuessBoundByLocks(policy: Policy, user: User, attempts: seq<Attempt>, i: nat, j: nat, start: Time, span: Time,
      locks: nat)
    requires i <= j <= |attempts| && NoSuccess(policy, user, attempts)
    requires user.failedAttempts >= 0 && policy.lockout > 0 && span < (locks + 1) * policy.lockout
    requires forall k | i <= k < j :: start <= attempts[k].now <= start + span
    ensures Guesses(policy, user, attempts, i, j) <= Free(policy) + locks
  {
    LockAdvances(policy, user, attempts, i, j, start, span);
    var excess := Guesses(policy, user, attempts, i, j) - Free(policy);
    if excess > locks {
      ScaleUp(locks + 1, excess, policy.lockout);
      assert false;
    }
  }

  lemma QuotientBelow(n: int, d: int)
    requires d > 0 && n >= 0
    ensures n / d >= 0 && n < (n / d + 1) * d
  {
    var q := n / d;
    assert n == q * d + n % d;
    Distribute(q, d);
  }

  /** The bound: with no success and a positive lockout, the wrong passwords evaluated by
      consecutive attempts inside any closed window of length `span` number at most
      max(1, max_login_attempts) + floor(span / lockout). Under a clock that never goes back,
      the attempts of a window are consecutive. */
  lemma GuessBound(policy: Policy, user: User, attempts: seq<Attempt>, i: nat, j: nat, start: Time, span: Time)
    requires i <= j <= |attempts| && NoSuccess(policy, user, attempts)
    requires user.failedAttempts >= 0 && policy.lockout > 0 && span >= 0
    requires forall k | i <= k < j :: start <= attempts[k].now <= start + span
    ensures Guesses(policy, user, attempts, i, j) <= Free(policy) + span / policy.lockout
  {
    QuotientBelow(span, policy.lockout);
    var locks := span / policy.lockout;
    GuessBoundByLocks(policy, user, attempts, i, j, start, span, locks);
  }

  /** An attempt that meets a lock changes nothing, right or wrong. */
  lemma LockedAttemptsChangeNothing(policy: Policy, user: User, attempts: seq<Attempt>, k: nat)
    requires k < |attempts| && Replay(policy, user, attempts[..k]).IsLockedAt(attempts[k].now)
    ensures Replay(policy, user, attempts[..k + 1]) == Replay(policy, user, attempts[..k])
  {
    OneMore(policy, user, attempts, k);
  }

  // ----- what a success clears

  /** The k-th attempt logs in. */
  predicate IsSuccess(policy: Policy, user: User, attempts: seq<Attempt>, k: nat)
    requires k < |attempts|
  {
    attempts[k].matches && !Replay(policy, user, attempts[..k]).IsLockedAt(attempts[k].now)
  }

  lemma {:induction false} CountNeverNegative(policy: Policy, user: User, attempts: seq<Attempt>, j: nat)
    requires user.failedAttempts >= 0 && j <= |attempts|
    ensures Replay(policy, user, attempts[..j]).failedAttempts >= 0
  {
    if j > 0 {
      CountNeverNegative(policy, user, attempts, j - 1);
      OneMore(policy, user, attempts, j - 1);
    } else {
      assert attempts[..0] == [];
    }
  }

  /** A success leaves no failure and no lock on record, and the password as it was. */
  lemma SuccessClears(policy: Policy, user: User, attempts: seq<Attempt>, k: nat)
    requires user.failedAttempts >= 0 && k < |attempts| && IsSuccess(policy, user, attempts, k)
    ensures var before, after := Replay(policy, user, attempts[..k]), Replay(policy, user, attempts[..k + 1]);
      after == before.(failedAttempts := 0, lockedUntil := None)
  {
    CountNeverNegative(policy, user, attempts, k);
    OneMore(policy, user, attempts, k);
  }

  /** Over any run: the stored count is what it was, or 0 after the last success, plus the wrong passwords
      evaluated since. */
  lemma {:induction false} CountIsSinceLastSuccess(policy: Policy, user: User, attempts: seq<Attempt>, i: nat, j: nat)
    requires i <= j <= |attempts| && forall k | i <= k < j :: !IsSuccess(policy, user, attempts, k)
    ensures Replay(policy, user, attempts[..j]).failedAttempts
      == Replay(policy, user, attempts[..i]).failedAttempts + Guesses(policy, user, attempts, i, j)
    decreases j - i
  {
    if i < j {
      CountIsSinceLastSuccess(policy, user, attempts, i, j - 1);
      OneMore(policy, user, attempts, j - 1);
      var before, last := Replay(policy, user, attempts[..j - 1]), attempts[j - 1];
      assert !IsSuccess(policy, user, attempts, j - 1);
      assert IsGuess(policy, user, attempts, j - 1) <==> !before.IsLockedAt(last.now);
      assert Guesses(policy, user, attempts, i, j)
        == Guesses(policy, user, attempts, i, j - 1) + if IsGuess(policy, user, attempts, j - 1) then 1 else 0;
    }
  }

  /** So after a success max_login_attempts - 1 wrong passwords lock nothing, and the next one does. */
  lemma {:induction false} ThresholdCountsFromSuccess(policy: Policy, user: User, attempts: seq<Attempt>, i: nat,
      j: nat)
    requires user.failedAttempts >= 0 && policy.lockout > 0
    requires i < j <= |attempts| && IsSuccess(policy, user, attempts, i)
    requires forall k | i < k < j :: !IsSuccess(policy, user, attempts, k)
    ensures Guesses(policy, user, attempts, i + 1, j) < policy.maxAttempts ==>
      Replay(policy, user, attempts[..j]).lockedUntil.None?
    ensures i + 1 < j && IsGuess(policy, user, attempts, j - 1)
            && Guesses(policy, user, attempts, i + 1, j) >= policy.maxAttempts ==>
      Replay(policy, user, attempts[..j]).lockedUntil == Some(attempts[j - 1].now + policy.lockout)
    decreases j
  {
    SuccessClears(policy, user, attempts, i);
    CountIsSinceLastSuccess(policy, user, attempts, i + 1, j);
    if i + 1 < j {
      ThresholdCountsFromSuccess(policy, user, attempts, i, j - 1);
      OneMore(policy, user, attempts, j - 1);
    }
  }

  // ----- the bound is reached

  /** The patient guesser: the free guesses at once, then one as each lock runs out. */
  function Patient(policy: Policy, n: nat): seq<Attempt> {
    seq(n, k requires 0 <= k => Attempt(PatientTime(policy, k), false))
  }

  function PatientTime(policy: Policy, k: nat): Time {
    if k < Free(policy) then 0 else (k - Free(policy) + 1) * policy.lockout
  }

  lemma {:induction false} PatientIsNeverLockedOut(policy: Policy, user: User, n: nat, j: nat)
    requires j <= n && user.failedAttempts == 0 && user.lockedUntil.None? && policy.lockout > 0
    ensures Guesses(policy, user, Patient(policy, n), 0, j) == j
    ensures var after := Replay(policy, user, Patient(policy, n)[..j]);
      && after.failedAttempts == j
      && (j < Free(policy) ==> after.lockedUntil.None?)
      && (j >= Free(policy) ==> after.lockedUntil == Some((j - Free(policy) + 1) * policy.lockout))
  {
    var attempts := Patient(policy, n);
    if j == 0 {
      assert attempts[..0] == [];
    } else {
      PatientIsNeverLockedOut(policy, user, n, j - 1);
      OneMore(policy, user, attempts, j - 1);
      PatientGuessLocks(policy, Replay(policy, user, attempts[..j - 1]), j);
    }
  }

  lemma PatientGuessLocks(policy: Policy, before: User, j: nat)
    requires j > 0 && policy.lockout > 0 && before.failedAttempts == j - 1
    requires j - 1 < Free(policy) ==> before.lockedUntil.None?
    requires j - 1 >= Free(policy) ==> before.lockedUntil == Some((j - Free(policy)) * policy.lockout)
    ensures var now := PatientTime(policy, j - 1);
      && !before.IsLockedAt(now)
      && AfterFailure(policy, before, now).lockedUntil
           == if j < Free(policy) then None else Some((j - Free(policy) + 1) * policy.lockout)
  {
    Distribute(j - Free(policy), policy.lockout);
  }

  /** No smaller bound holds: every window admits a run that makes exactly that many guesses.
      `locks` is floor(span / lockout). */
  lemma BoundIsReached(policy: Policy, user: User, span: Time, locks: nat)
    requires user.failedAttempts == 0 && user.lockedUntil.None? && policy.lockout > 0
    requires locks * policy.lockout <= span < (locks + 1) * policy.lockout
    ensures var attempts := Patient(policy, Free(policy) + locks);
      && NoSuccess(policy, user, attempts) && Ordered(attempts)
      && (forall k | 0 <= k < |attempts| :: 0 <= attempts[k].now <= span)
      && Guesses(policy, user, attempts, 0, |attempts|) == Free(policy) + locks
  {
    var n := Free(policy) + locks;
    PatientIsNeverLockedOut(policy, user, n, n);
    forall a, b | 0 <= a <= b < n
      ensures 0 <= Patient(policy, n)[a].now <= Patient(policy, n)[b].now <= span
    {
      PatientTimesGrow(policy, a, b, locks);
    }
  }

  lemma PatientTimesGrow(policy: Policy, a: nat, b: nat, locks: nat)
    requires a <= b < Free(policy) + locks && policy.lockout > 0
    ensures 0 <= PatientTime(policy, a) <= PatientTime(policy, b) <= locks * policy.lockout
  {
    var x, y := a - Free(policy) + 1, b - Free(policy) + 1;
    ScaleUp(0, locks, policy.lockout);
    if x > 0 {
      ScaleUp(0, x, policy.lockout);
      ScaleUp(x, y, policy.lockout);
    }
    if y > 0 {
      ScaleUp(0, y, policy.lockout);
      ScaleUp(y, locks, policy.lockout);
    }
  }

  // ----- logins that overlap

  /** A failure is counted as an atomic one would be exactly when the stored count is still the one
      that was read. */
  lemma StaleWriteIsAtomicIff(policy: Policy, stored: User, read: User, now: Time)
    requires !stored.IsLockedAt(now)
    ensures WriteBack(policy, stored, read, now) == AfterAttempt(policy, stored, false, now)
      <==> stored.failedAttempts == read.failedAttempts
  {
  }

  /** A late failure opens an account that is locked at t exactly when the count it read was below
      the threshold, or the lock it sets itself has run out by then. */
  lemma StaleWriteUnlocksIff(policy: Policy, stored: User, read: User, now: Time, t: Time)
    requires stored.IsLockedAt(t)
    ensures !WriteBack(policy, stored, read, now).IsLockedAt(t)
      <==> read.failedAttempts + 1 < policy.maxAttempts || now + policy.lockout <= t
  {
  }

  /** A login with a wrong password that found the account open and has still to write. */
  datatype Pending = Pending(read: User, now: Time)

  /** `clocked` are the logins that have read the clock and not yet the record. */
  datatype Logins = Logins(user: User, clocked: seq<Time>, pending: seq<Pending>, guesses: nat)

  /** Logins with wrong passwords: one reads the clock, then the record, then writes its failure. */
  datatype Move = Clock(now: Time) | Read(k: nat) | Write(k: nat)

  predicate CanMove(s: Logins, m: Move) {
    match m
    case Clock(_) => true
    case Read(k) => k < |s.clocked|
    case Write(k) => k < |s.pending|
  }

  function Without<T>(all: seq<T>, k: nat): seq<T>
    requires k < |all|
  {
    all[..k] + all[k + 1..]
  }

  function Moved(policy: Policy, s: Logins, m: Move): Logins
    requires CanMove(s, m)
  {
    match m
    case Clock(now) => s.(clocked := s.clocked + [now])
    case Read(k) =>
      var now, rest := s.clocked[k], Without(s.clocked, k);
      if s.user.IsLockedAt(now) then s.(clocked := rest)
      else Logins(s.user, rest, s.pending + [Pending(s.user, now)], s.guesses + 1)
    case Write(k) =>
      s.(user := WriteBack(policy, s.user, s.pending[k].read, s.pending[k].now), pending := Without(s.pending, k))
  }

  predicate Possible(policy: Policy, s: Logins, moves: seq<Move>)
    decreases |moves|
  {
    moves == [] || (CanMove(s, moves[0]) && Possible(policy, Moved(policy, s, moves[0]), moves[1..]))
  }

  function After(policy: Policy, s: Logins, moves: seq<Move>): Logins
    requires Possible(policy, s, moves)
    decreases |moves|
  {
    if moves == [] then s else After(policy, Moved(policy, s, moves[0]), moves[1..])
  }

  function UnderWay(s: Logins): nat {
    |s.clocked| + |s.pending|
  }

  /** At no moment are more than c logins under way. */
  predicate Overlap(policy: Policy, s: Logins, moves: seq<Move>, c: nat)
    requires Possible(policy, s, moves)
    decreases |moves|
  {
    UnderWay(s) <= c && (moves == [] || Overlap(policy, Moved(policy, s, moves[0]), moves[1..], c))
  }

  /** c + c^2 + ... + c^h. */
  function Tree(c: nat, h: int): nat
    decreases h
  {
    if h <= 0 then 0 else c * (1 + Tree(c, h - 1))
  }

  lemma {:induction false} TreeGrows(c: nat, g: int, h: int)
    requires g <= h
    ensures Tree(c, g) <= Tree(c, h)
    decreases h
  {
    if g > 0 {
      TreeGrows(c, g - 1, h - 1);
      ScaleUp(1 + Tree(c, g - 1), 1 + Tree(c, h - 1), c);
    }
  }

  // What a state can still lead to, inside a window that is shorter than the lockout.

  datatype Window = Window(policy: Policy, c: nat, start: Time, end: Time)

  predicate LockedThrough(w: Window, user: User) {
    user.lockedUntil.Some? && user.lockedUntil.value > w.end
  }

  /** The guesses a failure still to be written can make room for. One from before the window may
      set a lock that runs out inside it. */
  function Weight(w: Window, p: Pending): nat {
    if p.now < w.start then Tree(w.c, Free(w.policy))
    else Tree(w.c, w.policy.maxAttempts - (p.read.failedAttempts + 1))
  }

  function Weights(w: Window, pending: seq<Pending>): nat {
    if pending == [] then 0 else Weight(w, pending[0]) + Weights(w, pending[1..])
  }

  lemma {:induction false} WeightsAdd(w: Window, a: seq<Pending>, b: seq<Pending>)
    ensures Weights(w, a + b) == Weights(w, a) + Weights(w, b)
  {
    if a == [] {
      assert a + b == b;
    } else {
      assert (a + b)[1..] == a[1..] + b;
      WeightsAdd(w, a[1..], b);
    }
  }

  lemma WeightsWithout(w: Window, pending: seq<Pending>, k: nat)
    requires k < |pending|
    ensures Weights(w, Without(pending, k)) == Weights(w, pending) - Weight(w, pending[k])
  {
    assert pending == pending[..k] + pending[k..];
    assert pending[k..][0] == pending[k] && pending[k..][1..] == pending[k + 1..];
    WeightsAdd(w, pending[..k], pending[k..]);
    WeightsAdd(w, pending[..k], pending[k + 1..]);
  }

  lemma {:induction false} WeightsAtMost(w: Window, pending: seq<Pending>)
    requires forall p <- pending :: p.read.failedAttempts >= 0
    ensures Weights(w, pending) <= |pending| * Tree(w.c, Free(w.policy))
  {
    if pending != [] {
      var p, rest := pending[0], pending[1..];
      WeightsAtMost(w, rest);
      TreeGrows(w.c, w.policy.maxAttempts - (p.read.failedAttempts + 1), Free(w.policy));
      Distribute(|rest|, Tree(w.c, Free(w.policy)));
    }
  }

  /** The same for logins that read the clock before the window: each may still guess. */
  function Stale(w: Window, clocked: seq<Time>): nat {
    if clocked == [] then 0
    else (if clocked[0] < w.start then 1 + Tree(w.c, Free(w.policy)) else 0) + Stale(w, clocked[1..])
  }

  lemma {:induction false} StaleAdds(w: Window, a: seq<Time>, b: seq<Time>)
    ensures Stale(w, a + b) == Stale(w, a) + Stale(w, b)
  {
    if a == [] {
      assert a + b == b;
    } else {
      assert (a + b)[1..] == a[1..] + b;
      StaleAdds(w, a[1..], b);
    }
  }

  lemma StaleWithout(w: Window, clocked: seq<Time>, k: nat)
    requires k < |clocked|
    ensures Stale(w, Without(clocked, k))
      == Stale(w, clocked) - if clocked[k] < w.start then 1 + Tree(w.c, Free(w.policy)) else 0
  {
    assert clocked == clocked[..k] + clocked[k..];
    assert clocked[k..][0] == clocked[k] && clocked[k..][1..] == clocked[k + 1..];
    StaleAdds(w, clocked[..k], clocked[k..]);
    StaleAdds(w, clocked[..k], clocked[k + 1..]);
  }

  lemma {:induction false} StaleAtMost(w: Window, clocked: seq<Time>)
    ensures Stale(w, clocked) <= |clocked| * (1 + Tree(w.c, Free(w.policy)))
  {
    if clocked != [] {
      StaleAtMost(w, clocked[1..]);
      Distribute(|clocked| - 1, 1 + Tree(w.c, Free(w.policy)));
    }
  }

  /** The guesses that reads before the next write can make room for, if `begun` have. */
  function Room(w: Window, user: User, begun: nat): int {
    if LockedThrough(w, user) then 0
    else (w.c - begun) * (1 + Tree(w.c, w.policy.maxAttempts - (user.failedAttempts + 1)))
  }

  /** Everything a state has guessed and can still guess before the window closes. */
  function Potential(w: Window, s: Logins, begun: nat): int {
    s.guesses + Weights(w, s.pending) + Stale(w, s.clocked) + Room(w, s.user, begun)
  }

  ghost predicate Sane(s: Logins) {
    s.user.failedAttempts >= 0 && forall p <- s.pending :: p.read.failedAttempts >= 0
  }

  /** No clock has been read past the window, and none will be read outside it. */
  ghost predicate Inside(w: Window, s: Logins, moves: seq<Move>) {
    && (forall t <- s.clocked :: t <= w.end)
    && (forall m <- moves :: m.Clock? ==> w.start <= m.now <= w.end)
  }

  lemma RoomAtMost(w: Window, user: User)
    requires user.failedAttempts >= 0
    ensures Room(w, user, 0) <= Tree(w.c, Free(w.policy))
  {
    TreeGrows(w.c, w.policy.maxAttempts - (user.failedAttempts + 1), Free(w.policy) - 1);
    ScaleUp(1 + Tree(w.c, w.policy.maxAttempts - (user.failedAttempts + 1)), 1 + Tree(w.c, Free(w.policy) - 1), w.c);
  }

  lemma ClockSpendsNothing(w: Window, s: Logins, now: Time, begun: nat)
    requires w.start <= now
    ensures Potential(w, Moved(w.policy, s, Clock(now)), begun) == Potential(w, s, begun)
  {
    StaleAdds(w, s.clocked, [now]);
  }

  /** A read inside the window uses up one of the reads there is room for; one whose clock is older
      has its own allowance. */
  lemma ReadSpends(w: Window, s: Logins, k: nat, begun: nat)
    requires k < |s.clocked| && s.clocked[k] <= w.end && !s.user.IsLockedAt(s.clocked[k])
    ensures Potential(w, Moved(w.policy, s, Read(k)), if s.clocked[k] < w.start then begun else begun + 1)
      == Potential(w, s, begun)
  {
    var now := s.clocked[k];
    StaleWithout(w, s.clocked, k);
    WeightsAdd(w, s.pending, [Pending(s.user, now)]);
    assert Weights(w, [Pending(s.user, now)]) == Weight(w, Pending(s.user, now));
    Distribute(w.c - begun - 1, 1 + Tree(w.c, w.policy.maxAttempts - (s.user.failedAttempts + 1)));
  }

  lemma WriteSpends(w: Window, s: Logins, k: nat, begun: nat)
    requires k < |s.pending| && begun <= w.c && Sane(s) && w.end - w.start < w.policy.lockout
    ensures Potential(w, Moved(w.policy, s, Write(k)), 0) <= Potential(w, s, begun)
    ensures Sane(Moved(w.policy, s, Write(k)))
  {
    var p := s.pending[k];
    var n := Moved(w.policy, s, Write(k));
    WeightsWithout(w, s.pending, k);
    ScaleUp(0, w.c - begun, 1 + Tree(w.c, w.policy.maxAttempts - (s.user.failedAttempts + 1)));
    assert p in s.pending;
    if p.now < w.start {
      RoomAtMost(w, n.user);
    }
    forall q | q in n.pending ensures q in s.pending {}
  }

  lemma {:induction false} WindowBound(w: Window, s: Logins, moves: seq<Move>, begun: nat)
    requires Possible(w.policy, s, moves) && Overlap(w.policy, s, moves, w.c) && Inside(w, s, moves)
    requires Sane(s) && begun <= |s.pending| && w.end - w.start < w.policy.lockout
    ensures var n := After(w.policy, s, moves);
      n.guesses <= Potential(w, s, begun) && Sane(n) && UnderWay(n) <= w.c && Inside(w, n, [])
    decreases |moves|
  {
    if moves == [] {
      ScaleUp(0, w.c - begun, 1 + Tree(w.c, w.policy.maxAttempts - (s.user.failedAttempts + 1)));
    } else {
      var m, rest := moves[0], moves[1..];
      var n := Moved(w.policy, s, m);
      assert m in moves;
      match m
      case Clock(now) =>
        ClockSpendsNothing(w, s, now, begun);
        WindowBound(w, n, rest, begun);
      case Read(k) =>
        assert s.clocked[k] in s.clocked && forall t | t in n.clocked :: t in s.clocked;
        if s.user.IsLockedAt(s.clocked[k]) {
          StaleWithout(w, s.clocked, k);
          WindowBound(w, n, rest, begun);
        } else {
          ReadSpends(w, s, k, begun);
          WindowBound(w, n, rest, if s.clocked[k] < w.start then begun else begun + 1);
        }
      case Write(k) =>
        WriteSpends(w, s, k, begun);
        WindowBound(w, n, rest, 0);
    }
  }

  function Opened(user: User): Logins {
    Logins(user, [], [], 0)
  }

  /** A run of logins that opens with none under way and has at most c under way at once, whose
      clocks are read inside a closed window. */
  ghost predicate Admits(policy: Policy, user: User, moves: seq<Move>, c: nat, start: Time, span: Time) {
    && Possible(policy, Opened(user), moves) && Overlap(policy, Opened(user), moves, c)
    && forall m <- moves :: m.Clock? ==> start <= m.now <= start + span
  }

  /** With at most c logins under way at once, and none when the window opens: in a window shorter
      than the lockout, at most c + c^2 + ... + c^max(1, max_login_attempts) wrong passwords. */
  lemma OverlapBoundFresh(policy: Policy, user: User, moves: seq<Move>, c: nat, start: Time, span: Time)
    requires user.failedAttempts >= 0 && span < policy.lockout && Admits(policy, user, moves, c, start, span)
    ensures After(policy, Opened(user), moves).guesses <= Tree(c, Free(policy))
  {
    var w := Window(policy, c, start, start + span);
    WindowBound(w, Opened(user), moves, 0);
    RoomAtMost(w, user);
  }

  /** What c logins under way can add to a window, and to the next: (c + 1)(c + ... + c^h) + c. */
  function Unit(policy: Policy, c: nat): nat {
    (c + 1) * Tree(c, Free(policy)) + c
  }

  lemma AllowancesAddUp(pending: nat, clocked: nat, c: nat, tree: nat)
    requires pending + clocked <= c
    ensures pending * tree + clocked * (1 + tree) + tree <= (c + 1) * tree + c
  {
    assert clocked * (1 + tree) == clocked + clocked * tree;
    assert pending * tree + clocked * tree == (pending + clocked) * tree;
    ScaleUp(pending + clocked, c, tree);
    Distribute(c, tree);
  }

  lemma OverlapBoundShort(policy: Policy, s: Logins, moves: seq<Move>, c: nat, start: Time, span: Time)
    requires span < policy.lockout && Possible(policy, s, moves) && Overlap(policy, s, moves, c) && Sane(s)
    requires Inside(Window(policy, c, start, start + span), s, moves)
    ensures var n := After(policy, s, moves);
      && n.guesses <= s.guesses + Unit(policy, c)
      && Sane(n) && UnderWay(n) <= c && Inside(Window(policy, c, start, start + span), n, [])
  {
    var w := Window(policy, c, start, start + span);
    var tree := Tree(c, Free(policy));
    WindowBound(w, s, moves, 0);
    RoomAtMost(w, s.user);
    WeightsAtMost(w, s.pending);
    StaleAtMost(w, s.clocked);
    AllowancesAddUp(|s.pending|, |s.clocked|, c, tree);
  }

  lemma {:induction false} RunSplits(policy: Policy, s: Logins, a: seq<Move>, b: seq<Move>, c: nat)
    requires Possible(policy, s, a + b) && Overlap(policy, s, a + b, c)
    ensures Possible(policy, s, a) && Overlap(policy, s, a, c)
    ensures Possible(policy, After(policy, s, a), b) && Overlap(policy, After(policy, s, a), b, c)
    ensures After(policy, s, a + b) == After(policy, After(policy, s, a), b)
    decreases |a|
  {
    if a == [] {
      assert a + b == b;
    } else {
      assert (a + b)[1..] == a[1..] + b && (a + b)[0] == a[0];
      RunSplits(policy, Moved(policy, s, a[0]), a[1..], b, c);
    }
  }

  /** The clock never goes back: it is read in order, though records may be read out of order. */
  predicate ClockInOrder(moves: seq<Move>) {
    forall i, j | 0 <= i <= j < |moves| && moves[i].Clock? && moves[j].Clock? :: moves[i].now <= moves[j].now
  }

  /** The moves before the first clock reading at or after t. */
  lemma {:induction false} SplitAt(moves: seq<Move>, t: Time) returns (n: nat)
    requires ClockInOrder(moves)
    ensures n <= |moves|
    ensures forall m <- moves[..n] :: m.Clock? ==> m.now < t
    ensures forall m <- moves[n..] :: m.Clock? ==> m.now >= t
  {
    n := 0;
    while n < |moves| && (moves[n].Clock? ==> moves[n].now < t)
      invariant n <= |moves|
      invariant forall m <- moves[..n] :: m.Clock? ==> m.now < t
    {
      n := n + 1;
    }
  }

  /** The bound for overlapping logins: with at most c under way at once, a closed window of length
      less than (locks + 1) * lockout sees at most (locks + 1) * Unit wrong passwords evaluated,
      whatever was under way before. */
  lemma {:induction false} OverlapBound(
    policy: Policy, s: Logins, moves: seq<Move>, c: nat, start: Time, span: Time, locks: nat)
    requires policy.lockout > 0 && 0 <= span < (locks + 1) * policy.lockout
    requires Possible(policy, s, moves) && Overlap(policy, s, moves, c) && ClockInOrder(moves) && Sane(s)
    requires forall t <- s.clocked :: t <= start
    requires forall m <- moves :: m.Clock? ==> start <= m.now <= start + span
    ensures After(policy, s, moves).guesses <= s.guesses + (locks + 1) * Unit(policy, c)
    decreases locks
  {
    var L := policy.lockout;
    if span < L {
      OverlapBoundShort(policy, s, moves, c, start, span);
      ScaleUp(1, locks + 1, Unit(policy, c));
    } else {
      assert locks > 0;
      var b, n := FirstLockout(policy, s, moves, c, start, span);
      ShorterBy(span, locks, L);
      OverlapBound(policy, n, b, c, start + L, span - L, locks - 1);
      Distribute(locks, Unit(policy, c));
    }
  }

  lemma ShorterBy(span: Time, locks: int, unit: int)
    requires span < (locks + 1) * unit
    ensures span - unit < locks * unit
  {
    Distribute(locks, unit);
  }

  /** The moves of a window up to its first lockout: what they leave, and the moves that follow. */
  lemma FirstLockout(policy: Policy, s: Logins, moves: seq<Move>, c: nat, start: Time, span: Time)
    returns (b: seq<Move>, n: Logins)
    requires policy.lockout > 0 && span >= policy.lockout
    requires Possible(policy, s, moves) && Overlap(policy, s, moves, c) && ClockInOrder(moves) && Sane(s)
    requires forall t <- s.clocked :: t <= start
    requires forall m <- moves :: m.Clock? ==> start <= m.now <= start + span
    ensures n.guesses <= s.guesses + Unit(policy, c) && Sane(n)
    ensures Possible(policy, n, b) && Overlap(policy, n, b, c) && ClockInOrder(b)
    ensures After(policy, n, b) == After(policy, s, moves)
    ensures forall t <- n.clocked :: t <= start + policy.lockout
    ensures forall m <- b :: m.Clock? ==> start + policy.lockout <= m.now <= start + span
  {
    var L := policy.lockout;
    var k := SplitAt(moves, start + L);
    var a := moves[..k];
    b := moves[k..];
    assert moves == a + b;
    RunSplits(policy, s, a, b, c);
    OverlapBoundShort(policy, s, a, c, start, L - 1);
    n := After(policy, s, a);
  }

  // ----- one login at a time

  lemma {:induction false} GuessesOfPrefix(policy: Policy, user: User, a: seq<Attempt>, x: Attempt, j: nat)
    requires j <= |a|
    ensures Guesses(policy, user, a + [x], 0, j) == Guesses(policy, user, a, 0, j)
    decreases j
  {
    if j > 0 {
      GuessesOfPrefix(policy, user, a, x, j - 1);
      assert (a + [x])[..j - 1] == a[..j - 1];
    }
  }

  /** What atomic attempts leave behind: the state of logins that never overlap is theirs, but for a
      failure that the last of them has still to write. */
  ghost predicate IsReplayOf(policy: Policy, user: User, attempts: seq<Attempt>, s: Logins) {
    && s.guesses == Guesses(policy, user, attempts, 0, |attempts|)
    && if s.pending == [] then s.user == Replay(policy, user, attempts)
       else
         && attempts != []
         && var last := attempts[|attempts| - 1];
         && s.user == Replay(policy, user, attempts[..|attempts| - 1])
         && s.pending == [Pending(s.user, last.now)] && !last.matches && !s.user.IsLockedAt(last.now)
  }

  lemma ReadIsAttempt(policy: Policy, user: User, attempts: seq<Attempt>, s: Logins)
    requires IsReplayOf(policy, user, attempts, s) && s.pending == [] && |s.clocked| == 1
    ensures IsReplayOf(policy, user, attempts + [Attempt(s.clocked[0], false)], Moved(policy, s, Read(0)))
  {
    var x := Attempt(s.clocked[0], false);
    var more := attempts + [x];
    assert more[..|attempts|] == attempts;
    GuessesOfPrefix(policy, user, attempts, x, |attempts|);
    OneMore(policy, user, more, |attempts|);
    assert more[..|more|] == more;
  }

  lemma WriteFinishesAttempt(policy: Policy, user: User, attempts: seq<Attempt>, s: Logins)
    requires IsReplayOf(policy, user, attempts, s) && s.pending != []
    ensures IsReplayOf(policy, user, attempts, Moved(policy, s, Write(0)))
  {
    var n := |attempts| - 1;
    OneMore(policy, user, attempts, n);
    assert attempts[..n + 1] == attempts;
  }

  predicate WrongWithin(attempts: seq<Attempt>, start: Time, span: Time) {
    forall a <- attempts :: !a.matches && start <= a.now <= start + span
  }

  /** Logins that never overlap are atomic attempts, one after the other. */
  lemma {:induction false} SerialIsReplay(
    policy: Policy, user: User, attempts: seq<Attempt>, s: Logins, moves: seq<Move>, start: Time, span: Time)
    returns (all: seq<Attempt>)
    requires Possible(policy, s, moves) && Overlap(policy, s, moves, 1) && IsReplayOf(policy, user, attempts, s)
    requires WrongWithin(attempts, start, span) && forall t <- s.clocked :: start <= t <= start + span
    requires forall m <- moves :: m.Clock? ==> start <= m.now <= start + span
    ensures IsReplayOf(policy, user, all, After(policy, s, moves)) && WrongWithin(all, start, span)
    decreases |moves|
  {
    if moves == [] {
      all := attempts;
    } else {
      var m, rest := moves[0], moves[1..];
      var n := Moved(policy, s, m);
      assert m in moves;
      match m {
        case Clock(now) => all := SerialIsReplay(policy, user, attempts, n, rest, start, span);
        case Read(k) =>
          assert s.clocked[0] in s.clocked;
          ReadIsAttempt(policy, user, attempts, s);
          all := SerialIsReplay(policy, user, attempts + [Attempt(s.clocked[0], false)], n, rest, start, span);
        case Write(k) =>
          WriteFinishesAttempt(policy, user, attempts, s);
          all := SerialIsReplay(policy, user, attempts, n, rest, start, span);
      }
    }
  }

  /** So the bound for atomic attempts holds of them, in every window. */
  lemma SerialBound(policy: Policy, user: User, moves: seq<Move>, start: Time, span: Time)
    requires user.failedAttempts >= 0 && policy.lockout > 0 && span >= 0
    requires Admits(policy, user, moves, 1, start, span)
    ensures After(policy, Opened(user), moves).guesses <= Free(policy) + span / policy.lockout
  {
    var all := SerialIsReplay(policy, user, [], Opened(user), moves, start, span);
    forall k | 0 <= k < |all| ensures !all[k].matches && start <= all[k].now <= start + span {
      assert all[k] in all;
    }
    GuessBound(policy, user, all, 0, |all|, start, span);
  }

  lemma {:induction false} OverlapGrows(policy: Policy, s: Logins, moves: seq<Move>, c: nat, d: nat)
    requires c <= d && Possible(policy, s, moves) && Overlap(policy, s, moves, c)
    ensures Overlap(policy, s, moves, d)
    decreases |moves|
  {
    if moves != [] {
      OverlapGrows(policy, Moved(policy, s, moves[0]), moves[1..], c, d);
    }
  }

  // ----- two at a time

  lemma MoveThen(policy: Policy, s: Logins, m: Move, rest: seq<Move>, c: nat)
    requires CanMove(s, m) && Possible(policy, Moved(policy, s, m), rest)
    requires UnderWay(s) <= c && Overlap(policy, Moved(policy, s, m), rest, c)
    ensures Possible(policy, s, [m] + rest) && Overlap(policy, s, [m] + rest, c)
    ensures After(policy, s, [m] + rest) == After(policy, Moved(policy, s, m), rest)
  {
    assert ([m] + rest)[1..] == rest;
  }

  lemma {:induction false} RunsJoin(policy: Policy, s: Logins, a: seq<Move>, b: seq<Move>, c: nat)
    requires Possible(policy, s, a) && Overlap(policy, s, a, c)
    requires Possible(policy, After(policy, s, a), b) && Overlap(policy, After(policy, s, a), b, c)
    ensures Possible(policy, s, a + b) && Overlap(policy, s, a + b, c)
    ensures After(policy, s, a + b) == After(policy, After(policy, s, a), b)
    decreases |a|
  {
    if a == [] {
      assert a + b == b;
    } else {
      RunsJoin(policy, Moved(policy, s, a[0]), a[1..], b, c);
      assert (a + b)[1..] == a[1..] + b;
    }
  }

  /** Two logins read the clock and the record, and then both write. */
  function Round(t: Time): seq<Move> {
    [Clock(t), Clock(t), Read(0), Read(0), Write(0), Write(0)]
  }

  lemma FourMoves(policy: Policy, s: Logins, a: Move, b: Move, d: Move, e: Move, c: nat)
    requires CanMove(s, a) && CanMove(Moved(policy, s, a), b)
    requires var s2 := Moved(policy, Moved(policy, s, a), b);
      CanMove(s2, d) && CanMove(Moved(policy, s2, d), e)
    requires var s2 := Moved(policy, Moved(policy, s, a), b);
      && UnderWay(s) <= c && UnderWay(Moved(policy, s, a)) <= c && UnderWay(s2) <= c
      && UnderWay(Moved(policy, s2, d)) <= c && UnderWay(Moved(policy, Moved(policy, s2, d), e)) <= c
    ensures Possible(policy, s, [a, b, d, e]) && Overlap(policy, s, [a, b, d, e], c)
    ensures After(policy, s, [a, b, d, e])
      == Moved(policy, Moved(policy, Moved(policy, Moved(policy, s, a), b), d), e)
  {
    TwoMoves(policy, Moved(policy, Moved(policy, s, a), b), d, e, c);
    MoveThen(policy, Moved(policy, s, a), b, [d, e], c);
    MoveThen(policy, s, a, [b] + [d, e], c);
    assert [a] + ([b] + [d, e]) == [a, b, d, e];
  }

  lemma TwoMoves(policy: Policy, s: Logins, a: Move, b: Move, c: nat)
    requires CanMove(s, a) && CanMove(Moved(policy, s, a), b)
    requires UnderWay(s) <= c && UnderWay(Moved(policy, s, a)) <= c
      && UnderWay(Moved(policy, Moved(policy, s, a), b)) <= c
    ensures Possible(policy, s, [a, b]) && Overlap(policy, s, [a, b], c)
    ensures After(policy, s, [a, b]) == Moved(policy, Moved(policy, s, a), b)
  {
    MoveThen(policy, Moved(policy, s, a), b, [], c);
    MoveThen(policy, s, a, [b] + [], c);
    assert [a] + ([b] + []) == [a, b];
  }

  lemma TwoRead(policy: Policy, user: User, g: nat, t: Time)
    requires !user.IsLockedAt(t)
    ensures var s, moves := Logins(user, [], [], g), [Clock(t), Clock(t), Read(0), Read(0)];
      && Possible(policy, s, moves) && Overlap(policy, s, moves, 2)
      && After(policy, s, moves) == Logins(user, [], [Pending(user, t), Pending(user, t)], g + 2)
  {
    var p := Pending(user, t);
    var s0, s1, s2 := Logins(user, [], [], g), Logins(user, [t], [], g), Logins(user, [t, t], [], g);
    var s3, s4 := Logins(user, [t], [p], g + 1), Logins(user, [], [p, p], g + 2);
    assert Moved(policy, s0, Clock(t)) == s1 && Moved(policy, s1, Clock(t)) == s2;
    assert Moved(policy, s2, Read(0)) == s3 && Moved(policy, s3, Read(0)) == s4;
    FourMoves(policy, s0, Clock(t), Clock(t), Read(0), Read(0), 2);
  }

  lemma TwoWrite(policy: Policy, user: User, g: nat, t: Time)
    ensures var s, moves := Logins(user, [], [Pending(user, t), Pending(user, t)], g), [Write(0), Write(0)];
      && Possible(policy, s, moves) && Overlap(policy, s, moves, 2)
      && After(policy, s, moves) == Logins(AfterFailure(policy, user, t), [], [], g)
  {
    var p, once := Pending(user, t), AfterFailure(policy, user, t);
    var s0, s1 := Logins(user, [], [p, p], g), Logins(once, [], [p], g);
    assert Moved(policy, s0, Write(0)) == s1 && Moved(policy, s1, Write(0)) == Logins(once, [], [], g);
    TwoMoves(policy, s0, Write(0), Write(0), 2);
  }

  lemma RoundGuessesTwice(policy: Policy, user: User, g: nat, t: Time)
    requires !user.IsLockedAt(t)
    ensures var s := Logins(user, [], [], g);
      && Possible(policy, s, Round(t)) && Overlap(policy, s, Round(t), 2)
      && After(policy, s, Round(t)) == Logins(AfterFailure(policy, user, t), [], [], g + 2)
  {
    TwoRead(policy, user, g, t);
    TwoWrite(policy, user, g + 2, t);
    RunsJoin(policy, Logins(user, [], [], g), [Clock(t), Clock(t), Read(0), Read(0)], [Write(0), Write(0)], 2);
    assert [Clock(t), Clock(t), Read(0), Read(0)] + [Write(0), Write(0)] == Round(t);
  }

  /** The patient guesser, two at a time. */
  function PatientPairs(policy: Policy, n: nat): seq<Move> {
    if n == 0 then [] else PatientPairs(policy, n - 1) + Round(PatientTime(policy, n - 1))
  }

  lemma {:induction false} PatientPairsRun(policy: Policy, user: User, n: nat)
    requires user.failedAttempts == 0 && user.lockedUntil.None? && policy.lockout > 0
    ensures Possible(policy, Opened(user), PatientPairs(policy, n))
      && Overlap(policy, Opened(user), PatientPairs(policy, n), 2)
    ensures var s := After(policy, Opened(user), PatientPairs(policy, n));
      && s == Logins(s.user, [], [], 2 * n) && s.user.failedAttempts == n
      && (n < Free(policy) ==> s.user.lockedUntil.None?)
      && (n >= Free(policy) ==> s.user.lockedUntil == Some((n - Free(policy) + 1) * policy.lockout))
  {
    if n > 0 {
      PatientPairsRun(policy, user, n - 1);
      var s, t := After(policy, Opened(user), PatientPairs(policy, n - 1)), PatientTime(policy, n - 1);
      PatientGuessLocks(policy, s.user, n);
      RoundGuessesTwice(policy, s.user, 2 * (n - 1), t);
      RunsJoin(policy, Opened(user), PatientPairs(policy, n - 1), Round(t), 2);
    }
  }

  lemma {:induction false} PatientPairsClocks(policy: Policy, n: nat, m: Move)
    requires m in PatientPairs(policy, n) && m.Clock?
    ensures exists k: nat :: k < n && m.now == PatientTime(policy, k)
  {
    if m in PatientPairs(policy, n - 1) {
      PatientPairsClocks(policy, n - 1, m);
    }
  }

  /** With two under way, every window admits twice the guesses of the bound for atomic attempts.
      `locks` is floor(span / lockout). */
  lemma TwoAtATimeDouble(policy: Policy, user: User, span: Time, locks: nat)
    requires user.failedAttempts == 0 && user.lockedUntil.None? && policy.lockout > 0
    requires locks * policy.lockout <= span < (locks + 1) * policy.lockout
    ensures var moves := PatientPairs(policy, Free(policy) + locks);
      Admits(policy, user, moves, 2, 0, span)
        && After(policy, Opened(user), moves).guesses == 2 * (Free(policy) + locks)
  {
    var n := Free(policy) + locks;
    PatientPairsRun(policy, user, n);
    forall m | m in PatientPairs(policy, n) && m.Clock? ensures 0 <= m.now <= span {
      PatientPairsClocks(policy, n, m);
      var k: nat :| k < n && m.now == PatientTime(policy, k);
      PatientTimesGrow(policy, k, k, locks);
    }
  }

  predicate WithinBound(policy: Policy, user: User, moves: seq<Move>, span: Time)
    requires policy.lockout > 0
  {
    Possible(policy, Opened(user), moves)
    ==> After(policy, Opened(user), moves).guesses <= Free(policy) + span / policy.lockout
  }

  /** The exact overlap at which the bound for atomic attempts holds: in windows of any length, opened
      on a clean record with none under way, all runs with at most c logins under way keep to it if and
      only if c is at most one. */
  lemma BoundHoldsIffNoOverlap(policy: Policy, user: User, c: nat, span: Time)
    requires user.failedAttempts == 0 && user.lockedUntil.None? && policy.lockout > 0 && span >= 0
    ensures (forall moves, start ::
      Admits(policy, user, moves, c, start, span) ==> WithinBound(policy, user, moves, span))
      <==> c <= 1
  {
    if c <= 1 {
      forall moves, start | Admits(policy, user, moves, c, start, span) ensures WithinBound(policy, user, moves, span) {
        OverlapGrows(policy, Opened(user), moves, c, 1);
        SerialBound(policy, user, moves, start, span);
      }
    } else {
      QuotientBelow(span, policy.lockout);
      var locks := span / policy.lockout;
      TwoAtATimeDouble(policy, user, span, locks);
      var moves := PatientPairs(policy, Free(policy) + locks);
      OverlapGrows(policy, Opened(user), moves, 2, c);
      assert Admits(policy, user, moves, c, 0, span) && !WithinBound(policy, user, moves, span);
    }
  }

  // ----- without a bound on the overlap there is none on the guesses

  function AllAtOnce(now: Time, n: nat): seq<Move> {
    if n == 0 then [] else [Clock(now), Read(0)] + AllAtOnce(now, n - 1)
  }

  /** Any number of logins that read an open account before any of them writes all evaluate their
      password, in no time at all, so they exceed the bound for atomic logins under every policy. */
  lemma {:induction false} OverlapExceedsTheBound(policy: Policy, s: Logins, now: Time, n: nat)
    requires !s.user.IsLockedAt(now) && s.clocked == []
    ensures Possible(policy, s, AllAtOnce(now, n))
    ensures After(policy, s, AllAtOnce(now, n)).guesses == s.guesses + n
    decreases n
  {
    if n > 0 {
      var s1 := Moved(policy, s, Clock(now));
      var s2 := Moved(policy, s1, Read(0));
      OverlapExceedsTheBound(policy, s2, now, n - 1);
      StepThen(policy, s1, Read(0), AllAtOnce(now, n - 1));
      StepThen(policy, s, Clock(now), [Read(0)] + AllAtOnce(now, n - 1));
      assert [Clock(now)] + ([Read(0)] + AllAtOnce(now, n - 1)) == AllAtOnce(now, n);
    }
  }

  lemma StepThen(policy: Policy, s: Logins, m: Move, rest: seq<Move>)
    requires CanMove(s, m) && Possible(policy, Moved(policy, s, m), rest)
    ensures Possible(policy, s, [m] + rest) && After(policy, s, [m] + rest) == After(policy, Moved(policy, s, m), rest)
  {
    assert ([m] + rest)[1..] == rest;
  }

  /** One login held back while n others fail, one after the other. */
  function Rounds(n: nat): seq<Move> {
    if n == 0 then [] else [Clock(0), Read(0), Write(1)] + Rounds(n - 1)
  }

  lemma RoundThen(policy: Policy, s: Logins, rest: seq<Move>)
    requires |s.pending| == 1 && s.clocked == [] && !s.user.IsLockedAt(0)
    requires Possible(policy, s.(user := AfterFailure(policy, s.user, 0), guesses := s.guesses + 1), rest)
    ensures Possible(policy, s, [Clock(0), Read(0), Write(1)] + rest)
    ensures After(policy, s, [Clock(0), Read(0), Write(1)] + rest)
      == After(policy, s.(user := AfterFailure(policy, s.user, 0), guesses := s.guesses + 1), rest)
  {
    var s1 := Moved(policy, s, Clock(0));
    var s2 := Moved(policy, s1, Read(0));
    assert s1.clocked == [0] && s2.clocked == [] && Without(s2.pending, 1) == s.pending;
    StepThen(policy, s2, Write(1), rest);
    StepThen(policy, s1, Read(0), [Write(1)] + rest);
    StepThen(policy, s, Clock(0), [Read(0)] + ([Write(1)] + rest));
    assert [Clock(0)] + ([Read(0)] + ([Write(1)] + rest)) == [Clock(0), Read(0), Write(1)] + rest;
  }

  lemma {:induction false} RoundsCount(policy: Policy, s: Logins, n: nat, last: seq<Move>)
    requires |s.pending| == 1 && s.clocked == [] && n > 0
    requires s.user.failedAttempts + n == policy.maxAttempts && s.user.lockedUntil.None?
    requires last == [] || last == [Write(0)]
    ensures Possible(policy, s, Rounds(n) + last)
    ensures var after := After(policy, s, Rounds(n) + last).user;
      if last == [] then after == s.user.(failedAttempts := policy.maxAttempts, lockedUntil := Some(policy.lockout))
      else after == WriteBack(policy, s.user, s.pending[0].read, s.pending[0].now)
    decreases n
  {
    var next := s.(user := AfterFailure(policy, s.user, 0), guesses := s.guesses + 1);
    if n > 1 {
      RoundsCount(policy, next, n - 1, last);
    } else {
      assert Rounds(0) + last == last;
      if last == [Write(0)] {
        StepThen(policy, next, Write(0), []);
        assert [Write(0)] + [] == [Write(0)];
      }
    }
    RoundThen(policy, s, Rounds(n - 1) + last);
    assert [Clock(0), Read(0), Write(1)] + (Rounds(n - 1) + last) == Rounds(n) + last;
  }

  /** A login that has read a clean record and has still to write. */
  function HeldBack(user: User): Logins {
    Logins(user, [], [Pending(user, 0)], 1)
  }

  /** A stale failure clears a lock: one login reads a clean record, enough others fail to lock the
      account, and its late write leaves the account open with a single failure. */
  lemma AStaleWriteUnlocks(policy: Policy, user: User)
    requires policy.maxAttempts >= 2 && policy.lockout > 0 && user.failedAttempts == 0 && user.lockedUntil.None?
    ensures Moved(policy, Moved(policy, Opened(user), Clock(0)), Read(0)) == HeldBack(user)
    ensures var s, n := HeldBack(user), policy.maxAttempts;
      && Possible(policy, s, Rounds(n)) && After(policy, s, Rounds(n)).user.IsLockedAt(0)
      && Possible(policy, s, Rounds(n) + [Write(0)])
      && After(policy, s, Rounds(n) + [Write(0)]).user == user.(failedAttempts := 1)
  {
    RoundsCount(policy, HeldBack(user), policy.maxAttempts, []);
    RoundsCount(policy, HeldBack(user), policy.maxAttempts, [Write(0)]);
    assert Rounds(policy.maxAttempts) + [] == Rounds(policy.maxAttempts);
  }

  /** Concurrent logins that all read the record before any writes it. */
  function WriteAll(policy: Policy, stored: User, read: User, times: seq<Time>): User {
    if times == [] then stored
    else WriteBack(policy, WriteAll(policy, stored, read, times[..|times| - 1]), read, times[|times| - 1])
  }

  /** However many wrong passwords they evaluate, such logins together count as one failure. */
  lemma {:induction false} ConcurrentGuessesCountOnce(policy: Policy, user: User, times: seq<Time>)
    requires times != [] && forall k | 0 <= k < |times| :: !user.IsLockedAt(times[k])
    ensures WriteAll(policy, user, user, times).failedAttempts == user.failedAttempts + 1
    ensures user.failedAttempts + 1 < policy.maxAttempts ==> WriteAll(policy, user, user, times).lockedUntil.None?
  {
    if |times| > 1 {
      ConcurrentGuessesCountOnce(policy, user, times[..|times| - 1]);
    }
  }

  // ----- a store that cuts the end of a lock down to whole grains

  /** The record such a store keeps after an attempt. */
  function AfterAttemptAtGrain(policy: Policy, g: Grain, user: User, matches: bool, now: Time): User {
    var after := AfterAttempt(policy, user, matches, now);
    if after.lockedUntil.Some? then after.(lockedUntil := Some(Cut(after.lockedUntil.value, g))) else after
  }

  function ReplayAtGrain(policy: Policy, g: Grain, user: User, attempts: seq<Attempt>): User {
    if attempts == [] then user
    else
      var last := attempts[|attempts| - 1];
      AfterAttemptAtGrain(policy, g, ReplayAtGrain(policy, g, user, attempts[..|attempts| - 1]), last.matches, last.now)
  }

  /** The attempts on a clock that is cut down likewise. */
  function CutAttempts(attempts: seq<Attempt>, g: Grain): seq<Attempt> {
    seq(|attempts|, k requires 0 <= k < |attempts| => attempts[k].(now := Cut(attempts[k].now, g)))
  }

  ghost predicate LockIsWhole(user: User, g: Grain) {
    user.lockedUntil.Some? ==> exists k: int :: user.lockedUntil.value == k * g
  }

  lemma LockedAlike(user: User, now: Time, g: Grain)
    requires LockIsWhole(user, g)
    ensures user.IsLockedAt(Cut(now, g)) == user.IsLockedAt(now)
  {
    if user.lockedUntil.Some? {
      var k: int :| user.lockedUntil.value == k * g;
      WholeBeforeCut(k, now, g);
    }
  }

  lemma CutShifts(t: Time, n: int, g: Grain)
    ensures Cut(t + n * g, g) == Cut(t, g) + n * g
  {
    var q := t / g;
    CutBounds(t, g);
    CutBounds(t + n * g, g);
    WholeBeforeCut(q + n, t + n * g, g);
    WholeBeforeCut((t + n * g) / g - n, t, g);
    assert (q + n) * g == q * g + n * g;
    assert ((t + n * g) / g - n) * g == Cut(t + n * g, g) - n * g;
  }

  lemma AttemptAtGrain(policy: Policy, g: Grain, units: int, user: User, matches: bool, now: Time)
    requires policy.lockout == units * g && LockIsWhole(user, g)
    ensures AfterAttemptAtGrain(policy, g, user, matches, now) == AfterAttempt(policy, user, matches, Cut(now, g))
    ensures LockIsWhole(AfterAttemptAtGrain(policy, g, user, matches, now), g)
  {
    LockedAlike(user, now, g);
    if user.lockedUntil.Some? {
      var k: int :| user.lockedUntil.value == k * g;
      CutOfWhole(k, g);
    }
    CutShifts(now, units, g);
    assert Cut(now, g) + units * g == (now / g + units) * g;
  }

  lemma {:induction false} ReplayOnGrain(policy: Policy, g: Grain, units: int, user: User, attempts: seq<Attempt>,
      j: nat)
    requires policy.lockout == units * g && LockIsWhole(user, g) && j <= |attempts|
    ensures ReplayAtGrain(policy, g, user, attempts[..j]) == Replay(policy, user, CutAttempts(attempts, g)[..j])
    ensures LockIsWhole(ReplayAtGrain(policy, g, user, attempts[..j]), g)
    decreases j
  {
    if j > 0 {
      ReplayOnGrain(policy, g, units, user, attempts, j - 1);
      var cut, a := CutAttempts(attempts, g), attempts[j - 1];
      assert attempts[..j][..j - 1] == attempts[..j - 1] && cut[..j][..j - 1] == cut[..j - 1];
      AttemptAtGrain(policy, g, units, ReplayAtGrain(policy, g, user, attempts[..j - 1]), a.matches, a.now);
    }
  }

  predicate IsGuessAtGrain(policy: Policy, g: Grain, user: User, attempts: seq<Attempt>, k: nat)
    requires k < |attempts|
  {
    !attempts[k].matches && !ReplayAtGrain(policy, g, user, attempts[..k]).IsLockedAt(attempts[k].now)
  }

  function GuessesAtGrain(policy: Policy, g: Grain, user: User, attempts: seq<Attempt>, i: nat, j: nat): nat
    requires i <= j <= |attempts|
    decreases j - i
  {
    if i == j then 0
    else
      GuessesAtGrain(policy, g, user, attempts, i, j - 1)
      + if IsGuessAtGrain(policy, g, user, attempts, j - 1) then 1 else 0
  }

  lemma {:induction false} GuessesOnGrain(
    policy: Policy, g: Grain, units: int, user: User, attempts: seq<Attempt>, i: nat, j: nat)
    requires policy.lockout == units * g && LockIsWhole(user, g) && i <= j <= |attempts|
    ensures GuessesAtGrain(policy, g, user, attempts, i, j) == Guesses(policy, user, CutAttempts(attempts, g), i, j)
    decreases j - i
  {
    if i < j {
      GuessesOnGrain(policy, g, units, user, attempts, i, j - 1);
      ReplayOnGrain(policy, g, units, user, attempts, j - 1);
      LockedAlike(ReplayAtGrain(policy, g, user, attempts[..j - 1]), attempts[j - 1].now, g);
    }
  }

  /** The slack of a coarser store, as MongoDB's milliseconds are: with a lockout of whole grains, the
      bound is that of a window widened to whole grains, (span + g - 1) / lockout locks at most. */
  lemma GuessBoundAtGrain(
    policy: Policy, g: Grain, units: int, user: User, attempts: seq<Attempt>, i: nat, j: nat, start: Time, span: Time)
    requires i <= j <= |attempts| && user.failedAttempts >= 0 && LockIsWhole(user, g)
    requires policy.lockout > 0 && policy.lockout == units * g && span >= 0
    requires forall k | 0 <= k < |attempts| ::
      attempts[k].matches ==> ReplayAtGrain(policy, g, user, attempts[..k]).IsLockedAt(attempts[k].now)
    requires forall k | i <= k < j :: start <= attempts[k].now <= start + span
    ensures var widened := Cut(start + span, g) - Cut(start, g);
      && widened <= span + g - 1
      && GuessesAtGrain(policy, g, user, attempts, i, j) <= Free(policy) + widened / policy.lockout
  {
    var cut := CutAttempts(attempts, g);
    forall k | 0 <= k < |cut| ensures cut[k].matches ==> Replay(policy, user, cut[..k]).IsLockedAt(cut[k].now) {
      ReplayOnGrain(policy, g, units, user, attempts, k);
      LockedAlike(ReplayAtGrain(policy, g, user, attempts[..k]), attempts[k].now, g);
    }
    forall k | i <= k < j ensures Cut(start, g) <= cut[k].now <= Cut(start + span, g) {
      CutKeepsOrder(start, attempts[k].now, g);
      CutKeepsOrder(attempts[k].now, start + span, g);
    }
    CutBounds(start, g);
    CutBounds(start + span, g);
    CutKeepsOrder(start, start + span, g);
    GuessesOnGrain(policy, g, units, user, attempts, i, j);
    GuessBound(policy, user, cut, i, j, Cut(start, g), Cut(start + span, g) - Cut(start, g));
  }
}
