/** The client's row of sealed tokens and its guarded updates: the lease is a compare-and-swap
    on `generation` (examples/nextjs/src/lib/bastion/store.ts; the same statements, without the
    upsert, in examples/nextjs-blog/src/lib/session.ts). Sealing is taken to be invertible and
    left out. Instants are milliseconds. */
module Credential {
  import opened Common

  datatype Status = Active | Revoked | Poisoned

  datatype Row = Row(
    access: nat,
    refresh: nat,
    accessExpiresAt: Time,
    generation: nat,
    lockedUntil: Option<Time>,
    status: Status)

  /** The guard of acquireLease: still at the observed generation, active, no live lease. */
  predicate CanLease(row: Option<Row>, observed: nat, now: Time) {
    && row.Some? && row.value.generation == observed && row.value.status == Active
    && (row.value.lockedUntil.None? || row.value.lockedUntil.value < now)
  }

  datatype Op =
    | Acquire(observed: nat, now: Time, leaseMs: Time)
    | Commit(observed: nat, access: nat, refresh: nat, accessExpiresAt: Time)
    | Release
    | Mark(status: Status)
    | Create(access: nat, refresh: nat, accessExpiresAt: Time)
    | Delete

  /** One statement against the row. */
  function Apply(row: Option<Row>, op: Op): Option<Row> {
    match op
    case Acquire(observed, now, leaseMs) =>
      if CanLease(row, observed, now) then Some(row.value.(lockedUntil := Some(now + leaseMs))) else row
    case Commit(observed, access, refresh, expires) =>
      if row.Some? && row.value.generation == observed
      then Some(row.value.(access := access, refresh := refresh, accessExpiresAt := expires,
                           generation := observed + 1, lockedUntil := None))
      else row
    case Release => if row.Some? then Some(row.value.(lockedUntil := None)) else row
    case Mark(status) => if row.Some? then Some(row.value.(status := status, lockedUntil := None)) else row
    case Create(access, refresh, expires) =>
      Some(Row(access, refresh, expires, if row.Some? then row.value.generation + 1 else 0, None, Active))
    case Delete => None
  }

  /** The row as an object: one field, changed in place by guarded updates. */
  class CredentialStore {
    var row: Option<Row>

    constructor ()
      ensures row == None
    {
      row := None;
    }

    /** changes === 1 is the entire mutual exclusion mechanism. */
    method AcquireLease(observed: nat, now: Time, leaseMs: Time) returns (won: bool)
      modifies this
      ensures won == CanLease(old(row), observed, now)
      ensures row == Apply(old(row), Acquire(observed, now, leaseMs))
    {
      won := false;
      if row.Some? && row.value.generation == observed && row.value.status == Active {
        if row.value.lockedUntil.None? || row.value.lockedUntil.value < now {
          row := Some(row.value.(lockedUntil := Some(now + leaseMs)));
          won := true;
        }
      }
    }

    method CommitRotation(observed: nat, access: nat, refresh: nat, accessExpiresAt: Time)
      modifies this
      ensures row == Apply(old(row), Commit(observed, access, refresh, accessExpiresAt))
    {
      if row.Some? && row.value.generation == observed {
        row := Some(row.value.(access := access, refresh := refresh, accessExpiresAt := accessExpiresAt,
                               generation := row.value.generation + 1, lockedUntil := None));
      }
    }

    method ReleaseLease()
      modifies this
      ensures row == Apply(old(row), Release)
    {
      if row.Some? {
        row := Some(row.value.(lockedUntil := None));
      }
    }

    method MarkStatus(status: Status)
      modifies this
      ensures row == Apply(old(row), Mark(status))
    {
      if row.Some? {
        row := Some(row.value.(status := status, lockedUntil := None));
      }
    }

    method Upsert(access: nat, refresh: nat, accessExpiresAt: Time)
      modifies this
      ensures row == Apply(old(row), Create(access, refresh, accessExpiresAt))
    {
      var generation := 0;
      if row.Some? {
        generation := row.value.generation + 1;
      }
      row := Some(Row(access, refresh, accessExpiresAt, generation, None, Active));
    }

    method DeleteRow()
      modifies this
      ensures row == Apply(old(row), Delete)
    {
      row := None;
    }
  }

  // ----- every run of statements, by any number of processes, however late they act

  function Run(row: Option<Row>, ops: seq<Op>): Option<Row> {
    if ops == [] then row else Apply(Run(row, ops[..|ops| - 1]), ops[|ops| - 1])
  }

  /** The k-th statement committed a rotation or an upsert: it stored new tokens. */
  predicate Stores(row: Option<Row>, ops: seq<Op>, k: nat)
    requires k < |ops|
  {
    var before := Run(row, ops[..k]);
    ops[k].Create? || (ops[k].Commit? && before.Some? && before.value.generation == ops[k].observed)
  }

  predicate Rotates(row: Option<Row>, ops: seq<Op>, k: nat)
    requires k < |ops|
  {
    ops[k].Commit? && Stores(row, ops, k)
  }

  /** From moment i to moment j the row was never deleted. */
  ghost predicate OneLifetime(row: Option<Row>, ops: seq<Op>, i: nat, j: nat) {
    i <= j <= |ops| && forall m :: i <= m <= j ==> Run(row, ops[..m]).Some?
  }

  function GenerationAt(row: Option<Row>, ops: seq<Op>, i: nat): nat
    requires i <= |ops| && Run(row, ops[..i]).Some?
  {
    Run(row, ops[..i]).value.generation
  }

  lemma OneMore(row: Option<Row>, ops: seq<Op>, m: nat)
    requires m < |ops|
    ensures Run(row, ops[..m + 1]) == Apply(Run(row, ops[..m]), ops[m])
  {
    assert ops[..m + 1][..m] == ops[..m];
  }

  lemma {:induction false} GenerationNeverDecreases(row: Option<Row>, ops: seq<Op>, i: nat, j: nat)
    requires OneLifetime(row, ops, i, j)
    ensures GenerationAt(row, ops, i) <= GenerationAt(row, ops, j)
    decreases j - i
  {
    if i < j {
      assert OneLifetime(row, ops, i, j - 1);
      GenerationNeverDecreases(row, ops, i, j - 1);
      OneMore(row, ops, j - 1);
    }
  }

  /** Even when holders overrun their lease, at most one rotation commits per generation. */
  lemma OneRotationPerGeneration(row: Option<Row>, ops: seq<Op>, a: nat, b: nat)
    requires a < b < |ops| && OneLifetime(row, ops, a, b)
    requires Rotates(row, ops, a) && Rotates(row, ops, b)
    ensures ops[a].observed < ops[b].observed
  {
    OneMore(row, ops, a);
    assert OneLifetime(row, ops, a + 1, b);
    GenerationNeverDecreases(row, ops, a + 1, b);
  }

  /** A commit takes effect exactly when no rotation or upsert has happened since its holder
      observed the row; otherwise it changes nothing. */
  lemma {:induction false} CommitTakesEffectIffNothingStored(row: Option<Row>, ops: seq<Op>, i: nat, b: nat)
    requires i <= b < |ops| && OneLifetime(row, ops, i, b)
    requires ops[b].Commit? && ops[b].observed == GenerationAt(row, ops, i)
    ensures Rotates(row, ops, b) <==> forall k :: i <= k < b ==> !Stores(row, ops, k)
    ensures !Rotates(row, ops, b) ==> Run(row, ops[..b + 1]) == Run(row, ops[..b])
  {
    OneMore(row, ops, b);
    GenerationCountsStores(row, ops, i, b);
  }

  lemma {:induction false} GenerationCountsStores(row: Option<Row>, ops: seq<Op>, i: nat, j: nat)
    requires OneLifetime(row, ops, i, j)
    ensures GenerationAt(row, ops, i) <= GenerationAt(row, ops, j)
    ensures GenerationAt(row, ops, i) == GenerationAt(row, ops, j) <==> forall k :: i <= k < j ==> !Stores(row, ops, k)
    decreases j - i
  {
    if i < j {
      assert OneLifetime(row, ops, i, j - 1);
      GenerationCountsStores(row, ops, i, j - 1);
      OneMore(row, ops, j - 1);
      var before, after := Run(row, ops[..j - 1]).value, Run(row, ops[..j]).value;
      assert after.generation == before.generation + if Stores(row, ops, j - 1) then 1 else 0;
      if forall k :: i <= k < j ==> !Stores(row, ops, k) {
        assert !Stores(row, ops, j - 1);
      }
    }
  }

  /** At moment j the row holds the access token that statement k stored. */
  ghost predicate HoldsTokenOf(row: Option<Row>, ops: seq<Op>, k: nat, j: nat) {
    && k < j <= |ops| && Stores(row, ops, k)
    && Run(row, ops[..k + 1]).Some? && Run(row, ops[..j]).Some?
    && ops[k].access == Run(row, ops[..j]).value.access
    && GenerationAt(row, ops, k + 1) == GenerationAt(row, ops, j)
  }

  lemma LastStoreHolds(row: Option<Row>, ops: seq<Op>, j: nat)
    requires j < |ops| && Run(row, ops[..j]).Some? && Run(row, ops[..j + 1]).Some?
    ensures Stores(row, ops, j) ==> HoldsTokenOf(row, ops, j, j + 1)
    ensures !Stores(row, ops, j) ==> GenerationAt(row, ops, j + 1) == GenerationAt(row, ops, j)
    ensures !Stores(row, ops, j) ==> Run(row, ops[..j + 1]).value.access == Run(row, ops[..j]).value.access
  {
    OneMore(row, ops, j);
  }

  /** What a waiter that observed moment i and returns at moment j hands out: an access token
      some statement stored in between, at a generation strictly above the one it observed. */
  lemma {:induction false} WaiterReturnsALaterToken(row: Option<Row>, ops: seq<Op>, i: nat, j: nat)
    requires OneLifetime(row, ops, i, j)
    requires GenerationAt(row, ops, j) > GenerationAt(row, ops, i)
    ensures exists k: nat :: i <= k && HoldsTokenOf(row, ops, k, j)
    decreases j - i
  {
    assert OneLifetime(row, ops, i, j - 1);
    LastStoreHolds(row, ops, j - 1);
    if !Stores(row, ops, j - 1) {
      WaiterReturnsALaterToken(row, ops, i, j - 1);
      var k: nat :| i <= k && HoldsTokenOf(row, ops, k, j - 1);
      assert HoldsTokenOf(row, ops, k, j);
    }
  }

  // ----- what a later read finds

  /** What one statement leaves to be read: after a delete no row; after an upsert an active, unlocked row
      with the new pair; after a commit that takes effect the new pair, unlocked; a lease, a release and
      a status leave the pair and the generation. */
  lemma ReadsBack(row: Option<Row>, op: Op)
    ensures op.Delete? ==> Apply(row, op).None?
    ensures op.Create? ==>
      var after := Apply(row, op);
      && after.Some? && after.value.status == Active && after.value.lockedUntil.None?
      && after.value.access == op.access && after.value.refresh == op.refresh
      && after.value.accessExpiresAt == op.accessExpiresAt
      && (row.Some? ==> after.value.generation > row.value.generation)
    ensures op.Commit? && row.Some? && row.value.generation == op.observed ==>
      var after := Apply(row, op);
      && after.Some? && after.value.lockedUntil.None? && after.value.status == row.value.status
      && after.value.access == op.access && after.value.refresh == op.refresh
      && after.value.accessExpiresAt == op.accessExpiresAt && after.value.generation == row.value.generation + 1
    ensures (op.Acquire? || op.Release? || op.Mark?) && row.Some? ==>
      var after := Apply(row, op);
      && after.Some? && after.value.generation == row.value.generation
      && after.value.access == row.value.access && after.value.refresh == row.value.refresh
      && after.value.accessExpiresAt == row.value.accessExpiresAt
      && after.value.status == (if op.Mark? then op.status else row.value.status)
      && (!op.Acquire? ==> after.value.lockedUntil.None?)
      && (op.Acquire? ==>
            var won := CanLease(row, op.observed, op.now);
            after.value.lockedUntil == if won then Some(op.now + op.leaseMs) else row.value.lockedUntil)
    ensures row.None? && !op.Create? ==> Apply(row, op).None?
  {
  }

  /** A deleted row is gone until the next upsert, whatever else is done to it. */
  lemma {:induction false} DeletedStaysGone(row: Option<Row>, ops: seq<Op>, i: nat, j: nat)
    requires i < j <= |ops| && ops[i].Delete? && forall k | i < k < j :: !ops[k].Create?
    ensures Run(row, ops[..j]).None?
    decreases j
  {
    OneMore(row, ops, j - 1);
    if i + 1 < j {
      DeletedStaysGone(row, ops, i, j - 1);
    }
  }

  /** The pair that was stored last is the pair a later read finds. */
  lemma {:induction false} StoredPairStands(row: Option<Row>, ops: seq<Op>, i: nat, j: nat)
    requires i < j <= |ops| && Stores(row, ops, i) && forall k | i < k < j :: !Stores(row, ops, k) && !ops[k].Delete?
    ensures var after := Run(row, ops[..j]);
      && after.Some? && after.value.access == ops[i].access && after.value.refresh == ops[i].refresh
      && after.value.accessExpiresAt == ops[i].accessExpiresAt
    decreases j
  {
    OneMore(row, ops, j - 1);
    if i + 1 < j {
      StoredPairStands(row, ops, i, j - 1);
    }
  }

  // ----- waiting for the winner

  datatype Waited = Token(access: nat) | Removed | Inactive(status: Status) | TimedOut

  /** The outcome the observations up to and including the first decisive one determine. */
  predicate Decisive(seen: Option<Row>, observed: nat) {
    seen.None? || seen.value.status != Active || seen.value.generation > observed
  }

  function Verdict(seen: Option<Row>, observed: nat): Waited
    requires Decisive(seen, observed)
  {
    if seen.None? then Removed
    else if seen.value.status != Active then Inactive(seen.value.status)
    else Token(seen.value.access)
  }

  /** What each decisive read means to the waiter. */
  lemma VerdictMeans(seen: Option<Row>, observed: nat)
    requires Decisive(seen, observed)
    ensures Verdict(seen, observed) == Removed <==> seen.None?
    ensures seen.Some? && seen.value.status != Active ==> Verdict(seen, observed) == Inactive(seen.value.status)
    ensures seen.Some? && seen.value.status == Active ==> Verdict(seen, observed) == Token(seen.value.access)
  {
  }

  const POLL_MS: Time := 50

  /** awaitWinner. `clock(k)` and `seen(k)` are what the k-th pass reads after sleeping; the
      clock moves on by at least the sleep. The loop ends, within ceil(lease/50) passes, with
      the verdict of the first decisive read, or times out having seen none. */
  method AwaitWinner(observed: nat, start: Time, leaseMs: Time, clock: nat -> Time, seen: nat -> Option<Row>)
    returns (outcome: Waited, passes: nat)
    requires clock(0) >= start && forall k: nat :: clock(k + 1) >= clock(k) + POLL_MS
    ensures forall k: nat :: k + 1 < passes ==> !Decisive(seen(k), observed)
    ensures outcome.TimedOut? ==> clock(passes) >= start + leaseMs && forall k: nat ::
      k < passes ==> !Decisive(seen(k), observed)
    ensures !outcome.TimedOut?
      ==> passes > 0 && Decisive(seen(passes - 1), observed) && outcome == Verdict(seen(passes - 1), observed)
    ensures passes == 0 || POLL_MS * (passes - 1) < leaseMs
  {
    var deadline := start + leaseMs;
    passes := 0;
    while clock(passes) < deadline
      invariant clock(passes) >= start + POLL_MS * passes
      invariant forall k: nat :: k < passes ==> !Decisive(seen(k), observed)
      invariant passes == 0 || POLL_MS * (passes - 1) < leaseMs
      decreases deadline - clock(passes)
    {
      var row := seen(passes);
      assert clock(passes + 1) >= clock(passes) + POLL_MS;
      passes := passes + 1;
      if row.None? {
        return Removed, passes;
      }
      if row.value.status != Active {
        return Inactive(row.value.status), passes;
      }
      if row.value.generation > observed {
        return Token(row.value.access), passes;
      }
    }
    outcome := TimedOut;
  }
}
