/** The refresh-token table: one row per token, and the repository operations that
    change it (src/repository/token_repository.rs, src/service/fakes.rs). */
module RefreshTokens {
  import opened Common

  /** Tokens are stored hashed; the digest is taken to be injective. */
  datatype Digest = DigestOf(secret: nat)

  datatype Record = Record(
    id: nat,
    userId: nat,
    tokenHash: Digest,
    family: nat,
    expiresAt: Time,
    usedAt: Option<Time>,
    revoked: bool)
  {
    predicate IsUsableAt(now: Time) {
      !revoked && usedAt.None? && expiresAt > now
    }
  }

  type Table = map<nat, Record>

  /** Rows are filed under their own id, and the UNIQUE key on the digest holds. */
  ghost predicate WellFormed(t: Table) {
    && (forall id :: id in t ==> t[id].id == id)
    && (forall a, b :: a in t && b in t && t[a].tokenHash == t[b].tokenHash ==> a == b)
  }

  ghost function FindByHash(t: Table, digest: Digest): (found: Option<Record>)
    ensures found.Some? ==> exists id :: id in t && t[id] == found.value && found.value.tokenHash == digest
    ensures found.None? ==> forall id :: id in t ==> t[id].tokenHash != digest
  {
    if id :| id in t && t[id].tokenHash == digest then Some(t[id]) else None
  }

  /** The guard of the single-shot UPDATE in `mark_used`. */
  predicate CanMark(t: Table, id: nat) {
    id in t && t[id].usedAt.None? && !t[id].revoked
  }

  function Marked(t: Table, id: nat, now: Time): Table {
    if CanMark(t, id) then t[id := t[id].(usedAt := Some(now))] else t
  }

  function FamilyRevoked(t: Table, family: nat): Table {
    map id | id in t :: if t[id].family == family then t[id].(revoked := true) else t[id]
  }

  function UserRevoked(t: Table, user: nat): Table {
    map id | id in t :: if t[id].userId == user then t[id].(revoked := true) else t[id]
  }

  function Swept(t: Table, now: Time): Table {
    map id | id in t && t[id].expiresAt >= now :: t[id]
  }

  function ExpiredBy(t: Table, now: Time): set<nat> {
    set id | id in t && t[id].expiresAt < now
  }

  /** The table as an object, changed in place as the in-memory repository changes it. */
  class TokenStore {
    var rows: Table

    constructor ()
      ensures rows == map[]
    {
      rows := map[];
    }

    method Insert(token: Record)
      modifies this
      ensures rows == old(rows)[token.id := token.(usedAt := None, revoked := false)]
    {
      rows := rows[token.id := token.(usedAt := None, revoked := false)];
    }

    method Lookup(digest: Digest) returns (found: Option<Record>)
      requires WellFormed(rows)
      ensures found == FindByHash(rows, digest)
    {
      var pending := rows.Keys;
      found := None;
      while pending != {}
        invariant pending <= rows.Keys
        invariant forall id :: id in rows && id !in pending ==> rows[id].tokenHash != digest
        decreases |pending|
      {
        var id :| id in pending;
        if rows[id].tokenHash == digest {
          return Some(rows[id]);
        }
        pending := pending - {id};
      }
    }

    method MarkUsed(id: nat, now: Time) returns (won: bool)
      modifies this
      ensures won == CanMark(old(rows), id)
      ensures rows == Marked(old(rows), id, now)
      ensures won <==> id in old(rows) && old(rows)[id].usedAt == None && !old(rows)[id].revoked
      ensures rows == if won then old(rows)[id := old(rows)[id].(usedAt := Some(now))] else old(rows)
    {
      won := id in rows && rows[id].usedAt.None? && !rows[id].revoked;
      if won {
        rows := rows[id := rows[id].(usedAt := Some(now))];
      }
    }

    method RevokeFamily(family: nat)
      modifies this
      ensures rows == FamilyRevoked(old(rows), family)
      ensures rows.Keys == old(rows).Keys
      ensures forall id | id in rows ::
        rows[id] == old(rows)[id].(revoked := old(rows)[id].revoked || old(rows)[id].family == family)
    {
      var pending := rows.Keys;
      while pending != {}
        invariant pending <= rows.Keys == old(rows).Keys
        invariant forall id :: id in pending ==> rows[id] == old(rows)[id]
        invariant forall id :: id in rows && id !in pending ==> rows[id] == FamilyRevoked(old(rows), family)[id]
        decreases |pending|
      {
        var id :| id in pending;
        if rows[id].family == family {
          rows := rows[id := rows[id].(revoked := true)];
        }
        pending := pending - {id};
      }
    }

    method RevokeAllForUser(user: nat)
      modifies this
      ensures rows == UserRevoked(old(rows), user)
      ensures rows.Keys == old(rows).Keys
      ensures forall id | id in rows ::
        rows[id] == old(rows)[id].(revoked := old(rows)[id].revoked || old(rows)[id].userId == user)
    {
      var pending := rows.Keys;
      while pending != {}
        invariant pending <= rows.Keys == old(rows).Keys
        invariant forall id :: id in pending ==> rows[id] == old(rows)[id]
        invariant forall id :: id in rows && id !in pending ==> rows[id] == UserRevoked(old(rows), user)[id]
        decreases |pending|
      {
        var id :| id in pending;
        if rows[id].userId == user {
          rows := rows[id := rows[id].(revoked := true)];
        }
        pending := pending - {id};
      }
    }

    method DeleteExpired(now: Time) returns (removed: nat)
      modifies this
      ensures rows == Swept(old(rows), now)
      ensures removed == |old(rows)| - |rows|
      ensures rows == old(rows) - ExpiredBy(old(rows), now) && removed == |ExpiredBy(old(rows), now)|
    {
      var before := |rows|;
      rows := map id | id in rows && rows[id].expiresAt >= now :: rows[id];
      CountRemoved(old(rows), rows, ExpiredBy(old(rows), now));
      removed := before - |rows|;
    }
  }

  /** A sweep takes no token that could still be used, then or later, and leaves none that expired
      before it. */
  lemma SweepTakesOnlyExpired(t: Table, now: Time, id: nat)
    requires id in t
    ensures id in Swept(t, now) <==> now <= t[id].expiresAt
    ensures forall later | now <= later && t[id].IsUsableAt(later) :: id in Swept(t, now) && Swept(t, now)[id] == t[id]
  {
  }

  lemma {:induction false} SubsetSize(a: set<nat>, b: set<nat>)
    requires a <= b
    ensures |a| <= |b|
  {
    if a != {} {
      var x :| x in a;
      SubsetSize(a - {x}, b - {x});
    }
  }
}
