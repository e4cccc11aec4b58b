/** Owner-scoped notes: the table statements of src/repository/sqlite.rs and the rules of
    src/service/note_service.rs. Instants are nanoseconds. */
module Notes {
  import opened Common

  datatype Note = Note(owner: nat, title: string, body: string, createdAt: Time, updatedAt: Time)

  type Table = map<nat, Note>

  datatype Op =
    | Insert(id: nat, owner: nat, title: string, body: string)
    | FindOwned(id: nat, owner: nat)
    | ListOwned(owner: nat, limit: nat, offset: nat)
    | CountOwned(owner: nat)
    | UpdateOwned(id: nat, owner: nat, title: string, body: string)
    | DeleteOwned(id: nat, owner: nat)

  datatype Answer =
    | Stored(note: Note)
    | Conflict
    | Refused                // the store cannot hold what it was given
    | Maybe(found: Option<Note>)
    | Listed(ids: seq<nat>)
    | Counted(total: nat)
    | Deleted(one: bool)

  predicate Owns(t: Table, owner: nat, id: nat) {
    id in t && t[id].owner == owner
  }

  function OwnedIds(t: Table, owner: nat): set<nat> {
    set id | id in t && t[id].owner == owner
  }

  /** The answer sets of ORDER BY created_at DESC: every owned note once, newest first. Rows
      that tie may come in either order. */
  ghost predicate NewestFirst(t: Table, owner: nat, ids: seq<nat>) {
    && (forall k | 0 <= k < |ids| :: Owns(t, owner, ids[k]))
    && (forall id :: Owns(t, owner, id) ==> id in ids)
    && (forall i, j | 0 <= i < j < |ids| :: ids[i] != ids[j] && t[ids[i]].createdAt >= t[ids[j]].createdAt)
  }

  /** LIMIT and OFFSET. */
  function Window(ids: seq<nat>, limit: nat, offset: nat): seq<nat> {
    if offset >= |ids| then [] else if offset + limit >= |ids| then ids[offset..] else ids[offset..offset + limit]
  }

  function Effect(t: Table, op: Op, now: Time): Table {
    match op
    case Insert(id, owner, title, body) => if id in t then t else t[id := Note(owner, title, body, now, now)]
    case UpdateOwned(id, owner, title, body) =>
      if Owns(t, owner, id) then t[id := t[id].(title := title, body := body, updatedAt := now)] else t
    case DeleteOwned(id, owner) => if Owns(t, owner, id) then t - {id} else t
    case _ => t
  }

  /** The answers a statement may give. Only listing leaves a choice. */
  ghost predicate MayAnswer(t: Table, op: Op, now: Time, answer: Answer) {
    match op
    case Insert(id, owner, title, body) =>
      answer == if id in t then Conflict else Stored(Note(owner, title, body, now, now))
    case FindOwned(id, owner) => answer == Maybe(if Owns(t, owner, id) then Some(t[id]) else None)
    case ListOwned(owner, limit, offset) =>
      answer.Listed? && exists ids :: NewestFirst(t, owner, ids) && answer.ids == Window(ids, limit, offset)
    case CountOwned(owner) => answer == Counted(|OwnedIds(t, owner)|)
    case UpdateOwned(id, owner, title, body) =>
      answer == Maybe(if Owns(t, owner, id) then Some(t[id].(title := title, body := body, updatedAt := now)) else None)
    case DeleteOwned(id, owner) => answer == Deleted(Owns(t, owner, id))
  }

  /** What a later read finds: an insertion under a fresh id is found as it was given, an update of an owned
      note changes its title, its body and its last change only, a deleted note is gone, and no other note,
      and nobody else's, is found any different. */
  lemma WritesReadBack(t: Table, op: Op, now: Time, later: Time, id: nat, owner: nat, found: Option<Note>)
    requires MayAnswer(Effect(t, op, now), FindOwned(id, owner), later, Maybe(found))
    ensures op.Insert? && op.id !in t && op.id == id && op.owner == owner
      ==> found == Some(Note(owner, op.title, op.body, now, now))
    ensures op.UpdateOwned? && op.id == id && op.owner == owner && Owns(t, owner, id)
      ==> found == Some(Note(owner, op.title, op.body, t[id].createdAt, now))
    ensures op.DeleteOwned? && op.id == id && op.owner == owner ==> found == None
    ensures (op.FindOwned? || op.ListOwned? || op.CountOwned? || op.id != id || op.owner != owner
      || (op.Insert? && id in t))
      ==> found == if Owns(t, owner, id) then Some(t[id]) else None
  {
  }

  // ----- runs, and what other owners can tell

  datatype Timed = Timed(op: Op, now: Time)

  ghost predicate Run(ts: seq<Table>, ops: seq<Timed>, answers: seq<Answer>) {
    && |ts| == |ops| + 1 && |answers| == |ops|
    && forall i | 0 <= i < |ops| ::
         MayAnswer(ts[i], ops[i].op, ops[i].now, answers[i]) && ts[i + 1] == Effect(ts[i], ops[i].op, ops[i].now)
  }

  /** Ids are drawn afresh: an insertion never meets an id in use. */
  ghost predicate FreshIds(ts: seq<Table>, ops: seq<Timed>)
    requires |ts| == |ops| + 1
  {
    forall i | 0 <= i < |ops| :: ops[i].op.Insert? ==> ops[i].op.id !in ts[i]
  }

  function View(t: Table, owner: nat): Table {
    map id | id in t && t[id].owner == owner :: t[id]
  }

  lemma OwnOpSeesOwnRows(t: Table, op: Op, now: Time, answer: Answer)
    requires op.Insert? ==> op.id !in t
    ensures MayAnswer(t, op, now, answer) <==> MayAnswer(View(t, op.owner), op, now, answer)
    ensures View(Effect(t, op, now), op.owner) == Effect(View(t, op.owner), op, now)
  {
    assert OwnedIds(View(t, op.owner), op.owner) == OwnedIds(t, op.owner);
    assert forall id :: Owns(View(t, op.owner), op.owner, id) == Owns(t, op.owner, id);
    assert forall ids: seq<nat> :: NewestFirst(View(t, op.owner), op.owner, ids) == NewestFirst(t, op.owner, ids);
  }

  lemma OthersLeaveViewAlone(t: Table, op: Op, now: Time, owner: nat)
    requires op.owner != owner && (op.Insert? ==> op.id !in t)
    ensures View(Effect(t, op, now), owner) == View(t, owner)
  {
  }

  /** The operations of one owner, with the answers they got. */
  function OpsOf(ops: seq<Timed>, owner: nat): seq<Timed> {
    if ops == [] then []
    else OpsOf(ops[..|ops| - 1], owner) + if ops[|ops| - 1].op.owner == owner then [ops[|ops| - 1]] else []
  }

  function AnswersOf(ops: seq<Timed>, answers: seq<Answer>, owner: nat): seq<Answer>
    requires |answers| == |ops|
  {
    if ops == [] then []
    else AnswersOf(ops[..|ops| - 1], answers[..|ops| - 1], owner)
         + if ops[|ops| - 1].op.owner == owner then [answers[|ops| - 1]] else []
  }

  /** Non-interference: delete every other owner's operations from a run, and what is left is a
      run on this owner's own rows in which it gets the very same answers. */
  lemma {:induction false} OwnersDoNotInterfere(ts: seq<Table>, ops: seq<Timed>, answers: seq<Answer>, owner: nat)
    returns (own: seq<Table>)
    requires Run(ts, ops, answers) && FreshIds(ts, ops)
    ensures Run(own, OpsOf(ops, owner), AnswersOf(ops, answers, owner))
    ensures own[0] == View(ts[0], owner) && own[|own| - 1] == View(ts[|ts| - 1], owner)
  {
    if ops == [] {
      own := [View(ts[0], owner)];
    } else {
      var n := |ops| - 1;
      assert Run(ts[..n + 1], ops[..n], answers[..n]);
      own := OwnersDoNotInterfere(ts[..n + 1], ops[..n], answers[..n], owner);
      var last := ops[n];
      assert MayAnswer(ts[n], last.op, last.now, answers[n]) && ts[n + 1] == Effect(ts[n], last.op, last.now);
      if last.op.owner == owner {
        OwnOpSeesOwnRows(ts[n], last.op, last.now, answers[n]);
        own := RunExtends(own, OpsOf(ops[..n], owner), AnswersOf(ops[..n], answers[..n], owner), last, answers[n]);
      } else {
        OthersLeaveViewAlone(ts[n], last.op, last.now, owner);
      }
    }
  }

  lemma RunExtends(ts: seq<Table>, ops: seq<Timed>, answers: seq<Answer>, last: Timed, answer: Answer)
    returns (more: seq<Table>)
    requires Run(ts, ops, answers) && MayAnswer(ts[|ts| - 1], last.op, last.now, answer)
    ensures more == ts + [Effect(ts[|ts| - 1], last.op, last.now)]
    ensures Run(more, ops + [last], answers + [answer])
  {
    more := ts + [Effect(ts[|ts| - 1], last.op, last.now)];
  }

  // ----- listing

  /** MongoDB's total order: newest first, ties by id. */
  predicate Precedes(t: Table, a: nat, b: nat)
    requires a in t && b in t
  {
    t[a].createdAt > t[b].createdAt || (t[a].createdAt == t[b].createdAt && a < b)
  }

  ghost predicate IsListing(t: Table, owner: nat, ids: seq<nat>) {
    && (forall k | 0 <= k < |ids| :: Owns(t, owner, ids[k]))
    && (forall id :: Owns(t, owner, id) ==> id in ids)
    && (forall i, j | 0 <= i < j < |ids| :: Precedes(t, ids[i], ids[j]))
  }

  /** Places one more note where the order wants it. */
  function Placed(t: Table, ids: seq<nat>, id: nat): (r: seq<nat>)
    requires id in t && forall k | 0 <= k < |ids| :: ids[k] in t
    ensures |r| == |ids| + 1
    ensures forall k | 0 <= k < |r| :: r[k] == id || r[k] in ids
    ensures id in r && forall k | 0 <= k < |ids| :: ids[k] in r
  {
    if ids == [] then [id]
    else if Precedes(t, id, ids[0]) then [id] + ids
    else [ids[0]] + Placed(t, ids[1..], id)
  }

  ghost predicate InOrder(t: Table, ids: seq<nat>) {
    && (forall k | 0 <= k < |ids| :: ids[k] in t)
    && (forall i, j | 0 <= i < j < |ids| :: Precedes(t, ids[i], ids[j]))
  }

  lemma {:induction false} PlacedInOrder(t: Table, ids: seq<nat>, id: nat)
    requires id in t && id !in ids && InOrder(t, ids)
    ensures InOrder(t, Placed(t, ids, id))
  {
    if ids != [] && !Precedes(t, id, ids[0]) {
      PlacedInOrder(t, ids[1..], id);
      var r := Placed(t, ids[1..], id);
      forall k | 0 <= k < |r| ensures Precedes(t, ids[0], r[k]) {
        assert r[k] == id || r[k] in ids[1..];
      }
    }
  }

  method Listing(t: Table, owner: nat) returns (ids: seq<nat>)
    ensures IsListing(t, owner, ids)
  {
    ids := [];
    var pending := t.Keys;
    while pending != {}
      invariant pending <= t.Keys && InOrder(t, ids)
      invariant forall k | 0 <= k < |ids| :: Owns(t, owner, ids[k]) && ids[k] !in pending
      invariant forall id :: Owns(t, owner, id) && id !in pending ==> id in ids
      decreases |pending|
    {
      var id :| id in pending;
      if t[id].owner == owner {
        PlacedInOrder(t, ids, id);
        ids := Placed(t, ids, id);
      }
      pending := pending - {id};
    }
  }

  // ----- the service over one table object

  const MAX_PAGE_SIZE := 100
  const DEFAULT_PAGE_SIZE := 20

  function ClampLimit(limit: Option<int>): (n: nat)
    ensures 1 <= n <= MAX_PAGE_SIZE
    ensures limit.Some? && 1 <= limit.value <= MAX_PAGE_SIZE ==> n == limit.value
    ensures limit.Some? && limit.value < 1 ==> n == 1
    ensures limit.Some? && limit.value > MAX_PAGE_SIZE ==> n == MAX_PAGE_SIZE
    ensures limit.None? ==> n == 20
  {
    var asked := if limit.Some? then limit.value else DEFAULT_PAGE_SIZE;
    if asked < 1 then 1 else if asked > MAX_PAGE_SIZE then MAX_PAGE_SIZE else asked
  }

  function ClampOffset(offset: Option<int>): (n: nat)
    ensures offset.Some? && offset.value > 0 ==> n == offset.value
    ensures offset.None? || offset.value <= 0 ==> n == 0
  {
    if offset.Some? && offset.value > 0 then offset.value else 0
  }

  datatype AppError = NotFound | Internal

  datatype Page = Page(items: seq<Note>, total: nat, limit: nat, offset: nat)

  class NoteService {
    var notes: Table

    constructor ()
      ensures notes == map[]
    {
      notes := map[];
    }

    method Create(id: nat, owner: nat, title: string, body: string, now: Time) returns (answer: Result<Note, AppError>)
      modifies this
      ensures notes == Effect(old(notes), Insert(id, owner, title, body), now)
      ensures MayAnswer(old(notes), Insert(id, owner, title, body), now,
        if answer.Ok? then Stored(answer.value) else Conflict)
      ensures answer == if id in old(notes) then Err(Internal) else Ok(Note(owner, title, body, now, now))
    {
      if id in notes {
        return Err(Internal);
      }
      var note := Note(owner, title, body, now, now);
      notes := notes[id := note];
      return Ok(note);
    }

    method Get(id: nat, owner: nat) returns (answer: Result<Note, AppError>)
      ensures answer == if Owns(notes, owner, id) then Ok(notes[id]) else Err(NotFound)
    {
      if id in notes && notes[id].owner == owner {
        return Ok(notes[id]);
      }
      return Err(NotFound);
    }

    method List(owner: nat, limit: Option<int>, offset: Option<int>) returns (page: Page, ghost ids: seq<nat>)
      ensures IsListing(notes, owner, ids)
      ensures page.limit == ClampLimit(limit) && page.offset == ClampOffset(offset)
      ensures page.total == |OwnedIds(notes, owner)|
      ensures var window := Window(ids, page.limit, page.offset);
        |page.items| == |window| && forall k | 0 <= k < |window| ::
          window[k] in notes && page.items[k] == notes[window[k]]
    {
      var t := notes;
      var all := Listing(t, owner);
      ids := all;
      var window := Window(all, ClampLimit(limit), ClampOffset(offset));
      ListingIsPermutation(notes, owner, all);
      assert forall k | 0 <= k < |window| :: window[k] in all && window[k] in t;
      var items := seq(|window|, k requires 0 <= k < |window| => t[window[k]]);
      page := Page(items, |OwnedIds(notes, owner)|, ClampLimit(limit), ClampOffset(offset));
    }

    /** A caller that asks for page after page until it has passed the total holds every note it owns
        exactly once, newest first. */
    method Pages(owner: nat, limit: Option<int>) returns (items: seq<Note>)
      ensures exists ids :: IsListing(notes, owner, ids) && Shows(notes, ids, items, |ids|)
      ensures |items| == |OwnedIds(notes, owner)|
      ensures forall i, j | 0 <= i < j < |items| :: items[i].createdAt >= items[j].createdAt
    {
      var page;
      ghost var ids;
      page, ids := List(owner, limit, None);
      items := page.items;
      ListingIsPermutation(notes, owner, ids);
      var offset, total := page.limit, page.total;
      while offset < total
        invariant 0 < page.limit <= offset && total == |ids| && page.limit == ClampLimit(limit)
        invariant Shows(notes, ids, items, offset)
        decreases total - offset
      {
        ghost var again;
        page, again := List(owner, limit, Some(offset));
        ListingIsUnique(notes, owner, ids, again);
        OnePageMore(notes, ids, items, page.items, page.limit, offset);
        items := items + page.items;
        offset := offset + page.limit;
      }
    }

    method Update(id: nat, owner: nat, title: string, body: string, now: Time) returns (answer: Result<Note, AppError>)
      modifies this
      ensures notes == Effect(old(notes), UpdateOwned(id, owner, title, body), now)
      ensures answer.Ok? <==> Owns(old(notes), owner, id)
      ensures answer.Err? ==> answer.error == NotFound
      ensures MayAnswer(old(notes), UpdateOwned(id, owner, title, body), now,
        Maybe(if answer.Ok? then Some(answer.value) else None))
    {
      if id in notes && notes[id].owner == owner {
        var note := notes[id].(title := title, body := body, updatedAt := now);
        notes := notes[id := note];
        return Ok(note);
      }
      return Err(NotFound);
    }

    method Delete(id: nat, owner: nat) returns (answer: Result<(), AppError>)
      modifies this
      ensures notes == Effect(old(notes), DeleteOwned(id, owner), 0)
      ensures answer == if Owns(old(notes), owner, id) then Ok(()) else Err(NotFound)
    {
      if id in notes && notes[id].owner == owner {
        notes := notes - {id};
        return Ok(());
      }
      return Err(NotFound);
    }
  }

  // ----- paging

  /** The notes under the first n ids, or under all of them if there are fewer. */
  ghost predicate Shows(t: Table, ids: seq<nat>, items: seq<Note>, n: nat) {
    && |items| == (if n < |ids| then n else |ids|)
    && forall k | 0 <= k < |items| :: ids[k] in t && items[k] == t[ids[k]]
  }

  lemma OnePageMore(t: Table, ids: seq<nat>, items: seq<Note>, page: seq<Note>, limit: nat, offset: nat)
    requires offset < |ids| && Shows(t, ids, items, offset)
    requires var window := Window(ids, limit, offset);
      |page| == |window| && forall k | 0 <= k < |window| :: window[k] in t && page[k] == t[window[k]]
    ensures Shows(t, ids, items + page, offset + limit)
  {
    var window, all := Window(ids, limit, offset), items + page;
    forall k | 0 <= k < |all| ensures ids[k] in t && all[k] == t[ids[k]] {
      assert k >= offset ==> window[k - offset] == ids[k] && all[k] == page[k - offset];
    }
  }

  /** Page k of size `limit`, as the service asks for it. */
  function PageOf(ids: seq<nat>, limit: nat, k: nat): seq<nat> {
    Window(ids, limit, k * limit)
  }

  function Pages(ids: seq<nat>, limit: nat, n: nat): seq<nat> {
    if n == 0 then [] else Pages(ids, limit, n - 1) + PageOf(ids, limit, n - 1)
  }

  lemma {:induction false} PagesArePrefix(ids: seq<nat>, limit: nat, n: nat)
    ensures Pages(ids, limit, n) == if n * limit >= |ids| then ids else ids[..n * limit]
  {
    if n > 0 {
      PagesArePrefix(ids, limit, n - 1);
      assert n * limit == (n - 1) * limit + limit;
    }
  }

  lemma ListingIsPermutation(t: Table, owner: nat, ids: seq<nat>)
    requires IsListing(t, owner, ids)
    ensures |ids| == |OwnedIds(t, owner)|
    ensures NewestFirst(t, owner, ids)
  {
    DistinctSize(ids);
    assert SetOf(ids) == OwnedIds(t, owner);
  }

  function SetOf(ids: seq<nat>): set<nat> {
    set id | id in ids
  }

  lemma {:induction false} DistinctSize(ids: seq<nat>)
    requires forall i, j | 0 <= i < j < |ids| :: ids[i] != ids[j]
    ensures |SetOf(ids)| == |ids|
  {
    if ids != [] {
      var n := |ids| - 1;
      DistinctSize(ids[..n]);
      assert ids[n] !in ids[..n];
      assert SetOf(ids) == SetOf(ids[..n]) + {ids[n]};
    }
  }

  /** Two listings of the same rows are the same, so every page comes from one sequence. */
  lemma ListingIsUnique(t: Table, owner: nat, a: seq<nat>, b: seq<nat>)
    requires IsListing(t, owner, a) && IsListing(t, owner, b)
    ensures a == b
  {
    ListingIsPermutation(t, owner, a);
    ListingIsPermutation(t, owner, b);
    SamePlaces(t, owner, a, b, |a|);
  }

  lemma {:induction false} SamePlaces(t: Table, owner: nat, a: seq<nat>, b: seq<nat>, n: nat)
    requires IsListing(t, owner, a) && IsListing(t, owner, b) && |a| == |b| && n <= |a|
    ensures forall k | 0 <= k < n :: a[k] == b[k]
  {
    if n > 0 {
      SamePlaces(t, owner, a, b, n - 1);
      StandsLater(t, owner, b, n - 1, a[n - 1]);
      StandsLater(t, owner, a, n - 1, b[n - 1]);
    }
  }

  /** An owned note that a listing has not reached before place k stands there or later. */
  lemma StandsLater(t: Table, owner: nat, ids: seq<nat>, k: nat, id: nat)
    requires IsListing(t, owner, ids) && k < |ids| && Owns(t, owner, id)
    requires forall i | 0 <= i < k :: ids[i] != id
    ensures ids[k] == id || (Owns(t, owner, ids[k]) && Precedes(t, ids[k], id))
  {
    var i :| 0 <= i < |ids| && ids[i] == id;
  }

  /** Over a table that does not change, the pages at offsets 0, L, 2L, ... for the clamped limit
      L hold every owned note exactly once, newest first, and their lengths sum to the total. */
  lemma PagingLosesAndRepeatsNothing(t: Table, owner: nat, ids: seq<nat>, limit: Option<int>, n: nat)
    requires IsListing(t, owner, ids) && n * ClampLimit(limit) >= |OwnedIds(t, owner)|
    ensures var all := Pages(ids, ClampLimit(limit), n);
      && IsListing(t, owner, all) && NewestFirst(t, owner, all) && |all| == |OwnedIds(t, owner)|
  {
    ListingIsPermutation(t, owner, ids);
    PagesArePrefix(ids, ClampLimit(limit), n);
  }
}
