/** The in-memory credential store: one map of rows and two hand-kept secondary indexes. */
module Credentials {
  import opened Wrappers
  import opened Sorting

  /** UUIDs compare as their fixed-length text does. */
  datatype Uuid = Uuid(bits: nat)

  const NIL := Uuid(0)

  datatype Credential = Credential(
    id: Uuid, userID: Uuid, inboundID: Uuid, value: string, createdAt: int, updatedAt: int)

  datatype Error = UserRequired | InboundRequired | ValueRequired | NotFound | Duplicate

  type Rows = map<Uuid, Credential>
  type Index = map<Uuid, seq<Uuid>>

  datatype Tables = Tables(rows: Rows, byUser: Index, byInb: Index)

  /** A missing key reads as the empty list. */
  function Lookup(index: Index, key: Uuid): seq<Uuid> {
    if key in index then index[key] else []
  }

  function AppendTo(index: Index, key: Uuid, id: Uuid): Index {
    index[key := Lookup(index, key) + [id]]
  }

  function Differs(id: Uuid): Uuid -> bool {
    (x: Uuid) => x != id
  }

  function RemoveFrom(index: Index, key: Uuid, id: Uuid): Index {
    index[key := Filter(Differs(id), Lookup(index, key))]
  }

  /** The uniqueness check: only the user's own list is read. */
  predicate ScanFinds(t: Tables, userID: Uuid, inboundID: Uuid) {
    exists i :: 0 <= i < |Lookup(t.byUser, userID)|
      && Lookup(t.byUser, userID)[i] in t.rows && t.rows[Lookup(t.byUser, userID)[i]].inboundID == inboundID
  }

  function Inserted(t: Tables, row: Credential): Tables {
    Tables(t.rows[row.id := row], AppendTo(t.byUser, row.userID, row.id), AppendTo(t.byInb, row.inboundID, row.id))
  }

  function Deleted(t: Tables, id: Uuid): Tables
    requires id in t.rows
  {
    var row := t.rows[id];
    Tables(t.rows - {id}, RemoveFrom(t.byUser, row.userID, id), RemoveFrom(t.byInb, row.inboundID, id))
  }

  function Updated(t: Tables, id: Uuid, value: string, now: int): Tables
    requires id in t.rows
  {
    t.(rows := t.rows[id := t.rows[id].(value := value, updatedAt := now)])
  }

  datatype Op =
    | Insert(id: Uuid, userID: Uuid, inboundID: Uuid, value: string, now: int)
    | Update(id: Uuid, value: string, now: int)
    | Delete(id: Uuid)

  function InsertError(t: Tables, o: Op): Option<Error>
    requires o.Insert?
  {
    if o.userID == NIL then Some(UserRequired)
    else if o.inboundID == NIL then Some(InboundRequired)
    else if o.value == "" then Some(ValueRequired)
    else if ScanFinds(t, o.userID, o.inboundID) then Some(Duplicate)
    else None
  }

  function Perform(t: Tables, o: Op): (Tables, Option<Error>) {
    match o
    case Insert(id, u, i, v, now) =>
      if InsertError(t, o).Some? then (t, InsertError(t, o))
      else (Inserted(t, Credential(id, u, i, v, now, now)), None)
    case Update(id, v, now) =>
      if v == "" then (t, Some(ValueRequired))
      else if id !in t.rows then (t, Some(NotFound))
      else (Updated(t, id, v, now), None)
    case Delete(id) =>
      if id !in t.rows then (t, Some(NotFound)) else (Deleted(t, id), None)
  }

  // ---- consistency ----

  /** `index` lists each row id exactly once, under its own key and nowhere else. */
  ghost predicate Indexes(index: Index, rows: Rows, keyOf: Credential -> Uuid) {
    && (forall key :: NoDuplicates(Lookup(index, key)))
    && (forall key, id :: id in Lookup(index, key) <==> id in rows && keyOf(rows[id]) == key)
  }

  function UserOf(c: Credential): Uuid { c.userID }

  function InboundOf(c: Credential): Uuid { c.inboundID }

  ghost predicate OnePerPair(rows: Rows) {
    forall x, y :: x in rows && y in rows && x != y ==>
      rows[x].userID != rows[y].userID || rows[x].inboundID != rows[y].inboundID
  }

  ghost predicate Consistent(t: Tables) {
    && (forall id :: id in t.rows ==> t.rows[id].id == id)
    && Indexes(t.byUser, t.rows, UserOf)
    && Indexes(t.byInb, t.rows, InboundOf)
    && OnePerPair(t.rows)
  }

  /** The scan of one index rejects exactly the pairs that some row has. */
  lemma ScanIsExact(t: Tables, userID: Uuid, inboundID: Uuid)
    requires Consistent(t)
    ensures ScanFinds(t, userID, inboundID) <==>
      exists id :: id in t.rows && t.rows[id].userID == userID && t.rows[id].inboundID == inboundID
  {
    var ids := Lookup(t.byUser, userID);
    if id :| id in t.rows && t.rows[id].userID == userID && t.rows[id].inboundID == inboundID {
      assert id in ids;
      var i :| 0 <= i < |ids| && ids[i] == id;
    }
    if ScanFinds(t, userID, inboundID) {
      var i :| 0 <= i < |ids| && ids[i] in t.rows && t.rows[ids[i]].inboundID == inboundID;
      assert ids[i] in ids;
      assert ids[i] in t.rows && UserOf(t.rows[ids[i]]) == userID;
    }
  }

  lemma AppendIndexes(index: Index, rows: Rows, keyOf: Credential -> Uuid, row: Credential)
    requires Indexes(index, rows, keyOf) && row.id !in rows
    ensures Indexes(AppendTo(index, keyOf(row), row.id), rows[row.id := row], keyOf)
  {
    var after := AppendTo(index, keyOf(row), row.id);
    forall key
      ensures NoDuplicates(Lookup(after, key))
    {
      assert NoDuplicates(Lookup(index, key));
      assert row.id !in Lookup(index, key);
    }
    forall key, x
      ensures x in Lookup(after, key) <==> x in rows[row.id := row] && keyOf(rows[row.id := row][x]) == key
    {
      assert x in Lookup(index, key) <==> x in rows && keyOf(rows[x]) == key;
    }
  }

  lemma RemovedMembers(index: Index, rows: Rows, keyOf: Credential -> Uuid, id: Uuid, key: Uuid, x: Uuid)
    requires Indexes(index, rows, keyOf) && id in rows
    ensures x in Lookup(RemoveFrom(index, keyOf(rows[id]), id), key) <==> x in rows && x != id && keyOf(rows[x]) == key
  {
    FilterElements(Differs(id), Lookup(index, keyOf(rows[id])));
    assert x in Lookup(index, key) <==> x in rows && keyOf(rows[x]) == key;
  }

  lemma RemovedDistinct(index: Index, rows: Rows, keyOf: Credential -> Uuid, id: Uuid, key: Uuid)
    requires Indexes(index, rows, keyOf) && id in rows
    ensures NoDuplicates(Lookup(RemoveFrom(index, keyOf(rows[id]), id), key))
  {
    assert NoDuplicates(Lookup(index, keyOf(rows[id])));
    FilterKeepsDistinct(Differs(id), Lookup(index, keyOf(rows[id])));
    assert NoDuplicates(Lookup(index, key));
  }

  lemma RemoveIndexes(index: Index, rows: Rows, keyOf: Credential -> Uuid, id: Uuid)
    requires Indexes(index, rows, keyOf) && id in rows
    ensures Indexes(RemoveFrom(index, keyOf(rows[id]), id), rows - {id}, keyOf)
  {
    var after := RemoveFrom(index, keyOf(rows[id]), id);
    forall key
      ensures NoDuplicates(Lookup(after, key))
    {
      RemovedDistinct(index, rows, keyOf, id, key);
    }
    forall key, x
      ensures x in Lookup(after, key) <==> x in rows - {id} && keyOf((rows - {id})[x]) == key
    {
      RemovedMembers(index, rows, keyOf, id, key, x);
    }
  }

  lemma UpdateIndexes(index: Index, rows: Rows, keyOf: Credential -> Uuid, id: Uuid, row: Credential)
    requires Indexes(index, rows, keyOf) && id in rows && keyOf(row) == keyOf(rows[id])
    ensures Indexes(index, rows[id := row], keyOf)
  {
  }

  /** A fresh id is one no row has. */
  predicate FreshId(t: Tables, o: Op) {
    o.Insert? ==> o.id !in t.rows
  }

  lemma PerformKeepsConsistent(t: Tables, o: Op)
    requires Consistent(t) && FreshId(t, o)
    ensures Consistent(Perform(t, o).0)
  {
    match o
    case Insert(id, u, i, v, now) =>
      if InsertError(t, o).None? {
        var row := Credential(id, u, i, v, now, now);
        AppendIndexes(t.byUser, t.rows, UserOf, row);
        AppendIndexes(t.byInb, t.rows, InboundOf, row);
        ScanIsExact(t, u, i);
      }
    case Update(id, v, now) =>
      if v != "" && id in t.rows {
        UpdateIndexes(t.byUser, t.rows, UserOf, id, t.rows[id].(value := v, updatedAt := now));
        UpdateIndexes(t.byInb, t.rows, InboundOf, id, t.rows[id].(value := v, updatedAt := now));
      }
    case Delete(id) =>
      if id in t.rows {
        RemoveIndexes(t.byUser, t.rows, UserOf, id);
        RemoveIndexes(t.byInb, t.rows, InboundOf, id);
      }
  }

  const EMPTY := Tables(map[], map[], map[])

  ghost predicate FreshRun(t: Tables, run: seq<Op>)
    decreases |run|
  {
    run != [] ==> FreshId(t, run[0]) && FreshRun(Perform(t, run[0]).0, run[1..])
  }

  ghost function After(t: Tables, run: seq<Op>): Tables
    decreases |run|
  {
    if run == [] then t else After(Perform(t, run[0]).0, run[1..])
  }

  lemma {:induction false} ConsistentAfter(t: Tables, run: seq<Op>)
    requires Consistent(t) && FreshRun(t, run)
    ensures Consistent(After(t, run))
    decreases |run|
  {
    if run != [] {
      PerformKeepsConsistent(t, run[0]);
      ConsistentAfter(Perform(t, run[0]).0, run[1..]);
    }
  }

  /**
   After any run from the empty store: both indexes list each row id exactly once under its
   own key and nowhere else, no two rows share (user, inbound), and the next Insert is
   refused as a duplicate exactly when its pair exists.
   */
  lemma EveryRunKeepsIndexes(run: seq<Op>, userID: Uuid, inboundID: Uuid)
    requires FreshRun(EMPTY, run)
    ensures Consistent(After(EMPTY, run))
    ensures ScanFinds(After(EMPTY, run), userID, inboundID) <==>
      exists id :: id in After(EMPTY, run).rows
        && After(EMPTY, run).rows[id].userID == userID && After(EMPTY, run).rows[id].inboundID == inboundID
  {
    ConsistentAfter(EMPTY, run);
    ScanIsExact(After(EMPTY, run), userID, inboundID);
  }

  // ---- what each operation does, row by row and list by list ----

  /** The list of one key has the id at its end; every other list is as before. */
  ghost predicate PutLast(before: Index, after: Index, key: Uuid, id: Uuid) {
    && Lookup(after, key) == Lookup(before, key) + [id]
    && forall k :: k != key ==> Lookup(after, k) == Lookup(before, k)
  }

  /** The list of one key has lost the id from its place; every other list is as before. */
  ghost predicate TakenOut(before: Index, after: Index, key: Uuid, id: Uuid) {
    && (exists i :: 0 <= i < |Lookup(before, key)| && CutAt(Lookup(before, key), Lookup(after, key), i, id))
    && forall k :: k != key ==> Lookup(after, k) == Lookup(before, k)
  }

  ghost predicate CutAt(ids: seq<Uuid>, left: seq<Uuid>, i: nat, id: Uuid)
    requires i < |ids|
  {
    ids[i] == id && left == ids[..i] + ids[i + 1..]
  }

  lemma {:induction false} FilterKeepsAll(ids: seq<Uuid>, id: Uuid)
    requires id !in ids
    ensures Filter(Differs(id), ids) == ids
  {
    if ids != [] {
      FilterKeepsAll(ids[..|ids| - 1], id);
    }
  }

  lemma {:induction false} FilterCuts(ids: seq<Uuid>, id: Uuid, i: nat)
    requires NoDuplicates(ids) && i < |ids| && ids[i] == id
    ensures Filter(Differs(id), ids) == ids[..i] + ids[i + 1..]
  {
    var front, last := ids[..|ids| - 1], |ids| - 1;
    if i == last {
      FilterKeepsAll(front, id);
    } else {
      FilterCuts(front, id, i);
      assert front[i + 1..] + [ids[last]] == ids[i + 1..];
    }
  }

  lemma RemovedIsTakenOut(index: Index, rows: Rows, keyOf: Credential -> Uuid, id: Uuid)
    requires Indexes(index, rows, keyOf) && id in rows
    ensures TakenOut(index, RemoveFrom(index, keyOf(rows[id]), id), keyOf(rows[id]), id)
  {
    var ids := Lookup(index, keyOf(rows[id]));
    assert NoDuplicates(ids) && id in ids;
    var i :| 0 <= i < |ids| && ids[i] == id;
    FilterCuts(ids, id, i);
    var after := RemoveFrom(index, keyOf(rows[id]), id);
    assert Lookup(after, keyOf(rows[id])) == Filter(Differs(id), ids);
    assert CutAt(ids, Lookup(after, keyOf(rows[id])), i, id);
  }

  lemma AppendIsPutLast(index: Index, key: Uuid, id: Uuid)
    ensures PutLast(index, AppendTo(index, key, id), key, id)
  {
  }

  lemma AbsentIsUnlisted(t: Tables, id: Uuid)
    requires Consistent(t) && id !in t.rows
    ensures forall key :: id !in Lookup(t.byUser, key) && id !in Lookup(t.byInb, key)
  {
  }

  // ---- what GetByID finds after a run ----

  /** The operation is not refused. */
  ghost predicate Takes(rows: Rows, o: Op) {
    match o
    case Insert(_, u, i, v, _) =>
      u != NIL && i != NIL && v != "" && !exists x :: x in rows && rows[x].userID == u && rows[x].inboundID == i
    case Update(id, v, _) => v != "" && id in rows
    case Delete(id) => id in rows
  }

  ghost predicate TakesAt(run: seq<Op>, k: nat)
    requires k < |run|
  {
    Takes(After(EMPTY, run[..k]).rows, run[k])
  }

  /** The last operation on id that was not refused. */
  ghost predicate LastOn(run: seq<Op>, k: nat, id: Uuid)
    requires k < |run|
  {
    run[k].id == id && TakesAt(run, k) && forall j :: k < j < |run| && run[j].id == id ==> !TakesAt(run, j)
  }

  /** What an operation that is not refused leaves of its row. */
  ghost function Left(before: Rows, o: Op): Option<Credential>
    requires Takes(before, o)
  {
    match o
    case Insert(id, u, i, v, now) => Some(Credential(id, u, i, v, now, now))
    case Update(id, v, now) => Some(before[id].(value := v, updatedAt := now))
    case Delete(id) => None
  }

  ghost function RowOf(rows: Rows, id: Uuid): Option<Credential> {
    if id in rows then Some(rows[id]) else None
  }

  lemma {:induction false} AfterSnoc(t: Tables, run: seq<Op>, o: Op)
    ensures After(t, run + [o]) == Perform(After(t, run), o).0
    decreases |run|
  {
    if run == [] {
      assert (run + [o])[1..] == [];
    } else {
      assert (run + [o])[0] == run[0] && (run + [o])[1..] == run[1..] + [o];
      AfterSnoc(Perform(t, run[0]).0, run[1..], o);
    }
  }

  lemma {:induction false} FreshPrefix(t: Tables, run: seq<Op>, o: Op)
    requires FreshRun(t, run + [o])
    ensures FreshRun(t, run)
    decreases |run|
  {
    if run != [] {
      assert (run + [o])[0] == run[0] && (run + [o])[1..] == run[1..] + [o];
      FreshPrefix(Perform(t, run[0]).0, run[1..], o);
    }
  }

  /** A refused operation changes no row, and any other exactly its own. */
  lemma PerformRows(t: Tables, o: Op)
    requires Consistent(t)
    ensures Perform(t, o).1.None? <==> Takes(t.rows, o)
    ensures !Takes(t.rows, o) ==> Perform(t, o).0 == t
    ensures Takes(t.rows, o) ==> RowOf(Perform(t, o).0.rows, o.id) == Left(t.rows, o)
    ensures forall id :: id != o.id ==> RowOf(Perform(t, o).0.rows, id) == RowOf(t.rows, id)
  {
    if o.Insert? {
      ScanIsExact(t, o.userID, o.inboundID);
    }
  }

  lemma LastOnEarlier(run: seq<Op>, o: Op, k: nat, id: Uuid)
    requires k < |run| && LastOn(run + [o], k, id)
    ensures LastOn(run, k, id)
  {
    assert (run + [o])[..k] == run[..k];
    forall j | k < j < |run| && run[j].id == id
      ensures !TakesAt(run, j)
    {
      assert (run + [o])[..j] == run[..j] && (run + [o])[j] == run[j];
    }
  }

  /** After any run, a row is what the last operation on its id that was not refused has left: the insert, the update, or nothing. */
  lemma {:induction false} RowIsLastWritten(run: seq<Op>, k: nat, id: Uuid)
    requires FreshRun(EMPTY, run) && k < |run| && LastOn(run, k, id)
    ensures RowOf(After(EMPTY, run).rows, id) == Left(After(EMPTY, run[..k]).rows, run[k])
    decreases |run|
  {
    var front, o := run[..|run| - 1], run[|run| - 1];
    assert run == front + [o];
    FreshPrefix(EMPTY, front, o);
    ConsistentAfter(EMPTY, front);
    AfterSnoc(EMPTY, front, o);
    PerformRows(After(EMPTY, front), o);
    if k < |front| {
      LastOnEarlier(front, o, k, id);
      RowIsLastWritten(front, k, id);
      assert run[..k] == front[..k];
      assert o.id == id ==> !TakesAt(run, |front|);
    }
  }

  /** And without any such operation there is no row. */
  lemma {:induction false} NoRowUnwritten(run: seq<Op>, id: Uuid)
    requires FreshRun(EMPTY, run)
    requires forall k :: 0 <= k < |run| && run[k].id == id ==> !TakesAt(run, k)
    ensures id !in After(EMPTY, run).rows
    decreases |run|
  {
    if run != [] {
      var front, o := run[..|run| - 1], run[|run| - 1];
      assert run == front + [o];
      FreshPrefix(EMPTY, front, o);
      ConsistentAfter(EMPTY, front);
      AfterSnoc(EMPTY, front, o);
      PerformRows(After(EMPTY, front), o);
      forall k | 0 <= k < |front| && front[k].id == id
        ensures !TakesAt(front, k)
      {
        assert run[..k] == front[..k] && run[k] == front[k];
      }
      NoRowUnwritten(front, id);
      assert o.id == id ==> !TakesAt(run, |front|);
    }
  }

  // ---- listings ----

  predicate ByInboundThenId(x: Credential, y: Credential) {
    x.inboundID.bits < y.inboundID.bits || (x.inboundID == y.inboundID && x.id.bits < y.id.bits)
  }

  predicate ByUserThenId(x: Credential, y: Credential) {
    x.userID.bits < y.userID.bits || (x.userID == y.userID && x.id.bits < y.id.bits)
  }

  predicate ByUserInboundId(x: Credential, y: Credential) {
    x.userID.bits < y.userID.bits || (x.userID == y.userID && ByInboundThenId(x, y))
  }

  /** `out` holds exactly the rows that satisfy p, each once. */
  ghost predicate Holds(out: seq<Credential>, rows: Rows, p: Credential -> bool) {
    && (forall c :: c in out <==> c.id in rows && rows[c.id] == c && p(c))
    && NoDuplicates(out)
  }

  function OfUser(u: Uuid): Credential -> bool {
    (c: Credential) => c.userID == u
  }

  function OfInbound(i: Uuid): Credential -> bool {
    (c: Credential) => c.inboundID == i
  }

  function Anyone(): Credential -> bool {
    (c: Credential) => true
  }

  /** ListAll, restricted to what p selects, in any order that agrees with it there. */
  lemma RestrictedListing(rows: Rows, less: (Credential, Credential) -> bool, p: Credential -> bool,
                          all: seq<Credential>, mine: seq<Credential>)
    requires Holds(all, rows, Anyone()) && Holds(mine, rows, p)
    requires Sorted(ByUserInboundId, all) && Sorted(less, mine) && WeakOrder(less)
    requires forall x, y :: p(x) && p(y) ==> (less(x, y) ==> ByUserInboundId(x, y))
    requires forall x, y :: x in mine && y in mine && x != y ==> less(x, y) || less(y, x)
    ensures mine == Filter(p, all)
  {
    var kept := Filter(p, all);
    FilterElements(p, all);
    FilterKeepsDistinct(p, all);
    FilterSorted(ByUserInboundId, p, all);
    SameSetSameMultiset(mine, kept);
    forall i, j | 0 <= i < j < |kept|
      ensures !less(kept[j], kept[i])
    {
      assert kept[i] in kept && kept[j] in kept;
      assert !ByUserInboundId(kept[j], kept[i]);
    }
    SortedIsUnique(less, mine, kept);
  }

  /** ListByUser and ListByInbound are ListAll filtered, as sequences. */
  lemma ListingsAgree(t: Tables, u: Uuid, i: Uuid, all: seq<Credential>, users: seq<Credential>, inbounds: seq<Credential>)
    requires Consistent(t)
    requires Holds(all, t.rows, Anyone()) && Sorted(ByUserInboundId, all)
    requires Holds(users, t.rows, OfUser(u)) && Sorted(ByInboundThenId, users)
    requires Holds(inbounds, t.rows, OfInbound(i)) && Sorted(ByUserThenId, inbounds)
    ensures users == Filter(OfUser(u), all)
    ensures inbounds == Filter(OfInbound(i), all)
  {
    RestrictedListing(t.rows, ByInboundThenId, OfUser(u), all, users);
    RestrictedListing(t.rows, ByUserThenId, OfInbound(i), all, inbounds);
  }

  lemma SortedHolds(less: (Credential, Credential) -> bool, found: seq<Credential>, rows: Rows, p: Credential -> bool)
    requires Holds(found, rows, p) && WeakOrder(less)
    ensures Holds(Sort(less, found), rows, p) && Sorted(less, Sort(less, found))
  {
    SortIsPermutation(less, found);
    SameElements(Sort(less, found), found);
    SortSorted(less, found);
    forall x | x in Sort(less, found)
      ensures multiset(Sort(less, found))[x] == 1
    {
      CountOfDistinct(found, x);
    }
    DistinctByCount(Sort(less, found));
  }

  class MemoryStore {
    var rows: Rows
    var byUser: Index
    var byInb: Index

    function Now(): Tables reads this { Tables(rows, byUser, byInb) }

    ghost predicate Valid() reads this { Consistent(Now()) }

    constructor ()
      ensures Valid() && Now() == EMPTY
    {
      rows, byUser, byInb := map[], map[], map[];
    }

    /** `id` is what uuid.New returned. */
    method Insert(id: Uuid, userID: Uuid, inboundID: Uuid, value: string, now: int) returns (r: Result<Credential, Error>)
      requires Valid() && id !in rows
      modifies this
      ensures Valid()
      ensures Now() == Perform(old(Now()), Op.Insert(id, userID, inboundID, value, now)).0
      ensures r.Ok? ==> r.value == Credential(id, userID, inboundID, value, now, now) && rows == old(rows)[id := r.value]
      ensures r.Ok? ==> PutLast(old(byUser), byUser, userID, id) && PutLast(old(byInb), byInb, inboundID, id)
      ensures r.Err? ==> Now() == old(Now()) && r.error in {UserRequired, InboundRequired, ValueRequired, Duplicate}
      ensures r == Err(UserRequired) <==> userID == NIL
      ensures r == Err(InboundRequired) <==> userID != NIL && inboundID == NIL
      ensures r == Err(ValueRequired) <==> userID != NIL && inboundID != NIL && value == ""
      ensures r == Err(Duplicate) <==>
        && userID != NIL && inboundID != NIL && value != ""
        && exists x :: x in old(rows) && old(rows)[x].userID == userID && old(rows)[x].inboundID == inboundID
    {
      PerformKeepsConsistent(Now(), Op.Insert(id, userID, inboundID, value, now));
      ScanIsExact(Now(), userID, inboundID);
      AppendIsPutLast(byUser, userID, id);
      AppendIsPutLast(byInb, inboundID, id);
      if userID == NIL {
        return Err(UserRequired);
      }
      if inboundID == NIL {
        return Err(InboundRequired);
      }
      if value == "" {
        return Err(ValueRequired);
      }
      var row := Credential(id, userID, inboundID, value, now, now);
      var ids := Lookup(byUser, userID);
      for i := 0 to |ids|
        invariant forall j :: 0 <= j < i ==> !(ids[j] in rows && rows[ids[j]].inboundID == inboundID)
      {
        if ids[i] in rows && rows[ids[i]].inboundID == inboundID {
          return Err(Duplicate);
        }
      }
      rows := rows[id := row];
      byUser := AppendTo(byUser, userID, id);
      byInb := AppendTo(byInb, inboundID, id);
      return Ok(row);
    }

    method Update(id: Uuid, newValue: string, now: int) returns (r: Result<Credential, Error>)
      requires Valid()
      modifies this
      ensures Valid()
      ensures Now() == Perform(old(Now()), Op.Update(id, newValue, now)).0
      ensures r == if newValue == "" then Err(ValueRequired)
                   else if id !in old(rows) then Err(NotFound)
                   else Ok(old(rows)[id].(value := newValue, updatedAt := now))
      ensures rows == if r.Ok? then old(rows)[id := r.value] else old(rows)
      ensures byUser == old(byUser) && byInb == old(byInb)
    {
      PerformKeepsConsistent(Now(), Op.Update(id, newValue, now));
      if newValue == "" {
        return Err(ValueRequired);
      }
      if id !in rows {
        return Err(NotFound);
      }
      rows := rows[id := rows[id].(value := newValue, updatedAt := now)];
      return Ok(rows[id]);
    }

    method RemoveID(ids: seq<Uuid>, id: Uuid) returns (out: seq<Uuid>)
      ensures out == Filter(Differs(id), ids)
    {
      out := [];
      for i := 0 to |ids|
        invariant out == Filter(Differs(id), ids[..i])
      {
        assert ids[..i + 1][..i] == ids[..i];
        if ids[i] != id {
          out := out + [ids[i]];
        }
      }
      assert ids[..|ids|] == ids;
    }

    method Delete(id: Uuid) returns (err: Option<Error>)
      requires Valid()
      modifies this
      ensures Valid()
      ensures (Now(), err) == Perform(old(Now()), Op.Delete(id))
      ensures err == if id in old(rows) then None else Some(NotFound)
      ensures err.Some? ==> Now() == old(Now())
      ensures err.None? ==> rows == old(rows) - {id}
      ensures err.None? ==>
        && TakenOut(old(byUser), byUser, old(rows)[id].userID, id)
        && TakenOut(old(byInb), byInb, old(rows)[id].inboundID, id)
        && forall key :: id !in Lookup(byUser, key) && id !in Lookup(byInb, key)
    {
      PerformKeepsConsistent(Now(), Op.Delete(id));
      if id !in rows {
        return Some(NotFound);
      }
      RemovedIsTakenOut(byUser, rows, UserOf, id);
      RemovedIsTakenOut(byInb, rows, InboundOf, id);
      var row := rows[id];
      rows := rows - {id};
      var users := RemoveID(Lookup(byUser, row.userID), id);
      byUser := byUser[row.userID := users];
      var inbounds := RemoveID(Lookup(byInb, row.inboundID), id);
      byInb := byInb[row.inboundID := inbounds];
      AbsentIsUnlisted(Now(), id);
      return None;
    }

    /** Found exactly when listed: under the row's own user and inbound, and then under no other. */
    method GetByID(id: Uuid) returns (r: Result<Credential, Error>)
      requires Valid()
      ensures r == if id in rows then Ok(rows[id]) else Err(NotFound)
      ensures forall u :: id in Lookup(byUser, u) <==> r.Ok? && r.value.userID == u
      ensures forall i :: id in Lookup(byInb, i) <==> r.Ok? && r.value.inboundID == i
    {
      if id !in rows {
        return Err(NotFound);
      }
      return Ok(rows[id]);
    }

    /** The rows an index list names, in its order. */
    method Collect(ids: seq<Uuid>, ghost p: Credential -> bool) returns (out: seq<Credential>)
      requires Valid() && NoDuplicates(ids)
      requires forall id :: id in ids <==> id in rows && p(rows[id])
      ensures Holds(out, rows, p)
    {
      out := [];
      for i := 0 to |ids|
        invariant |out| == i && forall j :: 0 <= j < i ==> ids[j] in rows && out[j] == rows[ids[j]]
      {
        assert ids[i] in ids;
        if ids[i] in rows {
          out := out + [rows[ids[i]]];
        }
      }
      forall c
        ensures c in out <==> c.id in rows && rows[c.id] == c && p(c)
      {
        if c.id in rows && rows[c.id] == c && p(c) {
          assert c.id in ids;
          var j :| 0 <= j < |ids| && ids[j] == c.id;
          assert out[j] == c;
        }
        if c in out {
          var j :| 0 <= j < |out| && out[j] == c;
          assert ids[j] in ids;
        }
      }
      forall j, k | 0 <= j < k < |out|
        ensures out[j] != out[k]
      {
        assert out[j].id == ids[j] && out[k].id == ids[k];
      }
    }

    method ListByUser(userID: Uuid) returns (out: seq<Credential>)
      requires Valid()
      ensures Holds(out, rows, OfUser(userID)) && Sorted(ByInboundThenId, out)
    {
      var ids := Lookup(byUser, userID);
      forall id
        ensures id in ids <==> id in rows && OfUser(userID)(rows[id])
      {
        assert id in ids <==> id in rows && UserOf(rows[id]) == userID;
      }
      var found := Collect(ids, OfUser(userID));
      out := Sort(ByInboundThenId, found);
      SortedHolds(ByInboundThenId, found, rows, OfUser(userID));
    }

    method ListByInbound(inboundID: Uuid) returns (out: seq<Credential>)
      requires Valid()
      ensures Holds(out, rows, OfInbound(inboundID)) && Sorted(ByUserThenId, out)
    {
      var ids := Lookup(byInb, inboundID);
      forall id
        ensures id in ids <==> id in rows && OfInbound(inboundID)(rows[id])
      {
        assert id in ids <==> id in rows && InboundOf(rows[id]) == inboundID;
      }
      var found := Collect(ids, OfInbound(inboundID));
      out := Sort(ByUserThenId, found);
      SortedHolds(ByUserThenId, found, rows, OfInbound(inboundID));
    }

    /** The map is walked in no particular order. */
    method ListAll() returns (out: seq<Credential>)
      requires Valid()
      ensures Holds(out, rows, Anyone()) && Sorted(ByUserInboundId, out)
    {
      var ids: seq<Uuid> := [];
      var todo := rows.Keys;
      while todo != {}
        invariant todo <= rows.Keys
        invariant forall id :: id in ids <==> id in rows.Keys - todo
        invariant NoDuplicates(ids)
      {
        var id :| id in todo;
        assert id !in ids;
        todo := todo - {id};
        ids := ids + [id];
      }
      var found := Collect(ids, Anyone());
      out := Sort(ByUserInboundId, found);
      SortedHolds(ByUserInboundId, found, rows, Anyone());
    }
  }
}
