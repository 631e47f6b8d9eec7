/** LocalStore: backup rows kept in one index file that every mutation rewrites. */
module BackupStore {
  import opened Wrappers
  import opened Sorting

  datatype Id = Id(text: string)
  datatype Hash = Hash(hex: string)
  datatype Trigger = Manual | Scheduled
  datatype Status = Running | Complete | Failed
  datatype Counts = Counts(schema: int, nodes: int, users: int, hosts: int)

  datatype Error =
    | NotFound | AlreadyExists | IndexUnreadable | IndexUnwritable
    | InProgress | DumpFailed | StatFailed | HashFailed | SidecarFailed | RemoveFailed

  /** Path is not a field: it is always the id followed by ".dump.gz". */
  datatype Backup = Backup(
    id: Id, created: int, trigger: Trigger, status: Status,
    error: Option<Error>, size: nat, checksum: Hash, counts: Counts)

  /**
   How rewriting the index file ended: os.Create failed; it truncated the file and the encoder or
   Close then failed, so that what is left does not decode; everything landed although Close
   reported an error; or no error at all.
   */
  datatype Write = NotStarted | Torn | Unconfirmed | Written

  /** Whether the index file can be opened, and how a rewrite of it ends. */
  datatype Io = Io(readable: bool, write: Write)

  predicate Older(a: Backup, b: Backup) { a.created < b.created }
  predicate Newer(a: Backup, b: Backup) { a.created > b.created }

  ghost predicate UniqueIds(rows: seq<Backup>) {
    forall i, j :: 0 <= i < j < |rows| ==> rows[i].id != rows[j].id
  }

  type Table = map<Id, Backup>

  function TableOf(rows: seq<Backup>): (t: Table)
    requires UniqueIds(rows)
    ensures forall r :: r in rows ==> r.id in t && t[r.id] == r
    ensures forall id :: id in t ==> t[id] in rows && t[id].id == id
  {
    map r | r in rows :: r.id := r
  }

  // ---- what the operations do to the index ----

  /** The table, or None once the file is torn; `writes` is history: how each rewrite so far ended. */
  datatype Index = Index(table: Option<Table>, writes: seq<Write>)

  /** The file cannot be opened, or what it holds does not decode. */
  predicate Unreadable(x: Index, io: Io) { !io.readable || x.table.None? }

  function Rewritten(x: Index, t: Table, w: Write): (Index, Option<Error>)
    requires x.table.Some?
  {
    var table := match w
      case NotStarted => x.table
      case Torn => None
      case Unconfirmed => Some(t)
      case Written => Some(t);
    (Index(table, x.writes + [w]), if w.Written? then None else Some(IndexUnwritable))
  }

  function InsertResult(x: Index, b: Backup, io: Io): (Index, Option<Error>) {
    if Unreadable(x, io) then (x, Some(IndexUnreadable))
    else if b.id in x.table.value then (x, Some(AlreadyExists))
    else Rewritten(x, x.table.value[b.id := b], io.write)
  }

  function UpdateResult(x: Index, b: Backup, io: Io): (Index, Option<Error>) {
    if Unreadable(x, io) then (x, Some(IndexUnreadable))
    else if b.id !in x.table.value then (x, Some(NotFound))
    else Rewritten(x, x.table.value[b.id := b], io.write)
  }

  function DeleteResult(x: Index, id: Id, io: Io): (Index, Option<Error>) {
    if Unreadable(x, io) then (x, Some(IndexUnreadable))
    else if id !in x.table.value then (x, None)
    else Rewritten(x, x.table.value - {id}, io.write)
  }

  /** The answer to a rewrite that was reached, and what the index then holds. */
  ghost predicate Rewrote(x: Index, y: Index, t: Table, err: Option<Error>, w: Write) {
    && err == (if w == Written then None else Some(IndexUnwritable))
    && y.table == (if w == NotStarted then x.table else if w == Torn then None else Some(t))
  }

  /** Each call in the caller's terms: what it answers, and what the index holds when it got as far as writing. */
  lemma CallsAnswer(x: Index, b: Backup, io: Io)
    ensures
      var (y, err) := InsertResult(x, b, io);
      if !io.readable || x.table.None? then y == x && err == Some(IndexUnreadable)
      else if b.id in x.table.value then y == x && err == Some(AlreadyExists)
      else Rewrote(x, y, x.table.value[b.id := b], err, io.write)
    ensures
      var (y, err) := UpdateResult(x, b, io);
      if !io.readable || x.table.None? then y == x && err == Some(IndexUnreadable)
      else if b.id !in x.table.value then y == x && err == Some(NotFound)
      else Rewrote(x, y, x.table.value[b.id := b], err, io.write)
    ensures
      var (y, err) := DeleteResult(x, b.id, io);
      if !io.readable || x.table.None? then y == x && err == Some(IndexUnreadable)
      else if b.id !in x.table.value then y == x && err == None
      else Rewrote(x, y, x.table.value - {b.id}, err, io.write)
  {
  }

  /** The whole row is replaced, its creation time with it. */
  lemma UpdateReplacesCreatedAt(x: Index, b: Backup, io: Io)
    requires UpdateResult(x, b, io).1.None?
    ensures UpdateResult(x, b, io).0.table.Some? && b.id in UpdateResult(x, b, io).0.table.value
    ensures UpdateResult(x, b, io).0.table.value[b.id].created == b.created
  {
  }

  /** A newest-first list of exactly the rows of t; rows of one instant may come in either order. */
  ghost predicate Lists(rows: seq<Backup>, t: Table) {
    UniqueIds(rows) && Sorted(Newer, rows) && TableOf(rows) == t
  }

  // ---- permutations and edits of the rows ----

  lemma PermutedTable(a: seq<Backup>, b: seq<Backup>)
    requires UniqueIds(a) && multiset(a) == multiset(b)
    ensures UniqueIds(b) && TableOf(a) == TableOf(b)
  {
    SameElements(a, b);
    forall i, j | 0 <= i < j < |b|
      ensures b[i].id != b[j].id
    {
      assert b[i] in a && b[j] in a;
      if b[i] == b[j] {
        CountTwice(b, i, j);
        CountOfDistinct(a, b[i]);
      }
    }
    assert forall id :: id in TableOf(a) <==> id in TableOf(b) by {
      forall id
        ensures id in TableOf(a) <==> id in TableOf(b)
      {
        if id in TableOf(a) {
          assert TableOf(a)[id] in b;
        }
        if id in TableOf(b) {
          assert TableOf(b)[id] in a;
        }
      }
    }
    forall id | id in TableOf(a)
      ensures TableOf(a)[id] == TableOf(b)[id]
    {
      assert TableOf(a)[id] in b;
    }
  }

  lemma AppendedTable(rows: seq<Backup>, b: Backup)
    requires UniqueIds(rows) && b.id !in TableOf(rows)
    ensures UniqueIds(rows + [b]) && TableOf(rows + [b]) == TableOf(rows)[b.id := b]
  {
    var t, u := TableOf(rows)[b.id := b], TableOf(rows + [b]);
    forall id
      ensures id in t <==> id in u
      ensures id in t ==> t[id] == u[id]
    {
      if id in t {
        assert t[id] in rows + [b];
      }
      if id in u {
        assert u[id] in rows || u[id] == b;
      }
    }
  }

  lemma ReplacedTable(rows: seq<Backup>, i: nat, b: Backup)
    requires UniqueIds(rows) && i < |rows| && rows[i].id == b.id
    ensures UniqueIds(rows[i := b]) && TableOf(rows[i := b]) == TableOf(rows)[b.id := b]
  {
    var t, u := TableOf(rows)[b.id := b], TableOf(rows[i := b]);
    assert rows[i := b][i] == b && rows[i] in rows;
    forall id
      ensures id in t <==> id in u
      ensures id in t ==> t[id] == u[id]
    {
      if id in t && id != b.id {
        var k :| 0 <= k < |rows| && rows[k] == t[id];
        assert rows[i := b][k] == rows[k];
      }
      if id in u && id != b.id {
        var k :| 0 <= k < |rows| && rows[i := b][k] == u[id];
        assert rows[k] in rows;
      }
    }
  }

  function Without(id: Id): Backup -> bool { (r: Backup) => r.id != id }

  lemma {:induction false} FilteredIds(rows: seq<Backup>, id: Id)
    requires UniqueIds(rows)
    ensures UniqueIds(Filter(Without(id), rows))
  {
    if rows != [] {
      var front := rows[..|rows| - 1];
      FilteredIds(front, id);
      FilterElements(Without(id), front);
      var kept, last := Filter(Without(id), front), rows[|rows| - 1];
      forall i | 0 <= i < |kept|
        ensures kept[i].id != last.id
      {
        assert kept[i] in front;
        var k :| 0 <= k < |front| && front[k] == kept[i];
      }
    }
  }

  lemma FilteredTable(rows: seq<Backup>, id: Id)
    requires UniqueIds(rows)
    ensures UniqueIds(Filter(Without(id), rows)) && TableOf(Filter(Without(id), rows)) == TableOf(rows) - {id}
  {
    FilteredIds(rows, id);
    FilterElements(Without(id), rows);
    var t, u := TableOf(rows) - {id}, TableOf(Filter(Without(id), rows));
    forall k
      ensures k in t <==> k in u
      ensures k in t ==> t[k] == u[k]
    {
      if k in t {
        assert t[k] in Filter(Without(id), rows);
      }
      if k in u {
        assert u[k] in rows;
      }
    }
  }

  lemma OlderIsWeakOrder()
    ensures WeakOrder(Older) && WeakOrder(Newer)
  {
  }

  /** sort.Slice: some sorted arrangement; equal elements may come out in any order. */
  method SortSlice(ghost table: Table, less: (Backup, Backup) -> bool, rows: seq<Backup>) returns (out: seq<Backup>)
    requires WeakOrder(less) && UniqueIds(rows) && TableOf(rows) == table
    ensures multiset(out) == multiset(rows) && Sorted(less, out)
    ensures UniqueIds(out) && TableOf(out) == table
  {
    out := Sort(less, rows);
    SortIsPermutation(less, rows);
    SortSorted(less, rows);
    PermutedTable(rows, out);
  }

  class LocalStore {
    /** What the index file decodes to, no rows while the file is missing; None when it does not decode. */
    var file: Option<seq<Backup>>
    ghost var writes: seq<Write>

    constructor ()
      ensures Valid() && Contents() == Index(Some(map[]), [])
    {
      file := Some([]);
      writes := [];
    }

    ghost predicate Valid()
      reads this
    {
      file.Some? ==> UniqueIds(file.value) && Sorted(Older, file.value)
    }

    ghost function Contents(): Index
      requires Valid()
      reads this
    {
      Index(if file.Some? then Some(TableOf(file.value)) else None, writes)
    }

    method ReadIndex(readable: bool) returns (r: Result<seq<Backup>, Error>)
      requires Valid()
      ensures r == if !readable || file.None? then Err(IndexUnreadable) else Ok(file.value)
    {
      if !readable {
        return Err(IndexUnreadable);
      }
      return match file
             case Some(rows) => Ok(rows)
             case None => Err(IndexUnreadable);
    }

    /** Sorts, truncates the file, encodes and closes. */
    method WriteIndex(w: Write, rows: seq<Backup>) returns (err: Option<Error>)
      requires Valid() && file.Some? && UniqueIds(rows)
      modifies this
      ensures Valid() && (Contents(), err) == Rewritten(old(Contents()), TableOf(rows), w)
    {
      OlderIsWeakOrder();
      var arranged := SortSlice(TableOf(rows), Older, rows);
      writes := writes + [w];
      if w.NotStarted? {
        return Some(IndexUnwritable);
      }
      file := None;
      if w.Torn? {
        return Some(IndexUnwritable);
      }
      file := Some(arranged);
      return if w.Written? then None else Some(IndexUnwritable);
    }

    method Insert(io: Io, b: Backup) returns (err: Option<Error>)
      requires Valid()
      modifies this
      ensures Valid() && (Contents(), err) == InsertResult(old(Contents()), b, io)
    {
      var read := ReadIndex(io.readable);
      if read.Err? {
        return Some(read.error);
      }
      var rows := read.value;
      for i := 0 to |rows|
        invariant unchanged(this) && forall k :: 0 <= k < i ==> rows[k].id != b.id
      {
        if rows[i].id == b.id {
          assert rows[i] in rows;
          return Some(AlreadyExists);
        }
      }
      AppendedTable(rows, b);
      err := WriteIndex(io.write, rows + [b]);
    }

    method Update(io: Io, b: Backup) returns (err: Option<Error>)
      requires Valid()
      modifies this
      ensures Valid() && (Contents(), err) == UpdateResult(old(Contents()), b, io)
    {
      var read := ReadIndex(io.readable);
      if read.Err? {
        return Some(read.error);
      }
      var rows := read.value;
      for i := 0 to |rows|
        invariant unchanged(this) && forall k :: 0 <= k < i ==> rows[k].id != b.id
      {
        if rows[i].id == b.id {
          assert rows[i] in rows;
          ReplacedTable(rows, i, b);
          err := WriteIndex(io.write, rows[i := b]);
          return;
        }
      }
      return Some(NotFound);
    }

    method Get(readable: bool, id: Id) returns (r: Result<Backup, Error>)
      requires Valid()
      ensures r == if !readable || Contents().table.None? then Err(IndexUnreadable)
                   else if id in Contents().table.value then Ok(Contents().table.value[id]) else Err(NotFound)
    {
      var read := ReadIndex(readable);
      if read.Err? {
        return Err(read.error);
      }
      var rows := read.value;
      for i := 0 to |rows|
        invariant forall k :: 0 <= k < i ==> rows[k].id != id
      {
        if rows[i].id == id {
          assert rows[i] in rows;
          return Ok(rows[i]);
        }
      }
      return Err(NotFound);
    }

    method List(readable: bool) returns (r: Result<seq<Backup>, Error>)
      requires Valid()
      ensures r.Ok? <==> readable && Contents().table.Some?
      ensures r.Ok? ==> Lists(r.value, Contents().table.value)
      ensures r.Err? ==> r.error == IndexUnreadable
    {
      var read := ReadIndex(readable);
      if read.Err? {
        return Err(read.error);
      }
      OlderIsWeakOrder();
      var sorted := SortSlice(Contents().table.value, Newer, read.value);
      return Ok(sorted);
    }

    /** The kept rows are moved down inside the decoded slice. */
    method Delete(io: Io, id: Id) returns (err: Option<Error>)
      requires Valid()
      modifies this
      ensures Valid() && (Contents(), err) == DeleteResult(old(Contents()), id, io)
    {
      var read := ReadIndex(io.readable);
      if read.Err? {
        return Some(read.error);
      }
      var rows := read.value;
      var slice := new Backup[|rows|](i requires 0 <= i < |rows| => rows[i]);
      assert slice[..] == rows;
      var n, found := Compact(slice, id);
      assert slice[..n] == Filter(Without(id), rows);
      if !found {
        assert forall r :: r in rows ==> r.id != id;
        return None;
      }
      FilteredTable(rows, id);
      err := WriteIndex(io.write, slice[..n]);
    }
  }

  /** out := rows[:0]; then append every row that stays. */
  method Compact(slice: array<Backup>, id: Id) returns (n: nat, found: bool)
    modifies slice
    ensures n <= slice.Length
    ensures slice[..n] == Filter(Without(id), old(slice[..]))
    ensures found <==> exists r :: r in old(slice[..]) && r.id == id
  {
    n, found := 0, false;
    ghost var rows := slice[..];
    for i := 0 to slice.Length
      invariant n <= i
      invariant slice[..n] == Filter(Without(id), rows[..i])
      invariant forall k :: i <= k < slice.Length ==> slice[k] == rows[k]
      invariant found <==> exists r :: r in rows[..i] && r.id == id
    {
      var r := slice[i];
      assert rows[..i + 1][..i] == rows[..i] && rows[..i + 1] == rows[..i] + [r];
      if r.id == id {
        found := true;
        continue;
      }
      slice[n] := r;
      n := n + 1;
      assert slice[..n] == slice[..n - 1] + [r];
    }
    assert rows[..slice.Length] == rows;
  }
}
