/**
 A process that stops inside Create, Delete or a retention pass: the writes each of them makes, in
 order, cut off anywhere.  What a stop leaves behind, some failure leaves behind too.
 */
module BackupStops {
  import opened Wrappers
  import opened BackupStore
  import opened Retention
  import opened BackupVault
  import opened BackupSafety

  // ---- writes and stops ----

  datatype Effect = Rewrites(index: Index) | Writes(file: File, bytes: Bytes) | Removes(file: File)

  function Apply(v: Vault, w: Effect): Vault {
    match w
    case Rewrites(index) => v.(index := index)
    case Writes(file, bytes) => v.(files := v.files[file := bytes])
    case Removes(file) => v.(files := v.files - {file})
  }

  /** Stopped inside a write: the index is torn, or the file holds some part; a removal happens or does not. */
  function Partly(v: Vault, w: Effect, part: Bytes): Vault {
    match w
    case Rewrites(_) => v.(index := Index(None, v.index.writes + [Torn]))
    case Writes(file, _) => v.(files := v.files[file := part])
    case Removes(_) => v
  }

  /** Stopped after k of the writes or, with a part, inside the next one; k past the end is no stop. */
  function Stopped(v: Vault, ws: seq<Effect>, k: nat, part: Option<Bytes>): Vault
    decreases |ws|
  {
    if ws == [] then v
    else if k > 0 then Stopped(Apply(v, ws[0]), ws[1..], k - 1, part)
    else if part.Some? then Partly(v, ws[0], part.value)
    else v
  }

  function Finish(v: Vault, ws: seq<Effect>): Vault {
    Stopped(v, ws, |ws|, None)
  }

  lemma {:induction false} StoppedIn(v: Vault, a: seq<Effect>, b: seq<Effect>, k: nat, part: Option<Bytes>)
    ensures Stopped(v, a + b, k, part) ==
      if k < |a| then Stopped(v, a, k, part) else Stopped(Finish(v, a), b, k - |a|, part)
    decreases |a|
  {
    if a == [] {
      assert a + b == b;
    } else {
      assert (a + b)[0] == a[0] && (a + b)[1..] == a[1..] + b;
      if k > 0 {
        StoppedIn(Apply(v, a[0]), a[1..], b, k - 1, part);
      }
    }
  }

  lemma StoppedOne(v: Vault, w: Effect, k: nat, part: Option<Bytes>)
    ensures Stopped(v, [w], k, part) ==
      if k > 0 then Apply(v, w) else if part.Some? then Partly(v, w, part.value) else v
  {
    assert [w][1..] == [];
  }

  // ---- the writes of each operation ----

  /** No write when the index file cannot be read or has nothing to change. */
  function Rewrite(x: Index, y: Index): seq<Effect> {
    if x == y then [] else [Rewrites(y)]
  }

  function DumpEffects(id: Id, d: DumpEnv): seq<Effect> {
    if !d.opens then []
    else [Writes(Dump(id), d.landed)] + if Succeeds(d) || !d.removed then [] else [Removes(Dump(id))]
  }

  function FailedRow(x: Index, row: Backup, error: Error, io: Io): Index {
    UpdateResult(x, row.(status := Failed, error := Some(error)), io).0
  }

  function Undo(e: CreateEnv): seq<Effect> {
    if e.dumpRemoved then [Removes(Dump(e.id))] else []
  }

  function SidecarLeft(e: CreateEnv): seq<Effect> {
    if e.sidecarLeft.Some? then [Writes(Sidecar(e.id), e.sidecarLeft.value)] else []
  }

  /** Create's writes once the dump has ended. */
  function Tail(x: Index, codec: Codec, e: CreateEnv): seq<Effect> {
    if !Succeeds(e.dump) then Rewrite(x, FailedRow(x, NewRow(e), DumpFailed, e.update))
    else if !e.stats then Rewrite(x, FailedRow(x, NewRow(e), StatFailed, e.update)) + Undo(e)
    else if !e.hashes then Rewrite(x, FailedRow(x, NewRow(e), HashFailed, e.update)) + Undo(e)
    else if !e.sidecarWritten then
      SidecarLeft(e) + (Rewrite(x, FailedRow(x, NewRow(e), SidecarFailed, e.update)) + Undo(e))
    else
      var (y, failure) := UpdateResult(x, Finished(codec, e), e.update);
      var again := if failure.None? then [] else Rewrite(y, FailedRow(y, Finished(codec, e), failure.value, e.retry));
      [Writes(Sidecar(e.id), codec.line(codec.sha(e.dump.landed), e.id))] + (Rewrite(x, y) + again)
  }

  /** Create's writes up to its retention pass. */
  function CreateEffects(v: Vault, codec: Codec, e: CreateEnv): seq<Effect> {
    var (x, err) := InsertResult(v.index, NewRow(e), e.insert);
    Rewrite(v.index, x) + if err.Some? then [] else DumpEffects(e.id, e.dump) + Tail(x, codec, e)
  }

  function DeleteEffects(v: Vault, id: Id, d: DeleteEnv): seq<Effect> {
    if !d.readable || v.index.table.None? || id !in v.index.table.value || !d.dumpRemoved then []
    else if !d.sidecarRemoved then [Removes(Dump(id))]
    else [Removes(Dump(id))] + ([Removes(Sidecar(id))] + Rewrite(v.index, DeleteResult(v.index, id, d.index).0))
  }

  // ---- every stop is a failure ----

  const UNREAD: Io := Io(false, NotStarted)
  const TEARS: Io := Io(true, Torn)

  /** f is a Create like e that stops short of its pass, and never checks out unless e does with the same dump. */
  ghost predicate Stands(codec: Codec, e: CreateEnv, f: CreateEnv) {
    && f.id == e.id && f.now == e.now && f.trigger == e.trigger && f.counts == e.counts && !f.cleanup.readable
    && (Plausible(codec, e.dump) ==> Plausible(codec, f.dump))
    && (ChecksPass(f) ==> ChecksPass(e) && f.dump == e.dump)
  }

  function Short(e: CreateEnv): CreateEnv {
    e.(cleanup := e.cleanup.(readable := false))
  }

  lemma StoppedRewrite(v: Vault, y: Index, more: seq<Effect>, k: nat, part: Option<Bytes>)
    ensures
      var ws := Rewrite(v.index, y) + more;
      Stopped(v, ws, k, part) ==
        if v.index != y && k == 0 then (if part.Some? then Partly(v, Rewrites(y), part.value) else v)
        else Stopped(v.(index := y), more, if v.index == y then k else k - 1, part)
  {
    StoppedIn(v, Rewrite(v.index, y), more, k, part);
    StoppedOne(v, Rewrites(y), k, part);
    StoppedOne(v, Rewrites(y), 1, None);
  }

  lemma StoppedFirst(v: Vault, w: Effect, more: seq<Effect>, k: nat, part: Option<Bytes>)
    ensures Stopped(v, [w] + more, k, part) ==
      if k > 0 then Stopped(Apply(v, w), more, k - 1, part) else if part.Some? then Partly(v, w, part.value) else v
  {
    StoppedIn(v, [w], more, k, part);
    StoppedOne(v, w, k, part);
    StoppedOne(v, w, 1, None);
  }

  /** The vault once the new row is in and the dump has ended. */
  function Midway(v: Vault, e: CreateEnv): Vault {
    Vault(InsertResult(v.index, NewRow(e), e.insert).0, Dumped(v.files, e.id, e.dump))
  }

  /** How an index write that may have been cut off ended. */
  function CutIo(io: Io, k: nat, part: Option<Bytes>): Io {
    if k > 0 then io else if part.Some? then TEARS else UNREAD
  }

  lemma StopWithoutDump(v: Vault, codec: Codec, e: CreateEnv, k: nat, part: Option<Bytes>) returns (f: CreateEnv)
    requires Inserts(v.index, e) && !Succeeds(e.dump)
    ensures Stands(codec, e, f) && (k >= |Tail(Midway(v, e).index, codec, e)| ==> f == Short(e))
    ensures Stored(v, codec, f).0 == Stopped(Midway(v, e), Tail(Midway(v, e).index, codec, e), k, part)
  {
    var w := Midway(v, e);
    var y := FailedRow(w.index, NewRow(e), DumpFailed, e.update);
    StoppedRewrite(w, y, [], k, part);
    assert Rewrite(w.index, y) + [] == Rewrite(w.index, y);
    f := Short(e).(update := if y == w.index then e.update else CutIo(e.update, k, part));
  }

  lemma StoppedUndo(w: Vault, e: CreateEnv, k: nat, part: Option<Bytes>)
    ensures Stopped(w, Undo(e), k, part) == if k > 0 then w.(files := Undumped(w.files, e)) else w
  {
    if e.dumpRemoved {
      StoppedOne(w, Removes(Dump(e.id)), k, part);
    }
  }

  lemma StopBeforeSidecar(v: Vault, codec: Codec, e: CreateEnv, k: nat, part: Option<Bytes>) returns (f: CreateEnv)
    requires Inserts(v.index, e) && Succeeds(e.dump) && (!e.stats || !e.hashes)
    ensures Stands(codec, e, f) && (k >= |Tail(Midway(v, e).index, codec, e)| ==> f == Short(e))
    ensures Stored(v, codec, f).0 == Stopped(Midway(v, e), Tail(Midway(v, e).index, codec, e), k, part)
  {
    var w := Midway(v, e);
    var y := FailedRow(w.index, NewRow(e), if e.stats then HashFailed else StatFailed, e.update);
    StoppedRewrite(w, y, Undo(e), k, part);
    if y == w.index {
      StoppedUndo(w, e, k, part);
      f := Short(e).(dumpRemoved := e.dumpRemoved && k > 0);
    } else if k == 0 {
      f := Short(e).(update := CutIo(e.update, 0, part), dumpRemoved := false);
    } else {
      StoppedUndo(w.(index := y), e, k - 1, part);
      f := Short(e).(dumpRemoved := e.dumpRemoved && k > 1);
    }
  }

  lemma StopAfterSidecarFails(v: Vault, codec: Codec, e: CreateEnv, k: nat, part: Option<Bytes>)
    returns (f: CreateEnv)
    requires Inserts(v.index, e) && Succeeds(e.dump) && e.stats && e.hashes && !e.sidecarWritten
    ensures Stands(codec, e, f)
    ensures
      var w := Midway(v, e);
      k >= |Rewrite(w.index, FailedRow(w.index, NewRow(e), SidecarFailed, e.update)) + Undo(e)| ==> f == Short(e)
    ensures
      var w := Midway(v, e);
      var u := w.(files := LeftSidecar(w.files, e));
      var y := FailedRow(w.index, NewRow(e), SidecarFailed, e.update);
      Stored(v, codec, f).0 == Stopped(u, Rewrite(u.index, y) + Undo(e), k, part)
  {
    var w := Midway(v, e);
    var u := w.(files := LeftSidecar(w.files, e));
    var y := FailedRow(w.index, NewRow(e), SidecarFailed, e.update);
    StoppedRewrite(u, y, Undo(e), k, part);
    if y == w.index {
      StoppedUndo(u, e, k, part);
      f := Short(e).(dumpRemoved := e.dumpRemoved && k > 0);
    } else if k == 0 {
      f := Short(e).(update := CutIo(e.update, 0, part), dumpRemoved := false);
    } else {
      StoppedUndo(u.(index := y), e, k - 1, part);
      f := Short(e).(dumpRemoved := e.dumpRemoved && k > 1);
    }
  }

  /** Stopped before or inside the write of the checksum file. */
  function NoSidecar(e: CreateEnv, part: Option<Bytes>): CreateEnv {
    Short(e).(sidecarWritten := false, sidecarLeft := part, update := UNREAD, dumpRemoved := false)
  }

  lemma StopAtSidecar(v: Vault, codec: Codec, e: CreateEnv, k: nat, part: Option<Bytes>) returns (f: CreateEnv)
    requires Inserts(v.index, e) && Succeeds(e.dump) && e.stats && e.hashes && !e.sidecarWritten
    ensures Stands(codec, e, f) && (k >= |Tail(Midway(v, e).index, codec, e)| ==> f == Short(e))
    ensures Stored(v, codec, f).0 == Stopped(Midway(v, e), Tail(Midway(v, e).index, codec, e), k, part)
  {
    var w := Midway(v, e);
    var more := Rewrite(w.index, FailedRow(w.index, NewRow(e), SidecarFailed, e.update)) + Undo(e);
    if e.sidecarLeft.None? {
      assert [] + more == more;
      f := StopAfterSidecarFails(v, codec, e, k, part);
    } else {
      StoppedFirst(w, Writes(Sidecar(e.id), e.sidecarLeft.value), more, k, part);
      if k == 0 {
        f := NoSidecar(e, part);
      } else {
        f := StopAfterSidecarFails(v, codec, e, k - 1, part);
      }
    }
  }

  lemma StopAtLastUpdate(v: Vault, codec: Codec, e: CreateEnv, k: nat, part: Option<Bytes>) returns (f: CreateEnv)
    requires Inserts(v.index, e) && ChecksPass(e)
    ensures Stands(codec, e, f) && (k >= |Tail(Midway(v, e).index, codec, e)| ==> f == Short(e))
    ensures Stored(v, codec, f).0 == Stopped(Midway(v, e), Tail(Midway(v, e).index, codec, e), k, part)
  {
    var w, done := Midway(v, e), Finished(codec, e);
    var line := codec.line(codec.sha(e.dump.landed), e.id);
    var (y, failure) := UpdateResult(w.index, done, e.update);
    var again := if failure.None? then [] else Rewrite(y, FailedRow(y, done, failure.value, e.retry));
    StoppedFirst(w, Writes(Sidecar(e.id), line), Rewrite(w.index, y) + again, k, part);
    if k == 0 {
      f := NoSidecar(e, part);
    } else {
      var u := w.(files := w.files[Sidecar(e.id) := line]);
      StoppedRewrite(u, y, again, k - 1, part);
      if y != w.index && k == 1 {
        f := Short(e).(update := CutIo(e.update, 0, part), retry := UNREAD);
      } else {
        var j := if y == w.index then k - 1 else k - 2;
        if failure.None? {
          f := Short(e);
        } else {
          var z := FailedRow(y, done, failure.value, e.retry);
          StoppedRewrite(u.(index := y), z, [], j, part);
          assert again + [] == again;
          f := Short(e).(retry := if z == y then e.retry else CutIo(e.retry, j, part));
        }
      }
    }
  }

  lemma StopInTail(v: Vault, codec: Codec, e: CreateEnv, k: nat, part: Option<Bytes>) returns (f: CreateEnv)
    requires Inserts(v.index, e)
    ensures Stands(codec, e, f) && (k >= |Tail(Midway(v, e).index, codec, e)| ==> f == Short(e))
    ensures Stored(v, codec, f).0 == Stopped(Midway(v, e), Tail(Midway(v, e).index, codec, e), k, part)
  {
    if !Succeeds(e.dump) {
      f := StopWithoutDump(v, codec, e, k, part);
    } else if !e.stats || !e.hashes {
      f := StopBeforeSidecar(v, codec, e, k, part);
    } else if !e.sidecarWritten {
      f := StopAtSidecar(v, codec, e, k, part);
    } else {
      f := StopAtLastUpdate(v, codec, e, k, part);
    }
  }

  /** A dump that gets no further than these bytes; nothing removes it and its row stays running. */
  function DumpCut(e: CreateEnv, part: Option<Bytes>): CreateEnv {
    Short(e).(
      dump := e.dump.(opens := part.Some?, copied := false, removed := false,
                      landed := if part.Some? then part.value else e.dump.landed),
      update := UNREAD)
  }

  lemma StoppedDump(u: Vault, e: CreateEnv, k: nat, part: Option<Bytes>)
    ensures
      var ws := DumpEffects(e.id, e.dump);
      Stopped(u, ws, k, part) ==
        if k >= |ws| then u.(files := Dumped(u.files, e.id, e.dump))
        else if k == 1 then u.(files := u.files[Dump(e.id) := e.dump.landed])
        else if part.Some? then u.(files := u.files[Dump(e.id) := part.value])
        else u
  {
    if e.dump.opens {
      var landed, removal := Writes(Dump(e.id), e.dump.landed), Removes(Dump(e.id));
      var more := if Succeeds(e.dump) || !e.dump.removed then [] else [removal];
      StoppedFirst(u, landed, more, k, part);
      if k > 0 && more != [] {
        StoppedOne(Apply(u, landed), removal, k - 1, part);
        assert u.files[Dump(e.id) := e.dump.landed] - {Dump(e.id)} == u.files - {Dump(e.id)};
      }
    }
  }

  lemma StopInDump(v: Vault, codec: Codec, e: CreateEnv, k: nat, part: Option<Bytes>) returns (f: CreateEnv)
    requires Inserts(v.index, e) && k < |DumpEffects(e.id, e.dump)|
    ensures Stands(codec, e, f)
    ensures
      var u := v.(index := Midway(v, e).index);
      Stored(v, codec, f).0 == Stopped(u, DumpEffects(e.id, e.dump), k, part)
  {
    StoppedDump(v.(index := Midway(v, e).index), e, k, part);
    f := DumpCut(e, if k == 1 then Some(e.dump.landed) else part);
  }

  /** Wherever Create stops, some Create that only failed leaves the same index and files. */
  lemma CreateStopIsFailure(v: Vault, codec: Codec, e: CreateEnv, k: nat, part: Option<Bytes>) returns (f: CreateEnv)
    ensures Stands(codec, e, f) && (k >= |CreateEffects(v, codec, e)| ==> f == Short(e))
    ensures Stored(v, codec, f).0 == Stopped(v, CreateEffects(v, codec, e), k, part)
  {
    var x := InsertResult(v.index, NewRow(e), e.insert).0;
    var u := v.(index := x);
    var dump, tail := DumpEffects(e.id, e.dump), Tail(x, codec, e);
    StoppedRewrite(v, x, if Inserts(v.index, e) then dump + tail else [], k, part);
    if x != v.index && k == 0 {
      f := Short(e).(insert := CutIo(e.insert, 0, part));
    } else if !Inserts(v.index, e) {
      f := Short(e);
    } else {
      assert x != v.index;
      StoppedIn(u, dump, tail, k - 1, part);
      if k - 1 < |dump| {
        f := StopInDump(v, codec, e, k - 1, part);
      } else {
        StoppedDump(u, e, |dump|, None);
        f := StopInTail(v, codec, e, k - 1 - |dump|, part);
      }
    }
  }

  lemma StoppedDelete(v: Vault, id: Id, d: DeleteEnv, k: nat, part: Option<Bytes>)
    requires d.readable && v.index.table.Some? && id in v.index.table.value && d.dumpRemoved && d.sidecarRemoved
    ensures
      var u, y := v.(files := v.files - {Dump(id)} - {Sidecar(id)}), DeleteResult(v.index, id, d.index).0;
      Stopped(v, DeleteEffects(v, id, d), k, part) ==
        if k == 0 then v
        else if k == 1 then v.(files := v.files - {Dump(id)})
        else if k >= 3 || y == v.index then u.(index := y)
        else if part.Some? then Partly(u, Rewrites(y), part.value)
        else u
  {
    var y := DeleteResult(v.index, id, d.index).0;
    var u, rest := v.(files := v.files - {Dump(id)}), Rewrite(v.index, y);
    StoppedFirst(v, Removes(Dump(id)), [Removes(Sidecar(id))] + rest, k, part);
    if k > 0 {
      StoppedFirst(u, Removes(Sidecar(id)), rest, k - 1, part);
      if k > 1 {
        assert rest + [] == rest;
        StoppedRewrite(u.(files := u.files - {Sidecar(id)}), y, [], k - 2, part);
      }
    }
  }

  /** The same for Delete. */
  lemma DeleteStopIsFailure(v: Vault, id: Id, d: DeleteEnv, k: nat, part: Option<Bytes>) returns (f: DeleteEnv)
    ensures Deleted(v, id, f).0 == Stopped(v, DeleteEffects(v, id, d), k, part)
    ensures k >= |DeleteEffects(v, id, d)| ==> f == d
  {
    f := d;
    if d.readable && v.index.table.Some? && id in v.index.table.value && d.dumpRemoved {
      if k == 0 {
        f := d.(readable := false);
      } else if !d.sidecarRemoved || k == 1 {
        f := d.(sidecarRemoved := false);
      } else if DeleteResult(v.index, id, d.index).0 != v.index {
        f := d.(index := CutIo(d.index, k - 2, part));
      }
      if d.sidecarRemoved {
        StoppedDelete(v, id, d, k, part);
      } else {
        StoppedOne(v, Removes(Dump(id)), k, part);
      }
    }
  }

  /** With no stop the writes are what the two operations do. */
  lemma EffectsAreTheOperations(v: Vault, codec: Codec, e: CreateEnv, id: Id, d: DeleteEnv)
    ensures Finish(v, CreateEffects(v, codec, e)) == Stored(v, codec, e).0
    ensures Finish(v, DeleteEffects(v, id, d)) == Deleted(v, id, d).0
  {
    var f := CreateStopIsFailure(v, codec, e, |CreateEffects(v, codec, e)|, None);
    assert Stored(v, codec, f).0 == Stored(v, codec, e).0;
    var g := DeleteStopIsFailure(v, id, d, |DeleteEffects(v, id, d)|, None);
  }

  /** A stop inside a deletion that would work keeps every ok row whole only before the first removal or after the last write. */
  lemma DeleteIsWholeOrNotBegun(v: Vault, codec: Codec, id: Id, d: DeleteEnv, k: nat, part: Option<Bytes>)
    requires Inv(v, codec) && Restorable(v) && id in Rows(v) && Rows(v)[id].status == Complete
    requires d == DeleteEnv(true, true, true, Io(true, Written))
    ensures Restorable(Stopped(v, DeleteEffects(v, id, d), k, part)) <==> k == 0 || k >= 3
  {
    StoppedDelete(v, id, d, k, part);
    DeleteKeepsWholeExactly(v, codec, id, d);
  }

  // ---- runs with stops ----

  /** A stop inside Create's own pass is a Create that stops after its last write, and then a pass that stops. */
  datatype Move =
    | Does(a: Action)
    | StopsCreate(e: CreateEnv, k: nat, part: Option<Bytes>)
    | StopsDelete(id: Id, d: DeleteEnv, k: nat, part: Option<Bytes>)
    | StopsPass(c: CleanupEnv, deletions: nat, k: nat, part: Option<Bytes>)

  /** Stopped inside the deletion that follows the first n. */
  function PassStopped(v: Vault, ids: seq<Id>, deletes: Id -> DeleteEnv, n: nat, k: nat, part: Option<Bytes>): Vault {
    if n >= |ids| then DeletedAll(v, ids, deletes)
    else
      var w := DeletedAll(v, ids[..n], deletes);
      Stopped(w, DeleteEffects(w, ids[n], deletes(ids[n])), k, part)
  }

  function MoveStep(v: Vault, codec: Codec, p: Policy, m: Move): Vault {
    match m
    case Does(a) => Step(v, codec, p, a)
    case StopsCreate(e, k, part) => Stopped(v, CreateEffects(v, codec, e), k, part)
    case StopsDelete(id, d, k, part) => Stopped(v, DeleteEffects(v, id, d), k, part)
    case StopsPass(c, n, k, part) =>
      if !c.readable || v.index.table.None? then v else PassStopped(v, DropList(p, c.now, c.rows), c.deletes, n, k, part)
  }

  ghost predicate MoveEnabled(v: Vault, codec: Codec, m: Move) {
    match m
    case Does(a) => Enabled(v, codec, a)
    case StopsCreate(e, _, _) => Plausible(codec, e.dump)
    case StopsDelete(_, _, _, _) => true
    case StopsPass(c, _, _, _) => Enabled(v, codec, CleanUp(c))
  }

  function MovesAfter(v: Vault, codec: Codec, p: Policy, moves: seq<Move>): Vault {
    if moves == [] then v else MoveStep(MovesAfter(v, codec, p, moves[..|moves| - 1]), codec, p, moves[|moves| - 1])
  }

  ghost predicate IsMoves(v: Vault, codec: Codec, p: Policy, moves: seq<Move>) {
    moves == [] || (
      var prefix := moves[..|moves| - 1];
      IsMoves(v, codec, p, prefix) && MoveEnabled(MovesAfter(v, codec, p, prefix), codec, moves[|moves| - 1]))
  }

  function CreateOf(m: Move): Option<CreateEnv> {
    match m
    case Does(CreateBackup(e)) => Some(e)
    case StopsCreate(e, _, _) => Some(e)
    case _ => None
  }

  /** Every Create of the run is one of the moves' or stands for its stop. */
  ghost predicate CreatesComeFrom(codec: Codec, run: seq<Action>, moves: seq<Move>) {
    forall i :: 0 <= i < |run| && run[i].CreateBackup? ==> SomeCreate(codec, run[i].e, moves)
  }

  ghost predicate SomeCreate(codec: Codec, f: CreateEnv, moves: seq<Move>) {
    exists j :: 0 <= j < |moves| && Causes(codec, moves[j], f)
  }

  ghost predicate Causes(codec: Codec, m: Move, f: CreateEnv) {
    CreateOf(m).Some? && (f == CreateOf(m).value || Stands(codec, CreateOf(m).value, f))
  }

  lemma RunSnoc(v: Vault, codec: Codec, p: Policy, run: seq<Action>, a: Action)
    requires IsRun(v, codec, p, run) && Enabled(After(v, codec, p, run), codec, a)
    ensures IsRun(v, codec, p, run + [a]) && After(v, codec, p, run + [a]) == Step(After(v, codec, p, run), codec, p, a)
  {
    assert (run + [a])[..|run|] == run;
  }

  ghost predicate OnlyDeletes(run: seq<Action>, longer: seq<Action>) {
    run <= longer && forall i :: |run| <= i < |longer| ==> longer[i].DeleteBackup?
  }

  lemma DeletesSnoc(run: seq<Action>, longer: seq<Action>, a: Action)
    requires OnlyDeletes(run, longer) && a.DeleteBackup?
    ensures OnlyDeletes(run, longer + [a])
  {
  }

  /** A pass is its deletions one after the other. */
  lemma {:induction false} DeletionsRun(v: Vault, codec: Codec, p: Policy, run: seq<Action>, ids: seq<Id>, deletes: Id -> DeleteEnv)
    returns (longer: seq<Action>)
    requires IsRun(v, codec, p, run)
    ensures IsRun(v, codec, p, longer) && After(v, codec, p, longer) == DeletedAll(After(v, codec, p, run), ids, deletes)
    ensures OnlyDeletes(run, longer)
  {
    longer := run;
    if ids != [] {
      var last := ids[|ids| - 1];
      longer := DeletionsRun(v, codec, p, run, ids[..|ids| - 1], deletes);
      RunSnoc(v, codec, p, longer, DeleteBackup(last, deletes(last)));
      DeletesSnoc(run, longer, DeleteBackup(last, deletes(last)));
      longer := longer + [DeleteBackup(last, deletes(last))];
    }
  }

  lemma StoppedDeletionRuns(v: Vault, codec: Codec, p: Policy, run: seq<Action>, id: Id, d: DeleteEnv, k: nat, part: Option<Bytes>)
    returns (a: Action)
    requires IsRun(v, codec, p, run)
    ensures a.DeleteBackup? && IsRun(v, codec, p, run + [a])
    ensures
      var w := After(v, codec, p, run);
      After(v, codec, p, run + [a]) == Stopped(w, DeleteEffects(w, id, d), k, part)
  {
    var f := DeleteStopIsFailure(After(v, codec, p, run), id, d, k, part);
    a := DeleteBackup(id, f);
    RunSnoc(v, codec, p, run, a);
  }

  lemma PassStopRuns(v: Vault, codec: Codec, p: Policy, run: seq<Action>, m: Move) returns (longer: seq<Action>)
    requires IsRun(v, codec, p, run) && m.StopsPass?
    ensures IsRun(v, codec, p, longer) && After(v, codec, p, longer) == MoveStep(After(v, codec, p, run), codec, p, m)
    ensures OnlyDeletes(run, longer)
  {
    var w, c, ids := After(v, codec, p, run), m.c, DropList(p, m.c.now, m.c.rows);
    if !c.readable || w.index.table.None? {
      longer := run;
    } else if m.deletions >= |ids| {
      longer := DeletionsRun(v, codec, p, run, ids, c.deletes);
    } else {
      var id := ids[m.deletions];
      var whole := DeletionsRun(v, codec, p, run, ids[..m.deletions], c.deletes);
      var a := StoppedDeletionRuns(v, codec, p, whole, id, c.deletes(id), m.k, m.part);
      DeletesSnoc(run, whole, a);
      longer := whole + [a];
    }
  }

  /** What a move adds to the run that stands for it. */
  ghost predicate Adds(codec: Codec, run: seq<Action>, longer: seq<Action>, m: Move) {
    run <= longer && forall i :: |run| <= i < |longer| && longer[i].CreateBackup? ==> Causes(codec, m, longer[i].e)
  }

  lemma AddsOne(codec: Codec, run: seq<Action>, a: Action, m: Move)
    requires a.CreateBackup? ==> Causes(codec, m, a.e)
    ensures Adds(codec, run, run + [a], m)
  {
  }

  lemma ShortCreate(w: Vault, codec: Codec, p: Policy, f: CreateEnv)
    requires !f.cleanup.readable && Plausible(codec, f.dump)
    ensures Enabled(w, codec, CreateBackup(f)) && Step(w, codec, p, CreateBackup(f)) == Stored(w, codec, f).0
  {
  }

  /** A stop inside Create or Delete is one action that fails. */
  lemma OneAction(w: Vault, codec: Codec, p: Policy, m: Move) returns (a: Action)
    requires MoveEnabled(w, codec, m) && !m.StopsPass?
    ensures Enabled(w, codec, a) && Step(w, codec, p, a) == MoveStep(w, codec, p, m)
    ensures a.CreateBackup? ==> Causes(codec, m, a.e)
  {
    match m
    case Does(b) =>
      a := b;
    case StopsCreate(e, k, part) =>
      var f := CreateStopIsFailure(w, codec, e, k, part);
      ShortCreate(w, codec, p, f);
      a := CreateBackup(f);
    case StopsDelete(id, d, k, part) =>
      var f := DeleteStopIsFailure(w, id, d, k, part);
      a := DeleteBackup(id, f);
  }

  lemma MoveRuns(v: Vault, codec: Codec, p: Policy, run: seq<Action>, m: Move) returns (longer: seq<Action>)
    requires IsRun(v, codec, p, run) && MoveEnabled(After(v, codec, p, run), codec, m)
    ensures IsRun(v, codec, p, longer) && After(v, codec, p, longer) == MoveStep(After(v, codec, p, run), codec, p, m)
    ensures Adds(codec, run, longer, m)
  {
    if m.StopsPass? {
      longer := PassStopRuns(v, codec, p, run, m);
    } else {
      var a := OneAction(After(v, codec, p, run), codec, p, m);
      RunSnoc(v, codec, p, run, a);
      AddsOne(codec, run, a, m);
      longer := run + [a];
    }
  }

  /** Whatever a run with stops reaches, a run that only fails reaches, with the same backups created. */
  lemma {:induction false} StopsAddNothing(v: Vault, codec: Codec, p: Policy, moves: seq<Move>) returns (run: seq<Action>)
    requires IsMoves(v, codec, p, moves)
    ensures IsRun(v, codec, p, run) && After(v, codec, p, run) == MovesAfter(v, codec, p, moves)
    ensures CreatesComeFrom(codec, run, moves)
  {
    run := [];
    if moves != [] {
      var prefix, m := moves[..|moves| - 1], moves[|moves| - 1];
      var before := StopsAddNothing(v, codec, p, prefix);
      run := MoveRuns(v, codec, p, before, m);
      forall i | 0 <= i < |run| && run[i].CreateBackup?
        ensures SomeCreate(codec, run[i].e, moves)
      {
        if i < |before| {
          assert run[i] == before[i];
          var j :| 0 <= j < |prefix| && Causes(codec, prefix[j], run[i].e);
          assert moves[j] == prefix[j];
        } else {
          assert Causes(codec, moves[|moves| - 1], run[i].e);
        }
      }
    }
  }

  ghost predicate EarnedDespiteStops(codec: Codec, moves: seq<Move>, row: Backup, files: Files) {
    exists j :: 0 <= j < |moves| && CreateOf(moves[j]).Some? && EarnedBy(codec, CreateBackup(CreateOf(moves[j]).value), row, files)
  }

  /**
   However operations fail and wherever the process stops: the index decodes exactly when no rewrite was
   torn; then no file is without a row, ok rows describe the files they have, and each is the work of one
   earlier Create, stopped or not, whose checks all passed.
   */
  lemma StopsKeepVaultSound(codec: Codec, p: Policy, moves: seq<Move>)
    requires IsMoves(NO_BACKUPS, codec, p, moves)
    ensures
      var v := MovesAfter(NO_BACKUPS, codec, p, moves);
      && Inv(v, codec)
      && (Intact(v) ==>
            forall id :: id in Rows(v) && Rows(v)[id].status == Complete ==> EarnedDespiteStops(codec, moves, Rows(v)[id], v.files))
  {
    var v := MovesAfter(NO_BACKUPS, codec, p, moves);
    var run := StopsAddNothing(NO_BACKUPS, codec, p, moves);
    InvAfter(NO_BACKUPS, codec, p, run);
    OkRowsAreEarned(codec, p, run);
    if Intact(v) {
      forall id | id in Rows(v) && Rows(v)[id].status == Complete
        ensures EarnedDespiteStops(codec, moves, Rows(v)[id], v.files)
      {
        var i :| 0 <= i < |run| && EarnedBy(codec, run[i], Rows(v)[id], v.files);
        var j :| 0 <= j < |moves| && Causes(codec, moves[j], run[i].e);
        assert EarnedBy(codec, CreateBackup(CreateOf(moves[j]).value), Rows(v)[id], v.files);
      }
    }
  }
}
