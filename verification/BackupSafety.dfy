/** What retention leaves, which backups stay restorable, and what a failed backup leaves behind. */
module BackupSafety {
  import opened Wrappers
  import opened Sorting
  import opened BackupStore
  import opened Retention
  import opened BackupVault

  // ---- Delete and retention ----

  /** The deletion of an existing row gets as far as rewriting the index. */
  predicate Reaches(d: DeleteEnv) {
    d.readable && d.dumpRemoved && d.sidecarRemoved && d.index.readable
  }

  /** It takes the row out. */
  predicate Completes(d: DeleteEnv) {
    Reaches(d) && Lands(d.index)
  }

  /** It tears the index. */
  predicate Tears(d: DeleteEnv) {
    Reaches(d) && d.index.write == Torn
  }

  ghost function Dropped(ids: seq<Id>, deletes: Id -> DeleteEnv): set<Id> {
    set id | id in ids && Completes(deletes(id))
  }

  ghost function Gone(id: Id, d: DeleteEnv): set<Id> {
    if Completes(d) then {id} else {}
  }

  ghost predicate SomeTears(t: Table, ids: seq<Id>, deletes: Id -> DeleteEnv) {
    exists id :: id in ids && id in t && Tears(deletes(id))
  }

  lemma DroppedStep(front: seq<Id>, last: Id, deletes: Id -> DeleteEnv)
    ensures Dropped(front + [last], deletes) == Dropped(front, deletes) + Gone(last, deletes(last))
  {
  }

  lemma DeletedTable(v: Vault, id: Id, d: DeleteEnv)
    requires Intact(v)
    ensures Deleted(v, id, d).0.index.table ==
      if id in Rows(v) && Tears(d) then None else Some(Rows(v) - Gone(id, d))
  {
    assert Rows(v) - {} == Rows(v);
    if id !in Rows(v) {
      assert Rows(v) - {id} == Rows(v);
    }
  }

  lemma MinusTwice(t: Table, a: set<Id>, b: set<Id>)
    ensures t - a - b == t - (a + b)
  {
  }

  lemma TearsStep(t: Table, front: seq<Id>, last: Id, deletes: Id -> DeleteEnv)
    requires !SomeTears(t, front, deletes)
    ensures SomeTears(t, front + [last], deletes)
      <==> last in t - Dropped(front, deletes) && Tears(deletes(last))
  {
    if last in t && Tears(deletes(last)) {
      assert last in front + [last];
    }
  }

  /** If no deletion tears the index, exactly the rows whose own deletion completes are gone; if one does, all are. */
  lemma {:induction false} DeletedAllTable(v: Vault, ids: seq<Id>, deletes: Id -> DeleteEnv)
    requires Intact(v)
    ensures DeletedAll(v, ids, deletes).index.table ==
      if SomeTears(Rows(v), ids, deletes) then None else Some(Rows(v) - Dropped(ids, deletes))
  {
    if ids == [] {
      assert Rows(v) - Dropped(ids, deletes) == Rows(v);
    } else {
      var front, last := ids[..|ids| - 1], ids[|ids| - 1];
      assert ids == front + [last];
      DeletedAllTable(v, front, deletes);
      var w := DeletedAll(v, front, deletes);
      if !SomeTears(Rows(v), front, deletes) {
        DeletedTable(w, last, deletes(last));
        TearsStep(Rows(v), front, last, deletes);
        DroppedStep(front, last, deletes);
        MinusTwice(Rows(v), Dropped(front, deletes), Gone(last, deletes(last)));
      }
    }
  }

  lemma KeptTable(p: Policy, now: int, rows: seq<Backup>)
    requires UniqueIds(rows) && Sorted(Newer, rows)
    ensures TableOf(rows) - (set id | id in DropList(p, now, rows)) == TableOf(rows[..KeptCount(p, now, rows)])
  {
    var n := KeptCount(p, now, rows);
    var t, u := TableOf(rows) - (set id | id in DropList(p, now, rows)), TableOf(rows[..n]);
    forall id
      ensures id in t <==> id in u
      ensures id in t ==> t[id] == u[id]
    {
      RetentionIsPrefix(p, now, rows, id);
      if id in t {
        KeptIsInPrefix(rows, n, id);
      }
      if id in u {
        PrefixIsKept(rows, n, id);
      }
    }
  }

  lemma KeptIsInPrefix(rows: seq<Backup>, n: nat, id: Id)
    requires UniqueIds(rows) && n <= |rows| && id in TableOf(rows)
    requires !exists i :: n <= i < |rows| && rows[i].id == id
    ensures id in TableOf(rows[..n]) && TableOf(rows[..n])[id] == TableOf(rows)[id]
  {
    var k :| 0 <= k < |rows| && rows[k] == TableOf(rows)[id];
    assert rows[..n][k] == rows[k];
  }

  lemma PrefixIsKept(rows: seq<Backup>, n: nat, id: Id)
    requires UniqueIds(rows) && n <= |rows| && id in TableOf(rows[..n])
    ensures id in TableOf(rows) && !exists i :: n <= i < |rows| && rows[i].id == id
  {
    var k :| 0 <= k < n && rows[..n][k] == TableOf(rows[..n])[id];
    assert rows[k] in rows;
  }

  /** With working deletions exactly the kept prefix is left in the table. */
  lemma CleanedTable(v: Vault, p: Policy, c: CleanupEnv)
    requires Intact(v) && c.readable && Lists(c.rows, Rows(v))
    requires forall id :: id in DropList(p, c.now, c.rows) ==> Completes(c.deletes(id))
    ensures Cleaned(v, p, c).0.index.table == Some(TableOf(c.rows) - (set id | id in DropList(p, c.now, c.rows)))
    ensures Cleaned(v, p, c).0.index.table == Some(TableOf(c.rows[..KeptCount(p, c.now, c.rows)]))
  {
    var ids := DropList(p, c.now, c.rows);
    DeletedAllTable(v, ids, c.deletes);
    assert Dropped(ids, c.deletes) == set id | id in ids;
    KeptTable(p, c.now, c.rows);
  }

  /** With working deletions a pass leaves exactly the newest rows inside both limits, and no file of the others. */
  lemma CleanupLeavesNewestPrefix(v: Vault, codec: Codec, p: Policy, c: CleanupEnv)
    requires Inv(v, codec) && Intact(v) && c.readable && Lists(c.rows, Rows(v))
    requires forall id :: id in DropList(p, c.now, c.rows) ==> Completes(c.deletes(id))
    ensures Cleaned(v, p, c).0.index.table == Some(TableOf(c.rows[..KeptCount(p, c.now, c.rows)]))
    ensures forall f :: f in Cleaned(v, p, c).0.files ==> f.id in TableOf(c.rows[..KeptCount(p, c.now, c.rows)])
    ensures p.maxCount > 0 ==> KeptCount(p, c.now, c.rows) <= p.maxCount
    ensures p.retentionDays <= 106_751 ==>
      forall i :: 0 <= i < |c.rows| && c.rows[i].created >= 0 ==>
        (i < KeptCount(p, c.now, c.rows) <==> Covers(p, c.now, i, c.rows[i]))
  {
    if p.retentionDays <= 106_751 {
      forall i | 0 <= i < |c.rows| && c.rows[i].created >= 0
        ensures i < KeptCount(p, c.now, c.rows) <==> Covers(p, c.now, i, c.rows[i])
      {
        KeptAreCovered(p, c.now, c.rows, i);
      }
    }
    CleanedTable(v, p, c);
    DeletedAllKeeps(v, codec, DropList(p, c.now, c.rows), c.deletes);
    if p.maxCount > 0 {
      KeptWithinCount(p, c.now, c.rows);
    }
  }

  /** A second pass at the same instant changes nothing, however it orders backups of equal age. */
  lemma SecondPassChangesNothing(v: Vault, p: Policy, c: CleanupEnv, again: CleanupEnv)
    requires Intact(v) && c.readable && Lists(c.rows, Rows(v))
    requires forall id :: id in DropList(p, c.now, c.rows) ==> Completes(c.deletes(id))
    requires again.readable && again.now == c.now
    requires Intact(Cleaned(v, p, c).0) ==> Lists(again.rows, Rows(Cleaned(v, p, c).0))
    ensures Cleaned(Cleaned(v, p, c).0, p, again).0 == Cleaned(v, p, c).0
  {
    CleanedTable(v, p, c);
    SecondPassDropsNothing(p, c.now, c.rows, again.rows);
  }

  lemma NewestIsFirst(rows: seq<Backup>, i: nat)
    requires Sorted(Newer, rows) && i < |rows|
    requires forall k :: 0 <= k < |rows| && k != i ==> rows[k].created < rows[i].created
    ensures i == 0
  {
    assert i > 0 ==> !Newer(rows[i], rows[0]);
  }

  lemma NewestIsKept(p: Policy, now: int, rows: seq<Backup>, row: Backup)
    requires UniqueIds(rows) && Sorted(Newer, rows)
    requires forall r :: r in rows && r.id != row.id ==> r.created < row.created
    requires forall r :: r in rows && r.id == row.id ==> r == row
    requires p.retentionDays > 0 ==> p.retentionDays <= 106_751 && now - row.created <= p.retentionDays * DAY
    ensures row.id !in DropList(p, now, rows)
  {
    DropListMembers(p, now, rows, row.id);
    forall i | 0 <= i < |rows| && rows[i].id == row.id
      ensures !Drops(p, now, i, rows[i])
    {
      assert rows[i] in rows;
      forall k | 0 <= k < |rows| && k != i
        ensures rows[k].created < rows[i].created
      {
        assert rows[k] in rows;
      }
      NewestIsFirst(rows, i);
      if p.retentionDays > 0 {
        CutoffIsExactly(now, p);
      }
    }
  }

  lemma CreatedRow(v: Vault, codec: Codec, p: Policy, e: CreateEnv)
    requires Created(v, codec, p, e).1.None?
    ensures Intact(v) && e.id !in Rows(v) && Stored(v, codec, e).1.None?
    ensures Intact(Stored(v, codec, e).0) && Rows(Stored(v, codec, e).0) == Rows(v)[e.id := Finished(codec, e)]
  {
  }

  /** Its own retention pass deletes with a torn rewrite. */
  ghost predicate PassTears(p: Policy, c: CleanupEnv) {
    c.readable && exists id :: id in DropList(p, c.now, c.rows) && Tears(c.deletes(id))
  }

  /** A backup newer than every other survives the pass its own Create runs exactly when no deletion of that pass tears the index. */
  lemma NewBackupSurvives(v: Vault, codec: Codec, p: Policy, e: CreateEnv)
    requires Inv(v, codec) && Enabled(v, codec, CreateBackup(e)) && Created(v, codec, p, e).1.None?
    requires Intact(v) ==> forall id :: id in Rows(v) ==> Rows(v)[id].created < e.now
    requires p.retentionDays > 0 ==> p.retentionDays <= 106_751 && e.cleanup.now - e.now <= p.retentionDays * DAY
    ensures
      var after := Created(v, codec, p, e).0;
      (Intact(after) && e.id in Rows(after) && Rows(after)[e.id] == Finished(codec, e)) <==> !PassTears(p, e.cleanup)
  {
    var after, rows := Stored(v, codec, e).0, e.cleanup.rows;
    CreatedRow(v, codec, p, e);
    if e.cleanup.readable {
      forall r | r in rows && r.id != e.id
        ensures r.created < e.now
      {
        assert Rows(after)[r.id] == r;
      }
      NewestIsKept(p, e.cleanup.now, rows, Finished(codec, e));
      DeletedAllTable(after, DropList(p, e.cleanup.now, rows), e.cleanup.deletes);
      DropsAreRows(p, e.cleanup.now, rows);
    }
  }

  lemma DropsAreRows(p: Policy, now: int, rows: seq<Backup>)
    requires UniqueIds(rows)
    ensures forall id :: id in DropList(p, now, rows) ==> id in TableOf(rows)
  {
    forall id | id in DropList(p, now, rows)
      ensures id in TableOf(rows)
    {
      DropListMembers(p, now, rows, id);
      var i :| 0 <= i < |rows| && rows[i].id == id;
      assert rows[i] in rows;
    }
  }

  // ---- restorable backups ----

  /** The index decodes and every ok row still has its dump and its checksum file. */
  ghost predicate Restorable(v: Vault) {
    && Intact(v)
    && forall id :: id in Rows(v) && Rows(v)[id].status == Complete ==> Dump(id) in v.files && Sidecar(id) in v.files
  }

  /** A deletion that stops after taking the dump of an ok row away, or tears the index. */
  predicate BreaksOff(v: Vault, id: Id, d: DeleteEnv)
    requires v.index.table.Some?
  {
    && d.readable && id in v.index.table.value
    && ((v.index.table.value[id].status == Complete && d.dumpRemoved && !Completes(d)) || Tears(d))
  }

  /** Delete keeps every ok row restorable exactly when it does not break off. */
  lemma DeleteKeepsWholeExactly(v: Vault, codec: Codec, id: Id, d: DeleteEnv)
    requires Inv(v, codec) && Restorable(v)
    ensures Restorable(Deleted(v, id, d).0) <==> !BreaksOff(v, id, d)
  {
    var after := Deleted(v, id, d).0;
    if BreaksOff(v, id, d) && !Tears(d) {
      assert id in Rows(after) && Rows(after)[id] == Rows(v)[id] && Dump(id) !in after.files;
    }
  }

  /** An ok backup whose checksum file cannot be removed: the row stays, the dump is gone. */
  lemma BrokenOffDelete(v: Vault, codec: Codec, id: Id)
    requires Inv(v, codec) && Intact(v) && id in Rows(v) && Rows(v)[id].status == Complete
    ensures
      var after := Deleted(v, id, DeleteEnv(true, true, false, Io(true, Written))).0;
      && Intact(after) && id in Rows(after) && Rows(after)[id].status == Complete && Dump(id) !in after.files
  {
  }

  /** A deletion that reaches its first removal also finishes, and no rewrite of the index is torn. */
  predicate Clean(d: DeleteEnv) {
    d.readable && d.dumpRemoved ==> Completes(d)
  }

  ghost predicate CleanAction(a: Action) {
    match a
    case CreateBackup(e) =>
      && e.insert.write != Torn && e.update.write != Torn && e.retry.write != Torn
      && forall id :: Clean(e.cleanup.deletes(id))
    case DeleteBackup(_, d) => Clean(d)
    case CleanUp(c) => forall id :: Clean(c.deletes(id))
  }

  lemma {:induction false} DeletedAllKeepsWhole(v: Vault, codec: Codec, ids: seq<Id>, deletes: Id -> DeleteEnv)
    requires Inv(v, codec) && Restorable(v) && forall id :: Clean(deletes(id))
    ensures Restorable(DeletedAll(v, ids, deletes))
  {
    if ids != [] {
      var front, last := ids[..|ids| - 1], ids[|ids| - 1];
      DeletedAllKeepsWhole(v, codec, front, deletes);
      DeletedAllKeeps(v, codec, front, deletes);
      DeleteKeepsWholeExactly(DeletedAll(v, front, deletes), codec, last, deletes(last));
    }
  }

  lemma UntornCreate(v: Vault, codec: Codec, e: CreateEnv)
    requires Intact(v) && e.insert.write != Torn && e.update.write != Torn && e.retry.write != Torn
    ensures Intact(Stored(v, codec, e).0)
  {
  }

  lemma StoredKeepsWhole(v: Vault, codec: Codec, e: CreateEnv)
    requires Inv(v, codec) && Restorable(v) && Plausible(codec, e.dump)
    requires e.insert.write != Torn && e.update.write != Torn && e.retry.write != Torn
    ensures Restorable(Stored(v, codec, e).0)
  {
    UntornCreate(v, codec, e);
    StoredFrame(v, codec, e);
    if e.id !in Rows(v) {
      OkRowExactly(v, codec, e);
      if StaysOk(v.index, e) {
        OkRowDescribesBytes(v, codec, e);
      }
    }
  }

  lemma {:induction false} RestorableAfter(v: Vault, codec: Codec, p: Policy, run: seq<Action>)
    requires Inv(v, codec) && Restorable(v) && IsRun(v, codec, p, run)
    requires forall i :: 0 <= i < |run| ==> CleanAction(run[i])
    ensures Restorable(After(v, codec, p, run))
  {
    if run != [] {
      var prefix := run[..|run| - 1];
      RestorableAfter(v, codec, p, prefix);
      InvAfter(v, codec, p, prefix);
      var w, a := After(v, codec, p, prefix), run[|run| - 1];
      assert CleanAction(a);
      match a
      case CreateBackup(e) =>
        StoredKeepsWhole(w, codec, e);
        StoredKeeps(w, codec, e);
        DeletedAllKeepsWhole(Stored(w, codec, e).0, codec, DropList(p, e.cleanup.now, e.cleanup.rows), e.cleanup.deletes);
      case DeleteBackup(id, d) =>
        DeleteKeepsWholeExactly(w, codec, id, d);
      case CleanUp(c) =>
        DeletedAllKeepsWhole(w, codec, DropList(p, c.now, c.rows), c.deletes);
    }
  }

  // ---- where an ok row comes from ----

  /** The row is what this Create left, all its checks having passed, and the dump, if still there, what it wrote. */
  ghost predicate EarnedBy(codec: Codec, a: Action, row: Backup, files: Files) {
    && a.CreateBackup? && a.e.id == row.id && ChecksPass(a.e) && row == Finished(codec, a.e)
    && (Dump(row.id) in files ==>
          && files[Dump(row.id)] == a.e.dump.landed
          && (a.e.dump.handleClosed ==> files[Dump(row.id)] == codec.gzip(a.e.dump.payload)))
  }

  ghost predicate Earned(codec: Codec, run: seq<Action>, row: Backup, files: Files) {
    exists i :: 0 <= i < |run| && EarnedBy(codec, run[i], row, files)
  }

  ghost predicate AllEarned(v: Vault, codec: Codec, run: seq<Action>) {
    Intact(v) ==> forall id :: id in Rows(v) && Rows(v)[id].status == Complete ==> Earned(codec, run, Rows(v)[id], v.files)
  }

  /** Rows and files may go, but none changes. */
  ghost predicate Shrinks(v: Vault, w: Vault) {
    && (Intact(w) ==> Intact(v) && forall id :: id in Rows(w) ==> id in Rows(v) && Rows(w)[id] == Rows(v)[id])
    && forall f :: f in w.files ==> f in v.files && w.files[f] == v.files[f]
  }

  lemma {:induction false} DeletedAllShrinks(v: Vault, ids: seq<Id>, deletes: Id -> DeleteEnv)
    ensures Shrinks(v, DeletedAll(v, ids, deletes))
  {
    if ids != [] {
      DeletedAllShrinks(v, ids[..|ids| - 1], deletes);
    }
  }

  lemma EarnedStays(codec: Codec, run: seq<Action>, more: seq<Action>, row: Backup, files: Files, fewer: Files)
    requires Earned(codec, run, row, files)
    requires Dump(row.id) in fewer ==> Dump(row.id) in files && fewer[Dump(row.id)] == files[Dump(row.id)]
    ensures Earned(codec, run + more, row, fewer)
  {
    var i :| 0 <= i < |run| && EarnedBy(codec, run[i], row, files);
    assert (run + more)[i] == run[i];
  }

  lemma ShrinkingKeepsEarned(v: Vault, w: Vault, codec: Codec, run: seq<Action>, more: seq<Action>)
    requires AllEarned(v, codec, run) && Shrinks(v, w)
    ensures AllEarned(w, codec, run + more)
  {
    if Intact(w) {
      forall id | id in Rows(w) && Rows(w)[id].status == Complete
        ensures Earned(codec, run + more, Rows(w)[id], w.files)
      {
        EarnedStays(codec, run, more, Rows(v)[id], v.files, w.files);
      }
    }
  }

  lemma StoredRowIsEarned(v: Vault, codec: Codec, run: seq<Action>, e: CreateEnv)
    requires Inv(v, codec) && AllEarned(v, codec, run) && Plausible(codec, e.dump)
    ensures AllEarned(Stored(v, codec, e).0, codec, run + [CreateBackup(e)])
  {
    var w := Stored(v, codec, e).0;
    StoredFrame(v, codec, e);
    if Intact(w) {
      forall id | id in Rows(w) && Rows(w)[id].status == Complete
        ensures Earned(codec, run + [CreateBackup(e)], Rows(w)[id], w.files)
      {
        if id == e.id && id !in Rows(v) {
          OkRowExactly(v, codec, e);
          OkRowDescribesBytes(v, codec, e);
          assert EarnedBy(codec, (run + [CreateBackup(e)])[|run|], Rows(w)[id], w.files);
        } else {
          EarnedStays(codec, run, [CreateBackup(e)], Rows(v)[id], v.files, w.files);
        }
      }
    }
  }

  lemma StepIsEarned(v: Vault, codec: Codec, p: Policy, run: seq<Action>, a: Action)
    requires Inv(v, codec) && AllEarned(v, codec, run) && Enabled(v, codec, a)
    ensures AllEarned(Step(v, codec, p, a), codec, run + [a])
  {
    match a
    case CreateBackup(e) =>
      StoredRowIsEarned(v, codec, run, e);
      DeletedAllShrinks(Stored(v, codec, e).0, DropList(p, e.cleanup.now, e.cleanup.rows), e.cleanup.deletes);
      assert run + [a] + [] == run + [a];
      ShrinkingKeepsEarned(Stored(v, codec, e).0, Step(v, codec, p, a), codec, run + [a], []);
    case DeleteBackup(id, d) =>
      ShrinkingKeepsEarned(v, Step(v, codec, p, a), codec, run, [a]);
    case CleanUp(c) =>
      DeletedAllShrinks(v, DropList(p, c.now, c.rows), c.deletes);
      ShrinkingKeepsEarned(v, Step(v, codec, p, a), codec, run, [a]);
  }

  const NO_BACKUPS: Vault := Vault(Index(Some(map[]), []), map[])

  /**
   In any run with any failures, every ok row is the work of one earlier Create whose dump, copy, source
   close, gzip close, stat, hash and checksum file all succeeded; its dump is what that Create wrote, and
   the whole compressed dump if the file handle closed.
   */
  lemma {:induction false} OkRowsAreEarned(codec: Codec, p: Policy, run: seq<Action>)
    requires IsRun(NO_BACKUPS, codec, p, run)
    ensures AllEarned(After(NO_BACKUPS, codec, p, run), codec, run)
  {
    if run != [] {
      var prefix, last := run[..|run| - 1], run[|run| - 1];
      OkRowsAreEarned(codec, p, prefix);
      InvAfter(NO_BACKUPS, codec, p, prefix);
      assert run == prefix + [last];
      StepIsEarned(After(NO_BACKUPS, codec, p, prefix), codec, p, prefix, last);
    }
  }

  /**
   In any run whose deletions finish what they start and whose index rewrites are not torn, every ok row
   has a dump and a checksum file that match it, both made by one earlier Create that passed its checks.
   */
  lemma OkBackupsStayRestorable(codec: Codec, p: Policy, run: seq<Action>)
    requires IsRun(NO_BACKUPS, codec, p, run)
    requires forall i :: 0 <= i < |run| ==> CleanAction(run[i])
    ensures var after := After(NO_BACKUPS, codec, p, run);
      && Intact(after)
      && forall id :: id in Rows(after) && Rows(after)[id].status == Complete ==>
        && Dump(id) in after.files && Sidecar(id) in after.files
        && Rows(after)[id].checksum == codec.sha(after.files[Dump(id)])
        && after.files[Sidecar(id)] == codec.line(codec.sha(after.files[Dump(id)]), id)
        && Earned(codec, run, Rows(after)[id], after.files)
  {
    RestorableAfter(NO_BACKUPS, codec, p, run);
    InvAfter(NO_BACKUPS, codec, p, run);
    OkRowsAreEarned(codec, p, run);
    var after := After(NO_BACKUPS, codec, p, run);
    forall id | id in Rows(after) && Rows(after)[id].status == Complete
      ensures Describes(Rows(after)[id], after.files, codec) && Rows(after)[id].id == id
    {
    }
  }

  /**
   A failed Create whose removals work leaves a dump exactly when only its last index update failed.
   When its own failed row can be stored, that row says so.
   */
  lemma FailedCreateLeavesNoDump(v: Vault, codec: Codec, p: Policy, e: CreateEnv)
    requires Dump(e.id) !in v.files && e.dump.removed && e.dumpRemoved
    requires Created(v, codec, p, e).1.Some?
    ensures Dump(e.id) in Created(v, codec, p, e).0.files <==> Inserts(v.index, e) && ChecksPass(e)
    ensures Inserts(v.index, e) && !ChecksPass(e) && Lands(e.update) ==>
      var after := Created(v, codec, p, e).0;
      Intact(after) && e.id in Rows(after) && Rows(after)[e.id].status == Failed
  {
  }
}
