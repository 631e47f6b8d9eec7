/** Backups as a whole: the index rows together with the dump and checksum files, over any run of the operations. */
module BackupVault {
  import opened Wrappers
  import opened BackupStore
  import opened Retention

  datatype Bytes = Bytes(data: seq<bv8>)
  datatype File = Dump(id: Id) | Sidecar(id: Id)
  type Files = map<File, Bytes>
  datatype Vault = Vault(index: Index, files: Files)

  /** gzip, SHA-256 and the one-line checksum file. */
  datatype Codec = Codec(gzip: Bytes -> Bytes, sha: Bytes -> Hash, line: (Hash, Id) -> Bytes)

  // ---- Delete and Cleanup ----

  /** Whether reading the row, removing each file and rewriting the index work; a missing file counts as removed. */
  datatype DeleteEnv = DeleteEnv(readable: bool, dumpRemoved: bool, sidecarRemoved: bool, index: Io)

  function Deleted(v: Vault, id: Id, d: DeleteEnv): (Vault, Option<Error>) {
    if !d.readable || v.index.table.None? then (v, Some(IndexUnreadable))
    else if id !in v.index.table.value then (v, None)
    else if !d.dumpRemoved then (v, Some(RemoveFailed))
    else if !d.sidecarRemoved then (v.(files := v.files - {Dump(id)}), Some(RemoveFailed))
    else
      var r := DeleteResult(v.index, id, d.index);
      (Vault(r.0, v.files - {Dump(id)} - {Sidecar(id)}), r.1)
  }

  function DeletedAll(v: Vault, ids: seq<Id>, deletes: Id -> DeleteEnv): Vault {
    if ids == [] then v
    else
      var last := ids[|ids| - 1];
      Deleted(DeletedAll(v, ids[..|ids| - 1], deletes), last, deletes(last)).0
  }

  /** rows is the newest-first list the pass reads. */
  datatype CleanupEnv = CleanupEnv(readable: bool, rows: seq<Backup>, now: int, deletes: Id -> DeleteEnv)

  function Cleaned(v: Vault, p: Policy, c: CleanupEnv): (Vault, Option<Error>) {
    if !c.readable || v.index.table.None? then (v, Some(IndexUnreadable))
    else (DeletedAll(v, DropList(p, c.now, c.rows), c.deletes), None)
  }

  // ---- Create ----

  /** landed is what the file holds once its handle is closed; nobody checks handleClosed. */
  datatype DumpEnv = DumpEnv(
    opens: bool, gzipStarts: bool, dumpStarts: bool, payload: Bytes,
    copied: bool, sourceClosed: bool, gzipClosed: bool,
    handleClosed: bool, landed: Bytes, removed: bool)

  predicate Succeeds(d: DumpEnv) {
    d.opens && d.gzipStarts && d.dumpStarts && d.copied && d.sourceClosed && d.gzipClosed
  }

  /** When every write reached the disk, the file is the compressed payload. */
  predicate Plausible(codec: Codec, d: DumpEnv) {
    Succeeds(d) && d.handleClosed ==> d.landed == codec.gzip(d.payload)
  }

  function Dumped(files: Files, id: Id, d: DumpEnv): Files {
    if !d.opens then files
    else if Succeeds(d) || !d.removed then files[Dump(id) := d.landed]
    else files - {Dump(id)}
  }

  /** sidecarLeft is what a failed write of the checksum file leaves behind. */
  datatype CreateEnv = CreateEnv(
    id: Id, now: int, trigger: Trigger, insert: Io, dump: DumpEnv,
    stats: bool, hashes: bool, sidecarWritten: bool, sidecarLeft: Option<Bytes>, dumpRemoved: bool,
    counts: Counts, update: Io, retry: Io, cleanup: CleanupEnv)

  function NewRow(e: CreateEnv): Backup {
    Backup(e.id, e.now, e.trigger, Running, None, 0, Hash(""), Counts(0, 0, 0, 0))
  }

  function Failing(x: Index, files: Files, row: Backup, error: Error, io: Io): (Vault, Option<Error>) {
    (Vault(UpdateResult(x, row.(status := Failed, error := Some(error)), io).0, files), Some(error))
  }

  function Undumped(files: Files, e: CreateEnv): Files {
    if e.dumpRemoved then files - {Dump(e.id)} else files
  }

  function LeftSidecar(files: Files, e: CreateEnv): Files {
    if e.sidecarLeft.Some? then files[Sidecar(e.id) := e.sidecarLeft.value] else files
  }

  function Finished(codec: Codec, e: CreateEnv): Backup {
    NewRow(e).(status := Complete, size := |e.dump.landed.data|, checksum := codec.sha(e.dump.landed), counts := e.counts)
  }

  /** Create up to and including the final index update. */
  function Stored(v: Vault, codec: Codec, e: CreateEnv): (Vault, Option<Error>) {
    var (x, err) := InsertResult(v.index, NewRow(e), e.insert);
    if err.Some? then (v.(index := x), err)
    else
      var files := Dumped(v.files, e.id, e.dump);
      if !Succeeds(e.dump) then Failing(x, files, NewRow(e), DumpFailed, e.update)
      else if !e.stats then Failing(x, Undumped(files, e), NewRow(e), StatFailed, e.update)
      else if !e.hashes then Failing(x, Undumped(files, e), NewRow(e), HashFailed, e.update)
      else if !e.sidecarWritten then Failing(x, Undumped(LeftSidecar(files, e), e), NewRow(e), SidecarFailed, e.update)
      else
        var full := files[Sidecar(e.id) := codec.line(codec.sha(e.dump.landed), e.id)];
        var (y, failure) := UpdateResult(x, Finished(codec, e), e.update);
        if failure.Some? then Failing(y, full, Finished(codec, e), failure.value, e.retry)
        else (Vault(y, full), None)
  }

  /** A failed retention pass does not fail the backup. */
  function Created(v: Vault, codec: Codec, p: Policy, e: CreateEnv): (Vault, Option<Error>) {
    var (after, err) := Stored(v, codec, e);
    if err.Some? then (after, err) else (Cleaned(after, p, e.cleanup).0, None)
  }

  // ---- runs ----

  datatype Action = CreateBackup(e: CreateEnv) | DeleteBackup(id: Id, d: DeleteEnv) | CleanUp(c: CleanupEnv)

  function Step(v: Vault, codec: Codec, p: Policy, a: Action): Vault {
    match a
    case CreateBackup(e) => Created(v, codec, p, e).0
    case DeleteBackup(id, d) => Deleted(v, id, d).0
    case CleanUp(c) => Cleaned(v, p, c).0
  }

  ghost predicate Enabled(v: Vault, codec: Codec, a: Action) {
    match a
    case CreateBackup(e) =>
      && Plausible(codec, e.dump)
      && (Stored(v, codec, e).1.None? && e.cleanup.readable ==>
            Stored(v, codec, e).0.index.table.Some? && Lists(e.cleanup.rows, Stored(v, codec, e).0.index.table.value))
    case DeleteBackup(id, d) => true
    case CleanUp(c) => c.readable && v.index.table.Some? ==> Lists(c.rows, v.index.table.value)
  }

  function After(v: Vault, codec: Codec, p: Policy, run: seq<Action>): Vault {
    if run == [] then v else Step(After(v, codec, p, run[..|run| - 1]), codec, p, run[|run| - 1])
  }

  ghost predicate IsRun(v: Vault, codec: Codec, p: Policy, run: seq<Action>) {
    run == [] || (
      var prefix := run[..|run| - 1];
      IsRun(v, codec, p, prefix) && Enabled(After(v, codec, p, prefix), codec, run[|run| - 1]))
  }

  // ---- what every run keeps ----

  ghost predicate Intact(v: Vault) { v.index.table.Some? }

  ghost function Rows(v: Vault): Table
    requires Intact(v)
  {
    v.index.table.value
  }

  ghost predicate KeysMatch(t: Table) {
    forall id :: id in t ==> t[id].id == id
  }

  /** What an ok row says about the files it still has. */
  ghost predicate Describes(row: Backup, files: Files, codec: Codec) {
    && (Dump(row.id) in files ==>
          row.size == |files[Dump(row.id)].data| && row.checksum == codec.sha(files[Dump(row.id)]))
    && (Sidecar(row.id) in files ==> files[Sidecar(row.id)] == codec.line(row.checksum, row.id))
  }

  /** A file that exists belongs to a row, and every ok row is true of the files it has. */
  ghost predicate Sound(t: Table, files: Files, codec: Codec) {
    && (forall f :: f in files ==> f.id in t)
    && KeysMatch(t)
    && forall id :: id in t && t[id].status == Complete ==> Describes(t[id], files, codec)
  }

  ghost predicate Inv(v: Vault, codec: Codec) {
    && (Intact(v) <==> Torn !in v.index.writes)
    && (Intact(v) ==> Sound(Rows(v), v.files, codec))
  }

  lemma DeletedKeeps(v: Vault, codec: Codec, id: Id, d: DeleteEnv)
    requires Inv(v, codec)
    ensures Inv(Deleted(v, id, d).0, codec)
  {
  }

  lemma {:induction false} DeletedAllKeeps(v: Vault, codec: Codec, ids: seq<Id>, deletes: Id -> DeleteEnv)
    requires Inv(v, codec)
    ensures Inv(DeletedAll(v, ids, deletes), codec)
  {
    if ids != [] {
      var front, last := ids[..|ids| - 1], ids[|ids| - 1];
      DeletedAllKeeps(v, codec, front, deletes);
      DeletedKeeps(DeletedAll(v, front, deletes), codec, last, deletes(last));
    }
  }

  /** Two tables that differ at one id at most. */
  ghost predicate SameButFor(t: Table, u: Table, id: Id) {
    && (forall k :: k != id ==> (k in t <==> k in u))
    && (forall k :: k != id && k in t ==> t[k] == u[k])
  }

  ghost predicate SameFilesButFor(a: Files, b: Files, id: Id) {
    && (forall f: File :: f.id != id ==> (f in a <==> f in b))
    && (forall f: File :: f.id != id && f in a ==> a[f] == b[f])
  }

  /** A rewrite that does not tear the index leaves every other row alone. */
  ghost predicate OthersStay(x: Index, y: Index, id: Id) {
    y.table.Some? ==> x.table.Some? && SameButFor(x.table.value, y.table.value, id)
  }

  lemma InsertFrame(x: Index, b: Backup, io: Io)
    ensures OthersStay(x, InsertResult(x, b, io).0, b.id)
  {
  }

  lemma UpdateFrame(x: Index, b: Backup, io: Io)
    ensures OthersStay(x, UpdateResult(x, b, io).0, b.id)
  {
  }

  lemma OthersStayOn(x: Index, y: Index, z: Index, id: Id)
    requires OthersStay(x, y, id) && OthersStay(y, z, id)
    ensures OthersStay(x, z, id)
  {
  }

  lemma RowsFrame(v: Vault, codec: Codec, e: CreateEnv)
    ensures OthersStay(v.index, Stored(v, codec, e).0.index, e.id)
  {
    var row, done := NewRow(e), Finished(codec, e);
    var x := InsertResult(v.index, row, e.insert).0;
    InsertFrame(v.index, row, e.insert);
    forall error
      ensures OthersStay(v.index, UpdateResult(x, row.(status := Failed, error := Some(error)), e.update).0, e.id)
    {
      UpdateFrame(x, row.(status := Failed, error := Some(error)), e.update);
      OthersStayOn(v.index, x, UpdateResult(x, row.(status := Failed, error := Some(error)), e.update).0, e.id);
    }
    var y := UpdateResult(x, done, e.update).0;
    UpdateFrame(x, done, e.update);
    OthersStayOn(v.index, x, y, e.id);
    forall error
      ensures OthersStay(v.index, UpdateResult(y, done.(status := Failed, error := Some(error)), e.retry).0, e.id)
    {
      UpdateFrame(y, done.(status := Failed, error := Some(error)), e.retry);
      OthersStayOn(v.index, y, UpdateResult(y, done.(status := Failed, error := Some(error)), e.retry).0, e.id);
    }
  }

  lemma FilesFrame(v: Vault, codec: Codec, e: CreateEnv)
    ensures SameFilesButFor(v.files, Stored(v, codec, e).0.files, e.id)
  {
  }

  /** Create leaves other files alone, and other rows too unless it tears the index. */
  lemma StoredFrame(v: Vault, codec: Codec, e: CreateEnv)
    ensures SameFilesButFor(v.files, Stored(v, codec, e).0.files, e.id)
    ensures Intact(Stored(v, codec, e).0) ==> Intact(v) && SameButFor(Rows(v), Rows(Stored(v, codec, e).0), e.id)
    ensures Intact(v) && e.id in Rows(v) ==> Stored(v, codec, e).0 == v
  {
    RowsFrame(v, codec, e);
    FilesFrame(v, codec, e);
  }

  /** Everything between the first and the last index write worked. */
  predicate ChecksPass(e: CreateEnv) {
    Succeeds(e.dump) && e.stats && e.hashes && e.sidecarWritten
  }

  /** Create gets past its insert. */
  predicate Inserts(x: Index, e: CreateEnv) {
    !Unreadable(x, e.insert) && e.id !in x.table.value && e.insert.write == Written
  }

  predicate Lands(io: Io) {
    io.readable && (io.write == Written || io.write == Unconfirmed)
  }

  /** Create succeeds exactly so. */
  predicate AllSucceeds(x: Index, e: CreateEnv) {
    Inserts(x, e) && ChecksPass(e) && e.update.readable && e.update.write == Written
  }

  /** The last update, or an unconfirmed one that nothing replaces, leaves an ok row. */
  predicate StaysOk(x: Index, e: CreateEnv) {
    && Inserts(x, e) && ChecksPass(e) && e.update.readable
    && (e.update.write == Written
        || (e.update.write == Unconfirmed && (!e.retry.readable || e.retry.write == NotStarted)))
  }

  /** A new row is ok exactly when dump, copy, both closes, stat, hash, checksum file and index update all succeeded. */
  lemma OkRowExactly(v: Vault, codec: Codec, e: CreateEnv)
    requires Intact(v) ==> e.id !in Rows(v)
    ensures var (after, err) := Stored(v, codec, e);
      && (err.None? <==> AllSucceeds(v.index, e))
      && ((Intact(after) && e.id in Rows(after) && Rows(after)[e.id].status == Complete) <==> StaysOk(v.index, e))
  {
  }

  /** An ok row states the size and hash of the bytes on disk, and those are the compressed dump if the handle closed. */
  lemma OkRowDescribesBytes(v: Vault, codec: Codec, e: CreateEnv)
    requires StaysOk(v.index, e) && Plausible(codec, e.dump)
    ensures var after := Stored(v, codec, e).0;
      && Intact(after) && e.id in Rows(after) && Rows(after)[e.id] == Finished(codec, e)
      && Dump(e.id) in after.files && after.files[Dump(e.id)] == e.dump.landed && Sidecar(e.id) in after.files
      && Describes(Rows(after)[e.id], after.files, codec)
      && (e.dump.handleClosed ==> after.files[Dump(e.id)] == codec.gzip(e.dump.payload))
  {
  }

  /** Nobody checks the handle: a dump of which nothing reached the disk is still an ok row, of size zero. */
  lemma UncheckedCloseKeepsOkRow(v: Vault, codec: Codec, e: CreateEnv)
    requires AllSucceeds(v.index, e) && !e.dump.handleClosed && e.dump.landed == Bytes([])
    ensures Plausible(codec, e.dump) && Stored(v, codec, e).1.None?
    ensures
      var after := Stored(v, codec, e).0;
      && Intact(after) && e.id in Rows(after) && Rows(after)[e.id].status == Complete && Rows(after)[e.id].size == 0
      && Dump(e.id) in after.files && after.files[Dump(e.id)] == Bytes([])
  {
  }

  // ---- what the callers are told ----

  /** Once the running row is in: the first step of Create that fails, in order. */
  predicate FailsFirst(e: CreateEnv, error: Error) {
    match error
    case DumpFailed => !Succeeds(e.dump)
    case StatFailed => Succeeds(e.dump) && !e.stats
    case HashFailed => Succeeds(e.dump) && e.stats && !e.hashes
    case SidecarFailed => Succeeds(e.dump) && e.stats && e.hashes && !e.sidecarWritten
    case _ => false
  }

  /** Create's error before there is a row. */
  lemma RefusedInsert(v: Vault, codec: Codec, e: CreateEnv)
    requires !Inserts(v.index, e)
    ensures
      var (after, err) := Stored(v, codec, e);
      && after.files == v.files
      && (err == Some(IndexUnreadable) <==> !e.insert.readable || !Intact(v))
      && (err == Some(AlreadyExists) <==> e.insert.readable && Intact(v) && e.id in Rows(v))
      && (err == Some(IndexUnwritable) <==> e.insert.readable && Intact(v) && e.id !in Rows(v))
  {
  }

  /** Its error is that of the first step that failed, and if the row can be stored it says the same. */
  lemma FailedCreateSaysWhy(v: Vault, codec: Codec, e: CreateEnv, error: Error)
    requires Inserts(v.index, e) && FailsFirst(e, error)
    ensures
      var (after, err) := Stored(v, codec, e);
      && err == Some(error)
      && (Lands(e.update) ==>
            && Intact(after) && e.id in Rows(after)
            && Rows(after)[e.id] == Backup(e.id, e.now, e.trigger, Failed, Some(error), 0, Hash(""), Counts(0, 0, 0, 0)))
  {
  }

  /** When only the last update fails, its own error is reported, and a second update may record it. */
  lemma FailedUpdateSaysWhy(v: Vault, codec: Codec, e: CreateEnv)
    requires Inserts(v.index, e) && ChecksPass(e) && !AllSucceeds(v.index, e)
    ensures
      var (after, err) := Stored(v, codec, e);
      && err == Some(if e.update.readable then IndexUnwritable else IndexUnreadable)
      && (Lands(e.retry) && (e.update.readable ==> e.update.write != Torn) ==>
            && Intact(after) && e.id in Rows(after)
            && Rows(after)[e.id] == Backup(e.id, e.now, e.trigger, Failed, err,
                                           |e.dump.landed.data|, codec.sha(e.dump.landed), e.counts))
  {
  }

  /** A successful Create adds exactly this row, this dump and this checksum file. */
  lemma SuccessfulCreate(v: Vault, codec: Codec, e: CreateEnv)
    requires AllSucceeds(v.index, e)
    ensures
      var (after, err) := Stored(v, codec, e);
      && err == None && Intact(after)
      && Rows(after) == Rows(v)[e.id :=
           Backup(e.id, e.now, e.trigger, Complete, None, |e.dump.landed.data|, codec.sha(e.dump.landed), e.counts)]
      && after.files == v.files[Dump(e.id) := e.dump.landed][Sidecar(e.id) := codec.line(codec.sha(e.dump.landed), e.id)]
  {
  }

  ghost predicate HasFiles(files: Files, id: Id) {
    Dump(id) in files || Sidecar(id) in files
  }

  /**
   What Delete tells its caller: no error means that the backup is gone or never was; RemoveFailed means
   that a file was in the way and the row is still there; any other error means that the index could not
   be read first, or not be rewritten once the files were gone.
   */
  lemma DeleteReports(v: Vault, id: Id, d: DeleteEnv)
    ensures
      var (after, err) := Deleted(v, id, d);
      var found := d.readable && Intact(v) && id in Rows(v);
      && (err == Some(RemoveFailed) <==> found && !(d.dumpRemoved && d.sidecarRemoved))
      && (err == Some(IndexUnwritable) <==>
            found && d.dumpRemoved && d.sidecarRemoved && d.index.readable && d.index.write != Written)
      && (err == Some(IndexUnreadable) <==>
            !d.readable || !Intact(v) || (found && d.dumpRemoved && d.sidecarRemoved && !d.index.readable))
      && (err.Some? ==> err.value == RemoveFailed || err.value == IndexUnwritable || err.value == IndexUnreadable)
      && (err.None? ==> Intact(after) && id !in Rows(after) && (found ==> !HasFiles(after.files, id)))
      && (err == Some(RemoveFailed) ==> after.index == v.index && (Sidecar(id) in after.files <==> Sidecar(id) in v.files))
      && (err == Some(IndexUnwritable) ==> !HasFiles(after.files, id))
      && SameFilesButFor(v.files, after.files, id)
  {
  }

  lemma TornOrNot(v: Vault, codec: Codec, e: CreateEnv)
    requires Intact(v) <==> Torn !in v.index.writes
    ensures Intact(Stored(v, codec, e).0) <==> Torn !in Stored(v, codec, e).0.index.writes
  {
  }

  lemma NewRowFits(v: Vault, codec: Codec, e: CreateEnv)
    requires Intact(Stored(v, codec, e).0) && e.id in Rows(Stored(v, codec, e).0) && e.id !in Rows(v)
    requires Intact(v)
    ensures Rows(Stored(v, codec, e).0)[e.id].id == e.id
  {
  }

  lemma FilesOfNewRow(v: Vault, codec: Codec, e: CreateEnv)
    requires Intact(v) && Intact(Stored(v, codec, e).0) && e.id !in Rows(v)
    ensures e.id in Rows(Stored(v, codec, e).0) || Stored(v, codec, e).0.files == v.files
  {
  }

  lemma StoredKeeps(v: Vault, codec: Codec, e: CreateEnv)
    requires Inv(v, codec) && Plausible(codec, e.dump)
    ensures Inv(Stored(v, codec, e).0, codec)
  {
    var after := Stored(v, codec, e).0;
    TornOrNot(v, codec, e);
    StoredFrame(v, codec, e);
    if Intact(after) && e.id !in Rows(v) {
      FilesOfNewRow(v, codec, e);
      if e.id in Rows(after) {
        NewRowFits(v, codec, e);
      }
      OkRowExactly(v, codec, e);
      if StaysOk(v.index, e) {
        OkRowDescribesBytes(v, codec, e);
      }
      forall id | id in Rows(after) && Rows(after)[id].status == Complete
        ensures Describes(Rows(after)[id], after.files, codec)
      {
        if id != e.id {
          assert Describes(Rows(v)[id], v.files, codec);
        }
      }
    }
  }

  lemma StepKeeps(v: Vault, codec: Codec, p: Policy, a: Action)
    requires Inv(v, codec) && Enabled(v, codec, a)
    ensures Inv(Step(v, codec, p, a), codec)
  {
    match a
    case CreateBackup(e) =>
      StoredKeeps(v, codec, e);
      DeletedAllKeeps(Stored(v, codec, e).0, codec, DropList(p, e.cleanup.now, e.cleanup.rows), e.cleanup.deletes);
    case DeleteBackup(id, d) =>
      DeletedKeeps(v, codec, id, d);
    case CleanUp(c) =>
      DeletedAllKeeps(v, codec, DropList(p, c.now, c.rows), c.deletes);
  }

  /**
   After any run, with any failures: the index still decodes exactly when no rewrite of it was torn,
   and then no file is without a row and ok rows describe the files they have.
   */
  lemma {:induction false} InvAfter(v: Vault, codec: Codec, p: Policy, run: seq<Action>)
    requires Inv(v, codec) && IsRun(v, codec, p, run)
    ensures Inv(After(v, codec, p, run), codec)
  {
    if run != [] {
      InvAfter(v, codec, p, run[..|run| - 1]);
      StepKeeps(After(v, codec, p, run[..|run| - 1]), codec, p, run[|run| - 1]);
    }
  }

  // ---- the torn index ----

  /** Deleting one backup with a torn rewrite loses every row; the other backups' files stay behind. */
  lemma TornRewriteLosesEveryRow(v: Vault, x: Id, y: Id, d: DeleteEnv)
    requires Intact(v) && x in Rows(v) && x != y && Dump(y) in v.files
    requires d.readable && d.dumpRemoved && d.sidecarRemoved && d.index == Io(true, Torn)
    ensures !Intact(Deleted(v, x, d).0) && Dump(y) in Deleted(v, x, d).0.files
  {
  }

  lemma TornStepIsNone(v: Vault, codec: Codec, p: Policy, a: Action)
    requires !Intact(v)
    ensures Step(v, codec, p, a) == v
  {
  }

  /** And no operation ever changes anything again. */
  lemma {:induction false} TornIndexIsForGood(v: Vault, codec: Codec, p: Policy, run: seq<Action>)
    requires !Intact(v)
    ensures After(v, codec, p, run) == v
  {
    if run != [] {
      TornIndexIsForGood(v, codec, p, run[..|run| - 1]);
      TornStepIsNone(v, codec, p, run[|run| - 1]);
    }
  }
}
