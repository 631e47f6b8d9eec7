/** The backup service over its index store and its directory of files. */
module BackupService {
  import opened Wrappers
  import opened BackupStore
  import opened Retention
  import opened BackupVault

  class Service {
    const codec: Codec
    const policy: Policy
    const store: LocalStore
    var files: Files
    var inflight: bool

    constructor (codec: Codec, policy: Policy)
      ensures Valid() && Now() == Vault(Index(Some(map[]), []), map[]) && fresh(store) && !inflight
    {
      this.codec, this.policy := codec, policy;
      store := new LocalStore();
      files, inflight := map[], false;
    }

    ghost predicate Valid()
      reads this, store
    {
      store.Valid()
    }

    ghost function Now(): Vault
      requires Valid()
      reads this, store
    {
      Vault(store.Contents(), files)
    }

    /** Streams the dump through gzip; a failed run closes the file, then removes it. */
    method RunDumpToFile(id: Id, d: DumpEnv) returns (ok: bool)
      modifies this`files
      ensures ok == Succeeds(d)
      ensures files == Dumped(old(files), id, d)
    {
      if !d.opens {
        return false;
      }
      files := files[Dump(id) := Bytes([])];
      ok := Stream(d);
      files := files[Dump(id) := d.landed];
      if !ok && d.removed {
        files := files - {Dump(id)};
        assert files == old(files) - {Dump(id)};
      }
    }

    method Stream(d: DumpEnv) returns (ok: bool)
      ensures ok == (d.gzipStarts && d.dumpStarts && d.copied && d.sourceClosed && d.gzipClosed)
    {
      if !d.gzipStarts {
        return false;
      }
      if !d.dumpStarts {
        return false;
      }
      if !d.copied {
        return false;
      }
      if !d.sourceClosed {
        return false;
      }
      return d.gzipClosed;
    }

    /** Marks the row failed; the result of that index update is ignored. */
    method Fail(row: Backup, error: Error, io: Io)
      requires Valid()
      modifies store
      ensures Valid()
      ensures (Now(), Some(error)) == Failing(old(store.Contents()), files, row, error, io)
    {
      var _ := store.Update(io, row.(status := Failed, error := Some(error)));
    }

    method RemoveDump(e: CreateEnv)
      modifies this`files
      ensures files == Undumped(old(files), e)
    {
      if e.dumpRemoved {
        files := files - {Dump(e.id)};
      }
    }

    /** One backup at a time. The listing the retention pass reads is returned for the contract. */
    method Create(e: CreateEnv) returns (err: Option<Error>, ghost rows: seq<Backup>)
      requires Valid()
      modifies this`files, this`inflight, store
      ensures Valid() && inflight == old(inflight)
      ensures old(inflight) ==> err == Some(InProgress) && Now() == old(Now())
      ensures !old(inflight) ==>
        && (Now(), err) == Created(old(Now()), codec, policy, e.(cleanup := e.cleanup.(rows := rows)))
        && (err.None? && e.cleanup.readable ==>
              Intact(Stored(old(Now()), codec, e).0) && Lists(rows, Rows(Stored(old(Now()), codec, e).0)))
    {
      rows := [];
      if inflight {
        return Some(InProgress), rows;
      }
      inflight := true;
      err := Store(e);
      if err.None? {
        var _, listed := Cleanup(e.cleanup);
        rows := listed;
      }
      inflight := false;
    }

    /** Create up to its last index update. */
    method Store(e: CreateEnv) returns (err: Option<Error>)
      requires Valid()
      modifies this`files, store
      ensures Valid() && (Now(), err) == Stored(old(Now()), codec, e)
    {
      var row := NewRow(e);
      err := store.Insert(e.insert, row);
      if err.Some? {
        return;
      }
      var dumped := RunDumpToFile(e.id, e.dump);
      if !dumped {
        Fail(row, DumpFailed, e.update);
        return Some(DumpFailed);
      }
      if !e.stats {
        Fail(row, StatFailed, e.update);
        RemoveDump(e);
        return Some(StatFailed);
      }
      var size := |files[Dump(e.id)].data|;
      if !e.hashes {
        Fail(row, HashFailed, e.update);
        RemoveDump(e);
        return Some(HashFailed);
      }
      var hash := codec.sha(files[Dump(e.id)]);
      if !e.sidecarWritten {
        files := LeftSidecar(files, e);
        Fail(row, SidecarFailed, e.update);
        RemoveDump(e);
        return Some(SidecarFailed);
      }
      files := files[Sidecar(e.id) := codec.line(hash, e.id)];
      row := row.(size := size, checksum := hash, counts := e.counts, status := Complete);
      err := store.Update(e.update, row);
      if err.Some? {
        Fail(row, err.value, e.retry);
      }
    }

    /** A row that is already gone is not an error. */
    method Delete(id: Id, d: DeleteEnv) returns (err: Option<Error>)
      requires Valid()
      modifies this`files, store
      ensures Valid() && (Now(), err) == Deleted(old(Now()), id, d)
    {
      var row := store.Get(d.readable, id);
      if row.Err? {
        return if row.error.NotFound? then None else Some(row.error);
      }
      if !d.dumpRemoved {
        return Some(RemoveFailed);
      }
      files := files - {Dump(id)};
      if !d.sidecarRemoved {
        return Some(RemoveFailed);
      }
      files := files - {Sidecar(id)};
      err := store.Delete(d.index, id);
    }

    /** Drops what the policy no longer covers; a failed deletion is logged and passed over. */
    method Cleanup(c: CleanupEnv) returns (err: Option<Error>, ghost rows: seq<Backup>)
      requires Valid()
      modifies this`files, store
      ensures Valid() && (Now(), err) == Cleaned(old(Now()), policy, c.(rows := rows))
      ensures c.readable && Intact(old(Now())) ==> Lists(rows, Rows(old(Now())))
    {
      rows := [];
      var listed := store.List(c.readable);
      if listed.Err? {
        return Some(listed.error), rows;
      }
      rows := listed.value;
      var drop := Collect(listed.value, c.now);
      DeleteEach(drop, c.deletes);
      return None, rows;
    }

    method Collect(list: seq<Backup>, now: int) returns (drop: seq<Id>)
      ensures drop == DropList(policy, now, list)
    {
      var cutoff := Cutoff(now, policy);
      drop := [];
      for i := 0 to |list|
        invariant drop == DropList(policy, now, list[..i])
      {
        assert list[..i + 1][..i] == list[..i];
        if policy.maxCount > 0 && i >= policy.maxCount {
          drop := drop + [list[i].id];
          continue;
        }
        if cutoff != 0 && list[i].created < cutoff {
          drop := drop + [list[i].id];
          continue;
        }
      }
      assert list[..|list|] == list;
    }

    method DeleteEach(drop: seq<Id>, deletes: Id -> DeleteEnv)
      requires Valid()
      modifies this`files, store
      ensures Valid() && Now() == DeletedAll(old(Now()), drop, deletes)
    {
      for i := 0 to |drop|
        invariant Valid() && Now() == DeletedAll(old(Now()), drop[..i], deletes)
      {
        assert drop[..i + 1][..i] == drop[..i];
        var _ := Delete(drop[i], deletes(drop[i]));
      }
      assert drop[..|drop|] == drop;
    }
  }
}
