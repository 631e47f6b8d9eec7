/** Crash safety, temp-file hygiene and agreement of disk and service, for all interleavings. */
module ApplySafety {
  import opened Wrappers
  import FS = FileSystem
  import opened ApplyProtocol

  predicate HasTemp(pc: Pc) {
    pc.Write? || pc.Fsync? || pc.Close? || pc.Chmod? || pc.Rename? || pc.Cleanup?
  }

  /** The whole previous file, or the whole validated config of a call that has renamed. */
  ghost predicate Complete(s: State, previous: Option<Bytes>, c: Bytes) {
    previous == Some(c) || exists p :: p in s.writers && p in s.calls && s.calls[p].config == c
  }

  /** The inodes that the target may denote now or after a crash. */
  ghost predicate Referenced(env: Env, fs: FS.FS, i: FS.Inode) {
    || (env.target in fs.durable && fs.durable[env.target] == i)
    || exists k :: 0 <= k < |fs.journal| && fs.journal[k].Move? && fs.journal[k].inode == i
  }

  ghost predicate Sound(s: State, previous: Option<Bytes>, i: FS.Inode) {
    i in s.fs.files && s.fs.files[i].synced && Complete(s, previous, s.fs.files[i].data)
  }

  ghost predicate OnlyRenamesReachTarget(env: Env, s: State, previous: Option<Bytes>) {
    && s.fs.dir == FS.Replay(s.fs.durable, s.fs.journal)
    && (forall k :: 0 <= k < |s.fs.journal| ==>
         match s.fs.journal[k]
         case Bind(n, _) => n != env.target
         case Move(f, t, _) => f != env.target && t == env.target
         case Unbind(n) => n != env.target)
    && (forall i :: Referenced(env, s.fs, i) ==> Sound(s, previous, i))
    && (previous.Some? ==> env.target in s.fs.durable)
  }

  /** A call's temp file: not the target, not reachable as it, and complete and synced from close on. */
  ghost predicate TempOk(env: Env, fs: FS.FS, c: Call) {
    HasTemp(c.pc) ==>
      && c.pc.tmp != env.target && c.pc.tmp in fs.dir && fs.dir[c.pc.tmp] == c.pc.inode
      && c.pc.inode in fs.files && !Referenced(env, fs, c.pc.inode)
      && (c.pc.Fsync? ==> fs.files[c.pc.inode].data == c.config)
      && (c.pc.Close? || c.pc.Chmod? || c.pc.Rename? ==> fs.files[c.pc.inode] == FS.File(c.config, true))
  }

  ghost predicate Disjoint(c: Pc, d: Pc) {
    HasTemp(c) && HasTemp(d) ==> c.tmp != d.tmp && c.inode != d.inode
  }

  ghost predicate TempsArePrivate(env: Env, s: State) {
    && (forall p :: p in s.calls ==> TempOk(env, s.fs, s.calls[p]))
    && (forall p, q :: p in s.calls && q in s.calls && p != q ==> Disjoint(s.calls[p].pc, s.calls[q].pc))
  }

  predicate HasRenamed(pc: Pc) {
    pc.FsyncDir? || ReloadStarted(pc)
  }

  /** A call is a writer exactly when it got past its rename, and then its config was valid. */
  ghost predicate RecordOk(env: Env, c: Call, writer: bool, acked: bool) {
    && (writer <==> HasRenamed(c.pc))
    && (!c.pc.Done? || writer ==> Validate(env, c.config).None?)
    && (acked <==> c.pc.Done? && c.pc.result.Ok?)
  }

  ghost predicate WritersHaveRenamed(env: Env, s: State) {
    && (forall p :: p in s.calls ==> RecordOk(env, s.calls[p], p in s.writers, p in s.acked))
    && (forall p :: p in s.writers ==> p in s.calls)
    && s.acked <= s.calls.Keys
  }

  ghost predicate TargetIsLastWritten(env: Env, s: State, previous: Option<Bytes>) {
    FS.Visible(s.fs, env.target) ==
      if s.writers == [] then previous
      else
        var p := s.writers[|s.writers| - 1];
        if p in s.calls then Some(s.calls[p].config) else None
  }

  /** The file after the first v renames. */
  ghost function ContentAt(s: State, previous: Option<Bytes>, v: nat): Option<Bytes>
    requires v <= |s.writers|
  {
    if v == 0 then previous
    else if s.writers[v - 1] in s.calls then Some(s.calls[s.writers[v - 1]].config) else None
  }

  /** A job read the file as it was after its call's own rename or later. */
  ghost predicate JobOk(s: State, previous: Option<Bytes>, p: Pid)
    requires p in s.jobs
  {
    && p in s.calls && ReloadStarted(s.calls[p].pc)
    && s.jobs[p].version <= |s.writers| && s.jobs[p].data == ContentAt(s, previous, s.jobs[p].version)
    && forall i :: 0 <= i < |s.writers| && s.writers[i] == p ==> i < s.jobs[p].version
  }

  /** The service runs what the file held after some number of renames. */
  ghost predicate Versioned(s: State, previous: Option<Bytes>) {
    && (forall p :: p in s.jobs ==> JobOk(s, previous, p))
    && (s.version.Some? ==> s.version.value <= |s.writers| && s.running == ContentAt(s, previous, s.version.value))
  }

  ghost predicate SyncedIsDurable(s: State) {
    s.synced ==> forall k :: 0 <= k < |s.fs.journal| ==> !s.fs.journal[k].Move?
  }

  /** Every name is an original one, the target, a live temp file, or one whose removal failed. */
  ghost predicate NoStrayTemps(env: Env, s: State, original: set<FS.Name>) {
    forall n :: n in s.fs.dir ==> Accounted(env, s, original, n)
  }

  ghost predicate Inv(env: Env, s: State, previous: Option<Bytes>, original: set<FS.Name>) {
    && OnlyRenamesReachTarget(env, s, previous)
    && TempsArePrivate(env, s)
    && WritersHaveRenamed(env, s)
    && TargetIsLastWritten(env, s, previous)
    && Versioned(s, previous)
    && SyncedIsDurable(s)
    && NoStrayTemps(env, s, original)
  }

  lemma StartInv(env: Env, s: State, previous: Option<Bytes>)
    requires Start(env, s, previous)
    ensures Inv(env, s, previous, s.fs.dir.Keys)
  {
  }

  // ---- the target under any prefix of the journal ----

  lemma {:induction false} TargetInPrefix(env: Env, s: State, previous: Option<Bytes>, k: nat)
    requires OnlyRenamesReachTarget(env, s, previous) && k <= |s.fs.journal|
    ensures
      var d := FS.Replay(s.fs.durable, s.fs.journal[..k]);
      && (env.target in d ==> Referenced(env, s.fs, d[env.target]))
      && (env.target in s.fs.durable ==> env.target in d)
    decreases k
  {
    if k > 0 {
      assert s.fs.journal[..k][..k - 1] == s.fs.journal[..k - 1];
      TargetInPrefix(env, s, previous, k - 1);
    }
  }

  lemma {:induction false} TargetUnmoved(env: Env, s: State, previous: Option<Bytes>, k: nat)
    requires OnlyRenamesReachTarget(env, s, previous) && k <= |s.fs.journal|
    requires SyncedIsDurable(s) && s.synced
    ensures
      var d := FS.Replay(s.fs.durable, s.fs.journal[..k]);
      && (env.target in d <==> env.target in s.fs.durable)
      && (env.target in d ==> d[env.target] == s.fs.durable[env.target])
    decreases k
  {
    if k > 0 {
      assert s.fs.journal[..k][..k - 1] == s.fs.journal[..k - 1];
      TargetUnmoved(env, s, previous, k - 1);
    }
  }

  // ---- preservation ----

  /** Configurations and past renames are never forgotten. */
  lemma CompleteStays(env: Env, s: State, a: Action, previous: Option<Bytes>, c: Bytes)
    requires Enabled(env, s, a) && Complete(s, previous, c)
    ensures Complete(Step(env, s, a), previous, c)
  {
    if previous != Some(c) {
      var p :| p in s.writers && p in s.calls && s.calls[p].config == c;
      ConfigsStay(env, s, a);
      HistoriesGrow(env, s, a);
      assert p in Step(env, s, a).writers;
    }
  }

  /** The inode a system call may write to: its own temp file's. */
  ghost predicate OnlyOwnFileChanges(s: State, t: State, p: Pid) {
    forall i :: i in s.fs.files && !(p in s.calls && HasTemp(s.calls[p].pc) && i == s.calls[p].pc.inode) ==>
      i in t.fs.files && t.fs.files[i] == s.fs.files[i]
  }

  lemma SoundStays(env: Env, s: State, a: Action, previous: Option<Bytes>, i: FS.Inode)
    requires Enabled(env, s, a) && TempsArePrivate(env, s)
    requires Referenced(env, s.fs, i) && Sound(s, previous, i)
    ensures Sound(Step(env, s, a), previous, i)
  {
    CompleteStays(env, s, a, previous, s.fs.files[i].data);
    var t := Step(env, s, a);
    if !a.Writeback? {
      assert OnlyOwnFileChanges(s, t, a.pid);
    }
  }

  /** Writing journalled operations back makes no new inode reachable. */
  lemma FlushedReferences(env: Env, s: State, previous: Option<Bytes>, k: nat, i: FS.Inode)
    requires OnlyRenamesReachTarget(env, s, previous) && k <= |s.fs.journal|
    requires Referenced(env, FS.Flush(s.fs, k), i)
    ensures Referenced(env, s.fs, i)
  {
    var f := FS.Flush(s.fs, k);
    if env.target in f.durable && f.durable[env.target] == i {
      TargetInPrefix(env, s, previous, k);
    } else {
      var j :| 0 <= j < |f.journal| && f.journal[j].Move? && f.journal[j].inode == i;
      assert s.fs.journal[k + j] == f.journal[j];
    }
  }

  lemma FlushKeepsTarget(env: Env, s: State, t: State, previous: Option<Bytes>, k: nat)
    requires OnlyRenamesReachTarget(env, s, previous) && k <= |s.fs.journal|
    requires t.fs == FS.Flush(s.fs, k) && Carried(env, s, t, previous)
    ensures OnlyRenamesReachTarget(env, t, previous)
  {
    FS.ReplayConcat(s.fs.durable, s.fs.journal[..k], s.fs.journal[k..]);
    assert s.fs.journal[..k] + s.fs.journal[k..] == s.fs.journal;
    TargetInPrefix(env, s, previous, k);
    forall i | Referenced(env, t.fs, i)
      ensures Sound(t, previous, i)
    {
      FlushedReferences(env, s, previous, k, i);
    }
  }

  /** One more journalled operation. */
  lemma LogKeepsTarget(env: Env, s: State, t: State, previous: Option<Bytes>, op: FS.DirOp)
    requires OnlyRenamesReachTarget(env, s, previous) && Carried(env, s, t, previous)
    requires t.fs.durable == s.fs.durable && t.fs.journal == s.fs.journal + [op] && t.fs.dir == FS.Perform(s.fs.dir, op)
    requires match op
             case Bind(n, _) => n != env.target
             case Move(f, g, i) => f != env.target && g == env.target && Sound(t, previous, i)
             case Unbind(n) => n != env.target
    ensures OnlyRenamesReachTarget(env, t, previous)
  {
    FS.ReplaySnoc(s.fs.durable, s.fs.journal, op);
    assert forall j :: 0 <= j < |s.fs.journal| ==> t.fs.journal[j] == s.fs.journal[j];
    forall i | Referenced(env, t.fs, i)
      ensures Sound(t, previous, i)
    {
      if !Referenced(env, s.fs, i) {
        var k :| 0 <= k < |t.fs.journal| && t.fs.journal[k].Move? && t.fs.journal[k].inode == i;
        assert k == |s.fs.journal|;
      }
    }
  }

  /** Whole configurations stay known, and what the target may denote stays sound. */
  ghost predicate Carried(env: Env, s: State, t: State, previous: Option<Bytes>) {
    && (forall c :: Complete(s, previous, c) ==> Complete(t, previous, c))
    && (forall i :: Referenced(env, s.fs, i) ==> Sound(t, previous, i))
  }

  lemma StepCarries(env: Env, s: State, a: Action, previous: Option<Bytes>)
    requires Enabled(env, s, a) && OnlyRenamesReachTarget(env, s, previous) && TempsArePrivate(env, s)
    ensures Carried(env, s, Step(env, s, a), previous)
  {
    var t := Step(env, s, a);
    forall c | Complete(s, previous, c)
      ensures Complete(t, previous, c)
    {
      CompleteStays(env, s, a, previous, c);
    }
    forall i | Referenced(env, s.fs, i)
      ensures Sound(t, previous, i)
    {
      SoundStays(env, s, a, previous, i);
    }
  }

  lemma SameDirKeepsTarget(env: Env, s: State, t: State, previous: Option<Bytes>)
    requires OnlyRenamesReachTarget(env, s, previous) && Carried(env, s, t, previous)
    requires t.fs.durable == s.fs.durable && t.fs.journal == s.fs.journal && t.fs.dir == s.fs.dir
    ensures OnlyRenamesReachTarget(env, t, previous)
  {
    forall i | Referenced(env, t.fs, i)
      ensures Sound(t, previous, i)
    {
      SameReferences(env, s.fs, t.fs, i);
    }
  }

  lemma RenameKeepsTarget(env: Env, s: State, a: Action, previous: Option<Bytes>)
    requires Enabled(env, s, a) && OnlyRenamesReachTarget(env, s, previous) && Renames(s, a)
    requires TempOk(env, s.fs, s.calls[a.pid]) && Carried(env, s, Step(env, s, a), previous)
    ensures OnlyRenamesReachTarget(env, Step(env, s, a), previous)
  {
    var t, pc := Step(env, s, a), s.calls[a.pid].pc;
    assert a.pid in t.writers && t.calls[a.pid].config == t.fs.files[pc.inode].data;
    LogKeepsTarget(env, s, t, previous, FS.Move(pc.tmp, env.target, pc.inode));
  }

  lemma CleanupKeepsTarget(env: Env, s: State, a: Action, previous: Option<Bytes>)
    requires Enabled(env, s, a) && OnlyRenamesReachTarget(env, s, previous)
    requires a.Syscall? && a.ok && s.calls[a.pid].pc.Cleanup?
    requires TempOk(env, s.fs, s.calls[a.pid]) && Carried(env, s, Step(env, s, a), previous)
    ensures OnlyRenamesReachTarget(env, Step(env, s, a), previous)
  {
    LogKeepsTarget(env, s, Step(env, s, a), previous, FS.Unbind(s.calls[a.pid].pc.tmp));
  }

  lemma SyscallKeepsTarget(env: Env, s: State, a: Action, previous: Option<Bytes>)
    requires Enabled(env, s, a) && OnlyRenamesReachTarget(env, s, previous) && a.Syscall?
    requires TempOk(env, s.fs, s.calls[a.pid]) && Carried(env, s, Step(env, s, a), previous)
    ensures OnlyRenamesReachTarget(env, Step(env, s, a), previous)
  {
    if !LogsOrFlushes(s, a) {
      DirFrame(env, s, a);
      SameDirKeepsTarget(env, s, Step(env, s, a), previous);
    } else if Renames(s, a) {
      RenameKeepsTarget(env, s, a, previous);
    } else if s.calls[a.pid].pc.Cleanup? {
      CleanupKeepsTarget(env, s, a, previous);
    } else {
      FlushKeepsTarget(env, s, Step(env, s, a), previous, |s.fs.journal|);
    }
  }

  lemma OnlyRenamesKept(env: Env, s: State, a: Action, previous: Option<Bytes>)
    requires Enabled(env, s, a) && OnlyRenamesReachTarget(env, s, previous) && TempsArePrivate(env, s)
    ensures OnlyRenamesReachTarget(env, Step(env, s, a), previous)
  {
    var t := Step(env, s, a);
    StepCarries(env, s, a, previous);
    if Quiet(a) {
      QuietFrame(env, s, a);
      SameDirKeepsTarget(env, s, t, previous);
    } else if a.Writeback? {
      FlushKeepsTarget(env, s, t, previous, a.k);
    } else if a.Create? {
      LogKeepsTarget(env, s, t, previous, FS.Bind(a.tmp, a.inode));
    } else {
      SyscallKeepsTarget(env, s, a, previous);
    }
  }

  /** A step of one call leaves every other call's record alone. */
  ghost predicate OthersUntouched(s: State, t: State, p: Pid) {
    && s.calls.Keys <= t.calls.Keys <= s.calls.Keys + {p}
    && (forall q :: q in s.calls && q != p ==> t.calls[q] == s.calls[q])
  }

  lemma StepTouchesOneCall(env: Env, s: State, a: Action)
    requires Enabled(env, s, a) && !a.Writeback?
    ensures OthersUntouched(s, Step(env, s, a), a.pid) && a.pid in Step(env, s, a).calls
  {
  }

  /** Steps that leave the file system alone. */
  predicate Quiet(a: Action) {
    a.Begin? || a.ReadConfig? || a.Switch? || a.FinishReload?
  }

  lemma QuietFrame(env: Env, s: State, a: Action)
    requires Enabled(env, s, a) && Quiet(a)
    ensures
      var t := Step(env, s, a);
      t.fs == s.fs && t.writers == s.writers && t.leaked == s.leaked && t.synced == s.synced
      && a.pid in t.calls && !(HasTemp(t.calls[a.pid].pc) && (a.pid !in s.calls || t.calls[a.pid] != s.calls[a.pid]))
  {
  }

  /** The system calls that change the directory. */
  predicate LogsOrFlushes(s: State, a: Action) {
    && a.Syscall? && a.ok && a.pid in s.calls
    && (s.calls[a.pid].pc.FsyncDir? || s.calls[a.pid].pc.Rename? || s.calls[a.pid].pc.Cleanup?)
  }

  lemma DirFrame(env: Env, s: State, a: Action)
    requires Enabled(env, s, a) && a.Syscall? && !LogsOrFlushes(s, a)
    ensures
      var t := Step(env, s, a);
      t.fs.durable == s.fs.durable && t.fs.journal == s.fs.journal && t.fs.dir == s.fs.dir
  {
  }

  lemma LoggedReferences(env: Env, fs: FS.FS, after: FS.FS, op: FS.DirOp, i: FS.Inode)
    requires after.durable == fs.durable && after.journal == fs.journal + [op] && Referenced(env, after, i)
    ensures Referenced(env, fs, i) || (op.Move? && op.inode == i)
  {
    if !(env.target in fs.durable && fs.durable[env.target] == i) {
      var k :| 0 <= k < |after.journal| && after.journal[k].Move? && after.journal[k].inode == i;
      assert k < |fs.journal| ==> after.journal[k] == fs.journal[k];
    }
  }

  lemma SameReferences(env: Env, fs: FS.FS, after: FS.FS, i: FS.Inode)
    requires after.durable == fs.durable && after.journal == fs.journal && Referenced(env, after, i)
    ensures Referenced(env, fs, i)
  {
  }

  lemma SyscallReferences(env: Env, s: State, a: Action, previous: Option<Bytes>, i: FS.Inode)
    requires Enabled(env, s, a) && OnlyRenamesReachTarget(env, s, previous) && TempsArePrivate(env, s)
    requires a.Syscall? && Referenced(env, Step(env, s, a).fs, i)
    ensures Referenced(env, s.fs, i)
      || (a.ok && s.calls[a.pid].pc.Rename? && i == s.calls[a.pid].pc.inode)
  {
    var t, pc := Step(env, s, a), s.calls[a.pid].pc;
    if !LogsOrFlushes(s, a) {
      DirFrame(env, s, a);
      SameReferences(env, s.fs, t.fs, i);
    } else if pc.FsyncDir? {
      FlushedReferences(env, s, previous, |s.fs.journal|, i);
    } else {
      assert TempOk(env, s.fs, s.calls[a.pid]);
      LoggedReferences(env, s.fs, t.fs,
        if pc.Rename? then FS.Move(pc.tmp, env.target, pc.inode) else FS.Unbind(pc.tmp), i);
    }
  }

  /** Nothing becomes reachable as the target except by the caller's own rename. */
  lemma ReferencesGrowByRename(env: Env, s: State, a: Action, previous: Option<Bytes>, i: FS.Inode)
    requires Enabled(env, s, a) && OnlyRenamesReachTarget(env, s, previous) && TempsArePrivate(env, s)
    requires Referenced(env, Step(env, s, a).fs, i)
    ensures Referenced(env, s.fs, i)
      || (a.Syscall? && a.ok && s.calls[a.pid].pc.Rename? && i == s.calls[a.pid].pc.inode)
  {
    if Quiet(a) {
      QuietFrame(env, s, a);
    } else if a.Writeback? {
      FlushedReferences(env, s, previous, a.k, i);
    } else if a.Create? {
      LoggedReferences(env, s.fs, Step(env, s, a).fs, FS.Bind(a.tmp, a.inode), i);
    } else {
      SyscallReferences(env, s, a, previous, i);
    }
  }

  predicate Renames(s: State, a: Action) {
    a.Syscall? && a.ok && a.pid in s.calls && s.calls[a.pid].pc.Rename?
  }

  /** A step of one call does not reach another's temp file. */
  lemma OtherFileStays(env: Env, s: State, a: Action, c: Pc)
    requires Enabled(env, s, a) && HasTemp(c) && c.tmp in s.fs.dir && c.tmp != env.target && c.inode in s.fs.files
    requires !a.Writeback? && a.pid in s.calls ==> Disjoint(s.calls[a.pid].pc, c)
    ensures
      var t := Step(env, s, a);
      c.tmp in t.fs.dir && t.fs.dir[c.tmp] == s.fs.dir[c.tmp] && c.inode in t.fs.files && t.fs.files[c.inode] == s.fs.files[c.inode]
  {
    if a.Syscall? {
      SyscallSparesOthers(env, s, a, c);
    }
  }

  lemma SyscallSparesOthers(env: Env, s: State, a: Action, c: Pc)
    requires Enabled(env, s, a) && a.Syscall? && HasTemp(c)
    requires c.tmp in s.fs.dir && c.tmp != env.target && c.inode in s.fs.files && Disjoint(s.calls[a.pid].pc, c)
    ensures
      var t := Step(env, s, a);
      c.tmp in t.fs.dir && t.fs.dir[c.tmp] == s.fs.dir[c.tmp] && c.inode in t.fs.files && t.fs.files[c.inode] == s.fs.files[c.inode]
  {
  }

  lemma OtherTempStays(env: Env, s: State, a: Action, previous: Option<Bytes>, q: Pid)
    requires Enabled(env, s, a) && OnlyRenamesReachTarget(env, s, previous) && TempsArePrivate(env, s)
    requires q in s.calls && (a.Writeback? || a.pid != q)
    ensures TempOk(env, Step(env, s, a).fs, s.calls[q])
  {
    var t, c := Step(env, s, a), s.calls[q];
    if HasTemp(c.pc) {
      assert TempOk(env, s.fs, c);
      assert !a.Writeback? && a.pid in s.calls ==> Disjoint(s.calls[a.pid].pc, c.pc);
      OtherFileStays(env, s, a, c.pc);
      if Referenced(env, t.fs, c.pc.inode) {
        ReferencesGrowByRename(env, s, a, previous, c.pc.inode);
      }
    }
  }

  /** What a call's own system call does to its temp file, reachability apart. */
  lemma OwnTempFilled(env: Env, s: State, a: Action)
    requires Enabled(env, s, a) && a.Syscall? && TempOk(env, s.fs, s.calls[a.pid])
    ensures
      var t := Step(env, s, a);
      a.pid in t.calls && (HasTemp(t.calls[a.pid].pc) ==>
        && HasTemp(s.calls[a.pid].pc) && t.calls[a.pid].pc.inode == s.calls[a.pid].pc.inode
        && !(a.ok && s.calls[a.pid].pc.Rename?)
        && (!Referenced(env, t.fs, t.calls[a.pid].pc.inode) ==> TempOk(env, t.fs, t.calls[a.pid])))
  {
  }

  lemma NewTempIsUnreferenced(env: Env, s: State, a: Action, previous: Option<Bytes>)
    requires Enabled(env, s, a) && OnlyRenamesReachTarget(env, s, previous) && a.Create?
    ensures !Referenced(env, Step(env, s, a).fs, a.inode)
  {
    if Referenced(env, Step(env, s, a).fs, a.inode) {
      LoggedReferences(env, s.fs, Step(env, s, a).fs, FS.Bind(a.tmp, a.inode), a.inode);
    }
  }

  lemma OwnTempStays(env: Env, s: State, a: Action, previous: Option<Bytes>)
    requires Enabled(env, s, a) && OnlyRenamesReachTarget(env, s, previous) && TempsArePrivate(env, s) && !a.Writeback?
    ensures a.pid in Step(env, s, a).calls && TempOk(env, Step(env, s, a).fs, Step(env, s, a).calls[a.pid])
  {
    var t := Step(env, s, a);
    if Quiet(a) {
      QuietFrame(env, s, a);
    } else if a.Create? {
      NewTempIsUnreferenced(env, s, a, previous);
    } else {
      OwnTempFilled(env, s, a);
      var pc := t.calls[a.pid].pc;
      if HasTemp(pc) && Referenced(env, t.fs, pc.inode) {
        SyscallReferences(env, s, a, previous, pc.inode);
      }
    }
  }

  lemma OwnTempNamesKept(env: Env, s: State, a: Action)
    requires Enabled(env, s, a) && !a.Writeback? && !a.Create? && a.pid in s.calls
    ensures a.pid in Step(env, s, a).calls
    ensures
      var c, d := s.calls[a.pid].pc, Step(env, s, a).calls[a.pid].pc;
      HasTemp(d) ==> HasTemp(c) && d.tmp == c.tmp && d.inode == c.inode
  {
    if Quiet(a) {
      QuietFrame(env, s, a);
    } else {
      SyscallNamesKept(env, s, a);
    }
  }

  lemma SyscallNamesKept(env: Env, s: State, a: Action)
    requires Enabled(env, s, a) && a.Syscall?
    ensures a.pid in Step(env, s, a).calls
    ensures
      var c, d := s.calls[a.pid].pc, Step(env, s, a).calls[a.pid].pc;
      HasTemp(d) ==> HasTemp(c) && d.tmp == c.tmp && d.inode == c.inode
  {
  }

  lemma StepKeepsDisjoint(env: Env, s: State, a: Action, q: Pid)
    requires Enabled(env, s, a) && TempsArePrivate(env, s) && !a.Writeback? && q in s.calls && q != a.pid
    ensures a.pid in Step(env, s, a).calls && Disjoint(Step(env, s, a).calls[a.pid].pc, s.calls[q].pc)
  {
    assert TempOk(env, s.fs, s.calls[q]);
    if a.Create? {
      assert HasTemp(s.calls[q].pc) ==> s.calls[q].pc.tmp != a.tmp && s.calls[q].pc.inode != a.inode;
    } else if a.pid in s.calls {
      assert Disjoint(s.calls[a.pid].pc, s.calls[q].pc);
      OwnTempNamesKept(env, s, a);
    }
  }

  lemma PrivateFromParts(env: Env, s: State, t: State, p: Pid)
    requires TempsArePrivate(env, s) && OthersUntouched(s, t, p)
    requires p in t.calls && TempOk(env, t.fs, t.calls[p])
    requires forall q :: q in s.calls && q != p ==>
      TempOk(env, t.fs, s.calls[q]) && Disjoint(t.calls[p].pc, s.calls[q].pc)
    ensures TempsArePrivate(env, t)
  {
    forall q, r | q in t.calls && r in t.calls && q != r
      ensures Disjoint(t.calls[q].pc, t.calls[r].pc)
    {
      if q == p {
        assert Disjoint(t.calls[p].pc, s.calls[r].pc);
      } else if r == p {
        assert Disjoint(t.calls[p].pc, s.calls[q].pc);
      } else {
        assert Disjoint(s.calls[q].pc, s.calls[r].pc);
      }
    }
  }

  lemma TempsArePrivateKept(env: Env, s: State, a: Action, previous: Option<Bytes>)
    requires Enabled(env, s, a) && OnlyRenamesReachTarget(env, s, previous) && TempsArePrivate(env, s)
    ensures TempsArePrivate(env, Step(env, s, a))
  {
    var t := Step(env, s, a);
    forall q | q in s.calls && (a.Writeback? || a.pid != q)
      ensures TempOk(env, t.fs, s.calls[q])
    {
      OtherTempStays(env, s, a, previous, q);
    }
    if a.Writeback? {
      assert t.calls == s.calls;
    } else {
      forall q | q in s.calls && q != a.pid
        ensures a.pid in t.calls && Disjoint(t.calls[a.pid].pc, s.calls[q].pc)
      {
        StepKeepsDisjoint(env, s, a, q);
      }
      StepTouchesOneCall(env, s, a);
      OwnTempStays(env, s, a, previous);
      PrivateFromParts(env, s, t, a.pid);
    }
  }

  lemma HistoriesGrow(env: Env, s: State, a: Action)
    requires Enabled(env, s, a)
    ensures Step(env, s, a).writers == if Renames(s, a) then s.writers + [a.pid] else s.writers
    ensures Step(env, s, a).acked == if a.FinishReload? && a.ok then s.acked + {a.pid} else s.acked
  {
  }

  lemma SyscallRecord(env: Env, s: State, a: Action)
    requires Enabled(env, s, a) && a.Syscall? && RecordOk(env, s.calls[a.pid], a.pid in s.writers, a.pid in s.acked)
    ensures
      var t := Step(env, s, a);
      a.pid in t.calls && RecordOk(env, t.calls[a.pid], a.pid in s.writers || Renames(s, a), a.pid in s.acked)
  {
    if !a.ok {
      FailedSyscallRecord(env, s, a);
    }
  }

  lemma FailedSyscallRecord(env: Env, s: State, a: Action)
    requires Enabled(env, s, a) && a.Syscall? && !a.ok && RecordOk(env, s.calls[a.pid], a.pid in s.writers, a.pid in s.acked)
    ensures a.pid in Step(env, s, a).calls
    ensures RecordOk(env, Step(env, s, a).calls[a.pid], a.pid in s.writers, a.pid in s.acked)
  {
  }

  lemma QuietRecord(env: Env, s: State, a: Action)
    requires Enabled(env, s, a) && (Quiet(a) || a.Create?) && !a.Begin?
    requires a.pid in s.calls && RecordOk(env, s.calls[a.pid], a.pid in s.writers, a.pid in s.acked)
    ensures
      var t := Step(env, s, a);
      a.pid in t.calls && RecordOk(env, t.calls[a.pid], a.pid in s.writers, a.pid in t.acked)
  {
  }

  lemma OwnRecordStays(env: Env, s: State, a: Action)
    requires Enabled(env, s, a) && WritersHaveRenamed(env, s) && !a.Writeback?
    ensures
      var t := Step(env, s, a);
      a.pid in t.calls && RecordOk(env, t.calls[a.pid], a.pid in t.writers, a.pid in t.acked)
  {
    HistoriesGrow(env, s, a);
    if a.Begin? {
      assert a.pid !in s.writers && a.pid !in s.acked;
    } else if a.Syscall? {
      SyscallRecord(env, s, a);
    } else {
      QuietRecord(env, s, a);
    }
  }

  lemma WritersHaveRenamedKept(env: Env, s: State, a: Action)
    requires Enabled(env, s, a) && WritersHaveRenamed(env, s)
    ensures WritersHaveRenamed(env, Step(env, s, a))
  {
    var t := Step(env, s, a);
    HistoriesGrow(env, s, a);
    if a.Writeback? {
      assert t.calls == s.calls;
    } else {
      StepTouchesOneCall(env, s, a);
      OwnRecordStays(env, s, a);
      forall q | q in t.calls
        ensures RecordOk(env, t.calls[q], q in t.writers, q in t.acked)
      {
        if q != a.pid {
          assert RecordOk(env, s.calls[q], q in s.writers, q in s.acked);
        }
      }
    }
  }

  lemma TargetIsReferenced(env: Env, s: State, previous: Option<Bytes>)
    requires OnlyRenamesReachTarget(env, s, previous)
    ensures env.target in s.fs.dir ==> Referenced(env, s.fs, s.fs.dir[env.target])
  {
    assert s.fs.journal[..|s.fs.journal|] == s.fs.journal;
    TargetInPrefix(env, s, previous, |s.fs.journal|);
  }

  /** What processes read under the target changes only by a rename, and then to the whole config. */
  lemma VisibleStays(env: Env, s: State, a: Action, previous: Option<Bytes>)
    requires Enabled(env, s, a) && OnlyRenamesReachTarget(env, s, previous) && TempsArePrivate(env, s)
    ensures FS.Visible(Step(env, s, a).fs, env.target)
      == if Renames(s, a) then Some(s.calls[a.pid].config) else FS.Visible(s.fs, env.target)
  {
    TargetIsReferenced(env, s, previous);
    if !a.Writeback? && a.pid in s.calls {
      assert TempOk(env, s.fs, s.calls[a.pid]);
    }
    if env.target in s.fs.dir {
      assert Sound(s, previous, s.fs.dir[env.target]);
    }
  }

  lemma ConfigsStay(env: Env, s: State, a: Action)
    requires Enabled(env, s, a)
    ensures forall p :: p in s.calls ==> p in Step(env, s, a).calls && Step(env, s, a).calls[p].config == s.calls[p].config
  {
    if !a.Writeback? {
      StepTouchesOneCall(env, s, a);
      if a.pid in s.calls {
        OwnConfigStays(env, s, a);
      }
    }
  }

  lemma OwnConfigStays(env: Env, s: State, a: Action)
    requires Enabled(env, s, a) && !a.Writeback? && a.pid in s.calls
    ensures a.pid in Step(env, s, a).calls && Step(env, s, a).calls[a.pid].config == s.calls[a.pid].config
  {
    if a.Syscall? {
      SyscallConfigStays(env, s, a);
    }
  }

  lemma SyscallConfigStays(env: Env, s: State, a: Action)
    requires Enabled(env, s, a) && a.Syscall?
    ensures a.pid in Step(env, s, a).calls && Step(env, s, a).calls[a.pid].config == s.calls[a.pid].config
  {
  }

  lemma LastWrittenFromParts(env: Env, s: State, t: State, previous: Option<Bytes>, renamed: seq<Pid>)
    requires TargetIsLastWritten(env, s, previous) && (forall p :: p in s.writers ==> p in s.calls)
    requires forall p :: p in s.calls ==> p in t.calls && t.calls[p].config == s.calls[p].config
    requires |renamed| <= 1 && t.writers == s.writers + renamed
    requires renamed == [] ==> FS.Visible(t.fs, env.target) == FS.Visible(s.fs, env.target)
    requires renamed != [] ==> renamed[0] in t.calls && FS.Visible(t.fs, env.target) == Some(t.calls[renamed[0]].config)
    ensures TargetIsLastWritten(env, t, previous)
  {
  }

  lemma TargetIsLastWrittenKept(env: Env, s: State, a: Action, previous: Option<Bytes>)
    requires Enabled(env, s, a) && TempsArePrivate(env, s) && WritersHaveRenamed(env, s)
    requires OnlyRenamesReachTarget(env, s, previous) && TargetIsLastWritten(env, s, previous)
    ensures TargetIsLastWritten(env, Step(env, s, a), previous)
  {
    VisibleStays(env, s, a, previous);
    HistoriesGrow(env, s, a);
    ConfigsStay(env, s, a);
    LastWrittenFromParts(env, s, Step(env, s, a), previous, if Renames(s, a) then [a.pid] else []);
  }

  lemma ContentStays(env: Env, s: State, a: Action, previous: Option<Bytes>, v: nat)
    requires Enabled(env, s, a) && v <= |s.writers| && (forall p :: p in s.writers ==> p in s.calls)
    ensures |s.writers| <= |Step(env, s, a).writers|
    ensures ContentAt(Step(env, s, a), previous, v) == ContentAt(s, previous, v)
  {
    HistoriesGrow(env, s, a);
    ConfigsStay(env, s, a);
  }

  /** Reload jobs and what runs change by the service's own two steps only. */
  lemma JobsFrame(env: Env, s: State, a: Action)
    requires Enabled(env, s, a)
    ensures !a.ReadConfig? && !a.Switch? ==> Step(env, s, a).jobs == s.jobs
    ensures !a.Switch? ==> Step(env, s, a).running == s.running && Step(env, s, a).version == s.version
  {
  }

  lemma StartedStays(env: Env, s: State, a: Action, p: Pid)
    requires Enabled(env, s, a) && p in s.calls && ReloadStarted(s.calls[p].pc)
    ensures p in Step(env, s, a).calls && ReloadStarted(Step(env, s, a).calls[p].pc) && !(Renames(s, a) && a.pid == p)
  {
    if !a.Writeback? {
      StepTouchesOneCall(env, s, a);
    }
  }

  lemma JobStays(env: Env, s: State, a: Action, previous: Option<Bytes>, p: Pid)
    requires Enabled(env, s, a) && (forall q :: q in s.writers ==> q in s.calls)
    requires p in s.jobs && JobOk(s, previous, p) && p in Step(env, s, a).jobs
    requires Step(env, s, a).jobs[p].(switched := s.jobs[p].switched) == s.jobs[p]
    ensures JobOk(Step(env, s, a), previous, p)
  {
    StartedStays(env, s, a, p);
    ContentStays(env, s, a, previous, s.jobs[p].version);
    HistoriesGrow(env, s, a);
  }

  lemma VersionedKept(env: Env, s: State, a: Action, previous: Option<Bytes>)
    requires Enabled(env, s, a) && WritersHaveRenamed(env, s) && TargetIsLastWritten(env, s, previous)
    requires Versioned(s, previous)
    ensures Versioned(Step(env, s, a), previous)
  {
    var t := Step(env, s, a);
    JobsFrame(env, s, a);
    forall p | p in t.jobs
      ensures JobOk(t, previous, p)
    {
      if p in s.jobs {
        JobStays(env, s, a, previous, p);
      }
    }
    if s.version.Some? {
      ContentStays(env, s, a, previous, s.version.value);
    }
    if a.Switch? {
      assert JobOk(s, previous, a.pid);
      ContentStays(env, s, a, previous, s.jobs[a.pid].version);
    }
  }

  lemma SyncedIsDurableKept(env: Env, s: State, a: Action)
    requires Enabled(env, s, a) && SyncedIsDurable(s)
    ensures SyncedIsDurable(Step(env, s, a))
  {
  }

  ghost predicate Accounted(env: Env, s: State, original: set<FS.Name>, n: FS.Name) {
    || n in original || n == env.target || n in s.leaked
    || exists p :: p in s.calls && HasTemp(s.calls[p].pc) && s.calls[p].pc.tmp == n
  }

  lemma OwnNameAccounted(env: Env, s: State, a: Action)
    requires Enabled(env, s, a) && !a.Writeback? && a.pid in s.calls
    requires HasTemp(s.calls[a.pid].pc) && TempOk(env, s.fs, s.calls[a.pid])
    ensures
      var t, n := Step(env, s, a), s.calls[a.pid].pc.tmp;
      && a.pid in t.calls
      && (n in t.fs.dir ==> n == env.target || n in t.leaked || (HasTemp(t.calls[a.pid].pc) && t.calls[a.pid].pc.tmp == n))
  {
  }

  lemma AccountedStays(env: Env, s: State, a: Action, original: set<FS.Name>, n: FS.Name)
    requires Enabled(env, s, a) && TempsArePrivate(env, s)
    requires n in Step(env, s, a).fs.dir && n in s.fs.dir && Accounted(env, s, original, n)
    ensures Accounted(env, Step(env, s, a), original, n)
  {
    if n in original || n == env.target {
    } else if n in s.leaked {
      assert n in Step(env, s, a).leaked;
    } else {
      var p :| p in s.calls && HasTemp(s.calls[p].pc) && s.calls[p].pc.tmp == n;
      if !a.Writeback? {
        StepTouchesOneCall(env, s, a);
        if a.pid == p {
          OwnNameAccounted(env, s, a);
        }
      }
    }
  }

  lemma NoStrayTempsKept(env: Env, s: State, a: Action, original: set<FS.Name>)
    requires Enabled(env, s, a) && TempsArePrivate(env, s) && NoStrayTemps(env, s, original)
    ensures NoStrayTemps(env, Step(env, s, a), original)
  {
    var t := Step(env, s, a);
    forall n | n in t.fs.dir
      ensures Accounted(env, t, original, n)
    {
      if n in s.fs.dir {
        AccountedStays(env, s, a, original, n);
      } else {
        assert n == env.target || (a.Create? && t.calls[a.pid].pc.tmp == n);
      }
    }
  }

  lemma InvKept(env: Env, s: State, a: Action, previous: Option<Bytes>, original: set<FS.Name>)
    requires Enabled(env, s, a) && Inv(env, s, previous, original)
    ensures Inv(env, Step(env, s, a), previous, original)
  {
    OnlyRenamesKept(env, s, a, previous);
    TempsArePrivateKept(env, s, a, previous);
    WritersHaveRenamedKept(env, s, a);
    TargetIsLastWrittenKept(env, s, a, previous);
    VersionedKept(env, s, a, previous);
    SyncedIsDurableKept(env, s, a);
    NoStrayTempsKept(env, s, a, original);
  }

  lemma {:induction false} InvAfter(env: Env, s: State, run: seq<Action>, previous: Option<Bytes>, original: set<FS.Name>)
    requires Inv(env, s, previous, original) && IsRun(env, s, run)
    ensures Inv(env, After(env, s, run), previous, original)
    decreases |run|
  {
    if run != [] {
      InvKept(env, s, run[0], previous, original);
      InvAfter(env, Step(env, s, run[0]), run[1..], previous, original);
    }
  }

  // ---- main results ----

  /** At a crash point: the target is the complete previous file or a complete written config. */
  lemma CrashSafeAt(env: Env, s: State, previous: Option<Bytes>, c: Option<Bytes>)
    requires OnlyRenamesReachTarget(env, s, previous) && FS.CanSurvive(s.fs, env.target, c)
    ensures c == previous || (c.Some? && Complete(s, previous, c.value))
  {
    var k :| 0 <= k <= |s.fs.journal| && FS.SurvivesAt(s.fs, env.target, c, k);
    TargetInPrefix(env, s, previous, k);
  }

  lemma DurableAt(env: Env, s: State, previous: Option<Bytes>, c: Option<Bytes>)
    requires OnlyRenamesReachTarget(env, s, previous) && SyncedIsDurable(s) && s.synced
    requires FS.CanSurvive(s.fs, env.target, c)
    ensures c == FS.Visible(s.fs, env.target)
  {
    var k :| 0 <= k <= |s.fs.journal| && FS.SurvivesAt(s.fs, env.target, c, k);
    TargetUnmoved(env, s, previous, k);
    TargetUnmoved(env, s, previous, |s.fs.journal|);
    TargetInPrefix(env, s, previous, k);
    assert s.fs.journal[..|s.fs.journal|] == s.fs.journal;
  }

  /** A configuration that some call of the run validated and put in place. */
  ghost predicate WrittenConfig(env: Env, s: State, c: Bytes) {
    exists p :: p in s.writers && p in s.calls && s.calls[p].config == c && Accepts(env, c)
  }

  /**
   A crash at any point of any interleaving leaves the target as the complete previous
   file, or as one call's complete validated configuration; it never makes an existing
   file disappear.
   */
  lemma CrashSafe(env: Env, s0: State, previous: Option<Bytes>, run: seq<Action>, c: Option<Bytes>)
    requires Start(env, s0, previous) && IsRun(env, s0, run)
    requires FS.CanSurvive(After(env, s0, run).fs, env.target, c)
    ensures c == previous || (c.Some? && WrittenConfig(env, After(env, s0, run), c.value))
  {
    var s := After(env, s0, run);
    StartInv(env, s0, previous);
    InvAfter(env, s0, run, previous, s0.fs.dir.Keys);
    CrashSafeAt(env, s, previous, c);
    if c != previous {
      var p :| p in s.writers && p in s.calls && s.calls[p].config == c.value;
      assert RecordOk(env, s.calls[p], p in s.writers, p in s.acked);
      ValidateExactly(env, s.calls[p].config);
    }
  }

  /** Once the directory has been fsync'd after the last rename, a crash cannot undo that rename. */
  lemma SyncedRenameSurvives(env: Env, s0: State, previous: Option<Bytes>, run: seq<Action>, c: Option<Bytes>)
    requires Start(env, s0, previous) && IsRun(env, s0, run)
    requires FS.CanSurvive(After(env, s0, run).fs, env.target, c)
    ensures
      var s := After(env, s0, run);
      s.synced && s.writers != [] ==>
        s.writers[|s.writers| - 1] in s.calls && c == Some(s.calls[s.writers[|s.writers| - 1]].config)
  {
    var s := After(env, s0, run);
    StartInv(env, s0, previous);
    InvAfter(env, s0, run, previous, s0.fs.dir.Keys);
    if s.synced {
      DurableAt(env, s, previous, c);
    }
  }

  lemma {:induction false} RunningUntilSwitch(env: Env, s: State, run: seq<Action>)
    requires IsRun(env, s, run)
    ensures After(env, s, run).version.None? ==> s.version.None? && After(env, s, run).running == s.running
    decreases |run|
  {
    if run != [] {
      JobsFrame(env, s, run[0]);
      RunningUntilSwitch(env, Step(env, s, run[0]), run[1..]);
    }
  }

  /**
   At every point of every interleaving: processes read the previous file until the first rename and
   afterwards, byte for byte, the validated configuration of the call that renamed last.  The service
   runs what it ran at the start until it first switches, and afterwards what the file held after as
   many renames as had happened when the reload that switched last read it; so it runs what is on disk
   exactly when the file holds the same now as it did then.
   */
  lemma ServiceRunsWhatIsOnDisk(env: Env, s0: State, previous: Option<Bytes>, run: seq<Action>)
    requires Start(env, s0, previous) && IsRun(env, s0, run)
    ensures
      var s := After(env, s0, run);
      && FS.Visible(s.fs, env.target) == ContentAt(s, previous, |s.writers|)
      && (forall p :: p in s.writers ==> p in s.calls && Accepts(env, s.calls[p].config))
      && (s.version.None? ==> s.running == s0.running)
      && (s.version.Some? ==>
            && s.version.value <= |s.writers|
            && s.running == ContentAt(s, previous, s.version.value)
            && ((s.running == FS.Visible(s.fs, env.target)) <==>
                  (ContentAt(s, previous, s.version.value) == ContentAt(s, previous, |s.writers|))))
  {
    var s := After(env, s0, run);
    StartInv(env, s0, previous);
    InvAfter(env, s0, run, previous, s0.fs.dir.Keys);
    RunningUntilSwitch(env, s0, run);
    forall p | p in s.writers
      ensures p in s.calls && Accepts(env, s.calls[p].config)
    {
      assert RecordOk(env, s.calls[p], p in s.writers, p in s.acked);
      ValidateExactly(env, s.calls[p].config);
    }
  }

  // ---- reloads one at a time ----

  /** The service takes up a reload only when it is done with the others, and a reload command succeeds only once it has switched. */
  predicate OneReloadAtATime(s: State, a: Action) {
    && (a.ReadConfig? ==> forall q :: q in s.jobs ==> s.jobs[q].switched)
    && (a.FinishReload? && a.ok ==> a.pid in s.jobs && s.jobs[a.pid].switched)
  }

  ghost predicate Serialised(env: Env, s: State, run: seq<Action>)
    requires IsRun(env, s, run)
    decreases |run|
  {
    run != [] ==> OneReloadAtATime(s, run[0]) && Serialised(env, Step(env, s, run[0]), run[1..])
  }

  ghost predicate InOrder(s: State) {
    && (forall p, q :: p in s.jobs && q in s.jobs && !s.jobs[p].switched && !s.jobs[q].switched ==> p == q)
    && (forall p :: p in s.jobs && !s.jobs[p].switched && s.version.Some? ==> s.version.value <= s.jobs[p].version)
    && (forall p :: p in s.jobs && s.jobs[p].switched ==> s.version.Some? && s.jobs[p].version <= s.version.value)
    && (forall p :: p in s.acked ==> p in s.jobs && s.jobs[p].switched)
  }

  lemma InOrderKept(env: Env, s: State, a: Action, previous: Option<Bytes>)
    requires Enabled(env, s, a) && Versioned(s, previous) && InOrder(s) && OneReloadAtATime(s, a)
    ensures InOrder(Step(env, s, a))
  {
    JobsFrame(env, s, a);
    HistoriesGrow(env, s, a);
  }

  lemma {:induction false} InOrderAfter(env: Env, s: State, run: seq<Action>, previous: Option<Bytes>, original: set<FS.Name>)
    requires Inv(env, s, previous, original) && InOrder(s) && IsRun(env, s, run) && Serialised(env, s, run)
    ensures InOrder(After(env, s, run)) && Inv(env, After(env, s, run), previous, original)
    decreases |run|
  {
    if run != [] {
      InvKept(env, s, run[0], previous, original);
      InOrderKept(env, s, run[0], previous);
      InOrderAfter(env, Step(env, s, run[0]), run[1..], previous, original);
    }
  }

  /** Once the reload of the call that renamed last has succeeded, the service runs what is on disk. */
  ghost predicate AgreesOnceAcked(env: Env, s: State) {
    s.writers != [] && s.writers[|s.writers| - 1] in s.acked ==> s.running == FS.Visible(s.fs, env.target)
  }

  /**
   When the service takes up reloads one at a time and a reload command waits for it: once the reload of
   the call that renamed last has succeeded, the service runs what is on disk, whatever other calls do.
   */
  lemma SerialReloadsAgree(env: Env, s0: State, previous: Option<Bytes>, run: seq<Action>)
    requires Start(env, s0, previous) && IsRun(env, s0, run) && Serialised(env, s0, run)
    ensures AgreesOnceAcked(env, After(env, s0, run))
  {
    StartInv(env, s0, previous);
    StartInOrder(env, s0, previous);
    InOrderAfter(env, s0, run, previous, s0.fs.dir.Keys);
    LastAckedRuns(env, After(env, s0, run), previous, s0.fs.dir.Keys);
  }

  lemma StartInOrder(env: Env, s: State, previous: Option<Bytes>)
    requires Start(env, s, previous)
    ensures InOrder(s)
  {
  }

  lemma LastJobIsLatest(s: State, previous: Option<Bytes>)
    requires Versioned(s, previous) && InOrder(s)
    requires s.writers != [] && s.writers[|s.writers| - 1] in s.acked
    ensures s.running == ContentAt(s, previous, |s.writers|)
  {
    assert JobOk(s, previous, s.writers[|s.writers| - 1]);
  }

  lemma LastAckedRuns(env: Env, s: State, previous: Option<Bytes>, original: set<FS.Name>)
    requires Inv(env, s, previous, original) && InOrder(s)
    ensures AgreesOnceAcked(env, s)
  {
    if s.writers != [] && s.writers[|s.writers| - 1] in s.acked {
      LastJobIsLatest(s, previous);
    }
  }

  /**
   A call that returns an error other than a failed reload never touched the target, and
   when no call is in progress every temp file is gone but those whose removal failed.
   */
  lemma FailedCallsLeaveNothing(env: Env, s0: State, previous: Option<Bytes>, run: seq<Action>, p: Pid)
    requires Start(env, s0, previous) && IsRun(env, s0, run)
    requires p in After(env, s0, run).calls
    ensures
      var s := After(env, s0, run);
      && (s.calls[p].pc.Done? && s.calls[p].pc.result.Err? && s.calls[p].pc.result.error != ReloadFailed ==> p !in s.writers)
      && ((forall q :: q in s.calls ==> s.calls[q].pc.Done?) ==> s.fs.dir.Keys <= s0.fs.dir.Keys + {env.target} + s.leaked)
  {
    var s := After(env, s0, run);
    StartInv(env, s0, previous);
    InvAfter(env, s0, run, previous, s0.fs.dir.Keys);
    assert RecordOk(env, s.calls[p], p in s.writers, p in s.acked);
  }
}
