/**
 writeAtomic and applyCore as the sequential code they are.  The outcome of every system
 call is a parameter; each call is proved to be a run of the interleaved protocol, so the
 crash and interleaving results hold for what this code does.
 */
module ApplyAgent {
  import opened Wrappers
  import FS = FileSystem
  import opened ApplyProtocol

  /** What the kernel answers, in the order of the calls. */
  datatype Kernel = Kernel(
    mkdir: bool, create: bool, write: bool, written: nat, fsync: bool, close: bool,
    chmod: bool, rename: bool, remove: bool, fsyncDir: bool, tmp: FS.Name, inode: FS.Inode)

  lemma {:induction false} RunConcat(env: Env, s: State, run: seq<Action>, more: seq<Action>)
    requires IsRun(env, s, run) && IsRun(env, After(env, s, run), more)
    ensures IsRun(env, s, run + more) && After(env, s, run + more) == After(env, After(env, s, run), more)
    decreases |run|
  {
    if run == [] {
      assert run + more == more;
    } else {
      RunConcat(env, Step(env, s, run[0]), run[1..], more);
      assert (run + more)[0] == run[0] && (run + more)[1..] == run[1..] + more;
    }
  }

  ghost predicate Leads(env: Env, s: State, run: seq<Action>, t: State) {
    IsRun(env, s, run) && After(env, s, run) == t
  }

  ghost method Follow(env: Env, s: State, run: seq<Action>, t: State, a: Action)
    returns (longer: seq<Action>, next: State)
    requires Leads(env, s, run, t) && Enabled(env, t, a)
    ensures Leads(env, s, longer, next) && next == Step(env, t, a)
  {
    assert [a][1..] == [];
    assert IsRun(env, t, [a]);
    RunConcat(env, s, run, [a]);
    return run + [a], Step(env, t, a);
  }

  ghost predicate At(t: State, p: Pid, c: Call) {
    p in t.calls && t.calls[p] == c
  }

  /** One call has moved on; no other has, and the service has done nothing. */
  ghost predicate Moved(t0: State, t: State, p: Pid, c: Call) {
    p in t0.calls && t.calls == t0.calls[p := c] && t.jobs == t0.jobs && t.running == t0.running
  }

  lemma MovedOn(t0: State, t1: State, t2: State, p: Pid, c: Call, d: Call)
    requires Moved(t0, t1, p, c) && Moved(t1, t2, p, d)
    ensures Moved(t0, t2, p, d)
  {
  }

  /** One system call of call p, which began in t0. */
  ghost method System(env: Env, s: State, t0: State, run: seq<Action>, t: State, p: Pid, ok: bool, n: nat)
    returns (longer: seq<Action>, next: State)
    requires Leads(env, s, run, t) && p in t.calls && Moved(t0, t, p, t.calls[p]) && Enabled(env, t, Syscall(p, ok, n))
    ensures next == SyscallStep(env, t, p, ok, n) && Leads(env, s, longer, next)
    ensures p in next.calls && next.calls[p].config == t.calls[p].config && Moved(t0, next, p, next.calls[p])
  {
    longer, next := Follow(env, s, run, t, Syscall(p, ok, n));
    assert t0.calls[p := t.calls[p]][p := next.calls[p]] == t0.calls[p := next.calls[p]];
  }

  /** No directory operation is left in the journal, and on disk the name means this file. */
  ghost predicate Durable(fs: FS.FS, n: FS.Name, i: FS.Inode) {
    fs.journal == [] && n in fs.durable && fs.durable[n] == i
  }

  /** Whatever a crash keeps, the name reads as c. */
  ghost predicate SurvivesCrash(fs: FS.FS, n: FS.Name, c: Bytes) {
    forall x :: FS.CanSurvive(fs, n, x) ==> x == Some(c)
  }

  lemma DurableSurvives(fs: FS.FS, n: FS.Name, i: FS.Inode, c: Bytes)
    requires Durable(fs, n, i) && i in fs.files && fs.files[i] == FS.File(c, true)
    ensures SurvivesCrash(fs, n, c)
  {
  }

  /** Nothing differs but the contents of one file. */
  ghost predicate SameButFile(before: FS.FS, after: FS.FS, i: FS.Inode) {
    && after.dir == before.dir && after.files.Keys == before.files.Keys + {i}
    && (forall j :: j in before.files && j != i ==> j in after.files && after.files[j] == before.files[j])
  }

  class Agent {
    const env: Env
    var fs: FS.FS
    var running: Option<Bytes>
    var lastApply: Option<int>

    constructor (env: Env, fs: FS.FS, running: Option<Bytes>)
      ensures this.env == env && this.fs == fs && this.running == running && lastApply == None
    {
      this.env := env;
      this.fs := fs;
      this.running := running;
      lastApply := None;
    }

    /** The deferred removal of the temp file. */
    method CleanUp(tmp: FS.Name, removed: bool, ghost s: State, ghost p: Pid, ghost run0: seq<Action>, ghost t0: State)
      returns (ghost run: seq<Action>, ghost t: State)
      requires Leads(env, s, run0, t0) && t0.fs == fs && p in t0.calls && t0.calls[p].pc.Cleanup? && t0.calls[p].pc.tmp == tmp
      modifies this`fs
      ensures Leads(env, s, run, t) && t.fs == fs
      ensures Moved(t0, t, p, Call(t0.calls[p].config, Done(Err(WriteFailed))))
      ensures fs == if removed then FS.Remove(old(fs), tmp) else old(fs)
    {
      run, t := Follow(env, s, run0, t0, Syscall(p, removed, 0));
      if removed {
        fs := FS.Remove(fs, tmp);
      }
    }

    /** mkdir and CreateTemp. */
    method MakeTemp(data: Bytes, k: Kernel, ghost s: State, ghost p: Pid, ghost run0: seq<Action>, ghost t0: State)
      returns (ok: bool, ghost run: seq<Action>, ghost t: State)
      requires Leads(env, s, run0, t0) && t0.fs == fs && At(t0, p, Call(data, Mkdir))
      requires Usable(k, data)
      modifies this`fs
      ensures Leads(env, s, run, t) && t.fs == fs
      ensures Moved(t0, t, p, Call(data, if ok then Write(k.tmp, k.inode) else Done(Err(WriteFailed))))
      ensures ok <==> k.mkdir && k.create
      ensures fs == if ok then FS.CreateTemp(old(fs), k.tmp, k.inode) else old(fs)
    {
      run, t := Follow(env, s, run0, t0, Syscall(p, k.mkdir, 0));
      if !k.mkdir {
        return false, run, t;
      }
      if !k.create {
        run, t := Follow(env, s, run, t, Syscall(p, false, 0));
        return false, run, t;
      }
      run, t := Follow(env, s, run, t, Create(p, k.tmp, k.inode));
      fs := FS.CreateTemp(fs, k.tmp, k.inode);
      return true, run, t;
    }

    /** Write, fsync, close and chmod of the temp file. */
    method FillTemp(data: Bytes, k: Kernel, ghost s: State, ghost p: Pid, ghost run0: seq<Action>, ghost t0: State)
      returns (ok: bool, ghost run: seq<Action>, ghost t: State)
      requires Leads(env, s, run0, t0) && t0.fs == fs && At(t0, p, Call(data, Write(k.tmp, k.inode)))
      requires k.written <= |data|
      modifies this`fs
      ensures Leads(env, s, run, t) && t.fs == fs
      ensures Moved(t0, t, p, Call(data, if ok then Rename(k.tmp, k.inode) else Cleanup(k.tmp, k.inode)))
      ensures ok <==> k.write && k.fsync && k.close && k.chmod
      ensures SameButFile(old(fs), fs, k.inode)
      ensures ok ==> fs.files[k.inode] == FS.File(data, true)
    {
      ok, run, t := WriteTemp(data, k, s, p, run0, t0);
      if !ok {
        return;
      }
      run, t := System(env, s, t0, run, t, p, k.close, 0);
      if !k.close {
        return false, run, t;
      }
      run, t := System(env, s, t0, run, t, p, k.chmod, 0);
      return k.chmod, run, t;
    }

    method WriteTemp(data: Bytes, k: Kernel, ghost s: State, ghost p: Pid, ghost run0: seq<Action>, ghost t0: State)
      returns (ok: bool, ghost run: seq<Action>, ghost t: State)
      requires Leads(env, s, run0, t0) && t0.fs == fs && At(t0, p, Call(data, Write(k.tmp, k.inode)))
      requires k.written <= |data|
      modifies this`fs
      ensures Leads(env, s, run, t) && t.fs == fs
      ensures Moved(t0, t, p, Call(data, if ok then Close(k.tmp, k.inode) else Cleanup(k.tmp, k.inode)))
      ensures ok <==> k.write && k.fsync
      ensures SameButFile(old(fs), fs, k.inode)
      ensures ok ==> fs.files[k.inode] == FS.File(data, true)
    {
      assert t0.calls[p := t0.calls[p]] == t0.calls;
      run, t := System(env, s, t0, run0, t0, p, k.write, k.written);
      fs := FS.Write(fs, k.inode, if k.write then data else data[..k.written]);
      if !k.write {
        return false, run, t;
      }
      run, t := System(env, s, t0, run, t, p, k.fsync, 0);
      if !k.fsync {
        return false, run, t;
      }
      fs := FS.Fsync(fs, k.inode);
      return true, run, t;
    }

    /** Rename over the target and, best effort, fsync the directory. */
    method Publish(data: Bytes, k: Kernel, ghost s: State, ghost p: Pid, ghost run0: seq<Action>, ghost t0: State)
      returns (ok: bool, ghost run: seq<Action>, ghost t: State)
      requires Leads(env, s, run0, t0) && t0.fs == fs && At(t0, p, Call(data, Rename(k.tmp, k.inode)))
      requires k.tmp in fs.dir && fs.dir[k.tmp] == k.inode
      modifies this`fs
      ensures Leads(env, s, run, t) && t.fs == fs
      ensures Moved(t0, t, p, Call(data, if ok then Reload else Cleanup(k.tmp, k.inode)))
      ensures ok <==> k.rename
      ensures fs.files == old(fs).files
      ensures fs.dir == if ok then (old(fs).dir - {k.tmp})[env.target := k.inode] else old(fs).dir
      ensures ok && k.fsyncDir ==> Durable(fs, env.target, k.inode)
    {
      run, t := Follow(env, s, run0, t0, Syscall(p, k.rename, 0));
      if !k.rename {
        return false, run, t;
      }
      ghost var ops := fs.journal;
      fs := FS.Rename(fs, k.tmp, env.target);
      FS.ReplaySnoc(fs.durable, ops, FS.Move(k.tmp, env.target, k.inode));
      run, t := Follow(env, s, run, t, Syscall(p, k.fsyncDir, 0));
      if k.fsyncDir {
        assert fs.journal[..|fs.journal|] == fs.journal;
        fs := FS.Flush(fs, |fs.journal|);
      }
      return true, run, t;
    }

    method WriteAtomic(data: Bytes, k: Kernel, ghost s: State, ghost p: Pid, ghost run0: seq<Action>, ghost t0: State)
      returns (ok: bool, ghost run: seq<Action>, ghost t: State)
      requires Leads(env, s, run0, t0) && t0.fs == fs && At(t0, p, Call(data, Mkdir))
      requires Usable(k, data)
      modifies this`fs
      ensures Leads(env, s, run, t) && t.fs == fs
      ensures Moved(t0, t, p, Call(data, if ok then Reload else Done(Err(WriteFailed))))
      ensures ok <==> k.mkdir && k.create && k.write && k.fsync && k.close && k.chmod && k.rename
      ensures FS.Visible(fs, env.target) == if ok then Some(data) else FS.Visible(old(fs), env.target)
      ensures ok ==> fs.dir == old(fs).dir[env.target := k.inode]
      ensures !ok && k.remove ==> fs.dir == old(fs).dir
      ensures fs.files.Keys <= old(fs).files.Keys + {k.inode} && (ok ==> k.inode in fs.files)
      ensures ok && k.fsyncDir ==> SurvivesCrash(fs, env.target, data)
    {
      ok, run, t := MakeTemp(data, k, s, p, run0, t0);
      if !ok {
        return;
      }
      ghost var t1 := t;
      ok, run, t := FillAndPublish(data, k, s, p, run, t);
      MovedOn(t0, t1, t, p, t1.calls[p], t.calls[p]);
    }

    /** The rest of writeAtomic once there is a temp file. */
    method FillAndPublish(data: Bytes, k: Kernel, ghost s: State, ghost p: Pid, ghost run0: seq<Action>, ghost t0: State)
      returns (ok: bool, ghost run: seq<Action>, ghost t: State)
      requires Leads(env, s, run0, t0) && t0.fs == fs && At(t0, p, Call(data, Write(k.tmp, k.inode)))
      requires k.tmp in fs.dir && fs.dir[k.tmp] == k.inode && k.tmp != env.target && k.written <= |data|
      requires env.target in fs.dir ==> fs.dir[env.target] in fs.files && fs.dir[env.target] != k.inode
      modifies this`fs
      ensures Leads(env, s, run, t) && t.fs == fs
      ensures Moved(t0, t, p, Call(data, if ok then Reload else Done(Err(WriteFailed))))
      ensures ok <==> k.write && k.fsync && k.close && k.chmod && k.rename
      ensures FS.Visible(fs, env.target) == if ok then Some(data) else FS.Visible(old(fs), env.target)
      ensures ok ==> fs.dir == (old(fs).dir - {k.tmp})[env.target := k.inode]
      ensures !ok && k.remove ==> fs.dir == old(fs).dir - {k.tmp}
      ensures fs.files.Keys == old(fs).files.Keys + {k.inode}
      ensures ok && k.fsyncDir ==> SurvivesCrash(fs, env.target, data)
    {
      ok, run, t := FillTemp(data, k, s, p, run0, t0);
      if ok {
        ghost var t1 := t;
        ok, run, t := Publish(data, k, s, p, run, t);
        if ok && k.fsyncDir {
          DurableSurvives(fs, env.target, k.inode, data);
        }
        MovedOn(t0, t1, t, p, t1.calls[p], t.calls[p]);
      }
      if !ok {
        ghost var t2 := t;
        run, t := CleanUp(k.tmp, k.remove, s, p, run, t);
        MovedOn(t0, t2, t, p, t2.calls[p], t.calls[p]);
      }
    }

    /** A temp name and inode not in use, as CreateTemp guarantees. */
    ghost predicate Usable(k: Kernel, data: Bytes) reads this {
      && k.tmp !in fs.dir && k.tmp != env.target && k.inode !in fs.files && k.written <= |data|
      && (env.target in fs.dir ==> fs.dir[env.target] in fs.files)
    }

    /** The reload command of call p, on its own; `took`: the service has switched when it returns. */
    method RunReload(took: bool, ok: bool, ghost s: State, ghost p: Pid, ghost run0: seq<Action>, ghost t0: State)
      returns (ghost run: seq<Action>, ghost t: State)
      requires Leads(env, s, run0, t0) && t0.fs == fs && t0.running == running
      requires p in t0.calls && t0.calls[p].pc.Reload? && p !in t0.jobs
      modifies this`running
      ensures Leads(env, s, run, t) && t.fs == fs && t.running == running
      ensures t.calls == t0.calls[p := Call(t0.calls[p].config, Done(if ok then Ok(|t0.calls[p].config|) else Err(ReloadFailed)))]
      ensures forall q :: q in t0.jobs ==> q in t.jobs && t.jobs[q] == t0.jobs[q]
      ensures running == if took then FS.Visible(fs, env.target) else old(running)
    {
      run, t := run0, t0;
      if took {
        run, t := Follow(env, s, run, t, ReadConfig(p));
        run, t := Follow(env, s, run, t, Switch(p));
        running := FS.Visible(fs, env.target);
      }
      run, t := Follow(env, s, run, t, FinishReload(p, ok));
    }

    /** Writing and reloading a valid configuration. */
    method WriteAndReload(config: Bytes, k: Kernel, reloadOk: bool, took: bool,
                          ghost s: State, ghost p: Pid, ghost run0: seq<Action>, ghost t0: State)
      returns (result: Result<nat, Error>, ghost run: seq<Action>, ghost t: State)
      requires Leads(env, s, run0, t0) && t0.fs == fs && t0.running == running
      requires At(t0, p, Call(config, Mkdir)) && p !in t0.jobs && Usable(k, config)
      modifies this`fs, this`running
      ensures Leads(env, s, run, t) && t.fs == fs && t.running == running
      ensures t.calls == t0.calls[p := Call(config, Done(result))]
      ensures forall q :: q in t0.jobs ==> q in t.jobs && t.jobs[q] == t0.jobs[q]
      ensures result == if !AllWorks(k) then Err(WriteFailed) else if !reloadOk then Err(ReloadFailed) else Ok(|config|)
      ensures FS.Visible(fs, env.target) == if AllWorks(k) then Some(config) else FS.Visible(old(fs), env.target)
      ensures running == if took && AllWorks(k) then Some(config) else old(running)
      ensures AllWorks(k) ==> fs.dir == old(fs).dir[env.target := k.inode]
      ensures !AllWorks(k) && k.remove ==> fs.dir == old(fs).dir
      ensures AllWorks(k) && k.fsyncDir ==> SurvivesCrash(fs, env.target, config)
    {
      var ok;
      ok, run, t := WriteAtomic(config, k, s, p, run0, t0);
      if !ok {
        return Err(WriteFailed), run, t;
      }
      run, t := RunReload(took, reloadOk, s, p, run, t);
      return if reloadOk then Ok(|config|) else Err(ReloadFailed), run, t;
    }

    /** Validation, write, reload, in that order; `took`: the service has switched when the command returns. */
    method ApplyCore(config: Bytes, k: Kernel, reloadOk: bool, took: bool, now: int, ghost s: State, ghost p: Pid)
      returns (result: Result<nat, Error>, ghost run: seq<Action>, ghost t: State)
      requires s.fs == fs && s.running == running && p !in s.calls && p !in s.jobs && Usable(k, config)
      modifies this
      ensures Leads(env, s, run, t) && t.fs == fs && t.running == running
      ensures t.calls == s.calls[p := Call(config, Done(result))]
      ensures forall q :: q in s.jobs ==> q in t.jobs && t.jobs[q] == s.jobs[q]
      ensures result.Ok? <==> Accepts(env, config) && AllWorks(k) && reloadOk
      ensures result.Ok? ==> result.value == |config|
      ensures result == Err(WriteFailed) <==> Accepts(env, config) && !AllWorks(k)
      ensures result == Err(ReloadFailed) <==> Accepts(env, config) && AllWorks(k) && !reloadOk
      ensures forall e :: Rejects(env, config, e) ==> result == Err(e)
      ensures !Accepts(env, config) ==> fs == old(fs)
      ensures FS.Visible(fs, env.target) ==
        if Accepts(env, config) && AllWorks(k) then Some(config) else FS.Visible(old(fs), env.target)
      ensures running == if took && Accepts(env, config) && AllWorks(k) then Some(config) else old(running)
      ensures Accepts(env, config) && AllWorks(k) ==> fs.dir == old(fs).dir[env.target := k.inode]
      ensures Accepts(env, config) && !AllWorks(k) && k.remove ==> fs.dir == old(fs).dir
      ensures Accepts(env, config) && AllWorks(k) && k.fsyncDir ==> SurvivesCrash(fs, env.target, config)
      ensures lastApply == if result.Ok? then Some(now) else old(lastApply)
    {
      assert Leads(env, s, [], s);
      run, t := Follow(env, s, [], s, Begin(p, config));
      var v := Validate(env, config);
      ValidateExactly(env, config);
      if v.Some? {
        return Err(v.value), run, t;
      }
      result, run, t := WriteAndReload(config, k, reloadOk, took, s, p, run, t);
      if result.Ok? {
        lastApply := Some(now);
      }
    }

    ghost predicate AllWorks(k: Kernel) {
      k.mkdir && k.create && k.write && k.fsync && k.close && k.chmod && k.rename
    }

    /** A valid apply up to its reload, when everything works. */
    method StartApply(config: Bytes, k: Kernel, ghost s: State, ghost p: Pid, ghost run0: seq<Action>, ghost t0: State)
      returns (ghost run: seq<Action>, ghost t: State)
      requires Leads(env, s, run0, t0) && t0.fs == fs && p !in t0.calls
      requires Accepts(env, config) && AllWorks(k) && Usable(k, config)
      modifies this`fs
      ensures Leads(env, s, run, t) && t.fs == fs
      ensures t.calls == t0.calls[p := Call(config, Reload)] && t.jobs == t0.jobs && t.running == t0.running
      ensures FS.Visible(fs, env.target) == Some(config) && fs.dir == old(fs).dir[env.target := k.inode]
      ensures fs.files.Keys <= old(fs).files.Keys + {k.inode} && k.inode in fs.files
    {
      ValidateExactly(env, config);
      run, t := Follow(env, s, run0, t0, Begin(p, config));
      ghost var t1 := t;
      var ok;
      ok, run, t := WriteAtomic(config, k, s, p, run, t);
      assert t1.calls[p := Call(config, Reload)] == t0.calls[p := Call(config, Reload)];
    }

    /** The first apply's reload reads the file, the second apply comes and goes, then the first one's service switches. */
    method OverlappingReloads(a: Bytes, b: Bytes, ka: Kernel, kb: Kernel, ghost s: State)
      returns (ghost run: seq<Action>, ghost t: State)
      requires Start(env, s, FS.Visible(s.fs, env.target)) && s.fs == fs && s.running == running
      requires Accepts(env, a) && Accepts(env, b) && AllWorks(ka) && AllWorks(kb)
      requires Usable(ka, a) && Usable(kb, b) && ka.inode != kb.inode
      modifies this
      ensures Leads(env, s, run, t) && t.fs == fs && t.running == running
      ensures At(t, 1, Call(a, Done(Ok(|a|)))) && At(t, 2, Call(b, Done(Ok(|b|))))
      ensures FS.Visible(fs, env.target) == Some(b) && running == Some(a)
    {
      assert Leads(env, s, [], s);
      run, t := StartApply(a, ka, s, 1, [], s);
      run, t := Follow(env, s, run, t, ReadConfig(1));
      var readByFirst := FS.Visible(fs, env.target);
      run, t := StartApply(b, kb, s, 2, run, t);
      run, t := RunReload(true, true, s, 2, run, t);
      run, t := Follow(env, s, run, t, Switch(1));
      running := readByFirst;
      run, t := Follow(env, s, run, t, FinishReload(1, true));
    }
  }
}
