/**
 applyCore: validate, writeAtomic, reload.  No mutex guards it, so any number of calls are
 in flight; every action is one system call of one call's writeAtomic, one step of a reload,
 or the kernel writing journalled directory operations back.  A reload takes time: the service
 reads the file, later switches to what it read, and the command returns whenever it does.
 */
module ApplyProtocol {
  import opened Wrappers
  import FS = FileSystem

  type Bytes = FS.Bytes
  type Pid = nat

  datatype Error =
    | EmptyConfig
    | NotJSONObject
    | InvalidJSON
    | ConfigPathNotSet
    | ReloadCmdNotSet
    | WriteFailed
    | ReloadFailed

  /** What the agent was started with, and the JSON decoder. */
  datatype Env = Env(target: FS.Name, configPathSet: bool, reloadCmdSet: bool, jsonValid: Bytes -> bool)

  function TrimLeft(b: Bytes): Bytes {
    if b != [] && b[0] in " \t\r\n" then TrimLeft(b[1..]) else b
  }

  function Validate(env: Env, config: Bytes): Option<Error> {
    if |config| == 0 then Some(EmptyConfig)
    else
      var trimmed := TrimLeft(config);
      if |trimmed| == 0 || trimmed[0] != '{' then Some(NotJSONObject)
      else if !env.jsonValid(config) then Some(InvalidJSON)
      else if !env.configPathSet then Some(ConfigPathNotSet)
      else if !env.reloadCmdSet then Some(ReloadCmdNotSet)
      else None
  }

  /** The first character that is not a blank, tab or line break is an opening brace. */
  ghost predicate OpensObject(config: Bytes) {
    exists i :: 0 <= i < |config| && BraceAt(config, i)
  }

  ghost predicate BraceAt(config: Bytes, i: nat)
    requires i < |config|
  {
    config[i] == '{' && forall j :: 0 <= j < i ==> config[j] == ' ' || config[j] == '\t' || config[j] == '\r' || config[j] == '\n'
  }

  ghost predicate Accepts(env: Env, config: Bytes) {
    OpensObject(config) && env.jsonValid(config) && env.configPathSet && env.reloadCmdSet
  }

  /** The check behind this error is the first that config fails. */
  ghost predicate Rejects(env: Env, config: Bytes, e: Error) {
    match e
    case EmptyConfig => config == []
    case NotJSONObject => config != [] && !OpensObject(config)
    case InvalidJSON => OpensObject(config) && !env.jsonValid(config)
    case ConfigPathNotSet => OpensObject(config) && env.jsonValid(config) && !env.configPathSet
    case ReloadCmdNotSet => OpensObject(config) && env.jsonValid(config) && env.configPathSet && !env.reloadCmdSet
    case WriteFailed => false
    case ReloadFailed => false
  }

  lemma {:induction false} TrimmedOpens(config: Bytes)
    ensures OpensObject(config) <==> TrimLeft(config) != [] && TrimLeft(config)[0] == '{'
  {
    if config != [] && config[0] in " \t\r\n" {
      TrimmedOpens(config[1..]);
      if OpensObject(config[1..]) {
        var i :| 0 <= i < |config[1..]| && BraceAt(config[1..], i);
        assert BraceAt(config, i + 1) by {
          forall j | 1 <= j < i + 1
            ensures config[j] == config[1..][j - 1]
          {
          }
        }
      }
      if OpensObject(config) {
        var i :| 0 <= i < |config| && BraceAt(config, i);
        assert BraceAt(config[1..], i - 1);
      }
    } else if config != [] && config[0] == '{' {
      assert BraceAt(config, 0);
    }
  }

  /** Each error comes exactly when its own check is the first to fail. */
  lemma ValidateExactly(env: Env, config: Bytes)
    ensures Validate(env, config).None? <==> Accepts(env, config)
    ensures forall e :: Validate(env, config) == Some(e) <==> Rejects(env, config, e)
  {
    TrimmedOpens(config);
  }

  /** The next thing a call will do.  `tmp` and `inode` name its temp file. */
  datatype Pc =
    | Mkdir
    | CreateTemp
    | Write(tmp: FS.Name, inode: FS.Inode)
    | Fsync(tmp: FS.Name, inode: FS.Inode)
    | Close(tmp: FS.Name, inode: FS.Inode)
    | Chmod(tmp: FS.Name, inode: FS.Inode)
    | Rename(tmp: FS.Name, inode: FS.Inode)
    | Cleanup(tmp: FS.Name, inode: FS.Inode)   // the deferred os.Remove after an error
    | FsyncDir
    | Reload
    | Done(result: Result<nat, Error>)         // Ok carries the byte count

  datatype Call = Call(config: Bytes, pc: Pc)

  /** What the service read for a call's reload command, after how many renames, and whether it switched to it. */
  datatype Job = Job(data: Option<Bytes>, version: nat, switched: bool)

  datatype State = State(
    fs: FS.FS,
    calls: map<Pid, Call>,
    running: Option<Bytes>,   // the configuration the service runs
    jobs: map<Pid, Job>,      // the service's work on the reload command of each call
    version: Option<nat>,     // history: renames before the read that `running` comes from
    writers: seq<Pid>,        // history: calls whose rename happened, in order
    acked: set<Pid>,          // history: calls whose reload command succeeded
    synced: bool,             // history: the directory was fsync'd since the last rename
    leaked: set<FS.Name>      // history: temp files whose removal failed
  )

  datatype Action =
    | Begin(pid: Pid, config: Bytes)
    | Syscall(pid: Pid, ok: bool, n: nat)                 // n: bytes written before a failed write
    | Create(pid: Pid, tmp: FS.Name, inode: FS.Inode)
    | ReadConfig(pid: Pid)                                // the service reads the file for the reload of this call
    | Switch(pid: Pid)                                    // and starts running what it read
    | FinishReload(pid: Pid, ok: bool)                    // the reload command returns; the service need not be done
    | Writeback(k: nat)

  predicate IsSyscall(pc: Pc) {
    pc.Mkdir? || pc.CreateTemp? || pc.Write? || pc.Fsync? || pc.Close? || pc.Chmod? || pc.Rename? || pc.Cleanup? || pc.FsyncDir?
  }

  predicate ReloadStarted(pc: Pc) {
    pc.Reload? || (pc.Done? && (pc.result.Ok? || pc.result.error == ReloadFailed))
  }

  predicate Enabled(env: Env, s: State, a: Action) {
    match a
    case Begin(p, _) => p !in s.calls
    case Syscall(p, ok, n) =>
      && p in s.calls && IsSyscall(s.calls[p].pc)
      && (s.calls[p].pc.CreateTemp? ==> !ok)
      && (s.calls[p].pc.Write? ==> n <= |s.calls[p].config|)
    case Create(p, tmp, inode) =>
      p in s.calls && s.calls[p].pc.CreateTemp? && tmp !in s.fs.dir && tmp != env.target && inode !in s.fs.files
    case ReadConfig(p) => p in s.calls && ReloadStarted(s.calls[p].pc) && p !in s.jobs
    case Switch(p) => p in s.calls && p in s.jobs && !s.jobs[p].switched
    case FinishReload(p, _) => p in s.calls && s.calls[p].pc.Reload?
    case Writeback(k) => k <= |s.fs.journal|
  }

  function Goto(s: State, p: Pid, pc: Pc): State
    requires p in s.calls
  {
    s.(calls := s.calls[p := s.calls[p].(pc := pc)])
  }

  function Fail(s: State, p: Pid): State
    requires p in s.calls
  {
    Goto(s, p, Done(Err(WriteFailed)))
  }

  /** One system call of writeAtomic, with its outcome. */
  function SyscallStep(env: Env, s: State, p: Pid, ok: bool, n: nat): State
    requires Enabled(env, s, Syscall(p, ok, n))
  {
    var config := s.calls[p].config;
    match s.calls[p].pc
    case Mkdir => if ok then Goto(s, p, CreateTemp) else Fail(s, p)
    case CreateTemp => Fail(s, p)
    case Write(t, i) =>
      if ok then Goto(s, p, Fsync(t, i)).(fs := FS.Write(s.fs, i, config))
      else Goto(s, p, Cleanup(t, i)).(fs := FS.Write(s.fs, i, config[..n]))
    case Fsync(t, i) =>
      if ok then Goto(s, p, Close(t, i)).(fs := FS.Fsync(s.fs, i)) else Goto(s, p, Cleanup(t, i))
    case Close(t, i) => Goto(s, p, if ok then Chmod(t, i) else Cleanup(t, i))
    case Chmod(t, i) => Goto(s, p, if ok then Rename(t, i) else Cleanup(t, i))
    case Rename(t, i) =>
      if ok then
        Goto(s, p, FsyncDir).(
          fs := FS.Rename(s.fs, t, env.target), writers := s.writers + [p], synced := false)
      else Goto(s, p, Cleanup(t, i))
    case Cleanup(t, i) =>
      if ok then Fail(s, p).(fs := FS.Remove(s.fs, t)) else Fail(s, p).(leaked := s.leaked + {t})
    case FsyncDir =>
      // best effort: a failed directory fsync is not an error
      if ok then Goto(s, p, Reload).(fs := FS.Flush(s.fs, |s.fs.journal|), synced := true) else Goto(s, p, Reload)
  }

  function Step(env: Env, s: State, a: Action): State
    requires Enabled(env, s, a)
  {
    match a
    case Begin(p, config) =>
      var v := Validate(env, config);
      s.(calls := s.calls[p := Call(config, if v.Some? then Done(Err(v.value)) else Mkdir)])
    case Syscall(p, ok, n) => SyscallStep(env, s, p, ok, n)
    case Create(p, t, i) => Goto(s, p, Write(t, i)).(fs := FS.CreateTemp(s.fs, t, i))
    case ReadConfig(p) =>
      s.(jobs := s.jobs[p := Job(FS.Visible(s.fs, env.target), |s.writers|, false)])
    case Switch(p) =>
      s.(running := s.jobs[p].data, version := Some(s.jobs[p].version), jobs := s.jobs[p := s.jobs[p].(switched := true)])
    case FinishReload(p, ok) =>
      Goto(s, p, Done(if ok then Ok(|s.calls[p].config|) else Err(ReloadFailed))).(
        acked := if ok then s.acked + {p} else s.acked)
    case Writeback(k) => s.(fs := FS.Flush(s.fs, k))
  }

  /** A directory at rest, holding the old configuration or none. */
  predicate Start(env: Env, s: State, previous: Option<Bytes>) {
    && s.calls == map[] && s.writers == [] && s.acked == {} && s.leaked == {} && s.jobs == map[] && s.version == None && s.synced
    && s.fs.journal == [] && s.fs.dir == s.fs.durable
    && (env.target in s.fs.dir ==> s.fs.dir[env.target] in s.fs.files && s.fs.files[s.fs.dir[env.target]].synced)
    && FS.Visible(s.fs, env.target) == previous
  }

  ghost predicate IsRun(env: Env, s: State, run: seq<Action>)
    decreases |run|
  {
    run != [] ==> Enabled(env, s, run[0]) && IsRun(env, Step(env, s, run[0]), run[1..])
  }

  ghost function After(env: Env, s: State, run: seq<Action>): State
    requires IsRun(env, s, run)
    decreases |run|
  {
    if run == [] then s else After(env, Step(env, s, run[0]), run[1..])
  }
}
