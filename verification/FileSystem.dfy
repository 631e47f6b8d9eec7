/**
 One directory of a POSIX file system with its volatile and durable halves.  Processes see
 `dir` and the files' data.  A crash keeps the directory operations of some prefix of the
 journal; a file that was not fsync'd since its last write may come back as anything.
 */
module FileSystem {
  import opened Wrappers

  type Bytes = seq<char>
  datatype Name = Name(text: string)
  type Inode = nat

  datatype File = File(data: Bytes, synced: bool)

  datatype DirOp =
    | Bind(name: Name, inode: Inode)
    | Move(source: Name, target: Name, inode: Inode)
    | Unbind(name: Name)

  type Dir = map<Name, Inode>

  datatype FS = FS(files: map<Inode, File>, dir: Dir, durable: Dir, journal: seq<DirOp>)

  function Perform(d: Dir, op: DirOp): Dir {
    match op
    case Bind(n, i) => d[n := i]
    case Move(s, t, i) => (d - {s})[t := i]
    case Unbind(n) => d - {n}
  }

  function Replay(d: Dir, ops: seq<DirOp>): Dir {
    if ops == [] then d else Perform(Replay(d, ops[..|ops| - 1]), ops[|ops| - 1])
  }

  /** What a process reads under a name. */
  function Visible(fs: FS, n: Name): Option<Bytes> {
    if n in fs.dir && fs.dir[n] in fs.files then Some(fs.files[fs.dir[n]].data) else None
  }

  /** After a crash in this state, the name may read as c (None: no such file). */
  ghost predicate CanSurvive(fs: FS, n: Name, c: Option<Bytes>) {
    exists k :: 0 <= k <= |fs.journal| && SurvivesAt(fs, n, c, k)
  }

  ghost predicate SurvivesAt(fs: FS, n: Name, c: Option<Bytes>, k: nat)
    requires k <= |fs.journal|
  {
    var d := Replay(fs.durable, fs.journal[..k]);
    if n !in d then c == None
    else c.Some? && (d[n] in fs.files && fs.files[d[n]].synced ==> c.value == fs.files[d[n]].data)
  }

  // ---- operations ----

  function Log(fs: FS, op: DirOp): FS {
    fs.(dir := Perform(fs.dir, op), journal := fs.journal + [op])
  }

  /** os.CreateTemp: a name and an inode not in use. */
  function CreateTemp(fs: FS, n: Name, i: Inode): FS {
    Log(fs, Bind(n, i)).(files := fs.files[i := File([], false)])
  }

  function Write(fs: FS, i: Inode, data: Bytes): FS {
    fs.(files := fs.files[i := File(data, false)])
  }

  function Fsync(fs: FS, i: Inode): FS {
    if i in fs.files then fs.(files := fs.files[i := fs.files[i].(synced := true)]) else fs
  }

  function Rename(fs: FS, s: Name, t: Name): FS {
    if s in fs.dir then Log(fs, Move(s, t, fs.dir[s])) else fs
  }

  function Remove(fs: FS, n: Name): FS {
    if n in fs.dir then Log(fs, Unbind(n)) else fs
  }

  /** The first k journalled directory operations reach the disk; all of them on a directory fsync. */
  function Flush(fs: FS, k: nat): FS
    requires k <= |fs.journal|
  {
    fs.(durable := Replay(fs.durable, fs.journal[..k]), journal := fs.journal[k..])
  }

  lemma {:induction false} ReplayConcat(d: Dir, xs: seq<DirOp>, ys: seq<DirOp>)
    ensures Replay(d, xs + ys) == Replay(Replay(d, xs), ys)
    decreases |ys|
  {
    if ys == [] {
      assert xs + ys == xs;
    } else {
      assert (xs + ys)[..|xs + ys| - 1] == xs + ys[..|ys| - 1];
      ReplayConcat(d, xs, ys[..|ys| - 1]);
    }
  }

  lemma ReplaySnoc(d: Dir, ops: seq<DirOp>, op: DirOp)
    ensures Replay(d, ops + [op]) == Perform(Replay(d, ops), op)
  {
    assert (ops + [op])[..|ops|] == ops;
  }
}
