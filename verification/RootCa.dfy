/** The root CA, its persisted form, and the decoder that accepts both shapes of key bytes. */
module RootCa {
  import opened Wrappers

  type Bytes = seq<char>

  datatype Key = Key(scalar: int)
  datatype Cert = Cert(body: string, notAfter: int)
  datatype CA = CA(privateKey: Key, cert: Cert, serial: int)
  datatype Root = Root(keyDER: Bytes, certPEM: Bytes, serial: int, expiresAt: int)

  /** What a PKCS#8 block holds. */
  datatype Pkcs8 = EC(key: Key) | OtherKey

  /** The x509, pem and age libraries; `decrypt` is None when no envelope is configured. */
  datatype Codec = Codec(
    marshalEC: Key -> Bytes,
    parseEC: Bytes -> Option<Key>,
    parsePKCS8: Bytes -> Option<Pkcs8>,
    pemDecode: Bytes -> Option<Bytes>,
    encodeCert: Cert -> Bytes,
    parseCert: Bytes -> Option<Cert>,
    decrypt: Option<Bytes -> Option<Bytes>>)

  /** The libraries' own round trips. */
  ghost predicate Lawful(c: Codec) {
    && (forall k :: c.marshalEC(k) != [] && c.parseEC(c.marshalEC(k)) == Some(k))
    && (forall x :: c.parseCert(c.encodeCert(x)) == Some(x))
  }

  const PEM_MARKER: Bytes := "-----BEGIN"

  function DecodeOpened(c: Codec, plain: Bytes): Option<Key> {
    var block := c.pemDecode(plain);
    if PEM_MARKER <= plain && block.Some? then
      if c.parseEC(block.value).Some? then c.parseEC(block.value)
      else match c.parsePKCS8(block.value)
        case Some(EC(k)) => Some(k)
        case _ => None
    else c.parseEC(plain)
  }

  /** decodeKeyDER: plaintext DER first, the envelope only when that fails. */
  function DecodeKey(c: Codec, der: Bytes): Option<Key> {
    if |der| == 0 then None
    else if c.parseEC(der).Some? then c.parseEC(der)
    else if c.decrypt.None? then None
    else match c.decrypt.value(der)
      case Some(plain) => DecodeOpened(c, plain)
      case None => None
  }

  /** persistedToCA. */
  function Hydrate(c: Codec, r: Root): Option<CA> {
    match (c.parseCert(r.certPEM), DecodeKey(c, r.keyDER))
    case (Some(cert), Some(key)) => Some(CA(key, cert, r.serial))
    case _ => None
  }

  function Persisted(c: Codec, ca: CA): Root {
    Root(c.marshalEC(ca.privateKey), c.encodeCert(ca.cert), ca.serial, ca.cert.notAfter)
  }

  /** What the panel saves it reads back as the same CA, whatever envelope is configured later. */
  lemma PersistRoundTrip(c: Codec, ca: CA)
    requires Lawful(c)
    ensures Hydrate(c, Persisted(c, ca)) == Some(ca)
  {
    assert c.parseEC(c.marshalEC(ca.privateKey)) == Some(ca.privateKey);
  }

  /** The decrypted bytes are a PEM block of SEC1, or else of PKCS#8, or they are SEC1 themselves. */
  ghost predicate HoldsKey(c: Codec, plain: Bytes, k: Key) {
    if exists block :: "-----BEGIN" <= plain && c.pemDecode(plain) == Some(block) then
      exists block :: c.pemDecode(plain) == Some(block) &&
        (c.parseEC(block) == Some(k) || (c.parseEC(block) == None && c.parsePKCS8(block) == Some(EC(k))))
    else c.parseEC(plain) == Some(k)
  }

  /** The bytes are SEC1, or else what the configured envelope opens to a key. */
  ghost predicate StandsFor(c: Codec, der: Bytes, k: Key) {
    && der != []
    && (c.parseEC(der) == Some(k)
        || (c.parseEC(der) == None && c.decrypt.Some?
            && exists plain :: c.decrypt.value(der) == Some(plain) && HoldsKey(c, plain, k)))
  }

  /** The decoder accepts exactly these shapes. */
  lemma DecodeKeyExactly(c: Codec, der: Bytes, k: Key)
    ensures DecodeKey(c, der) == Some(k) <==> StandsFor(c, der, k)
  {
  }

  /** A root whose key was sealed by hand is read back as the same CA by a panel with the envelope, and by no other. */
  lemma SealedRoundTrip(c: Codec, ca: CA, sealed: Bytes, plain: Bytes)
    requires Lawful(c) && HoldsKey(c, plain, ca.privateKey)
    requires sealed != [] && c.parseEC(sealed) == None && (c.decrypt.Some? ==> c.decrypt.value(sealed) == Some(plain))
    ensures
      var r := Root(sealed, c.encodeCert(ca.cert), ca.serial, ca.cert.notAfter);
      Hydrate(c, r) == if c.decrypt.Some? then Some(ca) else None
  {
    assert c.parseCert(c.encodeCert(ca.cert)) == Some(ca.cert);
    if c.decrypt.Some? {
      DecodeKeyExactly(c, sealed, ca.privateKey);
    }
  }

  datatype Error = NotFound | LoadFailed | HydrateFailed | GenerateFailed | PersistFailed

  class MemoryStore {
    var root: Option<Root>

    constructor ()
      ensures root == None
    {
      root := None;
    }

    method GetRoot() returns (r: Result<Root, Error>)
      ensures r == if root.Some? then Ok(root.value) else Err(NotFound)
    {
      if root.None? {
        return Err(NotFound);
      }
      return Ok(root.value);
    }

    method SaveRoot(r: Root)
      modifies this
      ensures root == Some(r)
    {
      root := Some(r);
    }
  }
}

/**
 EnsureRoot, Invalidate and RootCertPEM run by any number of goroutines of one process:
 every lock operation, store call and assignment is a step of its own.
 */
module RootCaProtocol {
  import opened Wrappers
  import opened RootCa

  type Pid = nat

  datatype Kind = Ensuring | Invalidating | ReadingCert

  /** The next thing a goroutine will do. */
  datatype Pc =
    | RLock(kind: Kind)
    | ReadCache(kind: Kind)
    | RUnlock(kind: Kind, found: Option<CA>)
    | Lock(kind: Kind)
    | Recheck
    | GetRoot
    | HydrateRoot(root: Root)
    | Generate
    | SaveRoot(ca: CA)
    | SetCache(ca: CA)
    | ClearCache
    | Unlock(result: Result<CA, Error>)
    | Done(result: Result<CA, Error>)   // Invalidate, which returns nothing, ends with Err(NotFound)

  /** How a store write can end; a lost answer is an error although the row was written. */
  datatype SaveEnd = Saved | Refused | SavedButLost

  datatype State = State(
    stored: Option<Root>,
    cached: Option<CA>,
    writer: Option<Pid>,
    readers: set<Pid>,
    procs: map<Pid, Pc>,
    persisted: seq<Root>   // history: every root the store was made to hold
  )

  datatype Action =
    | Begin(pid: Pid, kind: Kind)
    | Go(pid: Pid)
    | Load(pid: Pid, ok: bool)
    | Make(pid: Pid, ca: Option<CA>)
    | Save(pid: Pid, end: SaveEnd)

  predicate Enabled(s: State, a: Action) {
    match a
    case Begin(p, _) => p !in s.procs
    case Go(p) =>
      && p in s.procs
      && (match s.procs[p]
          case RLock(_) => s.writer == None
          case Lock(_) => s.writer == None && s.readers == {}
          case GetRoot => false
          case Generate => false
          case SaveRoot(_) => false
          case Done(_) => false
          case _ => true)
    case Load(p, _) => p in s.procs && s.procs[p].GetRoot?
    case Make(p, _) => p in s.procs && s.procs[p].Generate?
    case Save(p, _) => p in s.procs && s.procs[p].SaveRoot?
  }

  function Goto(s: State, p: Pid, pc: Pc): State {
    s.(procs := s.procs[p := pc])
  }

  function GoStep(c: Codec, s: State, p: Pid): State
    requires Enabled(s, Go(p))
  {
    match s.procs[p]
    case RLock(k) => Goto(s, p, ReadCache(k)).(readers := s.readers + {p})
    case ReadCache(k) => Goto(s, p, RUnlock(k, s.cached))
    case RUnlock(k, found) =>
      Goto(s, p, if found.Some? then Done(Ok(found.value))
                 else if k == Ensuring then Lock(k) else Done(Err(NotFound))).(readers := s.readers - {p})
    case Lock(k) => Goto(s, p, if k == Ensuring then Recheck else ClearCache).(writer := Some(p))
    case Recheck => Goto(s, p, if s.cached.Some? then Unlock(Ok(s.cached.value)) else GetRoot)
    case HydrateRoot(r) =>
      (match Hydrate(c, r)
       case Some(ca) => Goto(s, p, SetCache(ca))
       case None => Goto(s, p, Unlock(Err(HydrateFailed))))
    case SetCache(ca) => Goto(s, p, Unlock(Ok(ca))).(cached := Some(ca))
    case ClearCache => Goto(s, p, Unlock(Err(NotFound))).(cached := None)
    case Unlock(r) => Goto(s, p, Done(r)).(writer := None)
  }

  function Step(c: Codec, s: State, a: Action): State
    requires Enabled(s, a)
  {
    match a
    case Begin(p, k) => Goto(s, p, if k == Invalidating then Lock(k) else RLock(k))
    case Go(p) => GoStep(c, s, p)
    case Load(p, ok) =>
      Goto(s, p, if !ok then Unlock(Err(LoadFailed))
                 else if s.stored.Some? then HydrateRoot(s.stored.value) else Generate)
    case Make(p, ca) => Goto(s, p, if ca.Some? then SaveRoot(ca.value) else Unlock(Err(GenerateFailed)))
    case Save(p, end) =>
      var ca := s.procs[p].ca;
      var t := Goto(s, p, if end.Saved? then SetCache(ca) else Unlock(Err(PersistFailed)));
      if end.Refused? then t
      else t.(stored := Some(Persisted(c, ca)), persisted := s.persisted + [Persisted(c, ca)])
  }

  function Init(stored: Option<Root>): State {
    State(stored, None, None, {}, map[], [])
  }

  ghost predicate IsRun(c: Codec, s: State, run: seq<Action>)
    decreases |run|
  {
    run != [] ==> Enabled(s, run[0]) && IsRun(c, Step(c, s, run[0]), run[1..])
  }

  ghost function After(c: Codec, s: State, run: seq<Action>): State
    requires IsRun(c, s, run)
    decreases |run|
  {
    if run == [] then s else After(c, Step(c, s, run[0]), run[1..])
  }

  // ---- the invariant ----

  predicate HoldsWriteLock(pc: Pc) {
    pc.Recheck? || pc.GetRoot? || pc.HydrateRoot? || pc.Generate? || pc.SaveRoot? || pc.SetCache? || pc.ClearCache? || pc.Unlock?
  }

  predicate HoldsReadLock(pc: Pc) {
    pc.ReadCache? || pc.RUnlock?
  }

  ghost predicate LocksHeld(s: State) {
    && (forall p :: p in s.procs ==> (HoldsWriteLock(s.procs[p]) <==> s.writer == Some(p)))
    && (forall p :: p in s.procs ==> (HoldsReadLock(s.procs[p]) <==> p in s.readers))
    && (s.writer.Some? ==> s.writer.value in s.procs && s.readers == {})
    && s.readers <= s.procs.Keys
  }

  /** The one root there is. */
  ghost predicate IsRoot(c: Codec, s: State, ca: CA) {
    s.stored.Some? && Hydrate(c, s.stored.value) == Some(ca)
  }

  ghost predicate KnowsRoot(c: Codec, s: State, pc: Pc) {
    match pc
    case RUnlock(_, found) => found.Some? ==> IsRoot(c, s, found.value)
    case HydrateRoot(r) => s.stored == Some(r)
    case Generate => s.stored == None
    case SaveRoot(_) => s.stored == None
    case SetCache(ca) => IsRoot(c, s, ca)
    case Unlock(r) => r.Ok? ==> IsRoot(c, s, r.value)
    case Done(r) => r.Ok? ==> IsRoot(c, s, r.value)
    case _ => true
  }

  ghost predicate Inv(c: Codec, initial: Option<Root>, s: State) {
    && LocksHeld(s)
    && (s.cached.Some? ==> IsRoot(c, s, s.cached.value))
    && (forall p :: p in s.procs ==> KnowsRoot(c, s, s.procs[p]))
    && (initial.Some? ==> s.persisted == [] && s.stored == initial)
    && (initial.None? ==> |s.persisted| <= 1 && s.stored == if s.persisted == [] then None else Some(s.persisted[0]))
  }

  lemma LocksKept(c: Codec, s: State, a: Action)
    requires Enabled(s, a) && LocksHeld(s)
    ensures LocksHeld(Step(c, s, a))
  {
  }

  /** The store is written only by a goroutine that found it empty. */
  lemma SaveFindsEmpty(c: Codec, initial: Option<Root>, s: State, p: Pid)
    requires Enabled(s, Save(p, Saved)) && Inv(c, initial, s)
    ensures s.stored == None
  {
    assert KnowsRoot(c, s, s.procs[p]);
  }

  lemma RootStays(c: Codec, initial: Option<Root>, s: State, a: Action, ca: CA)
    requires Enabled(s, a) && Inv(c, initial, s) && IsRoot(c, s, ca)
    ensures IsRoot(c, Step(c, s, a), ca)
  {
    if a.Save? {
      SaveFindsEmpty(c, initial, s, a.pid);
    }
  }

  lemma OwnKnowledge(c: Codec, initial: Option<Root>, s: State, a: Action)
    requires Lawful(c) && Enabled(s, a) && Inv(c, initial, s)
    ensures KnowsRoot(c, Step(c, s, a), Step(c, s, a).procs[a.pid])
  {
    if a.pid in s.procs {
      assert KnowsRoot(c, s, s.procs[a.pid]);
    }
    if a.Save? {
      PersistRoundTrip(c, s.procs[a.pid].ca);
    }
  }

  lemma OthersKnowledge(c: Codec, initial: Option<Root>, s: State, a: Action, q: Pid)
    requires Enabled(s, a) && Inv(c, initial, s) && q in s.procs && q != a.pid
    ensures q in Step(c, s, a).procs && Step(c, s, a).procs[q] == s.procs[q]
    ensures KnowsRoot(c, Step(c, s, a), s.procs[q])
  {
    assert KnowsRoot(c, s, s.procs[q]);
    if a.Save? {
      assert KnowsRoot(c, s, s.procs[a.pid]);
      assert s.writer == Some(a.pid) && !HoldsWriteLock(s.procs[q]);
    } else {
      assert Step(c, s, a).stored == s.stored;
    }
  }

  lemma InvKept(c: Codec, initial: Option<Root>, s: State, a: Action)
    requires Lawful(c) && Enabled(s, a) && Inv(c, initial, s)
    ensures Inv(c, initial, Step(c, s, a))
  {
    LocksKept(c, s, a);
    OwnKnowledge(c, initial, s, a);
    var t := Step(c, s, a);
    forall q | q in t.procs
      ensures KnowsRoot(c, t, t.procs[q])
    {
      if q != a.pid {
        OthersKnowledge(c, initial, s, a, q);
      }
    }
    if a.Save? {
      assert KnowsRoot(c, s, s.procs[a.pid]);
    }
    if s.cached.Some? {
      RootStays(c, initial, s, a, s.cached.value);
    }
    if a.Go? {
      assert KnowsRoot(c, s, s.procs[a.pid]);
    }
  }

  lemma {:induction false} InvAfter(c: Codec, initial: Option<Root>, s: State, run: seq<Action>)
    requires Lawful(c) && Inv(c, initial, s) && IsRun(c, s, run)
    ensures Inv(c, initial, After(c, s, run))
    decreases |run|
  {
    if run != [] {
      InvKept(c, initial, s, run[0]);
      InvAfter(c, initial, Step(c, s, run[0]), run[1..]);
    }
  }

  /**
   In any interleaving within one process: at most one root is ever written, and none over
   an existing one; every call that succeeds returns that root; a populated cache agrees
   with the store; and the write lock is exclusive.
   */
  lemma OneRoot(c: Codec, initial: Option<Root>, run: seq<Action>, p: Pid, q: Pid)
    requires Lawful(c) && IsRun(c, Init(initial), run)
    ensures
      var s := After(c, Init(initial), run);
      && |s.persisted| <= (if initial.None? then 1 else 0)
      && s.stored == (if s.persisted == [] then initial else Some(s.persisted[0]))
      && (s.cached.Some? ==> s.stored.Some? && Hydrate(c, s.stored.value) == s.cached)
      && (p in s.procs && s.procs[p].Done? && s.procs[p].result.Ok? ==>
            s.stored.Some? && Hydrate(c, s.stored.value) == Some(s.procs[p].result.value))
      && (p in s.procs && q in s.procs && HoldsWriteLock(s.procs[p]) ==>
            !HoldsReadLock(s.procs[q]) && (HoldsWriteLock(s.procs[q]) ==> p == q))
  {
    InvAfter(c, initial, Init(initial), run);
    var s := After(c, Init(initial), run);
    if p in s.procs {
      assert KnowsRoot(c, s, s.procs[p]);
    }
  }
}

/** The service's methods as the sequential code they are, each proved to be a run of the protocol. */
module RootCaService {
  import opened Wrappers
  import opened RootCa
  import opened RootCaProtocol

  lemma {:induction false} RunConcat(c: Codec, s: State, run: seq<Action>, more: seq<Action>)
    requires IsRun(c, s, run) && IsRun(c, After(c, s, run), more)
    ensures IsRun(c, s, run + more) && After(c, s, run + more) == After(c, After(c, s, run), more)
    decreases |run|
  {
    if run == [] {
      assert run + more == more;
    } else {
      RunConcat(c, Step(c, s, run[0]), run[1..], more);
      assert (run + more)[0] == run[0] && (run + more)[1..] == run[1..] + more;
    }
  }

  /** A run that leads the protocol from s to t; every step of it is goroutine p's. */
  ghost predicate Leads(c: Codec, s: State, run: seq<Action>, t: State, p: Pid) {
    IsRun(c, s, run) && After(c, s, run) == t && forall i :: 0 <= i < |run| ==> run[i].pid == p
  }

  ghost method Follow(c: Codec, s: State, run: seq<Action>, t: State, a: Action) returns (longer: seq<Action>, next: State)
    requires Leads(c, s, run, t, a.pid) && Enabled(t, a)
    ensures Leads(c, s, longer, next, a.pid) && next == Step(c, t, a)
  {
    assert [a][1..] == [];
    assert IsRun(c, t, [a]);
    RunConcat(c, s, run, [a]);
    return run + [a], Step(c, t, a);
  }

  /** No goroutine holds the lock, and p is a new one. */
  ghost predicate Free(s: State, p: Pid) {
    s.writer == None && s.readers == {} && p !in s.procs
  }

  ghost predicate Ended(t: State, p: Pid, r: Result<CA, Error>) {
    p in t.procs && t.procs[p] == Done(r) && t.writer == None && t.readers == {}
  }

  class Service {
    const store: MemoryStore
    const codec: Codec
    var cachedRoot: Option<CA>

    /** A populated cache agrees with the store. */
    ghost predicate Valid() reads this, store {
      cachedRoot.Some? ==> store.root.Some? && Hydrate(codec, store.root.value) == cachedRoot
    }

    ghost predicate Shows(s: State) reads this, store {
      s.stored == store.root && s.cached == cachedRoot
    }

    constructor (store: MemoryStore, codec: Codec)
      ensures Valid() && this.store == store && this.codec == codec && cachedRoot == None
    {
      this.store := store;
      this.codec := codec;
      cachedRoot := None;
    }

    /** `generated` is what NewRootCA would return. */
    method EnsureRoot(generated: Option<CA>, ghost s: State, ghost p: Pid)
      returns (r: Result<CA, Error>, ghost run: seq<Action>, ghost t: State)
      requires Valid() && Lawful(codec) && Shows(s) && Free(s, p)
      modifies this, store
      ensures Valid() && Leads(codec, s, run, t, p) && Shows(t) && Ended(t, p, r)
      ensures old(store.root).Some? ==> store.root == old(store.root)
      ensures r.Ok? ==> store.root.Some? && Hydrate(codec, store.root.value) == Some(r.value) && cachedRoot == Some(r.value)
      ensures r.Err? ==> cachedRoot == None && store.root == old(store.root)
      ensures r.Ok? <==> if old(store.root).Some? then Hydrate(codec, old(store.root).value).Some? else generated.Some?
      ensures r.Err? ==> r.error == if old(store.root).Some? then HydrateFailed else GenerateFailed
      ensures old(store.root).None? && generated.Some? ==>
        var ca := generated.value;
        && r == Ok(ca)
        && store.root == Some(Root(codec.marshalEC(ca.privateKey), codec.encodeCert(ca.cert), ca.serial, ca.cert.notAfter))
    {
      run, t := ReadUnderLock(Ensuring, s, p);
      if cachedRoot.Some? {
        return Ok(cachedRoot.value), run, t;
      }
      run, t := Follow(codec, s, run, t, Go(p));
      run, t := Follow(codec, s, run, t, Go(p));  // nobody else has filled the cache
      run, t := Follow(codec, s, run, t, Load(p, true));
      r, run, t := LoadOrCreate(generated, s, p, run, t);
      run, t := Follow(codec, s, run, t, Go(p));
    }

    /** The read lock around one look at the cache. */
    ghost method ReadUnderLock(kind: Kind, s: State, p: Pid) returns (run: seq<Action>, t: State)
      requires Shows(s) && Free(s, p) && kind != Invalidating
      ensures Leads(codec, s, run, t, p) && Shows(t) && t.writer == None && t.readers == {}
      ensures p in t.procs && t.procs[p] ==
        if cachedRoot.Some? then Done(Ok(cachedRoot.value)) else if kind == Ensuring then Lock(kind) else Done(Err(NotFound))
    {
      assert Leads(codec, s, [], s, p);
      run, t := Follow(codec, s, [], s, Begin(p, kind));
      run, t := Follow(codec, s, run, t, Go(p));
      run, t := Follow(codec, s, run, t, Go(p));
      run, t := Follow(codec, s, run, t, Go(p));
    }

    /** Under the write lock, the store asked: hydrate what it has, or generate and save. */
    method LoadOrCreate(generated: Option<CA>, ghost s: State, ghost p: Pid, ghost run0: seq<Action>, ghost t0: State)
      returns (r: Result<CA, Error>, ghost run: seq<Action>, ghost t: State)
      requires cachedRoot.None? && Lawful(codec) && Leads(codec, s, run0, t0, p) && Shows(t0) && t0.readers == {}
      requires p in t0.procs && t0.procs[p] == if store.root.Some? then HydrateRoot(store.root.value) else Generate
      modifies this, store
      ensures Valid() && Leads(codec, s, run, t, p) && Shows(t) && t.readers == {} && p in t.procs && t.procs[p] == Unlock(r)
      ensures old(store.root).Some? ==> store.root == old(store.root)
      ensures r.Ok? ==> store.root.Some? && Hydrate(codec, store.root.value) == Some(r.value) && cachedRoot == Some(r.value)
      ensures r.Err? ==> cachedRoot == None && store.root == old(store.root)
      ensures r.Ok? <==> if old(store.root).Some? then Hydrate(codec, old(store.root).value).Some? else generated.Some?
      ensures r.Err? ==> r.error == if old(store.root).Some? then HydrateFailed else GenerateFailed
      ensures old(store.root).None? && generated.Some? ==>
        var ca := generated.value;
        && r == Ok(ca)
        && store.root == Some(Root(codec.marshalEC(ca.privateKey), codec.encodeCert(ca.cert), ca.serial, ca.cert.notAfter))
    {
      run, t := run0, t0;
      var persisted := store.GetRoot();
      if persisted.Ok? {
        run, t := Follow(codec, s, run, t, Go(p));
        var ca := Hydrate(codec, persisted.value);
        if ca.None? {
          return Err(HydrateFailed), run, t;
        }
        run, t := Follow(codec, s, run, t, Go(p));
        cachedRoot := ca;
        return Ok(ca.value), run, t;
      }
      run, t := Follow(codec, s, run, t, Make(p, generated));
      if generated.None? {
        return Err(GenerateFailed), run, t;
      }
      PersistRoundTrip(codec, generated.value);
      run, t := Follow(codec, s, run, t, Save(p, Saved));
      store.SaveRoot(Persisted(codec, generated.value));
      run, t := Follow(codec, s, run, t, Go(p));
      cachedRoot := generated;
      return Ok(generated.value), run, t;
    }

    method Invalidate(ghost s: State, ghost p: Pid) returns (ghost run: seq<Action>, ghost t: State)
      requires Valid() && Shows(s) && Free(s, p)
      modifies this
      ensures Valid() && Leads(codec, s, run, t, p) && Shows(t) && Ended(t, p, Err(NotFound))
      ensures cachedRoot == None
    {
      assert Leads(codec, s, [], s, p);
      run, t := Follow(codec, s, [], s, Begin(p, Invalidating));
      run, t := Follow(codec, s, run, t, Go(p));
      run, t := Follow(codec, s, run, t, Go(p));
      cachedRoot := None;
      run, t := Follow(codec, s, run, t, Go(p));
    }

    /** What it serves is the certificate of the root in the store, as the panel saved it. */
    method RootCertPEM(ghost s: State, ghost p: Pid) returns (r: Result<Bytes, Error>, ghost run: seq<Action>, ghost t: State)
      requires Valid() && Shows(s) && Free(s, p)
      ensures Leads(codec, s, run, t, p) && Shows(t)
      ensures Ended(t, p, if cachedRoot.Some? then Ok(cachedRoot.value) else Err(NotFound))
      ensures r.Err? <==> cachedRoot.None?
      ensures r.Ok? ==>
        && store.root.Some? && Hydrate(codec, store.root.value).Some?
        && r.value == codec.encodeCert(Hydrate(codec, store.root.value).value.cert)
      ensures r.Ok? && Lawful(codec) ==>
        forall ca :: store.root == Some(Persisted(codec, ca)) ==> r.value == store.root.value.certPEM
    {
      run, t := ReadUnderLock(ReadingCert, s, p);
      if cachedRoot.None? {
        return Err(NotFound), run, t;
      }
      forall ca | Lawful(codec) && store.root == Some(Persisted(codec, ca))
        ensures cachedRoot == Some(ca)
      {
        PersistRoundTrip(codec, ca);
      }
      return Ok(codec.encodeCert(cachedRoot.value.cert)), run, t;
    }
  }

  /** A root that was ensured once is the root a restarted panel serves, whatever it could have generated by then. */
  method RestartKeepsRoot(codec: Codec, generated: Option<CA>, later: Option<CA>)
    returns (first: Result<CA, Error>, second: Result<CA, Error>)
    requires Lawful(codec)
    ensures first.Ok? <==> generated.Some?
    ensures first.Ok? ==> second == first
  {
    var store := new MemoryStore();
    var before := new Service(store, codec);
    ghost var run, t;
    first, run, t := before.EnsureRoot(generated, Init(None), 0);
    ghost var stored := store.root;
    var after := new Service(store, codec);
    second, run, t := after.EnsureRoot(later, Init(stored), 0);
  }
}
