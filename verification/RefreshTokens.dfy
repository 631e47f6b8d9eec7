/**
 The refresh-token table of the auth package, as seen through the Store interface.
 A token is named by its hash: the hash is taken to be injective, so the two are not
 told apart.  Both backends keep the same columns; they differ at the expiry instant,
 in what they do with an expired token, and in what a second save of one hash does.
 */
module RefreshTokens {
  import opened Wrappers

  datatype UserId = UserId(uuid: string)
  datatype Hash = Hash(hex: string)
  type Instant = int

  /** Thirty days, in seconds. */
  const REFRESH_TOKEN_TTL: nat := 30 * 24 * 3600

  datatype Entry = Entry(userID: UserId, expiresAt: Instant, used: bool)

  type Tokens = map<Hash, Entry>

  datatype Backend = InMemory | Postgres

  /** The in-memory store asks `now.After(expiresAt)`, the SQL store `expires_at > NOW()`. */
  predicate Expired(b: Backend, e: Entry, now: Instant) {
    match b
    case InMemory => now > e.expiresAt
    case Postgres => !(e.expiresAt > now)
  }

  predicate Acceptable(b: Backend, m: Tokens, hash: Hash, now: Instant) {
    hash in m && !m[hash].used && !Expired(b, m[hash], now)
  }

  /** The table after SaveRefresh, and whether the store reported success. */
  function Save(b: Backend, m: Tokens, userID: UserId, hash: Hash, expiresAt: Instant): (Tokens, bool) {
    if b == Postgres && hash in m then (m, false)  // UNIQUE (token_hash)
    else (m[hash := Entry(userID, expiresAt, false)], true)
  }

  /** The table after ConsumeRefresh, and the owner when the token was accepted. */
  function Consume(b: Backend, m: Tokens, hash: Hash, now: Instant): (Tokens, Option<UserId>) {
    if hash !in m || m[hash].used then (m, None)
    else if Expired(b, m[hash], now) then (if b == InMemory then m - {hash} else m, None)
    else (m[hash := m[hash].(used := true)], Some(m[hash].userID))
  }

  function RevokedEntry(b: Backend, e: Entry, userID: UserId, now: Instant): Entry {
    if e.userID == userID && !e.used && !Expired(b, e, now) then e.(used := true) else e
  }

  function RevokeChain(b: Backend, m: Tokens, userID: UserId, now: Instant): Tokens {
    map hash | hash in m :: RevokedEntry(b, m[hash], userID, now)
  }

  function RevokeOne(m: Tokens, hash: Hash): Tokens {
    if hash in m then m[hash := m[hash].(used := true)] else m
  }

  function FindUser(m: Tokens, hash: Hash): Option<UserId> {
    if hash in m then Some(m[hash].userID) else None
  }
}

/**
 Where the two backends agree.  Both run the same sequential history of store calls.
 */
module RefreshStoreEquivalence {
  import opened Wrappers
  import opened RefreshTokens

  datatype Call =
    | SaveCall(userID: UserId, hash: Hash, expiresAt: Instant)
    | ConsumeCall(hash: Hash)
    | RevokeChainCall(userID: UserId)
    | RevokeOneCall(hash: Hash)
    | FindCall(hash: Hash)

  datatype Timed = Timed(call: Call, now: Instant)

  datatype Reply = Ack(ok: bool) | Owner(userID: Option<UserId>)

  function Perform(b: Backend, m: Tokens, t: Timed): (Tokens, Reply) {
    match t.call
    case SaveCall(u, h, e) => var r := Save(b, m, u, h, e); (r.0, Ack(r.1))
    case ConsumeCall(h) => var r := Consume(b, m, h, t.now); (r.0, Owner(r.1))
    case RevokeChainCall(u) => (RevokeChain(b, m, u, t.now), Ack(true))
    case RevokeOneCall(h) => (RevokeOne(m, h), Ack(true))
    case FindCall(h) => (m, Owner(FindUser(m, h)))
  }

  function Run(b: Backend, m: Tokens, history: seq<Timed>): (Tokens, seq<Reply>)
    decreases |history|
  {
    if history == [] then (m, [])
    else
      var first := Perform(b, m, history[0]);
      var rest := Run(b, first.0, history[1..]);
      (rest.0, [first.1] + rest.1)
  }

  /** The three situations, each visible in the table before the call, that tell the backends apart. */
  ghost predicate Separates(m: Tokens, t: Timed) {
    match t.call
    case SaveCall(_, h, _) => h in m
    case ConsumeCall(h) => h in m && !m[h].used && t.now >= m[h].expiresAt
    case RevokeChainCall(u) => exists h :: h in m && m[h].userID == u && !m[h].used && m[h].expiresAt == t.now
    case RevokeOneCall(_) => false
    case FindCall(_) => false
  }

  ghost predicate Inseparable(m: Tokens, history: seq<Timed>)
    decreases |history|
  {
    history != [] ==>
      !Separates(m, history[0]) && Inseparable(Perform(InMemory, m, history[0]).0, history[1..])
  }

  /** One call: same table and same reply exactly when no separating situation holds. */
  lemma CallAgreesExactly(m: Tokens, t: Timed)
    ensures Perform(InMemory, m, t) == Perform(Postgres, m, t) <==> !Separates(m, t)
  {
    match t.call
    case SaveCall(_, _, _) =>
    case ConsumeCall(h) =>
      if h in m && !m[h].used && t.now > m[h].expiresAt {
        assert h !in Perform(InMemory, m, t).0 && h in Perform(Postgres, m, t).0;
      }
    case RevokeChainCall(u) =>
      var x, y := RevokeChain(InMemory, m, u, t.now), RevokeChain(Postgres, m, u, t.now);
      if Separates(m, t) {
        var h :| h in m && m[h].userID == u && !m[h].used && m[h].expiresAt == t.now;
        assert x[h].used && !y[h].used;
      } else {
        assert forall h :: h in m ==> x[h] == y[h];
        assert x == y;
      }
    case RevokeOneCall(_) =>
    case FindCall(_) =>
  }

  ghost predicate AgreeThroughout(m: Tokens, history: seq<Timed>) {
    forall n :: 0 <= n <= |history| ==> Run(InMemory, m, history[..n]) == Run(Postgres, m, history[..n])
  }

  lemma RunFirst(b: Backend, m: Tokens, history: seq<Timed>, n: nat)
    requires 1 <= n <= |history|
    ensures
      var first := Perform(b, m, history[0]);
      var rest := Run(b, first.0, history[1..][..n - 1]);
      Run(b, m, history[..n]) == (rest.0, [first.1] + rest.1)
  {
    assert history[..n][0] == history[0];
    assert history[..n][1..] == history[1..][..n - 1];
  }

  /** Whole histories: equal tables and equal replies after every call, exactly when no call separates. */
  lemma {:induction false} HistoriesAgreeExactly(m: Tokens, history: seq<Timed>)
    ensures AgreeThroughout(m, history) <==> Inseparable(m, history)
    decreases |history|
  {
    if history == [] {
      assert forall n :: 0 <= n <= |history| ==> history[..n] == [];
    } else {
      CallAgreesExactly(m, history[0]);
      var mem, pg := Perform(InMemory, m, history[0]), Perform(Postgres, m, history[0]);
      forall n: nat | 1 <= n <= |history|
        ensures Run(InMemory, m, history[..n]) == Run(Postgres, m, history[..n])
           <==> mem.1 == pg.1 && Run(InMemory, mem.0, history[1..][..n - 1]) == Run(Postgres, pg.0, history[1..][..n - 1])
      {
        RunFirst(InMemory, m, history, n);
        RunFirst(Postgres, m, history, n);
        var x, y := Run(InMemory, mem.0, history[1..][..n - 1]), Run(Postgres, pg.0, history[1..][..n - 1]);
        assert ([mem.1] + x.1)[0] == mem.1 && ([pg.1] + y.1)[0] == pg.1;
        assert ([mem.1] + x.1)[1..] == x.1 && ([pg.1] + y.1)[1..] == y.1;
      }
      assert history[..0] == [];
      if mem == pg {
        HistoriesAgreeExactly(mem.0, history[1..]);
        if AgreeThroughout(m, history) {
          forall k | 0 <= k <= |history[1..]|
            ensures Run(InMemory, mem.0, history[1..][..k]) == Run(Postgres, mem.0, history[1..][..k])
          {
            assert Run(InMemory, m, history[..k + 1]) == Run(Postgres, m, history[..k + 1]);
          }
        }
      } else {
        assert history[1..][..0] == [];
        assert !AgreeThroughout(m, history) by {
          assert Run(InMemory, m, history[..1]) != Run(Postgres, m, history[..1]);
        }
      }
    }
  }

  /** The in-memory table is the SQL table minus rows that have already expired. */
  ghost predicate Shadows(mem: Tokens, pg: Tokens, now: Instant) {
    && (forall h :: h in mem ==> h in pg && pg[h] == mem[h])
    && (forall h :: h in pg && h !in mem ==> pg[h].expiresAt < now)
  }

  /** Fresh hashes are saved, and no unused entry expires at the very instant of the call. */
  ghost predicate Ordinary(pg: Tokens, t: Timed) {
    && (t.call.SaveCall? ==> t.call.hash !in pg)
    && (forall h :: h in pg && !pg[h].used ==> pg[h].expiresAt != t.now)
  }

  ghost predicate OrdinaryHistory(pg: Tokens, last: Instant, history: seq<Timed>)
    decreases |history|
  {
    history != [] ==>
      && last <= history[0].now
      && Ordinary(pg, history[0])
      && OrdinaryHistory(Perform(Postgres, pg, history[0]).0, history[0].now, history[1..])
  }

  lemma ShadowsKept(mem: Tokens, pg: Tokens, last: Instant, t: Timed)
    requires Shadows(mem, pg, last) && last <= t.now && Ordinary(pg, t)
    ensures Shadows(Perform(InMemory, mem, t).0, Perform(Postgres, pg, t).0, t.now)
    ensures !t.call.FindCall? ==> Perform(InMemory, mem, t).1 == Perform(Postgres, pg, t).1
  {
  }

  /**
   Expired tokens may be presented too: then every reply still agrees except that of
   FindRefreshUser, which differs exactly on a row that the in-memory store has deleted.
   */
  lemma {:induction false} OnlyFindDiffers(mem: Tokens, pg: Tokens, last: Instant, history: seq<Timed>, k: nat)
    requires Shadows(mem, pg, last) && OrdinaryHistory(pg, last, history)
    requires k < |history|
    ensures |Run(InMemory, mem, history).1| == |Run(Postgres, pg, history).1| == |history|
    ensures
      var x, y := Run(InMemory, mem, history[..k]).0, Run(Postgres, pg, history[..k]).0;
      && Shadows(x, y, history[k].now)
      && (Run(InMemory, mem, history).1[k] == Run(Postgres, pg, history).1[k]
          <==> !(history[k].call.FindCall? && history[k].call.hash in y && history[k].call.hash !in x))
    decreases |history|
  {
    var t := history[0];
    ShadowsKept(mem, pg, last, t);
    var x, y := Perform(InMemory, mem, t), Perform(Postgres, pg, t);
    if |history| == 1 {
      assert history[1..] == [];
    } else {
      OnlyFindDiffers(x.0, y.0, t.now, history[1..], if k == 0 then 0 else k - 1);
    }
    if k == 0 {
      assert history[..0] == [];
    } else {
      RunFirst(InMemory, mem, history, k);
      RunFirst(Postgres, pg, history, k);
    }
  }
}
