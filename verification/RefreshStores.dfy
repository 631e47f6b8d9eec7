/**
 The two implementations of the refresh-token store.  Every method is one critical
 section (MemoryStore, under its mutex) or one SQL statement (PgStore).
 */
module RefreshStores {
  import opened Wrappers
  import opened RefreshTokens

  class MemoryStore {
    var refresh: Tokens

    constructor ()
      ensures refresh == map[]
    {
      refresh := map[];
    }

    method SaveRefresh(userID: UserId, tokenHash: Hash, expiresAt: Instant)
      modifies this
      ensures (refresh, true) == Save(InMemory, old(refresh), userID, tokenHash, expiresAt)
    {
      refresh := refresh[tokenHash := Entry(userID, expiresAt, false)];
    }

    method ConsumeRefresh(tokenHash: Hash, now: Instant) returns (owner: Option<UserId>)
      modifies this
      ensures (refresh, owner) == Consume(InMemory, old(refresh), tokenHash, now)
      ensures owner.Some? <==> tokenHash in old(refresh) && !old(refresh)[tokenHash].used && now <= old(refresh)[tokenHash].expiresAt
    {
      if tokenHash !in refresh {
        return None;
      }
      var entry := refresh[tokenHash];
      if entry.used {
        return None;
      }
      if now > entry.expiresAt {
        refresh := refresh - {tokenHash};
        return None;
      }
      entry := entry.(used := true);
      refresh := refresh[tokenHash := entry];
      return Some(entry.userID);
    }

    method RevokeChain(userID: UserId, now: Instant)
      modifies this
      ensures refresh == RefreshTokens.RevokeChain(InMemory, old(refresh), userID, now)
    {
      ghost var done := RefreshTokens.RevokeChain(InMemory, refresh, userID, now);
      var todo := refresh.Keys;
      while todo != {}
        invariant todo <= refresh.Keys == old(refresh).Keys
        invariant forall h :: h in refresh ==> refresh[h] == if h in todo then old(refresh)[h] else done[h]
      {
        var hash :| hash in todo;
        todo := todo - {hash};
        var entry := refresh[hash];
        if entry.userID != userID {
          continue;
        }
        if entry.used {
          continue;
        }
        if now > entry.expiresAt {
          continue;
        }
        entry := entry.(used := true);
        refresh := refresh[hash := entry];
      }
    }

    method RevokeOne(tokenHash: Hash)
      modifies this
      ensures refresh == RefreshTokens.RevokeOne(old(refresh), tokenHash)
    {
      if tokenHash !in refresh {
        return;
      }
      var entry := refresh[tokenHash];
      entry := entry.(used := true);
      refresh := refresh[tokenHash := entry];
    }

    method FindRefreshUser(tokenHash: Hash) returns (owner: Option<UserId>)
      ensures owner == FindUser(refresh, tokenHash)
    {
      if tokenHash !in refresh {
        return None;
      }
      return Some(refresh[tokenHash].userID);
    }
  }

  datatype Row = Row(userID: UserId, tokenHash: Hash, expiresAt: Instant, usedAt: Option<Instant>)

  /** The UNIQUE constraint on admin_refresh_tokens.token_hash. */
  ghost predicate UniqueHashes(rows: seq<Row>) {
    forall i, j :: 0 <= i < j < |rows| ==> rows[i].tokenHash != rows[j].tokenHash
  }

  /** The columns the Store interface exposes; `used_at IS NOT NULL` means used. */
  function Columns(r: Row): Entry {
    Entry(r.userID, r.expiresAt, r.usedAt.Some?)
  }

  /** The table as the Store interface sees it. */
  ghost function View(rows: seq<Row>): Tokens {
    if rows == [] then map[]
    else View(rows[..|rows| - 1])[rows[|rows| - 1].tokenHash := Columns(rows[|rows| - 1])]
  }

  lemma {:induction false} ViewOf(rows: seq<Row>)
    requires UniqueHashes(rows)
    ensures forall i :: 0 <= i < |rows| ==>
      rows[i].tokenHash in View(rows) && View(rows)[rows[i].tokenHash] == Columns(rows[i])
    ensures forall h :: h in View(rows) ==> exists i :: 0 <= i < |rows| && rows[i].tokenHash == h
  {
    if rows != [] {
      ViewOf(rows[..|rows| - 1]);
    }
  }

  /** A WHERE clause over the token_hash, user_id, expires_at and used_at columns. */
  type Where = (Hash, Entry) -> bool

  /** UPDATE admin_refresh_tokens SET used_at = NOW() WHERE cond. */
  function MarkUsed(rows: seq<Row>, cond: Where, now: Instant): (marked: seq<Row>)
  {
    if rows == [] then []
    else
      var r := rows[|rows| - 1];
      MarkUsed(rows[..|rows| - 1], cond, now)
        + [if cond(r.tokenHash, Columns(r)) then r.(usedAt := Some(now)) else r]
  }

  ghost function MarkedView(m: Tokens, cond: Where): Tokens {
    map h | h in m :: if cond(h, m[h]) then m[h].(used := true) else m[h]
  }

  lemma {:induction false} MarkUsedKeepsHashes(rows: seq<Row>, cond: Where, now: Instant)
    ensures |MarkUsed(rows, cond, now)| == |rows|
    ensures forall i :: 0 <= i < |rows| ==> MarkUsed(rows, cond, now)[i].tokenHash == rows[i].tokenHash
  {
    if rows != [] {
      MarkUsedKeepsHashes(rows[..|rows| - 1], cond, now);
    }
  }

  lemma MarkedViewOfInsert(m: Tokens, cond: Where, h: Hash, e: Entry)
    ensures MarkedView(m[h := e], cond) == MarkedView(m, cond)[h := if cond(h, e) then e.(used := true) else e]
  {
  }

  /** An UPDATE of used_at, seen through the interface: exactly the chosen tokens become used. */
  lemma {:induction false} ViewOfMarked(rows: seq<Row>, cond: Where, now: Instant)
    ensures View(MarkUsed(rows, cond, now)) == MarkedView(View(rows), cond)
  {
    if rows != [] {
      var front, r := rows[..|rows| - 1], rows[|rows| - 1];
      ViewOfMarked(front, cond, now);
      MarkedViewOfInsert(View(front), cond, r.tokenHash, Columns(r));
      assert MarkUsed(rows, cond, now)[..|MarkUsed(front, cond, now)|] == MarkUsed(front, cond, now);
    }
  }

  /** The WHERE clauses of the three updating statements. */
  function ClaimOne(tokenHash: Hash, now: Instant): Where {
    (h: Hash, e: Entry) => h == tokenHash && !e.used && e.expiresAt > now
  }

  function LiveOfUser(userID: UserId, now: Instant): Where {
    (h: Hash, e: Entry) => e.userID == userID && !e.used && e.expiresAt > now
  }

  function UnusedOne(tokenHash: Hash): Where {
    (h: Hash, e: Entry) => h == tokenHash && !e.used
  }

  lemma ClaimIsConsume(m: Tokens, tokenHash: Hash, now: Instant)
    ensures MarkedView(m, ClaimOne(tokenHash, now)) == Consume(Postgres, m, tokenHash, now).0
  {
  }

  lemma MarkLiveIsRevokeChain(m: Tokens, userID: UserId, now: Instant)
    ensures MarkedView(m, LiveOfUser(userID, now)) == RefreshTokens.RevokeChain(Postgres, m, userID, now)
  {
  }

  lemma MarkUnusedIsRevokeOne(m: Tokens, tokenHash: Hash)
    ensures MarkedView(m, UnusedOne(tokenHash)) == RefreshTokens.RevokeOne(m, tokenHash)
  {
  }

  /** PostgreSQL tokens: each method is the row-level effect of its one statement. */
  class PgStore {
    var rows: seq<Row>

    ghost predicate Valid() reads this { UniqueHashes(rows) }

    ghost function Table(): Tokens reads this { View(rows) }

    constructor ()
      ensures Valid() && Table() == map[]
    {
      rows := [];
    }

    method SaveRefresh(userID: UserId, tokenHash: Hash, expiresAt: Instant) returns (ok: bool)
      requires Valid()
      modifies this
      ensures Valid()
      ensures (Table(), ok) == Save(Postgres, old(Table()), userID, tokenHash, expiresAt)
    {
      ViewOf(rows);
      if exists i :: 0 <= i < |rows| && rows[i].tokenHash == tokenHash {
        return false;
      }
      rows := rows + [Row(userID, tokenHash, expiresAt, None)];
      assert rows[..|rows| - 1] == old(rows);
      return true;
    }

    /** Executes one UPDATE ... SET used_at = NOW(). */
    method Update(cond: Where, now: Instant)
      requires Valid()
      modifies this
      ensures Valid()
      ensures Table() == MarkedView(old(Table()), cond)
    {
      ViewOfMarked(rows, cond, now);
      MarkUsedKeepsHashes(rows, cond, now);
      rows := MarkUsed(rows, cond, now);
    }

    method ConsumeRefresh(tokenHash: Hash, now: Instant) returns (owner: Option<UserId>)
      requires Valid()
      modifies this
      ensures Valid()
      ensures (Table(), owner) == Consume(Postgres, old(Table()), tokenHash, now)
      ensures owner.Some? <==> tokenHash in old(Table()) && !old(Table())[tokenHash].used && now < old(Table())[tokenHash].expiresAt
    {
      ViewOf(rows);
      ClaimIsConsume(Table(), tokenHash, now);
      var cond := ClaimOne(tokenHash, now);
      if i :| 0 <= i < |rows| && cond(rows[i].tokenHash, Columns(rows[i])) {
        owner := Some(rows[i].userID);  // RETURNING user_id
      } else {
        owner := None;
      }
      Update(cond, now);
    }

    method RevokeChain(userID: UserId, now: Instant)
      requires Valid()
      modifies this
      ensures Valid()
      ensures Table() == RefreshTokens.RevokeChain(Postgres, old(Table()), userID, now)
    {
      MarkLiveIsRevokeChain(Table(), userID, now);
      Update(LiveOfUser(userID, now), now);
    }

    method RevokeOne(tokenHash: Hash, now: Instant)
      requires Valid()
      modifies this
      ensures Valid()
      ensures Table() == RefreshTokens.RevokeOne(old(Table()), tokenHash)
    {
      MarkUnusedIsRevokeOne(Table(), tokenHash);
      Update(UnusedOne(tokenHash), now);
    }

    method FindRefreshUser(tokenHash: Hash) returns (owner: Option<UserId>)
      requires Valid()
      ensures owner == FindUser(Table(), tokenHash)
    {
      ViewOf(rows);
      if i :| 0 <= i < |rows| && rows[i].tokenHash == tokenHash {
        return Some(rows[i].userID);
      } else {
        return None;
      }
    }
  }
}
