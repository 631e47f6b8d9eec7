/**
 The auth Service's three entry points over a MemoryStore, written as the straight-line
 code they are, each proved to be a run of the interleaved protocol.  The clock readings,
 the token NewRefreshToken returns and the users GetByID knows are parameters.
 */
module RefreshService {
  import opened Wrappers
  import opened RefreshTokens
  import opened RefreshProtocol
  import opened RefreshStores
  import opened RefreshRevocation

  lemma {:induction false} RunSnoc(b: Backend, s: State, run: seq<Action>, a: Action)
    requires IsRun(b, s, run) && Enabled(After(b, s, run), a)
    ensures IsRun(b, s, run + [a]) && After(b, s, run + [a]) == Step(b, After(b, s, run), a)
  {
    assert [a][1..] == [];
    assert IsRun(b, After(b, s, run), [a]);
    RunConcat(b, s, run, [a]);
  }

  predicate OwnOrClock(a: Action, p: Pid) {
    a.Advance? || a.pid == p
  }

  /** A run that leads the protocol from s to t; every action is request p's own or a movement of the clock. */
  ghost predicate Leads(s: State, run: seq<Action>, t: State, p: Pid) {
    IsRun(InMemory, s, run) && After(InMemory, s, run) == t && forall i :: 0 <= i < |run| ==> OwnOrClock(run[i], p)
  }

  ghost method Follow(s: State, run: seq<Action>, t: State, p: Pid, a: Action) returns (longer: seq<Action>, next: State)
    requires Leads(s, run, t, p) && Enabled(t, a) && OwnOrClock(a, p)
    ensures Leads(s, longer, next, p) && next == Step(InMemory, t, a)
  {
    RunSnoc(InMemory, s, run, a);
    return run + [a], Step(InMemory, t, a);
  }

  /** The token is stored, unused and not past its expiry. */
  predicate Fresh(m: Tokens, token: Hash, now: Instant) {
    token in m && !m[token].used && now <= m[token].expiresAt
  }

  /** Every token of u that is unused and not past its expiry is used now, and nothing else has changed. */
  ghost predicate ChainUsed(before: Tokens, after: Tokens, u: UserId, now: Instant) {
    && after.Keys == before.Keys
    && forall h :: h in before ==>
         after[h] == if before[h].userID == u && now <= before[h].expiresAt then before[h].(used := true) else before[h]
  }

  class Service {
    const store: MemoryStore

    constructor (store: MemoryStore)
      ensures this.store == store
    {
      this.store := store;
    }

    method Refresh(token: Hash, wellFormed: bool, known: set<UserId>, newToken: Hash,
                   consumeAt: Instant, revokeAt: Instant, issueAt: Instant, ghost s: State, ghost p: Pid)
      returns (outcome: Outcome, ghost run: seq<Action>, ghost t: State)
      requires s.tokens == store.refresh && p !in s.procs && newToken !in s.minted
      requires Inv(s) && s.now <= consumeAt <= revokeAt && consumeAt <= issueAt
      modifies store
      ensures Leads(s, run, t, p) && t.tokens == store.refresh
      ensures wellFormed ==> At(t, p, Finished(outcome))
      ensures !wellFormed ==> outcome == Failed && t == s
      ensures outcome.Issued? <==> wellFormed && Fresh(s.tokens, token, consumeAt) && s.tokens[token].userID in known
      ensures outcome.RejectedAndRevoked? <==> wellFormed && token in s.tokens && s.tokens[token].used
      ensures outcome.Failed? <==> !wellFormed || (Fresh(s.tokens, token, consumeAt) && s.tokens[token].userID !in known)
      ensures outcome.Issued? ==>
        && outcome.hash == newToken && newToken != token
        && store.refresh == s.tokens[token := s.tokens[token].(used := true)][
             newToken := Entry(s.tokens[token].userID, issueAt + 30 * 24 * 3600, false)]
      ensures outcome.RejectedAndRevoked? ==>
        && outcome.userID == s.tokens[token].userID
        && ChainUsed(s.tokens, store.refresh, s.tokens[token].userID, revokeAt)
      ensures outcome.Rejected? ==> store.refresh == s.tokens - {token}
      ensures outcome.Failed? ==>
        store.refresh == if wellFormed then s.tokens[token := s.tokens[token].(used := true)] else s.tokens
    {
      run, t := [], s;
      if !wellFormed {
        return Failed, run, t;
      }
      run, t := Follow(s, run, t, p, BeginRefresh(p, token));
      run, t := Follow(s, run, t, p, Advance(consumeAt));
      run, t := Follow(s, run, t, p, Consume(p, Received));
      var owner := store.ConsumeRefresh(token, consumeAt);
      if owner.None? {
        outcome, run, t := Refuse(token, revokeAt, s, p, run, t);
        return;
      }
      run, t := Follow(s, run, t, p, GetByID(p, owner.value in known));
      if owner.value !in known {
        return Failed, run, t;
      }
      run, t := IssuePair(owner.value, newToken, issueAt, s, p, run, t);
      return Issued(newToken), run, t;
    }

    /** A refused token that is still stored is reuse. */
    method Refuse(token: Hash, revokeAt: Instant, ghost s: State, ghost p: Pid, ghost run0: seq<Action>, ghost t0: State)
      returns (outcome: Outcome, ghost run: seq<Action>, ghost t: State)
      requires Leads(s, run0, t0, p) && t0.tokens == store.refresh && At(t0, p, Refused(token)) && t0.now <= revokeAt
      modifies store
      ensures Leads(s, run, t, p) && t.tokens == store.refresh && At(t, p, Finished(outcome))
      ensures outcome == if token in t0.tokens then RejectedAndRevoked(t0.tokens[token].userID) else Rejected
      ensures token in t0.tokens ==> ChainUsed(t0.tokens, store.refresh, t0.tokens[token].userID, revokeAt)
      ensures token !in t0.tokens ==> store.refresh == t0.tokens
    {
      run, t := Follow(s, run0, t0, p, Find(p, true));
      var reuse := store.FindRefreshUser(token);
      if reuse.None? {
        return Rejected, run, t;
      }
      run, t := Follow(s, run, t, p, Advance(revokeAt));
      run, t := Follow(s, run, t, p, Revoke(p, Received));
      store.RevokeChain(reuse.value, revokeAt);
      return RejectedAndRevoked(reuse.value), run, t;
    }

    method Login(userID: UserId, newToken: Hash, issueAt: Instant, ghost s: State, ghost p: Pid)
      returns (outcome: Outcome, ghost run: seq<Action>, ghost t: State)
      requires s.tokens == store.refresh && p !in s.procs && newToken !in s.minted && s.now <= issueAt
      modifies store
      ensures Leads(s, run, t, p) && t.tokens == store.refresh && At(t, p, Finished(outcome))
      ensures outcome == Issued(newToken)
      ensures store.refresh == s.tokens[newToken := Entry(userID, issueAt + 30 * 24 * 3600, false)]
    {
      assert Leads(s, [], s, p);
      run, t := Follow(s, [], s, p, BeginLogin(p, userID));
      run, t := IssuePair(userID, newToken, issueAt, s, p, run, t);
      return Issued(newToken), run, t;
    }

    method IssuePair(userID: UserId, newToken: Hash, issueAt: Instant,
                     ghost s: State, ghost p: Pid, ghost run0: seq<Action>, ghost t0: State)
      returns (ghost run: seq<Action>, ghost t: State)
      requires Leads(s, run0, t0, p) && t0.tokens == store.refresh && t0.now <= issueAt && newToken !in t0.minted
      requires p in t0.procs && t0.procs[p].Issuing? && t0.procs[p].userID == userID
      modifies store
      ensures Leads(s, run, t, p) && t.tokens == store.refresh && At(t, p, Finished(Issued(newToken)))
      ensures store.refresh == old(store.refresh)[newToken := Entry(userID, issueAt + 30 * 24 * 3600, false)]
    {
      run, t := Follow(s, run0, t0, p, Advance(issueAt));
      run, t := Follow(s, run, t, p, Mint(p, newToken, REFRESH_TOKEN_TTL));
      run, t := Follow(s, run, t, p, Save(p, Received));
      store.SaveRefresh(userID, newToken, issueAt + REFRESH_TOKEN_TTL);
    }

    method RevokeOne(token: Hash, ghost s: State, ghost p: Pid)
      returns (ghost run: seq<Action>, ghost t: State)
      requires s.tokens == store.refresh && p !in s.procs
      modifies store
      ensures Leads(s, run, t, p) && t.tokens == store.refresh && At(t, p, Finished(LoggedOut))
      ensures store.refresh == if token in s.tokens then s.tokens[token := s.tokens[token].(used := true)] else s.tokens
    {
      assert Leads(s, [], s, p);
      run, t := Follow(s, [], s, p, BeginLogout(p, token));
      run, t := Follow(s, run, t, p, Logout(p, Received));
      store.RevokeOne(token);
    }
  }

  /**
   One Refresh that presents a token past its expiry, never used: the in-memory store has
   forgotten it by the time FindRefreshUser asks, so nothing else happens; the SQL store
   still has the row, so the whole chain is revoked.
   */
  lemma ExpiredPresentation(b: Backend, s: State, p: Pid, token: Hash)
    requires p !in s.procs && token in s.tokens && !s.tokens[token].used && s.now > s.tokens[token].expiresAt
    ensures
      var run := [BeginRefresh(p, token), Consume(p, Received), Find(p, true)];
      && IsRun(b, s, run)
      && At(After(b, s, run), p, if b == InMemory then Finished(Rejected) else ReuseFound(s.tokens[token].userID))
  {
    RunOf3(b, s, BeginRefresh(p, token), Consume(p, Received), Find(p, true));
  }
}
