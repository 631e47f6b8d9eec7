/** What reuse detection and revocation guarantee over the rest of any run. */
module RefreshRevocation {
  import opened Wrappers
  import opened RefreshTokens
  import opened RefreshProtocol

  /** A saved token that the store will refuse from now on. */
  ghost predicate Dead(b: Backend, s: State, h: Hash) {
    && h in s.saved
    && (h in s.tokens ==> s.tokens[h].used || Expired(b, s.tokens[h], s.now))
  }

  lemma DeadStaysBySave(b: Backend, s: State, a: Action, h: Hash)
    requires Enabled(s, a) && Inv(s) && Dead(b, s, h) && a.Save?
    ensures Dead(b, Step(b, s, a), h)
  {
  }

  lemma DeadStaysByUpdate(b: Backend, s: State, a: Action, h: Hash)
    requires Enabled(s, a) && Dead(b, s, h) && (a.Consume? || a.Revoke? || a.Logout?)
    ensures Dead(b, Step(b, s, a), h)
  {
  }

  lemma DeadStaysDead(b: Backend, s: State, a: Action, h: Hash)
    requires Enabled(s, a) && Inv(s) && Dead(b, s, h)
    ensures Dead(b, Step(b, s, a), h)
  {
    if a.Save? {
      DeadStaysBySave(b, s, a, h);
    } else if TouchesTokens(a) {
      DeadStaysByUpdate(b, s, a, h);
    } else {
      TokensFrame(b, s, a);
    }
  }

  lemma DeadNotAcceptedByStep(b: Backend, s: State, a: Action, h: Hash)
    requires Enabled(s, a) && Inv(s) && Dead(b, s, h)
    ensures s.accepted <= Step(b, s, a).accepted
    ensures h !in Step(b, s, a).accepted[|s.accepted|..]
  {
    if a.Consume? && a.answer.Received? && Acceptable(b, s.tokens, s.procs[a.pid].hash, s.now) {
      assert s.procs[a.pid].hash != h;
    }
  }

  lemma AcceptedSuffix(x: seq<Hash>, y: seq<Hash>, z: seq<Hash>, h: Hash)
    requires x <= y <= z && h !in y[|x|..] && h !in z[|y|..]
    ensures h !in z[|x|..]
  {
    assert z[|x|..] == y[|x|..] + z[|y|..];
  }

  /** No continuation of any length accepts a dead token. */
  lemma {:induction false} DeadIsNeverAccepted(b: Backend, s: State, run: seq<Action>, h: Hash)
    requires Inv(s) && Dead(b, s, h) && IsRun(b, s, run)
    ensures s.accepted <= After(b, s, run).accepted
    ensures h !in After(b, s, run).accepted[|s.accepted|..]
    decreases |run|
  {
    if run == [] {
      assert s.accepted[|s.accepted|..] == [];
    } else {
      var t := Step(b, s, run[0]);
      DeadStaysDead(b, s, run[0], h);
      DeadNotAcceptedByStep(b, s, run[0], h);
      InvKept(b, s, run[0]);
      DeadIsNeverAccepted(b, t, run[1..], h);
      AcceptedSuffix(s.accepted, t.accepted, After(b, s, run).accepted, h);
    }
  }

  lemma RevokeKills(b: Backend, s: State, p: Pid, answer: Answer, h: Hash)
    requires Inv(s) && Enabled(s, Revoke(p, answer)) && !answer.Unreached?
    requires h in s.saved && s.saved[h] == s.procs[p].userID
    ensures Dead(b, Step(b, s, Revoke(p, answer)), h)
  {
  }

  /**
   RevokeChain(u), taking effect anywhere in a run, is permanent: no token of u saved before
   that step is accepted after it.
   */
  lemma RevokeChainIsPermanent(b: Backend, s: State, p: Pid, answer: Answer, rest: seq<Action>, h: Hash)
    requires Inv(s) && Enabled(s, Revoke(p, answer)) && !answer.Unreached? && IsRun(b, Step(b, s, Revoke(p, answer)), rest)
    requires h in s.saved && s.saved[h] == s.procs[p].userID
    ensures
      var accepted := After(b, Step(b, s, Revoke(p, answer)), rest).accepted;
      s.accepted <= accepted && h !in accepted[|s.accepted|..]
  {
    RevokeKills(b, s, p, answer, h);
    InvKept(b, s, Revoke(p, answer));
    DeadIsNeverAccepted(b, Step(b, s, Revoke(p, answer)), rest, h);
  }

  lemma RevokedNow(b: Backend, s: State, p: Pid, answer: Answer)
    requires Enabled(s, Revoke(p, answer)) && !answer.Unreached?
    ensures
      var u, t := s.procs[p].userID, Step(b, s, Revoke(p, answer));
      Live(b, t, u) == {} && Rotating(t, u) == Rotating(s, u) && t.logins == s.logins
  {
    var u, t := s.procs[p].userID, Step(b, s, Revoke(p, answer));
    assert Live(b, t, u) == {};
    assert Rotating(t, u) == Rotating(s, u);
  }

  /**
   What can come back after RevokeChain(u): at most one session per rotation that was in
   flight at that step, and one per login of u since.
   */
  lemma SessionsBound(b: Backend, s: State, p: Pid, answer: Answer, rest: seq<Action>)
    requires Inv(s) && Enabled(s, Revoke(p, answer)) && !answer.Unreached? && IsRun(b, Step(b, s, Revoke(p, answer)), rest)
    ensures
      var u, end := s.procs[p].userID, After(b, Step(b, s, Revoke(p, answer)), rest);
      |Live(b, end, u)| + |Rotating(end, u)| <= |Rotating(s, u)| + end.logins[u] - s.logins[u]
  {
    var u, t := s.procs[p].userID, Step(b, s, Revoke(p, answer));
    InvKept(b, s, Revoke(p, answer));
    InvAfter(b, t, rest);
    RevokedNow(b, s, p, answer);
    assert Balance(b, After(b, t, rest), u) <= Balance(b, t, u);
  }

  /** The same for logout and the one token it names. */
  lemma LogoutIsPermanent(b: Backend, s: State, p: Pid, answer: Answer, rest: seq<Action>)
    requires Inv(s) && Enabled(s, Logout(p, answer)) && !answer.Unreached? && IsRun(b, Step(b, s, Logout(p, answer)), rest)
    requires s.procs[p].hash in s.saved
    ensures
      var accepted := After(b, Step(b, s, Logout(p, answer)), rest).accepted;
      s.accepted <= accepted && s.procs[p].hash !in accepted[|s.accepted|..]
  {
    InvKept(b, s, Logout(p, answer));
    DeadIsNeverAccepted(b, Step(b, s, Logout(p, answer)), rest, s.procs[p].hash);
  }

  // ---- a used token always leads to RevokeChain ----

  ghost predicate KnownReuse(s: State, h: Hash, u: UserId) {
    h in s.tokens && s.tokens[h].used && s.tokens[h].userID == u
  }

  ghost predicate OnRevokePath(s: State, p: Pid, h: Hash, u: UserId) {
    && p in s.procs
    && match s.procs[p]
       case Presented(g) => g == h && KnownReuse(s, h, u)
       case Refused(g) => g == h && KnownReuse(s, h, u)
       case ReuseFound(v) => v == u
       case Finished(o) => o == RejectedAndRevoked(u)
       case _ => false
  }

  predicate AnsweredStep(a: Action, p: Pid) {
    && ((a.Consume? || a.Revoke?) && a.pid == p ==> a.answer.Received?)
    && (a.Find? && a.pid == p ==> a.ok)
  }

  /** No store call of request p is lost to a transport error. */
  ghost predicate Answered(run: seq<Action>, p: Pid) {
    forall i :: 0 <= i < |run| ==> AnsweredStep(run[i], p)
  }

  /** Only a request's own steps move it on. */
  lemma OthersPcs(b: Backend, s: State, a: Action, p: Pid)
    requires Enabled(s, a) && p in s.procs && (a.Advance? || a.pid != p)
    ensures p in Step(b, s, a).procs && Step(b, s, a).procs[p] == s.procs[p]
  {
    if !a.Advance? {
      StepMovesOwnRequest(b, s, a);
    }
  }

  lemma RevokePathMoves(b: Backend, s: State, a: Action, h: Hash, u: UserId)
    requires Enabled(s, a) && !a.Advance? && OnRevokePath(s, a.pid, h, u)
    requires AnsweredStep(a, a.pid)
    requires KnownReuse(s, h, u) ==> KnownReuse(Step(b, s, a), h, u)
    ensures OnRevokePath(Step(b, s, a), a.pid, h, u)
  {
  }

  lemma KnownReuseStays(b: Backend, s: State, a: Action, h: Hash, u: UserId)
    requires Enabled(s, a) && Inv(s) && KnownReuse(s, h, u)
    ensures KnownReuse(Step(b, s, a), h, u)
  {
    UsedNeverReverts(b, s, a, h);
  }

  lemma RevokePathKept(b: Backend, s: State, a: Action, p: Pid, h: Hash, u: UserId)
    requires Enabled(s, a) && Inv(s) && OnRevokePath(s, p, h, u) && Answered([a], p)
    ensures OnRevokePath(Step(b, s, a), p, h, u)
  {
    assert [a][0] == a;
    if KnownReuse(s, h, u) {
      KnownReuseStays(b, s, a, h, u);
    }
    if a.Advance? || a.pid != p {
      OthersPcs(b, s, a, p);
    } else {
      RevokePathMoves(b, s, a, h, u);
    }
  }

  /**
   A Refresh that presents a used token, in any interleaving, can only end by having run
   RevokeChain for the token's owner.
   */
  lemma {:induction false} ReuseAlwaysRevokes(b: Backend, s: State, run: seq<Action>, p: Pid, h: Hash, u: UserId)
    requires Inv(s) && IsRun(b, s, run) && Answered(run, p)
    requires OnRevokePath(s, p, h, u)
    ensures OnRevokePath(After(b, s, run), p, h, u)
    ensures After(b, s, run).procs[p].Finished? ==> After(b, s, run).procs[p].outcome == RejectedAndRevoked(u)
    decreases |run|
  {
    if run != [] {
      assert Answered([run[0]], p);
      RevokePathKept(b, s, run[0], p, h, u);
      InvKept(b, s, run[0]);
      ReuseAlwaysRevokes(b, Step(b, s, run[0]), run[1..], p, h, u);
    }
  }

  // ---- isolation between users ----

  /** The user whose tokens a step may touch. */
  ghost function ActingFor(s: State, a: Action): Option<UserId>
    requires Enabled(s, a)
  {
    match a
    case Consume(p, _) => FindUser(s.tokens, s.procs[p].hash)
    case Logout(p, _) => FindUser(s.tokens, s.procs[p].hash)
    case Revoke(p, _) => Some(s.procs[p].userID)
    case Save(p, _) => Some(s.procs[p].userID)
    case _ => None
  }

  lemma ChainOfOther(b: Backend, m: Tokens, u: UserId, now: Instant, h: Hash)
    requires h in m && m[h].userID != u
    ensures h in RevokeChain(b, m, u, now) && RevokeChain(b, m, u, now)[h] == m[h]
  {
  }

  /** Apart from time passing, no step changes whether another user's token would be accepted. */
  lemma OtherUsersUntouched(b: Backend, s: State, a: Action, h: Hash)
    requires Enabled(s, a) && Inv(s)
    requires h in s.tokens && ActingFor(s, a) != Some(s.tokens[h].userID)
    ensures h in Step(b, s, a).tokens && Step(b, s, a).tokens[h] == s.tokens[h]
  {
    match a
    case Revoke(p, _) => ChainOfOther(b, s.tokens, s.procs[p].userID, s.now, h);
    case Consume(p, _) =>
    case Save(p, _) =>
    case Logout(p, _) =>
    case _ => assert Step(b, s, a).tokens == s.tokens;
  }

  ghost predicate NoneActsFor(b: Backend, s: State, run: seq<Action>, u: UserId)
    requires IsRun(b, s, run)
    decreases |run|
  {
    run != [] ==> ActingFor(s, run[0]) != Some(u) && NoneActsFor(b, Step(b, s, run[0]), run[1..], u)
  }

  /** However busy other users are, only time decides whether an idle user's token is accepted. */
  lemma {:induction false} IdleUsersAreIsolated(b: Backend, s: State, run: seq<Action>, h: Hash)
    requires Inv(s) && IsRun(b, s, run) && h in s.tokens && NoneActsFor(b, s, run, s.tokens[h].userID)
    ensures
      var t := After(b, s, run);
      Acceptable(b, t.tokens, h, t.now) <==> !s.tokens[h].used && !Expired(b, s.tokens[h], t.now)
    decreases |run|
  {
    if run != [] {
      OtherUsersUntouched(b, s, run[0], h);
      InvKept(b, s, run[0]);
      IdleUsersAreIsolated(b, Step(b, s, run[0]), run[1..], h);
    }
  }

  // ---- runs put together ----

  lemma RunOf2(b: Backend, s: State, x: Action, y: Action)
    requires Enabled(s, x) && Enabled(Step(b, s, x), y)
    ensures IsRun(b, s, [x, y]) && After(b, s, [x, y]) == Step(b, Step(b, s, x), y)
  {
    var run, t := [x, y], Step(b, s, x);
    assert run[1..] == [y] && [y][1..] == [];
    assert IsRun(b, t, [y]) && After(b, t, [y]) == Step(b, t, y);
  }

  lemma RunOf3(b: Backend, s: State, x: Action, y: Action, z: Action)
    requires Enabled(s, x) && Enabled(Step(b, s, x), y) && Enabled(Step(b, Step(b, s, x), y), z)
    ensures IsRun(b, s, [x, y, z]) && After(b, s, [x, y, z]) == Step(b, Step(b, Step(b, s, x), y), z)
  {
    assert [x, y, z][1..] == [y, z];
    RunOf2(b, Step(b, s, x), y, z);
  }

  lemma {:induction false} RunConcat(b: Backend, s: State, run: seq<Action>, more: seq<Action>)
    requires IsRun(b, s, run) && IsRun(b, After(b, s, run), more)
    ensures IsRun(b, s, run + more) && After(b, s, run + more) == After(b, After(b, s, run), more)
    decreases |run|
  {
    if run == [] {
      assert run + more == more;
    } else {
      RunConcat(b, Step(b, s, run[0]), run[1..], more);
      assert (run + more)[0] == run[0] && (run + more)[1..] == run[1..] + more;
    }
  }

  lemma {:induction false} RunSplit(b: Backend, s: State, run: seq<Action>, more: seq<Action>)
    requires IsRun(b, s, run + more)
    ensures IsRun(b, s, run) && IsRun(b, After(b, s, run), more)
    ensures After(b, s, run + more) == After(b, After(b, s, run), more)
    decreases |run|
  {
    if run == [] {
      assert run + more == more;
    } else {
      assert (run + more)[0] == run[0] && (run + more)[1..] == run[1..] + more;
      RunSplit(b, Step(b, s, run[0]), run[1..], more);
    }
  }
}
