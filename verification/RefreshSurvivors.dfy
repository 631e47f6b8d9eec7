/** Exactly which sessions outlive RevokeChain, and exactly why a Refresh reaches it. */
module RefreshSurvivors {
  import opened Wrappers
  import opened RefreshTokens
  import opened RefreshProtocol
  import opened RefreshRevocation

  // ---- what outlives a revocation ----

  /** A rotation of u that can still end in a token the store accepts. */
  ghost predicate CanIssue(b: Backend, pc: Pc, u: UserId, now: Instant) {
    || pc == Consumed(u)
    || pc == Issuing(FromRefresh, u)
    || (pc.Minted? && pc.origin == FromRefresh && pc.userID == u && !Expired(b, Entry(u, pc.expiresAt, false), now))
  }

  ghost predicate SomeCanIssue(b: Backend, s: State, u: UserId) {
    exists q :: q in s.procs && CanIssue(b, s.procs[q], u, s.now)
  }

  ghost predicate NoneCanIssue(b: Backend, s: State, u: UserId) {
    forall q :: q in s.procs ==> !CanIssue(b, s.procs[q], u, s.now)
  }

  ghost predicate NoneLive(b: Backend, s: State, u: UserId) {
    forall h :: h in s.tokens && s.tokens[h].userID == u ==> !Acceptable(b, s.tokens, h, s.now)
  }

  lemma SaveIsExpired(b: Backend, s: State, a: Action, u: UserId)
    requires Enabled(s, a) && a.Save? && Inv(s) && NoneLive(b, s, u) && NoneCanIssue(b, s, u)
    requires Step(b, s, a).logins[u] == s.logins[u]
    ensures NoneLive(b, Step(b, s, a), u)
  {
    assert !CanIssue(b, s.procs[a.pid], u, s.now);
  }

  lemma UpdatesReviveNone(b: Backend, s: State, a: Action, u: UserId)
    requires Enabled(s, a) && (a.Consume? || a.Revoke? || a.Logout?) && NoneLive(b, s, u)
    ensures NoneLive(b, Step(b, s, a), u)
  {
  }

  lemma NoneLiveStays(b: Backend, s: State, a: Action, u: UserId)
    requires Enabled(s, a) && Inv(s) && NoneLive(b, s, u) && NoneCanIssue(b, s, u)
    requires Step(b, s, a).logins[u] == s.logins[u]
    ensures NoneLive(b, Step(b, s, a), u)
  {
    if a.Save? {
      SaveIsExpired(b, s, a, u);
    } else if TouchesTokens(a) {
      UpdatesReviveNone(b, s, a, u);
    } else {
      TokensFrame(b, s, a);
      if !a.Advance? {
        ClockStands(b, s, a);
      }
    }
  }

  /** A request's own step gives it a rotation of u only out of one, or out of an acceptable token of u. */
  lemma OwnStepCannotIssue(b: Backend, s: State, a: Action, u: UserId)
    requires Enabled(s, a) && !a.Advance? && NoneLive(b, s, u)
    requires a.pid in s.procs ==> !CanIssue(b, s.procs[a.pid], u, s.now)
    ensures a.pid in Step(b, s, a).procs && !CanIssue(b, Step(b, s, a).procs[a.pid], u, s.now)
  {
    if a.Consume? {
      ConsumeCannotIssue(b, s, a, u);
    }
  }

  lemma ConsumeCannotIssue(b: Backend, s: State, a: Action, u: UserId)
    requires Enabled(s, a) && a.Consume? && NoneLive(b, s, u)
    ensures a.pid in Step(b, s, a).procs && !CanIssue(b, Step(b, s, a).procs[a.pid], u, s.now)
  {
  }

  lemma NoneCanIssueStays(b: Backend, s: State, a: Action, u: UserId)
    requires Enabled(s, a) && NoneLive(b, s, u) && NoneCanIssue(b, s, u)
    ensures NoneCanIssue(b, Step(b, s, a), u)
  {
    var t := Step(b, s, a);
    if !a.Advance? {
      OwnStepCannotIssue(b, s, a, u);
      StepKeepsOwnBookkeeping(b, s, a);
      ClockStands(b, s, a);
    }
    forall q | q in t.procs
      ensures !CanIssue(b, t.procs[q], u, t.now)
    {
      assert q in s.procs ==> !CanIssue(b, s.procs[q], u, s.now);
    }
  }

  lemma ClockStands(b: Backend, s: State, a: Action)
    requires Enabled(s, a) && !a.Advance?
    ensures Step(b, s, a).now == s.now
  {
  }

  lemma LoginsGrow(b: Backend, s: State, a: Action, u: UserId)
    requires Enabled(s, a)
    ensures Step(b, s, a).logins[u] >= s.logins[u]
  {
  }

  lemma {:induction false} LoginsGrowAfter(b: Backend, s: State, run: seq<Action>, u: UserId)
    requires IsRun(b, s, run)
    ensures After(b, s, run).logins[u] >= s.logins[u]
    decreases |run|
  {
    if run != [] {
      LoginsGrow(b, s, run[0], u);
      LoginsGrowAfter(b, Step(b, s, run[0]), run[1..], u);
    }
  }

  /** With no acceptable token and no rotation that could yield one, none comes without a new login. */
  lemma {:induction false} EndedForever(b: Backend, s: State, run: seq<Action>, u: UserId)
    requires Inv(s) && NoneLive(b, s, u) && NoneCanIssue(b, s, u) && IsRun(b, s, run)
    requires After(b, s, run).logins[u] == s.logins[u]
    ensures NoneLive(b, After(b, s, run), u) && Live(b, After(b, s, run), u) == {}
    decreases |run|
  {
    if run != [] {
      var t := Step(b, s, run[0]);
      LoginsGrow(b, s, run[0], u);
      LoginsGrowAfter(b, t, run[1..], u);
      NoneLiveStays(b, s, run[0], u);
      NoneCanIssueStays(b, s, run[0], u);
      InvKept(b, s, run[0]);
      EndedForever(b, t, run[1..], u);
    }
  }

  lemma MintedRotationSaves(b: Backend, s: State, q: Pid, u: UserId) returns (run: seq<Action>, g: Hash)
    requires Inv(s) && q in s.procs && s.procs[q].Minted? && CanIssue(b, s.procs[q], u, s.now)
    ensures IsRun(b, s, run) && Yields(b, s, After(b, s, run), u, g)
  {
    run, g := [Save(q, Received)], s.procs[q].hash;
    assert run[1..] == [];
    var t := Step(b, s, run[0]);
    assert IsRun(b, t, run[1..]) && After(b, s, run) == t;
    assert g !in s.tokens;
    assert g in Live(b, t, u);
  }

  /** The run gave u the acceptable token g, with no login and no new request. */
  ghost predicate Yields(b: Backend, s: State, t: State, u: UserId, g: Hash) {
    && t.logins == s.logins && t.procs.Keys == s.procs.Keys && t.accepted == s.accepted && t.now == s.now
    && g in t.tokens && t.tokens[g].userID == u && Acceptable(b, t.tokens, g, t.now)
  }

  /** Every rotation that can still issue does so if it is let run; h is what NewRefreshToken returns next. */
  lemma RotationCompletes(b: Backend, s: State, q: Pid, u: UserId, h: Hash) returns (run: seq<Action>, g: Hash)
    requires Inv(s) && q in s.procs && CanIssue(b, s.procs[q], u, s.now) && h !in s.minted
    ensures IsRun(b, s, run) && Yields(b, s, After(b, s, run), u, g)
    decreases if s.procs[q].Consumed? then 2 else if s.procs[q].Issuing? then 1 else 0
  {
    if s.procs[q].Minted? {
      run, g := MintedRotationSaves(b, s, q, u);
    } else {
      var a := if s.procs[q].Consumed? then GetByID(q, true) else Mint(q, h, REFRESH_TOKEN_TTL);
      var t := Step(b, s, a);
      InvKept(b, s, a);
      assert CanIssue(b, t.procs[q], u, t.now);
      var rest;
      if a.Mint? {
        rest, g := MintedRotationSaves(b, t, q, u);
      } else {
        rest, g := RotationCompletes(b, t, q, u, h);
      }
      run := [a] + rest;
      assert run[0] == a && run[1..] == rest;
    }
  }

  /** NewRefreshToken can always return a token it has not returned before. */
  lemma FreshToken(minted: set<Hash>) returns (h: Hash)
    ensures h !in minted
  {
    var n := LongerThanAll(minted);
    h := Hash(seq(n, i => '0'));
  }

  lemma {:induction false} LongerThanAll(minted: set<Hash>) returns (n: nat)
    ensures forall h :: h in minted ==> |h.hex| < n
  {
    n := 0;
    if minted != {} {
      var h :| h in minted;
      var m := LongerThanAll(minted - {h});
      n := m + |h.hex| + 1;
    }
  }

  lemma AfterRevoke(b: Backend, s: State, p: Pid, answer: Answer)
    requires Inv(s) && Enabled(s, Revoke(p, answer)) && !answer.Unreached?
    ensures
      var u, t := s.procs[p].userID, Step(b, s, Revoke(p, answer));
      NoneLive(b, t, u) && (SomeCanIssue(b, s, u) <==> SomeCanIssue(b, t, u)) && Inv(t) && t.logins == s.logins
  {
    var u, t := s.procs[p].userID, Step(b, s, Revoke(p, answer));
    InvKept(b, s, Revoke(p, answer));
    forall q
      ensures q in s.procs && CanIssue(b, s.procs[q], u, s.now) <==> q in t.procs && CanIssue(b, t.procs[q], u, t.now)
    {
    }
  }

  ghost predicate SessionWithoutLogin(b: Backend, t: State, rest: seq<Action>, u: UserId) {
    IsRun(b, t, rest) && After(b, t, rest).logins[u] == t.logins[u] && Live(b, After(b, t, rest), u) != {}
  }

  /**
   What comes back after RevokeChain(u).  In every continuation the sessions are bounded by the
   rotations in flight at that step and the logins since.  And some continuation without a new login
   of u has an acceptable token exactly when a rotation of u had consumed its token and not yet saved
   the next one, unless that one has expired meanwhile.
   */
  lemma SessionsAfterRevokeChain(b: Backend, s: State, p: Pid, answer: Answer)
    requires Inv(s) && Enabled(s, Revoke(p, answer)) && !answer.Unreached?
    ensures
      var u, t := s.procs[p].userID, Step(b, s, Revoke(p, answer));
      forall rest :: IsRun(b, t, rest) ==>
        var end := After(b, t, rest);
        |Live(b, end, u)| + |Rotating(end, u)| <= |Rotating(s, u)| + end.logins[u] - s.logins[u]
    ensures
      var u, t := s.procs[p].userID, Step(b, s, Revoke(p, answer));
      (exists rest :: SessionWithoutLogin(b, t, rest, u)) <==> SomeCanIssue(b, s, u)
  {
    var u, t := s.procs[p].userID, Step(b, s, Revoke(p, answer));
    forall rest | IsRun(b, t, rest)
      ensures
        var end := After(b, t, rest);
        |Live(b, end, u)| + |Rotating(end, u)| <= |Rotating(s, u)| + end.logins[u] - s.logins[u]
    {
      SessionsBound(b, s, p, answer, rest);
    }
    AfterRevoke(b, s, p, answer);
    if SomeCanIssue(b, s, u) {
      var q :| q in t.procs && CanIssue(b, t.procs[q], u, t.now);
      var h := FreshToken(t.minted);
      var run, g := RotationCompletes(b, t, q, u, h);
      assert g in Live(b, After(b, t, run), u);
      assert SessionWithoutLogin(b, t, run, u);
    } else {
      forall rest | IsRun(b, t, rest) && After(b, t, rest).logins[u] == t.logins[u]
        ensures Live(b, After(b, t, rest), u) == {}
      {
        EndedForever(b, t, rest, u);
      }
    }
  }

  /** Whenever a rotation is in flight at a revocation, the token it ends in can be presented and is accepted. */
  lemma RevokeChainMissesRotationInFlight(b: Backend, s: State, p: Pid, answer: Answer, q: Pid, r: Pid) returns (rest: seq<Action>)
    requires Inv(s) && Enabled(s, Revoke(p, answer)) && !answer.Unreached? && r !in s.procs
    requires q in s.procs && CanIssue(b, s.procs[q], s.procs[p].userID, s.now)
    ensures IsRun(b, Step(b, s, Revoke(p, answer)), rest)
    ensures
      var u, end := s.procs[p].userID, After(b, Step(b, s, Revoke(p, answer)), rest);
      |end.accepted| == |s.accepted| + 1 && At(end, r, Consumed(u))
  {
    var u, t := s.procs[p].userID, Step(b, s, Revoke(p, answer));
    AfterRevoke(b, s, p, answer);
    var h := FreshToken(t.minted);
    var run, g := RotationCompletes(b, t, q, u, h);
    var mid := After(b, t, run);
    RunOf2(b, mid, BeginRefresh(r, g), Consume(r, Received));
    RunConcat(b, t, run, [BeginRefresh(r, g), Consume(r, Received)]);
    rest := run + [BeginRefresh(r, g), Consume(r, Received)];
  }

  // ---- such a race is reachable ----

  const ALICE := UserId("alice")
  const FIRST := Hash("first")

  const SIGN_IN: seq<Action> := [BeginLogin(0, ALICE), Mint(0, FIRST, REFRESH_TOKEN_TTL), Save(0, Received)]
  const ROTATE: seq<Action> := [BeginRefresh(1, FIRST), Consume(1, Received)]
  const REPLAY: seq<Action> := [BeginRefresh(2, FIRST), Consume(2, Received), Find(2, true)]

  const SIGNED_IN: State := State(
    map[FIRST := Entry(ALICE, REFRESH_TOKEN_TTL, false)], 0, map[0 := Finished(Issued(FIRST))],
    {FIRST}, map[FIRST := ALICE], [], multiset{ALICE})

  const IN_ROTATION: State := State(
    map[FIRST := Entry(ALICE, REFRESH_TOKEN_TTL, true)], 0, map[0 := Finished(Issued(FIRST)), 1 := Consumed(ALICE)],
    {FIRST}, map[FIRST := ALICE], [FIRST], multiset{ALICE})

  const RACE: State := IN_ROTATION.(procs := IN_ROTATION.procs[2 := ReuseFound(ALICE)])

  lemma SignInRuns(b: Backend)
    ensures IsRun(b, Init(0), SIGN_IN) && After(b, Init(0), SIGN_IN) == SIGNED_IN
  {
    RunOf3(b, Init(0), SIGN_IN[0], SIGN_IN[1], SIGN_IN[2]);
  }

  lemma RotateRuns(b: Backend)
    ensures IsRun(b, SIGNED_IN, ROTATE) && After(b, SIGNED_IN, ROTATE) == IN_ROTATION
  {
    RunOf2(b, SIGNED_IN, ROTATE[0], ROTATE[1]);
  }

  lemma ReplayRuns(b: Backend)
    ensures IsRun(b, IN_ROTATION, REPLAY) && After(b, IN_ROTATION, REPLAY) == RACE
  {
    RunOf3(b, IN_ROTATION, REPLAY[0], REPLAY[1], REPLAY[2]);
  }

  /** A login, a rotation that has consumed its token, and a replay of that token about to revoke the chain. */
  lemma RaceIsReachable(b: Backend)
    ensures IsRun(b, Init(0), SIGN_IN + ROTATE + REPLAY) && After(b, Init(0), SIGN_IN + ROTATE + REPLAY) == RACE
    ensures Enabled(RACE, Revoke(2, Received)) && CanIssue(b, RACE.procs[1], ALICE, RACE.now)
  {
    SignInRuns(b);
    RotateRuns(b);
    ReplayRuns(b);
    RunConcat(b, Init(0), SIGN_IN, ROTATE);
    RunConcat(b, Init(0), SIGN_IN + ROTATE, REPLAY);
  }
}

/** Why a Refresh goes on to revoke the chain. */
module RefreshReuse {
  import opened Wrappers
  import opened RefreshTokens
  import opened RefreshProtocol
  import opened RefreshRevocation

  /** Refused for a reason that leaves the token in the table for good: used, or expired in the SQL store. */
  predicate RefusedAndKept(b: Backend, m: Tokens, h: Hash, now: Instant) {
    h in m && (m[h].used || (b == Postgres && Expired(b, m[h], now)))
  }

  lemma KeptStays(b: Backend, s: State, a: Action, h: Hash)
    requires Enabled(s, a) && Inv(s) && h in s.tokens && (s.tokens[h].used || b == Postgres)
    ensures h in Step(b, s, a).tokens && (Step(b, s, a).tokens[h].used || b == Postgres)
  {
    if s.tokens[h].used {
      UsedNeverReverts(b, s, a, h);
    }
  }

  lemma {:induction false} KeptStaysAfter(b: Backend, s: State, run: seq<Action>, h: Hash)
    requires IsRun(b, s, run) && Inv(s) && h in s.tokens && (s.tokens[h].used || b == Postgres)
    ensures h in After(b, s, run).tokens
    decreases |run|
  {
    if run != [] {
      KeptStays(b, s, run[0], h);
      InvKept(b, s, run[0]);
      KeptStaysAfter(b, Step(b, s, run[0]), run[1..], h);
    }
  }

  lemma ForgottenBySave(b: Backend, s: State, a: Action, h: Hash)
    requires Enabled(s, a) && Inv(s) && h in s.saved && h !in s.tokens && a.Save?
    ensures h in Step(b, s, a).saved && h !in Step(b, s, a).tokens
  {
  }

  lemma ForgottenByUpdate(b: Backend, s: State, a: Action, h: Hash)
    requires Enabled(s, a) && h in s.saved && h !in s.tokens && (a.Consume? || a.Revoke? || a.Logout?)
    ensures h in Step(b, s, a).saved && h !in Step(b, s, a).tokens
  {
  }

  lemma ForgottenStays(b: Backend, s: State, a: Action, h: Hash)
    requires Enabled(s, a) && Inv(s) && h in s.saved && h !in s.tokens
    ensures h in Step(b, s, a).saved && h !in Step(b, s, a).tokens
  {
    if a.Save? {
      ForgottenBySave(b, s, a, h);
    } else if TouchesTokens(a) {
      ForgottenByUpdate(b, s, a, h);
    } else {
      TokensFrame(b, s, a);
    }
  }

  /** A token that was saved and is gone never comes back. */
  lemma {:induction false} ForgottenStaysAfter(b: Backend, s: State, run: seq<Action>, h: Hash)
    requires IsRun(b, s, run) && Inv(s) && h in s.saved && h !in s.tokens
    ensures h !in After(b, s, run).tokens
    decreases |run|
  {
    if run != [] {
      ForgottenStays(b, s, run[0], h);
      InvKept(b, s, run[0]);
      ForgottenStaysAfter(b, Step(b, s, run[0]), run[1..], h);
    }
  }

  ghost predicate NotBy(run: seq<Action>, p: Pid) {
    forall i :: 0 <= i < |run| && !run[i].Advance? ==> run[i].pid != p
  }

  lemma {:induction false} OwnPcStays(b: Backend, s: State, run: seq<Action>, p: Pid)
    requires IsRun(b, s, run) && NotBy(run, p) && p in s.procs
    ensures At(After(b, s, run), p, s.procs[p])
    decreases |run|
  {
    if run != [] {
      OthersPcs(b, s, run[0], p);
      assert NotBy(run[1..], p);
      OwnPcStays(b, Step(b, s, run[0]), run[1..], p);
    }
  }

  lemma RunAround(b: Backend, s: State, x: Action, others: seq<Action>, y: Action)
    requires IsRun(b, s, [x] + others + [y])
    ensures Enabled(s, x) && IsRun(b, Step(b, s, x), others) && IsRun(b, s, [x] + others)
    ensures
      var mid := After(b, Step(b, s, x), others);
      After(b, s, [x] + others) == mid && Enabled(mid, y) && After(b, s, [x] + others + [y]) == Step(b, mid, y)
  {
    RunSplit(b, s, [x] + others, [y]);
    assert ([x] + others)[0] == x && ([x] + others)[1..] == others;
    assert [y][1..] == [];
  }

  /**
   A Refresh that presented h, whatever others do between its ConsumeRefresh and its FindRefreshUser:
   it goes on to revoke the chain exactly when the lookup is answered and one of these holds.  The
   consume was answered and refused h as used, or as expired in the SQL store.  Or h is stored at the
   lookup, and the consume was not answered, or h was not yet saved then.
   */
  lemma ReuseFoundExactly(b: Backend, s: State, p: Pid, h: Hash, consume: Answer, others: seq<Action>, answered: bool)
    requires Inv(s) && At(s, p, Presented(h)) && NotBy(others, p)
    requires IsRun(b, s, [Consume(p, consume)] + others + [Find(p, answered)])
    ensures IsRun(b, s, [Consume(p, consume)] + others)
    ensures
      var mid := After(b, s, [Consume(p, consume)] + others);
      var end := After(b, s, [Consume(p, consume)] + others + [Find(p, answered)]);
      var refusedAndKept := consume.Received? && RefusedAndKept(b, s.tokens, h, s.now);
      var storedAnyway := h in mid.tokens && (!consume.Received? || h !in s.saved);
      p in end.procs && (end.procs[p].ReuseFound? <==> answered && (refusedAndKept || storedAnyway))
  {
    RunAround(b, s, Consume(p, consume), others, Find(p, answered));
    var next := Step(b, s, Consume(p, consume));
    InvKept(b, s, Consume(p, consume));
    OwnPcStays(b, next, others, p);
    assert next.procs[p] == Refused(h);
    if consume.Received? {
      if RefusedAndKept(b, s.tokens, h, s.now) {
        KeptStaysAfter(b, next, others, h);
      } else if h in s.saved {
        ForgottenStaysAfter(b, next, others, h);
      }
    }
  }

  /** An error from ConsumeRefresh, whether or not it took effect, makes a Refresh revoke the chain over an unused token. */
  lemma LostAnswerRevokes(b: Backend, s: State, p: Pid, h: Hash, consume: Answer)
    requires p !in s.procs && Acceptable(b, s.tokens, h, s.now) && !consume.Received?
    ensures
      var run := [BeginRefresh(p, h), Consume(p, consume), Find(p, true)];
      IsRun(b, s, run) && At(After(b, s, run), p, ReuseFound(s.tokens[h].userID))
  {
    RunOf3(b, s, BeginRefresh(p, h), Consume(p, consume), Find(p, true));
  }

  /**
   A login, let run: it issues its token exactly when SaveRefresh is answered, and its user has one more
   live token exactly when SaveRefresh took effect, so a lost answer leaves a session nobody was given.
   */
  lemma LoginLeavesSessionExactly(b: Backend, s: State, p: Pid, u: UserId, h: Hash, save: Answer)
    requires Inv(s) && p !in s.procs && h !in s.minted
    ensures
      var run := [BeginLogin(p, u), Mint(p, h, REFRESH_TOKEN_TTL), Save(p, save)];
      && IsRun(b, s, run)
      && At(After(b, s, run), p, Finished(if save.Received? then Issued(h) else Failed))
      && Live(b, After(b, s, run), u) == Live(b, s, u) + if save.Unreached? then {} else {h}
  {
    RunOf3(b, s, BeginLogin(p, u), Mint(p, h, REFRESH_TOKEN_TTL), Save(p, save));
  }
}
