/**
 Service.Login, Service.Refresh and Service.RevokeOne as sequences of store calls.
 Any number of requests are in flight; every action is one store call, one mint, or
 a movement of the clock, and actions of different requests interleave freely.
 The model runs over either backend.
 */
module RefreshProtocol {
  import opened Wrappers
  import opened RefreshTokens
  import Sorting

  type Pid = nat

  datatype Origin = FromLogin | FromRefresh

  /** The next thing a request will do. */
  datatype Pc =
    | Presented(hash: Hash)                    // Refresh: ConsumeRefresh
    | Refused(hash: Hash)                      // Refresh: FindRefreshUser
    | ReuseFound(userID: UserId)               // Refresh: RevokeChain
    | Consumed(userID: UserId)                 // Refresh: GetByID
    | Issuing(origin: Origin, userID: UserId)  // issuePair: read the clock, mint a token
    | Minted(origin: Origin, userID: UserId, hash: Hash, expiresAt: Instant)  // issuePair: SaveRefresh
    | LoggingOut(hash: Hash)                   // RevokeOne
    | Finished(outcome: Outcome)

  datatype Outcome =
    | Issued(hash: Hash)
    | Rejected
    | RejectedAndRevoked(userID: UserId)
    | Failed
    | LoggedOut

  datatype State = State(
    tokens: Tokens,
    now: Instant,
    procs: map<Pid, Pc>,
    minted: set<Hash>,          // every token NewRefreshToken has returned
    saved: map<Hash, UserId>,   // history: every token ever saved, with its owner
    accepted: seq<Hash>,        // history: every token ConsumeRefresh has accepted
    logins: multiset<UserId>    // history: every login whose token was saved
  )

  /** A store call that reports an error has done nothing, or it has taken effect and only the answer is lost. */
  datatype Answer = Received | Unreached | Lost

  datatype Action =
    | Advance(now: Instant)
    | BeginLogin(pid: Pid, userID: UserId)     // LookupUser and VerifyPassword succeeded
    | BeginRefresh(pid: Pid, hash: Hash)
    | BeginLogout(pid: Pid, hash: Hash)
    | Consume(pid: Pid, answer: Answer)
    | Find(pid: Pid, ok: bool)                 // ok: the store answered; otherwise a transport error
    | Revoke(pid: Pid, answer: Answer)
    | GetByID(pid: Pid, found: bool)
    | Mint(pid: Pid, hash: Hash, ttl: nat)
    | Save(pid: Pid, answer: Answer)
    | Logout(pid: Pid, answer: Answer)

  ghost predicate At(s: State, pid: Pid, pc: Pc) {
    pid in s.procs && s.procs[pid] == pc
  }

  predicate Enabled(s: State, a: Action) {
    match a
    case Advance(now) => s.now <= now
    case BeginLogin(p, _) => p !in s.procs
    case BeginRefresh(p, _) => p !in s.procs
    case BeginLogout(p, _) => p !in s.procs
    case Consume(p, _) => p in s.procs && s.procs[p].Presented?
    case Find(p, _) => p in s.procs && s.procs[p].Refused?
    case Revoke(p, _) => p in s.procs && s.procs[p].ReuseFound?
    case GetByID(p, _) => p in s.procs && s.procs[p].Consumed?
    case Mint(p, h, _) => p in s.procs && s.procs[p].Issuing? && h !in s.minted
    case Save(p, _) => p in s.procs && s.procs[p].Minted?
    case Logout(p, _) => p in s.procs && s.procs[p].LoggingOut?
  }

  function Goto(s: State, p: Pid, pc: Pc): State {
    s.(procs := s.procs[p := pc])
  }

  function ConsumeStep(b: Backend, s: State, p: Pid): State
    requires Enabled(s, Consume(p, Received))
  {
    var h := s.procs[p].hash;
    var r := RefreshTokens.Consume(b, s.tokens, h, s.now);
    if r.1.None? then Goto(s, p, Refused(h)).(tokens := r.0)
    else Goto(s, p, Consumed(r.1.value)).(tokens := r.0, accepted := s.accepted + [h])
  }

  function FindStep(s: State, p: Pid): State
    requires Enabled(s, Find(p, true))
  {
    match FindUser(s.tokens, s.procs[p].hash)
    case Some(u) => Goto(s, p, ReuseFound(u))
    case None => Goto(s, p, Finished(Rejected))
  }

  function RevokeStep(b: Backend, s: State, p: Pid): State
    requires Enabled(s, Revoke(p, Received))
  {
    var u := s.procs[p].userID;
    Goto(s, p, Finished(RejectedAndRevoked(u))).(tokens := RevokeChain(b, s.tokens, u, s.now))
  }

  function SaveStep(b: Backend, s: State, p: Pid): State
    requires Enabled(s, Save(p, Received))
  {
    var pc := s.procs[p];
    var r := RefreshTokens.Save(b, s.tokens, pc.userID, pc.hash, pc.expiresAt);
    if !r.1 then Goto(s, p, Finished(Failed))
    else
      Goto(s, p, Finished(Issued(pc.hash))).(
        tokens := r.0,
        saved := s.saved[pc.hash := pc.userID],
        logins := if pc.origin.FromLogin? then s.logins + multiset{pc.userID} else s.logins)
  }

  function Step(b: Backend, s: State, a: Action): State
    requires Enabled(s, a)
  {
    match a
    case Advance(now) => s.(now := now)
    case BeginLogin(p, u) => Goto(s, p, Issuing(FromLogin, u))
    case BeginRefresh(p, h) => Goto(s, p, Presented(h))
    case BeginLogout(p, h) => Goto(s, p, LoggingOut(h))
    case Consume(p, answer) =>
      (match answer
       case Received => ConsumeStep(b, s, p)
       case Unreached => Goto(s, p, Refused(s.procs[p].hash))
       case Lost => Goto(s, p, Refused(s.procs[p].hash)).(tokens := RefreshTokens.Consume(b, s.tokens, s.procs[p].hash, s.now).0))
    case Find(p, ok) => if ok then FindStep(s, p) else Goto(s, p, Finished(Rejected))
    case Revoke(p, answer) =>
      (match answer
       case Received => RevokeStep(b, s, p)
       case Unreached => Goto(s, p, Finished(Rejected))
       case Lost => Goto(s, p, Finished(Rejected)).(tokens := RevokeChain(b, s.tokens, s.procs[p].userID, s.now)))
    case GetByID(p, found) => Goto(s, p, if found then Issuing(FromRefresh, s.procs[p].userID) else Finished(Failed))
    case Mint(p, h, ttl) =>
      Goto(s, p, Minted(s.procs[p].origin, s.procs[p].userID, h, s.now + ttl)).(minted := s.minted + {h})
    case Save(p, answer) =>
      (match answer
       case Received => SaveStep(b, s, p)
       case Unreached => Goto(s, p, Finished(Failed))
       case Lost => SaveStep(b, s, p).(procs := s.procs[p := Finished(Failed)]))
    case Logout(p, answer) =>
      Goto(s, p, Finished(LoggedOut)).(
        tokens := if answer.Unreached? then s.tokens else RevokeOne(s.tokens, s.procs[p].hash))
  }

  function Init(now: Instant): State {
    State(map[], now, map[], {}, map[], [], multiset{})
  }

  ghost predicate IsRun(b: Backend, s: State, run: seq<Action>)
    decreases |run|
  {
    run != [] ==> Enabled(s, run[0]) && IsRun(b, Step(b, s, run[0]), run[1..])
  }

  ghost function After(b: Backend, s: State, run: seq<Action>): State
    requires IsRun(b, s, run)
    decreases |run|
  {
    if run == [] then s else After(b, Step(b, s, run[0]), run[1..])
  }

  // ---- the invariant ----

  ghost predicate TokensAreSaved(s: State) {
    && (forall h :: h in s.tokens ==> h in s.saved && s.saved[h] == s.tokens[h].userID)
    && (forall h :: h in s.saved ==> h in s.minted)
  }

  /** A minted token is in no table until its own request saves it. */
  ghost predicate MintedIsPrivate(s: State) {
    && (forall p :: p in s.procs && s.procs[p].Minted? ==> s.procs[p].hash in s.minted && s.procs[p].hash !in s.saved)
    && (forall p, q :: p in s.procs && q in s.procs && p != q && s.procs[p].Minted? && s.procs[q].Minted?
          ==> s.procs[p].hash != s.procs[q].hash)
  }

  ghost predicate AcceptedAreUsed(s: State) {
    && (forall i :: 0 <= i < |s.accepted| ==> s.accepted[i] in s.tokens && s.tokens[s.accepted[i]].used)
    && (forall i, j :: 0 <= i < j < |s.accepted| ==> s.accepted[i] != s.accepted[j])
  }

  /** The tokens of u that the store would accept now. */
  ghost function Live(b: Backend, s: State, u: UserId): set<Hash> {
    set h | h in s.tokens && s.tokens[h].userID == u && Acceptable(b, s.tokens, h, s.now)
  }

  ghost predicate InFlight(pc: Pc, u: UserId) {
    || pc == Consumed(u)
    || pc == Issuing(FromRefresh, u)
    || (pc.Minted? && pc.origin == FromRefresh && pc.userID == u)
  }

  /** Refreshes of u between consuming the old token and saving the new one. */
  ghost function Rotating(s: State, u: UserId): set<Pid> {
    set p | p in s.procs && InFlight(s.procs[p], u)
  }

  /** Sessions of u that are usable or about to be, less the logins that account for them. */
  ghost function Balance(b: Backend, s: State, u: UserId): int {
    |Live(b, s, u)| + |Rotating(s, u)| - s.logins[u]
  }

  ghost predicate Inv(s: State) {
    TokensAreSaved(s) && MintedIsPrivate(s) && AcceptedAreUsed(s)
  }

  /** The steps whose store call can change the table. */
  predicate TouchesTokens(a: Action) {
    a.Consume? || a.Revoke? || a.Save? || a.Logout?
  }

  lemma TokensFrame(b: Backend, s: State, a: Action)
    requires Enabled(s, a) && !TouchesTokens(a)
    ensures
      var t := Step(b, s, a);
      t.tokens == s.tokens && t.saved == s.saved && t.accepted == s.accepted && t.logins == s.logins && s.minted <= t.minted
  {
  }

  lemma SavedBySave(b: Backend, s: State, a: Action)
    requires Enabled(s, a) && TokensAreSaved(s) && MintedIsPrivate(s) && a.Save?
    ensures TokensAreSaved(Step(b, s, a))
  {
  }

  lemma SavedByConsume(b: Backend, s: State, a: Action)
    requires Enabled(s, a) && TokensAreSaved(s) && a.Consume?
    ensures TokensAreSaved(Step(b, s, a))
  {
  }

  lemma SavedByRevoke(b: Backend, s: State, a: Action)
    requires Enabled(s, a) && TokensAreSaved(s) && a.Revoke?
    ensures TokensAreSaved(Step(b, s, a))
  {
  }

  lemma SavedByLogout(b: Backend, s: State, a: Action)
    requires Enabled(s, a) && TokensAreSaved(s) && a.Logout?
    ensures TokensAreSaved(Step(b, s, a))
  {
  }

  lemma TokensAreSavedKept(b: Backend, s: State, a: Action)
    requires Enabled(s, a) && TokensAreSaved(s) && MintedIsPrivate(s)
    ensures TokensAreSaved(Step(b, s, a))
  {
    if a.Save? {
      SavedBySave(b, s, a);
    } else if a.Consume? {
      SavedByConsume(b, s, a);
    } else if a.Revoke? {
      SavedByRevoke(b, s, a);
    } else if a.Logout? {
      SavedByLogout(b, s, a);
    } else {
      TokensFrame(b, s, a);
    }
  }

  /** Only a request's own step moves it on. */
  ghost predicate MovesOnly(s: State, t: State, p: Pid) {
    p in t.procs && t.procs == s.procs[p := t.procs[p]]
  }

  /** What one request's step may add to the minted and the saved tokens. */
  ghost predicate OwnBookkeeping(s: State, t: State, p: Pid)
    requires p in t.procs
  {
    && s.minted <= t.minted
    && (t.procs[p].Minted? ==> t.procs[p].hash in t.minted - s.minted)
    && (forall h :: h in t.saved && h !in s.saved ==> p in s.procs && s.procs[p].Minted? && h == s.procs[p].hash)
  }

  lemma StepMovesOwnRequest(b: Backend, s: State, a: Action)
    requires Enabled(s, a) && !a.Advance?
    ensures MovesOnly(s, Step(b, s, a), a.pid)
  {
  }

  lemma StepKeepsOwnBookkeeping(b: Backend, s: State, a: Action)
    requires Enabled(s, a) && !a.Advance?
    ensures MovesOnly(s, Step(b, s, a), a.pid) && OwnBookkeeping(s, Step(b, s, a), a.pid)
  {
    StepMovesOwnRequest(b, s, a);
  }

  lemma PrivateByBookkeeping(s: State, t: State, p: Pid)
    requires TokensAreSaved(s) && MintedIsPrivate(s) && MovesOnly(s, t, p) && OwnBookkeeping(s, t, p)
    ensures MintedIsPrivate(t)
  {
  }

  lemma MintedIsPrivateKept(b: Backend, s: State, a: Action)
    requires Enabled(s, a) && TokensAreSaved(s) && MintedIsPrivate(s)
    ensures MintedIsPrivate(Step(b, s, a))
  {
    if !a.Advance? {
      StepKeepsOwnBookkeeping(b, s, a);
      PrivateByBookkeeping(s, Step(b, s, a), a.pid);
    }
  }

  /** `used` never reverts: a used token stays in the table, used, with its owner. */
  lemma UsedNeverReverts(b: Backend, s: State, a: Action, h: Hash)
    requires Enabled(s, a) && TokensAreSaved(s) && MintedIsPrivate(s)
    requires h in s.tokens && s.tokens[h].used
    ensures h in Step(b, s, a).tokens && Step(b, s, a).tokens[h] == s.tokens[h]
  {
    if a.Save? {
      UsedKeptBySave(b, s, a, h);
    } else if TouchesTokens(a) {
      UsedKeptByUpdate(b, s, a, h);
    } else {
      TokensFrame(b, s, a);
    }
  }

  lemma UsedKeptBySave(b: Backend, s: State, a: Action, h: Hash)
    requires Enabled(s, a) && TokensAreSaved(s) && MintedIsPrivate(s) && a.Save? && h in s.tokens
    ensures h in Step(b, s, a).tokens && Step(b, s, a).tokens[h] == s.tokens[h]
  {
  }

  lemma UsedKeptByUpdate(b: Backend, s: State, a: Action, h: Hash)
    requires Enabled(s, a) && (a.Consume? || a.Revoke? || a.Logout?) && h in s.tokens && s.tokens[h].used
    ensures h in Step(b, s, a).tokens && Step(b, s, a).tokens[h] == s.tokens[h]
  {
  }

  lemma AcceptedAreUsedKept(b: Backend, s: State, a: Action)
    requires Enabled(s, a) && TokensAreSaved(s) && MintedIsPrivate(s) && AcceptedAreUsed(s)
    ensures AcceptedAreUsed(Step(b, s, a))
  {
    var t := Step(b, s, a);
    forall i | 0 <= i < |s.accepted|
      ensures s.accepted[i] in t.tokens && t.tokens[s.accepted[i]].used
    {
      UsedNeverReverts(b, s, a, s.accepted[i]);
    }
    if !a.Consume? {
      AcceptedFrame(b, s, a);
    }
  }

  lemma AcceptedFrame(b: Backend, s: State, a: Action)
    requires Enabled(s, a) && !a.Consume?
    ensures Step(b, s, a).accepted == s.accepted
  {
  }

  predicate TakesFrom(b: Backend, s: State, p: Pid, u: UserId)
    requires Enabled(s, Consume(p, Received))
  {
    Acceptable(b, s.tokens, s.procs[p].hash, s.now) && s.tokens[s.procs[p].hash].userID == u
  }

  lemma LiveAfterConsume(b: Backend, s: State, p: Pid, u: UserId)
    requires Enabled(s, Consume(p, Received))
    ensures Live(b, ConsumeStep(b, s, p), u) <= Live(b, s, u)
    ensures TakesFrom(b, s, p, u) ==> s.procs[p].hash in Live(b, s, u) - Live(b, ConsumeStep(b, s, p), u)
  {
  }

  lemma RotatingAfterConsume(b: Backend, s: State, p: Pid, u: UserId)
    requires Enabled(s, Consume(p, Received))
    ensures Rotating(ConsumeStep(b, s, p), u) == Rotating(s, u) + if TakesFrom(b, s, p, u) then {p} else {}
  {
  }

  lemma BalanceAfterConsume(b: Backend, s: State, p: Pid, u: UserId)
    requires Enabled(s, Consume(p, Received))
    ensures Balance(b, ConsumeStep(b, s, p), u) <= Balance(b, s, u)
  {
    LiveAfterConsume(b, s, p, u);
    RotatingAfterConsume(b, s, p, u);
    if TakesFrom(b, s, p, u) {
      Sorting.SubsetCard(Live(b, ConsumeStep(b, s, p), u), Live(b, s, u) - {s.procs[p].hash});
    } else {
      Sorting.SubsetCard(Live(b, ConsumeStep(b, s, p), u), Live(b, s, u));
    }
  }

  lemma LiveAfterSave(b: Backend, s: State, p: Pid, u: UserId)
    requires Enabled(s, Save(p, Received)) && s.procs[p].hash !in s.tokens
    ensures Live(b, SaveStep(b, s, p), u) <= Live(b, s, u) + if s.procs[p].userID == u then {s.procs[p].hash} else {}
  {
  }

  lemma RotatingAfterSave(b: Backend, s: State, p: Pid, u: UserId)
    requires Enabled(s, Save(p, Received)) && s.procs[p].hash !in s.tokens
    ensures Rotating(SaveStep(b, s, p), u) == Rotating(s, u) - {p}
    ensures p in Rotating(s, u) <==> s.procs[p].userID == u && s.procs[p].origin == FromRefresh
  {
  }

  lemma AddedCard<T>(x: set<T>, y: set<T>, e: T)
    requires x <= y + {e}
    ensures |x| <= |y| + 1
  {
    Sorting.SubsetCard(x, y + {e});
  }

  lemma LoginsAfterSave(b: Backend, s: State, p: Pid, u: UserId)
    requires Enabled(s, Save(p, Received)) && s.procs[p].hash !in s.tokens
    ensures SaveStep(b, s, p).logins[u] ==
      s.logins[u] + if s.procs[p].userID == u && s.procs[p].origin.FromLogin? then 1 else 0
  {
  }

  lemma BalanceAfterSave(b: Backend, s: State, p: Pid, u: UserId)
    requires Enabled(s, Save(p, Received)) && TokensAreSaved(s) && MintedIsPrivate(s)
    ensures Balance(b, SaveStep(b, s, p), u) <= Balance(b, s, u)
  {
    assert s.procs[p].hash !in s.tokens;
    LiveAfterSave(b, s, p, u);
    RotatingAfterSave(b, s, p, u);
    LoginsAfterSave(b, s, p, u);
    if s.procs[p].userID == u {
      AddedCard(Live(b, SaveStep(b, s, p), u), Live(b, s, u), s.procs[p].hash);
    } else {
      Sorting.SubsetCard(Live(b, SaveStep(b, s, p), u), Live(b, s, u));
    }
  }

  /** Whatever the client is told, the saved token counts. */
  lemma BalanceAfterLostSave(b: Backend, s: State, p: Pid, u: UserId)
    requires Enabled(s, Save(p, Lost))
    ensures Balance(b, Step(b, s, Save(p, Lost)), u) == Balance(b, SaveStep(b, s, p), u)
  {
    var t, v := Step(b, s, Save(p, Lost)), SaveStep(b, s, p);
    assert Live(b, t, u) == Live(b, v, u);
    assert Rotating(t, u) == Rotating(v, u);
  }

  lemma BalanceAfterLostConsume(b: Backend, s: State, p: Pid, u: UserId)
    requires Enabled(s, Consume(p, Lost))
    ensures Balance(b, Step(b, s, Consume(p, Lost)), u) <= Balance(b, s, u)
  {
    var t := Step(b, s, Consume(p, Lost));
    LiveAfterConsume(b, s, p, u);
    assert Live(b, t, u) == Live(b, ConsumeStep(b, s, p), u);
    Sorting.SubsetCard(Live(b, t, u), Live(b, s, u));
    Sorting.SubsetCard(Rotating(t, u), Rotating(s, u));
  }

  lemma BalanceFrom(b: Backend, s: State, t: State, u: UserId)
    requires Live(b, t, u) <= Live(b, s, u) && Rotating(t, u) <= Rotating(s, u) && t.logins == s.logins
    ensures Balance(b, t, u) <= Balance(b, s, u)
  {
    Sorting.SubsetCard(Live(b, t, u), Live(b, s, u));
    Sorting.SubsetCard(Rotating(t, u), Rotating(s, u));
  }

  lemma BalanceAfterRevoke(b: Backend, s: State, a: Action, u: UserId)
    requires Enabled(s, a) && a.Revoke?
    ensures Balance(b, Step(b, s, a), u) <= Balance(b, s, u)
  {
    BalanceFrom(b, s, Step(b, s, a), u);
  }

  lemma BalanceAfterLogout(b: Backend, s: State, a: Action, u: UserId)
    requires Enabled(s, a) && a.Logout?
    ensures Balance(b, Step(b, s, a), u) <= Balance(b, s, u)
  {
    BalanceFrom(b, s, Step(b, s, a), u);
  }

  /** A call that never reached the store, or a step that makes none. */
  lemma BalanceAfterQuiet(b: Backend, s: State, a: Action, u: UserId)
    requires Enabled(s, a)
    requires !TouchesTokens(a) || ((a.Consume? || a.Save?) && a.answer.Unreached?)
    ensures Balance(b, Step(b, s, a), u) <= Balance(b, s, u)
  {
    BalanceFrom(b, s, Step(b, s, a), u);
  }

  /** No step gains a session of u without a login of u. */
  lemma BalanceNeverRises(b: Backend, s: State, a: Action, u: UserId)
    requires Enabled(s, a) && TokensAreSaved(s) && MintedIsPrivate(s)
    ensures Balance(b, Step(b, s, a), u) <= Balance(b, s, u)
  {
    if a.Consume? && a.answer.Received? {
      BalanceAfterConsume(b, s, a.pid, u);
    } else if a.Consume? && a.answer.Lost? {
      BalanceAfterLostConsume(b, s, a.pid, u);
    } else if a.Save? && !a.answer.Unreached? {
      BalanceAfterSave(b, s, a.pid, u);
      BalanceAfterLostSave(b, s, a.pid, u);
    } else if a.Revoke? {
      BalanceAfterRevoke(b, s, a, u);
    } else if a.Logout? {
      BalanceAfterLogout(b, s, a, u);
    } else {
      BalanceAfterQuiet(b, s, a, u);
    }
  }

  lemma InvKept(b: Backend, s: State, a: Action)
    requires Enabled(s, a) && Inv(s)
    ensures Inv(Step(b, s, a))
  {
    TokensAreSavedKept(b, s, a);
    MintedIsPrivateKept(b, s, a);
    AcceptedAreUsedKept(b, s, a);
  }

  lemma InitInv(now: Instant)
    ensures Inv(Init(now))
  {
  }

  lemma {:induction false} InvAfter(b: Backend, s: State, run: seq<Action>)
    requires Inv(s) && IsRun(b, s, run)
    ensures Inv(After(b, s, run))
    ensures forall u :: Balance(b, After(b, s, run), u) <= Balance(b, s, u)
    decreases |run|
  {
    if run != [] {
      forall u
        ensures Balance(b, Step(b, s, run[0]), u) <= Balance(b, s, u)
      {
        BalanceNeverRises(b, s, run[0], u);
      }
      InvKept(b, s, run[0]);
      InvAfter(b, Step(b, s, run[0]), run[1..]);
    }
  }

  // ---- main results ----

  /** In every interleaving, ConsumeRefresh accepts each token at most once. */
  lemma EachTokenAcceptedAtMostOnce(b: Backend, start: Instant, run: seq<Action>)
    requires IsRun(b, Init(start), run)
    ensures
      var accepted := After(b, Init(start), run).accepted;
      forall i, j :: 0 <= i < j < |accepted| ==> accepted[i] != accepted[j]
  {
    InitInv(start);
    InvAfter(b, Init(start), run);
  }

  /** In every interleaving, live tokens plus rotations in flight never exceed the user's logins. */
  lemma LiveTokensBoundedByLogins(b: Backend, start: Instant, run: seq<Action>, u: UserId)
    requires IsRun(b, Init(start), run)
    ensures
      var s := After(b, Init(start), run);
      |Live(b, s, u)| + |Rotating(s, u)| <= s.logins[u]
  {
    InitInv(start);
    InvAfter(b, Init(start), run);
    assert Live(b, Init(start), u) == {} && Rotating(Init(start), u) == {};
    assert Balance(b, After(b, Init(start), run), u) <= Balance(b, Init(start), u);
  }
}
