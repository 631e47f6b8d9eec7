/**
 Whole runs of the coalescing loop.  Producers send while the loop receives; a flush is
 due when the pending map has reached maxQueue, and otherwise comes from the ticker.  The
 FlushFn is seen through its effect on the set of users in the applied configuration.
 */
module BatchedRuns {
  import opened Wrappers
  import opened BatchedApplier

  datatype Event =
    | Send(d: Delta)
    | Receive
    | SizeFlush(ok: bool)   // ok: FlushFn returned no error
    | TickFlush(ok: bool)

  datatype State = State(
    queue: seq<Delta>,
    pending: Pending,
    applied: set<UserId>,    // users in the configuration FlushFn last applied
    sent: seq<Delta>,        // history
    absorbed: seq<Delta>,    // history
    window: seq<Delta>,      // history: absorbed since the last flush
    flushes: seq<Flush>      // history
  )

  datatype Flush = Flush(window: seq<Delta>, snapshot: Pending, bySize: bool, ok: bool)

  function Init(applied: set<UserId>): State {
    State([], map[], applied, [], [], [], [])
  }

  predicate Enabled(max: nat, s: State, e: Event) {
    match e
    case Send(_) => |s.queue| < max
    case Receive => s.queue != [] && |s.pending| < max
    case SizeFlush(_) => |s.pending| >= max
    case TickFlush(_) => |s.pending| < max
  }

  /** The users configured once FlushFn has dealt with a whole snapshot. */
  function Applied(users: set<UserId>, m: Pending): set<UserId> {
    (set u | u in users && !(u in m && m[u].kind == RemoveUser)) + (set u | u in m && m[u].kind == AddUser)
  }

  function FlushStep(s: State, bySize: bool, ok: bool): State {
    if s.pending == map[] then s
    else s.(pending := map[],
            window := [],
            applied := if ok then Applied(s.applied, s.pending) else s.applied,
            flushes := s.flushes + [Flush(s.window, s.pending, bySize, ok)])
  }

  function ReceiveStep(s: State): State
    requires s.queue != []
  {
    var d := s.queue[0];
    s.(queue := s.queue[1..], pending := Merge(s.pending, d), absorbed := s.absorbed + [d], window := s.window + [d])
  }

  function Step(max: nat, s: State, e: Event): State
    requires Enabled(max, s, e)
  {
    match e
    case Send(d) => s.(queue := s.queue + [d], sent := s.sent + [d])
    case Receive => ReceiveStep(s)
    case SizeFlush(ok) => FlushStep(s, true, ok)
    case TickFlush(ok) => FlushStep(s, false, ok)
  }

  ghost predicate IsRun(max: nat, s: State, run: seq<Event>)
    decreases |run|
  {
    run != [] ==> Enabled(max, s, run[0]) && IsRun(max, Step(max, s, run[0]), run[1..])
  }

  ghost function After(max: nat, s: State, run: seq<Event>): State
    requires IsRun(max, s, run)
    decreases |run|
  {
    if run == [] then s else After(max, Step(max, s, run[0]), run[1..])
  }

  // ---- per-user fold ----

  function Project(ds: seq<Delta>, u: UserId): seq<Delta>
    decreases |ds|
  {
    if ds == [] then []
    else (if ds[0].userID == u then [ds[0]] else []) + Project(ds[1..], u)
  }

  /** What one user's own deltas amount to: the last one, unless it cancelled its predecessor. */
  function Fold(acc: Option<Delta>, ds: seq<Delta>): Option<Delta>
    decreases |ds|
  {
    if ds == [] then acc
    else if acc.Some? && Cancels(acc.value.kind, ds[0].kind) then Fold(None, ds[1..])
    else Fold(Some(ds[0]), ds[1..])
  }

  function Lookup(m: Pending, u: UserId): Option<Delta> {
    if u in m then Some(m[u]) else None
  }

  lemma {:induction false} PendingIsPerUserFold(m: Pending, ds: seq<Delta>, u: UserId)
    ensures Lookup(MergeAll(m, ds), u) == Fold(Lookup(m, u), Project(ds, u))
    decreases |ds|
  {
    if ds != [] {
      PendingIsPerUserFold(Merge(m, ds[0]), ds[1..], u);
      if ds[0].userID == u {
        assert Project(ds, u)[1..] == Project(ds[1..], u);
      } else {
        assert Project(ds, u) == Project(ds[1..], u);
      }
    }
  }

  /** Deltas of different users commute: only each user's own order matters. */
  lemma UsersCommute(m: Pending, xs: seq<Delta>, ys: seq<Delta>)
    requires forall u :: Project(xs, u) == Project(ys, u)
    ensures MergeAll(m, xs) == MergeAll(m, ys)
  {
    forall u
      ensures Lookup(MergeAll(m, xs), u) == Lookup(MergeAll(m, ys), u)
    {
      PendingIsPerUserFold(m, xs, u);
      PendingIsPerUserFold(m, ys, u);
    }
    var x, y := MergeAll(m, xs), MergeAll(m, ys);
    forall u
      ensures u in x <==> u in y
      ensures u in x ==> x[u] == y[u]
    {
      assert Lookup(x, u) == Lookup(y, u);
    }
    assert x == y;
  }

  // ---- the ledger ----

  function Superseded(m: Pending, ds: seq<Delta>): nat
    decreases |ds|
  {
    if ds == [] then 0
    else (if ds[0].userID in m && !Cancels(m[ds[0].userID].kind, ds[0].kind) then 1 else 0)
         + Superseded(Merge(m, ds[0]), ds[1..])
  }

  function CancelledPairs(m: Pending, ds: seq<Delta>): nat
    decreases |ds|
  {
    if ds == [] then 0
    else (if ds[0].userID in m && Cancels(m[ds[0].userID].kind, ds[0].kind) then 1 else 0)
         + CancelledPairs(Merge(m, ds[0]), ds[1..])
  }

  /** Every absorbed delta is still pending, was replaced, or took part in exactly one cancellation. */
  lemma {:induction false} WindowLedger(m: Pending, ds: seq<Delta>)
    ensures |m| + |ds| == |MergeAll(m, ds)| + Superseded(m, ds) + 2 * CancelledPairs(m, ds)
    decreases |ds|
  {
    if ds != [] {
      WindowLedger(Merge(m, ds[0]), ds[1..]);
      var u := ds[0].userID;
      if u in m {
        if Cancels(m[u].kind, ds[0].kind) {
          assert Merge(m, ds[0]).Keys == m.Keys - {u};
        } else {
          assert Merge(m, ds[0]).Keys == m.Keys;
        }
      } else {
        assert Merge(m, ds[0]).Keys == m.Keys + {u};
      }
    }
  }

  datatype Totals = Totals(flushed: nat, superseded: nat, cancelled: nat, bySize: nat)

  ghost function Sum(flushes: seq<Flush>): Totals {
    if flushes == [] then Totals(0, 0, 0, 0)
    else
      var t, f := Sum(flushes[..|flushes| - 1]), flushes[|flushes| - 1];
      Totals(t.flushed + |f.snapshot|,
             t.superseded + Superseded(map[], f.window),
             t.cancelled + CancelledPairs(map[], f.window),
             t.bySize + if f.bySize then 1 else 0)
  }

  ghost predicate WellTaken(max: nat, f: Flush) {
    && f.snapshot == MergeAll(map[], f.window)
    && KeyedByUser(f.snapshot)
    && 0 < |f.snapshot| <= max
    && (f.bySize ==> |f.snapshot| == max)
  }

  ghost predicate Inv(max: nat, s: State) {
    && max > 0
    && s.sent == s.absorbed + s.queue
    && s.pending == MergeAll(map[], s.window)
    && KeyedByUser(s.pending)
    && |s.pending| <= max
    && (forall i :: 0 <= i < |s.flushes| ==> WellTaken(max, s.flushes[i]))
    && var t := Sum(s.flushes);
       && |s.absorbed| == t.flushed + t.superseded + 2 * t.cancelled + |s.window|
       && max * t.bySize <= t.flushed
  }

  lemma MergeGrowsByOne(m: Pending, d: Delta)
    ensures |Merge(m, d)| <= |m| + 1
  {
    WindowLedger(m, [d]);
    assert MergeAll(m, [d]) == Merge(m, d) by {
      assert [d][1..] == [];
    }
  }

  lemma ReceiveKeepsInv(max: nat, s: State)
    requires Inv(max, s) && Enabled(max, s, Receive)
    ensures Inv(max, ReceiveStep(s))
  {
    var d := s.queue[0];
    MergeGrowsByOne(s.pending, d);
    MergeAllConcat(map[], s.window, [d]);
    assert [d][1..] == [] && MergeAll(s.pending, [d]) == Merge(s.pending, d);
    assert s.queue == [d] + s.queue[1..];
  }

  lemma FlushKeepsInv(max: nat, s: State, bySize: bool, ok: bool)
    requires Inv(max, s) && (bySize ==> |s.pending| >= max)
    ensures Inv(max, FlushStep(s, bySize, ok))
  {
    var t := FlushStep(s, bySize, ok);
    if s.pending != map[] {
      WindowLedger(map[], s.window);
      assert t.flushes[..|t.flushes| - 1] == s.flushes;
      assert |s.pending.Keys| > 0;
      if bySize {
        OnceMore(max, Sum(s.flushes).bySize);
      }
    }
  }

  lemma InvKept(max: nat, s: State, e: Event)
    requires Inv(max, s) && Enabled(max, s, e)
    ensures Inv(max, Step(max, s, e))
  {
    match e
    case Send(d) => assert s.absorbed + (s.queue + [d]) == (s.absorbed + s.queue) + [d];
    case Receive => ReceiveKeepsInv(max, s);
    case SizeFlush(ok) => FlushKeepsInv(max, s, true, ok);
    case TickFlush(ok) => FlushKeepsInv(max, s, false, ok);
  }

  lemma {:induction false} InvAfter(max: nat, s: State, run: seq<Event>)
    requires Inv(max, s) && IsRun(max, s, run)
    ensures Inv(max, After(max, s, run))
    decreases |run|
  {
    if run != [] {
      InvKept(max, s, run[0]);
      InvAfter(max, Step(max, s, run[0]), run[1..]);
    }
  }

  lemma InitInv(max: nat, applied: set<UserId>)
    requires max > 0
    ensures Inv(max, Init(applied))
  {
  }

  /**
   At every point of every run: nothing sent is lost, reordered or absorbed twice; the
   pending delta of each user is the fold of that user's own deltas since the last flush;
   every delta absorbed so far was flushed, superseded, cancelled in a pair, or is pending;
   every snapshot is non-empty, holds one delta per user and at most max of them.
   */
  lemma RunLedger(max: nat, applied: set<UserId>, run: seq<Event>, u: UserId)
    requires max > 0 && IsRun(max, Init(applied), run)
    ensures
      var s := After(max, Init(applied), run);
      var t := Sum(s.flushes);
      && s.sent == s.absorbed + s.queue
      && Lookup(s.pending, u) == Fold(None, Project(s.window, u))
      && |s.absorbed| == t.flushed + (t.superseded + Superseded(map[], s.window))
                         + 2 * (t.cancelled + CancelledPairs(map[], s.window)) + |s.pending|
      && (forall i :: 0 <= i < |s.flushes| ==>
           KeyedByUser(s.flushes[i].snapshot) && 0 < |s.flushes[i].snapshot| <= max)
  {
    InitInv(max, applied);
    InvAfter(max, Init(applied), run);
    var s := After(max, Init(applied), run);
    PendingIsPerUserFold(map[], s.window, u);
    WindowLedger(map[], s.window);
  }

  /** Size-triggered flushes are rare: each one carried max deltas, so max of them were absorbed for it. */
  lemma SizeFlushesAreRare(max: nat, applied: set<UserId>, run: seq<Event>)
    requires max > 0 && IsRun(max, Init(applied), run)
    ensures
      var s := After(max, Init(applied), run);
      max * Sum(s.flushes).bySize <= |s.absorbed|
  {
    InitInv(max, applied);
    InvAfter(max, Init(applied), run);
  }

  // ---- flushes in a window ----

  /** The flushes of one window: the map is emptied whenever it reaches max, and once more at the tick if anything is left. */
  function WindowFlushes(max: nat, m: Pending, ds: seq<Delta>): nat
    decreases |ds|
  {
    if ds == [] then (if m == map[] then 0 else 1)
    else
      var merged := Merge(m, ds[0]);
      if |merged| >= max then 1 + WindowFlushes(max, map[], ds[1..]) else WindowFlushes(max, merged, ds[1..])
  }

  ghost predicate NoTick(run: seq<Event>) {
    forall i :: 0 <= i < |run| ==> !run[i].TickFlush?
  }

  lemma {:induction false} FlushesSoFar(max: nat, s: State, run: seq<Event>)
    requires max > 0 && IsRun(max, s, run) && NoTick(run) && |After(max, s, run).pending| < max
    ensures s.absorbed <= After(max, s, run).absorbed
    ensures
      var t := After(max, s, run);
      var ds := t.absorbed[|s.absorbed|..];
      |t.flushes| - |s.flushes| + (if t.pending == map[] then 0 else 1)
        == if |s.pending| >= max then 1 + WindowFlushes(max, map[], ds) else WindowFlushes(max, s.pending, ds)
    decreases |run|
  {
    if run != [] {
      var next, t := Step(max, s, run[0]), After(max, s, run);
      assert NoTick(run[1..]);
      FlushesSoFar(max, next, run[1..]);
      if run[0].Receive? {
        var ds := t.absorbed[|s.absorbed|..];
        assert next.absorbed == s.absorbed + [s.queue[0]];
        assert t.absorbed[..|next.absorbed|] == next.absorbed && t.absorbed[|s.absorbed|] == next.absorbed[|s.absorbed|];
        assert ds[0] == s.queue[0] && ds[1..] == t.absorbed[|next.absorbed|..];
      }
    }
  }

  /**
   In every stretch of every run that ends at its first tick, the number of flushes is that of the
   deltas absorbed in it: so there is at most one exactly when WindowFlushes of those deltas is.
   */
  lemma FlushesPerWindow(max: nat, s: State, run: seq<Event>, ok: bool)
    requires max > 0 && |s.pending| < max && NoTick(run) && IsRun(max, s, run + [TickFlush(ok)])
    ensures
      var t := After(max, s, run + [TickFlush(ok)]);
      && s.absorbed <= t.absorbed
      && |t.flushes| - |s.flushes| == WindowFlushes(max, s.pending, t.absorbed[|s.absorbed|..])
      && (|t.flushes| <= |s.flushes| + 1 <==> WindowFlushes(max, s.pending, t.absorbed[|s.absorbed|..]) <= 1)
  {
    SplitLast(max, s, run, TickFlush(ok));
    FlushesSoFar(max, s, run);
  }

  lemma {:induction false} SplitLast(max: nat, s: State, run: seq<Event>, e: Event)
    requires IsRun(max, s, run + [e])
    ensures IsRun(max, s, run) && Enabled(max, After(max, s, run), e)
    ensures After(max, s, run + [e]) == Step(max, After(max, s, run), e)
    decreases |run|
  {
    if run == [] {
      assert (run + [e])[1..] == [] && (run + [e])[0] == e;
    } else {
      assert (run + [e])[0] == run[0] && (run + [e])[1..] == run[1..] + [e];
      SplitLast(max, Step(max, s, run[0]), run[1..], e);
    }
  }

  /** A window of n deltas flushes at most n / max times, rounded up. */
  lemma {:induction false} WindowFlushesBound(max: nat, m: Pending, ds: seq<Delta>)
    requires max > 0
    ensures max * WindowFlushes(max, m, ds) <= |m| + |ds| + max - 1
    decreases |ds|
  {
    if ds == [] {
      assert m != map[] ==> |m.Keys| > 0;
    } else {
      var merged := Merge(m, ds[0]);
      MergeGrowsByOne(m, ds[0]);
      if |merged| >= max {
        WindowFlushesBound(max, map[], ds[1..]);
        OnceMore(max, WindowFlushes(max, map[], ds[1..]));
      } else {
        WindowFlushesBound(max, merged, ds[1..]);
      }
    }
  }

  /** Fewer than max deltas, or as many as max starting from nothing pending: at most one flush, as documented. */
  lemma SmallWindowsFlushOnce(max: nat, m: Pending, ds: seq<Delta>)
    requires max > 0 && |m| + |ds| <= max
    ensures WindowFlushes(max, m, ds) <= 1
  {
    WindowFlushesBound(max, m, ds);
    TwiceOrMore(max, WindowFlushes(max, m, ds));
  }

  lemma TwiceOrMore(max: nat, n: nat)
    requires max > 0 && max * n < 2 * max
    ensures n <= 1
  {
    assert n > 1 ==> max * n == 2 * max + max * (n - 2) && max * (n - 2) >= 0;
  }

  lemma OnceMore(max: nat, n: nat)
    ensures max * (1 + n) == max + max * n
  {
  }

  ghost predicate DistinctUsers(m: Pending, ds: seq<Delta>) {
    && (forall i :: 0 <= i < |ds| ==> ds[i].userID !in m)
    && (forall i, j :: 0 <= i < j < |ds| ==> ds[i].userID != ds[j].userID)
  }

  /** When every delta is another user's, the bound is exact: at most one flush exactly for at most max deltas. */
  lemma DistinctUsersFlushEveryMax(max: nat, m: Pending, ds: seq<Delta>)
    requires max > 0 && |m| < max && DistinctUsers(m, ds)
    ensures WindowFlushes(max, m, ds) <= 1 <==> |m| + |ds| <= max
  {
    DistinctUsersFlush(max, m, ds);
    if |m| + |ds| <= max {
      SmallWindowsFlushOnce(max, m, ds);
    }
  }

  lemma NewUserIsAdded(m: Pending, ds: seq<Delta>)
    requires DistinctUsers(m, ds) && ds != []
    ensures |Merge(m, ds[0])| == |m| + 1
    ensures DistinctUsers(Merge(m, ds[0]), ds[1..]) && DistinctUsers(map[], ds[1..])
  {
    var merged, later := Merge(m, ds[0]), ds[1..];
    assert merged.Keys == m.Keys + {ds[0].userID};
    assert |m.Keys| == |m| && |merged.Keys| == |merged|;
    assert forall i :: 0 <= i < |later| ==> later[i] == ds[i + 1];
  }

  lemma FullWindow(max: nat, pending: nat, later: nat, flushes: nat)
    requires pending < max && later <= max * flushes
    ensures pending + 1 + later <= max * (1 + flushes)
  {
    OnceMore(max, flushes);
  }

  lemma {:induction false} DistinctUsersFlush(max: nat, m: Pending, ds: seq<Delta>)
    requires max > 0 && |m| < max && DistinctUsers(m, ds)
    ensures |m| + |ds| <= max * WindowFlushes(max, m, ds)
    decreases |ds|
  {
    if ds == [] {
      assert m != map[] ==> |m.Keys| > 0;
    } else {
      var merged, later := Merge(m, ds[0]), ds[1..];
      NewUserIsAdded(m, ds);
      if |merged| >= max {
        DistinctUsersFlush(max, map[], later);
        FullWindow(max, |m|, |later|, WindowFlushes(max, map[], later));
        assert WindowFlushes(max, m, ds) == 1 + WindowFlushes(max, map[], later);
      } else {
        DistinctUsersFlush(max, merged, later);
        assert WindowFlushes(max, m, ds) == WindowFlushes(max, merged, later);
      }
    }
  }

  // ---- membership ----

  /** The set of users after replaying deltas one at a time. */
  function Replay(users: set<UserId>, ds: seq<Delta>): set<UserId> {
    if ds == [] then users
    else Replayed(Replay(users, ds[..|ds| - 1]), ds[|ds| - 1])
  }

  function Replayed(users: set<UserId>, d: Delta): set<UserId> {
    match d.kind
    case AddUser => users + {d.userID}
    case RemoveUser => users - {d.userID}
    case SetLimit => users
  }

  /** Applied plus pending is what replaying every absorbed delta gives. */
  ghost predicate Agrees(initial: set<UserId>, s: State) {
    Applied(s.applied, s.pending) == Replay(initial, s.absorbed)
  }

  /**
   The merges that forget a membership change: cancelling against a delta that was not
   needed, and replacing a needed one by SetLimit.
   */
  predicate LossyMerge(applied: set<UserId>, m: Pending, d: Delta) {
    && d.userID in m
    && match (m[d.userID].kind, d.kind)
       case (AddUser, RemoveUser) => d.userID in applied
       case (RemoveUser, AddUser) => d.userID !in applied
       case (AddUser, SetLimit) => d.userID !in applied
       case (RemoveUser, SetLimit) => d.userID in applied
       case _ => false
  }

  predicate Lossy(s: State, e: Event) {
    match e
    case Send(_) => false
    case Receive => s.queue != [] && LossyMerge(s.applied, s.pending, s.queue[0])
    case SizeFlush(ok) => !ok && Applied(s.applied, s.pending) != s.applied
    case TickFlush(ok) => !ok && Applied(s.applied, s.pending) != s.applied
  }

  predicate Present(users: set<UserId>, pending: Option<Delta>, u: UserId) {
    if pending.Some? && !pending.value.kind.SetLimit? then pending.value.kind.AddUser? else u in users
  }

  lemma AppliedIsPointwise(users: set<UserId>, m: Pending, u: UserId)
    ensures u in Applied(users, m) <==> Present(users, Lookup(m, u), u)
  {
  }

  lemma MergeExactlyForUser(users: set<UserId>, m: Pending, d: Delta)
    requires KeyedByUser(m)
    ensures
      var u := d.userID;
      (Present(users, Lookup(Merge(m, d), u), u) <==> u in Replayed(Applied(users, m), d))
        <==> !LossyMerge(users, m, d)
  {
    AppliedIsPointwise(users, m, d.userID);
  }

  lemma MergeForOthers(users: set<UserId>, m: Pending, d: Delta, u: UserId)
    requires u != d.userID
    ensures u in Applied(users, Merge(m, d)) <==> u in Replayed(Applied(users, m), d)
  {
    AppliedIsPointwise(users, Merge(m, d), u);
    AppliedIsPointwise(users, m, u);
  }

  lemma MergeExactly(users: set<UserId>, m: Pending, d: Delta)
    requires KeyedByUser(m)
    ensures Applied(users, Merge(m, d)) == Replayed(Applied(users, m), d) <==> !LossyMerge(users, m, d)
  {
    MergeExactlyForUser(users, m, d);
    AppliedIsPointwise(users, Merge(m, d), d.userID);
    forall u | u != d.userID
      ensures u in Applied(users, Merge(m, d)) <==> u in Replayed(Applied(users, m), d)
    {
      MergeForOthers(users, m, d, u);
    }
  }

  lemma ReceiveAgreesExactly(initial: set<UserId>, s: State)
    requires s.queue != [] && KeyedByUser(s.pending) && Agrees(initial, s)
    ensures Agrees(initial, ReceiveStep(s)) <==> !LossyMerge(s.applied, s.pending, s.queue[0])
  {
    var t := ReceiveStep(s);
    assert t.absorbed[..|t.absorbed| - 1] == s.absorbed;
    MergeExactly(s.applied, s.pending, s.queue[0]);
  }

  lemma FlushAgreesExactly(initial: set<UserId>, s: State, bySize: bool, ok: bool)
    requires Agrees(initial, s)
    ensures Agrees(initial, FlushStep(s, bySize, ok)) <==> ok || Applied(s.applied, s.pending) == s.applied
  {
    assert Applied(s.applied, map[]) == s.applied;
    assert Applied(Applied(s.applied, s.pending), map[]) == Applied(s.applied, s.pending);
  }

  /** One event keeps the agreement exactly when it is not lossy. */
  lemma EventAgreesExactly(max: nat, initial: set<UserId>, s: State, e: Event)
    requires Enabled(max, s, e) && KeyedByUser(s.pending) && Agrees(initial, s)
    ensures Agrees(initial, Step(max, s, e)) <==> !Lossy(s, e)
  {
    match e
    case Send(_) =>
    case Receive => ReceiveAgreesExactly(initial, s);
    case SizeFlush(ok) => FlushAgreesExactly(initial, s, true, ok);
    case TickFlush(ok) => FlushAgreesExactly(initial, s, false, ok);
  }

  ghost predicate AgreesThroughout(max: nat, initial: set<UserId>, s: State, run: seq<Event>)
    requires IsRun(max, s, run)
    decreases |run|
  {
    Agrees(initial, s) && (run != [] ==> AgreesThroughout(max, initial, Step(max, s, run[0]), run[1..]))
  }

  ghost predicate NeverLossy(max: nat, s: State, run: seq<Event>)
    requires IsRun(max, s, run)
    decreases |run|
  {
    run != [] ==> !Lossy(s, run[0]) && NeverLossy(max, Step(max, s, run[0]), run[1..])
  }

  /**
   Membership is preserved at every point of a run exactly when no event of it is lossy:
   for every stream of deltas, every initial configuration and every outcome of the flushes.
   */
  lemma {:induction false} MembershipKeptExactly(max: nat, initial: set<UserId>, s: State, run: seq<Event>)
    requires Inv(max, s) && Agrees(initial, s) && IsRun(max, s, run)
    ensures AgreesThroughout(max, initial, s, run) <==> NeverLossy(max, s, run)
    decreases |run|
  {
    if run != [] {
      EventAgreesExactly(max, initial, s, run[0]);
      InvKept(max, s, run[0]);
      if Agrees(initial, Step(max, s, run[0])) {
        MembershipKeptExactly(max, initial, Step(max, s, run[0]), run[1..]);
      }
    }
  }

  /** Adds only absent users, removes only present ones, never SetLimit; every flush succeeds. */
  ghost predicate Disciplined(max: nat, initial: set<UserId>, s: State, run: seq<Event>)
    requires IsRun(max, s, run)
    decreases |run|
  {
    run != [] ==>
      && (run[0].Receive? && s.queue != [] ==>
           var d, users := s.queue[0], Replay(initial, s.absorbed);
           (d.kind == AddUser && d.userID !in users) || (d.kind == RemoveUser && d.userID in users))
      && (run[0].SizeFlush? || run[0].TickFlush? ==> run[0].ok)
      && Disciplined(max, initial, Step(max, s, run[0]), run[1..])
  }

  /** No pending delta is redundant. */
  ghost predicate Needed(s: State) {
    forall u :: u in s.pending ==>
      s.pending[u].kind == if u in s.applied then RemoveUser else AddUser
  }

  lemma NeededKept(max: nat, initial: set<UserId>, s: State, e: Event)
    requires Inv(max, s) && Agrees(initial, s) && Needed(s) && Enabled(max, s, e)
    requires e.Receive? ==>
      var d, users := s.queue[0], Replay(initial, s.absorbed);
      (d.kind == AddUser && d.userID !in users) || (d.kind == RemoveUser && d.userID in users)
    ensures Needed(Step(max, s, e))
    ensures e.Receive? ==> !Lossy(s, e)
  {
    if e.Receive? {
      AppliedIsPointwise(s.applied, s.pending, s.queue[0].userID);
    }
  }

  /**
   Under that discipline the applied set plus the pending deltas equals the desired set at
   every point of every run; in particular the applied set itself does right after a flush.
   */
  lemma {:induction false} DisciplinedRunsKeepMembership(max: nat, initial: set<UserId>, s: State, run: seq<Event>)
    requires Inv(max, s) && Agrees(initial, s) && Needed(s)
    requires IsRun(max, s, run) && Disciplined(max, initial, s, run)
    ensures AgreesThroughout(max, initial, s, run)
    ensures
      var t := After(max, s, run);
      && Agrees(initial, t)
      && (t.pending == map[] ==> t.applied == Replay(initial, t.absorbed))
    decreases |run|
  {
    if run == [] {
      assert s.pending == map[] ==> Applied(s.applied, s.pending) == s.applied;
    } else {
      EventAgreesExactly(max, initial, s, run[0]);
      NeededKept(max, initial, s, run[0]);
      InvKept(max, s, run[0]);
      DisciplinedRunsKeepMembership(max, initial, Step(max, s, run[0]), run[1..]);
    }
  }

  /**
   With SetLimit in the stream the property fails: this disciplined stream for an absent
   user ends with nothing pending although the user should be present.
   */
  lemma SetLimitLosesUser(u: UserId, payload: string, at: int)
    ensures
      var ds := [Delta(AddUser, u, payload, at), Delta(SetLimit, u, payload, at),
                 Delta(RemoveUser, u, payload, at), Delta(AddUser, u, payload, at)];
      MergeAll(map[], ds) == map[] && u in Replay({}, ds)
  {
    var d0, d1, d2, d3 := Delta(AddUser, u, payload, at), Delta(SetLimit, u, payload, at),
                          Delta(RemoveUser, u, payload, at), Delta(AddUser, u, payload, at);
    var ds := [d0, d1, d2, d3];
    assert ds[1..] == [d1, d2, d3] && [d1, d2, d3][1..] == [d2, d3] && [d2, d3][1..] == [d3] && [d3][1..] == [];
    assert MergeAll(map[u := d2], [d3]) == map[];
    assert MergeAll(map[u := d1], [d2, d3]) == map[];
    assert map[u := d0][u := d1] == map[u := d1] && map[u := d1][u := d2] == map[u := d2];
    assert MergeAll(map[u := d0], [d1, d2, d3]) == map[];
    assert ds[..3] == [d0, d1, d2] && ds[3] == d3;
  }

  // ---- the loop itself ----

  /** What wakes the select statement of Run, and how FlushFn answers if it is called. */
  datatype Stimulus = Sending(d: Delta) | Deliver(ok: bool) | Tick(ok: bool)

  lemma {:induction false} RunConcat(max: nat, s: State, run: seq<Event>, more: seq<Event>)
    requires IsRun(max, s, run) && IsRun(max, After(max, s, run), more)
    ensures IsRun(max, s, run + more) && After(max, s, run + more) == After(max, After(max, s, run), more)
    decreases |run|
  {
    if run == [] {
      assert run + more == more;
    } else {
      RunConcat(max, Step(max, s, run[0]), run[1..], more);
      assert (run + more)[0] == run[0] && (run + more)[1..] == run[1..] + more;
    }
  }

  ghost predicate Leads(max: nat, s: State, run: seq<Event>, t: State) {
    IsRun(max, s, run) && After(max, s, run) == t
  }

  // ---- what the stimuli bring about ----

  /** The events one stimulus causes in s. */
  function Response(max: nat, s: State, x: Stimulus): seq<Event> {
    match x
    case Sending(d) => if |s.queue| < max then [Send(d)] else []
    case Deliver(ok) =>
      if s.queue == [] then []
      else if |Merge(s.pending, s.queue[0])| >= max then [Receive, SizeFlush(ok)]
      else [Receive]
    case Tick(ok) => [TickFlush(ok)]
  }

  function Woken(max: nat, s: State, x: Stimulus): State {
    match x
    case Sending(d) => if |s.queue| < max then s.(queue := s.queue + [d], sent := s.sent + [d]) else s
    case Deliver(ok) =>
      if s.queue == [] then s
      else if |Merge(s.pending, s.queue[0])| >= max then FlushStep(ReceiveStep(s), true, ok)
      else ReceiveStep(s)
    case Tick(ok) => FlushStep(s, false, ok)
  }

  function Reached(max: nat, s: State, stimuli: seq<Stimulus>): State {
    if stimuli == [] then s
    else Woken(max, Reached(max, s, stimuli[..|stimuli| - 1]), stimuli[|stimuli| - 1])
  }

  /** One Send for each delta that found room, one Receive for each delivery, a flush as it falls due, and one for each tick. */
  function Responses(max: nat, s: State, stimuli: seq<Stimulus>): seq<Event> {
    if stimuli == [] then []
    else
      var front := stimuli[..|stimuli| - 1];
      Responses(max, s, front) + Response(max, Reached(max, s, front), stimuli[|stimuli| - 1])
  }

  lemma RunOf2(max: nat, s: State, x: Event, y: Event)
    requires Enabled(max, s, x) && Enabled(max, Step(max, s, x), y)
    ensures Leads(max, s, [x, y], Step(max, Step(max, s, x), y))
  {
    assert [x, y][1..] == [y] && [y][1..] == [];
    var t := Step(max, s, x);
    assert IsRun(max, t, [y]) && After(max, t, [y]) == Step(max, t, y);
  }

  lemma ResponseLeads(max: nat, s: State, x: Stimulus)
    requires max > 0 && |s.pending| < max
    ensures Leads(max, s, Response(max, s, x), Woken(max, s, x)) && |Woken(max, s, x).pending| < max
  {
    if x.Deliver? && s.queue != [] && |Merge(s.pending, s.queue[0])| >= max {
      RunOf2(max, s, Receive, SizeFlush(x.ok));
    } else if Response(max, s, x) != [] {
      assert Response(max, s, x)[1..] == [];
    }
  }

  /** The responses are a run of the event machine, and every pass of the loop begins with fewer than max pending. */
  lemma {:induction false} ResponsesLead(max: nat, s: State, stimuli: seq<Stimulus>)
    requires max > 0 && |s.pending| < max
    ensures Leads(max, s, Responses(max, s, stimuli), Reached(max, s, stimuli)) && |Reached(max, s, stimuli).pending| < max
  {
    if stimuli != [] {
      var front, x := stimuli[..|stimuli| - 1], stimuli[|stimuli| - 1];
      ResponsesLead(max, s, front);
      ResponseLeads(max, Reached(max, s, front), x);
      RunConcat(max, s, Responses(max, s, front), Response(max, Reached(max, s, front), x));
    }
  }

  /** The deltas a queue takes up, and how many of them are delivered. */
  datatype Uptake = Uptake(taken: seq<Delta>, delivered: nat)

  /** Of a queue with max places. */
  function Fits(max: nat, stimuli: seq<Stimulus>): Uptake {
    if stimuli == [] then Uptake([], 0)
    else FitsNext(max, Fits(max, stimuli[..|stimuli| - 1]), stimuli[|stimuli| - 1])
  }

  function FitsNext(max: nat, u: Uptake, x: Stimulus): Uptake {
    match x
    case Sending(d) => if |u.taken| - u.delivered < max then u.(taken := u.taken + [d]) else u
    case Deliver(_) => if u.delivered < |u.taken| then u.(delivered := u.delivered + 1) else u
    case Tick(_) => u
  }

  ghost predicate Fitted(t: State, u: Uptake) {
    && u.delivered <= |u.taken|
    && t.sent == u.taken && t.absorbed == u.taken[..u.delivered] && t.queue == u.taken[u.delivered..]
  }

  lemma FittedNext(max: nat, s: State, x: Stimulus, u: Uptake)
    requires Fitted(s, u)
    ensures Fitted(Woken(max, s, x), FitsNext(max, u, x))
  {
    if x.Deliver? && u.delivered < |u.taken| {
      assert u.taken[..u.delivered + 1] == u.taken[..u.delivered] + [u.taken[u.delivered]];
      assert u.taken[u.delivered..][1..] == u.taken[u.delivered + 1..];
    }
  }

  /** Exactly the deltas that found room are sent, and the delivered ones absorbed, in their order. */
  lemma {:induction false} SentIsWhatFitted(max: nat, applied: set<UserId>, stimuli: seq<Stimulus>)
    ensures Fitted(Reached(max, Init(applied), stimuli), Fits(max, stimuli))
  {
    if stimuli != [] {
      var front := stimuli[..|stimuli| - 1];
      SentIsWhatFitted(max, applied, front);
      FittedNext(max, Reached(max, Init(applied), front), stimuli[|front|], Fits(max, front));
    }
  }

  /** The flush a pass makes, if any: what it hands over and what it leaves. */
  ghost predicate FlushedOnce(s: State, t: State, m: Pending, ok: bool) {
    && t.pending == map[]
    && t.applied == (if ok then Applied(s.applied, m) else s.applied)
    && |t.flushes| == |s.flushes| + (if m == map[] then 0 else 1)
    && s.flushes <= t.flushes
    && (m != map[] ==> t.flushes[|s.flushes|].snapshot == m)
  }

  /** Whatever came before: a tick leaves nothing pending, having handed over all that was. */
  lemma TickLeavesNothingPending(max: nat, s0: State, stimuli: seq<Stimulus>, ok: bool)
    ensures
      var s, t := Reached(max, s0, stimuli), Reached(max, s0, stimuli + [Tick(ok)]);
      FlushedOnce(s, t, s.pending, ok) && t.queue == s.queue && t.sent == s.sent && t.absorbed == s.absorbed
  {
    assert (stimuli + [Tick(ok)])[..|stimuli|] == stimuli;
    var s := Reached(max, s0, stimuli);
    assert Applied(s.applied, map[]) == s.applied;
  }

  /** A delivery merges the oldest queued delta, and hands everything over exactly when max users are then pending. */
  lemma DeliveryMergesOne(max: nat, s0: State, stimuli: seq<Stimulus>, ok: bool)
    requires max > 0 && Reached(max, s0, stimuli).queue != []
    ensures
      var s, t := Reached(max, s0, stimuli), Reached(max, s0, stimuli + [Deliver(ok)]);
      var m := Merge(s.pending, s.queue[0]);
      && t.queue == s.queue[1..] && t.absorbed == s.absorbed + [s.queue[0]] && t.sent == s.sent
      && (|m| >= max ==> FlushedOnce(s, t, m, ok))
      && (|m| < max ==> t.pending == m && t.applied == s.applied && t.flushes == s.flushes)
  {
    assert (stimuli + [Deliver(ok)])[..|stimuli|] == stimuli;
  }

  ghost predicate NoTicks(stimuli: seq<Stimulus>) {
    forall i :: 0 <= i < |stimuli| ==> !stimuli[i].Tick?
  }

  lemma {:induction false} ReachedConcat(max: nat, s: State, xs: seq<Stimulus>, ys: seq<Stimulus>)
    ensures Reached(max, s, xs + ys) == Reached(max, Reached(max, s, xs), ys)
  {
    if ys == [] {
      assert xs + ys == xs;
    } else {
      assert (xs + ys)[..|xs + ys| - 1] == xs + ys[..|ys| - 1];
      ReachedConcat(max, s, xs, ys[..|ys| - 1]);
    }
  }

  lemma {:induction false} NoTickResponses(max: nat, s: State, stimuli: seq<Stimulus>)
    requires NoTicks(stimuli)
    ensures NoTick(Responses(max, s, stimuli))
  {
    if stimuli != [] {
      NoTickResponses(max, s, stimuli[..|stimuli| - 1]);
    }
  }

  /** From the head of the loop to the next tick: as many FlushFn calls as the deltas absorbed in between make due. */
  lemma CallsPerWindow(max: nat, s0: State, before: seq<Stimulus>, within: seq<Stimulus>, ok: bool)
    requires max > 0 && |s0.pending| < max && NoTicks(within)
    ensures
      var s, t := Reached(max, s0, before), Reached(max, s0, before + within + [Tick(ok)]);
      && s.absorbed <= t.absorbed
      && |t.flushes| - |s.flushes| == WindowFlushes(max, s.pending, t.absorbed[|s.absorbed|..])
  {
    var s := Reached(max, s0, before);
    ResponsesLead(max, s0, before);
    ResponsesLead(max, s, within);
    ReachedConcat(max, s0, before, within);
    ReachedConcat(max, s0, before + within, [Tick(ok)]);
    var u := Reached(max, s, within);
    assert [Tick(ok)][..0] == [] && Reached(max, u, [Tick(ok)]) == Woken(max, u, Tick(ok));
    ResponseLeads(max, u, Tick(ok));
    RunConcat(max, s, Responses(max, s, within), [TickFlush(ok)]);
    NoTickResponses(max, s, within);
    FlushesPerWindow(max, s, Responses(max, s, within), ok);
  }

  ghost predicate Reports(flushes: seq<Flush>, snapshots: seq<seq<Delta>>) {
    && |snapshots| == |flushes|
    && forall i :: 0 <= i < |flushes| ==> Lists(flushes[i].snapshot, snapshots[i])
  }

  lemma ReportsMore(flushes: seq<Flush>, more: seq<Flush>, calls: seq<seq<Delta>>, call: Option<seq<Delta>>)
    requires Reports(flushes, calls)
    requires call.None? ==> more == flushes
    requires call.Some? ==>
      |more| == |flushes| + 1 && more == flushes + [more[|flushes|]] && Lists(more[|flushes|].snapshot, call.value)
    ensures Reports(more, calls + if call.Some? then [call.value] else [])
  {
  }

  /** One pass of the select statement; `call` is the argument of FlushFn if it was called. */
  method Pass(b: Applier, x: Stimulus, ghost s: State) returns (call: Option<seq<Delta>>)
    requires b.Valid() && b.queue == s.queue && b.pending == s.pending && |b.pending| < b.maxQueue
    modifies b
    ensures
      var t := Woken(b.maxQueue, s, x);
      && b.Valid() && b.queue == t.queue && b.pending == t.pending && |b.pending| < b.maxQueue
      && (call.None? ==> t.flushes == s.flushes)
      && (call.Some? ==>
            |t.flushes| == |s.flushes| + 1 && t.flushes == s.flushes + [t.flushes[|s.flushes|]]
            && Lists(t.flushes[|s.flushes|].snapshot, call.value))
  {
    call := None;
    match x {
      case Sending(d) =>
        var sent := b.Enqueue(d, false, 0);
      case Deliver(_) =>
        if b.queue != [] {
          MergeGrowsByOne(b.pending, b.queue[0]);
          var d := b.Receive();
          b.Absorb(d);
          if |b.pending| >= b.maxQueue {
            call := b.Flush();
          }
        }
      case Tick(_) =>
        call := b.Flush();
    }
  }

  /**
   The loop: it receives, flushes when the size bound is reached or on a tick, and drains
   when the context is cancelled, which is after the last stimulus.  `calls` are the
   arguments FlushFn was called with.  t is where the last pass ends, so whatever has
   happened the loop's head finds fewer than maxQueue deltas pending.
   */
  method Run(b: Applier, stimuli: seq<Stimulus>, ghost applied: set<UserId>)
    returns (calls: seq<seq<Delta>>, ghost run: seq<Event>, ghost t: State)
    requires b.Valid() && b.queue == [] && b.pending == map[]
    modifies b
    ensures b.Valid() && Leads(b.maxQueue, Init(applied), run, t)
    ensures run == Responses(b.maxQueue, Init(applied), stimuli) && t == Reached(b.maxQueue, Init(applied), stimuli)
    ensures t.sent == Fits(b.maxQueue, stimuli).taken
    ensures stimuli != [] && stimuli[|stimuli| - 1].Tick? ==> t.pending == map[]
    ensures Reports(t.flushes, calls) && |t.pending| < b.maxQueue
    ensures b.queue == [] && b.pending == MergeAll(t.pending, t.queue)
  {
    calls, run, t := [], [], Init(applied);
    var next := 0;
    while next < |stimuli|
      invariant b.Valid() && next <= |stimuli|
      invariant run == Responses(b.maxQueue, Init(applied), stimuli[..next])
      invariant t == Reached(b.maxQueue, Init(applied), stimuli[..next])
      invariant b.queue == t.queue && b.pending == t.pending && |b.pending| < b.maxQueue
      invariant Reports(t.flushes, calls)
    {
      assert stimuli[..next + 1][..next] == stimuli[..next];
      ghost var s := t;
      run, t := run + Response(b.maxQueue, s, stimuli[next]), Woken(b.maxQueue, s, stimuli[next]);
      var call := Pass(b, stimuli[next], s);
      ReportsMore(s.flushes, t.flushes, calls, call);
      calls := calls + if call.Some? then [call.value] else [];
      next := next + 1;
    }
    assert stimuli[..next] == stimuli;
    ResponsesLead(b.maxQueue, Init(applied), stimuli);
    SentIsWhatFitted(b.maxQueue, applied, stimuli);
    b.Drain();
  }
}
