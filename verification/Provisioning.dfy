/**
 Provisioning a node: the panel mints a bearer, installs it on the node together with the
 agent, keeps its own copy and marks the node online.  Every action is one remote command
 or one row update; calls for different nodes, restarts of the agent and operators changing
 states interleave freely.
 */
module Provisioning {
  import opened Wrappers

  type NodeId = nat
  type CallId = nat
  datatype Bearer = Bearer(hex: string)

  datatype NodeState = New | Online | Offline | Draining | Disabled

  /** The node's agent.env: not there, or there with a bearer, or with none an agent could read. */
  datatype EnvFile = Absent | Holds(bearer: Option<Bearer>)

  /** The row's state and bearer, the node's agent.env, and the bearer its running agent has read. */
  datatype Node = Node(state: NodeState, panel: Option<Bearer>, env: EnvFile, loaded: Option<Bearer>)

  /** The next thing a call will do. */
  datatype Pc =
    | Started      // choose credentials, connect, upload the agent, write agent.env
    | EnvWritten   // write the certificates, install and restart the unit
    | Restarted    // run the hook, verify
    | Installed    // SetAgentBearer
    | Paired       // save the state: online
    | Failing      // save the state: offline
    | Finished

  datatype Call = Call(node: NodeId, bearer: Bearer, pc: Pc)

  /**
   stray: calls that stopped waiting for their agent.env command while it may still run.
   spoiled: history; nodes whose agent.env was last written by a command that reported success
   without putting the bearer there, or by a stray one.
   */
  datatype State = State(nodes: map<NodeId, Node>, calls: map<CallId, Call>, stray: set<CallId>, spoiled: set<NodeId>)

  /** A row update can also take effect and still report an error. */
  datatype Write = Written | NotWritten | WrittenWithError

  /** How `cat > agent.env` ended: with the whole body, cut short with this bearer in the file, or not even begun. */
  datatype Cat = Whole | Cut(left: Option<Bearer>) | NotOpened

  /** install -d && cat > agent.env, then chmod; chmod: whether it works on a file that is there. */
  datatype EnvScript = EnvScript(made: bool, cat: Cat, chmod: bool)

  /** The command ran to its end, or the caller stopped waiting for it. */
  datatype EnvWrite = Ran(script: EnvScript) | Abandoned

  function FileAfter(env: EnvFile, b: Bearer, w: EnvWrite): EnvFile {
    if w.Abandoned? || !w.script.made then env
    else match w.script.cat
         case Whole => Holds(Some(b))
         case Cut(left) => Holds(left)
         case NotOpened => env
  }

  /** The status reported is that of chmod alone, which fails without a file. */
  predicate Reports(env: EnvFile, b: Bearer, w: EnvWrite) {
    w.Ran? && w.script.chmod && FileAfter(env, b, w).Holds?
  }

  function ReadBearer(env: EnvFile): Option<Bearer> {
    if env.Holds? then env.bearer else None
  }

  datatype Action =
    | Begin(c: CallId, node: NodeId, bearer: Bearer)
    | GiveUp(c: CallId)                                        // no usable credentials
    | FailStage(c: CallId)                                     // a stage that touches neither agent.env nor the agent
    | WriteEnv(c: CallId, env: EnvWrite)
    | InstallUnit(c: CallId, ok: bool, restarted: bool)
    | Verify(c: CallId)
    | SetBearer(c: CallId, w: Write)
    | SaveState(c: CallId, w: Write)
    | LateWrite(c: CallId, left: Option<Bearer>)               // a stray command gets on
    | AgentRestarts(node: NodeId)
    | OperatorSets(node: NodeId, state: NodeState)

  predicate IsProvisionable(st: NodeState) { st == New || st == Offline }

  predicate At(s: State, c: CallId, pcs: set<Pc>) {
    c in s.calls && s.calls[c].pc in pcs && s.calls[c].node in s.nodes
  }

  ghost predicate Enabled(s: State, a: Action) {
    match a
    case Begin(c, n, _) => c !in s.calls && n in s.nodes
    case GiveUp(c) => At(s, c, {Started})
    case FailStage(c) => At(s, c, {Started, EnvWritten, Restarted})
    case WriteEnv(c, _) => At(s, c, {Started})
    case InstallUnit(c, _, _) => At(s, c, {EnvWritten})
    case Verify(c) => At(s, c, {Restarted})
    case SetBearer(c, _) => At(s, c, {Installed})
    case SaveState(c, _) => At(s, c, {Paired, Failing})
    case LateWrite(c, left) => c in s.stray && c in s.calls && s.calls[c].node in s.nodes && OwnText(s, c, left)
    case AgentRestarts(n) => n in s.nodes
    case OperatorSets(n, st) => n in s.nodes && st != Online
  }

  /** A stray command writes its own bearer, whole or in part; bearers are random, so it is nobody else's. */
  ghost predicate OwnText(s: State, c: CallId, left: Option<Bearer>)
    requires c in s.calls && s.calls[c].node in s.nodes
  {
    && (s.nodes[s.calls[c].node].panel.Some? ==> left != s.nodes[s.calls[c].node].panel)
    && forall d :: d in s.calls && d != c ==> left != Some(s.calls[d].bearer)
  }

  function Goto(s: State, c: CallId, pc: Pc): State
    requires c in s.calls
  {
    s.(calls := s.calls[c := s.calls[c].(pc := pc)])
  }

  function Put(s: State, n: NodeId, node: Node): State { s.(nodes := s.nodes[n := node]) }

  ghost function Step(s: State, a: Action): State
    requires Enabled(s, a)
  {
    match a
    case Begin(c, n, b) =>
      s.(calls := s.calls[c := Call(n, b, if IsProvisionable(s.nodes[n].state) then Started else Finished)])
    case GiveUp(c) => Goto(s, c, Finished)
    case FailStage(c) => Goto(s, c, Failing)
    case WriteEnv(c, w) =>
      var n, b := s.calls[c].node, s.calls[c].bearer;
      var env, ok := FileAfter(s.nodes[n].env, b, w), Reports(s.nodes[n].env, b, w);
      Put(Goto(s, c, if ok then EnvWritten else Failing), n, s.nodes[n].(env := env)).(
        stray := if w.Abandoned? then s.stray + {c} else s.stray,
        spoiled := if !ok then s.spoiled else if env == Holds(Some(b)) then s.spoiled - {n} else s.spoiled + {n})
    case InstallUnit(c, ok, restarted) =>
      var n := s.calls[c].node;
      Put(Goto(s, c, if ok then Restarted else Failing), n,
          s.nodes[n].(loaded := if ok || restarted then ReadBearer(s.nodes[n].env) else s.nodes[n].loaded))
    case Verify(c) => Goto(s, c, Installed)
    case SetBearer(c, w) =>
      var n, b := s.calls[c].node, s.calls[c].bearer;
      Put(Goto(s, c, if w.Written? then Paired else Failing), n,
          if w.NotWritten? then s.nodes[n] else s.nodes[n].(panel := Some(b)))
    case SaveState(c, w) =>
      var n, target := s.calls[c].node, if s.calls[c].pc == Paired then Online else Offline;
      Put(Goto(s, c, Finished), n, if w.NotWritten? then s.nodes[n] else s.nodes[n].(state := target))
    case LateWrite(c, left) =>
      var n := s.calls[c].node;
      Put(s, n, s.nodes[n].(env := Holds(left))).(spoiled := s.spoiled + {n})
    case AgentRestarts(n) => Put(s, n, s.nodes[n].(loaded := ReadBearer(s.nodes[n].env)))
    case OperatorSets(n, st) => Put(s, n, s.nodes[n].(state := st))
  }

  ghost predicate Active(s: State, c: CallId) { c in s.calls && s.calls[c].pc != Finished }

  /** A call begins only while no other is under way for its node. */
  ghost predicate Alone(s: State, a: Action) {
    a.Begin? ==> forall c :: Active(s, c) ==> s.calls[c].node != a.node
  }

  ghost predicate IsRun(s: State, run: seq<Action>)
    decreases |run|
  {
    run == [] || (Enabled(s, run[0]) && IsRun(Step(s, run[0]), run[1..]))
  }

  ghost function After(s: State, run: seq<Action>): State
    requires IsRun(s, run)
    decreases |run|
  {
    if run == [] then s else After(Step(s, run[0]), run[1..])
  }

  /** No two calls for one node overlap. */
  ghost predicate Serial(s: State, run: seq<Action>)
    requires IsRun(s, run)
    decreases |run|
  {
    run == [] || (Alone(s, run[0]) && Serial(Step(s, run[0]), run[1..]))
  }

  // ---- the invariant ----

  /** The panel, agent.env and the running agent hold one and the same bearer. */
  ghost predicate Agrees(n: Node) {
    n.panel.Some? && n.env == Holds(n.panel) && n.loaded == n.panel
  }

  ghost predicate OnlineAgrees(s: State) {
    forall n :: n in s.nodes && s.nodes[n].state == Online ==> Agrees(s.nodes[n])
  }

  /** An online node agrees with the panel, agent and file, unless its file was spoiled. */
  ghost predicate Told(n: Node, spoiled: bool) {
    n.panel.Some? && (spoiled <==> n.env != Holds(n.panel)) && (!spoiled ==> n.loaded == n.panel)
  }

  ghost predicate OnlineTold(s: State) {
    forall n :: n in s.nodes && s.nodes[n].state == Online ==> Told(s.nodes[n], n in s.spoiled)
  }

  ghost predicate OneAtATime(s: State) {
    forall c, d :: Active(s, c) && Active(s, d) && c != d ==> s.calls[c].node != s.calls[d].node
  }

  /** How far a call has brought its node. */
  ghost predicate Progress(call: Call, n: Node, spoiled: bool) {
    && n.state != Online
    && (call.pc in {EnvWritten, Restarted, Installed, Paired} ==> (spoiled <==> n.env != Holds(Some(call.bearer))))
    && (call.pc in {Restarted, Installed, Paired} && !spoiled ==> n.loaded == Some(call.bearer))
    && (call.pc == Paired ==> n.panel == Some(call.bearer))
  }

  ghost predicate Progressing(s: State) {
    && (forall c :: c in s.stray && c in s.calls ==> s.calls[c].pc in {Failing, Finished})
    && forall c :: Active(s, c) ==>
         s.calls[c].node in s.nodes && Progress(s.calls[c], s.nodes[s.calls[c].node], s.calls[c].node in s.spoiled)
  }

  ghost predicate Inv(s: State) {
    OnlineTold(s) && OneAtATime(s) && Progressing(s) && s.stray <= s.calls.Keys
  }

  predicate OfCall(a: Action) {
    !a.Begin? && !a.AgentRestarts? && !a.OperatorSets? && !a.LateWrite?
  }

  /** A step of a call changes its own node and call only. */
  lemma CallStepFrame(s: State, a: Action)
    requires Enabled(s, a) && OfCall(a)
    ensures Active(s, a.c) && s.calls[a.c].node in s.nodes
    ensures
      var t, n := Step(s, a), s.calls[a.c].node;
      && t.calls.Keys == s.calls.Keys && t.nodes.Keys == s.nodes.Keys
      && t.calls[a.c].node == n && t.calls[a.c].bearer == s.calls[a.c].bearer
      && (forall c :: c in s.calls && c != a.c ==> t.calls[c] == s.calls[c])
      && (forall m :: m in s.nodes && m != n ==> t.nodes[m] == s.nodes[m] && (m in t.spoiled <==> m in s.spoiled))
  {
  }

  lemma OwnStepKeeps(s: State, a: Action)
    requires Inv(s) && Enabled(s, a) && OfCall(a)
    ensures
      var t, n := Step(s, a), s.calls[a.c].node;
      && n in t.nodes && a.c in t.calls
      && (t.nodes[n].state == Online ==> Told(t.nodes[n], n in t.spoiled))
      && (t.calls[a.c].pc != Finished ==> Progress(t.calls[a.c], t.nodes[n], n in t.spoiled))
      && (a.c in t.stray ==> t.calls[a.c].pc in {Failing, Finished})
  {
    assert Active(s, a.c);
  }

  /** Every remote command and row update of a call keeps the invariant. */
  lemma CallStepKeeps(s: State, a: Action)
    requires Inv(s) && Enabled(s, a) && OfCall(a)
    ensures Inv(Step(s, a))
  {
    var t := Step(s, a);
    CallStepFrame(s, a);
    OwnStepKeeps(s, a);
    forall c | Active(t, c)
      ensures Active(s, c) && t.calls[c].node == s.calls[c].node && t.calls[c].node in t.nodes
      ensures Progress(t.calls[c], t.nodes[t.calls[c].node], t.calls[c].node in t.spoiled)
    {
      assert Active(s, c);
    }
    assert OneAtATime(t);
  }

  lemma BeginKeeps(s: State, a: Action)
    requires Inv(s) && Enabled(s, a) && Alone(s, a) && a.Begin?
    ensures Inv(Step(s, a))
  {
    var t := Step(s, a);
    forall c | Active(t, c)
      ensures t.calls[c].node in t.nodes && Progress(t.calls[c], t.nodes[t.calls[c].node], t.calls[c].node in t.spoiled)
    {
      assert Active(s, c) || a.c == c;
    }
    forall c, d | Active(t, c) && Active(t, d) && c != d
      ensures t.calls[c].node != t.calls[d].node
    {
      assert Active(s, c) || a.c == c;
      assert Active(s, d) || a.c == d;
    }
  }

  lemma OutsideStepKeeps(s: State, a: Action)
    requires Inv(s) && Enabled(s, a) && (a.AgentRestarts? || a.OperatorSets? || a.LateWrite?)
    ensures Inv(Step(s, a))
  {
    var t := Step(s, a);
    forall c | Active(t, c)
      ensures t.calls[c].node in t.nodes && Progress(t.calls[c], t.nodes[t.calls[c].node], t.calls[c].node in t.spoiled)
    {
      assert Active(s, c);
    }
    forall c, d | Active(t, c) && Active(t, d) && c != d
      ensures t.calls[c].node != t.calls[d].node
    {
      assert Active(s, c) && Active(s, d);
    }
  }

  lemma InvKept(s: State, a: Action)
    requires Inv(s) && Enabled(s, a) && Alone(s, a)
    ensures Inv(Step(s, a))
  {
    if OfCall(a) {
      CallStepKeeps(s, a);
    } else if a.Begin? {
      BeginKeeps(s, a);
    } else {
      OutsideStepKeeps(s, a);
    }
  }

  lemma {:induction false} InvAfter(s: State, run: seq<Action>)
    requires Inv(s) && IsRun(s, run) && Serial(s, run)
    ensures Inv(After(s, run))
    decreases |run|
  {
    if run != [] {
      InvKept(s, run[0]);
      InvAfter(Step(s, run[0]), run[1..]);
    }
  }

  /**
   While calls for one node do not overlap: a node marked online has one bearer in the panel, in
   agent.env and in the running agent exactly when its agent.env was not spoiled.
   */
  lemma OnlineMeansOneBearer(s: State, run: seq<Action>, n: NodeId)
    requires Inv(s) && IsRun(s, run) && Serial(s, run)
    requires n in After(s, run).nodes && After(s, run).nodes[n].state == Online
    ensures Agrees(After(s, run).nodes[n]) <==> n !in After(s, run).spoiled
  {
    InvAfter(s, run);
  }

  /** A command that reports success without the bearer in place, or a stray one that gets on. */
  ghost predicate Spoils(s: State, a: Action)
    requires Enabled(s, a)
  {
    || a.LateWrite?
    || (a.WriteEnv?
        && Reports(s.nodes[s.calls[a.c].node].env, s.calls[a.c].bearer, a.env)
        && FileAfter(s.nodes[s.calls[a.c].node].env, s.calls[a.c].bearer, a.env) != Holds(Some(s.calls[a.c].bearer)))
  }

  ghost predicate NeverSpoils(s: State, run: seq<Action>)
    requires IsRun(s, run)
    decreases |run|
  {
    run == [] || (!Spoils(s, run[0]) && NeverSpoils(Step(s, run[0]), run[1..]))
  }

  lemma {:induction false} NothingSpoiled(s: State, run: seq<Action>)
    requires IsRun(s, run) && NeverSpoils(s, run)
    ensures After(s, run).spoiled <= s.spoiled
    decreases |run|
  {
    if run != [] {
      NothingSpoiled(Step(s, run[0]), run[1..]);
    }
  }

  /** Hence, with any other failures, every online node has one bearer everywhere. */
  lemma UnspoiledRunsAgree(s: State, run: seq<Action>)
    requires Inv(s) && s.spoiled == {} && IsRun(s, run) && Serial(s, run) && NeverSpoils(s, run)
    ensures OnlineAgrees(After(s, run))
  {
    InvAfter(s, run);
    NothingSpoiled(s, run);
  }

  /** Provisioning never touches a node that is online: only an operator takes it out of that state. */
  lemma OnlineIsLeftAlone(s: State, a: Action, n: NodeId)
    requires Inv(s) && Enabled(s, a) && n in s.nodes && s.nodes[n].state == Online
    requires !(a.OperatorSets? && a.node == n) && !(a.LateWrite? && s.calls[a.c].node == n)
    requires !(a.AgentRestarts? && a.node == n)
    ensures Step(s, a).nodes[n] == s.nodes[n]
  {
    if OfCall(a) {
      CallStepFrame(s, a);
      assert s.calls[a.c].node != n;
    }
  }

  ghost predicate Idle(s: State, n: NodeId) {
    forall c :: Active(s, c) ==> s.calls[c].node != n
  }

  lemma IdleStays(s: State, a: Action, n: NodeId)
    requires Enabled(s, a) && n in s.nodes && Idle(s, n) && !IsProvisionable(s.nodes[n].state)
    requires !(a.OperatorSets? && a.node == n)
    ensures n in Step(s, a).nodes && Idle(Step(s, a), n)
    ensures Step(s, a).nodes[n].state == s.nodes[n].state && Step(s, a).nodes[n].panel == s.nodes[n].panel
  {
    var t := Step(s, a);
    if OfCall(a) {
      CallStepFrame(s, a);
    }
    forall c | Active(t, c)
      ensures t.calls[c].node != n
    {
      assert Active(s, c) || (a.Begin? && a.c == c);
    }
  }

  /** However often it is asked for, provisioning leaves a node alone that is neither new nor offline. */
  lemma {:induction false} OnlyNewAndOfflineAreProvisioned(s: State, run: seq<Action>, n: NodeId)
    requires IsRun(s, run) && n in s.nodes && Idle(s, n) && s.nodes[n].state !in {New, Offline}
    requires forall i :: 0 <= i < |run| && run[i].OperatorSets? ==> run[i].node != n
    ensures n in After(s, run).nodes && Idle(After(s, run), n)
    ensures After(s, run).nodes[n].state == s.nodes[n].state && After(s, run).nodes[n].panel == s.nodes[n].panel
    decreases |run|
  {
    if run != [] {
      IdleStays(s, run[0], n);
      OnlyNewAndOfflineAreProvisioned(Step(s, run[0]), run[1..], n);
    }
  }

  // ---- runs built action by action ----

  lemma {:induction false} RunConcat(s: State, run: seq<Action>, more: seq<Action>)
    requires IsRun(s, run) && IsRun(After(s, run), more)
    ensures IsRun(s, run + more) && After(s, run + more) == After(After(s, run), more)
    ensures Serial(s, run + more) <==> Serial(s, run) && Serial(After(s, run), more)
    decreases |run|
  {
    if run == [] {
      assert run + more == more;
    } else {
      assert (run + more)[1..] == run[1..] + more;
      RunConcat(Step(s, run[0]), run[1..], more);
    }
  }

  ghost predicate Leads(s: State, run: seq<Action>, t: State) {
    IsRun(s, run) && After(s, run) == t
  }

  lemma Follow(s: State, run: seq<Action>, t: State, a: Action) returns (longer: seq<Action>, next: State)
    requires Leads(s, run, t) && Enabled(t, a)
    ensures next == Step(t, a) && longer == run + [a] && Leads(s, longer, next)
    ensures Serial(s, longer) <==> Serial(s, run) && Alone(t, a)
  {
    longer, next := run + [a], Step(t, a);
    assert [a][1..] == [];
    assert IsRun(next, []);
    RunConcat(s, run, [a]);
  }

  /** The rest of a call whose agent is running, when everything works. */
  lemma CallGoesOnline(s: State, run: seq<Action>, t: State, c: CallId) returns (r: seq<Action>, u: State)
    requires Leads(s, run, t) && At(t, c, {Restarted})
    ensures Leads(s, r, u) && (Serial(s, r) <==> Serial(s, run))
    ensures
      var n, b := t.calls[c].node, t.calls[c].bearer;
      u == t.(calls := t.calls[c := Call(n, b, Finished)],
              nodes := t.nodes[n := t.nodes[n].(panel := Some(b), state := Online)])
  {
    r, u := Follow(s, run, t, Verify(c));
    r, u := Follow(s, r, u, SetBearer(c, Written));
    r, u := Follow(s, r, u, SaveState(c, Written));
  }

  /** From writing agent.env to a running agent, when the command reports success. */
  lemma CallRestarts(s: State, run: seq<Action>, t: State, c: CallId, script: EnvScript) returns (r: seq<Action>, u: State)
    requires Leads(s, run, t) && At(t, c, {Started})
    requires Reports(t.nodes[t.calls[c].node].env, t.calls[c].bearer, Ran(script))
    ensures Leads(s, r, u) && (Serial(s, r) <==> Serial(s, run))
    ensures
      var n, b := t.calls[c].node, t.calls[c].bearer;
      var env := FileAfter(t.nodes[n].env, b, Ran(script));
      && u.calls == t.calls[c := Call(n, b, Restarted)]
      && u.nodes == t.nodes[n := t.nodes[n].(env := env, loaded := ReadBearer(env))]
      && (n in u.spoiled <==> env != Holds(Some(b)))
  {
    r, u := Follow(s, run, t, WriteEnv(c, Ran(script)));
    r, u := Follow(s, r, u, InstallUnit(c, true, true));
  }

  /**
   Whenever the agent.env command reports success without the bearer in the file (an earlier file that
   could not be written again, or one `cat` left cut short by a full disk, while chmod works), one call
   that otherwise works puts the node online with the panel alone holding the bearer.
   */
  lemma MisreportBreaksAgreement(s: State, c: CallId, script: EnvScript) returns (run: seq<Action>)
    requires At(s, c, {Started}) && Reports(s.nodes[s.calls[c].node].env, s.calls[c].bearer, Ran(script))
    requires FileAfter(s.nodes[s.calls[c].node].env, s.calls[c].bearer, Ran(script)) != Holds(Some(s.calls[c].bearer))
    ensures IsRun(s, run) && Serial(s, run)
    ensures
      var n, b, t := s.calls[c].node, s.calls[c].bearer, After(s, run);
      && n in t.nodes && t.nodes[n].state == Online && t.nodes[n].panel == Some(b) && t.nodes[n].env != Holds(Some(b))
      && !Agrees(t.nodes[n])
  {
    assert Leads(s, [], s) && Serial(s, []);
    var t;
    run, t := CallRestarts(s, [], s, c, script);
    run, t := CallGoesOnline(s, run, t, c);
  }

  /** A stray command of an earlier call breaks a node that is online. */
  lemma LateWriteBreaksAgreement(s: State, c: CallId, left: Option<Bearer>)
    requires Inv(s) && Enabled(s, LateWrite(c, left)) && s.nodes[s.calls[c].node].state == Online
    ensures !Agrees(Step(s, LateWrite(c, left)).nodes[s.calls[c].node])
  {
  }

  /** A panel that has registered one node and not provisioned it. */
  const REGISTERED: State := State(map[0 := Node(New, None, Absent, None)], map[], {}, {})

  lemma BothCallsBegin(a: Bearer, b: Bearer) returns (run: seq<Action>, t: State)
    ensures Leads(REGISTERED, run, t) && !Serial(REGISTERED, run)
    ensures t.calls == map[1 := Call(0, a, Restarted), 2 := Call(0, b, Started)]
    ensures t.nodes == map[0 := Node(New, None, Holds(Some(a)), Some(a))]
  {
    assert Leads(REGISTERED, [], REGISTERED);
    run, t := Follow(REGISTERED, [], REGISTERED, Begin(1, 0, a));
    run, t := CallRestarts(REGISTERED, run, t, 1, EnvScript(true, Whole, true));
    assert Active(t, 1);
    run, t := Follow(REGISTERED, run, t, Begin(2, 0, b));
  }

  /** From a panel at rest, two overlapping calls can leave a node online with the panel holding the other call's bearer. */
  lemma OverlapBreaksAgreement(a: Bearer, b: Bearer) returns (run: seq<Action>)
    requires a != b
    ensures Inv(REGISTERED) && IsRun(REGISTERED, run) && !Serial(REGISTERED, run)
    ensures 0 in After(REGISTERED, run).nodes
    ensures After(REGISTERED, run).nodes[0] == Node(Online, Some(a), Holds(Some(b)), Some(b))
    ensures forall c :: !Active(After(REGISTERED, run), c)
  {
    var t;
    run, t := BothCallsBegin(a, b);
    run, t := CallRestarts(REGISTERED, run, t, 2, EnvScript(true, Whole, true));
    run, t := CallGoesOnline(REGISTERED, run, t, 2);
    run, t := CallGoesOnline(REGISTERED, run, t, 1);
  }

  // ---- the transition table ----

  /** state.go's graph; staying put is always allowed. */
  predicate CanTransition(from: NodeState, to: NodeState) {
    from == to || (from, to) in {
      (New, Online), (New, Offline), (Offline, New), (Online, Draining), (Online, Offline),
      (Draining, Disabled), (Disabled, New), (Draining, New)}
  }

  /** The state a call saves is an edge of that graph except when it brings an offline node online. */
  lemma SavedStateIsEdgeExactly(prev: NodeState, target: NodeState)
    requires IsProvisionable(prev) && target in {Online, Offline}
    ensures CanTransition(prev, target) <==> !(prev == Offline && target == Online)
  {
  }

  // ---- the straight-line code ----

  /** Which steps of one call work. */
  datatype Script = Script(
    credentials: bool, reach: bool, env: EnvWrite, certs: bool,
    unit: bool, restarted: bool, hook: bool, verified: bool, setBearer: Write, saveState: Write)

  /** The agent.env command is answered with success: it ran, chmod worked, and there was a file for it. */
  predicate EnvAnswered(e: Script, env: EnvFile) {
    e.env.Ran? && e.env.script.chmod && (env.Holds? || (e.env.script.made && !e.env.script.cat.NotOpened?))
  }

  /** Every stage of the install works. */
  predicate Installs(e: Script, env: EnvFile) {
    e.reach && EnvAnswered(e, env) && e.certs && e.unit && e.hook && e.verified
  }

  /** Once the command has run, agent.env holds the new bearer. */
  predicate BearerInPlace(e: Script, env: EnvFile, b: Bearer)
    requires e.env.Ran?
  {
    match e.env.script
    case EnvScript(true, Whole, _) => true
    case EnvScript(true, Cut(left), _) => left == Some(b)
    case _ => env == Holds(Some(b))
  }

  /** The state Provision returns and whether it returns without an error. */
  datatype Reply = Reply(state: NodeState, ok: bool)

  /** What the row and the answer become of an install that worked or not. */
  ghost predicate Recorded(n: Node, after: Node, b: Bearer, installed: bool, e: Script, reply: Reply) {
    && reply.state == (if installed && e.setBearer.Written? then Online else Offline)
    && (reply.ok <==> installed && e.setBearer.Written? && e.saveState.Written?)
    && after.state == (if e.saveState.NotWritten? then n.state else reply.state)
    && after.panel == (if installed && !e.setBearer.NotWritten? then Some(b) else n.panel)
  }

  class Panel {
    var nodes: map<NodeId, Node>

    /** Install: upload, agent.env, certificates, unit, hook, verify. */
    method Install(id: NodeId, bearer: Bearer, e: Script,
                   ghost s: State, ghost c: CallId, ghost run0: seq<Action>, ghost t0: State)
      returns (ok: bool, ghost run: seq<Action>, ghost t: State)
      requires Leads(s, run0, t0) && Serial(s, run0) && t0.nodes == nodes
      requires id in nodes && At(t0, c, {Started}) && t0.calls[c] == Call(id, bearer, Started)
      modifies this
      ensures Leads(s, run, t) && Serial(s, run) && t.nodes == nodes && At(t, c, {Installed, Failing})
      ensures t.calls == t0.calls[c := Call(id, bearer, if ok then Installed else Failing)]
      ensures ok <==> Installs(e, old(nodes)[id].env)
      ensures nodes.Keys == old(nodes).Keys && forall m :: m in nodes && m != id ==> nodes[m] == old(nodes)[m]
      ensures nodes[id].state == old(nodes)[id].state && nodes[id].panel == old(nodes)[id].panel
      ensures nodes[id].env == if e.reach then FileAfter(old(nodes)[id].env, bearer, e.env) else old(nodes)[id].env
      ensures
        var restarts := e.reach && EnvAnswered(e, old(nodes)[id].env) && e.certs && (e.unit || e.restarted);
        nodes[id].loaded == if restarts then nodes[id].env.bearer else old(nodes)[id].loaded
    {
      ok, run, t := false, run0, t0;
      if !e.reach {
        run, t := Follow(s, run, t, FailStage(c));
        return;
      }
      run, t := Follow(s, run, t, WriteEnv(c, e.env));
      var reported := Reports(nodes[id].env, bearer, e.env);
      nodes := nodes[id := nodes[id].(env := FileAfter(nodes[id].env, bearer, e.env))];
      if !reported {
        return;
      }
      if !e.certs {
        run, t := Follow(s, run, t, FailStage(c));
        return;
      }
      run, t := Follow(s, run, t, InstallUnit(c, e.unit, e.restarted));
      if e.unit || e.restarted {
        nodes := nodes[id := nodes[id].(loaded := ReadBearer(nodes[id].env))];
      }
      if !e.unit {
        return;
      }
      if !e.hook || !e.verified {
        run, t := Follow(s, run, t, FailStage(c));
        return;
      }
      run, t := Follow(s, run, t, Verify(c));
      ok := true;
    }

    method Provision(id: NodeId, bearer: Bearer, e: Script, ghost s: State, ghost c: CallId)
      returns (reply: Option<Reply>, ghost run: seq<Action>, ghost t: State)
      requires s.nodes == nodes && c !in s.calls
      requires forall d :: Active(s, d) ==> s.calls[d].node != id
      modifies this
      ensures Leads(s, run, t) && Serial(s, run) && t.nodes == nodes && !Active(t, c)
      ensures reply.None? <==> id !in old(nodes)
      ensures t.calls == if id in old(nodes) then s.calls[c := Call(id, bearer, Finished)] else s.calls
      ensures nodes.Keys == old(nodes).Keys && forall m :: m in nodes && m != id ==> nodes[m] == old(nodes)[m]
      ensures reply.Some? && (!IsProvisionable(old(nodes)[id].state) || !e.credentials) ==>
        nodes == old(nodes) && reply.value == Reply(old(nodes)[id].state, false)
      ensures reply.Some? && IsProvisionable(old(nodes)[id].state) && e.credentials ==>
        && Recorded(old(nodes)[id], nodes[id], bearer, Installs(e, old(nodes)[id].env), e, reply.value)
        && nodes[id].env == if e.reach then FileAfter(old(nodes)[id].env, bearer, e.env) else old(nodes)[id].env
      ensures reply.Some? && reply.value.ok ==>
        && e.env.Ran? && nodes[id].env.Holds? && nodes[id].loaded == nodes[id].env.bearer
        && (Agrees(nodes[id]) <==> BearerInPlace(e, old(nodes)[id].env, bearer))
    {
      run, t := [], s;
      if id !in nodes {
        return None, run, t;
      }
      var prev := nodes[id].state;
      run, t := Follow(s, run, t, Begin(c, id, bearer));
      if !IsProvisionable(prev) {
        return Some(Reply(prev, false)), run, t;
      }
      if !e.credentials {
        run, t := Follow(s, run, t, GiveUp(c));
        return Some(Reply(prev, false)), run, t;
      }
      var ok;
      ok, run, t := Install(id, bearer, e, s, c, run, t);
      var r;
      r, run, t := Record(id, bearer, ok, e, s, c, run, t);
      return Some(r), run, t;
    }

    /** Keeps the bearer of a successful install, then saves the state. */
    method Record(id: NodeId, bearer: Bearer, installed: bool, e: Script,
                  ghost s: State, ghost c: CallId, ghost run0: seq<Action>, ghost t0: State)
      returns (reply: Reply, ghost run: seq<Action>, ghost t: State)
      requires Leads(s, run0, t0) && Serial(s, run0) && t0.nodes == nodes && id in nodes
      requires c in t0.calls && t0.calls[c] == Call(id, bearer, if installed then Installed else Failing)
      modifies this
      ensures Leads(s, run, t) && Serial(s, run) && t.nodes == nodes
      ensures t.calls == t0.calls[c := Call(id, bearer, Finished)]
      ensures nodes.Keys == old(nodes).Keys && forall m :: m in nodes && m != id ==> nodes[m] == old(nodes)[m]
      ensures Recorded(old(nodes)[id], nodes[id], bearer, installed, e, reply)
      ensures nodes[id].env == old(nodes)[id].env && nodes[id].loaded == old(nodes)[id].loaded
    {
      run, t := run0, t0;
      var ok, target := installed, if installed then Online else Offline;
      if installed {
        run, t := Follow(s, run, t, SetBearer(c, e.setBearer));
        if !e.setBearer.NotWritten? {
          nodes := nodes[id := nodes[id].(panel := Some(bearer))];
        }
        if !e.setBearer.Written? {
          ok := false;
          target := Offline;
        }
      }
      run, t := Follow(s, run, t, SaveState(c, e.saveState));
      if !e.saveState.NotWritten? {
        nodes := nodes[id := nodes[id].(state := target)];
      }
      if !e.saveState.Written? {
        return Reply(target, false), run, t;
      }
      return Reply(target, ok), run, t;
    }
  }
}
