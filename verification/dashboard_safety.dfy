/** What every interleaving of the dashboard's handlers, timers and loops keeps. */
module DashboardSafety {
  import opened Text
  import opened Netem
  import opened TcText
  import opened Tc
  import opened World
  import opened Lifecycle
  import opened Links
  import opened Dashboard
  import M = Monkey

  // ---- runs ----

  function Fresh(world: World): Server {
    Server(map[], map[], 0, None, NO_MONKEY, 0, {}, map[], multiset{}, world)
  }

  ghost predicate IsRun(run: seq<Server>, events: seq<Event>) {
    && |run| == |events| + 1
    && Good(run[0].world) && run[0] == Fresh(run[0].world)
    && forall k | 0 <= k < |events| :: Step(run[k], events[k], run[k + 1])
  }

  lemma RunStep(run: seq<Server>, events: seq<Event>, k: nat)
    requires IsRun(run, events) && k < |events|
    ensures Step(run[k], events[k], run[k + 1])
  {
  }

  lemma {:induction false} RunsKeepInv(run: seq<Server>, events: seq<Event>, k: nat)
    requires IsRun(run, events) && k <= |events|
    ensures Inv(run[k]) && Tracked(run[k])
  {
    if k > 0 {
      RunsKeepInv(run, events, k - 1);
      StepKeepsInv(run[k - 1], events[k - 1], run[k]);
      StepKeepsTracked(run[k - 1], events[k - 1], run[k]);
    }
  }

  // ---- helpers ----

  /** In whatever order the handlers, timers and loops run, with other steps between the two commands
      of a node action: a shaped node has a helper in every state of a run if and only if no step
      drops the helper of a shaped node. */
  lemma RunsStayHelpedIff(run: seq<Server>, events: seq<Event>)
    requires IsRun(run, events)
    ensures (forall k | 0 <= k <= |events| :: HelperInvariant(run[k].world))
       <==> forall k | 0 <= k < |events| :: !Strands(run[k], events[k])
  {
    if forall k | 0 <= k <= |events| :: HelperInvariant(run[k].world) {
      forall k | 0 <= k < |events| ensures !Strands(run[k], events[k]) {
        assert HelperInvariant(run[k].world) && HelperInvariant(run[k + 1].world);
        RunsKeepInv(run, events, k);
        StepKeepsInv(run[k], events[k], run[k + 1]);
      }
    } else if forall k | 0 <= k < |events| :: !Strands(run[k], events[k]) {
      forall k | 0 <= k <= |events| ensures HelperInvariant(run[k].world) {
        StayHelped(run, events, k);
      }
    }
  }

  lemma {:induction false} StayHelped(run: seq<Server>, events: seq<Event>, k: nat)
    requires IsRun(run, events) && k <= |events|
    requires forall j | 0 <= j < k :: !Strands(run[j], events[j])
    ensures HelperInvariant(run[k].world)
  {
    if k > 0 {
      StayHelped(run, events, k - 1);
      RunsKeepInv(run, events, k - 1);
      StepKeepsInv(run[k - 1], events[k - 1], run[k]);
    }
  }

  /** Nobody stands between docker's command and the removal of the helper. */
  predicate NothingPending(s: Server) {
    s.drops == multiset{} && forall c | c in s.loops :: DropOf(s, c).None?
  }

  /** The helper of node i is still to be removed. */
  predicate Pending(s: Server, i: nat) {
    i in s.drops || exists c :: c in s.loops && DropOf(s, c) == Some(i)
  }

  predicate NotShapedAndRunning(w: World, i: nat) {
    i < |w.nodes| && w.nodes[i].state.Running? ==> UnshapedAt(w, w.nodes[i].container)
  }

  /** No node that runs and is shaped is started, by a request or by the monkey, and nothing is
      rebuilt between the two commands of a node action. A caller can see to that for its own
      requests; the flap and flux loops rebuild at their own times. */
  predicate Orderly(s: Server, e: Event) {
    && (e.NodeRequest? && e.action.Start? ==> NotShapedAndRunning(s.world, e.node))
    && (e.MonkeyRecover? && IsMonkey(s, e.c) && s.loops[e.c].kill && s.loops[e.c].victim.Some? ==>
          NotShapedAndRunning(s.world, s.loops[e.c].victim.value))
    && (Rebuilds(s, e) ==> NothingPending(s))
  }

  ghost predicate IsOrderly(run: seq<Server>, events: seq<Event>)
    requires |run| == |events| + 1
  {
    forall k | 0 <= k < |events| :: Orderly(run[k], events[k])
  }

  /** A node whose helper is to be removed is unshaped, and a helper is stale only until then. */
  ghost predicate OwedOk(w: World, owed: iset<nat>) {
    && (forall i | 0 <= i < |w.nodes| && i in owed :: UnshapedAt(w, w.nodes[i].container))
    && (forall c | c in w.stale :: exists i :: 0 <= i < |w.nodes| && i in owed && w.nodes[i].container == c)
  }

  ghost function Owed(s: Server): iset<nat> {
    iset i: nat | Pending(s, i)
  }

  lemma DockerKeepsOwed(w: World, i: nat, a: Action, addr: string, owed: iset<nat>)
    requires WellFormed(w) && OwedOk(w, owed) && i < |w.nodes| && FreshAddress(w, a, addr)
    requires a.Start? ==> NotShapedAndRunning(w, i)
    ensures OwedOk(DockerStep(w, i, a, addr), owed + if Owes(w, i, a).Some? then iset{i} else iset{})
  {
    var v := DockerStep(w, i, a, addr);
    DockerKeepsGood(w, i, a, addr);
    DockerKeepsNodes(w, i, a, addr);
    if Owes(w, i, a).Some? {
      DockerUnshapes(w, i, a, addr);
    }
    assert forall j | 0 <= j < |w.nodes| :: v.nodes[j].container == w.nodes[j].container;
  }

  lemma DropKeepsOwed(w: World, i: nat, owed: iset<nat>, still: iset<nat>)
    requires WellFormed(w) && OwedOk(w, owed) && i < |w.nodes| && owed - iset{i} <= still <= owed
    ensures OwedOk(DropHelper(w, w.nodes[i].container), still)
  {
    DropKeepsWellFormed(w, w.nodes[i].container);
  }

  lemma ClearKeepsOwed(w: World, owed: iset<nat>)
    requires WellFormed(w) && OwedOk(w, owed)
    ensures OwedOk(ClearAll(w), owed)
  {
    var v := ClearAll(w);
    ClearKeepsGood(w);
    forall c | c in w.stale ensures c in Containers(w.nodes) {
      var i :| 0 <= i < |w.nodes| && i in owed && w.nodes[i].container == c;
      assert w.nodes[i] in w.nodes;
    }
    forall i | 0 <= i < |v.nodes| && i in owed ensures UnshapedAt(v, v.nodes[i].container) {
      assert v.nodes[i] in v.nodes;
    }
  }

  lemma SameDropsOwed(s: Server, t: Server)
    requires t.drops == s.drops && forall c :: DropOf(t, c) == DropOf(s, c)
    ensures Owed(t) == Owed(s)
  {
    forall i: nat ensures Pending(t, i) <==> Pending(s, i) {
      if c :| c in s.loops && DropOf(s, c) == Some(i) {
        assert DropOf(t, c) == Some(i) && c in t.loops;
      }
    }
  }

  /** The two commands of an action. */
  predicate IsActionEvent(e: Event) {
    e.NodeRequest? || e.NodeDrop? || e.MonkeyStrike? || e.MonkeyRecover? || e.MonkeyDrop?
  }

  lemma LoopSameDrops(s: Server, e: Event, t: Server)
    requires Step(s, e, t) && IsLoopEvent(e) && !IsActionEvent(e)
    ensures t.drops == s.drops && forall c :: DropOf(t, c) == DropOf(s, c)
  {
  }

  lemma NewLoopSameDrops(s: Server, e: Event, t: Server)
    requires ChannelsOpen(s) && Step(s, e, t) && (e.FlapOn? || e.FluxRequest? || e.MonkeyRequest?)
    ensures t.drops == s.drops && forall c :: DropOf(t, c) == DropOf(s, c)
  {
    assert s.made !in s.loops;
  }

  lemma RequestSameDrops(s: Server, e: Event, t: Server)
    requires Step(s, e, t) && (e.LinkOps? || e.FlapOff? || e.ClearRequest? || e.ShutFlaps?)
    ensures t.drops == s.drops && forall c :: DropOf(t, c) == DropOf(s, c)
  {
  }

  lemma SameDrops(s: Server, e: Event, t: Server)
    requires ChannelsOpen(s) && Step(s, e, t) && !IsActionEvent(e)
    ensures t.drops == s.drops && forall c :: DropOf(t, c) == DropOf(s, c)
  {
    if IsLoopEvent(e) {
      LoopSameDrops(s, e, t);
    } else if e.FlapOn? || e.FluxRequest? || e.MonkeyRequest? {
      NewLoopSameDrops(s, e, t);
    } else {
      RequestSameDrops(s, e, t);
    }
  }

  lemma MonkeyOwes(s: Server, c: Channel, t: Server)
    requires IsMonkey(s, c) && IsMonkey(t, c) && t.drops == s.drops && t.loops == s.loops[c := t.loops[c]]
    ensures DropOf(s, c).None? ==> Owed(t) == Owed(s) + if DropOf(t, c).Some? then iset{DropOf(t, c).value} else iset{}
    ensures DropOf(s, c).Some? && DropOf(t, c).None? ==> Owed(s) - iset{DropOf(s, c).value} <= Owed(t) <= Owed(s)
  {
    forall d | d != c ensures DropOf(t, d) == DropOf(s, d) && (d in s.loops <==> d in t.loops) {
    }
  }

  lemma RequestOwes(s: Server, i: nat, a: Action, addr: string, t: Server)
    requires Step(s, NodeRequest(i, a, addr), t)
    ensures Owed(t) == Owed(s) + if Owes(s.world, i, a).Some? then iset{i} else iset{}
  {
    assert forall c :: DropOf(t, c) == DropOf(s, c);
  }

  lemma RemovalPays(s: Server, i: nat, t: Server)
    requires Step(s, NodeDrop(i), t)
    ensures Owed(s) - iset{i} <= Owed(t) <= Owed(s)
  {
    assert forall c :: DropOf(t, c) == DropOf(s, c);
  }

  lemma NodeStepKeepsOwed(s: Server, e: Event, t: Server)
    requires Inv(s) && OwedOk(s.world, Owed(s)) && Step(s, e, t) && Orderly(s, e)
    requires e.NodeRequest? || e.NodeDrop?
    ensures OwedOk(t.world, Owed(t))
  {
    match e
    case NodeRequest(i, a, addr) =>
      RequestOwes(s, i, a, addr, t);
      DockerKeepsOwed(s.world, i, a, addr, Owed(s));
    case NodeDrop(i) =>
      RemovalPays(s, i, t);
      DropKeepsOwed(s.world, i, Owed(s), Owed(t));
  }

  lemma MonkeyStepKeepsOwed(s: Server, e: Event, t: Server)
    requires Inv(s) && OwedOk(s.world, Owed(s)) && Step(s, e, t) && Orderly(s, e)
    requires e.MonkeyStrike? || e.MonkeyRecover? || e.MonkeyDrop?
    ensures OwedOk(t.world, Owed(t))
  {
    MonkeyOwes(s, e.c, t);
    match e
    case MonkeyStrike(c, i) => DockerKeepsOwed(s.world, i, Disruption(s.loops[c].kill), "", Owed(s));
    case MonkeyRecover(c, addr) =>
      DockerKeepsOwed(s.world, s.loops[c].victim.value, Recovery(s.loops[c].kill), addr, Owed(s));
    case MonkeyDrop(c) => DropKeepsOwed(s.world, DropOf(s, c).value, Owed(s), Owed(t));
  }

  lemma StepKeepsOwed(s: Server, e: Event, t: Server)
    requires Inv(s) && OwedOk(s.world, Owed(s)) && Step(s, e, t) && Orderly(s, e)
    ensures OwedOk(t.world, Owed(t))
  {
    if e.NodeRequest? || e.NodeDrop? {
      NodeStepKeepsOwed(s, e, t);
    } else if IsActionEvent(e) {
      MonkeyStepKeepsOwed(s, e, t);
    } else {
      OtherKeepsOwed(s, e, t);
    }
  }

  lemma OtherKeepsOwed(s: Server, e: Event, t: Server)
    requires Inv(s) && OwedOk(s.world, Owed(s)) && Step(s, e, t) && Orderly(s, e)
    requires !IsActionEvent(e)
    ensures OwedOk(t.world, Owed(t))
  {
    SameDrops(s, e, t);
    SameDropsOwed(s, t);
    var m := StepIsMove(s, e, t);
    if Rebuilds(s, e) {
      NothingOwed(s);
    } else if m.Some? {
      MoveOfMeans(s, e, t);
      ClearKeepsOwed(s.world, Owed(s));
    }
  }

  lemma NothingOwed(s: Server)
    requires NothingPending(s)
    ensures Owed(s) == iset{}
    ensures OwedOk(s.world, Owed(s)) ==> s.world.stale == {}
  {
  }

  lemma OrderlyNeverStrands(s: Server, e: Event)
    requires OwedOk(s.world, Owed(s)) && (e.NodeDrop? ==> e.node in s.drops)
    ensures !Strands(s, e)
  {
    if e.NodeDrop? && e.node < |s.world.nodes| {
      assert e.node in Owed(s);
    } else if e.MonkeyDrop? && DropOf(s, e.c).Some? {
      assert DropOf(s, e.c).value in Owed(s);
    }
  }

  /** Runs in which no shaped running node is started and nothing is rebuilt inside a node action:
      a shaped node always has a helper, and nothing is pending only with no stale helper. */
  lemma {:induction false} OrderlyRunsStayHelped(run: seq<Server>, events: seq<Event>, k: nat)
    requires IsRun(run, events) && IsOrderly(run, events) && run[0].world.stale == {} && k <= |events|
    ensures Good(run[k].world) && OwedOk(run[k].world, Owed(run[k]))
  {
    if k == 0 {
      NothingOwed(run[0]);
    } else {
      OrderlyRunsStayHelped(run, events, k - 1);
      OrderlyNext(run, events, k - 1);
    }
  }

  lemma OrderlyNext(run: seq<Server>, events: seq<Event>, k: nat)
    requires IsRun(run, events) && k < |events| && Orderly(run[k], events[k])
    requires Good(run[k].world) && OwedOk(run[k].world, Owed(run[k]))
    ensures Good(run[k + 1].world) && OwedOk(run[k + 1].world, Owed(run[k + 1]))
  {
    RunsKeepInv(run, events, k);
    RunStep(run, events, k);
    OrderlyStep(run[k], events[k], run[k + 1]);
  }

  lemma OrderlyStep(s: Server, e: Event, t: Server)
    requires Inv(s) && HelperInvariant(s.world) && OwedOk(s.world, Owed(s)) && Step(s, e, t) && Orderly(s, e)
    ensures Good(t.world) && OwedOk(t.world, Owed(t))
  {
    StepKeepsOwed(s, e, t);
    OrderlyNeverStrands(s, e);
    StepKeepsInv(s, e, t);
  }

  // ---- stop channels ----

  /** The channels a step calls close on. */
  function Closes(s: Server, e: Event): set<Channel> {
    match e
    case FlapOn(a, b, _, _) => if LinkKey(a, b) in s.flaps then {s.flaps[LinkKey(a, b)].stop} else {}
    case FlapOff(a, b) => if LinkKey(a, b) in s.flaps then {s.flaps[LinkKey(a, b)].stop} else {}
    case FluxRequest(_) => if s.fluxStop.Some? then {s.fluxStop.value} else {}
    case MonkeyRequest(_, _, _) => if s.monkey.stop.Some? then {s.monkey.stop.value} else {}
    case ShutFlaps => set k | k in s.flaps :: s.flaps[k].stop
    case _ => {}
  }

  /** No run closes a channel twice: what a step closes was open, and closing all flaps
      closes as many different channels as there are flaps. */
  lemma NoDoubleClose(run: seq<Server>, events: seq<Event>, k: nat)
    requires IsRun(run, events) && k < |events|
    ensures Closes(run[k], events[k]) !! run[k].closed
    ensures run[k + 1].closed == run[k].closed + Closes(run[k], events[k])
    ensures forall x, y | x in run[k].flaps && y in run[k].flaps && x != y ::
              run[k].flaps[x].stop != run[k].flaps[y].stop
  {
    RunsKeepInv(run, events, k);
    RunStep(run, events, k);
  }

  predicate Stored(s: Server, c: Channel) {
    s.fluxStop == Some(c) || s.monkey.stop == Some(c) || exists k :: k in s.flaps && s.flaps[k].stop == c
  }

  /** No loop is lost: each one still running can be stopped, or has been told to. */
  predicate Tracked(s: Server) {
    forall c | c in s.loops :: c in s.closed || Stored(s, c)
  }

  lemma CancelKeepsTracked(s: Server, key: string)
    requires Tracked(s)
    ensures Tracked(CancelFlap(s, key))
  {
    var t := CancelFlap(s, key);
    forall c | c in t.loops ensures c in t.closed || Stored(t, c) {
      if c !in t.closed && s.fluxStop != Some(c) && s.monkey.stop != Some(c) {
        var k :| k in s.flaps && s.flaps[k].stop == c;
        assert k in t.flaps && t.flaps[k].stop == c;
      }
    }
  }

  lemma StartKeepsTracked(s: Server, a: string, b: string, down: int, up: int)
    requires Tracked(s)
    ensures Tracked(StartFlap(s, a, b, down, up))
  {
    var key := LinkKey(a, b);
    CancelKeepsTracked(s, key);
    var m, t := CancelFlap(s, key), StartFlap(s, a, b, down, up);
    forall c | c in t.loops ensures c in t.closed || Stored(t, c) {
      if c == m.made {
        assert t.flaps[key].stop == c;
      } else if c !in t.closed && m.fluxStop != Some(c) && m.monkey.stop != Some(c) {
        var k :| k in m.flaps && m.flaps[k].stop == c;
        assert k in t.flaps && t.flaps[k].stop == c;
      }
    }
  }

  lemma SameFlapsTracked(s: Server, t: Server)
    requires Tracked(s) && t.flaps == s.flaps && s.closed <= t.closed
    requires forall c | c in t.loops :: c in s.loops || t.fluxStop == Some(c) || t.monkey.stop == Some(c)
    requires s.fluxStop.Some? && t.fluxStop != s.fluxStop ==> s.fluxStop.value in t.closed
    requires s.monkey.stop.Some? && t.monkey.stop != s.monkey.stop ==> s.monkey.stop.value in t.closed
    ensures Tracked(t)
  {
  }

  lemma PhaseKeepsTracked(s: Server, key: string, down: bool)
    requires Tracked(s) && key in s.flaps && s.flaps[key].stop in s.loops
    ensures Tracked(SetPhase(s, key, down))
  {
    var t := SetPhase(s, key, down);
    forall c | c in t.loops ensures c in t.closed || Stored(t, c) {
      if c !in t.closed && s.fluxStop != Some(c) && s.monkey.stop != Some(c) {
        var k :| k in s.flaps && s.flaps[k].stop == c;
        assert k in t.flaps && t.flaps[k].stop == c;
      }
    }
  }

  lemma OffKeepsTracked(s: Server, a: string, b: string, t: Server)
    requires Tracked(s) && Step(s, FlapOff(a, b), t)
    ensures Tracked(t)
  {
    CancelKeepsTracked(s, LinkKey(a, b));
    SameFlapsTracked(CancelFlap(s, LinkKey(a, b)), t);
  }

  lemma LoopRequestKeepsTracked(s: Server, e: Event, t: Server)
    requires Tracked(s) && Step(s, e, t) && (e.FluxRequest? || e.MonkeyRequest?)
    ensures Tracked(t)
  {
    SameFlapsTracked(s, t);
  }

  lemma OtherRequestKeepsTracked(s: Server, e: Event, t: Server)
    requires Tracked(s) && Step(s, e, t) && (e.LinkOps? || e.NodeRequest? || e.NodeDrop? || e.ClearRequest?)
    ensures Tracked(t)
  {
    SameFlapsTracked(s, t);
  }

  lemma ShutKeepsTracked(s: Server, t: Server)
    requires Tracked(s) && Step(s, ShutFlaps, t)
    ensures Tracked(t)
  {
  }

  lemma RequestKeepsTracked(s: Server, e: Event, t: Server)
    requires Inv(s) && Tracked(s) && Step(s, e, t) && !IsLoopEvent(e)
    ensures Tracked(t)
  {
    if e.FlapOn? {
      StartKeepsTracked(s, e.a, e.b, e.down, e.up);
    } else if e.FlapOff? {
      OffKeepsTracked(s, e.a, e.b, t);
    } else if e.ShutFlaps? {
      ShutKeepsTracked(s, t);
    } else if e.FluxRequest? || e.MonkeyRequest? {
      LoopRequestKeepsTracked(s, e, t);
    } else {
      OtherRequestKeepsTracked(s, e, t);
    }
  }

  lemma TurnKeepsTracked(s: Server, c: Channel, t: Server)
    requires Inv(s) && Tracked(s) && FlapTurns(s, c, t)
    ensures Tracked(t)
  {
    var key, down := s.loops[c].key, s.loops[c].turn.down;
    if key in s.flaps && s.flaps[key].stop == c {
      PhaseKeepsTracked(s, key, down);
      SameFlapsTracked(SetPhase(s, key, down), t);
    } else {
      SameFlapsTracked(s, t);
    }
  }

  lemma LoopKeepsTracked(s: Server, e: Event, t: Server)
    requires Inv(s) && Tracked(s) && Step(s, e, t) && IsLoopEvent(e)
    ensures Tracked(t)
  {
    if e.FlapTurn? {
      TurnKeepsTracked(s, e.c, t);
    } else {
      OtherLoopKeepsTracked(s, e, t);
    }
  }

  lemma OtherLoopKeepsTracked(s: Server, e: Event, t: Server)
    requires Tracked(s) && Step(s, e, t) && IsLoopEvent(e) && !e.FlapTurn?
    ensures Tracked(t)
  {
    SameFlapsTracked(s, t);
  }

  lemma StepKeepsTracked(s: Server, e: Event, t: Server)
    requires Inv(s) && Tracked(s) && Step(s, e, t)
    ensures Tracked(t)
  {
    if IsLoopEvent(e) {
      LoopKeepsTracked(s, e, t);
    } else {
      RequestKeepsTracked(s, e, t);
    }
  }

  // ---- the monkey's loop ----

  function States(w: World): seq<NodeState> {
    seq(|w.nodes|, i requires 0 <= i < |w.nodes| => w.nodes[i].state)
  }

  /** The monkey's loop c and the nodes, seen without the helpers. */
  function MonkeyView(s: Server, c: Channel): M.State
    requires IsMonkey(s, c)
  {
    M.State(States(s.world), if s.loops[c].victim.Some? then M.Holding(s.loops[c].victim.value) else M.Loop.Waiting)
  }

  lemma DockerActs(w: World, i: nat, a: Action, addr: string)
    requires i < |w.nodes|
    ensures States(DockerStep(w, i, a, addr)) == M.Act(States(w), i, a)
  {
  }

  /** On the server the loop's steps are the rounds of the monkey: the node drawn is struck and
      brought back, and removing its helper changes no node. */
  lemma MonkeyStepsAreRounds(s: Server, e: Event, t: Server, pick: nat)
    requires Step(s, e, t) && (e.MonkeyStrike? || e.MonkeyRecover? || e.MonkeyDrop?)
    requires e.MonkeyStrike? ==>
               var running := M.RunningOf(States(s.world)); |running| >= 2 && e.node == running[pick % |running|]
    ensures MonkeyView(t, e.c) == if e.MonkeyDrop? then MonkeyView(s, e.c)
                                  else M.Step(ModeOf(s, e.c), MonkeyView(s, e.c), M.Timeout(true, pick))
  {
    if e.MonkeyStrike? {
      StrikeIsRound(s, e.c, e.node, t, pick);
    } else if e.MonkeyRecover? {
      RecoveryIsRound(s, e.c, e.addr, t, pick);
    } else {
      DropIsNoRound(s, e.c, t);
    }
  }

  function ModeOf(s: Server, c: Channel): M.Mode
    requires IsMonkey(s, c)
  {
    if s.loops[c].kill then M.ByKill else M.ByPause
  }

  lemma StrikeIsRound(s: Server, c: Channel, i: nat, t: Server, pick: nat)
    requires Step(s, MonkeyStrike(c, i), t)
    requires var running := M.RunningOf(States(s.world)); |running| >= 2 && i == running[pick % |running|]
    ensures MonkeyView(t, c) == M.Step(ModeOf(s, c), MonkeyView(s, c), M.Timeout(true, pick))
  {
    DockerActs(s.world, i, Disruption(s.loops[c].kill), "");
  }

  lemma RecoveryIsRound(s: Server, c: Channel, addr: string, t: Server, pick: nat)
    requires Step(s, MonkeyRecover(c, addr), t)
    ensures MonkeyView(t, c) == M.Step(ModeOf(s, c), MonkeyView(s, c), M.Timeout(true, pick))
  {
    DockerActs(s.world, s.loops[c].victim.value, Recovery(s.loops[c].kill), addr);
  }

  lemma DropIsNoRound(s: Server, c: Channel, t: Server)
    requires Step(s, MonkeyDrop(c), t)
    ensures MonkeyView(t, c) == MonkeyView(s, c)
  {
  }

  // ---- who may change what ----

  /** The baseline links change only in link requests, clears and the dead-man. */
  lemma BaselineKept(s: Server, e: Event, t: Server)
    requires Step(s, e, t) && !e.LinkOps? && !e.ClearRequest? && !e.DeadMan?
    ensures t.links == s.links
  {
  }

  /** A flap's phase is changed only by the loop whose stop channel it stores; the flap itself
      only comes, goes or is replaced through a flap request for its key, or shutdown. */
  lemma PhaseChangedByOwner(s: Server, e: Event, t: Server, key: string)
    requires Inv(s) && Step(s, e, t) && key in s.flaps
    ensures key in t.flaps && t.flaps[key].stop == s.flaps[key].stop && t.flaps[key] != s.flaps[key] ==>
              e == FlapTurn(s.flaps[key].stop) && t.flaps[key] == s.flaps[key].(phaseDown := !s.flaps[key].phaseDown)
    ensures key !in t.flaps || t.flaps[key].stop != s.flaps[key].stop ==>
              e.ShutFlaps? || (e.FlapOff? && LinkKey(e.a, e.b) == key) || (e.FlapOn? && LinkKey(e.a, e.b) == key)
  {
    if e.FlapTurn? {
      TurnKeepsOthers(s, e.c, t, key);
    } else if e.FlapOn? || e.FlapOff? {
      RequestKeepsOthers(s, e, t, key);
    } else if !e.ShutFlaps? {
      FlapsKept(s, e, t);
    }
  }

  lemma RequestKeepsOthers(s: Server, e: Event, t: Server, key: string)
    requires ChannelsOpen(s) && Step(s, e, t) && (e.FlapOn? || e.FlapOff?) && key in s.flaps
    ensures if LinkKey(e.a, e.b) == key then key in t.flaps ==> t.flaps[key].stop != s.flaps[key].stop
            else key in t.flaps && t.flaps[key] == s.flaps[key]
  {
    assert s.flaps[key].stop in s.loops;
  }

  lemma TurnKeepsOthers(s: Server, c: Channel, t: Server, key: string)
    requires ChannelsOpen(s) && FlapTurns(s, c, t) && key in s.flaps
    ensures key in t.flaps && t.flaps[key].stop == s.flaps[key].stop
    ensures t.flaps[key] != s.flaps[key] ==>
              c == s.flaps[key].stop && t.flaps[key] == s.flaps[key].(phaseDown := !s.flaps[key].phaseDown)
  {
  }

  lemma FlapsKept(s: Server, e: Event, t: Server)
    requires Step(s, e, t) && !e.FlapOn? && !e.FlapOff? && !e.FlapTurn? && !e.ShutFlaps?
    ensures t.flaps == s.flaps
  {
  }

  // ---- the data plane ----

  /** What the pair with this key is to get: a partition while its flap is down, otherwise its
      baseline, otherwise nothing. */
  function PairProfile(s: Server, key: string): Option<Params> {
    if key in s.flaps && s.flaps[key].phaseDown then Some(PARTITION)
    else if key in s.links then Some(s.links[key].params)
    else None
  }

  /** No live node has more than nine neighbours, or a profile tc cannot read. */
  predicate Modest(nodes: seq<Node>, links: seq<Link>) {
    forall n | n in nodes && n.Live() && n.ip != "" ::
      && |NeighbourIps(nodes, links, n)| <= CLASSES
      && forall m | m in nodes && m.ip != "" && Profile(links, n.name, m.name).Some? :: Plain(Profile(links, n.name, m.name).value)
  }

  lemma EffectiveAccepted(s: Server, order: seq<Link>)
    requires KeyedLinks(s.links) && Enumerates(order, Effective(s.links, s.flaps))
    ensures AcceptedLinks(order)
  {
    PartitionValid();
    forall l | l in order ensures Valid(l.params) {
      EntryOfKey(order, l);
    }
  }

  /** The effective links join distinct nodes. */
  lemma EffectiveShapeable(s: Server, order: seq<Link>, nodes: seq<Node>)
    requires KeyedLinks(s.links) && KeyedFlaps(s.flaps) && Enumerates(order, Effective(s.links, s.flaps))
    ensures Shapeable(nodes, order) <==> Modest(nodes, order)
  {
    forall x ensures Profile(order, x, x).None? {
      ProfileListed(order, x, x);
      if Profile(order, x, x).Some? {
        var l :| l in order && l.Joins(x, x) && Profile(order, x, x).value == l.params;
        EntryOfKey(order, l);
      }
    }
  }

  lemma EnumerationsAgree(order: seq<Link>, other: seq<Link>, m: map<string, Link>)
    requires Enumerates(order, m) && Enumerates(other, m)
    ensures SameLinks(order, other)
  {
    KeysUniquePairs(order);
    KeysUniquePairs(other);
    forall l ensures l in order <==> l in other {
      if l in order {
        EntryOfKey(order, l);
        MapEntries(other, KeyOfLink(l));
      }
      if l in other {
        EntryOfKey(other, l);
        MapEntries(order, KeyOfLink(l));
      }
    }
  }

  /** After every step that rebuilds, the data plane is exactly the effective links, listed in
      whatever order, if and only if no live node has more than nine neighbours in them or a
      profile tc cannot read, none that needs its helper had a stale one, and nothing was left on
      those that are skipped. */
  lemma RebuildIsExact(s: Server, e: Event, t: Server, order: seq<Link>)
    requires Inv(s) && Step(s, e, t) && Rebuilds(s, e)
    requires Enumerates(order, Effective(t.links, t.flaps))
    ensures Exact(t.world, order)
       <==> Modest(t.world.nodes, order) && HelpersReach(s.world, order) && NothingLeftOver(s.world, order)
  {
    StepKeepsInv(s, e, t);
    var used := RebuildsFrom(s, e, t);
    EnumerationsAgree(order, used, Effective(t.links, t.flaps));
    EffectiveAccepted(t, used);
    OrderIrrelevant(s.world, order, used, t.world);
    EffectiveShapeable(t, order, t.world.nodes);
  }

  /** So in such a run every rebuild is exact if and only if no live node has more than nine
      neighbours or a profile tc cannot read. */
  lemma OrderlyRebuildsAreExact(run: seq<Server>, events: seq<Event>, k: nat, order: seq<Link>)
    requires IsRun(run, events) && IsOrderly(run, events) && run[0].world.stale == {}
    requires k < |events| && Rebuilds(run[k], events[k]) && Enumerates(order, Effective(run[k + 1].links, run[k + 1].flaps))
    ensures Exact(run[k + 1].world, order) <==> Modest(run[k + 1].world.nodes, order)
  {
    RunsKeepInv(run, events, k);
    OrderlyRunsStayHelped(run, events, k);
    RunStep(run, events, k);
    assert Orderly(run[k], events[k]);
    NothingOwed(run[k]);
    HelpedLeavesNothing(run[k].world, order);
    RebuildIsExact(run[k], events[k], run[k + 1], order);
  }

  lemma EffectiveProfile(s: Server, order: seq<Link>, x: string, y: string)
    requires Enumerates(order, Effective(s.links, s.flaps)) && '|' !in x && '|' !in y
    ensures Profile(order, x, y) == PairProfile(s, LinkKey(x, y))
  {
    ProfileOfKey(order, x, y);
  }

  /** In terms of packets: after such a step a packet between two live nodes meets a partition
      while their flap is down, their baseline while it is up, and nothing without a baseline. */
  lemma PacketsAfterRebuild(s: Server, e: Event, t: Server, order: seq<Link>, n: Node, m: Node, p: Packet)
    requires Inv(s) && Step(s, e, t) && Rebuilds(s, e)
    requires Enumerates(order, Effective(t.links, t.flaps))
    requires Modest(t.world.nodes, order) && HelpersReach(s.world, order) && NothingLeftOver(s.world, order)
    requires n in t.world.nodes && n.Live() && n.ip != "" && n.container in t.world.eth0
    requires m in t.world.nodes && m.ip != "" && '|' !in n.name && '|' !in m.name
    requires p.src == n.ip && p.dst == m.ip && p.tos < 16
    ensures var got, key := Classify(t.world.eth0[n.container], p), LinkKey(n.name, m.name);
            && Delivers(got, PairProfile(t, key))
            && (key in t.flaps && t.flaps[key].phaseDown ==> got == Some(["netem", "loss", "100%"]))
  {
    StepKeepsInv(s, e, t);
    RebuildIsExact(s, e, t, order);
    assert ExactNode(t.world, order, n);
    WantedBetween(t.world, order, n, m);
    EffectiveProfile(t, order, n.name, m.name);
    var got := Classify(t.world.eth0[n.container], p);
    if got.Some? {
      PartitionRenders(got.value);
    }
  }

  // ---- clearing with a flap running ----

  /** Two nodes with addresses, one of them live, joined by the flap. */
  predicate Touches(nodes: seq<Node>, f: Flap) {
    exists n, m :: n in nodes && m in nodes && n.Live() && n.ip != "" && m.ip != ""
                   && LinkKey(n.name, m.name) == LinkKey(f.a, f.b)
  }

  /** A clear leaves the phases of running flaps alone while it removes all shaping. So the
      data plane then matches the effective links exactly when no flap that joins
      reachable nodes is down. */
  lemma ClearedExactIff(s: Server, t: Server, order: seq<Link>)
    requires Inv(s) && Step(s, ClearRequest, t) && Enumerates(order, Effective(t.links, t.flaps))
    requires forall n | n in t.world.nodes :: '|' !in n.name
    ensures Unshaped(t.world)
    ensures Exact(t.world, order) <==>
              forall k | k in t.flaps && t.flaps[k].phaseDown :: !Touches(t.world.nodes, t.flaps[k])
  {
    ClearKeepsGood(s.world);
    if k :| k in t.flaps && t.flaps[k].phaseDown && Touches(t.world.nodes, t.flaps[k]) {
      DownFlapUnmet(t, order, k);
    } else {
      forall n | n in t.world.nodes && n.Live() && n.ip != "" && n.container in t.world.eth0
        ensures ExactNode(t.world, order, n)
      {
        NothingWanted(t, order, n);
      }
    }
  }

  lemma DownFlapUnmet(t: Server, order: seq<Link>, k: string)
    requires WellFormed(t.world) && Unshaped(t.world) && KeyedFlaps(t.flaps)
    requires Enumerates(order, Effective(t.links, t.flaps)) && forall n | n in t.world.nodes :: '|' !in n.name
    requires k in t.flaps && t.flaps[k].phaseDown && Touches(t.world.nodes, t.flaps[k])
    ensures !Exact(t.world, order)
  {
    var w := t.world;
    var n, m :| n in w.nodes && m in w.nodes && n.Live() && n.ip != "" && m.ip != ""
                && LinkKey(n.name, m.name) == LinkKey(t.flaps[k].a, t.flaps[k].b);
    EffectiveProfile(t, order, n.name, m.name);
    LinkUnmet(w, order, n, m);
    assert n.container in w.eth0;
  }

  lemma LinkUnmet(w: World, links: seq<Link>, n: Node, m: Node)
    requires WellFormed(w) && n in w.nodes && m in w.nodes && m.ip != "" && n.container in w.eth0
    requires w.eth0[n.container] == NoRoot && Profile(links, n.name, m.name).Some?
    ensures !ExactNode(w, links, n)
  {
    var p := Packet(n.ip, m.ip, 0);
    WantedBetween(w, links, n, m);
    assert !Delivers(Classify(w.eth0[n.container], p), Wanted(w.nodes, links, n, p.dst));
  }

  lemma NothingWanted(t: Server, order: seq<Link>, n: Node)
    requires WellFormed(t.world) && Unshaped(t.world) && t.links == map[] && KeyedFlaps(t.flaps)
    requires Enumerates(order, Effective(t.links, t.flaps)) && forall n | n in t.world.nodes :: '|' !in n.name
    requires n in t.world.nodes && n.Live() && n.ip != "" && n.container in t.world.eth0
    requires forall k | k in t.flaps && t.flaps[k].phaseDown :: !Touches(t.world.nodes, t.flaps[k])
    ensures ExactNode(t.world, order, n)
  {
    var w := t.world;
    forall dst ensures Wanted(w.nodes, order, n, dst).None? {
      if dst != "" && dst in Addresses(w.nodes) {
        var m := NodeAt(w.nodes, dst);
        EffectiveProfile(t, order, n.name, m.name);
        var key := LinkKey(n.name, m.name);
        assert key in t.flaps && t.flaps[key].phaseDown ==> Touches(w.nodes, t.flaps[key]);
      }
    }
  }

  // ---- shutdown ----

  /** Nothing is asked for and nothing is shaped. */
  predicate Quiet(s: Server) {
    s.links == map[] && s.flaps == map[] && Unshaped(s.world)
  }

  /** Steps of the loops, and of node requests. */
  predicate NoLinkRequest(e: Event) {
    IsLoopEvent(e) || e.NodeRequest? || e.NodeDrop?
  }

  lemma QuietStays(s: Server, e: Event, t: Server)
    requires Inv(s) && Quiet(s) && Step(s, e, t) && NoLinkRequest(e)
    ensures Quiet(t)
  {
    assert !Rebuilds(s, e);
    var m := StepIsMove(s, e, t);
    if m.Some? {
      MoveKeepsUnshaped(s.world, m.value, t.world);
    }
  }

  /** No command but a rebuild shapes a container. */
  lemma MoveKeepsUnshaped(w: World, m: Move, v: World)
    requires WellFormed(w) && Unshaped(w) && WorldStep(w, m, v) && !m.Rebuild?
    ensures Unshaped(v)
  {
    forall n | n in v.nodes && n.container in v.eth0 ensures v.eth0[n.container] == NoRoot {
      if m.Docker? {
        var j :| 0 <= j < |v.nodes| && v.nodes[j] == n;
        assert w.nodes[j] in w.nodes && w.nodes[j].container == n.container;
        DockerKeepsGood(w, m.node, m.action, m.addr);
        assert UnshapedAt(w, n.container);
      } else {
        assert n in w.nodes && n.container in w.eth0;
      }
    }
  }

  ghost predicate ShuttingDown(run: seq<Server>, events: seq<Event>, flux: nat, monkey: nat, flaps: nat, clear: nat) {
    && IsRun(run, events) && flux < monkey < flaps < clear < |events|
    && events[flux] == FluxRequest(0) && events[monkey] == MonkeyRequest(false, 0, false)
    && events[flaps] == ShutFlaps && events[clear] == ClearRequest
    && forall k | flux < k < |events| && k != monkey && k != flaps && k != clear :: NoLinkRequest(events[k])
  }

  /** Shutdown stops the flux, the monkey and every flap, and then clears, with loops running
      in between. From then on no leftover loop shapes a node again, and every loop still
      there has been told to stop. */
  lemma ShutdownIsFinal(run: seq<Server>, events: seq<Event>, flux: nat, monkey: nat, flaps: nat, clear: nat)
    requires ShuttingDown(run, events, flux, monkey, flaps, clear)
    ensures Quiet(run[|events|])
    ensures forall c | c in run[|events|].loops :: c in run[|events|].closed
  {
    StaysStopped(run, events, flux, monkey, flaps, clear, |events|);
    StaysStopped(run, events, flux, monkey, flaps, clear, clear + 1);
    RunsKeepInv(run, events, clear);
    RunStep(run, events, clear);
    ClearIsQuiet(run[clear], run[clear + 1]);
    QuietFrom(run, events, clear + 1, |events|);
    RunsKeepInv(run, events, |events|);
    NothingStored(run[|events|]);
  }

  lemma NothingStored(s: Server)
    requires Tracked(s) && Stopped(s, true, true)
    ensures forall c | c in s.loops :: c in s.closed
  {
  }

  /** The flux is stopped, and the monkey and the flaps as far as asked. */
  predicate Stopped(s: Server, monkey: bool, flaps: bool) {
    s.fluxStop == None && (monkey ==> s.monkey == NO_MONKEY) && (flaps ==> s.flaps == map[])
  }

  predicate IsShutdownEvent(e: Event) {
    e == FluxRequest(0) || e == MonkeyRequest(false, 0, false) || e == ShutFlaps || e == ClearRequest
  }

  lemma FluxStops(s: Server, t: Server)
    requires Step(s, FluxRequest(0), t)
    ensures Stopped(t, false, false)
  {
  }

  lemma ShutdownKeepsStopped(s: Server, e: Event, t: Server, monkey: bool, flaps: bool)
    requires Step(s, e, t) && IsShutdownEvent(e) && Stopped(s, monkey, flaps)
    ensures Stopped(t, monkey || e.MonkeyRequest?, flaps || e.ShutFlaps?)
  {
  }

  /** No loop and no node request starts a loop that was stopped. */
  lemma KeepsStopped(s: Server, e: Event, t: Server, monkey: bool, flaps: bool)
    requires Step(s, e, t) && NoLinkRequest(e) && Stopped(s, monkey, flaps)
    ensures Stopped(t, monkey, flaps)
  {
  }

  lemma {:induction false} StaysStopped(run: seq<Server>, events: seq<Event>, flux: nat, monkey: nat, flaps: nat, clear: nat, k: nat)
    requires ShuttingDown(run, events, flux, monkey, flaps, clear) && flux < k <= |events|
    ensures Stopped(run[k], k > monkey, k > flaps)
  {
    var j := k - 1;
    RunStep(run, events, j);
    if j == flux {
      FluxStops(run[j], run[k]);
    } else {
      StaysStopped(run, events, flux, monkey, flaps, clear, j);
      if j == monkey || j == flaps || j == clear {
        ShutdownKeepsStopped(run[j], events[j], run[k], j > monkey, j > flaps);
      } else {
        KeepsStopped(run[j], events[j], run[k], j > monkey, j > flaps);
      }
    }
  }

  lemma ClearIsQuiet(s: Server, t: Server)
    requires Inv(s) && Step(s, ClearRequest, t) && t.flaps == map[]
    ensures Quiet(t)
  {
    ClearKeepsGood(s.world);
  }

  /** From then on there are loop steps and node requests only. */
  predicate Calm(events: seq<Event>, from: nat) {
    forall j | from <= j < |events| :: NoLinkRequest(events[j])
  }

  lemma {:induction false} Carried(qs: seq<bool>, from: nat, k: nat)
    requires from <= k < |qs| && qs[from] && forall j | from <= j < |qs| - 1 :: qs[j] ==> qs[j + 1]
    ensures qs[k]
  {
    if k > from {
      Carried(qs, from, k - 1);
      assert qs[k - 1] ==> qs[k - 1 + 1];
    }
  }

  lemma QuietFrom(run: seq<Server>, events: seq<Event>, from: nat, k: nat)
    requires IsRun(run, events) && from <= k <= |events| && Quiet(run[from]) && Calm(events, from)
    ensures Quiet(run[k])
  {
    var qs := seq(|run|, j requires 0 <= j < |run| => Quiet(run[j]));
    forall j | from <= j < |qs| - 1 ensures qs[j] ==> qs[j + 1] {
      if qs[j] {
        QuietNext(run, events, from, j);
      }
    }
    Carried(qs, from, k);
  }

  lemma QuietNext(run: seq<Server>, events: seq<Event>, from: nat, k: nat)
    requires IsRun(run, events) && from <= k < |events| && Quiet(run[k]) && Calm(events, from)
    ensures Quiet(run[k + 1])
  {
    RunsKeepInv(run, events, k);
    QuietStays(run[k], events[k], run[k + 1]);
  }
}
