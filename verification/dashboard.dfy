/** The chaos dashboard as a state machine. A step is what one request handler, timer or
    background loop does between taking the mutex and giving it back. */
module Dashboard {
  import opened Text
  import opened Netem
  import opened World
  import opened Lifecycle
  import opened Links

  /** Stop channels are numbered in the order they are made. */
  type Channel = nat

  datatype Flap = Flap(a: string, b: string, downSec: int, upSec: int, phaseDown: bool, stop: Channel)

  datatype Monkey = Monkey(enabled: bool, kill: bool, interval: int, stop: Option<Channel>)

  const NO_MONKEY := Monkey(false, false, 0, None)

  /** Where a flap loop stands: about to set its phase, or waiting before the next one. */
  datatype Turn = About(down: bool) | Waiting(nextDown: bool)

  /** A background goroutine; it is identified by the stop channel it was given. The monkey's holds a
      victim, and stands before removing the helper of node drop. */
  datatype Loop =
    | FlapLoop(key: string, turn: Turn)
    | FluxLoop(ticked: bool)
    | MonkeyLoop(kill: bool, victim: Option<nat>, drop: Option<nat>)

  /** drops holds the nodes whose helper a node request has yet to remove. */
  datatype Server = Server(
    links: map<string, Link>, flaps: map<string, Flap>,
    fluxInterval: int, fluxStop: Option<Channel>, monkey: Monkey,
    made: nat, closed: set<Channel>, loops: map<Channel, Loop>, drops: multiset<nat>, world: World)

  datatype LinkRequest = LinkRequest(a: string, b: string, params: Params, partition: bool, enabled: bool)
  {
    /** chaosLinkReq.validate. */
    predicate Ok() {
      a != "" && b != "" && a != b && (enabled && !partition ==> Valid(Normalize(params)))
    }
  }

  // ---- what the handlers do to the server's fields ----

  /** applyLinkLocked. */
  function ApplyLink(links: map<string, Link>, r: LinkRequest): map<string, Link> {
    var key := LinkKey(r.a, r.b);
    if !r.enabled then links - {key}
    else links[key := Link(r.a, r.b, if r.partition then PARTITION else Normalize(r.params))]
  }

  function ApplyLinks(links: map<string, Link>, ops: seq<LinkRequest>): map<string, Link> {
    if ops == [] then links else ApplyLink(ApplyLinks(links, ops[..|ops| - 1]), ops[|ops| - 1])
  }

  /** The first part of handleFlap: cancel the flap on this key, if there is one. */
  function CancelFlap(s: Server, key: string): Server {
    if key !in s.flaps then s
    else s.(closed := s.closed + {s.flaps[key].stop}, flaps := s.flaps - {key})
  }

  function StartFlap(s0: Server, a: string, b: string, down: int, up: int): Server {
    var key := LinkKey(a, b);
    var s := CancelFlap(s0, key);
    var f := Flap(a, b, if down <= 0 then 5 else down, if up <= 0 then 10 else up, false, s.made);
    s.(flaps := s.flaps[key := f], made := s.made + 1, loops := s.loops[s.made := FlapLoop(key, About(true))])
  }

  function SetFlux(s: Server, interval: int): Server {
    var t := s.(closed := if s.fluxStop.Some? then s.closed + {s.fluxStop.value} else s.closed,
                fluxStop := None, fluxInterval := interval);
    if interval <= 0 then t
    else t.(fluxStop := Some(t.made), made := t.made + 1, loops := t.loops[t.made := FluxLoop(false)])
  }

  function SetMonkey(s: Server, enabled: bool, interval: int, kill: bool): Server {
    var t := s.(closed := if s.monkey.stop.Some? then s.closed + {s.monkey.stop.value} else s.closed,
                monkey := NO_MONKEY);
    if !enabled then t
    else t.(monkey := Monkey(true, kill, if interval <= 0 then 15 else interval, Some(t.made)),
            made := t.made + 1, loops := t.loops[t.made := MonkeyLoop(kill, None, None)])
  }

  /** The last part of stopAll: every flap is cancelled. */
  function StopFlaps(s: Server): Server {
    s.(closed := s.closed + (set k | k in s.flaps :: s.flaps[k].stop), flaps := map[])
  }

  /** handleClear, the dead-man and the end of shutdown. */
  function ClearLinks(s: Server): Server {
    s.(links := map[], world := ClearAll(s.world))
  }

  // ---- reconciling ----

  /** The links wanted now: the baseline, with every flap that is down as a partition. */
  function Effective(links: map<string, Link>, flaps: map<string, Flap>): map<string, Link> {
    map k | k in links.Keys + flaps.Keys && (k in links || flaps[k].phaseDown) ::
      if k in flaps && flaps[k].phaseDown then Link(flaps[k].a, flaps[k].b, PARTITION) else links[k]
  }

  /** Some order of the links in a map. */
  predicate Enumerates(order: seq<Link>, m: map<string, Link>) {
    UniqueKeys(order) && AsMap(order) == m
  }

  /** reconcile: all shaping is rebuilt from the effective links, taken in any order. */
  ghost predicate Rebuilt(s: Server, t: Server) {
    t == s.(world := t.world)
    && exists order :: Enumerates(order, Effective(s.links, s.flaps)) && Reconciled(s.world, order, t.world)
  }

  // ---- steps ----

  datatype Event =
    | LinkOps(ops: seq<LinkRequest>)
    | FlapOn(a: string, b: string, down: int, up: int)
    | FlapOff(a: string, b: string)
    | FluxRequest(interval: int)
    | MonkeyRequest(enabled: bool, interval: int, kill: bool)
    | NodeRequest(node: nat, action: Action, addr: string)
    | NodeDrop(node: nat)
    | ClearRequest
    | DeadMan
    | ShutFlaps
    | FlapTurn(c: Channel)
    | FlapTimer(c: Channel)
    | FluxTimer(c: Channel)
    | FluxRun(c: Channel)
    | MonkeyStrike(c: Channel, node: nat)
    | MonkeyRecover(c: Channel, addr: string)
    | MonkeyDrop(c: Channel)
    | Quit(c: Channel)

  /** Steps of goroutines already started, as opposed to requests and shutdown. */
  predicate IsLoopEvent(e: Event) {
    e.FlapTurn? || e.FlapTimer? || e.FluxTimer? || e.FluxRun? || e.MonkeyStrike? || e.MonkeyRecover? || e.MonkeyDrop?
    || e.Quit? || e.DeadMan?
  }

  /** chaosNodeAction is two commands with no lock around them: docker's own, and for some actions
      that docker accepts the removal of the helper. */
  function Owes(w: World, i: nat, a: Action): Option<nat>
    requires i < |w.nodes|
  {
    if DropsHelper(a) && DockerResult(w.nodes[i].state, a).Some? then Some(i) else None
  }

  predicate IsMonkey(s: Server, c: Channel) {
    c in s.loops && s.loops[c].MonkeyLoop?
  }

  /** The node whose helper this loop has yet to remove. */
  function DropOf(s: Server, c: Channel): Option<nat> {
    if IsMonkey(s, c) then s.loops[c].drop else None
  }

  function Disruption(kill: bool): Action {
    if kill then Kill else Pause
  }

  function Recovery(kill: bool): Action {
    if kill then Start else Unpause
  }

  /** The monkey takes node i down. It listed the nodes before, so i may be in any state by now. */
  function Strike(s: Server, c: Channel, i: nat): Server
    requires IsMonkey(s, c) && i < |s.world.nodes|
  {
    var kill := s.loops[c].kill;
    s.(world := DockerStep(s.world, i, Disruption(kill), ""),
       loops := s.loops[c := MonkeyLoop(kill, Some(i), Owes(s.world, i, Disruption(kill)))])
  }

  /** The monkey brings its victim back, whatever became of it meanwhile. */
  function Recover(s: Server, c: Channel, addr: string): Server
    requires IsMonkey(s, c) && s.loops[c].victim.Some? && s.loops[c].victim.value < |s.world.nodes|
  {
    var kill, i := s.loops[c].kill, s.loops[c].victim.value;
    s.(world := DockerStep(s.world, i, Recovery(kill), addr),
       loops := s.loops[c := MonkeyLoop(kill, None, Owes(s.world, i, Recovery(kill)))])
  }

  ghost predicate Step(s: Server, e: Event, t: Server) {
    match e
    case LinkOps(ops) =>
      (forall r | r in ops :: r.Ok()) && Rebuilt(s.(links := ApplyLinks(s.links, ops)), t)
    case FlapOn(a, b, down, up) => a != "" && b != "" && a != b && t == StartFlap(s, a, b, down, up)
    case FlapOff(a, b) => a != "" && b != "" && a != b && Rebuilt(CancelFlap(s, LinkKey(a, b)), t)
    case FluxRequest(interval) => t == SetFlux(s, interval)
    case MonkeyRequest(enabled, interval, kill) => t == SetMonkey(s, enabled, interval, kill)
    case NodeRequest(i, action, addr) =>
      && i < |s.world.nodes| && FreshAddress(s.world, action, addr)
      && t == s.(world := DockerStep(s.world, i, action, addr),
                 drops := if Owes(s.world, i, action).Some? then s.drops + multiset{i} else s.drops)
    case NodeDrop(i) =>
      && i in s.drops && i < |s.world.nodes|
      && t == s.(world := DropHelper(s.world, s.world.nodes[i].container), drops := s.drops - multiset{i})
    case ClearRequest => t == ClearLinks(s)
    case DeadMan => t == ClearLinks(s)
    case ShutFlaps => t == StopFlaps(s)
    case FlapTurn(c) => FlapTurns(s, c, t)
    case FlapTimer(c) =>
      && c in s.loops && s.loops[c].FlapLoop? && s.loops[c].turn.Waiting?
      && t == s.(loops := s.loops[c := s.loops[c].(turn := About(s.loops[c].turn.nextDown))])
    case FluxTimer(c) =>
      c in s.loops && s.loops[c] == FluxLoop(false) && t == s.(loops := s.loops[c := FluxLoop(true)])
    case FluxRun(c) =>
      && c in s.loops && s.loops[c] == FluxLoop(true)
      && var m := s.(loops := s.loops[c := FluxLoop(false)]);
         if s.links != map[] then Rebuilt(m, t) else t == m
    case MonkeyStrike(c, i) =>
      && IsMonkey(s, c) && s.loops[c].victim.None? && s.loops[c].drop.None? && i < |s.world.nodes|
      && t == Strike(s, c, i)
    case MonkeyRecover(c, addr) =>
      && IsMonkey(s, c) && s.loops[c].victim.Some? && s.loops[c].drop.None? && s.loops[c].victim.value < |s.world.nodes|
      && FreshAddress(s.world, Recovery(s.loops[c].kill), addr)
      && t == Recover(s, c, addr)
    case MonkeyDrop(c) =>
      && DropOf(s, c).Some? && DropOf(s, c).value < |s.world.nodes|
      && t == s.(world := DropHelper(s.world, s.world.nodes[DropOf(s, c).value].container),
                 loops := s.loops[c := s.loops[c].(drop := None)])
    case Quit(c) =>
      && c in s.loops && c in s.closed && !(s.loops[c].FlapLoop? && s.loops[c].turn.About?)
      && (s.loops[c].MonkeyLoop? ==> s.loops[c].victim.None? && s.loops[c].drop.None?)
      && t == s.(loops := s.loops - {c})
  }

  /** setPhase of a flap loop: it exits if its flap was cancelled or replaced. */
  ghost predicate FlapTurns(s: Server, c: Channel, t: Server) {
    && c in s.loops && s.loops[c].FlapLoop? && s.loops[c].turn.About?
    && var key, down := s.loops[c].key, s.loops[c].turn.down;
       if key !in s.flaps || s.flaps[key].stop != c then t == s.(loops := s.loops - {c})
       else Rebuilt(SetPhase(s, key, down), t)
  }

  function SetPhase(s: Server, key: string, down: bool): Server
    requires key in s.flaps
  {
    var f := s.flaps[key].(phaseDown := down);
    s.(flaps := s.flaps[key := f], loops := s.loops[f.stop := FlapLoop(key, Waiting(!down))])
  }

  // ---- the invariant ----

  predicate KeyedLinks(links: map<string, Link>) {
    forall k | k in links :: k == KeyOfLink(links[k]) && links[k].a != links[k].b && Valid(links[k].params)
  }

  predicate KeyedFlaps(flaps: map<string, Flap>) {
    forall k | k in flaps :: k == LinkKey(flaps[k].a, flaps[k].b) && flaps[k].a != flaps[k].b
  }

  /** Channel c is open and the loop it stops is still there. */
  predicate Open(s: Server, c: Channel) {
    c !in s.closed && c in s.loops
  }

  /** Every stored stop channel is open and belongs to a loop of its kind: the flap stored
      under a key to a loop for that key. So the stored channels are all different. */
  predicate ChannelsOpen(s: Server) {
    && (s.fluxStop.Some? ==> Open(s, s.fluxStop.value) && s.loops[s.fluxStop.value].FluxLoop?)
    && (s.monkey.stop.Some? ==> Open(s, s.monkey.stop.value) && s.loops[s.monkey.stop.value].MonkeyLoop?)
    && (forall k | k in s.flaps ::
          Open(s, s.flaps[k].stop) && s.loops[s.flaps[k].stop].FlapLoop? && s.loops[s.flaps[k].stop].key == k)
    && (forall c | c in s.loops :: c < s.made)
    && (forall c | c in s.closed :: c < s.made)
  }

  /** The parts of the invariant that do not concern the containers. */
  predicate FieldsOk(s: Server) {
    KeyedLinks(s.links) && KeyedFlaps(s.flaps) && ChannelsOpen(s)
  }

  predicate Inv(s: Server) {
    FieldsOk(s) && WellFormed(s.world)
  }

  lemma {:induction false} ApplyLinksKeyed(links: map<string, Link>, ops: seq<LinkRequest>)
    requires KeyedLinks(links) && forall r | r in ops :: r.Ok()
    ensures KeyedLinks(ApplyLinks(links, ops))
  {
    if ops != [] {
      ApplyLinksKeyed(links, ops[..|ops| - 1]);
      PartitionValid();
      assert ops[|ops| - 1] in ops;
    }
  }

  lemma CancelKeepsFields(s: Server, key: string)
    requires FieldsOk(s)
    ensures FieldsOk(CancelFlap(s, key))
  {
    var t := CancelFlap(s, key);
    assert forall k | k in t.flaps :: t.flaps[k] == s.flaps[k] && k != key;
  }

  lemma StartKeepsFields(s: Server, a: string, b: string, down: int, up: int)
    requires FieldsOk(s) && a != b
    ensures FieldsOk(StartFlap(s, a, b, down, up))
  {
    CancelKeepsFields(s, LinkKey(a, b));
  }

  lemma FluxKeepsFields(s: Server, interval: int)
    requires FieldsOk(s)
    ensures FieldsOk(SetFlux(s, interval))
  {
  }

  lemma MonkeyKeepsFields(s: Server, enabled: bool, interval: int, kill: bool)
    requires FieldsOk(s)
    ensures FieldsOk(SetMonkey(s, enabled, interval, kill))
  {
  }

  lemma PhaseKeepsFields(s: Server, key: string, down: bool)
    requires FieldsOk(s) && key in s.flaps
    ensures FieldsOk(SetPhase(s, key, down))
  {
  }

  /** A loop may change its own state, and may end once its channel is closed or no longer stored. */
  lemma LoopKeepsFields(s: Server, c: Channel, l: Loop)
    requires FieldsOk(s) && c in s.loops
    requires s.loops[c].FlapLoop? ==> l.FlapLoop? && l.key == s.loops[c].key
    requires s.loops[c].FluxLoop? ==> l.FluxLoop?
    requires s.loops[c].MonkeyLoop? ==> l.MonkeyLoop?
    ensures FieldsOk(s.(loops := s.loops[c := l]))
    ensures c in s.closed || (s.loops[c].FlapLoop? && (s.loops[c].key in s.flaps ==> s.flaps[s.loops[c].key].stop != c))
            ==> FieldsOk(s.(loops := s.loops - {c}))
  {
  }

  lemma RebuiltKeepsFields(s: Server, t: Server)
    requires FieldsOk(s) && Rebuilt(s, t)
    ensures FieldsOk(t)
  {
  }

  lemma LinkRequestKeepsFields(s: Server, e: Event, t: Server)
    requires FieldsOk(s) && Step(s, e, t) && (e.LinkOps? || e.FlapOff?)
    ensures FieldsOk(t)
  {
    match e
    case LinkOps(ops) =>
      ApplyLinksKeyed(s.links, ops);
      RebuiltKeepsFields(s.(links := ApplyLinks(s.links, ops)), t);
    case FlapOff(a, b) =>
      CancelKeepsFields(s, LinkKey(a, b));
      RebuiltKeepsFields(CancelFlap(s, LinkKey(a, b)), t);
  }

  lemma RequestKeepsFields(s: Server, e: Event, t: Server)
    requires FieldsOk(s) && Step(s, e, t) && !IsLoopEvent(e) && !e.LinkOps? && !e.FlapOff?
    ensures FieldsOk(t)
  {
    if e.FlapOn? {
      StartKeepsFields(s, e.a, e.b, e.down, e.up);
    } else if e.FluxRequest? {
      FluxKeepsFields(s, e.interval);
    } else if e.MonkeyRequest? {
      MonkeyKeepsFields(s, e.enabled, e.interval, e.kill);
    } else if e.ShutFlaps? {
      ShutKeepsFields(s, t);
    } else {
      NodeRequestKeepsFields(s, e, t);
    }
  }

  lemma ShutKeepsFields(s: Server, t: Server)
    requires FieldsOk(s) && Step(s, ShutFlaps, t)
    ensures FieldsOk(t)
  {
    assert t.flaps == map[];
  }

  lemma NodeRequestKeepsFields(s: Server, e: Event, t: Server)
    requires FieldsOk(s) && Step(s, e, t) && (e.NodeRequest? || e.NodeDrop? || e.ClearRequest?)
    ensures FieldsOk(t)
  {
  }

  lemma TurnKeepsFields(s: Server, c: Channel, t: Server)
    requires FieldsOk(s) && FlapTurns(s, c, t)
    ensures FieldsOk(t)
  {
    if Owns(s, c) {
      PhaseKeepsFields(s, s.loops[c].key, s.loops[c].turn.down);
      RebuiltKeepsFields(SetPhase(s, s.loops[c].key, s.loops[c].turn.down), t);
    } else {
      LoopKeepsFields(s, c, s.loops[c]);
    }
  }

  lemma FluxRunKeepsFields(s: Server, c: Channel, t: Server)
    requires FieldsOk(s) && Step(s, FluxRun(c), t)
    ensures FieldsOk(t)
  {
    LoopKeepsFields(s, c, FluxLoop(false));
    if s.links != map[] {
      RebuiltKeepsFields(s.(loops := s.loops[c := FluxLoop(false)]), t);
    }
  }

  lemma TimerKeepsFields(s: Server, e: Event, t: Server)
    requires FieldsOk(s) && Step(s, e, t) && (e.FlapTimer? || e.FluxTimer?)
    ensures FieldsOk(t)
  {
    LoopKeepsFields(s, e.c, t.loops[e.c]);
  }

  lemma StrikeKeepsFields(s: Server, c: Channel, i: nat, t: Server)
    requires FieldsOk(s) && Step(s, MonkeyStrike(c, i), t)
    ensures FieldsOk(t)
  {
    LoopKeepsFields(s, c, t.loops[c]);
  }

  lemma RecoverKeepsFields(s: Server, c: Channel, addr: string, t: Server)
    requires FieldsOk(s) && Step(s, MonkeyRecover(c, addr), t)
    ensures FieldsOk(t)
  {
    LoopKeepsFields(s, c, t.loops[c]);
  }

  lemma DropKeepsFields(s: Server, c: Channel, t: Server)
    requires FieldsOk(s) && Step(s, MonkeyDrop(c), t)
    ensures FieldsOk(t)
  {
    LoopKeepsFields(s, c, t.loops[c]);
  }

  lemma QuitKeepsFields(s: Server, c: Channel, t: Server)
    requires FieldsOk(s) && Step(s, Quit(c), t)
    ensures FieldsOk(t)
  {
    LoopKeepsFields(s, c, s.loops[c]);
  }

  lemma DeadManKeepsFields(s: Server, t: Server)
    requires FieldsOk(s) && Step(s, DeadMan, t)
    ensures FieldsOk(t)
  {
  }

  lemma LoopStepKeepsFields(s: Server, e: Event, t: Server)
    requires FieldsOk(s) && Step(s, e, t) && IsLoopEvent(e)
    ensures FieldsOk(t)
  {
    if e.DeadMan? {
      DeadManKeepsFields(s, t);
    } else if e.FlapTurn? {
      TurnKeepsFields(s, e.c, t);
    } else if e.FluxRun? {
      FluxRunKeepsFields(s, e.c, t);
    } else if e.Quit? {
      QuitKeepsFields(s, e.c, t);
    } else if e.FlapTimer? || e.FluxTimer? {
      TimerKeepsFields(s, e, t);
    } else if e.MonkeyStrike? {
      StrikeKeepsFields(s, e.c, e.node, t);
    } else if e.MonkeyRecover? {
      RecoverKeepsFields(s, e.c, e.addr, t);
    } else {
      DropKeepsFields(s, e.c, t);
    }
  }

  // ---- what a step does to the containers ----

  /** c is the stop channel of the flap its loop turns. */
  predicate Owns(s: Server, c: Channel) {
    c in s.loops && s.loops[c].FlapLoop? && s.loops[c].key in s.flaps && s.flaps[s.loops[c].key].stop == c
  }

  /** The step rebuilds the shaping. */
  predicate Rebuilds(s: Server, e: Event) {
    e.LinkOps? || e.FlapOff? || (e.FlapTurn? && Owns(s, e.c)) || (e.FluxRun? && s.links != map[])
  }

  /** The step drops the helper of a node that is shaped. */
  predicate Strands(s: Server, e: Event) {
    || (e.NodeDrop? && e.node < |s.world.nodes| && !UnshapedAt(s.world, s.world.nodes[e.node].container))
    || (e.MonkeyDrop? && DropOf(s, e.c).Some? && DropOf(s, e.c).value < |s.world.nodes|
        && !UnshapedAt(s.world, s.world.nodes[DropOf(s, e.c).value].container))
  }

  /** What a step that is no rebuild does to the namespace. */
  function MoveOf(s: Server, e: Event): Option<Move> {
    match e
    case NodeRequest(i, a, addr) => Some(Docker(i, a, addr))
    case NodeDrop(i) => if i < |s.world.nodes| then Some(Drop(s.world.nodes[i].container)) else None
    case MonkeyStrike(c, i) => if IsMonkey(s, c) then Some(Docker(i, Disruption(s.loops[c].kill), "")) else None
    case MonkeyRecover(c, addr) =>
      if IsMonkey(s, c) && s.loops[c].victim.Some? then Some(Docker(s.loops[c].victim.value, Recovery(s.loops[c].kill), addr))
      else None
    case MonkeyDrop(c) =>
      if DropOf(s, c).Some? && DropOf(s, c).value < |s.world.nodes| then Some(Drop(s.world.nodes[DropOf(s, c).value].container))
      else None
    case ClearRequest => Some(Move.Clear)
    case DeadMan => Some(Move.Clear)
    case _ => None
  }

  /** Every step of every handler, timer and loop is one command of the namespace, or leaves the
      containers alone. */
  lemma StepIsMove(s: Server, e: Event, t: Server) returns (m: Option<Move>)
    requires Step(s, e, t)
    ensures m.None? ==> t.world == s.world
    ensures m.Some? ==> WorldStep(s.world, m.value, t.world)
    ensures Strands(s, e) <==> m.Some? && DropsShaped(s.world, m.value)
    ensures Rebuilds(s, e) <==> m.Some? && m.value.Rebuild?
  {
    if Rebuilds(s, e) {
      var order := RebuildsFrom(s, e, t);
      m := Some(Rebuild(order));
    } else {
      m := MoveOf(s, e);
      MoveOfMeans(s, e, t);
    }
  }

  lemma MoveOfMeans(s: Server, e: Event, t: Server)
    requires Step(s, e, t) && !Rebuilds(s, e)
    ensures MoveOf(s, e).None? ==> t.world == s.world
    ensures MoveOf(s, e).Some? ==> WorldStep(s.world, MoveOf(s, e).value, t.world)
    ensures Strands(s, e) <==> MoveOf(s, e).Some? && DropsShaped(s.world, MoveOf(s, e).value)
  {
    if e.NodeDrop? {
      assert s.world.nodes[e.node] in s.world.nodes;
    }
    if e.MonkeyDrop? {
      assert s.world.nodes[DropOf(s, e.c).value] in s.world.nodes;
    }
  }

  lemma RebuildsFrom(s: Server, e: Event, t: Server) returns (order: seq<Link>)
    requires Step(s, e, t) && Rebuilds(s, e)
    ensures Enumerates(order, Effective(t.links, t.flaps)) && Reconciled(s.world, order, t.world)
  {
    order :| Enumerates(order, Effective(t.links, t.flaps)) && Reconciled(s.world, order, t.world);
  }

  /** Every step of every handler, timer and loop keeps the invariant. A shaped node has a helper
      afterwards, as it had before, if and only if the step does not drop the helper of a shaped
      node. */
  lemma StepKeepsInv(s: Server, e: Event, t: Server)
    requires Inv(s) && Step(s, e, t)
    ensures Inv(t)
    ensures HelperInvariant(s.world) ==> (HelperInvariant(t.world) <==> !Strands(s, e))
  {
    if IsLoopEvent(e) {
      LoopStepKeepsFields(s, e, t);
    } else if e.LinkOps? || e.FlapOff? {
      LinkRequestKeepsFields(s, e, t);
    } else {
      RequestKeepsFields(s, e, t);
    }
    var m := StepIsMove(s, e, t);
    if m.Some? {
      StepKeepsWellFormed(s.world, m.value, t.world);
      if HelperInvariant(s.world) {
        StepKeepsGoodIff(s.world, m.value, t.world);
      }
    }
  }
}
