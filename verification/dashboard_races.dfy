/** Two runs of the dashboard in which a node action meets a rebuild: a link is removed again, but
    its shaping stays. */
module DashboardRaces {
  import opened Text
  import opened Netem
  import opened TcText
  import opened Tc
  import opened World
  import opened Lifecycle
  import opened Links
  import opened Dashboard
  import Safety = DashboardSafety

  /** The partition of two nodes, asked for. */
  function Partition(w: World, i: nat, j: nat): LinkRequest
    requires i < |w.nodes| && j < |w.nodes|
  {
    LinkRequest(w.nodes[i].name, w.nodes[j].name, NO_PARAMS, true, true)
  }

  /** The same partition withdrawn. */
  function Off(r: LinkRequest): LinkRequest {
    r.(enabled := false)
  }

  /** The monkey kills node i; the user starts it and partitions it from node j before the monkey
      brings it back and drops the helper through which it was shaped. */
  function MonkeyRace(w: World, i: nat, j: nat, addr: string, again: string): seq<Event>
    requires i < |w.nodes| && j < |w.nodes|
  {
    BeforeRecovery(w, i, j, addr) + [MonkeyRecover(0, again), MonkeyDrop(0), LinkOps([Off(Partition(w, i, j))])]
  }

  function BeforeRecovery(w: World, i: nat, j: nat, addr: string): (events: seq<Event>)
    requires i < |w.nodes| && j < |w.nodes|
    ensures |events| == 6
  {
    [MonkeyRequest(true, 15, true), MonkeyStrike(0, i), MonkeyDrop(0)]
    + [NodeRequest(i, Start, addr), NodeDrop(i), LinkOps([Partition(w, i, j)])]
  }

  /** A stopped node is started, and partitioned from node j before the request that started it
      drops the helper. */
  function StartRace(w: World, i: nat, j: nat, addr: string): seq<Event>
    requires i < |w.nodes| && j < |w.nodes|
  {
    [NodeRequest(i, Start, addr), LinkOps([Partition(w, i, j)])] + [NodeDrop(i), LinkOps([Off(Partition(w, i, j))])]
  }

  /** Nothing is asked for any more, but something is shaped. */
  ghost predicate Stranded(s: Server) {
    s.links == map[] && s.flaps == map[] && !Exact(s.world, [])
  }

  // ---- the namespace ----

  predicate TwoNodes(w: World, i: nat, j: nat) {
    && WellFormed(w) && i < |w.nodes| && j < |w.nodes| && i != j
    && w.nodes[i].name != "" && w.nodes[j].name != "" && w.nodes[j].ip != ""
  }

  /** The namespace as deployed: no node shaped, no helper. */
  predicate Deployed(w: World, i: nat, j: nat) {
    TwoNodes(w, i, j) && Unshaped(w) && w.helpers == {}
  }

  function PartitionLink(w: World, i: nat, j: nat): Link
    requires i < |w.nodes| && j < |w.nodes|
  {
    Link(w.nodes[i].name, w.nodes[j].name, PARTITION)
  }

  function Shaped(w: World, i: nat, j: nat, rolls: Rolls): World
    requires i < |w.nodes| && j < |w.nodes|
  {
    ReconcileWith(w, [PartitionLink(w, i, j)], rolls)
  }

  /** The partition is withdrawn after the helper of node i was dropped. */
  function Left(w: World, i: nat, rolls: Rolls): World
    requires i < |w.nodes|
  {
    ReconcileWith(DropHelper(w, w.nodes[i].container), [], rolls)
  }

  lemma OneLinkShapeable(w: World, i: nat, j: nat)
    requires TwoNodes(w, i, j)
    ensures Shapeable(w.nodes, [PartitionLink(w, i, j)]) && AcceptedLinks([PartitionLink(w, i, j)])
    ensures Profile([PartitionLink(w, i, j)], w.nodes[i].name, w.nodes[j].name) == Some(PARTITION)
  {
    var l := PartitionLink(w, i, j);
    PartitionValid();
    forall x, y ensures Profile([l], x, y) == if l.Joins(x, y) then Some(PARTITION) else None {
      assert [l][..0] == [];
    }
    forall n | n in w.nodes ensures NodeShapeable(w.nodes, [l], n) {
      var other := if n.name == l.a then w.nodes[j].ip else w.nodes[i].ip;
      assert NeighbourIps(w.nodes, [l], n) <= {other};
      AtMostOne(NeighbourIps(w.nodes, [l], n), other);
      PartitionPlain();
    }
  }

  lemma PartitionPlain()
    ensures Plain(PARTITION)
  {
  }

  lemma AtMostOne(s: set<string>, x: string)
    requires s <= {x}
    ensures |s| <= 1
  {
    assert s == {} || s == {x};
  }

  lemma LeftShaped(w: World, i: nat, j: nat, rolls: Rolls)
    requires Deployed(w, i, j) && w.nodes[i].Live() && w.nodes[i].ip != ""
    ensures !Exact(Left(Shaped(w, i, j, rolls), i, rolls), [])
  {
    var u := Shaped(w, i, j, rolls);
    OneLinkShapeable(w, i, j);
    assert Reconciled(w, [PartitionLink(w, i, j)], u);
    assert Reconciled(DropHelper(u, w.nodes[i].container), [], Left(u, i, rolls));
    OutlivesItsLink(w, [PartitionLink(w, i, j)], u, w.nodes[i], w.nodes[j], Left(u, i, rolls));
  }

  lemma DropNothing(w: World, i: nat, j: nat, c: string)
    requires Deployed(w, i, j)
    ensures DropHelper(w, c) == w
  {
  }

  lemma DockerKeepsDeployed(w: World, i: nat, j: nat, a: Action, addr: string)
    requires Deployed(w, i, j) && FreshAddress(w, a, addr)
    ensures var v := DockerStep(w, i, a, addr);
            Deployed(v, i, j) && Partition(v, i, j) == Partition(w, i, j)
            && forall n | n in v.nodes :: n.ip in Addresses(w.nodes) + {"", addr}
  {
    var v := DockerStep(w, i, a, addr);
    DockerKeepsGood(w, i, a, addr);
    DockerKeepsNodes(w, i, a, addr);
    forall n | n in v.nodes
      ensures n.container in v.eth0 ==> v.eth0[n.container] == NoRoot
      ensures n.ip in Addresses(w.nodes) + {"", addr}
    {
      var k :| 0 <= k < |v.nodes| && v.nodes[k] == n;
      assert w.nodes[k] in w.nodes && UnshapedAt(w, n.container);
    }
  }

  /** Once killed, node i has been started again by the user. */
  function Restarted(w: World, i: nat, addr: string): World
    requires i < |w.nodes|
  {
    DockerStep(DockerStep(w, i, Kill, ""), i, Start, addr)
  }

  lemma RestartedIsDeployed(w: World, i: nat, j: nat, addr: string)
    requires Deployed(w, i, j) && w.nodes[i].state.Running? && FreshAddress(w, Start, addr)
    ensures var x := Restarted(w, i, addr);
            Deployed(x, i, j) && Partition(x, i, j) == Partition(w, i, j) && x.nodes[i].state.Running? && x.nodes[i].ip == addr
            && FreshAddress(DockerStep(w, i, Kill, ""), Start, addr) && Addresses(x.nodes) <= Addresses(w.nodes) + {"", addr}
  {
    DockerKeepsDeployed(w, i, j, Kill, "");
    DockerKeepsDeployed(DockerStep(w, i, Kill, ""), i, j, Start, addr);
  }

  // ---- the requests ----

  /** The one link asked for is that of request r. */
  predicate Linked(s: Server, r: LinkRequest) {
    r.Ok() && s.links.Keys == {LinkKey(r.a, r.b)} && s.flaps == map[]
  }

  function LinkedBy(s: Server, i: nat, j: nat, rolls: Rolls): Server
    requires i < |s.world.nodes| && j < |s.world.nodes|
  {
    var l := PartitionLink(s.world, i, j);
    s.(links := map[KeyOfLink(l) := l], world := Shaped(s.world, i, j, rolls))
  }

  lemma RequestOn(s: Server, i: nat, j: nat, rolls: Rolls)
    requires TwoNodes(s.world, i, j) && s.links == map[] && s.flaps == map[]
    ensures Step(s, LinkOps([Partition(s.world, i, j)]), LinkedBy(s, i, j, rolls))
    ensures Linked(LinkedBy(s, i, j, rolls), Partition(s.world, i, j))
  {
    var r, l := Partition(s.world, i, j), PartitionLink(s.world, i, j);
    assert [r][..0] == [] && [l][..0] == [];
    assert ApplyLinks(s.links, [r]) == map[KeyOfLink(l) := l];
    assert Enumerates([l], Effective(map[KeyOfLink(l) := l], s.flaps));
    assert Reconciled(s.world, [l], Shaped(s.world, i, j, rolls));
  }

  lemma RequestOff(s: Server, r: LinkRequest, rolls: Rolls)
    requires Linked(s, r)
    ensures Step(s, LinkOps([Off(r)]), s.(links := map[], world := ReconcileWith(s.world, [], rolls)))
  {
    assert [Off(r)][..0] == [];
    assert ApplyLinks(s.links, [Off(r)]) == map[];
    assert Enumerates([], Effective(map[], s.flaps));
    assert Reconciled(s.world, [], ReconcileWith(s.world, [], rolls));
  }

  lemma Extend(run: seq<Server>, events: seq<Event>, e: Event, t: Server)
    requires Safety.IsRun(run, events) && Step(run[|events|], e, t)
    ensures Safety.IsRun(run + [t], events + [e])
  {
    var longer, more := run + [t], events + [e];
    forall k | 0 <= k < |more| ensures Step(longer[k], more[k], longer[k + 1]) {
      if k < |events| {
        assert longer[k] == run[k] && longer[k + 1] == run[k + 1] && more[k] == events[k];
      }
    }
  }

  lemma ExtendTwo(run: seq<Server>, events: seq<Event>, e: Event, t: Server, f: Event, u: Server)
    requires Safety.IsRun(run, events) && Step(run[|events|], e, t) && Step(t, f, u)
    ensures Safety.IsRun(run + [t, u], events + [e, f])
  {
    Extend(run, events, e, t);
    Extend(run + [t], events + [e], f, u);
    assert run + [t] + [u] == run + [t, u];
    assert events + [e] + [f] == events + [e, f];
  }

  lemma ExtendThree(run: seq<Server>, events: seq<Event>, e: Event, t: Server, f: Event, u: Server, g: Event, v: Server)
    requires Safety.IsRun(run, events) && Step(run[|events|], e, t) && Step(t, f, u) && Step(u, g, v)
    ensures Safety.IsRun(run + [t, u, v], events + [e, f, g])
  {
    ExtendTwo(run, events, e, t, f, u);
    Extend(run + [t, u], events + [e, f], g, v);
    assert run + [t, u] + [v] == run + [t, u, v];
    assert events + [e, f] + [g] == events + [e, f, g];
  }

  lemma Begin(w: World)
    requires Good(w)
    ensures Safety.IsRun([Safety.Fresh(w)], [])
  {
  }

  // ---- a start ----

  /** A helper of node i that the request has yet to drop. */
  function DropDue(s: Server, w: World, i: nat): Server {
    s.(world := w, drops := multiset{i})
  }

  lemma StartStep(s: Server, i: nat, addr: string)
    requires s.drops == multiset{} && i < |s.world.nodes| && s.world.nodes[i].state.Stopped? && FreshAddress(s.world, Start, addr)
    ensures Step(s, NodeRequest(i, Start, addr), DropDue(s, DockerStep(s.world, i, Start, addr), i))
  {
    assert multiset{} + multiset{i} == multiset{i};
  }

  lemma DropStep(s: Server, w: World, i: nat)
    requires s.drops == multiset{} && i < |w.nodes| && DropHelper(w, w.nodes[i].container) == w
    ensures Step(DropDue(s, w, i), NodeDrop(i), s.(world := w))
  {
  }

  lemma UpToStart(w: World, i: nat, j: nat, addr: string, rolls: Rolls) returns (run: seq<Server>)
    requires Deployed(w, i, j) && w.nodes[i].state.Stopped? && FreshAddress(w, Start, addr)
    ensures Safety.IsRun(run, StartRace(w, i, j, addr)[..2]) && run[0] == Safety.Fresh(w)
    ensures run[2] == LinkedBy(DropDue(Safety.Fresh(w), DockerStep(w, i, Start, addr), i), i, j, rolls)
    ensures Linked(run[2], Partition(w, i, j))
  {
    var s := Safety.Fresh(w);
    var t := DropDue(s, DockerStep(w, i, Start, addr), i);
    DockerKeepsDeployed(w, i, j, Start, addr);
    StartStep(s, i, addr);
    RequestOn(t, i, j, rolls);
    Begin(w);
    ExtendTwo([s], [], NodeRequest(i, Start, addr), t, LinkOps([Partition(w, i, j)]), LinkedBy(t, i, j, rolls));
    run := [s] + [t, LinkedBy(t, i, j, rolls)];
    assert StartRace(w, i, j, addr)[..2] == [] + [NodeRequest(i, Start, addr), LinkOps([Partition(w, i, j)])];
  }

  lemma UpToUnlinked(begun: seq<Server>, events: seq<Event>, i: nat, r: LinkRequest, rolls: Rolls)
    returns (run: seq<Server>)
    requires Safety.IsRun(begun, events) && Linked(begun[|events|], r)
    requires begun[|events|].drops == multiset{i} && i < |begun[|events|].world.nodes|
    requires !Exact(Left(begun[|events|].world, i, rolls), [])
    ensures Safety.IsRun(run, events + [NodeDrop(i), LinkOps([Off(r)])]) && run[0] == begun[0]
    ensures Stranded(run[|events| + 2])
  {
    var s := begun[|events|];
    var t := s.(world := DropHelper(s.world, s.world.nodes[i].container), drops := multiset{});
    var u := t.(links := map[], world := ReconcileWith(t.world, [], rolls));
    RequestOff(t, r, rolls);
    ExtendTwo(begun, events, NodeDrop(i), t, LinkOps([Off(r)]), u);
    run := begun + [t, u];
  }

  /** The shaping of a partition already withdrawn stays when the partition was asked for between the
      two commands of a start. */
  lemma StartRaceStrands(w: World, i: nat, j: nat, addr: string, rolls: Rolls) returns (run: seq<Server>)
    requires Deployed(w, i, j) && w.nodes[i].state.Stopped? && FreshAddress(w, Start, addr)
    ensures Safety.IsRun(run, StartRace(w, i, j, addr)) && run[0] == Safety.Fresh(w)
    ensures Stranded(run[4])
  {
    run := UpToStart(w, i, j, addr, rolls);
    DockerKeepsDeployed(w, i, j, Start, addr);
    LeftShaped(DockerStep(w, i, Start, addr), i, j, rolls);
    run := UpToUnlinked(run, StartRace(w, i, j, addr)[..2], i, Partition(w, i, j), rolls);
  }

  // ---- the monkey's victim ----

  /** The monkey's loop holds node i. */
  function Holding(w: World, i: nat): Server {
    Safety.Fresh(w).(monkey := Monkey(true, true, 15, Some(0)), made := 1, loops := map[0 := MonkeyLoop(true, Some(i), None)])
  }

  lemma MonkeyTakes(w: World, i: nat, j: nat)
    requires Deployed(w, i, j) && w.nodes[i].state.Running?
    ensures var s, v := SetMonkey(Safety.Fresh(w), true, 15, true), DockerStep(w, i, Kill, "");
            && Step(Safety.Fresh(w), MonkeyRequest(true, 15, true), s)
            && Step(s, MonkeyStrike(0, i), Strike(s, 0, i))
            && Step(Strike(s, 0, i), MonkeyDrop(0), Holding(v, i))
  {
    var s, v := SetMonkey(Safety.Fresh(w), true, 15, true), DockerStep(w, i, Kill, "");
    assert s.loops == map[0 := MonkeyLoop(true, None, None)];
    DockerKeepsDeployed(w, i, j, Kill, "");
    DropNothing(v, i, j, w.nodes[i].container);
    KillStep(s, i);
    TakenStep(Strike(s, 0, i), v, i);
  }

  lemma KillStep(s: Server, i: nat)
    requires s.loops == map[0 := MonkeyLoop(true, None, None)] && i < |s.world.nodes| && s.world.nodes[i].state.Running?
    ensures Step(s, MonkeyStrike(0, i), Strike(s, 0, i))
    ensures Strike(s, 0, i) == s.(world := DockerStep(s.world, i, Kill, ""), loops := map[0 := MonkeyLoop(true, Some(i), Some(i))])
  {
  }

  lemma TakenStep(s: Server, w: World, i: nat)
    requires s.loops == map[0 := MonkeyLoop(true, Some(i), Some(i))] && s.world == w
    requires i < |w.nodes| && DropHelper(w, w.nodes[i].container) == w
    ensures Step(s, MonkeyDrop(0), s.(loops := map[0 := MonkeyLoop(true, Some(i), None)]))
  {
    assert s.loops[0 := MonkeyLoop(true, Some(i), None)] == map[0 := MonkeyLoop(true, Some(i), None)];
  }

  lemma UpToTaken(w: World, i: nat, j: nat) returns (run: seq<Server>)
    requires Deployed(w, i, j) && w.nodes[i].state.Running?
    ensures Safety.IsRun(run, [MonkeyRequest(true, 15, true), MonkeyStrike(0, i), MonkeyDrop(0)])
    ensures run[0] == Safety.Fresh(w) && run[3] == Holding(DockerStep(w, i, Kill, ""), i)
  {
    var s := SetMonkey(Safety.Fresh(w), true, 15, true);
    MonkeyTakes(w, i, j);
    Begin(w);
    ExtendThree([Safety.Fresh(w)], [], MonkeyRequest(true, 15, true), s, MonkeyStrike(0, i), Strike(s, 0, i),
                MonkeyDrop(0), Holding(DockerStep(w, i, Kill, ""), i));
    run := [Safety.Fresh(w)] + [s, Strike(s, 0, i), Holding(DockerStep(w, i, Kill, ""), i)];
    assert [] + [MonkeyRequest(true, 15, true), MonkeyStrike(0, i), MonkeyDrop(0)]
        == [MonkeyRequest(true, 15, true), MonkeyStrike(0, i), MonkeyDrop(0)];
  }

  lemma UserActs(w: World, i: nat, j: nat, addr: string, rolls: Rolls)
    requires Deployed(w, i, j) && w.nodes[i].state.Stopped? && FreshAddress(w, Start, addr)
    ensures var s, x := Holding(w, i), DockerStep(w, i, Start, addr);
            && Step(s, NodeRequest(i, Start, addr), DropDue(s, x, i))
            && Step(DropDue(s, x, i), NodeDrop(i), s.(world := x))
            && Step(s.(world := x), LinkOps([Partition(w, i, j)]), LinkedBy(s.(world := x), i, j, rolls))
            && Linked(LinkedBy(s.(world := x), i, j, rolls), Partition(w, i, j))
  {
    var x := DockerStep(w, i, Start, addr);
    DockerKeepsDeployed(w, i, j, Start, addr);
    DropNothing(x, i, j, x.nodes[i].container);
    StartStep(Holding(w, i), i, addr);
    DropStep(Holding(w, i), x, i);
    RequestOn(Holding(w, i).(world := x), i, j, rolls);
  }

  function AfterUser(w: World, i: nat, j: nat, addr: string, rolls: Rolls): Server
    requires i < |w.nodes| && j < |w.nodes|
  {
    LinkedBy(Holding(w, i).(world := DockerStep(w, i, Start, addr)), i, j, rolls)
  }

  lemma AfterUserIs(w: World, i: nat, j: nat, addr: string, rolls: Rolls)
    requires Deployed(w, i, j) && w.nodes[i].state.Stopped? && FreshAddress(w, Start, addr)
    ensures var s := AfterUser(w, i, j, addr, rolls);
            && s.loops == map[0 := MonkeyLoop(true, Some(i), None)] && Linked(s, Partition(w, i, j))
            && s.world == Shaped(DockerStep(w, i, Start, addr), i, j, rolls)
  {
    UserActs(w, i, j, addr, rolls);
  }

  lemma UpToLinked(begun: seq<Server>, events: seq<Event>, w: World, i: nat, j: nat, addr: string, rolls: Rolls)
    returns (run: seq<Server>)
    requires Safety.IsRun(begun, events) && begun[|events|] == Holding(w, i)
    requires Deployed(w, i, j) && w.nodes[i].state.Stopped? && FreshAddress(w, Start, addr)
    ensures Safety.IsRun(run, events + [NodeRequest(i, Start, addr), NodeDrop(i), LinkOps([Partition(w, i, j)])])
    ensures run[0] == begun[0] && run[|events| + 3] == AfterUser(w, i, j, addr, rolls)
  {
    var s, x := Holding(w, i), DockerStep(w, i, Start, addr);
    UserActs(w, i, j, addr, rolls);
    ExtendThree(begun, events, NodeRequest(i, Start, addr), DropDue(s, x, i), NodeDrop(i), s.(world := x),
                LinkOps([Partition(w, i, j)]), LinkedBy(s.(world := x), i, j, rolls));
    run := begun + [DropDue(s, x, i), s.(world := x), LinkedBy(s.(world := x), i, j, rolls)];
  }

  lemma StartOfRunning(w: World, i: nat, again: string)
    requires i < |w.nodes| && w.nodes[i].state.Running?
    ensures DockerStep(w, i, Start, again) == w
  {
  }

  lemma MonkeyRecovers(s: Server, i: nat, again: string)
    requires s.loops == map[0 := MonkeyLoop(true, Some(i), None)] && i < |s.world.nodes| && s.world.nodes[i].state.Running?
    requires FreshAddress(s.world, Start, again)
    ensures Step(s, MonkeyRecover(0, again), Recover(s, 0, again))
    ensures Step(Recover(s, 0, again), MonkeyDrop(0),
                 s.(world := DropHelper(s.world, s.world.nodes[i].container), loops := map[0 := MonkeyLoop(true, None, None)]))
  {
    StartOfRunning(s.world, i, again);
    assert Recover(s, 0, again).loops == map[0 := MonkeyLoop(true, None, Some(i))];
    assert Recover(s, 0, again).loops[0 := MonkeyLoop(true, None, None)] == map[0 := MonkeyLoop(true, None, None)];
  }

  /** The monkey is about to bring back a victim that runs and is shaped. */
  ghost predicate Ripe(s: Server, i: nat, again: string, rolls: Rolls) {
    && s.loops == map[0 := MonkeyLoop(true, Some(i), None)] && i < |s.world.nodes| && s.world.nodes[i].state.Running?
    && FreshAddress(s.world, Start, again) && !Exact(Left(s.world, i, rolls), [])
  }

  lemma UpToStranded(begun: seq<Server>, events: seq<Event>, i: nat, again: string, r: LinkRequest, rolls: Rolls)
    returns (run: seq<Server>)
    requires Safety.IsRun(begun, events) && Linked(begun[|events|], r) && Ripe(begun[|events|], i, again, rolls)
    ensures Safety.IsRun(run, events + [MonkeyRecover(0, again), MonkeyDrop(0), LinkOps([Off(r)])])
    ensures run[0] == begun[0] && Stranded(run[|events| + 3])
  {
    var s := begun[|events|];
    var t := s.(world := DropHelper(s.world, s.world.nodes[i].container), loops := map[0 := MonkeyLoop(true, None, None)]);
    var u := t.(links := map[], world := ReconcileWith(t.world, [], rolls));
    MonkeyRecovers(s, i, again);
    RequestOff(t, r, rolls);
    ExtendThree(begun, events, MonkeyRecover(0, again), Recover(s, 0, again), MonkeyDrop(0), t, LinkOps([Off(r)]), u);
    run := begun + [Recover(s, 0, again), t, u];
  }

  lemma UpToRace(w: World, i: nat, j: nat, addr: string, rolls: Rolls) returns (run: seq<Server>)
    requires Deployed(w, i, j) && w.nodes[i].state.Running? && FreshAddress(w, Start, addr)
    ensures Safety.IsRun(run, BeforeRecovery(w, i, j, addr)) && run[0] == Safety.Fresh(w)
    ensures run[6].loops == map[0 := MonkeyLoop(true, Some(i), None)] && Linked(run[6], Partition(w, i, j))
    ensures run[6].world == Shaped(Restarted(w, i, addr), i, j, rolls)
  {
    var down, taken := DockerStep(w, i, Kill, ""), [MonkeyRequest(true, 15, true), MonkeyStrike(0, i), MonkeyDrop(0)];
    DockerKeepsDeployed(w, i, j, Kill, "");
    RestartedIsDeployed(w, i, j, addr);
    run := UpToTaken(w, i, j);
    run := UpToLinked(run, taken, down, i, j, addr, rolls);
    AfterUserIs(down, i, j, addr, rolls);
  }

  lemma IsRipe(s: Server, w: World, i: nat, j: nat, addr: string, again: string, rolls: Rolls)
    requires Deployed(w, i, j) && w.nodes[i].state.Running?
    requires FreshAddress(w, Start, addr) && FreshAddress(w, Start, again) && again != addr
    requires s.loops == map[0 := MonkeyLoop(true, Some(i), None)] && s.world == Shaped(Restarted(w, i, addr), i, j, rolls)
    ensures Ripe(s, i, again, rolls)
  {
    RestartedIsDeployed(w, i, j, addr);
    LeftShaped(Restarted(w, i, addr), i, j, rolls);
  }

  /** The shaping of a partition already withdrawn stays when the monkey brings back a victim that the
      user had started and partitioned. */
  lemma MonkeyRaceStrands(w: World, i: nat, j: nat, addr: string, again: string, rolls: Rolls) returns (run: seq<Server>)
    requires Deployed(w, i, j) && w.nodes[i].state.Running?
    requires FreshAddress(w, Start, addr) && FreshAddress(w, Start, again) && again != addr
    ensures Safety.IsRun(run, MonkeyRace(w, i, j, addr, again)) && run[0] == Safety.Fresh(w)
    ensures Stranded(run[9])
  {
    run := UpToRace(w, i, j, addr, rolls);
    IsRipe(run[6], w, i, j, addr, again, rolls);
    run := UpToStranded(run, BeforeRecovery(w, i, j, addr), i, again, Partition(w, i, j), rolls);
  }
}
