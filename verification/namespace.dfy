/** The chaos engine working on a namespace's containers in place. */
module Namespace {
  import opened Text
  import opened Netem
  import opened Tc
  import opened World
  import opened Lifecycle
  import opened Links
  import Cli

  datatype Outcome = Done | NodeNotFound(want: string) | NoAddress

  class Namespace {
    var nodes: seq<Node>
    var eth0: map<string, Qdisc>
    var helpers: set<string>
    var stale: set<string>
    var file: Option<seq<Link>>

    function View(): World
      reads this
    {
      World(nodes, eth0, helpers, stale)
    }

    function State(): Cli.State
      reads this
    {
      Cli.State(View(), file)
    }

    /** A namespace as deployed: nothing shaped, no helper, no state file. */
    constructor (nodes: seq<Node>)
      requires forall i, j | 0 <= i < j < |nodes| ::
        && nodes[i].name != nodes[j].name && nodes[i].container != nodes[j].container
        && (nodes[i].ip != "" ==> nodes[i].ip != nodes[j].ip)
      ensures this.nodes == nodes && Good(View()) && Unshaped(View()) && stale == {} && file == None
    {
      this.nodes, this.helpers, this.stale, this.file := nodes, {}, {}, None;
      this.eth0 := map c | c in Containers(nodes) :: NoRoot;
    }

    method IndexByName() returns (byName: map<string, Node>)
      ensures forall name :: ByName(nodes, name) == if name in byName then byName[name] else NO_NODE
    {
      byName := map[];
      for i := 0 to |nodes|
        invariant forall name :: ByName(nodes[..i], name) == if name in byName then byName[name] else NO_NODE
      {
        assert nodes[..i + 1][..i] == nodes[..i];
        byName := byName[nodes[i].name := nodes[i]];
      }
      assert nodes[..|nodes|] == nodes;
    }

    /** The peers of every container, in link order. */
    method CollectPeers(links: seq<Link>) returns (perContainer: map<string, seq<PeerShape>>)
      ensures forall c :: PeersOf(nodes, links, c) == At(perContainer, c)
    {
      var byName := IndexByName();
      perContainer := map[];
      for i := 0 to |links|
        invariant forall c :: PeersOf(nodes, links[..i], c) == At(perContainer, c)
      {
        var l := links[i];
        assert links[..i + 1][..i] == links[..i];
        var a := if l.a in byName then byName[l.a] else NO_NODE;
        var b := if l.b in byName then byName[l.b] else NO_NODE;
        assert forall c :: PeersOf(nodes, links[..i + 1], c) == PeersOf(nodes, links[..i], c) + LinkEntries(nodes, l, c);
        assert forall c :: LinkEntries(nodes, l, c) == PeerEntry(a, b, l.params, c) + PeerEntry(b, a, l.params, c);
        AddBoth(perContainer, a, b, l.params);
        perContainer := Add(perContainer, a, b, l.params);
        perContainer := Add(perContainer, b, a, l.params);
      }
      assert links[..|links|] == links;
    }

    static function At(m: map<string, seq<PeerShape>>, c: string): seq<PeerShape> {
      if c in m then m[c] else []
    }

    static function Add(m: map<string, seq<PeerShape>>, self: Node, peer: Node, params: Params)
      : map<string, seq<PeerShape>>
    {
      if self.ip == "" || peer.ip == "" then m
      else m[self.container := At(m, self.container) + [PeerShape(peer.ip, params)]]
    }

    static lemma AddBoth(m: map<string, seq<PeerShape>>, a: Node, b: Node, params: Params)
      ensures forall c :: At(Add(Add(m, a, b, params), b, a, params), c)
                       == At(m, c) + (PeerEntry(a, b, params, c) + PeerEntry(b, a, params, c))
    {
      forall c ensures At(Add(Add(m, a, b, params), b, a, params), c)
                    == At(m, c) + (PeerEntry(a, b, params, c) + PeerEntry(b, a, params, c))
      {
        AddOne(m, a, b, params, c);
        AddOne(Add(m, a, b, params), b, a, params, c);
      }
    }

    static lemma AddOne(m: map<string, seq<PeerShape>>, self: Node, peer: Node, params: Params, c: string)
      ensures At(Add(m, self, peer, params), c) == At(m, c) + PeerEntry(self, peer, params, c)
    {
    }

    /** chaosReconcileLinks. The per-container updates run concurrently in the source; here
        they run in any order, and every order gives the same outcome. */
    method Reconcile(links: seq<Link>, rolls: Rolls)
      requires WellFormed(View())
      modifies `eth0, `helpers
      ensures View() == ReconcileWith(old(View()), links, rolls)
    {
      var perContainer := CollectPeers(links);
      var hasHelper := helpers;
      ghost var w := View();
      ghost var done: set<string> := {};
      var pending := set n | n in nodes;
      while pending != {}
        invariant forall n | n in pending :: n in nodes
        invariant done == set n | n in nodes && n !in pending :: n.container
        invariant View() == PartWay(w, links, rolls, done)
        decreases pending
      {
        var n :| n in pending;
        var c := n.container;
        PeersHaveAddresses(nodes, links, c);
        NotDone(w, pending, n);
        NextNode(w, links, rolls, done, n);
        UpdateNode(n, At(perContainer, c), c in hasHelper, rolls(c));
        pending := pending - {n};
        done := done + {c};
      }
      AllDone(w, links, rolls);
    }

    /** The body of one goroutine of chaosReconcileLinks. */
    method UpdateNode(n: Node, peers: seq<PeerShape>, hasHelper: bool, dice: Dice)
      requires n.container in eth0 && forall p | p in peers :: p.ip != ""
      modifies `eth0, `helpers
      ensures View() == Update(old(View()), n, peers, hasHelper, dice)
    {
      if n.Live() {
        if |peers| > 0 {
          KeptSome(peers);
          Shape(n.container, peers, dice);
        } else if hasHelper {
          ClearContainer(n.container);
        }
      }
    }

    /** What one of those goroutines does to its own container. */
    static function Update(u: World, n: Node, peers: seq<PeerShape>, hasHelper: bool, dice: Dice): World
      requires n.container in u.eth0
    {
      var c := n.container;
      if !n.Live() then u
      else if peers != [] then
        u.(eth0 := if c in u.stale then u.eth0 else u.eth0[c := Run(u.eth0[c], Script(peers, dice))], helpers := u.helpers + {c})
      else if hasHelper && c !in u.stale then u.(eth0 := u.eth0[c := Exec(u.eth0[c], DelRoot)])
      else u
    }

    static lemma NextNode(w: World, links: seq<Link>, rolls: Rolls, done: set<string>, n: Node)
      requires WellFormed(w) && n in w.nodes && n.container in w.eth0 && n.container !in done
      requires n.container in LiveContainers(w.nodes) <==> n.Live()
      ensures var c, u := n.container, PartWay(w, links, rolls, done);
              Update(u, n, PeersOf(w.nodes, links, c), c in w.helpers, rolls(c)) == PartWay(w, links, rolls, done + {c})
    {
      PartWayStep(w, links, rolls, done, n.container);
    }

    /** A container is updated once, by its own node. */
    static lemma NotDone(w: World, pending: set<Node>, n: Node)
      requires WellFormed(w) && n in w.nodes && n in pending
      ensures n.container in w.eth0
      ensures n.container !in set m | m in w.nodes && m !in pending :: m.container
      ensures n.container in LiveContainers(w.nodes) <==> n.Live()
      ensures (set m | m in w.nodes && m !in pending - {n} :: m.container)
           == (set m | m in w.nodes && m !in pending :: m.container) + {n.container}
    {
    }

    /** chaosShapeContainer: the script runs in the node's helper, created on demand, and so in
        another namespace if that helper is stale. */
    method Shape(c: string, peers: seq<PeerShape>, dice: Dice)
      requires c in eth0 && peers != []
      modifies `eth0, `helpers
      ensures eth0 == if c in stale then old(eth0) else old(eth0)[c := Run(old(eth0)[c], Script(peers, dice))]
      ensures helpers == if Kept(peers) != [] then old(helpers) + {c} else old(helpers)
    {
      var script := ShapeScript(peers, dice);
      ScriptDeletesIff(peers, dice);
      if script != [DelRoot] {
        helpers := helpers + {c};
      }
      RunScript(c, script);
    }

    /** docker exec in the helper of container c. */
    method RunScript(c: string, script: seq<Command>)
      requires c in eth0
      modifies `eth0
      ensures eth0 == if c in stale then old(eth0) else old(eth0)[c := Run(old(eth0)[c], script)]
    {
      if c !in stale {
        eth0 := eth0[c := Run(eth0[c], script)];
      }
    }

    /** chaosClearContainer: it never creates a helper, but uses the one that is there. */
    method ClearContainer(c: string)
      requires c in eth0
      modifies `eth0
      ensures eth0 == if c in stale then old(eth0) else old(eth0)[c := Exec(old(eth0)[c], DelRoot)]
    {
      if c !in stale {
        eth0 := eth0[c := Exec(eth0[c], DelRoot)];
      }
    }

    /** chaosClearAll: live containers lose their root qdisc, all helpers go, and so does the
        state file. */
    method ClearAll()
      requires WellFormed(View())
      modifies `eth0, `helpers, `stale, `file
      ensures View() == Lifecycle.ClearAll(old(View())) && file == None
    {
      ghost var w := View();
      for i := 0 to |nodes|
        invariant helpers == w.helpers && stale == w.stale
        invariant eth0 == Cleared(w, LiveContainers(nodes[..i]))
      {
        var n := nodes[i];
        ClearNext(w, i);
        if n.Live() {
          ClearContainer(n.container);
        }
      }
      assert nodes[..|nodes|] == nodes;
      helpers := helpers - Containers(nodes);
      stale := stale - Containers(nodes);
      file := Cli.Save([]);
    }

    /** What clearing the containers in done leaves of every eth0. */
    static function Cleared(w: World, done: set<string>): map<string, Qdisc> {
      map c | c in w.eth0 :: if c in done && c !in w.stale then NoRoot else w.eth0[c]
    }

    static lemma ClearNext(w: World, i: nat)
      requires i < |w.nodes| && w.nodes[i].container in w.eth0
      ensures var n, m := w.nodes[i], Cleared(w, LiveContainers(w.nodes[..i]));
              Cleared(w, LiveContainers(w.nodes[..i + 1]))
              == if n.Live() && n.container !in w.stale then m[n.container := Exec(m[n.container], DelRoot)] else m
    {
      assert w.nodes[..i + 1] == w.nodes[..i] + [w.nodes[i]];
      assert LiveContainers(w.nodes[..i + 1])
          == LiveContainers(w.nodes[..i]) + if w.nodes[i].Live() then {w.nodes[i].container} else {};
    }

    /** The docker command of chaosNodeAction on a node already resolved; addr is the address docker
        would give the container if it starts. */
    method DockerAct(i: nat, action: Action, addr: string) returns (accepted: bool)
      requires i < |nodes| && nodes[i].container in eth0
      modifies `nodes, `eth0, `stale
      ensures View() == DockerStep(old(View()), i, action, addr)
      ensures accepted <==> DockerResult(old(nodes[i]).state, action).Some?
    {
      var n := nodes[i];
      var result := DockerResult(n.state, action);
      if result.None? {
        return false;
      }
      var stopped := result.value.Stopped?;
      if n.state.Stopped? || stopped {
        eth0 := eth0[n.container := NoRoot];
        nodes := nodes[i := n.(state := result.value, ip := if stopped then "" else addr)];
        if n.container in helpers {
          stale := stale + {n.container};
        }
      } else {
        nodes := nodes[i := n.(state := result.value)];
      }
      return true;
    }

    /** chaosRemoveHelpers for one container. */
    method RemoveHelper(c: string)
      modifies `helpers, `stale
      ensures View() == DropHelper(old(View()), c)
    {
      helpers := helpers - {c};
      stale := stale - {c};
    }

    /** chaosNodeAction with nothing coming between its two commands. */
    method Act(i: nat, action: Action, addr: string) returns (accepted: bool)
      requires i < |nodes| && nodes[i].container in eth0
      modifies `nodes, `eth0, `helpers, `stale
      ensures View() == NodeAction(old(View()), i, action, addr)
      ensures accepted <==> DockerResult(old(nodes[i]).state, action).Some?
    {
      var c := nodes[i].container;
      accepted := DockerAct(i, action, addr);
      if accepted && (action.Kill? || action.Stop? || action.Start?) {
        RemoveHelper(c);
      }
    }

    /** chaosResolveNode: the first node with that name or container, or whose container is
        the full host name made from it. */
    method Resolve(want: string, full: string) returns (i: nat)
      ensures Resolves(nodes, want, full, i)
      ensures i < |nodes| ==> nodes[i].name == want || nodes[i].container == want || nodes[i].container == full
      ensures forall j | 0 <= j < i :: nodes[j].name != want && nodes[j].container != want && nodes[j].container != full
    {
      i := 0;
      while i < |nodes|
        invariant i <= |nodes|
        invariant forall j | 0 <= j < i :: !Answers(nodes[j], want, full)
      {
        if Answers(nodes[i], want, full) {
          return;
        }
        i := i + 1;
      }
    }

    static predicate Answers(n: Node, want: string, full: string) {
      n.name == want || n.container == want || n.container == full
    }

    /** Node i is the first that answers to the name, or i is past the end and none does. */
    static predicate Resolves(ns: seq<Node>, want: string, full: string, i: nat) {
      && i <= |ns| && (i < |ns| ==> Answers(ns[i], want, full))
      && forall j | 0 <= j < i :: !Answers(ns[j], want, full)
    }

    /** No node answers to the name. */
    static predicate Unknown(ns: seq<Node>, want: string, full: string) {
      forall n | n in ns :: !Answers(n, want, full)
    }

    /** A request names a node that is unknown, the first name first, or one without an address, and
        leaves everything as it was; or it is a LinkNodes step between the two nodes resolved. */
    static ghost predicate Answered(s: Cli.State, params: Params, wantA: string, fullA: string,
                                    wantB: string, fullB: string, r: Outcome, t: Cli.State) {
      var ns := s.world.nodes;
      && (!r.Done? ==> t == s)
      && (Unknown(ns, wantA, fullA) ==> r == NodeNotFound(wantA))
      && (!Unknown(ns, wantA, fullA) && Unknown(ns, wantB, fullB) ==> r == NodeNotFound(wantB))
      && (!Unknown(ns, wantA, fullA) && !Unknown(ns, wantB, fullB) ==>
            exists i: nat, j: nat ::
              && i < |ns| && j < |ns| && Resolves(ns, wantA, fullA, i) && Resolves(ns, wantB, fullB, j)
              && r == (if ns[i].ip == "" || ns[j].ip == "" then NoAddress else Done)
              && (r.Done? ==> Cli.Step(s, Cli.LinkNodes(ns[i], ns[j], params), t)))
    }

    /** chaosDegradeLink between the nodes wanted, whose full host names are given too. */
    method DegradeLink(wantA: string, fullA: string, wantB: string, fullB: string, params: Params, rolls: Rolls)
      returns (r: Outcome)
      requires WellFormed(View()) && Valid(params)
      modifies `eth0, `helpers, `file
      ensures Answered(old(State()), params, wantA, fullA, wantB, fullB, r, State())
    {
      var profile := Cli.WithDefault(params);
      var i := Resolve(wantA, fullA);
      assert i < |nodes| ==> nodes[i] in nodes;
      if i == |nodes| {
        return NodeNotFound(wantA);
      }
      var j := Resolve(wantB, fullB);
      assert j < |nodes| ==> nodes[j] in nodes;
      if j == |nodes| {
        return NodeNotFound(wantB);
      }
      var a, b := nodes[i], nodes[j];
      if a.ip == "" || b.ip == "" {
        return NoAddress;
      }
      var l := Link(a.name, b.name, profile);
      var links := PutLink(Cli.Load(file), l);
      Reconcile(links, rolls);
      file := Cli.Save(links);
      assert Cli.Step(old(State()), Cli.LinkNodes(a, b, params), State());
      return Done;
    }

    /** The upsert loop of chaosDegradeLink. */
    static method PutLink(links: seq<Link>, l: Link) returns (r: seq<Link>)
      ensures r == Upsert(links, l)
    {
      r := links;
      for i := 0 to |links|
        invariant r == links
        invariant Upsert(links, l) == links[..i] + Upsert(links[i..], l)
      {
        UpsertAt(links, l, i);
        if KeyOfLink(links[i]) == KeyOfLink(l) {
          r := r[i := l];
          return;
        }
      }
      r := r + [l];
    }

    static lemma UpsertAt(links: seq<Link>, l: Link, i: nat)
      requires i < |links|
      ensures links[..i] + Upsert(links[i..], l)
           == if KeyOfLink(links[i]) == KeyOfLink(l) then links[i := l] else links[..i + 1] + Upsert(links[i + 1..], l)
    {
      var more := links[i + 1..];
      assert links[i..][1..] == more;
      assert links[..i] + ([l] + more) == links[i := l];
      assert links[..i] + ([links[i]] + Upsert(more, l)) == links[..i + 1] + Upsert(more, l);
    }

    /** chaosPartition. */
    method PartitionNodes(wantA: string, fullA: string, wantB: string, fullB: string, rolls: Rolls)
      returns (r: Outcome)
      requires WellFormed(View())
      modifies `eth0, `helpers, `file
      ensures Answered(old(State()), PARTITION, wantA, fullA, wantB, fullB, r, State())
    {
      PartitionValid();
      r := DegradeLink(wantA, fullA, wantB, fullB, PARTITION, rolls);
    }
  }
}
