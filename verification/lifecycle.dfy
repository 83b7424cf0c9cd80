/** Node lifecycle, clearing and reconciling as steps on the namespace, and the invariant
    that lets a reconcile skip nodes without a helper: a shaped node has one. */
module Lifecycle {
  import opened Text
  import opened Tc
  import opened World

  datatype Action = Pause | Unpause | Kill | Stop | Start

  /** The state docker leaves a container in, None when it refuses the action. */
  function DockerResult(s: NodeState, a: Action): Option<NodeState> {
    match a
    case Pause => if s.Running? then Some(Paused) else None
    case Unpause => if s.Paused? then Some(Running) else None
    case Kill => if s.Stopped? then None else Some(Stopped)
    case Stop => Some(Stopped)
    case Start => if s.Paused? then None else Some(Running)
  }

  /** The first command of chaosNodeAction, docker's own. Stopping destroys the container's network
      namespace and with it the shaping; a container that starts gets a clean one and address
      addr. A helper it has stays behind in the old one. */
  function DockerStep(w: World, i: nat, a: Action, addr: string): World
    requires i < |w.nodes|
  {
    var n := w.nodes[i];
    match DockerResult(n.state, a)
    case None => w
    case Some(s) =>
      var newNs := n.state.Stopped? || s.Stopped?;
      var ip := if s.Stopped? then "" else if newNs then addr else n.ip;
      World(w.nodes[i := n.(state := s, ip := ip)],
            if newNs then w.eth0[n.container := NoRoot] else w.eth0,
            w.helpers,
            if newNs && n.container in w.helpers then w.stale + {n.container} else w.stale)
  }

  /** After these the helper is dropped, whatever the node's state was. */
  predicate DropsHelper(a: Action) {
    a.Kill? || a.Stop? || a.Start?
  }

  /** The second command of chaosNodeAction: the container's helper is removed. */
  function DropHelper(w: World, c: string): World {
    w.(helpers := w.helpers - {c}, stale := w.stale - {c})
  }

  /** chaosNodeAction on node i with nothing in between. */
  function NodeAction(w: World, i: nat, a: Action, addr: string): World
    requires i < |w.nodes|
  {
    var v := DockerStep(w, i, a, addr);
    if DockerResult(w.nodes[i].state, a).None? || !DropsHelper(a) then v else DropHelper(v, w.nodes[i].container)
  }

  /** chaosClearAll, and what the dead-man's script does to the containers. */
  function ClearAll(w: World): World {
    w.(eth0 := map c | c in w.eth0 :: if c in LiveContainers(w.nodes) && c !in w.stale then NoRoot else w.eth0[c],
       helpers := w.helpers - Containers(w.nodes),
       stale := w.stale - Containers(w.nodes))
  }

  /** No container of the namespace is shaped. */
  predicate Unshaped(w: World) {
    forall n | n in w.nodes && n.container in w.eth0 :: w.eth0[n.container] == NoRoot
  }

  /** Container c is not shaped. */
  predicate UnshapedAt(w: World, c: string) {
    c in w.eth0 ==> w.eth0[c] == NoRoot
  }

  predicate Good(w: World) {
    WellFormed(w) && HelperInvariant(w)
  }

  lemma ReconcileKeepsGood(w: World, links: seq<Link>, v: World)
    requires WellFormed(w) && Reconciled(w, links, v)
    ensures WellFormed(v) && (HelperInvariant(w) ==> HelperInvariant(v))
  {
    var rolls: Rolls :| v == ReconcileWith(w, links, rolls);
    ReconcileWellFormed(w, links, rolls);
    if HelperInvariant(w) {
      forall n | n in v.nodes && n.container in v.eth0
        ensures v.eth0[n.container] != NoRoot ==> n.container in v.helpers
      {
        assert n.container in w.eth0;
      }
    }
  }

  lemma ClearKeepsGood(w: World)
    requires WellFormed(w)
    ensures Good(ClearAll(w)) && Unshaped(ClearAll(w))
  {
    var v := ClearAll(w);
    forall n | n in v.nodes
      ensures n.container in v.eth0 && v.eth0[n.container] == NoRoot
    {
      assert n.Live() ==> n.container in LiveContainers(w.nodes);
      assert n.container in w.eth0;
    }
    forall c | c in v.stale && c in v.eth0 ensures v.eth0[c] == NoRoot {
      assert c in w.stale && c in w.eth0;
    }
  }

  /** A container only ever starts with an address no other node has. */
  predicate FreshAddress(w: World, a: Action, addr: string) {
    a.Start? ==> addr != "" && addr !in Addresses(w.nodes)
  }

  lemma DockerKeepsNodes(w: World, i: nat, a: Action, addr: string)
    requires WellFormed(w) && i < |w.nodes| && FreshAddress(w, a, addr)
    ensures var v := DockerStep(w, i, a, addr);
            && |v.nodes| == |w.nodes|
            && (forall j | 0 <= j < |w.nodes| ::
                  v.nodes[j].name == w.nodes[j].name && v.nodes[j].container == w.nodes[j].container
                  && (j != i ==> v.nodes[j] == w.nodes[j]))
            && forall j, k | 0 <= j < k < |v.nodes| :: v.nodes[j].ip != "" ==> v.nodes[j].ip != v.nodes[k].ip
  {
    forall j | 0 <= j < |w.nodes| ensures w.nodes[j].ip in Addresses(w.nodes) {
      assert w.nodes[j] in w.nodes;
    }
  }

  /** docker's own step keeps everything: what loses its shaping may keep a helper, but a stale
      one. */
  lemma DockerKeepsGood(w: World, i: nat, a: Action, addr: string)
    requires WellFormed(w) && i < |w.nodes| && FreshAddress(w, a, addr)
    ensures WellFormed(DockerStep(w, i, a, addr))
    ensures HelperInvariant(w) ==> HelperInvariant(DockerStep(w, i, a, addr))
    ensures forall c | UnshapedAt(w, c) :: UnshapedAt(DockerStep(w, i, a, addr), c)
  {
    var v := DockerStep(w, i, a, addr);
    assert w.nodes[i] in w.nodes;
    DockerKeepsNodes(w, i, a, addr);
    forall n | n in v.nodes
      ensures n.container in v.eth0
      ensures !n.Live() ==> v.eth0[n.container] == NoRoot
      ensures HelperInvariant(w) && v.eth0[n.container] != NoRoot ==> n.container in v.helpers
    {
      var j :| 0 <= j < |v.nodes| && v.nodes[j] == n;
      assert w.nodes[j] in w.nodes;
    }
  }

  /** What docker's step does to the shaping: a kill, a stop and the start of a stopped node leave
      the container unshaped, the start of a running one leaves it as it was. */
  lemma DockerUnshapes(w: World, i: nat, a: Action, addr: string)
    requires WellFormed(w) && i < |w.nodes| && DropsHelper(a) && DockerResult(w.nodes[i].state, a).Some?
    ensures var c := w.nodes[i].container;
            UnshapedAt(DockerStep(w, i, a, addr), c) <==>
            !(a.Start? && w.nodes[i].state.Running? && !UnshapedAt(w, c))
  {
  }

  /** Dropping a helper keeps the invariant exactly when its node is unshaped at that moment. */
  lemma DropKeepsIff(w: World, c: string)
    requires Good(w) && c in Containers(w.nodes)
    ensures WellFormed(DropHelper(w, c))
    ensures HelperInvariant(DropHelper(w, c)) <==> UnshapedAt(w, c)
  {
    var n :| n in w.nodes && n.container == c;
    assert n.container in w.eth0;
    assert forall m | m in w.nodes && m.container in w.eth0 :: w.eth0[m.container] != NoRoot ==> m.container in w.helpers;
  }

  lemma DropKeepsWellFormed(w: World, c: string)
    requires WellFormed(w)
    ensures WellFormed(DropHelper(w, c)) && forall d | UnshapedAt(w, d) :: UnshapedAt(DropHelper(w, c), d)
    ensures HelperInvariant(w) && UnshapedAt(w, c) ==> HelperInvariant(DropHelper(w, c))
  {
  }

  /** With nothing in between, the one action that loses the invariant is the start of a node that
      is already running and shaped. */
  lemma ActionKeepsHelperInvariantIff(w: World, i: nat, a: Action, addr: string)
    requires Good(w) && i < |w.nodes| && FreshAddress(w, a, addr)
    ensures WellFormed(NodeAction(w, i, a, addr))
    ensures HelperInvariant(NodeAction(w, i, a, addr)) <==>
            !(a.Start? && w.nodes[i].state.Running? && w.eth0[w.nodes[i].container] != NoRoot)
  {
    var u, c := DockerStep(w, i, a, addr), w.nodes[i].container;
    assert w.nodes[i] in w.nodes;
    DockerKeepsGood(w, i, a, addr);
    if DropsHelper(a) && DockerResult(w.nodes[i].state, a).Some? {
      DockerUnshapes(w, i, a, addr);
      DockerKeepsNodes(w, i, a, addr);
      assert u.nodes[i] in u.nodes && u.nodes[i].container == c;
      DropKeepsIff(u, c);
    }
  }

  /** What a drop at another moment leads to: a reconcile with no links then leaves the shaping in
      place, so the result is not exact. */
  lemma LeftAfterDrop(w: World, n: Node, v: World)
    requires Good(w) && n in w.nodes && !UnshapedAt(w, n.container)
    requires Reconciled(DropHelper(w, n.container), [], v)
    ensures n.container in v.eth0 && v.eth0[n.container] == w.eth0[n.container] && !Unshaped(v)
  {
    var u := DropHelper(w, n.container);
    var rolls: Rolls :| v == ReconcileWith(u, [], rolls);
    assert n in v.nodes;
  }

  /** So a link that a reconcile shaped outlives its removal when the helper of one end is dropped in
      between. */
  lemma OutlivesItsLink(w: World, links: seq<Link>, u: World, n: Node, m: Node, v: World)
    requires Good(w) && AcceptedLinks(links) && Reconciled(w, links, u) && Shapeable(w.nodes, links) && HelpersReach(w, links)
    requires n in w.nodes && n.Live() && n.ip != "" && m in w.nodes && m.ip != "" && Profile(links, n.name, m.name).Some?
    requires Reconciled(DropHelper(u, n.container), [], v)
    ensures !UnshapedAt(u, n.container) && !Exact(v, [])
  {
    var p := Packet(n.ip, m.ip, 0);
    ReconcileKeepsGood(w, links, u);
    ShapesItsLink(w, links, u, n, m, p);
    LeftAfterDrop(u, n, v);
    ShapedForNothing(v, n, m, p);
  }

  /** A packet over a link passes a netem. */
  lemma ShapesItsLink(w: World, links: seq<Link>, u: World, n: Node, m: Node, p: Packet)
    requires Good(w) && AcceptedLinks(links) && Reconciled(w, links, u) && Shapeable(w.nodes, links) && HelpersReach(w, links)
    requires n in w.nodes && n.Live() && n.ip != "" && m in w.nodes && m.ip != "" && Profile(links, n.name, m.name).Some?
    requires p == Packet(n.ip, m.ip, 0)
    ensures u.nodes == w.nodes && n.container in u.eth0 && Classify(u.eth0[n.container], p).Some?
  {
    assert n.container in w.eth0 && n.container in u.eth0;
    HelpedLeavesNothing(w, links);
    NodeExactIff(w, links, u, n);
    WantedBetween(w, links, n, m);
    assert Delivers(Classify(u.eth0[n.container], p), Wanted(u.nodes, links, n, p.dst));
  }

  lemma ShapedForNothing(v: World, n: Node, m: Node, p: Packet)
    requires WellFormed(v) && n in v.nodes && n.Live() && n.ip != "" && m in v.nodes && m.ip != "" && n.container in v.eth0
    requires p == Packet(n.ip, m.ip, 0) && Classify(v.eth0[n.container], p).Some?
    ensures !Exact(v, [])
  {
    WantedBetween(v, [], n, m);
    assert !Delivers(Classify(v.eth0[n.container], p), Wanted(v.nodes, [], n, p.dst));
    assert !ExactNode(v, [], n);
  }

  /** Why an action removes the helper: one that stayed behind when a stopped node was started again
      is attached to the old namespace, and no reconcile shapes the node through it, whatever the
      links. After the whole action nothing stale is left on the node. */
  lemma StaleHelperMisses(w: World, i: nat, addr: string, links: seq<Link>, v: World)
    requires Good(w) && i < |w.nodes| && FreshAddress(w, Start, addr)
    requires w.nodes[i].state.Stopped? && w.nodes[i].container in w.helpers
    requires Reconciled(DockerStep(w, i, Start, addr), links, v)
    ensures UnshapedAt(v, w.nodes[i].container)
    ensures w.nodes[i].container !in NodeAction(w, i, Start, addr).stale + NodeAction(w, i, Start, addr).helpers
  {
    var u := DockerStep(w, i, Start, addr);
    var rolls: Rolls :| v == ReconcileWith(u, links, rolls);
    assert w.nodes[i].container in u.stale;
  }

  /** Neither a reconcile nor a clear touches a container outside the namespace. */
  lemma OthersLeftAlone(w: World, links: seq<Link>, v: World, c: string)
    requires Reconciled(w, links, v) && c !in Containers(w.nodes)
    ensures c in v.eth0 <==> c in w.eth0
    ensures c in v.helpers <==> c in w.helpers
    ensures c in w.eth0 ==> v.eth0[c] == w.eth0[c] == ClearAll(w).eth0[c]
    ensures c in ClearAll(w).helpers <==> c in w.helpers
    ensures c in ClearAll(w).stale <==> c in w.stale
  {
    var rolls: Rolls :| v == ReconcileWith(w, links, rolls);
    assert forall n | n in w.nodes :: n.container in Containers(w.nodes);
    assert c !in LiveContainers(w.nodes) && c !in ShapedContainers(w, links);
  }

  // ---- runs ----

  /** One command of the namespace: a reconcile, a clear, or one of the two commands of an action. */
  datatype Move = Rebuild(links: seq<Link>) | Clear | Docker(node: nat, action: Action, addr: string) | Drop(container: string)

  ghost predicate WorldStep(w: World, m: Move, v: World) {
    match m
    case Rebuild(links) => Reconciled(w, links, v)
    case Clear => v == ClearAll(w)
    case Docker(i, a, addr) => i < |w.nodes| && FreshAddress(w, a, addr) && v == DockerStep(w, i, a, addr)
    case Drop(c) => c in Containers(w.nodes) && v == DropHelper(w, c)
  }

  /** The step drops the helper of a shaped node. */
  predicate DropsShaped(w: World, m: Move) {
    m.Drop? && !UnshapedAt(w, m.container)
  }

  lemma StepKeepsWellFormed(w: World, m: Move, v: World)
    requires WellFormed(w) && WorldStep(w, m, v)
    ensures WellFormed(v)
  {
    match m
    case Rebuild(links) => ReconcileKeepsGood(w, links, v);
    case Clear => ClearKeepsGood(w);
    case Docker(i, a, addr) => DockerKeepsGood(w, i, a, addr);
    case Drop(c) => DropKeepsWellFormed(w, c);
  }

  /** A step keeps the helper invariant if and only if it does not drop the helper of a shaped
      node. */
  lemma StepKeepsGoodIff(w: World, m: Move, v: World)
    requires Good(w) && WorldStep(w, m, v)
    ensures Good(v) <==> !DropsShaped(w, m)
  {
    match m
    case Rebuild(links) => ReconcileKeepsGood(w, links, v);
    case Clear => ClearKeepsGood(w);
    case Docker(i, a, addr) => DockerKeepsGood(w, i, a, addr);
    case Drop(c) => DropKeepsIff(w, c);
  }

  ghost predicate IsRun(run: seq<World>, moves: seq<Move>) {
    && |run| == |moves| + 1 && Good(run[0])
    && forall k | 0 <= k < |moves| :: WorldStep(run[k], moves[k], run[k + 1])
  }

  lemma {:induction false} CarefulRunsStayGood(run: seq<World>, moves: seq<Move>, k: nat)
    requires IsRun(run, moves) && k <= |moves|
    requires forall j | 0 <= j < k :: !DropsShaped(run[j], moves[j])
    ensures Good(run[k])
  {
    if k > 0 {
      CarefulRunsStayGood(run, moves, k - 1);
      StepKeepsGoodIff(run[k - 1], moves[k - 1], run[k]);
    }
  }

  /** Whatever the commands and their order, also when other commands come between the two of an
      action: a shaped node has a helper in every state of a run if and only if no helper is
      dropped while its node is shaped. */
  lemma RunsStayGoodIff(run: seq<World>, moves: seq<Move>)
    requires IsRun(run, moves)
    ensures (forall k | 0 <= k <= |moves| :: Good(run[k])) <==> forall k | 0 <= k < |moves| :: !DropsShaped(run[k], moves[k])
  {
    if forall k | 0 <= k <= |moves| :: Good(run[k]) {
      forall k | 0 <= k < |moves| ensures !DropsShaped(run[k], moves[k]) {
        assert Good(run[k]) && Good(run[k + 1]);
        StepKeepsGoodIff(run[k], moves[k], run[k + 1]);
      }
    } else if forall k | 0 <= k < |moves| :: !DropsShaped(run[k], moves[k]) {
      forall k | 0 <= k <= |moves| ensures Good(run[k]) {
        CarefulRunsStayGood(run, moves, k);
      }
    }
  }
}
