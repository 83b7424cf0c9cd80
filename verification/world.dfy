/** The containers of one namespace: what chaosReconcileLinks does to all of them, what
    their docker lifecycle does to their shaping, and when the two stay consistent. */
module World {
  import opened Text
  import opened Netem
  import opened TcText
  import opened Tc

  datatype NodeState = Running | Paused | Stopped

  datatype Node = Node(name: string, container: string, ip: string, state: NodeState)
  {
    predicate Live() {
      state.Running? || state.Paused?
    }
  }

  /** Go's zero value, which a lookup of an unknown name yields. */
  const NO_NODE := Node("", "", "", Stopped)

  datatype Link = Link(a: string, b: string, params: Params)
  {
    predicate Joins(x: string, y: string) {
      (a == x && b == y) || (a == y && b == x)
    }
  }

  /** helpers holds the containers that have a helper. A helper stays in the network namespace it
      joined; it is stale once its container has lost that one. */
  datatype World = World(nodes: seq<Node>, eth0: map<string, Qdisc>, helpers: set<string>, stale: set<string>)

  /** Names, containers and addresses tell nodes apart, a stopped container has no network
      namespace left to be shaped, and nothing reaches a container through a stale helper. */
  predicate WellFormed(w: World) {
    && (forall i, j | 0 <= i < j < |w.nodes| ::
          && w.nodes[i].name != w.nodes[j].name && w.nodes[i].container != w.nodes[j].container
          && (w.nodes[i].ip != "" ==> w.nodes[i].ip != w.nodes[j].ip))
    && (forall n | n in w.nodes :: n.container in w.eth0)
    && (forall n | n in w.nodes && !n.Live() :: w.eth0[n.container] == NoRoot)
    && w.stale <= w.helpers
    && (forall c | c in w.stale && c in w.eth0 :: w.eth0[c] == NoRoot)
  }

  /** All shaping is applied through the node's helper. */
  predicate HelperInvariant(w: World) {
    forall n | n in w.nodes && n.container in w.eth0 ::
      w.eth0[n.container] != NoRoot ==> n.container in w.helpers
  }

  // ---- chaosReconcileLinks ----

  function ByName(nodes: seq<Node>, name: string): Node {
    if nodes == [] then NO_NODE
    else if nodes[|nodes| - 1].name == name then nodes[|nodes| - 1]
    else ByName(nodes[..|nodes| - 1], name)
  }

  function PeerEntry(self: Node, peer: Node, params: Params, container: string): seq<PeerShape> {
    if self.ip == "" || peer.ip == "" || self.container != container then [] else [PeerShape(peer.ip, params)]
  }

  function LinkEntries(nodes: seq<Node>, l: Link, container: string): seq<PeerShape> {
    var a, b := ByName(nodes, l.a), ByName(nodes, l.b);
    PeerEntry(a, b, l.params, container) + PeerEntry(b, a, l.params, container)
  }

  /** The peers listed for a container, in link order. */
  function PeersOf(nodes: seq<Node>, links: seq<Link>, container: string): seq<PeerShape> {
    if links == [] then [] else
      PeersOf(nodes, links[..|links| - 1], container) + LinkEntries(nodes, links[|links| - 1], container)
  }

  function Containers(nodes: seq<Node>): set<string> {
    set n | n in nodes :: n.container
  }

  function LiveContainers(nodes: seq<Node>): set<string> {
    set n | n in nodes && n.Live() :: n.container
  }

  /** The source's randomness: what each container's profiles roll to. */
  type Rolls = string -> Dice

  /** What reconciling makes of one container's eth0. A stale helper runs tc elsewhere. */
  function NewEth0(w: World, links: seq<Link>, rolls: Rolls, c: string): Qdisc
    requires c in w.eth0
  {
    var peers := PeersOf(w.nodes, links, c);
    if c !in LiveContainers(w.nodes) || c in w.stale then w.eth0[c]
    else if peers != [] then Run(w.eth0[c], Script(peers, rolls(c)))
    else if c in w.helpers then Exec(w.eth0[c], DelRoot)
    else w.eth0[c]
  }

  function ShapedContainers(w: World, links: seq<Link>): set<string> {
    set c | c in LiveContainers(w.nodes) && PeersOf(w.nodes, links, c) != []
  }

  /** The state once the containers in done have been updated. */
  function PartWay(w: World, links: seq<Link>, rolls: Rolls, done: set<string>): World {
    w.(eth0 := map c | c in w.eth0 :: if c in done then NewEth0(w, links, rolls, c) else w.eth0[c],
       helpers := w.helpers + (set c | c in done && c in ShapedContainers(w, links)))
  }

  function ReconcileWith(w: World, links: seq<Link>, rolls: Rolls): World {
    w.(eth0 := map c | c in w.eth0 :: NewEth0(w, links, rolls, c),
       helpers := w.helpers + ShapedContainers(w, links))
  }

  lemma PartWayStep(w: World, links: seq<Link>, rolls: Rolls, done: set<string>, c: string)
    requires c in w.eth0
    ensures var u, v := PartWay(w, links, rolls, done), PartWay(w, links, rolls, done + {c});
            && v.eth0 == u.eth0[c := NewEth0(w, links, rolls, c)]
            && v.helpers == if c in ShapedContainers(w, links) then u.helpers + {c} else u.helpers
  {
    PartWayEth0(w, links, rolls, done, c);
    PartWayHelpers(w, links, rolls, done, c);
  }

  lemma PartWayEth0(w: World, links: seq<Link>, rolls: Rolls, done: set<string>, c: string)
    requires c in w.eth0
    ensures PartWay(w, links, rolls, done + {c}).eth0 == PartWay(w, links, rolls, done).eth0[c := NewEth0(w, links, rolls, c)]
  {
  }

  lemma PartWayHelpers(w: World, links: seq<Link>, rolls: Rolls, done: set<string>, c: string)
    ensures PartWay(w, links, rolls, done + {c}).helpers
         == PartWay(w, links, rolls, done).helpers + if c in ShapedContainers(w, links) then {c} else {}
  {
  }

  lemma AllDone(w: World, links: seq<Link>, rolls: Rolls)
    ensures PartWay(w, links, rolls, Containers(w.nodes)) == ReconcileWith(w, links, rolls)
  {
    var u, v := PartWay(w, links, rolls, Containers(w.nodes)), ReconcileWith(w, links, rolls);
    forall c | c in w.eth0 ensures u.eth0[c] == v.eth0[c] {
      assert c !in Containers(w.nodes) ==> c !in LiveContainers(w.nodes);
    }
    assert ShapedContainers(w, links) <= Containers(w.nodes);
  }

  /** v is a state chaosReconcileLinks can leave behind when started in w. */
  ghost predicate Reconciled(w: World, links: seq<Link>, v: World) {
    exists rolls: Rolls :: v == ReconcileWith(w, links, rolls)
  }

  lemma {:induction false} PeersHaveAddresses(nodes: seq<Node>, links: seq<Link>, c: string)
    ensures forall p | p in PeersOf(nodes, links, c) :: p.ip != ""
    ensures PeersOf(nodes, links, c) != [] ==> PeerIps(PeersOf(nodes, links, c)) != {}
  {
    var peers := PeersOf(nodes, links, c);
    if links != [] {
      PeersHaveAddresses(nodes, links[..|links| - 1], c);
      if peers != [] {
        assert peers[0].ip in PeerIps(peers);
      }
    }
  }

  // ---- the meaning of a link list ----

  /** The profile of the last link between two names, whichever way round it was written. */
  function Profile(links: seq<Link>, x: string, y: string): Option<Params> {
    if links == [] then None
    else if links[|links| - 1].Joins(x, y) then Some(links[|links| - 1].params)
    else Profile(links[..|links| - 1], x, y)
  }

  lemma {:induction false} ProfileSymmetric(links: seq<Link>, x: string, y: string)
    ensures Profile(links, x, y) == Profile(links, y, x)
  {
    if links != [] {
      ProfileSymmetric(links[..|links| - 1], x, y);
    }
  }

  /** The profile node n's packets to an address are to get. */
  function Wanted(nodes: seq<Node>, links: seq<Link>, n: Node, dst: string): Option<Params> {
    if dst == "" || dst !in Addresses(nodes) then None
    else Profile(links, n.name, NodeAt(nodes, dst).name)
  }

  function Addresses(nodes: seq<Node>): set<string> {
    set n | n in nodes :: n.ip
  }

  function NodeAt(nodes: seq<Node>, ip: string): (n: Node)
    requires ip in Addresses(nodes)
    ensures n in nodes && n.ip == ip
  {
    if nodes[0].ip == ip then nodes[0] else
      assert forall n | n in nodes :: n == nodes[0] || n in nodes[1..];
      NodeAt(nodes[1..], ip)
  }

  /** Every packet a live node sends meets exactly the profile its link asks for. */
  ghost predicate Exact(w: World, links: seq<Link>) {
    forall n | n in w.nodes && n.Live() && n.ip != "" && n.container in w.eth0 :: ExactNode(w, links, n)
  }

  ghost predicate ExactNode(w: World, links: seq<Link>, n: Node)
    requires n.container in w.eth0
  {
    forall p: Packet | p.src == n.ip && p.dst != "" && p.tos < 16 ::
      Delivers(Classify(w.eth0[n.container], p), Wanted(w.nodes, links, n, p.dst))
  }

  /** The addresses of the nodes that share a link with n. */
  function NeighbourIps(nodes: seq<Node>, links: seq<Link>, n: Node): set<string> {
    set m | m in nodes && m.ip != "" && Profile(links, n.name, m.name).Some? :: m.ip
  }

  /** Every profile has passed the validator. */
  predicate AcceptedLinks(links: seq<Link>) {
    forall l | l in links :: Valid(l.params)
  }

  /** The node is linked neither to itself nor to more than nine nodes, and tc can read the
      profile of each of its links. */
  predicate NodeShapeable(nodes: seq<Node>, links: seq<Link>, n: Node) {
    && Profile(links, n.name, n.name).None?
    && |NeighbourIps(nodes, links, n)| <= CLASSES
    && forall m | m in nodes && m.ip != "" && Profile(links, n.name, m.name).Some? :: Plain(Profile(links, n.name, m.name).value)
  }

  predicate Shapeable(nodes: seq<Node>, links: seq<Link>) {
    forall n | n in nodes && n.Live() && n.ip != "" :: NodeShapeable(nodes, links, n)
  }

  /** The node's helper, if it needs one, is not stale. */
  predicate HelperReaches(w: World, links: seq<Link>, n: Node) {
    n.container !in w.stale || NeighbourIps(w.nodes, links, n) == {}
  }

  predicate HelpersReach(w: World, links: seq<Link>) {
    forall n | n in w.nodes && n.Live() && n.ip != "" :: HelperReaches(w, links, n)
  }

  /** A node in no link and without a helper is skipped; what its eth0 holds lets its packets pass. */
  ghost predicate NothingLeft(w: World, links: seq<Link>, n: Node)
    requires n.container in w.eth0
  {
    NeighbourIps(w.nodes, links, n) == {} && n.container !in w.helpers ==> LetsPass(w.eth0[n.container], n.ip)
  }

  ghost predicate LetsPass(q: Qdisc, src: string) {
    forall p: Packet | p.src == src && p.dst != "" && p.tos < 16 :: Classify(q, p).None?
  }

  ghost predicate NothingLeftOver(w: World, links: seq<Link>) {
    forall n | n in w.nodes && n.Live() && n.ip != "" && n.container in w.eth0 :: NothingLeft(w, links, n)
  }

  lemma HelpedLeavesNothing(w: World, links: seq<Link>)
    requires HelperInvariant(w)
    ensures NothingLeftOver(w, links)
  {
  }

  // ---- from links to peers ----

  lemma {:induction false} ByNameFinds(nodes: seq<Node>, name: string)
    ensures ByName(nodes, name) == NO_NODE || (ByName(nodes, name) in nodes && ByName(nodes, name).name == name)
  {
    if nodes != [] {
      ByNameFinds(nodes[..|nodes| - 1], name);
    }
  }

  lemma {:induction false} ByNameOf(nodes: seq<Node>, n: Node)
    requires n in nodes && forall i, j | 0 <= i < j < |nodes| :: nodes[i].name != nodes[j].name
    ensures ByName(nodes, n.name) == n
  {
    if n != nodes[|nodes| - 1] {
      ByNameOf(nodes[..|nodes| - 1], n);
    }
  }

  lemma {:induction false} LastParamsConcat(xs: seq<PeerShape>, ys: seq<PeerShape>, ip: string)
    ensures LastParams(xs + ys, ip) == if LastParams(ys, ip).Some? then LastParams(ys, ip) else LastParams(xs, ip)
  {
    if ys == [] {
      assert xs + ys == xs;
    } else {
      assert (xs + ys)[..|xs + ys| - 1] == xs + ys[..|ys| - 1];
      LastParamsConcat(xs, ys[..|ys| - 1], ip);
    }
  }

  /** A link adds an entry for address ip to n's container just when it joins n to the
      node that has that address. */
  lemma LinkEntriesMeaning(w: World, l: Link, n: Node, ip: string)
    requires WellFormed(w) && n in w.nodes && n.ip != "" && ip != ""
    ensures LastParams(LinkEntries(w.nodes, l, n.container), ip)
         == if ip in Addresses(w.nodes) && l.Joins(n.name, NodeAt(w.nodes, ip).name) then Some(l.params) else None
  {
    var a, b := ByName(w.nodes, l.a), ByName(w.nodes, l.b);
    ByNameFinds(w.nodes, l.a);
    ByNameFinds(w.nodes, l.b);
    ByNameOf(w.nodes, n);
    if ip in Addresses(w.nodes) {
      ByNameOf(w.nodes, NodeAt(w.nodes, ip));
    }
    LastParamsConcat(PeerEntry(a, b, l.params, n.container), PeerEntry(b, a, l.params, n.container), ip);
    EntryMeaning(w, a, b, l.params, n, ip);
    EntryMeaning(w, b, a, l.params, n, ip);
  }

  lemma EntryMeaning(w: World, self: Node, peer: Node, params: Params, n: Node, ip: string)
    requires WellFormed(w) && n in w.nodes && n.ip != "" && ip != ""
    requires (self == NO_NODE || self in w.nodes) && (peer == NO_NODE || peer in w.nodes)
    ensures LastParams(PeerEntry(self, peer, params, n.container), ip)
         == if self == n && ip in Addresses(w.nodes) && peer == NodeAt(w.nodes, ip) then Some(params) else None
  {
    var e := PeerEntry(self, peer, params, n.container);
    assert e == [PeerShape(peer.ip, params)] ==> LastParams(e, ip) == if peer.ip == ip then Some(params) else None;
  }

  lemma {:induction false} PeersMeaning(w: World, links: seq<Link>, n: Node, ip: string)
    requires WellFormed(w) && n in w.nodes && n.ip != "" && ip != ""
    ensures LastParams(PeersOf(w.nodes, links, n.container), ip) == Wanted(w.nodes, links, n, ip)
  {
    if links != [] {
      var init, l := links[..|links| - 1], links[|links| - 1];
      PeersMeaning(w, init, n, ip);
      LinkEntriesMeaning(w, l, n, ip);
      LastParamsConcat(PeersOf(w.nodes, init, n.container), LinkEntries(w.nodes, l, n.container), ip);
    }
  }

  lemma PeerIsNeighbour(w: World, links: seq<Link>, n: Node, ip: string)
    requires WellFormed(w) && n in w.nodes && n.ip != "" && ip != ""
    ensures ip in PeerIps(PeersOf(w.nodes, links, n.container)) <==> ip in NeighbourIps(w.nodes, links, n)
  {
    PeersMeaning(w, links, n, ip);
    ListedHasParams(PeersOf(w.nodes, links, n.container), ip);
  }

  lemma PeersAreNeighbours(w: World, links: seq<Link>, n: Node)
    requires WellFormed(w) && n in w.nodes && n.ip != ""
    ensures PeerIps(PeersOf(w.nodes, links, n.container)) == NeighbourIps(w.nodes, links, n)
    ensures n.ip in NeighbourIps(w.nodes, links, n) <==> Profile(links, n.name, n.name).Some?
  {
    var peers := PeersOf(w.nodes, links, n.container);
    forall ip | ip != ""
      ensures ip in PeerIps(peers) <==> ip in NeighbourIps(w.nodes, links, n)
    {
      PeerIsNeighbour(w, links, n, ip);
    }
    assert "" !in PeerIps(peers) && "" !in NeighbourIps(w.nodes, links, n);
    assert NodeAt(w.nodes, n.ip) == n;
  }

  lemma {:induction false} PeersAccepted(nodes: seq<Node>, links: seq<Link>, c: string)
    requires AcceptedLinks(links)
    ensures AllValid(PeersOf(nodes, links, c))
  {
    if links != [] {
      assert links[|links| - 1] in links;
      PeersAccepted(nodes, links[..|links| - 1], c);
    }
  }

  lemma PeersPlain(w: World, links: seq<Link>, n: Node)
    requires WellFormed(w) && n in w.nodes && n.ip != ""
    ensures AllPlain(PeersOf(w.nodes, links, n.container))
       <==> forall m | m in w.nodes && m.ip != "" && Profile(links, n.name, m.name).Some? ::
              Plain(Profile(links, n.name, m.name).value)
  {
    var peers := PeersOf(w.nodes, links, n.container);
    PeersAreNeighbours(w, links, n);
    forall m | m in w.nodes && m.ip != "" ensures LastParams(peers, m.ip) == Profile(links, n.name, m.name) {
      PeersMeaning(w, links, n, m.ip);
      WantedBetween(w, links, n, m);
    }
    forall ip | ip in PeerIps(peers) ensures exists m :: m in w.nodes && m.ip == ip && ip != "" {
    }
    forall m | m in w.nodes && m.ip != "" && Profile(links, n.name, m.name).Some? ensures m.ip in PeerIps(peers) {
      assert m.ip in NeighbourIps(w.nodes, links, n);
    }
  }

  lemma ShapesIff(w: World, links: seq<Link>, n: Node)
    requires WellFormed(w) && n in w.nodes && n.ip != ""
    ensures Shapes(PeersOf(w.nodes, links, n.container), n.ip) <==> NodeShapeable(w.nodes, links, n)
  {
    PeersAreNeighbours(w, links, n);
    PeersPlain(w, links, n);
  }

  // ---- exactness ----

  lemma UnshapedExactIff(w: World, links: seq<Link>, n: Node)
    requires WellFormed(w) && n in w.nodes && n.ip != "" && n.container in w.eth0 && w.eth0[n.container] == NoRoot
    ensures ExactNode(w, links, n) <==> NeighbourIps(w.nodes, links, n) == {}
  {
    if ip :| ip in NeighbourIps(w.nodes, links, n) {
      var p := Packet(n.ip, ip, 0);
      var m :| m in w.nodes && m.ip == ip && m.ip != "" && Profile(links, n.name, m.name).Some?;
      WantedBetween(w, links, n, m);
      assert !Delivers(Classify(w.eth0[n.container], p), Wanted(w.nodes, links, n, p.dst));
    } else {
      forall p: Packet | p.src == n.ip && p.dst != "" && p.tos < 16
        ensures Delivers(Classify(w.eth0[n.container], p), Wanted(w.nodes, links, n, p.dst))
      {
        if p.dst in Addresses(w.nodes) {
          assert NodeAt(w.nodes, p.dst).ip !in NeighbourIps(w.nodes, links, n);
        }
      }
    }
  }

  lemma NoNeighbours(w: World, links: seq<Link>, n: Node)
    requires WellFormed(w) && n in w.nodes && n.ip != ""
    ensures NeighbourIps(w.nodes, links, n) == {} ==> NodeShapeable(w.nodes, links, n)
    ensures PeersOf(w.nodes, links, n.container) == [] <==> NeighbourIps(w.nodes, links, n) == {}
  {
    PeersAreNeighbours(w, links, n);
    PeersHaveAddresses(w.nodes, links, n.container);
    forall m | m in w.nodes && m.ip != "" && Profile(links, n.name, m.name).Some?
      ensures m.ip in NeighbourIps(w.nodes, links, n)
    {
    }
  }

  lemma RunExactIff(w: World, links: seq<Link>, v: World, n: Node, dice: Dice)
    requires WellFormed(w) && AcceptedLinks(links) && v.nodes == w.nodes
    requires n in w.nodes && n.ip != "" && n.container in w.eth0 && n.container in v.eth0
    requires v.eth0[n.container] == Run(w.eth0[n.container], Script(PeersOf(w.nodes, links, n.container), dice))
    ensures ExactNode(v, links, n) <==> NodeShapeable(w.nodes, links, n)
  {
    var c, peers := n.container, PeersOf(w.nodes, links, n.container);
    PeersAccepted(w.nodes, links, c);
    ShapesIff(w, links, n);
    if Shapes(peers, n.ip) {
      forall p: Packet | p.src == n.ip && p.dst != "" && p.tos < 16
        ensures Delivers(Classify(v.eth0[c], p), Wanted(v.nodes, links, n, p.dst))
      {
        PeersMeaning(w, links, n, p.dst);
        ShapedExactly(w.eth0[c], peers, dice, p);
      }
    } else {
      var stranger := SomeFreshAddress(w.nodes);
      PeersMeaning(w, links, n, stranger);
      var p := ShapedWrongly(w.eth0[c], peers, dice, n.ip, stranger);
      PeersMeaning(w, links, n, p.dst);
    }
  }

  /** After a reconcile node n's packets meet exactly their link's profile if and only if n is linked
      neither to itself nor to more than nine nodes, tc can read each of its profiles, its helper is
      not stale, and, when it is skipped for lack of links and of a helper, nothing is left on it. */
  lemma NodeExactIff(w: World, links: seq<Link>, v: World, n: Node)
    requires WellFormed(w) && AcceptedLinks(links) && Reconciled(w, links, v)
    requires n in w.nodes && n.Live() && n.ip != "" && n.container in w.eth0 && n.container in v.eth0
    ensures ExactNode(v, links, n) <==> NodeShapeable(w.nodes, links, n) && HelperReaches(w, links, n) && NothingLeft(w, links, n)
  {
    var rolls: Rolls :| v == ReconcileWith(w, links, rolls);
    var c, peers := n.container, PeersOf(w.nodes, links, n.container);
    NoNeighbours(w, links, n);
    if c in w.stale || (peers == [] && c in w.helpers) {
      ReconcileUnshapes(w, links, rolls, n);
      UnshapedExactIff(v, links, n);
    } else if peers == [] {
      SkippedExactIff(w, links, rolls, n);
    } else {
      RunExactIff(w, links, v, n, rolls(c));
    }
  }

  lemma ReconcileUnshapes(w: World, links: seq<Link>, rolls: Rolls, n: Node)
    requires WellFormed(w) && n in w.nodes && n.container in w.eth0 && n.Live()
    requires n.container in w.stale || (PeersOf(w.nodes, links, n.container) == [] && n.container in w.helpers)
    ensures ReconcileWith(w, links, rolls).eth0[n.container] == NoRoot && WellFormed(ReconcileWith(w, links, rolls))
  {
    ReconcileWellFormed(w, links, rolls);
  }

  lemma SkippedExactIff(w: World, links: seq<Link>, rolls: Rolls, n: Node)
    requires WellFormed(w) && n in w.nodes && n.ip != "" && n.container in w.eth0
    requires NeighbourIps(w.nodes, links, n) == {} && PeersOf(w.nodes, links, n.container) == []
    requires n.container !in w.helpers && n.container !in w.stale
    ensures ExactNode(ReconcileWith(w, links, rolls), links, n) <==> LetsPass(w.eth0[n.container], n.ip)
  {
    forall dst ensures Wanted(w.nodes, links, n, dst).None? {
      if dst != "" && dst in Addresses(w.nodes) {
        assert NodeAt(w.nodes, dst).ip !in NeighbourIps(w.nodes, links, n);
      }
    }
    assert ReconcileWith(w, links, rolls).eth0[n.container] == w.eth0[n.container];
  }

  lemma ReconcileWellFormed(w: World, links: seq<Link>, rolls: Rolls)
    requires WellFormed(w)
    ensures WellFormed(ReconcileWith(w, links, rolls))
  {
    var v := ReconcileWith(w, links, rolls);
    forall n | n in v.nodes && !n.Live() ensures v.eth0[n.container] == NoRoot {
      assert n.container in LiveContainers(w.nodes) ==> n.Live();
    }
  }

  lemma {:induction false} SomeFreshAddress(nodes: seq<Node>) returns (s: string)
    ensures s != "" && s !in Addresses(nodes)
    ensures forall n | n in nodes :: |n.ip| < |s|
  {
    if nodes == [] {
      s := "x";
    } else {
      var t := SomeFreshAddress(nodes[1..]);
      s := t + nodes[0].ip;
      assert forall n | n in nodes :: n == nodes[0] || n in nodes[1..];
    }
  }

  /** chaosReconcileLinks is exact on the whole namespace if and only if no live node is linked to
      itself or to more than nine nodes, tc can read every profile a live node needs, no live
      node that needs its helper has a stale one, and nothing is left on a node that is skipped. */
  lemma ReconcileExactIff(w: World, links: seq<Link>, v: World)
    requires WellFormed(w) && AcceptedLinks(links) && Reconciled(w, links, v)
    ensures Exact(v, links) <==> Shapeable(w.nodes, links) && HelpersReach(w, links) && NothingLeftOver(w, links)
  {
    forall n | n in w.nodes && n.Live() && n.ip != ""
      ensures n.container in w.eth0 && n.container in v.eth0
      ensures ExactNode(v, links, n)
         <==> NodeShapeable(w.nodes, links, n) && HelperReaches(w, links, n) && NothingLeft(w, links, n)
    {
      var rolls: Rolls :| v == ReconcileWith(w, links, rolls);
      assert n.container in w.eth0;
      NodeExactIff(w, links, v, n);
    }
  }

  lemma OneEnd(w: World, links: seq<Link>, v: World, n: Node, m: Node, p: Packet)
    requires WellFormed(w) && AcceptedLinks(links) && Reconciled(w, links, v)
    requires Shapeable(w.nodes, links) && HelpersReach(w, links) && NothingLeftOver(w, links)
    requires n in w.nodes && n.Live() && n.ip != "" && n.container in v.eth0
    requires m in w.nodes && m.ip != "" && p.src == n.ip && p.dst == m.ip && p.tos < 16
    ensures Delivers(Classify(v.eth0[n.container], p), Profile(links, n.name, m.name))
  {
    assert ExactNode(v, links, n) by {
      NodeExactIff(w, links, v, n);
    }
    WantedBetween(w, links, n, m);
  }

  lemma WantedBetween(w: World, links: seq<Link>, n: Node, m: Node)
    requires WellFormed(w) && m in w.nodes && m.ip != ""
    ensures Wanted(w.nodes, links, n, m.ip) == Profile(links, n.name, m.name)
  {
    assert NodeAt(w.nodes, m.ip) == m;
  }

  /** A link's two ends are shaped alike: what one end's packets to the other pass and what
      comes back are renderings of the same profile, and the same words if it has no range. */
  lemma BothEndsAlike(w: World, links: seq<Link>, v: World, n: Node, m: Node, p: Packet, q: Packet)
    requires WellFormed(w) && AcceptedLinks(links) && Reconciled(w, links, v)
    requires Shapeable(w.nodes, links) && HelpersReach(w, links) && NothingLeftOver(w, links)
    requires n in w.nodes && m in w.nodes && n.Live() && m.Live() && n.ip != "" && m.ip != ""
    requires p.src == n.ip == q.dst && q.src == m.ip == p.dst && p.tos < 16 && q.tos < 16
    requires n.container in v.eth0 && m.container in v.eth0
    ensures var there, back := Classify(v.eth0[n.container], p), Classify(v.eth0[m.container], q);
            var profile := Profile(links, n.name, m.name);
            && Delivers(there, profile) && Delivers(back, profile)
            && (profile.Some? && Fixed(profile.value) ==> there == back)
  {
    OneEnd(w, links, v, n, m, p);
    OneEnd(w, links, v, m, n, q);
    ProfileSymmetric(links, n.name, m.name);
    SameIfFixed(Profile(links, n.name, m.name), Classify(v.eth0[n.container], p), Classify(v.eth0[m.container], q));
  }

  lemma SameIfFixed(want: Option<Params>, x: Option<seq<string>>, y: Option<seq<string>>)
    requires Delivers(x, want) && Delivers(y, want)
    ensures want.Some? && Fixed(want.value) ==> x == y
  {
    if want.Some? && Fixed(want.value) {
      FixedRendersOnce(want.value, x.value, y.value);
    }
  }

  // ---- order of the links ----

  predicate UniquePairs(links: seq<Link>) {
    forall i, j | 0 <= i < j < |links| :: !links[j].Joins(links[i].a, links[i].b)
  }

  lemma {:induction false} ProfileUnique(links: seq<Link>, x: string, y: string, l: Link)
    requires UniquePairs(links) && l in links && l.Joins(x, y)
    ensures Profile(links, x, y) == Some(l.params)
  {
    if l != links[|links| - 1] {
      assert l in links[..|links| - 1];
      ProfileUnique(links[..|links| - 1], x, y, l);
    }
  }

  lemma {:induction false} ProfileListed(links: seq<Link>, x: string, y: string)
    ensures Profile(links, x, y).Some? ==> exists l :: l in links && l.Joins(x, y) && Profile(links, x, y).value == l.params
  {
    if links != [] {
      var last := links[|links| - 1];
      if last.Joins(x, y) {
        assert last in links;
      } else {
        ProfileListed(links[..|links| - 1], x, y);
      }
    }
  }

  /** Listing the same links in another order asks for the same profiles. */
  lemma ProfileOrder(links: seq<Link>, other: seq<Link>, x: string, y: string)
    requires UniquePairs(links) && UniquePairs(other) && forall l :: l in links <==> l in other
    ensures Profile(links, x, y) == Profile(other, x, y)
  {
    ProfileListed(links, x, y);
    ProfileListed(other, x, y);
    if Profile(links, x, y).Some? {
      var l :| l in links && l.Joins(x, y) && Profile(links, x, y).value == l.params;
      ProfileUnique(other, x, y, l);
    } else if Profile(other, x, y).Some? {
      var l :| l in other && l.Joins(x, y) && Profile(other, x, y).value == l.params;
      ProfileUnique(links, x, y, l);
    }
  }

  /** Two lists of the same links. */
  ghost predicate SameLinks(links: seq<Link>, other: seq<Link>) {
    UniquePairs(links) && UniquePairs(other) && forall l :: l in links <==> l in other
  }

  lemma SameLinksAskTheSame(w: World, links: seq<Link>, other: seq<Link>)
    requires SameLinks(links, other)
    ensures forall x, y :: Profile(links, x, y) == Profile(other, x, y)
    ensures Shapeable(w.nodes, links) <==> Shapeable(w.nodes, other)
    ensures HelpersReach(w, links) <==> HelpersReach(w, other)
    ensures NothingLeftOver(w, links) <==> NothingLeftOver(w, other)
    ensures forall n, dst :: Wanted(w.nodes, links, n, dst) == Wanted(w.nodes, other, n, dst)
  {
    forall x, y ensures Profile(links, x, y) == Profile(other, x, y) {
      ProfileOrder(links, other, x, y);
    }
    forall n ensures NeighbourIps(w.nodes, links, n) == NeighbourIps(w.nodes, other, n) {
    }
    forall n ensures NodeShapeable(w.nodes, links, n) <==> NodeShapeable(w.nodes, other, n) {
    }
  }

  /** Reconciling with the links in any order is exact for any other order of them. */
  lemma OrderIrrelevant(w: World, links: seq<Link>, other: seq<Link>, v: World)
    requires WellFormed(w) && AcceptedLinks(other) && Reconciled(w, other, v) && SameLinks(links, other)
    ensures Exact(v, links) <==> Shapeable(w.nodes, links) && HelpersReach(w, links) && NothingLeftOver(w, links)
  {
    SameLinksAskTheSame(w, links, other);
    ReconcileExactIff(w, other, v);
    forall n | n in v.nodes && n.container in v.eth0
      ensures ExactNode(v, links, n) <==> ExactNode(v, other, n)
    {
      assert forall dst :: Wanted(v.nodes, links, n, dst) == Wanted(v.nodes, other, n, dst);
    }
  }

  /** Where a pair's profile has no range, two reconciles in two orders give its packets the very
      same words. */
  lemma OrderKeepsWords(w: World, links: seq<Link>, other: seq<Link>, u: World, v: World, n: Node, p: Packet)
    requires WellFormed(w) && AcceptedLinks(links) && AcceptedLinks(other)
    requires Reconciled(w, links, u) && Reconciled(w, other, v) && SameLinks(links, other)
    requires Shapeable(w.nodes, links) && HelpersReach(w, links) && NothingLeftOver(w, links)
    requires n in w.nodes && n.Live() && n.ip != "" && n.container in u.eth0 && n.container in v.eth0
    requires p.src == n.ip && p.dst != "" && p.tos < 16
    ensures var want := Wanted(w.nodes, links, n, p.dst);
            (want.Some? ==> Fixed(want.value)) ==> Classify(u.eth0[n.container], p) == Classify(v.eth0[n.container], p)
  {
    SameLinksAskTheSame(w, links, other);
    NodeExactIff(w, links, u, n);
    NodeExactIff(w, other, v, n);
    SameIfFixed(Wanted(w.nodes, links, n, p.dst), Classify(u.eth0[n.container], p), Classify(v.eth0[n.container], p));
  }
}
