/** One container's shaping: the tc commands chaosShapeContainer writes, how tc reads them and
    what the kernel does with them, and which netem a packet leaving eth0 then passes. */
module Tc {
  import opened Text
  import opened Netem
  import opened TcText

  const MAX_PEERS := 15
  const MAX_BANDS := 16

  /** The classes whose numbers read the same in decimal and in hexadecimal. */
  const CLASSES := 9

  datatype Packet = Packet(src: string, dst: string, tos: nat)

  datatype Direction = Dst | Src

  /** Counts and ids as the text of the command line. */
  datatype Command =
    | DelRoot
    | AddPrio(bands: string, priomap: seq<string>)
    | ReplaceNetem(parent: string, handle: string, args: seq<string>)
    | AddFilter(dir: Direction, ip: string, flowid: string)

  datatype Leaf = Leaf(handle: nat, args: seq<string>)
  datatype Filter = Filter(dir: Direction, ip: string, flowid: nat)

  /** eth0's root qdisc. NoRoot is the untouched interface; classes are numbered from 1. */
  datatype Qdisc =
    | NoRoot
    | Prio(bands: nat, priomap: seq<nat>, leaves: map<nat, Leaf>, filters: seq<Filter>)

  // ---- tc ----

  /** What tc makes of a command line and asks the kernel for, if it can read it. */
  datatype Request =
    | Delete
    | Create(bands: nat, priomap: seq<nat>)
    | Attach(class_: nat, handle: nat, args: seq<string>)
    | Steer(dir: Direction, ip: string, class_: nat)
    | Unread

  function Count(text: string): nat {
    match ReadCount(text)
    case None => 0
    case Some(n) => n
  }

  /** The class of the root qdisc an id names, 0 for none. */
  function RootClass(text: string): nat {
    match ReadId(text)
    case Some(Id(1, c)) => c
    case _ => 0
  }

  function Handle(text: string): nat {
    match ReadId(text)
    case Some(Id(h, 0)) => h
    case _ => 0
  }

  function Understood(c: Command): Request {
    match c
    case DelRoot => Delete
    case AddPrio(bands, priomap) =>
      if ReadCount(bands).None? || exists b :: b in priomap && ReadCount(b).None? then Unread
      else Create(Count(bands), seq(|priomap|, i requires 0 <= i < |priomap| => Count(priomap[i])))
    case ReplaceNetem(parent, handle, args) =>
      if RootClass(parent) == 0 || Handle(handle) == 0 || !ReadsNetem(args) then Unread
      else Attach(RootClass(parent), Handle(handle), args)
    case AddFilter(dir, ip, flowid) =>
      if RootClass(flowid) == 0 then Unread else Steer(dir, ip, RootClass(flowid))
  }

  type Reader = Command -> Request

  function Tc(): Reader {
    c => Understood(c)
  }

  function Requests(tc: Reader, script: seq<Command>): seq<Request> {
    if script == [] then [] else Requests(tc, script[..|script| - 1]) + [tc(script[|script| - 1])]
  }

  // ---- the kernel ----

  predicate Grants(q: Qdisc, r: Request) {
    match r
    case Delete => q.Prio?
    case Create(bands, priomap) =>
      q.NoRoot? && 2 <= bands <= MAX_BANDS && |priomap| == 16 && forall b | b in priomap :: b < bands
    case Attach(class_, handle, _) =>
      q.Prio? && 1 <= class_ <= q.bands && handle > 1
      && forall k | k in q.leaves && k != class_ :: q.leaves[k].handle != handle
    case Steer(_, _, _) => q.Prio?
    case Unread => false
  }

  /** Fifteen peers are the most a prio qdisc has bands for, beside the one for everything else. */
  lemma MostPeers(n: nat)
    requires n > 0
    ensures Grants(NoRoot, Create(n + 1, seq(16, _ => n))) <==> n <= 15 == MAX_PEERS
  {
    var priomap := seq(16, _ => n);
    assert priomap[0] == n;
  }

  function Perform(q: Qdisc, r: Request): Qdisc {
    if !Grants(q, r) then q else
      match r
      case Delete => NoRoot
      case Create(bands, priomap) => Prio(bands, priomap, map[], [])
      case Attach(class_, handle, args) => q.(leaves := q.leaves[class_ := Leaf(handle, args)])
      case Steer(dir, ip, class_) => q.(filters := q.filters + [Filter(dir, ip, class_)])
  }

  function PerformAll(q: Qdisc, rs: seq<Request>): Qdisc {
    if rs == [] then q else Perform(PerformAll(q, rs[..|rs| - 1]), rs[|rs| - 1])
  }

  predicate AllGranted(q: Qdisc, rs: seq<Request>) {
    rs == [] || (AllGranted(q, rs[..|rs| - 1]) && Grants(PerformAll(q, rs[..|rs| - 1]), rs[|rs| - 1]))
  }

  // ---- both ----

  /** The command is read and carried out. */
  predicate Accepts(q: Qdisc, c: Command) {
    Grants(q, Understood(c))
  }

  /** A refused command changes nothing and the script goes on. */
  function Exec(q: Qdisc, c: Command): Qdisc {
    Perform(q, Understood(c))
  }

  function Run(q: Qdisc, script: seq<Command>): Qdisc {
    PerformAll(q, Requests(Tc(), script))
  }

  /** Every command of the script is accepted in the state it finds. */
  predicate AllAccepted(q: Qdisc, script: seq<Command>) {
    AllGranted(q, Requests(Tc(), script))
  }

  predicate Matches(f: Filter, p: Packet) {
    match f.dir
    case Dst => p.dst == f.ip
    case Src => p.src == f.ip
  }

  /** The class of the first matching filter; filters of one priority are tried in order. */
  function FirstMatch(filters: seq<Filter>, p: Packet): Option<nat> {
    if filters == [] then None
    else if Matches(filters[0], p) then Some(filters[0].flowid)
    else FirstMatch(filters[1..], p)
  }

  /** The class a packet is queued in: its filter's, the first priority's when there is no such
      class, or the band its own priority maps to. */
  function ClassOf(q: Qdisc, p: Packet): nat
    requires q.Prio? && p.tos < |q.priomap|
  {
    match FirstMatch(q.filters, p)
    case Some(c) => if 1 <= c <= q.bands then c else q.priomap[0] + 1
    case None => q.priomap[p.tos] + 1
  }

  /** The netem a packet passes, None when it leaves unshaped. */
  function Classify(q: Qdisc, p: Packet): Option<seq<string>> {
    if q.NoRoot? || p.tos >= |q.priomap| then None else
      var c := ClassOf(q, p);
      if c in q.leaves then Some(q.leaves[c].args) else None
  }

  // ---- chaosShapeContainer ----

  datatype PeerShape = PeerShape(ip: string, params: Params)

  /** Index of the entry for ip, |peers| when there is none. */
  function Slot(peers: seq<PeerShape>, ip: string): (k: nat)
    ensures k <= |peers|
    ensures k < |peers| ==> peers[k].ip == ip
    ensures forall i | 0 <= i < k :: peers[i].ip != ip
  {
    if peers == [] then 0
    else if peers[0].ip == ip then 0
    else
      var k := Slot(peers[1..], ip);
      assert forall i | 1 <= i < k + 1 :: peers[i] == peers[1..][i - 1];
      k + 1
  }

  function Dedupe(peers: seq<PeerShape>): seq<PeerShape> {
    if peers == [] then [] else
      var d, p := Dedupe(peers[..|peers| - 1]), peers[|peers| - 1];
      var k := Slot(d, p.ip);
      if p.ip == "" then d else if k < |d| then d[k := p] else d + [p]
  }

  function Kept(peers: seq<PeerShape>): (u: seq<PeerShape>)
    ensures |u| <= MAX_PEERS
  {
    var u := Dedupe(peers);
    if |u| > MAX_PEERS then u[..MAX_PEERS] else u
  }

  /** The source's random generator: one set of draws for each band it may fill. */
  type Dice = ds: seq<Draws> | |ds| == MAX_PEERS && forall d | d in ds :: d.InUnit()
    witness seq(MAX_PEERS, _ => Draws(0.0, 0.0, 0.0, 0.0, 0.0, 0.0, 0.0, 0.0))

  /** The netem arguments of each band, rolled. */
  function Rolled(u: seq<PeerShape>, dice: Dice): (args: seq<seq<string>>)
    requires |u| <= MAX_PEERS
    ensures |args| == |u|
    ensures forall i | 0 <= i < |u| :: Renders(u[i].params, args[i])
  {
    seq(|u|, i requires 0 <= i < |u| => NetemArgs(u[i].params, dice[i]))
  }

  function Script(peers: seq<PeerShape>, dice: Dice): seq<Command> {
    var u := Kept(peers);
    if u == [] then [DelRoot]
    else [DelRoot] + PrioScript(u, Rolled(u, dice), |u|)
  }

  /** Every priority goes to band n, the one after the peers' bands. */
  function PrioMap(n: nat): (m: seq<string>)
    ensures |m| == 16 && forall i | 0 <= i < 16 :: m[i] == Itoa(n)
  {
    seq(16, _ => Itoa(n))
  }

  /** start, and behind it the first k parts. */
  function Flat<T>(start: seq<T>, parts: seq<seq<T>>, k: nat): seq<T>
    requires k <= |parts|
  {
    if k == 0 then start else Flat(start, parts, k - 1) + parts[k - 1]
  }

  function RootCommand(n: nat): Command {
    AddPrio(Itoa(n + 1), PrioMap(n))
  }

  function PeerCommands(ip: string, args: seq<string>, k: nat): seq<Command> {
    [ReplaceNetem(ClassText(k), HandleText(10 + k), args), AddFilter(Dst, ip, ClassText(k)), AddFilter(Src, ip, ClassText(k))]
  }

  function AllPeerCommands(u: seq<PeerShape>, args: seq<seq<string>>): (parts: seq<seq<Command>>)
    requires |u| == |args|
    ensures |parts| == |u|
    ensures forall i | 0 <= i < |u| :: parts[i] == PeerCommands(u[i].ip, args[i], i + 1)
  {
    seq(|u|, i requires 0 <= i < |u| => PeerCommands(u[i].ip, args[i], i + 1))
  }

  /** The root qdisc, and the commands of the first k peers. */
  function PrioScript(u: seq<PeerShape>, args: seq<seq<string>>, k: nat): seq<Command>
    requires k <= |u| == |args|
  {
    Flat([RootCommand(|u|)], AllPeerCommands(u, args), k)
  }

  /** chaosShapeContainer up to the point where the script is handed to the helper. */
  method ShapeScript(peers: seq<PeerShape>, dice: Dice) returns (script: seq<Command>)
    ensures script == Script(peers, dice)
  {
    var uniq := Uniq(peers);
    if |uniq| == 0 {
      return [DelRoot];
    }
    if |uniq| > MAX_PEERS {
      uniq := uniq[..MAX_PEERS];
    }
    script := PrioCommands(uniq, Rolled(uniq, dice));
    script := [DelRoot] + script;
  }

  /** The index of each address in the list. */
  predicate Indexes(seen: map<string, nat>, uniq: seq<PeerShape>) {
    && (forall ip | ip in seen :: seen[ip] < |uniq| && uniq[seen[ip]].ip == ip)
    && forall k | 0 <= k < |uniq| :: uniq[k].ip in seen && seen[uniq[k].ip] == k
  }

  lemma SlotSeen(seen: map<string, nat>, uniq: seq<PeerShape>, p: PeerShape)
    requires Indexes(seen, uniq)
    ensures p.ip in seen ==> Slot(uniq, p.ip) == seen[p.ip] < |uniq| && Indexes(seen, uniq[seen[p.ip] := p])
    ensures p.ip !in seen ==> Slot(uniq, p.ip) == |uniq| && Indexes(seen[p.ip := |uniq|], uniq + [p])
  {
  }

  /** The first loop: one entry per address, the last profile listed for it. */
  method Uniq(peers: seq<PeerShape>) returns (uniq: seq<PeerShape>)
    ensures uniq == Dedupe(peers)
  {
    var seen: map<string, nat> := map[];
    uniq := [];
    for i := 0 to |peers|
      invariant uniq == Dedupe(peers[..i])
      invariant Indexes(seen, uniq)
    {
      var p := peers[i];
      assert peers[..i + 1][..i] == peers[..i];
      if p.ip == "" {
        continue;
      }
      SlotSeen(seen, uniq, p);
      if p.ip in seen {
        uniq := uniq[seen[p.ip] := p];
        continue;
      }
      seen := seen[p.ip := |uniq|];
      uniq := uniq + [p];
    }
    assert peers[..|peers|] == peers;
  }

  /** The part of the script that writes the bands, netems and filters. */
  method PrioCommands(u: seq<PeerShape>, args: seq<seq<string>>) returns (script: seq<Command>)
    requires |u| == |args|
    ensures script == PrioScript(u, args, |u|)
  {
    var n := |u|;
    var pri: seq<string> := [];
    for i := 0 to 16
      invariant |pri| == i && forall k | 0 <= k < i :: pri[k] == Itoa(n)
    {
      pri := pri + [Itoa(n)];
    }
    assert pri == PrioMap(n);
    script := [AddPrio(Itoa(n + 1), pri)];
    for i := 0 to n
      invariant script == PrioScript(u, args, i)
    {
      var band := i + 1;
      var netem := ReplaceNetem("1:" + Itoa(band), Itoa(10 + band) + ":", args[i]);
      script := script + [netem, AddFilter(Dst, u[i].ip, "1:" + Itoa(band)), AddFilter(Src, u[i].ip, "1:" + Itoa(band))];
    }
  }

  // ---- what the list of peers means ----

  /** The last profile listed for an address. */
  function LastParams(peers: seq<PeerShape>, ip: string): Option<Params> {
    if peers == [] then None
    else if peers[|peers| - 1].ip == ip then Some(peers[|peers| - 1].params)
    else LastParams(peers[..|peers| - 1], ip)
  }

  function PeerIps(peers: seq<PeerShape>): set<string> {
    set p | p in peers && p.ip != "" :: p.ip
  }

  lemma SlotUpdate(d: seq<PeerShape>, p: PeerShape, ip: string)
    ensures var k := Slot(d, p.ip); var e := if k < |d| then d[k := p] else d + [p];
            Slot(e, ip) == if ip == p.ip then k else if Slot(d, ip) < |d| then Slot(d, ip) else |e|
  {
    var k := Slot(d, p.ip);
    var e := if k < |d| then d[k := p] else d + [p];
    var m := Slot(e, ip);
    assert forall i | 0 <= i < |d| && i != k :: e[i] == d[i];
    assert e[k] == p;
  }

  /** Deduplication has an entry exactly for the listed addresses, with the last profile. */
  lemma {:induction false} DedupeSlot(peers: seq<PeerShape>, ip: string)
    requires ip != ""
    ensures var d := Dedupe(peers); var k := Slot(d, ip);
            LastParams(peers, ip) == if k < |d| then Some(d[k].params) else None
  {
    if peers != [] {
      var init, p := peers[..|peers| - 1], peers[|peers| - 1];
      DedupeSlot(init, ip);
      SlotUpdate(Dedupe(init), p, ip);
    }
  }

  /** Its entries have distinct non-empty addresses: the ones listed. */
  lemma {:induction false} DedupeDistinct(peers: seq<PeerShape>)
    ensures DistinctIps(Dedupe(peers)) && |Dedupe(peers)| == |PeerIps(peers)|
  {
    if peers != [] {
      var init, p := peers[..|peers| - 1], peers[|peers| - 1];
      var d := Dedupe(init);
      DedupeDistinct(init);
      PeerIpsSnoc(peers);
      if p.ip != "" {
        DedupeSlot(init, p.ip);
        ListedHasParams(init, p.ip);
        if Slot(d, p.ip) < |d| {
          assert PeerIps(peers) == PeerIps(init);
          ReplaceDistinct(d, Slot(d, p.ip), p);
        } else {
          AppendDistinct(d, p);
        }
      }
    }
  }

  predicate DistinctIps(d: seq<PeerShape>) {
    (forall i | 0 <= i < |d| :: d[i].ip != "") && forall i, j | 0 <= i < j < |d| :: d[i].ip != d[j].ip
  }

  lemma ReplaceDistinct(d: seq<PeerShape>, k: nat, p: PeerShape)
    requires DistinctIps(d) && k < |d| && d[k].ip == p.ip
    ensures DistinctIps(d[k := p])
  {
    var e := d[k := p];
    assert forall i | 0 <= i < |d| :: e[i].ip == d[i].ip;
  }

  lemma AppendDistinct(d: seq<PeerShape>, p: PeerShape)
    requires DistinctIps(d) && p.ip != "" && Slot(d, p.ip) == |d|
    ensures DistinctIps(d + [p])
  {
    var e := d + [p];
    assert forall i | 0 <= i < |d| :: e[i] == d[i] && d[i].ip != p.ip;
  }

  lemma PeerIpsSnoc(peers: seq<PeerShape>)
    requires peers != []
    ensures var init, p := peers[..|peers| - 1], peers[|peers| - 1];
            PeerIps(peers) == PeerIps(init) + if p.ip == "" then {} else {p.ip}
  {
    assert peers == peers[..|peers| - 1] + [peers[|peers| - 1]];
  }

  /** Both of the above, for every entry. */
  lemma DedupeMeaning(peers: seq<PeerShape>)
    ensures var d := Dedupe(peers);
            && (forall i | 0 <= i < |d| :: d[i].ip != "" && LastParams(peers, d[i].ip) == Some(d[i].params))
            && (forall i, j | 0 <= i < j < |d| :: d[i].ip != d[j].ip)
            && |d| == |PeerIps(peers)|
    ensures forall ip | ip in PeerIps(peers) :: Slot(Dedupe(peers), ip) < |Dedupe(peers)|
  {
    DedupeDistinct(peers);
    var d := Dedupe(peers);
    forall i | 0 <= i < |d| ensures LastParams(peers, d[i].ip) == Some(d[i].params) {
      DedupeSlot(peers, d[i].ip);
    }
    forall ip | ip in PeerIps(peers) ensures Slot(d, ip) < |d| {
      ListedHasParams(peers, ip);
      DedupeSlot(peers, ip);
    }
  }

  lemma {:induction false} ListedHasParams(peers: seq<PeerShape>, ip: string)
    ensures LastParams(peers, ip).Some? <==> exists p :: p in peers && p.ip == ip
    ensures ip != "" ==> (LastParams(peers, ip).Some? <==> ip in PeerIps(peers))
  {
    if peers != [] {
      var init, p := peers[..|peers| - 1], peers[|peers| - 1];
      assert peers == init + [p];
      ListedHasParams(init, ip);
    }
  }

  // ---- the compiled program ----

  /** The class and the handle tc reads in what is printed for the k-th peer. */
  function PeerClass(k: nat): nat {
    if k < 10 then k else k + 6
  }

  function PeerHandle(k: nat): nat {
    if k < 10 then k + 16 else k + 22
  }

  lemma PeerIds(k: nat)
    requires 1 <= k <= MAX_PEERS
    ensures RootClass(ClassText(k)) == PeerClass(k) && Handle(HandleText(10 + k)) == PeerHandle(k)
  {
    HexOfPeer(k);
    ClassTextReads(k);
    HandleTextReads(10 + k);
    RootClassIs(ClassText(k), PeerClass(k));
    HandleIs(HandleText(10 + k), PeerHandle(k));
  }

  lemma HexOfPeer(k: nat)
    requires 1 <= k <= MAX_PEERS
    ensures AsHex(k) == PeerClass(k) && AsHex(10 + k) == PeerHandle(k)
  {
    if k < 10 {
      assert k / 10 == 0 && (10 + k) / 10 == 1;
    } else {
      assert k / 10 == 1 && (10 + k) / 10 == 2;
    }
  }

  lemma RootClassIs(text: string, c: nat)
    requires ReadId(text) == Some(Id(1, c))
    ensures RootClass(text) == c
  {
  }

  lemma HandleIs(text: string, h: nat)
    requires ReadId(text) == Some(Id(h, 0))
    ensures Handle(text) == h
  {
  }

  /** Which of the arguments tc can read. */
  function Legible(args: seq<seq<string>>): (r: seq<bool>)
    ensures |r| == |args| && forall i | 0 <= i < |args| :: r[i] <==> ReadsNetem(args[i])
  {
    seq(|args|, i requires 0 <= i < |args| => ReadsNetem(args[i]))
  }

  /** tc takes the netem of the k-th of n peers: its class exists and its arguments can be read. */
  predicate Taken(n: nat, legible: seq<bool>, k: nat)
    requires 1 <= k <= |legible|
  {
    PeerClass(k) <= n + 1 && legible[k - 1]
  }

  /** The priority map of n bands in front of the default one. */
  function Constant(n: nat): (m: seq<nat>)
    ensures |m| == 16 && forall i | 0 <= i < 16 :: m[i] == n
  {
    seq(16, _ => n)
  }

  /** The state after the commands of the first k peers. */
  function Built(u: seq<PeerShape>, args: seq<seq<string>>, legible: seq<bool>, k: nat): Qdisc
    requires k <= |u| == |args| == |legible|
  {
    Prio(|u| + 1, Constant(|u|), Leaves(|u|, args, legible, k), Filters(u, k))
  }

  function Leaves(n: nat, args: seq<seq<string>>, legible: seq<bool>, k: nat): map<nat, Leaf>
    requires k <= |args| == |legible|
  {
    if k == 0 then map[]
    else if Taken(n, legible, k) then Leaves(n, args, legible, k - 1)[PeerClass(k) := Leaf(PeerHandle(k), args[k - 1])]
    else Leaves(n, args, legible, k - 1)
  }

  function Filters(u: seq<PeerShape>, k: nat): seq<Filter>
    requires k <= |u|
  {
    if k == 0 then []
    else Filters(u, k - 1) + [Filter(Dst, u[k - 1].ip, PeerClass(k))] + [Filter(Src, u[k - 1].ip, PeerClass(k))]
  }

  /** The peer whose number is read as class c, if there is one. */
  function PeerOf(c: nat): nat {
    if c < 16 then c else c - 6
  }

  /** A class has a netem exactly when it is the class some peer's number is read as. */
  lemma {:induction false} LeafAt(n: nat, args: seq<seq<string>>, legible: seq<bool>, k: nat, c: nat)
    requires k <= |args| == |legible|
    ensures var j := PeerOf(c);
            && (c in Leaves(n, args, legible, k) <==> 1 <= j <= k && PeerClass(j) == c && Taken(n, legible, j))
            && (c in Leaves(n, args, legible, k) ==> Leaves(n, args, legible, k)[c] == Leaf(PeerHandle(j), args[j - 1]))
  {
    if k > 0 {
      LeafAt(n, args, legible, k - 1, c);
    }
  }

  lemma PerformSnoc(q: Qdisc, rs: seq<Request>, r: Request)
    ensures PerformAll(q, rs + [r]) == Perform(PerformAll(q, rs), r)
    ensures AllGranted(q, rs + [r]) <==> AllGranted(q, rs) && Grants(PerformAll(q, rs), r)
  {
    assert (rs + [r])[..|rs|] == rs;
  }

  // ---- what tc reads in the script ----

  /** The netem request of the k-th peer. */
  function PeerAttach(args: seq<string>, legible: bool, k: nat): Request {
    if legible then Attach(PeerClass(k), PeerHandle(k), args) else Unread
  }

  function PeerRequests(ip: string, args: seq<string>, legible: bool, k: nat): seq<Request> {
    [PeerAttach(args, legible, k), Steer(Dst, ip, PeerClass(k)), Steer(Src, ip, PeerClass(k))]
  }

  function AllPeerRequests(u: seq<PeerShape>, args: seq<seq<string>>, legible: seq<bool>): (parts: seq<seq<Request>>)
    requires |u| == |args| == |legible|
    ensures |parts| == |u|
    ensures forall i | 0 <= i < |u| :: parts[i] == PeerRequests(u[i].ip, args[i], legible[i], i + 1)
  {
    seq(|u|, i requires 0 <= i < |u| => PeerRequests(u[i].ip, args[i], legible[i], i + 1))
  }

  function RootRequest(n: nat): Request {
    Create(n + 1, Constant(n))
  }

  function PrioRequests(u: seq<PeerShape>, args: seq<seq<string>>, legible: seq<bool>, k: nat): seq<Request>
    requires k <= |u| == |args| == |legible|
  {
    Flat([RootRequest(|u|)], AllPeerRequests(u, args, legible), k)
  }

  lemma UnderstoodPrio(n: nat)
    ensures Understood(RootCommand(n)) == RootRequest(n)
  {
    CountReads(n + 1);
    CountReads(n);
    var m := PrioMap(n);
    assert forall b | b in m :: b == Itoa(n);
    assert seq(|m|, i requires 0 <= i < |m| => Count(m[i])) == Constant(n);
  }

  lemma UnderstoodNetem(args: seq<string>, k: nat)
    requires 0 < k <= MAX_PEERS
    ensures Understood(ReplaceNetem(ClassText(k), HandleText(10 + k), args)) == PeerAttach(args, ReadsNetem(args), k)
  {
    PeerIds(k);
  }

  lemma UnderstoodFilter(dir: Direction, ip: string, k: nat)
    requires 0 < k <= MAX_PEERS
    ensures Understood(AddFilter(dir, ip, ClassText(k))) == Steer(dir, ip, PeerClass(k))
  {
    PeerIds(k);
  }

  lemma RequestsSnoc(tc: Reader, script: seq<Command>, c: Command)
    ensures Requests(tc, script + [c]) == Requests(tc, script) + [tc(c)]
  {
    assert (script + [c])[..|script|] == script;
  }

  lemma {:induction false} RequestsConcat(tc: Reader, a: seq<Command>, b: seq<Command>)
    ensures Requests(tc, a + b) == Requests(tc, a) + Requests(tc, b)
    decreases |b|
  {
    if b == [] {
      assert a + b == a;
    } else {
      var init, last := b[..|b| - 1], b[|b| - 1];
      RequestsConcat(tc, a, init);
      RequestsSnoc(tc, a + init, last);
      RequestsSnoc(tc, init, last);
      assert b == init + [last];
      Associate(a, init, [last]);
      Associate(Requests(tc, a), Requests(tc, init), [tc(last)]);
    }
  }

  lemma Associate<T>(a: seq<T>, b: seq<T>, c: seq<T>)
    ensures a + b + c == a + (b + c)
  {
  }

  lemma RequestsOne(tc: Reader, c: Command)
    ensures Requests(tc, [c]) == [tc(c)]
  {
    RequestsSnoc(tc, [], c);
    assert [] + [c] == [c];
  }

  lemma RequestsCons(tc: Reader, c: Command, script: seq<Command>)
    ensures Requests(tc, [c] + script) == [tc(c)] + Requests(tc, script)
  {
    RequestsConcat(tc, [c], script);
    RequestsOne(tc, c);
  }

  lemma RequestsThree(tc: Reader, c0: Command, c1: Command, c2: Command)
    ensures Requests(tc, [c0, c1, c2]) == [tc(c0), tc(c1), tc(c2)]
  {
    RequestsOne(tc, c0);
    RequestsSnoc(tc, [c0], c1);
    RequestsSnoc(tc, [c0, c1], c2);
    assert [c0] + [c1] == [c0, c1] && [c0, c1] + [c2] == [c0, c1, c2];
  }

  lemma {:induction false} RequestsOfFlat(tc: Reader, start: seq<Command>, parts: seq<seq<Command>>,
                                          first: seq<Request>, asked: seq<seq<Request>>, k: nat)
    requires k <= |parts| == |asked| && Requests(tc, start) == first
    requires forall i | 0 <= i < |parts| :: Requests(tc, parts[i]) == asked[i]
    ensures Requests(tc, Flat(start, parts, k)) == Flat(first, asked, k)
  {
    if k > 0 {
      RequestsOfFlat(tc, start, parts, first, asked, k - 1);
      RequestsConcat(tc, Flat(start, parts, k - 1), parts[k - 1]);
    }
  }

  lemma RequestsOfPeer(ip: string, args: seq<string>, k: nat)
    requires 0 < k <= MAX_PEERS
    ensures Requests(Tc(), PeerCommands(ip, args, k)) == PeerRequests(ip, args, ReadsNetem(args), k)
  {
    UnderstoodNetem(args, k);
    UnderstoodFilter(Dst, ip, k);
    UnderstoodFilter(Src, ip, k);
    RequestsThree(Tc(), ReplaceNetem(ClassText(k), HandleText(10 + k), args),
                  AddFilter(Dst, ip, ClassText(k)), AddFilter(Src, ip, ClassText(k)));
  }

  lemma RequestsOfPrio(u: seq<PeerShape>, args: seq<seq<string>>)
    requires |u| == |args| <= MAX_PEERS
    ensures Requests(Tc(), PrioScript(u, args, |u|)) == PrioRequests(u, args, Legible(args), |u|)
  {
    var parts, asked := AllPeerCommands(u, args), AllPeerRequests(u, args, Legible(args));
    forall i | 0 <= i < |u| ensures Requests(Tc(), parts[i]) == asked[i] {
      RequestsOfPeer(u[i].ip, args[i], i + 1);
    }
    UnderstoodPrio(|u|);
    RequestsOne(Tc(), RootCommand(|u|));
    RequestsOfFlat(Tc(), [RootCommand(|u|)], parts, [RootRequest(|u|)], asked, |u|);
  }

  // ---- what the kernel makes of it ----

  lemma HandleFree(q: Qdisc, n: nat, args: seq<seq<string>>, legible: seq<bool>, k: nat)
    requires q.Prio? && q.bands == n + 1 && 0 < k <= |args| == |legible| && q.leaves == Leaves(n, args, legible, k - 1)
    ensures forall c | c in q.leaves && c != PeerClass(k) :: q.leaves[c].handle != PeerHandle(k)
  {
    forall c | c in q.leaves && c != PeerClass(k) ensures q.leaves[c].handle != PeerHandle(k) {
      LeafAt(n, args, legible, k - 1, c);
    }
  }

  lemma PerformAttach(u: seq<PeerShape>, args: seq<seq<string>>, legible: seq<bool>, k: nat)
    requires 1 <= |u| == |args| == |legible| <= MAX_PEERS && 0 < k <= |u|
    ensures var q, r := Built(u, args, legible, k - 1), PeerAttach(args[k - 1], legible[k - 1], k);
            && (Grants(q, r) <==> Taken(|u|, legible, k))
            && Perform(q, r) == q.(leaves := Leaves(|u|, args, legible, k))
  {
    HandleFree(Built(u, args, legible, k - 1), |u|, args, legible, k);
  }

  /** The requests build the state after k peers, and all are granted exactly when each peer's
      netem is taken. */
  predicate Builds(u: seq<PeerShape>, args: seq<seq<string>>, legible: seq<bool>, k: nat, rs: seq<Request>)
    requires k <= |u| == |args| == |legible|
  {
    && PerformAll(NoRoot, rs) == Built(u, args, legible, k)
    && (AllGranted(NoRoot, rs) <==> forall j | 1 <= j <= k :: Taken(|u|, legible, j))
  }

  lemma RootBuilds(u: seq<PeerShape>, args: seq<seq<string>>, legible: seq<bool>)
    requires 1 <= |u| == |args| == |legible| <= MAX_PEERS
    ensures Builds(u, args, legible, 0, [RootRequest(|u|)])
  {
    PerformSnoc(NoRoot, [], RootRequest(|u|));
    assert [] + [RootRequest(|u|)] == [RootRequest(|u|)];
  }

  lemma PeerBuilds(u: seq<PeerShape>, args: seq<seq<string>>, legible: seq<bool>, k: nat, rs: seq<Request>)
    requires 1 <= |u| == |args| == |legible| <= MAX_PEERS && 0 < k <= |u| && Builds(u, args, legible, k - 1, rs)
    ensures Builds(u, args, legible, k, rs + PeerRequests(u[k - 1].ip, args[k - 1], legible[k - 1], k))
  {
    var ip := u[k - 1].ip;
    var r0, r1, r2 := PeerAttach(args[k - 1], legible[k - 1], k), Steer(Dst, ip, PeerClass(k)), Steer(Src, ip, PeerClass(k));
    PerformSnoc(NoRoot, rs, r0);
    PerformSnoc(NoRoot, rs + [r0], r1);
    PerformSnoc(NoRoot, rs + [r0] + [r1], r2);
    assert rs + [r0] + [r1] + [r2] == rs + [r0, r1, r2];
    PerformAttach(u, args, legible, k);
  }

  lemma {:induction false} PrioBuilds(u: seq<PeerShape>, args: seq<seq<string>>, legible: seq<bool>, k: nat)
    requires 1 <= |u| == |args| == |legible| <= MAX_PEERS && k <= |u|
    ensures Builds(u, args, legible, k, PrioRequests(u, args, legible, k))
  {
    if k == 0 {
      RootBuilds(u, args, legible);
    } else {
      PrioBuilds(u, args, legible, k - 1);
      PeerBuilds(u, args, legible, k, PrioRequests(u, args, legible, k - 1));
    }
  }

  predicate AllTaken(args: seq<seq<string>>) {
    |args| <= CLASSES && forall i | 0 <= i < |args| :: ReadsNetem(args[i])
  }

  lemma ScriptRequests(u: seq<PeerShape>, args: seq<seq<string>>)
    requires |u| == |args| <= MAX_PEERS
    ensures var s := PrioScript(u, args, |u|);
            && Requests(Tc(), s) == PrioRequests(u, args, Legible(args), |u|)
            && Requests(Tc(), [DelRoot] + s) == [Delete] + PrioRequests(u, args, Legible(args), |u|) && ([DelRoot] + s)[1..] == s
  {
    RequestsOfPrio(u, args);
    RequestsCons(Tc(), DelRoot, PrioScript(u, args, |u|));
  }

  lemma AllTakenIff(n: nat, args: seq<seq<string>>)
    requires n == |args| <= MAX_PEERS
    ensures (forall j | 1 <= j <= n :: Taken(n, Legible(args), j)) <==> AllTaken(args)
  {
    if n > CLASSES {
      assert !Taken(n, Legible(args), n);
    } else if forall j | 1 <= j <= n :: Taken(n, Legible(args), j) {
      forall i | 0 <= i < n ensures ReadsNetem(args[i]) {
        assert Taken(n, Legible(args), i + 1);
      }
    }
  }

  lemma {:induction false} PerformCons(q: Qdisc, rs: seq<Request>)
    requires rs != []
    ensures PerformAll(q, rs) == PerformAll(Perform(q, rs[0]), rs[1..])
  {
    var n := |rs| - 1;
    if n > 0 {
      PerformCons(q, rs[..n]);
      assert rs[..n][1..] == rs[1..][..n - 1];
      assert rs[1..][n - 1] == rs[n];
    } else {
      assert rs[..0] == [] && rs[1..] == [];
    }
  }

  lemma RunsToBuilt(q: Qdisc, u: seq<PeerShape>, args: seq<seq<string>>)
    requires 1 <= |u| == |args| <= MAX_PEERS
    ensures Run(q, [DelRoot] + PrioScript(u, args, |u|)) == Built(u, args, Legible(args), |u|)
  {
    var rs := PrioRequests(u, args, Legible(args), |u|);
    ScriptRequests(u, args);
    PerformCons(q, [Delete] + rs);
    assert ([Delete] + rs)[1..] == rs;
    PrioBuilds(u, args, Legible(args), |u|);
  }

  lemma AcceptedIff(u: seq<PeerShape>, args: seq<seq<string>>)
    requires 1 <= |u| == |args| <= MAX_PEERS
    ensures AllAccepted(NoRoot, PrioScript(u, args, |u|)) <==> AllTaken(args)
  {
    ScriptRequests(u, args);
    PrioBuilds(u, args, Legible(args), |u|);
    AllTakenIff(|u|, args);
  }

  lemma RunsToNoRoot(q: Qdisc)
    ensures Run(q, [DelRoot]) == NoRoot && [DelRoot][1..] == []
  {
    RequestsOne(Tc(), DelRoot);
    PerformCons(q, [Delete]);
    assert [Delete][1..] == [];
  }

  /** What the script leaves behind does not depend on what eth0 looked like before. tc refuses
      none of the commands behind the opening delete exactly when there are at most nine peers
      and it can read the arguments of each. */
  lemma ScriptBuilds(q: Qdisc, peers: seq<PeerShape>, dice: Dice)
    ensures var u := Kept(peers);
            Run(q, Script(peers, dice)) == if u == [] then NoRoot else Built(u, Rolled(u, dice), Legible(Rolled(u, dice)), |u|)
    ensures AllAccepted(NoRoot, Script(peers, dice)[1..]) <==> AllTaken(Rolled(Kept(peers), dice))
  {
    var u := Kept(peers);
    if u == [] {
      RunsToNoRoot(q);
    } else {
      var args := Rolled(u, dice);
      RunsToBuilt(q, u, args);
      AcceptedIff(u, args);
      assert ([DelRoot] + PrioScript(u, args, |u|))[1..] == PrioScript(u, args, |u|);
    }
  }

  /** The first kept peer that is the packet's destination or source, |u| for none. */
  function Hit(u: seq<PeerShape>, k: nat, p: Packet): (h: nat)
    requires k <= |u|
    ensures h <= k
    ensures h < k ==> u[h].ip == p.dst || u[h].ip == p.src
    ensures forall i | 0 <= i < h :: u[i].ip != p.dst && u[i].ip != p.src
  {
    if k == 0 then 0 else
      var h := Hit(u, k - 1, p);
      if h < k - 1 then h
      else if u[k - 1].ip == p.dst || u[k - 1].ip == p.src then k - 1 else k
  }

  lemma {:induction false} MatchConcat(fs: seq<Filter>, gs: seq<Filter>, p: Packet)
    ensures FirstMatch(fs + gs, p) == if FirstMatch(fs, p).Some? then FirstMatch(fs, p) else FirstMatch(gs, p)
  {
    if fs == [] {
      assert fs + gs == gs;
    } else {
      assert (fs + gs)[1..] == fs[1..] + gs;
      MatchConcat(fs[1..], gs, p);
    }
  }

  lemma {:induction false} FiltersMatch(u: seq<PeerShape>, k: nat, p: Packet)
    requires k <= |u|
    ensures FirstMatch(Filters(u, k), p) == if Hit(u, k, p) < k then Some(PeerClass(Hit(u, k, p) + 1)) else None
  {
    if k > 0 {
      FiltersMatch(u, k - 1, p);
      var f, g := [Filter(Dst, u[k - 1].ip, PeerClass(k))], [Filter(Src, u[k - 1].ip, PeerClass(k))];
      MatchConcat(Filters(u, k - 1), f, p);
      MatchConcat(Filters(u, k - 1) + f, g, p);
    }
  }

  /** What a packet to or from nobody passes: with fifteen peers the number of the tenth is read as
      the class all these packets are in. */
  function Default(args: seq<seq<string>>, legible: seq<bool>): Option<seq<string>>
    requires |args| == |legible|
  {
    if |args| == 15 && legible[CLASSES] then Some(args[CLASSES]) else None
  }

  /** What a packet passes whose first peer is the h-th, counting from 0. */
  function Gets(args: seq<seq<string>>, legible: seq<bool>, h: nat): Option<seq<string>>
    requires |args| == |legible|
  {
    if h >= |args| || h >= CLASSES then Default(args, legible)
    else if legible[h] then Some(args[h])
    else None
  }

  /** The netem of the class a packet is in, by the first peer it is to or from. */
  lemma LeafOfHit(args: seq<seq<string>>, legible: seq<bool>, h: nat)
    requires 1 <= |args| == |legible| <= MAX_PEERS && h <= |args|
    ensures var n := |args|;
            var m, c := Leaves(n, args, legible, n), if h < n && PeerClass(h + 1) <= n + 1 then PeerClass(h + 1) else n + 1;
            Gets(args, legible, h) == if c in m then Some(m[c].args) else None
  {
    var n := |args|;
    LeafAt(n, args, legible, n, if h < n && PeerClass(h + 1) <= n + 1 then PeerClass(h + 1) else n + 1);
  }

  lemma ClassOfBuilt(u: seq<PeerShape>, args: seq<seq<string>>, legible: seq<bool>, p: Packet)
    requires 1 <= |u| == |args| == |legible| <= MAX_PEERS && p.tos < 16
    ensures var n, h := |u|, Hit(u, |u|, p);
            ClassOf(Built(u, args, legible, n), p) == if h < n && PeerClass(h + 1) <= n + 1 then PeerClass(h + 1) else n + 1
  {
    FiltersMatch(u, |u|, p);
  }

  lemma BuiltMeaning(u: seq<PeerShape>, args: seq<seq<string>>, legible: seq<bool>, p: Packet)
    requires 1 <= |u| == |args| == |legible| <= MAX_PEERS && p.tos < 16
    ensures Classify(Built(u, args, legible, |u|), p) == Gets(args, legible, Hit(u, |u|, p))
  {
    ClassOfBuilt(u, args, legible, p);
    LeafOfHit(args, legible, Hit(u, |u|, p));
  }

  /** The compiled program sends a packet through the netem of the first peer it names, as
      destination or source, if that is one of the first nine and tc could read its arguments. */
  lemma ScriptMeaning(q: Qdisc, peers: seq<PeerShape>, dice: Dice, p: Packet)
    requires p.tos < 16
    ensures var u := Kept(peers);
            Classify(Run(q, Script(peers, dice)), p) == Gets(Rolled(u, dice), Legible(Rolled(u, dice)), Hit(u, |u|, p))
  {
    var u := Kept(peers);
    ScriptBuilds(q, peers, dice);
    if u != [] {
      BuiltMeaning(u, Rolled(u, dice), Legible(Rolled(u, dice)), p);
    }
  }

  lemma KeptSome(peers: seq<PeerShape>)
    requires peers != [] && forall p | p in peers :: p.ip != ""
    ensures Kept(peers) != []
  {
    assert peers[0].ip in PeerIps(peers);
    DedupeDistinct(peers);
  }

  /** The script only deletes exactly when no peer is kept. */
  lemma ScriptDeletesIff(peers: seq<PeerShape>, dice: Dice)
    ensures Script(peers, dice) == [DelRoot] <==> Kept(peers) == []
  {
  }

  /** Some profile was asked for and the packet got one of its renderings, or neither. */
  ghost predicate Delivers(got: Option<seq<string>>, want: Option<Params>) {
    match want
    case None => got.None?
    case Some(p) => got.Some? && Renders(p, got.value)
  }

  /** Every profile has passed the validator. */
  predicate AllValid(peers: seq<PeerShape>) {
    forall p | p in peers :: Valid(p.params)
  }

  /** tc can read the profile listed last for each address. */
  predicate AllPlain(peers: seq<PeerShape>) {
    forall ip | ip in PeerIps(peers) :: LastParams(peers, ip).Some? ==> Plain(LastParams(peers, ip).value)
  }

  lemma {:induction false} LastParamsListed(peers: seq<PeerShape>, ip: string)
    requires AllValid(peers)
    ensures LastParams(peers, ip).Some? ==> Valid(LastParams(peers, ip).value)
  {
    if peers != [] {
      assert peers[|peers| - 1] in peers;
      LastParamsListed(peers[..|peers| - 1], ip);
    }
  }

  lemma KeptIs(peers: seq<PeerShape>, i: nat)
    requires i < |Kept(peers)|
    ensures var x := Kept(peers)[i];
            x.ip in PeerIps(peers) && LastParams(peers, x.ip) == Some(x.params) && Slot(Kept(peers), x.ip) == i
    ensures AllValid(peers) ==> Valid(Kept(peers)[i].params)
  {
    DedupeMeaning(peers);
    var d, u := Dedupe(peers), Kept(peers);
    assert u[i] == d[i] && forall j | 0 <= j < |u| :: u[j] == d[j];
    ListedHasParams(peers, u[i].ip);
    if AllValid(peers) {
      LastParamsListed(peers, u[i].ip);
    }
  }

  /** Whether tc reads a kept peer's arguments depends on its profile, not on the draws. */
  lemma KeptReadsIff(peers: seq<PeerShape>, dice: Dice, i: nat)
    requires AllValid(peers) && i < |Kept(peers)|
    ensures ReadsNetem(Rolled(Kept(peers), dice)[i]) <==> Plain(Kept(peers)[i].params)
  {
    KeptIs(peers, i);
    assert dice[i] in dice;
    ArgsReadIff(Kept(peers)[i].params, dice[i]);
  }

  /** A node that is not its own peer, has at most nine peers, and none whose profile tc cannot
      read. */
  predicate Shapes(peers: seq<PeerShape>, self: string) {
    self !in PeerIps(peers) && |PeerIps(peers)| <= CLASSES && AllPlain(peers)
  }

  /** Then a packet it sends gets the last profile listed for its destination, or none. */
  lemma ShapedExactly(q: Qdisc, peers: seq<PeerShape>, dice: Dice, p: Packet)
    requires AllValid(peers) && Shapes(peers, p.src) && p.tos < 16 && p.src != "" && p.dst != ""
    ensures Delivers(Classify(Run(q, Script(peers, dice)), p), LastParams(peers, p.dst))
  {
    var u := Kept(peers);
    var h := Hit(u, |u|, p);
    KeptAll(peers);
    ScriptMeaning(q, peers, dice, p);
    if h < |u| {
      KeptIs(peers, h);
      KeptReadsIff(peers, dice, h);
    } else {
      ListedHasParams(peers, p.dst);
      assert p.dst in PeerIps(peers) ==> Slot(u, p.dst) < |u|;
    }
  }

  /** What packets of a node get whose first peer is the h-th, counting from 0. */
  function Passes(peers: seq<PeerShape>, dice: Dice, h: nat): Option<seq<string>> {
    Gets(Rolled(Kept(peers), dice), Legible(Rolled(Kept(peers), dice)), h)
  }

  /** A packet to a kept peer, from a node that is not kept itself. */
  lemma ToKept(peers: seq<PeerShape>, self: string, i: nat)
    requires i < |Kept(peers)| && Slot(Kept(peers), self) == |Kept(peers)|
    ensures Hit(Kept(peers), |Kept(peers)|, Packet(self, Kept(peers)[i].ip, 0)) == i
  {
    var u := Kept(peers);
    KeptIs(peers, i);
    assert forall h | 0 <= h < i :: u[h].ip != u[i].ip;
  }

  /** A packet to an address nobody listed. */
  lemma ToStranger(peers: seq<PeerShape>, self: string, stranger: string)
    requires LastParams(peers, stranger).None?
    ensures Hit(Kept(peers), |Kept(peers)|, Packet(self, stranger, 0)) == Slot(Kept(peers), self)
  {
    var u, p := Kept(peers), Packet(self, stranger, 0);
    var h := Hit(u, |u|, p);
    if h < |u| {
      KeptIs(peers, h);
    }
  }

  /** What packet self sends to dst passes after the script has run. */
  function Sent(q: Qdisc, peers: seq<PeerShape>, dice: Dice, self: string, dst: string): Option<seq<string>> {
    Classify(Run(q, Script(peers, dice)), Packet(self, dst, 0))
  }

  lemma SentIs(q: Qdisc, peers: seq<PeerShape>, dice: Dice, self: string, dst: string)
    ensures Sent(q, peers, dice, self, dst) == Passes(peers, dice, Hit(Kept(peers), |Kept(peers)|, Packet(self, dst, 0)))
  {
    ScriptMeaning(q, peers, dice, Packet(self, dst, 0));
  }

  lemma SentToStranger(q: Qdisc, peers: seq<PeerShape>, dice: Dice, self: string, stranger: string)
    requires LastParams(peers, stranger).None?
    ensures Sent(q, peers, dice, self, stranger) == Passes(peers, dice, Slot(Kept(peers), self))
  {
    SentIs(q, peers, dice, self, stranger);
    ToStranger(peers, self, stranger);
  }

  lemma SentToKept(q: Qdisc, peers: seq<PeerShape>, dice: Dice, self: string, i: nat)
    requires i < |Kept(peers)| && Slot(Kept(peers), self) == |Kept(peers)|
    ensures Sent(q, peers, dice, self, Kept(peers)[i].ip) == Passes(peers, dice, i)
  {
    SentIs(q, peers, dice, self, Kept(peers)[i].ip);
    ToKept(peers, self, i);
  }

  lemma SentToSelf(q: Qdisc, peers: seq<PeerShape>, dice: Dice, self: string)
    requires Slot(Kept(peers), self) < |Kept(peers)|
    ensures Sent(q, peers, dice, self, self) == Passes(peers, dice, Slot(Kept(peers), self))
  {
    SentIs(q, peers, dice, self, self);
    assert Hit(Kept(peers), |Kept(peers)|, Packet(self, self, 0)) == Slot(Kept(peers), self);
  }

  /** A node that is kept among its own peers. */
  lemma SelfKeptWrong(q: Qdisc, peers: seq<PeerShape>, dice: Dice, self: string, stranger: string) returns (dst: string)
    requires LastParams(peers, stranger).None? && stranger != "" && Slot(Kept(peers), self) < |Kept(peers)|
    ensures dst == stranger || dst in PeerIps(peers)
    ensures !Delivers(Sent(q, peers, dice, self, dst), LastParams(peers, dst))
  {
    KeptIs(peers, Slot(Kept(peers), self));
    SentToStranger(q, peers, dice, self, stranger);
    SentToSelf(q, peers, dice, self);
    dst := if Passes(peers, dice, Slot(Kept(peers), self)).Some? then stranger else self;
  }

  /** A node with ten or more kept peers: with fifteen of them the tenth's netem can catch all
      traffic, and otherwise the tenth peer is not shaped. */
  lemma TenKeptWrong(q: Qdisc, peers: seq<PeerShape>, dice: Dice, self: string, stranger: string) returns (dst: string)
    requires LastParams(peers, stranger).None? && stranger != ""
    requires |Kept(peers)| > CLASSES && Slot(Kept(peers), self) == |Kept(peers)|
    ensures dst == stranger || dst in PeerIps(peers)
    ensures !Delivers(Sent(q, peers, dice, self, dst), LastParams(peers, dst))
  {
    KeptIs(peers, CLASSES);
    SentToStranger(q, peers, dice, self, stranger);
    SentToKept(q, peers, dice, self, CLASSES);
    dst := if Passes(peers, dice, CLASSES).Some? then stranger else Kept(peers)[CLASSES].ip;
  }

  /** A node with a kept peer, among the first nine, whose profile tc cannot read. */
  lemma UnreadWrong(q: Qdisc, peers: seq<PeerShape>, dice: Dice, self: string, i: nat) returns (dst: string)
    requires AllValid(peers) && i < |Kept(peers)| <= CLASSES && Slot(Kept(peers), self) == |Kept(peers)|
    requires !Plain(Kept(peers)[i].params)
    ensures dst in PeerIps(peers)
    ensures !Delivers(Sent(q, peers, dice, self, dst), LastParams(peers, dst))
  {
    dst := Kept(peers)[i].ip;
    KeptIs(peers, i);
    UnreadPasses(peers, dice, i);
    SentToKept(q, peers, dice, self, i);
  }

  lemma UnreadPasses(peers: seq<PeerShape>, dice: Dice, i: nat)
    requires AllValid(peers) && i < |Kept(peers)| <= CLASSES && !Plain(Kept(peers)[i].params)
    ensures Passes(peers, dice, i).None?
  {
    KeptReadsIff(peers, dice, i);
  }

  lemma KeptAll(peers: seq<PeerShape>)
    ensures |PeerIps(peers)| <= MAX_PEERS ==> Kept(peers) == Dedupe(peers)
    ensures |Kept(peers)| <= CLASSES <==> |PeerIps(peers)| <= CLASSES
    ensures |PeerIps(peers)| <= MAX_PEERS ==> forall ip | ip in PeerIps(peers) :: Slot(Kept(peers), ip) < |Kept(peers)|
  {
    DedupeMeaning(peers);
  }

  /** In every other case some packet the node sends meets the wrong thing, whatever is drawn. */
  lemma ShapedWrongly(q: Qdisc, peers: seq<PeerShape>, dice: Dice, self: string, stranger: string)
    returns (p: Packet)
    requires AllValid(peers) && !Shapes(peers, self)
    requires self != "" && stranger != "" && LastParams(peers, stranger).None?
    ensures p.src == self && p.tos == 0 && p.dst != ""
    ensures p.dst == stranger || p.dst in PeerIps(peers)
    ensures !Delivers(Classify(Run(q, Script(peers, dice)), p), LastParams(peers, p.dst))
  {
    var dst: string;
    KeptAll(peers);
    if Slot(Kept(peers), self) < |Kept(peers)| {
      dst := SelfKeptWrong(q, peers, dice, self, stranger);
    } else if |Kept(peers)| > CLASSES {
      dst := TenKeptWrong(q, peers, dice, self, stranger);
    } else {
      var ip :| ip in PeerIps(peers) && LastParams(peers, ip).Some? && !Plain(LastParams(peers, ip).value);
      KeptIs(peers, Slot(Kept(peers), ip));
      dst := UnreadWrong(q, peers, dice, self, Slot(Kept(peers), ip));
    }
    p := Packet(self, dst, 0);
  }

  // ---- the inputs at which it goes wrong ----

  /** With ten to fourteen peers tc refuses the tenth's netem: there is no class 16. */
  lemma TenthRefused(u: seq<PeerShape>, args: seq<seq<string>>)
    requires 10 <= |u| == |args| <= 14
    ensures !Accepts(Built(u, args, Legible(args), 9), ReplaceNetem("1:10", "20:", args[9]))
  {
    TenText();
    UnderstoodNetem(args[9], 10);
    PerformAttach(u, args, Legible(args), 10);
  }

  lemma TenText()
    ensures ClassText(10) == "1:10" && HandleText(20) == "20:"
  {
    assert Itoa(10) == Itoa(1) + [DigitChar(0)] && Itoa(20) == Itoa(2) + [DigitChar(0)];
    assert Itoa(10) == "10" && Itoa(20) == "20";
  }

  /** With fifteen peers class 16 is the band of all other traffic: a packet to an address that is
      no peer's passes the tenth peer's netem. */
  lemma TenthCatchesAll(q: Qdisc, peers: seq<PeerShape>, dice: Dice, self: string, stranger: string)
    requires AllValid(peers) && |Kept(peers)| == 15 && Plain(Kept(peers)[CLASSES].params)
    requires Slot(Kept(peers), self) == 15 && LastParams(peers, stranger).None?
    ensures Sent(q, peers, dice, self, stranger) == Some(Rolled(Kept(peers), dice)[CLASSES])
  {
    SentToStranger(q, peers, dice, self, stranger);
    KeptReadsIff(peers, dice, CLASSES);
  }
}
