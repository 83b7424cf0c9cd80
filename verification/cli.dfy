/** The chaos commands of the CLI: each run loads the persisted links, changes them,
    rebuilds all shaping and saves them again. */
module Cli {
  import opened Text
  import opened Netem
  import opened Tc
  import opened World
  import opened Lifecycle
  import opened Links

  /** The namespace, and the state file: absent, or holding a list. */
  datatype State = State(world: World, file: Option<seq<Link>>)

  /** chaosLoadState. */
  function Load(file: Option<seq<Link>>): seq<Link> {
    match file
    case None => []
    case Some(links) => links
  }

  /** chaosSaveState: an empty list removes the file. */
  function Save(links: seq<Link>): (file: Option<seq<Link>>)
    ensures Load(file) == links
    ensures file != Some([])
  {
    if links == [] then None else Some(links)
  }

  /** A link command without parameters gets a default delay. */
  function WithDefault(p: Params): Params {
    if p.Empty() then p.(delay := "100ms", jitter := "20ms") else p
  }

  datatype Command =
    | LinkNodes(a: Node, b: Node, params: Params)
    | Clear
    | DeadMan
    | Act(node: nat, action: Action, addr: string)
    | Refused

  ghost predicate Step(s: State, c: Command, t: State) {
    match c
    case LinkNodes(a, b, params) =>
      var links := Upsert(Load(s.file), Link(a.name, b.name, WithDefault(params)));
      Valid(params) && Reconciled(s.world, links, t.world) && t.file == Save(links)
    case Clear => t == State(ClearAll(s.world), Save([]))
    case DeadMan => t == State(ClearAll(s.world), None)
    case Act(i, a, addr) =>
      i < |s.world.nodes| && FreshAddress(s.world, a, addr) && t == State(NodeAction(s.world, i, a, addr), s.file)
    case Refused => t == s
  }

  /** The links a sequence of commands asks for, as a map from unordered pairs. */
  function Asked(commands: seq<Command>): map<string, Link> {
    if commands == [] then map[] else
      var m := Asked(commands[..|commands| - 1]);
      match commands[|commands| - 1]
      case LinkNodes(a, b, params) => m[LinkKey(a.name, b.name) := Link(a.name, b.name, WithDefault(params))]
      case Clear => map[]
      case DeadMan => map[]
      case Act(_, _, _) => m
      case Refused => m
  }

  ghost predicate IsRun(run: seq<State>, commands: seq<Command>) {
    && |run| == |commands| + 1
    && run[0].file == None && Good(run[0].world) && run[0].world.stale == {}
    && forall k | 0 <= k < |commands| :: Step(run[k], commands[k], run[k + 1])
  }

  /** start is not given to a node that is running and shaped. */
  predicate Careful(s: State, c: Command) {
    c.Act? && c.action.Start? && c.node < |s.world.nodes| && s.world.nodes[c.node].state.Running? ==>
      UnshapedAt(s.world, s.world.nodes[c.node].container)
  }

  predicate IsCareful(run: seq<State>, commands: seq<Command>)
    requires |run| == |commands| + 1
  {
    forall k | 0 <= k < |commands| :: Careful(run[k], commands[k])
  }

  predicate FileOk(s: State) {
    s.file != Some([]) && UniqueKeys(Load(s.file)) && AcceptedLinks(Load(s.file))
  }

  predicate WorldOk(w: World) {
    WellFormed(w) && w.stale == {}
  }

  lemma DefaultValid(p: Params)
    requires Valid(p)
    ensures Valid(WithDefault(p))
  {
    var q := WithDefault(p);
    forall f: Field | q.Get(f) != "" ensures IsValue(KindOf(f), q.Get(f)) {
      if p.Empty() && (f == Delay || f == Jitter) {
        DefaultsAreValues();
      } else {
        assert q.Get(f) == p.Get(f);
      }
    }
  }

  lemma DefaultsAreValues()
    ensures IsValue(TimeKind, "100ms") && IsValue(TimeKind, "20ms")
  {
    MsIsValue("100");
    MsIsValue("20");
    assert "100" + "ms" == "100ms" && "20" + "ms" == "20ms";
  }

  lemma MsIsValue(n: string)
    requires n != "" && AllDigits(n)
    ensures IsValue(TimeKind, n + "ms")
  {
    DigitsAreNumber(n, "ms");
    var v := n + "ms";
    assert v[|n|..] == "ms" && FoldAll("ms") == "ms";
    assert '-' !in v;
    SplitJoin([v], '-');
  }

  lemma ActKeepsWorldOk(w: World, i: nat, a: Action, addr: string)
    requires WorldOk(w) && i < |w.nodes| && FreshAddress(w, a, addr)
    ensures WorldOk(NodeAction(w, i, a, addr))
  {
    DockerKeepsGood(w, i, a, addr);
    DropKeepsWellFormed(DockerStep(w, i, a, addr), w.nodes[i].container);
  }

  lemma StepKeepsOk(s: State, c: Command, t: State)
    requires FileOk(s) && WorldOk(s.world) && Step(s, c, t)
    ensures FileOk(t) && WorldOk(t.world)
    ensures Good(s.world) && Careful(s, c) ==> Good(t.world)
  {
    match c
    case LinkNodes(a, b, params) =>
      var l := Link(a.name, b.name, WithDefault(params));
      DefaultValid(params);
      UpsertEntries(Load(s.file), l);
      ReconcileKeepsGood(s.world, Upsert(Load(s.file), l), t.world);
    case Clear => ClearKeepsGood(s.world);
    case DeadMan => ClearKeepsGood(s.world);
    case Act(i, a, addr) =>
      ActKeepsWorldOk(s.world, i, a, addr);
      if Good(s.world) {
        assert s.world.nodes[i] in s.world.nodes;
        ActionKeepsHelperInvariantIff(s.world, i, a, addr);
      }
    case Refused =>
  }

  /** Over any sequence of commands the file holds at most one entry per pair, all of them
      accepted profiles, and as a map it is what the commands asked for. */
  lemma {:induction false} FileIsWhatWasAsked(run: seq<State>, commands: seq<Command>)
    requires IsRun(run, commands)
    ensures var last := run[|commands|];
            FileOk(last) && WorldOk(last.world) && AsMap(Load(last.file)) == Asked(commands)
  {
    var n := |commands|;
    if n > 0 {
      FileIsWhatWasAsked(run[..n], commands[..n - 1]);
      var s, c, t := run[n - 1], commands[n - 1], run[n];
      assert Step(s, c, t);
      StepKeepsOk(s, c, t);
      if c.LinkNodes? {
        UpsertIsUpdate(Load(s.file), Link(c.a.name, c.b.name, WithDefault(c.params)));
      }
    }
  }

  /** And if start was never given to a running shaped node, a shaped node has a helper. */
  lemma {:induction false} CarefulStaysGood(run: seq<State>, commands: seq<Command>)
    requires IsRun(run, commands) && IsCareful(run, commands)
    ensures Good(run[|commands|].world)
  {
    var n := |commands|;
    if n > 0 {
      CarefulStaysGood(run[..n], commands[..n - 1]);
      FileIsWhatWasAsked(run[..n], commands[..n - 1]);
      assert Step(run[n - 1], commands[n - 1], run[n]);
      StepKeepsOk(run[n - 1], commands[n - 1], run[n]);
    }
  }

  predicate Rebuilding(c: Command) {
    c.LinkNodes? || c.Clear? || c.DeadMan?
  }

  /** After every link, partition, clear or dead-man the file describes the data plane, exactly
      when no live node is linked to itself or to more than nine nodes and tc can read the
      profiles. */
  lemma FileDescribesDataPlane(run: seq<State>, commands: seq<Command>)
    requires IsRun(run, commands) && IsCareful(run, commands) && commands != [] && Rebuilding(commands[|commands| - 1])
    ensures var last := run[|commands|];
            && UniquePairs(Load(last.file))
            && (Exact(last.world, Load(last.file)) <==> Shapeable(last.world.nodes, Load(last.file)))
  {
    var n := |commands|;
    FileIsWhatWasAsked(run, commands);
    BeforeLast(run, commands);
    KeysUniquePairs(Load(run[n].file));
    StepExactIff(run[n - 1], commands[n - 1], run[n]);
  }

  lemma BeforeLast(run: seq<State>, commands: seq<Command>)
    requires IsRun(run, commands) && IsCareful(run, commands) && commands != []
    ensures var n := |commands|;
            WorldOk(run[n - 1].world) && Good(run[n - 1].world) && Step(run[n - 1], commands[n - 1], run[n])
  {
    var n := |commands|;
    FileIsWhatWasAsked(run[..n], commands[..n - 1]);
    CarefulStaysGood(run[..n], commands[..n - 1]);
  }

  lemma StepExactIff(s: State, c: Command, t: State)
    requires WorldOk(s.world) && Good(s.world) && FileOk(t) && Step(s, c, t) && Rebuilding(c)
    ensures Exact(t.world, Load(t.file)) <==> Shapeable(t.world.nodes, Load(t.file))
  {
    if c.LinkNodes? {
      HelpedLeavesNothing(s.world, Load(t.file));
      ReconcileExactIff(s.world, Load(t.file), t.world);
    } else {
      ClearedIsExact(s.world);
    }
  }

  lemma ClearedIsExact(w: World)
    requires WellFormed(w)
    ensures Exact(ClearAll(w), []) && Shapeable(w.nodes, [])
  {
    ClearKeepsGood(w);
    forall n | n in w.nodes && n.Live() && n.ip != "" ensures NodeShapeable(w.nodes, [], n) {
      assert NeighbourIps(w.nodes, [], n) == {};
    }
  }

  // ---- in terms of packets ----

  /** What a packet between two live nodes meets after a link, partition or clear is what
      the commands so far asked for that pair, named in either order. */
  lemma PacketsMeetWhatWasAsked(run: seq<State>, commands: seq<Command>, n: Node, m: Node, p: Packet)
    requires IsRun(run, commands) && IsCareful(run, commands) && commands != [] && Rebuilding(commands[|commands| - 1])
    requires var w := run[|commands|].world;
             && Shapeable(w.nodes, Load(run[|commands|].file))
             && n in w.nodes && n.Live() && n.ip != "" && n.container in w.eth0 && m in w.nodes && m.ip != ""
    requires '|' !in n.name && '|' !in m.name
    requires p.src == n.ip && p.dst == m.ip && p.tos < 16
    ensures var k := LinkKey(n.name, m.name);
            Delivers(Classify(run[|commands|].world.eth0[n.container], p),
                     if k in Asked(commands) then Some(Asked(commands)[k].params) else None)
  {
    var w, links := run[|commands|].world, Load(run[|commands|].file);
    FileDescribesDataPlane(run, commands);
    FileIsWhatWasAsked(run, commands);
    WantedBetween(w, links, n, m);
    ProfileOfKey(links, n.name, m.name);
    assert ExactNode(w, links, n);
  }

  // ---- in terms of the commands ----

  /** The last link command for the pair with this key since the last clear. */
  function LastLink(commands: seq<Command>, key: string): Option<Command> {
    if commands == [] then None
    else
      var init, last := commands[..|commands| - 1], commands[|commands| - 1];
      if last.Clear? || last.DeadMan? then None
      else if last.LinkNodes? && LinkKey(last.a.name, last.b.name) == key then Some(last)
      else LastLink(init, key)
  }

  /** The profile given, or 100ms with a jitter of 20ms when it sets neither delay, loss, corruption,
      duplication, reordering nor rate. */
  predicate GivenOrDefault(q: Params, p: Params) {
    if p.delay == "" && p.loss == "" && p.corrupt == "" && p.duplicate == "" && p.reorder == "" && p.rate == "" then
      q == Params("100ms", "20ms", "", p.lossCorr, "", "", "", "")
    else q == p
  }

  /** Each pair has what the last link command for it asked for, nothing without one. */
  lemma {:induction false} AskedIsLast(commands: seq<Command>, key: string)
    ensures match LastLink(commands, key)
            case None => key !in Asked(commands)
            case Some(c) =>
              && c.LinkNodes? && key in Asked(commands)
              && Asked(commands)[key].a == c.a.name && Asked(commands)[key].b == c.b.name
              && GivenOrDefault(Asked(commands)[key].params, c.params)
    decreases |commands|
  {
    if commands != [] {
      AskedIsLast(commands[..|commands| - 1], key);
    }
  }

  lemma TimeStays(s: string, u: real)
    requires IsValue(TimeKind, s) && '-' !in s && IsDraw(u)
    ensures RollValue(s, u) == s
  {
    var _, _ := ValueShape(TimeKind, s);
    ScalarStays(TimeKind, s, u);
  }

  lemma DefaultRolls(d: Draws)
    requires d.InUnit()
    ensures RollAll(NO_PARAMS.(delay := "100ms", jitter := "20ms"), d) == NO_PARAMS.(delay := "100ms", jitter := "20ms")
  {
    DefaultsAreValues();
    TimeStays("100ms", d.delay);
    TimeStays("20ms", d.jitter);
    assert forall u :: IsDraw(u) ==> RollValue("", u) == "" && RollPct("", u) == "";
  }

  lemma DefaultWords()
    ensures Words(NO_PARAMS.(delay := "100ms", jitter := "20ms"), false) == ["netem", "delay", "100ms", "20ms"]
  {
  }

  /** So after a link command without parameters the packets meet a delay of 100ms with a jitter of
      20ms. */
  lemma BareLinkReaches(q: Params, got: Option<seq<string>>)
    requires GivenOrDefault(q, NO_PARAMS) && Delivers(got, Some(q))
    ensures got == Some(["netem", "delay", "100ms", "20ms"])
  {
    var d: Draws :| d.InUnit() && got.value == NetemArgs(q, d);
    DefaultRolls(d);
    DefaultWords();
  }
}
