/** The dashboard server itself: its fields, and the critical sections of its handlers and
    loops. Each section is one step of the state machine. */
module ChaosServer {
  import opened Text
  import opened Netem
  import opened World
  import opened Lifecycle
  import opened Links
  import opened Dashboard
  import N = Namespace

  class ChaosServer {
    const net: N.Namespace

    var links: map<string, Link>
    var flaps: map<string, Flap>
    var fluxInterval: int
    var fluxStop: Option<Channel>
    var monkey: Monkey

    // the runtime: channels made and closed, the goroutines started, and the node requests that
    // have yet to remove a helper
    var made: nat
    var closed: set<Channel>
    var loops: map<Channel, Loop>
    var drops: multiset<nat>

    function View(): Server
      reads this, net
    {
      Server(links, flaps, fluxInterval, fluxStop, monkey, made, closed, loops, drops, net.View())
    }

    constructor (net: N.Namespace)
      requires Good(net.View())
      ensures this.net == net && fresh(this) && Inv(View())
      ensures View() == Server(map[], map[], 0, None, NO_MONKEY, 0, {}, map[], multiset{}, net.View())
    {
      this.net := net;
      links, flaps, fluxInterval, fluxStop, monkey := map[], map[], 0, None, NO_MONKEY;
      made, closed, loops, drops := 0, {}, map[], multiset{};
    }

    /** close panics on a channel that is closed already. */
    method CloseChannel(c: Channel)
      requires c !in closed
      modifies `closed
      ensures closed == old(closed) + {c}
    {
      closed := closed + {c};
    }

    /** make(chan), and the goroutine that is handed the channel. */
    method Go(l: Loop) returns (stop: Channel)
      modifies `made, `loops
      ensures stop == old(made) && made == old(made) + 1 && loops == old(loops)[stop := l]
    {
      stop := made;
      made := made + 1;
      loops := loops[stop := l];
    }

    /** effectiveLinks: the maps are ranged over in any order. */
    method EffectiveLinks() returns (res: seq<Link>)
      requires KeyedLinks(links) && KeyedFlaps(flaps)
      ensures Enumerates(res, Effective(links, flaps))
    {
      PartitionValid();
      var out := CopyLinks();
      out := OverlayFlaps(out);
      res := ListLinks(out);
    }

    /** The entries of a map already ranged over. */
    static function Seen<T>(m: map<string, T>, todo: set<string>): map<string, T> {
      map k | k in m && k !in todo :: m[k]
    }

    static lemma SeeNext<T>(m: map<string, T>, todo: set<string>, k: string)
      requires k in todo && k in m
      ensures Seen(m, todo - {k}) == Seen(m, todo)[k := m[k]]
    {
    }

    method CopyLinks() returns (out: map<string, Link>)
      ensures out == links
    {
      out := map[];
      var todo := links.Keys;
      while todo != {}
        invariant todo <= links.Keys && out == Seen(links, todo)
        decreases todo
      {
        var k :| k in todo;
        out := out[k := links[k]];
        todo := todo - {k};
      }
    }

    method OverlayFlaps(base: map<string, Link>) returns (out: map<string, Link>)
      requires base == links
      ensures out == Effective(links, flaps)
    {
      out := base;
      var todo := flaps.Keys;
      assert Seen(flaps, todo) == map[];
      while todo != {}
        invariant todo <= flaps.Keys && out == Effective(links, Seen(flaps, todo))
        decreases todo
      {
        var k :| k in todo;
        var f := flaps[k];
        OverlayOne(links, Seen(flaps, todo), k, f);
        SeeNext(flaps, todo, k);
        if f.phaseDown {
          out := out[k := Link(f.a, f.b, PARTITION)];
        } else if k !in links {
          out := out - {k};
        }
        todo := todo - {k};
      }
      assert Seen(flaps, todo) == flaps;
    }

    static lemma OverlayOne(links: map<string, Link>, seen: map<string, Flap>, k: string, f: Flap)
      requires k !in seen
      ensures var out := Effective(links, seen);
              Effective(links, seen[k := f]) == if f.phaseDown then out[k := Link(f.a, f.b, PARTITION)] else out
      ensures k !in links ==> k !in Effective(links, seen)
    {
    }

    method ListLinks(out: map<string, Link>) returns (res: seq<Link>)
      requires KeyedLinks(out)
      ensures Enumerates(res, out)
    {
      res := [];
      var todo := out.Keys;
      while todo != {}
        invariant todo <= out.Keys && Enumerates(res, Seen(out, todo))
        decreases todo
      {
        var k :| k in todo;
        Append(res, out[k]);
        SeeNext(out, todo, k);
        res := res + [out[k]];
        todo := todo - {k};
      }
      assert Seen(out, todo) == out;
    }

    static lemma Append(res: seq<Link>, l: Link)
      requires UniqueKeys(res) && KeyOfLink(l) !in AsMap(res)
      ensures UniqueKeys(res + [l]) && AsMap(res + [l]) == AsMap(res)[KeyOfLink(l) := l]
    {
      assert (res + [l])[..|res|] == res;
      forall i | 0 <= i < |res| ensures KeyOfLink(res[i]) != KeyOfLink(l) {
        EntryOfKey(res, res[i]);
      }
    }

    /** reconcile. */
    method Reconcile(rolls: Rolls)
      requires KeyedLinks(links) && KeyedFlaps(flaps) && WellFormed(net.View())
      modifies net`eth0, net`helpers
      ensures Rebuilt(old(View()), View())
    {
      var order := EffectiveLinks();
      net.Reconcile(order, rolls);
    }

    /** applyLinkLocked. */
    method ApplyLinkLocked(r: LinkRequest)
      modifies `links
      ensures links == ApplyLink(old(links), r)
    {
      var key := LinkKey(r.a, r.b);
      if !r.enabled {
        links := links - {key};
        return;
      }
      links := links[key := Link(r.a, r.b, if r.partition then PARTITION else Normalize(r.params))];
    }

    /** handleLinks, and handleLink for a single request: all are checked before any is applied. */
    method HandleLinks(ops: seq<LinkRequest>, rolls: Rolls) returns (ok: bool)
      requires Inv(View())
      modifies `links, net`eth0, net`helpers
      ensures ok <==> forall r | r in ops :: r.Ok()
      ensures if ok then Step(old(View()), LinkOps(ops), View()) else View() == old(View())
    {
      for i := 0 to |ops|
        invariant forall r | r in ops[..i] :: r.Ok()
      {
        if !ops[i].Ok() {
          return false;
        }
      }
      for i := 0 to |ops|
        invariant links == ApplyLinks(old(links), ops[..i])
        invariant net.View() == old(net.View())
      {
        assert ops[..i + 1][..i] == ops[..i];
        ApplyLinkLocked(ops[i]);
      }
      assert ops[..|ops|] == ops;
      ApplyLinksKeyed(old(links), ops);
      Reconcile(rolls);
      return true;
    }

    /** What both branches of handleFlap start with. */
    method CancelFlapOn(key: string)
      requires Inv(View())
      modifies `flaps, `closed
      ensures View() == CancelFlap(old(View()), key) && KeyedFlaps(flaps)
    {
      CancelKeepsFields(View(), key);
      if key in flaps {
        CloseChannel(flaps[key].stop);
        flaps := flaps - {key};
      }
    }

    /** handleFlap. */
    method HandleFlap(a: string, b: string, down: int, up: int, enabled: bool, rolls: Rolls) returns (ok: bool)
      requires Inv(View())
      modifies `flaps, `made, `closed, `loops, net`eth0, net`helpers
      ensures ok <==> a != "" && b != "" && a != b
      ensures !ok ==> View() == old(View())
      ensures ok ==> Step(old(View()), if enabled then FlapOn(a, b, down, up) else FlapOff(a, b), View())
    {
      if a == "" || b == "" || a == b {
        return false;
      }
      var key := LinkKey(a, b);
      CancelFlapOn(key);
      if !enabled {
        Reconcile(rolls);
        return true;
      }
      var d, u := if down <= 0 then 5 else down, if up <= 0 then 10 else up;
      var stop := Go(FlapLoop(key, About(true)));
      flaps := flaps[key := Flap(a, b, d, u, false, stop)];
      return true;
    }

    /** setPhase, as the flap loop that owns channel stop calls it. */
    method TurnFlap(stop: Channel, rolls: Rolls) returns (stays: bool)
      requires Inv(View())
      requires stop in loops && loops[stop].FlapLoop? && loops[stop].turn.About?
      modifies `flaps, `loops, net`eth0, net`helpers
      ensures Step(old(View()), FlapTurn(stop), View())
      ensures stays <==> stop in loops
    {
      var key, down := loops[stop].key, loops[stop].turn.down;
      if key !in flaps || flaps[key].stop != stop {
        loops := loops - {stop};
        return false;
      }
      PhaseKeepsFields(View(), key, down);
      flaps := flaps[key := flaps[key].(phaseDown := down)];
      loops := loops[stop := FlapLoop(key, Waiting(!down))];
      Reconcile(rolls);
      return true;
    }

    /** setFlux. */
    method ConfigureFlux(interval: int)
      requires Inv(View())
      modifies `fluxInterval, `fluxStop, `made, `closed, `loops
      ensures Step(old(View()), FluxRequest(interval), View())
    {
      if fluxStop.Some? {
        CloseChannel(fluxStop.value);
        fluxStop := None;
      }
      fluxInterval := interval;
      if interval <= 0 {
        return;
      }
      var stop := Go(FluxLoop(false));
      fluxStop := Some(stop);
    }

    /** What the flux loop does under the lock after its ticker fired. */
    method RunFlux(stop: Channel, rolls: Rolls)
      requires Inv(View()) && stop in loops && loops[stop] == FluxLoop(true)
      modifies `loops, net`eth0, net`helpers
      ensures Step(old(View()), FluxRun(stop), View())
    {
      loops := loops[stop := FluxLoop(false)];
      if |links| > 0 {
        Reconcile(rolls);
      }
    }

    /** setMonkey. */
    method ConfigureMonkey(enabled: bool, interval: int, mode: string)
      requires Inv(View())
      modifies `monkey, `made, `closed, `loops
      ensures Step(old(View()), MonkeyRequest(enabled, interval, mode == "kill"), View())
    {
      var kill := mode == "kill";
      StopMonkey();
      if !enabled {
        return;
      }
      var stop := Go(MonkeyLoop(kill, None, None));
      monkey := Monkey(true, kill, if interval <= 0 then 15 else interval, Some(stop));
    }

    /** What setMonkey starts with: the monkey that runs is told to stop. */
    method StopMonkey()
      requires monkey.stop.Some? ==> monkey.stop.value !in closed
      modifies `monkey, `closed
      ensures monkey == NO_MONKEY
      ensures closed == if old(monkey).stop.Some? then old(closed) + {old(monkey).stop.value} else old(closed)
    {
      if monkey.stop.Some? {
        CloseChannel(monkey.stop.value);
      }
      monkey := NO_MONKEY;
    }

    /** The first command of a node request, docker's own. */
    method ActOnNode(i: nat, action: Action, addr: string) returns (accepted: bool)
      requires Inv(View()) && i < |net.nodes| && FreshAddress(net.View(), action, addr)
      modifies `drops, net`nodes, net`eth0, net`stale
      ensures Step(old(View()), NodeRequest(i, action, addr), View())
    {
      HasEth0(i);
      accepted := net.DockerAct(i, action, addr);
      if accepted && DropsHelper(action) {
        drops := drops + multiset{i};
      }
    }

    lemma HasEth0(i: nat)
      requires WellFormed(net.View()) && i < |net.nodes|
      ensures net.nodes[i].container in net.eth0
    {
      assert net.nodes[i] in net.nodes;
    }

    /** The second one: the helper is removed. */
    method DropNodeHelper(i: nat)
      requires Inv(View()) && i in drops && i < |net.nodes|
      modifies `drops, net`helpers, net`stale
      ensures Step(old(View()), NodeDrop(i), View())
    {
      net.RemoveHelper(net.nodes[i].container);
      drops := drops - multiset{i};
    }

    /** The monkey takes node i down, in the loop that was given channel stop. */
    method StrikeNode(stop: Channel, i: nat)
      requires Inv(View()) && IsMonkey(View(), stop) && loops[stop].victim.None? && loops[stop].drop.None?
      requires i < |net.nodes|
      modifies `loops, net`nodes, net`eth0, net`stale
      ensures Step(old(View()), MonkeyStrike(stop, i), View())
    {
      HasEth0(i);
      var kill := loops[stop].kill;
      var accepted := net.DockerAct(i, Disruption(kill), "");
      loops := loops[stop := MonkeyLoop(kill, Some(i), if accepted && kill then Some(i) else None)];
    }

    /** And brings it back. */
    method RecoverNode(stop: Channel, addr: string)
      requires Inv(View()) && IsMonkey(View(), stop) && loops[stop].victim.Some? && loops[stop].drop.None?
      requires loops[stop].victim.value < |net.nodes| && FreshAddress(net.View(), Recovery(loops[stop].kill), addr)
      modifies `loops, net`nodes, net`eth0, net`stale
      ensures Step(old(View()), MonkeyRecover(stop, addr), View())
    {
      var kill, i := loops[stop].kill, loops[stop].victim.value;
      HasEth0(i);
      var accepted := net.DockerAct(i, Recovery(kill), addr);
      loops := loops[stop := MonkeyLoop(kill, None, if accepted && kill then Some(i) else None)];
    }

    /** After a kill and after a start, the monkey too removes the helper. */
    method DropVictimHelper(stop: Channel)
      requires Inv(View()) && DropOf(View(), stop).Some? && DropOf(View(), stop).value < |net.nodes|
      modifies `loops, net`helpers, net`stale
      ensures Step(old(View()), MonkeyDrop(stop), View())
    {
      net.RemoveHelper(net.nodes[loops[stop].drop.value].container);
      loops := loops[stop := loops[stop].(drop := None)];
    }

    /** handleClear; the dead-man's callback and the end of shutdown do the same. */
    method HandleClear()
      requires Inv(View())
      modifies `links, net`eth0, net`helpers, net`stale, net`file
      ensures Step(old(View()), ClearRequest, View()) && Step(old(View()), DeadMan, View())
    {
      links := map[];
      net.ClearAll();
    }

    /** The last section of stopAll: every flap is cancelled. */
    method StopAllFlaps()
      requires Inv(View())
      modifies `flaps, `closed
      ensures Step(old(View()), ShutFlaps, View())
    {
      CloseFlaps();
    }

    method CloseFlaps()
      requires ChannelsOpen(View())
      modifies `flaps, `closed
      ensures flaps == map[] && closed == old(closed) + StopsOf(old(flaps))
    {
      ghost var s := View();
      while flaps.Keys != {}
        invariant Part(flaps, s.flaps)
        invariant closed + StopsOf(flaps) == s.closed + StopsOf(s.flaps) && closed !! StopsOf(flaps)
        decreases |flaps|
      {
        var k :| k in flaps.Keys;
        CloseOne(s, flaps, k, closed, s.closed + StopsOf(s.flaps));
        CloseChannel(flaps[k].stop);
        flaps := flaps - {k};
      }
    }

    static lemma CloseOne(s: Server, rest: map<string, Flap>, k: string, closed: set<Channel>, all: set<Channel>)
      requires ChannelsOpen(s) && Part(rest, s.flaps) && k in rest
      requires closed + StopsOf(rest) == all && closed !! StopsOf(rest)
      ensures rest[k].stop !in closed && Part(rest - {k}, s.flaps) && |rest - {k}| < |rest|
      ensures var next := closed + {rest[k].stop};
              next + StopsOf(rest - {k}) == all && next !! StopsOf(rest - {k})
    {
      StopsWithout(s, rest, k);
      PartWithout(rest, s.flaps, k);
    }

    static predicate Part(rest: map<string, Flap>, flaps: map<string, Flap>) {
      forall k | k in rest :: k in flaps && rest[k] == flaps[k]
    }

    static lemma PartWithout(rest: map<string, Flap>, flaps: map<string, Flap>, k: string)
      requires Part(rest, flaps)
      ensures Part(rest - {k}, flaps)
    {
    }

    static function StopsOf(flaps: map<string, Flap>): set<Channel> {
      set k | k in flaps :: flaps[k].stop
    }

    static lemma StopsWithout(s: Server, rest: map<string, Flap>, k: string)
      requires ChannelsOpen(s) && k in rest && Part(rest, s.flaps)
      ensures StopsOf(rest - {k}) == StopsOf(rest) - {rest[k].stop} && rest[k].stop in StopsOf(rest)
      ensures |rest - {k}| < |rest|
    {
      var less := rest - {k};
      assert less.Keys == rest.Keys - {k};
      forall j | j in rest && j != k ensures rest[j].stop != rest[k].stop {
        assert s.loops[rest[j].stop].key == j && s.loops[rest[k].stop].key == k;
      }
      forall c | c in StopsOf(rest) && c != rest[k].stop ensures c in StopsOf(less) {
        var j :| j in rest && rest[j].stop == c;
        assert j in less && less[j].stop == c;
      }
    }
  }
}
