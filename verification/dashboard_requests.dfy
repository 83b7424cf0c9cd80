/** What the dashboard's requests ask for, read off the requests: which baseline the link requests
    leave for each pair, what a packet meets after them, and how a flap alternates. */
module DashboardRequests {
  import opened Text
  import opened Netem
  import opened ProfileTexts
  import opened Tc
  import opened World
  import opened Lifecycle
  import opened Links
  import opened Dashboard
  import opened DashboardSafety

  // ---- link requests ----

  /** The last request for the pair with this key. */
  function LastNaming(ops: seq<LinkRequest>, key: string): Option<LinkRequest> {
    if ops == [] then None
    else if LinkKey(ops[|ops| - 1].a, ops[|ops| - 1].b) == key then Some(ops[|ops| - 1])
    else LastNaming(ops[..|ops| - 1], key)
  }

  /** The profile an enabled request asks for: total loss for a partition, otherwise its own fields,
      the times tidied and the rest without spaces. */
  predicate Meets(p: Params, r: LinkRequest) {
    if r.partition then p == Params("", "", "100%", "", "", "", "", "")
    else
      && p.delay == NormTime(r.params.delay) && p.jitter == NormTime(r.params.jitter)
      && p.loss == CleanSpaces(r.params.loss) && p.lossCorr == CleanSpaces(r.params.lossCorr)
      && p.corrupt == CleanSpaces(r.params.corrupt) && p.duplicate == CleanSpaces(r.params.duplicate)
      && p.reorder == CleanSpaces(r.params.reorder) && p.rate == CleanSpaces(r.params.rate)
  }

  /** The entry of a pair is what the last request naming it asks for: nothing when that is disabled,
      and what was there before when no request names it. */
  predicate Decided(before: map<string, Link>, ops: seq<LinkRequest>, after: map<string, Link>, key: string) {
    match LastNaming(ops, key)
    case None => (key in after <==> key in before) && (key in before ==> after[key] == before[key])
    case Some(r) =>
      && (key in after <==> r.enabled)
      && (r.enabled ==> after[key].a == r.a && after[key].b == r.b && Meets(after[key].params, r))
  }

  lemma OneRequest(links: map<string, Link>, r: LinkRequest, key: string)
    ensures var after := ApplyLink(links, r);
            if LinkKey(r.a, r.b) == key then
              && (key in after <==> r.enabled)
              && (r.enabled ==> after[key].a == r.a && after[key].b == r.b && Meets(after[key].params, r))
            else (key in after <==> key in links) && (key in links ==> after[key] == links[key])
  {
  }

  lemma {:induction false} RequestsDecide(links: map<string, Link>, ops: seq<LinkRequest>, key: string)
    ensures Decided(links, ops, ApplyLinks(links, ops), key)
    decreases |ops|
  {
    if ops != [] {
      var init := ops[..|ops| - 1];
      RequestsDecide(links, init, key);
      OneRequest(ApplyLinks(links, init), ops[|ops| - 1], key);
    }
  }

  /** After an accepted list of requests the baseline of every pair is what the last request naming
      the pair, in either order, asks for. */
  lemma BaselineAsRequested(s: Server, ops: seq<LinkRequest>, t: Server, x: string, y: string)
    requires Step(s, LinkOps(ops), t)
    ensures Decided(s.links, ops, t.links, LinkKey(x, y)) && LinkKey(x, y) == LinkKey(y, x)
    ensures '|' !in x && '|' !in y ==> NamesPair(LastNaming(ops, LinkKey(x, y)), ops, x, y)
  {
    RequestsDecide(s.links, ops, LinkKey(x, y));
    LinkKeySymmetric(x, y);
    if '|' !in x && '|' !in y {
      NamingNames(ops, x, y, LinkKey(x, y));
    }
  }

  /** last is the last of the requests that names x and y, if any does. */
  predicate NamesPair(last: Option<LinkRequest>, ops: seq<LinkRequest>, x: string, y: string) {
    match last
    case Some(r) => r in ops && SamePair(r.a, r.b, x, y)
    case None => forall r | r in ops :: !SamePair(r.a, r.b, x, y)
  }

  lemma LastSnoc(ops: seq<LinkRequest>, r: LinkRequest, key: string)
    ensures LastNaming(ops + [r], key) == if LinkKey(r.a, r.b) == key then Some(r) else LastNaming(ops, key)
  {
    assert (ops + [r])[..|ops|] == ops;
  }

  lemma NamesPairSnoc(last: Option<LinkRequest>, ops: seq<LinkRequest>, r: LinkRequest, x: string, y: string)
    requires NamesPair(last, ops, x, y)
    ensures NamesPair(if SamePair(r.a, r.b, x, y) then Some(r) else last, ops + [r], x, y)
  {
  }

  lemma {:induction false} NamingNames(ops: seq<LinkRequest>, x: string, y: string, key: string)
    requires '|' !in x && '|' !in y && key == LinkKey(x, y)
    ensures NamesPair(LastNaming(ops, key), ops, x, y)
    decreases |ops|
  {
    if ops != [] {
      var init, r := ops[..|ops| - 1], ops[|ops| - 1];
      assert ops == init + [r];
      NamingNames(init, x, y, key);
      LinkKeyInjective(r.a, r.b, x, y);
      LastSnoc(init, r, key);
      NamesPairSnoc(LastNaming(init, key), init, r, x, y);
    }
  }

  // ---- over whole runs ----

  /** The link requests since the last clear. */
  function Standing(events: seq<Event>): seq<LinkRequest> {
    if events == [] then []
    else
      match events[|events| - 1]
      case LinkOps(ops) => Standing(events[..|events| - 1]) + ops
      case ClearRequest => []
      case DeadMan => []
      case _ => Standing(events[..|events| - 1])
  }

  lemma {:induction false} ApplyMore(links: map<string, Link>, ops: seq<LinkRequest>, more: seq<LinkRequest>)
    ensures ApplyLinks(links, ops + more) == ApplyLinks(ApplyLinks(links, ops), more)
    decreases |more|
  {
    if more == [] {
      assert ops + more == ops;
    } else {
      var init := more[..|more| - 1];
      assert (ops + more)[..|ops + more| - 1] == ops + init;
      ApplyMore(links, ops, init);
    }
  }

  lemma BaselineStep(s: Server, e: Event, t: Server, events: seq<Event>)
    requires Step(s, e, t) && s.links == ApplyLinks(map[], Standing(events))
    ensures t.links == ApplyLinks(map[], Standing(events + [e]))
  {
    assert (events + [e])[..|events|] == events;
    if e.LinkOps? {
      ApplyMore(map[], Standing(events), e.ops);
    } else if !e.ClearRequest? && !e.DeadMan? {
      BaselineKept(s, e, t);
    }
  }

  lemma {:induction false} BaselineFollows(run: seq<Server>, events: seq<Event>, k: nat)
    requires DashboardSafety.IsRun(run, events) && k <= |events|
    ensures run[k].links == ApplyLinks(map[], Standing(events[..k]))
  {
    if k > 0 {
      BaselineFollows(run, events, k - 1);
      RunStep(run, events, k - 1);
      assert events[..k] == events[..k - 1] + [events[k - 1]];
      BaselineStep(run[k - 1], events[k - 1], run[k], events[..k - 1]);
    }
  }

  /** In every state of every run the baseline of a pair is what the last request for it since the
      last clear asks for. */
  lemma BaselineIsLastAsked(run: seq<Server>, events: seq<Event>, k: nat, key: string)
    requires DashboardSafety.IsRun(run, events) && k <= |events|
    ensures Decided(map[], Standing(events[..k]), run[k].links, key)
  {
    BaselineFollows(run, events, k);
    RequestsDecide(map[], Standing(events[..k]), key);
  }

  // ---- down to the packets ----

  /** What the two nodes' packets are to meet. */
  ghost predicate AsRequested(got: Option<seq<string>>, r: LinkRequest) {
    && (!r.enabled ==> got.None?)
    && (r.enabled && r.partition ==> got == Some(["netem", "loss", "100%"]))
    && (r.enabled ==> exists p :: Meets(p, r) && Delivers(got, Some(p)))
  }

  lemma PairAsRequested(s: Server, ops: seq<LinkRequest>, t: Server, x: string, y: string, got: Option<seq<string>>)
    requires Step(s, LinkOps(ops), t) && LastNaming(ops, LinkKey(x, y)).Some?
    requires Delivers(got, PairProfile(t, LinkKey(x, y)))
    requires LinkKey(x, y) in t.flaps ==> !t.flaps[LinkKey(x, y)].phaseDown
    ensures AsRequested(got, LastNaming(ops, LinkKey(x, y)).value)
  {
    var key := LinkKey(x, y);
    var r := LastNaming(ops, key).value;
    BaselineAsRequested(s, ops, t, x, y);
    if r.enabled {
      assert Meets(t.links[key].params, r) && Delivers(got, Some(t.links[key].params));
      if r.partition {
        PartitionRenders(got.value);
      }
    }
  }

  /** After an accepted list of requests, under the conditions that make a rebuild exact, a packet
      between two live nodes whose flap is not down meets what the last request naming the two
      asks for. */
  lemma PacketsAsRequested(s: Server, ops: seq<LinkRequest>, t: Server, order: seq<Link>, n: Node, m: Node, p: Packet)
    requires Inv(s) && Step(s, LinkOps(ops), t) && Enumerates(order, Effective(t.links, t.flaps))
    requires Modest(t.world.nodes, order) && HelpersReach(s.world, order) && NothingLeftOver(s.world, order)
    requires n in t.world.nodes && n.Live() && n.ip != "" && n.container in t.world.eth0
    requires m in t.world.nodes && m.ip != "" && '|' !in n.name && '|' !in m.name
    requires p.src == n.ip && p.dst == m.ip && p.tos < 16
    requires var key := LinkKey(n.name, m.name); LastNaming(ops, key).Some? && (key in t.flaps ==> !t.flaps[key].phaseDown)
    ensures AsRequested(Classify(t.world.eth0[n.container], p), LastNaming(ops, LinkKey(n.name, m.name)).value)
  {
    PacketsAfterRebuild(s, LinkOps(ops), t, order, n, m, p);
    PairAsRequested(s, ops, t, n.name, m.name, Classify(t.world.eth0[n.container], p));
  }

  /** A request for a delay of n milliseconds and nothing else. */
  function DelayRequest(a: string, b: string, n: nat): LinkRequest {
    LinkRequest(a, b, NO_PARAMS.(delay := Itoa(n)), false, true)
  }

  lemma DelayMeets(a: string, b: string, n: nat, p: Params)
    requires Meets(p, DelayRequest(a, b, n))
    ensures p == NO_PARAMS.(delay := Itoa(n) + "ms")
  {
    NumeralScalar(n);
    ScalarTidied(Itoa(n));
  }

  lemma DelayRolls(n: nat, d: Draws)
    requires d.InUnit()
    ensures NetemArgs(NO_PARAMS.(delay := Itoa(n) + "ms"), d) == ["netem", "delay", Itoa(n) + "ms"]
  {
    var s := Itoa(n);
    NumeralScalar(n);
    WithMillis(s);
    ScalarStays(TimeKind, s + "ms", d.delay);
    assert forall u :: IsDraw(u) ==> RollValue("", u) == "" && RollPct("", u) == "";
    DelayWords(s + "ms");
  }

  lemma DelayWords(v: string)
    requires v != ""
    ensures Words(NO_PARAMS.(delay := v), false) == ["netem", "delay", v]
  {
  }

  /** So a request for a delay of n milliseconds reaches the packets as exactly that. */
  lemma DelayReaches(a: string, b: string, n: nat, got: Option<seq<string>>)
    requires AsRequested(got, DelayRequest(a, b, n))
    ensures got == Some(["netem", "delay", Itoa(n) + "ms"])
  {
    var p :| Meets(p, DelayRequest(a, b, n)) && Delivers(got, Some(p));
    DelayMeets(a, b, n, p);
    var d: Draws :| d.InUnit() && got.value == NetemArgs(p, d);
    DelayRolls(n, d);
  }

  // ---- flaps ----

  /** What a flap request stores: its names, its times or 5 and 10 seconds, and no partition yet; any
      flap there was on the pair is told to stop. */
  lemma FlapStored(s: Server, a: string, b: string, down: int, up: int, t: Server)
    requires Inv(s) && Step(s, FlapOn(a, b, down, up), t)
    ensures var key := LinkKey(a, b);
            && key in t.flaps && t.flaps[key].a == a && t.flaps[key].b == b && !t.flaps[key].phaseDown
            && t.flaps[key].downSec == (if down > 0 then down else 5)
            && t.flaps[key].upSec == (if up > 0 then up else 10)
            && t.flaps[key].stop == s.made && PairProfile(t, key) == (if key in s.links then Some(s.links[key].params) else None)
            && (key in s.flaps ==> s.flaps[key].stop in t.closed)
            && forall k | k in s.flaps && k != key :: k in t.flaps && t.flaps[k] == s.flaps[k]
  {
  }

  /** What a flux and a monkey request store: a loop runs exactly when the interval is positive, and
      when the monkey is enabled, every 15 seconds unless told otherwise. */
  lemma LoopsStored(s: Server, interval: int, enabled: bool, kill: bool, t: Server, u: Server)
    requires Step(s, FluxRequest(interval), t) && Step(s, MonkeyRequest(enabled, interval, kill), u)
    ensures t.fluxInterval == interval && (t.fluxStop.Some? <==> interval > 0)
    ensures interval > 0 ==> t.loops == s.loops[s.made := FluxLoop(false)]
    ensures (u.monkey.enabled <==> enabled) && (u.monkey.stop.Some? <==> enabled)
    ensures enabled ==> u.monkey.interval == (if interval > 0 then interval else 15) && u.monkey.kill == kill
    ensures enabled ==> u.loops == s.loops[s.made := MonkeyLoop(kill, None, None)]
    ensures !enabled ==> u.loops == s.loops && !u.monkey.kill && u.monkey.interval == 0
  {
  }

  predicate NextIsDown(turn: Turn) {
    match turn
    case About(down) => down
    case Waiting(next) => next
  }

  /** The flap on key is stored with channel c, and after n turns of its loop it is down exactly when
      n is odd, and goes down next exactly when n is even. */
  predicate Alternates(s: Server, key: string, c: Channel, n: nat) {
    && key in s.flaps && s.flaps[key].stop == c && (s.flaps[key].phaseDown <==> n % 2 == 1)
    && c in s.loops && s.loops[c].FlapLoop? && s.loops[c].key == key && (NextIsDown(s.loops[c].turn) <==> n % 2 == 0)
  }

  predicate IsStored(s: Server, key: string, c: Channel) {
    key in s.flaps && s.flaps[key].stop == c
  }

  lemma RequestStores(s: Server, e: Event, t: Server, key: string, c: Channel)
    requires Step(s, e, t) && (e.FlapOn? || e.FlapOff?) && IsStored(t, key, c)
    ensures c == s.made || IsStored(s, key, c)
  {
  }

  lemma TurnStores(s: Server, d: Channel, t: Server, key: string, c: Channel)
    requires Step(s, FlapTurn(d), t) && IsStored(t, key, c)
    ensures IsStored(s, key, c)
  {
  }

  lemma StoredBefore(s: Server, e: Event, t: Server, key: string, c: Channel)
    requires Step(s, e, t) && IsStored(t, key, c)
    ensures c == s.made || IsStored(s, key, c)
  {
    if e.FlapOn? || e.FlapOff? {
      RequestStores(s, e, t, key, c);
    } else if e.FlapTurn? {
      TurnStores(s, e.c, t, key, c);
    } else if !e.ShutFlaps? {
      FlapsKept(s, e, t);
    }
  }

  lemma MadeGrows(s: Server, e: Event, t: Server)
    requires Step(s, e, t)
    ensures s.made <= t.made
  {
  }

  lemma {:induction false} MadeSince(run: seq<Server>, events: seq<Event>, j: nat, k: nat)
    requires DashboardSafety.IsRun(run, events) && j <= k <= |events|
    ensures run[j].made <= run[k].made
    decreases k
  {
    if j < k {
      MadeSince(run, events, j, k - 1);
      MadeGrows(run[k - 1], events[k - 1], run[k]);
    }
  }

  lemma TurnAlternates(s: Server, c: Channel, t: Server, key: string, n: nat)
    requires Step(s, FlapTurn(c), t) && Alternates(s, key, c, n)
    ensures Alternates(t, key, c, n + 1)
  {
  }

  lemma OtherTurnKeeps(s: Server, d: Channel, t: Server, key: string, c: Channel, n: nat)
    requires ChannelsOpen(s) && Step(s, FlapTurn(d), t) && d != c && Alternates(s, key, c, n)
    ensures Alternates(t, key, c, n)
  {
    if Owns(s, d) {
      assert s.loops[d].key != key;
    }
  }

  lemma TimerKeepsAlternating(s: Server, d: Channel, t: Server, key: string, c: Channel, n: nat)
    requires Step(s, FlapTimer(d), t) && Alternates(s, key, c, n)
    ensures Alternates(t, key, c, n)
  {
  }

  lemma MonkeyKeepsFlaps(s: Server, e: Event, t: Server, c: Channel)
    requires Step(s, e, t) && (e.MonkeyStrike? || e.MonkeyRecover? || e.MonkeyDrop?)
    requires c in s.loops && s.loops[c].FlapLoop?
    ensures t.flaps == s.flaps && c in t.loops && t.loops[c] == s.loops[c]
  {
  }

  lemma OtherLoopKeepsFlaps(s: Server, e: Event, t: Server, c: Channel)
    requires Step(s, e, t) && (e.FluxTimer? || e.FluxRun? || e.Quit? || e.DeadMan?)
    requires c in s.loops && s.loops[c].FlapLoop? && c !in s.closed
    ensures t.flaps == s.flaps && c in t.loops && t.loops[c] == s.loops[c]
  {
  }

  lemma LoopKeepsAlternating(s: Server, e: Event, t: Server, key: string, c: Channel, n: nat)
    requires ChannelsOpen(s) && Step(s, e, t) && !e.FlapTurn? && IsLoopEvent(e) && Alternates(s, key, c, n)
    ensures Alternates(t, key, c, n)
  {
    if e.FlapTimer? {
      TimerKeepsAlternating(s, e.c, t, key, c, n);
    } else if e.MonkeyStrike? || e.MonkeyRecover? || e.MonkeyDrop? {
      MonkeyKeepsFlaps(s, e, t, c);
    } else {
      OtherLoopKeepsFlaps(s, e, t, c);
    }
  }

  lemma FlapRequestKeeps(s: Server, e: Event, t: Server, key: string, c: Channel)
    requires ChannelsOpen(s) && Step(s, e, t) && (e.FlapOn? || e.FlapOff?) && IsStored(s, key, c) && IsStored(t, key, c)
    ensures t.flaps[key] == s.flaps[key] && c in t.loops && t.loops[c] == s.loops[c]
  {
    RequestKeepsOthers(s, e, t, key);
  }

  lemma LoopRequestKeeps(s: Server, e: Event, t: Server, c: Channel)
    requires ChannelsOpen(s) && Step(s, e, t) && (e.FluxRequest? || e.MonkeyRequest?) && c in s.loops
    ensures t.flaps == s.flaps && c in t.loops && t.loops[c] == s.loops[c]
  {
  }

  lemma OtherRequestKeeps(s: Server, e: Event, t: Server)
    requires Step(s, e, t) && (e.LinkOps? || e.NodeRequest? || e.NodeDrop? || e.ClearRequest?)
    ensures t.flaps == s.flaps && t.loops == s.loops
  {
  }

  lemma RequestKeepsAlternating(s: Server, e: Event, t: Server, key: string, c: Channel, n: nat)
    requires ChannelsOpen(s) && Step(s, e, t) && !IsLoopEvent(e) && Alternates(s, key, c, n) && IsStored(t, key, c)
    ensures Alternates(t, key, c, n)
  {
    if e.FlapOn? || e.FlapOff? {
      FlapRequestKeeps(s, e, t, key, c);
    } else if e.FluxRequest? || e.MonkeyRequest? {
      LoopRequestKeeps(s, e, t, c);
    } else if !e.ShutFlaps? {
      OtherRequestKeeps(s, e, t);
    }
  }

  lemma StepAlternates(s: Server, e: Event, t: Server, key: string, c: Channel, n: nat)
    requires ChannelsOpen(s) && Step(s, e, t) && Alternates(s, key, c, n) && IsStored(t, key, c)
    ensures Alternates(t, key, c, n + if e == FlapTurn(c) then 1 else 0)
  {
    if e.FlapTurn? && e.c == c {
      TurnAlternates(s, c, t, key, n);
    } else if e.FlapTurn? {
      OtherTurnKeeps(s, e.c, t, key, c, n);
    } else if IsLoopEvent(e) {
      LoopKeepsAlternating(s, e, t, key, c, n);
    } else {
      RequestKeepsAlternating(s, e, t, key, c, n);
    }
  }

  lemma StartAlternates(s: Server, e: Event, t: Server)
    requires e.FlapOn? && Step(s, e, t)
    ensures Alternates(t, LinkKey(e.a, e.b), s.made, 0)
  {
  }

  /** As long as the flap is stored it has taken n turns. */
  predicate Counts(s: Server, key: string, c: Channel, n: nat) {
    IsStored(s, key, c) ==> Alternates(s, key, c, n)
  }

  lemma NextCounts(s: Server, e: Event, t: Server, key: string, c: Channel, n: nat)
    requires ChannelsOpen(s) && Step(s, e, t) && c < s.made && Counts(s, key, c, n)
    ensures Counts(t, key, c, n + if e == FlapTurn(c) then 1 else 0)
  {
    if IsStored(t, key, c) {
      StoredBefore(s, e, t, key, c);
      StepAlternates(s, e, t, key, c, n);
    }
  }

  /** A property of a state and a count that every step carries on, counting the marked ones. */
  lemma {:induction false} Counted(holds: (nat, nat) -> bool, hits: seq<bool>, from: nat, k: nat)
    requires from <= k <= |hits| && holds(from, 0)
    requires forall i: nat, n: nat | from <= i < |hits| && holds(i, n) :: holds(i + 1, n + HitAt(hits, i))
    ensures holds(k, HitsIn(hits, from, k))
    decreases k
  {
    if k > from {
      Counted(holds, hits, from, k - 1);
      assert holds(k - 1 + 1, HitsIn(hits, from, k - 1) + HitAt(hits, k - 1));
    }
  }

  function HitAt(hits: seq<bool>, i: nat): nat {
    if i < |hits| && hits[i] then 1 else 0
  }

  function HitsIn(hits: seq<bool>, from: nat, k: nat): nat
    requires from <= k
    decreases k
  {
    if k == from then 0 else HitsIn(hits, from, k - 1) + HitAt(hits, k - 1)
  }

  /** How often flap loop c took its turn between two states of a run. */
  function TurnsOf(events: seq<Event>, c: Channel, from: nat, k: nat): nat
    requires from <= k
  {
    HitsIn(seq(|events|, i requires 0 <= i < |events| => events[i] == FlapTurn(c)), from, k)
  }

  lemma StepAt(run: seq<Server>, events: seq<Event>, from: nat, i: nat)
    requires DashboardSafety.IsRun(run, events) && from <= i < |events|
    ensures Step(run[i], events[i], run[i + 1]) && ChannelsOpen(run[i]) && run[from].made <= run[i].made
  {
    MadeSince(run, events, from, i);
    RunsKeepInv(run, events, i);
  }

  /** The count of a state of the run. */
  predicate CountsIn(run: seq<Server>, key: string, c: Channel, i: nat, n: nat) {
    i < |run| && Counts(run[i], key, c, n)
  }

  lemma CountsAt(run: seq<Server>, events: seq<Event>, from: nat, i: nat, key: string, c: Channel, n: nat)
    requires DashboardSafety.IsRun(run, events) && from <= i < |events| && c < run[from].made
    requires CountsIn(run, key, c, i, n)
    ensures CountsIn(run, key, c, i + 1, n + if events[i] == FlapTurn(c) then 1 else 0)
  {
    StepAt(run, events, from, i);
    NextCounts(run[i], events[i], run[i + 1], key, c, n);
  }

  /** Step i carries the count n on. */
  predicate Carries(run: seq<Server>, events: seq<Event>, key: string, c: Channel, i: nat, n: nat)
    requires i < |events|
  {
    CountsIn(run, key, c, i, n) ==> CountsIn(run, key, c, i + 1, n + if events[i] == FlapTurn(c) then 1 else 0)
  }

  ghost predicate AllCarry(run: seq<Server>, events: seq<Event>, from: nat, key: string, c: Channel) {
    forall i: nat, n: nat | from <= i < |events| :: Carries(run, events, key, c, i, n)
  }

  lemma RunCarries(run: seq<Server>, events: seq<Event>, from: nat, key: string, c: Channel)
    requires DashboardSafety.IsRun(run, events) && from <= |events| && c < run[from].made
    ensures AllCarry(run, events, from, key, c)
  {
    forall i: nat, n: nat | from <= i < |events| ensures Carries(run, events, key, c, i, n) {
      if CountsIn(run, key, c, i, n) {
        CountsAt(run, events, from, i, key, c, n);
      }
    }
  }

  lemma CountsOn(run: seq<Server>, events: seq<Event>, from: nat, k: nat, key: string, c: Channel)
    requires from <= k <= |events| && AllCarry(run, events, from, key, c) && CountsIn(run, key, c, from, 0)
    ensures CountsIn(run, key, c, k, TurnsOf(events, c, from, k))
  {
    var hits := seq(|events|, i requires 0 <= i < |events| => events[i] == FlapTurn(c));
    var holds: (nat, nat) -> bool := (i: nat, n: nat) => CountsIn(run, key, c, i, n);
    forall i: nat, n: nat | from <= i < |hits| && holds(i, n) ensures holds(i + 1, n + HitAt(hits, i)) {
      assert Carries(run, events, key, c, i, n);
    }
    Counted(holds, hits, from, k);
  }

  lemma FirstCounts(s: Server, e: Event, t: Server)
    requires e.FlapOn? && Step(s, e, t)
    ensures Counts(t, LinkKey(e.a, e.b), s.made, 0) && s.made < t.made
  {
    StartAlternates(s, e, t);
  }

  lemma FlapBegins(run: seq<Server>, events: seq<Event>, j: nat)
    requires DashboardSafety.IsRun(run, events) && j < |events| && events[j].FlapOn?
    ensures CountsIn(run, LinkKey(events[j].a, events[j].b), run[j].made, j + 1, 0) && run[j].made < run[j + 1].made
  {
    FirstCounts(run[j], events[j], run[j + 1]);
  }

  /** In every run, from the request on and as long as the flap is neither cancelled nor replaced, it
      is down after an odd number of its turns and up after an even one: the first turn partitions
      the pair, the second one heals it, and so on. */
  lemma FlapAlternates(run: seq<Server>, events: seq<Event>, j: nat, k: nat)
    requires DashboardSafety.IsRun(run, events) && j < k <= |events| && events[j].FlapOn?
    ensures CountsIn(run, LinkKey(events[j].a, events[j].b), run[j].made, k, TurnsOf(events, run[j].made, j + 1, k))
  {
    var key, c := LinkKey(events[j].a, events[j].b), run[j].made;
    FlapBegins(run, events, j);
    RunCarries(run, events, j + 1, key, c);
    CountsOn(run, events, j + 1, k, key, c);
  }
}
