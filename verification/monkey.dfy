/** The monkey: a loop that takes a random running node down, holds it for half the interval and
    brings it back. Its select either times out or sees the stop channel closed. */
module Monkey {
  import opened World
  import opened Lifecycle

  datatype Loop = Waiting | Holding(victim: nat) | Gone

  /** Listing the nodes may fail; otherwise pick is the random draw. */
  datatype Event = Timeout(listed: bool, pick: nat) | Stopped

  datatype State = State(nodes: seq<NodeState>, loop: Loop)

  /** How a node is taken down, and what brings it back. */
  datatype Mode = ByPause | ByKill

  function Disrupt(mode: Mode): Action {
    if mode.ByKill? then Kill else Pause
  }

  function Recover(mode: Mode): Action {
    if mode.ByKill? then Start else Unpause
  }

  /** An action's error is ignored. */
  function Act(nodes: seq<NodeState>, i: nat, a: Action): seq<NodeState>
    requires i < |nodes|
  {
    var r := DockerResult(nodes[i], a);
    if r.Some? then nodes[i := r.value] else nodes
  }

  /** The positions of the running nodes, in the order they are listed. */
  function RunningOf(nodes: seq<NodeState>): (r: seq<nat>)
    ensures forall i | 0 <= i < |r| :: r[i] < |nodes| && nodes[r[i]].Running?
  {
    if nodes == [] then [] else
      var n := |nodes| - 1;
      RunningOf(nodes[..n]) + if nodes[n].Running? then [n] else []
  }

  function Step(mode: Mode, s: State, e: Event): State {
    match s.loop
    case Gone => s
    case Waiting =>
      var running := RunningOf(s.nodes);
      if e.Stopped? then s.(loop := Gone)
      else if !e.listed || |running| < 2 then s
      else
        var victim := running[e.pick % |running|];
        State(Act(s.nodes, victim, Disrupt(mode)), Holding(victim))
    case Holding(victim) =>
      var nodes := if victim < |s.nodes| then Act(s.nodes, victim, Recover(mode)) else s.nodes;
      State(nodes, if e.Stopped? then Gone else Waiting)
  }

  function Run(mode: Mode, s: State, events: seq<Event>): State {
    if events == [] then s else Step(mode, Run(mode, s, events[..|events| - 1]), events[|events| - 1])
  }

  method MonkeyLoop(mode: Mode, nodes: array<NodeState>, events: seq<Event>) returns (loop: Loop)
    modifies nodes
    ensures State(nodes[..], loop) == Run(mode, State(old(nodes[..]), Waiting), events)
  {
    loop := Waiting;
    for i := 0 to |events|
      invariant State(nodes[..], loop) == Run(mode, State(old(nodes[..]), Waiting), events[..i])
    {
      assert events[..i + 1][..i] == events[..i];
      var e := events[i];
      match loop {
        case Gone =>
        case Waiting =>
          if e.Stopped? {
            loop := Gone;
          } else {
            var running := RunningOf(nodes[..]);
            if e.listed && |running| >= 2 {
              var victim := running[e.pick % |running|];
              var taken := DockerResult(nodes[victim], Disrupt(mode));
              if taken.Some? {
                nodes[victim] := taken.value;
              }
              loop := Holding(victim);
            }
          }
        case Holding(victim) =>
          if victim < nodes.Length {
            var back := DockerResult(nodes[victim], Recover(mode));
            if back.Some? {
              nodes[victim] := back.value;
            }
          }
          loop := if e.Stopped? then Gone else Waiting;
      }
    }
    assert events[..|events|] == events;
  }

  // ---- every reachable state ----

  function Down(mode: Mode): NodeState {
    if mode.ByKill? then NodeState.Stopped else Paused
  }

  /** Only the victim differs from how the nodes were before, it was running then and is down
      now, and another node is running. Between rounds nothing differs. */
  predicate Undisturbed(mode: Mode, before: seq<NodeState>, s: State) {
    match s.loop
    case Holding(v) =>
      && v < |before| && before[v].Running? && s.nodes == before[v := Down(mode)]
      && exists k | 0 <= k < |before| :: k != v && before[k].Running?
    case _ => s.nodes == before
  }

  lemma {:induction false} RunningDistinct(nodes: seq<NodeState>)
    ensures forall i, j | 0 <= i < j < |RunningOf(nodes)| :: RunningOf(nodes)[i] < RunningOf(nodes)[j]
  {
    if nodes != [] {
      RunningDistinct(nodes[..|nodes| - 1]);
    }
  }

  lemma {:induction false} RunningComplete(nodes: seq<NodeState>, k: nat)
    requires k < |nodes| && nodes[k].Running?
    ensures k in RunningOf(nodes)
  {
    if k < |nodes| - 1 {
      RunningComplete(nodes[..|nodes| - 1], k);
    }
  }

  lemma StepKeepsUndisturbed(mode: Mode, before: seq<NodeState>, s: State, e: Event)
    requires Undisturbed(mode, before, s)
    ensures Undisturbed(mode, before, Step(mode, s, e))
  {
    match s.loop
    case Gone =>
    case Waiting =>
      var running := RunningOf(s.nodes);
      if e.Timeout? && e.listed && |running| >= 2 {
        var i := e.pick % |running|;
        var other := if i == 0 then 1 else 0;
        RunningDistinct(s.nodes);
        assert running[other] in running && running[i] in running && running[other] != running[i];
      }
    case Holding(v) =>
      assert before[v := Down(mode)][v := Running] == before;
  }

  /** In every reachable state of one monkey loop, with no other actor, at most one node is down
      because of it; whenever the loop is between rounds or has ended, its victim is back; and
      if a node was running at the start, one is running now. */
  lemma {:induction false} NeverTheLastNode(mode: Mode, before: seq<NodeState>, events: seq<Event>)
    ensures var s := Run(mode, State(before, Waiting), events);
            && Undisturbed(mode, before, s)
            && (!s.loop.Holding? ==> s.nodes == before)
            && (RunningOf(before) != [] ==> RunningOf(s.nodes) != [])
  {
    var s := Run(mode, State(before, Waiting), events);
    if events != [] {
      NeverTheLastNode(mode, before, events[..|events| - 1]);
      StepKeepsUndisturbed(mode, before, Run(mode, State(before, Waiting), events[..|events| - 1]), events[|events| - 1]);
    }
    if s.loop.Holding? {
      var k :| 0 <= k < |before| && k != s.loop.victim && before[k].Running?;
      RunningComplete(s.nodes, k);
    }
  }

  /** It does disturb: with two running nodes listed, the round takes the drawn one down. */
  lemma RoundTakesVictim(mode: Mode, nodes: seq<NodeState>, pick: nat)
    requires |RunningOf(nodes)| >= 2
    ensures var s := Step(mode, State(nodes, Waiting), Timeout(true, pick));
            s.loop.Holding? && s.nodes == nodes[s.loop.victim := Down(mode)] && s.nodes != nodes
  {
    var running := RunningOf(nodes);
    var i := pick % |running|;
    Disrupted(mode, nodes, running[i]);
  }

  /** How many nodes are running. */
  function HowMany(nodes: seq<NodeState>): nat {
    if nodes == [] then 0
    else HowMany(nodes[..|nodes| - 1]) + if nodes[|nodes| - 1].Running? then 1 else 0
  }

  lemma {:induction false} RunningCounted(nodes: seq<NodeState>)
    ensures |RunningOf(nodes)| == HowMany(nodes)
    decreases |nodes|
  {
    if nodes != [] {
      RunningCounted(nodes[..|nodes| - 1]);
    }
  }

  lemma {:induction false} RunningBefore(nodes: seq<NodeState>, i: nat)
    requires i < |RunningOf(nodes)|
    ensures HowMany(nodes[..RunningOf(nodes)[i]]) == i
    decreases |nodes|
  {
    var init := nodes[..|nodes| - 1];
    if i < |RunningOf(init)| {
      RunningBefore(init, i);
      assert nodes[..RunningOf(nodes)[i]] == init[..RunningOf(init)[i]];
    } else {
      RunningCounted(init);
    }
  }

  /** The victim is the running node with as many running ones listed before it as the draw says,
      modulo their number. It is paused, or stopped by a kill. */
  lemma VictimIsDrawn(mode: Mode, nodes: seq<NodeState>, pick: nat)
    requires HowMany(nodes) >= 2
    ensures var s := Step(mode, State(nodes, Waiting), Timeout(true, pick));
            && s.loop.Holding? && s.loop.victim < |nodes| && nodes[s.loop.victim].Running?
            && HowMany(nodes[..s.loop.victim]) == pick % HowMany(nodes)
            && s.nodes == nodes[s.loop.victim := if mode.ByKill? then NodeState.Stopped else Paused]
  {
    RunningCounted(nodes);
    RunningBefore(nodes, pick % |RunningOf(nodes)|);
    Disrupted(mode, nodes, RunningOf(nodes)[pick % |RunningOf(nodes)|]);
  }

  /** With fewer than two running nodes, or when listing them fails, nothing happens. */
  lemma RoundSkipped(mode: Mode, nodes: seq<NodeState>, listed: bool, pick: nat)
    requires HowMany(nodes) < 2 || !listed
    ensures Step(mode, State(nodes, Waiting), Timeout(listed, pick)) == State(nodes, Waiting)
  {
    RunningCounted(nodes);
  }

  lemma Disrupted(mode: Mode, nodes: seq<NodeState>, victim: nat)
    requires victim < |nodes| && nodes[victim].Running?
    ensures var after := Act(nodes, victim, Disrupt(mode)); after == nodes[victim := Down(mode)] && after != nodes
  {
    assert nodes[victim := Down(mode)][victim] == Down(mode);
  }
}
