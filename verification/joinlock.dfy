/** Joining a cluster one node at a time: a lock file on the master that every joiner tries to
    create exclusively, again and again, and removes when it has joined. */
module JoinLock {

  /** The master's file system, as far as the lock goes. */
  class Master {
    var locked: bool

    constructor ()
      ensures !locked
    {
      locked := false;
    }

    /** A redirection under noclobber: it creates the file or fails because it exists. */
    method Create() returns (created: bool)
      modifies this
      ensures locked && created == !old(locked)
    {
      created := !locked;
      locked := true;
    }

    /** rm -f */
    method Remove()
      modifies this
      ensures !locked
    {
      locked := false;
    }

    /** The next thing one joiner does. */
    method Turn(phase: Phase) returns (next: Phase)
      modifies this
      ensures Advance(old(locked), phase) == (locked, next)
    {
      next := phase;
      match phase {
        case Preparing =>
          next := Waiting;
        case Waiting =>
          var created := Create();
          if created {
            next := Joining;
          }
        case Joining =>
          Remove();
          next := Done;
        case Done =>
      }
    }
  }

  /** Before the lock, in the retry loop, between creating and removing the file, and behind. */
  datatype Phase = Preparing | Waiting | Joining | Done

  function Advance(locked: bool, phase: Phase): (bool, Phase) {
    match phase
    case Preparing => (locked, Waiting)
    case Waiting => if locked then (true, Waiting) else (true, Joining)
    case Joining => (false, Done)
    case Done => (locked, Done)
  }

  datatype State = State(locked: bool, joiners: seq<Phase>)

  function Step(s: State, j: nat): State
    requires j < |s.joiners|
  {
    var (locked, next) := Advance(s.locked, s.joiners[j]);
    State(locked, s.joiners[j := next])
  }

  predicate InRange(n: nat, schedule: seq<nat>) {
    forall i | 0 <= i < |schedule| :: schedule[i] < n
  }

  /** The joiners scheduled one after the other, in any order whatever. */
  function Run(n: nat, schedule: seq<nat>): (s: State)
    requires InRange(n, schedule)
    ensures |s.joiners| == n
  {
    if schedule == [] then State(false, seq(n, i => Preparing))
    else
      var last := schedule[|schedule| - 1];
      Step(Run(n, schedule[..|schedule| - 1]), last)
  }

  /** How many joiners satisfy p. */
  function Count(p: Phase -> bool, js: seq<Phase>): nat {
    if js == [] then 0 else Count(p, js[..|js| - 1]) + if p(js[|js| - 1]) then 1 else 0
  }

  function IsJoining(): Phase -> bool {
    (phase: Phase) => phase.Joining?
  }

  function IsUnfinished(): Phase -> bool {
    (phase: Phase) => !phase.Done?
  }

  lemma {:induction false} CountUpdate(p: Phase -> bool, js: seq<Phase>, j: nat, next: Phase)
    requires j < |js|
    ensures Count(p, js[j := next]) == Count(p, js) - (if p(js[j]) then 1 else 0) + if p(next) then 1 else 0
    decreases |js|
  {
    var n := |js| - 1;
    if j == n {
      assert js[j := next][..n] == js[..n];
    } else {
      CountUpdate(p, js[..n], j, next);
      assert js[j := next][..n] == js[..n][j := next];
    }
  }

  lemma {:induction false} CountAll(p: Phase -> bool, js: seq<Phase>)
    ensures Count(p, js) == 0 <==> forall phase | phase in js :: !p(phase)
    decreases |js|
  {
    if js != [] {
      CountAll(p, js[..|js| - 1]);
      assert js == js[..|js| - 1] + [js[|js| - 1]];
    }
  }

  lemma {:induction false} TwoCount(p: Phase -> bool, js: seq<Phase>, i: nat, j: nat)
    requires i < j < |js| && p(js[i]) && p(js[j])
    ensures Count(p, js) >= 2
    decreases |js|
  {
    var n := |js| - 1;
    if j < n {
      TwoCount(p, js[..n], i, j);
    } else {
      CountAll(p, js[..n]);
      assert js[..n][i] == js[i];
    }
  }

  /** The lock file exists exactly when one joiner is between creating and removing it, and
      there is never more than one. */
  predicate Exclusive(s: State) {
    Count(IsJoining(), s.joiners) == if s.locked then 1 else 0
  }

  lemma StepKeepsExclusive(s: State, j: nat)
    requires Exclusive(s) && j < |s.joiners|
    ensures Exclusive(Step(s, j))
    ensures s.locked && !Step(s, j).locked ==> s.joiners[j].Joining?
    ensures s.joiners[j].Joining? ==>
              Count(IsUnfinished(), Step(s, j).joiners) == Count(IsUnfinished(), s.joiners) - 1
    ensures !s.joiners[j].Joining? ==> Count(IsUnfinished(), Step(s, j).joiners) == Count(IsUnfinished(), s.joiners)
  {
    var next := Advance(s.locked, s.joiners[j]).1;
    CountUpdate(IsJoining(), s.joiners, j, next);
    CountUpdate(IsUnfinished(), s.joiners, j, next);
  }

  /** Whatever the schedule: at most one joiner is joining at a time, the file exists exactly
      while one is, and once nobody is left to finish the lock is free. */
  lemma {:induction false} RunsAreExclusive(n: nat, schedule: seq<nat>)
    requires InRange(n, schedule)
    ensures var s := Run(n, schedule);
            && Exclusive(s)
            && (forall i, j | 0 <= i < j < n :: !(s.joiners[i].Joining? && s.joiners[j].Joining?))
            && (s.locked <==> exists j | 0 <= j < n :: s.joiners[j].Joining?)
            && ((forall phase | phase in s.joiners :: phase.Done?) ==> !s.locked)
    decreases |schedule|
  {
    var s := Run(n, schedule);
    if schedule == [] {
      CountAll(IsJoining(), s.joiners);
    } else {
      var init, last := schedule[..|schedule| - 1], schedule[|schedule| - 1];
      RunsAreExclusive(n, init);
      StepKeepsExclusive(Run(n, init), last);
    }
    forall i, j | 0 <= i < j < n ensures !(s.joiners[i].Joining? && s.joiners[j].Joining?) {
      if s.joiners[i].Joining? && s.joiners[j].Joining? {
        TwoCount(IsJoining(), s.joiners, i, j);
      }
    }
    CountAll(IsJoining(), s.joiners);
    assert forall j | 0 <= j < n :: s.joiners[j] in s.joiners;
  }

  // ---- everybody gets a turn ----

  function Left(phase: Phase): nat {
    match phase
    case Preparing => 3
    case Waiting => 2
    case Joining => 1
    case Done => 0
  }

  function AllLeft(js: seq<Phase>): nat {
    if js == [] then 0 else AllLeft(js[..|js| - 1]) + Left(js[|js| - 1])
  }

  lemma {:induction false} AllLeftUpdate(js: seq<Phase>, j: nat, next: Phase)
    requires j < |js|
    ensures AllLeft(js[j := next]) == AllLeft(js) - Left(js[j]) + Left(next)
    decreases |js|
  {
    var n := |js| - 1;
    if j == n {
      assert js[j := next][..n] == js[..n];
    } else {
      AllLeftUpdate(js[..n], j, next);
      assert js[j := next][..n] == js[..n][j := next];
    }
  }

  /** The turns of a schedule that are no vain retries. */
  function Effective(n: nat, schedule: seq<nat>): nat
    requires InRange(n, schedule)
  {
    if schedule == [] then 0 else
      var init, last := schedule[..|schedule| - 1], schedule[|schedule| - 1];
      Effective(n, init) + if Step(Run(n, init), last) != Run(n, init) then 1 else 0
  }

  lemma {:induction false} AllLeftAtStart(n: nat)
    ensures AllLeft(seq(n, i => Preparing)) == 3 * n
  {
    if n > 0 {
      AllLeftAtStart(n - 1);
      assert seq(n, i => Preparing)[..n - 1] == seq(n - 1, i => Preparing);
    }
  }

  lemma StepLowers(s: State, j: nat)
    requires j < |s.joiners|
    ensures AllLeft(Step(s, j).joiners) == AllLeft(s.joiners) - if Step(s, j) != s then 1 else 0
  {
    AllLeftUpdate(s.joiners, j, Advance(s.locked, s.joiners[j]).1);
    assert s.joiners[j := s.joiners[j]] == s.joiners;
    assert Step(s, j) != s ==> Step(s, j).joiners[j] != s.joiners[j];
  }

  lemma {:induction false} TurnsAddUp(n: nat, schedule: seq<nat>)
    requires InRange(n, schedule)
    ensures Effective(n, schedule) + AllLeft(Run(n, schedule).joiners) == 3 * n
    decreases |schedule|
  {
    if schedule == [] {
      AllLeftAtStart(n);
    } else {
      var init, last := schedule[..|schedule| - 1], schedule[|schedule| - 1];
      TurnsAddUp(n, init);
      StepLowers(Run(n, init), last);
    }
  }

  /** n joiners need 3n turns in all: every turn that changes anything brings the end nearer by
      one, and as long as somebody is unfinished there is such a turn to take. */
  lemma RunsFinish(n: nat, schedule: seq<nat>)
    requires InRange(n, schedule)
    ensures var s := Run(n, schedule);
            && Effective(n, schedule) + AllLeft(s.joiners) == 3 * n
            && ((exists phase | phase in s.joiners :: !phase.Done?) ==> exists j: nat :: j < n && Step(s, j) != s)
  {
    TurnsAddUp(n, schedule);
    RunsAreExclusive(n, schedule);
    var s := Run(n, schedule);
    if exists phase | phase in s.joiners :: !phase.Done? {
      SomebodyCanMove(s);
    }
  }

  lemma SomebodyCanMove(s: State)
    requires s.locked <==> exists j | 0 <= j < |s.joiners| :: s.joiners[j].Joining?
    requires exists phase | phase in s.joiners :: !phase.Done?
    ensures exists j: nat :: j < |s.joiners| && Step(s, j) != s
  {
    var k: nat :| k < |s.joiners| && !s.joiners[k].Done?;
    var j: nat := k;
    if s.locked {
      j :| j < |s.joiners| && s.joiners[j].Joining?;
    }
    assert Step(s, j).joiners[j] != s.joiners[j];
  }
}
