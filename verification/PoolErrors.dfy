/** bridge.rs: what a checkout that comes back empty-handed has seen, however many others run beside it. */
module PoolErrors {
  import opened Wrappers
  import opened PoolWalk
  import opened PoolRuns

  // ----- one failed round

  /** At step `p` the checkout takes its round `r` to slot `k`. */
  predicate Picked(states: seq<State>, actions: seq<Action>, p: nat, t: TaskId, r: nat, k: nat) {
    p < |actions| <= |states| && actions[p] == Pick(t) && t in states[p].tasks && states[p].tasks[t] == Between(r)
    && |states[p].slots| > 0 && k == states[p].next % |states[p].slots|
  }

  /** At step `l` it finds the bridge there dead. */
  predicate FoundDead(states: seq<State>, actions: seq<Action>, l: nat, t: TaskId, r: nat, k: nat) {
    l < |actions| <= |states| && actions[l] == Look(t) && t in states[l].tasks && states[l].tasks[t] == Looking(r, k)
    && k < |states[l].slots| && states[l].slots[k] < |states[l].alive| && !states[l].alive[states[l].slots[k]]
  }

  /** At step `e` it passes the slot over for the cooldown, or fails to respawn the bridge. */
  predicate SkippedOrBroke(states: seq<State>, actions: seq<Action>, e: nat, t: TaskId, r: nat, k: nat) {
    e < |actions| <= |states| && t in states[e].tasks
    && ((actions[e] == TestCooldown(t) && states[e].tasks[t] == Cooling(r, k)
         && InCooldown(states[e].failedAt, states[e].now))
        || (actions[e] == SpawnBreaks(t) && states[e].tasks[t] == Spawning(r, k)))
  }

  /** Before state `j`, round `r` came to slot `k` and failed there. */
  ghost predicate RoundFailed(states: seq<State>, actions: seq<Action>, j: nat, t: TaskId, r: nat, k: nat) {
    exists p: nat, l: nat, e: nat :: p < l < e < j && Picked(states, actions, p, t, r, k)
      && FoundDead(states, actions, l, t, r, k) && SkippedOrBroke(states, actions, e, t, r, k)
  }

  /** The checkout has walked all its rounds and is about to report an error. */
  predicate WalkedOut(s: State, t: TaskId) {
    t in s.tasks && s.tasks[t] == Between(2 * |s.slots|)
  }

  // ----- the history of a walk

  function RoundOf(p: Place): nat
    requires !p.Done?
  {
    p.i
  }

  predicate Visiting(s: State, t: TaskId) {
    t in s.tasks && !s.tasks[t].Done? && !s.tasks[t].Between?
  }

  /** What one action of the checkout itself does to its place. */
  lemma OwnStep(s: State, x: Action, t: TaskId)
    requires WellFormed(s) && Enabled(s, x) && Actor(x) == Some(t)
    requires t in Step(s, x).tasks && !Step(s, x).tasks[t].Done?
    ensures x == Begin(t) ==> Step(s, x).tasks[t] == Between(0)
    ensures x != Begin(t) ==> t in s.tasks && !s.tasks[t].Done?
    ensures x != Begin(t) && Step(s, x).tasks[t].Between? ==>
              Visiting(s, t) && Step(s, x).tasks[t].i == s.tasks[t].i + 1
    ensures x != Begin(t) && Step(s, x).tasks[t].Looking? ==>
              x == Pick(t) && s.tasks[t] == Between(Step(s, x).tasks[t].i)
              && |s.slots| > 0 && Step(s, x).tasks[t].k == s.next % |s.slots|
    ensures x != Begin(t) && Visiting(Step(s, x), t) && !Step(s, x).tasks[t].Looking? ==>
              Visiting(s, t) && s.tasks[t].i == Step(s, x).tasks[t].i && s.tasks[t].k == Step(s, x).tasks[t].k
  {
  }

  /** A round leaves the slot it found dead in one of two ways. */
  lemma RoundEnds(s: State, x: Action, t: TaskId)
    requires WellFormed(s) && Enabled(s, x) && Actor(x) == Some(t) && Visiting(s, t)
    requires t in Step(s, x).tasks && Step(s, x).tasks[t].Between?
    ensures (x == TestCooldown(t) && s.tasks[t].Cooling? && InCooldown(s.failedAt, s.now))
            || (x == SpawnBreaks(t) && s.tasks[t].Spawning?)
  {
  }

  /** A look that goes on has seen a dead bridge. */
  lemma LookGoesOn(s: State, x: Action, t: TaskId)
    requires WellFormed(s) && Enabled(s, x) && Actor(x) == Some(t) && Visiting(Step(s, x), t)
    requires t in s.tasks && s.tasks[t].Looking?
    ensures x == Look(t) && s.tasks[t].k < |s.slots| && s.slots[s.tasks[t].k] < |s.alive|
            && !s.alive[s.slots[s.tasks[t].k]]
  {
  }

  /** A checkout at a slot picked it at `p`, and past the look it has found it dead at `l`. */
  predicate CameHere(states: seq<State>, actions: seq<Action>, j: nat, t: TaskId, p: nat, l: nat)
    requires j < |states| && Visiting(states[j], t)
  {
    var place := states[j].tasks[t];
    p < j && Picked(states, actions, p, t, place.i, place.k)
    && (!place.Looking? ==> p < l < j && FoundDead(states, actions, l, t, place.i, place.k))
  }

  lemma ComesHere(states: seq<State>, actions: seq<Action>, j: nat, t: TaskId)
    requires j < |actions| < |states| && WellFormed(states[j]) && Enabled(states[j], actions[j])
    requires states[j + 1] == Step(states[j], actions[j]) && Actor(actions[j]) == Some(t)
    requires Visiting(states[j + 1], t) && states[j + 1].tasks[t].Looking?
    ensures CameHere(states, actions, j + 1, t, j, j)
  {
    OwnStep(states[j], actions[j], t);
    hide Step;
    hide WellFormed;
    hide Enabled;
  }

  lemma GoesOnHere(states: seq<State>, actions: seq<Action>, j: nat, t: TaskId, p: nat, l: nat)
    requires j < |actions| < |states| && WellFormed(states[j]) && Enabled(states[j], actions[j])
    requires states[j + 1] == Step(states[j], actions[j]) && Actor(actions[j]) == Some(t)
    requires Visiting(states[j + 1], t) && !states[j + 1].tasks[t].Looking?
    ensures Visiting(states[j], t)
    ensures CameHere(states, actions, j, t, p, l) ==>
              CameHere(states, actions, j + 1, t, p, if states[j].tasks[t].Looking? then j else l)
  {
    OwnStep(states[j], actions[j], t);
    if states[j].tasks[t].Looking? {
      LookGoesOn(states[j], actions[j], t);
    }
    hide Step;
    hide WellFormed;
    hide Enabled;
  }

  lemma {:induction false} CurrentRound(states: seq<State>, actions: seq<Action>, j: nat, t: TaskId)
      returns (p: nat, l: nat)
    requires IsRun(states, actions) && j < |states| && Visiting(states[j], t)
    ensures CameHere(states, actions, j, t, p, l)
    decreases j
  {
    hide IsRun;
    hide WellFormed;
    hide Enabled;
    hide Step;
    hide Picked;
    hide FoundDead;
    NothingAtStart(states, actions, t, 0);
    RunIs(states, actions, j - 1);
    var s, x := states[j - 1], actions[j - 1];
    if Actor(x) != Some(t) {
      if t !in s.tasks {
        StaysAway(s, x, t);
      }
      OthersStay(s, x, t);
      p, l := CurrentRound(states, actions, j - 1, t);
    } else if states[j].tasks[t].Looking? {
      ComesHere(states, actions, j - 1, t);
      p, l := j - 1, j - 1;
    } else {
      GoesOnHere(states, actions, j - 1, t, 0, 0);
      p, l := CurrentRound(states, actions, j - 1, t);
      GoesOnHere(states, actions, j - 1, t, p, l);
      l := if s.tasks[t].Looking? then j - 1 else l;
    }
  }

  lemma FailedBefore(states: seq<State>, actions: seq<Action>, j: nat, t: TaskId, r: nat, k: nat)
    requires RoundFailed(states, actions, j, t, r, k)
    ensures RoundFailed(states, actions, j + 1, t, r, k)
  {
  }

  predicate HasPast(s: State, t: TaskId, r: nat) {
    t in s.tasks && !s.tasks[t].Done? && r < RoundOf(s.tasks[t])
  }

  /** A round lies behind a checkout because it did so before, or because it has just failed. */
  lemma PastGrows(states: seq<State>, actions: seq<Action>, j: nat, t: TaskId, r: nat) returns (k: nat)
    requires IsRun(states, actions) && j + 1 < |states| && HasPast(states[j + 1], t, r)
    ensures HasPast(states[j], t, r) || RoundFailed(states, actions, j + 1, t, r, k)
  {
    RunIs(states, actions, j);
    var s, x := states[j], actions[j];
    k := 0;
    if Actor(x) == Some(t) {
      OwnRounds(s, x, t);
      if r >= RoundOf(s.tasks[t]) {
        k := s.tasks[t].k;
        RoundFails(states, actions, j, t);
      }
    } else if t in s.tasks {
      OthersStay(s, x, t);
    } else {
      StaysAway(s, x, t);
    }
  }

  /** Every round a checkout has behind it failed at the slot it came to. */
  lemma {:induction false} PastRoundsFailed(states: seq<State>, actions: seq<Action>, j: nat, t: TaskId, r: nat)
      returns (k: nat)
    requires IsRun(states, actions) && j < |states| && HasPast(states[j], t, r)
    ensures RoundFailed(states, actions, j, t, r, k)
    decreases j
  {
    hide *;
    NothingAtStart(states, actions, t, r);
    k := PastGrows(states, actions, j - 1, t, r);
    if HasPast(states[j - 1], t, r) {
      k := PastRoundsFailed(states, actions, j - 1, t, r);
      FailedBefore(states, actions, j - 1, t, r, k);
    }
  }

  lemma NothingAtStart(states: seq<State>, actions: seq<Action>, t: TaskId, r: nat)
    requires IsRun(states, actions)
    ensures !Visiting(states[0], t) && !HasPast(states[0], t, r) && |states| == |actions| + 1
  {
  }

  lemma OwnRounds(s: State, x: Action, t: TaskId)
    requires WellFormed(s) && Enabled(s, x) && Actor(x) == Some(t)
    requires t in Step(s, x).tasks && !Step(s, x).tasks[t].Done?
    requires RoundOf(Step(s, x).tasks[t]) > 0
    ensures t in s.tasks && !s.tasks[t].Done?
    ensures RoundOf(Step(s, x).tasks[t]) != RoundOf(s.tasks[t]) ==>
              Visiting(s, t) && Step(s, x).tasks[t].Between? && RoundOf(Step(s, x).tasks[t]) == RoundOf(s.tasks[t]) + 1
  {
  }

  /** The step that ends a round completes its record. */
  lemma RoundFails(states: seq<State>, actions: seq<Action>, j: nat, t: TaskId)
    requires IsRun(states, actions) && j < |actions| && Actor(actions[j]) == Some(t) && Visiting(states[j], t)
    requires t in states[j + 1].tasks && states[j + 1].tasks[t].Between?
    ensures RoundFailed(states, actions, j + 1, t, states[j].tasks[t].i, states[j].tasks[t].k)
  {
    RoundEnds(states[j], actions[j], t);
    var p, l := CurrentRound(states, actions, j, t);
    RunIs(states, actions, j);
    hide IsRun;
    hide Picked;
    hide FoundDead;
    assert SkippedOrBroke(states, actions, j, t, states[j].tasks[t].i, states[j].tasks[t].k);
  }

  /** However checkouts overlap, a checkout that reports an error came to a slot in each of its 2n rounds, found the
      bridge there dead, and passed it over for the cooldown or failed to respawn it. */
  lemma ErrorMeansEveryPickFailed(states: seq<State>, actions: seq<Action>, j: nat, t: TaskId, r: nat) returns (k: nat)
    requires IsRun(states, actions) && j < |states| && WalkedOut(states[j], t) && r < 2 * |states[j].slots|
    ensures RoundFailed(states, actions, j, t, r, k)
  {
    k := PastRoundsFailed(states, actions, j, t, r);
  }

  // ----- one pick a round

  /** The checkout has its pick of round `r` behind it. */
  predicate PastPick(s: State, t: TaskId, r: nat) {
    t in s.tasks && (s.tasks[t].Done? || s.tasks[t].i > r || (s.tasks[t].i == r && !s.tasks[t].Between?))
  }

  lemma StepKeepsPast(s: State, x: Action, t: TaskId, r: nat)
    requires WellFormed(s) && Enabled(s, x) && PastPick(s, t, r)
    ensures PastPick(Step(s, x), t, r)
  {
  }

  lemma PickPasses(states: seq<State>, actions: seq<Action>, p: nat, t: TaskId, r: nat, k: nat)
    requires IsRun(states, actions) && Picked(states, actions, p, t, r, k) && r < 2 * |states[p].slots|
    ensures p + 1 < |states| && PastPick(states[p + 1], t, r)
  {
  }

  lemma {:induction false} PastStays(states: seq<State>, actions: seq<Action>, i: nat, j: nat, t: TaskId, r: nat)
    requires IsRun(states, actions) && i <= j < |states| && PastPick(states[i], t, r)
    ensures PastPick(states[j], t, r)
    decreases j
  {
    hide *;
    if i < j {
      RunLength(states, actions);
      RunIs(states, actions, j - 1);
      PastStays(states, actions, i, j - 1, t, r);
      StepKeepsPast(states[j - 1], actions[j - 1], t, r);
    }
  }

  lemma PickedIsNotPast(states: seq<State>, actions: seq<Action>, p: nat, t: TaskId, r: nat, k: nat)
    requires Picked(states, actions, p, t, r, k)
    ensures p < |actions| <= |states| && !PastPick(states[p], t, r)
  {
  }

  /** A round picks at one step only. */
  lemma OnePickARound(states: seq<State>, actions: seq<Action>, p: nat, k: nat, q: nat, m: nat, t: TaskId, r: nat)
    requires IsRun(states, actions) && Picked(states, actions, p, t, r, k) && Picked(states, actions, q, t, r, m)
    requires p < |states| && r < 2 * |states[p].slots|
    ensures p >= q
  {
    hide *;
    if p < q {
      PickedIsNotPast(states, actions, q, t, r, m);
      PickPasses(states, actions, p, t, r, k);
      PastStays(states, actions, p + 1, q, t, r);
    }
  }

  lemma SamePick(states: seq<State>, actions: seq<Action>, p: nat, k: nat, m: nat, t: TaskId, r: nat)
    requires Picked(states, actions, p, t, r, k) && Picked(states, actions, p, t, r, m)
    ensures k == m
  {
  }

  // ----- turns of the counter

  /** The step moves the counter: some checkout takes a turn. */
  predicate TakesTurn(s: State, x: Action) {
    x.Pick? && x.t in s.tasks && s.tasks[x.t].Between? && s.tasks[x.t].i < 2 * |s.slots|
  }

  /** The turn taken at step `m` is one of slot `k`. */
  predicate TakesSlot(states: seq<State>, actions: seq<Action>, m: nat, k: nat) {
    m < |actions| <= |states| && TakesTurn(states[m], actions[m])
    && |states[m].slots| > 0 && states[m].next % |states[m].slots| == k
  }

  /** The turns taken from step `a` up to state `m`. */
  function Turns(states: seq<State>, actions: seq<Action>, a: nat, m: nat): nat
    requires a <= m <= |actions| <= |states|
  {
    if a == m then 0
    else Turns(states, actions, a, m - 1) + (if TakesTurn(states[m - 1], actions[m - 1]) then 1 else 0)
  }

  function Advanced(start: nat, n: nat): nat {
    (start + n) % WRAP
  }

  lemma AdvanceOnce(start: nat, n: nat)
    ensures (Advanced(start, n) + 1) % WRAP == Advanced(start, n + 1)
  {
    AddOneMod(start + n, Advanced(start, n));
  }

  lemma StepAdvances(s: State, x: Action)
    requires WellFormed(s) && Enabled(s, x)
    ensures |Step(s, x).slots| == |s.slots| > 0
    ensures Step(s, x).next == if TakesTurn(s, x) then (s.next + 1) % WRAP else s.next
  {
  }

  lemma AdvanceNone(start: nat)
    requires start < WRAP
    ensures Advanced(start, 0) == start
  {
  }

  /** Every turn moves the counter on by one. */
  lemma {:induction false} CounterAfter(states: seq<State>, actions: seq<Action>, a: nat, m: nat)
    requires IsRun(states, actions) && a <= m <= |actions| < |states| && states[a].next < WRAP
    ensures |states[m].slots| == |states[a].slots|
    ensures states[m].next == Advanced(states[a].next, Turns(states, actions, a, m))
    decreases m
  {
    hide IsRun;
    hide Step;
    hide Enabled;
    hide WellFormed;
    hide TakesTurn;
    hide Advanced;
    if a == m {
      AdvanceNone(states[a].next);
    } else {
      RunIs(states, actions, m - 1);
      CounterAfter(states, actions, a, m - 1);
      StepAdvances(states[m - 1], actions[m - 1]);
      AdvanceOnce(states[a].next, Turns(states, actions, a, m - 1));
    }
  }

  lemma StepInRange(s: State, x: Action)
    requires WellFormed(s) && Enabled(s, x) && s.next < WRAP
    ensures Step(s, x).next < WRAP
  {
  }

  lemma StartInRange(states: seq<State>, actions: seq<Action>)
    requires IsRun(states, actions)
    ensures states[0].next < WRAP
  {
  }

  lemma {:induction false} CounterInRange(states: seq<State>, actions: seq<Action>, i: nat)
    requires IsRun(states, actions) && i < |states|
    ensures states[i].next < WRAP
    decreases i
  {
    hide *;
    if i == 0 {
      StartInRange(states, actions);
    } else {
      RunLength(states, actions);
      RunIs(states, actions, i - 1);
      CounterInRange(states, actions, i - 1);
      StepInRange(states[i - 1], actions[i - 1]);
    }
  }

  /** Among some turns each number is one turn's. */
  lemma {:induction false} SomeTurn(states: seq<State>, actions: seq<Action>, a: nat, m: nat, v: nat) returns (p: nat)
    requires a <= m <= |actions| <= |states| && v < Turns(states, actions, a, m)
    ensures a <= p < m && TakesTurn(states[p], actions[p]) && Turns(states, actions, a, p) == v
    decreases m
  {
    hide TakesTurn;
    p := m - 1;
    if v < Turns(states, actions, a, m - 1) {
      p := SomeTurn(states, actions, a, m - 1, v);
    }
  }

  /** The turns a checkout at this place has taken. */
  function OwnTurns(p: Place): nat
    requires !p.Done?
  {
    p.i + if p.Between? then 0 else 1
  }

  predicate Took(s: State, t: TaskId, turns: nat) {
    t in s.tasks && (!s.tasks[t].Done? ==> OwnTurns(s.tasks[t]) <= turns)
  }

  lemma StepTook(s: State, x: Action, t: TaskId, turns: nat)
    requires WellFormed(s) && Enabled(s, x) && Took(s, t, turns)
    ensures Took(Step(s, x), t, turns + if TakesTurn(s, x) then 1 else 0)
  {
  }

  lemma BeginTook(s: State, t: TaskId)
    requires WellFormed(s) && Enabled(s, Begin(t))
    ensures t !in s.tasks && Took(Step(s, Begin(t)), t, 0) && !TakesTurn(s, Begin(t))
  {
  }

  /** A checkout's own turns are among those taken since it began. */
  lemma {:induction false} TookItsTurns(states: seq<State>, actions: seq<Action>, b: nat, m: nat, t: TaskId)
    requires IsRun(states, actions) && b < m <= |actions| < |states| && actions[b] == Begin(t)
    ensures Took(states[m], t, Turns(states, actions, b, m))
    decreases m
  {
    hide IsRun;
    hide Step;
    hide Enabled;
    hide WellFormed;
    hide TakesTurn;
    hide Took;
    RunIs(states, actions, m - 1);
    if m == b + 1 {
      BeginTook(states[b], t);
    } else {
      TookItsTurns(states, actions, b, m - 1, t);
      StepTook(states[m - 1], actions[m - 1], t, Turns(states, actions, b, m - 1));
    }
  }

  lemma WalkedOutTook(s: State, t: TaskId, turns: nat)
    requires WalkedOut(s, t) && Took(s, t, turns)
    ensures turns >= 2 * |s.slots|
  {
  }

  lemma TurnOfSlot(start: nat, i: nat, n: nat)
    requires n > 0
    ensures Advanced(start, i) % n == SlotAt(start, i, n)
  {
  }

  // ----- which slots a walk misses

  predicate Walk(states: seq<State>, actions: seq<Action>, b: nat, j: nat, t: TaskId) {
    b < j < |states| && j <= |actions| && actions[b] == Begin(t) && WalkedOut(states[j], t)
    && 0 < |states[j].slots| <= MAX_SLOTS
  }

  /** In one of its rounds the checkout came to slot `k` and failed there. */
  ghost predicate Visited(states: seq<State>, actions: seq<Action>, j: nat, t: TaskId, k: nat)
    requires j < |states|
  {
    exists r: nat :: r < 2 * |states[j].slots| && RoundFailed(states, actions, j, t, r, k)
  }

  /** Every slot comes up during a walk. */
  lemma SlotComesUp(states: seq<State>, actions: seq<Action>, b: nat, j: nat, t: TaskId, k: nat) returns (m: nat)
    requires IsRun(states, actions) && Walk(states, actions, b, j, t) && k < |states[j].slots|
    ensures b < m < j && TakesSlot(states, actions, m, k)
  {
    RunLength(states, actions);
    hide IsRun;
    hide Step;
    hide Enabled;
    hide WellFormed;
    hide Advanced;
    hide SlotAt;
    hide Turns;
    CounterInRange(states, actions, b);
    CounterAfter(states, actions, b, j);
    TookItsTurns(states, actions, b, j, t);
    WalkedOutTook(states[j], t, Turns(states, actions, b, j));
    var start, n := states[b].next, |states[j].slots|;
    EverySlotComesUp(start, n, k);
    var i: nat :| i < 2 * n && SlotAt(start, i, n) == k;
    m := SomeTurn(states, actions, b, j, i);
    CounterAfter(states, actions, b, m);
    TurnOfSlot(start, i, n);
  }

  /** A turn of its own is one of the checkout's picks. */
  lemma OwnTurnIsPicked(states: seq<State>, actions: seq<Action>, m: nat, t: TaskId, k: nat) returns (r: nat)
    requires TakesSlot(states, actions, m, k) && actions[m] == Pick(t)
    ensures Picked(states, actions, m, t, r, k) && r < 2 * |states[m].slots|
  {
    r := states[m].tasks[t].i;
  }

  lemma PickedIsTurn(states: seq<State>, actions: seq<Action>, p: nat, t: TaskId, r: nat, k: nat)
    requires Picked(states, actions, p, t, r, k) && r < 2 * |states[p].slots|
    ensures TakesSlot(states, actions, p, k) && actions[p] == Pick(t) && t in states[p].tasks
  {
  }

  lemma RoundWasPicked(states: seq<State>, actions: seq<Action>, j: nat, t: TaskId, r: nat, k: nat) returns (p: nat)
    requires RoundFailed(states, actions, j, t, r, k)
    ensures p < j && p < |actions| <= |states| && Picked(states, actions, p, t, r, k)
  {
    p :| p < j && Picked(states, actions, p, t, r, k);
    PickedIsNotPast(states, actions, p, t, r, k);
  }

  lemma StepKeepsTask(s: State, x: Action, t: TaskId)
    requires WellFormed(s) && Enabled(s, x) && t in s.tasks
    ensures t in Step(s, x).tasks
  {
  }

  lemma {:induction false} TasksStay(states: seq<State>, actions: seq<Action>, p: nat, b: nat, t: TaskId)
    requires IsRun(states, actions) && p <= b < |states| && t in states[p].tasks
    ensures t in states[b].tasks
    decreases b
  {
    hide *;
    if p < b {
      RunLength(states, actions);
      RunIs(states, actions, b - 1);
      TasksStay(states, actions, p, b - 1, t);
      StepKeepsTask(states[b - 1], actions[b - 1], t);
    }
  }

  lemma SlotsAreFixed(states: seq<State>, actions: seq<Action>, a: nat, m: nat)
    requires IsRun(states, actions) && a <= m < |states|
    ensures |states[m].slots| == |states[a].slots|
  {
    RunLength(states, actions);
    CounterInRange(states, actions, a);
    CounterAfter(states, actions, a, m);
  }

  /** What a checkout picked before it reported an error failed. */
  lemma PickedFailed(states: seq<State>, actions: seq<Action>, p: nat, j: nat, t: TaskId, r: nat, k: nat)
    requires IsRun(states, actions) && p < j < |states| && WalkedOut(states[j], t)
    requires Picked(states, actions, p, t, r, k) && r < 2 * |states[j].slots|
    ensures RoundFailed(states, actions, j, t, r, k)
  {
    hide *;
    var k' := ErrorMeansEveryPickFailed(states, actions, j, t, r);
    var q := RoundWasPicked(states, actions, j, t, r, k');
    SlotsAreFixed(states, actions, p, j);
    SlotsAreFixed(states, actions, q, j);
    OnePickARound(states, actions, p, k, q, k', t, r);
    OnePickARound(states, actions, q, k', p, k, t, r);
    SamePick(states, actions, p, k, k', t, r);
  }

  /** A slot fails in some round exactly when the checkout took a turn of it. */
  lemma VisitedExactly(states: seq<State>, actions: seq<Action>, b: nat, j: nat, t: TaskId, k: nat)
    requires IsRun(states, actions) && Walk(states, actions, b, j, t)
    ensures Visited(states, actions, j, t, k)
            <==> exists m: nat :: b < m < j && TakesSlot(states, actions, m, k) && actions[m] == Pick(t)
  {
    RunLength(states, actions);
    hide IsRun;
    hide RoundFailed;
    hide Picked;
    hide TakesSlot;
    if Visited(states, actions, j, t, k) {
      var r: nat :| r < 2 * |states[j].slots| && RoundFailed(states, actions, j, t, r, k);
      var p := RoundWasPicked(states, actions, j, t, r, k);
      SlotsAreFixed(states, actions, p, j);
      PickedIsTurn(states, actions, p, t, r, k);
      RunIs(states, actions, b);
      BeginTook(states[b], t);
      if p <= b {
        TasksStay(states, actions, p, b, t);
      }
    }
    if m: nat :| b < m < j && TakesSlot(states, actions, m, k) && actions[m] == Pick(t) {
      var r := OwnTurnIsPicked(states, actions, m, t, k);
      SlotsAreFixed(states, actions, m, j);
      PickedFailed(states, actions, m, j, t, r, k);
    }
  }

  /** Before a checkout reports an error every slot comes up at least once; it misses a slot exactly when others took
      every turn of it. */
  lemma SlotIsMissedExactly(states: seq<State>, actions: seq<Action>, b: nat, j: nat, t: TaskId, k: nat)
    requires IsRun(states, actions) && Walk(states, actions, b, j, t) && k < |states[j].slots|
    ensures exists m: nat :: b < m < j && TakesSlot(states, actions, m, k)
    ensures !Visited(states, actions, j, t, k)
            <==> forall m: nat :: b < m < j && TakesSlot(states, actions, m, k) ==> actions[m] != Pick(t)
  {
    hide *;
    var m := SlotComesUp(states, actions, b, j, t, k);
    VisitedExactly(states, actions, b, j, t, k);
  }

  /** When no other checkout takes a turn during the walk, an error means that every slot was visited, found dead, and
      passed over for the cooldown or not respawned. */
  lemma LoneErrorMeansEverySlotFailed(states: seq<State>, actions: seq<Action>, b: nat, j: nat, t: TaskId, k: nat)
    requires IsRun(states, actions) && Walk(states, actions, b, j, t) && k < |states[j].slots|
    requires forall m: nat :: b < m < j && actions[m].Pick? ==> actions[m] == Pick(t)
    ensures Visited(states, actions, j, t, k)
  {
    SlotIsMissedExactly(states, actions, b, j, t, k);
  }

  /** Every checkout of a run has begun. */
  lemma {:induction false} BeganSomewhere(states: seq<State>, actions: seq<Action>, j: nat, t: TaskId) returns (b: nat)
    requires IsRun(states, actions) && j < |states| && t in states[j].tasks
    ensures b < j && b < |actions| && actions[b] == Begin(t)
    decreases j
  {
    RunLength(states, actions);
    NobodyAtStart(states, actions);
    hide *;
    RunIs(states, actions, j - 1);
    b := j - 1;
    if t in states[j - 1].tasks {
      b := BeganSomewhere(states, actions, j - 1, t);
    } else if actions[j - 1] != Begin(t) {
      StaysAway(states[j - 1], actions[j - 1], t);
    }
  }

  lemma NobodyAtStart(states: seq<State>, actions: seq<Action>)
    requires IsRun(states, actions)
    ensures states[0].tasks == map[]
  {
  }

  // ----- an error while a slot is live

  /** The checkout has `i` rounds behind it, all at slot 0, whose bridge is dead; slot 1 comes next, and is live. */
  ghost predicate Misled(s: State, i: nat) {
    Reached(s) && Inv(s) && WellFormed(s) && |s.slots| == 2 && 0 in s.tasks && s.tasks[0] == Between(i)
    && !s.alive[s.slots[0]] && s.alive[s.slots[1]] && s.writers == map[]
    && s.failedAt == Some(s.now) && s.next == 2 * i - 1 && i <= 4
    && forall t :: t in s.tasks ==> t < i
  }

  /** Another checkout takes the turn of slot 1. */
  lemma AnotherTakesSlotOne(s: State, t: TaskId) returns (s': State)
    requires Reached(s) && Inv(s) && WellFormed(s) && |s.slots| == 2 && t !in s.tasks && s.next % 2 == 1 && s.next < 10
    requires s.alive[s.slots[1]] && s.writers == map[]
    ensures Reached(s') && Inv(s') && WellFormed(s')
    ensures s' == s.(tasks := s.tasks[t := Done(Some(s.slots[1]))], next := s.next + 1)
  {
    hide Reached;
    hide Inv;
    ReachStep(s, Begin(t));
    var s1 := Move(s, t, Between(0));
    ReachStep(s1, Pick(t));
    var s2 := PickStep(s1, t);
    ReachStep(s2, Look(t));
    s' := LookStep(s2, t);
    assert s'.tasks == s.tasks[t := Done(Some(s.slots[1]))];
  }

  /** The checkout comes to slot 0 again, inside the cooldown. */
  lemma SlotZeroAgain(s: State, i: nat) returns (s': State)
    requires Reached(s) && Inv(s) && WellFormed(s) && |s.slots| == 2
    requires 0 in s.tasks && s.tasks[0] == Between(i) && i < 4
    requires s.next % 2 == 0 && s.next < 10 && !s.alive[s.slots[0]] && s.writers == map[] && s.failedAt == Some(s.now)
    ensures Reached(s') && Inv(s') && WellFormed(s')
    ensures s' == s.(tasks := s.tasks[0 := Between(i + 1)], next := s.next + 1)
  {
    hide Reached;
    hide Inv;
    ReachStep(s, Pick(0));
    var s1 := PickStep(s, 0);
    ReachStep(s1, Look(0));
    var s2 := LookStep(s1, 0);
    ReachStep(s2, TestCooldown(0));
    s' := TestCooldownStep(s2, 0);
    assert s'.tasks == s.tasks[0 := Between(i + 1)];
  }

  lemma OneMoreRound(s: State, i: nat) returns (s': State)
    requires 0 < i < 4 && Misled(s, i)
    ensures Misled(s', i + 1)
  {
    hide Reached;
    hide Inv;
    var s1 := AnotherTakesSlotOne(s, i);
    s' := SlotZeroAgain(s1, i);
  }

  lemma TwoFreshSlots(now: int) returns (s: State)
    ensures s == Initial(2, now) && Reached(s) && Inv(s) && WellFormed(s)
  {
    s := Initial(2, now);
    InitialInv(2, now);
    assert IsRun([s], []) && [s][|[s]| - 1] == s;
  }

  /** The first round: the bridge of slot 0 is dead, and its respawn fails. */
  lemma FirstRoundBreaks(now: int) returns (s: State)
    ensures Misled(s, 1)
  {
    var s0 := TwoFreshSlots(now);
    hide Reached;
    hide Inv;
    ReachStep(s0, Die(0));
    var s1 := DieStep(s0, 0);
    var s2 := Approach(s1, 0);
    ReachStep(s2, TestAgain(0));
    var s3 := TestAgainStep(s2, 0);
    ReachStep(s3, SpawnBreaks(0));
    s := Step(s3, SpawnBreaks(0));
    assert s.writers == map[];
  }

  /** With others taking the turns of slot 1, a checkout of two slots walks all its rounds past the dead slot 0 and
      reports an error while slot 1 is live. */
  lemma ErrorWhileASlotIsLive(now: int) returns (s: State)
    ensures Reached(s) && |s.slots| == 2 && s.alive[s.slots[1]] && s.slots[1] < |s.alive|
    ensures WalkedOut(s, 0) && Enabled(s, Pick(0)) && WellFormed(s) && Step(s, Pick(0)).tasks[0] == Done(None)
  {
    var s1 := FirstRoundBreaks(now);
    var s2 := OneMoreRound(s1, 1);
    var s3 := OneMoreRound(s2, 2);
    s := OneMoreRound(s3, 3);
  }
}
