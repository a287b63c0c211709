/** bridge.rs: many checkouts, deaths and respawns at once. A read lock is held only for the liveness test, a
    write lock from the second test to the end of the spawn. */
module PoolRuns {
  import opened Wrappers
  import opened PoolWalk

  type TaskId = nat

  /** Where a checkout stands: its round, and the slot it came to in that round. */
  datatype Place =
    | Between(i: nat)
    | Looking(i: nat, k: nat)
    | Cooling(i: nat, k: nat)
    | Wanting(i: nat, k: nat)
    | Testing(i: nat, k: nat)
    | Spawning(i: nat, k: nat)
    | Done(bridge: Option<BridgeId>)

  /** `deaths` and `respawns` count, per slot, bridges that died in it and bridges put there by a respawn. */
  datatype State = State(
    now: int,
    alive: seq<bool>,
    slots: seq<BridgeId>,
    next: nat,
    failedAt: Option<int>,
    writers: map<nat, TaskId>,
    tasks: map<TaskId, Place>,
    deaths: seq<nat>,
    respawns: seq<nat>)

  datatype Action =
    | Tick(d: nat)
    | Die(b: BridgeId)
    | Begin(t: TaskId)
    | Pick(t: TaskId)
    | Look(t: TaskId)
    | TestCooldown(t: TaskId)
    | LockSlot(t: TaskId)
    | TestAgain(t: TaskId)
    | SpawnWorks(t: TaskId)
    | SpawnBreaks(t: TaskId)
    | GiveUp(t: TaskId)

  predicate Locked(p: Place, k: nat) {
    (p.Testing? || p.Spawning?) && p.k == k
  }

  predicate At(s: State, t: TaskId, k: nat) {
    t in s.tasks && Locked(s.tasks[t], k)
  }

  predicate InRange(s: State, p: Place) {
    p.Between? || p.Done? || p.k < |s.slots|
  }

  /** Indices are good wherever an action uses them. */
  predicate WellFormed(s: State) {
    |s.slots| > 0 && |s.deaths| == |s.slots| && |s.respawns| == |s.slots|
    && (forall k :: 0 <= k < |s.slots| ==> s.slots[k] < |s.alive|)
    && (forall t :: t in s.tasks ==> InRange(s, s.tasks[t]))
  }

  predicate Enabled(s: State, x: Action) {
    match x
    case Tick(_) => true
    case Die(b) => b < |s.alive| && s.alive[b]
    case Begin(t) => t !in s.tasks
    case Pick(t) => t in s.tasks && s.tasks[t].Between?
    case Look(t) => t in s.tasks && s.tasks[t].Looking? && s.tasks[t].k !in s.writers
    case TestCooldown(t) => t in s.tasks && s.tasks[t].Cooling?
    case LockSlot(t) => t in s.tasks && s.tasks[t].Wanting? && s.tasks[t].k !in s.writers
    case TestAgain(t) => t in s.tasks && s.tasks[t].Testing?
    case SpawnWorks(t) => t in s.tasks && s.tasks[t].Spawning?
    case SpawnBreaks(t) => t in s.tasks && s.tasks[t].Spawning?
    case GiveUp(t) => t in s.tasks && !s.tasks[t].Done?
  }

  function Move(s: State, t: TaskId, p: Place): State {
    s.(tasks := s.tasks[t := p])
  }

  /** The task leaves its slot's write lock behind. */
  function Leave(s: State, t: TaskId, p: Place): State
    requires t in s.tasks && (s.tasks[t].Testing? || s.tasks[t].Spawning?)
  {
    Move(s, t, p).(writers := s.writers - {s.tasks[t].k})
  }

  function DieStep(s: State, b: BridgeId): State
    requires WellFormed(s) && b < |s.alive|
  {
    s.(alive := s.alive[b := false],
       deaths := seq(|s.slots|, k requires 0 <= k < |s.slots| =>
                   if s.slots[k] == b then s.deaths[k] + 1 else s.deaths[k]))
  }

  function PickStep(s: State, t: TaskId): State
    requires WellFormed(s) && t in s.tasks && s.tasks[t].Between?
  {
    var i := s.tasks[t].i;
    if i < 2 * |s.slots| then Move(s, t, Looking(i, s.next % |s.slots|)).(next := (s.next + 1) % WRAP)
    else Move(s, t, Done(None))
  }

  function LookStep(s: State, t: TaskId): State
    requires WellFormed(s) && t in s.tasks && s.tasks[t].Looking?
  {
    var (i, k) := (s.tasks[t].i, s.tasks[t].k);
    Move(s, t, if s.alive[s.slots[k]] then Done(Some(s.slots[k])) else Cooling(i, k))
  }

  function TestCooldownStep(s: State, t: TaskId): State
    requires t in s.tasks && s.tasks[t].Cooling?
  {
    var p := s.tasks[t];
    Move(s, t, if InCooldown(s.failedAt, s.now) then Between(p.i + 1) else Wanting(p.i, p.k))
  }

  function LockSlotStep(s: State, t: TaskId): State
    requires t in s.tasks && s.tasks[t].Wanting?
  {
    var p := s.tasks[t];
    Move(s, t, Testing(p.i, p.k)).(writers := s.writers[p.k := t])
  }

  function TestAgainStep(s: State, t: TaskId): State
    requires WellFormed(s) && t in s.tasks && s.tasks[t].Testing?
  {
    var p := s.tasks[t];
    if s.alive[s.slots[p.k]] then Leave(s, t, Done(Some(s.slots[p.k]))) else Move(s, t, Spawning(p.i, p.k))
  }

  function SpawnWorksStep(s: State, t: TaskId): State
    requires WellFormed(s) && t in s.tasks && s.tasks[t].Spawning?
  {
    var k := s.tasks[t].k;
    Leave(s, t, Done(Some(|s.alive|)))
      .(alive := s.alive + [true], slots := s.slots[k := |s.alive|], respawns := s.respawns[k := s.respawns[k] + 1])
  }

  function Step(s: State, x: Action): State
    requires WellFormed(s) && Enabled(s, x)
  {
    match x
    case Tick(d) => s.(now := s.now + d)
    case Die(b) => DieStep(s, b)
    case Begin(t) => Move(s, t, Between(0))
    case Pick(t) => PickStep(s, t)
    case Look(t) => LookStep(s, t)
    case TestCooldown(t) => TestCooldownStep(s, t)
    case LockSlot(t) => LockSlotStep(s, t)
    case TestAgain(t) => TestAgainStep(s, t)
    case SpawnWorks(t) => SpawnWorksStep(s, t)
    case SpawnBreaks(t) => Leave(s, t, Between(s.tasks[t].i + 1)).(failedAt := Some(s.now))
    case GiveUp(t) =>
      if s.tasks[t].Testing? || s.tasks[t].Spawning? then Leave(s, t, Done(None)) else Move(s, t, Done(None))
  }

  function Initial(n: nat, now: int): State {
    State(now, seq(n, _ => true), seq(n, i => i), 0, None, map[], map[], seq(n, _ => 0), seq(n, _ => 0))
  }

  /** A run from start-up. `StepKeeps` shows that well-formedness never rules out an enabled step. */
  ghost predicate IsRun(states: seq<State>, actions: seq<Action>) {
    |states| == |actions| + 1
    && (exists n, now :: 0 < n && states[0] == Initial(n, now))
    && (forall i :: 0 <= i < |states| ==> WellFormed(states[i]))
    && forall i :: 0 <= i < |actions| ==> Enabled(states[i], actions[i]) && states[i + 1] == Step(states[i], actions[i])
  }

  lemma RunLength(states: seq<State>, actions: seq<Action>)
    requires IsRun(states, actions)
    ensures |states| == |actions| + 1
  {
  }

  lemma RunIs(states: seq<State>, actions: seq<Action>, i: nat)
    requires IsRun(states, actions) && i < |actions|
    ensures |states| == |actions| + 1 && WellFormed(states[i]) && Enabled(states[i], actions[i])
    ensures states[i + 1] == Step(states[i], actions[i])
  {
  }

  // ----- what every state keeps

  ghost predicate DistinctSlots(s: State) {
    forall j, k :: 0 <= j < |s.slots| && 0 <= k < |s.slots| && s.slots[j] == s.slots[k] ==> j == k
  }

  ghost predicate WritersOk(s: State) {
    (forall k :: k in s.writers ==> At(s, s.writers[k], k))
    && (forall t, k :: At(s, t, k) ==> k in s.writers && s.writers[k] == t)
  }

  /** A respawn under way is of a slot whose bridge is dead. */
  predicate SpawnsDead(s: State, t: TaskId)
    requires WellFormed(s)
  {
    t in s.tasks && s.tasks[t].Spawning? ==> !s.alive[s.slots[s.tasks[t].k]]
  }

  /** Every death in a slot but the one not yet made good was followed by one respawn. */
  predicate Balanced(s: State, k: nat)
    requires WellFormed(s) && k < |s.slots|
  {
    s.deaths[k] == s.respawns[k] + (if s.alive[s.slots[k]] then 0 else 1)
  }

  ghost predicate Inv(s: State) {
    WellFormed(s) && DistinctSlots(s) && WritersOk(s)
    && (forall t :: SpawnsDead(s, t))
    && (forall k :: 0 <= k < |s.slots| ==> Balanced(s, k))
  }

  lemma InitialInv(n: nat, now: int)
    requires 0 < n
    ensures Inv(Initial(n, now))
  {
  }

  /** Nothing but places of tasks changed, and none of them concerns a lock or a spawn. */
  lemma MoveKeeps(s: State, t: TaskId, p: Place, s': State)
    requires Inv(s) && InRange(s, p) && !p.Testing? && !p.Spawning?
    requires t in s.tasks ==> !s.tasks[t].Testing? && !s.tasks[t].Spawning?
    requires s' == Move(s, t, p).(next := s'.next)
    ensures Inv(s')
  {
    forall u, k ensures At(s', u, k) == At(s, u, k) {
    }
    forall u ensures SpawnsDead(s', u) {
      assert SpawnsDead(s, u);
    }
    forall k | 0 <= k < |s'.slots| ensures Balanced(s', k) {
      assert Balanced(s, k);
    }
  }

  lemma LeaveKeeps(s: State, t: TaskId, p: Place, mark: Option<int>)
    requires Inv(s) && t in s.tasks && (s.tasks[t].Testing? || s.tasks[t].Spawning?) && (p.Between? || p.Done?)
    ensures Inv(Leave(s, t, p).(failedAt := mark))
  {
    var s' := Leave(s, t, p).(failedAt := mark);
    assert At(s, t, s.tasks[t].k);
    forall u, k ensures At(s', u, k) == (At(s, u, k) && u != t) {
    }
    forall u ensures SpawnsDead(s', u) {
      assert SpawnsDead(s, u);
    }
    forall k | 0 <= k < |s'.slots| ensures Balanced(s', k) {
      assert Balanced(s, k);
    }
  }

  lemma LockKeeps(s: State, t: TaskId)
    requires Inv(s) && Enabled(s, LockSlot(t))
    ensures Inv(Step(s, LockSlot(t)))
  {
    var s' := Step(s, LockSlot(t));
    forall u, k ensures At(s', u, k) == (At(s, u, k) || (u == t && k == s.tasks[t].k)) {
    }
    forall u ensures SpawnsDead(s', u) {
      assert SpawnsDead(s, u);
    }
    forall k | 0 <= k < |s'.slots| ensures Balanced(s', k) {
      assert Balanced(s, k);
    }
  }

  lemma StartSpawnKeeps(s: State, t: TaskId)
    requires Inv(s) && Enabled(s, TestAgain(t)) && !s.alive[s.slots[s.tasks[t].k]]
    ensures Inv(TestAgainStep(s, t))
  {
    var s' := TestAgainStep(s, t);
    forall u, k ensures At(s', u, k) == At(s, u, k) {
    }
    forall u ensures SpawnsDead(s', u) {
      assert SpawnsDead(s, u);
    }
    forall k | 0 <= k < |s'.slots| ensures Balanced(s', k) {
      assert Balanced(s, k);
    }
  }

  lemma SpawnKeeps(s: State, t: TaskId)
    requires Inv(s) && Enabled(s, SpawnWorks(t))
    ensures Inv(SpawnWorksStep(s, t))
  {
    var s' := SpawnWorksStep(s, t);
    var m := s.tasks[t].k;
    assert At(s, t, m) && SpawnsDead(s, t);
    forall u, k ensures At(s', u, k) == (At(s, u, k) && u != t) {
    }
    forall u ensures SpawnsDead(s', u) {
      assert SpawnsDead(s, u);
      assert u != t && u in s.tasks && s.tasks[u].Spawning? ==> At(s, u, s.tasks[u].k) && s.tasks[u].k != m;
    }
    forall k | 0 <= k < |s'.slots| ensures Balanced(s', k) {
      assert Balanced(s, k);
    }
  }

  lemma DieKeeps(s: State, b: BridgeId)
    requires Inv(s) && Enabled(s, Die(b))
    ensures Inv(DieStep(s, b))
  {
    var s' := DieStep(s, b);
    forall u, k ensures At(s', u, k) == At(s, u, k) {
    }
    forall u ensures SpawnsDead(s', u) {
      assert SpawnsDead(s, u);
    }
    forall k | 0 <= k < |s'.slots| ensures Balanced(s', k) {
      assert Balanced(s, k);
    }
  }

  lemma TickKeeps(s: State, d: nat)
    requires Inv(s)
    ensures Inv(s.(now := s.now + d))
  {
    var s' := s.(now := s.now + d);
    forall u, k ensures At(s', u, k) == At(s, u, k) {
    }
    forall u ensures SpawnsDead(s', u) {
      assert SpawnsDead(s, u);
    }
    forall k | 0 <= k < |s'.slots| ensures Balanced(s', k) {
      assert Balanced(s, k);
    }
  }

  lemma StepKeeps(s: State, x: Action)
    requires Inv(s) && Enabled(s, x)
    ensures Inv(Step(s, x))
  {
    var s' := Step(s, x);
    match x
    case Tick(d) => TickKeeps(s, d);
    case Die(b) => DieKeeps(s, b);
    case LockSlot(t) => LockKeeps(s, t);
    case TestAgain(t) =>
      if s.alive[s.slots[s.tasks[t].k]] {
        LeaveKeeps(s, t, s'.tasks[t], s.failedAt);
      } else {
        StartSpawnKeeps(s, t);
      }
    case SpawnWorks(t) => SpawnKeeps(s, t);
    case SpawnBreaks(t) => LeaveKeeps(s, t, s'.tasks[t], Some(s.now));
    case GiveUp(t) =>
      if s.tasks[t].Testing? || s.tasks[t].Spawning? {
        LeaveKeeps(s, t, Done(None), s.failedAt);
      } else {
        MoveKeeps(s, t, Done(None), s');
      }
    case Begin(t) => MoveKeeps(s, t, Between(0), s');
    case Pick(t) => MoveKeeps(s, t, s'.tasks[t], s');
    case Look(t) => MoveKeeps(s, t, s'.tasks[t], s');
    case TestCooldown(t) => MoveKeeps(s, t, s'.tasks[t], s');
  }

  lemma {:induction false} RunsKeepInv(states: seq<State>, actions: seq<Action>, i: nat)
    requires IsRun(states, actions) && i < |states|
    ensures Inv(states[i])
    decreases i
  {
    if i == 0 {
      var n, now :| 0 < n && states[0] == Initial(n, now);
      InitialInv(n, now);
    } else {
      RunsKeepInv(states, actions, i - 1);
      StepKeeps(states[i - 1], actions[i - 1]);
    }
  }

  // ----- over whole runs

  /** Dead bridges stay dead. */
  lemma {:induction false} DeathIsFinal(states: seq<State>, actions: seq<Action>, i: nat, j: nat, b: BridgeId)
    requires IsRun(states, actions) && i <= j < |states| && b < |states[i].alive| && !states[i].alive[b]
    ensures b < |states[j].alive| && !states[j].alive[b]
    decreases j
  {
    hide *;
    if i < j {
      RunLength(states, actions);
      RunIs(states, actions, j - 1);
      DeathIsFinal(states, actions, i, j - 1, b);
      StepKeepsDead(states[j - 1], actions[j - 1], b);
    }
  }

  lemma StepKeepsDead(s: State, x: Action, b: BridgeId)
    requires WellFormed(s) && Enabled(s, x) && b < |s.alive| && !s.alive[b]
    ensures b < |Step(s, x).alive| && !Step(s, x).alive[b]
  {
  }

  /** A slot only ever changes from a dead bridge to a live one, made for it by the task with its write lock. */
  lemma LiveBridgesAreNeverReplaced(states: seq<State>, actions: seq<Action>, i: nat, k: nat)
    requires IsRun(states, actions) && i < |actions| && k < |states[i].slots|
    ensures k < |states[i + 1].slots|
    ensures states[i + 1].slots[k] != states[i].slots[k] ==>
              !states[i].alive[states[i].slots[k]] && states[i + 1].alive[states[i + 1].slots[k]]
              && k in states[i].writers && actions[i] == SpawnWorks(states[i].writers[k])
  {
    var s, x := states[i], actions[i];
    RunsKeepInv(states, actions, i);
    if x.SpawnWorks? && s.tasks[x.t].k == k {
      assert At(s, x.t, k) && SpawnsDead(s, x.t);
    }
  }

  /** Respawns of a slot make good its deaths: as many, or one less while the slot is dead. */
  lemma RespawnsFollowDeaths(states: seq<State>, actions: seq<Action>, i: nat, k: nat)
    requires IsRun(states, actions) && i < |states| && k < |states[i].slots|
    ensures states[i].respawns[k] <= states[i].deaths[k] <= states[i].respawns[k] + 1
    ensures states[i].respawns[k] == states[i].deaths[k] <==> states[i].alive[states[i].slots[k]]
  {
    RunsKeepInv(states, actions, i);
    assert Balanced(states[i], k);
  }

  /** The task an action belongs to, if it belongs to one. */
  function Actor(x: Action): Option<TaskId> {
    if x.Tick? || x.Die? then None else Some(x.t)
  }

  lemma OthersStay(s: State, x: Action, t: TaskId)
    requires WellFormed(s) && Enabled(s, x) && t in s.tasks && Actor(x) != Some(t)
    ensures t in Step(s, x).tasks && Step(s, x).tasks[t] == s.tasks[t]
  {
  }

  lemma StaysAway(s: State, x: Action, t: TaskId)
    requires WellFormed(s) && Enabled(s, x) && t !in s.tasks && x != Begin(t)
    ensures t !in Step(s, x).tasks
  {
  }

  /** Whatever bridge a checkout has handed out stood in a slot, live, at the step that handed it out. */
  lemma {:induction false} CheckoutsReturnLiveBridges(
      states: seq<State>, actions: seq<Action>, j: nat, t: TaskId, b: BridgeId)
    requires IsRun(states, actions) && j < |states| && t in states[j].tasks && states[j].tasks[t] == Done(Some(b))
    ensures exists i :: 0 <= i < j && Actor(actions[i]) == Some(t)
                        && b < |states[i + 1].alive| && states[i + 1].alive[b] && b in states[i + 1].slots
    decreases j
  {
    if j > 0 {
      var s, x := states[j - 1], actions[j - 1];
      if t in s.tasks && s.tasks[t] == Done(Some(b)) {
        CheckoutsReturnLiveBridges(states, actions, j - 1, t, b);
      } else {
        if t !in s.tasks {
          StaysAway(s, x, t);
        } else if Actor(x) != Some(t) {
          OthersStay(s, x, t);
        } else {
          StepReturnsLive(s, x, t, b);
          assert states[j - 1 + 1] == Step(s, x);
        }
      }
    }
  }

  lemma StepReturnsLive(s: State, x: Action, t: TaskId, b: BridgeId)
    requires WellFormed(s) && Enabled(s, x) && t in s.tasks && s.tasks[t] != Done(Some(b))
    requires t in Step(s, x).tasks && Step(s, x).tasks[t] == Done(Some(b))
    ensures b < |Step(s, x).alive| && Step(s, x).alive[b] && b in Step(s, x).slots
  {
    match x
    case SpawnWorks(_) => assert Step(s, x).slots[s.tasks[t].k] == b;
    case _ =>
  }

  /** The task came to a slot whose bridge is live, before or under its write lock. */
  predicate FindsLive(s: State, x: Action, t: TaskId)
    requires WellFormed(s) && t in s.tasks
  {
    ((x == Look(t) && s.tasks[t].Looking?) || (x == TestAgain(t) && s.tasks[t].Testing?))
    && s.alive[s.slots[s.tasks[t].k]]
  }

  /** The step that ends a checkout: with the live bridge it comes to, or with the new bridge it put into its slot, and
      without a bridge only after twice as many rounds as there are slots, or when it is given up. */
  lemma CheckoutsEndExactly(states: seq<State>, actions: seq<Action>, i: nat, t: TaskId)
    requires IsRun(states, actions) && i < |actions| && t in states[i].tasks && !states[i].tasks[t].Done?
    ensures var (s, s', x, p) := (states[i], states[i + 1], actions[i], states[i].tasks[t]);
            t in s'.tasks
            && (s'.tasks[t] == Done(None)
                <==> x == GiveUp(t) || (x == Pick(t) && p.Between? && p.i >= 2 * |s.slots|))
            && (FindsLive(s, x, t) ==> s'.tasks[t] == Done(Some(s.slots[p.k])))
            && (x == SpawnWorks(t) ==>
                  p.Spawning? && s'.tasks[t] == Done(Some(s'.slots[p.k])) && s'.slots[p.k] !in s.slots
                  && s'.alive[s'.slots[p.k]])
            && (s'.tasks[t].Done? && s'.tasks[t].bridge.Some? ==> FindsLive(s, x, t) || x == SpawnWorks(t))
  {
    var s, x := states[i], actions[i];
    assert Enabled(s, x) && states[i + 1] == Step(s, x) && WellFormed(s);
    hide IsRun;
    if Actor(x) != Some(t) {
      OthersStay(s, x, t);
    }
  }

  // ----- the spacing of spawns

  /** Task `t` starts to spawn at step `i`. */
  predicate Starts(states: seq<State>, actions: seq<Action>, i: nat, t: TaskId)
    requires i < |actions| && |states| == |actions| + 1
  {
    actions[i] == TestAgain(t) && t in states[i].tasks && states[i].tasks[t].Testing?
    && t in states[i + 1].tasks && states[i + 1].tasks[t].Spawning?
  }

  predicate PastTheTest(s: State, t: TaskId) {
    t in s.tasks && (s.tasks[t].Wanting? || s.tasks[t].Testing?)
  }

  /** Step `c` is the cooldown test after which `t` is on its way to the spawn it starts at step `i`. */
  ghost predicate OwnTest(states: seq<State>, actions: seq<Action>, c: nat, i: nat, t: TaskId)
    requires |states| == |actions| + 1 && i < |states|
  {
    c < i && actions[c] == TestCooldown(t) && forall m :: c < m <= i ==> PastTheTest(states[m], t)
  }

  lemma StepPastTheTest(s: State, x: Action, t: TaskId)
    requires WellFormed(s) && Enabled(s, x) && PastTheTest(Step(s, x), t)
    ensures PastTheTest(s, t) || x == TestCooldown(t)
  {
  }

  lemma OnItsWay(states: seq<State>, actions: seq<Action>, i: nat, t: TaskId)
    requires IsRun(states, actions) && i < |states| && PastTheTest(states[i], t)
    ensures |states| == |actions| + 1 && i > 0
    ensures PastTheTest(states[i - 1], t) || actions[i - 1] == TestCooldown(t)
  {
    StepPastTheTest(states[i - 1], actions[i - 1], t);
  }

  lemma OwnTestGrows(states: seq<State>, actions: seq<Action>, c: nat, i: nat, t: TaskId)
    requires |states| == |actions| + 1 && i + 1 < |states| && PastTheTest(states[i + 1], t)
    requires OwnTest(states, actions, c, i, t) || (c == i && actions[i] == TestCooldown(t))
    ensures OwnTest(states, actions, c, i + 1, t)
  {
  }

  /** Every spawn has a cooldown test of its own before it. */
  lemma {:induction false} OwnTestExists(states: seq<State>, actions: seq<Action>, i: nat, t: TaskId) returns (c: nat)
    requires IsRun(states, actions) && i < |states| && PastTheTest(states[i], t)
    ensures |states| == |actions| + 1 && OwnTest(states, actions, c, i, t)
    decreases i
  {
    hide *;
    OnItsWay(states, actions, i, t);
    c := i - 1;
    if PastTheTest(states[i - 1], t) {
      c := OwnTestExists(states, actions, i - 1, t);
    }
    OwnTestGrows(states, actions, c, i - 1, t);
  }

  /** Step `m` is a failed spawn, and it leaves its mark. */
  predicate Breaks(actions: seq<Action>, m: nat) {
    m < |actions| && actions[m].SpawnBreaks?
  }

  lemma StepMarks(s: State, x: Action)
    requires WellFormed(s) && Enabled(s, x)
    ensures Step(s, x).now >= s.now
    ensures Step(s, x).failedAt == if x.SpawnBreaks? then Some(s.now) else s.failedAt
  {
  }

  /** Between two states time does not go back; the mark is the old one, or the time of a failed spawn in between;
      and it is no older than any failed spawn in between. */
  ghost predicate MarkedSince(states: seq<State>, actions: seq<Action>, c: nat, i: nat)
    requires c <= i < |states|
  {
    (forall m :: c <= m <= i ==> states[m].now <= states[i].now)
    && (states[i].failedAt == states[c].failedAt
        || exists m: nat :: c <= m < i && Breaks(actions, m) && states[i].failedAt == Some(states[m].now))
    && forall m: nat :: c <= m < i && Breaks(actions, m) ==>
      states[i].failedAt.Some? && states[m].now <= states[i].failedAt.value <= states[i].now
  }

  lemma MarkedAtFirst(states: seq<State>, actions: seq<Action>, c: nat)
    requires c < |states|
    ensures MarkedSince(states, actions, c, c)
  {
  }

  lemma MarkedGrows(states: seq<State>, actions: seq<Action>, c: nat, i: nat)
    requires c <= i < |actions| && i + 1 < |states| && MarkedSince(states, actions, c, i)
    requires states[i].now <= states[i + 1].now
    requires states[i + 1].failedAt == if actions[i].SpawnBreaks? then Some(states[i].now) else states[i].failedAt
    ensures MarkedSince(states, actions, c, i + 1)
  {
    assert actions[i].SpawnBreaks? <==> Breaks(actions, i);
  }

  lemma {:induction false} MarksOnlyGrow(states: seq<State>, actions: seq<Action>, c: nat, i: nat)
    requires IsRun(states, actions) && c <= i < |states|
    ensures MarkedSince(states, actions, c, i)
    decreases i
  {
    hide *;
    if c == i {
      MarkedAtFirst(states, actions, c);
    } else {
      RunLength(states, actions);
      RunIs(states, actions, i - 1);
      MarksOnlyGrow(states, actions, c, i - 1);
      StepMarks(states[i - 1], actions[i - 1]);
      MarkedGrows(states, actions, c, i - 1);
    }
  }

  /** However checkouts overlap: a spawn starts within the cooldown of the last failure exactly when some spawn
      failed after its own cooldown test, less than the cooldown before it starts. */
  lemma EarlySpawnsExactly(states: seq<State>, actions: seq<Action>, c: nat, i: nat, t: TaskId)
    requires IsRun(states, actions) && i < |actions| && Starts(states, actions, i, t)
    requires OwnTest(states, actions, c, i, t)
    ensures InCooldown(states[i].failedAt, states[i].now)
            <==> exists m: nat :: c <= m < i && Breaks(actions, m) && states[i].now - states[m].now < RESPAWN_COOLDOWN
  {
    MarksOnlyGrow(states, actions, c, i);
    assert PastTheTest(states[c + 1], t);
    PassesTheTest(states[c], t);
  }

  lemma PassesTheTest(s: State, t: TaskId)
    requires WellFormed(s) && Enabled(s, TestCooldown(t)) && PastTheTest(Step(s, TestCooldown(t)), t)
    ensures !InCooldown(s.failedAt, s.now)
  {
  }

  /** At most one checkout is under way. */
  ghost predicate Alone(s: State) {
    forall t, u :: t in s.tasks && u in s.tasks && !s.tasks[t].Done? && !s.tasks[u].Done? ==> t == u
  }

  lemma NobodyElseBreaks(s: State, x: Action, t: TaskId)
    requires Enabled(s, x) && PastTheTest(s, t) && Alone(s)
    ensures !x.SpawnBreaks?
  {
  }

  /** When no checkout overlaps with the way from its cooldown test to its start, a spawn starts at least the
      cooldown after the last failed one. */
  lemma SpawnsAreSpaced(states: seq<State>, actions: seq<Action>, c: nat, i: nat, t: TaskId)
    requires IsRun(states, actions) && i < |actions| && Starts(states, actions, i, t)
    requires OwnTest(states, actions, c, i, t) && forall j :: c <= j < i ==> Alone(states[j])
    ensures states[i].failedAt.Some? ==> states[i].now >= states[i].failedAt.value + RESPAWN_COOLDOWN
  {
    EarlySpawnsExactly(states, actions, c, i, t);
    forall m: nat | c <= m < i ensures !Breaks(actions, m) {
      if m > c {
        NobodyElseBreaks(states[m], actions[m], t);
      }
    }
  }

  // ----- the spacing is not kept when checkouts overlap

  ghost predicate Reached(s: State) {
    exists states, actions :: IsRun(states, actions) && states[|states| - 1] == s
  }

  lemma ReachStep(s: State, x: Action)
    requires Reached(s) && Inv(s) && Enabled(s, x)
    ensures WellFormed(s) && Reached(Step(s, x)) && Inv(Step(s, x)) && WellFormed(Step(s, x))
  {
    var states, actions :| IsRun(states, actions) && states[|states| - 1] == s;
    var states', actions' := states + [Step(s, x)], actions + [x];
    StepKeeps(s, x);
    assert states'[0] == states[0];
    forall i | 0 <= i < |actions'|
      ensures Enabled(states'[i], actions'[i]) && states'[i + 1] == Step(states'[i], actions'[i])
    {
      if i < |actions| {
        assert states'[i] == states[i] && actions'[i] == actions[i] && states'[i + 1] == states[i + 1];
      }
    }
    assert IsRun(states', actions');
  }

  /** A new checkout comes to a dead slot nobody works on. */
  lemma FindDead(s: State, t: TaskId) returns (s': State)
    requires Reached(s) && Inv(s) && WellFormed(s) && t !in s.tasks
    requires var k := s.next % |s.slots|; !s.alive[s.slots[k]] && k !in s.writers
    ensures Reached(s') && Inv(s') && WellFormed(s')
    ensures s' == s.(tasks := s.tasks[t := Cooling(0, s.next % |s.slots|)], next := (s.next + 1) % WRAP)
  {
    hide Reached;
    hide Inv;
    ReachStep(s, Begin(t));
    var s1 := Move(s, t, Between(0));
    ReachStep(s1, Pick(t));
    var s2 := PickStep(s1, t);
    ReachStep(s2, Look(t));
    s' := LookStep(s2, t);
    assert s'.tasks == s.tasks[t := Cooling(0, s.next % |s.slots|)];
  }

  /** Outside any cooldown it goes on to lock the slot. */
  lemma LockDead(s: State, t: TaskId, k: nat) returns (s': State)
    requires Reached(s) && Inv(s) && WellFormed(s) && t in s.tasks
    requires s.tasks[t] == Cooling(0, k) && s.failedAt == None && k !in s.writers
    ensures Reached(s') && Inv(s') && WellFormed(s')
    ensures s' == s.(tasks := s.tasks[t := Testing(0, k)], writers := s.writers[k := t])
  {
    hide Reached;
    hide Inv;
    ReachStep(s, TestCooldown(t));
    var s1 := TestCooldownStep(s, t);
    assert s1.tasks == s.tasks[t := Wanting(0, k)];
    s' := LockCalm(s1, t, k);
    assert s'.tasks == s.tasks[t := Testing(0, k)];
  }

  lemma LockCalm(s: State, t: TaskId, k: nat) returns (s': State)
    requires Reached(s) && Inv(s) && WellFormed(s) && t in s.tasks && s.tasks[t] == Wanting(0, k) && k !in s.writers
    ensures Reached(s') && Inv(s') && WellFormed(s')
    ensures s' == s.(tasks := s.tasks[t := Testing(0, k)], writers := s.writers[k := t])
  {
    hide Reached;
    hide Inv;
    ReachStep(s, LockSlot(t));
    s' := LockSlotStep(s, t);
  }

  lemma Approach(s: State, t: TaskId) returns (s': State)
    requires Reached(s) && Inv(s) && WellFormed(s) && t !in s.tasks && s.failedAt == None
    requires var k := s.next % |s.slots|; !s.alive[s.slots[k]] && k !in s.writers
    ensures Reached(s') && Inv(s') && WellFormed(s')
    ensures var k := s.next % |s.slots|;
            s' == s.(tasks := s.tasks[t := Testing(0, k)], writers := s.writers[k := t], next := (s.next + 1) % WRAP)
  {
    hide Reached;
    hide Inv;
    var s1 := FindDead(s, t);
    s' := LockDead(s1, t, s.next % |s.slots|);
  }

  lemma TwoDeadSlots(now: int) returns (s: State)
    ensures Reached(s) && Inv(s) && s.now == now && |s.slots| == 2 && s.next == 0 && s.failedAt == None
    ensures s.tasks == map[] && s.writers == map[] && !s.alive[s.slots[0]] && !s.alive[s.slots[1]]
  {
    var s0 := Initial(2, now);
    InitialInv(2, now);
    assert IsRun([s0], []) && [s0][|[s0]| - 1] == s0;
    assert Reached(s0);
    ReachStep(s0, Die(0));
    var s1 := DieStep(s0, 0);
    ReachStep(s1, Die(1));
    s := DieStep(s1, 1);
  }

  /** Two overlapping checkouts: the second starts to spawn at the very moment the first one's spawn failed. */
  lemma OverlappingSpawnsAreNotSpaced(now: int) returns (s: State, t: TaskId)
    ensures Reached(s) && Enabled(s, TestAgain(t)) && TestAgainStep(s, t).tasks[t].Spawning?
            && s.failedAt == Some(s.now)
  {
    var s0 := TwoDeadSlots(now);
    var s1 := Approach(s0, 0);
    ReachStep(s1, TestAgain(0));
    var s2 := TestAgainStep(s1, 0);
    var s3 := Approach(s2, 1);
    ReachStep(s3, SpawnBreaks(0));
    s, t := Step(s3, SpawnBreaks(0)), 1;
  }
}
