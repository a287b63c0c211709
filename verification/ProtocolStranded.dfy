/** bridge.rs: what becomes of asks when the subprocess exits. The reader marks the bridge dead and clears the map;
    an ask that registers only after that is left to its caller. */
module ProtocolStranded {
  import opened Wrappers
  import opened BridgeLink
  import opened Protocol
  import opened ProtocolLocks
  import opened ProtocolAsks
  import opened ProtocolRuns

  /** Waiting in the map of a bridge whose reader is gone for good. */
  predicate Stranded(s: State, a: AskId) {
    a < |s.asks| && s.asks[a].bridge < |s.links| && s.asks[a].stage == Guarded && s.asks[a].mailbox == None
    && InMap(s.links[s.asks[a].bridge], a) && s.links[s.asks[a].bridge].reader == Drained
  }

  /** A sender is only lost to the reader's final drain. */
  lemma SendersAreLostToTheDrainOnly(states: seq<State>, actions: seq<Action>, i: nat, a: AskId)
    requires IsRun(states, actions) && i < |actions| && actions[i] == OnAsk(SenderGone(a))
    ensures states[i].links[states[i].asks[a].bridge].reader == Drained
  {
    RunsAreSound(states, actions, i);
    assert AskOk(states[i], a);
  }

  /** The ways to end an ask that need nothing from the reader. */
  predicate GivesUp(s: State, x: Action, a: AskId) {
    a < |s.asks|
    && (x == OnAsk(TimeOut(a)) || x == OnRequest(Cancel(s.asks[a].task))
        || (x.OnAsk? && x.ask.WriteFails? && x.ask.a == a))
  }

  /** An ask that registered after the drain waits until a write error, its caller's timeout or cancellation ends
      it, however long the run goes on. */
  lemma {:induction false} StrandedAsksWaitForTheTimeout(
      states: seq<State>, actions: seq<Action>, i: nat, j: nat, a: AskId)
    requires IsRun(states, actions) && i <= j < |states| && Stranded(states[i], a)
    ensures Stranded(states[j], a)
            || exists m :: i <= m < j && Stranded(states[m], a) && GivesUp(states[m], actions[m], a)
    decreases j
  {
    hide *;
    if i < j {
      RunIsSteps(states, actions, j - 1);
      StrandedAsksWaitForTheTimeout(states, actions, i, j - 1, a);
      if Stranded(states[j - 1], a) {
        StrandedIsKnown(states[j - 1], a);
        RunsAreSound(states, actions, j - 1);
        StrandedStep(states[j - 1], actions[j - 1], a);
      }
    }
  }

  lemma StrandedIsKnown(s: State, a: AskId)
    requires Stranded(s, a)
    ensures a < |s.asks|
  {
  }

  lemma RunIsSteps(states: seq<State>, actions: seq<Action>, i: nat)
    requires IsRun(states, actions) && i + 1 < |states|
    ensures i < |actions| && |states| == |actions| + 1
    ensures Enabled(states[i], actions[i]) && states[i + 1] == Step(states[i], actions[i])
  {
  }

  /** A stranded ask stands in the map under its own id. */
  lemma StrandedEntry(s: State, a: AskId)
    requires AskInv(s) && Stranded(s, a)
    ensures s.asks[a].cid in s.links[s.asks[a].bridge].pending
            && s.links[s.asks[a].bridge].pending[s.asks[a].cid] == a
  {
    var b := s.asks[a].bridge;
    var c :| c in s.links[b].pending && s.links[b].pending[c] == a;
    assert EntryOk(s, b, c);
  }

  /** It stays stranded while it, its reader and its entry stay. */
  lemma StillStranded(s: State, s': State, a: AskId)
    requires AskInv(s) && Stranded(s, a) && a < |s'.asks|
    requires s'.asks[a] == s.asks[a].(written := s'.asks[a].written)
    requires var (b, c) := (s.asks[a].bridge, s.asks[a].cid);
             b < |s'.links| && s'.links[b].reader == Drained && c in s'.links[b].pending && s'.links[b].pending[c] == a
    ensures Stranded(s', a)
  {
  }

  lemma StrandedRequest(s: State, x: RequestAction, a: AskId)
    requires AskInv(s) && RequestEnabled(s, x) && Stranded(s, a)
    ensures Stranded(RequestStep(s, x), a) || GivesUp(s, OnRequest(x), a)
  {
    StrandedEntry(s, a);
    RequestKeepsEntry(s, x, s.asks[a].bridge, s.asks[a].cid);
    if x.Cancel? {
      if !(Working(s, x.t) && WorkOf(s, x.t).Asking? && WorkOf(s, x.t).ask == a) {
        StillStranded(s, RequestStep(s, x), a);
      }
    } else {
      RequestIsSame(s, x);
    }
  }

  lemma StrandedWork(s: State, x: WorkAction, a: AskId)
    requires AskInv(s) && WorkEnabled(s, x) && Stranded(s, a)
    ensures Stranded(WorkStep(s, x), a)
  {
    StrandedEntry(s, a);
    WorkKeepsLinks(s, x);
    WorkKeepsOldAsks(s, x, a);
    StillStranded(s, WorkStep(s, x), a);
  }

  lemma StrandedAsk(s: State, x: AskAction, a: AskId)
    requires AskInv(s) && AskEnabled(s, x) && Stranded(s, a)
    ensures Stranded(AskStep(s, x), a) || GivesUp(s, OnAsk(x), a)
  {
    StrandedEntry(s, a);
    if x.a == a {
      if x.WriteLine? {
        StillStranded(s, AskStep(s, x), a);
      }
    } else {
      AskKeepsEntry(s, x, s.asks[a].bridge, s.asks[a].cid);
      AskKeepsReaders(s, x);
      OthersKeepTheAsk(s, x, a);
      hide AskStep;
      StillStranded(s, AskStep(s, x), a);
    }
  }

  lemma AskKeepsReaders(s: State, x: AskAction)
    requires AskEnabled(s, x)
    ensures |AskStep(s, x).links| == |s.links|
    ensures forall b :: 0 <= b < |s.links| ==> AskStep(s, x).links[b].reader == s.links[b].reader
  {
  }

  lemma StrandedWorld(s: State, x: WorldAction, a: AskId)
    requires AskInv(s) && WorldEnabled(s, x) && Stranded(s, a)
    ensures Stranded(WorldStep(s, x), a)
  {
    StrandedEntry(s, a);
    if x.Emit? && x.cid in s.links[x.b].pending {
      assert EntryOk(s, x.b, x.cid);
    }
    WorldKeepsEntry(s, x, s.asks[a].bridge, s.asks[a].cid);
    StillStranded(s, WorldStep(s, x), a);
  }

  lemma StrandedStep(s: State, x: Action, a: AskId)
    requires Sound(s) && Enabled(s, x) && Stranded(s, a)
    ensures Stranded(Step(s, x), a) || GivesUp(s, x, a)
  {
    match x
    case OnRequest(r) => StrandedRequest(s, r, a);
    case OnWork(w) => StrandedWork(s, w, a);
    case OnAsk(k) => StrandedAsk(s, k, a);
    case OnWorld(e) => StrandedWorld(s, e, a);
  }

  lemma WorkKeepsOldAsks(s: State, x: WorkAction, a: AskId)
    requires WorkEnabled(s, x) && a < |s.asks|
    ensures a < |WorkStep(s, x).asks| && WorkStep(s, x).asks[a] == s.asks[a]
  {
  }

  lemma OthersKeepTheAsk(s: State, x: AskAction, a: AskId)
    requires AskEnabled(s, x) && a < |s.asks| && x.a != a
    ensures a < |AskStep(s, x).asks| && AskStep(s, x).asks[a] == s.asks[a]
  {
  }

  // ----- when an ask is stranded

  /** An ask only ever goes forward: called, checked, registered, ended. */
  function Rank(stage: Stage): nat {
    match stage
    case Called => 0
    case Checked => 1
    case Guarded => 2
    case Ended(_) => 3
  }

  /** From one state to the next: an old ask keeps its bridge, its rank does not fall, and registering is the one way
      to become guarded. */
  predicate Goes(s: State, x: Action, s': State, a: AskId)
    requires a < |s.asks|
  {
    a < |s'.asks| && s'.asks[a].bridge == s.asks[a].bridge && s'.asks[a].cid == s.asks[a].cid
    && Rank(s.asks[a].stage) <= Rank(s'.asks[a].stage)
    && (s'.asks[a].stage == Guarded && s.asks[a].stage != Guarded ==> x == OnAsk(Register(a)))
    && (x == OnAsk(Register(a)) ==> s.asks[a].stage == Checked && s'.asks[a].stage == Guarded)
  }

  lemma RequestGoes(s: State, x: RequestAction, a: AskId)
    requires RequestEnabled(s, x) && a < |s.asks|
    ensures Goes(s, OnRequest(x), RequestStep(s, x), a)
  {
  }

  lemma AskGoes(s: State, x: AskAction, a: AskId)
    requires AskEnabled(s, x) && a < |s.asks|
    ensures Goes(s, OnAsk(x), AskStep(s, x), a)
  {
    if x.a != a {
      OthersKeepTheAsk(s, x, a);
    }
  }

  lemma WorldGoes(s: State, x: WorldAction, a: AskId)
    requires WorldEnabled(s, x) && a < |s.asks|
    ensures Goes(s, OnWorld(x), WorldStep(s, x), a)
  {
  }

  lemma StepGoes(s: State, x: Action, a: AskId)
    requires Enabled(s, x) && a < |s.asks|
    ensures Goes(s, x, Step(s, x), a)
  {
    match x
    case OnRequest(r) => RequestGoes(s, r, a);
    case OnWork(w) => WorkKeepsOldAsks(s, w, a);
    case OnAsk(k) => AskGoes(s, k, a);
    case OnWorld(e) => WorldGoes(s, e, a);
  }

  /** A new ask is not registered yet. */
  lemma NewAskIsCalled(s: State, x: Action, a: AskId)
    requires Enabled(s, x) && |s.asks| <= a < |Step(s, x).asks|
    ensures Step(s, x).asks[a].stage == Called
  {
    match x
    case OnRequest(r) => RequestAsksNothing(s, r);
    case OnWork(w) => WorkAsksAnew(s, w, a);
    case OnAsk(k) => AskAsksNothing(s, k);
    case OnWorld(e) => WorldAsksNothing(s, e);
  }

  lemma RequestAsksNothing(s: State, x: RequestAction)
    requires RequestEnabled(s, x)
    ensures |RequestStep(s, x).asks| == |s.asks|
  {
  }

  lemma WorkAsksAnew(s: State, x: WorkAction, a: AskId)
    requires WorkEnabled(s, x) && |s.asks| <= a < |WorkStep(s, x).asks|
    ensures WorkStep(s, x).asks[a].stage == Called
  {
  }

  lemma AskAsksNothing(s: State, x: AskAction)
    requires AskEnabled(s, x)
    ensures |AskStep(s, x).asks| == |s.asks|
  {
  }

  lemma WorldAsksNothing(s: State, x: WorldAction)
    requires WorldEnabled(s, x)
    ensures |WorldStep(s, x).asks| == |s.asks|
  {
  }

  /** Over a run an ask that is there keeps its bridge and does not go back. */
  lemma {:induction false} AsksGoForward(states: seq<State>, actions: seq<Action>, i: nat, j: nat, a: AskId)
    requires IsRun(states, actions) && i <= j < |states| && a < |states[i].asks|
    ensures a < |states[j].asks| && states[j].asks[a].bridge == states[i].asks[a].bridge
    ensures states[j].asks[a].cid == states[i].asks[a].cid
    ensures Rank(states[i].asks[a].stage) <= Rank(states[j].asks[a].stage)
    decreases j
  {
    hide *;
    if i < j {
      RunIsSteps(states, actions, j - 1);
      AsksGoForward(states, actions, i, j - 1, a);
      StepGoes(states[j - 1], actions[j - 1], a);
      GoesMeans(states[j - 1], actions[j - 1], states[j], a);
    }
  }

  lemma GoesMeans(s: State, x: Action, s': State, a: AskId)
    requires a < |s.asks| && Goes(s, x, s', a)
    ensures a < |s'.asks| && s'.asks[a].bridge == s.asks[a].bridge && s'.asks[a].cid == s.asks[a].cid
    ensures Rank(s.asks[a].stage) <= Rank(s'.asks[a].stage)
    ensures s'.asks[a].stage == Guarded && s.asks[a].stage != Guarded ==> x == OnAsk(Register(a))
    ensures x == OnAsk(Register(a)) ==> s.asks[a].stage == Checked && s'.asks[a].stage == Guarded
  {
  }

  predicate GuardedAt(s: State, a: AskId) {
    a < |s.asks| && s.asks[a].stage == Guarded
  }

  predicate RegistersAt(states: seq<State>, actions: seq<Action>, m: nat, i: nat, a: AskId) {
    m < i < |states| && m < |actions| && actions[m] == OnAsk(Register(a)) && GuardedAt(states[m + 1], a)
    && a < |states[m].asks|
  }

  /** Every guarded ask registered at some step. */
  lemma {:induction false} RegisteredSomewhere(states: seq<State>, actions: seq<Action>, i: nat, a: AskId)
      returns (m: nat)
    requires IsRun(states, actions) && i < |states| && GuardedAt(states[i], a)
    ensures RegistersAt(states, actions, m, i, a)
    decreases i
  {
    hide IsRun;
    hide Enabled;
    hide Step;
    hide Goes;
    NoAskAtStart(states, actions);
    RunIsSteps(states, actions, i - 1);
    if a < |states[i - 1].asks| {
      StepGoes(states[i - 1], actions[i - 1], a);
      GoesMeans(states[i - 1], actions[i - 1], states[i], a);
      if states[i - 1].asks[a].stage == Guarded {
        m := RegisteredSomewhere(states, actions, i - 1, a);
      } else {
        m := i - 1;
      }
    } else {
      NewAskIsCalled(states[i - 1], actions[i - 1], a);
    }
  }

  lemma NoAskAtStart(states: seq<State>, actions: seq<Action>)
    requires IsRun(states, actions)
    ensures |states| == |actions| + 1 && states[0].asks == []
  {
  }

  /** Between its registration and a state in which it is guarded, an ask is guarded throughout. */
  lemma GuardedThroughout(states: seq<State>, actions: seq<Action>, m: nat, i: nat, j: nat, a: AskId)
    requires IsRun(states, actions) && RegistersAt(states, actions, m, i, a) && GuardedAt(states[i], a) && m < j <= i
    ensures GuardedAt(states[j], a) && states[j].asks[a].bridge == states[m].asks[a].bridge
            && states[j].asks[a].cid == states[m].asks[a].cid
  {
    hide IsRun;
    AsksGoForward(states, actions, m, j, a);
    AsksGoForward(states, actions, m + 1, j, a);
    AsksGoForward(states, actions, j, i, a);
  }

  predicate ReaderGone(s: State, b: BridgeId) {
    b < |s.links| && s.links[b].reader == Drained
  }

  /** Registering on a drained bridge strands the ask. */
  lemma RegisterStrands(s: State, a: AskId)
    requires AskInv(s) && Enabled(s, OnAsk(Register(a))) && ReaderGone(s, s.asks[a].bridge)
    ensures Stranded(Step(s, OnAsk(Register(a))), a)
  {
    assert AskOk(s, a);
    var s' := RegisterStep(s, a);
    assert s'.links[s.asks[a].bridge].pending[s.asks[a].cid] == a;
  }

  /** What giving up does to an ask. */
  lemma GivingUpEnds(s: State, x: Action, a: AskId)
    requires Sound(s) && Enabled(s, x) && GuardedAt(s, a) && GivesUp(s, x, a)
    ensures !GuardedAt(Step(s, x), a)
  {
    match x
    case OnRequest(r) =>
      assert AskOk(s, a);
      CancelEnds(s, s.asks[a].task, a);
    case OnAsk(k) => GivingUpAskEnds(s, k);
  }

  lemma CancelEnds(s: State, t: TaskId, a: AskId)
    requires RequestEnabled(s, Cancel(t)) && Asks(s, t, a) && a < |s.asks|
    ensures !GuardedAt(RequestStep(s, Cancel(t)), a)
  {
  }

  lemma GivingUpAskEnds(s: State, x: AskAction)
    requires AskEnabled(s, x) && (x.TimeOut? || x.WriteFails?)
    ensures !GuardedAt(AskStep(s, x), x.a)
  {
  }

  /** No entry for a guarded ask comes back, and a drain leaves none. */
  lemma DrainedOut(s: State, x: Action, a: AskId)
    requires Sound(s) && Enabled(s, x) && GuardedAt(s, a) && GuardedAt(Step(s, x), a)
    requires s.asks[a].bridge < |s.links| && ReaderGone(Step(s, x), s.asks[a].bridge)
    requires ReaderGone(s, s.asks[a].bridge) ==> !InMap(s.links[s.asks[a].bridge], a)
    ensures !InMap(Step(s, x).links[s.asks[a].bridge], a)
  {
    match x
    case OnRequest(r) => RequestAddsNothing(s, r, a);
    case OnWork(w) => WorkKeepsLinks(s, w);
    case OnAsk(k) => AskAddsNothing(s, k, a);
    case OnWorld(e) => WorldDrains(s, e, s.asks[a].bridge, a);
  }

  lemma WorldDrains(s: State, x: WorldAction, b: BridgeId, a: AskId)
    requires WorldEnabled(s, x) && b < |s.links| && ReaderGone(WorldStep(s, x), b)
    requires ReaderGone(s, b) ==> !InMap(s.links[b], a)
    ensures !InMap(WorldStep(s, x).links[b], a)
  {
  }

  lemma RequestAddsNothing(s: State, x: RequestAction, a: AskId)
    requires RequestEnabled(s, x) && GuardedAt(s, a) && s.asks[a].bridge < |s.links|
    ensures |RequestStep(s, x).links| == |s.links|
    ensures RequestStep(s, x).links[s.asks[a].bridge].reader == s.links[s.asks[a].bridge].reader
    ensures InMap(RequestStep(s, x).links[s.asks[a].bridge], a) ==> InMap(s.links[s.asks[a].bridge], a)
  {
  }

  lemma AskAddsNothing(s: State, x: AskAction, a: AskId)
    requires AskEnabled(s, x) && GuardedAt(s, a) && s.asks[a].bridge < |s.links|
    ensures |AskStep(s, x).links| == |s.links|
    ensures AskStep(s, x).links[s.asks[a].bridge].reader == s.links[s.asks[a].bridge].reader
    ensures InMap(AskStep(s, x).links[s.asks[a].bridge], a) ==> InMap(s.links[s.asks[a].bridge], a)
  {
    AskKeepsReaders(s, x);
  }

  /** An ask that registered in time is out of the map once the reader is gone. */
  lemma {:induction false} InTimeMeansOut(states: seq<State>, actions: seq<Action>, m: nat, i: nat, j: nat, a: AskId)
    requires IsRun(states, actions) && RegistersAt(states, actions, m, i, a) && GuardedAt(states[i], a) && m < j <= i
    requires !ReaderGone(states[m], states[m].asks[a].bridge)
    ensures states[m].asks[a].bridge < |states[j].links|
    ensures ReaderGone(states[j], states[m].asks[a].bridge) ==> !InMap(states[j].links[states[m].asks[a].bridge], a)
    decreases j
  {
    hide *;
    RegistersMeans(states, actions, m, i, a);
    GuardedThroughout(states, actions, m, i, j, a);
    RunsAreSound(states, actions, j);
    BridgeIsThere(states[j], a);
    RunIsSteps(states, actions, j - 1);
    if j == m + 1 {
      RegisterKeepsReader(states[m], a);
    } else {
      InTimeMeansOut(states, actions, m, i, j - 1, a);
      GuardedThroughout(states, actions, m, i, j - 1, a);
      RunsAreSound(states, actions, j - 1);
      if ReaderGone(states[j], states[m].asks[a].bridge) {
        DrainedOut(states[j - 1], actions[j - 1], a);
      }
    }
  }

  lemma RegistersMeans(states: seq<State>, actions: seq<Action>, m: nat, i: nat, a: AskId)
    requires RegistersAt(states, actions, m, i, a)
    ensures m < i < |states| && m < |actions| && actions[m] == OnAsk(Register(a)) && a < |states[m].asks|
  {
  }

  lemma BridgeIsThere(s: State, a: AskId)
    requires Sound(s) && GuardedAt(s, a)
    ensures a < |s.asks| && s.asks[a].bridge < |s.links|
  {
    assert AskOk(s, a);
  }

  lemma RegisterKeepsReader(s: State, a: AskId)
    requires Enabled(s, OnAsk(Register(a))) && a < |s.asks|
    ensures ReaderGone(Step(s, OnAsk(Register(a))), s.asks[a].bridge) ==> ReaderGone(s, s.asks[a].bridge)
  {
  }

  /** A registered ask without mail on a bridge whose reader is gone is stranded exactly when its registration came
      after the reader had cleared the map; otherwise it fails as soon as its line is written. */
  lemma StrandedExactly(states: seq<State>, actions: seq<Action>, m: nat, i: nat, a: AskId)
    requires IsRun(states, actions) && RegistersAt(states, actions, m, i, a) && GuardedAt(states[i], a)
    requires states[i].asks[a].mailbox == None && ReaderGone(states[i], states[i].asks[a].bridge)
    ensures Stranded(states[i], a) <==> ReaderGone(states[m], states[m].asks[a].bridge)
    ensures !Stranded(states[i], a) && states[i].asks[a].written ==> Enabled(states[i], OnAsk(SenderGone(a)))
  {
    GuardedThroughout(states, actions, m, i, i, a);
    RunsAreSound(states, actions, m);
    RunsAreSound(states, actions, i);
    assert AskOk(states[i], a);
    if ReaderGone(states[m], states[m].asks[a].bridge) {
      RegisterStrands(states[m], a);
      StaysStranded(states, actions, m, i, a);
    } else {
      InTimeMeansOut(states, actions, m, i, i, a);
    }
  }

  lemma StaysStranded(states: seq<State>, actions: seq<Action>, m: nat, i: nat, a: AskId)
    requires IsRun(states, actions) && RegistersAt(states, actions, m, i, a) && GuardedAt(states[i], a)
    requires Stranded(states[m + 1], a)
    ensures Stranded(states[i], a)
  {
    hide *;
    RegistersMeans(states, actions, m, i, a);
    NoAskAtStart(states, actions);
    StrandedAsksWaitForTheTimeout(states, actions, m + 1, i, a);
    if !Stranded(states[i], a) {
      var j :| m + 1 <= j < i && Stranded(states[j], a) && GivesUp(states[j], actions[j], a);
      GuardedThroughout(states, actions, m, i, j, a);
      GuardedThroughout(states, actions, m, i, j + 1, a);
      RunsAreSound(states, actions, j);
      RunIsSteps(states, actions, j);
      GivingUpEnds(states[j], actions[j], a);
    }
  }
}
