/** A run in which one message of a fan is answered with the late answer to the message before: the subprocess
    answers every line once and correctly, and no two messages of the fan are worked on at once. */
module ProtocolWitness {
  import opened Wrappers
  import opened ConversationId
  import opened Serialization
  import opened BridgeLink
  import opened Protocol
  import opened ProtocolLocks
  import opened ProtocolRuns
  import opened ProtocolStranded

  ghost predicate Reached(s: State) {
    exists states, actions :: IsRun(states, actions) && states[|states| - 1] == s
  }

  lemma ReachStep(s: State, x: Action)
    requires Reached(s) && Enabled(s, x)
    ensures Reached(Step(s, x))
  {
    var states, actions :| IsRun(states, actions) && states[|states| - 1] == s;
    var states', actions' := states + [Step(s, x)], actions + [x];
    assert states'[0] == states[0];
    forall i | 0 <= i < |actions'|
      ensures Enabled(states'[i], actions'[i]) && states'[i + 1] == Step(states'[i], actions'[i])
    {
      if i < |actions| {
        assert states'[i] == states[i] && actions'[i] == actions[i] && states'[i + 1] == states[i + 1];
      }
    }
    assert IsRun(states', actions');
  }

  lemma ReachedIsSound(s: State)
    requires Reached(s)
    ensures Sound(s)
  {
    var states, actions :| IsRun(states, actions) && states[|states| - 1] == s;
    RunsAreSound(states, actions, |states| - 1);
  }

  predicate Ready(s: State, t: TaskId, from: string) {
    Working(s, t) && WorkOf(s, t).Deciding? && s.tasks[t].from == from && s.tasks[t].cid == FanCid(s.cfg.appId, from)
  }

  /** A message arrives and gets its free lock. */
  lemma Message(s: State, t: TaskId, from: string) returns (s': State)
    requires Reached(s) && t !in s.tasks && LockFor(s.table, FanCid(s.cfg.appId, from)) !in s.owner
    ensures Reached(s') && Ready(s', t, from) && s'.cfg == s.cfg && s'.asks == s.asks && s'.links == s.links
    ensures s'.tasks.Keys == s.tasks.Keys + {t}
  {
    hide Reached;
    hide FanCid;
    var s1 := ArriveStep(s, t, from, None);
    ReachStep(s, OnRequest(Arrive(t, from, None)));
    var s2 := AcquireStep(s1, t);
    ReachStep(s1, OnRequest(AcquireLock(t)));
    var s3 := TakeLockStep(s2, t);
    ReachStep(s2, OnRequest(TakeLock(t)));
    s' := ConsultCacheStep(s3, t);
    ReachStep(s3, OnWork(ConsultCache(t)));
  }

  /** The message is asked on bridge 0 and its line is written. */
  lemma Question(s: State, t: TaskId, from: string) returns (s': State)
    requires Reached(s) && Ready(s, t, from) && |s.links| == 1
    requires s.links[0].alive && s.links[0].pending == map[]
    ensures Reached(s') && s'.cfg == s.cfg && Working(s', t) && WorkOf(s', t).Asking? && WorkOf(s', t).ask == |s.asks|
    ensures var cid := FanCid(s.cfg.appId, from);
            s'.asks == s.asks + [Ask(t, cid, FanAsk, 0, Guarded, true, None)]
            && s'.links == [s.links[0].(pending := map[cid := |s.asks|])]
    ensures s'.tasks.Keys == s.tasks.Keys && s'.tasks[t].cid == s.tasks[t].cid
    ensures s'.owner == s.owner && s'.table == s.table && s'.tasks[t].msgId == s.tasks[t].msgId
  {
    hide Reached;
    hide FanCid;
    var a := |s.asks|;
    var s1 := NewAsk(s, t, 0, s.tasks[t].cid, FanAsk);
    ReachStep(s, OnWork(StartFanAsk(t, 0)));
    var s2 := SetAsk(s1, a, s1.asks[a].(stage := Checked));
    ReachStep(s1, OnAsk(CheckAlive(a)));
    var s3 := RegisterStep(s2, a);
    ReachStep(s2, OnAsk(Register(a)));
    s' := SetAsk(s3, a, s3.asks[a].(written := true));
    ReachStep(s3, OnAsk(WriteLine(a)));
  }

  /** No answer in time: the ask is an orphan. */
  lemma Silence(s: State, cid: string) returns (s': State)
    requires Reached(s) && Working(s, 0) && WorkOf(s, 0).Asking? && WorkOf(s, 0).ask == 0
    requires s.asks == [Ask(0, cid, FanAsk, 0, Guarded, true, None)]
    requires s.links == [FRESH_LINK.(pending := map[cid := 0])]
    ensures Reached(s') && s'.cfg == s.cfg && s'.tasks.Keys == s.tasks.Keys && s'.tasks[0].cid == s.tasks[0].cid
    ensures Working(s', 0) && WorkOf(s', 0).Replying?
    ensures s'.asks == [Ask(0, cid, FanAsk, 0, Ended(true), true, None)] && s'.links == [FRESH_LINK]
  {
    s' := FinishAsk(s, 0, None);
    ReachStep(s, OnAsk(TimeOut(0)));
    assert s'.links[0] == FRESH_LINK;
  }

  /** The fallback is stored and sent, and the lock is free again. */
  lemma Leave(s: State, t: TaskId) returns (s': State)
    requires Reached(s) && Working(s, t) && WorkOf(s, t).Replying?
    ensures Reached(s') && s'.cfg == s.cfg && s'.tasks.Keys == s.tasks.Keys && s'.asks == s.asks && s'.links == s.links
    ensures LockFor(s'.table, s.tasks[t].cid) !in s'.owner
  {
    hide Reached;
    hide FanCid;
    var s1 := StoreReplyStep(s, t, 0);
    ReachStep(s, OnWork(StoreReply(t, 0)));
    ReachedIsSound(s1);
    assert HasHandle(s1.tasks[t].phase, s1.tasks[t].phase.lock);
    s' := UnlockStep(s1, t);
    ReachStep(s1, OnRequest(Unlock(t)));
  }

  /** The first message times out, is answered with the fallback and frees its lock. */
  lemma GivenUp(cfg: Config, from: string) returns (s': State)
    ensures Reached(s') && s'.cfg == cfg && s'.tasks.Keys == {0}
    ensures LockFor(s'.table, FanCid(cfg.appId, from)) !in s'.owner
    ensures s'.asks == [Ask(0, FanCid(cfg.appId, from), FanAsk, 0, Ended(true), true, None)] && s'.links == [FRESH_LINK]
  {
    var s0 := Initial(cfg, 0, 1);
    AtStart(cfg, 0, 1);
    var s1 := Message(s0, 0, from);
    var s2 := Question(s1, 0, from);
    var s3 := Silence(s2, FanCid(cfg.appId, from));
    s' := Leave(s3, 0);
  }

  /** The second message of the fan returns the answer to the first. */
  lemma StaleAnswerHappens(cfg: Config, from: string, text: string) returns (s: State)
    ensures Reached(s) && |s.asks| == 2 && Enabled(s, OnAsk(Receive(1)))
    ensures s.asks[0].cid == s.asks[1].cid == FanCid(cfg.appId, from)
    ensures s.links[0].emitted == [Emission(FanCid(cfg.appId, from), text, Some(0), true)]
    ensures s.asks[1].mailbox == Some(0)
  {
    var cid := FanCid(cfg.appId, from);
    var s1 := GivenUp(cfg, from);
    var s2 := Message(s1, 1, from);
    var s3 := Question(s2, 1, from);
    assert s3.asks[0] == s1.asks[0];
    assert FairAnswer(s3, 0, cid, Some(0));
    s := EmitStep(s3, 0, cid, text, Some(0));
    ReachStep(s3, OnWorld(Emit(0, cid, text, Some(0))));
  }

  /** An ask finds its bridge alive, registers after the reader has cleared the map, and is stranded. */
  lemma StrandedAskHappens(cfg: Config, from: string) returns (s: State)
    ensures Reached(s) && Stranded(s, 0)
  {
    hide Reached;
    hide FanCid;
    var s0 := Initial(cfg, 0, 1);
    AtStart(cfg, 0, 1);
    var s1 := Message(s0, 0, from);
    var s2 := NewAsk(s1, 0, 0, s1.tasks[0].cid, FanAsk);
    ReachStep(s1, OnWork(StartFanAsk(0, 0)));
    var s3 := SetAsk(s2, 0, s2.asks[0].(stage := Checked));
    ReachStep(s2, OnAsk(CheckAlive(0)));
    s := RegistersTooLate(s3);
  }

  lemma AtStart(cfg: Config, now: int, workers: nat)
    ensures Reached(Initial(cfg, now, workers))
  {
    var s0 := Initial(cfg, now, workers);
    assert IsRun([s0], []) && [s0][|[s0]| - 1] == s0;
  }

  lemma RegistersTooLate(s: State) returns (s': State)
    requires Reached(s) && |s.asks| == 1 && Running(s, 0) && |s.links| == 1 && s.links[0].reader == Reading
    requires s.asks[0].stage == Checked && s.asks[0].bridge == 0 && s.asks[0].mailbox == None
    ensures Reached(s') && Stranded(s', 0)
  {
    hide Reached;
    var s1 := SetLink(s, 0, s.links[0].(alive := false, reader := AtEof));
    ReachStep(s, OnWorld(CloseStdout(0)));
    var s2 := SetLink(s1, 0, s1.links[0].(pending := map[], reader := Drained));
    ReachStep(s1, OnWorld(DrainPending(0)));
    s' := RegisterStep(s2, 0);
    ReachStep(s2, OnAsk(Register(0)));
    assert s'.links[0].pending[s.asks[0].cid] == 0;
  }
}
