/** What holds over every run of the request protocol. */
module ProtocolRuns {
  import opened Wrappers
  import opened ConversationId
  import opened Serialization
  import opened ReplyCache
  import opened BridgeLink
  import opened Protocol
  import opened ProtocolLocks
  import opened ProtocolAsks
  import opened ProtocolCache

  ghost predicate Sound(s: State) {
    LockInv(s) && AskInv(s) && (NoColons(s) ==> CacheInv(s))
  }

  /** Requests are never forgotten, and their senders never change. */
  lemma TasksOnlyGrow(s: State, x: Action)
    requires Enabled(s, x)
    ensures forall t :: t in s.tasks ==> t in Step(s, x).tasks && Step(s, x).tasks[t].from == s.tasks[t].from
  {
    match x
    case OnRequest(r) => RequestKeepsSenders(s, r);
    case OnWork(w) => WorkIsSame(s, w);
    case OnAsk(k) => AskIsSame(s, k);
    case OnWorld(e) => WorldKeepsSenders(s, e);
  }

  lemma RequestKeepsSenders(s: State, x: RequestAction)
    requires RequestEnabled(s, x)
    ensures forall t :: t in s.tasks ==>
              t in RequestStep(s, x).tasks && RequestStep(s, x).tasks[t].from == s.tasks[t].from
  {
    if x.Cancel? && Working(s, x.t) {
      CancelWorkIsSame(s, x.t);
    }
  }

  lemma WorldKeepsSenders(s: State, x: WorldAction)
    requires WorldEnabled(s, x)
    ensures WorldStep(s, x).tasks == s.tasks
  {
  }

  lemma StepKeepsSound(s: State, x: Action)
    requires Sound(s) && Enabled(s, x)
    ensures Sound(Step(s, x))
  {
    StepKeepsLocks(s, x);
    StepKeepsAsks(s, x);
    if NoColons(Step(s, x)) {
      TasksOnlyGrow(s, x);
      StepKeepsCache(s, x);
    }
  }

  lemma {:induction false} RunsAreSound(states: seq<State>, actions: seq<Action>, i: nat)
    requires IsRun(states, actions) && i < |states|
    ensures Sound(states[i])
    decreases i
  {
    if i == 0 {
      var cfg, now, workers :| states[0] == Initial(cfg, now, workers);
      InitialLocks(cfg, now, workers);
      InitialAsks(cfg, now, workers);
      InitialCache(cfg, now, workers);
    } else {
      RunsAreSound(states, actions, i - 1);
      StepKeepsSound(states[i - 1], actions[i - 1]);
    }
  }

  // ----- one task per conversation

  /** In every state of every run: one task at most per conversation, every handle is on the lock in the
      table, and that lock's count is the table's handle plus one per task with a handle. */
  lemma OneTaskPerConversation(states: seq<State>, actions: seq<Action>, i: nat)
    requires IsRun(states, actions) && i < |states|
    ensures forall t, u :: Working(states[i], t) && Working(states[i], u)
                           && states[i].tasks[t].cid == states[i].tasks[u].cid
                           ==> t == u
    ensures forall t, l :: t in states[i].tasks && HasHandle(states[i].tasks[t].phase, l) ==>
              LockFor(states[i].table, states[i].tasks[t].cid) == l
              && Count(states[i].table, l) == 1 + |Handles(states[i].tasks, l)|
  {
    var s := states[i];
    RunsAreSound(states, actions, i);
    forall t, u | Working(s, t) && Working(s, u) && s.tasks[t].cid == s.tasks[u].cid ensures t == u {
      MutualExclusion(s, t, u);
    }
  }

  /** A sweep of a run forgets a conversation exactly when no request has a handle on its lock and nobody asked for it
      during the idle time. */
  lemma SweepsForgetIdleOnes(states: seq<State>, actions: seq<Action>, i: nat, idle: nat, cid: string)
    requires IsRun(states, actions) && i < |actions| && actions[i] == OnWorld(SweepLocks(idle))
    requires cid in states[i].table.locks
    ensures cid in states[i + 1].table.locks
            <==> (exists t | t in states[i].tasks ::
                    HasHandle(states[i].tasks[t].phase, states[i].table.locks[cid].lock))
                 || states[i].table.locks[cid].lastSeen + idle > states[i].now
  {
    var s := states[i];
    var l := s.table.locks[cid].lock;
    RunsAreSound(states, actions, i);
    SweptExactly(s.table, s.now - idle, cid);
    assert Count(s.table, l) == 1 + |Handles(s.tasks, l)|;
    if t :| t in s.tasks && HasHandle(s.tasks[t].phase, l) {
      assert t in Handles(s.tasks, l);
    }
    if t :| t in Handles(s.tasks, l) {
      assert HasHandle(s.tasks[t].phase, l);
    }
  }

  /** Hence one task at most per fan, whenever the openids involved are told apart. */
  lemma OneConversationPerFan(states: seq<State>, actions: seq<Action>, i: nat, t: TaskId, u: TaskId)
    requires IsRun(states, actions) && i < |states|
    requires t in states[i].tasks && u in states[i].tasks
    requires Distinguishable(states[i].cfg.appId, states[i].tasks[t].from)
    requires Distinguishable(states[i].cfg.appId, states[i].tasks[u].from)
    ensures states[i].tasks[t].cid == states[i].tasks[u].cid <==> states[i].tasks[t].from == states[i].tasks[u].from
  {
    RunsAreSound(states, actions, i);
    if states[i].tasks[t].cid == states[i].tasks[u].cid {
      FanCidInjective(states[i].cfg.appId, states[i].tasks[t].from, states[i].tasks[u].from);
    }
  }

  // ----- the pending maps

  /** Every pending entry belongs to exactly one ask in flight, the one under its id on that bridge; with no ask
      in flight on a bridge its map is empty. */
  lemma PendingEntriesAreOwned(states: seq<State>, actions: seq<Action>, i: nat, b: BridgeId)
    requires IsRun(states, actions) && i < |states| && b < |states[i].links|
    ensures forall c :: c in states[i].links[b].pending ==>
              forall a: AskId :: InFlight(states[i], a) && states[i].asks[a].cid == c
                                 <==> a == states[i].links[b].pending[c]
    ensures (forall a: AskId :: InFlight(states[i], a) ==> states[i].asks[a].bridge != b) ==>
              states[i].links[b].pending == map[]
  {
    var s := states[i];
    RunsAreSound(states, actions, i);
    forall c, a: AskId | c in s.links[b].pending
      ensures InFlight(s, a) && s.asks[a].cid == c <==> a == s.links[b].pending[c]
    {
      assert EntryOk(s, b, c);
    }
    if s.links[b].pending != map[] {
      PendingHasAsk(s, b);
    }
  }

  lemma PendingHasAsk(s: State, b: BridgeId)
    requires AskInv(s) && b < |s.links| && s.links[b].pending != map[]
    ensures exists a: AskId :: InFlight(s, a) && s.asks[a].bridge == b
  {
    var c :| c in s.links[b].pending;
    assert EntryOk(s, b, c);
    assert InFlight(s, s.links[b].pending[c]);
  }

  /** The ask whose future a step may end. */
  predicate Concerns(s: State, x: Action, a: AskId) {
    match x
    case OnAsk(k) => k.a == a
    case OnRequest(Cancel(t)) => Asks(s, t, a)
    case _ => false
  }

  /** An entry only ever leaves a map because its own ask ends, because the reader hands its ask a line under
      its id, or because the drained map is cleared. */
  lemma EntriesLeaveForTheirOwnReasons(states: seq<State>, actions: seq<Action>, i: nat, b: BridgeId, c: string)
    requires IsRun(states, actions) && i < |actions|
    requires b < |states[i].links| && c in states[i].links[b].pending
    ensures StayedOrLeft(states[i], actions[i], states[i + 1], b, c, states[i].links[b].pending[c])
  {
    RunsAreSound(states, actions, i);
    EntryStaysOrLeaves(states[i], actions[i], b, c);
  }

  lemma EndAskKeepsEntry(s: State, a: AskId, next: Work, b: BridgeId, c: string)
    requires AskInv(s) && Running(s, a) && b < |s.links| && c in s.links[b].pending && s.links[b].pending[c] != a
    ensures c in EndAsk(s, a, next).links[b].pending && EndAsk(s, a, next).links[b].pending[c] == s.links[b].pending[c]
  {
    if b == s.asks[a].bridge && c == s.asks[a].cid {
      EntryIsOwn(s, a);
    }
  }

  lemma AskKeepsEntry(s: State, x: AskAction, b: BridgeId, c: string)
    requires AskInv(s) && AskEnabled(s, x) && b < |s.links| && c in s.links[b].pending && s.links[b].pending[c] != x.a
    ensures c in AskStep(s, x).links[b].pending && AskStep(s, x).links[b].pending[c] == s.links[b].pending[c]
  {
    var a := x.a;
    match x
    case CheckAlive(_) => EndAskKeepsEntry(s, a, AfterAsk(s, a, None), b, c);
    case Register(_) => RegisterFindsNoEntry(s, a);
    case WriteFails(_, reached) =>
      var mid := WriteFailsMid(s, a, reached);
      if b == s.asks[a].bridge && c == s.asks[a].cid {
        EntryIsOwn(s, a);
      }
    case Receive(_) =>
      var line := s.links[s.asks[a].bridge].emitted[s.asks[a].mailbox.value];
      EndAskKeepsEntry(s, a, AfterAsk(s, a, Some(line.text)), b, c);
    case SenderGone(_) => EndAskKeepsEntry(s, a, AfterAsk(s, a, None), b, c);
    case TimeOut(_) => EndAskKeepsEntry(s, a, AfterAsk(s, a, None), b, c);
    case _ =>
  }

  /** What may have happened to the entry of `a` under `c` on `b`. */
  predicate StayedOrLeft(s: State, x: Action, s': State, b: BridgeId, c: string, a: AskId)
    requires b < |s.links|
  {
    b < |s'.links|
    && ((c in s'.links[b].pending && s'.links[b].pending[c] == a)
        || Concerns(s, x, a)
        || (x.OnWorld? && x.world.Emit? && x.world.b == b && x.world.cid == c
            && a < |s'.asks| && s'.asks[a].mailbox == Some(|s.links[b].emitted|))
        || x == OnWorld(DrainPending(b)))
  }

  lemma RequestKeepsEntry(s: State, x: RequestAction, b: BridgeId, c: string)
    requires AskInv(s) && RequestEnabled(s, x) && b < |s.links| && c in s.links[b].pending
    ensures StayedOrLeft(s, OnRequest(x), RequestStep(s, x), b, c, s.links[b].pending[c])
  {
    if x.Cancel? {
      if Working(s, x.t) && WorkOf(s, x.t).Asking? && WorkOf(s, x.t).ask != s.links[b].pending[c] {
        EndAskKeepsEntry(s, WorkOf(s, x.t).ask, Leaving(None), b, c);
      }
    } else {
      RequestIsSame(s, x);
    }
  }

  lemma WorkKeepsLinks(s: State, x: WorkAction)
    requires WorkEnabled(s, x)
    ensures WorkStep(s, x).links == s.links
  {
  }

  lemma WorldKeepsEntry(s: State, x: WorldAction, b: BridgeId, c: string)
    requires AskInv(s) && WorldEnabled(s, x) && b < |s.links| && c in s.links[b].pending
    ensures StayedOrLeft(s, OnWorld(x), WorldStep(s, x), b, c, s.links[b].pending[c])
  {
    assert EntryOk(s, b, c);
  }

  lemma EntryStaysOrLeaves(s: State, x: Action, b: BridgeId, c: string)
    requires Sound(s) && Enabled(s, x) && b < |s.links| && c in s.links[b].pending
    ensures StayedOrLeft(s, x, Step(s, x), b, c, s.links[b].pending[c])
  {
    match x
    case OnRequest(r) => RequestKeepsEntry(s, r, b, c);
    case OnWork(w) => WorkKeepsLinks(s, w);
    case OnAsk(k) =>
      if k.a == s.links[b].pending[c] {
        AskKeepsLinks(s, k);
      } else {
        AskKeepsEntry(s, k, b, c);
        AskKeepsLinks(s, k);
      }
    case OnWorld(e) => WorldKeepsEntry(s, e, b, c);
  }

  lemma AskKeepsLinks(s: State, x: AskAction)
    requires AskEnabled(s, x)
    ensures |AskStep(s, x).links| == |s.links|
  {
  }

  // ----- answers

  /** What an ask returns was written by its own bridge's subprocess under its own id; and when the line was a
      fair answer to something, it answers this ask or an orphan of the same conversation on that bridge. */
  lemma AnswersBelongToTheConversation(states: seq<State>, actions: seq<Action>, i: nat, a: AskId)
    requires IsRun(states, actions) && i < |actions| && actions[i] == OnAsk(Receive(a))
    ensures var s, k := states[i], states[i].asks[a];
            var line := s.links[k.bridge].emitted[k.mailbox.value];
            line.cid == k.cid
            && (k.kind == FanAsk ==> k.cid == FanCid(s.cfg.appId, s.tasks[k.task].from)
                                     && states[i + 1].tasks[k.task].phase.work.text
                                        == FinalText(s.cfg, Some(line.text)))
            && (line.fair ==> OwnOrOrphan(s, a, line.tag))
  {
    RunsAreSound(states, actions, i);
    assert AskOk(states[i], a);
  }

  /** An earlier ask of the conversation on the bridge was given up with its line unanswered. */
  predicate Orphan(s: State, a: AskId, o: AskId)
    requires a < |s.asks|
  {
    o < a && s.asks[o].cid == s.asks[a].cid && s.asks[o].bridge == s.asks[a].bridge && s.asks[o].stage == Ended(true)
  }

  /** With a subprocess that answers lines at most once each, an ask of a conversation without orphans on its
      bridge returns the answer to its own line. */
  lemma AnswersAreFresh(states: seq<State>, actions: seq<Action>, i: nat, a: AskId)
    requires IsRun(states, actions) && i < |actions| && actions[i] == OnAsk(Receive(a))
    requires var k := states[i].asks[a];
             k.bridge < |states[i].links| && forall m :: 0 <= m < |states[i].links[k.bridge].emitted| ==>
               states[i].links[k.bridge].emitted[m].fair
    requires forall o: AskId :: o < a ==> !Orphan(states[i], a, o)
    ensures var k := states[i].asks[a]; states[i].links[k.bridge].emitted[k.mailbox.value].tag == Some(a)
  {
    AnswersBelongToTheConversation(states, actions, i, a);
    var s, k := states[i], states[i].asks[a];
    var tag := s.links[k.bridge].emitted[k.mailbox.value].tag;
    assert OwnOrOrphan(s, a, tag);
    assert tag.Some? && tag.value < a ==> !Orphan(s, a, tag.value);
  }

  /** Exactly when a waiting ask can be handed, fairly, an answer that is not its own: some orphan of its
      conversation on its bridge is still unanswered. */
  lemma StaleAnswersExactly(states: seq<State>, actions: seq<Action>, i: nat, a: AskId)
    requires IsRun(states, actions) && i < |states| && a < |states[i].asks|
    requires var s, k := states[i], states[i].asks[a];
             k.bridge < |s.links| && s.links[k.bridge].reader == Reading && k.stage == Guarded && k.mailbox == None
    ensures var s, k := states[i], states[i].asks[a];
            (exists tag :: tag != Some(a) && FairAnswer(s, k.bridge, k.cid, tag))
            <==> (exists o: AskId :: o < a && Orphan(s, a, o) && !Answered(s.links[k.bridge], o))
    ensures var s, k := states[i], states[i].asks[a];
            forall text, tag :: FairAnswer(s, k.bridge, k.cid, tag) ==>
              WorldEnabled(s, Emit(k.bridge, k.cid, text, tag))
              && WorldStep(s, Emit(k.bridge, k.cid, text, tag)).asks[a].mailbox == Some(|s.links[k.bridge].emitted|)
  {
    var s, k := states[i], states[i].asks[a];
    RunsAreSound(states, actions, i);
    assert AskOk(s, a);
    assert k.cid in s.links[k.bridge].pending && s.links[k.bridge].pending[k.cid] == a;
    if tag :| tag != Some(a) && FairAnswer(s, k.bridge, k.cid, tag) {
      FairMeansOwnOrOrphan(s, k.bridge, k.cid, tag);
      assert Orphan(s, a, tag.value);
    }
    if o: AskId :| o < a && Orphan(s, a, o) && !Answered(s.links[k.bridge], o) {
      assert AskOk(s, o);
      assert FairAnswer(s, k.bridge, k.cid, Some(o));
    }
  }

  // ----- the reply cache

  /** With colon-free senders: a second computed reply to one message comes at least the lifetime after the
      first was stored, and every lookup in between is answered with the first. */
  lemma RetriesGetTheFirstReply(states: seq<State>, actions: seq<Action>, i: nat)
    requires IsRun(states, actions) && i < |states| && NoColons(states[i])
    ensures StoresApart(states[i].log) && RetriesAnswered(states[i].log) && HitsWereStored(states[i].log)
    ensures forall t, d :: i < |actions| && actions[i] == OnWork(StoreReply(t, d)) && Key(states[i].tasks[t]).Some? ==>
              Key(states[i].tasks[t]).value !in states[i].cache
  {
    RunsAreSound(states, actions, i);
    forall t, d | i < |actions| && actions[i] == OnWork(StoreReply(t, d)) && Key(states[i].tasks[t]).Some?
      ensures Key(states[i].tasks[t]).value !in states[i].cache
    {
      StoreFindsNoEntry(states[i], t, d);
    }
  }
}
