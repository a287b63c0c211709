/** Who owns what in the pending maps, and whose answer an ask is given. */
module ProtocolAsks {
  import opened Wrappers
  import opened ConversationId
  import opened BridgeLink
  import opened Protocol
  import opened ProtocolLocks

  /** `tag` names the ask itself, or an earlier ask of the same conversation on the same bridge that was given
      up with its line written and unanswered. */
  predicate OwnOrOrphan(s: State, a: AskId, tag: Option<AskId>)
    requires a < |s.asks|
  {
    tag == Some(a)
    || (tag.Some? && tag.value < a && s.asks[tag.value].cid == s.asks[a].cid
        && s.asks[tag.value].bridge == s.asks[a].bridge && s.asks[tag.value].stage == Ended(true))
  }

  /** What was sent to an ask is a line of its bridge under its id. */
  predicate MailOk(s: State, a: AskId)
    requires a < |s.asks| && s.asks[a].bridge < |s.links|
  {
    var k := s.asks[a];
    var lines := s.links[k.bridge].emitted;
    k.mailbox.Some? ==>
      k.mailbox.value < |lines| && lines[k.mailbox.value].cid == k.cid
      && (lines[k.mailbox.value].fair ==> OwnOrOrphan(s, a, lines[k.mailbox.value].tag))
  }

  /** A guarded ask without mail can still be reached by the reader, unless the reader is gone. */
  predicate Reachable(s: State, a: AskId)
    requires a < |s.asks| && s.asks[a].bridge < |s.links|
  {
    var k := s.asks[a];
    var link := s.links[k.bridge];
    k.stage == Guarded && k.mailbox == None ==>
      link.reader == Drained || (k.cid in link.pending && link.pending[k.cid] == a)
  }

  predicate CidOk(s: State, k: Ask)
    requires k.task in s.tasks
  {
    match k.kind
    case FanAsk => k.cid == s.tasks[k.task].cid
    case IntentAsk(n) => n in s.nanos && k.cid == EphemeralCid(n)
  }

  predicate AskOk(s: State, a: AskId)
    requires a < |s.asks|
  {
    var k := s.asks[a];
    k.bridge < |s.links| && k.task in s.tasks && CidOk(s, k)
    && (!k.stage.Ended? ==> Working(s, k.task) && WorkOf(s, k.task).Asking? && WorkOf(s, k.task).ask == a)
    && (k.stage == Called || k.stage == Checked ==> !k.written && k.mailbox == None)
    && (k.stage == Ended(true) ==> k.written)
    && (k.stage == Ended(false) && k.written ==> Answered(s.links[k.bridge], a))
    && Reachable(s, a) && MailOk(s, a)
  }

  ghost predicate AsksOk(s: State) {
    forall a :: 0 <= a < |s.asks| ==> AskOk(s, a)
  }

  predicate Asks(s: State, t: TaskId, a: AskId) {
    Working(s, t) && WorkOf(s, t).Asking? && WorkOf(s, t).ask == a
  }

  ghost predicate AskersOk(s: State) {
    forall t, a: AskId :: Asks(s, t, a) ==> InFlight(s, a) && s.asks[a].task == t
  }

  /** Of the asks under one id, only the latest can be in flight. */
  ghost predicate OneAtATime(s: State) {
    forall a, b :: 0 <= a < b < |s.asks| && s.asks[a].cid == s.asks[b].cid ==> s.asks[a].stage.Ended?
  }

  predicate EntryOk(s: State, b: BridgeId, c: string)
    requires b < |s.links| && c in s.links[b].pending
  {
    var a := s.links[b].pending[c];
    a < |s.asks| && s.asks[a].bridge == b && s.asks[a].cid == c
    && s.asks[a].stage == Guarded && s.asks[a].mailbox == None
  }

  ghost predicate PendingOk(s: State) {
    forall b, c :: 0 <= b < |s.links| && c in s.links[b].pending ==> EntryOk(s, b, c)
  }

  ghost predicate AskInv(s: State) {
    AsksOk(s) && AskersOk(s) && OneAtATime(s) && PendingOk(s)
  }

  // ----- consequences

  /** A pending entry under the id of an ask in flight is that ask's own. */
  lemma EntryIsOwn(s: State, a: AskId)
    requires AskInv(s) && InFlight(s, a) && s.asks[a].bridge < |s.links|
    requires s.asks[a].cid in s.links[s.asks[a].bridge].pending
    ensures s.links[s.asks[a].bridge].pending[s.asks[a].cid] == a
  {
    assert AskOk(s, a);
    assert EntryOk(s, s.asks[a].bridge, s.asks[a].cid);
  }

  /** Registering never displaces another ask's sender. */
  lemma RegisterFindsNoEntry(s: State, a: AskId)
    requires AskInv(s) && InFlight(s, a) && s.asks[a].stage != Guarded && s.asks[a].bridge < |s.links|
    ensures s.asks[a].cid !in s.links[s.asks[a].bridge].pending
  {
    var b, c := s.asks[a].bridge, s.asks[a].cid;
    if c in s.links[b].pending {
      assert EntryOk(s, b, c);
      EntryIsOwn(s, a);
    }
  }

  // ----- frames

  /** Everything one ask's clause looks at survived. */
  predicate AskUntouched(s: State, s': State, x: AskId)
    requires x < |s.asks| && s.asks[x].bridge < |s.links| && s.asks[x].task in s.tasks
  {
    var k := s.asks[x];
    x < |s'.asks| && s'.asks[x] == k && k.bridge < |s'.links|
    && k.task in s'.tasks && s'.tasks[k.task].cid == s.tasks[k.task].cid && s.nanos <= s'.nanos
    && s.links[k.bridge].emitted <= s'.links[k.bridge].emitted
    && (!k.stage.Ended? ==> Asks(s', k.task, x))
    && (k.stage == Guarded && k.mailbox == None ==>
          s'.links[k.bridge].reader == Drained
          || (s.links[k.bridge].reader != Drained && k.cid in s.links[k.bridge].pending
              && k.cid in s'.links[k.bridge].pending
              && s'.links[k.bridge].pending[k.cid] == s.links[k.bridge].pending[k.cid]))
  }

  /** Asks given up stay as they are. */
  ghost predicate OrphansStay(s: State, s': State) {
    |s.asks| <= |s'.asks| && forall o :: 0 <= o < |s.asks| && s.asks[o].stage.Ended? ==> s'.asks[o] == s.asks[o]
  }

  lemma AnsweredGrows(b: Link, b': Link, a: AskId)
    requires Answered(b, a) && b.emitted <= b'.emitted
    ensures Answered(b', a)
  {
    var k :| 0 <= k < |b.emitted| && b.emitted[k].tag == Some(a);
    assert b'.emitted[k].tag == Some(a);
  }

  lemma AskOkStays(s: State, s': State, x: AskId)
    requires x < |s.asks| && AskOk(s, x) && OrphansStay(s, s')
    requires AskUntouched(s, s', x)
    ensures AskOk(s', x)
  {
    var k := s.asks[x];
    if Answered(s.links[k.bridge], x) {
      AnsweredGrows(s.links[k.bridge], s'.links[k.bridge], x);
    }
  }

  /** Nothing about asks changed. */
  ghost predicate SameAsks(s: State, s': State) {
    s'.cfg == s.cfg && s'.asks == s.asks && s'.links == s.links && s'.nanos == s.nanos
    && (forall t :: t in s.tasks ==> t in s'.tasks && s'.tasks[t].cid == s.tasks[t].cid)
    && (forall t, a :: Asks(s', t, a) == Asks(s, t, a))
  }

  lemma SameAsksKeeps(s: State, s': State)
    requires AskInv(s) && SameAsks(s, s')
    ensures AskInv(s')
  {
    forall a | 0 <= a < |s'.asks| ensures AskOk(s', a) {
      assert AskOk(s, a);
      assert !s.asks[a].stage.Ended? ==> Asks(s', s.asks[a].task, a);
      AskOkStays(s, s', a);
    }
    forall b, c | 0 <= b < |s'.links| && c in s'.links[b].pending ensures EntryOk(s', b, c) {
      assert EntryOk(s, b, c);
    }
  }

  // ----- a new ask

  lemma NewAskKeeps(s: State, t: TaskId, b: BridgeId, cid: string, kind: Kind, nanos: set<nat>)
    requires LockInv(s) && AskInv(s) && Working(s, t) && WorkOf(s, t).Deciding? && b < |s.links|
    requires (kind == FanAsk && cid == s.tasks[t].cid && nanos == s.nanos)
             || (kind.IntentAsk? && kind.nanos !in s.nanos && cid == EphemeralCid(kind.nanos)
                 && nanos == s.nanos + {kind.nanos})
    ensures AskInv(NewAsk(s, t, b, cid, kind).(nanos := nanos))
  {
    hide FanCid;
    hide EphemeralCid;
    var s' := NewAsk(s, t, b, cid, kind).(nanos := nanos);
    var n := |s.asks|;
    forall a | 0 <= a < n && s.asks[a].cid == cid ensures s.asks[a].stage.Ended? {
      NewAskIsAlone(s, t, cid, kind, a);
    }
    forall u, a ensures Asks(s', u, a) == if u == t then a == n else Asks(s, u, a) {
    }
    forall a | 0 <= a < n ensures AskOk(s', a) {
      assert AskOk(s, a);
      assert !s.asks[a].stage.Ended? ==> Asks(s, s.asks[a].task, a) && Asks(s', s.asks[a].task, a);
      AskOkStays(s, s', a);
    }
    assert Asks(s', t, n);
    assert AskOk(s', n);
    forall c, d | 0 <= c < |s'.links| && d in s'.links[c].pending ensures EntryOk(s', c, d) {
      assert EntryOk(s, c, d);
    }
  }

  /** The lock of the conversation, or the fresh stamp of a classifier id, keeps earlier asks out. */
  lemma NewAskIsAlone(s: State, t: TaskId, cid: string, kind: Kind, a: AskId)
    requires LockInv(s) && AskInv(s) && Working(s, t) && WorkOf(s, t).Deciding? && a < |s.asks|
    requires (kind == FanAsk && cid == s.tasks[t].cid)
             || (kind.IntentAsk? && kind.nanos !in s.nanos && cid == EphemeralCid(kind.nanos))
    requires s.asks[a].cid == cid
    ensures s.asks[a].stage.Ended?
  {
    var k := s.asks[a];
    assert AskOk(s, a);
    assert s.tasks[k.task].cid == FanCid(s.cfg.appId, s.tasks[k.task].from);
    assert s.tasks[t].cid == FanCid(s.cfg.appId, s.tasks[t].from);
    match (k.kind, kind)
    case (FanAsk, FanAsk) =>
      if !k.stage.Ended? {
        MutualExclusion(s, t, k.task);
      }
    case (FanAsk, IntentAsk(n)) => FanNeverEphemeral(s.cfg.appId, s.tasks[k.task].from, n);
    case (IntentAsk(m), FanAsk) => FanNeverEphemeral(s.cfg.appId, s.tasks[t].from, m);
    case (IntentAsk(m), IntentAsk(n)) => EphemeralInjective(m, n);
  }

  // ----- the end of an ask

  lemma EndAskKeeps(s: State, a: AskId, next: Work)
    requires AskInv(s) && Running(s, a) && !next.Asking?
    ensures AskInv(EndAsk(s, a, next))
  {
    var s' := EndAsk(s, a, next);
    var b := s.asks[a].bridge;
    assert AskOk(s, a);
    forall u, x ensures Asks(s', u, x) == (Asks(s, u, x) && u != s.asks[a].task) {
    }
    forall x | 0 <= x < |s.asks| && x != a ensures AskOk(s', x) {
      assert AskOk(s, x);
      if !s.asks[x].stage.Ended? {
        assert Asks(s, s.asks[x].task, x);
        assert Asks(s, s.asks[a].task, a);
        assert s.asks[x].task != s.asks[a].task;
        assert Asks(s', s.asks[x].task, x);
        assert s.asks[x].cid != s.asks[a].cid;
      }
      AskOkStays(s, s', x);
    }
    assert AskOk(s', a);
    forall c, d | 0 <= c < |s'.links| && d in s'.links[c].pending ensures EntryOk(s', c, d) {
      assert EntryOk(s, c, d);
      assert s.links[c].pending[d] != a;
    }
  }

  // ----- inside an ask

  /** The stage or the `written` flag of one ask moves on before it is guarded, or its line is written. */
  lemma AskMovesKeeps(s: State, a: AskId, k: Ask)
    requires AskInv(s) && Running(s, a)
    requires (s.asks[a].stage == Called && k == s.asks[a].(stage := Checked))
             || (s.asks[a].stage == Guarded && exists w :: k == s.asks[a].(written := w))
    ensures AskInv(SetAsk(s, a, k))
  {
    var s' := SetAsk(s, a, k);
    forall u, x ensures Asks(s', u, x) == Asks(s, u, x) {
    }
    assert AskOk(s, a);
    assert AskOk(s', a);
    forall x | 0 <= x < |s.asks| && x != a ensures AskOk(s', x) {
      assert AskOk(s, x);
      assert !s.asks[x].stage.Ended? ==> Asks(s', s.asks[x].task, x);
      AskOkStays(s, s', x);
    }
    forall c, d | 0 <= c < |s'.links| && d in s'.links[c].pending ensures EntryOk(s', c, d) {
      assert EntryOk(s, c, d);
    }
  }

  lemma RegisterKeeps(s: State, a: AskId)
    requires AskInv(s) && Running(s, a) && s.asks[a].stage == Checked
    ensures AskInv(RegisterStep(s, a))
  {
    var s' := RegisterStep(s, a);
    RegisterFindsNoEntry(s, a);
    forall u, x ensures Asks(s', u, x) == Asks(s, u, x) {
    }
    assert AskOk(s, a);
    assert AskOk(s', a);
    forall x | 0 <= x < |s.asks| && x != a ensures AskOk(s', x) {
      assert AskOk(s, x);
      assert !s.asks[x].stage.Ended? ==> Asks(s', s.asks[x].task, x) && s.asks[x].cid != s.asks[a].cid;
      AskOkStays(s, s', x);
    }
    forall c, d | 0 <= c < |s'.links| && d in s'.links[c].pending ensures EntryOk(s', c, d) {
      if !(c == s.asks[a].bridge && d == s.asks[a].cid) {
        assert EntryOk(s, c, d);
      }
    }
  }

  // ----- the bridge side

  /** A bridge changes without touching its lines: it may die, and a drained reader has an empty map. */
  lemma LinkKeeps(s: State, b: BridgeId, link: Link)
    requires AskInv(s) && b < |s.links| && link.emitted == s.links[b].emitted
    requires (link.pending == s.links[b].pending && (s.links[b].reader == Drained ==> link.reader == Drained))
             || (link.pending == map[] && link.reader == Drained)
    ensures AskInv(SetLink(s, b, link))
  {
    var s' := SetLink(s, b, link);
    forall u, x ensures Asks(s', u, x) == Asks(s, u, x) {
    }
    forall x | 0 <= x < |s.asks| ensures AskOk(s', x) {
      assert AskOk(s, x);
      assert !s.asks[x].stage.Ended? ==> Asks(s', s.asks[x].task, x);
      AskOkStays(s, s', x);
    }
    forall c, d | 0 <= c < |s'.links| && d in s'.links[c].pending ensures EntryOk(s', c, d) {
      assert EntryOk(s, c, d);
    }
  }

  lemma SpawnKeeps(s: State)
    requires AskInv(s)
    ensures AskInv(s.(links := s.links + [FRESH_LINK]))
  {
    var s' := s.(links := s.links + [FRESH_LINK]);
    forall u, x ensures Asks(s', u, x) == Asks(s, u, x) {
    }
    forall x | 0 <= x < |s.asks| ensures AskOk(s', x) {
      assert AskOk(s, x);
      assert !s.asks[x].stage.Ended? ==> Asks(s', s.asks[x].task, x);
      AskOkStays(s, s', x);
    }
    forall c, d | 0 <= c < |s'.links| && d in s'.links[c].pending ensures EntryOk(s', c, d) {
      assert c < |s.links|;
      assert EntryOk(s, c, d);
    }
  }

  /** A fair line handed to `a` answers `a` or an orphan. */
  lemma FairMeansOwnOrOrphan(s: State, b: BridgeId, cid: string, tag: Option<AskId>)
    requires AskInv(s) && b < |s.links| && cid in s.links[b].pending && FairAnswer(s, b, cid, tag)
    ensures OwnOrOrphan(s, s.links[b].pending[cid], tag)
  {
    var a, o := s.links[b].pending[cid], tag.value;
    assert EntryOk(s, b, cid);
    assert AskOk(s, o);
    if o != a {
      assert s.asks[o].cid == s.asks[a].cid;
      assert o < a;
    }
  }

  lemma EmitKeeps(s: State, b: BridgeId, cid: string, text: string, tag: Option<AskId>)
    requires AskInv(s) && b < |s.links|
    ensures AskInv(EmitStep(s, b, cid, text, tag))
  {
    hide FanCid;
    hide EphemeralCid;
    var s' := EmitStep(s, b, cid, text, tag);
    if cid in s.links[b].pending {
      assert EntryOk(s, b, cid);
      EmitDelivers(s, b, cid, text, tag);
    }
    forall u, x ensures Asks(s', u, x) == Asks(s, u, x) {
    }
    forall x | 0 <= x < |s.asks| && !(cid in s.links[b].pending && s.links[b].pending[cid] == x) ensures AskOk(s', x) {
      assert AskOk(s, x);
      assert !s.asks[x].stage.Ended? ==> Asks(s', s.asks[x].task, x);
      AskOkStays(s, s', x);
    }
    EmitKeepsPending(s, b, cid, text, tag);
  }

  lemma EmitKeepsPending(s: State, b: BridgeId, cid: string, text: string, tag: Option<AskId>)
    requires AskInv(s) && b < |s.links|
    ensures PendingOk(EmitStep(s, b, cid, text, tag))
  {
    var s' := EmitStep(s, b, cid, text, tag);
    forall c, d | 0 <= c < |s'.links| && d in s'.links[c].pending ensures EntryOk(s', c, d) {
      assert EntryOk(s, c, d);
      assert cid in s.links[b].pending ==> EntryOk(s, b, cid);
    }
  }

  /** The ask that is handed the line is fine. */
  lemma EmitDelivers(s: State, b: BridgeId, cid: string, text: string, tag: Option<AskId>)
    requires AskInv(s) && b < |s.links| && cid in s.links[b].pending
    ensures AskOk(EmitStep(s, b, cid, text, tag), s.links[b].pending[cid])
  {
    var s' := EmitStep(s, b, cid, text, tag);
    var x := s.links[b].pending[cid];
    assert EntryOk(s, b, cid);
    assert AskOk(s, x);
    assert Asks(s', s.asks[x].task, x);
    assert s'.links[b].emitted[|s.links[b].emitted|] == Emission(cid, text, tag, FairAnswer(s, b, cid, tag));
    if FairAnswer(s, b, cid, tag) {
      FairMeansOwnOrOrphan(s, b, cid, tag);
    }
  }

  // ----- every action

  lemma CancelKeepsAsks(s: State, t: TaskId)
    requires AskInv(s) && RequestEnabled(s, Cancel(t))
    ensures AskInv(CancelStep(s, t))
  {
    if Working(s, t) && WorkOf(s, t).Asking? {
      EndAskKeeps(s, WorkOf(s, t).ask, Leaving(None));
    } else {
      SameAsksKeeps(s, CancelStep(s, t));
    }
  }

  lemma RequestIsSame(s: State, x: RequestAction)
    requires RequestEnabled(s, x) && !x.Cancel?
    ensures SameAsks(s, RequestStep(s, x))
  {
  }

  lemma RequestKeepsAsks(s: State, x: RequestAction)
    requires AskInv(s) && RequestEnabled(s, x)
    ensures AskInv(RequestStep(s, x))
  {
    if x.Cancel? {
      CancelKeepsAsks(s, x.t);
    } else {
      RequestIsSame(s, x);
      SameAsksKeeps(s, RequestStep(s, x));
    }
  }

  lemma ConsultIsSame(s: State, t: TaskId)
    requires WorkEnabled(s, ConsultCache(t))
    ensures SameAsks(s, ConsultCacheStep(s, t))
  {
  }

  lemma StoreIsSame(s: State, t: TaskId, d: nat)
    requires WorkEnabled(s, StoreReply(t, d))
    ensures SameAsks(s, StoreReplyStep(s, t, d))
  {
  }

  lemma WorkKeepsAsks(s: State, x: WorkAction)
    requires LockInv(s) && AskInv(s) && WorkEnabled(s, x)
    ensures AskInv(WorkStep(s, x))
  {
    match x
    case StartIntentAsk(t, b, n) => NewAskKeeps(s, t, b, EphemeralCid(n), IntentAsk(n), s.nanos + {n});
    case StartFanAsk(t, b) => NewAskKeeps(s, t, b, s.tasks[t].cid, FanAsk, s.nanos);
    case ConsultCache(t) =>
      ConsultIsSame(s, t);
      SameAsksKeeps(s, ConsultCacheStep(s, t));
    case StoreReply(t, d) =>
      StoreIsSame(s, t, d);
      SameAsksKeeps(s, StoreReplyStep(s, t, d));
    case _ => SameAsksKeeps(s, WorkStep(s, x));
  }

  lemma WriteFailsKeeps(s: State, a: AskId, reached: bool)
    requires AskInv(s) && AskEnabled(s, WriteFails(a, reached))
    ensures AskInv(AskStep(s, WriteFails(a, reached)))
  {
    var k := s.asks[a];
    var s1 := SetAsk(s, a, k.(written := reached));
    AskMovesKeeps(s, a, k.(written := reached));
    LinkKeeps(s1, k.bridge, s1.links[k.bridge].(alive := false));
    var mid := WriteFailsMid(s, a, reached);
    EndAskKeeps(mid, a, AfterAsk(mid, a, None));
  }

  lemma AskKeepsAsks(s: State, x: AskAction)
    requires AskInv(s) && AskEnabled(s, x)
    ensures AskInv(AskStep(s, x))
  {
    match x
    case CheckAlive(a) =>
      AskMovesKeeps(s, a, s.asks[a].(stage := Checked));
      EndAskKeeps(s, a, AfterAsk(s, a, None));
    case Register(a) => RegisterKeeps(s, a);
    case WriteLine(a) => AskMovesKeeps(s, a, s.asks[a].(written := true));
    case WriteFails(a, reached) => WriteFailsKeeps(s, a, reached);
    case Receive(a) =>
      EndAskKeeps(s, a, AfterAsk(s, a, Some(s.links[s.asks[a].bridge].emitted[s.asks[a].mailbox.value].text)));
    case SenderGone(a) => EndAskKeeps(s, a, AfterAsk(s, a, None));
    case TimeOut(a) => EndAskKeeps(s, a, AfterAsk(s, a, None));
  }

  lemma WorldKeepsAsks(s: State, x: WorldAction)
    requires AskInv(s) && WorldEnabled(s, x)
    ensures AskInv(WorldStep(s, x))
  {
    match x
    case Emit(b, cid, text, tag) => EmitKeeps(s, b, cid, text, tag);
    case CloseStdout(b) => LinkKeeps(s, b, s.links[b].(alive := false, reader := AtEof));
    case DrainPending(b) => LinkKeeps(s, b, s.links[b].(pending := map[], reader := Drained));
    case SpawnBridge => SpawnKeeps(s);
    case _ => SameAsksKeeps(s, WorldStep(s, x));
  }

  lemma StepKeepsAsks(s: State, x: Action)
    requires LockInv(s) && AskInv(s) && Enabled(s, x)
    ensures AskInv(Step(s, x))
  {
    match x
    case OnRequest(r) => RequestKeepsAsks(s, r);
    case OnWork(w) => WorkKeepsAsks(s, w);
    case OnAsk(k) => AskKeepsAsks(s, k);
    case OnWorld(e) => WorldKeepsAsks(s, e);
  }

  lemma InitialAsks(cfg: Config, now: int, workers: nat)
    ensures AskInv(Initial(cfg, now, workers))
  {
  }
}
