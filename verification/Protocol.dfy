/** The request protocol as a transition system: request tasks, the lock table with its sweep, the reply
    cache with its sweep, bridges with their reader tasks, and a subprocess that may write any line at all.
    Each action is one critical section or one await-free stretch of the source. */
module Protocol {
  import opened Wrappers
  import opened TextUtil
  import opened ConversationId
  import opened Serialization
  import opened ReplyCache
  import opened BridgeLink

  type TaskId = nat
  type BridgeId = nat

  datatype Config = Config(appId: string, fallback: string, maxChars: nat)

  /** What a task does while it owns the lock of its conversation. */
  datatype Work =
    | Entering
    | Deciding(missedAt: int, classified: bool)
    | Asking(missedAt: int, ask: AskId)
    | Replying(missedAt: int, text: string)
    | Leaving(reply: Option<string>)

  /** Every phase but the first and the last keeps one handle on a lock. */
  datatype Phase =
    | Arrived
    | Waiting(lock: LockId)
    | Holding(lock: LockId, work: Work)
    | Unlocked(lock: LockId, reply: Option<string>)
    | Finished(reply: Option<string>)

  datatype Task = Task(from: string, cid: string, msgId: Option<string>, phase: Phase)

  datatype Kind = FanAsk | IntentAsk(nanos: nat)

  /** `Guarded`: registered in the pending map, guard alive. `Ended(orphaned)`: gone; `orphaned` when its
      line had been written and not been answered. */
  datatype Stage = Called | Checked | Guarded | Ended(orphaned: bool)

  /** `mailbox` is the index, among the bridge's lines, of the line that was sent to this ask. */
  datatype Ask = Ask(task: TaskId, cid: string, kind: Kind, bridge: BridgeId, stage: Stage, written: bool,
                     mailbox: Option<nat>)

  datatype Event =
    | Lookup(key: string, at: int, hit: Option<string>)
    | Store(key: string, missedAt: int, at: int, text: string)

  datatype State = State(
    cfg: Config,
    now: int,
    table: LockTable,
    owner: map<LockId, TaskId>,
    tasks: map<TaskId, Task>,
    asks: seq<Ask>,
    links: seq<Link>,
    cache: Cache,
    log: seq<Event>,
    nanos: set<nat>)

  /** A request on its way to the lock of its conversation and away from it. */
  datatype RequestAction =
    | Arrive(t: TaskId, from: string, msgId: Option<string>)
    | AcquireLock(t: TaskId)
    | TakeLock(t: TaskId)
    | Unlock(t: TaskId)
    | DropLock(t: TaskId)
    | Cancel(t: TaskId)

  /** A request under the lock, outside an ask. */
  datatype WorkAction =
    | ConsultCache(t: TaskId)
    | StartIntentAsk(t: TaskId, b: BridgeId, n: nat)
    | StartFanAsk(t: TaskId, b: BridgeId)
    | ReplyText(t: TaskId, text: string)
    | ReplyNews(t: TaskId)
    | StoreReply(t: TaskId, d: nat)

  /** Inside `Bridge::ask`, and the caller's timeout. */
  datatype AskAction =
    | CheckAlive(a: AskId)
    | Register(a: AskId)
    | WriteLine(a: AskId)
    | WriteFails(a: AskId, reached: bool)
    | Receive(a: AskId)
    | SenderGone(a: AskId)
    | TimeOut(a: AskId)

  /** The clock, subprocesses with their readers, the sweeps. */
  datatype WorldAction =
    | Tick(d: nat)
    | Emit(b: BridgeId, cid: string, text: string, tag: Option<AskId>)
    | CloseStdout(b: BridgeId)
    | DrainPending(b: BridgeId)
    | SweepLocks(idle: nat)
    | SweepCaches
    | SpawnBridge

  datatype Action =
    | OnRequest(request: RequestAction)
    | OnWork(work: WorkAction)
    | OnAsk(ask: AskAction)
    | OnWorld(world: WorldAction)

  // ----- pure pieces of the handler

  predicate IsBlank(s: string) {
    forall i :: 0 <= i < |s| ==> IsWhite(s[i])
  }

  function CapReplyText(text: string, maxChars: nat): string {
    if maxChars == 0 || |text| <= maxChars then text else text[..maxChars - 1] + "\U{2026}"
  }

  /** The text a fan ask leaves behind: a non-blank answer, or the configured fallback. */
  function FinalText(cfg: Config, answer: Option<string>): string {
    CapReplyText(if answer.Some? && !IsBlank(answer.value) then answer.value else cfg.fallback, cfg.maxChars)
  }

  function Key(t: Task): Option<string> {
    CacheKey(t.from, t.msgId)
  }

  // ----- observations

  predicate HasHandle(p: Phase, l: LockId) {
    match p
    case Waiting(x) => x == l
    case Holding(x, _) => x == l
    case Unlocked(x, _) => x == l
    case _ => false
  }

  function Handles(tasks: map<TaskId, Task>, l: LockId): set<TaskId> {
    set t | t in tasks && HasHandle(tasks[t].phase, l)
  }

  predicate Working(s: State, t: TaskId) {
    t in s.tasks && s.tasks[t].phase.Holding?
  }

  function WorkOf(s: State, t: TaskId): Work
    requires Working(s, t)
  {
    s.tasks[t].phase.work
  }

  predicate InFlight(s: State, a: AskId) {
    a < |s.asks| && !s.asks[a].stage.Ended?
  }

  /** The ask is in flight, its bridge exists and its task is waiting for it. */
  predicate Running(s: State, a: AskId) {
    InFlight(s, a) && s.asks[a].bridge < |s.links| && Working(s, s.asks[a].task)
    && WorkOf(s, s.asks[a].task).Asking?
  }

  /** A line tagged `tag` would be a first answer to a line written on `b` under `cid`. */
  predicate FairAnswer(s: State, b: BridgeId, cid: string, tag: Option<AskId>) {
    b < |s.links| && tag.Some? && tag.value < |s.asks|
    && s.asks[tag.value].bridge == b && s.asks[tag.value].cid == cid && s.asks[tag.value].written
    && !Answered(s.links[b], tag.value)
  }

  // ----- actions

  function SetPhase(s: State, t: TaskId, p: Phase): State
    requires t in s.tasks
  {
    s.(tasks := s.tasks[t := s.tasks[t].(phase := p)])
  }

  function SetWork(s: State, t: TaskId, w: Work): State
    requires Working(s, t)
  {
    SetPhase(s, t, Holding(s.tasks[t].phase.lock, w))
  }

  function SetAsk(s: State, a: AskId, k: Ask): State
    requires a < |s.asks|
  {
    s.(asks := s.asks[a := k])
  }

  function SetLink(s: State, b: BridgeId, link: Link): State
    requires b < |s.links|
  {
    s.(links := s.links[b := link])
  }

  function ArriveStep(s: State, t: TaskId, from: string, msgId: Option<string>): State {
    s.(tasks := s.tasks[t := Task(from, FanCid(s.cfg.appId, from), msgId, Arrived)])
  }

  function AcquireStep(s: State, t: TaskId): State
    requires t in s.tasks
  {
    var cid := s.tasks[t].cid;
    SetPhase(s, t, Waiting(LockFor(s.table, cid))).(table := Acquired(s.table, cid, s.now))
  }

  function TakeLockStep(s: State, t: TaskId): State
    requires t in s.tasks && s.tasks[t].phase.Waiting?
  {
    var l := s.tasks[t].phase.lock;
    SetPhase(s, t, Holding(l, Entering)).(owner := s.owner[l := t])
  }

  function UnlockStep(s: State, t: TaskId): State
    requires Working(s, t) && WorkOf(s, t).Leaving?
  {
    var l := s.tasks[t].phase.lock;
    SetPhase(s, t, Unlocked(l, WorkOf(s, t).reply)).(owner := s.owner - {l})
  }

  /** The task is done and lets go of its handle. */
  function LetGoStep(s: State, t: TaskId, l: LockId, reply: Option<string>): State
    requires t in s.tasks
  {
    SetPhase(s, t, Finished(reply)).(table := Dropped(s.table, l))
  }

  function NewAsk(s: State, t: TaskId, b: BridgeId, cid: string, kind: Kind): State
    requires Working(s, t) && WorkOf(s, t).Deciding?
  {
    SetWork(s, t, Asking(WorkOf(s, t).missedAt, |s.asks|))
      .(asks := s.asks + [Ask(t, cid, kind, b, Called, false, None)])
  }

  /** The guard, once there is one, is dropped with the future and takes the id out of the map. */
  function LinkAfterAsk(s: State, a: AskId): Link
    requires Running(s, a)
  {
    var k := s.asks[a];
    if k.stage == Guarded then Unregistered(s.links[k.bridge], k.cid) else s.links[k.bridge]
  }

  predicate Orphaned(s: State, a: AskId)
    requires Running(s, a)
  {
    s.asks[a].written && !Answered(s.links[s.asks[a].bridge], a)
  }

  /** An ask future is gone and its task goes on to `next`. */
  function EndAsk(s: State, a: AskId, next: Work): State
    requires Running(s, a)
  {
    var k := s.asks[a];
    SetWork(SetLink(SetAsk(s, a, k.(stage := Ended(Orphaned(s, a)))), k.bridge, LinkAfterAsk(s, a)), k.task, next)
  }

  /** What the task does with the outcome of its ask. */
  function AfterAsk(s: State, a: AskId, answer: Option<string>): Work
    requires Running(s, a)
  {
    var m := WorkOf(s, s.asks[a].task).missedAt;
    if s.asks[a].kind.FanAsk? then Replying(m, FinalText(s.cfg, answer)) else Deciding(m, true)
  }

  function FinishAsk(s: State, a: AskId, answer: Option<string>): State
    requires Running(s, a)
  {
    EndAsk(s, a, AfterAsk(s, a, answer))
  }

  /** The sender of `a` stands in the map. */
  predicate InMap(b: Link, a: AskId) {
    exists c :: c in b.pending && b.pending[c] == a
  }

  function RegisterStep(s: State, a: AskId): State
    requires Running(s, a)
  {
    var k := s.asks[a];
    SetLink(SetAsk(s, a, k.(stage := Guarded)), k.bridge, Registered(s.links[k.bridge], k.cid, a))
  }

  /** A write error: the line may have reached the subprocess all the same, and the bridge is marked dead. */
  function WriteFailsMid(s: State, a: AskId, reached: bool): State
    requires Running(s, a)
  {
    var k := s.asks[a];
    SetLink(SetAsk(s, a, k.(written := reached)), k.bridge, s.links[k.bridge].(alive := false))
  }

  function ConsultCacheStep(s: State, t: TaskId): State
    requires Working(s, t)
  {
    match Key(s.tasks[t])
    case None => SetWork(s, t, Deciding(s.now, false))
    case Some(k) =>
      var hit := Found(s.cache, k, s.now);
      SetWork(s, t, if hit.Some? then Leaving(hit) else Deciding(s.now, false))
        .(cache := Pruned(s.cache, s.now), log := s.log + [Lookup(k, s.now, hit)])
  }

  function StoreReplyStep(s: State, t: TaskId, d: nat): State
    requires Working(s, t) && WorkOf(s, t).Replying?
  {
    var w := WorkOf(s, t);
    match Key(s.tasks[t])
    case None => SetWork(s, t, Leaving(Some(w.text)))
    case Some(k) =>
      SetWork(s, t, Leaving(Some(w.text)))
        .(cache := Stored(s.cache, k, w.text, s.now, s.now + d), now := s.now + d,
          log := s.log + [Store(k, w.missedAt, s.now + d, w.text)])
  }

  function EmitStep(s: State, b: BridgeId, cid: string, text: string, tag: Option<AskId>): State
    requires b < |s.links|
  {
    var link := s.links[b];
    var s' := SetLink(s, b, Dispatched(link, Emission(cid, text, tag, FairAnswer(s, b, cid, tag))));
    var to := Recipient(link, cid);
    if to.Some? && to.value < |s.asks| then
      SetAsk(s', to.value, s.asks[to.value].(mailbox := Some(|link.emitted|)))
    else s'
  }

  function CancelStep(s: State, t: TaskId): State
    requires t in s.tasks
    requires Working(s, t) && WorkOf(s, t).Asking? ==>
               Running(s, WorkOf(s, t).ask) && s.asks[WorkOf(s, t).ask].task == t
  {
    match s.tasks[t].phase
    case Waiting(l) => LetGoStep(s, t, l, None)
    case Holding(_, Asking(_, a)) => EndAsk(s, a, Leaving(None))
    case Holding(_, _) => SetWork(s, t, Leaving(None))
    case _ => SetPhase(s, t, Finished(None))
  }

  predicate RequestEnabled(s: State, x: RequestAction) {
    match x
    case Arrive(t, _, _) => t !in s.tasks
    case AcquireLock(t) => t in s.tasks && s.tasks[t].phase == Arrived
    case TakeLock(t) => t in s.tasks && s.tasks[t].phase.Waiting? && s.tasks[t].phase.lock !in s.owner
    case Unlock(t) => Working(s, t) && WorkOf(s, t).Leaving?
    case DropLock(t) => t in s.tasks && s.tasks[t].phase.Unlocked?
    case Cancel(t) =>
      t in s.tasks && !s.tasks[t].phase.Unlocked? && !s.tasks[t].phase.Finished?
      && (Working(s, t) ==> !WorkOf(s, t).Leaving?)
      && (Working(s, t) && WorkOf(s, t).Asking? ==> Running(s, WorkOf(s, t).ask) && s.asks[WorkOf(s, t).ask].task == t)
  }

  function RequestStep(s: State, x: RequestAction): State
    requires RequestEnabled(s, x)
  {
    match x
    case Arrive(t, from, msgId) => ArriveStep(s, t, from, msgId)
    case AcquireLock(t) => AcquireStep(s, t)
    case TakeLock(t) => TakeLockStep(s, t)
    case Unlock(t) => UnlockStep(s, t)
    case DropLock(t) => LetGoStep(s, t, s.tasks[t].phase.lock, s.tasks[t].phase.reply)
    case Cancel(t) => CancelStep(s, t)
  }

  predicate WorkEnabled(s: State, x: WorkAction) {
    Working(s, x.t)
    && match x
       case ConsultCache(t) => WorkOf(s, t) == Entering
       case StartIntentAsk(t, b, n) =>
         WorkOf(s, t).Deciding? && !WorkOf(s, t).classified && b < |s.links| && n !in s.nanos
       case StartFanAsk(t, b) => WorkOf(s, t).Deciding? && b < |s.links|
       case ReplyText(t, _) => WorkOf(s, t).Deciding?
       case ReplyNews(t) => WorkOf(s, t).Deciding?
       case StoreReply(t, _) => WorkOf(s, t).Replying?
  }

  function WorkStep(s: State, x: WorkAction): State
    requires WorkEnabled(s, x)
  {
    match x
    case ConsultCache(t) => ConsultCacheStep(s, t)
    case StartIntentAsk(t, b, n) => NewAsk(s, t, b, EphemeralCid(n), IntentAsk(n)).(nanos := s.nanos + {n})
    case StartFanAsk(t, b) => NewAsk(s, t, b, s.tasks[t].cid, FanAsk)
    case ReplyText(t, text) => SetWork(s, t, Replying(WorkOf(s, t).missedAt, CapReplyText(text, s.cfg.maxChars)))
    case ReplyNews(t) => SetWork(s, t, Leaving(None))
    case StoreReply(t, d) => StoreReplyStep(s, t, d)
  }

  predicate AskEnabled(s: State, x: AskAction) {
    Running(s, x.a)
    && var k := s.asks[x.a];
       match x
       case CheckAlive(_) => k.stage == Called
       case Register(_) => k.stage == Checked
       case WriteLine(_) => k.stage == Guarded && !k.written
       case WriteFails(_, _) => k.stage == Guarded && !k.written
       case Receive(_) =>
         k.stage == Guarded && k.written && k.mailbox.Some? && k.mailbox.value < |s.links[k.bridge].emitted|
       case SenderGone(a) =>
         k.stage == Guarded && k.written && k.mailbox == None && !InMap(s.links[k.bridge], a)
       case TimeOut(_) => true
  }

  function AskStep(s: State, x: AskAction): State
    requires AskEnabled(s, x)
  {
    var k := s.asks[x.a];
    match x
    case CheckAlive(a) =>
      if s.links[k.bridge].alive then SetAsk(s, a, k.(stage := Checked)) else FinishAsk(s, a, None)
    case Register(a) => RegisterStep(s, a)
    case WriteLine(a) => SetAsk(s, a, k.(written := true))
    case WriteFails(a, reached) => FinishAsk(WriteFailsMid(s, a, reached), a, None)
    case Receive(a) => FinishAsk(s, a, Some(s.links[k.bridge].emitted[k.mailbox.value].text))
    case SenderGone(a) => FinishAsk(s, a, None)
    case TimeOut(a) => FinishAsk(s, a, None)
  }

  predicate WorldEnabled(s: State, x: WorldAction) {
    match x
    case Emit(b, _, _, _) => b < |s.links| && s.links[b].reader == Reading
    case CloseStdout(b) => b < |s.links| && s.links[b].reader == Reading
    case DrainPending(b) => b < |s.links| && s.links[b].reader == AtEof
    case _ => true
  }

  function WorldStep(s: State, x: WorldAction): State
    requires WorldEnabled(s, x)
  {
    match x
    case Tick(d) => s.(now := s.now + d)
    case Emit(b, cid, text, tag) => EmitStep(s, b, cid, text, tag)
    case CloseStdout(b) => SetLink(s, b, s.links[b].(alive := false, reader := AtEof))
    case DrainPending(b) => SetLink(s, b, s.links[b].(pending := map[], reader := Drained))
    case SweepLocks(idle) => s.(table := Collected(s.table, s.now - idle))
    case SweepCaches => s.(cache := Pruned(s.cache, s.now))
    case SpawnBridge => s.(links := s.links + [FRESH_LINK])
  }

  predicate Enabled(s: State, x: Action) {
    match x
    case OnRequest(r) => RequestEnabled(s, r)
    case OnWork(w) => WorkEnabled(s, w)
    case OnAsk(k) => AskEnabled(s, k)
    case OnWorld(e) => WorldEnabled(s, e)
  }

  function Step(s: State, x: Action): State
    requires Enabled(s, x)
  {
    match x
    case OnRequest(r) => RequestStep(s, r)
    case OnWork(w) => WorkStep(s, w)
    case OnAsk(k) => AskStep(s, k)
    case OnWorld(e) => WorldStep(s, e)
  }

  function Initial(cfg: Config, now: int, workers: nat): State {
    State(cfg, now, EMPTY_TABLE, map[], map[], [], seq(workers, _ => FRESH_LINK), map[], [], {})
  }

  /** A run: states joined by enabled actions, from start-up on. */
  ghost predicate IsRun(states: seq<State>, actions: seq<Action>) {
    |states| == |actions| + 1
    && (exists cfg, now, workers :: states[0] == Initial(cfg, now, workers))
    && forall i :: 0 <= i < |actions| ==> Enabled(states[i], actions[i]) && states[i + 1] == Step(states[i], actions[i])
  }
}
