/** At most one task works on a conversation: every outstanding handle is on the lock the table holds, its
    reference count says how many there are, and the sweep only drops entries nobody else holds. */
module ProtocolLocks {
  import opened Wrappers
  import opened ConversationId
  import opened Serialization
  import opened Protocol
  import BridgeLink

  /** Table entries name distinct, already issued locks. */
  ghost predicate TableOk(s: State) {
    (forall c :: c in s.table.locks ==> s.table.locks[c].lock < s.table.nextLock)
    && OneLockEach(s.table)
  }

  /** Whoever has a handle has it on the lock that stands in the table for its conversation. */
  ghost predicate HandlesOk(s: State) {
    forall t, l :: t in s.tasks && HasHandle(s.tasks[t].phase, l) ==>
      s.tasks[t].cid in s.table.locks && s.table.locks[s.tasks[t].cid].lock == l
  }

  /** Reference counts: the table's own handle and one per task. */
  ghost predicate CountsOk(s: State) {
    forall c :: c in s.table.locks ==>
      Count(s.table, s.table.locks[c].lock) == 1 + |Handles(s.tasks, s.table.locks[c].lock)|
  }

  predicate Holds(s: State, t: TaskId, l: LockId) {
    Working(s, t) && s.tasks[t].phase.lock == l
  }

  ghost predicate OwnersOk(s: State) {
    (forall l :: l in s.owner ==> Holds(s, s.owner[l], l))
    && (forall t, l :: Holds(s, t, l) ==> l in s.owner && s.owner[l] == t)
  }

  ghost predicate CidsOk(s: State) {
    forall t :: t in s.tasks ==> s.tasks[t].cid == FanCid(s.cfg.appId, s.tasks[t].from)
  }

  ghost predicate LockInv(s: State) {
    TableOk(s) && HandlesOk(s) && CountsOk(s) && OwnersOk(s) && CidsOk(s)
  }

  /** Two tasks inside the critical section of one conversation are one task. */
  lemma MutualExclusion(s: State, t: TaskId, u: TaskId)
    requires LockInv(s)
    requires Working(s, t) && Working(s, u) && s.tasks[t].cid == s.tasks[u].cid
    ensures t == u
  {
    var l, m := s.tasks[t].phase.lock, s.tasks[u].phase.lock;
    assert HasHandle(s.tasks[t].phase, l) && HasHandle(s.tasks[u].phase, m);
    assert Holds(s, t, l) && Holds(s, u, m);
  }

  // ----- counting handles

  lemma HandlesAfter(tasks: map<TaskId, Task>, t: TaskId, x: Task, l: LockId)
    ensures |Handles(tasks[t := x], l)|
            == |Handles(tasks, l)|
               + (if HasHandle(x.phase, l) then 1 else 0)
               - (if t in tasks && HasHandle(tasks[t].phase, l) then 1 else 0)
  {
    var before, after := Handles(tasks, l), Handles(tasks[t := x], l);
    var others := before - {t};
    assert before == if t in tasks && HasHandle(tasks[t].phase, l) then others + {t} else others;
    assert after == if HasHandle(x.phase, l) then others + {t} else others;
  }

  lemma NoHandles(tasks: map<TaskId, Task>, l: LockId)
    requires forall t :: t in tasks ==> !HasHandle(tasks[t].phase, l)
    ensures |Handles(tasks, l)| == 0
  {
    assert Handles(tasks, l) == {};
  }

  lemma CountsAfter(s: State, t: TaskId, x: Task)
    ensures forall l :: |Handles(s.tasks[t := x], l)|
                        == |Handles(s.tasks, l)|
                           + (if HasHandle(x.phase, l) then 1 else 0)
                           - (if t in s.tasks && HasHandle(s.tasks[t].phase, l) then 1 else 0)
  {
    forall l ensures |Handles(s.tasks[t := x], l)|
                     == |Handles(s.tasks, l)|
                        + (if HasHandle(x.phase, l) then 1 else 0)
                        - (if t in s.tasks && HasHandle(s.tasks[t].phase, l) then 1 else 0)
    {
      HandlesAfter(s.tasks, t, x, l);
    }
  }

  // ----- one lemma per kind of change

  /** Nothing the invariant looks at changed, except what some task does under its lock. */
  ghost predicate SameLocks(s: State, s': State) {
    s'.cfg == s.cfg && s'.table == s.table && s'.owner == s.owner && s'.tasks.Keys == s.tasks.Keys
    && forall t :: t in s.tasks ==>
      s'.tasks[t].from == s.tasks[t].from && s'.tasks[t].cid == s.tasks[t].cid
      && (s'.tasks[t].phase == s.tasks[t].phase
          || (s.tasks[t].phase.Holding? && s'.tasks[t].phase.Holding?
              && s'.tasks[t].phase.lock == s.tasks[t].phase.lock))
  }

  lemma SameLocksKeeps(s: State, s': State)
    requires LockInv(s) && SameLocks(s, s')
    ensures LockInv(s')
  {
    forall t, l | t in s.tasks ensures HasHandle(s'.tasks[t].phase, l) == HasHandle(s.tasks[t].phase, l) {
    }
    forall l ensures Handles(s'.tasks, l) == Handles(s.tasks, l) {
    }
    forall t, l ensures Holds(s', t, l) == Holds(s, t, l) {
    }
  }

  lemma ArriveKeeps(s: State, t: TaskId, from: string, msgId: Option<string>)
    requires LockInv(s) && t !in s.tasks
    ensures LockInv(ArriveStep(s, t, from, msgId))
  {
    var s' := ArriveStep(s, t, from, msgId);
    CountsAfter(s, t, s'.tasks[t]);
    forall u, l ensures Holds(s', u, l) == Holds(s, u, l) {
    }
  }

  lemma AcquireKeeps(s: State, t: TaskId)
    requires LockInv(s) && t in s.tasks && s.tasks[t].phase == Arrived
    ensures LockInv(AcquireStep(s, t))
  {
    hide CountsOk;
    hide Count;
    var s' := AcquireStep(s, t);
    var cid := s.tasks[t].cid;
    var l := LockFor(s.table, cid);
    forall u, m | u in s'.tasks && HasHandle(s'.tasks[u].phase, m)
      ensures s'.tasks[u].cid in s'.table.locks && s'.table.locks[s'.tasks[u].cid].lock == m
    {
      assert u != t ==> HasHandle(s.tasks[u].phase, m);
    }
    forall u, m ensures Holds(s', u, m) == Holds(s, u, m) {
    }
    AcquireCounts(s, t);
  }

  lemma AcquireCounts(s: State, t: TaskId)
    requires LockInv(s) && t in s.tasks && s.tasks[t].phase == Arrived
    ensures CountsOk(AcquireStep(s, t))
  {
    var s' := AcquireStep(s, t);
    var cid := s.tasks[t].cid;
    var l := LockFor(s.table, cid);
    if cid !in s.table.locks {
      NoHandles(s.tasks, l);
    }
    forall c | c in s'.table.locks
      ensures Count(s'.table, s'.table.locks[c].lock) == 1 + |Handles(s'.tasks, s'.table.locks[c].lock)|
    {
      HandlesAfter(s.tasks, t, s'.tasks[t], s'.table.locks[c].lock);
    }
  }

  lemma TakeKeeps(s: State, t: TaskId)
    requires LockInv(s) && t in s.tasks && s.tasks[t].phase.Waiting? && s.tasks[t].phase.lock !in s.owner
    ensures LockInv(TakeLockStep(s, t))
  {
    var s' := TakeLockStep(s, t);
    var l := s.tasks[t].phase.lock;
    assert OwnersOk(s') by {
      forall u, m ensures Holds(s', u, m) == (Holds(s, u, m) || (u == t && m == l)) {
      }
    }
    SameHandles(s, s');
  }

  lemma UnlockKeeps(s: State, t: TaskId)
    requires LockInv(s) && Working(s, t) && WorkOf(s, t).Leaving?
    ensures LockInv(UnlockStep(s, t))
  {
    var s' := UnlockStep(s, t);
    var l := s.tasks[t].phase.lock;
    assert OwnersOk(s') by {
      assert Holds(s, t, l);
      forall u, m ensures Holds(s', u, m) == (Holds(s, u, m) && u != t) {
      }
    }
    SameHandles(s, s');
  }

  /** Handles, hence counts, depend on nothing but who has a handle on what. */
  lemma SameHandles(s: State, s': State)
    requires LockInv(s) && s'.table == s.table && s'.cfg == s.cfg && s'.tasks.Keys == s.tasks.Keys
    requires forall t :: t in s.tasks ==> s'.tasks[t].cid == s.tasks[t].cid && s'.tasks[t].from == s.tasks[t].from
    requires forall t, l :: t in s.tasks ==> HasHandle(s'.tasks[t].phase, l) == HasHandle(s.tasks[t].phase, l)
    ensures TableOk(s') && HandlesOk(s') && CountsOk(s') && CidsOk(s')
  {
    forall l ensures Handles(s'.tasks, l) == Handles(s.tasks, l) {
    }
  }

  lemma LetGoKeeps(s: State, t: TaskId, l: LockId, reply: Option<string>)
    requires LockInv(s) && t in s.tasks
    requires s.tasks[t].phase == Waiting(l) || (s.tasks[t].phase.Unlocked? && s.tasks[t].phase.lock == l)
    ensures LockInv(LetGoStep(s, t, l, reply))
  {
    var s' := LetGoStep(s, t, l, reply);
    forall u, m | u in s'.tasks && HasHandle(s'.tasks[u].phase, m) ensures u != t && HasHandle(s.tasks[u].phase, m) {
    }
    forall u, m ensures Holds(s', u, m) == Holds(s, u, m) {
    }
    LetGoCounts(s, t, l, reply);
  }

  lemma LetGoCounts(s: State, t: TaskId, l: LockId, reply: Option<string>)
    requires LockInv(s) && t in s.tasks && HasHandle(s.tasks[t].phase, l)
    ensures CountsOk(LetGoStep(s, t, l, reply))
  {
    var s' := LetGoStep(s, t, l, reply);
    forall c | c in s'.table.locks
      ensures Count(s'.table, s'.table.locks[c].lock) == 1 + |Handles(s'.tasks, s'.table.locks[c].lock)|
    {
      HandlesAfter(s.tasks, t, s'.tasks[t], s'.table.locks[c].lock);
    }
  }

  lemma SweepKeeps(s: State, cutoff: int)
    requires LockInv(s)
    ensures LockInv(s.(table := Collected(s.table, cutoff)))
  {
    var s' := s.(table := Collected(s.table, cutoff));
    forall t, l | t in s.tasks && HasHandle(s.tasks[t].phase, l)
      ensures s.tasks[t].cid in s'.table.locks && s'.table.locks[s.tasks[t].cid] == s.table.locks[s.tasks[t].cid]
    {
      assert t in Handles(s.tasks, l);
      assert |Handles(s.tasks, l)| > 0;
    }
    forall u, m ensures Holds(s', u, m) == Holds(s, u, m) {
    }
  }

  lemma EndAskSame(s: State, a: BridgeLink.AskId, next: Work)
    requires Running(s, a)
    ensures SameLocks(s, EndAsk(s, a, next))
  {
  }

  lemma WorkIsSame(s: State, x: WorkAction)
    requires WorkEnabled(s, x)
    ensures SameLocks(s, WorkStep(s, x))
  {
    hide CapReplyText;
    hide Key;
  }

  lemma AskIsSame(s: State, x: AskAction)
    requires AskEnabled(s, x)
    ensures SameLocks(s, AskStep(s, x))
  {
    match x
    case CheckAlive(a) => EndAskSame(s, a, AfterAsk(s, a, None));
    case WriteFails(a, reached) =>
      var mid := WriteFailsMid(s, a, reached);
      EndAskSame(mid, a, AfterAsk(mid, a, None));
    case Receive(a) =>
      EndAskSame(s, a, AfterAsk(s, a, Some(s.links[s.asks[a].bridge].emitted[s.asks[a].mailbox.value].text)));
    case SenderGone(a) => EndAskSame(s, a, AfterAsk(s, a, None));
    case TimeOut(a) => EndAskSame(s, a, AfterAsk(s, a, None));
    case _ =>
  }

  lemma CancelWorkIsSame(s: State, t: TaskId)
    requires RequestEnabled(s, Cancel(t)) && Working(s, t)
    ensures SameLocks(s, CancelStep(s, t))
  {
    if WorkOf(s, t).Asking? {
      EndAskSame(s, WorkOf(s, t).ask, Leaving(None));
    }
  }

  /** A request that never asked for its lock is gone. */
  lemma CancelArrivedKeeps(s: State, t: TaskId)
    requires LockInv(s) && t in s.tasks && s.tasks[t].phase == Arrived
    ensures LockInv(SetPhase(s, t, Finished(None)))
  {
    var s' := SetPhase(s, t, Finished(None));
    SameHandles(s, s');
    forall u, l ensures Holds(s', u, l) == Holds(s, u, l) {
    }
  }

  lemma CancelKeeps(s: State, t: TaskId)
    requires LockInv(s) && RequestEnabled(s, Cancel(t))
    ensures LockInv(CancelStep(s, t))
  {
    if Working(s, t) {
      CancelWorkIsSame(s, t);
      SameLocksKeeps(s, CancelStep(s, t));
    } else if s.tasks[t].phase == Arrived {
      CancelArrivedKeeps(s, t);
    } else {
      LetGoKeeps(s, t, s.tasks[t].phase.lock, None);
    }
  }

  lemma RequestKeeps(s: State, x: RequestAction)
    requires LockInv(s) && RequestEnabled(s, x)
    ensures LockInv(RequestStep(s, x))
  {
    match x
    case Arrive(t, from, msgId) => ArriveKeeps(s, t, from, msgId);
    case AcquireLock(t) => AcquireKeeps(s, t);
    case TakeLock(t) => TakeKeeps(s, t);
    case Unlock(t) => UnlockKeeps(s, t);
    case DropLock(t) => LetGoKeeps(s, t, s.tasks[t].phase.lock, s.tasks[t].phase.reply);
    case Cancel(t) => CancelKeeps(s, t);
  }

  lemma WorldIsSame(s: State, x: WorldAction)
    requires WorldEnabled(s, x) && !x.SweepLocks?
    ensures SameLocks(s, WorldStep(s, x))
  {
  }

  lemma WorldKeeps(s: State, x: WorldAction)
    requires LockInv(s) && WorldEnabled(s, x)
    ensures LockInv(WorldStep(s, x))
  {
    if x.SweepLocks? {
      SweepKeeps(s, s.now - x.idle);
    } else {
      WorldIsSame(s, x);
      SameLocksKeeps(s, WorldStep(s, x));
    }
  }

  lemma StepKeepsLocks(s: State, x: Action)
    requires LockInv(s) && Enabled(s, x)
    ensures LockInv(Step(s, x))
  {
    match x
    case OnRequest(r) => RequestKeeps(s, r);
    case OnWork(w) =>
      WorkIsSame(s, w);
      SameLocksKeeps(s, WorkStep(s, w));
    case OnAsk(k) =>
      AskIsSame(s, k);
      SameLocksKeeps(s, AskStep(s, k));
    case OnWorld(e) => WorldKeeps(s, e);
  }

  lemma InitialLocks(cfg: Config, now: int, workers: nat)
    ensures LockInv(Initial(cfg, now, workers))
  {
  }
}
