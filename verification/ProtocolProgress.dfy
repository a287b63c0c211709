/** No request is ever stuck: how much each of them has still to do, who can move, and how all of them end. */
module ProtocolProgress {
  import opened Wrappers
  import opened Serialization
  import opened BridgeLink
  import opened Protocol
  import opened ProtocolLocks
  import opened ProtocolAsks
  import opened ProtocolRuns

  /** The request an action belongs to; an arrival only makes one. */
  function Whose(s: State, x: Action): Option<TaskId> {
    match x
    case OnRequest(r) => if r.Arrive? then None else Some(r.t)
    case OnWork(w) => Some(w.t)
    case OnAsk(k) => if k.a < |s.asks| then Some(s.asks[k.a].task) else None
    case OnWorld(_) => None
  }

  const LONGEST: nat := 16

  function AskRank(k: Ask): nat {
    (if k.kind.FanAsk? then 4 else 9)
    + match k.stage
      case Called => 3
      case Checked => 2
      case Guarded => if k.written then 0 else 1
      case Ended(_) => 0
  }

  function WorkRank(s: State, w: Work): nat {
    match w
    case Entering => 14
    case Deciding(_, classified) => if classified then 8 else 13
    case Asking(_, a) => if a < |s.asks| then AskRank(s.asks[a]) else 4
    case Replying(_, _) => 3
    case Leaving(_) => 2
  }

  /** How many actions of its own a request has still before it at most. */
  function Rank(s: State, t: TaskId): (r: nat)
    requires t in s.tasks
    ensures r <= LONGEST
    ensures r == 0 ==> s.tasks[t].phase.Finished?
  {
    match s.tasks[t].phase
    case Arrived => 16
    case Waiting(_) => 15
    case Holding(_, w) => WorkRank(s, w)
    case Unlocked(_, _) => 1
    case Finished(_) => 0
  }

  // ----- every action of a request brings it nearer to its end

  lemma EndAskLowers(s: State, a: AskId, next: Work)
    requires Running(s, a) && !next.Asking?
    ensures var t := s.asks[a].task; Rank(EndAsk(s, a, next), t) == WorkRank(s, next)
  {
  }

  lemma RequestLowers(s: State, x: RequestAction)
    requires Sound(s) && RequestEnabled(s, x) && !x.Arrive?
    ensures Rank(RequestStep(s, x), x.t) < Rank(s, x.t)
  {
    hide Sound;
    if x.Cancel? && Working(s, x.t) && WorkOf(s, x.t).Asking? {
      EndAskLowers(s, WorkOf(s, x.t).ask, Leaving(None));
    }
  }

  lemma WorkLowers(s: State, x: WorkAction)
    requires WorkEnabled(s, x)
    ensures Rank(WorkStep(s, x), x.t) < Rank(s, x.t)
  {
  }

  lemma FinishLowers(s: State, a: AskId, answer: Option<string>)
    requires Running(s, a) && Asks(s, s.asks[a].task, a)
    ensures var t := s.asks[a].task; Rank(FinishAsk(s, a, answer), t) < Rank(s, t)
  {
  }

  lemma RunningIsAsked(s: State, a: AskId)
    requires Sound(s) && Running(s, a)
    ensures s.asks[a].task in s.tasks && Asks(s, s.asks[a].task, a)
  {
    assert AskOk(s, a);
  }

  lemma SetAskLowers(s: State, a: AskId, k: Ask, t: TaskId)
    requires a < |s.asks| && Asks(s, t, a) && AskRank(k) < AskRank(s.asks[a])
    ensures Rank(SetAsk(s, a, k), t) < Rank(s, t)
  {
  }

  lemma AskLowers(s: State, x: AskAction)
    requires Sound(s) && AskEnabled(s, x)
    ensures var t := s.asks[x.a].task;
            t in s.tasks && t in AskStep(s, x).tasks && Rank(AskStep(s, x), t) < Rank(s, t)
  {
    RunningIsAsked(s, x.a);
    hide Sound;
    AskLowersAsker(s, x);
  }

  lemma AskLowersAsker(s: State, x: AskAction)
    requires AskEnabled(s, x) && Asks(s, s.asks[x.a].task, x.a)
    ensures var t := s.asks[x.a].task;
            t in s.tasks && t in AskStep(s, x).tasks && Rank(AskStep(s, x), t) < Rank(s, t)
  {
    var k := s.asks[x.a];
    match x
    case CheckAlive(a) =>
      SetAskLowers(s, a, k.(stage := Checked), k.task);
      FinishLowers(s, a, None);
    case Register(a) => SetAskLowers(s, a, k.(stage := Guarded), k.task);
    case WriteLine(a) => SetAskLowers(s, a, k.(written := true), k.task);
    case WriteFails(a, reached) => WriteFailsLowers(s, a, reached);
    case Receive(a) => FinishLowers(s, a, Some(s.links[k.bridge].emitted[k.mailbox.value].text));
    case SenderGone(a) => FinishLowers(s, a, None);
    case TimeOut(a) => FinishLowers(s, a, None);
  }

  lemma WriteFailsLowers(s: State, a: AskId, reached: bool)
    requires Running(s, a) && Asks(s, s.asks[a].task, a) && s.asks[a].stage == Guarded && !s.asks[a].written
    ensures var t := s.asks[a].task; Rank(FinishAsk(WriteFailsMid(s, a, reached), a, None), t) < Rank(s, t)
  {
    var mid := WriteFailsMid(s, a, reached);
    assert Rank(mid, s.asks[a].task) <= Rank(s, s.asks[a].task);
    FinishLowers(mid, a, None);
    hide FinishAsk;
    hide Rank;
  }

  // ----- and no other

  lemma NoneElseAsks(s: State, u: TaskId, a: AskId)
    requires Sound(s) && a < |s.asks| && s.asks[a].task != u
    ensures !Asks(s, u, a)
  {
  }

  /** The end of an ask changes nothing for a request it does not belong to. */
  lemma EndAskSpares(s: State, a: AskId, next: Work, u: TaskId)
    requires Running(s, a) && u in s.tasks && s.asks[a].task != u && !Asks(s, u, a)
    ensures u in EndAsk(s, a, next).tasks && Rank(EndAsk(s, a, next), u) == Rank(s, u)
  {
  }

  lemma RequestSpares(s: State, x: RequestAction, u: TaskId)
    requires Sound(s) && RequestEnabled(s, x) && u in s.tasks && (x.Arrive? || x.t != u)
    ensures u in RequestStep(s, x).tasks && Rank(RequestStep(s, x), u) == Rank(s, u)
  {
    if x.Cancel? && Working(s, x.t) && WorkOf(s, x.t).Asking? {
      CancelSpares(s, x.t, u);
    } else {
      RequestLeavesOthers(s, x, u);
    }
  }

  lemma CancelSpares(s: State, t: TaskId, u: TaskId)
    requires Sound(s) && RequestEnabled(s, Cancel(t)) && u in s.tasks && t != u
    requires Working(s, t) && WorkOf(s, t).Asking?
    ensures u in CancelStep(s, t).tasks && Rank(CancelStep(s, t), u) == Rank(s, u)
  {
    var a := WorkOf(s, t).ask;
    NoneElseAsks(s, u, a);
    EndAskSpares(s, a, Leaving(None), u);
    hide Sound;
    hide Rank;
  }

  lemma RequestLeavesOthers(s: State, x: RequestAction, u: TaskId)
    requires RequestEnabled(s, x) && u in s.tasks && (x.Arrive? || x.t != u)
    requires !(x.Cancel? && Working(s, x.t) && WorkOf(s, x.t).Asking?)
    ensures u in RequestStep(s, x).tasks && Rank(RequestStep(s, x), u) == Rank(s, u)
  {
    assert RequestStep(s, x).asks == s.asks;
    assert RequestStep(s, x).tasks[u] == s.tasks[u];
    hide RequestStep;
    hide RequestEnabled;
  }

  lemma AskIsKnown(s: State, u: TaskId)
    requires Sound(s) && Working(s, u) && WorkOf(s, u).Asking?
    ensures WorkOf(s, u).ask < |s.asks|
  {
    assert Asks(s, u, WorkOf(s, u).ask);
  }

  lemma WorkSpares(s: State, x: WorkAction, u: TaskId)
    requires Sound(s) && WorkEnabled(s, x) && u in s.tasks && x.t != u
    ensures u in WorkStep(s, x).tasks && Rank(WorkStep(s, x), u) == Rank(s, u)
  {
    if Working(s, u) && WorkOf(s, u).Asking? {
      AskIsKnown(s, u);
    }
    WorkLeavesOthers(s, x, u);
    hide Sound;
    hide WorkStep;
    hide WorkEnabled;
  }

  lemma WorkLeavesOthers(s: State, x: WorkAction, u: TaskId)
    requires WorkEnabled(s, x) && u in s.tasks && x.t != u
    ensures u in WorkStep(s, x).tasks && WorkStep(s, x).tasks[u] == s.tasks[u] && s.asks <= WorkStep(s, x).asks
  {
  }

  lemma AskSpares(s: State, x: AskAction, u: TaskId)
    requires Sound(s) && AskEnabled(s, x) && u in s.tasks && s.asks[x.a].task != u
    ensures u in AskStep(s, x).tasks && Rank(AskStep(s, x), u) == Rank(s, u)
  {
    NoneElseAsks(s, u, x.a);
    hide Sound;
    AskLeavesOthers(s, x, u);
  }

  lemma FinishSpares(s: State, a: AskId, answer: Option<string>, u: TaskId)
    requires Running(s, a) && u in s.tasks && s.asks[a].task != u && !Asks(s, u, a)
    ensures u in FinishAsk(s, a, answer).tasks && Rank(FinishAsk(s, a, answer), u) == Rank(s, u)
  {
    EndAskSpares(s, a, AfterAsk(s, a, answer), u);
  }

  lemma SetAskSpares(s: State, a: AskId, k: Ask, u: TaskId)
    requires a < |s.asks| && u in s.tasks && !Asks(s, u, a)
    ensures Rank(SetAsk(s, a, k), u) == Rank(s, u)
  {
  }

  lemma AskLeavesOthers(s: State, x: AskAction, u: TaskId)
    requires AskEnabled(s, x) && u in s.tasks && s.asks[x.a].task != u && !Asks(s, u, x.a)
    ensures u in AskStep(s, x).tasks && Rank(AskStep(s, x), u) == Rank(s, u)
  {
    var k := s.asks[x.a];
    match x
    case CheckAlive(a) =>
      SetAskSpares(s, a, k.(stage := Checked), u);
      FinishSpares(s, a, None, u);
    case Register(a) => SetAskSpares(s, a, k.(stage := Guarded), u);
    case WriteLine(a) => SetAskSpares(s, a, k.(written := true), u);
    case WriteFails(a, reached) =>
      SetAskSpares(s, a, k.(written := reached), u);
      FinishSpares(WriteFailsMid(s, a, reached), a, None, u);
    case Receive(a) => FinishSpares(s, a, Some(s.links[k.bridge].emitted[k.mailbox.value].text), u);
    case SenderGone(a) => FinishSpares(s, a, None, u);
    case TimeOut(a) => FinishSpares(s, a, None, u);
  }

  lemma EmitLeavesAsks(s: State, b: BridgeId, cid: string, text: string, tag: Option<AskId>)
    requires b < |s.links|
    ensures var s' := EmitStep(s, b, cid, text, tag);
            s'.tasks == s.tasks && |s'.asks| == |s.asks|
            && forall a :: 0 <= a < |s.asks| ==>
              s'.asks[a].kind == s.asks[a].kind && s'.asks[a].stage == s.asks[a].stage
              && s'.asks[a].written == s.asks[a].written
  {
  }

  lemma WorldSpares(s: State, x: WorldAction, u: TaskId)
    requires WorldEnabled(s, x) && u in s.tasks
    ensures u in WorldStep(s, x).tasks && Rank(WorldStep(s, x), u) == Rank(s, u)
  {
    if x.Emit? {
      EmitLeavesAsks(s, x.b, x.cid, x.text, x.tag);
    } else {
      assert WorldStep(s, x).asks == s.asks && WorldStep(s, x).tasks == s.tasks;
    }
    hide EmitStep;
  }

  /** An action lowers the rank of the request it belongs to and leaves every other rank as it is. */
  lemma StepLowersItsOwn(s: State, x: Action, t: TaskId)
    requires Sound(s) && Enabled(s, x) && t in s.tasks
    ensures t in Step(s, x).tasks
    ensures Whose(s, x) == Some(t) ==> Rank(Step(s, x), t) < Rank(s, t)
    ensures Whose(s, x) != Some(t) ==> Rank(Step(s, x), t) == Rank(s, t)
  {
    hide Rank;
    hide Sound;
    if Whose(s, x) == Some(t) {
      match x
      case OnRequest(r) => RequestLowers(s, r);
      case OnWork(w) => WorkLowers(s, w);
      case OnAsk(k) => AskLowers(s, k);
    } else {
      match x
      case OnRequest(r) => RequestSpares(s, r, t);
      case OnWork(w) => WorkSpares(s, w, t);
      case OnAsk(k) => AskSpares(s, k, t);
      case OnWorld(e) => WorldSpares(s, e, t);
    }
  }

  // ----- runs

  /** How many of the first `i` actions belong to the request. */
  function OwnActions(states: seq<State>, actions: seq<Action>, t: TaskId, i: nat): nat
    requires i <= |actions| <= |states|
  {
    if i == 0 then 0
    else OwnActions(states, actions, t, i - 1) + if Whose(states[i - 1], actions[i - 1]) == Some(t) then 1 else 0
  }

  /** Nothing belongs to a request that has not arrived. */
  lemma OwnerHasArrived(s: State, x: Action)
    requires Sound(s) && Enabled(s, x) && Whose(s, x).Some?
    ensures Whose(s, x).value in s.tasks
  {
    if x.OnAsk? {
      assert AskOk(s, x.ask.a);
    }
  }

  lemma TasksComeByArriving(s: State, x: Action, t: TaskId)
    requires Sound(s) && Enabled(s, x) && t !in s.tasks && t in Step(s, x).tasks
    ensures Whose(s, x) != Some(t) && Rank(Step(s, x), t) == LONGEST
  {
    match x
    case OnRequest(r) => RequestMakes(s, r, t);
    case OnWork(w) => WorkIsSame(s, w);
    case OnAsk(k) => AskIsSame(s, k);
    case OnWorld(e) => WorldKeepsSenders(s, e);
  }

  lemma RequestMakes(s: State, x: RequestAction, t: TaskId)
    requires Sound(s) && RequestEnabled(s, x) && t !in s.tasks && t in RequestStep(s, x).tasks
    ensures x.Arrive? && Rank(RequestStep(s, x), t) == LONGEST
  {
    if x.Cancel? && Working(s, x.t) {
      CancelWorkIsSame(s, x.t);
    }
  }

  /** What a request has taken and what it has still to take, within its sixteen. */
  predicate InBudget(s: State, t: TaskId, taken: nat) {
    if t in s.tasks then taken + Rank(s, t) <= LONGEST else taken == 0
  }

  lemma StepKeepsBudget(s: State, x: Action, t: TaskId, taken: nat)
    requires Sound(s) && Enabled(s, x) && InBudget(s, t, taken)
    ensures InBudget(Step(s, x), t, taken + if Whose(s, x) == Some(t) then 1 else 0)
  {
    hide Sound;
    hide Enabled;
    hide Step;
    hide Whose;
    hide Rank;
    if t in s.tasks {
      StepLowersItsOwn(s, x, t);
    } else {
      if Whose(s, x) == Some(t) {
        OwnerHasArrived(s, x);
      }
      if t in Step(s, x).tasks {
        TasksComeByArriving(s, x, t);
      }
    }
  }

  lemma NoneAtFirst(states: seq<State>, actions: seq<Action>, t: TaskId)
    requires IsRun(states, actions)
    ensures InBudget(states[0], t, OwnActions(states, actions, t, 0))
  {
  }

  lemma RunSteps(states: seq<State>, actions: seq<Action>, t: TaskId, i: nat)
    requires IsRun(states, actions) && 0 < i < |states|
    ensures Enabled(states[i - 1], actions[i - 1]) && states[i] == Step(states[i - 1], actions[i - 1])
    ensures OwnActions(states, actions, t, i)
            == OwnActions(states, actions, t, i - 1)
               + if Whose(states[i - 1], actions[i - 1]) == Some(t) then 1 else 0
  {
  }

  lemma RunHasLength(states: seq<State>, actions: seq<Action>)
    requires IsRun(states, actions)
    ensures |states| == |actions| + 1
  {
  }

  /** Over every run: a request takes 16 actions at most, whatever everyone else does, and what it has taken and
      what it has still to take never add up to more. */
  lemma {:induction false} OwnActionsAreBounded(states: seq<State>, actions: seq<Action>, t: TaskId, i: nat)
    requires IsRun(states, actions) && i < |states|
    ensures InBudget(states[i], t, OwnActions(states, actions, t, i))
    decreases i
  {
    hide *;
    RunHasLength(states, actions);
    if i == 0 {
      NoneAtFirst(states, actions, t);
    } else {
      OwnActionsAreBounded(states, actions, t, i - 1);
      RunsAreSound(states, actions, i - 1);
      RunSteps(states, actions, t, i);
      StepKeepsBudget(states[i - 1], actions[i - 1], t, OwnActions(states, actions, t, i - 1));
    }
  }

  // ----- nobody is stuck

  predicate Unfinished(s: State, t: TaskId) {
    t in s.tasks && !s.tasks[t].phase.Finished?
  }

  /** What the request can do of its own accord, without being cancelled; a waiting one needs a free lock. */
  function NextMove(s: State, t: TaskId): Action
    requires Unfinished(s, t)
  {
    match s.tasks[t].phase
    case Arrived => OnRequest(AcquireLock(t))
    case Waiting(_) => OnRequest(TakeLock(t))
    case Holding(_, Entering) => OnWork(ConsultCache(t))
    case Holding(_, Deciding(_, _)) => OnWork(ReplyNews(t))
    case Holding(_, Asking(_, a)) => OnAsk(TimeOut(a))
    case Holding(_, Replying(_, _)) => OnWork(StoreReply(t, 0))
    case Holding(_, Leaving(_)) => OnRequest(Unlock(t))
    case Unlocked(_, _) => OnRequest(DropLock(t))
  }

  /** The request itself, or the one whose lock it waits for. */
  function Mover(s: State, t: TaskId): TaskId
    requires Unfinished(s, t)
  {
    var p := s.tasks[t].phase;
    if p.Waiting? && p.lock in s.owner then s.owner[p.lock] else t
  }

  lemma MoverMoves(s: State, t: TaskId)
    requires Sound(s) && Unfinished(s, t)
    ensures var u := Mover(s, t); Unfinished(s, u) && Enabled(s, NextMove(s, u)) && Whose(s, NextMove(s, u)) == Some(u)
  {
    var u := Mover(s, t);
    if u != t || s.tasks[t].phase.Holding? {
      assert u != t ==> Holds(s, u, s.tasks[t].phase.lock);
      if WorkOf(s, u).Asking? {
        assert Asks(s, u, WorkOf(s, u).ask);
        assert AskOk(s, WorkOf(s, u).ask);
      }
    }
  }

  /** An action of a request, other than its arrival and its cancellation. */
  predicate OfRequests(x: Action) {
    match x
    case OnRequest(r) => !r.Arrive? && !r.Cancel?
    case OnWorld(_) => false
    case _ => true
  }

  ghost predicate AllFinished(s: State) {
    forall t :: t in s.tasks ==> s.tasks[t].phase.Finished?
  }

  lemma OwnerIsUnfinished(s: State, x: Action)
    requires Sound(s) && OfRequests(x) && Enabled(s, x)
    ensures Whose(s, x).Some? && Unfinished(s, Whose(s, x).value)
  {
    if x.OnAsk? {
      assert AskOk(s, x.ask.a);
    }
  }

  /** No deadlock: requests can act until the last of them is finished, and not after that. */
  lemma OnlyFinishedRequestsRest(s: State)
    requires Sound(s)
    ensures AllFinished(s) <==> forall x :: OfRequests(x) ==> !Enabled(s, x)
  {
    if AllFinished(s) {
      forall x | OfRequests(x) ensures !Enabled(s, x) {
        if Enabled(s, x) {
          OwnerIsUnfinished(s, x);
        }
      }
    } else {
      var t :| t in s.tasks && !s.tasks[t].phase.Finished?;
      MoverMoves(s, t);
      assert OfRequests(NextMove(s, Mover(s, t)));
    }
  }

  // ----- everybody ends

  ghost function Pick(ts: set<TaskId>): (t: TaskId)
    requires ts != {}
    ensures t in ts
  {
    var t :| t in ts; t
  }

  /** What the requests have still before them, all together. */
  ghost function Sum(s: State, ts: set<TaskId>): nat
    requires ts <= s.tasks.Keys
  {
    if ts == {} then 0 else var t := Pick(ts); Rank(s, t) + Sum(s, ts - {t})
  }

  lemma {:induction false} SumIsBounded(s: State, ts: set<TaskId>)
    requires ts <= s.tasks.Keys
    ensures Sum(s, ts) <= LONGEST * |ts|
  {
    if ts != {} {
      SumIsBounded(s, ts - {Pick(ts)});
    }
  }

  lemma {:induction false} SumFalls(s: State, s': State, ts: set<TaskId>, t: TaskId)
    requires ts <= s.tasks.Keys && ts <= s'.tasks.Keys
    requires forall u :: u in ts ==> if u == t then Rank(s', u) < Rank(s, u) else Rank(s', u) == Rank(s, u)
    ensures if t in ts then Sum(s', ts) < Sum(s, ts) else Sum(s', ts) == Sum(s, ts)
  {
    if ts != {} {
      hide Rank;
      SumFalls(s, s', ts - {Pick(ts)}, t);
    }
  }

  /** The requests act one after the other, in any order, and nothing else happens. */
  ghost predicate Leads(s: State, xs: seq<Action>, s': State)
    decreases |xs|
  {
    if xs == [] then s' == s
    else OfRequests(xs[0]) && Enabled(s, xs[0]) && Leads(Step(s, xs[0]), xs[1..], s')
  }

  lemma StepLowersSum(s: State, x: Action)
    requires Sound(s) && OfRequests(x) && Enabled(s, x)
    ensures Step(s, x).tasks.Keys == s.tasks.Keys
    ensures Sum(Step(s, x), s.tasks.Keys) < Sum(s, s.tasks.Keys)
  {
    hide Rank;
    hide Sound;
    hide Enabled;
    hide Step;
    OwnerIsUnfinished(s, x);
    NobodyComes(s, x);
    forall u | u in s.tasks ensures StepLowered(s, x, u) {
      StepLowersItsOwn(s, x, u);
    }
    SumFalls(s, Step(s, x), s.tasks.Keys, Whose(s, x).value);
  }

  predicate StepLowered(s: State, x: Action, t: TaskId)
    requires Enabled(s, x) && t in s.tasks
  {
    t in Step(s, x).tasks
    && if Whose(s, x) == Some(t) then Rank(Step(s, x), t) < Rank(s, t) else Rank(Step(s, x), t) == Rank(s, t)
  }

  lemma NobodyComes(s: State, x: Action)
    requires Sound(s) && OfRequests(x) && Enabled(s, x)
    ensures Step(s, x).tasks.Keys == s.tasks.Keys
  {
    match x
    case OnRequest(r) =>
    case OnWork(w) => WorkIsSame(s, w);
    case OnAsk(k) => AskIsSame(s, k);
  }

  /** No schedule goes on for ever: every action of a request brings all of them nearer to the end. */
  lemma {:induction false} SchedulesAreShort(s: State, xs: seq<Action>, s': State)
    requires Sound(s) && Leads(s, xs, s')
    ensures Sound(s') && s'.tasks.Keys == s.tasks.Keys
    ensures |xs| + Sum(s', s.tasks.Keys) <= Sum(s, s.tasks.Keys)
    decreases |xs|
  {
    hide Sound;
    hide Enabled;
    hide Step;
    if xs != [] {
      StepLowersSum(s, xs[0]);
      StepKeepsSound(s, xs[0]);
      SchedulesAreShort(Step(s, xs[0]), xs[1..], s');
    }
  }

  /** And every schedule can be carried on until all requests are finished. */
  lemma {:induction false} SchedulesFinish(s: State) returns (xs: seq<Action>, s': State)
    requires Sound(s)
    ensures Leads(s, xs, s') && AllFinished(s')
    decreases Sum(s, s.tasks.Keys)
  {
    hide Sound;
    hide Enabled;
    hide Step;
    OnlyFinishedRequestsRest(s);
    if AllFinished(s) {
      xs, s' := [], s;
    } else {
      var x :| OfRequests(x) && Enabled(s, x);
      StepLowersSum(s, x);
      StepKeepsSound(s, x);
      xs, s' := SchedulesFinish(Step(s, x));
      assert ([x] + xs)[1..] == xs;
      xs := [x] + xs;
    }
  }

  /** From every state of every run, whatever the subprocesses and readers fail to do: the requests that have arrived
      can act on their own, uncancelled; in whatever order they do, they take at most 16 actions each; and they can
      go on until every one is finished. */
  lemma EveryRequestEnds(states: seq<State>, actions: seq<Action>, i: nat, xs: seq<Action>, s: State)
    requires IsRun(states, actions) && i < |states| && Leads(states[i], xs, s)
    ensures |xs| <= LONGEST * |states[i].tasks.Keys|
    ensures AllFinished(s) <==> forall x :: OfRequests(x) ==> !Enabled(s, x)
    ensures exists ys, s' :: Leads(s, ys, s') && AllFinished(s') && s'.tasks.Keys == states[i].tasks.Keys
  {
    RunsAreSound(states, actions, i);
    SchedulesAreShort(states[i], xs, s);
    SumIsBounded(states[i], states[i].tasks.Keys);
    OnlyFinishedRequestsRest(s);
    var ys, s' := SchedulesFinish(s);
    SchedulesAreShort(s, ys, s');
  }
}
