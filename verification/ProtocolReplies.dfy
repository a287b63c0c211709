/** Which text a fan gets: where every reply of a run comes from, and that it is never changed on its way out. */
module ProtocolReplies {
  import opened Wrappers
  import opened TextUtil
  import opened Serialization
  import opened ReplyCache
  import opened BridgeLink
  import opened Protocol
  import opened ProtocolLocks
  import opened ProtocolAsks
  import opened ProtocolCache
  import opened ProtocolRuns

  /** A text as a fan sees it: all of it when it fits, and otherwise one character less than the limit and an ellipsis.
      A limit of zero is none. */
  predicate Shown(text: string, limit: nat, seen: string) {
    if limit == 0 || |text| <= limit then seen == text
    else |seen| == limit && seen[..limit - 1] == text[..limit - 1] && seen[limit - 1] == '\U{2026}'
  }

  /** Some character is no white space. */
  predicate SaysSomething(text: string) {
    exists k | 0 <= k < |text| :: !IsWhite(text[k])
  }

  lemma CutIsShown(text: string, limit: nat)
    ensures Shown(text, limit, CapReplyText(text, limit))
  {
  }

  lemma AnswerIsShown(cfg: Config, answer: Option<string>)
    ensures Shown(if answer.Some? && SaysSomething(answer.value) then answer.value else cfg.fallback, cfg.maxChars,
                  FinalText(cfg, answer))
  {
    CutIsShown(if answer.Some? && SaysSomething(answer.value) then answer.value else cfg.fallback, cfg.maxChars);
    hide CapReplyText;
    hide Shown;
  }

  // ----- how an ask ends

  /** The steps that end an ask. */
  predicate EndsAsk(s: State, x: AskAction)
    requires AskEnabled(s, x)
  {
    x.Receive? || x.SenderGone? || x.TimeOut? || x.WriteFails?
    || (x.CheckAlive? && !s.links[s.asks[x.a].bridge].alive)
  }

  /** What the fan is to see at the end of an ask: a line that says something, or else the fallback. */
  function Answer(s: State, x: AskAction): string
    requires AskEnabled(s, x)
  {
    var k := s.asks[x.a];
    if x.Receive? && SaysSomething(s.links[k.bridge].emitted[k.mailbox.value].text)
    then s.links[k.bridge].emitted[k.mailbox.value].text
    else s.cfg.fallback
  }

  predicate RepliesWith(s: State, t: TaskId, seen: string) {
    Working(s, t) && WorkOf(s, t).Replying? && WorkOf(s, t).text == seen
  }

  /** The task is about to decide, before and after its message went to the classifier. */
  predicate DecidesFirst(s: State, t: TaskId) {
    Working(s, t) && WorkOf(s, t).Deciding? && !WorkOf(s, t).classified
  }

  predicate DecidesAgain(s: State, t: TaskId) {
    Working(s, t) && WorkOf(s, t).Deciding? && WorkOf(s, t).classified
  }

  lemma FinishedAsk(s: State, a: AskId, answer: Option<string>)
    requires Running(s, a)
    ensures var (k, s') := (s.asks[a], FinishAsk(s, a, answer));
            a < |s'.asks| && s'.asks[a].stage.Ended? && s'.cfg == s.cfg
            && if k.kind.FanAsk? then RepliesWith(s', k.task, FinalText(s.cfg, answer)) else DecidesAgain(s', k.task)
  {
    hide FinalText;
  }

  /** An ask ends with a line, a lost sender, a timeout, a write error or a bridge found dead. A fan's ask then leaves
      the line, if it says something, and the fallback in all other cases, cut to the limit; a classifier's ask leaves
      the decision to its task. */
  lemma AskEndsWith(s: State, x: AskAction)
    requires AskEnabled(s, x)
    ensures x.a < |AskStep(s, x).asks| && (AskStep(s, x).asks[x.a].stage.Ended? <==> EndsAsk(s, x))
    ensures EndsAsk(s, x) && s.asks[x.a].kind.FanAsk? ==>
              exists seen :: Shown(Answer(s, x), s.cfg.maxChars, seen)
                             && RepliesWith(AskStep(s, x), s.asks[x.a].task, seen)
    ensures EndsAsk(s, x) && !s.asks[x.a].kind.FanAsk? ==> DecidesAgain(AskStep(s, x), s.asks[x.a].task)
  {
    var k := s.asks[x.a];
    var answer := if x.Receive? then Some(s.links[k.bridge].emitted[k.mailbox.value].text) else None;
    AnswerIsShown(s.cfg, answer);
    if x.WriteFails? {
      FinishedAsk(WriteFailsMid(s, x.a, x.reached), x.a, None);
    } else {
      FinishedAsk(s, x.a, answer);
    }
    hide FinalText;
    hide FinishAsk;
    hide Shown;
  }

  // ----- a reply that is decided stays

  /** The reply is decided: the task is leaving, has left its lock, or is done. */
  predicate Decided(s: State, t: TaskId, reply: Option<string>) {
    t in s.tasks
    && match s.tasks[t].phase
       case Holding(_, Leaving(r)) => r == reply
       case Unlocked(_, r) => r == reply
       case Finished(r) => r == reply
       case _ => false
  }

  lemma EndAskLeavesOthers(s: State, a: AskId, next: Work, t: TaskId)
    requires Running(s, a) && t in s.tasks && t != s.asks[a].task
    ensures t in EndAsk(s, a, next).tasks && EndAsk(s, a, next).tasks[t] == s.tasks[t]
  {
  }

  lemma FinishAskLeavesOthers(s: State, a: AskId, answer: Option<string>, t: TaskId)
    requires Running(s, a) && t in s.tasks && t != s.asks[a].task
    ensures t in FinishAsk(s, a, answer).tasks && FinishAsk(s, a, answer).tasks[t] == s.tasks[t]
  {
    EndAskLeavesOthers(s, a, AfterAsk(s, a, answer), t);
  }

  lemma AskLeavesOthers(s: State, x: AskAction, t: TaskId)
    requires AskEnabled(s, x) && t in s.tasks && t != s.asks[x.a].task
    ensures t in AskStep(s, x).tasks && AskStep(s, x).tasks[t] == s.tasks[t]
  {
    match x
    case CheckAlive(a) => FinishAskLeavesOthers(s, a, None, t);
    case WriteFails(a, reached) => FinishAskLeavesOthers(WriteFailsMid(s, a, reached), a, None, t);
    case Receive(a) =>
      FinishAskLeavesOthers(s, a, Some(s.links[s.asks[a].bridge].emitted[s.asks[a].mailbox.value].text), t);
    case SenderGone(a) => FinishAskLeavesOthers(s, a, None, t);
    case TimeOut(a) => FinishAskLeavesOthers(s, a, None, t);
    case _ =>
  }

  lemma RequestLeavesOthers(s: State, x: RequestAction, t: TaskId)
    requires RequestEnabled(s, x) && t in s.tasks && t != x.t
    ensures t in RequestStep(s, x).tasks && RequestStep(s, x).tasks[t] == s.tasks[t]
  {
    if x.Cancel? && Working(s, x.t) && WorkOf(s, x.t).Asking? {
      EndAskLeavesOthers(s, WorkOf(s, x.t).ask, Leaving(None), t);
    }
  }

  lemma WorkLeavesOthers(s: State, x: WorkAction, t: TaskId)
    requires WorkEnabled(s, x) && t in s.tasks && t != x.t
    ensures t in WorkStep(s, x).tasks && WorkStep(s, x).tasks[t] == s.tasks[t]
  {
  }

  /** The task whose phase an action may change. */
  predicate Moves(s: State, x: Action, t: TaskId) {
    match x
    case OnRequest(r) => r.t == t
    case OnWork(w) => w.t == t
    case OnAsk(k) => k.a < |s.asks| && s.asks[k.a].task == t
    case OnWorld(_) => false
  }

  lemma StepLeavesOthers(s: State, x: Action, t: TaskId)
    requires Enabled(s, x) && t in s.tasks && !Moves(s, x, t)
    ensures t in Step(s, x).tasks && Step(s, x).tasks[t] == s.tasks[t]
  {
    match x
    case OnRequest(r) => RequestLeavesOthers(s, r, t);
    case OnWork(w) => WorkLeavesOthers(s, w, t);
    case OnAsk(k) => AskLeavesOthers(s, k, t);
    case OnWorld(e) => WorldKeepsSenders(s, e);
  }

  lemma StepKeepsDecided(s: State, x: Action, t: TaskId, reply: Option<string>)
    requires Enabled(s, x) && Decided(s, t, reply)
    ensures Decided(Step(s, x), t, reply)
  {
    if Moves(s, x, t) {
      assert x == OnRequest(Unlock(t)) || x == OnRequest(DropLock(t));
    } else {
      StepLeavesOthers(s, x, t);
      hide Step;
      hide Enabled;
    }
  }

  // ----- runs

  lemma RunStep(states: seq<State>, actions: seq<Action>, i: nat)
    requires IsRun(states, actions) && i < |actions|
    ensures |states| == |actions| + 1 && Enabled(states[i], actions[i]) && states[i + 1] == Step(states[i], actions[i])
  {
  }

  lemma RunHasLength(states: seq<State>, actions: seq<Action>)
    requires IsRun(states, actions)
    ensures |states| == |actions| + 1 && states[0].tasks == map[] && states[0].log == []
  {
  }

  /** Once it is decided, a reply is the same in every later state. */
  lemma {:induction false} DecidedStays(states: seq<State>, actions: seq<Action>, i: nat, j: nat, t: TaskId,
                                        reply: Option<string>)
    requires IsRun(states, actions) && i <= j < |states| && Decided(states[i], t, reply)
    ensures Decided(states[j], t, reply)
    decreases j
  {
    hide *;
    RunHasLength(states, actions);
    if i < j {
      DecidedStays(states, actions, i, j - 1, t, reply);
      RunStep(states, actions, j - 1);
      StepKeepsDecided(states[j - 1], actions[j - 1], t, reply);
    }
  }

  // ----- how it was decided

  /** The step decides the reply: a hit in the cache, the text that is stored, or nothing. */
  predicate Decides(s: State, x: Action, t: TaskId, reply: Option<string>)
    requires Enabled(s, x)
  {
    match x
    case OnWork(ConsultCache(u)) =>
      u == t && reply.Some? && Key(s.tasks[t]).Some?
      && Step(s, x).log == s.log + [Lookup(Key(s.tasks[t]).value, s.now, reply)]
    case OnWork(StoreReply(u, _)) => u == t && reply.Some? && RepliesWith(s, t, reply.value)
    case OnWork(ReplyNews(u)) => u == t && reply == None
    case OnRequest(Cancel(u)) => u == t && reply == None
    case _ => false
  }

  lemma OpenAskKeepsTasks(s: State, x: AskAction)
    requires AskEnabled(s, x)
    ensures !EndsAsk(s, x) ==> AskStep(s, x).tasks == s.tasks
  {
  }

  lemma AskDecidesNothing(s: State, x: AskAction, t: TaskId, reply: Option<string>)
    requires AskEnabled(s, x) && t in s.tasks && s.asks[x.a].task == t
    ensures !Decided(AskStep(s, x), t, reply)
  {
    AskEndsWith(s, x);
    OpenAskKeepsTasks(s, x);
    hide Shown;
    hide FinishAsk;
  }

  /** A reply is decided by such a step, and such a step decides it. */
  lemma StepDecidesExactly(s: State, x: Action, t: TaskId, reply: Option<string>)
    requires Enabled(s, x) && !Decided(s, t, reply)
    ensures Decided(Step(s, x), t, reply) <==> Decides(s, x, t, reply)
  {
    if x.OnAsk? && t in s.tasks && Moves(s, x, t) {
      AskDecidesNothing(s, x.ask, t, reply);
    } else if x.OnRequest? && Moves(s, x, t) {
      RequestDecides(s, x.request, reply);
    } else if x.OnWork? && Moves(s, x, t) {
      WorkDecides(s, x.work, reply);
    } else if t in s.tasks {
      StepLeavesOthers(s, x, t);
      hide Step;
      hide Enabled;
    } else {
      NoNewDecision(s, x, t, reply);
    }
  }

  lemma RequestDecides(s: State, x: RequestAction, reply: Option<string>)
    requires RequestEnabled(s, x) && !Decided(s, x.t, reply)
    ensures Decided(RequestStep(s, x), x.t, reply) <==> Decides(s, OnRequest(x), x.t, reply)
  {
  }

  lemma WorkDecides(s: State, x: WorkAction, reply: Option<string>)
    requires WorkEnabled(s, x) && !Decided(s, x.t, reply)
    ensures Decided(WorkStep(s, x), x.t, reply) <==> Decides(s, OnWork(x), x.t, reply)
  {
    hide CapReplyText;
    hide Found;
    if x.ConsultCache? && Key(s.tasks[x.t]).Some? {
      var k := Key(s.tasks[x.t]).value;
      OneMoreEvent(s.log, Lookup(k, s.now, Found(s.cache, k, s.now)), Lookup(k, s.now, reply));
    }
  }

  lemma OneMoreEvent(log: seq<Event>, a: Event, b: Event)
    ensures log + [a] == log + [b] <==> a == b
  {
    assert (log + [a])[|log|] == a && (log + [b])[|log|] == b;
  }

  lemma NoNewDecision(s: State, x: Action, t: TaskId, reply: Option<string>)
    requires Enabled(s, x) && t !in s.tasks
    ensures !Decided(Step(s, x), t, reply) && !Decides(s, x, t, reply)
    ensures !RepliesWith(Step(s, x), t, if reply.Some? then reply.value else "")
  {
    match x
    case OnRequest(r) => RequestMakesNothing(s, r, t);
    case OnWork(w) => WorkIsSame(s, w);
    case OnAsk(k) => AskIsSame(s, k);
    case OnWorld(e) => WorldKeepsTasks(s, e);
  }

  lemma RequestMakesNothing(s: State, x: RequestAction, t: TaskId)
    requires RequestEnabled(s, x) && t !in s.tasks
    ensures t in RequestStep(s, x).tasks ==> RequestStep(s, x).tasks[t].phase == Arrived
  {
    if x.Cancel? && Working(s, x.t) {
      CancelWorkIsSame(s, x.t);
    }
  }

  lemma WorldKeepsTasks(s: State, x: WorldAction)
    requires WorldEnabled(s, x)
    ensures WorldStep(s, x).tasks == s.tasks
  {
  }

  /** Every decided reply was decided at some step. */
  lemma {:induction false} DecidedSomewhere(states: seq<State>, actions: seq<Action>, j: nat, t: TaskId,
                                            reply: Option<string>) returns (i: nat)
    requires IsRun(states, actions) && j < |states| && Decided(states[j], t, reply)
    ensures i < j && i < |actions| && Enabled(states[i], actions[i]) && Decides(states[i], actions[i], t, reply)
    decreases j
  {
    RunHasLength(states, actions);
    NothingDecided(states[0], t, reply);
    hide *;
    i := j - 1;
    RunStep(states, actions, i);
    if Decided(states[i], t, reply) {
      i := DecidedSomewhere(states, actions, i, t, reply);
    } else {
      StepDecidesExactly(states[i], actions[i], t, reply);
    }
  }

  lemma NothingDecided(s: State, t: TaskId, reply: Option<string>)
    ensures s.tasks == map[] ==> !Decided(s, t, reply)
  {
  }

  // ----- how its text was made

  /** The step makes the text: the router's, or what is left of a fan's ask, cut to the limit. */
  predicate Makes(s: State, x: Action, t: TaskId, seen: string)
    requires Enabled(s, x)
  {
    match x
    case OnWork(ReplyText(u, text)) => u == t && Shown(text, s.cfg.maxChars, seen)
    case OnAsk(k) =>
      s.asks[k.a].task == t && s.asks[k.a].kind.FanAsk? && EndsAsk(s, k) && Shown(Answer(s, k), s.cfg.maxChars, seen)
    case _ => false
  }

  lemma AskMakes(s: State, x: AskAction, t: TaskId, seen: string)
    requires AskEnabled(s, x) && s.asks[x.a].task == t && RepliesWith(AskStep(s, x), t, seen)
    ensures Makes(s, OnAsk(x), t, seen)
  {
    AskEndsWith(s, x);
    OpenAskKeepsTasks(s, x);
    hide Shown;
    hide FinishAsk;
    hide Answer;
  }

  lemma WorkMakes(s: State, x: WorkAction, seen: string)
    requires WorkEnabled(s, x) && RepliesWith(WorkStep(s, x), x.t, seen)
    ensures Makes(s, OnWork(x), x.t, seen)
  {
    if x.ReplyText? {
      CutIsShown(x.text, s.cfg.maxChars);
    }
    hide Shown;
    hide CapReplyText;
  }

  lemma RequestMakesNoText(s: State, x: RequestAction, seen: string)
    requires RequestEnabled(s, x)
    ensures !RepliesWith(RequestStep(s, x), x.t, seen)
  {
  }

  lemma StepMakes(s: State, x: Action, t: TaskId, seen: string)
    requires Enabled(s, x) && !RepliesWith(s, t, seen) && RepliesWith(Step(s, x), t, seen)
    ensures Makes(s, x, t, seen)
  {
    if Moves(s, x, t) {
      match x
      case OnRequest(r) => RequestMakesNoText(s, r, seen);
      case OnWork(w) => WorkMakes(s, w, seen);
      case OnAsk(k) => AskMakes(s, k, t, seen);
    } else if t in s.tasks {
      StepLeavesOthers(s, x, t);
      hide Step;
      hide Enabled;
    } else {
      NoNewDecision(s, x, t, Some(seen));
    }
  }

  lemma NothingMade(s: State, t: TaskId, seen: string)
    ensures s.tasks == map[] ==> !RepliesWith(s, t, seen)
  {
  }

  /** Every text on its way to the cache was made at some step. */
  lemma {:induction false} MadeSomewhere(states: seq<State>, actions: seq<Action>, j: nat, t: TaskId, seen: string)
      returns (i: nat)
    requires IsRun(states, actions) && j < |states| && RepliesWith(states[j], t, seen)
    ensures i < j && i < |actions| && Enabled(states[i], actions[i]) && Makes(states[i], actions[i], t, seen)
    decreases j
  {
    RunHasLength(states, actions);
    NothingMade(states[0], t, seen);
    hide *;
    i := j - 1;
    RunStep(states, actions, i);
    if RepliesWith(states[i], t, seen) {
      i := MadeSomewhere(states, actions, i, t, seen);
    } else {
      StepMakes(states[i], actions[i], t, seen);
    }
  }

  // ----- requests and the log

  predicate SameRequest(s: State, t: TaskId, s': State, u: TaskId) {
    t in s.tasks && u in s'.tasks && s'.tasks[u].from == s.tasks[t].from && s'.tasks[u].msgId == s.tasks[t].msgId
  }

  lemma EndAskKeepsRequest(s: State, a: AskId, next: Work, t: TaskId)
    requires Running(s, a) && t in s.tasks
    ensures SameRequest(s, t, EndAsk(s, a, next), t)
  {
  }

  lemma AskKeepsRequest(s: State, x: AskAction, t: TaskId)
    requires AskEnabled(s, x) && t in s.tasks
    ensures SameRequest(s, t, AskStep(s, x), t)
  {
    match x
    case CheckAlive(a) => EndAskKeepsRequest(s, a, AfterAsk(s, a, None), t);
    case WriteFails(a, reached) =>
      var mid := WriteFailsMid(s, a, reached);
      EndAskKeepsRequest(mid, a, AfterAsk(mid, a, None), t);
    case Receive(a) =>
      var line := s.links[s.asks[a].bridge].emitted[s.asks[a].mailbox.value];
      EndAskKeepsRequest(s, a, AfterAsk(s, a, Some(line.text)), t);
    case SenderGone(a) => EndAskKeepsRequest(s, a, AfterAsk(s, a, None), t);
    case TimeOut(a) => EndAskKeepsRequest(s, a, AfterAsk(s, a, None), t);
    case _ =>
  }

  lemma WorkKeepsRequest(s: State, x: WorkAction)
    requires WorkEnabled(s, x)
    ensures SameRequest(s, x.t, WorkStep(s, x), x.t)
  {
    hide CapReplyText;
    hide Key;
  }

  lemma RequestKeepsRequest(s: State, x: RequestAction)
    requires RequestEnabled(s, x) && x.t in s.tasks
    ensures SameRequest(s, x.t, RequestStep(s, x), x.t)
  {
    if x.Cancel? && Working(s, x.t) && WorkOf(s, x.t).Asking? {
      EndAskKeepsRequest(s, WorkOf(s, x.t).ask, Leaving(None), x.t);
    }
  }

  lemma OwnStepKeepsRequest(s: State, x: Action, t: TaskId)
    requires Enabled(s, x) && t in s.tasks && Moves(s, x, t)
    ensures SameRequest(s, t, Step(s, x), t)
  {
    hide SameRequest;
    match x
    case OnRequest(r) => RequestKeepsRequest(s, r);
    case OnWork(w) => WorkKeepsRequest(s, w);
    case OnAsk(k) => AskKeepsRequest(s, k, t);
  }

  lemma StepKeepsRequest(s: State, x: Action, t: TaskId)
    requires Enabled(s, x) && t in s.tasks
    ensures SameRequest(s, t, Step(s, x), t)
  {
    if Moves(s, x, t) {
      OwnStepKeepsRequest(s, x, t);
    } else {
      StepLeavesOthers(s, x, t);
    }
    hide Step;
    hide Enabled;
    hide Moves;
  }

  lemma SameRequestChains(a: State, t: TaskId, b: State, u: TaskId, c: State, v: TaskId)
    requires SameRequest(a, t, b, u) && SameRequest(b, u, c, v)
    ensures SameRequest(a, t, c, v)
  {
  }

  lemma SameRequestAtOnce(s: State, t: TaskId)
    requires t in s.tasks
    ensures SameRequest(s, t, s, t)
  {
  }

  /** A request keeps its sender and its message id. */
  lemma {:induction false} RequestStays(states: seq<State>, actions: seq<Action>, i: nat, j: nat, t: TaskId)
    requires IsRun(states, actions) && i <= j < |states| && t in states[i].tasks
    ensures SameRequest(states[i], t, states[j], t)
    decreases j
  {
    hide *;
    RunHasLength(states, actions);
    if i == j {
      SameRequestAtOnce(states[i], t);
    } else {
      RequestStays(states, actions, i, j - 1, t);
      RunStep(states, actions, j - 1);
      IsThere(states[i], t, states[j - 1], t);
      StepKeepsRequest(states[j - 1], actions[j - 1], t);
      SameRequestChains(states[i], t, states[j - 1], t, states[j], t);
    }
  }

  lemma IsThere(s: State, t: TaskId, s': State, u: TaskId)
    requires SameRequest(s, t, s', u)
    ensures t in s.tasks && u in s'.tasks
  {
  }

  /** The step stores the text of its task under the key of its request. */
  predicate Stores(s: State, x: Action, t: TaskId, key: string, text: string)
    requires Enabled(s, x)
  {
    x.OnWork? && x.work.StoreReply? && x.work.t == t && RepliesWith(s, t, text) && Key(s.tasks[t]) == Some(key)
  }

  /** The log grows by what a lookup found or what a task stored, and stays as it is otherwise. */
  lemma LogGrows(s: State, x: Action)
    requires Enabled(s, x)
    ensures s.log <= Step(s, x).log && |Step(s, x).log| <= |s.log| + 1
    ensures |Step(s, x).log| == |s.log| + 1 && Step(s, x).log[|s.log|].Store? ==>
              exists t :: Stores(s, x, t, Step(s, x).log[|s.log|].key, Step(s, x).log[|s.log|].text)
  {
    match x
    case OnRequest(r) => RequestIsSameCache(s, r);
    case OnWork(w) => WorkLogs(s, w);
    case OnAsk(k) => AskIsSameCache(s, k);
    case OnWorld(e) => WorldKeepsMisses(s, e);
  }

  lemma WorkLogs(s: State, x: WorkAction)
    requires WorkEnabled(s, x)
    ensures s.log <= WorkStep(s, x).log && |WorkStep(s, x).log| <= |s.log| + 1
    ensures |WorkStep(s, x).log| == |s.log| + 1 && WorkStep(s, x).log[|s.log|].Store? ==>
              Stores(s, OnWork(x), x.t, WorkStep(s, x).log[|s.log|].key, WorkStep(s, x).log[|s.log|].text)
  {
    if x.StoreReply? || x.ConsultCache? {
      hide CapReplyText;
    } else {
      WorkIsSameCache(s, x);
    }
  }

  lemma {:induction false} LogOnlyGrows(states: seq<State>, actions: seq<Action>, i: nat, j: nat)
    requires IsRun(states, actions) && i <= j < |states|
    ensures states[i].log <= states[j].log
    decreases j
  {
    hide *;
    RunHasLength(states, actions);
    if i < j {
      LogOnlyGrows(states, actions, i, j - 1);
      RunStep(states, actions, j - 1);
      LogGrows(states[j - 1], actions[j - 1]);
    }
  }

  /** Every store in the log was made by a task, with the text it was about to reply with. */
  lemma {:induction false} StoredBySomebody(states: seq<State>, actions: seq<Action>, j: nat, e: nat)
      returns (i: nat, t: TaskId)
    requires IsRun(states, actions) && j < |states| && e < |states[j].log| && states[j].log[e].Store?
    ensures i < j && i < |actions| && Enabled(states[i], actions[i])
    ensures Stores(states[i], actions[i], t, states[j].log[e].key, states[j].log[e].text)
    decreases j
  {
    hide *;
    RunHasLength(states, actions);
    i := j - 1;
    RunStep(states, actions, i);
    LogGrows(states[i], actions[i]);
    if e < |states[i].log| {
      i, t := StoredBySomebody(states, actions, i, e);
    } else {
      t :| Stores(states[i], actions[i], t, states[j].log[e].key, states[j].log[e].text);
    }
  }

  // ----- what the fan gets

  lemma StoreIs(s: State, t: TaskId, d: nat)
    requires WorkEnabled(s, StoreReply(t, d))
    ensures RepliesWith(s, t, WorkOf(s, t).text)
    ensures Decided(StoreReplyStep(s, t, d), t, Some(WorkOf(s, t).text))
    ensures Key(s.tasks[t]).Some? ==>
              StoreReplyStep(s, t, d).log
              == s.log + [Store(Key(s.tasks[t]).value, WorkOf(s, t).missedAt, s.now + d, WorkOf(s, t).text)]
  {
  }

  lemma LookupIs(s: State, t: TaskId)
    requires WorkEnabled(s, ConsultCache(t)) && Key(s.tasks[t]).Some?
    ensures ConsultCacheStep(s, t).log
            == s.log + [Lookup(Key(s.tasks[t]).value, s.now, Found(s.cache, Key(s.tasks[t]).value, s.now))]
    ensures var hit := Found(s.cache, Key(s.tasks[t]).value, s.now);
            if hit.Some? then Decided(ConsultCacheStep(s, t), t, hit) else DecidesFirst(ConsultCacheStep(s, t), t)
  {
  }

  /** What is stored under a key is what its task ends with. */
  lemma StoresDecide(states: seq<State>, actions: seq<Action>, i: nat, m: nat, t: TaskId, d: nat)
    requires IsRun(states, actions) && i < |actions| && i < m < |states| && actions[i] == OnWork(StoreReply(t, d))
    ensures Enabled(states[i], actions[i])
    ensures exists text :: RepliesWith(states[i], t, text) && Decided(states[m], t, Some(text))
  {
    RunStep(states, actions, i);
    StoreIs(states[i], t, d);
    hide IsRun;
    hide StoreReplyStep;
    hide Decided;
    hide RepliesWith;
    DecidedStays(states, actions, i + 1, m, t, Some(WorkOf(states[i], t).text));
  }

  /** What a lookup finds is what its task ends with. */
  lemma HitsDecide(states: seq<State>, actions: seq<Action>, j: nat, m: nat, u: TaskId)
    requires IsRun(states, actions) && j < |actions| && j < m < |states| && actions[j] == OnWork(ConsultCache(u))
    ensures Enabled(states[j], actions[j])
    ensures Key(states[j].tasks[u]).Some? ==>
              var n, e := |states[j].log|, states[j + 1].log;
              |e| == n + 1 && e[n].Lookup? && e[n].key == Key(states[j].tasks[u]).value && e[n].at == states[j].now
              && (if e[n].hit.Some? then Decided(states[m], u, e[n].hit) else DecidesFirst(states[j + 1], u))
  {
    RunStep(states, actions, j);
    hide IsRun;
    if Key(states[j].tasks[u]).Some? {
      LookupIs(states[j], u);
      hide ConsultCacheStep;
      hide Decided;
      hide DecidesFirst;
      hide Found;
      var hit := Found(states[j].cache, Key(states[j].tasks[u]).value, states[j].now);
      if hit.Some? {
        DecidedStays(states, actions, j + 1, m, u, hit);
      }
    }
  }

  lemma StoreEvent(states: seq<State>, actions: seq<Action>, i: nat, t: TaskId, d: nat)
    requires IsRun(states, actions) && i < |actions| && actions[i] == OnWork(StoreReply(t, d))
    ensures Enabled(states[i], actions[i])
    ensures Key(states[i].tasks[t]).Some? ==>
              var n, e := |states[i].log|, states[i + 1].log;
              |e| == n + 1 && IsStore(e[n], Key(states[i].tasks[t]).value) && e[n].at == states[i].now + d
              && RepliesWith(states[i], t, e[n].text)
  {
    RunStep(states, actions, i);
    hide IsRun;
    StoreIs(states[i], t, d);
  }

  lemma RetryIsAnswered(log: seq<Event>, i: nat, j: nat)
    requires RetriesAnswered(log) && i < j < |log| && log[j].Lookup? && IsStore(log[i], log[j].key)
    requires log[j].at < log[i].at + REPLY_CACHE_TTL
    ensures log[j].hit == Some(log[i].text)
  {
  }

  /** The lookup of a retry finds what the first request stored. */
  lemma RetryFinds(states: seq<State>, actions: seq<Action>, i: nat, j: nat, t: TaskId, d: nat, u: TaskId)
    requires IsRun(states, actions) && i < j < |actions| && NoColons(states[j + 1])
    requires actions[i] == OnWork(StoreReply(t, d)) && actions[j] == OnWork(ConsultCache(u))
    requires SameRequest(states[i], t, states[j], u) && Key(states[i].tasks[t]).Some?
    requires states[j].now < states[i].now + d + REPLY_CACHE_TTL
    ensures var n, e := |states[j].log|, states[j + 1].log;
            |e| == n + 1 && e[n].Lookup? && e[n].hit.Some? && RepliesWith(states[i], t, e[n].hit.value)
  {
    RunHasLength(states, actions);
    StoreEvent(states, actions, i, t, d);
    HitsDecide(states, actions, j, j + 1, u);
    LogOnlyGrows(states, actions, i + 1, j + 1);
    LogOnlyGrows(states, actions, i + 1, j);
    RetriesGetTheFirstReply(states, actions, j + 1);
    hide IsRun;
    hide Enabled;
    hide NoColons;
    hide RetriesAnswered;
    hide StoresApart;
    hide HitsWereStored;
    assert Key(states[i].tasks[t]) == Key(states[j].tasks[u]);
    var e := states[j + 1].log;
    var a, b := |states[i].log|, |states[j].log|;
    assert e[a] == states[i + 1].log[a];
    RetryIsAnswered(e, a, b);
  }

  /** Over all runs with colon-free senders: a request stores its reply, and a request with the same sender and message
      id looks it up less than the lifetime later. Then both end with the same text, in every later state. */
  lemma RetriesEndAlike(states: seq<State>, actions: seq<Action>, i: nat, j: nat, m: nat, t: TaskId, d: nat, u: TaskId)
    requires IsRun(states, actions) && i < j < |actions| && j < m < |states| && NoColons(states[j + 1])
    requires actions[i] == OnWork(StoreReply(t, d)) && actions[j] == OnWork(ConsultCache(u))
    requires SameRequest(states[i], t, states[j], u)
    requires states[i].tasks[t].msgId.Some? && states[i].tasks[t].msgId.value != ""
    requires states[j].now < states[i].now + d + REPLY_CACHE_TTL
    ensures exists text :: Decided(states[m], t, Some(text)) && Decided(states[m], u, Some(text))
  {
    RetryFinds(states, actions, i, j, t, d, u);
    StoresDecide(states, actions, i, m, t, d);
    HitsDecide(states, actions, j, m, u);
    hide IsRun;
    hide Enabled;
    hide NoColons;
    hide Decided;
    var text :| RepliesWith(states[i], t, text) && Decided(states[m], t, Some(text));
    assert states[j + 1].log[|states[j].log|].hit == Some(text);
  }

  /** A request without a message id, or with an empty one, goes past the cache: it looks nothing up and leaves nothing
      behind. */
  lemma NoIdNoCache(states: seq<State>, actions: seq<Action>, i: nat, t: TaskId, d: nat)
    requires IsRun(states, actions) && i < |actions| && t in states[i].tasks
    requires states[i].tasks[t].msgId == None || states[i].tasks[t].msgId == Some("")
    requires actions[i] == OnWork(ConsultCache(t)) || actions[i] == OnWork(StoreReply(t, d))
    ensures states[i + 1].cache == states[i].cache && states[i + 1].log == states[i].log
    ensures actions[i] == OnWork(ConsultCache(t)) ==>
              DecidesFirst(states[i + 1], t)
  {
    RunStep(states, actions, i);
    hide IsRun;
  }

  lemma KeyTellsRequests(s: State, t: TaskId, s': State, u: TaskId)
    requires t in s.tasks && u in s'.tasks && ':' !in s.tasks[t].from && ':' !in s'.tasks[u].from
    requires Key(s.tasks[t]) == Key(s'.tasks[u]) && Key(s.tasks[t]).Some?
    ensures SameRequest(s, t, s', u)
  {
    CacheKeyInjective(s.tasks[t].from, s.tasks[t].msgId, s'.tasks[u].from, s'.tasks[u].msgId);
  }

  /** The step `i` of task `t` made the text. */
  predicate MadeAt(states: seq<State>, actions: seq<Action>, i: nat, t: TaskId, text: string) {
    i < |actions| && i < |states| && Enabled(states[i], actions[i]) && Makes(states[i], actions[i], t, text)
  }

  lemma MakerIsThere(s: State, x: Action, t: TaskId, text: string)
    requires Enabled(s, x) && Makes(s, x, t, text)
    ensures t in s.tasks
  {
  }

  /** A found text was stored before, by a request with the same sender and message id. */
  lemma FoundWasStored(states: seq<State>, actions: seq<Action>, j: nat, u: TaskId, text: string)
      returns (i: nat, t: TaskId)
    requires IsRun(states, actions) && j < |actions| && Enabled(states[j], actions[j])
    requires NoColons(states[j + 1])
    requires actions[j] == OnWork(ConsultCache(u)) && Decides(states[j], actions[j], u, Some(text))
    ensures i < j && RepliesWith(states[i], t, text) && SameRequest(states[i], t, states[j], u)
  {
    RunHasLength(states, actions);
    RunStep(states, actions, j);
    var log, n := states[j + 1].log, |states[j].log|;
    assert log[n] == Lookup(Key(states[j].tasks[u]).value, states[j].now, Some(text));
    RetriesGetTheFirstReply(states, actions, j + 1);
    hide StoresApart;
    hide RetriesAnswered;
    hide IsRun;
    var e :| Explains(log[..n], e, log[n]);
    assert states[j].log == log[..n];
    i, t := StoredBySomebody(states, actions, j, e);
    RequestStays(states, actions, i, j + 1, t);
    RequestStays(states, actions, j, j + 1, u);
    hide Step;
    KeyTellsRequests(states[i], t, states[j], u);
  }

  /** Over all runs with colon-free senders: whatever text a request ends with was made, for a request with its sender
      and message id, by the router or by the ask of a fan, from a line that says something or else from the fallback,
      and cut to the limit. */
  lemma EveryTextWasMade(states: seq<State>, actions: seq<Action>, m: nat, u: TaskId, text: string)
      returns (i: nat, t: TaskId)
    requires IsRun(states, actions) && m < |states| && NoColons(states[m]) && Decided(states[m], u, Some(text))
    ensures i < m && MadeAt(states, actions, i, t, text) && SameRequest(states[i], t, states[m], u)
  {
    hide *;
    RunHasLength(states, actions);
    var j := DecidedSomewhere(states, actions, m, u, Some(text));
    RunStep(states, actions, j);
    var k;
    k, t := DecidedByText(states, actions, j, m, u, text);
    i := MadeSomewhere(states, actions, k, t, text);
    IsMadeAt(states, actions, i, t, text);
    MakerIsThere(states[i], actions[i], t, text);
    RequestStays(states, actions, i, k, t);
    SameRequestChains(states[i], t, states[k], t, states[m], u);
  }

  lemma IsMadeAt(states: seq<State>, actions: seq<Action>, i: nat, t: TaskId, text: string)
    requires i < |actions| && i < |states| && Enabled(states[i], actions[i]) && Makes(states[i], actions[i], t, text)
    ensures MadeAt(states, actions, i, t, text)
  {
  }

  lemma FewerColons(states: seq<State>, actions: seq<Action>, j: nat, m: nat)
    requires IsRun(states, actions) && j <= m < |states| && NoColons(states[m])
    ensures NoColons(states[j])
  {
    forall t | t in states[j].tasks ensures ':' !in states[j].tasks[t].from {
      RequestStays(states, actions, j, m, t);
    }
  }

  lemma DecidedByText(states: seq<State>, actions: seq<Action>, j: nat, m: nat, u: TaskId, text: string)
      returns (k: nat, t: TaskId)
    requires IsRun(states, actions) && j < |actions| && j < m < |states| && NoColons(states[m])
    requires Enabled(states[j], actions[j]) && Decides(states[j], actions[j], u, Some(text))
    ensures k <= j && RepliesWith(states[k], t, text) && SameRequest(states[k], t, states[m], u)
  {
    RunHasLength(states, actions);
    RequestStays(states, actions, j, m, u);
    FewerColons(states, actions, j + 1, m);
    hide IsRun;
    hide NoColons;
    hide SameRequest;
    hide Step;
    match actions[j].work
    case ConsultCache(_) =>
      k, t := FoundWasStored(states, actions, j, u, text);
      SameRequestChains(states[k], t, states[j], u, states[m], u);
    case StoreReply(_, _) => k, t := j, u;
  }
}
