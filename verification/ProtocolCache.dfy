/** The reply cache seen over whole runs: what was looked up and stored under one key, and when. */
module ProtocolCache {
  import opened Wrappers
  import opened ReplyCache
  import opened Protocol
  import opened ProtocolLocks
  import BridgeLink

  /** No sender holds a colon, so a cache key names one sender and one message. */
  ghost predicate NoColons(s: State) {
    forall t :: t in s.tasks ==> ':' !in s.tasks[t].from
  }

  predicate IsStore(e: Event, key: string) {
    e.Store? && e.key == key
  }

  /** The task looked its key up, missed, and has not stored yet. */
  predicate Missed(s: State, t: TaskId, key: string) {
    Working(s, t) && Key(s.tasks[t]) == Some(key)
    && (WorkOf(s, t).Deciding? || WorkOf(s, t).Asking? || WorkOf(s, t).Replying?)
  }

  function MissedAt(s: State, t: TaskId): int
    requires Working(s, t) && (WorkOf(s, t).Deciding? || WorkOf(s, t).Asking? || WorkOf(s, t).Replying?)
  {
    WorkOf(s, t).missedAt
  }

  /** The past, and a live store is what the cache answers with. */
  ghost predicate StoresOk(s: State) {
    forall i :: 0 <= i < |s.log| && s.log[i].Store? ==>
      s.log[i].at <= s.now
      && (s.log[i].at > s.now - REPLY_CACHE_TTL ==>
            s.log[i].key in s.cache && s.cache[s.log[i].key] == CacheEntry(s.log[i].at, s.log[i].text))
  }

  /** Event `i` stored `text` under `key` at `at`. */
  predicate StoredAs(log: seq<Event>, i: int, key: string, at: int, text: string) {
    0 <= i < |log| && IsStore(log[i], key) && log[i].at == at && log[i].text == text
  }

  /** Every cached text was stored. */
  ghost predicate EntriesOk(s: State) {
    forall k :: k in s.cache ==>
      s.cache[k].insertedAt <= s.now
      && exists i :: StoredAs(s.log, i, k, s.cache[k].insertedAt, s.cache[k].text)
  }

  /** Between a miss and its store the key stays out of the cache, and earlier stores were over at the miss. */
  ghost predicate MissesOk(s: State) {
    forall t, k :: Missed(s, t, k) ==>
      k !in s.cache && MissedAt(s, t) <= s.now
      && forall i :: 0 <= i < |s.log| && IsStore(s.log[i], k) ==> s.log[i].at + REPLY_CACHE_TTL <= MissedAt(s, t)
  }

  /** Two stores under one key: the second one's lookup came at least the lifetime after the first store. */
  ghost predicate StoresApart(log: seq<Event>) {
    forall i, j :: 0 <= i < j < |log| && log[i].Store? && IsStore(log[j], log[i].key) ==>
      log[i].at + REPLY_CACHE_TTL <= log[j].missedAt
  }

  /** A lookup within the lifetime of an earlier store returns what was stored. */
  ghost predicate RetriesAnswered(log: seq<Event>) {
    forall i, j ::
      0 <= i < j < |log| && log[j].Lookup? && IsStore(log[i], log[j].key) && log[j].at < log[i].at + REPLY_CACHE_TTL
      ==> log[j].hit == Some(log[i].text)
  }

  /** Event `i` is a store, at most a lifetime before `e`, of the text `e` found. */
  predicate Explains(log: seq<Event>, i: int, e: Event)
    requires e.Lookup? && e.hit.Some?
  {
    0 <= i < |log| && IsStore(log[i], e.key) && log[i].text == e.hit.value
    && log[i].at <= e.at < log[i].at + REPLY_CACHE_TTL
  }

  /** A hit repeats a text stored earlier under the key, less than a lifetime ago. */
  ghost predicate HitsWereStored(log: seq<Event>) {
    forall j :: 0 <= j < |log| && log[j].Lookup? && log[j].hit.Some? ==> exists i :: Explains(log[..j], i, log[j])
  }

  ghost predicate LogOk(log: seq<Event>) {
    StoresApart(log) && RetriesAnswered(log) && HitsWereStored(log)
  }

  ghost predicate CacheInv(s: State) {
    StoresOk(s) && EntriesOk(s) && MissesOk(s) && LogOk(s.log)
  }

  /** Nothing the invariant looks at changed, and no task newly missed. */
  ghost predicate SameCache(s: State, s': State) {
    s'.now == s.now && s'.cache == s.cache && s'.log == s.log
    && forall t, k :: Missed(s', t, k) ==> Missed(s, t, k) && MissedAt(s', t) == MissedAt(s, t)
  }

  lemma SameCacheKeeps(s: State, s': State)
    requires CacheInv(s) && SameCache(s, s')
    ensures CacheInv(s')
  {
  }

  /** Time passes and expired entries may go; live ones stay. */
  lemma PruneKeeps(s: State, s': State)
    requires CacheInv(s) && s'.log == s.log && s.now <= s'.now
    requires s'.cache == s.cache || s'.cache == Pruned(s.cache, s'.now)
    requires forall t, k :: Missed(s', t, k) ==> Missed(s, t, k) && MissedAt(s', t) == MissedAt(s, t)
    ensures CacheInv(s')
  {
  }

  // ----- one more event

  lemma AppendKeepsHits(log: seq<Event>, e: Event)
    requires HitsWereStored(log)
    requires e.Lookup? && e.hit.Some? ==> exists i :: Explains(log, i, e)
    ensures HitsWereStored(log + [e])
  {
    var log' := log + [e];
    forall j | 0 <= j < |log'| && log'[j].Lookup? && log'[j].hit.Some?
      ensures exists i :: Explains(log'[..j], i, log'[j])
    {
      if j < |log| {
        assert log'[..j] == log[..j] && log'[j] == log[j];
      } else {
        assert log'[..j] == log;
      }
    }
  }

  lemma AppendLookup(log: seq<Event>, e: Event)
    requires LogOk(log) && e.Lookup?
    requires forall i :: 0 <= i < |log| && IsStore(log[i], e.key) && e.at < log[i].at + REPLY_CACHE_TTL ==>
               e.hit == Some(log[i].text)
    requires e.hit.Some? ==> exists i :: Explains(log, i, e)
    ensures LogOk(log + [e])
  {
    AppendKeepsHits(log, e);
  }

  lemma AppendStore(log: seq<Event>, e: Event)
    requires LogOk(log) && e.Store?
    requires forall i :: 0 <= i < |log| && IsStore(log[i], e.key) ==> log[i].at + REPLY_CACHE_TTL <= e.missedAt
    ensures LogOk(log + [e])
  {
    AppendKeepsHits(log, e);
  }

  // ----- lookup and store

  lemma LookupLog(s: State, k: string)
    requires CacheInv(s)
    ensures LogOk(s.log + [Lookup(k, s.now, Found(s.cache, k, s.now))])
  {
    var e := Lookup(k, s.now, Found(s.cache, k, s.now));
    if e.hit.Some? {
      var i :| StoredAs(s.log, i, k, s.cache[k].insertedAt, s.cache[k].text);
      assert Explains(s.log, i, e);
    }
    AppendLookup(s.log, e);
  }

  lemma ConsultMisses(s: State, t: TaskId)
    requires CacheInv(s) && WorkEnabled(s, ConsultCache(t))
    ensures MissesOk(ConsultCacheStep(s, t))
  {
    var s' := ConsultCacheStep(s, t);
    assert s.log <= s'.log;
    forall u, k | Missed(s', u, k)
      ensures k !in s'.cache && MissedAt(s', u) <= s'.now
      ensures forall i :: 0 <= i < |s'.log| && IsStore(s'.log[i], k) ==>
                s'.log[i].at + REPLY_CACHE_TTL <= MissedAt(s', u)
    {
      assert u != t ==> Missed(s, u, k);
    }
  }

  lemma ConsultKeeps(s: State, t: TaskId)
    requires CacheInv(s) && WorkEnabled(s, ConsultCache(t))
    ensures CacheInv(ConsultCacheStep(s, t))
  {
    var s' := ConsultCacheStep(s, t);
    ConsultMisses(s, t);
    if Key(s.tasks[t]).Some? {
      LookupLog(s, Key(s.tasks[t]).value);
      EntriesStay(s, s');
      assert s.log <= s'.log;
    }
  }

  lemma EntriesStay(s: State, s': State)
    requires EntriesOk(s) && s.log <= s'.log && s.now <= s'.now
    requires forall k :: k in s'.cache ==> k in s.cache && s'.cache[k] == s.cache[k]
    ensures EntriesOk(s')
  {
    forall k | k in s'.cache ensures exists i :: StoredAs(s'.log, i, k, s'.cache[k].insertedAt, s'.cache[k].text) {
      var i :| StoredAs(s.log, i, k, s.cache[k].insertedAt, s.cache[k].text);
      assert StoredAs(s'.log, i, k, s'.cache[k].insertedAt, s'.cache[k].text);
    }
  }

  /** Nobody else is between miss and store for the key of a task that is. */
  lemma MissIsAlone(s: State, t: TaskId, u: TaskId, k: string)
    requires LockInv(s) && NoColons(s) && Missed(s, t, k) && Missed(s, u, k)
    ensures t == u
  {
    CacheKeyInjective(s.tasks[t].from, s.tasks[t].msgId, s.tasks[u].from, s.tasks[u].msgId);
    MutualExclusion(s, t, u);
  }

  lemma StoreMisses(s: State, t: TaskId, d: nat)
    requires LockInv(s) && NoColons(s) && CacheInv(s) && WorkEnabled(s, StoreReply(t, d))
    ensures MissesOk(StoreReplyStep(s, t, d))
  {
    var s' := StoreReplyStep(s, t, d);
    assert s.log <= s'.log;
    forall u, k | Missed(s', u, k)
      ensures k !in s'.cache && MissedAt(s', u) <= s'.now
      ensures forall i :: 0 <= i < |s'.log| && IsStore(s'.log[i], k) ==>
                s'.log[i].at + REPLY_CACHE_TTL <= MissedAt(s', u)
    {
      assert u != t && Missed(s, u, k);
      if Key(s.tasks[t]) == Some(k) {
        assert Missed(s, t, k);
        MissIsAlone(s, t, u, k);
      }
    }
  }

  lemma StoreStores(s: State, t: TaskId, d: nat)
    requires CacheInv(s) && WorkEnabled(s, StoreReply(t, d)) && Key(s.tasks[t]).Some?
    ensures StoresOk(StoreReplyStep(s, t, d))
  {
    assert Missed(s, t, Key(s.tasks[t]).value);
  }

  lemma StoreEntries(s: State, t: TaskId, d: nat)
    requires CacheInv(s) && WorkEnabled(s, StoreReply(t, d)) && Key(s.tasks[t]).Some?
    ensures EntriesOk(StoreReplyStep(s, t, d)) && StoresOk(StoreReplyStep(s, t, d))
  {
    var s' := StoreReplyStep(s, t, d);
    var k := Key(s.tasks[t]).value;
    assert s.log <= s'.log;
    StoreStores(s, t, d);
    forall m | m in s'.cache ensures exists i :: StoredAs(s'.log, i, m, s'.cache[m].insertedAt, s'.cache[m].text) {
      if m == k {
        assert StoredAs(s'.log, |s.log|, m, s'.cache[m].insertedAt, s'.cache[m].text);
      } else {
        var i :| StoredAs(s.log, i, m, s.cache[m].insertedAt, s.cache[m].text);
        assert StoredAs(s'.log, i, m, s'.cache[m].insertedAt, s'.cache[m].text);
      }
    }
  }

  lemma StoreLog(s: State, t: TaskId, d: nat)
    requires CacheInv(s) && WorkEnabled(s, StoreReply(t, d)) && Key(s.tasks[t]).Some?
    ensures LogOk(StoreReplyStep(s, t, d).log)
  {
    var k := Key(s.tasks[t]).value;
    assert Missed(s, t, k);
    AppendStore(s.log, Store(k, MissedAt(s, t), s.now + d, WorkOf(s, t).text));
  }

  lemma StoreKeeps(s: State, t: TaskId, d: nat)
    requires LockInv(s) && NoColons(s) && CacheInv(s) && WorkEnabled(s, StoreReply(t, d))
    ensures CacheInv(StoreReplyStep(s, t, d))
  {
    var s' := StoreReplyStep(s, t, d);
    if Key(s.tasks[t]).Some? {
      StoreMisses(s, t, d);
      StoreEntries(s, t, d);
      StoreLog(s, t, d);
    } else {
      assert SameCache(s, s');
      SameCacheKeeps(s, s');
    }
  }

  // ----- every action

  lemma EndAskSameCache(s: State, a: BridgeLink.AskId, next: Work)
    requires Running(s, a)
    requires next.Leaving?
             || ((next.Deciding? || next.Replying?) && next.missedAt == WorkOf(s, s.asks[a].task).missedAt)
    ensures SameCache(s, EndAsk(s, a, next))
  {
  }

  lemma AskIsSameCache(s: State, x: AskAction)
    requires AskEnabled(s, x)
    ensures SameCache(s, AskStep(s, x))
  {
    match x
    case CheckAlive(a) => EndAskSameCache(s, a, AfterAsk(s, a, None));
    case WriteFails(a, reached) =>
      var mid := WriteFailsMid(s, a, reached);
      EndAskSameCache(mid, a, AfterAsk(mid, a, None));
    case Receive(a) =>
      EndAskSameCache(s, a, AfterAsk(s, a, Some(s.links[s.asks[a].bridge].emitted[s.asks[a].mailbox.value].text)));
    case SenderGone(a) => EndAskSameCache(s, a, AfterAsk(s, a, None));
    case TimeOut(a) => EndAskSameCache(s, a, AfterAsk(s, a, None));
    case _ =>
  }

  lemma CancelIsSameCache(s: State, t: TaskId)
    requires RequestEnabled(s, Cancel(t))
    ensures SameCache(s, CancelStep(s, t))
  {
    if Working(s, t) && WorkOf(s, t).Asking? {
      EndAskSameCache(s, WorkOf(s, t).ask, Leaving(None));
    }
  }

  lemma RequestIsSameCache(s: State, x: RequestAction)
    requires RequestEnabled(s, x)
    ensures SameCache(s, RequestStep(s, x))
  {
    if x.Cancel? {
      CancelIsSameCache(s, x.t);
    }
  }

  lemma WorldKeepsMisses(s: State, x: WorldAction)
    requires WorldEnabled(s, x)
    ensures forall t, k :: Missed(WorldStep(s, x), t, k) ==>
      Missed(s, t, k) && MissedAt(WorldStep(s, x), t) == MissedAt(s, t)
    ensures var s' := WorldStep(s, x);
      s'.log == s.log && s.now <= s'.now && (s'.cache == s.cache || s'.cache == Pruned(s.cache, s'.now))
  {
  }

  lemma WorkIsSameCache(s: State, x: WorkAction)
    requires WorkEnabled(s, x) && !x.ConsultCache? && !x.StoreReply?
    ensures SameCache(s, WorkStep(s, x))
  {
  }

  lemma WorldKeepsCache(s: State, x: WorldAction)
    requires CacheInv(s) && WorldEnabled(s, x)
    ensures CacheInv(WorldStep(s, x))
  {
    WorldKeepsMisses(s, x);
    PruneKeeps(s, WorldStep(s, x));
  }

  lemma WorkKeepsCache(s: State, x: WorkAction)
    requires LockInv(s) && NoColons(s) && CacheInv(s) && WorkEnabled(s, x)
    ensures CacheInv(WorkStep(s, x))
  {
    if x.ConsultCache? {
      ConsultKeeps(s, x.t);
    } else if x.StoreReply? {
      StoreKeeps(s, x.t, x.d);
    } else {
      WorkIsSameCache(s, x);
      SameCacheKeeps(s, WorkStep(s, x));
    }
  }

  lemma StepKeepsCache(s: State, x: Action)
    requires LockInv(s) && NoColons(s) && CacheInv(s) && Enabled(s, x)
    ensures CacheInv(Step(s, x))
  {
    match x
    case OnRequest(r) =>
      RequestIsSameCache(s, r);
      SameCacheKeeps(s, RequestStep(s, r));
    case OnWork(w) => WorkKeepsCache(s, w);
    case OnAsk(k) =>
      AskIsSameCache(s, k);
      SameCacheKeeps(s, AskStep(s, k));
    case OnWorld(e) => WorldKeepsCache(s, e);
  }

  /** Storing never displaces an entry: with or without expiry, the key is free at that moment. */
  lemma StoreFindsNoEntry(s: State, t: TaskId, d: nat)
    requires CacheInv(s) && WorkEnabled(s, StoreReply(t, d)) && Key(s.tasks[t]).Some?
    ensures Key(s.tasks[t]).value !in s.cache
  {
    assert Missed(s, t, Key(s.tasks[t]).value);
  }

  lemma InitialCache(cfg: Config, now: int, workers: nat)
    ensures CacheInv(Initial(cfg, now, workers))
  {
  }
}
