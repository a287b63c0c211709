/** handler.rs: the per-message reply cache that answers retries, and its key. */
module ReplyCache {
  import opened Clock
  import opened Wrappers

  const REPLY_CACHE_TTL: int := 60 * SECOND

  datatype CacheEntry = CacheEntry(insertedAt: int, text: string)

  type Cache = map<string, CacheEntry>

  /** `{from}:{msg_id}`; absent and empty message ids are not cached. */
  function CacheKey(from: string, msgId: Option<string>): Option<string> {
    if msgId == None || msgId.value == "" then None else Some(from + ":" + msgId.value)
  }

  predicate Live(e: CacheEntry, now: int) {
    e.insertedAt > now - REPLY_CACHE_TTL
  }

  function Pruned(m: Cache, now: int): Cache {
    map k | k in m && Live(m[k], now) :: m[k]
  }

  function Found(m: Cache, key: string, now: int): Option<string> {
    if key in Pruned(m, now) then Some(m[key].text) else None
  }

  /** The prune reads the clock at `now`, the entry is stamped at `stamp`. */
  function Stored(m: Cache, key: string, text: string, now: int, stamp: int): Cache {
    Pruned(m, now)[key := CacheEntry(stamp, text)]
  }

  class ReplyStore {
    var entries: Cache

    constructor ()
      ensures entries == map[]
    {
      entries := map[];
    }

    method LookupCachedReply(key: string, now: int) returns (hit: Option<string>)
      modifies this
      ensures hit == Found(old(entries), key, now) && entries == Pruned(old(entries), now)
      ensures hit.Some? <==> key in old(entries) && old(entries)[key].insertedAt + REPLY_CACHE_TTL > now
      ensures forall k, t :: now <= t ==> Found(entries, k, t) == Found(old(entries), k, t)
    {
      var cutoff := now - REPLY_CACHE_TTL;
      entries := map k | k in entries && entries[k].insertedAt > cutoff :: entries[k];
      hit := if key in entries then Some(entries[key].text) else None;
    }

    method StoreReply(key: string, text: string, now: int, stamp: int)
      modifies this
      ensures entries == Stored(old(entries), key, text, now, stamp)
      ensures forall t :: Found(entries, key, t) == if t < stamp + REPLY_CACHE_TTL then Some(text) else None
      ensures forall k, t :: k != key && now <= t ==> Found(entries, k, t) == Found(old(entries), k, t)
    {
      var cutoff := now - REPLY_CACHE_TTL;
      entries := map k | k in entries && entries[k].insertedAt > cutoff :: entries[k];
      entries := entries[key := CacheEntry(stamp, text)];
    }

    method GcReplies(now: int) returns (evicted: int)
      modifies this
      ensures entries == Pruned(old(entries), now) && evicted == |old(entries)| - |entries|
      ensures forall k, t :: now <= t ==> Found(entries, k, t) == Found(old(entries), k, t)
      ensures forall k :: k in entries ==> Found(entries, k, now).Some?
    {
      var cutoff := now - REPLY_CACHE_TTL;
      var before := |entries|;
      entries := map k | k in entries && entries[k].insertedAt > cutoff :: entries[k];
      evicted := before - |entries|;
    }
  }

  lemma SplitAtColon(f: string, m: string, g: string, n: string)
    requires f + ":" + m == g + ":" + n && |f| < |g|
    ensures g[|f|] == ':' && m == g[|f| + 1..] + ":" + n
  {
    var k := f + ":" + m;
    assert k[|f|] == ':' && k[|f|] == g[|f|];
    assert m == k[|f| + 1..];
    assert k == g + (":" + n);
    assert k[|f| + 1..] == g[|f| + 1..] + (":" + n);
  }

  lemma SplitEqual(f: string, m: string, g: string, n: string)
    requires f + ":" + m == g + ":" + n && |f| == |g|
    ensures f == g && m == n
  {
    var k := f + ":" + m;
    assert f == k[..|f|] == g;
    assert m == k[|f| + 1..] == n;
  }

  /** Without colons in the senders, equal keys mean equal senders and equal messages. */
  lemma CacheKeyInjective(f: string, m: Option<string>, g: string, n: Option<string>)
    requires ':' !in f && ':' !in g
    requires CacheKey(f, m) == CacheKey(g, n) != None
    ensures f == g && m == n
  {
    if |f| < |g| {
      SplitAtColon(f, m.value, g, n.value);
    } else if |g| < |f| {
      SplitAtColon(g, n.value, f, m.value);
    } else {
      SplitEqual(f, m.value, g, n.value);
    }
  }

  /** A request shares its key with a request of another sender exactly when the sender holds a colon,
      or the message id holds one that is not its last character. */
  lemma CacheKeyCollides(f: string, m: string)
    requires m != ""
    ensures (exists g: string, n: string :: g != f && n != "" && CacheKey(g, Some(n)) == CacheKey(f, Some(m)))
            <==> ':' in f || ':' in m[..|m| - 1]
  {
    if g: string, n: string :| g != f && n != "" && CacheKey(g, Some(n)) == CacheKey(f, Some(m)) {
      if |g| < |f| {
        SplitAtColon(g, n, f, m);
      } else if |f| < |g| {
        SplitAtColon(f, m, g, n);
        assert m[|g| - |f| - 1] == ':';
        assert m[..|m| - 1][|g| - |f| - 1] == ':';
      } else {
        SplitEqual(f, m, g, n);
      }
    }
    if ':' in f {
      var i :| 0 <= i < |f| && f[i] == ':';
      var g, n := f[..i], f[i + 1..] + ":" + m;
      assert f + ":" + m == g + ":" + n;
      assert |g| != |f| && CacheKey(g, Some(n)) == CacheKey(f, Some(m));
    } else if ':' in m[..|m| - 1] {
      var i :| 0 <= i < |m| - 1 && m[i] == ':';
      var g, n := f + ":" + m[..i], m[i + 1..];
      assert f + ":" + m == g + ":" + n;
      assert |g| != |f| && CacheKey(g, Some(n)) == CacheKey(f, Some(m));
    }
  }
}
