/** digest_cache.rs: the snapshot cache over the two digest files. Calls do not overlap; times are nanoseconds. */
module Digest {
  import opened Clock
  import opened Wrappers
  import opened DigestQuery

  const DIGEST_SCHEMA_VERSION := 1

  datatype Meta = Meta(version: nat, generatedAt: string)

  datatype Data = Data(version: nat, events: seq<Event>)

  datatype Snapshot = Snapshot(meta: Meta, data: Data)

  datatype Config = Config(enabled: bool, maxAgeSecs: nat)

  /** What one call finds: the mtime of the meta file, the two files if both read and parse, and the wall clock. */
  datatype Visit = Visit(stat: Option<int>, files: Option<Snapshot>, now: int)

  datatype State = State(mtime: Option<int>, snap: Option<Snapshot>)

  /** A clock behind the mtime gives no age, and no age is never too old. */
  predicate Stale(cfg: Config, mtime: int, now: int) {
    now >= mtime && (now - mtime) / SECOND > cfg.maxAgeSecs
  }

  predicate Understood(s: Snapshot) {
    s.meta.version == DIGEST_SCHEMA_VERSION && s.data.version == DIGEST_SCHEMA_VERSION
  }

  /** What a call gives that remembers nothing. */
  function Uncached(cfg: Config, v: Visit): Option<Snapshot> {
    if !cfg.enabled || v.stat == None || v.files == None || !Understood(v.files.value)
       || Stale(cfg, v.stat.value, v.now)
    then None
    else v.files
  }

  /** A fresh load gives a snapshot exactly when the feature is on, both files are there and say version 1, and the meta
      file is less than a second older than the limit. */
  lemma UncachedExactly(cfg: Config, v: Visit, s: Snapshot)
    ensures Uncached(cfg, v) == Some(s)
            <==> cfg.enabled && v.stat.Some? && v.files == Some(s) && s.meta.version == 1 && s.data.version == 1
                 && v.now - v.stat.value < (cfg.maxAgeSecs + 1) * 1_000_000_000
  {
    if v.stat.Some? && v.now >= v.stat.value {
      WholeSeconds(v.now - v.stat.value, cfg.maxAgeSecs);
    }
  }

  lemma WholeSeconds(age: nat, limit: nat)
    ensures age / SECOND > limit <==> age >= (limit + 1) * 1_000_000_000
  {
  }

  predicate Hit(c: State, v: Visit) {
    v.stat.Some? && c.mtime == v.stat && c.snap.Some?
  }

  function Visited(cfg: Config, c: State, v: Visit): (State, Option<Snapshot>) {
    if cfg.enabled && Hit(c, v) then (c, c.snap)
    else if Uncached(cfg, v).Some? then (State(v.stat, v.files), v.files)
    else (c, None)
  }

  class DigestCache {
    const cfg: Config
    var lastMtime: Option<int>
    var inner: Option<Snapshot>

    constructor (cfg: Config)
      ensures this.cfg == cfg && State(lastMtime, inner) == State(None, None)
    {
      this.cfg := cfg;
      lastMtime, inner := None, None;
    }

    method TakeSnapshot(v: Visit) returns (r: Option<Snapshot>)
      modifies this
      ensures (State(lastMtime, inner), r) == Visited(cfg, old(State(lastMtime, inner)), v)
    {
      if !cfg.enabled {
        return None;
      }
      if v.stat == None {
        return None;
      }
      var mtime := v.stat.value;
      if lastMtime == Some(mtime) {
        if inner.Some? {
          return inner;
        }
      }
      if v.files == None {
        return None;
      }
      var snap := v.files.value;
      if snap.meta.version != DIGEST_SCHEMA_VERSION {
        return None;
      }
      if snap.data.version != DIGEST_SCHEMA_VERSION {
        return None;
      }
      var age := if v.now >= mtime then Some(v.now - mtime) else None;
      if age.Some? {
        if age.value / SECOND > cfg.maxAgeSecs {
          return None;
        }
      }
      lastMtime := Some(mtime);
      inner := Some(snap);
      return Some(snap);
    }
  }

  // ----- runs

  function After(cfg: Config, visits: seq<Visit>): State {
    if visits == [] then State(None, None)
    else Visited(cfg, After(cfg, visits[..|visits| - 1]), visits[|visits| - 1]).0
  }

  function Returned(cfg: Config, visits: seq<Visit>, k: nat): Option<Snapshot>
    requires k < |visits|
  {
    Visited(cfg, After(cfg, visits[..k]), visits[k]).1
  }

  /** The mtime of the meta file tells what both files hold. */
  predicate Consistent(visits: seq<Visit>) {
    forall i, j :: 0 <= i < |visits| && 0 <= j < |visits| && visits[i].stat.Some? && visits[i].stat == visits[j].stat
      ==> visits[i].files == visits[j].files
  }

  /** The visit reads the snapshot from files of that mtime, and it is young enough then. */
  predicate Loads(cfg: Config, v: Visit, mtime: int, s: Snapshot) {
    v.stat == Some(mtime) && Uncached(cfg, v) == Some(s)
  }

  lemma {:induction false} HeldWasLoaded(cfg: Config, visits: seq<Visit>)
    ensures var c := After(cfg, visits);
            (c.mtime.Some? <==> c.snap.Some?)
            && (c.snap.Some? ==> exists j :: 0 <= j < |visits| && Loads(cfg, visits[j], c.mtime.value, c.snap.value))
  {
    if visits != [] {
      var n := |visits| - 1;
      var before, c := After(cfg, visits[..n]), After(cfg, visits);
      HeldWasLoaded(cfg, visits[..n]);
      if c == before {
        if c.snap.Some? {
          var j :| 0 <= j < n && Loads(cfg, visits[..n][j], c.mtime.value, c.snap.value);
          assert visits[j] == visits[..n][j];
        }
      } else {
        assert Loads(cfg, visits[n], c.mtime.value, c.snap.value);
      }
    }
  }

  /** Whatever is returned was read, at this call or an earlier one, from files of the mtime seen now; it is of the
      schema version, and was within the age limit when it was read. */
  lemma ReturnedWasLoaded(cfg: Config, visits: seq<Visit>, k: nat)
    requires k < |visits| && Returned(cfg, visits, k).Some?
    ensures cfg.enabled && visits[k].stat.Some? && Understood(Returned(cfg, visits, k).value)
    ensures exists j :: 0 <= j <= k && Loads(cfg, visits[j], visits[k].stat.value, Returned(cfg, visits, k).value)
  {
    HeldWasLoaded(cfg, visits[..k]);
    var c, s, m := After(cfg, visits[..k]), Returned(cfg, visits, k).value, visits[k].stat.value;
    if Hit(c, visits[k]) {
      var j :| 0 <= j < k && Loads(cfg, visits[..k][j], m, s);
      assert visits[j] == visits[..k][j];
    } else {
      assert Loads(cfg, visits[k], m, s);
    }
  }

  /** When the mtime tells the files, what is returned is what both files hold now. */
  lemma ReturnedIsOnDisk(cfg: Config, visits: seq<Visit>, k: nat)
    requires k < |visits| && Consistent(visits) && Returned(cfg, visits, k).Some?
    ensures visits[k].files == Returned(cfg, visits, k)
  {
    ReturnedWasLoaded(cfg, visits, k);
    hide Returned;
    var j :| 0 <= j <= k && Loads(cfg, visits[j], visits[k].stat.value, Returned(cfg, visits, k).value);
    assert visits[j].stat == visits[k].stat;
  }

  /** The cache gives what a fresh load would give, except exactly when it holds this mtime and the age limit has
      passed since: the documentation promises nothing then, the code returns the old snapshot. */
  lemma CacheIsTransparentExactly(cfg: Config, visits: seq<Visit>, k: nat)
    requires k < |visits| && Consistent(visits) && cfg.enabled
    ensures var (c, v) := (After(cfg, visits[..k]), visits[k]);
            Returned(cfg, visits, k) == Uncached(cfg, v)
            <==> !(v.stat.Some? && c.mtime == v.stat && Stale(cfg, v.stat.value, v.now))
  {
    HeldWasLoaded(cfg, visits[..k]);
    if Hit(After(cfg, visits[..k]), visits[k]) {
      ReturnedIsOnDisk(cfg, visits, k);
      ReturnedWasLoaded(cfg, visits, k);
    }
  }

  /** A snapshot is served a year after its limit of ten seconds. */
  lemma StaleIsServed(s: Snapshot)
    requires Understood(s)
    ensures var cfg := Config(true, 10);
            var visits := [Visit(Some(0), Some(s), 0), Visit(Some(0), Some(s), 31_536_000 * SECOND)];
            Consistent(visits) && Stale(cfg, 0, visits[1].now)
            && Returned(cfg, visits, 1) == Some(s) && Uncached(cfg, visits[1]) == None
  {
    var cfg := Config(true, 10);
    var visits := [Visit(Some(0), Some(s), 0), Visit(Some(0), Some(s), 31_536_000 * SECOND)];
    assert visits[..1][..0] == [];
    assert After(cfg, visits[..1]) == State(Some(0), Some(s));
  }

  /** A call that gives nothing leaves the remembered pair as it was, and so does one that needs no load; such a call
      does not look at the files or the clock. */
  lemma FailuresKeepTheCache(cfg: Config, visits: seq<Visit>)
    requires visits != []
    ensures var n := |visits| - 1;
            var (before, after) := (After(cfg, visits[..n]), After(cfg, visits));
            (Returned(cfg, visits, n) == None ==> after == before)
            && (after != before ==> after == State(visits[n].stat, Returned(cfg, visits, n)))
            && (cfg.enabled && visits[n].stat.Some? && before.mtime == visits[n].stat
                ==> after == before && Returned(cfg, visits, n) == before.snap && before.snap.Some?)
  {
    HeldWasLoaded(cfg, visits[..|visits| - 1]);
  }
}
