/** conv_serializer.rs: one lock per conversation id, kept in a map that a background sweep prunes.
    A lock is an identity; `strong` is the reference count of its `Arc`, the map's own handle included. */
module Serialization {
  type LockId = nat

  datatype Entry = Entry(lock: LockId, lastSeen: int)

  datatype LockTable = LockTable(locks: map<string, Entry>, strong: map<LockId, nat>, nextLock: LockId)

  const EMPTY_TABLE := LockTable(map[], map[], 0)

  function Count(z: LockTable, l: LockId): nat {
    if l in z.strong then z.strong[l] else 0
  }

  /** The lock a caller of `acquire` is handed. */
  function LockFor(z: LockTable, cid: string): LockId {
    if cid in z.locks then z.locks[cid].lock else z.nextLock
  }

  /** The table after `acquire`: a missing entry is created holding one handle, then a handle is cloned. */
  function Acquired(z: LockTable, cid: string, now: int): LockTable {
    var l := LockFor(z, cid);
    LockTable(
      z.locks[cid := Entry(l, now)],
      z.strong[l := if cid in z.locks then Count(z, l) + 1 else 2],
      if cid in z.locks then z.nextLock else z.nextLock + 1)
  }

  /** One handle is dropped. */
  function Dropped(z: LockTable, l: LockId): LockTable {
    z.(strong := z.strong[l := if Count(z, l) > 0 then Count(z, l) - 1 else 0])
  }

  predicate Retained(z: LockTable, e: Entry, cutoff: int) {
    Count(z, e.lock) > 1 || e.lastSeen > cutoff
  }

  /** The table after `gc`: entries nobody holds and nobody used lately go, and so do their locks. */
  function Collected(z: LockTable, cutoff: int): LockTable {
    var freed := set c | c in z.locks && !Retained(z, z.locks[c], cutoff) :: z.locks[c].lock;
    LockTable(
      map c | c in z.locks && Retained(z, z.locks[c], cutoff) :: z.locks[c],
      map l | l in z.strong && l !in freed :: z.strong[l],
      z.nextLock)
  }

  /** No two conversations share a lock. */
  predicate OneLockEach(z: LockTable) {
    forall c, d :: c in z.locks && d in z.locks && z.locks[c].lock == z.locks[d].lock ==> c == d
  }

  /** A sweep does not show to anyone who holds a handle: the conversation still leads to that very lock, and the lock
      keeps its count. */
  lemma SweepKeepsHeldLocks(z: LockTable, cutoff: int, cid: string)
    requires cid in z.locks && Count(z, z.locks[cid].lock) > 1
    ensures LockFor(Collected(z, cutoff), cid) == LockFor(z, cid)
    ensures OneLockEach(z) ==> Count(Collected(z, cutoff), LockFor(z, cid)) == Count(z, LockFor(z, cid))
  {
  }

  /** What a sweep takes is what nobody holds and nobody used since the cutoff. */
  lemma SweptExactly(z: LockTable, cutoff: int, cid: string)
    ensures cid in Collected(z, cutoff).locks
            <==> cid in z.locks && (Count(z, z.locks[cid].lock) > 1 || z.locks[cid].lastSeen > cutoff)
  {
  }

  class ConvSerializer {
    var locks: map<string, Entry>
    var strong: map<LockId, nat>
    var nextLock: LockId

    function Table(): LockTable
      reads this
    {
      LockTable(locks, strong, nextLock)
    }

    constructor ()
      ensures Table() == EMPTY_TABLE
    {
      locks, strong, nextLock := map[], map[], 0;
    }

    /** `now` is read again after the entry exists, so the stamp a fresh entry got first is overwritten. */
    method Acquire(cid: string, created: int, now: int) returns (lock: LockId)
      modifies this
      ensures lock == LockFor(old(Table()), cid)
      ensures Table() == Acquired(old(Table()), cid, now)
    {
      if cid !in locks {
        locks := locks[cid := Entry(nextLock, created)];
        strong := strong[nextLock := 1];
        nextLock := nextLock + 1;
      }
      lock := locks[cid].lock;
      locks := locks[cid := Entry(lock, now)];
      strong := strong[lock := (if lock in strong then strong[lock] else 0) + 1];
    }

    method DropHandle(lock: LockId)
      modifies this
      ensures Table() == Dropped(old(Table()), lock)
    {
      var n := if lock in strong then strong[lock] else 0;
      strong := strong[lock := if n > 0 then n - 1 else 0];
    }

    method Gc(now: int, idle: nat) returns (evicted: nat)
      modifies this
      ensures Table() == Collected(old(Table()), now - idle)
      ensures evicted == |old(locks)| - |locks|
      ensures forall c :: c in old(locks) && Count(old(Table()), old(locks)[c].lock) > 1 ==>
                LockFor(Table(), c) == LockFor(old(Table()), c)
                && (OneLockEach(old(Table())) ==>
                      Count(Table(), LockFor(Table(), c)) == Count(old(Table()), LockFor(Table(), c)))
      ensures forall c :: c in locks <==>
                c in old(locks) && (Count(old(Table()), old(locks)[c].lock) > 1 || old(locks)[c].lastSeen + idle > now)
    {
      var z := Table();
      var before := |locks|;
      var freed := set c | c in locks && !Retained(z, locks[c], now - idle) :: locks[c].lock;
      locks := map c | c in locks && Retained(z, locks[c], now - idle) :: locks[c];
      strong := map l | l in strong && l !in freed :: strong[l];
      assert locks.Keys <= z.locks.Keys;
      SubsetSmaller(locks.Keys, z.locks.Keys);
      evicted := before - |locks|;
      forall c | c in z.locks && Count(z, z.locks[c].lock) > 1
        ensures LockFor(Table(), c) == LockFor(z, c)
                && (OneLockEach(z) ==> Count(Table(), LockFor(z, c)) == Count(z, LockFor(z, c)))
      {
        SweepKeepsHeldLocks(z, now - idle, c);
      }
    }
  }

  lemma {:induction false} SubsetSmaller<T>(a: set<T>, b: set<T>)
    requires a <= b
    ensures |a| <= |b|
  {
    if x :| x in a {
      SubsetSmaller(a - {x}, b - {x});
    }
  }
}
