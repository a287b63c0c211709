/** bridge.rs: one `checkout` on its own, a bounded walk over the slots driven by a wrapping counter.
    What the world shows the walk in one round (liveness, clock readings, the outcome of a spawn) is an input. */
module PoolWalk {
  import opened Wrappers

  type BridgeId = nat

  /** The range of the 64-bit counter, and the largest length a slot vector can have. */
  const WRAP: nat := 0x1_0000_0000_0000_0000
  const MAX_SLOTS: nat := 0x7FFF_FFFF_FFFF_FFFF

  const RESPAWN_COOLDOWN: int := 1_000_000_000

  datatype Visit = Visit(alive: bool, coolAt: int, aliveUnderLock: bool, spawned: Option<BridgeId>, failedAt: int)

  datatype Pool = Pool(slots: seq<BridgeId>, next: nat, failedAt: Option<int>)

  predicate ValidPool(p: Pool) {
    0 < |p.slots| <= MAX_SLOTS && p.next < WRAP
  }

  predicate InCooldown(failedAt: Option<int>, now: int) {
    failedAt.Some? && now - failedAt.value < RESPAWN_COOLDOWN
  }

  /** The slot of round `i` of a walk that starts with the counter at `start`. */
  function SlotAt(start: nat, i: nat, n: nat): (k: nat)
    requires n > 0
    ensures k < n
  {
    (start + i) % WRAP % n
  }

  /** One round: the counter moves on; a live bridge, a bridge somebody else put there, or a new one ends it. */
  function Round(p: Pool, v: Visit): (Pool, Option<BridgeId>)
    requires ValidPool(p)
  {
    var k := p.next % |p.slots|;
    var q := p.(next := (p.next + 1) % WRAP);
    if v.alive then (q, Some(p.slots[k]))
    else if InCooldown(p.failedAt, v.coolAt) then (q, None)
    else if v.aliveUnderLock then (q, Some(p.slots[k]))
    else if v.spawned.Some? then (q.(slots := p.slots[k := v.spawned.value]), Some(v.spawned.value))
    else (q.(failedAt := Some(v.failedAt)), None)
  }

  /** The pool before round `i`, if all rounds before it failed. */
  function Before(p: Pool, world: seq<Visit>, i: nat): (q: Pool)
    requires ValidPool(p) && i <= |world|
    ensures ValidPool(q) && |q.slots| == |p.slots|
  {
    if i == 0 then p else Round(Before(p, world, i - 1), world[i - 1]).0
  }

  predicate Fails(p: Pool, world: seq<Visit>, i: nat)
    requires ValidPool(p) && i < |world|
  {
    Round(Before(p, world, i), world[i]).1 == None
  }

  lemma NoRoundYet(p: Pool, world: seq<Visit>)
    requires ValidPool(p)
    ensures Before(p, world, 0) == p
  {
  }

  lemma OneRoundMore(p: Pool, world: seq<Visit>, i: nat)
    requires ValidPool(p) && i < |world|
    ensures Before(p, world, i + 1) == Round(Before(p, world, i), world[i]).0
    ensures Fails(p, world, i) <==> Round(Before(p, world, i), world[i]).1 == None
  {
  }

  class BridgePool {
    const slots: array<BridgeId>
    var next: nat
    var lastRespawnFailedAt: Option<int>

    function View(): Pool
      reads this, slots
    {
      Pool(slots[..], next, lastRespawnFailedAt)
    }

    constructor (bridges: seq<BridgeId>)
      requires 0 < |bridges| <= MAX_SLOTS
      ensures ValidPool(View()) && View() == Pool(bridges, 0, None) && fresh(slots)
    {
      slots := new BridgeId[|bridges|](i requires 0 <= i < |bridges| => bridges[i]);
      next := 0;
      lastRespawnFailedAt := None;
    }

    method MarkRespawnFailed(now: int)
      modifies this`lastRespawnFailedAt
      ensures lastRespawnFailedAt == Some(now)
    {
      lastRespawnFailedAt := Some(now);
    }

    /** The first round that does not fail decides; `used` rounds were walked. */
    method Checkout(world: seq<Visit>) returns (bridge: Option<BridgeId>, used: nat)
      requires ValidPool(View()) && |world| == 2 * slots.Length
      modifies this, slots
      ensures used <= |world| && forall j: nat :: j + 1 < used ==> Fails(old(View()), world, j)
      ensures bridge.Some? ==> used > 0
      ensures bridge.Some? ==> Round(Before(old(View()), world, used - 1), world[used - 1]) == (View(), bridge)
      ensures bridge == None ==> used == |world| && View() == Before(old(View()), world, used)
      ensures bridge == None ==> forall j: nat :: j < |world| ==> Fails(old(View()), world, j)
    {
      ghost var p := View();
      hide Before;
      hide Fails;
      hide InCooldown;
      assert p == Before(p, world, 0) by {
        NoRoundYet(p, world);
      }
      for i := 0 to 2 * slots.Length
        invariant View() == Before(p, world, i)
        invariant forall j: nat :: j < i ==> Fails(p, world, j)
      {
        OneRoundMore(p, world, i);
        var v := world[i];
        var idx := next % slots.Length;
        next := (next + 1) % WRAP;
        assert slots[..][idx] == Before(p, world, i).slots[idx];
        if v.alive {
          return Some(slots[idx]), i + 1;
        }
        if InCooldown(lastRespawnFailedAt, v.coolAt) {
          continue;
        }
        if v.aliveUnderLock {
          return Some(slots[idx]), i + 1;
        }
        match v.spawned {
          case Some(b) =>
            slots[idx] := b;
            assert slots[..] == Before(p, world, i).slots[idx := b];
            return Some(b), i + 1;
          case None =>
            MarkRespawnFailed(v.failedAt);
        }
      }
      return None, 2 * slots.Length;
    }
  }

  // ----- which slots a walk sees

  lemma AddOneMod(a: nat, b: nat)
    requires b == a % WRAP
    ensures (b + 1) % WRAP == (a + 1) % WRAP
  {
  }

  lemma RoundMovesOn(p: Pool, v: Visit)
    requires ValidPool(p)
    ensures Round(p, v).0.next == (p.next + 1) % WRAP
  {
  }

  lemma {:induction false} CounterBefore(p: Pool, world: seq<Visit>, i: nat)
    requires ValidPool(p) && i <= |world|
    ensures Before(p, world, i).next == (p.next + i) % WRAP
  {
    hide Round;
    if i > 0 {
      CounterBefore(p, world, i - 1);
      RoundMovesOn(Before(p, world, i - 1), world[i - 1]);
      AddOneMod(p.next + i - 1, Before(p, world, i - 1).next);
    }
  }

  lemma SmallMultiple(n: int, d: int)
    requires 0 < n && -n < n * d < n
    ensures d == 0
  {
    if d >= 1 {
      SmallMultiplePositive(n, d);
    } else if d <= -1 {
      assert n * -d == -(n * d);
      SmallMultiplePositive(n, -d);
    }
  }

  lemma {:induction false} SmallMultiplePositive(n: nat, d: nat)
    requires d >= 1
    ensures n * d >= n
  {
    if d > 1 {
      SmallMultiplePositive(n, d - 1);
      assert n * d == n * (d - 1) + n;
    }
  }

  /** Quotient and remainder are unique. */
  lemma DivModUnique(a: nat, q: int, r: nat, n: nat)
    requires r < n && a == n * q + r
    ensures a / n == q && a % n == r
  {
    var q', r' := a / n, a % n;
    assert a == n * q' + r';
    assert n * (q' - q) == n * q' - n * q;
    SmallMultiple(n, q' - q);
  }

  /** The round, counted from a start below the wrap, at which slot `k` comes up first. */
  function FirstRound(start: nat, n: nat, k: nat): (i: nat)
    requires k < n
    ensures i < n
  {
    var r := start % n;
    if r <= k then k - r else k + n - r
  }

  lemma FirstRoundHits(start: nat, n: nat, k: nat)
    requires k < n
    ensures (start + FirstRound(start, n, k)) % n == k
  {
    var q, r := start / n, start % n;
    assert start == n * q + r;
    assert n * (q + 1) == n * q + n;
    DivModUnique(start + FirstRound(start, n, k), if r <= k then q else q + 1, k, n);
  }

  lemma ModStep(a: nat, n: nat)
    requires n > 0
    ensures (a + n) % n == a % n
  {
    var q, r := a / n, a % n;
    assert a == n * q + r;
    assert n * (q + 1) == n * q + n;
    DivModUnique(a + n, q + 1, r, n);
  }

  /** Equal remainders less than `n` apart are the same number. */
  lemma ModInjective(a: nat, b: nat, n: nat)
    requires n > 0 && a <= b < a + n && a % n == b % n
    ensures a == b
  {
    var qa, qb := a / n, b / n;
    assert a == n * qa + a % n && b == n * qb + b % n;
    assert n * (qb - qa) == n * qb - n * qa;
    SmallMultiple(n, qb - qa);
  }

  /** Every slot comes up in some round, even when the counter wraps on the way. */
  lemma EverySlotComesUp(start: nat, n: nat, k: nat)
    requires 0 < n <= MAX_SLOTS && start < WRAP && k < n
    ensures exists i: nat :: i < 2 * n && SlotAt(start, i, n) == k
  {
    if start + n <= WRAP {
      var i := FirstRound(start, n, k);
      FirstRoundHits(start, n, k);
      DivModUnique(start + i, 0, start + i, WRAP);
      assert SlotAt(start, i, n) == k;
    } else {
      var i := WRAP - start + k;
      DivModUnique(start + i, 1, k, WRAP);
      DivModUnique(k, 0, k, n);
      assert SlotAt(start, i, n) == k;
    }
  }

  /** Without a wrap every slot comes up in exactly two rounds. */
  lemma EverySlotComesUpTwice(start: nat, n: nat, k: nat)
    requires 0 < n <= MAX_SLOTS && start + 2 * n <= WRAP && k < n
    ensures var f := FirstRound(start, n, k);
            forall i: nat :: i < 2 * n ==> (SlotAt(start, i, n) == k <==> i == f || i == f + n)
  {
    var f := FirstRound(start, n, k);
    FirstRoundHits(start, n, k);
    hide *;
    forall i: nat | i < 2 * n ensures SlotAt(start, i, n) == k <==> i == f || i == f + n {
      ComesUpTwice(start, n, k, f, i);
    }
  }

  lemma ComesUpTwice(start: nat, n: nat, k: nat, f: nat, i: nat)
    requires f < n && i < 2 * n && start + 2 * n <= WRAP && (start + f) % n == k
    ensures SlotAt(start, i, n) == k <==> i == f || i == f + n
  {
    NoWrap(start, i, n);
    hide *;
    if i < n {
      ModTwin(start + i, start + f, n);
    } else {
      ModStep(start + f, n);
      ModTwin(start + i, start + f + n, n);
    }
  }

  lemma NoWrap(start: nat, i: nat, n: nat)
    requires n > 0 && start + i < WRAP
    ensures SlotAt(start, i, n) == (start + i) % n
  {
    assert (start + i) % WRAP == start + i;
  }

  lemma ModTwin(a: nat, b: nat, n: nat)
    requires n > 0 && a < b + n && b < a + n
    ensures a % n == b % n <==> a == b
  {
    if a % n == b % n {
      if a <= b {
        ModInjective(a, b, n);
      } else {
        ModInjective(b, a, n);
      }
    }
  }

  // ----- what a result means

  /** An error means that every slot was visited, found dead, and skipped for the cooldown or not respawned. */
  lemma ErrorMeansEverySlotFailed(p: Pool, world: seq<Visit>, k: nat)
    requires ValidPool(p) && |world| == 2 * |p.slots| && k < |p.slots|
    requires forall j: nat :: j < |world| ==> Fails(p, world, j)
    ensures exists i: nat :: i < |world| && SlotAt(p.next, i, |p.slots|) == k && !world[i].alive
                             && (InCooldown(Before(p, world, i).failedAt, world[i].coolAt)
                                 || (!world[i].aliveUnderLock && world[i].spawned == None))
  {
    EverySlotComesUp(p.next, |p.slots|, k);
    var i: nat :| i < 2 * |p.slots| && SlotAt(p.next, i, |p.slots|) == k;
    assert Fails(p, world, i);
  }

  /** Failed rounds leave the slots alone. */
  lemma {:induction false} FailuresKeepSlots(p: Pool, world: seq<Visit>, i: nat)
    requires ValidPool(p) && i <= |world| && forall j: nat :: j < i ==> Fails(p, world, j)
    ensures Before(p, world, i).slots == p.slots
  {
    if i > 0 {
      FailuresKeepSlots(p, world, i - 1);
      assert Fails(p, world, i - 1);
    }
  }

  /** A round that succeeds returns what it saw alive in slot `k`, or a new bridge it put there. */
  ghost predicate LiveOrNew(before: Pool, v: Visit, k: nat, after: Pool, b: Option<BridgeId>)
    requires k < |before.slots|
  {
    b.Some? && |after.slots| == |before.slots| && after.slots[k] == b.value
    && (forall m :: 0 <= m < |before.slots| && m != k ==> after.slots[m] == before.slots[m])
    && ((after.slots[k] == before.slots[k] && (v.alive || v.aliveUnderLock))
        || (v.spawned == b && !v.alive && !v.aliveUnderLock))
  }

  lemma RoundSucceeds(p: Pool, v: Visit, k: nat)
    requires ValidPool(p) && k == p.next % |p.slots| && Round(p, v).1.Some?
    ensures LiveOrNew(p, v, k, Round(p, v).0, Round(p, v).1)
  {
  }

  /** A walk that ends in round `i` returns what stood in that round's slot and was seen alive, or a bridge it
      spawned into that slot, and no other slot changes. */
  lemma SuccessMeansLiveOrNew(p: Pool, world: seq<Visit>, i: nat)
    requires ValidPool(p) && i < |world| && !Fails(p, world, i) && forall j: nat :: j < i ==> Fails(p, world, j)
    ensures var (q, b) := Round(Before(p, world, i), world[i]);
            LiveOrNew(p, world[i], SlotAt(p.next, i, |p.slots|), q, b) && q == Before(p, world, i + 1)
  {
    var b := Before(p, world, i);
    FailuresKeepSlots(p, world, i);
    assert b.next == (p.next + i) % WRAP by {
      CounterBefore(p, world, i);
    }
    RoundSucceeds(b, world[i], b.next % |p.slots|);
  }

  /** Round `i` tried to spawn and failed. */
  predicate SpawnFailed(p: Pool, world: seq<Visit>, i: nat)
    requires ValidPool(p) && i < |world|
  {
    Fails(p, world, i) && !InCooldown(Before(p, world, i).failedAt, world[i].coolAt)
  }

  /** The mark of a failed spawn is only ever replaced by that of a later one. */
  lemma {:induction false} MarkIsKept(p: Pool, world: seq<Visit>, i: nat, j: nat)
    requires ValidPool(p) && i < j <= |world| && forall m: nat :: m < j ==> Fails(p, world, m)
    requires SpawnFailed(p, world, i)
    requires forall m: nat :: m < |world| ==> world[m].coolAt <= world[m].failedAt
    ensures Before(p, world, j).failedAt.Some? && Before(p, world, j).failedAt.value >= world[i].failedAt
    decreases j
  {
    if j > i + 1 {
      MarkIsKept(p, world, i, j - 1);
      assert Fails(p, world, j - 1);
    }
  }

  /** Within one walk, a spawn is tried no sooner than the cooldown after every failed spawn before it. */
  lemma SpawnsWithinAWalkAreSpaced(p: Pool, world: seq<Visit>, i: nat, j: nat)
    requires ValidPool(p) && i < j < |world| && forall m: nat :: m < j ==> Fails(p, world, m)
    requires forall m: nat :: m < |world| ==> world[m].coolAt <= world[m].failedAt
    requires SpawnFailed(p, world, i)
    requires !world[j].alive && !InCooldown(Before(p, world, j).failedAt, world[j].coolAt)
    ensures world[j].coolAt >= world[i].failedAt + RESPAWN_COOLDOWN
  {
    MarkIsKept(p, world, i, j);
  }
}
