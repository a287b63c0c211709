/** handler.rs: the timestamp window and the nonce cache, alone and over whole runs with the sweep. */
module ReplayGuard {
  import opened Clock
  import opened Wrappers

  const REPLAY_WINDOW_SECS: int := 300
  const WINDOW: int := REPLAY_WINDOW_SECS * SECOND

  /** The longest wait between a check's two clock readings that leaves three acceptances. */
  const PATIENCE: int := WINDOW - SECOND

  const I64_MODULUS: int := 0x1_0000_0000_0000_0000
  const I64_HALF: int := 0x8000_0000_0000_0000

  predicate IsI64(x: int) {
    -I64_HALF <= x < I64_HALF
  }

  /** A difference of two 64-bit numbers, and the absolute value of one, as the release build computes them. */
  function Wrapped(x: int): int {
    (x + I64_HALF) % I64_MODULUS - I64_HALF
  }

  function AbsI64(x: int): int {
    Wrapped(if x < 0 then -x else x)
  }

  predicate InWindow(wall: int, ts: int) {
    AbsI64(Wrapped(wall - ts)) <= REPLAY_WINDOW_SECS
  }

  /** Wall clock readings: seconds since the epoch, short of the last five minutes of the 64-bit range. */
  predicate IsWall(wall: int) {
    0 <= wall < I64_HALF - REPLAY_WINDOW_SECS
  }

  /** The test is the intended one, but for the single timestamp whose distance has no 64-bit absolute value. */
  lemma WindowExactly(wall: int, ts: int)
    requires IsI64(ts) && IsWall(wall)
    ensures InWindow(wall, ts) <==> -REPLAY_WINDOW_SECS <= wall - ts <= REPLAY_WINDOW_SECS || wall - ts == I64_HALF
  {
    var d := wall - ts;
    if d < I64_HALF {
      assert (d + I64_HALF) % I64_MODULUS == d + I64_HALF;
    } else {
      assert (d + I64_HALF) % I64_MODULUS == d + I64_HALF - I64_MODULUS;
      assert Wrapped(d) == d - I64_MODULUS;
      assert d == I64_HALF ==> Wrapped(I64_HALF) == -I64_HALF;
      assert d > I64_HALF ==> AbsI64(Wrapped(d)) == I64_MODULUS - d;
    }
  }

  datatype Verdict = Accepted | NonNumeric | OutsideWindow | SeenBefore

  /** `ts` is the parsed timestamp; `wall`, `at` and `stamp` are the clock readings in the order they are made. */
  datatype Call =
    | Check(ts: Option<int>, nonce: string, wall: int, at: int, stamp: int)
    | Sweep(at: int)

  type Nonces = map<string, int>

  function Pruned(m: Nonces, now: int): Nonces {
    map n | n in m && m[n] > now - WINDOW :: m[n]
  }

  function Judged(m: Nonces, c: Call): (r: (Nonces, Verdict))
    requires c.Check?
  {
    if c.ts == None then (m, NonNumeric)
    else if !InWindow(c.wall, c.ts.value) then (m, OutsideWindow)
    else if c.nonce in Pruned(m, c.at) then (Pruned(m, c.at), SeenBefore)
    else (Pruned(m, c.at)[c.nonce := c.stamp], Accepted)
  }

  function After(m: Nonces, c: Call): Nonces {
    if c.Check? then Judged(m, c).0 else Pruned(m, c.at)
  }

  class NonceCache {
    var seen: Nonces

    constructor ()
      ensures seen == map[]
    {
      seen := map[];
    }

    method CheckReplay(ts: Option<int>, nonce: string, wall: int, at: int, stamp: int) returns (v: Verdict)
      modifies this
      ensures (seen, v) == Judged(old(seen), Check(ts, nonce, wall, at, stamp))
      ensures v == Accepted <==> ts.Some? && InWindow(wall, ts.value)
                                 && !(nonce in old(seen) && at < old(seen)[nonce] + WINDOW)
      ensures forall c: Call :: v == Accepted && c.Check? && c.nonce == nonce && c.at < stamp + WINDOW ==>
                Judged(seen, c).1 != Accepted
      ensures v != Accepted ==> seen.Keys <= old(seen).Keys
      ensures forall c: Call :: c.Check? && at <= c.at && (v == Accepted ==> c.nonce != nonce) ==>
                Judged(seen, c).1 == Judged(old(seen), c).1
    {
      if ts == None {
        return NonNumeric;
      }
      if AbsI64(Wrapped(wall - ts.value)) > REPLAY_WINDOW_SECS {
        return OutsideWindow;
      }
      var cutoff := at - WINDOW;
      seen := map n | n in seen && seen[n] > cutoff :: seen[n];
      if nonce in seen {
        return SeenBefore;
      }
      seen := seen[nonce := stamp];
      return Accepted;
    }

    method GcNonces(now: int) returns (evicted: int)
      modifies this
      ensures seen == After(old(seen), Sweep(now)) && evicted == |old(seen)| - |seen|
      ensures forall c: Call :: c.Check? && now <= c.at ==> Judged(seen, c).1 == Judged(old(seen), c).1
      ensures forall n :: n in seen ==> now < seen[n] + WINDOW
    {
      var before := |seen|;
      seen := map n | n in seen && seen[n] > now - WINDOW :: seen[n];
      evicted := before - |seen|;
    }
  }

  // ----- runs

  /** The cache before call `i`. */
  function CacheBefore(calls: seq<Call>, i: nat): Nonces
    requires i <= |calls|
  {
    if i == 0 then map[] else After(CacheBefore(calls, i - 1), calls[i - 1])
  }

  predicate AcceptedAt(calls: seq<Call>, i: nat, nonce: string) {
    i < |calls| && calls[i].Check? && calls[i].nonce == nonce && Judged(CacheBefore(calls, i), calls[i]).1 == Accepted
  }

  function End(c: Call): int {
    if c.Check? then c.stamp else c.at
  }

  /** Calls take the cache's lock one after the other. */
  ghost predicate Ordered(calls: seq<Call>) {
    (forall i :: 0 <= i < |calls| ==> calls[i].at <= End(calls[i]))
    && forall i, j :: 0 <= i < j < |calls| ==> End(calls[i]) <= calls[j].at
  }

  /** Until a prune a whole window later, an accepted nonce stays in the cache. */
  lemma {:induction false} NonceStays(calls: seq<Call>, i: nat, m: nat, nonce: string)
    requires Ordered(calls) && AcceptedAt(calls, i, nonce) && i < m <= |calls|
    ensures (nonce in CacheBefore(calls, m) && CacheBefore(calls, m)[nonce] >= calls[i].stamp)
            || calls[m - 1].at >= calls[i].stamp + WINDOW
    decreases m
  {
    if m > i + 1 {
      NonceStays(calls, i, m - 1, nonce);
      assert calls[m - 2].at <= End(calls[m - 2]) <= calls[m - 1].at;
    }
  }

  /** Two acceptances of one nonce are at least a window apart. */
  lemma AcceptancesAreSpaced(calls: seq<Call>, i: nat, j: nat, nonce: string)
    requires Ordered(calls) && i < j && AcceptedAt(calls, i, nonce) && AcceptedAt(calls, j, nonce)
    ensures calls[j].at >= calls[i].stamp + WINDOW
  {
    NonceStays(calls, i, j, nonce);
    assert calls[j - 1].at <= End(calls[j - 1]) <= calls[j].at;
  }

  /** Both clocks advance together: the wall clock shows whole seconds of an instant at most `delay` before the one
      at which the cache is pruned, for a check reads it before it waits for the cache. */
  ghost predicate ClocksAgree(calls: seq<Call>, offset: int, delay: nat) {
    forall i :: 0 <= i < |calls| && calls[i].Check? ==> Agrees(calls[i].wall, calls[i].at, offset, delay)
  }

  predicate Agrees(wall: int, at: int, offset: int, delay: nat) {
    (at - delay + offset) / SECOND <= wall <= (at + offset) / SECOND && IsWall(wall)
  }

  lemma SecondsApart(a: int, b: int, delay: nat)
    requires b >= a + 3 * WINDOW && delay <= PATIENCE
    ensures (b - delay) / SECOND >= a / SECOND + 601
  {
  }

  lemma Window(wall: int, ts: int)
    requires IsI64(ts) && IsWall(wall) && InWindow(wall, ts)
    ensures -REPLAY_WINDOW_SECS <= wall - ts <= REPLAY_WINDOW_SECS || wall - ts == I64_HALF
  {
    WindowExactly(wall, ts);
  }

  /** A fourth acceptance of one nonce with one timestamp is impossible, as long as no check waits longer than that. */
  lemma AcceptedAtMostThrice(calls: seq<Call>, offset: int, delay: nat, ts: int, nonce: string,
                             i: nat, j: nat, k: nat, l: nat)
    requires Ordered(calls) && ClocksAgree(calls, offset, delay) && delay <= PATIENCE
    requires IsI64(ts) && i < j < k < l < |calls|
    requires AcceptedAt(calls, i, nonce) && AcceptedAt(calls, j, nonce) && AcceptedAt(calls, k, nonce)
    requires calls[i].ts == Some(ts) && calls[l].Check? && calls[l].ts == Some(ts)
    ensures !AcceptedAt(calls, l, nonce)
  {
    if AcceptedAt(calls, l, nonce) {
      FourAreApart(calls, i, j, k, l, nonce);
      SecondsApart(calls[i].at + offset, calls[l].at + offset, delay);
      Window(calls[i].wall, ts);
      Window(calls[l].wall, ts);
      assert false;
    }
  }

  lemma FourAreApart(calls: seq<Call>, i: nat, j: nat, k: nat, l: nat, nonce: string)
    requires Ordered(calls) && i < j < k < l < |calls|
    requires AcceptedAt(calls, i, nonce) && AcceptedAt(calls, j, nonce)
    requires AcceptedAt(calls, k, nonce) && AcceptedAt(calls, l, nonce)
    ensures calls[l].at >= calls[i].at + 3 * WINDOW
  {
    AcceptancesAreSpaced(calls, i, j, nonce);
    AcceptancesAreSpaced(calls, j, k, nonce);
    AcceptancesAreSpaced(calls, k, l, nonce);
    assert calls[i].at <= End(calls[i]) && calls[j].at <= End(calls[j]) && calls[k].at <= End(calls[k]);
  }

  /** The cache holds this nonce at most, and from before the window. */
  predicate Expired(m: Nonces, nonce: string, at: int) {
    m.Keys <= {nonce} && (nonce in m ==> m[nonce] <= at - WINDOW)
  }

  /** A check a window later is accepted, and so is the next one a window after that. */
  lemma AcceptedAgain(calls: seq<Call>, i: nat, nonce: string)
    requires i < |calls| && calls[i].Check? && calls[i].nonce == nonce && calls[i].ts.Some?
    requires InWindow(calls[i].wall, calls[i].ts.value) && Expired(CacheBefore(calls, i), nonce, calls[i].at)
    ensures AcceptedAt(calls, i, nonce)
    ensures i + 1 < |calls| && calls[i + 1].at >= calls[i].stamp + WINDOW ==>
              Expired(CacheBefore(calls, i + 1), nonce, calls[i + 1].at)
  {
    assert Pruned(CacheBefore(calls, i), calls[i].at) == map[];
  }

  /** Checks of one timestamp and nonce at these wall clock readings and instants. */
  function Checks(nonce: string, walls: seq<int>, ats: seq<int>): (r: seq<Call>)
    requires |walls| == |ats|
    ensures |r| == |ats|
    ensures forall i :: 0 <= i < |ats| ==> r[i] == Check(Some(300), nonce, walls[i], ats[i], ats[i])
  {
    seq(|ats|, i requires 0 <= i < |ats| => Check(Some(300), nonce, walls[i], ats[i], ats[i]))
  }

  /** Such checks are all accepted when they are a window apart. */
  lemma {:induction false} SpacedAreAccepted(nonce: string, walls: seq<int>, ats: seq<int>, i: nat)
    requires |walls| == |ats| && i < |ats| && forall j :: 0 <= j < |ats| ==> InWindow(walls[j], 300)
    requires forall j, k :: 0 <= j < k < |ats| ==> ats[j] + WINDOW <= ats[k]
    ensures Expired(CacheBefore(Checks(nonce, walls, ats), i), nonce, ats[i])
    ensures AcceptedAt(Checks(nonce, walls, ats), i, nonce)
  {
    var calls := Checks(nonce, walls, ats);
    if i > 0 {
      SpacedAreAccepted(nonce, walls, ats, i - 1);
      AcceptedAgain(calls, i - 1, nonce);
    }
    AcceptedAgain(calls, i, nonce);
  }

  lemma SpacedAreOrdered(nonce: string, walls: seq<int>, ats: seq<int>)
    requires |walls| == |ats| && forall j, k :: 0 <= j < k < |ats| ==> ats[j] + WINDOW <= ats[k]
    ensures Ordered(Checks(nonce, walls, ats))
  {
  }

  lemma ReadingsAgree(nonce: string, walls: seq<int>, ats: seq<int>, delay: nat)
    requires |walls| == |ats| && forall j :: 0 <= j < |ats| ==> Agrees(walls[j], ats[j], 0, delay)
    ensures ClocksAgree(Checks(nonce, walls, ats), 0, delay)
  {
  }

  /** Three are possible. */
  lemma AcceptedThrice(nonce: string) returns (calls: seq<Call>)
    ensures Ordered(calls) && ClocksAgree(calls, 0, 0)
    ensures AcceptedAt(calls, 0, nonce) && AcceptedAt(calls, 1, nonce) && AcceptedAt(calls, 2, nonce)
    ensures calls[0].ts == calls[1].ts == calls[2].ts
  {
    hide *;
    var walls, ats := [0, 300, 600], [0, WINDOW, WINDOW + WINDOW];
    calls := Checks(nonce, walls, ats);
    ThreeReadings();
    SpacedAreOrdered(nonce, walls, ats);
    ReadingsAgree(nonce, walls, ats, 0);
    SpacedAreAccepted(nonce, walls, ats, 0);
    SpacedAreAccepted(nonce, walls, ats, 1);
    SpacedAreAccepted(nonce, walls, ats, 2);
  }

  lemma InNanoseconds()
    ensures WINDOW == 300_000_000_000 && SECOND == 1_000_000_000 && PATIENCE == 299_000_000_000
  {
  }

  lemma ThreeReadings()
    ensures WINDOW >= 0 && InWindow(0, 300) && InWindow(300, 300) && InWindow(600, 300)
    ensures Agrees(0, 0, 0, 0) && Agrees(300, WINDOW, 0, 0) && Agrees(600, WINDOW + WINDOW, 0, 0)
  {
    InNanoseconds();
    WindowExactly(0, 300);
    WindowExactly(300, 300);
    WindowExactly(600, 300);
  }

  lemma FourReadings(delay: nat)
    requires delay > PATIENCE
    ensures IsI64(300)
    ensures Agrees(0, 0, 0, delay) && Agrees(300, WINDOW, 0, delay) && Agrees(600, WINDOW + WINDOW, 0, delay)
    ensures Agrees(600, WINDOW + WINDOW + WINDOW, 0, delay)
  {
    InNanoseconds();
  }

  /** The pair is accepted at each of four calls of a run. */
  ghost predicate Fourfold(calls: seq<Call>, offset: int, delay: nat, ts: int, nonce: string,
                           i: nat, j: nat, k: nat, l: nat)
  {
    Ordered(calls) && ClocksAgree(calls, offset, delay) && IsI64(ts) && i < j < k < l < |calls|
    && AcceptedAt(calls, i, nonce) && AcceptedAt(calls, j, nonce)
    && AcceptedAt(calls, k, nonce) && AcceptedAt(calls, l, nonce)
    && calls[i].ts == calls[j].ts == calls[k].ts == calls[l].ts == Some(ts)
  }

  /** Four are possible when a check waits longer than 299 seconds between its two clocks. */
  lemma AcceptedFourTimes(nonce: string, delay: nat) returns (calls: seq<Call>)
    requires delay > PATIENCE
    ensures Fourfold(calls, 0, delay, 300, nonce, 0, 1, 2, 3)
  {
    hide *;
    var walls, ats := [0, 300, 600, 600], [0, WINDOW, WINDOW + WINDOW, WINDOW + WINDOW + WINDOW];
    calls := Checks(nonce, walls, ats);
    ThreeReadings();
    FourReadings(delay);
    SpacedAreOrdered(nonce, walls, ats);
    ReadingsAgree(nonce, walls, ats, delay);
    SpacedAreAccepted(nonce, walls, ats, 0);
    SpacedAreAccepted(nonce, walls, ats, 1);
    SpacedAreAccepted(nonce, walls, ats, 2);
    SpacedAreAccepted(nonce, walls, ats, 3);
    IsFourfold(calls, 0, delay, 300, nonce, 0, 1, 2, 3);
  }

  lemma IsFourfold(calls: seq<Call>, offset: int, delay: nat, ts: int, nonce: string, i: nat, j: nat, k: nat, l: nat)
    requires Ordered(calls) && ClocksAgree(calls, offset, delay) && IsI64(ts) && i < j < k < l < |calls|
    requires AcceptedAt(calls, i, nonce) && AcceptedAt(calls, j, nonce)
    requires AcceptedAt(calls, k, nonce) && AcceptedAt(calls, l, nonce)
    requires forall m :: 0 <= m < |calls| ==> calls[m].Check? && calls[m].ts == Some(ts)
    ensures Fourfold(calls, offset, delay, ts, nonce, i, j, k, l)
  {
  }

  /** No run accepts a timestamp and nonce four times exactly when no check waits longer than 299 seconds. */
  lemma FourAcceptancesExactly(delay: nat)
    ensures delay <= PATIENCE
            <==> !exists calls, offset, ts, nonce, i, j, k, l :: Fourfold(calls, offset, delay, ts, nonce, i, j, k, l)
  {
    if delay > PATIENCE {
      var calls := AcceptedFourTimes("", delay);
    } else {
      forall calls, offset, ts, nonce, i, j, k, l ensures !Fourfold(calls, offset, delay, ts, nonce, i, j, k, l) {
        if Fourfold(calls, offset, delay, ts, nonce, i, j, k, l) {
          AcceptedAtMostThrice(calls, offset, delay, ts, nonce, i, j, k, l);
        }
      }
    }
  }
}
