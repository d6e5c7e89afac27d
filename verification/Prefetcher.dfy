/** The stride predictor and the scheduling loop of avs_core/core/Prefetcher.cpp. */
module Prefetcher {
  // ----- The stride predictor -----

  const PATTERN_LOCK_LENGTH: int := 3

  datatype Predictor = Predictor(lockedPattern: int, hits: int, misses: int, pattern: int, isLocked: bool, last: int)

  function Stride(last: int, n: int): (d: int)
    ensures d != 0
    ensures n != last ==> d == n - last
  {
    if n == last then 1 else n - last
  }

  /** What one observed stride does to the predictor. */
  function Observe(p: Predictor, d: int): (r: Predictor) {
    if p.isLocked then
      var hits := if d != p.lockedPattern && d == p.pattern then p.hits + 1 else 0;
      var misses := if d == p.lockedPattern then 0 else p.misses + 1;
      if misses >= PATTERN_LOCK_LENGTH && hits >= PATTERN_LOCK_LENGTH then
        p.(lockedPattern := d, pattern := d, hits := 0, misses := 0)
      else
        p.(pattern := d, hits := hits, misses := misses, isLocked := misses < PATTERN_LOCK_LENGTH)
    else if d == p.pattern then
      if p.hits + 1 >= PATTERN_LOCK_LENGTH then
        p.(hits := p.hits + 1, misses := 0, lockedPattern := d, isLocked := true)
      else p.(hits := p.hits + 1, misses := 0)
    else p.(hits := 0, misses := p.misses + 1)
  }

  function ObserveAll(p: Predictor, strides: seq<int>): (r: Predictor)
    decreases strides
  {
    if strides == [] then p else ObserveAll(Observe(p, strides[0]), strides[1..])
  }

  function Times(d: int, n: nat): (r: seq<int>)
    ensures |r| == n && forall i :: 0 <= i < n ==> r[i] == d
  {
    seq(n, i => d)
  }

  /** Holds initially and after every observation of a nonzero stride. */
  predicate Sound(p: Predictor) {
    && p.lockedPattern != 0 && p.pattern != 0 && p.hits >= 0 && p.misses >= 0
    && (p.isLocked ==> p.misses < PATTERN_LOCK_LENGTH
                       && (p.hits <= p.misses || (p.pattern == p.lockedPattern && p.misses == 0)))
    && (!p.isLocked ==> p.hits < PATTERN_LOCK_LENGTH)
  }

  const Initial: Predictor := Predictor(1, 0, 0, 1, false, 0)

  lemma ObserveSound(p: Predictor, d: int)
    requires Sound(p) && d != 0
    ensures Sound(Observe(p, d)) && Sound(Initial)
  {
  }

  lemma {:induction false} ObserveAllSound(p: Predictor, strides: seq<int>)
    requires Sound(p) && forall d :: d in strides ==> d != 0
    ensures Sound(ObserveAll(p, strides))
    decreases strides
  {
    if strides != [] {
      assert strides[0] in strides;
      forall d | d in strides[1..] ensures d != 0 { assert d in strides; }
      ObserveSound(p, strides[0]);
      ObserveAllSound(Observe(p, strides[0]), strides[1..]);
    }
  }

  /** From whatever locked state the predictor can be in, four equal strides leave it locked on that stride. */
  lemma FourEqualStridesRelock(strides: seq<int>, d: int)
    requires d != 0 && forall e :: e in strides ==> e != 0
    requires ObserveAll(Initial, strides).isLocked
    ensures var p := ObserveAll(ObserveAll(Initial, strides), [d, d, d, d]);
      p.isLocked && p.lockedPattern == d
  {
    ObserveAllSound(Initial, strides);
    var p := ObserveAll(Initial, strides);
    var p1 := Observe(p, d);
    var p2 := Observe(p1, d);
    var p3 := Observe(p2, d);
    var p4 := Observe(p3, d);
    assert [d, d, d, d][1..] == [d, d, d] && [d, d, d][1..] == [d, d] && [d, d][1..] == [d] && [d][1..] == [];
    assert ObserveAll(p3, [d]) == ObserveAll(p4, []) == p4;
    assert ObserveAll(p2, [d, d]) == p4;
    assert ObserveAll(p1, [d, d, d]) == p4;
    assert ObserveAll(p, [d, d, d, d]) == p4;
  }

  /** While unlocked the stored pattern never changes, so n equal strides bring a lock exactly when they
      repeat that pattern and are enough of them; any other stride may go on for ever without a lock. */
  lemma UnlockedLocksExactly(p: Predictor, d: int, n: nat)
    requires Sound(p) && !p.isLocked && d != 0
    ensures (exists k: nat :: k <= n && ObserveAll(p, Times(d, k)).isLocked)
            <==> d == p.pattern && p.hits + n >= 3
  {
    if d != p.pattern {
      forall k: nat ensures !ObserveAll(p, Times(d, k)).isLocked { OtherStrideNeverLocks(p, d, k); }
    } else if p.hits + n >= PATTERN_LOCK_LENGTH {
      PatternLocks(p, PATTERN_LOCK_LENGTH - p.hits);
    } else {
      forall k: nat | k <= n ensures !ObserveAll(p, Times(d, k)).isLocked { TooFewNeverLock(p, k); }
    }
  }

  /** A locked predictor that has missed has not seen all its misses alike; so it is never locked anew at once. */
  predicate Settled(p: Predictor) {
    Sound(p) && (p.isLocked ==> if p.misses == 0 then p.pattern == p.lockedPattern else p.hits < p.misses)
  }

  lemma {:induction false} ObserveAllSettled(p: Predictor, strides: seq<int>)
    requires Settled(p) && forall d :: d in strides ==> d != 0
    ensures Settled(ObserveAll(p, strides))
    decreases strides
  {
    if strides != [] {
      assert strides[0] in strides;
      forall d | d in strides[1..] ensures d != 0 { assert d in strides; }
      ObserveSound(p, strides[0]);
      ObserveAllSettled(Observe(p, strides[0]), strides[1..]);
    }
  }

  /** A lock is lost with the third stride in a row that does not fit it, not before, and never moves to another stride
      on the way. */
  lemma ThirdMissUnlocks(strides: seq<int>, a: int, b: int, c: int)
    requires a != 0 && b != 0 && c != 0 && forall e :: e in strides ==> e != 0
    requires ObserveAll(Initial, strides).isLocked
    requires var d := ObserveAll(Initial, strides).lockedPattern; a != d && b != d && c != d
    ensures var p := Observe(ObserveAll(Initial, strides), ObserveAll(Initial, strides).lockedPattern);
      && p.isLocked && p.lockedPattern == ObserveAll(Initial, strides).lockedPattern
      && Observe(p, a).isLocked && Observe(p, a).lockedPattern == p.lockedPattern
      && Observe(Observe(p, a), b).isLocked && Observe(Observe(p, a), b).lockedPattern == p.lockedPattern
      && !Observe(Observe(Observe(p, a), b), c).isLocked
  {
    ObserveAllSettled(Initial, strides);
  }

  lemma {:induction false} OtherStrideNeverLocks(p: Predictor, d: int, k: nat)
    requires !p.isLocked && d != p.pattern
    ensures !ObserveAll(p, Times(d, k)).isLocked
    decreases k
  {
    if k > 0 {
      assert Times(d, k)[1..] == Times(d, k - 1);
      OtherStrideNeverLocks(Observe(p, d), d, k - 1);
    }
  }

  lemma {:induction false} PatternLocks(p: Predictor, k: nat)
    requires !p.isLocked && p.hits + k == PATTERN_LOCK_LENGTH && k > 0
    ensures var q := ObserveAll(p, Times(p.pattern, k)); q.isLocked && q.lockedPattern == p.pattern && q.misses == 0
    decreases k
  {
    var d, q := p.pattern, Observe(p, p.pattern);
    assert Times(d, k)[1..] == Times(d, k - 1);
    if k > 1 {
      PatternLocks(q, k - 1);
    }
  }

  lemma {:induction false} TooFewNeverLock(p: Predictor, k: nat)
    requires !p.isLocked && p.hits + k < PATTERN_LOCK_LENGTH
    ensures !ObserveAll(p, Times(p.pattern, k)).isLocked
    decreases k
  {
    var d := p.pattern;
    if k > 0 {
      assert Times(d, k)[1..] == Times(d, k - 1);
      TooFewNeverLock(Observe(p, d), k - 1);
    }
  }

  // ----- Scheduling -----

  function Abs(x: int): (r: nat)
    ensures r == x || r == -x
  {
    if x < 0 then -x else x
  }

  /** The frames from `start` on, one stride apart. */
  function Grid(start: int, step: int, m: nat): (n: int)
    decreases m
  {
    if m == 0 then start else Grid(start, step, m - 1) + step
  }

  lemma {:induction false} GridMonotone(start: int, step: int, i: nat, j: nat)
    requires i < j && step != 0
    ensures step > 0 ==> Grid(start, step, j) >= Grid(start, step, i) + (j - i)
    ensures step < 0 ==> Grid(start, step, j) <= Grid(start, step, i) - (j - i)
    decreases j
  {
    if i < j - 1 {
      GridMonotone(start, step, i, j - 1);
    }
  }

  lemma {:induction false} GridIs(start: int, step: int, m: nat)
    ensures Grid(start, step, m) == start + m * step
    decreases m
  {
    if m > 0 {
      GridIs(start, step, m - 1);
      assert m * step == (m - 1) * step + step;
    }
  }

  /** One of the first `tries` frames behind `start`. */
  ghost predicate OnGrid(start: int, step: int, tries: nat, n: int) {
    exists k: nat :: 1 <= k <= tries && n == Grid(start, step, k)
  }

  /** What has been queued after so many tries: frames of the clip on the grid, each once, in the order of the search. */
  ghost predicate Tried(queued: seq<int>, start: int, step: int, tries: nat, numFrames: int) {
    && (forall i :: 0 <= i < |queued| ==> queued[i] < numFrames && OnGrid(start, step, tries, queued[i]))
    && (forall i, j :: 0 <= i < j < |queued| ==> if step > 0 then queued[i] < queued[j] else queued[i] > queued[j])
  }

  /** A call may come to try the k-th frame: none before it is out of reach or beyond the clip. */
  ghost predicate MayTry(start: int, currentN: int, step: int, reach: int, numFrames: int, k: nat) {
    k >= 1 && forall j: nat :: j < k ==>
      Abs(Grid(start, step, j) - currentN) < reach && (j >= 1 ==> Grid(start, step, j) < numFrames)
  }

  lemma MayTryNext(start: int, currentN: int, step: int, reach: int, numFrames: int, k: nat)
    requires k > 0 ==> MayTry(start, currentN, step, reach, numFrames, k)
    ensures MayTry(start, currentN, step, reach, numFrames, k + 1)
      <==> Abs(Grid(start, step, k) - currentN) < reach && (k > 0 ==> Grid(start, step, k) < numFrames)
  {
  }

  lemma StillOnGrid(start: int, step: int, tries: nat, n: int)
    requires OnGrid(start, step, tries, n) && step != 0
    ensures OnGrid(start, step, tries + 1, n)
    ensures var next := Grid(start, step, tries + 1); if step > 0 then n < next else n > next
  {
    var k: nat :| 1 <= k <= tries && n == Grid(start, step, k);
    GridMonotone(start, step, k, tries + 1);
  }

  lemma TriedMore(queued: seq<int>, start: int, step: int, tries: nat, numFrames: int)
    requires Tried(queued, start, step, tries, numFrames) && step != 0
    ensures Tried(queued, start, step, tries + 1, numFrames)
    ensures var next := Grid(start, step, tries + 1);
      next < numFrames ==> Tried(queued + [next], start, step, tries + 1, numFrames)
  {
    var next := Grid(start, step, tries + 1);
    assert OnGrid(start, step, tries + 1, next);
    forall i | 0 <= i < |queued|
      ensures OnGrid(start, step, tries + 1, queued[i]) && if step > 0 then queued[i] < next else queued[i] > next
    {
      StillOnGrid(start, step, tries, queued[i]);
    }
  }

  /** n lies a positive number of strides d ahead of `start`. */
  ghost predicate IsAhead(start: int, d: int, n: int) {
    exists k: nat :: k >= 1 && IsStep(start, d, k, n)
  }

  predicate IsStep(start: int, d: int, k: nat, n: int) {
    n == start + k * d
  }

  lemma TriedIsAhead(queued: seq<int>, start: int, step: int, tries: nat, numFrames: int)
    requires Tried(queued, start, step, tries, numFrames)
    ensures forall i :: 0 <= i < |queued| ==> IsAhead(start, step, queued[i]) && queued[i] < numFrames
  {
    forall i | 0 <= i < |queued| ensures IsAhead(start, step, queued[i]) {
      var k: nat :| 1 <= k <= tries && queued[i] == Grid(start, step, k);
      GridIs(start, step, k);
      assert IsStep(start, step, k, queued[i]);
    }
  }

  lemma GridFrom(start: int, step: int, i: nat, j: nat)
    ensures Grid(Grid(start, step, i), step, j) == Grid(start, step, i + j)
  {
    GridIs(start, step, i);
    GridIs(Grid(start, step, i), step, j);
    GridIs(start, step, i + j);
    assert (i + j) * step == i * step + j * step;
  }

  lemma FirstOnGrid(start: int, step: int, i: nat, j: nat, n: int)
    requires OnGrid(start, step, i, n)
    ensures OnGrid(start, step, i + j, n)
  {
    var k: nat :| 1 <= k <= i && n == Grid(start, step, k);
  }

  lemma LaterOnGrid(start: int, step: int, i: nat, j: nat, n: int)
    requires OnGrid(Grid(start, step, i), step, j, n)
    ensures OnGrid(start, step, i + j, n)
  {
    var k: nat :| 1 <= k <= j && n == Grid(Grid(start, step, i), step, k);
    GridFrom(start, step, i, k);
  }

  lemma FirstBeforeLater(start: int, step: int, i: nat, j: nat, n: int, m: int)
    requires step != 0 && OnGrid(start, step, i, n) && OnGrid(Grid(start, step, i), step, j, m)
    ensures if step > 0 then n < m else n > m
  {
    var k: nat :| 1 <= k <= i && n == Grid(start, step, k);
    var l: nat :| 1 <= l <= j && m == Grid(Grid(start, step, i), step, l);
    GridFrom(start, step, i, l);
    GridMonotone(start, step, k, i + l);
  }

  /** A search that goes on where another has stopped. */
  lemma SearchesJoin(a: seq<int>, b: seq<int>, start: int, step: int, i: nat, j: nat, numFrames: int)
    requires step != 0 && Tried(a, start, step, i, numFrames) && Tried(b, Grid(start, step, i), step, j, numFrames)
    ensures Tried(a + b, start, step, i + j, numFrames)
  {
    forall x | 0 <= x < |a| ensures OnGrid(start, step, i + j, a[x]) { FirstOnGrid(start, step, i, j, a[x]); }
    forall y | 0 <= y < |b| ensures OnGrid(start, step, i + j, b[y]) { LaterOnGrid(start, step, i, j, b[y]); }
    forall x, y | 0 <= x < |a| && 0 <= y < |b| ensures if step > 0 then a[x] < b[y] else a[x] > b[y] {
      FirstBeforeLater(start, step, i, j, a[x], b[y]);
    }
  }

  /** A search away from the current frame runs out of reach. */
  lemma TriesBounded(start: int, currentN: int, step: int, reach: int, tries: nat)
    requires step != 0 && Abs(Grid(start, step, tries) - currentN) < reach
    requires if step > 0 then start >= currentN else start <= currentN
    ensures tries + 1 <= reach - Abs(start - currentN)
  {
    if tries > 0 { GridMonotone(start, step, 0, tries); }
  }

  /** The last frame a backward search meets before the negative ones, or its start. */
  function LastBefore(start: int, step: int): (n: int)
    requires step < 0
  {
    if start < 0 then start else start % step
  }

  lemma LastOnGrid(start: nat, step: int)
    requires step < 0
    ensures start / -step >= 0 && Grid(start, step, start / -step) == start % step
  {
    var d, q := -step, start / -step;
    GridIs(start, step, q);
    assert q * step == -(q * d);
    assert start == q * d + start % d;
  }

  lemma GridTo(start: nat, step: int, j: nat)
    requires step < 0
    ensures var q := start / -step;
      && q >= 0 && Grid(start, step, q) == start % step >= 0
      && (j <= q ==> start % step <= Grid(start, step, j) <= start)
      && (j > q ==> Grid(start, step, j) < 0)
  {
    var q := start / -step;
    LastOnGrid(start, step);
    if j > 0 { GridMonotone(start, step, 0, j); }
    if j < q { GridMonotone(start, step, j, q); }
    if j > q + 1 { GridMonotone(start, step, q + 1, j); }
  }

  /** Where a call of `SchedulePrefetch` stands after so many tries. */
  ghost predicate Searched(n: int, queued: seq<int>, start: int, currentN: int, step: int, reach: int, numFrames: int, tries: nat) {
    && n == Grid(start, step, tries)
    && (tries > 0 ==> MayTry(start, currentN, step, reach, numFrames, tries))
    && Tried(queued, start, step, tries, numFrames)
    && (forall i :: 0 <= i < |queued| ==> Abs(queued[i] - step - currentN) < reach)
    && ((if step > 0 then start >= currentN else start <= currentN) ==> tries == 0 || tries <= reach - Abs(start - currentN))
  }

  lemma SearchedNext(n: int, queued: seq<int>, start: int, currentN: int, step: int, reach: int, numFrames: int, tries: nat)
    requires Searched(n, queued, start, currentN, step, reach, numFrames, tries) && step != 0
    requires Abs(n - currentN) < reach && (tries > 0 ==> n < numFrames)
    ensures Searched(n + step, queued, start, currentN, step, reach, numFrames, tries + 1)
    ensures n + step < numFrames ==> Searched(n + step, queued + [n + step], start, currentN, step, reach, numFrames, tries + 1)
  {
    MayTryNext(start, currentN, step, reach, numFrames, tries);
    TriedMore(queued, start, step, tries, numFrames);
    if if step > 0 then start >= currentN else start <= currentN {
      TriesBounded(start, currentN, step, reach, tries);
    }
  }

  /** Only the upper end of the clip is guarded: a call comes to try negative frames exactly when it searches backwards
      and the last frame before them is still within reach. */
  lemma TriesNegativeExactly(start: int, currentN: int, step: int, reach: int, numFrames: int)
    requires 0 <= currentN < numFrames && step != 0
    requires if step > 0 then start >= currentN else start <= currentN
    ensures (exists k: nat :: MayTry(start, currentN, step, reach, numFrames, k) && Grid(start, step, k) < 0)
      <==> step < 0 && currentN - LastBefore(start, step) < reach
  {
    if step > 0 {
      forall k: nat ensures Grid(start, step, k) >= 0 {
        if k > 0 { GridMonotone(start, step, 0, k); }
      }
    } else {
      if currentN - LastBefore(start, step) < reach {
        ReachesNegative(start, currentN, step, reach, numFrames);
      }
      if k: nat :| MayTry(start, currentN, step, reach, numFrames, k) && Grid(start, step, k) < 0 {
        PassesLast(start, currentN, step, reach, numFrames, k);
      }
    }
  }

  lemma ReachesNegative(start: int, currentN: int, step: int, reach: int, numFrames: int)
    requires step < 0 && start <= currentN < numFrames && currentN - LastBefore(start, step) < reach
    ensures exists k: nat :: MayTry(start, currentN, step, reach, numFrames, k) && Grid(start, step, k) < 0
  {
    if start < 0 {
      assert Grid(start, step, 0) == start && Grid(start, step, 1) == start + step;
      assert MayTry(start, currentN, step, reach, numFrames, 1);
    } else {
      var k := start / -step + 1;
      GridTo(start, step, k);
      forall j: nat | j < k ensures start % step <= Grid(start, step, j) <= start { GridTo(start, step, j); }
      assert MayTry(start, currentN, step, reach, numFrames, k);
    }
  }

  lemma PassesLast(start: int, currentN: int, step: int, reach: int, numFrames: int, k: nat)
    requires step < 0 && start <= currentN
    requires MayTry(start, currentN, step, reach, numFrames, k) && Grid(start, step, k) < 0
    ensures currentN - LastBefore(start, step) < reach
  {
    if start < 0 {
      assert Grid(start, step, 0) == start;
    } else {
      var q := start / -step;
      GridTo(start, step, k);
      assert q < k;
      GridTo(start, step, q);
    }
  }

  /** Forwards to frame 6 and back to frame 2: the predictor is locked on -1, and a prefetcher of 4 frames tries frame -1. */
  lemma NegativeFrameTried()
    ensures var p := ObserveAll(ObserveAll(Initial, Times(1, 6)), [-1, -1, -1, -1]); p.isLocked && p.lockedPattern == -1
    ensures MayTry(2, 2, -1, 4, 100, 3) && Grid(2, -1, 3) == -1
  {
    SixLock();
    FourEqualStridesRelock(Times(1, 6), -1);
    assert Grid(2, -1, 0) == 2 && Grid(2, -1, 1) == 1 && Grid(2, -1, 2) == 0;
  }

  lemma SixLock()
    ensures ObserveAll(Initial, Times(1, 6)).isLocked
  {
    PatternLocks(Initial, 3);
    LockedStays(ObserveAll(Initial, Times(1, 3)), 3);
    ObserveJoined(Initial, Times(1, 3), Times(1, 3));
    assert Times(1, 3) + Times(1, 3) == Times(1, 6);
  }

  lemma {:induction false} ObserveJoined(p: Predictor, a: seq<int>, b: seq<int>)
    ensures ObserveAll(p, a + b) == ObserveAll(ObserveAll(p, a), b)
    decreases a
  {
    if a == [] {
      assert a + b == b;
    } else {
      assert (a + b)[1..] == a[1..] + b;
      ObserveJoined(Observe(p, a[0]), a[1..], b);
    }
  }

  lemma {:induction false} LockedStays(p: Predictor, n: nat)
    requires p.isLocked && p.misses >= 0
    ensures ObserveAll(p, Times(p.lockedPattern, n)).isLocked
    decreases n
  {
    if n > 0 {
      assert Times(p.lockedPattern, n)[1..] == Times(p.lockedPattern, n - 1);
      LockedStays(Observe(p, p.lockedPattern), n - 1);
    }
  }

  class Prefetcher {
    const nPrefetchFrames: int
    const numFrames: int
    var lockedPattern: int
    var patternHits: int
    var patternMisses: int
    var pattern: int
    var isLocked: bool
    var lastRequestedFrame: int
    var runningWorkers: int

    constructor (nPrefetchFrames: int, numFrames: int)
      requires nPrefetchFrames > 0
      ensures this.nPrefetchFrames == nPrefetchFrames && this.numFrames == numFrames
      ensures State() == Initial && runningWorkers == 0
    {
      this.nPrefetchFrames, this.numFrames := nPrefetchFrames, numFrames;
      lockedPattern, pattern := 1, 1;
      patternHits, patternMisses, isLocked, lastRequestedFrame, runningWorkers := 0, 0, false, 0, 0;
    }

    function State(): (p: Predictor)
      reads this
    {
      Predictor(lockedPattern, patternHits, patternMisses, pattern, isLocked, lastRequestedFrame)
    }

    /** The first part of `GetFrame`: learn from the distance to the previous request. */
    method UpdatePattern(n: int)
      modifies this`lockedPattern, this`patternHits, this`patternMisses, this`pattern, this`isLocked, this`lastRequestedFrame
      ensures State() == Observe(old(State()), Stride(old(lastRequestedFrame), n)).(last := n)
    {
      var d := n - lastRequestedFrame;
      lastRequestedFrame := n;
      if d == 0 {
        d := 1;
      }
      if isLocked {
        if lockedPattern == d {
          patternHits := 0;
          patternMisses := 0;
        } else if pattern == d {
          patternHits := patternHits + 1;
          patternMisses := patternMisses + 1;
        } else {
          patternHits := 0;
          patternMisses := patternMisses + 1;
        }
        pattern := d;
        if patternMisses >= PATTERN_LOCK_LENGTH && patternHits >= PATTERN_LOCK_LENGTH {
          lockedPattern := pattern;
          patternHits := 0;
          patternMisses := 0;
        } else if patternMisses >= PATTERN_LOCK_LENGTH && patternHits < PATTERN_LOCK_LENGTH {
          isLocked := false;
        }
      } else {
        if pattern == d {
          patternHits := patternHits + 1;
          patternMisses := 0;
        } else {
          patternHits := 0;
          patternMisses := patternMisses + 1;
        }
        if patternHits >= PATTERN_LOCK_LENGTH {
          lockedPattern := d;
          patternMisses := 0;
          isLocked := true;
        }
      }
    }

    /** Between any two reads of the counter, any number of workers may have finished. */
    method WorkersProceed()
      requires runningWorkers >= 0
      modifies this`runningWorkers
      ensures 0 <= runningWorkers <= old(runningWorkers)
    {
      var left: int :| 0 <= left <= runningWorkers;
      runningWorkers := left;
    }

    /** One turn of the loop: the next frame, unless the clip ends before it, is looked up, and gets a job if the cache
        answers LRU_LOOKUP_NOT_FOUND. */
    method TryNext(n: int, queued: seq<int>, currentN: int, ghost prefetchStart: int, ghost tries: nat)
      returns (next: int, more: seq<int>)
      requires 0 <= runningWorkers < nPrefetchFrames && Abs(n - currentN) < nPrefetchFrames && (tries > 0 ==> n < numFrames)
      requires Step() != 0 && Searched(n, queued, prefetchStart, currentN, Step(), nPrefetchFrames, numFrames, tries)
      modifies this`runningWorkers
      ensures 0 <= runningWorkers <= nPrefetchFrames && next == n + Step()
      ensures Searched(next, more, prefetchStart, currentN, Step(), nPrefetchFrames, numFrames, tries + 1)
    {
      SearchedNext(n, queued, prefetchStart, currentN, Step(), nPrefetchFrames, numFrames, tries);
      next, more := n + Step(), queued;
      if next >= numFrames {
        return;
      }
      if * {
        runningWorkers := runningWorkers + 1;
        more := queued + [next];
      }
      WorkersProceed();
    }

    function Step(): (d: int)
      reads this
    {
      if isLocked then lockedPattern else 1
    }

    /** Whatever the workers do meanwhile and whatever the cache answers, at most nPrefetchFrames jobs are in
        flight; the frames tried lie one stride apart, none beyond the end of the clip or tried twice; each call ends
        after at most as many tries as there are frames left within reach, and no sooner unless all jobs are taken. */
    method SchedulePrefetch(currentN: int, prefetchStart: int) returns (n: int, queued: seq<int>, ghost tries: nat)
      requires Sound(State()) && 0 <= runningWorkers <= nPrefetchFrames
      modifies this`runningWorkers
      ensures 0 <= runningWorkers <= nPrefetchFrames
      ensures Searched(n, queued, prefetchStart, currentN, Step(), nPrefetchFrames, numFrames, tries)
      ensures runningWorkers < nPrefetchFrames ==> !MayTry(prefetchStart, currentN, Step(), nPrefetchFrames, numFrames, tries + 1)
      ensures isLocked ==> forall i :: 0 <= i < |queued| ==> IsAhead(prefetchStart, lockedPattern, queued[i])
      ensures !isLocked ==> forall i :: 0 <= i < |queued| ==> IsAhead(prefetchStart, 1, queued[i])
    {
      n, queued, tries := prefetchStart, [], 0;
      while runningWorkers < nPrefetchFrames && Abs(n - currentN) < nPrefetchFrames
        invariant 0 <= runningWorkers <= nPrefetchFrames
        invariant Searched(n, queued, prefetchStart, currentN, Step(), nPrefetchFrames, numFrames, tries)
        invariant tries > 0 ==> n < numFrames
        decreases if Step() > 0 then currentN + nPrefetchFrames - n else n - currentN + nPrefetchFrames
      {
        n, queued := TryNext(n, queued, currentN, prefetchStart, tries);
        tries := tries + 1;
        if n >= numFrames {
          break;
        }
      }
      MayTryNext(prefetchStart, currentN, Step(), nPrefetchFrames, numFrames, tries);
      TriedIsAhead(queued, prefetchStart, Step(), tries, numFrames);
    }

    /** What a request does besides fetching its frame: it learns, then searches twice, the second time from where the
        first search has stopped. Nothing is queued twice. */
    method GetFrame(n: int) returns (queued: seq<int>)
      requires Sound(State()) && 0 <= runningWorkers <= nPrefetchFrames
      modifies this
      ensures State() == Observe(old(State()), Stride(old(lastRequestedFrame), n)).(last := n)
      ensures Sound(State()) && 0 <= runningWorkers <= nPrefetchFrames
      ensures isLocked ==> forall i :: 0 <= i < |queued| ==> IsAhead(n, lockedPattern, queued[i]) && queued[i] < numFrames
      ensures !isLocked ==> forall i :: 0 <= i < |queued| ==> IsAhead(n, 1, queued[i]) && queued[i] < numFrames
      ensures forall i, j :: 0 <= i < j < |queued| ==> queued[i] != queued[j]
    {
      ObserveSound(State(), Stride(lastRequestedFrame, n));
      UpdatePattern(n);
      var pos, first, tries := SchedulePrefetch(n, n);
      var _, second, more := SchedulePrefetch(n, pos);
      SearchesJoin(first, second, n, Step(), tries, more, numFrames);
      queued := first + second;
      TriedIsAhead(queued, n, Step(), tries + more, numFrames);
    }
  }

  // ----- Over a history of requests -----

  function StridesFrom(last: int, requests: seq<int>): (strides: seq<int>)
    ensures |strides| == |requests| && forall d :: d in strides ==> d != 0
    decreases requests
  {
    if requests == [] then [] else [Stride(last, requests[0])] + StridesFrom(requests[0], requests[1..])
  }

  lemma {:induction false} LastIrrelevant(p: Predictor, strides: seq<int>, last: int)
    ensures ObserveAll(p.(last := last), strides) == ObserveAll(p, strides).(last := last)
    decreases strides
  {
    if strides != [] {
      assert Observe(p.(last := last), strides[0]) == Observe(p, strides[0]).(last := last);
      LastIrrelevant(Observe(p, strides[0]), strides[1..], last);
    }
  }

  lemma ObserveFirst(p: Predictor, requests: seq<int>)
    requires requests != []
    ensures ObserveAll(Observe(p, Stride(p.last, requests[0])).(last := requests[0]), StridesFrom(requests[0], requests[1..]))
      == ObserveAll(p, StridesFrom(p.last, requests)).(last := requests[0])
  {
    var strides := StridesFrom(p.last, requests);
    assert strides[1..] == StridesFrom(requests[0], requests[1..]);
    LastIrrelevant(Observe(p, strides[0]), strides[1..], requests[0]);
  }

  /** Any sequence of requests; what the last of them queues. */
  method GetFrames(p: Prefetcher, requests: seq<int>) returns (queued: seq<int>)
    requires requests != [] && Sound(p.State()) && 0 <= p.runningWorkers <= p.nPrefetchFrames
    modifies p
    ensures Sound(p.State()) && 0 <= p.runningWorkers <= p.nPrefetchFrames && p.lastRequestedFrame == requests[|requests| - 1]
    ensures var q := ObserveAll(old(p.State()), StridesFrom(old(p.lastRequestedFrame), requests));
      && p.State() == q.(last := requests[|requests| - 1])
      && forall i :: 0 <= i < |queued| ==>
           IsAhead(requests[|requests| - 1], if q.isLocked then q.lockedPattern else 1, queued[i])
    decreases |requests|
  {
    ghost var before := p.State();
    ObserveFirst(before, requests);
    queued := p.GetFrame(requests[0]);
    if |requests| > 1 {
      queued := GetFrames(p, requests[1..]);
    }
  }

  lemma {:induction false} StridesJoined(last: int, a: seq<int>, b: seq<int>)
    ensures StridesFrom(last, a + b) == StridesFrom(last, a) + StridesFrom(if a == [] then last else a[|a| - 1], b)
    decreases a
  {
    if a == [] {
      assert a + b == b;
    } else {
      assert (a + b)[1..] == a[1..] + b;
      StridesJoined(a[0], a[1..], b);
    }
  }

  lemma FourStrides(last: int, d: int)
    requires d != 0
    ensures StridesFrom(last, [last + d, last + 2 * d, last + 3 * d, last + 4 * d]) == [d, d, d, d]
  {
    assert [last + d, last + 2 * d, last + 3 * d, last + 4 * d] == [last + d] + [last + 2 * d, last + 3 * d, last + 4 * d];
    assert [last + 2 * d, last + 3 * d, last + 4 * d] == [last + d + d] + [last + 3 * d, last + 4 * d];
    assert [last + 3 * d, last + 4 * d] == [last + 2 * d + d] + [last + 4 * d] && [last + 4 * d] == [last + 3 * d + d] + [];
    OneStride(last, d, [last + 2 * d, last + 3 * d, last + 4 * d]);
    OneStride(last + d, d, [last + 3 * d, last + 4 * d]);
    OneStride(last + 2 * d, d, [last + 4 * d]);
    OneStride(last + 3 * d, d, []);
  }

  lemma OneStride(last: int, d: int, rest: seq<int>)
    requires d != 0
    ensures StridesFrom(last, [last + d] + rest) == [d] + StridesFrom(last + d, rest)
  {
    assert ([last + d] + rest)[1..] == rest;
  }

  /** A new prefetcher whose predictor some requests have locked, and then four requests d frames apart: what the last one
      queues lies ahead of it in steps of d. */
  method FourRequestsAhead(nPrefetchFrames: int, numFrames: int, requests: seq<int>, d: int) returns (n: int, queued: seq<int>)
    requires nPrefetchFrames > 0 && d != 0 && requests != []
    requires ObserveAll(Initial, StridesFrom(0, requests)).isLocked
    ensures n == requests[|requests| - 1] + 4 * d
    ensures forall i :: 0 <= i < |queued| ==> IsAhead(n, d, queued[i])
  {
    var last := requests[|requests| - 1];
    var more := [last + d, last + 2 * d, last + 3 * d, last + 4 * d];
    var p := new Prefetcher(nPrefetchFrames, numFrames);
    queued := GetFrames(p, requests + more);
    StridesJoined(0, requests, more);
    FourStrides(last, d);
    ObserveJoined(Initial, StridesFrom(0, requests), [d, d, d, d]);
    FourEqualStridesRelock(StridesFrom(0, requests), d);
    n := last + 4 * d;
  }

  /** As long as no requests have locked the predictor, each queues the frames that follow it. */
  method UnlockedAhead(nPrefetchFrames: int, numFrames: int, requests: seq<int>) returns (queued: seq<int>)
    requires nPrefetchFrames > 0 && requests != []
    requires !ObserveAll(Initial, StridesFrom(0, requests)).isLocked
    ensures forall i :: 0 <= i < |queued| ==> queued[i] > requests[|requests| - 1]
    ensures forall i :: 0 <= i < |queued| ==> IsAhead(requests[|requests| - 1], 1, queued[i])
  {
    var p := new Prefetcher(nPrefetchFrames, numFrames);
    assert p.lastRequestedFrame == 0;
    queued := GetFrames(p, requests);
    forall i | 0 <= i < |queued| ensures queued[i] > requests[|requests| - 1] {
      assert IsAhead(requests[|requests| - 1], 1, queued[i]);
      var k: nat :| k >= 1 && IsStep(requests[|requests| - 1], 1, k, queued[i]);
    }
  }
}
