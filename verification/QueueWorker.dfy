/** The loops of QueuePrefetcher in avs_core/core/DeviceManager.cpp as the source writes them, over a queue of handles
    and the frame cache itself. Each call runs through undisturbed; module QueuePrefetcher interleaves their steps. */
module QueueWorker {
  import opened Options
  import opened SimpleLru
  import opened QueuePrefetcher
  import C = CacheProtocol
  import L = LruCache

  /** A queued frame and the handle that reserves it. */
  datatype Work = Work(n: Key, handle: L.EntryPtr)

  // ----- What a worker does -----

  /** One frame that the worker has taken: the child's frame is committed, or its exception reported and the handle
      rolled back. */
  ghost function ServeStep(s: System, m: Key, F: Key -> C.Frame, fails: Key -> bool): (r: System)
    requires m in s.cache.slots
  {
    if fails(m) then WorkerRollsBackStep(WorkerReportsStep(s, m), m) else WorkerCommitsStep(WorkerStoresStep(s, m, F), m)
  }

  lemma QueuedOnce(s: System, m: Key)
    requires C.Inv(s.cache) && Owned(s) && Outstanding(s, m) > 0
    ensures m in s.cache.handles && m in s.cache.slots && s.cache.handles[m] == 1 && Outstanding(s, m) == 1
  {
    if m in s.cache.slots { assert C.SlotInv(s.cache, m); }
  }

  lemma ServeOwned(s: System, m: Key, F: Key -> C.Frame, fails: Key -> bool)
    requires C.Inv(s.cache) && Owned(s) && m in s.computing && m in s.cache.slots
    ensures C.Inv(ServeStep(s, m, F, fails).cache) && Owned(ServeStep(s, m, F, fails))
  {
    if fails(m) {
      WorkerReportsOwned(s, m);
      WorkerRollsBackOwned(WorkerReportsStep(s, m), m);
    } else {
      WorkerStoresOwned(s, m, F);
      WorkerCommitsOwned(WorkerStoresStep(s, m, F), m);
    }
  }

  lemma QueuedApart(s: System)
    requires C.Inv(s.cache) && Owned(s) && s.queue != []
    ensures s.queue[0] !in s.queue[1..]
  {
    Popped(s.queue);
    assert Outstanding(s, s.queue[0]) > 0;
    QueuedOnce(s, s.queue[0]);
    assert multiset(s.queue[1..])[s.queue[0]] == 0;
  }

  /** A running worker takes the front of the queue, which is then nowhere else. */
  lemma FrontTaken(s: System)
    requires C.Inv(s.cache) && Owned(s) && s.running > 0 && s.queue != []
    ensures Owned(TakeStep(s)) && s.queue[0] in TakeStep(s).computing && s.queue[0] in s.cache.slots
    ensures s.queue[0] in s.cache.handles && s.queue[0] !in s.queue[1..]
  {
    TakeOwned(s);
    QueuedApart(s);
    assert Outstanding(s, s.queue[0]) > 0;
    QueuedOnce(s, s.queue[0]);
  }

  /** The state a worker leaves behind when nobody interferes. */
  ghost function Served(s: System, F: Key -> C.Frame, fails: Key -> bool): (r: System)
    requires C.Inv(s.cache) && Owned(s) && s.running > 0
    decreases |s.queue|
  {
    if s.queue == [] then TakeStep(s)
    else
      FrontTaken(s);
      ServeOwned(TakeStep(s), s.queue[0], F, fails);
      Served(ServeStep(TakeStep(s), s.queue[0], F, fails), F, fails)
  }

  /** What becomes of a frame that is served: it is in the cache, or gone or left to a waiter. */
  ghost predicate Settled(s: System, k: Key, F: Key -> C.Frame, fails: Key -> bool) {
    if fails(k) then k in s.cache.slots ==> s.cache.slots[k].state == C.RolledBack
    else k in s.cache.slots && s.cache.slots[k].state == C.Available && s.cache.slots[k].value == Some(F(k))
  }

  ghost predicate SameSlot(c: C.Cache, d: C.Cache, k: Key) {
    (k in c.slots <==> k in d.slots) && (k in c.slots ==> d.slots[k] == c.slots[k])
  }

  lemma ServeSettles(s: System, m: Key, F: Key -> C.Frame, fails: Key -> bool)
    requires m in s.cache.slots
    ensures Settled(ServeStep(s, m, F, fails), m, F, fails)
    ensures forall k :: k != m ==> SameSlot(s.cache, ServeStep(s, m, F, fails).cache, k)
  {
    if fails(m) {
      RollbackSlots(s.cache, m);
    }
  }

  lemma RollbackSlots(c: C.Cache, m: Key)
    requires m in c.slots
    ensures m in C.Rollback(c, m).slots ==> C.Rollback(c, m).slots[m].state == C.RolledBack
    ensures forall k :: k != m ==> SameSlot(c, C.Rollback(c, m), k)
  {
  }

  /** The accounts after one frame from the queue. */
  ghost predicate Booked(s: System, r: System, m: Key, failed: bool) {
    && r.running == s.running && r.numWorkers == s.numWorkers && r.threads == s.threads && r.accepted == s.accepted
    && r.computing == s.computing && r.exceptionPresent == (s.exceptionPresent || failed)
    && r.committed == s.committed + (if failed then multiset{} else multiset{m})
    && r.rolledBack == s.rolledBack + (if failed then multiset{m} else multiset{})
  }

  lemma BackAndForth(a: multiset<Key>, m: Key)
    ensures a + multiset{m} - multiset{m} == a && a + multiset{} == a
  {
  }

  lemma ServeBooksDone(s: System, m: Key, F: Key -> C.Frame)
    requires s.running > 0 && s.queue != [] && s.queue[0] == m && m in s.cache.slots
    ensures Booked(s, WorkerCommitsStep(WorkerStoresStep(TakeStep(s), m, F), m), m, false)
  {
    BackAndForth(s.computing, m);
    BackAndForth(s.rolledBack, m);
  }

  lemma ServeBooksFailed(s: System, m: Key)
    requires s.running > 0 && s.queue != [] && s.queue[0] == m && m in s.cache.slots
    ensures Booked(s, WorkerRollsBackStep(WorkerReportsStep(TakeStep(s), m), m), m, true)
  {
    BackAndForth(s.computing, m);
    BackAndForth(s.committed, m);
  }

  lemma FirstServed(s: System, F: Key -> C.Frame, fails: Key -> bool) returns (r: System)
    requires C.Inv(s.cache) && Owned(s) && s.running > 0 && s.queue != []
    ensures C.Inv(r.cache) && Owned(r) && Booked(s, r, s.queue[0], fails(s.queue[0])) && r.queue == s.queue[1..]
    ensures Served(s, F, fails) == Served(r, F, fails)
    ensures Settled(r, s.queue[0], F, fails) && forall k :: k != s.queue[0] ==> SameSlot(s.cache, r.cache, k)
  {
    FrontTaken(s);
    ServeOwned(TakeStep(s), s.queue[0], F, fails);
    ServeSettles(TakeStep(s), s.queue[0], F, fails);
    if fails(s.queue[0]) {
      ServeBooksFailed(s, s.queue[0]);
    } else {
      ServeBooksDone(s, s.queue[0], F);
    }
    r := ServeStep(TakeStep(s), s.queue[0], F, fails);
  }

  /** Left alone, a worker serves the whole queue and resigns. */
  lemma {:induction false} ServesWholeQueue(s: System, F: Key -> C.Frame, fails: Key -> bool)
    requires C.Inv(s.cache) && Owned(s) && s.running > 0
    ensures var r := Served(s, F, fails);
      && C.Inv(r.cache) && Owned(r) && r.queue == [] && r.running == s.running - 1 && r.numWorkers == s.numWorkers - 1
      && r.threads == s.threads && r.accepted == s.accepted && r.computing == s.computing
    decreases |s.queue|
  {
    if s.queue == [] {
      TakeOwned(s);
    } else {
      var t := FirstServed(s, F, fails);
      ServesWholeQueue(t, F, fails);
    }
  }

  lemma BookedCounts(s: System, t: System, m: Key, failed: bool, k: Key)
    requires Booked(s, t, m, failed)
    ensures t.committed[k] == s.committed[k] + if k == m && !failed then 1 else 0
    ensures t.rolledBack[k] == s.rolledBack[k] + if k == m && failed then 1 else 0
  {
  }

  /** Every queued handle is spent once, committed or, if the child failed, rolled back. */
  lemma {:induction false} ServesEachOnce(s: System, F: Key -> C.Frame, fails: Key -> bool, k: Key)
    requires C.Inv(s.cache) && Owned(s) && s.running > 0
    ensures Served(s, F, fails).committed[k] == s.committed[k] + if fails(k) then 0 else multiset(s.queue)[k]
    ensures Served(s, F, fails).rolledBack[k] == s.rolledBack[k] + if fails(k) then multiset(s.queue)[k] else 0
    decreases |s.queue|
  {
    if s.queue != [] {
      var t := FirstServed(s, F, fails);
      ServesEachOnce(t, F, fails, k);
      Popped(s.queue);
      BookedCounts(s, t, s.queue[0], fails(s.queue[0]), k);
    }
  }

  /** Callers will be told of an exception exactly if there was one. */
  lemma {:induction false} ServesReporting(s: System, F: Key -> C.Frame, fails: Key -> bool)
    requires C.Inv(s.cache) && Owned(s) && s.running > 0
    ensures Served(s, F, fails).exceptionPresent <==> s.exceptionPresent || exists k :: k in s.queue && fails(k)
    decreases |s.queue|
  {
    if s.queue != [] {
      var t := FirstServed(s, F, fails);
      ServesReporting(t, F, fails);
      assert forall k :: k in s.queue <==> k == s.queue[0] || k in t.queue;
    }
  }

  lemma ThenSameSlot(a: C.Cache, b: C.Cache, c: C.Cache, k: Key)
    requires SameSlot(a, b, k) && SameSlot(b, c, k)
    ensures SameSlot(a, c, k)
  {
  }

  lemma StaysSettled(t: System, r: System, k: Key, F: Key -> C.Frame, fails: Key -> bool)
    requires Settled(t, k, F, fails) && SameSlot(t.cache, r.cache, k)
    ensures Settled(r, k, F, fails)
  {
  }

  /** Each queued frame that the child could make is in the cache afterwards, as the child made it; no other entry has
      been touched. */
  lemma {:induction false} ServesTruly(s: System, F: Key -> C.Frame, fails: Key -> bool)
    requires C.Inv(s.cache) && Owned(s) && s.running > 0
    ensures forall k :: k in s.queue ==> Settled(Served(s, F, fails), k, F, fails)
    ensures forall k :: k !in s.queue ==> SameSlot(s.cache, Served(s, F, fails).cache, k)
    decreases |s.queue|
  {
    if s.queue != [] {
      var r, m := Served(s, F, fails), s.queue[0];
      var t := FirstServed(s, F, fails);
      ServesTruly(t, F, fails);
      FrontTaken(s);
      assert forall k :: k in s.queue <==> k == m || k in t.queue;
      forall k | k !in s.queue ensures SameSlot(s.cache, r.cache, k) {
        ThenSameSlot(s.cache, t.cache, r.cache, k);
      }
      StaysSettled(t, r, m, F, fails);
    }
  }

  // ----- What a caller schedules -----

  /** Of the frames after the current one, up to n, those reserved ahead: in order, every one that had no entry, and none
      that somebody had reserved or was waiting for. */
  ghost predicate ReservedAhead(c0: C.Cache, c: C.Cache, currentN: Key, n: Key, added: seq<Key>) {
    && (forall i :: 0 <= i < |added| ==> currentN < added[i] < n)
    && (forall i, j :: 0 <= i < j < |added| ==> added[i] < added[j])
    && (forall k :: currentN < k < n && k !in c0.slots ==> k in added)
    && (forall k :: k in c0.slots && c0.slots[k].locks > 0 ==> k !in added && k in c.slots && c.slots[k].locks > 0)
    && (forall k :: k >= n && k !in c0.slots ==> k !in c.slots)
  }

  lemma FoundNext(c0: C.Cache, c: C.Cache, d: C.Cache, currentN: Key, n: Key, added: seq<Key>)
    requires ReservedAhead(c0, c, currentN, n, added) && n > currentN && n in c.slots && d.slots == c.slots
    ensures ReservedAhead(c0, d, currentN, n + 1, added)
  {
  }

  lemma MissedNext(c0: C.Cache, c: C.Cache, d: C.Cache, currentN: Key, n: Key, added: seq<Key>)
    requires ReservedAhead(c0, c, currentN, n, added) && n > currentN && n !in c.slots
    requires forall k :: k in d.slots && k != n ==> k in c.slots && d.slots[k] == c.slots[k]
    requires forall k :: k in c.slots && k !in d.slots ==> c.slots[k].locks == 0
    ensures ReservedAhead(c0, d, currentN, n + 1, added + [n])
  {
    var more := added + [n];
    assert more[|added|] == n;
    assert forall k :: k in added ==> k in more;
  }

  lemma ReservedNext(c0: C.Cache, c: C.Cache, currentN: Key, n: Key, added: seq<Key>)
    requires C.Inv(c) && ReservedAhead(c0, c, currentN, n, added) && n > currentN && c.capacity > 0
    ensures var (d, result) := C.Lookup(c, n, false, false, false);
      ReservedAhead(c0, d, currentN, n + 1, if result.NotFound? then added + [n] else added) && d.capacity == c.capacity
  {
    C.LookupSlots(c, n, false, false, false);
    C.LookupEffect(c, n, false, false, false);
    var d := C.Lookup(c, n, false, false, false).0;
    if n in c.slots {
      FoundNext(c0, c, d, currentN, n, added);
    } else {
      MissedNext(c0, c, d, currentN, n, added);
    }
  }

  /** One turn of the loop in `SchedulePrefetch`. */
  ghost function TryAhead(s: System, t: Thread, m: Key, answer: Delivery, numQueued: nat): (r: System) {
    var r := LookAheadStep(s, t, m, answer, numQueued);
    if C.Lookup(s.cache, m, false, false, false).1.NotFound? then EnqueueStep(r, t, m, answer, numQueued) else r
  }

  lemma TryAheadOwned(s: System, t: Thread, m: Key, answer: Delivery, numQueued: nat)
    requires C.Inv(s.cache) && Owned(s) && PhaseOf(s.threads, t) == Some(Scheduling(answer, numQueued))
    ensures var r := TryAhead(s, t, m, answer, numQueued); C.Inv(r.cache) && Owned(r)
  {
    LookAheadOwned(s, t, m, answer, numQueued);
    var r := LookAheadStep(s, t, m, answer, numQueued);
    if C.Lookup(s.cache, m, false, false, false).1.NotFound? {
      EnqueueOwned(r, t, m, answer, numQueued);
    }
  }

  /** Where a call of `SchedulePrefetch` stands before it looks at frame n. */
  ghost predicate LooksAhead(s0: System, s: System, t: Thread, answer: Delivery, currentN: Key, n: Key, added: seq<Key>) {
    && PhaseOf(s.threads, t) == Some(Scheduling(answer, |added|))
    && s.queue == s0.queue + added && s.numWorkers == s0.numWorkers && s.delivered == s0.delivered
    && s.cache.capacity == s0.cache.capacity && ReservedAhead(s0.cache, s.cache, currentN, n, added)
  }

  lemma AheadNext(s0: System, s: System, t: Thread, answer: Delivery, currentN: Key, n: Key, added: seq<Key>)
    requires C.Inv(s.cache) && LooksAhead(s0, s, t, answer, currentN, n, added) && n > currentN && s.cache.capacity > 0
    ensures var more := if C.Lookup(s.cache, n, false, false, false).1.NotFound? then added + [n] else added;
      LooksAhead(s0, TryAhead(s, t, n, answer, |added|), t, answer, currentN, n + 1, more)
  {
    ReservedNext(s0.cache, s.cache, currentN, n, added);
    TryAheadMoves(s, t, n, answer, |added|);
    var reserved := C.Lookup(s.cache, n, false, false, false).1.NotFound?;
    LooksFurther(s0, s, TryAhead(s, t, n, answer, |added|), t, answer, currentN, n, added, reserved);
  }

  lemma LooksFurther(s0: System, s: System, r: System, t: Thread, answer: Delivery, currentN: Key, n: Key, added: seq<Key>,
                     reserved: bool)
    requires LooksAhead(s0, s, t, answer, currentN, n, added)
    requires r.queue == (if reserved then s.queue + [n] else s.queue) && r.numWorkers == s.numWorkers && r.delivered == s.delivered
    requires PhaseOf(r.threads, t) == Some(Scheduling(answer, if reserved then |added| + 1 else |added|))
    requires r.cache.capacity == s.cache.capacity
    requires ReservedAhead(s0.cache, r.cache, currentN, n + 1, if reserved then added + [n] else added)
    ensures LooksAhead(s0, r, t, answer, currentN, n + 1, if reserved then added + [n] else added)
  {
    assert s0.queue + added + [n] == s0.queue + (added + [n]);
  }

  /** The state after all frames from n up to `hi` have been tried, and how many have been queued. */
  ghost function Scheduled(s: System, t: Thread, answer: Delivery, n: Key, hi: Key, numQueued: nat): (r: (System, nat))
    decreases hi - n
  {
    if n >= hi then (s, numQueued)
    else
      var reserved := C.Lookup(s.cache, n, false, false, false).1.NotFound?;
      Scheduled(TryAhead(s, t, n, answer, numQueued), t, answer, n + 1, hi, if reserved then numQueued + 1 else numQueued)
  }

  ghost function Turn(r: (System, nat), t: Thread, n: Key, answer: Delivery): (next: (System, nat)) {
    var reserved := C.Lookup(r.0.cache, n, false, false, false).1.NotFound?;
    (TryAhead(r.0, t, n, answer, r.1), if reserved then r.1 + 1 else r.1)
  }

  ghost predicate Turns(turns: seq<(System, nat)>, t: Thread, answer: Delivery, n: Key) {
    forall i :: 0 <= i < |turns| - 1 ==> turns[i + 1] == Turn(turns[i], t, n + i, answer)
  }

  /** The frames from the first to before n have been tried one by one. */
  ghost predicate Tried(turns: seq<(System, nat)>, s: System, t: Thread, answer: Delivery, first: Key, n: Key, now: System, numQueued: nat) {
    && |turns| > 0 && first + |turns| - 1 == n && turns[0] == (s, 0) && turns[|turns| - 1] == (now, numQueued)
    && Turns(turns, t, answer, first)
  }

  lemma TriedNext(turns: seq<(System, nat)>, s: System, t: Thread, answer: Delivery, first: Key, n: Key, now: System, numQueued: nat)
    requires Tried(turns, s, t, answer, first, n, now, numQueued)
    ensures var next := Turn((now, numQueued), t, n, answer); Tried(turns + [next], s, t, answer, first, n + 1, next.0, next.1)
  {
    var longer := turns + [Turn((now, numQueued), t, n, answer)];
    forall i | 0 <= i < |longer| - 1 ensures longer[i + 1] == Turn(longer[i], t, first + i, answer) {
      if i < |turns| - 1 { assert turns[i + 1] == Turn(turns[i], t, first + i, answer); }
    }
  }

  lemma TriedIsScheduled(turns: seq<(System, nat)>, s: System, t: Thread, answer: Delivery, first: Key, n: Key, now: System, numQueued: nat)
    requires Tried(turns, s, t, answer, first, n, now, numQueued)
    ensures (now, numQueued) == Scheduled(s, t, answer, first, n, 0)
  {
    TurnsScheduled(turns, t, answer, first, n);
  }

  lemma {:induction false} TurnsScheduled(turns: seq<(System, nat)>, t: Thread, answer: Delivery, n: Key, hi: Key)
    requires Turns(turns, t, answer, n) && |turns| > 0 && hi == n + |turns| - 1
    ensures Scheduled(turns[0].0, t, answer, n, hi, turns[0].1) == turns[|turns| - 1]
    decreases |turns|
  {
    if |turns| > 1 {
      assert turns[0 + 1] == Turn(turns[0], t, n + 0, answer);
      forall i | 0 <= i < |turns[1..]| - 1 ensures turns[1..][i + 1] == Turn(turns[1..][i], t, n + 1 + i, answer) {
        assert turns[(i + 1) + 1] == Turn(turns[i + 1], t, n + (i + 1), answer);
      }
      TurnsScheduled(turns[1..], t, answer, n + 1, hi);
    }
  }

  lemma {:induction false} ScheduledAhead(s0: System, s: System, t: Thread, answer: Delivery, currentN: Key, n: Key, hi: Key,
                                          added: seq<Key>)
    returns (all: seq<Key>)
    requires C.Inv(s.cache) && Owned(s) && LooksAhead(s0, s, t, answer, currentN, n, added)
    requires currentN < n <= hi && (n < hi ==> s.cache.capacity > 0)
    ensures var (r, numQueued) := Scheduled(s, t, answer, n, hi, |added|);
      C.Inv(r.cache) && Owned(r) && LooksAhead(s0, r, t, answer, currentN, hi, all) && numQueued == |all|
    decreases hi - n
  {
    if n < hi {
      AheadNext(s0, s, t, answer, currentN, n, added);
      TryAheadOwned(s, t, n, answer, |added|);
      var reserved := C.Lookup(s.cache, n, false, false, false).1.NotFound?;
      all := ScheduledAhead(s0, TryAhead(s, t, n, answer, |added|), t, answer, currentN, n + 1, hi,
                            if reserved then added + [n] else added);
    } else {
      all := added;
    }
  }

  /** What a caller schedules after it has its frame: all frames ahead that nobody has are reserved and queued in order,
      none that somebody has reserved; workers are woken for them; then the call returns its answer. */
  lemma SchedulesWhatIsMissing(s: System, t: Thread, answer: Delivery, currentN: Key, hi: Key, numThreads: nat)
    returns (added: seq<Key>)
    requires C.Inv(s.cache) && Owned(s) && PhaseOf(s.threads, t) == Some(Scheduling(answer, 0))
    requires currentN + 1 <= hi && (currentN + 1 < hi ==> s.cache.capacity > 0)
    ensures var (m, numQueued) := Scheduled(s, t, answer, currentN + 1, hi, 0);
      var r := WakeWorkersStep(m, t, numThreads, answer, numQueued);
      && Owned(r) && r.queue == s.queue + added && ReservedAhead(s.cache, r.cache, currentN, hi, added)
      && r.numWorkers == s.numWorkers + Started(s.numWorkers, numThreads, |added|)
      && t !in r.threads && r.delivered == s.delivered + [answer]
  {
    assert s.queue + [] == s.queue;
    added := ScheduledAhead(s, s, t, answer, currentN, currentN + 1, hi, []);
    var (m, numQueued) := Scheduled(s, t, answer, currentN + 1, hi, 0);
    WakeWorkersOwned(m, t, numThreads, answer, numQueued);
  }

  lemma TryAheadMoves(s: System, t: Thread, m: Key, answer: Delivery, numQueued: nat)
    ensures var r := TryAhead(s, t, m, answer, numQueued);
      var reserved := C.Lookup(s.cache, m, false, false, false).1.NotFound?;
      && r.cache == C.Lookup(s.cache, m, false, false, false).0 && r.numWorkers == s.numWorkers && r.delivered == s.delivered
      && r.queue == (if reserved then s.queue + [m] else s.queue)
      && PhaseOf(r.threads, t) == Some(Scheduling(answer, if reserved then numQueued + 1 else numQueued))
  {
  }

  // ----- The class -----

  class WorkQueue {
    const prefetchFrames: nat
    const numThreads: nat
    const numFrames: int
    const videoCache: L.LruCache
    var prefetchQueue: seq<Work>
    var numWorkers: int
    var workerExceptionPresent: bool

    ghost predicate Good(w: Work)
      reads videoCache, videoCache.mainCache
    {
      videoCache.Holds(w.handle) && videoCache.entryPool[w.handle].key == w.n
    }

    /** This object is in state s of the step system, and every queued handle is good. */
    ghost predicate Carries(s: System)
      reads this, videoCache, videoCache.mainCache, videoCache.ghosts
    {
      && videoCache.Valid() && videoCache.Tallied() && videoCache.state == s.cache && videoCache.mode == L.NoResize
      && numWorkers == s.numWorkers && workerExceptionPresent == s.exceptionPresent
      && |prefetchQueue| == |s.queue|
      && forall i :: 0 <= i < |prefetchQueue| ==> prefetchQueue[i].n == s.queue[i] && Good(prefetchQueue[i])
    }

    constructor (prefetchFrames: nat, numThreads: nat, numFrames: int)
      requires 1 <= prefetchFrames <= SIZE_MAX
      ensures this.prefetchFrames == prefetchFrames && this.numThreads == numThreads && this.numFrames == numFrames
      ensures Carries(Init(prefetchFrames)) && fresh(videoCache) && fresh(videoCache.mainCache) && fresh(videoCache.ghosts)
    {
      this.prefetchFrames, this.numThreads, this.numFrames := prefetchFrames, numThreads, numFrames;
      videoCache := new L.LruCache(prefetchFrames - 1, L.NoResize);
      prefetchQueue, numWorkers, workerExceptionPresent := [], 0, false;
    }

    /** The oldest reserved frame; without one the worker resigns. */
    method TakeWork(ghost s: System) returns (work: Option<Work>)
      requires Carries(s)
      modifies this
      ensures Carries(TakeStep(s))
      ensures work.None? <==> s.queue == []
      ensures work.Some? ==> work.value.n == s.queue[0] && Good(work.value)
    {
      if |prefetchQueue| == 0 {
        numWorkers := numWorkers - 1;
        work := None;
      } else {
        work := Some(prefetchQueue[0]);
        prefetchQueue := prefetchQueue[1..];
      }
    }

    /** Spending one handle leaves the others good. */
    method CommitHandle(work: Work, v: Option<C.Frame>, ghost others: seq<Work>)
      requires videoCache.Valid() && videoCache.Tallied() && Good(work)
      requires forall i :: 0 <= i < |others| ==> Good(others[i]) && others[i].handle != work.handle
      modifies videoCache`entryPool, videoCache`state
      ensures videoCache.Valid() && videoCache.Tallied() && work.n in old(videoCache.state).slots
      ensures videoCache.state == C.Commit(C.Store(old(videoCache.state), work.n, v), work.n)
      ensures forall i :: 0 <= i < |others| ==> Good(others[i])
    {
      videoCache.StoreValue(work.handle, v);
      videoCache.CommitValue(work.handle);
    }

    method RollbackHandle(work: Work, ghost others: seq<Work>)
      requires videoCache.Valid() && videoCache.Tallied() && Good(work)
      requires forall i :: 0 <= i < |others| ==> Good(others[i]) && others[i].handle != work.handle
      modifies videoCache`entryPool, videoCache`state, videoCache.mainCache
      ensures videoCache.Valid() && videoCache.Tallied() && work.n in old(videoCache.state).slots
      ensures videoCache.state == C.Rollback(old(videoCache.state), work.n)
      ensures forall i :: 0 <= i < |others| ==> Good(others[i])
    {
      videoCache.Rollback(work.handle);
    }

    /** No queued handle is the one in hand. */
    lemma OtherHandles(s: System, work: Work)
      requires Carries(s) && Owned(s) && Good(work) && work.n in s.computing
      ensures forall i :: 0 <= i < |prefetchQueue| ==> prefetchQueue[i].handle != work.handle
    {
      QueuedOnce(s, work.n);
      assert multiset(s.queue)[work.n] == 0;
      forall i | 0 <= i < |prefetchQueue| ensures prefetchQueue[i].handle != work.handle {
        assert s.queue[i] in s.queue;
      }
    }

    method Commit(work: Work, F: Key -> C.Frame, ghost s: System)
      requires Carries(s) && Owned(s) && Good(work) && work.n in s.computing && work.n in s.cache.slots
      modifies videoCache`entryPool, videoCache`state
      ensures Carries(WorkerCommitsStep(WorkerStoresStep(s, work.n, F), work.n))
    {
      OtherHandles(s, work);
      CommitHandle(work, Some(F(work.n)), prefetchQueue);
    }

    method Fail(work: Work, ghost s: System)
      requires Carries(s) && Owned(s) && Good(work) && work.n in s.computing && work.n in s.cache.slots
      modifies this`workerExceptionPresent, videoCache`entryPool, videoCache`state, videoCache.mainCache
      ensures Carries(WorkerRollsBackStep(WorkerReportsStep(s, work.n), work.n))
    {
      OtherHandles(s, work);
      Report(work, s);
      GiveUp(work, WorkerReportsStep(s, work.n));
    }

    method Report(work: Work, ghost s: System)
      requires Carries(s)
      modifies this`workerExceptionPresent
      ensures Carries(WorkerReportsStep(s, work.n)) && prefetchQueue == old(prefetchQueue)
    {
      workerExceptionPresent := true;
    }

    method GiveUp(work: Work, ghost s: System)
      requires Carries(s) && Good(work) && work.n in s.cache.slots
      requires forall i :: 0 <= i < |prefetchQueue| ==> prefetchQueue[i].handle != work.handle
      modifies videoCache`entryPool, videoCache`state, videoCache.mainCache
      ensures Carries(WorkerRollsBackStep(s, work.n))
    {
      RollbackHandle(work, prefetchQueue);
    }

    /** A worker's whole life, the child throwing for the frames that fail. */
    method ThreadWorker(F: Key -> C.Frame, fails: Key -> bool, ghost s: System)
      requires Carries(s) && Owned(s) && s.running > 0
      modifies this, videoCache`entryPool, videoCache`state, videoCache.mainCache
      ensures Carries(Served(s, F, fails)) && prefetchQueue == []
    {
      ghost var now := s;
      while true
        invariant Carries(now) && Owned(now) && now.running > 0
        invariant Served(now, F, fails) == Served(s, F, fails)
        decreases |prefetchQueue|
      {
        var work := TakeWork(now);
        if work.None? {
          break;
        }
        var m := work.value.n;
        FrontTaken(now);
        ServeOwned(TakeStep(now), m, F, fails);
        if fails(m) {
          Fail(work.value, TakeStep(now));
        } else {
          Commit(work.value, F, TakeStep(now));
        }
        now := ServeStep(TakeStep(now), m, F, fails);
      }
    }

    method LookUpAhead(n: Key, ghost s: System, ghost t: Thread, ghost answer: Delivery, numQueued: nat)
      returns (handle: Option<L.EntryPtr>)
      requires Carries(s)
      modifies videoCache, videoCache.mainCache, videoCache.ghosts
      ensures Carries(LookAheadStep(s, t, n, answer, numQueued))
      ensures handle.Some? <==> C.Lookup(s.cache, n, false, false, false).1.NotFound?
      ensures handle.Some? ==> Good(Work(n, handle.value))
    {
      var result, hndl, _, _, grow, _ := videoCache.Lookup(n, false, None);
      handle := hndl;
    }

    /** One frame ahead: if nobody has it, it is reserved and queued. */
    method TryFrame(n: Key, numQueued: nat, ghost s: System, ghost t: Thread, ghost answer: Delivery) returns (reserved: bool)
      requires Carries(s)
      modifies this`prefetchQueue, videoCache, videoCache.mainCache, videoCache.ghosts
      ensures Carries(TryAhead(s, t, n, answer, numQueued))
      ensures reserved == C.Lookup(s.cache, n, false, false, false).1.NotFound?
    {
      var handle := LookUpAhead(n, s, t, answer, numQueued);
      reserved := handle.Some?;
      if reserved {
        Append(Work(n, handle.value), numQueued, LookAheadStep(s, t, n, answer, numQueued), t, answer);
      }
    }

    method Append(work: Work, ghost numQueued: nat, ghost s: System, ghost t: Thread, ghost answer: Delivery)
      requires Carries(s) && Good(work)
      modifies this`prefetchQueue
      ensures Carries(EnqueueStep(s, t, work.n, answer, numQueued))
    {
      prefetchQueue := prefetchQueue + [work];
    }

    /** If anything has been queued, hands jobs to the thread pool until it has one per queued frame or all threads are taken. */
    method WakeUp(numQueued: nat, ghost s: System, ghost t: Thread, ghost answer: Delivery) returns (jobs: nat)
      requires Carries(s)
      modifies this`numWorkers
      ensures s.numWorkers <= numThreads ==> s.numWorkers + jobs <= numThreads
      ensures jobs <= numQueued && (jobs == numQueued || s.numWorkers + jobs >= numThreads)
      ensures jobs == Started(s.numWorkers, numThreads, numQueued)
      ensures Carries(WakeWorkersStep(s, t, numThreads, answer, numQueued))
    {
      var left := numQueued;
      jobs := 0;
      if numQueued == 0 {
        return;
      }
      while numWorkers < numThreads && left > 0
        invariant 0 <= left && jobs == numQueued - left && numWorkers == s.numWorkers + jobs
        invariant jobs == 0 || numWorkers <= numThreads
        decreases left
      {
        jobs := jobs + 1;
        numWorkers := numWorkers + 1;
        left := left - 1;
      }
    }

    /** Tries the frames ahead one after the other, and hands out jobs for those it has queued. */
    method SchedulePrefetch(currentN: Key, ghost s: System, ghost t: Thread, ghost answer: Delivery) returns (jobs: nat)
      requires Carries(s)
      modifies this, videoCache, videoCache.mainCache, videoCache.ghosts
      ensures var (r, numQueued) := Scheduled(s, t, answer, currentN + 1, LastAhead(currentN), 0);
        Carries(WakeWorkersStep(r, t, numThreads, answer, numQueued)) && jobs == Started(r.numWorkers, numThreads, numQueued)
    {
      ghost var now;
      var numQueued;
      numQueued, now := TryFrames(currentN, s, t, answer);
      jobs := WakeUp(numQueued, now, t, answer);
    }

    /** The loop over the frames ahead. */
    method TryFrames(currentN: Key, ghost s: System, ghost t: Thread, ghost answer: Delivery) returns (numQueued: nat, ghost now: System)
      requires Carries(s)
      modifies this`prefetchQueue, videoCache, videoCache.mainCache, videoCache.ghosts
      ensures Carries(now) && (now, numQueued) == Scheduled(s, t, answer, currentN + 1, LastAhead(currentN), 0)
    {
      now := s;
      var n := currentN + 1;
      numQueued := 0;
      ghost var turns := [(now, numQueued)];
      while n < currentN + prefetchFrames && n < numFrames
        invariant currentN < n <= LastAhead(currentN) && Carries(now)
        invariant Tried(turns, s, t, answer, currentN + 1, n, now, numQueued)
        decreases currentN + prefetchFrames - n
      {
        numQueued, now, turns := TryNext(n, numQueued, now, t, answer, turns, s, currentN + 1);
        n := n + 1;
      }
      TriedIsScheduled(turns, s, t, answer, currentN + 1, n, now, numQueued);
    }

    /** One turn of that loop. */
    method TryNext(n: Key, before: nat, ghost s: System, ghost t: Thread, ghost answer: Delivery,
                   ghost turns: seq<(System, nat)>, ghost s0: System, ghost first: Key)
      returns (numQueued: nat, ghost now: System, ghost longer: seq<(System, nat)>)
      requires Carries(s) && Tried(turns, s0, t, answer, first, n, s, before)
      modifies this`prefetchQueue, videoCache, videoCache.mainCache, videoCache.ghosts
      ensures Carries(now) && Tried(longer, s0, t, answer, first, n + 1, now, numQueued)
    {
      TriedNext(turns, s0, t, answer, first, n, s, before);
      longer := turns + [Turn((s, before), t, n, answer)];
      now := Turn((s, before), t, n, answer).0;
      var reserved := TryFrame(n, before, s, t, answer);
      numQueued := if reserved then before + 1 else before;
    }

    /** Behind the last frame that is tried after the current one. */
    function LastAhead(currentN: Key): (hi: Key)
      ensures hi > currentN
      ensures hi == currentN + 1 || (hi <= currentN + prefetchFrames && hi <= numFrames)
      ensures hi >= currentN + prefetchFrames || hi >= numFrames
    {
      var hi := if currentN + prefetchFrames <= numFrames then currentN + prefetchFrames else numFrames;
      if hi <= currentN then currentN + 1 else hi
    }

    /** The destructor rolls back what no worker took, front to back. */
    method CancelQueue(ghost s: System)
      requires Carries(s) && Owned(s)
      modifies this`prefetchQueue, videoCache`entryPool, videoCache`state, videoCache.mainCache
      ensures Carries(DrainAll(s)) && prefetchQueue == []
    {
      ghost var now := s;
      while |prefetchQueue| > 0
        invariant Carries(now) && Owned(now)
        invariant DrainAll(now) == DrainAll(s)
        decreases |prefetchQueue|
      {
        FrontDrained(now);
        CancelFront(now);
        now := DrainStep(now);
      }
    }

    method PopFront(ghost s: System) returns (front: Work)
      requires Carries(s) && s.queue != []
      modifies this`prefetchQueue
      ensures Carries(s.(queue := s.queue[1..])) && |prefetchQueue| == |old(prefetchQueue)| - 1
      ensures front.n == s.queue[0] && Good(front)
    {
      front := prefetchQueue[0];
      prefetchQueue := prefetchQueue[1..];
    }

    method CancelFront(ghost s: System)
      requires Carries(s) && Owned(s) && s.queue != [] && s.queue[0] in s.cache.slots
      modifies this`prefetchQueue, videoCache`entryPool, videoCache`state, videoCache.mainCache
      ensures Carries(DrainStep(s)) && |prefetchQueue| == |old(prefetchQueue)| - 1
    {
      QueuedApart(s);
      var front := PopFront(s);
      forall i | 0 <= i < |prefetchQueue| ensures prefetchQueue[i].handle != front.handle {
        assert s.queue[1..][i] in s.queue[1..];
      }
      RollbackHandle(front, prefetchQueue);
    }
  }

}
