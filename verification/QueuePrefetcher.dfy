/** The upstream prefetcher of a device filter (QueuePrefetcher in avs_core/core/DeviceManager.cpp): a shared
    queue of reserved frames, at most `numThreads` workers that drain it, and any number of threads that call
    `GetFrame`, interleaved at will. Each event is one section of code under the cache's mutex or under the
    queue's, or a call of the child. */
module QueuePrefetcher {
  import opened Collections
  import opened Options
  import opened SimpleLru
  import opened CacheProtocol

  type Thread = int

  /** What a call of `GetFrame(n)` returns. `stale` says that its lookup met a rolled-back entry. */
  datatype Delivery = Delivery(n: Key, frame: Option<Frame>, stale: bool)

  /** Where a thread stands inside `GetFrame`. */
  datatype Phase =
    | Asleep(n: Key)                        // waiting inside `lookup`
    | Reserved(n: Key)                      // holds the handle for n, has not looked for a worker's exception yet
    | Producing(n: Key)
    | Produced(n: Key)
    | Scheduling(answer: Delivery, numQueued: nat)          // has its result, in `SchedulePrefetch`
    | Carrying(m: Key, answer: Delivery, numQueued: nat)    // has just reserved m and must still queue it

  /** Workers are `pooled` (handed to the thread pool, not started), `running` (about to look at the queue) or
      busy with a frame. `accepted`, `committed` and `rolledBack` record what became of every queued handle, and
      `delivered` what was returned; they have no counterpart in the source. */
  datatype System = System(
    cache: Cache, queue: seq<Key>, threads: map<Thread, Phase>,
    numWorkers: int, pooled: nat, running: nat,
    computing: multiset<Key>, stored: multiset<Key>, failing: multiset<Key>,
    exceptionPresent: bool, closing: bool,
    accepted: multiset<Key>, committed: multiset<Key>, rolledBack: multiset<Key>, delivered: seq<Delivery>)

  datatype Event =
    | Request(t: Thread, n: Key)
    | RequestDirect(n: Key)                 // while thread suppression is on: straight to the child
    | Wake(t: Thread)
    | Check(t: Thread)                      // a worker's exception is rethrown here
    | Produce(t: Thread)
    | ProduceFails(t: Thread)
    | CommitOwn(t: Thread)
    | LookAhead(t: Thread, m: Key)
    | Enqueue(t: Thread)
    | WakeWorkers(t: Thread)
    | Start
    | Take
    | WorkerStores(m: Key)
    | WorkerCommits(m: Key)
    | WorkerReports(m: Key)
    | WorkerRollsBack(m: Key)
    | Close
    | Drain

  ghost function PhaseOf(threads: map<Thread, Phase>, t: Thread): (p: Option<Phase>) {
    if t in threads then Some(threads[t]) else None
  }

  ghost function Placed(threads: map<Thread, Phase>, t: Thread, p: Option<Phase>): (r: map<Thread, Phase>) {
    if p.Some? then threads[t := p.value] else threads - {t}
  }

  ghost function Put(s: System, t: Thread, p: Option<Phase>): (r: System) {
    s.(threads := Placed(s.threads, t, p))
  }

  ghost predicate Busy(s: System) {
    s.running > 0 || s.computing != multiset{} || s.stored != multiset{} || s.failing != multiset{}
  }

  ghost predicate Enabled(s: System, e: Event) {
    match e
    case Request(t, n) => t !in s.threads && !s.closing
    case RequestDirect(n) => !s.closing
    case Wake(t) => t in s.threads && s.threads[t].Asleep? && s.threads[t].n in s.cache.slots
    case Check(t) => t in s.threads && s.threads[t].Reserved? && s.threads[t].n in s.cache.slots
    case Produce(t) => t in s.threads && s.threads[t].Producing? && s.threads[t].n in s.cache.slots
    case ProduceFails(t) => t in s.threads && s.threads[t].Producing? && s.threads[t].n in s.cache.slots
    case CommitOwn(t) => t in s.threads && s.threads[t].Produced? && s.threads[t].n in s.cache.slots
    case LookAhead(t, m) => t in s.threads && s.threads[t].Scheduling?
    case Enqueue(t) => t in s.threads && s.threads[t].Carrying?
    case WakeWorkers(t) => t in s.threads && s.threads[t].Scheduling?
    case Start => s.pooled > 0 && !s.closing
    case Take => s.running > 0
    case WorkerStores(m) => m in s.computing && m in s.cache.slots
    case WorkerCommits(m) => m in s.stored && m in s.cache.slots
    case WorkerReports(m) => m in s.computing
    case WorkerRollsBack(m) => m in s.failing && m in s.cache.slots
    case Close => s.threads == map[] && !s.closing
    case Drain => s.closing && !Busy(s) && s.queue != [] && s.queue[0] in s.cache.slots
  }

  // ----- Steps of a thread in `GetFrame` -----

  ghost predicate MeetsRolledBack(c: Cache, n: Key) {
    n in c.slots && c.slots[n].state == RolledBack
  }

  /** Where the blocking lookup of n leaves its caller; a `FOUND_BUT_NOTAVAIL` throws. */
  function Arrived(n: Key, result: LookupResult, stale: bool, F: Key -> Frame): (p: Option<Phase>) {
    match result
    case NotFound => Some(Reserved(n))
    case FoundAndReady(v) => Some(Scheduling(Delivery(n, v, stale), 0))
    case NoCache => Some(Scheduling(Delivery(n, Some(F(n)), stale), 0))
    case Waiting => Some(Asleep(n))
    case FoundButNotAvail => None
  }

  ghost function RequestStep(s: System, t: Thread, n: Key, F: Key -> Frame): (r: System) {
    var (c, result) := Lookup(s.cache, n, true, false, false);
    Put(s.(cache := c), t, Arrived(n, result, MeetsRolledBack(s.cache, n), F))
  }

  ghost function WakeStep(s: System, t: Thread, n: Key, F: Key -> Frame): (r: System)
    requires n in s.cache.slots
  {
    var (c, result) := CacheProtocol.Wake(s.cache, n);
    Put(s.(cache := c), t, Arrived(n, result, false, F))
  }

  /** The result is read back from the entry before it is committed. */
  ghost function CommitOwnStep(s: System, t: Thread, n: Key): (r: System)
    requires n in s.cache.slots
  {
    Put(s.(cache := Commit(s.cache, n)), t, Some(Scheduling(Delivery(n, s.cache.slots[n].value, false), 0)))
  }

  ghost function AbandonStep(s: System, t: Thread, n: Key): (r: System)
    requires n in s.cache.slots
  {
    Put(s.(cache := Rollback(s.cache, n)), t, None)
  }

  function Ahead(m: Key, answer: Delivery, numQueued: nat, reserved: bool): (p: Phase) {
    if reserved then Carrying(m, answer, numQueued) else Scheduling(answer, numQueued)
  }

  ghost function LookAheadStep(s: System, t: Thread, m: Key, answer: Delivery, numQueued: nat): (r: System) {
    var (c, result) := Lookup(s.cache, m, false, false, false);
    Put(s.(cache := c), t, Some(Ahead(m, answer, numQueued, result.NotFound?)))
  }

  ghost function EnqueueStep(s: System, t: Thread, m: Key, answer: Delivery, numQueued: nat): (r: System) {
    Put(s.(queue := s.queue + [m], accepted := s.accepted + multiset{m}), t, Some(Scheduling(answer, numQueued + 1)))
  }

  /** How many jobs the wake-up loop hands to the thread pool. */
  function Started(numWorkers: int, numThreads: nat, numQueued: nat): (jobs: nat) {
    if numWorkers + numQueued <= numThreads then numQueued else if numWorkers < numThreads then numThreads - numWorkers else 0
  }

  /** The last thing a call of `GetFrame` does before it returns its result. */
  ghost function WakeWorkersStep(s: System, t: Thread, numThreads: nat, answer: Delivery, numQueued: nat): (r: System) {
    var jobs := Started(s.numWorkers, numThreads, numQueued);
    Put(s.(numWorkers := s.numWorkers + jobs, pooled := s.pooled + jobs, delivered := s.delivered + [answer]), t, None)
  }

  // ----- Steps of a worker and of the destructor -----

  ghost function TakeStep(s: System): (r: System) {
    if s.queue == [] then s.(running := Less(s.running), numWorkers := s.numWorkers - 1)
    else s.(running := Less(s.running), queue := s.queue[1..], computing := s.computing + multiset{s.queue[0]})
  }

  function Less(n: nat): (r: nat) {
    if n == 0 then 0 else n - 1
  }

  ghost function WorkerStoresStep(s: System, m: Key, F: Key -> Frame): (r: System)
    requires m in s.cache.slots
  {
    s.(cache := Store(s.cache, m, Some(F(m))), computing := s.computing - multiset{m}, stored := s.stored + multiset{m})
  }

  ghost function WorkerCommitsStep(s: System, m: Key): (r: System)
    requires m in s.cache.slots
  {
    s.(cache := Commit(s.cache, m), stored := s.stored - multiset{m}, running := s.running + 1,
       committed := s.committed + multiset{m})
  }

  ghost function WorkerReportsStep(s: System, m: Key): (r: System) {
    s.(exceptionPresent := true, computing := s.computing - multiset{m}, failing := s.failing + multiset{m})
  }

  ghost function WorkerRollsBackStep(s: System, m: Key): (r: System)
    requires m in s.cache.slots
  {
    s.(cache := Rollback(s.cache, m), failing := s.failing - multiset{m}, running := s.running + 1,
       rolledBack := s.rolledBack + multiset{m})
  }

  ghost function DrainStep(s: System): (r: System)
    requires s.queue != [] && s.queue[0] in s.cache.slots
  {
    s.(cache := Rollback(s.cache, s.queue[0]), queue := s.queue[1..], rolledBack := s.rolledBack + multiset{s.queue[0]})
  }

  ghost function Next(s: System, e: Event, numThreads: nat, F: Key -> Frame): (r: System)
    requires Enabled(s, e)
  {
    match e
    case Request(t, n) => RequestStep(s, t, n, F)
    case RequestDirect(n) => s.(delivered := s.delivered + [Delivery(n, Some(F(n)), false)])
    case Wake(t) => WakeStep(s, t, s.threads[t].n, F)
    case Check(t) =>
      if s.exceptionPresent then AbandonStep(s, t, s.threads[t].n) else Put(s, t, Some(Producing(s.threads[t].n)))
    case Produce(t) =>
      Put(s.(cache := Store(s.cache, s.threads[t].n, Some(F(s.threads[t].n)))), t, Some(Produced(s.threads[t].n)))
    case ProduceFails(t) => AbandonStep(s, t, s.threads[t].n)
    case CommitOwn(t) => CommitOwnStep(s, t, s.threads[t].n)
    case LookAhead(t, m) => LookAheadStep(s, t, m, s.threads[t].answer, s.threads[t].numQueued)
    case Enqueue(t) => EnqueueStep(s, t, s.threads[t].m, s.threads[t].answer, s.threads[t].numQueued)
    case WakeWorkers(t) => WakeWorkersStep(s, t, numThreads, s.threads[t].answer, s.threads[t].numQueued)
    case Start => s.(pooled := s.pooled - 1, running := s.running + 1)
    case Take => TakeStep(s)
    case WorkerStores(m) => WorkerStoresStep(s, m, F)
    case WorkerCommits(m) => WorkerCommitsStep(s, m)
    case WorkerReports(m) => WorkerReportsStep(s, m)
    case WorkerRollsBack(m) => WorkerRollsBackStep(s, m)
    case Close => s.(closing := true)
    case Drain => DrainStep(s)
  }

  ghost function Init(prefetchFrames: nat): (s: System)
    requires prefetchFrames >= 1
  {
    System(CacheProtocol.Init(prefetchFrames - 1), [], map[], 0, 0, 0, multiset{}, multiset{}, multiset{}, false, false,
           multiset{}, multiset{}, multiset{}, [])
  }

  // ----- What every state satisfies -----

  function Held(p: Option<Phase>, k: Key): (n: nat) {
    match p
    case Some(Reserved(n)) => if n == k then 1 else 0
    case Some(Producing(n)) => if n == k then 1 else 0
    case Some(Produced(n)) => if n == k then 1 else 0
    case Some(Carrying(m, _, _)) => if m == k then 1 else 0
    case _ => 0
  }

  function Slept(p: Option<Phase>, k: Key): (n: nat) {
    if p == Some(Asleep(k)) then 1 else 0
  }

  ghost function Holders(threads: map<Thread, Phase>, k: Key): (r: set<Thread>) {
    set t | t in threads && Held(Some(threads[t]), k) == 1
  }

  ghost function Sleepers(threads: map<Thread, Phase>, k: Key): (r: set<Thread>) {
    set t | t in threads && Slept(Some(threads[t]), k) == 1
  }

  /** The queued handles for k that are not yet spent. */
  ghost function Outstanding(s: System, k: Key): (n: nat) {
    multiset(s.queue)[k] + s.computing[k] + s.stored[k] + s.failing[k]
  }

  /** Every handle has exactly one owner, in the queue, at a worker or in a thread; the waiters are the sleeping threads. */
  ghost predicate Owned(s: System) {
    && (forall k :: s.cache.handles[k] == Outstanding(s, k) + |Holders(s.threads, k)|)
    && (forall k :: s.cache.waiters[k] == |Sleepers(s.threads, k)|)
  }

  ghost predicate Staffed(s: System, numThreads: nat) {
    && 0 <= s.numWorkers <= numThreads
    && s.numWorkers == s.pooled + s.running + |s.computing| + |s.stored| + |s.failing|
    && (s.closing ==> s.threads == map[])
  }

  function PendingWakes(p: Phase): (n: nat) {
    if p.Scheduling? || p.Carrying? then p.numQueued else 0
  }

  /** Queued work is in good hands: a worker exists, or a thread is still about to wake one. */
  ghost predicate NotLost(s: System) {
    s.queue != [] ==> s.numWorkers > 0 || exists t :: t in s.threads && PendingWakes(s.threads[t]) > 0
  }

  ghost predicate SpentOnce(s: System) {
    forall k :: s.accepted[k] == s.committed[k] + s.rolledBack[k] + Outstanding(s, k)
  }

  ghost predicate SystemInv(s: System, numThreads: nat) {
    Inv(s.cache) && Owned(s) && Staffed(s, numThreads) && NotLost(s) && SpentOnce(s)
  }

  lemma StartInv(prefetchFrames: nat, numThreads: nat)
    requires 1 <= prefetchFrames <= SIZE_MAX && numThreads >= 1
    ensures SystemInv(Init(prefetchFrames), numThreads)
  {
    InitInv(prefetchFrames - 1);
  }

  // ----- Ownership -----

  lemma WithoutOne(a: set<Thread>, t: Thread)
    ensures |a - {t}| == if t in a then |a| - 1 else |a|
  {
    if t in a {
      assert a == (a - {t}) + {t};
    } else {
      assert a - {t} == a;
    }
  }

  lemma OthersStay(threads: map<Thread, Phase>, t: Thread, p: Option<Phase>, k: Key)
    ensures Holders(Placed(threads, t, p), k) - {t} == Holders(threads, k) - {t}
    ensures Sleepers(Placed(threads, t, p), k) - {t} == Sleepers(threads, k) - {t}
  {
    var r := Placed(threads, t, p);
    assert forall u :: u != t ==> (u in r <==> u in threads) && (u in r ==> r[u] == threads[u]);
  }

  lemma HoldersPlaced(threads: map<Thread, Phase>, t: Thread, p: Option<Phase>, k: Key)
    ensures |Holders(Placed(threads, t, p), k)| - Held(p, k) == |Holders(threads, k)| - Held(PhaseOf(threads, t), k)
  {
    OthersStay(threads, t, p, k);
    WithoutOne(Holders(threads, k), t);
    WithoutOne(Holders(Placed(threads, t, p), k), t);
    assert t in Holders(Placed(threads, t, p), k) <==> Held(p, k) == 1;
    assert t in Holders(threads, k) <==> Held(PhaseOf(threads, t), k) == 1;
  }

  lemma SleepersPlaced(threads: map<Thread, Phase>, t: Thread, p: Option<Phase>, k: Key)
    ensures |Sleepers(Placed(threads, t, p), k)| - Slept(p, k) == |Sleepers(threads, k)| - Slept(PhaseOf(threads, t), k)
  {
    OthersStay(threads, t, p, k);
    WithoutOne(Sleepers(threads, k), t);
    WithoutOne(Sleepers(Placed(threads, t, p), k), t);
    assert t in Sleepers(Placed(threads, t, p), k) <==> Slept(p, k) == 1;
    assert t in Sleepers(threads, k) <==> Slept(PhaseOf(threads, t), k) == 1;
  }

  lemma PlacedCounts(threads: map<Thread, Phase>, t: Thread, p: Option<Phase>)
    ensures forall k :: |Holders(Placed(threads, t, p), k)| - Held(p, k) == |Holders(threads, k)| - Held(PhaseOf(threads, t), k)
    ensures forall k :: |Sleepers(Placed(threads, t, p), k)| - Slept(p, k) == |Sleepers(threads, k)| - Slept(PhaseOf(threads, t), k)
  {
    forall k
      ensures |Holders(Placed(threads, t, p), k)| - Held(p, k) == |Holders(threads, k)| - Held(PhaseOf(threads, t), k)
    {
      HoldersPlaced(threads, t, p, k);
    }
    forall k
      ensures |Sleepers(Placed(threads, t, p), k)| - Slept(p, k) == |Sleepers(threads, k)| - Slept(PhaseOf(threads, t), k)
    {
      SleepersPlaced(threads, t, p, k);
    }
  }

  /** A thread moves on: what it adds to or takes from the handles and the waiters is its own. */
  lemma ThreadMoves(s: System, c: Cache, t: Thread, p: Option<Phase>)
    requires Owned(s)
    requires forall k :: c.handles[k] - Held(p, k) == s.cache.handles[k] - Held(PhaseOf(s.threads, t), k)
    requires forall k :: c.waiters[k] - Slept(p, k) == s.cache.waiters[k] - Slept(PhaseOf(s.threads, t), k)
    ensures Owned(Put(s.(cache := c), t, p))
  {
    PlacedCounts(s.threads, t, p);
  }

  lemma ArrivedInterest(n: Key, result: LookupResult, stale: bool, F: Key -> Frame)
    ensures forall k :: Held(Arrived(n, result, stale, F), k) == if result.NotFound? && k == n then 1 else 0
    ensures forall k :: Slept(Arrived(n, result, stale, F), k) == if result.Waiting? && k == n then 1 else 0
  {
  }

  lemma LookedUp(s: System, c: Cache, t: Thread, n: Key, result: LookupResult, stale: bool, F: Key -> Frame)
    requires Owned(s) && t !in s.threads
    requires c.handles == if result.NotFound? then s.cache.handles + multiset{n} else s.cache.handles
    requires c.waiters == if result.Waiting? then s.cache.waiters + multiset{n} else s.cache.waiters
    ensures Owned(Put(s.(cache := c), t, Arrived(n, result, stale, F)))
  {
    ArrivedInterest(n, result, stale, F);
    ThreadMoves(s, c, t, Arrived(n, result, stale, F));
  }

  lemma WokenUp(s: System, c: Cache, t: Thread, n: Key, result: LookupResult, stale: bool, F: Key -> Frame)
    requires Owned(s) && PhaseOf(s.threads, t) == Some(Asleep(n)) && n in s.cache.waiters
    requires c.handles == if result.NotFound? then s.cache.handles + multiset{n} else s.cache.handles
    requires c.waiters == if result.Waiting? then s.cache.waiters else s.cache.waiters - multiset{n}
    ensures Owned(Put(s.(cache := c), t, Arrived(n, result, stale, F)))
  {
    ArrivedInterest(n, result, stale, F);
    ThreadMoves(s, c, t, Arrived(n, result, stale, F));
  }

  lemma LookedAhead(s: System, c: Cache, t: Thread, m: Key, answer: Delivery, numQueued: nat, reserved: bool)
    requires Owned(s) && PhaseOf(s.threads, t) == Some(Scheduling(answer, numQueued))
    requires c.handles == if reserved then s.cache.handles + multiset{m} else s.cache.handles
    requires c.waiters == s.cache.waiters
    ensures Owned(Put(s.(cache := c), t, Some(Ahead(m, answer, numQueued, reserved))))
  {
    assert forall k :: Held(Some(Ahead(m, answer, numQueued, reserved)), k) == if reserved && k == m then 1 else 0;
    ThreadMoves(s, c, t, Some(Ahead(m, answer, numQueued, reserved)));
  }

  lemma HeldOnly(p: Option<Phase>, n: Key)
    requires Held(p, n) == 1
    ensures forall k :: Held(p, k) == (if k == n then 1 else 0)
    ensures forall k :: Slept(p, k) == 0
  {
  }

  /** A thread spends its handle, by commit or by rollback. */
  lemma OwnSpent(s: System, c: Cache, t: Thread, n: Key, p: Option<Phase>)
    requires Owned(s) && n in s.cache.handles
    requires Held(PhaseOf(s.threads, t), n) == 1
    requires p == None || p.value.Scheduling?
    requires c.handles == s.cache.handles - multiset{n} && c.waiters == s.cache.waiters
    ensures Owned(Put(s.(cache := c), t, p))
  {
    HeldOnly(PhaseOf(s.threads, t), n);
    assert forall k :: Held(p, k) == 0 && Slept(p, k) == 0;
    ThreadMoves(s, c, t, p);
  }

  /** A worker or the destructor spends a queued handle. */
  lemma JobSpent(s: System, r: System, m: Key)
    requires Owned(s) && r.threads == s.threads && m in s.cache.handles
    requires r.cache.handles == s.cache.handles - multiset{m} && r.cache.waiters == s.cache.waiters
    requires forall k :: Outstanding(r, k) + (if k == m then 1 else 0) == Outstanding(s, k)
    ensures Owned(r)
  {
  }

  /** A queued handle changes hands between the queue and the workers. */
  lemma JobPassed(s: System, r: System)
    requires Owned(s) && r.threads == s.threads
    requires r.cache.handles == s.cache.handles && r.cache.waiters == s.cache.waiters
    requires forall k :: Outstanding(r, k) == Outstanding(s, k)
    ensures Owned(r)
  {
  }

  lemma Popped(queue: seq<Key>)
    requires queue != []
    ensures forall k :: multiset(queue)[k] == multiset(queue[1..])[k] + if k == queue[0] then 1 else 0
  {
    assert queue == [queue[0]] + queue[1..];
  }

  lemma RequestOwned(s: System, t: Thread, n: Key, F: Key -> Frame)
    requires Inv(s.cache) && Owned(s) && t !in s.threads
    ensures Owned(RequestStep(s, t, n, F)) && Inv(RequestStep(s, t, n, F).cache)
  {
    LookupInv(s.cache, n, true, false, false);
    LookupEffect(s.cache, n, true, false, false);
    LookedUp(s, Lookup(s.cache, n, true, false, false).0, t, n, Lookup(s.cache, n, true, false, false).1,
             MeetsRolledBack(s.cache, n), F);
  }

  lemma SleeperWaits(s: System, t: Thread, n: Key)
    requires Owned(s) && t in s.threads && s.threads[t] == Asleep(n)
    ensures n in s.cache.waiters
  {
    assert t in Sleepers(s.threads, n);
  }

  lemma HolderHolds(s: System, t: Thread, n: Key)
    requires Owned(s) && t in s.threads && Held(Some(s.threads[t]), n) == 1
    ensures n in s.cache.handles
  {
    assert t in Holders(s.threads, n);
  }

  lemma WakeOwned(s: System, t: Thread, n: Key, F: Key -> Frame)
    requires Inv(s.cache) && Owned(s) && PhaseOf(s.threads, t) == Some(Asleep(n)) && n in s.cache.slots
    ensures Owned(WakeStep(s, t, n, F)) && Inv(WakeStep(s, t, n, F).cache)
  {
    SleeperWaits(s, t, n);
    WakeInv(s.cache, n);
    WokenUp(s, CacheProtocol.Wake(s.cache, n).0, t, n, CacheProtocol.Wake(s.cache, n).1, false, F);
  }

  lemma AbandonOwned(s: System, t: Thread, n: Key)
    requires Inv(s.cache) && Owned(s) && n in s.cache.slots
    requires Held(PhaseOf(s.threads, t), n) == 1
    ensures Owned(AbandonStep(s, t, n)) && Inv(AbandonStep(s, t, n).cache)
  {
    HolderHolds(s, t, n);
    RollbackInv(s.cache, n);
    OwnSpent(s, Rollback(s.cache, n), t, n, None);
  }

  lemma LookAheadOwned(s: System, t: Thread, m: Key, answer: Delivery, numQueued: nat)
    requires Inv(s.cache) && Owned(s) && PhaseOf(s.threads, t) == Some(Scheduling(answer, numQueued))
    ensures Owned(LookAheadStep(s, t, m, answer, numQueued)) && Inv(LookAheadStep(s, t, m, answer, numQueued).cache)
  {
    LookupInv(s.cache, m, false, false, false);
    LookupEffect(s.cache, m, false, false, false);
    LookedAhead(s, Lookup(s.cache, m, false, false, false).0, t, m, answer, numQueued, Lookup(s.cache, m, false, false, false).1.NotFound?);
  }

  lemma EnqueueOwned(s: System, t: Thread, m: Key, answer: Delivery, numQueued: nat)
    requires Owned(s) && PhaseOf(s.threads, t) == Some(Carrying(m, answer, numQueued))
    ensures Owned(EnqueueStep(s, t, m, answer, numQueued))
  {
    PlacedCounts(s.threads, t, Some(Scheduling(answer, numQueued + 1)));
    assert forall k :: Outstanding(EnqueueStep(s, t, m, answer, numQueued), k) == Outstanding(s, k) + if k == m then 1 else 0;
  }

  lemma WakeWorkersOwned(s: System, t: Thread, numThreads: nat, answer: Delivery, numQueued: nat)
    requires Owned(s) && PhaseOf(s.threads, t) == Some(Scheduling(answer, numQueued))
    ensures Owned(WakeWorkersStep(s, t, numThreads, answer, numQueued))
  {
    var jobs := Started(s.numWorkers, numThreads, numQueued);
    var r := s.(numWorkers := s.numWorkers + jobs, pooled := s.pooled + jobs, delivered := s.delivered + [answer]);
    JobPassed(s, r);
    ThreadMoves(r, s.cache, t, None);
  }

  lemma OwnStoreOwned(s: System, t: Thread, n: Key, F: Key -> Frame)
    requires Inv(s.cache) && Owned(s) && n in s.cache.slots && PhaseOf(s.threads, t) == Some(Producing(n))
    ensures var r := Put(s.(cache := Store(s.cache, n, Some(F(n)))), t, Some(Produced(n))); Owned(r) && Inv(r.cache)
  {
    HolderHolds(s, t, n);
    StoreInv(s.cache, n, Some(F(n)));
    ThreadMoves(s, Store(s.cache, n, Some(F(n))), t, Some(Produced(n)));
  }

  lemma OwnCommitOwned(s: System, t: Thread, n: Key)
    requires Inv(s.cache) && Owned(s) && n in s.cache.slots && PhaseOf(s.threads, t) == Some(Produced(n))
    ensures Owned(CommitOwnStep(s, t, n)) && Inv(CommitOwnStep(s, t, n).cache)
  {
    HolderHolds(s, t, n);
    CommitInv(s.cache, n);
    OwnSpent(s, Commit(s.cache, n), t, n, Some(Scheduling(Delivery(n, s.cache.slots[n].value, false), 0)));
  }

  lemma TakeOwned(s: System)
    requires Owned(s)
    ensures Owned(TakeStep(s))
  {
    if s.queue != [] { Popped(s.queue); }
    JobPassed(s, TakeStep(s));
  }

  lemma JobHolds(s: System, m: Key)
    requires Owned(s) && (m in s.computing || m in s.stored || m in s.failing || m in s.queue)
    ensures m in s.cache.handles
  {
    assert Outstanding(s, m) > 0;
  }

  lemma WorkerStoresOwned(s: System, m: Key, F: Key -> Frame)
    requires Inv(s.cache) && Owned(s) && m in s.computing && m in s.cache.slots
    ensures Owned(WorkerStoresStep(s, m, F)) && Inv(WorkerStoresStep(s, m, F).cache)
  {
    JobHolds(s, m);
    StoreInv(s.cache, m, Some(F(m)));
    JobPassed(s, WorkerStoresStep(s, m, F));
  }

  lemma WorkerCommitsOwned(s: System, m: Key)
    requires Inv(s.cache) && Owned(s) && m in s.stored && m in s.cache.slots
    ensures Owned(WorkerCommitsStep(s, m)) && Inv(WorkerCommitsStep(s, m).cache)
  {
    JobHolds(s, m);
    CommitInv(s.cache, m);
    JobSpent(s, WorkerCommitsStep(s, m), m);
  }

  lemma WorkerReportsOwned(s: System, m: Key)
    requires Owned(s) && m in s.computing
    ensures Owned(WorkerReportsStep(s, m))
  {
    JobPassed(s, WorkerReportsStep(s, m));
  }

  lemma WorkerRollsBackOwned(s: System, m: Key)
    requires Inv(s.cache) && Owned(s) && m in s.failing && m in s.cache.slots
    ensures Owned(WorkerRollsBackStep(s, m)) && Inv(WorkerRollsBackStep(s, m).cache)
  {
    JobHolds(s, m);
    RollbackInv(s.cache, m);
    JobSpent(s, WorkerRollsBackStep(s, m), m);
  }

  lemma DrainOwned(s: System)
    requires Inv(s.cache) && Owned(s) && s.queue != [] && s.queue[0] in s.cache.slots
    ensures Owned(DrainStep(s)) && Inv(DrainStep(s).cache)
  {
    JobHolds(s, s.queue[0]);
    RollbackInv(s.cache, s.queue[0]);
    Popped(s.queue);
    JobSpent(s, DrainStep(s), s.queue[0]);
  }

  ghost predicate OfThread(e: Event) {
    e.Request? || e.Wake? || e.Check? || e.Produce? || e.ProduceFails? || e.CommitOwn? || e.LookAhead? || e.Enqueue? || e.WakeWorkers?
  }

  lemma ThreadOwned(s: System, e: Event, numThreads: nat, F: Key -> Frame)
    requires Inv(s.cache) && Owned(s) && Enabled(s, e) && OfThread(e)
    ensures Inv(Next(s, e, numThreads, F).cache) && Owned(Next(s, e, numThreads, F))
  {
    match e
    case Request(t, n) => RequestOwned(s, t, n, F);
    case Wake(t) => WakeOwned(s, t, s.threads[t].n, F);
    case Check(t) =>
      if s.exceptionPresent {
        AbandonOwned(s, t, s.threads[t].n);
      } else {
        ThreadMoves(s, s.cache, t, Some(Producing(s.threads[t].n)));
      }
    case Produce(t) => OwnStoreOwned(s, t, s.threads[t].n, F);
    case ProduceFails(t) => AbandonOwned(s, t, s.threads[t].n);
    case CommitOwn(t) => OwnCommitOwned(s, t, s.threads[t].n);
    case LookAhead(t, m) => LookAheadOwned(s, t, m, s.threads[t].answer, s.threads[t].numQueued);
    case Enqueue(t) => EnqueueOwned(s, t, s.threads[t].m, s.threads[t].answer, s.threads[t].numQueued);
    case WakeWorkers(t) => WakeWorkersOwned(s, t, numThreads, s.threads[t].answer, s.threads[t].numQueued);
  }

  lemma WorkerOwned(s: System, e: Event, numThreads: nat, F: Key -> Frame)
    requires Inv(s.cache) && Owned(s) && Enabled(s, e) && !OfThread(e)
    ensures Inv(Next(s, e, numThreads, F).cache) && Owned(Next(s, e, numThreads, F))
  {
    match e
    case RequestDirect(n) => JobPassed(s, Next(s, e, numThreads, F));
    case Start => JobPassed(s, Next(s, e, numThreads, F));
    case Take => TakeOwned(s);
    case WorkerStores(m) => WorkerStoresOwned(s, m, F);
    case WorkerCommits(m) => WorkerCommitsOwned(s, m);
    case WorkerReports(m) => WorkerReportsOwned(s, m);
    case WorkerRollsBack(m) => WorkerRollsBackOwned(s, m);
    case Close => JobPassed(s, Next(s, e, numThreads, F));
    case Drain => DrainOwned(s);
  }

  // ----- Workers and queued work -----

  lemma ThreadStaffed(s: System, e: Event, numThreads: nat, F: Key -> Frame)
    requires Staffed(s, numThreads) && Enabled(s, e) && OfThread(e)
    ensures Staffed(Next(s, e, numThreads, F), numThreads)
  {
    if e.WakeWorkers? {
      var jobs := Started(s.numWorkers, numThreads, s.threads[e.t].numQueued);
      assert 0 <= jobs && s.numWorkers + jobs <= numThreads;
    }
  }

  lemma WorkerStaffed(s: System, e: Event, numThreads: nat, F: Key -> Frame)
    requires Staffed(s, numThreads) && Enabled(s, e) && !OfThread(e)
    ensures Staffed(Next(s, e, numThreads, F), numThreads)
  {
    if e.WorkerStores? || e.WorkerReports? {
      TakenOne(s.computing, e.m);
    } else if e.WorkerCommits? {
      TakenOne(s.stored, e.m);
    } else if e.WorkerRollsBack? {
      TakenOne(s.failing, e.m);
    } else if e.Take? {
      TakeStaffed(s, numThreads);
    }
  }

  lemma TakeStaffed(s: System, numThreads: nat)
    requires Staffed(s, numThreads) && s.running > 0
    ensures Staffed(TakeStep(s), numThreads)
  {
  }

  /** A thread that keeps or raises its count of wake-ups still to do, or leaves with none, loses no work. */
  lemma ThreadNotLost(s: System, r: System, t: Thread)
    requires NotLost(s) && r.queue == s.queue && r.numWorkers == s.numWorkers
    requires t in s.threads && PendingWakes(s.threads[t]) > 0 ==>
               t in r.threads && PendingWakes(r.threads[t]) == PendingWakes(s.threads[t])
    requires forall u :: u != t && u in s.threads ==> u in r.threads && r.threads[u] == s.threads[u]
    ensures NotLost(r)
  {
    if s.queue != [] && s.numWorkers <= 0 {
      var u :| u in s.threads && PendingWakes(s.threads[u]) > 0;
      assert u in r.threads && PendingWakes(r.threads[u]) > 0;
    }
  }

  lemma WakeWorkersNotLost(s: System, t: Thread, numThreads: nat, answer: Delivery, numQueued: nat)
    requires NotLost(s) && Staffed(s, numThreads) && numThreads >= 1
    requires PhaseOf(s.threads, t) == Some(Scheduling(answer, numQueued))
    ensures NotLost(WakeWorkersStep(s, t, numThreads, answer, numQueued))
  {
    var r := WakeWorkersStep(s, t, numThreads, answer, numQueued);
    if s.queue != [] && r.numWorkers <= 0 {
      assert numQueued == 0;
      var u :| u in s.threads && PendingWakes(s.threads[u]) > 0;
      assert u in r.threads && PendingWakes(r.threads[u]) > 0;
    }
  }

  lemma EnqueueNotLost(s: System, t: Thread, m: Key, answer: Delivery, numQueued: nat)
    ensures NotLost(EnqueueStep(s, t, m, answer, numQueued))
  {
    var r := EnqueueStep(s, t, m, answer, numQueued);
    assert t in r.threads && PendingWakes(r.threads[t]) > 0;
  }

  lemma ThreadKeepsWork(s: System, e: Event, numThreads: nat, F: Key -> Frame)
    requires Enabled(s, e) && OfThread(e) && NotLost(s) && Staffed(s, numThreads) && numThreads >= 1
    ensures NotLost(Next(s, e, numThreads, F))
  {
    if e.Enqueue? {
      EnqueueNotLost(s, e.t, s.threads[e.t].m, s.threads[e.t].answer, s.threads[e.t].numQueued);
    } else if e.WakeWorkers? {
      WakeWorkersNotLost(s, e.t, numThreads, s.threads[e.t].answer, s.threads[e.t].numQueued);
    } else {
      ThreadNotLost(s, Next(s, e, numThreads, F), e.t);
    }
  }

  lemma SameStaff(s: System, r: System)
    requires NotLost(s) && r.threads == s.threads && (r.queue != [] ==> s.queue != [] && r.numWorkers == s.numWorkers)
    ensures NotLost(r)
  {
  }

  /** A worker leaves only an empty queue; while it works it counts. */
  lemma WorkerKeepsWork(s: System, e: Event, numThreads: nat, F: Key -> Frame)
    requires Enabled(s, e) && !OfThread(e) && NotLost(s)
    ensures NotLost(Next(s, e, numThreads, F))
  {
    match e
    case RequestDirect(n) => SameStaff(s, Next(s, e, numThreads, F));
    case Start => SameStaff(s, Next(s, e, numThreads, F));
    case Take => SameStaff(s, TakeStep(s));
    case WorkerStores(m) => SameStaff(s, WorkerStoresStep(s, m, F));
    case WorkerCommits(m) => SameStaff(s, WorkerCommitsStep(s, m));
    case WorkerReports(m) => SameStaff(s, WorkerReportsStep(s, m));
    case WorkerRollsBack(m) => SameStaff(s, WorkerRollsBackStep(s, m));
    case Close => SameStaff(s, Next(s, e, numThreads, F));
    case Drain => SameStaff(s, DrainStep(s));
  }

  lemma NothingSpent(s: System, r: System)
    requires SpentOnce(s) && r.accepted == s.accepted && r.committed == s.committed && r.rolledBack == s.rolledBack
    requires forall k :: Outstanding(r, k) == Outstanding(s, k)
    ensures SpentOnce(r)
  {
  }

  lemma OneSpent(s: System, r: System, m: Key)
    requires SpentOnce(s) && r.accepted == s.accepted
    requires (r.committed == s.committed + multiset{m} && r.rolledBack == s.rolledBack)
          || (r.committed == s.committed && r.rolledBack == s.rolledBack + multiset{m})
    requires forall k :: Outstanding(r, k) + (if k == m then 1 else 0) == Outstanding(s, k)
    ensures SpentOnce(r)
  {
  }

  lemma ThreadSpendsNone(s: System, e: Event, numThreads: nat, F: Key -> Frame)
    requires SpentOnce(s) && Enabled(s, e) && OfThread(e)
    ensures SpentOnce(Next(s, e, numThreads, F))
  {
    if e.Enqueue? {
      assert forall k :: Outstanding(Next(s, e, numThreads, F), k) == Outstanding(s, k) + if k == s.threads[e.t].m then 1 else 0;
    } else {
      NothingSpent(s, Next(s, e, numThreads, F));
    }
  }

  lemma WorkerSpendsOnce(s: System, e: Event, numThreads: nat, F: Key -> Frame)
    requires SpentOnce(s) && Enabled(s, e) && !OfThread(e)
    ensures SpentOnce(Next(s, e, numThreads, F))
  {
    match e
    case RequestDirect(n) => NothingSpent(s, Next(s, e, numThreads, F));
    case Start => NothingSpent(s, Next(s, e, numThreads, F));
    case Take => TakeSpendsNone(s);
    case WorkerStores(m) => PassingSpendsNone(s, m, F);
    case WorkerCommits(m) => CommitSpendsOne(s, m);
    case WorkerReports(m) => ReportSpendsNone(s, m);
    case WorkerRollsBack(m) => RollbackSpendsOne(s, m);
    case Close => NothingSpent(s, Next(s, e, numThreads, F));
    case Drain => DrainSpendsOne(s);
  }

  lemma PassingSpendsNone(s: System, m: Key, F: Key -> Frame)
    requires SpentOnce(s) && m in s.computing && m in s.cache.slots
    ensures SpentOnce(WorkerStoresStep(s, m, F))
  {
    NothingSpent(s, WorkerStoresStep(s, m, F));
  }

  lemma ReportSpendsNone(s: System, m: Key)
    requires SpentOnce(s) && m in s.computing
    ensures SpentOnce(WorkerReportsStep(s, m))
  {
    NothingSpent(s, WorkerReportsStep(s, m));
  }

  lemma CommitSpendsOne(s: System, m: Key)
    requires SpentOnce(s) && m in s.stored && m in s.cache.slots
    ensures SpentOnce(WorkerCommitsStep(s, m))
  {
    OneSpent(s, WorkerCommitsStep(s, m), m);
  }

  lemma RollbackSpendsOne(s: System, m: Key)
    requires SpentOnce(s) && m in s.failing && m in s.cache.slots
    ensures SpentOnce(WorkerRollsBackStep(s, m))
  {
    OneSpent(s, WorkerRollsBackStep(s, m), m);
  }

  lemma DrainSpendsOne(s: System)
    requires SpentOnce(s) && s.queue != [] && s.queue[0] in s.cache.slots
    ensures SpentOnce(DrainStep(s))
  {
    Popped(s.queue);
    OneSpent(s, DrainStep(s), s.queue[0]);
  }

  lemma TakeSpendsNone(s: System)
    requires SpentOnce(s)
    ensures SpentOnce(TakeStep(s))
  {
    if s.queue != [] { Popped(s.queue); }
    NothingSpent(s, TakeStep(s));
  }

  lemma NextInv(s: System, e: Event, numThreads: nat, F: Key -> Frame)
    requires SystemInv(s, numThreads) && Enabled(s, e) && numThreads >= 1
    ensures SystemInv(Next(s, e, numThreads, F), numThreads)
  {
    if OfThread(e) {
      ThreadOwned(s, e, numThreads, F);
      ThreadKeepsWork(s, e, numThreads, F);
      ThreadStaffed(s, e, numThreads, F);
      ThreadSpendsNone(s, e, numThreads, F);
    } else {
      WorkerOwned(s, e, numThreads, F);
      WorkerKeepsWork(s, e, numThreads, F);
      WorkerStaffed(s, e, numThreads, F);
      WorkerSpendsOnce(s, e, numThreads, F);
    }
  }

  // ----- Whole runs -----

  ghost predicate IsRun(s: System, run: seq<Event>, numThreads: nat, F: Key -> Frame)
    decreases run
  {
    run != [] ==> Enabled(s, run[0]) && IsRun(Next(s, run[0], numThreads, F), run[1..], numThreads, F)
  }

  ghost function Reached(s: System, run: seq<Event>, numThreads: nat, F: Key -> Frame): (r: System)
    requires IsRun(s, run, numThreads, F)
    decreases run
  {
    if run == [] then s else Reached(Next(s, run[0], numThreads, F), run[1..], numThreads, F)
  }

  lemma {:induction false} RunKeepsInv(s: System, run: seq<Event>, numThreads: nat, F: Key -> Frame)
    requires SystemInv(s, numThreads) && IsRun(s, run, numThreads, F) && numThreads >= 1
    ensures SystemInv(Reached(s, run, numThreads, F), numThreads)
    decreases run
  {
    if run != [] {
      NextInv(s, run[0], numThreads, F);
      RunKeepsInv(Next(s, run[0], numThreads, F), run[1..], numThreads, F);
    }
  }

  /** No prefetch work is lost in any run: there are never more workers than threads in the pool, a queue that
      is not empty has a worker or a thread about to wake one, and every queued handle has been committed or
      rolled back once, or is still in the queue or with a worker. */
  lemma NoLostWork(prefetchFrames: nat, numThreads: nat, F: Key -> Frame, run: seq<Event>)
    requires 1 <= prefetchFrames <= SIZE_MAX && numThreads >= 1
    requires IsRun(Init(prefetchFrames), run, numThreads, F)
    ensures var s := Reached(Init(prefetchFrames), run, numThreads, F);
      && 0 <= s.numWorkers <= numThreads
      && (s.queue != [] ==> s.numWorkers > 0 || exists t :: t in s.threads && PendingWakes(s.threads[t]) > 0)
      && (forall k :: s.accepted[k] == s.committed[k] + s.rolledBack[k] + Outstanding(s, k))
      && (forall k :: Outstanding(s, k) <= 1)
  {
    StartInv(prefetchFrames, numThreads);
    RunKeepsInv(Init(prefetchFrames), run, numThreads, F);
    OneProducer(Reached(Init(prefetchFrames), run, numThreads, F));
  }

  lemma OneProducer(s: System)
    requires Inv(s.cache) && Owned(s)
    ensures forall k :: Outstanding(s, k) <= 1
  {
    forall k ensures Outstanding(s, k) <= 1 {
      if k in s.cache.slots { assert SlotInv(s.cache, k); }
    }
  }

  /** The steps that carry queued work forward. */
  ghost predicate IsServing(e: Event) {
    e.Start? || e.Take? || e.WorkerStores? || e.WorkerCommits? || e.WorkerReports? || e.WorkerRollsBack? || e.Enqueue? || e.WakeWorkers?
  }

  /** While the queue is not empty, some step that serves it can be taken. */
  lemma QueuedWorkMoves(s: System, numThreads: nat)
    requires SystemInv(s, numThreads) && !s.closing && s.queue != []
    ensures exists e :: Enabled(s, e) && IsServing(e)
  {
    if s.numWorkers <= 0 {
      var t :| t in s.threads && PendingWakes(s.threads[t]) > 0;
      assert Enabled(s, if s.threads[t].Carrying? then Enqueue(t) else WakeWorkers(t));
    } else if s.pooled > 0 {
      assert Enabled(s, Start);
    } else if s.running > 0 {
      assert Enabled(s, Take);
    } else {
      BusyWorkerMoves(s);
    }
  }

  lemma BusyWorkerMoves(s: System)
    requires Inv(s.cache) && Owned(s) && |s.computing| + |s.stored| + |s.failing| > 0
    ensures exists e :: Enabled(s, e) && (e.WorkerStores? || e.WorkerCommits? || e.WorkerRollsBack?)
  {
    SomeInMultiset(s.computing);
    SomeInMultiset(s.stored);
    SomeInMultiset(s.failing);
    if s.computing != multiset{} {
      var m :| m in s.computing;
      JobHolds(s, m);
      assert Enabled(s, WorkerStores(m));
    } else if s.stored != multiset{} {
      var m :| m in s.stored;
      JobHolds(s, m);
      assert Enabled(s, WorkerCommits(m));
    } else {
      assert s.failing != multiset{};
      var m :| m in s.failing;
      JobHolds(s, m);
      assert Enabled(s, WorkerRollsBack(m));
    }
  }

  /** When the destructor is done, every handle that was ever queued has been committed or rolled back exactly
      once, and the cache has no reservation left. */
  lemma DestructionSpendsAll(prefetchFrames: nat, numThreads: nat, F: Key -> Frame, run: seq<Event>)
    requires 1 <= prefetchFrames <= SIZE_MAX && numThreads >= 1
    requires IsRun(Init(prefetchFrames), run, numThreads, F)
    requires var s := Reached(Init(prefetchFrames), run, numThreads, F);
      s.closing && forall e :: Enabled(s, e) ==> !IsServing(e) && !e.Drain?
    ensures var s := Reached(Init(prefetchFrames), run, numThreads, F);
      && (forall k :: s.accepted[k] == s.committed[k] + s.rolledBack[k])
      && s.cache.handles == multiset{} && s.cache.waiters == multiset{}
  {
    StartInv(prefetchFrames, numThreads);
    RunKeepsInv(Init(prefetchFrames), run, numThreads, F);
    Drained(Reached(Init(prefetchFrames), run, numThreads, F), numThreads);
  }

  lemma Drained(s: System, numThreads: nat)
    requires SystemInv(s, numThreads) && s.closing
    requires forall e :: Enabled(s, e) ==> !IsServing(e) && !e.Drain?
    ensures forall k :: s.accepted[k] == s.committed[k] + s.rolledBack[k]
    ensures s.cache.handles == multiset{} && s.cache.waiters == multiset{}
  {
    if Busy(s) || s.queue != [] {
      ClosingMoves(s);
    } else {
      NothingOutstanding(s);
    }
  }

  /** Queued frames, or workers at work, let some step of a closing prefetcher be taken. */
  lemma ClosingMoves(s: System)
    requires Inv(s.cache) && Owned(s) && s.closing && (Busy(s) || s.queue != [])
    ensures exists e :: Enabled(s, e) && (IsServing(e) || e.Drain?)
  {
    if |s.computing| + |s.stored| + |s.failing| > 0 {
      BusyWorkerMoves(s);
    } else if s.running > 0 {
      assert Enabled(s, Take);
    } else {
      JobHolds(s, s.queue[0]);
      assert Enabled(s, Drain);
    }
  }

  lemma NothingOutstanding(s: System)
    requires Owned(s) && SpentOnce(s) && s.threads == map[] && !Busy(s) && s.queue == []
    ensures forall k :: s.accepted[k] == s.committed[k] + s.rolledBack[k]
    ensures s.cache.handles == multiset{} && s.cache.waiters == multiset{}
  {
    assert forall k :: Outstanding(s, k) == 0;
    assert forall k :: Holders(s.threads, k) == {} && Sleepers(s.threads, k) == {};
    assert forall k :: s.cache.handles[k] == 0;
    assert forall k :: s.cache.waiters[k] == 0;
  }

  lemma FrontDrained(s: System)
    requires Inv(s.cache) && Owned(s) && s.queue != []
    ensures s.queue[0] in s.cache.slots
    ensures Inv(DrainStep(s).cache) && Owned(DrainStep(s))
  {
    JobHolds(s, s.queue[0]);
    DrainOwned(s);
  }

  /** The state after the destructor has rolled back every handle of the queue, front to back. */
  ghost function DrainAll(s: System): (r: System)
    requires Inv(s.cache) && Owned(s)
    decreases |s.queue|
  {
    if s.queue == [] then s
    else
      FrontDrained(s);
      DrainAll(DrainStep(s))
  }

  /** Emptying the queue rolls back exactly the handles in it. */
  lemma {:induction false} DrainAllSpends(s: System)
    requires Inv(s.cache) && Owned(s) && SpentOnce(s)
    ensures var r := DrainAll(s);
      && Inv(r.cache) && Owned(r) && SpentOnce(r) && r.queue == [] && r.accepted == s.accepted
      && r.committed == s.committed
      && (forall k :: r.rolledBack[k] == s.rolledBack[k] + multiset(s.queue)[k])
    decreases |s.queue|
  {
    if s.queue != [] {
      FrontDrained(s);
      DrainSpendsOne(s);
      DrainAllSpends(DrainStep(s));
      Popped(s.queue);
    }
  }
}
