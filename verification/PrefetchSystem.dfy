/** The running prefetcher of avs_core/core/Prefetcher.cpp: one consumer calling `GetFrame`, any number of
    workers, and the frame cache between them, interleaved at will. The child filter is a function from
    frame numbers to frames whose calls may also fail. */
module PrefetchSystem {
  import opened Collections
  import opened Options
  import opened SimpleLru
  import opened CacheProtocol

  /** Where the consumer stands in `GetFrame(n)`. */
  datatype Consumer =
    | Idle
    | Before(n: Key)                            // scheduling, before the lookup of n
    | Asleep(n: Key)                            // waiting inside `lookup`
    | Producing(n: Key)                         // holds the handle for n, the child is at work
    | Produced(n: Key)                          // has written the frame, not yet committed
    | After(n: Key, result: Option<Frame>)      // has its result, schedules again
    | Stuck                                     // the arm the source marks assert(0)

  datatype Delivery = Delivery(n: Key, frame: Option<Frame>)

  /** Jobs move from `queued` to `computing` to `stored`; then their worker leaves (`leaving`), or it has
      rolled back and still has to report the exception (`failing`). */
  datatype System = System(
    cache: Cache, consumer: Consumer,
    queued: multiset<Key>, computing: multiset<Key>, stored: multiset<Key>, leaving: nat, failing: nat,
    runningWorkers: int, exceptionPresent: bool, closing: bool, delivered: seq<Delivery>)

  datatype Event =
    | Request(n: Key)
    | RequestDirect(n: Key)      // while thread suppression is on: straight to the child
    | Prefetch(m: Key)           // one turn of the loop in `SchedulePrefetch`
    | LookUp                     // the blocking lookup of the requested frame
    | WakeConsumer
    | Produce
    | ProduceFails
    | CommitOwn
    | Return
    | Pick(m: Key)
    | WorkerStores(m: Key)
    | WorkerCommits(m: Key)
    | WorkerFails(m: Key)
    | WorkerReports
    | WorkerLeaves
    | Close
    | Cancel(m: Key)             // the destructor rolls back a job that never ran

  ghost predicate Busy(s: System) {
    s.computing != multiset{} || s.stored != multiset{} || s.leaving > 0 || s.failing > 0
  }

  ghost predicate Enabled(s: System, e: Event, P: nat) {
    match e
    case Request(n) => s.consumer == Idle && !s.closing
    case RequestDirect(n) => s.consumer == Idle && !s.closing
    case Prefetch(m) => (s.consumer.Before? || s.consumer.After?) && s.runningWorkers < P
    case LookUp => s.consumer.Before?
    case WakeConsumer => s.consumer.Asleep? && s.consumer.n in s.cache.slots
    case Produce => s.consumer.Producing? && s.consumer.n in s.cache.slots
    case ProduceFails => s.consumer.Producing? && s.consumer.n in s.cache.slots
    case CommitOwn => s.consumer.Produced? && s.consumer.n in s.cache.slots
    case Return => s.consumer.After?
    case Pick(m) => m in s.queued && !s.closing
    case WorkerStores(m) => m in s.computing && m in s.cache.slots
    case WorkerCommits(m) => m in s.stored && m in s.cache.slots
    case WorkerFails(m) => m in s.computing && m in s.cache.slots
    case WorkerReports => s.failing > 0
    case WorkerLeaves => s.leaving > 0
    case Close => s.consumer == Idle && !s.closing
    case Cancel(m) => s.closing && !Busy(s) && m in s.queued && m in s.cache.slots
  }

  ghost function PrefetchStep(s: System, m: Key): (r: System) {
    var (c, result) := Lookup(s.cache, m, false, false, false);
    if result.NotFound? then s.(cache := c, queued := s.queued + multiset{m}, runningWorkers := s.runningWorkers + 1)
    else s.(cache := c)
  }

  /** Where a result of the blocking lookup of n takes the consumer. */
  function Arrived(n: Key, result: LookupResult, F: Key -> Frame): (r: Consumer) {
    match result
    case NotFound => Producing(n)
    case FoundAndReady(v) => After(n, v)
    case Waiting => Asleep(n)
    case NoCache => After(n, Some(F(n)))
    case FoundButNotAvail => Stuck
  }

  ghost function LookUpStep(s: System, n: Key, F: Key -> Frame): (r: System) {
    var (c, result) := Lookup(s.cache, n, true, false, false);
    s.(cache := c, consumer := Arrived(n, result, F))
  }

  ghost function WakeStep(s: System, n: Key): (r: System)
    requires n in s.cache.slots
  {
    var (c, result) := Wake(s.cache, n);
    match result
    case NotFound => s.(cache := c, consumer := Producing(n))
    case FoundAndReady(v) => s.(cache := c, consumer := After(n, v))
    case _ => s.(cache := c)
  }

  ghost function StoreStep(s: System, m: Key, F: Key -> Frame): (r: System)
    requires m in s.cache.slots
  {
    s.(cache := Store(s.cache, m, Some(F(m))), computing := s.computing - multiset{m}, stored := s.stored + multiset{m})
  }

  ghost function CommitStep(s: System, m: Key): (r: System)
    requires m in s.cache.slots
  {
    s.(cache := Commit(s.cache, m), stored := s.stored - multiset{m}, leaving := s.leaving + 1)
  }

  ghost function FailStep(s: System, m: Key): (r: System)
    requires m in s.cache.slots
  {
    s.(cache := Rollback(s.cache, m), computing := s.computing - multiset{m}, failing := s.failing + 1)
  }

  ghost function CancelStep(s: System, m: Key): (r: System)
    requires m in s.cache.slots
  {
    s.(cache := Rollback(s.cache, m), queued := s.queued - multiset{m})
  }

  ghost function Next(s: System, e: Event, P: nat, F: Key -> Frame): (r: System)
    requires Enabled(s, e, P)
  {
    match e
    case Request(n) => if s.exceptionPresent then s else s.(consumer := Before(n))
    case RequestDirect(n) => s.(delivered := s.delivered + [Delivery(n, Some(F(n)))])
    case Prefetch(m) => PrefetchStep(s, m)
    case LookUp => LookUpStep(s, s.consumer.n, F)
    case WakeConsumer => WakeStep(s, s.consumer.n)
    case Produce => s.(cache := Store(s.cache, s.consumer.n, Some(F(s.consumer.n))), consumer := Produced(s.consumer.n))
    case ProduceFails => s.(cache := Rollback(s.cache, s.consumer.n), consumer := Idle)
    case CommitOwn =>
      s.(cache := Commit(s.cache, s.consumer.n), consumer := After(s.consumer.n, Some(F(s.consumer.n))))
    case Return => s.(delivered := s.delivered + [Delivery(s.consumer.n, s.consumer.result)], consumer := Idle)
    case Pick(m) => s.(queued := s.queued - multiset{m}, computing := s.computing + multiset{m})
    case WorkerStores(m) => StoreStep(s, m, F)
    case WorkerCommits(m) => CommitStep(s, m)
    case WorkerFails(m) => FailStep(s, m)
    case WorkerReports => s.(exceptionPresent := true, failing := s.failing - 1, runningWorkers := s.runningWorkers - 1)
    case WorkerLeaves => s.(leaving := s.leaving - 1, runningWorkers := s.runningWorkers - 1)
    case Close => s.(closing := true)
    case Cancel(m) => CancelStep(s, m)
  }

  ghost function Start(P: nat): (s: System) {
    System(Init(2 * P), Idle, multiset{}, multiset{}, multiset{}, 0, 0, 0, false, false, [])
  }

  // ----- What every state satisfies -----

  function Holding(c: Consumer, k: Key): (n: nat) {
    if (c.Producing? || c.Produced?) && c.n == k then 1 else 0
  }

  function Sleeping(c: Consumer, k: Key): (n: nat) {
    if c.Asleep? && c.n == k then 1 else 0
  }

  /** Every handle has exactly one owner: a job, a worker or the consumer. Nobody else waits. */
  ghost predicate Owned(s: System) {
    && (forall k :: s.cache.handles[k] == s.queued[k] + s.computing[k] + s.stored[k] + Holding(s.consumer, k))
    && (forall k :: s.cache.waiters[k] == Sleeping(s.consumer, k))
  }

  lemma OwnedTotal(s: System)
    requires Owned(s)
    ensures |s.cache.handles| + |s.cache.waiters|
      == |s.queued| + |s.computing| + |s.stored| + if s.consumer.Producing? || s.consumer.Produced? || s.consumer.Asleep? then 1 else 0
  {
    var held := if s.consumer.Producing? || s.consumer.Produced? then multiset{s.consumer.n} else multiset{};
    var slept := if s.consumer.Asleep? then multiset{s.consumer.n} else multiset{};
    var jobs := s.queued + s.computing + s.stored + held;
    assert forall k :: s.cache.handles[k] == jobs[k];
    assert s.cache.handles == jobs;
    assert forall k :: s.cache.waiters[k] == slept[k];
    assert s.cache.waiters == slept;
  }

  ghost predicate Counted(s: System, P: nat) {
    && (!s.closing ==> s.runningWorkers == |s.queued| + |s.computing| + |s.stored| + s.leaving + s.failing)
    && |s.queued| + |s.computing| + |s.stored| + s.leaving + s.failing <= s.runningWorkers <= P
    && (s.closing ==> s.consumer == Idle)
  }

  /** Every frame handed to the caller is the one the child makes for that number. */
  ghost predicate Truthful(delivered: seq<Delivery>, F: Key -> Frame) {
    forall i :: 0 <= i < |delivered| ==> delivered[i].frame == Some(F(delivered[i].n))
  }

  ghost predicate Faithful(s: System, F: Key -> Frame) {
    && (forall k :: k in s.cache.slots && (s.cache.slots[k].state == Available || k in s.stored || s.consumer == Produced(k))
          ==> s.cache.slots[k].value == Some(F(k)))
    && (s.consumer.After? ==> s.consumer.result == Some(F(s.consumer.n)))
    && Truthful(s.delivered, F)
    && s.consumer != Stuck
  }

  ghost predicate Sized(s: System, P: nat) {
    P >= 1 && s.cache.capacity == 2 * P && |s.cache.order| <= 3 * P + 1
  }

  ghost predicate SystemInv(s: System, P: nat, F: Key -> Frame) {
    Inv(s.cache) && Owned(s) && Counted(s, P) && Faithful(s, F) && Sized(s, P)
  }

  lemma StartInv(P: nat, F: Key -> Frame)
    requires P >= 1 && 2 * P <= SIZE_MAX
    ensures SystemInv(Start(P), P, F)
  {
    InitInv(2 * P);
  }

  lemma NoStrayValues(s: System, F: Key -> Frame, k: Key)
    requires Inv(s.cache) && Owned(s) && k !in s.cache.slots
    ensures k !in s.stored && s.consumer != Produced(k)
  {
    assert s.cache.handles[k] == 0 == s.stored[k] && Holding(s.consumer, k) == 0;
  }

  lemma PrefetchFaithful(s: System, m: Key, P: nat, F: Key -> Frame)
    requires SystemInv(s, P, F) && Enabled(s, Prefetch(m), P)
    ensures Faithful(PrefetchStep(s, m), F)
  {
    LookupEffect(s.cache, m, false, false, false);
    if m !in s.cache.slots { NoStrayValues(s, F, m); }
  }

  lemma PrefetchOwned(s: System, m: Key, P: nat)
    requires Inv(s.cache) && Owned(s) && Counted(s, P) && Enabled(s, Prefetch(m), P)
    ensures Owned(PrefetchStep(s, m)) && Counted(PrefetchStep(s, m), P)
  {
    LookupEffect(s.cache, m, false, false, false);
  }

  lemma PrefetchSized(s: System, m: Key, P: nat)
    requires Inv(s.cache) && Owned(PrefetchStep(s, m)) && Counted(PrefetchStep(s, m), P) && Sized(s, P)
    requires Enabled(s, Prefetch(m), P)
    ensures Sized(PrefetchStep(s, m), P)
  {
    LookupEffect(s.cache, m, false, false, false);
    LookupSize(s.cache, m, false, false, false);
    OwnedTotal(PrefetchStep(s, m));
  }

  lemma PrefetchInv(s: System, m: Key, P: nat, F: Key -> Frame)
    requires SystemInv(s, P, F) && Enabled(s, Prefetch(m), P)
    ensures SystemInv(PrefetchStep(s, m), P, F)
  {
    PrefetchFaithful(s, m, P, F);
    PrefetchOwned(s, m, P);
    PrefetchSized(s, m, P);
    LookupInv(s.cache, m, false, false, false);
  }

  /** A single consumer never meets a rolled-back entry: only it could be the waiter such an entry has. */
  lemma ConsumerFindsCommitted(s: System, n: Key, P: nat, F: Key -> Frame)
    requires SystemInv(s, P, F) && !s.consumer.Asleep?
    ensures var r := Lookup(s.cache, n, true, false, false).1;
      && !r.FoundButNotAvail?
      && (r.FoundAndReady? ==> r.value == Some(F(n)))
  {
    LookupEffect(s.cache, n, true, false, false);
    if n in s.cache.slots {
      assert SlotInv(s.cache, n);
    }
  }

  lemma LookUpFaithful(s: System, P: nat, F: Key -> Frame)
    requires SystemInv(s, P, F) && s.consumer.Before?
    ensures Faithful(LookUpStep(s, s.consumer.n, F), F)
  {
    var n := s.consumer.n;
    ConsumerFindsCommitted(s, n, P, F);
    LookupEffect(s.cache, n, true, false, false);
    if n !in s.cache.slots { NoStrayValues(s, F, n); }
  }

  /** The consumer moves on; what it adds to or takes from the handles and the waiters is its own. */
  lemma ConsumerMoves(s: System, c: Cache, next: Consumer)
    requires Owned(s)
    requires forall k :: c.handles[k] - Holding(next, k) == s.cache.handles[k] - Holding(s.consumer, k)
    requires forall k :: c.waiters[k] - Sleeping(next, k) == s.cache.waiters[k] - Sleeping(s.consumer, k)
    ensures Owned(s.(cache := c, consumer := next))
  {
  }

  lemma ArrivedOwned(s: System, c: Cache, n: Key, result: LookupResult, F: Key -> Frame)
    requires Owned(s) && s.consumer == Before(n)
    requires c.handles == if result.NotFound? then s.cache.handles + multiset{n} else s.cache.handles
    requires c.waiters == if result.Waiting? then s.cache.waiters + multiset{n} else s.cache.waiters
    ensures Owned(s.(cache := c, consumer := Arrived(n, result, F)))
  {
    var next := Arrived(n, result, F);
    assert forall k :: Holding(next, k) == if result.NotFound? && k == n then 1 else 0;
    assert forall k :: Sleeping(next, k) == if result.Waiting? && k == n then 1 else 0;
  }

  lemma LookUpOwned(s: System, F: Key -> Frame)
    requires Inv(s.cache) && Owned(s) && s.consumer.Before?
    ensures Owned(LookUpStep(s, s.consumer.n, F))
  {
    var n := s.consumer.n;
    LookupEffect(s.cache, n, true, false, false);
    ArrivedOwned(s, Lookup(s.cache, n, true, false, false).0, n, Lookup(s.cache, n, true, false, false).1, F);
  }

  lemma LookUpCounted(s: System, P: nat, F: Key -> Frame)
    requires Counted(s, P) && s.consumer.Before?
    ensures Counted(LookUpStep(s, s.consumer.n, F), P)
  {
  }

  lemma LookUpSized(s: System, P: nat, F: Key -> Frame)
    requires Inv(s.cache) && Sized(s, P) && s.consumer.Before?
    requires Owned(LookUpStep(s, s.consumer.n, F)) && Counted(LookUpStep(s, s.consumer.n, F), P)
    ensures Sized(LookUpStep(s, s.consumer.n, F), P)
  {
    LookupEffect(s.cache, s.consumer.n, true, false, false);
    LookupSize(s.cache, s.consumer.n, true, false, false);
    OwnedTotal(LookUpStep(s, s.consumer.n, F));
  }

  lemma LookUpInv(s: System, P: nat, F: Key -> Frame)
    requires SystemInv(s, P, F) && s.consumer.Before?
    ensures SystemInv(LookUpStep(s, s.consumer.n, F), P, F)
  {
    LookUpFaithful(s, P, F);
    LookUpOwned(s, F);
    LookUpCounted(s, P, F);
    LookUpSized(s, P, F);
    LookupInv(s.cache, s.consumer.n, true, false, false);
  }

  lemma WakeFaithful(s: System, P: nat, F: Key -> Frame)
    requires Owned(s) && Inv(s.cache) && Faithful(s, F) && Enabled(s, WakeConsumer, P)
    ensures Faithful(WakeStep(s, s.consumer.n), F)
  {
    assert SlotInv(s.cache, s.consumer.n);
  }

  lemma WakeOwned(s: System, P: nat)
    requires Owned(s) && Counted(s, P) && Sized(s, P) && Enabled(s, WakeConsumer, P)
    ensures Owned(WakeStep(s, s.consumer.n)) && Counted(WakeStep(s, s.consumer.n), P) && Sized(WakeStep(s, s.consumer.n), P)
  {
  }

  lemma WakeStepInv(s: System, P: nat, F: Key -> Frame)
    requires SystemInv(s, P, F) && Enabled(s, WakeConsumer, P)
    ensures SystemInv(WakeStep(s, s.consumer.n), P, F)
  {
    assert s.cache.waiters[s.consumer.n] == 1;
    WakeInv(s.cache, s.consumer.n);
    WakeFaithful(s, P, F);
    WakeOwned(s, P);
  }

  /** The events that spend or use a handle; all but the wake-up of the consumer and the lookups. */
  ghost predicate UsesHandle(e: Event) {
    e.Produce? || e.ProduceFails? || e.CommitOwn? || e.WorkerStores? || e.WorkerCommits? || e.WorkerFails? || e.Cancel?
  }

  ghost function HandleOf(s: System, e: Event): (k: Key)
    requires UsesHandle(e)
    requires e.Produce? || e.ProduceFails? || e.CommitOwn? ==> s.consumer.Producing? || s.consumer.Produced?
  {
    if e.Produce? || e.ProduceFails? || e.CommitOwn? then s.consumer.n else e.m
  }

  lemma HandleOwned(s: System, e: Event, P: nat)
    requires Owned(s) && UsesHandle(e) && Enabled(s, e, P)
    ensures HandleOf(s, e) in s.cache.handles
  {
    var k := HandleOf(s, e);
    assert s.cache.handles[k] == s.queued[k] + s.computing[k] + s.stored[k] + Holding(s.consumer, k);
  }

  lemma HandleInv(s: System, e: Event, P: nat, F: Key -> Frame)
    requires Inv(s.cache) && Owned(s) && UsesHandle(e) && Enabled(s, e, P)
    ensures Inv(Next(s, e, P, F).cache)
  {
    HandleOwned(s, e, P);
    var k := HandleOf(s, e);
    if e.Produce? || e.WorkerStores? {
      StoreInv(s.cache, k, Some(F(k)));
    } else if e.CommitOwn? || e.WorkerCommits? {
      CommitInv(s.cache, k);
    } else {
      RollbackInv(s.cache, k);
    }
  }

  lemma StoringOwned(s: System, m: Key, c: Cache)
    requires Owned(s) && m in s.computing && c.handles == s.cache.handles && c.waiters == s.cache.waiters
    ensures Owned(s.(cache := c, computing := s.computing - multiset{m}, stored := s.stored + multiset{m}))
  {
  }

  lemma SpendingOwned(s: System, t: System, m: Key)
    requires Owned(s) && m in s.cache.handles && t.consumer == s.consumer
    requires t.cache.handles == s.cache.handles - multiset{m} && t.cache.waiters == s.cache.waiters
    requires forall k :: t.queued[k] + t.computing[k] + t.stored[k] + (if k == m then 1 else 0)
                      == s.queued[k] + s.computing[k] + s.stored[k]
    ensures Owned(t)
  {
  }

  lemma ConsumerOwned(s: System, e: Event, P: nat, F: Key -> Frame)
    requires Owned(s) && (e.Produce? || e.ProduceFails? || e.CommitOwn?) && Enabled(s, e, P)
    ensures Owned(Next(s, e, P, F))
  {
    match e
    case Produce => ConsumerMoves(s, Store(s.cache, s.consumer.n, Some(F(s.consumer.n))), Produced(s.consumer.n));
    case ProduceFails => ConsumerMoves(s, Rollback(s.cache, s.consumer.n), Idle);
    case CommitOwn => ConsumerMoves(s, Commit(s.cache, s.consumer.n), After(s.consumer.n, Some(F(s.consumer.n))));
  }

  lemma CommitOwned(s: System, m: Key)
    requires Owned(s) && m in s.cache.handles && m in s.cache.slots && m in s.stored
    ensures Owned(CommitStep(s, m))
  {
    SpendingOwned(s, CommitStep(s, m), m);
  }

  lemma FailOwned(s: System, m: Key)
    requires Owned(s) && m in s.cache.handles && m in s.cache.slots && m in s.computing
    ensures Owned(FailStep(s, m))
  {
    SpendingOwned(s, FailStep(s, m), m);
  }

  lemma CancelOwned(s: System, m: Key)
    requires Owned(s) && m in s.cache.handles && m in s.cache.slots && m in s.queued
    ensures Owned(CancelStep(s, m))
  {
    SpendingOwned(s, CancelStep(s, m), m);
  }

  lemma WorkerOwned(s: System, e: Event, P: nat, F: Key -> Frame)
    requires Owned(s) && (e.WorkerStores? || e.WorkerCommits? || e.WorkerFails? || e.Cancel?) && Enabled(s, e, P)
    ensures Owned(Next(s, e, P, F))
  {
    HandleOwned(s, e, P);
    match e
    case WorkerStores(m) => StoringOwned(s, m, Store(s.cache, m, Some(F(m))));
    case WorkerCommits(m) => CommitOwned(s, m);
    case WorkerFails(m) => FailOwned(s, m);
    case Cancel(m) => CancelOwned(s, m);
  }

  lemma HandleCounted(s: System, e: Event, P: nat, F: Key -> Frame)
    requires Counted(s, P) && UsesHandle(e) && Enabled(s, e, P)
    ensures Counted(Next(s, e, P, F), P)
  {
    if e.WorkerStores? || e.WorkerFails? {
      TakenOne(s.computing, e.m);
    } else if e.WorkerCommits? {
      TakenOne(s.stored, e.m);
    } else if e.Cancel? {
      TakenOne(s.queued, e.m);
    }
  }

  lemma HandleSized(s: System, e: Event, P: nat, F: Key -> Frame)
    requires Sized(s, P) && UsesHandle(e) && Enabled(s, e, P)
    ensures Sized(Next(s, e, P, F), P)
  {
    if e.ProduceFails? || e.WorkerFails? || e.Cancel? {
      RollbackShrinks(s.cache, HandleOf(s, e));
    }
  }

  lemma RollbackShrinks(c: Cache, k: Key)
    requires k in c.slots
    ensures |Rollback(c, k).order| <= |c.order| && Rollback(c, k).capacity == c.capacity
  {
    WithoutLength(c.order, k);
  }

  lemma ProduceFaithful(s: System, P: nat, F: Key -> Frame)
    requires Inv(s.cache) && Owned(s) && Faithful(s, F) && Enabled(s, Produce, P)
    ensures Faithful(Next(s, Produce, P, F), F)
  {
    HandleOwned(s, Produce, P);
    assert SlotInv(s.cache, s.consumer.n);
  }

  lemma ProduceFailsFaithful(s: System, P: nat, F: Key -> Frame)
    requires Inv(s.cache) && Owned(s) && Faithful(s, F) && Enabled(s, ProduceFails, P)
    ensures Faithful(Next(s, ProduceFails, P, F), F)
  {
    HandleOwned(s, ProduceFails, P);
    assert SlotInv(s.cache, s.consumer.n);
  }

  lemma CommitOwnFaithful(s: System, P: nat, F: Key -> Frame)
    requires Inv(s.cache) && Owned(s) && Faithful(s, F) && Enabled(s, CommitOwn, P)
    ensures Faithful(Next(s, CommitOwn, P, F), F)
  {
    HandleOwned(s, CommitOwn, P);
    assert SlotInv(s.cache, s.consumer.n);
  }

  lemma StoreFaithful(s: System, m: Key, F: Key -> Frame)
    requires Inv(s.cache) && Owned(s) && Faithful(s, F) && m in s.computing && m in s.cache.slots
    ensures Faithful(StoreStep(s, m, F), F)
  {
    assert SlotInv(s.cache, m);
  }

  lemma CommitFaithful(s: System, m: Key, F: Key -> Frame)
    requires Inv(s.cache) && Owned(s) && Faithful(s, F) && m in s.stored && m in s.cache.slots
    ensures Faithful(CommitStep(s, m), F)
  {
    assert SlotInv(s.cache, m);
  }

  lemma FailFaithful(s: System, m: Key, F: Key -> Frame)
    requires Inv(s.cache) && Owned(s) && Faithful(s, F) && m in s.computing && m in s.cache.slots
    ensures Faithful(FailStep(s, m), F)
  {
    assert SlotInv(s.cache, m);
  }

  lemma CancelFaithful(s: System, m: Key, F: Key -> Frame)
    requires Inv(s.cache) && Owned(s) && Faithful(s, F) && m in s.queued && m in s.cache.slots
    ensures Faithful(CancelStep(s, m), F)
  {
    assert SlotInv(s.cache, m);
  }

  lemma WorkerFaithful(s: System, e: Event, P: nat, F: Key -> Frame)
    requires Inv(s.cache) && Owned(s) && Faithful(s, F)
    requires (e.WorkerStores? || e.WorkerCommits? || e.WorkerFails? || e.Cancel?) && Enabled(s, e, P)
    ensures Faithful(Next(s, e, P, F), F)
  {
    match e
    case WorkerStores(m) => StoreFaithful(s, m, F);
    case WorkerCommits(m) => CommitFaithful(s, m, F);
    case WorkerFails(m) => FailFaithful(s, m, F);
    case Cancel(m) => CancelFaithful(s, m, F);
  }

  lemma HandleStepInv(s: System, e: Event, P: nat, F: Key -> Frame)
    requires SystemInv(s, P, F) && UsesHandle(e) && Enabled(s, e, P)
    ensures SystemInv(Next(s, e, P, F), P, F)
  {
    HandleInv(s, e, P, F);
    HandleCounted(s, e, P, F);
    HandleSized(s, e, P, F);
    if e.Produce? || e.ProduceFails? || e.CommitOwn? {
      ConsumerOwned(s, e, P, F);
      match e
      case Produce => ProduceFaithful(s, P, F);
      case ProduceFails => ProduceFailsFaithful(s, P, F);
      case CommitOwn => CommitOwnFaithful(s, P, F);
    } else {
      WorkerOwned(s, e, P, F);
      WorkerFaithful(s, e, P, F);
    }
  }

  lemma PickInv(s: System, m: Key, P: nat, F: Key -> Frame)
    requires SystemInv(s, P, F) && Enabled(s, Pick(m), P)
    ensures SystemInv(Next(s, Pick(m), P, F), P, F)
  {
    TakenOne(s.queued, m);
  }

  lemma RequestInv(s: System, n: Key, P: nat, F: Key -> Frame)
    requires SystemInv(s, P, F) && Enabled(s, Request(n), P)
    ensures SystemInv(Next(s, Request(n), P, F), P, F)
  {
  }

  lemma RequestDirectInv(s: System, n: Key, P: nat, F: Key -> Frame)
    requires SystemInv(s, P, F) && Enabled(s, RequestDirect(n), P)
    ensures SystemInv(Next(s, RequestDirect(n), P, F), P, F)
  {
    assert Truthful(s.delivered + [Delivery(n, Some(F(n)))], F);
  }

  lemma ReturnInv(s: System, P: nat, F: Key -> Frame)
    requires SystemInv(s, P, F) && Enabled(s, Return, P)
    ensures SystemInv(Next(s, Return, P, F), P, F)
  {
    assert Truthful(s.delivered + [Delivery(s.consumer.n, s.consumer.result)], F);
  }

  lemma LeaveInv(s: System, e: Event, P: nat, F: Key -> Frame)
    requires SystemInv(s, P, F) && Enabled(s, e, P) && (e.WorkerReports? || e.WorkerLeaves? || e.Close?)
    ensures SystemInv(Next(s, e, P, F), P, F)
  {
  }

  lemma NextInv(s: System, e: Event, P: nat, F: Key -> Frame)
    requires SystemInv(s, P, F) && Enabled(s, e, P)
    ensures SystemInv(Next(s, e, P, F), P, F)
  {
    if UsesHandle(e) {
      HandleStepInv(s, e, P, F);
    } else if e.Prefetch? {
      PrefetchInv(s, e.m, P, F);
    } else if e.LookUp? {
      LookUpInv(s, P, F);
    } else if e.WakeConsumer? {
      WakeStepInv(s, P, F);
    } else if e.Pick? {
      PickInv(s, e.m, P, F);
    } else if e.Request? {
      RequestInv(s, e.n, P, F);
    } else if e.RequestDirect? {
      RequestDirectInv(s, e.n, P, F);
    } else if e.Return? {
      ReturnInv(s, P, F);
    } else {
      LeaveInv(s, e, P, F);
    }
  }

  // ----- Whole runs -----

  ghost predicate IsRun(s: System, run: seq<Event>, P: nat, F: Key -> Frame)
    decreases run
  {
    run != [] ==> Enabled(s, run[0], P) && IsRun(Next(s, run[0], P, F), run[1..], P, F)
  }

  ghost function Reached(s: System, run: seq<Event>, P: nat, F: Key -> Frame): (r: System)
    requires IsRun(s, run, P, F)
    decreases run
  {
    if run == [] then s else Reached(Next(s, run[0], P, F), run[1..], P, F)
  }

  lemma {:induction false} RunKeepsInv(s: System, run: seq<Event>, P: nat, F: Key -> Frame)
    requires SystemInv(s, P, F) && IsRun(s, run, P, F)
    ensures SystemInv(Reached(s, run, P, F), P, F)
    decreases run
  {
    if run != [] {
      NextInv(s, run[0], P, F);
      RunKeepsInv(Next(s, run[0], P, F), run[1..], P, F);
    }
  }

  /** Prefetching is invisible: however requests, workers, failures and roll-backs interleave, every frame the
      consumer is given is the child's own. The arm marked assert(0) is never taken, at most P jobs are in
      flight, and the cache holds at most 3P + 1 frames. */
  lemma PrefetchTransparent(P: nat, F: Key -> Frame, run: seq<Event>)
    requires P >= 1 && 2 * P <= SIZE_MAX && IsRun(Start(P), run, P, F)
    ensures var s := Reached(Start(P), run, P, F);
      && Truthful(s.delivered, F)
      && s.consumer != Stuck
      && 0 <= s.runningWorkers <= P
      && |s.cache.order| <= 3 * P + 1
  {
    StartInv(P, F);
    RunKeepsInv(Start(P), run, P, F);
  }

  /** Once the prefetcher is being destroyed and nothing is left to do, no reservation is outstanding. */
  lemma DestructionSpendsAllHandles(P: nat, F: Key -> Frame, run: seq<Event>)
    requires P >= 1 && 2 * P <= SIZE_MAX && IsRun(Start(P), run, P, F)
    requires var s := Reached(Start(P), run, P, F);
      s.closing && forall e :: Enabled(s, e, P) ==> !IsCleanup(e)
    ensures var c := Reached(Start(P), run, P, F).cache; c.handles == multiset{} && c.waiters == multiset{}
  {
    StartInv(P, F);
    RunKeepsInv(Start(P), run, P, F);
    Drained(Reached(Start(P), run, P, F), P);
  }

  /** The steps of workers and of the destructor. */
  ghost predicate IsCleanup(e: Event) {
    e.WorkerStores? || e.WorkerCommits? || e.WorkerLeaves? || e.WorkerReports? || e.Cancel?
  }

  /** Anything in a queue or at a worker of a closing prefetcher lets some clean-up step be taken. */
  lemma CleanupMoves(s: System, P: nat)
    requires Inv(s.cache) && Owned(s) && s.closing && (Busy(s) || s.queued != multiset{})
    ensures exists e :: Enabled(s, e, P) && IsCleanup(e)
  {
    SomeInMultiset(s.computing);
    SomeInMultiset(s.stored);
    SomeInMultiset(s.queued);
    if s.computing != multiset{} {
      var m :| m in s.computing;
      JobHolds(s, m);
      assert Enabled(s, WorkerStores(m), P);
    } else if s.stored != multiset{} {
      var m :| m in s.stored;
      JobHolds(s, m);
      assert Enabled(s, WorkerCommits(m), P);
    } else if s.leaving > 0 {
      assert Enabled(s, WorkerLeaves, P);
    } else if s.failing > 0 {
      assert Enabled(s, WorkerReports, P);
    } else {
      var m :| m in s.queued;
      JobHolds(s, m);
      assert Enabled(s, Cancel(m), P);
    }
  }

  lemma JobHolds(s: System, m: Key)
    requires Inv(s.cache) && Owned(s) && (m in s.computing || m in s.stored || m in s.queued)
    ensures m in s.cache.slots
  {
    assert s.cache.handles[m] == s.queued[m] + s.computing[m] + s.stored[m] + Holding(s.consumer, m);
  }

  lemma NothingOutstanding(s: System, P: nat)
    requires Owned(s) && Counted(s, P) && s.closing && !Busy(s) && s.queued == multiset{}
    ensures s.cache.handles == multiset{} && s.cache.waiters == multiset{}
  {
    assert forall k :: s.cache.handles[k] == 0;
    assert forall k :: s.cache.waiters[k] == 0;
  }

  lemma Drained(s: System, P: nat)
    requires Inv(s.cache) && Owned(s) && Counted(s, P) && s.closing
    requires forall e :: Enabled(s, e, P) ==> !IsCleanup(e)
    ensures s.cache.handles == multiset{} && s.cache.waiters == multiset{}
  {
    if Busy(s) || s.queued != multiset{} {
      CleanupMoves(s, P);
    } else {
      NothingOutstanding(s, P);
    }
  }
}
