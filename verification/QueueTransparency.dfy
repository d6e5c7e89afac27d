/** What the upstream prefetcher of a device filter hands to its callers, in every run of QueuePrefetcher's system. */
module QueueTransparency {
  import opened Options
  import opened SimpleLru
  import opened QueuePrefetcher
  import C = CacheProtocol

  // ----- What every state satisfies -----

  ghost predicate HasProducer(threads: map<Thread, Phase>, k: Key) {
    exists t :: t in threads && threads[t] == Produced(k)
  }

  /** Somebody has written the frame of k and not yet committed it. */
  ghost predicate Written(s: System, k: Key) {
    k in s.stored || HasProducer(s.threads, k)
  }

  /** An entry holds the child's frame once it has been written, and no frame before. */
  ghost predicate SlotTrue(s: System, F: Key -> C.Frame, k: Key)
    requires k in s.cache.slots
  {
    s.cache.slots[k].value == if s.cache.slots[k].state == C.Available || Written(s, k) then Some(F(k)) else None
  }

  ghost predicate SlotsTrue(s: System, F: Key -> C.Frame) {
    forall k :: k in s.cache.slots ==> SlotTrue(s, F, k)
  }

  /** The child's frame, or a null one if the lookup met a rolled-back entry. */
  predicate AnswerTrue(a: Delivery, F: Key -> C.Frame) {
    a.frame == if a.stale then None else Some(F(a.n))
  }

  predicate PhaseTrue(p: Phase, F: Key -> C.Frame) {
    p.Scheduling? || p.Carrying? ==> AnswerTrue(p.answer, F)
  }

  ghost predicate AnswersTrue(s: System, F: Key -> C.Frame) {
    && (forall t :: t in s.threads ==> PhaseTrue(s.threads[t], F))
    && (forall i :: 0 <= i < |s.delivered| ==> AnswerTrue(s.delivered[i], F))
  }

  ghost predicate Truthful(s: System, F: Key -> C.Frame) {
    SlotsTrue(s, F) && AnswersTrue(s, F)
  }

  // ----- Who may have written -----

  lemma ProducerHolds(s: System, k: Key)
    requires Owned(s) && HasProducer(s.threads, k)
    ensures |Holders(s.threads, k)| >= 1
  {
    var t :| t in s.threads && s.threads[t] == Produced(k);
    assert t in Holders(s.threads, k);
  }

  lemma WrittenIsHeld(s: System, k: Key)
    requires C.Inv(s.cache) && Owned(s) && Written(s, k)
    ensures k in s.cache.handles && k in s.cache.slots
  {
    if HasProducer(s.threads, k) { ProducerHolds(s, k); }
    assert s.cache.handles[k] == Outstanding(s, k) + |Holders(s.threads, k)|;
  }

  lemma OneHandle(s: System, k: Key)
    requires C.Inv(s.cache)
    ensures s.cache.handles[k] <= 1
  {
    if k in s.cache.slots { assert C.SlotInv(s.cache, k); }
  }

  lemma TwoMembers(a: set<Thread>, t: Thread, u: Thread)
    requires t in a && u in a && t != u
    ensures |a| >= 2
  {
    assert {t, u} <= a && |{t, u}| == 2;
    assert a == {t, u} + (a - {t, u});
  }

  /** While a thread holds the handle for k and has produced nothing, nothing has been written. */
  lemma HolderHasNotWritten(s: System, t: Thread, k: Key)
    requires C.Inv(s.cache) && Owned(s) && t in s.threads && Held(Some(s.threads[t]), k) == 1 && s.threads[t] != Produced(k)
    ensures !Written(s, k)
  {
    OneHandle(s, k);
    assert t in Holders(s.threads, k) && |Holders(s.threads, k)| >= 1;
    if u :| u in s.threads && s.threads[u] == Produced(k) {
      TwoMembers(Holders(s.threads, k), t, u);
    }
  }

  /** While the handle for k is queued or its worker has produced nothing, nothing has been written. */
  lemma JobHasNotWritten(s: System, k: Key)
    requires C.Inv(s.cache) && Owned(s) && Outstanding(s, k) > s.stored[k]
    ensures !Written(s, k)
  {
    OneHandle(s, k);
    if HasProducer(s.threads, k) { ProducerHolds(s, k); }
  }

  lemma PlacedProducers(threads: map<Thread, Phase>, t: Thread, p: Option<Phase>, k: Key)
    requires p != Some(Produced(k)) && PhaseOf(threads, t) != Some(Produced(k))
    ensures HasProducer(Placed(threads, t, p), k) <==> HasProducer(threads, k)
  {
    var r := Placed(threads, t, p);
    if u :| u in threads && threads[u] == Produced(k) {
      assert u in r && r[u] == Produced(k);
    }
    if u :| u in r && r[u] == Produced(k) {
      assert u in threads && threads[u] == Produced(k);
    }
  }

  /** One entry has changed, and it is as it should be; so are all. */
  lemma OneSlotChanged(s: System, r: System, F: Key -> C.Frame, key: Key)
    requires SlotsTrue(s, F)
    requires forall k :: k in r.cache.slots && k != key ==>
      && k in s.cache.slots && (Written(r, k) <==> Written(s, k))
      && r.cache.slots[k].value == s.cache.slots[k].value && r.cache.slots[k].state == s.cache.slots[k].state
    requires key in r.cache.slots ==> SlotTrue(r, F, key)
    ensures SlotsTrue(r, F)
  {
    forall k | k in r.cache.slots ensures SlotTrue(r, F, k) {
      if k != key { assert SlotTrue(s, F, k); }
    }
  }

  lemma PlacedAnswers(s: System, r: System, F: Key -> C.Frame, t: Thread, p: Option<Phase>)
    requires AnswersTrue(s, F) && r.threads == Placed(s.threads, t, p) && r.delivered == s.delivered
    requires p.Some? ==> PhaseTrue(p.value, F)
    ensures AnswersTrue(r, F)
  {
  }

  // ----- Threads -----

  lemma ThreadWritten(s: System, r: System, t: Thread, p: Option<Phase>, key: Key)
    requires r.threads == Placed(s.threads, t, p) && r.stored == s.stored
    requires forall k :: k != key ==> p != Some(Produced(k)) && PhaseOf(s.threads, t) != Some(Produced(k))
    ensures forall k :: k != key ==> (Written(r, k) <==> Written(s, k))
    ensures p != Some(Produced(key)) && PhaseOf(s.threads, t) != Some(Produced(key)) ==> (Written(r, key) <==> Written(s, key))
  {
    forall k | k != key ensures Written(r, k) <==> Written(s, k) {
      PlacedProducers(s.threads, t, p, k);
    }
    if p != Some(Produced(key)) && PhaseOf(s.threads, t) != Some(Produced(key)) {
      PlacedProducers(s.threads, t, p, key);
    }
  }

  /** What a blocking lookup answers at once is the child's frame, unless it met a rolled-back entry. */
  lemma FoundIsTrue(s: System, n: Key, F: Key -> C.Frame)
    requires C.Inv(s.cache) && Owned(s) && SlotsTrue(s, F)
    ensures var result := C.Lookup(s.cache, n, true, false, false).1;
      && !result.FoundButNotAvail?
      && (result.FoundAndReady? ==> result.value == if MeetsRolledBack(s.cache, n) then None else Some(F(n)))
      && (result.NoCache? ==> !MeetsRolledBack(s.cache, n))
  {
    if n in s.cache.slots {
      assert C.SlotInv(s.cache, n) && SlotTrue(s, F, n);
      if Written(s, n) { WrittenIsHeld(s, n); }
    }
  }

  lemma LookedUpSlot(s: System, n: Key, block: bool, r: System, F: Key -> C.Frame)
    requires C.Inv(s.cache) && Owned(s) && SlotsTrue(s, F)
    requires r.cache == C.Lookup(s.cache, n, block, false, false).0
    requires Written(r, n) <==> Written(s, n)
    ensures n in r.cache.slots ==> SlotTrue(r, F, n)
  {
    C.LookupSlots(s.cache, n, block, false, false);
    if n in s.cache.slots {
      assert SlotTrue(s, F, n);
    } else if Written(s, n) {
      WrittenIsHeld(s, n);
    }
  }

  /** A thread looks up n and moves on to p. */
  lemma LookupTrue(s: System, t: Thread, n: Key, block: bool, r: System, p: Option<Phase>, F: Key -> C.Frame)
    requires C.Inv(s.cache) && Owned(s) && Truthful(s, F)
    requires r.cache == C.Lookup(s.cache, n, block, false, false).0
    requires r.threads == Placed(s.threads, t, p) && r.stored == s.stored && r.delivered == s.delivered
    requires p.Some? ==> PhaseTrue(p.value, F) && !p.value.Produced?
    requires PhaseOf(s.threads, t).Some? ==> !PhaseOf(s.threads, t).value.Produced?
    ensures Truthful(r, F)
  {
    ThreadWritten(s, r, t, p, n);
    C.LookupSlots(s.cache, n, block, false, false);
    LookedUpSlot(s, n, block, r, F);
    OneSlotChanged(s, r, F, n);
    PlacedAnswers(s, r, F, t, p);
  }

  lemma RequestTrue(s: System, t: Thread, n: Key, F: Key -> C.Frame)
    requires C.Inv(s.cache) && Owned(s) && Truthful(s, F) && t !in s.threads
    ensures Truthful(RequestStep(s, t, n, F), F)
  {
    FoundIsTrue(s, n, F);
    var result := C.Lookup(s.cache, n, true, false, false).1;
    LookupTrue(s, t, n, true, RequestStep(s, t, n, F), Arrived(n, result, MeetsRolledBack(s.cache, n), F), F);
  }

  lemma LookAheadTrue(s: System, t: Thread, m: Key, answer: Delivery, numQueued: nat, F: Key -> C.Frame)
    requires C.Inv(s.cache) && Owned(s) && Truthful(s, F) && PhaseOf(s.threads, t) == Some(Scheduling(answer, numQueued))
    ensures Truthful(LookAheadStep(s, t, m, answer, numQueued), F)
  {
    assert PhaseTrue(s.threads[t], F);
    var reserved := C.Lookup(s.cache, m, false, false, false).1.NotFound?;
    LookupTrue(s, t, m, false, LookAheadStep(s, t, m, answer, numQueued), Some(Ahead(m, answer, numQueued, reserved)), F);
  }

  lemma WakeTrue(s: System, t: Thread, n: Key, F: Key -> C.Frame)
    requires C.Inv(s.cache) && Owned(s) && Truthful(s, F) && PhaseOf(s.threads, t) == Some(Asleep(n)) && n in s.cache.slots
    ensures Truthful(WakeStep(s, t, n, F), F)
  {
    var r, p := WakeStep(s, t, n, F), Arrived(n, C.Wake(s.cache, n).1, false, F);
    assert C.SlotInv(s.cache, n) && SlotTrue(s, F, n);
    ThreadWritten(s, r, t, p, n);
    if Written(s, n) { WrittenIsHeld(s, n); }
    OneSlotChanged(s, r, F, n);
    PlacedAnswers(s, r, F, t, p);
  }

  /** A thread gives up the handle for a frame it has not produced. */
  lemma AbandonTrue(s: System, t: Thread, n: Key, F: Key -> C.Frame)
    requires C.Inv(s.cache) && Owned(s) && Truthful(s, F) && n in s.cache.slots
    requires PhaseOf(s.threads, t) == Some(Reserved(n)) || PhaseOf(s.threads, t) == Some(Producing(n))
    ensures Truthful(AbandonStep(s, t, n), F)
  {
    var r := AbandonStep(s, t, n);
    HolderHasNotWritten(s, t, n);
    HolderHolds(s, t, n);
    assert C.SlotInv(s.cache, n) && SlotTrue(s, F, n);
    ThreadWritten(s, r, t, None, n);
    OneSlotChanged(s, r, F, n);
    PlacedAnswers(s, r, F, t, None);
  }

  lemma OwnStoreTrue(s: System, t: Thread, n: Key, F: Key -> C.Frame)
    requires Truthful(s, F) && n in s.cache.slots && PhaseOf(s.threads, t) == Some(Producing(n))
    ensures Truthful(Put(s.(cache := C.Store(s.cache, n, Some(F(n)))), t, Some(Produced(n))), F)
  {
    var r := Put(s.(cache := C.Store(s.cache, n, Some(F(n)))), t, Some(Produced(n)));
    ThreadWritten(s, r, t, Some(Produced(n)), n);
    assert t in r.threads && r.threads[t] == Produced(n);
    OneSlotChanged(s, r, F, n);
    PlacedAnswers(s, r, F, t, Some(Produced(n)));
  }

  lemma OwnCommitTrue(s: System, t: Thread, n: Key, F: Key -> C.Frame)
    requires Truthful(s, F) && n in s.cache.slots && PhaseOf(s.threads, t) == Some(Produced(n))
    ensures Truthful(CommitOwnStep(s, t, n), F)
  {
    var r := CommitOwnStep(s, t, n);
    var p := Some(Scheduling(Delivery(n, s.cache.slots[n].value, false), 0));
    assert Written(s, n) && SlotTrue(s, F, n);
    ThreadWritten(s, r, t, p, n);
    OneSlotChanged(s, r, F, n);
    PlacedAnswers(s, r, F, t, p);
  }

  /** A thread moves on without touching the cache, and may return its answer. */
  lemma MovesTrue(s: System, r: System, t: Thread, p: Option<Phase>, F: Key -> C.Frame)
    requires Truthful(s, F) && t in s.threads && !s.threads[t].Produced?
    requires r.cache == s.cache && r.threads == Placed(s.threads, t, p) && r.stored == s.stored
    requires p.Some? ==> PhaseTrue(p.value, F) && !p.value.Produced?
    requires r.delivered == s.delivered
          || (s.threads[t].Scheduling? && r.delivered == s.delivered + [s.threads[t].answer])
    ensures Truthful(r, F)
  {
    assert PhaseTrue(s.threads[t], F);
    forall k ensures Written(r, k) <==> Written(s, k) {
      PlacedProducers(s.threads, t, p, k);
    }
    forall k | k in r.cache.slots ensures SlotTrue(r, F, k) { assert SlotTrue(s, F, k); }
  }

  lemma ThreadTrue(s: System, e: Event, numThreads: nat, F: Key -> C.Frame)
    requires C.Inv(s.cache) && Owned(s) && Truthful(s, F) && Enabled(s, e) && OfThread(e)
    ensures Truthful(Next(s, e, numThreads, F), F)
  {
    var r := Next(s, e, numThreads, F);
    if !e.Request? { assert PhaseTrue(s.threads[e.t], F); }
    match e
    case Request(t, n) => RequestTrue(s, t, n, F);
    case Wake(t) => WakeTrue(s, t, s.threads[t].n, F);
    case Check(t) =>
      if s.exceptionPresent {
        AbandonTrue(s, t, s.threads[t].n, F);
      } else {
        MovesTrue(s, r, t, Some(Producing(s.threads[t].n)), F);
      }
    case Produce(t) => OwnStoreTrue(s, t, s.threads[t].n, F);
    case ProduceFails(t) => AbandonTrue(s, t, s.threads[t].n, F);
    case CommitOwn(t) => OwnCommitTrue(s, t, s.threads[t].n, F);
    case LookAhead(t, m) => LookAheadTrue(s, t, m, s.threads[t].answer, s.threads[t].numQueued, F);
    case Enqueue(t) => MovesTrue(s, r, t, Some(Scheduling(s.threads[t].answer, s.threads[t].numQueued + 1)), F);
    case WakeWorkers(t) => MovesTrue(s, r, t, None, F);
  }

  // ----- Workers -----

  lemma StoreTrue(s: System, m: Key, F: Key -> C.Frame)
    requires Truthful(s, F) && m in s.computing && m in s.cache.slots
    ensures Truthful(WorkerStoresStep(s, m, F), F)
  {
    OneSlotChanged(s, WorkerStoresStep(s, m, F), F, m);
  }

  lemma CommitTrue(s: System, m: Key, F: Key -> C.Frame)
    requires Truthful(s, F) && m in s.stored && m in s.cache.slots
    ensures Truthful(WorkerCommitsStep(s, m), F)
  {
    assert SlotTrue(s, F, m);
    OneSlotChanged(s, WorkerCommitsStep(s, m), F, m);
  }

  /** A queued handle, or one whose worker has failed, is rolled back. */
  lemma RollbackTrue(s: System, m: Key, r: System, F: Key -> C.Frame)
    requires C.Inv(s.cache) && Owned(s) && Truthful(s, F) && m in s.cache.slots && Outstanding(s, m) > s.stored[m]
    requires r.cache == C.Rollback(s.cache, m) && r.threads == s.threads && r.stored == s.stored && r.delivered == s.delivered
    ensures Truthful(r, F)
  {
    JobHasNotWritten(s, m);
    assert m in s.cache.handles;
    assert C.SlotInv(s.cache, m) && SlotTrue(s, F, m);
    OneSlotChanged(s, r, F, m);
  }

  lemma UntouchedTrue(s: System, r: System, F: Key -> C.Frame)
    requires Truthful(s, F) && r.cache == s.cache && r.threads == s.threads && r.stored == s.stored
    requires r.delivered == s.delivered || exists n :: r.delivered == s.delivered + [Delivery(n, Some(F(n)), false)]
    ensures Truthful(r, F)
  {
    forall k | k in r.cache.slots ensures SlotTrue(r, F, k) { assert SlotTrue(s, F, k); }
  }

  lemma WorkerTrue(s: System, e: Event, numThreads: nat, F: Key -> C.Frame)
    requires C.Inv(s.cache) && Owned(s) && Truthful(s, F) && Enabled(s, e) && !OfThread(e)
    ensures Truthful(Next(s, e, numThreads, F), F)
  {
    var r := Next(s, e, numThreads, F);
    match e
    case WorkerStores(m) => StoreTrue(s, m, F);
    case WorkerCommits(m) => CommitTrue(s, m, F);
    case WorkerRollsBack(m) => RollbackTrue(s, m, r, F);
    case Drain => RollbackTrue(s, s.queue[0], r, F);
    case RequestDirect(n) => UntouchedTrue(s, r, F);
    case _ => UntouchedTrue(s, r, F);
  }

  // ----- Whole runs -----

  lemma NextTrue(s: System, e: Event, numThreads: nat, F: Key -> C.Frame)
    requires C.Inv(s.cache) && Owned(s) && Truthful(s, F) && Enabled(s, e)
    ensures Truthful(Next(s, e, numThreads, F), F)
  {
    if OfThread(e) {
      ThreadTrue(s, e, numThreads, F);
    } else {
      WorkerTrue(s, e, numThreads, F);
    }
  }

  lemma {:induction false} RunKeepsTruthful(s: System, run: seq<Event>, numThreads: nat, F: Key -> C.Frame)
    requires SystemInv(s, numThreads) && Truthful(s, F) && IsRun(s, run, numThreads, F) && numThreads >= 1
    ensures Truthful(Reached(s, run, numThreads, F), F)
    decreases run
  {
    if run != [] {
      NextInv(s, run[0], numThreads, F);
      NextTrue(s, run[0], numThreads, F);
      RunKeepsTruthful(Next(s, run[0], numThreads, F), run[1..], numThreads, F);
    }
  }

  /** In every run of any number of threads and workers, a call is given the child's frame exactly when its lookup met
      no rolled-back entry; one that did is given a null frame. */
  lemma TransparentExactly(prefetchFrames: nat, numThreads: nat, F: Key -> C.Frame, run: seq<Event>)
    requires 1 <= prefetchFrames <= SIZE_MAX && numThreads >= 1
    requires IsRun(Init(prefetchFrames), run, numThreads, F)
    ensures var d := Reached(Init(prefetchFrames), run, numThreads, F).delivered;
      forall i :: 0 <= i < |d| ==> (d[i].frame == Some(F(d[i].n)) <==> !d[i].stale) && (d[i].stale ==> d[i].frame == None)
  {
    StartInv(prefetchFrames, numThreads);
    RunKeepsTruthful(Init(prefetchFrames), run, numThreads, F);
    var d := Reached(Init(prefetchFrames), run, numThreads, F).delivered;
    forall i | 0 <= i < |d| ensures AnswerTrue(d[i], F) {}
  }

  // ----- One consumer -----

  /** Every blocking lookup is made while nobody else is in `GetFrame`. */
  ghost predicate OneConsumer(s: System, run: seq<Event>, numThreads: nat, F: Key -> C.Frame)
    requires IsRun(s, run, numThreads, F)
    decreases run
  {
    run != [] ==>
      && (run[0].Request? ==> s.threads == map[])
      && OneConsumer(Next(s, run[0], numThreads, F), run[1..], numThreads, F)
  }

  predicate PhaseFresh(p: Phase) {
    p.Scheduling? || p.Carrying? ==> !p.answer.stale
  }

  ghost predicate NoneStale(s: System) {
    && (forall t :: t in s.threads ==> PhaseFresh(s.threads[t]))
    && (forall i :: 0 <= i < |s.delivered| ==> !s.delivered[i].stale)
  }

  /** A rolled-back entry has a waiter, and a waiter is in `GetFrame`. */
  lemma AloneMeetsNone(s: System, n: Key)
    requires C.Inv(s.cache) && Owned(s) && s.threads == map[]
    ensures !MeetsRolledBack(s.cache, n)
  {
    assert Sleepers(s.threads, n) == {};
    if n in s.cache.slots { assert C.SlotInv(s.cache, n); }
  }

  lemma NextNoneStale(s: System, e: Event, numThreads: nat, F: Key -> C.Frame)
    requires C.Inv(s.cache) && Owned(s) && NoneStale(s) && Enabled(s, e) && (e.Request? ==> s.threads == map[])
    ensures NoneStale(Next(s, e, numThreads, F))
  {
    if e.Request? {
      RequestFresh(s, e.t, e.n, F);
    } else if e.Wake? {
      WakeFresh(s, e.t, s.threads[e.t].n, F);
    } else if e.LookAhead? {
      LookAheadFresh(s, e.t, e.m, s.threads[e.t].answer, s.threads[e.t].numQueued);
    } else if OfThread(e) {
      MoveFresh(s, e, numThreads, F);
    }
  }

  lemma MoveFresh(s: System, e: Event, numThreads: nat, F: Key -> C.Frame)
    requires NoneStale(s) && Enabled(s, e) && OfThread(e) && !e.Request? && !e.Wake? && !e.LookAhead?
    ensures NoneStale(Next(s, e, numThreads, F))
  {
    var r, t := Next(s, e, numThreads, F), e.t;
    assert PhaseFresh(s.threads[t]);
    match e
    case Check(_) => PlacedFresh(s, r, t, if s.exceptionPresent then None else Some(Producing(s.threads[t].n)));
    case Produce(_) => PlacedFresh(s, r, t, Some(Produced(s.threads[t].n)));
    case ProduceFails(_) => PlacedFresh(s, r, t, None);
    case CommitOwn(_) =>
      PlacedFresh(s, r, t, Some(Scheduling(Delivery(s.threads[t].n, s.cache.slots[s.threads[t].n].value, false), 0)));
    case Enqueue(_) => PlacedFresh(s, r, t, Some(Scheduling(s.threads[t].answer, s.threads[t].numQueued + 1)));
    case WakeWorkers(_) => PlacedFresh(s, r, t, None);
  }

  lemma RequestFresh(s: System, t: Thread, n: Key, F: Key -> C.Frame)
    requires C.Inv(s.cache) && Owned(s) && NoneStale(s) && s.threads == map[]
    ensures NoneStale(RequestStep(s, t, n, F))
  {
    AloneMeetsNone(s, n);
    PlacedFresh(s, RequestStep(s, t, n, F), t, Arrived(n, C.Lookup(s.cache, n, true, false, false).1, false, F));
  }

  lemma WakeFresh(s: System, t: Thread, n: Key, F: Key -> C.Frame)
    requires NoneStale(s) && n in s.cache.slots
    ensures NoneStale(WakeStep(s, t, n, F))
  {
    PlacedFresh(s, WakeStep(s, t, n, F), t, Arrived(n, C.Wake(s.cache, n).1, false, F));
  }

  lemma LookAheadFresh(s: System, t: Thread, m: Key, answer: Delivery, numQueued: nat)
    requires NoneStale(s) && PhaseOf(s.threads, t) == Some(Scheduling(answer, numQueued))
    ensures NoneStale(LookAheadStep(s, t, m, answer, numQueued))
  {
    assert PhaseFresh(s.threads[t]);
    var reserved := C.Lookup(s.cache, m, false, false, false).1.NotFound?;
    PlacedFresh(s, LookAheadStep(s, t, m, answer, numQueued), t, Some(Ahead(m, answer, numQueued, reserved)));
  }

  lemma PlacedFresh(s: System, r: System, t: Thread, p: Option<Phase>)
    requires NoneStale(s) && r.threads == Placed(s.threads, t, p) && (p.Some? ==> PhaseFresh(p.value))
    requires r.delivered == s.delivered || exists a: Delivery :: !a.stale && r.delivered == s.delivered + [a]
    ensures NoneStale(r)
  {
  }

  lemma {:induction false} RunNoneStale(s: System, run: seq<Event>, numThreads: nat, F: Key -> C.Frame)
    requires SystemInv(s, numThreads) && NoneStale(s) && IsRun(s, run, numThreads, F) && numThreads >= 1
    requires OneConsumer(s, run, numThreads, F)
    ensures NoneStale(Reached(s, run, numThreads, F))
    decreases run
  {
    if run != [] {
      NextInv(s, run[0], numThreads, F);
      NextNoneStale(s, run[0], numThreads, F);
      RunNoneStale(Next(s, run[0], numThreads, F), run[1..], numThreads, F);
    }
  }

  /** With one consumer, prefetching is invisible: every frame returned is the child's. */
  lemma OneConsumerTransparent(prefetchFrames: nat, numThreads: nat, F: Key -> C.Frame, run: seq<Event>)
    requires 1 <= prefetchFrames <= SIZE_MAX && numThreads >= 1
    requires IsRun(Init(prefetchFrames), run, numThreads, F) && OneConsumer(Init(prefetchFrames), run, numThreads, F)
    ensures var d := Reached(Init(prefetchFrames), run, numThreads, F).delivered;
      forall i :: 0 <= i < |d| ==> d[i].frame == Some(F(d[i].n))
  {
    StartInv(prefetchFrames, numThreads);
    RunNoneStale(Init(prefetchFrames), run, numThreads, F);
    TransparentExactly(prefetchFrames, numThreads, F, run);
  }

  // ----- Several consumers -----

  const THIRD_ASKS: seq<Event> := [Request(3, 7), WakeWorkers(3)]

  lemma ThirdReturnsNull(s: System, F: Key -> C.Frame)
    requires s.cache.slots == map[7 := C.Slot(None, 1, C.RolledBack)] && s.threads == map[2 := Asleep(7)]
    requires !s.closing && s.delivered == []
    ensures IsRun(s, THIRD_ASKS, 1, F) && Reached(s, THIRD_ASKS, 1, F).delivered == [Delivery(7, None, true)]
  {
    var r := RequestStep(s, 3, 7, F);
    assert r.threads == map[2 := Asleep(7), 3 := Scheduling(Delivery(7, None, true), 0)];
    RunBack(r, WakeWorkers(3), [], 1, F);
    RunBack(s, Request(3, 7), [WakeWorkers(3)], 1, F);
  }

  lemma FirstFails(s: System, F: Key -> C.Frame)
    requires s.cache.slots == map[7 := C.Slot(None, 2, C.Empty)] && s.threads == map[1 := Producing(7), 2 := Asleep(7)]
    requires !s.closing && s.delivered == []
    ensures var run := [ProduceFails(1)] + THIRD_ASKS;
      IsRun(s, run, 1, F) && Reached(s, run, 1, F).delivered == [Delivery(7, None, true)]
  {
    var r := AbandonStep(s, 1, 7);
    assert r.cache.slots == map[7 := C.Slot(None, 1, C.RolledBack)] && r.threads == map[2 := Asleep(7)];
    ThirdReturnsNull(r, F);
    RunBack(s, ProduceFails(1), THIRD_ASKS, 1, F);
  }

  lemma SecondWaits(s: System, F: Key -> C.Frame)
    requires s.cache.slots == map[7 := C.Slot(None, 1, C.Empty)] && s.threads == map[1 := Producing(7)]
    requires !s.closing && s.delivered == []
    ensures var run := [Request(2, 7)] + ([ProduceFails(1)] + THIRD_ASKS);
      IsRun(s, run, 1, F) && Reached(s, run, 1, F).delivered == [Delivery(7, None, true)]
  {
    var r := RequestStep(s, 2, 7, F);
    assert r.cache.slots == map[7 := C.Slot(None, 2, C.Empty)] && r.threads == map[1 := Producing(7), 2 := Asleep(7)];
    FirstFails(r, F);
    RunBack(s, Request(2, 7), [ProduceFails(1)] + THIRD_ASKS, 1, F);
  }

  lemma FirstProduces(s: System, F: Key -> C.Frame)
    requires s.cache.slots == map[7 := C.Slot(None, 1, C.Empty)] && s.threads == map[1 := Reserved(7)]
    requires !s.closing && !s.exceptionPresent && s.delivered == []
    ensures var run := [Check(1)] + ([Request(2, 7)] + ([ProduceFails(1)] + THIRD_ASKS));
      IsRun(s, run, 1, F) && Reached(s, run, 1, F).delivered == [Delivery(7, None, true)]
  {
    var r := Put(s, 1, Some(Producing(7)));
    assert r.threads == map[1 := Producing(7)];
    SecondWaits(r, F);
    RunBack(s, Check(1), [Request(2, 7)] + ([ProduceFails(1)] + THIRD_ASKS), 1, F);
  }

  /** Three threads ask for frame 7: the first reserves it and fails, the second waits for it, the third arrives before
      the second has woken and returns a null frame. */
  lemma NullFrameReturned(F: Key -> C.Frame)
    ensures var run := [Request(1, 7), Check(1), Request(2, 7), ProduceFails(1), Request(3, 7), WakeWorkers(3)];
      && IsRun(Init(2), run, 1, F)
      && Reached(Init(2), run, 1, F).delivered == [Delivery(7, None, true)]
  {
    var r := RequestStep(Init(2), 1, 7, F);
    assert r.cache.slots == map[7 := C.Slot(None, 1, C.Empty)] && r.threads == map[1 := Reserved(7)];
    var rest := [Check(1)] + ([Request(2, 7)] + ([ProduceFails(1)] + THIRD_ASKS));
    FirstProduces(r, F);
    RunBack(Init(2), Request(1, 7), rest, 1, F);
    assert [Request(1, 7)] + rest == [Request(1, 7), Check(1), Request(2, 7), ProduceFails(1), Request(3, 7), WakeWorkers(3)];
  }

  lemma RunBack(s: System, e: Event, rest: seq<Event>, numThreads: nat, F: Key -> C.Frame)
    requires Enabled(s, e) && IsRun(Next(s, e, numThreads, F), rest, numThreads, F)
    ensures IsRun(s, [e] + rest, numThreads, F)
    ensures Reached(s, [e] + rest, numThreads, F) == Reached(Next(s, e, numThreads, F), rest, numThreads, F)
  {
    assert ([e] + rest)[1..] == rest;
  }
}
