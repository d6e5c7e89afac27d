/** One caller's requests to the self-tuning cache of avs_core/core/LruCache.h, each value produced and committed at once. */
module SelfTuning {
  import opened Options
  import opened SimpleLru
  import opened CacheProtocol
  import opened GhostLog
  import L = LruCache

  /** The keys cached, the most recently used first; the capacity; how often each key was evicted or refused. */
  datatype Tuned = Tuned(order: seq<Key>, capacity: nat, losses: Key -> nat)

  /** A miss on a key that was lost twice before makes room for one more. */
  function Requested(c: Tuned, key: Key, grows: bool): (r: Tuned) {
    if key in c.order then c.(order := [key] + Without(c.order, key))
    else
      var order, capacity := OrderAfter(c, key, grows), CapacityAfter(c, key, grows);
      Tuned(order, capacity, k => c.losses(k) + (if Lost(c, key, order, k) then 1 else 0))
  }

  function CapacityAfter(c: Tuned, key: Key, grows: bool): (capacity: nat) {
    if grows && c.losses(key) >= 2 && c.capacity < SIZE_MAX then c.capacity + 1 else c.capacity
  }

  function OrderAfter(c: Tuned, key: Key, grows: bool): (order: seq<Key>) {
    if c.capacity == 0 then []
    else if grows && c.losses(key) >= 2 && c.capacity >= SIZE_MAX then [key] + Take(c.order, SIZE_MAX - 1)
    else [key] + Take(c.order, c.capacity)
  }

  predicate Lost(c: Tuned, key: Key, order: seq<Key>, k: Key) {
    (k in c.order && k !in order) || (k == key && c.capacity == 0)
  }

  function Tune(trace: seq<Key>, capacity: nat, grows: bool): (r: Tuned) {
    if trace == [] then Tuned([], capacity, k => 0)
    else Requested(Tune(trace[..|trace| - 1], capacity, grows), trace[|trace| - 1], grows)
  }

  // ----- The protocol without company -----

  /** Nobody holds or awaits an entry; every cached value is the key's own. */
  ghost predicate Quiet(c: Cache, F: Key -> Frame) {
    && Inv(c) && c.handles == multiset{} && c.waiters == multiset{}
    && c.minCapacity == 0 && c.maxCapacity == SIZE_MAX
    && (forall k :: k in c.slots ==> c.slots[k].value == Some(F(k)))
  }

  lemma QuietSlots(c: Cache, F: Key -> Frame)
    requires Quiet(c, F)
    ensures Locked(c) == {} && forall k :: k in c.slots ==> c.slots[k].state == Available
  {
    forall k | k in c.slots ensures c.slots[k].locks == 0 && c.slots[k].state == Available { assert SlotInv(c, k); }
  }

  lemma {:induction false} TrimUnlocked(order: seq<Key>, cap: nat)
    ensures TrimKeys(order, cap, {}) == Take(order, cap)
    decreases order
  {
    if order != [] { TrimUnlocked(order[1..], if cap > 0 then cap - 1 else 0); }
  }

  /** The order and capacity that a miss leaves behind. */
  lemma QuietMiss(c: Cache, key: Key, grow: bool, F: Key -> Frame, m: Tuned)
    requires Quiet(c, F) && key !in c.slots && m.order == c.order && m.capacity == c.capacity
    ensures var d := Lookup(c, key, true, false, grow).0;
      && d.order == OrderAfter(m.(losses := k => 2), key, grow) && d.capacity == CapacityAfter(m.(losses := k => 2), key, grow)
  {
    QuietSlots(c, F);
    TrimUnlocked(c.order, c.capacity);
    var d := ReserveNode(c, key);
    assert Locked(d.(requested := d.capacity + 1)) == {};
    var wider := Clamp(c.capacity + 1, 0, SIZE_MAX);
    TrimUnlocked(d.order, wider);
    if c.capacity != 0 {
      assert d.order == [key] + Take(c.order, c.capacity) && ([key] + Take(c.order, c.capacity))[1..] == Take(c.order, c.capacity);
    }
  }

  lemma QuietMissSlots(c: Cache, key: Key, grow: bool, F: Key -> Frame)
    requires Quiet(c, F) && key !in c.slots
    ensures var (d, result) := Lookup(c, key, true, false, grow);
      && result == (if c.capacity == 0 then NoCache else NotFound)
      && (c.capacity == 0 ==> Quiet(d, F))
      && (c.capacity != 0 ==> key in d.slots && Quiet(Commit(Store(d, key, Some(F(key))), key), F))
  {
    LookupMissInv(c, key, grow);
    var d := Lookup(c, key, true, false, grow).0;
    if c.capacity != 0 {
      StoreInv(d, key, Some(F(key)));
      CommitInv(Store(d, key, Some(F(key))), key);
    }
  }

  lemma QuietHit(c: Cache, key: Key, grow: bool, F: Key -> Frame)
    requires Quiet(c, F) && key in c.slots
    ensures Lookup(c, key, true, false, grow) == (Touched(c, key), FoundAndReady(Some(F(key)))) && Quiet(Touched(c, key), F)
  {
    QuietSlots(c, F);
    TouchedInv(c, key);
  }

  // ----- The counts -----

  /** The log has met few keys, among them all that are cached or were lost; it counts the losses. */
  ghost predicate Accounts(log: seq<Note>, m: Tuned, keys: set<Key>) {
    && |keys| <= REMEMBERED && (forall n :: n in log ==> n.key in keys)
    && (forall k :: k in m.order || Count(log, k) > 0 ==> k in Uses(log))
    && (forall k :: Count(log, k) == m.losses(k))
  }

  lemma NotForgotten(log: seq<Note>, longer: seq<Note>, m: Tuned, key: Key, forgotten: bool, refused: bool, now: seq<Key>, keys: set<Key>)
    requires Accounts(log, m, keys) && Asking(log, longer, key, forgotten, refused, m.order, now) && Honest(longer) && key in keys
    ensures (forall n :: n in longer ==> n.key in keys)
    ensures Count(log, key) > 0 ==> !forgotten
  {
    UsesWithin(log, keys);
    forall n | n in longer ensures n.key in keys {
      var i :| 0 <= i < |longer| && longer[i] == n;
      if i < |log| { assert log[i] in log; } else if n.key != key { assert n.key in Uses(log); }
    }
    if Count(log, key) > 0 { FewAreKnown(log, longer, key, keys); }
  }

  lemma AccountsMiss(log: seq<Note>, longer: seq<Note>, m: Tuned, key: Key, forgotten: bool, refused: bool, now: Tuned, keys: set<Key>)
    requires Accounts(log, m, keys) && Asking(log, longer, key, forgotten, refused, m.order, now.order) && Honest(longer)
    requires key in keys && key !in m.order && refused == (m.capacity == 0)
    requires forall k :: k in now.order ==> k == key || k in m.order
    requires forall k :: now.losses(k) == m.losses(k) + if Lost(m, key, now.order, k) then 1 else 0
    ensures Accounts(longer, now, keys)
  {
    NotForgotten(log, longer, m, key, forgotten, refused, now.order, keys);
    forall k | k in now.order || Count(longer, k) > 0 ensures k in Uses(longer) {
      if k != key { UsesGrow(log, longer, k); }
    }
  }

  /** The cache and its log are as foreseen. */
  ghost predicate Fits(c: Cache, log: seq<Note>, m: Tuned, F: Key -> Frame, keys: set<Key>) {
    Quiet(c, F) && c.order == m.order && c.capacity == m.capacity && Accounts(log, m, keys)
  }

  // ----- The class -----

  ghost predicate Agrees(cache: L.LruCache, m: Tuned, F: Key -> Frame, keys: set<Key>)
    reads cache, cache.mainCache, cache.ghosts
  {
    cache.Valid() && cache.Tallied() && Fits(cache.state, cache.log, m, F, keys)
  }

  /** The caller's part after the lookup. */
  method Deliver(cache: L.LruCache, key: Key, F: Key -> Frame, result: LookupResult, hndl: Option<L.EntryPtr>,
                 ghost now: Tuned, ghost keys: set<Key>)
    returns (value: Option<Frame>)
    requires cache.Valid() && cache.Tallied() && (hndl.Some? <==> result.NotFound?)
    requires hndl.Some? ==> cache.Holds(hndl.value) && cache.entryPool[hndl.value].key == key
    requires result.NotFound? ==> key in cache.state.slots
    requires var c := cache.state;
      Fits(if result.NotFound? then Commit(Store(c, key, Some(F(key))), key) else c, cache.log, now, F, keys)
    modifies cache`entryPool, cache`state
    ensures Agrees(cache, now, F, keys)
    ensures value == if result.FoundAndReady? then result.value else Some(F(key))
  {
    if result.FoundAndReady? {
      value := result.value;
      return;
    }
    if hndl.Some? {
      cache.StoreValue(hndl.value, Some(F(key)));
      cache.CommitValue(hndl.value);
    }
    value := Some(F(key));
  }

  /** What a lookup notes and decides. */
  ghost predicate Told(log: seq<Note>, longer: seq<Note>, c: Cache, now: seq<Key>, key: Key, grows: bool, grow: bool, forgotten: bool) {
    if key in c.slots then longer == log
    else
      && (grow <==> grows && !forgotten && Count(log, key) >= 2)
      && Asking(log, longer, key, forgotten, c.capacity == 0, c.order, now)
  }

  method LookUp(cache: L.LruCache, key: Key)
    returns (result: LookupResult, hndl: Option<L.EntryPtr>, ghost grow: bool, ghost forgotten: bool)
    requires cache.Valid() && cache.Tallied()
    modifies cache, cache.mainCache, cache.ghosts
    ensures cache.Valid() && cache.Tallied()
    ensures (cache.state, result) == Lookup(old(cache.state), key, true, false, grow)
    ensures (hndl.Some? <==> result.NotFound?) && (hndl.Some? ==> cache.Holds(hndl.value) && cache.entryPool[hndl.value].key == key)
    ensures Told(old(cache.log), cache.log, old(cache.state), cache.state.order, key, cache.mode != L.NoResize, grow, forgotten)
  {
    var said, handle, _, _, more, unknown := cache.Lookup(key, true, None);
    result, hndl, grow, forgotten := said, handle, more, unknown;
  }

  /** Order and capacity are those after the lookup. */
  ghost predicate Fetched(c: Cache, d: Cache, key: Key, grow: bool) {
    var looked := Lookup(c, key, true, false, grow).0;
    d.order == looked.order && d.capacity == looked.capacity
  }

  /** What the lookup says, and the state when its caller has done its part. */
  lemma Answered(c: Cache, key: Key, grow: bool, F: Key -> Frame)
    requires Quiet(c, F)
    ensures var (d, result) := Lookup(c, key, true, false, grow);
      && result == (if key in c.slots then FoundAndReady(Some(F(key))) else if c.capacity == 0 then NoCache else NotFound)
      && (result.NotFound? ==> key in d.slots)
      && var e := if result.NotFound? then Commit(Store(d, key, Some(F(key))), key) else d;
      Quiet(e, F) && Fetched(c, e, key, grow)
  {
    if key in c.slots { QuietHit(c, key, grow, F); } else { QuietMissSlots(c, key, grow, F); }
  }

  /** Looks the key up; on a miss produces its frame and stores it if the cache takes it. */
  method Request(cache: L.LruCache, key: Key, F: Key -> Frame, ghost m: Tuned, ghost keys: set<Key>) returns (value: Option<Frame>)
    requires Agrees(cache, m, F, keys) && key in keys
    modifies cache, cache.mainCache, cache.ghosts
    ensures Agrees(cache, Requested(m, key, cache.mode != L.NoResize), F, keys) && value == Some(F(key))
  {
    ghost var c, log0 := cache.state, cache.log;
    var result, hndl, grow, forgotten := LookUp(cache, key);
    Fulfilled(c, key, grow, F, cache.state, result, log0, cache.log, m, forgotten, keys, cache.mode != L.NoResize);
    value := Deliver(cache, key, F, result, hndl, Requested(m, key, cache.mode != L.NoResize), keys);
  }

  /** What the request has come to. */
  lemma Fulfilled(c: Cache, key: Key, grow: bool, F: Key -> Frame, d: Cache, result: LookupResult, log: seq<Note>, longer: seq<Note>,
                  m: Tuned, forgotten: bool, keys: set<Key>, grows: bool)
    requires Fits(c, log, m, F, keys) && key in keys && Honest(longer)
    requires (d, result) == Lookup(c, key, true, false, grow) && Told(log, longer, c, d.order, key, grows, grow, forgotten)
    ensures result.NotFound? ==> key in d.slots
    ensures Fits(if result.NotFound? then Commit(Store(d, key, Some(F(key))), key) else d, longer, Requested(m, key, grows), F, keys)
    ensures result.FoundAndReady? ==> result.value == Some(F(key))
  {
    Answered(c, key, grow, F);
    if key in c.slots {
      AccountsHit(c, key, grow, F, log, m, d, keys, grows);
    } else {
      AccountsFetched(c, key, grow, F, log, longer, m, forgotten, d, keys, grows);
    }
  }

  lemma AccountsHit(c: Cache, key: Key, grow: bool, F: Key -> Frame, log: seq<Note>, m: Tuned, d: Cache, keys: set<Key>, grows: bool)
    requires Quiet(c, F) && key in c.slots && Fetched(c, d, key, grow)
    requires Accounts(log, m, keys) && m.order == c.order && m.capacity == c.capacity
    ensures var now := Requested(m, key, grows); now.order == d.order && now.capacity == d.capacity && Accounts(log, now, keys)
  {
    QuietHit(c, key, grow, F);
    WithoutDistinct(c.order, key);
  }

  lemma AccountsFetched(c: Cache, key: Key, grow: bool, F: Key -> Frame, log: seq<Note>, longer: seq<Note>, m: Tuned, forgotten: bool,
                        d: Cache, keys: set<Key>, grows: bool)
    requires Quiet(c, F) && key !in c.slots && Fetched(c, d, key, grow) && key in keys && Honest(longer)
    requires Accounts(log, m, keys) && m.order == c.order && m.capacity == c.capacity
    requires grow <==> grows && !forgotten && Count(log, key) >= 2
    requires Asking(log, longer, key, forgotten, c.capacity == 0, c.order, d.order)
    ensures var now := Requested(m, key, grows); now.order == d.order && now.capacity == d.capacity && Accounts(longer, now, keys)
  {
    NotForgotten(log, longer, m, key, forgotten, c.capacity == 0, d.order, keys);
    QuietMiss(c, key, grow, F, m);
    var now := Requested(m, key, grows);
    assert key !in m.order;
    assert now.order == d.order && now.capacity == d.capacity;
    AccountsMiss(log, longer, m, key, forgotten, c.capacity == 0, now, keys);
  }

  lemma TuneNext(trace: seq<Key>, n: nat, capacity: nat, grows: bool)
    requires n < |trace|
    ensures Tune(trace[..n + 1], capacity, grows) == Requested(Tune(trace[..n], capacity, grows), trace[n], grows)
  {
    assert trace[..n + 1][..n] == trace[..n];
  }

  /** A new cache, asked for one key after the other: at most fifty different ones. */
  method RequestAll(capacity: nat, mode: L.CacheMode, trace: seq<Key>, F: Key -> Frame, ghost keys: set<Key>) returns (cache: L.LruCache)
    requires capacity <= SIZE_MAX && |keys| <= REMEMBERED && forall k :: k in trace ==> k in keys
    ensures fresh(cache) && fresh(cache.mainCache) && fresh(cache.ghosts)
    ensures Agrees(cache, Tune(trace, capacity, mode != L.NoResize), F, keys)
  {
    cache := Begin(capacity, mode, trace, F, keys);
    var n := 0;
    while n < |trace|
      invariant 0 <= n <= |trace| && cache.mode == mode
      invariant fresh(cache) && fresh(cache.mainCache) && fresh(cache.ghosts)
      invariant Follows(cache, trace, n, capacity, F, keys)
    {
      var key := trace[n];
      assert key in trace && key in keys;
      RequestNext(cache, trace, n, capacity, F, keys);
      n := n + 1;
    }
    AllAnswered(cache, trace, capacity, F, keys);
  }

  lemma AllAnswered(cache: L.LruCache, trace: seq<Key>, capacity: nat, F: Key -> Frame, keys: set<Key>)
    requires Follows(cache, trace, |trace|, capacity, F, keys)
    ensures Agrees(cache, Tune(trace, capacity, cache.mode != L.NoResize), F, keys)
  {
    assert trace[..|trace|] == trace;
  }

  /** The first n requests have been answered. */
  ghost predicate Follows(cache: L.LruCache, trace: seq<Key>, n: nat, capacity: nat, F: Key -> Frame, keys: set<Key>)
    requires n <= |trace|
    reads cache, cache.mainCache, cache.ghosts
  {
    Agrees(cache, Tune(trace[..n], capacity, cache.mode != L.NoResize), F, keys)
  }

  method Begin(capacity: nat, mode: L.CacheMode, trace: seq<Key>, F: Key -> Frame, ghost keys: set<Key>) returns (cache: L.LruCache)
    requires capacity <= SIZE_MAX && |keys| <= REMEMBERED
    ensures fresh(cache) && fresh(cache.mainCache) && fresh(cache.ghosts) && cache.mode == mode
    ensures Follows(cache, trace, 0, capacity, F, keys)
  {
    cache := new L.LruCache(capacity, mode);
  }

  method RequestNext(cache: L.LruCache, trace: seq<Key>, n: nat, capacity: nat, F: Key -> Frame, ghost keys: set<Key>)
    requires n < |trace| && trace[n] in keys && Follows(cache, trace, n, capacity, F, keys)
    modifies cache, cache.mainCache, cache.ghosts
    ensures Follows(cache, trace, n + 1, capacity, F, keys)
  {
    TuneNext(trace, n, capacity, cache.mode != L.NoResize);
    var _ := Request(cache, trace[n], F, Tune(trace[..n], capacity, cache.mode != L.NoResize), keys);
  }

  // ----- What the tuning comes to -----

  /** How many of the requests for `key` found it missing. */
  function Misses(trace: seq<Key>, capacity: nat, grows: bool, key: Key): (n: nat) {
    if trace == [] then 0
    else
      var before := trace[..|trace| - 1];
      Misses(before, capacity, grows, key)
        + if trace[|trace| - 1] == key && key !in Tune(before, capacity, grows).order then 1 else 0
  }

  /** Each miss is paid for: the key was lost again, or is still there. */
  lemma {:induction false} MissesAreLosses(trace: seq<Key>, capacity: nat, grows: bool, key: Key)
    ensures var m := Tune(trace, capacity, grows);
      Misses(trace, capacity, grows, key) == m.losses(key) + if key in m.order then 1 else 0
    decreases |trace|
  {
    if trace != [] {
      var before, last := trace[..|trace| - 1], trace[|trace| - 1];
      var m := Tune(before, capacity, grows);
      MissesAreLosses(before, capacity, grows, key);
      TunedIsRecent(before, capacity, grows);
      RecencyDistinct(before);
      DistinctTake(Recency(before), |m.order|);
      DistinctWithout(m.order, last);
      if last in m.order { WithoutDistinct(m.order, last); }
    }
  }

  /** The cache grows at the third miss of a key, and at every later one. */
  lemma GrowsFromThirdMiss(trace: seq<Key>, capacity: nat, grows: bool, key: Key)
    ensures var m, now := Tune(trace, capacity, grows), Tune(trace + [key], capacity, grows);
      && (now.capacity == m.capacity || now.capacity == m.capacity + 1)
      && (now.capacity > m.capacity
          <==> grows && key !in m.order && Misses(trace, capacity, grows, key) >= 2 && m.capacity < SIZE_MAX)
  {
    MissesAreLosses(trace, capacity, grows, key);
    assert (trace + [key])[..|trace|] == trace;
  }

  /** What is cached is the most recently used, at most one more than the capacity. */
  lemma {:induction false} TunedIsRecent(trace: seq<Key>, capacity: nat, grows: bool)
    ensures var m := Tune(trace, capacity, grows);
      && m.order == Take(Recency(trace), |m.order|) && |m.order| <= m.capacity + 1 && capacity <= m.capacity
    decreases |trace|
  {
    if trace != [] {
      var before, last := trace[..|trace| - 1], trace[|trace| - 1];
      TunedIsRecent(before, capacity, grows);
      RecentNext(Recency(before), Tune(before, capacity, grows), last, grows);
    }
  }

  lemma RecentNext(recency: seq<Key>, m: Tuned, key: Key, grows: bool)
    requires m.order == Take(recency, |m.order|) && |m.order| <= m.capacity + 1
    ensures var now := Requested(m, key, grows);
      now.order == Take([key] + Without(recency, key), |now.order|) && |now.order| <= now.capacity + 1
  {
    PrefixWithout(m.order, recency, key);
    WithoutShorter(m.order, key);
    if key !in m.order { MissedRecent(recency, m, key, grows); }
  }

  lemma MissedRecent(recency: seq<Key>, m: Tuned, key: Key, grows: bool)
    requires m.order <= Without(recency, key)
    ensures OrderAfter(m, key, grows) <= [key] + Without(recency, key)
    ensures |OrderAfter(m, key, grows)| <= CapacityAfter(m, key, grows) + 1
  {
    FrontTake(m.order, Without(recency, key), key, m.capacity);
    FrontTake(m.order, Without(recency, key), key, SIZE_MAX - 1);
  }

  lemma FrontTake(order: seq<Key>, longer: seq<Key>, key: Key, n: nat)
    requires order <= longer
    ensures [key] + Take(order, n) <= [key] + longer && |[key] + Take(order, n)| <= n + 1
  {
    assert Take(order, n) <= order;
  }

  lemma {:induction false} WithoutShorter(s: seq<Key>, key: Key)
    ensures |Without(s, key)| == if key in s then |s| - 1 else |s|
    decreases s
  {
    if s != [] {
      assert s == [s[0]] + s[1..];
      if s[0] != key { WithoutShorter(s[1..], key); }
    }
  }

  /** Without growth it is the plain cache. */
  lemma {:induction false} FixedIsPlain(trace: seq<Key>, capacity: nat)
    ensures Tune(trace, capacity, false).order == Touches(trace, capacity) && Tune(trace, capacity, false).capacity == capacity
    decreases |trace|
  {
    if trace != [] { FixedIsPlain(trace[..|trace| - 1], capacity); }
  }

  /** Where all keys find room, nothing is lost and nothing grows. */
  lemma {:induction false} RoomForAll(trace: seq<Key>, capacity: nat, grows: bool, keys: set<Key>)
    requires capacity >= 1 && |keys| <= capacity + 1 && forall k :: k in trace ==> k in keys
    ensures var m := Tune(trace, capacity, grows);
      m.order == Recency(trace) && m.capacity == capacity && forall k :: m.losses(k) == 0
    decreases |trace|
  {
    if trace != [] {
      var before, last := trace[..|trace| - 1], trace[|trace| - 1];
      assert last in trace;
      RoomForAll(before, capacity, grows, keys);
      RecencyIsOrder(before);
      RecencyDistinct(before);
      RoomNext(Tune(before, capacity, grows), last, grows, keys);
    }
  }

  lemma RoomNext(m: Tuned, key: Key, grows: bool, keys: set<Key>)
    requires Distinct(m.order) && (forall k :: k in m.order ==> k in keys) && key in keys
    requires m.capacity >= 1 && |keys| <= m.capacity + 1 && forall k :: m.losses(k) == 0
    ensures var now := Requested(m, key, grows);
      now.order == [key] + Without(m.order, key) && now.capacity == m.capacity && forall k :: now.losses(k) == 0
  {
    if key !in m.order {
      var others := keys - {key};
      assert keys == others + {key};
      DistinctSet(m.order, others);
      WithoutShorter(m.order, key);
      PrefixWithout(m.order, m.order, key);
      assert Take(m.order, m.capacity) == m.order == Without(m.order, key);
    }
  }

  lemma {:induction false} NeverAsked(trace: seq<Key>, capacity: nat, grows: bool, key: Key)
    requires key !in trace
    ensures Misses(trace, capacity, grows, key) == 0
    decreases |trace|
  {
    if trace != [] { NeverAsked(trace[..|trace| - 1], capacity, grows, key); }
  }

  /** A cache of capacity 1 after n requests, with so many losses of one key. */
  ghost predicate Stands(trace: seq<Key>, n: nat, order: seq<Key>, key: Key, lost: nat)
    requires n <= |trace|
  {
    var m := Tune(trace[..n], 1, true);
    m.order == order && m.capacity == 1 && m.losses(key) == lost
  }

  lemma MissNext(trace: seq<Key>, n: nat, order: seq<Key>, key: Key, lost: nat)
    requires n < |trace| && Stands(trace, n, order, key, lost) && trace[n] !in order
    requires if trace[n] == key then lost < 2 else trace[n] !in trace[..n]
    ensures var now := [trace[n]] + Take(order, 1);
      Stands(trace, n + 1, now, key, lost + if key in order && key !in now then 1 else 0)
  {
    TuneNext(trace, n, 1, true);
    MissesAreLosses(trace[..n], 1, true, trace[n]);
    if trace[n] != key { NeverAsked(trace[..n], 1, true, trace[n]); }
  }

  lemma LossesGrow(trace: seq<Key>, n: nat, order: seq<Key>)
    requires n < |trace| && Stands(trace, n, order, trace[n], 2) && trace[n] !in order
    ensures Tune(trace[..n + 1], 1, true).capacity == 2
  {
    TuneNext(trace, n, 1, true);
  }

  /** A key evicted twice brings growth when it is asked for again, and not before. */
  lemma EvictedTwice(trace: seq<Key>)
    requires |trace| == 7 && trace[0] == trace[3] == trace[6]
    requires forall i, j :: 0 <= i < j < 6 && (i, j) != (0, 3) ==> trace[i] != trace[j]
    ensures Tune(trace[..6], 1, true).capacity == 1 && Tune(trace, 1, true).capacity == 2
  {
    FirstSix(trace);
    LossesGrow(trace, 6, [trace[5], trace[4]]);
    assert trace[..7] == trace;
  }

  lemma FirstSix(trace: seq<Key>)
    requires |trace| >= 6 && trace[0] == trace[3]
    requires forall i, j :: 0 <= i < j < 6 && (i, j) != (0, 3) ==> trace[i] != trace[j]
    ensures Stands(trace, 6, [trace[5], trace[4]], trace[0], 2)
  {
    var a, b, c, d, e := trace[0], trace[1], trace[2], trace[4], trace[5];
    FirstThree(trace, a, b, c);
    MissNext(trace, 3, [c, b], a, 1);
    assert trace[4] !in trace[..4];
    MissNext(trace, 4, [a, c], a, 1);
    assert trace[5] !in trace[..5];
    MissNext(trace, 5, [d, a], a, 1);
  }

  lemma FirstThree(trace: seq<Key>, a: Key, b: Key, c: Key)
    requires |trace| >= 3 && trace[0] == a && trace[1] == b && trace[2] == c && a != b && a != c && b != c
    ensures Stands(trace, 3, [c, b], a, 1)
  {
    MissNext(trace, 0, [], a, 0);
    MissNext(trace, 1, [a], a, 0);
    MissNext(trace, 2, [b, a], a, 0);
  }
}
