/** The protocol of avs_core/core/LruCache.h as a step system: one step for every section of code
    that runs under the cache's mutex. Entries are known by their key; module LruCache shows that
    its pointers, handles and recency list behave like this. */
module CacheProtocol {
  import opened Collections
  import opened Options
  import opened SimpleLru

  /** A frame, known by its identity; a null `PVideoFrame` is `None`. */
  type Frame = int

  datatype EntryState = Empty | Available | RolledBack

  datatype Slot = Slot(value: Option<Frame>, locks: int, state: EntryState)

  /** `handles` are the reservations not yet spent, `waiters` the threads inside the wait loop.
      `committed` holds the value last committed for a key, until the key is reserved anew or leaves;
      these three have no counterpart in the source. */
  datatype Cache = Cache(
    order: seq<Key>, slots: map<Key, Slot>,
    minCapacity: nat, maxCapacity: nat, requested: nat, capacity: nat,
    handles: multiset<Key>, waiters: multiset<Key>, committed: map<Key, Option<Frame>>)

  datatype LookupResult =
    | NotFound                                // the caller now owns a handle and must produce the value
    | FoundAndReady(value: Option<Frame>)
    | FoundButNotAvail
    | NoCache
    | Waiting                                 // the caller sleeps inside `lookup`

  // ----- Steps -----

  ghost function Locked(c: Cache): (r: set<Key>) {
    set k | k in c.slots && c.slots[k].locks > 0
  }

  /** Keys beyond the capacity leave unless locked. */
  function TrimKeys(order: seq<Key>, cap: nat, locked: set<Key>): (r: seq<Key>) {
    if order == [] then []
    else if cap > 0 then [order[0]] + TrimKeys(order[1..], cap - 1, locked)
    else if order[0] in locked then [order[0]] + TrimKeys(order[1..], 0, locked)
    else TrimKeys(order[1..], 0, locked)
  }

  ghost function TrimTo(c: Cache, cap: nat): (r: Cache) {
    var order := TrimKeys(c.order, cap, Locked(c));
    c.(order := order, capacity := cap,
       slots := map k | k in c.slots && k in order :: c.slots[k],
       committed := map k | k in c.committed && k in order :: c.committed[k])
  }

  ghost function Resize(c: Cache, newCap: nat): (r: Cache) {
    TrimTo(c.(requested := newCap), Clamp(newCap, c.minCapacity, c.maxCapacity))
  }

  ghost function SetLimits(c: Cache, min: nat, max: nat): (r: Cache) {
    Resize(c.(minCapacity := min, maxCapacity := max), c.requested)
  }

  ghost function Touched(c: Cache, key: Key): (r: Cache) {
    c.(order := [key] + Without(c.order, key))
  }

  ghost function WithSlot(c: Cache, key: Key, slot: Slot): (r: Cache) {
    c.(slots := c.slots[key := slot])
  }

  /** The main list makes room and puts a node for `key` in front, unless it can hold nothing. */
  ghost function ReserveNode(c: Cache, key: Key): (r: Cache) {
    var trimmed := TrimTo(c, c.capacity);
    if c.capacity != 0 then trimmed.(order := [key] + trimmed.order) else trimmed
  }

  /** `MainCache.resize(MainCache.capacity() + 1)` */
  ghost function Grow(d: Cache): (r: Cache) {
    Resize(d, d.capacity + 1)
  }

  /** `grow` is the verdict of the ghost list: the main list gets one more place. */
  ghost function MakePlace(c: Cache, key: Key, grow: bool): (r: Cache) {
    if grow then Grow(ReserveNode(c, key)) else ReserveNode(c, key)
  }

  ghost function Attach(c: Cache, key: Key): (r: Cache) {
    WithSlot(c, key, Slot(None, 1, Empty)).(handles := c.handles + multiset{key})
  }

  ghost function LookupMiss(c: Cache, key: Key, grow: bool): (r: (Cache, LookupResult)) {
    if c.capacity != 0 then (Attach(MakePlace(c, key, grow), key), NotFound)
    else (MakePlace(c, key, grow), NoCache)
  }

  ghost function HitResult(c: Cache, key: Key, block: bool): (r: (Cache, LookupResult))
    requires key in c.slots
  {
    var slot := c.slots[key];
    if !block && slot.state != Available then (c, FoundButNotAvail)
    else if slot.state == Empty then
      (WithSlot(c, key, slot.(locks := slot.locks + 1)).(waiters := c.waiters + multiset{key}), Waiting)
    else (c, FoundAndReady(slot.value))
  }

  ghost function LookupHit(c: Cache, key: Key, block: bool): (r: (Cache, LookupResult))
    requires key in c.slots
  {
    HitResult(Touched(c, key), key, block)
  }

  /** A call of `lookup`, up to its return or to its first wait. */
  ghost function Lookup(c: Cache, key: Key, block: bool, suppress: bool, grow: bool): (r: (Cache, LookupResult)) {
    if key in c.slots then LookupHit(c, key, block)
    else if suppress then (c, NoCache)
    else LookupMiss(c, key, grow)
  }

  /** A waiting thread regains the mutex. */
  ghost function Wake(c: Cache, key: Key): (r: (Cache, LookupResult))
    requires key in c.slots
  {
    var slot := c.slots[key];
    match slot.state
    case Empty => (c, Waiting)
    case Available =>
      (WithSlot(c, key, slot.(locks := slot.locks - 1)).(waiters := c.waiters - multiset{key}), FoundAndReady(slot.value))
    case RolledBack =>
      (WithSlot(c, key, slot.(state := Empty)).(waiters := c.waiters - multiset{key}, handles := c.handles + multiset{key}),
       NotFound)
  }

  /** The owner of a handle writes the value it has produced; no lock is taken for this. */
  ghost function Store(c: Cache, key: Key, v: Option<Frame>): (r: Cache)
    requires key in c.slots
  {
    WithSlot(c, key, c.slots[key].(value := v))
  }

  ghost function Commit(c: Cache, key: Key): (r: Cache)
    requires key in c.slots
  {
    var slot := c.slots[key];
    WithSlot(c, key, slot.(state := Available, locks := slot.locks - 1))
      .(handles := c.handles - multiset{key}, committed := c.committed[key := slot.value])
  }

  ghost function Rollback(c: Cache, key: Key): (r: Cache)
    requires key in c.slots
  {
    var slot := c.slots[key];
    var spent := c.(handles := c.handles - multiset{key});
    if slot.locks == 1 then
      spent.(order := Without(c.order, key), slots := map k | k in c.slots && k != key :: c.slots[k])
    else
      WithSlot(spent, key, slot.(locks := slot.locks - 1, state := RolledBack))
  }

  ghost function Init(capacity: nat): (c: Cache) {
    Cache([], map[], 0, SIZE_MAX, capacity, capacity, multiset{}, multiset{}, map[])
  }

  // ----- Single flight -----

  ghost predicate SlotInv(c: Cache, k: Key)
    requires k in c.slots
  {
    var slot := c.slots[k];
    && slot.locks == c.handles[k] + c.waiters[k]
    && match slot.state
       case Empty => c.handles[k] == 1
       case Available => c.handles[k] == 0 && k in c.committed && c.committed[k] == slot.value
       case RolledBack => c.handles[k] == 0 && c.waiters[k] > 0
  }

  ghost predicate Inv(c: Cache) {
    && Distinct(c.order)
    && (forall k :: k in c.order <==> k in c.slots)
    && (forall k :: k in c.slots ==> SlotInv(c, k))
    && (forall k :: k in c.handles || k in c.waiters ==> k in c.slots)
    && (forall k :: k in c.committed ==> k in c.slots && c.slots[k].state == Available)
    && c.capacity == Clamp(c.requested, c.minCapacity, c.maxCapacity)
  }

  lemma {:induction false} WithoutDistinct(s: seq<Key>, key: Key)
    requires Distinct(s)
    ensures Distinct(Without(s, key))
    ensures forall k :: k in Without(s, key) <==> k in s && k != key
  {
    if s != [] {
      assert s == [s[0]] + s[1..];
      if s[0] != key {
        WithoutDistinct(s[1..], key);
        assert Without(s, key)[1..] == Without(s[1..], key);
      }
    }
  }

  lemma {:induction false} TrimKeysMembers(order: seq<Key>, cap: nat, locked: set<Key>)
    requires Distinct(order)
    ensures Distinct(TrimKeys(order, cap, locked))
    ensures forall k :: k in TrimKeys(order, cap, locked) ==> k in order
    ensures forall k :: k in order && k in locked ==> k in TrimKeys(order, cap, locked)
  {
    if order != [] {
      assert order == [order[0]] + order[1..];
      var rest := TrimKeys(order[1..], if cap > 0 then cap - 1 else 0, locked);
      TrimKeysMembers(order[1..], if cap > 0 then cap - 1 else 0, locked);
      assert forall k :: k in order <==> k == order[0] || k in order[1..];
      if cap > 0 || order[0] in locked {
        assert TrimKeys(order, cap, locked) == [order[0]] + rest;
        assert TrimKeys(order, cap, locked)[1..] == rest;
      }
    }
  }

  /** A trim removes neither a held nor an awaited entry and changes no other slot. */
  lemma TrimToInv(c: Cache, cap: nat)
    requires Distinct(c.order)
    requires forall k :: k in c.slots ==> k in c.order && SlotInv(c, k)
    requires forall k :: k in c.handles || k in c.waiters ==> k in c.slots
    ensures var r := TrimTo(c, cap);
      && Distinct(r.order)
      && (forall k :: k in r.order ==> k in c.order)
      && (forall k :: k in r.slots <==> k in c.slots && k in r.order)
      && (forall k :: k in r.slots ==> r.slots[k] == c.slots[k] && SlotInv(r, k))
      && (forall k :: k in c.handles || k in c.waiters ==> k in r.slots)
  {
    TrimKeysMembers(c.order, cap, Locked(c));
    var r := TrimTo(c, cap);
    forall k | k in c.handles || k in c.waiters ensures k in r.slots {
      assert SlotInv(c, k);
    }
    forall k | k in r.slots ensures SlotInv(r, k) {
      assert SlotInv(c, k);
    }
  }

  lemma InitInv(capacity: nat)
    requires capacity <= SIZE_MAX
    ensures Inv(Init(capacity))
  {
  }

  lemma SetLimitsInv(c: Cache, min: nat, max: nat)
    requires Inv(c)
    ensures Inv(SetLimits(c, min, max))
  {
    var d := c.(minCapacity := min, maxCapacity := max);
    forall k | k in d.slots ensures SlotInv(d, k) { assert SlotInv(c, k); }
    TrimToInv(d, Clamp(c.requested, min, max));
  }

  lemma TouchedInv(c: Cache, key: Key)
    requires Inv(c) && key in c.slots
    ensures Inv(Touched(c, key))
  {
    WithoutDistinct(c.order, key);
    var d := Touched(c, key);
    assert d.order[1..] == Without(c.order, key);
    forall k | k in d.slots ensures SlotInv(d, k) { assert SlotInv(c, k); }
  }

  lemma HitInv(c: Cache, key: Key, block: bool)
    requires Inv(c) && key in c.slots
    ensures Inv(HitResult(c, key, block).0)
  {
    var d := HitResult(c, key, block).0;
    assert SlotInv(c, key);
    forall k | k in d.slots ensures SlotInv(d, k) { assert SlotInv(c, k); }
  }

  lemma LookupHitInv(c: Cache, key: Key, block: bool)
    requires Inv(c) && key in c.slots
    ensures Inv(LookupHit(c, key, block).0)
  {
    TouchedInv(c, key);
    HitInv(Touched(c, key), key, block);
  }

  /** Growing never looks at the node just reserved, which has no entry yet: it heads the list and
      at least one place is left. */
  lemma ReservedNodeSurvives(order: seq<Key>, key: Key, cap: nat, locked: set<Key>)
    requires cap >= 1
    ensures TrimKeys([key] + order, cap, locked) == [key] + TrimKeys(order, cap - 1, locked)
  {
    assert ([key] + order)[1..] == order;
  }

  lemma GrowthClamped(c: Cache)
    requires c.capacity == Clamp(c.requested, c.minCapacity, c.maxCapacity)
    ensures c.capacity <= Clamp(c.capacity + 1, c.minCapacity, c.maxCapacity) <= c.capacity + 1
  {
  }

  /** Between reserving the node for `key` and giving it its entry: all is well but for that node. */
  ghost predicate AwaitsEntry(c: Cache, key: Key, d: Cache) {
    SlotsKept(c, d) && NodeReady(c, key, d)
  }

  ghost predicate NodeReady(c: Cache, key: Key, d: Cache) {
    if c.capacity != 0
    then d.capacity >= 1 && d.order != [] && d.order[0] == key && (forall k :: k in d.order[1..] <==> k in d.slots)
    else forall k :: k in d.order <==> k in d.slots
  }

  ghost predicate SlotsKept(c: Cache, d: Cache) {
    && Distinct(d.order) && d.handles == c.handles && d.waiters == c.waiters
    && d.minCapacity == c.minCapacity && d.maxCapacity == c.maxCapacity
    && d.capacity == Clamp(d.requested, d.minCapacity, d.maxCapacity)
    && (forall k :: k in d.slots ==> k in c.slots && d.slots[k] == c.slots[k] && SlotInv(d, k))
    && (forall k :: k in c.handles || k in c.waiters ==> k in d.slots)
    && (forall k :: k in d.committed ==> k in d.slots && d.slots[k].state == Available)
  }

  lemma ReserveNodeAwaits(c: Cache, key: Key)
    requires Inv(c) && key !in c.slots
    ensures AwaitsEntry(c, key, ReserveNode(c, key))
  {
    TrimToInv(c, c.capacity);
    var trimmed, d := TrimTo(c, c.capacity), ReserveNode(c, key);
    if c.capacity != 0 {
      assert d.order[1..] == trimmed.order;
    }
    forall k | k in d.slots ensures SlotInv(d, k) { assert SlotInv(trimmed, k); }
  }

  lemma AwaitedMembers(c: Cache, key: Key, d: Cache)
    requires AwaitsEntry(c, key, d) && key !in c.slots
    ensures forall k :: k in d.slots ==> k in d.order
  {
    if c.capacity != 0 {
      assert d.order == [key] + d.order[1..];
    }
  }

  lemma GrowKeepsNode(d: Cache, key: Key)
    requires d.capacity >= 1 && d.capacity == Clamp(d.requested, d.minCapacity, d.maxCapacity)
    requires Distinct(d.order) && d.order != [] && d.order[0] == key && key !in d.slots
    requires forall k :: k in d.order[1..] <==> k in d.slots
    ensures var e := Resize(d, d.capacity + 1);
      e.order != [] && e.order[0] == key && forall k :: k in e.order[1..] <==> k in e.slots
  {
    GrowthClamped(d);
    var cap, e := Clamp(d.capacity + 1, d.minCapacity, d.maxCapacity), Resize(d, d.capacity + 1);
    var rest := TrimKeys(d.order[1..], cap - 1, Locked(d));
    assert d.order == [key] + d.order[1..];
    assert Locked(d.(requested := d.capacity + 1)) == Locked(d);
    ReservedNodeSurvives(d.order[1..], key, cap, Locked(d));
    assert e.order == [key] + rest && e.order[1..] == rest;
    TrimKeysMembers(d.order[1..], cap - 1, Locked(d));
  }

  lemma GrowKeepsSlots(c: Cache, d: Cache, newCap: nat)
    requires SlotsKept(c, d) && forall k :: k in d.slots ==> k in d.order
    ensures SlotsKept(c, Resize(d, newCap))
    ensures forall k :: k in Resize(d, newCap).order ==> k in d.order
  {
    var asked := d.(requested := newCap);
    forall k | k in asked.slots ensures SlotInv(asked, k) { assert SlotInv(d, k); }
    TrimToInv(asked, Clamp(newCap, d.minCapacity, d.maxCapacity));
  }

  lemma GrowNodeReady(c: Cache, key: Key, d: Cache)
    requires AwaitsEntry(c, key, d) && key !in c.slots && c.capacity != 0
    ensures NodeReady(c, key, Grow(d))
  {
    GrowthClamped(d);
    GrowKeepsNode(d, key);
  }

  lemma GrowNoNode(c: Cache, key: Key, d: Cache)
    requires AwaitsEntry(c, key, d) && c.capacity == 0
    ensures NodeReady(c, key, Grow(d))
  {
    GrowKeepsSlots(c, d, d.capacity + 1);
  }

  lemma GrowAwaits(c: Cache, key: Key, d: Cache)
    requires AwaitsEntry(c, key, d) && key !in c.slots
    ensures AwaitsEntry(c, key, Grow(d))
  {
    AwaitedMembers(c, key, d);
    GrowKeepsSlots(c, d, d.capacity + 1);
    if c.capacity != 0 {
      GrowNodeReady(c, key, d);
    } else {
      GrowNoNode(c, key, d);
    }
  }

  lemma AttachInv(c: Cache, key: Key, d: Cache)
    requires Inv(c) && key !in c.slots && AwaitsEntry(c, key, d) && c.capacity != 0
    ensures Inv(Attach(d, key))
  {
    var e := Attach(d, key);
    assert d.order == [key] + d.order[1..];
    assert c.handles[key] == 0 && c.waiters[key] == 0;
    forall k | k in e.slots ensures SlotInv(e, k) {
      if k != key { assert SlotInv(d, k); }
    }
  }

  lemma MakePlaceAwaits(c: Cache, key: Key, grow: bool)
    requires Inv(c) && key !in c.slots
    ensures AwaitsEntry(c, key, MakePlace(c, key, grow))
  {
    ReserveNodeAwaits(c, key);
    if grow {
      GrowAwaits(c, key, ReserveNode(c, key));
    }
  }

  lemma LookupMissInv(c: Cache, key: Key, grow: bool)
    requires Inv(c) && key !in c.slots
    ensures Inv(LookupMiss(c, key, grow).0)
  {
    MakePlaceAwaits(c, key, grow);
    if c.capacity != 0 {
      AttachInv(c, key, MakePlace(c, key, grow));
    }
  }

  lemma LookupInv(c: Cache, key: Key, block: bool, suppress: bool, grow: bool)
    requires Inv(c)
    ensures Inv(Lookup(c, key, block, suppress, grow).0)
  {
    if key in c.slots {
      LookupHitInv(c, key, block);
    } else if !suppress {
      LookupMissInv(c, key, grow);
    }
  }

  lemma WakeInv(c: Cache, key: Key)
    requires Inv(c) && key in c.waiters
    ensures Inv(Wake(c, key).0)
  {
    var d := Wake(c, key).0;
    assert SlotInv(c, key);
    forall k | k in d.slots ensures SlotInv(d, k) { assert SlotInv(c, k); }
  }

  lemma StoreInv(c: Cache, key: Key, v: Option<Frame>)
    requires Inv(c) && key in c.handles
    ensures Inv(Store(c, key, v))
  {
    var d := Store(c, key, v);
    assert SlotInv(c, key);
    forall k | k in d.slots ensures SlotInv(d, k) { assert SlotInv(c, k); }
  }

  lemma CommitInv(c: Cache, key: Key)
    requires Inv(c) && key in c.handles
    ensures Inv(Commit(c, key))
  {
    var d := Commit(c, key);
    assert SlotInv(c, key);
    forall k | k in d.slots ensures SlotInv(d, k) { assert SlotInv(c, k); }
  }

  lemma RollbackInv(c: Cache, key: Key)
    requires Inv(c) && key in c.handles
    ensures Inv(Rollback(c, key))
  {
    var d := Rollback(c, key);
    assert SlotInv(c, key);
    WithoutDistinct(c.order, key);
    forall k | k in d.slots ensures SlotInv(d, k) { assert SlotInv(c, k); }
  }

  // ----- Runs -----

  datatype Event =
    | LookupBy(key: Key, block: bool, suppress: bool, grow: bool)
    | WakeUp(key: Key)
    | StoreValue(key: Key, value: Option<Frame>)
    | CommitHandle(key: Key)
    | RollbackHandle(key: Key)
    | ChangeLimits(min: nat, max: nat)

  /** Only a sleeping thread wakes, and only the owner of a handle spends it. */
  ghost predicate Enabled(c: Cache, e: Event) {
    match e
    case WakeUp(k) => k in c.waiters && k in c.slots
    case StoreValue(k, _) => k in c.handles && k in c.slots
    case CommitHandle(k) => k in c.handles && k in c.slots
    case RollbackHandle(k) => k in c.handles && k in c.slots
    case _ => true
  }

  ghost function Apply(c: Cache, e: Event): (r: Cache)
    requires Enabled(c, e)
  {
    match e
    case LookupBy(k, block, suppress, grow) => Lookup(c, k, block, suppress, grow).0
    case WakeUp(k) => Wake(c, k).0
    case StoreValue(k, v) => Store(c, k, v)
    case CommitHandle(k) => Commit(c, k)
    case RollbackHandle(k) => Rollback(c, k)
    case ChangeLimits(min, max) => SetLimits(c, min, max)
  }

  ghost predicate IsRun(c: Cache, run: seq<Event>)
    decreases run
  {
    run != [] ==> Enabled(c, run[0]) && IsRun(Apply(c, run[0]), run[1..])
  }

  ghost function After(c: Cache, run: seq<Event>): (r: Cache)
    requires IsRun(c, run)
    decreases run
  {
    if run == [] then c else After(Apply(c, run[0]), run[1..])
  }

  lemma ApplyInv(c: Cache, e: Event)
    requires Inv(c) && Enabled(c, e)
    ensures Inv(Apply(c, e))
  {
    match e
    case LookupBy(k, block, suppress, grow) => LookupInv(c, k, block, suppress, grow);
    case WakeUp(k) => WakeInv(c, k);
    case StoreValue(k, v) => StoreInv(c, k, v);
    case CommitHandle(k) => CommitInv(c, k);
    case RollbackHandle(k) => RollbackInv(c, k);
    case ChangeLimits(min, max) => SetLimitsInv(c, min, max);
  }

  lemma {:induction false} RunInv(c: Cache, run: seq<Event>)
    requires Inv(c) && IsRun(c, run)
    ensures Inv(After(c, run))
    decreases run
  {
    if run != [] {
      ApplyInv(c, run[0]);
      RunInv(Apply(c, run[0]), run[1..]);
    }
  }

  /** Single flight, in every interleaving from an empty cache: locks count the outstanding handles
      and the waiters, a key never has two producers, and its state says which of them it has. */
  lemma SingleFlight(capacity: nat, run: seq<Event>)
    requires capacity <= SIZE_MAX && IsRun(Init(capacity), run)
    ensures var c := After(Init(capacity), run);
      && (forall k :: c.handles[k] <= 1)
      && (forall k :: k in c.slots ==>
           && c.slots[k].locks == c.handles[k] + c.waiters[k]
           && (c.slots[k].state == Empty <==> c.handles[k] == 1)
           && (c.slots[k].state == RolledBack ==> c.waiters[k] >= 1)
           && (c.slots[k].state == Available <==> k in c.committed))
      && (forall k :: k !in c.slots ==> c.handles[k] == 0 && c.waiters[k] == 0)
  {
    InitInv(capacity);
    RunInv(Init(capacity), run);
    var c := After(Init(capacity), run);
    forall k | k in c.slots ensures SlotInv(c, k) {}
    forall k ensures c.handles[k] <= 1 {
      if k in c.slots { assert SlotInv(c, k); }
    }
  }

  lemma MissProtects(c: Cache, key: Key, grow: bool, k: Key)
    requires Inv(c) && key !in c.slots && k in c.slots && (k in c.handles || k in c.waiters)
    ensures k in LookupMiss(c, key, grow).0.slots && LookupMiss(c, key, grow).0.slots[k] == c.slots[k]
  {
    MakePlaceAwaits(c, key, grow);
  }

  lemma LimitsProtect(c: Cache, min: nat, max: nat, k: Key)
    requires Inv(c) && k in c.slots && (k in c.handles || k in c.waiters)
    ensures k in SetLimits(c, min, max).slots && SetLimits(c, min, max).slots[k] == c.slots[k]
  {
    var d := c.(minCapacity := min, maxCapacity := max);
    forall j | j in d.slots ensures SlotInv(d, j) { assert SlotInv(c, j); }
    TrimToInv(d, Clamp(c.requested, min, max));
  }

  /** Whatever another thread does, an entry that somebody holds or awaits stays, with the value and the
      state it had. Only giving up the last interest in it removes it. */
  lemma ProtectedEntry(c: Cache, e: Event, k: Key)
    requires Inv(c) && Enabled(c, e) && (k in c.handles || k in c.waiters)
    ensures k in c.slots && (k in Apply(c, e).slots <==> !(e == RollbackHandle(k) && c.slots[k].locks == 1))
    ensures e.LookupBy? || e.ChangeLimits? || e.key != k ==>
              Apply(c, e).slots[k].value == c.slots[k].value && Apply(c, e).slots[k].state == c.slots[k].state
  {
    if e.LookupBy? && e.key !in c.slots {
      if !e.suppress {
        MissProtects(c, e.key, e.grow, k);
      }
    } else if e.ChangeLimits? {
      LimitsProtect(c, e.min, e.max, k);
    }
  }

  lemma LookupKeepsInterest(c: Cache, key: Key, block: bool, suppress: bool, grow: bool)
    requires Inv(c)
    ensures var d := Lookup(c, key, block, suppress, grow).0;
      && (forall k :: k in c.handles ==> k in d.handles && k in d.slots)
      && (forall k :: k in c.waiters ==> k in d.waiters && k in d.slots)
  {
    var d := Lookup(c, key, block, suppress, grow).0;
    forall k | k in c.handles || k in c.waiters ensures k in d.slots {
      ProtectedEntry(c, LookupBy(key, block, suppress, grow), k);
    }
  }

  /** What a lookup does to the slots: it locks that of its key once more if the caller must wait, or makes it; all
      others stay as they are, unless nobody has locked them and they are evicted for a new one. */
  lemma LookupSlots(c: Cache, key: Key, block: bool, suppress: bool, grow: bool)
    requires Inv(c)
    ensures var (d, r) := Lookup(c, key, block, suppress, grow);
      && (forall k :: k in d.slots && k != key ==> k in c.slots && d.slots[k] == c.slots[k])
      && (key in c.slots ==>
            d.slots == c.slots[key := c.slots[key].(locks := c.slots[key].locks + if r.Waiting? then 1 else 0)])
      && (key !in c.slots ==> (key in d.slots <==> r.NotFound?) && (r.NotFound? ==> d.slots[key] == Slot(None, 1, Empty)))
      && (forall k :: k in c.slots && k !in d.slots ==> c.slots[k].locks == 0 && key !in c.slots && !suppress)
  {
    if key !in c.slots && !suppress {
      MakePlaceAwaits(c, key, grow);
      var d := MakePlace(c, key, grow);
      forall k | k in c.slots && k !in d.slots ensures c.slots[k].locks == 0 {
        assert SlotInv(c, k);
      }
    }
  }

  /** The self-tuning cache gets one place more, up to its limit. */
  lemma LookupGrows(c: Cache, key: Key, block: bool)
    requires Inv(c) && key !in c.slots
    ensures Lookup(c, key, block, false, true).0.capacity == if c.capacity < c.maxCapacity then c.capacity + 1 else c.capacity
    ensures Lookup(c, key, block, false, false).0.capacity == c.capacity
  {
  }

  lemma {:induction false} TrimKeysExactly(order: seq<Key>, cap: nat, locked: set<Key>, k: Key)
    ensures k in TrimKeys(order, cap, locked)
      <==> k in order[..if cap < |order| then cap else |order|] || (k in order && k in locked)
  {
    if order != [] {
      var rest, fewer := order[1..], if cap > 0 then cap - 1 else 0;
      TrimKeysExactly(rest, fewer, locked, k);
      assert order == [order[0]] + rest;
      var n := if cap < |order| then cap else |order|;
      if cap > 0 {
        assert order[..n] == [order[0]] + rest[..n - 1];
      }
    }
  }

  /** Which slots leave for a new one: those beyond the capacity in the order of use, unless locked. */
  lemma LookupEvictsExactly(c: Cache, key: Key, block: bool, k: Key)
    requires Inv(c) && key !in c.slots && k in c.slots
    ensures k in Lookup(c, key, block, false, false).0.slots
      <==> c.slots[k].locks > 0 || k in c.order[..if c.capacity < |c.order| then c.capacity else |c.order|]
  {
    TrimKeysExactly(c.order, c.capacity, Locked(c), k);
  }

  /** What a lookup changes: at most the slot of its key, one interest in it, and the list. */
  lemma LookupEffect(c: Cache, key: Key, block: bool, suppress: bool, grow: bool)
    requires Inv(c)
    ensures var (d, r) := Lookup(c, key, block, suppress, grow);
      && (forall k :: k in d.slots && k in c.slots ==>
            d.slots[k].value == c.slots[k].value && d.slots[k].state == c.slots[k].state)
      && (forall k :: k in d.slots && k !in c.slots ==> k == key && r.NotFound? && d.slots[k].state == Empty)
      && d.handles == (if r.NotFound? then c.handles + multiset{key} else c.handles)
      && d.waiters == (if r.Waiting? then c.waiters + multiset{key} else c.waiters)
      && (r.FoundButNotAvail? ==> !block)
      && (!grow ==> d.capacity == c.capacity)
  {
    if key !in c.slots && !suppress {
      MakePlaceAwaits(c, key, grow);
    }
  }

  lemma LookupSize(c: Cache, key: Key, block: bool, suppress: bool, grow: bool)
    requires Inv(c)
    ensures var (d, r) := Lookup(c, key, block, suppress, grow);
      && (r.NotFound? ==> |d.order| <= d.capacity + |d.handles| + |d.waiters|)
      && (!r.NotFound? && !r.NoCache? ==> |d.order| == |c.order|)
  {
    var (d, r) := Lookup(c, key, block, suppress, grow);
    if r.NotFound? {
      SizeBound(c, key, block, grow);
      LookupInv(c, key, block, suppress, grow);
      LockedAtMostPending(d);
    } else if key in c.slots {
      WithoutLength(c.order, key);
    }
  }

  lemma {:induction false} WithoutLength(s: seq<Key>, key: Key)
    ensures |Without(s, key)| == if key in s then |s| - 1 else |s|
  {
    if s != [] {
      assert s == [s[0]] + s[1..];
      WithoutLength(s[1..], key);
    }
  }

  // ----- Ready means committed? -----

  /** A blocking lookup that returns at once hands out a committed value exactly when the entry it
      found was not rolled back: such an entry skips the wait loop, whose take-over arm it needed. */
  lemma ReadyMeansCommittedExactly(c: Cache, key: Key, block: bool, suppress: bool, grow: bool)
    requires Inv(c)
    requires Lookup(c, key, block, suppress, grow).1.FoundAndReady?
    ensures key in c.slots
    ensures key in c.committed && Lookup(c, key, block, suppress, grow).1.value == c.committed[key]
            <==> c.slots[key].state != RolledBack
  {
    assert SlotInv(c, key);
  }

  /** The three-thread run that shows it: one thread reserves frame 7, a second waits for it, the first
      fails, and a third arrives before the second has woken. It is told that a null frame is ready. */
  lemma ReadyWithoutCommit()
    ensures var run := [LookupBy(7, true, false, false), LookupBy(7, true, false, false), RollbackHandle(7)];
      && IsRun(Init(4), run)
      && var c := After(Init(4), run);
         Lookup(c, 7, true, false, false).1 == FoundAndReady(None) && 7 !in c.committed
  {
    var reserve := LookupBy(7, true, false, false);
    var c0 := Init(4);
    var c1 := Apply(c0, reserve);
    assert c1.slots[7] == Slot(None, 1, Empty) && c1.handles == multiset{7};
    var c2 := Apply(c1, reserve);
    assert c2.slots[7] == Slot(None, 2, Empty) && c2.handles == multiset{7};
    var c3 := Apply(c2, RollbackHandle(7));
    assert c3.slots[7] == Slot(None, 1, RolledBack);
    var run := [reserve, reserve, RollbackHandle(7)];
    assert run[1..] == [reserve, RollbackHandle(7)] && run[1..][1..] == [RollbackHandle(7)] && run[1..][1..][1..] == [];
    assert IsRun(c3, []) && After(c3, []) == c3;
    assert IsRun(c2, run[1..][1..]) && After(c2, run[1..][1..]) == c3;
    assert IsRun(c1, run[1..]) && After(c1, run[1..]) == c3;
  }

  /** With nobody waiting for the key, as when a single thread does all blocking lookups, every value
      handed out is a committed one. */
  lemma ReadyIsCommittedWithoutWaiters(c: Cache, key: Key, block: bool, suppress: bool, grow: bool)
    requires Inv(c) && key !in c.waiters
    requires Lookup(c, key, block, suppress, grow).1.FoundAndReady?
    ensures key in c.committed && Lookup(c, key, block, suppress, grow).1.value == c.committed[key]
  {
    assert SlotInv(c, key);
  }

  /** A thread that slept is never handed anything but a committed value. */
  lemma WokenIsCommitted(c: Cache, key: Key)
    requires Inv(c) && key in c.waiters && Wake(c, key).1.FoundAndReady?
    ensures key in c.committed && Wake(c, key).1.value == c.committed[key]
  {
    assert SlotInv(c, key);
  }

  // ----- Progress -----

  ghost function Pending(c: Cache): (n: nat) {
    2 * |c.waiters| + |c.handles|
  }

  /** The steps that get somebody out of the cache: a waking thread that need not sleep again, or a spent handle. */
  ghost predicate IsProgress(c: Cache, e: Event) {
    && Enabled(c, e)
    && match e
       case WakeUp(k) => c.slots[k].state != Empty
       case CommitHandle(_) => true
       case RollbackHandle(_) => true
       case _ => false
  }

  lemma WaiterCanProceed(c: Cache, k: Key)
    requires Inv(c) && k in c.waiters
    ensures IsProgress(c, WakeUp(k)) || (IsProgress(c, CommitHandle(k)) && IsProgress(c, RollbackHandle(k)))
  {
    assert SlotInv(c, k);
  }

  lemma TakenOne(m: multiset<Key>, k: Key)
    requires k in m
    ensures |m - multiset{k}| == |m| - 1
  {
    assert m == (m - multiset{k}) + multiset{k};
  }

  lemma ProgressCounts(c: Cache, e: Event)
    requires Inv(c) && Enabled(c, e) && !e.LookupBy?
    ensures Pending(Apply(c, e)) <= Pending(c)
    ensures IsProgress(c, e) ==> Pending(Apply(c, e)) < Pending(c)
  {
    match e
    case WakeUp(k) => WakeCounts(c, k);
    case CommitHandle(k) => TakenOne(c.handles, k);
    case RollbackHandle(k) => TakenOne(c.handles, k);
    case _ =>
  }

  lemma WakeCounts(c: Cache, k: Key)
    requires k in c.slots && k in c.waiters
    ensures var d := Wake(c, k).0; if c.slots[k].state == Empty then d == c else Pending(d) < Pending(c)
  {
    TakenOne(c.waiters, k);
  }

  ghost function ProgressSteps(c: Cache, run: seq<Event>): (n: nat)
    requires IsRun(c, run)
    decreases run
  {
    if run == [] then 0
    else (if IsProgress(c, run[0]) then 1 else 0) + ProgressSteps(Apply(c, run[0]), run[1..])
  }

  /** Once no new lookup arrives, a run makes at most 2 * waiters + handles progress steps, through
      whatever chain of rollbacks; when none is left to make, nobody waits and nobody holds a handle. */
  lemma {:induction false} EveryWaiterFinishes(c: Cache, run: seq<Event>)
    requires Inv(c) && IsRun(c, run)
    requires forall e :: e in run ==> !e.LookupBy?
    ensures ProgressSteps(c, run) + Pending(After(c, run)) <= Pending(c)
    ensures (forall e :: !IsProgress(After(c, run), e)) ==> Pending(After(c, run)) == 0
    decreases run
  {
    if run == [] {
      SomeInMultiset(c.waiters);
      SomeInMultiset(c.handles);
      if c.waiters != multiset{} {
        var k :| k in c.waiters;
        WaiterCanProceed(c, k);
      } else if c.handles != multiset{} {
        var k :| k in c.handles;
        assert IsProgress(c, CommitHandle(k));
      }
    } else {
      assert run[0] in run;
      ProgressCounts(c, run[0]);
      ApplyInv(c, run[0]);
      EveryWaiterFinishes(Apply(c, run[0]), run[1..]);
    }
  }

  // ----- Size -----

  lemma {:induction false} TrimKeysLength(order: seq<Key>, cap: nat, locked: set<Key>)
    requires Distinct(order)
    ensures |TrimKeys(order, cap, locked)| <= cap + |locked|
  {
    if order != [] {
      if cap > 0 {
        TrimKeysLength(order[1..], cap - 1, locked);
      } else if order[0] in locked {
        TrimKeysLength(order[1..], 0, locked - {order[0]});
        TrimKeysForgets(order[1..], order[0], locked);
      } else {
        TrimKeysLength(order[1..], 0, locked);
      }
    }
  }

  lemma {:induction false} TrimKeysForgets(order: seq<Key>, key: Key, locked: set<Key>)
    requires key !in order
    ensures TrimKeys(order, 0, locked) == TrimKeys(order, 0, locked - {key})
  {
    if order != [] {
      TrimKeysForgets(order[1..], key, locked);
    }
  }

  lemma GrowLength(d: Cache, key: Key)
    requires d.capacity >= 1 && d.capacity == Clamp(d.requested, d.minCapacity, d.maxCapacity)
    requires d.order != [] && d.order[0] == key && Distinct(d.order)
    ensures var e := Resize(d, d.capacity + 1); |e.order| <= e.capacity + |Locked(d)|
  {
    GrowthClamped(d);
    assert Locked(d.(requested := d.capacity + 1)) == Locked(d);
    var cap := Clamp(d.capacity + 1, d.minCapacity, d.maxCapacity);
    assert d.order == [key] + d.order[1..];
    ReservedNodeSurvives(d.order[1..], key, cap, Locked(d));
    TrimKeysLength(d.order[1..], cap - 1, Locked(d));
  }

  lemma GrowLocked(d: Cache, newCap: nat)
    requires Distinct(d.order) && forall k :: k in d.slots ==> k in d.order
    ensures Locked(Resize(d, newCap)) == Locked(d)
  {
    var asked := d.(requested := newCap);
    assert Locked(asked) == Locked(d);
    LockedSurvive(asked, Clamp(newCap, d.minCapacity, d.maxCapacity));
  }

  lemma ReserveNodeLength(c: Cache, key: Key)
    requires Inv(c) && c.capacity != 0
    ensures var d := ReserveNode(c, key);
      Locked(d) == Locked(c) && |d.order| <= d.capacity + |Locked(c)| + 1
  {
    TrimKeysLength(c.order, c.capacity, Locked(c));
    LockedSurvive(c, c.capacity);
    assert Locked(ReserveNode(c, key)) == Locked(TrimTo(c, c.capacity));
  }

  lemma ReserveNodeOrder(c: Cache, key: Key)
    requires Inv(c) && key !in c.slots && c.capacity != 0
    ensures var d := ReserveNode(c, key);
      && d.capacity == c.capacity == Clamp(d.requested, d.minCapacity, d.maxCapacity)
      && Distinct(d.order) && d.order != [] && d.order[0] == key && forall k :: k in d.slots ==> k in d.order
  {
    ReserveNodeAwaits(c, key);
    AwaitedMembers(c, key, ReserveNode(c, key));
  }

  lemma MakePlaceLength(c: Cache, key: Key, grow: bool)
    requires Inv(c) && key !in c.slots && c.capacity != 0
    ensures var d := MakePlace(c, key, grow);
      Locked(d) == Locked(c) && |d.order| <= d.capacity + |Locked(c)| + 1
  {
    ReserveNodeLength(c, key);
    if grow {
      ReserveNodeOrder(c, key);
      GrowLength(ReserveNode(c, key), key);
      GrowLocked(ReserveNode(c, key), c.capacity + 1);
    }
  }

  /** Right after an inserting lookup, what the cache holds beyond its capacity is held or awaited. */
  lemma SizeBound(c: Cache, key: Key, block: bool, grow: bool)
    requires Inv(c) && key !in c.slots && c.capacity != 0
    ensures var d := Lookup(c, key, block, false, grow).0;
      |d.order| <= d.capacity + |Locked(d)|
  {
    MakePlaceLength(c, key, grow);
    MakePlaceAwaits(c, key, grow);
    AttachLocks(MakePlace(c, key, grow), key);
  }

  lemma AttachLocks(d: Cache, key: Key)
    requires key !in d.slots
    ensures |Locked(Attach(d, key))| == |Locked(d)| + 1
  {
    assert Locked(Attach(d, key)) == Locked(d) + {key};
  }

  lemma LockedSurvive(c: Cache, cap: nat)
    requires Distinct(c.order) && forall k :: k in c.slots ==> k in c.order
    ensures Locked(TrimTo(c, cap)) == Locked(c)
  {
    TrimKeysMembers(c.order, cap, Locked(c));
    assert forall k :: k in Locked(TrimTo(c, cap)) <==> k in Locked(c);
  }

  /** Locked entries are at most as many as the outstanding handles and the waiters. */
  lemma LockedAtMostPending(c: Cache)
    requires Inv(c)
    ensures |Locked(c)| <= |c.handles| + |c.waiters|
  {
    forall k | k in Locked(c) ensures k in c.handles + c.waiters {
      assert SlotInv(c, k);
    }
    SetWithinMultiset(Locked(c), c.handles + c.waiters);
  }

  lemma {:induction false} SetWithinMultiset(s: set<Key>, m: multiset<Key>)
    requires forall k :: k in s ==> k in m
    ensures |s| <= |m|
  {
    if s != {} {
      SomeInSet(s);
      var k :| k in s;
      SetWithinMultiset(s - {k}, m - multiset{k});
      TakenOne(m, k);
    }
  }
}
