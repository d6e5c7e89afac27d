/** The class of avs_core/core/LruCache.h: entries behind pointers, a recency list of such pointers, and a
    second list of ghosts that tunes the capacity. Each method is one section of code under the mutex. */
module LruCache {
  import opened Options
  import opened SimpleLru
  import opened CacheProtocol
  import opened GhostLog

  datatype CacheMode = FastStart | OptimalSize | NoResize

  /** `entry_ptr`: an address inside the entry pool. */
  type EntryPtr = nat

  datatype LruEntry = LruEntry(key: Key, value: Option<Frame>, locks: nat, ghosted: nat, state: EntryState)

  const GHOSTS_MIN_CAPACITY: nat := 50

  ghost function SlotOf(e: LruEntry): (s: Slot) {
    Slot(e.value, e.locks, e.state)
  }

  // ----- The two views of a trim -----

  lemma KeysCons<V>(x: Entry<V>, rest: seq<Entry<V>>)
    ensures Keys([x] + rest) == [x.key] + Keys(rest)
    ensures Distinct(Keys([x] + rest)) <==> x.key !in Keys(rest) && Distinct(Keys(rest))
  {
    assert Keys([x] + rest)[1..] == Keys(rest);
  }

  lemma {:induction false} KeptKeys<V(!new)>(list: seq<Entry<V>>, locked: set<Key>)
    ensures Keys(Kept(list, locked)) == TrimKeys(Keys(list), 0, locked)
  {
    if list != [] {
      assert Keys(list)[1..] == Keys(list[1..]);
      KeptKeys(list[1..], locked);
    }
  }

  lemma {:induction false} TrimmedKeys<V(!new)>(list: seq<Entry<V>>, cap: nat, locked: set<Key>)
    ensures Keys(Trimmed(list, cap, locked)) == TrimKeys(Keys(list), cap, locked)
  {
    if cap == 0 {
      KeptKeys(list, locked);
    } else if list != [] {
      assert Keys(list)[1..] == Keys(list[1..]);
      TrimmedKeys(list[1..], cap - 1, locked);
      KeysCons(list[0], Trimmed(list[1..], cap - 1, locked));
    }
  }

  lemma KeysOf<V>(list: seq<Entry<V>>)
    ensures forall e :: e in list ==> e.key in Keys(list)
  {
    forall e | e in list ensures e.key in Keys(list) {
      var i :| 0 <= i < |list| && list[i] == e;
      assert Keys(list)[i] == e.key;
    }
  }

  lemma {:induction false} SameKeySameEntry<V>(list: seq<Entry<V>>, a: Entry<V>, b: Entry<V>)
    requires Distinct(Keys(list)) && a in list && b in list && a.key == b.key
    ensures a == b
  {
    assert list == [list[0]] + list[1..] && Keys(list)[1..] == Keys(list[1..]);
    KeysOf(list[1..]);
    if a in list[1..] && b in list[1..] {
      SameKeySameEntry(list[1..], a, b);
    }
  }

  /** What a trim removes and what it leaves share the list between them and have no key in common. */
  lemma {:induction false} TrimmedMembers<V(!new)>(list: seq<Entry<V>>, cap: nat, locked: set<Key>)
    requires Distinct(Keys(list))
    ensures forall e :: e in Trimmed(list, cap, locked) ==> e in list
    ensures forall e :: e in TrimmedAway(list, cap, locked) ==> e in list && e.key !in locked
    ensures forall e, f :: e in Trimmed(list, cap, locked) && f in TrimmedAway(list, cap, locked) ==> e.key != f.key
    ensures Distinct(Keys(TrimmedAway(list, cap, locked)))
    ensures forall e :: e in list && e.key in locked ==> e in Trimmed(list, cap, locked)
  {
    if cap == 0 {
      KeptMembers(list, locked);
      DroppedDistinct(list, locked);
    } else if list != [] {
      assert list == [list[0]] + list[1..] && Keys(list)[1..] == Keys(list[1..]);
      TrimmedMembers(list[1..], cap - 1, locked);
      KeysOf(list[1..]);
    }
  }

  lemma {:induction false} DroppedDistinct<V(!new)>(list: seq<Entry<V>>, locked: set<Key>)
    requires Distinct(Keys(list))
    ensures Distinct(Keys(Dropped(list, locked)))
    ensures forall k :: k in Keys(Dropped(list, locked)) ==> k in Keys(list)
  {
    if list != [] {
      var x, rest, dropped := list[0], list[1..], Dropped(list[1..], locked);
      assert list == [x] + rest;
      KeysCons(x, rest);
      DroppedDistinct(rest, locked);
      if x.key !in locked {
        KeysCons(x, dropped);
      } else {
        assert Dropped(list, locked) == dropped;
      }
    }
  }

  lemma {:induction false} SuffixDistinct<V>(list: seq<Entry<V>>, n: nat)
    requires Distinct(Keys(list)) && n <= |list|
    ensures Distinct(Keys(list[n..]))
  {
    if n == 0 {
      assert list[0..] == list;
    } else {
      assert Keys(list)[1..] == Keys(list[1..]) && list[1..][n - 1..] == list[n..];
      SuffixDistinct(list[1..], n - 1);
    }
  }

  lemma {:induction false} RemovedMembers<V(!new)>(list: seq<Entry<V>>, key: Key)
    requires Distinct(Keys(list))
    ensures forall e :: e in Removed(list, key) <==> e in list && e.key != key
  {
    if list != [] {
      assert list == [list[0]] + list[1..] && Keys(list)[1..] == Keys(list[1..]);
      KeysOf(list[1..]);
      if list[0].key != key {
        RemovedMembers(list[1..], key);
      }
    }
  }

  // ----- The ghost list -----

  /** A ghost lookup leaves `key` in front, counted anew or with the count it had. */
  function GhostFront(list: seq<Entry<nat>>, cap: nat, key: Key, start: nat, known: nat -> nat): (r: seq<Entry<nat>>)
    ensures r != [] && r[0].key == key
  {
    if key in Keys(list) then [Entry(key, known(Find(list, key).value))] + Removed(list, key)
    else [Entry(key, start)] + Trimmed(list, cap, {})
  }

  function GhostEvict(list: seq<Entry<nat>>, cap: nat, key: Key, ghosted: nat): (r: seq<Entry<nat>>) {
    GhostFront(list, cap, key, ghosted + 1, n => n + 1)
  }

  /** The callback runs for the evicted entries back to front. */
  function GhostEvicts(list: seq<Entry<nat>>, cap: nat, evicted: seq<Entry<EntryPtr>>, pool: map<EntryPtr, LruEntry>)
    : (r: seq<Entry<nat>>)
    requires forall e :: e in evicted ==> e.value in pool
  {
    if evicted == [] then list
    else
      GhostEvict(GhostEvicts(list, cap, evicted[1..], pool), cap, evicted[0].key, pool[evicted[0].value].ghosted)
  }

  ghost function Ptrs(list: seq<Entry<EntryPtr>>): (r: set<EntryPtr>) {
    set e | e in list :: e.value
  }

  lemma PtrsStep(list: seq<Entry<EntryPtr>>, n: nat, pool: map<EntryPtr, LruEntry>)
    requires n < |list| && Distinct(Keys(list))
    requires forall e :: e in list ==> e.value in pool && pool[e.value].key == e.key
    ensures list[n..] == [list[n]] + list[n + 1..]
    ensures list[n].value !in Ptrs(list[n + 1..]) && Ptrs(list[n..]) == Ptrs(list[n + 1..]) + {list[n].value}
  {
    SuffixDistinct(list, n);
    assert Keys(list[n..])[1..] == Keys(list[n + 1..]);
    KeysOf(list[n + 1..]);
    assert list[n..] == [list[n]] + list[n + 1..];
  }

  // ----- Counts -----

  /** The entries on the list carry the counts that the log gives them. */
  ghost predicate EntriesTally(list: seq<Entry<EntryPtr>>, pool: map<EntryPtr, LruEntry>, log: seq<Note>) {
    forall e :: e in list ==> e.value in pool && pool[e.value].ghosted == Count(log, e.key)
  }

  lemma UpdateTally(list: seq<Entry<EntryPtr>>, pool: map<EntryPtr, LruEntry>, log: seq<Note>, p: EntryPtr, x: LruEntry)
    requires EntriesTally(list, pool, log) && p in pool && x.ghosted == pool[p].ghosted
    ensures EntriesTally(list, pool[p := x], log)
  {
  }

  lemma AwayTally(list: seq<Entry<EntryPtr>>, pool: map<EntryPtr, LruEntry>, log: seq<Note>, cap: nat, locked: set<Key>)
    requires EntriesTally(list, pool, log) && Distinct(Keys(list))
    ensures EntriesTally(TrimmedAway(list, cap, locked), pool, log)
  {
    TrimmedMembers(list, cap, locked);
  }

  /** After a trim, its evictions noted, the entries that are left carry the right counts. */
  lemma TrimTally(list: seq<Entry<EntryPtr>>, pool: map<EntryPtr, LruEntry>, log: seq<Note>, cap: nat, locked: set<Key>,
                  pool': map<EntryPtr, LruEntry>)
    requires EntriesTally(list, pool, log) && Distinct(Keys(list))
    requires forall e :: e in Trimmed(list, cap, locked) ==> e.value in pool && e.value in pool' && pool'[e.value] == pool[e.value]
    ensures var notes := Evictions(Keys(TrimmedAway(list, cap, locked)));
      EntriesTally(Trimmed(list, cap, locked), pool', log + notes)
      && Counted(log, log + notes, Keys(list), Keys(Trimmed(list, cap, locked)))
  {
    TrimmedMembers(list, cap, locked);
    TrimCounted(log, list, cap, locked);
    KeysOf(Trimmed(list, cap, locked));
  }

  /** The list behind a node that may stand in front for a key without its entry yet. */
  function Rest(list: seq<Entry<EntryPtr>>, stored: bool): (r: seq<Entry<EntryPtr>>) {
    if stored && list != [] then list[1..] else list
  }

  lemma RestTrims(list: seq<Entry<EntryPtr>>, cap: nat, locked: set<Key>, stored: bool)
    requires stored ==> list != [] && cap >= 1
    ensures var room := if stored then cap - 1 else cap;
      && Rest(Trimmed(list, cap, locked), stored) == Trimmed(Rest(list, stored), room, locked)
      && TrimmedAway(list, cap, locked) == TrimmedAway(Rest(list, stored), room, locked)
  {
  }

  lemma RestDistinct(list: seq<Entry<EntryPtr>>, pool: map<EntryPtr, LruEntry>, d: Cache, stored: bool, key: Key)
    requires NodeMirrors(list, pool, d, stored, key) && Distinct(d.order) && key !in d.slots
    ensures Distinct(Keys(Rest(list, stored))) && key !in Keys(Rest(list, stored))
    ensures forall e :: e in Rest(list, stored) ==> e.value in pool
    ensures forall k :: k in Keys(list) && k != key ==> k in Keys(Rest(list, stored))
    ensures forall k :: k in Keys(Rest(list, stored)) ==> k in Keys(list)
  {
    var rest := Rest(list, stored);
    if stored {
      assert d.order[1..] == Keys(rest);
      KeysFront(list);
    }
    assert forall i :: 0 <= i < |rest| ==> rest[i] in rest;
  }

  lemma NodeDistinct(c: Cache, key: Key, grow: bool)
    requires Inv(c) && key !in c.slots
    ensures Distinct(MakePlace(c, key, grow).order) && key !in MakePlace(c, key, grow).slots
  {
    MakePlaceAwaits(c, key, grow);
  }

  lemma SubKeys(a: seq<Entry<EntryPtr>>, b: seq<Entry<EntryPtr>>)
    requires forall e :: e in a ==> e in b
    ensures forall k :: k in Keys(a) ==> k in Keys(b)
  {
    KeysOf(b);
    forall k | k in Keys(a) ensures k in Keys(b) {
      var i :| 0 <= i < |a| && Keys(a)[i] == k;
      assert a[i] in a;
    }
  }

  lemma SubKeysBut(a: seq<Entry<EntryPtr>>, b: seq<Entry<EntryPtr>>, key: Key)
    requires forall e :: e in a ==> e.key == key || e in b
    ensures forall k :: k in Keys(a) && k != key ==> k in Keys(b)
  {
    KeysOf(b);
    forall k | k in Keys(a) && k != key ensures k in Keys(b) {
      var i :| 0 <= i < |a| && Keys(a)[i] == k;
      assert a[i] in a;
    }
  }

  /** What growing does to list, pool and log. */
  ghost predicate Grew(list0: seq<Entry<EntryPtr>>, pool0: map<EntryPtr, LruEntry>, log0: seq<Note>,
                       list: seq<Entry<EntryPtr>>, pool: map<EntryPtr, LruEntry>, log: seq<Note>, c: Cache, key: Key, stored: bool) {
    && NodeMirrors(list, pool, MakePlace(c, key, true), stored, key) && EntriesTally(Rest(list, stored), pool, log)
    && Counted(log0, log, Keys(Rest(list0, stored)), Keys(Rest(list, stored)))
    && (forall e :: e in Rest(list, stored) ==> e in Rest(list0, stored))
    && (forall p :: p in pool ==> p in pool0 && pool[p] == pool0[p])
  }

  /** Growing takes an entry or none from behind the node, and counts it. */
  lemma GrowTally(list: seq<Entry<EntryPtr>>, pool: map<EntryPtr, LruEntry>, log: seq<Note>, c: Cache, key: Key, stored: bool)
    requires Inv(c) && key !in c.slots && stored == (c.capacity != 0)
    requires NodeMirrors(list, pool, ReserveNode(c, key), stored, key) && EntriesTally(Rest(list, stored), pool, log)
    requires var cap := Clamp(c.capacity + 1, c.minCapacity, c.maxCapacity);
      NodeMirrors(Trimmed(list, cap, Locked(c)), pool - Ptrs(TrimmedAway(list, cap, Locked(c))), MakePlace(c, key, true), stored, key)
    ensures var cap := Clamp(c.capacity + 1, c.minCapacity, c.maxCapacity);
      var now, away := Trimmed(list, cap, Locked(c)), TrimmedAway(list, cap, Locked(c));
      var longer := log + Evictions(Keys(away));
      EntriesTally(away, pool, log) && Grew(list, pool, log, now, pool - Ptrs(away), longer, c, key, stored)
  {
    var cap, locked := Clamp(c.capacity + 1, c.minCapacity, c.maxCapacity), Locked(c);
    var room, rest := if stored then cap - 1 else cap, Rest(list, stored);
    GrowthClamped(c);
    NodeDistinct(c, key, false);
    RestDistinct(list, pool, ReserveNode(c, key), stored, key);
    RestTrims(list, cap, locked, stored);
    AwayTally(rest, pool, log, room, locked);
    TrimmedWithin(list, cap, locked);
    TrimmedWithin(rest, room, locked);
    NodeDistinct(c, key, true);
    RestDistinct(Trimmed(list, cap, locked), pool - Ptrs(TrimmedAway(list, cap, locked)), MakePlace(c, key, true), stored, key);
    TrimTally(rest, pool, log, room, locked, pool - Ptrs(TrimmedAway(list, cap, locked)));
  }

  /** A note on a key that is not on the list changes none of its counts. */
  lemma OtherTally(list: seq<Entry<EntryPtr>>, pool: map<EntryPtr, LruEntry>, log: seq<Note>, note: Note)
    requires EntriesTally(list, pool, log) && note.key !in Keys(list)
    ensures EntriesTally(list, pool, log + [note])
  {
    KeysOf(list);
    forall e | e in list ensures pool[e.value].ghosted == Count(log + [note], e.key) {
      Noted(log, note, e.key);
    }
  }

  lemma GhostFrontTouches(list: seq<Entry<nat>>, cap: nat, key: Key, start: nat, known: nat -> nat)
    requires cap > 0
    ensures Keys(GhostFront(list, cap, key, start, known)) == Touch(Keys(list), cap, key)
    ensures forall e :: e in GhostFront(list, cap, key, start, known)[1..] ==> e in list
  {
    var r := GhostFront(list, cap, key, start, known);
    KeysFront(r);
    if key in Keys(list) {
      assert r[1..] == Removed(list, key);
      RemovedKeys(list, key);
      RemovedWithin(list, key);
    } else {
      assert r[1..] == Trimmed(list, cap, {});
      MissedTouches(list, cap);
      TrimmedWithin(list, cap, {});
    }
  }

  lemma GhostCounts(list: seq<Entry<nat>>, key: Key, log: seq<Note>)
    requires Remembers(list, log) && key in Keys(list)
    ensures Find(list, key).value == Count(log, key)
  {
    assert Find(list, key) in list;
  }

  /** The callback's work keeps the ghosts right, if the entry that goes carries the right count. */
  lemma EvictRemembered(list: seq<Entry<nat>>, cap: nat, key: Key, ghosted: nat, log: seq<Note>)
    requires Remembers(list, log) && cap >= GHOSTS_MIN_CAPACITY && ghosted == Count(log, key)
    ensures Remembers(GhostEvict(list, cap, key, ghosted), log + [Evicted(key)])
  {
    GhostFrontTouches(list, cap, key, ghosted + 1, n => n + 1);
    EvictHead(list, cap, key, ghosted, log);
    EvictNoted(list, GhostEvict(list, cap, key, ghosted), log, key, cap);
  }

  lemma EvictHead(list: seq<Entry<nat>>, cap: nat, key: Key, ghosted: nat, log: seq<Note>)
    requires Remembers(list, log) && ghosted == Count(log, key)
    ensures var now := GhostEvict(list, cap, key, ghosted); now != [] && now[0] == Entry(key, Count(log, key) + 1)
  {
    if key in Keys(list) { GhostCounts(list, key, log); }
  }

  lemma EvictNoted(was: seq<Entry<nat>>, now: seq<Entry<nat>>, log: seq<Note>, key: Key, cap: nat)
    requires Remembers(was, log) && cap >= GHOSTS_MIN_CAPACITY && Keys(now) == Touch(Keys(was), cap, key)
    requires now != [] && now[0] == Entry(key, Count(log, key) + 1) && forall e :: e in now[1..] ==> e in was
    ensures Remembers(now, log + [Evicted(key)])
  {
    Noted(log, Evicted(key), key);
    UseRemembered(was, now, log, Evicted(key), cap);
  }

  lemma AskRemembered(list: seq<Entry<nat>>, cap: nat, key: Key, log: seq<Note>)
    requires Remembers(list, log) && cap >= GHOSTS_MIN_CAPACITY
    ensures var note := if key in Keys(list) then Asked(key) else Forgotten(key);
      Remembers(GhostFront(list, cap, key, 0, n => n), log + [note])
    ensures key in Keys(list) ==> Find(list, key).value == Count(log, key)
  {
    var note := if key in Keys(list) then Asked(key) else Forgotten(key);
    var now := GhostFront(list, cap, key, 0, n => n);
    GhostFrontTouches(list, cap, key, 0, n => n);
    Noted(log, note, key);
    if key in Keys(list) { GhostCounts(list, key, log); }
    UseRemembered(list, now, log, note, cap);
  }

  lemma OneRewritten(was: seq<Entry<nat>>, now: seq<Entry<nat>>, key: Key, value: nat, i: nat)
    requires Distinct(Keys(was)) && i < |was| && was[i].key == key && now == was[i := Entry(key, value)]
    ensures Keys(now) == Keys(was)
    ensures forall e :: e in now ==> if e.key == key then e.value == value else e in was
  {
    forall e | e in now ensures if e.key == key then e.value == value else e in was {
      var j :| 0 <= j < |now| && now[j] == e;
      if e.key == key && j != i {
        DistinctAt(Keys(was), i, j);
      }
    }
  }

  lemma RefuseRemembered(was: seq<Entry<nat>>, now: seq<Entry<nat>>, key: Key, log: seq<Note>)
    requires Remembers(was, log)
    requires exists i :: 0 <= i < |was| && was[i].key == key && now == was[i := Entry(key, Count(log, key) + 1)]
    ensures Remembers(now, log + [Refused(key)])
  {
    var i :| 0 <= i < |was| && was[i].key == key && now == was[i := Entry(key, Count(log, key) + 1)];
    OneRewritten(was, now, key, Count(log, key) + 1, i);
    RefusalRemembered(was, now, log, key);
  }

  lemma {:induction false} DistinctAt(s: seq<Key>, i: nat, j: nat)
    requires Distinct(s) && i < |s| && j < |s| && i != j
    ensures s[i] != s[j]
    decreases s
  {
    if i > 0 && j > 0 {
      DistinctAt(s[1..], i - 1, j - 1);
    } else {
      assert s == [s[0]] + s[1..];
    }
  }

  /** The entries on the list live in the pool and are what the protocol's slots say. */
  ghost predicate EntriesMatch(list: seq<Entry<EntryPtr>>, pool: map<EntryPtr, LruEntry>, slots: map<Key, Slot>) {
    forall e :: e in list ==>
      e.value in pool && pool[e.value].key == e.key && e.key in slots && slots[e.key] == SlotOf(pool[e.value])
  }

  ghost predicate Mirrors(list: seq<Entry<EntryPtr>>, pool: map<EntryPtr, LruEntry>, c: Cache) {
    Keys(list) == c.order && EntriesMatch(list, pool, c.slots)
  }

  lemma TrimMatch(list: seq<Entry<EntryPtr>>, pool: map<EntryPtr, LruEntry>, slots: map<Key, Slot>,
                  cap: nat, locked: set<Key>, slots': map<Key, Slot>)
    requires EntriesMatch(list, pool, slots) && Distinct(Keys(list))
    requires forall k :: k in slots && k in Keys(Trimmed(list, cap, locked)) ==> k in slots' && slots'[k] == slots[k]
    ensures EntriesMatch(Trimmed(list, cap, locked), pool - Ptrs(TrimmedAway(list, cap, locked)), slots')
  {
    TrimmedMembers(list, cap, locked);
    KeysOf(Trimmed(list, cap, locked));
  }

  lemma UpdateMatch(list: seq<Entry<EntryPtr>>, pool: map<EntryPtr, LruEntry>, slots: map<Key, Slot>,
                    p: EntryPtr, x: LruEntry)
    requires EntriesMatch(list, pool, slots) && p in pool && x.key == pool[p].key
    requires Entry(x.key, p) in list && Distinct(Keys(list))
    ensures EntriesMatch(list, pool[p := x], slots[x.key := SlotOf(x)])
  {
    forall e | e in list && e.key == x.key ensures e.value == p {
      SameKeySameEntry(list, e, Entry(x.key, p));
    }
  }

  /** `p` points at the entry cached for its key, and that key is among `keys`. */
  ghost predicate PointsInto(list: seq<Entry<EntryPtr>>, pool: map<EntryPtr, LruEntry>, keys: multiset<Key>, p: EntryPtr) {
    p in pool && Entry(pool[p].key, p) in list && pool[p].key in keys
  }

  /** Work on one entry leaves every pointer to the others good. */
  lemma OthersStillPoint(list: seq<Entry<EntryPtr>>, pool: map<EntryPtr, LruEntry>, p: EntryPtr, x: LruEntry,
                         keys: multiset<Key>, keys': multiset<Key>)
    requires p in pool && x.key == pool[p].key && Entry(x.key, p) in list && Distinct(Keys(list))
    requires forall k :: k != x.key ==> keys[k] == keys'[k]
    ensures forall q :: q != p && PointsInto(list, pool, keys, q) ==> PointsInto(list, pool[p := x], keys', q)
  {
    forall q | q != p && PointsInto(list, pool, keys, q) ensures pool[q].key != x.key {
      if pool[q].key == x.key {
        SameKeySameEntry(list, Entry(x.key, q), Entry(x.key, p));
      }
    }
  }

  lemma RemovalMirrors(list: seq<Entry<EntryPtr>>, pool: map<EntryPtr, LruEntry>, c: Cache, key: Key)
    requires Mirrors(list, pool, c) && Distinct(c.order) && key in c.slots && c.slots[key].locks == 1
    ensures Mirrors(Removed(list, key), pool, Rollback(c, key))
  {
    RemovedMembers(list, key);
    RemovedKeys(list, key);
  }

  lemma RemovalPoints(list: seq<Entry<EntryPtr>>, pool: map<EntryPtr, LruEntry>, h: EntryPtr,
                      keys: multiset<Key>, keys': multiset<Key>)
    requires h in pool && Entry(pool[h].key, h) in list && Distinct(Keys(list))
    requires forall k :: k != pool[h].key ==> keys[k] == keys'[k]
    ensures !PointsInto(Removed(list, pool[h].key), pool, keys', h)
    ensures forall q :: q != h && PointsInto(list, pool, keys, q) ==> PointsInto(Removed(list, pool[h].key), pool, keys', q)
  {
    RemovedMembers(list, pool[h].key);
    OthersStillPoint(list, pool, h, pool[h], keys, keys');
    forall q | q != h && PointsInto(list, pool, keys, q) ensures pool[q].key != pool[h].key {
      if pool[q].key == pool[h].key {
        SameKeySameEntry(list, Entry(pool[q].key, q), Entry(pool[q].key, h));
      }
    }
  }

  lemma TrimMirrors(list: seq<Entry<EntryPtr>>, pool: map<EntryPtr, LruEntry>, c: Cache, cap: nat)
    requires Mirrors(list, pool, c) && Distinct(c.order)
    ensures var away := TrimmedAway(list, cap, Locked(c));
      && Distinct(Keys(away)) && (forall e :: e in away ==> e.value in pool && pool[e.value].key == e.key)
      && Mirrors(Trimmed(list, cap, Locked(c)), pool - Ptrs(away), TrimTo(c, cap))
  {
    TrimmedMembers(list, cap, Locked(c));
    TrimmedKeys(list, cap, Locked(c));
    TrimMatch(list, pool, c.slots, cap, Locked(c), TrimTo(c, cap).slots);
  }

  /** Pointers to locked entries survive a trim. */
  lemma TrimPoints(list: seq<Entry<EntryPtr>>, pool: map<EntryPtr, LruEntry>, cap: nat, locked: set<Key>, keys: multiset<Key>)
    requires Distinct(Keys(list)) && forall e :: e in list ==> e.value in pool && pool[e.value].key == e.key
    requires forall k :: k in keys ==> k in locked
    ensures forall q :: PointsInto(list, pool, keys, q)
              ==> PointsInto(Trimmed(list, cap, locked), pool - Ptrs(TrimmedAway(list, cap, locked)), keys, q)
  {
    TrimmedMembers(list, cap, locked);
  }

  /** The list and the pool while the node in front may still lack its entry. */
  ghost predicate NodeMirrors(list: seq<Entry<EntryPtr>>, pool: map<EntryPtr, LruEntry>, d: Cache, reserved: bool, key: Key) {
    if reserved then
      list != [] && list[0].key == key && d.order == [key] + Keys(list[1..]) && EntriesMatch(list[1..], pool, d.slots)
    else Mirrors(list, pool, d)
  }

  lemma ReserveMirrors(list: seq<Entry<EntryPtr>>, pool: map<EntryPtr, LruEntry>, c: Cache, key: Key, node: Entry<EntryPtr>)
    requires Mirrors(Trimmed(list, c.capacity, Locked(c)), pool, TrimTo(c, c.capacity)) && node.key == key
    ensures var rest := Trimmed(list, c.capacity, Locked(c));
      NodeMirrors(if c.capacity != 0 then [node] + rest else rest, pool, ReserveNode(c, key), c.capacity != 0, key)
  {
    if c.capacity != 0 {
      assert ([node] + Trimmed(list, c.capacity, Locked(c)))[1..] == Trimmed(list, c.capacity, Locked(c));
    }
  }

  lemma GrowMirrors(list: seq<Entry<EntryPtr>>, pool: map<EntryPtr, LruEntry>, d: Cache, reserved: bool, key: Key, newCap: nat)
    requires NodeMirrors(list, pool, d, reserved, key) && Distinct(d.order)
    requires reserved ==> Clamp(newCap, d.minCapacity, d.maxCapacity) >= 1
    ensures var cap := Clamp(newCap, d.minCapacity, d.maxCapacity);
      var away := TrimmedAway(list, cap, Locked(d));
      && Distinct(Keys(away)) && (forall e :: e in away ==> e.value in pool && pool[e.value].key == e.key && e.key in d.slots)
      && NodeMirrors(Trimmed(list, cap, Locked(d)), pool - Ptrs(away), Resize(d, newCap), reserved, key)
  {
    var cap := Clamp(newCap, d.minCapacity, d.maxCapacity);
    assert Locked(d.(requested := newCap)) == Locked(d);
    if reserved {
      assert d.order[1..] == Keys(list[1..]);
      TrimmedMembers(list[1..], cap - 1, Locked(d));
      TrimmedKeys(list[1..], cap - 1, Locked(d));
      ReservedNodeSurvives(d.order[1..], key, cap, Locked(d));
      TrimMatch(list[1..], pool, d.slots, cap - 1, Locked(d), Resize(d, newCap).slots);
    } else {
      TrimMirrors(list, pool, d.(requested := newCap), cap);
      TrimmedMembers(list, cap, Locked(d));
    }
  }

  lemma GrowStep(list: seq<Entry<EntryPtr>>, pool: map<EntryPtr, LruEntry>, c: Cache, key: Key, reserved: bool)
    requires Inv(c) && key !in c.slots && reserved == (c.capacity != 0)
    requires NodeMirrors(list, pool, ReserveNode(c, key), reserved, key)
    ensures var cap := Clamp(c.capacity + 1, c.minCapacity, c.maxCapacity);
      var away := TrimmedAway(list, cap, Locked(c));
      && Distinct(Keys(away))
      && (forall e :: e in away ==> e.value in pool && pool[e.value].key == e.key && e.key != key)
      && NodeMirrors(Trimmed(list, cap, Locked(c)), pool - Ptrs(away), MakePlace(c, key, true), reserved, key)
  {
    var d := ReserveNode(c, key);
    GrowthClamped(c);
    ReserveNodeAwaits(c, key);
    LockedSurvive(c, c.capacity);
    assert Locked(d) == Locked(c) && key !in d.slots;
    assert d.capacity == c.capacity && d.minCapacity == c.minCapacity && d.maxCapacity == c.maxCapacity;
    assert MakePlace(c, key, true) == Resize(d, c.capacity + 1);
    GrowMirrors(list, pool, d, reserved, key, c.capacity + 1);
  }

  lemma Growing(list: seq<Entry<EntryPtr>>, pool: map<EntryPtr, LruEntry>, log: seq<Note>, c: Cache, key: Key, stored: bool)
    requires Inv(c) && key !in c.slots && stored == (c.capacity != 0)
    requires NodeMirrors(list, pool, ReserveNode(c, key), stored, key) && EntriesTally(Rest(list, stored), pool, log)
    ensures var cap := Clamp(c.capacity + 1, c.minCapacity, c.maxCapacity);
      var now, away := Trimmed(list, cap, Locked(c)), TrimmedAway(list, cap, Locked(c));
      && Distinct(Keys(away)) && (forall e :: e in away ==> e.value in pool && pool[e.value].key == e.key && e.key != key)
      && EntriesTally(away, pool, log)
      && Grew(list, pool, log, now, pool - Ptrs(away), log + Evictions(Keys(away)), c, key, stored)
  {
    GrowStep(list, pool, c, key, stored);
    GrowTally(list, pool, log, c, key, stored);
  }

  lemma AttachMirrors(list: seq<Entry<EntryPtr>>, pool: map<EntryPtr, LruEntry>, d: Cache, key: Key, p: EntryPtr, ghosted: nat)
    requires NodeMirrors(list, pool, d, true, key) && p !in pool && Distinct(d.order)
    ensures Mirrors([Entry(key, p)] + list[1..], pool[p := LruEntry(key, None, 1, ghosted, Empty)], Attach(d, key))
  {
    KeysCons(Entry(key, p), list[1..]);
    assert d.order[1..] == Keys(list[1..]);
    KeysOf(list[1..]);
  }

  lemma HeldAreLocked(c: Cache)
    requires Inv(c)
    ensures forall k :: k in c.handles || k in c.waiters ==> k in Locked(c)
  {
    forall k | k in c.handles || k in c.waiters ensures k in Locked(c) {
      assert SlotInv(c, k);
    }
  }

  lemma {:induction false} NothingDropped<V(!new)>(list: seq<Entry<V>>, locked: set<Key>)
    requires forall e :: e in list ==> e.key in locked
    ensures Dropped(list, locked) == []
  {
    if list != [] { NothingDropped(list[1..], locked); }
  }

  lemma {:induction false} NoneToDrop(list: seq<Entry<EntryPtr>>, cap: nat, locked: set<Key>, newCap: nat)
    requires cap <= newCap
    ensures TrimmedAway(Trimmed(list, cap, locked), newCap, locked) == []
  {
    if cap == 0 {
      KeptMembers(list, locked);
      LockedStay(Kept(list, locked), newCap, locked);
    } else if list != [] {
      NoneToDrop(list[1..], cap - 1, locked, newCap - 1);
      assert Trimmed(list, cap, locked)[1..] == Trimmed(list[1..], cap - 1, locked);
    }
  }

  lemma {:induction false} LockedStay(list: seq<Entry<EntryPtr>>, cap: nat, locked: set<Key>)
    requires forall e :: e in list ==> e.key in locked
    ensures TrimmedAway(list, cap, locked) == []
  {
    if list != [] { LockedStay(list[1..], if cap > 0 then cap - 1 else 0, locked); }
  }

  lemma {:induction false} OneMayDrop(list: seq<Entry<EntryPtr>>, cap: nat, locked: set<Key>)
    ensures |TrimmedAway(Trimmed(list, cap + 1, locked), cap, locked)| <= 1
  {
    if list != [] {
      var rest := Trimmed(list[1..], cap, locked);
      assert Trimmed(list, cap + 1, locked) == [list[0]] + rest && ([list[0]] + rest)[1..] == rest;
      if cap == 0 {
        NoneToDrop(list[1..], 0, locked, 0);
      } else {
        OneMayDrop(list[1..], cap - 1, locked);
      }
    }
  }

  /** After a lookup has trimmed the list and put a node in front, growing evicts at most one entry:
      the one that the new node has pushed over the capacity. */
  lemma GrowingEvictsAtMostOne(list: seq<Entry<EntryPtr>>, cap: nat, locked: set<Key>, node: Entry<EntryPtr>, newCap: nat)
    requires cap <= newCap
    ensures cap == 0 ==> TrimmedAway(Trimmed(list, cap, locked), newCap, locked) == []
    ensures cap > 0 ==> |TrimmedAway([node] + Trimmed(list, cap, locked), newCap, locked)| <= 1
  {
    var rest := Trimmed(list, cap, locked);
    if cap == 0 {
      NoneToDrop(list, 0, locked, newCap);
    } else {
      assert ([node] + rest)[1..] == rest;
      if newCap == cap {
        OneMayDrop(list, cap - 1, locked);
      } else {
        NoneToDrop(list, cap, locked, newCap - 1);
      }
    }
  }

  lemma FrontStays<V(!new)>(x: Entry<V>, rest: seq<Entry<V>>, cap: nat)
    requires cap >= 1
    ensures Trimmed([x] + rest, cap, {}) == [x] + Trimmed(rest, cap - 1, {})
    ensures x.key in Keys(Trimmed([x] + rest, cap, {}))
  {
    assert ([x] + rest)[1..] == rest;
    KeysCons(x, Trimmed(rest, cap - 1, {}));
  }

  /** The ghost of `key` stays within the first two places while at most one other key is counted. */
  lemma GhostStays(list: seq<Entry<nat>>, cap: nat, evicted: seq<Entry<EntryPtr>>, pool: map<EntryPtr, LruEntry>, key: Key, newCap: nat)
    requires list != [] && list[0].key == key && cap >= 2 && newCap >= 2
    requires forall e :: e in evicted ==> e.value in pool && e.key != key
    requires |evicted| <= 1
    ensures key in Keys(Trimmed(GhostEvicts(list, cap, evicted, pool), newCap, {}))
  {
    var x, rest := list[0], list[1..];
    assert list == [x] + rest;
    if evicted == [] {
      FrontStays(x, rest, newCap);
    } else {
      assert evicted[0] in evicted && GhostEvicts(list, cap, evicted[1..], pool) == list;
      var behind := if evicted[0].key in Keys(list) then Removed(rest, evicted[0].key) else Trimmed(rest, cap - 1, {});
      FrontStays(x, rest, cap);
      var after := GhostEvicts(list, cap, evicted, pool);
      assert after == [after[0]] + ([x] + behind);
      FrontStays(after[0], [x] + behind, newCap);
      FrontStays(x, behind, newCap - 1);
      KeysCons(after[0], Trimmed([x] + behind, newCap - 1, {}));
    }
  }

  lemma FrontSplit<V>(list: seq<Entry<V>>)
    requires list != []
    ensures list == [list[0]] + list[1..]
  {
  }

  lemma FrontIsKnown(list: seq<Entry<nat>>, key: Key)
    requires list != [] && list[0].key == key
    ensures key in Keys(list) && Find(list, key) == list[0]
  {
    assert Keys(list)[0] == key;
  }

  lemma {:induction false} TrimmedWithin<V(!new)>(list: seq<Entry<V>>, cap: nat, locked: set<Key>)
    ensures forall e :: e in Trimmed(list, cap, locked) ==> e in list
  {
    if cap == 0 {
      KeptMembers(list, locked);
    } else if list != [] {
      TrimmedWithin(list[1..], cap - 1, locked);
      assert list == [list[0]] + list[1..];
    }
  }

  lemma TailWithin<V(!new)>(x: Entry<V>, list: seq<Entry<V>>)
    requires list != []
    ensures forall e :: e in [x] + list[1..] ==> e == x || e in list
  {
    assert list == [list[0]] + list[1..];
  }

  lemma TouchMirrors(list: seq<Entry<EntryPtr>>, pool: map<EntryPtr, LruEntry>, c: Cache, key: Key)
    requires Mirrors(list, pool, c) && key in Keys(list)
    ensures Mirrors([Find(list, key)] + Removed(list, key), pool, Touched(c, key))
    ensures forall e :: e in [Find(list, key)] + Removed(list, key) ==> e in list
  {
    KeysCons(Find(list, key), Removed(list, key));
    RemovedKeys(list, key);
    RemovedWithin(list, key);
  }

  lemma {:induction false} RemovedWithin<V(!new)>(list: seq<Entry<V>>, key: Key)
    ensures forall e :: e in Removed(list, key) ==> e in list
  {
    if list != [] {
      assert list == [list[0]] + list[1..];
      RemovedWithin(list[1..], key);
    }
  }

  /** While every entry on the list is an old one or for the new key, a pointer to a key that stays
      listed still points at that key's entry. */
  lemma StillPoints(list0: seq<Entry<EntryPtr>>, pool0: map<EntryPtr, LruEntry>, c0: Cache, keys0: multiset<Key>,
                    list: seq<Entry<EntryPtr>>, pool: map<EntryPtr, LruEntry>, c: Cache, keys: multiset<Key>, key: Key)
    requires Mirrors(list0, pool0, c0) && Distinct(c0.order) && Mirrors(list, pool, c) && Inv(c)
    requires forall e :: e in list ==> e in list0 || (e.key == key && key !in keys0)
    requires forall k :: k in keys0 ==> k in keys && k in c.slots
    ensures forall p :: PointsInto(list0, pool0, keys0, p) ==> PointsInto(list, pool, keys, p) && pool[p].key == pool0[p].key
  {
    forall p | PointsInto(list0, pool0, keys0, p)
      ensures PointsInto(list, pool, keys, p) && pool[p].key == pool0[p].key
    {
      var k := pool0[p].key;
      assert k in Keys(list);
      var i :| 0 <= i < |list| && Keys(list)[i] == k;
      assert list[i] in list && list[i] in list0;
      SameKeySameEntry(list0, list[i], Entry(k, p));
    }
  }

  /** The entry whose turn it is to go has not been counted by those that went before it. */
  lemma NotYetEvicted(evicted: seq<Entry<EntryPtr>>, n: nat, log: seq<Note>)
    requires n < |evicted| && Distinct(Keys(evicted))
    ensures Count(log + Evictions(Keys(evicted)[n + 1..]), evicted[n].key) == Count(log, evicted[n].key)
  {
    var keys := Keys(evicted);
    SuffixDistinct(evicted, n);
    assert Keys(evicted[n..]) == keys[n..] && keys[n..][1..] == keys[n + 1..];
    EvictionsCount(log, keys[n + 1..], keys[n]);
  }

  // ----- The class -----

  class LruCache {
    const mode: CacheMode
    const mainCache: SimpleLruCache<EntryPtr>
    const ghosts: SimpleLruCache<nat>
    var entryPool: map<EntryPtr, LruEntry>
    var nextPtr: EntryPtr

    /** The state of the protocol this object is in, and what the ghosts are to remember. */
    ghost var state: Cache
    ghost var log: seq<Note>

    ghost predicate EntriesTallied()
      reads this, mainCache
    {
      EntriesTally(mainCache.cache, entryPool, log)
    }

    /** Ghosts and entries count right. */
    ghost predicate Tallied()
      reads this, mainCache, ghosts
    {
      Remembers(ghosts.cache, log) && EntriesTallied()
    }

    ghost predicate SameCapacities(c: Cache)
      reads mainCache
    {
      && mainCache.minCapacity == c.minCapacity && mainCache.maxCapacity == c.maxCapacity
      && mainCache.requestedCapacity == c.requested && mainCache.realCapacity == c.capacity
    }

    /** Everything but the protocol's own invariant, for protocol state `c`. */
    ghost predicate Behaves(c: Cache)
      reads this, mainCache, ghosts
    {
      && mainCache != ghosts
      && SameCapacities(c) && Mirrors(mainCache.cache, entryPool, c)
      && (forall p :: p in entryPool ==> p < nextPtr)
      && ghosts.minCapacity == 0 && ghosts.maxCapacity == SIZE_MAX && GHOSTS_MIN_CAPACITY <= ghosts.realCapacity
    }

    ghost predicate Valid()
      reads this, mainCache, ghosts
    {
      Inv(state) && Behaves(state)
    }

    ghost method Become(c: Cache)
      requires Inv(c) && Behaves(c)
      modifies this`state
      ensures Valid() && state == c
    {
      state := c;
    }

    /** `h` points at the cached entry of its key, which somebody has reserved. */
    ghost predicate Holds(h: EntryPtr)
      reads this, mainCache
    {
      PointsInto(mainCache.cache, entryPool, state.handles, h)
    }

    /** A thread sleeps on the entry at `p`. */
    ghost predicate Awaits(p: EntryPtr)
      reads this, mainCache
    {
      PointsInto(mainCache.cache, entryPool, state.waiters, p)
    }

    constructor (capacity: nat, mode: CacheMode)
      requires capacity <= SIZE_MAX
      ensures Valid() && fresh(mainCache) && fresh(ghosts)
      ensures state == Init(capacity) && this.mode == mode && Tallied() && log == []
    {
      this.mode := mode;
      mainCache := new SimpleLruCache<EntryPtr>(capacity);
      ghosts := new SimpleLruCache<nat>(GHOSTS_MIN_CAPACITY);
      entryPool, nextPtr := map[], 0;
      state, log := Init(capacity), [];
      new;
      InitInv(capacity);
    }

    /** The keys for which the eviction callback answers no. */
    function LockedKeys(): (r: set<Key>)
      requires Valid()
      reads this, mainCache, ghosts
      ensures r == Locked(state)
    {
      LockedAreLocked();
      set i | 0 <= i < |mainCache.cache| && entryPool[mainCache.cache[i].value].locks > 0 :: mainCache.cache[i].key
    }

    lemma LockedAreLocked()
      requires Valid()
      ensures forall i :: 0 <= i < |mainCache.cache| ==> mainCache.cache[i].value in entryPool
      ensures (set i | 0 <= i < |mainCache.cache| && entryPool[mainCache.cache[i].value].locks > 0 :: mainCache.cache[i].key)
              == Locked(state)
    {
      forall i | 0 <= i < |mainCache.cache| ensures mainCache.cache[i].value in entryPool {
        assert mainCache.cache[i] in mainCache.cache;
      }
      forall k | k in Locked(state)
        ensures exists i :: 0 <= i < |mainCache.cache| && entryPool[mainCache.cache[i].value].locks > 0 && mainCache.cache[i].key == k
      {
        assert k in Keys(mainCache.cache);
        var i :| 0 <= i < |mainCache.cache| && Keys(mainCache.cache)[i] == k;
        assert mainCache.cache[i] in mainCache.cache;
      }
    }

    /** The work of `MainEvictEvent` for the entries it lets go: count them among the ghosts, return
        their storage to the pool. */
    method OnEvict(evicted: seq<Entry<EntryPtr>>)
      requires Distinct(Keys(evicted))
      requires forall e :: e in evicted ==> e.value in entryPool && entryPool[e.value].key == e.key
      requires GHOSTS_MIN_CAPACITY <= ghosts.realCapacity && Remembers(ghosts.cache, log) && EntriesTally(evicted, entryPool, log)
      modifies ghosts, this`entryPool, this`log
      ensures log == old(log) + Evictions(Keys(evicted)) && Remembers(ghosts.cache, log)
      ensures ghosts.realCapacity == old(ghosts.realCapacity)
      ensures ghosts.minCapacity == old(ghosts.minCapacity) && ghosts.maxCapacity == old(ghosts.maxCapacity)
      ensures ghosts.cache == GhostEvicts(old(ghosts.cache), ghosts.realCapacity, evicted, old(entryPool))
      ensures entryPool == old(entryPool) - Ptrs(evicted)
    {
      ghost var g0, pool, log0 := ghosts.cache, entryPool, log;
      var n := |evicted|;
      assert Departed(evicted, n, g0, pool, log0);
      while n > 0
        invariant 0 <= n <= |evicted| && Departed(evicted, n, g0, pool, log0)
        invariant GHOSTS_MIN_CAPACITY <= ghosts.realCapacity == old(ghosts.realCapacity)
        invariant ghosts.minCapacity == old(ghosts.minCapacity) && ghosts.maxCapacity == old(ghosts.maxCapacity)
      {
        n := n - 1;
        Depart(evicted, n, g0, pool, log0);
      }
      assert evicted[0..] == evicted && Keys(evicted)[0..] == Keys(evicted);
    }

    /** The entries from the n-th on have gone. */
    ghost predicate Departed(evicted: seq<Entry<EntryPtr>>, n: nat, g0: seq<Entry<nat>>, pool: map<EntryPtr, LruEntry>, log0: seq<Note>)
      requires n <= |evicted| && forall e :: e in evicted ==> e.value in pool
      reads this, ghosts
    {
      && log == log0 + Evictions(Keys(evicted)[n..]) && Remembers(ghosts.cache, log)
      && ghosts.cache == GhostEvicts(g0, ghosts.realCapacity, evicted[n..], pool)
      && entryPool == pool - Ptrs(evicted[n..])
    }

    method Depart(evicted: seq<Entry<EntryPtr>>, n: nat, ghost g0: seq<Entry<nat>>, ghost pool: map<EntryPtr, LruEntry>, ghost log0: seq<Note>)
      requires n < |evicted| && Distinct(Keys(evicted)) && GHOSTS_MIN_CAPACITY <= ghosts.realCapacity
      requires forall e :: e in evicted ==> e.value in pool && pool[e.value].key == e.key
      requires EntriesTally(evicted, pool, log0) && Departed(evicted, n + 1, g0, pool, log0)
      modifies ghosts, this`entryPool, this`log
      ensures Departed(evicted, n, g0, pool, log0) && ghosts.realCapacity == old(ghosts.realCapacity)
      ensures ghosts.minCapacity == old(ghosts.minCapacity) && ghosts.maxCapacity == old(ghosts.maxCapacity)
    {
      var e := evicted[n];
      PtrsStep(evicted, n, pool);
      NotYetEvicted(evicted, n, log0);
      EvictionNext(log0, Keys(evicted), n);
      GhostStep(e.key, entryPool[e.value].ghosted);
      entryPool := entryPool - {e.value};
    }

    method GhostStep(key: Key, ghosted: nat)
      requires GHOSTS_MIN_CAPACITY <= ghosts.realCapacity && Remembers(ghosts.cache, log) && ghosted == Count(log, key)
      modifies ghosts, this`log
      ensures log == old(log) + [Evicted(key)] && Remembers(ghosts.cache, log)
      ensures ghosts.cache == GhostEvict(old(ghosts.cache), ghosts.realCapacity, key, ghosted)
      ensures ghosts.realCapacity == old(ghosts.realCapacity)
      ensures ghosts.minCapacity == old(ghosts.minCapacity) && ghosts.maxCapacity == old(ghosts.maxCapacity)
    {
      EvictRemembered(ghosts.cache, ghosts.realCapacity, key, ghosted, log);
      BumpGhost(key, ghosted);
      log := log + [Evicted(key)];
    }

    method BumpGhost(key: Key, ghosted: nat)
      requires GHOSTS_MIN_CAPACITY <= ghosts.realCapacity
      modifies ghosts
      ensures ghosts.cache == GhostEvict(old(ghosts.cache), ghosts.realCapacity, key, ghosted)
      ensures ghosts.realCapacity == old(ghosts.realCapacity)
      ensures ghosts.minCapacity == old(ghosts.minCapacity) && ghosts.maxCapacity == old(ghosts.maxCapacity)
    {
      var ghostFound, stored, _ := ghosts.Lookup(key, false, {});
      if !ghostFound {
        ghosts.SetFront(ghosted + 1);
      } else {
        ghosts.SetFront(ghosts.cache[0].value + 1);
      }
    }

    /** Evicted entries leave the pool. */
    method Relimit(min: nat, max: nat)
      requires Valid() && Tallied()
      modifies this`entryPool, this`state, this`log, mainCache, ghosts
      ensures Tallied() && Counted(old(log), log, Keys(old(mainCache.cache)), Keys(mainCache.cache))
      ensures Valid() && state == CacheProtocol.SetLimits(old(state), min, max)
      ensures var cap := Clamp(old(state).requested, min, max);
        && mainCache.cache == Trimmed(old(mainCache.cache), cap, Locked(old(state)))
        && entryPool == old(entryPool) - Ptrs(TrimmedAway(old(mainCache.cache), cap, Locked(old(state))))
    {
      SetLimitsInv(state, min, max);
      ghost var cap := Clamp(state.requested, min, max);
      TrimMirrors(mainCache.cache, entryPool, state.(minCapacity := min, maxCapacity := max), cap);
      var refused := LockedKeys();
      ghost var list0, pool0, log0 := mainCache.cache, entryPool, log;
      AwayTally(list0, pool0, log0, cap, refused);
      var evicted := mainCache.SetLimits(min, max, refused);
      OnEvict(evicted);
      TrimTally(list0, pool0, log0, cap, refused, entryPool);
      Become(CacheProtocol.SetLimits(state, min, max));
    }

    /** Pointers to held and awaited entries stay good. */
    method SetLimits(min: nat, max: nat)
      requires Valid() && Tallied()
      modifies this`entryPool, this`state, this`log, mainCache, ghosts
      ensures Tallied() && forall k :: Count(log, k) == Count(old(log), k) + if k in old(state).slots && k !in state.slots then 1 else 0
      ensures Valid() && state == CacheProtocol.SetLimits(old(state), min, max)
      ensures forall p :: old(Holds(p)) ==> Holds(p)
      ensures forall p :: old(Awaits(p)) ==> Awaits(p)
    {
      ghost var cap := Clamp(state.requested, min, max);
      HeldAreLocked(state);
      TrimPoints(mainCache.cache, entryPool, cap, Locked(state), state.handles);
      TrimPoints(mainCache.cache, entryPool, cap, Locked(state), state.waiters);
      Relimit(min, max);
    }

    /** `lookup` for a key that is cached: `entry` has just been moved to the front. */
    method Hit(entry: EntryPtr, block: bool) returns (result: LookupResult)
      requires Valid() && EntriesTallied() && entry in entryPool && Entry(entryPool[entry].key, entry) in mainCache.cache
      requires state.order != [] && state.order[0] == entryPool[entry].key
      modifies this`entryPool, this`state
      ensures Valid() && EntriesTallied()
      ensures entryPool[entry].key == old(entryPool[entry].key)
      ensures var key, c := old(entryPool[entry].key), old(state);
        key in c.slots && (state, result) == HitResult(c, key, block)
      ensures forall p :: p in entryPool <==> p in old(entryPool)
      ensures forall p :: p in entryPool ==> entryPool[p].key == old(entryPool[p].key)
    {
      var e := entryPool[entry];
      KeysOf(mainCache.cache);
      assert SlotInv(state, e.key);
      if !block && e.state != Available {
        return FoundButNotAvail;
      }
      entryPool := entryPool[entry := e.(locks := e.locks + 1)];
      if e.state == Empty {
        Awaited(entry, e, old(entryPool));
        return Waiting;
      }
      var foundItem := entryPool[entry].value;
      entryPool := entryPool[entry := entryPool[entry].(locks := entryPool[entry].locks - 1)];
      assert entryPool == old(entryPool);
      return FoundAndReady(foundItem);
    }

    /** Records that a thread has begun to wait on the entry at `p`. */
    ghost method Awaited(p: EntryPtr, e: LruEntry, pool: map<EntryPtr, LruEntry>)
      requires mainCache != ghosts && Inv(state) && Mirrors(mainCache.cache, pool, state) && SameCapacities(state)
      requires ghosts.minCapacity == 0 && ghosts.maxCapacity == SIZE_MAX && GHOSTS_MIN_CAPACITY <= ghosts.realCapacity
      requires forall q :: q in pool ==> q < nextPtr
      requires p in pool && pool[p] == e && e.state == Empty && Entry(e.key, p) in mainCache.cache
      requires entryPool == pool[p := e.(locks := e.locks + 1)]
      requires EntriesTally(mainCache.cache, pool, log)
      modifies this`state
      ensures Valid() && EntriesTallied() && e.key in old(state).slots && state == HitResult(old(state), e.key, true).0
    {
      assert SlotInv(state, e.key);
      HitInv(state, e.key, true);
      UpdateTally(mainCache.cache, pool, log, p, entryPool[p]);
      Moved(p, e, pool, HitResult(state, e.key, true).0);
    }

    /** Records that the protocol moved to `c` after work on the entry at `p` alone. */
    ghost method Moved(p: EntryPtr, was: LruEntry, pool: map<EntryPtr, LruEntry>, c: Cache)
      requires mainCache != ghosts && Inv(state) && Mirrors(mainCache.cache, pool, state) && SameCapacities(state)
      requires ghosts.minCapacity == 0 && ghosts.maxCapacity == SIZE_MAX && GHOSTS_MIN_CAPACITY <= ghosts.realCapacity
      requires forall q :: q in pool ==> q < nextPtr
      requires p in pool && pool[p] == was && Entry(was.key, p) in mainCache.cache
      requires p in entryPool && entryPool == pool[p := entryPool[p]] && entryPool[p].key == was.key
      requires Inv(c) && c == state.(slots := state.slots[was.key := SlotOf(entryPool[p])], handles := c.handles,
                                     waiters := c.waiters, committed := c.committed)
      requires forall k :: k != was.key ==> c.handles[k] == state.handles[k] && c.waiters[k] == state.waiters[k]
      modifies this`state
      ensures Valid() && state == c
      ensures forall q :: q != p && PointsInto(mainCache.cache, pool, old(state.handles), q) ==> Holds(q)
      ensures forall q :: q != p && PointsInto(mainCache.cache, pool, old(state.waiters), q) ==> Awaits(q)
    {
      UpdateMatch(mainCache.cache, pool, state.slots, p, entryPool[p]);
      OthersStillPoint(mainCache.cache, pool, p, entryPool[p], state.handles, c.handles);
      OthersStillPoint(mainCache.cache, pool, p, entryPool[p], state.waiters, c.waiters);
      state := c;
    }

    /** A thread that slept on `entry` regains the mutex. */
    method Wake(entry: EntryPtr) returns (result: LookupResult)
      requires Valid() && EntriesTallied() && Awaits(entry)
      modifies this`entryPool, this`state
      ensures Valid() && EntriesTallied()
      ensures (state, result) == CacheProtocol.Wake(old(state), old(entryPool[entry].key))
      ensures result.NotFound? ==> Holds(entry)
      ensures forall h :: old(Holds(h)) ==> Holds(h)
      ensures forall p :: p != entry && old(Awaits(p)) ==> Awaits(p)
    {
      var e := entryPool[entry];
      WakeInv(state, e.key);
      assert SlotInv(state, e.key);
      match e.state
      case Empty =>
        return Waiting;
      case Available =>
        entryPool := entryPool[entry := e.(locks := e.locks - 1)];
        UpdateTally(mainCache.cache, old(entryPool), log, entry, entryPool[entry]);
        Moved(entry, e, old(entryPool), CacheProtocol.Wake(state, e.key).0);
        return FoundAndReady(e.value);
      case RolledBack =>
        entryPool := entryPool[entry := e.(state := Empty)];
        UpdateTally(mainCache.cache, old(entryPool), log, entry, entryPool[entry]);
        Moved(entry, e, old(entryPool), CacheProtocol.Wake(state, e.key).0);
        return NotFound;
    }

    /** The owner of `h` writes the produced value. */
    method StoreValue(h: EntryPtr, v: Option<Frame>)
      requires Valid() && EntriesTallied() && Holds(h)
      modifies this`entryPool, this`state
      ensures Valid() && EntriesTallied()
      ensures state == Store(old(state), old(entryPool[h].key), v)
      ensures forall p :: old(Holds(p)) ==> Holds(p) && entryPool[p].key == old(entryPool[p].key)
      ensures forall p :: old(Awaits(p)) ==> Awaits(p)
    {
      var e := entryPool[h];
      StoreInv(state, e.key, v);
      entryPool := entryPool[h := e.(value := v)];
      UpdateTally(mainCache.cache, old(entryPool), log, h, entryPool[h]);
      Moved(h, e, old(entryPool), Store(state, e.key, v));
    }

    method CommitValue(h: EntryPtr)
      requires Valid() && EntriesTallied() && Holds(h)
      modifies this`entryPool, this`state
      ensures Valid() && EntriesTallied()
      ensures state == Commit(old(state), old(entryPool[h].key))
      ensures !Holds(h) && forall p :: p != h && old(Holds(p)) ==> Holds(p) && entryPool[p].key == old(entryPool[p].key)
      ensures forall p :: p != h && old(Awaits(p)) ==> Awaits(p)
      ensures old(Awaits(h)) ==> Awaits(h)
    {
      var e := entryPool[h];
      CommitInv(state, e.key);
      assert SlotInv(state, e.key);
      entryPool := entryPool[h := e.(state := Available, locks := e.locks - 1)];
      UpdateTally(mainCache.cache, old(entryPool), log, h, entryPool[h]);
      Moved(h, e, old(entryPool), Commit(state, e.key));
    }

    method Rollback(h: EntryPtr)
      requires Valid() && EntriesTallied() && Holds(h)
      modifies this`entryPool, this`state, mainCache
      ensures Valid() && EntriesTallied()
      ensures state == CacheProtocol.Rollback(old(state), old(entryPool[h].key))
      ensures !Holds(h) && forall p :: p != h && old(Holds(p)) ==> Holds(p) && entryPool[p].key == old(entryPool[p].key)
      ensures forall p :: p != h && old(Awaits(p)) ==> Awaits(p)
      ensures old(Awaits(h)) ==> Awaits(h)
    {
      var e := entryPool[h];
      RollbackInv(state, e.key);
      assert SlotInv(state, e.key);
      if e.locks == 1 {
        RemoveLast(h);
      } else {
        entryPool := entryPool[h := e.(locks := e.locks - 1, state := RolledBack)];
        UpdateTally(mainCache.cache, old(entryPool), log, h, entryPool[h]);
        Moved(h, e, old(entryPool), CacheProtocol.Rollback(state, e.key));
      }
    }

    /** Nobody else waits: the entry leaves the list. Its storage is not returned to the pool. */
    method RemoveLast(h: EntryPtr)
      requires Valid() && EntriesTallied() && Holds(h) && entryPool[h].locks == 1
      requires Inv(CacheProtocol.Rollback(state, entryPool[h].key))
      modifies this`state, mainCache
      ensures Valid() && EntriesTallied()
      ensures state == CacheProtocol.Rollback(old(state), entryPool[h].key)
      ensures !Holds(h) && !Awaits(h)
      ensures old(state.waiters)[entryPool[h].key] == 0
      ensures forall p :: p != h && old(Holds(p)) ==> Holds(p)
      ensures forall p :: p != h && old(Awaits(p)) ==> Awaits(p)
    {
      var key := entryPool[h].key;
      assert SlotInv(state, key);
      RemovalMirrors(mainCache.cache, entryPool, state, key);
      RemovalPoints(mainCache.cache, entryPool, h, state.handles, state.handles - multiset{key});
      RemovalPoints(mainCache.cache, entryPool, h, state.waiters, state.waiters);
      KeysOf(mainCache.cache);
      RemovedWithin(mainCache.cache, key);
      mainCache.Remove(key);
      Become(CacheProtocol.Rollback(state, key));
    }

    /** The state in which a lookup that found nothing consults the ghosts: the list is trimmed, a node for
        `key` is in front if the cache can hold any, and the protocol has not moved yet. */
    ghost predicate Searched(key: Key, stored: bool)
      reads this, mainCache, ghosts
    {
      && mainCache != ghosts && Inv(state) && key !in state.slots && stored == (state.capacity != 0)
      && SameCapacities(state)
      && NodeMirrors(mainCache.cache, entryPool, ReserveNode(state, key), stored, key)
      && (forall p :: p in entryPool ==> p < nextPtr)
      && ghosts.minCapacity == 0 && ghosts.maxCapacity == SIZE_MAX && GHOSTS_MIN_CAPACITY <= ghosts.realCapacity
    }

    /** `MainCache.resize(MainCache.capacity() + 1)`, with the work of the eviction callback. */
    method GrowMain(key: Key, stored: bool, refused: set<Key>) returns (ghost evicted: seq<Entry<EntryPtr>>)
      requires Searched(key, stored) && refused == Locked(state) && TalliedRest(stored)
      requires forall cap :: cap >= state.capacity ==> |TrimmedAway(mainCache.cache, cap, refused)| <= 1
      modifies this`entryPool, this`log, mainCache, ghosts
      ensures Remembers(ghosts.cache, log) && log == old(log) + Evictions(Keys(evicted))
      ensures Grew(old(mainCache.cache), old(entryPool), old(log), mainCache.cache, entryPool, log, state, key, stored)
      ensures mainCache.minCapacity == state.minCapacity && mainCache.maxCapacity == state.maxCapacity
      ensures mainCache.requestedCapacity == state.capacity + 1
      ensures mainCache.realCapacity == Clamp(state.capacity + 1, state.minCapacity, state.maxCapacity)
      ensures ghosts.minCapacity == 0 && ghosts.maxCapacity == SIZE_MAX && ghosts.realCapacity == old(ghosts.realCapacity)
      ensures |evicted| <= 1 && forall e :: e in evicted ==> e.value in old(entryPool) && e.key != key
      ensures ghosts.cache == GhostEvicts(old(ghosts.cache), ghosts.realCapacity, evicted, old(entryPool))
    {
      ghost var cap := Clamp(state.capacity + 1, state.minCapacity, state.maxCapacity);
      Growing(mainCache.cache, entryPool, log, state, key, stored);
      evicted := TrimmedAway(mainCache.cache, cap, refused);
      ResizeMain(refused, evicted);
    }

    /** Ghosts and entries count right, but for the node in front that may still lack its entry. */
    ghost predicate TalliedRest(stored: bool)
      reads this, mainCache, ghosts
    {
      Remembers(ghosts.cache, log) && EntriesTally(Rest(mainCache.cache, stored), entryPool, log)
    }

    method ResizeMain(refused: set<Key>, ghost away: seq<Entry<EntryPtr>>)
      requires mainCache != ghosts && GHOSTS_MIN_CAPACITY <= ghosts.realCapacity
      requires away == TrimmedAway(mainCache.cache, Clamp(mainCache.realCapacity + 1, mainCache.minCapacity, mainCache.maxCapacity), refused)
      requires Distinct(Keys(away)) && forall e :: e in away ==> e.value in entryPool && entryPool[e.value].key == e.key
      requires Remembers(ghosts.cache, log) && EntriesTally(away, entryPool, log)
      modifies this`entryPool, this`log, mainCache, ghosts
      ensures mainCache.requestedCapacity == old(mainCache.realCapacity) + 1
      ensures mainCache.minCapacity == old(mainCache.minCapacity) && mainCache.maxCapacity == old(mainCache.maxCapacity)
      ensures mainCache.realCapacity == Clamp(mainCache.requestedCapacity, mainCache.minCapacity, mainCache.maxCapacity)
      ensures mainCache.cache == Trimmed(old(mainCache.cache), mainCache.realCapacity, refused)
      ensures entryPool == old(entryPool) - Ptrs(away) && log == old(log) + Evictions(Keys(away))
      ensures ghosts.cache == GhostEvicts(old(ghosts.cache), ghosts.realCapacity, away, old(entryPool))
      ensures Remembers(ghosts.cache, log) && ghosts.realCapacity == old(ghosts.realCapacity)
      ensures ghosts.minCapacity == old(ghosts.minCapacity) && ghosts.maxCapacity == old(ghosts.maxCapacity)
    {
      var gone := mainCache.Resize(mainCache.realCapacity + 1, refused);
      OnEvict(gone);
    }

    /** The ghost list remembers `key` as evicted more than once: room for one more entry. */
    method Grow(key: Key, stored: bool, refused: set<Key>)
      requires Searched(key, stored) && refused == Locked(state) && TalliedRest(stored)
      requires forall cap :: cap >= state.capacity ==> |TrimmedAway(mainCache.cache, cap, refused)| <= 1
      requires ghosts.cache != [] && ghosts.cache[0].key == key
      modifies this`entryPool, this`log, mainCache, ghosts
      ensures TalliedRest(stored) && exists keys :: log == old(log) + Evictions(keys)
      ensures Counted(old(log), log, Keys(Rest(old(mainCache.cache), stored)), Keys(Rest(mainCache.cache, stored)))
      ensures forall e :: e in Rest(mainCache.cache, stored) ==> e in Rest(old(mainCache.cache), stored)
      ensures SameCapacities(MakePlace(state, key, true))
      ensures NodeMirrors(mainCache.cache, entryPool, MakePlace(state, key, true), stored, key)
      ensures forall p :: p in entryPool ==> p in old(entryPool) && entryPool[p] == old(entryPool)[p]
      ensures ghosts.minCapacity == 0 && ghosts.maxCapacity == SIZE_MAX && GHOSTS_MIN_CAPACITY <= ghosts.realCapacity
      ensures key in Keys(ghosts.cache) && GhostRoom(old(ghosts.realCapacity), mainCache.realCapacity, true)
    {
      ghost var g0, pool0 := ghosts.cache, entryPool;
      ghost var evicted := GrowMain(key, stored, refused);
      ResizeGhosts(key, g0, evicted, pool0);
    }

    method ResizeGhosts(key: Key, ghost g0: seq<Entry<nat>>, ghost evicted: seq<Entry<EntryPtr>>, ghost pool0: map<EntryPtr, LruEntry>)
      requires mainCache != ghosts && Remembers(ghosts.cache, log) && g0 != [] && g0[0].key == key
      requires ghosts.minCapacity == 0 && ghosts.maxCapacity == SIZE_MAX && GHOSTS_MIN_CAPACITY <= ghosts.realCapacity
      requires |evicted| <= 1 && forall e :: e in evicted ==> e.value in pool0 && e.key != key
      requires ghosts.cache == GhostEvicts(g0, ghosts.realCapacity, evicted, pool0)
      modifies ghosts
      ensures Remembers(ghosts.cache, log) && key in Keys(ghosts.cache)
      ensures GhostRoom(old(ghosts.realCapacity), mainCache.realCapacity, true)
      ensures ghosts.minCapacity == 0 && ghosts.maxCapacity == SIZE_MAX && GHOSTS_MIN_CAPACITY <= ghosts.realCapacity
    {
      var ghostCap := GHOSTS_MIN_CAPACITY + mainCache.realCapacity * 2;
      GhostStays(g0, ghosts.realCapacity, evicted, pool0, key, Clamp(ghostCap, 0, SIZE_MAX));
      TrimRemembered(ghosts.cache, log, Clamp(ghostCap, 0, SIZE_MAX));
      var _ := ghosts.Resize(ghostCap, {});
    }

    /** Consults the ghosts for `key`, which comes to their front. */
    method CountGhost(key: Key) returns (ghostFound: bool, ghosted: nat)
      requires GHOSTS_MIN_CAPACITY <= ghosts.realCapacity && Remembers(ghosts.cache, log)
      modifies ghosts, this`log
      ensures log == old(log) + [if ghostFound then Asked(key) else Forgotten(key)] && Remembers(ghosts.cache, log)
      ensures ghostFound ==> ghosted == Count(old(log), key)
      ensures ghosts.cache == GhostFront(old(ghosts.cache), ghosts.realCapacity, key, 0, n => n)
      ensures ghostFound == (key in Keys(old(ghosts.cache))) && ghosted == ghosts.cache[0].value
      ensures ghosts.realCapacity == old(ghosts.realCapacity)
      ensures ghosts.minCapacity == old(ghosts.minCapacity) && ghosts.maxCapacity == old(ghosts.maxCapacity)
    {
      AskRemembered(ghosts.cache, ghosts.realCapacity, key, log);
      ghostFound, ghosted := AskGhost(key);
      log := log + [if ghostFound then Asked(key) else Forgotten(key)];
    }

    method AskGhost(key: Key) returns (ghostFound: bool, ghosted: nat)
      requires GHOSTS_MIN_CAPACITY <= ghosts.realCapacity
      modifies ghosts
      ensures ghosts.cache == GhostFront(old(ghosts.cache), ghosts.realCapacity, key, 0, n => n)
      ensures ghostFound == (key in Keys(old(ghosts.cache))) && ghosted == ghosts.cache[0].value
      ensures ghostFound ==> ghosted == Find(old(ghosts.cache), key).value
      ensures ghosts.realCapacity == old(ghosts.realCapacity)
      ensures ghosts.minCapacity == old(ghosts.minCapacity) && ghosts.maxCapacity == old(ghosts.maxCapacity)
    {
      var found, stored, _ := ghosts.Lookup(key, false, {});
      ghostFound := found;
      if !ghostFound {
        ghosts.SetFront(0);
      }
      ghosted := ghosts.cache[0].value;
    }

    /** The ghost of a key that the main list lacks. */
    method CountMissed(key: Key, stored: bool) returns (ghostFound: bool, ghosted: nat)
      requires Searched(key, stored) && TalliedRest(stored)
      modifies ghosts, this`log
      ensures Searched(key, stored) && TalliedRest(stored) && key !in Keys(Rest(mainCache.cache, stored))
      ensures var was := Keys(Rest(mainCache.cache, stored)); Asking(old(log), log, key, !ghostFound, false, was, was)
      ensures ghosts.realCapacity == old(ghosts.realCapacity) && (ghostFound ==> ghosted == Count(old(log), key))
      ensures key in Keys(ghosts.cache) && ghosts.cache[0].key == key
    {
      ghost var log0 := log;
      ghostFound, ghosted := CountGhost(key);
      NodeDistinct(state, key, false);
      RestDistinct(mainCache.cache, entryPool, ReserveNode(state, key), stored, key);
      OtherTally(Rest(mainCache.cache, stored), entryPool, log0, if ghostFound then Asked(key) else Forgotten(key));
      AskingBegins(log0, key, !ghostFound, Keys(Rest(mainCache.cache, stored)));
      FrontIsKnown(ghosts.cache, key);
    }

    /** The ghosts' verdict on growing, carried out; the ghost of `key` is still known afterwards. */
    method Consult(key: Key, stored: bool, refused: set<Key>, suppressCaching: Option<bool>)
      returns (suppressOut: Option<bool>, ghost grow: bool, ghost forgotten: bool)
      requires Searched(key, stored) && refused == Locked(state) && TalliedRest(stored)
      requires forall cap :: cap >= state.capacity ==> |TrimmedAway(mainCache.cache, cap, refused)| <= 1
      modifies this`entryPool, this`log, mainCache, ghosts
      ensures Placed(key, stored, grow) && key in Keys(ghosts.cache) && TalliedRest(stored)
      ensures Asking(old(log), log, key, forgotten, false, Keys(Rest(old(mainCache.cache), stored)), Keys(Rest(mainCache.cache, stored)))
      ensures GhostRoom(old(ghosts.realCapacity), mainCache.realCapacity, grow)
      ensures Verdict(grow, suppressOut, suppressCaching, !forgotten && Count(old(log), key) >= 2)
      ensures forall e :: e in Rest(mainCache.cache, stored) ==> e in Rest(old(mainCache.cache), stored)
    {
      suppressOut, grow := suppressCaching, false;
      ghost var list0, log0 := mainCache.cache, log;
      var ghostFound, ghosted := CountMissed(key, stored);
      forgotten := !ghostFound;
      if ghostFound && ghosted > 1 {
        if mode != NoResize {
          ghost var log1 := log;
          Grow(key, stored, refused);
          grow := true;
          GrownAsking(log0, log1, key, forgotten, stored, list0);
        }
        if mode == OptimalSize && suppressCaching.Some? {
          suppressOut := Some(true);
        }
      }
    }

    /** The ghosts get two places more for each place of the list, once it has grown. */
    ghost predicate GhostRoom(was: nat, capacity: nat, grow: bool)
      reads ghosts
    {
      ghosts.realCapacity == if grow then Clamp(GHOSTS_MIN_CAPACITY + 2 * capacity, 0, SIZE_MAX) else was
    }

    /** The cache grows if its mode allows that; in one mode it tells the filters below not to cache. */
    ghost predicate Verdict(grow: bool, suppressOut: Option<bool>, suppressCaching: Option<bool>, wanted: bool) {
      && (grow <==> mode != NoResize && wanted)
      && suppressOut == if mode == OptimalSize && suppressCaching.Some? && wanted then Some(true) else suppressCaching
    }

    lemma GrownAsking(log0: seq<Note>, log1: seq<Note>, key: Key, forgotten: bool, stored: bool, list0: seq<Entry<EntryPtr>>)
      requires Asking(log0, log1, key, forgotten, false, Keys(Rest(list0, stored)), Keys(Rest(list0, stored)))
      requires exists keys :: log == log1 + Evictions(keys)
      requires Counted(log1, log, Keys(Rest(list0, stored)), Keys(Rest(mainCache.cache, stored)))
      requires Placed(key, stored, true) && key !in Keys(Rest(list0, stored))
      requires forall e :: e in Rest(mainCache.cache, stored) ==> e in Rest(list0, stored)
      ensures Asking(log0, log, key, forgotten, false, Keys(Rest(list0, stored)), Keys(Rest(mainCache.cache, stored)))
    {
      var keys :| log == log1 + Evictions(keys);
      var was, now := Rest(list0, stored), Rest(mainCache.cache, stored);
      SubKeys(now, was);
      AskingEvicts(log0, log1, keys, key, forgotten, Keys(was), Keys(was), Keys(now));
    }

    /** Room has been made for `key`; its node, if any, still lacks its entry. */
    ghost predicate Placed(key: Key, stored: bool, grow: bool)
      reads this, mainCache, ghosts
    {
      && mainCache != ghosts && Inv(state) && key !in state.slots && stored == (state.capacity != 0)
      && SameCapacities(MakePlace(state, key, grow))
      && NodeMirrors(mainCache.cache, entryPool, MakePlace(state, key, grow), stored, key)
      && (forall p :: p in entryPool ==> p < nextPtr)
      && ghosts.minCapacity == 0 && ghosts.maxCapacity == SIZE_MAX && GHOSTS_MIN_CAPACITY <= ghosts.realCapacity
    }

    /** `lookup` for a key that is not cached, once the main list has been searched and trimmed. */
    method Miss(key: Key, stored: bool, refused: set<Key>, suppressCaching: Option<bool>)
      returns (result: LookupResult, hndl: Option<EntryPtr>, suppressOut: Option<bool>, ghost grow: bool, ghost forgotten: bool)
      requires Searched(key, stored) && refused == Locked(state) && TalliedRest(stored)
      requires forall cap :: cap >= state.capacity ==> |TrimmedAway(mainCache.cache, cap, refused)| <= 1
      modifies this, mainCache, ghosts
      ensures Valid() && Tallied() && (state, result) == LookupMiss(old(state), key, grow)
      ensures hndl.Some? <==> result.NotFound?
      ensures hndl.Some? ==> Holds(hndl.value) && entryPool[hndl.value].key == key
      ensures Asking(old(log), log, key, forgotten, result.NoCache?, Keys(Rest(old(mainCache.cache), stored)), Keys(mainCache.cache))
      ensures GhostRoom(old(ghosts.realCapacity), mainCache.realCapacity, grow)
      ensures Verdict(grow, suppressOut, suppressCaching, !forgotten && Count(old(log), key) >= 2)
      ensures forall e :: e in mainCache.cache ==> e.key == key || e in Rest(old(mainCache.cache), stored)
    {
      ghost var was, log0 := Keys(Rest(mainCache.cache, stored)), log;
      suppressOut, grow, forgotten := Consult(key, stored, refused, suppressCaching);
      result, hndl := Settle(key, stored, grow, log0, forgotten, was);
    }

    /** The end of a miss: the node gets its entry, or the ghost counts that there was no room for one. */
    method Settle(key: Key, stored: bool, ghost grow: bool, ghost log0: seq<Note>, ghost forgotten: bool, ghost was: seq<Key>)
      returns (result: LookupResult, hndl: Option<EntryPtr>)
      requires Placed(key, stored, grow) && key in Keys(ghosts.cache) && TalliedRest(stored)
      requires Asking(log0, log, key, forgotten, false, was, Keys(Rest(mainCache.cache, stored)))
      modifies this`entryPool, this`nextPtr, this`state, this`log, mainCache`cache, ghosts`cache
      ensures Valid() && Tallied() && (state, result) == LookupMiss(old(state), key, grow)
      ensures hndl.Some? <==> result.NotFound?
      ensures hndl.Some? ==> Holds(hndl.value) && entryPool[hndl.value].key == key
      ensures Asking(log0, log, key, forgotten, result.NoCache?, was, Keys(mainCache.cache))
      ensures forall e :: e in mainCache.cache ==> e.key == key || e in Rest(old(mainCache.cache), stored)
    {
      if stored {
        var h := PlaceEntry(key, grow, log0, forgotten, was);
        result, hndl := NotFound, Some(h);
      } else {
        RefuseEntry(key, grow, log0, forgotten, was);
        result, hndl := NoCache, None;
      }
    }

    method PlaceEntry(key: Key, ghost grow: bool, ghost log0: seq<Note>, ghost forgotten: bool, ghost was: seq<Key>) returns (h: EntryPtr)
      requires Placed(key, true, grow) && key in Keys(ghosts.cache) && TalliedRest(true)
      requires Asking(log0, log, key, forgotten, false, was, Keys(Rest(mainCache.cache, true)))
      modifies this`entryPool, this`nextPtr, this`state, mainCache`cache
      ensures Valid() && EntriesTallied() && state == Attach(MakePlace(old(state), key, grow), key)
      ensures Holds(h) && entryPool[h].key == key
      ensures mainCache.cache == [Entry(key, h)] + Rest(old(mainCache.cache), true)
      ensures Asking(log0, log, key, forgotten, false, was, Keys(mainCache.cache))
    {
      LookupMissInv(state, key, grow);
      MakePlaceAwaits(state, key, grow);
      GhostCounts(ghosts.cache, key, log);
      ghost var rest := Rest(mainCache.cache, true);
      h := nextPtr;
      Construct(key, Find(ghosts.cache, key).value, MakePlace(state, key, grow));
      KeysCons(Entry(key, h), rest);
      AskingPlaced(log0, log, key, forgotten, false, was, Keys(rest), Keys(mainCache.cache));
    }

    method RefuseEntry(key: Key, ghost grow: bool, ghost log0: seq<Note>, ghost forgotten: bool, ghost was: seq<Key>)
      requires Placed(key, false, grow) && key in Keys(ghosts.cache) && TalliedRest(false)
      requires Asking(log0, log, key, forgotten, false, was, Keys(mainCache.cache))
      modifies this`state, this`log, ghosts`cache
      ensures Valid() && Tallied() && state == MakePlace(old(state), key, grow)
      ensures Asking(log0, log, key, forgotten, true, was, Keys(mainCache.cache))
    {
      LookupMissInv(state, key, grow);
      NodeDistinct(state, key, grow);
      RestDistinct(mainCache.cache, entryPool, MakePlace(state, key, grow), false, key);
      ghost var log1 := log;
      NotStored(key, Find(ghosts.cache, key).value);
      OtherTally(mainCache.cache, entryPool, log1, Refused(key));
      AskingRefused(log0, log1, key, forgotten, was, Keys(mainCache.cache));
      Become(MakePlace(state, key, grow));
    }

    /** A cache without any room counts that in the ghost. */
    method NotStored(key: Key, ghosted: nat)
      requires key in Keys(ghosts.cache) && Remembers(ghosts.cache, log) && ghosted == Count(log, key)
      modifies ghosts`cache, this`log
      ensures Remembers(ghosts.cache, log) && log == old(log) + [Refused(key)]
    {
      ghost var was := ghosts.cache;
      ghosts.SetValue(key, ghosted + 1);
      RefuseRemembered(was, ghosts.cache, key, log);
      log := log + [Refused(key)];
    }

    /** Gives the reserved node in front its entry, locked once for the caller and with the count of its ghost. */
    method Construct(key: Key, ghosted: nat, ghost d: Cache)
      requires mainCache != ghosts && SameCapacities(d) && NodeMirrors(mainCache.cache, entryPool, d, true, key)
      requires Distinct(d.order) && Inv(Attach(d, key)) && EntriesTally(Rest(mainCache.cache, true), entryPool, log) && ghosted == Count(log, key)
      requires forall p :: p in entryPool ==> p < nextPtr
      requires ghosts.minCapacity == 0 && ghosts.maxCapacity == SIZE_MAX && GHOSTS_MIN_CAPACITY <= ghosts.realCapacity
      modifies this`entryPool, this`nextPtr, this`state, mainCache`cache
      ensures Valid() && EntriesTallied() && state == Attach(d, key)
      ensures Holds(old(nextPtr)) && entryPool[old(nextPtr)].key == key
      ensures mainCache.cache == [Entry(key, old(nextPtr))] + Rest(old(mainCache.cache), true)
    {
      var p := nextPtr;
      AttachMirrors(mainCache.cache, entryPool, d, key, p, ghosted);
      entryPool := entryPool[p := LruEntry(key, None, 1, ghosted, Empty)];
      mainCache.SetFront(p);
      nextPtr := nextPtr + 1;
      Become(Attach(d, key));
      assert mainCache.cache[0] == Entry(key, p);
    }

    /** `lookup` for a key at the front of the list, where it was found. */
    method FoundKey(key: Key, block: bool, ghost list0: seq<Entry<EntryPtr>>)
      returns (result: LookupResult, entry: EntryPtr)
      requires Inv(state) && key in Keys(list0) && mainCache.cache == [Find(list0, key)] + Removed(list0, key)
      requires EntriesTally(list0, entryPool, log)
      requires mainCache != ghosts && SameCapacities(state) && Mirrors(list0, entryPool, state)
      requires forall p :: p in entryPool ==> p < nextPtr
      requires ghosts.minCapacity == 0 && ghosts.maxCapacity == SIZE_MAX && GHOSTS_MIN_CAPACITY <= ghosts.realCapacity
      modifies this`entryPool, this`state
      ensures Valid() && EntriesTallied() && key in old(state).slots && (state, result) == LookupHit(old(state), key, block)
      ensures entry in entryPool && entryPool[entry].key == key && Entry(key, entry) in mainCache.cache
      ensures forall e :: e in mainCache.cache ==> e in list0
    {
      TouchedInv(state, key);
      TouchMirrors(list0, entryPool, state, key);
      Become(Touched(state, key));
      entry := mainCache.cache[0].value;
      assert mainCache.cache[0] in mainCache.cache;
      result := Hit(entry, block);
    }

    method FoundOrWaits(key: Key, block: bool, ghost list0: seq<Entry<EntryPtr>>)
      returns (result: LookupResult, sleepsOn: Option<EntryPtr>)
      requires Inv(state) && key in Keys(list0) && mainCache.cache == [Find(list0, key)] + Removed(list0, key)
      requires EntriesTally(list0, entryPool, log)
      requires mainCache != ghosts && SameCapacities(state) && Mirrors(list0, entryPool, state)
      requires forall p :: p in entryPool ==> p < nextPtr
      requires ghosts.minCapacity == 0 && ghosts.maxCapacity == SIZE_MAX && GHOSTS_MIN_CAPACITY <= ghosts.realCapacity
      modifies this`entryPool, this`state
      ensures Valid() && EntriesTallied() && key in old(state).slots && (state, result) == LookupHit(old(state), key, block)
      ensures sleepsOn.Some? <==> result.Waiting?
      ensures sleepsOn.Some? ==> Awaits(sleepsOn.value) && entryPool[sleepsOn.value].key == key
      ensures forall e :: e in mainCache.cache ==> e in list0
    {
      var said, entry := FoundKey(key, block, list0);
      result, sleepsOn := said, if said.Waiting? then Some(entry) else None;
    }

    /** `lookup` for a key that is not cached, from where the main list has been searched and trimmed. */
    method MissedKey(key: Key, stored: bool, refused: set<Key>, evicted: seq<Entry<EntryPtr>>,
                     suppressCaching: Option<bool>, ghost list0: seq<Entry<EntryPtr>>)
      returns (result: LookupResult, hndl: Option<EntryPtr>, suppressOut: Option<bool>, ghost grow: bool, ghost forgotten: bool)
      requires Remembers(ghosts.cache, log) && EntriesTally(list0, entryPool, log)
      requires mainCache != ghosts && Inv(state) && key !in state.slots && stored == (state.capacity != 0)
      requires refused == Locked(state) && SameCapacities(state) && Mirrors(list0, entryPool, state)
      requires evicted == TrimmedAway(list0, state.capacity, refused)
      requires var rest := Trimmed(list0, state.capacity, refused);
        if stored then mainCache.cache != [] && mainCache.cache[0].key == key && mainCache.cache[1..] == rest
        else mainCache.cache == rest
      requires forall p :: p in entryPool ==> p < nextPtr
      requires ghosts.minCapacity == 0 && ghosts.maxCapacity == SIZE_MAX && GHOSTS_MIN_CAPACITY <= ghosts.realCapacity
      modifies this, mainCache, ghosts
      ensures Valid() && Tallied() && (state, result) == LookupMiss(old(state), key, grow)
      ensures hndl.Some? <==> result.NotFound?
      ensures hndl.Some? ==> Holds(hndl.value) && entryPool[hndl.value].key == key
      ensures Asking(old(log), log, key, forgotten, result.NoCache?, old(state).order, state.order)
      ensures GhostRoom(old(ghosts.realCapacity), state.capacity, grow)
      ensures Verdict(grow, suppressOut, suppressCaching, !forgotten && Count(old(log), key) >= 2)
      ensures forall e :: e in mainCache.cache ==> e.key == key || e in list0
    {
      ghost var log0, rest := log, Trimmed(list0, state.capacity, refused);
      LetGo(key, stored, refused, evicted, list0);
      ghost var log1 := log;
      result, hndl, suppressOut, grow, forgotten := Miss(key, stored, refused, suppressCaching);
      MissedAsking(log0, log1, key, forgotten, result.NoCache?, list0, evicted, rest);
    }

    /** The eviction callback's work for the entries that the search has pushed off the list. */
    method LetGo(key: Key, stored: bool, refused: set<Key>, evicted: seq<Entry<EntryPtr>>, ghost list0: seq<Entry<EntryPtr>>)
      requires Remembers(ghosts.cache, log) && EntriesTally(list0, entryPool, log)
      requires mainCache != ghosts && Inv(state) && key !in state.slots && stored == (state.capacity != 0)
      requires refused == Locked(state) && SameCapacities(state) && Mirrors(list0, entryPool, state)
      requires evicted == TrimmedAway(list0, state.capacity, refused)
      requires var rest := Trimmed(list0, state.capacity, refused);
        if stored then mainCache.cache != [] && mainCache.cache[0].key == key && mainCache.cache[1..] == rest
        else mainCache.cache == rest
      requires forall p :: p in entryPool ==> p < nextPtr
      requires ghosts.minCapacity == 0 && ghosts.maxCapacity == SIZE_MAX && GHOSTS_MIN_CAPACITY <= ghosts.realCapacity
      modifies this`entryPool, this`log, ghosts
      ensures Searched(key, stored) && TalliedRest(stored) && ghosts.realCapacity == old(ghosts.realCapacity)
      ensures Rest(mainCache.cache, stored) == Trimmed(list0, state.capacity, refused)
      ensures log == old(log) + Evictions(Keys(evicted)) && Counted(old(log), log, Keys(list0), Keys(Rest(mainCache.cache, stored)))
      ensures forall e :: e in Rest(mainCache.cache, stored) ==> e in list0
      ensures forall cap :: cap >= state.capacity ==> |TrimmedAway(mainCache.cache, cap, refused)| <= 1
    {
      TrimMirrors(list0, entryPool, state, state.capacity);
      ghost var pool0, log0 := entryPool, log;
      AwayTally(list0, pool0, log0, state.capacity, refused);
      OnEvict(evicted);
      TrimTally(list0, pool0, log0, state.capacity, refused, entryPool);
      ghost var rest := Trimmed(list0, state.capacity, refused);
      ghost var node := if stored then mainCache.cache[0] else Entry(key, 0);
      if stored { FrontSplit(mainCache.cache); }
      ReserveMirrors(list0, entryPool, state, key, node);
      TrimmedWithin(list0, state.capacity, refused);
      AtMostOneWillGo(list0, refused, node, stored);
    }

    lemma MissedAsking(log0: seq<Note>, log1: seq<Note>, key: Key, forgotten: bool, refused: bool,
                       list0: seq<Entry<EntryPtr>>, evicted: seq<Entry<EntryPtr>>, rest: seq<Entry<EntryPtr>>)
      requires log1 == log0 + Evictions(Keys(evicted)) && Counted(log0, log1, Keys(list0), Keys(rest)) && key !in Keys(list0)
      requires Asking(log1, log, key, forgotten, refused, Keys(rest), Keys(mainCache.cache))
      requires forall e :: e in rest ==> e in list0
      requires forall e :: e in mainCache.cache ==> e.key == key || e in rest
      ensures Asking(log0, log, key, forgotten, refused, Keys(list0), Keys(mainCache.cache))
    {
      SubKeys(rest, list0);
      SubKeysBut(mainCache.cache, rest, key);
      AskingAfter(log0, Keys(evicted), log, key, forgotten, refused, Keys(list0), Keys(rest), Keys(mainCache.cache));
    }

    lemma AtMostOneWillGo(list0: seq<Entry<EntryPtr>>, locked: set<Key>, node: Entry<EntryPtr>, stored: bool)
      requires stored == (state.capacity != 0)
      requires var rest := Trimmed(list0, state.capacity, locked);
        mainCache.cache == if stored then [node] + rest else rest
      ensures forall cap :: cap >= state.capacity ==> |TrimmedAway(mainCache.cache, cap, locked)| <= 1
    {
      forall cap | cap >= state.capacity ensures |TrimmedAway(mainCache.cache, cap, locked)| <= 1 {
        GrowingEvictsAtMostOne(list0, state.capacity, locked, node, cap);
      }
    }

    /** `lookup` without a word on the pointers handed out earlier. */
    method Search(key: Key, block: bool, suppressCaching: Option<bool>, ghost list0: seq<Entry<EntryPtr>>)
      returns (result: LookupResult, hndl: Option<EntryPtr>, sleepsOn: Option<EntryPtr>, suppressOut: Option<bool>,
               ghost grow: bool, ghost forgotten: bool)
      requires Valid() && Tallied() && list0 == mainCache.cache
      modifies this, mainCache, ghosts
      ensures Valid() && Tallied()
      ensures var asked := key !in old(state).slots && suppressCaching != Some(true);
        && Verdict(grow, suppressOut, suppressCaching, asked && !forgotten && Count(old(log), key) >= 2)
        && if asked then Asking(old(log), log, key, forgotten, result.NoCache?, old(state).order, state.order)
           else log == old(log) && !forgotten
      ensures GhostRoom(old(ghosts.realCapacity), state.capacity, grow)
      ensures (state, result) == CacheProtocol.Lookup(old(state), key, block, suppressCaching == Some(true), grow)
      ensures (hndl.Some? <==> result.NotFound?) && (sleepsOn.Some? <==> result.Waiting?)
      ensures hndl.Some? ==> Holds(hndl.value) && entryPool[hndl.value].key == key
      ensures sleepsOn.Some? ==> Awaits(sleepsOn.value) && entryPool[sleepsOn.value].key == key
      ensures forall e :: e in mainCache.cache ==> e in list0 || (e.key == key && key !in old(state).slots)
    {
      hndl, sleepsOn, suppressOut, grow, forgotten := None, None, suppressCaching, false, false;
      var suppress := suppressCaching == Some(true);
      var refused := LockedKeys();
      var found, stored, evicted := mainCache.Lookup(key, suppress, refused);
      if found {
        result, sleepsOn := FoundOrWaits(key, block, list0);
      } else if !suppress {
        result, hndl, suppressOut, grow, forgotten := MissedKey(key, stored, refused, evicted, suppressCaching, list0);
      } else {
        result := NoCache;
      }
    }

    /** `lookup`, up to its return or to its first wait: `hndl` is the caller's new handle if any, `sleepsOn`
        the entry whose condition it waits for if it waits. Pointers handed out earlier stay good. */
    method Lookup(key: Key, block: bool, suppressCaching: Option<bool>)
      returns (result: LookupResult, hndl: Option<EntryPtr>, sleepsOn: Option<EntryPtr>, suppressOut: Option<bool>,
               ghost grow: bool, ghost forgotten: bool)
      requires Valid() && Tallied()
      modifies this, mainCache, ghosts
      ensures Valid() && Tallied()
      ensures var asked := key !in old(state).slots && suppressCaching != Some(true);
        && Verdict(grow, suppressOut, suppressCaching, asked && !forgotten && Count(old(log), key) >= 2)
        && if asked then Asking(old(log), log, key, forgotten, result.NoCache?, old(state).order, state.order)
           else log == old(log) && !forgotten
      ensures GhostRoom(old(ghosts.realCapacity), state.capacity, grow)
      ensures (state, result) == CacheProtocol.Lookup(old(state), key, block, suppressCaching == Some(true), grow)
      ensures (hndl.Some? <==> result.NotFound?) && (sleepsOn.Some? <==> result.Waiting?)
      ensures hndl.Some? ==> Holds(hndl.value) && entryPool[hndl.value].key == key
      ensures sleepsOn.Some? ==> Awaits(sleepsOn.value) && entryPool[sleepsOn.value].key == key
      ensures forall p :: old(Holds(p)) ==> Holds(p) && entryPool[p].key == old(entryPool[p].key)
      ensures forall p :: old(Awaits(p)) ==> Awaits(p)
    {
      ghost var list0, pool0 := mainCache.cache, entryPool;
      result, hndl, sleepsOn, suppressOut, grow, forgotten := Search(key, block, suppressCaching, list0);
      StillGood(list0, pool0, old(state), key, block, suppressCaching == Some(true), grow);
    }

    lemma StillGood(list0: seq<Entry<EntryPtr>>, pool0: map<EntryPtr, LruEntry>, c0: Cache,
                    key: Key, block: bool, suppress: bool, grow: bool)
      requires Valid() && Inv(c0) && Mirrors(list0, pool0, c0)
      requires state == CacheProtocol.Lookup(c0, key, block, suppress, grow).0
      requires forall e :: e in mainCache.cache ==> e in list0 || (e.key == key && key !in c0.slots)
      ensures forall p :: PointsInto(list0, pool0, c0.handles, p) ==> Holds(p) && entryPool[p].key == pool0[p].key
      ensures forall p :: PointsInto(list0, pool0, c0.waiters, p) ==> Awaits(p)
    {
      LookupKeepsInterest(c0, key, block, suppress, grow);
      StillPoints(list0, pool0, c0, c0.handles, mainCache.cache, entryPool, state, state.handles, key);
      StillPoints(list0, pool0, c0, c0.waiters, mainCache.cache, entryPool, state, state.waiters, key);
    }
  }
}
