/** The recency list of avs_core/core/SimpleLruCache.h: a list of entries, most recently used
    first, whose eviction callback may refuse to let an entry go. */
module SimpleLru {

  /** The largest value of the source's `size_t`. */
  const SIZE_MAX: nat := 0xFFFF_FFFF_FFFF_FFFF

  /** Frame numbers, which the source stores as `size_t` keys. */
  type Key = int

  datatype Entry<V> = Entry(key: Key, value: V)

  function Clamp(n: nat, lo: nat, hi: nat): (r: nat)
    ensures lo <= hi ==> lo <= r <= hi
    ensures lo <= n <= hi ==> r == n
    ensures n < lo || hi < lo ==> r == lo
    ensures lo <= hi < n ==> r == hi
  {
    var m := if n > hi then hi else n;
    if m < lo then lo else m
  }

  // ----- Lists -----

  ghost predicate Distinct(s: seq<Key>) {
    s != [] ==> s[0] !in s[1..] && Distinct(s[1..])
  }

  /** The first entry for `key`, and the list without it. */
  function Find<V>(list: seq<Entry<V>>, key: Key): (e: Entry<V>)
    requires key in Keys(list)
    ensures e.key == key && e in list
  {
    if list[0].key == key then list[0] else
      assert Keys(list) == [list[0].key] + Keys(list[1..]);
      Find(list[1..], key)
  }

  function Removed<V>(list: seq<Entry<V>>, key: Key): (r: seq<Entry<V>>) {
    if list == [] then [] else if list[0].key == key then list[1..] else [list[0]] + Removed(list[1..], key)
  }

  lemma {:induction false} RemovedAt<V>(list: seq<Entry<V>>, i: nat)
    requires i < |list| && forall j :: 0 <= j < i ==> list[j].key != list[i].key
    ensures list[i].key in Keys(list) && Find(list, list[i].key) == list[i]
    ensures Removed(list, list[i].key) == list[..i] + list[i + 1..]
  {
    assert Keys(list)[i] == list[i].key;
    if i > 0 {
      RemovedAt(list[1..], i - 1);
      assert list[..i] == [list[0]] + list[1..][..i - 1];
    }
  }

  function Keys<V>(list: seq<Entry<V>>): (ks: seq<Key>)
    ensures |ks| == |list|
  {
    seq(|list|, i requires 0 <= i < |list| => list[i].key)
  }

  /** The entries the callback keeps, and those it lets go, both in list order. */
  function Kept<V(!new)>(list: seq<Entry<V>>, refused: set<Key>): (r: seq<Entry<V>>)
    ensures |r| <= |list|
  {
    if list == [] then []
    else (if list[0].key in refused then [list[0]] else []) + Kept(list[1..], refused)
  }

  function Dropped<V(!new)>(list: seq<Entry<V>>, refused: set<Key>): (r: seq<Entry<V>>)
    ensures |r| == |list| - |Kept(list, refused)|
  {
    if list == [] then []
    else (if list[0].key in refused then [] else [list[0]]) + Dropped(list[1..], refused)
  }

  /** What `trim` leaves, and what it removes: only entries beyond the capacity are offered for eviction. */
  function Trimmed<V(!new)>(list: seq<Entry<V>>, cap: nat, refused: set<Key>): (r: seq<Entry<V>>) {
    if cap == 0 then Kept(list, refused)
    else if list == [] then [] else [list[0]] + Trimmed(list[1..], cap - 1, refused)
  }

  function TrimmedAway<V(!new)>(list: seq<Entry<V>>, cap: nat, refused: set<Key>): (r: seq<Entry<V>>) {
    if cap == 0 then Dropped(list, refused)
    else if list == [] then [] else TrimmedAway(list[1..], cap - 1, refused)
  }

  lemma {:induction false} FitsUntrimmed<V(!new)>(list: seq<Entry<V>>, cap: nat, refused: set<Key>)
    requires |list| <= cap
    ensures Trimmed(list, cap, refused) == list && TrimmedAway(list, cap, refused) == []
  {
    if list != [] { FitsUntrimmed(list[1..], cap - 1, refused); }
  }

  lemma TailSlices<T>(s: seq<T>, n: nat)
    requires 1 <= n <= |s|
    ensures s[1..][n - 1..] == s[n..] && [s[0]] + s[1..][..n - 1] == s[..n]
  {
  }

  lemma {:induction false} TrimmedSplit<V(!new)>(list: seq<Entry<V>>, cap: nat, refused: set<Key>)
    requires cap <= |list|
    ensures Trimmed(list, cap, refused) == list[..cap] + Kept(list[cap..], refused)
    ensures TrimmedAway(list, cap, refused) == Dropped(list[cap..], refused)
  {
    if cap == 0 {
      assert list[0..] == list;
    } else {
      TrimmedSplit(list[1..], cap - 1, refused);
      TailSlices(list, cap);
      assert [list[0]] + (list[1..][..cap - 1] + Kept(list[cap..], refused)) == list[..cap] + Kept(list[cap..], refused);
    }
  }

  lemma {:induction false} KeptMembers<V(!new)>(list: seq<Entry<V>>, refused: set<Key>)
    ensures forall e :: e in Kept(list, refused) <==> e in list && e.key in refused
    ensures forall e :: e in Dropped(list, refused) <==> e in list && e.key !in refused
  {
    if list != [] {
      KeptMembers(list[1..], refused);
      assert list == [list[0]] + list[1..];
    }
  }

  lemma KeptStep<V(!new)>(list: seq<Entry<V>>, i: nat, refused: set<Key>)
    requires i < |list|
    ensures Kept(list[i..], refused) == (if list[i].key in refused then [list[i]] else []) + Kept(list[i + 1..], refused)
    ensures Dropped(list[i..], refused) == (if list[i].key in refused then [] else [list[i]]) + Dropped(list[i + 1..], refused)
  {
    assert list[i..][1..] == list[i + 1..];
  }

  lemma SplitAround<T>(a: seq<T>, x: T, b: seq<T>)
    ensures var s := a + ([x] + b); s[|a|] == x && s[..|a|] == a && s[|a| + 1..] == b
    ensures a + [x] + b == a + ([x] + b)
  {
  }

  lemma ConsAppend<T>(x: T, a: seq<T>, b: seq<T>)
    ensures [x] + (a + b) == ([x] + a) + b
  {
  }

  lemma TrimStep<V(!new)>(was: seq<Entry<V>>, it: nat, refused: set<Key>, now: seq<Entry<V>>)
    requires it < |was| && now == was[..it + 1] + Kept(was[it + 1..], refused)
    ensures now[it] == was[it]
    ensures was[it].key in refused ==> now == was[..it] + Kept(was[it..], refused)
    ensures was[it].key !in refused ==> now[..it] + now[it + 1..] == was[..it] + Kept(was[it..], refused)
  {
    var a, x, b := was[..it], was[it], Kept(was[it + 1..], refused);
    SplitAround(a, x, b);
    assert now == a + ([x] + b) by {
      assert was[..it + 1] == a + [x];
    }
    KeptStep(was, it, refused);
    if x.key in refused {
      assert Kept(was[it..], refused) == [x] + b;
    } else {
      assert Kept(was[it..], refused) == b;
    }
  }

  // ----- The class -----

  class SimpleLruCache<V(0, !new)> {
    var minCapacity: nat
    var maxCapacity: nat
    var requestedCapacity: nat
    var realCapacity: nat
    var cache: seq<Entry<V>>
    var pool: seq<Entry<V>>

    constructor (capacity: nat)
      ensures cache == [] && pool == []
      ensures requestedCapacity == realCapacity == capacity
      ensures minCapacity == 0 && maxCapacity == SIZE_MAX
    {
      minCapacity, maxCapacity := 0, SIZE_MAX;
      requestedCapacity, realCapacity := capacity, capacity;
      cache, pool := [], [];
    }

    /** `refused` are the keys whose entries the eviction callback refuses to give up.
        `evicted` lists the entries it accepted, in list order; the loop offers them back to front. */
    method Trim(refused: set<Key>) returns (evicted: seq<Entry<V>>)
      modifies this`cache, this`pool
      ensures cache == Trimmed(old(cache), realCapacity, refused)
      ensures evicted == TrimmedAway(old(cache), realCapacity, refused)
      ensures pool == evicted + old(pool)
    {
      evicted := [];
      if |cache| <= realCapacity {
        FitsUntrimmed(cache, realCapacity, refused);
      } else {
        TrimmedSplit(cache, realCapacity, refused);
        var nItemsToDelete := |cache| - realCapacity;
        var it := |cache| - 1;
        ghost var was, m := cache, |cache|;
        for i := 0 to nItemsToDelete
          invariant m == |was| - i && realCapacity + nItemsToDelete == |was|
          invariant i < nItemsToDelete ==> it == m - 1
          invariant cache == was[..m] + Kept(was[m..], refused)
          invariant evicted == Dropped(was[m..], refused)
          invariant pool == evicted + old(pool)
        {
          var prevIt := it;
          var end := it == 0;
          if !end {
            prevIt := it - 1;
          }
          TrimStep(was, it, refused, cache);
          KeptStep(was, it, refused);
          m := it;
          var e := cache[it];
          if e.key !in refused {
            ConsAppend(e, evicted, old(pool));
            cache := cache[..it] + cache[it + 1..];
            pool := [e] + pool;
            evicted := [e] + evicted;
          }
          if !end {
            it := prevIt;
          }
        }
      }
    }

    /** `stored` says whether a node for `key` now heads the list, for the caller to fill.
        A node fresh or from the pool holds an arbitrary value until then. */
    method Lookup(key: Key, lookupOnly: bool, refused: set<Key>)
      returns (found: bool, stored: bool, evicted: seq<Entry<V>>)
      modifies this`cache, this`pool
      ensures found <==> key in Keys(old(cache))
      ensures found ==> stored && evicted == [] && pool == old(pool)
                        && cache == [Find(old(cache), key)] + Removed(old(cache), key)
      ensures !found && lookupOnly ==> !stored && evicted == [] && cache == old(cache) && pool == old(pool)
      ensures !found && !lookupOnly ==>
                && stored == (realCapacity != 0)
                && evicted == TrimmedAway(old(cache), realCapacity, refused)
                && var rest := Trimmed(old(cache), realCapacity, refused);
                   if stored then cache != [] && cache[0].key == key && cache[1..] == rest else cache == rest
    {
      evicted := [];
      var it := 0;
      while it != |cache|
        invariant 0 <= it <= |cache| && cache == old(cache) && pool == old(pool)
        invariant forall j :: 0 <= j < it ==> cache[j].key != key
      {
        if cache[it].key == key {
          RemovedAt(cache, it);
          if it != 0 {
            cache := [cache[it]] + (cache[..it] + cache[it + 1..]);
          }
          return true, true, evicted;
        }
        it := it + 1;
      }
      found := false;
      if lookupOnly {
        return false, false, evicted;
      }
      evicted := Trim(refused);
      if realCapacity != 0 {
        if pool != [] {
          cache, pool := [pool[0].(key := key)] + cache, pool[1..];
        } else {
          var blank: V := *;
          cache := [Entry(key, blank)] + cache;
        }
        return false, true, evicted;
      }
      stored := false;
    }

    /** Writes through the `V*` that `Lookup` returned. */
    method SetFront(value: V)
      requires cache != []
      modifies this`cache
      ensures cache == [Entry(old(cache)[0].key, value)] + old(cache)[1..]
    {
      cache := [cache[0].(value := value)] + cache[1..];
    }

    /** Writes through a `V*` returned earlier, for a key whose node is still on the list. */
    method SetValue(key: Key, value: V)
      requires key in Keys(cache)
      modifies this`cache
      ensures Keys(cache) == Keys(old(cache)) && Find(cache, key).value == value
      ensures forall e :: e in cache ==> e == Entry(key, value) || e in old(cache)
      ensures exists i :: 0 <= i < |cache| && cache == old(cache)[i := Entry(key, value)] && old(cache)[i].key == key
    {
      ghost var was := cache;
      var it := 0;
      while cache[it].key != key
        invariant 0 <= it < |cache| && cache == was
        invariant forall j :: 0 <= j < it ==> cache[j].key != key
        invariant exists j :: it <= j < |cache| && Keys(cache)[j] == key
        decreases |cache| - it
      {
        it := it + 1;
      }
      cache := cache[it := cache[it].(value := value)];
      RemovedAt(cache, it);
    }

    method Remove(key: Key)
      modifies this`cache, this`pool
      ensures key !in Keys(old(cache)) ==> cache == old(cache) && pool == old(pool)
      ensures key in Keys(old(cache)) ==>
                cache == Removed(old(cache), key) && pool == [Find(old(cache), key)] + old(pool)
    {
      var it := 0;
      while it != |cache|
        invariant 0 <= it <= |cache| && cache == old(cache) && pool == old(pool)
        invariant forall j :: 0 <= j < it ==> cache[j].key != key
      {
        if cache[it].key == key {
          RemovedAt(cache, it);
          cache, pool := cache[..it] + cache[it + 1..], [cache[it]] + pool;
          return;
        }
        it := it + 1;
      }
    }

    method Resize(newCap: nat, refused: set<Key>) returns (evicted: seq<Entry<V>>)
      modifies this`cache, this`pool, this`requestedCapacity, this`realCapacity
      ensures requestedCapacity == newCap && realCapacity == Clamp(newCap, minCapacity, maxCapacity)
      ensures cache == Trimmed(old(cache), realCapacity, refused)
      ensures evicted == TrimmedAway(old(cache), realCapacity, refused)
    {
      requestedCapacity := newCap;
      realCapacity := Clamp(requestedCapacity, minCapacity, maxCapacity);
      evicted := Trim(refused);
    }

    method SetLimits(min: nat, max: nat, refused: set<Key>) returns (evicted: seq<Entry<V>>)
      modifies this
      ensures minCapacity == min && maxCapacity == max && requestedCapacity == old(requestedCapacity)
      ensures realCapacity == Clamp(requestedCapacity, min, max)
      ensures cache == Trimmed(old(cache), realCapacity, refused)
      ensures evicted == TrimmedAway(old(cache), realCapacity, refused)
    {
      minCapacity, maxCapacity := min, max;
      evicted := Resize(requestedCapacity, refused);
    }
  }

  // ----- Refinement of "the most recently used keys" -----

  /** Where `key` was last used in `trace`, or -1. */
  function LastUse(trace: seq<Key>, key: Key): (i: int)
    ensures -1 <= i < |trace|
    ensures i >= 0 <==> key in trace
    ensures i >= 0 ==> trace[i] == key
    ensures forall j :: i < j < |trace| ==> trace[j] != key
  {
    if trace == [] then -1
    else if trace[|trace| - 1] == key then |trace| - 1
    else LastUse(trace[..|trace| - 1], key)
  }

  /** Every key was last used after all the keys listed behind it. */
  ghost predicate LatestFirst(trace: seq<Key>, order: seq<Key>) {
    order != [] ==>
      && (forall k :: k in order[1..] ==> LastUse(trace, order[0]) > LastUse(trace, k))
      && LatestFirst(trace, order[1..])
  }

  /** `order` lists the distinct keys of `trace`, the most recently used first. */
  ghost predicate IsRecencyOrder(trace: seq<Key>, order: seq<Key>) {
    && (forall k :: k in order <==> k in trace)
    && LatestFirst(trace, order)
  }

  function Without(s: seq<Key>, key: Key): (r: seq<Key>) {
    if s == [] then [] else if s[0] == key then s[1..] else [s[0]] + Without(s[1..], key)
  }

  /** The recency order, computed one use at a time. */
  function Recency(trace: seq<Key>): (order: seq<Key>) {
    if trace == [] then []
    else [trace[|trace| - 1]] + Without(Recency(trace[..|trace| - 1]), trace[|trace| - 1])
  }

  lemma {:induction false} WithoutLatestFirst(trace: seq<Key>, order: seq<Key>, key: Key)
    requires LatestFirst(trace, order)
    ensures LatestFirst(trace, Without(order, key))
    ensures forall k :: k in Without(order, key) <==> k in order && k != key
  {
    if order != [] {
      assert order == [order[0]] + order[1..];
      if order[0] != key {
        WithoutLatestFirst(trace, order[1..], key);
        assert Without(order, key)[1..] == Without(order[1..], key);
      }
    }
  }

  lemma {:induction false} UseKeepsOrder(trace: seq<Key>, key: Key, rest: seq<Key>)
    requires LatestFirst(trace, rest) && key !in rest
    ensures LatestFirst(trace + [key], rest)
  {
    var longer := trace + [key];
    assert longer[..|trace|] == trace;
    if rest != [] {
      assert rest[0] in rest;
      forall k | k in rest[1..] ensures LastUse(longer, rest[0]) > LastUse(longer, k) {
        assert k in rest;
      }
      UseKeepsOrder(trace, key, rest[1..]);
    }
  }

  lemma {:induction false} RecencyIsOrder(trace: seq<Key>)
    ensures IsRecencyOrder(trace, Recency(trace))
  {
    if trace != [] {
      var shorter, key := trace[..|trace| - 1], trace[|trace| - 1];
      RecencyIsOrder(shorter);
      var rest := Without(Recency(shorter), key);
      WithoutLatestFirst(shorter, Recency(shorter), key);
      UseKeepsOrder(shorter, key, rest);
      assert trace == shorter + [key];
      assert Recency(trace)[1..] == rest;
    }
  }

  lemma EmptyTogether(a: seq<Key>, b: seq<Key>)
    requires forall k :: k in a <==> k in b
    ensures a == [] <==> b == []
  {
    if a != [] {
      var k: Key := a[0];
      assert k in a && k in b;
    }
    if b != [] {
      var k: Key := b[0];
      assert k in b;
      assert k in a;
    }
  }

  /** The recency order is unique, so `Recency` is no arbitrary choice. */
  lemma {:induction false} RecencyOrderUnique(trace: seq<Key>, a: seq<Key>, b: seq<Key>)
    requires LatestFirst(trace, a) && LatestFirst(trace, b)
    requires forall k :: k in a <==> k in b
    requires forall k :: k in a ==> k in trace
    ensures a == b
  {
    EmptyTogether(a, b);
    if a != [] {
      assert a == [a[0]] + a[1..] && b == [b[0]] + b[1..];
      assert a[0] in a && b[0] in b;
      assert LastUse(trace, a[0]) == LastUse(trace, b[0]);
      assert a[0] == b[0];
      RecencyOrderUnique(trace, a[1..], b[1..]);
    }
  }

  /** One inserting lookup at capacity `cap` when every eviction is accepted, on keys alone. */
  function Touch(order: seq<Key>, cap: nat, key: Key): (r: seq<Key>) {
    if key in order then [key] + Without(order, key)
    else
      var rest := Take(order, cap);
      if cap == 0 then rest else [key] + rest
  }

  function Touches(trace: seq<Key>, cap: nat): (order: seq<Key>) {
    if trace == [] then []
    else Touch(Touches(trace[..|trace| - 1], cap), cap, trace[|trace| - 1])
  }

  function Take<T>(s: seq<T>, n: nat): (r: seq<T>)
    ensures r == if n <= |s| then s[..n] else s
  {
    if n == 0 || s == [] then [] else [s[0]] + Take(s[1..], n - 1)
  }

  lemma {:induction false} WithoutTake(s: seq<Key>, n: nat, key: Key)
    ensures key in Take(s, n + 1) ==> Without(Take(s, n + 1), key) == Take(Without(s, key), n)
    ensures key !in Take(s, n + 1) ==> Take(Without(s, key), n) == Take(s, n)
  {
    if s != [] {
      assert Take(s, n + 1) == [s[0]] + Take(s[1..], n);
      assert Take(s, n + 1)[1..] == Take(s[1..], n);
      if s[0] != key && n > 0 {
        WithoutTake(s[1..], n - 1, key);
        assert Without(s, key)[1..] == Without(s[1..], key);
      }
    }
  }

  lemma {:induction false} TakeTake<T>(s: seq<T>, n: nat, m: nat)
    requires n <= m
    ensures Take(Take(s, m), n) == Take(s, n)
    ensures Take(s, n) <= Take(s, m)
  {
  }

  /** At capacity C the list holds the C + 1 most recently used keys, not C:
      a full list is trimmed before the new node is added, never after. */
  lemma {:induction false} HoldsMostRecentlyUsed(trace: seq<Key>, cap: nat)
    requires cap >= 1
    ensures Touches(trace, cap) == Take(Recency(trace), cap + 1)
  {
    if trace != [] {
      var shorter, key := trace[..|trace| - 1], trace[|trace| - 1];
      HoldsMostRecentlyUsed(shorter, cap);
      var full := Recency(shorter);
      WithoutTake(full, cap, key);
      TakeTake(full, cap, cap + 1);
      assert ([key] + Without(full, key))[1..] == Without(full, key);
    }
  }

  /** A larger cache always contains what a smaller one holds, in the same order. */
  lemma LargerCacheContainsSmaller(trace: seq<Key>, small: nat, large: nat)
    requires 1 <= small <= large
    ensures Touches(trace, small) <= Touches(trace, large)
  {
    HoldsMostRecentlyUsed(trace, small);
    HoldsMostRecentlyUsed(trace, large);
    TakeTake(Recency(trace), small + 1, large + 1);
  }

  lemma {:induction false} RemovedKeys<V>(list: seq<Entry<V>>, key: Key)
    ensures Keys(Removed(list, key)) == Without(Keys(list), key)
  {
    if list != [] {
      assert Keys(list)[1..] == Keys(list[1..]);
      if list[0].key != key {
        RemovedKeys(list[1..], key);
      }
    }
  }

  lemma {:induction false} MissedTouches<V(!new)>(was: seq<Entry<V>>, cap: nat)
    ensures Keys(Trimmed(was, cap, {})) == Take(Keys(was), cap)
  {
    if was != [] {
      assert Keys(was)[1..] == Keys(was[1..]);
      MissedTouches(was[1..], if cap > 0 then cap - 1 else 0);
    }
  }

  /** An inserting lookup whose evictions are all accepted, and the caller's write of the value. */
  lemma FoundTouch<V(!new)>(was: seq<Entry<V>>, now: seq<Entry<V>>, cap: nat, key: Key)
    requires key in Keys(was) && now == [Find(was, key)] + Removed(was, key) && Find(was, key).key == key
    ensures Keys(now) == Touch(Keys(was), cap, key)
  {
    RemovedKeys(was, key);
    assert Keys(now) == [key] + Keys(Removed(was, key));
  }

  lemma MissedTouch<V(!new)>(was: seq<Entry<V>>, now: seq<Entry<V>>, cap: nat, key: Key)
    requires key !in Keys(was)
    requires if cap == 0 then now == Trimmed(was, cap, {})
             else now != [] && now[0].key == key && now[1..] == Trimmed(was, cap, {})
    ensures Keys(now) == Touch(Keys(was), cap, key)
  {
    MissedTouches(was, cap);
    if cap != 0 {
      KeysFront(now);
    }
  }

  lemma KeysFront<V>(list: seq<Entry<V>>)
    requires list != []
    ensures Keys(list) == [list[0].key] + Keys(list[1..])
  {
  }

  method Use<V(0, !new)>(lru: SimpleLruCache<V>, key: Key, value: V)
    modifies lru
    ensures lru.realCapacity == old(lru.realCapacity)
    ensures Keys(lru.cache) == Touch(Keys(old(lru.cache)), lru.realCapacity, key)
  {
    ghost var was := lru.cache;
    var found, stored, _ := lru.Lookup(key, false, {});
    if found {
      FoundTouch(was, lru.cache, lru.realCapacity, key);
    } else {
      if stored {
        lru.SetFront(value);
      }
      MissedTouch(was, lru.cache, lru.realCapacity, key);
    }
  }

  lemma TouchesStep(trace: seq<Key>, n: nat, cap: nat)
    requires n < |trace|
    ensures Touches(trace[..n + 1], cap) == Touch(Touches(trace[..n], cap), cap, trace[n])
  {
    assert trace[..n + 1][..n] == trace[..n];
  }

  /** Drives the list itself through any trace of inserting lookups that accept every eviction. */
  method RunTrace<V(0, !new)>(capacity: nat, trace: seq<Key>, value: V) returns (held: seq<Key>)
    ensures held == Touches(trace, capacity)
    ensures capacity >= 1 ==> held == Take(Recency(trace), capacity + 1)
  {
    var lru := new SimpleLruCache<V>(capacity);
    for n := 0 to |trace|
      invariant fresh(lru) && lru.realCapacity == capacity
      invariant Keys(lru.cache) == Touches(trace[..n], capacity)
    {
      Use(lru, trace[n], value);
      TouchesStep(trace, n, capacity);
    }
    assert trace[..|trace|] == trace;
    held := Keys(lru.cache);
    if capacity >= 1 {
      HoldsMostRecentlyUsed(trace, capacity);
    }
  }
}
