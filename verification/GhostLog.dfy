/** What the ghost list of avs_core/core/LruCache.h is to remember, told as a log: which keys the cache has evicted, was
    asked for, and could not store. */
module GhostLog {
  import opened SimpleLru

  /** `Forgotten` is a request for a key that is neither cached nor known to the ghosts; its count begins anew. */
  datatype Note = Evicted(key: Key) | Asked(key: Key) | Forgotten(key: Key) | Refused(key: Key)

  /** How often `key` was evicted or could not be stored, since it was last unknown. */
  function Count(log: seq<Note>, key: Key): (n: nat)
    decreases |log|
  {
    if log == [] then 0
    else
      var before, last := Count(log[..|log| - 1], key), log[|log| - 1];
      if last.key != key || last.Asked? then before else if last.Forgotten? then 0 else before + 1
  }

  /** The keys the ghost list has met, in order. */
  function Uses(log: seq<Note>): (trace: seq<Key>)
    decreases |log|
  {
    if log == [] then []
    else
      var before, last := Uses(log[..|log| - 1]), log[|log| - 1];
      if last.Refused? then before else before + [last.key]
  }

  /** At least so many keys are always remembered. */
  const REMEMBERED: nat := 50

  /** The most recently used of the keys, which the ghosts must know. */
  function Recent(log: seq<Note>): (keys: seq<Key>) {
    Take(Recency(Uses(log)), REMEMBERED)
  }

  /** No key is forgotten that is among the most recently used. */
  ghost predicate Honest(log: seq<Note>) {
    forall i :: 0 <= i < |log| && log[i].Forgotten? ==> log[i].key !in Recent(log[..i])
  }

  /** The ghosts count what the log counts, and know at least the most recently used keys. */
  ghost predicate Remembers(ghosts: seq<Entry<nat>>, log: seq<Note>) {
    && Distinct(Keys(ghosts))
    && (forall e :: e in ghosts ==> e.value == Count(log, e.key))
    && Recent(log) <= Keys(ghosts)
    && Honest(log)
  }

  // ----- The log grows -----

  lemma Noted(log: seq<Note>, note: Note, key: Key)
    ensures Count(log + [note], key)
      == if note.key != key || note.Asked? then Count(log, key) else if note.Forgotten? then 0 else Count(log, key) + 1
    ensures Uses(log + [note]) == if note.Refused? then Uses(log) else Uses(log) + [note.key]
  {
    assert (log + [note])[..|log|] == log;
  }

  lemma HonestNoted(log: seq<Note>, note: Note)
    requires Honest(log) && (note.Forgotten? ==> note.key !in Recent(log))
    ensures Honest(log + [note])
  {
    var longer := log + [note];
    forall i | 0 <= i < |longer| && longer[i].Forgotten? ensures longer[i].key !in Recent(longer[..i]) {
      assert longer[..i] == log[..i];
      assert i == |log| ==> log[..i] == log;
    }
  }

  // ----- Recency -----

  lemma {:induction false} PrefixWithout(a: seq<Key>, b: seq<Key>, key: Key)
    requires a <= b
    ensures key in a ==> Without(a, key) <= Without(b, key)
    ensures key !in a ==> a <= Without(b, key)
    decreases a
  {
    if a != [] {
      assert a[0] == b[0] && a[1..] <= b[1..];
      PrefixWithout(a[1..], b[1..], key);
    }
  }

  lemma UsedOnce(log: seq<Note>, note: Note)
    requires !note.Refused?
    ensures Recency(Uses(log + [note])) == [note.key] + Without(Recency(Uses(log)), note.key)
  {
    Noted(log, note, note.key);
    assert (Uses(log) + [note.key])[..|Uses(log)|] == Uses(log);
  }

  /** A use brings its key to the front, of the log's order and of the ghosts'. */
  lemma UseKeepsRecent(log: seq<Note>, note: Note, keys: seq<Key>, cap: nat)
    requires Recent(log) <= keys && cap >= REMEMBERED && !note.Refused?
    ensures Recent(log + [note]) <= Touch(keys, cap, note.key)
  {
    var order, key := Recency(Uses(log)), note.key;
    UsedOnce(log, note);
    var rest := Without(order, key);
    assert ([key] + rest)[1..] == rest;
    assert Recent(log + [note]) == [key] + Take(rest, REMEMBERED - 1);
    TouchedPrefix(order, keys, cap, key);
  }

  lemma TouchedPrefix(order: seq<Key>, keys: seq<Key>, cap: nat, key: Key)
    requires Take(order, REMEMBERED) <= keys && cap >= REMEMBERED
    ensures [key] + Take(Without(order, key), REMEMBERED - 1) <= Touch(keys, cap, key)
  {
    var recent, fewer := Take(order, REMEMBERED), Take(order, REMEMBERED - 1);
    WithoutTake(order, REMEMBERED - 1, key);
    PrefixWithout(recent, keys, key);
    if key !in recent {
      assert fewer <= recent;
      assert fewer <= if key in keys then Without(keys, key) else Take(keys, cap);
    }
  }

  lemma {:induction false} LaterAhead(trace: seq<Key>, order: seq<Key>, i: nat, j: nat)
    requires LatestFirst(trace, order) && i < j < |order|
    ensures LastUse(trace, order[i]) > LastUse(trace, order[j])
    decreases order
  {
    if i > 0 {
      LaterAhead(trace, order[1..], i - 1, j - 1);
    } else {
      assert order[1..][j - 1] == order[j];
    }
  }

  lemma {:induction false} DistinctSet(s: seq<Key>, within: set<Key>)
    requires Distinct(s) && forall k :: k in s ==> k in within
    ensures |s| <= |within|
    decreases s
  {
    if s != [] {
      assert s == [s[0]] + s[1..];
      var k, others := s[0], within - {s[0]};
      assert k in s && k in within;
      DistinctSet(s[1..], others);
      assert within == others + {k};
    }
  }

  lemma {:induction false} RecencyDistinct(trace: seq<Key>)
    ensures Distinct(Recency(trace))
    decreases |trace|
  {
    if trace != [] {
      RecencyDistinct(trace[..|trace| - 1]);
      var rest := Without(Recency(trace[..|trace| - 1]), trace[|trace| - 1]);
      DistinctWithout(Recency(trace[..|trace| - 1]), trace[|trace| - 1]);
      assert Recency(trace)[1..] == rest;
    }
  }

  /** A key stays among those that must be known while fewer than fifty others are used after it. */
  lemma StaysRecent(log: seq<Note>, key: Key, others: set<Key>)
    requires key in Uses(log) && |others| < REMEMBERED
    requires forall j :: LastUse(Uses(log), key) < j < |Uses(log)| ==> Uses(log)[j] in others
    ensures key in Recent(log)
  {
    var trace := Uses(log);
    var order := Recency(trace);
    RecencyIsOrder(trace);
    RecencyDistinct(trace);
    var i :| 0 <= i < |order| && order[i] == key;
    forall k | k in order[..i] ensures k in others {
      var j :| 0 <= j < i && order[j] == k;
      LaterAhead(trace, order, j, i);
      assert trace[LastUse(trace, k)] == k;
    }
    DistinctTake(order, i);
    DistinctSet(order[..i], others);
    assert Recent(log)[i] == key;
  }

  /** A key that few others were used with is not forgotten. */
  lemma FewAreKnown(log: seq<Note>, longer: seq<Note>, key: Key, keys: set<Key>)
    requires log <= longer && Honest(longer) && key in Uses(log) && |keys| <= REMEMBERED
    requires forall n :: n in longer ==> n.key in keys
    ensures Forgotten(key) !in longer[|log|..]
  {
    if Forgotten(key) in longer[|log|..] {
      var i :| |log| <= i < |longer| && longer[i] == Forgotten(key);
      var then_ := longer[..i];
      UsesGrow(log, then_, key);
      UsesWithin(then_, keys);
      var trace := Uses(then_);
      assert key in keys;
      forall j | LastUse(trace, key) < j < |trace| ensures trace[j] in keys - {key} { assert trace[j] in trace; }
      StaysRecent(then_, key, keys - {key});
    }
  }

  lemma {:induction false} UsesWithin(log: seq<Note>, keys: set<Key>)
    requires forall n :: n in log ==> n.key in keys
    ensures forall k :: k in Uses(log) ==> k in keys
    decreases |log|
  {
    if log != [] { UsesWithin(log[..|log| - 1], keys); }
  }

  // ----- The ghost list -----

  lemma {:induction false} DistinctTake(s: seq<Key>, n: nat)
    requires Distinct(s)
    ensures Distinct(Take(s, n))
    decreases s
  {
    if s != [] && n > 0 {
      DistinctTake(s[1..], n - 1);
      assert Take(s, n)[1..] == Take(s[1..], n - 1);
    }
  }

  lemma {:induction false} DistinctWithout(s: seq<Key>, key: Key)
    requires Distinct(s)
    ensures Distinct(Without(s, key)) && key !in Without(s, key)
    ensures forall k :: k in Without(s, key) ==> k in s
    decreases s
  {
    if s != [] {
      assert s == [s[0]] + s[1..];
      if s[0] != key {
        DistinctWithout(s[1..], key);
        assert Without(s, key)[1..] == Without(s[1..], key);
      }
    }
  }

  lemma DistinctTouch(s: seq<Key>, cap: nat, key: Key)
    requires Distinct(s) && cap > 0
    ensures Distinct(Touch(s, cap, key))
  {
    var r := Touch(s, cap, key);
    if key in s {
      DistinctWithout(s, key);
      assert r[1..] == Without(s, key);
    } else {
      DistinctTake(s, cap);
      assert r[1..] == Take(s, cap);
    }
  }

  lemma KeyOf(ghosts: seq<Entry<nat>>, e: Entry<nat>)
    requires e in ghosts
    ensures e.key in Keys(ghosts)
  {
    var i :| 0 <= i < |ghosts| && ghosts[i] == e;
    assert Keys(ghosts)[i] == e.key;
  }

  /** The key of the note has come to the front with its new count; nothing else has changed but that old ghosts may
      have gone. */
  lemma UseRemembered(was: seq<Entry<nat>>, now: seq<Entry<nat>>, log: seq<Note>, note: Note, cap: nat)
    requires Remembers(was, log) && cap >= REMEMBERED && !note.Refused?
    requires Keys(now) == Touch(Keys(was), cap, note.key)
    requires now != [] && now[0] == Entry(note.key, Count(log + [note], note.key))
    requires forall e :: e in now[1..] ==> e in was
    requires note.Forgotten? ==> note.key !in Keys(was)
    ensures Remembers(now, log + [note])
  {
    UseKeepsRecent(log, note, Keys(was), cap);
    DistinctTouch(Keys(was), cap, note.key);
    assert note.Forgotten? && note.key in Recent(log) ==> note.key in Keys(was);
    HonestNoted(log, note);
    CountsNoted(was, now, log, note);
  }

  lemma CountsNoted(was: seq<Entry<nat>>, now: seq<Entry<nat>>, log: seq<Note>, note: Note)
    requires (forall e :: e in was ==> e.value == Count(log, e.key)) && Distinct(Keys(now))
    requires now != [] && now[0] == Entry(note.key, Count(log + [note], note.key))
    requires forall e :: e in now[1..] ==> e in was
    ensures forall e :: e in now ==> e.value == Count(log + [note], e.key)
  {
    assert now == [now[0]] + now[1..] && Keys(now)[1..] == Keys(now[1..]);
    forall e | e in now ensures e.value == Count(log + [note], e.key) {
      if e in now[1..] {
        KeyOf(now[1..], e);
        Noted(log, note, e.key);
      }
    }
  }

  /** One ghost more has been refused storage. */
  lemma RefusalRemembered(was: seq<Entry<nat>>, now: seq<Entry<nat>>, log: seq<Note>, key: Key)
    requires Remembers(was, log) && Keys(now) == Keys(was)
    requires forall e :: e in now ==> if e.key == key then e.value == Count(log, key) + 1 else e in was
    ensures Remembers(now, log + [Refused(key)])
  {
    forall e | e in now ensures e.value == Count(log + [Refused(key)], e.key) {
      Noted(log, Refused(key), e.key);
    }
    Noted(log, Refused(key), key);
    HonestNoted(log, Refused(key));
  }

  lemma {:induction false} NoneKept(ghosts: seq<Entry<nat>>)
    ensures Kept(ghosts, {}) == []
    decreases ghosts
  {
    if ghosts != [] { NoneKept(ghosts[1..]); }
  }

  /** The ghost list may lose its end. */
  lemma TrimRemembered(was: seq<Entry<nat>>, log: seq<Note>, cap: nat)
    requires Remembers(was, log) && cap >= REMEMBERED
    ensures Remembers(Trimmed(was, cap, {}), log)
  {
    var now := Trimmed(was, cap, {});
    MissedTouches(was, cap);
    DistinctTake(Keys(was), cap);
    if |was| > cap {
      TrimmedSplit(was, cap, {});
      NoneKept(was[cap..]);
    } else {
      FitsUntrimmed(was, cap, {});
    }
    assert forall e :: e in now ==> e in was;
  }

  // ----- Evictions -----

  lemma {:induction false} EvictionsOnly(keys: seq<Key>)
    ensures forall n :: n in Evictions(keys) ==> n.Evicted?
    decreases keys
  {
    if keys != [] { EvictionsOnly(keys[1..]); }
  }

  /** The notes since then are on the key itself or on keys that were on the list. */
  ghost predicate Concerns(log: seq<Note>, longer: seq<Note>, key: Key, was: seq<Key>) {
    log <= longer && forall i :: |log| <= i < |longer| ==> longer[i].key == key || longer[i].key in was
  }

  lemma {:induction false} UsesGrow(log: seq<Note>, longer: seq<Note>, key: Key)
    requires log <= longer && key in Uses(log)
    ensures key in Uses(longer)
    decreases |longer|
  {
    if |log| < |longer| {
      var before := longer[..|longer| - 1];
      UsesGrow(log, before, key);
      Noted(before, longer[|longer| - 1], key);
      assert longer == before + [longer[|longer| - 1]];
    } else {
      assert log == longer;
    }
  }

  lemma {:induction false} EvictionsRaise(log: seq<Note>, keys: seq<Key>, key: Key)
    ensures Count(log + Evictions(keys), key) >= Count(log, key) + if key in keys then 1 else 0
    ensures forall n :: n in Evictions(keys) ==> n.key in keys
    decreases keys
  {
    if keys == [] {
      assert log + [] == log;
    } else {
      EvictionsRaise(log, keys[1..], key);
      EvictionNext(log, keys, 0);
      assert keys[0..] == keys;
      Noted(log + Evictions(keys[1..]), Evicted(keys[0]), key);
      assert keys == [keys[0]] + keys[1..];
    }
  }

  /** Only keys on the list are evicted. */
  lemma EvictionsOf(log: seq<Note>, keys: seq<Key>, was: seq<Key>, now: seq<Key>)
    requires Counted(log, log + Evictions(keys), was, now)
    ensures forall n :: n in Evictions(keys) ==> n.key in was
  {
    forall n | n in Evictions(keys) ensures n.key in was { EvictionsRaise(log, keys, n.key); }
  }

  /** What a request for a key that is not cached does to the counts: that of the key begins anew if it was forgotten, and
      goes up if it cannot be stored; that of each other key goes up if it has left the list. */
  ghost predicate Asking(log: seq<Note>, longer: seq<Note>, key: Key, forgotten: bool, refused: bool, was: seq<Key>, now: seq<Key>) {
    && Concerns(log, longer, key, was) && key in Uses(longer) && (Forgotten(key) in longer[|log|..] <==> forgotten)
    && Count(longer, key) == (if forgotten then 0 else Count(log, key)) + (if refused then 1 else 0)
    && (forall k :: k != key ==> Count(longer, k) == Count(log, k) + if k in was && k !in now then 1 else 0)
  }

  lemma AskingBegins(log: seq<Note>, key: Key, forgotten: bool, was: seq<Key>)
    ensures Asking(log, log + [if forgotten then Forgotten(key) else Asked(key)], key, forgotten, false, was, was)
  {
    var note := if forgotten then Forgotten(key) else Asked(key);
    assert (log + [note])[|log|..] == [note];
    Noted(log, note, key);
    forall k ensures Count(log + [note], k) == if k == key && forgotten then 0 else Count(log, k) { Noted(log, note, k); }
  }

  lemma AskingEvicts(log: seq<Note>, mid: seq<Note>, keys: seq<Key>, key: Key, forgotten: bool,
                     was: seq<Key>, then_: seq<Key>, now: seq<Key>)
    requires Asking(log, mid, key, forgotten, false, was, then_) && Counted(mid, mid + Evictions(keys), then_, now)
    requires (forall k :: k in then_ ==> k in was) && (forall k :: k in now ==> k in then_) && key !in was
    ensures Asking(log, mid + Evictions(keys), key, forgotten, false, was, now)
  {
    EvictionsOnly(keys);
    EvictionsOf(mid, keys, then_, now);
    UsesGrow(mid, mid + Evictions(keys), key);
    var longer := mid + Evictions(keys);
    assert longer[|log|..] == mid[|log|..] + Evictions(keys);
  }

  lemma AskingAfter(log: seq<Note>, keys: seq<Key>, longer: seq<Note>, key: Key, forgotten: bool, refused: bool,
                    was: seq<Key>, then_: seq<Key>, now: seq<Key>)
    requires Counted(log, log + Evictions(keys), was, then_)
    requires Asking(log + Evictions(keys), longer, key, forgotten, refused, then_, now)
    requires (forall k :: k in then_ ==> k in was) && (forall k :: k in now && k != key ==> k in then_) && key !in was
    ensures Asking(log, longer, key, forgotten, refused, was, now)
  {
    EvictionsOnly(keys);
    EvictionsOf(log, keys, was, then_);
    var mid := log + Evictions(keys);
    assert longer == mid + longer[|mid|..];
    forall i | |log| <= i < |longer| ensures longer[i].key == key || longer[i].key in was {
      if i < |mid| { assert longer[i] == Evictions(keys)[i - |log|]; }
    }
    assert longer[|log|..] == Evictions(keys) + longer[|mid|..];
  }

  lemma AskingRefused(log: seq<Note>, mid: seq<Note>, key: Key, forgotten: bool, was: seq<Key>, now: seq<Key>)
    requires Asking(log, mid, key, forgotten, false, was, now)
    ensures Asking(log, mid + [Refused(key)], key, forgotten, true, was, now)
  {
    var longer := mid + [Refused(key)];
    assert longer[|log|..] == mid[|log|..] + [Refused(key)];
    UsesGrow(mid, longer, key);
    forall k ensures Count(longer, k) == Count(mid, k) + if k == key then 1 else 0 { Noted(mid, Refused(key), k); }
  }

  /** A node for the key itself has come to the list. */
  lemma AskingPlaced(log: seq<Note>, longer: seq<Note>, key: Key, forgotten: bool, refused: bool, was: seq<Key>, now: seq<Key>,
                     with: seq<Key>)
    requires Asking(log, longer, key, forgotten, refused, was, now)
    requires forall k :: k != key ==> (k in with <==> k in now)
    ensures Asking(log, longer, key, forgotten, refused, was, with)
  {
  }

  /** From one log to a longer one the keys that have gone from a list have been counted once more. */
  ghost predicate Counted(log: seq<Note>, longer: seq<Note>, was: seq<Key>, now: seq<Key>) {
    forall k :: Count(longer, k) == Count(log, k) + if k in was && k !in now then 1 else 0
  }

  lemma CountedTwice(a: seq<Note>, b: seq<Note>, c: seq<Note>, was: seq<Key>, mid: seq<Key>, now: seq<Key>)
    requires Counted(a, b, was, mid) && Counted(b, c, mid, now)
    requires (forall k :: k in mid ==> k in was) && (forall k :: k in now ==> k in mid)
    ensures Counted(a, c, was, now)
  {
  }

  /** A list that is trimmed, its evictions noted. */
  lemma TrimCounted<V(!new)>(log: seq<Note>, list: seq<Entry<V>>, cap: nat, locked: set<Key>)
    requires Distinct(Keys(list))
    ensures var notes := Evictions(Keys(TrimmedAway(list, cap, locked)));
      Counted(log, log + notes, Keys(list), Keys(Trimmed(list, cap, locked)))
  {
    var kept, away := Keys(Trimmed(list, cap, locked)), Keys(TrimmedAway(list, cap, locked));
    TrimShares(list, cap, locked);
    forall k ensures Count(log + Evictions(away), k) == Count(log, k) + if k in Keys(list) && k !in kept then 1 else 0 {
      EvictionsCount(log, away, k);
    }
  }

  /** What a trim keeps and what it removes share the keys between them. */
  lemma {:induction false} TrimShares<V(!new)>(list: seq<Entry<V>>, cap: nat, locked: set<Key>)
    requires Distinct(Keys(list))
    ensures var kept, away := Keys(Trimmed(list, cap, locked)), Keys(TrimmedAway(list, cap, locked));
      Distinct(kept) && Distinct(away) && forall k :: (k in Keys(list) <==> k in kept || k in away) && !(k in kept && k in away)
    decreases list
  {
    if list != [] {
      var x, rest := list[0], list[1..];
      var fewer := if cap > 0 then cap - 1 else 0;
      KeysFront(list);
      TrimShares(rest, fewer, locked);
      var kept, away := Trimmed(rest, fewer, locked), TrimmedAway(rest, fewer, locked);
      KeysFront([x] + kept);
      KeysFront([x] + away);
      assert ([x] + kept)[1..] == kept && ([x] + away)[1..] == away;
      if cap > 0 || x.key in locked {
        assert Trimmed(list, cap, locked) == [x] + kept && TrimmedAway(list, cap, locked) == away;
      } else {
        assert Trimmed(list, cap, locked) == kept && TrimmedAway(list, cap, locked) == [x] + away;
      }
    }
  }

  /** The callback runs back to front. */
  function Evictions(keys: seq<Key>): (notes: seq<Note>)
    decreases keys
  {
    if keys == [] then [] else Evictions(keys[1..]) + [Evicted(keys[0])]
  }

  lemma {:induction false} EvictionsCount(log: seq<Note>, keys: seq<Key>, key: Key)
    requires Distinct(keys)
    ensures Count(log + Evictions(keys), key) == Count(log, key) + if key in keys then 1 else 0
    decreases keys
  {
    if keys == [] {
      assert log + [] == log;
    } else {
      EvictionsCount(log, keys[1..], key);
      assert log + Evictions(keys) == log + Evictions(keys[1..]) + [Evicted(keys[0])];
      Noted(log + Evictions(keys[1..]), Evicted(keys[0]), key);
      assert keys == [keys[0]] + keys[1..];
    }
  }

  lemma EvictionNext(log: seq<Note>, keys: seq<Key>, n: nat)
    requires n < |keys|
    ensures log + Evictions(keys[n..]) == log + Evictions(keys[n + 1..]) + [Evicted(keys[n])]
  {
    assert keys[n..][1..] == keys[n + 1..];
  }
}
