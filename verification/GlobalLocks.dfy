/** The registry of named locks (GlobalLockManager in avs_core/core/avisynth.cpp). Each event is one section of
    code under the registry's own mutex, or the return of a wait for a named mutex. */
module GlobalLocks {
  import opened Collections
  import opened Options

  type Name = string
  type Thread = int
  type EntryId = int

  /** A node of the registry; a thread that waits or holds keeps pointing at it. */
  datatype Entry = Entry(name: Name, users: int, owner: Option<Thread>)

  datatype Wait = Wait(name: Name, entry: EntryId)

  /** `waiting` are the threads inside `acquire` after their reservation, `held` the locks whose `acquire` has
      returned and whose `release` is still to come. */
  datatype Registry = Registry(
    names: map<Name, EntryId>, entries: map<EntryId, Entry>, waiting: map<Thread, Wait>, held: set<(Thread, Name)>)

  datatype Event =
    | Reserve(t: Thread, name: Name, node: EntryId)   // `node` is where a new node would be allocated
    | LockSucceeds(t: Thread)
    | LockFails(t: Thread)
    | Release(t: Thread, name: Name)

  /** Callers are balanced: a thread releases only what it holds. Releasing a name nobody uses is harmless. */
  ghost predicate Enabled(s: Registry, e: Event) {
    match e
    case Reserve(t, n, node) => t !in s.waiting && node !in s.entries
    case LockSucceeds(t) => t in s.waiting && s.waiting[t].entry in s.entries && s.entries[s.waiting[t].entry].owner == None
    case LockFails(t) => t in s.waiting && s.waiting[t].entry in s.entries
    case Release(t, n) => t !in s.waiting && ((t, n) in s.held || n !in s.names) && (n in s.names ==> s.names[n] in s.entries)
  }

  ghost function ReserveStep(s: Registry, t: Thread, n: Name, node: EntryId): (r: Registry) {
    if n in s.names && s.names[n] in s.entries then
      var id := s.names[n];
      s.(entries := s.entries[id := s.entries[id].(users := s.entries[id].users + 1)], waiting := s.waiting[t := Wait(n, id)])
    else
      s.(names := s.names[n := node], entries := s.entries[node := Entry(n, 1, None)], waiting := s.waiting[t := Wait(n, node)])
  }

  ghost function LockStep(s: Registry, t: Thread): (r: Registry)
    requires t in s.waiting && s.waiting[t].entry in s.entries
  {
    var Wait(n, id) := s.waiting[t];
    s.(entries := s.entries[id := s.entries[id].(owner := Some(t))], waiting := s.waiting - {t}, held := s.held + {(t, n)})
  }

  /** One user fewer; the node goes with its last user. */
  ghost function DropUser(s: Registry, id: EntryId, owner: Option<Thread>): (r: Registry)
    requires id in s.entries
  {
    var users := s.entries[id].users - 1;
    if users == 0 then s.(names := s.names - {s.entries[id].name}, entries := s.entries - {id})
    else s.(entries := s.entries[id := s.entries[id].(users := users, owner := owner)])
  }

  ghost function FailStep(s: Registry, t: Thread): (r: Registry)
    requires t in s.waiting && s.waiting[t].entry in s.entries
  {
    var id := s.waiting[t].entry;
    DropUser(s, id, s.entries[id].owner).(waiting := s.waiting - {t})
  }

  ghost function ReleaseStep(s: Registry, t: Thread, n: Name): (r: Registry)
    requires n in s.names ==> s.names[n] in s.entries
  {
    if n !in s.names then s else DropUser(s, s.names[n], None).(held := s.held - {(t, n)})
  }

  ghost function Next(s: Registry, e: Event): (r: Registry)
    requires Enabled(s, e)
  {
    match e
    case Reserve(t, n, node) => ReserveStep(s, t, n, node)
    case LockSucceeds(t) => LockStep(s, t)
    case LockFails(t) => FailStep(s, t)
    case Release(t, n) => ReleaseStep(s, t, n)
  }

  const START := Registry(map[], map[], map[], {})

  // ----- What every state satisfies -----

  ghost function Waiters(waiting: map<Thread, Wait>, n: Name): (r: set<Thread>) {
    set t | t in waiting && waiting[t].name == n
  }

  function Holds(owner: Option<Thread>): (n: nat) {
    if owner.Some? then 1 else 0
  }

  /** Names and live nodes are in bijection. */
  ghost predicate Indexed(s: Registry) {
    && (forall n :: n in s.names ==> s.names[n] in s.entries && s.entries[s.names[n]].name == n)
    && (forall id :: id in s.entries ==> s.entries[id].name in s.names && s.names[s.entries[id].name] == id)
  }

  /** Everybody waits at the live node of the name it asked for. */
  ghost predicate Anchored(s: Registry) {
    forall t :: t in s.waiting ==> s.waiting[t].name in s.names && s.names[s.waiting[t].name] == s.waiting[t].entry
  }

  ghost predicate Counted(s: Registry) {
    forall id :: id in s.entries ==>
      && s.entries[id].users == |Waiters(s.waiting, s.entries[id].name)| + Holds(s.entries[id].owner)
      && s.entries[id].users > 0
  }

  ghost predicate Exclusive(s: Registry) {
    forall t, n :: (t, n) in s.held <==> n in s.names && s.names[n] in s.entries && s.entries[s.names[n]].owner == Some(t)
  }

  ghost predicate RegistryInv(s: Registry) {
    Indexed(s) && Anchored(s) && Counted(s) && Exclusive(s)
  }

  lemma WithoutOne(a: set<Thread>, t: Thread)
    ensures |a - {t}| == if t in a then |a| - 1 else |a|
  {
    if t in a {
      assert a == (a - {t}) + {t};
    } else {
      assert a - {t} == a;
    }
  }

  lemma WaitersJoin(waiting: map<Thread, Wait>, t: Thread, w: Wait, n: Name)
    requires t !in waiting
    ensures |Waiters(waiting[t := w], n)| == |Waiters(waiting, n)| + if w.name == n then 1 else 0
  {
    assert Waiters(waiting[t := w], n) == Waiters(waiting, n) + if w.name == n then {t} else {};
  }

  lemma WaitersLeave(waiting: map<Thread, Wait>, t: Thread, n: Name)
    requires t in waiting
    ensures |Waiters(waiting - {t}, n)| == |Waiters(waiting, n)| - if waiting[t].name == n then 1 else 0
  {
    assert Waiters(waiting - {t}, n) == Waiters(waiting, n) - {t};
    WithoutOne(Waiters(waiting, n), t);
  }

  lemma NobodyWaits(s: Registry, n: Name)
    requires Anchored(s) && n !in s.names
    ensures Waiters(s.waiting, n) == {}
  {
    assert forall t :: t !in Waiters(s.waiting, n);
  }

  lemma ReserveInv(s: Registry, t: Thread, n: Name, node: EntryId)
    requires RegistryInv(s) && t !in s.waiting && node !in s.entries
    ensures RegistryInv(ReserveStep(s, t, n, node))
  {
    var r := ReserveStep(s, t, n, node);
    if n !in s.names { NobodyWaits(s, n); }
    forall id | id in r.entries
      ensures r.entries[id].users == |Waiters(r.waiting, r.entries[id].name)| + Holds(r.entries[id].owner)
      ensures r.entries[id].users > 0
    {
      WaitersJoin(s.waiting, t, r.waiting[t], r.entries[id].name);
    }
  }

  lemma LockInv(s: Registry, t: Thread)
    requires RegistryInv(s) && Enabled(s, LockSucceeds(t))
    ensures RegistryInv(LockStep(s, t))
  {
    var r := LockStep(s, t);
    forall id | id in r.entries
      ensures r.entries[id].users == |Waiters(r.waiting, r.entries[id].name)| + Holds(r.entries[id].owner)
      ensures r.entries[id].users > 0
    {
      WaitersLeave(s.waiting, t, r.entries[id].name);
    }
  }

  lemma FailInv(s: Registry, t: Thread)
    requires RegistryInv(s) && Enabled(s, LockFails(t))
    ensures RegistryInv(FailStep(s, t))
  {
    var r := FailStep(s, t);
    var n := s.waiting[t].name;
    WaitersLeave(s.waiting, t, n);
    forall u | u in r.waiting ensures r.waiting[u].name in r.names {
      if r.waiting[u].name == n { assert u in Waiters(r.waiting, n); }
    }
    forall id | id in r.entries
      ensures r.entries[id].users == |Waiters(r.waiting, r.entries[id].name)| + Holds(r.entries[id].owner)
    {
      WaitersLeave(s.waiting, t, r.entries[id].name);
    }
  }

  lemma ReleaseInv(s: Registry, t: Thread, n: Name)
    requires RegistryInv(s) && Enabled(s, Release(t, n))
    ensures RegistryInv(ReleaseStep(s, t, n))
  {
    if n in s.names {
      var r := ReleaseStep(s, t, n);
      forall u | u in r.waiting ensures r.waiting[u].name in r.names {
        if r.waiting[u].name == n { assert u in Waiters(s.waiting, n); }
      }
    }
  }

  lemma NextInv(s: Registry, e: Event)
    requires RegistryInv(s) && Enabled(s, e)
    ensures RegistryInv(Next(s, e))
  {
    match e
    case Reserve(t, n, node) => ReserveInv(s, t, n, node);
    case LockSucceeds(t) => LockInv(s, t);
    case LockFails(t) => FailInv(s, t);
    case Release(t, n) => ReleaseInv(s, t, n);
  }

  // ----- Whole runs -----

  ghost predicate IsRun(s: Registry, run: seq<Event>)
    decreases run
  {
    run != [] ==> Enabled(s, run[0]) && IsRun(Next(s, run[0]), run[1..])
  }

  ghost function After(s: Registry, run: seq<Event>): (r: Registry)
    requires IsRun(s, run)
    decreases run
  {
    if run == [] then s else After(Next(s, run[0]), run[1..])
  }

  lemma {:induction false} RunInv(s: Registry, run: seq<Event>)
    requires RegistryInv(s) && IsRun(s, run)
    ensures RegistryInv(After(s, run))
    decreases run
  {
    if run != [] {
      NextInv(s, run[0]);
      RunInv(Next(s, run[0]), run[1..]);
    }
  }

  /** In every run of balanced callers, at most one thread holds a name, everybody who waits for it waits at the
      same live node as the holder, and that node counts exactly the holder and those who wait. */
  lemma MutualExclusion(run: seq<Event>)
    requires IsRun(START, run)
    ensures var s := After(START, run);
      && (forall t, u, n :: (t, n) in s.held && (u, n) in s.held ==> t == u)
      && (forall t :: t in s.waiting ==>
            && s.waiting[t].name in s.names && s.names[s.waiting[t].name] == s.waiting[t].entry
            && s.waiting[t].entry in s.entries)
      && (forall t, n :: (t, n) in s.held ==>
            && n in s.names && s.names[n] in s.entries && s.entries[s.names[n]].owner == Some(t))
      && (forall id :: id in s.entries ==>
            s.entries[id].users == |Waiters(s.waiting, s.entries[id].name)| + Holds(s.entries[id].owner))
  {
    RunInv(START, run);
  }

  lemma OwnerHolds(s: Registry, n: Name, t: Thread)
    requires Exclusive(s) && n in s.names && s.names[n] in s.entries && s.entries[s.names[n]].owner == Some(t)
    ensures (t, n) in s.held
  {
  }

  ghost predicate Used(s: Registry, n: Name) {
    (exists t :: (t, n) in s.held) || (exists t :: t in s.waiting && s.waiting[t].name == n)
  }

  lemma FreeNodeIsAwaited(s: Registry, id: EntryId)
    requires Counted(s) && id in s.entries && s.entries[id].owner == None
    ensures Waiters(s.waiting, s.entries[id].name) != {}
  {
    assert s.entries[id].users == |Waiters(s.waiting, s.entries[id].name)|;
  }

  lemma RegisteredIsUsed(s: Registry, n: Name)
    requires RegistryInv(s) && n in s.names
    ensures Used(s, n)
  {
    var entry := s.entries[s.names[n]];
    if entry.owner.Some? {
      OwnerHolds(s, n, entry.owner.value);
    } else {
      FreeNodeIsAwaited(s, s.names[n]);
      SomeInSet(Waiters(s.waiting, n));
      var t :| t in Waiters(s.waiting, n);
      assert t in s.waiting && s.waiting[t].name == n;
    }
  }

  /** No leaks: a name is registered exactly while some thread holds it or waits for it. */
  lemma RegisteredExactlyWhileUsed(run: seq<Event>, n: Name)
    requires IsRun(START, run)
    ensures n in After(START, run).names <==> Used(After(START, run), n)
  {
    RunInv(START, run);
    if n in After(START, run).names {
      RegisteredIsUsed(After(START, run), n);
    }
  }

  lemma EmptyWhenUnused(run: seq<Event>)
    requires IsRun(START, run)
    requires After(START, run).held == {} && After(START, run).waiting == map[]
    ensures After(START, run) == START
  {
    RunInv(START, run);
    UnusedIsEmpty(After(START, run));
  }

  lemma UnusedIsEmpty(s: Registry)
    requires RegistryInv(s) && s.held == {} && s.waiting == map[]
    ensures s == START
  {
    forall n ensures n !in s.names {
      if n in s.names { RegisteredIsUsed(s, n); }
    }
    assert forall id :: id !in s.entries;
    assert s.names == map[] && s.entries == map[];
  }

  /** No premature reclamation: whatever the other threads do, a failed lock included, a thread that waits keeps
      waiting at a node that stays alive, and a thread that holds keeps the lock. */
  lemma ReservedNodesSurvive(s: Registry, e: Event, t: Thread)
    requires RegistryInv(s) && Enabled(s, e) && e.t != t
    ensures t in s.waiting ==>
              && t in Next(s, e).waiting && Next(s, e).waiting[t] == s.waiting[t]
              && s.waiting[t].entry in Next(s, e).entries
    ensures forall n :: (t, n) in s.held ==> (t, n) in Next(s, e).held && n in Next(s, e).names
  {
    NextInv(s, e);
  }

  /** Nobody waits for a lock that is free without being able to take it. */
  lemma FreeLockCanBeTaken(s: Registry, t: Thread)
    requires RegistryInv(s) && t in s.waiting
    ensures Enabled(s, LockSucceeds(t)) <==> forall u :: (u, s.waiting[t].name) !in s.held
  {
    var n, entry := s.waiting[t].name, s.entries[s.waiting[t].entry];
    if entry.owner.Some? {
      OwnerHolds(s, n, entry.owner.value);
    }
  }

  // ----- The sections as the source writes them -----

  class LockEntry {
    ghost const id: EntryId
    const name: Name
    var users: int
    var owner: Option<Thread>      // the state of the named mutex

    constructor (ghost id: EntryId, name: Name)
      ensures this.id == id && this.name == name && users == 0 && owner == None
    {
      this.id := id;
      this.name := name;
      users := 0;
      owner := None;
    }
  }

  /** `state` is what this object stands for; its methods say which step of `state` they make, so that what holds
      of every run of steps holds of it. A thread blocked in
      `mutex.lock()` is between `Reserve` and `Locked` or `LockFailed`. */
  class GlobalLockManager {
    var namedMutexes: map<Name, LockEntry>
    ghost var state: Registry
    ghost var nextId: EntryId

    ghost predicate Mirrors(n: Name)
      requires n in namedMutexes
      reads this, namedMutexes[n]
    {
      var entry := namedMutexes[n];
      && entry.name == n && n in state.names && state.names[n] == entry.id && entry.id in state.entries
      && state.entries[entry.id] == Entry(n, entry.users, entry.owner)
    }

    ghost predicate Valid()
      reads this, namedMutexes.Values
    {
      && (forall id :: id in state.entries ==> id < nextId)
      && (forall n :: n in state.names ==> n in namedMutexes)
      && (forall n :: n in namedMutexes ==> Mirrors(n))
    }

    /** The iterator that a waiting thread keeps still leads to the node it reserved. */
    ghost predicate Points(t: Thread, it: LockEntry)
      reads this
    {
      && t in state.waiting && state.waiting[t] == Wait(it.name, it.id)
      && it.name in namedMutexes && namedMutexes[it.name] == it
    }

    constructor ()
      ensures Valid() && state == START && namedMutexes == map[]
    {
      namedMutexes := map[];
      state := START;
      nextId := 0;
    }

    method Reserve(t: Thread, name: Name) returns (it: LockEntry)
      requires Valid() && t !in state.waiting
      modifies this, namedMutexes.Values
      ensures Valid() && Points(t, it)
      ensures it.id !in old(state.entries) || name in old(state.names)
      ensures state == ReserveStep(old(state), t, name, it.id)
      ensures forall n :: n in old(state.names) ==> n in state.names && namedMutexes[n] == old(namedMutexes)[n]
    {
      if name in namedMutexes {
        it := namedMutexes[name];
      } else {
        it := new LockEntry(nextId, name);
        namedMutexes := namedMutexes[name := it];
      }
      state := ReserveStep(state, t, name, it.id);
      nextId := nextId + 1;
      it.users := it.users + 1;
    }

    /** The wait ended with the mutex. */
    method Locked(t: Thread, it: LockEntry)
      requires Valid() && Points(t, it) && it.owner == None
      modifies this, it
      ensures Valid() && old(Enabled(state, LockSucceeds(t))) && state == LockStep(old(state), t)
      ensures it.owner == Some(t) && namedMutexes == old(namedMutexes)
    {
      state := LockStep(state, t);
      it.owner := Some(t);
    }

    /** The wait ended with an exception, which `acquire` passes on. */
    method LockFailed(t: Thread, it: LockEntry)
      requires Valid() && Points(t, it)
      modifies this, it
      ensures Valid() && old(Enabled(state, LockFails(t))) && state == FailStep(old(state), t)
      ensures forall n :: n in state.names ==> n in old(namedMutexes) && namedMutexes[n] == old(namedMutexes)[n]
    {
      state := FailStep(state, t);
      it.users := it.users - 1;
      if it.users == 0 {
        namedMutexes := namedMutexes - {it.name};
      }
    }

    method Release(t: Thread, name: Name)
      requires Valid() && Enabled(state, Event.Release(t, name))
      modifies this, namedMutexes.Values
      ensures Valid() && state == ReleaseStep(old(state), t, name)
      ensures forall n :: n in state.names ==> n in old(namedMutexes) && namedMutexes[n] == old(namedMutexes)[n]
    {
      if name !in namedMutexes {
        return;
      }
      var it := namedMutexes[name];
      state := ReleaseStep(state, t, name);
      it.owner := None;
      it.users := it.users - 1;
      if it.users == 0 {
        namedMutexes := namedMutexes - {name};
      }
    }
  }
}
