# Verified models of AviSynth+ core components

Dafny models of the parts of AviSynth+ whose correctness rests on protocols, sharing or index arithmetic, and proofs
of what they promise. `dafny verify dfyconfig.toml` checks everything.

* **Frame cache.** `SimpleLru.dfy` is the recency list with refusable eviction. `CacheProtocol.dfy` is the concurrent
  cache as a step system, one step for each section under the mutex, and holds the results over all runs. `LruCache.dfy`
  has the pointers, the ghost list and the self-tuning growth, and shows that they make exactly those steps.
  `GhostLog.dfy` is what the ghosts are to remember: a log of evictions, requests and refusals, and each key's count in
  it. `SelfTuning.dfy` runs the class for one caller over any sequence of requests and says when it grows.
* **Prefetchers.** `Prefetcher.dfy` is the stride predictor and the scheduling loop; `PrefetchSystem.dfy` interleaves
  one consumer, the workers and the cache; `QueuePrefetcher.dfy` is the device filter's queue, its workers and any
  number of callers, `QueueTransparency.dfy` what these callers are given, and `QueueWorker.dfy` the loops of a worker,
  of a caller and of the destructor over the cache itself.
* **Named locks.** `GlobalLocks.dfy` is the reservation-counted registry, as a step system and as the code.
* **Frame properties.** `IntrusivePtr.dfy` is the reference-counting pointer; `FrameProps.dfy` the maps that share
  storages that share arrays, against maps that share nothing.
* **Function signatures.** `Signatures.dfy` is the language and its validator, `TypeMatching.dfy` the matchers over the
  signature text, `ArgumentBinding.dfy` the grouping of arguments.
* **Audio resampler.** `Resampler.dfy`: fixed-point stepping, unchecked filter reads, the window kept between requests.
* **Buffer pool.** `BufferPool.dfy`: aligned blocks with header words, recycling and accounting.
* **v210.** `V210.dfy`: packing into words and back.

`Options.dfy` and `Collections.dfy` hold what several of them use.

Where the code does not do what one would expect of it, the model follows the code:

* A blocking lookup that arrives between a rollback and the wake-up of the waiter skips the wait loop and reports an
  uncommitted value as ready. `ReadyMeansCommittedExactly` says exactly when; `ReadyWithoutCommit` is the run. With one
  thread doing the blocking lookups, as in the prefetcher, it cannot happen. The device filter's prefetcher has several:
  `NullFrameReturned` is a run in which one of them returns a null frame, and `TransparentExactly` says when.
* The recency list is trimmed before a node is added, so in the steady state it holds one entry more than its capacity.
* The matcher accepts calls that the binder refuses: those whose arguments end before an unnamed `+` parameter.
* The prefetcher guards only the upper end of the clip: searching backwards it may ask the child for negative frames.
  `TriesNegativeExactly` says when; `NegativeFrameTried` is such a case.
* The resampler casts the distance between two windows to 32 bits; after a seek by about 2^32 samples it may reuse the
  wrong samples. `ReuseIsRightExactly` says exactly when for one move, `ServedRightExactly` for any sequence of requests.
* The v210 writer packs one group too many per row, unless a single pixel is left over for the last group. It leaves its
  padded rows whenever the groups of a row fill their padding, as at a width of 1920: `StaysInRowExactly`,
  `FitsDestinationExactly`. The picture's planes are read as far.
* The buffer pool raises alignments below 8 to 8 and refuses larger ones that are no power of two, unless an idle block
  with a larger alignment number fits. A block so granted need not be aligned for its request: it is, whatever malloc
  answers and whichever block is found, if and only if the alignment is a power of two (`FreshAlignedExactly`,
  `PoolAlignedExactly`).

Concurrency is modelled by interleaving: a step is one section of code under a mutex, or the work between two of them.
The child filter of a prefetcher is a function from frame numbers to frames whose calls may also fail. The answers of
malloc, of the cache (to the scheduling loop alone) and of the worker threads are arbitrary within what each promises.

## Model

| member | source | states |
|---|---|---|
| SimpleLru.SimpleLruCache.Trim | avs_core/core/SimpleLruCache.h:148-181 | Exactly the entries beyond the capacity that the callback gives up leave, from the back, in order, into the pool; refused ones stay where they are |
| SimpleLru.SimpleLruCache.Lookup | avs_core/core/SimpleLruCache.h:79-129 | A hit moves the entry to the front; a miss trims to the capacity first and only then adds a node, or returns null storage at capacity 0 |
| SimpleLru.SimpleLruCache.Remove | avs_core/core/SimpleLruCache.h:131-146 | The entry of the key, and no other, moves to the pool |
| SimpleLru.SimpleLruCache.Resize | avs_core/core/SimpleLruCache.h:183-188 | The new capacity is the request clamped to the limits, and the list is trimmed to it |
| SimpleLru.SimpleLruCache.SetLimits | avs_core/core/SimpleLruCache.h:72-77 | New limits re-clamp the capacity last requested |
| SimpleLru.RecencyIsOrder | avs_core/core/SimpleLruCache.h:79-129 | The recency list of any trace lists exactly its distinct keys, each last used after all that follow it |
| SimpleLru.RecencyOrderUnique | avs_core/core/SimpleLruCache.h:79-129 | There is only one such order |
| SimpleLru.HoldsMostRecentlyUsed | avs_core/core/SimpleLruCache.h:79-129 | With evictions always accepted and capacity C >= 1, after any trace the list is exactly the C + 1 most recently used keys in recency order |
| SimpleLru.LargerCacheContainsSmaller | avs_core/core/SimpleLruCache.h:148-181 | The contents at a capacity are a prefix of the contents at any larger one |
| SimpleLru.RunTrace | avs_core/core/SimpleLruCache.h:79-129 | The list itself, driven through any trace, ends with those C + 1 keys |
| CacheProtocol.SingleFlight | avs_core/core/LruCache.h:153-292 | In every interleaving, a key has at most one outstanding handle; locks count handles and waiters; EMPTY means one handle, ROLLED_BACK at least one waiter, AVAILABLE a committed value |
| CacheProtocol.ProtectedEntry | avs_core/core/LruCache.h:89-110 | Whatever step is taken, an entry with a holder or a waiter is never evicted or reset; only giving up the last interest removes it |
| CacheProtocol.LookupEffect | avs_core/core/LruCache.h:153-251 | A lookup adds at most one handle or one waiter, for its key, makes at most its slot, and changes no value and no state |
| CacheProtocol.LookupSlots | avs_core/core/LruCache.h:153-251 | A lookup locks the slot of its key once more if the caller must wait, or makes it; every other slot stays as it is, or leaves for the new one, and then nobody had locked it |
| CacheProtocol.LookupEvictsExactly | avs_core/core/SimpleLruCache.h:148-181 | A slot leaves for a new one if and only if it is not locked and lies beyond the capacity in the order of use (growth aside) |
| CacheProtocol.ReservedNodeSurvives | avs_core/core/LruCache.h:207-240 | The self-tuning resize inside a lookup never looks at the node just reserved |
| CacheProtocol.ReadyMeansCommittedExactly | avs_core/core/LruCache.h:172-195 | A blocking lookup that returns at once hands out a committed value if and only if the entry it found was not rolled back |
| CacheProtocol.ReadyWithoutCommit | avs_core/core/LruCache.h:174-195 | The run of three threads in which a lookup reports a null frame as ready although nothing was committed |
| CacheProtocol.ReadyIsCommittedWithoutWaiters | avs_core/core/LruCache.h:172-195 | With no waiter for the key, every value handed out is the committed one |
| CacheProtocol.WokenIsCommitted | avs_core/core/LruCache.h:172-195 | A thread that slept is handed nothing but the committed value |
| CacheProtocol.WaiterCanProceed | avs_core/core/LruCache.h:172-191 | Every waiter can wake, or the handle it waits for can be committed and rolled back |
| CacheProtocol.EveryWaiterFinishes | avs_core/core/LruCache.h:253-292 | Without new lookups a run makes at most 2 * waiters + handles progress steps, and when none is left nobody waits or holds, through any chain of rollbacks |
| CacheProtocol.SizeBound | avs_core/core/SimpleLruCache.h:148-188 | Right after an inserting lookup the entries are at most the capacity plus the locked ones |
| CacheProtocol.LockedAtMostPending | avs_core/core/LruCache.h:173-195 | Locked entries are at most as many as handles and waiters together |
| LruCache.GrowingEvictsAtMostOne | avs_core/core/LruCache.h:216-219 | After the trim inside a lookup, growing evicts at most one entry |
| LruCache.GhostStays | avs_core/core/LruCache.h:209-240 | The ghost found for a key is still in the ghost list when it is written to after the resize |
| LruCache.LruCache.OnEvict | avs_core/core/LruCache.h:89-110 | A locked entry refuses to go; an unlocked one is noted in the log as evicted, back to front, reset and given back, and afterwards the ghosts still carry the counts that the log gives their keys and know the fifty most recently used |
| LruCache.LruCache.SetLimits | avs_core/core/LruCache.h:146-151 | The pointer structure makes the limit-change step of the protocol, and exactly the keys that leave count one eviction more |
| LruCache.LruCache.Lookup | avs_core/core/LruCache.h:153-251 | Pointers, recency list and ghost list together make exactly the lookup step of the protocol, and all handles stay good; it grows if and only if the mode allows it and the key, uncached and not forgotten, has been lost at least twice; the request begins the count anew if the key was forgotten and counts a refusal, and every other key that leaves counts one eviction more; when it grows, the ghosts get room for 50 keys and two more per place |
| LruCache.LruCache.Hit | avs_core/core/LruCache.h:165-196 | The hit branch: not available, wait, or the value found |
| LruCache.LruCache.Miss | avs_core/core/LruCache.h:197-245 | The miss branch: the verdict by the count in the log, growth, the new entry and its handle, or no storage |
| LruCache.LruCache.Wake | avs_core/core/LruCache.h:174-195 | One wake-up in the wait loop: sleep on, take the value, or take over a rolled-back reservation |
| LruCache.LruCache.StoreValue | avs_core/core/Prefetcher.cpp:109-112 | The owner of a handle writes its value without a lock |
| LruCache.LruCache.CommitValue | avs_core/core/LruCache.h:253-267 | Commit spends the handle and makes the value available |
| LruCache.LruCache.Rollback | avs_core/core/LruCache.h:269-292 | Rollback removes the entry if nobody waits, otherwise marks it for a waiter |
| GhostLog.UseRemembered | avs_core/core/LruCache.h:89-110 | When a ghost comes to the front with the count that the log gives it, all ghosts still count right and the fifty most recently used keys are known |
| GhostLog.EvictionsCount | avs_core/core/LruCache.h:89-110 | A round of evictions counts each evicted key once more and no other |
| GhostLog.StaysRecent | avs_core/core/SimpleLruCache.h:79-129 | A key stays known to the ghosts while fewer than fifty other keys are used after it |
| GhostLog.FewAreKnown | avs_core/core/LruCache.h:197-214 | Where at most fifty keys are ever used, a known key is never forgotten |
| CacheProtocol.LookupGrows | avs_core/core/LruCache.h:216-219 | A lookup that grows gives the cache one place more, up to its limit; any other leaves the capacity |
| SelfTuning.Request | avs_core/core/LruCache.h:153-251 | A single caller looks up, produces and commits on the class itself: it gets its own frame, and order, capacity and losses move as foreseen |
| SelfTuning.RequestAll | avs_core/core/LruCache.h:153-267 | A new cache of any capacity and mode, asked for any sequence of at most fifty different keys, ends with the order, capacity and losses foreseen |
| SelfTuning.MissesAreLosses | avs_core/core/LruCache.h:89-110 | A key has missed as often as it was lost, once more if it is cached now |
| SelfTuning.GrowsFromThirdMiss | avs_core/core/LruCache.h:207-219 | A request grows the cache, by one, if and only if the mode allows it and it is at least the third miss of its key (short of the greatest capacity) |
| SelfTuning.TunedIsRecent | avs_core/core/SimpleLruCache.h:79-129 | Growing or not, what is cached is the most recently used keys in order, at most one more than the capacity |
| SelfTuning.FixedIsPlain | avs_core/core/LruCache.h:214-224 | A cache that must not grow holds after any trace what the plain list holds |
| SelfTuning.RoomForAll | avs_core/core/LruCache.h:207-219 | With at most C + 1 different keys, C >= 1, nothing is lost and nothing grows |
| SelfTuning.EvictedTwice | avs_core/core/LruCache.h:207-219 | At capacity 1 the requests a b c a d e leave it at 1, and one more for a, evicted twice by then, raises it to 2 |
| Prefetcher.Prefetcher.UpdatePattern | avs_core/core/Prefetcher.cpp:215-269 | The source's counters move as the predictor function says, for every state and every request |
| Prefetcher.ObserveAllSound | avs_core/core/Prefetcher.cpp:215-269 | Whatever nonzero strides are seen, locked and current pattern are never zero and the miss counter of a locked predictor stays below three |
| Prefetcher.FourEqualStridesRelock | avs_core/core/Prefetcher.cpp:222-249 | From every reachable locked state four equal strides leave the predictor locked on that stride |
| Prefetcher.UnlockedLocksExactly | avs_core/core/Prefetcher.cpp:250-269 | Unlocked, n equal strides bring a lock if and only if they equal the stored pattern and with the hits before make three |
| Prefetcher.ThirdMissUnlocks | avs_core/core/Prefetcher.cpp:222-248 | From every reachable locked state, two misses after a hit keep the lock and the third in a row ends it |
| Prefetcher.Prefetcher.SchedulePrefetch | avs_core/core/Prefetcher.cpp:161-203 | Each call ends; what it queues lies ahead of its start by whole strides of the locked pattern, or of one while unlocked, in order, none twice, none past the end of the clip, each one stride from a frame within reach; it stops no sooner than reach or clip end unless nPrefetchFrames jobs are in flight, and never has more |
| Prefetcher.Prefetcher.GetFrame | avs_core/core/Prefetcher.cpp:205-333 | A request learns its stride and then searches twice: all that is queued lies ahead by whole strides, nothing is queued twice |
| Prefetcher.GetFrames | avs_core/core/Prefetcher.cpp:205-333 | After any sequence of requests the predictor is that of their strides, and the last request queues frames ahead of it by its stride |
| Prefetcher.FourRequestsAhead | avs_core/core/Prefetcher.cpp:161-269 | Whatever locked a new prefetcher before, after four requests d apart all that is queued lies ahead by whole multiples of d |
| Prefetcher.UnlockedAhead | avs_core/core/Prefetcher.cpp:163-169 | While unlocked, all that is queued lies ahead of the request, in steps of one |
| Prefetcher.TriesNegativeExactly | avs_core/core/Prefetcher.cpp:163-169 | A call may come to try negative frames if and only if it searches backwards and the last frame before them is within reach of the current one |
| Prefetcher.NegativeFrameTried | avs_core/core/Prefetcher.cpp:163-169 | Frames 0 to 6 and back to 2 lock the predictor on -1; from there a prefetcher of 4 frames tries frame -1 |
| PrefetchSystem.PrefetchTransparent | avs_core/core/Prefetcher.cpp:97-132 | In every run of one consumer and any number of workers, failures and rollbacks included, each frame returned is the child's frame; the assert(0) arm is unreachable; at most P jobs run and at most 3P + 1 frames are cached |
| PrefetchSystem.ConsumerFindsCommitted | avs_core/core/Prefetcher.cpp:285-327 | The single consumer never meets a rolled-back entry |
| PrefetchSystem.NextInv | avs_core/core/Prefetcher.cpp:205-333 | Every step keeps all of that: handle ownership, counters, faithful values and the size bound |
| PrefetchSystem.DestructionSpendsAllHandles | avs_core/core/Prefetcher.cpp:84-90 | Once the destructor has nothing left to do, no reservation is outstanding |
| QueuePrefetcher.NoLostWork | avs_core/core/DeviceManager.cpp:600-674 | In every run: never more workers than threads; a non-empty queue has a worker or a thread about to wake one; every queued handle is committed or rolled back once or still on its way |
| QueuePrefetcher.QueuedWorkMoves | avs_core/core/DeviceManager.cpp:600-674 | While the queue is not empty some step that serves it can be taken |
| QueuePrefetcher.DestructionSpendsAll | avs_core/core/DeviceManager.cpp:697-709 | After the destructor every handle ever queued was committed or rolled back exactly once and the cache holds no reservation |
| QueuePrefetcher.NextInv | avs_core/core/DeviceManager.cpp:600-760 | Every step of every thread, worker and of the destructor keeps ownership, staffing and accounting |
| QueuePrefetcher.DrainAllSpends | avs_core/core/DeviceManager.cpp:703-707 | Draining the queue rolls back exactly the handles in it |
| QueueTransparency.TransparentExactly | avs_core/core/DeviceManager.cpp:716-760 | In every run of any number of callers and workers a call returns the child's frame if and only if its lookup met no rolled-back entry; one that did returns a null frame |
| QueueTransparency.OneConsumerTransparent | avs_core/core/DeviceManager.cpp:716-760 | With one caller at a time every frame returned is the child's, through failures and rollbacks |
| QueueTransparency.NullFrameReturned | avs_core/core/DeviceManager.cpp:722-757 | The run of three callers in which one returns a null frame |
| QueueTransparency.NextTrue | avs_core/core/DeviceManager.cpp:600-760 | Every step keeps entries and answers true: an entry holds the child's frame from its writing on and none before |
| QueueWorker.WorkQueue.ThreadWorker | avs_core/core/DeviceManager.cpp:600-635 | The worker's loop over queue and cache leaves the state that serving the queue front to back leaves |
| QueueWorker.ServesWholeQueue | avs_core/core/DeviceManager.cpp:600-635 | A worker left alone empties the queue, resigns, and keeps all handles owned |
| QueueWorker.ServesEachOnce | avs_core/core/DeviceManager.cpp:617-631 | It spends each queued handle once: committed, or rolled back if the child failed |
| QueueWorker.ServesTruly | avs_core/core/DeviceManager.cpp:617-631 | Afterwards each queued frame the child could make is in the cache as the child made it, each other one gone or left to a waiter; no other entry is touched |
| QueueWorker.ServesReporting | avs_core/core/DeviceManager.cpp:622-628 | Callers will meet an exception if and only if there was one or the child failed for a queued frame |
| QueueWorker.WorkQueue.SchedulePrefetch | avs_core/core/DeviceManager.cpp:637-674 | The caller's loops over cache and queue leave the state that trying the frames ahead one by one leaves |
| QueueWorker.SchedulesWhatIsMissing | avs_core/core/DeviceManager.cpp:637-674 | Of the frames ahead all that had no entry are reserved and queued in order, none that was locked; one job per queued frame is handed out as long as threads are left, and the call returns its answer |
| QueueWorker.WorkQueue.WakeUp | avs_core/core/DeviceManager.cpp:668-673 | The loop hands out one job per queued frame as long as threads are left, and stops no sooner |
| QueueWorker.WorkQueue.TakeWork | avs_core/core/DeviceManager.cpp:606-616 | A worker takes the oldest queued frame with its handle, or resigns when there is none |
| QueueWorker.WorkQueue.CancelQueue | avs_core/core/DeviceManager.cpp:703-707 | The destructor's loop over the cache leaves the state in which exactly the queued handles have been rolled back |
| GlobalLocks.MutualExclusion | avs_core/core/avisynth.cpp:127-165 | In every run of balanced callers at most one thread holds a name, holder and waiters share one live node, and its users are exactly the holder and the waiters |
| GlobalLocks.RegisteredExactlyWhileUsed | avs_core/core/avisynth.cpp:127-165 | A name is registered if and only if somebody holds it or waits for it |
| GlobalLocks.EmptyWhenUnused | avs_core/core/avisynth.cpp:148-165 | With no holder and no waiter the registry is empty |
| GlobalLocks.ReservedNodesSurvive | avs_core/core/avisynth.cpp:137-153 | No step of another thread, a failed lock included, removes a node somebody waits at or takes a lock from its holder |
| GlobalLocks.FreeLockCanBeTaken | avs_core/core/avisynth.cpp:144-147 | A waiter can take its lock if and only if nobody holds the name |
| GlobalLocks.GlobalLockManager.Reserve | avs_core/core/avisynth.cpp:127-141 | Finds or creates the node and counts the caller before it waits; nodes never move |
| GlobalLocks.GlobalLockManager.Locked | avs_core/core/avisynth.cpp:144-147 | The wait ends with the mutex |
| GlobalLocks.GlobalLockManager.LockFailed | avs_core/core/avisynth.cpp:148-153 | The failed lock gives its reservation back and removes the node with its last user |
| GlobalLocks.GlobalLockManager.Release | avs_core/core/avisynth.cpp:155-165 | Unlocks, drops one user, and removes the node with its last user; an unknown name does nothing |
| IntrusivePtr.PointSound | avs_core/core/AVSMap.h:63-71 | Pointer assignment keeps every count equal to the number of pointers and deletes an object with its last pointer, self-assignment included |
| IntrusivePtr.PointNewSound | avs_core/core/AVSMap.h:40-45 | A new object starts with count 1 at the pointer it is given to |
| IntrusivePtr.DropSound | avs_core/core/AVSMap.h:58-61 | Destroying a pointer keeps all counts |
| IntrusivePtr.UniqueIsSole | avs_core/core/AVSMap.h:134-136 | A count of 1 means that nobody else points there |
| FrameProps.RunScript | avs_core/core/AVSMap.h:276-378 | For every script of creating, copying, assigning, writing, erasing, clearing, failing, freeing and reading over any number of maps, every answer is that of maps sharing nothing |
| FrameProps.RepresentationInvisible | avs_core/core/AVSMap.h:153-215 | Single-value and vector representation read, grow and copy as one list |
| FrameProps.IsValidVSMapKey | avs_core/core/avisynth.cpp:5622-5643 | Accepts exactly the C identifiers |
| FrameProps.RunKeepsTypes | avs_core/core/avisynth.cpp:5691-5729 | Over any script every array keeps one element type and every key is an identifier |
| FrameProps.CopiesStayApart | avs_core/core/AVSMap.h:283-298 | Over any script a map changes through no call on another: a copy stays what its source was |
| FrameProps.AssignedAlike | avs_core/core/AVSMap.h:283-286 | Source and target of an assignment read alike until one of them is written to |
| FrameProps.AppendedAreRead | avs_core/core/avisynth.cpp:5691-5729 | Values of one type appended to an unset key are read back in that order, and there are no more |
| FrameProps.ReadsAppended | avs_core/core/avisynth.cpp:5708-5716 | An append to n values makes n + 1, the new one last and the others as they were; one of another type is refused and changes nothing; no other key reads differently |
| FrameProps.ReadsTouched | avs_core/core/avisynth.cpp:5717-5726 | A touch makes an empty list of an unset key, and is refused and changes nothing for a set one |
| FrameProps.AVSMaps.Detach | avs_core/core/AVSMap.h:292-298 | A shared storage is copied, and no map looks any different |
| FrameProps.AVSMaps.Insert | avs_core/core/AVSMap.h:327-336 | Only this map, at this key, changes |
| FrameProps.AVSMaps.Erase | avs_core/core/AVSMap.h:316-325 | Only this map loses the key; the answer says whether it had it |
| FrameProps.AVSMaps.Copy | avs_core/core/AVSMap.h:338-345 | Keys of the source override those of the target; the error flag is not copied |
| FrameProps.AVSMaps.Assign | avs_core/core/AVSMap.h:283-286 | The target becomes the source; a storage nobody uses any more is deleted with its arrays |
| FrameProps.AVSMaps.Free | avs_core/core/AVSMap.h:265-269 | A deleted map takes its storage along if it was the last user |
| FrameProps.AVSMaps.Clear | avs_core/core/AVSMap.h:351-356 | This map is empty and without error afterwards, others are untouched |
| FrameProps.AVSMaps.SetError | avs_core/core/AVSMap.h:366-372 | This map holds the message alone and is marked as failed |
| FrameProps.AVSMaps.AppendValue | avs_core/core/AVSMap.h:305-314 | Storage and array are unshared before the value is appended in place |
| FrameProps.AVSMaps.MapSetEmpty | avs_core/core/avisynth.cpp:5645-5688 | Creates an empty array unless the key is invalid or taken |
| FrameProps.AVSMaps.PropSet | avs_core/core/avisynth.cpp:5691-5729 | REPLACE, APPEND and TOUCH act as on a plain list; a mismatched APPEND, an invalid key and a TOUCH of an existing key change nothing |
| FrameProps.AVSMaps.PropSetArray | avs_core/core/avisynth.cpp:5778-5796 | A whole array replaces what the key had |
| FrameProps.AVSMaps.PropGet | avs_core/core/avisynth.cpp:5470-5511 | Reads give the plain list's element or the source's first error, in its order of checks |
| Signatures.IsValidParameterString | avs_core/core/PluginManager.cpp:148-204 | Accepts a string if and only if it spells a list of parameters: optional bracketed name, type letter, optional + or * |
| Signatures.AcceptedExactly | avs_core/core/PluginManager.cpp:148-204 | The same for the automaton |
| Signatures.OneReading | avs_core/core/PluginManager.cpp:148-204 | No string spells two parameter lists |
| TypeMatching.SingleTypeMatchArray | avs_core/core/PluginManager.cpp:300-311 | True if and only if the argument is an array all of whose elements match |
| TypeMatching.TypeMatch | avs_core/core/PluginManager.cpp:314-452 | On every valid signature the matcher ends, stays within the terminator, never reaches a "bug in filter" throw, and says yes if and only if each parameter in turn takes all the arguments it can, none is left and the rest is optional; then every argument is dealt to a parameter that takes it |
| TypeMatching.MatchDeals | avs_core/core/PluginManager.cpp:314-452 | A match of any arguments, arrays and undefined ones included, deals them in order to the parameters: each has the type of its parameter, is an array of it for an array-style one, or is undefined behind a name; single parameters get one, one-or-more parameters at least one, and what follows the last argument is optional |
| TypeMatching.MatchExactly | avs_core/core/PluginManager.cpp:314-452 | Arguments match if and only if they can be shared out so that each parameter in turn takes a whole run: all in a row that have its type, or those before an array of them, a single one exactly one, and behind the last argument the rest is optional |
| TypeMatching.StarvedByTheFirst | avs_core/core/PluginManager.cpp:419-428 | The signature i*i refuses an integer that could be dealt to its last parameter |
| TypeMatching.LetterTakes | avs_core/core/PluginManager.cpp:286-298 | A parameter takes the values of its own letter, a dot takes all, and f takes integers too unless it must match strictly |
| TypeMatching.RestIsOptional | avs_core/core/PluginManager.cpp:434-451 | Out of arguments: the match stands if and only if every remaining parameter up to a named one may be empty |
| TypeMatching.ArgNameMatch | avs_core/core/PluginManager.cpp:454-478 | True if and only if every given name is the name of some parameter, letter case aside |
| ArgumentBinding.LosslessBinding | avs_core/core/avisynth.cpp:4761-4965 | For defined non-array arguments that the matcher accepts: one slot per parameter, no argument left, the slots read back in order are the arguments; it throws if and only if the arguments end before an unnamed one-or-more parameter |
| ArgumentBinding.BoundTypesAgree | avs_core/core/avisynth.cpp:4761-4965 | Every slot bound for defined, non-array arguments that the matcher accepts is undefined or holds a value of its parameter's type, in an array for an array-style one |
| ArgumentBinding.MatchTakes | avs_core/core/PluginManager.cpp:314-432 | What the matcher consumes for a parameter is what the binder groups for it |
| ArgumentBinding.AcceptedButStarved | avs_core/core/avisynth.cpp:4894-4897 | The signature i[a]sc+ and a single integer: accepted by the matcher, refused by the binder |
| ArgumentBinding.BindArguments | avs_core/core/avisynth.cpp:4761-4965 | The grouping loop over the signature text binds as the parameter list says, slot for slot and error for error |
| ArgumentBinding.BoundExactly | avs_core/core/avisynth.cpp:4870-4935 | Arguments are bound to these slots if and only if they can be grouped so that each parameter gets what it may and its slot tells so: nothing is Undefined for a named or single parameter and an empty array for an unnamed star, filled is what was really given |
| ArgumentBinding.GivenNothing | avs_core/core/avisynth.cpp:4896-4909 | Without arguments [n]i* is bound to Undefined and i* to an empty array |
| Resampler.ReadsInRange | avs_core/core/audio.cpp:1567-1594 | Every sample either wing reads for any output lies inside the fetched window, for any factor of at least 1/1000 and up to 2^31 outputs |
| Resampler.WingReach | avs_core/core/audio.cpp:1567-1580 | No filter tap lies further out than Xoff - 10 source samples |
| Resampler.PositionInSpan | avs_core/core/audio.cpp:1571-1591 | k outputs advance at most one unit beyond the span fetched for more than k outputs |
| Resampler.StepsStayClose | avs_core/core/audio.cpp:1571-1577 | For every valid factor k outputs advance by the distance of their true positions, at most two units less and one more, however large k up to 2^31 |
| Resampler.ReadWhereItBelongs | avs_core/core/audio.cpp:1589-1591 | Output k of any request is read at most two units before and one after the nearest position of that output in the source |
| Resampler.SrcPosNearest | avs_core/core/audio.cpp:1587-1590 | That position is the true one, rounded to the nearest unit |
| Resampler.AccumulatorsStep | avs_core/core/audio.cpp:1737-1743 | The two accumulators follow pos0 + k * dtb + floor(k * dtbe / 2^31) and the error stays below 2^31 |
| Resampler.FilterUD | avs_core/core/audio.cpp:1879-1913 | One wing is the exact inner product of interpolated coefficients and samples; coefficient and sample indices are in range |
| Resampler.CoefficientInterpolates | avs_core/core/audio.cpp:1895-1905 | A coefficient lies between its two neighbours in the table, on the straight line between them to within half a unit |
| Resampler.StepsAreDistances | avs_core/core/audio.cpp:1885-1893 | Tap j of either wing is looked up at its distance from the output, scaled to the filter |
| Resampler.DhbNearest | avs_core/core/audio.cpp:1567-1580 | The filter step is one table unit per source unit when upsampling and scaled by the factor, to the nearest, when downsampling |
| Resampler.IntToShortNearest | avs_core/core/audio.cpp:1725-1744 | The output is the sum divided by the gain, to the nearest, or the end of the range that the quotient lies beyond |
| Resampler.ReuseIsRightExactly | avs_core/core/audio.cpp:1608-1622 | Samples kept from the last window are right for every source if and only if none is kept or the distance survives its cast to int |
| Resampler.FarSeekReusesWrongly | avs_core/core/audio.cpp:1608-1612 | A seek by 2^32 samples takes the whole old window for the new one |
| Resampler.ServedRightExactly | avs_core/core/audio.cpp:1600-1622 | Over any sequence of requests the buffer holds the right source samples after each of them, for every source, if and only if every move keeps nothing or goes a distance that fits an int |
| Resampler.NearMovesAreRight | avs_core/core/audio.cpp:1608-1612 | Moves by less than 2^31 samples, from wherever, are right: playback, overlaps and such seeks |
| Resampler.ResampleAudio.Slide | avs_core/core/audio.cpp:1608-1622 | Moving the window keeps the overlap in place and fetches the rest |
| Resampler.ResampleAudio.Load | avs_core/core/audio.cpp:1600-1622 | The buffer is replaced if too small and then holds the source from the wanted start on, for the kept or wanted samples, whichever are more |
| Resampler.ResampleAudio.GetAudio | avs_core/core/audio.cpp:1584-1744 | Every output sample is the filtered source around its closed-form position, whatever was requested before |
| Resampler.OutputAt | avs_core/core/audio.cpp:1720-1744 | Channel q of output i is that channel of the two wings at the position of output i |
| Resampler.Serve | avs_core/core/audio.cpp:1584-1744 | For any sequence of requests whose window moves are all right, each answer is what the source alone determines |
| BufferPool.BufferPool.PrivateAlloc | avs_core/core/BufferPool.cpp:44-75 | The block is aligned, behind its five header words, inside an allocation apart from all others; consumption grows by its real size |
| BufferPool.BufferPool.PrivateFree | avs_core/core/BufferPool.cpp:77-82 | What the header names is given back and subtracted |
| BufferPool.BufferPool.FindIdle | avs_core/core/BufferPool.cpp:108-123 | Finds the smallest idle block large and aligned enough, if and only if there is one |
| BufferPool.BufferPool.Allocate | avs_core/core/BufferPool.cpp:105-147 | A request succeeds if and only if an idle block fits or alignment and malloc allow a new one; it never hands out a block that is out; large enough, aligned for powers of two; reuses whenever an idle block fits; a block is for the pool if and only if that was asked for |
| BufferPool.BufferPool.Free | avs_core/core/BufferPool.cpp:149-167 | A pooled block becomes idle, any other is given back, null is accepted; nothing else changes |
| BufferPool.UseAndReuse | avs_core/core/BufferPool.cpp:105-167 | After a pooled block has been taken and freed, a request for no more bytes and no larger alignment succeeds although malloc gives nothing, and changes no block but for the idle mark |
| BufferPool.SameBlockAgain | avs_core/core/BufferPool.cpp:105-167 | In a pool that had none, it gets that very block |
| BufferPool.BufferPool.Destroy | avs_core/core/BufferPool.cpp:90-103 | All pooled blocks are given back; consumption is what the remaining ones take |
| BufferPool.NewBlockApart | avs_core/core/BufferPool.cpp:60-72 | Writing the header of a new block disturbs no other block |
| BufferPool.Power2Divides | avs_core/core/BufferPool.cpp:117-119 | A block aligned for a larger power of two is aligned for a smaller one |
| BufferPool.FreshAlignedExactly | avs_core/core/BufferPool.cpp:56-66 | A fresh block that is granted is aligned for its request, whatever malloc answers, if and only if the alignment is a power of two |
| BufferPool.PoolAlignedExactly | avs_core/core/BufferPool.cpp:117-123 | Every block the pool could serve a request with is aligned for it if and only if its alignment is a power of two |
| BufferPool.LayoutAlignsExactly | avs_core/core/BufferPool.cpp:56-66 | Blocks laid out for one alignment are aligned for another, whatever malloc answers, if and only if that divides what the first is raised to |
| BufferPool.AlignmentThree | avs_core/core/BufferPool.cpp:56-58 | Alignment 3 is granted as 8, and a fresh block is not aligned for it |
| BufferPool.PooledForTwentyFour | avs_core/core/BufferPool.cpp:117-123 | Alignment 24 is refused by the allocator but served from an idle block for 32 that is not aligned for it |
| V210.PackAndUnpack | avs_core/core/AviHelper.cpp:659-780 | Running the writer and then the reader returns every row of every plane |
| V210.RoundTrip | avs_core/core/AviHelper.cpp:659-780 | A picture of even width and ten-bit samples, packed and unpacked, comes back row by row in all three planes |
| V210.LumaReturns | avs_core/core/AviHelper.cpp:670-674 | Each visible luma sample survives whatever padding is packed with it |
| V210.ChromaReturns | avs_core/core/AviHelper.cpp:670-674 | Each visible chroma sample survives whatever padding is packed with it |
| V210.Yuv422p10ToV210 | avs_core/core/AviHelper.cpp:659-688 | Every row of the destination holds its row of the picture, although the writer emits a group too many that may spill into the next row; behind the last row it stays, and nothing behind it is touched |
| V210.V210ToYuv422p10 | avs_core/core/AviHelper.cpp:691-780 | Every row of the planes holds what the words of its row say |
| V210.OneGroupTooMany | avs_core/core/AviHelper.cpp:669-679 | The writer emits exactly one group more than the row needs, unless a single pixel is left over |
| V210.PackedInOrder | avs_core/core/AviHelper.cpp:669-679 | The ten-bit fields of a packed row, word after word, are u, y, v, y of each pixel pair in order |
| V210.ReadInOrder | avs_core/core/AviHelper.cpp:735-779 | The reader takes u, y, v, y of each pixel pair from the fields in that order |
| V210.StaysInRowExactly | avs_core/core/AviHelper.cpp:667-679 | The words written for a row end within its padding if and only if a single pixel is left over or the row's groups leave room in it |
| V210.FitsDestinationExactly | avs_core/core/AviHelper.cpp:667-684 | A destination of exactly the picture's rows holds all that is written under the same condition, and only then |
| V210.FullHdSpills | avs_core/core/AviHelper.cpp:667-679 | At width 1920 each row writes four words into the next |

## Left out

- Machine integer widths of counters, capacities, frame numbers and sizes (size_t, int, long) outside the resampler's window distance: all are unbounded here.
- The notification of waiters after the mutex has been released (avs_core/core/LruCache.h:262-264, 286-288): it is part of the commit or rollback step, and a waiter may wake whenever its entry is not EMPTY.
- Storage reuse inside ObjectPool: a new entry is a new pointer; the entry of a removed key stays allocated in the source until the pool dies.
- What lower filters do with the `*suppressCaching` that a lookup sets (avs_core/core/LruCache.h:221-223).
- The thread pool's queue order: jobs are picked in any order, and none is picked once the destructor has begun.
- In `QueuePrefetcher` and `QueueTransparency`, the range of the frames tried ahead (avs_core/core/DeviceManager.cpp:639-641): any frame number may be tried; `QueueWorker` has the range.
- The constructor's case of no threads or no frames (avs_core/core/DeviceManager.cpp:689-694), which assigns to its parameters of the same names: all models have at least one of each.
- In `QueueWorker`, other threads at work during a loop: their steps interleave in `QueuePrefetcher`.
- Callers of named locks that release what they do not hold: the interface demands balanced calls.
- AVSMap objects, storages and arrays as class instances: they are numbered objects in the fields of one class, which its methods update in place, so that aliasing is kept.
- `AVSMap::key(n)` and the order of keys, and the saturating readers: they only read.
- Growth policy of std::vector in VSArray::push_back: not observable.
- TypeMatching.TypeMatch: what is proved of binding after a match is limited to defined, non-array arguments, because matcher and binder treat arrays and undefined values differently.
- Flattening of arrays, the implicit last clip, the search over functions and the named-argument step of Invoke_.
- Resampler filter design, real rounding of `factor`, the 32-bit casts of the accumulated product, and the floating-point and MMX variants; a request is assumed to need less than 2^31 bytes of source buffer, and an overlapping memcpy to move.
- Address masks in the buffer pool: masking with a power of two minus one is written as taking the remainder.
- BufferPool.BufferPool.Allocate: does not model sizes so large that adding the overhead wraps around.
- What callers write into their blocks: only the header words are modelled.
- v210 for odd widths, and the shift of samples above 11 bits out of a signed int: padding is treated as wrapping.
- CUDA transfer engines, plugin loading, colour conversion, other packers and the rest of the repository.
