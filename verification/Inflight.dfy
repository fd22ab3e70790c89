/** mesi/fetch.go: the semaphore, the per-key lock table and the cache double-check,
    as a protocol over the steps of concurrent fetches. */
module Inflight {
  import opened Options
  import opened Sets

  // ---- The lock table ----

  /** `acquireInflightLock`: the table after a caller asked for the lock of `key`;
      `made` is the lock it makes if there is none. */
  function TableAfterAcquire<L>(table: map<string, L>, key: string, made: L): map<string, L> {
    if key in table then table else table[key := made]
  }

  /** `releaseInflightLock`: the table after a caller gave back `lock`, leaving `refs` references to it. */
  function TableAfterRelease<L(==)>(table: map<string, L>, key: string, lock: L, refs: int): map<string, L> {
    if refs == 0 && key in table && table[key] == lock then table - {key} else table
  }

  class InflightLock {
    var held: bool
    var refCount: int

    constructor ()
      ensures !held && refCount == 0
    {
      held, refCount := false, 0;
    }
  }

  class InflightLocks {
    var table: map<string, InflightLock>

    constructor ()
      ensures table == map[]
    {
      table := map[];
    }

    method Acquire(cacheKey: string) returns (lock: InflightLock)
      modifies this, table.Values
      ensures lock == if cacheKey in old(table) then old(table)[cacheKey] else lock
      ensures cacheKey !in old(table) ==> fresh(lock) && !lock.held && lock.refCount == 1
      ensures cacheKey in old(table) ==> lock.held == old(lock.held) && lock.refCount == old(lock.refCount) + 1
      ensures table == old(table)[cacheKey := lock] == TableAfterAcquire(old(table), cacheKey, lock)
      ensures forall l :: l in old(table).Values && l != lock ==> l.held == old(l.held) && l.refCount == old(l.refCount)
    {
      if cacheKey in table {
        lock := table[cacheKey];
        assert lock in table.Values;
      } else {
        lock := new InflightLock();
        table := table[cacheKey := lock];
      }
      lock.refCount := lock.refCount + 1;
    }

    method Release(cacheKey: string, lock: InflightLock)
      modifies this, lock
      ensures lock.refCount == old(lock.refCount) - 1 && lock.held == old(lock.held)
      ensures table == TableAfterRelease(old(table), cacheKey, lock, lock.refCount)
      ensures table == if lock.refCount == 0 && cacheKey in old(table) && old(table)[cacheKey] == lock
                       then old(table) - {cacheKey} else old(table)
    {
      lock.refCount := lock.refCount - 1;
      if lock.refCount == 0 && cacheKey in table && table[cacheKey] == lock {
        table := table - {cacheKey};
      }
    }
  }

  // ---- Fetches ----

  datatype Outcome = Failed | Ok(body: string)

  type Pid = nat

  /** What a fetch is about: its cache key if a cache is configured, and its semaphore if there is one. */
  datatype Job = Job(key: Option<string>, sem: Option<nat>)

  /** Where a fetch is in `singleFetchUrlWithContext`. */
  datatype Pc =
    | Start                                      // nothing done yet
    | SemWait                                    // waiting for a semaphore slot
    | Checking                                   // slot taken; address checks and first cache lookup
    | WantLock                                   // missed the cache
    | Queued(lock: nat)                          // has a reference to the key's lock
    | Holding(lock: nat)                         // filled the lock's channel
    | Fetching(owned: Option<nat>)               // talking to the backend
    | Storing(lock: nat, body: string)           // about to fill the cache
    | Releasing(lock: nat, outcome: Outcome)     // about to empty the channel
    | Dropping(lock: nat, outcome: Outcome)      // about to give the reference back
    | Leaving(outcome: Outcome)                  // about to free the slot
    | Done(outcome: Outcome)

  datatype Lock = Lock(key: string, full: bool, refs: int)

  /** The lock table, and every lock made so far. */
  datatype Locks = Locks(table: map<string, nat>, made: map<nat, Lock>, next: nat)

  /** The shared state, and two records of what happened: for every key the bodies its backend
      delivered, and how often the cache failed it (an entry lost, a store or lookup that failed). */
  datatype State = State(
    pcs: map<Pid, Pc>,
    shared: Locks,
    slots: map<nat, nat>,
    cache: map<string, string>,
    delivered: map<string, seq<string>>,
    losses: map<string, nat>)

  /** The fetches of a system and the size of each semaphore. */
  datatype System = System(jobs: map<Pid, Job>, caps: map<nat, nat>) {
    predicate Valid() {
      && (forall s :: s in caps ==> caps[s] >= 1)
      && (forall p :: p in jobs && jobs[p].sem.Some? ==> jobs[p].sem.value in caps)
    }
  }

  function Delivered(s: State, k: string): seq<string> {
    if k in s.delivered then s.delivered[k] else []
  }

  function Losses(s: State, k: string): nat {
    if k in s.losses then s.losses[k] else 0
  }

  datatype Step =
    | Reject(p: Pid)                     // no time budget, or an unusable size cap
    | Begin(p: Pid)
    | GetSlot(p: Pid)
    | SlotTimeout(p: Pid)
    | Refuse(p: Pid)                     // the address is not allowed
    | SkipCache(p: Pid)
    | Lookup(p: Pid, fails: bool)
    | Join(p: Pid)
    | TakeLock(p: Pid)
    | LockTimeout(p: Pid)
    | Expire(p: Pid)                     // the deadline passed while the lock was being taken
    | Recheck(p: Pid, fails: bool)
    | FetchFails(p: Pid)
    | FetchSucceeds(p: Pid, body: string)
    | Store(p: Pid, fails: bool)
    | Unlock(p: Pid)
    | DropLock(p: Pid)
    | FreeSlot(p: Pid)
    | Evict(key: string)                 // the cache drops an entry by itself

  /** Deadlines and cache evictions happen by themselves; every other step is a fetch's own. */
  predicate Spontaneous(e: Step) {
    e.SlotTimeout? || e.LockTimeout? || e.Expire? || e.Evict?
  }

  predicate Enabled(y: System, s: State, e: Step) {
    if e.Evict? then e.key in s.cache
    else e.p in s.pcs && e.p in y.jobs && MayStep(y.jobs[e.p], s.pcs[e.p], e) && Ready(y, y.jobs[e.p], s, s.pcs[e.p], e)
  }

  /** What a fetch with job `j` does at `pc`. */
  predicate MayStep(j: Job, pc: Pc, e: Step) {
    match e
    case Reject(_) => pc.Start?
    case Begin(_) => pc.Start?
    case GetSlot(_) => pc.SemWait? && j.sem.Some?
    case SlotTimeout(_) => pc.SemWait?
    case Refuse(_) => pc.Checking?
    case SkipCache(_) => pc.Checking? && j.key.None?
    case Lookup(_, _) => pc.Checking? && j.key.Some?
    case Join(_) => pc.WantLock? && j.key.Some?
    case TakeLock(_) => pc.Queued?
    case LockTimeout(_) => pc.Queued?
    case Expire(_) => pc.Holding?
    case Recheck(_, _) => pc.Holding? && j.key.Some?
    case FetchFails(_) => pc.Fetching?
    case FetchSucceeds(_, _) => pc.Fetching? && (j.key.Some? || pc.owned.None?)
    case Store(_, _) => pc.Storing? && j.key.Some?
    case Unlock(_) => pc.Releasing?
    case DropLock(_) => pc.Dropping? && j.key.Some?
    case FreeSlot(_) => pc.Leaving?
    case Evict(_) => false
  }

  /** What the step needs of the shared state: a free slot, an empty channel, locks that exist. */
  predicate Ready(y: System, j: Job, s: State, pc: Pc, e: Step)
    requires MayStep(j, pc, e)
  {
    match e
    case GetSlot(_) => j.sem.value in y.caps && j.sem.value in s.slots && s.slots[j.sem.value] < y.caps[j.sem.value]
    case FreeSlot(_) => j.sem.Some? ==> j.sem.value in s.slots && s.slots[j.sem.value] > 0
    case Join(_) => j.key.value in s.shared.table ==> s.shared.table[j.key.value] in s.shared.made
    case TakeLock(_) => pc.lock in s.shared.made && !s.shared.made[pc.lock].full
    case Unlock(_) => pc.lock in s.shared.made
    case DropLock(_) => pc.lock in s.shared.made
    case _ => true
  }

  /** Where the fetch goes. */
  function NextPc(j: Job, s: State, pc: Pc, e: Step): Pc
    requires MayStep(j, pc, e)
  {
    match e
    case Reject(_) => Done(Failed)
    case Begin(_) => if j.sem.Some? then SemWait else Checking
    case GetSlot(_) => Checking
    case SlotTimeout(_) => Done(Failed)
    case Refuse(_) => Leaving(Failed)
    case SkipCache(_) => Fetching(None)
    case Lookup(_, fails) => if !fails && j.key.value in s.cache then Leaving(Ok(s.cache[j.key.value])) else WantLock
    case Join(_) => Queued(LockFor(s.shared, j.key.value))
    case TakeLock(_) => Holding(pc.lock)
    case LockTimeout(_) => Dropping(pc.lock, Failed)
    case Expire(_) => Releasing(pc.lock, Failed)
    case Recheck(_, fails) =>
      if !fails && j.key.value in s.cache then Releasing(pc.lock, Ok(s.cache[j.key.value])) else Fetching(Some(pc.lock))
    case FetchFails(_) => if pc.owned.Some? then Releasing(pc.owned.value, Failed) else Leaving(Failed)
    case FetchSucceeds(_, body) => if pc.owned.Some? then Storing(pc.owned.value, body) else Leaving(Ok(body))
    case Store(_, _) => Releasing(pc.lock, Ok(pc.body))
    case Unlock(_) => Dropping(pc.lock, pc.outcome)
    case DropLock(_) => Leaving(pc.outcome)
    case FreeSlot(_) => Done(pc.outcome)
  }

  /** The lock the table has for a key, or the one it will make. */
  function LockFor(ls: Locks, k: string): nat {
    if k in ls.table then ls.table[k] else ls.next
  }

  function NextLocks(j: Job, ls: Locks, pc: Pc, e: Step): Locks
    requires MayStep(j, pc, e)
    requires e.Join? && j.key.value in ls.table ==> ls.table[j.key.value] in ls.made
    requires e.TakeLock? || e.Unlock? || e.DropLock? ==> pc.lock in ls.made
  {
    match e
    case Join(_) => Joined(ls, j.key.value)
    case TakeLock(_) => ls.(made := ls.made[pc.lock := ls.made[pc.lock].(full := true)])
    case Unlock(_) => ls.(made := ls.made[pc.lock := ls.made[pc.lock].(full := false)])
    case DropLock(_) => Dropped(ls, j.key.value, pc.lock)
    case _ => ls
  }

  function Joined(ls: Locks, k: string): Locks
    requires k in ls.table ==> ls.table[k] in ls.made
  {
    var l := LockFor(ls, k);
    var was := if k in ls.table then ls.made[l] else Lock(k, false, 0);
    Locks(TableAfterAcquire(ls.table, k, l), ls.made[l := was.(refs := was.refs + 1)],
          if k in ls.table then ls.next else ls.next + 1)
  }

  function Dropped(ls: Locks, k: string, l: nat): Locks
    requires l in ls.made
  {
    var refs := ls.made[l].refs - 1;
    ls.(table := TableAfterRelease(ls.table, k, l, refs), made := ls.made[l := ls.made[l].(refs := refs)])
  }

  function NextSlots(j: Job, slots: map<nat, nat>, e: Step): map<nat, nat>
    requires e.GetSlot? ==> j.sem.Some? && j.sem.value in slots
    requires e.FreeSlot? && j.sem.Some? ==> j.sem.value in slots && slots[j.sem.value] > 0
  {
    if e.GetSlot? then slots[j.sem.value := slots[j.sem.value] + 1]
    else if e.FreeSlot? && j.sem.Some? then slots[j.sem.value := slots[j.sem.value] - 1]
    else slots
  }

  function NextCache(j: Job, cache: map<string, string>, pc: Pc, e: Step): map<string, string>
    requires e.Store? ==> pc.Storing? && j.key.Some?
  {
    if e.Store? && !e.fails then cache[j.key.value := pc.body] else cache
  }

  /** Counts the deliveries made for a key. */
  function NextDelivered(j: Job, s: State, pc: Pc, e: Step): map<string, seq<string>>
    requires MayStep(j, pc, e)
  {
    if e.FetchSucceeds? && pc.owned.Some? then s.delivered[j.key.value := Delivered(s, j.key.value) + [e.body]]
    else s.delivered
  }

  function NextLosses(j: Job, s: State, e: Step): map<string, nat>
    requires e.Recheck? || e.Store? ==> j.key.Some?
  {
    if (e.Recheck? && e.fails) || (e.Store? && e.fails) then s.losses[j.key.value := Losses(s, j.key.value) + 1]
    else s.losses
  }

  function Do(y: System, s: State, e: Step): State
    requires Enabled(y, s, e)
  {
    if e.Evict? then
      s.(cache := s.cache - {e.key}, losses := s.losses[e.key := Losses(s, e.key) + 1])
    else
      var j, pc := y.jobs[e.p], s.pcs[e.p];
      State(s.pcs[e.p := NextPc(j, s, pc, e)],
            NextLocks(j, s.shared, pc, e), NextSlots(j, s.slots, e), NextCache(j, s.cache, pc, e),
            NextDelivered(j, s, pc, e), NextLosses(j, s, e))
  }

  /** All fetches at their start, nothing shared yet. */
  function Initial(y: System): State {
    State(map p | p in y.jobs :: Start, Locks(map[], map[], 0), map s | s in y.caps :: 0, map[], map[], map[])
  }

  // ---- What every step keeps ----

  /** The lock a fetch has a reference to. */
  function LockOf(pc: Pc): Option<nat> {
    match pc
    case Queued(l) => Some(l)
    case Holding(l) => Some(l)
    case Fetching(owned) => owned
    case Storing(l, _) => Some(l)
    case Releasing(l, _) => Some(l)
    case Dropping(l, _) => Some(l)
    case _ => None
  }

  /** The lock whose channel a fetch has filled: its critical section. */
  function HeldLock(pc: Pc): Option<nat> {
    match pc
    case Holding(l) => Some(l)
    case Fetching(owned) => owned
    case Storing(l, _) => Some(l)
    case Releasing(l, _) => Some(l)
    case _ => None
  }

  /** Between taking its slot and freeing it. */
  predicate Guarded(pc: Pc) {
    !pc.Start? && !pc.SemWait? && !pc.Done?
  }

  function Participants(s: State, l: nat): set<Pid> {
    set p | p in s.pcs && LockOf(s.pcs[p]) == Some(l)
  }

  function SlotUsers(y: System, s: State, sem: nat): set<Pid> {
    set p | p in s.pcs && p in y.jobs && Guarded(s.pcs[p]) && y.jobs[p].sem == Some(sem)
  }

  /** Every fetch that refers to a lock refers to the one the table has for its key,
      and the table keeps only locks that somebody refers to. */
  ghost predicate TableInv(y: System, s: State) {
    && s.pcs.Keys == y.jobs.Keys
    && (forall k :: k in s.shared.table ==>
          s.shared.table[k] in s.shared.made && s.shared.made[s.shared.table[k]].key == k &&
            s.shared.made[s.shared.table[k]].refs > 0)
    && (forall l :: l in s.shared.made ==> l < s.shared.next)
    && (forall p :: p in s.pcs ==> Refers(y.jobs[p], s.shared, s.pcs[p]))
  }

  predicate Refers(j: Job, ls: Locks, pc: Pc) {
    && (NeedsKey(pc) ==> j.key.Some?)
    && (LockOf(pc).Some? ==> j.key.value in ls.table && ls.table[j.key.value] == LockOf(pc).value)
  }

  predicate NeedsKey(pc: Pc) {
    pc.WantLock? || LockOf(pc).Some?
  }

  /** The reference count of every lock is the number of fetches referring to it. */
  ghost predicate RefInv(s: State) {
    forall l :: l in s.shared.made ==> s.shared.made[l].refs == |Participants(s, l)|
  }

  /** A channel is full exactly while a fetch is in the critical section, and only one is. */
  ghost predicate MutexInv(s: State) {
    && (forall p :: p in s.pcs && HeldLock(s.pcs[p]).Some? ==>
          HeldLock(s.pcs[p]).value in s.shared.made && s.shared.made[HeldLock(s.pcs[p]).value].full)
    && (forall l :: l in s.shared.made && s.shared.made[l].full ==>
         exists p :: p in s.pcs && HeldLock(s.pcs[p]) == Some(l))
    && (forall p, q ::
          p in s.pcs && q in s.pcs && HeldLock(s.pcs[p]).Some? && HeldLock(s.pcs[p]) == HeldLock(s.pcs[q]) ==> p == q)
  }

  /** The slots in use are the fetches inside the guarded region, and never more than the semaphore has. */
  ghost predicate SlotInv(y: System, s: State) {
    && s.pcs.Keys == y.jobs.Keys
    && s.slots.Keys == y.caps.Keys
    && (forall m :: m in s.slots ==> s.slots[m] == |SlotUsers(y, s, m)| <= y.caps[m])
    && (forall p :: p in s.pcs && s.pcs[p].SemWait? ==> y.jobs[p].sem.Some?)
  }

  ghost predicate Inv(y: System, s: State) {
    TableInv(y, s) && RefInv(s) && MutexInv(s) && SlotInv(y, s)
  }

  lemma {:induction false} InitialInv(y: System)
    requires y.Valid()
    ensures Inv(y, Initial(y))
  {
    var s := Initial(y);
    forall m | m in s.slots ensures s.slots[m] == |SlotUsers(y, s, m)| <= y.caps[m] {
      assert SlotUsers(y, s, m) == {};
    }
  }

  // ---- References ----

  lemma ParticipantsMove(s: State, t: State, p: Pid, pc: Pc, l: nat)
    requires p in s.pcs && t.pcs == s.pcs[p := pc]
    ensures Participants(t, l) == if LockOf(pc) == Some(l) then Participants(s, l) + {p} else Participants(s, l) - {p}
  {
  }

  /** Only joining and dropping change which lock a fetch refers to. */
  lemma LockStays(j: Job, s: State, pc: Pc, e: Step)
    requires MayStep(j, pc, e) && !e.Join? && !e.DropLock?
    ensures LockOf(NextPc(j, s, pc, e)) == LockOf(pc)
    ensures NeedsKey(NextPc(j, s, pc, e)) ==> j.key.Some? || NeedsKey(pc)
  {
  }

  /** Only joining and dropping change the table or a reference count. */
  lemma RefsStay(j: Job, ls: Locks, pc: Pc, e: Step)
    requires MayStep(j, pc, e) && !e.Join? && !e.DropLock?
    requires e.TakeLock? || e.Unlock? ==> pc.lock in ls.made
    ensures
      var m := NextLocks(j, ls, pc, e);
      && m.table == ls.table && m.next == ls.next && m.made.Keys == ls.made.Keys
      && (forall l :: l in ls.made ==> m.made[l].refs == ls.made[l].refs && m.made[l].key == ls.made[l].key)
  {
  }

  lemma StepKeepsTable(y: System, s: State, e: Step)
    requires TableInv(y, s) && RefInv(s) && Enabled(y, s, e) && !e.Evict?
    ensures TableInv(y, Do(y, s, e))
  {
    hide MayStep, NextPc, NextLocks, NextSlots, NextCache, NextDelivered, NextLosses, RefInv;
    var t := Do(y, s, e);
    var j, pc := y.jobs[e.p], s.pcs[e.p];
    if e.Join? {
      JoinKeepsTable(y, s, e);
    } else if e.DropLock? {
      DropKeepsTable(y, s, e);
    } else {
      LockStays(j, s, pc, e);
      RefsStay(j, s.shared, pc, e);
      assert Refers(j, s.shared, pc);
      forall p | p in t.pcs ensures Refers(y.jobs[p], t.shared, t.pcs[p]) {
        assert Refers(y.jobs[p], s.shared, s.pcs[p]);
      }
    }
  }

  lemma JoinKeepsTable(y: System, s: State, e: Step)
    requires TableInv(y, s) && Enabled(y, s, e) && e.Join?
    ensures TableInv(y, Do(y, s, e))
  {
    hide NextSlots, NextCache, NextDelivered, NextLosses;
    var t := Do(y, s, e);
    forall p | p in t.pcs ensures Refers(y.jobs[p], t.shared, t.pcs[p]) {
      assert Refers(y.jobs[p], s.shared, s.pcs[p]);
    }
  }

  /** As long as another fetch refers to a lock, dropping one reference leaves it in the table. */
  lemma OthersRemain(s: State, p: Pid, q: Pid, l: nat)
    requires RefInv(s) && l in s.shared.made && p != q
    requires p in s.pcs && LockOf(s.pcs[p]) == Some(l) && q in s.pcs && LockOf(s.pcs[q]) == Some(l)
    ensures s.shared.made[l].refs >= 2
  {
    assert {p, q} <= Participants(s, l);
    SubsetSize({p, q}, Participants(s, l));
  }

  lemma DropKeepsTable(y: System, s: State, e: Step)
    requires TableInv(y, s) && RefInv(s) && Enabled(y, s, e) && e.DropLock?
    ensures TableInv(y, Do(y, s, e))
  {
    hide NextSlots, NextCache, NextDelivered, NextLosses, RefInv;
    var t, p := Do(y, s, e), e.p;
    assert Refers(y.jobs[p], s.shared, s.pcs[p]);
    var k, l := y.jobs[p].key.value, s.pcs[p].lock;
    assert s.shared.table[k] == l;
    forall q | q in t.pcs ensures Refers(y.jobs[q], t.shared, t.pcs[q]) {
      assert Refers(y.jobs[q], s.shared, s.pcs[q]);
      if q != p && LockOf(s.pcs[q]) == Some(l) { OthersRemain(s, p, q, l); }
    }
  }

  lemma StepKeepsRefs(y: System, s: State, e: Step)
    requires TableInv(y, s) && RefInv(s) && Enabled(y, s, e) && !e.Evict?
    ensures RefInv(Do(y, s, e))
  {
    hide MayStep, NextSlots, NextCache, NextDelivered, NextLosses, Participants, TableInv;
    var t := Do(y, s, e);
    var j, pc := y.jobs[e.p], s.pcs[e.p];
    if e.Join? {
      JoinKeepsRefs(y, s, e);
    } else if e.DropLock? {
      DropKeepsRefs(y, s, e);
    } else {
      hide NextPc, NextLocks;
      LockStays(j, s, pc, e);
      RefsStay(j, s.shared, pc, e);
      forall l | l in t.shared.made ensures t.shared.made[l].refs == |Participants(t, l)| {
        ParticipantsStay(s, t, e.p, NextPc(j, s, pc, e), l);
      }
    }
  }

  lemma ParticipantsStay(s: State, t: State, p: Pid, pc: Pc, l: nat)
    requires p in s.pcs && t.pcs == s.pcs[p := pc] && LockOf(pc) == LockOf(s.pcs[p])
    ensures Participants(t, l) == Participants(s, l)
  {
  }

  lemma JoinKeepsRefs(y: System, s: State, e: Step)
    requires TableInv(y, s) && RefInv(s) && Enabled(y, s, e) && e.Join?
    ensures RefInv(Do(y, s, e))
  {
    hide NextSlots, NextCache, NextDelivered, NextLosses;
    var t, p := Do(y, s, e), e.p;
    forall l | l in t.shared.made ensures t.shared.made[l].refs == |Participants(t, l)| {
      ParticipantsMove(s, t, p, t.pcs[p], l);
      assert p !in Participants(s, l);
      if l !in s.shared.made { NobodyYet(y, s, l); }
    }
  }

  lemma NobodyYet(y: System, s: State, l: nat)
    requires TableInv(y, s) && l !in s.shared.made
    ensures Participants(s, l) == {}
  {
    forall p | p in s.pcs ensures LockOf(s.pcs[p]) != Some(l) {
      assert Refers(y.jobs[p], s.shared, s.pcs[p]);
    }
  }

  /** Dropping takes one reference of the lock away, and the fetch then refers to none. */
  lemma DropIs(y: System, s: State, e: Step)
    requires Enabled(y, s, e) && e.DropLock?
    ensures var t, l := Do(y, s, e), s.pcs[e.p].lock;
            && t.pcs == s.pcs[e.p := t.pcs[e.p]] && LockOf(t.pcs[e.p]).None? && LockOf(s.pcs[e.p]) == Some(l)
            && t.shared.made == s.shared.made[l := s.shared.made[l].(refs := s.shared.made[l].refs - 1)]
  {
    hide NextSlots, NextCache, NextDelivered, NextLosses;
  }

  lemma DropKeepsRefs(y: System, s: State, e: Step)
    requires RefInv(s) && Enabled(y, s, e) && e.DropLock?
    ensures RefInv(Do(y, s, e))
  {
    hide Do, LockOf, NextSlots, NextCache, NextDelivered, NextLosses;
    var t, p := Do(y, s, e), e.p;
    DropIs(y, s, e);
    forall l | l in t.shared.made ensures t.shared.made[l].refs == |Participants(t, l)| {
      ParticipantsMove(s, t, p, t.pcs[p], l);
      assert p in Participants(s, l) <==> l == s.pcs[p].lock;
    }
  }

  // ---- Mutual exclusion ----

  /** Only filling and emptying the channel change who is in the critical section. */
  lemma HoldStays(j: Job, s: State, pc: Pc, e: Step)
    requires MayStep(j, pc, e) && !e.TakeLock? && !e.Unlock?
    ensures HeldLock(NextPc(j, s, pc, e)) == HeldLock(pc)
  {
  }

  lemma ChannelsStay(j: Job, ls: Locks, pc: Pc, e: Step)
    requires MayStep(j, pc, e) && !e.TakeLock? && !e.Unlock?
    requires e.Join? && j.key.value in ls.table ==> ls.table[j.key.value] in ls.made
    requires e.Join? ==> ls.next !in ls.made
    requires e.DropLock? ==> pc.lock in ls.made
    ensures
      var m := NextLocks(j, ls, pc, e);
      && ls.made.Keys <= m.made.Keys
      && (forall l :: l in ls.made ==> m.made[l].full == ls.made[l].full)
      && (forall l :: l in m.made && l !in ls.made ==> !m.made[l].full)
  {
  }

  lemma StepKeepsMutex(y: System, s: State, e: Step)
    requires TableInv(y, s) && MutexInv(s) && Enabled(y, s, e) && !e.Evict?
    ensures MutexInv(Do(y, s, e))
  {
    hide MayStep, NextPc, NextLocks, NextSlots, NextCache, NextDelivered, NextLosses, LockOf, Refers;
    var t := Do(y, s, e);
    var j, pc := y.jobs[e.p], s.pcs[e.p];
    if e.TakeLock? {
      TakeKeepsMutex(y, s, e);
    } else if e.Unlock? {
      UnlockKeepsMutex(y, s, e);
    } else {
      HoldStays(j, s, pc, e);
      ChannelsStay(j, s.shared, pc, e);
      HoldersStay(s, t, e.p, NextPc(j, s, pc, e));
    }
  }

  lemma HoldersStay(s: State, t: State, p: Pid, pc: Pc)
    requires MutexInv(s) && p in s.pcs && t.pcs == s.pcs[p := pc] && HeldLock(pc) == HeldLock(s.pcs[p])
    requires s.shared.made.Keys <= t.shared.made.Keys
    requires forall l :: l in s.shared.made ==> t.shared.made[l].full == s.shared.made[l].full
    requires forall l :: l in t.shared.made && l !in s.shared.made ==> !t.shared.made[l].full
    ensures MutexInv(t)
  {
    forall l | l in t.shared.made && t.shared.made[l].full
      ensures exists q :: q in t.pcs && HeldLock(t.pcs[q]) == Some(l) {
      var q :| q in s.pcs && HeldLock(s.pcs[q]) == Some(l);
      assert q in t.pcs && HeldLock(t.pcs[q]) == Some(l);
    }
  }

  lemma TakeKeepsMutex(y: System, s: State, e: Step)
    requires MutexInv(s) && Enabled(y, s, e) && e.TakeLock?
    ensures MutexInv(Do(y, s, e))
  {
    hide NextSlots, NextCache, NextDelivered, NextLosses;
    var t, p := Do(y, s, e), e.p;
    forall l | l in t.shared.made && t.shared.made[l].full
      ensures exists q :: q in t.pcs && HeldLock(t.pcs[q]) == Some(l) {
      if l == s.pcs[p].lock {
        assert HeldLock(t.pcs[p]) == Some(l);
      } else {
        var q :| q in s.pcs && HeldLock(s.pcs[q]) == Some(l);
        assert q in t.pcs && HeldLock(t.pcs[q]) == Some(l);
      }
    }
  }

  lemma UnlockKeepsMutex(y: System, s: State, e: Step)
    requires MutexInv(s) && Enabled(y, s, e) && e.Unlock?
    ensures MutexInv(Do(y, s, e))
  {
    hide NextSlots, NextCache, NextDelivered, NextLosses;
    var t, p := Do(y, s, e), e.p;
    assert HeldLock(s.pcs[p]) == Some(s.pcs[p].lock);
    forall l | l in t.shared.made && t.shared.made[l].full
      ensures exists q :: q in t.pcs && HeldLock(t.pcs[q]) == Some(l) {
      var q :| q in s.pcs && HeldLock(s.pcs[q]) == Some(l);
      assert q in t.pcs && HeldLock(t.pcs[q]) == Some(l);
    }
  }

  // ---- The semaphore ----

  /** Only taking and freeing a slot lead into and out of the guarded region of a semaphore. */
  lemma GuardStays(j: Job, s: State, pc: Pc, e: Step)
    requires MayStep(j, pc, e) && !e.GetSlot? && !e.FreeSlot?
    ensures Guarded(NextPc(j, s, pc, e)) == Guarded(pc) || j.sem.None?
    ensures NextPc(j, s, pc, e).SemWait? ==> j.sem.Some?
  {
  }

  lemma StepKeepsSlots(y: System, s: State, e: Step)
    requires SlotInv(y, s) && Enabled(y, s, e) && !e.Evict?
    ensures SlotInv(y, Do(y, s, e))
  {
    hide MayStep, NextPc, NextLocks, NextCache, NextDelivered, NextLosses, SlotUsers;
    var t := Do(y, s, e);
    if e.GetSlot? || e.FreeSlot? {
      SlotStepKeepsSlots(y, s, e);
    } else {
      var j, pc := y.jobs[e.p], s.pcs[e.p];
      GuardStays(j, s, pc, e);
      forall m | m in t.slots ensures t.slots[m] == |SlotUsers(y, t, m)| <= y.caps[m] {
        SlotUsersMove(y, s, t, e.p, NextPc(j, s, pc, e), m);
      }
    }
  }

  lemma SlotPcs(j: Job, s: State, pc: Pc, e: Step)
    requires MayStep(j, pc, e) && (e.GetSlot? || e.FreeSlot?)
    ensures e.GetSlot? ==> NextPc(j, s, pc, e) == Checking && pc.SemWait? && j.sem.Some?
    ensures e.FreeSlot? ==> NextPc(j, s, pc, e).Done? && pc.Leaving?
  {
  }

  lemma SlotStepKeepsSlots(y: System, s: State, e: Step)
    requires SlotInv(y, s) && Enabled(y, s, e) && (e.GetSlot? || e.FreeSlot?)
    ensures SlotInv(y, Do(y, s, e))
  {
    hide NextLocks, NextCache, NextDelivered, NextLosses, SlotUsers, NextPc, MayStep;
    var t := Do(y, s, e);
    SlotPcs(y.jobs[e.p], s, s.pcs[e.p], e);
    forall m | m in t.slots ensures t.slots[m] == |SlotUsers(y, t, m)| <= y.caps[m] {
      SlotUsersMove(y, s, t, e.p, t.pcs[e.p], m);
    }
  }

  lemma SlotUsersMove(y: System, s: State, t: State, p: Pid, pc: Pc, m: nat)
    requires p in s.pcs && p in y.jobs && t.pcs == s.pcs[p := pc]
    ensures SlotUsers(y, t, m) == if Guarded(pc) && y.jobs[p].sem == Some(m)
                                  then SlotUsers(y, s, m) + {p} else SlotUsers(y, s, m) - {p}
    ensures p in SlotUsers(y, s, m) <==> Guarded(s.pcs[p]) && y.jobs[p].sem == Some(m)
  {
  }

  /** Every step of any fetch, every deadline and every eviction keeps the protocol's invariant. */
  lemma StepKeepsInv(y: System, s: State, e: Step)
    requires Inv(y, s) && Enabled(y, s, e)
    ensures Inv(y, Do(y, s, e))
  {
    if e.Evict? {
      EvictKeepsInv(y, s, e);
    } else {
      hide TableInv, RefInv, MutexInv, SlotInv, Do, Enabled;
      StepKeepsTable(y, s, e);
      StepKeepsRefs(y, s, e);
      StepKeepsMutex(y, s, e);
      StepKeepsSlots(y, s, e);
    }
  }

  lemma EvictKeepsInv(y: System, s: State, e: Step)
    requires Inv(y, s) && Enabled(y, s, e) && e.Evict?
    ensures Inv(y, Do(y, s, e))
  {
    var t := Do(y, s, e);
    assert forall l :: Participants(t, l) == Participants(s, l);
    assert forall m :: SlotUsers(y, t, m) == SlotUsers(y, s, m);
  }

  // ---- Single flight ----

  /** The body a fetch is about to store or return. */
  function BodyOf(pc: Pc): Option<string> {
    match pc
    case Storing(_, body) => Some(body)
    case Releasing(_, Ok(body)) => Some(body)
    case Dropping(_, Ok(body)) => Some(body)
    case Leaving(Ok(body)) => Some(body)
    case Done(Ok(body)) => Some(body)
    case _ => None
  }

  /** Whatever is cached, stored or returned for a key was delivered for it by a backend. */
  ghost predicate BodyInv(y: System, s: State) {
    && s.pcs.Keys == y.jobs.Keys
    && (forall k :: k in s.cache ==> s.cache[k] in Delivered(s, k))
    && (forall p :: p in s.pcs ==> Genuine(y.jobs[p], s, s.pcs[p]))
  }

  predicate Genuine(j: Job, s: State, pc: Pc) {
    && (j.key.Some? && BodyOf(pc).Some? ==> BodyOf(pc).value in Delivered(s, j.key.value))
    && (j.key.Some? && pc.Fetching? ==> pc.owned.Some?)
  }

  /** A delivery for `k` that is in the cache or on its way there. */
  predicate Kept(y: System, s: State, k: string) {
    k in s.cache || exists p :: p in s.pcs && p in y.jobs && y.jobs[p].key == Some(k) && s.pcs[p].Storing?
  }

  /** Some fetch is at the backend for `k`. */
  predicate Fetched(y: System, s: State, k: string) {
    exists p :: p in s.pcs && p in y.jobs && y.jobs[p].key == Some(k) && s.pcs[p].Fetching?
  }

  /** A backend delivers for a key once, and once more for every time the cache lost it;
      while a fetch is at the backend that one more delivery is still owed. */
  ghost predicate FlightInv(y: System, s: State) {
    forall k ::
      && |Delivered(s, k)| <= Losses(s, k) + (if Kept(y, s, k) then 1 else 0)
      && (Fetched(y, s, k) ==> |Delivered(s, k)| <= Losses(s, k))
  }

  lemma DeliveredGrows(y: System, s: State, e: Step, k: string)
    requires Enabled(y, s, e)
    ensures Delivered(Do(y, s, e), k) == Delivered(s, k) + Arrives(y, s, e, k)
  {
    hide NextPc, NextLocks, NextSlots, NextCache, NextLosses;
  }

  /** What the step delivers for `k`. */
  function Arrives(y: System, s: State, e: Step, k: string): seq<string>
    requires Enabled(y, s, e)
  {
    if e.FetchSucceeds? && s.pcs[e.p].owned.Some? && y.jobs[e.p].key == Some(k) then [e.body] else []
  }

  lemma LossesGrow(y: System, s: State, e: Step, k: string)
    requires Enabled(y, s, e)
    ensures Losses(Do(y, s, e), k) == Losses(s, k) + if Loses(y, e) == Some(k) then 1 else 0
  {
    hide NextPc, NextLocks, NextSlots, NextCache, NextDelivered;
  }

  /** The key the cache fails in this step. */
  function Loses(y: System, e: Step): Option<string> {
    if e.Evict? then Some(e.key)
    else if ((e.Recheck? && e.fails) || (e.Store? && e.fails)) && e.p in y.jobs then y.jobs[e.p].key
    else None
  }

  lemma StepKeepsBodies(y: System, s: State, e: Step)
    requires BodyInv(y, s) && Enabled(y, s, e)
    ensures BodyInv(y, Do(y, s, e))
  {
    hide NextLocks, NextSlots, NextLosses, Delivered, NextDelivered, MayStep, NextPc, NextCache;
    var t := Do(y, s, e);
    forall k ensures Delivered(t, k) == Delivered(s, k) + Arrives(y, s, e, k) { DeliveredGrows(y, s, e, k); }
    forall p | p in t.pcs ensures Genuine(y.jobs[p], t, t.pcs[p]) {
      assert Genuine(y.jobs[p], s, s.pcs[p]);
      if !e.Evict? && p == e.p { OwnBodyIsGenuine(y, s, e); }
    }
    forall k | k in t.cache ensures t.cache[k] in Delivered(t, k) {
      if !e.Evict? { CachedIsDelivered(y, s, e, k); }
    }
  }

  lemma OwnBodyIsGenuine(y: System, s: State, e: Step)
    requires BodyInv(y, s) && Enabled(y, s, e) && !e.Evict?
    ensures Genuine(y.jobs[e.p], Do(y, s, e), Do(y, s, e).pcs[e.p])
  {
    hide NextLocks, NextSlots, NextLosses, Delivered, NextDelivered, NextCache, NextPc, MayStep, Ready, BodyOf;
    var j := y.jobs[e.p];
    assert Genuine(j, s, s.pcs[e.p]);
    if j.key.Some? {
      DeliveredGrows(y, s, e, j.key.value);
      BodySource(j, s, s.pcs[e.p], e);
    }
  }

  /** A body a fetch holds next it held already, or it was cached, or it arrives now. */
  lemma BodySource(j: Job, s: State, pc: Pc, e: Step)
    requires MayStep(j, pc, e) && j.key.Some? && (pc.Fetching? ==> pc.owned.Some?)
    ensures var next := NextPc(j, s, pc, e);
            && (next.Fetching? ==> next.owned.Some?)
            && (BodyOf(next).Some? ==>
                  || BodyOf(next) == BodyOf(pc)
                  || (j.key.value in s.cache && BodyOf(next).value == s.cache[j.key.value])
                  || (e.FetchSucceeds? && pc.owned.Some? && BodyOf(next).value == e.body))
  {
  }

  lemma CachedIsDelivered(y: System, s: State, e: Step, k: string)
    requires BodyInv(y, s) && Enabled(y, s, e) && !e.Evict?
    requires k in NextCache(y.jobs[e.p], s.cache, s.pcs[e.p], e)
    ensures NextCache(y.jobs[e.p], s.cache, s.pcs[e.p], e)[k] in Delivered(s, k)
  {
    hide NextPc, NextLocks, NextSlots, NextLosses, Delivered, NextDelivered, Do;
    assert Genuine(y.jobs[e.p], s, s.pcs[e.p]);
  }

  /** Two fetches of one key are never in its critical section together. */
  lemma OneAtATime(y: System, s: State, p: Pid, q: Pid, k: string)
    requires TableInv(y, s) && MutexInv(s) && p in s.pcs && q in s.pcs
    requires y.jobs[p].key == Some(k) && y.jobs[q].key == Some(k)
    requires HeldLock(s.pcs[p]).Some? && HeldLock(s.pcs[q]).Some?
    ensures p == q
  {
    assert Refers(y.jobs[p], s.shared, s.pcs[p]) && Refers(y.jobs[q], s.shared, s.pcs[q]);
    assert HeldLock(s.pcs[p]) == LockOf(s.pcs[p]) && HeldLock(s.pcs[q]) == LockOf(s.pcs[q]);
  }

  /** Storing and fetching of other keys, and of this key by other fetches, go on as they were. */
  lemma OtherFetches(y: System, s: State, e: Step, k: string)
    requires Enabled(y, s, e) && !e.Evict?
    requires y.jobs[e.p].key != Some(k)
    ensures Kept(y, Do(y, s, e), k) == Kept(y, s, k) && Fetched(y, Do(y, s, e), k) == Fetched(y, s, k)
  {
    hide NextPc, NextLocks, NextSlots, NextLosses, NextDelivered, Ready;
    var t := Do(y, s, e);
    assert forall p :: p in s.pcs && p in y.jobs && y.jobs[p].key == Some(k) ==> p in t.pcs && t.pcs[p] == s.pcs[p];
    assert forall p :: p in t.pcs && p in y.jobs && y.jobs[p].key == Some(k) ==> p in s.pcs && t.pcs[p] == s.pcs[p];
    assert k in t.cache <==> k in s.cache;
    if Kept(y, t, k) && k !in s.cache {
      var p :| p in t.pcs && p in y.jobs && y.jobs[p].key == Some(k) && t.pcs[p].Storing?;
      assert s.pcs[p].Storing?;
    }
    if Kept(y, s, k) && k !in s.cache {
      var p :| p in s.pcs && p in y.jobs && y.jobs[p].key == Some(k) && s.pcs[p].Storing?;
      assert t.pcs[p].Storing?;
    }
    OthersFetchOn(y, s, e, k);
  }

  lemma OthersFetchOn(y: System, s: State, e: Step, k: string)
    requires Enabled(y, s, e) && !e.Evict?
    requires y.jobs[e.p].key != Some(k)
    ensures Fetched(y, Do(y, s, e), k) == Fetched(y, s, k)
  {
    hide NextPc, NextLocks, NextSlots, NextLosses, NextDelivered, MayStep, NextCache;
    var t := Do(y, s, e);
    if Fetched(y, t, k) {
      var p :| p in t.pcs && p in y.jobs && y.jobs[p].key == Some(k) && t.pcs[p].Fetching?;
      assert s.pcs[p].Fetching?;
    }
    if Fetched(y, s, k) {
      var p :| p in s.pcs && p in y.jobs && y.jobs[p].key == Some(k) && s.pcs[p].Fetching?;
      assert t.pcs[p].Fetching?;
    }
  }

  /** What a fetch's own step does to its key: the delivery it made stays kept unless the cache fails. */
  lemma OwnStepKeeps(y: System, s: State, e: Step, k: string)
    requires Enabled(y, s, e) && !e.Evict? && y.jobs[e.p].key == Some(k)
    requires Kept(y, s, k) && Loses(y, e) != Some(k)
    ensures Kept(y, Do(y, s, e), k)
  {
    hide NextLocks, NextSlots, NextLosses, NextDelivered;
    var t := Do(y, s, e);
    if k !in s.cache {
      var p :| p in s.pcs && p in y.jobs && y.jobs[p].key == Some(k) && s.pcs[p].Storing?;
      if p != e.p { assert t.pcs[p] == s.pcs[p] && t.pcs[p].Storing?; }
    }
  }

  lemma SucceedingIsKept(y: System, s: State, e: Step, k: string)
    requires Enabled(y, s, e) && e.FetchSucceeds? && y.jobs[e.p].key == Some(k) && s.pcs[e.p].owned.Some?
    ensures Kept(y, Do(y, s, e), k) && Fetched(y, s, k)
  {
    hide NextLocks, NextSlots, NextLosses, NextDelivered, NextCache;
    assert Do(y, s, e).pcs[e.p].Storing?;
  }

  /** A fetch that finds the cache empty under the lock knows that no delivery is kept. */
  lemma NothingKeptAtRecheck(y: System, s: State, e: Step, k: string)
    requires TableInv(y, s) && MutexInv(s) && Enabled(y, s, e)
    requires e.Recheck? && y.jobs[e.p].key == Some(k) && k !in s.cache
    ensures !Kept(y, s, k)
  {
    if p :| p in s.pcs && p in y.jobs && y.jobs[p].key == Some(k) && s.pcs[p].Storing? {
      OneAtATime(y, s, p, e.p, k);
    }
  }

  /** A fetch at the backend was there before, came there by this step, or nobody is left there. */
  lemma WhoFetches(y: System, s: State, e: Step, k: string)
    requires TableInv(y, s) && MutexInv(s) && BodyInv(y, s) && Enabled(y, s, e) && !e.Evict?
    requires y.jobs[e.p].key == Some(k) && Fetched(y, Do(y, s, e), k)
    ensures Fetched(y, s, k) || e.Recheck?
    ensures !e.FetchSucceeds?
    ensures e.Recheck? && !Fetched(y, s, k) ==> e.fails || k !in s.cache
  {
    hide NextLocks, NextSlots, NextLosses, NextDelivered, NextCache, NextPc, Refers, Ready, TableInv, MutexInv;
    var t := Do(y, s, e);
    var q :| q in t.pcs && q in y.jobs && y.jobs[q].key == Some(k) && t.pcs[q].Fetching?;
    if q == e.p {
      OnlyRecheckStartsFetching(y.jobs[q], s, s.pcs[q], e);
    } else {
      assert s.pcs[q] == t.pcs[q];
      if e.FetchSucceeds? {
        assert Genuine(y.jobs[e.p], s, s.pcs[e.p]) && Genuine(y.jobs[q], s, s.pcs[q]);
        OneAtATime(y, s, q, e.p, k);
      }
    }
  }

  lemma OnlyRecheckStartsFetching(j: Job, s: State, pc: Pc, e: Step)
    requires MayStep(j, pc, e) && j.key.Some? && NextPc(j, s, pc, e).Fetching?
    ensures e.Recheck? && (e.fails || j.key.value !in s.cache)
  {
  }

  lemma FlightStep(y: System, s: State, e: Step, k: string)
    requires TableInv(y, s) && MutexInv(s) && BodyInv(y, s) && FlightInv(y, s) && Enabled(y, s, e) && !e.Evict?
    ensures
      var t := Do(y, s, e);
      && |Delivered(t, k)| <= Losses(t, k) + (if Kept(y, t, k) then 1 else 0)
      && (Fetched(y, t, k) ==> |Delivered(t, k)| <= Losses(t, k))
  {
    hide MayStep, NextPc, NextLocks, NextSlots, NextLosses, NextDelivered, NextCache, TableInv, MutexInv, BodyInv,
         Kept, Fetched, Delivered, Losses, Ready;
    var t := Do(y, s, e);
    DeliveredGrows(y, s, e, k);
    LossesGrow(y, s, e, k);
    if y.jobs[e.p].key != Some(k) {
      OtherFetches(y, s, e, k);
    } else {
      if Fetched(y, t, k) {
        WhoFetches(y, s, e, k);
        if !Fetched(y, s, k) && !e.fails { NothingKeptAtRecheck(y, s, e, k); }
      }
      if Arrives(y, s, e, k) != [] {
        SucceedingIsKept(y, s, e, k);
      } else if Kept(y, s, k) && Loses(y, e) != Some(k) {
        OwnStepKeeps(y, s, e, k);
      }
    }
  }

  lemma EvictStep(y: System, s: State, e: Step)
    requires FlightInv(y, s) && Enabled(y, s, e) && e.Evict?
    ensures FlightInv(y, Do(y, s, e))
  {
    hide Delivered, Losses;
    var t := Do(y, s, e);
    forall k
      ensures |Delivered(t, k)| <= Losses(t, k) + (if Kept(y, t, k) then 1 else 0)
      ensures Fetched(y, t, k) ==> |Delivered(t, k)| <= Losses(t, k)
    {
      DeliveredGrows(y, s, e, k);
      LossesGrow(y, s, e, k);
      assert k != e.key ==> Kept(y, t, k) == Kept(y, s, k);
      assert Fetched(y, t, k) == Fetched(y, s, k);
    }
  }

  ghost predicate FullInv(y: System, s: State) {
    Inv(y, s) && BodyInv(y, s) && FlightInv(y, s)
  }

  lemma StepKeepsFullInv(y: System, s: State, e: Step)
    requires FullInv(y, s) && Enabled(y, s, e)
    ensures FullInv(y, Do(y, s, e))
  {
    hide TableInv, RefInv, MutexInv, SlotInv, BodyInv, Do, Enabled, Delivered, Losses, Kept, Fetched;
    StepKeepsInv(y, s, e);
    StepKeepsBodies(y, s, e);
    if e.Evict? {
      EvictStep(y, s, e);
    } else {
      forall k
        ensures |Delivered(Do(y, s, e), k)| <= Losses(Do(y, s, e), k) + (if Kept(y, Do(y, s, e), k) then 1 else 0)
        ensures Fetched(y, Do(y, s, e), k) ==> |Delivered(Do(y, s, e), k)| <= Losses(Do(y, s, e), k)
      {
        FlightStep(y, s, e, k);
      }
    }
  }

  ghost predicate IsRun(y: System, s: State, steps: seq<Step>, t: State)
    decreases |steps|
  {
    if steps == [] then s == t
    else Enabled(y, s, steps[0]) && IsRun(y, Do(y, s, steps[0]), steps[1..], t)
  }

  lemma {:induction false} RunKeepsFullInv(y: System, s: State, steps: seq<Step>, t: State)
    requires FullInv(y, s) && IsRun(y, s, steps, t)
    ensures FullInv(y, t)
    decreases |steps|
  {
    hide FullInv, Enabled, Do;
    if steps != [] {
      StepKeepsFullInv(y, s, steps[0]);
      RunKeepsFullInv(y, Do(y, s, steps[0]), steps[1..], t);
    }
  }

  lemma InitialFullInv(y: System)
    requires y.Valid()
    ensures FullInv(y, Initial(y))
  {
    hide Inv;
    InitialInv(y);
  }

  /** In every run of any set of fetches, the backends deliver at most one body for a key, and one more
      for each time the cache lost or refused it; every fetch that succeeds returns one of these bodies.
      So with a cache that keeps what it is given, all fetches of a key return the one body delivered. */
  lemma {:induction false} SingleFlight(y: System, steps: seq<Step>, t: State, k: string)
    requires y.Valid() && IsRun(y, Initial(y), steps, t)
    ensures |Delivered(t, k)| <= Losses(t, k) + 1
    ensures forall p :: p in t.pcs && p in y.jobs && y.jobs[p].key == Some(k)
                        && t.pcs[p].Done? && t.pcs[p].outcome.Ok? ==>
              t.pcs[p].outcome.body in Delivered(t, k)
    ensures Losses(t, k) == 0 ==>
              forall p :: p in t.pcs && p in y.jobs && y.jobs[p].key == Some(k)
                          && t.pcs[p].Done? && t.pcs[p].outcome.Ok? ==>
                Delivered(t, k) == [t.pcs[p].outcome.body]
  {
    hide Inv, IsRun, Initial, Kept, Fetched, Delivered, Losses;
    InitialFullInv(y);
    RunKeepsFullInv(y, Initial(y), steps, t);
    forall p | p in t.pcs && p in y.jobs && y.jobs[p].key == Some(k) && t.pcs[p].Done? && t.pcs[p].outcome.Ok?
      ensures t.pcs[p].outcome.body in Delivered(t, k)
    {
      assert Genuine(y.jobs[p], t, t.pcs[p]);
    }
  }

  // ---- No deadlock ----

  /** The step with which a fetch that waits for nobody goes on. */
  function OwnStep(j: Job, p: Pid, pc: Pc): Step {
    match pc
    case Start => Begin(p)
    case SemWait => GetSlot(p)
    case Checking => if j.key.Some? then Lookup(p, false) else SkipCache(p)
    case WantLock => Join(p)
    case Queued(_) => TakeLock(p)
    case Holding(_) => Recheck(p, false)
    case Fetching(_) => FetchFails(p)
    case Storing(_, _) => Store(p, false)
    case Releasing(_, _) => Unlock(p)
    case Dropping(_, _) => DropLock(p)
    case Leaving(_) => FreeSlot(p)
    case Done(_) => FreeSlot(p)
  }

  lemma UnblockedMoves(y: System, s: State, p: Pid)
    requires y.Valid() && Inv(y, s) && p in s.pcs && !s.pcs[p].Done?
    requires s.pcs[p].SemWait? ==>
               y.jobs[p].sem.Some? && y.jobs[p].sem.value in s.slots &&
                 s.slots[y.jobs[p].sem.value] < y.caps[y.jobs[p].sem.value]
    requires s.pcs[p].Queued? ==> s.pcs[p].lock in s.shared.made && !s.shared.made[s.pcs[p].lock].full
    ensures Enabled(y, s, OwnStep(y.jobs[p], p, s.pcs[p]))
  {
    hide RefInv, SlotUsers, Ready, MayStep;
    assert Refers(y.jobs[p], s.shared, s.pcs[p]);
    if s.pcs[p].Leaving? && y.jobs[p].sem.Some? {
      var m := y.jobs[p].sem.value;
      assert p in SlotUsers(y, s, m) by { SlotUsersMove(y, s, s, p, s.pcs[p], m); }
    }
    OwnStepIsReady(y, y.jobs[p], s, p, s.pcs[p]);
  }

  lemma OwnStepIsReady(y: System, j: Job, s: State, p: Pid, pc: Pc)
    requires !pc.Done? && (NeedsKey(pc) ==> j.key.Some?)
    requires pc.SemWait? ==> j.sem.Some? && j.sem.value in y.caps && j.sem.value in s.slots
    requires pc.SemWait? ==> s.slots[j.sem.value] < y.caps[j.sem.value]
    requires pc.Leaving? && j.sem.Some? ==> j.sem.value in s.slots && s.slots[j.sem.value] > 0
    requires pc.WantLock? && j.key.value in s.shared.table ==> s.shared.table[j.key.value] in s.shared.made
    requires pc.Queued? ==> pc.lock in s.shared.made && !s.shared.made[pc.lock].full
    requires pc.Releasing? || pc.Dropping? ==> pc.lock in s.shared.made
    ensures MayStep(j, pc, OwnStep(j, p, pc)) && Ready(y, j, s, pc, OwnStep(j, p, pc))
  {
  }

  /** A fetch that is not waiting for a slot in vain: this one, or one that has a slot it waits for. */
  lemma PastSemaphore(y: System, s: State, p: Pid) returns (q: Pid)
    requires y.Valid() && SlotInv(y, s) && p in s.pcs && !s.pcs[p].Done?
    ensures q in s.pcs && !s.pcs[q].Done?
    ensures s.pcs[q].SemWait? ==>
              y.jobs[q].sem.Some? && y.jobs[q].sem.value in s.slots &&
                s.slots[y.jobs[q].sem.value] < y.caps[y.jobs[q].sem.value]
  {
    hide SlotUsers;
    q := p;
    if s.pcs[p].SemWait? && s.slots[y.jobs[p].sem.value] >= y.caps[y.jobs[p].sem.value] {
      q := SlotHolder(y, s, y.jobs[p].sem.value);
    }
  }

  /** And one that is not waiting for a lock in vain either. */
  lemma PastLock(y: System, s: State, p: Pid) returns (q: Pid)
    requires TableInv(y, s) && MutexInv(s) && p in s.pcs
    ensures q == p || (q in s.pcs && HeldLock(s.pcs[q]).Some?)
    ensures s.pcs[q].Queued? ==> s.pcs[q].lock in s.shared.made && !s.shared.made[s.pcs[q].lock].full
  {
    q := p;
    if s.pcs[p].Queued? {
      assert Refers(y.jobs[p], s.shared, s.pcs[p]);
      if s.shared.made[s.pcs[p].lock].full {
        q :| q in s.pcs && HeldLock(s.pcs[q]) == Some(s.pcs[p].lock);
      }
    }
  }

  lemma SomebodyMoves(y: System, s: State, p: Pid) returns (e: Step)
    requires y.Valid() && Inv(y, s) && p in s.pcs && !s.pcs[p].Done?
    ensures Enabled(y, s, e) && !Spontaneous(e)
  {
    hide Enabled, RefInv, MutexInv, SlotInv;
    var q := PastSemaphore(y, s, p);
    q := PastLock(y, s, q);
    UnblockedMoves(y, s, q);
    e := OwnStep(y.jobs[q], q, s.pcs[q]);
  }

  /** In every reachable state with unfinished fetches, some fetch can step, even if no deadline ever fires. */
  lemma {:induction false} NoDeadlock(y: System, steps: seq<Step>, t: State, p: Pid) returns (e: Step)
    requires y.Valid() && IsRun(y, Initial(y), steps, t) && p in t.pcs && !t.pcs[p].Done?
    ensures Enabled(y, t, e) && !Spontaneous(e)
  {
    hide IsRun, Initial, Inv, BodyInv, FlightInv, Enabled;
    InitialFullInv(y);
    RunKeepsFullInv(y, Initial(y), steps, t);
    e := SomebodyMoves(y, t, p);
  }

  // ---- Every fetch comes to its end ----

  /** How many steps a fetch can still take. */
  function StepsLeft(pc: Pc): nat {
    match pc
    case Start => 11
    case SemWait => 10
    case Checking => 9
    case WantLock => 8
    case Queued(_) => 7
    case Holding(_) => 6
    case Fetching(_) => 5
    case Storing(_, _) => 4
    case Releasing(_, _) => 3
    case Dropping(_, _) => 2
    case Leaving(_) => 1
    case Done(_) => 0
  }

  lemma StepShrinks(j: Job, s: State, pc: Pc, e: Step)
    requires MayStep(j, pc, e)
    ensures StepsLeft(NextPc(j, s, pc, e)) < StepsLeft(pc)
  {
  }

  function StepsOf(p: Pid, steps: seq<Step>): nat {
    if steps == [] then 0
    else (if !steps[0].Evict? && steps[0].p == p then 1 else 0) + StepsOf(p, steps[1..])
  }

  lemma {:induction false} EachStepCounts(y: System, s: State, steps: seq<Step>, t: State, p: Pid)
    requires IsRun(y, s, steps, t) && p in s.pcs
    ensures p in t.pcs && StepsOf(p, steps) + StepsLeft(t.pcs[p]) <= StepsLeft(s.pcs[p])
    decreases |steps|
  {
    hide StepsLeft, NextPc, MayStep, Ready, NextLocks, NextSlots, NextCache, NextDelivered, NextLosses;
    if steps != [] {
      var e := steps[0];
      EachStepCounts(y, Do(y, s, e), steps[1..], t, p);
      if !e.Evict? && e.p == p { StepShrinks(y.jobs[p], s, s.pcs[p], e); }
    }
  }

  /** No fetch takes more than 11 steps in any run, and a run that nothing but a deadline or an eviction
      could prolong has finished all of them: whoever is scheduled, every fetch gets its answer. */
  lemma {:induction false} EveryFetchEnds(y: System, steps: seq<Step>, t: State, p: Pid)
    requires y.Valid() && IsRun(y, Initial(y), steps, t) && p in y.jobs
    ensures p in t.pcs && StepsOf(p, steps) <= 11
    ensures (forall e :: Enabled(y, t, e) ==> Spontaneous(e)) ==> t.pcs[p].Done?
  {
    hide IsRun, Enabled;
    EachStepCounts(y, Initial(y), steps, t, p);
    if !t.pcs[p].Done? {
      var e := NoDeadlock(y, steps, t, p);
    }
  }

  /** Somebody holds a slot of a semaphore that is used up, and is past waiting for it. */
  lemma SlotHolder(y: System, s: State, m: nat) returns (q: Pid)
    requires y.Valid() && SlotInv(y, s) && m in y.caps && s.slots[m] >= y.caps[m]
    ensures q in s.pcs && Guarded(s.pcs[q])
  {
    assert |SlotUsers(y, s, m)| >= 1;
    q :| q in SlotUsers(y, s, m);
  }

  /** In every run at most one fetch of a key is in its critical section, and it holds the key's lock. */
  lemma {:induction false} AtMostOneInside(y: System, steps: seq<Step>, t: State, p: Pid, q: Pid)
    requires y.Valid() && IsRun(y, Initial(y), steps, t) && p in t.pcs && q in t.pcs && p in y.jobs && q in y.jobs
    requires y.jobs[p].key == y.jobs[q].key && HeldLock(t.pcs[p]).Some? && HeldLock(t.pcs[q]).Some?
    ensures p == q && y.jobs[p].key.Some? && y.jobs[p].key.value in t.shared.table
    ensures HeldLock(t.pcs[p]) == Some(t.shared.table[y.jobs[p].key.value])
  {
    hide IsRun, Initial, BodyInv, FlightInv, RefInv, SlotInv, MutexInv;
    InitialFullInv(y);
    RunKeepsFullInv(y, Initial(y), steps, t);
    assert Refers(y.jobs[p], t.shared, t.pcs[p]);
    OneAtATime(y, t, p, q, y.jobs[p].key.value);
  }

  /** The invariant, for the states a run reaches: reference counts, table, channels and slots agree,
      and a key is in the table exactly while it has participants. */
  lemma {:induction false} TableHoldsExactlyTheKeysInUse(y: System, steps: seq<Step>, t: State, k: string)
    requires y.Valid() && IsRun(y, Initial(y), steps, t)
    ensures k in t.shared.table <==>
            exists p :: p in t.pcs && p in y.jobs && y.jobs[p].key == Some(k) && LockOf(t.pcs[p]).Some?
    ensures k in t.shared.table ==>
              t.shared.table[k] in t.shared.made &&
              t.shared.made[t.shared.table[k]].refs == |Participants(t, t.shared.table[k])|
  {
    hide IsRun, Initial, BodyInv, FlightInv, Participants, MutexInv, SlotInv;
    InitialFullInv(y);
    RunKeepsFullInv(y, Initial(y), steps, t);
    if k in t.shared.table {
      var l := t.shared.table[k];
      SomebodyRefers(y, t, k);
    }
    if p :| p in t.pcs && p in y.jobs && y.jobs[p].key == Some(k) && LockOf(t.pcs[p]).Some? {
      assert Refers(y.jobs[p], t.shared, t.pcs[p]);
    }
  }

  lemma SomebodyRefers(y: System, t: State, k: string)
    requires TableInv(y, t) && RefInv(t) && k in t.shared.table
    ensures exists p :: p in t.pcs && p in y.jobs && y.jobs[p].key == Some(k) && LockOf(t.pcs[p]).Some?
  {
    var l := t.shared.table[k];
    assert |Participants(t, l)| > 0;
    var p :| p in Participants(t, l);
    assert Refers(y.jobs[p], t.shared, t.pcs[p]);
    var k' := y.jobs[p].key.value;
    assert t.shared.made[l].key == k' && t.shared.made[l].key == k;
  }
}
