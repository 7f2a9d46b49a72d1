/** The mutex and reader/writer lock wrappers: what a status code tells the
    caller against what the primitive granted, over runs of any number of
    threads. */
module Locks {
  import opened NvTypes

  type Tid = nat

  datatype Mode = Shared | Exclusive

  /** One entry per hold.  The same shape describes the holds a primitive has
      granted and the holds that callers believe they have. */
  datatype Holds = Holds(readers: multiset<Tid>, writers: multiset<Tid>)

  const FREE: Holds := Holds(multiset{}, multiset{})

  predicate CanTake(h: Holds, m: Mode)
  {
    h.writers == multiset{} && (m == Exclusive ==> h.readers == multiset{})
  }

  function Take(h: Holds, t: Tid, m: Option<Mode>): Holds
  {
    match m
    case None => h
    case Some(Shared) => h.(readers := h.readers + multiset{t})
    case Some(Exclusive) => h.(writers := h.writers + multiset{t})
  }

  function Count(h: Holds, t: Tid): nat { h.readers[t] + h.writers[t] }

  /** One hold of the thread less, if it has any. */
  function GivenBack(h: Holds, t: Tid): Holds
  {
    if t in h.writers then h.(writers := h.writers - multiset{t})
    else h.(readers := h.readers - multiset{t})
  }

  /** Primitives do not check who unlocks: a thread without a hold gives back
      another's, the victim's.  A victim that holds nothing stands for an unlock
      that the primitive ignores. */
  function Unlocked(h: Holds, t: Tid, victim: Tid): Holds
  {
    GivenBack(h, if Count(h, t) > 0 then t else victim)
  }

  function GivenUp(h: Holds, t: Tid, m: Mode): Holds
  {
    match m
    case Shared => h.(readers := h.readers - multiset{t})
    case Exclusive => h.(writers := h.writers - multiset{t})
  }

  predicate HasHold(h: Holds, t: Tid, m: Mode)
  {
    match m
    case Shared => t in h.readers
    case Exclusive => t in h.writers
  }

  ghost predicate Exclusion(h: Holds)
  {
    |h.writers| <= 1 && (h.writers != multiset{} ==> h.readers == multiset{})
  }

  // ---- The three wrappers ----------------------------------------------------

  datatype Wrapper =
    | DriverKitRw  // pthread_rwlock_t
    | KernelRw     // IORWLock
    | Mutex        // IOLock, the same code on both platforms

  datatype Call =
    | Acquire(tid: Tid, mode: Mode)
    | CondAcquire(tid: Tid, mode: Mode)
    | Release(tid: Tid, mode: Mode, victim: Tid)

  /** The mode a conditional acquire asks its primitive for. */
  function Asked(k: Wrapper, m: Mode): Mode
  {
    match k
    case DriverKitRw => Shared  // both go through pthread_rwlock_tryrdlock
    case KernelRw => m
    case Mutex => Exclusive
  }

  /** The thread's own hold is in the way: pthread may answer EDEADLK. */
  predicate BarsItself(h: Holds, t: Tid, m: Mode) { t in h.writers || (m == Exclusive && t in h.readers) }

  predicate Reacquires(k: Wrapper, h: Holds, c: Call)
  {
    k == DriverKitRw && c.Acquire? && BarsItself(h, c.tid, c.mode)
  }

  function Granted(k: Wrapper, h: Holds, c: Call): Option<Mode>
  {
    match c
    case Acquire(_, m) => if Reacquires(k, h, c) then None else Some(m)
    case CondAcquire(_, m) => if CanTake(h, Asked(k, m)) then Some(Asked(k, m)) else None
    case Release(_, _, _) => None
  }

  function Status(k: Wrapper, h: Holds, c: Call): NvStatus
  {
    if !c.CondAcquire? then NV_OK
    else
      match k
      case DriverKitRw => if CanTake(h, Shared) then NV_OK else NV_ERR_TIMEOUT_RETRY
      case KernelRw => NV_OK
      case Mutex => if CanTake(h, Exclusive) then NV_ERR_TIMEOUT_RETRY else NV_OK
  }

  /** The hold that the caller concludes it has. */
  function Reported(k: Wrapper, h: Holds, c: Call): Option<Mode>
  {
    if c.Release? || Status(k, h, c) != NV_OK then None else Some(c.mode)
  }

  // ---- The imperative code ---------------------------------------------------

  class Primitive {
    var holds: Holds

    constructor ()
      ensures holds == FREE
    {
      holds := FREE;
    }

    /** A blocking lock call returns once the lock can be taken. */
    method Lock(t: Tid, m: Mode)
      requires CanTake(holds, m)
      modifies this
      ensures holds == Take(old(holds), t, Some(m))
    {
      holds := Take(holds, t, Some(m));
    }

    method TryLock(t: Tid, m: Mode) returns (taken: bool)
      modifies this
      ensures taken == CanTake(old(holds), m)
      ensures holds == Take(old(holds), t, if taken then Some(m) else None)
    {
      taken := CanTake(holds, m);
      if taken { holds := Take(holds, t, Some(m)); }
    }

    method Unlock(t: Tid, victim: Tid)
      modifies this
      ensures holds == Unlocked(old(holds), t, victim)
    {
      holds := Unlocked(holds, t, victim);
    }
  }

  const EBUSY: int := 16

  /** pthread_rwlock_tryrdlock answers 0 or an error number. */
  method PthreadTryRdLock(p: Primitive, t: Tid) returns (result: int)
    modifies p
    ensures result == if CanTake(old(p.holds), Shared) then 0 else EBUSY
    ensures p.holds == Take(old(p.holds), t, if result == 0 then Some(Shared) else None)
  {
    var taken := p.TryLock(t, Shared);
    result := if taken then 0 else EBUSY;
  }

  method OsCondAcquireRwlockRead(p: Primitive, t: Tid) returns (status: NvStatus)
    modifies p
    ensures status == Status(DriverKitRw, old(p.holds), CondAcquire(t, Shared))
    ensures p.holds == Take(old(p.holds), t, Granted(DriverKitRw, old(p.holds), CondAcquire(t, Shared)))
    ensures status == if old(p.holds).writers == multiset{} then NV_OK else NV_ERR_TIMEOUT_RETRY
    ensures p.holds == if old(p.holds).writers == multiset{} then
                         Holds(old(p.holds).readers + multiset{t}, old(p.holds).writers) else old(p.holds)
  {
    var result := PthreadTryRdLock(p, t);
    if result == 0 { return NV_OK; } else { return NV_ERR_TIMEOUT_RETRY; }
  }

  method OsCondAcquireRwlockWrite(p: Primitive, t: Tid) returns (status: NvStatus)
    modifies p
    ensures status == Status(DriverKitRw, old(p.holds), CondAcquire(t, Exclusive))
    ensures p.holds == Take(old(p.holds), t, Granted(DriverKitRw, old(p.holds), CondAcquire(t, Exclusive)))
    ensures status == if old(p.holds).writers == multiset{} then NV_OK else NV_ERR_TIMEOUT_RETRY
    ensures p.holds == if old(p.holds).writers == multiset{} then
                         Holds(old(p.holds).readers + multiset{t}, old(p.holds).writers) else old(p.holds)
  {
    var result := PthreadTryRdLock(p, t);
    if result == 0 { return NV_OK; } else { return NV_ERR_TIMEOUT_RETRY; }
  }

  method KernelCondAcquireRwlock(p: Primitive, t: Tid, m: Mode) returns (status: NvStatus)
    modifies p
    ensures status == Status(KernelRw, old(p.holds), CondAcquire(t, m))
    ensures p.holds == Take(old(p.holds), t, Granted(KernelRw, old(p.holds), CondAcquire(t, m)))
    ensures status == NV_OK
    ensures m == Shared && old(p.holds).writers == multiset{} ==>
      p.holds == Holds(old(p.holds).readers + multiset{t}, old(p.holds).writers)
    ensures m == Exclusive && old(p.holds) == FREE ==> p.holds == Holds(multiset{}, multiset{t})
    ensures old(p.holds).writers != multiset{} || (m == Exclusive && old(p.holds) != FREE) ==> p.holds == old(p.holds)
  {
    var _ := p.TryLock(t, m);
    return NV_OK;
  }

  method OsCondAcquireMutex(p: Primitive, t: Tid) returns (status: NvStatus)
    modifies p
    ensures status == Status(Mutex, old(p.holds), CondAcquire(t, Exclusive))
    ensures p.holds == Take(old(p.holds), t, Granted(Mutex, old(p.holds), CondAcquire(t, Exclusive)))
    ensures status == if old(p.holds) == FREE then NV_ERR_TIMEOUT_RETRY else NV_OK
    ensures p.holds == if old(p.holds) == FREE then Holds(multiset{}, multiset{t}) else old(p.holds)
  {
    var result := p.TryLock(t, Exclusive);
    if result == false { return NV_OK; } else { return NV_ERR_TIMEOUT_RETRY; }
  }

  const EDEADLK: int := 11

  /** pthread_rwlock_rdlock and pthread_rwlock_wrlock answer 0 or an error number. */
  method PthreadLock(p: Primitive, t: Tid, m: Mode) returns (result: int)
    requires CanTake(p.holds, m) || BarsItself(p.holds, t, m)
    modifies p
    ensures result == if BarsItself(old(p.holds), t, m) then EDEADLK else 0
    ensures p.holds == Take(old(p.holds), t, if result == 0 then Some(m) else None)
  {
    if BarsItself(p.holds, t, m) { return EDEADLK; }
    p.Lock(t, m);
    result := 0;
  }

  /** DriverKit's blocking acquires discard the answer. */
  method OsAcquireRwlock(p: Primitive, t: Tid, m: Mode) returns (status: NvStatus)
    requires CanTake(p.holds, m) || t in p.holds.writers || (m == Exclusive && t in p.holds.readers)
    modifies p
    ensures status == Status(DriverKitRw, old(p.holds), Acquire(t, m))
    ensures p.holds == Take(old(p.holds), t, Granted(DriverKitRw, old(p.holds), Acquire(t, m)))
    ensures status == NV_OK
    ensures t in old(p.holds).writers || (m == Exclusive && t in old(p.holds).readers) ==> p.holds == old(p.holds)
    ensures m == Shared && old(p.holds).writers == multiset{} ==>
      p.holds == Holds(old(p.holds).readers + multiset{t}, multiset{})
    ensures m == Exclusive && old(p.holds) == FREE ==> p.holds == Holds(multiset{}, multiset{t})
  {
    var _ := PthreadLock(p, t, m);
    return NV_OK;
  }

  /** The kernel's blocking acquires and the mutex's. */
  method OsAcquire(p: Primitive, t: Tid, m: Mode, ghost k: Wrapper) returns (status: NvStatus)
    requires CanTake(p.holds, m) && k != DriverKitRw
    modifies p
    ensures status == Status(k, old(p.holds), Acquire(t, m))
    ensures p.holds == Take(old(p.holds), t, Granted(k, old(p.holds), Acquire(t, m)))
    ensures status == NV_OK
    ensures p.holds == if m == Shared then Holds(old(p.holds).readers + multiset{t}, multiset{})
                       else Holds(multiset{}, multiset{t})
  {
    p.Lock(t, m);
    return NV_OK;
  }

  /** The releases of both reader/writer locks and of the mutex only unlock. */
  method OsRelease(p: Primitive, t: Tid, m: Mode, victim: Tid, ghost k: Wrapper, ghost believed: Holds)
    modifies p
    ensures World(p.holds, GivenUp(believed, t, m)) == Next(k, World(old(p.holds), believed), Release(t, m, victim))
    ensures t in old(p.holds).writers ==>
      p.holds == Holds(old(p.holds).readers, old(p.holds).writers - multiset{t})
    ensures t !in old(p.holds).writers && t in old(p.holds).readers ==>
      p.holds == Holds(old(p.holds).readers - multiset{t}, old(p.holds).writers)
    ensures t !in old(p.holds).writers && t !in old(p.holds).readers ==>
      p.holds == if victim in old(p.holds).writers
                 then Holds(old(p.holds).readers, old(p.holds).writers - multiset{victim})
                 else Holds(old(p.holds).readers - multiset{victim}, old(p.holds).writers)
  {
    p.Unlock(t, victim);
  }

  // ---- Runs --------------------------------------------------------------------

  datatype World = World(held: Holds, believed: Holds)

  const START: World := World(FREE, FREE)

  /** A blocking acquire completes only when the lock can be taken or pthread
      refuses it; a caller releases only what it believes it holds.  A mutex has
      no shared mode. */
  predicate Enabled(k: Wrapper, w: World, c: Call)
  {
    && (c.Acquire? ==> CanTake(w.held, c.mode) || Reacquires(k, w.held, c))
    && (c.Release? ==> HasHold(w.believed, c.tid, c.mode))
    && (k == Mutex ==> c.mode == Exclusive)
  }

  function Next(k: Wrapper, w: World, c: Call): World
  {
    if c.Release? then World(Unlocked(w.held, c.tid, c.victim), GivenUp(w.believed, c.tid, c.mode))
    else World(Take(w.held, c.tid, Granted(k, w.held, c)), Take(w.believed, c.tid, Reported(k, w.held, c)))
  }

  predicate Run(k: Wrapper, w: World, cs: seq<Call>)
    decreases |cs|
  {
    cs != [] ==> Enabled(k, w, cs[0]) && Run(k, Next(k, w, cs[0]), cs[1..])
  }

  function After(k: Wrapper, w: World, cs: seq<Call>): World
    decreases |cs|
  {
    if cs == [] then w else After(k, Next(k, w, cs[0]), cs[1..])
  }

  lemma ExclusionStep(k: Wrapper, w: World, c: Call)
    requires Enabled(k, w, c) && Exclusion(w.held)
    ensures Exclusion(Next(k, w, c).held)
  {
  }

  /** The primitives themselves always exclude, whatever callers believe. */
  lemma {:induction false} PrimitiveExcludes(k: Wrapper, w: World, cs: seq<Call>)
    requires Run(k, w, cs) && Exclusion(w.held)
    ensures Exclusion(After(k, w, cs).held)
    decreases |cs|
  {
    if cs != [] {
      ExclusionStep(k, w, cs[0]);
      PrimitiveExcludes(k, Next(k, w, cs[0]), cs[1..]);
    }
  }

  // ---- When belief is fact -------------------------------------------------------

  /** The calls whose status is not the hold taken: on DriverKit a conditional
      write on a lock without a writer, and a blocking acquire that the thread's
      own hold bars; in the kernel a conditional acquire that is refused; on a
      mutex every conditional acquire. */
  predicate Lies(k: Wrapper, h: Holds, c: Call)
  {
    match c
    case Acquire(t, m) => k == DriverKitRw && BarsItself(h, t, m)
    case CondAcquire(_, m) =>
      (match k
       case DriverKitRw => m == Exclusive && h.writers == multiset{}
       case KernelRw => !CanTake(h, m)
       case Mutex => true)
    case Release(_, _, _) => false
  }

  lemma DishonestCalls(k: Wrapper, h: Holds, c: Call)
    requires k == Mutex ==> c.mode == Exclusive
    ensures Lies(k, h, c) <==> Granted(k, h, c) != Reported(k, h, c)
  {
  }

  predicate Faithful(w: World) { w.held == w.believed }

  predicate FaithfulThroughout(k: Wrapper, w: World, cs: seq<Call>)
    decreases |cs|
  {
    Faithful(w) && (cs != [] ==> FaithfulThroughout(k, Next(k, w, cs[0]), cs[1..]))
  }

  predicate NeverLies(k: Wrapper, w: World, cs: seq<Call>)
    decreases |cs|
  {
    cs != [] ==> !Lies(k, w.held, cs[0]) && NeverLies(k, Next(k, w, cs[0]), cs[1..])
  }

  lemma TakeInjective(h: Holds, t: Tid, a: Option<Mode>, b: Option<Mode>)
    requires Take(h, t, a) == Take(h, t, b)
    ensures a == b
  {
    assert (h.readers + multiset{t})[t] == h.readers[t] + 1;
    assert (h.writers + multiset{t})[t] == h.writers[t] + 1;
  }

  lemma OwnRelease(h: Holds, t: Tid, m: Mode, victim: Tid)
    requires Exclusion(h) && HasHold(h, t, m)
    ensures Unlocked(h, t, victim) == GivenUp(h, t, m)
  {
    if m == Shared { assert h.readers != multiset{}; }
  }

  lemma FaithfulNextIff(k: Wrapper, w: World, c: Call)
    requires Enabled(k, w, c) && Exclusion(w.held) && Faithful(w)
    ensures Faithful(Next(k, w, c)) <==> !Lies(k, w.held, c)
    ensures Exclusion(Next(k, w, c).held)
  {
    hide Granted, Reported, Lies, Take, Unlocked, GivenUp;
    ExclusionStep(k, w, c);
    DishonestCalls(k, w.held, c);
    if c.Release? {
      OwnRelease(w.held, c.tid, c.mode, c.victim);
      ReleasesAreHonest(k, w.held, c);
    } else if Faithful(Next(k, w, c)) {
      TakeInjective(w.held, c.tid, Granted(k, w.held, c), Reported(k, w.held, c));
    }
  }

  lemma ReleasesAreHonest(k: Wrapper, h: Holds, c: Call)
    requires c.Release?
    ensures !Lies(k, h, c)
  {
  }

  /** Over every run of any number of threads: what callers believe is what
      they hold in every state exactly when no call in the run lies; and then
      at most one caller believes it writes, beside no believed reader. */
  lemma {:induction false} FaithfulThroughoutIff(k: Wrapper, w: World, cs: seq<Call>)
    requires Run(k, w, cs) && Exclusion(w.held) && Faithful(w)
    ensures FaithfulThroughout(k, w, cs) <==> NeverLies(k, w, cs)
    ensures NeverLies(k, w, cs) ==> Exclusion(After(k, w, cs).believed)
    decreases |cs|
  {
    if cs != [] {
      FaithfulNextIff(k, w, cs[0]);
      if !Lies(k, w.held, cs[0]) { FaithfulThroughoutIff(k, Next(k, w, cs[0]), cs[1..]); }
    }
  }

  /** No blocking acquire that its thread's own hold bars. */
  predicate NeverReacquires(w: World, cs: seq<Call>)
    decreases |cs|
  {
    cs != [] ==> !Reacquires(DriverKitRw, w.held, cs[0]) && NeverReacquires(Next(DriverKitRw, w, cs[0]), cs[1..])
  }

  /** DriverKit runs of blocking acquires, conditional reads and matching
      releases are faithful exactly when no thread acquires against its own hold. */
  lemma {:induction false} WithoutCondWriteFaithfulIff(w: World, cs: seq<Call>)
    requires Run(DriverKitRw, w, cs) && Exclusion(w.held) && Faithful(w)
    requires forall i :: 0 <= i < |cs| ==> !(cs[i].CondAcquire? && cs[i].mode == Exclusive)
    ensures FaithfulThroughout(DriverKitRw, w, cs) <==> NeverReacquires(w, cs)
    ensures NeverReacquires(w, cs) ==> Exclusion(After(DriverKitRw, w, cs).believed)
    decreases |cs|
  {
    if cs != [] {
      FaithfulNextIff(DriverKitRw, w, cs[0]);
      if !Lies(DriverKitRw, w.held, cs[0]) { WithoutCondWriteFaithfulIff(Next(DriverKitRw, w, cs[0]), cs[1..]); }
    }
  }

  // ---- What the lies lead to -----------------------------------------------------

  function CondWrites(ts: seq<Tid>): seq<Call>
  {
    if ts == [] then [] else [CondAcquire(ts[0], Exclusive)] + CondWrites(ts[1..])
  }

  lemma CondWriteStep(w: World, t: Tid)
    requires w.held.writers == multiset{}
    ensures Next(DriverKitRw, w, CondAcquire(t, Exclusive)) ==
            World(Holds(w.held.readers + multiset{t}, multiset{}),
                  Holds(w.believed.readers, w.believed.writers + multiset{t}))
  {
  }

  lemma SplitHead(m: multiset<Tid>, ts: seq<Tid>)
    requires ts != []
    ensures m + multiset(ts) == (m + multiset{ts[0]}) + multiset(ts[1..])
  {
    assert ts == [ts[0]] + ts[1..];
  }

  /** On DriverKit any number of callers come to believe they write at once,
      each holding the lock only shared. */
  lemma {:induction false} EveryoneWrites(w: World, ts: seq<Tid>)
    requires w.held.writers == multiset{}
    ensures Run(DriverKitRw, w, CondWrites(ts))
    ensures After(DriverKitRw, w, CondWrites(ts)) ==
            World(Holds(w.held.readers + multiset(ts), multiset{}),
                  Holds(w.believed.readers, w.believed.writers + multiset(ts)))
    decreases |ts|
  {
    hide Next;
    if ts != [] {
      var c := CondAcquire(ts[0], Exclusive);
      CondWriteStep(w, ts[0]);
      EveryoneWrites(Next(DriverKitRw, w, c), ts[1..]);
      assert CondWrites(ts)[0] == c && CondWrites(ts)[1..] == CondWrites(ts[1..]);
      SplitHead(w.held.readers, ts);
      SplitHead(w.believed.writers, ts);
    }
  }

  lemma TakeCounts(h: Holds, t: Tid, m: Mode, x: Tid)
    ensures Count(Take(h, t, Some(m)), x) == Count(h, x) + if x == t then 1 else 0
  {
  }

  lemma BelieverCounts(h: Holds, t: Tid, m: Mode)
    requires HasHold(h, t, m)
    ensures Count(h, t) > 0
  {
  }

  lemma UnlockCounts(h: Holds, t: Tid, victim: Tid, x: Tid)
    requires Count(h, t) > 0
    ensures Count(Unlocked(h, t, victim), x) == Count(h, x) - if x == t then 1 else 0
  {
  }

  lemma GivenUpCounts(h: Holds, t: Tid, m: Mode, x: Tid)
    requires HasHold(h, t, m)
    ensures Count(GivenUp(h, t, m), x) == Count(h, x) - if x == t then 1 else 0
  {
  }

  /** Each thread holds as often as it believes. */
  ghost predicate Balanced(w: World) { forall t: Tid :: Count(w.held, t) == Count(w.believed, t) }

  lemma BalancedNextIff(w: World, c: Call)
    requires Enabled(DriverKitRw, w, c) && Balanced(w)
    ensures Balanced(Next(DriverKitRw, w, c)) <==> !Reacquires(DriverKitRw, w.held, c)
  {
    hide Unlocked, GivenUp, Count;
    var w', t := Next(DriverKitRw, w, c), c.tid;
    if Reacquires(DriverKitRw, w.held, c) {
      TakeCounts(w.believed, t, c.mode, t);
    } else {
      forall x: Tid ensures Count(w'.held, x) == Count(w'.believed, x) {
        if c.Release? {
          BelieverCounts(w.believed, t, c.mode);
          UnlockCounts(w.held, t, c.victim, x);
          GivenUpCounts(w.believed, t, c.mode, x);
        } else if Granted(DriverKitRw, w.held, c).Some? {
          TakeCounts(w.held, t, Granted(DriverKitRw, w.held, c).value, x);
          TakeCounts(w.believed, t, c.mode, x);
        }
      }
    }
  }

  ghost predicate BalancedThroughout(w: World, cs: seq<Call>)
    decreases |cs|
  {
    Balanced(w) && (cs != [] ==> BalancedThroughout(Next(DriverKitRw, w, cs[0]), cs[1..]))
  }

  /** Over every DriverKit run, conditional writes included, each thread holds
      as often as it believes in every state exactly when no thread acquires
      against its own hold. */
  lemma {:induction false} BalancedThroughoutIff(w: World, cs: seq<Call>)
    requires Run(DriverKitRw, w, cs) && Balanced(w)
    ensures BalancedThroughout(w, cs) <==> NeverReacquires(w, cs)
    decreases |cs|
  {
    if cs != [] {
      BalancedNextIff(w, cs[0]);
      if !Reacquires(DriverKitRw, w.held, cs[0]) { BalancedThroughoutIff(Next(DriverKitRw, w, cs[0]), cs[1..]); }
    }
  }

  /** No thread holds more often than it believes. */
  ghost predicate Covered(w: World) { forall t: Tid :: Count(w.held, t) <= Count(w.believed, t) }

  lemma NoCountsFree(h: Holds)
    requires forall t: Tid :: Count(h, t) == 0
    ensures h == FREE
  {
    forall t: Tid ensures h.readers[t] == 0 && h.writers[t] == 0 { assert Count(h, t) == 0; }
  }

  lemma StrayUnlockCounts(h: Holds, t: Tid, victim: Tid, x: Tid)
    ensures Count(Unlocked(h, t, victim), x) <= Count(h, x)
    ensures Count(h, t) > 0 && x == t ==> Count(Unlocked(h, t, victim), x) == Count(h, x) - 1
  {
  }

  lemma CoveredNext(w: World, c: Call)
    requires Enabled(DriverKitRw, w, c) && Covered(w)
    ensures Covered(Next(DriverKitRw, w, c))
  {
    hide Unlocked, GivenUp, Count;
    var w', t := Next(DriverKitRw, w, c), c.tid;
    forall x: Tid ensures Count(w'.held, x) <= Count(w'.believed, x) {
      if c.Release? {
        BelieverCounts(w.believed, t, c.mode);
        StrayUnlockCounts(w.held, t, c.victim, x);
        GivenUpCounts(w.believed, t, c.mode, x);
      } else if Reported(DriverKitRw, w.held, c).Some? {
        TakeCounts(w.believed, t, c.mode, x);
        if Granted(DriverKitRw, w.held, c).Some? { TakeCounts(w.held, t, Granted(DriverKitRw, w.held, c).value, x); }
      }
    }
  }

  /** Over every DriverKit run no thread holds more often than it believes, so
      an unclaimed lock is free. */
  lemma {:induction false} DriverKitHoldsAreBelieved(w: World, cs: seq<Call>)
    requires Run(DriverKitRw, w, cs) && Covered(w)
    ensures Covered(After(DriverKitRw, w, cs))
    ensures After(DriverKitRw, w, cs).believed == FREE ==> After(DriverKitRw, w, cs).held == FREE
    decreases |cs|
  {
    if cs == [] {
      if w.believed == FREE { NoCountsFree(w.held); }
    } else {
      CoveredNext(w, cs[0]);
      DriverKitHoldsAreBelieved(Next(DriverKitRw, w, cs[0]), cs[1..]);
    }
  }

  predicate Within(a: Holds, b: Holds) { a.readers <= b.readers && a.writers <= b.writers }

  lemma WithoutOne(a: multiset<Tid>, b: multiset<Tid>, t: Tid)
    requires a <= b
    ensures a - multiset{t} <= b - multiset{t}
    ensures a - multiset{t} <= b
    ensures t !in a ==> a <= b - multiset{t}
  {
  }

  lemma ReleaseStaysWithin(held: Holds, believed: Holds, t: Tid, m: Mode, victim: Tid)
    requires Exclusion(held) && Within(held, believed)
    ensures Within(Unlocked(held, t, victim), GivenUp(believed, t, m))
  {
    var u := if Count(held, t) > 0 then t else victim;
    WithoutOne(held.readers, believed.readers, t);
    WithoutOne(held.writers, believed.writers, t);
    WithoutTwo(held.readers, believed.readers, t, u);
    WithoutTwo(held.writers, believed.writers, t, u);
    assert t in held.writers ==> held.readers == multiset{};
  }

  lemma WithoutTwo(a: multiset<Tid>, b: multiset<Tid>, t: Tid, u: Tid)
    requires a <= b
    ensures a - multiset{u} <= b
    ensures t !in a ==> a - multiset{u} <= b - multiset{t}
  {
  }

  /** In the kernel callers only believe too much: over every run each hold
      granted is one its thread believes, so an unclaimed lock is free. */
  lemma {:induction false} KernelHoldsAreBelieved(w: World, cs: seq<Call>)
    requires Run(KernelRw, w, cs) && Exclusion(w.held) && Within(w.held, w.believed)
    ensures var w' := After(KernelRw, w, cs);
      Within(w'.held, w'.believed) && (w'.believed == FREE ==> w'.held == FREE)
    decreases |cs|
  {
    if cs != [] {
      var c := cs[0];
      ExclusionStep(KernelRw, w, c);
      if c.Release? { ReleaseStaysWithin(w.held, w.believed, c.tid, c.mode, c.victim); }
      KernelHoldsAreBelieved(Next(KernelRw, w, c), cs[1..]);
    }
  }

  /** A thread loses a hold exactly in its own release, or in a release by a
      thread that has no hold and hits it. */
  lemma HoldLostIff(k: Wrapper, w: World, c: Call, x: Tid)
    requires Enabled(k, w, c)
    ensures Count(Next(k, w, c).held, x) < Count(w.held, x) <==>
            && c.Release?
            && Count(w.held, x) > 0
            && (c.tid == x || (Count(w.held, c.tid) == 0 && c.victim == x))
  {
    if !c.Release? && Granted(k, w.held, c).Some? { TakeCounts(w.held, c.tid, Granted(k, w.held, c).value, x); }
  }

  lemma TwoCalls(k: Wrapper, w: World, c1: Call, c2: Call)
    requires Enabled(k, w, c1) && Enabled(k, Next(k, w, c1), c2)
    ensures Run(k, w, [c1, c2]) && After(k, w, [c1, c2]) == Next(k, Next(k, w, c1), c2)
  {
    hide Next;
    assert [c1, c2][1..] == [c2] && [c2][1..] == [];
    assert Run(k, Next(k, w, c1), [c2]);
    assert After(k, Next(k, w, c1), [c2]) == Next(k, Next(k, w, c1), c2);
  }

  lemma FourCalls(k: Wrapper, w: World, c1: Call, c2: Call, c3: Call, c4: Call)
    requires Enabled(k, w, c1) && Enabled(k, Next(k, w, c1), c2)
    requires var w2 := Next(k, Next(k, w, c1), c2); Enabled(k, w2, c3) && Enabled(k, Next(k, w2, c3), c4)
    ensures Run(k, w, [c1, c2, c3, c4])
    ensures After(k, w, [c1, c2, c3, c4]) == Next(k, Next(k, Next(k, Next(k, w, c1), c2), c3), c4)
  {
    hide Next;
    var w1 := Next(k, w, c1);
    var w2 := Next(k, w1, c2);
    TwoCalls(k, w2, c3, c4);
    assert [c1, c2, c3, c4][1..] == [c2, c3, c4] && [c2, c3, c4][1..] == [c3, c4];
    assert Run(k, w1, [c2, c3, c4]) && After(k, w1, [c2, c3, c4]) == After(k, w2, [c3, c4]);
  }

  /** On DriverKit a reader that acquires for writing is told it has the lock,
      and holds it shared as before. */
  lemma ReaderToldItWrites(a: Tid)
    ensures var cs := [Acquire(a, Shared), Acquire(a, Exclusive)];
      && Run(DriverKitRw, START, cs)
      && After(DriverKitRw, START, cs) == World(FREE.(readers := multiset{a}), Holds(multiset{a}, multiset{a}))
  {
    var h := FREE.(readers := multiset{a});
    assert Next(DriverKitRw, START, Acquire(a, Shared)) == World(h, h);
    assert a in h.readers;
    assert Next(DriverKitRw, World(h, h), Acquire(a, Exclusive)) == World(h, Holds(multiset{a}, multiset{a}));
    TwoCalls(DriverKitRw, START, Acquire(a, Shared), Acquire(a, Exclusive));
  }

  lemma WriterTakesAndReads(a: Tid)
    ensures var h := FREE.(writers := multiset{a});
      var w2 := World(h, h.(readers := multiset{a}));
      && Enabled(DriverKitRw, START, Acquire(a, Exclusive))
      && Next(DriverKitRw, START, Acquire(a, Exclusive)) == World(h, h)
      && Enabled(DriverKitRw, World(h, h), Acquire(a, Shared))
      && Next(DriverKitRw, World(h, h), Acquire(a, Shared)) == w2
      && Enabled(DriverKitRw, w2, Release(a, Shared, a))
      && Next(DriverKitRw, w2, Release(a, Shared, a)) == World(FREE, h)
  {
    assert a in FREE.(writers := multiset{a}).writers;
  }

  /** On DriverKit a writer that also acquires for reading, and gives that back,
      lets a second writer in while it still believes it writes. */
  lemma WriterAcquiresAgain(a: Tid, b: Tid)
    requires a != b
    ensures var cs := [Acquire(a, Exclusive), Acquire(a, Shared), Release(a, Shared, a), Acquire(b, Exclusive)];
      && Run(DriverKitRw, START, cs)
      && After(DriverKitRw, START, cs) == World(FREE.(writers := multiset{b}), FREE.(writers := multiset{a, b}))
  {
    var h := FREE.(writers := multiset{a});
    var c4 := Acquire(b, Exclusive);
    WriterTakesAndReads(a);
    assert Next(DriverKitRw, World(FREE, h), c4) == World(FREE.(writers := multiset{b}), FREE.(writers := multiset{a, b}));
    hide Next;
    FourCalls(DriverKitRw, START, Acquire(a, Exclusive), Acquire(a, Shared), Release(a, Shared, a), c4);
  }

  /** In the kernel two conditional writes by different threads leave both
      believing they write. */
  lemma KernelTwoWriters(a: Tid, b: Tid)
    requires a != b
    ensures var cs := [CondAcquire(a, Exclusive), CondAcquire(b, Exclusive)];
      && Run(KernelRw, START, cs)
      && After(KernelRw, START, cs) == World(FREE.(writers := multiset{a}), FREE.(writers := multiset{a, b}))
  {
    var c1, c2 := CondAcquire(a, Exclusive), CondAcquire(b, Exclusive);
    var h := FREE.(writers := multiset{a});
    assert Next(KernelRw, START, c1) == World(h, h);
    assert !CanTake(h, Exclusive) by { assert a in h.writers; }
    assert Next(KernelRw, World(h, h), c2) == World(h, FREE.(writers := multiset{a, b}));
    TwoCalls(KernelRw, START, c1, c2);
  }

  /** And a reader that did nothing wrong can be joined by a writer: the release
      of a thread whose conditional write was refused gives back the reader's hold. */
  lemma KernelReaderJoined(reader: Tid, refused: Tid, writer: Tid)
    requires reader != refused
    ensures var cs := [Acquire(reader, Shared), CondAcquire(refused, Exclusive),
                       Release(refused, Exclusive, reader), Acquire(writer, Exclusive)];
      && Run(KernelRw, START, cs)
      && After(KernelRw, START, cs) ==
           World(FREE.(writers := multiset{writer}), Holds(multiset{reader}, multiset{writer}))
  {
    var c1, c2 := Acquire(reader, Shared), CondAcquire(refused, Exclusive);
    var c3, c4 := Release(refused, Exclusive, reader), Acquire(writer, Exclusive);
    var h := FREE.(readers := multiset{reader});
    assert Next(KernelRw, START, c1) == World(h, h);
    assert !CanTake(h, Exclusive) by { assert reader in h.readers; }
    var w2 := World(h, h.(writers := multiset{refused}));
    assert Next(KernelRw, World(h, h), c2) == w2;
    assert Unlocked(h, refused, reader) == FREE;
    assert Next(KernelRw, w2, c3) == World(FREE, h);
    assert Next(KernelRw, World(FREE, h), c4) == World(FREE.(writers := multiset{writer}), h.(writers := multiset{writer}));
    FourCalls(KernelRw, START, c1, c2, c3, c4);
  }

  /** On a mutex, two conditional acquires by different threads leave the first
      holding it unawares and the second believing it holds it. */
  lemma MutexConfusion(a: Tid, b: Tid)
    requires a != b
    ensures var cs := [CondAcquire(a, Exclusive), CondAcquire(b, Exclusive)];
      && Run(Mutex, START, cs)
      && After(Mutex, START, cs) == World(FREE.(writers := multiset{a}), FREE.(writers := multiset{b}))
  {
    var c1, c2 := CondAcquire(a, Exclusive), CondAcquire(b, Exclusive);
    var w1 := World(FREE.(writers := multiset{a}), FREE);
    var w2 := World(w1.held, FREE.(writers := multiset{b}));
    assert Next(Mutex, START, c1) == w1;
    assert !CanTake(w1.held, Exclusive) by { assert a in w1.held.writers; }
    assert Next(Mutex, w1, c2) == w2;
    TwoCalls(Mutex, START, c1, c2);
  }
}
