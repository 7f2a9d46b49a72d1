/** The semaphore wrappers.  `os_release_semaphore` waits, as
    `os_acquire_semaphore` does; the usual semaphore would signal there. */
module Semaphore {
  import opened NvTypes

  datatype Variant = AsWritten | WithSignal

  datatype Op = Acquire | CondAcquire | Release

  /** An operation that waits completes only when the count is positive. */
  predicate Enabled(v: Variant, count: nat, op: Op)
  {
    op == CondAcquire || (op == Release && v == WithSignal) || count > 0
  }

  predicate Succeeds(count: nat, op: Op) { op == CondAcquire ==> count > 0 }

  function Next(v: Variant, count: nat, op: Op): nat
    requires Enabled(v, count, op)
  {
    match op
    case Acquire => count - 1
    case CondAcquire => if count > 0 then count - 1 else count
    case Release => if v == WithSignal then count + 1 else count - 1
  }

  // ---- The imperative code ---------------------------------------------------

  datatype KernReturn = KERN_SUCCESS | KERN_OPERATION_TIMED_OUT | OtherKernError

  class MachSemaphore {
    var count: nat

    constructor (initialValue: nat)
      ensures count == initialValue
    {
      count := initialValue;
    }

    /** Returns once the count is positive. */
    method Wait()
      requires count > 0
      modifies this
      ensures count == old(count) - 1
    {
      count := count - 1;
    }

    /** semaphore_timedwait with a zero timeout; `broken` stands for a kernel
        error unrelated to the count. */
    method TimedWait(broken: bool) returns (result: KernReturn)
      modifies this
      ensures result == if broken then OtherKernError else if old(count) > 0 then KERN_SUCCESS else KERN_OPERATION_TIMED_OUT
      ensures count == if result == KERN_SUCCESS then old(count) - 1 else old(count)
    {
      if broken { return OtherKernError; }
      if count > 0 { count := count - 1; return KERN_SUCCESS; }
      return KERN_OPERATION_TIMED_OUT;
    }
  }

  method OsAcquireSemaphore(s: MachSemaphore) returns (status: NvStatus)
    requires Enabled(AsWritten, s.count, Acquire)
    modifies s
    ensures status == NV_OK && s.count == Next(AsWritten, old(s.count), Acquire)
    ensures s.count == old(s.count) - 1
  {
    s.Wait();
    return NV_OK;
  }

  method OsCondAcquireSemaphore(s: MachSemaphore, broken: bool) returns (status: NvStatus)
    modifies s
    ensures broken ==> status == NV_ERR_GENERIC && s.count == old(s.count)
    ensures !broken ==> s.count == Next(AsWritten, old(s.count), CondAcquire)
    ensures !broken ==> status == if Succeeds(old(s.count), CondAcquire) then NV_OK else NV_ERR_TIMEOUT_RETRY
    ensures !broken && old(s.count) > 0 ==> status == NV_OK && s.count == old(s.count) - 1
    ensures !broken && old(s.count) == 0 ==> status == NV_ERR_TIMEOUT_RETRY && s.count == 0
  {
    var result := s.TimedWait(broken);
    match result {
      case KERN_OPERATION_TIMED_OUT => return NV_ERR_TIMEOUT_RETRY;
      case KERN_SUCCESS => return NV_OK;
      case OtherKernError => return NV_ERR_GENERIC;
    }
  }

  method OsReleaseSemaphore(s: MachSemaphore) returns (status: NvStatus)
    requires Enabled(AsWritten, s.count, Release)
    modifies s
    ensures status == NV_OK && s.count == Next(AsWritten, old(s.count), Release)
    ensures s.count == old(s.count) - 1
  {
    s.Wait();
    return NV_OK;
  }

  // ---- Runs: completed operations of any number of threads, in order -----------

  predicate Run(v: Variant, count: nat, ops: seq<Op>)
    decreases |ops|
  {
    ops != [] ==> Enabled(v, count, ops[0]) && Run(v, Next(v, count, ops[0]), ops[1..])
  }

  function After(v: Variant, count: nat, ops: seq<Op>): nat
    requires Run(v, count, ops)
    decreases |ops|
  {
    if ops == [] then count else After(v, Next(v, count, ops[0]), ops[1..])
  }

  /** Acquires, conditional or not, that returned NV_OK. */
  function Acquired(v: Variant, count: nat, ops: seq<Op>): nat
    requires Run(v, count, ops)
    decreases |ops|
  {
    if ops == [] then 0
    else
      (if ops[0] != Release && Succeeds(count, ops[0]) then 1 else 0)
      + Acquired(v, Next(v, count, ops[0]), ops[1..])
  }

  function Released(ops: seq<Op>): nat
    decreases |ops|
  {
    if ops == [] then 0 else (if ops[0] == Release then 1 else 0) + Released(ops[1..])
  }

  /** As written, acquires and releases both use the count up, so at most
      `initial` of them complete over any run; with a signal the count is
      initial + releases - acquires. */
  lemma {:induction false} CountLaw(v: Variant, initial: nat, ops: seq<Op>)
    requires Run(v, initial, ops)
    ensures v == AsWritten ==> After(v, initial, ops) == initial - Acquired(v, initial, ops) - Released(ops)
    ensures v == AsWritten ==> Acquired(v, initial, ops) + Released(ops) <= initial
    ensures v == WithSignal ==> After(v, initial, ops) == initial + Released(ops) - Acquired(v, initial, ops)
    decreases |ops|
  {
    if ops != [] { CountLaw(v, Next(v, initial, ops[0]), ops[1..]); }
  }

  predicate Blocking(ops: seq<Op>) { forall i :: 0 <= i < |ops| ==> ops[i] != CondAcquire }

  /** Blocking acquires and releases, in whatever order, all complete exactly
      when there are no more of them than the initial count. */
  lemma {:induction false} BlockingRunIff(initial: nat, ops: seq<Op>)
    requires Blocking(ops)
    ensures Run(AsWritten, initial, ops) <==> |ops| <= initial
    decreases |ops|
  {
    if ops != [] && initial > 0 { BlockingRunIff(initial - 1, ops[1..]); }
  }

  function Rounds(n: nat): (ops: seq<Op>)
    ensures |ops| == 2 * n && Blocking(ops)
  {
    if n == 0 then [] else [Acquire, Release] + Rounds(n - 1)
  }

  /** n rounds of acquire and release complete as written exactly when
      2n <= initial; with a signal exactly when n == 0 or initial > 0. */
  lemma {:induction false} RoundsIff(initial: nat, n: nat)
    ensures Run(AsWritten, initial, Rounds(n)) <==> 2 * n <= initial
    ensures Run(WithSignal, initial, Rounds(n)) <==> n == 0 || initial > 0
  {
    BlockingRunIff(initial, Rounds(n));
    if n > 0 && initial > 0 {
      RoundsIff(initial, n - 1);
      var ops := Rounds(n);
      assert ops[1..][1..] == Rounds(n - 1);
      assert Next(WithSignal, Next(WithSignal, initial, ops[0]), ops[1..][0]) == initial;
    }
  }
}
