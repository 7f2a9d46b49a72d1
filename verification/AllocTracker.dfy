/** `os_alloc_mem`, `os_free_mem` and their NVLink clients, one call at a time:
    a dictionary from printed pointers to boxed sizes beside the heap itself. */
module AllocTracker {
  import opened NvTypes
  import opened PointerKey

  /** `OSNumber::withNumber(value, numberOfBits)` keeps the low bits only.
      The code passes sizeof(NvU64) as the bit count. */
  function Boxed(bits: nat, size: nat): nat { size % Pow2(bits) }

  const PASSED_BITS: nat := 8

  /** One IOFree: the size handed over and the size of the live block it hit. */
  datatype FreeRecord = FreeRecord(ptr: nat, passed: nat, actual: Option<nat>)

  datatype State = State(
    heap: map<nat, nat>,     // live blocks: address -> size
    dict: map<string, nat>,  // global_allocations
    frees: seq<FreeRecord>)  // every IOFree so far

  datatype Call =
    | OsAlloc(size: nat, malloced: Option<nat>)
    | NvlinkMalloc(size: nat, malloced: Option<nat>)
    | OsFree(ptr: nat)
    | NvlinkFree(ptr: nat)

  const EMPTY: State := State(map[], map[], [])

  function AfterAlloc(bits: nat, s: State, size: nat, malloced: Option<nat>): State
  {
    match malloced
    case None => s
    case Some(p) => s.(heap := s.heap[p := size], dict := s.dict[Key(p) := Boxed(bits, size)])
  }

  function AfterFree(s: State, ptr: nat): State
  {
    if Key(ptr) !in s.dict then s
    else State(
           s.heap - {ptr},
           s.dict - {Key(ptr)},
           s.frees + [FreeRecord(ptr, s.dict[Key(ptr)], if ptr in s.heap then Some(s.heap[ptr]) else None)])
  }

  function Step(bits: nat, s: State, c: Call): State
  {
    match c
    case OsAlloc(size, m) => AfterAlloc(bits, s, size, m)
    case NvlinkMalloc(size, m) => AfterAlloc(bits, s, size, m)
    case OsFree(ptr) => AfterFree(s, ptr)
    case NvlinkFree(ptr) => AfterFree(s, ptr)
  }

  /** A call whose key string, number and dictionary slot were made, or one for
      which some of them could not be: then an allocation hands out a block that
      is not recorded, and a free finds nothing. */
  datatype Event = Event(call: Call, made: bool)

  function Happen(bits: nat, s: State, e: Event): State
  {
    if e.made then Step(bits, s, e.call)
    else
      match e.call
      case OsAlloc(size, m) => AfterUnrecorded(s, size, m)
      case NvlinkMalloc(size, m) => AfterUnrecorded(s, size, m)
      case OsFree(_) => s
      case NvlinkFree(_) => s
  }

  function AfterUnrecorded(s: State, size: nat, malloced: Option<nat>): State
  {
    match malloced
    case None => s
    case Some(p) => s.(heap := s.heap[p := size])
  }

  function Exec(bits: nat, calls: seq<Call>): State
  {
    if calls == [] then EMPTY
    else Step(bits, Exec(bits, calls[..|calls| - 1]), calls[|calls| - 1])
  }

  // ---- The imperative code -------------------------------------------------

  class Allocations {
    const bits: nat
    var heap: map<nat, nat>
    var globalAllocations: map<string, nat>
    var frees: seq<FreeRecord>

    function Abs(): State reads this { State(heap, globalAllocations, frees) }

    constructor (bits: nat)
      ensures this.bits == bits && Abs() == EMPTY
    {
      this.bits := bits;
      heap, globalAllocations, frees := map[], map[], [];
    }

    method IOFree(ptr: nat, size: nat)
      modifies this
      ensures Abs() == State(old(heap) - {ptr}, old(globalAllocations), old(frees) +
                [FreeRecord(ptr, size, if ptr in old(heap) then Some(old(heap)[ptr]) else None)])
    {
      frees := frees + [FreeRecord(ptr, size, if ptr in heap then Some(heap[ptr]) else None)];
      heap := heap - {ptr};
    }

    /** `malloced` is what IOMallocZero answered, `made` whether the block could
        be recorded; `address` is the caller's out-parameter, written only on
        success. */
    method OsAllocMem(size: nat, malloced: Option<nat>, made: bool, addressBefore: nat)
      returns (status: NvStatus, address: nat)
      modifies this
      ensures Abs() == Happen(bits, old(Abs()), Event(Call.OsAlloc(size, malloced), made))
      ensures malloced == None ==> status == NV_ERR_NO_MEMORY && address == addressBefore && Abs() == old(Abs())
      ensures malloced != None ==>
        && status == NV_OK && malloced == Some(address)
        && heap == old(heap)[address := size] && frees == old(frees)
        && globalAllocations ==
             if made then old(globalAllocations)[Key(address) := size % Pow2(bits)] else old(globalAllocations)
    {
      address := addressBefore;
      if malloced == None {
        return NV_ERR_NO_MEMORY, address;
      }
      var ptr := malloced.value;
      heap := heap[ptr := size];
      var key := Key(ptr);
      var value := Boxed(bits, size);
      if made {
        globalAllocations := globalAllocations[key := value];
      }
      address := ptr;
      status := NV_OK;
    }

    /** `made`: the key string could be made. */
    method OsFreeMem(ptr: nat, made: bool)
      modifies this
      ensures Abs() == Happen(bits, old(Abs()), Event(Call.OsFree(ptr), made))
      ensures !made || Key(ptr) !in old(globalAllocations) ==> Abs() == old(Abs())
      ensures made && Key(ptr) in old(globalAllocations) ==>
        && heap == old(heap) - {ptr} && globalAllocations == old(globalAllocations) - {Key(ptr)}
        && |frees| == |old(frees)| + 1 && frees[..|old(frees)|] == old(frees)
        && frees[|old(frees)|].ptr == ptr && frees[|old(frees)|].passed == old(globalAllocations)[Key(ptr)]
        && (ptr in old(heap) ==> frees[|old(frees)|].actual == Some(old(heap)[ptr]))
        && (ptr !in old(heap) ==> frees[|old(frees)|].actual == None)
    {
      var key := Key(ptr);
      if !made || key !in globalAllocations {
        return;
      }
      var allocationSize := globalAllocations[key];
      IOFree(ptr, allocationSize);
      globalAllocations := globalAllocations - {key};
    }

    /** `uninitialised` is the indeterminate value of the local before the call. */
    method NvlinkMalloc(size: nat, malloced: Option<nat>, made: bool, uninitialised: nat) returns (ptr: nat)
      modifies this
      ensures Abs() == Happen(bits, old(Abs()), Event(Call.NvlinkMalloc(size, malloced), made))
      ensures malloced == None ==> ptr == uninitialised && Abs() == old(Abs())
      ensures malloced != None ==>
        && malloced == Some(ptr) && heap == old(heap)[ptr := size] && frees == old(frees)
        && globalAllocations ==
             if made then old(globalAllocations)[Key(ptr) := size % Pow2(bits)] else old(globalAllocations)
    {
      var _, address := OsAllocMem(size, malloced, made, uninitialised);
      ptr := address;
    }

    method NvlinkFree(ptr: nat, made: bool)
      modifies this
      ensures Abs() == Happen(bits, old(Abs()), Event(Call.NvlinkFree(ptr), made))
      ensures !made || Key(ptr) !in old(globalAllocations) ==> Abs() == old(Abs())
      ensures made && Key(ptr) in old(globalAllocations) ==>
        && heap == old(heap) - {ptr} && globalAllocations == old(globalAllocations) - {Key(ptr)}
        && |frees| == |old(frees)| + 1 && frees[..|old(frees)|] == old(frees)
        && frees[|old(frees)|].ptr == ptr && frees[|old(frees)|].passed == old(globalAllocations)[Key(ptr)]
    {
      OsFreeMem(ptr, made);
    }
  }

  // ---- Runs over a universe of addresses ------------------------------------

  /** The contract of IOMallocZero: a non-null block apart from all live ones. */
  ghost predicate Fresh(heap: map<nat, nat>, p: nat, size: nat)
  {
    && p != 0
    && p !in heap
    && forall q :: q in heap ==> p + size <= q || q + heap[q] <= p
  }

  ghost predicate AllocOk(u: iset<nat>, s: State, size: nat, malloced: Option<nat>)
  {
    malloced.Some? ==> malloced.value in u && Fresh(s.heap, malloced.value, size)
  }

  ghost predicate CallOk(u: iset<nat>, s: State, c: Call)
  {
    match c
    case OsAlloc(size, m) => AllocOk(u, s, size, m)
    case NvlinkMalloc(size, m) => AllocOk(u, s, size, m)
    case OsFree(ptr) => ptr in u
    case NvlinkFree(ptr) => ptr in u
  }

  /** Callers may free anything in the universe: untracked pointers, null,
      the same pointer twice. */
  ghost predicate ValidRun(u: iset<nat>, bits: nat, calls: seq<Call>)
  {
    calls != [] ==>
      && ValidRun(u, bits, calls[..|calls| - 1])
      && CallOk(u, Exec(bits, calls[..|calls| - 1]), calls[|calls| - 1])
  }

  /** The string-keyed dictionary says what the plain map from live addresses
      to sizes says, and nothing more. */
  ghost predicate Refines(u: iset<nat>, bits: nat, heap: map<nat, nat>, dict: map<string, nat>)
  {
    && (forall p :: p in heap ==> p in u && p != 0 && Key(p) in dict && dict[Key(p)] == Boxed(bits, heap[p]))
    && (forall k :: k in dict ==> exists p :: p in heap && k == Key(p))
  }

  /** The reference: a plain map from live addresses to sizes. */
  function PlainStep(m: map<nat, nat>, c: Call): map<nat, nat>
  {
    match c
    case OsAlloc(size, malloced) => if malloced.Some? then m[malloced.value := size] else m
    case NvlinkMalloc(size, malloced) => if malloced.Some? then m[malloced.value := size] else m
    case OsFree(ptr) => m - {ptr}
    case NvlinkFree(ptr) => m - {ptr}
  }

  function Plain(calls: seq<Call>): map<nat, nat>
  {
    if calls == [] then map[]
    else PlainStep(Plain(calls[..|calls| - 1]), calls[|calls| - 1])
  }

  /** Each IOFree hit a live block and received its boxed size. */
  ghost predicate FreesMatch(bits: nat, frees: seq<FreeRecord>)
  {
    forall i :: 0 <= i < |frees| ==>
      frees[i].actual.Some? && frees[i].passed == Boxed(bits, frees[i].actual.value)
  }

  lemma AllocKeepsRefinement(u: iset<nat>, bits: nat, s: State, size: nat, p: nat)
    requires Addresses(u) && InjectiveOn(u)
    requires Refines(u, bits, s.heap, s.dict) && p in u && Fresh(s.heap, p, size)
    ensures var s' := AfterAlloc(bits, s, size, Some(p));
      Refines(u, bits, s'.heap, s'.dict) && Key(p) !in s.dict
  {
    hide Key, Boxed, Addresses, InjectiveOn;
    LookupAgrees(u, bits, s, p);
    var s' := AfterAlloc(bits, s, size, Some(p));
    forall k | k in s'.dict ensures exists q :: q in s'.heap && k == Key(q) {
      if k in s.dict {
        var q :| q in s.heap && k == Key(q);
        assert q in s'.heap;
      } else {
        assert p in s'.heap;
      }
    }
  }

  lemma LookupAgrees(u: iset<nat>, bits: nat, s: State, p: nat)
    requires Addresses(u) && InjectiveOn(u) && p in u
    requires Refines(u, bits, s.heap, s.dict)
    ensures Key(p) in s.dict <==> p in s.heap
    ensures p in s.heap ==> s.dict[Key(p)] == Boxed(bits, s.heap[p])
    ensures p !in s.heap ==> AfterFree(s, p) == s
  {
    hide Key, Boxed;
  }

  lemma FreeKeepsRefinement(u: iset<nat>, bits: nat, s: State, p: nat)
    requires Addresses(u) && InjectiveOn(u) && p in u
    requires Refines(u, bits, s.heap, s.dict)
    ensures var s' := AfterFree(s, p); Refines(u, bits, s'.heap, s'.dict)
  {
    hide Key, Boxed;
    LookupAgrees(u, bits, s, p);
    if p in s.heap {
      DropKeepsRefinement(u, bits, s.heap, s.dict, p);
    }
  }

  lemma DropKeepsRefinement(u: iset<nat>, bits: nat, heap: map<nat, nat>, dict: map<string, nat>, p: nat)
    requires InjectiveOn(u) && Refines(u, bits, heap, dict) && p in heap
    ensures Refines(u, bits, heap - {p}, dict - {Key(p)})
  {
    hide Key, Boxed;
    forall q | q in heap - {p} ensures Key(q) in dict - {Key(p)} {
      assert q in heap;
    }
    hide InjectiveOn;
    forall k | k in dict - {Key(p)} ensures exists q :: q in heap - {p} && k == Key(q) {
      var q :| q in heap && k == Key(q);
      assert q in heap - {p};
    }
  }

  lemma EmptyRefines(u: iset<nat>, bits: nat)
    ensures Refines(u, bits, map[], map[])
  {
  }

  lemma StepRefines(u: iset<nat>, bits: nat, s: State, c: Call)
    requires Addresses(u) && InjectiveOn(u) && CallOk(u, s, c)
    requires Refines(u, bits, s.heap, s.dict) && FreesMatch(bits, s.frees)
    ensures var s' := Step(bits, s, c);
      && s'.heap == PlainStep(s.heap, c)
      && Refines(u, bits, s'.heap, s'.dict)
      && FreesMatch(bits, s'.frees)
  {
    hide Key, Boxed, Refines;
    if c.OsAlloc? || c.NvlinkMalloc? {
      if c.malloced.Some? { AllocKeepsRefinement(u, bits, s, c.size, c.malloced.value); }
    } else {
      LookupAgrees(u, bits, s, c.ptr);
      FreeKeepsRefinement(u, bits, s, c.ptr);
    }
  }

  /** Over every run the tracker refines the plain map: lookups agree with
      liveness, freeing an untracked pointer changes nothing, addresses may be
      reused, and every IOFree is given the boxed size of a live block. */
  lemma {:induction false} TrackerRefinesPlainMap(u: iset<nat>, bits: nat, calls: seq<Call>)
    requires Addresses(u) && InjectiveOn(u) && ValidRun(u, bits, calls)
    ensures var s := Exec(bits, calls);
      && s.heap == Plain(calls)
      && Refines(u, bits, s.heap, s.dict)
      && FreesMatch(bits, s.frees)
      && forall p :: p in u ==> (Key(p) in s.dict <==> p in s.heap) && (p !in s.heap ==> AfterFree(s, p) == s)
  {
    hide Key, Boxed, Refines;
    var s := Exec(bits, calls);
    if calls == [] {
      EmptyRefines(u, bits);
    } else {
      var before := calls[..|calls| - 1];
      TrackerRefinesPlainMap(u, bits, before);
      StepRefines(u, bits, Exec(bits, before), calls[|calls| - 1]);
    }
    forall p | p in u
      ensures (Key(p) in s.dict <==> p in s.heap) && (p !in s.heap ==> AfterFree(s, p) == s)
    {
      LookupAgrees(u, bits, s, p);
    }
  }

  /** Two allocations under one key, then a free: the survivor is untracked. */
  lemma CollisionBreaksRefinement(u: iset<nat>, bits: nat, p: nat, q: nat)
    requires Addresses(u) && p in u && q in u && p != q && Key(p) == Key(q)
    ensures var calls := [OsAlloc(1, Some(p)), OsAlloc(1, Some(q)), OsFree(p)];
      && ValidRun(u, bits, calls)
      && !Refines(u, bits, Exec(bits, calls).heap, Exec(bits, calls).dict)
  {
    if p == 0 { NullKeyIsUnique(q); }
    if q == 0 { NullKeyIsUnique(p); }
    var c1, c2, c3 := OsAlloc(1, Some(p)), OsAlloc(1, Some(q)), OsFree(p);
    assert [c1][..0] == [] && [c1, c2][..1] == [c1] && [c1, c2, c3][..2] == [c1, c2];
    assert Exec(bits, [c1][..0]) == EMPTY;
    assert Fresh(EMPTY.heap, p, 1);
    assert ValidRun(u, bits, [c1]);
    assert Exec(bits, [c1, c2]) == Step(bits, Step(bits, EMPTY, c1), c2);
    assert ValidRun(u, bits, [c1, c2]);
    var s := Exec(bits, [c1, c2, c3]);
    assert s == Step(bits, Exec(bits, [c1, c2]), c3);
    assert q in s.heap && Key(q) !in s.dict;
  }

  /** The tracker refines the plain map on every run over a universe exactly
      when no two addresses of that universe share a key. */
  lemma RefinesIffInjective(u: iset<nat>, bits: nat)
    requires Addresses(u)
    ensures (forall calls :: ValidRun(u, bits, calls) ==>
              Refines(u, bits, Exec(bits, calls).heap, Exec(bits, calls).dict))
            <==> InjectiveOn(u)
  {
    hide Key, Boxed;
    if InjectiveOn(u) {
      forall calls | ValidRun(u, bits, calls)
        ensures Refines(u, bits, Exec(bits, calls).heap, Exec(bits, calls).dict)
      {
        TrackerRefinesPlainMap(u, bits, calls);
      }
    } else {
      var p, q :| p in u && q in u && Key(p) == Key(q) && p != q;
      CollisionBreaksRefinement(u, bits, p, q);
    }
  }

  // ---- When a block cannot be recorded ------------------------------------------

  function Happened(bits: nat, es: seq<Event>): State
  {
    if es == [] then EMPTY else Happen(bits, Happened(bits, es[..|es| - 1]), es[|es| - 1])
  }

  ghost predicate ValidEvents(u: iset<nat>, bits: nat, es: seq<Event>)
  {
    es != [] ==>
      && ValidEvents(u, bits, es[..|es| - 1])
      && CallOk(u, Happened(bits, es[..|es| - 1]), es[|es| - 1].call)
  }

  /** The call hands out p without recording it. */
  predicate Unrecorded(e: Event, p: nat)
  {
    !e.made && (e.call.OsAlloc? || e.call.NvlinkMalloc?) && e.call.malloced == Some(p)
  }

  /** Refinement of the recorded part: the keys are those of live blocks, with
      the right sizes. */
  ghost predicate RefinesRecorded(u: iset<nat>, bits: nat, s: State)
  {
    && (forall p :: p in s.heap ==> p in u && p != 0)
    && (forall p :: p in s.heap && Key(p) in s.dict ==> s.dict[Key(p)] == Boxed(bits, s.heap[p]))
    && (forall k :: k in s.dict ==> exists p :: p in s.heap && k == Key(p))
  }

  predicate Stranded(s: State, p: nat) { p in s.heap && Key(p) !in s.dict }

  /** A recorded address is live. */
  lemma RecordedKey(u: iset<nat>, bits: nat, s: State, p: nat)
    requires Addresses(u) && InjectiveOn(u) && RefinesRecorded(u, bits, s) && p in u
    ensures Key(p) in s.dict ==> p in s.heap
  {
    hide Key, Boxed;
  }

  lemma RecordedAlloc(u: iset<nat>, bits: nat, s: State, size: nat, p: nat, made: bool, q: nat)
    requires Addresses(u) && InjectiveOn(u) && RefinesRecorded(u, bits, s) && p in u && Fresh(s.heap, p, size)
    ensures var s' := if made then AfterAlloc(bits, s, size, Some(p)) else AfterUnrecorded(s, size, Some(p));
      RefinesRecorded(u, bits, s') && (Stranded(s', q) <==> Stranded(s, q) || (!made && q == p))
  {
    hide Key, Boxed, Addresses;
    RecordedKey(u, bits, s, p);
    var s' := if made then AfterAlloc(bits, s, size, Some(p)) else AfterUnrecorded(s, size, Some(p));
    forall k | k in s'.dict ensures exists p :: p in s'.heap && k == Key(p) {
      if k in s.dict {
        var r :| r in s.heap && k == Key(r);
        assert r in s'.heap;
      } else {
        assert p in s'.heap;
      }
    }
  }

  lemma RecordedFree(u: iset<nat>, bits: nat, s: State, p: nat, q: nat)
    requires Addresses(u) && InjectiveOn(u) && RefinesRecorded(u, bits, s) && p in u
    ensures var s' := AfterFree(s, p);
      RefinesRecorded(u, bits, s') && (Stranded(s', q) <==> Stranded(s, q))
  {
    hide Key, Boxed, Addresses;
    RecordedKey(u, bits, s, p);
    if Key(p) in s.dict {
      var s' := AfterFree(s, p);
      forall k | k in s'.dict ensures exists r :: r in s'.heap && k == Key(r) {
        var r :| r in s.heap && k == Key(r);
        assert r in s'.heap;
      }
    }
  }

  lemma StrandedNextIff(u: iset<nat>, bits: nat, s: State, e: Event, q: nat)
    requires Addresses(u) && InjectiveOn(u) && RefinesRecorded(u, bits, s) && CallOk(u, s, e.call)
    ensures RefinesRecorded(u, bits, Happen(bits, s, e))
    ensures Stranded(Happen(bits, s, e), q) <==> Stranded(s, q) || Unrecorded(e, q)
  {
    hide Key, Boxed, RefinesRecorded, Stranded, Fresh, InjectiveOn, Addresses;
    var c := e.call;
    if c.OsAlloc? || c.NvlinkMalloc? {
      if c.malloced.Some? { RecordedAlloc(u, bits, s, c.size, c.malloced.value, e.made, q); }
    } else {
      RecordedFree(u, bits, s, c.ptr, q);
    }
  }

  /** Over every run in which any call may fail to make its objects: a block is
      live without an entry exactly when some call handed out its address
      unrecorded, however long ago, so it is never freed and never handed out
      again; the recorded blocks keep their entries. */
  lemma {:induction false} StrandedIff(u: iset<nat>, bits: nat, es: seq<Event>, p: nat)
    requires Addresses(u) && InjectiveOn(u) && ValidEvents(u, bits, es)
    ensures RefinesRecorded(u, bits, Happened(bits, es))
    ensures Stranded(Happened(bits, es), p) <==> exists i :: 0 <= i < |es| && Unrecorded(es[i], p)
  {
    hide Key, Boxed, RefinesRecorded, Stranded, Unrecorded;
    if es == [] {
      NothingRecorded(u, bits, p);
    } else {
      var before, e := es[..|es| - 1], es[|es| - 1];
      StrandedIff(u, bits, before, p);
      StrandedNextIff(u, bits, Happened(bits, before), e, p);
      assert forall i :: 0 <= i < |before| ==> es[i] == before[i];
    }
  }

  lemma NothingRecorded(u: iset<nat>, bits: nat, p: nat)
    ensures RefinesRecorded(u, bits, EMPTY) && !Stranded(EMPTY, p)
  {
  }

  lemma RefinesIffNoneStranded(u: iset<nat>, bits: nat, s: State)
    requires RefinesRecorded(u, bits, s)
    ensures Refines(u, bits, s.heap, s.dict) <==> forall p :: !Stranded(s, p)
  {
    hide Key, Boxed;
    if forall p :: !Stranded(s, p) {
      forall p | p in s.heap ensures Key(p) in s.dict { assert !Stranded(s, p); }
    }
  }

  /** The tracker refines the plain map after a run exactly when no call of the
      run handed out a block unrecorded. */
  lemma RefinesIffRecorded(u: iset<nat>, bits: nat, es: seq<Event>)
    requires Addresses(u) && InjectiveOn(u) && ValidEvents(u, bits, es)
    ensures Refines(u, bits, Happened(bits, es).heap, Happened(bits, es).dict) <==>
            forall i, p :: 0 <= i < |es| ==> !Unrecorded(es[i], p)
  {
    hide Key, Boxed, Unrecorded, Stranded, Refines, RefinesRecorded;
    var s := Happened(bits, es);
    StrandedIff(u, bits, es, 0);
    RefinesIffNoneStranded(u, bits, s);
    if Refines(u, bits, s.heap, s.dict) {
      forall i, p: nat | 0 <= i < |es| ensures !Unrecorded(es[i], p) {
        StrandedIff(u, bits, es, p);
        assert !Stranded(s, p);
      }
    } else {
      var p :| Stranded(s, p);
      StrandedIff(u, bits, es, p);
    }
  }

  // ---- When a boxed size is the size ---------------------------------------

  lemma BoxedIsExactIff(bits: nat, size: nat)
    ensures Boxed(bits, size) <= size
    ensures Boxed(bits, size) == size <==> size < Pow2(bits)
  {
    ModExactIff(size, Pow2(bits));
  }

  /** With the bit count the code passes, a freed block's size is right exactly
      for blocks under 256 bytes; 64 bits would make it right for every NvU64. */
  lemma FreedSizesExactIff(u: iset<nat>, calls: seq<Call>, i: nat)
    requires Addresses(u) && InjectiveOn(u)
    ensures ValidRun(u, PASSED_BITS, calls) && i < |Exec(PASSED_BITS, calls).frees| ==>
      var r := Exec(PASSED_BITS, calls).frees[i];
      r.actual.Some? && (r.passed == r.actual.value <==> r.actual.value < 256)
    ensures ValidRun(u, 64, calls) && i < |Exec(64, calls).frees| ==>
      var r := Exec(64, calls).frees[i];
      r.actual.Some? && (r.actual.value < TWO_64 ==> r.passed == r.actual.value)
  {
    hide Key, Boxed;
    PowersOfTwo();
    if ValidRun(u, PASSED_BITS, calls) && i < |Exec(PASSED_BITS, calls).frees| {
      TrackerRefinesPlainMap(u, PASSED_BITS, calls);
      BoxedIsExactIff(PASSED_BITS, Exec(PASSED_BITS, calls).frees[i].actual.value);
    }
    if ValidRun(u, 64, calls) && i < |Exec(64, calls).frees| {
      TrackerRefinesPlainMap(u, 64, calls);
      BoxedIsExactIff(64, Exec(64, calls).frees[i].actual.value);
    }
  }

  /** Whatever a block's size, IOFree is told its remainder by 2^bits. */
  lemma FreedSizesAreRemainders(u: iset<nat>, bits: nat, calls: seq<Call>, i: nat)
    requires Addresses(u) && InjectiveOn(u) && ValidRun(u, bits, calls) && i < |Exec(bits, calls).frees|
    ensures var r := Exec(bits, calls).frees[i];
      && r.actual.Some?
      && r.passed == r.actual.value % Pow2(bits)
      && (bits == PASSED_BITS ==> r.passed == r.actual.value % 256)
  {
    hide Key, Pow2;
    PowersOfTwo();
    TrackerRefinesPlainMap(u, bits, calls);
  }

  /** A 256-byte block is freed with size 0. */
  lemma SizeLost(u: iset<nat>, p: nat)
    requires p in u && p != 0
    ensures var calls := [OsAlloc(256, Some(p)), OsFree(p)];
      && ValidRun(u, PASSED_BITS, calls)
      && Exec(PASSED_BITS, calls).frees == [FreeRecord(p, 0, Some(256))]
  {
    hide Key;
    var c1, c2 := OsAlloc(256, Some(p)), OsFree(p);
    PowersOfTwo();
    assert [c1][..0] == [] && [c1, c2][..1] == [c1];
    assert Exec(PASSED_BITS, [c1][..0]) == EMPTY;
    assert Fresh(EMPTY.heap, p, 256);
    assert ValidRun(u, PASSED_BITS, [c1]);
    assert Exec(PASSED_BITS, [c1]) == State(map[p := 256], map[Key(p) := 0], []);
  }

  // ---- Conservation of bytes -----------------------------------------------

  ghost function Total(m: map<string, nat>): nat
    decreases |m|
  {
    if m == map[] then 0
    else
      var k :| k in m;
      m[k] + Total(m - {k})
  }

  lemma {:induction false} TotalWithout(m: map<string, nat>, k: string)
    requires k in m
    ensures Total(m) == m[k] + Total(m - {k})
    decreases |m|
  {
    var j :| j in m && Total(m) == m[j] + Total(m - {j});
    if j != k {
      TotalWithout(m - {j}, k);
      TotalWithout(m - {k}, j);
      assert (m - {j}) - {k} == (m - {k}) - {j};
    }
  }

  lemma TotalWith(m: map<string, nat>, k: string, v: nat)
    requires k !in m
    ensures Total(m[k := v]) == Total(m) + v
  {
    TotalWithout(m[k := v], k);
    assert m[k := v] - {k} == m;
  }

  function FreedBytes(frees: seq<FreeRecord>): nat
  {
    if frees == [] then 0 else FreedBytes(frees[..|frees| - 1]) + frees[|frees| - 1].passed
  }

  /** Bytes requested by allocations that succeeded. */
  function AllocatedBytes(calls: seq<Call>): nat
  {
    if calls == [] then 0
    else AllocatedBytes(calls[..|calls| - 1]) + Requested(calls[|calls| - 1])
  }

  function Requested(c: Call): nat
  {
    if (c.OsAlloc? || c.NvlinkMalloc?) && c.malloced.Some? then c.size else 0
  }

  /** The same, each size boxed first. */
  function BoxedBytes(bits: nat, calls: seq<Call>): nat
  {
    if calls == [] then 0
    else BoxedBytes(bits, calls[..|calls| - 1]) + Boxed(bits, Requested(calls[|calls| - 1]))
  }

  lemma AllocMovesTotal(u: iset<nat>, bits: nat, s: State, size: nat, p: nat)
    requires Addresses(u) && InjectiveOn(u)
    requires Refines(u, bits, s.heap, s.dict) && p in u && Fresh(s.heap, p, size)
    ensures Total(AfterAlloc(bits, s, size, Some(p)).dict) == Total(s.dict) + Boxed(bits, size)
  {
    AllocKeepsRefinement(u, bits, s, size, p);
    TotalWith(s.dict, Key(p), Boxed(bits, size));
  }

  lemma FreeMovesTotal(s: State, p: nat)
    ensures var s' := AfterFree(s, p);
      Total(s'.dict) + FreedBytes(s'.frees) == Total(s.dict) + FreedBytes(s.frees)
  {
    if Key(p) in s.dict {
      var s' := AfterFree(s, p);
      TotalWithout(s.dict, Key(p));
      assert s'.frees[..|s'.frees| - 1] == s.frees;
    }
  }

  /** Tracked bytes and freed bytes add up to the bytes boxed at allocation. */
  lemma {:induction false} BoxedBytesConserved(u: iset<nat>, bits: nat, calls: seq<Call>)
    requires Addresses(u) && InjectiveOn(u) && ValidRun(u, bits, calls)
    ensures Total(Exec(bits, calls).dict) + FreedBytes(Exec(bits, calls).frees) == BoxedBytes(bits, calls)
  {
    if calls != [] {
      var before, c := calls[..|calls| - 1], calls[|calls| - 1];
      var b := Exec(bits, before);
      BoxedBytesConserved(u, bits, before);
      TrackerRefinesPlainMap(u, bits, before);
      BoxedIsExactIff(bits, 0);
      if c.OsAlloc? || c.NvlinkMalloc? {
        if c.malloced.Some? { AllocMovesTotal(u, bits, b, c.size, c.malloced.value); }
      } else {
        FreeMovesTotal(b, c.ptr);
      }
    }
  }

  lemma {:induction false} BoxingOnlyLoses(bits: nat, calls: seq<Call>)
    ensures BoxedBytes(bits, calls) <= AllocatedBytes(calls)
    ensures BoxedBytes(bits, calls) == AllocatedBytes(calls) <==>
            forall i :: 0 <= i < |calls| ==> Requested(calls[i]) < Pow2(bits)
  {
    if calls != [] {
      var before, c := calls[..|calls| - 1], calls[|calls| - 1];
      BoxingOnlyLoses(bits, before);
      BoxedIsExactIff(bits, Requested(c));
      assert forall i :: 0 <= i < |before| ==> calls[i] == before[i];
      if forall i :: 0 <= i < |before| ==> Requested(before[i]) < Pow2(bits) {
        assert (forall i :: 0 <= i < |calls| ==> Requested(calls[i]) < Pow2(bits)) <==> Requested(c) < Pow2(bits);
      }
    }
  }

  /** The sum of tracked sizes equals bytes allocated minus bytes freed over a
      run exactly when every size fits the boxed width. */
  lemma BytesConservedIff(u: iset<nat>, bits: nat, calls: seq<Call>)
    requires Addresses(u) && InjectiveOn(u) && ValidRun(u, bits, calls)
    ensures Total(Exec(bits, calls).dict) == AllocatedBytes(calls) - FreedBytes(Exec(bits, calls).frees) <==>
            forall i :: 0 <= i < |calls| ==> Requested(calls[i]) < Pow2(bits)
  {
    BoxedBytesConserved(u, bits, calls);
    BoxingOnlyLoses(bits, calls);
  }

  // ---- The same against the heap -----------------------------------------------

  ghost function LiveTotal(heap: map<nat, nat>): nat
    decreases |heap|
  {
    if heap == map[] then 0
    else
      var p :| p in heap;
      heap[p] + LiveTotal(heap - {p})
  }

  lemma {:induction false} LiveTotalWithout(heap: map<nat, nat>, p: nat)
    requires p in heap
    ensures LiveTotal(heap) == heap[p] + LiveTotal(heap - {p})
    decreases |heap|
  {
    var q :| q in heap && LiveTotal(heap) == heap[q] + LiveTotal(heap - {q});
    if q != p {
      LiveTotalWithout(heap - {q}, p);
      LiveTotalWithout(heap - {p}, q);
      assert (heap - {q}) - {p} == (heap - {p}) - {q};
    }
  }

  /** Tracked sizes add up to the live sizes exactly when every live block fits
      the width. */
  lemma {:induction false} TrackedIsLiveIff(u: iset<nat>, bits: nat, heap: map<nat, nat>, dict: map<string, nat>)
    requires InjectiveOn(u) && Refines(u, bits, heap, dict)
    ensures Total(dict) <= LiveTotal(heap)
    ensures Total(dict) == LiveTotal(heap) <==> forall p :: p in heap ==> heap[p] < Pow2(bits)
    decreases |heap|
  {
    hide Key, Boxed, InjectiveOn, Pow2;
    if heap == map[] {
      assert dict == map[] by { assert forall k :: k !in dict; }
    } else {
      var p :| p in heap;
      var heap', dict' := heap - {p}, dict - {Key(p)};
      DropKeepsRefinement(u, bits, heap, dict, p);
      TrackedIsLiveIff(u, bits, heap', dict');
      LiveTotalWithout(heap, p);
      TotalWithout(dict, Key(p));
      BoxedIsExactIff(bits, heap[p]);
      assert forall q :: q in heap <==> q == p || q in heap';
    }
  }

  /** The sizes of the blocks that were freed, whatever IOFree was told. */
  function FreedBlockBytes(frees: seq<FreeRecord>): nat
  {
    if frees == [] then 0
    else
      var last := frees[|frees| - 1];
      FreedBlockBytes(frees[..|frees| - 1]) + if last.actual.Some? then last.actual.value else 0
  }

  lemma LiveStep(s: State, bits: nat, c: Call)
    requires c.OsAlloc? || c.NvlinkMalloc? ==> c.malloced.Some? ==> c.malloced.value !in s.heap
    ensures var s' := Step(bits, s, c);
      LiveTotal(s'.heap) + FreedBlockBytes(s'.frees) == LiveTotal(s.heap) + FreedBlockBytes(s.frees) + Requested(c)
  {
    hide Key, Boxed;
    var s' := Step(bits, s, c);
    if c.OsAlloc? || c.NvlinkMalloc? {
      if c.malloced.Some? {
        LiveTotalWithout(s'.heap, c.malloced.value);
        assert s'.heap - {c.malloced.value} == s.heap;
      }
    } else if Key(c.ptr) in s.dict {
      assert s'.frees[..|s'.frees| - 1] == s.frees;
      if c.ptr in s.heap { LiveTotalWithout(s.heap, c.ptr); } else { assert s'.heap == s.heap; }
    }
  }

  lemma {:induction false} LiveBytesConserved(u: iset<nat>, bits: nat, calls: seq<Call>)
    requires ValidRun(u, bits, calls)
    ensures LiveTotal(Exec(bits, calls).heap) + FreedBlockBytes(Exec(bits, calls).frees) == AllocatedBytes(calls)
  {
    hide Key, Boxed;
    if calls != [] {
      LiveBytesConserved(u, bits, calls[..|calls| - 1]);
      LiveStep(Exec(bits, calls[..|calls| - 1]), bits, calls[|calls| - 1]);
    }
  }

  /** Over every run the tracked sizes equal the bytes allocated minus the bytes
      of the blocks freed exactly when every block still live fits the width. */
  lemma TrackedBytesIff(u: iset<nat>, bits: nat, calls: seq<Call>)
    requires Addresses(u) && InjectiveOn(u) && ValidRun(u, bits, calls)
    ensures var s := Exec(bits, calls);
      Total(s.dict) == AllocatedBytes(calls) - FreedBlockBytes(s.frees) <==>
      forall p :: p in s.heap ==> s.heap[p] < Pow2(bits)
  {
    hide Key, Boxed, Pow2, Refines;
    TrackerRefinesPlainMap(u, bits, calls);
    LiveBytesConserved(u, bits, calls);
    TrackedIsLiveIff(u, bits, Exec(bits, calls).heap, Exec(bits, calls).dict);
  }
}
