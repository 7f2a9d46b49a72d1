/** `os_alloc_mem` and `os_free_mem` run by any number of threads.  Each heap
    call, each dictionary call and the read of a number found in the dictionary
    is one atomic step; steps of different threads interleave freely.  A caller
    frees a block only while it owns it, and gives up ownership when it starts
    to free. */
module AllocInterleaving {
  import opened NvTypes
  import opened PointerKey
  import opened AllocTracker

  type Tid = nat

  /** Where a thread inside a call stands.  Threads outside a call have no entry. */
  datatype Pc =
    | Allocated(ptr: nat, size: nat)  // IOMallocZero returned, setObject is next
    | Found(ptr: nat)                 // getObject returned a number, its read is next
    | LookedUp(ptr: nat, size: nat)   // the size is read, IOFree is next
    | Freed(ptr: nat)                 // IOFree is done, removeObject is next

  datatype World = World(
    heap: map<nat, nat>,
    dict: map<string, nat>,
    owned: set<nat>,          // blocks handed to callers and not yet given back
    pcs: map<Tid, Pc>,
    frees: seq<FreeRecord>)

  datatype Action =
    | Malloc(tid: Tid, size: nat, malloced: Option<nat>)
    | SetObject(tid: Tid)
    | Lookup(tid: Tid, ptr: nat)
    | Read(tid: Tid, junk: nat)
    | Release(tid: Tid)
    | Remove(tid: Tid)

  const START: World := World(map[], map[], {}, map[], [])

  ghost predicate Enabled(u: iset<nat>, w: World, a: Action)
  {
    match a
    case Malloc(t, size, m) =>
      t !in w.pcs && (m.Some? ==> m.value in u && Fresh(w.heap, m.value, size))
    case SetObject(t) => t in w.pcs && w.pcs[t].Allocated?
    case Lookup(t, p) => t !in w.pcs && p in w.owned
    case Read(t, _) => t in w.pcs && w.pcs[t].Found?
    case Release(t) => t in w.pcs && w.pcs[t].LookedUp?
    case Remove(t) => t in w.pcs && w.pcs[t].Freed?
  }

  /** What a thread reads from the number it found.  The dictionary holds the
      only reference, so a number removed since is gone and its memory holds
      anything.  Nobody sets the key of a block that is being freed, so the
      key is present exactly while the number is (FoundNumberStays). */
  function ReadValue(w: World, p: nat, junk: nat): nat
  {
    if Key(p) in w.dict then w.dict[Key(p)] else junk
  }

  ghost function Next(u: iset<nat>, bits: nat, w: World, a: Action): World
    requires Enabled(u, w, a)
  {
    match a
    case Malloc(t, size, None) => w
    case Malloc(t, size, Some(p)) =>
      w.(heap := w.heap[p := size], pcs := w.pcs[t := Allocated(p, size)])
    case SetObject(t) =>
      var p := w.pcs[t].ptr;
      w.(dict := w.dict[Key(p) := Boxed(bits, w.pcs[t].size)], owned := w.owned + {p}, pcs := w.pcs - {t})
    case Lookup(t, p) =>
      if Key(p) in w.dict then
        w.(owned := w.owned - {p}, pcs := w.pcs[t := Found(p)])
      else
        w.(owned := w.owned - {p})
    case Read(t, junk) =>
      var p := w.pcs[t].ptr;
      w.(pcs := w.pcs[t := LookedUp(p, ReadValue(w, p, junk))])
    case Release(t) =>
      var p := w.pcs[t].ptr;
      var actual := if p in w.heap then Some(w.heap[p]) else None;
      w.(heap := w.heap - {p}, pcs := w.pcs[t := Freed(p)],
         frees := w.frees + [FreeRecord(p, w.pcs[t].size, actual)])
    case Remove(t) =>
      w.(dict := w.dict - {Key(w.pcs[t].ptr)}, pcs := w.pcs - {t})
  }

  /** A run is a start state and the actions taken from it. */
  ghost predicate Run(u: iset<nat>, bits: nat, w: World, acts: seq<Action>)
    decreases |acts|
  {
    acts != [] ==> Enabled(u, w, acts[0]) && Run(u, bits, Next(u, bits, w, acts[0]), acts[1..])
  }

  ghost function After(u: iset<nat>, bits: nat, w: World, acts: seq<Action>): World
    requires Run(u, bits, w, acts)
    decreases |acts|
  {
    if acts == [] then w else After(u, bits, Next(u, bits, w, acts[0]), acts[1..])
  }

  lemma RunCons(u: iset<nat>, bits: nat, w: World, a: Action, rest: seq<Action>)
    requires Enabled(u, w, a) && Run(u, bits, Next(u, bits, w, a), rest)
    ensures Run(u, bits, w, [a] + rest)
    ensures After(u, bits, w, [a] + rest) == After(u, bits, Next(u, bits, w, a), rest)
  {
    assert ([a] + rest)[1..] == rest;
  }

  // ---- What every step keeps -------------------------------------------------

  predicate Busy(w: World, t: Tid, p: nat) { t in w.pcs && !w.pcs[t].Freed? && w.pcs[t].ptr == p }

  /** Who may touch which block. */
  ghost predicate Shape(u: iset<nat>, w: World)
  {
    && (forall p :: p in w.heap ==> p in u && p != 0)
    && w.owned <= w.heap.Keys
    && (forall t :: t in w.pcs ==> w.pcs[t].ptr in u)
    && (forall t :: t in w.pcs && !w.pcs[t].Freed? ==> w.pcs[t].ptr in w.heap && w.pcs[t].ptr !in w.owned)
    && (forall t, t' :: t in w.pcs && t' in w.pcs && t != t' && !w.pcs[t].Freed? && !w.pcs[t'].Freed?
          ==> w.pcs[t].ptr != w.pcs[t'].ptr)
  }

  /** An allocating thread carries the size of its block. */
  predicate CarriesSize(heap: map<nat, nat>, pc: Pc)
  {
    pc.Allocated? ==> pc.ptr in heap && pc.size == heap[pc.ptr]
  }

  /** Each IOFree hit a live block. */
  predicate FreesHit(frees: seq<FreeRecord>) { forall i :: 0 <= i < |frees| ==> frees[i].actual.Some? }

  /** IOMallocZero has returned p to thread t, which has yet to call setObject. */
  predicate Allocating(w: World, t: Tid, p: nat) { t in w.pcs && w.pcs[t].Allocated? && w.pcs[t].ptr == p }

  predicate Pending(w: World, t: Tid, p: nat) { t in w.pcs && w.pcs[t] == Freed(p) }

  /** A live block past its setObject: with a caller, inside a free, or leaked. */
  ghost predicate Settled(w: World, p: nat) { p in w.heap && forall t :: !Allocating(w, t, p) }

  predicate EntryOk(bits: nat, w: World, p: nat)
    requires p in w.heap
  {
    Key(p) in w.dict ==> w.dict[Key(p)] == Boxed(bits, w.heap[p])
  }

  /** A key stands for a settled block, or for one whose removeObject is pending. */
  ghost predicate KeyAccounted(w: World, k: string)
  {
    (exists p :: Settled(w, p) && k == Key(p)) || (exists t, p :: Pending(w, t, p) && k == Key(p))
  }

  ghost predicate EntriesOk(bits: nat, w: World) { forall p :: Settled(w, p) ==> EntryOk(bits, w, p) }

  ghost predicate NoStray(w: World) { forall k :: k in w.dict ==> KeyAccounted(w, k) }

  ghost predicate Inv(u: iset<nat>, bits: nat, w: World)
  {
    && Shape(u, w)
    && EntriesOk(bits, w)
    && NoStray(w)
    && (forall t :: t in w.pcs ==> CarriesSize(w.heap, w.pcs[t]))
    && FreesHit(w.frees)
  }

  lemma NextKeepsShape(u: iset<nat>, bits: nat, w: World, a: Action)
    requires Shape(u, w) && Enabled(u, w, a)
    ensures Shape(u, Next(u, bits, w, a))
  {
    hide Key, Boxed;
  }

  lemma NextKeepsEntriesOk(u: iset<nat>, bits: nat, w: World, a: Action)
    requires Addresses(u) && InjectiveOn(u) && Inv(u, bits, w) && Enabled(u, w, a)
    ensures EntriesOk(bits, Next(u, bits, w, a))
  {
    hide Key, Boxed, NoStray, FreesHit;
    var w' := Next(u, bits, w, a);
    forall p: nat | Settled(w', p) ensures EntryOk(bits, w', p) {
      assert !Allocating(w', a.tid, p);
      if a.SetObject? && w.pcs[a.tid].ptr == p {
        assert CarriesSize(w.heap, w.pcs[a.tid]);
      } else {
        assert Settled(w, p) by {
          forall t ensures !Allocating(w, t, p) { assert !Allocating(w', t, p); }
        }
      }
    }
  }

  lemma NextKeepsNoStray(u: iset<nat>, bits: nat, w: World, a: Action)
    requires Shape(u, w) && Enabled(u, w, a) && NoStray(w)
    ensures NoStray(Next(u, bits, w, a))
  {
    hide Key, Boxed;
    var w' := Next(u, bits, w, a);
    forall k | k in w'.dict ensures KeyAccounted(w', k) {
      if a.SetObject? && k == Key(w.pcs[a.tid].ptr) {
        assert Settled(w', w.pcs[a.tid].ptr);
      } else if t, p :| Pending(w, t, p) && k == Key(p) {
        assert Pending(w', t, p);
      } else {
        var p :| Settled(w, p) && k == Key(p);
        if p in w'.heap {
          assert Settled(w', p) by {
            forall t ensures !Allocating(w', t, p) { assert !Allocating(w, t, p); }
          }
        } else {
          assert Pending(w', a.tid, p);
        }
      }
    }
  }

  lemma NextKeepsSizes(u: iset<nat>, bits: nat, w: World, a: Action)
    requires Inv(u, bits, w) && Enabled(u, w, a)
    ensures var w' := Next(u, bits, w, a);
      && (forall t :: t in w'.pcs ==> CarriesSize(w'.heap, w'.pcs[t]))
      && FreesHit(w'.frees)
  {
    hide Key, Boxed, NoStray, EntriesOk;
  }

  lemma NextKeepsInv(u: iset<nat>, bits: nat, w: World, a: Action)
    requires Addresses(u) && InjectiveOn(u) && Inv(u, bits, w) && Enabled(u, w, a)
    ensures Inv(u, bits, Next(u, bits, w, a))
  {
    hide Key, Boxed, Shape, EntriesOk, NoStray, CarriesSize, FreesHit, Next;
    NextKeepsShape(u, bits, w, a);
    NextKeepsEntriesOk(u, bits, w, a);
    NextKeepsNoStray(u, bits, w, a);
    NextKeepsSizes(u, bits, w, a);
  }

  /** Over every interleaving: each IOFree hits a live block, so none is freed
      twice, the entry of a settled block is absent or correct, and every key
      is accounted for. */
  lemma {:induction false} InvOverRuns(u: iset<nat>, bits: nat, w: World, acts: seq<Action>)
    requires Addresses(u) && InjectiveOn(u) && Inv(u, bits, w) && Run(u, bits, w, acts)
    ensures Inv(u, bits, After(u, bits, w, acts))
    decreases |acts|
  {
    hide Key, Boxed, Inv;
    if acts != [] {
      NextKeepsInv(u, bits, w, acts[0]);
      InvOverRuns(u, bits, Next(u, bits, w, acts[0]), acts[1..]);
    }
  }

  lemma StartIsGood(u: iset<nat>, bits: nat)
    ensures Inv(u, bits, START) && AllTracked(START) && NoLeak(START)
    ensures SizesRight(bits, START) && FoundTracked(START) && PendingIsDead(START)
  {
  }

  /** What the invariant says of an address: the entry of a live block is
      absent or correct unless the block is still being allocated, and then
      it is left over from a free that has yet to remove it. */
  lemma EntryOfLiveBlock(u: iset<nat>, bits: nat, w: World, p: nat)
    requires Addresses(u) && InjectiveOn(u) && Inv(u, bits, w)
    requires p in w.heap && Key(p) in w.dict
    ensures (forall t :: !Allocating(w, t, p)) ==> w.dict[Key(p)] == Boxed(bits, w.heap[p])
    ensures (exists t :: Allocating(w, t, p)) ==> exists t :: Pending(w, t, p)
  {
    hide Key, Boxed, FreesHit, CarriesSize;
    if forall t :: !Allocating(w, t, p) {
      assert Settled(w, p) && EntryOk(bits, w, p);
    } else {
      assert !Settled(w, p) && KeyAccounted(w, Key(p));
      assert forall q :: Settled(w, q) && Key(p) == Key(q) ==> q == p;
      var t, q :| Pending(w, t, q) && Key(p) == Key(q);
      assert w.pcs[t].ptr in u;
    }
  }

  /** The same from the start, spelled out. */
  lemma EveryInterleaving(u: iset<nat>, bits: nat, acts: seq<Action>)
    requires Addresses(u) && InjectiveOn(u) && Run(u, bits, START, acts)
    ensures var w := After(u, bits, START, acts);
      && (forall i :: 0 <= i < |w.frees| ==> w.frees[i].actual.Some?)
      && (forall p :: p in w.heap && Key(p) in w.dict && (forall t :: !Allocating(w, t, p)) ==>
            w.dict[Key(p)] == Boxed(bits, w.heap[p]))
      && (forall p, t :: Allocating(w, t, p) && Key(p) in w.dict ==> exists t' :: Pending(w, t', p))
  {
    hide Key, Boxed, Inv;
    StartIsGood(u, bits);
    InvOverRuns(u, bits, START, acts);
    var w := After(u, bits, START, acts);
    InvParts(u, bits, w);
    forall p | p in w.heap && Key(p) in w.dict
      ensures (forall t :: !Allocating(w, t, p)) ==> w.dict[Key(p)] == Boxed(bits, w.heap[p])
      ensures (exists t :: Allocating(w, t, p)) ==> exists t :: Pending(w, t, p)
    {
      EntryOfLiveBlock(u, bits, w, p);
    }
  }

  lemma InvParts(u: iset<nat>, bits: nat, w: World)
    requires Inv(u, bits, w)
    ensures Shape(u, w) && FreesHit(w.frees) && NoStray(w) && EntriesOk(bits, w)
  {
  }

  // ---- When every IOFree is given the right size ---------------------------------

  predicate Finding(w: World, t: Tid, p: nat) { t in w.pcs && w.pcs[t] == Found(p) }

  /** While a thread is between getObject and its read, only a removeObject
      changes the key it found. */
  lemma FoundNumberStays(u: iset<nat>, bits: nat, w: World, a: Action, t: Tid, p: nat)
    requires Addresses(u) && InjectiveOn(u) && Inv(u, bits, w) && Enabled(u, w, a) && Finding(w, t, p)
    ensures var w' := Next(u, bits, w, a);
      if a.Remove? && Pending(w, a.tid, p) then Key(p) !in w'.dict
      else
        && (Key(p) in w'.dict <==> Key(p) in w.dict)
        && (Key(p) in w.dict ==> w'.dict[Key(p)] == w.dict[Key(p)])
  {
    hide Key, Boxed, EntriesOk, NoStray, FreesHit, CarriesSize;
    assert p in u;
  }

  /** Every size passed to IOFree, or about to be, is the boxed size of its block. */
  ghost predicate SizesRight(bits: nat, w: World)
  {
    && FreesMatch(bits, w.frees)
    && forall t :: t in w.pcs && w.pcs[t].LookedUp? ==>
         w.pcs[t].ptr in w.heap && w.pcs[t].size == Boxed(bits, w.heap[w.pcs[t].ptr])
  }

  /** A thread reads a number that was removed after it found it. */
  predicate LateRead(w: World, a: Action)
  {
    a.Read? && a.tid in w.pcs && w.pcs[a.tid].Found? && Key(w.pcs[a.tid].ptr) !in w.dict
  }

  lemma SizesNextIff(u: iset<nat>, bits: nat, w: World, a: Action)
    requires Addresses(u) && InjectiveOn(u) && Inv(u, bits, w) && Enabled(u, w, a) && SizesRight(bits, w)
    ensures SizesRight(bits, Next(u, bits, w, a)) <==>
            !(LateRead(w, a) && a.junk != Boxed(bits, w.heap[w.pcs[a.tid].ptr]))
  {
    hide Key, Boxed, NoStray, FreesHit, CarriesSize;
    if a.Read? {
      var p, w' := w.pcs[a.tid].ptr, Next(u, bits, w, a);
      assert Settled(w, p) by {
        forall t ensures !Allocating(w, t, p) {}
      }
      assert EntryOk(bits, w, p);
      assert w'.pcs[a.tid] == LookedUp(p, ReadValue(w, p, a.junk));
    }
  }

  function WithJunk(a: Action, junk: nat): Action { if a.Read? then a.(junk := junk) else a }

  /** In every state of the run, and in the next whatever a removed number's
      memory holds, the sizes are right. */
  ghost predicate SizesSafe(u: iset<nat>, bits: nat, w: World, acts: seq<Action>)
    requires Run(u, bits, w, acts)
    decreases |acts|
  {
    && SizesRight(bits, w)
    && (acts != [] ==>
          && (forall junk: nat :: SizesRight(bits, Next(u, bits, w, WithJunk(acts[0], junk))))
          && SizesSafe(u, bits, Next(u, bits, w, acts[0]), acts[1..]))
  }

  ghost predicate NoLateRead(u: iset<nat>, bits: nat, w: World, acts: seq<Action>)
    requires Run(u, bits, w, acts)
    decreases |acts|
  {
    acts != [] ==> !LateRead(w, acts[0]) && NoLateRead(u, bits, Next(u, bits, w, acts[0]), acts[1..])
  }

  lemma SizesSafeNextIff(u: iset<nat>, bits: nat, w: World, a: Action)
    requires Addresses(u) && InjectiveOn(u) && Inv(u, bits, w) && Enabled(u, w, a) && SizesRight(bits, w)
    ensures (forall junk: nat :: SizesRight(bits, Next(u, bits, w, WithJunk(a, junk)))) <==> !LateRead(w, a)
    ensures !LateRead(w, a) ==> SizesRight(bits, Next(u, bits, w, a))
  {
    hide Key, Boxed, Inv, SizesRight, Next;
    InvParts(u, bits, w);
    forall junk: nat
      ensures SizesRight(bits, Next(u, bits, w, WithJunk(a, junk))) <==>
              !(LateRead(w, a) && junk != Boxed(bits, w.heap[w.pcs[a.tid].ptr]))
    {
      SizesNextIff(u, bits, w, WithJunk(a, junk));
    }
    SizesNextIff(u, bits, w, a);
    if LateRead(w, a) {
      var wrong: nat := Boxed(bits, w.heap[w.pcs[a.tid].ptr]) + 1;
      assert !SizesRight(bits, Next(u, bits, w, WithJunk(a, wrong)));
    }
  }

  /** Over every run: the sizes are right whatever removed numbers read as
      exactly when no thread reads a number removed since it found it. */
  lemma {:induction false} SizesSafeIff(u: iset<nat>, bits: nat, w: World, acts: seq<Action>)
    requires Addresses(u) && InjectiveOn(u) && Inv(u, bits, w) && Run(u, bits, w, acts) && SizesRight(bits, w)
    ensures SizesSafe(u, bits, w, acts) <==> NoLateRead(u, bits, w, acts)
    ensures NoLateRead(u, bits, w, acts) ==> SizesRight(bits, After(u, bits, w, acts))
    decreases |acts|
  {
    hide Key, Boxed, Inv, SizesRight;
    if acts != [] {
      NextKeepsInv(u, bits, w, acts[0]);
      SizesSafeNextIff(u, bits, w, acts[0]);
      if !LateRead(w, acts[0]) { SizesSafeIff(u, bits, Next(u, bits, w, acts[0]), acts[1..]); }
    }
  }

  /** From the start, with no late read: every IOFree was given the boxed size,
      which is the block's size exactly when that fits the boxed width. */
  lemma FreedSizesWithoutLateRead(u: iset<nat>, bits: nat, acts: seq<Action>, i: nat)
    requires Addresses(u) && InjectiveOn(u) && Run(u, bits, START, acts) && NoLateRead(u, bits, START, acts)
    requires i < |After(u, bits, START, acts).frees|
    ensures var r := After(u, bits, START, acts).frees[i];
      && r.actual.Some?
      && r.passed == r.actual.value % Pow2(bits)
      && (r.passed == r.actual.value <==> r.actual.value < Pow2(bits))
  {
    hide Key, Inv, Pow2;
    StartIsGood(u, bits);
    SizesSafeIff(u, bits, START, acts);
    BoxedIsExactIff(bits, After(u, bits, START, acts).frees[i].actual.value);
  }

  /** A removeObject of p while thread t is between getObject(p) and its read. */
  predicate Cuts(w: World, a: Action, t: Tid)
  {
    a.Remove? && a.tid in w.pcs && w.pcs[a.tid].Freed? && Finding(w, t, w.pcs[a.tid].ptr)
  }

  predicate Idle(acts: seq<Action>, t: Tid) { forall i :: 0 <= i < |acts| ==> acts[i].tid != t }

  /** Some step of the run cuts thread t, which takes no step after. */
  ghost predicate CutBy(u: iset<nat>, bits: nat, w: World, acts: seq<Action>, t: Tid)
    requires Run(u, bits, w, acts)
    decreases |acts|
  {
    && acts != []
    && ((Cuts(w, acts[0], t) && Idle(acts[1..], t)) || CutBy(u, bits, Next(u, bits, w, acts[0]), acts[1..], t))
  }

  lemma FindingStep(u: iset<nat>, bits: nat, w: World, a: Action, t: Tid, p: nat)
    requires Addresses(u) && InjectiveOn(u) && Inv(u, bits, w) && Enabled(u, w, a)
    ensures var w' := Next(u, bits, w, a);
      Finding(w', t, p) && Key(p) !in w'.dict <==>
      a.tid != t && Finding(w, t, p) && (Key(p) !in w.dict || Cuts(w, a, t))
  {
    hide Key, Boxed, EntriesOk, NoStray, FreesHit, CarriesSize;
    if Finding(w, t, p) && a.tid != t { FoundNumberStays(u, bits, w, a, t, p); }
  }

  /** Over every run: a thread that has found its number and not yet read it
      would read late exactly when a removeObject of the key fell between its
      getObject and now, in this run or before it. */
  lemma {:induction false} LateReadIffCut(u: iset<nat>, bits: nat, w: World, acts: seq<Action>, t: Tid, p: nat)
    requires Addresses(u) && InjectiveOn(u) && Inv(u, bits, w) && Run(u, bits, w, acts)
    requires Finding(After(u, bits, w, acts), t, p)
    ensures Key(p) !in After(u, bits, w, acts).dict <==>
            || (Finding(w, t, p) && Key(p) !in w.dict && Idle(acts, t))
            || CutBy(u, bits, w, acts, t)
    decreases |acts|
  {
    hide Key, Boxed, Inv;
    if acts != [] {
      var w' := Next(u, bits, w, acts[0]);
      NextKeepsInv(u, bits, w, acts[0]);
      FindingStep(u, bits, w, acts[0], t, p);
      LateReadIffCut(u, bits, w', acts[1..], t, p);
      assert Idle(acts, t) <==> acts[0].tid != t && Idle(acts[1..], t);
      if Idle(acts[1..], t) { IdleStaysFinding(u, bits, w', acts[1..], t, p); }
    }
  }

  /** A thread that takes no step is where it was. */
  lemma {:induction false} IdleStaysFinding(u: iset<nat>, bits: nat, w: World, acts: seq<Action>, t: Tid, p: nat)
    requires Run(u, bits, w, acts) && Idle(acts, t)
    ensures Finding(After(u, bits, w, acts), t, p) <==> Finding(w, t, p)
    decreases |acts|
  {
    hide Key, Boxed;
    if acts != [] {
      assert acts[0].tid != t;
      assert Idle(acts[1..], t);
      IdleStaysFinding(u, bits, Next(u, bits, w, acts[0]), acts[1..], t, p);
    }
  }

  lemma {:induction false} PrefixRuns(u: iset<nat>, bits: nat, w: World, acts: seq<Action>, k: nat)
    requires Run(u, bits, w, acts) && k < |acts|
    ensures Run(u, bits, w, acts[..k]) && Enabled(u, After(u, bits, w, acts[..k]), acts[k])
    decreases k
  {
    hide Enabled, Next;
    if k > 0 {
      var w' := Next(u, bits, w, acts[0]);
      PrefixRuns(u, bits, w', acts[1..], k - 1);
      RunCons(u, bits, w, acts[0], acts[1..][..k - 1]);
      assert acts[..k] == [acts[0]] + acts[1..][..k - 1];
    }
  }

  lemma {:induction false} NoLateReadAt(u: iset<nat>, bits: nat, w: World, acts: seq<Action>, k: nat)
    requires Run(u, bits, w, acts) && NoLateRead(u, bits, w, acts) && k < |acts|
    ensures Run(u, bits, w, acts[..k]) && !LateRead(After(u, bits, w, acts[..k]), acts[k])
    decreases k
  {
    hide Enabled, Next, LateRead;
    if k > 0 {
      var w' := Next(u, bits, w, acts[0]);
      NoLateReadAt(u, bits, w', acts[1..], k - 1);
      RunCons(u, bits, w, acts[0], acts[1..][..k - 1]);
      assert acts[..k] == [acts[0]] + acts[1..][..k - 1];
    }
  }

  lemma {:induction false} FirstLateRead(u: iset<nat>, bits: nat, w: World, acts: seq<Action>) returns (k: nat)
    requires Run(u, bits, w, acts) && !NoLateRead(u, bits, w, acts)
    ensures k < |acts| && Run(u, bits, w, acts[..k]) && LateRead(After(u, bits, w, acts[..k]), acts[k])
    decreases |acts|
  {
    hide Enabled, Next, LateRead;
    if LateRead(w, acts[0]) {
      k := 0;
    } else {
      var rest := FirstLateRead(u, bits, Next(u, bits, w, acts[0]), acts[1..]);
      RunCons(u, bits, w, acts[0], acts[1..][..rest]);
      assert acts[..rest + 1] == [acts[0]] + acts[1..][..rest];
      k := rest + 1;
    }
  }

  /** The k-th step reads a number whose key was removed since the reader's getObject. */
  ghost predicate ReadIsCut(u: iset<nat>, bits: nat, acts: seq<Action>, k: nat)
    requires k < |acts|
  {
    acts[k].Read? && Run(u, bits, START, acts[..k]) && CutBy(u, bits, START, acts[..k], acts[k].tid)
  }

  lemma LateReadIsCut(u: iset<nat>, bits: nat, acts: seq<Action>, k: nat)
    requires Addresses(u) && InjectiveOn(u) && Run(u, bits, START, acts) && k < |acts|
    ensures Run(u, bits, START, acts[..k])
    ensures LateRead(After(u, bits, START, acts[..k]), acts[k]) <==> ReadIsCut(u, bits, acts, k)
  {
    hide Key, Boxed, Inv, CutBy, Next;
    PrefixRuns(u, bits, START, acts, k);
    StartIsGood(u, bits);
    var w := After(u, bits, START, acts[..k]);
    if acts[k].Read? { LateReadIffCut(u, bits, START, acts[..k], acts[k].tid, w.pcs[acts[k].tid].ptr); }
  }

  /** From the start, over every run: IOFree is given the boxed size of its
      block whatever removed numbers read as exactly when no removeObject of a
      key falls between a thread's getObject of it and its read. */
  lemma SizesSafeIffNoReadIsCut(u: iset<nat>, bits: nat, acts: seq<Action>)
    requires Addresses(u) && InjectiveOn(u) && Run(u, bits, START, acts)
    ensures SizesSafe(u, bits, START, acts) <==> forall k: nat :: k < |acts| ==> !ReadIsCut(u, bits, acts, k)
  {
    hide Key, Boxed, Inv, SizesRight, SizesSafe, LateRead, ReadIsCut, Next;
    StartIsGood(u, bits);
    SizesSafeIff(u, bits, START, acts);
    if NoLateRead(u, bits, START, acts) {
      forall k: nat | k < |acts| ensures !ReadIsCut(u, bits, acts, k) {
        NoLateReadAt(u, bits, START, acts, k);
        LateReadIsCut(u, bits, acts, k);
      }
    } else {
      var k := FirstLateRead(u, bits, START, acts);
      LateReadIsCut(u, bits, acts, k);
    }
  }

  ghost predicate FoundTracked(w: World) { forall t, p :: Finding(w, t, p) ==> Key(p) in w.dict }

  /** Each getObject that finds a number is followed at once by its read. */
  predicate AtomicLookups(acts: seq<Action>)
  {
    forall i :: 0 <= i < |acts| - 1 && acts[i].Lookup? ==> acts[i + 1].tid == acts[i].tid
  }

  ghost predicate NobodyFinding(w: World) { forall t, p :: !Finding(w, t, p) }

  /** If getObject and the read were one step, no read would be late. */
  lemma {:induction false} AtomicLookupsAreSafe(u: iset<nat>, bits: nat, w: World, acts: seq<Action>)
    requires Run(u, bits, w, acts) && AtomicLookups(acts)
    requires NobodyFinding(w) || (acts != [] && FoundTracked(w) && forall t, p :: Finding(w, t, p) ==> t == acts[0].tid)
    ensures NoLateRead(u, bits, w, acts)
    decreases |acts|
  {
    hide Key, Boxed;
    if acts != [] {
      var a, w' := acts[0], Next(u, bits, w, acts[0]);
      if a.Read? { assert Finding(w, a.tid, w.pcs[a.tid].ptr); }
      assert AtomicLookups(acts[1..]) by {
        forall i | 0 <= i < |acts[1..]| - 1 && acts[1..][i].Lookup? ensures acts[1..][i + 1].tid == acts[1..][i].tid {
          assert acts[i + 1].Lookup?;
        }
      }
      if |acts| > 1 {
        assert a.Lookup? ==> acts[1].tid == a.tid;
        assert forall t, p :: Finding(w', t, p) && t != a.tid ==> Finding(w, t, p);
        assert forall t, p :: Finding(w', t, p) ==> a.Lookup? && t == a.tid && Key(p) in w'.dict;
        AtomicLookupsAreSafe(u, bits, w', acts[1..]);
      }
    }
  }

  // ---- When every live block's entry is absent or correct -----------------------

  ghost predicate LiveEntriesOk(bits: nat, w: World) { forall p :: p in w.heap ==> EntryOk(bits, w, p) }

  /** IOMallocZero hands out an address that still has an entry of another size. */
  predicate StaleReuse(bits: nat, w: World, a: Action)
  {
    && a.Malloc?
    && a.malloced.Some?
    && Key(a.malloced.value) in w.dict
    && w.dict[Key(a.malloced.value)] != Boxed(bits, a.size)
  }

  lemma LiveEntriesNextIff(u: iset<nat>, bits: nat, w: World, a: Action)
    requires Addresses(u) && InjectiveOn(u) && Inv(u, bits, w) && Enabled(u, w, a)
    requires LiveEntriesOk(bits, w)
    ensures LiveEntriesOk(bits, Next(u, bits, w, a)) <==> !StaleReuse(bits, w, a)
  {
    hide Key, Boxed, NoStray, EntriesOk, FreesHit;
    var w' := Next(u, bits, w, a);
    if StaleReuse(bits, w, a) {
      assert !EntryOk(bits, w', a.malloced.value);
    } else {
      forall p | p in w'.heap ensures EntryOk(bits, w', p) {
        if a.SetObject? { assert CarriesSize(w.heap, w.pcs[a.tid]); }
        if p in w.heap { assert EntryOk(bits, w, p); }
      }
    }
  }

  ghost predicate LiveEntriesThroughout(u: iset<nat>, bits: nat, w: World, acts: seq<Action>)
    requires Run(u, bits, w, acts)
    decreases |acts|
  {
    LiveEntriesOk(bits, w)
    && (acts != [] ==> LiveEntriesThroughout(u, bits, Next(u, bits, w, acts[0]), acts[1..]))
  }

  ghost predicate NoStaleReuse(u: iset<nat>, bits: nat, w: World, acts: seq<Action>)
    requires Run(u, bits, w, acts)
    decreases |acts|
  {
    acts != [] ==> !StaleReuse(bits, w, acts[0]) && NoStaleReuse(u, bits, Next(u, bits, w, acts[0]), acts[1..])
  }

  /** The entry of every live block, blocks being allocated included, is absent
      or correct in every state of a run exactly when no allocation is given an
      address that still has an entry of another size. */
  lemma {:induction false} LiveEntriesThroughoutIff(u: iset<nat>, bits: nat, w: World, acts: seq<Action>)
    requires Addresses(u) && InjectiveOn(u) && Inv(u, bits, w) && Run(u, bits, w, acts)
    requires LiveEntriesOk(bits, w)
    ensures LiveEntriesThroughout(u, bits, w, acts) <==> NoStaleReuse(u, bits, w, acts)
    decreases |acts|
  {
    hide Key, Boxed, Inv, LiveEntriesOk;
    if acts != [] {
      NextKeepsInv(u, bits, w, acts[0]);
      LiveEntriesNextIff(u, bits, w, acts[0]);
      if !StaleReuse(bits, w, acts[0]) {
        LiveEntriesThroughoutIff(u, bits, Next(u, bits, w, acts[0]), acts[1..]);
      }
    }
  }

  // ---- How an entry can go missing --------------------------------------------

  ghost predicate AllTracked(w: World) { forall p :: p in w.owned ==> Key(p) in w.dict }

  /** removeObject by a thread whose IOFree let another caller reuse the address. */
  predicate LateRemove(w: World, a: Action)
  {
    a.Remove? && a.tid in w.pcs && w.pcs[a.tid].Freed? && w.pcs[a.tid].ptr in w.owned
  }

  /** The entry of a block that stays live, wherever the block is, disappears
      exactly in a removeObject left over from an earlier block at its address. */
  lemma EntryLostIff(u: iset<nat>, bits: nat, w: World, a: Action, p: nat)
    requires Addresses(u) && InjectiveOn(u) && Inv(u, bits, w) && Enabled(u, w, a)
    requires p in w.heap && Key(p) in w.dict && p in Next(u, bits, w, a).heap
    ensures Key(p) !in Next(u, bits, w, a).dict <==> a.Remove? && Pending(w, a.tid, p)
  {
    hide Key, Boxed, EntriesOk, NoStray, FreesHit;
  }

  lemma TrackedNextIff(u: iset<nat>, bits: nat, w: World, a: Action)
    requires Addresses(u) && InjectiveOn(u) && Inv(u, bits, w) && Enabled(u, w, a)
    requires AllTracked(w)
    ensures AllTracked(Next(u, bits, w, a)) <==> !LateRemove(w, a)
  {
    hide Key, Boxed, EntriesOk, NoStray, FreesHit;
  }

  ghost predicate TrackedThroughout(u: iset<nat>, bits: nat, w: World, acts: seq<Action>)
    requires Run(u, bits, w, acts)
    decreases |acts|
  {
    AllTracked(w) && (acts != [] ==> TrackedThroughout(u, bits, Next(u, bits, w, acts[0]), acts[1..]))
  }

  ghost predicate NoLateRemove(u: iset<nat>, bits: nat, w: World, acts: seq<Action>)
    requires Run(u, bits, w, acts)
    decreases |acts|
  {
    acts != [] ==> !LateRemove(w, acts[0]) && NoLateRemove(u, bits, Next(u, bits, w, acts[0]), acts[1..])
  }

  /** Every owned block is tracked in every state of a run exactly when no step
      of the run is a late removeObject. */
  lemma {:induction false} TrackedThroughoutIff(u: iset<nat>, bits: nat, w: World, acts: seq<Action>)
    requires Addresses(u) && InjectiveOn(u) && Inv(u, bits, w) && Run(u, bits, w, acts)
    requires AllTracked(w)
    ensures TrackedThroughout(u, bits, w, acts) <==> NoLateRemove(u, bits, w, acts)
    decreases |acts|
  {
    hide Key, Boxed, Inv;
    if acts != [] {
      var w' := Next(u, bits, w, acts[0]);
      NextKeepsInv(u, bits, w, acts[0]);
      TrackedNextIff(u, bits, w, acts[0]);
      if AllTracked(w') { TrackedThroughoutIff(u, bits, w', acts[1..]); }
    }
  }

  // ---- No reuse inside the window: nothing is lost ----------------------------

  /** IOMallocZero hands out an address whose removeObject is still to come. */
  ghost predicate ReusesPending(w: World, a: Action)
  {
    a.Malloc? && a.malloced.Some? && exists t :: Pending(w, t, a.malloced.value)
  }

  ghost predicate NoReuse(u: iset<nat>, bits: nat, w: World, acts: seq<Action>)
    requires Run(u, bits, w, acts)
    decreases |acts|
  {
    acts != [] ==> !ReusesPending(w, acts[0]) && NoReuse(u, bits, Next(u, bits, w, acts[0]), acts[1..])
  }

  ghost predicate PendingIsDead(w: World)
  {
    forall t, p :: Pending(w, t, p) ==> p !in w.heap
  }

  /** An address with a left-over entry is one whose removeObject is to come. */
  lemma StaleReuseIsPendingReuse(u: iset<nat>, bits: nat, w: World, a: Action)
    requires Addresses(u) && InjectiveOn(u) && Inv(u, bits, w) && Enabled(u, w, a)
    requires StaleReuse(bits, w, a)
    ensures ReusesPending(w, a)
  {
    hide Key, Boxed, EntriesOk, FreesHit;
    var p := a.malloced.value;
    assert KeyAccounted(w, Key(p));
    assert forall q :: Settled(w, q) ==> q in u && q != p;
    var t, q :| Pending(w, t, q) && Key(p) == Key(q);
    assert w.pcs[t].ptr in u;
  }

  lemma PendingStaysDead(u: iset<nat>, bits: nat, w: World, a: Action)
    requires Shape(u, w) && Enabled(u, w, a) && PendingIsDead(w)
    ensures !ReusesPending(w, a) ==> PendingIsDead(Next(u, bits, w, a))
    ensures !LateRemove(w, a)
  {
    hide Key, Boxed;
    var w' := Next(u, bits, w, a);
    if a.Remove? { assert Pending(w, a.tid, w.pcs[a.tid].ptr); }
    if !ReusesPending(w, a) {
      forall t, p: nat | Pending(w', t, p) ensures p !in w'.heap {
        if !(a.Release? && a.tid == t) { assert Pending(w, t, p); }
      }
    }
  }

  lemma DeadStaysFoundTracked(u: iset<nat>, bits: nat, w: World, a: Action)
    requires Addresses(u) && InjectiveOn(u) && Inv(u, bits, w) && Enabled(u, w, a)
    requires PendingIsDead(w) && FoundTracked(w)
    ensures !LateRead(w, a) && FoundTracked(Next(u, bits, w, a))
  {
    hide Key, Boxed, EntriesOk, NoStray, FreesHit, CarriesSize;
    if a.Read? { assert Finding(w, a.tid, w.pcs[a.tid].ptr); }
    forall t, p: nat | Finding(Next(u, bits, w, a), t, p) ensures Key(p) in Next(u, bits, w, a).dict {
      if t != a.tid {
        assert Finding(w, t, p) && p in w.heap;
        FoundNumberStays(u, bits, w, a, t, p);
      }
    }
  }

  /** If no block is handed out at an address whose removal is pending, no
      removal is late and no read is late. */
  lemma {:induction false} NoReuseNothingLate(u: iset<nat>, bits: nat, w: World, acts: seq<Action>)
    requires Addresses(u) && InjectiveOn(u) && Inv(u, bits, w) && Run(u, bits, w, acts)
    requires PendingIsDead(w) && FoundTracked(w) && NoReuse(u, bits, w, acts)
    ensures NoLateRemove(u, bits, w, acts) && NoLateRead(u, bits, w, acts)
    decreases |acts|
  {
    hide Key, Boxed, Inv;
    if acts != [] {
      NextKeepsInv(u, bits, w, acts[0]);
      InvParts(u, bits, w);
      PendingStaysDead(u, bits, w, acts[0]);
      DeadStaysFoundTracked(u, bits, w, acts[0]);
      NoReuseNothingLate(u, bits, Next(u, bits, w, acts[0]), acts[1..]);
    }
  }

  // ---- Quiescent states refine the plain map ----------------------------------

  /** Every live block is with a caller or inside a call. */
  ghost predicate NoLeak(w: World)
  {
    forall p :: p in w.heap ==> p in w.owned || exists t :: Busy(w, t, p)
  }

  /** os_free_mem finds no entry for the block and gives up. */
  predicate Misses(w: World, a: Action) { a.Lookup? && Key(a.ptr) !in w.dict }

  lemma NoLeakNextIff(u: iset<nat>, bits: nat, w: World, a: Action)
    requires Shape(u, w) && Enabled(u, w, a) && NoLeak(w)
    ensures NoLeak(Next(u, bits, w, a)) <==> !Misses(w, a)
  {
    hide Key, Boxed;
    var w' := Next(u, bits, w, a);
    if Misses(w, a) {
      assert forall t :: !Busy(w', t, a.ptr);
    } else {
      forall p | p in w'.heap && p !in w'.owned ensures exists t :: Busy(w', t, p) {
        if p in w.heap && p !in w.owned {
          var t :| Busy(w, t, p);
          assert Busy(w', t, p);
        } else {
          assert Busy(w', a.tid, p);
        }
      }
    }
  }

  ghost predicate NoLeakThroughout(u: iset<nat>, bits: nat, w: World, acts: seq<Action>)
    requires Run(u, bits, w, acts)
    decreases |acts|
  {
    NoLeak(w) && (acts != [] ==> NoLeakThroughout(u, bits, Next(u, bits, w, acts[0]), acts[1..]))
  }

  ghost predicate NeverMisses(u: iset<nat>, bits: nat, w: World, acts: seq<Action>)
    requires Run(u, bits, w, acts)
    decreases |acts|
  {
    acts != [] ==> !Misses(w, acts[0]) && NeverMisses(u, bits, Next(u, bits, w, acts[0]), acts[1..])
  }

  /** No block leaks in a run exactly when no free misses its entry. */
  lemma {:induction false} NoLeakThroughoutIff(u: iset<nat>, bits: nat, w: World, acts: seq<Action>)
    requires Shape(u, w) && Run(u, bits, w, acts) && NoLeak(w)
    ensures NoLeakThroughout(u, bits, w, acts) <==> NeverMisses(u, bits, w, acts)
    decreases |acts|
  {
    hide Key, Boxed, Shape, NoLeak;
    if acts != [] {
      NextKeepsShape(u, bits, w, acts[0]);
      NoLeakNextIff(u, bits, w, acts[0]);
      if !Misses(w, acts[0]) { NoLeakThroughoutIff(u, bits, Next(u, bits, w, acts[0]), acts[1..]); }
    }
  }

  lemma {:induction false} RunKeepsAccounts(u: iset<nat>, bits: nat, w: World, acts: seq<Action>)
    requires Addresses(u) && InjectiveOn(u) && Inv(u, bits, w) && Run(u, bits, w, acts)
    requires AllTracked(w) && NoLeak(w) && NoLateRemove(u, bits, w, acts)
    ensures var w' := After(u, bits, w, acts);
      Inv(u, bits, w') && AllTracked(w') && NoLeak(w')
    decreases |acts|
  {
    hide Key, Boxed, Inv, NoLeak;
    if acts != [] {
      NextKeepsInv(u, bits, w, acts[0]);
      TrackedNextIff(u, bits, w, acts[0]);
      InvParts(u, bits, w);
      NoLeakNextIff(u, bits, w, acts[0]);
      RunKeepsAccounts(u, bits, Next(u, bits, w, acts[0]), acts[1..]);
    }
  }

  /** A live block without an entry that no thread will enter or free. */
  ghost predicate Lost(w: World, p: nat)
  {
    p in w.heap && Key(p) !in w.dict && forall t :: !Busy(w, t, p)
  }

  lemma LateRemoveLoses(u: iset<nat>, bits: nat, w: World, a: Action)
    requires Shape(u, w) && Enabled(u, w, a) && LateRemove(w, a)
    ensures Lost(Next(u, bits, w, a), w.pcs[a.tid].ptr)
  {
    hide Key, Boxed;
  }

  lemma LostStaysLost(u: iset<nat>, bits: nat, w: World, a: Action, p: nat)
    requires Addresses(u) && InjectiveOn(u) && Shape(u, w) && Enabled(u, w, a) && Lost(w, p)
    ensures Lost(Next(u, bits, w, a), p)
  {
    hide Key, Boxed;
    var w' := Next(u, bits, w, a);
    forall t ensures !Busy(w', t, p) { assert !Busy(w, t, p); }
    assert !Busy(w, a.tid, p);
  }

  /** A block that lost its entry, owned or not, is never freed again. */
  lemma {:induction false} LostIsPermanent(u: iset<nat>, bits: nat, w: World, acts: seq<Action>, p: nat)
    requires Addresses(u) && InjectiveOn(u) && Shape(u, w) && Run(u, bits, w, acts) && Lost(w, p)
    ensures Lost(After(u, bits, w, acts), p)
    decreases |acts|
  {
    hide Key, Boxed, Lost, Shape;
    if acts != [] {
      NextKeepsShape(u, bits, w, acts[0]);
      LostStaysLost(u, bits, w, acts[0], p);
      LostIsPermanent(u, bits, Next(u, bits, w, acts[0]), acts[1..], p);
    }
  }

  lemma {:induction false} LateRemoveLeavesLost(u: iset<nat>, bits: nat, w: World, acts: seq<Action>) returns (p: nat)
    requires Addresses(u) && InjectiveOn(u) && Shape(u, w) && Run(u, bits, w, acts)
    requires !NoLateRemove(u, bits, w, acts)
    ensures Lost(After(u, bits, w, acts), p)
    decreases |acts|
  {
    hide Key, Boxed, Lost, Shape;
    var w' := Next(u, bits, w, acts[0]);
    NextKeepsShape(u, bits, w, acts[0]);
    if LateRemove(w, acts[0]) {
      p := w.pcs[acts[0].tid].ptr;
      LateRemoveLoses(u, bits, w, acts[0]);
      LostIsPermanent(u, bits, w', acts[1..], p);
    } else {
      p := LateRemoveLeavesLost(u, bits, w', acts[1..]);
    }
  }

  lemma QuietAccountsRefine(u: iset<nat>, bits: nat, w: World)
    requires Inv(u, bits, w) && AllTracked(w) && NoLeak(w) && w.pcs == map[]
    ensures w.owned == w.heap.Keys && Refines(u, bits, w.heap, w.dict)
  {
    hide Key, Boxed, FreesHit, CarriesSize;
    forall p | p in w.heap ensures p in w.owned && EntryOk(bits, w, p) {
      assert forall t :: !Busy(w, t, p) && !Allocating(w, t, p);
      assert Settled(w, p);
    }
    forall k | k in w.dict ensures exists p :: p in w.heap && k == Key(p) {
      assert KeyAccounted(w, k);
      assert forall t, p :: !Pending(w, t, p);
      var p :| Settled(w, p) && k == Key(p);
    }
  }

  /** Whenever no thread is inside a call, the tracker refines the plain map
      exactly when the run had no late remove; then the live blocks are the
      owned ones. */
  lemma QuiescentRefinesIff(u: iset<nat>, bits: nat, acts: seq<Action>)
    requires Addresses(u) && InjectiveOn(u) && Run(u, bits, START, acts)
    requires After(u, bits, START, acts).pcs == map[]
    ensures var w := After(u, bits, START, acts);
      && (Refines(u, bits, w.heap, w.dict) <==> NoLateRemove(u, bits, START, acts))
      && (NoLateRemove(u, bits, START, acts) ==> w.owned == w.heap.Keys)
  {
    hide Key, Boxed, Inv;
    StartIsGood(u, bits);
    InvParts(u, bits, START);
    var w := After(u, bits, START, acts);
    if NoLateRemove(u, bits, START, acts) {
      RunKeepsAccounts(u, bits, START, acts);
      QuietAccountsRefine(u, bits, w);
    } else {
      var p := LateRemoveLeavesLost(u, bits, START, acts);
      assert p in w.heap && Key(p) !in w.dict;
    }
  }

  // ---- Which frees miss ---------------------------------------------------------

  /** Some step of the run is a late remove of p's entry. */
  ghost predicate HitBy(u: iset<nat>, bits: nat, w: World, acts: seq<Action>, p: nat)
    requires Run(u, bits, w, acts)
    decreases |acts|
  {
    && acts != []
    && ((LateRemove(w, acts[0]) && w.pcs[acts[0].tid].ptr == p)
        || HitBy(u, bits, Next(u, bits, w, acts[0]), acts[1..], p))
  }

  predicate OwnedUntracked(w: World, p: nat) { p in w.owned && Key(p) !in w.dict }

  lemma UntrackedNextIff(u: iset<nat>, bits: nat, w: World, a: Action, p: nat)
    requires Addresses(u) && InjectiveOn(u) && Inv(u, bits, w) && Enabled(u, w, a)
    ensures OwnedUntracked(Next(u, bits, w, a), p) <==>
            && !(a.Lookup? && a.ptr == p)
            && (OwnedUntracked(w, p) || (LateRemove(w, a) && w.pcs[a.tid].ptr == p))
  {
    hide Key, Boxed, EntriesOk, NoStray, FreesHit;
  }

  /** For every run and every block still owned after it: a free of the block
      misses its entry exactly when it would have at the outset or a late
      remove hit the block during the run. */
  lemma {:induction false} MissesIffHit(u: iset<nat>, bits: nat, w: World, acts: seq<Action>, p: nat)
    requires Addresses(u) && InjectiveOn(u) && Inv(u, bits, w) && Run(u, bits, w, acts)
    requires p in After(u, bits, w, acts).owned
    ensures Key(p) !in After(u, bits, w, acts).dict <==> OwnedUntracked(w, p) || HitBy(u, bits, w, acts, p)
    decreases |acts|
  {
    hide Key, Boxed, Inv;
    if acts != [] {
      var w' := Next(u, bits, w, acts[0]);
      NextKeepsInv(u, bits, w, acts[0]);
      UntrackedNextIff(u, bits, w, acts[0], p);
      if acts[0].Lookup? && acts[0].ptr == p && OwnedUntracked(w, p) {
        MissLeaks(u, bits, w, acts[0]);
        LeakIsPermanent(u, bits, w', acts[1..], p);
      }
      MissesIffHit(u, bits, w', acts[1..], p);
    }
  }

  lemma MissLeaks(u: iset<nat>, bits: nat, w: World, a: Action)
    requires Inv(u, bits, w) && Enabled(u, w, a) && Misses(w, a)
    ensures Leaked(Next(u, bits, w, a), a.ptr)
  {
    hide Key, Boxed, EntriesOk, NoStray, FreesHit;
  }

  // ---- The window loses entries, and what it loses leaks -----------------------

  /** Thread a frees p and stalls before removeObject. */
  function Opening(a: Tid, p: nat, first: nat): seq<Action>
  {
    [Malloc(a, first, Some(p)), SetObject(a), Lookup(a, p), Read(a, 0), Release(a)]
  }

  /** Thread b reuses p in the meantime. */
  function WindowRun(a: Tid, b: Tid, p: nat, first: nat, second: nat): seq<Action>
  {
    Opening(a, p, first) + [Malloc(b, second, Some(p)), SetObject(b), Remove(a), Lookup(b, p)]
  }

  /** A block that is live, unowned and in no call. */
  ghost predicate Leaked(w: World, p: nat)
  {
    p in w.heap && p !in w.owned && forall t :: !Busy(w, t, p)
  }

  lemma BlockHandedOut(u: iset<nat>, bits: nat, a: Tid, p: nat, size: nat, rest: seq<Action>)
    requires p in u && p != 0
    requires Run(u, bits, OwnedWorld(bits, p, size), rest)
    ensures var acts := [Malloc(a, size, Some(p)), SetObject(a)] + rest;
      && Run(u, bits, START, acts)
      && After(u, bits, START, acts) == After(u, bits, OwnedWorld(bits, p, size), rest)
  {
    hide Key, Boxed;
    var a1, a2 := Malloc(a, size, Some(p)), SetObject(a);
    var w1 := Next(u, bits, START, a1);
    assert Next(u, bits, w1, a2) == OwnedWorld(bits, p, size);
    RunCons(u, bits, w1, a2, rest);
    RunCons(u, bits, START, a1, [a2] + rest);
    assert [a1] + ([a2] + rest) == [a1, a2] + rest;
  }

  lemma WindowOpens(u: iset<nat>, bits: nat, a: Tid, p: nat, first: nat, rest: seq<Action>)
    requires p in u && p != 0
    requires Run(u, bits, StalledWorld(bits, a, p, first), rest)
    ensures var acts := Opening(a, p, first) + rest;
      && Run(u, bits, START, acts)
      && After(u, bits, START, acts) == After(u, bits, StalledWorld(bits, a, p, first), rest)
  {
    hide Key, Boxed, Run, After;
    var a1, a2, a3 := Lookup(a, p), Read(a, 0), Release(a);
    var w := OwnedWorld(bits, p, first);
    var w1 := Next(u, bits, w, a1);
    var w2 := Next(u, bits, w1, a2);
    assert Next(u, bits, w2, a3) == StalledWorld(bits, a, p, first);
    RunCons(u, bits, w2, a3, rest);
    RunCons(u, bits, w1, a2, [a3] + rest);
    RunCons(u, bits, w, a1, [a2] + ([a3] + rest));
    BlockHandedOut(u, bits, a, p, first, [a1] + ([a2] + ([a3] + rest)));
    assert [Malloc(a, first, Some(p)), SetObject(a)] + ([a1] + ([a2] + ([a3] + rest))) == Opening(a, p, first) + rest;
  }

  /** The block at p has been handed to a caller. */
  function OwnedWorld(bits: nat, p: nat, size: nat): World
  {
    World(map[p := size], map[Key(p) := Boxed(bits, size)], {p}, map[], [])
  }

  /** Thread a has done IOFree(p) and not yet removeObject. */
  function StalledWorld(bits: nat, a: Tid, p: nat, first: nat): World
  {
    World(map[], map[Key(p) := Boxed(bits, first)], {}, map[a := Freed(p)],
          [FreeRecord(p, Boxed(bits, first), Some(first))])
  }

  lemma WindowCloses(u: iset<nat>, bits: nat, a: Tid, b: Tid, p: nat, first: nat, second: nat)
    requires p in u && p != 0 && a != b
    ensures var w := StalledWorld(bits, a, p, first);
      var rest := [Malloc(b, second, Some(p)), SetObject(b), Remove(a), Lookup(b, p)];
      && Run(u, bits, w, rest)
      && After(u, bits, w, rest) == w.(heap := map[p := second], dict := map[], pcs := map[])
  {
    hide Key, Boxed;
    var w := StalledWorld(bits, a, p, first);
    var a1, a2, a3, a4 := Malloc(b, second, Some(p)), SetObject(b), Remove(a), Lookup(b, p);
    var w1 := Next(u, bits, w, a1);
    var w2 := Next(u, bits, w1, a2);
    assert w2.pcs == map[a := Freed(p)];
    var w3 := Next(u, bits, w2, a3);
    assert w3.dict == map[] && w3.pcs == map[];
    RunCons(u, bits, w3, a4, []);
    RunCons(u, bits, w2, a3, [a4]);
    RunCons(u, bits, w1, a2, [a3, a4]);
    RunCons(u, bits, w, a1, [a2, a3, a4]);
    assert [a4] + [] == [a4] && [a3] + [a4] == [a3, a4] && [a2] + [a3, a4] == [a2, a3, a4];
    assert [a1] + [a2, a3, a4] == [a1, a2, a3, a4];
  }

  /** A block being allocated can have the entry of the block before it. */
  lemma StaleEntryRun(u: iset<nat>, bits: nat, a: Tid, b: Tid, p: nat, first: nat, second: nat)
    requires p in u && p != 0 && a != b && Boxed(bits, first) != Boxed(bits, second)
    ensures var acts := Opening(a, p, first) + [Malloc(b, second, Some(p))];
      && Run(u, bits, START, acts)
      && var w := After(u, bits, START, acts);
        && Allocating(w, b, p) && Pending(w, a, p)
        && p in w.heap && Key(p) in w.dict && w.dict[Key(p)] != Boxed(bits, w.heap[p])
  {
    hide Key, Boxed;
    var w, last := StalledWorld(bits, a, p, first), Malloc(b, second, Some(p));
    RunCons(u, bits, w, last, []);
    assert [last] + [] == [last];
    WindowOpens(u, bits, a, p, first, [last]);
  }

  /** Thread b has reused p and found its number; a's removeObject is to come. */
  function CutWorld(bits: nat, a: Tid, b: Tid, p: nat, first: nat, second: nat): World
  {
    World(map[p := second], map[Key(p) := Boxed(bits, second)], {}, map[a := Freed(p), b := Found(p)],
          [FreeRecord(p, Boxed(bits, first), Some(first))])
  }

  lemma CutOpens(u: iset<nat>, bits: nat, a: Tid, b: Tid, p: nat, first: nat, second: nat, rest: seq<Action>)
    requires p in u && p != 0 && a != b
    requires Run(u, bits, CutWorld(bits, a, b, p, first, second), rest)
    ensures var w := StalledWorld(bits, a, p, first);
      var acts := [Malloc(b, second, Some(p)), SetObject(b), Lookup(b, p)] + rest;
      && Run(u, bits, w, acts)
      && After(u, bits, w, acts) == After(u, bits, CutWorld(bits, a, b, p, first, second), rest)
  {
    hide Key, Boxed;
    var w := StalledWorld(bits, a, p, first);
    var a1, a2, a3 := Malloc(b, second, Some(p)), SetObject(b), Lookup(b, p);
    var w1 := Next(u, bits, w, a1);
    var w2 := Next(u, bits, w1, a2);
    assert w2.pcs == map[a := Freed(p)] && w2.owned == {p};
    assert Next(u, bits, w2, a3) == CutWorld(bits, a, b, p, first, second);
    RunCons(u, bits, w2, a3, rest);
    RunCons(u, bits, w1, a2, [a3] + rest);
    RunCons(u, bits, w, a1, [a2] + ([a3] + rest));
    assert [a1] + ([a2] + ([a3] + rest)) == [a1, a2, a3] + rest;
  }

  lemma CutCloses(u: iset<nat>, bits: nat, a: Tid, b: Tid, p: nat, first: nat, second: nat, junk: nat)
    requires p in u && p != 0 && a != b
    ensures var w := CutWorld(bits, a, b, p, first, second);
      var rest := [Remove(a), Read(b, junk), Release(b)];
      && Run(u, bits, w, rest)
      && After(u, bits, w, rest).frees == w.frees + [FreeRecord(p, junk, Some(second))]
  {
    hide Key, Boxed;
    var w := CutWorld(bits, a, b, p, first, second);
    var a1, a2, a3 := Remove(a), Read(b, junk), Release(b);
    var w1 := Next(u, bits, w, a1);
    assert w1.dict == map[] && w1.pcs == map[b := Found(p)];
    var w2 := Next(u, bits, w1, a2);
    RunCons(u, bits, w2, a3, []);
    RunCons(u, bits, w1, a2, [a3]);
    RunCons(u, bits, w, a1, [a2, a3]);
    assert [a3] + [] == [a3] && [a2] + [a3] == [a2, a3] && [a1] + [a2, a3] == [a1, a2, a3];
  }

  /** A removal between getObject and the read: IOFree is given whatever the
      removed number's memory holds. */
  lemma JunkSizeRun(u: iset<nat>, bits: nat, a: Tid, b: Tid, p: nat, first: nat, second: nat, junk: nat)
    requires p in u && p != 0 && a != b
    ensures var acts := Opening(a, p, first)
        + [Malloc(b, second, Some(p)), SetObject(b), Lookup(b, p), Remove(a), Read(b, junk), Release(b)];
      && Run(u, bits, START, acts)
      && |After(u, bits, START, acts).frees| == 2
      && After(u, bits, START, acts).frees[1] == FreeRecord(p, junk, Some(second))
  {
    hide Key, Boxed, Run, After;
    var start := [Malloc(b, second, Some(p)), SetObject(b), Lookup(b, p)];
    var rest := [Remove(a), Read(b, junk), Release(b)];
    CutCloses(u, bits, a, b, p, first, second, junk);
    CutOpens(u, bits, a, b, p, first, second, rest);
    WindowOpens(u, bits, a, p, first, start + rest);
    assert start + rest
      == [Malloc(b, second, Some(p)), SetObject(b), Lookup(b, p), Remove(a), Read(b, junk), Release(b)];
  }

  /** For every address and any two threads there is a run that ends with a
      live block nobody owns and no entry for it. */
  lemma WindowLeaks(u: iset<nat>, bits: nat, a: Tid, b: Tid, p: nat, first: nat, second: nat)
    requires p in u && p != 0 && a != b
    ensures var acts := WindowRun(a, b, p, first, second);
      && Run(u, bits, START, acts)
      && Leaked(After(u, bits, START, acts), p)
      && After(u, bits, START, acts).dict == map[]
  {
    hide Key, Boxed;
    var rest := [Malloc(b, second, Some(p)), SetObject(b), Remove(a), Lookup(b, p)];
    WindowCloses(u, bits, a, b, p, first, second);
    WindowOpens(u, bits, a, p, first, rest);
  }

  /** No continuation of any run ever frees a leaked block. */
  lemma {:induction false} LeakIsPermanent(u: iset<nat>, bits: nat, w: World, acts: seq<Action>, p: nat)
    requires Addresses(u) && InjectiveOn(u) && Inv(u, bits, w) && Run(u, bits, w, acts)
    requires Leaked(w, p)
    ensures Leaked(After(u, bits, w, acts), p)
    decreases |acts|
  {
    hide Key, Boxed;
    if acts != [] {
      var w' := Next(u, bits, w, acts[0]);
      NextKeepsInv(u, bits, w, acts[0]);
      assert Leaked(w', p) by {
        forall t ensures !Busy(w', t, p) { assert !Busy(w, t, p); }
        assert !Busy(w, acts[0].tid, p);
      }
      LeakIsPermanent(u, bits, w', acts[1..], p);
    }
  }

  // ---- One call at a time is the sequential tracker ----------------------------

  function Sequential(w: World): State { State(w.heap, w.dict, w.frees) }

  lemma UninterruptedAlloc(u: iset<nat>, bits: nat, w: World, t: Tid, size: nat, malloced: Option<nat>)
    requires t !in w.pcs && (malloced.Some? ==> malloced.value in u && Fresh(w.heap, malloced.value, size))
    ensures var acts := [Malloc(t, size, malloced)] + if malloced.Some? then [SetObject(t)] else [];
      && Run(u, bits, w, acts)
      && var w' := After(u, bits, w, acts);
        && Sequential(w') == Step(bits, Sequential(w), OsAlloc(size, malloced))
        && w'.pcs == w.pcs
        && w'.owned == w.owned + if malloced.Some? then {malloced.value} else {}
  {
    hide Key, Boxed;
    var a1, a2 := Malloc(t, size, malloced), SetObject(t);
    var w1 := Next(u, bits, w, a1);
    if malloced.Some? {
      RunCons(u, bits, w1, a2, []);
      assert [a2] + [] == [a2];
      RunCons(u, bits, w, a1, [a2]);
    } else {
      RunCons(u, bits, w, a1, []);
    }
  }

  lemma UninterruptedFree(u: iset<nat>, bits: nat, w: World, t: Tid, p: nat, junk: nat)
    requires t !in w.pcs && p in w.owned
    ensures var acts :=
        if Key(p) in w.dict then [Lookup(t, p), Read(t, junk), Release(t), Remove(t)] else [Lookup(t, p)];
      && Run(u, bits, w, acts)
      && Sequential(After(u, bits, w, acts)) == Step(bits, Sequential(w), OsFree(p))
      && After(u, bits, w, acts).pcs == w.pcs
      && After(u, bits, w, acts).owned == w.owned - {p}
  {
    hide Key, Boxed;
    var a1, a2, a3, a4 := Lookup(t, p), Read(t, junk), Release(t), Remove(t);
    var w1 := Next(u, bits, w, a1);
    if Key(p) in w.dict {
      var w2 := Next(u, bits, w1, a2);
      var w3 := Next(u, bits, w2, a3);
      RunCons(u, bits, w3, a4, []);
      RunCons(u, bits, w2, a3, [a4]);
      RunCons(u, bits, w1, a2, [a3, a4]);
      RunCons(u, bits, w, a1, [a2, a3, a4]);
      assert [a4] + [] == [a4] && [a3] + [a4] == [a3, a4] && [a2] + [a3, a4] == [a2, a3, a4];
      assert [a1] + [a2, a3, a4] == [a1, a2, a3, a4];
    } else {
      RunCons(u, bits, w, a1, []);
      assert [a1] + [] == [a1];
    }
  }

  // ---- Every call finishes, from any state and without the other threads --------

  /** The steps that a thread inside a call has left. */
  function Rest(t: Tid, pc: Pc, junk: nat): seq<Action>
  {
    match pc
    case Allocated(_, _) => [SetObject(t)]
    case Found(_) => [Read(t, junk), Release(t), Remove(t)]
    case LookedUp(_, _) => [Release(t), Remove(t)]
    case Freed(_) => [Remove(t)]
  }

  lemma AllocationFinishes(u: iset<nat>, bits: nat, w: World, t: Tid, junk: nat)
    requires t in w.pcs && w.pcs[t].Allocated?
    ensures var acts, p := Rest(t, w.pcs[t], junk), w.pcs[t].ptr;
      && Run(u, bits, w, acts)
      && var w' := After(u, bits, w, acts);
        && w'.pcs == w.pcs - {t} && w'.heap == w.heap && w'.frees == w.frees
        && w'.owned == w.owned + {p} && w'.dict == w.dict[Key(p) := w.pcs[t].size % Pow2(bits)]
  {
    hide Key, Pow2;
    RunCons(u, bits, w, SetObject(t), []);
    assert [SetObject(t)] + [] == [SetObject(t)];
  }

  lemma RemovalFinishes(u: iset<nat>, bits: nat, w: World, t: Tid)
    requires t in w.pcs && w.pcs[t].Freed?
    ensures var acts, p := [Remove(t)], w.pcs[t].ptr;
      && Run(u, bits, w, acts)
      && After(u, bits, w, acts) == w.(pcs := w.pcs - {t}, dict := w.dict - {Key(p)})
  {
    hide Key;
    RunCons(u, bits, w, Remove(t), []);
    assert [Remove(t)] + [] == [Remove(t)];
  }

  lemma ReleaseFinishes(u: iset<nat>, bits: nat, w: World, t: Tid)
    requires t in w.pcs && w.pcs[t].LookedUp?
    ensures var acts, p := [Release(t), Remove(t)], w.pcs[t].ptr;
      && Run(u, bits, w, acts)
      && var w' := After(u, bits, w, acts);
        && w'.pcs == w.pcs - {t} && w'.heap == w.heap - {p}
        && w'.owned == w.owned && w'.dict == w.dict - {Key(p)}
        && w'.frees == w.frees
             + [FreeRecord(p, w.pcs[t].size, if p in w.heap then Some(w.heap[p]) else None)]
  {
    hide Key;
    var w1 := Next(u, bits, w, Release(t));
    RemovalFinishes(u, bits, w1, t);
    RunCons(u, bits, w, Release(t), [Remove(t)]);
    assert w1.pcs - {t} == w.pcs - {t};
    assert [Release(t)] + [Remove(t)] == [Release(t), Remove(t)];
  }

  /** From any state a thread that has begun to free ends with its block freed,
      with the size it has, or will read, and with the key removed, whoever's
      entry that is by then. */
  lemma FreeFinishes(u: iset<nat>, bits: nat, w: World, t: Tid, junk: nat)
    requires t in w.pcs && !w.pcs[t].Allocated?
    ensures var acts, pc := Rest(t, w.pcs[t], junk), w.pcs[t];
      && Run(u, bits, w, acts)
      && var w' := After(u, bits, w, acts);
        && w'.pcs == w.pcs - {t} && w'.owned == w.owned && w'.dict == w.dict - {Key(pc.ptr)}
        && w'.heap == (if pc.Freed? then w.heap else w.heap - {pc.ptr})
        && (pc.Freed? ==> w'.frees == w.frees)
        && (!pc.Freed? ==>
              var passed := if pc.LookedUp? then pc.size else if Key(pc.ptr) in w.dict then w.dict[Key(pc.ptr)] else junk;
              w'.frees == w.frees
                + [FreeRecord(pc.ptr, passed, if pc.ptr in w.heap then Some(w.heap[pc.ptr]) else None)])
  {
    hide Key, Run, After;
    match w.pcs[t] {
      case Freed(_) => RemovalFinishes(u, bits, w, t);
      case LookedUp(_, _) => ReleaseFinishes(u, bits, w, t);
      case Found(_) =>
        var w1 := Next(u, bits, w, Read(t, junk));
        ReleaseFinishes(u, bits, w1, t);
        RunCons(u, bits, w, Read(t, junk), [Release(t), Remove(t)]);
        assert w1.pcs - {t} == w.pcs - {t};
        assert [Read(t, junk)] + [Release(t), Remove(t)] == Rest(t, w.pcs[t], junk);
    }
  }
}
