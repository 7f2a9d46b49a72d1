/** `os_map_kernel_space` and `os_unmap_kernel_space`: a dictionary from printed
    addresses to retained mapping objects.  DriverKit keys a mapping by its
    virtual address, the kernel extension by its physical address. */
module MapRegistry {
  import opened NvTypes
  import opened PointerKey
  import opened BarTable

  datatype Mapping = Mapping(address: nat, refs: nat)

  datatype Mem = Mem(
    dict: map<string, nat>,  // global_mapped_memory: key -> index of a mapping
    maps: seq<Mapping>,      // every mapping object created so far
    descs: seq<nat>)         // reference counts of the device memory descriptors

  predicate Registered(m: Mem, i: nat)
    requires i < |m.maps|
  {
    Key(m.maps[i].address) in m.dict && m.dict[Key(m.maps[i].address)] == i
  }

  /** A registered mapping has one reference, the registry's; every other
      mapping has none; no descriptor reference is left. */
  ghost predicate Inv(m: Mem)
  {
    && (forall k :: k in m.dict ==> m.dict[k] < |m.maps| && k == Key(m.maps[m.dict[k]].address))
    && (forall i :: 0 <= i < |m.maps| ==> m.maps[i].refs == if Registered(m, i) then 1 else 0)
    && (forall i :: 0 <= i < |m.descs| ==> m.descs[i] == 0)
  }

  function Dropped(maps: seq<Mapping>, i: nat): seq<Mapping>
  {
    if i < |maps| then maps[i := maps[i].(refs := 0)] else maps
  }

  /** A new mapping under its key; a mapping already there loses its reference. */
  function Register(m: Mem, a: nat): Mem
  {
    var kept := if Key(a) in m.dict then Dropped(m.maps, m.dict[Key(a)]) else m.maps;
    m.(dict := m.dict[Key(a) := |m.maps|], maps := kept + [Mapping(a, 1)])
  }

  function Unregister(m: Mem, a: nat): Mem
  {
    if Key(a) in m.dict then
      m.(dict := m.dict - {Key(a)}, maps := Dropped(m.maps, m.dict[Key(a)]))
    else m
  }

  /** A device memory descriptor that was obtained and released. */
  function WithDescriptor(m: Mem, copied: bool): Mem { if copied then m.(descs := m.descs + [0]) else m }

  lemma WithDescriptorKeepsInv(m: Mem, copied: bool)
    requires Inv(m)
    ensures Inv(WithDescriptor(m, copied))
  {
  }

  /** Registering replaces the entry of the address's key and no other, by a new
      mapping at the address with one reference; the mapping replaced, if any,
      loses its reference, and no other mapping changes. */
  lemma RegisterEffect(m: Mem, a: nat)
    requires Inv(m)
    ensures var m', n := Register(m, a), |m.maps|;
      && m'.dict.Keys == m.dict.Keys + {Key(a)} && m'.dict[Key(a)] == n
      && (forall k :: k in m.dict && k != Key(a) ==> m'.dict[k] == m.dict[k])
      && |m'.maps| == n + 1 && m'.maps[n].address == a && m'.maps[n].refs == 1
      && (forall i :: 0 <= i < n ==> m'.maps[i].address == m.maps[i].address)
      && (forall i :: 0 <= i < n ==>
            m'.maps[i].refs == if Key(m.maps[i].address) == Key(a) then 0 else m.maps[i].refs)
      && m'.descs == m.descs
  {
    hide Key;
    forall i | 0 <= i < |m.maps| && Key(m.maps[i].address) == Key(a)
      ensures Register(m, a).maps[i].refs == 0
    {
      assert m.maps[i].refs == if Registered(m, i) then 1 else 0;
    }
  }

  /** Unregistering is registering undone: the key and its mapping's reference
      go, nothing else changes. */
  lemma UnregisterEffect(m: Mem, a: nat)
    requires Inv(m)
    ensures var m' := Unregister(m, a);
      && m'.dict == m.dict - {Key(a)} && |m'.maps| == |m.maps| && m'.descs == m.descs
      && (forall i :: 0 <= i < |m.maps| ==> m'.maps[i].address == m.maps[i].address)
      && (forall i :: 0 <= i < |m.maps| ==>
            m'.maps[i].refs == if Key(m.maps[i].address) == Key(a) then 0 else m.maps[i].refs)
  {
    hide Key;
    forall i | 0 <= i < |m.maps| && Key(m.maps[i].address) == Key(a)
      ensures Unregister(m, a).maps[i].refs == 0
    {
      assert m.maps[i].refs == if Registered(m, i) then 1 else 0;
    }
  }

  lemma RegisterKeepsInv(m: Mem, a: nat)
    requires Inv(m)
    ensures Inv(Register(m, a))
  {
    hide Key;
    var m' := Register(m, a);
    forall i | 0 <= i < |m'.maps| ensures m'.maps[i].refs == if Registered(m', i) then 1 else 0 {
      assert i < |m.maps| ==> m'.maps[i].address == m.maps[i].address;
    }
  }

  lemma UnregisterKeepsInv(m: Mem, a: nat)
    requires Inv(m)
    ensures Inv(Unregister(m, a))
  {
    hide Key;
    var m' := Unregister(m, a);
    forall i | 0 <= i < |m'.maps| ensures m'.maps[i].refs == if Registered(m', i) then 1 else 0 {
      assert m'.maps[i].address == m.maps[i].address;
    }
  }

  // ---- The imperative code -------------------------------------------------

  datatype CacheMode = CACHED | WRITECOMBINED | WRITEBACK | UNCACHED | DEFAULT | UNKNOWN

  class MappedMemory {
    var globalMappedMemory: map<string, nat>
    var maps: seq<Mapping>
    var descs: seq<nat>

    function Abs(): Mem reads this { Mem(globalMappedMemory, maps, descs) }

    ghost predicate Valid() reads this { Inv(Abs()) }

    constructor ()
      ensures Valid() && Abs() == Mem(map[], [], [])
    {
      globalMappedMemory, maps, descs := map[], [], [];
    }

    /** `setObject` retains the new value and releases the one it replaces. */
    method SetObject(key: string, i: nat)
      requires i < |maps|
      requires key in globalMappedMemory ==>
        globalMappedMemory[key] < |maps| && globalMappedMemory[key] != i && maps[globalMappedMemory[key]].refs > 0
      modifies this`globalMappedMemory, this`maps
      ensures globalMappedMemory == old(globalMappedMemory)[key := i]
      ensures |maps| == |old(maps)|
      ensures forall j :: 0 <= j < |maps| ==> maps[j] == old(maps)[j].(refs :=
                if j == i then old(maps)[j].refs + 1
                else if key in old(globalMappedMemory) && j == old(globalMappedMemory)[key] then old(maps)[j].refs - 1
                else old(maps)[j].refs)
    {
      maps := maps[i := maps[i].(refs := maps[i].refs + 1)];
      if key in globalMappedMemory {
        var o := globalMappedMemory[key];
        maps := maps[o := maps[o].(refs := maps[o].refs - 1)];
      }
      globalMappedMemory := globalMappedMemory[key := i];
    }

    /** Registers a mapping just created, then gives up the creator's reference. */
    method KeepMapping(address: nat)
      requires Valid()
      modifies this`globalMappedMemory, this`maps
      ensures Valid() && Abs() == Register(old(Abs()), address)
    {
      ghost var before := Abs();
      var i := |maps|;
      maps := maps + [Mapping(address, 1)];
      var keyName := Key(address);
      assert keyName in globalMappedMemory ==>
        Registered(before, globalMappedMemory[keyName]) && before.maps[globalMappedMemory[keyName]].refs == 1;
      SetObject(keyName, i);
      maps := maps[i := maps[i].(refs := maps[i].refs - 1)];
      assert maps == Register(before, address).maps;
      RegisterKeepsInv(before, address);
    }

    /** DriverKit.  For a memory index `copied` says whether the device gave its
        memory descriptor, and `mapped` is the address at which CreateMapping
        placed it, if it did. */
    method OsMapKernelSpace(bars: array<Aperture>, start: nat, copied: nat -> bool, mapped: nat -> Option<nat>)
      returns (address: Option<nat>)
      requires Valid() && bars.Length <= NOT_FOUND
      modifies this
      ensures Valid()
      ensures forall r :: FoundAt(bars[..], start, r) ==>
        && (address.Some? <==> r != NOT_FOUND && copied(r) && mapped(r).Some?)
        && (address.Some? ==>
              address == mapped(r) && Abs() == Register(WithDescriptor(old(Abs()), true), address.value))
        && (address.None? ==> globalMappedMemory == old(globalMappedMemory) && maps == old(maps))
        && descs == old(descs) + if r != NOT_FOUND && copied(r) then [0] else []
    {
      hide Key, Inv, Register;
      var memoryIndex := FindBar(bars, start);
      if memoryIndex == NOT_FOUND {
        return None;
      }
      if !copied(memoryIndex) {
        return None;
      }
      var d := |descs|;
      descs := descs + [1];
      WithDescriptorKeepsInv(old(Abs()), true);
      var mapping := mapped(memoryIndex);
      if mapping.None? {
        descs := descs[d := descs[d] - 1];
        assert Abs() == WithDescriptor(old(Abs()), true);
        return None;
      }
      descs := descs[d := descs[d] - 1];
      assert Abs() == WithDescriptor(old(Abs()), true);
      KeepMapping(mapping.value);
      return mapping;
    }

    /** The kernel extension: `physical` gives the physical address of the
        memory with an index.  An unlisted cache mode is refused. */
    method KernelMapKernelSpace(bars: array<Aperture>, start: nat, mode: CacheMode, physical: nat -> nat)
      returns (address: Option<nat>)
      requires Valid() && bars.Length <= NOT_FOUND
      modifies this
      ensures Valid()
      ensures forall r :: FoundAt(bars[..], start, r) ==>
        && (address.Some? <==> r != NOT_FOUND && mode !in {WRITEBACK, UNKNOWN})
        && (address.Some? ==> address == Some(physical(r)) && Abs() == Register(old(Abs()), physical(r)))
        && (address.None? ==> Abs() == old(Abs()))
    {
      var memoryIndex := FindBar(bars, start);
      if memoryIndex == NOT_FOUND {
        return None;
      }
      match mode {
        case CACHED | WRITECOMBINED | UNCACHED | DEFAULT =>
        case WRITEBACK | UNKNOWN => return None;
      }
      KeepMapping(physical(memoryIndex));
      return Some(physical(memoryIndex));
    }

    method OsUnmapKernelSpace(address: nat)
      requires Valid()
      modifies this
      ensures Valid() && Abs() == Unregister(old(Abs()), address)
      ensures globalMappedMemory == old(globalMappedMemory) - {Key(address)} && descs == old(descs)
    {
      var keyName := Key(address);
      if keyName !in globalMappedMemory {
        return;
      }
      var i := globalMappedMemory[keyName];
      assert Registered(Abs(), i);
      globalMappedMemory := globalMappedMemory - {keyName};
      maps := maps[i := maps[i].(refs := maps[i].refs - 1)];
      UnregisterKeepsInv(old(Abs()), address);
    }
  }

  // ---- Runs: what callers hold against what is referenced --------------------

  /** `copied`: the call obtained a device memory descriptor and, by its exit,
      released it.  The kernel extension never obtains one. */
  datatype Event =
    | Map(address: nat, copied: bool)
    | MapFailed(copied: bool)
    | Unmap(address: nat)

  ghost predicate EventIn(u: iset<nat>, e: Event) { !e.MapFailed? ==> e.address in u }

  /** `claims` counts, per address, the maps that callers were handed and have
      not yet unmapped. */
  datatype World = World(mem: Mem, claims: multiset<nat>)

  ghost predicate Good(u: iset<nat>, w: World)
  {
    Inv(w.mem) && forall i :: 0 <= i < |w.mem.maps| ==> w.mem.maps[i].address in u
  }

  function Next(w: World, e: Event): World
  {
    match e
    case Map(a, copied) => World(Register(WithDescriptor(w.mem, copied), a), w.claims + multiset{a})
    case MapFailed(copied) => w.(mem := WithDescriptor(w.mem, copied))
    case Unmap(a) => World(Unregister(w.mem, a), w.claims - multiset{a})
  }

  lemma NextIsGood(u: iset<nat>, w: World, e: Event)
    requires Good(u, w) && EventIn(u, e)
    ensures Good(u, Next(w, e))
  {
    hide Key;
    if e.Map? { RegisterKeepsInv(WithDescriptor(w.mem, e.copied), e.address); }
    if e.Unmap? { UnregisterKeepsInv(w.mem, e.address); }
  }

  function After(w: World, es: seq<Event>): World
    decreases |es|
  {
    if es == [] then w else After(Next(w, es[0]), es[1..])
  }

  ghost predicate InUniverse(u: iset<nat>, es: seq<Event>) { forall i :: 0 <= i < |es| ==> EventIn(u, es[i]) }

  /** Over every run with every failure exit: a registered mapping has exactly
      one reference, any other mapping has none, no descriptor has one. */
  lemma {:induction false} ReferencesOverRuns(u: iset<nat>, w: World, es: seq<Event>)
    requires Good(u, w) && InUniverse(u, es)
    ensures Good(u, After(w, es))
    decreases |es|
  {
    hide Key, Inv;
    if es != [] {
      NextIsGood(u, w, es[0]);
      ReferencesOverRuns(u, Next(w, es[0]), es[1..]);
    }
  }

  /** References held by all mappings at an address. */
  function RefsAt(maps: seq<Mapping>, a: nat): nat
  {
    if maps == [] then 0
    else RefsAt(maps[..|maps| - 1], a) + if maps[|maps| - 1].address == a then maps[|maps| - 1].refs else 0
  }

  predicate HasEntry(m: Mem, a: nat) { Key(a) in m.dict }

  lemma {:induction false} RefsBelow(u: iset<nat>, m: Mem, a: nat, n: nat)
    requires InjectiveOn(u) && a in u && Good(u, World(m, multiset{})) && n <= |m.maps|
    ensures RefsAt(m.maps[..n], a) == if HasEntry(m, a) && m.dict[Key(a)] < n then 1 else 0
  {
    hide Key;
    if n > 0 {
      RefsBelow(u, m, a, n - 1);
      assert m.maps[..n][..n - 1] == m.maps[..n - 1];
      assert m.maps[n - 1].address in u;
      assert m.maps[n - 1].refs == if Registered(m, n - 1) then 1 else 0;
    }
  }

  /** The registry's entry is the only reference an address can have. */
  lemma RefsAreEntries(u: iset<nat>, m: Mem, a: nat)
    requires InjectiveOn(u) && a in u && Good(u, World(m, multiset{}))
    ensures RefsAt(m.maps, a) == if HasEntry(m, a) then 1 else 0
  {
    hide Key;
    RefsBelow(u, m, a, |m.maps|);
    assert m.maps[..|m.maps|] == m.maps;
  }

  /** Every outstanding map is backed by a reference of its own. */
  ghost predicate Backed(u: iset<nat>, w: World)
  {
    forall a :: a in u ==> w.claims[a] == RefsAt(w.mem.maps, a)
  }

  ghost predicate SingleClaims(u: iset<nat>, w: World) { forall a :: a in u ==> w.claims[a] <= 1 }

  lemma BackedImpliesSingle(u: iset<nat>, w: World)
    requires InjectiveOn(u) && Good(u, w) && Backed(u, w)
    ensures SingleClaims(u, w)
  {
    hide Key, Inv;
    forall a | a in u ensures w.claims[a] <= 1 { RefsAreEntries(u, w.mem, a); }
  }

  lemma SingleStaysBacked(u: iset<nat>, w: World, e: Event)
    requires InjectiveOn(u) && Good(u, w) && Backed(u, w) && EventIn(u, e)
    requires SingleClaims(u, Next(w, e))
    ensures Backed(u, Next(w, e))
  {
    hide Key, Inv;
    NextIsGood(u, w, e);
    forall a | a in u ensures Next(w, e).claims[a] == RefsAt(Next(w, e).mem.maps, a) {
      RefsAreEntries(u, w.mem, a);
      RefsAreEntries(u, Next(w, e).mem, a);
      if !e.MapFailed? { assert a == e.address <==> Key(a) == Key(e.address); }
    }
  }

  ghost predicate BackedThroughout(u: iset<nat>, w: World, es: seq<Event>)
    decreases |es|
  {
    Backed(u, w) && (es != [] ==> BackedThroughout(u, Next(w, es[0]), es[1..]))
  }

  ghost predicate SingleThroughout(u: iset<nat>, w: World, es: seq<Event>)
    decreases |es|
  {
    SingleClaims(u, w) && (es != [] ==> SingleThroughout(u, Next(w, es[0]), es[1..]))
  }

  /** Over every run: the references match what callers hold in every state
      exactly when no address is ever mapped twice without an unmap between. */
  lemma {:induction false} BackedThroughoutIff(u: iset<nat>, w: World, es: seq<Event>)
    requires InjectiveOn(u) && Good(u, w) && Backed(u, w) && InUniverse(u, es)
    ensures BackedThroughout(u, w, es) <==> SingleThroughout(u, w, es)
    decreases |es|
  {
    hide Key, Inv;
    BackedImpliesSingle(u, w);
    if es != [] {
      var w' := Next(w, es[0]);
      NextIsGood(u, w, es[0]);
      if SingleClaims(u, w') { SingleStaysBacked(u, w, es[0]); }
      if Backed(u, w') { BackedThroughoutIff(u, w', es[1..]); }
    }
  }

  // ---- DriverKit: a mapping's own virtual address ------------------------------

  /** CreateMapping places a mapping where no referenced mapping lies. */
  ghost predicate FreshRun(w: World, es: seq<Event>)
    decreases |es|
  {
    es != [] ==>
      && (es[0].Map? ==> RefsAt(w.mem.maps, es[0].address) == 0)
      && FreshRun(Next(w, es[0]), es[1..])
  }

  /** Keyed by virtual address, every run is backed throughout. */
  lemma {:induction false} DriverKitAlwaysBacked(u: iset<nat>, w: World, es: seq<Event>)
    requires InjectiveOn(u) && Good(u, w) && Backed(u, w) && InUniverse(u, es) && FreshRun(w, es)
    ensures BackedThroughout(u, w, es)
    decreases |es|
  {
    hide Key, Inv;
    BackedImpliesSingle(u, w);
    if es != [] {
      NextIsGood(u, w, es[0]);
      assert SingleClaims(u, Next(w, es[0]));
      SingleStaysBacked(u, w, es[0]);
      DriverKitAlwaysBacked(u, Next(w, es[0]), es[1..]);
    }
  }

  // ---- Kernel: one physical address per BAR -----------------------------------

  function Repeated(w: World, a: nat, n: nat): World
  {
    if n == 0 then w else Next(Repeated(w, a, n - 1), Map(a, false))
  }

  /** n maps of one BAR leave n claims and one reference; one unmap takes it. */
  lemma {:induction false} RepeatedMapsCollapse(u: iset<nat>, w: World, a: nat, n: nat)
    requires InjectiveOn(u) && Good(u, w) && a in u && n > 0
    ensures var w' := Repeated(w, a, n);
      && Good(u, w')
      && w'.claims[a] == w.claims[a] + n
      && RefsAt(w'.mem.maps, a) == 1
      && RefsAt(Next(w', Unmap(a)).mem.maps, a) == 0
      && Next(w', Unmap(a)).claims[a] == w.claims[a] + n - 1
  {
    hide Key, Inv;
    var before := Repeated(w, a, n - 1);
    if n > 1 { RepeatedMapsCollapse(u, w, a, n - 1); }
    var w' := Next(before, Map(a, false));
    NextIsGood(u, before, Map(a, false));
    NextIsGood(u, w', Unmap(a));
    RefsAreEntries(u, w'.mem, a);
    RefsAreEntries(u, Next(w', Unmap(a)).mem, a);
  }
}
