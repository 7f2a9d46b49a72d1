/** The DriverKit service: `init`, `Start`, `Stop` and `free` against the PCI
    devices they open, close, retain and release. */
module Lifecycle {
  import opened NvTypes

  type Device = nat

  datatype State = State(
    present: bool,            // nvd_state != NULL
    device: Option<Device>,     // nvd_state->device
    open: set<Device>,          // devices this service has open
    retains: multiset<Device>)  // references it took and did not release

  const START: State := State(false, None, {}, multiset{})

  /** What the calls made by Start came to. */
  datatype StartOutcome = SuperFailed | NotPciDevice | OpenFailed | Opened(device: Device)

  datatype Call = Init(ok: bool) | Start(outcome: StartOutcome) | Stop | Free

  function AfterStop(s: State): State
  {
    match s.device
    case None => s
    case Some(d) => s.(open := s.open - {d}, device := None)
  }

  function Step(s: State, c: Call): State
  {
    match c
    case Init(ok) => if ok then s.(present := true, device := None) else s
    case Start(Opened(d)) => s.(device := Some(d), open := s.open + {d}, retains := s.retains + multiset{d})
    case Start(_) => AfterStop(s)
    case Stop => AfterStop(s)
    case Free =>
      s.(present := false, device := None,
         retains := if s.device.Some? then s.retains - multiset{s.device.value} else s.retains)
  }

  /** init comes first and free last.  Start, Stop and free follow the pointer
      that a successful init sets and free clears; without it a run ends in a
      fault. */
  predicate Enabled(s: State, c: Call) { c.Init? <==> !s.present }

  // ---- The imperative code ---------------------------------------------------

  datatype KernReturn = KERN_SUCCESS | SuperError | KIO_RETURN_NO_DEVICE

  class PciHorrorKit {
    var present: bool
    var device: Option<Device>
    var open: set<Device>
    var retains: multiset<Device>

    function Abs(): State reads this { State(present, device, open, retains) }

    constructor ()
      ensures Abs() == START
    {
      present, device, open, retains := false, None, {}, multiset{};
    }

    /** `superOk`: super::init succeeded; `newOk`: the state could be allocated. */
    method Init(superOk: bool, newOk: bool) returns (ret: bool)
      requires !present
      modifies this
      ensures ret == (superOk && newOk) && Abs() == Step(old(Abs()), Call.Init(ret))
      ensures !ret ==> Abs() == old(Abs())
      ensures ret ==> present && device == None && open == old(open) && retains == old(retains)
    {
      if !superOk { return false; }
      if !newOk { return false; }
      present, device := true, None;
      return true;
    }

    /** Called whenever the service goes away, also after an init that failed:
        then `nvd_state` is null and reading its device field faults. */
    method Free() returns (faulted: bool)
      modifies this
      ensures faulted == !old(present)
      ensures Abs() == if faulted then old(Abs()) else Step(old(Abs()), Call.Free)
      ensures !present && open == old(open) && (!faulted ==> device == None)
      ensures !faulted ==>
        retains == if old(device).Some? then old(retains) - multiset{old(device).value} else old(retains)
    {
      if !present { return true; }
      var globalDevice := device;
      if globalDevice.Some? { retains := retains - multiset{globalDevice.value}; }
      present, device := false, None;
      return false;
    }

    method Stop()
      requires present
      modifies this
      ensures Abs() == Step(old(Abs()), Call.Stop)
      ensures present && device == None && retains == old(retains)
      ensures open == if old(device).Some? then old(open) - {old(device).value} else old(open)
    {
      if device != None {
        open := open - {device.value};
        device := None;
      }
    }

    method Start(outcome: StartOutcome) returns (ret: KernReturn)
      requires present
      modifies this
      ensures Abs() == Step(old(Abs()), Call.Start(outcome))
      ensures outcome.Opened? ==>
        && present && device == Some(outcome.device) && open == old(open) + {outcome.device}
        && retains == old(retains) + multiset{outcome.device}
      ensures !outcome.Opened? ==>
        && present && device == None && retains == old(retains)
        && open == if old(device).Some? then old(open) - {old(device).value} else old(open)
      ensures ret == if outcome.Opened? then KERN_SUCCESS
                     else if outcome.SuperFailed? then SuperError else KIO_RETURN_NO_DEVICE
    {
      if outcome.SuperFailed? { Stop(); return SuperError; }
      if outcome.NotPciDevice? { Stop(); return KIO_RETURN_NO_DEVICE; }
      if outcome.OpenFailed? { Stop(); return KIO_RETURN_NO_DEVICE; }
      var potentialDevice := outcome.device;
      open := open + {potentialDevice};
      device := Some(potentialDevice);
      retains := retains + multiset{potentialDevice};
      return KERN_SUCCESS;
    }
  }

  // ---- Runs --------------------------------------------------------------------

  predicate Run(s: State, cs: seq<Call>)
    decreases |cs|
  {
    cs != [] ==> Enabled(s, cs[0]) && Run(Step(s, cs[0]), cs[1..])
  }

  function After(s: State, cs: seq<Call>): State
    decreases |cs|
  {
    if cs == [] then s else After(Step(s, cs[0]), cs[1..])
  }

  function One(b: bool): nat { if b then 1 else 0 }

  /** Inits that succeeded. */
  function Inits(cs: seq<Call>): nat
    decreases |cs|
  {
    if cs == [] then 0 else One(cs[0] == Init(true)) + Inits(cs[1..])
  }

  function Frees(cs: seq<Call>): nat
    decreases |cs|
  {
    if cs == [] then 0 else One(cs[0].Free?) + Frees(cs[1..])
  }

  /** Over every run the state is there exactly when one more init has
      succeeded than free was called: free takes it, and nothing else does. */
  lemma {:induction false} StateLedger(s: State, cs: seq<Call>)
    requires Run(s, cs)
    ensures One(After(s, cs).present) == One(s.present) + Inits(cs) - Frees(cs)
    decreases |cs|
  {
    if cs != [] { StateLedger(Step(s, cs[0]), cs[1..]); }
  }

  /** After free, as after an init that failed, only init can be called: a
      second free, a Start or a Stop faults.  After an init that succeeded
      anything but init can. */
  lemma AfterFree(c: Call)
    ensures Run(START, [Init(true), Free, Init(true)])
    ensures Run(START, [Init(true), Free, c]) <==> c.Init?
    ensures Run(START, [Init(false), c]) <==> c.Init?
    ensures Run(START, [Init(true), c]) <==> !c.Init?
  {
    TwoCallsRun(START, Init(false), c);
    TwoCallsRun(START, Init(true), c);
    ThreeCallsRun(START, Init(true), Free, c);
    ThreeCallsRun(START, Init(true), Free, Init(true));
  }

  lemma TwoCallsRun(s: State, c1: Call, c2: Call)
    ensures Run(s, [c1, c2]) <==> Enabled(s, c1) && Enabled(Step(s, c1), c2)
  {
    assert [c1, c2][1..] == [c2] && [c2][1..] == [];
    assert Run(Step(s, c1), [c2]) <==> Enabled(Step(s, c1), c2);
  }

  lemma ThreeCallsRun(s: State, c1: Call, c2: Call, c3: Call)
    ensures Run(s, [c1, c2, c3]) <==> Enabled(s, c1) && Enabled(Step(s, c1), c2) && Enabled(Step(Step(s, c1), c2), c3)
  {
    assert [c1, c2, c3][1..] == [c2, c3];
    TwoCallsRun(Step(s, c1), c2, c3);
  }

  /** Without state there is no device field; a device in the field is retained. */
  predicate Inv(s: State)
  {
    && (!s.present ==> s.device == None)
    && (s.device.Some? ==> s.device.value in s.retains)
  }

  /** The field names exactly the device that is open. */
  predicate Sync(s: State) { s.open == if s.device.Some? then {s.device.value} else {} }

  /** Calls that part the field from the open device: starting on a second
      device, and freeing while a device is in the field. */
  predicate Parts(s: State, c: Call)
  {
    || (c.Start? && c.outcome.Opened? && s.device.Some? && s.device.value != c.outcome.device)
    || (c.Free? && s.device.Some?)
  }

  lemma SyncNextIff(s: State, c: Call)
    requires Inv(s) && Enabled(s, c) && Sync(s)
    ensures Inv(Step(s, c))
    ensures Sync(Step(s, c)) <==> !Parts(s, c)
  {
    if s.device.Some? { assert s.device.value in s.open; }
  }

  predicate SyncThroughout(s: State, cs: seq<Call>)
    decreases |cs|
  {
    Sync(s) && (cs != [] ==> SyncThroughout(Step(s, cs[0]), cs[1..]))
  }

  predicate NeverParts(s: State, cs: seq<Call>)
    decreases |cs|
  {
    cs != [] ==> !Parts(s, cs[0]) && NeverParts(Step(s, cs[0]), cs[1..])
  }

  /** At every call boundary of a run the device field is non-null exactly when
      its device, and no other, is open: exactly when no call parts them. */
  lemma {:induction false} SyncThroughoutIff(s: State, cs: seq<Call>)
    requires Inv(s) && Sync(s) && Run(s, cs)
    ensures SyncThroughout(s, cs) <==> NeverParts(s, cs)
    decreases |cs|
  {
    if cs != [] {
      SyncNextIff(s, cs[0]);
      if !Parts(s, cs[0]) { SyncThroughoutIff(Step(s, cs[0]), cs[1..]); }
    }
  }

  /** Freed without Stop, a device stays open with no field naming it. */
  lemma FreeLeavesOpen(d: Device)
    ensures var cs := [Init(true), Start(Opened(d)), Free];
      && Run(START, cs)
      && After(START, cs).open == {d} && After(START, cs).device == None
  {
    var c1, c2, c3 := Init(true), Start(Opened(d)), Free;
    ThreeCalls(START, c1, c2, c3);
  }

  /** Started on a second device, the first stays open beside it. */
  lemma SecondStartLeavesOpen(d: Device, e: Device)
    requires d != e
    ensures var cs := [Init(true), Start(Opened(d)), Start(Opened(e))];
      && Run(START, cs)
      && After(START, cs).open == {d, e} && After(START, cs).device == Some(e)
  {
    var c1, c2, c3 := Init(true), Start(Opened(d)), Start(Opened(e));
    ThreeCalls(START, c1, c2, c3);
  }

  lemma ThreeCalls(s: State, c1: Call, c2: Call, c3: Call)
    requires Enabled(s, c1) && Enabled(Step(s, c1), c2) && Enabled(Step(Step(s, c1), c2), c3)
    ensures Run(s, [c1, c2, c3]) && After(s, [c1, c2, c3]) == Step(Step(Step(s, c1), c2), c3)
  {
    hide Step;
    assert [c1, c2, c3][1..] == [c2, c3] && [c2, c3][1..] == [c3] && [c3][1..] == [];
    var s1, s2 := Step(s, c1), Step(Step(s, c1), c2);
    assert Run(s2, [c3]) && After(s2, [c3]) == Step(s2, c3);
    assert Run(s1, [c2, c3]) && After(s1, [c2, c3]) == Step(s2, c3);
  }

  // ---- The ledger of retains -----------------------------------------------------

  /** Starts that reached the retain of d. */
  function Starts(cs: seq<Call>, d: Device): nat
    decreases |cs|
  {
    if cs == [] then 0 else One(cs[0] == Start(Opened(d))) + Starts(cs[1..], d)
  }

  /** Frees that found d in the field. */
  function FreesOf(s: State, cs: seq<Call>, d: Device): nat
    decreases |cs|
  {
    if cs == [] then 0
    else One(cs[0].Free? && s.device == Some(d)) + FreesOf(Step(s, cs[0]), cs[1..], d)
  }

  /** Stops, called or entered from a failed Start, that closed d. */
  function Closes(s: State, cs: seq<Call>, d: Device): nat
    decreases |cs|
  {
    if cs == [] then 0
    else
      One((cs[0].Stop? || (cs[0].Start? && !cs[0].outcome.Opened?)) && s.device == Some(d))
      + Closes(Step(s, cs[0]), cs[1..], d)
  }

  /** Starts that replaced d in the field. */
  function Replacements(s: State, cs: seq<Call>, d: Device): nat
    decreases |cs|
  {
    if cs == [] then 0
    else
      One(cs[0].Start? && cs[0].outcome.Opened? && s.device == Some(d))
      + Replacements(Step(s, cs[0]), cs[1..], d)
  }

  lemma InvStep(s: State, c: Call)
    requires Inv(s) && Enabled(s, c)
    ensures Inv(Step(s, c))
  {
  }

  lemma RetainStep(s: State, c: Call, d: Device)
    requires Inv(s) && Enabled(s, c)
    ensures Step(s, c).retains[d] + One(c.Free? && s.device == Some(d)) == s.retains[d] + One(c == Start(Opened(d)))
  {
  }

  lemma FieldStep(s: State, c: Call, d: Device)
    requires Inv(s) && Enabled(s, c)
    ensures One(Step(s, c).device == Some(d)) == One(s.device == Some(d))
      + One(c == Start(Opened(d))) - One(c.Free? && s.device == Some(d))
      - One((c.Stop? || (c.Start? && !c.outcome.Opened?)) && s.device == Some(d))
      - One(c.Start? && c.outcome.Opened? && s.device == Some(d))
  {
  }

  /** Over every run and for every device: retains taken and not released are
      the starts that reached the retain minus the frees that saw the device;
      and each of them belongs to a close, a replacement, or the field. */
  lemma {:induction false} RetainLedger(s: State, cs: seq<Call>, d: Device)
    requires Inv(s) && Run(s, cs)
    ensures var s' := After(s, cs);
      && Inv(s')
      && s'.retains[d] == s.retains[d] + Starts(cs, d) - FreesOf(s, cs, d)
      && s'.retains[d] - One(s'.device == Some(d)) ==
           s.retains[d] - One(s.device == Some(d)) + Closes(s, cs, d) + Replacements(s, cs, d)
    decreases |cs|
  {
    if cs != [] {
      InvStep(s, cs[0]);
      RetainStep(s, cs[0], d);
      FieldStep(s, cs[0], d);
      RetainLedger(Step(s, cs[0]), cs[1..], d);
    }
  }

  lemma {:induction false} OpenUntilClosed(s: State, cs: seq<Call>, d: Device)
    requires Run(s, cs) && Closes(s, cs, d) == 0
    requires d in s.open || Starts(cs, d) > 0
    ensures d in After(s, cs).open
    decreases |cs|
  {
    if cs != [] { OpenUntilClosed(Step(s, cs[0]), cs[1..], d); }
  }

  /** No run both closes a started device and drops all its retains. */
  lemma NeverBothClosedAndReleased(cs: seq<Call>, d: Device)
    requires Run(START, cs) && Starts(cs, d) > 0
    ensures d in After(START, cs).open || After(START, cs).retains[d] > 0
  {
    RetainLedger(START, cs, d);
    if After(START, cs).retains[d] == 0 { OpenUntilClosed(START, cs, d); }
  }

  function Rounds(d: Device, n: nat): seq<Call>
  {
    if n == 0 then [Free] else [Start(Opened(d)), Stop] + Rounds(d, n - 1)
  }

  /** n rounds of Start and Stop, then free, leave n retains. */
  lemma {:induction false} RoundsLeaveRetains(s: State, d: Device, n: nat)
    requires s.present && s.device == None
    ensures Run(s, Rounds(d, n))
    ensures After(s, Rounds(d, n)).retains[d] == s.retains[d] + n
    ensures d in After(s, Rounds(d, n)).open ==> n == 0 && d in s.open
    decreases n
  {
    var cs := Rounds(d, n);
    if n == 0 {
      assert cs[1..] == [];
    } else {
      var s1 := Step(s, cs[0]);
      var s2 := Step(s1, cs[1]);
      RoundsLeaveRetains(s2, d, n - 1);
      assert cs[1..][0] == Stop && cs[1..][1..] == Rounds(d, n - 1);
    }
  }
}
