/** The device's BAR table: filled once by `Start`, searched by every
    `os_map_kernel_space`. */
module BarTable {

  datatype Aperture = Aperture(offset: nat, cpuAddress: nat, size: nat)

  const NOT_FOUND: nat := 0xFF

  // kIOPCIConfigurationOffsetBaseAddress0, 1 and 2
  const BASE_ADDRESS_0: nat := 0x10
  const BASE_ADDRESS_1: nat := 0x14
  const BASE_ADDRESS_2: nat := 0x18

  /** The register read for a BAR; unknown BARs fall back to register 0. */
  function RegisterOf(bar: nat): nat
  {
    match bar
    case 0 => BASE_ADDRESS_0
    case 1 => BASE_ADDRESS_1
    case 2 => BASE_ADDRESS_2
    case _ => BASE_ADDRESS_0
  }

  /** The device as the loop sees it: configuration space, BAR sizes, and the
      offset that the RM records for each BAR. */
  datatype Device = Device(config: nat -> nat, barSize: nat -> nat, cfgOffset: nat -> nat)

  function Slot(d: Device, bar: nat): Aperture
  {
    Aperture(d.cfgOffset(bar), d.config(RegisterOf(bar)), d.barSize(bar))
  }

  /** Slots beyond the configured BARs keep what they held. */
  method FillBars(bars: array<Aperture>, cfgBars: nat, d: Device)
    modifies bars
    ensures forall j :: 0 <= j < bars.Length ==> bars[j] == if j < cfgBars then Slot(d, j) else old(bars[j])
    ensures forall j :: 0 <= j < bars.Length && j < cfgBars ==>
      && bars[j].offset == d.cfgOffset(j)
      && bars[j].size == d.barSize(j)
      && bars[j].cpuAddress == d.config(if j == 1 then 0x14 else if j == 2 then 0x18 else 0x10)
  {
    var currentBAR, j := 0, 0;
    while currentBAR < cfgBars && j < bars.Length
      invariant 0 <= j == currentBAR <= cfgBars && j <= bars.Length
      invariant forall i :: 0 <= i < j ==> bars[i] == Slot(d, i)
      invariant forall i :: j <= i < bars.Length ==> bars[i] == old(bars[i])
    {
      var barAddressOffset;
      match currentBAR {
        case 0 => barAddressOffset := BASE_ADDRESS_0;
        case 1 => barAddressOffset := BASE_ADDRESS_1;
        case 2 => barAddressOffset := BASE_ADDRESS_2;
        case _ => barAddressOffset := BASE_ADDRESS_0;
      }
      bars[j] := Aperture(d.cfgOffset(currentBAR), d.config(barAddressOffset), d.barSize(currentBAR));
      j := j + 1;
      currentBAR := currentBAR + 1;
    }
  }

  /** The least index holding the address, or NOT_FOUND when none does. */
  predicate FoundAt(bars: seq<Aperture>, start: nat, r: nat)
  {
    if r < |bars| then bars[r].cpuAddress == start && forall i :: 0 <= i < r ==> bars[i].cpuAddress != start
    else r == NOT_FOUND && forall i :: 0 <= i < |bars| ==> bars[i].cpuAddress != start
  }

  method FindBar(bars: array<Aperture>, start: nat) returns (memoryIndex: nat)
    requires bars.Length <= 0xFF
    ensures FoundAt(bars[..], start, memoryIndex)
    ensures memoryIndex == 0xFF <==> forall i :: 0 <= i < bars.Length ==> bars[i].cpuAddress != start
    ensures memoryIndex != 0xFF ==>
      && memoryIndex < bars.Length && bars[memoryIndex].cpuAddress == start
      && forall i :: 0 <= i < memoryIndex ==> bars[i].cpuAddress != start
  {
    memoryIndex := NOT_FOUND;
    for barIndex := 0 to bars.Length
      invariant memoryIndex == NOT_FOUND
      invariant forall i :: 0 <= i < barIndex ==> bars[i].cpuAddress != start
    {
      if bars[barIndex].cpuAddress == start {
        memoryIndex := barIndex;
        break;
      }
    }
  }

  /** After the fill, looking up a filled slot's address finds the least slot
      with that address; it finds that very slot exactly when the slot is
      one of the first three and no earlier register holds the same address. */
  method FillThenFind(bars: array<Aperture>, cfgBars: nat, d: Device, j: nat) returns (r: nat)
    requires bars.Length <= NOT_FOUND
    requires j < bars.Length && j < cfgBars
    modifies bars
    ensures r <= j && bars[r] == Slot(d, r) && Slot(d, r).cpuAddress == Slot(d, j).cpuAddress
    ensures forall i :: 0 <= i < r ==> Slot(d, i).cpuAddress != Slot(d, j).cpuAddress
    ensures r == j <==> j < 3 && forall i :: 0 <= i < j ==> d.config(RegisterOf(i)) != d.config(RegisterOf(j))
  {
    FillBars(bars, cfgBars, d);
    r := FindBar(bars, bars[j].cpuAddress);
    assert bars[..][j] == Slot(d, j);
    assert r <= j;
    if j >= 3 { assert bars[..][0] == Slot(d, 0); }
    forall i | 0 <= i < j ensures bars[..][i].cpuAddress == d.config(RegisterOf(i)) {}
  }
}
