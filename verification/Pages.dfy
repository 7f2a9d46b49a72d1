/** `nv_alloc_pages`, `nv_alloc_kernel_mapping` and `nv_alloc_user_mapping` of
    the DriverKit build: page tables over one buffer, in wrapping arithmetic. */
module Pages {
  import opened NvTypes

  /** The length asked of IOBufferMemoryDescriptor::Create.  The first product
      is taken in 64 bits; from 1 GiB on it is replaced by a product of 32-bit
      operands. */
  function RequestedLength(count: nat, pageSize: nat): nat
  {
    var totalSize := (count * pageSize) % TWO_64;
    if totalSize >= TWO_30 then Product32(Product32(Product32(Product32(count, 1), 1024), 1024), 1024)
    else totalSize
  }

  function Product32(a: nat, b: nat): nat { (a * b) % TWO_32 }

  function Pte(address: nat, pageSize: nat, i: nat): nat
  {
    (address + (i * pageSize) % TWO_64) % TWO_64
  }

  datatype Outcome = Failed(status: NvStatus) | Panicked | Done(address: nat, length: nat)

  /** `created` is the address range of the new buffer, or None when Create
      failed.  The loop counter is a 32-bit signed int. */
  method NvAllocPages(pteArray: array<nat>, pageCount: nat, pageSize: nat, contiguous: bool, created: Option<nat>)
    returns (r: Outcome)
    requires pageCount < TWO_32 && pageSize < TWO_64
    requires contiguous ==> pteArray.Length > 0
    requires !contiguous ==> pageCount <= pteArray.Length && pageCount < 0x8000_0000
    modifies pteArray
    ensures created == None ==> r == Failed(NV_ERR_NO_MEMORY)
    ensures created == Some(0) ==> r == Panicked
    ensures created.Some? && created != Some(0) ==> r == Done(created.value, RequestedLength(pageCount, pageSize))
    ensures r.Done? ==>
      var product := (pageCount * pageSize) % TWO_64;
      r.length == if product < 0x4000_0000 then product else (pageCount % 4) * 0x4000_0000
    ensures !r.Done? ==> pteArray[..] == old(pteArray[..])
    ensures r.Done? && contiguous ==> pteArray[..] == old(pteArray[..])[0 := r.address]
    ensures r.Done? && !contiguous ==>
      && (forall i :: 0 <= i < pageCount ==> pteArray[i] == Pte(r.address, pageSize, i))
      && (forall i :: 0 <= i < pageCount ==> pteArray[i] == (r.address + i * pageSize) % TWO_64)
      && pteArray[pageCount..] == old(pteArray[pageCount..])
  {
    var totalSize := (pageCount * pageSize) % TWO_64;
    if totalSize >= TWO_30 {
      totalSize := Product32(Product32(Product32(Product32(pageCount, 1), 1024), 1024), 1024);
    }
    if created == None {
      return Failed(NV_ERR_NO_MEMORY);
    }
    var address := created.value;
    if address == 0 {
      return Panicked;
    }
    if contiguous {
      pteArray[0] := address;
    } else {
      for i := 0 to pageCount
        invariant forall j :: 0 <= j < pteArray.Length ==>
          pteArray[j] == if j < i then Pte(address, pageSize, j) else old(pteArray[j])
      {
        pteArray[i] := (address + (i * pageSize) % TWO_64) % TWO_64;
      }
    }
    if (pageCount * pageSize) % TWO_64 >= TWO_30 { LargeLength(pageCount, pageSize); }
    forall i | 0 <= i < pageCount ensures Pte(address, pageSize, i) == (address + i * pageSize) % TWO_64 {
      PteIsOffset(address, pageSize, i);
    }
    r := Done(address, totalSize);
  }

  // ---- Wrapping arithmetic -------------------------------------------------------

  lemma WrappedOnRight(x: nat, y: nat)
    ensures (x + y % TWO_64) % TWO_64 == (x + y) % TWO_64
  {
    assert y == TWO_64 * (y / TWO_64) + y % TWO_64;
  }

  lemma WrappedOnLeft(x: nat, y: nat)
    ensures (x % TWO_64 + y) % TWO_64 == (x + y) % TWO_64
  {
    assert x == TWO_64 * (x / TWO_64) + x % TWO_64;
  }

  lemma PteIsOffset(address: nat, pageSize: nat, i: nat)
    ensures Pte(address, pageSize, i) == (address + i * pageSize) % TWO_64
    ensures address + i * pageSize < TWO_64 ==> Pte(address, pageSize, i) == address + i * pageSize
  {
    var offset := i * pageSize;
    WrappedOnRight(address, offset);
  }

  lemma WholeWords(x: nat, y: nat)
    ensures (TWO_32 * x + y) % TWO_32 == y % TWO_32
  {
    assert y == TWO_32 * (y / TWO_32) + y % TWO_32;
  }

  lemma Product32Chain(a: nat, b: nat)
    ensures Product32(a % TWO_32, b) == (a * b) % TWO_32
  {
    var q, r := a / TWO_32, a % TWO_32;
    assert a * b == TWO_32 * (q * b) + r * b by {
      assert a == TWO_32 * q + r;
      assert (TWO_32 * q + r) * b == TWO_32 * (q * b) + r * b;
    }
    WholeWords(q * b, r * b);
  }

  lemma GibibytesWrapped(count: nat)
    ensures (count * TWO_30) % TWO_32 == (count % 4) * TWO_30
  {
    assert count == 4 * (count / 4) + count % 4;
  }

  /** From 1 GiB on the length depends on the page count modulo 4 only. */
  lemma LargeLength(count: nat, pageSize: nat)
    requires count < TWO_32 && (count * pageSize) % TWO_64 >= TWO_30
    ensures RequestedLength(count, pageSize) == (count % 4) * TWO_30
  {
    hide Product32;
    Product32Chain(count, 1);
    SmallMod(count, TWO_32);
    Product32Chain(count, 1024);
    Product32Chain(count * 1024, 1024);
    Product32Chain(count * 1024 * 1024, 1024);
    GibibytesWrapped(count);
    assert count * 1024 * 1024 * 1024 == count * TWO_30;
  }

  // ---- Which pages lie in the buffer -----------------------------------------------

  ghost predicate AllInside(address: nat, length: nat, count: nat, pageSize: nat)
  {
    forall i :: 0 <= i < count ==>
      address <= Pte(address, pageSize, i) && Pte(address, pageSize, i) + pageSize <= address + length
  }

  /** The page that holds offset `off` when pages are laid end to end. */
  lemma PageOfOffset(off: nat, count: nat, pageSize: nat) returns (i: nat)
    requires off < count * pageSize
    ensures pageSize > 0 && i == off / pageSize && i < count
    ensures i * pageSize <= off < i * pageSize + pageSize
  {
    i := off / pageSize;
    assert off == pageSize * i + off % pageSize;
    if count <= i { MulMonotone(pageSize, count, i); }
  }

  /** The first page that does not fit sticks out of the buffer, or wraps. */
  lemma OverflowingPage(address: nat, length: nat, count: nat, pageSize: nat)
    requires 0 < address && address + length <= TWO_64 && length < count * pageSize
    ensures !AllInside(address, length, count, pageSize)
  {
    var i := PageOfOffset(length, count, pageSize);
    PteIsOffset(address, pageSize, i);
    assert !(address <= Pte(address, pageSize, i) && Pte(address, pageSize, i) + pageSize <= address + length);
  }

  /** For every count and size, in either branch: all described pages lie in
      the buffer exactly when the true product is at most the length asked for. */
  lemma AllInsideIff(address: nat, length: nat, count: nat, pageSize: nat)
    requires 0 < address < TWO_64 && address + length <= TWO_64
    ensures AllInside(address, length, count, pageSize) <==> count * pageSize <= length
  {
    if count * pageSize <= length {
      forall i | 0 <= i < count
        ensures address <= Pte(address, pageSize, i) && Pte(address, pageSize, i) + pageSize <= address + length
      {
        Multiples(i, count, pageSize);
        PteIsOffset(address, pageSize, i);
      }
    } else {
      OverflowingPage(address, length, count, pageSize);
    }
  }

  /** The same, with the length the code asks for: always below 1 GiB, by the
      page count modulo 4 from 1 GiB on, never when the product wraps small. */
  lemma DescribedPagesInsideIff(address: nat, count: nat, pageSize: nat)
    requires count < TWO_32 && pageSize < TWO_64
    requires 0 < address < TWO_64 && address + RequestedLength(count, pageSize) <= TWO_64
    ensures AllInside(address, RequestedLength(count, pageSize), count, pageSize) <==>
      if count * pageSize < TWO_30 then true
      else (count * pageSize) % TWO_64 >= TWO_30 && count * pageSize <= (count % 4) * TWO_30
  {
    var product := count * pageSize;
    AllInsideIff(address, RequestedLength(count, pageSize), count, pageSize);
    if product % TWO_64 >= TWO_30 { LargeLength(count, pageSize); }
    if product < TWO_30 { SmallMod(product, TWO_64); }
  }

  /** Four pages of 256 MiB get a buffer of length 0, and every one of them
      lies outside it. */
  lemma FourLargePagesOutside(address: nat)
    ensures RequestedLength(4, 0x1000_0000) == 0
    ensures forall i :: 0 <= i < 4 ==>
      !(address <= Pte(address, 0x1000_0000, i) && Pte(address, 0x1000_0000, i) + 0x1000_0000 <= address + 0)
  {
    LargeLength(4, 0x1000_0000);
  }

  /** Below 1 GiB the table tiles the buffer: each byte of it lies in exactly
      one page, the one its offset divided by the page size names. */
  lemma SmallTablesTile(address: nat, count: nat, pageSize: nat, byte: nat)
    requires 0 < pageSize && count * pageSize < TWO_30
    requires var length := RequestedLength(count, pageSize);
      address + length <= TWO_64 && address <= byte < address + length
    ensures RequestedLength(count, pageSize) == count * pageSize
    ensures (byte - address) / pageSize < count
    ensures forall i :: 0 <= i < count ==>
      (Pte(address, pageSize, i) <= byte < Pte(address, pageSize, i) + pageSize <==> i == (byte - address) / pageSize)
  {
    SmallMod(count * pageSize, TWO_64);
    var n := PageOfOffset(byte - address, count, pageSize);
    forall i | 0 <= i < count
      ensures Pte(address, pageSize, i) <= byte < Pte(address, pageSize, i) + pageSize <==> i == n
    {
      Multiples(i, count, pageSize);
      PteIsOffset(address, pageSize, i);
      if i < n { Multiples(i, n, pageSize); }
      if n < i { Multiples(n, i, pageSize); }
    }
  }

  // ---- The contiguous form -----------------------------------------------------------

  /** A contiguous table holds the base only; a reader steps by the page size. */
  function Stepped(address: nat, pageSize: nat, i: nat): nat
  {
    if i == 0 then address else (Stepped(address, pageSize, i - 1) + pageSize) % TWO_64
  }

  lemma {:induction false} ContiguousDescribesSamePages(address: nat, pageSize: nat, i: nat)
    requires address < TWO_64
    ensures Stepped(address, pageSize, i) == Pte(address, pageSize, i)
  {
    hide Pte;
    PteIsOffset(address, pageSize, i);
    if i == 0 {
      SmallMod(address, TWO_64);
    } else {
      ContiguousDescribesSamePages(address, pageSize, i - 1);
      PteIsOffset(address, pageSize, i - 1);
      var before := address + (i - 1) * pageSize;
      WrappedOnLeft(before, pageSize);
      assert before + pageSize == address + i * pageSize by { assert i * pageSize == (i - 1) * pageSize + pageSize; }
    }
  }

  // ---- Mappings --------------------------------------------------------------------

  function KernelMapping(address: nat, osPageSize: nat, pageIndex: nat, pageOffset: nat): nat
  {
    ((address + (pageIndex * osPageSize) % TWO_64) % TWO_64 + pageOffset) % TWO_64
  }

  method NvAllocUserMapping(address: nat, osPageSize: nat, pageIndex: nat, pageOffset: nat)
    returns (status: NvStatus, userAddress: nat)
    ensures status == NV_OK && userAddress == KernelMapping(address, osPageSize, pageIndex, pageOffset)
    ensures userAddress == (address + pageIndex * osPageSize + pageOffset) % TWO_64
  {
    MappingIsOffset(address, osPageSize, pageIndex, pageOffset);
    var pageAddress := ((address + (pageIndex * osPageSize) % TWO_64) % TWO_64 + pageOffset) % TWO_64;
    return NV_OK, pageAddress;
  }

  lemma MappingIsOffset(address: nat, osPageSize: nat, j: nat, o: nat)
    ensures KernelMapping(address, osPageSize, j, o) == (address + j * osPageSize + o) % TWO_64
  {
    var offset := j * osPageSize;
    WrappedOnRight(address, offset);
    WrappedOnLeft(address + offset, o);
  }

  lemma SplitIndex(j: nat, k: nat, p: nat)
    requires k > 0
    ensures j * p == (j / k) * (k * p) + (j % k) * p
  {
    var i, r := j / k, j % k;
    assert j == i * k + r;
    assert (i * k + r) * p == (i * k) * p + r * p;
    assert (i * k) * p == i * (k * p);
  }

  /** When the allocation's page is k OS pages, OS page j at offset o is
      inside table entry j / k, at its (j % k)-th OS page. */
  lemma MappingAgreesWithTable(address: nat, osPageSize: nat, k: nat, j: nat, o: nat)
    requires k > 0
    ensures KernelMapping(address, osPageSize, j, o) ==
            (Pte(address, k * osPageSize, j / k) + (j % k) * osPageSize + o) % TWO_64
  {
    hide Pte, KernelMapping;
    var i, pageSize, inner := j / k, k * osPageSize, (j % k) * osPageSize;
    MappingIsOffset(address, osPageSize, j, o);
    PteIsOffset(address, pageSize, i);
    var base := i * pageSize;
    WrappedOnLeft(address + base, inner + o);
    SplitIndex(j, k, osPageSize);
  }

  /** A span inside the buffer is mapped inside the buffer. */
  lemma MappedSpanInside(address: nat, length: nat, osPageSize: nat, j: nat, o: nat, size: nat)
    requires address + length <= TWO_64 && size > 0 && j * osPageSize + o + size <= length
    ensures var p := KernelMapping(address, osPageSize, j, o);
      p == address + j * osPageSize + o && address <= p && p + size <= address + length
  {
    MappingIsOffset(address, osPageSize, j, o);
    SmallMod(address + j * osPageSize + o, TWO_64);
  }

  /** Mapping page i reaches table entry i for every i exactly when the table
      has at most one entry or both page sizes are the same. */
  lemma IndexUnitsAgreeIff(address: nat, osPageSize: nat, pageSize: nat, count: nat)
    requires osPageSize < TWO_32 && pageSize < TWO_64
    ensures (forall i :: 0 <= i < count ==> KernelMapping(address, osPageSize, i, 0) == Pte(address, pageSize, i))
            <==> count <= 1 || pageSize == osPageSize
  {
    forall i: nat
      ensures KernelMapping(address, osPageSize, i, 0) == (address + i * osPageSize) % TWO_64
      ensures Pte(address, pageSize, i) == (address + i * pageSize) % TWO_64
    {
      MappingIsOffset(address, osPageSize, i, 0);
      PteIsOffset(address, pageSize, i);
    }
    if count > 1 && pageSize != osPageSize {
      assert (address + 1 * osPageSize) % TWO_64 != (address + 1 * pageSize) % TWO_64;
      assert KernelMapping(address, osPageSize, 1, 0) != Pte(address, pageSize, 1);
    }
  }
}
