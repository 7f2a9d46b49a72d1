/** The page size, mask and shift globals of both platforms, and the DMA mask:
    bitwise-and on fixed-width words against plain arithmetic. */
module PageMask {
  import opened NvTypes

  /** Bitwise and of two non-negative words, bit by bit. */
  function And(a: nat, b: nat): nat
  {
    if a == 0 || b == 0 then 0
    else (if a % 2 == 1 && b % 2 == 1 then 1 else 0) + 2 * And(a / 2, b / 2)
  }

  /** 32-bit complement. */
  function Not32(x: nat): nat
    requires x < TWO_32
  {
    TWO_32 - 1 - x
  }

  function ShiftRight(a: nat, k: nat): nat { if k == 0 then a else ShiftRight(a / 2, k - 1) }

  function ShiftLeft(a: nat, k: nat): nat { if k == 0 then a else 2 * ShiftLeft(a, k - 1) }

  function ShiftLeft64(a: nat, k: nat): nat { ShiftLeft(a, k) % TWO_64 }

  function CountTrailingZeros(n: nat): nat
    requires n > 0
  {
    if n % 2 == 1 then 0 else 1 + CountTrailingZeros(n / 2)
  }

  /** DriverKit: the complement is taken in 32 bits, then widened with zeros. */
  function DriverKitPageMask(pageSize: nat): nat
    requires 0 < pageSize < TWO_32
  {
    Not32(pageSize - 1)
  }

  function DriverKitPageShift(pageSize: nat): nat
    requires 0 < pageSize < TWO_32
  {
    CountTrailingZeros(pageSize)
  }

  /** Kernel: PAGE_MASK, one less than the page size. */
  function KernelPageMask(pageSize: nat): nat
    requires pageSize > 0
  {
    pageSize - 1
  }

  // ---- Bit by bit --------------------------------------------------------------

  function Bit(a: nat, i: nat): nat { (a / Pow2(i)) % 2 }

  lemma HalfBit(a: nat, i: nat)
    requires i > 0
    ensures Bit(a, i) == Bit(a / 2, i - 1)
  {
    HalfQuotient(a, Pow2(i - 1));
  }

  lemma {:induction false} AndBits(a: nat, b: nat, i: nat)
    ensures Bit(And(a, b), i) == if Bit(a, i) == 1 && Bit(b, i) == 1 then 1 else 0
    decreases i
  {
    if i == 0 {
      assert Pow2(0) == 1;
    } else {
      HalfBit(a, i);
      HalfBit(b, i);
      HalfBit(And(a, b), i);
      AndBits(a / 2, b / 2, i - 1);
      assert And(a, b) / 2 == And(a / 2, b / 2);
    }
  }

  // ---- Masks as remainders -----------------------------------------------------

  lemma ModDouble(a: nat, m: nat)
    requires m > 0
    ensures a % (2 * m) == a % 2 + 2 * ((a / 2) % m)
  {
    var h := a / 2;
    var q, r := h / m, h % m;
    assert a == (2 * m) * q + (2 * r + a % 2) by {
      assert h == m * q + r;
      assert (2 * m) * q == 2 * (m * q);
    }
    DivModUnique(a, 2 * m, q, 2 * r + a % 2);
  }

  /** One bit of a mask with the low bit set, and of one with it clear. */
  lemma AndStep(a: nat, m: nat)
    ensures And(a, 2 * m + 1) == a % 2 + 2 * And(a / 2, m)
    ensures And(a, 2 * m) == 2 * And(a / 2, m)
  {
    assert (2 * m + 1) % 2 == 1 && (2 * m + 1) / 2 == m;
    assert (2 * m) % 2 == 0 && (2 * m) / 2 == m;
  }

  lemma PowStep(k: nat)
    requires k > 0
    ensures Pow2(k) == 2 * Pow2(k - 1)
  {
  }

  lemma NoBits(a: nat)
    ensures Pow2(0) == 1 && a % Pow2(0) == 0 && And(a, 0) == 0
  {
  }

  lemma LowMaskStep(a: nat, m: nat)
    requires m > 0 && And(a / 2, m - 1) == (a / 2) % m
    ensures And(a, 2 * m - 1) == a % (2 * m)
  {
    hide And;
    AndStep(a, m - 1);
    ModDouble(a, m);
  }

  lemma {:induction false} AndLowMask(a: nat, k: nat)
    ensures And(a, Pow2(k) - 1) == a % Pow2(k)
  {
    hide And, Pow2;
    if k == 0 {
      NoBits(a);
    } else {
      var m := Pow2(k - 1);
      PowStep(k);
      AndLowMask(a / 2, k - 1);
      LowMaskStep(a, m);
    }
  }

  /** And with a run of ones from bit k up to bit n. */
  lemma {:induction false} AndMiddleMask(a: nat, k: nat, n: nat)
    requires k <= n
    ensures Pow2(k) <= Pow2(n)
    ensures a % Pow2(k) <= a % Pow2(n)
    ensures And(a, Pow2(n) - Pow2(k)) == a % Pow2(n) - a % Pow2(k)
  {
    hide And, Pow2;
    Pow2Grows(k, n);
    if k == 0 {
      NoBits(a);
      AndLowMask(a, n);
    } else {
      var lo, hi := Pow2(k - 1), Pow2(n - 1);
      PowStep(k);
      PowStep(n);
      AndMiddleMask(a / 2, k - 1, n - 1);
      AndStep(a, hi - lo);
      ModDouble(a, lo);
      ModDouble(a, hi);
    }
  }

  lemma {:induction false} ShiftOfPowerOfTwo(k: nat)
    ensures CountTrailingZeros(Pow2(k)) == k
  {
    if k > 0 { ShiftOfPowerOfTwo(k - 1); }
  }

  lemma {:induction false} ShiftValues(a: nat, k: nat)
    ensures ShiftRight(a, k) == a / Pow2(k) && ShiftLeft(a, k) == a * Pow2(k)
  {
    if k > 0 {
      ShiftValues(a / 2, k - 1);
      ShiftValues(a, k - 1);
      HalfQuotient(a, Pow2(k - 1));
    }
  }

  lemma HalfQuotient(a: nat, m: nat)
    requires m > 0
    ensures a / (2 * m) == a / 2 / m && a * (2 * m) == 2 * (a * m)
  {
    var q, r := a / 2 / m, (a / 2) % m;
    assert a == (2 * m) * q + (2 * r + a % 2) by {
      assert a / 2 == m * q + r;
      assert (2 * m) * q == 2 * (m * q);
    }
    DivModUnique(a, 2 * m, q, 2 * r + a % 2);
  }

  lemma {:induction false} ShiftDownAndUp(a: nat, k: nat)
    ensures ShiftLeft(ShiftRight(a, k), k) == a - a % Pow2(k)
  {
    hide Pow2;
    if k == 0 {
      NoBits(a);
    } else {
      PowStep(k);
      ShiftDownAndUp(a / 2, k - 1);
      ModDouble(a, Pow2(k - 1));
    }
  }

  lemma PageSizeFits(k: nat)
    requires k < 32
    ensures Pow2(k) < TWO_32
  {
    PowersOfTwo();
    Pow2Grows(k, 31);
    assert Pow2(32) == 2 * Pow2(31);
  }

  /** Any page size: the shift is the power of two in it, DriverKit's mask is
      its 32-bit negative, the kernel's one less than it. */
  lemma MaskValues(pageSize: nat)
    requires 0 < pageSize < TWO_32
    ensures DriverKitPageMask(pageSize) == 0x1_0000_0000 - pageSize
    ensures KernelPageMask(pageSize) == pageSize - 1
    ensures exists odd: nat :: pageSize == Pow2(DriverKitPageShift(pageSize)) * (2 * odd + 1)
  {
    var odd := OddPart(pageSize);
  }

  lemma {:induction false} OddPart(n: nat) returns (odd: nat)
    requires n > 0
    ensures n == Pow2(CountTrailingZeros(n)) * (2 * odd + 1)
  {
    if n % 2 == 1 {
      odd := n / 2;
    } else {
      odd := OddPart(n / 2);
      DoubleProduct(Pow2(CountTrailingZeros(n / 2)), 2 * odd + 1);
    }
  }

  /** For every page size 2^k and every a: DriverKit's mask keeps
      (a mod 2^32) - (a mod 2^k), the kernel's mask keeps a mod 2^k. */
  lemma PageMaskKeeps(a: nat, k: nat)
    requires k < 32
    ensures Pow2(k) < TWO_32 && a % Pow2(k) <= a % TWO_32
    ensures And(a, DriverKitPageMask(Pow2(k))) == a % TWO_32 - a % Pow2(k)
    ensures And(a, KernelPageMask(Pow2(k))) == a % Pow2(k)
  {
    hide And, Pow2;
    PageSizeFits(k);
    PowersOfTwo();
    AndMiddleMask(a, k, 32);
    AndLowMask(a, k);
  }

  /** So DriverKit's mask is shifting down and up by os_page_shift, and the two
      masks part a word, exactly on words that fit 32 bits. */
  lemma PageMaskAgreesIff(a: nat, k: nat)
    requires a < TWO_64 && k < 32
    ensures Pow2(k) < TWO_32
    ensures var shift := DriverKitPageShift(Pow2(k));
      And(a, DriverKitPageMask(Pow2(k))) == ShiftLeft64(ShiftRight(a, shift), shift) <==> a < TWO_32
    ensures And(a, DriverKitPageMask(Pow2(k))) + And(a, KernelPageMask(Pow2(k))) == a <==> a < TWO_32
  {
    hide And, Pow2, ShiftLeft, ShiftRight;
    PageMaskKeeps(a, k);
    ShiftOfPowerOfTwo(k);
    ShiftDownAndUp(a, k);
    SmallMod(a - a % Pow2(k), TWO_64);
    ModExactIff(a, TWO_32);
  }

  // ---- nv_set_dma_address_size -------------------------------------------------

  class DarwinState {
    var dmaMask: nat

    /** The shift is defined for fewer than 64 bits. */
    method NvSetDmaAddressSize(physAddrBits: nat)
      requires physAddrBits < 64
      modifies this
      ensures dmaMask == Pow2(physAddrBits) - 1 && dmaMask < TWO_64
      ensures forall a: nat :: And(a, dmaMask) == a % Pow2(physAddrBits)
    {
      dmaMask := Pow2(physAddrBits) - 1;
      PowersOfTwo();
      Pow2Grows(physAddrBits, 64);
      forall a: nat ensures And(a, dmaMask) == a % Pow2(physAddrBits) { AndLowMask(a, physAddrBits); }
    }
  }
}
