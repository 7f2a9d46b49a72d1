/** Types shared by every component: status codes, optional values and the
    fixed widths of an LP64 machine. */
module NvTypes {

  datatype Option<+T> = None | Some(value: T)

  /** The NV_STATUS values that the modelled functions return. */
  datatype NvStatus = NV_OK | NV_ERR_NO_MEMORY | NV_ERR_TIMEOUT_RETRY | NV_ERR_GENERIC

  const TWO_30: nat := 0x4000_0000
  const TWO_32: nat := 0x1_0000_0000
  const TWO_64: nat := 0x1_0000_0000_0000_0000

  function Pow2(k: nat): (r: nat)
    ensures r > 0
  {
    if k == 0 then 1 else 2 * Pow2(k - 1)
  }

  lemma DoubleProduct(x: nat, y: nat)
    ensures 2 * (x * y) == (2 * x) * y
  {
  }

  lemma {:induction false} Pow2Adds(a: nat, b: nat)
    ensures Pow2(a + b) == Pow2(a) * Pow2(b)
  {
    if a > 0 {
      var x, y := Pow2(a - 1), Pow2(b);
      Pow2Adds(a - 1, b);
      assert Pow2(a) == 2 * x && Pow2(a + b) == 2 * Pow2(a - 1 + b);
      DoubleProduct(x, y);
    }
  }

  lemma {:induction false} Pow2Grows(a: nat, b: nat)
    requires a <= b
    ensures Pow2(a) <= Pow2(b)
  {
    if a < b { Pow2Grows(a, b - 1); }
  }

  lemma PowersOfTwo()
    ensures Pow2(8) == 256 && Pow2(30) == TWO_30 && Pow2(32) == TWO_32 && Pow2(64) == TWO_64
  {
    assert Pow2(15) == 0x8000;
    Pow2Adds(15, 15);
    assert Pow2(32) == 2 * (2 * Pow2(30));
    Pow2Adds(32, 32);
  }

  lemma ModExactIff(a: nat, m: nat)
    requires m > 0
    ensures a % m <= a
    ensures a % m == a <==> a < m
  {
    if a < m { SmallMod(a, m); }
  }

  lemma SmallMod(a: nat, m: nat)
    requires a < m
    ensures a % m == a && a / m == 0
  {
  }

  // ---- Products, quotients and remainders ----------------------------------------

  lemma MulMonotone(m: nat, x: int, y: int)
    requires x <= y
    ensures m * x <= m * y
  {
  }

  lemma DivModUnique(a: nat, m: nat, q: nat, r: nat)
    requires r < m && a == m * q + r
    ensures a / m == q && a % m == r
  {
    var q', r' := a / m, a % m;
    assert a == m * q' + r';
    if q < q' { MulMonotone(m, q + 1, q'); }
    if q' < q { MulMonotone(m, q' + 1, q); }
  }

  lemma Multiples(i: nat, c: nat, s: nat)
    requires i < c
    ensures i * s + s <= c * s
  {
    MulMonotone(s, i + 1, c);
  }
}
