/** The dictionary keys of `global_allocations` and `global_mapped_memory`: a
    pointer printed with `%p` into an 18-byte buffer.  `snprintf` keeps 17
    characters, so the last nibble of a 16-digit address is dropped. */
module PointerKey {
  import opened NvTypes

  const TWO_60: nat := 0x1000_0000_0000_0000

  // sizeof(void*) * 2 + 2
  const KEY_NAME_LENGTH: nat := 8 * 2 + 2

  const DIGITS: string := "0123456789abcdef"

  /** Minimal lower-case hexadecimal, what `%p` prints after `0x`. */
  function Hex(n: nat): (s: string)
    ensures |s| > 0
  {
    if n < 16 then [DIGITS[n]] else Hex(n / 16) + [DIGITS[n % 16]]
  }

  function PrintPointer(p: nat): string { "0x" + Hex(p) }

  /** `snprintf(buf, capacity, "%s", text)` with capacity > 0: at most
      capacity - 1 characters are stored before the terminator. */
  function Snprintf(capacity: nat, text: string): string
    requires capacity > 0
  {
    if |text| < capacity then text else text[..capacity - 1]
  }

  function Key(p: nat): string { Snprintf(KEY_NAME_LENGTH, PrintPointer(p)) }

  // ---- Hexadecimal text determines the number -----------------------------

  function DigitValue(c: char): nat
  {
    if '0' <= c <= '9' then c as nat - '0' as nat
    else if 'a' <= c <= 'f' then c as nat - 'a' as nat + 10
    else 0
  }

  function Parse(s: string): nat
  {
    if s == "" then 0 else Parse(s[..|s| - 1]) * 16 + DigitValue(s[|s| - 1])
  }

  lemma DigitsParse(d: nat)
    requires d < 16
    ensures DigitValue(DIGITS[d]) == d
  {
  }

  lemma {:induction false} ParseHex(n: nat)
    ensures Parse(Hex(n)) == n
  {
    if n < 16 {
      DigitsParse(n);
      assert Hex(n)[..0] == "";
    } else {
      ParseHex(n / 16);
      DigitsParse(n % 16);
      assert Hex(n)[..|Hex(n)| - 1] == Hex(n / 16);
    }
  }

  /** `%p` prints no leading zero, except for the null pointer. */
  lemma {:induction false} HexIsMinimal(n: nat)
    ensures Hex(n)[0] == '0' <==> n == 0
  {
    if n >= 16 { HexIsMinimal(n / 16); }
  }

  function Pow16(k: nat): (r: nat)
    ensures r > 0
  {
    if k == 0 then 1 else 16 * Pow16(k - 1)
  }

  lemma {:induction false} HexLength(n: nat, k: nat)
    requires k > 0
    ensures |Hex(n)| <= k <==> n < Pow16(k)
    decreases k
  {
    if k == 1 {
      assert Pow16(1) == 16;
    } else if n >= 16 {
      HexLength(n / 16, k - 1);
      assert Pow16(k) == 16 * Pow16(k - 1);
    } else {
      HexLength(n, k - 1);
    }
  }

  lemma DropDigit(n: nat, j: nat)
    requires j > 0
    ensures n / Pow16(j) == (n / 16) / Pow16(j - 1)
  {
    var m := Pow16(j - 1);
    var q, r := n / 16 / m, (n / 16) % m;
    assert n == (16 * m) * q + (16 * r + n % 16) by {
      assert n / 16 == m * q + r;
      assert (16 * m) * q == 16 * (m * q);
    }
    DivModUnique(n, 16 * m, q, 16 * r + n % 16);
  }

  lemma HexCons(n: nat)
    ensures Hex(n) == (if n < 16 then "" else Hex(n / 16)) + [DIGITS[n % 16]]
    ensures n / Pow16(0) == n
  {
  }

  lemma HexEnds(n: nat)
    ensures Hex(n)[|Hex(n)| - 1] == DIGITS[(n / Pow16(0)) % 16]
    ensures if n < 16 then |Hex(n)| == 1 else Hex(n)[..|Hex(n)| - 1] == Hex(n / 16)
  {
    hide Hex, Pow16;
    HexCons(n);
  }

  /** Each character is the lower-case digit of its place. */
  lemma {:induction false} HexDigit(n: nat, j: nat)
    requires j < |Hex(n)|
    ensures Hex(n)[|Hex(n)| - 1 - j] == "0123456789abcdef"[(n / Pow16(j)) % 16]
    decreases j
  {
    hide Hex, Pow16;
    HexEnds(n);
    if j > 0 {
      HexDigit(n / 16, j - 1);
      DropDigit(n, j);
    }
  }

  // ---- Exactly when two addresses share a key -----------------------------

  /** The address whose full hexadecimal text the key holds. */
  function Kept(p: nat): nat { if p < TWO_60 then p else p / 16 }

  lemma KeyKeepsAllButSixteenthDigit(p: nat)
    requires p < TWO_64
    ensures Key(p) == PrintPointer(Kept(p))
  {
    HexLength(p, 15);
    HexLength(p, 16);
    assert Pow16(15) == TWO_60 && Pow16(16) == TWO_64;
    if p >= TWO_60 {
      assert PrintPointer(p)[..17] == "0x" + Hex(p)[..15];
    }
  }

  /** What a key is, character by character: "0x" and the digits of the address,
      the last of sixteen left out. */
  lemma KeyText(p: nat, j: nat)
    requires p < TWO_64
    ensures var kept := if p < 0x1000_0000_0000_0000 then p else p / 16;
      && |Key(p)| > 2 && Key(p)[..2] == "0x"
      && (j > 0 ==> (|Key(p)| <= 2 + j <==> kept < Pow16(j)))
      && (2 + j < |Key(p)| ==> Key(p)[|Key(p)| - 1 - j] == "0123456789abcdef"[(kept / Pow16(j)) % 16])
  {
    hide Hex, Key, Pow16;
    KeyKeepsAllButSixteenthDigit(p);
    var digits := Hex(Kept(p));
    if j > 0 { HexLength(Kept(p), j); }
    if j < |digits| {
      HexDigit(Kept(p), j);
      assert Key(p)[|Key(p)| - 1 - j] == digits[|digits| - 1 - j];
    }
  }

  lemma KeysEqualIffKeptEqual(p: nat, q: nat)
    requires p < TWO_64 && q < TWO_64
    ensures Key(p) == Key(q) <==> Kept(p) == Kept(q)
  {
    KeyKeepsAllButSixteenthDigit(p);
    KeyKeepsAllButSixteenthDigit(q);
    if Key(p) == Key(q) {
      assert PrintPointer(Kept(p))[2..] == Hex(Kept(p));
      assert PrintPointer(Kept(q))[2..] == Hex(Kept(q));
      ParseHex(Kept(p));
      ParseHex(Kept(q));
    }
  }

  /** The collision theorem. */
  lemma KeyCollision(p: nat, q: nat)
    requires p < TWO_64 && q < TWO_64
    ensures Key(p) == Key(q) <==>
            || p == q
            || (p >= TWO_60 && q >= TWO_60 && p / 16 == q / 16)
            || (p >= TWO_60 && q == p / 16)
            || (q >= TWO_60 && p == q / 16)
  {
    KeysEqualIffKeptEqual(p, q);
  }

  /** Only the null pointer has the null pointer's key: every other text starts
      with another digit. */
  lemma NullKeyIsUnique(p: nat)
    requires p < TWO_64 && Key(p) == Key(0)
    ensures p == 0
  {
    KeyKeepsAllButSixteenthDigit(p);
    KeyKeepsAllButSixteenthDigit(0);
    assert Hex(Kept(p))[0] == Key(p)[2] == Key(0)[2] == Hex(0)[0];
    HexIsMinimal(Kept(p));
    HexIsMinimal(0);
  }

  // ---- Address sets on which the keys are injective -----------------------

  predicate Aligned(p: nat) { p < TWO_64 && p % 16 == 0 }

  /** 48-bit sign-extended. */
  predicate Canonical(p: nat) { p < 0x8000_0000_0000 || 0xffff_8000_0000_0000 <= p < TWO_64 }

  predicate Below60Bits(p: nat) { p < TWO_60 }

  /** What the heap and the mapping calls hand out. */
  ghost function CanonicalAligned(): iset<nat> { iset p: nat | Aligned(p) && Canonical(p) }

  ghost predicate Addresses(u: iset<nat>) { forall p :: p in u ==> p < TWO_64 }

  ghost predicate InjectiveOn(u: iset<nat>)
  {
    forall p, q :: p in u && q in u && Key(p) == Key(q) ==> p == q
  }

  lemma InjectiveOnCanonicalAligned()
    ensures Addresses(CanonicalAligned()) && InjectiveOn(CanonicalAligned())
  {
    forall p: nat, q: nat | p in CanonicalAligned() && q in CanonicalAligned() && Key(p) == Key(q)
      ensures p == q
    {
      KeyCollision(p, q);
    }
  }

  lemma InjectiveBelow60Bits()
    ensures InjectiveOn(iset p: nat | Below60Bits(p))
  {
    forall p: nat, q: nat | Below60Bits(p) && Below60Bits(q) && Key(p) == Key(q)
      ensures p == q
    {
      KeyCollision(p, q);
    }
  }

  /** Neither alignment nor canonical form alone is enough. */
  lemma BothConditionsNeeded()
    ensures !InjectiveOn(iset p: nat | Aligned(p))
    ensures !InjectiveOn(iset p: nat | Canonical(p))
  {
    KeyCollision(TWO_60, TWO_60 / 16);
    var aligned := iset p: nat | Aligned(p);
    assert TWO_60 in aligned && TWO_60 / 16 in aligned;
    KeyCollision(TWO_64 - 1, TWO_64 - 2);
    var canonical := iset p: nat | Canonical(p);
    assert TWO_64 - 1 in canonical && TWO_64 - 2 in canonical;
  }
}
