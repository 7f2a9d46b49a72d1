/** `os_get_current_time`: one reading, taken to be nanoseconds, split into two
    32-bit words, whole seconds and (not the remainder, but all) microseconds. */
module Clock {
  import opened NvTypes

  const NSEC_PER_USEC: nat := 1000
  const NSEC_PER_SEC: nat := 1_000_000_000
  const USEC_PER_SEC: nat := 1_000_000

  /** How a reader of the pair gets the microseconds back. */
  function Decode(seconds: nat, useconds: nat): nat
  {
    seconds * USEC_PER_SEC + (useconds - seconds * USEC_PER_SEC) % TWO_32
  }

  function Seconds(nanoseconds: nat): nat { (nanoseconds / NSEC_PER_SEC) % TWO_32 }

  function Useconds(nanoseconds: nat): nat { (nanoseconds / NSEC_PER_USEC) % TWO_32 }

  method OsGetCurrentTime(nanoseconds: nat) returns (status: NvStatus, seconds: nat, useconds: nat)
    requires nanoseconds < TWO_64
    ensures status == NV_OK && seconds < TWO_32 && useconds < TWO_32
    ensures Decode(seconds, useconds) == (nanoseconds / NSEC_PER_USEC) % (TWO_32 * USEC_PER_SEC)
    ensures seconds == Seconds(nanoseconds) && useconds == Useconds(nanoseconds)
    ensures seconds == (nanoseconds / 1_000_000_000) % 0x1_0000_0000
    ensures useconds == (nanoseconds / 1000) % 0x1_0000_0000
  {
    var currentMicroseconds := nanoseconds / NSEC_PER_USEC;
    var currentSeconds := nanoseconds / NSEC_PER_SEC;
    useconds := currentMicroseconds % TWO_32;
    seconds := currentSeconds % TWO_32;
    status := NV_OK;
    DecodeIsMicroseconds(nanoseconds);
  }

  lemma SecondsFromMicroseconds(nanoseconds: nat)
    ensures nanoseconds / NSEC_PER_SEC == (nanoseconds / NSEC_PER_USEC) / USEC_PER_SEC
  {
  }

  const PERIOD: nat := TWO_32 * USEC_PER_SEC

  lemma SecondsOf(q: nat, s: nat, f: nat)
    requires s < TWO_32 && f < USEC_PER_SEC
    ensures ((PERIOD * q + (USEC_PER_SEC * s + f)) / USEC_PER_SEC) % TWO_32 == s
  {
    var t := PERIOD * q + (USEC_PER_SEC * s + f);
    DivModUnique(t, USEC_PER_SEC, TWO_32 * q + s, f);
    DivModUnique(TWO_32 * q + s, TWO_32, q, s);
  }

  lemma FractionOf(q: nat, s: nat, f: nat)
    requires f < USEC_PER_SEC
    ensures ((PERIOD * q + (USEC_PER_SEC * s + f)) % TWO_32 - s * USEC_PER_SEC) % TWO_32 == f
  {
    var t := PERIOD * q + (USEC_PER_SEC * s + f);
    var d := t / TWO_32;
    assert t % TWO_32 - s * USEC_PER_SEC == f + TWO_32 * (USEC_PER_SEC * q - d);
    WholeWords(f, USEC_PER_SEC * q - d);
  }

  lemma WholeWords(f: nat, z: int)
    requires f < TWO_32
    ensures (f + TWO_32 * z) % TWO_32 == f
  {
  }

  /** For every reading: decoding gives the microseconds modulo 2^32 seconds,
      and the part added to the seconds is below one second. */
  lemma DecodeIsMicroseconds(nanoseconds: nat)
    ensures var s, u := Seconds(nanoseconds), Useconds(nanoseconds);
      && (u - s * USEC_PER_SEC) % TWO_32 < USEC_PER_SEC
      && Decode(s, u) == (nanoseconds / NSEC_PER_USEC) % (TWO_32 * USEC_PER_SEC)
  {
    SecondsFromMicroseconds(nanoseconds);
    var t := nanoseconds / NSEC_PER_USEC;
    var q, r := t / PERIOD, t % PERIOD;
    var s, f := r / USEC_PER_SEC, r % USEC_PER_SEC;
    assert t == PERIOD * q + (USEC_PER_SEC * s + f);
    SecondsOf(q, s, f);
    FractionOf(q, s, f);
  }

  /** Nothing is lost exactly when the uptime is below 2^32 seconds. */
  lemma RecoversIff(nanoseconds: nat)
    ensures Decode(Seconds(nanoseconds), Useconds(nanoseconds)) == nanoseconds / NSEC_PER_USEC <==>
            nanoseconds < TWO_32 * NSEC_PER_SEC
  {
    hide Decode, Seconds, Useconds;
    DecodeIsMicroseconds(nanoseconds);
    ModExactIff(nanoseconds / NSEC_PER_USEC, TWO_32 * USEC_PER_SEC);
  }

  lemma DecodedTimeMonotone(earlier: nat, later: nat)
    requires earlier <= later < TWO_32 * NSEC_PER_SEC
    ensures Decode(Seconds(earlier), Useconds(earlier)) <= Decode(Seconds(later), Useconds(later))
  {
    hide Decode, Seconds, Useconds;
    RecoversIff(earlier);
    RecoversIff(later);
  }

  // ---- A reading in ticks -----------------------------------------------------

  /** Nanoseconds of uptime: a tick lasts numer / denom nanoseconds. */
  function Uptime(ticks: nat, numer: nat, denom: nat): nat
    requires denom > 0
  {
    ticks * numer / denom
  }

  lemma WholeTicks(n: nat, numer: nat, denom: nat)
    requires denom > 0
    ensures Uptime(n * denom, numer, denom) == n * numer
  {
    assert (n * denom) * numer == denom * (n * numer) + 0 by { Regroup(n, denom, numer); }
    DivModUnique((n * denom) * numer, denom, n * numer, 0);
  }

  lemma Regroup(a: nat, b: nat, c: nat)
    ensures (a * b) * c == b * (a * c)
  {
  }

  /** The kernel build reads ticks and treats them as nanoseconds: the pair then
      decodes to the uptime for all readings exactly when a tick is a nanosecond. */
  lemma TicksDecodeToUptimeIff(numer: nat, denom: nat)
    requires 0 < denom < TWO_32
    ensures (forall ticks: nat :: ticks < TWO_32 * NSEC_PER_SEC ==>
               Decode(Seconds(ticks), Useconds(ticks)) == Uptime(ticks, numer, denom) / NSEC_PER_USEC)
            <==> numer == denom
  {
    hide Decode, Seconds, Useconds, Uptime;
    if numer == denom {
      forall ticks: nat | ticks < TWO_32 * NSEC_PER_SEC
        ensures Decode(Seconds(ticks), Useconds(ticks)) == Uptime(ticks, numer, denom) / NSEC_PER_USEC
      {
        RecoversIff(ticks);
        SameUnit(ticks, denom);
      }
    } else {
      var ticks: nat := NSEC_PER_USEC * denom;
      RecoversIff(ticks);
      WholeTicks(NSEC_PER_USEC, numer, denom);
      assert ticks / NSEC_PER_USEC == denom && (NSEC_PER_USEC * numer) / NSEC_PER_USEC == numer;
      assert Decode(Seconds(ticks), Useconds(ticks)) != Uptime(ticks, numer, denom) / NSEC_PER_USEC;
    }
  }

  lemma SameUnit(ticks: nat, denom: nat)
    requires denom > 0
    ensures Uptime(ticks, denom, denom) == ticks
  {
    DivModUnique(ticks * denom, denom, ticks, 0);
  }
}
