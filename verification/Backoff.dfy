/** The retry delay of the login loop: `baseDelay << attempt` in 64-bit arithmetic, capped,
    then shortened by a random quarter. */
module Backoff {
  import opened Prelude

  const BASE_DELAY: int := 1_000_000_000
  const MAX_DELAY: int := 10_000_000_000
  const TWO63: int := 0x8000_0000_0000_0000
  const TWO64: int := 0x1_0000_0000_0000_0000

  function Pow2(k: nat): (p: nat)
    ensures p >= 1
  {
    if k == 0 then 1 else 2 * Pow2(k - 1)
  }

  /** Two's-complement reading of the low 64 bits. */
  function Wrap64(x: int): (r: int)
    ensures -TWO63 <= r < TWO63
  {
    (x + TWO63) % TWO64 - TWO63
  }

  /** The delay before jitter. */
  function Capped(attempt: nat): int {
    var delay := Wrap64(BASE_DELAY * Pow2(attempt));
    if delay <= 0 || delay > MAX_DELAY then MAX_DELAY else delay
  }

  /** `d - rand.Int63n(d/4 + 1)` for some random value. */
  predicate Jittered(d: int, delay: int) {
    d - d / 4 <= delay <= d
  }

  lemma {:induction false} PowSplit(a: nat, b: nat)
    ensures Pow2(a + b) == Pow2(a) * Pow2(b)
  {
    if a > 0 {
      PowSplit(a - 1, b);
      assert Pow2(a + b) == 2 * (Pow2(a - 1) * Pow2(b));
      assert 2 * (Pow2(a - 1) * Pow2(b)) == (2 * Pow2(a - 1)) * Pow2(b);
    }
  }

  lemma {:induction false} PowMonotone(a: nat, b: nat)
    requires a <= b
    ensures Pow2(a) <= Pow2(b)
  {
    if a < b {
      PowMonotone(a, b - 1);
    }
  }

  lemma Constants()
    ensures Pow2(4) == 16 && Pow2(31) == 0x8000_0000 && Pow2(32) == 0x1_0000_0000
    ensures Pow2(33) == 0x2_0000_0000 && Pow2(34) == 0x4_0000_0000
  {
    assert Pow2(8) == 256;
    PowSplit(8, 8);
    PowSplit(16, 16);
    assert Pow2(32) == 2 * Pow2(31);
  }

  /** A multiple of a divisor of the modulus still is one after wrapping. */
  lemma WrapKeepsMultiple(q: int, c: nat, d: nat)
    requires c > 0 && TWO64 == c * d && d % 2 == 0
    ensures exists n :: Wrap64(q * c) == n * c
  {
    var x := q * c;
    var t := (x + TWO63) / TWO64;
    assert Wrap64(x) == x - t * TWO64;
    assert x - t * TWO64 == (q - t * d) * c by {
      assert t * TWO64 == t * d * c;
    }
  }

  /** Up to 33 doublings fit. */
  lemma {:induction false} NoWrap(k: nat)
    requires k <= 33
    ensures Wrap64(BASE_DELAY * Pow2(k)) == BASE_DELAY * Pow2(k)
  {
    Constants();
    PowMonotone(k, 33);
    assert Pow2(k) <= 0x2_0000_0000;
  }

  /** From 34 doublings on the wrapped value is a multiple of 2^34, so it is never a positive
      number of at most ten seconds. */
  lemma {:induction false} WrappedIsOut(k: nat)
    requires k >= 34
    ensures var w := Wrap64(BASE_DELAY * Pow2(k)); w <= 0 || w > MAX_DELAY
  {
    Constants();
    PowSplit(34, k - 34);
    var q, c := BASE_DELAY * Pow2(k - 34), 0x4_0000_0000;
    assert q * c == BASE_DELAY * Pow2(k);
    WrapKeepsMultiple(q, c, 0x4000_0000);
    var n :| Wrap64(q * c) == n * c;
    if n >= 1 {
      assert n * c >= c;
    }
  }

  /** Whatever the attempt number, even where the shift wraps or shifts every bit out, the
      delay is the mathematical one second doubled `k` times, capped at ten seconds. */
  lemma {:induction false} CappedExact(k: nat)
    ensures Capped(k) == if 1_000_000_000 * Pow2(k) < 10_000_000_000 then 1_000_000_000 * Pow2(k) else 10_000_000_000
  {
    if k <= 33 {
      NoWrap(k);
    } else {
      WrappedIsOut(k);
      Constants();
      PowMonotone(34, k);
    }
  }

  /** Jitter never lengthens a delay and never removes more than a quarter of it, so the loop
      always waits between 0.75 and 10 seconds of its own accord. */
  lemma JitterBounds(k: nat, delay: int)
    requires Jittered(Capped(k), delay)
    ensures 750_000_000 <= delay <= 10_000_000_000 && 4 * delay >= 3 * Capped(k) && delay <= Capped(k)
  {
    CappedExact(k);
  }
}
