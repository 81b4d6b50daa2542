/** The monotonic clock: a wrapping hardware counter, extended, and scaled to nanoseconds. */
module MetalClock {
  const B32: nat := 0x1_0000_0000
  const B64: nat := 0x1_0000_0000_0000_0000

  function Add64(a: nat, b: nat): nat {
    (a + b) % B64
  }

  /** `mul_u64_u64_shr32`: four 32-bit products, added with wrap-around. */
  function MulShr32(a: nat, b: nat): nat {
    var a0, a1, b0, b1 := a % B32, a / B32, b % B32, b / B32;
    Add64(Add64(Add64(a0 * b0 / B32, a0 * b1), a1 * b0), a1 * b1 * B32 % B64)
  }

  lemma WrapSum(x: nat, y: nat, z: nat, t: nat)
    ensures Add64(Add64(Add64(x, y), z), t % B64) == (x + y + z + t) % B64
  {
  }

  lemma Products(a0: nat, a1: nat, b0: nat, b1: nat)
    ensures (a1 * B32 + a0) * (b1 * B32 + b0) == (a1 * b1 * B32 + a1 * b0 + a0 * b1) * B32 + a0 * b0
  {
  }

  lemma Split(q: nat, r: nat)
    ensures (q * B32 + r) / B32 == q + r / B32
  {
  }

  /** It is the product shifted right, modulo 2^64. */
  lemma MulShr32Exact(a: nat, b: nat)
    requires a < B64 && b < B64
    ensures MulShr32(a, b) == a * b / B32 % B64
  {
    hide Add64;
    var a0, a1, b0, b1 := a % B32, a / B32, b % B32, b / B32;
    assert a == a1 * B32 + a0 && b == b1 * B32 + b0;
    var x, y, z, t := a0 * b0, a0 * b1, a1 * b0, a1 * b1 * B32;
    Products(a0, a1, b0, b1);
    ShiftedSum(x, y, z, t, a * b);
    WrapSum(x / B32, y, z, t);
  }

  lemma ShiftedSum(x: nat, y: nat, z: nat, t: nat, p: nat)
    requires p == (t + z + y) * B32 + x
    ensures p / B32 == x / B32 + y + z + t
  {
    Split(t + z + y, x);
  }

  /** None of the partial products overflows 64 bits. */
  lemma PartialProductsFit(a: nat, b: nat)
    requires a < B64 && b < B64
    ensures var a0, a1, b0, b1 := a % B32, a / B32, b % B32, b / B32;
      a0 * b0 < B64 && a0 * b1 < B64 && a1 * b0 < B64 && a1 * b1 < B64
  {
    Bound(a % B32, b % B32);
    Bound(a % B32, b / B32);
    Bound(a / B32, b % B32);
    Bound(a / B32, b / B32);
  }

  /** `mul_u64_u64_shr32` itself, in 64-bit arithmetic: no product overflows, and the sum wraps. */
  method MulU64U64Shr32(a: nat, b: nat) returns (r: nat)
    requires a < B64 && b < B64
    ensures r < B64 && r == a * b / B32 % B64
  {
    hide MulShr32;
    var a0, a1, b0, b1 := a % B32, a / B32, b % B32, b / B32;
    PartialProductsFit(a, b);
    var low, cross, other, high := a0 * b0, a0 * b1, a1 * b0, a1 * b1;
    assert low < B64 && cross < B64 && other < B64 && high < B64;
    r := Add64(Add64(Add64(low / B32, cross), other), high * B32 % B64);
    assert r == MulShr32(a, b) by { Unfolds(a, b); }
    MulShr32Exact(a, b);
  }

  lemma Unfolds(a: nat, b: nat)
    ensures var a0, a1, b0, b1 := a % B32, a / B32, b % B32, b / B32;
      MulShr32(a, b) == Add64(Add64(Add64(a0 * b0 / B32, a0 * b1), a1 * b0), a1 * b1 * B32 % B64)
  {
  }

  lemma Bound(x: nat, y: nat)
    requires x < B32 && y < B32
    ensures x * y < B64
  {
    Ordered(x, B32 - 1, y);
  }

  // ---- Scaling ----

  const NANOS: nat := 1_000_000_000

  /** `ns_mult`: nanoseconds per tick, in 32.32 fixed point. */
  function NsMult(hz: nat): nat
    requires hz > 0
  {
    NANOS * B32 / hz
  }

  lemma NsMultFits(hz: nat)
    requires hz > 0
    ensures NsMult(hz) < B64 && NsMult(hz) * hz <= NANOS * B32 < (NsMult(hz) + 1) * hz
  {
    assert NANOS * B32 / hz <= NANOS * B32;
  }

  function Nanos(ticks: nat, hz: nat): nat
    requires hz > 0
  {
    MulShr32(ticks, NsMult(hz))
  }

  /** The result has not wrapped round 64 bits. */
  predicate InRange(ticks: nat, hz: nat)
    requires hz > 0
  {
    ticks < B64 && ticks * NsMult(hz) / B32 < B64
  }

  lemma Scaled(ticks: nat, hz: nat)
    requires hz > 0 && InRange(ticks, hz)
    ensures Nanos(ticks, hz) * B32 <= ticks * NsMult(hz) < (Nanos(ticks, hz) + 1) * B32
  {
    hide MulShr32, NsMult;
    NsMultFits(hz);
    MulShr32Exact(ticks, NsMult(hz));
    Quotient(ticks * NsMult(hz));
  }

  lemma Quotient(x: nat)
    ensures x / B32 * B32 <= x < (x / B32 + 1) * B32
  {
  }

  lemma Regroup(n: nat, h: nat, b: nat, k: nat, t: nat)
    ensures (n * b) * h == n * h * b && ((n + 1) * b) * h == n * h * b + h * b
    ensures (k * h) * t == (t * k) * h && ((k + 1) * h) * t == (t * k) * h + t * h
  {
    assert (n * b) * h == n * (b * h) == n * (h * b) == n * h * b;
    assert ((n + 1) * b) * h == (n * b + b) * h == (n * b) * h + b * h;
    assert (k * h) * t == k * (h * t) == k * (t * h) == (k * t) * h == (t * k) * h;
    assert ((k + 1) * h) * t == (k * h + h) * t == (k * h) * t + h * t;
  }

  /** Two roundings down, of the rate and of the product. */
  lemma TwoRoundings(n: nat, k: nat, t: nat, h: nat, rate: nat, b: nat)
    requires n * b <= t * k < (n + 1) * b && k * h <= rate < (k + 1) * h && h > 0
    ensures n * h * b <= t * rate < n * h * b + t * h + h * b
  {
    Ordered(n * b, t * k, h);
    Ordered(k * h, rate, t);
    StrictlyOrdered(t * k, (n + 1) * b, h);
    Ordered(rate, (k + 1) * h, t);
    Regroup(n, h, b, k, t);
  }

  /** The clock never runs ahead of the ideal `ticks * 10^9 / hz` nanoseconds, and lags it by less
      than `ticks / 2^32 + 1` (both sides multiplied by `hz * 2^32`). */
  lemma LagBound(ticks: nat, hz: nat)
    requires hz > 0 && InRange(ticks, hz)
    ensures Nanos(ticks, hz) * hz * B32 <= ticks * (NANOS * B32) < Nanos(ticks, hz) * hz * B32 + ticks * hz + hz * B32
  {
    hide Nanos, NsMult;
    Scaled(ticks, hz);
    NsMultFits(hz);
    TwoRoundings(Nanos(ticks, hz), NsMult(hz), ticks, hz, NANOS * B32, B32);
  }

  lemma Ordered(x: nat, y: nat, f: nat)
    requires x <= y
    ensures x * f <= y * f
  {
  }

  lemma StrictlyOrdered(x: nat, y: nat, f: nat)
    requires x < y && f > 0
    ensures x * f < y * f
  {
  }

  /** More ticks, never fewer nanoseconds. */
  lemma NanosMonotone(t: nat, t': nat, hz: nat)
    requires hz > 0 && t <= t' && InRange(t', hz)
    ensures InRange(t, hz) && Nanos(t, hz) <= Nanos(t', hz)
  {
    hide MulShr32, NsMult;
    NsMultFits(hz);
    Ordered(t, t', NsMult(hz));
    MulShr32Exact(t, NsMult(hz));
    MulShr32Exact(t', NsMult(hz));
    QuotientOrdered(t * NsMult(hz), t' * NsMult(hz));
  }

  lemma QuotientOrdered(x: nat, y: nat)
    requires x <= y
    ensures x / B32 <= y / B32
  {
  }

  // ---- Extension ----

  const PIT_RANGE: nat := 0x10000

  /** What a 16-bit down-counter shows `elapsed` cycles after it showed `start`. */
  function PitCount(start: nat, elapsed: nat): nat {
    (start - elapsed) % PIT_RANGE
  }

  /** The difference of two readings is the time between them, if that is less than a turn. */
  lemma PitDifference(start: nat, t: nat, t': nat)
    requires start < PIT_RANGE && t <= t' < t + PIT_RANGE
    ensures (PitCount(start, t) - PitCount(start, t')) % PIT_RANGE == t' - t
  {
    var a, b := start - t, start - t';
    assert a % PIT_RANGE == a - a / PIT_RANGE * PIT_RANGE && b % PIT_RANGE == b - b / PIT_RANGE * PIT_RANGE;
    Modulo(t' - t, b / PIT_RANGE - a / PIT_RANGE);
  }

  lemma Modulo(r: nat, k: int)
    requires r < PIT_RANGE
    ensures (r + k * PIT_RANGE) % PIT_RANGE == r
  {
  }

  /** `now` on the PIT: the last reading and the cycles counted so far. */
  class PitClock {
    const hz: nat
    var last: nat
    var cycles: nat
    /** The reading the clock was started at, and the cycles that have truly passed since. */
    ghost const start: nat
    ghost var elapsed: nat
    ghost var shown: nat

    ghost predicate Valid() reads this {
      hz > 0 && start < PIT_RANGE && last == PitCount(start, elapsed) && cycles == elapsed &&
        (InRange(elapsed, hz) ==> shown <= Nanos(elapsed, hz))
    }

    constructor (hz: nat, count: nat)
      requires hz > 0 && count < PIT_RANGE
      ensures Valid() && elapsed == 0 && start == count && shown == 0 && this.hz == hz
    {
      this.hz := hz;
      last, cycles := count, 0;
      start, elapsed, shown := count, 0, 0;
    }

    /** One reading, `passed` cycles after the one before. If every reading comes within a turn of
        the counter, the count is the true time, and the clock never goes back. */
    method Now(count: nat, ghost passed: nat) returns (ns: nat)
      requires Valid() && passed < PIT_RANGE && count == PitCount(start, elapsed + passed)
      requires InRange(elapsed + passed, hz)
      modifies this
      ensures Valid() && elapsed == old(elapsed) + passed && cycles == elapsed && shown == ns
      ensures ns == Nanos(elapsed, hz) && ns >= old(shown)
    {
      hide MulShr32, PitCount;
      PitDifference(start, elapsed, elapsed + passed);
      NanosMonotone(elapsed, elapsed + passed, hz);
      var step := (last - count) % PIT_RANGE;
      assert step == passed;
      last := count;
      cycles := (cycles + step) % B64;
      elapsed := elapsed + passed;
      ns := MulShr32(cycles, NANOS * B32 / hz);
      shown := ns;
    }
  }
}
