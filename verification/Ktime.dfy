/** Tick conversions of ktime.c and timeconv.c in 64-bit arithmetic, and the deadlines built from them. */
module Ktime {
  import opened Common
  import opened Arithmetic

  const U64_MAX: nat := 0xFFFF_FFFF_FFFF_FFFF
  const MSEC_PER_SEC: nat := 1000
  const NSEC_PER_SEC: nat := 1_000_000_000

  /** The timer frequency is a positive 64-bit number. */
  predicate Frequency(f: nat) {
    0 < f <= U64_MAX
  }

  /** The quotient rounded up. */
  function Ceiling(a: nat, d: nat): nat
    requires d > 0
  {
    (a + d - 1) / d
  }

  /** The ticks of the part below one second: `r` units of which there are `unit` to the second. */
  function Partial(r: nat, f: nat, unit: nat): nat
    requires unit > 0
  {
    var fraction := f % unit * r;
    f / unit * r + fraction / unit + if fraction % unit != 0 then 1 else 0
  }

  /** ktime_ms_to_ticks and ktime_ns_to_ticks: `unit` parts per second. */
  function ToTicks(n: nat, f: nat, unit: nat): nat
    requires f > 0 && unit > 0
  {
    if n / unit > U64_MAX / f then U64_MAX else AddCapped(Times(n / unit, f), Partial(n % unit, f, unit))
  }

  function Times(a: nat, b: nat): nat { a * b }

  /** The sum, or the largest number where it would overflow. */
  function AddCapped(a: nat, b: nat): nat {
    if a > U64_MAX - b then U64_MAX else a + b
  }

  lemma CeilingIs(a: nat, d: nat)
    requires d > 0
    ensures Ceiling(a, d) == a / d + if a % d != 0 then 1 else 0
  {
    var q, r := a / d, a % d;
    assert a == q * d + r;
    if r == 0 {
      DivIs(a + d - 1, d, q);
    } else {
      assert (q + 1) * d == q * d + d && (q + 2) * d == q * d + 2 * d;
      DivIs(a + d - 1, d, q + 1);
    }
  }

  lemma CeilingShift(k: nat, a: nat, d: nat)
    requires d > 0
    ensures Ceiling(k * d + a, d) == k + Ceiling(a, d)
  {
    var q := (a + d - 1) / d;
    assert q * d <= a + d - 1 < (q + 1) * d;
    assert (k + q) * d == k * d + q * d && (k + q + 1) * d == k * d + (q + 1) * d;
    DivIs(k * d + a + d - 1, d, k + q);
  }

  lemma Expand(s: nat, u: nat, r: nat, a: nat, b: nat)
    ensures (s * u + r) * (a * u + b) == (s * (a * u + b) + a * r) * u + b * r
  {
    var f := a * u + b;
    assert (s * u + r) * f == s * u * f + r * f;
    assert s * u * f == s * f * u;
    assert r * f == r * (a * u) + r * b;
    assert r * (a * u) == a * r * u;
    assert (s * f + a * r) * u == s * f * u + a * r * u;
  }

  lemma PartialIs(r: nat, f: nat, unit: nat)
    requires unit > 0
    ensures Partial(r, f, unit) == f / unit * r + Ceiling(f % unit * r, unit)
  {
    CeilingIs(f % unit * r, unit);
  }

  /** The part below one second is at most one second's worth, so nothing overflows. */
  lemma PartialFits(r: nat, f: nat, unit: nat)
    requires r < unit
    ensures Partial(r, f, unit) <= f
  {
    PartialIs(r, f, unit);
    Split(f, unit);
    Fewer(f / unit, r, unit);
    Fewer(f % unit, r, unit);
    CeilingAtMost(f % unit * r, unit, f % unit);
  }

  lemma Fewer(a: nat, r: nat, unit: nat)
    requires r <= unit
    ensures a * r <= a * unit && a * r <= unit * a
  {
    MulLe(r, unit, a);
  }

  lemma CeilingAtMost(x: nat, d: nat, b: nat)
    requires d > 0 && x <= d * b
    ensures Ceiling(x, d) <= b
  {
    var q := Ceiling(x, d);
    assert q * d <= x + d - 1;
    assert (b + 1) * d == d * b + d;
    MulLe(b + 1, q, d);
  }

  /** Before any saturation the conversion is duration times frequency, rounded up. */
  lemma ToTicksSum(n: nat, f: nat, unit: nat)
    requires f > 0 && unit > 0
    ensures Ceiling(n * f, unit) == n / unit * f + Partial(n % unit, f, unit)
  {
    hide Ceiling, Partial;
    Split(n, unit);
    Split(f, unit);
    PartialIs(n % unit, f, unit);
    SumFrom(n, f, unit, n / unit, n % unit, f / unit, f % unit);
  }

  lemma SumFrom(n: nat, f: nat, unit: nat, s: nat, r: nat, a: nat, b: nat)
    requires unit > 0 && n == s * unit + r && f == a * unit + b
    ensures Ceiling(n * f, unit) == s * f + (a * r + Ceiling(b * r, unit))
  {
    hide Ceiling;
    Expand(s, unit, r, a, b);
    CeilingShift(s * f + a * r, b * r, unit);
  }

  lemma Split(n: nat, d: nat)
    requires d > 0
    ensures n == n / d * d + n % d
  {}

  lemma TooMany(s: nat, f: nat)
    requires f > 0 && s > U64_MAX / f
    ensures s * f > U64_MAX
  {
    assert (U64_MAX / f + 1) * f > U64_MAX;
    MulLe(U64_MAX / f + 1, s, f);
  }

  /** The conversion is exactly the ceiling, or the largest number when the ceiling does not fit. */
  lemma ToTicksExact(n: nat, f: nat, unit: nat)
    requires Frequency(f) && unit > 0
    ensures ToTicks(n, f, unit) == if Ceiling(n * f, unit) <= U64_MAX then Ceiling(n * f, unit) else U64_MAX
  {
    hide Partial;
    hide Ceiling;
    ToTicksSum(n, f, unit);
    PartialFits(n % unit, f, unit);
    if n / unit > U64_MAX / f { TooMany(n / unit, f); }
  }

  /** The deadline of a timed wait: now plus the converted duration, saturated. */
  function Deadline(now: nat, ticks: nat): nat {
    AddCapped(now, ticks)
  }

  lemma CeilingCovers(a: nat, d: nat)
    requires d > 0
    ensures a <= Ceiling(a, d) * d < a + d
  {
    var q := Ceiling(a, d);
    assert q * d <= a + d - 1 < (q + 1) * d;
    assert (q + 1) * d == q * d + d;
  }

  /** A wait whose deadline was not saturated is not over before its duration is: at the deadline or later,
      the elapsed ticks cover the `n` units asked for. */
  lemma NeverEarly(n: nat, f: nat, unit: nat, now: nat, later: nat)
    requires Frequency(f) && unit > 0 && ToTicks(n, f, unit) < U64_MAX
    requires Deadline(now, ToTicks(n, f, unit)) < U64_MAX && later >= Deadline(now, ToTicks(n, f, unit))
    ensures (later - now) * unit >= n * f
  {
    ToTicksExact(n, f, unit);
    CeilingCovers(n * f, unit);
    MulLe(Ceiling(n * f, unit), later - now, unit);
  }

  /** And it is over less than one tick later than asked for. */
  lemma NotLate(n: nat, f: nat, unit: nat)
    requires Frequency(f) && unit > 0 && ToTicks(n, f, unit) < U64_MAX
    ensures ToTicks(n, f, unit) * unit < n * f + unit
  {
    ToTicksExact(n, f, unit);
    CeilingCovers(n * f, unit);
  }

  // ----- Futex timeouts -----

  /** futex_relative_timeout: seconds and nanoseconds as milliseconds, rounded up or saturated. */
  function RelativeMs(seconds: nat, nanoseconds: nat): nat
    requires nanoseconds < NSEC_PER_SEC
  {
    if seconds > (U64_MAX - 999_999) / 1000 then U64_MAX
    else seconds * 1000 + (nanoseconds + 999_999) / 1_000_000
  }

  /** The least number of milliseconds that does not fall short of the time asked for, or the cap exactly when the sum might
      overflow. */
  lemma RelativeCovers(seconds: nat, nanoseconds: nat)
    requires nanoseconds < NSEC_PER_SEC
    ensures var ms, asked := RelativeMs(seconds, nanoseconds), seconds * NSEC_PER_SEC + nanoseconds;
      && ms <= U64_MAX && (ms == U64_MAX <==> seconds * 1000 + 999_999 > U64_MAX)
      && (ms < U64_MAX ==> asked <= ms * 1_000_000 < asked + 1_000_000)
  {}

  /** A futex wait with a relative timeout does not report the timeout early. */
  lemma FutexNeverEarly(seconds: nat, nanoseconds: nat, f: nat, now: nat, later: nat)
    requires nanoseconds < NSEC_PER_SEC && Frequency(f)
    requires var ticks := ToTicks(RelativeMs(seconds, nanoseconds), f, MSEC_PER_SEC);
      RelativeMs(seconds, nanoseconds) < U64_MAX && ticks < U64_MAX && Deadline(now, ticks) < U64_MAX && later >= Deadline(now, ticks)
    ensures (later - now) * NSEC_PER_SEC >= (seconds * NSEC_PER_SEC + nanoseconds) * f
  {
    var ms := RelativeMs(seconds, nanoseconds);
    RelativeCovers(seconds, nanoseconds);
    NeverEarly(ms, f, MSEC_PER_SEC, now, later);
    Scale((later - now) * MSEC_PER_SEC, ms * f);
    Associate(later - now);
    MulLe(seconds * NSEC_PER_SEC + nanoseconds, ms * 1_000_000, f);
    AssociateF(ms, f);
  }

  lemma Scale(a: nat, b: nat)
    requires a >= b
    ensures a * 1_000_000 >= b * 1_000_000
  {}

  lemma Associate(e: int)
    ensures e * MSEC_PER_SEC * 1_000_000 == e * NSEC_PER_SEC
  {}

  lemma AssociateF(ms: nat, f: nat)
    ensures ms * f * 1_000_000 == ms * 1_000_000 * f
  {}

  // ----- Ticks to nanoseconds and back -----

  /** ktime_ticks_to_ns; the last addition is in 64 bits. */
  function TicksToNs(ticks: nat, f: nat): nat {
    if f == 0 then 0
    else
      var seconds := ticks / f;
      if seconds > U64_MAX / NSEC_PER_SEC then U64_MAX
      else (seconds * NSEC_PER_SEC + ticks % f * NSEC_PER_SEC / f) % (U64_MAX + 1)
  }

  /** The time lies in the last second that 64 bits can name, but past its last nanosecond. */
  predicate PastTheEnd(ticks: nat, f: nat)
    requires f > 0
  {
    ticks / f == U64_MAX / NSEC_PER_SEC && ticks % f * NSEC_PER_SEC / f > U64_MAX % NSEC_PER_SEC
  }

  /** It is the floor of ticks * 10^9 / frequency, or the largest number when that does not fit,
      except exactly past the end of the last second, where the last addition wraps. */
  lemma TicksToNsExact(ticks: nat, f: nat)
    requires f > 0
    ensures TicksToNs(ticks, f) == Least(ticks * NSEC_PER_SEC / f, U64_MAX) <==> !PastTheEnd(ticks, f)
    ensures ticks * NSEC_PER_SEC / f <= U64_MAX ==> !PastTheEnd(ticks, f)
  {
    ScaleApart(ticks, f, NSEC_PER_SEC);
    var s, part := ticks / f, ticks % f * NSEC_PER_SEC / f;
    PartOfSecond(ticks % f, f);
    if s > U64_MAX / NSEC_PER_SEC {
      MulLe(U64_MAX / NSEC_PER_SEC + 1, s, NSEC_PER_SEC);
    } else if s < U64_MAX / NSEC_PER_SEC {
      MulLe(s, U64_MAX / NSEC_PER_SEC - 1, NSEC_PER_SEC);
    }
  }

  lemma PartOfSecond(rest: nat, f: nat)
    requires rest < f
    ensures rest * NSEC_PER_SEC / f < NSEC_PER_SEC
  {
    MulLe(rest + 1, f, NSEC_PER_SEC);
    DivBounds(rest * NSEC_PER_SEC, f);
    if rest * NSEC_PER_SEC / f >= NSEC_PER_SEC { MulLe(NSEC_PER_SEC, rest * NSEC_PER_SEC / f, f); }
  }

  /** A kilohertz timer at the end of 64-bit nanoseconds: the answer is less than a second. */
  lemma TicksToNsWraps()
    ensures PastTheEnd(18446744073999, 1000) && TicksToNs(18446744073999, 1000) == 289448384
  {}

  /** With a timer of at most 1 GHz, ticks survive the way to nanoseconds and back. */
  lemma RoundTrip(ticks: nat, f: nat)
    requires Frequency(f) && f <= NSEC_PER_SEC && ticks * NSEC_PER_SEC / f <= U64_MAX && ticks <= U64_MAX
    ensures ToTicks(TicksToNs(ticks, f), f, NSEC_PER_SEC) == ticks
  {
    hide ToTicks;
    hide TicksToNs;
    hide Ceiling;
    TicksToNsExact(ticks, f);
    var ns := ticks * NSEC_PER_SEC / f;
    ToTicksExact(ns, f, NSEC_PER_SEC);
    Split(ticks * NSEC_PER_SEC, f);
    CeilingFrom(ns * f, ticks, f);
  }

  lemma CeilingFrom(a: nat, t: nat, f: nat)
    requires f <= NSEC_PER_SEC && a <= t * NSEC_PER_SEC < a + f
    ensures Ceiling(a, NSEC_PER_SEC) == t
  {
    DivIs(a + NSEC_PER_SEC - 1, NSEC_PER_SEC, t);
  }
}
