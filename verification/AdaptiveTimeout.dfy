/**
 adaptive_timeout.c: the estimator of RFC 6298 with time in real seconds and
 the timeout in whole nanoseconds.
 */
module AdaptiveTimeout {
  const GRANULARITY := 0.00001
  const NANOS := 1_000_000_000

  function RealMax(x: real, y: real): (r: real)
  {
    if x >= y then x else y
  }

  function RealMin(x: real, y: real): (r: real)
  {
    if x <= y then x else y
  }

  function Abs(x: real): (r: real)
  {
    if x >= 0.0 then x else -x
  }

  datatype Timespec = Timespec(sec: int, nsec: int)
  {
    function Nanos(): int
    {
      sec * NANOS + nsec
    }
  }

  /** `double_to_timespec` below its cap of 2^63 seconds. */
  function ToTimespec(d: real): (t: Timespec)
  {
    if d < 0.000000001 then Timespec(0, 0)
    else Timespec(d.Floor, ((d - d.Floor as real) * 1_000_000_000.0).Floor)
  }

  function ToSeconds(nanos: int): (d: real)
  {
    nanos as real / 1_000_000_000.0
  }

  /** The conversion truncates to nanoseconds and is normalised. */
  lemma ToTimespecTruncates(d: real)
    requires 0.0 <= d
    ensures var t := ToTimespec(d);
            0 <= t.nsec < NANOS && t.Nanos() == (d * 1_000_000_000.0).Floor
  {
    if d >= 0.000000001 {
      var f := (d - d.Floor as real) * 1_000_000_000.0;
      assert d * 1_000_000_000.0 == (d.Floor * NANOS) as real + f;
    }
  }

  /** `is_first_measurement`, `smoothed_rtt`, `rtt_variation`, `rto`. */
  datatype Estimator = Estimator(isFirst: bool, srtt: real, rttvar: real, rto: int)

  const FRESH := Estimator(true, 0.0, 0.0, 3_906_250)

  /** The timeout in seconds before it is truncated to nanoseconds. */
  function RtoSeconds(e: Estimator): (d: real)
  {
    RealMin(60.0, e.srtt + RealMax(GRANULARITY, 4.0 * e.rttvar))
  }

  /** `adaptive_timeout_stop_timer` with a round trip of `r` seconds. */
  function Measure(e: Estimator, r: real): (e': Estimator)
  {
    var m := if e.isFirst then Estimator(false, r, r / 2.0, e.rto)
             else Estimator(false, 0.875 * e.srtt + 0.125 * r, 0.75 * e.rttvar + 0.25 * Abs(e.srtt - r), e.rto);
    m.(rto := ToTimespec(RtoSeconds(m)).Nanos())
  }

  /** `adaptive_timeout_backoff`. */
  function Backoff(e: Estimator): (e': Estimator)
  {
    e.(rto := ToTimespec(RealMin(1.0, 2.0 * ToSeconds(e.rto))).Nanos())
  }

  // ------------------------------------------------------------- back-off

  function Pow2(k: nat): (r: nat)
  {
    if k == 0 then 1 else 2 * Pow2(k - 1)
  }

  function IntMin(x: int, y: int): (r: int)
  {
    if x <= y then x else y
  }

  lemma BackoffOnce(e: Estimator)
    requires 0 <= e.rto
    ensures Backoff(e).rto == IntMin(NANOS, 2 * e.rto)
  {
    var d := RealMin(1.0, 2.0 * ToSeconds(e.rto));
    ToTimespecTruncates(d);
    assert d * 1_000_000_000.0 == IntMin(NANOS, 2 * e.rto) as real;
  }

  function Backoffs(e: Estimator, k: nat): (e': Estimator)
  {
    if k == 0 then e else Backoff(Backoffs(e, k - 1))
  }

  lemma CapTwice(m: int)
    requires 0 <= m
    ensures IntMin(NANOS, 2 * IntMin(NANOS, m)) == IntMin(NANOS, 2 * m)
  {
  }

  lemma Pow2Times(k: nat, n: int)
    requires 1 <= k
    ensures Pow2(k) * n == 2 * (Pow2(k - 1) * n)
  {
  }

  lemma Pow2TimesNonNegative(k: nat, n: int)
    requires 0 <= n
    ensures 0 <= Pow2(k) * n
  {
  }

  lemma NonNegativeMin(m: int)
    requires 0 <= m
    ensures 0 <= IntMin(NANOS, m)
  {
  }

  /** `k` back-offs in a row give exactly min(1 s, 2^k * RTO). */
  lemma {:induction false} BackoffsExact(e: Estimator, k: nat)
    requires 0 <= e.rto && 1 <= k
    ensures Backoffs(e, k).rto == IntMin(NANOS, Pow2(k) * e.rto)
    ensures Backoffs(e, k) == e.(rto := Backoffs(e, k).rto)
  {
    if k == 1 {
      BackoffOnce(e);
      assert Backoffs(e, 1) == Backoff(Backoffs(e, 0));
      assert Pow2(1) == 2;
    } else {
      BackoffsExact(e, k - 1);
      hide Pow2, IntMin, ToTimespec, ToSeconds, RealMin;
      Pow2Times(k, e.rto);
      Pow2TimesNonNegative(k - 1, e.rto);
      CapTwice(Pow2(k - 1) * e.rto);
      NonNegativeMin(Pow2(k - 1) * e.rto);
      BackoffOnce(Backoffs(e, k - 1));
    }
  }

  lemma {:induction false} Pow2Grows(k: nat)
    ensures if k <= 8 then Pow2(k) <= Pow2(8) else Pow2(8) <= Pow2(k)
    decreases if k <= 8 then 8 - k else k
  {
    if k < 8 {
      Pow2Grows(k + 1);
    } else if k > 8 {
      Pow2Grows(k - 1);
    }
  }

  /** Without a measurement the timeout starts at 1/256 second, and `k` back-offs
      make it 2^k times as long, up to one second. */
  lemma BackoffsFromStart(k: nat)
    ensures Backoffs(FRESH, k).rto == if k <= 8 then Pow2(k) * 3_906_250 else 1_000_000_000
    ensures Pow2(8) * 3_906_250 == 1_000_000_000
  {
    assert Pow2(4) == 16 && Pow2(8) == 16 * Pow2(4);
    if 1 <= k {
      BackoffsExact(FRESH, k);
      Pow2Grows(k);
    }
    hide Backoff;
  }

  /** Doubling, as section 5.5 of RFC 6298 asks, happens exactly up to half a
      second; a timeout above one second is lowered instead. */
  lemma BackoffDoublesIff(e: Estimator)
    requires 0 < e.rto
    ensures Backoff(e).rto == 2 * e.rto <==> 2 * e.rto <= NANOS
    ensures Backoff(e).rto > e.rto <==> e.rto < NANOS
  {
    BackoffOnce(e);
  }

  datatype Op = Sample(r: real) | BackOff

  function Apply(e: Estimator, op: Op): (e': Estimator)
  {
    if op.Sample? then Measure(e, op.r) else Backoff(e)
  }

  function History(ops: seq<Op>): (e: Estimator)
  {
    if ops == [] then FRESH else Apply(History(ops[..|ops| - 1]), ops[|ops| - 1])
  }

  /** Such a timeout is reached by a first round trip of one second: it is
      three seconds, and the back-off makes it one. */
  lemma BackoffLowersThreeSeconds()
    ensures History([Sample(1.0)]).rto == 3 * NANOS
    ensures Backoff(History([Sample(1.0)])).rto == NANOS
  {
    assert [Sample(1.0)][..0] == [];
    assert History([]) == FRESH;
    var e := History([Sample(1.0)]);
    assert e == Measure(FRESH, 1.0);
    ToTimespecTruncates(3.0);
    assert RtoSeconds(e) == 3.0;
    BackoffOnce(e);
  }

  // ------------------------------------------------------------- histories

  predicate SamplesWithin(ops: seq<Op>, lo: real, hi: real)
  {
    forall i :: 0 <= i < |ops| && ops[i].Sample? ==> lo <= ops[i].r <= hi
  }

  predicate WithinBounds(e: Estimator, lo: real, hi: real)
  {
    && (!e.isFirst ==> lo <= e.srtt <= hi && 0.0 <= e.rttvar <= RealMax(hi / 2.0, hi - lo))
    && 10_000 <= e.rto <= 60 * NANOS
  }

  lemma MeasureKeepsBounds(e: Estimator, r: real, lo: real, hi: real)
    requires 0.0 <= lo <= r <= hi && WithinBounds(e, lo, hi)
    ensures WithinBounds(Measure(e, r), lo, hi)
  {
    var m := Measure(e, r);
    var d := RtoSeconds(m);
    assert GRANULARITY <= d <= 60.0;
    ToTimespecTruncates(d);
    assert 10_000.0 <= d * 1_000_000_000.0 <= (60 * NANOS) as real;
  }

  /** Over every interleaving of round trips in [lo, hi] and back-offs the
      smoothed round trip stays among them, the variation stays bounded, and
      the timeout stays between 10 microseconds and 60 seconds. */
  lemma {:induction false} EstimatorBounded(ops: seq<Op>, lo: real, hi: real)
    requires 0.0 <= lo <= hi && SamplesWithin(ops, lo, hi)
    ensures WithinBounds(History(ops), lo, hi)
  {
    if ops != [] {
      var before := ops[..|ops| - 1];
      EstimatorBounded(before, lo, hi);
      var op := ops[|ops| - 1];
      if op.Sample? {
        MeasureKeepsBounds(History(before), op.r, lo, hi);
      } else {
        BackoffOnce(History(before));
      }
    }
  }

  // ----------------------------------------------------------- convergence

  function Pow(b: real, n: nat): (r: real)
  {
    if n == 0 then 1.0 else b * Pow(b, n - 1)
  }

  function ConstantRtt(e: Estimator, r: real, n: nat): (e': Estimator)
  {
    if n == 0 then e else Measure(ConstantRtt(e, r, n - 1), r)
  }

  /** At the constant round trip itself only the variation shrinks. */
  lemma SteadyMeasure(e: Estimator, r: real)
    requires !e.isFirst && e.srtt == r
    ensures var m := Measure(e, r);
            !m.isFirst && m.srtt == r && m.rttvar == 0.75 * e.rttvar
  {
    hide ToTimespec, RtoSeconds;
  }

  /** From the first measurement on, a constant round trip is tracked exactly. */
  lemma {:induction false} ConstantFromStart(r: real, n: nat)
    requires 0.0 < r
    ensures var e := ConstantRtt(Measure(FRESH, r), r, n);
            !e.isFirst && e.srtt == r && e.rttvar == Pow(0.75, n) * (r / 2.0)
  {
    hide ToTimespec, RtoSeconds;
    if n > 0 {
      ConstantFromStart(r, n - 1);
      var e := ConstantRtt(Measure(FRESH, r), r, n - 1);
      SteadyMeasure(e, r);
      assert 0.75 * (Pow(0.75, n - 1) * (r / 2.0)) == Pow(0.75, n) * (r / 2.0);
    }
  }

  /** 0.75^n falls below every positive bound: 0.75^n * (n + 3) <= 3. */
  lemma {:induction false} ThreeQuartersShrinks(n: nat)
    ensures 0.0 < Pow(0.75, n) && Pow(0.75, n) * (n + 3) as real <= 3.0
  {
    if n > 0 {
      ThreeQuartersShrinks(n - 1);
      var p := Pow(0.75, n - 1);
      assert p * (n + 2) as real <= 3.0;
      assert Pow(0.75, n) * (n + 3) as real == 0.75 * (p * (n + 3) as real);
      assert p * (n + 3) as real == p * (n + 2) as real + p;
      assert p * (n + 2) as real >= p * 3.0;
    }
  }

  lemma SmallVariation(r: real, n: nat)
    requires 0.0 < r && 600_000.0 * r <= n as real
    requires 0.0 < Pow(0.75, n) && Pow(0.75, n) * (n + 3) as real <= 3.0
    ensures 0.0 <= 4.0 * (Pow(0.75, n) * (r / 2.0)) <= GRANULARITY
  {
    hide Pow;
    var p := Pow(0.75, n);
    assert p * (600_000.0 * r) <= p * (n + 3) as real;
    assert p * (600_000.0 * r) == 600_000.0 * (p * r);
    assert p * (r / 2.0) == p * r / 2.0;
  }

  /** With a constant round trip the timeout, before truncation, settles on
      the round trip plus the clock granularity, capped at 60 seconds. */
  lemma RtoSettles(r: real) returns (limit: nat)
    requires 0.0 < r
    ensures forall n :: n >= limit ==>
              RtoSeconds(ConstantRtt(Measure(FRESH, r), r, n)) == RealMin(60.0, r + 0.00001)
  {
    limit := (600_000.0 * r).Floor + 1;
    forall n | n >= limit
      ensures RtoSeconds(ConstantRtt(Measure(FRESH, r), r, n)) == RealMin(60.0, r + 0.00001)
    {
      ConstantFromStart(r, n);
      ThreeQuartersShrinks(n);
      SmallVariation(r, n);
      hide Measure, Pow, ConstantRtt;
    }
  }

  /** The timeout a measurement leaves is the longest whole number of
      nanoseconds within SRTT + max(10 us, 4 RTTVAR), or a minute. */
  lemma MeasuredTimeout(e: Estimator, r: real)
    requires 0.0 <= Measure(e, r).srtt
    ensures var m := Measure(e, r);
            var d := m.srtt + if 4.0 * m.rttvar >= 0.00001 then 4.0 * m.rttvar else 0.00001;
            if d >= 60.0 then m.rto == 60_000_000_000
            else m.rto as real <= 1_000_000_000.0 * d < (m.rto + 1) as real
  {
    var m := Measure(e, r);
    ToTimespecTruncates(RtoSeconds(m));
  }

  // --------------------------------------------------------- step response

  /** One measurement brings the smoothed round trip an eighth, and the variation
      a quarter, of the way. */
  lemma MeasureOnce(e: Estimator, r: real)
    requires !e.isFirst
    ensures var m, d := Measure(e, r), if r >= e.srtt then r - e.srtt else e.srtt - r;
            && !m.isFirst
            && 8.0 * (m.srtt - e.srtt) == r - e.srtt
            && 4.0 * (m.rttvar - e.rttvar) == d - e.rttvar
  {
    hide ToTimespec, RtoSeconds;
  }

  lemma StepNext(s: real, v: real, r: real, d: real, s0: real, v0: real, p: real, q: real)
    requires d == (if r >= s0 then r - s0 else s0 - r) && 0.0 < p
    requires s - r == p * (s0 - r) && v == q * (v0 - 2.0 * d) + 2.0 * d * p
    ensures s + (r - s) / 8.0 - r == (0.875 * p) * (s0 - r)
    ensures v + ((if r >= s then r - s else s - r) - v) / 4.0 ==
              (0.75 * q) * (v0 - 2.0 * d) + 2.0 * d * (0.875 * p)
  {
    assert r >= s0 ==> 0.0 <= p * (r - s0);
    assert r < s0 ==> 0.0 < p * (s0 - r);
    assert p * (s0 - r) == -(p * (r - s0));
    assert (if r >= s then r - s else s - r) == p * d;
    assert 2.0 * d * p == 2.0 * (p * d);
    assert 2.0 * d * (0.875 * p) == 1.75 * (p * d);
    assert (0.75 * q) * (v0 - 2.0 * d) == 0.75 * (q * (v0 - 2.0 * d));
    assert (0.875 * p) * (s0 - r) == 0.875 * (p * (s0 - r));
  }

  lemma PowNext(b: real, n: nat)
    ensures Pow(b, n) == if n == 0 then 1.0 else b * Pow(b, n - 1)
  {
  }

  lemma {:induction false} SevenEighthsShrinks(n: nat)
    ensures 0.0 < Pow(0.875, n) && Pow(0.875, n) * (n + 7) as real <= 7.0
  {
    if n > 0 {
      SevenEighthsShrinks(n - 1);
      var p := Pow(0.875, n - 1);
      assert p * (n + 6) as real <= 7.0;
      assert Pow(0.875, n) * (n + 7) as real == 0.875 * (p * (n + 7) as real);
      assert p * (n + 7) as real == p * (n + 6) as real + p;
      assert p * (n + 6) as real >= p * 7.0;
    }
  }

  /** From any estimates, `n` measurements of the same round trip close seven
      eighths of the gap to the power of `n`, exactly. */
  lemma {:induction false} StepResponse(e: Estimator, r: real, n: nat)
    requires !e.isFirst
    ensures var m, d := ConstantRtt(e, r, n), if r >= e.srtt then r - e.srtt else e.srtt - r;
            && !m.isFirst
            && m.srtt - r == Pow(0.875, n) * (e.srtt - r)
            && m.rttvar == Pow(0.75, n) * (e.rttvar - 2.0 * d) + 2.0 * d * Pow(0.875, n)
  {
    hide Measure, Pow;
    PowNext(0.875, n);
    PowNext(0.75, n);
    if n > 0 {
      StepResponse(e, r, n - 1);
      SevenEighthsShrinks(n - 1);
      var m, d := ConstantRtt(e, r, n - 1), if r >= e.srtt then r - e.srtt else e.srtt - r;
      MeasureOnce(m, r);
      StepNext(m.srtt, m.rttvar, r, d, e.srtt, e.rttvar, Pow(0.875, n - 1), Pow(0.75, n - 1));
    }
  }

  // From any earlier history the estimates approach a new constant round trip.

  /** Distance of the smoothed round trip from `r`, and the variation, both
      bounded by a multiple of 0.875^n. */
  predicate Near(e: Estimator, r: real, c: real)
  {
    !e.isFirst && Abs(e.srtt - r) <= c / 2.0 && 0.0 <= e.rttvar <= c
  }

  lemma MeasureApproaches(e: Estimator, r: real, c: real)
    requires Near(e, r, c)
    ensures Near(Measure(e, r), r, 0.875 * c)
  {
    hide ToTimespec, RtoSeconds;
    var m := Measure(e, r);
    assert m.srtt - r == 0.875 * (e.srtt - r);
  }

  /** c * 0.875^n. */
  function Shrunk(c: real, n: nat): (r: real)
  {
    if n == 0 then c else 0.875 * Shrunk(c, n - 1)
  }

  lemma {:induction false} ShrunkIsPow(c: real, n: nat)
    ensures Shrunk(c, n) == Pow(0.875, n) * c
  {
    if n > 0 {
      ShrunkIsPow(c, n - 1);
    }
  }

  lemma {:induction false} EstimatesApproach(e: Estimator, r: real, c: real, n: nat)
    requires Near(e, r, c)
    ensures Near(ConstantRtt(e, r, n), r, Shrunk(c, n))
  {
    hide Measure, Near;
    if n > 0 {
      EstimatesApproach(e, r, c, n - 1);
      MeasureApproaches(ConstantRtt(e, r, n - 1), r, Shrunk(c, n - 1));
    }
  }

  lemma RtoOfNear(e: Estimator, r: real, c: real)
    requires Near(e, r, c) && 0.0 <= c && 4.0 * c <= GRANULARITY
    ensures Abs(RtoSeconds(e) - RealMin(60.0, r + 0.00001)) <= c
  {
  }

  lemma ScaledBelow(p: real, c: real, tolerance: real, m: real)
    requires 0.0 < p && 0.0 < c && 0.0 < tolerance
    requires p * m <= 7.0 && 7.0 * c <= m * tolerance
    ensures 0.0 <= p * c <= tolerance
  {
    assert p * (7.0 * c) <= p * (m * tolerance);
    assert p * (m * tolerance) == (p * m) * tolerance;
    assert (p * m) * tolerance <= 7.0 * tolerance;
  }

  lemma PowBelow(c: real, tolerance: real, n: nat)
    requires 0.0 < c && 0.0 < tolerance && 7.0 * c <= (n + 7) as real * tolerance
    ensures 0.0 <= Shrunk(c, n) <= tolerance
  {
    SevenEighthsShrinks(n);
    ShrunkIsPow(c, n);
    ScaledBelow(Pow(0.875, n), c, tolerance, (n + 7) as real);
  }

  lemma LimitLargeEnough(c: real, tolerance: real, n: nat)
    requires 0.0 < c && 0.0 < tolerance && (7.0 * c / tolerance).Floor + 1 <= n
    ensures 7.0 * c <= (n + 7) as real * tolerance
  {
    var k := 7.0 * c / tolerance;
    assert k * tolerance == 7.0 * c;
    assert k <= (n + 7) as real;
    assert k * tolerance <= (n + 7) as real * tolerance;
  }

  lemma RtoNearLimit(e: Estimator, r: real, c: real, t: real, n: nat)
    requires Near(e, r, c) && 0.0 < c && 0.0 < t <= GRANULARITY / 4.0
    requires 7.0 * c <= (n + 7) as real * t
    ensures Abs(RtoSeconds(ConstantRtt(e, r, n)) - RealMin(60.0, r + 0.00001)) <= t
  {
    hide RtoSeconds, ConstantRtt;
    EstimatesApproach(e, r, c, n);
    PowBelow(c, t, n);
    RtoOfNear(ConstantRtt(e, r, n), r, Shrunk(c, n));
  }

  function IntMax(x: int, y: int): (r: int)
  {
    if x >= y then x else y
  }

  /** From every state with a measurement, and for every tolerance, a constant
      round trip brings the timeout within the tolerance of its limit for good. */
  lemma RtoConverges(e: Estimator, r: real, tolerance: real) returns (limit: nat)
    requires !e.isFirst && 0.0 <= e.rttvar && 0.0 < tolerance
    ensures forall n :: n >= limit ==>
              Abs(RtoSeconds(ConstantRtt(e, r, n)) - RealMin(60.0, r + 0.00001)) <= tolerance
  {
    var c := 1.0 + RealMax(e.rttvar, 2.0 * Abs(e.srtt - r));
    var t := RealMin(tolerance, GRANULARITY / 4.0);
    limit := IntMax((7.0 * c / t).Floor + 1, 0);
    assert Near(e, r, c);
    forall n | n >= limit
      ensures Abs(RtoSeconds(ConstantRtt(e, r, n)) - RealMin(60.0, r + 0.00001)) <= tolerance
    {
      LimitLargeEnough(c, t, n);
      RtoNearLimit(e, r, c, t, n);
    }
  }

  // -------------------------------------------------------------- the record

  lemma HistoryNext(ops: seq<Op>, op: Op)
    ensures History(ops + [op]) == Apply(History(ops), op)
  {
    assert (ops + [op])[..|ops + [op]| - 1] == ops;
    hide Apply;
  }

  /** `struct adaptive_timeout`; `now` is what the clock says, in seconds. The
      record always holds the outcome of its own history, so `EstimatorBounded`
      speaks about every state it can reach. */
  class Record {
    var isTimerActive: bool
    var timer: real
    var isFirstMeasurement: bool
    var smoothedRtt: real
    var rttVariation: real
    var rto: Timespec
    ghost var ops: seq<Op>

    ghost function Value(): (e: Estimator)
      reads this
    {
      Estimator(isFirstMeasurement, smoothedRtt, rttVariation, rto.Nanos())
    }

    ghost predicate Valid()
      reads this
    {
      Value() == History(ops)
    }

    constructor ()
      ensures Valid() && ops == [] && !isTimerActive
    {
      isTimerActive, timer, isFirstMeasurement, smoothedRtt, rttVariation := false, 0.0, true, 0.0, 0.0;
      rto := Timespec(0, 3_906_250);
      ops := [];
    }

    method StartTimer(now: real)
      requires Valid()
      modifies this`isTimerActive, this`timer
      ensures Valid() && isTimerActive && timer == now
    {
      isTimerActive, timer := true, now;
    }

    method CancelTimer()
      requires Valid()
      modifies this`isTimerActive
      ensures Valid() && !isTimerActive
    {
      isTimerActive := false;
    }

    method StopTimer(now: real)
      requires Valid()
      modifies this
      ensures Valid() && !isTimerActive && timer == old(timer)
      ensures ops == old(ops) + [Sample(now - timer)]
      ensures Value() == Measure(old(Value()), now - timer)
      ensures old(isFirstMeasurement) ==> smoothedRtt == now - timer && 2.0 * rttVariation == now - timer
      ensures !old(isFirstMeasurement) ==> 8.0 * (smoothedRtt - old(smoothedRtt)) == now - timer - old(smoothedRtt)
      ensures !old(isFirstMeasurement) ==>
                4.0 * (rttVariation - old(rttVariation)) ==
                  (if now - timer >= old(smoothedRtt) then now - timer - old(smoothedRtt)
                   else old(smoothedRtt) - (now - timer)) - old(rttVariation)
    {
      hide ToTimespec;
      isTimerActive := false;
      var r := now - timer;
      HistoryNext(ops, Sample(r));
      if isFirstMeasurement {
        isFirstMeasurement := false;
        smoothedRtt := r;
        rttVariation := r / 2.0;
      } else {
        rttVariation := 0.75 * rttVariation + 0.25 * Abs(smoothedRtt - r);
        smoothedRtt := 0.875 * smoothedRtt + 0.125 * r;
      }
      rto := ToTimespec(RealMin(60.0, smoothedRtt + RealMax(GRANULARITY, 4.0 * rttVariation)));
      ops := ops + [Sample(r)];
    }

    method BackOffTimer()
      requires Valid()
      modifies this`rto, this`ops
      ensures Valid() && ops == old(ops) + [BackOff]
      ensures Value() == Backoff(old(Value()))
    {
      hide ToTimespec;
      HistoryNext(ops, BackOff);
      rto := ToTimespec(RealMin(1.0, 2.0 * ToSeconds(rto.Nanos())));
      ops := ops + [BackOff];
    }
  }
}
