/** What one destination's congestion and timing state is, and how each event changes it:
    slow start and congestion avoidance, the cuts of fast retransmit and T3-rtx expiry,
    the decay of an idle window, and the RTO (src/socket_handlers.cpp,
    src/socket_timers.cpp, src/socket_event_loop.cpp). Clock readings are nanoseconds, and
    the round-trip estimates microseconds. */
module PathControl {

  const RTO_INITIAL: nat := 1_000_000
  const RTO_MIN: nat := 1_000_000
  const RTO_MAX: nat := 60_000_000
  const RTO_ALPHA: real := 0.125
  const RTO_BETA: real := 0.25
  const CLOCK_GRANULARITY: nat := 1000
  const NANOSECONDS: nat := 1000
  const RWND: nat := 65535

  datatype PathState = PathState(
    cwnd: nat, ssthresh: nat, partialBytesAcked: nat, singlePacketInFlight: bool,
    dataSentAt: int, idleDecaying: bool,
    hasSrtt: bool, srtt: nat, rttvar: nat, rto: nat)

  function Max(a: int, b: int): int {
    if a < b then b else a
  }

  function Min(a: int, b: int): int {
    if b < a then b else a
  }

  function InitialCwnd(pmdcs: nat): nat {
    Min(4 * pmdcs, Max(2 * pmdcs, 4404))
  }

  function NewPath(pmdcs: nat): PathState {
    PathState(InitialCwnd(pmdcs), RWND, 0, false, 0, false, false, 0, 0, RTO_INITIAL)
  }

  // ----- Idle decay -----

  /** Halves a window up to `periods` times, never below `floor`. */
  function Halved(cwnd: nat, floor: nat, periods: nat): nat {
    if periods == 0 || cwnd <= floor then cwnd else Halved(Max(cwnd / 2, floor), floor, periods - 1)
  }

  /** Whole RTOs since the path last sent DATA or was last decayed. */
  function Periods(p: PathState, now: int): nat {
    if p.rto == 0 || now - p.dataSentAt < p.rto * NANOSECONDS then 0 else (now - p.dataSentAt) / (p.rto * NANOSECONDS)
  }

  function Decay(p: PathState, pmdcs: nat, now: int): PathState {
    var periods := Periods(p, now);
    if periods == 0 then p else
      var q := p.(dataSentAt := p.dataSentAt + periods * (p.rto * NANOSECONDS));
      if q.cwnd <= 4 * pmdcs then q else
        q.(cwnd := Halved(q.cwnd, 4 * pmdcs, periods), ssthresh := if q.idleDecaying then q.ssthresh else q.cwnd, idleDecaying := true)
  }

  function Power2(n: nat): (r: nat)
    ensures r > 0
  {
    if n == 0 then 1 else 2 * Power2(n - 1)
  }

  lemma HalveThenDivide(a: nat, d: nat)
    requires d > 0
    ensures (a / 2) / d == a / (2 * d)
  {
    var q := a / (2 * d);
    var r := a % (2 * d);
    assert a == q * (2 * d) + r;
    assert a / 2 == q * d + r / 2 by {
      assert a == 2 * (q * d) + r;
    }
    assert r / 2 < d;
    Quotient(a / 2, d, q, r / 2);
  }

  lemma Quotient(a: nat, d: nat, q: nat, r: nat)
    requires d > 0 && r < d && a == q * d + r
    ensures a / d == q
  {
    var k := a / d - q;
    assert a == (a / d) * d + a % d;
    assert (a / d) * d - q * d == k * d;
    Multiple(k, d);
  }

  lemma Multiple(k: int, d: int)
    requires d > 0
    ensures k >= 1 ==> k * d >= d
    ensures k <= -1 ==> k * d <= -d
  {
    if k >= 1 {
      assert (k - 1) * d >= 0;
    } else {
      assert (-k) * d >= 0;
      if k <= -1 {
        assert (-1 - k) * d >= 0;
      }
    }
  }

  /** After n idle periods the window is max(floor, cwnd / 2^n). */
  lemma {:induction false} HalvedIs(cwnd: nat, floor: nat, periods: nat)
    requires cwnd > floor
    ensures Halved(cwnd, floor, periods) == Max(floor, cwnd / Power2(periods))
    decreases periods
  {
    if periods > 0 {
      HalveThenDivide(cwnd, Power2(periods - 1));
      if cwnd / 2 > floor {
        HalvedIs(cwnd / 2, floor, periods - 1);
      } else {
        Shrinks(cwnd / 2, Power2(periods - 1));
      }
    }
  }

  lemma Shrinks(a: nat, d: nat)
    requires d > 0
    ensures a / d <= a
  {
    NonNegative(a, d);
    var m, r := a / d, a % d;
    assert a == m * d + r;
    AtLeast(m, d);
  }

  lemma {:induction false} AtLeast(m: nat, d: nat)
    requires d > 0
    ensures m * d >= m
  {
    if m > 0 {
      AtLeast(m - 1, d);
      assert m * d == (m - 1) * d + d;
    }
  }

  lemma {:induction false} HalvedAdds(cwnd: nat, floor: nat, m: nat, n: nat)
    ensures Halved(Halved(cwnd, floor, m), floor, n) == Halved(cwnd, floor, m + n)
    decreases m
  {
    if m > 0 && cwnd > floor {
      HalvedAdds(Max(cwnd / 2, floor), floor, m - 1, n);
    }
  }

  lemma {:induction false} HalvedStays(cwnd: nat, floor: nat, n: nat)
    ensures cwnd > floor ==> floor <= Halved(cwnd, floor, n)
    ensures cwnd <= floor ==> Halved(cwnd, floor, n) == cwnd
    decreases n
  {
    if n > 0 && cwnd > floor {
      HalvedStays(Max(cwnd / 2, floor), floor, n - 1);
    }
  }

  lemma PeriodsAdd(p: PathState, now: int, later: int)
    requires now <= later
    ensures Periods(p, later) ==
              Periods(p, now) + Periods(p.(dataSentAt := p.dataSentAt + Periods(p, now) * (p.rto * NANOSECONDS)), later)
  {
    var d := p.rto * NANOSECONDS;
    var k := Periods(p, now);
    if k > 0 {
      var gap := later - p.dataSentAt;
      DivideByParts(now - p.dataSentAt, gap, d);
      assert gap - k * d == later - (p.dataSentAt + k * d);
      SmallQuotient(gap - k * d, d);
    }
  }

  /** Taking out a whole number of periods leaves the quotient less by that number. */
  lemma DivideByParts(a: int, b: int, d: int)
    requires d > 0 && 0 <= a <= b
    ensures var k := a / d;
            0 <= k && b - k * d >= 0 && b / d == k + (b - k * d) / d
  {
    var k := a / d;
    assert a == k * d + a % d;
    var rest := b - k * d;
    var q := rest / d;
    assert rest == q * d + rest % d;
    assert b == (k + q) * d + rest % d;
    NonNegative(a, d);
    NonNegative(rest, d);
    Quotient(b, d, k + q, rest % d);
  }

  lemma NonNegative(a: int, d: int)
    requires d > 0 && a >= 0
    ensures a / d >= 0
  {
  }

  lemma SmallQuotient(a: int, d: int)
    requires d > 0 && a >= 0
    ensures a < d ==> a / d == 0
    ensures a >= d ==> a / d > 0
  {
  }

  /** Polling in between changes nothing. */
  lemma DecayTwice(p: PathState, pmdcs: nat, now: int, later: int)
    requires now <= later
    ensures Decay(Decay(p, pmdcs, now), pmdcs, later) == Decay(p, pmdcs, later)
  {
    hide Halved, Periods;
    var d := p.rto * NANOSECONDS;
    var k := Periods(p, now);
    if k > 0 {
      var moved := p.(dataSentAt := p.dataSentAt + k * d);
      var n := Periods(moved, later);
      PeriodsAdd(p, now, later);
      SamePeriods(moved, Decay(p, pmdcs, now), later);
      assert k * d + n * d == (k + n) * d;
      HalvedAdds(p.cwnd, 4 * pmdcs, k, n);
      HalvedStays(p.cwnd, 4 * pmdcs, k);
      HalvedStays(Halved(p.cwnd, 4 * pmdcs, k), 4 * pmdcs, n);
    }
  }

  lemma SamePeriods(p: PathState, q: PathState, now: int)
    requires p.rto == q.rto && p.dataSentAt == q.dataSentAt
    ensures Periods(p, now) == Periods(q, now)
  {
  }

  function DecayAll(p: PathState, pmdcs: nat, times: seq<int>): PathState
    decreases |times|
  {
    if times == [] then p else DecayAll(Decay(p, pmdcs, times[0]), pmdcs, times[1..])
  }

  /** The first decay of an idle spell remembers the window in ssthresh, later ones do not; and
      time is taken off in whole RTOs, so that less than one is left over. */
  lemma DecayRemembers(p: PathState, pmdcs: nat, now: int)
    ensures var q := Decay(p, pmdcs, now);
            var decays := Periods(p, now) > 0 && p.cwnd > 4 * pmdcs;
            && q.ssthresh == (if decays && !p.idleDecaying then p.cwnd else p.ssthresh)
            && (q.idleDecaying <==> p.idleDecaying || decays)
            && (p.rto > 0 && now >= p.dataSentAt ==> 0 <= now - q.dataSentAt < p.rto * NANOSECONDS)
            && q.rto == p.rto && q.srtt == p.srtt && q.partialBytesAcked == p.partialBytesAcked
  {
    hide Halved;
    var d := p.rto * NANOSECONDS;
    if p.rto > 0 && now >= p.dataSentAt {
      var gap := now - p.dataSentAt;
      assert gap == (gap / d) * d + gap % d;
    }
  }

  /** Idle decay does not depend on how often it is polled: any series of calls leaves what
      the last one alone would have, and that is a window halved once per idle RTO. */
  lemma {:induction false} DecayIgnoresPolling(p: PathState, pmdcs: nat, times: seq<int>)
    requires times != [] && forall i, j :: 0 <= i < j < |times| ==> times[i] <= times[j]
    ensures DecayAll(p, pmdcs, times) == Decay(p, pmdcs, times[|times| - 1])
    ensures p.cwnd > 4 * pmdcs ==>
              DecayAll(p, pmdcs, times).cwnd == Max(4 * pmdcs, p.cwnd / Power2(Periods(p, times[|times| - 1])))
    ensures p.cwnd <= 4 * pmdcs ==> DecayAll(p, pmdcs, times).cwnd == p.cwnd
    decreases |times|
  {
    var last := times[|times| - 1];
    if |times| > 1 {
      DecayIgnoresPolling(Decay(p, pmdcs, times[0]), pmdcs, times[1..]);
      DecayTwice(p, pmdcs, times[0], last);
    } else {
      assert times[1..] == [];
    }
    if p.cwnd > 4 * pmdcs {
      HalvedIs(p.cwnd, 4 * pmdcs, Periods(p, last));
    }
  }

  // ----- The other events of a path -----

  /** A SACK acknowledged DATA sent here, or reported duplicates of it. */
  function Grow(p: PathState, pmdcs: nat, inFastRecovery: bool, bytesAcked: nat, duplicateBytes: nat, flightBefore: nat): PathState {
    var full := flightBefore >= p.cwnd;
    if p.cwnd <= p.ssthresh then
      if full && !inFastRecovery then p.(cwnd := p.cwnd + Min(bytesAcked, pmdcs)) else p
    else
      var partial := p.partialBytesAcked + bytesAcked + duplicateBytes;
      if partial >= p.cwnd && full then p.(partialBytesAcked := partial - p.cwnd, cwnd := p.cwnd + pmdcs)
      else p.(partialBytesAcked := Min(partial, p.cwnd))
  }

  function CutForFastRetransmit(p: PathState, pmdcs: nat): PathState {
    var half := Max(p.cwnd / 2, 4 * pmdcs);
    p.(ssthresh := half, cwnd := half, partialBytesAcked := 0)
  }

  function BackOff(p: PathState, pmdcs: nat, probing: bool): PathState {
    var q := if probing then p else
      p.(ssthresh := Max(p.cwnd / 2, 4 * pmdcs), cwnd := pmdcs, partialBytesAcked := 0, singlePacketInFlight := true);
    q.(rto := Min(q.rto * 2, RTO_MAX))
  }

  function Deviation(p: PathState, measurement: nat): nat {
    if p.srtt > measurement then p.srtt - measurement else measurement - p.srtt
  }

  function Truncated(x: real): nat
    requires x >= 0.0
  {
    x.Floor
  }

  function Clamp(x: nat, low: nat, high: nat): nat {
    if x < low then low else if high < x then high else x
  }

  function UpdateRto(p: PathState, measurement: nat): PathState {
    var rttvar := if !p.hasSrtt then measurement / 2
                  else Truncated((1.0 - RTO_BETA) * (p.rttvar as real) + RTO_BETA * (Deviation(p, measurement) as real));
    var srtt := if !p.hasSrtt then measurement
                else Truncated((1.0 - RTO_ALPHA) * (p.srtt as real) + RTO_ALPHA * (measurement as real));
    var variation := if rttvar == 0 then CLOCK_GRANULARITY else rttvar;
    p.(hasSrtt := true, srtt := srtt, rttvar := variation, rto := Clamp(srtt + variation * 4, RTO_MIN, RTO_MAX))
  }

  /** The window opens only when it was in use, by no more than what was acknowledged or a
      PMDCS; beyond ssthresh, once per window of acknowledged bytes, which are then spent. */
  lemma GrowthIsEarned(p: PathState, pmdcs: nat, inFastRecovery: bool, bytesAcked: nat, duplicateBytes: nat, flightBefore: nat)
    ensures var q := Grow(p, pmdcs, inFastRecovery, bytesAcked, duplicateBytes, flightBefore);
            && 0 <= q.cwnd - p.cwnd <= pmdcs
            && (q.cwnd > p.cwnd ==> flightBefore >= p.cwnd)
            && (p.cwnd <= p.ssthresh ==> q.cwnd - p.cwnd <= bytesAcked && (inFastRecovery ==> q == p))
            && (p.cwnd > p.ssthresh && q.cwnd > p.cwnd ==>
                  q.partialBytesAcked + p.cwnd == p.partialBytesAcked + bytesAcked + duplicateBytes)
            && (p.cwnd > p.ssthresh && q.cwnd == p.cwnd && pmdcs > 0 ==>
                  q.partialBytesAcked <= p.cwnd && (flightBefore < p.cwnd || p.partialBytesAcked + bytesAcked + duplicateBytes < p.cwnd))
  {
  }

  /** And it opens whenever it is earned: in slow start by all that was acknowledged, up to a
      PMDCS; beyond ssthresh by a PMDCS exactly when a window of bytes has been acknowledged
      while it was in use, what is acknowledged being kept count of up to one window. */
  lemma GrowthIsExact(p: PathState, pmdcs: nat, inFastRecovery: bool, bytesAcked: nat, duplicateBytes: nat, flightBefore: nat)
    ensures var q := Step(p, pmdcs, Acked(inFastRecovery, bytesAcked, duplicateBytes, flightBefore));
            var used := flightBefore >= p.cwnd;
            var earned := p.partialBytesAcked + bytesAcked + duplicateBytes;
            && q.ssthresh == p.ssthresh && q.rto == p.rto
            && (p.cwnd <= p.ssthresh ==>
                  && q.partialBytesAcked == p.partialBytesAcked
                  && (!used || inFastRecovery ==> q.cwnd == p.cwnd)
                  && (used && !inFastRecovery && bytesAcked >= pmdcs ==> q.cwnd == p.cwnd + pmdcs)
                  && (used && !inFastRecovery && bytesAcked < pmdcs ==> q.cwnd == p.cwnd + bytesAcked))
            && (p.cwnd > p.ssthresh && used && earned >= p.cwnd ==> q.cwnd == p.cwnd + pmdcs && q.partialBytesAcked == earned - p.cwnd)
            && (p.cwnd > p.ssthresh && !(used && earned >= p.cwnd) ==>
                  && q.cwnd == p.cwnd
                  && (earned <= p.cwnd ==> q.partialBytesAcked == earned)
                  && (earned > p.cwnd ==> q.partialBytesAcked == p.cwnd))
            && (q.singlePacketInFlight <==> p.singlePacketInFlight && bytesAcked == 0)
  {
  }

  /** What a series of acknowledgements adds in slow start. */
  function Gained(pmdcs: nat, acked: seq<nat>): nat {
    if acked == [] then 0 else Gained(pmdcs, acked[..|acked| - 1]) + Min(acked[|acked| - 1], pmdcs)
  }

  function InUse(p: PathState, pmdcs: nat, acked: seq<nat>): seq<PathStep> {
    seq(|acked|, j requires 0 <= j < |acked| => Acked(false, acked[j], 0, p.cwnd + Gained(pmdcs, acked[..j])))
  }

  /** Slow start over any series of acknowledgements while the window is in use: it opens by
      the sum of what each acknowledges, up to a PMDCS each, until it passes ssthresh. */
  lemma {:induction false} SlowStartAdds(p: PathState, pmdcs: nat, acked: seq<nat>)
    requires acked != [] ==> p.cwnd + Gained(pmdcs, acked[..|acked| - 1]) <= p.ssthresh
    ensures var q := StepAll(p, pmdcs, InUse(p, pmdcs, acked));
            q.cwnd == p.cwnd + Gained(pmdcs, acked) && q.ssthresh == p.ssthresh
    decreases |acked|
  {
    var n := |acked|;
    if n > 0 {
      var steps := InUse(p, pmdcs, acked);
      assert steps[..n - 1] == InUse(p, pmdcs, acked[..n - 1]) by {
        forall j | 0 <= j < n - 1
          ensures acked[..n - 1][..j] == acked[..j]
        {
        }
      }
      if n > 1 {
        GainedGrows(pmdcs, acked[..n - 1]);
      }
      SlowStartAdds(p, pmdcs, acked[..n - 1]);
    }
  }

  lemma GainedGrows(pmdcs: nat, acked: seq<nat>)
    requires acked != []
    ensures Gained(pmdcs, acked[..|acked| - 1]) <= Gained(pmdcs, acked)
  {
  }

  /** Half of `n`, rounded down, but not below four packets. */
  predicate IsHalf(half: nat, n: nat, pmdcs: nat) {
    half >= 4 * pmdcs && if half > 4 * pmdcs then 2 * half <= n <= 2 * half + 1 else n <= 8 * pmdcs + 1
  }

  /** A loss found by fast retransmit halves the window; one found by a timer sets it to a
      packet and remembers half, unless the window was being probed, and doubles the RTO. */
  lemma LossHalves(p: PathState, pmdcs: nat, probing: bool)
    ensures var q := Step(p, pmdcs, FastRetransmits);
            && IsHalf(q.ssthresh, p.cwnd, pmdcs) && q.cwnd == q.ssthresh && q.partialBytesAcked == 0
            && q.rto == p.rto && q.srtt == p.srtt && q.rttvar == p.rttvar
    ensures var q := Step(p, pmdcs, T3Expires(probing));
            && (probing ==> q == p.(rto := q.rto))
            && (!probing ==> IsHalf(q.ssthresh, p.cwnd, pmdcs) && q.cwnd == pmdcs && q.partialBytesAcked == 0 && q.singlePacketInFlight)
            && (2 * p.rto <= RTO_MAX ==> q.rto == 2 * p.rto) && (2 * p.rto > RTO_MAX ==> q.rto == RTO_MAX)
            && q.srtt == p.srtt && q.rttvar == p.rttvar
  {
  }

  /** Section 7.2.1 of RFC 9260, by size of packet: four, 4404 bytes, or two. */
  lemma InitialWindow(pmdcs: nat)
    ensures pmdcs <= 1101 ==> NewPath(pmdcs).cwnd == 4 * pmdcs
    ensures 1101 <= pmdcs <= 2202 ==> NewPath(pmdcs).cwnd == 4404
    ensures 2202 <= pmdcs ==> NewPath(pmdcs).cwnd == 2 * pmdcs
  {
  }

  lemma FloorOfEighths(n: nat, x: real)
    requires 8.0 * x == n as real
    ensures 8 * x.Floor <= n < 8 * (x.Floor + 1)
  {
    assert x.Floor as real <= x < (x.Floor + 1) as real;
  }

  lemma FloorOfQuarters(n: nat, x: real)
    requires 4.0 * x == n as real
    ensures 4 * x.Floor <= n < 4 * (x.Floor + 1)
  {
    assert x.Floor as real <= x < (x.Floor + 1) as real;
  }

  /** Section 6.3.1 of RFC 9260 in whole microseconds: SRTT takes an eighth of each sample and
      RTTVAR a quarter of its deviation from the SRTT before it; the first sample stands for
      itself and half of itself; a variation of zero becomes the clock's granularity. */
  lemma RttIsSmoothed(p: PathState, pmdcs: nat, measurement: nat)
    ensures var q := Step(p, pmdcs, RttMeasured(measurement));
            var deviation := if p.srtt > measurement then p.srtt - measurement else measurement - p.srtt;
            && q.hasSrtt && q.rttvar > 0
            && (if p.hasSrtt then 8 * q.srtt <= 7 * p.srtt + measurement < 8 * (q.srtt + 1) else q.srtt == measurement)
            && (|| (if p.hasSrtt then 4 * q.rttvar <= 3 * p.rttvar + deviation < 4 * (q.rttvar + 1) else 2 * q.rttvar <= measurement < 2 * (q.rttvar + 1))
                || (q.rttvar == CLOCK_GRANULARITY && if p.hasSrtt then 3 * p.rttvar + deviation < 4 else measurement < 2))
            && (RTO_MIN <= q.srtt + 4 * q.rttvar <= RTO_MAX ==> q.rto == q.srtt + 4 * q.rttvar)
            && (q.srtt + 4 * q.rttvar < RTO_MIN ==> q.rto == RTO_MIN) && (q.srtt + 4 * q.rttvar > RTO_MAX ==> q.rto == RTO_MAX)
            && q.cwnd == p.cwnd && q.ssthresh == p.ssthresh
  {
    if p.hasSrtt {
      var deviation := Deviation(p, measurement);
      FloorOfEighths(7 * p.srtt + measurement, (1.0 - RTO_ALPHA) * (p.srtt as real) + RTO_ALPHA * (measurement as real));
      FloorOfQuarters(3 * p.rttvar + deviation, (1.0 - RTO_BETA) * (p.rttvar as real) + RTO_BETA * (deviation as real));
    }
  }

  /** Smoothing leaves the estimate between the old one and the sample. */
  lemma SrttStaysBetween(p: PathState, measurement: nat)
    requires p.hasSrtt
    ensures Min(p.srtt, measurement) <= UpdateRto(p, measurement).srtt <= Max(p.srtt, measurement)
  {
    var low, high := Min(p.srtt, measurement), Max(p.srtt, measurement);
    var smoothed := (1.0 - RTO_ALPHA) * (p.srtt as real) + RTO_ALPHA * (measurement as real);
    assert low as real <= smoothed <= high as real;
    FloorBetween(smoothed, low, high);
  }

  lemma FloorBetween(x: real, low: int, high: int)
    requires low as real <= x <= high as real
    ensures low <= x.Floor <= high
  {
  }

  datatype PathStep =
    | DataSent(at: int)
    | Decays(now: int)
    | Acked(inFastRecovery: bool, bytesAcked: nat, duplicateBytes: nat, flightBefore: nat)
    | FastRetransmits
    | T3Expires(probing: bool)
    | RttMeasured(measurement: nat)
    | Drained // nothing outstanding here any more

  function Step(p: PathState, pmdcs: nat, s: PathStep): PathState {
    match s
    case DataSent(at) => p.(dataSentAt := at, idleDecaying := false)
    case Decays(now) => Decay(p, pmdcs, now)
    case Acked(recovering, acked, duplicates, flight) => Grow(p.(singlePacketInFlight := p.singlePacketInFlight && acked == 0), pmdcs, recovering, acked, duplicates, flight)
    case FastRetransmits => CutForFastRetransmit(p, pmdcs)
    case T3Expires(probing) => BackOff(p, pmdcs, probing)
    case RttMeasured(measurement) => UpdateRto(p, measurement)
    case Drained => p.(partialBytesAcked := 0)
  }

  predicate WithinBounds(p: PathState, pmdcs: nat) {
    p.cwnd >= pmdcs && p.ssthresh >= 4 * pmdcs && RTO_MIN <= p.rto <= RTO_MAX
  }

  lemma StepKeepsBounds(p: PathState, pmdcs: nat, s: PathStep)
    requires WithinBounds(p, pmdcs)
    ensures WithinBounds(Step(p, pmdcs, s), pmdcs)
  {
    hide UpdateRto;
    match s {
      case Decays(now) => HalvedStays(p.cwnd, 4 * pmdcs, Periods(p, now));
      case RttMeasured(measurement) => RtoIsClamped(p, measurement);
      case _ =>
    }
  }

  lemma RtoIsClamped(p: PathState, measurement: nat)
    ensures var q := UpdateRto(p, measurement);
            && RTO_MIN <= q.rto <= RTO_MAX && q.rttvar > 0
            && q.cwnd == p.cwnd && q.ssthresh == p.ssthresh
  {
  }

  function StepAll(p: PathState, pmdcs: nat, steps: seq<PathStep>): PathState {
    if steps == [] then p else Step(StepAll(p, pmdcs, steps[..|steps| - 1]), pmdcs, steps[|steps| - 1])
  }

  /** A new path is within bounds exactly when the PMDCS is at most a quarter of the initial
      ssthresh, and then every run of events keeps it there. */
  lemma {:induction false} BoundsHoldInEveryRun(pmdcs: nat, steps: seq<PathStep>)
    ensures WithinBounds(NewPath(pmdcs), pmdcs) <==> 4 * pmdcs <= RWND
    ensures 4 * pmdcs <= RWND ==> WithinBounds(StepAll(NewPath(pmdcs), pmdcs, steps), pmdcs)
    decreases |steps|
  {
    hide Step;
    if steps != [] && 4 * pmdcs <= RWND {
      BoundsHoldInEveryRun(pmdcs, steps[..|steps| - 1]);
      StepKeepsBounds(StepAll(NewPath(pmdcs), pmdcs, steps[..|steps| - 1]), pmdcs, steps[|steps| - 1]);
    }
  }

  /** Repeated expiry doubles the RTO up to its ceiling. */
  lemma {:induction false} BackOffIsExponential(p: PathState, pmdcs: nat, probing: bool, n: nat)
    requires RTO_MIN <= p.rto <= RTO_MAX
    ensures StepAll(p, pmdcs, seq(n, _ => T3Expires(probing))).rto == Min(p.rto * Power2(n), RTO_MAX)
    decreases n
  {
    var steps := seq(n, _ => T3Expires(probing));
    if n > 0 {
      assert steps[..n - 1] == seq(n - 1, _ => T3Expires(probing));
      BackOffIsExponential(p, pmdcs, probing, n - 1);
      assert p.rto * Power2(n) == 2 * (p.rto * Power2(n - 1));
    }
  }

  // ----- The code -----

  class PeerPath {
    var cwnd: nat
    var ssthresh: nat
    var partialBytesAcked: nat
    var singlePacketInFlight: bool
    var dataSentAt: int
    var idleDecaying: bool
    var hasSrtt: bool
    var srtt: nat
    var rttvar: nat
    var rto: nat

    ghost function View(): PathState
      reads this
    {
      PathState(cwnd, ssthresh, partialBytesAcked, singlePacketInFlight, dataSentAt, idleDecaying, hasSrtt, srtt, rttvar, rto)
    }

    constructor (pmdcs: nat)
      ensures View() == NewPath(pmdcs)
    {
      cwnd, ssthresh, partialBytesAcked, singlePacketInFlight := InitialCwnd(pmdcs), RWND, 0, false;
      dataSentAt, idleDecaying, hasSrtt, srtt, rttvar, rto := 0, false, false, 0, 0, RTO_INITIAL;
    }

    /** `decay_idle_cwnd`. */
    method DecayIdleCwnd(pmdcs: nat, now: int)
      modifies this
      ensures View() == Decay(old(View()), pmdcs, now)
    {
      var period := rto * NANOSECONDS;
      if rto == 0 || now - dataSentAt < period {
        return;
      }
      var periods := (now - dataSentAt) / period;
      SmallQuotient(now - dataSentAt, period);
      dataSentAt := dataSentAt + periods * period;
      var floor := 4 * pmdcs;
      if cwnd <= floor {
        return;
      }
      if !idleDecaying {
        ssthresh, idleDecaying := cwnd, true;
      }
      ghost var halved := Halved(cwnd, floor, periods);
      ghost var rest := View();
      while periods > 0 && cwnd > floor
        invariant periods >= 0 && Halved(cwnd, floor, periods) == halved
        invariant View() == rest.(cwnd := cwnd)
        decreases periods
      {
        cwnd, periods := Max(cwnd / 2, floor), periods - 1;
      }
    }

    /** `grow_cwnd`, after the flag an acknowledgement clears. */
    method GrowCwnd(pmdcs: nat, inFastRecovery: bool, bytesAcked: nat, duplicateBytes: nat, flightBefore: nat)
      modifies this
      ensures View() == Step(old(View()), pmdcs, Acked(inFastRecovery, bytesAcked, duplicateBytes, flightBefore))
    {
      if bytesAcked > 0 {
        singlePacketInFlight := false;
      }
      var full := flightBefore >= cwnd;
      if cwnd <= ssthresh {
        if full && !inFastRecovery {
          cwnd := cwnd + Min(bytesAcked, pmdcs);
        }
        return;
      }
      partialBytesAcked := partialBytesAcked + bytesAcked + duplicateBytes;
      if partialBytesAcked >= cwnd && full {
        partialBytesAcked := partialBytesAcked - cwnd;
        cwnd := cwnd + pmdcs;
      } else if partialBytesAcked > cwnd {
        partialBytesAcked := cwnd;
      }
    }

    /** The cut of `handle_sack` on entering fast recovery. */
    method EnterFastRecovery(pmdcs: nat)
      modifies this
      ensures View() == Step(old(View()), pmdcs, FastRetransmits)
    {
      ssthresh := Max(cwnd / 2, 4 * pmdcs);
      cwnd := ssthresh;
      partialBytesAcked := 0;
    }

    /** The part of `handle_t3_expiration` that is about the path. */
    method ExpireT3(pmdcs: nat, zeroWindowProbing: bool)
      modifies this
      ensures View() == Step(old(View()), pmdcs, T3Expires(zeroWindowProbing))
    {
      if !zeroWindowProbing {
        ssthresh := Max(cwnd / 2, 4 * pmdcs);
        cwnd, partialBytesAcked, singlePacketInFlight := pmdcs, 0, true;
      }
      rto := Min(rto * 2, RTO_MAX);
    }

    /** `update_rto`; the variation is computed first so that both use the previous SRTT. */
    method MeasureRtt(pmdcs: nat, measurement: nat)
      modifies this
      ensures View() == Step(old(View()), pmdcs, RttMeasured(measurement))
    {
      if !hasSrtt {
        srtt, rttvar, hasSrtt := measurement, measurement / 2, true;
      } else {
        var deviation := if srtt > measurement then srtt - measurement else measurement - srtt;
        rttvar := Truncated((1.0 - RTO_BETA) * (rttvar as real) + RTO_BETA * (deviation as real));
        srtt := Truncated((1.0 - RTO_ALPHA) * (srtt as real) + RTO_ALPHA * (measurement as real));
      }
      if rttvar == 0 {
        rttvar := CLOCK_GRANULARITY;
      }
      rto := Clamp(srtt + rttvar * 4, RTO_MIN, RTO_MAX);
    }
  }
}
