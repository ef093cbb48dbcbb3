/**
  What an evaluation decides about a connection, in terms of the counters it starts
  from: how many error points, when, and which weight follows.
 */
module Verdicts {
  import opened ReceiverTypes
  import opened Quality

  // ---- the median as an order statistic -----------------------------------------------

  function Count(s: seq<real>, p: real -> bool): nat {
    if s == [] then 0 else Count(s[..|s| - 1], p) + if p(s[|s| - 1]) then 1 else 0
  }

  lemma {:induction false} CountConcat(s: seq<real>, t: seq<real>, p: real -> bool)
    ensures Count(s + t, p) == Count(s, p) + Count(t, p)
    decreases |t|
  {
    if t == [] {
      assert s + t == s;
    } else {
      var n := |t| - 1;
      assert (s + t)[..|s + t| - 1] == s + t[..n];
      CountConcat(s, t[..n], p);
    }
  }

  lemma {:induction false} CountInsert(x: real, s: seq<real>, p: real -> bool)
    ensures Count(Insert(x, s), p) == Count(s, p) + if p(x) then 1 else 0
    decreases |s|
  {
    CountConcat([x], s, p);
    assert Count([x], p) == Count([], p) + if p(x) then 1 else 0;
    if s != [] && x > s[0] {
      CountInsert(x, s[1..], p);
      CountConcat([s[0]], Insert(x, s[1..]), p);
      CountConcat([s[0]], s[1..], p);
      assert [s[0]] + s[1..] == s;
    }
  }

  lemma {:induction false} CountSort(s: seq<real>, p: real -> bool)
    ensures Count(Sort(s), p) == Count(s, p)
    decreases |s|
  {
    if s != [] {
      CountSort(s[..|s| - 1], p);
      CountInsert(s[|s| - 1], Sort(s[..|s| - 1]), p);
    }
  }

  lemma {:induction false} CountBounds(s: seq<real>, p: real -> bool)
    ensures Count(s, p) <= |s|
    ensures (forall i :: 0 <= i < |s| ==> p(s[i])) ==> Count(s, p) == |s|
    ensures (forall i :: 0 <= i < |s| ==> !p(s[i])) ==> Count(s, p) == 0
    decreases |s|
  {
    if s != [] {
      CountBounds(s[..|s| - 1], p);
    }
  }

  lemma CountThirds(s: seq<real>, lo: nat, hi: nat, p: real -> bool)
    requires lo <= hi <= |s|
    ensures Count(s, p) == Count(s[..lo], p) + Count(s[lo..hi], p) + Count(s[hi..], p)
  {
    assert s == (s[..lo] + s[lo..hi]) + s[hi..];
    CountConcat(s[..lo] + s[lo..hi], s[hi..], p);
    CountConcat(s[..lo], s[lo..hi], p);
  }

  lemma CountInside(s: seq<real>, lo: nat, hi: nat, p: real -> bool)
    requires lo <= hi <= |s| && forall i :: lo <= i < hi ==> p(s[i])
    ensures Count(s, p) >= hi - lo
  {
    CountThirds(s, lo, hi, p);
    CountBounds(s[lo..hi], p);
  }

  lemma CountOutside(s: seq<real>, lo: nat, hi: nat, p: real -> bool)
    requires lo <= hi <= |s| && forall i :: 0 <= i < |s| && !(lo <= i < hi) ==> !p(s[i])
    ensures Count(s, p) <= hi - lo
  {
    CountThirds(s, lo, hi, p);
    CountBounds(s[..lo], p);
    CountBounds(s[lo..hi], p);
    CountBounds(s[hi..], p);
  }

  function IsLess(x: real): real -> bool { y => y < x }
  function IsAtMost(x: real): real -> bool { y => y <= x }
  function IsMore(x: real): real -> bool { y => y > x }
  function IsAtLeast(x: real): real -> bool { y => y >= x }

  /** Less than half are less than x, and half or more are at most x. */
  ghost predicate LowerMiddle(s: seq<real>, x: real) {
    x in s && 2 * Count(s, IsLess(x)) < |s| <= 2 * Count(s, IsAtMost(x))
  }

  ghost predicate UpperMiddle(s: seq<real>, x: real) {
    x in s && 2 * Count(s, IsMore(x)) < |s| <= 2 * Count(s, IsAtLeast(x))
  }

  /** Halfway between the two middle elements, which are one if there is an odd
      number of them. */
  ghost predicate IsMedian(s: seq<real>, m: real) {
    exists a, b :: LowerMiddle(s, a) && UpperMiddle(s, b) && m == (a + b) / 2.0
  }

  lemma SortedBelow(v: seq<real>, k: nat)
    requires IsSorted(v) && k < |v|
    ensures Count(v, IsLess(v[k])) <= k < Count(v, IsAtMost(v[k]))
  {
    CountOutside(v, 0, k, IsLess(v[k]));
    CountInside(v, 0, k + 1, IsAtMost(v[k]));
  }

  lemma SortedAbove(v: seq<real>, k: nat)
    requires IsSorted(v) && k < |v|
    ensures Count(v, IsMore(v[k])) <= |v| - 1 - k < Count(v, IsAtLeast(v[k]))
  {
    CountOutside(v, k + 1, |v|, IsMore(v[k]));
    CountInside(v, k, |v|, IsAtLeast(v[k]));
  }

  lemma SortedMiddle(s: seq<real>, k: nat)
    requires k < |s|
    ensures var x := Sort(s)[k];
            && x in s
            && Count(s, IsLess(x)) <= k < Count(s, IsAtMost(x))
            && Count(s, IsMore(x)) <= |s| - 1 - k < Count(s, IsAtLeast(x))
  {
    var x := Sort(s)[k];
    SortSorts(s);
    assert x in multiset(Sort(s));
    SortedBelow(Sort(s), k);
    SortedAbove(Sort(s), k);
    CountSort(s, IsLess(x));
    CountSort(s, IsAtMost(x));
    CountSort(s, IsMore(x));
    CountSort(s, IsAtLeast(x));
  }

  lemma MedianExact(s: seq<real>)
    requires s != []
    ensures IsMedian(s, Median(s))
  {
    var v, mid := Sort(s), |s| / 2;
    SortedMiddle(s, mid);
    if |s| % 2 == 0 {
      SortedMiddle(s, mid - 1);
      assert LowerMiddle(s, v[mid - 1]) && UpperMiddle(s, v[mid]);
    } else {
      assert LowerMiddle(s, v[mid]) && UpperMiddle(s, v[mid]);
    }
  }

  lemma BesideMiddle(v: seq<real>, m: real, lo: nat, hi: nat)
    requires IsSorted(v) && lo <= hi < |v| && v[lo] <= m <= v[hi]
    ensures Count(v, IsLess(m)) <= hi && Count(v, IsMore(m)) <= |v| - 1 - lo
  {
    CountOutside(v, 0, hi, IsLess(m));
    CountOutside(v, lo + 1, |v|, IsMore(m));
  }

  lemma Halfway(x: real, y: real)
    requires x <= y
    ensures x <= (x + y) / 2.0 <= y
  {
  }

  lemma MiddleBetween(v: seq<real>)
    requires IsSorted(v) && v != []
    ensures v[(|v| - 1) / 2] <= Middle(v) <= v[|v| / 2]
  {
    if |v| % 2 == 0 {
      assert (|v| - 1) / 2 == |v| / 2 - 1;
      Halfway(v[|v| / 2 - 1], v[|v| / 2]);
    } else {
      assert (|v| - 1) / 2 == |v| / 2;
    }
  }

  lemma MedianBetween(s: seq<real>)
    requires s != []
    ensures IsSorted(Sort(s)) && Sort(s)[(|s| - 1) / 2] <= Median(s) <= Sort(s)[|s| / 2]
  {
    SortSorts(s);
    MiddleBetween(Sort(s));
  }

  /** At most half of the elements are less than the median, and at most half more. */
  lemma MedianHalves(s: seq<real>)
    requires s != []
    ensures 2 * Count(s, IsLess(Median(s))) <= |s| && 2 * Count(s, IsMore(Median(s))) <= |s|
  {
    var m := Median(s);
    MedianBetween(s);
    BesideMiddle(Sort(s), m, (|s| - 1) / 2, |s| / 2);
    CountSort(s, IsLess(m));
    CountSort(s, IsMore(m));
  }

  // ---- what is measured -------------------------------------------------------------------

  /** What an unsigned counter of this size gained since it was last read. */
  function Gained(counter: int, last: int, size: int): nat
    requires size > 0
  {
    (counter - last) % size
  }

  function Elapsed(s: Stats, nowMs: nat): nat { Gained(nowMs, s.lastEvalTime, 0x1_0000_0000_0000_0000) }
  function NewBytes(s: Stats): nat { Gained(s.bytesReceived, s.lastBytesReceived, 0x1_0000_0000_0000_0000) }
  function NewPackets(s: Stats): nat { Gained(s.packetsReceived, s.lastPacketsReceived, 0x1_0000_0000_0000_0000) }
  function NewlyLost(s: Stats): nat { Gained(s.packetsLost, s.lastPacketsLost, 0x1_0000_0000) }

  /** There was an evaluation, and time has passed since. */
  predicate Measurable(s: Stats, nowMs: nat) {
    s.lastEvalTime > 0 && Elapsed(s, nowMs) > 0
  }

  /** Kilobits per second, that is, bits per millisecond. */
  function Speed(s: Stats, nowMs: nat): (r: real)
    ensures r >= 0.0
  {
    if !Measurable(s, nowMs) then 0.0 else (8 * NewBytes(s)) as real / Elapsed(s, nowMs) as real
  }

  lemma Kilobits(bytes: real, ms: real)
    requires ms > 0.0
    ensures bytes / (ms / 1000.0) * 8.0 / 1000.0 == 8.0 * bytes / ms
  {
    var q := bytes / (ms / 1000.0);
    assert q * (ms / 1000.0) == bytes;
    assert q * 8.0 / 1000.0 * ms == 8.0 * bytes;
  }

  lemma SpeedMeasured(s: Stats, nowMs: nat)
    ensures Measure(s, nowMs).bandwidth == Speed(s, nowMs)
    ensures Measure(s, nowMs).packetsDiff == if Measurable(s, nowMs) then NewPackets(s) else 0
  {
    if Measurable(s, nowMs) {
      Kilobits(NewBytes(s) as real, Elapsed(s, nowMs) as real);
    }
  }

  // ---- loss and NAKs ------------------------------------------------------------------------

  /** The charge for `part` out of `whole`: 40 from above a fifth, 20 from above a
      tenth, 10 from above a twentieth, 5 from above a hundredth, else nothing. */
  ghost predicate ShareCharge(points: int, part: int, whole: int) {
    && points in {0, 5, 10, 20, 40}
    && (points >= 40 <==> 5 * part > whole)
    && (points >= 20 <==> 10 * part > whole)
    && (points >= 10 <==> 20 * part > whole)
    && (points >= 5 <==> 100 * part > whole)
  }

  lemma Scaled(x: real, y: real, unit: real)
    requires unit > 0.0
    ensures x > y <==> x * unit > y * unit
  {
    assert (x - y) * unit == x * unit - y * unit;
    assert x > y <==> (x - y) * unit > 0.0;
  }

  lemma Exceeds(part: nat, whole: nat, c: real, n: int)
    requires whole > 0 && n > 0 && c * n as real == 1.0
    ensures part as real / whole as real > c <==> n * part > whole
  {
    var q := part as real / whole as real;
    assert q * whole as real == part as real;
    assert q > c <==> q * whole as real > c * whole as real;
    assert part as real > c * whole as real <==> n as real * part as real > n as real * (c * whole as real);
    assert n as real * (c * whole as real) == (c * n as real) * whole as real;
    assert (n * part) as real == n as real * part as real;
  }

  lemma ShareCharged(part: nat, whole: nat)
    requires whole > 0
    ensures ShareCharge(LossPoints(part as real / whole as real), part, whole)
  {
    Exceeds(part, whole, 0.20, 5);
    Exceeds(part, whole, 0.10, 10);
    Exceeds(part, whole, 0.05, 20);
    Exceeds(part, whole, 0.01, 100);
  }

  /** The charge for lost packets, among those received and lost since the last
      evaluation. */
  ghost predicate LossCharge(points: int, s: Stats, nowMs: nat) {
    if Measurable(s, nowMs) && NewPackets(s) > 0
    then ShareCharge(points, NewlyLost(s), NewPackets(s) + NewlyLost(s))
    else points == 0
  }

  lemma LossCharged(s: Stats, nowMs: nat)
    ensures LossCharge(LossPoints(Measure(s, nowMs).loss), s, nowMs)
  {
    if Measurable(s, nowMs) && NewPackets(s) > 0 {
      ShareCharged(NewlyLost(s), NewPackets(s) + NewlyLost(s));
    }
  }

  /** The charge for the NAKs that the sender has counted, for each packet received. */
  ghost predicate NakCharge(points: int, s: Stats, nowMs: nat) {
    if Measurable(s, nowMs) && NewPackets(s) > 0 && s.senderNakCount != 0
    then ShareCharge(points, Gained(s.senderNakCount, s.lastSenderNakCount, 0x1_0000_0000), NewPackets(s))
    else points == 0
  }

  lemma NakCharged(s: Stats, nowMs: nat)
    ensures NakCharge(NakPoints(s, Measure(s, nowMs).packetsDiff), s, nowMs)
  {
    SpeedMeasured(s, nowMs);
    if Measurable(s, nowMs) && NewPackets(s) > 0 && s.senderNakCount != 0 {
      ShareCharged(Gained(s.senderNakCount, s.lastSenderNakCount, 0x1_0000_0000), NewPackets(s));
    }
  }

  // ---- bandwidth -----------------------------------------------------------------------------

  /** The charge for a speed below what is expected: the first is the charge below
      30%, then below 50%, 70% and 85%, else nothing. */
  ghost predicate SpeedCharge(points: int, speed: real, expected: real, extended: bool) {
    var scale := if extended then [10, 7, 4, 2] else [40, 25, 15, 5];
    && (points in scale || points == 0)
    && (points >= scale[0] <==> speed < 0.3 * expected)
    && (points >= scale[1] <==> speed < 0.5 * expected)
    && (points >= scale[2] <==> speed < 0.7 * expected)
    && (points >= scale[3] <==> speed < 0.85 * expected)
  }

  lemma FallsBelow(x: real, expected: real, c: real)
    requires expected > 0.0
    ensures x / expected < c <==> x < c * expected
  {
    var q := x / expected;
    assert q * expected == x;
    assert q < c <==> q * expected < c * expected;
  }

  lemma SpeedCharged(speed: real, expected: real, extended: bool)
    requires expected > 0.0
    ensures SpeedCharge(BandwidthPoints(speed / expected, extended), speed, expected, extended)
  {
    FallsBelow(speed, expected, 0.3);
    FallsBelow(speed, expected, 0.5);
    FallsBelow(speed, expected, 0.7);
    FallsBelow(speed, expected, 0.85);
  }

  function Speeds(conns: seq<Conn>, nowMs: nat): (r: seq<real>)
    ensures |r| == |conns| && forall i :: 0 <= i < |r| ==> r[i] == Speed(conns[i].stats, nowMs)
  {
    seq(|conns|, i requires 0 <= i < |conns| => Speed(conns[i].stats, nowMs))
  }

  ghost predicate IsLargest(s: seq<real>, top: real) {
    top in s && forall i :: 0 <= i < |s| ==> s[i] <= top
  }

  /** The elements from `least` on, each as often as in s. */
  ghost predicate IsUpperPart(part: seq<real>, s: seq<real>, least: real) {
    forall x :: multiset(part)[x] == if x >= least then multiset(s)[x] else 0
  }

  /** The speed that the others are compared with: the median of those that reach
      half of the largest, or 0 if nothing was received on any connection. */
  ghost predicate IsTypical(speeds: seq<real>, typical: real) {
    exists top :: && IsLargest(speeds, top)
                  && if top == 0.0 then typical == 0.0
                     else exists good :: IsUpperPart(good, speeds, top * 0.5) && IsMedian(good, typical)
  }

  lemma SpeedsMeasured(conns: seq<Conn>, nowMs: nat)
    ensures AllBandwidths(Measurements(conns, nowMs)) == Speeds(conns, nowMs)
  {
    forall i | 0 <= i < |conns| ensures Measure(conns[i].stats, nowMs).bandwidth == Speed(conns[i].stats, nowMs) {
      SpeedMeasured(conns[i].stats, nowMs);
    }
  }

  lemma GoodSnoc(ms: seq<Metrics>, least: real)
    requires ms != []
    ensures var n := |ms| - 1;
            && Good(ms, least) == Good(ms[..n], least) + (if ms[n].bandwidth >= least then [ms[n].bandwidth] else [])
            && AllBandwidths(ms) == AllBandwidths(ms[..n]) + [ms[n].bandwidth]
  {
  }

  lemma {:induction false} GoodIsPart(ms: seq<Metrics>, least: real)
    ensures IsUpperPart(Good(ms, least), AllBandwidths(ms), least)
    decreases |ms|
  {
    if ms != [] {
      GoodSnoc(ms, least);
      GoodIsPart(ms[..|ms| - 1], least);
    }
  }

  lemma FastestIsLargest(ms: seq<Metrics>)
    requires ms != [] && forall i :: 0 <= i < |ms| ==> ms[i].bandwidth >= 0.0
    ensures IsLargest(AllBandwidths(ms), Fastest(ms))
  {
    forall i | 0 <= i < |ms| ensures ms[i].bandwidth <= Fastest(ms) {
      FastestBounds(ms, i);
    }
    var i := 0;
    if Fastest(ms) > 0.0 {
      i := FastestAttained(ms);
    }
    assert AllBandwidths(ms)[i] == Fastest(ms);
  }

  lemma NothingTypical(speeds: seq<real>)
    requires IsLargest(speeds, 0.0)
    ensures IsTypical(speeds, 0.0)
  {
  }

  lemma MedianTypical(speeds: seq<real>, top: real, good: seq<real>)
    requires IsLargest(speeds, top) && top != 0.0 && good != [] && IsUpperPart(good, speeds, top * 0.5)
    ensures IsTypical(speeds, Median(good))
  {
    MedianExact(good);
  }

  lemma GoodTypical(ms: seq<Metrics>, top: real)
    requires IsLargest(AllBandwidths(ms), top) && top != 0.0 && Good(ms, top * 0.5) != []
    ensures IsTypical(AllBandwidths(ms), Median(Good(ms, top * 0.5)))
  {
    GoodIsPart(ms, top * 0.5);
    MedianTypical(AllBandwidths(ms), top, Good(ms, top * 0.5));
  }

  /** The fallback over all connections is never taken. */
  lemma TypicalIs(ms: seq<Metrics>, top: real, good: seq<real>)
    requires ms != [] && top == Fastest(ms) && good == Good(ms, top * 0.5)
    ensures TypicalBandwidth(ms) == if top <= 0.0 || good == [] then 0.0 else Median(good)
    ensures top > 0.0 ==> good != []
  {
    if top > 0.0 {
      TypicalBounds(ms);
    }
  }

  lemma TypicalExact(ms: seq<Metrics>)
    requires ms != [] && forall i :: 0 <= i < |ms| ==> ms[i].bandwidth >= 0.0
    ensures IsTypical(AllBandwidths(ms), TypicalBandwidth(ms))
  {
    FastestIsLargest(ms);
    TypicalIs(ms, Fastest(ms), Good(ms, Fastest(ms) * 0.5));
    if Fastest(ms) > 0.0 {
      GoodTypical(ms, Fastest(ms));
    } else {
      NothingTypical(AllBandwidths(ms));
    }
  }

  /** A connection's share of 1000 kbit/s, but not less than 100 kbit/s. */
  function Least(n: nat): real
    requires n > 0
  {
    if n <= 10 then 1000.0 / n as real else 100.0
  }

  /** The typical speed, unless the connection does not reach half of it, and not less
      than the least. */
  function Expected(speed: real, typical: real, n: nat): (r: real)
    requires n > 0
    ensures r >= 100.0
  {
    if 2.0 * speed < typical || typical < Least(n) then Least(n) else typical
  }

  lemma RatioExact(speed: real, typical: real, n: nat)
    requires n > 0
    ensures PerformanceRatio(speed, typical, MinExpected(n)) == speed / Expected(speed, typical, n)
  {
  }

  // ---- telemetry -------------------------------------------------------------------------------

  ghost predicate RttCharge(points: int, rttMs: nat) {
    && points in {0, 5, 10, 20}
    && (points >= 20 <==> rttMs > 500)
    && (points >= 10 <==> rttMs > 200)
    && (points >= 5 <==> rttMs > 100)
  }

  function Squares(s: seq<nat>): nat {
    if s == [] then 0 else s[0] * s[0] + Squares(s[1..])
  }

  /** The sum of the squared deviations of n numbers from m. */
  function Spread(squares: real, total: real, n: real, m: real): real {
    squares - 2.0 * m * total + n * m * m
  }

  lemma SameProduct(a: nat, b: nat)
    ensures (a * b) as real == a as real * b as real
  {
  }

  lemma SpreadOneMore(d: real, d': real, x: real, m: real,
                      q: real, q': real, t: real, t': real, n: real, n': real)
    requires d == Spread(q, t, n, m) && d' == (x - m) * (x - m) + d
    requires q' == x * x + q && t' == x + t && n' == n + 1.0
    ensures d' == Spread(q', t', n', m)
  {
    assert (x - m) * (x - m) == x * x - 2.0 * m * x + m * m;
  }

  lemma {:induction false} DeviationsExact(s: seq<nat>, m: real)
    ensures SquaredDeviations(s, m) == Spread(Squares(s) as real, Total(s) as real, |s| as real, m)
    decreases |s|
  {
    if s != [] {
      var rest := s[1..];
      DeviationsExact(rest, m);
      SameProduct(s[0], s[0]);
      SpreadOneMore(SquaredDeviations(rest, m), SquaredDeviations(s, m), s[0] as real, m,
                    Squares(rest) as real, Squares(s) as real, Total(rest) as real, Total(s) as real,
                    |rest| as real, |s| as real);
    }
  }

  lemma SpreadScaled(squares: real, total: real, n: real)
    requires n > 0.0
    ensures Spread(squares, total, n, total / n) / n * (n * n) == n * squares - total * total
  {
    var m := total / n;
    var d := Spread(squares, total, n, m);
    assert n * m == total;
    assert n * m * m == total * m;
    assert d == squares - m * total;
    assert n * d == n * squares - (n * m) * total;
    assert d / n * (n * n) == (d / n * n) * n;
  }

  lemma ComparesAs(x: real, a: nat, b: nat, c: nat)
    requires c > 0 && x * c as real == a as real - b as real
    ensures x > 2500.0 <==> a - b > 2500 * c
  {
    Scaled(x, 2500.0, c as real);
  }

  lemma VarianceExceeds(squares: nat, total: nat, n: nat)
    requires n > 0
    ensures Spread(squares as real, total as real, n as real, total as real / n as real) / n as real > 2500.0
            <==> n * squares - total * total > 2500 * (n * n)
  {
    var q, t, m := squares as real, total as real, n as real;
    SpreadScaled(q, t, m);
    SameProduct(n, squares);
    SameProduct(total, total);
    SameProduct(n, n);
    ComparesAs(Spread(q, t, m, t / m) / m, n * squares, total * total, n * n);
  }

  function Positives(s: seq<nat>): nat {
    if s == [] then 0 else (if s[0] > 0 then 1 else 0) + Positives(s[1..])
  }

  function Added(s: seq<nat>): nat {
    if s == [] then 0 else s[0] + Added(s[1..])
  }

  /** At least two round trips are known, that is, positive, and their variance
      exceeds the square of 50 ms. */
  predicate Unsteady(rtts: seq<nat>) {
    var n := Positives(rtts);
    n >= 2 && n * Squares(rtts) - Added(rtts) * Added(rtts) > 2500 * (n * n)
  }

  /** The zeros that are left out add nothing. */
  lemma {:induction false} SamplesExact(s: seq<nat>)
    ensures |Samples(s)| == Positives(s) && Total(Samples(s)) == Added(s) && Squares(Samples(s)) == Squares(s)
    decreases |s|
  {
    if s != [] {
      var rest := Samples(s[1..]);
      SamplesExact(s[1..]);
      if s[0] > 0 {
        assert Samples(s) == [s[0]] + rest && ([s[0]] + rest)[1..] == rest;
      } else {
        assert Samples(s) == [] + rest == rest;
      }
    }
  }

  lemma JitteryIff(rtts: seq<nat>)
    ensures Jittery(rtts) <==> Unsteady(rtts)
  {
    var v := Samples(rtts);
    SamplesExact(rtts);
    if |v| >= 2 {
      DeviationsExact(v, Total(v) as real / |v| as real);
      VarianceExceeds(Squares(v), Total(v), |v|);
    }
  }

  /** More than 95% of the window is in flight. */
  predicate Congested(s: Stats) {
    s.window > 0 && 20 * s.inFlight > 19 * s.window
  }

  lemma CongestedIff(s: Stats)
    ensures WindowPoints(s) == if Congested(s) then 15 else 0
  {
    if s.window > 0 {
      var q := s.inFlight as real / s.window as real;
      assert q * s.window as real == s.inFlight as real;
      Scaled(q, 0.95, s.window as real);
    }
  }

  /** An extended keepalive came in the last 2 seconds, and it said something. */
  predicate Informed(s: Stats, now: int) {
    s.lastKeepalive != 0 && now <= s.lastKeepalive + 2 && (s.rttMs > 0 || s.window > 0)
  }

  /** The charge for what the sender reports. */
  ghost predicate TelemetryCharge(points: int, s: Stats, now: int, nowMs: nat) {
    if !Informed(s, now) then points == 0
    else exists rtt, naks :: && RttCharge(rtt, s.rttMs) && NakCharge(naks, s, nowMs)
                             && points == rtt + (if Unsteady(s.rttHistory) then 10 else 0)
                                          + naks + (if Congested(s) then 15 else 0)
  }

  lemma TelemetryCharged(s: Stats, now: int, nowMs: nat)
    ensures TelemetryCharge(TelemetryPoints(s, Measure(s, nowMs), now), s, now, nowMs)
  {
    var rtt := if s.rttMs > 500 then 20 else if s.rttMs > 200 then 10 else if s.rttMs > 100 then 5 else 0;
    NakCharged(s, nowMs);
    JitteryIff(s.rttHistory);
    CongestedIff(s);
    assert RttCharge(rtt, s.rttMs);
  }

  // ---- one evaluation --------------------------------------------------------------------------

  /** The points before and after: a charge for the speed, in comparison with the
      typical one, one for the loss, and one for what the sender reports; the legacy
      points leave out the last, and charge the speed as that of a sender without
      extended keepalives. */
  ghost predicate Charged(s: Stats, r: Stats, speeds: seq<real>, now: int, nowMs: nat)
    requires speeds != []
  {
    exists typical, slow, legacySlow, loss, reported ::
      && IsTypical(speeds, typical)
      && SpeedCharge(slow, Speed(s, nowMs), Expected(Speed(s, nowMs), typical, |speeds|), s.extended)
      && SpeedCharge(legacySlow, Speed(s, nowMs), Expected(Speed(s, nowMs), typical, |speeds|), false)
      && LossCharge(loss, s, nowMs)
      && TelemetryCharge(reported, s, now, nowMs)
      && r.errorPoints == slow + loss + reported && r.legacyErrorPoints == legacySlow + loss
  }

  /** The next evaluation measures from here on. */
  ghost predicate Restarted(s: Stats, r: Stats, now: int, nowMs: nat) {
    var counted := Informed(s, now) && Measurable(s, nowMs) && NewPackets(s) > 0 && s.senderNakCount != 0;
    && r.lastEvalTime == nowMs && r.lastBytesReceived == s.bytesReceived
    && r.lastPacketsReceived == s.packetsReceived && r.lastPacketsLost == s.packetsLost
    && r.lastSenderNakCount == (if counted then s.senderNakCount else s.lastSenderNakCount)
    && r.nackCount == 0
  }

  lemma JudgeCharges(s: Stats, speeds: seq<real>, typical: real, now: int, nowMs: nat)
    requires speeds != [] && IsTypical(speeds, typical)
    ensures var m := Measure(s, nowMs);
            Charged(s, Judge(s, m, PerformanceRatio(m.bandwidth, typical, MinExpected(|speeds|)), now, nowMs),
                    speeds, now, nowMs)
  {
    var m, speed := Measure(s, nowMs), Speed(s, nowMs);
    var expected := Expected(speed, typical, |speeds|);
    SpeedMeasured(s, nowMs);
    RatioExact(speed, typical, |speeds|);
    SpeedCharged(speed, expected, s.extended);
    SpeedCharged(speed, expected, false);
    LossCharged(s, nowMs);
    TelemetryCharged(s, now, nowMs);
    var r := Judge(s, m, PerformanceRatio(m.bandwidth, typical, MinExpected(|speeds|)), now, nowMs);
    var slow, legacySlow := BandwidthPoints(speed / expected, s.extended), BandwidthPoints(speed / expected, false);
    assert r.errorPoints == slow + LossPoints(m.loss) + TelemetryPoints(s, m, now);
    assert r.legacyErrorPoints == legacySlow + LossPoints(m.loss);
  }

  lemma JudgeRestarts(s: Stats, ratio: real, now: int, nowMs: nat)
    ensures Restarted(s, Judge(s, Measure(s, nowMs), ratio, now, nowMs), now, nowMs)
  {
    SpeedMeasured(s, nowMs);
  }

  lemma TypicalOf(conns: seq<Conn>, nowMs: nat)
    requires conns != []
    ensures IsTypical(Speeds(conns, nowMs), TypicalBandwidth(Measurements(conns, nowMs)))
  {
    SpeedsMeasured(conns, nowMs);
    TypicalExact(Measurements(conns, nowMs));
  }

  /** An evaluation leaves alone the connections that are not 10 seconds old, and
      charges all others by their counters. */
  lemma EvaluationCharges(conns: seq<Conn>, i: nat, now: int, nowMs: nat)
    requires i < |conns|
    ensures var c, r := conns[i], JudgeAll(conns, now, nowMs)[i];
            if now < c.connectionStart + 10 then r == c
            else Charged(c.stats, r.stats, Speeds(conns, nowMs), now, nowMs) && Restarted(c.stats, r.stats, now, nowMs)
  {
    var ms, c := Measurements(conns, nowMs), conns[i];
    TypicalOf(conns, nowMs);
    JudgeCharges(c.stats, Speeds(conns, nowMs), TypicalBandwidth(ms), now, nowMs);
    JudgeRestarts(c.stats, PerformanceRatio(ms[i].bandwidth, TypicalBandwidth(ms), MinExpected(|conns|)), now, nowMs);
  }

  // ---- more loss never helps -----------------------------------------------------------------------

  lemma {:induction false} SameSpeedsSame(ms: seq<Metrics>, ms': seq<Metrics>, least: real)
    requires |ms| == |ms'| && forall i :: 0 <= i < |ms| ==> ms[i].bandwidth == ms'[i].bandwidth
    ensures Fastest(ms) == Fastest(ms') && Good(ms, least) == Good(ms', least)
    decreases |ms|
  {
    if ms != [] {
      SameSpeedsSame(ms[..|ms| - 1], ms'[..|ms| - 1], least);
    }
  }

  lemma SameTypical(ms: seq<Metrics>, ms': seq<Metrics>)
    requires ms != [] && |ms| == |ms'| && forall i :: 0 <= i < |ms| ==> ms[i].bandwidth == ms'[i].bandwidth
    ensures TypicalBandwidth(ms) == TypicalBandwidth(ms')
  {
    var top := Fastest(ms);
    var good := Good(ms, top * 0.5);
    SameSpeedsSame(ms, ms', top * 0.5);
    TypicalIs(ms, top, good);
    TypicalIs(ms', top, good);
  }

  lemma WorseShare(points: int, points': int, part: nat, part': nat, rest: nat)
    requires part <= part'
    requires ShareCharge(points, part, rest + part) && ShareCharge(points', part', rest + part')
    ensures points <= points'
  {
  }

  lemma WorseLoss(s: Stats, lost: nat, nowMs: nat)
    requires NewlyLost(s) <= NewlyLost(s.(packetsLost := lost))
    ensures var s' := s.(packetsLost := lost);
            && Measure(s', nowMs).bandwidth == Measure(s, nowMs).bandwidth
            && Measure(s', nowMs).packetsDiff == Measure(s, nowMs).packetsDiff
            && LossPoints(Measure(s, nowMs).loss) <= LossPoints(Measure(s', nowMs).loss)
  {
    var s' := s.(packetsLost := lost);
    LossCharged(s, nowMs);
    LossCharged(s', nowMs);
    if Measurable(s, nowMs) && NewPackets(s) > 0 {
      WorseShare(LossPoints(Measure(s, nowMs).loss), LossPoints(Measure(s', nowMs).loss),
                 NewlyLost(s), NewlyLost(s'), NewPackets(s));
    }
  }

  lemma WorseVerdict(s: Stats, lost: nat, ratio: real, now: int, nowMs: nat)
    requires NewlyLost(s) <= NewlyLost(s.(packetsLost := lost))
    ensures var s' := s.(packetsLost := lost);
            Judge(s, Measure(s, nowMs), ratio, now, nowMs).errorPoints
            <= Judge(s', Measure(s', nowMs), ratio, now, nowMs).errorPoints
  {
    WorseLoss(s, lost, nowMs);
  }

  function WithLoss(c: Conn, lost: nat): Conn {
    c.(stats := c.stats.(packetsLost := lost))
  }

  /** If more packets of one connection were lost, and all else were equal, it would
      not get fewer points, and every other connection would get the same. */
  lemma LossNeverHelps(conns: seq<Conn>, i: nat, lost: nat, now: int, nowMs: nat, j: nat)
    requires i < |conns| && j < |conns| && NewlyLost(conns[i].stats) <= NewlyLost(WithLoss(conns[i], lost).stats)
    ensures var conns' := conns[i := WithLoss(conns[i], lost)];
            var r, r' := JudgeAll(conns, now, nowMs)[j].stats, JudgeAll(conns', now, nowMs)[j].stats;
            if i == j then r.errorPoints <= r'.errorPoints else r == r'
  {
    var conns' := conns[i := WithLoss(conns[i], lost)];
    var ms, ms' := Measurements(conns, nowMs), Measurements(conns', nowMs);
    WorseLoss(conns[i].stats, lost, nowMs);
    SameTypical(ms, ms');
    var ratio := PerformanceRatio(ms[i].bandwidth, TypicalBandwidth(ms), MinExpected(|conns|));
    WorseVerdict(conns[i].stats, lost, ratio, now, nowMs);
  }

  // ---- the weights -----------------------------------------------------------------------------------

  ghost predicate WeightFor(weight: int, points: int) {
    && weight in {10, 40, 55, 70, 85, 100}
    && (weight <= 10 <==> points >= 40)
    && (weight <= 40 <==> points >= 25)
    && (weight <= 55 <==> points >= 15)
    && (weight <= 70 <==> points >= 10)
    && (weight <= 85 <==> points >= 5)
  }

  ghost predicate LegacyWeightFor(weight: int, points: int) {
    && weight in {10, 40, 55, 70, 85, 100}
    && (weight <= 10 <==> points >= 40)
    && (weight <= 40 <==> points >= 30)
    && (weight <= 55 <==> points >= 20)
    && (weight <= 70 <==> points >= 10)
    && (weight <= 85 <==> points >= 5)
  }

  /** A group is evaluated if it has connections and 5 seconds have passed since it
      last was. */
  predicate Due(g: Group, now: int) {
    g.conns != [] && g.lastQualityEval + 5 <= now
  }

  lemma EvaluatedFrame(g: Group, now: int, nowMs: nat)
    requires g.balancing
    ensures var e := Evaluated(g, now, nowMs);
            && |e.conns| == |g.conns|
            && e == g.(conns := e.conns, lastQualityEval := if Due(g, now) then now else g.lastQualityEval)
  {
  }

  lemma EvaluatedVerdict(g: Group, k: nat, now: int, nowMs: nat)
    requires g.balancing && k < |g.conns|
    ensures var e, s := Evaluated(g, now, nowMs), g.conns[k].stats;
            && |e.conns| == |g.conns|
            && if Due(g, now) && now >= g.conns[k].connectionStart + 10
               then Charged(s, e.conns[k].stats, Speeds(g.conns, nowMs), now, nowMs)
                    && Restarted(s, e.conns[k].stats, now, nowMs)
               else e.conns[k] == g.conns[k]
  {
    if Due(g, now) {
      EvaluationCharges(g.conns, k, now, nowMs);
    }
  }

  lemma ReweighedKeeps(g: Group, k: nat, now: int)
    requires k < |g.conns|
    ensures var b := Balanced(g, now);
            && |b.conns| == |g.conns| && b.lastQualityEval == g.lastQualityEval
            && b.conns[k].stats == g.conns[k].stats.(weightPercent := b.conns[k].stats.weightPercent)
  {
  }

  lemma ReweighedCharged(s: Stats, r: Stats, weight: nat, speeds: seq<real>, now: int, nowMs: nat)
    requires speeds != [] && Charged(s, r, speeds, now, nowMs)
    ensures Charged(s, r.(weightPercent := weight), speeds, now, nowMs)
  {
  }

  /** A group before and after the end of an iteration of the main loop: the
      connections of a group that is due, if they are 10 seconds old, are charged, and
      all others keep their points; the connections are weighed again if there was an
      evaluation since they last were; and in any case every weight is the one that the
      points call for. */
  ghost predicate GroupVerdict(g: Group, t: Group, k: nat, now: int, nowMs: nat)
    requires k < |g.conns|
  {
    && |t.conns| == |g.conns|
    && t.lastQualityEval == (if Due(g, now) then now else g.lastQualityEval)
    && t.lastBalanceEval == (if Due(g, now) || g.lastBalanceEval < g.lastQualityEval then now else g.lastBalanceEval)
    && var s, r := g.conns[k].stats, t.conns[k].stats;
       && (if Due(g, now) && now >= g.conns[k].connectionStart + 10
           then Charged(s, r, Speeds(g.conns, nowMs), now, nowMs) && Restarted(s, r, now, nowMs)
           else r == s.(weightPercent := r.weightPercent))
       && WeightFor(r.weightPercent, r.errorPoints)
       && LegacyWeightFor(r.legacyWeightPercent, r.legacyErrorPoints)
  }

  lemma BalancedWhen(g: Group, now: int, nowMs: nat)
    requires InStep(g) && g.conns != []
    ensures Tended(g, now, nowMs).lastBalanceEval
            == if Due(g, now) || g.lastBalanceEval < g.lastQualityEval then now else g.lastBalanceEval
  {
    EvaluatedFrame(g, now, nowMs);
  }

  lemma TendedVerdict(g: Group, k: nat, now: int, nowMs: nat)
    requires InStep(g) && k < |g.conns|
    ensures GroupVerdict(g, Tended(g, now, nowMs), k, now, nowMs)
  {
    var e := Evaluated(g, now, nowMs);
    TendedAgrees(g, now, nowMs);
    BalancedWhen(g, now, nowMs);
    EvaluatedFrame(g, now, nowMs);
    EvaluatedVerdict(g, k, now, nowMs);
    ReweighedKeeps(e, k, now);
    var r := Tended(g, now, nowMs).conns[k].stats;
    if Due(g, now) && now >= g.conns[k].connectionStart + 10 {
      ReweighedCharged(g.conns[k].stats, e.conns[k].stats, r.weightPercent, Speeds(g.conns, nowMs), now, nowMs);
    }
  }
}
