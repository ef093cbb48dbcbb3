/**
  Connection quality (src/quality/quality_evaluator.cpp) and the weights derived
  from it (src/quality/load_balancer.cpp).  Doubles are reals here.
 */
module Quality {
  import opened Net
  import opened ReceiverTypes

  const EVAL_PERIOD := 5
  const GRACE_PERIOD := 10
  const KEEPALIVE_STALENESS := 2
  const U64 := 0x1_0000_0000_0000_0000
  const U32 := 0x1_0000_0000

  // ---- measurements --------------------------------------------------------------

  datatype Metrics = Metrics(bandwidth: real, loss: real, packetsDiff: nat)

  function MaxReal(a: real, b: real): real { if a < b then b else a }

  /** Throughput in kbit/s and loss ratio since the last evaluation; nothing is
      measured before the first one.  Differences wrap as unsigned integers do. */
  function Measure(s: Stats, nowMs: nat): (m: Metrics)
    ensures m.bandwidth >= 0.0
  {
    var elapsed := if s.lastEvalTime > 0 then (nowMs - s.lastEvalTime) % U64 else 0;
    if elapsed == 0 then Metrics(0.0, 0.0, 0)
    else
      var bytes := (s.bytesReceived - s.lastBytesReceived) % U64;
      var packets := (s.packetsReceived - s.lastPacketsReceived) % U64;
      var lost := (s.packetsLost - s.lastPacketsLost) % U32;
      var perSecond := bytes as real / (elapsed as real / 1000.0);
      Metrics(perSecond * 8.0 / 1000.0,
              if packets > 0 then lost as real / (packets + lost) as real else 0.0,
              packets)
  }

  function Measurements(conns: seq<Conn>, nowMs: nat): (ms: seq<Metrics>)
    ensures |ms| == |conns|
    ensures forall i :: 0 <= i < |ms| ==> ms[i] == Measure(conns[i].stats, nowMs)
  {
    seq(|conns|, i requires 0 <= i < |conns| => Measure(conns[i].stats, nowMs))
  }

  function Fastest(ms: seq<Metrics>): (r: real)
    ensures r >= 0.0
  {
    if ms == [] then 0.0 else MaxReal(Fastest(ms[..|ms| - 1]), ms[|ms| - 1].bandwidth)
  }

  /** The bandwidths that reach the threshold. */
  function Good(ms: seq<Metrics>, threshold: real): (r: seq<real>) {
    if ms == [] then []
    else
      var bw := ms[|ms| - 1].bandwidth;
      Good(ms[..|ms| - 1], threshold) + if bw >= threshold then [bw] else []
  }

  ghost predicate IsSorted(s: seq<real>) {
    forall i, j :: 0 <= i < j < |s| ==> s[i] <= s[j]
  }

  function Insert(x: real, s: seq<real>): (r: seq<real>)
    ensures |r| == |s| + 1
  {
    if s == [] then [x]
    else if x <= s[0] then [x] + s
    else [s[0]] + Insert(x, s[1..])
  }

  function Sort(s: seq<real>): (r: seq<real>)
    ensures |r| == |s|
  {
    if s == [] then [] else Insert(s[|s| - 1], Sort(s[..|s| - 1]))
  }

  lemma {:induction false} InsertKeeps(x: real, s: seq<real>)
    ensures multiset(Insert(x, s)) == multiset(s) + multiset{x}
    decreases |s|
  {
    if s != [] {
      assert s == [s[0]] + s[1..];
      if x > s[0] {
        InsertKeeps(x, s[1..]);
      }
    }
  }

  lemma InsertMembers(x: real, s: seq<real>, y: real)
    requires y in Insert(x, s)
    ensures y == x || y in s
  {
    InsertKeeps(x, s);
    assert y in multiset(Insert(x, s));
  }

  lemma SortedCons(x: real, s: seq<real>)
    requires IsSorted(s) && forall i :: 0 <= i < |s| ==> x <= s[i]
    ensures IsSorted([x] + s)
  {
  }

  lemma {:induction false} InsertSorted(x: real, s: seq<real>)
    requires IsSorted(s)
    ensures IsSorted(Insert(x, s))
    decreases |s|
  {
    if s != [] {
      if x > s[0] {
        var t := Insert(x, s[1..]);
        InsertSorted(x, s[1..]);
        forall i | 0 <= i < |t| ensures s[0] <= t[i] {
          InsertMembers(x, s[1..], t[i]);
        }
        SortedCons(s[0], t);
      } else {
        SortedCons(x, s);
      }
    }
  }

  /** What std::sort promises. */
  lemma {:induction false} SortSorts(s: seq<real>)
    ensures IsSorted(Sort(s)) && multiset(Sort(s)) == multiset(s)
    decreases |s|
  {
    if s != [] {
      var n := |s| - 1;
      SortSorts(s[..n]);
      InsertSorted(s[n], Sort(s[..n]));
      InsertKeeps(s[n], Sort(s[..n]));
      assert s == s[..n] + [s[n]];
    }
  }

  /** The middle of a sorted sequence. */
  function Middle(v: seq<real>): real
    requires v != []
  {
    var mid := |v| / 2;
    if |v| % 2 == 0 then (v[mid - 1] + v[mid]) / 2.0 else v[mid]
  }

  function Median(s: seq<real>): (m: real)
    requires s != []
  {
    Middle(Sort(s))
  }

  function AllBandwidths(ms: seq<Metrics>): (r: seq<real>)
    ensures |r| == |ms|
  {
    seq(|ms|, i requires 0 <= i < |ms| => ms[i].bandwidth)
  }

  /** The bandwidth a link is compared with. */
  function TypicalBandwidth(ms: seq<Metrics>): real
    requires ms != []
  {
    var top := Fastest(ms);
    if top <= 0.0 then 0.0
    else
      var good := Good(ms, top * 0.5);
      if good != [] then Median(good) else Median(AllBandwidths(ms))
  }

  function MinExpected(n: nat): (r: real)
    requires n > 0
    ensures r >= 100.0
  {
    MaxReal(100.0, 1000.0 / n as real)
  }

  function PerformanceRatio(bandwidth: real, typical: real, minExpected: real): real {
    var poor := bandwidth < typical * 0.5;
    var expected := MaxReal(if poor then minExpected else typical, minExpected);
    if expected > 0.0 then bandwidth / expected else 0.0
  }

  // ---- error points ----------------------------------------------------------------

  function BandwidthPoints(ratio: real, extended: bool): nat {
    if ratio < 0.3 then (if extended then 10 else 40)
    else if ratio < 0.5 then (if extended then 7 else 25)
    else if ratio < 0.7 then (if extended then 4 else 15)
    else if ratio < 0.85 then (if extended then 2 else 5)
    else 0
  }

  /** Also the scale of the NAK rate. */
  function LossPoints(ratio: real): nat {
    if ratio > 0.20 then 40
    else if ratio > 0.10 then 20
    else if ratio > 0.05 then 10
    else if ratio > 0.01 then 5
    else 0
  }

  /** Recent, meaningful sender telemetry. */
  predicate HasTelemetry(s: Stats, now: int) {
    s.lastKeepalive != 0 && now - s.lastKeepalive <= KEEPALIVE_STALENESS && (s.rttMs > 0 || s.window > 0)
  }

  function Samples(h: seq<nat>): seq<nat> {
    if h == [] then [] else (if h[0] > 0 then [h[0]] else []) + Samples(h[1..])
  }

  function Total(s: seq<nat>): nat {
    if s == [] then 0 else s[0] + Total(s[1..])
  }

  function SquaredDeviations(s: seq<nat>, mean: real): real {
    if s == [] then 0.0
    else (s[0] as real - mean) * (s[0] as real - mean) + SquaredDeviations(s[1..], mean)
  }

  /** The standard deviation of the samples exceeds 50 ms; compared squared. */
  predicate Jittery(h: seq<nat>) {
    var v := Samples(h);
    |v| >= 2
    && SquaredDeviations(v, Total(v) as real / |v| as real) / |v| as real > 2500.0
  }

  function RttPoints(s: Stats, now: int): nat {
    if s.lastKeepalive == 0 || now - s.lastKeepalive > KEEPALIVE_STALENESS then 0
    else
      (if s.rttMs > 500 then 20 else if s.rttMs > 200 then 10 else if s.rttMs > 100 then 5 else 0)
      + if Jittery(s.rttHistory) then 10 else 0
  }

  predicate CountsNaks(s: Stats, packetsDiff: nat) {
    packetsDiff != 0 && s.senderNakCount != 0
  }

  function NakPoints(s: Stats, packetsDiff: nat): nat {
    if !CountsNaks(s, packetsDiff) then 0
    else LossPoints(((s.senderNakCount - s.lastSenderNakCount) % U32) as real / packetsDiff as real)
  }

  function WindowPoints(s: Stats): nat {
    if s.window <= 0 then 0
    else if s.inFlight as real / s.window as real > 0.95 then 15 else 0
  }

  // ---- weights -------------------------------------------------------------------------

  /** The table of the load balancer. */
  function Weight(points: nat): nat {
    if points >= 40 then 10
    else if points >= 25 then 40
    else if points >= 15 then 55
    else if points >= 10 then 70
    else if points >= 5 then 85
    else 100
  }

  /** The table of the legacy evaluation, with other thresholds. */
  function LegacyWeight(points: nat): nat {
    if points >= 40 then 10
    else if points >= 30 then 40
    else if points >= 20 then 55
    else if points >= 10 then 70
    else if points >= 5 then 85
    else 100
  }

  // ---- one evaluation --------------------------------------------------------------------

  predicate InGrace(c: Conn, now: int) {
    now - c.connectionStart < GRACE_PERIOD
  }

  function TelemetryPoints(s: Stats, m: Metrics, now: int): nat {
    if HasTelemetry(s, now) then RttPoints(s, now) + NakPoints(s, m.packetsDiff) + WindowPoints(s) else 0
  }

  function Judge(s: Stats, m: Metrics, ratio: real, now: int, nowMs: nat): Stats {
    var naksCounted := HasTelemetry(s, now) && CountsNaks(s, m.packetsDiff);
    var legacy := BandwidthPoints(ratio, false) + LossPoints(m.loss);
    s.(errorPoints := BandwidthPoints(ratio, s.extended) + LossPoints(m.loss) + TelemetryPoints(s, m, now),
       lastSenderNakCount := if naksCounted then s.senderNakCount else s.lastSenderNakCount,
       lastBytesReceived := s.bytesReceived,
       lastPacketsReceived := s.packetsReceived,
       lastPacketsLost := s.packetsLost,
       lastEvalTime := nowMs,
       nackCount := 0,
       legacyErrorPoints := legacy,
       legacyWeightPercent := LegacyWeight(legacy))
  }

  /** The new statistics of one connection, given what the group compares it with. */
  function JudgeConn(c: Conn, m: Metrics, typical: real, minExpected: real, now: int, nowMs: nat): Conn {
    if InGrace(c, now) then c
    else c.(stats := Judge(c.stats, m, PerformanceRatio(m.bandwidth, typical, minExpected), now, nowMs))
  }

  function JudgeAll(conns: seq<Conn>, now: int, nowMs: nat): (r: seq<Conn>)
    requires conns != []
    ensures |r| == |conns|
    ensures var ms := Measurements(conns, nowMs);
            forall i :: 0 <= i < |r| ==>
              r[i] == JudgeConn(conns[i], ms[i], TypicalBandwidth(ms), MinExpected(|conns|), now, nowMs)
  {
    var ms := Measurements(conns, nowMs);
    var typical, minExpected := TypicalBandwidth(ms), MinExpected(|conns|);
    seq(|conns|, i requires 0 <= i < |conns| => JudgeConn(conns[i], ms[i], typical, minExpected, now, nowMs))
  }

  predicate DueForEvaluation(g: Group, now: int) {
    g.conns != [] && g.balancing && g.lastQualityEval + EVAL_PERIOD <= now
  }

  function Evaluated(g: Group, now: int, nowMs: nat): Group {
    if !DueForEvaluation(g, now) then g
    else g.(conns := JudgeAll(g.conns, now, nowMs), lastQualityEval := now)
  }

  function Reweigh(c: Conn): Conn {
    c.(stats := c.stats.(weightPercent := Weight(c.stats.errorPoints)))
  }

  function ReweighAll(conns: seq<Conn>): (r: seq<Conn>)
    ensures |r| == |conns|
    ensures forall i :: 0 <= i < |r| ==> r[i] == Reweigh(conns[i])
  {
    seq(|conns|, i requires 0 <= i < |conns| => Reweigh(conns[i]))
  }

  predicate DueForBalancing(g: Group, now: int) {
    g.conns != []
    && if g.balancing then g.lastBalanceEval < g.lastQualityEval
       else g.lastBalanceEval == 0 || g.lastBalanceEval + EVAL_PERIOD <= now
  }

  function Balanced(g: Group, now: int): Group {
    if !DueForBalancing(g, now) then g
    else g.(conns := ReweighAll(g.conns), lastBalanceEval := now)
  }

  /** What the main loop does to a group at the end of an iteration. */
  function Tended(g: Group, now: int, nowMs: nat): Group {
    Balanced(Evaluated(g, now, nowMs), now)
  }

  // ---- the fastest link ------------------------------------------------------------------

  lemma MedianBounds(s: seq<real>, lo: real, hi: real)
    requires s != [] && forall x :: x in s ==> lo <= x <= hi
    ensures lo <= Median(s) <= hi
  {
    var v := Sort(s);
    SortSorts(s);
    forall k | 0 <= k < |v| ensures lo <= v[k] <= hi {
      assert v[k] in multiset(v);
      assert v[k] in s;
    }
  }

  lemma {:induction false} FastestBounds(ms: seq<Metrics>, i: nat)
    requires i < |ms|
    ensures ms[i].bandwidth <= Fastest(ms)
    decreases |ms|
  {
    if i < |ms| - 1 {
      FastestBounds(ms[..|ms| - 1], i);
    }
  }

  lemma {:induction false} FastestAttained(ms: seq<Metrics>) returns (i: nat)
    requires Fastest(ms) > 0.0
    ensures i < |ms| && ms[i].bandwidth == Fastest(ms)
    decreases |ms|
  {
    var n := |ms| - 1;
    if Fastest(ms) == ms[n].bandwidth {
      i := n;
    } else {
      i := FastestAttained(ms[..n]);
    }
  }

  lemma {:induction false} GoodBounds(ms: seq<Metrics>, threshold: real, x: real)
    requires x in Good(ms, threshold)
    ensures threshold <= x <= Fastest(ms)
    decreases |ms|
  {
    var n := |ms| - 1;
    if x in Good(ms[..n], threshold) {
      GoodBounds(ms[..n], threshold, x);
    }
  }

  lemma {:induction false} GoodHas(ms: seq<Metrics>, threshold: real, i: nat)
    requires i < |ms| && ms[i].bandwidth >= threshold
    ensures ms[i].bandwidth in Good(ms, threshold)
    decreases |ms|
  {
    if i < |ms| - 1 {
      GoodHas(ms[..|ms| - 1], threshold, i);
    }
  }

  lemma GoodMedian(ms: seq<Metrics>, threshold: real)
    requires Good(ms, threshold) != []
    ensures threshold <= Median(Good(ms, threshold)) <= Fastest(ms)
  {
    forall x | x in Good(ms, threshold) ensures threshold <= x <= Fastest(ms) {
      GoodBounds(ms, threshold, x);
    }
    MedianBounds(Good(ms, threshold), threshold, Fastest(ms));
  }

  /** When some link carries data there is a good one, so the fallback over all
      links is never taken, and the typical bandwidth is between half of the
      fastest and the fastest. */
  lemma TypicalBounds(ms: seq<Metrics>)
    requires ms != [] && Fastest(ms) > 0.0
    ensures Good(ms, Fastest(ms) * 0.5) != []
    ensures Fastest(ms) * 0.5 <= TypicalBandwidth(ms) <= Fastest(ms)
  {
    var top := Fastest(ms);
    var half := top * 0.5;
    var good := Good(ms, half);
    var i := FastestAttained(ms);
    GoodHas(ms, half, i);
    GoodMedian(ms, half);
  }

  lemma RatioOf(x: real, expected: real)
    requires expected >= 100.0 && x >= 0.0
    ensures x / expected >= 0.85 <==> x >= 0.85 * expected
  {
  }

  /** The largest bandwidth is charged exactly when even it stays below 85% of the
      minimum expected of every link. */
  lemma TopBandwidthCharged(ms: seq<Metrics>, extended: bool)
    requires ms != []
    ensures var top, least := Fastest(ms), MinExpected(|ms|);
            BandwidthPoints(PerformanceRatio(top, TypicalBandwidth(ms), least), extended) == 0
            <==> top >= 0.85 * least
  {
    var top, least, typical := Fastest(ms), MinExpected(|ms|), TypicalBandwidth(ms);
    if top > 0.0 {
      TypicalBounds(ms);
      assert !(top < typical * 0.5);
    }
    var expected := MaxReal(if top < typical * 0.5 then least else typical, least);
    RatioOf(top, expected);
  }

  /** No connection of the group has more bandwidth than connection i. */
  ghost predicate IsFastest(conns: seq<Conn>, i: nat, nowMs: nat)
    requires i < |conns|
  {
    var ms := Measurements(conns, nowMs);
    forall j :: 0 <= j < |ms| ==> ms[j].bandwidth <= ms[i].bandwidth
  }

  lemma FastestIsTop(ms: seq<Metrics>, i: nat)
    requires i < |ms| && ms[i].bandwidth >= 0.0 && forall j :: 0 <= j < |ms| ==> ms[j].bandwidth <= ms[i].bandwidth
    ensures ms[i].bandwidth == Fastest(ms)
  {
    FastestBounds(ms, i);
    if Fastest(ms) > 0.0 {
      var j := FastestAttained(ms);
    }
  }

  /** What an evaluation charges connection i for its bandwidth. */
  function BandwidthCharge(conns: seq<Conn>, i: nat, nowMs: nat): nat
    requires i < |conns|
  {
    var ms := Measurements(conns, nowMs);
    var ratio := PerformanceRatio(ms[i].bandwidth, TypicalBandwidth(ms), MinExpected(|conns|));
    BandwidthPoints(ratio, conns[i].stats.extended)
  }

  /** A connection out of grace gets its bandwidth charge on top of what loss and
      telemetry cost it.  The fastest one gets none exactly when it reaches 85% of
      the minimum expected of every connection. */
  lemma FastestLinkPenalty(conns: seq<Conn>, i: nat, now: int, nowMs: nat)
    requires i < |conns| && !InGrace(conns[i], now) && IsFastest(conns, i, nowMs)
    ensures var m := Measure(conns[i].stats, nowMs);
            && JudgeAll(conns, now, nowMs)[i].stats.errorPoints
               == BandwidthCharge(conns, i, nowMs) + LossPoints(m.loss) + TelemetryPoints(conns[i].stats, m, now)
            && (BandwidthCharge(conns, i, nowMs) == 0 <==> m.bandwidth >= 0.85 * MinExpected(|conns|))
  {
    var ms := Measurements(conns, nowMs);
    FastestIsTop(ms, i);
    TopBandwidthCharged(ms, conns[i].stats.extended);
  }

  // ---- the first evaluation ------------------------------------------------------------------

  lemma NothingMeasured(typical: real, least: real)
    requires least >= 100.0
    ensures PerformanceRatio(0.0, typical, least) == 0.0
  {
  }

  /** A connection that was never evaluated measures nothing, so its first
      evaluation out of grace charges it in full, however fast it is. */
  lemma FirstEvaluation(conns: seq<Conn>, i: nat, now: int, nowMs: nat)
    requires i < |conns| && conns[i].stats.lastEvalTime == 0 && !InGrace(conns[i], now)
    ensures BandwidthCharge(conns, i, nowMs) == if conns[i].stats.extended then 10 else 40
    ensures JudgeAll(conns, now, nowMs)[i].stats.errorPoints
            == BandwidthCharge(conns, i, nowMs) + TelemetryPoints(conns[i].stats, Metrics(0.0, 0.0, 0), now)
  {
    var ms := Measurements(conns, nowMs);
    assert ms[i] == Metrics(0.0, 0.0, 0);
    NothingMeasured(TypicalBandwidth(ms), MinExpected(|conns|));
  }

  /** A group's only connection is its fastest, and yet its first evaluation
      charges it in full. */
  lemma FastestLinkCharged(addr: Address, start: int, now: int, nowMs: nat)
    requires now >= start + GRACE_PERIOD
    ensures var conns := [NewConn(addr, start)];
            IsFastest(conns, 0, nowMs) && JudgeAll(conns, now, nowMs)[0].stats.errorPoints == 40
  {
    FirstEvaluation([NewConn(addr, start)], 0, now, nowMs);
    FastestLinkPenalty([NewConn(addr, start)], 0, now, nowMs);
  }

  // ---- legacy senders ------------------------------------------------------------------------

  /** What always holds of a connection's statistics. */
  ghost predicate StatsInv(s: Stats) {
    && s.legacyWeightPercent == LegacyWeight(s.legacyErrorPoints)
    && (!s.extended ==> s.lastKeepalive == 0 && s.errorPoints == s.legacyErrorPoints)
  }

  /** A sender that never sent an extended keepalive is judged exactly as by the
      legacy rules. */
  lemma JudgeKeepsStats(s: Stats, m: Metrics, ratio: real, now: int, nowMs: nat)
    requires StatsInv(s)
    ensures StatsInv(Judge(s, m, ratio, now, nowMs))
  {
  }

  /** Its weight never exceeds the legacy weight; with extended keepalives but
      no fresh telemetry, the points never exceed the legacy points. */
  lemma LegacyComparison(s: Stats, m: Metrics, ratio: real, now: int, nowMs: nat)
    requires StatsInv(s)
    ensures var s' := Judge(s, m, ratio, now, nowMs);
            && (!s.extended ==> Weight(s'.errorPoints) <= s'.legacyWeightPercent)
            && (!HasTelemetry(s, now) ==> s'.errorPoints <= s'.legacyErrorPoints)
  {
  }

  // ---- two timers in step ---------------------------------------------------------------------

  ghost predicate WeightsAgree(conns: seq<Conn>) {
    forall i :: 0 <= i < |conns| ==> conns[i].stats.weightPercent == Weight(conns[i].stats.errorPoints)
  }

  ghost predicate AllStatsInv(conns: seq<Conn>) {
    forall i :: 0 <= i < |conns| ==> StatsInv(conns[i].stats)
  }

  /** Either the weights are up to date or a rebalancing is due; and the balancer
      is never so far ahead that it would miss the next evaluation. */
  ghost predicate InStep(g: Group) {
    && g.balancing
    && g.lastBalanceEval < g.lastQualityEval + EVAL_PERIOD
    && (WeightsAgree(g.conns) || g.lastQualityEval > g.lastBalanceEval)
    && AllStatsInv(g.conns)
  }

  lemma EvaluatedInStep(g: Group, now: int, nowMs: nat)
    requires InStep(g)
    ensures InStep(Evaluated(g, now, nowMs))
    ensures g.conns != [] ==> now < Evaluated(g, now, nowMs).lastQualityEval + EVAL_PERIOD
  {
    if DueForEvaluation(g, now) {
      var r := Evaluated(g, now, nowMs);
      var ms := Measurements(g.conns, nowMs);
      forall i | 0 <= i < |r.conns| ensures StatsInv(r.conns[i].stats) {
        var c := g.conns[i];
        JudgeKeepsStats(c.stats, ms[i],
                        PerformanceRatio(ms[i].bandwidth, TypicalBandwidth(ms), MinExpected(|g.conns|)), now, nowMs);
      }
    }
  }

  /** At the end of an iteration every weight is the table value of the points. */
  lemma TendedAgrees(g: Group, now: int, nowMs: nat)
    requires InStep(g)
    ensures InStep(Tended(g, now, nowMs)) && WeightsAgree(Tended(g, now, nowMs).conns)
  {
    EvaluatedInStep(g, now, nowMs);
    var e := Evaluated(g, now, nowMs);
    assert |e.conns| == |g.conns|;
    var r := Balanced(e, now);
    assert AllStatsInv(r.conns);
  }
}
