/**
  Connections and groups as the mutable objects of src/connection, with the
  operations that the receiver performs on them.
 */
module ConnectionObjects {
  import opened Bytes
  import opened Net
  import opened Seqs
  import opened Sums
  import opened ReceiverTypes
  import opened Registry
  import opened Quality
  import opened Receiver
  import opened Verdicts
  import AckStream
  import NakDedup

  class Connection {
    const address: Address
    const connectionStart: int
    var lastReceived: int
    var recoveryStart: int
    var recvIndex: int
    const recvLog: array<int>
    var stats: Stats

    ghost predicate Valid() {
      recvLog.Length == AckStream.RECV_ACK_INT
    }

    ghost function View(): (c: Conn)
      requires Valid()
      reads this, recvLog
    {
      Conn(address, lastReceived, connectionStart, recoveryStart, AckStream.RecvLog(recvIndex, recvLog[..]), stats)
    }

    constructor (address: Address, now: int)
      ensures Valid() && View() == NewConn(address, now) && fresh(recvLog)
    {
      this.address := address;
      lastReceived, connectionStart, recoveryStart, recvIndex := now, now, 0, 0;
      recvLog := new int[AckStream.RECV_ACK_INT](_ => 0);
      stats := NEW_STATS;
      new;
      assert recvLog[..] == AckStream.EMPTY_LOG.log;
    }

    /** The recovery bookkeeping at the head of process_single_packet. */
    method Touch(ts: int) returns (started: bool)
      requires Valid()
      modifies this`lastReceived, this`recoveryStart
      ensures View() == Touched(old(View()), ts) && started == StartsRecovery(old(View()), ts)
      ensures started <==> old(recoveryStart) == 0 && old(lastReceived) + 15 < ts
      ensures lastReceived == ts && recoveryStart == if started then ts else old(recoveryStart)
    {
      var wasTimedOut := lastReceived + CONN_TIMEOUT < ts;
      lastReceived := ts;
      started := recoveryStart == 0 && wasTimedOut;
      if started {
        recoveryStart := ts;
      }
    }

    /** register_packet: log the number; a full log is the next acknowledgement. */
    method RegisterPacket(sn: int) returns (batches: seq<seq<int>>)
      requires Valid()
      modifies this`recvIndex, recvLog
      ensures View() == old(View()).(recvLog := AckStream.Register(old(View()).recvLog, sn))
      ensures batches == AckStream.Completed(old(View()).recvLog, sn)
    {
      var next := recvIndex + 1;
      if next <= 0 || next > AckStream.RECV_ACK_INT {
        next := 1;
      }
      recvIndex := next;
      recvLog[next - 1] := sn;
      batches := [];
      if recvIndex == AckStream.RECV_ACK_INT {
        batches := [recvLog[..]];
        recvIndex := 0;
      }
    }

    /** update_connection_telemetry. */
    method UpdateTelemetry(info: ConnInfo, clock: int)
      requires Valid()
      modifies this`stats
      ensures View() == old(View()).(stats := WithTelemetry(old(View()).stats, info, clock))
    {
      stats := stats.(extended := true);
      stats := stats.(rttHistory := stats.rttHistory[stats.rttIndex := info.rttMs]);
      stats := stats.(rttIndex := (stats.rttIndex + 1) % RTT_HISTORY_SIZE);
      stats := stats.(rttMs := info.rttMs);
      stats := stats.(window := info.window, inFlight := info.inFlight);
      stats := stats.(senderNakCount := info.nakCount);
      stats := stats.(lastKeepalive := clock);
    }

    /** The second loop of evaluate_group, for one connection out of grace. */
    method Evaluate(m: Metrics, ratio: real, now: int, nowMs: nat)
      requires Valid()
      modifies this`stats
      ensures View() == old(View()).(stats := Judge(old(View()).stats, m, ratio, now, nowMs))
      ensures stats.lastBytesReceived == old(stats).bytesReceived && stats.lastPacketsLost == old(stats).packetsLost
      ensures stats.lastPacketsReceived == old(stats).packetsReceived && stats.lastEvalTime == nowMs
    {
      var points := 0;
      if stats.extended {
        if ratio < 0.3 { points := points + 10; }
        else if ratio < 0.5 { points := points + 7; }
        else if ratio < 0.7 { points := points + 4; }
        else if ratio < 0.85 { points := points + 2; }
      } else {
        if ratio < 0.3 { points := points + 40; }
        else if ratio < 0.5 { points := points + 25; }
        else if ratio < 0.7 { points := points + 15; }
        else if ratio < 0.85 { points := points + 5; }
      }
      points := points + LossPoints(m.loss);
      if HasTelemetry(stats, now) {
        points := points + RttPoints(stats, now) + NakPoints(stats, m.packetsDiff) + WindowPoints(stats);
        if CountsNaks(stats, m.packetsDiff) {
          stats := stats.(lastSenderNakCount := stats.senderNakCount);
        }
      }
      stats := stats.(errorPoints := points);
      stats := stats.(lastBytesReceived := stats.bytesReceived, lastPacketsReceived := stats.packetsReceived,
                      lastPacketsLost := stats.packetsLost, lastEvalTime := nowMs, nackCount := 0);
      var legacy := BandwidthPoints(ratio, false) + LossPoints(m.loss);
      stats := stats.(legacyErrorPoints := legacy, legacyWeightPercent := LegacyWeight(legacy));
    }

    /** One step of the weight loop of adjust_weights. */
    method AdjustWeight()
      requires Valid()
      modifies this`stats
      ensures View() == Reweigh(old(View()))
      ensures WeightFor(stats.weightPercent, stats.errorPoints)
    {
      var points := stats.errorPoints;
      var weight := 100;
      if points >= 40 { weight := 10; }
      else if points >= 25 { weight := 40; }
      else if points >= 15 { weight := 55; }
      else if points >= 10 { weight := 70; }
      else if points >= 5 { weight := 85; }
      if weight != stats.weightPercent {
        stats := stats.(weightPercent := weight);
      }
    }

    /** The recovery bookkeeping of the reaper. */
    method SettleRecovery(now: int) returns (completed: bool, failed: bool)
      requires Valid()
      modifies this`recoveryStart
      ensures View() == Settled(old(View()), now)
      ensures completed == Completes(old(View()), now) && failed == Fails(old(View()), now)
    {
      completed, failed := false, false;
      if recoveryStart > 0 {
        if lastReceived > recoveryStart {
          if now - recoveryStart > RECOVERY_CHANCE_PERIOD {
            completed := true;
            recoveryStart := 0;
          }
        } else if recoveryStart + RECOVERY_CHANCE_PERIOD < now {
          failed := true;
          recoveryStart := 0;
        }
      }
    }
  }

  /** The list after the reaper has looked at element i. */
  ghost function ReplaceOne(ms: seq<Conn>, i: nat, now: int): seq<Conn>
    requires i < |ms|
  {
    if TimedOut(ms[i], now) then ms[..i] + ms[i + 1..] else ms[i := Settled(ms[i], now)]
  }

  /** The first i elements are what survives of the first `done`; the rest waits. */
  ghost predicate ReapedUpTo(was: seq<Conn>, done: nat, now: int, ms: seq<Conn>, i: nat) {
    && done <= |was| && i <= |ms|
    && ms[..i] == ReapConns(was[..done], now) && ms[i..] == was[done..]
  }

  lemma NextReaped(was: seq<Conn>, n: nat, now: int)
    requires n < |was|
    ensures ReapConns(was[..n + 1], now)
            == ReapConns(was[..n], now) + if TimedOut(was[n], now) then [] else [Settled(was[n], now)]
    ensures TallyConns(was[..n + 1], now) == Add(TallyConns(was[..n], now), TallyConn(was[n], now))
  {
    Next(was, n);
    ReapSnoc(was[..n], was[n], now);
  }

  lemma ReapStep(was: seq<Conn>, done: nat, now: int, ms: seq<Conn>, ms': seq<Conn>, i: nat)
    requires ReapedUpTo(was, done, now, ms, i) && i < |ms| && done < |was| && ms' == ReplaceOne(ms, i, now)
    ensures ms[i] == was[done]
    ensures ReapedUpTo(was, done + 1, now, ms', if TimedOut(was[done], now) then i else i + 1)
    ensures TallyConns(was[..done + 1], now) == Add(TallyConns(was[..done], now), TallyConn(was[done], now))
  {
    Next(ms, i);
    Next(was, done);
    NextReaped(was, done, now);
    Erased(ms, i);
    Overwritten(ms, i, Settled(ms[i], now));
    AppendNothing(ms[..i]);
  }

  lemma ReapDone(was: seq<Conn>, done: nat, now: int, ms: seq<Conn>, i: nat)
    requires ReapedUpTo(was, done, now, ms, i) && i == |ms|
    ensures done == |was| && ms == ReapConns(was, now) && was[..done] == was
  {
    assert |was[done..]| == |ms[i..]| == 0;
    assert ms[..i] == ms && was[..done] == was;
  }

  method ComputeFastest(ms: seq<Metrics>) returns (top: real)
    ensures top == Fastest(ms)
  {
    top := 0.0;
    for i := 0 to |ms|
      invariant top == Fastest(ms[..i])
    {
      assert ms[..i + 1][..i] == ms[..i];
      top := MaxReal(top, ms[i].bandwidth);
    }
    assert ms[..|ms|] == ms;
  }

  method ComputeGood(ms: seq<Metrics>, threshold: real) returns (good: seq<real>)
    ensures good == Good(ms, threshold)
  {
    good := [];
    for i := 0 to |ms|
      invariant good == Good(ms[..i], threshold)
    {
      assert ms[..i + 1][..i] == ms[..i];
      if ms[i].bandwidth >= threshold {
        good := good + [ms[i].bandwidth];
      }
    }
    assert ms[..|ms|] == ms;
  }

  /** The loops of evaluate_group that find the fastest and the good links. */
  method ComputeTypical(ms: seq<Metrics>) returns (typical: real)
    requires ms != []
    ensures typical == TypicalBandwidth(ms)
  {
    var top := ComputeFastest(ms);
    if top <= 0.0 {
      return 0.0;
    }
    var good := ComputeGood(ms, top * 0.5);
    if good != [] {
      return Median(good);
    }
    return Median(AllBandwidths(ms));
  }

  class ConnectionGroup {
    ghost const serial: nat
    const id: Id
    const createdAt: int
    var conns: seq<Connection>
    var dataSeen: bool
    var established: bool
    var socketOpen: bool
    var lastAddress: Address
    var lastQualityEval: int
    var lastBalanceEval: int
    var balancing: bool
    var nakCache: NakDedup.Cache<Hash>

    ghost var members: seq<Conn>   // the contents of conns
    ghost var repr: set<object>    // this group, its connections and their logs

    /** The group owns its connections, and they hold `members`. */
    ghost predicate Valid()
      reads this, repr
    {
      && this in repr
      && |members| == |conns|
      && (forall k :: 0 <= k < |conns| ==>
            && conns[k] in repr && conns[k].recvLog in repr
            && conns[k].Valid() && conns[k].View() == members[k])
      && forall k, l :: 0 <= k < l < |conns| ==> conns[k] != conns[l] && conns[k].recvLog != conns[l].recvLog
    }

    ghost function View(): (g: Group)
      reads this
    {
      Group(serial, id, members, createdAt, dataSeen, established, socketOpen, lastAddress,
            lastQualityEval, lastBalanceEval, balancing, nakCache)
    }

    constructor (ghost serial: nat, id: Id, addr: Address, now: int)
      ensures Valid() && View() == NewGroup(serial, id, addr, now) && fresh(repr)
    {
      this.serial := serial;
      this.id := id;
      createdAt := now;
      conns, members := [], [];
      dataSeen, established, socketOpen := false, false, false;
      lastAddress := addr;
      lastQualityEval, lastBalanceEval, balancing := 0, 0, true;
      nakCache := map[];
      repr := {this};
    }

    /** Index of the connection with this address, -1 or -2 as in FindInGroup. */
    method Find(a: Address) returns (k: int)
      requires Valid()
      ensures k == FindInGroup(View(), a)
    {
      for i := 0 to |conns|
        invariant ConnIndex(members, a) == ConnIndex(members, a, i)
      {
        assert members[i] == conns[i].View();
        if conns[i].address == a {
          return i;
        }
      }
      return if lastAddress == a then -1 else -2;
    }

    /** add_connection and the address update of register_connection. */
    method Join(addr: Address, known: bool, now: int)
      requires Valid()
      modifies this
      ensures Valid() && fresh(repr - old(repr)) && old(repr) <= repr
      ensures View() == Joined(old(View()), addr, known, now)
    {
      if !known {
        var c := new Connection(addr, now);
        conns := conns + [c];
        members := members + [NewConn(addr, now)];
        repr := repr + {c, c.recvLog};
      }
      lastAddress := addr;
    }

    /** The per-connection body of a packet handler is done; note the new contents. */
    ghost method Note(k: nat, c: Conn)
      requires this in repr && k < |conns| && |members| == |conns|
      modifies this`members
      ensures members == old(members)[k := c]
    {
      members := members[k := c];
    }

    method Touch(k: nat, ts: int) returns (started: bool)
      requires Valid() && k < |conns|
      modifies repr
      ensures Valid() && repr == old(repr) && conns == old(conns)
      ensures View() == TouchedGroup(old(View()), k, ts) && started == StartsRecovery(old(members[k]), ts)
    {
      started := conns[k].Touch(ts);
      Note(k, Touched(members[k], ts));
    }

    method UpdateTelemetry(k: nat, info: OptionalInfo, clock: int)
      requires Valid() && k < |conns|
      modifies repr
      ensures Valid() && repr == old(repr) && conns == old(conns)
      ensures View() == TelemetryInGroup(old(View()), k, info, clock)
    {
      if info.SomeInfo? {
        conns[k].UpdateTelemetry(info.info, clock);
        Note(k, members[k].(stats := WithTelemetry(members[k].stats, info.info, clock)));
      }
    }

    method CountTraffic(k: nat, addr: Address, bytes: nat)
      requires Valid() && k < |conns|
      modifies repr
      ensures Valid() && repr == old(repr) && conns == old(conns)
      ensures View() == Streaming(old(View()), k, addr, bytes)
    {
      dataSeen := true;
      lastAddress := addr;
      var c := conns[k];
      c.stats := CountPacket(c.stats, bytes);
      Note(k, members[k].(stats := CountPacket(members[k].stats, bytes)));
    }

    /** The measuring loop of evaluate_group. */
    method MeasureAll(nowMs: nat) returns (ms: seq<Metrics>)
      requires Valid()
      ensures ms == Measurements(members, nowMs)
    {
      ms := [];
      for i := 0 to |conns|
        invariant |ms| == i && forall j :: 0 <= j < i ==> ms[j] == Measure(members[j].stats, nowMs)
      {
        assert members[i] == conns[i].View();
        ms := ms + [Measure(conns[i].stats, nowMs)];
      }
    }

    method JudgeOne(i: nat, m: Metrics, typical: real, minExpected: real, now: int, nowMs: nat)
      requires Valid() && i < |conns|
      modifies repr
      ensures Valid() && repr == old(repr) && conns == old(conns)
      ensures View() == SetConn(old(View()), i, JudgeConn(old(members[i]), m, typical, minExpected, now, nowMs))
    {
      var c := conns[i];
      if now - c.connectionStart < GRACE_PERIOD {
        return;
      }
      c.Evaluate(m, PerformanceRatio(m.bandwidth, typical, minExpected), now, nowMs);
      Note(i, JudgeConn(members[i], m, typical, minExpected, now, nowMs));
    }

    /** The judging loop of evaluate_group. */
    method JudgeLoop(ms: seq<Metrics>, typical: real, minExpected: real, now: int, nowMs: nat, ghost goal: seq<Conn>)
      requires Valid() && |ms| == |conns| && |goal| == |conns|
      requires forall i :: 0 <= i < |goal| ==> goal[i] == JudgeConn(members[i], ms[i], typical, minExpected, now, nowMs)
      modifies repr
      ensures Valid() && repr == old(repr) && conns == old(conns)
      ensures View() == old(View()).(conns := goal)
    {
      ghost var was := members;
      for i := 0 to |conns|
        modifies repr
        invariant Valid() && repr == old(repr) && conns == old(conns)
        invariant View() == old(View()).(conns := members)
        invariant forall j :: 0 <= j < |conns| ==> members[j] == if j < i then goal[j] else was[j]
      {
        JudgeOne(i, ms[i], typical, minExpected, now, nowMs);
      }
      assert members == goal;
    }

    /** evaluate_group. */
    method EvaluateGroup(now: int, nowMs: nat)
      requires Valid()
      modifies repr
      ensures Valid() && repr == old(repr) && conns == old(conns)
      ensures View() == Evaluated(old(View()), now, nowMs)
    {
      if |conns| == 0 || !balancing {
        return;
      }
      if lastQualityEval + EVAL_PERIOD > now {
        return;
      }
      var ms := MeasureAll(nowMs);
      var typical := ComputeTypical(ms);
      var minExpected := MinExpected(|conns|);
      ghost var goal := JudgeAll(members, now, nowMs);
      JudgeLoop(ms, typical, minExpected, now, nowMs, goal);
      lastQualityEval := now;
    }

    /** is_duplicate_nak and what follows it for an accepted NAK. */
    method NoteNak(k: nat, buf: seq<Byte>, ts: int, ms: Millis) returns (suppressed: bool)
      requires Valid() && k < |conns|
      modifies repr
      ensures Valid() && repr == old(repr) && conns == old(conns)
      ensures suppressed == Suppressed(old(View()), buf, ms.dedup)
      ensures View() == if suppressed then old(View()) else NakNoted(old(View()), k, buf, ts, ms)
    {
      suppressed := false;
      if IsNak(buf) {
        var accept, cache := NakDedup.ShouldAcceptNak(nakCache, HashOf(buf), ms.dedup);
        if !accept {
          return true;
        }
        nakCache := cache;
        var c := conns[k];
        c.stats := CountNak(c.stats);
        Note(k, members[k].(stats := CountNak(members[k].stats)));
        if c.stats.nackCount > 5 && lastQualityEval + 1 < ts {
          EvaluateGroup(ts, ms.eval);
        }
      }
    }

    method LogPacket(k: nat, sn: int) returns (batches: seq<seq<int>>)
      requires Valid() && k < |conns|
      modifies repr
      ensures Valid() && repr == old(repr) && conns == old(conns)
      ensures View() == Logged(old(View()), k, sn)
      ensures batches == if sn < 0 then [] else AckStream.Completed(old(members[k]).recvLog, sn)
    {
      batches := [];
      if sn >= 0 {
        batches := conns[k].RegisterPacket(sn);
        Note(k, members[k].(recvLog := AckStream.Register(members[k].recvLog, sn)));
      }
    }

    method HandleSrt(k: nat, addr: Address, buf: seq<Byte>, ts: int, ms: Millis)
      returns (suppressed: bool, batches: seq<seq<int>>)
      requires Valid() && k < |conns| && |buf| >= SRT_MIN_LEN
      modifies repr
      ensures Valid() && repr == old(repr)
      ensures View() == SrtInGroup(old(View()), k, addr, buf, ts, ms)
      ensures suppressed == Suppressed(old(View()), buf, ms.dedup)
      ensures !suppressed ==> batches == var sn := SequenceNumber(buf);
                                         if sn < 0 then [] else AckStream.Completed(old(members[k]).recvLog, sn)
    {
      batches := [];
      CountTraffic(k, addr, |buf|);
      suppressed := NoteNak(k, buf, ts, ms);
      if !suppressed {
        batches := LogPacket(k, SequenceNumber(buf));
      }
    }

    /** What a packet from connection k does to the group, up to forwarding it. */
    method HandlePacket(k: nat, addr: Address, buf: seq<Byte>, ts: int, clock: int, ms: Millis)
      returns (started: bool, suppressed: bool, batches: seq<seq<int>>)
      requires Valid() && k < |conns|
      modifies repr
      ensures Valid() && repr == old(repr)
      ensures started == StartsRecovery(old(members[k]), ts)
      ensures !Classify(buf).Srt? ==> View() == Quietly(old(View()), k, buf, ts, clock)
      ensures Classify(buf).Srt? ==>
                && View() == SrtInGroup(TouchedGroup(old(View()), k, ts), k, addr, buf, ts, ms)
                && suppressed == Suppressed(old(View()), buf, ms.dedup)
                && (!suppressed ==> batches == var sn := SequenceNumber(buf);
                                               if sn < 0 then [] else AckStream.Completed(old(members[k]).recvLog, sn))
    {
      started := Touch(k, ts);
      suppressed, batches := false, [];
      match Classify(buf)
      case Keepalive(info) => UpdateTelemetry(k, info, clock);
      case Srt => suppressed, batches := HandleSrt(k, addr, buf, ts, ms);
      case _ =>
    }

    method MarkSocketOpen()
      requires Valid()
      modifies this`socketOpen
      ensures Valid() && View() == old(View()).(socketOpen := true)
    {
      socketOpen := true;
    }

    method MarkEstablished()
      requires Valid()
      modifies this`established
      ensures Valid() && View() == old(View()).(established := true)
    {
      established := true;
    }

    /** Connections in recovery. */
    method CountRecovering() returns (n: nat)
      requires Valid()
      ensures n == Recovering(View())
    {
      n := 0;
      for i := 0 to |conns|
        invariant n == Sum(members[..i], InRecovery)
      {
        assert members[i] == conns[i].View();
        Next(members, i);
        SumAppend(members[..i], members[i], InRecovery);
        if conns[i].recoveryStart > 0 {
          n := n + 1;
        }
      }
      assert members[..|conns|] == members;
    }

    /** The sending part of handle_srt_data. */
    method RelayToClients(buf: seq<Byte>) returns (outs: seq<Out>)
      requires Valid()
      ensures outs == RelayOuts(View(), buf)
    {
      if !IsAck(buf) && !IsNak(buf) {
        return [Out(lastAddress, Relay(buf))];
      }
      outs := [];
      for i := 0 to |conns|
        invariant |outs| == if i < MAX_CONNS_PER_GROUP then i else MAX_CONNS_PER_GROUP
        invariant forall j :: 0 <= j < |outs| ==> outs[j] == Out(members[j].addr, Relay(buf))
      {
        if |outs| >= MAX_CONNS_PER_GROUP {
          break;
        }
        assert members[i] == conns[i].View();
        outs := outs + [Out(conns[i].address, Relay(buf))];
      }
    }

    method ReweighOne(i: nat)
      requires Valid() && i < |conns|
      modifies repr
      ensures Valid() && repr == old(repr) && conns == old(conns)
      ensures View() == SetConn(old(View()), i, Reweigh(old(members[i])))
    {
      conns[i].AdjustWeight();
      Note(i, Reweigh(members[i]));
    }

    /** The weight loop of adjust_weights. */
    method ReweighLoop()
      requires Valid()
      modifies repr
      ensures Valid() && repr == old(repr) && conns == old(conns)
      ensures View() == old(View()).(conns := ReweighAll(old(members)))
    {
      ghost var was, goal := members, ReweighAll(members);
      for i := 0 to |conns|
        modifies repr
        invariant Valid() && repr == old(repr) && conns == old(conns)
        invariant View() == old(View()).(conns := members)
        invariant forall j :: 0 <= j < |conns| ==> members[j] == if j < i then goal[j] else was[j]
      {
        ReweighOne(i);
      }
      assert members == goal;
    }

    /** adjust_weights. */
    method AdjustWeights(now: int)
      requires Valid()
      modifies repr
      ensures Valid() && repr == old(repr) && conns == old(conns)
      ensures View() == Balanced(old(View()), now)
    {
      if |conns| == 0 {
        return;
      }
      if balancing {
        if lastBalanceEval >= lastQualityEval {
          return;
        }
      } else {
        if lastBalanceEval != 0 && lastBalanceEval + EVAL_PERIOD > now {
          return;
        }
      }
      lastBalanceEval := now;
      ReweighLoop();
    }

    method ReapOne(i: nat, now: int) returns (erased: bool, t: Tally)
      requires Valid() && i < |conns|
      modifies repr
      ensures Valid() && repr == old(repr)
      ensures View() == old(View()).(conns := members)
      ensures erased == TimedOut(old(members[i]), now) && t == TallyConn(old(members[i]), now)
      ensures members == ReplaceOne(old(members), i, now)
    {
      var c := conns[i];
      ghost var was := members[i];
      var completed, failed := c.SettleRecovery(now);
      erased := c.lastReceived + CONN_TIMEOUT < now;
      t := Tally(One(completed), One(failed), One(erased), 0);
      if erased {
        conns := conns[..i] + conns[i + 1..];
        members := members[..i] + members[i + 1..];
      } else {
        Note(i, Settled(was, now));
      }
    }

    /** The connection loop of cleanup_inactive, erasing in place. */
    method ReapConnections(now: int) returns (tally: Tally)
      requires Valid()
      modifies repr
      ensures Valid() && repr == old(repr)
      ensures View() == Reaped(old(View()), now) && tally == TallyConns(old(members), now)
    {
      tally := Tally(0, 0, 0, 0);
      ghost var was, done := members, 0;
      var i := 0;
      while i < |conns|
        modifies repr
        invariant Valid() && repr == old(repr)
        invariant View() == old(View()).(conns := members)
        invariant 0 <= done <= |was| && ReapedUpTo(was, done, now, members, i)
        invariant tally == TallyConns(was[..done], now)
        decreases |conns| - i
      {
        ghost var ms := members;
        assert |ms[i..]| == |was[done..]|;
        var erased, t := ReapOne(i, now);
        ReapStep(was, done, now, ms, members, i);
        tally := Add(tally, t);
        if !erased {
          i := i + 1;
        }
        done := done + 1;
      }
      ReapDone(was, done, now, members, i);
    }

    /** The whole body of the group loop: reap, then see whether the group expires. */
    method Reap(now: int) returns (expired: bool, tally: Tally)
      requires Valid()
      modifies repr
      ensures Valid() && repr == old(repr) && View() == Reaped(old(View()), now)
      ensures expired == Expires(old(View()), now) && tally == TallyGroup(old(View()), now)
    {
      tally := ReapConnections(now);
      var emptyTimeout := if dataSeen then GROUP_TIMEOUT else PENDING_GROUP_TIMEOUT;
      expired := |conns| == 0 && createdAt + emptyTimeout < now;
      if expired {
        tally := tally.(groupsRemoved := tally.groupsRemoved + 1);
      }
    }
  }
}
