/**
  Where the groups and connections of a state come from: each turn of the receiver,
  seen from one group and from one connection.
 */
module Origins {
  import opened Bytes
  import opened Net
  import opened ReceiverTypes
  import opened Registry
  import opened Quality
  import opened Receiver
  import opened ReceiverInvariants
  import opened Turns
  import AckStream
  import NakDedup

  // ---- turns, by kind ------------------------------------------------------------------------

  /** A packet arrives at the SRTLA socket from the address. */
  predicate Arrives(s: State, t: Turn, a: Address) {
    t.EventTurn? && Possible(s, t.event) && t.event.Datagram? && t.event.addr == a
  }

  /** It is not a registration. */
  predicate Hears(s: State, t: Turn, a: Address) {
    Arrives(s, t, a) && !Classify(t.event.buf).Reg1? && !Classify(t.event.buf).Reg2?
  }

  /** It is SRT traffic. */
  predicate Streams(s: State, t: Turn, a: Address) {
    Arrives(s, t, a) && Classify(t.event.buf).Srt?
  }

  /** A packet from the SRT server is handled for group i. */
  predicate Serves(s: State, t: Turn, i: nat) {
    t.EventTurn? && Possible(s, t.event) && t.event.FromServer? && FindById(s.groups, s.groups[t.event.raw].id) == i
  }

  /** The turn ends with a reaper pass. */
  predicate Reaps(s: State, t: Turn) {
    t.EndTurn? && s.lastCleanup + CLEANUP_PERIOD <= t.ts
  }

  /** The packet is from connection k of group i. */
  predicate IsFrom(s: State, t: Turn, i: nat, k: nat) {
    && t.EventTurn? && t.event.Datagram? && Hears(s, t, t.event.addr)
    && i < |s.groups| && k < |s.groups[i].conns| && FindByAddress(s.groups, t.event.addr) == Somebody(i, k)
  }

  /** The packet is from a member of group i. */
  predicate HeardIn(s: State, t: Turn, i: nat) {
    && t.EventTurn? && t.event.Datagram? && Hears(s, t, t.event.addr)
    && FindByAddress(s.groups, t.event.addr).Somebody? && FindByAddress(s.groups, t.event.addr).group == i
    && FindByAddress(s.groups, t.event.addr).conn >= 0
  }

  /** It is SRT traffic. */
  predicate StreamsIn(s: State, t: Turn, i: nat) {
    HeardIn(s, t, i) && Classify(t.event.buf).Srt?
  }

  /** That member. */
  function Speaker(s: State, t: Turn): (k: nat)
    requires t.EventTurn? && t.event.Datagram?
    requires FindByAddress(s.groups, t.event.addr).Somebody? && FindByAddress(s.groups, t.event.addr).conn >= 0
    ensures k < |s.groups[FindByAddress(s.groups, t.event.addr).group].conns|
  {
    FindByAddress(s.groups, t.event.addr).conn
  }

  /** A REG2 for group i is accepted. */
  predicate Joins(s: State, t: Turn, i: nat) {
    && t.EventTurn? && Possible(s, t.event) && t.event.Datagram? && Classify(t.event.buf).Reg2?
    && FindById(s.groups, Classify(t.event.buf).id) == i
    && RegisterConnection(s, t.event.addr, Classify(t.event.buf).id, t.ts, t.event.env).outs
       == [Out(t.event.addr, RegThree)]
  }

  // ---- one group -------------------------------------------------------------------------------

  function AfterPacket(g: Group, k: nat, addr: Address, buf: seq<Byte>, ts: int, env: Env): Group
    requires k < |g.conns|
  {
    if !Classify(buf).Srt? then Quietly(g, k, buf, ts, env.clock)
    else
      var r := SrtInGroup(TouchedGroup(g, k, ts), k, addr, buf, ts, env.ms);
      if Suppressed(g, buf, env.ms.dedup) then r else r.(socketOpen := true)
  }

  /** Group i after a turn that it survives; nowMs is the reading at its evaluation. */
  function GroupAfter(s: State, t: Turn, i: nat, nowMs: nat): Group
    requires i < |s.groups|
  {
    var g := s.groups[i];
    if t.EndTurn? then Tended(if Reaps(s, t) then Reaped(g, t.ts) else g, t.ts, nowMs)
    else if Serves(s, t, i) then (if IsAck(t.event.buf) then g.(established := true) else g)
    else if Joins(s, t, i) then Joined(g, t.event.addr, ConnIndex(g.conns, t.event.addr) >= 0, t.ts)
    else if HeardIn(s, t, i) then AfterPacket(g, Speaker(s, t), t.event.addr, t.event.buf, t.ts, t.event.env)
    else g
  }

  /** A REG1 is accepted, with this new group. */
  predicate Creates(s: State, t: Turn, g: Group) {
    && t.EventTurn? && Possible(s, t.event) && t.event.Datagram? && Classify(t.event.buf).Reg1?
    && g == NewGroup(s.counters.registered, Classify(t.event.buf).half + t.event.env.random, t.event.addr, t.ts)
    && RegisterGroup(s, t.event.addr, Classify(t.event.buf).half, t.ts, t.event.env).outs
       == [Out(t.event.addr, RegTwo(g.id))]
  }

  datatype Origin = Created | From(group: nat, nowMs: nat)

  ghost predicate ComesFrom(s: State, t: Turn, g': Group, o: Origin) {
    match o
    case Created => Creates(s, t, g')
    case From(i, nowMs) => i < |s.groups| && g' == GroupAfter(s, t, i, nowMs)
  }

  /** The groups after a REG1, one by one. */
  lemma Reg1Groups(s: State, addr: Address, half: Id, ts: int, env: Env, j: nat) returns (i: int)
    requires j < |RegisterGroup(s, addr, half, ts, env).state.groups|
    ensures var r, id := RegisterGroup(s, addr, half, ts, env), half + env.random;
            if i < 0
            then r.state.groups[j] == NewGroup(s.counters.registered, id, addr, ts) && r.outs == [Out(addr, RegTwo(id))]
            else i < |s.groups| && r.state.groups[j] == s.groups[i]
  {
    var v := OldestGhost(s.groups, |s.groups|);
    var gs, gs' := MadeRoom(s).groups, RegisterGroup(s, addr, half, ts, env).state.groups;
    RegisterGroupCases(s, addr, half, ts, env);
    if gs' == s.groups {
      i := j;
    } else if j == |gs| {
      i := -1;
    } else {
      assert gs'[j] == gs[j];
      i := if gs == s.groups || j < v then j else j + 1;
    }
  }

  lemma Reg1Origin(s: State, t: Turn, j: nat) returns (o: Origin)
    requires t.EventTurn? && Possible(s, t.event) && t.event.Datagram? && Classify(t.event.buf).Reg1?
    requires j < |Turned(s, t).groups|
    ensures ComesFrom(s, t, Turned(s, t).groups[j], o)
  {
    var i := Reg1Groups(s, t.event.addr, Classify(t.event.buf).half, t.ts, t.event.env, j);
    o := if i < 0 then Created else From(i, 0);
  }

  lemma Reg2Origin(s: State, t: Turn, j: nat)
    requires t.EventTurn? && Possible(s, t.event) && t.event.Datagram? && Classify(t.event.buf).Reg2?
    requires Owned(s.groups) && j < |Turned(s, t).groups|
    ensures ComesFrom(s, t, Turned(s, t).groups[j], From(j, 0))
  {
    var addr := t.event.addr;
    var i, r := FindById(s.groups, Classify(t.event.buf).id), FindByAddress(s.groups, addr);
    if i >= 0 && (r.Nobody? || r.group == i) {
      assert r.Somebody? && r.conn >= 0 <==> ConnIndex(s.groups[i].conns, addr) >= 0;
    }
  }

  /** Forwarding opens the group's socket, or removes the group. */
  lemma SocketOrigin(s: State, i: nat, env: Env)
    requires i < |s.groups|
    ensures var gs := Forwarded(s, i, env).groups;
            || (gs == s.groups[i := s.groups[i].(socketOpen := true)])
            || (|gs| == |s.groups| - 1 && forall j :: 0 <= j < |gs| ==> gs[j] == s.groups[if j < i then j else j + 1])
  {
  }

  lemma TrafficOrigin(s: State, t: Turn, j: nat) returns (o: Origin)
    requires t.EventTurn? && t.event.Datagram? && Hears(s, t, t.event.addr)
    requires j < |Turned(s, t).groups|
    ensures ComesFrom(s, t, Turned(s, t).groups[j], o)
  {
    var addr, buf, env := t.event.addr, t.event.buf, t.event.env;
    var r := FindByAddress(s.groups, addr);
    o := From(j, 0);
    if r.Somebody? && r.conn >= 0 && Classify(buf).Srt? && !Suppressed(s.groups[r.group], buf, env.ms.dedup) {
      var s1 := SrtState(s, r.group, r.conn, addr, buf, t.ts, env.ms);
      SocketOrigin(s1, r.group, env);
      if |Forwarded(s1, r.group, env).groups| < |s.groups| && j >= r.group {
        o := From(j + 1, 0);
      }
    }
  }

  lemma ServerOrigin(s: State, t: Turn, j: nat) returns (o: Origin)
    requires t.EventTurn? && Possible(s, t.event) && t.event.FromServer? && j < |Turned(s, t).groups|
    ensures ComesFrom(s, t, Turned(s, t).groups[j], o)
  {
    var i := FindById(s.groups, s.groups[t.event.raw].id);
    o := From(if |Turned(s, t).groups| == |s.groups| || j < i then j else j + 1, 0);
  }

  lemma EndOrigin(s: State, t: Turn, j: nat) returns (o: Origin)
    requires t.EndTurn? && j < |Turned(s, t).groups|
    ensures ComesFrom(s, t, Turned(s, t).groups[j], o)
  {
    if Reaps(s, t) {
      var i := GroupOrigin(s.groups, t.ts, j);
      o := From(i, t.millis(j));
    } else {
      o := From(j, t.millis(j));
    }
  }

  /** Every group after a turn is new, or what the turn makes of a group before. */
  lemma OriginOf(s: State, t: Turn, j: nat) returns (o: Origin)
    requires Owned(s.groups) && j < |Turned(s, t).groups|
    ensures ComesFrom(s, t, Turned(s, t).groups[j], o)
  {
    if t.EndTurn? {
      o := EndOrigin(s, t, j);
    } else if !Possible(s, t.event) {
      o := From(j, 0);
    } else if t.event.FromServer? {
      o := ServerOrigin(s, t, j);
    } else if Classify(t.event.buf).Reg1? {
      o := Reg1Origin(s, t, j);
    } else if Classify(t.event.buf).Reg2? {
      Reg2Origin(s, t, j);
      o := From(j, 0);
    } else {
      o := TrafficOrigin(s, t, j);
    }
  }

  lemma TrafficRegisters(s: State, addr: Address, buf: seq<Byte>, ts: int, env: Env)
    ensures HandleTraffic(s, addr, buf, ts, env).state.counters.registered == s.counters.registered
  {
  }

  lemma ServerRegisters(s: State, raw: nat, buf: seq<Byte>, env: Env)
    requires raw < |s.groups|
    ensures HandleServer(s, raw, buf, env).state.counters.registered == s.counters.registered
  {
  }

  lemma RegisteredGrows(s: State, t: Turn)
    ensures Turned(s, t).counters.registered >= s.counters.registered
  {
    if t.EventTurn? && Possible(s, t.event) {
      match t.event
      case Datagram(addr, buf, env) => TrafficRegisters(s, addr, buf, t.ts, env);
      case FromServer(raw, buf, env) => ServerRegisters(s, raw, buf, env);
    }
  }

  // ---- everything but the connections ----------------------------------------------------------------

  ghost predicate SameHead(g: Group, g': Group) {
    && g'.serial == g.serial && g'.id == g.id && g'.createdAt == g.createdAt
    && g'.dataSeen == g.dataSeen && g'.established == g.established && g'.socketOpen == g.socketOpen
    && g'.lastAddress == g.lastAddress && g'.nakCache == g.nakCache
  }

  lemma TendedHead(g: Group, ts: int, nowMs: nat)
    ensures SameHead(g, Tended(g, ts, nowMs))
  {
  }

  lemma NakNotedHead(g: Group, k: nat, buf: seq<Byte>, ts: int, ms: Millis)
    requires k < |g.conns|
    ensures SameHead(if IsNak(buf) then g.(nakCache := NakDedup.AfterCall(g.nakCache, HashOf(buf), ms.dedup)) else g,
                     NakNoted(g, k, buf, ts, ms))
  {
  }

  /** SRT traffic marks the group and its last address; NAKs are put to the filter. */
  lemma SrtHead(g: Group, k: nat, addr: Address, buf: seq<Byte>, ts: int, ms: Millis)
    requires k < |g.conns| && |buf| >= SRT_MIN_LEN
    ensures SameHead(g.(dataSeen := true, lastAddress := addr,
                        nakCache := if IsNak(buf) then NakDedup.AfterCall(g.nakCache, HashOf(buf), ms.dedup)
                                    else g.nakCache),
                     SrtInGroup(g, k, addr, buf, ts, ms))
  {
    NakNotedHead(Streaming(g, k, addr, |buf|), k, buf, ts, ms);
  }

  lemma QuietHead(g: Group, k: nat, buf: seq<Byte>, ts: int, clock: int)
    requires k < |g.conns|
    ensures SameHead(g, Quietly(g, k, buf, ts, clock))
  {
  }

  function FilteredBy(s: State, t: Turn, i: nat): NakDedup.Cache<Hash>
    requires i < |s.groups|
  {
    if StreamsIn(s, t, i) && IsNak(t.event.buf)
    then NakDedup.AfterCall(s.groups[i].nakCache, HashOf(t.event.buf), t.event.env.ms.dedup)
    else s.groups[i].nakCache
  }

  /** What a turn makes of a group that it leaves alive. */
  ghost predicate HeadBecame(s: State, t: Turn, i: nat, r: Group)
    requires i < |s.groups|
  {
    var g := s.groups[i];
    && r.serial == g.serial && r.id == g.id && r.createdAt == g.createdAt
    && r.dataSeen == (g.dataSeen || StreamsIn(s, t, i))
    && r.socketOpen == (g.socketOpen || (StreamsIn(s, t, i) && !Suppressed(g, t.event.buf, t.event.env.ms.dedup)))
    && r.established == (g.established || (Serves(s, t, i) && IsAck(t.event.buf)))
    && r.lastAddress == (if Joins(s, t, i) || StreamsIn(s, t, i) then t.event.addr else g.lastAddress)
    && r.nakCache == FilteredBy(s, t, i)
  }

  lemma HeardConns(s: State, t: Turn, i: nat)
    requires i < |s.groups| && HeardIn(s, t, i)
    ensures IsFrom(s, t, i, Speaker(s, t))
    ensures GroupAfter(s, t, i, 0)
            == AfterPacket(s.groups[i], Speaker(s, t), t.event.addr, t.event.buf, t.ts, t.event.env)
  {
  }

  lemma HeardHead(s: State, t: Turn, i: nat)
    requires i < |s.groups| && HeardIn(s, t, i)
    ensures HeadBecame(s, t, i, GroupAfter(s, t, i, 0))
  {
    var g, k := s.groups[i], Speaker(s, t);
    HeardConns(s, t, i);
    if Classify(t.event.buf).Srt? {
      SrtHead(TouchedGroup(g, k, t.ts), k, t.event.addr, t.event.buf, t.ts, t.event.env.ms);
    } else {
      QuietHead(g, k, t.event.buf, t.ts, t.event.env.clock);
    }
  }

  lemma GroupTurn(s: State, t: Turn, i: nat, nowMs: nat)
    requires i < |s.groups|
    ensures HeadBecame(s, t, i, GroupAfter(s, t, i, nowMs))
  {
    if t.EndTurn? {
      TendedHead(if Reaps(s, t) then Reaped(s.groups[i], t.ts) else s.groups[i], t.ts, nowMs);
    } else if HeardIn(s, t, i) {
      HeardHead(s, t, i);
    }
  }

  // ---- one connection --------------------------------------------------------------------------

  ghost predicate InGroup(g: Group, c: Conn) {
    exists k :: 0 <= k < |g.conns| && g.conns[k] == c
  }

  /** The connection is in the live group with this serial. */
  ghost predicate HasConn(gs: seq<Group>, serial: nat, c: Conn) {
    exists i :: 0 <= i < |gs| && gs[i].serial == serial && InGroup(gs[i], c)
  }

  /** That group has a connection with the address. */
  ghost predicate Member(gs: seq<Group>, serial: nat, a: Address) {
    exists c :: HasConn(gs, serial, c) && c.addr == a
  }

  /** A data packet arrives from the address. */
  predicate IsData(s: State, t: Turn, a: Address) {
    Streams(s, t, a) && SequenceNumber(t.event.buf) >= 0
  }

  /** A NAK arrives from the address and passes the filter of the group it is in. */
  predicate PassesNak(s: State, t: Turn, a: Address) {
    && Streams(s, t, a) && IsNak(t.event.buf)
    && var r := FindByAddress(s.groups, a);
       r.Somebody? && !Suppressed(s.groups[r.group], t.event.buf, t.event.env.ms.dedup)
  }

  /** A keepalive with telemetry arrives from the address. */
  predicate Reports(s: State, t: Turn, a: Address) {
    Hears(s, t, a) && Classify(t.event.buf).Keepalive? && Classify(t.event.buf).info.SomeInfo?
  }

  /** The 32-bit loss counter. */
  function LossesAfter(lost: nat, more: bool): nat {
    if more then (lost + 1) % 0x1_0000_0000 else lost
  }

  /** What a turn makes of a connection that it leaves alive.  Any packet refreshes
      it, and opens a recovery after more than 15 s of silence; SRT packets are
      counted, data packets logged; a reaper pass closes recoveries older than 5 s. */
  ghost predicate Became(s: State, t: Turn, c: Conn, c': Conn) {
    && c'.addr == c.addr && c'.connectionStart == c.connectionStart
    && c'.lastReceived == (if Hears(s, t, c.addr) then t.ts else c.lastReceived)
    && c'.recoveryStart == (if Hears(s, t, c.addr) then
                              (if c.recoveryStart == 0 && c.lastReceived + 15 < t.ts then t.ts else c.recoveryStart)
                            else if Reaps(s, t) && c.recoveryStart > 0 && c.recoveryStart + 5 < t.ts then 0
                            else c.recoveryStart)
    && c'.recvLog == (if IsData(s, t, c.addr) then AckStream.Register(c.recvLog, SequenceNumber(t.event.buf))
                      else c.recvLog)
    && c'.stats.bytesReceived == c.stats.bytesReceived + (if Streams(s, t, c.addr) then |t.event.buf| else 0)
    && c'.stats.packetsReceived == c.stats.packetsReceived + (if Streams(s, t, c.addr) then 1 else 0)
    && c'.stats.packetsLost == LossesAfter(c.stats.packetsLost, PassesNak(s, t, c.addr))
    && c'.stats.extended == (c.stats.extended || Reports(s, t, c.addr))
  }

  /** The connection is new: a REG2 from its address was accepted. */
  ghost predicate IsNew(s: State, t: Turn, c: Conn) {
    Arrives(s, t, c.addr) && Classify(t.event.buf).Reg2? && c == NewConn(c.addr, t.ts)
  }

  /** Statistics aside from what an evaluation or a weight change sets. */
  ghost predicate SameTraffic(c: Conn, c': Conn) {
    && c'.addr == c.addr && c'.connectionStart == c.connectionStart && c'.lastReceived == c.lastReceived
    && c'.recoveryStart == c.recoveryStart && c'.recvLog == c.recvLog
    && c'.stats.bytesReceived == c.stats.bytesReceived && c'.stats.packetsReceived == c.stats.packetsReceived
    && c'.stats.packetsLost == c.stats.packetsLost && c'.stats.extended == c.stats.extended
  }

  lemma TendedTraffic(g: Group, ts: int, nowMs: nat)
    ensures var r := Tended(g, ts, nowMs);
            |r.conns| == |g.conns| && forall k :: 0 <= k < |g.conns| ==> SameTraffic(g.conns[k], r.conns[k])
  {
    var e := Evaluated(g, ts, nowMs);
    assert |e.conns| == |g.conns| && forall k :: 0 <= k < |g.conns| ==> SameTraffic(g.conns[k], e.conns[k]);
  }

  /** Whatever else becomes of a connection, Became looks only at its traffic. */
  lemma BecameTraffic(s: State, t: Turn, c: Conn, d: Conn, d': Conn)
    requires Became(s, t, c, d) && SameTraffic(d, d')
    ensures Became(s, t, c, d')
  {
  }

  lemma SettledBecame(s: State, t: Turn, c: Conn)
    requires Reaps(s, t)
    ensures Became(s, t, c, Settled(c, t.ts))
  {
  }

  lemma EndBecame(s: State, t: Turn, i: nat, nowMs: nat, m: nat) returns (k: nat)
    requires t.EndTurn? && i < |s.groups| && m < |GroupAfter(s, t, i, nowMs).conns|
    ensures k < |s.groups[i].conns| && Became(s, t, s.groups[i].conns[k], GroupAfter(s, t, i, nowMs).conns[m])
    ensures Reaps(s, t) ==> s.groups[i].conns[k].lastReceived + 15 >= t.ts
  {
    var g := s.groups[i];
    var h := if Reaps(s, t) then Reaped(g, t.ts) else g;
    TendedTraffic(h, t.ts, nowMs);
    if Reaps(s, t) {
      k := ConnOrigin(g.conns, t.ts, m);
      SettledBecame(s, t, g.conns[k]);
    } else {
      k := m;
      assert Became(s, t, g.conns[k], g.conns[k]);
    }
    BecameTraffic(s, t, g.conns[k], h.conns[m], Tended(h, t.ts, nowMs).conns[m]);
  }

  lemma ControlHasNoNumber(buf: seq<Byte>)
    requires |buf| >= 4 && IsNak(buf)
    ensures SequenceNumber(buf) == -1
  {
  }

  /** What noting a NAK changes of the traffic. */
  lemma NakNotedTraffic(g: Group, k: nat, buf: seq<Byte>, ts: int, ms: Millis)
    requires k < |g.conns|
    ensures var r, c := NakNoted(g, k, buf, ts, ms), g.conns[k];
            && |r.conns| == |g.conns|
            && (forall j :: 0 <= j < |g.conns| && j != k ==> SameTraffic(g.conns[j], r.conns[j]))
            && SameTraffic(if IsNak(buf) then c.(stats := CountNak(c.stats)) else c, r.conns[k])
  {
  }

  lemma SrtTraffic(g: Group, k: nat, addr: Address, buf: seq<Byte>, ts: int, ms: Millis)
    requires k < |g.conns| && |buf| >= SRT_MIN_LEN
    ensures var r, c := SrtInGroup(g, k, addr, buf, ts, ms), g.conns[k];
            var sn, lost := SequenceNumber(buf), IsNak(buf) && !Suppressed(g, buf, ms.dedup);
            && |r.conns| == |g.conns|
            && (forall j :: 0 <= j < |g.conns| && j != k ==> SameTraffic(g.conns[j], r.conns[j]))
            && var d := c.(stats := CountPacket(c.stats, |buf|));
               var e := if lost then d.(stats := CountNak(d.stats)) else d;
               SameTraffic(if sn >= 0 then e.(recvLog := AckStream.Register(c.recvLog, sn)) else e, r.conns[k])
  {
    var g1 := Streaming(g, k, addr, |buf|);
    if Suppressed(g1, buf, ms.dedup) {
      ControlHasNoNumber(buf);
    } else {
      NakNotedTraffic(g1, k, buf, ts, ms);
    }
  }

  /** A connection keeps its traffic in a turn that brings no packet from it. */
  lemma SilentBecame(s: State, t: Turn, c: Conn)
    requires t.EventTurn? && !Hears(s, t, c.addr)
    ensures Became(s, t, c, c)
  {
  }

  lemma QuietBecame(s: State, t: Turn, i: nat, k: nat)
    requires IsFrom(s, t, i, k) && !Classify(t.event.buf).Srt?
    ensures var g := Quietly(s.groups[i], k, t.event.buf, t.ts, t.event.env.clock);
            |g.conns| == |s.groups[i].conns| && Became(s, t, s.groups[i].conns[k], g.conns[k])
  {
  }

  lemma SrtBecame(s: State, t: Turn, i: nat, k: nat)
    requires IsFrom(s, t, i, k) && Classify(t.event.buf).Srt?
    ensures var g := SrtInGroup(TouchedGroup(s.groups[i], k, t.ts), k, t.event.addr, t.event.buf, t.ts, t.event.env.ms);
            |g.conns| == |s.groups[i].conns| && Became(s, t, s.groups[i].conns[k], g.conns[k])
  {
    SrtTraffic(TouchedGroup(s.groups[i], k, t.ts), k, t.event.addr, t.event.buf, t.ts, t.event.env.ms);
  }

  /** A packet of connection k leaves the traffic of the others alone. */
  lemma OthersTraffic(g: Group, k: nat, addr: Address, buf: seq<Byte>, ts: int, env: Env, m: nat)
    requires k < |g.conns| && m < |g.conns| && m != k
    ensures var r := AfterPacket(g, k, addr, buf, ts, env);
            |r.conns| == |g.conns| && SameTraffic(g.conns[m], r.conns[m])
  {
    if Classify(buf).Srt? {
      SrtTraffic(TouchedGroup(g, k, ts), k, addr, buf, ts, env.ms);
    }
  }

  lemma PacketBecame(s: State, t: Turn, i: nat, k: nat, m: nat)
    requires IsFrom(s, t, i, k) && m < |s.groups[i].conns| && DistinctAddresses(s.groups[i].conns)
    ensures var g := AfterPacket(s.groups[i], k, t.event.addr, t.event.buf, t.ts, t.event.env);
            |g.conns| == |s.groups[i].conns| && Became(s, t, s.groups[i].conns[m], g.conns[m])
  {
    var g := s.groups[i];
    assert g.conns[k].addr == t.event.addr;
    if m != k {
      OthersTraffic(g, k, t.event.addr, t.event.buf, t.ts, t.event.env, m);
      SilentBecame(s, t, g.conns[m]);
      BecameTraffic(s, t, g.conns[m], g.conns[m],
                    AfterPacket(g, k, t.event.addr, t.event.buf, t.ts, t.event.env).conns[m]);
    } else if Classify(t.event.buf).Srt? {
      SrtBecame(s, t, i, k);
    } else {
      QuietBecame(s, t, i, k);
    }
  }

  /** Connections stay where they are when neither a packet nor a REG2 concerns
      their group, and a REG2 only appends. */
  lemma UnheardConns(s: State, t: Turn, i: nat, m: nat)
    requires t.EventTurn? && i < |s.groups| && m < |s.groups[i].conns| && !HeardIn(s, t, i)
    ensures var g := GroupAfter(s, t, i, 0); m < |g.conns| && g.conns[m] == s.groups[i].conns[m]
  {
  }

  lemma EventBecame(s: State, t: Turn, i: nat, m: nat)
    requires Owned(s.groups) && t.EventTurn? && i < |s.groups| && m < |s.groups[i].conns|
    ensures var g := GroupAfter(s, t, i, 0); m < |g.conns| && Became(s, t, s.groups[i].conns[m], g.conns[m])
  {
    var c := s.groups[i].conns[m];
    if HeardIn(s, t, i) {
      HeardConns(s, t, i);
      PacketBecame(s, t, i, Speaker(s, t), m);
    } else {
      FindByAddressExact(s.groups, c.addr, i, m);
      UnheardConns(s, t, i, m);
      SilentBecame(s, t, c);
    }
  }

  /** A live connection after a turn is what the turn made of one before, or new. */
  ghost predicate ConnFate(s: State, t: Turn, serial: nat, c': Conn) {
    || (exists c :: HasConn(s.groups, serial, c) && Became(s, t, c, c'))
    || (IsNew(s, t, c') && !Member(s.groups, serial, c'.addr))
  }

  /** With unique owners a member's address leads to it. */
  lemma MemberFound(gs: seq<Group>, serial: nat, c: Conn) returns (i: nat, k: nat)
    requires Owned(gs) && HasConn(gs, serial, c)
    ensures i < |gs| && gs[i].serial == serial && k < |gs[i].conns| && gs[i].conns[k] == c
    ensures FindByAddress(gs, c.addr) == Somebody(i, k)
  {
    i :| 0 <= i < |gs| && gs[i].serial == serial && InGroup(gs[i], c);
    k :| 0 <= k < |gs[i].conns| && gs[i].conns[k] == c;
    FindByAddressExact(gs, c.addr, i, k);
  }

  /** Only an accepted REG2 from a new address lets a group grow. */
  lemma OnlyJoinsGrow(s: State, t: Turn, i: nat)
    requires Owned(s.groups) && t.EventTurn? && i < |s.groups|
    ensures |GroupAfter(s, t, i, 0).conns| > |s.groups[i].conns| ==>
              Joins(s, t, i) && ConnIndex(s.groups[i].conns, t.event.addr) < 0
  {
    if HeardIn(s, t, i) {
      HeardConns(s, t, i);
      PacketBecame(s, t, i, Speaker(s, t), Speaker(s, t));
    }
  }

  lemma NewMember(s: State, t: Turn, i: nat, m: nat)
    requires Owned(s.groups) && t.EventTurn? && i < |s.groups|
    requires |s.groups[i].conns| <= m < |GroupAfter(s, t, i, 0).conns|
    ensures ConnFate(s, t, s.groups[i].serial, GroupAfter(s, t, i, 0).conns[m])
  {
    var g, a := s.groups[i], t.event.addr;
    OnlyJoinsGrow(s, t, i);
    assert GroupAfter(s, t, i, 0).conns[m] == NewConn(a, t.ts);
    if c :| HasConn(s.groups, g.serial, c) && c.addr == a {
      var j, k := MemberFound(s.groups, g.serial, c);
      assert false;
    }
  }

  lemma ConnOfGroup(s: State, t: Turn, i: nat, nowMs: nat, m: nat)
    requires Owned(s.groups) && i < |s.groups| && m < |GroupAfter(s, t, i, nowMs).conns|
    ensures ConnFate(s, t, s.groups[i].serial, GroupAfter(s, t, i, nowMs).conns[m])
  {
    var g := s.groups[i];
    if t.EndTurn? {
      var k := EndBecame(s, t, i, nowMs, m);
      assert InGroup(g, g.conns[k]);
    } else if m < |g.conns| {
      EventBecame(s, t, i, m);
      assert InGroup(g, g.conns[m]);
    } else {
      NewMember(s, t, i, m);
    }
  }

  lemma ConnTurn(s: State, t: Turn, serial: nat, c': Conn)
    requires Owned(s.groups) && HasConn(Turned(s, t).groups, serial, c')
    ensures ConnFate(s, t, serial, c')
  {
    var gs' := Turned(s, t).groups;
    var j :| 0 <= j < |gs'| && gs'[j].serial == serial && InGroup(gs'[j], c');
    var m :| 0 <= m < |gs'[j].conns| && gs'[j].conns[m] == c';
    var o := OriginOf(s, t, j);
    assert o.From?;
    GroupTurn(s, t, o.group, o.nowMs);
    ConnOfGroup(s, t, o.group, o.nowMs, m);
  }
}
