/** What every step of the receiver keeps. */
module ReceiverInvariants {
  import opened Bytes
  import opened Net
  import opened Seqs
  import opened Sums
  import opened ReceiverTypes
  import opened Registry
  import opened Quality
  import opened Receiver
  import AckStream
  import NakDedup

  // ---- groups ------------------------------------------------------------------------

  /** In particular, a connection in grace was never evaluated. */
  ghost predicate ConnOk(c: Conn, clock: int) {
    && 0 <= c.recoveryStart <= c.lastReceived <= clock && AckStream.Valid(c.recvLog)
    && (InGrace(c, clock) ==> c.stats.lastEvalTime == 0)
  }

  ghost predicate ConnsOk(conns: seq<Conn>, clock: int) {
    forall k :: 0 <= k < |conns| ==> ConnOk(conns[k], clock)
  }

  /** Established implies an open SRT socket implies data seen. */
  ghost predicate Staged(g: Group) {
    (g.established ==> g.socketOpen) && (g.socketOpen ==> g.dataSeen)
  }

  ghost predicate GroupOk(g: Group, clock: int) {
    && |g.conns| <= MAX_CONNS_PER_GROUP
    && |g.id| == ID_LEN
    && Staged(g)
    && ConnsOk(g.conns, clock)
    && InStep(g)
  }

  /** g' is g with other statistics and logs: same identity, same connections. */
  ghost predicate SameMembers(g: Group, g': Group) {
    && g'.serial == g.serial && g'.id == g.id && g'.createdAt == g.createdAt
    && |g'.conns| == |g.conns|
    && forall k :: 0 <= k < |g.conns| ==>
         g'.conns[k].addr == g.conns[k].addr && g'.conns[k].recoveryStart == g.conns[k].recoveryStart
  }

  ghost predicate SameFlags(g: Group, g': Group) {
    g'.dataSeen == g.dataSeen && g'.established == g.established && g'.socketOpen == g.socketOpen
    && g'.lastAddress == g.lastAddress
  }

  lemma SetConnOk(g: Group, k: nat, c: Conn, clock: int)
    requires GroupOk(g, clock) && k < |g.conns| && ConnOk(c, clock)
    requires StatsInv(c.stats)
    requires c.stats.weightPercent == g.conns[k].stats.weightPercent
    requires c.stats.errorPoints == g.conns[k].stats.errorPoints
    ensures GroupOk(SetConn(g, k, c), clock)
  {
    var r := SetConn(g, k, c);
    assert WeightsAgree(g.conns) ==> WeightsAgree(r.conns);
    assert AllStatsInv(r.conns);
  }

  lemma TelemetryOk(g: Group, k: nat, info: OptionalInfo, now: int, clock: int)
    requires GroupOk(g, clock) && k < |g.conns|
    ensures var r := TelemetryInGroup(g, k, info, now);
            GroupOk(r, clock) && SameMembers(g, r) && SameFlags(g, r)
  {
    if info.SomeInfo? {
      var c := g.conns[k];
      assert StatsInv(c.stats);
      SetConnOk(g, k, c.(stats := WithTelemetry(c.stats, info.info, now)), clock);
    }
  }

  lemma StreamingOk(g: Group, k: nat, addr: Address, bytes: nat, clock: int)
    requires GroupOk(g, clock) && k < |g.conns|
    ensures var r := Streaming(g, k, addr, bytes);
            && GroupOk(r, clock) && SameMembers(g, r)
            && r.dataSeen && r.lastAddress == addr && r.established == g.established && r.socketOpen == g.socketOpen
  {
    var c := g.conns[k];
    assert StatsInv(c.stats);
    SetConnOk(g, k, c.(stats := CountPacket(c.stats, bytes)), clock);
  }

  lemma EvaluatedOk(g: Group, ts: int, nowMs: nat, clock: int)
    requires GroupOk(g, clock) && ts <= clock
    ensures var r := Evaluated(g, ts, nowMs);
            GroupOk(r, clock) && SameMembers(g, r) && SameFlags(g, r)
  {
    EvaluatedInStep(g, ts, nowMs);
  }

  lemma NakNotedOk(g: Group, k: nat, buf: seq<Byte>, ts: int, ms: Millis, clock: int)
    requires GroupOk(g, clock) && k < |g.conns| && ts <= clock
    ensures var r := NakNoted(g, k, buf, ts, ms);
            GroupOk(r, clock) && SameMembers(g, r) && SameFlags(g, r)
  {
    if IsNak(buf) {
      var c := g.conns[k];
      assert StatsInv(c.stats);
      var g0 := SetConn(g, k, c.(stats := CountNak(c.stats)));
      SetConnOk(g, k, c.(stats := CountNak(c.stats)), clock);
      var g1 := g0.(nakCache := NakDedup.AfterCall(g.nakCache, HashOf(buf), ms.dedup));
      assert GroupOk(g1, clock) && SameMembers(g, g1) && SameFlags(g, g1);
      EvaluatedOk(g1, ts, ms.eval, clock);
    }
  }

  lemma LoggedOk(g: Group, k: nat, sn: int, clock: int)
    requires GroupOk(g, clock) && k < |g.conns| && sn < MAX_SN
    ensures var r := Logged(g, k, sn);
            GroupOk(r, clock) && SameMembers(g, r) && SameFlags(g, r)
  {
    if sn >= 0 {
      var c := g.conns[k];
      assert StatsInv(c.stats);
      SetConnOk(g, k, c.(recvLog := AckStream.Register(c.recvLog, sn)), clock);
    }
  }

  lemma SrtInGroupOk(g: Group, k: nat, addr: Address, buf: seq<Byte>, ts: int, ms: Millis, clock: int)
    requires GroupOk(g, clock) && k < |g.conns| && |buf| >= SRT_MIN_LEN && ts <= clock
    ensures var r := SrtInGroup(g, k, addr, buf, ts, ms);
            && GroupOk(r, clock) && SameMembers(g, r)
            && r.dataSeen && r.lastAddress == addr && r.established == g.established && r.socketOpen == g.socketOpen
  {
    StreamingOk(g, k, addr, |buf|, clock);
    var g1 := Streaming(g, k, addr, |buf|);
    if !Suppressed(g1, buf, ms.dedup) {
      NakNotedOk(g1, k, buf, ts, ms, clock);
      LoggedOk(NakNoted(g1, k, buf, ts, ms), k, SequenceNumber(buf), clock);
    }
  }

  lemma TouchedOk(g: Group, k: nat, ts: int)
    requires GroupOk(g, ts) && k < |g.conns|
    ensures var r := TouchedGroup(g, k, ts);
            && GroupOk(r, ts) && SameFlags(g, r)
            && r.serial == g.serial && r.id == g.id && r.createdAt == g.createdAt
            && (forall j :: 0 <= j < |g.conns| ==> r.conns[j].addr == g.conns[j].addr)
            && Recovering(r) == Recovering(g) + One(StartsRecovery(g.conns[k], ts))
  {
    var c := g.conns[k];
    assert StatsInv(c.stats);
    SetConnOk(g, k, Touched(c, ts), ts);
    SumUpdate(g.conns, k, Touched(c, ts), InRecovery);
  }

  lemma SameMembersRecovering(g: Group, g': Group)
    requires SameMembers(g, g')
    ensures Recovering(g') == Recovering(g)
  {
    SumSame(g.conns, g'.conns, InRecovery);
  }

  lemma BalancedOk(g: Group, ts: int, clock: int)
    requires GroupOk(g, clock) && InStep(Balanced(g, ts))
    ensures GroupOk(Balanced(g, ts), clock) && SameMembers(g, Balanced(g, ts)) && SameFlags(g, Balanced(g, ts))
  {
  }

  lemma TendedOk(g: Group, ts: int, nowMs: nat, clock: int)
    requires GroupOk(g, clock) && ts <= clock
    ensures var r := Tended(g, ts, nowMs);
            GroupOk(r, clock) && SameMembers(g, r) && SameFlags(g, r) && WeightsAgree(r.conns)
  {
    EvaluatedOk(g, ts, nowMs, clock);
    TendedAgrees(g, ts, nowMs);
    BalancedOk(Evaluated(g, ts, nowMs), ts, clock);
  }

  // ---- the table -----------------------------------------------------------------------

  ghost predicate AllGroupsOk(gs: seq<Group>, clock: int) {
    forall i :: 0 <= i < |gs| ==> GroupOk(gs[i], clock)
  }

  /** Serials tell groups apart, and none is used twice. */
  ghost predicate SerialsOk(gs: seq<Group>, next: nat) {
    && (forall i :: 0 <= i < |gs| ==> gs[i].serial < next)
    && (forall i, j :: 0 <= i < j < |gs| ==> gs[i].serial != gs[j].serial)
  }

  /** Every registered group is live or counted under the way it went. */
  ghost predicate GroupsConserved(s: State) {
    var c := s.counters;
    c.registered == |s.groups| + c.idle + c.auth + c.srtError + c.evicted
  }

  /** Every recovery started is completed, failed, going on or discarded. */
  ghost predicate RecoveriesConserved(s: State) {
    var c := s.counters;
    c.started == c.completed + c.failed + Sum(s.groups, Recovering) + c.discarded
  }

  ghost predicate Inv(s: State, clock: int) {
    && clock >= 0
    && |s.groups| <= MAX_GROUPS
    && AllGroupsOk(s.groups, clock)
    && Owned(s.groups)
    && SerialsOk(s.groups, s.counters.registered)
    && GroupsConserved(s)
    && RecoveriesConserved(s)
  }

  lemma InitialInv()
    ensures Inv(INITIAL, 0)
  {
  }

  lemma InvLater(s: State, clock: int, later: int)
    requires Inv(s, clock) && clock <= later
    ensures Inv(s, later)
  {
    forall i | 0 <= i < |s.groups| ensures GroupOk(s.groups[i], later) {
      var g := s.groups[i];
      forall k | 0 <= k < |g.conns| ensures ConnOk(g.conns[k], later) {
        assert ConnOk(g.conns[k], clock);
      }
    }
  }

  // ---- shapes of change -----------------------------------------------------------------

  /** Group i becomes g', which may claim `a` in addition. */
  lemma UpdateOwned(gs: seq<Group>, i: nat, g': Group, a: Address)
    requires Owned(gs) && i < |gs| && DistinctAddresses(g'.conns)
    requires forall b :: Claims(g', b) ==> Claims(gs[i], b) || b == a
    requires forall j :: 0 <= j < |gs| && j != i ==> !Claims(gs[j], a)
    ensures Owned(gs[i := g'])
  {
    var gs' := gs[i := g'];
    forall j, l, b | 0 <= j < |gs'| && 0 <= l < |gs'| && Claims(gs'[j], b) && Claims(gs'[l], b) ensures j == l {
    }
  }

  lemma RemoveOwned(gs: seq<Group>, i: nat)
    requires Owned(gs) && i < |gs|
    ensures Owned(RemoveAt(gs, i))
  {
    var gs' := RemoveAt(gs, i);
    forall j, l, b | 0 <= j < |gs'| && 0 <= l < |gs'| && Claims(gs'[j], b) && Claims(gs'[l], b) ensures j == l {
      var j', l' := if j < i then j else j + 1, if l < i then l else l + 1;
      assert gs'[j] == gs[j'] && gs'[l] == gs[l'];
    }
    forall j | 0 <= j < |gs'| ensures DistinctAddresses(gs'[j].conns) {
      assert gs'[j] == gs[if j < i then j else j + 1];
    }
  }

  lemma AppendOwned(gs: seq<Group>, g: Group)
    requires Owned(gs) && DistinctAddresses(g.conns)
    requires forall j, b :: 0 <= j < |gs| && Claims(g, b) ==> !Claims(gs[j], b)
    ensures Owned(gs + [g])
  {
    var gs' := gs + [g];
    forall j, l, b | 0 <= j < |gs'| && 0 <= l < |gs'| && Claims(gs'[j], b) && Claims(gs'[l], b) ensures j == l {
    }
  }

  /** Group i is replaced by a group with the same identity. */
  lemma UpdateInv(s: State, clock: int, i: nat, g': Group, a: Address, c': Counters)
    requires Inv(s, clock) && i < |s.groups|
    requires GroupOk(g', clock) && g'.serial == s.groups[i].serial
    requires DistinctAddresses(g'.conns)
    requires forall b :: Claims(g', b) ==> Claims(s.groups[i], b) || b == a
    requires forall j :: 0 <= j < |s.groups| && j != i ==> !Claims(s.groups[j], a)
    requires c' == s.counters.(started := c'.started)
    requires c'.started + Recovering(s.groups[i]) == s.counters.started + Recovering(g')
    ensures Inv(s.(groups := s.groups[i := g'], counters := c'), clock)
  {
    UpdateOwned(s.groups, i, g', a);
    SumUpdate(s.groups, i, g', Recovering);
  }

  lemma RemoveSerials(gs: seq<Group>, i: nat, next: nat)
    requires SerialsOk(gs, next) && i < |gs|
    ensures SerialsOk(RemoveAt(gs, i), next)
  {
    var gs' := RemoveAt(gs, i);
    forall j | 0 <= j < |gs'| ensures gs'[j] == gs[if j < i then j else j + 1] {
    }
  }

  lemma RemoveGroupsOk(gs: seq<Group>, i: nat, clock: int)
    requires AllGroupsOk(gs, clock) && i < |gs|
    ensures AllGroupsOk(RemoveAt(gs, i), clock)
  {
    var gs' := RemoveAt(gs, i);
    forall j | 0 <= j < |gs'| ensures gs'[j] == gs[if j < i then j else j + 1] {
    }
  }

  lemma TornDownInv(s: State, clock: int, i: nat, reason: Reason)
    requires Inv(s, clock) && i < |s.groups|
    ensures Inv(TornDown(s, i, reason), clock)
  {
    RemoveOwned(s.groups, i);
    RemoveSerials(s.groups, i, s.counters.registered);
    RemoveGroupsOk(s.groups, i, clock);
    SumRemove(s.groups, i, Recovering);
  }

  // ---- registration -----------------------------------------------------------------------

  lemma MadeRoomInv(s: State, clock: int)
    requires Inv(s, clock)
    ensures Inv(MadeRoom(s), clock)
    ensures |s.groups| < MAX_GROUPS || OldestGhost(s.groups, |s.groups|) >= 0 ==> |MadeRoom(s).groups| < MAX_GROUPS
    ensures MadeRoom(s).limiter == s.limiter && MadeRoom(s).counters.registered == s.counters.registered
  {
    var v := OldestGhost(s.groups, |s.groups|);
    if |s.groups| >= MAX_GROUPS && v >= 0 {
      RemoveOwned(s.groups, v);
      RemoveSerials(s.groups, v, s.counters.registered);
      RemoveGroupsOk(s.groups, v, clock);
      SumRemove(s.groups, v, Recovering);
      assert Recovering(s.groups[v]) == 0;
    }
  }

  lemma NewGroupOk(serial: nat, id: Id, addr: Address, now: int, clock: int)
    requires |id| == ID_LEN
    ensures var g := NewGroup(serial, id, addr, now);
            && GroupOk(g, clock) && DistinctAddresses(g.conns) && Recovering(g) == 0
            && forall b :: Claims(g, b) <==> b == addr
  {
  }

  lemma AppendInv(s: State, clock: int, g: Group)
    requires Inv(s, clock) && |s.groups| < MAX_GROUPS
    requires GroupOk(g, clock) && g.serial == s.counters.registered
    requires DistinctAddresses(g.conns) && Recovering(g) == 0
    requires forall j, b :: 0 <= j < |s.groups| && Claims(g, b) ==> !Claims(s.groups[j], b)
    ensures Inv(s.(groups := s.groups + [g], counters := s.counters.(registered := s.counters.registered + 1)), clock)
  {
    AppendOwned(s.groups, g);
    SumAppend(s.groups, g, Recovering);
  }

  lemma AdmitInv(s: State, addr: Address, id: Id, ts: int)
    requires Inv(s, ts) && |s.groups| < MAX_GROUPS && |id| == ID_LEN
    requires FindByAddress(s.groups, addr) == Nobody
    ensures Inv(Admitted(s, addr, id, ts), ts)
  {
    var g := NewGroup(s.counters.registered, id, addr, ts);
    NewGroupOk(s.counters.registered, id, addr, ts, ts);
    NobodyIffUnclaimed(s.groups, addr);
    AppendInv(s, ts, g);
  }

  /** The three ways a REG1 can leave the table. */
  lemma RegisterGroupCases(s: State, addr: Address, half: Id, ts: int, env: Env)
    ensures var r := RegisterGroup(s, addr, half, ts, env).state;
            || r == s
            || r == MadeRoom(s)
            || (&& r == Admitted(MadeRoom(s), addr, half + env.random, ts)
                && FindByAddress(MadeRoom(s).groups, addr) == Nobody
                && (|s.groups| < MAX_GROUPS || OldestGhost(s.groups, |s.groups|) >= 0))
  {
  }

  lemma RegisterGroupInv(s: State, addr: Address, half: Id, ts: int, env: Env)
    requires Inv(s, ts) && |half| == ID_LEN / 2 && |env.random| == ID_LEN / 2
    ensures Inv(RegisterGroup(s, addr, half, ts, env).state, ts)
  {
    RegisterGroupCases(s, addr, half, ts, env);
    MadeRoomInv(s, ts);
    var r, s1 := RegisterGroup(s, addr, half, ts, env).state, MadeRoom(s);
    if r != s && r != s1 {
      AdmitInv(s1, addr, half + env.random, ts);
    }
  }

  lemma JoinedClaims(g: Group, addr: Address, known: bool, ts: int)
    requires DistinctAddresses(g.conns)
    requires known <==> ConnIndex(g.conns, addr) >= 0
    ensures var r := Joined(g, addr, known, ts);
            && DistinctAddresses(r.conns)
            && forall b :: Claims(r, b) ==> Claims(g, b) || b == addr
  {
    var r := Joined(g, addr, known, ts);
    forall b | Claims(r, b) && b != addr ensures Claims(g, b) {
      var k :| 0 <= k < |r.conns| && r.conns[k].addr == b;
      assert g.conns[k].addr == b;
    }
  }

  lemma JoinedOk(g: Group, addr: Address, known: bool, ts: int)
    requires GroupOk(g, ts) && ts >= 0
    requires known || |g.conns| < MAX_CONNS_PER_GROUP
    ensures var r := Joined(g, addr, known, ts);
            GroupOk(r, ts) && Recovering(r) == Recovering(g)
  {
    if !known {
      SumAppend(g.conns, NewConn(addr, ts), InRecovery);
    }
  }

  /** The address belongs to nobody or to this group only. */
  lemma NoOtherClaims(gs: seq<Group>, addr: Address, i: nat)
    requires Owned(gs) && i < |gs|
    requires var r := FindByAddress(gs, addr); r.Nobody? || r.group == i
    ensures forall j :: 0 <= j < |gs| && j != i ==> !Claims(gs[j], addr)
  {
    var r := FindByAddress(gs, addr);
    NobodyIffUnclaimed(gs, addr);
    if r.Somebody? {
      FoundIffClaims(gs[i], addr);
    }
  }

  lemma RegisterConnectionInv(s: State, addr: Address, id: Id, ts: int, env: Env)
    requires Inv(s, ts)
    ensures Inv(RegisterConnection(s, addr, id, ts, env).state, ts)
  {
    var i := FindById(s.groups, id);
    var r := FindByAddress(s.groups, addr);
    if i >= 0 && (r.Nobody? || r.group == i) {
      var g := s.groups[i];
      var known := r.Somebody? && r.conn >= 0;
      NoOtherClaims(s.groups, addr, i);
      assert known <==> ConnIndex(g.conns, addr) >= 0;
      if known || |g.conns| < MAX_CONNS_PER_GROUP {
        JoinedOk(g, addr, known, ts);
        JoinedClaims(g, addr, known, ts);
        UpdateInv(s, ts, i, Joined(g, addr, known, ts), addr, s.counters);
      }
    }
  }

  // ---- traffic ------------------------------------------------------------------------------

  /** Same connection addresses, and the last address is an old claim. */
  lemma SameClaims(g: Group, g': Group)
    requires |g'.conns| == |g.conns| && forall k :: 0 <= k < |g.conns| ==> g'.conns[k].addr == g.conns[k].addr
    requires Claims(g, g'.lastAddress)
    ensures forall b :: Claims(g', b) ==> Claims(g, b)
    ensures DistinctAddresses(g.conns) ==> DistinctAddresses(g'.conns)
  {
    forall b | Claims(g', b) ensures Claims(g, b) {
      if b != g'.lastAddress {
        var k :| 0 <= k < |g'.conns| && g'.conns[k].addr == b;
        assert g.conns[k].addr == b;
      }
    }
  }

  /** A packet that connection k of group i accounts for. */
  lemma TrafficUpdateInv(s: State, i: nat, k: nat, g': Group, ts: int)
    requires Inv(s, ts) && i < |s.groups| && k < |s.groups[i].conns|
    requires GroupOk(g', ts) && SameMembers(TouchedGroup(s.groups[i], k, ts), g')
    requires g'.lastAddress == s.groups[i].lastAddress || g'.lastAddress == s.groups[i].conns[k].addr
    ensures Inv(s.(groups := s.groups[i := g'], counters := RecoveryCounted(s, i, k, ts)), ts)
  {
    var g, c := s.groups[i], RecoveryCounted(s, i, k, ts);
    TouchedOk(g, k, ts);
    SameMembersRecovering(TouchedGroup(g, k, ts), g');
    SameClaims(g, g');
    UpdateInv(s, ts, i, g', g.lastAddress, c);
  }

  lemma ForwardedInv(s: State, i: nat, env: Env, ts: int)
    requires Inv(s, ts) && i < |s.groups| && s.groups[i].dataSeen
    ensures Inv(Forwarded(s, i, env), ts)
  {
    var g := s.groups[i];
    var g' := g.(socketOpen := true);
    SameClaims(g, g');
    assert GroupOk(g', ts);
    UpdateInv(s, ts, i, g', g.lastAddress, s.counters);
    var s1 := s.(groups := s.groups[i := g']);
    TornDownInv(s, ts, i, SrtError);
    TornDownInv(s1, ts, i, SrtError);
  }

  lemma QuietInv(s: State, i: nat, k: nat, buf: seq<Byte>, ts: int, clock: int)
    requires Inv(s, ts) && i < |s.groups| && k < |s.groups[i].conns|
    ensures Inv(QuietState(s, i, k, buf, ts, clock), ts)
  {
    var g := s.groups[i];
    var t := TouchedGroup(g, k, ts);
    TouchedOk(g, k, ts);
    assert SameMembers(t, t);
    if Classify(buf).Keepalive? {
      TelemetryOk(t, k, Classify(buf).info, clock, ts);
    }
    TrafficUpdateInv(s, i, k, Quietly(g, k, buf, ts, clock), ts);
  }

  lemma SrtInv(s: State, i: nat, k: nat, buf: seq<Byte>, ts: int, ms: Millis)
    requires Inv(s, ts) && i < |s.groups| && k < |s.groups[i].conns| && |buf| >= SRT_MIN_LEN
    ensures var s1 := SrtState(s, i, k, s.groups[i].conns[k].addr, buf, ts, ms);
            Inv(s1, ts) && s1.groups[i].dataSeen
  {
    var g := s.groups[i];
    var t := TouchedGroup(g, k, ts);
    TouchedOk(g, k, ts);
    SrtInGroupOk(t, k, g.conns[k].addr, buf, ts, ms, ts);
    TrafficUpdateInv(s, i, k, SrtInGroup(t, k, g.conns[k].addr, buf, ts, ms), ts);
  }

  lemma HandleTrafficInv(s: State, addr: Address, buf: seq<Byte>, ts: int, env: Env)
    requires Inv(s, ts)
    ensures Inv(HandleTraffic(s, addr, buf, ts, env).state, ts)
  {
    var r := FindByAddress(s.groups, addr);
    if r.Somebody? && r.conn >= 0 {
      if Classify(buf).Srt? {
        SrtInv(s, r.group, r.conn, buf, ts, env.ms);
        ForwardedInv(SrtState(s, r.group, r.conn, addr, buf, ts, env.ms), r.group, env, ts);
      } else {
        QuietInv(s, r.group, r.conn, buf, ts, env.clock);
      }
    }
  }

  // ---- the SRT side -----------------------------------------------------------------------------

  lemma HandleServerInv(s: State, raw: nat, buf: seq<Byte>, env: Env, ts: int)
    requires Inv(s, ts) && raw < |s.groups|
    ensures Inv(HandleServer(s, raw, buf, env).state, ts)
  {
    var i := FindById(s.groups, s.groups[raw].id);
    if i >= 0 {
      var g := s.groups[i];
      TornDownInv(s, ts, i, SrtError);
      TornDownInv(s, ts, i, AuthFailure);
      if g.socketOpen {
        var g1 := if IsAck(buf) then g.(established := true) else g;
        SameClaims(g, g1);
        UpdateInv(s, ts, i, g1, g.lastAddress, s.counters);
      }
    }
  }

  lemma StepInv(s: State, e: Event, ts: int)
    requires Inv(s, ts) && Possible(s, e)
    ensures Inv(Step(s, e, ts).state, ts)
  {
    match e
    case Datagram(addr, buf, env) =>
      match Classify(buf) {
        case Reg1(half) => RegisterGroupInv(s, addr, half, ts, env);
        case Reg2(id) => RegisterConnectionInv(s, addr, id, ts, env);
        case _ => HandleTrafficInv(s, addr, buf, ts, env);
      }
    case FromServer(raw, buf, env) => HandleServerInv(s, raw, buf, env, ts);
  }

  // ---- the reaper ---------------------------------------------------------------------------------

  /** Where a surviving connection was before. */
  lemma {:induction false} ConnOrigin(conns: seq<Conn>, now: int, j: nat) returns (k: nat)
    requires j < |ReapConns(conns, now)|
    ensures k < |conns| && ReapConns(conns, now)[j] == Settled(conns[k], now) && !TimedOut(conns[k], now)
    decreases |conns|
  {
    var n := |conns| - 1;
    if j < |ReapConns(conns[..n], now)| {
      k := ConnOrigin(conns[..n], now, j);
    } else {
      k := n;
    }
  }

  lemma {:induction false} ReapConnsDistinct(conns: seq<Conn>, now: int)
    requires DistinctAddresses(conns)
    ensures DistinctAddresses(ReapConns(conns, now)) && |ReapConns(conns, now)| <= |conns|
    decreases |conns|
  {
    if conns != [] {
      var n := |conns| - 1;
      ReapConnsDistinct(conns[..n], now);
      var rest := ReapConns(conns[..n], now);
      forall j | 0 <= j < |rest| ensures rest[j].addr != conns[n].addr {
        var k := ConnOrigin(conns[..n], now, j);
      }
    }
  }

  lemma {:induction false} ReapConnsLength(conns: seq<Conn>, now: int)
    ensures |ReapConns(conns, now)| <= |conns|
    decreases |conns|
  {
    if conns != [] {
      ReapConnsLength(conns[..|conns| - 1], now);
    }
  }

  lemma ReapedConnOk(c: Conn, now: int, clock: int)
    requires ConnOk(c, clock)
    ensures ConnOk(Settled(c, now), clock)
  {
  }

  lemma ReapedOk(g: Group, now: int, clock: int)
    requires GroupOk(g, clock)
    ensures GroupOk(Reaped(g, now), clock)
  {
    var r := Reaped(g, now);
    ReapConnsLength(g.conns, now);
    forall j | 0 <= j < |r.conns|
      ensures ConnOk(r.conns[j], clock) && StatsInv(r.conns[j].stats)
      ensures WeightsAgree(g.conns) ==> r.conns[j].stats.weightPercent == Weight(r.conns[j].stats.errorPoints)
    {
      var k := ConnOrigin(g.conns, now, j);
      ReapedConnOk(g.conns[k], now, clock);
    }
  }

  lemma ReapedClaims(g: Group, now: int)
    requires DistinctAddresses(g.conns)
    ensures DistinctAddresses(Reaped(g, now).conns)
    ensures forall b :: Claims(Reaped(g, now), b) ==> Claims(g, b)
  {
    var r := Reaped(g, now);
    ReapConnsDistinct(g.conns, now);
    forall b | Claims(r, b) && b != r.lastAddress ensures Claims(g, b) {
      var j :| 0 <= j < |r.conns| && r.conns[j].addr == b;
      var k := ConnOrigin(g.conns, now, j);
      assert g.conns[k].addr == b;
    }
  }

  /** Where a surviving group was before. */
  lemma {:induction false} GroupOrigin(gs: seq<Group>, now: int, j: nat) returns (i: nat)
    requires j < |ReapGroups(gs, now)|
    ensures i < |gs| && ReapGroups(gs, now)[j] == Reaped(gs[i], now) && !Expires(gs[i], now)
    decreases |gs|
  {
    var n := |gs| - 1;
    if j < |ReapGroups(gs[..n], now)| {
      i := GroupOrigin(gs[..n], now, j);
    } else {
      i := n;
    }
  }

  /** What the last group keeps is not claimed by the survivors before it. */
  lemma LastUnclaimed(gs: seq<Group>, now: int, rest: seq<Group>, g: Group)
    requires Owned(gs) && gs != []
    requires rest == ReapGroups(gs[..|gs| - 1], now) && g == Reaped(gs[|gs| - 1], now)
    ensures forall j, b :: 0 <= j < |rest| && Claims(g, b) ==> !Claims(rest[j], b)
  {
    var n := |gs| - 1;
    ReapedClaims(gs[n], now);
    forall j, b | 0 <= j < |rest| && Claims(g, b) ensures !Claims(rest[j], b) {
      var i := GroupOrigin(gs[..n], now, j);
      ReapedClaims(gs[i], now);
      assert Claims(gs[n], b);
    }
  }

  lemma {:induction false} ReapGroupsOwned(gs: seq<Group>, now: int)
    requires Owned(gs)
    ensures Owned(ReapGroups(gs, now))
    decreases |gs|
  {
    if gs != [] {
      var n := |gs| - 1;
      var rest, g := ReapGroups(gs[..n], now), Reaped(gs[n], now);
      assert Owned(gs[..n]);
      ReapGroupsOwned(gs[..n], now);
      if Expires(gs[n], now) {
        AppendNothing(rest);
      } else {
        ReapedClaims(gs[n], now);
        LastUnclaimed(gs, now, rest, g);
        AppendOwned(rest, g);
      }
    }
  }

  lemma {:induction false} ReapGroupsSerials(gs: seq<Group>, now: int, next: nat)
    requires SerialsOk(gs, next)
    ensures SerialsOk(ReapGroups(gs, now), next)
    decreases |gs|
  {
    if gs != [] {
      var n := |gs| - 1;
      var rest := ReapGroups(gs[..n], now);
      ReapGroupsSerials(gs[..n], now, next);
      forall j | 0 <= j < |rest| ensures rest[j].serial != gs[n].serial {
        var i := GroupOrigin(gs[..n], now, j);
      }
    }
  }

  /** A connection that the reaper erases is never still in recovery. */
  lemma ErasedNotRecovering(c: Conn, now: int)
    requires SaneRecovery(c) && TimedOut(c, now)
    ensures Settled(c, now).recoveryStart <= 0
  {
  }

  /** After a pass no recovery is older than RECOVERY_CHANCE_PERIOD. */
  lemma SettledIsYoung(c: Conn, now: int)
    ensures Settled(c, now).recoveryStart > 0 ==> now - Settled(c, now).recoveryStart <= RECOVERY_CHANCE_PERIOD
  {
  }

  lemma SettleOne(c: Conn, now: int)
    requires SaneRecovery(c)
    ensures InRecovery(c) == One(Completes(c, now)) + One(Fails(c, now))
                             + if TimedOut(c, now) then 0 else InRecovery(Settled(c, now))
  {
    if TimedOut(c, now) {
      ErasedNotRecovering(c, now);
    }
  }

  lemma {:induction false} ReapConnsRecovering(conns: seq<Conn>, now: int)
    requires SaneConns(conns)
    ensures var t := TallyConns(conns, now);
            && t.groupsRemoved == 0
            && Sum(conns, InRecovery) == t.completed + t.failed + Sum(ReapConns(conns, now), InRecovery)
    decreases |conns|
  {
    if conns != [] {
      var n := |conns| - 1;
      var c, rest := conns[n], ReapConns(conns[..n], now);
      SplitLast(conns);
      ReapConnsRecovering(conns[..n], now);
      ReapSnoc(conns[..n], c, now);
      SettleOne(c, now);
      AppendNothing(rest);
      SumAppend(rest, Settled(c, now), InRecovery);
    }
  }

  lemma {:induction false} ReapGroupsCounts(gs: seq<Group>, now: int)
    requires SaneGroups(gs)
    ensures var t := TallyGroups(gs, now);
            && |gs| == t.groupsRemoved + |ReapGroups(gs, now)|
            && Sum(gs, Recovering) == t.completed + t.failed + Sum(ReapGroups(gs, now), Recovering)
    decreases |gs|
  {
    if gs != [] {
      var n := |gs| - 1;
      var rest, g := ReapGroups(gs[..n], now), Reaped(gs[n], now);
      SplitLast(gs);
      ReapGroupsCounts(gs[..n], now);
      ReapGroupSnoc(gs[..n], gs[n], now);
      ReapConnsRecovering(gs[n].conns, now);
      AppendNothing(rest);
      SumAppend(rest, g, Recovering);
    }
  }

  lemma GroupsSane(gs: seq<Group>, clock: int)
    requires AllGroupsOk(gs, clock)
    ensures SaneGroups(gs)
  {
    forall i | 0 <= i < |gs| ensures SaneConns(gs[i].conns) {
      forall k | 0 <= k < |gs[i].conns| ensures SaneRecovery(gs[i].conns[k]) {
        assert ConnOk(gs[i].conns[k], clock);
      }
    }
  }

  lemma CleanedUpInv(s: State, ts: int)
    requires Inv(s, ts)
    ensures Inv(CleanedUp(s, ts), ts)
  {
    var gs := ReapGroups(s.groups, ts);
    GroupsSane(s.groups, ts);
    ReapGroupsOwned(s.groups, ts);
    ReapGroupsSerials(s.groups, ts, s.counters.registered);
    ReapGroupsCounts(s.groups, ts);
    forall j | 0 <= j < |gs| ensures GroupOk(gs[j], ts) {
      var i := GroupOrigin(s.groups, ts, j);
      ReapedOk(s.groups[i], ts, ts);
    }
  }

  // ---- the end of an iteration -------------------------------------------------------------------------

  lemma TendAllOwned(gs: seq<Group>, ts: int, millis: nat -> nat, clock: int)
    requires Owned(gs) && AllGroupsOk(gs, clock) && ts <= clock
    ensures Owned(TendAll(gs, ts, millis))
  {
    var r := TendAll(gs, ts, millis);
    forall i | 0 <= i < |gs|
      ensures DistinctAddresses(r[i].conns) && forall b :: Claims(r[i], b) ==> Claims(gs[i], b)
    {
      TendedOk(gs[i], ts, millis(i), clock);
      SameClaims(gs[i], r[i]);
    }
  }

  lemma TendAllInv(s: State, ts: int, millis: nat -> nat)
    requires Inv(s, ts)
    ensures Inv(s.(groups := TendAll(s.groups, ts, millis)), ts)
    ensures forall i :: 0 <= i < |s.groups| ==> WeightsAgree(TendAll(s.groups, ts, millis)[i].conns)
  {
    var r := TendAll(s.groups, ts, millis);
    TendAllOwned(s.groups, ts, millis, ts);
    forall i | 0 <= i < |r|
      ensures GroupOk(r[i], ts) && r[i].serial == s.groups[i].serial && WeightsAgree(r[i].conns)
      ensures Recovering(r[i]) == Recovering(s.groups[i])
    {
      TendedOk(s.groups[i], ts, millis(i), ts);
      SameMembersRecovering(s.groups[i], r[i]);
    }
    SumSame(s.groups, r, Recovering);
  }

  lemma LoopTailInv(s: State, ts: int, millis: nat -> nat)
    requires Inv(s, ts)
    ensures var r := LoopTail(s, ts, millis);
            Inv(r, ts) && forall i :: 0 <= i < |r.groups| ==> WeightsAgree(r.groups[i].conns)
  {
    CleanedUpInv(s, ts);
    TendAllInv(CleanedUp(s, ts), ts, millis);
  }
}
