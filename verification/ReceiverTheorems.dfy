/** The receiver's guarantees, in every state that a run of its main loop can
    reach. */
module ReceiverTheorems {
  import opened Bytes
  import opened Net
  import opened Seqs
  import opened ReceiverTypes
  import opened Registry
  import opened Quality
  import opened Receiver
  import opened ReceiverInvariants
  import AckStream
  import AuthLimiter
  import NakDedup
  import Verdicts

  // ---- runs ----------------------------------------------------------------------------

  /** One turn of the main loop: the clock reading, the socket events, and the
      millisecond clock as each group is evaluated at the end. */
  datatype Iteration = Iteration(ts: int, events: seq<Event>, millis: nat -> nat)

  /** Events in order; one that cannot occur in the state is skipped. */
  function AfterEvents(s: State, events: seq<Event>, ts: int): State {
    if events == [] then s
    else
      var before, e := AfterEvents(s, events[..|events| - 1], ts), events[|events| - 1];
      if Possible(before, e) then Step(before, e, ts).state else before
  }

  lemma EventsSnoc(s: State, events: seq<Event>, e: Event, ts: int)
    ensures var before := AfterEvents(s, events, ts);
            AfterEvents(s, events + [e], ts) == if Possible(before, e) then Step(before, e, ts).state else before
  {
    Unappend(events, e);
  }

  lemma {:induction false} EventsConcat(s: State, a: seq<Event>, b: seq<Event>, ts: int)
    ensures AfterEvents(s, a + b, ts) == AfterEvents(AfterEvents(s, a, ts), b, ts)
    decreases |b|
  {
    if b == [] {
      AppendNothing(a);
    } else {
      var n := |b| - 1;
      SplitLast(b);
      assert a + b == (a + b[..n]) + [b[n]];
      EventsConcat(s, a, b[..n], ts);
      EventsSnoc(s, a + b[..n], b[n], ts);
      EventsSnoc(AfterEvents(s, a, ts), b[..n], b[n], ts);
    }
  }

  function AfterRun(its: seq<Iteration>): State {
    if its == [] then INITIAL
    else
      var it := its[|its| - 1];
      LoopTail(AfterEvents(AfterRun(its[..|its| - 1]), it.events, it.ts), it.ts, it.millis)
  }

  function LastClock(its: seq<Iteration>): int {
    if its == [] then 0 else its[|its| - 1].ts
  }

  /** A clock that starts at zero or later and does not run backwards. */
  ghost predicate Monotone(its: seq<Iteration>) {
    its == [] || (LastClock(its[..|its| - 1]) <= LastClock(its) && Monotone(its[..|its| - 1]))
  }

  lemma {:induction false} EventsInv(s: State, events: seq<Event>, ts: int)
    requires Inv(s, ts)
    ensures Inv(AfterEvents(s, events, ts), ts)
    decreases |events|
  {
    if events != [] {
      EventsInv(s, events[..|events| - 1], ts);
      var before, e := AfterEvents(s, events[..|events| - 1], ts), events[|events| - 1];
      if Possible(before, e) {
        StepInv(before, e, ts);
      }
    }
  }

  lemma {:induction false} RunInv(its: seq<Iteration>)
    requires Monotone(its)
    ensures Inv(AfterRun(its), LastClock(its))
    ensures forall i :: 0 <= i < |AfterRun(its).groups| ==> WeightsAgree(AfterRun(its).groups[i].conns)
    decreases |its|
  {
    if its == [] {
      InitialInv();
    } else {
      var n := |its| - 1;
      RunInv(its[..n]);
      InvLater(AfterRun(its[..n]), LastClock(its[..n]), its[n].ts);
      EventsInv(AfterRun(its[..n]), its[n].events, its[n].ts);
      LoopTailInv(AfterEvents(AfterRun(its[..n]), its[n].events, its[n].ts), its[n].ts, its[n].millis);
    }
  }

  /** A state reached after whole iterations and some events of the next one. */
  ghost predicate Reached(s: State, its: seq<Iteration>, events: seq<Event>, ts: int) {
    Monotone(its) && LastClock(its) <= ts && s == AfterEvents(AfterRun(its), events, ts)
  }

  lemma ReachedInv(s: State, its: seq<Iteration>, events: seq<Event>, ts: int)
    requires Reached(s, its, events, ts)
    ensures Inv(s, ts)
  {
    RunInv(its);
    InvLater(AfterRun(its), LastClock(its), ts);
    EventsInv(AfterRun(its), events, ts);
  }

  // ---- address ownership --------------------------------------------------------------------

  /** In every reachable state each address has at most one owner, so the scan
      answers the owner whatever the order of the groups. */
  lemma AddressOwnership(s: State, its: seq<Iteration>, events: seq<Event>, ts: int, a: Address, gs: seq<Group>)
    requires Reached(s, its, events, ts) && multiset(gs) == multiset(s.groups)
    ensures Owned(s.groups)
    ensures OwnerOf(gs, a) == OwnerOf(s.groups, a)
  {
    ReachedInv(s, its, events, ts);
    OrderIrrelevant(s.groups, gs, a);
  }

  // ---- conservation and capacity ----------------------------------------------------------------

  /** On every run: accepted registrations are the live groups plus those removed
      as idle, for auth, for an SRT error or by eviction; recoveries started are
      completed, failed, going on or discarded; and the tables never overflow. */
  lemma Conservation(s: State, its: seq<Iteration>, events: seq<Event>, ts: int)
    requires Reached(s, its, events, ts)
    ensures GroupsConserved(s) && RecoveriesConserved(s)
    ensures |s.groups| <= MAX_GROUPS
    ensures forall i :: 0 <= i < |s.groups| ==> |s.groups[i].conns| <= MAX_CONNS_PER_GROUP
  {
    ReachedInv(s, its, events, ts);
    forall i | 0 <= i < |s.groups| ensures |s.groups[i].conns| <= MAX_CONNS_PER_GROUP {
      assert GroupOk(s.groups[i], ts);
    }
  }

  /** The broadcast of an ACK or NAK reaches every member of the group, once and
      in order: the cut-off at MAX_CONNS_PER_GROUP never applies. */
  lemma BroadcastReachesAll(s: State, its: seq<Iteration>, events: seq<Event>, ts: int, i: nat, buf: seq<Byte>)
    requires Reached(s, its, events, ts) && i < |s.groups| && (IsAck(buf) || IsNak(buf))
    ensures var g, targets := s.groups[i], RelayTargets(s.groups[i], buf);
            |targets| == |g.conns| && forall k :: 0 <= k < |g.conns| ==> targets[k] == g.conns[k].addr
  {
    ReachedInv(s, its, events, ts);
    assert GroupOk(s.groups[i], ts);
  }

  // ---- recoveries ----------------------------------------------------------------------------------

  /** A reaper pass leaves no recovery older than RECOVERY_CHANCE_PERIOD and
      erases no connection whose recovery is still open. */
  lemma ReaperClosesRecoveries(s: State, its: seq<Iteration>, events: seq<Event>, ts: int)
    requires Reached(s, its, events, ts)
    ensures forall i, k :: 0 <= i < |s.groups| && 0 <= k < |s.groups[i].conns| && TimedOut(s.groups[i].conns[k], ts)
              ==> Settled(s.groups[i].conns[k], ts).recoveryStart == 0
    ensures s.lastCleanup + CLEANUP_PERIOD <= ts ==>
              forall i, k :: var gs := CleanedUp(s, ts).groups;
                0 <= i < |gs| && 0 <= k < |gs[i].conns| && gs[i].conns[k].recoveryStart > 0
                ==> ts - gs[i].conns[k].recoveryStart <= RECOVERY_CHANCE_PERIOD
  {
    ReachedInv(s, its, events, ts);
    forall i, k | 0 <= i < |s.groups| && 0 <= k < |s.groups[i].conns| && TimedOut(s.groups[i].conns[k], ts)
      ensures Settled(s.groups[i].conns[k], ts).recoveryStart == 0
    {
      assert GroupOk(s.groups[i], ts) && ConnOk(s.groups[i].conns[k], ts);
      ErasedNotRecovering(s.groups[i].conns[k], ts);
    }
    if s.lastCleanup + CLEANUP_PERIOD <= ts {
      var gs := CleanedUp(s, ts).groups;
      forall i, k | 0 <= i < |gs| && 0 <= k < |gs[i].conns| && gs[i].conns[k].recoveryStart > 0
        ensures ts - gs[i].conns[k].recoveryStart <= RECOVERY_CHANCE_PERIOD
      {
        var i0 := GroupOrigin(s.groups, ts, i);
        var k0 := ConnOrigin(s.groups[i0].conns, ts, k);
        SettledIsYoung(s.groups[i0].conns[k0], ts);
      }
    }
  }

  lemma BookedTwice(c: Counters, a: Tally, b: Tally)
    ensures Booked(Booked(c, a), b) == Booked(c, Add(a, b))
  {
  }

  lemma PassTwice(s: State, t1: int, t2: int)
    requires SaneGroups(s.groups) && t1 <= t2
    ensures CleanupPass(CleanupPass(s, t1), t2) == CleanupPass(s, t2)
  {
    ReapGroupsTwice(s.groups, t1, t2);
    BookedTwice(s.counters, TallyGroups(s.groups, t1), TallyGroups(ReapGroups(s.groups, t1), t2));
  }

  /** With no packets in between, a cleanup at t1 and one at t2 leave exactly what
      the one at t2 alone leaves: groups, connections and every counter. */
  lemma CleanupComposes(s: State, its: seq<Iteration>, events: seq<Event>, ts: int, t1: int, t2: int)
    requires Reached(s, its, events, ts)
    requires s.lastCleanup + CLEANUP_PERIOD <= t1 && t1 + CLEANUP_PERIOD <= t2
    ensures CleanedUp(CleanedUp(s, t1), t2) == CleanedUp(s, t2)
  {
    ReachedInv(s, its, events, ts);
    GroupsSane(s.groups, ts);
    PassTwice(s, t1, t2);
  }

  // ---- weights ------------------------------------------------------------------------------------------

  /** The weight is the table value of the error points; without extended
      keepalives these are the legacy points, and the weight is at most the legacy
      weight. */
  predicate WeighsRight(t: Stats) {
    && t.weightPercent == Weight(t.errorPoints)
    && t.legacyWeightPercent == LegacyWeight(t.legacyErrorPoints)
    && (!t.extended ==> t.errorPoints == t.legacyErrorPoints && t.weightPercent <= t.legacyWeightPercent)
  }

  ghost predicate WellWeighed(conns: seq<Conn>) {
    forall k :: 0 <= k < |conns| ==> WeighsRight(conns[k].stats)
  }

  lemma StateWeights(s: State, ts: int, i: nat, k: nat)
    requires Inv(s, ts) && i < |s.groups| && k < |s.groups[i].conns| && WeightsAgree(s.groups[i].conns)
    ensures WeighsRight(s.groups[i].conns[k].stats)
  {
    assert GroupOk(s.groups[i], ts);
    assert StatsInv(s.groups[i].conns[k].stats);
  }

  /** So it is at the end of every iteration. */
  lemma WeightAgreement(its: seq<Iteration>, i: nat, k: nat)
    requires Monotone(its) && i < |AfterRun(its).groups| && k < |AfterRun(its).groups[i].conns|
    ensures WeighsRight(AfterRun(its).groups[i].conns[k].stats)
  {
    RunInv(its);
    StateWeights(AfterRun(its), LastClock(its), i, k);
  }

  /** At the end of every iteration of every run, what the groups that the reaper has
      left have to say about their connections. */
  lemma VerdictsOnRun(s: State, its: seq<Iteration>, events: seq<Event>, ts: int, millis: nat -> nat, i: nat, k: nat)
    requires Reached(s, its, events, ts)
    requires i < |CleanedUp(s, ts).groups| && k < |CleanedUp(s, ts).groups[i].conns|
    ensures Verdicts.GroupVerdict(CleanedUp(s, ts).groups[i], LoopTail(s, ts, millis).groups[i], k, ts, millis(i))
  {
    ReachedInv(s, its, events, ts);
    CleanedUpInv(s, ts);
    Verdicts.TendedVerdict(CleanedUp(s, ts).groups[i], k, ts, millis(i));
  }

  /** The group once a NAK of connection k is counted and remembered. */
  function WithNak(g: Group, k: nat, buf: seq<Byte>, nowMs: nat): (r: Group)
    requires k < |g.conns|
    ensures |r.conns| == |g.conns|
  {
    var s := g.conns[k].stats;
    g.(conns := g.conns[k := g.conns[k].(stats := s.(packetsLost := (s.packetsLost + 1) % 0x1_0000_0000,
                                                     nackCount := (s.nackCount + 1) % 0x1_0000))],
       nakCache := NakDedup.AfterCall(g.nakCache, HashOf(buf), nowMs))
  }

  lemma NakNotedIs(g: Group, k: nat, buf: seq<Byte>, ts: int, ms: Millis)
    requires g.balancing && k < |g.conns| && IsNak(buf)
    ensures var h := WithNak(g, k, buf, ms.dedup);
            NakNoted(g, k, buf, ts, ms) == if h.conns[k].stats.nackCount >= 6 then Evaluated(h, ts, ms.eval) else h
  {
  }

  /** An accepted NAK is counted.  It makes the receiver evaluate the group at once
      exactly if it is the sixth or a later one of its connection since the last
      evaluation, which was 5 seconds ago. */
  lemma NakVerdict(g: Group, k: nat, buf: seq<Byte>, ts: int, ms: Millis, j: nat)
    requires g.balancing && k < |g.conns| && j < |g.conns| && IsNak(buf)
    ensures var h, r := WithNak(g, k, buf, ms.dedup), NakNoted(g, k, buf, ts, ms);
            var now := h.conns[k].stats.nackCount >= 6 && g.lastQualityEval + 5 <= ts;
            && r == h.(conns := r.conns, lastQualityEval := if now then ts else g.lastQualityEval)
            && if now && ts >= h.conns[j].connectionStart + 10
               then Verdicts.Charged(h.conns[j].stats, r.conns[j].stats, Verdicts.Speeds(h.conns, ms.eval), ts, ms.eval)
                    && Verdicts.Restarted(h.conns[j].stats, r.conns[j].stats, ts, ms.eval)
               else r.conns[j] == h.conns[j]
  {
    var h := WithNak(g, k, buf, ms.dedup);
    NakNotedIs(g, k, buf, ts, ms);
    Verdicts.EvaluatedFrame(h, ts, ms.eval);
    Verdicts.EvaluatedVerdict(h, j, ts, ms.eval);
  }

  /** In every reachable state: a connection in grace was never evaluated, and the
      evaluation that first finds one out of grace charges it in full for its
      bandwidth, so that its weight is at most 70, or 10 for a legacy sender. */
  lemma FirstVerdict(s: State, its: seq<Iteration>, events: seq<Event>, ts: int, i: nat, k: nat, nowMs: nat)
    requires Reached(s, its, events, ts) && i < |s.groups| && k < |s.groups[i].conns|
    ensures InGrace(s.groups[i].conns[k], ts) ==> s.groups[i].conns[k].stats.lastEvalTime == 0
    ensures var c := s.groups[i].conns[k];
            DueForEvaluation(s.groups[i], ts) && !InGrace(c, ts) && c.stats.lastEvalTime == 0 ==>
              var t := Tended(s.groups[i], ts, nowMs).conns[k].stats;
              && t.errorPoints >= (if c.stats.extended then 10 else 40)
              && t.weightPercent <= if c.stats.extended then 70 else 10
  {
    var g := s.groups[i];
    ReachedInv(s, its, events, ts);
    assert GroupOk(g, ts) && ConnOk(g.conns[k], ts);
    if DueForEvaluation(g, ts) && !InGrace(g.conns[k], ts) && g.conns[k].stats.lastEvalTime == 0 {
      FirstEvaluation(g.conns, k, ts, nowMs);
      TendedAgrees(g, ts, nowMs);
    }
  }

  // ---- eviction and admission -------------------------------------------------------------------------------

  /** A full table gives up the first of the oldest ghosts, which has no
      connection, no data and no SRT session, and nothing else. */
  lemma EvictionSafe(s: State, its: seq<Iteration>, events: seq<Event>, ts: int)
    requires Reached(s, its, events, ts) && MadeRoom(s) != s
    ensures var v := OldestGhost(s.groups, |s.groups|);
            && v >= 0 && |s.groups| == MAX_GROUPS
            && MadeRoom(s).groups == RemoveAt(s.groups, v)
            && s.groups[v].conns == [] && !s.groups[v].dataSeen && !s.groups[v].socketOpen && !s.groups[v].established
            && forall i :: 0 <= i < |s.groups| && IsGhost(s.groups[i]) ==>
                 s.groups[v].createdAt <= s.groups[i].createdAt
  {
    ReachedInv(s, its, events, ts);
    OldestGhostExact(s.groups, |s.groups|);
    assert GroupOk(s.groups[OldestGhost(s.groups, |s.groups|)], ts);
  }

  /** Nobody but the ghost that is about to be evicted claims the address. */
  ghost predicate FreeForReg1(s: State, addr: Address) {
    forall i :: 0 <= i < |s.groups| && Claims(s.groups[i], addr) ==>
      |s.groups| >= MAX_GROUPS && i == OldestGhost(s.groups, |s.groups|)
  }

  lemma RemainingClaims(gs: seq<Group>, v: nat, addr: Address)
    requires v < |gs|
    ensures (forall j :: 0 <= j < |gs| - 1 ==> !Claims(RemoveAt(gs, v)[j], addr))
            <==> forall i :: 0 <= i < |gs| && Claims(gs[i], addr) ==> i == v
  {
    var r := RemoveAt(gs, v);
    forall i | 0 <= i < |gs| && i != v ensures r[if i < v then i else i - 1] == gs[i] {
    }
    forall j | 0 <= j < |r| ensures r[j] == gs[if j < v then j else j + 1] {
    }
  }

  lemma RoomClaims(s: State, addr: Address)
    ensures FindByAddress(MadeRoom(s).groups, addr) == Nobody <==> FreeForReg1(s, addr)
  {
    var v := OldestGhost(s.groups, |s.groups|);
    NobodyIffUnclaimed(MadeRoom(s).groups, addr);
    if |s.groups| >= MAX_GROUPS && v >= 0 {
      RemainingClaims(s.groups, v, addr);
    }
  }

  predicate HasRoom(s: State) {
    |s.groups| < MAX_GROUPS || exists i :: 0 <= i < |s.groups| && IsGhost(s.groups[i])
  }

  /** A REG1 is accepted exactly when its source is not throttled, there is room
      or a ghost to evict, nobody else claims the address and the reply can be
      sent; it then adds one group that owns just that address. */
  lemma Reg1AcceptedIff(s: State, addr: Address, half: Id, ts: int, env: Env)
    ensures var r := RegisterGroup(s, addr, half, ts, env);
            && (r.outs == [Out(addr, RegTwo(half + env.random))]
                <==> && !AuthLimiter.Blocked(s.limiter, KeyFor(addr), ts)
                     && HasRoom(s) && FreeForReg1(s, addr) && env.sendOk)
            && (r.state.counters.registered == s.counters.registered + 1
                <==> r.outs == [Out(addr, RegTwo(half + env.random))])
  {
    OldestGhostExact(s.groups, |s.groups|);
    RoomClaims(s, addr);
  }

  /** The source is throttled, or the table has room, or it has no ghost. */
  ghost predicate NothingToEvict(s: State, addr: Address, ts: int) {
    || AuthLimiter.Blocked(s.limiter, KeyFor(addr), ts)
    || |s.groups| < MAX_GROUPS
    || forall i :: 0 <= i < |s.groups| ==> !IsGhost(s.groups[i])
  }

  /** A REG1 that is not accepted leaves the receiver as it was exactly if there
      was nothing to evict; otherwise the oldest ghost is gone, and nothing else
      has changed. */
  lemma RefusedReg1KeepsIff(s: State, addr: Address, half: Id, ts: int, env: Env)
    requires RegisterGroup(s, addr, half, ts, env).outs != [Out(addr, RegTwo(half + env.random))]
    ensures RegisterGroup(s, addr, half, ts, env).state == s <==> NothingToEvict(s, addr, ts)
    ensures !NothingToEvict(s, addr, ts) ==>
              var v := OldestGhost(s.groups, |s.groups|);
              && v >= 0
              && RegisterGroup(s, addr, half, ts, env).state
                 == s.(groups := RemoveAt(s.groups, v), counters := s.counters.(evicted := s.counters.evicted + 1))
  {
    OldestGhostExact(s.groups, |s.groups|);
  }

  lemma Reg1RefusedIff(s: State, addr: Address, half: Id, ts: int, env: Env)
    ensures var r := RegisterGroup(s, addr, half, ts, env);
            r.outs == [Out(addr, RegErr)]
            <==> AuthLimiter.Blocked(s.limiter, KeyFor(addr), ts) || !HasRoom(s) || !FreeForReg1(s, addr)
  {
    OldestGhostExact(s.groups, |s.groups|);
    RoomClaims(s, addr);
  }

  /** A group that nobody has joined yet. */
  ghost predicate IsFresh(g: Group, id: Id, addr: Address, ts: int) {
    && g.id == id && g.conns == [] && g.createdAt == ts && g.lastAddress == addr
    && !g.dataSeen && !g.established && !g.socketOpen && g.nakCache == map[]
  }

  /** A REG1 is answered REG_ERR exactly if its source is throttled, a full table
      has no ghost, or somebody but that ghost claims the address; REG2 with a new
      id exactly otherwise and if it can be sent; and else nothing.  Only with REG2
      is there a new group, after all the others, and it is fresh. */
  lemma Reg1Answers(s: State, addr: Address, half: Id, ts: int, env: Env)
    ensures var r, id := RegisterGroup(s, addr, half, ts, env), half + env.random;
            && (r.outs == [Out(addr, RegErr)]
                <==> AuthLimiter.Blocked(s.limiter, KeyFor(addr), ts) || !HasRoom(s) || !FreeForReg1(s, addr))
            && (r.outs in [[Out(addr, RegErr)], [Out(addr, RegTwo(id))], []])
            && (r.outs == [Out(addr, RegTwo(id))] ==>
                  exists g :: IsFresh(g, id, addr, ts) && r.state.groups == MadeRoom(s).groups + [g])
  {
    Reg1RefusedIff(s, addr, half, ts, env);
    var g := NewGroup(MadeRoom(s).counters.registered, half + env.random, addr, ts);
    assert IsFresh(g, half + env.random, addr, ts);
  }

  /** Another group than the one with the id claims the address. */
  ghost predicate ClaimedElsewhere(s: State, addr: Address, i: nat) {
    exists j :: 0 <= j < |s.groups| && j != i && Claims(s.groups[j], addr)
  }

  ghost predicate HasMember(g: Group, addr: Address) {
    exists k :: 0 <= k < |g.conns| && g.conns[k].addr == addr
  }

  /** The group is full, and the address is not one of its members. */
  ghost predicate NoPlace(g: Group, addr: Address) {
    |g.conns| >= 16 && !HasMember(g, addr)
  }

  /** What the look-up says of an address when group i is the one with the id. */
  lemma LookedUp(s: State, addr: Address, i: nat)
    requires Owned(s.groups) && i < |s.groups|
    ensures var r := FindByAddress(s.groups, addr);
            && (r.Somebody? && r.group != i <==> ClaimedElsewhere(s, addr, i))
            && (!ClaimedElsewhere(s, addr, i) ==> (r.Somebody? && r.conn >= 0 <==> HasMember(s.groups[i], addr)))
  {
    var r := FindByAddress(s.groups, addr);
    NobodyIffUnclaimed(s.groups, addr);
    if r.Somebody? {
      FoundIffClaims(s.groups[r.group], addr);
    }
    if HasMember(s.groups[i], addr) {
      assert Claims(s.groups[i], addr);
      FoundIffClaims(s.groups[i], addr);
    }
  }

  /** A connection from which nothing has come yet. */
  ghost predicate JustJoined(c: Conn, addr: Address, ts: int) {
    && c.addr == addr && c.lastReceived == ts && c.connectionStart == ts && c.recoveryStart == 0
    && c.recvLog == AckStream.EMPTY_LOG && c.stats.weightPercent == 100 && !c.stats.extended
    && c.stats.bytesReceived == c.stats.packetsReceived == c.stats.packetsLost == c.stats.nackCount == 0
  }

  /** Group i now has the address as a member, at the end unless it had it before,
      and as its last address; everything else is as it was. */
  ghost predicate NowMember(s: State, s': State, i: nat, addr: Address, ts: int)
    requires i < |s.groups|
  {
    exists conns :: && s' == s.(groups := s.groups[i := s.groups[i].(conns := conns, lastAddress := addr)])
                    && if HasMember(s.groups[i], addr) then conns == s.groups[i].conns
                       else exists c :: JustJoined(c, addr, ts) && conns == s.groups[i].conns + [c]
  }

  lemma MemberNow(s: State, i: nat, addr: Address, ts: int)
    requires i < |s.groups|
    ensures NowMember(s, s.(groups := s.groups[i := Joined(s.groups[i], addr, HasMember(s.groups[i], addr), ts)]),
                      i, addr, ts)
  {
    var g := s.groups[i];
    assert JustJoined(NewConn(addr, ts), addr, ts);
    var conns := Joined(g, addr, HasMember(g, addr), ts).conns;
    assert Joined(g, addr, HasMember(g, addr), ts) == g.(conns := conns, lastAddress := addr);
  }

  /** Everything a REG2 can be answered: REG_NGP exactly if no group has the id;
      REG_ERR exactly if one has, and another group claims the address or the group
      has no place for it; REG3 exactly otherwise and if it can be sent; and else
      nothing.  Only with REG3 does anything change: the address is then a member and
      the last address. */
  ghost predicate Reg2Answer(s: State, r: Outcome, addr: Address, id: Id, ts: int, sendOk: bool) {
    var i := FindById(s.groups, id);
    && (r.outs == [Out(addr, RegNgp)] <==> forall j :: 0 <= j < |s.groups| ==> s.groups[j].id != id)
    && (r.outs == [Out(addr, RegErr)]
        <==> i >= 0 && (ClaimedElsewhere(s, addr, i) || NoPlace(s.groups[i], addr)))
    && (r.outs == [Out(addr, RegThree)]
        <==> i >= 0 && !ClaimedElsewhere(s, addr, i) && !NoPlace(s.groups[i], addr) && sendOk)
    && (r.outs in [[Out(addr, RegNgp)], [Out(addr, RegErr)], [Out(addr, RegThree)], []])
    && (r.outs != [Out(addr, RegThree)] ==> r.state == s)
    && (r.outs == [Out(addr, RegThree)] ==> NowMember(s, r.state, i, addr, ts))
  }

  lemma Reg2Answers(s: State, addr: Address, id: Id, ts: int, env: Env)
    requires Owned(s.groups)
    ensures Reg2Answer(s, RegisterConnection(s, addr, id, ts, env), addr, id, ts, env.sendOk)
  {
    var i := FindById(s.groups, id);
    if i >= 0 {
      LookedUp(s, addr, i);
      MemberNow(s, i, addr, ts);
    }
  }

  /** What a reaper pass adds to the counters: a completed recovery for each that
      began more than 5 seconds ago and in which something came, a failed one if
      nothing did, a removed connection for each that was silent for more than 15
      seconds, and an idle group for each that is gone. */
  lemma CleanupCounts(s: State, ts: int)
    ensures var c, r := s.counters, CleanupPass(s, ts);
            && r.counters.completed == c.completed + SumAll(s.groups, Recovered(ts))
            && r.counters.failed == c.failed + SumAll(s.groups, NotRecovered(ts))
            && r.counters.connsRemoved == c.connsRemoved + SumAll(s.groups, Silent(ts))
            && r.counters.idle + |r.groups| == c.idle + |s.groups|
  {
    AllCompletedCounted(s.groups, ts);
    AllFailedCounted(s.groups, ts);
    AllSilentCounted(s.groups, ts);
    AllGoneCounted(s.groups, ts);
  }

  // ---- how groups leave -----------------------------------------------------------------------------------------

  ghost predicate Survives(gs: seq<Group>, g: Group) {
    exists j :: 0 <= j < |gs| && gs[j].serial == g.serial && (g.dataSeen ==> gs[j].dataSeen)
  }

  /** The SRT side of the step gives up group i: its socket cannot be opened or
      written, cannot be read, or the server refuses the session. */
  predicate SrtTeardown(s: State, e: Event, i: nat)
    requires Possible(s, e) && i < |s.groups|
  {
    match e
    case Datagram(addr, buf, env) =>
      && Classify(buf).Srt?
      && FindByAddress(s.groups, addr).Somebody? && FindByAddress(s.groups, addr).group == i
      && ((!s.groups[i].socketOpen && !env.socketOk) || env.forward.Broken?)
    case FromServer(raw, buf, env) =>
      && FindById(s.groups, s.groups[raw].id) == i
      && (!s.groups[i].socketOpen || |buf| < SRT_MIN_LEN || FailsAuth(s.groups[i], buf))
  }

  lemma RemovedOthersSurvive(gs: seq<Group>, v: nat, i: nat)
    requires v < |gs| && i < |gs| && i != v
    ensures Survives(RemoveAt(gs, v), gs[i])
  {
    assert RemoveAt(gs, v)[if i < v then i else i - 1] == gs[i];
  }

  lemma UpdatedSurvive(gs: seq<Group>, v: nat, g': Group, i: nat)
    requires v < |gs| && i < |gs| && g'.serial == gs[v].serial && (gs[v].dataSeen ==> g'.dataSeen)
    ensures Survives(gs[v := g'], gs[i])
  {
    assert gs[v := g'][i].serial == gs[i].serial;
  }

  lemma Reg1Leaves(s: State, addr: Address, half: Id, ts: int, env: Env, i: nat)
    requires i < |s.groups|
    ensures Survives(RegisterGroup(s, addr, half, ts, env).state.groups, s.groups[i]) || IsGhost(s.groups[i])
  {
    RegisterGroupCases(s, addr, half, ts, env);
    var r := RegisterGroup(s, addr, half, ts, env).state;
    var v := OldestGhost(s.groups, |s.groups|);
    assert Survives(s.groups, s.groups[i]);
    if r != s && !IsGhost(s.groups[i]) {
      var gs := MadeRoom(s).groups;
      if |s.groups| >= MAX_GROUPS && v >= 0 {
        RemovedOthersSurvive(s.groups, v, i);
      }
      var j :| 0 <= j < |gs| && gs[j].serial == s.groups[i].serial && (s.groups[i].dataSeen ==> gs[j].dataSeen);
      assert r.groups[j] == gs[j];
    }
  }

  lemma ForwardLeaves(s: State, v: nat, env: Env, i: nat)
    requires v < |s.groups| && i < |s.groups|
    ensures || Survives(Forwarded(s, v, env).groups, s.groups[i])
            || (i == v && ((!s.groups[v].socketOpen && !env.socketOk) || env.forward.Broken?))
  {
    var g := s.groups[v].(socketOpen := true);
    var gs := s.groups[v := g];
    UpdatedSurvive(s.groups, v, g, i);
    if i != v {
      RemovedOthersSurvive(s.groups, v, i);
      RemovedOthersSurvive(gs, v, i);
    }
  }

  lemma SrtLeaves(s: State, v: nat, k: nat, addr: Address, buf: seq<Byte>, ts: int, env: Env, i: nat)
    requires Inv(s, ts) && i < |s.groups| && v < |s.groups| && k < |s.groups[v].conns| && Classify(buf).Srt?
    ensures var s1 := SrtState(s, v, k, addr, buf, ts, env.ms);
            && Survives(s1.groups, s.groups[i])
            && (Survives(Forwarded(s1, v, env).groups, s.groups[i])
                || (v == i && ((!s.groups[i].socketOpen && !env.socketOk) || env.forward.Broken?)))
  {
    var s1 := SrtState(s, v, k, addr, buf, ts, env.ms);
    TouchedOk(s.groups[v], k, ts);
    SrtInGroupOk(TouchedGroup(s.groups[v], k, ts), k, addr, buf, ts, env.ms, ts);
    UpdatedSurvive(s.groups, v, s1.groups[v], i);
    ForwardLeaves(s1, v, env, i);
    assert s1.groups[i].serial == s.groups[i].serial;
  }

  lemma QuietLeaves(s: State, v: nat, k: nat, buf: seq<Byte>, ts: int, clock: int, i: nat)
    requires Inv(s, ts) && i < |s.groups| && v < |s.groups| && k < |s.groups[v].conns|
    ensures Survives(QuietState(s, v, k, buf, ts, clock).groups, s.groups[i])
  {
    var t := TouchedGroup(s.groups[v], k, ts);
    TouchedOk(s.groups[v], k, ts);
    if Classify(buf).Keepalive? {
      TelemetryOk(t, k, Classify(buf).info, clock, ts);
    }
    UpdatedSurvive(s.groups, v, Quietly(s.groups[v], k, buf, ts, clock), i);
  }

  lemma TrafficLeaves(s: State, addr: Address, buf: seq<Byte>, ts: int, env: Env, i: nat)
    requires Inv(s, ts) && i < |s.groups|
    requires !Classify(buf).Reg1? && !Classify(buf).Reg2?
    ensures Survives(HandleTraffic(s, addr, buf, ts, env).state.groups, s.groups[i])
            || (&& Classify(buf).Srt?
                && FindByAddress(s.groups, addr).Somebody? && FindByAddress(s.groups, addr).group == i
                && ((!s.groups[i].socketOpen && !env.socketOk) || env.forward.Broken?))
  {
    var r := FindByAddress(s.groups, addr);
    assert Survives(s.groups, s.groups[i]);
    if r.Somebody? && r.conn >= 0 {
      if Classify(buf).Srt? {
        SrtLeaves(s, r.group, r.conn, addr, buf, ts, env, i);
      } else {
        QuietLeaves(s, r.group, r.conn, buf, ts, env.clock, i);
      }
    }
  }

  lemma Reg2Survive(s: State, addr: Address, id: Id, ts: int, env: Env, i: nat)
    requires i < |s.groups|
    ensures Survives(RegisterConnection(s, addr, id, ts, env).state.groups, s.groups[i])
  {
    assert Survives(s.groups, s.groups[i]);
    var v := FindById(s.groups, id);
    if v >= 0 {
      UpdatedSurvive(s.groups, v, Joined(s.groups[v], addr, true, ts), i);
      UpdatedSurvive(s.groups, v, Joined(s.groups[v], addr, false, ts), i);
    }
  }

  lemma ServerLeaves(s: State, raw: nat, buf: seq<Byte>, env: Env, i: nat)
    requires raw < |s.groups| && i < |s.groups|
    ensures || Survives(HandleServer(s, raw, buf, env).state.groups, s.groups[i])
            || (&& FindById(s.groups, s.groups[raw].id) == i
                && (!s.groups[i].socketOpen || |buf| < SRT_MIN_LEN || FailsAuth(s.groups[i], buf)))
  {
    var v := FindById(s.groups, s.groups[raw].id);
    if i != v {
      RemovedOthersSurvive(s.groups, v, i);
    }
    UpdatedSurvive(s.groups, v, s.groups[v].(established := true), i);
    UpdatedSurvive(s.groups, v, s.groups[v], i);
  }

  /** A step removes a group only as a ghost or by the SRT side giving it up. */
  lemma StepLeaves(s: State, e: Event, ts: int, i: nat)
    requires Inv(s, ts) && Possible(s, e) && i < |s.groups|
    ensures Survives(Step(s, e, ts).state.groups, s.groups[i]) || IsGhost(s.groups[i]) || SrtTeardown(s, e, i)
  {
    assert Survives(s.groups, s.groups[i]);
    match e
    case Datagram(addr, buf, env) =>
      match Classify(buf) {
        case Reg1(half) => Reg1Leaves(s, addr, half, ts, env, i);
        case Reg2(id) => Reg2Survive(s, addr, id, ts, env, i);
        case _ => TrafficLeaves(s, addr, buf, ts, env, i);
      }
    case FromServer(raw, buf, env) => ServerLeaves(s, raw, buf, env, i);
  }

  lemma {:induction false} ReaperKeeps(gs: seq<Group>, now: int, i: nat)
    requires i < |gs| && !Expires(gs[i], now)
    ensures Survives(ReapGroups(gs, now), gs[i])
    decreases |gs|
  {
    var n := |gs| - 1;
    var rest := ReapGroups(gs[..n], now);
    if i < n {
      ReaperKeeps(gs[..n], now, i);
      var j :| 0 <= j < |rest| && rest[j].serial == gs[i].serial && (gs[i].dataSeen ==> rest[j].dataSeen);
      assert ReapGroups(gs, now)[j] == rest[j];
    } else {
      assert ReapGroups(gs, now)[|rest|] == Reaped(gs[n], now);
    }
  }

  /** The end of an iteration removes a group only if none of its connections
      was heard of for CONN_TIMEOUT seconds and it is older than its timeout:
      GROUP_TIMEOUT once it has seen data. */
  lemma TailLeaves(s: State, ts: int, millis: nat -> nat, i: nat)
    requires Inv(s, ts) && i < |s.groups|
    ensures Survives(LoopTail(s, ts, millis).groups, s.groups[i]) || Expires(s.groups[i], ts)
  {
    var s1 := CleanedUp(s, ts);
    CleanedUpInv(s, ts);
    assert Survives(s.groups, s.groups[i]);
    if !Expires(s.groups[i], ts) {
      ReaperKeeps(s.groups, ts, i);
      var j :| 0 <= j < |s1.groups| && s1.groups[j].serial == s.groups[i].serial
               && (s.groups[i].dataSeen ==> s1.groups[j].dataSeen);
      TendedOk(s1.groups[j], ts, millis(j), ts);
      assert LoopTail(s, ts, millis).groups[j] == Tended(s1.groups[j], ts, millis(j));
    }
  }

  /** A group that has carried data leaves only if the SRT side gives it up, or
      if it is empty and older than GROUP_TIMEOUT at a cleanup. */
  lemma DataGroupsLeave(s: State, its: seq<Iteration>, events: seq<Event>, ts: int,
                        e: Event, millis: nat -> nat, i: nat)
    requires Reached(s, its, events, ts) && i < |s.groups| && s.groups[i].dataSeen
    ensures Possible(s, e) ==> Survives(Step(s, e, ts).state.groups, s.groups[i]) || SrtTeardown(s, e, i)
    ensures || Survives(LoopTail(s, ts, millis).groups, s.groups[i])
            || (ReapConns(s.groups[i].conns, ts) == [] && s.groups[i].createdAt + GROUP_TIMEOUT < ts)
  {
    ReachedInv(s, its, events, ts);
    if Possible(s, e) {
      StepLeaves(s, e, ts, i);
    }
    TailLeaves(s, ts, millis, i);
  }
}
