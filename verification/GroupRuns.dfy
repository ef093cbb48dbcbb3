/** What has happened to every group, and what ends it, on every run of the receiver. */
module GroupRuns {
  import opened Bytes
  import opened Net
  import opened Seqs
  import opened ReceiverTypes
  import opened Registry
  import opened Receiver
  import opened ReceiverInvariants
  import opened ReceiverTheorems
  import opened Turns
  import opened Origins
  import opened ConnRuns
  import AuthLimiter

  // ---- signs of life ---------------------------------------------------------------------------

  /** A member sent SRT traffic; it was passed on; the SRT server acknowledged. */
  datatype Sign = Streamed | PassedOn | Acknowledged

  /** The turn brings the sign to the group at index i. */
  predicate Shows(s: State, t: Turn, i: nat, sign: Sign)
    requires i < |s.groups|
  {
    match sign
    case Streamed => StreamsIn(s, t, i)
    case PassedOn => StreamsIn(s, t, i) && !Suppressed(s.groups[i], t.event.buf, t.event.env.ms.dedup)
    case Acknowledged => Serves(s, t, i) && PacketType(t.event.buf) == 0x8002
  }

  ghost predicate ShowsTo(s: State, t: Turn, serial: nat, sign: Sign) {
    exists i :: 0 <= i < |s.groups| && s.groups[i].serial == serial && Shows(s, t, i, sign)
  }

  /** One of the turns brought the sign to the group with this serial. */
  ghost predicate Ever(turns: seq<Turn>, serial: nat, sign: Sign) {
    turns != []
    && var init, t := turns[..|turns| - 1], turns[|turns| - 1];
       Ever(init, serial, sign) || ShowsTo(StateAfter(init), t, serial, sign)
  }

  predicate Marked(g: Group, sign: Sign) {
    match sign
    case Streamed => g.dataSeen
    case PassedOn => g.socketOpen
    case Acknowledged => g.established
  }

  ghost predicate Born(s: State, t: Turn, serial: nat) {
    exists g :: Creates(s, t, g) && g.serial == serial
  }

  /** When the REG1 that created the group was accepted. */
  ghost function BornAt(turns: seq<Turn>, serial: nat): int {
    if turns == [] then 0
    else
      var init, t := turns[..|turns| - 1], turns[|turns| - 1];
      if Born(StateAfter(init), t, serial) then t.ts else BornAt(init, serial)
  }

  ghost predicate SpeaksFor(s: State, t: Turn, serial: nat) {
    && t.EventTurn? && t.event.Datagram?
    && (Born(s, t, serial)
        || exists i :: 0 <= i < |s.groups| && s.groups[i].serial == serial && (Joins(s, t, i) || StreamsIn(s, t, i)))
  }

  /** The address of the REG1 that created the group, or of the last REG2 that was
      accepted for it or SRT packet from a member since. */
  ghost function LastSpeaker(turns: seq<Turn>, serial: nat): Address {
    if turns == [] then V4(0, 0)
    else
      var init, t := turns[..|turns| - 1], turns[|turns| - 1];
      if SpeaksFor(StateAfter(init), t, serial) then t.event.addr else LastSpeaker(init, serial)
  }

  // ---- every run -----------------------------------------------------------------------------------

  lemma {:induction false} NoEarlySign(turns: seq<Turn>, serial: nat, sign: Sign)
    requires Ordered(turns) && serial >= StateAfter(turns).counters.registered
    ensures !Ever(turns, serial, sign)
    decreases |turns|
  {
    if turns != [] {
      var init, t := turns[..|turns| - 1], turns[|turns| - 1];
      RegisteredGrows(StateAfter(init), t);
      NoEarlySign(init, serial, sign);
      TurnsInv(init);
    }
  }

  /** Serials tell groups apart, so the sign is for this one. */
  lemma ShownTo(s: State, t: Turn, i: nat, sign: Sign)
    requires SerialsOk(s.groups, s.counters.registered) && i < |s.groups|
    ensures ShowsTo(s, t, s.groups[i].serial, sign) <==> Shows(s, t, i, sign)
  {
  }

  lemma MarkedTurn(s: State, t: Turn, i: nat, nowMs: nat, sign: Sign)
    requires i < |s.groups|
    ensures Marked(GroupAfter(s, t, i, nowMs), sign) <==> Marked(s.groups[i], sign) || Shows(s, t, i, sign)
    ensures GroupAfter(s, t, i, nowMs).serial == s.groups[i].serial
  {
    GroupTurn(s, t, i, nowMs);
  }

  lemma EverSnoc(turns: seq<Turn>, t: Turn, serial: nat, sign: Sign)
    ensures Ever(turns + [t], serial, sign)
            <==> Ever(turns, serial, sign) || ShowsTo(StateAfter(turns), t, serial, sign)
  {
    Unappend(turns, t);
  }

  lemma CreationShowsNothing(s: State, t: Turn, g: Group, sign: Sign)
    requires SerialsOk(s.groups, s.counters.registered) && Creates(s, t, g)
    ensures !Marked(g, sign) && !ShowsTo(s, t, g.serial, sign)
  {
  }

  lemma {:induction false} MarkedOnTurns(turns: seq<Turn>, j: nat, sign: Sign)
    requires Ordered(turns) && j < |StateAfter(turns).groups|
    ensures var g := StateAfter(turns).groups[j]; Marked(g, sign) <==> Ever(turns, g.serial, sign)
    decreases |turns|
  {
    if turns != [] {
      var init, t := turns[..|turns| - 1], turns[|turns| - 1];
      var s, g' := StateAfter(init), StateAfter(turns).groups[j];
      SplitLast(turns);
      EverSnoc(init, t, g'.serial, sign);
      TurnsInv(init);
      var o := OriginOf(s, t, j);
      if o.From? {
        MarkedTurn(s, t, o.group, o.nowMs, sign);
        ShownTo(s, t, o.group, sign);
        MarkedOnTurns(init, o.group, sign);
      } else {
        CreationShowsNothing(s, t, g', sign);
        NoEarlySign(init, g'.serial, sign);
      }
    }
  }

  lemma SpeakerSnoc(turns: seq<Turn>, t: Turn, serial: nat)
    ensures SpeaksFor(StateAfter(turns), t, serial) ==> LastSpeaker(turns + [t], serial) == t.event.addr
    ensures !SpeaksFor(StateAfter(turns), t, serial) ==> LastSpeaker(turns + [t], serial) == LastSpeaker(turns, serial)
  {
    Unappend(turns, t);
  }

  lemma SpeakerTurn(s: State, t: Turn, i: nat, nowMs: nat)
    requires SerialsOk(s.groups, s.counters.registered) && i < |s.groups|
    ensures var r := GroupAfter(s, t, i, nowMs);
            && r.serial == s.groups[i].serial
            && (SpeaksFor(s, t, r.serial) ==> r.lastAddress == t.event.addr)
            && (!SpeaksFor(s, t, r.serial) ==> r.lastAddress == s.groups[i].lastAddress)
  {
    GroupTurn(s, t, i, nowMs);
  }

  lemma {:induction false} SpeakerOnTurns(turns: seq<Turn>, j: nat)
    requires Ordered(turns) && j < |StateAfter(turns).groups|
    ensures var g := StateAfter(turns).groups[j]; g.lastAddress == LastSpeaker(turns, g.serial)
    decreases |turns|
  {
    if turns != [] {
      var init, t := turns[..|turns| - 1], turns[|turns| - 1];
      var s, g' := StateAfter(init), StateAfter(turns).groups[j];
      SplitLast(turns);
      SpeakerSnoc(init, t, g'.serial);
      TurnsInv(init);
      var o := OriginOf(s, t, j);
      if o.From? {
        SpeakerTurn(s, t, o.group, o.nowMs);
        SpeakerOnTurns(init, o.group);
      } else {
        assert SpeaksFor(s, t, g'.serial);
      }
    }
  }

  lemma BornSnoc(turns: seq<Turn>, t: Turn, serial: nat)
    ensures BornAt(turns + [t], serial) == if Born(StateAfter(turns), t, serial) then t.ts else BornAt(turns, serial)
  {
    Unappend(turns, t);
  }

  lemma BornOnce(s: State, t: Turn, i: nat, nowMs: nat)
    requires SerialsOk(s.groups, s.counters.registered) && i < |s.groups|
    ensures var r := GroupAfter(s, t, i, nowMs);
            r.serial == s.groups[i].serial && r.createdAt == s.groups[i].createdAt && !Born(s, t, r.serial)
  {
    GroupTurn(s, t, i, nowMs);
  }

  lemma {:induction false} BornOnTurns(turns: seq<Turn>, j: nat)
    requires Ordered(turns) && j < |StateAfter(turns).groups|
    ensures var g := StateAfter(turns).groups[j]; g.createdAt == BornAt(turns, g.serial)
    decreases |turns|
  {
    if turns != [] {
      var init, t := turns[..|turns| - 1], turns[|turns| - 1];
      var s, g' := StateAfter(init), StateAfter(turns).groups[j];
      SplitLast(turns);
      BornSnoc(init, t, g'.serial);
      TurnsInv(init);
      var o := OriginOf(s, t, j);
      if o.From? {
        BornOnce(s, t, o.group, o.nowMs);
        BornOnTurns(init, o.group);
      } else {
        assert Born(s, t, g'.serial);
      }
    }
  }

  /** In every reachable state, of every live group: data was seen exactly if a member
      sent SRT traffic, the SRT socket is open exactly if some of it was passed on, the
      session is established exactly if the SRT server acknowledged something, the last
      address is that of the last to register or stream, and the age counts from the
      accepted REG1. */
  lemma SignsOnRun(s: State, its: seq<Iteration>, events: seq<Event>, ts: int, i: nat, sign: Sign)
    requires Reached(s, its, events, ts) && i < |s.groups|
    ensures var turns := TurnsUpTo(its, events, ts);
            && (Marked(s.groups[i], sign) <==> Ever(turns, s.groups[i].serial, sign))
            && s.groups[i].lastAddress == LastSpeaker(turns, s.groups[i].serial)
            && s.groups[i].createdAt == BornAt(turns, s.groups[i].serial)
  {
    ReachedAsTurns(s, its, events, ts);
    BornOnTurns(TurnsUpTo(its, events, ts), i);
    MarkedOnTurns(TurnsUpTo(its, events, ts), i, sign);
    SpeakerOnTurns(TurnsUpTo(its, events, ts), i);
  }

  // ---- what the SRT server's packets do ---------------------------------------------------------------

  /** Group i is gone, and just that, but for the counters and the limiter. */
  ghost predicate JustGone(s: State, r: State, i: nat)
    requires i < |s.groups|
  {
    r.groups == s.groups[..i] + s.groups[i + 1..] && r.lastCleanup == s.lastCleanup
  }

  /** It is counted as gone for this reason, with the recoveries it takes along. */
  ghost predicate CountedAs(s: State, r: State, i: nat, auth: nat, srtError: nat)
    requires i < |s.groups|
  {
    r.counters == s.counters.(auth := s.counters.auth + auth, srtError := s.counters.srtError + srtError,
                              discarded := s.counters.discarded + Recovering(s.groups[i]))
  }

  /** A relayed packet goes to every member if it is an SRT ACK or NAK, and else to
      the last address. */
  ghost predicate Relayed(g: Group, buf: seq<Byte>, outs: seq<Out>) {
    if PacketType(buf) == 0x8002 || PacketType(buf) == 0x8003
    then |outs| == |g.conns| && forall k :: 0 <= k < |outs| ==> outs[k] == Out(g.conns[k].addr, Relay(buf))
    else outs == [Out(g.lastAddress, Relay(buf))]
  }

  /** The handshake response carries a failure code. */
  predicate Rejection(buf: seq<Byte>) {
    |buf| >= 64 && PacketType(buf) == 0x8000 && 1000 <= ReadBe32(buf, 36) < 0x8000_0000
  }

  ghost predicate HandledFor(s: State, e: Event, i: nat) {
    e.FromServer? && Possible(s, e) && i < |s.groups| && FindById(s.groups, s.groups[e.raw].id) == i
  }

  lemma RelayedExact(g: Group, buf: seq<Byte>, clock: int)
    requires GroupOk(g, clock)
    ensures Relayed(g, buf, RelayOuts(if IsAck(buf) then g.(established := true) else g, buf))
  {
  }

  /** A failed read, or a packet for a group without socket, ends the group as an SRT
      error; nothing is relayed. */
  lemma BrokenServerLink(s: State, e: Event, ts: int, i: nat)
    requires HandledFor(s, e, i) && (|e.buf| < 16 || !s.groups[i].socketOpen)
    ensures var r := Step(s, e, ts);
            JustGone(s, r.state, i) && CountedAs(s, r.state, i, 0, 1) && r.state.limiter == s.limiter && r.outs == []
  {
  }

  lemma RefusalExact(s: State, e: Event, ts: int, i: nat)
    requires HandledFor(s, e, i) && |e.buf| >= 16 && s.groups[i].socketOpen
    requires Rejection(e.buf) || (PacketType(e.buf) == 0x8005 && !s.groups[i].established)
    ensures var r, g := Step(s, e, ts), s.groups[i];
            && JustGone(s, r.state, i) && CountedAs(s, r.state, i, 1, 0)
            && r.outs == RelayOuts(if IsAck(e.buf) then g.(established := true) else g, e.buf)
            && r.state.limiter == AuthLimiter.Apply(s.limiter, AuthLimiter.Failure(KeyFor(g.lastAddress), e.env.clock))
  {
  }

  /** A SHUTDOWN before the server has acknowledged anything, or a rejected handshake
      at any time, ends the group as an authentication failure of the IP of its last
      address; the packet is relayed first. */
  lemma RefusedSession(s: State, its: seq<Iteration>, events: seq<Event>, ts: int, e: Event, i: nat)
    requires Reached(s, its, events, ts) && HandledFor(s, e, i) && |e.buf| >= 16 && s.groups[i].socketOpen
    requires var turns := TurnsUpTo(its, events, ts);
             Rejection(e.buf) || (PacketType(e.buf) == 0x8005 && !Ever(turns, s.groups[i].serial, Acknowledged))
    ensures var r, g := Step(s, e, ts), s.groups[i];
            && JustGone(s, r.state, i) && CountedAs(s, r.state, i, 1, 0) && Relayed(g, e.buf, r.outs)
            && r.state.limiter == AuthLimiter.Apply(s.limiter, AuthLimiter.Failure(KeyFor(g.lastAddress), e.env.clock))
  {
    ReachedInv(s, its, events, ts);
    SignsOnRun(s, its, events, ts, i, Acknowledged);
    RelayedExact(s.groups[i], e.buf, ts);
    RefusalExact(s, e, ts, i);
  }

  /** Any other packet is relayed and changes nothing, except that an ACK establishes
      the session.  In particular a SHUTDOWN after an ACK is the end of the stream. */
  lemma OrdinaryPacket(s: State, its: seq<Iteration>, events: seq<Event>, ts: int, e: Event, i: nat)
    requires Reached(s, its, events, ts) && HandledFor(s, e, i) && |e.buf| >= 16 && s.groups[i].socketOpen
    requires var turns := TurnsUpTo(its, events, ts);
             !Rejection(e.buf) && (PacketType(e.buf) == 0x8005 ==> Ever(turns, s.groups[i].serial, Acknowledged))
    ensures var r, g := Step(s, e, ts), s.groups[i];
            && Relayed(g, e.buf, r.outs)
            && r.state == if PacketType(e.buf) == 0x8002
                          then s.(groups := s.groups[i := g.(established := true)]) else s
  {
    ReachedInv(s, its, events, ts);
    SignsOnRun(s, its, events, ts, i, Acknowledged);
    RelayedExact(s.groups[i], e.buf, ts);
    assert s.groups[i := s.groups[i]] == s.groups;
  }

  // ---- what passing a packet on does -------------------------------------------------------------------

  ghost predicate Lives(gs: seq<Group>, serial: nat) {
    exists j :: 0 <= j < |gs| && gs[j].serial == serial
  }

  /** The SRT socket cannot be opened, or cannot be written. */
  predicate CannotPassOn(g: Group, env: Env) {
    (!g.socketOpen && !env.socketOk) || env.forward == Broken
  }

  lemma ForwardedExact(s: State, i: nat, env: Env)
    requires i < |s.groups|
    ensures var r := Forwarded(s, i, env);
            if CannotPassOn(s.groups[i], env) then JustGone(s, r, i) && CountedAs(s, r, i, 0, 1)
            else r == s.(groups := s.groups[i := s.groups[i].(socketOpen := true)])
  {
    var g := s.groups[i].(socketOpen := true);
    assert RemoveAt(s.groups[i := g], i) == s.groups[..i] + s.groups[i + 1..];
  }

  /** SRT traffic that is not a repeated NAK ends its group, as an SRT error, exactly
      if it cannot be passed on; nothing else leaves or changes places. */
  lemma TrafficVerdict(s: State, e: Event, ts: int, i: nat)
    requires Inv(s, ts) && i < |s.groups| && StreamsIn(s, EventTurn(e, ts), i)
    requires !Suppressed(s.groups[i], e.buf, e.env.ms.dedup)
    ensures var r := Step(s, e, ts).state;
            if CannotPassOn(s.groups[i], e.env)
            then r.groups == s.groups[..i] + s.groups[i + 1..] && r.counters.srtError == s.counters.srtError + 1
            else |r.groups| == |s.groups| && r.counters.srtError == s.counters.srtError
                 && forall j :: 0 <= j < |s.groups| && j != i ==> r.groups[j] == s.groups[j]
  {
    var k := Speaker(s, EventTurn(e, ts));
    var s1 := SrtState(s, i, k, e.addr, e.buf, ts, e.env.ms);
    SrtHead(TouchedGroup(s.groups[i], k, ts), k, e.addr, e.buf, ts, e.env.ms);
    ForwardedExact(s1, i, e.env);
    assert s1.groups[..i] == s.groups[..i] && s1.groups[i + 1..] == s.groups[i + 1..];
  }

  // ---- which groups expire ----------------------------------------------------------------------------------

  lemma EmptiedIff(conns: seq<Conn>, now: int)
    ensures ReapConns(conns, now) == [] <==> forall k :: 0 <= k < |conns| ==> conns[k].lastReceived + 15 < now
  {
    forall k | 0 <= k < |conns| && !TimedOut(conns[k], now) ensures ReapConns(conns, now) != [] {
      var m := ConnKept(conns, now, k);
    }
    if ReapConns(conns, now) != [] {
      var k := ConnOrigin(conns, now, 0);
    }
  }

  lemma ReapedLives(gs: seq<Group>, next: nat, now: int, i: nat)
    requires SerialsOk(gs, next) && i < |gs|
    ensures Lives(ReapGroups(gs, now), gs[i].serial) <==> !Expires(gs[i], now)
  {
    if Expires(gs[i], now) {
      forall j | 0 <= j < |ReapGroups(gs, now)| ensures ReapGroups(gs, now)[j].serial != gs[i].serial {
        var i' := GroupOrigin(gs, now, j);
      }
    } else {
      var j := GroupKept(gs, now, i);
      assert ReapGroups(gs, now)[j].serial == gs[i].serial;
    }
  }

  lemma TendedLives(gs: seq<Group>, ts: int, millis: nat -> nat, serial: nat)
    ensures Lives(TendAll(gs, ts, millis), serial) <==> Lives(gs, serial)
  {
    forall j | 0 <= j < |gs| ensures TendAll(gs, ts, millis)[j].serial == gs[j].serial {
      TendedHead(gs[j], ts, millis(j));
    }
  }

  lemma GoneIffExpires(s: State, ts: int, millis: nat -> nat, i: nat)
    requires SerialsOk(s.groups, s.counters.registered) && i < |s.groups|
    ensures Lives(LoopTail(s, ts, millis).groups, s.groups[i].serial)
            <==> s.lastCleanup + 3 > ts || !Expires(s.groups[i], ts)
  {
    ReapedLives(s.groups, s.counters.registered, ts, i);
    TendedLives(CleanedUp(s, ts).groups, ts, millis, s.groups[i].serial);
  }

  /** On every run: the end of an iteration removes a group exactly if there is a
      cleanup, nothing came from any member in the 15 seconds before, and the group
      is older than 30 seconds if a member ever streamed, and 5 seconds if not. */
  lemma ExpiresIff(s: State, its: seq<Iteration>, events: seq<Event>, ts: int, millis: nat -> nat, i: nat)
    requires Reached(s, its, events, ts) && i < |s.groups|
    ensures var turns, g := TurnsUpTo(its, events, ts), s.groups[i];
            !Lives(LoopTail(s, ts, millis).groups, g.serial)
            <==> && s.lastCleanup + 3 <= ts
                 && (forall k :: 0 <= k < |g.conns| ==> LastHeard(turns, g.serial, g.conns[k].addr) + 15 < ts)
                 && BornAt(turns, g.serial) + (if Ever(turns, g.serial, Streamed) then 30 else 5) < ts
  {
    var turns, g := TurnsUpTo(its, events, ts), s.groups[i];
    ReachedInv(s, its, events, ts);
    SignsOnRun(s, its, events, ts, i, Streamed);
    forall k | 0 <= k < |g.conns| ensures g.conns[k].lastReceived == LastHeard(turns, g.serial, g.conns[k].addr) {
      HeardOnRun(s, its, events, ts, i, k);
    }
    EmptiedIff(g.conns, ts);
    GoneIffExpires(s, ts, millis, i);
  }
}
