/**
  One sender with its links, the receiver, and a network between them that loses,
  duplicates and reorders: what the receiver acknowledges was sent, on the link that
  it acknowledges it to.
 */
module Bonding {
  import opened Bytes
  import opened Net
  import opened Seqs
  import opened Registry
  import opened Receiver
  import opened ReceiverInvariants
  import opened Origins
  import opened AckRuns
  import opened Turns
  import opened Handshake
  import AckStream
  import SenderLinks
  import SenderObjects

  /** The receiver and its clock, what happened to the sender's links, and all
      packets that were ever sent either way. */
  datatype Bond = Bond(receiver: State, clock: int, history: seq<SenderLinks.Event>, up: set<Uplink>, down: set<Out>)

  datatype Act =
    | Forward(now: int, buf: seq<Byte>, sent: bool)      // a packet of the SRT caller goes out on the chosen link
    | Emit(link: nat, buf: seq<Byte>)                    // a registration or a keepalive goes out on a link
    | Maintain(now: int, reopened: seq<bool>)            // connection_housekeeping
    | DeliverAck(link: nat, now: int, sns: seq<int>)
    | DeliverRelay(link: nat, now: int, buf: seq<Byte>)
    | DeliverReply(link: nat, now: int)                  // an echo, REG3 or REG_ERR
    | Arrive(event: Event, ts: int)
    | Tick(ts: int, millis: nat -> nat)

  /** get_srt_sn. */
  function NumberOf(buf: seq<Byte>): int {
    if |buf| < 4 then -1 else SequenceNumber(buf)
  }

  predicate AllNumbers(sns: seq<int>) {
    forall i :: 0 <= i < |sns| ==> 0 <= sns[i] < MAX_SN
  }

  /** Only what was sent is delivered; packets from other addresses are arbitrary. */
  ghost predicate CanHappen(addrs: seq<Address>, y: Bond, a: Act) {
    match a
    case Emit(link, buf) => link < |addrs| && NumberOf(buf) < 0
    case DeliverAck(link, _, sns) => link < |addrs| && Out(addrs[link], AckPacket(sns)) in y.down && AllNumbers(sns)
    case DeliverRelay(link, _, buf) =>
      link < |addrs| && Out(addrs[link], Relay(buf)) in y.down && SenderObjects.WellFormed(buf)
    case DeliverReply(link, _) => link < |addrs|
    case Arrive(e, ts) =>
      && y.clock <= ts && Possible(y.receiver, e)
      && (e.Datagram? && e.addr in addrs ==> Uplink(e.addr, e.buf) in y.up)
    case Tick(ts, _) => y.clock <= ts
    case _ => true
  }

  /** The link that the sender chooses after this history. */
  ghost function Chosen(addrs: seq<Address>, history: seq<SenderLinks.Event>, now: int): (j: int)
    ensures -1 <= j < |addrs|
  {
    SenderLinks.Choose(SenderLinks.Run(|addrs|, history).links, now)
  }

  ghost function Happened(addrs: seq<Address>, y: Bond, a: Act): Bond
    requires CanHappen(addrs, y, a)
  {
    match a
    case Forward(now, buf, sent) =>
      var j := Chosen(addrs, y.history, now);
      y.(history := y.history + [SenderLinks.Send(now, NumberOf(buf), sent)],
         up := if j >= 0 && sent then y.up + {Uplink(addrs[j], buf)} else y.up)
    case Emit(link, buf) => y.(up := y.up + {Uplink(addrs[link], buf)})
    case Maintain(now, reopened) => y.(history := y.history + [SenderLinks.Housekeeping(now, reopened)])
    case DeliverAck(link, now, sns) =>
      SenderObjects.AckPacketAcks(sns, link, now);
      y.(history := y.history + SenderObjects.Feedback(link, now, AckStream.EncodeAck(sns)))
    case DeliverRelay(link, now, buf) => y.(history := y.history + SenderObjects.Feedback(link, now, buf))
    case DeliverReply(link, now) => y.(history := y.history + [SenderLinks.Received(link, now)])
    case Arrive(e, ts) =>
      var r := Step(y.receiver, e, ts);
      y.(receiver := r.state, clock := ts, down := y.down + OutSet(r.outs))
    case Tick(ts, millis) => y.(receiver := LoopTail(y.receiver, ts, millis), clock := ts)
  }

  ghost function AfterActs(addrs: seq<Address>, acts: seq<Act>): Bond {
    if acts == [] then Bond(INITIAL, 0, [], {}, {})
    else
      var y, a := AfterActs(addrs, acts[..|acts| - 1]), acts[|acts| - 1];
      if CanHappen(addrs, y, a) then Happened(addrs, y, a) else y
  }

  // ---- what is claimed ---------------------------------------------------------------------

  /** The sender logged the number when it sent it on the link with the address. */
  ghost predicate LoggedOn(addrs: seq<Address>, history: seq<SenderLinks.Event>, m: nat, a: Address, sn: int)
    requires m < |history|
  {
    && history[m].Send? && history[m].sent && history[m].sn == sn
    && var j := Chosen(addrs, history[..m], history[m].now); j >= 0 && addrs[j] == a
  }

  ghost predicate SentOn(addrs: seq<Address>, history: seq<SenderLinks.Event>, a: Address, sn: int) {
    exists m :: 0 <= m < |history| && LoggedOn(addrs, history, m, a, sn)
  }

  /** The number was sent on one of the links. */
  ghost predicate SentSomewhere(addrs: seq<Address>, h: seq<SenderLinks.Event>, sn: int) {
    exists a :: a in addrs && SentOn(addrs, h, a, sn)
  }

  /** A data packet with the number was put on the wire from the address. */
  ghost predicate Carried(up: set<Uplink>, a: Address, sn: int) {
    sn >= 0 && exists p :: p in up && p.link == a && NumberOf(p.buf) == sn
  }

  /** The SRT server made up an SRTLA ACK, which the receiver relays. */
  ghost predicate ServerMadeAck(down: set<Out>) {
    exists o :: o in down && o.reply.Relay? && PacketType(o.reply.buf) == SRTLA_TYPE_ACK
  }

  // ---- what every act keeps ---------------------------------------------------------------------

  ghost predicate UpLogged(addrs: seq<Address>, y: Bond) {
    forall p :: p in y.up && NumberOf(p.buf) >= 0 ==> SentOn(addrs, y.history, p.link, NumberOf(p.buf))
  }

  /** The pending entries of the log were carried by packets from the address. */
  ghost predicate Backed(up: set<Uplink>, e: LogEntry) {
    && 0 <= e.log.index < AckStream.RECV_ACK_INT
    && forall i :: 0 <= i < e.log.index ==> Carried(up, e.addr, e.log.log[i])
  }

  ghost predicate LogsBacked(addrs: seq<Address>, y: Bond) {
    forall e :: HasLog(y.receiver.groups, e) && e.addr in addrs ==> Backed(y.up, e)
  }

  ghost predicate AllCarried(up: set<Uplink>, a: Address, sns: seq<int>) {
    forall i :: 0 <= i < |sns| ==> Carried(up, a, sns[i])
  }

  ghost predicate AcksBacked(addrs: seq<Address>, y: Bond) {
    forall o :: o in y.down && o.to in addrs && o.reply.AckPacket? ==> AllCarried(y.up, o.to, o.reply.sns)
  }

  /** The acknowledgement at position m is for a number sent before. */
  ghost predicate Earned(addrs: seq<Address>, history: seq<SenderLinks.Event>, m: nat)
    requires m < |history|
  {
    history[m].Ack? ==> SentSomewhere(addrs, history[..m], history[m].ack)
  }

  ghost predicate AcksEarned(addrs: seq<Address>, y: Bond) {
    ServerMadeAck(y.down) || forall m :: 0 <= m < |y.history| ==> Earned(addrs, y.history, m)
  }

  ghost predicate BondInv(addrs: seq<Address>, y: Bond) {
    && Inv(y.receiver, y.clock)
    && UpLogged(addrs, y) && LogsBacked(addrs, y) && AcksBacked(addrs, y) && AcksEarned(addrs, y)
  }

  // ---- the sender's side ----------------------------------------------------------------------------

  lemma SentOnLater(addrs: seq<Address>, h: seq<SenderLinks.Event>, more: seq<SenderLinks.Event>, a: Address, sn: int)
    requires SentOn(addrs, h, a, sn)
    ensures SentOn(addrs, h + more, a, sn)
  {
    var m :| 0 <= m < |h| && LoggedOn(addrs, h, m, a, sn);
    assert (h + more)[..m] == h[..m];
    assert LoggedOn(addrs, h + more, m, a, sn);
  }

  lemma EarnedLater(addrs: seq<Address>, h: seq<SenderLinks.Event>, more: seq<SenderLinks.Event>, m: nat)
    requires m < |h| && Earned(addrs, h, m)
    ensures Earned(addrs, h + more, m)
  {
    assert (h + more)[..m] == h[..m];
  }

  lemma SentSomewhereLater(addrs: seq<Address>, h: seq<SenderLinks.Event>, more: seq<SenderLinks.Event>, sn: int)
    requires SentSomewhere(addrs, h, sn)
    ensures SentSomewhere(addrs, h + more, sn)
  {
    var a :| a in addrs && SentOn(addrs, h, a, sn);
    SentOnLater(addrs, h, more, a, sn);
  }

  lemma MoreEarned(addrs: seq<Address>, h: seq<SenderLinks.Event>, more: seq<SenderLinks.Event>, m: nat)
    requires |h| <= m < |h + more| && (more[m - |h|].Ack? ==> SentSomewhere(addrs, h, more[m - |h|].ack))
    ensures Earned(addrs, h + more, m)
  {
    var i := m - |h|;
    assert (h + more)[m] == more[i];
    if more[i].Ack? {
      assert (h + more)[..m] == h + more[..i];
      SentSomewhereLater(addrs, h, more[..i], more[i].ack);
    }
  }

  lemma UpLoggedLater(addrs: seq<Address>, y: Bond, more: seq<SenderLinks.Event>)
    requires UpLogged(addrs, y)
    ensures UpLogged(addrs, y.(history := y.history + more))
  {
    forall p | p in y.up && NumberOf(p.buf) >= 0 ensures SentOn(addrs, y.history + more, p.link, NumberOf(p.buf)) {
      SentOnLater(addrs, y.history, more, p.link, NumberOf(p.buf));
    }
  }

  /** Every acknowledgement in `more` is for a number that was sent before. */
  ghost predicate AcksSent(addrs: seq<Address>, h: seq<SenderLinks.Event>, more: seq<SenderLinks.Event>) {
    forall i :: 0 <= i < |more| && more[i].Ack? ==> SentSomewhere(addrs, h, more[i].ack)
  }

  lemma AllEarnedLater(addrs: seq<Address>, h: seq<SenderLinks.Event>, more: seq<SenderLinks.Event>, m: nat)
    requires m < |h + more| && AcksSent(addrs, h, more) && (m < |h| ==> Earned(addrs, h, m))
    ensures Earned(addrs, h + more, m)
  {
    if m < |h| {
      EarnedLater(addrs, h, more, m);
    } else {
      assert more[m - |h|].Ack? ==> SentSomewhere(addrs, h, more[m - |h|].ack);
      MoreEarned(addrs, h, more, m);
    }
  }

  /** More history: its acknowledgements are earned by what came before. */
  lemma HistoryInv(addrs: seq<Address>, y: Bond, more: seq<SenderLinks.Event>)
    requires BondInv(addrs, y)
    requires ServerMadeAck(y.down) || AcksSent(addrs, y.history, more)
    ensures BondInv(addrs, y.(history := y.history + more))
  {
    UpLoggedLater(addrs, y, more);
    if !ServerMadeAck(y.down) {
      forall m | 0 <= m < |y.history + more| ensures Earned(addrs, y.history + more, m) {
        AllEarnedLater(addrs, y.history, more, m);
      }
    }
  }

  lemma CarriedMore(up: set<Uplink>, p: Uplink, a: Address, sn: int)
    requires Carried(up, a, sn)
    ensures Carried(up + {p}, a, sn)
  {
    var q :| q in up && q.link == a && NumberOf(q.buf) == sn;
    assert q in up + {p};
  }

  /** One more packet on the wire, logged if it is a data packet. */
  lemma UpInv(addrs: seq<Address>, y: Bond, p: Uplink)
    requires BondInv(addrs, y) && (NumberOf(p.buf) >= 0 ==> SentOn(addrs, y.history, p.link, NumberOf(p.buf)))
    ensures BondInv(addrs, y.(up := y.up + {p}))
  {
    var up := y.up + {p};
    forall e | HasLog(y.receiver.groups, e) && e.addr in addrs ensures Backed(up, e) {
      assert Backed(y.up, e);
      forall i | 0 <= i < e.log.index ensures Carried(up, e.addr, e.log.log[i]) {
        CarriedMore(y.up, p, e.addr, e.log.log[i]);
      }
    }
    forall o | o in y.down && o.to in addrs && o.reply.AckPacket? ensures AllCarried(up, o.to, o.reply.sns) {
      assert AllCarried(y.up, o.to, o.reply.sns);
      forall i | 0 <= i < |o.reply.sns| ensures Carried(up, o.to, o.reply.sns[i]) {
        CarriedMore(y.up, p, o.to, o.reply.sns[i]);
      }
    }
  }

  lemma ForwardInv(addrs: seq<Address>, y: Bond, now: int, buf: seq<Byte>, sent: bool)
    requires BondInv(addrs, y)
    ensures BondInv(addrs, Happened(addrs, y, Forward(now, buf, sent)))
  {
    var j, ev := Chosen(addrs, y.history, now), SenderLinks.Send(now, NumberOf(buf), sent);
    var y1 := y.(history := y.history + [ev]);
    HistoryInv(addrs, y, [ev]);
    if j >= 0 && sent {
      Unappend(y.history, ev);
      assert LoggedOn(addrs, y1.history, |y.history|, addrs[j], NumberOf(buf));
      UpInv(addrs, y1, Uplink(addrs[j], buf));
    }
  }

  lemma CarriedWasSent(addrs: seq<Address>, y: Bond, a: Address, sn: int)
    requires UpLogged(addrs, y) && Carried(y.up, a, sn)
    ensures SentOn(addrs, y.history, a, sn)
  {
    var p :| p in y.up && p.link == a && NumberOf(p.buf) == sn;
    assert SentOn(addrs, y.history, p.link, NumberOf(p.buf));
  }

  lemma AckedSomewhere(addrs: seq<Address>, y: Bond, link: nat, now: int, sns: seq<int>)
    requires BondInv(addrs, y) && link < |addrs| && AllCarried(y.up, addrs[link], sns)
    requires forall i :: 0 <= i < |sns| ==> SenderObjects.Acks(sns)[i] == SenderLinks.Ack(sns[i])
    ensures AcksSent(addrs, y.history, [SenderLinks.Received(link, now)] + SenderObjects.Acks(sns))
  {
    var more := [SenderLinks.Received(link, now)] + SenderObjects.Acks(sns);
    forall i | 0 <= i < |more| && more[i].Ack? ensures SentSomewhere(addrs, y.history, more[i].ack) {
      assert more[i] == SenderLinks.Ack(sns[i - 1]);
      CarriedWasSent(addrs, y, addrs[link], sns[i - 1]);
      assert addrs[link] in addrs;
    }
  }

  lemma AckInv(addrs: seq<Address>, y: Bond, link: nat, now: int, sns: seq<int>)
    requires BondInv(addrs, y) && CanHappen(addrs, y, DeliverAck(link, now, sns))
    ensures BondInv(addrs, Happened(addrs, y, DeliverAck(link, now, sns)))
  {
    var o := Out(addrs[link], AckPacket(sns));
    SenderObjects.AckPacketAcks(sns, link, now);
    assert AllCarried(y.up, o.to, o.reply.sns);
    AckedSomewhere(addrs, y, link, now, sns);
    HistoryInv(addrs, y, [SenderLinks.Received(link, now)] + SenderObjects.Acks(sns));
  }

  lemma {:induction false} IntervalIsNaks(lo: int, hi: int)
    ensures forall k :: 0 <= k < |SenderObjects.Interval(lo, hi)| ==> SenderObjects.Interval(lo, hi)[k].Nak?
    decreases hi - lo
  {
    if lo <= hi {
      IntervalIsNaks(lo + 1, hi);
    }
  }

  lemma {:induction false} LossesAreNaks(ws: seq<int>, i: nat)
    ensures forall k :: 0 <= k < |SenderObjects.Losses(ws, i)| ==> SenderObjects.Losses(ws, i)[k].Nak?
    decreases |ws| - i
  {
    if i < |ws| {
      if ws[i] < MAX_SN {
        LossesAreNaks(ws, i + 1);
      } else if i + 1 < |ws| {
        IntervalIsNaks(ws[i] - MAX_SN, ws[i + 1]);
        LossesAreNaks(ws, i + 2);
      }
    }
  }

  lemma RelayInv(addrs: seq<Address>, y: Bond, link: nat, now: int, buf: seq<Byte>)
    requires BondInv(addrs, y) && CanHappen(addrs, y, DeliverRelay(link, now, buf))
    ensures BondInv(addrs, Happened(addrs, y, DeliverRelay(link, now, buf)))
  {
    var more := SenderObjects.Feedback(link, now, buf);
    if PacketType(buf) == SRTLA_TYPE_ACK {
      assert Out(addrs[link], Relay(buf)).reply.Relay?;
      assert ServerMadeAck(y.down);
    } else {
      LossesAreNaks(WordsFrom(buf, 4), 0);
      assert forall i :: 0 <= i < |more| ==> !more[i].Ack?;
    }
    HistoryInv(addrs, y, more);
  }

  // ---- the receiver's side --------------------------------------------------------------------------

  /** Registering a carried number keeps the pending entries carried, and a batch
      that it completes consists of carried numbers. */
  lemma RegisterBacked(up: set<Uplink>, e: LogEntry, sn: int)
    requires Backed(up, e) && Carried(up, e.addr, sn)
    ensures Backed(up, e.(log := AckStream.Register(e.log, sn)))
    ensures forall b :: b in AckStream.Completed(e.log, sn) ==> AllCarried(up, e.addr, b)
  {
  }

  lemma DataCarried(addrs: seq<Address>, y: Bond, e: Event, ts: int)
    requires CanHappen(addrs, y, Arrive(e, ts)) && e.Datagram? && e.addr in addrs && NumberOf(e.buf) >= 0
    ensures Carried(y.up, e.addr, NumberOf(e.buf))
  {
    assert Uplink(e.addr, e.buf).link == e.addr;
  }

  lemma ArriveLogs(addrs: seq<Address>, y: Bond, ev: Event, ts: int, e: LogEntry)
    requires BondInv(addrs, y) && CanHappen(addrs, y, Arrive(ev, ts)) && e.addr in addrs
    requires HasLog(Step(y.receiver, ev, ts).state.groups, e)
    ensures Backed(y.up, e)
  {
    var s, t := y.receiver, EventTurn(ev, ts);
    TurnFollows(s, t, e);
    if IsData(s, t, e.addr) {
      var sn := SequenceNumber(ev.buf);
      var log :| HasLog(s.groups, e.(log := log)) && e.log == AckStream.Register(log, sn)
                 && BatchesTo(SentIn(s, t), e.addr) == AckStream.Completed(log, sn);
      assert Backed(y.up, e.(log := log));
      DataCarried(addrs, y, ev, ts);
      RegisterBacked(y.up, e.(log := log), sn);
    } else if HasLog(s.groups, e) {
      assert Backed(y.up, e);
    }
  }

  /** An ACK packet completes the log of the connection that it goes to. */
  lemma AckFrom(s: State, ev: Event, ts: int, o: Out) returns (e: LogEntry)
    requires Possible(s, ev) && o in Step(s, ev, ts).outs && o.reply.AckPacket?
    ensures ev.Datagram? && ev.addr == o.to == e.addr && NumberOf(ev.buf) >= 0
    ensures HasLog(s.groups, e) && o.reply.sns in AckStream.Completed(e.log, NumberOf(ev.buf))
  {
    var r := FindByAddress(s.groups, ev.addr);
    var g := s.groups[r.group];
    var c := g.conns[r.conn];
    e := LogEntry(g.serial, c.addr, c.recvLog);
    assert InGroup(g, c);
    assert HasConn(s.groups, g.serial, c);
  }

  lemma ServerMadeStays(down: set<Out>, more: set<Out>)
    ensures ServerMadeAck(down) ==> ServerMadeAck(down + more)
  {
    if ServerMadeAck(down) {
      var o :| o in down && o.reply.Relay? && PacketType(o.reply.buf) == SRTLA_TYPE_ACK;
      assert o in down + more;
    }
  }

  lemma ArriveInv(addrs: seq<Address>, y: Bond, ev: Event, ts: int)
    requires BondInv(addrs, y) && CanHappen(addrs, y, Arrive(ev, ts))
    ensures BondInv(addrs, Happened(addrs, y, Arrive(ev, ts)))
  {
    var r := Step(y.receiver, ev, ts);
    var y' := Happened(addrs, y, Arrive(ev, ts));
    InvLater(y.receiver, y.clock, ts);
    StepInv(y.receiver, ev, ts);
    forall e | HasLog(r.state.groups, e) && e.addr in addrs ensures Backed(y.up, e) {
      ArriveLogs(addrs, y, ev, ts, e);
    }
    forall o | o in y'.down && o.to in addrs && o.reply.AckPacket? ensures AllCarried(y.up, o.to, o.reply.sns) {
      if o !in y.down {
        var e := AckFrom(y.receiver, ev, ts, o);
        DataCarried(addrs, y, ev, ts);
        assert Backed(y.up, e);
        RegisterBacked(y.up, e, NumberOf(ev.buf));
      }
    }
    ServerMadeStays(y.down, OutSet(r.outs));
  }

  lemma TickBonds(addrs: seq<Address>, y: Bond, ts: int, millis: nat -> nat)
    requires BondInv(addrs, y) && y.clock <= ts
    ensures BondInv(addrs, y.(receiver := LoopTail(y.receiver, ts, millis), clock := ts))
  {
    InvLater(y.receiver, y.clock, ts);
    LoopTailInv(y.receiver, ts, millis);
    forall e | HasLog(LoopTail(y.receiver, ts, millis).groups, e) && e.addr in addrs ensures Backed(y.up, e) {
      TurnFollows(y.receiver, EndTurn(ts, millis), e);
      assert HasLog(y.receiver.groups, e) ==> Backed(y.up, e);
    }
  }

  // ---- every run --------------------------------------------------------------------------------------

  lemma HappenedInv(addrs: seq<Address>, y: Bond, a: Act)
    requires BondInv(addrs, y) && CanHappen(addrs, y, a)
    ensures BondInv(addrs, Happened(addrs, y, a))
  {
    match a
    case Forward(now, buf, sent) => ForwardInv(addrs, y, now, buf, sent);
    case Emit(link, buf) => UpInv(addrs, y, Uplink(addrs[link], buf));
    case Maintain(now, reopened) => HistoryInv(addrs, y, [SenderLinks.Housekeeping(now, reopened)]);
    case DeliverAck(link, now, sns) => AckInv(addrs, y, link, now, sns);
    case DeliverRelay(link, now, buf) => RelayInv(addrs, y, link, now, buf);
    case DeliverReply(link, now) => HistoryInv(addrs, y, [SenderLinks.Received(link, now)]);
    case Arrive(e, ts) => ArriveInv(addrs, y, e, ts);
    case Tick(ts, millis) => TickBonds(addrs, y, ts, millis);
  }

  lemma {:induction false} BondRunInv(addrs: seq<Address>, acts: seq<Act>)
    ensures BondInv(addrs, AfterActs(addrs, acts))
    decreases |acts|
  {
    if acts == [] {
      InitialInv();
    } else {
      var init, a := acts[..|acts| - 1], acts[|acts| - 1];
      BondRunInv(addrs, init);
      if CanHappen(addrs, AfterActs(addrs, init), a) {
        HappenedInv(addrs, AfterActs(addrs, init), a);
      }
    }
  }

  /** On every run: each number in an ACK packet on its way to one of the sender's
      links was carried by a data packet from that link, and the sender logged it
      there. */
  lemma AckedWasSent(addrs: seq<Address>, acts: seq<Act>, o: Out, i: nat)
    requires var y := AfterActs(addrs, acts);
             o in y.down && o.to in addrs && o.reply.AckPacket? && i < |o.reply.sns|
    ensures var y := AfterActs(addrs, acts);
            Carried(y.up, o.to, o.reply.sns[i]) && SentOn(addrs, y.history, o.to, o.reply.sns[i])
  {
    var y := AfterActs(addrs, acts);
    BondRunInv(addrs, acts);
    assert AllCarried(y.up, o.to, o.reply.sns);
    CarriedWasSent(addrs, y, o.to, o.reply.sns[i]);
  }

  /** And unless the SRT server makes up SRTLA ACKs, every acknowledgement that the
      sender's links have seen was for a number that it had sent before. */
  lemma EveryAckEarned(addrs: seq<Address>, acts: seq<Act>, m: nat)
    requires var y := AfterActs(addrs, acts); m < |y.history| && !ServerMadeAck(y.down)
    ensures Earned(addrs, AfterActs(addrs, acts).history, m)
  {
    BondRunInv(addrs, acts);
  }
}
