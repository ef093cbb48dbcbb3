/** The acknowledgement stream of every connection, on every run of the receiver. */
module AckRuns {
  import opened Bytes
  import opened Net
  import opened Seqs
  import opened ReceiverTypes
  import opened Registry
  import opened Receiver
  import opened ReceiverTheorems
  import opened Turns
  import opened Origins
  import AckStream

  /** The log of the connection with this address in the group with this serial. */
  datatype LogEntry = LogEntry(serial: nat, addr: Address, log: AckStream.RecvLog)

  ghost predicate HasLog(gs: seq<Group>, e: LogEntry) {
    exists c :: HasConn(gs, e.serial, c) && c.addr == e.addr && c.recvLog == e.log
  }

  // ---- what is observed --------------------------------------------------------------------

  function NumbersIn(s: State, t: Turn, a: Address): seq<int> {
    if IsData(s, t, a) then [SequenceNumber(t.event.buf)] else []
  }

  /** The batches of the ACK packets to the address. */
  function BatchesTo(outs: seq<Out>, a: Address): seq<seq<int>> {
    if outs == [] then []
    else
      var o := outs[|outs| - 1];
      BatchesTo(outs[..|outs| - 1], a) + if o.to == a && o.reply.AckPacket? then [o.reply.sns] else []
  }

  /** The numbers of the data packets from the address since it joined the group. */
  ghost function Data(turns: seq<Turn>, serial: nat, a: Address): seq<int> {
    if turns == [] || !Member(StateAfter(turns).groups, serial, a) then []
    else
      var n := |turns| - 1;
      Data(turns[..n], serial, a) + NumbersIn(StateAfter(turns[..n]), turns[n], a)
  }

  /** The batches acknowledged to the address since it joined the group. */
  ghost function Acked(turns: seq<Turn>, serial: nat, a: Address): seq<seq<int>> {
    if turns == [] || !Member(StateAfter(turns).groups, serial, a) then []
    else
      var n := |turns| - 1;
      Acked(turns[..n], serial, a) + BatchesTo(SentIn(StateAfter(turns[..n]), turns[n]), a)
  }

  lemma {:induction false} NoBatches(outs: seq<Out>, a: Address)
    requires forall j :: 0 <= j < |outs| ==> !outs[j].reply.AckPacket? || outs[j].to != a
    ensures BatchesTo(outs, a) == []
    decreases |outs|
  {
    if outs != [] {
      NoBatches(outs[..|outs| - 1], a);
    }
  }

  // ---- what is sent ----------------------------------------------------------------------------

  lemma AckOutsBatches(c: Conn, sn: int, a: Address)
    ensures BatchesTo(AckOuts(c, sn), a) == if sn >= 0 && a == c.addr then AckStream.Completed(c.recvLog, sn) else []
  {
    var outs := AckOuts(c, sn);
    if outs != [] {
      assert outs[..0] == [];
      assert BatchesTo(outs[..0], a) == [];
    }
  }

  lemma TrafficBatches(s: State, addr: Address, buf: seq<Byte>, ts: int, env: Env, a: Address)
    requires Classify(buf).Srt? && (a != addr || SequenceNumber(buf) < 0)
    ensures BatchesTo(HandleTraffic(s, addr, buf, ts, env).outs, a) == []
  {
    var r := FindByAddress(s.groups, addr);
    if r.Somebody? && r.conn >= 0 && !Suppressed(s.groups[r.group], buf, env.ms.dedup) {
      AckOutsBatches(s.groups[r.group].conns[r.conn], SequenceNumber(buf), a);
    }
  }

  /** ACK packets go out only for data packets, to their sender. */
  lemma OtherBatches(s: State, t: Turn, a: Address)
    requires !IsData(s, t, a)
    ensures BatchesTo(SentIn(s, t), a) == []
  {
    if t.EventTurn? && Possible(s, t.event) && t.event.Datagram? && Classify(t.event.buf).Srt? {
      TrafficBatches(s, t.event.addr, t.event.buf, t.ts, t.event.env, a);
    } else {
      NoBatches(SentIn(s, t), a);
    }
  }

  lemma DataBatches(s: State, t: Turn, serial: nat, c: Conn)
    requires Owned(s.groups) && HasConn(s.groups, serial, c) && IsData(s, t, c.addr)
    ensures BatchesTo(SentIn(s, t), c.addr) == AckStream.Completed(c.recvLog, SequenceNumber(t.event.buf))
  {
    var i, k := MemberFound(s.groups, serial, c);
    if Suppressed(s.groups[i], t.event.buf, t.event.env.ms.dedup) {
      ControlHasNoNumber(t.event.buf);
    }
    AckOutsBatches(c, SequenceNumber(t.event.buf), c.addr);
  }

  // ---- every turn -----------------------------------------------------------------------------------------

  /** The entry holds what registering sn in an earlier log gives, and the batch
      that this completes was sent. */
  ghost predicate LoggedFrom(gs: seq<Group>, e: LogEntry, sn: int, sent: seq<seq<int>>) {
    exists log ::
      HasLog(gs, e.(log := log)) && e.log == AckStream.Register(log, sn) && sent == AckStream.Completed(log, sn)
  }

  /** A log after a turn: a data packet of its connection was registered in it;
      otherwise nothing was acknowledged to its connection, and the log is as
      before, or empty because the connection is new. */
  ghost predicate Follows(s: State, t: Turn, e: LogEntry) {
    var acked := BatchesTo(SentIn(s, t), e.addr);
    if IsData(s, t, e.addr) then LoggedFrom(s.groups, e, SequenceNumber(t.event.buf), acked)
    else acked == []
         && (HasLog(s.groups, e) || (e.log == AckStream.EMPTY_LOG && !Member(s.groups, e.serial, e.addr)))
  }

  lemma TurnFollows(s: State, t: Turn, e: LogEntry)
    requires Owned(s.groups) && HasLog(Turned(s, t).groups, e)
    ensures Follows(s, t, e)
  {
    var c' :| HasConn(Turned(s, t).groups, e.serial, c') && c'.addr == e.addr && c'.recvLog == e.log;
    ConnTurn(s, t, e.serial, c');
    if c :| HasConn(s.groups, e.serial, c) && Became(s, t, c, c') {
      assert HasLog(s.groups, e.(log := c.recvLog));
      if IsData(s, t, e.addr) {
        DataBatches(s, t, e.serial, c);
      } else {
        OtherBatches(s, t, e.addr);
      }
    } else {
      OtherBatches(s, t, e.addr);
    }
  }

  // ---- every run --------------------------------------------------------------------------------------------

  lemma {:induction false} NothingBefore(turns: seq<Turn>, serial: nat, a: Address)
    requires !Member(StateAfter(turns).groups, serial, a)
    ensures Data(turns, serial, a) == [] && Acked(turns, serial, a) == []
  {
  }

  ghost predicate StreamHolds(turns: seq<Turn>, e: LogEntry) {
    && 0 <= e.log.index < AckStream.RECV_ACK_INT
    && Flatten(Acked(turns, e.serial, e.addr)) + e.log.log[..e.log.index] == Data(turns, e.serial, e.addr)
  }

  lemma LogMember(gs: seq<Group>, e: LogEntry)
    requires HasLog(gs, e)
    ensures Member(gs, e.serial, e.addr)
  {
  }

  /** One more turn. */
  lemma StreamTurn(turns: seq<Turn>, t: Turn, e: LogEntry)
    requires HasLog(StateAfter(turns + [t]).groups, e) && Follows(StateAfter(turns), t, e)
    requires forall d :: HasLog(StateAfter(turns).groups, d) ==> StreamHolds(turns, d)
    ensures StreamHolds(turns + [t], e)
  {
    var s := StateAfter(turns);
    var acked, data := Acked(turns, e.serial, e.addr), Data(turns, e.serial, e.addr);
    Unappend(turns, t);
    LogMember(StateAfter(turns + [t]).groups, e);
    if IsData(s, t, e.addr) {
      var sn := SequenceNumber(t.event.buf);
      var log :| HasLog(s.groups, e.(log := log)) && e.log == AckStream.Register(log, sn)
                 && BatchesTo(SentIn(s, t), e.addr) == AckStream.Completed(log, sn);
      assert StreamHolds(turns, e.(log := log));
      AckStream.StreamStep(log, acked, data, sn);
    } else {
      AppendNothing(acked);
      AppendNothing(data);
      if !HasLog(s.groups, e) {
        NothingBefore(turns, e.serial, e.addr);
      }
    }
  }

  lemma {:induction false} StreamOnTurns(turns: seq<Turn>, e: LogEntry)
    requires Ordered(turns) && HasLog(StateAfter(turns).groups, e)
    ensures StreamHolds(turns, e)
    decreases |turns|
  {
    if turns != [] {
      var init, t := turns[..|turns| - 1], turns[|turns| - 1];
      SplitLast(turns);
      TurnsInv(init);
      TurnFollows(StateAfter(init), t, e);
      forall d | HasLog(StateAfter(init).groups, d) ensures StreamHolds(init, d) {
        StreamOnTurns(init, d);
      }
      StreamTurn(init, t, e);
    }
  }

  /** In every reachable state and for every live connection: the batches of the
      ACK packets sent to it since it joined, followed by the pending part of its
      log, are the sequence numbers of its data packets, in order, each once. */
  lemma AckStreamOnRun(s: State, its: seq<Iteration>, events: seq<Event>, ts: int, i: nat, k: nat)
    requires Reached(s, its, events, ts) && i < |s.groups| && k < |s.groups[i].conns|
    ensures var turns, g, c := TurnsUpTo(its, events, ts), s.groups[i], s.groups[i].conns[k];
            && 0 <= c.recvLog.index < AckStream.RECV_ACK_INT
            && Flatten(Acked(turns, g.serial, c.addr)) + c.recvLog.log[..c.recvLog.index]
               == Data(turns, g.serial, c.addr)
  {
    ReachedAsTurns(s, its, events, ts);
    var g := s.groups[i];
    assert InGroup(g, g.conns[k]);
    assert HasConn(s.groups, g.serial, g.conns[k]);
    StreamOnTurns(TurnsUpTo(its, events, ts), LogEntry(g.serial, g.conns[k].addr, g.conns[k].recvLog));
  }
}
