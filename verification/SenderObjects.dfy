/** The sender's link list as mutable objects (src/sender.cpp), proved to carry
    out the events of `SenderLinks`. */
module SenderObjects {
  import opened Bytes
  import opened SenderLinks
  import opened SenderMoves
  import AckStream

  /** get_pkt_idx. */
  function PacketIndex(idx: int, increment: int): (i: int)
    requires 0 <= idx < LOG_SIZE && -LOG_SIZE <= increment <= LOG_SIZE
    ensures 0 <= i < LOG_SIZE
  {
    var i := idx + increment;
    (if i < 0 then i + LOG_SIZE else i) % LOG_SIZE
  }

  lemma PreviousSlot(idx: nat, k: nat)
    requires idx < LOG_SIZE && k < LOG_SIZE
    ensures PacketIndex(Slot(idx, k), -1) == Slot(idx, k + 1)
  {
  }

  /** How far back from `idx` a slot lies: the inverse of Slot. */
  function Back(idx: nat, slot: nat): (k: nat)
    requires idx < LOG_SIZE && slot < LOG_SIZE
    ensures k < LOG_SIZE && Slot(idx, k) == slot
  {
    (idx + LOG_SIZE - slot) % LOG_SIZE
  }

  lemma BackOfSlot(idx: nat, k: nat)
    requires idx < LOG_SIZE && k < LOG_SIZE
    ensures Back(idx, Slot(idx, k)) == k
  {
  }

  /** The log and the counted slots when the SRT ACK scan has done k - 1 slots. */
  ghost function PurgedUpTo(l: Link, ack: int, k: nat): seq<int>
    requires Shaped(l)
  {
    seq(LOG_SIZE, i requires 0 <= i < LOG_SIZE =>
      if i != l.idx && Back(l.idx, i) < k && l.log[i] < ack then -1 else l.log[i])
  }

  ghost function CountedUpTo(l: Link, ack: int, k: nat): set<int>
    requires Shaped(l)
  {
    set i | 0 <= i < LOG_SIZE && i != l.idx && Back(l.idx, i) < k && l.log[i] >= ack
  }

  lemma PurgeStep(l: Link, ack: int, k: nat)
    requires Shaped(l) && 1 <= k < LOG_SIZE
    ensures var i := Slot(l.idx, k);
            && PurgedUpTo(l, ack, k)[i] == l.log[i]
            && PurgedUpTo(l, ack, k + 1)
               == if l.log[i] < ack then PurgedUpTo(l, ack, k)[i := -1] else PurgedUpTo(l, ack, k)
  {
    BackOfSlot(l.idx, k);
  }

  lemma CountStep(l: Link, ack: int, k: nat)
    requires Shaped(l) && 1 <= k < LOG_SIZE
    ensures var i := Slot(l.idx, k);
            |CountedUpTo(l, ack, k + 1)| == |CountedUpTo(l, ack, k)| + if l.log[i] < ack then 0 else 1
  {
    var i := Slot(l.idx, k);
    BackOfSlot(l.idx, k);
    assert CountedUpTo(l, ack, k + 1)
        == CountedUpTo(l, ack, k) + if l.log[i] < ack then {} else {i};
  }

  lemma ScanEnds(l: Link, ack: int)
    requires Shaped(l)
    ensures PurgedUpTo(l, ack, 1) == l.log && CountedUpTo(l, ack, 1) == {}
    ensures PurgedUpTo(l, ack, LOG_SIZE) == Purged(l, ack)
    ensures CountedUpTo(l, ack, LOG_SIZE) == AtLeast(l, ack)
  {
    forall i: nat | i < LOG_SIZE && i != l.idx ensures Back(l.idx, i) >= 1 {}
  }

  class Conn {
    var open: bool
    var lastRcvd: int
    var lastSent: int
    var inFlight: int
    var window: int
    var pktIdx: nat
    const pktLog: array<int>

    ghost predicate Valid()
      reads this
    {
      pktLog.Length == LOG_SIZE && pktIdx < LOG_SIZE && inFlight >= 0 && window >= 0
    }

    ghost function View(): (l: Link)
      reads this, pktLog
    {
      Link(open, lastRcvd, lastSent, inFlight, window, pktIdx, pktLog[..])
    }

    constructor ()
      ensures Valid() && View() == NEW_LINK && fresh(pktLog)
    {
      open, lastRcvd, lastSent, inFlight, pktIdx := false, 0, 0, 0, 0;
      window := WINDOW_DEF;
      pktLog := new int[LOG_SIZE](_ => 0);
      new;
      assert pktLog[..] == NEW_LINK.log;
    }

    function CurrentScore(): (score: int)
      reads this, pktLog
      requires inFlight >= 0
      ensures score == Score(View())
    {
      window / (inFlight + 1)
    }

    /** reg_pkt. */
    method RegisterPacket(sn: int)
      requires Valid()
      modifies this`pktIdx, this`inFlight, pktLog
      ensures Valid()
      ensures View() == Do(old(View()), PickAndLog(lastSent, sn))
    {
      pktLog[pktIdx] := sn;
      pktIdx := pktIdx + 1;
      pktIdx := pktIdx % LOG_SIZE;
      inFlight := inFlight + 1;
    }

    /** The log scan shared by register_nak and register_srtla_ack. */
    method Lookup(x: int) returns (slot: int)
      requires Valid()
      ensures slot == Find(View(), x)
    {
      var i := PacketIndex(pktIdx, -1);
      ghost var k := 1;
      while i != pktIdx
        invariant 1 <= k <= LOG_SIZE && i == Slot(pktIdx, k)
        invariant Find(View(), x) == Find(View(), x, k)
        decreases LOG_SIZE - k
      {
        if pktLog[i] == x {
          return i;
        }
        PreviousSlot(pktIdx, k);
        i := PacketIndex(i, -1);
        k := k + 1;
      }
      return -1;
    }

    method StrikeNaked(slot: nat)
      requires Valid() && slot < LOG_SIZE && slot != pktIdx
      modifies this`window, pktLog
      ensures Valid()
      ensures View() == Do(old(View()), NakHit(slot))
    {
      pktLog[slot] := -1;
      window := window - WINDOW_DECR;
      window := Max(window, WINDOW_MIN);
    }

    method StrikeAcked(slot: nat)
      requires Valid() && slot < LOG_SIZE && slot != pktIdx
      modifies this`window, this`inFlight, pktLog
      ensures Valid()
      ensures View() == Acked(old(View()), slot)
    {
      if inFlight > 0 {
        inFlight := inFlight - 1;
      }
      pktLog[slot] := -1;
      if inFlight * WINDOW_MULT > window {
        window := window + WINDOW_INCR - 1;
      }
    }

    method GrowWindow()
      requires Valid()
      modifies this`window
      ensures Valid()
      ensures View() == Grown(old(View()))
    {
      if lastRcvd != 0 {
        window := window + 1;
        window := Min(window, WINDOW_MAX);
      }
    }

    /** The per-link part of handle_srt_data, once the link is chosen. */
    method SendOn(now: int, sn: int, sent: bool)
      requires Valid()
      modifies this, pktLog
      ensures Valid()
      ensures View() == Do(old(View()), SendAction(now, sn, sent))
      ensures SendMove(old(View()), View(), now, sn, sent, true)
    {
      SendMoved(View(), now, sn, sent);
      lastSent := now;
      if sent {
        if sn >= 0 {
          RegisterPacket(sn);
        }
      } else {
        lastRcvd := 1;
      }
    }

    method TryNak(packet: int) returns (hit: bool)
      requires Valid()
      modifies this, pktLog
      ensures Valid()
      ensures hit <==> Find(old(View()), packet) >= 0
      ensures View() == Do(old(View()), NakAction(old(View()), packet, true))
      ensures window == if !hit then old(window) else if old(window) >= 1100 then old(window) - 100 else 1000
      ensures inFlight == old(inFlight)
    {
      var slot := Lookup(packet);
      hit := slot >= 0;
      if hit {
        StrikeNaked(slot);
      }
    }

    method TryAck(ack: int, found: bool) returns (found': bool)
      requires Valid()
      modifies this, pktLog
      ensures Valid()
      ensures found' <==> found || Find(old(View()), ack) >= 0
      ensures View() == Do(old(View()), AckAction(old(View()), ack, !found))
      ensures inFlight == if found == found' || old(inFlight) == 0 then old(inFlight) else old(inFlight) - 1
      ensures window == Slowly(old(View()),
                               old(window) + if found != found' && 1000 * inFlight > old(window) then 29 else 0)
    {
      found' := found;
      if !found {
        var slot := Lookup(ack);
        if slot >= 0 {
          found' := true;
          StrikeAcked(slot);
        }
      }
      GrowWindow();
    }

    /** The reset of a link that connection_housekeeping finds timed out. */
    method ResetLink()
      requires Valid()
      modifies this`lastRcvd, this`lastSent, this`window, this`inFlight, pktLog
      ensures Valid()
      ensures View() == Do(old(View()), Reset)
    {
      lastRcvd := 0;
      lastSent := 0;
      window := WINDOW_MIN;
      inFlight := 0;
      for i := 0 to LOG_SIZE
        modifies pktLog
        invariant forall j :: 0 <= j < i ==> pktLog[j] == -1
      {
        pktLog[i] := -1;
      }
      assert pktLog[..] == seq(LOG_SIZE, _ => -1);
    }

    method HousekeepLink(now: int, reopened: bool)
      requires Valid()
      modifies this, pktLog
      ensures Valid()
      ensures View() == Do(old(View()), HousekeepingAction(old(View()), now, reopened))
      ensures HousekeepingMove(old(View()), View(), now, reopened)
    {
      HousekeepingMoved(View(), now, reopened);
      if !open {
        open := reopened;
      } else if lastRcvd + CONN_TIMEOUT < now {
        if lastRcvd > 0 {
          ResetLink();
        }
      }
    }

    /** One step of the SRT ACK scan, the k-th from the newest entry back. */
    method ScanSlot(i: nat, ack: int, ghost was: Link, ghost k: nat) returns (counted: nat)
      requires pktLog.Length == LOG_SIZE && Shaped(was) && 1 <= k < LOG_SIZE && i == Slot(was.idx, k)
      requires pktLog[..] == PurgedUpTo(was, ack, k)
      modifies pktLog
      ensures pktLog[..] == PurgedUpTo(was, ack, k + 1)
      ensures |CountedUpTo(was, ack, k + 1)| == |CountedUpTo(was, ack, k)| + counted
    {
      PurgeStep(was, ack, k);
      CountStep(was, ack, k);
      counted := 0;
      if pktLog[i] < ack {
        pktLog[i] := -1;
      } else {
        counted := 1;
      }
    }

    /** conn_register_srt_ack. */
    method RegisterSrtAck(ack: int)
      requires Valid()
      modifies this`inFlight, pktLog
      ensures Valid()
      ensures View() == Do(old(View()), SrtAck(ack))
      ensures SrtAckMove(old(View()), View(), ack)
    {
      ghost var was := View();
      var count := 0;
      var i := PacketIndex(pktIdx, -1);
      ghost var k := 1;
      ScanEnds(was, ack);
      while i != pktIdx
        invariant 1 <= k <= LOG_SIZE && i == Slot(pktIdx, k)
        invariant pktLog[..] == PurgedUpTo(was, ack, k)
        invariant count == |CountedUpTo(was, ack, k)|
        decreases LOG_SIZE - k
      {
        var counted := ScanSlot(i, ack, was, k);
        count := count + counted;
        PreviousSlot(pktIdx, k);
        i := PacketIndex(i, -1);
        k := k + 1;
      }
      inFlight := count;
    }
  }

  // ---- packets from the receiver ---------------------------------------------

  /** Every range of a loss list has an end, and it is below 2^31 - 1, so that the
      signed loop counter can pass it (section 3.2.5 of draft-sharabayko-srt). */
  predicate WellFormedLosses(ws: seq<int>, i: nat := 0)
    decreases |ws| - i
  {
    i >= |ws|
    || (ws[i] < MAX_SN && WellFormedLosses(ws, i + 1))
    || (ws[i] >= MAX_SN && i + 1 < |ws| && ws[i + 1] < MAX_SN - 1 && WellFormedLosses(ws, i + 2))
  }

  function Interval(lo: int, hi: int): seq<Event>
    decreases hi - lo
  {
    if lo > hi then [] else [Nak(lo)] + Interval(lo + 1, hi)
  }

  /** The numbers a loss list names, ranges spelled out, as events. */
  function Losses(ws: seq<int>, i: nat := 0): seq<Event>
    decreases |ws| - i
  {
    if i >= |ws| then []
    else if ws[i] < MAX_SN then [Nak(ws[i])] + Losses(ws, i + 1)
    else if i + 1 >= |ws| then []
    else Interval(ws[i] - MAX_SN, ws[i + 1]) + Losses(ws, i + 2)
  }

  function Acks(ids: seq<int>): (evs: seq<Event>)
    ensures |evs| == |ids| && forall i :: 0 <= i < |ids| ==> evs[i] == Ack(Signed32(ids[i]))
  {
    seq(|ids|, i requires 0 <= i < |ids| => Ack(Signed32(ids[i])))
  }

  predicate WellFormed(packet: seq<Byte>) {
    && (PacketType(packet) == SRT_TYPE_ACK ==> |packet| >= 20)
    && (PacketType(packet) == SRT_TYPE_NAK ==> WellFormedLosses(WordsFrom(packet, 4)))
  }

  /** Nothing was read, or the packet belongs to the registration of a group. */
  predicate Bypasses(packet: seq<Byte>) {
    packet == [] || PacketType(packet) == SRTLA_TYPE_REG_NGP || PacketType(packet) == SRTLA_TYPE_REG2
  }

  function FeedbackTail(packet: seq<Byte>): seq<Event>
    requires WellFormed(packet)
  {
    if PacketType(packet) == SRT_TYPE_ACK then [CumulativeAck(Signed32(ReadBe32(packet, 16)))]
    else if PacketType(packet) == SRT_TYPE_NAK then Losses(WordsFrom(packet, 4))
    else if PacketType(packet) == SRTLA_TYPE_ACK then Acks(WordsFrom(packet, 1))
    else []
  }

  /** What a packet that arrives on a link does to the links. */
  function Feedback(link: nat, now: int, packet: seq<Byte>): seq<Event>
    requires WellFormed(packet)
  {
    if Bypasses(packet) then [] else [Received(link, now)] + FeedbackTail(packet)
  }

  lemma JoinLosses(a: seq<Event>, ws: seq<int>, i: nat)
    requires i < |ws| && WellFormedLosses(ws, i)
    ensures ws[i] < MAX_SN ==>
              WellFormedLosses(ws, i + 1) && a + Losses(ws, i) == a + [Nak(ws[i])] + Losses(ws, i + 1)
    ensures ws[i] >= MAX_SN ==>
              && i + 1 < |ws| && WellFormedLosses(ws, i + 2)
              && a + Losses(ws, i) == a + Interval(ws[i] - MAX_SN, ws[i + 1]) + Losses(ws, i + 2)
  {
  }

  lemma JoinEvents(a: seq<Event>, b: seq<Event>, c: seq<Event>)
    ensures a + b + c == a + (b + c)
    ensures b == [] ==> a + b == a
  {
  }

  /** The links after a sequence of events. */
  ghost function After(ls: seq<Link>, evs: seq<Event>): (r: seq<Link>)
    requires Ready(ls)
    ensures Ready(r) && |r| == |ls|
  {
    if evs == [] then ls
    else
      var before := After(ls, evs[..|evs| - 1]);
      StepReady(before, evs[|evs| - 1]);
      Step(before, evs[|evs| - 1])
  }

  lemma AfterSnoc(ls: seq<Link>, evs: seq<Event>, ev: Event)
    requires Ready(ls)
    ensures After(ls, evs + [ev]) == Step(After(ls, evs), ev)
  {
    assert (evs + [ev])[..|evs|] == evs;
  }

  /** A history from fresh links is a run of `SenderLinks`. */
  lemma {:induction false} AfterIsRun(n: nat, evs: seq<Event>)
    ensures Ready(Fresh(n)) && After(Fresh(n), evs) == Run(n, evs).links
    decreases |evs|
  {
    if evs != [] {
      AfterIsRun(n, evs[..|evs| - 1]);
    }
  }

  lemma AckGoal(ls: seq<Link>, ack: int, i: nat, found: bool)
    requires Ready(ls) && i < |ls| && (found <==> 0 <= FirstHit(ls, ack) < i)
    ensures Step(ls, Ack(ack))[i] == Do(ls[i], AckAction(ls[i], ack, !found))
    ensures found || Find(ls[i], ack) >= 0 <==> 0 <= FirstHit(ls, ack) < i + 1
  {
    assert Slots(ls, ack)[i] == Find(ls[i], ack);
  }

  lemma AckPacketType(log: seq<int>)
    requires forall i :: 0 <= i < |log| ==> 0 <= log[i] < MAX_SN
    ensures PacketType(AckStream.EncodeAck(log)) == SRTLA_TYPE_ACK
  {
  }

  lemma AckFeedback(packet: seq<Byte>, link: nat, now: int, log: seq<int>)
    requires PacketType(packet) == SRTLA_TYPE_ACK && WordsFrom(packet, 1) == log
    requires forall i :: 0 <= i < |log| ==> 0 <= log[i] < MAX_SN
    ensures WellFormed(packet)
    ensures Feedback(link, now, packet) == [Received(link, now)] + Acks(log)
    ensures forall i :: 0 <= i < |log| ==> Acks(log)[i] == Ack(log[i])
  {
  }

  /** An SRTLA ACK packet built by the receiver is, to the sender, one
      acknowledgement for each number of the batch, in order. */
  lemma AckPacketAcks(log: seq<int>, link: nat, now: int)
    requires forall i :: 0 <= i < |log| ==> 0 <= log[i] < MAX_SN
    ensures WellFormed(AckStream.EncodeAck(log))
    ensures Feedback(link, now, AckStream.EncodeAck(log)) == [Received(link, now)] + Acks(log)
    ensures forall i :: 0 <= i < |log| ==> Acks(log)[i] == Ack(log[i])
  {
    AckStream.AckRoundTrip(log);
    AckPacketType(log);
    AckFeedback(AckStream.EncodeAck(log), link, now, log);
  }

  class Sender {
    const conns: seq<Conn>             // fixed while update_conns is not called
    ghost var links: seq<Link>         // their contents
    ghost const start: seq<Link>       // the links when the sender started
    ghost var history: seq<Event>      // the events since then

    ghost const repr: set<object>      // the links and their logs

    ghost predicate Separate() {
      && this !in repr
      && (forall i :: 0 <= i < |conns| ==> conns[i] in repr && conns[i].pktLog in repr)
      && forall i, j :: 0 <= i < j < |conns| ==> conns[i] != conns[j] && conns[i].pktLog != conns[j].pktLog
    }

    /** The links show the first k of `ls` and the others of `ls'`. */
    ghost predicate ShowsMixed(ls: seq<Link>, ls': seq<Link>, k: int)
      requires Separate()
      reads repr
    {
      |ls| == |ls'| == |conns|
      && forall i :: 0 <= i < |ls| ==> conns[i].Valid() && conns[i].View() == if i < k then ls[i] else ls'[i]
    }

    /** The links show `ls`. */
    ghost predicate Shows(ls: seq<Link>)
      requires Separate()
      reads repr
    {
      |ls| == |conns| && forall i :: 0 <= i < |ls| ==> conns[i].Valid() && conns[i].View() == ls[i]
    }

    ghost predicate Valid()
      reads this, repr
    {
      Separate() && Shows(links)
    }

    /** The links are those that the recorded events lead to. */
    ghost predicate Faithful()
      reads this
    {
      Ready(start) && links == After(start, history)
    }

    /** setup_conns, for n source addresses. */
    constructor (n: nat)
      ensures Valid() && Faithful() && fresh(repr)
      ensures start == Fresh(n) && history == []
    {
      var list: seq<Conn> := [];
      ghost var owned: set<object> := {};
      for i := 0 to n
        invariant |list| == i && fresh(owned)
        invariant forall j :: 0 <= j < i ==> list[j] in owned && list[j].pktLog in owned
        invariant forall j :: 0 <= j < i ==> list[j].Valid() && list[j].View() == NEW_LINK
        invariant forall j, k :: 0 <= j < k < i ==> list[j] != list[k] && list[j].pktLog != list[k].pktLog
      {
        var c := new Conn();
        list := list + [c];
        owned := owned + {c, c.pktLog};
      }
      conns, links, start, history, repr := list, Fresh(n), Fresh(n), [], owned;
    }

    lemma ShownReady(ls: seq<Link>)
      requires Separate() && Shows(ls)
      ensures Ready(ls)
    {
    }

    /** select_conn, without the time stamp it leaves on the link. */
    method SelectConn(now: int) returns (best: int)
      requires Valid()
      ensures Ready(links) && best == Choose(links, now)
    {
      best := -1;
      var maxScore := -1;
      ShownReady(links);
      for i := 0 to |conns|
        invariant best == Choose(links[..i], now)
        invariant maxScore == BestScore(links[..i], now)
      {
        var c := conns[i];
        ChooseNext(links, i, now);
        if !(c.lastRcvd + CONN_TIMEOUT < now) {
          var score := c.CurrentScore();
          if score > maxScore {
            best := i;
            maxScore := score;
          }
        }
      }
      assert links[..|conns|] == links;
    }

    /** Notes an event whose effect the links already show. */
    ghost method Record(ev: Event)
      requires Faithful() && Ready(links) && Separate() && Shows(Step(links, ev))
      modifies this
      ensures Valid() && Faithful() && history == old(history) + [ev]
    {
      AfterSnoc(start, history, ev);
      links := Step(links, ev);
      history := history + [ev];
    }

    /** handle_srt_data: choose a link, send the packet on it, log its number. */
    method HandleSrtData(now: int, sn: int, sent: bool)
      requires Valid() && Faithful()
      modifies this, repr
      ensures Valid() && Faithful() && history == old(history) + [Send(now, sn, sent)]
    {
      ShownReady(links);
      SendStep(links, now, sn, sent);
      var j := SelectConn(now);
      if j >= 0 {
        conns[j].SendOn(now, sn, sent);
      }
      Record(Send(now, sn, sent));
    }

    /** register_nak. */
    method RegisterNak(packet: int)
      requires Valid() && Faithful()
      modifies this, repr
      ensures Valid() && Faithful() && history == old(history) + [Nak(packet)]
    {
      ShownReady(links);
      NakStep(links, packet);
      ghost var goal, hits := Step(links, Nak(packet)), Slots(links, packet);
      for i := 0 to |conns|
        modifies repr
        invariant Shows(links)
        invariant forall j :: 0 <= j < i ==> hits[j] < 0
      {
        var hit := conns[i].TryNak(packet);
        if hit {
          assert goal[i] == conns[i].View();
          break;
        }
      }
      Record(Nak(packet));
    }

    /** register_srtla_ack. */
    method RegisterSrtlaAck(ack: int)
      requires Valid() && Faithful()
      modifies this, repr
      ensures Valid() && Faithful() && history == old(history) + [Ack(ack)]
    {
      ShownReady(links);
      ghost var goal, first := Step(links, Ack(ack)), FirstHit(links, ack);
      var found := false;
      for i := 0 to |conns|
        modifies repr
        invariant found <==> 0 <= first < i
        invariant ShowsMixed(goal, links, i)
      {
        AckGoal(links, ack, i, found);
        found := conns[i].TryAck(ack, found);
      }
      Record(Ack(ack));
    }

    /** register_srt_ack. */
    method RegisterSrtAck(ack: int)
      requires Valid() && Faithful()
      modifies this, repr
      ensures Valid() && Faithful() && history == old(history) + [CumulativeAck(ack)]
    {
      ShownReady(links);
      ghost var goal := Step(links, CumulativeAck(ack));
      for i := 0 to |conns|
        modifies repr
        invariant ShowsMixed(goal, links, i)
      {
        conns[i].RegisterSrtAck(ack);
      }
      Record(CumulativeAck(ack));
    }

    /** The link loop of connection_housekeeping: reopen, reset or leave alone. */
    method Housekeep(now: int, reopened: seq<bool>)
      requires Valid() && Faithful()
      modifies this, repr
      ensures Valid() && Faithful() && history == old(history) + [Housekeeping(now, reopened)]
    {
      ShownReady(links);
      ghost var goal := Step(links, Housekeeping(now, reopened));
      for i := 0 to |conns|
        modifies repr
        invariant ShowsMixed(goal, links, i)
      {
        assert goal[i] == Do(links[i], HousekeepingAction(links[i], now, i < |reopened| && reopened[i]));
        conns[i].HousekeepLink(now, i < |reopened| && reopened[i]);
      }
      Record(Housekeeping(now, reopened));
    }

    method TouchLink(link: nat, now: int)
      requires Valid() && Faithful() && link < |conns|
      modifies this, repr
      ensures Valid() && Faithful() && history == old(history) + [Received(link, now)]
    {
      ShownReady(links);
      conns[link].lastRcvd := now;
      Record(Received(link, now));
    }

    /** One range of a loss list. */
    method RegisterInterval(lo: int, hi: int)
      requires Valid() && Faithful()
      modifies this, repr
      ensures Valid() && Faithful() && history == old(history) + Interval(lo, hi)
    {
      ghost var past := history;
      var lost := lo;
      while lost <= hi
        invariant Valid() && Faithful()
        invariant history + Interval(lost, hi) == past + Interval(lo, hi)
        decreases hi - lost
      {
        JoinEvents(history, [Nak(lost)], Interval(lost + 1, hi));
        RegisterNak(lost);
        lost := lost + 1;
      }
    }

    /** One entry of a loss list: a number or a range. */
    method RegisterEntry(ws: seq<int>, i: nat) returns (next: nat)
      requires Valid() && Faithful() && i < |ws| && WellFormedLosses(ws, i)
      modifies this, repr
      ensures Valid() && Faithful() && i < next <= |ws| && WellFormedLosses(ws, next)
      ensures history + Losses(ws, next) == old(history) + Losses(ws, i)
    {
      JoinLosses(history, ws, i);
      if ws[i] >= MAX_SN {
        RegisterInterval(ws[i] - MAX_SN, ws[i + 1]);
        next := i + 2;
      } else {
        RegisterNak(ws[i]);
        next := i + 1;
      }
    }

    /** The NAK loop of handle_srtla_data. */
    method RegisterLosses(ws: seq<int>)
      requires Valid() && Faithful() && WellFormedLosses(ws)
      modifies this, repr
      ensures Valid() && Faithful() && history == old(history) + Losses(ws)
    {
      ghost var goal := history + Losses(ws);
      var i := 0;
      while i < |ws|
        invariant Valid() && Faithful() && i <= |ws| && WellFormedLosses(ws, i)
        invariant history + Losses(ws, i) == goal
      {
        i := RegisterEntry(ws, i);
      }
      assert history + [] == history;
    }

    /** The SRTLA ACK loop of handle_srtla_data. */
    method RegisterAcks(ids: seq<int>)
      requires Valid() && Faithful()
      modifies this, repr
      ensures Valid() && Faithful() && history == old(history) + Acks(ids)
    {
      ghost var past := history;
      for i := 0 to |ids|
        invariant Valid() && Faithful()
        invariant history == past + Acks(ids)[..i]
      {
        RegisterSrtlaAck(Signed32(ids[i]));
      }
    }

    /** handle_srtla_data, except for what it does about registrations. */
    method HandleFeedback(link: nat, now: int, packet: seq<Byte>)
      requires Valid() && Faithful() && link < |conns| && WellFormed(packet)
      modifies this, repr
      ensures Valid() && Faithful() && history == old(history) + Feedback(link, now, packet)
    {
      var t := PacketType(packet);
      if |packet| == 0 || t == SRTLA_TYPE_REG_NGP || t == SRTLA_TYPE_REG2 {
        return;
      }
      ghost var past, rest := history, FeedbackTail(packet);
      TouchLink(link, now);
      JoinEvents(past, [Received(link, now)], rest);
      if t == SRT_TYPE_ACK {
        RegisterSrtAck(Signed32(ReadBe32(packet, 16)));
      } else if t == SRT_TYPE_NAK {
        var ws := ReadWords(packet, 4);
        RegisterLosses(ws);
      } else if t == SRTLA_TYPE_ACK {
        var ids := ReadWords(packet, 1);
        RegisterAcks(ids);
      }
    }
  }

  /** So the objects of a running sender keep the account, and their windows. */
  lemma SenderAccounts(s: Sender, n: nat, i: nat)
    requires s.Valid() && s.Faithful() && s.start == Fresh(n) && i < n
    ensures i < |s.conns|
    ensures var c, b := s.conns[i], Run(n, s.history).ledgers[i];
            && 0 <= c.inFlight == |Live(c.View())| + b.nakHits + b.agedOut + b.stray
            && (AllPositive(s.history) ==> b.stray == 0)
            && (AllSteady(s.history) ==> WINDOW_MIN <= c.window <= WINDOW_MAX)
  {
    AfterIsRun(n, s.history);
    InFlightAccount(n, s.history, i);
    if AllPositive(s.history) {
      NoStrays(n, s.history, i);
    }
    if AllSteady(s.history) {
      WindowInRange(n, s.history, i);
    }
  }
}
