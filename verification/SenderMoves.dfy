/**
  What one more event does to every link, on every run of the sender: the links
  before and after it, compared in numbers.
 */
module SenderMoves {
  import opened SenderLinks

  // ---- what a link shows ---------------------------------------------------------

  /** How long ago slot j of the ring of 256 was written, in packets: idx - 1 was last,
      and the slots from idx on were written in the round before. */
  function Age(idx: nat, j: nat): int {
    if j < idx then idx - j else idx + 256 - j
  }

  /** Slot `slot` is visible and holds x, and no visible slot that was written later
      does. */
  ghost predicate Newest(l: Link, x: int, slot: int)
    requires Shaped(l)
  {
    && 0 <= slot < 256 && slot != l.idx && l.log[slot] == x
    && forall j :: 0 <= j < 256 && j != l.idx && Age(l.idx, j) < Age(l.idx, slot) ==> l.log[j] != x
  }

  lemma SlotOfAge(idx: nat, j: nat)
    requires idx < 256 && j < 256
    ensures Slot(idx, Age(idx, j)) == j
  {
  }

  lemma AgeOfSlot(idx: nat, k: nat)
    requires idx < 256 && 1 <= k < 256
    ensures Age(idx, Slot(idx, k)) == k
  {
  }

  lemma {:induction false} FindIsNewest(l: Link, x: int, from: nat)
    requires Shaped(l) && 1 <= from <= LOG_SIZE && Find(l, x, from) >= 0
    requires forall j :: 0 <= j < 256 && j != l.idx && Age(l.idx, j) < from ==> l.log[j] != x
    ensures Newest(l, x, Find(l, x, from))
    decreases LOG_SIZE - from
  {
    if from < LOG_SIZE {
      AgeOfSlot(l.idx, from);
      if l.log[Slot(l.idx, from)] != x {
        forall j: nat | j < 256 && j != l.idx && Age(l.idx, j) < from + 1 ensures l.log[j] != x {
          SlotOfAge(l.idx, j);
        }
        FindIsNewest(l, x, from + 1);
      }
    }
  }

  lemma FoundNewest(l: Link, x: int)
    requires Shaped(l)
    ensures Find(l, x) >= 0 <==> Holds(l, x)
    ensures Find(l, x) >= 0 ==> Newest(l, x, Find(l, x))
  {
    FindIffHolds(l, x);
    if Find(l, x) >= 0 {
      FindIsNewest(l, x, 1);
    }
  }

  /** Link i is the first that shows x. */
  ghost predicate FirstToHold(ls: seq<Link>, x: int, i: nat)
    requires Ready(ls) && i < |ls|
  {
    Holds(ls[i], x) && forall j :: 0 <= j < i ==> !Holds(ls[j], x)
  }

  lemma FirstHitIff(ls: seq<Link>, x: int, i: nat)
    requires Ready(ls) && i < |ls|
    ensures FirstHit(ls, x) == i <==> FirstToHold(ls, x, i)
  {
    forall j | 0 <= j < |ls| ensures Find(ls[j], x) >= 0 <==> Holds(ls[j], x) {
      FindIffHolds(ls[j], x);
    }
  }

  /** The newest entry x of the log is struck out. */
  ghost predicate Struck(l: Link, r: Link, x: int)
    requires Shaped(l)
  {
    exists slot :: Newest(l, x, slot) && r.log == l.log[slot := -1]
  }

  /** One more event does to link i what its action does. */
  lemma RunStep(n: nat, evs: seq<Event>, ev: Event, i: nat)
    requires i < n
    ensures var ls := Run(n, evs).links; Run(n, evs + [ev]).links[i] == Do(ls[i], ActionOn(ls, ev, i))
  {
    RunSnoc(n, evs, ev);
  }

  // ---- a NAK -------------------------------------------------------------------------

  /** The window falls by 100, or to 1000 if that is higher, and the number is struck
      out but stays in flight; if this is not the first link that shows it, nothing
      changes. */
  ghost predicate NakMove(l: Link, r: Link, p: int, first: bool)
    requires Shaped(l)
  {
    if !first then r == l
    else && r.window == (if l.window >= 1100 then l.window - 100 else 1000)
         && Struck(l, r, p)
         && r == l.(window := r.window, log := r.log)
  }

  lemma NakMoved(l: Link, p: int)
    requires Shaped(l)
    ensures NakMove(l, Do(l, NakAction(l, p, true)), p, Holds(l, p))
  {
    FoundNewest(l, p);
  }

  /** One more NAK, on every run. */
  lemma NakMoves(n: nat, evs: seq<Event>, p: int, i: nat)
    requires i < n
    ensures var ls := Run(n, evs).links;
            NakMove(ls[i], Run(n, evs + [Nak(p)]).links[i], p, FirstToHold(ls, p, i))
  {
    RunStep(n, evs, Nak(p), i);
    FirstHitIff(Run(n, evs).links, p, i);
    NakMoved(Run(n, evs).links[i], p);
  }

  // ---- an SRTLA ACK --------------------------------------------------------------------

  /** One more, up to 60000, if something was received since the link was reset. */
  function Slowly(l: Link, window: int): int {
    if l.lastRcvd == 0 then window else if window + 1 < 60000 then window + 1 else 60000
  }

  /** The window of a live link rises by 1, up to 60000.  On the first link that
      shows the number, it is struck out, one packet less is in flight if one was,
      and the window rises by 29 more exactly if 1000 times what is left in flight
      exceeds it. */
  ghost predicate AckMove(l: Link, r: Link, ack: int, first: bool)
    requires Shaped(l)
  {
    if !first then r == l.(window := Slowly(l, l.window))
    else && r.inFlight == (if l.inFlight == 0 then 0 else l.inFlight - 1)
         && r.window == Slowly(l, l.window + if 1000 * r.inFlight > l.window then 29 else 0)
         && Struck(l, r, ack)
         && r == l.(window := r.window, inFlight := r.inFlight, log := r.log)
  }

  lemma AckMoved(l: Link, ack: int, first: bool)
    requires ReadyLink(l)
    ensures AckMove(l, Do(l, AckAction(l, ack, first)), ack, first && Holds(l, ack))
  {
    FoundNewest(l, ack);
  }

  /** One more SRTLA ACK, on every run. */
  lemma AckMoves(n: nat, evs: seq<Event>, ack: int, i: nat)
    requires i < n
    ensures var ls := Run(n, evs).links;
            AckMove(ls[i], Run(n, evs + [Ack(ack)]).links[i], ack, FirstToHold(ls, ack, i))
  {
    RunStep(n, evs, Ack(ack), i);
    FirstHitIff(Run(n, evs).links, ack, i);
    AckMoved(Run(n, evs).links[i], ack, FirstToHold(Run(n, evs).links, ack, i));
  }

  // ---- an SRT ACK -----------------------------------------------------------------------

  /** Every visible number below the ACK is struck out, and as many packets are in
      flight as visible slots have a number from it on. */
  ghost predicate SrtAckMove(l: Link, r: Link, ack: int)
    requires Shaped(l)
  {
    && |r.log| == 256
    && (forall k :: 0 <= k < 256 ==> r.log[k] == if k != l.idx && l.log[k] < ack then -1 else l.log[k])
    && r.inFlight == |set k | 0 <= k < 256 && k != l.idx && l.log[k] >= ack|
    && r == l.(inFlight := r.inFlight, log := r.log)
  }

  /** One more SRT ACK, on every run and every link. */
  lemma SrtAckMoves(n: nat, evs: seq<Event>, ack: int, i: nat)
    requires i < n
    ensures SrtAckMove(Run(n, evs).links[i], Run(n, evs + [CumulativeAck(ack)]).links[i], ack)
  {
    RunStep(n, evs, CumulativeAck(ack), i);
  }

  // ---- a packet to send -------------------------------------------------------------------

  /** Something was received on the link in the last 4 seconds. */
  predicate Usable(l: Link, now: int) {
    now <= l.lastRcvd + 4
  }

  /** Link i is the first of the usable links with the largest share of its window
      for each packet in flight and the one to send. */
  ghost predicate FirstBest(ls: seq<Link>, now: int, i: nat)
    requires Ready(ls) && i < |ls|
  {
    && Usable(ls[i], now)
    && forall j :: 0 <= j < |ls| && Usable(ls[j], now) ==>
         var mine, other := ls[i].window / (ls[i].inFlight + 1), ls[j].window / (ls[j].inFlight + 1);
         if j < i then other < mine else other <= mine
  }

  lemma ChosenIff(ls: seq<Link>, now: int, i: nat)
    requires Ready(ls) && i < |ls|
    ensures Choose(ls, now) == i <==> FirstBest(ls, now, i)
  {
    ChoosesFirstBest(ls, now);
    var r := Choose(ls, now);
    if FirstBest(ls, now, i) {
      assert !TimedOut(ls[i], now);
    }
  }

  /** The chosen link logs a data packet in the slot that was not visible and has one
      more in flight; a control packet is just sent; and a link that cannot send is
      not usable until something is received on it again.  Other links stay. */
  ghost predicate SendMove(l: Link, r: Link, now: int, sn: int, sent: bool, chosen: bool)
    requires Shaped(l)
  {
    if !chosen then r == l
    else if !sent then r == l.(lastSent := now, lastRcvd := 1)
    else if sn < 0 then r == l.(lastSent := now)
    else && r.idx == (if l.idx == 255 then 0 else l.idx + 1)
         && r == l.(lastSent := now, log := l.log[l.idx := sn], idx := r.idx, inFlight := l.inFlight + 1)
  }

  lemma SendMoved(l: Link, now: int, sn: int, sent: bool)
    requires Shaped(l)
    ensures SendMove(l, Do(l, SendAction(now, sn, sent)), now, sn, sent, true)
    ensures SendMove(l, Do(l, Idle), now, sn, sent, false)
  {
  }

  /** One more packet, on every run. */
  lemma SendMoves(n: nat, evs: seq<Event>, now: int, sn: int, sent: bool, i: nat)
    requires i < n
    ensures var ls := Run(n, evs).links;
            SendMove(ls[i], Run(n, evs + [Send(now, sn, sent)]).links[i], now, sn, sent, FirstBest(ls, now, i))
  {
    RunStep(n, evs, Send(now, sn, sent), i);
    ChosenIff(Run(n, evs).links, now, i);
    SendMoved(Run(n, evs).links[i], now, sn, sent);
  }

  // ---- the rest --------------------------------------------------------------------------------

  lemma ReceivedMoves(n: nat, evs: seq<Event>, link: nat, now: int, i: nat)
    requires i < n
    ensures var l, r := Run(n, evs).links[i], Run(n, evs + [Received(link, now)]).links[i];
            r == if i == link then l.(lastRcvd := now) else l
  {
    RunStep(n, evs, Received(link, now), i);
  }

  /** A link without a socket gets one or not.  One that was heard of, but not in the
      last 4 seconds, is reset: its window becomes 1000, nothing is in flight, its log
      is empty and it counts as never heard of.  Any other link stays. */
  ghost predicate HousekeepingMove(l: Link, r: Link, now: int, reopened: bool) {
    if !l.open then r == l.(open := reopened)
    else if l.lastRcvd > 0 && !Usable(l, now) then
      && r.window == 1000 && r.inFlight == 0 && r.lastRcvd == 0 && r.lastSent == 0 && r.open && r.idx == l.idx
      && |r.log| == 256 && forall k :: 0 <= k < 256 ==> r.log[k] == -1
    else r == l
  }

  lemma HousekeepingMoved(l: Link, now: int, reopened: bool)
    requires Shaped(l)
    ensures HousekeepingMove(l, Do(l, HousekeepingAction(l, now, reopened)), now, reopened)
  {
  }

  /** One more pass of the housekeeping, on every run. */
  lemma HousekeepingMoves(n: nat, evs: seq<Event>, now: int, reopened: seq<bool>, i: nat)
    requires i < n
    ensures HousekeepingMove(Run(n, evs).links[i], Run(n, evs + [Housekeeping(now, reopened)]).links[i],
                             now, i < |reopened| && reopened[i])
  {
    RunStep(n, evs, Housekeeping(now, reopened), i);
    HousekeepingMoved(Run(n, evs).links[i], now, i < |reopened| && reopened[i]);
  }

  /** At the start every link has a window of 20000, nothing in flight and zeros in
      its log. */
  lemma StartLinks(n: nat, i: nat)
    requires i < n
    ensures var l := Run(n, []).links[i];
            && l.window == 20000 && l.inFlight == 0 && l.lastRcvd == 0 && l.lastSent == 0 && !l.open && l.idx == 0
            && |l.log| == 256 && forall k :: 0 <= k < 256 ==> l.log[k] == 0
  {
  }
}
