/** What one more step does to a sender that registers, on every run of the system. */
module HandshakeMoves {
  import opened Net
  import Seqs
  import opened ReceiverTypes
  import opened Receiver
  import opened Handshake

  lemma {:induction false} AfterSnoc(c: Config, acts: seq<Action>, a: Action)
    requires ValidConfig(c) && Enabled(c, AfterActions(c, acts), a)
    ensures AfterActions(c, acts + [a]) == Next(c, AfterActions(c, acts), a)
  {
    Seqs.Unappend(acts, a);
  }

  /** Nothing has changed but sender i, now r, and that it may have sent something. */
  ghost predicate OnlySender(y: System, y': System, i: nat, r: Registrant)
    requires i < |y.senders|
  {
    y' == y.(senders := y.senders[i := r], up := y'.up)
  }

  // ---- a tick -----------------------------------------------------------------------------------

  lemma {:induction false} NudgesExact(r: Registrant, links: seq<Address>, p: Uplink)
    ensures p in NudgeAll(r, links) <==> p.link in links && p in Nudge(r, p.link)
    decreases |links|
  {
    if links != [] {
      Seqs.SplitLast(links);
      NudgesExact(r, links[..|links| - 1], p);
    }
  }

  lemma SentExact(y: System, i: nat, result: (Registrant, seq<Uplink>), p: Uplink)
    requires i < |y.senders|
    ensures p in SenderMoved(y, i, result).up <==> p in y.up || p in result.1
  {
  }

  /** The tick forgets a pending registration exactly if its time is over.  On every
      link that is down it then sends REG2, if none is pending, and REG1 on the link on
      which one is; it sends nothing else. */
  ghost predicate TickMove(y: System, y': System, i: nat, now: int, dead: seq<Address>, alive: nat)
    requires i < |y.senders|
  {
    var r := y.senders[i];
    var pending := if now > r.timeout then NoLink else r.pending;
    && OnlySender(y, y', i, r.(pending := pending, active := alive))
    && forall p :: p in y'.up <==> || p in y.up
                                   || (p.link in dead && pending == NoLink && p.buf == EncodeReg2(r.id))
                                   || (p.link in dead && pending == OnLink(p.link) && p.buf == EncodeReg1(r.id))
  }

  lemma TickMoved(y: System, i: nat, now: int, dead: seq<Address>, alive: nat)
    requires i < |y.senders|
    ensures TickMove(y, SenderMoved(y, i, Housekept(y.senders[i], now, dead, alive)), i, now, dead, alive)
  {
    var result := Housekept(y.senders[i], now, dead, alive);
    forall p: Uplink
      ensures p in SenderMoved(y, i, result).up <==> p in y.up || (p.link in dead && p in Nudge(result.0, p.link))
    {
      SentExact(y, i, result, p);
      NudgesExact(result.0, dead, p);
    }
  }

  lemma TickMoves(c: Config, acts: seq<Action>, i: nat, now: int, dead: seq<Address>, alive: nat)
    requires ValidConfig(c) && Enabled(c, AfterActions(c, acts), SenderTick(i, now, dead, alive))
    ensures TickMove(AfterActions(c, acts), AfterActions(c, acts + [SenderTick(i, now, dead, alive)]),
                     i, now, dead, alive)
  {
    AfterSnoc(c, acts, SenderTick(i, now, dead, alive));
    TickMoved(AfterActions(c, acts), i, now, dead, alive);
  }

  // ---- replies -------------------------------------------------------------------------------------

  /** A REG_NGP makes the sender ask for a group, on the link it came from and for 4
      seconds, exactly if it has no active link and nothing pending, its time is over
      and it can send. */
  ghost predicate NgpMove(y: System, y': System, i: nat, link: Address, now: int, sendOk: bool)
    requires i < |y.senders|
  {
    var r := y.senders[i];
    if r.active == 0 && r.pending == NoLink && now > r.timeout && sendOk
    then && OnlySender(y, y', i, r.(pending := OnLink(link), timeout := now + 4))
         && y'.up == y.up + {Uplink(link, EncodeReg1(r.id))}
    else y' == y
  }

  lemma NgpMoved(y: System, i: nat, link: Address, now: int, sendOk: bool)
    requires i < |y.senders|
    ensures NgpMove(y, SenderMoved(y, i, OnNgp(y.senders[i], link, now, sendOk)), i, link, now, sendOk)
  {
    assert SentSet([]) == {};
    var p := Uplink(link, EncodeReg1(y.senders[i].id));
    assert [p][0] == p;
    assert SentSet([p]) == {p};
  }

  lemma NgpMoves(c: Config, acts: seq<Action>, link: Address, now: int, sendOk: bool)
    requires ValidConfig(c) && Enabled(c, AfterActions(c, acts), DeliverNgp(link, now, sendOk))
    ensures NgpMove(AfterActions(c, acts), AfterActions(c, acts + [DeliverNgp(link, now, sendOk)]),
                    c.owner[link], link, now, sendOk)
  {
    AfterSnoc(c, acts, DeliverNgp(link, now, sendOk));
    NgpMoved(AfterActions(c, acts), c.owner[link], link, now, sendOk);
  }

  /** A REG2 makes the sender take its id and register all its links with it exactly
      if it waits for one on this link and the first 128 bytes are those it has. */
  ghost predicate Reg2Move(y: System, y': System, i: nat, link: Address, id: Id, now: int, links: seq<Address>)
    requires i < |y.senders| && |y.senders[i].id| == 256 && |id| == 256
  {
    var r := y.senders[i];
    if r.pending == OnLink(link) && id[..128] == r.id[..128]
    then && OnlySender(y, y', i, r.(id := id, pending := NoLink, timeout := now + 4))
         && forall p :: p in y'.up <==> p in y.up || (p.link in links && p.buf == EncodeReg2(id))
    else y' == y
  }

  lemma Reg2Moved(y: System, i: nat, link: Address, id: Id, now: int, links: seq<Address>)
    requires i < |y.senders| && |y.senders[i].id| == 256 && |id| == 256
    ensures Reg2Move(y, SenderMoved(y, i, OnReg2(y.senders[i], link, id, now, links)), i, link, id, now, links)
  {
    var result := OnReg2(y.senders[i], link, id, now, links);
    assert SentSet([]) == {};
    forall p: Uplink ensures p in SenderMoved(y, i, result).up <==> p in y.up || p in result.1 {
      SentExact(y, i, result, p);
    }
    forall p: Uplink ensures p in SendReg2s(links, id) <==> p.link in links && p.buf == EncodeReg2(id) {
      if p.link in links && p.buf == EncodeReg2(id) {
        var k :| 0 <= k < |links| && links[k] == p.link;
        assert SendReg2s(links, id)[k] == p;
      }
    }
  }

  /** The links that REG2 goes out on are those with a socket, each as often as it is
      among the links. */
  lemma {:induction false} OpenAmongExact(links: seq<Address>, open: set<Address>, a: Address)
    ensures multiset(OpenAmong(links, open))[a] == if a in open then multiset(links)[a] else 0
    decreases |links|
  {
    if links != [] {
      Seqs.SplitLast(links);
      OpenAmongExact(links[..|links| - 1], open, a);
    }
  }

  lemma WholeIds(c: Config, y: System, link: Address, id: Id)
    requires ValidConfig(c) && SystemInv(c, y) && link in c.owner && Delivers(y, link, RegTwo(id))
    ensures |y.senders[c.owner[link]].id| == 256 && |id| == 256
  {
    var o :| o in y.down && o.to == link && AsRead(o.reply) == RegTwo(id);
  }

  lemma Reg2Moves(c: Config, acts: seq<Action>, link: Address, id: Id, now: int, links: seq<Address>)
    requires ValidConfig(c) && Enabled(c, AfterActions(c, acts), DeliverReg2(link, id, now, links))
    ensures var y := AfterActions(c, acts);
            && |y.senders[c.owner[link]].id| == 256 && |id| == 256
            && Reg2Move(y, AfterActions(c, acts + [DeliverReg2(link, id, now, links)]),
                        c.owner[link], link, id, now, links)
  {
    var y := AfterActions(c, acts);
    WholeIds(c, y, link, id);
    AfterSnoc(c, acts, DeliverReg2(link, id, now, links));
    Reg2Moved(y, c.owner[link], link, id, now, links);
  }

  /** A REG3 is one more active link. */
  ghost predicate Reg3Move(y: System, y': System, i: nat)
    requires i < |y.senders|
  {
    OnlySender(y, y', i, y.senders[i].(active := y.senders[i].active + 1)) && y'.up == y.up
  }

  lemma Reg3Moved(y: System, i: nat)
    requires i < |y.senders|
    ensures Reg3Move(y, SenderMoved(y, i, (OnReg3(y.senders[i]), [])), i)
  {
    assert SentSet([]) == {};
  }

  lemma Reg3Moves(c: Config, acts: seq<Action>, link: Address)
    requires ValidConfig(c) && Enabled(c, AfterActions(c, acts), DeliverReg3(link))
    ensures Reg3Move(AfterActions(c, acts), AfterActions(c, acts + [DeliverReg3(link)]), c.owner[link])
  {
    AfterSnoc(c, acts, DeliverReg3(link));
    Reg3Moved(AfterActions(c, acts), c.owner[link]);
  }
}
