/** A registration runs to its end when nothing is lost. */
module Completion {
  import opened Net
  import opened ReceiverTypes
  import opened Registry
  import opened Receiver
  import opened Handshake
  import opened HandshakeMoves

  /** A sender that has not registered. */
  function Fresh(half: Id): Registrant {
    Registrant(half + seq(HALF, _ => 0), NoLink, 0, 0)
  }

  /** A tick of sender i, whose only link is this one, and every packet and reply
      that follows from it; step k happens at time t[k]. */
  ghost function Registration(c: Config, i: nat, link: Address, t: seq<int>, env: Env): seq<Action>
    requires i < |c.halves| && |t| == 7
  {
    var id, minted := Fresh(c.halves[i]).id, c.halves[i] + env.random;
    [SenderTick(i, t[0], [link], 0),
     ReceiverEvent(Datagram(link, EncodeReg2(id), env), t[1]),
     DeliverNgp(link, t[2], true),
     ReceiverEvent(Datagram(link, EncodeReg1(id), env), t[3]),
     DeliverReg2(link, minted, t[4], [link]),
     ReceiverEvent(Datagram(link, EncodeReg2(minted), env), t[5]),
     DeliverReg3(link)]
  }

  // ---- the receiver's answers ----------------------------------------------------------------

  lemma UnknownAnswered(link: Address, id: Id, ts: int, env: Env)
    requires |id| == ID_LEN
    ensures HandleDatagram(INITIAL, link, EncodeReg2(id), ts, env) == Outcome(INITIAL, [Out(link, RegNgp)])
  {
    RegistrationsRead(id);
  }

  /** The receiver with one group. */
  function OneGroup(g: Group): State {
    INITIAL.(groups := [g], counters := INITIAL.counters.(registered := 1))
  }

  lemma NewGroupAnswered(link: Address, id: Id, ts: int, env: Env)
    requires |id| == ID_LEN && env.sendOk
    ensures var minted := id[..HALF] + env.random;
            HandleDatagram(INITIAL, link, EncodeReg1(id), ts, env)
            == Outcome(OneGroup(NewGroup(0, minted, link, ts)), [Out(link, RegTwo(minted))])
  {
    RegistrationsRead(id);
  }

  lemma MemberAnswered(link: Address, id: Id, since: int, ts: int, env: Env)
    requires |id| == ID_LEN && env.sendOk
    ensures var g := NewGroup(0, id, link, since);
            HandleDatagram(OneGroup(g), link, EncodeReg2(id), ts, env)
            == Outcome(OneGroup(g.(conns := [NewConn(link, ts)])), [Out(link, RegThree)])
  {
    RegistrationsRead(id);
    var g := NewGroup(0, id, link, since);
    assert FindByAddress([g], link) == Somebody(0, -1);
    assert [g][0 := Joined(g, link, false, ts)] == [Joined(g, link, false, ts)];
    assert Joined(g, link, false, ts).conns == [NewConn(link, ts)];
  }

  // ---- the system's steps -----------------------------------------------------------------------

  /** Sender i and the receiver are like this, and the other senders are fresh. */
  ghost predicate At(c: Config, y: System, i: nat, r: Registrant, s: State, clock: int) {
    && |y.senders| == |c.halves| && i < |c.halves| && y.senders[i] == r && y.receiver == s && y.clock == clock
    && forall j :: 0 <= j < |c.halves| && j != i ==> y.senders[j] == Fresh(c.halves[j])
  }

  /** Sender i sends just this packet. */
  lemma SenderAt(c: Config, y: System, i: nat, r: Registrant, s: State, clock: int, r': Registrant, p: Uplink)
    requires At(c, y, i, r, s, clock)
    ensures var y' := SenderMoved(y, i, (r', [p])); At(c, y', i, r', s, clock) && p in y'.up
  {
    assert [p][0] == p;
  }

  /** The receiver handles the packet with this outcome. */
  lemma ReceiverAt(c: Config, y: System, i: nat, r: Registrant, s: State, clock: int, e: Event, ts: int,
                   s': State, o: Out)
    requires ValidConfig(c) && At(c, y, i, r, s, clock) && clock <= ts
    requires e.Datagram? && Possible(s, e) && Uplink(e.addr, e.buf) in y.up
    requires HandleDatagram(s, e.addr, e.buf, ts, e.env) == Outcome(s', [o]) && !o.reply.Relay?
    ensures Enabled(c, y, ReceiverEvent(e, ts))
    ensures var y' := Next(c, y, ReceiverEvent(e, ts)); At(c, y', i, r, s', ts) && Delivers(y', o.to, o.reply)
  {
    var y' := Next(c, y, ReceiverEvent(e, ts));
    assert [o][0] == o;
    assert o in y'.down && AsRead(o.reply) == o.reply;
  }

  lemma TickAt(c: Config, y: System, i: nat, link: Address, now: int)
    requires ValidConfig(c) && link in c.owner && c.owner[link] == i
    requires i < |c.halves| && At(c, y, i, Fresh(c.halves[i]), INITIAL, 0)
    ensures Enabled(c, y, SenderTick(i, now, [link], 0))
    ensures var y', r := Next(c, y, SenderTick(i, now, [link], 0)), Fresh(c.halves[i]);
            At(c, y', i, r, INITIAL, 0) && Uplink(link, EncodeReg2(r.id)) in y'.up
  {
    var r := Fresh(c.halves[i]);
    assert [link][..0] == [] && NudgeAll(r, []) == [];
    assert NudgeAll(r, [link]) == [Uplink(link, EncodeReg2(r.id))];
    SenderAt(c, y, i, r, INITIAL, 0, r, Uplink(link, EncodeReg2(r.id)));
  }

  lemma NgpAt(c: Config, y: System, i: nat, link: Address, clock: int, now: int)
    requires ValidConfig(c) && link in c.owner && c.owner[link] == i && now > 0
    requires i < |c.halves| && At(c, y, i, Fresh(c.halves[i]), INITIAL, clock) && Delivers(y, link, RegNgp)
    ensures Enabled(c, y, DeliverNgp(link, now, true))
    ensures var y', r := Next(c, y, DeliverNgp(link, now, true)), Fresh(c.halves[i]);
            && At(c, y', i, r.(pending := OnLink(link), timeout := now + 4), INITIAL, clock)
            && Uplink(link, EncodeReg1(r.id)) in y'.up
  {
    var r := Fresh(c.halves[i]);
    SenderAt(c, y, i, r, INITIAL, clock, r.(pending := OnLink(link), timeout := now + 4),
             Uplink(link, EncodeReg1(r.id)));
  }

  lemma Reg2At(c: Config, y: System, i: nat, link: Address, r: Registrant, s: State, clock: int, id: Id, now: int)
    requires ValidConfig(c) && link in c.owner && c.owner[link] == i
    requires At(c, y, i, r, s, clock) && Delivers(y, link, RegTwo(id))
    requires r.pending == OnLink(link) && FirstHalf(id) == FirstHalf(r.id)
    ensures Enabled(c, y, DeliverReg2(link, id, now, [link]))
    ensures var y' := Next(c, y, DeliverReg2(link, id, now, [link]));
            && At(c, y', i, r.(id := id, pending := NoLink, timeout := now + 4), s, clock)
            && Uplink(link, EncodeReg2(id)) in y'.up
  {
    assert SendReg2s([link], id) == [Uplink(link, EncodeReg2(id))];
    SenderAt(c, y, i, r, s, clock, r.(id := id, pending := NoLink, timeout := now + 4), Uplink(link, EncodeReg2(id)));
  }

  lemma Reg3At(c: Config, y: System, i: nat, link: Address, r: Registrant, s: State, clock: int)
    requires ValidConfig(c) && link in c.owner && c.owner[link] == i
    requires At(c, y, i, r, s, clock) && Delivers(y, link, RegThree)
    ensures Enabled(c, y, DeliverReg3(link))
    ensures At(c, Next(c, y, DeliverReg3(link)), i, r.(active := r.active + 1), s, clock)
  {
  }

  // ---- the whole registration ----------------------------------------------------------------------

  /** The sender owns the link, sends succeed, and the clocks have started. */
  ghost predicate Ready(c: Config, i: nat, link: Address, t: seq<int>, env: Env) {
    && ValidConfig(c) && i < |c.halves| && link in c.owner && c.owner[link] == i
    && env.sendOk && |env.random| == HALF
    && |t| == 7 && t[2] > 0 && 0 <= t[1] <= t[3] <= t[5]
  }

  /** After the first two steps the sender is told that it has no group. */
  lemma IsRefused(c: Config, i: nat, link: Address, t: seq<int>, env: Env)
    requires Ready(c, i, link, t, env)
    ensures var y := AfterActions(c, Registration(c, i, link, t, env)[..2]);
            At(c, y, i, Fresh(c.halves[i]), INITIAL, t[1]) && Delivers(y, link, RegNgp)
  {
    var acts, r := Registration(c, i, link, t, env), Fresh(c.halves[i]);
    var y0 := AfterActions(c, []);
    TickAt(c, y0, i, link, t[0]);
    AfterSnoc(c, [], acts[0]);
    assert [] + [acts[0]] == acts[..1];
    UnknownAnswered(link, r.id, t[1], env);
    ReceiverAt(c, Next(c, y0, acts[0]), i, r, INITIAL, 0, acts[1].event, t[1], INITIAL, Out(link, RegNgp));
    AfterSnoc(c, acts[..1], acts[1]);
    assert acts[..1] + [acts[1]] == acts[..2];
  }

  /** The sender while it waits for an id. */
  function Waiting(half: Id, link: Address, since: int): Registrant {
    Fresh(half).(pending := OnLink(link), timeout := since + 4)
  }

  /** Then it asks for a group. */
  lemma AsksForGroup(c: Config, i: nat, link: Address, t: seq<int>, env: Env)
    requires Ready(c, i, link, t, env)
    ensures var y := AfterActions(c, Registration(c, i, link, t, env)[..3]);
            && At(c, y, i, Waiting(c.halves[i], link, t[2]), INITIAL, t[1])
            && Uplink(link, EncodeReg1(Fresh(c.halves[i]).id)) in y.up
  {
    var acts := Registration(c, i, link, t, env);
    IsRefused(c, i, link, t, env);
    NgpAt(c, AfterActions(c, acts[..2]), i, link, t[1], t[2]);
    AfterSnoc(c, acts[..2], acts[2]);
    assert acts[..2] + [acts[2]] == acts[..3];
  }

  /** The receiver makes one and offers its id. */
  lemma IsOffered(c: Config, i: nat, link: Address, t: seq<int>, env: Env)
    requires Ready(c, i, link, t, env)
    ensures var y, id := AfterActions(c, Registration(c, i, link, t, env)[..4]), c.halves[i] + env.random;
            && At(c, y, i, Waiting(c.halves[i], link, t[2]), OneGroup(NewGroup(0, id, link, t[3])), t[3])
            && Delivers(y, link, RegTwo(id))
  {
    var acts, id := Registration(c, i, link, t, env), c.halves[i] + env.random;
    var r, s := Waiting(c.halves[i], link, t[2]), OneGroup(NewGroup(0, id, link, t[3]));
    AsksForGroup(c, i, link, t, env);
    assert r.id[..HALF] == c.halves[i];
    NewGroupAnswered(link, r.id, t[3], env);
    ReceiverAt(c, AfterActions(c, acts[..3]), i, r, INITIAL, t[1], acts[3].event, t[3], s, Out(link, RegTwo(id)));
    AfterSnoc(c, acts[..3], acts[3]);
    assert acts[..3] + [acts[3]] == acts[..4];
  }

  /** The sender takes the id and asks to join. */
  lemma TakesId(c: Config, i: nat, link: Address, t: seq<int>, env: Env)
    requires Ready(c, i, link, t, env)
    ensures var y, id := AfterActions(c, Registration(c, i, link, t, env)[..5]), c.halves[i] + env.random;
            && At(c, y, i, Registrant(id, NoLink, t[4] + 4, 0), OneGroup(NewGroup(0, id, link, t[3])), t[3])
            && Uplink(link, EncodeReg2(id)) in y.up
  {
    var acts, id := Registration(c, i, link, t, env), c.halves[i] + env.random;
    var r, s := Waiting(c.halves[i], link, t[2]), OneGroup(NewGroup(0, id, link, t[3]));
    IsOffered(c, i, link, t, env);
    assert r.id[..HALF] == c.halves[i] && id[..HALF] == c.halves[i];
    Reg2At(c, AfterActions(c, acts[..4]), i, link, r, s, t[3], id, t[4]);
    AfterSnoc(c, acts[..4], acts[4]);
    assert acts[..4] + [acts[4]] == acts[..5];
  }

  /** From the start, a tick of a sender and the delivery of its packets and of the
      replies to them, with sends that succeed, end with the sender holding the id
      that the receiver minted, one active link and no registration pending; the
      receiver then has one group, with that id, whose one member is the link.  No
      other sender has changed. */
  lemma HandshakeCompletes(c: Config, i: nat, link: Address, t: seq<int>, env: Env)
    requires Ready(c, i, link, t, env)
    ensures var y := AfterActions(c, Registration(c, i, link, t, env));
            && y.senders[i].id == c.halves[i] + env.random && y.senders[i].pending.NoLink? && y.senders[i].active == 1
            && |y.receiver.groups| == 1
            && var g := y.receiver.groups[0];
               && g.id == y.senders[i].id && g.lastAddress == link
               && |g.conns| == 1 && g.conns[0].addr == link && g.conns[0].lastReceived == t[5]
               && forall j :: 0 <= j < |c.halves| && j != i ==>
                    y.senders[j] == Registrant(c.halves[j] + seq(128, _ => 0), NoLink, 0, 0)
  {
    var acts, id := Registration(c, i, link, t, env), c.halves[i] + env.random;
    var r, g := Registrant(id, NoLink, t[4] + 4, 0), NewGroup(0, id, link, t[3]);
    var s := OneGroup(g.(conns := [NewConn(link, t[5])]));
    TakesId(c, i, link, t, env);
    var y5 := AfterActions(c, acts[..5]);
    MemberAnswered(link, id, t[3], t[5], env);
    ReceiverAt(c, y5, i, r, OneGroup(g), t[3], acts[5].event, t[5], s, Out(link, RegThree));
    AfterSnoc(c, acts[..5], acts[5]);
    assert acts[..5] + [acts[5]] == acts[..6];
    Reg3At(c, Next(c, y5, acts[5]), i, link, r, s, t[5]);
    AfterSnoc(c, acts[..6], acts[6]);
    assert acts[..6] + [acts[6]] == acts;
  }
}
