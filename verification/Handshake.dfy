/**
  The registration handshake between senders (src/sender.cpp) and the receiver,
  over a network that may lose, duplicate and reorder packets but not forge them.
 */
module Handshake {
  import opened Bytes
  import opened Net
  import opened Seqs
  import opened ReceiverTypes
  import opened Registry
  import opened Quality
  import opened Receiver
  import opened ReceiverInvariants

  const HALF := 128
  const REG2_TIMEOUT := 4
  const REG3_TIMEOUT := 4

  // ---- the sender's side -------------------------------------------------------------

  datatype Pending = NoLink | OnLink(link: Address)

  /** srtla_id, pending_reg2_conn, pending_reg_timeout and active_connections. */
  datatype Registrant = Registrant(id: Id, pending: Pending, timeout: int, active: int)

  function EncodeReg1(id: Id): seq<Byte> { TypeBytes(SRTLA_TYPE_REG1) + id }
  function EncodeReg2(id: Id): seq<Byte> { TypeBytes(SRTLA_TYPE_REG2) + id }

  /** A packet sent on a link. */
  datatype Uplink = Uplink(link: Address, buf: seq<Byte>)

  /** send_reg1 and send_reg2 are on the wire as the receiver reads them. */
  lemma RegistrationsRead(id: Id)
    requires |id| == ID_LEN
    ensures Classify(EncodeReg1(id)) == Reg1(id[..HALF])
    ensures Classify(EncodeReg2(id)) == Reg2(id)
  {
    var b1, b2 := EncodeReg1(id), EncodeReg2(id);
    assert b1[2..2 + ID_LEN / 2] == id[..HALF];
    assert b2[2..] == id;
  }

  predicate WantsGroup(r: Registrant, now: int) {
    r.active == 0 && r.pending.NoLink? && now > r.timeout
  }

  /** The receiver does not know the group: register a new one, on this link. */
  function OnNgp(r: Registrant, link: Address, now: int, sendOk: bool): (Registrant, seq<Uplink>) {
    if WantsGroup(r, now) && sendOk
    then (r.(pending := OnLink(link), timeout := now + REG2_TIMEOUT), [Uplink(link, EncodeReg1(r.id))])
    else (r, [])
  }

  function SendReg2s(links: seq<Address>, id: Id): (ps: seq<Uplink>)
    ensures |ps| == |links| && forall k :: 0 <= k < |ps| ==> ps[k] == Uplink(links[k], EncodeReg2(id))
  {
    seq(|links|, k requires 0 <= k < |links| => Uplink(links[k], EncodeReg2(id)))
  }

  /** The links with a socket, in order; nothing is sent on the others. */
  function OpenAmong(links: seq<Address>, open: set<Address>): seq<Address> {
    if links == [] then []
    else
      var n := |links| - 1;
      OpenAmong(links[..n], open) + if links[n] in open then [links[n]] else []
  }

  /** The bytes that the sender compares: the first SRTLA_ID_LEN / 2. */
  function FirstHalf(id: Id): Id {
    if |id| <= HALF then id else id[..HALF]
  }

  /** REG2 from the receiver: adopt the id if it keeps our half, and register
      every link with it. */
  function OnReg2(r: Registrant, link: Address, id: Id, now: int, links: seq<Address>): (Registrant, seq<Uplink>) {
    if r.pending != OnLink(link) || FirstHalf(id) != FirstHalf(r.id) then (r, [])
    else (r.(id := id, pending := NoLink, timeout := now + REG3_TIMEOUT), SendReg2s(links, id))
  }

  function OnReg3(r: Registrant): Registrant {
    r.(active := r.active + 1)
  }

  /** What connection_housekeeping sends on a timed-out link. */
  function Nudge(r: Registrant, link: Address): seq<Uplink> {
    if r.pending.NoLink? then [Uplink(link, EncodeReg2(r.id))]
    else if r.pending.link == link then [Uplink(link, EncodeReg1(r.id))] else []
  }

  function NudgeAll(r: Registrant, links: seq<Address>): seq<Uplink> {
    if links == [] then [] else NudgeAll(r, links[..|links| - 1]) + Nudge(r, links[|links| - 1])
  }

  /** connection_housekeeping: forget a stale registration, count the live links
      and nudge the others. */
  function Housekept(r: Registrant, now: int, dead: seq<Address>, alive: nat): (Registrant, seq<Uplink>) {
    var r1 := r.(active := alive, pending := if now > r.timeout then NoLink else r.pending);
    (r1, NudgeAll(r1, dead))
  }

  /** The registration part of the sender as an object. */
  class Registrar {
    var id: Id
    var pending: Pending
    var timeout: int
    var active: int
    const links: seq<Address>

    ghost function View(): Registrant
      reads this
    {
      Registrant(id, pending, timeout, active)
    }

    constructor (half: Id, links: seq<Address>)
      requires |half| == HALF
      ensures View() == Registrant(half + seq(HALF, _ => 0), NoLink, 0, 0) && this.links == links
    {
      this.id := half + seq(HALF, _ => 0);
      this.links := links;
      pending, timeout, active := NoLink, 0, 0;
    }

    method HandleNgp(link: Address, now: int, sendOk: bool) returns (sent: seq<Uplink>)
      modifies this
      ensures (View(), sent) == OnNgp(old(View()), link, now, sendOk)
    {
      sent := [];
      if active == 0 && pending == NoLink && now > timeout {
        if sendOk {
          sent := [Uplink(link, EncodeReg1(id))];
          pending := OnLink(link);
          timeout := now + REG2_TIMEOUT;
        }
      }
    }

    method HandleReg2(link: Address, newId: Id, now: int, open: set<Address>) returns (sent: seq<Uplink>)
      modifies this
      ensures (View(), sent) == OnReg2(old(View()), link, newId, now, OpenAmong(links, open))
    {
      sent := [];
      if pending == OnLink(link) {
        if FirstHalf(newId) != FirstHalf(id) {
          return;
        }
        id := newId;
        for i := 0 to |links|
          modifies {}
          invariant sent == SendReg2s(OpenAmong(links[..i], open), newId)
        {
          Seqs.Next(links, i);
          Unappend(links[..i], links[i]);
          if links[i] in open {
            sent := sent + [Uplink(links[i], EncodeReg2(id))];
          }
        }
        assert links[..|links|] == links;
        pending := NoLink;
        timeout := now + REG3_TIMEOUT;
      }
    }

    method HandleReg3()
      modifies this`active
      ensures View() == OnReg3(old(View()))
    {
      active := active + 1;
    }

    method Housekeep(now: int, dead: seq<Address>, alive: nat) returns (sent: seq<Uplink>)
      modifies this
      ensures (View(), sent) == Housekept(old(View()), now, dead, alive)
    {
      active := 0;
      if pending.OnLink? && now > timeout {
        pending := NoLink;
      }
      sent := [];
      for i := 0 to |dead|
        modifies {}
        invariant sent == NudgeAll(Registrant(id, pending, timeout, alive), dead[..i])
      {
        assert dead[..i + 1][..i] == dead[..i];
        if pending == NoLink {
          sent := sent + [Uplink(dead[i], EncodeReg2(id))];
        } else if pending == OnLink(dead[i]) {
          sent := sent + [Uplink(dead[i], EncodeReg1(id))];
        }
      }
      active := active + alive;
      assert dead[..|dead|] == dead;
    }
  }

  // ---- the whole system ---------------------------------------------------------------------

  /** Who owns which link, and the random half each sender drew. */
  datatype Config = Config(owner: map<Address, nat>, halves: seq<Id>)

  ghost predicate ValidConfig(c: Config) {
    && (forall i :: 0 <= i < |c.halves| ==> |c.halves[i]| == HALF)
    && (forall a :: a in c.owner ==> c.owner[a] < |c.halves|)
  }

  /** The network keeps everything ever sent: a packet may be delivered any
      number of times, in any order, or never. */
  datatype System = System(receiver: State, clock: int, senders: seq<Registrant>, up: set<Uplink>, down: set<Out>)

  /** What a sender takes a packet for: one that the SRT server made look like a
      registration reply, and the receiver relayed, is no different from a real one. */
  function AsRead(r: Reply): Reply {
    if !r.Relay? then r
    else if PacketType(r.buf) == SRTLA_TYPE_REG_NGP then RegNgp
    else if PacketType(r.buf) == SRTLA_TYPE_REG2 && |r.buf| >= REG_LEN then RegTwo(r.buf[2..REG_LEN])
    else if PacketType(r.buf) == SRTLA_TYPE_REG3 then RegThree
    else r
  }

  /** A packet on its way to the link reads like this reply. */
  ghost predicate Delivers(y: System, link: Address, r: Reply) {
    exists o :: o in y.down && o.to == link && AsRead(o.reply) == r
  }

  datatype Action =
    | DeliverNgp(link: Address, now: int, sendOk: bool)
    | DeliverReg2(link: Address, id: Id, now: int, links: seq<Address>)
    | DeliverReg3(link: Address)
    | SenderTick(sender: nat, now: int, dead: seq<Address>, alive: nat)
    | SendTraffic(link: Address, buf: seq<Byte>)
    | ReceiverEvent(event: Event, ts: int)
    | ReceiverTick(ts: int, millis: nat -> nat)

  ghost predicate OwnedBy(c: Config, links: seq<Address>, i: nat) {
    forall k :: 0 <= k < |links| ==> links[k] in c.owner && c.owner[links[k]] == i
  }

  /** The half of the sender that owns the link. */
  ghost predicate HalfOfLink(c: Config, a: Address, half: Id) {
    a in c.owner && c.owner[a] < |c.halves| && c.halves[c.owner[a]] == half
  }

  /** Registrations on the wire carry the half of the sender of the link. */
  ghost predicate SoundPacket(c: Config, p: Uplink) {
    && (Classify(p.buf).Reg1? ==> HalfOfLink(c, p.link, Classify(p.buf).half))
    && (Classify(p.buf).Reg2? ==> HalfOfLink(c, p.link, Classify(p.buf).id[..HALF]))
  }

  /** Only what was sent is delivered, senders use their own links, and a packet
      that the SRT caller hands to a sender is no registration with another half. */
  ghost predicate Enabled(c: Config, y: System, a: Action) {
    match a
    case DeliverNgp(link, _, _) => link in c.owner && Delivers(y, link, RegNgp)
    case DeliverReg2(link, id, _, links) =>
      link in c.owner && Delivers(y, link, RegTwo(id)) && OwnedBy(c, links, c.owner[link])
    case DeliverReg3(link) => link in c.owner && Delivers(y, link, RegThree)
    case SenderTick(i, _, dead, _) => i < |c.halves| && OwnedBy(c, dead, i)
    case SendTraffic(link, buf) => link in c.owner && SoundPacket(c, Uplink(link, buf))
    case ReceiverEvent(e, ts) =>
      y.clock <= ts && Possible(y.receiver, e) && (e.Datagram? ==> Uplink(e.addr, e.buf) in y.up)
    case ReceiverTick(ts, _) => y.clock <= ts
  }

  ghost function SentSet(ps: seq<Uplink>): set<Uplink> { set k | 0 <= k < |ps| :: ps[k] }
  ghost function OutSet(os: seq<Out>): set<Out> { set k | 0 <= k < |os| :: os[k] }

  ghost function SenderMoved(y: System, i: nat, result: (Registrant, seq<Uplink>)): System
    requires i < |y.senders|
  {
    y.(senders := y.senders[i := result.0], up := y.up + SentSet(result.1))
  }

  ghost function Next(c: Config, y: System, a: Action): System
    requires Enabled(c, y, a) && ValidConfig(c) && |y.senders| == |c.halves|
  {
    match a
    case DeliverNgp(link, now, sendOk) =>
      var i := c.owner[link];
      SenderMoved(y, i, OnNgp(y.senders[i], link, now, sendOk))
    case DeliverReg2(link, id, now, links) =>
      var i := c.owner[link];
      SenderMoved(y, i, OnReg2(y.senders[i], link, id, now, links))
    case DeliverReg3(link) =>
      var i := c.owner[link];
      SenderMoved(y, i, (OnReg3(y.senders[i]), []))
    case SenderTick(i, now, dead, alive) => SenderMoved(y, i, Housekept(y.senders[i], now, dead, alive))
    case SendTraffic(link, buf) => y.(up := y.up + {Uplink(link, buf)})
    case ReceiverEvent(e, ts) =>
      var r := Step(y.receiver, e, ts);
      y.(receiver := r.state, clock := ts, down := y.down + OutSet(r.outs))
    case ReceiverTick(ts, millis) => y.(receiver := LoopTail(y.receiver, ts, millis), clock := ts)
  }

  ghost function Start(c: Config): System {
    System(INITIAL, 0,
           seq(|c.halves|, i requires 0 <= i < |c.halves| => Registrant(c.halves[i] + seq(HALF, _ => 0), NoLink, 0, 0)),
           {}, {})
  }

  // ---- what every step keeps ------------------------------------------------------------------

  /** Every sender still carries the half it started with. */
  ghost predicate SendersKeepHalf(c: Config, y: System) {
    |y.senders| == |c.halves|
    && forall i :: 0 <= i < |c.halves| ==> |y.senders[i].id| == ID_LEN && y.senders[i].id[..HALF] == c.halves[i]
  }

  ghost predicate UpSound(c: Config, up: set<Uplink>) {
    forall p :: p in up ==> SoundPacket(c, p)
  }

  /** A REG1 with this half was sent from this address. */
  ghost predicate Asked(up: set<Uplink>, a: Address, half: Id) {
    exists p :: p in up && p.link == a && Classify(p.buf) == Reg1(half)
  }

  /** Every id on its way to a sender was minted for a REG1 that this link sent. */
  ghost predicate DownSound(y: System) {
    forall o :: o in y.down && o.reply.RegTwo? ==>
      |o.reply.id| == ID_LEN && Asked(y.up, o.to, o.reply.id[..HALF])
  }

  /** A sender's id is its initial one or one that a packet to it brought. */
  ghost predicate Adopted(c: Config, y: System, i: nat)
    requires i < |y.senders| && i < |c.halves|
  {
    || y.senders[i].id == c.halves[i] + seq(HALF, _ => 0)
    || exists o :: o in y.down && AsRead(o.reply) == RegTwo(y.senders[i].id) && o.to in c.owner && c.owner[o.to] == i
  }

  /** Whoever a group listens to has the half in the group's id. */
  ghost predicate GroupSound(c: Config, g: Group) {
    |g.id| == ID_LEN && forall a :: Claims(g, a) ==> HalfOfLink(c, a, g.id[..HALF])
  }

  ghost predicate GroupsSound(c: Config, gs: seq<Group>) {
    forall i :: 0 <= i < |gs| ==> GroupSound(c, gs[i])
  }

  ghost predicate SystemInv(c: Config, y: System) {
    && SendersKeepHalf(c, y)
    && UpSound(c, y.up)
    && DownSound(y)
    && (forall i :: 0 <= i < |c.halves| ==> Adopted(c, y, i))
    && Inv(y.receiver, y.clock)
    && GroupsSound(c, y.receiver.groups)
  }

  // ---- the sender's steps ------------------------------------------------------------------------

  lemma SentByNudges(r: Registrant, links: seq<Address>, p: Uplink)
    requires p in NudgeAll(r, links)
    ensures p.link in links && (p.buf == EncodeReg1(r.id) || p.buf == EncodeReg2(r.id))
  {
    if p !in NudgeAll(r, links[..|links| - 1]) {
      assert p in Nudge(r, links[|links| - 1]);
    }
  }

  /** A registration that carries the sender's own id is sound on its links. */
  lemma OwnRegistrationSound(c: Config, i: nat, id: Id, p: Uplink)
    requires ValidConfig(c) && i < |c.halves| && |id| == ID_LEN && id[..HALF] == c.halves[i]
    requires p.link in c.owner && c.owner[p.link] == i
    requires p.buf == EncodeReg1(id) || p.buf == EncodeReg2(id)
    ensures SoundPacket(c, p)
  {
    RegistrationsRead(id);
  }

  /** A sender that keeps its half, sends sound packets and adopts only ids that
      are on their way to it, keeps the system sound. */
  lemma SenderMovedInv(c: Config, y: System, i: nat, result: (Registrant, seq<Uplink>))
    requires ValidConfig(c) && SystemInv(c, y) && i < |c.halves|
    requires |result.0.id| == ID_LEN && result.0.id[..HALF] == c.halves[i]
    requires forall p :: p in result.1 ==> SoundPacket(c, p)
    requires Adopted(c, y.(senders := y.senders[i := result.0]), i)
    ensures SystemInv(c, SenderMoved(y, i, result))
  {
    var y' := SenderMoved(y, i, result);
    forall o | o in y'.down && o.reply.RegTwo? ensures Asked(y'.up, o.to, o.reply.id[..HALF]) {
      assert Asked(y.up, o.to, o.reply.id[..HALF]);
    }
    forall j | 0 <= j < |c.halves| ensures Adopted(c, y', j) {
      assert j != i ==> Adopted(c, y, j);
    }
  }

  lemma NgpInv(c: Config, y: System, link: Address, now: int, sendOk: bool)
    requires ValidConfig(c) && SystemInv(c, y) && link in c.owner
    ensures var i := c.owner[link]; SystemInv(c, SenderMoved(y, i, OnNgp(y.senders[i], link, now, sendOk)))
  {
    var i := c.owner[link];
    var result := OnNgp(y.senders[i], link, now, sendOk);
    forall p | p in result.1 ensures SoundPacket(c, p) {
      OwnRegistrationSound(c, i, y.senders[i].id, p);
    }
    assert Adopted(c, y, i);
    SenderMovedInv(c, y, i, result);
  }

  lemma Reg2Inv(c: Config, y: System, link: Address, id: Id, now: int, links: seq<Address>)
    requires ValidConfig(c) && SystemInv(c, y) && link in c.owner
    requires Delivers(y, link, RegTwo(id)) && OwnedBy(c, links, c.owner[link])
    ensures var i := c.owner[link]; SystemInv(c, SenderMoved(y, i, OnReg2(y.senders[i], link, id, now, links)))
  {
    var i := c.owner[link];
    var result := OnReg2(y.senders[i], link, id, now, links);
    var o :| o in y.down && o.to == link && AsRead(o.reply) == RegTwo(id);
    assert |id| == ID_LEN;
    assert |result.0.id| == ID_LEN && result.0.id[..HALF] == c.halves[i];
    forall p | p in result.1 ensures SoundPacket(c, p) {
      OwnRegistrationSound(c, i, id, p);
    }
    assert Adopted(c, y, i);
    assert Adopted(c, y.(senders := y.senders[i := result.0]), i);
    SenderMovedInv(c, y, i, result);
  }

  lemma TickInv(c: Config, y: System, i: nat, now: int, dead: seq<Address>, alive: nat)
    requires ValidConfig(c) && SystemInv(c, y) && i < |c.halves| && OwnedBy(c, dead, i)
    ensures SystemInv(c, SenderMoved(y, i, Housekept(y.senders[i], now, dead, alive)))
  {
    var result := Housekept(y.senders[i], now, dead, alive);
    forall p | p in result.1 ensures SoundPacket(c, p) {
      SentByNudges(result.0, dead, p);
      OwnRegistrationSound(c, i, y.senders[i].id, p);
    }
    assert Adopted(c, y, i);
    SenderMovedInv(c, y, i, result);
  }

  lemma Reg3Inv(c: Config, y: System, link: Address)
    requires ValidConfig(c) && SystemInv(c, y) && link in c.owner
    ensures var i := c.owner[link]; SystemInv(c, SenderMoved(y, i, (OnReg3(y.senders[i]), [])))
  {
    var i := c.owner[link];
    assert Adopted(c, y, i);
    SenderMovedInv(c, y, i, (OnReg3(y.senders[i]), []));
  }

  lemma MoreUp(c: Config, y: System, link: Address, buf: seq<Byte>)
    requires SystemInv(c, y) && SoundPacket(c, Uplink(link, buf))
    ensures SystemInv(c, y.(up := y.up + {Uplink(link, buf)}))
  {
    var y' := y.(up := y.up + {Uplink(link, buf)});
    forall o | o in y'.down && o.reply.RegTwo? ensures Asked(y'.up, o.to, o.reply.id[..HALF]) {
      assert Asked(y.up, o.to, o.reply.id[..HALF]);
    }
    forall j | 0 <= j < |c.halves| ensures Adopted(c, y', j) {
      assert Adopted(c, y, j);
    }
  }

  // ---- the receiver's steps ------------------------------------------------------------------------

  /** A group with the same id and no new claims. */
  lemma ShrunkSound(c: Config, g: Group, g': Group)
    requires GroupSound(c, g) && g'.id == g.id && forall b :: Claims(g', b) ==> Claims(g, b)
    ensures GroupSound(c, g')
  {
  }

  lemma RemovedSound(c: Config, gs: seq<Group>, i: nat)
    requires GroupsSound(c, gs) && i < |gs|
    ensures GroupsSound(c, RemoveAt(gs, i))
  {
    var r := RemoveAt(gs, i);
    forall j | 0 <= j < |r| ensures GroupSound(c, r[j]) {
      assert r[j] == gs[if j < i then j else j + 1];
    }
  }

  lemma RoomSound(c: Config, s: State)
    requires GroupsSound(c, s.groups)
    ensures GroupsSound(c, MadeRoom(s).groups)
  {
    var v := OldestGhost(s.groups, |s.groups|);
    if |s.groups| >= MAX_GROUPS && v >= 0 {
      RemovedSound(c, s.groups, v);
    }
  }

  lemma NewGroupSound(c: Config, serial: nat, addr: Address, half: Id, random: Id, ts: int)
    requires HalfOfLink(c, addr, half) && |half| == HALF && |random| == HALF
    ensures GroupSound(c, NewGroup(serial, half + random, addr, ts))
  {
    assert (half + random)[..HALF] == half;
  }

  lemma Reg1Sound(c: Config, s: State, addr: Address, half: Id, ts: int, env: Env)
    requires GroupsSound(c, s.groups) && HalfOfLink(c, addr, half) && |half| == HALF && |env.random| == HALF
    ensures GroupsSound(c, RegisterGroup(s, addr, half, ts, env).state.groups)
  {
    RegisterGroupCases(s, addr, half, ts, env);
    RoomSound(c, s);
    NewGroupSound(c, MadeRoom(s).counters.registered, addr, half, env.random, ts);
  }

  lemma Reg2Sound(c: Config, s: State, addr: Address, id: Id, ts: int, env: Env)
    requires GroupsSound(c, s.groups) && |id| == ID_LEN && HalfOfLink(c, addr, id[..HALF]) && Owned(s.groups)
    ensures GroupsSound(c, RegisterConnection(s, addr, id, ts, env).state.groups)
  {
    var i := FindById(s.groups, id);
    var r := FindByAddress(s.groups, addr);
    if i >= 0 && (r.Nobody? || r.group == i) {
      var g := s.groups[i];
      var known := r.Somebody? && r.conn >= 0;
      assert known <==> ConnIndex(g.conns, addr) >= 0;
      JoinedClaims(g, addr, known, ts);
      assert GroupSound(c, g);
      assert GroupSound(c, Joined(g, addr, known, ts));
    }
  }

  lemma ForwardedSound(c: Config, s: State, i: nat, env: Env)
    requires GroupsSound(c, s.groups) && i < |s.groups|
    ensures GroupsSound(c, Forwarded(s, i, env).groups)
  {
    var g := s.groups[i].(socketOpen := true);
    SameClaims(s.groups[i], g);
    ShrunkSound(c, s.groups[i], g);
    RemovedSound(c, s.groups, i);
    RemovedSound(c, s.groups[i := g], i);
  }

  lemma TrafficSound(c: Config, s: State, addr: Address, buf: seq<Byte>, ts: int, env: Env)
    requires GroupsSound(c, s.groups) && Inv(s, ts)
    ensures GroupsSound(c, HandleTraffic(s, addr, buf, ts, env).state.groups)
  {
    var r := FindByAddress(s.groups, addr);
    if r.Somebody? && r.conn >= 0 {
      var i, k := r.group, r.conn;
      var g := s.groups[i];
      var t := TouchedGroup(g, k, ts);
      TouchedOk(g, k, ts);
      if Classify(buf).Srt? {
        var g1 := SrtInGroup(t, k, addr, buf, ts, env.ms);
        SrtInGroupOk(t, k, addr, buf, ts, env.ms, ts);
        SameClaims(g, g1);
        ShrunkSound(c, g, g1);
        var s1 := SrtState(s, i, k, addr, buf, ts, env.ms);
        assert GroupsSound(c, s1.groups);
        ForwardedSound(c, s1, i, env);
      } else {
        if Classify(buf).Keepalive? {
          TelemetryOk(t, k, Classify(buf).info, env.clock, ts);
        }
        SameClaims(g, Quietly(g, k, buf, ts, env.clock));
        ShrunkSound(c, g, Quietly(g, k, buf, ts, env.clock));
      }
    }
  }

  lemma ServerSound(c: Config, s: State, raw: nat, buf: seq<Byte>, env: Env)
    requires GroupsSound(c, s.groups) && raw < |s.groups|
    ensures GroupsSound(c, HandleServer(s, raw, buf, env).state.groups)
  {
    var i := FindById(s.groups, s.groups[raw].id);
    var g := s.groups[i].(established := true);
    SameClaims(s.groups[i], g);
    ShrunkSound(c, s.groups[i], g);
    RemovedSound(c, s.groups, i);
  }

  lemma TailSound(c: Config, s: State, ts: int, millis: nat -> nat)
    requires GroupsSound(c, s.groups) && Inv(s, ts)
    ensures GroupsSound(c, LoopTail(s, ts, millis).groups)
  {
    CleanedUpInv(s, ts);
    var s1 := CleanedUp(s, ts);
    forall j | 0 <= j < |s1.groups| ensures GroupSound(c, s1.groups[j]) {
      if s.lastCleanup + CLEANUP_PERIOD <= ts {
        var i := GroupOrigin(s.groups, ts, j);
        ReapedClaims(s.groups[i], ts);
        ShrunkSound(c, s.groups[i], s1.groups[j]);
      }
    }
    forall j | 0 <= j < |s1.groups| ensures GroupSound(c, Tended(s1.groups[j], ts, millis(j))) {
      TendedOk(s1.groups[j], ts, millis(j), ts);
      SameClaims(s1.groups[j], Tended(s1.groups[j], ts, millis(j)));
      ShrunkSound(c, s1.groups[j], Tended(s1.groups[j], ts, millis(j)));
    }
  }

  /** Only a REG1 makes the receiver mint an id, for its sender and its half. */
  lemma MintedForReg1(s: State, e: Event, ts: int, o: Out)
    requires Possible(s, e) && o in Step(s, e, ts).outs && o.reply.RegTwo?
    ensures e.Datagram? && o.to == e.addr && Classify(e.buf).Reg1?
    ensures |o.reply.id| == ID_LEN && o.reply.id[..HALF] == Classify(e.buf).half
  {
  }

  lemma StepSound(c: Config, y: System, e: Event, ts: int)
    requires SystemInv(c, y) && Enabled(c, y, ReceiverEvent(e, ts)) && Inv(y.receiver, ts)
    ensures GroupsSound(c, Step(y.receiver, e, ts).state.groups)
  {
    match e
    case Datagram(addr, buf, env) =>
      assert SoundPacket(c, Uplink(addr, buf));
      match Classify(buf) {
        case Reg1(half) => Reg1Sound(c, y.receiver, addr, half, ts, env);
        case Reg2(id) => Reg2Sound(c, y.receiver, addr, id, ts, env);
        case _ => TrafficSound(c, y.receiver, addr, buf, ts, env);
      }
    case FromServer(raw, buf, env) => ServerSound(c, y.receiver, raw, buf, env);
  }

  lemma ReceiverMovedInv(c: Config, y: System, s: State, ts: int, outs: seq<Out>)
    requires SystemInv(c, y) && Inv(s, ts) && GroupsSound(c, s.groups)
    requires forall o :: o in outs && o.reply.RegTwo? ==>
               |o.reply.id| == ID_LEN && Asked(y.up, o.to, o.reply.id[..HALF])
    ensures SystemInv(c, y.(receiver := s, clock := ts, down := y.down + OutSet(outs)))
  {
    var y' := y.(receiver := s, clock := ts, down := y.down + OutSet(outs));
    forall j | 0 <= j < |c.halves| ensures Adopted(c, y', j) {
      assert Adopted(c, y, j);
    }
    assert DownSound(y');
  }

  lemma EventInv(c: Config, y: System, e: Event, ts: int)
    requires SystemInv(c, y) && Enabled(c, y, ReceiverEvent(e, ts))
    ensures var r := Step(y.receiver, e, ts);
            SystemInv(c, y.(receiver := r.state, clock := ts, down := y.down + OutSet(r.outs)))
  {
    var r := Step(y.receiver, e, ts);
    InvLater(y.receiver, y.clock, ts);
    StepInv(y.receiver, e, ts);
    StepSound(c, y, e, ts);
    forall o | o in r.outs && o.reply.RegTwo?
      ensures |o.reply.id| == ID_LEN && Asked(y.up, o.to, o.reply.id[..HALF])
    {
      MintedForReg1(y.receiver, e, ts, o);
      assert Uplink(e.addr, e.buf) in y.up;
    }
    ReceiverMovedInv(c, y, r.state, ts, r.outs);
  }

  lemma ReceiverTickInv(c: Config, y: System, ts: int, millis: nat -> nat)
    requires SystemInv(c, y) && y.clock <= ts
    ensures SystemInv(c, y.(receiver := LoopTail(y.receiver, ts, millis), clock := ts))
  {
    InvLater(y.receiver, y.clock, ts);
    LoopTailInv(y.receiver, ts, millis);
    TailSound(c, y.receiver, ts, millis);
    ReceiverMovedInv(c, y, LoopTail(y.receiver, ts, millis), ts, []);
    assert OutSet([]) == {};
    assert y.down + OutSet([]) == y.down;
  }

  // ---- every run ------------------------------------------------------------------------------------

  lemma NextInv(c: Config, y: System, a: Action)
    requires ValidConfig(c) && SystemInv(c, y) && Enabled(c, y, a)
    ensures SystemInv(c, Next(c, y, a))
  {
    match a
    case DeliverNgp(link, now, sendOk) => NgpInv(c, y, link, now, sendOk);
    case DeliverReg2(link, id, now, links) => Reg2Inv(c, y, link, id, now, links);
    case DeliverReg3(link) => Reg3Inv(c, y, link);
    case SenderTick(i, now, dead, alive) => TickInv(c, y, i, now, dead, alive);
    case SendTraffic(link, buf) => MoreUp(c, y, link, buf);
    case ReceiverEvent(e, ts) => EventInv(c, y, e, ts);
    case ReceiverTick(ts, millis) => ReceiverTickInv(c, y, ts, millis);
  }

  lemma StartInv(c: Config)
    requires ValidConfig(c)
    ensures SystemInv(c, Start(c))
  {
    var y := Start(c);
    InitialInv();
    forall i | 0 <= i < |c.halves|
      ensures |y.senders[i].id| == ID_LEN && y.senders[i].id[..HALF] == c.halves[i] && Adopted(c, y, i)
    {
      assert y.senders[i].id == c.halves[i] + seq(HALF, _ => 0);
    }
  }

  /** The system after a sequence of actions; one that is not enabled is skipped. */
  ghost function AfterActions(c: Config, acts: seq<Action>): (y: System)
    requires ValidConfig(c)
    ensures SystemInv(c, y)
  {
    if acts == [] then
      StartInv(c);
      Start(c)
    else
      var y, a := AfterActions(c, acts[..|acts| - 1]), acts[|acts| - 1];
      if Enabled(c, y, a) then
        NextInv(c, y, a);
        Next(c, y, a)
      else y
  }

  /** Every connection of the group belongs to a sender with the half that the
      group's id starts with, hence any two of them to senders with equal halves. */
  ghost predicate OneHalf(c: Config, g: Group) {
    |g.id| == ID_LEN && forall k :: 0 <= k < |g.conns| ==> HalfOfLink(c, g.conns[k].addr, g.id[..HALF])
  }

  /** The sender's id is its initial one, or was minted by the receiver for a REG1
      that carried the sender's half and came from one of its links, or comes from
      the SRT server itself. */
  ghost predicate HonestId(c: Config, y: System, i: nat)
    requires i < |y.senders| && i < |c.halves|
  {
    || y.senders[i].id == c.halves[i] + seq(HALF, _ => 0)
    || exists o :: && o in y.down && AsRead(o.reply) == RegTwo(y.senders[i].id)
                   && o.to in c.owner && c.owner[o.to] == i
                   && (o.reply.Relay? || Asked(y.up, o.to, c.halves[i]))
  }

  lemma AdoptedIsHonest(c: Config, y: System, i: nat)
    requires SystemInv(c, y) && i < |c.halves|
    ensures HonestId(c, y, i)
  {
    assert Adopted(c, y, i);
    if y.senders[i].id != c.halves[i] + seq(HALF, _ => 0) {
      var o :| o in y.down && AsRead(o.reply) == RegTwo(y.senders[i].id) && o.to in c.owner && c.owner[o.to] == i;
      assert o.reply.Relay? || Asked(y.up, o.to, o.reply.id[..HALF]);
    }
  }

  lemma SoundIsOneHalf(c: Config, g: Group)
    requires GroupSound(c, g)
    ensures OneHalf(c, g)
  {
    forall k | 0 <= k < |g.conns| ensures HalfOfLink(c, g.conns[k].addr, g.id[..HALF]) {
      assert Claims(g, g.conns[k].addr);
    }
  }

  /** On every run over any lossy, duplicating and reordering network: no sender
      ever loses its half, every id a sender holds is honest, and senders with
      different halves never have connections in the same group, whatever the SRT
      server sends. */
  lemma Isolation(c: Config, acts: seq<Action>)
    requires ValidConfig(c)
    ensures var y := AfterActions(c, acts);
            && (forall i :: 0 <= i < |c.halves| ==>
                  |y.senders[i].id| == ID_LEN && y.senders[i].id[..HALF] == c.halves[i])
            && (forall i :: 0 <= i < |c.halves| ==> HonestId(c, y, i))
            && (forall g :: 0 <= g < |y.receiver.groups| ==> OneHalf(c, y.receiver.groups[g]))
  {
    var y := AfterActions(c, acts);
    forall i | 0 <= i < |c.halves| ensures HonestId(c, y, i) {
      AdoptedIsHonest(c, y, i);
    }
    forall g | 0 <= g < |y.receiver.groups| ensures OneHalf(c, y.receiver.groups[g]) {
      SoundIsOneHalf(c, y.receiver.groups[g]);
    }
  }

  // ---- why the caller's packets matter ----------------------------------------------------------------

  /** A REG2 from an address that nobody claims, for a group with room, keeps the
      group to one half exactly if it comes from a link with that half. */
  lemma JoinSoundIff(c: Config, s: State, addr: Address, id: Id, ts: int, env: Env)
    requires FindById(s.groups, id) >= 0 && FindByAddress(s.groups, addr) == Nobody && env.sendOk
    requires var g := s.groups[FindById(s.groups, id)]; |g.conns| < MAX_CONNS_PER_GROUP && OneHalf(c, g)
    ensures OneHalf(c, RegisterConnection(s, addr, id, ts, env).state.groups[FindById(s.groups, id)])
            <==> HalfOfLink(c, addr, id[..HALF])
  {
    var g := s.groups[FindById(s.groups, id)];
    var r := Joined(g, addr, false, ts);
    assert r.conns[|g.conns|].addr == addr;
    assert forall k :: 0 <= k < |g.conns| ==> r.conns[k] == g.conns[k];
  }

  /** A new group listens to a link of its own half exactly if the REG1 carried
      the half of the link it came from. */
  lemma NewGroupSoundIff(c: Config, s: State, addr: Address, half: Id, ts: int, env: Env)
    requires |half| == HALF && |env.random| == HALF
    requires RegisterGroup(s, addr, half, ts, env).outs == [Out(addr, RegTwo(half + env.random))]
    ensures var gs := RegisterGroup(s, addr, half, ts, env).state.groups;
            |gs| > 0 && (GroupSound(c, gs[|gs| - 1]) <==> HalfOfLink(c, addr, half))
  {
    var g := NewGroup(MadeRoom(s).counters.registered, half + env.random, addr, ts);
    assert (half + env.random)[..HALF] == half;
    assert Claims(g, addr);
  }
}
