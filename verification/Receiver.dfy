/**
  The receiver as a state machine: the registration and traffic handlers
  (src/protocol/srtla_handler.cpp), the SRT side (src/protocol/srt_handler.cpp)
  and the main loop that drives them (src/receiver_main.cpp).
 */
module Receiver {
  import opened Bytes
  import opened Net
  import opened Sums
  import opened ReceiverTypes
  import opened Registry
  import opened Quality
  import AckStream
  import AuthLimiter
  import NakDedup

  const MAX_GROUPS := 200
  const MAX_CONNS_PER_GROUP := 16
  const SRT_MIN_LEN := 16
  const ID_LEN := 256
  const REG_LEN := 258
  const NAK_HASH_PREFIX := 128

  // ---- packets --------------------------------------------------------------------

  /** The telemetry of an extended keepalive that the evaluation uses. */
  datatype ConnInfo = ConnInfo(window: int, inFlight: int, rttMs: nat, nakCount: nat)
  datatype OptionalInfo = NoInfo | SomeInfo(info: ConnInfo)

  datatype Packet =
    | Reg1(half: Id)
    | Reg2(id: Id)
    | Keepalive(info: OptionalInfo)
    | Runt
    | Srt

  function Be16(s: seq<Byte>, at: nat): int
    requires at + 2 <= |s|
  {
    (s[at] as int) * 256 + s[at + 1]
  }

  /** parse_keepalive_conn_info. */
  function ParseInfo(buf: seq<Byte>): OptionalInfo {
    if |buf| >= 38 && Be16(buf, 10) == 0xC01F && Be16(buf, 12) == 1
    then SomeInfo(ConnInfo(Signed32(ReadBe32(buf, 18)), Signed32(ReadBe32(buf, 22)),
                           ReadBe32(buf, 26), ReadBe32(buf, 30)))
    else NoInfo
  }

  /** The dispatch of process_single_packet. */
  function Classify(buf: seq<Byte>): (p: Packet)
    ensures p.Reg1? ==> |p.half| == ID_LEN / 2
    ensures p.Reg2? ==> |p.id| == ID_LEN
    ensures p.Srt? ==> |buf| >= SRT_MIN_LEN
  {
    if |buf| == REG_LEN && PacketType(buf) == SRTLA_TYPE_REG1 then Reg1(buf[2..2 + ID_LEN / 2])
    else if |buf| == REG_LEN && PacketType(buf) == SRTLA_TYPE_REG2 then Reg2(buf[2..])
    else if PacketType(buf) == SRTLA_TYPE_KEEPALIVE then Keepalive(ParseInfo(buf))
    else if |buf| < SRT_MIN_LEN then Runt
    else Srt
  }

  predicate IsAck(buf: seq<Byte>) { PacketType(buf) == SRT_TYPE_ACK }
  predicate IsNak(buf: seq<Byte>) { PacketType(buf) == SRT_TYPE_NAK }
  predicate IsShutdown(buf: seq<Byte>) { PacketType(buf) == SRT_TYPE_SHUTDOWN }

  /** A handshake whose type field is a failure code. */
  predicate IsReject(buf: seq<Byte>) {
    |buf| >= 64 && PacketType(buf) == SRT_TYPE_HANDSHAKE && 1000 <= ReadBe32(buf, 36) < 0x8000_0000
  }

  /** get_srt_sn: the sequence number of a data packet, -1 for control packets. */
  function SequenceNumber(buf: seq<Byte>): (sn: int)
    requires |buf| >= 4
    ensures -1 <= sn < MAX_SN
  {
    if buf[0] < 128 then ReadBe32(buf, 0) else -1
  }

  function HashOf(buf: seq<Byte>): Hash {
    Hash(NakDedup.HashNak(seq(|buf|, i requires 0 <= i < |buf| => buf[i] as bv8), NAK_HASH_PREFIX))
  }

  // ---- state, inputs, outputs -----------------------------------------------------------

  /** The metrics the conservation laws are about.  `discarded` counts recoveries
      lost with a torn-down group; the source has no counter for it. */
  datatype Counters = Counters(registered: nat, idle: nat, auth: nat, srtError: nat, evicted: nat,
                               started: nat, completed: nat, failed: nat, discarded: nat, connsRemoved: nat)

  datatype State = State(groups: seq<Group>, lastCleanup: int, limiter: AuthLimiter.Table, counters: Counters)

  const INITIAL := State([], 0, map[], Counters(0, 0, 0, 0, 0, 0, 0, 0, 0, 0))

  datatype Forwarding = Sent | Dropped | Broken

  /** The readings of the millisecond clock for one packet: by the NAK filter, and
      by the evaluation that a NAK may trigger. */
  datatype Millis = Millis(dedup: nat, eval: nat)

  /** What the environment decides while a packet is handled: later clock
      readings, whether sends and the SRT socket work, and the random id half. */
  datatype Env = Env(clock: int, ms: Millis, sendOk: bool, socketOk: bool, forward: Forwarding, random: Id)

  datatype Reply = RegErr | RegNgp | RegTwo(id: Id) | RegThree | AckPacket(sns: seq<int>) | Echo
                 | Relay(buf: seq<Byte>)
  datatype Out = Out(to: Address, reply: Reply)
  datatype Outcome = Outcome(state: State, outs: seq<Out>)

  // ---- registration -----------------------------------------------------------------------

  function Evicted(s: State): State {
    var v := OldestGhost(s.groups, |s.groups|);
    if v < 0 then s
    else s.(groups := RemoveAt(s.groups, v), counters := s.counters.(evicted := s.counters.evicted + 1))
  }

  /** Room for one more group, by evicting a ghost if the table is full. */
  function MadeRoom(s: State): State {
    if |s.groups| >= MAX_GROUPS then Evicted(s) else s
  }

  function Admitted(s: State, addr: Address, id: Id, ts: int): State {
    s.(groups := s.groups + [NewGroup(s.counters.registered, id, addr, ts)],
       counters := s.counters.(registered := s.counters.registered + 1))
  }

  /** register_group. */
  function RegisterGroup(s: State, addr: Address, half: Id, ts: int, env: Env): Outcome {
    if AuthLimiter.Blocked(s.limiter, KeyFor(addr), ts) then Outcome(s, [Out(addr, RegErr)])
    else if |s.groups| >= MAX_GROUPS && OldestGhost(s.groups, |s.groups|) < 0 then Outcome(s, [Out(addr, RegErr)])
    else
      var s1 := MadeRoom(s);
      if FindByAddress(s1.groups, addr) != Nobody then Outcome(s1, [Out(addr, RegErr)])
      else if !env.sendOk then Outcome(s1, [])
      else Outcome(Admitted(s1, addr, half + env.random, ts), [Out(addr, RegTwo(half + env.random))])
  }

  function Joined(g: Group, addr: Address, known: bool, ts: int): Group {
    g.(conns := if known then g.conns else g.conns + [NewConn(addr, ts)], lastAddress := addr)
  }

  /** register_connection. */
  function RegisterConnection(s: State, addr: Address, id: Id, ts: int, env: Env): Outcome {
    var i := FindById(s.groups, id);
    if i < 0 then Outcome(s, [Out(addr, RegNgp)])
    else
      var r := FindByAddress(s.groups, addr);
      if r.Somebody? && r.group != i then Outcome(s, [Out(addr, RegErr)])
      else
        var known := r.Somebody? && r.conn >= 0;
        if !known && |s.groups[i].conns| >= MAX_CONNS_PER_GROUP then Outcome(s, [Out(addr, RegErr)])
        else if !env.sendOk then Outcome(s, [])
        else Outcome(s.(groups := s.groups[i := Joined(s.groups[i], addr, known, ts)]), [Out(addr, RegThree)])
  }

  // ---- traffic ---------------------------------------------------------------------------------

  function SetConn(g: Group, k: nat, c: Conn): Group
    requires k < |g.conns|
  {
    g.(conns := g.conns[k := c])
  }

  predicate StartsRecovery(c: Conn, ts: int) {
    c.recoveryStart == 0 && TimedOut(c, ts)
  }

  function Touched(c: Conn, ts: int): Conn {
    c.(lastReceived := ts, recoveryStart := if StartsRecovery(c, ts) then ts else c.recoveryStart)
  }

  /** update_connection_telemetry. */
  function WithTelemetry(s: Stats, info: ConnInfo, clock: int): Stats {
    s.(extended := true,
       rttHistory := s.rttHistory[s.rttIndex := info.rttMs],
       rttIndex := (s.rttIndex + 1) % RTT_HISTORY_SIZE,
       rttMs := info.rttMs, window := info.window, inFlight := info.inFlight,
       senderNakCount := info.nakCount, lastKeepalive := clock)
  }

  function CountPacket(s: Stats, bytes: nat): Stats {
    s.(bytesReceived := s.bytesReceived + bytes, packetsReceived := s.packetsReceived + 1)
  }

  function CountNak(s: Stats): Stats {
    s.(packetsLost := (s.packetsLost + 1) % U32, nackCount := (s.nackCount + 1) % 0x1_0000)
  }

  /** The group once a packet of real SRT traffic is counted. */
  function Streaming(g: Group, k: nat, addr: Address, bytes: nat): Group
    requires k < |g.conns|
  {
    var c := g.conns[k];
    SetConn(g, k, c.(stats := CountPacket(c.stats, bytes))).(dataSeen := true, lastAddress := addr)
  }

  predicate Suppressed(g: Group, buf: seq<Byte>, nowMs: nat) {
    IsNak(buf) && !NakDedup.Accepts(g.nakCache, HashOf(buf), nowMs)
  }

  /** An accepted NAK is counted and may trigger an immediate evaluation. */
  function NakNoted(g: Group, k: nat, buf: seq<Byte>, ts: int, ms: Millis): (r: Group)
    requires k < |g.conns|
    ensures |r.conns| == |g.conns|
  {
    if !IsNak(buf) then g
    else
      var c := g.conns[k];
      var g1 := SetConn(g, k, c.(stats := CountNak(c.stats)))
                .(nakCache := NakDedup.AfterCall(g.nakCache, HashOf(buf), ms.dedup));
      if g1.conns[k].stats.nackCount > 5 && g1.lastQualityEval + 1 < ts then Evaluated(g1, ts, ms.eval) else g1
  }

  /** register_packet, for a data packet. */
  function Logged(g: Group, k: nat, sn: int): Group
    requires k < |g.conns|
  {
    var c := g.conns[k];
    if sn < 0 then g
    else SetConn(g, k, c.(recvLog := AckStream.Register(c.recvLog, sn)))
  }

  function AckOuts(c: Conn, sn: int): seq<Out> {
    if sn < 0 then []
    else
      var done := AckStream.Completed(c.recvLog, sn);
      if done == [] then [] else [Out(c.addr, AckPacket(done[0]))]
  }

  function InRecovery(c: Conn): nat { if c.recoveryStart > 0 then 1 else 0 }
  function Recovering(g: Group): nat { Sum(g.conns, InRecovery) }

  datatype Reason = SrtError | AuthFailure

  function CountedOut(c: Counters, g: Group, reason: Reason): Counters {
    var d := c.(discarded := c.discarded + Recovering(g));
    if reason.SrtError? then d.(srtError := d.srtError + 1) else d.(auth := d.auth + 1)
  }

  /** SRTHandler::remove_group. */
  function TornDown(s: State, i: nat, reason: Reason): State
    requires i < |s.groups|
  {
    s.(groups := RemoveAt(s.groups, i), counters := CountedOut(s.counters, s.groups[i], reason))
  }

  /** forward_to_srt_server with ensure_group_socket. */
  function Forwarded(s: State, i: nat, env: Env): State
    requires i < |s.groups|
  {
    var g := s.groups[i];
    if !g.socketOpen && !env.socketOk then TornDown(s, i, SrtError)
    else
      var s1 := s.(groups := s.groups[i := g.(socketOpen := true)]);
      if env.forward.Broken? then TornDown(s1, i, SrtError) else s1
  }

  /** The group after an SRT packet, up to forwarding it. */
  function SrtInGroup(g: Group, k: nat, addr: Address, buf: seq<Byte>, ts: int, ms: Millis): (r: Group)
    requires k < |g.conns| && |buf| >= SRT_MIN_LEN
  {
    var g1 := Streaming(g, k, addr, |buf|);
    if Suppressed(g1, buf, ms.dedup) then g1
    else Logged(NakNoted(g1, k, buf, ts, ms), k, SequenceNumber(buf))
  }

  function TouchedGroup(g: Group, k: nat, ts: int): (r: Group)
    requires k < |g.conns|
    ensures |r.conns| == |g.conns|
  {
    SetConn(g, k, Touched(g.conns[k], ts))
  }

  function TelemetryInGroup(g: Group, k: nat, info: OptionalInfo, clock: int): Group
    requires k < |g.conns|
  {
    if info.NoInfo? then g
    else SetConn(g, k, g.conns[k].(stats := WithTelemetry(g.conns[k].stats, info.info, clock)))
  }

  function RecoveryCounted(s: State, i: nat, k: nat, ts: int): Counters
    requires i < |s.groups| && k < |s.groups[i].conns|
  {
    s.counters.(started := s.counters.started + One(StartsRecovery(s.groups[i].conns[k], ts)))
  }

  /** The group after a packet that is not SRT traffic. */
  function Quietly(g: Group, k: nat, buf: seq<Byte>, ts: int, clock: int): Group
    requires k < |g.conns|
  {
    var t := TouchedGroup(g, k, ts);
    if Classify(buf).Keepalive? then TelemetryInGroup(t, k, Classify(buf).info, clock) else t
  }

  function QuietState(s: State, i: nat, k: nat, buf: seq<Byte>, ts: int, clock: int): State
    requires i < |s.groups| && k < |s.groups[i].conns|
  {
    s.(groups := s.groups[i := Quietly(s.groups[i], k, buf, ts, clock)], counters := RecoveryCounted(s, i, k, ts))
  }

  /** The state after an SRT packet, up to forwarding it. */
  function SrtState(s: State, i: nat, k: nat, addr: Address, buf: seq<Byte>, ts: int, ms: Millis): (r: State)
    requires i < |s.groups| && k < |s.groups[i].conns| && |buf| >= SRT_MIN_LEN
    ensures |r.groups| == |s.groups|
  {
    s.(groups := s.groups[i := SrtInGroup(TouchedGroup(s.groups[i], k, ts), k, addr, buf, ts, ms)],
       counters := RecoveryCounted(s, i, k, ts))
  }

  /** process_single_packet, for everything but registrations. */
  function HandleTraffic(s: State, addr: Address, buf: seq<Byte>, ts: int, env: Env): Outcome {
    var r := FindByAddress(s.groups, addr);
    if r.Nobody? || r.conn < 0 then Outcome(s, [])
    else
      var i, k := r.group, r.conn;
      if !Classify(buf).Srt? then
        Outcome(QuietState(s, i, k, buf, ts, env.clock), if Classify(buf).Keepalive? then [Out(addr, Echo)] else [])
      else
        var s1 := SrtState(s, i, k, addr, buf, ts, env.ms);
        if Suppressed(s.groups[i], buf, env.ms.dedup) then Outcome(s1, [])
        else Outcome(Forwarded(s1, i, env), AckOuts(s.groups[i].conns[k], SequenceNumber(buf)))
  }

  /** process_single_packet. */
  function HandleDatagram(s: State, addr: Address, buf: seq<Byte>, ts: int, env: Env): Outcome {
    match Classify(buf)
    case Reg1(half) => RegisterGroup(s, addr, half, ts, env)
    case Reg2(id) => RegisterConnection(s, addr, id, ts, env)
    case _ => HandleTraffic(s, addr, buf, ts, env)
  }

  // ---- the SRT side -----------------------------------------------------------------------------

  /** ACKs and NAKs go to the first MAX_CONNS_PER_GROUP connections, everything
      else to the last address. */
  function RelayTargets(g: Group, buf: seq<Byte>): seq<Address> {
    if IsAck(buf) || IsNak(buf) then
      var n := if |g.conns| < MAX_CONNS_PER_GROUP then |g.conns| else MAX_CONNS_PER_GROUP;
      seq(n, k requires 0 <= k < |g.conns| => g.conns[k].addr)
    else [g.lastAddress]
  }

  function RelayOuts(g: Group, buf: seq<Byte>): seq<Out> {
    var targets := RelayTargets(g, buf);
    seq(|targets|, j requires 0 <= j < |targets| => Out(targets[j], Relay(buf)))
  }

  predicate FailsAuth(g: Group, buf: seq<Byte>) {
    IsReject(buf) || (IsShutdown(buf) && !g.established)
  }

  function WithFailure(s: State, key: IpKey, now: int): State {
    s.(limiter := s.limiter[key := AuthLimiter.Fail(AuthLimiter.Get(s.limiter, key), now)])
  }

  /** handle_srt_data for the group that the id of group `raw` leads to.  `buf`
      is what the SRT socket delivers; a failed read delivers too few bytes. */
  function HandleServer(s: State, raw: nat, buf: seq<Byte>, env: Env): Outcome
    requires raw < |s.groups|
  {
    var i := FindById(s.groups, s.groups[raw].id);
    if i < 0 then Outcome(s, [])
    else
      var g := s.groups[i];
      if !g.socketOpen || |buf| < SRT_MIN_LEN then Outcome(TornDown(s, i, SrtError), [])
      else
        var g1 := if IsAck(buf) then g.(established := true) else g;
        var outs := RelayOuts(g1, buf);
        if !FailsAuth(g1, buf) then Outcome(s.(groups := s.groups[i := g1]), outs)
        else Outcome(TornDown(WithFailure(s, KeyFor(g.lastAddress), env.clock), i, AuthFailure), outs)
  }

  // ---- the main loop ---------------------------------------------------------------------------------

  /** The counters once a reaper pass with this tally is booked. */
  function Booked(c: Counters, t: Tally): Counters {
    c.(completed := c.completed + t.completed, failed := c.failed + t.failed,
       connsRemoved := c.connsRemoved + t.connsRemoved, idle := c.idle + t.groupsRemoved)
  }

  function CleanupPass(s: State, ts: int): State {
    s.(lastCleanup := ts, groups := ReapGroups(s.groups, ts), counters := Booked(s.counters, TallyGroups(s.groups, ts)))
  }

  /** cleanup_inactive, at most every CLEANUP_PERIOD seconds. */
  function CleanedUp(s: State, ts: int): State {
    if s.lastCleanup + CLEANUP_PERIOD > ts then s else CleanupPass(s, ts)
  }

  /** Evaluation and weights; `millis` is the clock reading for each group. */
  function TendAll(gs: seq<Group>, ts: int, millis: nat -> nat): (r: seq<Group>)
    ensures |r| == |gs| && forall i :: 0 <= i < |r| ==> r[i] == Tended(gs[i], ts, millis(i))
  {
    seq(|gs|, i requires 0 <= i < |gs| => Tended(gs[i], ts, millis(i)))
  }

  /** What follows the events of an iteration. */
  function LoopTail(s: State, ts: int, millis: nat -> nat): State {
    var s1 := CleanedUp(s, ts);
    s1.(groups := TendAll(s1.groups, ts, millis), limiter := AuthLimiter.Swept(s1.limiter, ts))
  }

  datatype Event =
    | Datagram(addr: Address, buf: seq<Byte>, env: Env)
    | FromServer(raw: nat, buf: seq<Byte>, env: Env)

  /** An event on a socket: of the SRTLA socket, where empty datagrams are
      dropped, or of a live group's SRT socket. */
  predicate Possible(s: State, e: Event) {
    && |e.env.random| == ID_LEN / 2
    && (e.Datagram? ==> e.buf != [])
    && (e.FromServer? ==> e.raw < |s.groups| && s.groups[e.raw].socketOpen)
  }

  function Step(s: State, e: Event, ts: int): Outcome
    requires Possible(s, e)
  {
    match e
    case Datagram(addr, buf, env) => HandleDatagram(s, addr, buf, ts, env)
    case FromServer(raw, buf, env) => HandleServer(s, raw, buf, env)
  }
}
