/** How the receiver reads packets, byte by byte. */
module Wire {
  import opened Bytes
  import opened Net
  import opened ReceiverTypes
  import opened Registry
  import opened Receiver
  import NakDedup

  predicate StartsWith(buf: seq<Byte>, b0: Byte, b1: Byte) {
    |buf| >= 2 && buf[0] == b0 && buf[1] == b1
  }

  /** A registration has 258 bytes; whatever starts like a keepalive is one; and
      anything else is SRT traffic exactly if it has 16 bytes. */
  lemma ClassifyExact(buf: seq<Byte>)
    ensures var p := Classify(buf);
            && (p.Reg1? <==> |buf| == 258 && StartsWith(buf, 0x92, 0x00))
            && (p.Reg1? ==> p.half == buf[2..130])
            && (p.Reg2? <==> |buf| == 258 && StartsWith(buf, 0x92, 0x01))
            && (p.Reg2? ==> p.id == buf[2..258])
            && (p.Keepalive? <==> StartsWith(buf, 0x90, 0x00))
            && (p.Runt? <==> |buf| < 16 && !StartsWith(buf, 0x90, 0x00))
  {
  }

  lemma TypesExact(buf: seq<Byte>)
    ensures IsAck(buf) <==> StartsWith(buf, 0x80, 0x02)
    ensures IsNak(buf) <==> StartsWith(buf, 0x80, 0x03)
    ensures IsShutdown(buf) <==> StartsWith(buf, 0x80, 0x05)
  {
  }

  /** A handshake of 64 bytes whose tenth word is a reason to reject. */
  lemma RejectExact(header: seq<Byte>, code: int, rest: seq<Byte>)
    requires |header| == 36 && 0 <= code < 0x1_0000_0000
    ensures IsReject(header + Be32(code) + rest)
            <==> |rest| >= 24 && StartsWith(header, 0x80, 0x00) && 1000 <= code < 0x8000_0000
  {
    var buf := header + Be32(code) + rest;
    assert buf[36..40] == Be32(code);
    Be32RoundTrip(code, buf, 36);
  }

  /** A packet is data exactly if its first bit is 0, and then its first word is the
      sequence number. */
  lemma NumberExact(word: int, rest: seq<Byte>)
    requires 0 <= word < 0x1_0000_0000
    ensures SequenceNumber(Be32(word) + rest) == if word < 0x8000_0000 then word else -1
  {
    var buf := Be32(word) + rest;
    assert buf[0..4] == Be32(word);
    Be32RoundTrip(word, buf, 0);
  }

  /** Addresses share a throttle exactly if they differ in the port at most. */
  lemma KeyExact(a: Address, b: Address)
    ensures KeyFor(a) == KeyFor(b) <==> a.V4? == b.V4? && a.ip == b.ip
  {
  }

  // ---- NAK hashes ----------------------------------------------------------------------------

  /** The packets are equally long and differ in byte i alone. */
  ghost predicate DifferAt(p: seq<Byte>, q: seq<Byte>, i: nat) {
    |p| == |q| && i < |p| && p[i] as bv8 != q[i] as bv8 && forall j :: 0 <= j < |p| && j != i ==> p[j] == q[j]
  }

  function Bits(buf: seq<Byte>): (r: seq<bv8>)
    ensures |r| == |buf| && forall i :: 0 <= i < |buf| ==> r[i] == buf[i] as bv8
    ensures HashOf(buf) == Hash(NakDedup.HashNak(r, 128))
  {
    seq(|buf|, i requires 0 <= i < |buf| => buf[i] as bv8)
  }

  lemma HashedPartExact(bits: seq<bv8>)
    ensures var part := NakDedup.HashedPart(bits, 128);
            && |part| == (if |bits| <= 16 then 0 else if |bits| <= 144 then |bits| - 16 else 128)
            && forall j :: 0 <= j < |part| ==> part[j] == bits[16 + j]
  {
  }

  lemma SamePartSameHash(p: seq<Byte>, q: seq<Byte>, i: nat)
    requires DifferAt(p, q, i) && !(16 <= i < 144)
    ensures HashOf(p) == HashOf(q)
  {
    HashedPartExact(Bits(p));
    HashedPartExact(Bits(q));
    assert NakDedup.HashedPart(Bits(p), 128) == NakDedup.HashedPart(Bits(q), 128);
  }

  lemma PartsDiffer(p: seq<Byte>, q: seq<Byte>, i: nat)
    requires DifferAt(p, q, i) && 16 <= i < 144
    ensures var a, b := NakDedup.HashedPart(Bits(p), 128), NakDedup.HashedPart(Bits(q), 128);
            && |a| == |b| && i - 16 < |a| && a[i - 16] != b[i - 16]
            && forall j :: 0 <= j < |a| && j != i - 16 ==> a[j] == b[j]
  {
    HashedPartExact(Bits(p));
    HashedPartExact(Bits(q));
  }

  lemma OtherPartOtherHash(p: seq<Byte>, q: seq<Byte>, i: nat)
    requires DifferAt(p, q, i) && 16 <= i < 144
    ensures HashOf(p) != HashOf(q)
  {
    PartsDiffer(p, q, i);
    NakDedup.SingleByteChangesHash(Bits(p), Bits(q), 128, i - 16);
  }

  /** NAKs that differ in one byte are told apart exactly if that byte is one of the
      128 that follow the 16 bytes of the header. */
  lemma HashDiffersIff(p: seq<Byte>, q: seq<Byte>, i: nat)
    requires DifferAt(p, q, i)
    ensures HashOf(p) != HashOf(q) <==> 16 <= i < 144
  {
    if 16 <= i < 144 {
      OtherPartOtherHash(p, q, i);
    } else {
      SamePartSameHash(p, q, i);
    }
  }

  // ---- extended keepalives -----------------------------------------------------------------------

  /** A signed number in 32 bits. */
  function Unsigned32(v: int): (r: int)
    requires -0x8000_0000 <= v < 0x8000_0000
    ensures 0 <= r < 0x1_0000_0000 && Signed32(r) == v
  {
    if v < 0 then v + 0x1_0000_0000 else v
  }

  ghost predicate InRange(info: ConnInfo) {
    && -0x8000_0000 <= info.window < 0x8000_0000 && -0x8000_0000 <= info.inFlight < 0x8000_0000
    && info.rttMs < 0x1_0000_0000 && info.nakCount < 0x1_0000_0000
  }

  /** The four numbers that the receiver reads from an extended keepalive. */
  function InfoBytes(info: ConnInfo): (r: seq<Byte>)
    requires InRange(info)
    ensures |r| == 16
  {
    Be32(Unsigned32(info.window)) + Be32(Unsigned32(info.inFlight)) + Be32(info.rttMs) + Be32(info.nakCount)
  }

  lemma InfoRead(header: seq<Byte>, info: ConnInfo, rest: seq<Byte>)
    requires |header| == 18 && InRange(info)
    ensures var buf := header + InfoBytes(info) + rest;
            && Signed32(ReadBe32(buf, 18)) == info.window && Signed32(ReadBe32(buf, 22)) == info.inFlight
            && ReadBe32(buf, 26) == info.rttMs && ReadBe32(buf, 30) == info.nakCount
  {
    var buf := header + InfoBytes(info) + rest;
    assert buf[18..22] == Be32(Unsigned32(info.window));
    assert buf[22..26] == Be32(Unsigned32(info.inFlight));
    assert buf[26..30] == Be32(info.rttMs);
    assert buf[30..34] == Be32(info.nakCount);
    Be32RoundTrip(Unsigned32(info.window), buf, 18);
    Be32RoundTrip(Unsigned32(info.inFlight), buf, 22);
    Be32RoundTrip(info.rttMs, buf, 26);
    Be32RoundTrip(info.nakCount, buf, 30);
  }

  /** A keepalive carries telemetry exactly if it has 38 bytes and, after its type and
      8 bytes of time, the magic number 0xC01F and version 1; the window, the packets
      in flight, the round trip and the NAKs then follow the number of the link. */
  lemma KeepaliveExact(header: seq<Byte>, info: ConnInfo, rest: seq<Byte>)
    requires |header| == 18 && StartsWith(header, 0x90, 0x00) && InRange(info)
    ensures Classify(header + InfoBytes(info) + rest)
            == Keepalive(if |rest| >= 4 && header[10..14] == [0xC0, 0x1F, 0x00, 0x01] then SomeInfo(info) else NoInfo)
  {
    var buf := header + InfoBytes(info) + rest;
    InfoRead(header, info, rest);
    assert buf[10] == header[10] && buf[11] == header[11] && buf[12] == header[12] && buf[13] == header[13];
    var magic := header[10..14];
    assert magic == [header[10], header[11], header[12], header[13]];
  }

  // ---- the round trips --------------------------------------------------------------------------------

  /** The statistics after this telemetry, in order. */
  function Told(s: Stats, infos: seq<ConnInfo>, clock: int): Stats {
    if infos == [] then s else WithTelemetry(Told(s, infos[..|infos| - 1], clock), infos[|infos| - 1], clock)
  }

  lemma OtherSlot(j: nat, n: nat)
    requires j < n < j + 5
    ensures j % 5 != n % 5
  {
  }

  lemma SlotAfter(n: nat)
    ensures (n % 5 + 1) % 5 == (n + 1) % 5
  {
  }

  lemma {:induction false} NextSlot(infos: seq<ConnInfo>, clock: int)
    ensures Told(NEW_STATS, infos, clock).rttIndex == |infos| % 5
    decreases |infos|
  {
    if infos != [] {
      NextSlot(infos[..|infos| - 1], clock);
      SlotAfter(|infos| - 1);
    }
  }

  /** The history of a connection has the round trips of its last five extended
      keepalives, number j in slot j modulo 5. */
  lemma {:induction false} LastFive(infos: seq<ConnInfo>, clock: int, j: nat)
    requires |infos| - 5 <= j < |infos|
    ensures Told(NEW_STATS, infos, clock).rttHistory[j % 5] == infos[j].rttMs
    decreases |infos|
  {
    var n := |infos| - 1;
    NextSlot(infos[..n], clock);
    if j < n {
      OtherSlot(j, n);
      LastFive(infos[..n], clock, j);
    }
  }

  /** The latest keepalive is what the evaluation knows of the sender. */
  lemma LatestTold(s: Stats, infos: seq<ConnInfo>, clock: int)
    requires infos != []
    ensures var t, info := Told(s, infos, clock), infos[|infos| - 1];
            && t.extended && t.lastKeepalive == clock
            && t.rttMs == info.rttMs && t.window == info.window && t.inFlight == info.inFlight
            && t.senderNakCount == info.nakCount
  {
  }

  /** A keepalive from a member is echoed; nothing changes but what is known of that
      member: when it was heard, and what it told. */
  lemma KeepaliveHeard(s: State, addr: Address, buf: seq<Byte>, ts: int, env: Env, i: nat, k: nat)
    requires FindByAddress(s.groups, addr) == Somebody(i, k) && StartsWith(buf, 0x90, 0x00)
    ensures var r, g := HandleDatagram(s, addr, buf, ts, env), s.groups[i];
            && r.outs == [Out(addr, Echo)]
            && |r.state.groups| == |s.groups|
            && (forall j :: 0 <= j < |s.groups| && j != i ==> r.state.groups[j] == s.groups[j])
            && |r.state.groups[i].conns| == |g.conns|
            && r.state.groups[i] == g.(conns := r.state.groups[i].conns)
            && (forall l :: 0 <= l < |g.conns| && l != k ==> r.state.groups[i].conns[l] == g.conns[l])
            && r.state.groups[i].conns[k].lastReceived == ts
            && r.state.groups[i].conns[k].stats
               == (match ParseInfo(buf) case SomeInfo(info) => Told(g.conns[k].stats, [info], env.clock)
                                        case NoInfo => g.conns[k].stats)
  {
    ClassifyExact(buf);
    if ParseInfo(buf).SomeInfo? {
      assert Told(s.groups[i].conns[k].stats, [], env.clock) == s.groups[i].conns[k].stats;
    }
  }

  /** The address is that of a member of some group. */
  predicate FromMember(s: State, addr: Address) {
    var r := FindByAddress(s.groups, addr);
    r.Somebody? && r.conn >= 0
  }

  /** What a packet that is no registration is answered: nothing, and nothing changes,
      unless it comes from a member; then a keepalive is echoed, a packet that is too
      short gets no answer, and SRT traffic at most an ACK packet with ten numbers. */
  lemma TrafficAnswers(s: State, addr: Address, buf: seq<Byte>, ts: int, env: Env)
    requires !Classify(buf).Reg1? && !Classify(buf).Reg2?
    ensures var r := HandleDatagram(s, addr, buf, ts, env);
            && (!FromMember(s, addr) ==> r == Outcome(s, []))
            && (FromMember(s, addr) && StartsWith(buf, 0x90, 0x00) ==> r.outs == [Out(addr, Echo)])
            && (FromMember(s, addr) && !StartsWith(buf, 0x90, 0x00) && |buf| < 16 ==> r.outs == [])
            && (FromMember(s, addr) && !StartsWith(buf, 0x90, 0x00) && r.outs != [] ==>
                  && |r.outs| == 1 && r.outs[0].to == addr && buf[0] < 0x80
                  && r.outs[0].reply.AckPacket? && |r.outs[0].reply.sns| == 10)
  {
    ClassifyExact(buf);
  }
}
