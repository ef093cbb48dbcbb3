/** The receiver's connections and groups as values: what the objects of
    src/connection hold. */
module ReceiverTypes {
  import opened Bytes
  import opened Net
  import opened AckStream
  import NakDedup

  const RTT_HISTORY_SIZE := 5
  const WEIGHT_FULL := 100
  const CONN_TIMEOUT := 15

  type RttHistory = h: seq<nat> | |h| == RTT_HISTORY_SIZE witness [0, 0, 0, 0, 0]
  type RttIndex = i: nat | i < RTT_HISTORY_SIZE

  /** ConnectionStats (src/receiver_config.h). */
  datatype Stats = Stats(
    bytesReceived: nat, packetsReceived: nat, packetsLost: nat,
    lastEvalTime: nat, lastBytesReceived: nat, lastPacketsReceived: nat, lastPacketsLost: nat,
    errorPoints: nat, weightPercent: nat, nackCount: nat,
    rttMs: nat, rttHistory: RttHistory, rttIndex: RttIndex, lastKeepalive: int,
    window: int, inFlight: int, senderNakCount: nat, lastSenderNakCount: nat,
    extended: bool,
    legacyErrorPoints: nat, legacyWeightPercent: nat)

  const NEW_STATS := Stats(0, 0, 0, 0, 0, 0, 0, 0, WEIGHT_FULL, 0,
                           0, [0, 0, 0, 0, 0], 0, 0, 0, 0, 0, 0, false, 0, WEIGHT_FULL)

  datatype Conn = Conn(addr: Address, lastReceived: int, connectionStart: int, recoveryStart: int,
                       recvLog: RecvLog, stats: Stats)

  function NewConn(addr: Address, now: int): Conn {
    Conn(addr, now, now, 0, EMPTY_LOG, NEW_STATS)
  }

  predicate TimedOut(c: Conn, now: int) {
    c.lastReceived + CONN_TIMEOUT < now
  }

  /** A NAK hash, boxed so that it can key a map. */
  datatype Hash = Hash(bits: bv64)

  type Id = seq<Byte>

  /** `serial` stands for the identity of the group object; it is not a field
      of the source. */
  datatype Group = Group(serial: nat, id: Id, conns: seq<Conn>, createdAt: int,
                         dataSeen: bool, established: bool, socketOpen: bool, lastAddress: Address,
                         lastQualityEval: int, lastBalanceEval: int, balancing: bool,
                         nakCache: NakDedup.Cache<Hash>)

  function NewGroup(serial: nat, id: Id, addr: Address, now: int): Group {
    Group(serial, id, [], now, false, false, false, addr, 0, 0, true, map[])
  }
}
