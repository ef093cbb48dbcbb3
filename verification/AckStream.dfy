/**
  SRTLA acknowledgements: the receiver collects the sequence numbers of a
  connection in a ten-slot log and sends the log when it is full
  (src/protocol/srtla_handler.cpp, register_packet); the sender reads the
  numbers back one by one (src/sender.cpp, handle_srtla_data).
 */
module AckStream {
  import opened Bytes
  import opened Seqs

  const RECV_ACK_INT := 10

  /** recv_idx_ and recv_log_ of a connection; the log has a fixed size. */
  datatype LogRecord = RecvLog(index: int, log: seq<int>)
  type RecvLog = r: LogRecord | |r.log| == RECV_ACK_INT witness RecvLog(0, [0, 0, 0, 0, 0, 0, 0, 0, 0, 0])

  const EMPTY_LOG: RecvLog := RecvLog(0, [0, 0, 0, 0, 0, 0, 0, 0, 0, 0])

  ghost predicate Valid(r: RecvLog) {
    0 <= r.index < RECV_ACK_INT
    && forall i :: 0 <= i < RECV_ACK_INT ==> 0 <= r.log[i] < MAX_SN
  }

  /** The slot after `index`, falling back to the first one when out of range. */
  function NextIndex(index: int): (n: int)
    ensures 1 <= n <= RECV_ACK_INT
  {
    if index + 1 <= 0 || index + 1 > RECV_ACK_INT then 1 else index + 1
  }

  function Stored(r: RecvLog, sn: int): (log: seq<int>)
    ensures |log| == RECV_ACK_INT
  {
    r.log[NextIndex(r.index) - 1 := sn]
  }

  function Register(r: RecvLog, sn: int): (r': RecvLog)
    ensures Valid(r) && 0 <= sn < MAX_SN ==> Valid(r')
  {
    var n := NextIndex(r.index);
    RecvLog(if n == RECV_ACK_INT then 0 else n, Stored(r, sn))
  }

  /** The batch that registering `sn` completes, if any. */
  function Completed(r: RecvLog, sn: int): seq<seq<int>>
  {
    if NextIndex(r.index) == RECV_ACK_INT then [Stored(r, sn)] else []
  }

  function RegisterAll(r: RecvLog, sns: seq<int>): (r': RecvLog)
  {
    if sns == [] then r else Register(RegisterAll(r, sns[..|sns| - 1]), sns[|sns| - 1])
  }

  /** All batches built while registering `sns`. */
  function Batches(r: RecvLog, sns: seq<int>): seq<seq<int>>
  {
    if sns == [] then []
    else
      var n := |sns| - 1;
      Batches(r, sns[..n]) + Completed(RegisterAll(r, sns[..n]), sns[n])
  }

  lemma StreamStep(r: RecvLog, batches: seq<seq<int>>, past: seq<int>, sn: int)
    requires 0 <= r.index < RECV_ACK_INT
    requires Flatten(batches) + r.log[..r.index] == past
    ensures var r' := Register(r, sn);
            0 <= r'.index < RECV_ACK_INT
            && Flatten(batches + Completed(r, sn)) + r'.log[..r'.index] == past + [sn]
  {
    var log := Stored(r, sn);
    assert log[..r.index + 1] == r.log[..r.index] + [sn];
    if r.index + 1 == RECV_ACK_INT {
      assert log[..r.index + 1] == log;
      assert (batches + [log])[..|batches|] == batches;
      assert Flatten(batches) + log == past + [sn];
    } else {
      assert batches + [] == batches;
    }
  }

  /** The batches followed by the pending part of the log are the registered
      numbers, in order and each once; every batch is full. */
  lemma {:induction false} StreamExact(sns: seq<int>)
    ensures var r, batches := RegisterAll(EMPTY_LOG, sns), Batches(EMPTY_LOG, sns);
            && 0 <= r.index < RECV_ACK_INT
            && Flatten(batches) + r.log[..r.index] == sns
            && forall b :: b in batches ==> |b| == RECV_ACK_INT
    decreases |sns|
  {
    if sns == [] {
      assert EMPTY_LOG.log[..0] == [];
    } else {
      var n := |sns| - 1;
      SplitLast(sns);
      StreamExact(sns[..n]);
      StreamStep(RegisterAll(EMPTY_LOG, sns[..n]), Batches(EMPTY_LOG, sns[..n]), sns[..n], sns[n]);
    }
  }

  lemma {:induction false} FlattenLength(batches: seq<seq<int>>)
    requires forall b :: b in batches ==> |b| == RECV_ACK_INT
    ensures |Flatten(batches)| == RECV_ACK_INT * |batches|
    decreases |batches|
  {
    if batches != [] {
      FlattenLength(batches[..|batches| - 1]);
    }
  }

  /** One acknowledgement for every ten packets. */
  lemma AckCount(sns: seq<int>)
    ensures |Batches(EMPTY_LOG, sns)| == |sns| / RECV_ACK_INT
    ensures RegisterAll(EMPTY_LOG, sns).index == |sns| % RECV_ACK_INT
  {
    StreamExact(sns);
    FlattenLength(Batches(EMPTY_LOG, sns));
  }

  // ---- on the wire -----------------------------------------------------------

  function Words(ids: seq<int>): (s: seq<Byte>)
    requires forall i :: 0 <= i < |ids| ==> 0 <= ids[i] < 0x1_0000_0000
    ensures |s| == 4 * |ids|
  {
    if ids == [] then [] else Words(ids[..|ids| - 1]) + Be32(ids[|ids| - 1])
  }

  /** srtla_ack_pkt: a type word and the logged numbers, all big-endian. */
  function EncodeAck(log: seq<int>): (s: seq<Byte>)
    requires forall i :: 0 <= i < |log| ==> 0 <= log[i] < MAX_SN
    ensures |s| == 4 + 4 * |log|
  {
    Be32(SRTLA_TYPE_ACK * 0x1_0000) + Words(log)
  }

  lemma {:induction false} WordAt(ids: seq<int>, i: nat)
    requires forall i :: 0 <= i < |ids| ==> 0 <= ids[i] < 0x1_0000_0000
    requires i < |ids|
    ensures Words(ids)[4 * i..4 * i + 4] == Be32(ids[i])
    decreases |ids|
  {
    var n := |ids| - 1;
    if i < n {
      WordAt(ids[..n], i);
      assert Words(ids)[4 * i..4 * i + 4] == Words(ids[..n])[4 * i..4 * i + 4];
    }
  }

  lemma WordRead(header: seq<Byte>, ids: seq<int>, i: nat)
    requires forall i :: 0 <= i < |ids| ==> 0 <= ids[i] < 0x1_0000_0000
    requires i < |ids|
    ensures ReadBe32(header + Words(ids), |header| + 4 * i) == ids[i]
  {
    WordAt(ids, i);
    Be32RoundTrip(ids[i], Words(ids), 4 * i);
    ReadAfter(header, Words(ids), 4 * i);
  }

  /** The words after a header of whole words are the numbers. */
  lemma {:induction false} WordsRead(header: seq<Byte>, ids: seq<int>, first: nat, from: nat)
    requires forall i :: 0 <= i < |ids| ==> 0 <= ids[i] < 0x1_0000_0000
    requires |header| == 4 * first && from <= |ids|
    ensures WordsFrom(header + Words(ids), first + from) == ids[from..]
    decreases |ids| - from
  {
    var packet := header + Words(ids);
    assert |packet| / 4 == first + |ids|;
    if from < |ids| {
      WordsRead(header, ids, first, from + 1);
      WordRead(header, ids, from);
      assert ReadBe32(packet, 4 * (first + from)) == ids[from];
      assert ids[from..] == [ids[from]] + ids[from + 1..];
    }
  }

  /** The words after the type word of an ACK packet are the numbers of the batch. */
  lemma AckRoundTrip(log: seq<int>)
    requires forall i :: 0 <= i < |log| ==> 0 <= log[i] < MAX_SN
    ensures WordsFrom(EncodeAck(log), 1) == log
  {
    WordsRead(Be32(SRTLA_TYPE_ACK * 0x1_0000), log, 1, 0);
    assert log[0..] == log;
  }
}
