/**
  The MPEG-TS continuity tracker of the srt-sink helper
  (tests/compat/srt-sink/ts_continuity.h), which follows section 2.4.3.3 of
  ISO/IEC 13818-1.  `Tracker` is the mutable object; `Absorb` is the pure fold
  over whole packets that it is proved to implement.
 */
module TsContinuity {
  import opened Bytes
  import opened Seqs

  const PACKET_SIZE := 188
  const SYNC_BYTE := 0x47
  const NULL_PID := 0x1FFF
  const PID_COUNT := 8192

  type Packet = p: seq<Byte> | |p| == PACKET_SIZE witness seq(PACKET_SIZE, _ => 0)

  /** Counters and the last continuity counter of each PID, -1 while unseen. */
  datatype Counts = Counts(packets: nat, syncErrors: nat, ccErrors: nat, lastCc: seq<int>) {
    ghost predicate Valid() {
      && |lastCc| == PID_COUNT
      && forall pid :: 0 <= pid < PID_COUNT ==> -1 <= lastCc[pid] < 16
    }
  }

  ghost function Initial(): (c: Counts)
    ensures c.Valid()
  {
    Counts(0, 0, 0, seq(PID_COUNT, _ => -1))
  }

  // ---- header fields -------------------------------------------------------

  function Pid(p: Packet): (pid: nat)
    ensures pid < PID_COUNT
  {
    (p[1] as int) % 32 * 256 + p[2]
  }

  function Cc(p: Packet): (cc: nat)
    ensures cc < 16
  {
    p[3] % 16
  }

  function AdaptationControl(p: Packet): nat {
    p[3] / 16 % 4
  }

  predicate HasPayload(p: Packet) {
    AdaptationControl(p) == 1 || AdaptationControl(p) == 3
  }

  predicate HasAdaptation(p: Packet) {
    AdaptationControl(p) == 2 || AdaptationControl(p) == 3
  }

  predicate Discontinuity(p: Packet) {
    HasAdaptation(p) && p[4] > 0 && p[5] >= 128
  }

  /** The fields of a header as section 2.4.3.2 of ISO/IEC 13818-1 lays them out: the
      PID in the low 13 bits of bytes 1 and 2, the adaptation field control and the
      continuity counter in the low six bits of byte 3.  A payload follows if the
      control is odd; an adaptation field does if it is 2 or 3, and it signals a
      discontinuity by its first flag. */
  lemma FieldsExact(flags: nat, pid: nat, scrambling: nat, control: nat, cc: nat, rest: seq<Byte>)
    requires flags < 8 && pid < 8192 && scrambling < 4 && control < 4 && cc < 16 && |rest| == 184
    ensures var p: Packet := [0x47, flags * 32 + pid / 256, pid % 256, scrambling * 64 + control * 16 + cc] + rest;
            && Pid(p) == pid && Cc(p) == cc
            && (HasPayload(p) <==> control % 2 == 1)
            && (Discontinuity(p) <==> control >= 2 && rest[0] > 0 && rest[1] >= 0x80)
  {
  }

  /** The packet takes part in continuity tracking. */
  predicate Tracked(p: Packet) {
    p[0] == SYNC_BYTE && Pid(p) != NULL_PID
  }

  function Expected(prev: int, p: Packet): int {
    if HasPayload(p) then (prev + 1) % 16 else prev
  }

  /** The continuity check of one tracked packet against the previous counter. */
  predicate CcError(prev: int, p: Packet) {
    prev >= 0 && !Discontinuity(p) && Cc(p) != Expected(prev, p)
  }

  // ---- the pure fold -------------------------------------------------------

  function ParseOne(c: Counts, p: Packet): (r: Counts)
    requires |c.lastCc| == PID_COUNT
    ensures |r.lastCc| == PID_COUNT
  {
    var c1 := c.(packets := c.packets + 1);
    if p[0] != SYNC_BYTE then c1.(syncErrors := c.syncErrors + 1)
    else if Pid(p) == NULL_PID then c1
    else c1.(ccErrors := if CcError(c.lastCc[Pid(p)], p) then c.ccErrors + 1 else c.ccErrors,
             lastCc := c.lastCc[Pid(p) := Cc(p)])
  }

  function ParseAll(c: Counts, ps: seq<Packet>): (r: Counts)
    requires |c.lastCc| == PID_COUNT
    ensures |r.lastCc| == PID_COUNT
    decreases |ps|
  {
    if ps == [] then c else ParseAll(ParseOne(c, ps[0]), ps[1..])
  }

  /** The whole packets at the front of a byte stream. */
  function Packets(s: seq<Byte>): (ps: seq<Packet>)
    ensures |ps| == |s| / PACKET_SIZE
  {
    if |s| < PACKET_SIZE then [] else [s[..PACKET_SIZE]] + Packets(s[PACKET_SIZE..])
  }

  /** The bytes after the last whole packet. */
  function Tail(s: seq<Byte>): (t: seq<Byte>)
    ensures |t| < PACKET_SIZE
  {
    s[|s| - |s| % PACKET_SIZE..]
  }

  function Absorb(c: Counts, s: seq<Byte>): (r: Counts)
    requires |c.lastCc| == PID_COUNT
    ensures |r.lastCc| == PID_COUNT
  {
    ParseAll(c, Packets(s))
  }

  /** The first whole packet is parsed first, and the tail is that of the rest. */
  lemma AbsorbFirst(c: Counts, s: seq<Byte>)
    requires |c.lastCc| == PID_COUNT && |s| >= PACKET_SIZE
    ensures Absorb(c, s) == Absorb(ParseOne(c, s[..PACKET_SIZE]), s[PACKET_SIZE..])
    ensures Tail(s) == Tail(s[PACKET_SIZE..])
  {
    var ps := Packets(s);
    assert ps[0] == s[..PACKET_SIZE] && ps[1..] == Packets(s[PACKET_SIZE..]);
  }

  /** The packet at `off`, in a stream read from there. */
  lemma AbsorbAt(c: Counts, data: seq<Byte>, off: nat)
    requires |c.lastCc| == PID_COUNT && off + PACKET_SIZE <= |data|
    ensures var p, next := data[off..off + PACKET_SIZE], off + PACKET_SIZE;
            && Absorb(c, data[off..]) == Absorb(ParseOne(c, p), data[next..])
            && Tail(data[off..]) == Tail(data[next..])
  {
    AbsorbFirst(c, data[off..]);
    assert data[off..][..PACKET_SIZE] == data[off..off + PACKET_SIZE];
    assert data[off..][PACKET_SIZE..] == data[off + PACKET_SIZE..];
  }

  lemma AbsorbShort(c: Counts, s: seq<Byte>)
    requires |c.lastCc| == PID_COUNT && |s| < PACKET_SIZE
    ensures Absorb(c, s) == c && Tail(s) == s
  {
  }

  lemma {:induction false} ParseAllConcat(c: Counts, a: seq<Packet>, b: seq<Packet>)
    requires |c.lastCc| == PID_COUNT
    ensures ParseAll(c, a + b) == ParseAll(ParseAll(c, a), b)
    decreases |a|
  {
    if a == [] {
      assert a + b == b;
    } else {
      assert (a + b)[1..] == a[1..] + b;
      ParseAllConcat(ParseOne(c, a[0]), a[1..], b);
    }
  }

  /** Cutting into packets commutes with appending to a packet-aligned stream. */
  lemma {:induction false} PacketsConcat(a: seq<Byte>, b: seq<Byte>)
    requires |a| % PACKET_SIZE == 0
    ensures Packets(a + b) == Packets(a) + Packets(b)
    decreases |a|
  {
    if a == [] {
      assert a + b == b;
    } else {
      assert (a + b)[..PACKET_SIZE] == a[..PACKET_SIZE];
      assert (a + b)[PACKET_SIZE..] == a[PACKET_SIZE..] + b;
      PacketsConcat(a[PACKET_SIZE..], b);
    }
  }

  lemma {:induction false} PacketsIgnoreTail(s: seq<Byte>)
    ensures Packets(s) == Packets(s[..|s| - |s| % PACKET_SIZE])
    ensures s == s[..|s| - |s| % PACKET_SIZE] + Tail(s)
  {
    var whole := s[..|s| - |s| % PACKET_SIZE];
    assert s == whole + Tail(s);
    PacketsConcat(whole, Tail(s));
  }

  /** Absorbing in two steps, carrying the tail over, equals absorbing at once. */
  lemma AbsorbConcat(c: Counts, s: seq<Byte>, more: seq<Byte>)
    requires |c.lastCc| == PID_COUNT
    ensures Absorb(c, s + more) == Absorb(Absorb(c, s), Tail(s) + more)
    ensures Tail(s + more) == Tail(Tail(s) + more)
  {
    var whole := s[..|s| - |s| % PACKET_SIZE];
    PacketsIgnoreTail(s);
    assert s + more == whole + (Tail(s) + more);
    PacketsConcat(whole, Tail(s) + more);
    ParseAllConcat(c, Packets(whole), Packets(Tail(s) + more));
  }

  // ---- the counters, read off the stream without any state ------------------

  /** Index of the last tracked packet with this PID, -1 if there is none. */
  ghost function LastTracked(ps: seq<Packet>, pid: nat): (j: int)
    ensures -1 <= j < |ps|
    ensures j >= 0 ==> Tracked(ps[j]) && Pid(ps[j]) == pid
  {
    if ps == [] then -1
    else
      var n := |ps| - 1;
      if Tracked(ps[n]) && Pid(ps[n]) == pid then n else LastTracked(ps[..n], pid)
  }

  /** Packet i breaks the continuity of its PID: it does not follow the previous
      packet of that PID by one (with payload) or zero (without), modulo 16. */
  ghost predicate BreaksAt(ps: seq<Packet>, i: nat)
    requires i < |ps|
  {
    var j := LastTracked(ps[..i], Pid(ps[i]));
    Tracked(ps[i]) && !Discontinuity(ps[i]) && j >= 0
    && Cc(ps[i]) != (Cc(ps[j]) + if HasPayload(ps[i]) then 1 else 0) % 16
  }

  ghost function Breaks(ps: seq<Packet>): set<nat> {
    set i: nat | i < |ps| && BreaksAt(ps, i)
  }

  ghost function SyncLosses(ps: seq<Packet>): set<nat> {
    set i: nat | i < |ps| && ps[i][0] != SYNC_BYTE
  }

  lemma SameBreak(ps: seq<Packet>, n: nat, i: nat)
    requires i < n <= |ps|
    ensures BreaksAt(ps[..n], i) <==> BreaksAt(ps, i)
  {
    assert ps[..n][..i] == ps[..i];
    assert ps[..n][i] == ps[i];
  }

  lemma BreaksOfPrefix(ps: seq<Packet>)
    requires ps != []
    ensures var n := |ps| - 1; Breaks(ps) == Breaks(ps[..n]) + if BreaksAt(ps, n) then {n} else {}
  {
    var n := |ps| - 1;
    forall i: nat ensures i in Breaks(ps) <==> i in Breaks(ps[..n]) + if BreaksAt(ps, n) then {n} else {} {
      if i < n {
        SameBreak(ps, n, i);
      }
    }
  }

  lemma PrefixBreaks(ps: seq<Packet>)
    requires ps != []
    ensures var n := |ps| - 1; |Breaks(ps)| == |Breaks(ps[..n])| + if BreaksAt(ps, n) then 1 else 0
  {
    BreaksOfPrefix(ps);
    assert |ps| - 1 !in Breaks(ps[..|ps| - 1]);
  }

  lemma PrefixSyncLosses(ps: seq<Packet>)
    requires ps != []
    ensures var n := |ps| - 1; |SyncLosses(ps)| == |SyncLosses(ps[..n])| + if ps[n][0] != SYNC_BYTE then 1 else 0
  {
    var n := |ps| - 1;
    assert SyncLosses(ps) == if ps[n][0] != SYNC_BYTE then SyncLosses(ps[..n]) + {n} else SyncLosses(ps[..n]);
  }

  /** Parsing one more packet at the end. */
  lemma ParseLast(ps: seq<Packet>)
    requires ps != []
    ensures ParseAll(Initial(), ps) == ParseOne(ParseAll(Initial(), ps[..|ps| - 1]), ps[|ps| - 1])
  {
    var n := |ps| - 1;
    assert ps == ps[..n] + [ps[n]];
    ParseAllConcat(Initial(), ps[..n], [ps[n]]);
    var c := ParseAll(Initial(), ps[..n]);
    assert ParseAll(c, [ps[n]]) == ParseOne(c, ps[n]);
  }

  lemma {:induction false} LastCcExact(ps: seq<Packet>, pid: nat)
    requires pid < PID_COUNT && pid != NULL_PID
    ensures ParseAll(Initial(), ps).lastCc[pid]
            == var j := LastTracked(ps, pid); if j < 0 then -1 else Cc(ps[j])
    decreases |ps|
  {
    if ps != [] {
      LastCcExact(ps[..|ps| - 1], pid);
      ParseLast(ps);
    }
  }

  lemma BreakStep(ps: seq<Packet>)
    requires ps != [] && Tracked(ps[|ps| - 1])
    ensures var n := |ps| - 1;
            BreaksAt(ps, n) <==> CcError(ParseAll(Initial(), ps[..n]).lastCc[Pid(ps[n])], ps[n])
  {
    var n := |ps| - 1;
    LastCcExact(ps[..n], Pid(ps[n]));
  }

  /** The tracker's counters are exactly the packets, the lost syncs and the
      continuity breaks of the stream. */
  lemma {:induction false} CountersExact(ps: seq<Packet>)
    ensures ParseAll(Initial(), ps).packets == |ps|
    ensures ParseAll(Initial(), ps).syncErrors == |SyncLosses(ps)|
    ensures ParseAll(Initial(), ps).ccErrors == |Breaks(ps)|
    decreases |ps|
  {
    if ps == [] {
      assert Breaks(ps) == {} && SyncLosses(ps) == {};
    } else {
      var n := |ps| - 1;
      CountersExact(ps[..n]);
      PrefixBreaks(ps);
      PrefixSyncLosses(ps);
      ParseLast(ps);
      if Tracked(ps[n]) {
        BreakStep(ps);
      }
    }
  }

  // ---- chunk independence --------------------------------------------------

  datatype Fed = Fed(counts: Counts, carry: seq<Byte>)

  /** The effect of one feed(): what the method `Tracker.Feed` is proved to do. */
  function FeedOne(f: Fed, data: seq<Byte>): (r: Fed)
    requires |f.counts.lastCc| == PID_COUNT
    ensures |r.counts.lastCc| == PID_COUNT
  {
    Fed(Absorb(f.counts, f.carry + data), Tail(f.carry + data))
  }

  lemma FeedTooLittle(f: Fed, data: seq<Byte>)
    requires |f.counts.lastCc| == PID_COUNT && |f.carry| + |data| < PACKET_SIZE
    ensures FeedOne(f, data) == Fed(f.counts, f.carry + data)
  {
    AbsorbShort(f.counts, f.carry + data);
  }

  function FeedAll(f: Fed, chunks: seq<seq<Byte>>): (r: Fed)
    requires |f.counts.lastCc| == PID_COUNT
    ensures |r.counts.lastCc| == PID_COUNT
    decreases |chunks|
  {
    if chunks == [] then f else FeedAll(FeedOne(f, chunks[0]), chunks[1..])
  }

  /** However a stream is cut into feed() calls, the outcome is that of the
      whole stream: the fold over its packets, and its tail as the carry. */
  lemma {:induction false} ChunkIndependence(f: Fed, chunks: seq<seq<Byte>>)
    requires |f.counts.lastCc| == PID_COUNT && |f.carry| < PACKET_SIZE
    ensures FeedAll(f, chunks) == FeedOne(f, Flatten(chunks))
    decreases |chunks|
  {
    if chunks == [] {
      assert f.carry + [] == f.carry;
    } else {
      var s, rest := f.carry + chunks[0], Flatten(chunks[1..]);
      FlattenFirst(chunks);
      assert f.carry + Flatten(chunks) == s + rest;
      AbsorbConcat(f.counts, s, rest);
      ChunkIndependence(FeedOne(f, chunks[0]), chunks[1..]);
    }
  }

  /** The bytes that complete the packet in the carry buffer. */
  lemma FeedCompleted(f: Fed, data: seq<Byte>, off: nat)
    requires |f.counts.lastCc| == PID_COUNT && off <= |data| && |f.carry| + off == PACKET_SIZE
    ensures FeedOne(f, data) == FeedOne(Fed(ParseOne(f.counts, f.carry + data[..off]), []), data[off..])
  {
    var all := f.carry + data;
    AbsorbFirst(f.counts, all);
    assert all[..PACKET_SIZE] == f.carry + data[..off];
    assert all[PACKET_SIZE..] == data[off..] == [] + data[off..];
  }

  // ---- drop detection ------------------------------------------------------

  ghost predicate Appears(ps: seq<Packet>, pid: nat) {
    exists i :: 0 <= i < |ps| && Tracked(ps[i]) && Pid(ps[i]) == pid
  }

  predicate Counted(p: Packet, pid: nat) {
    Tracked(p) && Pid(p) == pid && HasPayload(p)
  }

  function PayloadCount(ps: seq<Packet>, pid: nat): nat {
    if ps == [] then 0
    else (if Counted(ps[0], pid) then 1 else 0) + PayloadCount(ps[1..], pid)
  }

  ghost predicate NoSignalledBreak(ps: seq<Packet>) {
    forall i :: 0 <= i < |ps| && Tracked(ps[i]) ==> !Discontinuity(ps[i])
  }

  lemma {:induction false} ParseAllValid(c: Counts, ps: seq<Packet>)
    requires c.Valid()
    ensures ParseAll(c, ps).Valid()
    ensures c.ccErrors <= ParseAll(c, ps).ccErrors
    ensures forall pid :: 0 <= pid < PID_COUNT && c.lastCc[pid] >= 0 ==> ParseAll(c, ps).lastCc[pid] >= 0
    decreases |ps|
  {
    if ps != [] {
      ParseAllValid(ParseOne(c, ps[0]), ps[1..]);
    }
  }

  lemma {:induction false} SeenIffAppears(c: Counts, ps: seq<Packet>, pid: nat)
    requires c.Valid() && pid < PID_COUNT
    ensures ParseAll(c, ps).lastCc[pid] >= 0 <==> c.lastCc[pid] >= 0 || Appears(ps, pid)
    decreases |ps|
  {
    if ps != [] {
      var c1 := ParseOne(c, ps[0]);
      SeenIffAppears(c1, ps[1..], pid);
      if Appears(ps, pid) && !(Tracked(ps[0]) && Pid(ps[0]) == pid) {
        var i :| 0 <= i < |ps| && Tracked(ps[i]) && Pid(ps[i]) == pid;
        assert ps[1..][i - 1] == ps[i];
      }
      if Appears(ps[1..], pid) {
        var i :| 0 <= i < |ps[1..]| && Tracked(ps[1..][i]) && Pid(ps[1..][i]) == pid;
        assert ps[i + 1] == ps[1..][i];
      }
    }
  }

  lemma AdvanceOne(c: Counts, p: Packet, pid: nat)
    requires c.Valid() && pid < PID_COUNT && c.lastCc[pid] >= 0
    requires (Tracked(p) ==> !Discontinuity(p)) && ParseOne(c, p).ccErrors == c.ccErrors
    ensures ParseOne(c, p).lastCc[pid] == (c.lastCc[pid] + if Counted(p, pid) then 1 else 0) % 16
  {
  }

  lemma AddMod(a: nat, b: nat, c: nat)
    ensures ((a + b) % 16 + c) % 16 == (a + (b + c)) % 16
  {
  }

  /** Over an error-free stretch the counter of a PID advances by its payload
      packets, modulo 16. */
  lemma {:induction false} CleanAdvance(c: Counts, ps: seq<Packet>, pid: nat)
    requires c.Valid() && pid < PID_COUNT && c.lastCc[pid] >= 0
    requires NoSignalledBreak(ps)
    requires ParseAll(c, ps).ccErrors == c.ccErrors
    ensures ParseAll(c, ps).lastCc[pid] == (c.lastCc[pid] + PayloadCount(ps, pid)) % 16
    decreases |ps|
  {
    if ps != [] {
      var c1 := ParseOne(c, ps[0]);
      ParseAllValid(c1, ps[1..]);
      AdvanceOne(c, ps[0], pid);
      CleanAdvance(c1, ps[1..], pid);
      AddMod(c.lastCc[pid], if Counted(ps[0], pid) then 1 else 0, PayloadCount(ps[1..], pid));
    }
  }

  /** The PIDs of `ps` whose next packet will not match in `d` although it
      matches in `c`. */
  ghost function Diverging(c: Counts, d: Counts, ps: seq<Packet>): set<int>
    requires c.Valid() && d.Valid()
  {
    set pid | 0 <= pid < PID_COUNT && d.lastCc[pid] >= 0 && c.lastCc[pid] != d.lastCc[pid] && Appears(ps, pid)
  }

  lemma DivergingStep(c: Counts, d: Counts, ps: seq<Packet>)
    requires c.Valid() && d.Valid() && ps != []
    ensures Diverging(ParseOne(c, ps[0]), ParseOne(d, ps[0]), ps[1..])
            == if Tracked(ps[0]) then Diverging(c, d, ps) - {Pid(ps[0])} else Diverging(c, d, ps)
  {
    forall pid: nat | !(Tracked(ps[0]) && Pid(ps[0]) == pid)
      ensures Appears(ps, pid) <==> Appears(ps[1..], pid)
    {
      if Appears(ps, pid) {
        var i :| 0 <= i < |ps| && Tracked(ps[i]) && Pid(ps[i]) == pid;
        assert ps[1..][i - 1] == ps[i];
      }
      if Appears(ps[1..], pid) {
        var i :| 0 <= i < |ps[1..]| && Tracked(ps[1..][i]) && Pid(ps[1..][i]) == pid;
        assert ps[i + 1] == ps[1..][i];
      }
    }
    var lhs := Diverging(ParseOne(c, ps[0]), ParseOne(d, ps[0]), ps[1..]);
    forall pid | 0 <= pid < PID_COUNT && (Tracked(ps[0]) ==> pid != Pid(ps[0]))
      ensures pid in lhs <==> pid in Diverging(c, d, ps)
    {
      assert Appears(ps, pid) <==> Appears(ps[1..], pid);
    }
  }

  /** One packet that is fine after `c` is an error after `d` just when its PID diverges. */
  lemma ReplayOne(c: Counts, d: Counts, ps: seq<Packet>)
    requires c.Valid() && d.Valid() && ps != []
    requires forall pid :: 0 <= pid < PID_COUNT && d.lastCc[pid] >= 0 ==> c.lastCc[pid] >= 0
    requires Tracked(ps[0]) ==> !Discontinuity(ps[0]) && !CcError(c.lastCc[Pid(ps[0])], ps[0])
    ensures ParseOne(d, ps[0]).ccErrors
            == d.ccErrors + if Tracked(ps[0]) && Pid(ps[0]) in Diverging(c, d, ps) then 1 else 0
  {
    if Tracked(ps[0]) {
      assert Appears(ps, Pid(ps[0]));
    }
  }

  /** Replaying a stretch that is clean after `c` from another state `d` costs
      one error for each diverging PID, and no more. */
  lemma {:induction false} ReplayErrors(c: Counts, d: Counts, ps: seq<Packet>)
    requires c.Valid() && d.Valid()
    requires forall pid :: 0 <= pid < PID_COUNT && d.lastCc[pid] >= 0 ==> c.lastCc[pid] >= 0
    requires NoSignalledBreak(ps)
    requires ParseAll(c, ps).ccErrors == c.ccErrors
    ensures ParseAll(d, ps).ccErrors == d.ccErrors + |Diverging(c, d, ps)|
    decreases |ps|
  {
    if ps == [] {
      assert Diverging(c, d, ps) == {};
    } else {
      var c1, d1 := ParseOne(c, ps[0]), ParseOne(d, ps[0]);
      ParseAllValid(c1, ps[1..]);
      ReplayOne(c, d, ps);
      DivergingStep(c, d, ps);
      ReplayErrors(c1, d1, ps[1..]);
    }
  }

  /** The non-null PIDs seen on both sides of a gap that lost a number of
      payload packets which is not a multiple of 16. */
  ghost function BrokenPids(before: seq<Packet>, gap: seq<Packet>, after: seq<Packet>): set<int> {
    set pid | 0 <= pid < PID_COUNT && Appears(before, pid) && Appears(after, pid) && PayloadCount(gap, pid) % 16 != 0
  }

  /** Where the counters stand before and after an error-free gap. */
  lemma GapAdvance(b: seq<Packet>, g: seq<Packet>, d: Counts, c: Counts, pid: nat)
    requires d == ParseAll(Initial(), b) && d.Valid() && pid < PID_COUNT
    requires c == ParseAll(d, g) && c.Valid() && c.ccErrors == d.ccErrors
    requires NoSignalledBreak(g)
    ensures d.lastCc[pid] >= 0 <==> Appears(b, pid)
    ensures d.lastCc[pid] >= 0 ==> (c.lastCc[pid] != d.lastCc[pid] <==> PayloadCount(g, pid) % 16 != 0)
  {
    SeenIffAppears(Initial(), b, pid);
    if d.lastCc[pid] >= 0 {
      CleanAdvance(d, g, pid);
    }
  }

  lemma GapDivergence(b: seq<Packet>, g: seq<Packet>, a: seq<Packet>, d: Counts, c: Counts)
    requires d == ParseAll(Initial(), b) && d.Valid()
    requires c == ParseAll(d, g) && c.Valid() && c.ccErrors == d.ccErrors
    requires NoSignalledBreak(g)
    ensures Diverging(c, d, a) == BrokenPids(b, g, a)
  {
    forall pid: nat | pid < PID_COUNT
      ensures pid in Diverging(c, d, a) <==> pid in BrokenPids(b, g, a)
    {
      GapAdvance(b, g, d, c, pid);
    }
  }

  lemma PacketDropDetection(b: seq<Packet>, g: seq<Packet>, a: seq<Packet>)
    requires NoSignalledBreak(g) && NoSignalledBreak(a)
    requires ParseAll(Initial(), b + (g + a)).ccErrors == 0
    ensures ParseAll(Initial(), b + a).ccErrors == |BrokenPids(b, g, a)|
  {
    var d := ParseAll(Initial(), b);
    var c := ParseAll(d, g);
    ParseAllConcat(Initial(), b, g + a);
    ParseAllConcat(d, g, a);
    ParseAllConcat(Initial(), b, a);
    ParseAllValid(Initial(), b);
    ParseAllValid(d, g);
    ParseAllValid(c, a);
    ReplayErrors(c, d, a);
    GapDivergence(b, g, a, d, c);
  }

  lemma NoSignalledBreakIn(a: seq<Packet>, b: seq<Packet>)
    requires NoSignalledBreak(a + b)
    ensures NoSignalledBreak(a) && NoSignalledBreak(b)
  {
    forall i | 0 <= i < |a| && Tracked(a[i]) ensures !Discontinuity(a[i]) {
      assert (a + b)[i] == a[i];
    }
    forall i | 0 <= i < |b| && Tracked(b[i]) ensures !Discontinuity(b[i]) {
      assert (a + b)[|a| + i] == b[i];
    }
  }

  /** Deleting `gap` from a clean byte stream without signalled breaks makes the
      tracker report exactly one error for each broken PID. */
  lemma DropDetection(before: seq<Byte>, gap: seq<Byte>, after: seq<Byte>)
    requires |before| % PACKET_SIZE == 0 && |gap| % PACKET_SIZE == 0
    requires NoSignalledBreak(Packets(before + (gap + after)))
    requires Absorb(Initial(), before + (gap + after)).ccErrors == 0
    ensures Absorb(Initial(), before + after).ccErrors
            == |BrokenPids(Packets(before), Packets(gap), Packets(after))|
  {
    var b, g, a := Packets(before), Packets(gap), Packets(after);
    PacketsConcat(before, gap + after);
    PacketsConcat(gap, after);
    PacketsConcat(before, after);
    NoSignalledBreakIn(b, g + a);
    NoSignalledBreakIn(g, a);
    PacketDropDetection(b, g, a);
  }

  // ---- the tracker object --------------------------------------------------

  class Tracker {
    var packets: nat
    var syncErrors: nat
    var ccErrors: nat
    const lastCc: array<int>
    const carry: array<Byte>
    var carryLen: nat

    ghost predicate Valid()
      reads this
    {
      lastCc.Length == PID_COUNT && carry.Length == PACKET_SIZE && carryLen < PACKET_SIZE
      && lastCc as object != carry
    }

    ghost function Totals(): (c: Counts)
      reads this, lastCc
    {
      Counts(packets, syncErrors, ccErrors, lastCc[..])
    }

    ghost function View(): (f: Fed)
      reads this, lastCc, carry
      requires Valid()
    {
      Fed(Totals(), carry[..carryLen])
    }

    constructor ()
      ensures Valid() && View() == Fed(Initial(), [])
      ensures fresh(lastCc) && fresh(carry)
    {
      packets, syncErrors, ccErrors, carryLen := 0, 0, 0, 0;
      lastCc := new int[PID_COUNT](_ => -1);
      carry := new Byte[PACKET_SIZE](_ => 0);
      new;
      assert lastCc[..] == Initial().lastCc;
    }

    method ParsePacket(p: Packet)
      requires lastCc.Length == PID_COUNT
      modifies this`packets, this`syncErrors, this`ccErrors, lastCc
      ensures Totals() == ParseOne(old(Totals()), p)
    {
      packets := packets + 1;
      if p[0] != SYNC_BYTE {
        syncErrors := syncErrors + 1;
        return;
      }
      var pid := Pid(p);
      if pid == NULL_PID {
        return;
      }
      var prev := lastCc[pid];
      if prev >= 0 && !Discontinuity(p) {
        var expected := if HasPayload(p) then (prev + 1) % 16 else prev;
        if Cc(p) != expected {
          ccErrors := ccErrors + 1;
        }
      }
      lastCc[pid] := Cc(p);
    }

    /** Copies data[from..from + n] into the carry buffer at `at`. */
    method Stash(data: seq<Byte>, from: nat, at: nat, n: nat)
      requires from + n <= |data| && at + n <= carry.Length
      modifies carry
      ensures carry[..at + n] == old(carry[..at]) + data[from..from + n]
    {
      for i := 0 to n
        invariant carry[..at + i] == old(carry[..at]) + data[from..from + i]
      {
        carry[at + i] := data[from + i];
        assert carry[..at + i + 1] == carry[..at + i] + [data[from + i]];
      }
    }

    /** Parses the whole packets of `data` from `start` on; returns where they end. */
    method ParseWhole(data: seq<Byte>, start: nat) returns (off: nat)
      requires lastCc.Length == PID_COUNT && start <= |data|
      modifies this`packets, this`syncErrors, this`ccErrors, lastCc
      ensures start <= off <= |data| && data[off..] == Tail(data[start..])
      ensures Totals() == Absorb(old(Totals()), data[start..])
    {
      off := start;
      while off + PACKET_SIZE <= |data|
        invariant start <= off <= |data|
        invariant Absorb(Totals(), data[off..]) == Absorb(old(Totals()), data[start..])
        invariant Tail(data[off..]) == Tail(data[start..])
      {
        AbsorbAt(Totals(), data, off);
        ParsePacket(data[off..off + PACKET_SIZE]);
        off := off + PACKET_SIZE;
      }
      AbsorbShort(Totals(), data[off..]);
    }

    /** Copies what the packet begun in the carry buffer still needs, if there are
        bytes enough, and otherwise all. */
    method FillCarry(data: seq<Byte>) returns (off: nat)
      requires Valid()
      modifies this`carryLen, carry
      ensures off <= |data|
      ensures off == if |data| < PACKET_SIZE - old(carryLen) then |data| else PACKET_SIZE - old(carryLen)
      ensures carryLen == old(carryLen) + off && carry[..carryLen] == old(carry[..carryLen]) + data[..off]
    {
      var need := PACKET_SIZE - carryLen;
      off := if need < |data| then need else |data|;
      Stash(data, 0, carryLen, off);
      carryLen := carryLen + off;
    }

    /** The first part of feed: completes and parses the packet begun in the
        carry buffer, if there are bytes enough. */
    method CompleteCarry(data: seq<Byte>) returns (off: nat)
      requires Valid() && carryLen > 0
      modifies this, lastCc, carry
      ensures Valid() && off <= |data|
      ensures if carryLen > 0 then View() == FeedOne(old(View()), data)
              else FeedOne(View(), data[off..]) == FeedOne(old(View()), data)
    {
      off := FillCarry(data);
      if carryLen < PACKET_SIZE {
        assert data[..off] == data;
        FeedTooLittle(old(View()), data);
        return;
      }
      FeedCompleted(old(View()), data, off);
      assert carry[..] == carry[..carryLen];
      ParsePacket(carry[..]);
      carryLen := 0;
    }

    /** The second part: whole packets straight from the data, then the rest into
        the carry buffer. */
    method FeedAligned(data: seq<Byte>, start: nat)
      requires Valid() && carryLen == 0 && start <= |data|
      modifies this, lastCc, carry
      ensures Valid() && View() == FeedOne(old(View()), data[start..])
    {
      var off := ParseWhole(data, start);
      var rem := |data| - off;
      Stash(data, off, 0, rem);
      carryLen := rem;
      assert data[off..off + rem] == data[off..];
      assert [] + data[start..] == data[start..];
    }

    method Feed(data: seq<Byte>)
      requires Valid()
      modifies this, lastCc, carry
      ensures Valid()
      ensures View() == FeedOne(old(View()), data)
    {
      if |data| == 0 {
        assert carry[..carryLen] + data == carry[..carryLen];
        AbsorbShort(Totals(), carry[..carryLen]);
        return;
      }
      var off := 0;
      if carryLen > 0 {
        off := CompleteCarry(data);
        if carryLen > 0 {
          return;
        }
      }
      assert data[0..] == data;
      FeedAligned(data, off);
    }
  }
}
