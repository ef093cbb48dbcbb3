/** The SRT packets that the sender reads for its links, from the SRT server's side:
    what a loss report and an acknowledgement say, and that the sender hears it. */
module LossLists {
  import opened Bytes
  import opened AckStream
  import opened SenderLinks
  import opened SenderObjects

  /** A lost packet, or a range of them with both its ends. */
  datatype Entry = Single(sn: int) | Range(lo: int, hi: int)

  ghost predicate ValidEntry(e: Entry) {
    match e
    case Single(sn) => 0 <= sn < 0x8000_0000
    case Range(lo, hi) => 0 <= lo < 0x8000_0000 && 0 <= hi < 0x7FFF_FFFF
  }

  ghost predicate ValidList(es: seq<Entry>) {
    forall i :: 0 <= i < |es| ==> ValidEntry(es[i])
  }

  /** The numbers that an entry reports lost, in order. */
  function Numbers(e: Entry): seq<int> {
    match e
    case Single(sn) => [sn]
    case Range(lo, hi) => seq(if lo <= hi then hi - lo + 1 else 0, k => lo + k)
  }

  function Reported(es: seq<Entry>): seq<int> {
    if es == [] then [] else Numbers(es[0]) + Reported(es[1..])
  }

  /** An entry on the wire: the first number of a range has its top bit set
      (appendix A of draft-sharabayko-srt). */
  function EntryWords(e: Entry): seq<int> {
    match e
    case Single(sn) => [sn]
    case Range(lo, hi) => [0x8000_0000 + lo, hi]
  }

  function ListWords(es: seq<Entry>): (ws: seq<int>)
    requires ValidList(es)
    ensures forall i :: 0 <= i < |ws| ==> 0 <= ws[i] < 0x1_0000_0000
  {
    if es == [] then [] else EntryWords(es[0]) + ListWords(es[1..])
  }

  /** One event for each number. */
  function NakAll(sns: seq<int>): (evs: seq<Event>)
    ensures |evs| == |sns| && forall i :: 0 <= i < |sns| ==> evs[i] == Nak(sns[i])
  {
    seq(|sns|, i requires 0 <= i < |sns| => Nak(sns[i]))
  }

  lemma {:induction false} IntervalExact(lo: int, hi: int)
    ensures Interval(lo, hi) == NakAll(Numbers(Range(lo, hi)))
    decreases hi - lo
  {
    if lo <= hi {
      IntervalExact(lo + 1, hi);
      assert Numbers(Range(lo, hi)) == [lo] + Numbers(Range(lo + 1, hi));
    }
  }

  lemma NakAllJoins(a: seq<int>, b: seq<int>)
    ensures NakAll(a + b) == NakAll(a) + NakAll(b)
  {
  }

  /** The entry stands at word i. */
  ghost predicate EntryAt(ws: seq<int>, i: nat, e: Entry) {
    && i + |EntryWords(e)| <= |ws|
    && match e
       case Single(sn) => ws[i] == sn
       case Range(lo, hi) => ws[i] == 0x8000_0000 + lo && ws[i + 1] == hi
  }

  lemma EntryPlaced(before: seq<int>, e: Entry, rest: seq<int>)
    ensures EntryAt(before + EntryWords(e) + rest, |before|, e)
  {
    var ws := before + EntryWords(e) + rest;
    assert forall k :: 0 <= k < |EntryWords(e)| ==> ws[|before| + k] == EntryWords(e)[k];
    assert ws[|before| + 0] == EntryWords(e)[0];
    assert e.Range? ==> ws[|before| + 1] == EntryWords(e)[1];
  }

  lemma SingleRead(ws: seq<int>, i: nat, sn: int)
    requires 0 <= sn < 0x8000_0000 && i < |ws| && ws[i] == sn
    ensures WellFormedLosses(ws, i + 1) ==> WellFormedLosses(ws, i)
    ensures Losses(ws, i) == [Nak(sn)] + Losses(ws, i + 1)
  {
  }

  lemma RangeRead(ws: seq<int>, i: nat, lo: int, hi: int)
    requires 0 <= lo < 0x8000_0000 && 0 <= hi < 0x7FFF_FFFF
    requires i + 1 < |ws| && ws[i] == 0x8000_0000 + lo && ws[i + 1] == hi
    ensures WellFormedLosses(ws, i + 2) ==> WellFormedLosses(ws, i)
    ensures Losses(ws, i) == Interval(lo, hi) + Losses(ws, i + 2)
  {
  }

  /** The sender's reading of one entry and what follows it. */
  lemma EntryRead(ws: seq<int>, i: nat, e: Entry)
    requires ValidEntry(e) && EntryAt(ws, i, e)
    ensures WellFormedLosses(ws, i + |EntryWords(e)|) ==> WellFormedLosses(ws, i)
    ensures Losses(ws, i) == NakAll(Numbers(e)) + Losses(ws, i + |EntryWords(e)|)
  {
    match e
    case Single(sn) =>
      SingleRead(ws, i, sn);
      assert NakAll([sn]) == [Nak(sn)];
    case Range(lo, hi) =>
      RangeRead(ws, i, lo, hi);
      IntervalExact(lo, hi);
  }

  /** What the sender reads from word i on. */
  ghost predicate Hears(ws: seq<int>, i: nat, es: seq<Entry>) {
    WellFormedLosses(ws, i) && Losses(ws, i) == NakAll(Reported(es))
  }

  lemma HearsOneMore(ws: seq<int>, i: nat, es: seq<Entry>)
    requires es != [] && ValidEntry(es[0]) && EntryAt(ws, i, es[0])
    requires Hears(ws, i + |EntryWords(es[0])|, es[1..])
    ensures Hears(ws, i, es)
  {
    EntryRead(ws, i, es[0]);
    NakAllJoins(Numbers(es[0]), Reported(es[1..]));
  }

  lemma Rejoined(before: seq<int>, es: seq<Entry>)
    requires ValidList(es) && es != []
    ensures before + EntryWords(es[0]) + ListWords(es[1..]) == before + ListWords(es)
  {
  }

  /** The sender's reading of the list, wherever it starts. */
  lemma {:induction false} ListRead(before: seq<int>, es: seq<Entry>)
    requires ValidList(es)
    ensures Hears(before + ListWords(es), |before|, es)
    decreases |es|
  {
    if es != [] {
      ListRead(before + EntryWords(es[0]), es[1..]);
      Rejoined(before, es);
      EntryPlaced(before, es[0], ListWords(es[1..]));
      HearsOneMore(before + ListWords(es), |before|, es);
    }
  }

  /** An SRT NAK: 16 bytes of header that start with its type, and the list. */
  function NakPacket(header: seq<Byte>, es: seq<Entry>): seq<Byte>
    requires ValidList(es)
  {
    header + Words(ListWords(es))
  }

  lemma ListStarts(header: seq<Byte>, es: seq<Entry>)
    requires ValidList(es) && |header| == 16
    ensures WordsFrom(NakPacket(header, es), 4) == ListWords(es)
  {
    WordsRead(header, ListWords(es), 4, 0);
  }

  lemma ListReadAll(es: seq<Entry>)
    requires ValidList(es)
    ensures Hears(ListWords(es), 0, es)
  {
    ListRead([], es);
    assert [] + ListWords(es) == ListWords(es);
  }

  lemma TypeKept(header: seq<Byte>, rest: seq<Byte>)
    requires |header| >= 2
    ensures PacketType(header + rest) == (header[0] as int) * 256 + header[1]
  {
  }

  /** A NAK packet is, to the sender, one loss for each number of its list, singly or
      in a range, in order. */
  lemma NakPacketNaks(header: seq<Byte>, es: seq<Entry>, link: nat, now: int)
    requires ValidList(es) && |header| == 16 && header[0] == 0x80 && header[1] == 0x03
    ensures WellFormed(NakPacket(header, es))
    ensures Feedback(link, now, NakPacket(header, es)) == [Received(link, now)] + NakAll(Reported(es))
  {
    ListStarts(header, es);
    ListReadAll(es);
    TypeKept(header, Words(ListWords(es)));
  }

  /** An SRT ACK is, to the sender, a cumulative acknowledgement up to the number in
      its fifth word. */
  lemma SrtAckPacketAcks(header: seq<Byte>, ack: int, rest: seq<Byte>, link: nat, now: int)
    requires |header| == 16 && header[0] == 0x80 && header[1] == 0x02 && 0 <= ack < 0x8000_0000
    ensures WellFormed(header + Be32(ack) + rest)
    ensures Feedback(link, now, header + Be32(ack) + rest) == [Received(link, now), CumulativeAck(ack)]
  {
    var packet := header + Be32(ack) + rest;
    assert packet[16..20] == Be32(ack);
    Be32RoundTrip(ack, packet, 16);
  }

  /** A packet is news of its link unless it is empty, REG_NGP or REG2; and one that
      is not an SRT ACK, an SRT NAK or an SRTLA ACK is nothing else. */
  lemma FeedbackExact(packet: seq<Byte>, link: nat, now: int)
    requires WellFormed(packet)
    ensures Feedback(link, now, packet) == [] <==> packet == [] || PacketType(packet) in {0x9211, 0x9201}
    ensures Feedback(link, now, packet) != [] ==> Feedback(link, now, packet)[0] == Received(link, now)
    ensures PacketType(packet) !in {0x8002, 0x8003, 0x9100} ==> |Feedback(link, now, packet)| <= 1
  {
  }
}
