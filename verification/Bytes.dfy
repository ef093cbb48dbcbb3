/** Small facts about sequences. */
module Seqs {
  lemma SplitLast<T>(s: seq<T>)
    requires s != []
    ensures s == s[..|s| - 1] + [s[|s| - 1]]
  {
  }

  lemma AppendNothing<T>(s: seq<T>)
    ensures s + [] == s
  {
  }

  /** Appending one element and taking it off again. */
  lemma Unappend<T>(s: seq<T>, x: T)
    ensures (s + [x])[..|s|] == s && (s + [x])[|s|] == x
  {
  }

  function Flatten<T>(ss: seq<seq<T>>): seq<T> {
    if ss == [] then [] else Flatten(ss[..|ss| - 1]) + ss[|ss| - 1]
  }

  lemma {:induction false} FlattenFirst<T>(ss: seq<seq<T>>)
    requires ss != []
    ensures Flatten(ss) == ss[0] + Flatten(ss[1..])
    decreases |ss|
  {
    var n := |ss| - 1;
    if n > 0 {
      FlattenFirst(ss[..n]);
      assert ss[..n][1..] == ss[1..][..n - 1];
    }
  }

  /** A sequence whose element i is erased. */
  lemma Erased<T>(s: seq<T>, i: nat)
    requires i < |s|
    ensures (s[..i] + s[i + 1..])[..i] == s[..i] && (s[..i] + s[i + 1..])[i..] == s[i + 1..]
  {
  }

  /** A sequence whose element i is overwritten. */
  lemma Overwritten<T>(s: seq<T>, i: nat, x: T)
    requires i < |s|
    ensures s[i := x][..i + 1] == s[..i] + [x] && s[i := x][i + 1..] == s[i + 1..]
  {
  }

  lemma Next<T>(s: seq<T>, i: nat)
    requires i < |s|
    ensures s[i..][0] == s[i] && s[i..][1..] == s[i + 1..] && s[..i + 1] == s[..i] + [s[i]]
  {
  }
}

/** Sums over sequences. */
module Sums {
  import opened Seqs

  function One(b: bool): nat { if b then 1 else 0 }

  function Sum<T>(s: seq<T>, f: T -> nat): nat {
    if s == [] then 0 else Sum(s[..|s| - 1], f) + f(s[|s| - 1])
  }

  lemma SumAppend<T>(s: seq<T>, x: T, f: T -> nat)
    ensures Sum(s + [x], f) == Sum(s, f) + f(x)
  {
    Unappend(s, x);
  }

  lemma {:induction false} SumConcat<T>(s: seq<T>, t: seq<T>, f: T -> nat)
    ensures Sum(s + t, f) == Sum(s, f) + Sum(t, f)
    decreases |t|
  {
    if t == [] {
      AppendNothing(s);
    } else {
      var n := |t| - 1;
      SplitLast(t);
      assert s + t == (s + t[..n]) + [t[n]];
      SumConcat(s, t[..n], f);
      SumAppend(s + t[..n], t[n], f);
    }
  }

  /** The sum around one element. */
  lemma SumAround<T>(s: seq<T>, i: nat, f: T -> nat)
    requires i < |s|
    ensures Sum(s, f) == Sum(s[..i], f) + f(s[i]) + Sum(s[i + 1..], f)
  {
    assert s == (s[..i] + [s[i]]) + s[i + 1..];
    SumConcat(s[..i] + [s[i]], s[i + 1..], f);
    SumAppend(s[..i], s[i], f);
  }

  lemma SumUpdate<T>(s: seq<T>, i: nat, x: T, f: T -> nat)
    requires i < |s|
    ensures Sum(s[i := x], f) + f(s[i]) == Sum(s, f) + f(x)
  {
    SumAround(s, i, f);
    SumAround(s[i := x], i, f);
    assert s[i := x][..i] == s[..i] && s[i := x][i + 1..] == s[i + 1..];
  }

  lemma SumRemove<T>(s: seq<T>, i: nat, f: T -> nat)
    requires i < |s|
    ensures Sum(s[..i] + s[i + 1..], f) + f(s[i]) == Sum(s, f)
  {
    SumAround(s, i, f);
    SumConcat(s[..i], s[i + 1..], f);
  }

  lemma {:induction false} SumSame<T>(s: seq<T>, t: seq<T>, f: T -> nat)
    requires |s| == |t| && forall i :: 0 <= i < |s| ==> f(s[i]) == f(t[i])
    ensures Sum(s, f) == Sum(t, f)
    decreases |s|
  {
    if s != [] {
      SumSame(s[..|s| - 1], t[..|t| - 1], f);
    }
  }
}

/** Bytes and the big-endian integers that SRT and SRTLA headers are made of. */
module Bytes {
  type Byte = b: int | 0 <= b < 256

  const SRT_TYPE_HANDSHAKE := 0x8000
  const SRT_TYPE_ACK := 0x8002
  const SRT_TYPE_NAK := 0x8003
  const SRT_TYPE_SHUTDOWN := 0x8005
  const SRTLA_TYPE_KEEPALIVE := 0x9000
  const SRTLA_TYPE_ACK := 0x9100
  const SRTLA_TYPE_REG1 := 0x9200
  const SRTLA_TYPE_REG2 := 0x9201
  const SRTLA_TYPE_REG3 := 0x9202
  const SRTLA_TYPE_REG_NGP := 0x9211

  /** Sequence numbers have 31 bits. */
  const MAX_SN := 0x8000_0000

  /** The 16-bit type field that SRT and SRTLA packets start with (get_srt_type). */
  function PacketType(packet: seq<Byte>): int {
    if |packet| < 2 then 0 else (packet[0] as int) * 256 + packet[1]
  }

  function TypeBytes(t: int): (r: seq<Byte>)
    requires 0 <= t < 0x1_0000
    ensures |r| == 2 && PacketType(r) == t
  {
    [t / 256, t % 256]
  }

  /** A 32-bit word read as a signed number. */
  function Signed32(v: int): int {
    if v >= 0x8000_0000 then v - 0x1_0000_0000 else v
  }

  /** Big-endian 32-bit encoding (htobe32). */
  function Be32(v: int): (r: seq<Byte>)
    requires 0 <= v < 0x1_0000_0000
    ensures |r| == 4
  {
    [v / 0x100_0000, v / 0x1_0000 % 256, v / 256 % 256, v % 256]
  }

  /** Big-endian 32-bit read at an offset (be32toh). */
  function ReadBe32(s: seq<Byte>, at: nat): (v: int)
    requires at + 4 <= |s|
    ensures 0 <= v < 0x1_0000_0000
  {
    (s[at] as int) * 0x100_0000 + (s[at + 1] as int) * 0x1_0000 + (s[at + 2] as int) * 256 + s[at + 3]
  }

  /** The base-256 digits of v add up to v. */
  lemma Digits(v: int)
    requires 0 <= v < 0x1_0000_0000
    ensures v / 0x100_0000 * 0x100_0000 + v / 0x1_0000 % 256 * 0x1_0000 + v / 256 % 256 * 256 + v % 256 == v
  {
    var a := v / 256;
    var b := a / 256;
    assert v / 0x1_0000 == b && v / 0x100_0000 == b / 256;
  }

  lemma Be32RoundTrip(v: int, s: seq<Byte>, at: nat)
    requires 0 <= v < 0x1_0000_0000
    requires at + 4 <= |s| && s[at..at + 4] == Be32(v)
    ensures ReadBe32(s, at) == v
  {
    var r := s[at..at + 4];
    assert s[at] == r[0] && s[at + 1] == r[1] && s[at + 2] == r[2] && s[at + 3] == r[3];
    Digits(v);
  }

  lemma ReadAfter(header: seq<Byte>, body: seq<Byte>, at: nat)
    requires at + 4 <= |body|
    ensures ReadBe32(header + body, |header| + at) == ReadBe32(body, at)
  {
    assert forall j :: 0 <= j < |body| ==> (header + body)[|header| + j] == body[j];
  }

  /** The big-endian 32-bit words of a packet from word `from` on. */
  function WordsFrom(packet: seq<Byte>, from: nat): (ws: seq<int>)
    ensures forall i :: 0 <= i < |ws| ==> 0 <= ws[i] < 0x1_0000_0000
    decreases |packet| / 4 - from
  {
    if from >= |packet| / 4 then [] else [ReadBe32(packet, 4 * from)] + WordsFrom(packet, from + 1)
  }

  /** The sender's decode loop: every whole word from word `from` on. */
  method ReadWords(packet: seq<Byte>, from: nat) returns (ws: seq<int>)
    ensures ws == WordsFrom(packet, from)
  {
    ws := [];
    var i := from;
    while i < |packet| / 4
      invariant i >= from && ws + WordsFrom(packet, i) == WordsFrom(packet, from)
    {
      ws := ws + [ReadBe32(packet, 4 * i)];
      i := i + 1;
    }
  }
}
