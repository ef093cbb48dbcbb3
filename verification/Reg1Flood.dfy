/** A reachable state in which a refused REG1 costs a group its place. */
module Reg1Flood {
  import opened Bytes
  import opened Net
  import opened ReceiverTypes
  import opened Registry
  import opened Receiver
  import opened ReceiverTheorems

  const NOW := 1

  function Zeros(n: nat): (r: seq<Byte>)
    ensures |r| == n
  {
    seq(n, _ => 0)
  }

  function FloodEnv(): Env {
    Env(NOW, Millis(0, 0), true, true, Sent, Zeros(ID_LEN / 2))
  }

  function Reg1Packet(): (buf: seq<Byte>)
    ensures Classify(buf) == Reg1(Zeros(ID_LEN / 2))
  {
    var buf := TypeBytes(SRTLA_TYPE_REG1) + Zeros(ID_LEN);
    assert buf[2..2 + ID_LEN / 2] == Zeros(ID_LEN / 2);
    buf
  }

  function Source(i: nat): Address { V4(0, i) }

  /** A REG1 from source i. */
  function Request(i: nat): Event {
    Datagram(Source(i), Reg1Packet(), FloodEnv())
  }

  /** REG1s from n sources. */
  function Flood(n: nat): seq<Event> {
    if n == 0 then [] else Flood(n - 1) + [Request(n - 1)]
  }

  function NewId(): Id { Zeros(ID_LEN / 2) + Zeros(ID_LEN / 2) }

  function Ghosts(n: nat): (gs: seq<Group>)
    ensures |gs| == n && forall i :: 0 <= i < n ==> gs[i] == NewGroup(i, NewId(), Source(i), NOW)
  {
    seq(n, i requires 0 <= i < n => NewGroup(i, NewId(), Source(i), NOW))
  }

  /** The receiver after them: n ghosts. */
  function Flooded(n: nat): State {
    INITIAL.(groups := Ghosts(n), counters := INITIAL.counters.(registered := n))
  }

  lemma OneMore(n: nat)
    requires n < MAX_GROUPS
    ensures Step(Flooded(n), Request(n), NOW).state == Flooded(n + 1)
  {
    NobodyIffUnclaimed(Ghosts(n), Source(n));
    assert Ghosts(n + 1) == Ghosts(n) + [NewGroup(n, NewId(), Source(n), NOW)];
  }

  lemma {:induction false} FloodFills(n: nat)
    requires n <= MAX_GROUPS
    ensures AfterEvents(INITIAL, Flood(n), NOW) == Flooded(n)
  {
    if n == 0 {
      assert Ghosts(0) == [];
    } else {
      var s, e := Flooded(n - 1), Request(n - 1);
      FloodFills(n - 1);
      OneMore(n - 1);
      EventsSnoc(INITIAL, Flood(n - 1), e, NOW);
      assert Possible(s, e);
    }
  }

  lemma {:induction false} FirstIsOldest(n: nat, m: nat)
    requires 0 < n <= m
    ensures OldestGhost(Ghosts(m), n) == 0
  {
    if n > 1 {
      FirstIsOldest(n - 1, m);
    }
  }

  /** A repeated REG1 at a table full of ghosts. */
  lemma Refused(n: nat, i: nat)
    requires 0 < i < n == MAX_GROUPS
    ensures var r := RegisterGroup(Flooded(n), Source(i), Zeros(ID_LEN / 2), NOW, FloodEnv());
            r.outs == [Out(Source(i), RegErr)] && r.state.groups == Flooded(n).groups[1..]
  {
    var s := Flooded(n);
    FirstIsOldest(n, n);
    var rest := s.groups[1..];
    assert MadeRoom(s).groups == rest by {
      assert RemoveAt(s.groups, 0) == rest;
    }
    assert Claims(rest[i - 1], Source(i));
    NobodyIffUnclaimed(rest, Source(i));
  }

  lemma FirstIsLost(n: nat)
    requires n > 0
    ensures !Survives(Ghosts(n)[1..], Ghosts(n)[0])
  {
  }

  /** When n sources have filled the table with ghosts and source i > 0 repeats
      its REG1, it is refused, because its own group claims its address, and the
      ghost of source 0 is lost. */
  lemma RefusedReg1Evicts(n: nat, i: nat)
    requires 0 < i < n == MAX_GROUPS
    ensures Reached(Flooded(n), [], Flood(n), NOW)
    ensures var s, r := Flooded(n), HandleDatagram(Flooded(n), Source(i), Reg1Packet(), NOW, FloodEnv());
            && r.outs == [Out(Source(i), RegErr)]
            && |r.state.groups| == |s.groups| - 1 && !Survives(r.state.groups, s.groups[0])
  {
    FloodFills(n);
    Refused(n, i);
    FirstIsLost(n);
  }
}
