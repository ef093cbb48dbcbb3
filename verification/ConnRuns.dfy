/** What the receiver has heard from every connection, on every run. */
module ConnRuns {
  import opened Net
  import opened Seqs
  import opened ReceiverTypes
  import opened Registry
  import opened Receiver
  import opened ReceiverInvariants
  import opened ReceiverTheorems
  import opened Turns
  import opened Origins

  // ---- histories ---------------------------------------------------------------------------------

  /** When the address joined the group. */
  ghost function JoinTime(turns: seq<Turn>, serial: nat, a: Address): int {
    if turns == [] || !Member(StateAfter(turns).groups, serial, a) then 0
    else
      var init, t := turns[..|turns| - 1], turns[|turns| - 1];
      if Member(StateAfter(init).groups, serial, a) then JoinTime(init, serial, a) else t.ts
  }

  /** The clock when the last packet came from the address since it joined, or when
      it joined. */
  ghost function LastHeard(turns: seq<Turn>, serial: nat, a: Address): int {
    if turns == [] || !Member(StateAfter(turns).groups, serial, a) then 0
    else
      var init, t := turns[..|turns| - 1], turns[|turns| - 1];
      if Hears(StateAfter(init), t, a) || !Member(StateAfter(init).groups, serial, a) then t.ts
      else LastHeard(init, serial, a)
  }

  function SizeIn(s: State, t: Turn, a: Address): seq<nat> {
    if Streams(s, t, a) then [|t.event.buf|] else []
  }

  /** The SRT packets from the address since it joined, by their sizes. */
  ghost function Sizes(turns: seq<Turn>, serial: nat, a: Address): seq<nat> {
    if turns == [] || !Member(StateAfter(turns).groups, serial, a) then []
    else
      var init, t := turns[..|turns| - 1], turns[|turns| - 1];
      Sizes(init, serial, a) + SizeIn(StateAfter(init), t, a)
  }

  function Total(sizes: seq<nat>): nat {
    if sizes == [] then 0 else Total(sizes[..|sizes| - 1]) + sizes[|sizes| - 1]
  }

  /** The NAKs from the address that passed its group's filter since it joined,
      counted in 32 bits. */
  ghost function Naks(turns: seq<Turn>, serial: nat, a: Address): nat {
    if turns == [] || !Member(StateAfter(turns).groups, serial, a) then 0
    else
      var init, t := turns[..|turns| - 1], turns[|turns| - 1];
      LossesAfter(Naks(init, serial, a), PassesNak(StateAfter(init), t, a))
  }

  // ---- every run -----------------------------------------------------------------------------------

  predicate CountersShow(s: Stats, sizes: seq<nat>, naks: nat) {
    s.packetsReceived == |sizes| && s.bytesReceived == Total(sizes) && s.packetsLost == naks
  }

  ghost predicate TimesHold(turns: seq<Turn>, serial: nat, c: Conn) {
    && c.connectionStart == JoinTime(turns, serial, c.addr)
    && c.lastReceived == LastHeard(turns, serial, c.addr)
  }

  ghost predicate CountsHold(turns: seq<Turn>, serial: nat, c: Conn) {
    var sizes := Sizes(turns, serial, c.addr);
    CountersShow(c.stats, sizes, Naks(turns, serial, c.addr))
  }

  ghost predicate StoryHolds(turns: seq<Turn>, serial: nat, c: Conn) {
    TimesHold(turns, serial, c) && CountsHold(turns, serial, c)
  }

  lemma NoStory(turns: seq<Turn>, serial: nat, a: Address)
    requires !Member(StateAfter(turns).groups, serial, a)
    ensures Sizes(turns, serial, a) == [] && Naks(turns, serial, a) == 0
  {
  }

  lemma TimesSnoc(turns: seq<Turn>, t: Turn, serial: nat, a: Address)
    requires Member(StateAfter(turns + [t]).groups, serial, a)
    ensures var s := StateAfter(turns);
            && JoinTime(turns + [t], serial, a)
               == (if Member(s.groups, serial, a) then JoinTime(turns, serial, a) else t.ts)
            && LastHeard(turns + [t], serial, a)
               == if Hears(s, t, a) || !Member(s.groups, serial, a) then t.ts else LastHeard(turns, serial, a)
  {
    Unappend(turns, t);
  }

  lemma CountsSnoc(turns: seq<Turn>, t: Turn, serial: nat, a: Address)
    requires Member(StateAfter(turns + [t]).groups, serial, a)
    ensures var s := StateAfter(turns);
            && Sizes(turns + [t], serial, a) == Sizes(turns, serial, a) + SizeIn(s, t, a)
            && Naks(turns + [t], serial, a) == LossesAfter(Naks(turns, serial, a), PassesNak(s, t, a))
  {
    Unappend(turns, t);
  }

  lemma TotalSnoc(sizes: seq<nat>, n: nat)
    ensures Total(sizes + [n]) == Total(sizes) + n
  {
    Unappend(sizes, n);
  }

  lemma TimesContinue(s: State, turns: seq<Turn>, t: Turn, serial: nat, c: Conn, c': Conn)
    requires s == StateAfter(turns) && TimesHold(turns, serial, c) && Became(s, t, c, c')
    requires Member(s.groups, serial, c.addr) && Member(StateAfter(turns + [t]).groups, serial, c.addr)
    ensures TimesHold(turns + [t], serial, c')
  {
    TimesSnoc(turns, t, serial, c.addr);
  }

  /** The counters after one more packet, or none. */
  lemma CountsValue(sizes: seq<nat>, more: seq<nat>, naks: nat, nak: bool, c: Stats, c': Stats)
    requires |more| <= 1 && CountersShow(c, sizes, naks)
    requires c'.packetsReceived == c.packetsReceived + |more|
    requires c'.bytesReceived == c.bytesReceived + if more == [] then 0 else more[0]
    requires c'.packetsLost == LossesAfter(c.packetsLost, nak)
    ensures CountersShow(c', sizes + more, LossesAfter(naks, nak))
  {
    if more == [] {
      AppendNothing(sizes);
    } else {
      assert more == [more[0]];
      TotalSnoc(sizes, more[0]);
    }
  }

  lemma BecameCounts(s: State, t: Turn, c: Conn, c': Conn, sizes: seq<nat>, naks: nat)
    requires Became(s, t, c, c') && CountersShow(c.stats, sizes, naks)
    ensures CountersShow(c'.stats, sizes + SizeIn(s, t, c.addr), LossesAfter(naks, PassesNak(s, t, c.addr)))
  {
    CountsValue(sizes, SizeIn(s, t, c.addr), naks, PassesNak(s, t, c.addr), c.stats, c'.stats);
  }

  lemma CountsContinue(s: State, turns: seq<Turn>, t: Turn, serial: nat, c: Conn, c': Conn)
    requires s == StateAfter(turns) && CountsHold(turns, serial, c) && Became(s, t, c, c')
    requires Member(StateAfter(turns + [t]).groups, serial, c.addr)
    ensures CountsHold(turns + [t], serial, c')
  {
    BecameCounts(s, t, c, c', Sizes(turns, serial, c.addr), Naks(turns, serial, c.addr));
    CountsSnoc(turns, t, serial, c.addr);
  }

  lemma StoryBegins(s: State, turns: seq<Turn>, t: Turn, serial: nat, c: Conn)
    requires s == StateAfter(turns) && IsNew(s, t, c)
    requires !Member(s.groups, serial, c.addr) && Member(StateAfter(turns + [t]).groups, serial, c.addr)
    ensures StoryHolds(turns + [t], serial, c)
  {
    TimesSnoc(turns, t, serial, c.addr);
    CountsSnoc(turns, t, serial, c.addr);
    NoStory(turns, serial, c.addr);
    assert Sizes(turns + [t], serial, c.addr) == [];
  }

  lemma {:induction false} StoryOnTurns(turns: seq<Turn>, serial: nat, c': Conn)
    requires Ordered(turns) && HasConn(StateAfter(turns).groups, serial, c')
    ensures StoryHolds(turns, serial, c')
    decreases |turns|
  {
    if turns != [] {
      var init, t := turns[..|turns| - 1], turns[|turns| - 1];
      var s := StateAfter(init);
      SplitLast(turns);
      TurnsInv(init);
      ConnTurn(s, t, serial, c');
      if c :| HasConn(s.groups, serial, c) && Became(s, t, c, c') {
        StoryOnTurns(init, serial, c);
        TimesContinue(s, init, t, serial, c, c');
        CountsContinue(s, init, t, serial, c, c');
      } else {
        StoryBegins(s, init, t, serial, c');
      }
    }
  }

  lemma LiveConn(s: State, i: nat, k: nat)
    requires i < |s.groups| && k < |s.groups[i].conns|
    ensures HasConn(s.groups, s.groups[i].serial, s.groups[i].conns[k])
  {
    assert InGroup(s.groups[i], s.groups[i].conns[k]);
  }

  /** In every reachable state, of every live connection: when it joined, when it
      was last heard of, how many packets and bytes of SRT traffic and how many NAKs
      it has sent since. */
  lemma HeardOnRun(s: State, its: seq<Iteration>, events: seq<Event>, ts: int, i: nat, k: nat)
    requires Reached(s, its, events, ts) && i < |s.groups| && k < |s.groups[i].conns|
    ensures StoryHolds(TurnsUpTo(its, events, ts), s.groups[i].serial, s.groups[i].conns[k])
  {
    ReachedAsTurns(s, its, events, ts);
    LiveConn(s, i, k);
    StoryOnTurns(TurnsUpTo(its, events, ts), s.groups[i].serial, s.groups[i].conns[k]);
  }

  // ---- what a cleanup erases -------------------------------------------------------------------------

  lemma {:induction false} ConnKept(conns: seq<Conn>, now: int, k: nat) returns (m: nat)
    requires k < |conns| && !TimedOut(conns[k], now)
    ensures m < |ReapConns(conns, now)| && ReapConns(conns, now)[m] == Settled(conns[k], now)
    decreases |conns|
  {
    var n := |conns| - 1;
    if k < n {
      m := ConnKept(conns[..n], now, k);
    } else {
      m := |ReapConns(conns[..n], now)|;
    }
  }

  lemma {:induction false} GroupKept(gs: seq<Group>, now: int, i: nat) returns (j: nat)
    requires i < |gs| && !Expires(gs[i], now)
    ensures j < |ReapGroups(gs, now)| && ReapGroups(gs, now)[j] == Reaped(gs[i], now)
    decreases |gs|
  {
    var n := |gs| - 1;
    if i < n {
      j := GroupKept(gs[..n], now, i);
    } else {
      j := |ReapGroups(gs[..n], now)|;
    }
  }

  /** A group after the end of an iteration that does not expire it. */
  lemma KeptAtEnd(s: State, t: Turn, i: nat) returns (j: nat)
    requires t.EndTurn? && i < |s.groups| && (Reaps(s, t) ==> !Expires(s.groups[i], t.ts))
    ensures j < |Turned(s, t).groups| && Turned(s, t).groups[j] == GroupAfter(s, t, i, t.millis(j))
  {
    if Reaps(s, t) {
      j := GroupKept(s.groups, t.ts, i);
    } else {
      j := i;
    }
  }

  lemma HeardStays(s: State, t: Turn, i: nat, k: nat)
    requires t.EndTurn? && i < |s.groups| && k < |s.groups[i].conns|
    requires Reaps(s, t) ==> s.groups[i].conns[k].lastReceived + 15 >= t.ts
    ensures Member(Turned(s, t).groups, s.groups[i].serial, s.groups[i].conns[k].addr)
  {
    var g, m := s.groups[i], k;
    if Reaps(s, t) {
      m := ConnKept(g.conns, t.ts, k);
    }
    var j := KeptAtEnd(s, t, i);
    var g' := Turned(s, t).groups[j];
    TendedTraffic(if Reaps(s, t) then Reaped(g, t.ts) else g, t.ts, t.millis(j));
    GroupTurn(s, t, i, t.millis(j));
    assert InGroup(g', g'.conns[m]);
    assert HasConn(Turned(s, t).groups, g.serial, g'.conns[m]) && g'.conns[m].addr == g.conns[k].addr;
  }

  /** Where a member at the end of an iteration with a cleanup comes from. */
  lemma EndMember(s: State, t: Turn, serial: nat, c': Conn) returns (i: nat, k: nat)
    requires Owned(s.groups) && Reaps(s, t) && HasConn(Turned(s, t).groups, serial, c')
    ensures i < |s.groups| && k < |s.groups[i].conns|
    ensures s.groups[i].serial == serial && s.groups[i].conns[k].addr == c'.addr
    ensures s.groups[i].conns[k].lastReceived + 15 >= t.ts
  {
    var gs' := Turned(s, t).groups;
    var j :| 0 <= j < |gs'| && gs'[j].serial == serial && InGroup(gs'[j], c');
    var m :| 0 <= m < |gs'[j].conns| && gs'[j].conns[m] == c';
    var o := OriginOf(s, t, j);
    GroupTurn(s, t, o.group, o.nowMs);
    i := o.group;
    k := EndBecame(s, t, o.group, o.nowMs, m);
  }

  lemma SilentGoes(s: State, t: Turn, i: nat, k: nat)
    requires Owned(s.groups) && SerialsOk(s.groups, s.counters.registered)
    requires Reaps(s, t) && i < |s.groups| && k < |s.groups[i].conns|
    requires s.groups[i].conns[k].lastReceived + 15 < t.ts
    ensures !Member(Turned(s, t).groups, s.groups[i].serial, s.groups[i].conns[k].addr)
  {
    var serial, a := s.groups[i].serial, s.groups[i].conns[k].addr;
    assert DistinctAddresses(s.groups[i].conns);
    if c' :| HasConn(Turned(s, t).groups, serial, c') && c'.addr == a {
      var i', k' := EndMember(s, t, serial, c');
      assert false;
    }
  }

  /** On every run: a cleanup at ts erases a connection exactly if nothing came from
      it in the 15 seconds before, and without a cleanup it stays. */
  lemma ErasedIffSilent(s: State, its: seq<Iteration>, events: seq<Event>, ts: int, millis: nat -> nat, i: nat, k: nat)
    requires Reached(s, its, events, ts) && i < |s.groups| && k < |s.groups[i].conns|
    ensures var serial, a := s.groups[i].serial, s.groups[i].conns[k].addr;
            Member(LoopTail(s, ts, millis).groups, serial, a)
            <==> s.lastCleanup + 3 > ts || LastHeard(TurnsUpTo(its, events, ts), serial, a) + 15 >= ts
  {
    var t := EndTurn(ts, millis);
    ReachedInv(s, its, events, ts);
    HeardOnRun(s, its, events, ts, i, k);
    if s.lastCleanup + 3 > ts || s.groups[i].conns[k].lastReceived + 15 >= ts {
      HeardStays(s, t, i, k);
    } else {
      SilentGoes(s, t, i, k);
    }
  }
}
