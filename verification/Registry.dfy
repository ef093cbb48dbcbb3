/**
  The group table (src/connection/connection_registry.cpp): look-ups, eviction
  of ghost groups and the reaper, as functions of the table's value.
 */
module Registry {
  import opened Net
  import opened Seqs
  import opened Sums
  import opened ReceiverTypes

  const CLEANUP_PERIOD := 3
  const GROUP_TIMEOUT := 30
  const PENDING_GROUP_TIMEOUT := 5
  const RECOVERY_CHANCE_PERIOD := 5

  // ---- look-up by address --------------------------------------------------------

  /** Index of the first connection from `from` on with this address, or -1. */
  function ConnIndex(conns: seq<Conn>, a: Address, from: nat := 0): (k: int)
    requires from <= |conns|
    ensures k == -1 || (from <= k < |conns| && conns[k].addr == a)
    ensures k == -1 ==> forall j :: from <= j < |conns| ==> conns[j].addr != a
    decreases |conns| - from
  {
    if from == |conns| then -1 else if conns[from].addr == a then from else ConnIndex(conns, a, from + 1)
  }

  /** A group and a connection in it; conn is -1 if only `lastAddress` matches. */
  datatype Lookup = Nobody | Somebody(group: nat, conn: int)

  function FindInGroup(g: Group, a: Address): (k: int)
    ensures -2 <= k < |g.conns|
  {
    var k := ConnIndex(g.conns, a);
    if k >= 0 then k else if g.lastAddress == a then -1 else -2
  }

  /** The first-match scan of find_by_address. */
  function FindByAddress(gs: seq<Group>, a: Address, from: nat := 0): (r: Lookup)
    requires from <= |gs|
    ensures r.Somebody? ==> from <= r.group < |gs| && r.conn == FindInGroup(gs[r.group], a) >= -1
    ensures r.Nobody? ==> forall i :: from <= i < |gs| ==> FindInGroup(gs[i], a) == -2
    decreases |gs| - from
  {
    if from == |gs| then Nobody
    else if FindInGroup(gs[from], a) >= -1 then Somebody(from, FindInGroup(gs[from], a))
    else FindByAddress(gs, a, from + 1)
  }

  /** The first-match scan of find_group_by_id. */
  function FindById(gs: seq<Group>, id: Id, from: nat := 0): (i: int)
    requires from <= |gs|
    ensures i == -1 || (from <= i < |gs| && gs[i].id == id)
    ensures i == -1 ==> forall j :: from <= j < |gs| ==> gs[j].id != id
    decreases |gs| - from
  {
    if from == |gs| then -1 else if gs[from].id == id then from else FindById(gs, id, from + 1)
  }

  // ---- address ownership -----------------------------------------------------------

  /** The group claims the address, as a connection or as its last address. */
  ghost predicate Claims(g: Group, a: Address) {
    g.lastAddress == a || exists k :: 0 <= k < |g.conns| && g.conns[k].addr == a
  }

  ghost predicate DistinctAddresses(conns: seq<Conn>) {
    forall k, l :: 0 <= k < l < |conns| ==> conns[k].addr != conns[l].addr
  }

  /** Every address has at most one owner: one group, and in it one connection. */
  ghost predicate Owned(gs: seq<Group>) {
    && (forall i, j, a :: 0 <= i < |gs| && 0 <= j < |gs| && Claims(gs[i], a) && Claims(gs[j], a) ==> i == j)
    && (forall i :: 0 <= i < |gs| ==> DistinctAddresses(gs[i].conns))
  }

  lemma FoundIffClaims(g: Group, a: Address)
    ensures FindInGroup(g, a) >= -1 <==> Claims(g, a)
  {
    var k := ConnIndex(g.conns, a);
    if k >= 0 {
      assert g.conns[k].addr == a;
    }
  }

  /** With unique owners the scan finds the owner: it answers (i, k) exactly when
      connection k of group i has the address, (i, -1) exactly when the address
      is only group i's last address, and nobody exactly when nobody claims it. */
  lemma FindByAddressExact(gs: seq<Group>, a: Address, i: nat, k: nat)
    requires Owned(gs) && i < |gs|
    ensures k < |gs[i].conns| ==> (FindByAddress(gs, a) == Somebody(i, k) <==> gs[i].conns[k].addr == a)
    ensures FindByAddress(gs, a) == Somebody(i, -1) <==> gs[i].lastAddress == a && ConnIndex(gs[i].conns, a) == -1
    ensures FindByAddress(gs, a) == Nobody ==> !Claims(gs[i], a)
  {
    var r := FindByAddress(gs, a);
    FoundIffClaims(gs[i], a);
    if r.Somebody? {
      FoundIffClaims(gs[r.group], a);
      assert Claims(gs[i], a) ==> i == r.group;
    }
    if k < |gs[i].conns| && gs[i].conns[k].addr == a {
      var m := ConnIndex(gs[i].conns, a);
      assert DistinctAddresses(gs[i].conns);
      assert m == k;
      assert Claims(gs[i], a);
    }
  }

  lemma NobodyIffUnclaimed(gs: seq<Group>, a: Address)
    ensures FindByAddress(gs, a) == Nobody <==> forall i :: 0 <= i < |gs| ==> !Claims(gs[i], a)
  {
    forall i | 0 <= i < |gs| ensures FindInGroup(gs[i], a) >= -1 <==> Claims(gs[i], a) {
      FoundIffClaims(gs[i], a);
    }
  }

  /** The group found, as a value, and the connection in it. */
  datatype Owner = Unowned | OwnedBy(group: Group, conn: int)

  function OwnerOf(gs: seq<Group>, a: Address): Owner {
    var r := FindByAddress(gs, a);
    if r.Nobody? then Unowned else OwnedBy(gs[r.group], r.conn)
  }

  /** The answer does not depend on the order of the groups. */
  lemma OrderIrrelevant(gs: seq<Group>, gs': seq<Group>, a: Address)
    requires Owned(gs) && multiset(gs) == multiset(gs')
    ensures OwnerOf(gs, a) == OwnerOf(gs', a)
  {
    NobodyIffUnclaimed(gs, a);
    NobodyIffUnclaimed(gs', a);
    var r, r' := FindByAddress(gs, a), FindByAddress(gs', a);
    if r.Somebody? {
      FoundIffClaims(gs[r.group], a);
      var g := gs[r.group];
      assert g in multiset(gs');
      var j :| 0 <= j < |gs'| && gs'[j] == g;
    }
    if r'.Somebody? {
      FoundIffClaims(gs'[r'.group], a);
      var g := gs'[r'.group];
      assert g in multiset(gs);
      var j :| 0 <= j < |gs| && gs[j] == g;
      assert Claims(gs[j], a) && Claims(gs[r.group], a);
    }
  }

  // ---- eviction -----------------------------------------------------------------------

  /** Registered, but without a connection and never streamed. */
  predicate IsGhost(g: Group) {
    g.conns == [] && !g.dataSeen
  }

  /** The ghost that evict_oldest_pending_group picks among the first n, or -1. */
  function OldestGhost(gs: seq<Group>, n: nat): (r: int)
    requires n <= |gs|
    ensures -1 <= r < n
    ensures r >= 0 ==> IsGhost(gs[r])
  {
    if n == 0 then -1
    else
      var r := OldestGhost(gs, n - 1);
      if IsGhost(gs[n - 1]) && (r == -1 || gs[n - 1].createdAt < gs[r].createdAt) then n - 1 else r
  }

  /** It is the first of the oldest ghosts, and there is none only if there is
      no ghost. */
  lemma {:induction false} OldestGhostExact(gs: seq<Group>, n: nat)
    requires n <= |gs|
    ensures var r := OldestGhost(gs, n);
            && (r == -1 <==> forall i :: 0 <= i < n ==> !IsGhost(gs[i]))
            && forall i :: r >= 0 && 0 <= i < n && IsGhost(gs[i]) ==>
                 gs[r].createdAt <= gs[i].createdAt && (i < r ==> gs[r].createdAt < gs[i].createdAt)
    decreases n
  {
    if n > 0 {
      OldestGhostExact(gs, n - 1);
    }
  }

  function RemoveAt(gs: seq<Group>, i: nat): (r: seq<Group>)
    requires i < |gs|
    ensures |r| == |gs| - 1
  {
    gs[..i] + gs[i + 1..]
  }

  // ---- the reaper ------------------------------------------------------------------------

  predicate Completes(c: Conn, now: int) {
    c.recoveryStart > 0 && c.lastReceived > c.recoveryStart && now - c.recoveryStart > RECOVERY_CHANCE_PERIOD
  }

  predicate Fails(c: Conn, now: int) {
    c.recoveryStart > 0 && c.lastReceived <= c.recoveryStart && c.recoveryStart + RECOVERY_CHANCE_PERIOD < now
  }

  function Settled(c: Conn, now: int): Conn {
    if Completes(c, now) || Fails(c, now) then c.(recoveryStart := 0) else c
  }

  /** The surviving connections, in order, with finished recoveries closed. */
  function ReapConns(conns: seq<Conn>, now: int): seq<Conn> {
    if conns == [] then []
    else
      var n := |conns| - 1;
      ReapConns(conns[..n], now) + if TimedOut(conns[n], now) then [] else [Settled(conns[n], now)]
  }

  function Reaped(g: Group, now: int): Group {
    g.(conns := ReapConns(g.conns, now))
  }

  predicate Expires(g: Group, now: int) {
    ReapConns(g.conns, now) == []
    && g.createdAt + (if g.dataSeen then GROUP_TIMEOUT else PENDING_GROUP_TIMEOUT) < now
  }

  /** The surviving groups, in order. */
  function ReapGroups(gs: seq<Group>, now: int): seq<Group> {
    if gs == [] then []
    else
      var n := |gs| - 1;
      ReapGroups(gs[..n], now) + if Expires(gs[n], now) then [] else [Reaped(gs[n], now)]
  }

  /** What a pass adds to the metrics. */
  datatype Tally = Tally(completed: nat, failed: nat, connsRemoved: nat, groupsRemoved: nat)

  function Add(s: Tally, t: Tally): Tally {
    Tally(s.completed + t.completed, s.failed + t.failed,
          s.connsRemoved + t.connsRemoved, s.groupsRemoved + t.groupsRemoved)
  }

  function TallyConn(c: Conn, now: int): Tally {
    Tally(One(Completes(c, now)), One(Fails(c, now)), One(TimedOut(c, now)), 0)
  }

  function TallyConns(conns: seq<Conn>, now: int): Tally {
    if conns == [] then Tally(0, 0, 0, 0)
    else
      var n := |conns| - 1;
      Add(TallyConns(conns[..n], now),
          TallyConn(conns[n], now))
  }

  function TallyGroup(g: Group, now: int): Tally {
    Add(TallyConns(g.conns, now), Tally(0, 0, 0, One(Expires(g, now))))
  }

  function TallyGroups(gs: seq<Group>, now: int): Tally {
    if gs == [] then Tally(0, 0, 0, 0)
    else
      var n := |gs| - 1;
      Add(TallyGroups(gs[..n], now), TallyGroup(gs[n], now))
  }

  /** A recovery starts with a packet, so it is never newer than the last one. */
  ghost predicate SaneRecovery(c: Conn) {
    c.recoveryStart <= c.lastReceived
  }

  ghost predicate SaneConns(conns: seq<Conn>) {
    forall k :: 0 <= k < |conns| ==> SaneRecovery(conns[k])
  }

  ghost predicate SaneGroups(gs: seq<Group>) {
    forall i :: 0 <= i < |gs| ==> SaneConns(gs[i].conns)
  }

  lemma ReapSnoc(conns: seq<Conn>, c: Conn, now: int)
    ensures ReapConns(conns + [c], now) == ReapConns(conns, now) + if TimedOut(c, now) then [] else [Settled(c, now)]
    ensures TallyConns(conns + [c], now) == Add(TallyConns(conns, now), TallyConn(c, now))
  {
    Unappend(conns, c);
  }

  lemma SettledTwice(c: Conn, t1: int, t2: int)
    requires t1 <= t2 && SaneRecovery(c)
    ensures Settled(Settled(c, t1), t2) == Settled(c, t2)
    ensures TimedOut(c, t1) ==> TimedOut(c, t2) && TallyConn(c, t1) == TallyConn(c, t2)
    ensures !TimedOut(c, t1) ==>
              && (TimedOut(Settled(c, t1), t2) <==> TimedOut(c, t2))
              && Add(TallyConn(c, t1), TallyConn(Settled(c, t1), t2)) == TallyConn(c, t2)
  {
  }

  lemma AddShuffle(a: Tally, b: Tally, c: Tally, d: Tally)
    ensures Add(Add(a, b), Add(c, d)) == Add(Add(a, c), Add(b, d))
    ensures Add(Add(a, b), c) == Add(Add(a, c), b)
  {
  }

  lemma ReapTwiceSnoc(conns: seq<Conn>, c: Conn, t1: int, t2: int)
    requires t1 <= t2 && SaneRecovery(c)
    requires ReapConns(ReapConns(conns, t1), t2) == ReapConns(conns, t2)
    requires Add(TallyConns(conns, t1), TallyConns(ReapConns(conns, t1), t2)) == TallyConns(conns, t2)
    ensures ReapConns(ReapConns(conns + [c], t1), t2) == ReapConns(conns + [c], t2)
    ensures Add(TallyConns(conns + [c], t1), TallyConns(ReapConns(conns + [c], t1), t2)) == TallyConns(conns + [c], t2)
  {
    var rest := ReapConns(conns, t1);
    ReapSnoc(conns, c, t1);
    ReapSnoc(conns, c, t2);
    SettledTwice(c, t1, t2);
    if TimedOut(c, t1) {
      AppendNothing(rest);
      AppendNothing(ReapConns(conns, t2));
      AddShuffle(TallyConns(conns, t1), TallyConn(c, t1), TallyConns(rest, t2), TallyConn(c, t2));
    } else {
      var d := Settled(c, t1);
      ReapSnoc(rest, d, t2);
      AddShuffle(TallyConns(conns, t1), TallyConn(c, t1), TallyConns(rest, t2), TallyConn(d, t2));
    }
  }

  /** Two passes without packets in between do what the second alone does. */
  lemma {:induction false} ReapConnsTwice(conns: seq<Conn>, t1: int, t2: int)
    requires t1 <= t2 && SaneConns(conns)
    ensures ReapConns(ReapConns(conns, t1), t2) == ReapConns(conns, t2)
    ensures Add(TallyConns(conns, t1), TallyConns(ReapConns(conns, t1), t2)) == TallyConns(conns, t2)
    decreases |conns|
  {
    if conns != [] {
      var n := |conns| - 1;
      SplitLast(conns);
      ReapConnsTwice(conns[..n], t1, t2);
      ReapTwiceSnoc(conns[..n], conns[n], t1, t2);
    }
  }

  lemma ReapGroupSnoc(gs: seq<Group>, g: Group, now: int)
    ensures ReapGroups(gs + [g], now) == ReapGroups(gs, now) + if Expires(g, now) then [] else [Reaped(g, now)]
    ensures TallyGroups(gs + [g], now)
            == Add(TallyGroups(gs, now), TallyGroup(g, now))
  {
    Unappend(gs, g);
  }

  lemma AddGroup(a: Tally, b: Tally, x: nat)
    ensures Add(Add(a, Tally(0, 0, 0, 0)), Add(b, Tally(0, 0, 0, x))) == Add(Add(a, b), Tally(0, 0, 0, x))
    ensures Add(a, Tally(0, 0, 0, 0)) == a
  {
  }

  /** Expiry is final, and only later if not now. */
  lemma ExpiryMonotone(g: Group, t1: int, t2: int)
    requires t1 <= t2 && SaneConns(g.conns)
    ensures Reaped(Reaped(g, t1), t2) == Reaped(g, t2)
    ensures Expires(g, t1) ==> Expires(g, t2)
    ensures Expires(Reaped(g, t1), t2) <==> Expires(g, t2)
  {
    ReapConnsTwice(g.conns, t1, t2);
  }

  /** A group that expires at t1 is empty then, so t2 finds nothing more in it. */
  lemma ExpiresTwice(g: Group, t1: int, t2: int)
    requires t1 <= t2 && SaneConns(g.conns)
    ensures Expires(g, t1) ==> TallyGroup(g, t1) == TallyGroup(g, t2)
    ensures !Expires(g, t1) ==> Add(TallyGroup(g, t1), TallyGroup(Reaped(g, t1), t2)) == TallyGroup(g, t2)
  {
    ExpiryMonotone(g, t1, t2);
    ReapConnsTwice(g.conns, t1, t2);
    var h := Reaped(g, t1);
    AddGroup(TallyConns(g.conns, t1), TallyConns(h.conns, t2), One(Expires(g, t2)));
    if Expires(g, t1) {
      assert h.conns == [];
      assert TallyConns(h.conns, t2) == Tally(0, 0, 0, 0);
    }
  }

  lemma ReapGroupTwiceSnoc(gs: seq<Group>, g: Group, t1: int, t2: int)
    requires t1 <= t2 && SaneConns(g.conns)
    requires ReapGroups(ReapGroups(gs, t1), t2) == ReapGroups(gs, t2)
    requires Add(TallyGroups(gs, t1), TallyGroups(ReapGroups(gs, t1), t2)) == TallyGroups(gs, t2)
    ensures ReapGroups(ReapGroups(gs + [g], t1), t2) == ReapGroups(gs + [g], t2)
    ensures Add(TallyGroups(gs + [g], t1), TallyGroups(ReapGroups(gs + [g], t1), t2)) == TallyGroups(gs + [g], t2)
  {
    var rest := ReapGroups(gs, t1);
    ReapGroupSnoc(gs, g, t1);
    ReapGroupSnoc(gs, g, t2);
    ExpiryMonotone(g, t1, t2);
    ExpiresTwice(g, t1, t2);
    if Expires(g, t1) {
      AppendNothing(rest);
      AppendNothing(ReapGroups(gs, t2));
      AddShuffle(TallyGroups(gs, t1), TallyGroup(g, t1), TallyGroups(rest, t2), TallyGroup(g, t2));
    } else {
      var h := Reaped(g, t1);
      ReapGroupSnoc(rest, h, t2);
      AddShuffle(TallyGroups(gs, t1), TallyGroup(g, t1), TallyGroups(rest, t2), TallyGroup(h, t2));
    }
  }

  lemma {:induction false} ReapGroupsTwice(gs: seq<Group>, t1: int, t2: int)
    requires t1 <= t2 && SaneGroups(gs)
    ensures ReapGroups(ReapGroups(gs, t1), t2) == ReapGroups(gs, t2)
    ensures Add(TallyGroups(gs, t1), TallyGroups(ReapGroups(gs, t1), t2)) == TallyGroups(gs, t2)
    decreases |gs|
  {
    if gs != [] {
      var n := |gs| - 1;
      SplitLast(gs);
      ReapGroupsTwice(gs[..n], t1, t2);
      ReapGroupTwiceSnoc(gs[..n], gs[n], t1, t2);
    }
  }

  // ---- what a pass counts --------------------------------------------------------------------

  /** Something came in the recovery that began more than 5 seconds ago. */
  function Recovered(now: int): Conn -> nat {
    (c: Conn) => One(c.recoveryStart > 0 && c.recoveryStart + 5 < now && c.recoveryStart < c.lastReceived)
  }

  /** Nothing has. */
  function NotRecovered(now: int): Conn -> nat {
    (c: Conn) => One(c.recoveryStart > 0 && c.recoveryStart + 5 < now && c.lastReceived <= c.recoveryStart)
  }

  /** Nothing has come in the last 15 seconds. */
  function Silent(now: int): Conn -> nat {
    (c: Conn) => One(c.lastReceived + 15 < now)
  }

  /** The sum over the connections of all groups. */
  function SumAll(gs: seq<Group>, f: Conn -> nat): nat {
    if gs == [] then 0 else SumAll(gs[..|gs| - 1], f) + Sum(gs[|gs| - 1].conns, f)
  }

  lemma {:induction false} CompletedCounted(conns: seq<Conn>, now: int)
    ensures TallyConns(conns, now).completed == Sum(conns, Recovered(now))
    decreases |conns|
  {
    if conns != [] {
      CompletedCounted(conns[..|conns| - 1], now);
    }
  }

  lemma {:induction false} FailedCounted(conns: seq<Conn>, now: int)
    ensures TallyConns(conns, now).failed == Sum(conns, NotRecovered(now))
    decreases |conns|
  {
    if conns != [] {
      FailedCounted(conns[..|conns| - 1], now);
    }
  }

  lemma {:induction false} SilentCounted(conns: seq<Conn>, now: int)
    ensures TallyConns(conns, now).connsRemoved == Sum(conns, Silent(now))
    decreases |conns|
  {
    if conns != [] {
      SilentCounted(conns[..|conns| - 1], now);
    }
  }

  lemma SumAllSnoc(gs: seq<Group>, g: Group, f: Conn -> nat)
    ensures SumAll(gs + [g], f) == SumAll(gs, f) + Sum(g.conns, f)
  {
    Unappend(gs, g);
  }

  lemma CompletedSnoc(gs: seq<Group>, g: Group, now: int, f: Conn -> nat)
    requires TallyGroups(gs, now).completed == SumAll(gs, f)
    requires TallyConns(g.conns, now).completed == Sum(g.conns, f)
    ensures TallyGroups(gs + [g], now).completed == SumAll(gs + [g], f)
  {
    SumAllSnoc(gs, g, f);
    ReapGroupSnoc(gs, g, now);
  }

  lemma {:induction false} AllCompletedCounted(gs: seq<Group>, now: int)
    ensures TallyGroups(gs, now).completed == SumAll(gs, Recovered(now))
    decreases |gs|
  {
    if gs != [] {
      SplitLast(gs);
      AllCompletedCounted(gs[..|gs| - 1], now);
      CompletedCounted(gs[|gs| - 1].conns, now);
      CompletedSnoc(gs[..|gs| - 1], gs[|gs| - 1], now, Recovered(now));
    }
  }

  lemma FailedSnoc(gs: seq<Group>, g: Group, now: int, f: Conn -> nat)
    requires TallyGroups(gs, now).failed == SumAll(gs, f)
    requires TallyConns(g.conns, now).failed == Sum(g.conns, f)
    ensures TallyGroups(gs + [g], now).failed == SumAll(gs + [g], f)
  {
    SumAllSnoc(gs, g, f);
    ReapGroupSnoc(gs, g, now);
  }

  lemma {:induction false} AllFailedCounted(gs: seq<Group>, now: int)
    ensures TallyGroups(gs, now).failed == SumAll(gs, NotRecovered(now))
    decreases |gs|
  {
    if gs != [] {
      SplitLast(gs);
      AllFailedCounted(gs[..|gs| - 1], now);
      FailedCounted(gs[|gs| - 1].conns, now);
      FailedSnoc(gs[..|gs| - 1], gs[|gs| - 1], now, NotRecovered(now));
    }
  }

  lemma SilentSnoc(gs: seq<Group>, g: Group, now: int, f: Conn -> nat)
    requires TallyGroups(gs, now).connsRemoved == SumAll(gs, f)
    requires TallyConns(g.conns, now).connsRemoved == Sum(g.conns, f)
    ensures TallyGroups(gs + [g], now).connsRemoved == SumAll(gs + [g], f)
  {
    SumAllSnoc(gs, g, f);
    ReapGroupSnoc(gs, g, now);
  }

  lemma {:induction false} AllSilentCounted(gs: seq<Group>, now: int)
    ensures TallyGroups(gs, now).connsRemoved == SumAll(gs, Silent(now))
    decreases |gs|
  {
    if gs != [] {
      SplitLast(gs);
      AllSilentCounted(gs[..|gs| - 1], now);
      SilentCounted(gs[|gs| - 1].conns, now);
      SilentSnoc(gs[..|gs| - 1], gs[|gs| - 1], now, Silent(now));
    }
  }

  lemma {:induction false} NoGroupsInConns(conns: seq<Conn>, now: int)
    ensures TallyConns(conns, now).groupsRemoved == 0
    decreases |conns|
  {
    if conns != [] {
      NoGroupsInConns(conns[..|conns| - 1], now);
    }
  }

  lemma {:induction false} AllGoneCounted(gs: seq<Group>, now: int)
    ensures TallyGroups(gs, now).groupsRemoved + |ReapGroups(gs, now)| == |gs|
    decreases |gs|
  {
    if gs != [] {
      var n := |gs| - 1;
      SplitLast(gs);
      AllGoneCounted(gs[..n], now);
      ReapGroupSnoc(gs[..n], gs[n], now);
      NoGroupsInConns(gs[n].conns, now);
    }
  }
}
