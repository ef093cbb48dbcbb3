/**
  The connection registry as a mutable object, proved to do what the functions of
  `Registry` and `Receiver` do to the table.
 */
module ReceiverObjects {
  import opened Bytes
  import opened Net
  import opened Seqs
  import opened Sums
  import opened ReceiverTypes
  import opened Registry
  import opened Quality
  import opened Receiver
  import opened ConnectionObjects
  import AckStream

  /** The table after the reaper has looked at group i. */
  ghost function ReplaceGroup(gs: seq<Group>, i: nat, now: int): seq<Group>
    requires i < |gs|
  {
    if Expires(gs[i], now) then gs[..i] + gs[i + 1..] else gs[i := Reaped(gs[i], now)]
  }

  lemma ReplacedThenRemoved(gs: seq<Group>, i: nat, g: Group)
    requires i < |gs|
    ensures RemoveAt(gs[i := g], i) == gs[..i] + gs[i + 1..]
  {
  }

  /** The first i groups are what survives of the first `done`; the rest waits. */
  ghost predicate GroupsReapedUpTo(was: seq<Group>, done: nat, now: int, gs: seq<Group>, i: nat) {
    && done <= |was| && i <= |gs|
    && gs[..i] == ReapGroups(was[..done], now) && gs[i..] == was[done..]
  }

  lemma ReapGroupStep(was: seq<Group>, done: nat, now: int, gs: seq<Group>, gs': seq<Group>, i: nat)
    requires GroupsReapedUpTo(was, done, now, gs, i) && i < |gs| && done < |was| && gs' == ReplaceGroup(gs, i, now)
    ensures gs[i] == was[done]
    ensures GroupsReapedUpTo(was, done + 1, now, gs', if Expires(was[done], now) then i else i + 1)
    ensures TallyGroups(was[..done + 1], now) == Add(TallyGroups(was[..done], now), TallyGroup(was[done], now))
  {
    Next(gs, i);
    Next(was, done);
    ReapGroupSnoc(was[..done], was[done], now);
    Erased(gs, i);
    Overwritten(gs, i, Reaped(gs[i], now));
    AppendNothing(gs[..i]);
  }

  lemma ReapGroupsDone(was: seq<Group>, done: nat, now: int, gs: seq<Group>, i: nat)
    requires GroupsReapedUpTo(was, done, now, gs, i) && i == |gs|
    ensures done == |was| && gs == ReapGroups(was, now) && was[..done] == was
  {
    assert |was[done..]| == |gs[i..]| == 0;
    assert gs[..i] == gs && was[..done] == was;
  }

  class ConnectionRegistry {
    var groups: seq<ConnectionGroup>
    var lastRun: int
    var counters: Counters          // the process-wide metrics

    ghost var table: seq<Group>     // the contents of groups
    ghost var repr: set<object>     // the groups and everything they own

    ghost predicate Valid()
      reads this, repr
    {
      && this !in repr
      && |table| == |groups|
      && (forall i :: 0 <= i < |groups| ==> groups[i] in repr && groups[i].repr <= repr)
      && (forall i :: 0 <= i < |groups| ==> groups[i].Valid() && groups[i].View() == table[i])
      && forall i, j :: 0 <= i < j < |groups| ==> groups[i].repr !! groups[j].repr
    }

    /** Valid, but for the contents of group i, which `table` may not show yet. */
    ghost predicate Loose(i: nat)
      requires i < |groups|
      reads this, repr, groups[i], groups[i].repr
    {
      && this !in repr && this !in groups[i].repr
      && |table| == |groups|
      && (forall j :: 0 <= j < |groups| ==> groups[j] in repr)
      && (forall j :: 0 <= j < |groups| && j != i ==> groups[j].repr <= repr)
      && (forall j :: 0 <= j < |groups| && j != i ==> groups[j].Valid() && groups[j].View() == table[j])
      && groups[i].Valid()
      && forall j, l :: 0 <= j < l < |groups| ==> groups[j].repr !! groups[l].repr
    }

    constructor ()
      ensures Valid() && fresh(repr)
      ensures groups == [] && table == [] && lastRun == 0 && counters == INITIAL.counters
    {
      groups, table, repr := [], [], {};
      lastRun := 0;
      counters := INITIAL.counters;
    }

    /** find_by_address. */
    method FindGroup(a: Address) returns (r: Lookup)
      requires Valid()
      ensures r == FindByAddress(table, a)
    {
      for i := 0 to |groups|
        invariant FindByAddress(table, a) == FindByAddress(table, a, i)
      {
        var k := groups[i].Find(a);
        if k >= -1 {
          return Somebody(i, k);
        }
      }
      return Nobody;
    }

    /** find_group_by_id. */
    method FindGroupById(id: Id) returns (r: int)
      requires Valid()
      ensures r == FindById(table, id)
    {
      for i := 0 to |groups|
        invariant FindById(table, id) == FindById(table, id, i)
      {
        assert table[i] == groups[i].View();
        if groups[i].id == id {
          return i;
        }
      }
      return -1;
    }

    /** add_group. */
    method AddGroup(g: ConnectionGroup)
      requires Valid() && g.Valid() && g.repr !! repr && this !in g.repr
      modifies this
      ensures Valid() && repr == old(repr) + g.repr
      ensures table == old(table) + [g.View()] && lastRun == old(lastRun) && counters == old(counters)
    {
      groups := groups + [g];
      table := table + [g.View()];
      repr := repr + g.repr;
    }

    /** remove_group. */
    method RemoveGroup(i: nat)
      requires Valid() && i < |groups|
      modifies this`groups, this`table
      ensures Valid() && table == RemoveAt(old(table), i)
    {
      groups := groups[..i] + groups[i + 1..];
      table := RemoveAt(table, i);
    }

    /** SRTHandler::remove_group. */
    method TearDown(i: nat, reason: Reason)
      requires Valid() && i < |groups|
      modifies this`groups, this`table, this`counters
      ensures Valid() && table == RemoveAt(old(table), i)
      ensures counters == CountedOut(old(counters), old(table[i]), reason)
    {
      var lost := groups[i].CountRecovering();
      counters := counters.(discarded := counters.discarded + lost);
      if reason.SrtError? {
        counters := counters.(srtError := counters.srtError + 1);
      } else {
        counters := counters.(auth := counters.auth + 1);
      }
      RemoveGroup(i);
    }

    /** evict_oldest_pending_group. */
    method EvictOldestPending() returns (evicted: bool)
      requires Valid()
      modifies this`groups, this`table, this`counters
      ensures Valid()
      ensures evicted == (OldestGhost(old(table), |old(table)|) >= 0)
      ensures var v := OldestGhost(old(table), |old(table)|);
              && table == (if v < 0 then old(table) else RemoveAt(old(table), v))
              && counters == if v < 0 then old(counters) else old(counters).(evicted := old(counters).evicted + 1)
    {
      var oldest := -1;
      for i := 0 to |groups|
        invariant oldest == OldestGhost(table, i)
      {
        assert table[i] == groups[i].View();
        assert oldest >= 0 ==> table[oldest] == groups[oldest].View();
        if |groups[i].conns| == 0 && !groups[i].dataSeen {
          if oldest == -1 || groups[i].createdAt < groups[oldest].createdAt {
            oldest := i;
          }
        }
      }
      evicted := oldest >= 0;
      if evicted {
        counters := counters.(evicted := counters.evicted + 1);
        RemoveGroup(oldest);
      }
    }

    /** Group i was changed through its own methods; note its new contents. */
    ghost method Note(i: nat)
      requires i < |groups| && Loose(i)
      modifies this`table, this`repr
      ensures Valid() && table == old(table)[i := groups[i].View()] && repr == old(repr) + groups[i].repr
    {
      table := table[i := groups[i].View()];
      repr := repr + groups[i].repr;
    }

    method JoinGroup(i: nat, addr: Address, known: bool, now: int)
      requires Valid() && i < |groups|
      modifies this`table, this`repr, repr
      ensures Valid() && fresh(repr - old(repr))
      ensures table == old(table)[i := Joined(old(table[i]), addr, known, now)]
    {
      groups[i].Join(addr, known, now);
      Note(i);
    }

    method PacketInGroup(i: nat, k: nat, addr: Address, buf: seq<Byte>, ts: int, clock: int, ms: Millis)
      returns (suppressed: bool, batches: seq<seq<int>>)
      requires Valid() && i < |groups| && k < |table[i].conns|
      modifies this`table, this`repr, this`counters, repr
      ensures Valid() && repr == old(repr)
      ensures counters == old(counters)
                          .(started := old(counters).started + One(StartsRecovery(old(table[i]).conns[k], ts)))
      ensures !Classify(buf).Srt? ==> table == old(table)[i := Quietly(old(table[i]), k, buf, ts, clock)]
      ensures Classify(buf).Srt? ==>
                && table == old(table)[i := SrtInGroup(TouchedGroup(old(table[i]), k, ts), k, addr, buf, ts, ms)]
                && suppressed == Suppressed(old(table[i]), buf, ms.dedup)
                && (!suppressed ==> batches == var sn := SequenceNumber(buf);
                      if sn < 0 then [] else AckStream.Completed(old(table[i]).conns[k].recvLog, sn))
    {
      var started: bool;
      assert groups[i].members == table[i].conns;
      started, suppressed, batches := groups[i].HandlePacket(k, addr, buf, ts, clock, ms);
      Note(i);
      if started {
        counters := counters.(started := counters.started + 1);
      }
    }

    method OpenSocket(i: nat)
      requires Valid() && i < |groups|
      modifies this`table, this`repr, repr
      ensures Valid() && repr == old(repr)
      ensures table == old(table)[i := old(table[i]).(socketOpen := true)]
    {
      groups[i].MarkSocketOpen();
      Note(i);
    }

    method Establish(i: nat)
      requires Valid() && i < |groups|
      modifies this`table, this`repr, repr
      ensures Valid() && repr == old(repr)
      ensures table == old(table)[i := old(table[i]).(established := true)]
    {
      groups[i].MarkEstablished();
      Note(i);
    }

    /** Evaluation and weights of one group. */
    method TendGroup(i: nat, ts: int, nowMs: nat)
      requires Valid() && i < |groups|
      modifies this`table, this`repr, repr
      ensures Valid() && repr == old(repr)
      ensures table == old(table)[i := Tended(old(table[i]), ts, nowMs)]
    {
      groups[i].EvaluateGroup(ts, nowMs);
      groups[i].AdjustWeights(ts);
      Note(i);
    }

    /** The last loop of the main loop body. */
    method TendGroups(ts: int, millis: nat -> nat)
      requires Valid()
      modifies this`table, this`repr, repr
      ensures Valid() && repr == old(repr)
      ensures table == TendAll(old(table), ts, millis)
    {
      ghost var was, goal := table, TendAll(table, ts, millis);
      for i := 0 to |groups|
        modifies this`table, this`repr, repr
        invariant Valid() && repr == old(repr) && |table| == |was|
        invariant forall j :: 0 <= j < |table| ==> table[j] == if j < i then goal[j] else was[j]
      {
        TendGroup(i, ts, millis(i));
      }
      assert table == goal;
    }

    method ReapInGroup(i: nat, now: int) returns (expired: bool, t: Tally)
      requires Valid() && i < |groups|
      modifies this`table, this`repr, repr
      ensures Valid() && repr == old(repr)
      ensures expired == Expires(old(table[i]), now) && t == TallyGroup(old(table[i]), now)
      ensures table == old(table)[i := Reaped(old(table[i]), now)]
    {
      expired, t := groups[i].Reap(now);
      Note(i);
    }

    method ReapGroup(i: nat, now: int) returns (erased: bool, t: Tally)
      requires Valid() && i < |groups|
      modifies this`groups, this`table, this`repr, repr
      ensures Valid() && repr == old(repr)
      ensures erased == Expires(old(table[i]), now) && t == TallyGroup(old(table[i]), now)
      ensures table == ReplaceGroup(old(table), i, now)
    {
      ghost var was := table;
      erased, t := ReapInGroup(i, now);
      if erased {
        RemoveGroup(i);
        ReplacedThenRemoved(was, i, Reaped(was[i], now));
      }
    }

    method ReapLoop(now: int) returns (tally: Tally)
      requires Valid()
      modifies this`groups, this`table, this`repr, repr
      ensures Valid() && repr == old(repr)
      ensures table == ReapGroups(old(table), now) && tally == TallyGroups(old(table), now)
    {
      tally := Tally(0, 0, 0, 0);
      ghost var was, done := table, 0;
      var i := 0;
      while i < |groups|
        modifies this`groups, this`table, this`repr, repr
        invariant Valid() && repr == old(repr)
        invariant 0 <= done <= |was| && GroupsReapedUpTo(was, done, now, table, i)
        invariant tally == TallyGroups(was[..done], now)
        decreases |groups| - i
      {
        ghost var gs := table;
        assert |gs[i..]| == |was[done..]|;
        var erased, t := ReapGroup(i, now);
        ReapGroupStep(was, done, now, gs, table, i);
        tally := Add(tally, t);
        if !erased {
          i := i + 1;
        }
        done := done + 1;
      }
      ReapGroupsDone(was, done, now, table, i);
    }

    /** cleanup_inactive, erasing groups in place. */
    method CleanupInactive(now: int)
      requires Valid()
      modifies this, repr
      ensures Valid() && repr == old(repr)
      ensures if old(lastRun) + CLEANUP_PERIOD > now
              then table == old(table) && counters == old(counters) && lastRun == old(lastRun)
              else && table == ReapGroups(old(table), now) && lastRun == now
                   && counters == Booked(old(counters), TallyGroups(old(table), now))
    {
      if lastRun + CLEANUP_PERIOD > now {
        return;
      }
      lastRun := now;
      var tally := ReapLoop(now);
      counters := Booked(counters, tally);
    }
  }
}
