/**
  The packet handlers and the body of the main loop over the shared objects,
  proved to carry out the steps of `Receiver`.
 */
module ReceiverProgram {
  import opened Bytes
  import opened Net
  import opened Seqs
  import opened ReceiverTypes
  import opened Registry
  import opened Receiver
  import opened ReceiverInvariants
  import opened ReceiverTheorems
  import opened ConnectionObjects
  import opened ReceiverObjects
  import AuthLimiter

  class Program {
    const registry: ConnectionRegistry
    const limiter: AuthLimiter.Limiter

    ghost predicate Valid()
      reads registry, registry.repr
    {
      registry.Valid() && limiter !in registry.repr
    }

    ghost function View(): (s: State)
      reads registry, limiter
    {
      State(registry.table, registry.lastRun, limiter.entries, registry.counters)
    }

    constructor ()
      ensures Valid() && View() == INITIAL && fresh(registry) && fresh(limiter) && fresh(registry.repr)
    {
      registry := new ConnectionRegistry();
      limiter := new AuthLimiter.Limiter();
    }

    /** A full table has room if it has a ghost to evict. */
    method MakeRoom() returns (room: bool)
      requires Valid()
      modifies registry
      ensures Valid() && registry.repr == old(registry.repr)
      ensures var gs := old(registry.table); room <==> !(|gs| >= MAX_GROUPS && OldestGhost(gs, |gs|) < 0)
      ensures View() == MadeRoom(old(View()))
    {
      room := true;
      if |registry.groups| >= MAX_GROUPS {
        room := registry.EvictOldestPending();
      }
    }

    /** The new group of an answered REG1. */
    method Admit(addr: Address, id: Id, ts: int)
      requires Valid()
      modifies registry
      ensures Valid() && fresh(registry.repr - old(registry.repr))
      ensures View() == Admitted(old(View()), addr, id, ts)
    {
      var g := new ConnectionGroup(registry.counters.registered, id, addr, ts);
      registry.AddGroup(g);
      registry.counters := registry.counters.(registered := registry.counters.registered + 1);
    }

    method RegisterNewAddress(addr: Address, id: Id, ts: int, sendOk: bool) returns (outs: seq<Out>)
      requires Valid()
      modifies registry
      ensures Valid() && fresh(registry.repr - old(registry.repr))
      ensures var s := old(View());
              Outcome(View(), outs) ==
              if FindByAddress(s.groups, addr) != Nobody then Outcome(s, [Out(addr, RegErr)])
              else if !sendOk then Outcome(s, [])
              else Outcome(Admitted(s, addr, id, ts), [Out(addr, RegTwo(id))])
    {
      var existing := registry.FindGroup(addr);
      if existing != Nobody {
        return [Out(addr, RegErr)];
      }
      if !sendOk {
        return [];
      }
      Admit(addr, id, ts);
      return [Out(addr, RegTwo(id))];
    }

    /** register_group. */
    method RegisterGroup(addr: Address, half: Id, ts: int, env: Env) returns (outs: seq<Out>)
      requires Valid()
      modifies registry
      ensures Valid() && fresh(registry.repr - old(registry.repr))
      ensures Outcome(View(), outs) == Receiver.RegisterGroup(old(View()), addr, half, ts, env)
    {
      var blocked := limiter.IsBlocked(KeyFor(addr), ts);
      if blocked {
        return [Out(addr, RegErr)];
      }
      var room := MakeRoom();
      if !room {
        return [Out(addr, RegErr)];
      }
      outs := RegisterNewAddress(addr, half + env.random, ts, env.sendOk);
    }

    /** register_connection. */
    method RegisterConnection(addr: Address, id: Id, ts: int, env: Env) returns (outs: seq<Out>)
      requires Valid()
      modifies registry, registry.repr
      ensures Valid() && fresh(registry.repr - old(registry.repr))
      ensures Outcome(View(), outs) == Receiver.RegisterConnection(old(View()), addr, id, ts, env)
      ensures outs == [Out(addr, RegNgp)]
              <==> forall i :: 0 <= i < |old(View()).groups| ==> old(View()).groups[i].id != id
    {
      var i := registry.FindGroupById(id);
      if i < 0 {
        return [Out(addr, RegNgp)];
      }
      var existing := registry.FindGroup(addr);
      if existing.Somebody? && existing.group != i {
        return [Out(addr, RegErr)];
      }
      var known := existing.Somebody? && existing.conn >= 0;
      if !known {
        assert registry.groups[i].View() == registry.table[i];
        if |registry.groups[i].conns| >= MAX_CONNS_PER_GROUP {
          return [Out(addr, RegErr)];
        }
      }
      if !env.sendOk {
        return [];
      }
      registry.JoinGroup(i, addr, known, ts);
      return [Out(addr, RegThree)];
    }

    /** forward_to_srt_server with ensure_group_socket. */
    method Forward(i: nat, env: Env)
      requires Valid() && i < |registry.groups|
      modifies registry, registry.repr
      ensures Valid() && registry.repr == old(registry.repr)
      ensures View() == Forwarded(old(View()), i, env)
    {
      assert registry.groups[i].View() == registry.table[i];
      if !registry.groups[i].socketOpen {
        if !env.socketOk {
          registry.TearDown(i, SrtError);
          return;
        }
        registry.OpenSocket(i);
      } else {
        assert registry.table[i := registry.table[i].(socketOpen := true)] == registry.table;
      }
      if env.forward.Broken? {
        registry.TearDown(i, SrtError);
      }
    }

    /** Keepalives, and packets too short to be SRT. */
    method HandleControl(i: nat, k: nat, addr: Address, buf: seq<Byte>, ts: int, clock: int) returns (outs: seq<Out>)
      requires Valid() && i < |registry.groups| && k < |registry.table[i].conns| && !Classify(buf).Srt?
      modifies registry, registry.repr
      ensures Valid() && registry.repr == old(registry.repr)
      ensures View() == QuietState(old(View()), i, k, buf, ts, clock)
      ensures outs == if Classify(buf).Keepalive? then [Out(addr, Echo)] else []
    {
      var _, _ := registry.PacketInGroup(i, k, addr, buf, ts, clock, Millis(0, 0));
      outs := if Classify(buf).Keepalive? then [Out(addr, Echo)] else [];
    }

    /** Up to forwarding: counts, deduplicates and logs the packet. */
    method AbsorbSrtPacket(i: nat, k: nat, addr: Address, buf: seq<Byte>, ts: int, clock: int, ms: Millis)
      returns (suppressed: bool, acks: seq<Out>)
      requires Valid() && i < |registry.groups| && k < |registry.table[i].conns| && Classify(buf).Srt?
      requires registry.table[i].conns[k].addr == addr
      modifies registry, registry.repr
      ensures Valid() && registry.repr == old(registry.repr)
      ensures View() == SrtState(old(View()), i, k, addr, buf, ts, ms)
      ensures suppressed == Suppressed(old(registry.table[i]), buf, ms.dedup)
      ensures !suppressed ==> acks == AckOuts(old(registry.table[i]).conns[k], SequenceNumber(buf))
    {
      var batches: seq<seq<int>>;
      suppressed, batches := registry.PacketInGroup(i, k, addr, buf, ts, clock, ms);
      acks := if batches == [] then [] else [Out(addr, AckPacket(batches[0]))];
    }

    method HandleSrtPacket(i: nat, k: nat, addr: Address, buf: seq<Byte>, ts: int, env: Env) returns (outs: seq<Out>)
      requires Valid() && i < |registry.groups| && k < |registry.table[i].conns| && Classify(buf).Srt?
      requires registry.table[i].conns[k].addr == addr
      modifies registry, registry.repr
      ensures Valid() && registry.repr == old(registry.repr)
      ensures var s := old(View());
              var s1 := SrtState(s, i, k, addr, buf, ts, env.ms);
              Outcome(View(), outs) ==
              if Suppressed(s.groups[i], buf, env.ms.dedup) then Outcome(s1, [])
              else Outcome(Forwarded(s1, i, env), AckOuts(s.groups[i].conns[k], SequenceNumber(buf)))
    {
      var suppressed, acks := AbsorbSrtPacket(i, k, addr, buf, ts, env.clock, env.ms);
      if suppressed {
        return [];
      }
      Forward(i, env);
      outs := acks;
    }

    /** process_single_packet, for everything but registrations. */
    method HandleTraffic(addr: Address, buf: seq<Byte>, ts: int, env: Env) returns (outs: seq<Out>)
      requires Valid()
      modifies registry, registry.repr
      ensures Valid() && registry.repr == old(registry.repr)
      ensures Outcome(View(), outs) == Receiver.HandleTraffic(old(View()), addr, buf, ts, env)
    {
      var found := registry.FindGroup(addr);
      if found.Nobody? || found.conn < 0 {
        return [];
      }
      if Classify(buf).Srt? {
        outs := HandleSrtPacket(found.group, found.conn, addr, buf, ts, env);
      } else {
        outs := HandleControl(found.group, found.conn, addr, buf, ts, env.clock);
      }
    }

    /** process_single_packet. */
    method HandleDatagram(addr: Address, buf: seq<Byte>, ts: int, env: Env) returns (outs: seq<Out>)
      requires Valid()
      modifies registry, registry.repr
      ensures Valid() && fresh(registry.repr - old(registry.repr))
      ensures Outcome(View(), outs) == Receiver.HandleDatagram(old(View()), addr, buf, ts, env)
    {
      match Classify(buf)
      case Reg1(half) => outs := RegisterGroup(addr, half, ts, env);
      case Reg2(id) => outs := RegisterConnection(addr, id, ts, env);
      case _ => outs := HandleTraffic(addr, buf, ts, env);
    }

    method RelayFromServer(i: nat, buf: seq<Byte>, clock: int) returns (outs: seq<Out>)
      requires Valid() && i < |registry.groups|
      modifies registry, registry.repr, limiter
      ensures Valid() && registry.repr == old(registry.repr)
      ensures var s := old(View());
              var g := s.groups[i];
              var g1 := if IsAck(buf) then g.(established := true) else g;
              && outs == RelayOuts(g1, buf)
              && View() == if FailsAuth(g1, buf)
                           then TornDown(WithFailure(s, KeyFor(g.lastAddress), clock), i, AuthFailure)
                           else s.(groups := s.groups[i := g1])
    {
      if IsAck(buf) {
        registry.Establish(i);
      }
      assert registry.groups[i].View() == registry.table[i];
      var failedAuth := IsReject(buf) || (IsShutdown(buf) && !registry.groups[i].established);
      if failedAuth {
        limiter.RecordFailure(KeyFor(registry.groups[i].lastAddress), clock);
      }
      outs := registry.groups[i].RelayToClients(buf);
      if failedAuth {
        registry.TearDown(i, AuthFailure);
      }
    }

    /** handle_srt_data. */
    method HandleServer(raw: nat, buf: seq<Byte>, env: Env) returns (outs: seq<Out>)
      requires Valid() && raw < |registry.groups|
      modifies registry, registry.repr, limiter
      ensures Valid() && registry.repr == old(registry.repr)
      ensures Outcome(View(), outs) == Receiver.HandleServer(old(View()), raw, buf, env)
    {
      assert registry.groups[raw].View() == registry.table[raw];
      var i := registry.FindGroupById(registry.groups[raw].id);
      if i < 0 {
        return [];
      }
      assert registry.groups[i].View() == registry.table[i];
      if !registry.groups[i].socketOpen || |buf| < SRT_MIN_LEN {
        registry.TearDown(i, SrtError);
        return [];
      }
      outs := RelayFromServer(i, buf, env.clock);
    }

    /** What the main loop does after the events. */
    method FinishIteration(ts: int, millis: nat -> nat)
      requires Valid()
      modifies registry, registry.repr, limiter
      ensures Valid() && registry.repr == old(registry.repr)
      ensures View() == LoopTail(old(View()), ts, millis)
    {
      registry.CleanupInactive(ts);
      limiter.Cleanup(ts);
      registry.TendGroups(ts, millis);
    }

    method HandleEvent(e: Event, ts: int) returns (outs: seq<Out>)
      requires Valid() && Possible(View(), e)
      modifies registry, registry.repr, limiter
      ensures Valid() && fresh(registry.repr - old(registry.repr))
      ensures Outcome(View(), outs) == Step(old(View()), e, ts)
    {
      match e
      case Datagram(addr, buf, env) => outs := HandleDatagram(addr, buf, ts, env);
      case FromServer(raw, buf, env) => outs := HandleServer(raw, buf, env);
    }

    method HandleIfPossible(e: Event, ts: int)
      requires Valid()
      modifies registry, registry.repr, limiter
      ensures Valid() && fresh(registry.repr - old(registry.repr))
      ensures View() == if Possible(old(View()), e) then Step(old(View()), e, ts).state else old(View())
    {
      if e.FromServer? && e.raw < |registry.groups| {
        assert registry.groups[e.raw].View() == registry.table[e.raw];
      }
      if && |e.env.random| == ID_LEN / 2
         && (e.Datagram? ==> |e.buf| > 0)
         && (e.FromServer? ==> e.raw < |registry.groups| && registry.groups[e.raw].socketOpen)
      {
        var _ := HandleEvent(e, ts);
      }
    }

    /** The events behind one readiness report, in order; those that the state
        rules out do not occur. */
    method HandleEvents(events: seq<Event>, ts: int)
      requires Valid()
      modifies registry, registry.repr, limiter
      ensures Valid() && fresh(registry.repr - old(registry.repr))
      ensures View() == AfterEvents(old(View()), events, ts)
    {
      for i := 0 to |events|
        modifies registry, registry.repr, limiter
        invariant Valid() && fresh(registry.repr - old(registry.repr))
        invariant View() == AfterEvents(old(View()), events[..i], ts)
      {
        Next(events, i);
        EventsSnoc(old(View()), events[..i], events[i], ts);
        HandleIfPossible(events[i], ts);
      }
      assert events[..|events|] == events;
    }
  }

  lemma RunSnoc(its: seq<Iteration>, it: Iteration)
    requires Monotone(its) && LastClock(its) <= it.ts
    ensures Monotone(its + [it])
    ensures AfterRun(its + [it]) == LoopTail(AfterEvents(AfterRun(its), it.events, it.ts), it.ts, it.millis)
  {
    assert (its + [it])[..|its|] == its;
  }

  /** The state when the first m readiness reports are handled. */
  ghost function StateAt(s: State, wakeups: seq<seq<Event>>, m: nat, ts: int): State
    requires m <= |wakeups|
  {
    AfterEvents(s, Flatten(wakeups[..m]), ts)
  }

  /** Handling report m leaves fewer groups. */
  ghost predicate Shrinks(s: State, wakeups: seq<seq<Event>>, m: nat, ts: int)
    requires m < |wakeups|
  {
    |StateAt(s, wakeups, m + 1, ts).groups| < |StateAt(s, wakeups, m, ts).groups|
  }

  /** The reports are handled up to the first that shrinks the table, or all. */
  ghost predicate StopsAfter(s: State, wakeups: seq<seq<Event>>, n: nat, ts: int) {
    && n <= |wakeups|
    && (forall m :: 0 <= m < n - 1 ==> !Shrinks(s, wakeups, m, ts))
    && (n < |wakeups| ==> n > 0 && Shrinks(s, wakeups, n - 1, ts))
  }

  lemma NextWakeup(s: State, wakeups: seq<seq<Event>>, n: nat, ts: int)
    requires n < |wakeups|
    ensures StateAt(s, wakeups, n + 1, ts) == AfterEvents(StateAt(s, wakeups, n, ts), wakeups[n], ts)
  {
    Next(wakeups, n);
    Unappend(wakeups[..n], wakeups[n]);
    EventsConcat(s, Flatten(wakeups[..n]), wakeups[n], ts);
  }

  /** The main loop, with the run so far. */
  class MainLoop {
    const program: Program
    ghost var its: seq<Iteration>

    /** The program is where the run so far leads. */
    ghost predicate Valid()
      reads this, program.registry, program.registry.repr, program.limiter
    {
      program.Valid() && this !in program.registry.repr && Monotone(its) && program.View() == AfterRun(its)
    }

    constructor ()
      ensures Valid() && its == []
      ensures fresh(program.registry) && fresh(program.registry.repr) && fresh(program.limiter)
    {
      program := new Program();
      its := [];
    }

    method HandleWakeups(ts: int, wakeups: seq<seq<Event>>) returns (n: nat)
      requires Valid()
      modifies program.registry, program.registry.repr, program.limiter
      ensures program.Valid() && fresh(program.registry.repr - old(program.registry.repr))
      ensures StopsAfter(old(program.View()), wakeups, n, ts)
      ensures program.View() == StateAt(old(program.View()), wakeups, n, ts)
    {
      n := 0;
      ghost var s := program.View();
      while n < |wakeups|
        modifies program.registry, program.registry.repr, program.limiter
        invariant program.Valid() && fresh(program.registry.repr - old(program.registry.repr))
        invariant n <= |wakeups| && program.View() == StateAt(s, wakeups, n, ts)
        invariant forall m :: 0 <= m < n ==> !Shrinks(s, wakeups, m, ts)
      {
        var groupCnt := |program.registry.groups|;
        NextWakeup(s, wakeups, n, ts);
        program.HandleEvents(wakeups[n], ts);
        n := n + 1;
        if |program.registry.groups| < groupCnt {
          assert Shrinks(s, wakeups, n - 1, ts);
          break;
        }
      }
    }

    /** One turn.  A wake-up that shrinks the table ends the turn's events. */
    method Iterate(ts: int, wakeups: seq<seq<Event>>, millis: nat -> nat) returns (n: nat)
      requires Valid() && LastClock(its) <= ts
      modifies this`its, program.registry, program.registry.repr, program.limiter
      ensures Valid() && fresh(program.registry.repr - old(program.registry.repr))
      ensures StopsAfter(AfterRun(old(its)), wakeups, n, ts)
      ensures its == old(its) + [Iteration(ts, Flatten(wakeups[..n]), millis)]
    {
      n := HandleWakeups(ts, wakeups);
      program.FinishIteration(ts, millis);
      ghost var it := Iteration(ts, Flatten(wakeups[..n]), millis);
      RunSnoc(its, it);
      its := its + [it];
    }
  }

  /** So the objects of a running receiver have the guarantees of every run. */
  lemma RunningGuarantees(m: MainLoop, a: Address, gs: seq<Group>)
    requires m.Valid() && multiset(gs) == multiset(m.program.View().groups)
    ensures var s := m.program.View();
            && GroupsConserved(s) && RecoveriesConserved(s)
            && Owned(s.groups) && OwnerOf(gs, a) == OwnerOf(s.groups, a)
            && |s.groups| <= MAX_GROUPS
            && forall i :: 0 <= i < |s.groups| ==>
                 |s.groups[i].conns| <= MAX_CONNS_PER_GROUP && WellWeighed(s.groups[i].conns)
  {
    var s, ts := m.program.View(), LastClock(m.its);
    assert Reached(s, m.its, [], ts);
    Conservation(s, m.its, [], ts);
    AddressOwnership(s, m.its, [], ts, a, gs);
    RunInv(m.its);
    forall i, k | 0 <= i < |s.groups| && 0 <= k < |s.groups[i].conns| ensures WeighsRight(s.groups[i].conns[k].stats) {
      StateWeights(s, ts, i, k);
    }
  }
}
