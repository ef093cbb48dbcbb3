/** The throttle on failed authentications, on every run of the receiver. */
module LimiterRuns {
  import opened Bytes
  import opened Net
  import opened Seqs
  import opened ReceiverTypes
  import opened Registry
  import opened Receiver
  import opened ReceiverTheorems
  import opened Turns
  import AuthLimiter

  type Op = AuthLimiter.Op

  /** The SRT server refuses the session of the group that the event leads to. */
  predicate Refuses(s: State, t: Turn) {
    && t.EventTurn? && Possible(s, t.event) && t.event.FromServer?
    && var g := s.groups[FindById(s.groups, s.groups[t.event.raw].id)];
       && g.socketOpen && |t.event.buf| >= SRT_MIN_LEN
       && FailsAuth(if IsAck(t.event.buf) then g.(established := true) else g, t.event.buf)
  }

  /** What a turn does to the limiter: a refused session counts against the IP of
      the group's last address, and the end of an iteration sweeps. */
  function OpsIn(s: State, t: Turn): seq<Op> {
    if t.EndTurn? then [AuthLimiter.Sweep(t.ts)]
    else if Refuses(s, t) then
      var g := s.groups[FindById(s.groups, s.groups[t.event.raw].id)];
      [AuthLimiter.Failure(KeyFor(g.lastAddress), t.event.env.clock)]
    else []
  }

  function Ops(turns: seq<Turn>): seq<Op> {
    if turns == [] then []
    else Ops(turns[..|turns| - 1]) + OpsIn(StateAfter(turns[..|turns| - 1]), turns[|turns| - 1])
  }

  // ---- the limiter's table ---------------------------------------------------------------

  lemma ForwardKeepsLimiter(s: State, i: nat, env: Env)
    requires i < |s.groups|
    ensures Forwarded(s, i, env).limiter == s.limiter
  {
  }

  lemma TrafficKeepsLimiter(s: State, addr: Address, buf: seq<Byte>, ts: int, env: Env)
    ensures HandleTraffic(s, addr, buf, ts, env).state.limiter == s.limiter
  {
    var r := FindByAddress(s.groups, addr);
    if r.Somebody? && r.conn >= 0 && Classify(buf).Srt? {
      ForwardKeepsLimiter(SrtState(s, r.group, r.conn, addr, buf, ts, env.ms), r.group, env);
    }
  }

  lemma Reg1KeepsLimiter(s: State, addr: Address, half: Id, ts: int, env: Env)
    ensures RegisterGroup(s, addr, half, ts, env).state.limiter == s.limiter
  {
  }

  lemma Reg2KeepsLimiter(s: State, addr: Address, id: Id, ts: int, env: Env)
    ensures RegisterConnection(s, addr, id, ts, env).state.limiter == s.limiter
  {
  }

  lemma DatagramKeepsLimiter(s: State, addr: Address, buf: seq<Byte>, ts: int, env: Env)
    ensures HandleDatagram(s, addr, buf, ts, env).state.limiter == s.limiter
  {
    match Classify(buf)
    case Reg1(half) => Reg1KeepsLimiter(s, addr, half, ts, env);
    case Reg2(id) => Reg2KeepsLimiter(s, addr, id, ts, env);
    case _ => TrafficKeepsLimiter(s, addr, buf, ts, env);
  }

  lemma ServerLimiter(s: State, t: Turn)
    requires t.EventTurn? && Possible(s, t.event) && t.event.FromServer?
    ensures var r := HandleServer(s, t.event.raw, t.event.buf, t.event.env).state.limiter;
            if OpsIn(s, t) == [] then r == s.limiter
            else |OpsIn(s, t)| == 1 && r == AuthLimiter.Apply(s.limiter, OpsIn(s, t)[0])
  {
  }

  lemma TurnLimiter(s: State, t: Turn)
    ensures |OpsIn(s, t)| <= 1
    ensures Turned(s, t).limiter
            == if OpsIn(s, t) == [] then s.limiter else AuthLimiter.Apply(s.limiter, OpsIn(s, t)[0])
  {
    if t.EventTurn? && Possible(s, t.event) {
      match t.event
      case Datagram(addr, buf, env) => DatagramKeepsLimiter(s, addr, buf, t.ts, env);
      case FromServer(_, _, _) => ServerLimiter(s, t);
    }
  }

  lemma AfterMore(ops: seq<Op>, more: seq<Op>)
    requires |more| <= 1
    ensures AuthLimiter.After(ops + more)
            == if more == [] then AuthLimiter.After(ops) else AuthLimiter.Apply(AuthLimiter.After(ops), more[0])
  {
    if more == [] {
      AppendNothing(ops);
    } else {
      assert more == [more[0]];
      Unappend(ops, more[0]);
    }
  }

  /** After every list of turns the limiter is what its failures and sweeps make of
      the empty table. */
  lemma {:induction false} LimiterOnTurns(turns: seq<Turn>)
    ensures StateAfter(turns).limiter == AuthLimiter.After(Ops(turns))
    decreases |turns|
  {
    if turns != [] {
      var init, t := turns[..|turns| - 1], turns[|turns| - 1];
      LimiterOnTurns(init);
      TurnLimiter(StateAfter(init), t);
      AfterMore(Ops(init), OpsIn(StateAfter(init), t));
    }
  }

  lemma LimiterOnRun(s: State, its: seq<Iteration>, events: seq<Event>, ts: int)
    requires Reached(s, its, events, ts)
    ensures s.limiter == AuthLimiter.After(Ops(TurnsUpTo(its, events, ts)))
  {
    ReachedAsTurns(s, its, events, ts);
    LimiterOnTurns(TurnsUpTo(its, events, ts));
  }

  // ---- true clocks -----------------------------------------------------------------------------

  /** The latest clock reading made while an event was handled. */
  function LastReading(turns: seq<Turn>): int {
    if turns == [] then 0
    else if turns[|turns| - 1].EventTurn? then turns[|turns| - 1].event.env.clock
    else LastReading(turns[..|turns| - 1])
  }

  /** Clock readings are positive and do not run backwards: neither those at the
      start of iterations nor those made while events are handled, which come after
      the start of their own iteration. */
  ghost predicate Timed(turns: seq<Turn>) {
    turns == []
    || var init, t := turns[..|turns| - 1], turns[|turns| - 1];
       && Timed(init) && t.ts > 0 && Clock(init) <= t.ts
       && (t.EventTurn? ==> t.ts <= t.event.env.clock && LastReading(init) <= t.event.env.clock)
  }

  /** What true clocks mean for the operations up to now. */
  ghost predicate WellTimed(ops: seq<Op>, k: IpKey, clock: int, reading: int) {
    && AuthLimiter.Clocked(ops) && AuthLimiter.SweptBefore(ops, clock)
    && AuthLimiter.Ascending(AuthLimiter.FailTimes(ops, k))
    && forall i :: 0 <= i < |AuthLimiter.FailTimes(ops, k)| ==> AuthLimiter.FailTimes(ops, k)[i] <= reading
  }

  lemma WellTimedLater(ops: seq<Op>, k: IpKey, clock: int, reading: int, clock': int, reading': int)
    requires WellTimed(ops, k, clock, reading) && clock <= clock' && reading <= reading'
    ensures WellTimed(ops, k, clock', reading')
  {
  }

  lemma SweepWellTimed(ops: seq<Op>, k: IpKey, clock: int, reading: int, ts: int)
    requires WellTimed(ops, k, clock, reading) && clock <= ts && ts > 0
    ensures WellTimed(ops + [AuthLimiter.Sweep(ts)], k, ts, reading)
  {
    AuthLimiter.Snoc(ops, AuthLimiter.Sweep(ts), k);
    AppendNothing(AuthLimiter.FailTimes(ops, k));
  }

  lemma AscendingSnoc(times: seq<int>, now: int)
    requires AuthLimiter.Ascending(times) && now > 0 && forall i :: 0 <= i < |times| ==> times[i] <= now
    ensures AuthLimiter.Ascending(times + [now])
  {
  }

  lemma ClockedSnoc(ops: seq<Op>, clock: int, key: IpKey, now: int)
    requires AuthLimiter.Clocked(ops) && AuthLimiter.SweptBefore(ops, clock) && clock <= now && now > 0
    ensures AuthLimiter.Clocked(ops + [AuthLimiter.Failure(key, now)])
    ensures AuthLimiter.SweptBefore(ops + [AuthLimiter.Failure(key, now)], clock)
  {
  }

  lemma FailureWellTimed(ops: seq<Op>, k: IpKey, clock: int, reading: int, key: IpKey, now: int)
    requires WellTimed(ops, k, clock, reading) && clock <= now && reading <= now && now > 0
    ensures WellTimed(ops + [AuthLimiter.Failure(key, now)], k, clock, now)
  {
    var times := AuthLimiter.FailTimes(ops, k);
    ClockedSnoc(ops, clock, key, now);
    AuthLimiter.Snoc(ops, AuthLimiter.Failure(key, now), k);
    if key == k {
      AscendingSnoc(times, now);
      assert AuthLimiter.FailTimes(ops + [AuthLimiter.Failure(key, now)], k) == times + [now];
    } else {
      AppendNothing(times);
    }
  }

  lemma {:induction false} TimedOps(turns: seq<Turn>, k: IpKey)
    requires Timed(turns)
    ensures Ordered(turns) && WellTimed(Ops(turns), k, Clock(turns), LastReading(turns))
    decreases |turns|
  {
    if turns != [] {
      var init, t := turns[..|turns| - 1], turns[|turns| - 1];
      var s, ops := StateAfter(init), Ops(init);
      TimedOps(init, k);
      if t.EndTurn? {
        SweepWellTimed(ops, k, Clock(init), LastReading(init), t.ts);
      } else {
        WellTimedLater(ops, k, Clock(init), LastReading(init), t.ts, LastReading(init));
        if OpsIn(s, t) == [] {
          AppendNothing(ops);
          WellTimedLater(ops, k, t.ts, LastReading(init), t.ts, t.event.env.clock);
        } else {
          FailureWellTimed(ops, k, t.ts, LastReading(init), OpsIn(s, t)[0].key, t.event.env.clock);
        }
      }
    }
  }

  // ---- who is throttled --------------------------------------------------------------------------

  lemma ReachedClock(s: State, its: seq<Iteration>, events: seq<Event>, ts: int)
    requires Reached(s, its, events, ts)
    ensures Clock(TurnsUpTo(its, events, ts)) <= ts
  {
    RunAsTurns(its);
    EventsAsTurns(TurnsOf(its), events, ts);
  }

  /** On every run with true clocks: a REG1 is throttled exactly when an SRT
      authentication failure of its IP tripped the limiter less than COOLDOWN
      seconds ago; it is then refused, and nothing changes. */
  lemma ThrottledIff(s: State, its: seq<Iteration>, events: seq<Event>, ts: int, addr: Address, half: Id, env: Env)
    requires Reached(s, its, events, ts) && Timed(TurnsUpTo(its, events, ts)) && ts > 0
    ensures var times := AuthLimiter.FailTimes(Ops(TurnsUpTo(its, events, ts)), KeyFor(addr));
            AuthLimiter.Blocked(s.limiter, KeyFor(addr), ts) <==> AuthLimiter.RecentTrip(times, |times|, ts)
    ensures AuthLimiter.Blocked(s.limiter, KeyFor(addr), ts) ==>
              RegisterGroup(s, addr, half, ts, env) == Outcome(s, [Out(addr, RegErr)])
  {
    var turns, k := TurnsUpTo(its, events, ts), KeyFor(addr);
    LimiterOnRun(s, its, events, ts);
    TimedOps(turns, k);
    ReachedClock(s, its, events, ts);
    WellTimedLater(Ops(turns), k, Clock(turns), LastReading(turns), ts, LastReading(turns));
    AuthLimiter.BlockedIffRecentTrip(Ops(turns), k, ts);
  }
}
