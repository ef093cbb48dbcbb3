/** Socket addresses as the receiver compares them, and their IP-only form. */
module Net {
  datatype Address = V4(ip: nat, port: nat) | V6(ip: nat, port: nat)
  datatype IpKey = Ip4(ip: nat) | Ip6(ip: nat)

  /** The limiter's key: family and IP, the port stripped. */
  function KeyFor(a: Address): IpKey {
    match a
    case V4(ip, _) => Ip4(ip)
    case V6(ip, _) => Ip6(ip)
  }
}

/**
  The throttle on repeated SRT authentication failures
  (src/utils/auth_rate_limiter.cpp).  The class keeps the source's table; the
  theorems speak about every run of its four operations.
 */
module AuthLimiter {
  import opened Net

  const THRESHOLD := 5
  const WINDOW := 60
  const COOLDOWN := 60

  datatype Entry = Entry(failures: int, windowStart: int, blockedUntil: int)
  const FRESH := Entry(0, 0, 0)
  type Table = map<IpKey, Entry>

  function Get(t: Table, k: IpKey): Entry {
    if k in t then t[k] else FRESH
  }

  predicate WindowActive(e: Entry, now: int) {
    e.windowStart != 0 && now - e.windowStart <= WINDOW
  }

  predicate Stale(e: Entry, now: int) {
    e.blockedUntil <= now && !WindowActive(e, now)
  }

  /** This failure is the one that fills the window. */
  predicate Trips(e: Entry, now: int) {
    (if WindowActive(e, now) then e.failures else 0) + 1 >= THRESHOLD
  }

  function Fail(e: Entry, now: int): Entry {
    if Trips(e, now) then Entry(0, 0, now + COOLDOWN)
    else if WindowActive(e, now) then e.(failures := e.failures + 1)
    else Entry(1, now, e.blockedUntil)
  }

  predicate Blocked(t: Table, k: IpKey, now: int) {
    k in t && t[k].blockedUntil > now
  }

  function BlockedKeys(t: Table, now: int): set<IpKey> {
    set k | k in t && Blocked(t, k, now)
  }

  function Swept(t: Table, now: int): Table {
    map k | k in t && !Stale(t[k], now) :: t[k]
  }

  class Limiter {
    var entries: Table

    constructor ()
      ensures entries == map[]
    {
      entries := map[];
    }

    method RecordFailure(k: IpKey, now: int)
      modifies this
      ensures entries == old(entries)[k := Fail(Get(old(entries), k), now)]
    {
      var e := if k in entries then entries[k] else FRESH;
      if e.windowStart == 0 || now - e.windowStart > WINDOW {
        e := e.(windowStart := now, failures := 0);
      }
      e := e.(failures := e.failures + 1);
      if e.failures >= THRESHOLD {
        e := e.(blockedUntil := now + COOLDOWN, failures := 0, windowStart := 0);
      }
      entries := entries[k := e];
    }

    method IsBlocked(k: IpKey, now: int) returns (blocked: bool)
      ensures blocked <==> Blocked(entries, k, now)
    {
      if k !in entries {
        return false;
      }
      return entries[k].blockedUntil > now;
    }

    method BlockedCount(now: int) returns (count: nat)
      ensures count == |BlockedKeys(entries, now)|
    {
      count := 0;
      var todo := entries.Keys;
      ghost var done: set<IpKey> := {};
      while todo != {}
        invariant done + todo == entries.Keys && done !! todo
        invariant count == |done * BlockedKeys(entries, now)|
        decreases todo
      {
        var k :| k in todo;
        var seen := done * BlockedKeys(entries, now);
        if entries[k].blockedUntil > now {
          count := count + 1;
          assert (done + {k}) * BlockedKeys(entries, now) == seen + {k};
        } else {
          assert (done + {k}) * BlockedKeys(entries, now) == seen;
        }
        todo, done := todo - {k}, done + {k};
      }
      assert done * BlockedKeys(entries, now) == BlockedKeys(entries, now);
    }

    method Cleanup(now: int)
      modifies this
      ensures entries == Swept(old(entries), now)
    {
      var todo := entries.Keys;
      while todo != {}
        invariant todo <= entries.Keys <= old(entries).Keys
        invariant forall k :: k in entries ==> entries[k] == old(entries)[k]
        invariant forall k :: k in old(entries) && k !in todo ==> (k in entries <==> !Stale(old(entries)[k], now))
        decreases todo
      {
        var k :| k in todo;
        var e := entries[k];
        var blocked := e.blockedUntil > now;
        var windowActive := e.windowStart != 0 && now - e.windowStart <= WINDOW;
        if !blocked && !windowActive {
          entries := entries - {k};
        }
        todo := todo - {k};
      }
    }
  }

  // ---- runs ----------------------------------------------------------------

  datatype Op =
    | Failure(key: IpKey, now: int)
    | QueryBlocked(key: IpKey, now: int)
    | QueryCount(now: int)
    | Sweep(now: int)

  datatype Answer = Tripped(trip: bool) | IsBlocked(blocked: bool) | Count(n: nat)

  function Apply(t: Table, op: Op): Table {
    match op
    case Failure(k, now) => t[k := Fail(Get(t, k), now)]
    case Sweep(now) => Swept(t, now)
    case _ => t
  }

  /** The table after a run, from the empty one. */
  function After(ops: seq<Op>): Table {
    if ops == [] then map[] else Apply(After(ops[..|ops| - 1]), ops[|ops| - 1])
  }

  /** What the caller of an operation can observe; a sweep shows nothing. */
  function Observe(t: Table, op: Op): seq<Answer> {
    match op
    case Failure(k, now) => [Tripped(Trips(Get(t, k), now))]
    case QueryBlocked(k, now) => [IsBlocked(Blocked(t, k, now))]
    case QueryCount(now) => [Count(|BlockedKeys(t, now)|)]
    case Sweep(_) => []
  }

  function Answers(ops: seq<Op>): seq<Answer> {
    if ops == [] then []
    else Answers(ops[..|ops| - 1]) + Observe(After(ops[..|ops| - 1]), ops[|ops| - 1])
  }

  /** A positive clock, and no operation reads it earlier than a sweep before it. */
  predicate Clocked(ops: seq<Op>) {
    && (forall i :: 0 <= i < |ops| ==> ops[i].now > 0)
    && (forall i, j :: 0 <= i < j < |ops| && ops[i].Sweep? && !ops[j].Sweep? ==> ops[i].now <= ops[j].now)
  }

  function WithoutSweeps(ops: seq<Op>): (r: seq<Op>)
    ensures forall op :: op in r ==> op in ops && !op.Sweep?
  {
    if ops == [] then []
    else
      var op := ops[|ops| - 1];
      WithoutSweeps(ops[..|ops| - 1]) + if op.Sweep? then [] else [op]
  }

  /** The failure times of one IP, in order. */
  function FailTimes(ops: seq<Op>, k: IpKey): seq<int> {
    if ops == [] then []
    else
      var op := ops[|ops| - 1];
      FailTimes(ops[..|ops| - 1], k) + if op.Failure? && op.key == k then [op.now] else []
  }

  /** One IP's entry if nothing ever swept the table. */
  function EntryAfter(times: seq<int>): Entry {
    if times == [] then FRESH else Fail(EntryAfter(times[..|times| - 1]), times[|times| - 1])
  }

  // ---- sweeping is unobservable ---------------------------------------------

  /** The part of an entry that can still matter from time `c` on. */
  function Live(e: Entry, c: int): Entry {
    Entry(if WindowActive(e, c) then e.failures else 0,
          if WindowActive(e, c) then e.windowStart else 0,
          if e.blockedUntil > c then e.blockedUntil else 0)
  }

  lemma FailSimilar(e1: Entry, e2: Entry, c: int, now: int)
    requires Live(e1, now) == Live(e2, now) && Live(e1, c) == Live(e2, c)
    ensures Live(Fail(e1, now), c) == Live(Fail(e2, now), c)
  {
  }

  lemma SweptSimilar(t: Table, k: IpKey, now: int, c: int)
    requires 0 < now <= c
    ensures Live(Get(Swept(t, now), k), c) == Live(Get(t, k), c)
  {
  }

  ghost predicate SweptBefore(ops: seq<Op>, c: int) {
    forall i :: 0 <= i < |ops| && ops[i].Sweep? ==> ops[i].now <= c
  }

  /** With or without sweeps, an IP's entry is that of its own failures, up to
      what no longer matters. */
  lemma {:induction false} Projection(ops: seq<Op>, k: IpKey, c: int)
    requires Clocked(ops) && SweptBefore(ops, c) && c > 0
    ensures Live(Get(After(ops), k), c) == Live(EntryAfter(FailTimes(ops, k)), c)
    decreases |ops|
  {
    if ops != [] {
      var n := |ops| - 1;
      var op, t := ops[n], After(ops[..n]);
      Projection(ops[..n], k, c);
      if op.Failure? && op.key == k {
        var times := FailTimes(ops[..n], k);
        Projection(ops[..n], k, op.now);
        FailSimilar(Get(t, k), EntryAfter(times), c, op.now);
        assert FailTimes(ops, k) == times + [op.now];
        assert (times + [op.now])[..|times|] == times;
      } else {
        assert FailTimes(ops, k) == FailTimes(ops[..n], k);
        if op.Sweep? {
          SweptSimilar(t, k, op.now, c);
        }
      }
    }
  }

  lemma Snoc(ops: seq<Op>, op: Op, k: IpKey)
    ensures FailTimes(ops + [op], k) == FailTimes(ops, k) + if op.Failure? && op.key == k then [op.now] else []
    ensures WithoutSweeps(ops + [op]) == WithoutSweeps(ops) + if op.Sweep? then [] else [op]
  {
    assert (ops + [op])[..|ops|] == ops;
  }

  lemma SweepsKeepOne(ops: seq<Op>, op: Op, k: IpKey)
    requires FailTimes(WithoutSweeps(ops), k) == FailTimes(ops, k)
    ensures FailTimes(WithoutSweeps(ops + [op]), k) == FailTimes(ops + [op], k)
  {
    var w := WithoutSweeps(ops);
    Snoc(ops, op, k);
    Snoc(w, op, k);
    assert w + [] == w;
  }

  lemma {:induction false} SweepsKeepFailTimes(ops: seq<Op>, k: IpKey)
    ensures FailTimes(WithoutSweeps(ops), k) == FailTimes(ops, k)
    decreases |ops|
  {
    if ops != [] {
      var rest, last := ops[..|ops| - 1], ops[|ops| - 1];
      assert ops == rest + [last];
      SweepsKeepFailTimes(rest, k);
      SweepsKeepOne(rest, last, k);
    }
  }

  lemma SameObservation(ops: seq<Op>, bare: seq<Op>, op: Op)
    requires Clocked(ops) && Clocked(bare) && op.now > 0 && !op.Sweep?
    requires SweptBefore(ops, op.now) && SweptBefore(bare, op.now)
    requires forall k :: FailTimes(ops, k) == FailTimes(bare, k)
    ensures Observe(After(ops), op) == Observe(After(bare), op)
  {
    forall k ensures Live(Get(After(ops), k), op.now) == Live(Get(After(bare), k), op.now) {
      Projection(ops, k, op.now);
      Projection(bare, k, op.now);
    }
    forall k ensures Blocked(After(ops), k, op.now) <==> Blocked(After(bare), k, op.now) {
      assert Live(Get(After(ops), k), op.now) == Live(Get(After(bare), k), op.now);
    }
    forall k ensures k in BlockedKeys(After(ops), op.now) <==> k in BlockedKeys(After(bare), op.now) {
      assert Blocked(After(ops), k, op.now) <==> Blocked(After(bare), k, op.now);
    }
    assert BlockedKeys(After(ops), op.now) == BlockedKeys(After(bare), op.now);
    if op.Failure? {
      assert Live(Get(After(ops), op.key), op.now) == Live(Get(After(bare), op.key), op.now);
    }
  }

  lemma BareClocked(ops: seq<Op>)
    requires Clocked(ops)
    ensures Clocked(WithoutSweeps(ops)) && forall c :: SweptBefore(WithoutSweeps(ops), c)
  {
    var w := WithoutSweeps(ops);
    forall i | 0 <= i < |w| ensures w[i].now > 0 && !w[i].Sweep? {
      assert w[i] in ops;
    }
  }

  lemma PrefixClocked(ops: seq<Op>)
    requires Clocked(ops) && ops != []
    ensures Clocked(ops[..|ops| - 1])
    ensures !ops[|ops| - 1].Sweep? ==> SweptBefore(ops[..|ops| - 1], ops[|ops| - 1].now)
  {
  }

  lemma BareObservation(ops: seq<Op>, op: Op)
    requires Clocked(ops) && op.now > 0 && !op.Sweep? && SweptBefore(ops, op.now)
    ensures Observe(After(ops), op) == Observe(After(WithoutSweeps(ops)), op)
  {
    forall k ensures FailTimes(ops, k) == FailTimes(WithoutSweeps(ops), k) {
      SweepsKeepFailTimes(ops, k);
    }
    BareClocked(ops);
    SameObservation(ops, WithoutSweeps(ops), op);
  }

  lemma AnswersSnoc(ops: seq<Op>, op: Op)
    ensures Answers(ops + [op]) == Answers(ops) + Observe(After(ops), op)
  {
    assert (ops + [op])[..|ops|] == ops;
  }

  /** Sweeps inserted anywhere change no answer: not which failure trips the
      limiter, not who is blocked, not how many are. */
  lemma {:induction false} SweepUnobservable(ops: seq<Op>)
    requires Clocked(ops)
    ensures Answers(ops) == Answers(WithoutSweeps(ops))
    decreases |ops|
  {
    if ops != [] {
      var n := |ops| - 1;
      PrefixClocked(ops);
      SweepUnobservable(ops[..n]);
      var w := WithoutSweeps(ops[..n]);
      if ops[n].Sweep? {
        assert WithoutSweeps(ops) == w;
        assert Answers(ops) == Answers(ops[..n]);
      } else {
        assert WithoutSweeps(ops) == w + [ops[n]];
        BareObservation(ops[..n], ops[n]);
        AnswersSnoc(w, ops[n]);
      }
    }
  }

  // ---- how many failures it takes -------------------------------------------

  predicate Ascending(times: seq<int>) {
    && (forall i :: 0 <= i < |times| ==> times[i] > 0)
    && (forall i, j :: 0 <= i < j < |times| ==> times[i] <= times[j])
  }

  /** The n failures from index i on lie within WINDOW seconds. */
  predicate Within(times: seq<int>, i: nat, n: nat) {
    0 < n && i + n <= |times| && times[i + n - 1] - times[i] <= WINDOW
  }

  predicate TripAt(times: seq<int>, i: nat)
    requires i < |times|
  {
    Trips(EntryAfter(times[..i]), times[i])
  }

  lemma EntryStep(times: seq<int>, i: nat)
    requires i < |times|
    ensures EntryAfter(times[..i + 1]) == Fail(EntryAfter(times[..i]), times[i])
  {
    assert times[..i + 1][..i] == times[..i];
  }

  /** The open window holds the most recent failures, none of which tripped. */
  lemma {:induction false} WindowContents(times: seq<int>, n: nat)
    requires Ascending(times) && n <= |times|
    ensures var e := EntryAfter(times[..n]);
            && 0 <= e.failures < THRESHOLD && e.failures <= n
            && (e.failures == 0 <==> e.windowStart == 0)
            && (e.failures > 0 ==> e.windowStart == times[n - e.failures]
                                   && times[n - 1] - e.windowStart <= WINDOW)
            && forall i :: n - e.failures <= i < n ==> !TripAt(times, i)
    decreases n
  {
    if n > 0 {
      WindowContents(times, n - 1);
      EntryStep(times, n - 1);
    }
  }

  /** A trip needs THRESHOLD failures of that IP within WINDOW seconds, none but
      the last of which tripped. */
  lemma TripNeedsFive(times: seq<int>, i: nat)
    requires Ascending(times) && i < |times| && TripAt(times, i)
    ensures i >= 4 && Within(times, i - 4, THRESHOLD)
    ensures forall j :: i - 4 <= j < i ==> !TripAt(times, j)
  {
    WindowContents(times, i);
  }

  /** While nothing trips and the window stays open, every failure counts. */
  lemma {:induction false} FillsUp(times: seq<int>, i: nat, m: nat)
    requires Ascending(times) && i + m <= |times|
    requires var e := EntryAfter(times[..i]);
             e.windowStart > 0 && (m > 0 ==> times[i + m - 1] - e.windowStart <= WINDOW)
    requires forall j :: i <= j < i + m ==> !TripAt(times, j)
    ensures var e, e' := EntryAfter(times[..i]), EntryAfter(times[..i + m]);
            e'.failures == e.failures + m && e'.windowStart == e.windowStart
    decreases m
  {
    if m > 0 {
      FillsUp(times, i, m - 1);
      EntryStep(times, i + m - 1);
      assert !TripAt(times, i + m - 1);
    }
  }

  /** Five failures within a window that the first of them opens trip. */
  lemma OpenedWindowTrips(times: seq<int>, i: nat)
    requires Ascending(times) && Within(times, i, THRESHOLD)
    requires !WindowActive(EntryAfter(times[..i]), times[i])
    ensures exists j :: i <= j < i + THRESHOLD && TripAt(times, j)
  {
    if forall j :: i <= j < i + THRESHOLD ==> !TripAt(times, j) {
      EntryStep(times, i);
      FillsUp(times, i + 1, THRESHOLD - 1);
      WindowContents(times, i + THRESHOLD);
    }
  }

  /** Any eight consecutive failures within WINDOW seconds contain a trip:
      three may still belong to the previous window, the next five fill one. */
  lemma EightTrip(times: seq<int>, i: nat)
    requires Ascending(times) && Within(times, i, 8)
    ensures exists j :: i <= j < i + 8 && TripAt(times, j)
  {
    if forall j :: i <= j < i + 8 ==> !TripAt(times, j) {
      var start := EntryAfter(times[..i]).windowStart;
      WindowContents(times, i);
      if start == 0 {
        OpenedWindowTrips(times, i);
      } else if times[i + 3] - start <= WINDOW {
        FillsUp(times, i, 4);
        WindowContents(times, i + 4);
      } else {
        var j := if times[i] - start > WINDOW then i
                 else if times[i + 1] - start > WINDOW then i + 1
                 else if times[i + 2] - start > WINDOW then i + 2 else i + 3;
        FillsUp(times, i, j - i);
        OpenedWindowTrips(times, j);
      }
    }
  }

  /** Seven may not: the window tumbles, it does not slide. */
  lemma SevenMayNotTrip()
    ensures exists times: seq<int>, i: nat ::
              && Ascending(times) && Within(times, i, 7)
              && forall j :: 0 <= j < |times| ==> !TripAt(times, j)
  {
    var times := [1, 60, 60, 60, 62, 62, 62, 62];
    EntryStep(times, 0);
    EntryStep(times, 1);
    EntryStep(times, 2);
    EntryStep(times, 3);
    EntryStep(times, 4);
    EntryStep(times, 5);
    EntryStep(times, 6);
    assert Within(times, 1, 7);
  }

  /** The next five failures trip: no window is open when they begin, or the open
      one still covers the failure that is its fifth. */
  predicate FiveWillTrip(e: Entry, times: seq<int>, i: nat)
    requires i + THRESHOLD <= |times|
  {
    || !WindowActive(e, times[i])
    || (0 <= e.failures < THRESHOLD && times[i + 4 - e.failures] - e.windowStart <= WINDOW)
  }

  /** The open window covers the failure that would be its fifth. */
  lemma CoveredWindowTrips(times: seq<int>, i: nat)
    requires Ascending(times) && i + THRESHOLD <= |times|
    requires var e := EntryAfter(times[..i]);
             && WindowActive(e, times[i]) && 0 < e.failures < THRESHOLD
             && times[i + 4 - e.failures] - e.windowStart <= WINDOW
    ensures exists j :: i <= j < i + THRESHOLD && TripAt(times, j)
  {
    if forall j :: i <= j < i + THRESHOLD ==> !TripAt(times, j) {
      var m := THRESHOLD - EntryAfter(times[..i]).failures;
      WindowContents(times, i);
      WindowContents(times, i + m);
      FillsUp(times, i, m);
    }
  }

  /** The open window closes before its fifth failure: the failures up to there
      count, the rest open a new one that the five cannot fill. */
  lemma UncoveredWindowHolds(times: seq<int>, i: nat, j: nat)
    requires Ascending(times) && i <= j < i + THRESHOLD <= |times|
    requires var e := EntryAfter(times[..i]);
             && WindowActive(e, times[i]) && 0 < e.failures < THRESHOLD
             && times[i + 4 - e.failures] - e.windowStart > WINDOW
    ensures !TripAt(times, j)
    ensures var e, e' := EntryAfter(times[..i]), EntryAfter(times[..j + 1]);
            if times[j] - e.windowStart <= WINDOW
            then e'.windowStart == e.windowStart && e'.failures == e.failures + (j + 1 - i) && j < i + 4 - e.failures
            else e'.windowStart > e.windowStart && e'.failures <= j - i
    decreases j - i
  {
    WindowContents(times, i);
    EntryStep(times, j);
    if j > i {
      UncoveredWindowHolds(times, i, j - 1);
    }
  }

  /** Exactly when five failures within WINDOW seconds trip the limiter. */
  lemma FiveTripIff(times: seq<int>, i: nat)
    requires Ascending(times) && Within(times, i, THRESHOLD)
    ensures (exists j :: i <= j < i + THRESHOLD && TripAt(times, j)) <==> FiveWillTrip(EntryAfter(times[..i]), times, i)
  {
    var e := EntryAfter(times[..i]);
    WindowContents(times, i);
    if !WindowActive(e, times[i]) {
      OpenedWindowTrips(times, i);
    } else if times[i + 4 - e.failures] - e.windowStart <= WINDOW {
      CoveredWindowTrips(times, i);
    } else {
      forall j | i <= j < i + THRESHOLD ensures !TripAt(times, j) {
        UncoveredWindowHolds(times, i, j);
      }
    }
  }

  /** One of the first n failures tripped and its cooldown has not passed. */
  ghost predicate RecentTrip(times: seq<int>, n: nat, now: int)
    requires n <= |times|
  {
    exists i :: 0 <= i < n && TripAt(times, i) && times[i] > now - COOLDOWN
  }

  lemma RecentTripStep(times: seq<int>, n: nat, now: int)
    requires n < |times|
    ensures RecentTrip(times, n + 1, now)
            <==> RecentTrip(times, n, now) || (TripAt(times, n) && times[n] > now - COOLDOWN)
  {
  }

  lemma {:induction false} BlockedUntilExact(times: seq<int>, n: nat, now: int)
    requires Ascending(times) && n <= |times| && now >= 0
    ensures EntryAfter(times[..n]).blockedUntil > now <==> RecentTrip(times, n, now)
    decreases n
  {
    if n > 0 {
      BlockedUntilExact(times, n - 1, now);
      EntryStep(times, n - 1);
      RecentTripStep(times, n - 1, now);
    }
  }

  /** In every run, an IP is blocked at `now` exactly when one of its failures
      tripped the limiter less than COOLDOWN seconds ago. */
  lemma BlockedIffRecentTrip(ops: seq<Op>, k: IpKey, now: int)
    requires Clocked(ops) && now > 0 && SweptBefore(ops, now)
    requires Ascending(FailTimes(ops, k))
    ensures Blocked(After(ops), k, now) <==> RecentTrip(FailTimes(ops, k), |FailTimes(ops, k)|, now)
  {
    var times := FailTimes(ops, k);
    Projection(ops, k, now);
    assert times[..|times|] == times;
    BlockedUntilExact(times, |times|, now);
  }

  /** A failure trips in a run exactly when it does among that IP's own failures. */
  lemma TripObserved(ops: seq<Op>, k: IpKey, now: int)
    requires Clocked(ops) && now > 0 && SweptBefore(ops, now)
    ensures var times := FailTimes(ops, k);
            Observe(After(ops), Failure(k, now)) == [Tripped(TripAt(times + [now], |times|))]
  {
    var times := FailTimes(ops, k);
    Projection(ops, k, now);
    assert (times + [now])[..|times|] == times;
  }

  /** A block therefore rests on five failures of that IP within WINDOW seconds. */
  lemma BlockNeedsFive(ops: seq<Op>, k: IpKey, now: int)
    requires Clocked(ops) && now > 0 && SweptBefore(ops, now)
    requires Ascending(FailTimes(ops, k)) && Blocked(After(ops), k, now)
    ensures exists i: nat :: Within(FailTimes(ops, k), i, THRESHOLD) && FailTimes(ops, k)[i + 4] > now - COOLDOWN
  {
    BlockedIffRecentTrip(ops, k, now);
    var times := FailTimes(ops, k);
    var i :| 0 <= i < |times| && TripAt(times, i) && times[i] > now - COOLDOWN;
    TripNeedsFive(times, i);
    assert times[i - 4 + 4] == times[i];
  }

  // ---- five failures in a run --------------------------------------------------

  predicate FailsFor(op: Op, k: IpKey) {
    op.Failure? && op.key == k
  }

  /** How many failures of the IP come before position p. */
  function CountBefore(ops: seq<Op>, k: IpKey, p: nat): nat
    requires p <= |ops|
  {
    |FailTimes(ops[..p], k)|
  }

  ghost predicate Numbered(ops: seq<Op>, k: IpKey, p: nat)
    requires p <= |ops|
  {
    var times, c := FailTimes(ops, k), CountBefore(ops, k, p);
    && c <= |times| && FailTimes(ops[..p], k) == times[..c]
    && (p < |ops| && FailsFor(ops[p], k) ==> c < |times| && times[c] == ops[p].now)
  }

  lemma NumberedSnoc(ops: seq<Op>, op: Op, k: IpKey, p: nat)
    requires p <= |ops| && Numbered(ops, k, p)
    ensures Numbered(ops + [op], k, p)
  {
    assert (ops + [op])[..p] == ops[..p];
    Snoc(ops, op, k);
  }

  /** The failure at position p is failure number CountBefore of its IP. */
  lemma {:induction false} NumberedInRun(ops: seq<Op>, k: IpKey, p: nat)
    requires p <= |ops|
    ensures Numbered(ops, k, p)
    decreases |ops|
  {
    if p == |ops| {
      assert ops[..p] == ops;
    } else {
      var n := |ops| - 1;
      NumberedInRun(ops[..n], k, p);
      NumberedSnoc(ops[..n], ops[n], k, p);
      assert ops[..n] + [ops[n]] == ops;
    }
  }

  lemma {:induction false} PositionOf(ops: seq<Op>, k: IpKey, j: nat) returns (p: nat)
    requires j < |FailTimes(ops, k)|
    ensures p < |ops| && FailsFor(ops[p], k) && CountBefore(ops, k, p) == j
    decreases |ops|
  {
    var n := |ops| - 1;
    if j < |FailTimes(ops[..n], k)| {
      p := PositionOf(ops[..n], k, j);
      assert ops[..n][..p] == ops[..p];
    } else {
      p := n;
    }
  }

  /** What the caller sees: the failure at position p trips the limiter. */
  ghost predicate TripsAtPosition(ops: seq<Op>, p: nat)
    requires p < |ops|
  {
    Observe(After(ops[..p]), ops[p]) == [Tripped(true)]
  }

  lemma TripAtPosition(ops: seq<Op>, k: IpKey, p: nat)
    requires Clocked(ops) && p < |ops| && FailsFor(ops[p], k)
    ensures CountBefore(ops, k, p) < |FailTimes(ops, k)|
    ensures TripsAtPosition(ops, p) <==> TripAt(FailTimes(ops, k), CountBefore(ops, k, p))
  {
    var times, c := FailTimes(ops[..p], k), CountBefore(ops, k, p);
    NumberedInRun(ops, k, p);
    TripObserved(ops[..p], k, ops[p].now);
    assert (times + [ops[p].now])[..c] == times;
  }

  predicate SameWindow(e: Entry, f: Entry, now: int) {
    && (WindowActive(e, now) <==> WindowActive(f, now))
    && (WindowActive(e, now) ==> e.failures == f.failures && e.windowStart == f.windowStart)
  }

  /** The entry that the failure at position p finds, swept or not, decides as the
      IP's own failures do. */
  lemma EntryAtPosition(ops: seq<Op>, k: IpKey, p: nat)
    requires Clocked(ops) && p < |ops| && FailsFor(ops[p], k)
    ensures CountBefore(ops, k, p) < |FailTimes(ops, k)|
    ensures SameWindow(Get(After(ops[..p]), k), EntryAfter(FailTimes(ops, k)[..CountBefore(ops, k, p)]), ops[p].now)
  {
    NumberedInRun(ops, k, p);
    Projection(ops[..p], k, ops[p].now);
  }

  /** One of the five failures of the IP from number i on trips. */
  ghost predicate OneOfFiveTrips(ops: seq<Op>, k: IpKey, i: nat) {
    exists q :: && 0 <= q < |ops| && FailsFor(ops[q], k)
                && i <= CountBefore(ops, k, q) < i + THRESHOLD && TripsAtPosition(ops, q)
  }

  lemma OneOfFive(ops: seq<Op>, k: IpKey, i: nat)
    requires Clocked(ops) && i + THRESHOLD <= |FailTimes(ops, k)|
    ensures OneOfFiveTrips(ops, k, i) <==> exists j :: i <= j < i + THRESHOLD && TripAt(FailTimes(ops, k), j)
  {
    var times := FailTimes(ops, k);
    if j: nat :| i <= j < i + THRESHOLD && TripAt(times, j) {
      var q := PositionOf(ops, k, j);
      TripAtPosition(ops, k, q);
    }
    if q: nat :| && q < |ops| && FailsFor(ops[q], k)
                 && i <= CountBefore(ops, k, q) < i + THRESHOLD && TripsAtPosition(ops, q) {
      TripAtPosition(ops, k, q);
    }
  }

  /** In every run: of five failures of an IP within WINDOW seconds, beginning at
      position p, one trips exactly if the entry found there has no open window,
      or one that still covers the failure that is its fifth. */
  lemma FiveTripInRun(ops: seq<Op>, k: IpKey, p: nat)
    requires Clocked(ops) && Ascending(FailTimes(ops, k)) && p < |ops| && FailsFor(ops[p], k)
    requires Within(FailTimes(ops, k), CountBefore(ops, k, p), THRESHOLD)
    ensures OneOfFiveTrips(ops, k, CountBefore(ops, k, p))
            <==> FiveWillTrip(Get(After(ops[..p]), k), FailTimes(ops, k), CountBefore(ops, k, p))
  {
    var times, i := FailTimes(ops, k), CountBefore(ops, k, p);
    assert times[i] == ops[p].now by {
      NumberedInRun(ops, k, p);
    }
    assert FiveWillTrip(Get(After(ops[..p]), k), times, i) == FiveWillTrip(EntryAfter(times[..i]), times, i) by {
      EntryAtPosition(ops, k, p);
    }
    OneOfFive(ops, k, i);
    FiveTripIff(times, i);
  }
}
