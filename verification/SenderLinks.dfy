/**
  The sender's bookkeeping for its links (src/sender.cpp): a 256-slot circular
  log of sequence numbers, an in-flight counter and a congestion window per
  link.  An event acts on every link by one `Action`; the theorems hold for
  every sequence of events.
 */
module SenderLinks {
  import opened Sums

  const LOG_SIZE := 256
  const CONN_TIMEOUT := 4
  const WINDOW_MIN := 1000
  const WINDOW_DEF := 20000
  const WINDOW_MAX := 60000
  const WINDOW_MULT := 1000
  const WINDOW_DECR := 100
  const WINDOW_INCR := 30

  datatype Link = Link(open: bool, lastRcvd: int, lastSent: int, inFlight: int, window: int, idx: nat, log: seq<int>)

  function ZeroLog(): (log: seq<int>)
    ensures |log| == LOG_SIZE && forall i :: 0 <= i < LOG_SIZE ==> log[i] == 0
  {
    seq(LOG_SIZE, _ => 0)
  }

  /** A link as calloc and setup_conns leave it. */
  const NEW_LINK := Link(false, 0, 0, 0, WINDOW_DEF, 0, ZeroLog())

  ghost predicate Shaped(l: Link) {
    |l.log| == LOG_SIZE && l.idx < LOG_SIZE
  }

  predicate TimedOut(l: Link, now: int) {
    l.lastRcvd + CONN_TIMEOUT < now
  }

  // ---- looking a number up in the log ----------------------------------------

  /** The k-th slot before `idx`, cyclically. */
  function Slot(idx: nat, k: nat): (i: nat)
    requires idx < LOG_SIZE && k <= LOG_SIZE
    ensures i < LOG_SIZE
    ensures i == idx <==> k == 0 || k == LOG_SIZE
  {
    (idx + LOG_SIZE - k) % LOG_SIZE
  }

  /** The scan from the newest entry back, which never looks at slot `idx`.
      Returns -1 if `x` is not in a visible slot. */
  function Find(l: Link, x: int, k: nat := 1): (slot: int)
    requires Shaped(l) && 1 <= k <= LOG_SIZE
    ensures -1 <= slot < LOG_SIZE
    ensures slot >= 0 ==> slot != l.idx && l.log[slot] == x
    decreases LOG_SIZE - k
  {
    if k == LOG_SIZE then -1
    else if l.log[Slot(l.idx, k)] == x then Slot(l.idx, k)
    else Find(l, x, k + 1)
  }

  lemma {:induction false} FindMisses(l: Link, x: int, k: nat, k': nat)
    requires Shaped(l) && 1 <= k <= k' < LOG_SIZE && Find(l, x, k) == -1
    ensures l.log[Slot(l.idx, k')] != x
    decreases k' - k
  {
    if k < k' {
      FindMisses(l, x, k + 1, k');
    }
  }

  /** The scan finds a number exactly when some visible slot holds it. */
  lemma FindComplete(l: Link, x: int, slot: nat)
    requires Shaped(l) && slot < LOG_SIZE && slot != l.idx && l.log[slot] == x
    ensures Find(l, x) >= 0
  {
    var k := (l.idx + LOG_SIZE - slot) % LOG_SIZE;
    assert Slot(l.idx, k) == slot;
    if Find(l, x) == -1 {
      FindMisses(l, x, 1, k);
    }
  }

  /** The slot found in each link. */
  function Slots(ls: seq<Link>, x: int): (r: seq<int>)
    requires forall i :: 0 <= i < |ls| ==> Shaped(ls[i])
    ensures |r| == |ls| && forall i :: 0 <= i < |r| ==> r[i] == Find(ls[i], x)
  {
    seq(|ls|, i requires 0 <= i < |ls| => Find(ls[i], x))
  }

  function FirstNonNegative(s: seq<int>, from: nat := 0): (i: int)
    requires from <= |s|
    ensures i == -1 || from <= i < |s|
    ensures i >= 0 ==> s[i] >= 0
    ensures forall j :: from <= j < |s| && (i < 0 || j < i) ==> s[j] < 0
    decreases |s| - from
  {
    if from == |s| then -1 else if s[from] >= 0 then from else FirstNonNegative(s, from + 1)
  }

  /** The first link whose visible log holds x, -1 if there is none. */
  function FirstHit(ls: seq<Link>, x: int): (i: int)
    requires forall i :: 0 <= i < |ls| ==> Shaped(ls[i])
    ensures -1 <= i < |ls|
  {
    FirstNonNegative(Slots(ls, x))
  }

  // ---- choosing a link --------------------------------------------------------

  function Score(l: Link): int
    requires l.inFlight >= 0
  {
    l.window / (l.inFlight + 1)
  }

  /** The link select_conn settles on, -1 if there is none. */
  function Choose(ls: seq<Link>, now: int): (r: int)
    requires forall i :: 0 <= i < |ls| ==> ls[i].inFlight >= 0
    ensures -1 <= r < |ls|
  {
    if ls == [] then -1
    else
      var n := |ls| - 1;
      var r := Choose(ls[..n], now);
      if TimedOut(ls[n], now) then r
      else if r == -1 || Score(ls[n]) > Score(ls[r]) then n else r
  }

  /** It is the first link of maximal score among those not timed out, and there
      is none exactly when all are timed out. */
  lemma {:induction false} ChoosesFirstBest(ls: seq<Link>, now: int)
    requires forall i :: 0 <= i < |ls| ==> ls[i].inFlight >= 0
    ensures var r := Choose(ls, now);
            && (r == -1 <==> forall i :: 0 <= i < |ls| ==> TimedOut(ls[i], now))
            && (r >= 0 ==> !TimedOut(ls[r], now))
            && forall i :: r >= 0 && 0 <= i < |ls| && !TimedOut(ls[i], now) ==>
                 Score(ls[i]) <= Score(ls[r]) && (i < r ==> Score(ls[i]) < Score(ls[r]))
    decreases |ls|
  {
    if ls != [] {
      var n := |ls| - 1;
      ChoosesFirstBest(ls[..n], now);
      assert forall i :: 0 <= i < n ==> ls[..n][i] == ls[i];
    }
  }

  function BestScore(ls: seq<Link>, now: int): int
    requires forall i :: 0 <= i < |ls| ==> ls[i].inFlight >= 0
  {
    var r := Choose(ls, now);
    if r == -1 then -1 else Score(ls[r])
  }

  /** One iteration of the search for the best link. */
  lemma ChooseNext(ls: seq<Link>, i: nat, now: int)
    requires i < |ls| && forall i :: 0 <= i < |ls| ==> ls[i].inFlight >= 0 && ls[i].window >= 0
    ensures var better := !TimedOut(ls[i], now) && Score(ls[i]) > BestScore(ls[..i], now);
            && Choose(ls[..i + 1], now) == (if better then i else Choose(ls[..i], now))
            && BestScore(ls[..i + 1], now) == if better then Score(ls[i]) else BestScore(ls[..i], now)
  {
    assert ls[..i + 1][..i] == ls[..i];
  }

  // ---- actions on one link ------------------------------------------------------

  datatype Action =
    | Idle
    | Pick(now: int)                    // chosen for a packet that is not logged
    | PickAndLog(now: int, sn: int)     // chosen, sent, logged
    | PickAndDisable(now: int)          // chosen, sendto failed
    | Touch(now: int)                   // something arrived on the link
    | NakHit(slot: nat)
    | AckHit(slot: nat)
    | Grow
    | SrtAck(ack: int)
    | Reset
    | Reopen(ok: bool)

  function Min(a: int, b: int): int { if a < b then a else b }
  function Max(a: int, b: int): int { if a > b then a else b }

  /** The slow growth every live link gets from any SRTLA ACK. */
  function Grown(l: Link): Link {
    if l.lastRcvd != 0 then l.(window := Min(l.window + 1, WINDOW_MAX)) else l
  }

  function Acked(l: Link, slot: nat): Link
    requires slot < |l.log|
  {
    var left := if l.inFlight > 0 then l.inFlight - 1 else l.inFlight;
    l.(inFlight := left, log := l.log[slot := -1],
       window := if left * WINDOW_MULT > l.window then l.window + WINDOW_INCR - 1 else l.window)
  }

  /** Visible slots whose entry is at least `ack`. */
  function AtLeast(l: Link, ack: int): set<int>
    requires Shaped(l)
  {
    set i | 0 <= i < LOG_SIZE && i != l.idx && l.log[i] >= ack
  }

  function Purged(l: Link, ack: int): seq<int>
    requires Shaped(l)
  {
    seq(LOG_SIZE, i requires 0 <= i < LOG_SIZE => if i != l.idx && l.log[i] < ack then -1 else l.log[i])
  }

  predicate Applicable(l: Link, a: Action) {
    match a
    case NakHit(slot) => slot < LOG_SIZE && slot != l.idx
    case AckHit(slot) => slot < LOG_SIZE && slot != l.idx
    case _ => true
  }

  function Do(l: Link, a: Action): (r: Link)
    requires Shaped(l) && Applicable(l, a)
    ensures Shaped(r)
  {
    match a
    case Idle => l
    case Pick(now) => l.(lastSent := now)
    case PickAndLog(now, sn) =>
      l.(lastSent := now, log := l.log[l.idx := sn], idx := (l.idx + 1) % LOG_SIZE, inFlight := l.inFlight + 1)
    case PickAndDisable(now) => l.(lastSent := now, lastRcvd := 1)
    case Touch(now) => l.(lastRcvd := now)
    case NakHit(slot) => l.(log := l.log[slot := -1], window := Max(l.window - WINDOW_DECR, WINDOW_MIN))
    case AckHit(slot) => Grown(Acked(l, slot))
    case Grow => Grown(l)
    case SrtAck(ack) => l.(log := Purged(l, ack), inFlight := |AtLeast(l, ack)|)
    case Reset => l.(lastRcvd := 0, lastSent := 0, window := WINDOW_MIN, inFlight := 0, log := seq(LOG_SIZE, _ => -1))
    case Reopen(ok) => l.(open := ok)
  }

  // ---- events on all links --------------------------------------------------------

  datatype Event =
    | Send(now: int, sn: int, sent: bool)            // handle_srt_data; sn is -1 for control packets
    | Received(link: nat, now: int)                  // the timestamp update of handle_srtla_data
    | Nak(packet: int)                               // register_nak
    | Ack(ack: int)                                  // register_srtla_ack
    | CumulativeAck(upTo: int)                       // register_srt_ack
    | Housekeeping(now: int, reopened: seq<bool>)    // the link loop of connection_housekeeping

  ghost predicate ReadyLink(l: Link) {
    Shaped(l) && l.inFlight >= 0 && l.window >= 0
  }

  ghost predicate Ready(ls: seq<Link>) {
    forall i :: 0 <= i < |ls| ==> ReadyLink(ls[i])
  }

  function SendAction(now: int, sn: int, sent: bool): Action {
    if !sent then PickAndDisable(now) else if sn >= 0 then PickAndLog(now, sn) else Pick(now)
  }

  function NakAction(l: Link, packet: int, first: bool): (a: Action)
    requires Shaped(l)
    ensures Applicable(l, a)
  {
    if first && Find(l, packet) >= 0 then NakHit(Find(l, packet)) else Idle
  }

  function AckAction(l: Link, ack: int, first: bool): (a: Action)
    requires Shaped(l)
    ensures Applicable(l, a)
  {
    if first && Find(l, ack) >= 0 then AckHit(Find(l, ack)) else Grow
  }

  function HousekeepingAction(l: Link, now: int, reopened: bool): Action {
    if !l.open then Reopen(reopened)
    else if TimedOut(l, now) && l.lastRcvd > 0 then Reset else Idle
  }

  /** What an event does to link i. */
  function ActionOn(ls: seq<Link>, ev: Event, i: nat): (a: Action)
    requires Ready(ls) && i < |ls|
    ensures Applicable(ls[i], a)
  {
    match ev
    case Send(now, sn, sent) =>
      if Choose(ls, now) == i then SendAction(now, sn, sent) else Idle
    case Received(c, now) => if c == i then Touch(now) else Idle
    case Nak(p) => NakAction(ls[i], p, FirstHit(ls, p) == i)
    case Ack(a) => AckAction(ls[i], a, FirstHit(ls, a) == i)
    case CumulativeAck(a) => SrtAck(a)
    case Housekeeping(now, reopened) =>
      HousekeepingAction(ls[i], now, i < |reopened| && reopened[i])
  }

  function Step(ls: seq<Link>, ev: Event): (r: seq<Link>)
    requires Ready(ls)
    ensures |r| == |ls|
    ensures forall i :: 0 <= i < |r| ==> r[i] == Do(ls[i], ActionOn(ls, ev, i))
  {
    seq(|ls|, i requires 0 <= i < |ls| => Do(ls[i], ActionOn(ls, ev, i)))
  }

  /** A NAK and a send touch one link at most. */
  lemma NakStep(ls: seq<Link>, p: int)
    requires Ready(ls)
    ensures var i := FirstHit(ls, p);
            Step(ls, Nak(p)) == if i < 0 then ls else ls[i := Do(ls[i], NakAction(ls[i], p, true))]
  {
  }

  lemma SendStep(ls: seq<Link>, now: int, sn: int, sent: bool)
    requires Ready(ls)
    ensures var i := Choose(ls, now);
            Step(ls, Send(now, sn, sent)) == if i < 0 then ls else ls[i := Do(ls[i], SendAction(now, sn, sent))]
  {
  }

  lemma DoReady(l: Link, a: Action)
    requires ReadyLink(l) && Applicable(l, a)
    ensures ReadyLink(Do(l, a))
  {
  }

  lemma StepReady(ls: seq<Link>, ev: Event)
    requires Ready(ls)
    ensures Ready(Step(ls, ev))
  {
    forall i | 0 <= i < |ls| ensures ReadyLink(Step(ls, ev)[i]) {
      DoReady(ls[i], ActionOn(ls, ev, i));
    }
  }

  function Fresh(n: nat): (ls: seq<Link>)
    ensures |ls| == n && forall i :: 0 <= i < n ==> ls[i] == NEW_LINK
  {
    seq(n, _ => NEW_LINK)
  }

  // ---- exact accounting --------------------------------------------------------------

  /** Visible slots that hold a sequence number. */
  ghost function Live(l: Link): set<int>
    requires Shaped(l)
  {
    AtLeast(l, 1)
  }

  /** Visible slots without a sequence number that an SRT ACK would still count. */
  ghost function Phantoms(l: Link, ack: int): set<int>
    requires Shaped(l)
  {
    set i | 0 <= i < LOG_SIZE && i != l.idx && ack <= l.log[i] <= 0
  }

  /** What sets the in-flight counter apart from the visible numbers since the
      last SRT ACK or reset: numbers struck out by a NAK, numbers that aged out of
      the log, and what numbers that are not positive have added or taken. */
  datatype Ledger = Ledger(nakHits: nat, agedOut: nat, stray: int)
  const BALANCED := Ledger(0, 0, 0)

  ghost function Book(b: Ledger, l: Link, a: Action): Ledger
    requires Shaped(l) && Applicable(l, a)
  {
    match a
    case PickAndLog(_, sn) =>
      b.(agedOut := b.agedOut + One(l.log[(l.idx + 1) % LOG_SIZE] > 0), stray := b.stray + One(sn <= 0))
    case NakHit(slot) => b.(nakHits := b.nakHits + One(l.log[slot] > 0))
    case AckHit(slot) => b.(stray := b.stray + One(l.log[slot] > 0) - One(l.inFlight > 0))
    case SrtAck(ack) => BALANCED.(stray := |Phantoms(l, ack)|)
    case Reset => BALANCED
    case _ => b
  }

  ghost function BookAll(bs: seq<Ledger>, ls: seq<Link>, ev: Event): (r: seq<Ledger>)
    requires Ready(ls) && |bs| == |ls|
    ensures |r| == |bs|
    ensures forall i :: 0 <= i < |r| ==> r[i] == Book(bs[i], ls[i], ActionOn(ls, ev, i))
  {
    seq(|ls|, i requires 0 <= i < |ls| => Book(bs[i], ls[i], ActionOn(ls, ev, i)))
  }

  datatype State = State(links: seq<Link>, ledgers: seq<Ledger>)

  /** The links and their ledgers after a run. */
  ghost function Run(n: nat, evs: seq<Event>): (s: State)
    ensures |s.links| == |s.ledgers| == n && Ready(s.links)
    decreases |evs|
  {
    if evs == [] then State(Fresh(n), seq(n, _ => BALANCED))
    else
      var m := |evs| - 1;
      var s := Run(n, evs[..m]);
      StepReady(s.links, evs[m]);
      State(Step(s.links, evs[m]), BookAll(s.ledgers, s.links, evs[m]))
  }

  lemma RunSnoc(n: nat, evs: seq<Event>, ev: Event)
    ensures var s := Run(n, evs);
            Run(n, evs + [ev]) == State(Step(s.links, ev), BookAll(s.ledgers, s.links, ev))
  {
    assert (evs + [ev])[..|evs|] == evs;
  }

  ghost predicate Accounted(l: Link, b: Ledger)
    requires Shaped(l)
  {
    l.inFlight == |Live(l)| + b.nakHits + b.agedOut + b.stray
  }

  lemma LiveAfterLog(l: Link, next: nat, sn: int)
    requires Shaped(l) && next < LOG_SIZE && next != l.idx
    ensures var r := l.(log := l.log[l.idx := sn], idx := next);
            |Live(r)| == |Live(l)| + One(sn > 0) - One(l.log[next] > 0)
  {
    var r := l.(log := l.log[l.idx := sn], idx := next);
    var kept := Live(l) - {next};
    assert Live(r) == if sn > 0 then kept + {l.idx} else kept;
  }

  lemma LogOne(l: Link, now: int, sn: int)
    requires Shaped(l)
    ensures |Live(Do(l, PickAndLog(now, sn)))| == |Live(l)| + One(sn > 0) - One(l.log[(l.idx + 1) % LOG_SIZE] > 0)
  {
    var next := (l.idx + 1) % LOG_SIZE;
    assert next != l.idx;
    LiveAfterLog(l, next, sn);
    assert Live(Do(l, PickAndLog(now, sn))) == Live(l.(log := l.log[l.idx := sn], idx := next));
  }

  lemma StrikeOne(l: Link, slot: nat)
    requires Shaped(l) && slot < LOG_SIZE && slot != l.idx
    ensures var r := l.(log := l.log[slot := -1]); |Live(r)| == |Live(l)| - One(l.log[slot] > 0)
  {
    var r := l.(log := l.log[slot := -1]);
    assert Live(r) == Live(l) - {slot};
  }

  lemma PurgeExact(l: Link, ack: int)
    requires Shaped(l)
    ensures |AtLeast(l, ack)| == |Live(Do(l, SrtAck(ack)))| + |Phantoms(l, ack)|
  {
    var live := Live(Do(l, SrtAck(ack)));
    assert AtLeast(l, ack) == live + Phantoms(l, ack) && live !! Phantoms(l, ack);
  }

  /** Every action, whatever its numbers, keeps the account of a link exact. */
  lemma ActionAccounted(l: Link, b: Ledger, a: Action)
    requires ReadyLink(l) && Applicable(l, a) && Accounted(l, b)
    ensures Accounted(Do(l, a), Book(b, l, a))
  {
    match a
    case PickAndLog(now, sn) => LogOne(l, now, sn);
    case NakHit(slot) =>
      StrikeOne(l, slot);
      assert Live(Do(l, a)) == Live(l.(log := l.log[slot := -1]));
    case AckHit(slot) =>
      StrikeOne(l, slot);
      assert Live(Do(l, a)) == Live(l.(log := l.log[slot := -1]));
    case SrtAck(ack) => PurgeExact(l, ack);
    case Reset => assert Live(Do(l, a)) == {};
    case _ => assert Live(Do(l, a)) == Live(l);
  }

  ghost predicate AllAccounted(ls: seq<Link>, bs: seq<Ledger>)
    requires Ready(ls)
  {
    |bs| == |ls| && forall i :: 0 <= i < |ls| ==> Accounted(ls[i], bs[i])
  }

  lemma StepAccounted(ls: seq<Link>, bs: seq<Ledger>, ev: Event)
    requires Ready(ls) && AllAccounted(ls, bs)
    ensures Ready(Step(ls, ev)) && AllAccounted(Step(ls, ev), BookAll(bs, ls, ev))
  {
    StepReady(ls, ev);
    forall i | 0 <= i < |ls| ensures Accounted(Step(ls, ev)[i], BookAll(bs, ls, ev)[i]) {
      ActionAccounted(ls[i], bs[i], ActionOn(ls, ev, i));
    }
  }

  lemma {:induction false} RunAccounted(n: nat, evs: seq<Event>)
    ensures AllAccounted(Run(n, evs).links, Run(n, evs).ledgers)
    decreases |evs|
  {
    if evs == [] {
      assert Live(NEW_LINK) == {};
    } else {
      var m := |evs| - 1;
      RunAccounted(n, evs[..m]);
      StepAccounted(Run(n, evs[..m]).links, Run(n, evs[..m]).ledgers, evs[m]);
    }
  }

  /** On every run, with any numbers and any clock, every link's in-flight counter
      is its visible numbers plus the NAK hits plus the aged-out numbers plus the
      strays since its last SRT ACK or reset, and it is not negative. */
  lemma InFlightAccount(n: nat, evs: seq<Event>, i: nat)
    requires i < n
    ensures var l, b := Run(n, evs).links[i], Run(n, evs).ledgers[i];
            0 <= l.inFlight == |Live(l)| + b.nakHits + b.agedOut + b.stray
  {
    RunAccounted(n, evs);
    assert Accounted(Run(n, evs).links[i], Run(n, evs).ledgers[i]);
  }

  // ---- no strays while the numbers are positive ----------------------------------------

  /** The action leaves no stray behind on a link without strays. */
  ghost predicate LeavesNoStray(l: Link, a: Action)
    requires Shaped(l) && Applicable(l, a)
  {
    match a
    case PickAndLog(_, sn) => sn > 0
    case AckHit(slot) => l.log[slot] > 0 || l.inFlight == 0
    case SrtAck(ack) => ack > 0 || Phantoms(l, ack) == {}
    case _ => true
  }

  lemma HitCounted(l: Link, b: Ledger, slot: nat)
    requires Shaped(l) && Accounted(l, b) && b.stray >= 0
    requires slot < LOG_SIZE && slot != l.idx && l.log[slot] > 0
    ensures l.inFlight > 0
  {
    assert slot in Live(l);
  }

  /** Exactly which actions cost the account: logging a number that is not
      positive, acknowledging one while something is in flight, and an SRT ACK
      that is not positive while it has such entries to count. */
  lemma StrayIff(l: Link, b: Ledger, a: Action)
    requires ReadyLink(l) && Applicable(l, a) && Accounted(l, b) && b.stray == 0
    ensures Book(b, l, a).stray == 0 <==> LeavesNoStray(l, a)
  {
    match a
    case AckHit(slot) =>
      if l.log[slot] > 0 {
        HitCounted(l, b, slot);
      }
    case SrtAck(ack) => assert ack > 0 ==> Phantoms(l, ack) == {};
    case _ =>
  }

  /** The event carries no sequence or ACK number below 1; NAKs may. */
  predicate Positive(ev: Event) {
    match ev
    case Send(_, sn, _) => sn != 0
    case Ack(ack) => ack > 0
    case CumulativeAck(upTo) => upTo > 0
    case _ => true
  }

  ghost predicate AllPositive(evs: seq<Event>) {
    forall i :: 0 <= i < |evs| ==> Positive(evs[i])
  }

  lemma PositiveLeavesNone(ls: seq<Link>, bs: seq<Ledger>, ev: Event, i: nat)
    requires Ready(ls) && AllAccounted(ls, bs) && i < |ls| && Positive(ev) && bs[i].stray == 0
    ensures BookAll(bs, ls, ev)[i].stray == 0
  {
    assert Accounted(ls[i], bs[i]);
    StrayIff(ls[i], bs[i], ActionOn(ls, ev, i));
  }

  lemma {:induction false} NoStrays(n: nat, evs: seq<Event>, i: nat)
    requires AllPositive(evs) && i < n
    ensures Run(n, evs).ledgers[i].stray == 0
    decreases |evs|
  {
    if evs != [] {
      var m := |evs| - 1;
      var s := Run(n, evs[..m]);
      NoStrays(n, evs[..m], i);
      RunAccounted(n, evs[..m]);
      PositiveLeavesNone(s.links, s.ledgers, evs[m], i);
    }
  }

  /** So on every run of positive numbers the counter is the visible numbers plus
      the NAK hits plus the aged-out numbers. */
  lemma InFlightExact(n: nat, evs: seq<Event>, i: nat)
    requires AllPositive(evs) && i < n
    ensures var l, b := Run(n, evs).links[i], Run(n, evs).ledgers[i];
            0 <= l.inFlight == |Live(l)| + b.nakHits + b.agedOut
  {
    NoStrays(n, evs, i);
    InFlightAccount(n, evs, i);
  }

  /** And the next event keeps it so on a link exactly if its action there leaves
      no stray. */
  lemma AccountLostIff(n: nat, evs: seq<Event>, ev: Event, i: nat)
    requires AllPositive(evs) && i < n
    ensures var s := Run(n, evs);
            Run(n, evs + [ev]).ledgers[i].stray == 0 <==> LeavesNoStray(s.links[i], ActionOn(s.links, ev, i))
  {
    var s := Run(n, evs);
    RunSnoc(n, evs, ev);
    NoStrays(n, evs, i);
    RunAccounted(n, evs);
    assert Accounted(s.links[i], s.ledgers[i]);
    StrayIff(s.links[i], s.ledgers[i], ActionOn(s.links, ev, i));
  }

  lemma SrtAckExact(l: Link, ack: int)
    requires ReadyLink(l)
    ensures var r := Do(l, SrtAck(ack)); r.inFlight == |Live(r)| <==> ack > 0 || Phantoms(l, ack) == {}
  {
    PurgeExact(l, ack);
    assert ack > 0 ==> Phantoms(l, ack) == {};
    assert |Phantoms(l, ack)| == 0 <==> Phantoms(l, ack) == {};
  }

  /** On every run an SRT ACK restores equality with the visible log on a link
      exactly if it is positive or finds nothing there between itself and 0. */
  lemma SrtAckResynchronises(n: nat, evs: seq<Event>, ack: int, i: nat)
    requires i < n
    ensures var l, l' := Run(n, evs).links[i], Run(n, evs + [CumulativeAck(ack)]).links[i];
            l'.inFlight == |Live(l')| <==> ack > 0 || Phantoms(l, ack) == {}
  {
    RunSnoc(n, evs, CumulativeAck(ack));
    SrtAckExact(Run(n, evs).links[i], ack);
  }

  // ---- windows -------------------------------------------------------------------------

  ghost predicate InWindow(l: Link) {
    WINDOW_MIN <= l.window <= WINDOW_MAX
  }

  /** Exactly one action can take a window out of range: an acknowledgement found
      on a link that is down, which has no ceiling. */
  lemma WindowKeptIff(l: Link, a: Action)
    requires ReadyLink(l) && Applicable(l, a) && InWindow(l)
    ensures InWindow(Do(l, a))
            <==> (a.AckHit? && l.lastRcvd == 0 && Acked(l, a.slot).window > l.window
                  ==> l.window + WINDOW_INCR - 1 <= WINDOW_MAX)
  {
  }

  /** A link that is down has nothing in its log or in flight. */
  ghost predicate Inv(l: Link) {
    && ReadyLink(l) && InWindow(l) && l.lastRcvd >= 0
    && (l.lastRcvd == 0 ==> l.inFlight == 0 && forall i :: 0 <= i < LOG_SIZE ==> l.log[i] <= 0)
  }

  /** The clock is past CONN_TIMEOUT when packets are sent and past 0 when they
      arrive, and SRT ACKs are positive. */
  predicate Steady(ev: Event) {
    match ev
    case Send(now, _, _) => now > CONN_TIMEOUT
    case Received(_, now) => now > 0
    case CumulativeAck(upTo) => upTo > 0
    case _ => true
  }

  ghost predicate AllSteady(evs: seq<Event>) {
    forall i :: 0 <= i < |evs| ==> Steady(evs[i])
  }

  lemma ActionInv(l: Link, a: Action)
    requires Inv(l) && Applicable(l, a)
    requires a.PickAndLog? ==> l.lastRcvd > 0
    requires a.Touch? ==> a.now > 0
    requires a.SrtAck? ==> a.ack > 0
    ensures Inv(Do(l, a))
  {
    if a.SrtAck? && l.lastRcvd == 0 {
      assert AtLeast(l, a.ack) == {};
    }
  }

  lemma ChosenAlive(ls: seq<Link>, now: int)
    requires forall i :: 0 <= i < |ls| ==> ls[i].inFlight >= 0
    requires Choose(ls, now) >= 0
    ensures !TimedOut(ls[Choose(ls, now)], now)
  {
    ChoosesFirstBest(ls, now);
  }

  lemma StepInv(ls: seq<Link>, ev: Event, i: nat)
    requires Ready(ls) && i < |ls| && Inv(ls[i]) && Steady(ev)
    ensures Inv(Step(ls, ev)[i])
  {
    if ev.Send? && Choose(ls, ev.now) == i {
      ChosenAlive(ls, ev.now);
    }
    ActionInv(ls[i], ActionOn(ls, ev, i));
  }

  lemma {:induction false} RunInv(n: nat, evs: seq<Event>, i: nat)
    requires AllSteady(evs) && i < n
    ensures Inv(Run(n, evs).links[i])
    decreases |evs|
  {
    if evs != [] {
      var m := |evs| - 1;
      RunInv(n, evs[..m], i);
      StepInv(Run(n, evs[..m]).links, evs[m], i);
    }
  }

  /** On every steady run every window stays between 1000 and 60000. */
  lemma WindowInRange(n: nat, evs: seq<Event>, i: nat)
    requires AllSteady(evs) && i < n
    ensures InWindow(Run(n, evs).links[i])
  {
    RunInv(n, evs, i);
  }

  // ---- one SRTLA ACK ------------------------------------------------------------------

  function Total(ls: seq<Link>): int {
    if ls == [] then 0 else Total(ls[..|ls| - 1]) + ls[|ls| - 1].inFlight
  }

  lemma {:induction false} TotalDiff(ls: seq<Link>, ls': seq<Link>, hit: int, drop: int)
    requires |ls'| == |ls| && hit < |ls|
    requires forall i :: 0 <= i < |ls| ==> ls'[i].inFlight == ls[i].inFlight - if i == hit then drop else 0
    ensures Total(ls') == Total(ls) - if hit >= 0 then drop else 0
    decreases |ls|
  {
    if ls != [] {
      var n := |ls| - 1;
      TotalDiff(ls[..n], ls'[..n], if hit == n then -1 else hit, drop);
    }
  }

  /** The link has x in a visible slot. */
  ghost predicate Holds(l: Link, x: int)
    requires Shaped(l)
  {
    exists slot :: 0 <= slot < LOG_SIZE && slot != l.idx && l.log[slot] == x
  }

  ghost predicate Visible(ls: seq<Link>, x: int)
    requires forall i :: 0 <= i < |ls| ==> Shaped(ls[i])
  {
    exists i :: 0 <= i < |ls| && Holds(ls[i], x)
  }

  lemma FindIffHolds(l: Link, x: int)
    requires Shaped(l)
    ensures Find(l, x) >= 0 <==> Holds(l, x)
  {
    if Holds(l, x) {
      var slot :| 0 <= slot < LOG_SIZE && slot != l.idx && l.log[slot] == x;
      FindComplete(l, x, slot);
    }
  }

  lemma HitIffVisible(ls: seq<Link>, x: int)
    requires forall i :: 0 <= i < |ls| ==> Shaped(ls[i])
    ensures FirstHit(ls, x) >= 0 <==> Visible(ls, x)
  {
    forall i | 0 <= i < |ls| ensures Find(ls[i], x) >= 0 <==> Holds(ls[i], x) {
      FindIffHolds(ls[i], x);
    }
  }

  /** The first link that shows the number has something in flight. */
  ghost predicate HitInFlight(ls: seq<Link>, x: int)
    requires Ready(ls)
  {
    FirstHit(ls, x) >= 0 && ls[FirstHit(ls, x)].inFlight > 0
  }

  /** From any state and for any number, an SRTLA ACK lowers the total in flight
      by one if the first link that shows the number has something in flight, and
      leaves it alone otherwise. */
  lemma AckLowersTotal(ls: seq<Link>, ack: int)
    requires Ready(ls)
    ensures Total(Step(ls, Ack(ack))) == Total(ls) - One(HitInFlight(ls, ack))
  {
    var hit := FirstHit(ls, ack);
    TotalDiff(ls, Step(ls, Ack(ack)), hit, One(HitInFlight(ls, ack)));
  }

  lemma HitOnRun(n: nat, evs: seq<Event>, ack: int)
    requires AllPositive(evs) && ack > 0 && FirstHit(Run(n, evs).links, ack) >= 0
    ensures HitInFlight(Run(n, evs).links, ack)
  {
    var s := Run(n, evs);
    var hit := FirstHit(s.links, ack);
    NoStrays(n, evs, hit);
    RunAccounted(n, evs);
    assert Accounted(s.links[hit], s.ledgers[hit]);
    HitCounted(s.links[hit], s.ledgers[hit], Find(s.links[hit], ack));
  }

  /** On every run of positive numbers it takes exactly one packet out of flight
      if some link still shows the number, and none otherwise. */
  lemma AckOnRun(n: nat, evs: seq<Event>, ack: int)
    requires AllPositive(evs) && ack > 0
    ensures var before, after := Run(n, evs).links, Run(n, evs + [Ack(ack)]).links;
            Total(after) == Total(before) - One(Visible(before, ack))
  {
    var ls := Run(n, evs).links;
    RunSnoc(n, evs, Ack(ack));
    AckLowersTotal(ls, ack);
    HitIffVisible(ls, ack);
    if FirstHit(ls, ack) >= 0 {
      HitOnRun(n, evs, ack);
    }
  }

  // ---- runs on which in flight is not what the log shows -------------------------------

  lemma SingleSend(l: Link, now: int, sn: int)
    requires ReadyLink(l) && !TimedOut(l, now) && sn >= 0
    ensures Step([l], Send(now, sn, true)) == [Do(l, PickAndLog(now, sn))]
  {
    assert Choose([l][..0], now) == -1;
  }

  lemma SingleNak(l: Link, p: int)
    requires ReadyLink(l) && Find(l, p) >= 0
    ensures Step([l], Nak(p)) == [Do(l, NakHit(Find(l, p)))]
  {
    assert Slots([l], p)[0] == Find(l, p);
  }

  lemma SingleAck(l: Link, ack: int)
    requires ReadyLink(l) && Find(l, ack) >= 0
    ensures Step([l], Ack(ack)) == [Do(l, AckHit(Find(l, ack)))]
  {
    assert Slots([l], ack)[0] == Find(l, ack);
  }

  function SentOne(now: int, sn: int): (l: Link)
    ensures Shaped(l)
  {
    Do(NEW_LINK.(lastRcvd := now), PickAndLog(now, sn))
  }

  lemma SentOneShows(now: int, sn: int)
    requires now > CONN_TIMEOUT && sn > 0
    ensures ReadyLink(SentOne(now, sn)) && SentOne(now, sn).inFlight == 1 && Live(SentOne(now, sn)) == {0}
    ensures Find(SentOne(now, sn), sn) == 0
    ensures var slot := Find(SentOne(now, sn), 0); slot >= 0 && SentOne(now, sn).log[slot] == 0
  {
    FindComplete(SentOne(now, sn), sn, 0);
    FindComplete(SentOne(now, sn), 0, 2);
  }

  function SendingRun(now: int, sn: int): seq<Event> {
    [Received(0, now)] + [Send(now, sn, true)]
  }

  lemma ReceivingRunLinks(now: int)
    ensures Run(1, [Received(0, now)]).links == [NEW_LINK.(lastRcvd := now)]
  {
    RunSnoc(1, [], Received(0, now));
    assert [] + [Received(0, now)] == [Received(0, now)];
  }

  lemma SendingRunLinks(now: int, sn: int)
    requires now > CONN_TIMEOUT && sn > 0
    ensures Run(1, SendingRun(now, sn)).links == [SentOne(now, sn)]
  {
    ReceivingRunLinks(now);
    RunSnoc(1, [Received(0, now)], Send(now, sn, true));
    SingleSend(NEW_LINK.(lastRcvd := now), now, sn);
  }

  /** One packet is sent and reported lost: it stays in flight, though the log no
      longer shows it. */
  lemma NakLeavesInFlight(now: int, sn: int)
    requires now > CONN_TIMEOUT && sn > 0
    ensures var l := Run(1, SendingRun(now, sn) + [Nak(sn)]).links[0]; l.inFlight == 1 && Live(l) == {}
  {
    SendingRunLinks(now, sn);
    RunSnoc(1, SendingRun(now, sn), Nak(sn));
    SentOneShows(now, sn);
    SingleNak(SentOne(now, sn), sn);
    assert Live(Do(SentOne(now, sn), NakHit(0))) == {};
  }

  /** One packet is sent and number 0 acknowledged: nothing is in flight any more,
      though the log shows the packet. */
  lemma ZeroAckTakesInFlight(now: int, sn: int)
    requires now > CONN_TIMEOUT && sn > 0
    ensures var l := Run(1, SendingRun(now, sn) + [Ack(0)]).links[0]; l.inFlight == 0 && Live(l) == {0}
  {
    SendingRunLinks(now, sn);
    RunSnoc(1, SendingRun(now, sn), Ack(0));
    SentOneShows(now, sn);
    SingleAck(SentOne(now, sn), 0);
    assert Live(Do(SentOne(now, sn), AckHit(Find(SentOne(now, sn), 0)))) == {0};
  }
}
