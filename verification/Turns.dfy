/** A run of the receiver as one list of turns: events, and the ends of iterations. */
module Turns {
  import opened Seqs
  import opened Receiver
  import opened ReceiverInvariants
  import opened ReceiverTheorems

  datatype Turn =
    | EventTurn(event: Event, ts: int)
    | EndTurn(ts: int, millis: nat -> nat)

  function Turned(s: State, t: Turn): State {
    match t
    case EventTurn(e, ts) => if Possible(s, e) then Step(s, e, ts).state else s
    case EndTurn(ts, millis) => LoopTail(s, ts, millis)
  }

  /** What the receiver sends during a turn. */
  function SentIn(s: State, t: Turn): seq<Out> {
    if t.EventTurn? && Possible(s, t.event) then Step(s, t.event, t.ts).outs else []
  }

  function StateAfter(turns: seq<Turn>): State {
    if turns == [] then INITIAL else Turned(StateAfter(turns[..|turns| - 1]), turns[|turns| - 1])
  }

  function Clock(turns: seq<Turn>): int {
    if turns == [] then 0 else turns[|turns| - 1].ts
  }

  /** The clock does not run backwards. */
  ghost predicate Ordered(turns: seq<Turn>) {
    turns == [] || (Clock(turns[..|turns| - 1]) <= Clock(turns) && Ordered(turns[..|turns| - 1]))
  }

  lemma TurnsSnoc(turns: seq<Turn>, t: Turn)
    ensures StateAfter(turns + [t]) == Turned(StateAfter(turns), t) && Clock(turns + [t]) == t.ts
    ensures Ordered(turns) && Clock(turns) <= t.ts ==> Ordered(turns + [t])
  {
    Unappend(turns, t);
  }

  lemma TurnedInv(s: State, t: Turn)
    requires Inv(s, t.ts)
    ensures Inv(Turned(s, t), t.ts)
  {
    match t
    case EventTurn(e, ts) =>
      if Possible(s, e) {
        StepInv(s, e, ts);
      }
    case EndTurn(ts, millis) => LoopTailInv(s, ts, millis);
  }

  lemma {:induction false} TurnsInv(turns: seq<Turn>)
    requires Ordered(turns)
    ensures Inv(StateAfter(turns), Clock(turns))
    decreases |turns|
  {
    if turns == [] {
      InitialInv();
    } else {
      var n := |turns| - 1;
      TurnsInv(turns[..n]);
      InvLater(StateAfter(turns[..n]), Clock(turns[..n]), turns[n].ts);
      TurnedInv(StateAfter(turns[..n]), turns[n]);
    }
  }

  // ---- iterations as turns ---------------------------------------------------------------

  function EventTurns(events: seq<Event>, ts: int): seq<Turn> {
    if events == [] then []
    else EventTurns(events[..|events| - 1], ts) + [EventTurn(events[|events| - 1], ts)]
  }

  function TurnsOf(its: seq<Iteration>): seq<Turn> {
    if its == [] then []
    else
      var it := its[|its| - 1];
      TurnsOf(its[..|its| - 1]) + EventTurns(it.events, it.ts) + [EndTurn(it.ts, it.millis)]
  }

  /** Whole iterations and some events of the next one. */
  function TurnsUpTo(its: seq<Iteration>, events: seq<Event>, ts: int): seq<Turn> {
    TurnsOf(its) + EventTurns(events, ts)
  }

  lemma {:induction false} EventsAsTurns(turns: seq<Turn>, events: seq<Event>, ts: int)
    requires Ordered(turns) && Clock(turns) <= ts
    ensures var r := turns + EventTurns(events, ts);
            Ordered(r) && Clock(r) <= ts && StateAfter(r) == AfterEvents(StateAfter(turns), events, ts)
    decreases |events|
  {
    if events == [] {
      AppendNothing(turns);
    } else {
      var init, e := events[..|events| - 1], events[|events| - 1];
      EventsAsTurns(turns, init, ts);
      TurnsSnoc(turns + EventTurns(init, ts), EventTurn(e, ts));
      assert turns + EventTurns(events, ts) == turns + EventTurns(init, ts) + [EventTurn(e, ts)];
    }
  }

  lemma {:induction false} RunAsTurns(its: seq<Iteration>)
    requires Monotone(its)
    ensures Ordered(TurnsOf(its)) && Clock(TurnsOf(its)) == LastClock(its) && StateAfter(TurnsOf(its)) == AfterRun(its)
    decreases |its|
  {
    if its != [] {
      var init, it := its[..|its| - 1], its[|its| - 1];
      RunAsTurns(init);
      EventsAsTurns(TurnsOf(init), it.events, it.ts);
      TurnsSnoc(TurnsOf(init) + EventTurns(it.events, it.ts), EndTurn(it.ts, it.millis));
    }
  }

  /** Every reachable state is the state after an ordered list of turns. */
  lemma ReachedAsTurns(s: State, its: seq<Iteration>, events: seq<Event>, ts: int)
    requires Reached(s, its, events, ts)
    ensures Ordered(TurnsUpTo(its, events, ts)) && StateAfter(TurnsUpTo(its, events, ts)) == s
  {
    RunAsTurns(its);
    EventsAsTurns(TurnsOf(its), events, ts);
  }
}
