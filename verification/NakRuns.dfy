/** The NAK filter of every group, on every run of the receiver. */
module NakRuns {
  import opened Seqs
  import opened ReceiverTypes
  import opened Registry
  import opened Receiver
  import opened ReceiverInvariants
  import opened ReceiverTheorems
  import opened Turns
  import opened Origins
  import NakDedup

  type Call = NakDedup.Call<Hash>

  /** A NAK from a member of the group with this serial, and whether it passes. */
  datatype Filtering = NoNak | NakIn(serial: nat, call: Call, passes: bool)

  /** The NAK that a turn brings to the filter of a group. */
  function NakOf(s: State, t: Turn): Filtering {
    if !t.EventTurn? || !Possible(s, t.event) || !t.event.Datagram? then NoNak
    else
      var buf, r := t.event.buf, FindByAddress(s.groups, t.event.addr);
      if !Classify(buf).Srt? || !IsNak(buf) || r.Nobody? || r.conn < 0 then NoNak
      else
        var g, now := s.groups[r.group], t.event.env.ms.dedup;
        NakIn(g.serial, NakDedup.Call(HashOf(buf), now), !Suppressed(g, buf, now))
  }

  function CallsIn(s: State, t: Turn, serial: nat): seq<Call> {
    var f := NakOf(s, t);
    if f.NakIn? && f.serial == serial then [f.call] else []
  }

  /** All NAKs that members of a group ever sent. */
  function Calls(turns: seq<Turn>, serial: nat): seq<Call> {
    if turns == [] then []
    else
      var n := |turns| - 1;
      Calls(turns[..n], serial) + CallsIn(StateAfter(turns[..n]), turns[n], serial)
  }

  function PassedIn(s: State, t: Turn, serial: nat, hash: Hash): seq<nat> {
    var f := NakOf(s, t);
    if f.NakIn? && f.serial == serial && f.call.hash == hash && f.passes then [f.call.now] else []
  }

  /** When NAKs with this hash passed the filter of the group. */
  function Passed(turns: seq<Turn>, serial: nat, hash: Hash): seq<nat> {
    if turns == [] then []
    else
      var n := |turns| - 1;
      Passed(turns[..n], serial, hash) + PassedIn(StateAfter(turns[..n]), turns[n], serial, hash)
  }

  // ---- one group's cache ---------------------------------------------------------------------

  function CacheAfter(cache: NakDedup.Cache<Hash>, calls: seq<Call>): NakDedup.Cache<Hash>
    decreases |calls|
  {
    if calls == [] then cache
    else CacheAfter(NakDedup.AfterCall(cache, calls[0].hash, calls[0].now), calls[1..])
  }

  lemma {:induction false} CallsSnoc(cache: NakDedup.Cache<Hash>, calls: seq<Call>, c: Call, hash: Hash)
    ensures CacheAfter(cache, calls + [c]) == NakDedup.AfterCall(CacheAfter(cache, calls), c.hash, c.now)
    ensures NakDedup.AcceptedTimes(cache, calls + [c], hash)
            == NakDedup.AcceptedTimes(cache, calls, hash)
               + if c.hash == hash && NakDedup.Accepts(CacheAfter(cache, calls), hash, c.now) then [c.now] else []
    decreases |calls|
  {
    if calls == [] {
      assert calls + [c] == [c] && [c][1..] == [];
    } else {
      assert (calls + [c])[1..] == calls[1..] + [c];
      CallsSnoc(NakDedup.AfterCall(cache, calls[0].hash, calls[0].now), calls[1..], c, hash);
    }
  }

  // ---- what happens to caches -----------------------------------------------------------------

  /** The group with this serial is live and has this cache. */
  ghost predicate HasCache(gs: seq<Group>, serial: nat, cache: NakDedup.Cache<Hash>) {
    exists i :: 0 <= i < |gs| && gs[i].serial == serial && gs[i].nakCache == cache
  }

  // ---- every turn ----------------------------------------------------------------------------------

  /** A live group after a turn: its cache is what the turn's NAK, if it is one of
      the group, makes of the cache before, or the group is new and the cache empty. */
  ghost predicate Follows(s: State, t: Turn, g: Group) {
    || (exists cache :: HasCache(s.groups, g.serial, cache) && g.nakCache == CacheAfter(cache, CallsIn(s, t, g.serial)))
    || (g.serial == s.counters.registered && g.nakCache == map[] && CallsIn(s, t, g.serial) == [])
  }

  lemma FilteredFollows(s: State, t: Turn, i: nat)
    requires i < |s.groups| && SerialsOk(s.groups, s.counters.registered)
    ensures HasCache(s.groups, s.groups[i].serial, s.groups[i].nakCache)
    ensures FilteredBy(s, t, i) == CacheAfter(s.groups[i].nakCache, CallsIn(s, t, s.groups[i].serial))
  {
    var calls := CallsIn(s, t, s.groups[i].serial);
    if StreamsIn(s, t, i) && IsNak(t.event.buf) {
      assert calls == [NakDedup.Call(HashOf(t.event.buf), t.event.env.ms.dedup)] && calls[1..] == [];
    } else {
      assert calls == [];
    }
  }

  lemma TurnFollows(s: State, t: Turn, j: nat)
    requires Owned(s.groups) && j < |Turned(s, t).groups| && SerialsOk(s.groups, s.counters.registered)
    ensures Follows(s, t, Turned(s, t).groups[j])
  {
    var o := OriginOf(s, t, j);
    if o.From? {
      GroupTurn(s, t, o.group, o.nowMs);
      FilteredFollows(s, t, o.group);
    }
  }

  // ---- every run --------------------------------------------------------------------------------------

  lemma CallsAreLive(s: State, t: Turn, serial: nat)
    requires SerialsOk(s.groups, s.counters.registered) && serial >= s.counters.registered
    ensures CallsIn(s, t, serial) == []
  {
  }

  /** Groups that are yet to be registered have heard of no NAK. */
  lemma {:induction false} NoEarlyCalls(turns: seq<Turn>, serial: nat)
    requires Ordered(turns) && serial >= StateAfter(turns).counters.registered
    ensures Calls(turns, serial) == []
    decreases |turns|
  {
    if turns != [] {
      var n := |turns| - 1;
      RegisteredGrows(StateAfter(turns[..n]), turns[n]);
      NoEarlyCalls(turns[..n], serial);
      TurnsInv(turns[..n]);
      CallsAreLive(StateAfter(turns[..n]), turns[n], serial);
    }
  }

  lemma CallsTurn(calls: seq<Call>, more: seq<Call>, cache: NakDedup.Cache<Hash>)
    requires |more| <= 1 && cache == CacheAfter(map[], calls)
    ensures CacheAfter(cache, more) == CacheAfter(map[], calls + more)
  {
    if more == [] {
      AppendNothing(calls);
    } else {
      CallsSnoc(map[], calls, more[0], more[0].hash);
      assert more == [more[0]] && more[1..] == [];
    }
  }

  lemma CacheTurn(turns: seq<Turn>, t: Turn, g: Group)
    requires Ordered(turns) && Follows(StateAfter(turns), t, g)
    requires forall i :: 0 <= i < |StateAfter(turns).groups| ==>
               var h := StateAfter(turns).groups[i]; h.nakCache == CacheAfter(map[], Calls(turns, h.serial))
    ensures g.nakCache == CacheAfter(map[], Calls(turns, g.serial) + CallsIn(StateAfter(turns), t, g.serial))
  {
    var s := StateAfter(turns);
    var calls, more := Calls(turns, g.serial), CallsIn(s, t, g.serial);
    if cache :| HasCache(s.groups, g.serial, cache) && g.nakCache == CacheAfter(cache, more) {
      CallsTurn(calls, more, cache);
    } else {
      NoEarlyCalls(turns, g.serial);
    }
  }

  /** The filter of a live group has seen exactly the NAKs of its members. */
  lemma {:induction false} CacheOnTurns(turns: seq<Turn>, i: nat)
    requires Ordered(turns) && i < |StateAfter(turns).groups|
    ensures var g := StateAfter(turns).groups[i]; g.nakCache == CacheAfter(map[], Calls(turns, g.serial))
    decreases |turns|
  {
    if turns != [] {
      var init, t := turns[..|turns| - 1], turns[|turns| - 1];
      TurnsInv(init);
      TurnFollows(StateAfter(init), t, i);
      forall j | 0 <= j < |StateAfter(init).groups|
        ensures var h := StateAfter(init).groups[j]; h.nakCache == CacheAfter(map[], Calls(init, h.serial))
      {
        CacheOnTurns(init, j);
      }
      CacheTurn(init, t, StateAfter(turns).groups[i]);
    }
  }

  lemma PassedTurn(turns: seq<Turn>, t: Turn, serial: nat, hash: Hash)
    requires Ordered(turns)
    requires Passed(turns, serial, hash) == NakDedup.AcceptedTimes(map[], Calls(turns, serial), hash)
    ensures Passed(turns, serial, hash) + PassedIn(StateAfter(turns), t, serial, hash)
            == NakDedup.AcceptedTimes(map[], Calls(turns, serial) + CallsIn(StateAfter(turns), t, serial), hash)
  {
    var s, calls := StateAfter(turns), Calls(turns, serial);
    var f := NakOf(s, t);
    if f.NakIn? && f.serial == serial {
      CacheOnTurns(turns, FindByAddress(s.groups, t.event.addr).group);
      CallsSnoc(map[], calls, f.call, hash);
    } else {
      AppendNothing(calls);
      AppendNothing(Passed(turns, serial, hash));
    }
  }

  lemma {:induction false} PassedOnTurns(turns: seq<Turn>, serial: nat, hash: Hash)
    requires Ordered(turns)
    ensures Passed(turns, serial, hash) == NakDedup.AcceptedTimes(map[], Calls(turns, serial), hash)
    decreases |turns|
  {
    if turns != [] {
      var init, t := turns[..|turns| - 1], turns[|turns| - 1];
      PassedOnTurns(init, serial, hash);
      PassedTurn(init, t, serial, hash);
    }
  }

  /** On every run: of all NAKs with one hash that members of a group ever send,
      the first passes, and the first later one at least SUPPRESS_MS after it, and
      no others. */
  lemma NakFilterOnRun(s: State, its: seq<Iteration>, events: seq<Event>, ts: int, serial: nat, hash: Hash)
    requires Reached(s, its, events, ts)
    ensures var turns := TurnsUpTo(its, events, ts);
            var passed := Passed(turns, serial, hash);
            && passed == NakDedup.Policy(NakDedup.TimesOf(Calls(turns, serial), hash))
            && |passed| <= 2 && (|passed| == 2 ==> passed[1] >= passed[0] + NakDedup.SUPPRESS_MS)
  {
    ReachedAsTurns(s, its, events, ts);
    PassedOnTurns(TurnsUpTo(its, events, ts), serial, hash);
    NakDedup.SuppressionExact(Calls(TurnsUpTo(its, events, ts), serial), hash);
  }

  /** And the cache of a live group is what those NAKs have made of the empty one. */
  lemma NakCacheOnRun(s: State, its: seq<Iteration>, events: seq<Event>, ts: int, i: nat)
    requires Reached(s, its, events, ts) && i < |s.groups|
    ensures s.groups[i].nakCache == CacheAfter(map[], Calls(TurnsUpTo(its, events, ts), s.groups[i].serial))
  {
    ReachedAsTurns(s, its, events, ts);
    CacheOnTurns(TurnsUpTo(its, events, ts), i);
  }
}
