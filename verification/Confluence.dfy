/** REG2 handling (src/protocol/srtla_handler.cpp, register_connection): the
    order and repetition of registrations do not matter. */
module Confluence {
  import opened Net
  import opened ReceiverTypes
  import opened Registry
  import opened Receiver
  import opened ReceiverInvariants

  datatype Join = Join(addr: Address, ts: int, env: Env)

  ghost function MembersOf(conns: seq<Conn>): set<Address> {
    set k | 0 <= k < |conns| :: conns[k].addr
  }

  ghost function AddressesOf(js: seq<Join>): set<Address> {
    set k | 0 <= k < |js| :: js[k].addr
  }

  /** The receiver after a list of REG2s for one group id. */
  function JoinAll(s: State, id: Id, js: seq<Join>): State {
    if js == [] then s
    else
      var j := js[|js| - 1];
      RegisterConnection(JoinAll(s, id, js[..|js| - 1]), j.addr, id, j.ts, j.env).state
  }

  lemma {:induction false} MemberCount(conns: seq<Conn>)
    requires DistinctAddresses(conns)
    ensures |MembersOf(conns)| == |conns|
    decreases |conns|
  {
    if conns != [] {
      var n := |conns| - 1;
      MemberCount(conns[..n]);
      assert MembersOf(conns) == MembersOf(conns[..n]) + {conns[n].addr};
      assert conns[n].addr !in MembersOf(conns[..n]);
    }
  }

  lemma MemberIff(conns: seq<Conn>, a: Address)
    ensures ConnIndex(conns, a) >= 0 <==> a in MembersOf(conns)
  {
  }

  lemma JoinedMembers(g: Group, addr: Address, known: bool, ts: int)
    requires known <==> addr in MembersOf(g.conns)
    ensures MembersOf(Joined(g, addr, known, ts).conns) == MembersOf(g.conns) + {addr}
  {
    var r := Joined(g, addr, known, ts);
    if !known {
      assert r.conns == g.conns + [NewConn(addr, ts)];
      forall a | a in MembersOf(g.conns) + {addr} ensures a in MembersOf(r.conns) {
        if a == addr {
          assert r.conns[|g.conns|].addr == a;
        } else {
          var k :| 0 <= k < |g.conns| && g.conns[k].addr == a;
          assert r.conns[k].addr == a;
        }
      }
    }
  }

  /** Group i is the one the id leads to, and no other group claims the address. */
  ghost predicate Eligible(s: State, id: Id, i: nat, addr: Address) {
    && i < |s.groups| && FindById(s.groups, id) == i
    && forall l :: 0 <= l < |s.groups| && l != i ==> !Claims(s.groups[l], addr)
  }

  lemma FindByIdUpdated(gs: seq<Group>, id: Id, i: nat, g: Group, from: nat)
    requires from <= i < |gs| && FindById(gs, id, from) == i && g.id == gs[i].id
    ensures FindById(gs[i := g], id, from) == i
    decreases i - from
  {
    if from < i {
      FindByIdUpdated(gs, id, i, g, from + 1);
    }
  }

  /** One REG2 for a group with room, from an address no other group claims, is
      answered with REG3, adds the address to the members and changes nothing else. */
  lemma JoinOnce(s: State, id: Id, i: nat, j: Join)
    requires Owned(s.groups) && Eligible(s, id, i, j.addr) && j.env.sendOk
    requires |MembersOf(s.groups[i].conns) + {j.addr}| <= MAX_CONNS_PER_GROUP
    ensures var r := RegisterConnection(s, j.addr, id, j.ts, j.env);
            && r.outs == [Out(j.addr, RegThree)]
            && |r.state.groups| == |s.groups| && FindById(r.state.groups, id) == i
            && MembersOf(r.state.groups[i].conns) == MembersOf(s.groups[i].conns) + {j.addr}
            && r.state.groups == s.groups[i := r.state.groups[i]]
            && Owned(r.state.groups)
  {
    var r := FindByAddress(s.groups, j.addr);
    var g := s.groups[i];
    if r.Somebody? {
      FoundIffClaims(s.groups[r.group], j.addr);
    }
    NobodyIffUnclaimed(s.groups, j.addr);
    var known := r.Somebody? && r.conn >= 0;
    FoundIffClaims(g, j.addr);
    MemberIff(g.conns, j.addr);
    assert known <==> ConnIndex(g.conns, j.addr) >= 0;
    MemberCount(g.conns);
    JoinedMembers(g, j.addr, known, j.ts);
    JoinedClaims(g, j.addr, known, j.ts);
    var g' := Joined(g, j.addr, known, j.ts);
    FindByIdUpdated(s.groups, id, i, g', 0);
    UpdateOwned(s.groups, i, g', j.addr);
  }

  ghost predicate AllEligible(s: State, id: Id, i: nat, js: seq<Join>) {
    forall k :: 0 <= k < |js| ==> js[k].env.sendOk && Eligible(s, id, i, js[k].addr)
  }

  lemma SubsetCard(a: set<Address>, b: set<Address>)
    requires a <= b
    ensures |a| <= |b|
  {
    if a != b {
      assert b == a + (b - a);
    }
  }

  lemma AddressesSnoc(js: seq<Join>)
    requires js != []
    ensures AddressesOf(js) == AddressesOf(js[..|js| - 1]) + {js[|js| - 1].addr}
  {
    var n := |js| - 1;
    forall a | a in AddressesOf(js) ensures a in AddressesOf(js[..n]) + {js[n].addr} {
      var k :| 0 <= k < |js| && js[k].addr == a;
      assert k < n ==> js[..n][k] == js[k];
    }
  }

  /** Changing group i only leaves the others' claims as they were. */
  lemma StillEligible(s: State, r: State, id: Id, i: nat, addr: Address)
    requires Eligible(s, id, i, addr) && |r.groups| == |s.groups| && FindById(r.groups, id) == i
    requires r.groups == s.groups[i := r.groups[i]]
    ensures Eligible(r, id, i, addr)
  {
  }

  /** The members are now the old ones and these addresses; the other groups are
      as before. */
  ghost predicate JoinedTo(s: State, r: State, id: Id, i: nat, added: set<Address>) {
    && i < |r.groups| == |s.groups| && FindById(r.groups, id) == i && Owned(r.groups)
    && r.groups == s.groups[i := r.groups[i]]
    && MembersOf(r.groups[i].conns) == MembersOf(s.groups[i].conns) + added
  }

  lemma JoinNext(s: State, r: State, id: Id, i: nat, added: set<Address>, j: Join)
    requires JoinedTo(s, r, id, i, added) && Eligible(s, id, i, j.addr) && j.env.sendOk
    requires |MembersOf(s.groups[i].conns) + (added + {j.addr})| <= MAX_CONNS_PER_GROUP
    ensures var o := RegisterConnection(r, j.addr, id, j.ts, j.env);
            JoinedTo(s, o.state, id, i, added + {j.addr}) && o.outs == [Out(j.addr, RegThree)]
  {
    StillEligible(s, r, id, i, j.addr);
    assert MembersOf(r.groups[i].conns) + {j.addr} == MembersOf(s.groups[i].conns) + (added + {j.addr});
    JoinOnce(r, id, i, j);
  }

  lemma FewerJoins(members: set<Address>, js: seq<Join>, n: nat)
    requires n < |js| && |members + AddressesOf(js)| <= MAX_CONNS_PER_GROUP
    ensures |members + AddressesOf(js[..n])| <= MAX_CONNS_PER_GROUP
    ensures |members + (AddressesOf(js[..n]) + {js[n].addr})| <= MAX_CONNS_PER_GROUP
  {
    SubsetCard(members + AddressesOf(js[..n]), members + AddressesOf(js));
    SubsetCard(members + (AddressesOf(js[..n]) + {js[n].addr}), members + AddressesOf(js));
  }

  /** Any list of eligible REG2s whose addresses fit the group together leaves as
      members the old ones and those addresses, and leaves the other groups alone. */
  lemma {:induction false} JoinAllExact(s: State, id: Id, i: nat, js: seq<Join>)
    requires Owned(s.groups) && i < |s.groups| && FindById(s.groups, id) == i && AllEligible(s, id, i, js)
    requires |MembersOf(s.groups[i].conns) + AddressesOf(js)| <= MAX_CONNS_PER_GROUP
    ensures JoinedTo(s, JoinAll(s, id, js), id, i, AddressesOf(js))
    decreases |js|
  {
    if js == [] {
      assert AddressesOf(js) == {};
    } else {
      var n := |js| - 1;
      FewerJoins(MembersOf(s.groups[i].conns), js, n);
      JoinAllExact(s, id, i, js[..n]);
      AddressesSnoc(js);
      JoinNext(s, JoinAll(s, id, js[..n]), id, i, AddressesOf(js[..n]), js[n]);
    }
  }

  /** Each of them is answered with REG3. */
  lemma EveryJoinAnswered(s: State, id: Id, i: nat, js: seq<Join>, n: nat)
    requires Owned(s.groups) && i < |s.groups| && FindById(s.groups, id) == i && AllEligible(s, id, i, js)
    requires |MembersOf(s.groups[i].conns) + AddressesOf(js)| <= MAX_CONNS_PER_GROUP
    requires n < |js|
    ensures var j := js[n];
            RegisterConnection(JoinAll(s, id, js[..n]), j.addr, id, j.ts, j.env).outs == [Out(j.addr, RegThree)]
  {
    FewerJoins(MembersOf(s.groups[i].conns), js, n);
    JoinAllExact(s, id, i, js[..n]);
    JoinNext(s, JoinAll(s, id, js[..n]), id, i, AddressesOf(js[..n]), js[n]);
  }

  /** Two lists of REG2s with the same addresses, in any order and with any
      repetitions, end with the same members. */
  lemma Reg2Confluence(s: State, id: Id, i: nat, js: seq<Join>, js': seq<Join>)
    requires Owned(s.groups) && i < |s.groups| && FindById(s.groups, id) == i
    requires AllEligible(s, id, i, js) && AllEligible(s, id, i, js')
    requires AddressesOf(js) == AddressesOf(js')
    requires |MembersOf(s.groups[i].conns) + AddressesOf(js)| <= MAX_CONNS_PER_GROUP
    ensures var r, r' := JoinAll(s, id, js), JoinAll(s, id, js');
            && |r.groups| == |r'.groups| == |s.groups|
            && MembersOf(r.groups[i].conns) == MembersOf(r'.groups[i].conns)
            && forall l :: 0 <= l < |s.groups| && l != i ==> r.groups[l] == r'.groups[l] == s.groups[l]
  {
    JoinAllExact(s, id, i, js);
    JoinAllExact(s, id, i, js');
  }
}
