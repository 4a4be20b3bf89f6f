/** Cluster membership as a fold over the configuration entries of the log.

    Configuration changes take effect when appended.  A node keeps a base (the fold over the
    applied prefix) and a live membership; after a conflict truncation it rebuilds the live
    one from the base by replaying every entry still in the log, those already in the base
    included. */
module Membership {
  type Id = nat

  datatype Command = AddNode(id: Id, address: string) | RemoveNode(id: Id) | Other

  datatype Members = Members(voters: set<Id>, endpoints: map<Id, string>)

  datatype Entry = Entry(term: nat, index: nat, command: Command)

  /** `apply_config_to`; a removed node's address stays known. */
  function Apply(m: Members, c: Command): Members {
    match c
    case AddNode(id, address) => Members(m.voters + {id}, m.endpoints[id := address])
    case RemoveNode(id) => m.(voters := m.voters - {id})
    case Other => m
  }

  function Fold(m: Members, log: seq<Entry>): Members {
    if log == [] then m else Apply(Fold(m, log[..|log| - 1]), log[|log| - 1].command)
  }

  /** With no voters at all the source asks for an unreachable number; here one voter of
      none is as unreachable. */
  function Quorum(m: Members): nat { |m.voters| / 2 + 1 }

  // ---------------------------------------------------------------- replay

  lemma FoldSnoc(m: Members, log: seq<Entry>, e: Entry)
    ensures Fold(m, log + [e]) == Apply(Fold(m, log), e.command)
  {
    assert (log + [e])[..|log|] == log;
  }

  lemma {:induction false} FoldAppend(m: Members, a: seq<Entry>, b: seq<Entry>)
    ensures Fold(m, a + b) == Fold(Fold(m, a), b)
    decreases |b|
  {
    if b == [] {
      assert a + b == a;
    } else {
      var front, last := b[..|b| - 1], b[|b| - 1];
      assert a + b == (a + front) + [last];
      FoldAppend(m, a, front);
      FoldSnoc(m, a + front, last);
    }
  }

  /** Where two memberships agree, they agree after the same entries; and where an entry
      has spoken they agree anyway. */
  ghost predicate Mentioned(log: seq<Entry>, id: Id) {
    exists i :: 0 <= i < |log| && !log[i].command.Other? && log[i].command.id == id
  }

  ghost predicate Added(log: seq<Entry>, id: Id) {
    exists i :: 0 <= i < |log| && log[i].command.AddNode? && log[i].command.id == id
  }

  ghost predicate SameAt(m: Members, n: Members, id: Id) {
    && (id in m.voters <==> id in n.voters)
    && (id in m.endpoints <==> id in n.endpoints)
    && (id in m.endpoints ==> m.endpoints[id] == n.endpoints[id])
  }

  lemma {:induction false} VotersAfter(m: Members, n: Members, log: seq<Entry>, id: Id)
    requires Mentioned(log, id) || (id in m.voters <==> id in n.voters)
    ensures id in Fold(m, log).voters <==> id in Fold(n, log).voters
  {
    if log != [] {
      var front, last := log[..|log| - 1], log[|log| - 1].command;
      if last.Other? || last.id != id {
        assert Mentioned(log, id) ==> Mentioned(front, id) by {
          if i :| 0 <= i < |log| && !log[i].command.Other? && log[i].command.id == id { assert front[i] == log[i]; }
        }
        VotersAfter(m, n, front, id);
      }
    }
  }

  lemma {:induction false} EndpointAfter(m: Members, n: Members, log: seq<Entry>, id: Id)
    requires Added(log, id) || ((id in m.endpoints <==> id in n.endpoints) &&
                                (id in m.endpoints ==> m.endpoints[id] == n.endpoints[id]))
    ensures var x, y := Fold(m, log).endpoints, Fold(n, log).endpoints;
      (id in x <==> id in y) && (id in x ==> x[id] == y[id])
  {
    if log != [] {
      var front, last := log[..|log| - 1], log[|log| - 1].command;
      if !last.AddNode? || last.id != id {
        assert Added(log, id) ==> Added(front, id) by {
          if i :| 0 <= i < |log| && log[i].command.AddNode? && log[i].command.id == id { assert front[i] == log[i]; }
        }
        EndpointAfter(m, n, front, id);
      }
    }
  }

  /** Entries that do not speak of a node leave it alone. */
  lemma {:induction false} Silent(m: Members, log: seq<Entry>, id: Id)
    ensures !Mentioned(log, id) ==> (id in Fold(m, log).voters <==> id in m.voters)
    ensures !Added(log, id) ==> var x := Fold(m, log).endpoints;
      (id in x <==> id in m.endpoints) && (id in x ==> x[id] == m.endpoints[id])
  {
    if log != [] {
      var front := log[..|log| - 1];
      Silent(m, front, id);
      assert Mentioned(front, id) ==> Mentioned(log, id) by {
        if i :| 0 <= i < |front| && !front[i].command.Other? && front[i].command.id == id { assert front[i] == log[i]; }
      }
      assert Added(front, id) ==> Added(log, id) by {
        if i :| 0 <= i < |front| && front[i].command.AddNode? && front[i].command.id == id {
          assert front[i] == log[i];
        }
      }
      if !log[|log| - 1].command.Other? && log[|log| - 1].command.id == id { assert Mentioned(log, id); }
      if log[|log| - 1].command.AddNode? && log[|log| - 1].command.id == id { assert Added(log, id); }
    }
  }

  // ---------------------------------------------------------------- what the log says of a node

  predicate Names(c: Command, id: Id) {
    !c.Other? && c.id == id
  }

  predicate Adds(c: Command, id: Id) {
    c.AddNode? && c.id == id
  }

  /** Entry i is the last one that speaks of the node. */
  ghost predicate LastNaming(log: seq<Entry>, id: Id, i: int) {
    0 <= i < |log| && Names(log[i].command, id) && forall j :: i < j < |log| ==> !Names(log[j].command, id)
  }

  ghost predicate LastAdding(log: seq<Entry>, id: Id, i: int) {
    0 <= i < |log| && Adds(log[i].command, id) && forall j :: i < j < |log| ==> !Adds(log[j].command, id)
  }

  /** The last entry that speaks of the node adds it, or none does and it voted already. */
  ghost predicate IsVoter(m: Members, log: seq<Entry>, id: Id) {
    || (exists i :: LastNaming(log, id, i) && log[i].command.AddNode?)
    || (id in m.voters && forall i :: 0 <= i < |log| ==> !Names(log[i].command, id))
  }

  /** The address in the last entry that adds the node, or the one known already. */
  ghost predicate HasAddress(m: Members, log: seq<Entry>, id: Id, address: string) {
    || (exists i :: LastAdding(log, id, i) && log[i].command.address == address)
    || (&& id in m.endpoints && m.endpoints[id] == address
        && forall i :: 0 <= i < |log| ==> !Adds(log[i].command, id))
  }

  /** Who votes after a log, read off the log itself. */
  lemma {:induction false} VotersExactly(m: Members, log: seq<Entry>, id: Id)
    ensures id in Fold(m, log).voters <==> IsVoter(m, log, id)
  {
    if log != [] {
      var front, n := log[..|log| - 1], |log| - 1;
      VotersExactly(m, front, id);
      if Names(log[n].command, id) {
        assert LastNaming(log, id, n);
      } else {
        forall i ensures LastNaming(log, id, i) <==> LastNaming(front, id, i) {
          assert 0 <= i < n ==> front[i] == log[i];
        }
        assert forall i :: 0 <= i < n ==> front[i] == log[i];
      }
    }
  }

  /** Which address is known after a log, read off the log itself. */
  lemma {:induction false} AddressesExactly(m: Members, log: seq<Entry>, id: Id, address: string)
    ensures (id in Fold(m, log).endpoints && Fold(m, log).endpoints[id] == address) <==> HasAddress(m, log, id, address)
  {
    if log != [] {
      var front, n := log[..|log| - 1], |log| - 1;
      AddressesExactly(m, front, id, address);
      if Adds(log[n].command, id) {
        assert LastAdding(log, id, n);
      } else {
        forall i ensures LastAdding(log, id, i) <==> LastAdding(front, id, i) {
          assert 0 <= i < n ==> front[i] == log[i];
        }
        assert forall i :: 0 <= i < n ==> front[i] == log[i];
      }
    }
  }

  /** The members say what the log says, starting from `m`. */
  ghost predicate Reflects(now: Members, m: Members, log: seq<Entry>) {
    && (forall id :: id in now.voters <==> IsVoter(m, log, id))
    && (forall id, address ::
          (id in now.endpoints && now.endpoints[id] == address) <==> HasAddress(m, log, id, address))
  }

  lemma FoldReflects(m: Members, log: seq<Entry>)
    ensures Reflects(Fold(m, log), m, log)
  {
    forall id ensures id in Fold(m, log).voters <==> IsVoter(m, log, id) { VotersExactly(m, log, id); }
    forall id, address
      ensures (id in Fold(m, log).endpoints && Fold(m, log).endpoints[id] == address) <==>
              HasAddress(m, log, id, address)
    {
      AddressesExactly(m, log, id, address);
    }
  }

  // ---------------------------------------------------------------- replaying twice

  /** Applying the same entries a second time changes nothing. */
  lemma ReplayTwice(m: Members, log: seq<Entry>)
    ensures Fold(Fold(m, log), log) == Fold(m, log)
  {
    var once, twice := Fold(m, log), Fold(Fold(m, log), log);
    forall id ensures SameAt(once, twice, id) {
      Silent(m, log, id);
      VotersAfter(m, once, log, id);
      EndpointAfter(m, once, log, id);
    }
    SameEverywhere(once, twice);
  }

  lemma SameEverywhere(m: Members, n: Members)
    requires forall id :: SameAt(m, n, id)
    ensures m == n
  {
    assert m.voters == n.voters by {
      forall id ensures id in m.voters <==> id in n.voters { assert SameAt(m, n, id); }
    }
    assert m.endpoints == n.endpoints by {
      forall id ensures id in m.endpoints <==> id in n.endpoints { assert SameAt(m, n, id); }
      forall id | id in m.endpoints ensures m.endpoints[id] == n.endpoints[id] { assert SameAt(m, n, id); }
    }
  }

  /** Rebuilding from the base of the applied prefix by replaying everything after the
      snapshot gives the fold of the whole log, although the entries between snapshot and
      applied index are applied twice. */
  lemma RebuildIsExact(start: Members, log: seq<Entry>, snapshot: nat, applied: nat)
    requires snapshot <= applied <= |log|
    ensures Fold(Fold(start, log[..applied]), log[snapshot..]) == Fold(start, log)
  {
    var a, b, c := log[..snapshot], log[snapshot..applied], log[applied..];
    assert log[..applied] == a + b && log[snapshot..] == b + c && log == (a + b) + c;
    FoldAppend(start, a, b);
    FoldAppend(Fold(start, a + b), b, c);
    FoldAppend(start, a + b, c);
    ReplayTwice(Fold(start, a), b);
  }

  // ---------------------------------------------------------------- majorities

  lemma Disjoint(a: set<Id>, b: set<Id>, all: set<Id>)
    requires a <= all && b <= all && a * b == {}
    ensures |a| + |b| <= |all|
  {
    assert |a + b| == |a| + |b|;
    assert all == (a + b) + (all - (a + b));
  }

  /** Enough votes are those that outnumber all others. */
  lemma QuorumIsMajority(m: Members, q: set<Id>)
    requires q <= m.voters
    ensures |q| >= Quorum(m) <==> |q| > |m.voters - q|
  {
    assert |m.voters - q| == |m.voters| - |q|;
  }

  /** Majorities before and after one configuration change share a voter. */
  lemma MajoritiesOverlap(m: Members, c: Command, a: set<Id>, b: set<Id>)
    requires a <= m.voters && |a| >= Quorum(m)
    requires b <= Apply(m, c).voters && |b| >= Quorum(Apply(m, c))
    ensures exists v :: v in a && v in b
  {
    var n := Apply(m, c);
    var all := m.voters + n.voters;
    assert |all| <= |m.voters| + 1 && |all| <= |n.voters| + 1 && (|all| == |m.voters| || |all| == |n.voters|) by {
      match c
      case AddNode(id, _) => assert all == m.voters + {id} == n.voters;
      case RemoveNode(id) => assert all == m.voters; assert m.voters <= n.voters + {id};
        if id in m.voters { assert m.voters == n.voters + {id}; } else { assert m.voters == n.voters; }
      case Other => assert all == m.voters;
    }
    if a * b == {} {
      Disjoint(a, b, all);
      assert false;
    }
    var v :| v in a * b;
  }
}
