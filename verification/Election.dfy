/** Leader election among a fixed set of voters, as a state machine over handlers and
    messages.  Messages are never taken out of `msgs`: a message that is not delivered is
    lost, one delivered late is delayed, one delivered twice is duplicated.

    `grants` and `elected` are history: every vote ever given (a candidate's own included)
    and every promotion to leader with the votes it rested on. */
module Election {
  import opened Keys

  type Id = nat

  datatype Role = Follower | Candidate | Leader

  datatype Node = Node(term: nat, role: Role, votedFor: Option<Id>)

  datatype Message =
    | RequestVote(term: nat, candidate: Id, to: Id)
    | VoteReply(term: nat, granted: bool, voter: Id, candidate: Id)
    | AppendEntries(term: nat, leader: Id, to: Id)      // or InstallSnapshot: both come from a leader

  datatype RoundId = RoundId(node: Id, term: nat)
  datatype Round = Round(votes: set<Id>, won: bool)
  datatype Grant = Grant(voter: Id, term: nat, candidate: Id)
  datatype Win = Win(term: nat, id: Id, quorum: set<Id>)

  datatype State = State(
    nodes: map<Id, Node>, msgs: set<Message>, rounds: map<RoundId, Round>, grants: set<Grant>, elected: set<Win>)

  // ---------------------------------------------------------------- handlers of one node

  /** `become_follower`: the vote goes, even when the term stays. */
  function BecomeFollower(term: nat): Node { Node(term, Follower, None) }

  function Started(n: Node, self: Id): Node { Node(n.term + 1, Candidate, Some(self)) }

  /** `handle_request_vote`: new state and whether the vote was granted. */
  function Vote(n: Node, term: nat, candidate: Id, logOk: bool): (Node, bool) {
    if term < n.term then (n, false)
    else
      var m := if term > n.term then BecomeFollower(term) else n;
      if logOk && (m.votedFor == None || m.votedFor == Some(candidate))
      then (m.(votedFor := Some(candidate)), true) else (m, false)
  }

  /** The term handling of `handle_append_entries`. */
  function Heard(n: Node, term: nat): Node {
    if term < n.term then n
    else if term > n.term || n.role != Follower then BecomeFollower(term)
    else n
  }

  /** The term handling of `handle_install_snapshot`: unlike `Heard`, it clears the vote of
      a follower of the same term. */
  function SnapshotReceived(n: Node, term: nat): Node {
    if term < n.term then n else BecomeFollower(term)
  }

  /** A snapshot of that term does not find the vote that its sender was elected with. */
  predicate SnapshotSpares(n: Node, term: nat, leader: Id) {
    term == n.term ==> n.votedFor != Some(leader)
  }

  function SteppedDown(n: Node, term: nat): Node {
    if term > n.term then BecomeFollower(term) else n
  }

  function Quorum(voters: set<Id>): nat { |voters| / 2 + 1 }

  /** `record_vote_granted`, for the node and round it is called on. */
  function Recorded(n: Node, r: Round, term: nat, voter: Id, voters: set<Id>): Round {
    if n.role != Candidate || n.term != term || voter !in voters then r
    else Round(r.votes + {voter}, r.won || |r.votes + {voter}| + 1 >= Quorum(voters))
  }

  predicate MayLead(n: Node, term: nat) { n.term == term && n.role == Candidate }

  // ---------------------------------------------------------------- steps of the cluster

  datatype Action =
    | StartElection(n: Id)
    | HandleVote(n: Id, term: nat, candidate: Id, logOk: bool)
    | RecordVote(n: Id, term: nat, voter: Id)
    | BecomeLeader(n: Id, term: nat)
    | SendAppend(n: Id, to: Id)
    | HandleAppend(n: Id, term: nat, leader: Id)
    | HandleSnapshot(n: Id, term: nat, leader: Id)
    | StepDown(n: Id, term: nat)          // a higher term seen in any response

  ghost predicate Step(voters: set<Id>, s: State, a: Action, s': State) {
    a.n in s.nodes &&
    var node := s.nodes[a.n];
    match a
    case StartElection(n) =>
      s' == s.(nodes := s.nodes[n := Started(node, n)],
               msgs := s.msgs + (set p | p in voters - {n} :: RequestVote(node.term + 1, n, p)),
               rounds := s.rounds[RoundId(n, node.term + 1) := Round({}, false)],
               grants := s.grants + {Grant(n, node.term + 1, n)})
    case HandleVote(n, term, c, logOk) =>
      && RequestVote(term, c, n) in s.msgs
      && var (m, ok) := Vote(node, term, c, logOk);
         s' == s.(nodes := s.nodes[n := m],
                  msgs := s.msgs + {VoteReply(m.term, ok, n, c)},
                  grants := if ok then s.grants + {Grant(n, m.term, c)} else s.grants)
    case RecordVote(n, term, v) =>
      && VoteReply(term, true, v, n) in s.msgs && RoundId(n, term) in s.rounds
      && s' == s.(rounds := s.rounds[RoundId(n, term) := Recorded(node, s.rounds[RoundId(n, term)], term, v, voters)])
    case BecomeLeader(n, term) =>
      && RoundId(n, term) in s.rounds && (s.rounds[RoundId(n, term)].won || voters == {n})
      && s' == if MayLead(node, term)
               then s.(nodes := s.nodes[n := node.(role := Leader)],
                       elected := s.elected + {Win(term, n, s.rounds[RoundId(n, term)].votes + {n})})
               else s
    case SendAppend(n, to) =>
      node.role == Leader && to != n && s' == s.(msgs := s.msgs + {AppendEntries(node.term, n, to)})
    case HandleAppend(n, term, l) =>
      AppendEntries(term, l, n) in s.msgs && s' == s.(nodes := s.nodes[n := Heard(node, term)])
    case HandleSnapshot(n, term, l) =>
      AppendEntries(term, l, n) in s.msgs && s' == s.(nodes := s.nodes[n := SnapshotReceived(node, term)])
    case StepDown(n, term) =>
      s' == s.(nodes := s.nodes[n := SteppedDown(node, term)])
  }

  ghost predicate Initial(voters: set<Id>, s: State) {
    && s.nodes.Keys == voters && (forall n :: n in s.nodes ==> s.nodes[n] == Node(0, Follower, None))
    && s.msgs == {} && s.rounds == map[] && s.grants == {} && s.elected == {}
  }

  ghost predicate Path(voters: set<Id>, ss: seq<State>, acts: seq<Action>) {
    && |ss| == |acts| + 1
    && forall i {:trigger acts[i]} :: 0 <= i < |acts| ==> Step(voters, ss[i], acts[i], ss[i + 1])
  }

  predicate Sparing(s: State, a: Action) {
    a.HandleSnapshot? && a.n in s.nodes ==> SnapshotSpares(s.nodes[a.n], a.term, a.leader)
  }

  /** A run from the start in which every snapshot spares the vote for its sender. */
  ghost predicate Run(voters: set<Id>, ss: seq<State>, acts: seq<Action>) {
    && Path(voters, ss, acts) && Initial(voters, ss[0])
    && forall i {:trigger acts[i]} :: 0 <= i < |acts| ==> Sparing(ss[i], acts[i])
  }

  // ---------------------------------------------------------------- invariant

  predicate NoWin(elected: set<Win>, term: nat) {
    forall w :: w in elected ==> w.term != term
  }

  ghost predicate GrantTimely(nodes: map<Id, Node>, g: Grant) {
    g.voter in nodes && g.term <= nodes[g.voter].term
  }

  /** Until a term has a leader, a voter still holds the vote it gave in it... */
  ghost predicate GrantHeld(nodes: map<Id, Node>, elected: set<Win>, g: Grant) {
    g.voter in nodes && nodes[g.voter].term == g.term && NoWin(elected, g.term) ==>
      nodes[g.voter].votedFor == Some(g.candidate)
  }

  /** ... and gave no other. */
  ghost predicate GrantSingle(elected: set<Win>, g: Grant, h: Grant) {
    g.voter == h.voter && g.term == h.term && NoWin(elected, g.term) ==> g == h
  }

  ghost predicate GrantsOk(nodes: map<Id, Node>, grants: set<Grant>, elected: set<Win>) {
    && (forall g :: g in grants ==> GrantTimely(nodes, g))
    && (forall g :: g in grants ==> GrantHeld(nodes, elected, g))
    && (forall g, h :: g in grants && h in grants ==> GrantSingle(elected, g, h))
  }

  ghost predicate VotesOk(nodes: map<Id, Node>, grants: set<Grant>) {
    forall n :: n in nodes ==>
      && (nodes[n].votedFor.Some? ==> Grant(n, nodes[n].term, nodes[n].votedFor.value) in grants)
      && (nodes[n].role == Candidate ==> nodes[n].votedFor == Some(n))
  }

  /** The voters behind a leader never voted for anyone else in its term, and while they
      are in that term they hold on to that vote. */
  ghost predicate WinOk(nodes: map<Id, Node>, grants: set<Grant>, w: Win, voters: set<Id>) {
    && w.id in w.quorum && w.quorum <= voters && |w.quorum| >= Quorum(voters)
    && (forall g :: g in grants && g.voter in w.quorum && g.term == w.term ==> g.candidate == w.id)
    && (forall v :: v in w.quorum ==> Locked(nodes, w, v))
  }

  ghost predicate Locked(nodes: map<Id, Node>, w: Win, v: Id) {
    && v in nodes && w.term <= nodes[v].term
    && (nodes[v].term == w.term ==>
          nodes[v].votedFor == Some(w.id) && nodes[v].role == if v == w.id then Leader else Follower)
  }

  ghost predicate WinsOk(nodes: map<Id, Node>, grants: set<Grant>, elected: set<Win>, voters: set<Id>) {
    forall w :: w in elected ==> WinOk(nodes, grants, w, voters)
  }

  predicate HasWin(elected: set<Win>, term: nat, id: Id) {
    exists w :: w in elected && w.term == term && w.id == id
  }

  ghost predicate LeadersOk(nodes: map<Id, Node>, elected: set<Win>) {
    forall n :: n in nodes && nodes[n].role == Leader ==> HasWin(elected, nodes[n].term, n)
  }

  ghost predicate MessageOk(m: Message, grants: set<Grant>, elected: set<Win>) {
    match m
    case RequestVote(_, c, to) => c != to
    case VoteReply(term, granted, v, c) => v != c && (granted ==> Grant(v, term, c) in grants)
    case AppendEntries(term, l, to) => l != to && HasWin(elected, term, l)
  }

  ghost predicate MessagesOk(msgs: set<Message>, grants: set<Grant>, elected: set<Win>) {
    forall m :: m in msgs ==> MessageOk(m, grants, elected)
  }

  ghost predicate RoundOk(id: RoundId, r: Round, grants: set<Grant>, voters: set<Id>) {
    && id.node !in r.votes && id.node in voters && r.votes <= voters && Grant(id.node, id.term, id.node) in grants
    && (forall v :: v in r.votes ==> Grant(v, id.term, id.node) in grants)
    && (r.won ==> |r.votes| + 1 >= Quorum(voters))
  }

  ghost predicate RoundsOk(rounds: map<RoundId, Round>, grants: set<Grant>, voters: set<Id>) {
    forall id :: id in rounds ==> RoundOk(id, rounds[id], grants, voters)
  }

  ghost predicate OnePerTerm(elected: set<Win>) {
    forall w, x :: w in elected && x in elected && w.term == x.term ==> w.id == x.id
  }

  ghost predicate Inv(voters: set<Id>, s: State) {
    && s.nodes.Keys == voters
    && GrantsOk(s.nodes, s.grants, s.elected)
    && VotesOk(s.nodes, s.grants)
    && WinsOk(s.nodes, s.grants, s.elected, voters)
    && LeadersOk(s.nodes, s.elected)
    && MessagesOk(s.msgs, s.grants, s.elected)
    && RoundsOk(s.rounds, s.grants, voters)
    && OnePerTerm(s.elected)
  }

  // ---------------------------------------------------------------- quorums

  lemma Intersect(voters: set<Id>, a: set<Id>, b: set<Id>) returns (v: Id)
    requires a <= voters && b <= voters && |a| >= Quorum(voters) && |b| >= Quorum(voters)
    ensures v in a && v in b
  {
    if a * b == {} {
      Sizes(a, b, voters);
      assert false;
    }
    v :| v in a * b;
  }

  lemma Sizes(a: set<Id>, b: set<Id>, all: set<Id>)
    requires a <= all && b <= all && a * b == {}
    ensures |a| + |b| <= |all|
  {
    assert |a + b| == |a| + |b|;
    Subset(a + b, all);
  }

  lemma Subset(a: set<Id>, b: set<Id>)
    requires a <= b
    ensures |a| <= |b|
  {
    assert b == a + (b - a);
  }

  /** Enough votes are those that outnumber all others. */
  lemma QuorumIsMajority(voters: set<Id>, q: set<Id>)
    requires q <= voters
    ensures |q| >= Quorum(voters) <==> |q| > |voters - q|
  {
    assert |voters - q| == |voters| - |q|;
  }

  // ---------------------------------------------------------------- steps keep the invariant

  ghost predicate NodesOk(voters: set<Id>, nodes: map<Id, Node>, grants: set<Grant>, elected: set<Win>) {
    GrantsOk(nodes, grants, elected) && VotesOk(nodes, grants) && WinsOk(nodes, grants, elected, voters) &&
    LeadersOk(nodes, elected)
  }

  /** Node n becomes m; `extra` is the vote it gives by doing so, if any. */
  ghost predicate Change(nodes: map<Id, Node>, n: Id, m: Node, extra: set<Grant>) {
    && n in nodes && nodes[n].term <= m.term
    && (forall g :: g in extra ==> g.voter == n && g.term == m.term && m.votedFor == Some(g.candidate))
  }

  lemma GrantsKept(nodes: map<Id, Node>, grants: set<Grant>, elected: set<Win>, n: Id, m: Node, extra: set<Grant>)
    requires GrantsOk(nodes, grants, elected) && Change(nodes, n, m, extra)
    requires nodes[n].term == m.term && NoWin(elected, m.term) ==>
      nodes[n].votedFor == m.votedFor || nodes[n].votedFor == None
    ensures GrantsOk(nodes[n := m], grants + extra, elected)
  {
    forall g | g in grants + extra
      ensures GrantTimely(nodes[n := m], g) && GrantHeld(nodes[n := m], elected, g)
    {
      if g !in extra { assert GrantTimely(nodes, g) && GrantHeld(nodes, elected, g); }
    }
    forall g, h | g in grants + extra && h in grants + extra ensures GrantSingle(elected, g, h) {
      if g in grants { assert GrantTimely(nodes, g) && GrantHeld(nodes, elected, g); }
      if h in grants { assert GrantTimely(nodes, h) && GrantHeld(nodes, elected, h); }
      if g in grants && h in grants { assert GrantSingle(elected, g, h); }
    }
  }

  lemma WinsKept(voters: set<Id>, nodes: map<Id, Node>, grants: set<Grant>, elected: set<Win>, n: Id, m: Node,
                 extra: set<Grant>)
    requires WinsOk(nodes, grants, elected, voters) && Change(nodes, n, m, extra)
    requires forall w :: w in elected && w.term == m.term && n in w.quorum ==> m == nodes[n]
    ensures WinsOk(nodes[n := m], grants + extra, elected, voters)
  {
    forall w | w in elected ensures WinOk(nodes[n := m], grants + extra, w, voters) {
      assert WinOk(nodes, grants, w, voters);
      forall v | v in w.quorum ensures Locked(nodes[n := m], w, v) { assert Locked(nodes, w, v); }
      forall g | g in grants + extra && g.voter in w.quorum && g.term == w.term ensures g.candidate == w.id {
        assert Locked(nodes, w, g.voter);
      }
    }
  }

  /** The term goes up, with or without a vote in the new term. */
  lemma RaiseKeeps(voters: set<Id>, nodes: map<Id, Node>, grants: set<Grant>, elected: set<Win>, n: Id, m: Node,
                   extra: set<Grant>)
    requires NodesOk(voters, nodes, grants, elected) && Change(nodes, n, m, extra)
    requires nodes[n].term < m.term && m.role != Leader && (m.role == Candidate ==> m.votedFor == Some(n))
    requires m.votedFor.Some? ==> Grant(n, m.term, m.votedFor.value) in extra
    ensures NodesOk(voters, nodes[n := m], grants + extra, elected)
  {
    forall w | w in elected && w.term == m.term ensures n !in w.quorum {
    }
    GrantsKept(nodes, grants, elected, n, m, extra);
    WinsKept(voters, nodes, grants, elected, n, m, extra);
  }

  /** A node gives the vote it had not given. */
  lemma VoteKeeps(voters: set<Id>, nodes: map<Id, Node>, grants: set<Grant>, elected: set<Win>, n: Id, c: Id)
    requires NodesOk(voters, nodes, grants, elected) && n in nodes && nodes[n].votedFor == None
    ensures NodesOk(voters, nodes[n := nodes[n].(votedFor := Some(c))], grants + {Grant(n, nodes[n].term, c)}, elected)
  {
    var m, extra := nodes[n].(votedFor := Some(c)), {Grant(n, nodes[n].term, c)};
    forall w | w in elected && w.term == m.term ensures n !in w.quorum {
    }
    GrantsKept(nodes, grants, elected, n, m, extra);
    WinsKept(voters, nodes, grants, elected, n, m, extra);
  }

  /** Forgetting a vote inside a term is harmless once the term has a leader and the vote was
      for somebody else: the leader's voters all voted for it. */
  lemma ForgetKeeps(voters: set<Id>, nodes: map<Id, Node>, grants: set<Grant>, elected: set<Win>, n: Id, l: Id)
    requires NodesOk(voters, nodes, grants, elected) && OnePerTerm(elected) && n in nodes
    requires nodes[n].votedFor != Some(l) && HasWin(elected, nodes[n].term, l)
    ensures NodesOk(voters, nodes[n := BecomeFollower(nodes[n].term)], grants, elected)
  {
    var m := BecomeFollower(nodes[n].term);
    forall w | w in elected && w.term == m.term ensures n !in w.quorum {
      assert w.id == l;
    }
    GrantsKept(nodes, grants, elected, n, m, {});
    WinsKept(voters, nodes, grants, elected, n, m, {});
    assert grants + {} == grants;
  }

  /** Enough votes for `n` in a term that has a leader: the two sets of voters share one,
      whose vote names that leader. */
  lemma SameWinner(voters: set<Id>, nodes: map<Id, Node>, grants: set<Grant>, w: Win, n: Id, q: set<Id>)
    requires WinOk(nodes, grants, w, voters) && q <= voters && |q| >= Quorum(voters)
    requires forall v :: v in q ==> Grant(v, w.term, n) in grants
    ensures n == w.id
  {
    var v := Intersect(voters, w.quorum, q);
    assert Grant(v, w.term, n) in grants;
  }

  /** A candidate with enough votes is the first of its term. */
  lemma NobodyWonYet(voters: set<Id>, nodes: map<Id, Node>, grants: set<Grant>, elected: set<Win>, n: Id, q: set<Id>)
    requires WinsOk(nodes, grants, elected, voters) && n in nodes && nodes[n].role == Candidate
    requires q <= voters && |q| >= Quorum(voters) && forall v :: v in q ==> Grant(v, nodes[n].term, n) in grants
    ensures NoWin(elected, nodes[n].term)
  {
    forall w | w in elected ensures w.term != nodes[n].term {
      if w.term == nodes[n].term {
        SameWinner(voters, nodes, grants, w, n, q);
      }
    }
  }

  lemma LeadKeeps(voters: set<Id>, nodes: map<Id, Node>, grants: set<Grant>, elected: set<Win>, n: Id, q: set<Id>)
    requires NodesOk(voters, nodes, grants, elected) && n in nodes && nodes[n].role == Candidate
    requires NoWin(elected, nodes[n].term) && n in q && q <= voters && |q| >= Quorum(voters)
    requires forall v :: v in q ==> Grant(v, nodes[n].term, n) in grants
    ensures NodesOk(voters, nodes[n := nodes[n].(role := Leader)], grants, elected + {Win(nodes[n].term, n, q)})
  {
    var w, nodes', elected' := Win(nodes[n].term, n, q), nodes[n := nodes[n].(role := Leader)],
        elected + {Win(nodes[n].term, n, q)};
    assert w in elected';
    LeadWin(voters, nodes, grants, elected, n, q);
    LeadOthers(voters, nodes, grants, elected, n);
    forall m | m in nodes' && nodes'[m].role == Leader ensures HasWin(elected', nodes'[m].term, m) {
      if m != n { assert HasWin(elected, nodes[m].term, m); }
    }
    LeadGrants(nodes, grants, elected, n, w);
  }

  /** The new leader's own voters. */
  lemma LeadWin(voters: set<Id>, nodes: map<Id, Node>, grants: set<Grant>, elected: set<Win>, n: Id, q: set<Id>)
    requires GrantsOk(nodes, grants, elected) && VotesOk(nodes, grants) && LeadersOk(nodes, elected)
    requires n in nodes && nodes[n].role == Candidate
    requires NoWin(elected, nodes[n].term) && n in q && q <= voters && |q| >= Quorum(voters)
    requires forall v :: v in q ==> Grant(v, nodes[n].term, n) in grants
    ensures WinOk(nodes[n := nodes[n].(role := Leader)], grants, Win(nodes[n].term, n, q), voters)
  {
    var w, nodes' := Win(nodes[n].term, n, q), nodes[n := nodes[n].(role := Leader)];
    forall v | v in q ensures Locked(nodes', w, v) {
      var g := Grant(v, w.term, n);
      assert g in grants && GrantTimely(nodes, g) && GrantHeld(nodes, elected, g);
    }
    forall g | g in grants && g.voter in q && g.term == w.term ensures g.candidate == n {
      assert GrantSingle(elected, g, Grant(g.voter, w.term, n));
    }
  }

  lemma LeadOthers(voters: set<Id>, nodes: map<Id, Node>, grants: set<Grant>, elected: set<Win>, n: Id)
    requires WinsOk(nodes, grants, elected, voters) && n in nodes && NoWin(elected, nodes[n].term)
    ensures WinsOk(nodes[n := nodes[n].(role := Leader)], grants, elected, voters)
  {
    var nodes' := nodes[n := nodes[n].(role := Leader)];
    forall x | x in elected ensures WinOk(nodes', grants, x, voters) {
      forall v | v in x.quorum ensures Locked(nodes', x, v) { assert Locked(nodes, x, v); }
    }
  }

  lemma LeadGrants(nodes: map<Id, Node>, grants: set<Grant>, elected: set<Win>, n: Id, w: Win)
    requires GrantsOk(nodes, grants, elected) && n in nodes
    ensures GrantsOk(nodes[n := nodes[n].(role := Leader)], grants, elected + {w})
  {
    forall t | NoWin(elected + {w}, t) ensures NoWin(elected, t) {}
    forall g | g in grants
      ensures GrantTimely(nodes[n := nodes[n].(role := Leader)], g)
      ensures GrantHeld(nodes[n := nodes[n].(role := Leader)], elected + {w}, g)
    {
      assert GrantTimely(nodes, g) && GrantHeld(nodes, elected, g);
    }
    forall g, h | g in grants && h in grants ensures GrantSingle(elected + {w}, g, h) {
      assert GrantSingle(elected, g, h);
    }
  }

  lemma MoreIsOk(msgs: set<Message>, rounds: map<RoundId, Round>, grants: set<Grant>, elected: set<Win>,
                 grants': set<Grant>, elected': set<Win>, voters: set<Id>)
    requires MessagesOk(msgs, grants, elected) && RoundsOk(rounds, grants, voters)
    requires grants <= grants' && elected <= elected'
    ensures MessagesOk(msgs, grants', elected') && RoundsOk(rounds, grants', voters)
  {
    forall m | m in msgs ensures MessageOk(m, grants', elected') {
      if m.AppendEntries? {
        var w :| w in elected && w.term == m.term && w.id == m.leader;
        assert w in elected';
      }
    }
  }

  lemma VoteStepKeeps(voters: set<Id>, s: State, a: Action, s': State)
    requires Inv(voters, s) && Step(voters, s, a, s') && a.HandleVote?
    ensures Inv(voters, s')
  {
    var n, node := a.n, s.nodes[a.n];
    var (m, ok) := Vote(node, a.term, a.candidate, a.logOk);
    if a.term > node.term {
      var extra := if ok then {Grant(n, m.term, a.candidate)} else {};
      RaiseKeeps(voters, s.nodes, s.grants, s.elected, n, m, extra);
      assert s'.grants == s.grants + extra;
    } else if ok && node.votedFor == None {
      VoteKeeps(voters, s.nodes, s.grants, s.elected, n, a.candidate);
    } else {
      assert s'.grants == s.grants && s'.nodes == s.nodes;
    }
    MoreIsOk(s.msgs, s.rounds, s.grants, s.elected, s'.grants, s'.elected, voters);
    assert MessageOk(RequestVote(a.term, a.candidate, n), s.grants, s.elected);
  }

  lemma StartStepKeeps(voters: set<Id>, s: State, a: Action, s': State)
    requires Inv(voters, s) && Step(voters, s, a, s') && a.StartElection?
    ensures Inv(voters, s')
  {
    var m := Started(s.nodes[a.n], a.n);
    RaiseKeeps(voters, s.nodes, s.grants, s.elected, a.n, m, {Grant(a.n, m.term, a.n)});
    MoreIsOk(s.msgs, s.rounds, s.grants, s.elected, s'.grants, s'.elected, voters);
  }

  lemma LeadStepKeeps(voters: set<Id>, s: State, a: Action, s': State)
    requires Inv(voters, s) && Step(voters, s, a, s') && a.BecomeLeader?
    ensures Inv(voters, s')
  {
    if MayLead(s.nodes[a.n], a.term) {
      var round := s.rounds[RoundId(a.n, a.term)];
      var q := round.votes + {a.n};
      RoundQuorum(RoundId(a.n, a.term), round, s.grants, voters);
      NobodyWonYet(voters, s.nodes, s.grants, s.elected, a.n, q);
      LeadKeeps(voters, s.nodes, s.grants, s.elected, a.n, q);
      MoreIsOk(s.msgs, s.rounds, s.grants, s.elected, s.grants, s.elected + {Win(a.term, a.n, q)}, voters);
      OneMoreWin(s.elected, Win(a.term, a.n, q));
    }
  }

  lemma RoundQuorum(id: RoundId, r: Round, grants: set<Grant>, voters: set<Id>)
    requires RoundOk(id, r, grants, voters) && (r.won || voters == {id.node})
    ensures var q := r.votes + {id.node};
      q <= voters && |q| >= Quorum(voters) && forall v :: v in q ==> Grant(v, id.term, id.node) in grants
  {
    assert |r.votes + {id.node}| == |r.votes| + 1;
  }

  lemma OneMoreWin(elected: set<Win>, w: Win)
    requires OnePerTerm(elected) && NoWin(elected, w.term)
    ensures OnePerTerm(elected + {w})
  {
  }

  lemma RecordedOk(id: RoundId, n: Node, r: Round, v: Id, grants: set<Grant>, voters: set<Id>)
    requires RoundOk(id, r, grants, voters) && v != id.node && Grant(v, id.term, id.node) in grants
    ensures RoundOk(id, Recorded(n, r, id.term, v, voters), grants, voters)
  {
    Subset(r.votes, r.votes + {v});
  }

  lemma RecordStepKeeps(voters: set<Id>, s: State, a: Action, s': State)
    requires Inv(voters, s) && Step(voters, s, a, s') && a.RecordVote?
    ensures Inv(voters, s')
  {
    var id := RoundId(a.n, a.term);
    assert MessageOk(VoteReply(a.term, true, a.voter, a.n), s.grants, s.elected);
    RecordedOk(id, s.nodes[a.n], s.rounds[id], a.voter, s.grants, voters);
  }

  lemma HearStepKeeps(voters: set<Id>, s: State, a: Action, s': State)
    requires Inv(voters, s) && Step(voters, s, a, s') && (a.HandleAppend? || a.HandleSnapshot? || a.StepDown?)
    requires Sparing(s, a)
    ensures Inv(voters, s')
  {
    var node := s.nodes[a.n];
    if a.term > node.term {
      RaiseKeeps(voters, s.nodes, s.grants, s.elected, a.n, BecomeFollower(a.term), {});
      assert s.grants + {} == s.grants;
    } else if !a.StepDown? && a.term == node.term && (node.role != Follower || a.HandleSnapshot?) {
      assert MessageOk(AppendEntries(a.term, a.leader, a.n), s.grants, s.elected);
      if a.HandleAppend? { OtherVote(voters, s.nodes, s.grants, s.elected, a.n, a.leader); }
      ForgetKeeps(voters, s.nodes, s.grants, s.elected, a.n, a.leader);
    } else {
      assert s'.nodes == s.nodes;
    }
  }

  /** A node that stands, or leads, in a term that another node leads did not vote for that node. */
  lemma OtherVote(voters: set<Id>, nodes: map<Id, Node>, grants: set<Grant>, elected: set<Win>, n: Id, l: Id)
    requires NodesOk(voters, nodes, grants, elected) && OnePerTerm(elected) && n in nodes
    requires nodes[n].role != Follower && l != n && HasWin(elected, nodes[n].term, l)
    ensures nodes[n].votedFor != Some(l)
  {
    forall m | m in nodes && nodes[m].role == Leader && nodes[m].term == nodes[n].term ensures m == l {
      assert HasWin(elected, nodes[m].term, m);
    }
  }

  lemma StepKeepsInv(voters: set<Id>, s: State, a: Action, s': State)
    requires Inv(voters, s) && Step(voters, s, a, s') && Sparing(s, a)
    ensures Inv(voters, s')
  {
    match a
    case StartElection(_) => StartStepKeeps(voters, s, a, s');
    case HandleVote(_, _, _, _) => VoteStepKeeps(voters, s, a, s');
    case BecomeLeader(_, _) => LeadStepKeeps(voters, s, a, s');
    case HandleAppend(_, _, _) => HearStepKeeps(voters, s, a, s');
    case HandleSnapshot(_, _, _) => HearStepKeeps(voters, s, a, s');
    case StepDown(_, _) => HearStepKeeps(voters, s, a, s');
    case RecordVote(_, _, _) => RecordStepKeeps(voters, s, a, s');
    case SendAppend(n, to) => assert HasWin(s.elected, s.nodes[n].term, n);
  }

  lemma {:induction false} RunKeepsInv(voters: set<Id>, ss: seq<State>, acts: seq<Action>, i: nat)
    requires Run(voters, ss, acts) && i < |ss|
    ensures Inv(voters, ss[i])
    decreases i
  {
    if i > 0 {
      RunKeepsInv(voters, ss, acts, i - 1);
      var a := acts[i - 1];
      StepKeepsInv(voters, ss[i - 1], a, ss[i]);
    }
  }

  // ---------------------------------------------------------------- main results

  lemma {:induction false} ElectedGrows(voters: set<Id>, ss: seq<State>, acts: seq<Action>, i: nat, j: nat)
    requires Run(voters, ss, acts) && i <= j < |ss|
    ensures ss[i].elected <= ss[j].elected
    decreases j
  {
    if i < j {
      ElectedGrows(voters, ss, acts, i, j - 1);
      assert Step(voters, ss[j - 1], acts[j - 1], ss[j]);
    }
  }

  /** Two nodes that are leader of the same term, at whatever two moments of a run, are the
      same node, provided no snapshot clears the vote its sender was elected with. */
  lemma OneLeaderPerTerm(voters: set<Id>, ss: seq<State>, acts: seq<Action>, i: nat, j: nat, a: Id, b: Id)
    requires Run(voters, ss, acts) && i < |ss| && j < |ss|
    requires a in ss[i].nodes && ss[i].nodes[a].role == Leader
    requires b in ss[j].nodes && ss[j].nodes[b].role == Leader
    requires ss[i].nodes[a].term == ss[j].nodes[b].term
    ensures a == b
  {
    var k := if i < j then j else i;
    RunKeepsInv(voters, ss, acts, i);
    RunKeepsInv(voters, ss, acts, j);
    RunKeepsInv(voters, ss, acts, k);
    ElectedGrows(voters, ss, acts, i, k);
    ElectedGrows(voters, ss, acts, j, k);
    var w :| w in ss[i].elected && w.term == ss[i].nodes[a].term && w.id == a;
    var x :| x in ss[j].elected && x.term == ss[j].nodes[b].term && x.id == b;
    assert w in ss[k].elected && x in ss[k].elected;
  }

  // ---------------------------------------------------------------- snapshots that clear the leader's votes

  lemma Extend(voters: set<Id>, ss: seq<State>, acts: seq<Action>, a: Action, s': State)
    requires Path(voters, ss, acts) && Step(voters, ss[|ss| - 1], a, s')
    ensures Path(voters, ss + [s'], acts + [a])
  {
    var all, both := ss + [s'], acts + [a];
    forall i {:trigger both[i]} | 0 <= i < |both| ensures Step(voters, all[i], both[i], all[i + 1]) {
      if i < |acts| { assert acts[i] == both[i] && all[i] == ss[i] && all[i + 1] == ss[i + 1]; }
    }
  }

  lemma Join(voters: set<Id>, ss: seq<State>, acts: seq<Action>, rs: seq<State>, more: seq<Action>)
    requires Path(voters, ss, acts) && Path(voters, rs, more) && ss[|ss| - 1] == rs[0]
    ensures Path(voters, ss + rs[1..], acts + more)
  {
    var all, both := ss + rs[1..], acts + more;
    forall i {:trigger both[i]} | 0 <= i < |both| ensures Step(voters, all[i], both[i], all[i + 1]) {
      if i < |acts| {
        assert acts[i] == both[i] && all[i] == ss[i] && all[i + 1] == ss[i + 1];
      } else {
        assert more[i - |acts|] == both[i] && all[i] == rs[i - |acts|] && all[i + 1] == rs[i - |acts| + 1];
      }
    }
  }

  /** A candidate of term `t` that has asked everybody in `fs`. */
  predicate Standing(s: State, c: Id, t: nat, fs: set<Id>) {
    && c in s.nodes && s.nodes[c] == Node(t, Candidate, Some(c)) && RoundId(c, t) in s.rounds
    && forall f :: f in fs ==> RequestVote(t, c, f) in s.msgs
  }

  /** The leader of term `t` sends a snapshot to `f`, a follower that is not ahead of it. */
  lemma ClearVote(voters: set<Id>, s: State, l: Id, t: nat, f: Id) returns (s1: State, s2: State)
    requires l in s.nodes && s.nodes[l].role == Leader && s.nodes[l].term == t
    requires f in s.nodes && f != l && s.nodes[f].term <= t
    ensures Step(voters, s, SendAppend(l, f), s1) && Step(voters, s1, HandleSnapshot(f, t, l), s2)
    ensures s2.nodes == s.nodes[f := Node(t, Follower, None)] && s2.rounds == s.rounds && s.msgs <= s2.msgs
  {
    s1 := s.(msgs := s.msgs + {AppendEntries(t, l, f)});
    s2 := s1.(nodes := s1.nodes[f := BecomeFollower(t)]);
  }

  /** Everybody in `fs` has forgotten its vote of term `t`. */
  predicate Cleared(nodes: map<Id, Node>, nodes': map<Id, Node>, fs: set<Id>, t: nat) {
    && nodes'.Keys == nodes.Keys
    && forall n :: n in nodes ==> nodes'[n] == if n in fs then Node(t, Follower, None) else nodes[n]
  }

  lemma {:induction false} ClearVotes(voters: set<Id>, s: State, l: Id, t: nat, fs: set<Id>)
    returns (ss: seq<State>, acts: seq<Action>)
    requires l in s.nodes && s.nodes[l].role == Leader && s.nodes[l].term == t && l !in fs
    requires forall f :: f in fs ==> f in s.nodes && s.nodes[f].term <= t
    ensures Path(voters, ss, acts) && ss[0] == s
    ensures var s' := ss[|ss| - 1];
      s'.rounds == s.rounds && s.msgs <= s'.msgs && Cleared(s.nodes, s'.nodes, fs, t)
    decreases fs
  {
    if fs == {} {
      ss, acts := [s], [];
    } else {
      var f :| f in fs;
      ss, acts := ClearVotes(voters, s, l, t, fs - {f});
      var s1, s2 := ClearVote(voters, ss[|ss| - 1], l, t, f);
      Extend(voters, ss, acts, SendAppend(l, f), s1);
      Extend(voters, ss + [s1], acts + [SendAppend(l, f)], HandleSnapshot(f, t, l), s2);
      ss, acts := ss + [s1] + [s2], acts + [SendAppend(l, f)] + [HandleSnapshot(f, t, l)];
    }
  }

  /** The node has not voted in term `t` and is not ahead of it. */
  predicate Free(n: Node, t: nat) { n.term < t || n == Node(t, Follower, None) }

  /** A voter that has not voted in term `t` gives its vote to candidate `c`, who counts it. */
  lemma TakeVote(voters: set<Id>, s: State, c: Id, t: nat, f: Id) returns (s1: State, s2: State)
    requires Standing(s, c, t, {f}) && f in voters && f != c && f in s.nodes && Free(s.nodes[f], t)
    ensures Step(voters, s, HandleVote(f, t, c, true), s1) && Step(voters, s1, RecordVote(c, t, f), s2)
    ensures s2.nodes == s.nodes[f := Node(t, Follower, Some(c))] && s.msgs <= s2.msgs
    ensures s2.rounds.Keys == s.rounds.Keys && s2.elected == s.elected
    ensures var r := s.rounds[RoundId(c, t)];
      s2.rounds[RoundId(c, t)] == Round(r.votes + {f}, r.won || |r.votes + {f}| + 1 >= Quorum(voters))
  {
    s1 := s.(nodes := s.nodes[f := Node(t, Follower, Some(c))], msgs := s.msgs + {VoteReply(t, true, f, c)},
             grants := s.grants + {Grant(f, t, c)});
    var r := s.rounds[RoundId(c, t)];
    s2 := s1.(rounds := s1.rounds[RoundId(c, t) := Recorded(s1.nodes[c], r, t, f, voters)]);
  }

  lemma {:induction false} TakeVotes(voters: set<Id>, s: State, c: Id, t: nat, fs: set<Id>)
    returns (ss: seq<State>, acts: seq<Action>)
    requires Standing(s, c, t, fs) && fs <= voters && c !in fs
    requires forall f :: f in fs ==> f in s.nodes && Free(s.nodes[f], t)
    ensures Path(voters, ss, acts) && ss[0] == s
    ensures var s' := ss[|ss| - 1];
      && Standing(s', c, t, fs) && s.msgs <= s'.msgs
      && s'.nodes.Keys == s.nodes.Keys && (forall n :: n in s.nodes && n !in fs ==> s'.nodes[n] == s.nodes[n])
      && fs <= s'.rounds[RoundId(c, t)].votes
      && (fs != {} && |s'.rounds[RoundId(c, t)].votes| + 1 >= Quorum(voters) ==> s'.rounds[RoundId(c, t)].won)
    decreases fs
  {
    if fs == {} {
      ss, acts := [s], [];
    } else {
      var f :| f in fs;
      ss, acts := TakeVotes(voters, s, c, t, fs - {f});
      var s0 := ss[|ss| - 1];
      var s1, s2 := TakeVote(voters, s0, c, t, f);
      Extend(voters, ss, acts, HandleVote(f, t, c, true), s1);
      Extend(voters, ss + [s1], acts + [HandleVote(f, t, c, true)], RecordVote(c, t, f), s2);
      ss, acts := ss + [s1] + [s2], acts + [HandleVote(f, t, c, true)] + [RecordVote(c, t, f)];
    }
  }

  lemma Stands(voters: set<Id>, s: State, c: Id) returns (s': State)
    requires c in s.nodes
    ensures var t := s.nodes[c].term + 1;
      && Step(voters, s, StartElection(c), s') && Standing(s', c, t, voters - {c})
      && s'.nodes == s.nodes[c := Node(t, Candidate, Some(c))] && s.msgs <= s'.msgs
      && s'.rounds == s.rounds[RoundId(c, t) := Round({}, false)]
  {
    var t := s.nodes[c].term + 1;
    s' := s.(nodes := s.nodes[c := Node(t, Candidate, Some(c))],
             msgs := s.msgs + (set p | p in voters - {c} :: RequestVote(t, c, p)),
             rounds := s.rounds[RoundId(c, t) := Round({}, false)], grants := s.grants + {Grant(c, t, c)});
  }

  /** The votes are enough: the candidate counts them and leads. */
  lemma TakeLead(voters: set<Id>, s: State, c: Id, t: nat, fs: set<Id>) returns (ss: seq<State>, acts: seq<Action>)
    requires Standing(s, c, t, fs) && fs <= voters && c !in fs
    requires voters == {c} || (fs != {} && |fs| + 1 >= Quorum(voters))
    requires forall f :: f in fs ==> f in s.nodes && Free(s.nodes[f], t)
    ensures Path(voters, ss, acts) && ss[0] == s
    ensures var s' := ss[|ss| - 1];
      && c in s'.nodes && s'.nodes[c] == Node(t, Leader, Some(c))
      && s'.nodes.Keys == s.nodes.Keys && (forall n :: n in s.nodes && n !in fs + {c} ==> s'.nodes[n] == s.nodes[n])
  {
    ss, acts := TakeVotes(voters, s, c, t, fs);
    var s2 := ss[|ss| - 1];
    var votes := s2.rounds[RoundId(c, t)].votes;
    Subset(fs, votes);
    var s3 := s2.(nodes := s2.nodes[c := s2.nodes[c].(role := Leader)],
                  elected := s2.elected + {Win(t, c, votes + {c})});
    Extend(voters, ss, acts, BecomeLeader(c, t), s3);
    ss, acts := ss + [s3], acts + [BecomeLeader(c, t)];
  }

  lemma Single(voters: set<Id>, c: Id)
    requires c in voters && Quorum(voters) <= 1
    ensures voters == {c}
  {
    Subset({c}, voters);
    assert voters == {c} + (voters - {c});
  }

  /** A quorum elects: from any state at all, a voter that stands is made leader of its new term
      by any voters, enough for a quorum with itself, that are not ahead of it. */
  lemma QuorumElects(voters: set<Id>, s: State, c: Id, fs: set<Id>) returns (ss: seq<State>, acts: seq<Action>)
    requires c in s.nodes && c in voters && fs <= voters - {c} && |fs| + 1 >= Quorum(voters)
    requires forall f :: f in fs ==> f in s.nodes && s.nodes[f].term <= s.nodes[c].term
    ensures Path(voters, ss, acts) && ss[0] == s && |acts| > 0 && acts[0] == StartElection(c)
    ensures var s' := ss[|ss| - 1];
      && c in s'.nodes && s'.nodes[c] == Node(s.nodes[c].term + 1, Leader, Some(c))
      && s'.nodes.Keys == s.nodes.Keys && (forall n :: n in s.nodes && n !in fs + {c} ==> s'.nodes[n] == s.nodes[n])
  {
    var s1 := Stands(voters, s, c);
    if fs == {} { Single(voters, c); }
    var rs, more := TakeLead(voters, s1, c, s.nodes[c].term + 1, fs);
    ss, acts := [s, s1], [StartElection(c)];
    Join(voters, ss, acts, rs, more);
    ss, acts := ss + rs[1..], acts + more;
  }

  /** In every run: a node gives its vote exactly when the request is not stale, the log is up to
      date, and it has given none to another candidate of that term, as long as the term has
      no leader. */
  lemma VoteExactly(voters: set<Id>, ss: seq<State>, acts: seq<Action>, i: nat)
    requires Run(voters, ss, acts) && i < |acts| && acts[i].HandleVote? && NoWin(ss[i].elected, acts[i].term)
    ensures acts[i].n in ss[i].nodes
    ensures var HandleVote(n, t, c, logOk) := acts[i];
      && RequestVote(t, c, n) in ss[i].msgs
      && (if t >= ss[i].nodes[n].term && logOk && (forall x :: Grant(n, t, x) in ss[i].grants ==> x == c)
          then Grant(n, t, c) in ss[i + 1].grants && VoteReply(t, true, n, c) in ss[i + 1].msgs
          else ss[i + 1].grants == ss[i].grants && VoteReply(ss[i + 1].nodes[n].term, false, n, c) in ss[i + 1].msgs)
  {
    var HandleVote(n, t, c, logOk) := acts[i];
    RunKeepsInv(voters, ss, acts, i);
    forall x | Grant(n, t, x) in ss[i].grants
      ensures GrantTimely(ss[i].nodes, Grant(n, t, x)) && GrantHeld(ss[i].nodes, ss[i].elected, Grant(n, t, x))
    {
    }
  }

  /** Snapshots can elect a second leader.  For any voters: the leader `l` of a term sends a
      snapshot to followers `fs`, which clears their votes for it; if they are enough for a
      quorum with a candidate `c` of the same term that has asked them, `c` collects their
      votes and leads the term as well. */
  lemma SnapshotsAllowTwoLeaders(voters: set<Id>, s: State, l: Id, c: Id, t: nat, fs: set<Id>)
    returns (ss: seq<State>, acts: seq<Action>)
    requires l in s.nodes && s.nodes[l].role == Leader && s.nodes[l].term == t
    requires Standing(s, c, t, fs) && fs <= voters && l !in fs && c !in fs
    requires fs != {} && |fs| + 1 >= Quorum(voters)
    requires forall f :: f in fs ==> f in s.nodes && s.nodes[f].term <= t
    ensures Path(voters, ss, acts) && ss[0] == s
    ensures var s' := ss[|ss| - 1];
      && l in s'.nodes && s'.nodes[l].role == Leader && s'.nodes[l].term == t
      && c in s'.nodes && s'.nodes[c].role == Leader && s'.nodes[c].term == t && l != c
  {
    var ss1, acts1 := ClearVotes(voters, s, l, t, fs);
    var s1 := ss1[|ss1| - 1];
    assert Standing(s1, c, t, fs);
    var ss2, acts2 := TakeLead(voters, s1, c, t, fs);
    Join(voters, ss1, acts1, ss2, acts2);
    ss, acts := ss1 + ss2[1..], acts1 + acts2;
  }

  /** With `2 * k + 1` voters and a leader elected by the least quorum, clearing the vote of one
      of its voters is enough. */
  lemma OneClearedVoteIsEnough(voters: set<Id>, quorum: set<Id>, c: Id, f: Id, k: nat)
    requires |voters| == 2 * k + 1 && quorum <= voters && |quorum| == Quorum(voters)
    requires f in quorum && c in voters && c !in quorum
    ensures |voters - quorum - {c} + {f}| + 1 >= Quorum(voters)
  {
    assert |voters - quorum| == k;
    assert voters - quorum == (voters - quorum - {c}) + {c};
    assert |voters - quorum - {c}| == k - 1;
    assert |voters - quorum - {c} + {f}| == k;
  }

  /** The first vote of a fresh node. */
  lemma FirstVote(voters: set<Id>, s: State, c: Id, f: Id) returns (s1: State, s2: State, s3: State)
    requires Standing(s, c, 1, {f}) && s.rounds[RoundId(c, 1)] == Round({}, false)
    requires f in voters && f != c && f in s.nodes && s.nodes[f] == Node(0, Follower, None) && |voters| <= 3
    ensures Step(voters, s, HandleVote(f, 1, c, true), s1) && Step(voters, s1, RecordVote(c, 1, f), s2)
    ensures Step(voters, s2, BecomeLeader(c, 1), s3)
    ensures s3.nodes == s.nodes[f := Node(1, Follower, Some(c))][c := Node(1, Leader, Some(c))]
    ensures s.msgs <= s3.msgs && s3.rounds.Keys == s.rounds.Keys
  {
    s1 := s.(nodes := s.nodes[f := Node(1, Follower, Some(c))], msgs := s.msgs + {VoteReply(1, true, f, c)},
             grants := s.grants + {Grant(f, 1, c)});
    assert |{} + {f}| == 1;
    s2 := s1.(rounds := s1.rounds[RoundId(c, 1) := Round({} + {f}, true)]);
    s3 := s2.(nodes := s2.nodes[c := Node(1, Leader, Some(c))], elected := s2.elected + {Win(1, c, {} + {f} + {c})});
  }

  /** Two voters stand in term 1. */
  lemma BothStand(s: State) returns (ss: seq<State>, acts: seq<Action>)
    requires Initial({0, 1, 2}, s)
    ensures Path({0, 1, 2}, ss, acts) && |ss| == 3 && ss[0] == s && forall i :: 0 <= i < |acts| ==>
      acts[i].StartElection?
    ensures Standing(ss[2], 0, 1, {1}) && Standing(ss[2], 2, 1, {1}) && ss[2].nodes[0].term == 1
    ensures ss[2].rounds[RoundId(0, 1)] == Round({}, false)
    ensures 1 in ss[2].nodes && ss[2].nodes[1] == Node(0, Follower, None)
  {
    var voters: set<Id> := {0, 1, 2};
    assert 1 in voters - {0} && 1 in voters - {2};
    var s1 := Stands(voters, s, 0);
    var s2 := Stands(voters, s1, 2);
    ss, acts := [s, s1, s2], [StartElection(0), StartElection(2)];
  }

  /** The situation is reachable: among three voters, 0 is elected with the vote of 1 while 2
      stands in the same term, in a run without snapshots. */
  lemma TwoLeadersReachable(s: State) returns (ss: seq<State>, acts: seq<Action>)
    requires Initial({0, 1, 2}, s)
    ensures Run({0, 1, 2}, ss, acts) && |{1}| + 1 >= Quorum({0, 1, 2})
    ensures var s' := ss[|ss| - 1];
      && 0 in s'.nodes && s'.nodes[0].role == Leader && s'.nodes[0].term == 1
      && 1 in s'.nodes && s'.nodes[1] == Node(1, Follower, Some(0)) && Standing(s', 2, 1, {1})
  {
    var voters: set<Id> := {0, 1, 2};
    assert |voters| == 3;
    var ss1, acts1 := BothStand(s);
    var s3, s4, s5 := FirstVote(voters, ss1[2], 0, 1);
    Extend(voters, ss1, acts1, HandleVote(1, 1, 0, true), s3);
    Extend(voters, ss1 + [s3], acts1 + [HandleVote(1, 1, 0, true)], RecordVote(0, 1, 1), s4);
    ss, acts := ss1 + [s3] + [s4], acts1 + [HandleVote(1, 1, 0, true)] + [RecordVote(0, 1, 1)];
    Extend(voters, ss, acts, BecomeLeader(0, 1), s5);
    ss, acts := ss + [s5], acts + [BecomeLeader(0, 1)];
    forall i | 0 <= i < |acts| ensures !acts[i].HandleSnapshot? {}
  }
}
