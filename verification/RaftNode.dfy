/** The election handlers of one node, updating its soft state in place. */
module RaftNode {
  import opened Keys
  import E = Election

  class SoftState {
    const id: E.Id
    const voters: set<E.Id>
    var term: nat
    var role: E.Role
    var votedFor: Option<E.Id>

    ghost function Model(): E.Node
      reads this
    {
      E.Node(term, role, votedFor)
    }

    constructor (id: E.Id, voters: set<E.Id>)
      ensures this.id == id && this.voters == voters && Model() == E.Node(0, E.Follower, None)
    {
      this.id, this.voters := id, voters;
      term, role, votedFor := 0, E.Follower, None;
    }

    /** In the cluster `s`, this node stands as it does here. */
    ghost predicate Hosts(s: E.State)
      reads this
    {
      id in s.nodes && s.nodes[id] == Model()
    }

    method BecomeFollower(newTerm: nat)
      modifies this
      ensures Model() == E.BecomeFollower(newTerm)
    {
      term, role, votedFor := newTerm, E.Follower, None;
    }

    /** Nodes outside the voter set never stand. */
    method StartElection(ghost s: E.State) returns (electionTerm: nat, ghost s': E.State)
      requires Hosts(s)
      modifies this
      ensures Model() == if id in voters then E.Started(old(Model()), id) else old(Model())
      ensures electionTerm == term
      ensures Hosts(s') && if id in voters then E.Step(voters, s, E.StartElection(id), s') else s' == s
    {
      s' := s;
      if id in voters {
        term := term + 1;
        role := E.Candidate;
        votedFor := Some(id);
        s' := s.(nodes := s.nodes[id := Model()],
                 msgs := s.msgs + (set p | p in voters - {id} :: E.RequestVote(term, id, p)),
                 rounds := s.rounds[E.RoundId(id, term) := E.Round({}, false)],
                 grants := s.grants + {E.Grant(id, term, id)});
      }
      electionTerm := term;
    }

    method HandleRequestVote(voteTerm: nat, candidate: E.Id, logOk: bool, ghost s: E.State)
      returns (replyTerm: nat, granted: bool, ghost s': E.State)
      requires Hosts(s)
      modifies this
      ensures id !in voters ==> Model() == old(Model()) && !granted && s' == s
      ensures id in voters ==> (Model(), granted) == E.Vote(old(Model()), voteTerm, candidate, logOk)
      ensures granted <==>
        && id in voters && logOk && voteTerm >= old(term)
        && (voteTerm > old(term) || old(votedFor) == None || old(votedFor) == Some(candidate))
      ensures granted ==> term == voteTerm && votedFor == Some(candidate)
      ensures id in voters && voteTerm > old(term) ==> term == voteTerm && role == E.Follower
      ensures voteTerm <= old(term) && !granted ==> unchanged(this)
      ensures replyTerm == term && Hosts(s')
      ensures id in voters && E.RequestVote(voteTerm, candidate, id) in s.msgs ==>
        E.Step(voters, s, E.HandleVote(id, voteTerm, candidate, logOk), s')
    {
      s' := s;
      if id !in voters { return term, false, s'; }
      granted := false;
      if voteTerm >= term {
        if voteTerm > term { BecomeFollower(voteTerm); }
        granted := logOk && (votedFor == None || votedFor == Some(candidate));
        if granted { votedFor := Some(candidate); }
      }
      replyTerm := term;
      s' := s.(nodes := s.nodes[id := Model()], msgs := s.msgs + {E.VoteReply(term, granted, id, candidate)},
               grants := if granted then s.grants + {E.Grant(id, term, candidate)} else s.grants);
    }

    /** The term handling of `handle_append_entries`. */
    method HandleLeaderTerm(leaderTerm: nat, leader: E.Id, ghost s: E.State) returns (accepted: bool, ghost s': E.State)
      requires Hosts(s)
      modifies this
      ensures Model() == E.Heard(old(Model()), leaderTerm)
      ensures accepted <==> leaderTerm >= old(term)
      ensures accepted ==> term == leaderTerm && role == E.Follower
      ensures !accepted || (leaderTerm == old(term) && old(role) == E.Follower) ==> unchanged(this)
      ensures Hosts(s')
      ensures E.AppendEntries(leaderTerm, leader, id) in s.msgs ==>
        E.Step(voters, s, E.HandleAppend(id, leaderTerm, leader), s')
    {
      accepted := leaderTerm >= term;
      if accepted && (leaderTerm > term || role != E.Follower) { BecomeFollower(leaderTerm); }
      s' := s.(nodes := s.nodes[id := Model()]);
    }

    /** The term handling of `handle_install_snapshot`, which clears the vote unconditionally. */
    method HandleSnapshotTerm(leaderTerm: nat, leader: E.Id, ghost s: E.State)
      returns (replyTerm: nat, ghost s': E.State)
      requires Hosts(s)
      modifies this
      ensures Model() == E.SnapshotReceived(old(Model()), leaderTerm)
      ensures replyTerm == term && Hosts(s')
      ensures if leaderTerm >= old(term) then term == leaderTerm && role == E.Follower && votedFor == None
              else unchanged(this)
      ensures E.AppendEntries(leaderTerm, leader, id) in s.msgs ==>
        E.Step(voters, s, E.HandleSnapshot(id, leaderTerm, leader), s')
    {
      if leaderTerm >= term { BecomeFollower(leaderTerm); }
      replyTerm := term;
      s' := s.(nodes := s.nodes[id := Model()]);
    }

    /** A vote counts if its giver is a voter or this node itself. */
    method RecordVoteGranted(electionTerm: nat, voter: E.Id, votes: set<E.Id>) returns (votes': set<E.Id>, won: bool)
      ensures var counts := role == E.Candidate && term == electionTerm && (voter in voters || voter == id);
        votes' == (if counts then votes + {voter} else votes) && (won <==> counts && |votes'| + 1 >= E.Quorum(voters))
      ensures id in voters ==>
        E.Round(votes', won) == E.Recorded(Model(), E.Round(votes, false), electionTerm, voter, voters)
    {
      votes', won := votes, false;
      if role != E.Candidate || term != electionTerm || (voter !in voters && voter != id) { return; }
      votes' := votes + {voter};
      won := |votes'| + 1 >= E.Quorum(voters);
    }

    method BecomeLeader(electionTerm: nat, ghost s: E.State) returns (ghost s': E.State)
      requires Hosts(s)
      modifies this`role
      ensures Model() == if E.MayLead(old(Model()), electionTerm) then old(Model()).(role := E.Leader) else old(Model())
      ensures Hosts(s')
      ensures var round := E.RoundId(id, electionTerm);
        round in s.rounds && (s.rounds[round].won || voters == {id}) ==>
        E.Step(voters, s, E.BecomeLeader(id, electionTerm), s')
    {
      s' := s;
      if term == electionTerm && role == E.Candidate {
        role := E.Leader;
        ghost var round := E.RoundId(id, electionTerm);
        s' := s.(nodes := s.nodes[id := Model()],
                 elected := if round !in s.rounds then s.elected
                            else s.elected + {E.Win(electionTerm, id, s.rounds[round].votes + {id})});
      }
    }

    method MaybeStepDown(remoteTerm: nat, ghost s: E.State) returns (ghost s': E.State)
      requires Hosts(s)
      modifies this
      ensures Model() == E.SteppedDown(old(Model()), remoteTerm)
      ensures if remoteTerm > old(term) then term == remoteTerm && role == E.Follower && votedFor == None
              else unchanged(this)
      ensures Hosts(s') && E.Step(voters, s, E.StepDown(id, remoteTerm), s')
    {
      if remoteTerm > term { BecomeFollower(remoteTerm); }
      s' := s.(nodes := s.nodes[id := Model()]);
    }
  }
}
