/** A whole `commit` call of the coordinator (src/dtxn.rs) with nothing in between and nothing
    failing: it commits exactly when every branch is admitted by its shard. */
module Undisturbed {
  import opened Keys
  import opened Shard
  import opened Sections
  import opened TwoPhase
  import opened Completion

  // ---------------------------------------------------------------- one prepare

  lemma AskForced(s: System, t: TxnId, s': System)
    requires Away(s, t, None) && TwoPhase.Step(s, Ask(t), s')
    ensures Forced(s, Ask(t), s', t)
  {
  }

  lemma RefusedForced(s: System, t: TxnId, s': System)
    requires Away(s, t, None) && !CanAsk(s, t) && TwoPhase.Step(s, Refused(t), s')
    ensures Forced(s, Refused(t), s', t)
  {
  }

  /** The branch is on a known shard. */
  predicate Known(s: System, t: TxnId) {
    AtBranch(s, t, false) && TheBranch(s, t).shard in s.shards
  }

  function Asked(s: System, t: TxnId): System
    requires Known(s, t)
  {
    Move(s, t, s.txns[t].thread.(asked := true))
  }

  /** The shard has validated the branch. */
  function Validated1(s: System, t: TxnId): System
    requires Known(s, t)
  {
    var b := TheBranch(s, t);
    Put1(Asked(s, t), b.shard, s.shards[b.shard].st, t, Validated(t, s.txns[t].readTs, b.writes))
  }

  lemma AskStep(s: System, t: TxnId)
    requires CanAsk(s, t) && Away(s, t, None)
    ensures Forced(s, Ask(t), Validated1(s, t), t)
    ensures At(Validated1(s, t), t, TheBranch(s, t).shard) && Away(Validated1(s, t), t, Some(TheBranch(s, t).shard))
  {
    AskForced(s, t, Validated1(s, t));
  }

  predicate Admitted(s: System, t: TxnId, b: Branch)
    requires t in s.txns
  {
    b.shard in s.shards && Admits(s.shards[b.shard].st, t, s.txns[t].readTs, b.writes, b.readSet)
  }

  predicate CanVote(s: System, t: TxnId) {
    AtBranch(s, t, false) && Admitted(s, t, TheBranch(s, t))
  }

  function LockedSt(st: State, t: TxnId, ws: seq<Write>): State {
    st.(pending := st.pending.(locks := LockAll(st.pending.locks, ws, t)))
  }

  function Locked1(s: System, t: TxnId): System
    requires Known(s, t)
  {
    var b := TheBranch(s, t);
    Put1(Asked(s, t), b.shard, LockedSt(s.shards[b.shard].st, t, b.writes), t, Locked(t, s.txns[t].readTs, b.writes))
  }

  function LoggedSt(st: State, t: TxnId, readTs: Ts, ws: seq<Write>): State {
    LockedSt(st, t, ws).(log := st.log + [TxnPrepare(t, readTs, ws)])
  }

  function Logged1(s: System, t: TxnId): System
    requires Known(s, t)
  {
    var b := TheBranch(s, t);
    Put1(Asked(s, t), b.shard, LoggedSt(s.shards[b.shard].st, t, s.txns[t].readTs, b.writes), t,
         Logged(t, s.txns[t].readTs, b.writes))
  }

  /** The branch is prepared and the thread is at the next one. */
  function Voted(s: System, t: TxnId): System
    requires Known(s, t)
  {
    var b, x := TheBranch(s, t), s.txns[t];
    PutShard(Move(s, t, PreparePhase(x.thread.next + 1, false)), b.shard,
             Machine(Shard.Prepare(s.shards[b.shard].st, t, x.readTs, b.writes), s.shards[b.shard].calls))
  }

  lemma LockStep(s: System, t: TxnId)
    requires CanVote(s, t) && Away(s, t, None)
    ensures Forced(Validated1(s, t), Within(TheBranch(s, t).shard, Lock(Driver(t))), Locked1(s, t), t)
  {
    var b, c, s0 := TheBranch(s, t), Driver(t), Asked(s, t);
    var st := s.shards[b.shard].st;
    Put1Again(s0, b.shard, st, t, Validated(t, s.txns[t].readTs, b.writes), LockedSt(st, t, b.writes),
              Locked(t, s.txns[t].readTs, b.writes));
    InsideForced(Validated1(s, t), t, b.shard, Within(b.shard, Lock(c)), Locked1(s, t));
  }

  lemma LogStep(s: System, t: TxnId)
    requires CanVote(s, t) && Away(s, t, None)
    ensures Forced(Locked1(s, t), Within(TheBranch(s, t).shard, LogPrepare(Driver(t))), Logged1(s, t), t)
  {
    var b, c, s0, readTs := TheBranch(s, t), Driver(t), Asked(s, t), s.txns[t].readTs;
    var st := s.shards[b.shard].st;
    Put1Again(s0, b.shard, LockedSt(st, t, b.writes), t, Locked(t, readTs, b.writes),
              LoggedSt(st, t, readTs, b.writes), Logged(t, readTs, b.writes));
    InsideForced(Locked1(s, t), t, b.shard, Within(b.shard, LogPrepare(c)), Logged1(s, t));
  }

  lemma InsertMachine(m: Machine, t: TxnId, readTs: Ts, ws: seq<Write>)
    requires Driver(t) !in m.calls
    ensures After(Machine(LoggedSt(m.st, t, readTs, ws), m.calls[Driver(t) := Logged(t, readTs, ws)]),
                  Insert(Driver(t))) ==
            Machine(Shard.Prepare(m.st, t, readTs, ws), m.calls)
  {
    assert m.calls[Driver(t) := Logged(t, readTs, ws)] - {Driver(t)} == m.calls;
  }

  lemma MoveTwice(s: System, t: TxnId, a: Thread, b: Thread)
    requires t in s.txns
    ensures Move(Move(s, t, a), t, b) == Move(s, t, b)
  {
    assert s.txns[t := s.txns[t].(thread := a)][t := s.txns[t].(thread := b)] == s.txns[t := s.txns[t].(thread := b)];
  }

  lemma VoteStep(s: System, t: TxnId)
    requires CanVote(s, t) && Away(s, t, None)
    ensures TwoPhase.Step(Logged1(s, t), Vote(t, true), Voted(s, t))
  {
    var b, n := TheBranch(s, t), s.txns[t].thread.next;
    InsertMachine(s.shards[b.shard], t, s.txns[t].readTs, b.writes);
    MoveTwice(s, t, PreparePhase(n, true), PreparePhase(n + 1, false));
    Moved(Asked(s, t), b.shard, Logged1(s, t).shards[b.shard], t, PreparePhase(n + 1, false),
          Voted(s, t).shards[b.shard]);
  }

  lemma VoteForced(s: System, t: TxnId)
    requires CanVote(s, t) && Away(s, t, None)
    ensures Forced(Logged1(s, t), Vote(t, true), Voted(s, t), t)
  {
    VoteStep(s, t);
    InsideForced(Logged1(s, t), t, TheBranch(s, t).shard, Vote(t, true), Voted(s, t));
  }

  function PrepareSteps(sid: ShardId, t: TxnId): seq<Action> {
    [Ask(t), Within(sid, Lock(Driver(t)))] + [Within(sid, LogPrepare(Driver(t))), Vote(t, true)]
  }

  lemma PrepareBranch(s: System, t: TxnId)
    requires CanVote(s, t) && Away(s, t, None)
    ensures Goes(s, PrepareSteps(TheBranch(s, t).shard, t), Voted(s, t), t) && Away(Voted(s, t), t, None)
  {
    var sid, c := TheBranch(s, t).shard, Driver(t);
    AskStep(s, t);
    LockStep(s, t);
    GoTwo(s, Ask(t), Validated1(s, t), Within(sid, Lock(c)), Locked1(s, t), t);
    LogStep(s, t);
    VoteForced(s, t);
    GoTwo(Locked1(s, t), Within(sid, LogPrepare(c)), Logged1(s, t), Vote(t, true), Voted(s, t), t);
    GoOn(s, [Ask(t), Within(sid, Lock(c))], Locked1(s, t), [Within(sid, LogPrepare(c)), Vote(t, true)], Voted(s, t), t);
  }

  // ---------------------------------------------------------------- phase 1

  function PhaseOne(bs: seq<Branch>, t: TxnId): seq<Action> {
    if bs == [] then [] else PrepareSteps(bs[0].shard, t) + PhaseOne(bs[1..], t)
  }

  /** The shard went through one prepare of `b`, and no more. */
  ghost predicate Prepares1(s: System, s': System, b: Branch, t: TxnId, readTs: Ts) {
    && b.shard in s.shards && b.shard in s'.shards
    && s'.shards[b.shard] ==
       Machine(Shard.Prepare(s.shards[b.shard].st, t, readTs, b.writes), s.shards[b.shard].calls)
  }

  /** The shards of the branches in `n..m` went through one prepare, the others through nothing. */
  ghost predicate PreparesFrom(s: System, s': System, bs: seq<Branch>, n: nat, m: nat, t: TxnId, readTs: Ts) {
    && s'.shards.Keys == s.shards.Keys
    && (forall i :: n <= i < m && i < |bs| ==> Prepares1(s, s', bs[i], t, readTs))
    && (forall sid :: sid in s.shards && (forall i :: n <= i < m && i < |bs| ==> bs[i].shard != sid) ==>
          s'.shards[sid] == s.shards[sid])
  }

  lemma PreparesFirst(s: System, s1: System, s': System, bs: seq<Branch>, n: nat, m: nat, t: TxnId, readTs: Ts)
    requires n < m <= |bs| && OneBranchPerShard(bs) && s1.shards.Keys == s.shards.Keys
    requires Prepares1(s, s1, bs[n], t, readTs)
    requires forall sid :: sid in s.shards && sid != bs[n].shard ==> s1.shards[sid] == s.shards[sid]
    requires PreparesFrom(s1, s', bs, n + 1, m, t, readTs)
    ensures PreparesFrom(s, s', bs, n, m, t, readTs)
  {
    forall i | n <= i < m ensures Prepares1(s, s', bs[i], t, readTs) {
      if i > n { assert Prepares1(s1, s', bs[i], t, readTs) && bs[n].shard != bs[i].shard; }
    }
    forall sid | sid in s.shards && (forall i :: n <= i < m && i < |bs| ==> bs[i].shard != sid)
      ensures s'.shards[sid] == s.shards[sid]
    {
      assert bs[n].shard != sid;
    }
  }

  lemma OneVoted(s: System, t: TxnId)
    requires CanVote(s, t) && OneBranchPerShard(s.txns[t].branches)
    ensures var bs, n, s1 := s.txns[t].branches, s.txns[t].thread.next, Voted(s, t);
      && Prepares1(s, s1, bs[n], t, s.txns[t].readTs) && s1.shards.Keys == s.shards.Keys
      && (forall sid :: sid in s.shards && sid != bs[n].shard ==> s1.shards[sid] == s.shards[sid])
      && (forall i :: n < i < |bs| ==> (Admitted(s1, t, bs[i]) <==> Admitted(s, t, bs[i])))
      && s1 == Move(s, t, PreparePhase(n + 1, false)).(shards := s1.shards)
  {
    var bs, n, s1 := s.txns[t].branches, s.txns[t].thread.next, Voted(s, t);
    forall i | n < i < |bs| ensures Admitted(s1, t, bs[i]) <==> Admitted(s, t, bs[i]) {
      assert bs[n].shard != bs[i].shard;
    }
  }

  /** Branches `n..m` are prepared one after the other. */
  lemma {:induction false} PhaseOneFrom(s: System, t: TxnId, n: nat, m: nat) returns (s': System)
    requires t in s.txns && n <= m <= |s.txns[t].branches| && s.txns[t].thread == PreparePhase(n, false)
    requires Away(s, t, None) && OneBranchPerShard(s.txns[t].branches)
    requires forall i :: n <= i < m ==> Admitted(s, t, s.txns[t].branches[i])
    ensures Goes(s, PhaseOne(s.txns[t].branches[n..m], t), s', t) && Away(s', t, None)
    ensures s' == Move(s, t, PreparePhase(m, false)).(shards := s'.shards)
    ensures PreparesFrom(s, s', s.txns[t].branches, n, m, t, s.txns[t].readTs)
    ensures forall i :: m <= i < |s.txns[t].branches| ==>
      (Admitted(s', t, s.txns[t].branches[i]) <==> Admitted(s, t, s.txns[t].branches[i]))
    decreases m - n
  {
    var bs := s.txns[t].branches;
    if n == m {
      GoNowhere(s, t);
      s' := s;
    } else {
      assert Admitted(s, t, bs[n]);
      var s1 := Voted(s, t);
      PrepareBranch(s, t);
      OneVoted(s, t);
      s' := PhaseOneFrom(s1, t, n + 1, m);
      assert bs[n..m][1..] == bs[n + 1..m];
      GoOn(s, PrepareSteps(bs[n].shard, t), s1, PhaseOne(bs[n + 1..m], t), s', t);
      PreparesFirst(s, s1, s', bs, n, m, t, s.txns[t].readTs);
      MoveAgain(s, t, PreparePhase(n + 1, false), PreparePhase(m, false), s1, s');
    }
  }

  // ---------------------------------------------------------------- a refused prepare

  /** A branch that is not admitted: the call ends up refused, and no shard has changed. */
  lemma RefuseBranch(s: System, t: TxnId) returns (acts: seq<Action>, s1: System, s2: System)
    requires AtBranch(s, t, false) && Away(s, t, None) && !Admitted(s, t, TheBranch(s, t))
    ensures Goes(s, acts, s1, t) && Forced(s1, Refused(t), s2, t)
    ensures s2 == Move(s, t, AbortPhase(AbortOrder(s.txns[t].branches)))
  {
    s2 := Move(s, t, AbortPhase(AbortOrder(s.txns[t].branches)));
    if CanAsk(s, t) {
      s1 := Asked(s, t);
      acts := [Ask(t), Within(TheBranch(s, t).shard, Refuse(Driver(t)))];
      AskStep(s, t);
      RefuseStep(s, t);
      GoTwo(s, acts[0], Validated1(s, t), acts[1], s1, t);
      MoveTwice(s, t, s1.txns[t].thread, AbortPhase(AbortOrder(s.txns[t].branches)));
    } else {
      acts, s1 := [], s;
      GoNowhere(s, t);
    }
    RefusedForced(s1, t, s2);
  }

  lemma RefuseStep(s: System, t: TxnId)
    requires CanAsk(s, t) && Away(s, t, None) && !Admitted(s, t, TheBranch(s, t))
    ensures Forced(Validated1(s, t), Within(TheBranch(s, t).shard, Refuse(Driver(t))), Asked(s, t), t)
  {
    var b, c, s1 := TheBranch(s, t), Driver(t), Validated1(s, t);
    var m := s.shards[b.shard];
    assert m.calls[c := Validated(t, s.txns[t].readTs, b.writes)] - {c} == m.calls;
    assert After(s1.shards[b.shard], Refuse(c)) == m;
    assert PutShard(s1, b.shard, m) == Asked(s, t);
    InsideForced(s1, t, b.shard, Within(b.shard, Refuse(c)), Asked(s, t));
  }

  // ---------------------------------------------------------------- the whole call

  /** The call has just been given its branches. */
  predicate Driven(s: System, t: TxnId) {
    t in s.txns && s.txns[t].thread == PreparePhase(0, false) && s.txns[t].branches != []
  }

  lemma DrivenAway(s: System, t: TxnId)
    requires TwoPhase.Inv(s) && Driven(s, t)
    ensures Away(s, t, None) && OneBranchPerShard(s.txns[t].branches)
  {
    assert TxnOk(s, t);
    forall sid | sid in s.shards ensures Driver(t) !in s.shards[sid].calls {
      assert ShardOk(s, sid);
      CallsWhereAsked(Views(s, t), s.txns[t], t, 0, false, sid);
      NoCalls(s.shards[sid], t);
    }
  }

  /** If every shard admits its branch, the call prepares and then commits every branch. */
  lemma CommitsIfAdmitted(s: System, t: TxnId) returns (s': System)
    requires TwoPhase.Inv(s) && Driven(s, t)
    requires forall i :: 0 <= i < |s.txns[t].branches| ==> Admitted(s, t, s.txns[t].branches[i])
    ensures var bs := s.txns[t].branches;
      Goes(s, PhaseOne(bs, t) + ([Decide(t), Persist(t, true)] + PhaseTwo(bs, t) + [Return(t)]), s', t)
    ensures s'.shards.Keys == s.shards.Keys && forall sid :: sid in s'.shards ==> !Holds(s'.shards[sid], t)
    ensures forall i :: 0 <= i < |s.txns[t].branches| ==>
      var b := s.txns[t].branches[i];
      LogGains(s, s', b.shard, [TxnPrepare(t, s.txns[t].readTs, b.writes), TxnCommit(t, s.clock, b.writes)])
    ensures forall sid :: sid in s.shards && !HasBranch(s.txns[t].branches, sid) ==> s'.shards[sid] == s.shards[sid]
    ensures Find(s'.durable, t) == Find(s'.memory, t) == Some(Committed(s.clock)) && s'.nextTxn == s.nextTxn
  {
    var bs := s.txns[t].branches;
    DrivenAway(s, t);
    var s1 := PhaseOneFrom(s, t, 0, |bs|);
    assert bs[0..|bs|] == bs;
    GoesKeepsInv(s, PhaseOne(bs, t), s1, t);
    s' := AllVotesCommit(s1, t);
    GoOn(s, PhaseOne(bs, t), s1, [Decide(t), Persist(t, true)] + PhaseTwo(bs, t) + [Return(t)], s', t);
    PrepareThenCommit(s, s1, s', bs, t, s.txns[t].readTs, s.clock);
  }

  lemma TwoRecords(s: System, s1: System, s': System, b: Branch, t: TxnId, readTs: Ts, ts: Ts)
    requires Prepares1(s, s1, b, t, readTs) && LogGains(s1, s', b.shard, [TxnCommit(t, ts, b.writes)])
    ensures LogGains(s, s', b.shard, [TxnPrepare(t, readTs, b.writes), TxnCommit(t, ts, b.writes)])
  {
  }

  lemma PrepareThenCommit(s: System, s1: System, s': System, bs: seq<Branch>, t: TxnId, readTs: Ts, ts: Ts)
    requires PreparesFrom(s, s1, bs, 0, |bs|, t, readTs) && s'.shards.Keys == s1.shards.Keys
    requires forall i :: 0 <= i < |bs| ==> LogGains(s1, s', bs[i].shard, [TxnCommit(t, ts, bs[i].writes)])
    requires forall sid :: sid in s1.shards && !HasBranch(bs, sid) ==> s'.shards[sid] == s1.shards[sid]
    ensures forall i :: 0 <= i < |bs| ==>
      LogGains(s, s', bs[i].shard, [TxnPrepare(t, readTs, bs[i].writes), TxnCommit(t, ts, bs[i].writes)])
    ensures forall sid :: sid in s.shards && !HasBranch(bs, sid) ==> s'.shards[sid] == s.shards[sid]
  {
    forall i | 0 <= i < |bs|
      ensures LogGains(s, s', bs[i].shard, [TxnPrepare(t, readTs, bs[i].writes), TxnCommit(t, ts, bs[i].writes)])
    {
      TwoRecords(s, s1, s', bs[i], t, readTs, ts);
    }
    forall sid | sid in s.shards && !HasBranch(bs, sid) ensures s'.shards[sid] == s.shards[sid] {
      assert s1.shards[sid] == s.shards[sid];
    }
  }

  /** What the call leaves in the log of branch `i` when branch `n` is the first not admitted. */
  function AbortRecords(x: Txn, t: TxnId, i: nat, n: nat): seq<Command>
    requires i < |x.branches|
  {
    (if i < n then [TxnPrepare(t, x.readTs, x.branches[i].writes)] else []) + [TxnAbort(t)]
  }

  /** The log has grown, and what the shard stores is what it was. */
  ghost predicate AbortsHere(s: System, s': System, sid: ShardId, records: seq<Command>) {
    && LogGains(s, s', sid, records) && s'.shards[sid].st.store == s.shards[sid].st.store
    && s'.shards[sid].st.lastCommit == s.shards[sid].st.lastCommit
  }

  /** What the shard of branch `i` is before the aborts. */
  lemma BeforeAborts(s: System, s2: System, x: Txn, t: TxnId, n: nat, i: nat)
    requires n <= |x.branches| && i < |x.branches| && OneBranchPerShard(x.branches) && x.branches[i].shard in s.shards
    requires PreparesFrom(s, s2, x.branches, 0, n, t, x.readTs)
    ensures var b := x.branches[i];
      b.shard in s2.shards && s2.shards[b.shard].st ==
        if i < n then Shard.Prepare(s.shards[b.shard].st, t, x.readTs, b.writes) else s.shards[b.shard].st
  {
    if i < n { assert Prepares1(s, s2, x.branches[i], t, x.readTs); }
  }

  lemma AbortedLog(s: System, s2: System, s': System, x: Txn, t: TxnId, n: nat, i: nat)
    requires n <= |x.branches| && i < |x.branches| && OneBranchPerShard(x.branches) && x.branches[i].shard in s.shards
    requires PreparesFrom(s, s2, x.branches, 0, n, t, x.readTs) && AbortsAll(s2, s', AbortOrder(x.branches), t)
    ensures AbortsHere(s, s', x.branches[i].shard, AbortRecords(x, t, i, n))
  {
    BeforeAborts(s, s2, x, t, n, i);
    InOrder(x.branches, x.branches[i].shard);
  }

  /** If branch `n` is the first that its shard does not admit, the call aborts every branch, and
      what the shards store has not changed. */
  lemma AbortsIfNot(s: System, t: TxnId, n: nat) returns (acts: seq<Action>, s': System)
    requires TwoPhase.Inv(s) && Driven(s, t) && n < |s.txns[t].branches|
    requires forall i :: 0 <= i < n ==> Admitted(s, t, s.txns[t].branches[i])
    requires !Admitted(s, t, s.txns[t].branches[n])
    ensures Goes(s, acts, s', t) && s'.shards.Keys == s.shards.Keys
    ensures forall sid :: sid in s'.shards ==> !Holds(s'.shards[sid], t)
    ensures forall i :: 0 <= i < |s.txns[t].branches| && s.txns[t].branches[i].shard in s.shards ==>
      AbortsHere(s, s', s.txns[t].branches[i].shard, AbortRecords(s.txns[t], t, i, n))
    ensures forall sid :: sid in s.shards && !HasBranch(s.txns[t].branches, sid) ==> s'.shards[sid] == s.shards[sid]
    ensures Find(s'.durable, t) == Find(s'.memory, t) == Some(Aborted)
  {
    var bs := s.txns[t].branches;
    var s3;
    acts, s3, s' := GoesToAbort(s, t, n);
    DrivenAway(s, t);
    forall i | 0 <= i < |bs| && bs[i].shard in s.shards
      ensures AbortsHere(s, s', bs[i].shard, AbortRecords(s.txns[t], t, i, n))
    {
      AbortedLog(s, s3, s', s.txns[t], t, n, i);
    }
    forall sid | sid in s.shards && !HasBranch(bs, sid) ensures s'.shards[sid] == s.shards[sid] {
      assert s3.shards[sid] == s.shards[sid];
      NotInOrder(bs, sid);
    }
  }

  lemma NotInOrder(bs: seq<Branch>, sid: ShardId)
    requires !HasBranch(bs, sid)
    ensures sid !in AbortOrder(bs)
  {
  }

  lemma GoesToAbort(s: System, t: TxnId, n: nat) returns (acts: seq<Action>, s3: System, s': System)
    requires TwoPhase.Inv(s) && Driven(s, t) && n < |s.txns[t].branches|
    requires forall i :: 0 <= i < n ==> Admitted(s, t, s.txns[t].branches[i])
    requires !Admitted(s, t, s.txns[t].branches[n])
    ensures Goes(s, acts, s', t)
    ensures PreparesFrom(s, s3, s.txns[t].branches, 0, n, t, s.txns[t].readTs)
    ensures AbortsAll(s3, s', AbortOrder(s.txns[t].branches), t)
    ensures forall sid :: sid in s'.shards ==> !Holds(s'.shards[sid], t)
    ensures Find(s'.durable, t) == Find(s'.memory, t) == Some(Aborted)
  {
    var bs := s.txns[t].branches;
    DrivenAway(s, t);
    var s1 := PhaseOneFrom(s, t, 0, n);
    var asked, s2;
    asked, s2, s3 := RefuseBranch(s1, t);
    GoOn(s, PhaseOne(bs[0..n], t), s1, asked, s2, t);
    acts := PhaseOne(bs[0..n], t) + asked;
    GoesKeepsInv(s, acts, s2, t);
    var rest;
    rest, s' := RefusedAborts(s2, t, s3);
    GoOn(s, acts, s2, rest, s', t);
    acts := acts + rest;
  }

  lemma RefusedAborts(s: System, t: TxnId, s1: System) returns (acts: seq<Action>, s': System)
    requires TwoPhase.Inv(s) && Forced(s, Refused(t), s1, t) && t in s1.txns
    ensures Goes(s, acts, s', t) && AbortsAll(s1, s', AbortOrder(s1.txns[t].branches), t)
    ensures forall sid :: sid in s'.shards ==> !Holds(s'.shards[sid], t)
    ensures Find(s'.durable, t) == Find(s'.memory, t) == Some(Aborted)
  {
    GoOne(s, Refused(t), s1, t);
    s' := FailedPrepareAborts(s, Refused(t), t, s1);
    acts := AbortAll(AbortOrder(s1.txns[t].branches), s1.shards.Keys, t) + [FinishAbort(t, true)];
    GoOn(s, [Refused(t)], s1, acts, s', t);
    acts := [Refused(t)] + acts;
  }

  lemma FirstRefused(s: System, t: TxnId) returns (n: nat)
    requires t in s.txns
    ensures n <= |s.txns[t].branches| && forall i :: 0 <= i < n ==> Admitted(s, t, s.txns[t].branches[i])
    ensures n < |s.txns[t].branches| ==> !Admitted(s, t, s.txns[t].branches[n])
  {
    n := 0;
    while n < |s.txns[t].branches| && Admitted(s, t, s.txns[t].branches[n])
      invariant n <= |s.txns[t].branches| && forall i :: 0 <= i < n ==> Admitted(s, t, s.txns[t].branches[i])
    {
      n := n + 1;
    }
  }

  /** The verdict of an undisturbed call, at every state in which one can begin: Committed, at the
      clock's value, if and only if every shard admits its branch; Aborted otherwise.  Either
      way no shard holds the transaction in the end. */
  lemma VerdictExact(s: System, t: TxnId) returns (acts: seq<Action>, s': System)
    requires TwoPhase.Inv(s) && Driven(s, t)
    ensures Goes(s, acts, s', t)
    ensures Find(s'.durable, t) == Find(s'.memory, t) ==
      Some(if forall i :: 0 <= i < |s.txns[t].branches| ==> Admitted(s, t, s.txns[t].branches[i])
           then Committed(s.clock) else Aborted)
    ensures forall sid :: sid in s'.shards ==> !Holds(s'.shards[sid], t)
  {
    var bs := s.txns[t].branches;
    var n := FirstRefused(s, t);
    if n == |bs| {
      s' := CommitsIfAdmitted(s, t);
      acts := PhaseOne(bs, t) + ([Decide(t), Persist(t, true)] + PhaseTwo(bs, t) + [Return(t)]);
    } else {
      acts, s' := AbortsIfNot(s, t, n);
    }
  }
}
