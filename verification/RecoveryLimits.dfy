/** Why recovery needs its guard.  `recover_participant` (src/dtxn.rs) looks neither at the
    `commit` call of the transaction nor at the durable log.  Started against the guard of
    `TwoPhase.MayRecover` it breaks the protocol, in one of two ways. */
module RecoveryLimits {
  import opened Keys
  import opened Shard
  import opened Sections
  import opened TwoPhase
  import Completion
  import Undisturbed

  // ---------------------------------------------------------------- paths

  /** Some path with these actions leads from `s` to `s'`, recoveries guarded or not. */
  ghost predicate Reaches(s: System, acts: seq<Action>, s': System) {
    exists ss :: TwoPhase.Path(ss, acts) && ss[0] == s && ss[|ss| - 1] == s'
  }

  lemma ReachOne(s: System, a: Action, s': System)
    requires TwoPhase.Step(s, a, s')
    ensures Reaches(s, [a], s')
  {
    var ss := [s, s'];
    assert TwoPhase.StepAt(ss, [a], 0);
    assert ss[0] == s && ss[|ss| - 1] == s';
  }

  lemma Join(ss: seq<System>, acts: seq<Action>, rs: seq<System>, more: seq<Action>)
    requires TwoPhase.Path(ss, acts) && TwoPhase.Path(rs, more) && ss[|ss| - 1] == rs[0]
    ensures TwoPhase.Path(ss + rs[1..], acts + more)
  {
    var all, both := ss + rs[1..], acts + more;
    forall i | 0 <= i < |both| ensures TwoPhase.StepAt(all, both, i) {
      if i < |acts| {
        assert TwoPhase.StepAt(ss, acts, i) && all[i + 1] == ss[i + 1];
      } else {
        assert TwoPhase.StepAt(rs, more, i - |acts|) && all[i] == rs[i - |acts|] && all[i + 1] == rs[i - |acts| + 1];
      }
    }
  }

  lemma ReachOn(s: System, acts: seq<Action>, s1: System, more: seq<Action>, s2: System)
    requires Reaches(s, acts, s1) && Reaches(s1, more, s2)
    ensures Reaches(s, acts + more, s2)
  {
    var ss :| TwoPhase.Path(ss, acts) && ss[0] == s && ss[|ss| - 1] == s1;
    var rs :| TwoPhase.Path(rs, more) && rs[0] == s1 && rs[|rs| - 1] == s2;
    Join(ss, acts, rs, more);
    var all := ss + rs[1..];
    assert all[0] == s && all[|all| - 1] == s2;
  }

  /** One section inside a shard. */
  lemma ReachWithin(s: System, sid: ShardId, e: Section, m': Machine)
    requires sid in s.shards && Inner(s.shards[sid], e) && Enabled(s.shards[sid], e) && m' == After(s.shards[sid], e)
    ensures Reaches(s, [Within(sid, e)], PutShard(s, sid, m'))
  {
    ReachOne(s, Within(sid, e), PutShard(s, sid, m'));
  }

  lemma ReachWithinOn(s: System, acts: seq<Action>, s1: System, sid: ShardId, e: Section, m': Machine)
    requires Reaches(s, acts, s1)
    requires sid in s1.shards && Inner(s1.shards[sid], e) && Enabled(s1.shards[sid], e) &&
             m' == After(s1.shards[sid], e)
    ensures Reaches(s, acts + [Within(sid, e)], PutShard(s1, sid, m'))
  {
    ReachWithin(s1, sid, e, m');
    ReachOn(s, acts, s1, [Within(sid, e)], PutShard(s1, sid, m'));
  }

  // ---------------------------------------------------------------- a recovery with nothing in between

  /** What `recover_participant` does with one orphan. */
  function Resolved1(st: State, t: TxnId, ending: Ending): State
    requires t in st.pending.prepared
  {
    match ending
    case Committing(ts) => Shard.Commit(st, t, ts)
    case Aborting => Shard.Abort(st, t)
  }

  predicate Orphan(s: System, sid: ShardId, t: TxnId) {
    && t in s.txns && !s.txns[t].thread.Idle? && sid in s.shards && t in s.shards[sid].st.pending.prepared
  }

  function RecoverOne(s: System, sid: ShardId, t: TxnId): System
    requires Orphan(s, sid, t)
  {
    PutShard(s, sid, Machine(Resolved1(s.shards[sid].st, t, Choice(Find(s.memory, t))), s.shards[sid].calls))
  }

  lemma RecoverTake(s: System, sid: ShardId, t: TxnId, id: nat, m1: Machine)
    requires Orphan(s, sid, t) && Recovery(id) !in s.shards[sid].calls
    requires var m, ending := s.shards[sid], Choice(Find(s.memory, t));
      m1 == Machine(m.st.(pending := m.st.pending.(prepared := m.st.pending.prepared - {t})),
                    m.calls[Recovery(id) := Taken(t, ending, Some(m.st.pending.prepared[t]))])
    ensures Reaches(s, [Recover(sid, t, id)] + [Within(sid, Take(Recovery(id)))], PutShard(s, sid, m1))
  {
    var c, m := Recovery(id), s.shards[sid];
    var m0 := After(m, Start(c, t, Choice(Find(s.memory, t))));
    ReachOne(s, Recover(sid, t, id), PutShard(s, sid, m0));
    ReachWithinOn(s, [Recover(sid, t, id)], PutShard(s, sid, m0), sid, Take(c), m1);
    assert PutShard(PutShard(s, sid, m0), sid, m1) == PutShard(s, sid, m1);
  }

  lemma TakeUnlock(s: System, sid: ShardId, t: TxnId, id: nat, m2: Machine)
    requires Orphan(s, sid, t) && Recovery(id) !in s.shards[sid].calls
    requires var m, ending := s.shards[sid], Choice(Find(s.memory, t));
      m2 == Machine(m.st.(pending := Release(m.st.pending, t)),
                    m.calls[Recovery(id) := Released(t, ending, Some(m.st.pending.prepared[t]))])
    ensures Reaches(s, [Recover(sid, t, id)] + [Within(sid, Take(Recovery(id)))] + [Within(sid, Unlock(Recovery(id)))],
                    PutShard(s, sid, m2))
  {
    var c, m, ending := Recovery(id), s.shards[sid], Choice(Find(s.memory, t));
    var m1 := Machine(m.st.(pending := m.st.pending.(prepared := m.st.pending.prepared - {t})),
                      m.calls[c := Taken(t, ending, Some(m.st.pending.prepared[t]))]);
    RecoverTake(s, sid, t, id, m1);
    assert m2 == After(m1, Unlock(c));
    ReachWithinOn(s, [Recover(sid, t, id)] + [Within(sid, Take(c))], PutShard(s, sid, m1), sid, Unlock(c), m2);
    assert PutShard(PutShard(s, sid, m1), sid, m2) == PutShard(s, sid, m2);
  }

  /** The sections of a recovery, back to back, resolve the orphan as the decision in memory says. */
  lemma RecoverAlone(s: System, sid: ShardId, t: TxnId, id: nat) returns (acts: seq<Action>)
    requires Orphan(s, sid, t) && Recovery(id) !in s.shards[sid].calls
    ensures Reaches(s, acts, RecoverOne(s, sid, t))
    ensures t !in RecoverOne(s, sid, t).shards[sid].st.pending.prepared
  {
    var c, m, ending := Recovery(id), s.shards[sid], Choice(Find(s.memory, t));
    var m2 := Machine(m.st.(pending := Release(m.st.pending, t)),
                      m.calls[c := Released(t, ending, Some(m.st.pending.prepared[t]))]);
    TakeUnlock(s, sid, t, id, m2);
    acts := [Recover(sid, t, id)] + [Within(sid, Take(c))] + [Within(sid, Unlock(c))];
    var m3 := After(m2, LogEnd(c));
    ReachWithinOn(s, acts, PutShard(s, sid, m2), sid, LogEnd(c), m3);
    acts := acts + [Within(sid, LogEnd(c))];
    assert PutShard(PutShard(s, sid, m2), sid, m3) == PutShard(s, sid, m3);
    if ending == Aborting {
      assert m3.calls == m.calls;
    } else {
      var m4 := After(m3, Apply(c));
      ReachWithinOn(s, acts, PutShard(s, sid, m3), sid, Apply(c), m4);
      acts := acts + [Within(sid, Apply(c))];
      assert PutShard(PutShard(s, sid, m3), sid, m4) == PutShard(s, sid, m4);
      assert m4.calls == m.calls;
    }
  }

  // ---------------------------------------------------------------- the guard is exact

  /** Starting a recovery keeps the invariant exactly when the guard holds. */
  lemma RecoveryExact(s: System, sid: ShardId, t: TxnId, id: nat, s': System)
    requires TwoPhase.Inv(s) && TwoPhase.Step(s, Recover(sid, t, id), s')
    ensures TwoPhase.Inv(s') <==> MayRecover(s, t)
  {
    if TwoPhase.Inv(s') {
      SystemSeen(s', sid, t);
      MyCall(s'.shards[sid], t, Recovery(id));
      WhoCalls(Views(s', t), s'.txns[t], t, Find(s'.memory, t), Find(s'.durable, t), s'.clock, sid, Recovery(id));
    }
    if MayRecover(s, t) { RecoverKeeps(s, sid, t, id, s'); }
  }

  /** One half of the guard.  Whenever only memory holds the decision, a recovery applies the
      branch without a durable decision. */
  lemma UndurableRecoveryApplies(s: System, sid: ShardId, t: TxnId, id: nat) returns (acts: seq<Action>, s': System)
    requires Orphan(s, sid, t) && Recovery(id) !in s.shards[sid].calls
    requires Undurable(Find(s.memory, t), Find(s.durable, t))
    ensures Reaches(s, acts, s') && sid in s'.shards
    ensures TxnCommit(t, s.memory[t].ts, s.shards[sid].st.pending.prepared[t]) in s'.shards[sid].st.log
    ensures Find(s'.durable, t) != Some(Committed(s.memory[t].ts))
  {
    acts := RecoverAlone(s, sid, t, id);
    s' := RecoverOne(s, sid, t);
    var log := s'.shards[sid].st.log;
    assert log[|log| - 1] == TxnCommit(t, s.memory[t].ts, s.shards[sid].st.pending.prepared[t]);
  }

  ghost predicate Idle(s: System) {
    forall sid :: sid in s.shards ==> s.shards[sid].calls == map[]
  }

  /** After a failed append of the decision the call has returned.  If one shard recovers
      before the coordinator reopens and another one after, the first has applied the
      transaction and the second has aborted it, and neither holds it any more. */
  lemma FailedAppendSplits(s: System, a: ShardId, b: ShardId, t: TxnId) returns (acts: seq<Action>, s': System)
    requires Orphan(s, a, t) && Orphan(s, b, t) && a != b && Idle(s)
    requires Undurable(Find(s.memory, t), Find(s.durable, t)) && t !in s.durable
    ensures Reaches(s, acts, s') && a in s'.shards && b in s'.shards
    ensures TxnCommit(t, s.memory[t].ts, s.shards[a].st.pending.prepared[t]) in s'.shards[a].st.log
    ensures TxnAbort(t) in s'.shards[b].st.log
    ensures t !in s'.shards[a].st.pending.prepared && t !in s'.shards[b].st.pending.prepared
    ensures s'.shards.Keys == s.shards.Keys && s'.durable == s.durable
  {
    var acts1 := RecoverAlone(s, a, t, 0);
    var s1 := RecoverOne(s, a, t);
    assert Idle(s1);
    var s2 := Reopened(s1);
    ReachOne(s1, Reopen, s2);
    ReachOn(s, acts1, s1, [Reopen], s2);
    var acts2 := RecoverAlone(s2, b, t, 0);
    s' := RecoverOne(s2, b, t);
    acts := acts1 + [Reopen] + acts2;
    ReachOn(s, acts1 + [Reopen], s2, acts2, s');
    var loga, logb := s'.shards[a].st.log, s'.shards[b].st.log;
    assert loga[|loga| - 1] == TxnCommit(t, s.memory[t].ts, s.shards[a].st.pending.prepared[t]);
    assert logb[|logb| - 1] == TxnAbort(t);
  }

  /** The other half.  A recovery during phase 1 logs an abort while the call goes on. */
  lemma EarlyRecoveryAborts(s: System, sid: ShardId, t: TxnId, id: nat) returns (acts: seq<Action>, s': System)
    requires Orphan(s, sid, t) && Recovery(id) !in s.shards[sid].calls
    requires s.txns[t].thread.PreparePhase? && t !in s.memory
    ensures Reaches(s, acts, s') && sid in s'.shards && TxnAbort(t) in s'.shards[sid].st.log
    ensures s' == PutShard(s, sid, s'.shards[sid])
  {
    acts := RecoverAlone(s, sid, t, id);
    s' := RecoverOne(s, sid, t);
    var log := s'.shards[sid].st.log;
    assert log[|log| - 1] == TxnAbort(t);
  }

  /** ... and a call that has all its votes decides Committed over such an abort. */
  lemma EarlyRecoveryBreaks(s: System, sid: ShardId, t: TxnId) returns (s': System)
    requires t in s.txns && s.txns[t].thread == PreparePhase(|s.txns[t].branches|, false) && s.txns[t].branches != []
    requires sid in s.shards && TxnAbort(t) in s.shards[sid].st.log
    ensures Reaches(s, [Decide(t)] + [Persist(t, true)], s')
    ensures t in s'.durable && s'.durable[t].Committed?
    ensures sid in s'.shards && TxnAbort(t) in s'.shards[sid].st.log
  {
    var s1 := Move(s, t, PersistPhase(s.clock)).(memory := s.memory[t := Committed(s.clock)], clock := s.clock + 1);
    s' := Move(s1, t, CommitPhase(s.clock, 0)).(durable := s.durable[t := Committed(s.clock)]);
    ReachOne(s, Decide(t), s1);
    ReachOne(s1, Persist(t, true), s');
    ReachOn(s, [Decide(t)], s1, [Persist(t, true)], s');
  }

  // ---------------------------------------------------------------- both situations are reachable

  lemma GoesReaches(s: System, acts: seq<Action>, s': System, t: TxnId)
    requires Completion.Goes(s, acts, s', t)
    ensures Reaches(s, acts, s')
  {
    var ss :| Completion.ForcedPath(ss, acts, t) && ss[0] == s && ss[|ss| - 1] == s';
    forall i | 0 <= i < |acts| ensures TwoPhase.StepAt(ss, acts, i) { assert Completion.ForcedAt(ss, acts, i, t); }
  }

  /** The next branch is prepared with nothing in between. */
  lemma VoteAlone(s: System, t: TxnId) returns (acts: seq<Action>)
    requires Undisturbed.CanVote(s, t) && Completion.Away(s, t, None)
    ensures Reaches(s, acts, Undisturbed.Voted(s, t)) && forall a :: a in acts ==> !a.Recover?
  {
    acts := Undisturbed.PrepareSteps(TheBranch(s, t).shard, t);
    Undisturbed.PrepareBranch(s, t);
    GoesReaches(s, acts, Undisturbed.Voted(s, t), t);
  }

  /** One transaction with a branch on each of two shards, all votes in. */
  function Two(): seq<Branch> {
    [Branch(1, [Write(0.0, Some("v"))], []), Branch(2, [Write(0.0, Some("v"))], [])]
  }

  function Prepared1(): State {
    Shard.Prepare(EMPTY, 1, 1, [Write(0.0, Some("v"))])
  }

  function AllVoted(): System {
    System(map[1 := Machine(Prepared1(), map[]), 2 := Machine(Prepared1(), map[])],
           map[1 := Txn(1, Two(), PreparePhase(2, false))], map[], map[], 2, 2)
  }

  function FirstVoted(): System {
    AllVoted().(shards := map[1 := Machine(Prepared1(), map[]), 2 := START],
                txns := map[1 := Txn(1, Two(), PreparePhase(1, false))])
  }

  function Driven(): System {
    FirstVoted().(shards := map[1 := START, 2 := START], txns := map[1 := Txn(1, Two(), PreparePhase(0, false))])
  }

  lemma DrivenReachable() returns (s0: System, acts: seq<Action>)
    ensures Initial(s0) && Reaches(s0, acts, Driven()) && forall a :: a in acts ==> !a.Recover?
  {
    s0 := System(map[1 := START, 2 := START], map[], map[], map[], 1, 1);
    var s1 := Put(s0, 1, Txn(1, [], Thread.Idle)).(clock := 2, nextTxn := 2);
    ReachOne(s0, Begin, s1);
    ReachOne(s1, Drive(1, Two()), Driven());
    acts := [Begin] + [Drive(1, Two())];
    ReachOn(s0, [Begin], s1, [Drive(1, Two())], Driven());
  }

  lemma TwoVotes() returns (acts: seq<Action>)
    ensures Reaches(Driven(), acts, AllVoted()) && forall a :: a in acts ==> !a.Recover?
  {
    assert Undisturbed.CanVote(Driven(), 1) && Undisturbed.Voted(Driven(), 1) == FirstVoted();
    var acts1 := VoteAlone(Driven(), 1);
    assert Undisturbed.CanVote(FirstVoted(), 1) && Undisturbed.Voted(FirstVoted(), 1) == AllVoted();
    var acts2 := VoteAlone(FirstVoted(), 1);
    acts := acts1 + acts2;
    ReachOn(Driven(), acts1, FirstVoted(), acts2, AllVoted());
  }

  /** All votes in, the call still running: the hypotheses of `EarlyRecoveryAborts` and, after
      it, of `EarlyRecoveryBreaks` are met by a run without any recovery. */
  lemma EarlyRecoveryReachable() returns (s0: System, acts: seq<Action>, s: System)
    ensures Initial(s0) && Reaches(s0, acts, s) && forall a :: a in acts ==> !a.Recover?
    ensures Orphan(s, 1, 1) && Orphan(s, 2, 1) && Idle(s) && 1 !in s.memory && !MayRecover(s, 1)
    ensures s.txns[1].thread == PreparePhase(|s.txns[1].branches|, false) && s.txns[1].branches != []
  {
    var acts1, acts2;
    s0, acts1 := DrivenReachable();
    acts2 := TwoVotes();
    s, acts := AllVoted(), acts1 + acts2;
    ReachOn(s0, acts1, Driven(), acts2, s);
  }

  /** The whole run of a failed append: both branches prepared, the decision written to memory
      and not to the log, shard 1 recovered, the coordinator reopened, shard 2 recovered.  In
      the end shard 1 has applied the transaction, shard 2 has aborted it, and no shard holds
      it, with no durable decision. */
  lemma FailedAppendRun() returns (ss: seq<System>, acts: seq<Action>)
    ensures TwoPhase.Path(ss, acts) && Initial(ss[0])
    ensures var s := ss[|ss| - 1];
      && s.shards.Keys == {1, 2} && 1 !in s.durable
      && (exists ts, ws :: TxnCommit(1, ts, ws) in s.shards[1].st.log)
      && TxnAbort(1) in s.shards[2].st.log
      && 1 !in s.shards[1].st.pending.prepared && 1 !in s.shards[2].st.pending.prepared
  {
    var s5 := Move(AllVoted(), 1, PersistPhase(2)).(memory := map[1 := Committed(2)], clock := 3);
    var s6 := Move(s5, 1, Stopped);
    FailAppend(s5, s6);
    var rest, s' := SplitOutcome(s6);
    var s0, begun := DrivenReachable();
    var votes := TwoVotes();
    var failed := [Decide(1)] + [Persist(1, false)];
    ReachOn(s0, begun, Driven(), votes, AllVoted());
    ReachOn(s0, begun + votes, AllVoted(), failed, s6);
    ReachOn(s0, begun + votes + failed, s6, rest, s');
    acts := begun + votes + failed + rest;
    ss :| TwoPhase.Path(ss, acts) && ss[0] == s0 && ss[|ss| - 1] == s';
  }

  lemma FailAppend(s5: System, s6: System)
    requires s5 == Move(AllVoted(), 1, PersistPhase(2)).(memory := map[1 := Committed(2)], clock := 3)
    requires 1 in s5.txns && s6 == Move(s5, 1, Stopped)
    ensures Reaches(AllVoted(), [Decide(1)] + [Persist(1, false)], s6)
  {
    assert AllVoted().memory[1 := Committed(2)] == map[1 := Committed(2)];
    ReachOne(AllVoted(), Decide(1), s5);
    ReachOne(s5, Persist(1, false), s6);
    ReachOn(AllVoted(), [Decide(1)], s5, [Persist(1, false)], s6);
  }

  lemma SplitOutcome(s: System) returns (acts: seq<Action>, s': System)
    requires s.shards == AllVoted().shards && 1 in s.txns && s.txns[1].thread == Stopped
    requires s.memory == map[1 := Committed(2)] && s.durable == map[]
    ensures Reaches(s, acts, s') && s'.shards.Keys == {1, 2} && 1 !in s'.durable
    ensures exists ts, ws :: TxnCommit(1, ts, ws) in s'.shards[1].st.log
    ensures TxnAbort(1) in s'.shards[2].st.log
    ensures 1 !in s'.shards[1].st.pending.prepared && 1 !in s'.shards[2].st.pending.prepared
  {
    acts, s' := FailedAppendSplits(s, 1, 2, 1);
  }
}
