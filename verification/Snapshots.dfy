/** How new the snapshot of a distributed transaction is (`begin` and `GlobalClock`, src/dtxn.rs).
    The clock orders snapshots after every logged commit, until the coordinator is reopened: a
    reopened coordinator starts its clock from 1 again. */
module Snapshots {
  import opened Keys
  import opened Shard
  import opened Sections
  import opened TwoPhase
  import Completion
  import Outcomes
  import RecoveryLimits
  import Undisturbed

  // ---------------------------------------------------------------- commit timestamps

  ghost predicate LogHas(log: seq<Command>, P: Ts -> bool) {
    forall j :: 0 <= j < |log| && log[j].TxnCommit? ==> P(log[j].commitTs)
  }

  ghost predicate CallHas(call: Call, P: Ts -> bool) {
    (Ends(call) && call.ending.Committing? ==> P(call.ending.ts)) && (call.Applying? ==> P(call.ts))
  }

  ghost predicate ShardHas(m: Machine, P: Ts -> bool) {
    LogHas(m.st.log, P) && forall d :: d in m.calls ==> CallHas(m.calls[d], P)
  }

  ghost predicate DecisionHas(d: Option<Decision>, P: Ts -> bool) {
    d.Some? && d.value.Committed? ==> P(d.value.ts)
  }

  ghost predicate ThreadHas(s: System, t: TxnId, P: Ts -> bool) {
    t in s.txns && (s.txns[t].thread.PersistPhase? || s.txns[t].thread.CommitPhase?) ==> P(s.txns[t].thread.ts)
  }

  ghost predicate TxnHas(s: System, t: TxnId, P: Ts -> bool) {
    DecisionHas(Find(s.memory, t), P) && DecisionHas(Find(s.durable, t), P) && ThreadHas(s, t, P)
  }

  ghost predicate ShardAt(s: System, sid: ShardId, P: Ts -> bool) {
    sid in s.shards ==> ShardHas(s.shards[sid], P)
  }

  /** Every commit decided, running or logged has a timestamp with property `P`. */
  ghost predicate AllHave(s: System, P: Ts -> bool) {
    (forall t :: TxnHas(s, t, P)) && (forall sid :: ShardAt(s, sid, P))
  }

  lemma SectionKeepsHas(m: Machine, e: Section, P: Ts -> bool)
    requires ShardHas(m, P) && Enabled(m, e) && (e.Start? && e.ending.Committing? ==> P(e.ending.ts))
    ensures ShardHas(After(m, e), P)
  {
    LogAfter(m, e);
    assert e.LogEnd? ==> CallHas(m.calls[e.c], P);
  }

  lemma TxnKeepsHas(s: System, a: Action, s': System, t: TxnId, P: Ts -> bool)
    requires TwoPhase.Step(s, a, s') && TxnHas(s, t, P) && (a.Decide? ==> P(s.clock))
    ensures TxnHas(s', t, P)
  {
    MemoryKeepsHas(s, a, s', t, P);
    DurableKeepsHas(s, a, s', t, P);
    ThreadKeepsHas(s, a, s', t, P);
  }

  lemma MemoryKeepsHas(s: System, a: Action, s': System, t: TxnId, P: Ts -> bool)
    requires TwoPhase.Step(s, a, s') && (a.Decide? ==> P(s.clock))
    requires DecisionHas(Find(s.memory, t), P) && DecisionHas(Find(s.durable, t), P)
    ensures DecisionHas(Find(s'.memory, t), P)
  {
  }

  lemma DurableKeepsHas(s: System, a: Action, s': System, t: TxnId, P: Ts -> bool)
    requires TwoPhase.Step(s, a, s') && DecisionHas(Find(s.durable, t), P) && ThreadHas(s, t, P)
    ensures DecisionHas(Find(s'.durable, t), P)
  {
  }

  lemma ThreadKeepsHas(s: System, a: Action, s': System, t: TxnId, P: Ts -> bool)
    requires TwoPhase.Step(s, a, s') && (a.Decide? ==> P(s.clock)) && ThreadHas(s, t, P)
    ensures ThreadHas(s', t, P)
  {
  }

  lemma StartHas(s: System, a: Action, sid: ShardId, e: Section, P: Ts -> bool)
    requires AllHave(s, P) && e.Start? && e.ending.Committing? && StartsBy(s, a, sid, e)
    ensures P(e.ending.ts)
  {
    assert TxnHas(s, a.t, P);
  }

  lemma ShardKeepsHas(s: System, a: Action, s': System, sid: ShardId, P: Ts -> bool)
    requires TwoPhase.Step(s, a, s') && AllHave(s, P)
    ensures ShardAt(s', sid, P)
  {
    assert ShardAt(s, sid, P);
    if OnCoordinator(a) {
      Outcomes.CoordinatorOnly(s, a, s');
    } else {
      var q, e := SectionOf(s, a, s');
      if q == sid {
        if e.Start? && e.ending.Committing? { StartHas(s, a, sid, e, P); }
        SectionKeepsHas(s.shards[sid], e, P);
      }
    }
  }

  lemma StepKeepsHas(s: System, a: Action, s': System, P: Ts -> bool)
    requires AllHave(s, P) && TwoPhase.Step(s, a, s') && (a.Decide? ==> P(s.clock))
    ensures AllHave(s', P)
  {
    forall t ensures TxnHas(s', t, P) {
      assert TxnHas(s, t, P);
      TxnKeepsHas(s, a, s', t, P);
    }
    forall sid ensures ShardAt(s', sid, P) { ShardKeepsHas(s, a, s', sid, P); }
  }

  lemma Weaker(s: System, P: Ts -> bool, Q: Ts -> bool)
    requires AllHave(s, P) && forall ts :: P(ts) ==> Q(ts)
    ensures AllHave(s, Q)
  {
    forall t ensures TxnHas(s, t, Q) { assert TxnHas(s, t, P); }
    forall sid ensures ShardAt(s, sid, Q) { assert ShardAt(s, sid, P); }
  }

  lemma NoneAtFirst(s: System, P: Ts -> bool)
    requires Initial(s)
    ensures AllHave(s, P)
  {
    forall t ensures TxnHas(s, t, P) {}
    forall sid ensures ShardAt(s, sid, P) {}
  }

  // ---------------------------------------------------------------- nothing is ahead of the clock

  function Below(c: Ts): Ts -> bool { ts => ts < c }

  lemma ClockGrows(s: System, a: Action, s': System)
    requires TwoPhase.Step(s, a, s') && !a.Reopen?
    ensures s.clock <= s'.clock && (a.Decide? ==> s.clock < s'.clock)
  {
  }

  lemma {:induction false} PathKeepsBelow(ss: seq<System>, acts: seq<Action>, n: nat)
    requires TwoPhase.Path(ss, acts) && Initial(ss[0]) && n < |ss|
    requires forall i :: 0 <= i < n ==> !acts[i].Reopen?
    ensures AllHave(ss[n], Below(ss[n].clock))
  {
    if n == 0 {
      NoneAtFirst(ss[0], Below(ss[0].clock));
    } else {
      PathKeepsBelow(ss, acts, n - 1);
      assert TwoPhase.StepAt(ss, acts, n - 1);
      ClockGrows(ss[n - 1], acts[n - 1], ss[n]);
      Weaker(ss[n - 1], Below(ss[n - 1].clock), Below(ss[n].clock));
      StepKeepsHas(ss[n - 1], acts[n - 1], ss[n], Below(ss[n].clock));
    }
  }

  /** The snapshot is above every commit that a log has and every commit that is decided. */
  ghost predicate Current(s: System, readTs: Ts) {
    && (forall sid :: sid in s.shards ==> LogHas(s.shards[sid].st.log, Below(readTs)))
    && (forall u :: u in s.memory ==> DecisionHas(Some(s.memory[u]), Below(readTs)))
  }

  lemma CurrentIfBelow(s: System, readTs: Ts)
    requires AllHave(s, Below(readTs))
    ensures Current(s, readTs)
  {
    forall sid | sid in s.shards ensures LogHas(s.shards[sid].st.log, Below(readTs)) {
      assert ShardAt(s, sid, Below(readTs));
    }
    forall u | u in s.memory ensures DecisionHas(Some(s.memory[u]), Below(readTs)) {
      assert TxnHas(s, u, Below(readTs));
    }
  }

  /** As long as the coordinator has not been reopened, whatever recoveries and crashes there
      were, a transaction that begins takes a current snapshot. */
  lemma SnapshotIsCurrent(ss: seq<System>, acts: seq<Action>, n: nat)
    requires TwoPhase.Path(ss, acts) && Initial(ss[0]) && n < |acts| && acts[n] == Begin
    requires forall i :: 0 <= i < n ==> !acts[i].Reopen?
    ensures ss[n].nextTxn in ss[n + 1].txns && Current(ss[n], ss[n + 1].txns[ss[n].nextTxn].readTs)
  {
    PathKeepsBelow(ss, acts, n);
    assert TwoPhase.StepAt(ss, acts, n);
    CurrentIfBelow(ss[n], ss[n].clock);
  }

  // ---------------------------------------------------------------- the clock of a reopened coordinator

  function Positive(): Ts -> bool { ts => ts > 0 }

  lemma {:induction false} PathKeepsPositive(ss: seq<System>, acts: seq<Action>, n: nat)
    requires TwoPhase.Path(ss, acts) && Initial(ss[0]) && n < |ss|
    ensures AllHave(ss[n], Positive()) && ss[n].clock > 0
  {
    if n == 0 {
      NoneAtFirst(ss[0], Positive());
    } else {
      PathKeepsPositive(ss, acts, n - 1);
      assert TwoPhase.StepAt(ss, acts, n - 1);
      if !acts[n - 1].Reopen? { ClockGrows(ss[n - 1], acts[n - 1], ss[n]); }
      StepKeepsHas(ss[n - 1], acts[n - 1], ss[n], Positive());
    }
  }

  /** No shard has ever logged a commit, and none is decided. */
  ghost predicate NothingCommitted(s: System) {
    && (forall sid, j :: sid in s.shards && 0 <= j < |s.shards[sid].st.log| ==> !s.shards[sid].st.log[j].TxnCommit?)
    && (forall u :: u in s.memory ==> s.memory[u] == Aborted)
  }

  /** The first transaction after a reopening reads at 1.  Its snapshot is current if and only if
      nothing was committed before. */
  lemma ReopenExact(ss: seq<System>, acts: seq<Action>, n: nat)
    requires TwoPhase.Path(ss, acts) && Initial(ss[0]) && n + 1 < |acts| && acts[n] == Reopen && acts[n + 1] == Begin
    ensures var s, t := ss[n + 1], ss[n + 1].nextTxn;
      && t in ss[n + 2].txns && ss[n + 2].txns[t].readTs == 1
      && (Current(s, ss[n + 2].txns[t].readTs) <==> NothingCommitted(s))
  {
    var s := ss[n + 1];
    assert TwoPhase.StepAt(ss, acts, n) && TwoPhase.StepAt(ss, acts, n + 1);
    PathKeepsPositive(ss, acts, n + 1);
    forall sid | sid in s.shards ensures LogHas(s.shards[sid].st.log, Positive()) {
      assert ShardAt(s, sid, Positive());
    }
    forall u | u in s.memory ensures DecisionHas(Some(s.memory[u]), Positive()) { assert TxnHas(s, u, Positive()); }
    FirstIsCurrent(s);
  }

  lemma FirstIsCurrent(s: System)
    requires forall sid :: sid in s.shards ==> LogHas(s.shards[sid].st.log, Positive())
    requires forall u :: u in s.memory ==> DecisionHas(Some(s.memory[u]), Positive())
    ensures Current(s, 1) <==> NothingCommitted(s)
  {
  }

  /** A run in which that happens: two shards commit a transaction, the coordinator is reopened,
      and the next transaction begins on a snapshot older than the commit. */
  lemma ReopenRun() returns (ss: seq<System>, acts: seq<Action>)
    ensures TwoPhase.Path(ss, acts) && Initial(ss[0]) && |acts| > 0 && acts[|acts| - 1] == Begin
    ensures var s := ss[|ss| - 1];
      && 2 in s.txns && s.txns[2].readTs == 1 && !Current(s, s.txns[2].readTs)
  {
    var s0, begun := RecoveryLimits.DrivenReachable();
    var d := RecoveryLimits.Driven();
    ReachedInv(s0, begun, d);
    var c, committed := CommitsAtClock(d, 1);
    RecoveryLimits.ReachOn(s0, begun, d, committed, c);
    var s1 := Reopened(c);
    var s2 := Put(s1, s1.nextTxn, Txn(1, [], Thread.Idle)).(clock := 2, nextTxn := s1.nextTxn + 1);
    RecoveryLimits.ReachOne(c, Reopen, s1);
    RecoveryLimits.ReachOne(s1, Begin, s2);
    RecoveryLimits.ReachOn(s0, begun + committed, c, [Reopen], s1);
    RecoveryLimits.ReachOn(s0, begun + committed + [Reopen], s1, [Begin], s2);
    acts := begun + committed + [Reopen] + [Begin];
    ss :| TwoPhase.Path(ss, acts) && ss[0] == s0 && ss[|ss| - 1] == s2;
  }

  lemma ReachedInv(s0: System, acts: seq<Action>, s: System)
    requires Initial(s0) && RecoveryLimits.Reaches(s0, acts, s) && forall a :: a in acts ==> !a.Recover?
    ensures TwoPhase.Inv(s)
  {
    var ss :| TwoPhase.Path(ss, acts) && ss[0] == s0 && ss[|ss| - 1] == s;
    forall i | 0 <= i < |acts| ensures Careful(ss[i], acts[i]) { assert acts[i] in acts; }
    RunKeeps(ss, acts, |acts|);
  }

  /** A call whose branches are all admitted leaves a commit at the clock's value. */
  lemma CommitsAtClock(d: System, t: TxnId) returns (s: System, acts: seq<Action>)
    requires TwoPhase.Inv(d) && Undisturbed.Driven(d, t)
    requires forall i :: 0 <= i < |d.txns[t].branches| ==> Undisturbed.Admitted(d, t, d.txns[t].branches[i])
    requires forall sid :: sid in d.shards ==> d.shards[sid].calls == map[]
    ensures RecoveryLimits.Reaches(d, acts, s) && s.shards.Keys == d.shards.Keys && s.nextTxn == d.nextTxn
    ensures forall sid :: sid in s.shards ==> s.shards[sid].calls == map[]
    ensures var sid := d.txns[t].branches[0].shard; sid in s.shards && !LogHas(s.shards[sid].st.log, Below(d.clock))
  {
    var bs := d.txns[t].branches;
    s := Undisturbed.CommitsIfAdmitted(d, t);
    acts := Undisturbed.PhaseOne(bs, t) + ([Decide(t), Persist(t, true)] + Completion.PhaseTwo(bs, t) + [Return(t)]);
    RecoveryLimits.GoesReaches(d, acts, s, t);
    forall sid | sid in s.shards ensures s.shards[sid].calls == map[] {
      if HasBranch(bs, sid) {
        var i :| 0 <= i < |bs| && bs[i].shard == sid;
        var readTs, ws := d.txns[t].readTs, bs[i].writes;
        assert Completion.LogGains(d, s, bs[i].shard, [TxnPrepare(t, readTs, ws), TxnCommit(t, d.clock, ws)]);
      }
    }
    var readTs, ws := d.txns[t].readTs, bs[0].writes;
    assert Completion.LogGains(d, s, bs[0].shard, [TxnPrepare(t, readTs, ws), TxnCommit(t, d.clock, ws)]);
    var log := s.shards[bs[0].shard].st.log;
    assert log[|log| - 1] == TxnCommit(t, d.clock, bs[0].writes);
  }
}
