/** What the runs of two-phase commit (src/dtxn.rs) end in: verdicts that stay, and shards that
    stay consistent as long as every lock is taken under the condition of `Sections.Clear`. */
module Outcomes {
  import opened Keys
  import opened Shard
  import opened Sections
  import opened TwoPhase

  lemma CoordinatorOnly(s: System, a: Action, s': System)
    requires TwoPhase.Step(s, a, s') && OnCoordinator(a)
    ensures s'.shards == s.shards
  {
  }

  lemma SameShards(s: System, a: Action, s': System)
    requires TwoPhase.Step(s, a, s')
    ensures s'.shards.Keys == s.shards.Keys
  {
    if OnCoordinator(a) {
      CoordinatorOnly(s, a, s');
    } else {
      var sid, e := SectionOf(s, a, s');
    }
  }

  // ---------------------------------------------------------------- verdicts

  /** Past the votes no shard is preparing the transaction. */
  lemma NotPreparing(s: System, sid: ShardId, c: Caller, t: TxnId)
    requires TwoPhase.Inv(s) && sid in s.shards && Enabled(s.shards[sid], LogPrepare(c))
    requires t in s.txns && PastVotes(s.txns[t])
    ensures s.shards[sid].calls[c].txn != t
  {
    if s.shards[sid].calls[c].txn == t {
      SystemSeen(s, sid, t);
      MyCall(s.shards[sid], t, c);
      WhoCalls(Views(s, t), s.txns[t], t, Find(s.memory, t), Find(s.durable, t), s.clock, sid, c);
    }
  }

  lemma HeldStep(s: System, a: Action, s': System, sid: ShardId, t: TxnId)
    requires TwoPhase.Inv(s) && TwoPhase.Step(s, a, s') && t in s.txns && PastVotes(s.txns[t])
    requires sid in s.shards && t !in Held(s.shards[sid].st.log)
    ensures sid in s'.shards && t !in Held(s'.shards[sid].st.log)
  {
    if OnCoordinator(a) {
      CoordinatorOnly(s, a, s');
    } else {
      var q, e := SectionOf(s, a, s');
      if e.LogPrepare? { NotPreparing(s, q, e.c, t); }
      if q == sid { HeldSection(s.shards[sid], e, t); }
    }
  }

  lemma HeldSection(m: Machine, e: Section, t: TxnId)
    requires Enabled(m, e) && t !in Held(m.st.log) && (e.LogPrepare? ==> m.calls[e.c].txn != t)
    ensures t !in Held(After(m, e).st.log)
  {
    LogAfter(m, e);
    if Writes(m, e).Some? { HeldAfter(m.st.log, Writes(m, e).value, t); }
  }

  /** A shard that has resolved a transaction past its votes never holds it again. */
  lemma {:induction false} NeverHeldAgain(ss: seq<System>, acts: seq<Action>, n: nat, m: nat, sid: ShardId, t: TxnId)
    requires TwoPhase.Run(ss, acts) && n <= m < |ss| && sid in ss[n].shards
    requires t in ss[n].txns && PastVotes(ss[n].txns[t]) && t !in Held(ss[n].shards[sid].st.log)
    ensures t in ss[m].txns && PastVotes(ss[m].txns[t])
    ensures ss[m].shards.Keys == ss[n].shards.Keys && t !in Held(ss[m].shards[sid].st.log)
    ensures Choice(Find(ss[n].durable, t)) == Aborting ==> Choice(Find(ss[m].durable, t)) == Aborting
  {
    if n < m {
      var k := m - 1;
      NeverHeldAgain(ss, acts, n, k, sid, t);
      RunKeeps(ss, acts, k);
      assert TwoPhase.StepAt(ss, acts, k);
      PastStep(ss[k], acts[k], ss[m], t);
      HeldStep(ss[k], acts[k], ss[m], sid, t);
      SameShards(ss[k], acts[k], ss[m]);
    }
  }

  lemma NotHeldNotLive(m: Machine, t: TxnId)
    requires Linked(m) && t !in Held(m.st.log)
    ensures t !in m.st.pending.prepared
  {
    forall u | u in m.st.pending.prepared ensures u != t {
      assert Entry(Held(m.st.log), u) == Some(m.st.pending.prepared[u]);
    }
  }

  lemma StaysFree(ss: seq<System>, acts: seq<Action>, n: nat, m: nat, t: TxnId, sid: ShardId)
    requires TwoPhase.Run(ss, acts) && n <= m < |ss| && t in ss[n].txns && PastVotes(ss[n].txns[t])
    requires sid in ss[n].shards && Free(ss[n].shards[sid], t)
    ensures sid in ss[m].shards && t !in ss[m].shards[sid].st.pending.prepared && t !in Held(ss[m].shards[sid].st.log)
    ensures t in ss[m].txns && ss[m].shards.Keys == ss[n].shards.Keys
    ensures Choice(Find(ss[n].durable, t)) == Aborting ==> Choice(Find(ss[m].durable, t)) == Aborting
  {
    RunKeeps(ss, acts, n);
    assert ShardOk(ss[n], sid);
    FreeIsNotHeld(ss[n].shards[sid], t);
    NeverHeldAgain(ss, acts, n, m, sid, t);
    RunKeeps(ss, acts, m);
    assert ShardOk(ss[m], sid);
    NotHeldNotLive(ss[m].shards[sid], t);
  }

  /** The verdict is permanent.  Once no shard holds the transaction or runs a call of it, no
      shard holds it ever after, a committed one stays applied on every branch, exactly once,
      and one that is not committed is never applied anywhere. */
  lemma VerdictIsPermanent(ss: seq<System>, acts: seq<Action>, n: nat, m: nat, t: TxnId)
    requires TwoPhase.Run(ss, acts) && n <= m < |ss| && t in ss[n].txns && PastVotes(ss[n].txns[t])
    requires ss[n].shards != map[] && forall sid :: sid in ss[n].shards ==> Free(ss[n].shards[sid], t)
    ensures t in ss[m].txns && forall sid :: sid in ss[m].shards ==> t !in ss[m].shards[sid].st.pending.prepared
    ensures Choice(Find(ss[n].durable, t)).Committing? ==>
      AppliedEverywhere(Views(ss[m], t), ss[m].txns[t], t, Find(ss[n].durable, t))
    ensures Choice(Find(ss[n].durable, t)) == Aborting ==> AppliedNowhere(Views(ss[m], t))
  {
    var any :| any in ss[n].shards;
    StaysFree(ss, acts, n, m, t, any);
    forall sid | sid in ss[m].shards
      ensures t !in ss[m].shards[sid].st.pending.prepared && Views(ss[m], t)[sid].held == None
    {
      StaysFree(ss, acts, n, m, t, sid);
    }
    ReachableTxn(ss, acts, m, t);
    var s := ss[m];
    Settled(Views(s, t), s.txns[t], t, Find(s.memory, t), Find(s.durable, t), s.clock);
    match Find<Decision>(ss[n].durable, t) {
      case Some(Committed(ts)) => DecisionsStand(ss, acts, n, m, t, ts);
      case _ =>
    }
  }

  // ---------------------------------------------------------------- shards

  /** Every lock of the step is taken under the condition. */
  ghost predicate ClearAct(s: System, a: Action) {
    a.Within? && a.sid in s.shards ==> ClearStep(s.shards[a.sid], a.e)
  }

  ghost predicate AllSound(s: System) {
    forall sid :: SoundAt(s, sid)
  }

  ghost predicate SoundAt(s: System, sid: ShardId) {
    sid in s.shards ==> Sound(s.shards[sid])
  }

  lemma AskDisciplined(s: System, t: TxnId, s': System)
    requires TwoPhase.Inv(s) && TwoPhase.Step(s, Ask(t), s')
    ensures Disciplined(s.shards[TheBranch(s, t).shard], AskSection(t, s.txns[t]))
  {
    var sid := TheBranch(s, t).shard;
    SystemSeen(s, sid, t);
    AskTxn(Views(s, t), s.txns[t], t, Find(s.memory, t), Find(s.durable, t), s.clock, sid, s.shards[sid]);
  }

  lemma StartDisciplined(s: System, sid: ShardId, c: Caller, t: TxnId)
    requires TwoPhase.Inv(s) && t in s.txns && PastVotes(s.txns[t]) && sid in s.shards && c !in s.shards[sid].calls
    ensures Disciplined(s.shards[sid], Start(c, t, Choice(Find(s.durable, t))))
  {
    SystemSeen(s, sid, t);
    StartTxn(Views(s, t), s.txns[t], t, Find(s.memory, t), Find(s.durable, t), s.clock, sid, s.shards[sid], c);
  }

  lemma RecoverDisciplined(s: System, sid: ShardId, t: TxnId, id: nat, s': System)
    requires TwoPhase.Inv(s) && TwoPhase.Step(s, Recover(sid, t, id), s') && MayRecover(s, t)
    ensures Disciplined(s.shards[sid], Start(Recovery(id), t, Choice(Find(s.memory, t))))
  {
    assert TxnOk(s, t);
    RecoverChoice(Views(s, t), s.txns[t], t, Find(s.memory, t), Find(s.durable, t), s.clock);
    StartDisciplined(s, sid, Recovery(id), t);
  }

  lemma DriverDisciplined(s: System, sid: ShardId, t: TxnId, ending: Ending)
    requires TwoPhase.Inv(s) && t in s.txns && (s.txns[t].thread.AbortPhase? || s.txns[t].thread.CommitPhase?)
    requires sid in s.shards && Driver(t) !in s.shards[sid].calls
    requires ending == if s.txns[t].thread.AbortPhase? then Aborting else Committing(s.txns[t].thread.ts)
    ensures Disciplined(s.shards[sid], Start(Driver(t), t, ending))
  {
    DriverStarts(s, t);
    StartDisciplined(s, sid, Driver(t), t);
  }

  /** Every step of the protocol keeps its participants' discipline. */
  lemma ActDisciplined(s: System, a: Action, s': System) returns (sid: ShardId, e: Section)
    requires TwoPhase.Inv(s) && TwoPhase.Step(s, a, s') && Careful(s, a) && !OnCoordinator(a)
    ensures sid in s.shards && Enabled(s.shards[sid], e) && Disciplined(s.shards[sid], e)
    ensures s'.shards == s.shards[sid := After(s.shards[sid], e)]
    ensures e.Lock? ==> a == Within(sid, e)
  {
    sid, e := SectionOf(s, a, s');
    if e.Validate? {
      AskDisciplined(s, a.t, s');
    } else if e.Start? {
      if a.Recover? { RecoverDisciplined(s, sid, a.t, a.id, s'); } else { DriverDisciplined(s, sid, a.t, e.ending); }
    }
  }

  lemma SoundStep(s: System, a: Action, s': System)
    requires TwoPhase.Inv(s) && AllSound(s) && TwoPhase.Step(s, a, s') && Careful(s, a) && ClearAct(s, a)
    ensures AllSound(s')
  {
    if OnCoordinator(a) {
      CoordinatorOnly(s, a, s');
      forall q ensures SoundAt(s', q) { assert SoundAt(s, q); }
    } else {
      var sid, e := ActDisciplined(s, a, s');
      assert SoundAt(s, sid);
      StepKeepsSound(s.shards[sid], e, After(s.shards[sid], e));
      forall q ensures SoundAt(s', q) { assert SoundAt(s, q); }
    }
  }

  lemma {:induction false} RunKeepsSound(ss: seq<System>, acts: seq<Action>, n: nat)
    requires TwoPhase.Run(ss, acts) && n < |ss|
    requires forall i :: 0 <= i < |acts| ==> ClearAct(ss[i], acts[i])
    ensures AllSound(ss[n])
  {
    if n == 0 {
      StartSound();
      forall sid ensures SoundAt(ss[0], sid) {}
    } else {
      RunKeepsSound(ss, acts, n - 1);
      RunKeeps(ss, acts, n - 1);
      assert TwoPhase.StepAt(ss, acts, n - 1) && Careful(ss[n - 1], acts[n - 1]) && ClearAct(ss[n - 1], acts[n - 1]);
      SoundStep(ss[n - 1], acts[n - 1], ss[n]);
    }
  }

  /** Every shard of every state of a clear run: its log replays to exact locks and increasing
      commit timestamps, it recovers from a crash at that point to a consistent shard, and
      between calls it is one. */
  lemma ShardsStayConsistent(ss: seq<System>, acts: seq<Action>, n: nat, sid: ShardId)
    requires TwoPhase.Run(ss, acts) && n < |ss| && sid in ss[n].shards
    requires forall i :: 0 <= i < |acts| ==> ClearAct(ss[i], acts[i])
    ensures var m := ss[n].shards[sid];
      && LocksExact(ReplayPending(m.st.log)) && CommitsIncrease(m.st.log)
      && Shard.Inv(Replay(m.st)) && (m.calls == map[] ==> Shard.Inv(m.st))
  {
    RunKeepsSound(ss, acts, n);
    var m := ss[n].shards[sid];
    assert SoundAt(ss[n], sid);
    CrashSound(m);
    IdleShard(After(m, Section.Crash));
    if m.calls == map[] { IdleShard(m); }
  }

  // ---------------------------------------------------------------- what a prepare lets pass

  /** In every clear run: a branch is sent to its shard and validated only if the key at every
      index of its reads and of its writes has no commit after the transaction's snapshot in
      the shard's log, save those of calls in progress. */
  lemma AskedIsFresh(ss: seq<System>, acts: seq<Action>, n: nat, t: TxnId)
    requires TwoPhase.Run(ss, acts) && n < |acts| && acts[n] == Ask(t)
    requires forall i :: 0 <= i < |acts| ==> ClearAct(ss[i], acts[i])
    ensures AtBranch(ss[n], t, false) && TheBranch(ss[n], t).shard in ss[n].shards
    ensures var b, m, readTs := TheBranch(ss[n], t), ss[n].shards[TheBranch(ss[n], t).shard], ss[n].txns[t].readTs;
      && (forall i :: 0 <= i < |b.readSet| ==> FreshBut(m, b.readSet[i].0, readTs))
      && (forall i :: 0 <= i < |b.writes| ==> FreshBut(m, b.writes[i].key, readTs))
  {
    RunKeepsSound(ss, acts, n);
    assert TwoPhase.StepAt(ss, acts, n);
    var sid := TheBranch(ss[n], t).shard;
    assert SoundAt(ss[n], sid);
    ValidatedIsFresh(ss[n].shards[sid], AskSection(t, ss[n].txns[t]));
  }

  ghost predicate NotesAt(s: System, sid: ShardId) {
    sid in s.shards ==> NotesLogged(s.shards[sid])
  }

  lemma {:induction false} PathKeepsNotes(ss: seq<System>, acts: seq<Action>, n: nat, sid: ShardId)
    requires TwoPhase.Path(ss, acts) && Initial(ss[0]) && n < |ss|
    ensures NotesAt(ss[n], sid)
  {
    if n > 0 {
      PathKeepsNotes(ss, acts, n - 1, sid);
      assert TwoPhase.StepAt(ss, acts, n - 1);
      NotesStep(ss[n - 1], acts[n - 1], ss[n], sid);
    }
  }

  lemma NotesStep(s: System, a: Action, s': System, sid: ShardId)
    requires TwoPhase.Step(s, a, s') && NotesAt(s, sid)
    ensures NotesAt(s', sid)
  {
    if OnCoordinator(a) {
      CoordinatorOnly(s, a, s');
    } else {
      var q, e := SectionOf(s, a, s');
      if q == sid { SectionKeepsNotes(s.shards[sid], e); }
    }
  }

  /** In every run, whatever recoveries it starts: a branch that its known, unoccupied shard does
      not let pass has a key, at some index of its reads or its writes, that the shard's log
      commits after the transaction's snapshot. */
  lemma UnaskedIsStale(ss: seq<System>, acts: seq<Action>, n: nat, t: TxnId)
    requires TwoPhase.Path(ss, acts) && Initial(ss[0]) && n < |ss| && AtBranch(ss[n], t, false)
    requires TheBranch(ss[n], t).shard in ss[n].shards && !Busy(ss[n], TheBranch(ss[n], t).shard, Driver(t))
    requires forall s' :: !TwoPhase.Step(ss[n], Ask(t), s')
    ensures var b := TheBranch(ss[n], t);
      Stale(ss[n].shards[b.shard].st.log, ss[n].txns[t].readTs, b.writes, b.readSet)
  {
    var s, sid, e := ss[n], TheBranch(ss[n], t).shard, AskSection(t, ss[n].txns[t]);
    PathKeepsNotes(ss, acts, n, sid);
    if Enabled(s.shards[sid], e) {
      var s' := PutShard(Move(s, t, s.txns[t].thread.(asked := true)), sid, After(s.shards[sid], e));
      assert TwoPhase.Step(s, Ask(t), s');
    }
    RefusedIsStale(s.shards[sid], e);
  }
}
