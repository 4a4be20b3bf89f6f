/** What overlapping calls of one shard do (src/dtxn.rs).  A call whose sections run back to
    back is the atomic call; a prepare that locks its keys without the condition `Clear` leads
    to a shard that no atomic calls could produce. */
module Overlap {
  import opened Keys
  import opened Shard
  import opened Sections

  // ---------------------------------------------------------------- paths

  lemma Join(ms: seq<Machine>, es: seq<Section>, ns: seq<Machine>, fs: seq<Section>)
    requires Path(ms, es) && Path(ns, fs) && ms[|ms| - 1] == ns[0]
    ensures Path(ms + ns[1..], es + fs)
  {
    var all, acts := ms + ns[1..], es + fs;
    forall i | 0 <= i < |acts| ensures StepAt(all, acts, i) {
      if i < |es| {
        assert StepAt(ms, es, i) && all[i + 1] == ms[i + 1];
      } else {
        assert StepAt(ns, fs, i - |es|) && all[i] == ns[i - |es|] && all[i + 1] == ns[i - |es| + 1];
      }
    }
  }

  lemma One(m: Machine, e: Section, m': Machine)
    requires Sections.Step(m, e, m')
    ensures Path([m, m'], [e])
  {
    assert StepAt([m, m'], [e], 0);
  }

  /** Runs `es` from `m`. */
  ghost predicate Leads(m: Machine, es: seq<Section>, m': Machine) {
    exists ms :: Path(ms, es) && ms[0] == m && ms[|ms| - 1] == m'
  }

  lemma LeadsOne(m: Machine, e: Section, m': Machine)
    requires Sections.Step(m, e, m')
    ensures Leads(m, [e], m')
  {
    One(m, e, m');
    assert [m, m'][0] == m && [m, m'][|[m, m']| - 1] == m';
  }

  lemma LeadsOn(m: Machine, es: seq<Section>, m1: Machine, fs: seq<Section>, m2: Machine)
    requires Leads(m, es, m1) && Leads(m1, fs, m2)
    ensures Leads(m, es + fs, m2)
  {
    var ms :| Path(ms, es) && ms[0] == m && ms[|ms| - 1] == m1;
    var ns :| Path(ns, fs) && ns[0] == m1 && ns[|ns| - 1] == m2;
    Join(ms, es, ns, fs);
    var all := ms + ns[1..];
    assert all[0] == m && all[|all| - 1] == m2;
  }

  // ---------------------------------------------------------------- a call with nothing in between

  function Ended(m: Machine, c: Caller, st: State): Machine {
    Machine(st, m.calls - {c})
  }

  /** The sections of a prepare that has validated, back to back, are the atomic prepare. */
  lemma PrepareAlone(m: Machine, c: Caller)
    requires Enabled(m, Lock(c))
    ensures var call := m.calls[c];
      Leads(m, [Lock(c), LogPrepare(c), Insert(c)],
            Ended(m, c, Shard.Prepare(m.st, call.txn, call.readTs, call.writes)))
  {
    var m1 := After(m, Lock(c));
    var m2 := After(m1, LogPrepare(c));
    var m3 := After(m2, Insert(c));
    LeadsOne(m, Lock(c), m1);
    LeadsOne(m1, LogPrepare(c), m2);
    LeadsOne(m2, Insert(c), m3);
    LeadsOn(m, [Lock(c)], m1, [LogPrepare(c)], m2);
    assert [Lock(c)] + [LogPrepare(c)] == [Lock(c), LogPrepare(c)];
    LeadsOn(m, [Lock(c), LogPrepare(c)], m2, [Insert(c)], m3);
    assert [Lock(c), LogPrepare(c)] + [Insert(c)] == [Lock(c), LogPrepare(c), Insert(c)];
    assert m3.calls == m.calls - {c};
  }

  /** The sections of a commit, back to back, are the atomic commit. */
  lemma CommitAlone(m: Machine, c: Caller)
    requires Enabled(m, Take(c)) && m.calls[c].ending.Committing?
    ensures var call := m.calls[c];
      Leads(m, [Take(c), Unlock(c), LogEnd(c), Apply(c)], Ended(m, c, Shard.Commit(m.st, call.txn, call.ending.ts)))
  {
    var m1 := After(m, Take(c));
    var m2 := After(m1, Unlock(c));
    var m3 := After(m2, LogEnd(c));
    var m4 := After(m3, Apply(c));
    LeadsOne(m, Take(c), m1);
    LeadsOne(m1, Unlock(c), m2);
    LeadsOne(m2, LogEnd(c), m3);
    LeadsOne(m3, Apply(c), m4);
    LeadsOn(m, [Take(c)], m1, [Unlock(c)], m2);
    LeadsOn(m2, [LogEnd(c)], m3, [Apply(c)], m4);
    assert [Take(c)] + [Unlock(c)] == [Take(c), Unlock(c)] && [LogEnd(c)] + [Apply(c)] == [LogEnd(c), Apply(c)];
    LeadsOn(m, [Take(c), Unlock(c)], m2, [LogEnd(c), Apply(c)], m4);
    assert [Take(c), Unlock(c)] + [LogEnd(c), Apply(c)] == [Take(c), Unlock(c), LogEnd(c), Apply(c)];
    assert m4.calls == m.calls - {c};
  }

  /** The sections of an abort, back to back, are the atomic abort. */
  lemma AbortAlone(m: Machine, c: Caller)
    requires Enabled(m, Take(c)) && m.calls[c].ending == Aborting
    ensures Leads(m, [Take(c), Unlock(c), LogEnd(c)], Ended(m, c, Shard.Abort(m.st, m.calls[c].txn)))
  {
    var m1 := After(m, Take(c));
    var m2 := After(m1, Unlock(c));
    var m3 := After(m2, LogEnd(c));
    LeadsOne(m, Take(c), m1);
    LeadsOne(m1, Unlock(c), m2);
    LeadsOne(m2, LogEnd(c), m3);
    LeadsOn(m, [Take(c)], m1, [Unlock(c)], m2);
    assert [Take(c)] + [Unlock(c)] == [Take(c), Unlock(c)];
    LeadsOn(m, [Take(c), Unlock(c)], m2, [LogEnd(c)], m3);
    assert [Take(c), Unlock(c)] + [LogEnd(c)] == [Take(c), Unlock(c), LogEnd(c)];
    assert m3.calls == m.calls - {c};
    assert m3.st == Shard.Abort(m.st, m.calls[c].txn);
  }

  // ---------------------------------------------------------------- the condition is exact

  /** What clear runs exclude: a lock table that a replay would get wrong, a transaction
      prepared on a snapshot older than the newest commit of its key, and a key whose newest
      commit was overwritten by an older one. */
  ghost predicate Broken(m: Machine) {
    || !LocksExact(ReplayPending(m.st.log))
    || !SnapshotsHold(m.st)
    || (exists k :: !Unapplied(m.calls, k) && LastIn(m.st.lastCommit, k) != LastCommitTs(m.st.log, k))
  }

  lemma SoundIsNotBroken(m: Machine)
    requires Sound(m)
    ensures !Broken(m)
  {
    forall t, k | t in m.st.pending.prepared && k in WriteKeys(m.st.pending.prepared[t]) && k in m.st.lastCommit
      ensures m.st.lastCommit[k] <= PrepareTs(m.st.log, t)
    {
      PreparedUpToDate(m, t, k);
      LastOfLog(m.st.log, k);
      assert t in OfLog(m.st.log).pending.prepared;
    }
    forall k | !Unapplied(m.calls, k) ensures LastIn(m.st.lastCommit, k) == LastCommitTs(m.st.log, k) {
      assert UpToDate(m.st, k);
    }
  }

  lemma PreparedUpToDate(m: Machine, t: TxnId, k: Key)
    requires Sound(m) && t in m.st.pending.prepared && k in WriteKeys(m.st.pending.prepared[t])
    ensures UpToDate(m.st, k) && Entry(Held(m.st.log), t) == Some(m.st.pending.prepared[t])
  {
    assert LockedBy(m.st.pending.locks, k, t);
    assert UpToDate(m.st, k) || Unapplied(m.calls, k);
  }

  /** Carrying on with `c` locking leads to a broken shard. */
  ghost predicate Doomed(m: Machine, c: Caller) {
    exists es, m' :: es != [] && es[0] == Lock(c) && Leads(m, es, m') && Broken(m')
  }

  function PreparedBy(m: Machine, c: Caller): Machine
    requires Enabled(m, Lock(c))
  {
    Ended(m, c, Shard.Prepare(m.st, m.calls[c].txn, m.calls[c].readTs, m.calls[c].writes))
  }

  /** The prepare runs to its end, then one more section. */
  lemma PrepareThen(m: Machine, c: Caller, e: Section)
    requires Enabled(m, Lock(c)) && Enabled(PreparedBy(m, c), e) && Disciplined(PreparedBy(m, c), e)
    requires Broken(After(PreparedBy(m, c), e))
    ensures Doomed(m, c)
  {
    PrepareAlone(m, c);
    Extend(m, c, [Lock(c), LogPrepare(c), Insert(c)], PreparedBy(m, c), e);
  }

  lemma Extend(m: Machine, c: Caller, es: seq<Section>, m1: Machine, e: Section)
    requires Leads(m, es, m1) && es != [] && es[0] == Lock(c)
    requires Enabled(m1, e) && Disciplined(m1, e) && Broken(After(m1, e))
    ensures Doomed(m, c)
  {
    LeadsOne(m1, e, After(m1, e));
    LeadsOn(m, es, m1, [e], After(m1, e));
    assert (es + [e])[0] == Lock(c);
  }

  lemma NewestRead(m: Machine, c: Caller)
    requires Enabled(m, Lock(c))
    ensures PrepareTs(PreparedBy(m, c).st.log, m.calls[c].txn) == m.calls[c].readTs
  {
    var call := m.calls[c];
    AppendTs(m.st.log, TxnPrepare(call.txn, call.readTs, call.writes), call.txn);
  }

  /** Case 1: a commit of the key went through since the call validated. */
  lemma StaleBreaks(m: Machine, c: Caller, k: Key)
    requires Enabled(m, Lock(c)) && k in WriteKeys(m.calls[c].writes)
    requires k in m.st.lastCommit && m.st.lastCommit[k] > m.calls[c].readTs
    ensures Doomed(m, c)
  {
    var m', es := PreparedBy(m, c), [Lock(c), LogPrepare(c), Insert(c)];
    PrepareAlone(m, c);
    NewestRead(m, c);
    assert m.calls[c].txn in m'.st.pending.prepared && k in WriteKeys(m'.st.pending.prepared[m.calls[c].txn]);
    assert Broken(m') && es[0] == Lock(c);
  }

  /** Case 2: another call has unlocked the key and not yet written its record. */
  lemma ReleasedBreaks(m: Machine, c: Caller, d: Caller, k: Key)
    requires Linked(m) && Enabled(m, Lock(c)) && k in WriteKeys(m.calls[c].writes)
    requires d in m.calls && Enabled(m, LogEnd(d)) && Unlocks(m.calls[d], m.st.log, k)
    requires k in WriteKeys(Held(m.st.log)[m.calls[d].txn])
    ensures Doomed(m, c)
  {
    var call, m1 := m.calls[c], PreparedBy(m, c);
    assert CallLinked(m.st.pending.prepared, m.st.log, call);
    assert m1.calls[d] == m.calls[d] && Enabled(m1, LogEnd(d));
    LateRecord(m.st.log, call.txn, call.readTs, call.writes, Record(m.calls[d]), k);
    PrepareThen(m, c, LogEnd(d));
  }

  /** A prepare of `k` followed by the record that resolves an earlier prepare of `k`. */
  lemma LateRecord(log: seq<Command>, t: TxnId, readTs: Ts, ws: seq<Write>, r: Command, k: Key)
    requires r.TxnAbort? || r.TxnCommit?
    requires r.txn != t && k in WriteKeys(ws) && r.txn in Held(log)
    requires if r.TxnCommit? then k in WriteKeys(r.ops) else k in WriteKeys(Held(log)[r.txn])
    ensures !LocksExact(ReplayPending(log + [TxnPrepare(t, readTs, ws)] + [r]))
  {
    var p := TxnPrepare(t, readTs, ws);
    Snoc(log, p);
    assert ReplayPending(log + [p]) == ReplayCommand(ReplayPending(log), p);
    Snoc(log + [p], r);
    var pl := ReplayPending(log + [p] + [r]);
    assert pl == ReplayCommand(ReplayPending(log + [p]), r);
    assert t in pl.prepared && k in WriteKeys(pl.prepared[t]) && k !in pl.locks;
  }

  /** Case 3: another call has logged a later commit of the key and not yet applied it. */
  lemma NewerBreaks(m: Machine, c: Caller, d: Caller, k: Key)
    requires Enabled(m, Lock(c)) && k in WriteKeys(m.calls[c].writes)
    requires d in m.calls && AppliesKey(m.calls[d], k) && m.calls[d].ts > m.calls[c].readTs
    ensures Doomed(m, c)
  {
    var call, m1 := m.calls[c], PreparedBy(m, c);
    assert m1.calls[d] == m.calls[d] && Enabled(m1, Apply(d));
    var m2 := After(m1, Apply(d));
    NewestRead(m, c);
    assert call.txn in m2.st.pending.prepared && k in WriteKeys(m2.st.pending.prepared[call.txn]);
    assert k in m2.st.lastCommit && m2.st.lastCommit[k] == m.calls[d].ts;
    assert Broken(m2);
    PrepareThen(m, c, Apply(d));
  }

  function CommittedBy(m: Machine, c: Caller): Machine
    requires Enabled(m, Lock(c))
  {
    Ended(m, c, Shard.Commit(PreparedBy(m, c).st, m.calls[c].txn, m.calls[c].readTs + 1))
  }

  function ItsCommit(m: Machine, c: Caller): Section
    requires Enabled(m, Lock(c))
  {
    Start(c, m.calls[c].txn, Committing(m.calls[c].readTs + 1))
  }

  lemma MayCommit(m: Machine, c: Caller)
    requires Linked(m) && Enabled(m, Lock(c))
    ensures Enabled(PreparedBy(m, c), ItsCommit(m, c)) && Disciplined(PreparedBy(m, c), ItsCommit(m, c))
  {
    var call, m1 := m.calls[c], PreparedBy(m, c);
    NewestRead(m, c);
    forall b | b in m1.calls && m1.calls[b].txn == call.txn ensures m1.calls[b].Applying? {
      assert Compatible(m.calls[c], m.calls[b]);
    }
  }

  lemma CommitFollows(m: Machine, c: Caller)
    requires Linked(m) && Enabled(m, Lock(c))
    ensures Leads(PreparedBy(m, c), [ItsCommit(m, c)] + [Take(c), Unlock(c), LogEnd(c), Apply(c)], CommittedBy(m, c))
  {
    var m1, e := PreparedBy(m, c), ItsCommit(m, c);
    MayCommit(m, c);
    var m2 := After(m1, e);
    LeadsOne(m1, e, m2);
    CommitAlone(m2, c);
    assert m2.calls - {c} == m.calls - {c};
    LeadsOn(m1, [e], m2, [Take(c), Unlock(c), LogEnd(c), Apply(c)], CommittedBy(m, c));
  }

  /** The prepare and then a whole commit of the same transaction. */
  lemma CommitNext(m: Machine, c: Caller) returns (es: seq<Section>)
    requires Linked(m) && Enabled(m, Lock(c))
    ensures Leads(m, es, CommittedBy(m, c)) && es != [] && es[0] == Lock(c)
  {
    var fs, gs := [Lock(c), LogPrepare(c), Insert(c)], [ItsCommit(m, c)] + [Take(c), Unlock(c), LogEnd(c), Apply(c)];
    PrepareAlone(m, c);
    CommitFollows(m, c);
    LeadsOn(m, fs, PreparedBy(m, c), gs, CommittedBy(m, c));
    es := fs + gs;
  }

  /** Case 4: another call has logged an older commit of the key and not yet applied it. */
  lemma OlderBreaks(m: Machine, c: Caller, d: Caller, k: Key)
    requires Linked(m) && ApplyingOnce(m.calls) && Enabled(m, Lock(c)) && k in WriteKeys(m.calls[c].writes)
    requires d in m.calls && AppliesKey(m.calls[d], k) && m.calls[d].ts <= m.calls[c].readTs
    ensures Doomed(m, c)
  {
    var es := CommitNext(m, c);
    Overwrites(m, c, d, k);
    Extend(m, c, es, CommittedBy(m, c), Apply(d));
  }

  lemma Overwrites(m: Machine, c: Caller, d: Caller, k: Key)
    requires ApplyingOnce(m.calls) && Enabled(m, Lock(c)) && k in WriteKeys(m.calls[c].writes)
    requires d in m.calls && AppliesKey(m.calls[d], k) && m.calls[d].ts <= m.calls[c].readTs
    ensures Enabled(CommittedBy(m, c), Apply(d)) && Broken(After(CommittedBy(m, c), Apply(d)))
  {
    var m1 := CommittedBy(m, c);
    assert m1.calls[d] == m.calls[d] && Enabled(m1, Apply(d));
    CommittedLast(m, c, k);
    assert After(m1, Apply(d)).st.log == m1.st.log;
    OverwrittenBreaks(m, c, d, k, After(m1, Apply(d)));
  }

  lemma CommittedLast(m: Machine, c: Caller, k: Key)
    requires Enabled(m, Lock(c)) && k in WriteKeys(m.calls[c].writes)
    ensures LastCommitTs(CommittedBy(m, c).st.log, k) == Some(m.calls[c].readTs + 1)
  {
    var call := m.calls[c];
    LastAfter(PreparedBy(m, c).st.log, TxnCommit(call.txn, call.readTs + 1, call.writes), k);
  }

  lemma OverwrittenBreaks(m: Machine, c: Caller, d: Caller, k: Key, m': Machine)
    requires ApplyingOnce(m.calls) && d in m.calls && AppliesKey(m.calls[d], k)
    requires m'.calls == m.calls - {c} - {d} && LastIn(m'.st.lastCommit, k) == Some(m.calls[d].ts)
    requires LastCommitTs(m'.st.log, k).Some? && LastCommitTs(m'.st.log, k).value > m.calls[d].ts
    ensures Broken(m')
  {
    assert !Unapplied(m'.calls, k) by {
      forall b | b in m'.calls ensures !AppliesKey(m'.calls[b], k) { assert m'.calls[b] == m.calls[b]; }
    }
  }

  lemma UnclearBreaks(m: Machine, c: Caller)
    requires Sound(m) && Enabled(m, Lock(c)) && !Clear(m, c)
    ensures Doomed(m, c)
  {
    var k :| k in WriteKeys(m.calls[c].writes) &&
             (|| k in ReplayPending(m.st.log).locks
              || (k in m.st.lastCommit && m.st.lastCommit[k] > m.calls[c].readTs)
              || Unapplied(m.calls, k));
    if k in m.st.lastCommit && m.st.lastCommit[k] > m.calls[c].readTs {
      StaleBreaks(m, c, k);
    } else if Unapplied(m.calls, k) {
      var d :| d in m.calls && AppliesKey(m.calls[d], k);
      if m.calls[d].ts > m.calls[c].readTs { NewerBreaks(m, c, d, k); } else { OlderBreaks(m, c, d, k); }
    } else {
      var t := ReplayPending(m.st.log).locks[k];
      NobodyOwns(m, c, k);
      HeldIsLive(m, t, k);
      var d :| d in m.calls && m.calls[d].txn == t && Unlocks(m.calls[d], m.st.log, k);
      assert CallLinked(m.st.pending.prepared, m.st.log, m.calls[d]);
      ReleasedBreaks(m, c, d, k);
    }
  }

  /** A lock section keeps the shard sound if it runs under the condition, and if it does not,
      the calls that are running can be carried on to a broken shard. */
  lemma LockIsSafeExactlyWhenClear(m: Machine, c: Caller)
    requires Sound(m) && Enabled(m, Lock(c))
    ensures Clear(m, c) ==> Sound(After(m, Lock(c))) && !Broken(After(m, Lock(c)))
    ensures !Clear(m, c) ==> Doomed(m, c)
  {
    if Clear(m, c) {
      LockSound(m, c);
      SoundIsNotBroken(After(m, Lock(c)));
    } else {
      UnclearBreaks(m, c);
    }
  }

  // ---------------------------------------------------------------- the run of the source

  function Cell(t: TxnId): seq<Write> {
    [Write(0.0, Some(if t == 1 then "a" else "b"))]
  }

  lemma CellKey(t: TxnId)
    ensures WriteKeys(Cell(t)) == {0.0}
  {
    assert Cell(t)[0].key in WriteKeys(Cell(t));
  }

  function Record1(): Command { TxnPrepare(1, 1, Cell(1)) }

  function Record2(): Command { TxnPrepare(2, 2, Cell(2)) }

  function Record3(): Command { TxnCommit(1, 3, Cell(1)) }

  /** Transaction 1 prepared. */
  function Before1(): Machine {
    Machine(State(map[], Pending(map[1 := Cell(1)], map[0.0 := 1]), [Record1()], map[]), map[])
  }

  /** Transaction 1 has given up its entry and its lock. */
  function Between(): Machine {
    Machine(State(map[], Pending(map[], map[]), [Record1()], map[]),
            map[Driver(1) := Released(1, Committing(3), Some(Cell(1)))])
  }

  /** Transaction 2 prepared meanwhile. */
  function Overtaken(): Machine {
    Machine(State(map[], Pending(map[2 := Cell(2)], map[0.0 := 2]), [Record1(), Record2()], map[]), Between().calls)
  }

  function Over(): Machine {
    Machine(State(ApplyWrites(map[], Cell(1), 3), Pending(map[2 := Cell(2)], map[0.0 := 2]),
                  [Record1(), Record2(), Record3()], map[0.0 := 3]), map[])
  }

  lemma Prepares1()
    ensures Leads(START,
                  [Validate(Driver(1), 1, 1, Cell(1), [])] +
                  [Lock(Driver(1)), LogPrepare(Driver(1)), Insert(Driver(1))],
                  Before1())
  {
    var c := Driver(1);
    CellKey(1);
    var m := After(START, Validate(c, 1, 1, Cell(1), []));
    LeadsOne(START, Validate(c, 1, 1, Cell(1), []), m);
    PrepareAlone(m, c);
    assert PreparedBy(m, c) == Before1();
    LeadsOn(START, [Validate(c, 1, 1, Cell(1), [])], m, [Lock(c), LogPrepare(c), Insert(c)], Before1());
  }

  lemma Releases1()
    ensures Leads(Before1(), [Start(Driver(1), 1, Committing(3))] + [Take(Driver(1))] + [Unlock(Driver(1))], Between())
  {
    var c, m := Driver(1), Before1();
    CellKey(1);
    assert PrepareTs(m.st.log, 1) == 1;
    var m1 := After(m, Start(c, 1, Committing(3)));
    var m2 := After(m1, Take(c));
    LeadsOne(m, Start(c, 1, Committing(3)), m1);
    LeadsOne(m1, Take(c), m2);
    LeadsOne(m2, Unlock(c), Between());
    LeadsOn(m, [Start(c, 1, Committing(3))], m1, [Take(c)], m2);
    LeadsOn(m, [Start(c, 1, Committing(3))] + [Take(c)], m2, [Unlock(c)], Between());
  }

  lemma Overtakes2()
    ensures Leads(Between(),
                  [Validate(Driver(2), 2, 2, Cell(2), [])] +
                  [Lock(Driver(2)), LogPrepare(Driver(2)), Insert(Driver(2))],
                  Overtaken())
  {
    var c, m0 := Driver(2), Between();
    CellKey(2);
    var m := After(m0, Validate(c, 2, 2, Cell(2), []));
    LeadsOne(m0, Validate(c, 2, 2, Cell(2), []), m);
    PrepareAlone(m, c);
    assert PreparedBy(m, c) == Overtaken();
    LeadsOn(m0, [Validate(c, 2, 2, Cell(2), [])], m, [Lock(c), LogPrepare(c), Insert(c)], Overtaken());
  }

  lemma Finishes1()
    ensures Leads(Overtaken(), [LogEnd(Driver(1))] + [Apply(Driver(1))], Over())
  {
    var c, m := Driver(1), Overtaken();
    CellKey(1);
    var m1 := After(m, LogEnd(c));
    LeadsOne(m, LogEnd(c), m1);
    assert m1.st.log == [Record1(), Record2(), Record3()];
    assert NoteCommits(map[], Cell(1), 3) == map[0.0 := 3];
    LeadsOne(m1, Apply(c), Over());
    LeadsOn(m, [LogEnd(c)], m1, [Apply(c)], Over());
  }

  lemma OverReplays()
    ensures ReplayPending(Over().st.log) == Pending(map[2 := Cell(2)], map[]) && PrepareTs(Over().st.log, 2) == 2
  {
    var log1, log2, log3 := [Record1()], [Record1(), Record2()], Over().st.log;
    CellKey(1);
    CellKey(2);
    assert log1[..0] == [] && log2[..1] == log1 && log3[..2] == log2;
    assert ReplayPending(log1) == Pending(map[1 := Cell(1)], map[0.0 := 1]);
    assert ReplayPending(log2) == Pending(map[1 := Cell(1), 2 := Cell(2)], map[0.0 := 2]);
    assert PrepareTs(log2, 2) == 2;
  }

  /** Transaction 1 commits while transaction 2 prepares the same key: 1 gives up its lock, 2
      validates, locks and logs, and only then does 1 log and apply.  With every call over, a
      replay of the log holds 2 prepared without its lock, and 2 is prepared on a snapshot
      older than the newest commit of its key. */
  lemma OverlapLosesLock() returns (ms: seq<Machine>, es: seq<Section>)
    ensures Sections.Run(ms, es)
    ensures var m := ms[|ms| - 1];
      && m.calls == map[]
      && m.st.log == [TxnPrepare(1, 1, Cell(1)), TxnPrepare(2, 2, Cell(2)), TxnCommit(1, 3, Cell(1))]
      && m.st.pending == Pending(map[2 := Cell(2)], map[0.0 := 2])
      && ReplayPending(m.st.log) == Pending(map[2 := Cell(2)], map[])
      && m.st.lastCommit == map[0.0 := 3] && PrepareTs(m.st.log, 2) == 2
      && Broken(m)
  {
    var a, b := Driver(1), Driver(2);
    var es1 := [Validate(a, 1, 1, Cell(1), [])] + [Lock(a), LogPrepare(a), Insert(a)];
    var es2 := [Start(a, 1, Committing(3))] + [Take(a)] + [Unlock(a)];
    var es3 := [Validate(b, 2, 2, Cell(2), [])] + [Lock(b), LogPrepare(b), Insert(b)];
    var es4 := [LogEnd(a)] + [Apply(a)];
    Prepares1();
    Releases1();
    Overtakes2();
    Finishes1();
    LeadsOn(START, es1, Before1(), es2, Between());
    LeadsOn(START, es1 + es2, Between(), es3, Overtaken());
    LeadsOn(START, es1 + es2 + es3, Overtaken(), es4, Over());
    es := es1 + es2 + es3 + es4;
    ms :| Path(ms, es) && ms[0] == START && ms[|ms| - 1] == Over();
    OverReplays();
    OverBroken();
  }

  lemma OverBroken()
    ensures Broken(Over())
  {
    OverReplays();
    CellKey(2);
    var p := ReplayPending(Over().st.log);
    assert 2 in p.prepared && 0.0 in WriteKeys(p.prepared[2]) && 0.0 !in p.locks;
  }
}
