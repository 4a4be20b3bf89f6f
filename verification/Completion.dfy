/** The `commit` call of the coordinator (src/dtxn.rs) carried through.  At every state on its way
    the call has exactly one step to take, as long as nothing fails under it; with all votes in
    these steps commit every branch, and after a failed prepare they abort every branch. */
module Completion {
  import opened Keys
  import opened Shard
  import opened Sections
  import opened TwoPhase

  // ---------------------------------------------------------------- the steps of one call

  predicate CanAsk(s: System, t: TxnId) {
    && AtBranch(s, t, false) && TheBranch(s, t).shard in s.shards
    && Enabled(s.shards[TheBranch(s, t).shard], AskSection(t, s.txns[t]))
  }

  /** Not the call's own doing: a refusal injected into a prepare that would validate, a failed
      append to the decision log, a crash after PREPARED, a known shard that is down, a call
      abandoned before its end. */
  predicate Fault(s: System, a: Action) {
    match a
    case Refused(t) => CanAsk(s, t)
    case Vote(_, ack) => !ack
    case Persist(_, logged) => !logged
    case FinishAbort(_, logged) => !logged
    case SkipAbort(t) => AtAbort(s, t) && s.txns[t].thread.todo[0] in s.shards
    case Return(t) =>
      !(t in s.txns && s.txns[t].thread.CommitPhase? && s.txns[t].thread.next == |s.txns[t].branches|)
    case _ => false
  }

  /** The steps that the `commit` call of `t` takes, on the coordinator and inside the shards. */
  predicate OfCall(a: Action, t: TxnId) {
    match a
    case Begin => false
    case Within(_, e) => !e.Append? && !e.Crash? && e.c == Driver(t)
    case Recover(_, _, _) => false
    case ShardCrash(_) => false
    case Reopen => false
    case _ => a.t == t
  }

  predicate Own(s: System, a: Action, t: TxnId) {
    OfCall(a, t) && !Fault(s, a)
  }

  /** The call can take this step, and no other. */
  ghost predicate Forced(s: System, a: Action, s': System, t: TxnId) {
    && Own(s, a, t) && TwoPhase.Step(s, a, s')
    && forall b, r :: Own(s, b, t) && TwoPhase.Step(s, b, r) ==> b == a && r == s'
  }

  ghost predicate ForcedAt(ss: seq<System>, acts: seq<Action>, i: nat, t: TxnId)
    requires i < |acts| && |ss| == |acts| + 1
  {
    Forced(ss[i], acts[i], ss[i + 1], t)
  }

  ghost predicate ForcedPath(ss: seq<System>, acts: seq<Action>, t: TxnId) {
    |ss| == |acts| + 1 && forall i :: 0 <= i < |acts| ==> ForcedAt(ss, acts, i, t)
  }

  /** The call goes from `s` to `s'` by these actions, forced at every state, with nothing in between. */
  ghost predicate Goes(s: System, acts: seq<Action>, s': System, t: TxnId) {
    exists ss :: ForcedPath(ss, acts, t) && ss[0] == s && ss[|ss| - 1] == s'
  }

  lemma {:induction false} ForcedKeepsInv(ss: seq<System>, acts: seq<Action>, t: TxnId, n: nat)
    requires ForcedPath(ss, acts, t) && TwoPhase.Inv(ss[0]) && n < |ss|
    ensures TwoPhase.Inv(ss[n])
  {
    if n > 0 {
      ForcedKeepsInv(ss, acts, t, n - 1);
      assert ForcedAt(ss, acts, n - 1, t);
      StepKeeps(ss[n - 1], acts[n - 1], ss[n]);
    }
  }

  lemma GoesKeepsInv(s: System, acts: seq<Action>, s': System, t: TxnId)
    requires Goes(s, acts, s', t) && TwoPhase.Inv(s)
    ensures TwoPhase.Inv(s')
  {
    var ss :| ForcedPath(ss, acts, t) && ss[0] == s && ss[|ss| - 1] == s';
    ForcedKeepsInv(ss, acts, t, |acts|);
  }

  lemma GoNowhere(s: System, t: TxnId)
    ensures Goes(s, [], s, t)
  {
    var ss := [s];
    assert ForcedPath(ss, [], t) && ss[0] == s && ss[|ss| - 1] == s;
  }

  lemma GoOne(s: System, a: Action, s': System, t: TxnId)
    requires Forced(s, a, s', t)
    ensures Goes(s, [a], s', t)
  {
    var ss := [s, s'];
    assert ForcedAt(ss, [a], 0, t);
    assert ss[0] == s && ss[|ss| - 1] == s';
  }

  lemma JoinForced(ss: seq<System>, acts: seq<Action>, rs: seq<System>, more: seq<Action>, t: TxnId)
    requires ForcedPath(ss, acts, t) && ForcedPath(rs, more, t) && ss[|ss| - 1] == rs[0]
    ensures ForcedPath(ss + rs[1..], acts + more, t)
  {
    var all, both := ss + rs[1..], acts + more;
    forall i | 0 <= i < |both| ensures ForcedAt(all, both, i, t) {
      if i < |acts| {
        assert ForcedAt(ss, acts, i, t) && all[i + 1] == ss[i + 1];
      } else {
        assert ForcedAt(rs, more, i - |acts|, t) && all[i] == rs[i - |acts|] && all[i + 1] == rs[i - |acts| + 1];
      }
    }
  }

  lemma GoOn(s: System, acts: seq<Action>, s1: System, more: seq<Action>, s2: System, t: TxnId)
    requires Goes(s, acts, s1, t) && Goes(s1, more, s2, t)
    ensures Goes(s, acts + more, s2, t)
  {
    var ss :| ForcedPath(ss, acts, t) && ss[0] == s && ss[|ss| - 1] == s1;
    var rs :| ForcedPath(rs, more, t) && rs[0] == s1 && rs[|rs| - 1] == s2;
    JoinForced(ss, acts, rs, more, t);
    var all := ss + rs[1..];
    assert all[0] == s && all[|all| - 1] == s2;
  }

  lemma GoTwo(s: System, a: Action, s1: System, b: Action, s2: System, t: TxnId)
    requires Forced(s, a, s1, t) && Forced(s1, b, s2, t)
    ensures Goes(s, [a, b], s2, t)
  {
    GoOne(s, a, s1, t);
    GoOne(s1, b, s2, t);
    GoOn(s, [a], s1, [b], s2, t);
    assert [a] + [b] == [a, b];
  }

  // ---------------------------------------------------------------- which step is forced

  /** The call runs nothing in a shard, other than perhaps `sid`. */
  ghost predicate Away(s: System, t: TxnId, but: Option<ShardId>) {
    forall q :: q in s.shards && Some(q) != but ==> Driver(t) !in s.shards[q].calls
  }

  lemma DecideForced(s: System, t: TxnId, s': System)
    requires Away(s, t, None) && TwoPhase.Step(s, Decide(t), s')
    ensures Forced(s, Decide(t), s', t)
  {
  }

  lemma PersistForced(s: System, t: TxnId, s': System)
    requires Away(s, t, None) && TwoPhase.Step(s, Persist(t, true), s')
    ensures Forced(s, Persist(t, true), s', t)
  {
  }

  lemma ReturnForced(s: System, t: TxnId, s': System)
    requires Away(s, t, None) && t in s.txns
    requires s.txns[t].thread.CommitPhase? && s.txns[t].thread.next == |s.txns[t].branches|
    requires s' == Move(s, t, Stopped)
    ensures Forced(s, Return(t), s', t)
  {
  }

  lemma StartCommitForced(s: System, t: TxnId, s': System)
    requires Away(s, t, None) && TwoPhase.Step(s, StartCommit(t), s')
    ensures Forced(s, StartCommit(t), s', t)
  {
  }

  lemma StartAbortForced(s: System, t: TxnId, s': System)
    requires Away(s, t, None) && TwoPhase.Step(s, StartAbort(t), s')
    ensures Forced(s, StartAbort(t), s', t)
  {
  }

  lemma SkipForced(s: System, t: TxnId, s': System)
    requires Away(s, t, None) && AtAbort(s, t) && s.txns[t].thread.todo[0] !in s.shards
    requires TwoPhase.Step(s, SkipAbort(t), s')
    ensures Forced(s, SkipAbort(t), s', t)
  {
  }

  lemma FinishForced(s: System, t: TxnId, s': System)
    requires Away(s, t, None) && TwoPhase.Step(s, FinishAbort(t, true), s')
    ensures Forced(s, FinishAbort(t, true), s', t)
  {
  }

  /** The shard that a thread is at. */
  predicate At(s: System, t: TxnId, sid: ShardId) {
    || (AtBranch(s, t, true) && TheBranch(s, t).shard == sid)
    || (AtCommit(s, t) && s.txns[t].branches[s.txns[t].thread.next].shard == sid)
    || (AtAbort(s, t) && s.txns[t].thread.todo[0] == sid)
  }

  /** What the call does next, by the section it has finished in the shard. */
  function NextInside(m: Machine, sid: ShardId, t: TxnId): Action
    requires Driver(t) in m.calls
  {
    var c := Driver(t);
    match m.calls[c]
    case Validated(u, _, ws) => Within(sid, if NoForeignLock(m.st.pending.locks, ws, u) then Lock(c) else Refuse(c))
    case Locked(_, _, _) => Within(sid, LogPrepare(c))
    case Logged(_, _, _) => Vote(t, true)
    case Started(_, _) => Within(sid, Take(c))
    case Taken(_, _, _) => Within(sid, Unlock(c))
    case Released(_, ending, _) => if ending.Committing? then Within(sid, LogEnd(c)) else EndAbort(t)
    case Applying(_, _, _) => EndCommit(t)
  }

  /** Not a commit that would miss its transaction. */
  predicate Proceeds(st: State, call: Call) {
    call.Started? && call.ending.Committing? ==> call.txn in st.pending.prepared
  }

  /** A thread whose call runs in a shard. */
  ghost predicate Inside(s: System, t: TxnId, sid: ShardId) {
    && At(s, t, sid) && Busy(s, sid, Driver(t)) && Away(s, t, Some(sid))
    && Proceeds(s.shards[sid].st, s.shards[sid].calls[Driver(t)])
  }

  lemma OnlyWithin(s: System, t: TxnId, sid: ShardId, e: Section, q: ShardId, r: System)
    requires Inside(s, t, sid) && Own(s, Within(q, e), t) && TwoPhase.Step(s, Within(q, e), r)
    ensures Within(q, e) == NextInside(s.shards[sid], sid, t)
  {
    assert q == sid;
  }

  lemma OnlyInside(s: System, t: TxnId, sid: ShardId, b: Action, r: System)
    requires Inside(s, t, sid) && Own(s, b, t) && TwoPhase.Step(s, b, r)
    ensures b == NextInside(s.shards[sid], sid, t)
  {
    if b.Within? { OnlyWithin(s, t, sid, b.e, b.sid, r); }
  }

  lemma Determined(s: System, a: Action, r: System, s': System)
    requires TwoPhase.Step(s, a, r) && TwoPhase.Step(s, a, s')
    ensures r == s'
  {
  }

  lemma InsideForced(s: System, t: TxnId, sid: ShardId, a: Action, s': System)
    requires Inside(s, t, sid) && a == NextInside(s.shards[sid], sid, t) && TwoPhase.Step(s, a, s')
    ensures Forced(s, a, s', t)
  {
    forall b, r | Own(s, b, t) && TwoPhase.Step(s, b, r) ensures b == a && r == s' {
      OnlyInside(s, t, sid, b, r);
      Determined(s, a, r, s');
    }
  }

  // ---------------------------------------------------------------- one branch

  /** The call of `t` stands at `call` in shard `sid`, whose state has become `st`. */
  function Put1(s: System, sid: ShardId, st: State, t: TxnId, call: Call): System
    requires sid in s.shards
  {
    PutShard(s, sid, Machine(st, s.shards[sid].calls[Driver(t) := call]))
  }

  function Without(st: State, t: TxnId): State {
    st.(pending := st.pending.(prepared := st.pending.prepared - {t}))
  }

  function Freed(st: State, t: TxnId): State {
    st.(pending := Release(st.pending, t))
  }

  lemma Put1Again(s: System, sid: ShardId, st: State, t: TxnId, call: Call, st': State, call': Call)
    requires sid in s.shards
    ensures Put1(Put1(s, sid, st, t, call), sid, st', t, call') == Put1(s, sid, st', t, call')
  {
    var calls, c := s.shards[sid].calls, Driver(t);
    assert calls[c := call][c := call'] == calls[c := call'];
  }

  lemma TakeForced(s: System, t: TxnId, sid: ShardId, ending: Ending)
    requires At(s, t, sid) && sid in s.shards && Away(s, t, None)
    requires ending.Committing? ==> t in s.shards[sid].st.pending.prepared
    ensures var st := s.shards[sid].st;
      Forced(Put1(s, sid, st, t, Started(t, ending)), Within(sid, Take(Driver(t))),
             Put1(s, sid, Without(st, t), t, Taken(t, ending, Entry(st.pending.prepared, t))), t)
  {
    var st := s.shards[sid].st;
    var s1 := Put1(s, sid, st, t, Started(t, ending));
    var s2 := Put1(s, sid, Without(st, t), t, Taken(t, ending, Entry(st.pending.prepared, t)));
    Put1Again(s, sid, st, t, Started(t, ending), Without(st, t), Taken(t, ending, Entry(st.pending.prepared, t)));
    assert s2 == PutShard(s1, sid, After(s1.shards[sid], Take(Driver(t))));
    InsideForced(s1, t, sid, Within(sid, Take(Driver(t))), s2);
  }

  lemma UnlockForced(s: System, t: TxnId, sid: ShardId, ending: Ending)
    requires At(s, t, sid) && sid in s.shards && Away(s, t, None)
    ensures var st := s.shards[sid].st;
      Forced(Put1(s, sid, Without(st, t), t, Taken(t, ending, Entry(st.pending.prepared, t))),
             Within(sid, Unlock(Driver(t))),
             Put1(s, sid, Freed(st, t), t, Released(t, ending, Entry(st.pending.prepared, t))), t)
  {
    var st := s.shards[sid].st;
    var s2 := Put1(s, sid, Without(st, t), t, Taken(t, ending, Entry(st.pending.prepared, t)));
    var s3 := Put1(s, sid, Freed(st, t), t, Released(t, ending, Entry(st.pending.prepared, t)));
    assert t !in st.pending.prepared ==> st.pending.prepared - {t} == st.pending.prepared;
    Put1Again(s, sid, Without(st, t), t, Taken(t, ending, Entry(st.pending.prepared, t)),
              Freed(st, t), Released(t, ending, Entry(st.pending.prepared, t)));
    assert s3 == PutShard(s2, sid, After(s2.shards[sid], Unlock(Driver(t))));
    InsideForced(s2, t, sid, Within(sid, Unlock(Driver(t))), s3);
  }

  lemma TakeUnlock(s: System, t: TxnId, sid: ShardId, ending: Ending)
    requires At(s, t, sid) && sid in s.shards && Away(s, t, None)
    requires ending.Committing? ==> t in s.shards[sid].st.pending.prepared
    ensures var st := s.shards[sid].st;
      Goes(Put1(s, sid, st, t, Started(t, ending)), [Within(sid, Take(Driver(t))), Within(sid, Unlock(Driver(t)))],
           Put1(s, sid, Freed(st, t), t, Released(t, ending, Entry(st.pending.prepared, t))), t)
  {
    var st := s.shards[sid].st;
    TakeForced(s, t, sid, ending);
    UnlockForced(s, t, sid, ending);
    GoTwo(Put1(s, sid, st, t, Started(t, ending)), Within(sid, Take(Driver(t))),
          Put1(s, sid, Without(st, t), t, Taken(t, ending, Entry(st.pending.prepared, t))),
          Within(sid, Unlock(Driver(t))),
          Put1(s, sid, Freed(st, t), t, Released(t, ending, Entry(st.pending.prepared, t))), t);
  }

  /** The steps of one branch in phase 2. */
  function CommitSteps(sid: ShardId, t: TxnId): seq<Action> {
    [StartCommit(t)] + [Within(sid, Take(Driver(t))), Within(sid, Unlock(Driver(t)))] +
    [Within(sid, LogEnd(Driver(t))), EndCommit(t)]
  }

  predicate CanCommit(s: System, t: TxnId) {
    && AtCommit(s, t) && s.txns[t].branches[s.txns[t].thread.next].shard in s.shards
    && t in s.shards[s.txns[t].branches[s.txns[t].thread.next].shard].st.pending.prepared
  }

  function CommittedOne(s: System, t: TxnId): System
    requires CanCommit(s, t)
  {
    var CommitPhase(ts, n) := s.txns[t].thread;
    var sid := s.txns[t].branches[n].shard;
    PutShard(Move(s, t, CommitPhase(ts, n + 1)), sid,
             Machine(Shard.Commit(s.shards[sid].st, t, ts), s.shards[sid].calls))
  }

  lemma LogForced(s: System, t: TxnId, sid: ShardId, ts: Ts)
    requires At(s, t, sid) && sid in s.shards && Away(s, t, None) && t in s.shards[sid].st.pending.prepared
    ensures var st := s.shards[sid].st;
      var ws := st.pending.prepared[t];
      Forced(Put1(s, sid, Freed(st, t), t, Released(t, Committing(ts), Some(ws))), Within(sid, LogEnd(Driver(t))),
             Put1(s, sid, Freed(st, t).(log := st.log + [TxnCommit(t, ts, ws)]), t, Applying(t, ts, ws)), t)
  {
    var st := s.shards[sid].st;
    var ws := st.pending.prepared[t];
    var s3 := Put1(s, sid, Freed(st, t), t, Released(t, Committing(ts), Some(ws)));
    var st4 := Freed(st, t).(log := st.log + [TxnCommit(t, ts, ws)]);
    var s4 := Put1(s, sid, st4, t, Applying(t, ts, ws));
    Put1Again(s, sid, Freed(st, t), t, Released(t, Committing(ts), Some(ws)), st4, Applying(t, ts, ws));
    assert s4 == PutShard(s3, sid, After(s3.shards[sid], LogEnd(Driver(t))));
    InsideForced(s3, t, sid, Within(sid, LogEnd(Driver(t))), s4);
  }

  /** The commit has logged its record and not yet applied its writes. */
  function LoggedOne(s: System, t: TxnId): System
    requires CanCommit(s, t)
  {
    var CommitPhase(ts, n) := s.txns[t].thread;
    var sid := s.txns[t].branches[n].shard;
    var st := s.shards[sid].st;
    var ws := st.pending.prepared[t];
    Put1(s, sid, Freed(st, t).(log := st.log + [TxnCommit(t, ts, ws)]), t, Applying(t, ts, ws))
  }

  lemma ApplyMachine(m: Machine, t: TxnId, ts: Ts)
    requires t in m.st.pending.prepared && Driver(t) !in m.calls
    ensures var ws := m.st.pending.prepared[t];
      var m4 := Machine(Freed(m.st, t).(log := m.st.log + [TxnCommit(t, ts, ws)]),
                        m.calls[Driver(t) := Applying(t, ts, ws)]);
      After(m4, Apply(Driver(t))) == Machine(Shard.Commit(m.st, t, ts), m.calls)
  {
    assert m.calls[Driver(t) := Applying(t, ts, m.st.pending.prepared[t])] - {Driver(t)} == m.calls;
  }

  lemma Moved(s: System, sid: ShardId, m: Machine, t: TxnId, thread: Thread, m': Machine)
    requires t in s.txns
    ensures PutShard(Move(PutShard(s, sid, m), t, thread), sid, m') == PutShard(Move(s, t, thread), sid, m')
  {
  }

  lemma ApplyAfter(s: System, t: TxnId)
    requires CanCommit(s, t) && Away(s, t, None)
    ensures TwoPhase.Step(LoggedOne(s, t), EndCommit(t), CommittedOne(s, t))
  {
    var CommitPhase(ts, n) := s.txns[t].thread;
    var sid := s.txns[t].branches[n].shard;
    ApplyMachine(s.shards[sid], t, ts);
    Moved(s, sid, LoggedOne(s, t).shards[sid], t, CommitPhase(ts, n + 1), CommittedOne(s, t).shards[sid]);
  }

  lemma ApplyForced(s: System, t: TxnId)
    requires CanCommit(s, t) && Away(s, t, None)
    ensures Forced(LoggedOne(s, t), EndCommit(t), CommittedOne(s, t), t)
  {
    ApplyAfter(s, t);
    InsideForced(LoggedOne(s, t), t, s.txns[t].branches[s.txns[t].thread.next].shard, EndCommit(t), CommittedOne(s, t));
  }

  lemma LogApply(s: System, t: TxnId)
    requires CanCommit(s, t) && Away(s, t, None)
    ensures var CommitPhase(ts, n) := s.txns[t].thread;
      var sid := s.txns[t].branches[n].shard;
      var st := s.shards[sid].st;
      Goes(Put1(s, sid, Freed(st, t), t, Released(t, Committing(ts), Some(st.pending.prepared[t]))),
           [Within(sid, LogEnd(Driver(t))), EndCommit(t)], CommittedOne(s, t), t)
  {
    var CommitPhase(ts, n) := s.txns[t].thread;
    var sid := s.txns[t].branches[n].shard;
    var st := s.shards[sid].st;
    var ws := st.pending.prepared[t];
    LogForced(s, t, sid, ts);
    ApplyForced(s, t);
    GoTwo(Put1(s, sid, Freed(st, t), t, Released(t, Committing(ts), Some(ws))), Within(sid, LogEnd(Driver(t))),
          LoggedOne(s, t), EndCommit(t), CommittedOne(s, t), t);
  }

  lemma CommitBranch(s: System, t: TxnId)
    requires CanCommit(s, t) && Away(s, t, None)
    ensures Goes(s, CommitSteps(s.txns[t].branches[s.txns[t].thread.next].shard, t), CommittedOne(s, t), t)
    ensures Away(CommittedOne(s, t), t, None)
  {
    var CommitPhase(ts, n) := s.txns[t].thread;
    var sid := s.txns[t].branches[n].shard;
    var st := s.shards[sid].st;
    var s1 := Put1(s, sid, st, t, Started(t, Committing(ts)));
    var s3 := Put1(s, sid, Freed(st, t), t, Released(t, Committing(ts), Some(st.pending.prepared[t])));
    StartCommitForced(s, t, s1);
    GoOne(s, StartCommit(t), s1, t);
    TakeUnlock(s, t, sid, Committing(ts));
    var inner := [Within(sid, Take(Driver(t))), Within(sid, Unlock(Driver(t)))];
    GoOn(s, [StartCommit(t)], s1, inner, s3, t);
    LogApply(s, t);
    GoOn(s, [StartCommit(t)] + inner, s3, [Within(sid, LogEnd(Driver(t))), EndCommit(t)], CommittedOne(s, t), t);
  }

  // ---------------------------------------------------------------- phase 2

  function PhaseTwo(bs: seq<Branch>, t: TxnId): seq<Action> {
    if bs == [] then [] else CommitSteps(bs[0].shard, t) + PhaseTwo(bs[1..], t)
  }

  /** The branch is prepared in its shard, in memory too. */
  predicate Ready(s: System, b: Branch, t: TxnId) {
    b.shard in s.shards && Entry(s.shards[b.shard].st.pending.prepared, t) == Some(b.writes)
  }

  /** The shard went through one commit of `t`, and no more. */
  ghost predicate Commits1(s: System, s': System, sid: ShardId, t: TxnId, ts: Ts) {
    && sid in s.shards && sid in s'.shards && t in s.shards[sid].st.pending.prepared
    && s'.shards[sid] == Machine(Shard.Commit(s.shards[sid].st, t, ts), s.shards[sid].calls)
  }

  predicate HasBranchFrom(bs: seq<Branch>, n: nat, sid: ShardId) {
    exists i :: n <= i < |bs| && bs[i].shard == sid
  }

  /** The shards of the branches from `n` on went through one commit, the others through nothing. */
  ghost predicate CommitsFrom(s: System, s': System, bs: seq<Branch>, n: nat, t: TxnId, ts: Ts) {
    && s'.shards.Keys == s.shards.Keys
    && (forall i :: n <= i < |bs| ==> Commits1(s, s', bs[i].shard, t, ts))
    && (forall sid :: sid in s.shards && !HasBranchFrom(bs, n, sid) ==> s'.shards[sid] == s.shards[sid])
  }

  lemma CommitsLater(s: System, s1: System, s': System, sid: ShardId, t: TxnId, ts: Ts)
    requires sid in s.shards && sid in s1.shards && s1.shards[sid] == s.shards[sid] && Commits1(s1, s', sid, t, ts)
    ensures Commits1(s, s', sid, t, ts)
  {
  }

  lemma CommitsNow(s: System, s1: System, s': System, sid: ShardId, t: TxnId, ts: Ts)
    requires Commits1(s, s1, sid, t, ts) && sid in s'.shards && s'.shards[sid] == s1.shards[sid]
    ensures Commits1(s, s', sid, t, ts)
  {
  }

  lemma CommitsFirst(s: System, s1: System, s': System, bs: seq<Branch>, t: TxnId, ts: Ts, n: nat)
    requires n < |bs| && OneBranchPerShard(bs) && s1.shards.Keys == s.shards.Keys
    requires Commits1(s, s1, bs[n].shard, t, ts)
    requires forall sid :: sid in s.shards && sid != bs[n].shard ==> s1.shards[sid] == s.shards[sid]
    requires CommitsFrom(s1, s', bs, n + 1, t, ts)
    ensures CommitsFrom(s, s', bs, n, t, ts)
  {
    forall i | n <= i < |bs| ensures Commits1(s, s', bs[i].shard, t, ts) {
      if i > n {
        assert Commits1(s1, s', bs[i].shard, t, ts) && bs[n].shard != bs[i].shard;
        CommitsLater(s, s1, s', bs[i].shard, t, ts);
      } else {
        assert !HasBranchFrom(bs, n + 1, bs[n].shard);
        CommitsNow(s, s1, s', bs[n].shard, t, ts);
      }
    }
    forall sid | sid in s.shards && !HasBranchFrom(bs, n, sid) ensures s'.shards[sid] == s.shards[sid] {
      assert sid != bs[n].shard && !HasBranchFrom(bs, n + 1, sid);
    }
  }

  lemma OneCommitted(s: System, t: TxnId)
    requires CanCommit(s, t) && OneBranchPerShard(s.txns[t].branches)
    ensures var bs, n, s1 := s.txns[t].branches, s.txns[t].thread.next, CommittedOne(s, t);
      && Commits1(s, s1, bs[n].shard, t, s.txns[t].thread.ts) && s1.shards.Keys == s.shards.Keys
      && (forall sid :: sid in s.shards && sid != bs[n].shard ==> s1.shards[sid] == s.shards[sid])
      && (forall i :: n < i < |bs| && Ready(s, bs[i], t) ==> Ready(s1, bs[i], t))
      && s1 == Move(s, t, CommitPhase(s.txns[t].thread.ts, n + 1)).(shards := s1.shards)
  {
    var bs, n, s1 := s.txns[t].branches, s.txns[t].thread.next, CommittedOne(s, t);
    forall i | n < i < |bs| && Ready(s, bs[i], t) ensures Ready(s1, bs[i], t) {
      assert bs[n].shard != bs[i].shard;
    }
  }

  lemma MoveAgain(s: System, t: TxnId, a: Thread, b: Thread, s1: System, s2: System)
    requires t in s.txns && s1 == Move(s, t, a).(shards := s1.shards) && s2 == Move(s1, t, b).(shards := s2.shards)
    ensures s2 == Move(s, t, b).(shards := s2.shards)
  {
  }

  /** The shard's log has grown by exactly these records, and the same calls run in it. */
  ghost predicate LogGains(s: System, s': System, sid: ShardId, records: seq<Command>) {
    && sid in s.shards && sid in s'.shards && s'.shards[sid].calls == s.shards[sid].calls
    && s'.shards[sid].st.log == s.shards[sid].st.log + records
  }

  /** What is left of phase 2, from branch `n` on. */
  lemma {:induction false} PhaseTwoFrom(s: System, t: TxnId, ts: Ts, n: nat) returns (s': System)
    requires t in s.txns && n <= |s.txns[t].branches| && s.txns[t].thread == CommitPhase(ts, n)
    requires Away(s, t, None) && OneBranchPerShard(s.txns[t].branches)
    requires forall i :: n <= i < |s.txns[t].branches| ==> Ready(s, s.txns[t].branches[i], t)
    ensures Goes(s, PhaseTwo(s.txns[t].branches[n..], t), s', t) && Away(s', t, None)
    ensures s' == Move(s, t, CommitPhase(ts, |s.txns[t].branches|)).(shards := s'.shards)
    ensures CommitsFrom(s, s', s.txns[t].branches, n, t, ts)
    decreases |s.txns[t].branches| - n
  {
    var bs := s.txns[t].branches;
    if n == |bs| {
      GoNowhere(s, t);
      s' := s;
    } else {
      assert Ready(s, bs[n], t);
      var s1 := CommittedOne(s, t);
      CommitBranch(s, t);
      OneCommitted(s, t);
      s' := PhaseTwoFrom(s1, t, ts, n + 1);
      assert bs[n..][1..] == bs[n + 1..];
      GoOn(s, CommitSteps(bs[n].shard, t), s1, PhaseTwo(bs[n + 1..], t), s', t);
      CommitsFirst(s, s1, s', bs, t, ts, n);
      MoveAgain(s, t, CommitPhase(ts, n + 1), CommitPhase(ts, |bs|), s1, s');
    }
  }

  // ---------------------------------------------------------------- all votes in

  predicate AllVotes(s: System, t: TxnId) {
    t in s.txns && s.txns[t].branches != [] && s.txns[t].thread == PreparePhase(|s.txns[t].branches|, false)
  }

  predicate Holds(m: Machine, t: TxnId) {
    t in m.st.pending.prepared || t in Held(m.st.log)
  }

  /** No call of `t`, of the driver or of a recovery, runs in the shard. */
  lemma NoCalls(m: Machine, t: TxnId)
    requires Linked(m) && DriversOwn(m.calls) && ViewOf(m, t).calls == map[]
    ensures Driver(t) !in m.calls
    ensures Entry(m.st.pending.prepared, t) == Entry(Held(m.st.log), t)
  {
    if Driver(t) in m.calls { MyCall(m, t, Driver(t)); }
    if t in Held(m.st.log) && t !in m.st.pending.prepared {
      assert Accounted(m, t, Held(m.st.log)[t]);
      var c :| c in m.calls && Carries(m.calls[c], t, Held(m.st.log)[t]);
      MyCall(m, t, c);
    }
  }

  lemma VotedShard(s: System, t: TxnId, sid: ShardId)
    requires TwoPhase.Inv(s) && AllVotes(s, t) && sid in s.shards
    ensures ViewOf(s.shards[sid], t).calls == map[] && Driver(t) !in s.shards[sid].calls
    ensures Entry(s.shards[sid].st.pending.prepared, t) == Entry(Held(s.shards[sid].st.log), t)
    ensures !HasBranch(s.txns[t].branches, sid) ==> !Holds(s.shards[sid], t)
  {
    assert TxnOk(s, t) && ShardOk(s, sid);
    var x := s.txns[t];
    assert x.branches[..|x.branches|] == x.branches;
    CallsWhereAsked(Views(s, t), x, t, |x.branches|, false, sid);
    NoCalls(s.shards[sid], t);
    if !HasBranch(x.branches, sid) { assert Views(s, t)[sid] == UNTOUCHED; }
  }

  lemma VotesReady(s: System, t: TxnId)
    requires TwoPhase.Inv(s) && AllVotes(s, t)
    ensures OneBranchPerShard(s.txns[t].branches) && Away(s, t, None)
    ensures forall i :: 0 <= i < |s.txns[t].branches| ==> Ready(s, s.txns[t].branches[i], t)
  {
    assert TxnOk(s, t);
    forall q | q in s.shards ensures Driver(t) !in s.shards[q].calls { VotedShard(s, t, q); }
    var bs := s.txns[t].branches;
    forall i | 0 <= i < |bs| ensures Ready(s, bs[i], t) {
      assert Holding(Views(s, t), bs[i]);
      VotedShard(s, t, bs[i].shard);
    }
  }

  lemma DecideAndPersist(s: System, t: TxnId, s2: System)
    requires AllVotes(s, t) && Away(s, t, None)
    requires s2 == Move(s, t, CommitPhase(s.clock, 0)).(memory := s.memory[t := Committed(s.clock)],
                                                        durable := s.durable[t := Committed(s.clock)],
                                                        clock := s.clock + 1)
    ensures Goes(s, [Decide(t), Persist(t, true)], s2, t) && Away(s2, t, None)
  {
    var s1 := Move(s, t, PersistPhase(s.clock)).(memory := s.memory[t := Committed(s.clock)], clock := s.clock + 1);
    DecideForced(s, t, s1);
    assert Move(s1, t, CommitPhase(s.clock, 0)).(durable := s.durable[t := Committed(s.clock)]) == s2;
    PersistForced(s1, t, s2);
    GoTwo(s, Decide(t), s1, Persist(t, true), s2, t);
  }

  /** A shard after the commit of its branch. */
  lemma NoLongerHeld(s: System, s': System, b: Branch, t: TxnId, ts: Ts)
    requires Ready(s, b, t) && Commits1(s, s', b.shard, t, ts)
    ensures LogGains(s, s', b.shard, [TxnCommit(t, ts, b.writes)]) && !Holds(s'.shards[b.shard], t)
  {
    HeldAfter(s.shards[b.shard].st.log, TxnCommit(t, ts, b.writes), t);
  }

  /** With all votes in, the call has one way to go, if nothing fails: it decides at the clock's
      value, makes the decision durable, commits branch after branch, and returns.  Then the log
      of every branch's shard has gained the commit of exactly that branch at exactly that
      timestamp, the other shards are as they were, and no shard holds the transaction. */
  lemma AllVotesCommit(s: System, t: TxnId) returns (s': System)
    requires TwoPhase.Inv(s) && AllVotes(s, t)
    ensures Goes(s, [Decide(t), Persist(t, true)] + PhaseTwo(s.txns[t].branches, t) + [Return(t)], s', t)
    ensures s'.shards.Keys == s.shards.Keys
    ensures forall i :: 0 <= i < |s.txns[t].branches| ==>
      var b := s.txns[t].branches[i];
      LogGains(s, s', b.shard, [TxnCommit(t, s.clock, b.writes)]) && Commits1(s, s', b.shard, t, s.clock)
    ensures forall sid :: sid in s.shards && !HasBranch(s.txns[t].branches, sid) ==> s'.shards[sid] == s.shards[sid]
    ensures forall sid :: sid in s'.shards ==> !Holds(s'.shards[sid], t)
    ensures Find(s'.memory, t) == Find(s'.durable, t) == Some(Committed(s.clock)) && s'.nextTxn == s.nextTxn
    ensures t in s'.txns && s'.txns[t].thread == Stopped
  {
    var bs, ts := s.txns[t].branches, s.clock;
    VotesReady(s, t);
    var s2 := Move(s, t, CommitPhase(ts, 0)).(memory := s.memory[t := Committed(ts)],
                                              durable := s.durable[t := Committed(ts)], clock := ts + 1);
    DecideAndPersist(s, t, s2);
    forall i | 0 <= i < |bs| ensures Ready(s2, bs[i], t) { assert Ready(s, bs[i], t); }
    var s3 := PhaseTwoFrom(s2, t, ts, 0);
    assert bs[0..] == bs;
    GoOn(s, [Decide(t), Persist(t, true)], s2, PhaseTwo(bs, t), s3, t);
    s' := Move(s3, t, Stopped);
    ReturnForced(s3, t, s');
    GoOne(s3, Return(t), s', t);
    GoOn(s, [Decide(t), Persist(t, true)] + PhaseTwo(bs, t), s3, [Return(t)], s', t);
    SettledEverywhere(s, s', t, ts);
  }

  lemma SettledEverywhere(s: System, s': System, t: TxnId, ts: Ts)
    requires TwoPhase.Inv(s) && AllVotes(s, t) && CommitsFrom(s, s', s.txns[t].branches, 0, t, ts)
    ensures forall i :: 0 <= i < |s.txns[t].branches| ==>
      var b := s.txns[t].branches[i];
      LogGains(s, s', b.shard, [TxnCommit(t, ts, b.writes)]) && Commits1(s, s', b.shard, t, ts)
    ensures forall sid :: sid in s.shards && !HasBranch(s.txns[t].branches, sid) ==> s'.shards[sid] == s.shards[sid]
    ensures forall sid :: sid in s'.shards ==> !Holds(s'.shards[sid], t)
  {
    var bs := s.txns[t].branches;
    VotesReady(s, t);
    forall i | 0 <= i < |bs|
      ensures var b := bs[i];
        && LogGains(s, s', b.shard, [TxnCommit(t, ts, b.writes)])
        && Commits1(s, s', b.shard, t, ts) && !Holds(s'.shards[b.shard], t)
    {
      assert Ready(s, bs[i], t) && Commits1(s, s', bs[i].shard, t, ts);
      NoLongerHeld(s, s', bs[i], t, ts);
    }
    forall sid | sid in s.shards && !HasBranch(bs, sid)
      ensures s'.shards[sid] == s.shards[sid] && !Holds(s'.shards[sid], t)
    {
      assert !HasBranchFrom(bs, 0, sid);
      VotedShard(s, t, sid);
    }
    forall sid | sid in s'.shards ensures !Holds(s'.shards[sid], t) {
      if HasBranch(bs, sid) { var i :| 0 <= i < |bs| && bs[i].shard == sid; }
    }
  }

  // ---------------------------------------------------------------- a failed prepare

  /** The steps of aborting at one shard. */
  function AbortSteps(sid: ShardId, t: TxnId, known: bool): seq<Action> {
    if known
    then [StartAbort(t)] + [Within(sid, Take(Driver(t))), Within(sid, Unlock(Driver(t)))] + [EndAbort(t)]
    else [SkipAbort(t)]
  }

  function AbortedOne(s: System, t: TxnId): System
    requires AtAbort(s, t)
  {
    var todo := s.txns[t].thread.todo;
    var moved := Move(s, t, AbortPhase(todo[1..]));
    if todo[0] in s.shards
    then PutShard(moved, todo[0], Machine(Shard.Abort(s.shards[todo[0]].st, t), s.shards[todo[0]].calls))
    else moved
  }

  lemma LogAbort(s: System, t: TxnId, sid: ShardId, s3: System)
    requires AtAbort(s, t) && sid == s.txns[t].thread.todo[0] && sid in s.shards && Away(s, t, None)
    requires s3 == Put1(s, sid, Freed(s.shards[sid].st, t), t,
                        Released(t, Aborting, Entry(s.shards[sid].st.pending.prepared, t)))
    ensures TwoPhase.Step(s3, EndAbort(t), AbortedOne(s, t))
  {
    var s4 := AbortedOne(s, t);
    assert s3.shards[sid].calls - {Driver(t)} == s.shards[sid].calls;
    assert s4.shards[sid] == After(s3.shards[sid], LogEnd(Driver(t)));
    assert s4 == PutShard(Move(s3, t, AbortPhase(s.txns[t].thread.todo[1..])), sid, s4.shards[sid]);
  }

  lemma AbortKnown(s: System, t: TxnId, sid: ShardId)
    requires AtAbort(s, t) && sid == s.txns[t].thread.todo[0] && sid in s.shards && Away(s, t, None)
    ensures Goes(s, AbortSteps(sid, t, true), AbortedOne(s, t), t)
  {
    var st := s.shards[sid].st;
    var s1 := Put1(s, sid, st, t, Started(t, Aborting));
    var s3 := Put1(s, sid, Freed(st, t), t, Released(t, Aborting, Entry(st.pending.prepared, t)));
    StartAbortForced(s, t, s1);
    GoOne(s, StartAbort(t), s1, t);
    TakeUnlock(s, t, sid, Aborting);
    var inner := [Within(sid, Take(Driver(t))), Within(sid, Unlock(Driver(t)))];
    GoOn(s, [StartAbort(t)], s1, inner, s3, t);
    LogAbortForced(s, t, sid, s3);
    GoOne(s3, EndAbort(t), AbortedOne(s, t), t);
    GoOn(s, [StartAbort(t)] + inner, s3, [EndAbort(t)], AbortedOne(s, t), t);
  }

  lemma LogAbortForced(s: System, t: TxnId, sid: ShardId, s3: System)
    requires AtAbort(s, t) && sid == s.txns[t].thread.todo[0] && sid in s.shards && Away(s, t, None)
    requires s3 == Put1(s, sid, Freed(s.shards[sid].st, t), t,
                        Released(t, Aborting, Entry(s.shards[sid].st.pending.prepared, t)))
    ensures Forced(s3, EndAbort(t), AbortedOne(s, t), t)
  {
    LogAbort(s, t, sid, s3);
    InsideForced(s3, t, sid, EndAbort(t), AbortedOne(s, t));
  }

  lemma AbortShard(s: System, t: TxnId)
    requires AtAbort(s, t) && Away(s, t, None)
    ensures var sid := s.txns[t].thread.todo[0]; Goes(s, AbortSteps(sid, t, sid in s.shards), AbortedOne(s, t), t)
    ensures Away(AbortedOne(s, t), t, None)
  {
    var sid := s.txns[t].thread.todo[0];
    if sid in s.shards {
      AbortKnown(s, t, sid);
    } else {
      SkipForced(s, t, AbortedOne(s, t));
      GoOne(s, SkipAbort(t), AbortedOne(s, t), t);
    }
  }

  function AbortAll(todo: seq<ShardId>, shards: set<ShardId>, t: TxnId): seq<Action> {
    if todo == [] then [] else AbortSteps(todo[0], t, todo[0] in shards) + AbortAll(todo[1..], shards, t)
  }

  predicate Distinct(todo: seq<ShardId>) {
    forall i, j :: 0 <= i < j < |todo| ==> todo[i] != todo[j]
  }

  /** The listed shards went through one abort of `t`, the others through nothing. */
  ghost predicate AbortsAll(s: System, s': System, todo: seq<ShardId>, t: TxnId) {
    && s'.shards.Keys == s.shards.Keys
    && forall sid :: sid in s.shards ==>
         s'.shards[sid] == if sid in todo then Machine(Shard.Abort(s.shards[sid].st, t), s.shards[sid].calls)
                           else s.shards[sid]
  }

  lemma AbortsFirst(s: System, t: TxnId, s': System)
    requires AtAbort(s, t) && Distinct(s.txns[t].thread.todo)
    requires AbortsAll(AbortedOne(s, t), s', s.txns[t].thread.todo[1..], t)
    ensures AbortsAll(s, s', s.txns[t].thread.todo, t)
  {
    var todo := s.txns[t].thread.todo;
    forall sid ensures sid in todo <==> sid == todo[0] || sid in todo[1..] { assert todo == [todo[0]] + todo[1..]; }
    assert todo[0] !in todo[1..];
  }

  lemma {:induction false} AbortFrom(s: System, t: TxnId) returns (s': System)
    requires t in s.txns && s.txns[t].thread.AbortPhase? && Away(s, t, None) && Distinct(s.txns[t].thread.todo)
    ensures Goes(s, AbortAll(s.txns[t].thread.todo, s.shards.Keys, t), s', t) && Away(s', t, None)
    ensures s' == Move(s, t, AbortPhase([])).(shards := s'.shards)
    ensures AbortsAll(s, s', s.txns[t].thread.todo, t)
    decreases |s.txns[t].thread.todo|
  {
    var todo := s.txns[t].thread.todo;
    if todo == [] {
      GoNowhere(s, t);
      s' := s;
    } else {
      var s1 := AbortedOne(s, t);
      AbortShard(s, t);
      assert s1.shards.Keys == s.shards.Keys;
      s' := AbortFrom(s1, t);
      GoOn(s, AbortSteps(todo[0], t, todo[0] in s.shards), s1, AbortAll(todo[1..], s.shards.Keys, t), s', t);
      AbortsFirst(s, t, s');
      MoveAgain(s, t, AbortPhase(todo[1..]), AbortPhase([]), s1, s');
    }
  }

  /** Phase 1 just failed, or there was nothing to prepare: no call of `t` runs anywhere. */
  predicate FailsPrepare(a: Action, t: TxnId) {
    a == Refused(t) || a == Vote(t, false) || a == Drive(t, [])
  }

  lemma RefusedShard(s: System, t: TxnId, s': System, sid: ShardId)
    requires TwoPhase.Inv(s) && TwoPhase.Step(s, Refused(t), s') && sid in s.shards
    ensures ViewOf(s'.shards[sid], t).calls == map[]
  {
    SystemSeen(s, sid, t);
    var x := s.txns[t];
    CallsWhereAsked(Views(s, t), x, t, x.thread.next, x.thread.asked, sid);
  }

  lemma UnvotedShard(s: System, t: TxnId, s': System, sid: ShardId)
    requires TwoPhase.Inv(s) && TwoPhase.Step(s, Vote(t, false), s') && sid in s.shards
    ensures ViewOf(s'.shards[sid], t).calls == map[]
  {
    SystemSeen(s, sid, t);
    var x := s.txns[t];
    CallsWhereAsked(Views(s, t), x, t, x.thread.next, true, sid);
    if sid == TheBranch(s, t).shard {
      forall c | c in s'.shards[sid].calls ensures s'.shards[sid].calls[c].txn != t {
        if s.shards[sid].calls[c].txn == t { MyCall(s.shards[sid], t, c); }
      }
    }
  }

  lemma FailedShard(s: System, a: Action, t: TxnId, s': System, sid: ShardId)
    requires TwoPhase.Inv(s) && FailsPrepare(a, t) && TwoPhase.Step(s, a, s') && sid in s.shards
    ensures sid in s'.shards && ViewOf(s'.shards[sid], t).calls == map[]
  {
    match a
    case Refused(_) => RefusedShard(s, t, s', sid);
    case Vote(_, _) => UnvotedShard(s, t, s', sid);
    case _ => SystemSeen(s, sid, t);
  }

  lemma NoBranchNotHeld(s: System, t: TxnId, sid: ShardId)
    requires TwoPhase.Inv(s) && t in s.txns && sid in s.shards && ViewOf(s.shards[sid], t).calls == map[]
    ensures Driver(t) !in s.shards[sid].calls
    ensures !HasBranch(s.txns[t].branches, sid) ==> !Holds(s.shards[sid], t)
  {
    assert ShardOk(s, sid) && TxnOk(s, t);
    NoCalls(s.shards[sid], t);
    assert Views(s, t)[sid] == ViewOf(s.shards[sid], t);
  }

  lemma FailedPrepareAway(s: System, a: Action, t: TxnId, s': System)
    requires TwoPhase.Inv(s) && FailsPrepare(a, t) && TwoPhase.Step(s, a, s')
    ensures t in s'.txns && Away(s', t, None)
    ensures forall sid :: sid in s'.shards && !HasBranch(s'.txns[t].branches, sid) ==> !Holds(s'.shards[sid], t)
  {
    StepKeeps(s, a, s');
    StartsAborting(s, a, t, s');
    forall sid | sid in s'.shards
      ensures Driver(t) !in s'.shards[sid].calls
      ensures !HasBranch(s'.txns[t].branches, sid) ==> !Holds(s'.shards[sid], t)
    {
      FailedShard(s, a, t, s', sid);
      NoBranchNotHeld(s', t, sid);
    }
  }

  lemma StartsAborting(s: System, a: Action, t: TxnId, s': System)
    requires FailsPrepare(a, t) && TwoPhase.Step(s, a, s')
    ensures t in s'.txns && s'.txns[t].thread == AbortPhase(AbortOrder(s'.txns[t].branches))
  {
  }

  lemma AbortAndFinish(s: System, t: TxnId) returns (s': System)
    requires t in s.txns && s.txns[t].thread.AbortPhase? && Away(s, t, None) && Distinct(s.txns[t].thread.todo)
    ensures Goes(s, AbortAll(s.txns[t].thread.todo, s.shards.Keys, t) + [FinishAbort(t, true)], s', t)
    ensures AbortsAll(s, s', s.txns[t].thread.todo, t)
    ensures Find(s'.memory, t) == Find(s'.durable, t) == Some(Aborted)
    ensures t in s'.txns && s'.txns[t].thread == Stopped
  {
    var s2 := AbortFrom(s, t);
    s' := Move(s2, t, Stopped).(memory := s2.memory[t := Aborted], durable := s2.durable[t := Aborted]);
    FinishForced(s2, t, s');
    GoOne(s2, FinishAbort(t, true), s', t);
    GoOn(s, AbortAll(s.txns[t].thread.todo, s.shards.Keys, t), s2, [FinishAbort(t, true)], s', t);
  }

  /** After a failed prepare the call has one way to go, if nothing else fails: it aborts at every
      shard of its branches that is known and records the abort.  Then no shard holds the
      transaction, and the shards that have no branch are as they were. */
  lemma FailedPrepareAborts(s: System, a: Action, t: TxnId, s1: System) returns (s': System)
    requires TwoPhase.Inv(s) && FailsPrepare(a, t) && TwoPhase.Step(s, a, s1)
    ensures t in s1.txns
    ensures Goes(s1, AbortAll(AbortOrder(s1.txns[t].branches), s1.shards.Keys, t) + [FinishAbort(t, true)], s', t)
    ensures AbortsAll(s1, s', AbortOrder(s1.txns[t].branches), t)
    ensures forall sid :: sid in s'.shards ==> !Holds(s'.shards[sid], t)
    ensures Find(s'.memory, t) == Find(s'.durable, t) == Some(Aborted)
    ensures t in s'.txns && s'.txns[t].thread == Stopped
  {
    FailedPrepareAway(s, a, t, s1);
    StartsAborting(s, a, t, s1);
    StepKeeps(s, a, s1);
    assert TxnOk(s1, t);
    s' := AbortAndFinish(s1, t);
    NothingHeld(s1, s', s1.txns[t].branches, t);
  }

  lemma NothingHeld(s: System, s': System, bs: seq<Branch>, t: TxnId)
    requires AbortsAll(s, s', AbortOrder(bs), t)
    requires forall sid :: sid in s.shards && !HasBranch(bs, sid) ==> !Holds(s.shards[sid], t)
    ensures forall sid :: sid in s'.shards ==> !Holds(s'.shards[sid], t)
  {
    forall sid | sid in s'.shards ensures !Holds(s'.shards[sid], t) {
      AbortedNotHeld(s.shards[sid].st, t);
      if HasBranch(bs, sid) { InOrder(bs, sid); }
    }
  }

  lemma AbortedNotHeld(st: State, t: TxnId)
    ensures t !in Shard.Abort(st, t).pending.prepared && t !in Held(Shard.Abort(st, t).log)
  {
    HeldAfter(st.log, TxnAbort(t), t);
  }

  lemma InOrder(bs: seq<Branch>, sid: ShardId)
    requires HasBranch(bs, sid)
    ensures sid in AbortOrder(bs)
  {
    var i :| 0 <= i < |bs| && bs[i].shard == sid;
    assert AbortOrder(bs)[i] == sid;
  }
}
