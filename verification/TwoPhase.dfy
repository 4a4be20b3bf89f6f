/** Two-phase commit with crash recovery (`TransactionCoordinator`, src/dtxn.rs): one
    coordinator running any number of concurrent `commit` and `recover_participant` calls over
    any number of shards.  Every lock section of a participant call, the in-memory and the
    durable half of the decision, each shard crash, and each coordinator reopen is a step of
    its own, and the steps of different calls interleave freely. */
module TwoPhase {
  import opened Keys
  import opened Shard
  import opened Sections

  type ShardId = nat

  datatype Branch = Branch(shard: ShardId, writes: seq<Write>, readSet: seq<(Key, Ts)>)

  datatype Decision = Committed(ts: Ts) | Aborted

  /** Where a `commit` call stands; `asked` while its prepare of branch `next` has been sent. */
  datatype Thread =
    | Idle
    | PreparePhase(next: nat, asked: bool)
    | AbortPhase(todo: seq<ShardId>)
    | PersistPhase(ts: Ts)
    | CommitPhase(ts: Ts, next: nat)
    | Stopped

  datatype Txn = Txn(readTs: Ts, branches: seq<Branch>, thread: Thread)

  datatype System = System(
    shards: map<ShardId, Machine>,
    txns: map<TxnId, Txn>,
    memory: map<TxnId, Decision>,
    durable: map<TxnId, Decision>,
    clock: Ts,
    nextTxn: TxnId)

  predicate Initial(s: System) {
    && (forall sid :: sid in s.shards ==> s.shards[sid] == START)
    && s.txns == map[] && s.memory == map[] && s.durable == map[] && s.clock == 1
  }

  // ---------------------------------------------------------------- steps

  datatype Action =
    | Begin
    | Drive(t: TxnId, branches: seq<Branch>)
    | Ask(t: TxnId)
    | Refused(t: TxnId)
    | Vote(t: TxnId, ack: bool)
    | Within(sid: ShardId, e: Section)
    | StartAbort(t: TxnId)
    | EndAbort(t: TxnId)
    | SkipAbort(t: TxnId)
    | FinishAbort(t: TxnId, logged: bool)
    | Decide(t: TxnId)
    | Persist(t: TxnId, logged: bool)
    | StartCommit(t: TxnId)
    | EndCommit(t: TxnId)
    | Return(t: TxnId)
    | Recover(sid: ShardId, t: TxnId, id: nat)
    | ShardCrash(sid: ShardId)
    | Reopen

  /** `partition_txn_branches` groups the write-set by shard. */
  predicate OneBranchPerShard(bs: seq<Branch>) {
    forall i, j :: 0 <= i < j < |bs| ==> bs[i].shard != bs[j].shard
  }

  /** Abort order of a failed prepare: the shards that voted, which are a prefix, then the rest. */
  function AbortOrder(bs: seq<Branch>): seq<ShardId> {
    seq(|bs|, i requires 0 <= i < |bs| => bs[i].shard)
  }

  function Put(s: System, t: TxnId, x: Txn): System {
    s.(txns := s.txns[t := x])
  }

  function Move(s: System, t: TxnId, thread: Thread): System
    requires t in s.txns
  {
    Put(s, t, s.txns[t].(thread := thread))
  }

  function PutShard(s: System, sid: ShardId, m: Machine): System {
    s.(shards := s.shards[sid := m])
  }

  function Find<T>(m: map<TxnId, T>, t: TxnId): Option<T> {
    if t in m then Some(m[t]) else None
  }

  /** `recover_participant` asks `decision`, which answers from memory; no decision means abort. */
  function Choice(memory: Option<Decision>): Ending {
    match memory
    case Some(Committed(ts)) => Committing(ts)
    case _ => Aborting
  }

  function Reopened(s: System): System {
    System(s.shards, map t | t in s.txns :: s.txns[t].(thread := Stopped), s.durable, s.durable, 1, s.nextTxn)
  }

  /** Sections after which a participant call does not return to a `commit` call. */
  predicate Inner(m: Machine, e: Section) {
    || e.Refuse? || e.Lock? || e.LogPrepare? || e.Miss? || e.Take? || e.Unlock? || e.Append?
    || (e.LogEnd? && e.c in m.calls && m.calls[e.c].Released? && (e.c.Recovery? || m.calls[e.c].ending.Committing?))
    || (e.Apply? && e.c.Recovery?)
  }

  function AskSection(t: TxnId, x: Txn): Section
    requires x.thread.PreparePhase? && x.thread.next < |x.branches|
  {
    var b := x.branches[x.thread.next];
    Validate(Driver(t), t, x.readTs, b.writes, b.readSet)
  }

  /** The shard runs one section. */
  ghost predicate On(s: System, sid: ShardId, e: Section, s': System) {
    sid in s.shards && Enabled(s.shards[sid], e) && s' == PutShard(s, sid, After(s.shards[sid], e))
  }

  predicate Busy(s: System, sid: ShardId, c: Caller) {
    sid in s.shards && c in s.shards[sid].calls
  }

  /** The phase-1 thread of `t` has a branch to prepare. */
  predicate AtBranch(s: System, t: TxnId, asked: bool) {
    && t in s.txns && s.txns[t].thread.PreparePhase? && s.txns[t].thread.asked == asked
    && s.txns[t].thread.next < |s.txns[t].branches|
  }

  function TheBranch(s: System, t: TxnId): Branch
    requires t in s.txns && s.txns[t].thread.PreparePhase? && s.txns[t].thread.next < |s.txns[t].branches|
  {
    s.txns[t].branches[s.txns[t].thread.next]
  }

  predicate AtAbort(s: System, t: TxnId) {
    t in s.txns && s.txns[t].thread.AbortPhase? && s.txns[t].thread.todo != []
  }

  predicate AtCommit(s: System, t: TxnId) {
    t in s.txns && s.txns[t].thread.CommitPhase? && s.txns[t].thread.next < |s.txns[t].branches|
  }

  ghost predicate Step(s: System, a: Action, s': System) {
    match a
    case Begin =>
      s' == Put(s, s.nextTxn, Txn(s.clock, [], Idle)).(clock := s.clock + 1, nextTxn := s.nextTxn + 1)
    case Drive(t, bs) =>
      && t in s.txns && s.txns[t].thread == Idle && OneBranchPerShard(bs)
      && s' == Put(s, t, s.txns[t].(branches := bs,
                                    thread := if bs == [] then AbortPhase([]) else PreparePhase(0, false)))
    case Ask(t) =>
      && AtBranch(s, t, false)
      && On(Move(s, t, s.txns[t].thread.(asked := true)), TheBranch(s, t).shard, AskSection(t, s.txns[t]), s')
    case Refused(t) =>  // unknown shard, injected failure, conflict, or the shard crashed in the call
      && t in s.txns && s.txns[t].thread.PreparePhase? && s.txns[t].thread.next < |s.txns[t].branches|
      && !Busy(s, TheBranch(s, t).shard, Driver(t))
      && s' == Move(s, t, AbortPhase(AbortOrder(s.txns[t].branches)))
    case Vote(t, ack) =>  // without an ACK: crashed after PREPARED
      && AtBranch(s, t, true)
      && On(Move(s, t, if ack then PreparePhase(s.txns[t].thread.next + 1, false)
                       else AbortPhase(AbortOrder(s.txns[t].branches))), TheBranch(s, t).shard, Insert(Driver(t)), s')
    case Within(sid, e) => sid in s.shards && Inner(s.shards[sid], e) && On(s, sid, e, s')
    case StartAbort(t) => AtAbort(s, t) && On(s, s.txns[t].thread.todo[0], Start(Driver(t), t, Aborting), s')
    case EndAbort(t) =>
      && AtAbort(s, t) && Busy(s, s.txns[t].thread.todo[0], Driver(t))
      && var sid := s.txns[t].thread.todo[0];
         && s.shards[sid].calls[Driver(t)].Released? && s.shards[sid].calls[Driver(t)].ending == Aborting
         && On(Move(s, t, AbortPhase(s.txns[t].thread.todo[1..])), sid, LogEnd(Driver(t)), s')
    case SkipAbort(t) =>  // unknown shard, or it is down
      && AtAbort(s, t) && !Busy(s, s.txns[t].thread.todo[0], Driver(t))
      && s' == Move(s, t, AbortPhase(s.txns[t].thread.todo[1..]))
    case FinishAbort(t, logged) =>
      && t in s.txns && s.txns[t].thread == AbortPhase([])
      && s' == Move(s, t, Stopped).(memory := s.memory[t := Aborted],
                                    durable := if logged then s.durable[t := Aborted] else s.durable)
    case Decide(t) =>
      && t in s.txns && s.txns[t].thread == PreparePhase(|s.txns[t].branches|, false) && s.txns[t].branches != []
      && s' == Move(s, t, PersistPhase(s.clock)).(memory := s.memory[t := Committed(s.clock)], clock := s.clock + 1)
    case Persist(t, logged) =>
      && t in s.txns && s.txns[t].thread.PersistPhase?
      && var ts := s.txns[t].thread.ts;
         s' == if logged then Move(s, t, CommitPhase(ts, 0)).(durable := s.durable[t := Committed(ts)])
               else Move(s, t, Stopped)
    case StartCommit(t) =>
      && AtCommit(s, t)
      && On(s, s.txns[t].branches[s.txns[t].thread.next].shard, Start(Driver(t), t, Committing(s.txns[t].thread.ts)),
            s')
    case EndCommit(t) =>
      && AtCommit(s, t)
      && On(Move(s, t, CommitPhase(s.txns[t].thread.ts, s.txns[t].thread.next + 1)),
            s.txns[t].branches[s.txns[t].thread.next].shard, Apply(Driver(t)), s')
    case Return(t) =>  // the call returns, is abandoned, or dies with an injected crash
      && t in s.txns && (forall sid :: sid in s.shards ==> Driver(t) !in s.shards[sid].calls)
      && s' == Move(s, t, Stopped)
    case Recover(sid, t, id) =>  // only a transaction whose `commit` has begun can be an orphan
      && t in s.txns && !s.txns[t].thread.Idle?
      && On(s, sid, Start(Recovery(id), t, Choice(Find(s.memory, t))), s')
    case ShardCrash(sid) => On(s, sid, Section.Crash, s')
    case Reopen => (forall sid :: sid in s.shards ==> s.shards[sid].calls == map[]) && s' == Reopened(s)
  }

  ghost predicate StepAt(ss: seq<System>, acts: seq<Action>, i: nat)
    requires i < |acts| && |ss| == |acts| + 1
  {
    Step(ss[i], acts[i], ss[i + 1])
  }

  ghost predicate Path(ss: seq<System>, acts: seq<Action>) {
    |ss| == |acts| + 1 && forall i :: 0 <= i < |acts| ==> StepAt(ss, acts, i)
  }

  /** The decision is in memory and not in the durable log. */
  predicate Undurable(mem: Option<Decision>, dur: Option<Decision>) {
    mem.Some? && mem.value.Committed? && dur != mem
  }

  /** The guard under which recovery is sound: the transaction's `commit` call is not in phase 1,
      and its decision is not one that only memory holds. */
  predicate MayRecover(s: System, t: TxnId)
    requires t in s.txns
  {
    !s.txns[t].thread.PreparePhase? && !Undurable(Find(s.memory, t), Find(s.durable, t))
  }

  predicate Careful(s: System, a: Action) {
    a.Recover? && a.t in s.txns ==> MayRecover(s, a.t)
  }

  /** A run from the start in which every recovery is started under the guard. */
  ghost predicate Run(ss: seq<System>, acts: seq<Action>) {
    Path(ss, acts) && Initial(ss[0]) && forall i :: 0 <= i < |acts| ==> Careful(ss[i], acts[i])
  }

  // ---------------------------------------------------------------- one transaction on one shard

  /** What a shard knows about one transaction: the write-set and snapshot its log holds
      prepared, the commit and abort records of the log, and the calls that are running. */
  datatype View = View(held: Option<seq<Write>>, snapshot: Ts, resolved: seq<Command>, calls: map<Caller, Call>)

  function Resolved(log: seq<Command>, t: TxnId): seq<Command> {
    if log == [] then []
    else
      var c := log[|log| - 1];
      Resolved(log[..|log| - 1], t) +
      if (c.TxnCommit? || c.TxnAbort?) && c.txn == t then [c] else []
  }

  function CallsOf(calls: map<Caller, Call>, t: TxnId): map<Caller, Call> {
    map c | c in calls && calls[c].txn == t :: calls[c]
  }

  /** What the log alone says. */
  function LogView(log: seq<Command>, t: TxnId): View {
    View(Entry(Held(log), t), if t in Held(log) then PrepareTs(log, t) else 0, Resolved(log, t), map[])
  }

  function ViewOf(m: Machine, t: TxnId): View {
    LogView(m.st.log, t).(calls := CallsOf(m.calls, t))
  }

  function Views(s: System, t: TxnId): map<ShardId, View> {
    map sid | sid in s.shards :: ViewOf(s.shards[sid], t)
  }

  const UNTOUCHED := View(None, 0, [], map[])

  /** The transaction a section belongs to. */
  function TxnOf(m: Machine, e: Section): TxnId
    requires Enabled(m, e) && !e.Append? && !e.Crash?
  {
    match e
    case Validate(_, txn, _, _, _) => txn
    case Start(_, txn, _) => txn
    case _ => m.calls[e.c].txn
  }

  /** The record a section writes, if any. */
  function Writes(m: Machine, e: Section): Option<Command>
    requires Enabled(m, e)
  {
    match e
    case LogPrepare(c) => Some(TxnPrepare(m.calls[c].txn, m.calls[c].readTs, m.calls[c].writes))
    case LogEnd(c) => Some(Record(m.calls[c]))
    case Append => Some(Other)
    case _ => None
  }

  lemma LogAfter(m: Machine, e: Section)
    requires Enabled(m, e)
    ensures Writes(m, e) == None ==> After(m, e).st.log == m.st.log
    ensures Writes(m, e).Some? ==> After(m, e).st.log == m.st.log + [Writes(m, e).value]
  {
  }

  /** What one record changes. */
  lemma RecordView(log: seq<Command>, c: Command, u: TxnId)
    ensures LogView(log + [c], u) ==
            if c == Other || c.txn != u then LogView(log, u)
            else if c.TxnPrepare? then View(Some(c.ops), c.readTs, Resolved(log, u), map[])
            else View(None, 0, Resolved(log, u) + [c], map[])
  {
    Snoc(log, c);
    HeldAfter(log, c, u);
    AppendTs(log, c, u);
    assert Resolved(log, u) + [] == Resolved(log, u);
  }

  lemma SameCalls(m: Machine, e: Section, u: TxnId)
    requires Enabled(m, e) && !e.Crash? && (e.Append? || u != TxnOf(m, e))
    ensures CallsOf(After(m, e).calls, u) == CallsOf(m.calls, u)
  {
  }

  lemma OthersRecord(m: Machine, e: Section, u: TxnId)
    requires Enabled(m, e) && !e.Crash? && (e.Append? || u != TxnOf(m, e))
    ensures Writes(m, e).Some? ==> Writes(m, e).value == Other || Writes(m, e).value.txn != u
  {
  }

  /** A section is invisible to every other transaction. */
  lemma OthersUnseen(m: Machine, e: Section, u: TxnId)
    requires Enabled(m, e) && !e.Crash? && (e.Append? || u != TxnOf(m, e))
    ensures ViewOf(After(m, e), u) == ViewOf(m, u)
  {
    LogAfter(m, e);
    OthersRecord(m, e, u);
    if Writes(m, e).Some? { RecordView(m.st.log, Writes(m, e).value, u); }
    SameCalls(m, e, u);
  }

  /** A section that writes no record changes only the running calls. */
  lemma SilentView(m: Machine, e: Section, u: TxnId)
    requires Enabled(m, e) && Writes(m, e) == None
    ensures ViewOf(After(m, e), u) == ViewOf(m, u).(calls := CallsOf(After(m, e).calls, u))
  {
    LogAfter(m, e);
  }

  // ---------------------------------------------------------------- the invariant

  predicate IsBranch(bs: seq<Branch>, sid: ShardId, ws: seq<Write>) {
    exists i :: 0 <= i < |bs| && bs[i].shard == sid && bs[i].writes == ws
  }

  predicate OnlyAborts(cs: seq<Command>) {
    forall i :: 0 <= i < |cs| ==> cs[i].TxnAbort?
  }

  predicate HasEnding(call: Call, ending: Ending) {
    (Ends(call) && call.ending == ending) || (call.Applying? && ending == Committing(call.ts))
  }

  /** Every running call of the transaction is of one kind. */
  predicate CallsEnd(calls: map<Caller, Call>, ending: Ending) {
    forall c :: c in calls ==> HasEnding(calls[c], ending)
  }

  predicate AllEnd(v: map<ShardId, View>, ending: Ending) {
    forall sid :: sid in v ==> CallsEnd(v[sid].calls, ending)
  }

  /** The branch is still prepared, with nothing resolved. */
  predicate Holding(v: map<ShardId, View>, b: Branch) {
    b.shard in v && v[b.shard].held == Some(b.writes) && v[b.shard].resolved == []
  }

  /** The branch was applied exactly once, at `ts`, and not aborted. */
  predicate Applied(v: map<ShardId, View>, b: Branch, t: TxnId, ts: Ts) {
    b.shard in v && v[b.shard].held == None && v[b.shard].resolved == [TxnCommit(t, ts, b.writes)]
  }

  predicate HasBranch(bs: seq<Branch>, sid: ShardId) {
    exists i :: 0 <= i < |bs| && bs[i].shard == sid
  }

  predicate CommitsEverywhere(v: map<ShardId, View>, x: Txn, t: TxnId, ts: Ts) {
    && x.readTs < ts
    && (forall i :: 0 <= i < |x.branches| ==> Holding(v, x.branches[i]) || Applied(v, x.branches[i], t, ts))
    && (forall sid :: sid in v && !HasBranch(x.branches, sid) ==> v[sid].held == None && v[sid].resolved == [])
  }

  /** The prepare call of branch `b`, at whatever section. */
  predicate IsAsking(calls: map<Caller, Call>, t: TxnId, readTs: Ts, b: Branch) {
    forall c :: c in calls ==>
      c == Driver(t) && Prepares(calls[c]) && calls[c].txn == t && calls[c].readTs == readTs &&
      calls[c].writes == b.writes
  }

  /** The first `n` branches are prepared; if `asked`, the next one may be, or is being, prepared. */
  predicate Votes(v: map<ShardId, View>, x: Txn, t: TxnId, n: nat, asked: bool)
    requires n <= |x.branches| && (asked ==> n < |x.branches|)
  {
    var bs := x.branches;
    && (forall i :: 0 <= i < n ==> Holding(v, bs[i]) && v[bs[i].shard].calls == map[])
    && (forall sid :: sid in v ==> v[sid].resolved == [])
    && (forall sid :: sid in v && !HasBranch(bs[..if asked then n + 1 else n], sid) ==> v[sid] == UNTOUCHED)
    && (asked && bs[n].shard in v ==> IsAsking(v[bs[n].shard].calls, t, x.readTs, bs[n]))
  }

  predicate ThreadInv(v: map<ShardId, View>, x: Txn, t: TxnId, mem: Option<Decision>, dur: Option<Decision>,
                      clock: Ts) {
    match x.thread
    case Idle =>
      x.branches == [] && mem == None && x.readTs < clock && forall sid :: sid in v ==> v[sid] == UNTOUCHED
    case PreparePhase(n, asked) =>
      && n <= |x.branches| && (asked ==> n < |x.branches|) && mem == None && x.readTs < clock
      && Votes(v, x, t, n, asked)
    case AbortPhase(_) => mem == None
    case PersistPhase(ts) =>
      mem == Some(Committed(ts)) && dur == None && x.readTs < ts && Votes(v, x, t, |x.branches|, false)
    case CommitPhase(ts, _) => dur == Some(Committed(ts))
    case Stopped => true
  }

  predicate TxnInv(v: map<ShardId, View>, x: Txn, t: TxnId, mem: Option<Decision>, dur: Option<Decision>, clock: Ts) {
    && OneBranchPerShard(x.branches)
    && (forall sid :: sid in v && v[sid].held.Some? ==>
          v[sid].snapshot == x.readTs && IsBranch(x.branches, sid, v[sid].held.value))
    && (dur.Some? ==> mem == dur)
    && (x.thread.PreparePhase? || AllEnd(v, Choice(dur)))
    && (match dur
        case Some(Committed(ts)) => CommitsEverywhere(v, x, t, ts)
        case _ => forall sid :: sid in v ==> OnlyAborts(v[sid].resolved))
    && ThreadInv(v, x, t, mem, dur, clock)
  }

  /** A `commit` call only makes calls for its own transaction. */
  ghost predicate DriversOwn(calls: map<Caller, Call>) {
    forall u :: Driver(u) in calls ==> calls[Driver(u)].txn == u
  }

  ghost predicate ShardOk(s: System, sid: ShardId) {
    sid in s.shards ==> Linked(s.shards[sid]) && DriversOwn(s.shards[sid].calls)
  }

  ghost predicate TxnOk(s: System, t: TxnId) {
    t in s.txns ==> InvAt(s, t)
  }

  /** A transaction that has not begun has left no trace. */
  ghost predicate Unknown(s: System, t: TxnId) {
    t !in s.txns ==>
      && t !in s.memory && t !in s.durable
      && forall sid :: sid in s.shards ==> ViewOf(s.shards[sid], t) == UNTOUCHED
  }

  ghost predicate Inv(s: System) {
    && (forall sid :: ShardOk(s, sid))
    && (forall t :: t in s.txns ==> t < s.nextTxn)
    && (forall t :: Unknown(s, t))
    && (forall t :: TxnOk(s, t))
  }

  ghost predicate InvAt(s: System, t: TxnId) {
    t in s.txns && TxnInv(Views(s, t), s.txns[t], t, Find(s.memory, t), Find(s.durable, t), s.clock)
  }

  // ---------------------------------------------------------------- frames

  /** Nothing but `t` differs between the two states, as far as any transaction can see. */
  ghost predicate OnlyTouches(s: System, s': System, t: TxnId) {
    && s'.shards.Keys == s.shards.Keys && s'.txns.Keys == s.txns.Keys + {t}
    && s.clock <= s'.clock && s.nextTxn <= s'.nextTxn
    && (forall u :: u != t && u in s.txns ==> s'.txns[u] == s.txns[u])
    && (forall u :: u != t ==> Find(s'.memory, u) == Find(s.memory, u) && Find(s'.durable, u) == Find(s.durable, u))
    && (forall sid, u :: sid in s.shards && u != t ==> ViewOf(s'.shards[sid], u) == ViewOf(s.shards[sid], u))
  }

  lemma SameViews(s: System, s': System, u: TxnId)
    requires s'.shards.Keys == s.shards.Keys
    requires forall sid :: sid in s.shards ==> ViewOf(s'.shards[sid], u) == ViewOf(s.shards[sid], u)
    ensures Views(s', u) == Views(s, u)
  {
  }

  lemma OthersKept(s: System, s': System, t: TxnId, u: TxnId)
    requires InvAt(s, u) && u != t && OnlyTouches(s, s', t)
    ensures InvAt(s', u)
  {
    SameViews(s, s', u);
  }

  lemma Preserve(s: System, s': System, t: TxnId)
    requires Inv(s) && OnlyTouches(s, s', t) && t < s'.nextTxn && InvAt(s', t)
    requires forall sid :: ShardOk(s', sid)
    ensures Inv(s')
  {
    forall u ensures TxnOk(s', u) {
      assert TxnOk(s, u);
      if u != t && u in s.txns { OthersKept(s, s', t, u); }
    }
    forall u ensures Unknown(s', u) {
      assert Unknown(s, u);
      if u != t { assert Find(s'.memory, u) == Find(s.memory, u) && Find(s'.durable, u) == Find(s.durable, u); }
    }
  }

  /** The step is one of the coordinator alone, for `t`. */
  ghost predicate Moves(s: System, s': System, t: TxnId) {
    && s'.shards == s.shards && t in s'.txns && s'.txns == s.txns[t := s'.txns[t]]
    && (s'.memory == s.memory || (t in s'.memory && s'.memory == s.memory[t := s'.memory[t]]))
    && (s'.durable == s.durable || (t in s'.durable && s'.durable == s.durable[t := s'.durable[t]]))
    && s.clock <= s'.clock && s.nextTxn <= s'.nextTxn
  }

  lemma MovesTouch(s: System, s': System, t: TxnId)
    requires Moves(s, s', t)
    ensures OnlyTouches(s, s', t)
  {
  }

  lemma PreserveMove(s: System, s': System, t: TxnId)
    requires Inv(s) && Moves(s, s', t) && t < s'.nextTxn
    requires TxnInv(Views(s, t), s'.txns[t], t, Find(s'.memory, t), Find(s'.durable, t), s'.clock)
    ensures Inv(s')
  {
    MovesTouch(s, s', t);
    SameViews(s, s', t);
    forall sid ensures ShardOk(s', sid) { assert ShardOk(s, sid); }
    Preserve(s, s', t);
  }

  lemma PutView(s: System, s': System, sid: ShardId, t: TxnId)
    requires sid in s.shards && s'.shards.Keys == s.shards.Keys
    requires forall q :: q in s.shards && q != sid ==> s'.shards[q] == s.shards[q]
    ensures Views(s', t) == Views(s, t)[sid := ViewOf(s'.shards[sid], t)]
  {
  }

  lemma TouchesOne(s: System, sid: ShardId, e: Section, t: TxnId, x: Txn)
    requires t in s.txns && sid in s.shards && Enabled(s.shards[sid], e)
    requires !e.Append? && !e.Crash? && TxnOf(s.shards[sid], e) == t
    ensures OnlyTouches(s, PutShard(Put(s, t, x), sid, After(s.shards[sid], e)), t)
  {
    var s' := PutShard(Put(s, t, x), sid, After(s.shards[sid], e));
    forall q, u | q in s.shards && u != t ensures ViewOf(s'.shards[q], u) == ViewOf(s.shards[q], u) {
      if q == sid { OthersUnseen(s.shards[sid], e, u); }
    }
  }

  /** A driver's call, if the section starts one, is for its own transaction. */
  predicate OwnStart(e: Section) {
    (e.Validate? || e.Start?) && e.c.Driver? ==> e.c.txn == e.txn
  }

  lemma DriversStay(m: Machine, e: Section)
    requires DriversOwn(m.calls) && Enabled(m, e) && OwnStart(e)
    ensures DriversOwn(After(m, e).calls)
  {
  }

  /** A section on one shard, together with a move of the transaction's own thread. */
  lemma PreserveSection(s: System, sid: ShardId, e: Section, t: TxnId, x: Txn)
    requires Inv(s) && t in s.txns && sid in s.shards && Enabled(s.shards[sid], e) && Disciplined(s.shards[sid], e)
    requires !e.Append? && !e.Crash? && TxnOf(s.shards[sid], e) == t && OwnStart(e)
    requires TxnInv(Views(s, t)[sid := ViewOf(After(s.shards[sid], e), t)], x, t, Find(s.memory, t),
                    Find(s.durable, t), s.clock)
    ensures Inv(PutShard(Put(s, t, x), sid, After(s.shards[sid], e)))
  {
    var m' := After(s.shards[sid], e);
    var s' := PutShard(Put(s, t, x), sid, m');
    assert ShardOk(s, sid);
    StepKeepsLinked(s.shards[sid], e, m');
    DriversStay(s.shards[sid], e);
    forall q ensures ShardOk(s', q) { assert ShardOk(s, q); }
    PutView(s, s', sid, t);
    TouchesOne(s, sid, e, t, x);
    Preserve(s, s', t);
  }

  lemma PutSame(s: System, t: TxnId)
    requires t in s.txns
    ensures Put(s, t, s.txns[t]) == s
  {
  }

  lemma PreserveWithin(s: System, sid: ShardId, e: Section, t: TxnId)
    requires Inv(s) && t in s.txns && sid in s.shards && Enabled(s.shards[sid], e) && Disciplined(s.shards[sid], e)
    requires !e.Append? && !e.Crash? && TxnOf(s.shards[sid], e) == t && OwnStart(e)
    requires TxnInv(Views(s, t)[sid := ViewOf(After(s.shards[sid], e), t)], s.txns[t], t,
                    Find(s.memory, t), Find(s.durable, t), s.clock)
    ensures Inv(PutShard(s, sid, After(s.shards[sid], e)))
  {
    PutSame(s, t);
    PreserveSection(s, sid, e, t, s.txns[t]);
  }

  // ---------------------------------------------------------------- one transaction, pure part

  predicate PastVotes(x: Txn) {
    x.thread.AbortPhase? || x.thread.CommitPhase? || x.thread.Stopped?
  }

  /** A running call tells where its transaction stands. */
  lemma WhoCalls(v: map<ShardId, View>, x: Txn, t: TxnId, mem: Option<Decision>, dur: Option<Decision>, clock: Ts,
                 sid: ShardId, c: Caller)
    requires TxnInv(v, x, t, mem, dur, clock) && sid in v && c in v[sid].calls
    ensures Prepares(v[sid].calls[c]) ==>
      && x.thread.PreparePhase? && x.thread.asked && x.thread.next < |x.branches|
      && sid == x.branches[x.thread.next].shard && IsAsking(v[sid].calls, t, x.readTs, x.branches[x.thread.next])
    ensures !Prepares(v[sid].calls[c]) ==> PastVotes(x) && HasEnding(v[sid].calls[c], Choice(dur))
  {
    if x.thread.PreparePhase? {
      CallsWhereAsked(v, x, t, x.thread.next, x.thread.asked, sid);
    } else {
      assert CallsEnd(v[sid].calls, Choice(dur));
      if x.thread.PersistPhase? { CallsWhereAsked(v, x, t, |x.branches|, false, sid); }
    }
  }

  lemma CallsWhereAsked(v: map<ShardId, View>, x: Txn, t: TxnId, n: nat, asked: bool, sid: ShardId)
    requires n <= |x.branches| && (asked ==> n < |x.branches|) && Votes(v, x, t, n, asked) && sid in v
    ensures v[sid].calls == map[] || (asked && sid == x.branches[n].shard)
  {
    var bs := x.branches[..if asked then n + 1 else n];
    if HasBranch(bs, sid) {
      var i :| 0 <= i < |bs| && bs[i].shard == sid;
      assert i < n ==> Holding(v, x.branches[i]) && v[x.branches[i].shard].calls == map[];
    }
  }

  lemma SameElsewhere(v: map<ShardId, View>, x: Txn, t: TxnId, ts: Ts, sid: ShardId, w: View)
    requires CommitsEverywhere(v, x, t, ts) && sid in v && w.held == v[sid].held && w.resolved == v[sid].resolved
    ensures CommitsEverywhere(v[sid := w], x, t, ts)
  {
    forall i | 0 <= i < |x.branches|
      ensures Holding(v[sid := w], x.branches[i]) || Applied(v[sid := w], x.branches[i], t, ts)
    {
      assert Holding(v, x.branches[i]) || Applied(v, x.branches[i], t, ts);
    }
  }

  /** Past the votes, the calls of a transaction come and go. */
  lemma EndingCalls(v: map<ShardId, View>, x: Txn, t: TxnId, mem: Option<Decision>, dur: Option<Decision>, clock: Ts,
                    sid: ShardId, calls: map<Caller, Call>)
    requires TxnInv(v, x, t, mem, dur, clock) && PastVotes(x) && sid in v && CallsEnd(calls, Choice(dur))
    ensures TxnInv(v[sid := v[sid].(calls := calls)], x, t, mem, dur, clock)
  {
    if dur.Some? && dur.value.Committed? { SameElsewhere(v, x, t, dur.value.ts, sid, v[sid].(calls := calls)); }
  }

  /** An abort record of an undecided transaction. */
  lemma AbortOne(v: map<ShardId, View>, x: Txn, t: TxnId, mem: Option<Decision>, dur: Option<Decision>, clock: Ts,
                 sid: ShardId, calls: map<Caller, Call>)
    requires TxnInv(v, x, t, mem, dur, clock) && PastVotes(x) && sid in v && CallsEnd(calls, Aborting)
    requires Choice(dur) == Aborting
    ensures TxnInv(v[sid := View(None, 0, v[sid].resolved + [TxnAbort(t)], calls)], x, t, mem, dur, clock)
  {
    assert OnlyAborts(v[sid].resolved + [TxnAbort(t)]);
  }

  lemma ApplyOne(v: map<ShardId, View>, x: Txn, t: TxnId, ts: Ts, sid: ShardId, w: View)
    requires CommitsEverywhere(v, x, t, ts) && OneBranchPerShard(x.branches)
    requires sid in v && v[sid].held.Some?
    requires w.held == None && w.resolved == v[sid].resolved + [TxnCommit(t, ts, v[sid].held.value)]
    ensures CommitsEverywhere(v[sid := w], x, t, ts)
  {
    var v' := v[sid := w];
    forall i | 0 <= i < |x.branches| ensures Holding(v', x.branches[i]) || Applied(v', x.branches[i], t, ts) {
      var b := x.branches[i];
      assert Holding(v, b) || Applied(v, b, t, ts);
      if b.shard == sid { assert Holding(v, b); }
    }
    assert HasBranch(x.branches, sid);
  }

  /** A commit record of a decided transaction. */
  lemma CommitOne(v: map<ShardId, View>, x: Txn, t: TxnId, mem: Option<Decision>, ts: Ts, clock: Ts,
                  sid: ShardId, calls: map<Caller, Call>)
    requires TxnInv(v, x, t, mem, Some(Committed(ts)), clock) && PastVotes(x) && sid in v && v[sid].held.Some?
    requires CallsEnd(calls, Committing(ts))
    ensures TxnInv(v[sid := View(None, 0, v[sid].resolved + [TxnCommit(t, ts, v[sid].held.value)], calls)],
                   x, t, mem, Some(Committed(ts)), clock)
  {
    ApplyOne(v, x, t, ts, sid, View(None, 0, v[sid].resolved + [TxnCommit(t, ts, v[sid].held.value)], calls));
  }

  lemma FreshBranch(x: Txn, n: nat)
    requires n < |x.branches| && OneBranchPerShard(x.branches)
    ensures !HasBranch(x.branches[..n], x.branches[n].shard)
    ensures forall sid :: HasBranch(x.branches[..n + 1], sid) <==>
      HasBranch(x.branches[..n], sid) || sid == x.branches[n].shard
  {
    var bs := x.branches;
    forall sid ensures HasBranch(bs[..n + 1], sid) <==> HasBranch(bs[..n], sid) || sid == bs[n].shard {
      if HasBranch(bs[..n], sid) {
        var i :| 0 <= i < n && bs[..n][i].shard == sid;
        assert bs[..n + 1][i].shard == sid;
      }
      if HasBranch(bs[..n + 1], sid) {
        var i :| 0 <= i < n + 1 && bs[..n + 1][i].shard == sid;
        assert i < n ==> bs[..n][i].shard == sid;
      }
      assert bs[..n + 1][n] == bs[n];
    }
  }

  /** While branch `n` is being prepared, only its shard's view changes. */
  lemma AskedVotes(v: map<ShardId, View>, x: Txn, t: TxnId, n: nat, asked: bool, w: View)
    requires n < |x.branches| && OneBranchPerShard(x.branches) && x.branches[n].shard in v
    requires Votes(v, x, t, n, asked) && w.resolved == [] && IsAsking(w.calls, t, x.readTs, x.branches[n])
    ensures Votes(v[x.branches[n].shard := w], x, t, n, true)
  {
    var sid := x.branches[n].shard;
    var v' := v[sid := w];
    FreshBranch(x, n);
    forall i | 0 <= i < n ensures Holding(v', x.branches[i]) && v'[x.branches[i].shard].calls == map[] {
      assert Holding(v, x.branches[i]) && x.branches[i].shard != sid;
    }
    assert x.branches[..if asked then n + 1 else n] == if asked then x.branches[..n + 1] else x.branches[..n];
  }

  lemma AskedTxn(v: map<ShardId, View>, x: Txn, t: TxnId, mem: Option<Decision>, dur: Option<Decision>, clock: Ts,
                 w: View)
    requires TxnInv(v, x, t, mem, dur, clock) && x.thread.PreparePhase? && x.thread.next < |x.branches|
    requires x.branches[x.thread.next].shard in v && IsAsking(w.calls, t, x.readTs, x.branches[x.thread.next])
    requires w.resolved == []
    requires w.held.Some? ==> w.held.value == x.branches[x.thread.next].writes && w.snapshot == x.readTs
    ensures TxnInv(v[x.branches[x.thread.next].shard := w], x.(thread := x.thread.(asked := true)), t, mem, dur, clock)
  {
    AskedVotes(v, x, t, x.thread.next, x.thread.asked, w);
    assert IsBranch(x.branches, x.branches[x.thread.next].shard, x.branches[x.thread.next].writes);
  }

  /** The vote is in: branch `n` joins the prepared branches. */
  lemma VoteJoins(v: map<ShardId, View>, x: Txn, t: TxnId, n: nat, w: View)
    requires n < |x.branches| && OneBranchPerShard(x.branches) && x.branches[n].shard in v
    requires Votes(v, x, t, n, true)
    requires w.held == Some(x.branches[n].writes) && w.resolved == [] && w.calls == map[]
    ensures Votes(v[x.branches[n].shard := w], x, t, n + 1, false)
  {
    var sid := x.branches[n].shard;
    var v' := v[sid := w];
    forall i | 0 <= i < n + 1 ensures Holding(v', x.branches[i]) && v'[x.branches[i].shard].calls == map[] {
      if i < n { assert Holding(v, x.branches[i]) && x.branches[i].shard != sid; }
    }
    assert x.branches[..if true then n + 1 else n] == x.branches[..n + 1];
    FreshBranch(x, n);
  }

  /** Nothing of the transaction is running once its prepare is over. */
  lemma NoCallsLeft(v: map<ShardId, View>, x: Txn, t: TxnId, n: nat, asked: bool)
    requires n < |x.branches| && OneBranchPerShard(x.branches) && Votes(v, x, t, n, asked)
    requires x.branches[n].shard in v ==> Driver(t) !in v[x.branches[n].shard].calls
    ensures forall sid :: sid in v ==> v[sid].calls == map[]
  {
    forall sid | sid in v ensures v[sid].calls == map[] {
      CallsWhereAsked(v, x, t, n, asked, sid);
      assert sid == x.branches[n].shard && asked ==> forall c :: c in v[sid].calls ==> c == Driver(t);
    }
  }

  lemma VoteTxn(v: map<ShardId, View>, x: Txn, t: TxnId, mem: Option<Decision>, dur: Option<Decision>, clock: Ts,
                w: View, todo: seq<ShardId>)
    requires TxnInv(v, x, t, mem, dur, clock) && x.thread.PreparePhase? && x.thread.asked
    requires x.branches[x.thread.next].shard in v
    requires w == View(Some(x.branches[x.thread.next].writes), x.readTs, [], map[])
    ensures var v' := v[x.branches[x.thread.next].shard := w];
      && TxnInv(v', x.(thread := PreparePhase(x.thread.next + 1, false)), t, mem, dur, clock)
      && TxnInv(v', x.(thread := AbortPhase(todo)), t, mem, dur, clock)
  {
    var n := x.thread.next;
    var v' := v[x.branches[n].shard := w];
    VoteJoins(v, x, t, n, w);
    assert IsBranch(x.branches, x.branches[n].shard, x.branches[n].writes);
    AskedVotes(v, x, t, n, true, w);
    NoCallsLeft(v', x, t, n, true);
  }

  lemma RefusedTxn(v: map<ShardId, View>, x: Txn, t: TxnId, mem: Option<Decision>, dur: Option<Decision>, clock: Ts,
                   todo: seq<ShardId>)
    requires TxnInv(v, x, t, mem, dur, clock) && x.thread.PreparePhase? && x.thread.next < |x.branches|
    requires x.branches[x.thread.next].shard in v ==> Driver(t) !in v[x.branches[x.thread.next].shard].calls
    ensures TxnInv(v, x.(thread := AbortPhase(todo)), t, mem, dur, clock)
  {
    NoCallsLeft(v, x, t, x.thread.next, x.thread.asked);
  }

  /** A crash ends the calls on one shard. */
  lemma DropCalls(v: map<ShardId, View>, x: Txn, t: TxnId, mem: Option<Decision>, dur: Option<Decision>, clock: Ts,
                  sid: ShardId)
    requires TxnInv(v, x, t, mem, dur, clock) && sid in v
    ensures TxnInv(v[sid := v[sid].(calls := map[])], x, t, mem, dur, clock)
  {
    var w := v[sid].(calls := map[]);
    if dur.Some? && dur.value.Committed? { SameElsewhere(v, x, t, dur.value.ts, sid, w); }
    if x.thread.PreparePhase? {
      DropVotes(v, x, t, x.thread.next, x.thread.asked, sid);
    } else if x.thread.PersistPhase? {
      DropVotes(v, x, t, |x.branches|, false, sid);
    }
  }

  lemma DropVotes(v: map<ShardId, View>, x: Txn, t: TxnId, n: nat, asked: bool, sid: ShardId)
    requires n <= |x.branches| && (asked ==> n < |x.branches|) && Votes(v, x, t, n, asked) && sid in v
    ensures Votes(v[sid := v[sid].(calls := map[])], x, t, n, asked)
  {
    var v' := v[sid := v[sid].(calls := map[])];
    forall i | 0 <= i < n ensures Holding(v', x.branches[i]) && v'[x.branches[i].shard].calls == map[] {
      assert Holding(v, x.branches[i]) && v[x.branches[i].shard].calls == map[];
    }
  }

  // ---------------------------------------------------------------- coordinator steps

  lemma BeginTxn(v: map<ShardId, View>, t: TxnId, clock: Ts)
    requires forall sid :: sid in v ==> v[sid] == UNTOUCHED
    ensures TxnInv(v, Txn(clock, [], Idle), t, None, None, clock + 1)
  {
  }

  lemma BeginKeeps(s: System, s': System)
    requires Inv(s) && Step(s, Begin, s')
    ensures Inv(s')
  {
    var t := s.nextTxn;
    assert t !in s.txns && Unknown(s, t);
    BeginTxn(Views(s, t), t, s.clock);
    PreserveMove(s, s', t);
  }

  lemma DriveTxn(v: map<ShardId, View>, x: Txn, t: TxnId, mem: Option<Decision>, dur: Option<Decision>, clock: Ts,
                 bs: seq<Branch>)
    requires TxnInv(v, x, t, mem, dur, clock) && x.thread == Idle && OneBranchPerShard(bs)
    ensures TxnInv(v, x.(branches := bs, thread := if bs == [] then AbortPhase([]) else PreparePhase(0, false)),
                   t, mem, dur, clock)
  {
    assert bs[..0] == [];
  }

  lemma DriveKeeps(s: System, t: TxnId, bs: seq<Branch>, s': System)
    requires Inv(s) && Step(s, Drive(t, bs), s')
    ensures Inv(s')
  {
    assert TxnOk(s, t);
    DriveTxn(Views(s, t), s.txns[t], t, Find(s.memory, t), Find(s.durable, t), s.clock, bs);
    PreserveMove(s, s', t);
  }

  lemma RefusedKeeps(s: System, t: TxnId, s': System)
    requires Inv(s) && Step(s, Refused(t), s')
    ensures Inv(s')
  {
    assert TxnOk(s, t);
    RefusedTxn(Views(s, t), s.txns[t], t, Find(s.memory, t), Find(s.durable, t), s.clock,
               AbortOrder(s.txns[t].branches));
    PreserveMove(s, s', t);
  }

  lemma SkipAbortKeeps(s: System, t: TxnId, s': System)
    requires Inv(s) && Step(s, SkipAbort(t), s')
    ensures Inv(s')
  {
    assert TxnOk(s, t);
    PreserveMove(s, s', t);
  }

  lemma FinishAbortTxn(v: map<ShardId, View>, x: Txn, t: TxnId, mem: Option<Decision>, dur: Option<Decision>, clock: Ts)
    requires TxnInv(v, x, t, mem, dur, clock) && x.thread.AbortPhase?
    ensures TxnInv(v, x.(thread := Stopped), t, Some(Aborted), Some(Aborted), clock)
    ensures dur == None && TxnInv(v, x.(thread := Stopped), t, Some(Aborted), dur, clock)
  {
  }

  lemma FinishAbortKeeps(s: System, t: TxnId, logged: bool, s': System)
    requires Inv(s) && Step(s, FinishAbort(t, logged), s')
    ensures Inv(s')
  {
    assert TxnOk(s, t);
    FinishAbortTxn(Views(s, t), s.txns[t], t, Find(s.memory, t), Find(s.durable, t), s.clock);
    PreserveMove(s, s', t);
  }

  /** All votes are in: nothing is running, and the decision is drawn after the snapshot. */
  lemma DecideTxn(v: map<ShardId, View>, x: Txn, t: TxnId, mem: Option<Decision>, dur: Option<Decision>, clock: Ts)
    requires TxnInv(v, x, t, mem, dur, clock) && x.thread == PreparePhase(|x.branches|, false)
    ensures TxnInv(v, x.(thread := PersistPhase(clock)), t, Some(Committed(clock)), dur, clock + 1)
  {
    forall sid | sid in v ensures CallsEnd(v[sid].calls, Aborting) {
      CallsWhereAsked(v, x, t, |x.branches|, false, sid);
    }
  }

  lemma DecideKeeps(s: System, t: TxnId, s': System)
    requires Inv(s) && Step(s, Decide(t), s')
    ensures Inv(s')
  {
    assert TxnOk(s, t);
    DecideTxn(Views(s, t), s.txns[t], t, Find(s.memory, t), Find(s.durable, t), s.clock);
    PreserveMove(s, s', t);
  }

  /** The decision becomes durable while every branch is prepared and nothing is running. */
  lemma PersistTxn(v: map<ShardId, View>, x: Txn, t: TxnId, mem: Option<Decision>, dur: Option<Decision>, clock: Ts)
    requires TxnInv(v, x, t, mem, dur, clock) && x.thread.PersistPhase?
    ensures TxnInv(v, x.(thread := CommitPhase(x.thread.ts, 0)), t, mem, Some(Committed(x.thread.ts)), clock)
    ensures TxnInv(v, x.(thread := Stopped), t, mem, dur, clock)
  {
    forall sid | sid in v ensures v[sid].calls == map[] { CallsWhereAsked(v, x, t, |x.branches|, false, sid); }
    assert x.branches[..|x.branches|] == x.branches;
  }

  lemma PersistKeeps(s: System, t: TxnId, logged: bool, s': System)
    requires Inv(s) && Step(s, Persist(t, logged), s')
    ensures Inv(s')
  {
    assert TxnOk(s, t);
    PersistTxn(Views(s, t), s.txns[t], t, Find(s.memory, t), Find(s.durable, t), s.clock);
    PreserveMove(s, s', t);
  }

  /** A thread with no call running may stop anywhere. */
  lemma StopTxn(v: map<ShardId, View>, x: Txn, t: TxnId, mem: Option<Decision>, dur: Option<Decision>, clock: Ts)
    requires TxnInv(v, x, t, mem, dur, clock)
    requires forall sid :: sid in v ==> Driver(t) !in v[sid].calls
    ensures TxnInv(v, x.(thread := Stopped), t, mem, dur, clock)
  {
    if x.thread.PreparePhase? {
      forall sid | sid in v ensures v[sid].calls == map[] {
        CallsWhereAsked(v, x, t, x.thread.next, x.thread.asked, sid);
        assert v[sid].calls != map[] ==> IsAsking(v[sid].calls, t, x.readTs, x.branches[x.thread.next]);
      }
    }
  }

  lemma ReturnKeeps(s: System, t: TxnId, s': System)
    requires Inv(s) && Step(s, Return(t), s')
    ensures Inv(s')
  {
    assert TxnOk(s, t);
    StopTxn(Views(s, t), s.txns[t], t, Find(s.memory, t), Find(s.durable, t), s.clock);
    PreserveMove(s, s', t);
  }

  lemma ReopenTxn(v: map<ShardId, View>, x: Txn, t: TxnId, mem: Option<Decision>, dur: Option<Decision>, clock: Ts)
    requires TxnInv(v, x, t, mem, dur, clock)
    requires forall sid :: sid in v ==> v[sid].calls == map[]
    ensures TxnInv(v, x.(thread := Stopped), t, dur, dur, 1)
  {
  }

  lemma ReopenAt(s: System, u: TxnId)
    requires InvAt(s, u) && forall sid :: sid in s.shards ==> s.shards[sid].calls == map[]
    ensures InvAt(Reopened(s), u)
  {
    SameViews(s, Reopened(s), u);
    ReopenTxn(Views(s, u), s.txns[u], u, Find(s.memory, u), Find(s.durable, u), s.clock);
  }

  lemma ReopenKeeps(s: System, s': System)
    requires Inv(s) && Step(s, Reopen, s')
    ensures Inv(s')
  {
    forall u ensures TxnOk(s', u) {
      assert TxnOk(s, u);
      if u in s.txns { ReopenAt(s, u); }
    }
    forall u ensures Unknown(s', u) { assert Unknown(s, u); }
    forall sid ensures ShardOk(s', sid) { assert ShardOk(s, sid); }
  }

  // ---------------------------------------------------------------- participant sections

  /** What a section does to the calls of its own transaction. */
  lemma OwnCalls(m: Machine, e: Section)
    requires Enabled(m, e) && !e.Append? && !e.Crash?
    ensures CallsOf(After(m, e).calls, TxnOf(m, e)) ==
            if e.c in After(m, e).calls then CallsOf(m.calls, TxnOf(m, e))[e.c := After(m, e).calls[e.c]]
            else CallsOf(m.calls, TxnOf(m, e)) - {e.c}
  {
  }

  lemma MyCall(m: Machine, t: TxnId, c: Caller)
    requires c in m.calls && m.calls[c].txn == t
    ensures c in ViewOf(m, t).calls && ViewOf(m, t).calls[c] == m.calls[c]
  {
  }

  /** The sections of a commit or an abort stay one. */
  lemma StillEnding(m: Machine, e: Section, ending: Ending)
    requires Enabled(m, e) && (e.Miss? || e.Take? || e.Unlock? || e.Apply? || e.LogEnd?)
    requires CallsEnd(ViewOf(m, TxnOf(m, e)).calls, ending)
    ensures CallsEnd(ViewOf(After(m, e), TxnOf(m, e)).calls, ending)
  {
    OwnCalls(m, e);
    MyCall(m, TxnOf(m, e), e.c);
  }

  lemma StartsEnding(m: Machine, c: Caller, t: TxnId, ending: Ending)
    requires c !in m.calls && CallsEnd(ViewOf(m, t).calls, ending)
    ensures CallsEnd(ViewOf(After(m, Start(c, t, ending)), t).calls, ending)
    ensures forall d :: d in m.calls && m.calls[d].txn == t ==> HasEnding(m.calls[d], ending)
  {
    OwnCalls(m, Start(c, t, ending));
    forall d | d in m.calls && m.calls[d].txn == t ensures HasEnding(m.calls[d], ending) { MyCall(m, t, d); }
  }

  /** The sections of a prepare stay that prepare's. */
  lemma StillAsking(m: Machine, e: Section, readTs: Ts, b: Branch)
    requires Enabled(m, e) && (e.Refuse? || e.Lock? || e.LogPrepare?)
    requires IsAsking(ViewOf(m, TxnOf(m, e)).calls, TxnOf(m, e), readTs, b)
    ensures IsAsking(ViewOf(After(m, e), TxnOf(m, e)).calls, TxnOf(m, e), readTs, b)
  {
    OwnCalls(m, e);
    MyCall(m, TxnOf(m, e), e.c);
  }

  /** One transaction and one shard of the system. */
  ghost predicate Seen(v: map<ShardId, View>, x: Txn, t: TxnId, mem: Option<Decision>, dur: Option<Decision>, clock: Ts,
                       sid: ShardId, m: Machine) {
    TxnInv(v, x, t, mem, dur, clock) && sid in v && v[sid] == ViewOf(m, t) && Linked(m)
  }

  lemma SystemSeen(s: System, sid: ShardId, t: TxnId)
    requires Inv(s) && t in s.txns && sid in s.shards
    ensures Seen(Views(s, t), s.txns[t], t, Find(s.memory, t), Find(s.durable, t), s.clock, sid, s.shards[sid])
  {
    assert TxnOk(s, t) && ShardOk(s, sid);
  }

  /** A running call belongs to a transaction that has begun. */
  lemma CallerKnown(s: System, sid: ShardId, c: Caller)
    requires Inv(s) && sid in s.shards && c in s.shards[sid].calls
    ensures s.shards[sid].calls[c].txn in s.txns
  {
    var t := s.shards[sid].calls[c].txn;
    MyCall(s.shards[sid], t, c);
    assert Unknown(s, t);
  }

  lemma NothingHere(m: Machine, t: TxnId)
    requires Linked(m) && ViewOf(m, t) == UNTOUCHED
    ensures t !in m.st.pending.prepared && forall d :: d in m.calls ==> m.calls[d].txn != t
  {
    forall d | d in m.calls ensures m.calls[d].txn != t {
      assert m.calls[d].txn == t ==> d in CallsOf(m.calls, t);
    }
  }

  lemma AskTxn(v: map<ShardId, View>, x: Txn, t: TxnId, mem: Option<Decision>, dur: Option<Decision>, clock: Ts,
               sid: ShardId, m: Machine)
    requires Seen(v, x, t, mem, dur, clock, sid, m) && x.thread.PreparePhase? && !x.thread.asked
    requires x.thread.next < |x.branches| && sid == x.branches[x.thread.next].shard && Enabled(m, AskSection(t, x))
    ensures Disciplined(m, AskSection(t, x))
    ensures TxnInv(v[sid := ViewOf(After(m, AskSection(t, x)), t)], x.(thread := x.thread.(asked := true)), t, mem,
                   dur, clock)
  {
    var e := AskSection(t, x);
    FreshBranch(x, x.thread.next);
    assert v[sid] == UNTOUCHED;
    NothingHere(m, t);
    SilentView(m, e, t);
    OwnCalls(m, e);
    AskedTxn(v, x, t, mem, dur, clock, ViewOf(After(m, e), t));
  }

  lemma AskKeeps(s: System, t: TxnId, s': System)
    requires Inv(s) && Step(s, Ask(t), s')
    ensures Inv(s')
  {
    var x, sid := s.txns[t], TheBranch(s, t).shard;
    SystemSeen(s, sid, t);
    AskTxn(Views(s, t), x, t, Find(s.memory, t), Find(s.durable, t), s.clock, sid, s.shards[sid]);
    PreserveSection(s, sid, AskSection(t, x), t, x.(thread := x.thread.(asked := true)));
  }

  lemma AskingTxn(v: map<ShardId, View>, x: Txn, t: TxnId, mem: Option<Decision>, dur: Option<Decision>, clock: Ts,
                  sid: ShardId, m: Machine, e: Section)
    requires Seen(v, x, t, mem, dur, clock, sid, m) && (e.Refuse? || e.Lock? || e.LogPrepare?)
    requires Enabled(m, e) && t == TxnOf(m, e)
    ensures TxnInv(v[sid := ViewOf(After(m, e), t)], x, t, mem, dur, clock)
  {
    MyCall(m, t, e.c);
    WhoCalls(v, x, t, mem, dur, clock, sid, e.c);
    StillAsking(m, e, x.readTs, x.branches[x.thread.next]);
    if e.LogPrepare? {
      LogAfter(m, e);
      RecordView(m.st.log, Writes(m, e).value, t);
    } else {
      SilentView(m, e, t);
    }
    AskedTxn(v, x, t, mem, dur, clock, ViewOf(After(m, e), t));
    assert x.(thread := x.thread.(asked := true)) == x;
  }

  lemma InsertTxn(v: map<ShardId, View>, x: Txn, t: TxnId, mem: Option<Decision>, dur: Option<Decision>, clock: Ts,
                  sid: ShardId, m: Machine, ack: bool)
    requires Seen(v, x, t, mem, dur, clock, sid, m) && x.thread.PreparePhase? && x.thread.asked
    requires sid == x.branches[x.thread.next].shard
    requires Enabled(m, Insert(Driver(t))) && t == TxnOf(m, Insert(Driver(t)))
    ensures TxnInv(v[sid := ViewOf(After(m, Insert(Driver(t))), t)],
                   x.(thread := if ack then PreparePhase(x.thread.next + 1, false)
                      else AbortPhase(AbortOrder(x.branches))),
                   t, mem, dur, clock)
  {
    var e := Insert(Driver(t));
    assert CallLinked(m.st.pending.prepared, m.st.log, m.calls[Driver(t)]);
    assert e.c in v[sid].calls && v[sid].calls[e.c] == m.calls[e.c];
    WhoCalls(v, x, t, mem, dur, clock, sid, e.c);
    SilentView(m, e, t);
    OwnCalls(m, e);
    assert ViewOf(After(m, e), t).calls == map[];
    VoteTxn(v, x, t, mem, dur, clock, ViewOf(After(m, e), t), AbortOrder(x.branches));
  }

  lemma VoteKeeps(s: System, t: TxnId, ack: bool, s': System)
    requires Inv(s) && Step(s, Vote(t, ack), s')
    ensures Inv(s')
  {
    var x, sid := s.txns[t], TheBranch(s, t).shard;
    assert ShardOk(s, sid);
    SystemSeen(s, sid, t);
    InsertTxn(Views(s, t), x, t, Find(s.memory, t), Find(s.durable, t), s.clock, sid, s.shards[sid], ack);
    PreserveSection(s, sid, Insert(Driver(t)), t, s'.txns[t]);
  }

  /** A commit or an abort of the transaction is started, by whomever. */
  lemma StartTxn(v: map<ShardId, View>, x: Txn, t: TxnId, mem: Option<Decision>, dur: Option<Decision>, clock: Ts,
                 sid: ShardId, m: Machine, c: Caller)
    requires Seen(v, x, t, mem, dur, clock, sid, m) && PastVotes(x) && c !in m.calls
    ensures Disciplined(m, Start(c, t, Choice(dur)))
    ensures TxnInv(v[sid := ViewOf(After(m, Start(c, t, Choice(dur))), t)], x, t, mem, dur, clock)
  {
    var e := Start(c, t, Choice(dur));
    assert CallsEnd(v[sid].calls, Choice(dur));
    StartsEnding(m, c, t, Choice(dur));
    assert t in Held(m.st.log) ==> v[sid].held.Some? && v[sid].snapshot == x.readTs;
    SilentView(m, e, t);
    EndingCalls(v, x, t, mem, dur, clock, sid, ViewOf(After(m, e), t).calls);
  }

  lemma StartKeeps(s: System, sid: ShardId, c: Caller, t: TxnId)
    requires Inv(s) && t in s.txns && PastVotes(s.txns[t]) && sid in s.shards && c !in s.shards[sid].calls
    requires c.Driver? ==> c.txn == t
    ensures Inv(PutShard(s, sid, After(s.shards[sid], Start(c, t, Choice(Find(s.durable, t))))))
  {
    SystemSeen(s, sid, t);
    StartTxn(Views(s, t), s.txns[t], t, Find(s.memory, t), Find(s.durable, t), s.clock, sid, s.shards[sid], c);
    PreserveWithin(s, sid, Start(c, t, Choice(Find(s.durable, t))), t);
  }

  /** Sections of a commit or an abort that write no record. */
  lemma EndingTxn(v: map<ShardId, View>, x: Txn, t: TxnId, mem: Option<Decision>, dur: Option<Decision>, clock: Ts,
                  sid: ShardId, m: Machine, e: Section)
    requires Seen(v, x, t, mem, dur, clock, sid, m) && (e.Miss? || e.Take? || e.Unlock? || e.Apply?)
    requires Enabled(m, e) && t == TxnOf(m, e)
    ensures TxnInv(v[sid := ViewOf(After(m, e), t)], x, t, mem, dur, clock) && PastVotes(x)
  {
    MyCall(m, t, e.c);
    WhoCalls(v, x, t, mem, dur, clock, sid, e.c);
    SilentView(m, e, t);
    assert CallsEnd(v[sid].calls, Choice(dur));
    StillEnding(m, e, Choice(dur));
    EndingCalls(v, x, t, mem, dur, clock, sid, ViewOf(After(m, e), t).calls);
  }

  lemma LogEndView(m: Machine, c: Caller)
    requires Enabled(m, LogEnd(c))
    ensures ViewOf(After(m, LogEnd(c)), m.calls[c].txn) ==
            View(None, 0, ViewOf(m, m.calls[c].txn).resolved + [Record(m.calls[c])],
                 ViewOf(After(m, LogEnd(c)), m.calls[c].txn).calls)
  {
    LogAfter(m, LogEnd(c));
    RecordView(m.st.log, Record(m.calls[c]), m.calls[c].txn);
  }

  lemma LogCommitTxn(v: map<ShardId, View>, x: Txn, t: TxnId, mem: Option<Decision>, dur: Option<Decision>, clock: Ts,
                     sid: ShardId, w: View, ts: Ts)
    requires TxnInv(v, x, t, mem, dur, clock) && sid in v && PastVotes(x) && Choice(dur) == Committing(ts)
    requires v[sid].held.Some? && CallsEnd(w.calls, Committing(ts))
    requires w == View(None, 0, v[sid].resolved + [TxnCommit(t, ts, v[sid].held.value)], w.calls)
    ensures TxnInv(v[sid := w], x, t, mem, dur, clock)
  {
    CommitOne(v, x, t, mem, ts, clock, sid, w.calls);
  }

  lemma HeldByCommit(m: Machine, c: Caller)
    requires Linked(m) && Enabled(m, LogEnd(c)) && m.calls[c].ending.Committing?
    ensures ViewOf(m, m.calls[c].txn).held == m.calls[c].taken
  {
    assert CallLinked(m.st.pending.prepared, m.st.log, m.calls[c]);
  }

  /** The record that resolves the transaction on one shard. */
  lemma LogEndTxn(v: map<ShardId, View>, x: Txn, t: TxnId, mem: Option<Decision>, dur: Option<Decision>, clock: Ts,
                  sid: ShardId, m: Machine, c: Caller)
    requires Seen(v, x, t, mem, dur, clock, sid, m) && Enabled(m, LogEnd(c)) && t == m.calls[c].txn
    ensures TxnInv(v[sid := ViewOf(After(m, LogEnd(c)), t)], x, t, mem, dur, clock)
  {
    var w := ViewOf(After(m, LogEnd(c)), t);
    MyCall(m, t, c);
    WhoCalls(v, x, t, mem, dur, clock, sid, c);
    LogEndView(m, c);
    assert CallsEnd(v[sid].calls, Choice(dur));
    StillEnding(m, LogEnd(c), Choice(dur));
    if m.calls[c].ending.Committing? {
      HeldByCommit(m, c);
      LogCommitTxn(v, x, t, mem, dur, clock, sid, w, m.calls[c].ending.ts);
    } else {
      AbortOne(v, x, t, mem, dur, clock, sid, w.calls);
    }
  }

  lemma InnerTxn(v: map<ShardId, View>, x: Txn, t: TxnId, mem: Option<Decision>, dur: Option<Decision>, clock: Ts,
                 sid: ShardId, m: Machine, e: Section)
    requires Seen(v, x, t, mem, dur, clock, sid, m)
    requires Inner(m, e) && !e.Append? && Enabled(m, e) && t == TxnOf(m, e)
    ensures TxnInv(v[sid := ViewOf(After(m, e), t)], x, t, mem, dur, clock)
  {
    if e.Refuse? || e.Lock? || e.LogPrepare? {
      AskingTxn(v, x, t, mem, dur, clock, sid, m, e);
    } else if e.LogEnd? {
      LogEndTxn(v, x, t, mem, dur, clock, sid, m, e.c);
    } else {
      EndingTxn(v, x, t, mem, dur, clock, sid, m, e);
    }
  }

  /** A section after which no thread moves. */
  lemma WithinKeeps(s: System, sid: ShardId, e: Section)
    requires Inv(s) && sid in s.shards && Inner(s.shards[sid], e) && !e.Append? && Enabled(s.shards[sid], e)
    ensures Inv(PutShard(s, sid, After(s.shards[sid], e)))
  {
    var t := TxnOf(s.shards[sid], e);
    CallerKnown(s, sid, e.c);
    SystemSeen(s, sid, t);
    InnerTxn(Views(s, t), s.txns[t], t, Find(s.memory, t), Find(s.durable, t), s.clock, sid, s.shards[sid], e);
    PreserveWithin(s, sid, e, t);
  }

  /** Phase 2, of either kind, goes on to its next shard. */
  lemma NextShard(v: map<ShardId, View>, x: Txn, t: TxnId, mem: Option<Decision>, dur: Option<Decision>, clock: Ts,
                  x': Txn)
    requires TxnInv(v, x, t, mem, dur, clock) && x' == x.(thread := x'.thread)
    requires || (x.thread.AbortPhase? && x'.thread.AbortPhase?)
             || (x.thread.CommitPhase? && x'.thread.CommitPhase? && x'.thread.ts == x.thread.ts)
    ensures TxnInv(v, x', t, mem, dur, clock)
  {
  }

  lemma EndAbortKeeps(s: System, t: TxnId, s': System)
    requires Inv(s) && Step(s, EndAbort(t), s')
    ensures Inv(s')
  {
    var x, sid := s.txns[t], s.txns[t].thread.todo[0];
    var m, mem, dur := s.shards[sid], Find(s.memory, t), Find(s.durable, t);
    var x' := x.(thread := AbortPhase(x.thread.todo[1..]));
    assert ShardOk(s, sid);
    SystemSeen(s, sid, t);
    LogEndTxn(Views(s, t), x, t, mem, dur, s.clock, sid, m, Driver(t));
    NextShard(Views(s, t)[sid := ViewOf(After(m, LogEnd(Driver(t))), t)], x, t, mem, dur, s.clock, x');
    PreserveSection(s, sid, LogEnd(Driver(t)), t, x');
  }

  lemma EndCommitOn(s: System, t: TxnId, sid: ShardId, x': Txn)
    requires Inv(s) && t in s.txns && s.txns[t].thread.CommitPhase?
    requires sid in s.shards && Enabled(s.shards[sid], Apply(Driver(t)))
    requires x' == s.txns[t].(thread := CommitPhase(s.txns[t].thread.ts, s.txns[t].thread.next + 1))
    ensures Inv(PutShard(Put(s, t, x'), sid, After(s.shards[sid], Apply(Driver(t)))))
  {
    var m, mem, dur := s.shards[sid], Find(s.memory, t), Find(s.durable, t);
    assert ShardOk(s, sid);
    SystemSeen(s, sid, t);
    EndingTxn(Views(s, t), s.txns[t], t, mem, dur, s.clock, sid, m, Apply(Driver(t)));
    NextShard(Views(s, t)[sid := ViewOf(After(m, Apply(Driver(t))), t)], s.txns[t], t, mem, dur, s.clock, x');
    PreserveSection(s, sid, Apply(Driver(t)), t, x');
  }

  lemma AppendKeeps(s: System, sid: ShardId)
    requires Inv(s) && sid in s.shards
    ensures Inv(PutShard(s, sid, After(s.shards[sid], Append)))
  {
    var s' := PutShard(s, sid, After(s.shards[sid], Append));
    assert ShardOk(s, sid);
    StepKeepsLinked(s.shards[sid], Append, After(s.shards[sid], Append));
    forall q ensures ShardOk(s', q) { assert ShardOk(s, q); }
    forall u, q | q in s.shards ensures ViewOf(s'.shards[q], u) == ViewOf(s.shards[q], u) {
      OthersUnseen(s.shards[sid], Append, u);
    }
    forall u ensures TxnOk(s', u) {
      assert TxnOk(s, u);
      SameViews(s, s', u);
    }
    forall u ensures Unknown(s', u) { assert Unknown(s, u); }
  }

  lemma CrashView(m: Machine, t: TxnId)
    ensures ViewOf(After(m, Section.Crash), t) == ViewOf(m, t).(calls := map[])
  {
  }

  lemma CrashAt(s: System, sid: ShardId, u: TxnId)
    requires InvAt(s, u) && sid in s.shards
    ensures InvAt(PutShard(s, sid, After(s.shards[sid], Section.Crash)), u)
  {
    var s' := PutShard(s, sid, After(s.shards[sid], Section.Crash));
    CrashView(s.shards[sid], u);
    DropCalls(Views(s, u), s.txns[u], u, Find(s.memory, u), Find(s.durable, u), s.clock, sid);
    PutView(s, s', sid, u);
  }

  lemma CrashKeeps(s: System, sid: ShardId)
    requires Inv(s) && sid in s.shards
    ensures Inv(PutShard(s, sid, After(s.shards[sid], Section.Crash)))
  {
    var s' := PutShard(s, sid, After(s.shards[sid], Section.Crash));
    assert ShardOk(s, sid);
    StepKeepsLinked(s.shards[sid], Section.Crash, s'.shards[sid]);
    forall q ensures ShardOk(s', q) { assert ShardOk(s, q); }
    forall u ensures TxnOk(s', u) {
      assert TxnOk(s, u);
      if u in s.txns { CrashAt(s, sid, u); }
    }
    forall u ensures Unknown(s', u) {
      assert Unknown(s, u);
      CrashView(s.shards[sid], u);
    }
  }

  /** A recovery started under the guard does what the durable decision says. */
  lemma RecoverChoice(v: map<ShardId, View>, x: Txn, t: TxnId, mem: Option<Decision>, dur: Option<Decision>, clock: Ts)
    requires TxnInv(v, x, t, mem, dur, clock) && !x.thread.Idle?
    requires !x.thread.PreparePhase? && !Undurable(mem, dur)
    ensures PastVotes(x) && Choice(mem) == Choice(dur)
  {
  }

  lemma RecoverKeeps(s: System, sid: ShardId, t: TxnId, id: nat, s': System)
    requires Inv(s) && Step(s, Recover(sid, t, id), s') && MayRecover(s, t)
    ensures Inv(s')
  {
    assert TxnOk(s, t);
    RecoverChoice(Views(s, t), s.txns[t], t, Find(s.memory, t), Find(s.durable, t), s.clock);
    StartKeeps(s, sid, Recovery(id), t);
  }

  lemma DriverStarts(s: System, t: TxnId)
    requires Inv(s) && t in s.txns && (s.txns[t].thread.AbortPhase? || s.txns[t].thread.CommitPhase?)
    ensures Choice(Find(s.durable, t)) ==
            if s.txns[t].thread.AbortPhase? then Aborting else Committing(s.txns[t].thread.ts)
  {
    assert TxnOk(s, t);
  }

  /** The steps that leave every shard alone. */
  predicate OnCoordinator(a: Action) {
    OnCall(a) || a.FinishAbort? || a.Decide? || a.Persist? || a.Reopen?
  }

  predicate OnCall(a: Action) {
    a.Begin? || a.Drive? || a.Refused? || a.SkipAbort? || a.Return?
  }

  lemma CallKeeps(s: System, a: Action, s': System)
    requires Inv(s) && Step(s, a, s') && OnCall(a)
    ensures Inv(s')
  {
    match a
    case Begin => BeginKeeps(s, s');
    case Drive(t, bs) => DriveKeeps(s, t, bs, s');
    case Refused(t) => RefusedKeeps(s, t, s');
    case SkipAbort(t) => SkipAbortKeeps(s, t, s');
    case Return(t) => ReturnKeeps(s, t, s');
  }

  lemma CoordinatorKeeps(s: System, a: Action, s': System)
    requires Inv(s) && Step(s, a, s') && OnCoordinator(a) && !OnCall(a)
    ensures Inv(s')
  {
    match a
    case FinishAbort(t, logged) => FinishAbortKeeps(s, t, logged, s');
    case Decide(t) => DecideKeeps(s, t, s');
    case Persist(t, logged) => PersistKeeps(s, t, logged, s');
    case Reopen => ReopenKeeps(s, s');
  }

  lemma DriverStartKeeps(s: System, t: TxnId, sid: ShardId, ending: Ending)
    requires Inv(s) && t in s.txns && (s.txns[t].thread.AbortPhase? || s.txns[t].thread.CommitPhase?)
    requires sid in s.shards && Driver(t) !in s.shards[sid].calls
    requires ending == if s.txns[t].thread.AbortPhase? then Aborting else Committing(s.txns[t].thread.ts)
    ensures Inv(PutShard(s, sid, After(s.shards[sid], Start(Driver(t), t, ending))))
  {
    DriverStarts(s, t);
    StartKeeps(s, sid, Driver(t), t);
  }

  predicate OnVote(a: Action) {
    a.Ask? || a.Vote? || a.Within? || a.Recover? || a.ShardCrash?
  }

  lemma VotingKeeps(s: System, a: Action, s': System)
    requires Inv(s) && Step(s, a, s') && Careful(s, a) && OnVote(a)
    ensures Inv(s')
  {
    match a
    case Ask(t) => AskKeeps(s, t, s');
    case Vote(t, ack) => VoteKeeps(s, t, ack, s');
    case Within(sid, e) => if e.Append? { AppendKeeps(s, sid); } else { WithinKeeps(s, sid, e); }
    case Recover(sid, t, id) => RecoverKeeps(s, sid, t, id, s');
    case ShardCrash(sid) => CrashKeeps(s, sid);
  }

  lemma EndingPhaseKeeps(s: System, a: Action, s': System)
    requires Inv(s) && Step(s, a, s') && !OnCoordinator(a) && !OnVote(a)
    ensures Inv(s')
  {
    match a
    case StartAbort(t) => DriverStartKeeps(s, t, s.txns[t].thread.todo[0], Aborting);
    case EndAbort(t) => EndAbortKeeps(s, t, s');
    case StartCommit(t) =>
      DriverStartKeeps(s, t, s.txns[t].branches[s.txns[t].thread.next].shard, Committing(s.txns[t].thread.ts));
    case EndCommit(t) => EndCommitOn(s, t, s.txns[t].branches[s.txns[t].thread.next].shard, s'.txns[t]);
  }

  lemma StepKeeps(s: System, a: Action, s': System)
    requires Inv(s) && Step(s, a, s') && Careful(s, a)
    ensures Inv(s')
  {
    if OnCall(a) {
      CallKeeps(s, a, s');
    } else if OnCoordinator(a) {
      CoordinatorKeeps(s, a, s');
    } else if OnVote(a) {
      VotingKeeps(s, a, s');
    } else {
      EndingPhaseKeeps(s, a, s');
    }
  }

  lemma InitialInv(s: System)
    requires Initial(s)
    ensures Inv(s)
  {
    forall t, sid | sid in s.shards ensures ViewOf(s.shards[sid], t) == UNTOUCHED {}
    forall sid ensures ShardOk(s, sid) {}
    forall t ensures Unknown(s, t) {}
  }

  lemma {:induction false} RunKeeps(ss: seq<System>, acts: seq<Action>, n: nat)
    requires Run(ss, acts) && n < |ss|
    ensures Inv(ss[n])
  {
    if n == 0 {
      InitialInv(ss[0]);
    } else {
      RunKeeps(ss, acts, n - 1);
      assert StepAt(ss, acts, n - 1) && Careful(ss[n - 1], acts[n - 1]);
      StepKeeps(ss[n - 1], acts[n - 1], ss[n]);
    }
  }

  // ---------------------------------------------------------------- main results

  lemma ReachableTxn(ss: seq<System>, acts: seq<Action>, n: nat, t: TxnId)
    requires Run(ss, acts) && n < |ss| && t in ss[n].txns
    ensures InvAt(ss[n], t)
  {
    RunKeeps(ss, acts, n);
    assert TxnOk(ss[n], t);
  }

  /** Only a transaction that has begun leaves a record. */
  lemma RecordKnown(ss: seq<System>, acts: seq<Action>, n: nat, sid: ShardId, t: TxnId)
    requires Run(ss, acts) && n < |ss| && sid in ss[n].shards && Resolved(ss[n].shards[sid].st.log, t) != []
    ensures t in ss[n].txns
  {
    RunKeeps(ss, acts, n);
    assert Unknown(ss[n], t);
    assert ViewOf(ss[n].shards[sid], t).resolved == Resolved(ss[n].shards[sid].st.log, t);
  }

  lemma {:induction false} ResolvedHas(log: seq<Command>, t: TxnId, i: nat)
    requires i < |log| && (log[i].TxnCommit? || log[i].TxnAbort?) && log[i].txn == t
    ensures log[i] in Resolved(log, t)
  {
    if i < |log| - 1 { ResolvedHas(log[..|log| - 1], t, i); }
  }

  lemma BranchOrUntouched(v: map<ShardId, View>, x: Txn, t: TxnId, ts: Ts, sid: ShardId)
    requires CommitsEverywhere(v, x, t, ts) && sid in v
    ensures v[sid].resolved == [] ||
            exists i :: 0 <= i < |x.branches| && x.branches[i].shard == sid && Applied(v, x.branches[i], t, ts)
  {
    if i :| 0 <= i < |x.branches| && x.branches[i].shard == sid {
      assert Holding(v, x.branches[i]) || Applied(v, x.branches[i], t, ts);
    }
  }

  lemma ResolvedCommit(v: map<ShardId, View>, x: Txn, t: TxnId, mem: Option<Decision>, dur: Option<Decision>, clock: Ts,
                       sid: ShardId, c: Command)
    requires TxnInv(v, x, t, mem, dur, clock) && sid in v && c in v[sid].resolved && c.TxnCommit? && c.txn == t
    ensures dur == Some(Committed(c.commitTs)) && IsBranch(x.branches, sid, c.ops)
  {
    if dur.Some? && dur.value.Committed? {
      BranchOrUntouched(v, x, t, dur.value.ts, sid);
    }
  }

  lemma NoAbortRecord(v: map<ShardId, View>, x: Txn, t: TxnId, mem: Option<Decision>, dur: Option<Decision>, clock: Ts,
                      sid: ShardId, c: Command)
    requires TxnInv(v, x, t, mem, dur, clock) && sid in v && c in v[sid].resolved && c.TxnAbort?
    ensures dur.Some? ==> dur.value.Aborted?
  {
    if dur.Some? && dur.value.Committed? {
      BranchOrUntouched(v, x, t, dur.value.ts, sid);
    }
  }

  /** Every commit record on a shard belongs to a branch of a transaction whose durable
      decision is Committed with that same timestamp. */
  lemma AppliedMeansDecided(ss: seq<System>, acts: seq<Action>, n: nat, sid: ShardId, i: nat)
    requires Run(ss, acts) && n < |ss| && sid in ss[n].shards
    requires i < |ss[n].shards[sid].st.log| && ss[n].shards[sid].st.log[i].TxnCommit?
    ensures var c := ss[n].shards[sid].st.log[i];
      && c.txn in ss[n].txns && Find(ss[n].durable, c.txn) == Some(Committed(c.commitTs))
      && IsBranch(ss[n].txns[c.txn].branches, sid, c.ops)
  {
    var s, c := ss[n], ss[n].shards[sid].st.log[i];
    ResolvedHas(s.shards[sid].st.log, c.txn, i);
    RecordKnown(ss, acts, n, sid, c.txn);
    ReachableTxn(ss, acts, n, c.txn);
    ResolvedCommit(Views(s, c.txn), s.txns[c.txn], c.txn, Find(s.memory, c.txn), Find(s.durable, c.txn), s.clock, sid,
                   c);
  }

  /** No shard ever logs an abort of a transaction whose durable decision is Committed. */
  lemma DecidedNeverAborted(ss: seq<System>, acts: seq<Action>, n: nat, sid: ShardId, i: nat)
    requires Run(ss, acts) && n < |ss| && sid in ss[n].shards
    requires i < |ss[n].shards[sid].st.log| && ss[n].shards[sid].st.log[i].TxnAbort?
    ensures var d := Find(ss[n].durable, ss[n].shards[sid].st.log[i].txn); d.Some? ==> d.value.Aborted?
  {
    var s, c := ss[n], ss[n].shards[sid].st.log[i];
    ResolvedHas(s.shards[sid].st.log, c.txn, i);
    RecordKnown(ss, acts, n, sid, c.txn);
    ReachableTxn(ss, acts, n, c.txn);
    NoAbortRecord(Views(s, c.txn), s.txns[c.txn], c.txn, Find(s.memory, c.txn), Find(s.durable, c.txn), s.clock, sid,
                  c);
  }

  /** All branches of `x` were applied exactly once at the decided timestamp. */
  predicate AppliedEverywhere(v: map<ShardId, View>, x: Txn, t: TxnId, dur: Option<Decision>) {
    && dur.Some? && dur.value.Committed?
    && forall i :: 0 <= i < |x.branches| ==> Applied(v, x.branches[i], t, dur.value.ts)
  }

  predicate AppliedNowhere(v: map<ShardId, View>) {
    forall sid :: sid in v ==> OnlyAborts(v[sid].resolved)
  }

  lemma Settled(v: map<ShardId, View>, x: Txn, t: TxnId, mem: Option<Decision>, dur: Option<Decision>, clock: Ts)
    requires TxnInv(v, x, t, mem, dur, clock)
    requires forall sid :: sid in v ==> v[sid].held == None
    ensures if dur.Some? && dur.value.Committed? then AppliedEverywhere(v, x, t, dur) else AppliedNowhere(v)
  {
    if dur.Some? && dur.value.Committed? {
      forall i | 0 <= i < |x.branches| ensures Applied(v, x.branches[i], t, dur.value.ts) {
        assert Holding(v, x.branches[i]) || Applied(v, x.branches[i], t, dur.value.ts);
      }
    }
  }

  /** The shard neither holds the transaction prepared nor runs a call of it. */
  ghost predicate Free(m: Machine, t: TxnId) {
    t !in m.st.pending.prepared && forall c :: c in m.calls ==> m.calls[c].txn != t
  }

  lemma FreeIsNotHeld(m: Machine, t: TxnId)
    requires Linked(m) && Free(m, t)
    ensures t !in Held(m.st.log)
  {
    forall u | u in Held(m.st.log) ensures u != t { assert Accounted(m, u, Held(m.st.log)[u]); }
  }

  /** Atomicity.  Once no shard holds the transaction or runs a call of it, which is what
      `recover_participant` on its shards achieves, either every branch was applied exactly
      once at the decided timestamp, or no shard applied anything. */
  lemma AllOrNothing(ss: seq<System>, acts: seq<Action>, n: nat, t: TxnId)
    requires Run(ss, acts) && n < |ss| && t in ss[n].txns
    requires forall sid :: sid in ss[n].shards ==> Free(ss[n].shards[sid], t)
    ensures var v, dur := Views(ss[n], t), Find(ss[n].durable, t);
      if dur.Some? && dur.value.Committed? then AppliedEverywhere(v, ss[n].txns[t], t, dur) else AppliedNowhere(v)
  {
    ReachableTxn(ss, acts, n, t);
    RunKeeps(ss, acts, n);
    var s := ss[n];
    forall sid | sid in s.shards ensures Views(s, t)[sid].held == None {
      assert ShardOk(s, sid);
      FreeIsNotHeld(s.shards[sid], t);
    }
    Settled(Views(s, t), s.txns[t], t, Find(s.memory, t), Find(s.durable, t), s.clock);
  }

  // ---------------------------------------------------------------- decisions and verdicts are permanent

  /** A durable commit decision is never lost or changed. */
  lemma {:induction false} DecisionsStand(ss: seq<System>, acts: seq<Action>, n: nat, m: nat, t: TxnId, ts: Ts)
    requires Run(ss, acts) && n <= m < |ss| && Find(ss[n].durable, t) == Some(Committed(ts))
    ensures Find(ss[m].durable, t) == Some(Committed(ts))
  {
    if n < m {
      DecisionsStand(ss, acts, n, m - 1, t, ts);
      DecidedHasTxn(ss, acts, m - 1, t);
      ReachableTxn(ss, acts, m - 1, t);
      assert StepAt(ss, acts, m - 1);
      DecisionStep(ss[m - 1], acts[m - 1], ss[m], t, ts);
    }
  }

  lemma DecidedHasTxn(ss: seq<System>, acts: seq<Action>, n: nat, t: TxnId)
    requires Run(ss, acts) && n < |ss| && t in ss[n].durable
    ensures t in ss[n].txns
  {
    RunKeeps(ss, acts, n);
    assert Unknown(ss[n], t);
  }

  lemma DecisionStep(s: System, a: Action, s': System, t: TxnId, ts: Ts)
    requires InvAt(s, t) && Step(s, a, s') && Find(s.durable, t) == Some(Committed(ts))
    ensures Find(s'.durable, t) == Some(Committed(ts))
  {
  }

  /** Past the votes, a transaction stays there, and nothing is decided any more. */
  lemma PastStep(s: System, a: Action, s': System, t: TxnId)
    requires Step(s, a, s') && t in s.txns && PastVotes(s.txns[t]) && t < s.nextTxn
    ensures t in s'.txns && PastVotes(s'.txns[t]) && s'.txns[t].branches == s.txns[t].branches
    ensures Choice(Find(s.durable, t)) == Aborting ==> Choice(Find(s'.durable, t)) == Aborting
  {
  }

  /** The three ways a commit or an abort of a branch is started. */
  predicate StartsBy(s: System, a: Action, sid: ShardId, e: Section)
    requires e.Start?
  {
    || (&& (a.StartAbort? || a.StartCommit?) && e.c == Driver(a.t) && e.txn == a.t && a.t in s.txns
        && (s.txns[a.t].thread.AbortPhase? || s.txns[a.t].thread.CommitPhase?)
        && e.ending == if s.txns[a.t].thread.AbortPhase? then Aborting else Committing(s.txns[a.t].thread.ts))
    || (a.Recover? && a.sid == sid && e == Start(Recovery(a.id), a.t, Choice(Find(s.memory, a.t))))
  }

  /** The shard and the section of a step that is not the coordinator's alone. */
  lemma SectionOf(s: System, a: Action, s': System) returns (sid: ShardId, e: Section)
    requires Step(s, a, s') && !OnCoordinator(a)
    ensures sid in s.shards && Enabled(s.shards[sid], e) && s'.shards == s.shards[sid := After(s.shards[sid], e)]
    ensures e.Lock? ==> a == Within(sid, e)
    ensures e.Validate? ==> a.Ask? && sid == TheBranch(s, a.t).shard && e == AskSection(a.t, s.txns[a.t])
    ensures e.Start? ==> StartsBy(s, a, sid, e)
  {
    match a
    case Ask(t) => sid, e := TheBranch(s, t).shard, AskSection(t, s.txns[t]);
    case Vote(t, _) => sid, e := TheBranch(s, t).shard, Insert(Driver(t));
    case Within(q, f) => sid, e := q, f;
    case StartAbort(t) => sid, e := s.txns[t].thread.todo[0], Start(Driver(t), t, Aborting);
    case EndAbort(t) => sid, e := s.txns[t].thread.todo[0], LogEnd(Driver(t));
    case StartCommit(t) =>
      sid, e := s.txns[t].branches[s.txns[t].thread.next].shard, Start(Driver(t), t, Committing(s.txns[t].thread.ts));
    case EndCommit(t) => sid, e := s.txns[t].branches[s.txns[t].thread.next].shard, Apply(Driver(t));
    case Recover(q, t, id) => sid, e := q, Start(Recovery(id), t, Choice(Find(s.memory, t)));
    case ShardCrash(q) => sid, e := q, Section.Crash;
  }
}
